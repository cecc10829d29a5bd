/** The fixed configuration of the mini sequencer (project/settings.py): its five
    tracks with their sample choices and folders, and the render constants. */
module Settings {
  import opened Text

  /** One entry of `TRACKS`: the label, the sample files offered, the folder under
      `sounds/` they are read from. */
  datatype Track = Track(name: string, options: seq<string>, folder: string)

  const TRACKS: seq<Track> := [
    Track("Kick", ["basicKick.wav", "hardcoreKick.wav", "juicek.wav"], "kicks"),
    Track("Snare", ["snap.wav", "snareSpooky.wav", "snareTechno.wav", "juice.wav"], "claps"),
    Track("Hat", ["highhat.wav"], "hats"),
    Track("Misc", ["juiceknock.wav", "juicehihat.wav"], "misc"),
    Track("Misc", ["juiceknock.wav", "juicehihat.wav"], "misc")
  ]

  const DEFAULT_BPM := 120
  const REPEATS := 4
  const OUTPUT_DIR := "./zoutputs"
  const OUTPUT_FILENAME := "test.wav"

  /** Each track offers at least one sample, so the drop-downs start on `options[0]`. */
  predicate WellFormedTracks(tracks: seq<Track>)
  {
    forall i :: 0 <= i < |tracks| ==> |tracks[i].options| > 0
  }

  /** The sample each drop-down starts on. */
  function DefaultSelection(tracks: seq<Track>): (sel: seq<string>)
    requires WellFormedTracks(tracks)
    ensures |sel| == |tracks|
    ensures forall i :: 0 <= i < |tracks| ==> sel[i] == tracks[i].options[0] && sel[i] in tracks[i].options
  {
    seq(|tracks|, i requires 0 <= i < |tracks| => tracks[i].options[0])
  }

  /** The shipped table: five tracks, each offering a sample, the render written to
      `./zoutputs/test.wav`. */
  lemma ShippedSettings()
    ensures |TRACKS| == 5 && WellFormedTracks(TRACKS)
    ensures DefaultSelection(TRACKS) == ["basicKick.wav", "snap.wav", "highhat.wav", "juiceknock.wav", "juiceknock.wav"]
    ensures Join(OUTPUT_DIR, OUTPUT_FILENAME) == "./zoutputs/test.wav"
  {
  }
}

/**
 Worked runs of the processor on concrete paths.
 */
module Scenarios {
  import opened Paths
  import opened Media
  import opened Pipeline

  /** A recording in the media directory, without its extension. */
  const Root: string := "media/interview"

  const Interview: string := Root + ".MP4"

  lemma InterviewExtension()
    ensures ExtDot(Interview, |Root|) && Lower(Interview[|Root|..]) == ".mp4"
  {
    assert Interview[|Root| - 1] == 'w';
    assert Interview[|Root|..] == ".MP4";
  }

  /** The upper-case `.MP4` is a video; it converts to the `.wav` beside it, whose
      transcript is the `.txt` beside it. */
  lemma InterviewPaths()
    ensures Classify(Interview) == Video
    ensures AudioPathOf(Interview) == Root + ".wav"
    ensures TranscriptPathOf(AudioPathOf(Interview)) == Root + ".txt"
  {
    InterviewExtension();
    DerivedAudioIsAudio(Interview, |Root|);
    assert Interview[..|Root|] == Root;
  }

  /** A fresh video whose conversion and transcription succeed: the `.wav` and the `.txt`
      appear beside it and only the `.wav` is recorded. */
  lemma FreshVideoRun(text: string)
    ensures var r := ProcessFile(State(map[], {Interview}), Oracle((s, t) => true, a => Some(text)), Interview);
      && !r.raised
      && r.state.ledger == map[Root + ".wav" := true]
      && r.state.files == {Interview, Root + ".wav", Root + ".txt"}
      && Transcribed(r.effects) == [Root + ".wav"]
  {
    InterviewPaths();
    ConvertedVideoIsTranscribed(State(map[], {Interview}), Oracle((s, t) => true, a => Some(text)), Interview);
  }

  /** A dot file has no extension, so `.mp3` on its own is ignored. */
  lemma DotFileIgnored()
    ensures Classify(".mp3") == Unsupported
  {
    assert !HasNonDot(".mp3", 0, 0);
  }

  /** Of several dots only the last starts the extension, matched in any case. */
  lemma LastDotStartsExtension()
    ensures Classify("take.2" + ".WAV") == Audio
  {
    var w := "take.2" + ".wav";
    assert w[5] == '2' && w[6..] == ".wav";
    assert ExtDot(w, 6);
    WavIsAudio(w, 6);
    assert Lower("take.2" + ".WAV") == Lower(w);
    ClassifyIgnoresCase("take.2" + ".WAV", w);
  }
}

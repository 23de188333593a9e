/**
 The processor's two steps, `transcribe_audio` and `process_file`, as pure
 transitions over the processed-files ledger and the set of existing files.
 The media transcoder and the speech model are oracles supplied by the caller.
 */
module Pipeline {
  import opened Paths
  import opened Media

  datatype Option<T> = None | Some(value: T)

  /** The ledger maps a path to its processed flag (only the key's presence is consulted);
      `files` are the paths that exist on disk. */
  datatype State = State(ledger: map<string, bool>, files: set<string>)

  /** What the outside world answers: whether converting `source` to `target` succeeds,
      and the text the speech model recognises in a file, `None` when the model raises. */
  datatype Oracle = Oracle(converts: (string, string) -> bool, speech: string -> Option<string>)

  /** The observable actions of a step, in order. */
  datatype Effect =
    | SkipNotice(path: string)
    | ConvertInvoked(source: string, target: string)
    | ConvertFailed(source: string)
    | TranscribeInvoked(audio: string)
    | TranscriptWritten(audio: string, path: string, text: string)
    | LedgerSaved(saved: map<string, bool>)

  /** The state after a step, what it did, and whether an exception escaped it. */
  datatype Outcome = Outcome(state: State, effects: seq<Effect>, raised: bool)

  /** The audio paths whose transcripts the effects write, in order. */
  function Transcribed(effects: seq<Effect>): seq<string> {
    if effects == [] then []
    else (if effects[0].TranscriptWritten? then [effects[0].audio] else []) + Transcribed(effects[1..])
  }

  lemma {:induction false} TranscribedAppend(a: seq<Effect>, b: seq<Effect>)
    ensures Transcribed(a + b) == Transcribed(a) + Transcribed(b)
  {
    if a == [] {
      assert a + b == b;
    } else {
      var head := if a[0].TranscriptWritten? then [a[0].audio] else [];
      assert (a + b)[0] == a[0];
      assert (a + b)[1..] == a[1..] + b;
      assert Transcribed(a + b) == head + Transcribed(a[1..] + b);
      assert Transcribed(a) == head + Transcribed(a[1..]);
      TranscribedAppend(a[1..], b);
    }
  }

  /** Effects that write no transcript transcribe nothing. */
  lemma {:induction false} TranscribedNone(effects: seq<Effect>)
    requires forall i :: 0 <= i < |effects| ==> !effects[i].TranscriptWritten?
    ensures Transcribed(effects) == []
  {
    if effects != [] {
      TranscribedNone(effects[1..]);
    }
  }

  /** `ledger` with every path of `keys` marked processed. */
  function MarkAll(ledger: map<string, bool>, keys: seq<string>): map<string, bool> {
    ledger + map k | k in keys :: true
  }

  predicate NoDuplicates(s: seq<string>) {
    forall i, j :: 0 <= i < j < |s| ==> s[i] != s[j]
  }

  lemma MarkAllNone(ledger: map<string, bool>)
    ensures MarkAll(ledger, []) == ledger
  {
  }

  lemma MarkAllConcat(ledger: map<string, bool>, a: seq<string>, b: seq<string>)
    ensures MarkAll(MarkAll(ledger, a), b) == MarkAll(ledger, a + b)
  {
    assert MarkAll(MarkAll(ledger, a), b).Keys == MarkAll(ledger, a + b).Keys;
  }

  /** Two rounds of marking fresh keys are one round of marking both, and the keys stay
      fresh and distinct. */
  lemma MarkAllFreshConcat(ledger: map<string, bool>, a: seq<string>, b: seq<string>)
    requires NoDuplicates(a) && forall k :: k in a ==> k !in ledger
    requires NoDuplicates(b) && forall k :: k in b ==> k !in MarkAll(ledger, a)
    ensures MarkAll(MarkAll(ledger, a), b) == MarkAll(ledger, a + b)
    ensures NoDuplicates(a + b) && forall k :: k in a + b ==> k !in ledger
  {
    MarkAllConcat(ledger, a, b);
    forall i, j | 0 <= i < j < |a + b|
      ensures (a + b)[i] != (a + b)[j]
    {
      if i < |a| && j >= |a| {
        assert (a + b)[i] in a && (a + b)[j] in b;
      }
    }
  }

  lemma MarkAllOne(ledger: map<string, bool>, k: string)
    ensures MarkAll(ledger, [k]) == ledger[k := true]
  {
  }

  /** The ledger in `r` is `before` unchanged with nothing transcribed, or `before` with
      `key`, which it did not hold, marked processed and transcribed as the only one. */
  predicate RecordsAtMost(before: map<string, bool>, r: Outcome, key: string) {
    || (r.state.ledger == before && Transcribed(r.effects) == [])
    || (key !in before && r.state.ledger == before[key := true] && Transcribed(r.effects) == [key] && !r.raised)
  }

  /** A step that records at most `key` marks exactly its transcriptions, all fresh and distinct. */
  lemma RecordsAtMostMarks(before: map<string, bool>, r: Outcome, key: string)
    requires RecordsAtMost(before, r, key)
    ensures r.state.ledger == MarkAll(before, Transcribed(r.effects))
    ensures NoDuplicates(Transcribed(r.effects))
    ensures forall k :: k in Transcribed(r.effects) ==> k == key && k !in before
  {
    if Transcribed(r.effects) == [] {
      MarkAllNone(before);
    } else {
      MarkAllOne(before, key);
    }
  }

  /** `transcribe_audio`: skip a recorded path; otherwise run the speech model, write the
      transcript beside the audio, record the path and persist the ledger. */
  function TranscribeAudio(st: State, o: Oracle, audio: string): (r: Outcome)
    ensures RecordsAtMost(st.ledger, r, audio)
    ensures audio in st.ledger ==> r == Outcome(st, [SkipNotice(audio)], false)
    ensures r.raised <==> audio !in st.ledger && o.speech(audio).None?
    ensures r.raised ==> r.state == st
    ensures !r.raised ==> audio in r.state.ledger
    ensures st.files <= r.state.files <= st.files + {TranscriptPathOf(audio)}
  {
    if audio in st.ledger then
      TranscribedNone([SkipNotice(audio)]);
      Outcome(st, [SkipNotice(audio)], false)
    else
      match o.speech(audio)
      case None =>
        TranscribedNone([TranscribeInvoked(audio)]);
        Outcome(st, [TranscribeInvoked(audio)], true)
      case Some(text) =>
        var transcript := TranscriptPathOf(audio);
        var ledger := st.ledger[audio := true];
        var effects := [TranscribeInvoked(audio), TranscriptWritten(audio, transcript, text), LedgerSaved(ledger)];
        assert Transcribed(effects) == [audio] by {
          TranscribedNone(effects[2..]);
          assert effects[1..][1..] == effects[2..];
        }
        Outcome(State(ledger, st.files + {transcript}), effects, false)
  }

  /** A transcription of an unrecorded path writes the recognised text to the `.txt`
      sibling, and the last thing it does is persist the updated ledger. */
  lemma TranscriptionWritesAndSaves(st: State, o: Oracle, audio: string)
    requires audio !in st.ledger && o.speech(audio).Some?
    ensures var r := TranscribeAudio(st, o, audio);
      && TranscriptWritten(audio, TranscriptPathOf(audio), o.speech(audio).value) in r.effects
      && r.state.files == st.files + {TranscriptPathOf(audio)}
      && r.state.ledger == st.ledger[audio := true]
      && Transcribed(r.effects) == [audio]
      && r.effects[|r.effects| - 1] == LedgerSaved(r.state.ledger)
  {
  }

  /** The transcriber never invokes the converter. */
  lemma TranscriberNeverConverts(st: State, o: Oracle, audio: string)
    ensures var r := TranscribeAudio(st, o, audio);
      forall i :: 0 <= i < |r.effects| ==> !r.effects[i].ConvertInvoked?
  {
  }

  /** The video branch of `process_file`: convert to the `.wav` sibling unless it
      exists, give up if conversion fails, then transcribe the `.wav`. */
  function ProcessVideo(st: State, o: Oracle, video: string): (r: Outcome)
    ensures var audio := AudioPathOf(video);
      && RecordsAtMost(st.ledger, r, audio)
      && (r.raised ==> o.speech(audio).None?)
      && st.files <= r.state.files <= st.files + {audio, TranscriptPathOf(audio)}
      && (audio !in st.files && audio in r.state.files && !r.raised ==> audio in r.state.ledger)
  {
    var audio := AudioPathOf(video);
    if audio in st.files then
      TranscribeAudio(st, o, audio)
    else if o.converts(video, audio) then
      var r := TranscribeAudio(st.(files := st.files + {audio}), o, audio);
      TranscribedAppend([ConvertInvoked(video, audio)], r.effects);
      TranscribedNone([ConvertInvoked(video, audio)]);
      r.(effects := [ConvertInvoked(video, audio)] + r.effects)
    else
      TranscribedNone([ConvertInvoked(video, audio), ConvertFailed(video)]);
      Outcome(st, [ConvertInvoked(video, audio), ConvertFailed(video)], false)
  }

  /** `process_file`: ignore unsupported extensions, skip a recorded path, route a video
      through `ProcessVideo` and transcribe anything else directly. */
  function ProcessFile(st: State, o: Oracle, p: string): (r: Outcome)
    ensures Classify(p) == Unsupported ==> r == Outcome(st, [], false)
    ensures Classify(p) != Unsupported && p in st.ledger ==> r == Outcome(st, [SkipNotice(p)], false)
    ensures RecordsAtMost(st.ledger, r, LedgerKey(p))
    ensures r.raised ==> o.speech(LedgerKey(p)).None?
    ensures st.files <= r.state.files
  {
    var kind := Classify(p);
    if kind == Unsupported then
      TranscribedNone([]);
      Outcome(st, [], false)
    else if p in st.ledger then
      TranscribedNone([SkipNotice(p)]);
      Outcome(st, [SkipNotice(p)], false)
    else if kind == Video then
      ProcessVideo(st, o, p)
    else
      TranscribeAudio(st, o, p)
  }

  /** A step only ever adds `LedgerKey(p)`, marked processed: nothing is removed and no
      existing entry changes. */
  lemma LedgerOnlyGrows(st: State, o: Oracle, p: string)
    ensures var r := ProcessFile(st, o, p);
      && st.ledger.Keys <= r.state.ledger.Keys
      && (forall k :: k in st.ledger ==> r.state.ledger[k] == st.ledger[k])
      && r.state.ledger.Keys - st.ledger.Keys <= {LedgerKey(p)}
      && (LedgerKey(p) in r.state.ledger.Keys - st.ledger.Keys ==> r.state.ledger[LedgerKey(p)])
  {
  }

  /** A video is recorded under its derived audio path, never under its own: the step
      leaves the video's own ledger entry as it was, and a transcription records the `.wav`. */
  lemma VideoRecordedUnderAudioPath(st: State, o: Oracle, v: string)
    requires Classify(v) == Video
    ensures var r := ProcessFile(st, o, v);
      && (v in r.state.ledger <==> v in st.ledger)
      && (Transcribed(r.effects) != [] ==> AudioPathOf(v) in r.state.ledger && AudioPathOf(v) !in st.ledger)
  {
    VideoAudioPathDiffers(v);
    LedgerOnlyGrows(st, o, v);
  }

  /** When the `.wav` sibling already exists the converter is never invoked and the step
      is a transcription of that `.wav`. */
  lemma ExistingWavSkipsConversion(st: State, o: Oracle, v: string)
    requires Classify(v) == Video && v !in st.ledger && AudioPathOf(v) in st.files
    ensures ProcessFile(st, o, v) == TranscribeAudio(st, o, AudioPathOf(v))
    ensures var r := ProcessFile(st, o, v);
      forall i :: 0 <= i < |r.effects| ==> !r.effects[i].ConvertInvoked?
  {
    var a := AudioPathOf(v);
    assert ProcessFile(st, o, v) == ProcessVideo(st, o, v) == TranscribeAudio(st, o, a);
    TranscriberNeverConverts(st, o, a);
  }

  /** The happy path of a new video: the `.wav` is created, transcribed and recorded, and
      its transcript written beside it. */
  lemma ConvertedVideoIsTranscribed(st: State, o: Oracle, v: string)
    requires Classify(v) == Video && v !in st.ledger
    requires AudioPathOf(v) !in st.files && AudioPathOf(v) !in st.ledger
    requires o.converts(v, AudioPathOf(v)) && o.speech(AudioPathOf(v)).Some?
    ensures var a := AudioPathOf(v);
      var r := ProcessFile(st, o, v);
      && !r.raised
      && r.state.ledger == st.ledger[a := true]
      && r.state.files == st.files + {a, TranscriptPathOf(a)}
      && Transcribed(r.effects) == [a]
      && r.effects[0] == ConvertInvoked(v, a)
  {
    var a := AudioPathOf(v);
    var converted := st.(files := st.files + {a});
    var inner := TranscribeAudio(converted, o, a);
    var pre := [ConvertInvoked(v, a)];
    assert ProcessFile(st, o, v) == ProcessVideo(st, o, v) == inner.(effects := pre + inner.effects);
    TranscriptionWritesAndSaves(converted, o, a);
    TranscribedAppend(pre, inner.effects);
    TranscribedNone(pre);
  }

  /** Unless its conversion fails, a video step leaves the `.wav` sibling on disk. */
  lemma VideoStepLeavesWav(st: State, o: Oracle, v: string)
    requires Classify(v) == Video && v !in st.ledger
    requires AudioPathOf(v) in st.files || o.converts(v, AudioPathOf(v))
    ensures AudioPathOf(v) in ProcessFile(st, o, v).state.files
  {
  }

  /** A failed conversion ends the step: nothing is transcribed, recorded or created,
      and the failure is reported rather than raised. */
  lemma ConversionFailureAborts(st: State, o: Oracle, v: string)
    requires Classify(v) == Video && v !in st.ledger
    requires AudioPathOf(v) !in st.files && !o.converts(v, AudioPathOf(v))
    ensures var r := ProcessFile(st, o, v);
      && r.state == st
      && !r.raised
      && Transcribed(r.effects) == []
      && ConvertFailed(v) in r.effects
  {
  }

  /** The only files a step creates are the `.wav` of a converted video and a transcript,
      and a created `.wav` is recorded unless the speech model raised. */
  lemma FilesCreated(st: State, o: Oracle, p: string)
    ensures var r := ProcessFile(st, o, p);
      forall f :: f in r.state.files && f !in st.files ==>
        || f == TranscriptPathOf(LedgerKey(p))
        || (Classify(p) == Video && f == AudioPathOf(p) && (r.raised || f in r.state.ledger))
  {
    if Classify(p) != Unsupported && p !in st.ledger {
      if Classify(p) == Video {
        assert ProcessFile(st, o, p) == ProcessVideo(st, o, p);
        assert LedgerKey(p) == AudioPathOf(p);
      } else {
        assert ProcessFile(st, o, p) == TranscribeAudio(st, o, p);
        assert LedgerKey(p) == p;
      }
    }
  }

  /** A path whose ledger key is recorded is never transcribed again and leaves the ledger as it is. */
  lemma RecordedKeyNotTranscribed(st: State, o: Oracle, p: string)
    requires LedgerKey(p) in st.ledger
    ensures Transcribed(ProcessFile(st, o, p).effects) == []
    ensures ProcessFile(st, o, p).state.ledger == st.ledger
    ensures !ProcessFile(st, o, p).raised
  {
    MarkAllNone(st.ledger);
  }

  /** Processing the same path twice transcribes at most once, whatever the oracles answer;
      once the first call has transcribed, the second is only a skip notice for the ledger key
      and changes nothing. */
  lemma ProcessTwiceTranscribesAtMostOnce(st: State, o1: Oracle, o2: Oracle, p: string)
    ensures var r1 := ProcessFile(st, o1, p);
      var r2 := ProcessFile(r1.state, o2, p);
      && |Transcribed(r1.effects)| + |Transcribed(r2.effects)| <= 1
      && (Transcribed(r1.effects) != [] ==> r2 == Outcome(r1.state, [SkipNotice(LedgerKey(p))], false))
  {
    var r1 := ProcessFile(st, o1, p);
    if Transcribed(r1.effects) != [] {
      LedgerOnlyGrows(st, o1, p);
      RecordedKeyNotTranscribed(r1.state, o2, p);
      if Classify(p) == Video {
        var a := AudioPathOf(p);
        VideoRecordedUnderAudioPath(st, o1, p);
        assert a in st.files || o1.converts(p, a);
        VideoStepLeavesWav(st, o1, p);
        assert ProcessFile(r1.state, o2, p) == TranscribeAudio(r1.state, o2, a);
      }
    }
  }

  /** Processing a video and then its derived `.wav` transcribes at most once: both end
      in a transcription of the same `.wav`. */
  lemma VideoThenAudioTranscribesOnce(st: State, o1: Oracle, o2: Oracle, v: string)
    requires Classify(v) == Video
    ensures var r1 := ProcessFile(st, o1, v);
      var r2 := ProcessFile(r1.state, o2, AudioPathOf(v));
      |Transcribed(r1.effects)| + |Transcribed(r2.effects)| <= 1
  {
    ClassifyByExtension(v);
    var d :| ExtDot(v, d) && Lower(v[d..]) in VideoFormats;
    var a := AudioPathOf(v);
    DerivedAudioIsAudio(v, d);
    assert LedgerKey(v) == a && LedgerKey(a) == a;
    var r1 := ProcessFile(st, o1, v);
    if Transcribed(r1.effects) != [] {
      VideoRecordedUnderAudioPath(st, o1, v);
      RecordedKeyNotTranscribed(r1.state, o2, a);
    }
  }
}

/**
 `scan_directory`: every file the directory walk discovers is handed to
 `process_file` in turn. The walk's order is left open, so the scan is a fold of
 `ProcessFile` over an arbitrary sequence of paths.
 */
module Scanner {
  import opened Paths
  import opened Media
  import opened Pipeline

  /** `k` is the ledger key of one of `paths`. */
  ghost predicate KeyOfSome(paths: seq<string>, k: string) {
    exists i :: 0 <= i < |paths| && LedgerKey(paths[i]) == k
  }

  lemma KeyOfSomeTail(paths: seq<string>, keys: seq<string>)
    requires |paths| > 0 && forall k :: k in keys ==> KeyOfSome(paths[1..], k)
    ensures forall k :: k in keys ==> KeyOfSome(paths, k)
  {
    forall k | k in keys
      ensures KeyOfSome(paths, k)
    {
      var i :| 0 <= i < |paths| - 1 && LedgerKey(paths[1..][i]) == k;
      assert LedgerKey(paths[i + 1]) == k;
    }
  }

  /** Process `paths` in order; an exception escaping `process_file` (the speech model
      raising) ends the whole scan, since `scan_directory` does not catch it. */
  function ScanDirectory(st: State, o: Oracle, paths: seq<string>): (r: Outcome)
    ensures r.state.ledger == MarkAll(st.ledger, Transcribed(r.effects))
    ensures NoDuplicates(Transcribed(r.effects))
    ensures forall k :: k in Transcribed(r.effects) ==> k !in st.ledger
    ensures forall k :: k in Transcribed(r.effects) ==> KeyOfSome(paths, k)
    ensures st.files <= r.state.files
    decreases |paths|
  {
    if paths == [] then
      MarkAllNone(st.ledger);
      TranscribedNone([]);
      Outcome(st, [], false)
    else
      var first := ProcessFile(st, o, paths[0]);
      if first.raised then
        RecordsAtMostMarks(st.ledger, first, LedgerKey(paths[0]));
        first
      else
        var rest := ScanDirectory(first.state, o, paths[1..]);
        TranscribedAppend(first.effects, rest.effects);
        RecordsAtMostMarks(st.ledger, first, LedgerKey(paths[0]));
        MarkAllFreshConcat(st.ledger, Transcribed(first.effects), Transcribed(rest.effects));
        KeyOfSomeTail(paths, Transcribed(rest.effects));
        assert KeyOfSome(paths, LedgerKey(paths[0]));
        Outcome(rest.state, first.effects + rest.effects, rest.raised)
  }

  /** One step of the scan: the first path's outcome, then the rest of the scan from there. */
  lemma ScanUnfold(st: State, o: Oracle, paths: seq<string>)
    requires paths != []
    ensures var first := ProcessFile(st, o, paths[0]);
      var rest := ScanDirectory(first.state, o, paths[1..]);
      ScanDirectory(st, o, paths) ==
        if first.raised then first else Outcome(rest.state, first.effects + rest.effects, rest.raised)
  {
  }

  lemma SettledCons(st: State, o: Oracle, paths: seq<string>)
    requires paths != [] && Settled(st, o, paths[0])
    requires forall i :: 0 <= i < |paths| - 1 ==> Settled(st, o, paths[1..][i])
    ensures forall i :: 0 <= i < |paths| ==> Settled(st, o, paths[i])
  {
    forall i | 1 <= i < |paths|
      ensures Settled(st, o, paths[i])
    {
      assert paths[i] == paths[1..][i - 1];
    }
  }

  /** A conversion failure is reported, not raised: the scan carries on with the
      remaining paths from the same state. */
  lemma ConversionFailureDoesNotStopScan(st: State, o: Oracle, paths: seq<string>)
    requires |paths| > 0 && Classify(paths[0]) == Video && paths[0] !in st.ledger
    requires AudioPathOf(paths[0]) !in st.files && !o.converts(paths[0], AudioPathOf(paths[0]))
    ensures ScanDirectory(st, o, paths).state == ScanDirectory(st, o, paths[1..]).state
    ensures ScanDirectory(st, o, paths).raised == ScanDirectory(st, o, paths[1..]).raised
  {
    ConversionFailureAborts(st, o, paths[0]);
  }

  /** `p` will not be transcribed again from `st` and does not raise: it is ignored, recorded
      (under its own path or its ledger key), or it is a video whose conversion is bound to
      fail again. */
  ghost predicate Settled(st: State, o: Oracle, p: string) {
    || Classify(p) == Unsupported
    || p in st.ledger
    || LedgerKey(p) in st.ledger
    || (Classify(p) == Video && AudioPathOf(p) !in st.files && !o.converts(p, AudioPathOf(p)))
  }

  /** A settled path is processed without transcription, exception or ledger change. */
  lemma SettledIsQuiet(st: State, o: Oracle, p: string)
    requires Settled(st, o, p)
    ensures var r := ProcessFile(st, o, p);
      Transcribed(r.effects) == [] && !r.raised && r.state.ledger == st.ledger
  {
    if Classify(p) == Unsupported || p in st.ledger {
    } else if LedgerKey(p) in st.ledger {
      RecordedKeyNotTranscribed(st, o, p);
    } else {
      ConversionFailureAborts(st, o, p);
    }
  }

  /** A step that does not raise leaves its own path settled. */
  lemma ProcessSettles(st: State, o: Oracle, p: string)
    requires !ProcessFile(st, o, p).raised
    ensures Settled(ProcessFile(st, o, p).state, o, p)
  {
    var r := ProcessFile(st, o, p);
    if Classify(p) != Unsupported && p !in st.ledger {
      LedgerOnlyGrows(st, o, p);
      if Classify(p) == Video {
        var a := AudioPathOf(p);
        if a !in st.files && !o.converts(p, a) {
          ConversionFailureAborts(st, o, p);
        }
      }
    }
  }

  /** Processing a path a second time with the outside world answering as before writes no
      transcript and changes nothing, neither the ledger nor the files; if the first call
      raised, so does the second. */
  lemma ProcessTwiceIsQuiet(st: State, o: Oracle, p: string)
    ensures var r1 := ProcessFile(st, o, p);
      var r2 := ProcessFile(r1.state, o, p);
      && Transcribed(r2.effects) == []
      && r2.state == r1.state
      && (r1.raised ==> r2.raised)
  {
    var r1 := ProcessFile(st, o, p);
    if Classify(p) != Unsupported && p !in st.ledger {
      if Classify(p) == Video {
        var a := AudioPathOf(p);
        VideoRecordedUnderAudioPath(st, o, p);
        if a in st.files || o.converts(p, a) {
          VideoStepLeavesWav(st, o, p);
          var mid := if a in st.files then st else st.(files := st.files + {a});
          assert r1.state == TranscribeAudio(mid, o, a).state;
          assert ProcessFile(r1.state, o, p) == TranscribeAudio(r1.state, o, a);
        }
      } else {
        assert r1 == TranscribeAudio(st, o, p);
      }
    }
    if !r1.raised {
      ProcessSettles(st, o, p);
      SettledIsQuiet(r1.state, o, p);
    }
  }

  /** A step that creates a derived `.wav` and does not raise has recorded that `.wav`. */
  lemma CreatedWavIsRecorded(st: State, o: Oracle, q: string, v: string)
    requires var r := ProcessFile(st, o, q);
      !r.raised && AudioPathOf(v) !in st.files && AudioPathOf(v) in r.state.files
    ensures AudioPathOf(v) in ProcessFile(st, o, q).state.ledger
  {
    FilesCreated(st, o, q);
    TranscriptNeverAudioPath(LedgerKey(q), v);
  }

  /** Processing any other path keeps a settled path settled: the ledger only grows, and
      the only way its `.wav` can appear is a conversion that also records that `.wav`. */
  lemma ProcessKeepsSettled(st: State, o: Oracle, p: string, q: string)
    requires Settled(st, o, p) && !ProcessFile(st, o, q).raised
    ensures Settled(ProcessFile(st, o, q).state, o, p)
  {
    var r := ProcessFile(st, o, q);
    LedgerOnlyGrows(st, o, q);
    if Classify(p) == Unsupported || p in st.ledger || LedgerKey(p) in st.ledger {
      assert st.ledger.Keys <= r.state.ledger.Keys;
    } else {
      var a := AudioPathOf(p);
      assert Classify(p) == Video && a !in st.files && !o.converts(p, a);
      if a in r.state.files {
        CreatedWavIsRecorded(st, o, q, p);
        assert LedgerKey(p) in r.state.ledger;
      }
    }
  }

  lemma ProcessKeepsAllSettled(st: State, o: Oracle, paths: seq<string>, q: string)
    requires forall i :: 0 <= i < |paths| ==> Settled(st, o, paths[i])
    requires !ProcessFile(st, o, q).raised
    ensures forall i :: 0 <= i < |paths| ==> Settled(ProcessFile(st, o, q).state, o, paths[i])
  {
    forall i | 0 <= i < |paths|
      ensures Settled(ProcessFile(st, o, q).state, o, paths[i])
    {
      ProcessKeepsSettled(st, o, paths[i], q);
    }
  }

  lemma {:induction false} ScanKeepsSettled(st: State, o: Oracle, p: string, paths: seq<string>)
    requires Settled(st, o, p)
    ensures !ScanDirectory(st, o, paths).raised ==> Settled(ScanDirectory(st, o, paths).state, o, p)
    decreases |paths|
  {
    if paths != [] && !ScanDirectory(st, o, paths).raised {
      ProcessKeepsSettled(st, o, p, paths[0]);
      ScanKeepsSettled(ProcessFile(st, o, paths[0]).state, o, p, paths[1..]);
    }
  }

  /** A scan that does not raise leaves every scanned path settled. */
  lemma {:induction false} ScanSettlesAll(st: State, o: Oracle, paths: seq<string>)
    ensures var r := ScanDirectory(st, o, paths);
      !r.raised ==> forall i :: 0 <= i < |paths| ==> Settled(r.state, o, paths[i])
    decreases |paths|
  {
    if paths != [] && !ScanDirectory(st, o, paths).raised {
      var first := ProcessFile(st, o, paths[0]);
      var rest := ScanDirectory(first.state, o, paths[1..]);
      ScanUnfold(st, o, paths);
      ProcessSettles(st, o, paths[0]);
      ScanKeepsSettled(first.state, o, paths[0], paths[1..]);
      ScanSettlesAll(first.state, o, paths[1..]);
      SettledCons(rest.state, o, paths);
    }
  }

  /** Scanning paths that are all settled transcribes nothing, raises nothing and leaves the ledger alone. */
  lemma {:induction false} ScanOfSettledIsQuiet(st: State, o: Oracle, paths: seq<string>)
    requires forall i :: 0 <= i < |paths| ==> Settled(st, o, paths[i])
    ensures var r := ScanDirectory(st, o, paths);
      Transcribed(r.effects) == [] && !r.raised && r.state.ledger == st.ledger
    decreases |paths|
  {
    if paths != [] {
      var first := ProcessFile(st, o, paths[0]);
      SettledIsQuiet(st, o, paths[0]);
      assert forall i :: 0 <= i < |paths| - 1 ==> paths[1..][i] == paths[i + 1];
      ProcessKeepsAllSettled(st, o, paths[1..], paths[0]);
      ScanOfSettledIsQuiet(first.state, o, paths[1..]);
      var rest := ScanDirectory(first.state, o, paths[1..]);
      TranscribedAppend(first.effects, rest.effects);
    }
  }

  /** Scanning the same paths again, with the outside world answering as before, writes
      no transcript and leaves the ledger as the first scan left it. */
  lemma {:induction false} RescanTranscribesNothing(st: State, o: Oracle, paths: seq<string>)
    ensures var r1 := ScanDirectory(st, o, paths);
      var r2 := ScanDirectory(r1.state, o, paths);
      !r1.raised ==> Transcribed(r2.effects) == [] && !r2.raised && r2.state.ledger == r1.state.ledger
  {
    if !ScanDirectory(st, o, paths).raised {
      ScanSettlesAll(st, o, paths);
      ScanOfSettledIsQuiet(ScanDirectory(st, o, paths).state, o, paths);
    }
  }

  /** With a speech model that never raises, the scan reaches every path. */
  lemma {:induction false} ReliableSpeechScansEverything(st: State, o: Oracle, paths: seq<string>)
    requires forall k :: o.speech(k).Some?
    ensures !ScanDirectory(st, o, paths).raised
    decreases |paths|
  {
    if paths != [] {
      ReliableSpeechScansEverything(ProcessFile(st, o, paths[0]).state, o, paths[1..]);
    }
  }
}

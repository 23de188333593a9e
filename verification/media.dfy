/**
 Media classification and the sibling paths the processor derives: the supported
 extension whitelist, its video subset, the `.wav` a video is converted to and the
 `.txt` a transcript is written to.
 */
module Media {
  import opened Paths

  /** Extensions the processor accepts, compared after lower-casing. */
  const SupportedFormats: set<string> := {".mp3", ".wav", ".mp4", ".mkv", ".mov", ".flv", ".aac", ".m4a"}

  /** The supported extensions that are first converted to `.wav`. */
  const VideoFormats: set<string> := {".mp4", ".mkv", ".mov", ".flv"}

  datatype Kind = Audio | Video | Unsupported

  /** The lower-cased extension of `p` is one of `formats`. */
  ghost predicate LowerExtIn(p: string, formats: set<string>) {
    exists d :: ExtDot(p, d) && Lower(p[d..]) in formats
  }

  /** How the processor routes `p`, decided by its lower-cased `os.path.splitext` extension. */
  function Classify(p: string): Kind {
    var e := Lower(Extension(p));
    if e !in SupportedFormats then Unsupported
    else if e in VideoFormats then Video
    else Audio
  }

  /** A path is supported exactly when it has an extension dot whose lower-cased extension
      is whitelisted, and routed as video exactly when that extension is a video one. */
  lemma ClassifyByExtension(p: string)
    ensures Classify(p) != Unsupported <==> LowerExtIn(p, SupportedFormats)
    ensures Classify(p) == Video <==> LowerExtIn(p, VideoFormats)
  {
    ExtensionWitness(p);
  }

  /** Lower-casing never creates or removes a '.' or a '/'. */
  lemma LowerCharKeepsSeparators(c: char)
    ensures LowerChar(c) == '.' <==> c == '.'
    ensures LowerChar(c) == '/' <==> c == '/'
  {
  }

  /** Paths that agree after lower-casing split at the same dot. */
  lemma SplitExtIgnoresCase(p: string, q: string)
    requires Lower(p) == Lower(q)
    ensures |SplitExt(p).0| == |SplitExt(q).0|
  {
    assert |p| == |q|;
    forall i | 0 <= i < |p|
      ensures (p[i] == '.' <==> q[i] == '.') && (p[i] == '/' <==> q[i] == '/')
    {
      assert Lower(p)[i] == Lower(q)[i];
      LowerCharKeepsSeparators(p[i]);
      LowerCharKeepsSeparators(q[i]);
    }
    var sp, sq := RFind(p, '/'), RFind(q, '/');
    var dp, dq := RFind(p, '.'), RFind(q, '.');
    assert sp == sq;
    assert dp == dq;
    if dp > sp {
      assert HasNonDot(p, sp + 1, dp) == HasNonDot(q, sq + 1, dq);
    }
  }

  /** The route of a path is decided case-insensitively: paths that agree after
      lower-casing are classified alike (so `clip.MP4` is a video like `clip.mp4`). */
  lemma ClassifyIgnoresCase(p: string, q: string)
    requires Lower(p) == Lower(q)
    ensures Classify(p) == Classify(q)
  {
    SplitExtIgnoresCase(p, q);
    var d := |SplitExt(p).0|;
    assert Extension(p) == p[d..] && Extension(q) == q[d..];
    assert Lower(p[d..]) == Lower(p)[d..] == Lower(q)[d..] == Lower(q[d..]);
  }

  /** Both kinds of whitelist membership are decided by the one extension splitext finds. */
  lemma ExtensionWitness(p: string)
    ensures LowerExtIn(p, SupportedFormats) <==> Lower(Extension(p)) in SupportedFormats
    ensures LowerExtIn(p, VideoFormats) <==> Lower(Extension(p)) in VideoFormats
  {
    var (root, ext) := SplitExt(p);
    assert Lower([]) == [];
    forall formats: set<string>, d | ExtDot(p, d)
      ensures Lower(p[d..]) in formats <==> Lower(ext) in formats
    {
      ExtDotUnique(p, d, |root|);
      assert p[d..] == ext;
    }
    if ext != [] {
      assert ExtDot(p, |root|);
      assert p[|root|..] == ext;
    }
  }

  /** The `.wav` sibling a video is converted to: `rsplit(".", 1)[0] + ".wav"`. */
  function AudioPathOf(video: string): string {
    BeforeLastDot(video) + ".wav"
  }

  /** The `.txt` sibling a transcript is written to: `rsplit(".", 1)[0] + ".txt"`. */
  function TranscriptPathOf(audio: string): string {
    BeforeLastDot(audio) + ".txt"
  }

  /** The path under which a successful transcription of `p` is recorded: a video is
      recorded under its derived audio path, anything else under its own path. */
  function LedgerKey(p: string): string {
    if Classify(p) == Video then AudioPathOf(p) else p
  }

  /** Lower-casing leaves an already lower-case extension alone. */
  lemma LowerOfLowerCase(e: string)
    requires forall i :: 0 <= i < |e| ==> e[i] == '.' || 'a' <= e[i] <= 'z' || '0' <= e[i] <= '9'
    ensures Lower(e) == e
  {
  }

  /** Replacing the extension after extension dot `d` by another single-dot extension
      keeps `d` the extension dot. */
  lemma ReplacedExtensionKeepsDot(p: string, d: int, e: string)
    requires ExtDot(p, d)
    requires |e| > 0 && e[0] == '.' && forall i :: 1 <= i < |e| ==> e[i] != '.' && e[i] != '/'
    ensures ExtDot(p[..d] + e, d)
  {
    var a := p[..d] + e;
    var j :| 0 <= j < d && p[j] != '.' && p[j] != '/' && forall m :: j < m < d ==> p[m] != '/';
    assert a[j] == p[j];
    assert forall m :: j < m < d ==> a[m] == p[m];
    assert forall m :: d < m < |a| ==> a[m] == e[m - d];
  }

  /** For a video with extension dot `d`, the audio path replaces the extension by
      `.wav`, and it is never the video's own path. */
  lemma VideoAudioPath(v: string, d: int)
    requires ExtDot(v, d) && Lower(v[d..]) in VideoFormats
    ensures Classify(v) == Video
    ensures AudioPathOf(v) == v[..d] + ".wav"
    ensures AudioPathOf(v) != v
  {
    var (root, ext) := SplitExt(v);
    ExtDotUnique(v, d, |root|);
    BeforeLastDotIsSplitExtRoot(v);
    ClassifyByExtension(v);
    LowerOfLowerCase(".wav");
  }

  /** Whatever its extension dot, a path routed as video differs from its `.wav` sibling. */
  lemma VideoAudioPathDiffers(v: string)
    requires Classify(v) == Video
    ensures AudioPathOf(v) != v
  {
    ClassifyByExtension(v);
    var d :| ExtDot(v, d) && Lower(v[d..]) in VideoFormats;
    VideoAudioPath(v, d);
  }

  /** A path whose extension dot starts `.wav` is audio. */
  lemma WavIsAudio(a: string, d: int)
    requires ExtDot(a, d) && a[d..] == ".wav"
    ensures Classify(a) == Audio
  {
    var (root, ext) := SplitExt(a);
    ExtDotUnique(a, d, |root|);
    LowerOfLowerCase(".wav");
  }

  /** The audio path derived from a video is itself classified as audio, and its
      transcript lands beside the video with the extension replaced by `.txt`. */
  lemma DerivedAudioIsAudio(v: string, d: int)
    requires ExtDot(v, d) && Lower(v[d..]) in VideoFormats
    ensures Classify(AudioPathOf(v)) == Audio
    ensures TranscriptPathOf(AudioPathOf(v)) == v[..d] + ".txt"
  {
    VideoAudioPath(v, d);
    var a := v[..d] + ".wav";
    ReplacedExtensionKeepsDot(v, d, ".wav");
    assert a[d..] == ".wav";
    WavIsAudio(a, d);
    BeforeLastDotOfAppended(v[..d], ".wav");
  }

  /** The transcript of a supported file is written beside it, its extension replaced by `.txt`. */
  lemma TranscriptPathReplacesExtension(p: string, d: int)
    requires ExtDot(p, d)
    ensures TranscriptPathOf(p) == p[..d] + ".txt"
  {
    var (root, ext) := SplitExt(p);
    ExtDotUnique(p, d, |root|);
    BeforeLastDotIsSplitExtRoot(p);
  }

  /** A transcript path ends in `.txt`, so it is never a derived audio path. */
  lemma TranscriptNeverAudioPath(x: string, y: string)
    ensures TranscriptPathOf(x) != AudioPathOf(y)
  {
    var t := TranscriptPathOf(x);
    var a := AudioPathOf(y);
    assert t[|t| - 3] == 't' && a[|a| - 3] == 'w';
  }
}

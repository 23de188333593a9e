/**
 String helpers the processor uses on file paths: Python's `str.rfind`,
 `str.rsplit(".", 1)[0]`, POSIX `os.path.splitext` and `str.lower` on the
 characters that matter for extension matching.
 */
module Paths {

  /** Index of the last occurrence of `c` in `s`, or -1 when there is none (`str.rfind`). */
  function RFind(s: string, c: char): (r: int)
    ensures -1 <= r < |s|
    ensures r >= 0 ==> s[r] == c
    ensures forall j :: r < j < |s| ==> s[j] != c
  {
    if |s| == 0 then -1
    else if s[|s| - 1] == c then |s| - 1
    else RFind(s[..|s| - 1], c)
  }

  /** `s.rsplit(".", 1)[0]`: everything before the last '.', or all of `s` when it has none.
      Unlike `SplitExt` this looks at the whole string, directories included. */
  function BeforeLastDot(s: string): string {
    var i := RFind(s, '.');
    if i < 0 then s else s[..i]
  }

  /** The cut is a prefix: all of `s` when it has no '.', otherwise everything before
      the last '.'. */
  lemma BeforeLastDotCutsAtLastDot(s: string)
    ensures BeforeLastDot(s) <= s
    ensures '.' !in s ==> BeforeLastDot(s) == s
    ensures '.' in s ==> var r := BeforeLastDot(s);
      |r| < |s| && s[|r|] == '.' && '.' !in s[|r| + 1..]
  {
  }

  /** Whether `s[lo..hi]` holds a character other than '.', scanning from `lo`
      the way splitext skips the leading dots of a file name. */
  function HasNonDot(s: string, lo: nat, hi: nat): (b: bool)
    requires lo <= hi <= |s|
    ensures b <==> exists j :: lo <= j < hi && s[j] != '.'
    decreases hi - lo
  {
    if lo == hi then false
    else if s[lo] != '.' then true
    else HasNonDot(s, lo + 1, hi)
  }

  /** `p[k]` is the dot that starts the extension of `p`: it is the last '.', it
      lies in the final path component, and that component has a character other
      than '.' before it (leading dots of a file name do not start an extension). */
  ghost predicate ExtDot(p: string, k: int) {
    && 0 <= k < |p|
    && p[k] == '.'
    && (forall j :: k < j < |p| ==> p[j] != '.' && p[j] != '/')
    && (exists j :: 0 <= j < k && p[j] != '.' && p[j] != '/' && forall m :: j < m < k ==> p[m] != '/')
  }

  /** A path has at most one extension dot. */
  lemma ExtDotUnique(p: string, a: int, b: int)
    requires ExtDot(p, a) && ExtDot(p, b)
    ensures a == b
  {
  }

  /** POSIX `os.path.splitext`: the root and the extension, which is empty or starts with the extension dot. */
  function SplitExt(p: string): (r: (string, string))
    ensures r.0 + r.1 == p
    ensures r.1 != [] ==> ExtDot(p, |r.0|)
    ensures r.1 == [] ==> forall k :: !ExtDot(p, k)
  {
    var sep := RFind(p, '/');
    var dot := RFind(p, '.');
    if dot > sep && HasNonDot(p, sep + 1, dot) then
      assert ExtDot(p, dot) by {
        var j :| sep + 1 <= j < dot && p[j] != '.';
        assert p[j] != '/' && forall m :: j < m < dot ==> p[m] != '/';
      }
      (p[..dot], p[dot..])
    else
      assert forall k :: !ExtDot(p, k);
      (p, [])
  }

  /** The extension part of `os.path.splitext(p)`. */
  function Extension(p: string): string {
    SplitExt(p).1
  }

  /** `str.lower()` on one character, exact for every character whose lower case is an
      ASCII letter: 'A'..'Z' and U+212A KELVIN SIGN, which lowers to 'k'. */
  function LowerChar(c: char): char {
    if 'A' <= c <= 'Z' then (c as int - 'A' as int + 'a' as int) as char
    else if c == '\U{212A}' then 'k'
    else c
  }

  function Lower(s: string): string {
    seq(|s|, i requires 0 <= i < |s| => LowerChar(s[i]))
  }

  /** Cutting at the last '.' undoes appending a suffix that starts with the only '.' it holds. */
  lemma BeforeLastDotOfAppended(s: string, suffix: string)
    requires |suffix| > 0 && suffix[0] == '.' && '.' !in suffix[1..]
    ensures BeforeLastDot(s + suffix) == s
  {
    var t := s + suffix;
    var i := RFind(t, '.');
    assert t[|s|] == '.';
    assert i == |s|;
  }

  /** Whenever splitext finds an extension, rsplit cuts the path at the same dot. */
  lemma BeforeLastDotIsSplitExtRoot(p: string)
    requires Extension(p) != []
    ensures BeforeLastDot(p) == SplitExt(p).0
  {
  }
}

/** The pieces of Python's `posixpath` used on file names: `basename`, `dirname`, `splitext`. */
module Paths {
  import opened Strings

  /** Python `s.rfind(c)` for one character: the last index holding `c`, or -1. */
  function RFind(s: string, c: char): (r: int)
    ensures -1 <= r < |s|
    ensures r >= 0 ==> s[r] == c
    ensures forall j :: r < j < |s| ==> s[j] != c
    decreases |s|
  {
    if s == [] then -1
    else if s[|s| - 1] == c then |s| - 1
    else RFind(s[..|s| - 1], c)
  }

  /** `os.path.basename(p)`: the text after the last slash. */
  function Basename(p: string): (b: string)
    ensures IsSuffix(b, p) && '/' !in b
    ensures '/' !in p ==> b == p
  {
    p[RFind(p, '/') + 1..]
  }

  predicate AllSlashes(s: string) {
    forall i :: 0 <= i < |s| ==> s[i] == '/'
  }

  /** Python `s.rstrip("/")`. */
  function StripTrailingSlashes(s: string): (r: string)
    ensures IsPrefix(r, s) && AllSlashes(s[|r|..])
    ensures r == [] || r[|r| - 1] != '/'
    decreases |s|
  {
    if s != [] && s[|s| - 1] == '/' then
      var r := StripTrailingSlashes(s[..|s| - 1]);
      assert s[|r|..] == s[..|s| - 1][|r|..] + ['/'];
      r
    else s
  }

  /**
   * `os.path.dirname(p)`: the text up to the last slash, without trailing
   * slashes unless it consists of slashes only.
   */
  function Dirname(p: string): (d: string)
    ensures IsPrefix(d, p)
    ensures '/' !in p ==> d == ""
  {
    var head := p[..RFind(p, '/') + 1];
    if head != [] && !AllSlashes(head) then StripTrailingSlashes(head) else head
  }

  /**
   * `os.path.splitext(p)`: the extension is the text from the last dot on,
   * provided that dot lies in the last path component and is preceded there
   * by some character other than a dot; otherwise it is empty.
   */
  function SplitExt(p: string): (parts: (string, string))
    ensures parts.0 + parts.1 == p
    ensures parts.1 == [] || (parts.1[0] == '.' && '.' !in parts.1[1..] && '/' !in parts.1)
  {
    var sepIndex := RFind(p, '/');
    var dotIndex := RFind(p, '.');
    if dotIndex > sepIndex && exists k :: sepIndex < k < dotIndex && p[k] != '.' then
      assert p[..dotIndex] + p[dotIndex..] == p;
      (p[..dotIndex], p[dotIndex..])
    else (p, "")
  }

  /** `os.path.splitext(os.path.basename(p))[0]`: the file name without directory and extension. */
  function Stem(p: string): (s: string)
    ensures IsPrefix(s, Basename(p))
  {
    SplitExt(Basename(p)).0
  }

  /** `os.path.join(a, b)` for two components. */
  function PathJoin(a: string, b: string): (r: string)
    ensures IsSuffix(b, r)
    ensures '/' !in b ==> Basename(r) == b
  {
    var r := if b != [] && b[0] == '/' then b
      else if a == [] || a[|a| - 1] == '/' then a + b
      else a + "/" + b;
    if '/' !in b then LastComponent(r, b); r else r
  }

  /** A slash-free suffix that follows a slash (or is everything) is the basename. */
  lemma LastComponent(r: string, b: string)
    requires '/' !in b && IsSuffix(b, r)
    requires |r| == |b| || r[|r| - |b| - 1] == '/'
    ensures Basename(r) == b
  {
    var k := RFind(r, '/');
    assert forall j :: |r| - |b| <= j < |r| ==> r[j] == b[j - (|r| - |b|)];
  }
}

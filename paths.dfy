/**
 * The parts of Node's POSIX `path` module that upload naming uses:
 * `basename(p)`, `extname(p)` and `basename(p, extname(p))`.
 */
module Paths {
  import opened Wrappers
  import opened Text

  /** `p` without its trailing '/' characters. */
  function StripTrailingSlashes(p: string): (r: string)
    ensures |r| <= |p| && r == p[..|r|]
    ensures r == [] || r[|r| - 1] != '/'
  {
    if p != [] && p[|p| - 1] == '/' then StripTrailingSlashes(p[..|p| - 1]) else p
  }

  /** What follows the last '/' of `p`. */
  function LastSegment(p: string): (r: string)
    ensures '/' !in r
    ensures |r| <= |p| && r == p[|p| - |r|..]
  {
    if p == [] || p[|p| - 1] == '/' then []
    else
      var r := LastSegment(p[..|p| - 1]) + [p[|p| - 1]];
      assert p[|p| - |r|..] == p[..|p| - 1][|p| - |r|..] + [p[|p| - 1]];
      r
  }

  /** `path.basename(p)`: the last segment, trailing slashes ignored. */
  function Basename(p: string): (b: string)
    ensures '/' !in b
  {
    LastSegment(StripTrailingSlashes(p))
  }

  /** Index of the last '.' in `s`. */
  function LastDot(s: string): (r: Option<nat>)
    ensures r.Some? ==> r.value < |s| && s[r.value] == '.' && '.' !in s[r.value + 1..]
    ensures r.None? ==> '.' !in s
  {
    if s == [] then None
    else if s[|s| - 1] == '.' then Some(|s| - 1)
    else
      var r := LastDot(s[..|s| - 1]);
      assert r.Some? ==> s[r.value + 1..] == s[..|s| - 1][r.value + 1..] + [s[|s| - 1]];
      assert r.None? ==> s == s[..|s| - 1] + [s[|s| - 1]];
      r
  }

  /**
   * `path.extname(p)`: the basename from its last '.' on; empty when the
   * basename has no '.', when its only '.' is the leading one, and for "..".
   */
  function Extname(p: string): (e: string)
    ensures e == [] || (e[0] == '.' && '.' !in e[1..])
    ensures |e| < |Basename(p)| || e == []
    ensures EndsWith(Basename(p), e)
  {
    var b := Basename(p);
    match LastDot(b)
    case None => []
    case Some(i) => if i == 0 || b == ".." then [] else b[i..]
  }

  /** `path.basename(p, path.extname(p))`: the basename without its extension. */
  function Stem(p: string): (r: string)
    ensures r + Extname(p) == Basename(p)
    ensures Extname(p) != [] ==> r != []
  {
    var b := Basename(p);
    var e := Extname(p);
    var k := |b| - |e|;
    PrefixAndSuffix(b, k);
    b[..k]
  }

  /** The extension is empty exactly when the basename has no '.' after its first character, or is "..". */
  lemma ExtnameEmpty(p: string)
    ensures var b := Basename(p);
      Extname(p) == [] <==> (b == ".." || forall i :: 0 < i < |b| ==> b[i] != '.')
  {
    var b := Basename(p);
    match LastDot(b)
    case None =>
    case Some(i) =>
      if i != 0 && b != ".." {
        assert b[i] == '.';
      }
  }

  /** A name without '/' is its own basename. */
  lemma {:induction false} BasenameOfPlainName(p: string)
    requires '/' !in p
    ensures Basename(p) == p
  {
    LastSegmentOfPlainName(p);
  }

  lemma {:induction false} LastSegmentOfPlainName(p: string)
    requires '/' !in p
    ensures LastSegment(p) == p
    decreases |p|
  {
    if p != [] {
      assert p[|p| - 1] in p;
      LastSegmentOfPlainName(p[..|p| - 1]);
    }
  }

  lemma {:induction false} LastDotAt(s: string, i: nat)
    requires i < |s| && s[i] == '.' && '.' !in s[i + 1..]
    ensures LastDot(s) == Some(i)
    decreases |s|
  {
    if i < |s| - 1 {
      assert s[|s| - 1] in s[i + 1..];
      assert s[..|s| - 1][i + 1..] == s[i + 1..|s| - 1];
      LastDotAt(s[..|s| - 1], i);
    }
  }

  lemma {:induction false} ExtnameAt(p: string, i: nat)
    requires '/' !in p && p != ".." && 0 < i < |p| && p[i] == '.' && '.' !in p[i + 1..]
    ensures Extname(p) == p[i..] && Stem(p) == p[..i]
  {
    BasenameOfPlainName(p);
    LastDotAt(p, i);
  }

  lemma ExtnameOfDocument()
    ensures Extname("report.pdf") == ".pdf" && Stem("report.pdf") == "report"
  {
    var p := "report.pdf";
    assert '/' !in p && '.' !in p[7..];
    ExtnameAt(p, 6);
  }

  lemma ExtnameTakesLastDot()
    ensures Extname("archive.tar.gz") == ".gz"
  {
    var q := "archive.tar.gz";
    assert '/' !in q && '.' !in q[12..];
    ExtnameAt(q, 11);
  }

  lemma ExtnameOfHiddenFile()
    ensures Extname(".bashrc") == ""
  {
    var h := ".bashrc";
    assert '/' !in h && '.' !in h[1..];
    BasenameOfPlainName(h);
    LastDotAt(h, 0);
  }
}

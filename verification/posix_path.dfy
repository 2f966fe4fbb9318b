/** The two pieces of Python's `posixpath` the locator and the workspace
    builder rely on: `join` of two components and `dirname`. */
module PosixPath {
  import opened Text

  predicate HasNoSlash(s: string) {
    forall i :: 0 <= i < |s| ==> s[i] != '/'
  }

  /** `os.path.join(a, b)`: an absolute `b` replaces `a`; otherwise a single
      separator is inserted unless `a` is empty or already ends with one. */
  function Join(a: string, b: string): (r: string)
    ensures StartsWith(b, "/") ==> r == b
    ensures !StartsWith(b, "/") ==> StartsWith(r, a) && EndsWith(r, b)
    ensures !StartsWith(b, "/") && |a| > 0 && a[|a| - 1] != '/' ==> r == a + "/" + b
    ensures !StartsWith(b, "/") && (|a| == 0 || a[|a| - 1] == '/') ==> r == a + b
  {
    if |b| > 0 && b[0] == '/' then b
    else if |a| == 0 || a[|a| - 1] == '/' then a + b
    else a + "/" + b
  }

  /** `p.rfind('/')`: the index of the last separator, or -1. */
  function LastSlash(p: string): (k: int)
    ensures -1 <= k < |p|
    ensures k >= 0 ==> p[k] == '/'
    ensures forall j :: k < j < |p| ==> p[j] != '/'
    decreases |p|
  {
    if |p| == 0 then -1
    else if p[|p| - 1] == '/' then |p| - 1
    else LastSlash(p[..|p| - 1])
  }

  predicate AllSlashes(s: string) {
    forall i :: 0 <= i < |s| ==> s[i] == '/'
  }

  /** `s.rstrip('/')`. */
  function RStripSlashes(s: string): (r: string)
    ensures StartsWith(s, r)
    ensures |r| == 0 || r[|r| - 1] != '/'
    ensures AllSlashes(s[|r|..])
    decreases |s|
  {
    if |s| > 0 && s[|s| - 1] == '/' then RStripSlashes(s[..|s| - 1]) else s
  }

  /** `os.path.dirname(p)`: everything up to the last separator, with trailing
      separators removed unless the head consists of separators only. */
  function DirName(p: string): (r: string)
    ensures StartsWith(p, r)
    ensures LastSlash(p) == -1 ==> r == ""
    ensures |r| <= LastSlash(p) + 1 && AllSlashes(p[|r|..LastSlash(p) + 1])
    ensures AllSlashes(r) || r[|r| - 1] != '/'
    ensures AllSlashes(p[..LastSlash(p) + 1]) ==> r == p[..LastSlash(p) + 1]
  {
    var head := p[..LastSlash(p) + 1];
    if |head| > 0 && !AllSlashes(head) then RStripSlashes(head) else head
  }

  /** The directory part of `join(d, name)` is `d` again, for a directory
      without a trailing separator and a plain file name. */
  lemma {:induction false} DirNameOfJoin(d: string, name: string)
    requires |d| > 0 && d[|d| - 1] != '/'
    requires HasNoSlash(name)
    ensures DirName(Join(d, name)) == d
  {
    var p := Join(d, name);
    assert p == d + "/" + name;
    assert LastSlash(p) == |d| by {
      assert p[|d|] == '/';
      assert forall j :: |d| < j < |p| ==> p[j] == name[j - |d| - 1];
    }
    var head := p[..|d| + 1];
    assert head == d + "/";
    assert !AllSlashes(head) by {
      assert head[|d| - 1] == d[|d| - 1];
    }
    assert head[..|head| - 1] == d;
    assert RStripSlashes(head) == RStripSlashes(d);
  }
}

/**
 * File names as java.io.File forms them, with '/' as the separator.
 */
module Paths {

  /** new File(dir, name).toString(). */
  function Join(dir: string, name: string): string {
    dir + "/" + name
  }

  /** File.getName(): the part of the path after its last separator. */
  function BaseName(p: string): (r: string)
    ensures '/' !in r
    ensures |r| <= |p| && p[|p| - |r|..] == r
    ensures |r| < |p| ==> p[|p| - |r| - 1] == '/'
    decreases |p|
  {
    if |p| == 0 || p[|p| - 1] == '/' then ""
    else
      var q := p[..|p| - 1];
      var b := BaseName(q);
      assert p[|p| - |b| - 1..] == q[|q| - |b|..] + [p[|p| - 1]];
      b + [p[|p| - 1]]
  }

  /** A name without separators is its own base name. */
  lemma BaseNameOfName(n: string)
    requires '/' !in n
    ensures BaseName(n) == n
  {
  }

  /** Placing a path under a directory does not change its base name. */
  lemma {:induction false} BaseNameJoin(dir: string, p: string)
    ensures BaseName(Join(dir, p)) == BaseName(p)
    decreases |p|
  {
    var j := Join(dir, p);
    if |p| == 0 {
      assert j[|j| - 1] == '/';
    } else {
      assert j[|j| - 1] == p[|p| - 1];
      if p[|p| - 1] != '/' {
        var q := p[..|p| - 1];
        assert j[..|j| - 1] == Join(dir, q);
        BaseNameJoin(dir, q);
      }
    }
  }
}

/** posixpath.join for two components, the only path operation the scheduler performs. */
module Paths {

  /** join(a, b): an absolute b replaces a; otherwise a '/' is inserted unless a is empty
      or already ends with one. */
  function Join(a: string, b: string): string {
    if |b| > 0 && b[0] == '/' then b
    else JoinPrefix(a) + b
  }

  /** What Join puts in front of a relative second component. */
  function JoinPrefix(a: string): string {
    if a == [] || a[|a| - 1] == '/' then a else a + "/"
  }

  /** Under one directory, two relative names give the same path only if they are the same name. */
  lemma JoinRelativeInjective(dir: string, x: string, y: string)
    requires |x| == 0 || x[0] != '/'
    requires |y| == 0 || y[0] != '/'
    ensures Join(dir, x) == Join(dir, y) <==> x == y
  {
    var n := |JoinPrefix(dir)|;
    if Join(dir, x) == Join(dir, y) {
      assert x == Join(dir, x)[n..] == Join(dir, y)[n..] == y;
    }
  }
}

/**
 * `os.path.join(folder_path, filename)` as the report writers use it to
 * name their output file (POSIX separator `/`).
 */
module Paths {

  const Sep: char := '/'

  predicate IsAbsolute(p: string) {
    p != [] && p[0] == Sep
  }

  /** `os.path.join(a, b)`: an absolute `b` replaces `a`; otherwise `b` is
      appended to `a`, with a separator unless `a` is empty or already ends in one. */
  function JoinPath(a: string, b: string): (p: string)
    ensures |b| <= |p| && p[|p| - |b|..] == b
    ensures IsAbsolute(b) ==> p == b
    ensures !IsAbsolute(b) ==> |a| <= |p| && p[..|a|] == a
    ensures !IsAbsolute(b) ==> |p| <= |a| + 1 + |b|
  {
    if IsAbsolute(b) then b
    else if a == [] || a[|a| - 1] == Sep then a + b
    else a + [Sep] + b
  }

  /** `os.path.basename(p)`: what follows the last separator. */
  function Basename(p: string): (r: string)
    ensures Sep !in r
    ensures |r| <= |p| && r == p[|p| - |r|..]
  {
    if p == [] || p[|p| - 1] == Sep then []
    else Basename(p[..|p| - 1]) + [p[|p| - 1]]
  }

  /** A name without separators is what `basename(join(folder, name))` gives back. */
  lemma BasenameOfJoin(a: string, b: string)
    requires Sep !in b
    ensures Basename(JoinPath(a, b)) == b
  {
    var p := JoinPath(a, b);
    assert !IsAbsolute(b) by {
      assert b != [] ==> b[0] in b;
    }
    if a == [] || a[|a| - 1] == Sep {
      BasenameOfSuffix(a, b);
    } else {
      BasenameOfSuffix(a + [Sep], b);
    }
  }

  /** The basename of `a + b` is `b` when `a` is empty or ends in a separator and `b` has none. */
  lemma {:induction false} BasenameOfSuffix(a: string, b: string)
    requires a == [] || a[|a| - 1] == Sep
    requires Sep !in b
    ensures Basename(a + b) == b
  {
    if b == [] {
      assert a + b == a;
    } else {
      var b' := b[..|b| - 1];
      var last := b[|b| - 1];
      assert last in b;
      var p := a + b;
      assert p[|p| - 1] == last && p[..|p| - 1] == a + b';
      BasenameOfSuffix(a, b');
      assert Basename(p) == Basename(a + b') + [last];
      assert b' + [last] == b;
    }
  }
}

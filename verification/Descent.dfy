/** Vectors of naturals, compared lexicographically, as well-founded trees. The length of a
    vector is not fixed, so a `decreases` tuple cannot hold it; a tree can. */
module Descent {

  datatype Tree = Leaf | Succ(pred: Tree) | Limit(below: imap<int, Tree>)

  ghost predicate LexLess(a: seq<nat>, b: seq<nat>) {
    |a| == |b| && exists k :: FirstDrop(a, b, k)
  }

  ghost predicate FirstDrop(a: seq<nat>, b: seq<nat>, k: int) {
    0 <= k < |a| && k < |b| && a[..k] == b[..k] && a[k] < b[k]
  }

  // The tree `base` grown by m units of order k.
  ghost function Grow(k: nat, m: nat, base: Tree): Tree
    decreases k, 1, m
  {
    if m == 0 then base else Next(k, Grow(k, m - 1, base))
  }

  // One unit of order k is above every number of units of order k - 1.
  ghost function Next(k: nat, base: Tree): Tree
    decreases k, 0
  {
    if k == 0 then Succ(base)
    else Limit(imap n: int | IsNatural(n) :: Grow(k - 1, n, base))
  }

  ghost predicate IsNatural(n: int) {
    0 <= n
  }

  ghost function Tower(v: seq<nat>, base: Tree): Tree {
    if v == [] then base else Tower(v[1..], Grow(|v| - 1, v[0], base))
  }

  lemma MemberBelowLimit(f: imap<int, Tree>, n: int)
    requires n in f
    ensures f[n] < Limit(f)
  {
  }

  lemma GrowBelowNext(k: nat, n: nat, base: Tree)
    ensures Grow(k, n, base) < Next(k + 1, base)
  {
    assert IsNatural(n);
    MemberBelowLimit(Next(k + 1, base).below, n);
  }

  lemma {:induction false} TailBelowNext(v: seq<nat>, base: Tree)
    ensures Tower(v, base) < Next(|v|, base)
  {
    if v != [] {
      var b := Grow(|v| - 1, v[0], base);
      TailBelowNext(v[1..], b);
      GrowBelowNext(|v| - 1, v[0] + 1, base);
    }
  }

  lemma {:induction false} GrowMonotone(k: nat, m: nat, n: nat, base: Tree)
    requires m < n
    ensures Next(k, Grow(k, m, base)) == Grow(k, n, base) || Next(k, Grow(k, m, base)) < Grow(k, n, base)
    decreases n
  {
    if m < n - 1 {
      GrowMonotone(k, m, n - 1, base);
      BaseBelowNext(k, Grow(k, n - 1, base));
    }
  }

  lemma BaseBelowNext(k: nat, base: Tree)
    ensures base < Next(k, base)
  {
    if k > 0 {
      GrowBelowNext(k - 1, 0, base);
    }
  }

  lemma {:induction false} BaseBelowTower(v: seq<nat>, base: Tree)
    ensures base == Tower(v, base) || base < Tower(v, base)
  {
    if v != [] {
      BaseBelowTower(v[1..], Grow(|v| - 1, v[0], base));
      if v[0] > 0 {
        GrowMonotone(|v| - 1, 0, v[0], base);
        BaseBelowNext(|v| - 1, base);
      }
    }
  }

  /** A lexicographic drop of the vector is a drop of the tree. */
  lemma {:induction false} TowerFalls(a: seq<nat>, b: seq<nat>, base: Tree)
    requires LexLess(a, b)
    ensures Tower(a, base) < Tower(b, base)
  {
    var k :| FirstDrop(a, b, k);
    if k == 0 {
      var n := |a| - 1;
      var g := Grow(n, a[0], base);
      TailBelowNext(a[1..], g);
      GrowMonotone(n, a[0], b[0], base);
      BaseBelowTower(b[1..], Grow(n, b[0], base));
    } else {
      assert a[0] == a[..k][0] == b[..k][0] == b[0];
      assert a[1..][..k - 1] == a[..k][1..] == b[..k][1..] == b[1..][..k - 1];
      assert FirstDrop(a[1..], b[1..], k - 1);
      TowerFalls(a[1..], b[1..], Grow(|a| - 1, a[0], base));
    }
  }

  /** There is no endless lexicographic descent. */
  lemma {:induction false} NoEndlessDescent(v: nat -> seq<nat>, i: nat)
    requires forall j: nat :: i <= j ==> LexLess(v(j + 1), v(j))
    ensures false
    decreases Tower(v(i), Leaf)
  {
    TowerFalls(v(i + 1), v(i), Leaf);
    NoEndlessDescent(v, i + 1);
  }
}

/** Template paths and the order `ContextFlowGraph::freeze` sorts them by.

  A path lists calls from the outermost to the innermost one. Everything the
  reconstruction does with it starts at the innermost call, so paths are
  compared and indexed from the back. */
module Paths {

  /** Scopes matter only through equality and their total order, so their ranks
    stand for them. */
  type Scope = nat
  type Path = seq<Scope>

  datatype Template = Template(entry: Scope, path: Path)

  /** The k-th call of a path, counted from its innermost end. */
  function RAt(p: Path, k: nat): Scope
    requires k < |p|
  {
    p[|p| - 1 - k]
  }

  /** The two paths agree on their k innermost calls. */
  predicate Share(a: Path, b: Path, k: nat) {
    k <= |a| && k <= |b| && a[|a| - k..] == b[|b| - k..]
  }

  predicate IsSuffix(a: Path, b: Path) {
    |a| <= |b| && b[|b| - |a|..] == a
  }

  /** `std::lexicographical_compare` over the reverse iterators of two paths. */
  predicate RevLess(a: Path, b: Path)
    decreases |a|
  {
    if b == [] then false
    else if a == [] then true
    else if a[|a| - 1] != b[|b| - 1] then a[|a| - 1] < b[|b| - 1]
    else RevLess(a[..|a| - 1], b[..|b| - 1])
  }

  predicate RevLeq(a: Path, b: Path) {
    !RevLess(b, a)
  }

  ghost predicate Sorted(ps: seq<Path>) {
    forall i, j :: 0 <= i < j < |ps| ==> RevLeq(ps[i], ps[j])
  }

  /** No path is a suffix of the path at another position. */
  ghost predicate SuffixFree(ps: seq<Path>) {
    forall i, j :: 0 <= i < |ps| && 0 <= j < |ps| && i != j ==> !IsSuffix(ps[i], ps[j])
  }

  // ----- RevLess is a strict total order

  lemma {:induction false} RevLessAsymmetric(a: Path, b: Path)
    requires RevLess(a, b)
    ensures !RevLess(b, a)
    decreases |a|
  {
    if a != [] && a[|a| - 1] == b[|b| - 1] {
      RevLessAsymmetric(a[..|a| - 1], b[..|b| - 1]);
    }
  }

  lemma {:induction false} RevLessTransitive(a: Path, b: Path, c: Path)
    requires RevLess(a, b) && RevLess(b, c)
    ensures RevLess(a, c)
    decreases |a|
  {
    if a != [] && a[|a| - 1] == b[|b| - 1] == c[|c| - 1] {
      RevLessTransitive(a[..|a| - 1], b[..|b| - 1], c[..|c| - 1]);
    }
  }

  lemma {:induction false} RevLessTotal(a: Path, b: Path)
    ensures RevLess(a, b) || a == b || RevLess(b, a)
    decreases |a|
  {
    if a != [] && b != [] && a[|a| - 1] == b[|b| - 1] {
      RevLessTotal(a[..|a| - 1], b[..|b| - 1]);
      assert a == a[..|a| - 1] + [a[|a| - 1]];
      assert b == b[..|b| - 1] + [b[|b| - 1]];
    }
  }

  lemma RevLeqTransitive(a: Path, b: Path, c: Path)
    requires RevLeq(a, b) && RevLeq(b, c)
    ensures RevLeq(a, c)
  {
    RevLessTotal(a, b);
    RevLessTotal(b, c);
    if RevLess(c, a) {
      if RevLess(a, b) {
        RevLessTransitive(c, a, b);
      }
    }
  }

  // ----- Paths between two paths with a common suffix have that suffix too

  /** Dropping the innermost call of both paths shortens what they share by one. */
  lemma ShareStep(a: Path, b: Path, k: nat)
    requires a != [] && b != []
    ensures Share(a, b, k + 1) <==>
            a[|a| - 1] == b[|b| - 1] && Share(a[..|a| - 1], b[..|b| - 1], k)
  {
    var a', b' := a[..|a| - 1], b[..|b| - 1];
    if k <= |a'| && k <= |b'| {
      assert a[|a| - (k + 1)..] == a'[|a'| - k..] + [a[|a| - 1]];
      assert b[|b| - (k + 1)..] == b'[|b'| - k..] + [b[|b| - 1]];
      if Share(a, b, k + 1) {
        assert a'[|a'| - k..] == a[|a| - (k + 1)..][..k];
        assert b'[|b'| - k..] == b[|b| - (k + 1)..][..k];
        assert a[|a| - 1] == a[|a| - (k + 1)..][k];
        assert b[|b| - 1] == b[|b| - (k + 1)..][k];
      }
    }
  }

  lemma {:induction false} Between(a: Path, b: Path, c: Path, k: nat)
    requires RevLeq(a, b) && RevLeq(b, c) && Share(a, c, k)
    ensures Share(a, b, k)
    decreases k
  {
    if k > 0 {
      ShareStep(a, c, k - 1);
      ShareStep(a, b, k - 1);
      Between(a[..|a| - 1], b[..|b| - 1], c[..|c| - 1], k - 1);
    } else {
      assert a[|a|..] == b[|b|..] == [];
    }
  }

  /** Among paths that agree on k calls, the sort order follows the next call. */
  lemma {:induction false} NextCallOrdered(a: Path, b: Path, k: nat)
    requires RevLeq(a, b) && Share(a, b, k) && k < |a| && k < |b|
    ensures RAt(a, k) <= RAt(b, k)
    decreases k
  {
    if k > 0 {
      ShareStep(a, b, k - 1);
      NextCallOrdered(a[..|a| - 1], b[..|b| - 1], k - 1);
    }
  }

  /** Sharing one more call is sharing k of them and having the same next one. */
  lemma ShareExtend(a: Path, b: Path, k: nat)
    requires k < |a| && k < |b|
    ensures Share(a, b, k + 1) <==> Share(a, b, k) && RAt(a, k) == RAt(b, k)
  {
    assert a[|a| - (k + 1)..] == [RAt(a, k)] + a[|a| - k..];
    assert b[|b| - (k + 1)..] == [RAt(b, k)] + b[|b| - k..];
    if Share(a, b, k + 1) {
      assert RAt(a, k) == a[|a| - (k + 1)..][0] == b[|b| - (k + 1)..][0];
      assert a[|a| - k..] == a[|a| - (k + 1)..][1..];
      assert b[|b| - k..] == b[|b| - (k + 1)..][1..];
    }
  }

  lemma ShareLess(a: Path, b: Path, k: nat, m: nat)
    requires Share(a, b, k) && m <= k
    ensures Share(a, b, m)
  {
    assert a[|a| - m..] == a[|a| - k..][k - m..];
    assert b[|b| - m..] == b[|b| - k..][k - m..];
  }

  lemma SuffixIsShare(a: Path, b: Path)
    ensures IsSuffix(a, b) <==> Share(a, b, |a|)
  {
    assert a[|a| - |a|..] == a;
  }

  /** A suffix sorts no later than the path it ends. */
  lemma {:induction false} SuffixSortsFirst(a: Path, b: Path)
    requires IsSuffix(a, b)
    ensures RevLeq(a, b)
    decreases |a|
  {
    if a != [] {
      SuffixIsShare(a, b);
      ShareStep(a, b, |a| - 1);
      SuffixIsShare(a[..|a| - 1], b[..|b| - 1]);
      SuffixSortsFirst(a[..|a| - 1], b[..|b| - 1]);
    }
  }

  // ----- The check on neighbours decides the property over all pairs

  ghost predicate NeighboursOk(ps: seq<Path>) {
    forall i, j :: 0 <= i < j < |ps| && j == i + 1 ==> !IsSuffix(ps[i], ps[j])
  }

  lemma ConflictReachesNeighbour(ps: seq<Path>, i: nat, j: nat)
    requires Sorted(ps) && i < |ps| && j < |ps| && i != j
    requires IsSuffix(ps[i], ps[j])
    ensures !NeighboursOk(ps)
  {
    SuffixSortsFirst(ps[i], ps[j]);
    if j < i {
      RevLessTotal(ps[i], ps[j]);
      assert ps[i] == ps[j];
      ConflictReachesNeighbour(ps, j, i);
    } else {
      SuffixIsShare(ps[i], ps[j]);
      if i + 1 < j {
        assert RevLeq(ps[i], ps[i + 1]) && RevLeq(ps[i + 1], ps[j]);
        Between(ps[i], ps[i + 1], ps[j], |ps[i]|);
      }
      SuffixIsShare(ps[i], ps[i + 1]);
    }
  }

  /** Sorted lists: no neighbour conflict exactly when no pair conflicts. */
  lemma NeighboursDecideSuffixFree(ps: seq<Path>)
    requires Sorted(ps)
    ensures NeighboursOk(ps) <==> SuffixFree(ps)
  {
    if NeighboursOk(ps) && !SuffixFree(ps) {
      var i, j :| 0 <= i < |ps| && 0 <= j < |ps| && i != j && IsSuffix(ps[i], ps[j]);
      ConflictReachesNeighbour(ps, i, j);
    }
  }

  // ----- Sorting templates does not change whether two of them conflict

  function PathsOf(ts: seq<Template>): (ps: seq<Path>)
    ensures |ps| == |ts|
    ensures forall i :: 0 <= i < |ts| ==> ps[i] == ts[i].path
  {
    seq(|ts|, i requires 0 <= i < |ts| => ts[i].path)
  }

  ghost predicate NoConflicts(m: multiset<Template>) {
    forall t, u :: t in m && u in m - multiset{t} ==> !IsSuffix(t.path, u.path)
  }

  lemma WithoutOne(ts: seq<Template>, i: nat)
    requires i < |ts|
    ensures multiset(ts) - multiset{ts[i]} == multiset(ts[..i] + ts[i + 1..])
  {
    assert ts == ts[..i] + [ts[i]] + ts[i + 1..];
  }

  lemma OtherPosition(ts: seq<Template>, i: nat, j: nat)
    requires i < |ts| && j < |ts| && i != j
    ensures ts[j] in multiset(ts) - multiset{ts[i]}
  {
    WithoutOne(ts, i);
    var rest := ts[..i] + ts[i + 1..];
    assert rest[if j < i then j else j - 1] == ts[j];
  }

  lemma PositionOfOther(ts: seq<Template>, i: nat, u: Template) returns (j: nat)
    requires i < |ts| && u in multiset(ts) - multiset{ts[i]}
    ensures j < |ts| && j != i && ts[j] == u
  {
    WithoutOne(ts, i);
    var rest := ts[..i] + ts[i + 1..];
    assert u in rest;
    var r :| 0 <= r < |rest| && rest[r] == u;
    j := if r < i then r else r + 1;
  }

  lemma SuffixFreeIsOrderless(ts: seq<Template>)
    ensures SuffixFree(PathsOf(ts)) <==> NoConflicts(multiset(ts))
  {
    var ps := PathsOf(ts);
    if NoConflicts(multiset(ts)) {
      forall i, j | 0 <= i < |ps| && 0 <= j < |ps| && i != j
        ensures !IsSuffix(ps[i], ps[j])
      {
        OtherPosition(ts, i, j);
        assert ts[i] in multiset(ts);
      }
    }
    if SuffixFree(ps) {
      forall t, u | t in multiset(ts) && u in multiset(ts) - multiset{t}
        ensures !IsSuffix(t.path, u.path)
      {
        assert t in ts;
        var i :| 0 <= i < |ts| && ts[i] == t;
        var j := PositionOfOther(ts, i, u);
        assert !IsSuffix(ps[i], ps[j]);
      }
    }
  }
}

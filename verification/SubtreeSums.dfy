/** Context trees and the sums that metric propagation is meant to compute. */
module SubtreeSums {
  import opened RealSums

  /** A context tree. Contexts are numbered in creation order, so a parent comes
    before its children; context 0 is the root. */
  datatype Tree = Tree(parent: seq<nat>, call: seq<bool>, loop: seq<bool>)

  ghost predicate IsTree(t: Tree) {
    && |t.parent| == |t.call| == |t.loop| > 0
    && forall x :: 0 < x < |t.parent| ==> t.parent[x] < x
  }

  /** Which edges a sum follows: all of them, those inside a function, or those
    inside a function that do not enter a loop. */
  datatype Kind = Execution | Function | NoLoops

  predicate Follows(t: Tree, kind: Kind, x: nat)
    requires x < |t.call| && x < |t.loop|
  {
    match kind
    case Execution => true
    case Function => !t.call[x]
    case NoLoops => !t.call[x] && !t.loop[x]
  }

  /** Context d can be reached from c over edges of this kind. */
  ghost predicate Reach(t: Tree, kind: Kind, c: nat, d: nat)
    requires IsTree(t) && d < |t.parent|
    decreases d
  {
    d == c || (d > c && Follows(t, kind, d) && Reach(t, kind, c, t.parent[d]))
  }

  /** Sum of p over the contexts below n that c reaches. */
  ghost function SumTo(t: Tree, kind: Kind, c: nat, p: nat -> real, n: nat): real
    requires IsTree(t) && n <= |t.parent|
  {
    if n == 0 then 0.0
    else SumTo(t, kind, c, p, n - 1) + if Reach(t, kind, c, n - 1) then p(n - 1) else 0.0
  }

  ghost function SubSum(t: Tree, kind: Kind, c: nat, p: nat -> real): real
    requires IsTree(t)
  {
    SumTo(t, kind, c, p, |t.parent|)
  }

  ghost function Kids(t: Tree, c: nat): set<nat> {
    set x: nat | 0 < x < |t.parent| && t.parent[x] == c
  }

  /** The child of c on the way down to d. */
  ghost function Branch(t: Tree, c: nat, d: nat): nat
    requires IsTree(t) && c < d < |t.parent|
    decreases d
  {
    if t.parent[d] <= c then d else Branch(t, c, t.parent[d])
  }

  lemma {:induction false} OneBranch(t: Tree, kind: Kind, c: nat, d: nat, x: nat)
    requires IsTree(t) && c < d < |t.parent| && x in Kids(t, c)
    ensures Follows(t, kind, x) && Reach(t, kind, x, d) <==> Reach(t, kind, c, d) && Branch(t, c, d) == x
    decreases d
  {
    if t.parent[d] > c {
      OneBranch(t, kind, c, t.parent[d], x);
    }
  }

  lemma {:induction false} BranchIsKid(t: Tree, kind: Kind, c: nat, d: nat)
    requires IsTree(t) && c < d < |t.parent| && Reach(t, kind, c, d)
    ensures Branch(t, c, d) in Kids(t, c)
    decreases d
  {
    if t.parent[d] > c {
      BranchIsKid(t, kind, c, t.parent[d]);
    }
  }

  /** What child x hands to its parent, counting contexts below n. */
  ghost function KidSum(t: Tree, kind: Kind, p: nat -> real, n: nat): nat -> real
    requires IsTree(t) && n <= |t.parent|
  {
    (x: nat) => if x < |t.parent| && Follows(t, kind, x) then SumTo(t, kind, x, p, n) else 0.0
  }

  lemma {:induction false} SumByKids(t: Tree, kind: Kind, c: nat, p: nat -> real, n: nat)
    requires IsTree(t) && c < |t.parent| && n <= |t.parent|
    ensures SumTo(t, kind, c, p, n) == (if c < n then p(c) else 0.0) + SumOver<nat>(Kids(t, c), KidSum(t, kind, p, n))
  {
    var kids := Kids(t, c);
    if n == 0 {
      SumOverZero<nat>(kids, KidSum(t, kind, p, 0));
    } else {
      var d := n - 1;
      SumByKids(t, kind, c, p, d);
      if d <= c {
        SumOverSame<nat>(kids, KidSum(t, kind, p, d), KidSum(t, kind, p, n));
      } else {
        var b, amount := Branch(t, c, d), if Reach(t, kind, c, d) then p(d) else 0.0;
        forall x | x in kids
          ensures KidSum(t, kind, p, n)(x) == KidSum(t, kind, p, d)(x) + if x == b then amount else 0.0
        {
          OneBranch(t, kind, c, d, x);
        }
        SumOverBump<nat>(kids, KidSum(t, kind, p, d), KidSum(t, kind, p, n), b, amount);
        if Reach(t, kind, c, d) { BranchIsKid(t, kind, c, d); }
      }
    }
  }

  /** A context's sum is its own value plus what its children hand up. */
  lemma SubSumByKids(t: Tree, kind: Kind, c: nat, p: nat -> real)
    requires IsTree(t) && c < |t.parent|
    ensures SubSum(t, kind, c, p) == p(c) + SumOver<nat>(Kids(t, c), KidSum(t, kind, p, |t.parent|))
  {
    SumByKids(t, kind, c, p, |t.parent|);
  }

  lemma {:induction false} RootReachesAll(t: Tree, d: nat)
    requires IsTree(t) && d < |t.parent|
    ensures Reach(t, Execution, 0, d)
    decreases d
  {
    if d > 0 { RootReachesAll(t, t.parent[d]); }
  }

  ghost function SumAll(p: nat -> real, n: nat): real {
    if n == 0 then 0.0 else SumAll(p, n - 1) + p(n - 1)
  }

  lemma {:induction false} SumAllZero(p: nat -> real, n: nat)
    requires forall d :: p(d) == 0.0
    ensures SumAll(p, n) == 0.0
  {
    if n > 0 { SumAllZero(p, n - 1); }
  }

  lemma {:induction false} RootSumTo(t: Tree, p: nat -> real, n: nat)
    requires IsTree(t) && n <= |t.parent|
    ensures SumTo(t, Execution, 0, p, n) == SumAll(p, n)
  {
    if n > 0 {
      RootSumTo(t, p, n - 1);
      RootReachesAll(t, n - 1);
    }
  }

  // ----- The part of the tree with data

  /** Context x has data in its subtree. */
  ghost predicate Above(t: Tree, data: set<nat>, x: nat)
    requires IsTree(t)
  {
    exists d :: d in data && d < |t.parent| && Reach(t, Execution, x, d)
  }

  lemma {:induction false} ReachIsUnder(t: Tree, kind: Kind, c: nat, d: nat)
    requires IsTree(t) && d < |t.parent| && Reach(t, kind, c, d)
    ensures Reach(t, Execution, c, d)
    decreases d
  {
    if d != c { ReachIsUnder(t, kind, c, t.parent[d]); }
  }

  lemma {:induction false} NothingBelow(t: Tree, kind: Kind, data: set<nat>, c: nat, p: nat -> real, n: nat)
    requires IsTree(t) && n <= |t.parent| && !Above(t, data, c)
    requires forall d :: d !in data ==> p(d) == 0.0
    ensures SumTo(t, kind, c, p, n) == 0.0
  {
    if n > 0 {
      NothingBelow(t, kind, data, c, p, n - 1);
      if Reach(t, kind, c, n - 1) { ReachIsUnder(t, kind, c, n - 1); }
    }
  }

  lemma {:induction false} ReachUp(t: Tree, x: nat, d: nat)
    requires IsTree(t) && 0 < x < |t.parent| && d < |t.parent| && Reach(t, Execution, x, d)
    ensures Reach(t, Execution, t.parent[x], d)
    decreases d
  {
    if d != x { ReachUp(t, x, t.parent[d]); }
  }

  // ----- The sums, by the ways up the tree

  /** The contexts passed on the way from d up to c, both included. */
  ghost predicate IsWay(t: Tree, way: seq<nat>, c: nat, d: nat) {
    && way != [] && way[0] == d && way[|way| - 1] == c
    && (forall i :: 0 <= i < |way| ==> way[i] < |t.parent|)
    && (forall i :: 0 <= i < |way| - 1 ==> GoesUp(t, way, i))
  }

  ghost predicate GoesUp(t: Tree, way: seq<nat>, i: nat)
    requires i + 1 < |way| && way[i] < |t.parent|
  {
    way[i] > 0 && way[i + 1] == t.parent[way[i]]
  }

  /** Context d is c or lies below it. */
  ghost predicate Under(t: Tree, c: nat, d: nat) {
    exists way :: IsWay(t, way, c, d)
  }

  /** No context on the way, except for c, is called from another function. */
  ghost predicate UnderInFunction(t: Tree, c: nat, d: nat)
    requires IsTree(t)
  {
    exists way :: IsWay(t, way, c, d) && forall i :: 0 <= i < |way| - 1 ==> !t.call[way[i]]
  }

  /** ... nor is it a loop. */
  ghost predicate UnderOutsideLoops(t: Tree, c: nat, d: nat)
    requires IsTree(t)
  {
    exists way :: IsWay(t, way, c, d) && forall i :: 0 <= i < |way| - 1 ==> !t.call[way[i]] && !t.loop[way[i]]
  }

  ghost predicate FollowsAll(t: Tree, kind: Kind, way: seq<nat>)
    requires IsTree(t) && forall i :: 0 <= i < |way| ==> way[i] < |t.parent|
  {
    forall i :: 0 <= i < |way| - 1 ==> Follows(t, kind, way[i])
  }

  lemma {:induction false} ReachGivesWay(t: Tree, kind: Kind, c: nat, d: nat) returns (way: seq<nat>)
    requires IsTree(t) && d < |t.parent| && Reach(t, kind, c, d)
    ensures IsWay(t, way, c, d) && FollowsAll(t, kind, way)
    decreases d
  {
    if d == c {
      way := [d];
    } else {
      var rest := ReachGivesWay(t, kind, c, t.parent[d]);
      way := [d] + rest;
      WayOnTop(t, kind, rest, c, d);
    }
  }

  lemma WayOnTop(t: Tree, kind: Kind, rest: seq<nat>, c: nat, d: nat)
    requires IsTree(t) && 0 < d < |t.parent| && Follows(t, kind, d)
    requires IsWay(t, rest, c, t.parent[d]) && FollowsAll(t, kind, rest)
    ensures IsWay(t, [d] + rest, c, d) && FollowsAll(t, kind, [d] + rest)
  {
    var way := [d] + rest;
    forall i | 0 <= i < |way|
      ensures way[i] < |t.parent|
    {
      if i > 0 { assert way[i] == rest[i - 1]; }
    }
    forall i | 0 <= i < |way| - 1
      ensures GoesUp(t, way, i)
    {
      assert way[i + 1] == rest[i];
      if i > 0 { assert way[i] == rest[i - 1] && GoesUp(t, rest, i - 1); }
    }
    assert way[|way| - 1] == rest[|rest| - 1] == c;
    assert IsWay(t, way, c, d);
    forall i | 0 <= i < |way| - 1
      ensures Follows(t, kind, way[i])
    {
      if i > 0 { assert way[i] == rest[i - 1]; }
    }
  }

  lemma {:induction false} WayGivesReach(t: Tree, kind: Kind, way: seq<nat>, c: nat, d: nat)
    requires IsTree(t) && IsWay(t, way, c, d) && FollowsAll(t, kind, way)
    ensures Reach(t, kind, c, d) && c <= d
    decreases |way|
  {
    if |way| > 1 {
      var rest := way[1..];
      forall i | 0 <= i < |rest| - 1
        ensures GoesUp(t, rest, i)
      {
        assert rest[i] == way[i + 1] && rest[i + 1] == way[i + 2] && GoesUp(t, way, i + 1);
      }
      forall i | 0 <= i < |rest| - 1
        ensures Follows(t, kind, rest[i])
      {
        assert rest[i] == way[i + 1];
      }
      assert GoesUp(t, way, 0) && Follows(t, kind, way[0]);
      assert rest[0] == way[1] && rest[|rest| - 1] == way[|way| - 1];
      assert IsWay(t, rest, c, t.parent[d]);
      WayGivesReach(t, kind, rest, c, t.parent[d]);
    }
  }

  /** The sums follow exactly these ways. */
  lemma ReachIffWay(t: Tree, c: nat, d: nat)
    requires IsTree(t) && d < |t.parent|
    ensures Reach(t, Execution, c, d) <==> Under(t, c, d)
    ensures Reach(t, Function, c, d) <==> UnderInFunction(t, c, d)
    ensures Reach(t, NoLoops, c, d) <==> UnderOutsideLoops(t, c, d)
  {
    if Reach(t, Execution, c, d) { var way := ReachGivesWay(t, Execution, c, d); }
    if Reach(t, Function, c, d) { var way := ReachGivesWay(t, Function, c, d); }
    if Reach(t, NoLoops, c, d) { var way := ReachGivesWay(t, NoLoops, c, d); }
    if way :| IsWay(t, way, c, d) { WayGivesReach(t, Execution, way, c, d); }
    if way :| IsWay(t, way, c, d) && forall i :: 0 <= i < |way| - 1 ==> !t.call[way[i]] {
      WayGivesReach(t, Function, way, c, d);
    }
    if way :| IsWay(t, way, c, d) && forall i :: 0 <= i < |way| - 1 ==> !t.call[way[i]] && !t.loop[way[i]] {
      WayGivesReach(t, NoLoops, way, c, d);
    }
  }

  /** The contexts below c, those in its function, and those outside of inner loops. */
  ghost function AllUnder(t: Tree, c: nat): set<nat> {
    set d: nat | d < |t.parent| && Under(t, c, d)
  }

  ghost function FunctionUnder(t: Tree, c: nat): set<nat>
    requires IsTree(t)
  {
    set d: nat | d < |t.parent| && UnderInFunction(t, c, d)
  }

  ghost function NoLoopsUnder(t: Tree, c: nat): set<nat>
    requires IsTree(t)
  {
    set d: nat | d < |t.parent| && UnderOutsideLoops(t, c, d)
  }

  ghost function Reached(t: Tree, kind: Kind, c: nat, n: nat): set<nat>
    requires IsTree(t) && n <= |t.parent|
  {
    set d: nat | d < n && Reach(t, kind, c, d)
  }

  lemma {:induction false} SumToIsSumOver(t: Tree, kind: Kind, c: nat, p: nat -> real, n: nat)
    requires IsTree(t) && n <= |t.parent|
    ensures SumTo(t, kind, c, p, n) == SumOver<nat>(Reached(t, kind, c, n), p)
  {
    if n == 0 {
      assert Reached(t, kind, c, n) == {};
    } else {
      SumToIsSumOver(t, kind, c, p, n - 1);
      if Reach(t, kind, c, n - 1) {
        assert Reached(t, kind, c, n) - {n - 1} == Reached(t, kind, c, n - 1);
        SumOverAdd<nat>(Reached(t, kind, c, n), p, n - 1);
      } else {
        assert Reached(t, kind, c, n) == Reached(t, kind, c, n - 1);
      }
    }
  }

  /** The three sums of a context are sums over the contexts below it, over those in
    its function, and over those that are in no inner loop either. */
  lemma SumsByWays(t: Tree, c: nat, p: nat -> real)
    requires IsTree(t)
    ensures SubSum(t, Execution, c, p) == SumOver<nat>(AllUnder(t, c), p)
    ensures SubSum(t, Function, c, p) == SumOver<nat>(FunctionUnder(t, c), p)
    ensures SubSum(t, NoLoops, c, p) == SumOver<nat>(NoLoopsUnder(t, c), p)
  {
    var n := |t.parent|;
    forall d: nat | d < n
      ensures Reach(t, Execution, c, d) <==> Under(t, c, d)
      ensures Reach(t, Function, c, d) <==> UnderInFunction(t, c, d)
      ensures Reach(t, NoLoops, c, d) <==> UnderOutsideLoops(t, c, d)
    {
      ReachIffWay(t, c, d);
    }
    assert Reached(t, Execution, c, n) == AllUnder(t, c);
    assert Reached(t, Function, c, n) == FunctionUnder(t, c);
    assert Reached(t, NoLoops, c, n) == NoLoopsUnder(t, c);
    SumToIsSumOver(t, Execution, c, p, n);
    SumToIsSumOver(t, Function, c, p, n);
    SumToIsSumOver(t, NoLoops, c, p, n);
  }

  /** A way from below x to its parent c passes x. */
  lemma PassesKid(t: Tree, kind: Kind, c: nat, x: nat, d: nat)
    requires IsTree(t) && x in Kids(t, c) && d < |t.parent| && Under(t, x, d) && Reach(t, kind, c, d)
    ensures Follows(t, kind, x)
  {
    ReachIffWay(t, x, d);
    ReachDown(t, Execution, x, d);
    OneBranch(t, Execution, c, d, x);
    OneBranch(t, kind, c, d, x);
  }

  lemma {:induction false} ReachDown(t: Tree, kind: Kind, c: nat, d: nat)
    requires IsTree(t) && d < |t.parent| && Reach(t, kind, c, d)
    ensures c <= d
    decreases d
  {
  }

  lemma {:induction false} SumToSame(t: Tree, kind: Kind, c: nat, p: nat -> real, q: nat -> real, n: nat)
    requires IsTree(t) && n <= |t.parent| && forall d: nat :: d < n && Reach(t, kind, c, d) ==> p(d) == q(d)
    ensures SumTo(t, kind, c, p, n) == SumTo(t, kind, c, q, n)
  {
    if n > 0 { SumToSame(t, kind, c, p, q, n - 1); }
  }

  /** What lies below a loop adds nothing to its parent's sum outside of loops, and what
    lies below a called function adds nothing to either sum inside the function. */
  lemma LoopAddsNothing(t: Tree, c: nat, x: nat, p: nat -> real, q: nat -> real)
    requires IsTree(t) && x in Kids(t, c)
    requires forall d: nat :: d < |t.parent| && !Under(t, x, d) ==> p(d) == q(d)
    ensures t.loop[x] || t.call[x] ==> SubSum(t, NoLoops, c, p) == SubSum(t, NoLoops, c, q)
    ensures t.call[x] ==> SubSum(t, Function, c, p) == SubSum(t, Function, c, q)
  {
    if t.loop[x] || t.call[x] { KidAddsNothing(t, NoLoops, c, x, p, q); }
    if t.call[x] { KidAddsNothing(t, Function, c, x, p, q); }
  }

  lemma KidAddsNothing(t: Tree, kind: Kind, c: nat, x: nat, p: nat -> real, q: nat -> real)
    requires IsTree(t) && x in Kids(t, c) && !Follows(t, kind, x)
    requires forall d: nat :: d < |t.parent| && !Under(t, x, d) ==> p(d) == q(d)
    ensures SubSum(t, kind, c, p) == SubSum(t, kind, c, q)
  {
    forall d: nat | d < |t.parent| && Reach(t, kind, c, d)
      ensures p(d) == q(d)
    {
      if Under(t, x, d) { PassesKid(t, kind, c, x, d); }
    }
    SumToSame(t, kind, c, p, q, |t.parent|);
  }
}

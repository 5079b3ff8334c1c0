/** In which order the visits of a traversal come, order by order. */
module VisitOrders {
  import opened Common
  import opened TreeWalks
  import opened IteratorStacks

  /** The part occurs in the visits from position `at` on. */
  ghost predicate Holds(vs: seq<Visit>, at: nat, part: seq<Visit>) {
    at + |part| <= |vs| && vs[at..at + |part|] == part
  }

  lemma HoldsInside(vs: seq<Visit>, at: nat, part: seq<Visit>, at': nat, inner: seq<Visit>)
    requires Holds(vs, at, part) && Holds(part, at', inner)
    ensures Holds(vs, at + at', inner)
  {
    forall k | 0 <= k < |inner|
      ensures vs[at + at'..at + at' + |inner|][k] == inner[k]
    {
      assert inner[k] == part[at'..at' + |inner|][k] == part[at' + k];
      assert part[at' + k] == vs[at..at + |part|][at' + k];
    }
  }

  lemma HoldsBetween(a: seq<Visit>, b: seq<Visit>, c: seq<Visit>)
    ensures Holds(a + b + c, |a|, b)
  {
  }

  // ----- Children

  /** Each tree has its walk among the visits from `lo` to `hi`, which holds nothing else. */
  ghost predicate Blocks(vs: seq<Visit>, walks: seq<seq<Visit>>, starts: seq<nat>, lo: nat, hi: nat) {
    && |starts| == |walks|
    && (forall i :: 0 <= i < |walks| ==> lo <= starts[i] && starts[i] + |walks[i]| <= hi && Holds(vs, starts[i], walks[i]))
    && hi == lo + Lengths(walks)
  }

  ghost function Lengths(walks: seq<seq<Visit>>): nat {
    if walks == [] then 0 else Lengths(walks[..|walks| - 1]) + |walks[|walks| - 1]|
  }

  /** Earlier trees come first. */
  ghost predicate Ascending(walks: seq<seq<Visit>>, starts: seq<nat>)
    requires |starts| == |walks|
  {
    forall i, j :: 0 <= i < j < |walks| ==> starts[i] + |walks[i]| <= starts[j]
  }

  /** Later trees come first. */
  ghost predicate Descending(walks: seq<seq<Visit>>, starts: seq<nat>)
    requires |starts| == |walks|
  {
    forall i, j :: 0 <= i < j < |walks| ==> starts[j] + |walks[j]| <= starts[i]
  }

  ghost function WalksOf(kind: Kind, ts: seq<Tree>, fwd: bool): (walks: seq<seq<Visit>>)
    ensures |walks| == |ts| && forall i :: 0 <= i < |ts| ==> walks[i] == Walk(kind, ts[i], fwd)
  {
    seq(|ts|, i requires 0 <= i < |ts| => Walk(kind, ts[i], fwd))
  }

  lemma WalksBefore(kind: Kind, ts: seq<Tree>, fwd: bool, n: nat)
    requires n <= |ts|
    ensures WalksOf(kind, ts, fwd)[..n] == WalksOf(kind, ts[..n], fwd)
  {
  }

  lemma {:induction false} ForwardFromLast(kind: Kind, ts: seq<Tree>)
    requires ts != []
    ensures WalkAll(kind, ts, true) == WalkAll(kind, ts[..|ts| - 1], true) + Walk(kind, ts[|ts| - 1], true)
    decreases |ts|
  {
    var n := |ts| - 1;
    if n == 0 {
      assert ts[1..] == [] && ts[..0] == [];
      assert Walk(kind, ts[0], true) + [] == Walk(kind, ts[0], true);
    } else {
      var first, mid, last := Walk(kind, ts[0], true), WalkAll(kind, ts[1..n], true), Walk(kind, ts[n], true);
      ForwardFromLast(kind, ts[1..]);
      assert ts[1..][..n - 1] == ts[1..n] && ts[1..][n - 1] == ts[n];
      assert ts[..n][0] == ts[0] && ts[..n][1..] == ts[1..n];
      assert WalkAll(kind, ts[..n], true) == first + mid;
      assert WalkAll(kind, ts, true) == first + (mid + last);
      Assoc(first, mid, last);
    }
  }

  lemma {:induction false} ForwardBlocks(kind: Kind, ts: seq<Tree>) returns (starts: seq<nat>)
    ensures Blocks(WalkAll(kind, ts, true), WalksOf(kind, ts, true), starts, 0, |WalkAll(kind, ts, true)|)
    ensures Ascending(WalksOf(kind, ts, true), starts)
  {
    starts := [];
    if ts != [] {
      var n := |ts| - 1;
      var rest := ForwardBlocks(kind, ts[..n]);
      ForwardFromLast(kind, ts);
      var before, walks := WalkAll(kind, ts[..n], true), WalksOf(kind, ts, true);
      WalksBefore(kind, ts, true, n);
      starts := rest + [|before|];
      MoreBehind(before, walks, rest);
    }
  }

  /** One walk more behind the others. */
  lemma MoreBehind(before: seq<Visit>, walks: seq<seq<Visit>>, rest: seq<nat>)
    requires walks != [] && Blocks(before, walks[..|walks| - 1], rest, 0, |before|) && Ascending(walks[..|walks| - 1], rest)
    ensures var all, starts := before + walks[|walks| - 1], rest + [|before|];
            Blocks(all, walks, starts, 0, |all|) && Ascending(walks, starts)
  {
    var n := |walks| - 1;
    var all, starts := before + walks[n], rest + [|before|];
    forall i | 0 <= i < |walks|
      ensures starts[i] + |walks[i]| <= |all| && Holds(all, starts[i], walks[i])
    {
      if i < n {
        assert walks[..n][i] == walks[i] && starts[i] == rest[i];
        assert all[starts[i]..starts[i] + |walks[i]|] == before[starts[i]..starts[i] + |walks[i]|];
      }
    }
    assert forall i :: 0 <= i < n ==> walks[..n][i] == walks[i];
  }

  lemma {:induction false} BackwardBlocks(kind: Kind, ts: seq<Tree>) returns (starts: seq<nat>)
    ensures Blocks(WalkAll(kind, ts, false), WalksOf(kind, ts, false), starts, 0, |WalkAll(kind, ts, false)|)
    ensures Descending(WalksOf(kind, ts, false), starts)
  {
    starts := [];
    if ts != [] {
      var n := |ts| - 1;
      var rest := BackwardBlocks(kind, ts[..n]);
      var behind, walks := WalkAll(kind, ts[..n], false), WalksOf(kind, ts, false);
      WalksBefore(kind, ts, false, n);
      starts := Shifted(rest, |walks[n]|) + [0];
      MoreInFront(behind, walks, rest);
    }
  }

  ghost function Shifted(starts: seq<nat>, d: nat): (r: seq<nat>)
    ensures |r| == |starts| && forall i :: 0 <= i < |starts| ==> r[i] == starts[i] + d
  {
    seq(|starts|, i requires 0 <= i < |starts| => starts[i] + d)
  }

  /** One walk more in front of the others. */
  lemma MoreInFront(behind: seq<Visit>, walks: seq<seq<Visit>>, rest: seq<nat>)
    requires walks != [] && Blocks(behind, walks[..|walks| - 1], rest, 0, |behind|) && Descending(walks[..|walks| - 1], rest)
    ensures var n := |walks| - 1;
            var all, starts := walks[n] + behind, Shifted(rest, |walks[n]|) + [0];
            Blocks(all, walks, starts, 0, |all|) && Descending(walks, starts)
  {
    var n := |walks| - 1;
    var all, starts := walks[n] + behind, Shifted(rest, |walks[n]|) + [0];
    forall i | 0 <= i < |walks|
      ensures starts[i] + |walks[i]| <= |all| && Holds(all, starts[i], walks[i])
    {
      if i < n {
        assert walks[..n][i] == walks[i] && starts[i] == rest[i] + |walks[n]|;
        assert all[starts[i]..starts[i] + |walks[i]|] == behind[rest[i]..rest[i] + |walks[i]|];
      }
    }
    assert forall i :: 0 <= i < n ==> walks[..n][i] == walks[i];
  }

  // ----- A node and its children

  /** The enumerations of the children; without the root they are complete ones. */
  ghost function KidVisits(t: Tree, order: Order, how: Enum): (walks: seq<seq<Visit>>)
    ensures |walks| == |t.kids|
    ensures forall i :: 0 <= i < |t.kids| ==> walks[i] == Expected(t.kids[i], order, if how == LeavesOnly then LeavesOnly else AllNodes)
  {
    seq(|t.kids|, i requires 0 <= i < |t.kids| => Expected(t.kids[i], order, if how == LeavesOnly then LeavesOnly else AllNodes))
  }

  /** Where the children's visits begin and end: a node comes before them, after them, or
    both; leaves are enumerated alone. */
  ghost predicate OwnVisits(vs: seq<Visit>, t: Tree, order: Order, how: Enum, lo: nat, hi: nat) {
    && lo <= hi <= |vs|
    && match how
       case LeavesOnly =>
         if t.kids != [] then lo == 0 && hi == |vs|
         else |vs| == 1 && vs[0] == Visit(t, if order == PreOrder || order == ReversePreOrder then PreVisit else PostVisit)
              && lo == hi
       case AllNodes =>
         (match order
          case PreOrder => lo == 1 && hi == |vs| && vs[0] == Visit(t, PreVisit)
          case ReversePreOrder => lo == 1 && hi == |vs| && vs[0] == Visit(t, PreVisit)
          case PostOrder => lo == 0 && hi + 1 == |vs| && vs[hi] == Visit(t, PostVisit)
          case ReversePostOrder => lo == 0 && hi + 1 == |vs| && vs[hi] == Visit(t, PostVisit)
          case PreAndPostOrder =>
            lo == 1 && hi + 1 == |vs| && vs[0] == Visit(t, PreVisit) && vs[hi] == Visit(t, PostVisit))
       case AllNonRoots =>
         if order == PreAndPostOrder then lo == 0 && hi + 1 == |vs| && vs[hi] == Visit(t, PostVisit)
         else lo == 0 && hi == |vs|
  }

  /** Children come from first to last, or from last to first in the two reverse orders. */
  ghost predicate KidsInOrder(walks: seq<seq<Visit>>, order: Order, starts: seq<nat>)
    requires |starts| == |walks|
  {
    match order
    case PreOrder => Ascending(walks, starts)
    case PostOrder => Ascending(walks, starts)
    case PreAndPostOrder => Ascending(walks, starts)
    case ReversePreOrder => Descending(walks, starts)
    case ReversePostOrder => Descending(walks, starts)
  }

  lemma KidVisitsAre(t: Tree, order: Order, how: Enum)
    ensures KidVisits(t, order, how) == WalksOf(KindOf(order, how == LeavesOnly), t.kids, Forward(order))
  {
  }

  lemma BlocksBetween(a: seq<Visit>, vs: seq<Visit>, c: seq<Visit>, walks: seq<seq<Visit>>, starts: seq<nat>)
    requires Blocks(vs, walks, starts, 0, |vs|)
    ensures Blocks(a + vs + c, walks, Shifted(starts, |a|), |a|, |a| + |vs|)
  {
    HoldsBetween(a, vs, c);
    forall i | 0 <= i < |walks|
      ensures Holds(a + vs + c, Shifted(starts, |a|)[i], walks[i])
    {
      HoldsInside(a + vs + c, |a|, vs, starts[i], walks[i]);
    }
  }

  ghost function Before(t: Tree, order: Order, how: Enum): seq<Visit> {
    if how == AllNonRoots then [] else Head(KindOf(order, how == LeavesOnly), t)
  }

  ghost function After(t: Tree, order: Order, how: Enum): seq<Visit> {
    if how == AllNonRoots then (if order == PreAndPostOrder then [Visit(t, PostVisit)] else [])
    else Tail(KindOf(order, how == LeavesOnly), t)
  }

  lemma ExpectedIs(t: Tree, order: Order, how: Enum)
    ensures Expected(t, order, how) ==
            Before(t, order, how) + WalkAll(KindOf(order, how == LeavesOnly), t.kids, Forward(order)) + After(t, order, how)
  {
    var all := WalkAll(KindOf(order, how == LeavesOnly), t.kids, Forward(order));
    assert [] + all == all;
  }

  lemma OwnVisitsAre(t: Tree, order: Order, how: Enum)
    ensures var n := |WalkAll(KindOf(order, how == LeavesOnly), t.kids, Forward(order))|;
            OwnVisits(Expected(t, order, how), t, order, how, |Before(t, order, how)|, |Before(t, order, how)| + n)
  {
    ExpectedIs(t, order, how);
  }

  lemma KidBlocks(kind: Kind, ts: seq<Tree>, fwd: bool) returns (starts: seq<nat>)
    ensures Blocks(WalkAll(kind, ts, fwd), WalksOf(kind, ts, fwd), starts, 0, |WalkAll(kind, ts, fwd)|)
    ensures if fwd then Ascending(WalksOf(kind, ts, fwd), starts) else Descending(WalksOf(kind, ts, fwd), starts)
  {
    if fwd {
      starts := ForwardBlocks(kind, ts);
    } else {
      starts := BackwardBlocks(kind, ts);
    }
  }

  /** The order law: what is visited below one child is visited as a whole before or after
    what is below another, and a node before or after all of it, as the order says. */
  lemma OrderLaw(t: Tree, order: Order, how: Enum) returns (starts: seq<nat>, lo: nat, hi: nat)
    ensures OwnVisits(Expected(t, order, how), t, order, how, lo, hi)
    ensures Blocks(Expected(t, order, how), KidVisits(t, order, how), starts, lo, hi)
    ensures KidsInOrder(KidVisits(t, order, how), order, starts)
  {
    var all, before := WalkAll(KindOf(order, how == LeavesOnly), t.kids, Forward(order)), Before(t, order, how);
    OwnVisitsAre(t, order, how);
    ExpectedIs(t, order, how);
    var own := KidsLaw(t, order, how);
    starts, lo, hi := Shifted(own, |before|), |before|, |before| + |all|;
    BlocksBetween(before, all, After(t, order, how), KidVisits(t, order, how), own);
    ShiftedInOrder(KidVisits(t, order, how), order, own, |before|);
  }

  lemma KidsLaw(t: Tree, order: Order, how: Enum) returns (own: seq<nat>)
    ensures var all := WalkAll(KindOf(order, how == LeavesOnly), t.kids, Forward(order));
            Blocks(all, KidVisits(t, order, how), own, 0, |all|)
    ensures KidsInOrder(KidVisits(t, order, how), order, own)
  {
    KidVisitsAre(t, order, how);
    own := KidBlocks(KindOf(order, how == LeavesOnly), t.kids, Forward(order));
  }

  lemma ShiftedInOrder(walks: seq<seq<Visit>>, order: Order, starts: seq<nat>, d: nat)
    requires |starts| == |walks| && KidsInOrder(walks, order, starts)
    ensures KidsInOrder(walks, order, Shifted(starts, d))
  {
  }

  lemma KidIsBlock(t: Tree, i: nat, order: Order, how: Enum) returns (at: nat)
    requires i < |t.kids| && how != AllNonRoots
    ensures Holds(Expected(t, order, how), at, Expected(t.kids[i], order, how))
  {
    var starts, lo, hi := OrderLaw(t, order, how);
    at := starts[i];
    assert KidVisits(t, order, how)[i] == Expected(t.kids[i], order, how);
  }

  lemma InsideKid(t: Tree, i: nat, s: Tree, order: Order, how: Enum, inner: nat) returns (at: nat)
    requires i < |t.kids| && how != AllNonRoots
    requires Holds(Expected(t.kids[i], order, how), inner, Expected(s, order, how))
    ensures Holds(Expected(t, order, how), at, Expected(s, order, how))
  {
    var outer := KidIsBlock(t, i, order, how);
    HoldsInside(Expected(t, order, how), outer, Expected(t.kids[i], order, how), inner, Expected(s, order, how));
    at := outer + inner;
  }

  // ----- Everywhere in the tree

  ghost predicate IsSubtree(t: Tree, s: Tree)
    decreases t
  {
    s == t || exists i :: 0 <= i < |t.kids| && IsSubtree(t.kids[i], s)
  }

  /** The enumeration of every subtree is a block of the whole, so that the law holds at
    every node. */
  lemma {:induction false} SubtreeIsBlock(t: Tree, s: Tree, order: Order, how: Enum) returns (at: nat)
    requires IsSubtree(t, s) && how != AllNonRoots
    ensures Holds(Expected(t, order, how), at, Expected(s, order, how))
    decreases t
  {
    if s == t {
      at := 0;
    } else {
      var i :| 0 <= i < |t.kids| && IsSubtree(t.kids[i], s);
      var inner := SubtreeIsBlock(t.kids[i], s, order, how);
      at := InsideKid(t, i, s, order, how, inner);
    }
  }
}

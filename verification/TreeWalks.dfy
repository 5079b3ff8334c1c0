/** Recursive traversal orders of a tree: what a tree iterator is meant to enumerate. */
module TreeWalks {

  datatype Tree = Node(id: nat, kids: seq<Tree>)
  datatype VisitType = PreVisit | PostVisit
  datatype Visit = Visit(node: Tree, when: VisitType)

  /** Visit a node before its children, after them, both, or only if it is a leaf. */
  datatype Kind = PreKind | PostKind | BothKind | LeafKind(when: VisitType)

  ghost function Head(kind: Kind, t: Tree): seq<Visit> {
    if kind.PreKind? || kind.BothKind? then [Visit(t, PreVisit)] else []
  }

  ghost function Tail(kind: Kind, t: Tree): seq<Visit> {
    match kind
    case PreKind => []
    case LeafKind(when) => if t.kids == [] then [Visit(t, when)] else []
    case _ => [Visit(t, PostVisit)]
  }

  /** The recursive traversal, with children in forward or backward order. */
  ghost function Walk(kind: Kind, t: Tree, fwd: bool): seq<Visit>
    decreases t
  {
    Head(kind, t) + WalkAll(kind, t.kids, fwd) + Tail(kind, t)
  }

  ghost function WalkAll(kind: Kind, ts: seq<Tree>, fwd: bool): seq<Visit>
    decreases ts
  {
    if ts == [] then []
    else if fwd then Walk(kind, ts[0], fwd) + WalkAll(kind, ts[1..], fwd)
    else Walk(kind, ts[|ts| - 1], fwd) + WalkAll(kind, ts[..|ts| - 1], fwd)
  }

  ghost function Size(t: Tree): nat
    decreases t
  {
    1 + SizeAll(t.kids)
  }

  ghost function SizeAll(ts: seq<Tree>): nat
    decreases ts
  {
    if ts == [] then 0 else Size(ts[0]) + SizeAll(ts[1..])
  }

  lemma {:induction false} KidIsSmaller(ts: seq<Tree>, i: nat)
    requires i < |ts|
    ensures Size(ts[i]) <= SizeAll(ts)
  {
    if i > 0 {
      KidIsSmaller(ts[1..], i - 1);
    }
  }

  // ----- What the orders mean

  /** How often x occurs as a subtree. */
  ghost function Occurs(t: Tree, x: Tree): nat
    decreases t
  {
    (if t == x then 1 else 0) + OccursIn(t.kids, x)
  }

  ghost function OccursIn(ts: seq<Tree>, x: Tree): nat
    decreases ts
  {
    if ts == [] then 0 else Occurs(ts[0], x) + OccursIn(ts[1..], x)
  }

  /** How often a kind of traversal reports a node that occurs n times. */
  ghost function Times(kind: Kind, t: Tree, n: nat): nat {
    match kind
    case PreKind => n
    case PostKind => n
    case BothKind => 2 * n
    case LeafKind(_) => if t.kids == [] then n else 0
  }

  ghost function Reports(vs: seq<Visit>, t: Tree): nat {
    if vs == [] then 0 else Reports(vs[..|vs| - 1], t) + if vs[|vs| - 1].node == t then 1 else 0
  }

  lemma {:induction false} ReportsConcat(a: seq<Visit>, b: seq<Visit>, t: Tree)
    ensures Reports(a + b, t) == Reports(a, t) + Reports(b, t)
    decreases |b|
  {
    if b == [] {
      assert a + b == a;
    } else {
      assert (a + b)[..|a + b| - 1] == a + b[..|b| - 1];
      ReportsConcat(a, b[..|b| - 1], t);
    }
  }

  lemma {:induction false} OccursInLast(ts: seq<Tree>, x: Tree)
    requires ts != []
    ensures OccursIn(ts, x) == Occurs(ts[|ts| - 1], x) + OccursIn(ts[..|ts| - 1], x)
    decreases |ts|
  {
    var n := |ts| - 1;
    if n == 0 {
      assert ts[1..] == [] && ts[..0] == [];
    } else {
      OccursInLast(ts[1..], x);
      assert ts[1..][..n - 1] == ts[..n][1..] && ts[1..][n - 1] == ts[n];
    }
  }

  lemma TimesAdd(kind: Kind, t: Tree, a: nat, b: nat, c: nat)
    requires c == a + b
    ensures Times(kind, t, a) + Times(kind, t, b) == Times(kind, t, c)
  {
  }

  lemma ThreeReports(a: seq<Visit>, b: seq<Visit>, c: seq<Visit>, x: Tree)
    ensures Reports(a + b + c, x) == Reports(a, x) + Reports(c, x) + Reports(b, x)
  {
    ReportsConcat(a + b, c, x);
    ReportsConcat(a, b, x);
  }

  /** Every node is reported the right number of times. */
  lemma {:induction false} WalkReports(kind: Kind, t: Tree, fwd: bool, x: Tree)
    ensures Reports(Walk(kind, t, fwd), x) == Times(kind, x, Occurs(t, x))
    decreases t
  {
    WalkAllReports(kind, t.kids, fwd, x);
    ThreeReports(Head(kind, t), WalkAll(kind, t.kids, fwd), Tail(kind, t), x);
    OwnReports(kind, t, x);
    TimesAdd(kind, x, if t == x then 1 else 0, OccursIn(t.kids, x), Occurs(t, x));
  }

  lemma OwnReports(kind: Kind, t: Tree, x: Tree)
    ensures Reports(Head(kind, t), x) + Reports(Tail(kind, t), x) == Times(kind, x, if t == x then 1 else 0)
  {
  }

  lemma {:induction false} WalkAllReports(kind: Kind, ts: seq<Tree>, fwd: bool, x: Tree)
    ensures Reports(WalkAll(kind, ts, fwd), x) == Times(kind, x, OccursIn(ts, x))
    decreases ts
  {
    if ts != [] {
      var n := |ts| - 1;
      var first, rest := if fwd then ts[0] else ts[n], if fwd then ts[1..] else ts[..n];
      WalkReports(kind, first, fwd, x);
      WalkAllReports(kind, rest, fwd, x);
      OneMoreWalk(kind, ts, fwd, x);
      OccursInLast(ts, x);
      TimesAdd(kind, x, Occurs(first, x), OccursIn(rest, x), OccursIn(ts, x));
    }
  }

  /** The first tree to be walked, and the rest. */
  lemma OneMoreWalk(kind: Kind, ts: seq<Tree>, fwd: bool, x: Tree)
    requires ts != []
    ensures var first, rest := if fwd then ts[0] else ts[|ts| - 1], if fwd then ts[1..] else ts[..|ts| - 1];
            Reports(WalkAll(kind, ts, fwd), x) == Reports(Walk(kind, first, fwd), x) + Reports(WalkAll(kind, rest, fwd), x)
  {
    if fwd {
      ReportsConcat(Walk(kind, ts[0], fwd), WalkAll(kind, ts[1..], fwd), x);
    } else {
      ReportsConcat(Walk(kind, ts[|ts| - 1], fwd), WalkAll(kind, ts[..|ts| - 1], fwd), x);
    }
  }
}

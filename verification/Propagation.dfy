/** The second half of `PerThreadTemporary::finalize`: find all contexts above data,
  then push the sums up the tree with an explicit stack. */
module Propagation {
  import opened Common
  import opened RealSums
  import opened SubtreeSums

  // ----- Ancestors of contexts with data

  /** `children` lists, for every context, exactly the children marked by `in`. */
  ghost predicate Lists(t: Tree, children: map<nat, set<nat>>, marked: set<nat>) {
    && (forall p :: p in children ==> children[p] != {} && forall x :: x in children[p] ==> x in Kids(t, p) && x in marked)
    && (forall x :: x in marked && 0 < x < |t.parent| ==> t.parent[x] in children && x in children[t.parent[x]])
  }

  /** Contexts that have one of the contexts `data` in their subtree. */
  ghost function Marked(t: Tree, data: set<nat>): set<nat>
    requires IsTree(t)
  {
    set x: nat | x < |t.parent| && Above(t, data, x)
  }

  /** The contexts above d, itself included, that are numbered above c. */
  ghost function Climbed(t: Tree, d: nat, c: nat): set<nat>
    requires IsTree(t) && d < |t.parent|
  {
    set x: nat | c < x < |t.parent| && Reach(t, Execution, x, d)
  }

  lemma {:induction false} OnPath(t: Tree, x: nat, y: nat, d: nat)
    requires IsTree(t) && d < |t.parent| && Reach(t, Execution, x, d) && Reach(t, Execution, y, d) && x < y
    ensures y < |t.parent| && Reach(t, Execution, x, t.parent[y])
    decreases d
  {
    if y != d { OnPath(t, x, y, t.parent[d]); }
  }

  lemma {:induction false} ReachTransitive(t: Tree, x: nat, y: nat, d: nat)
    requires IsTree(t) && y < |t.parent| && d < |t.parent|
    requires Reach(t, Execution, x, y) && Reach(t, Execution, y, d)
    ensures Reach(t, Execution, x, d)
    decreases d
  {
    if y != d { ReachTransitive(t, x, y, t.parent[d]); }
  }

  /** One climbing step marks the child it comes from. */
  lemma ClimbStep(t: Tree, d: nat, c: nat)
    requires IsTree(t) && d < |t.parent| && 0 < c < |t.parent| && Reach(t, Execution, c, d)
    ensures Reach(t, Execution, t.parent[c], d)
    ensures Climbed(t, d, t.parent[c]) == Climbed(t, d, c) + {c}
  {
    ReachUp(t, c, d);
    forall x | x in Climbed(t, d, t.parent[c])
      ensures x in Climbed(t, d, c) + {c}
    {
      if x < c {
        OnPath(t, x, c, d);
      }
    }
  }

  /** Once the parent is known, everything further up was marked before. */
  lemma KnownAbove(t: Tree, seen: set<nat>, d: nat, p: nat, y: nat)
    requires IsTree(t) && d < |t.parent| && p < |t.parent| && Reach(t, Execution, p, d)
    requires y in Kids(t, p) && y in Marked(t, seen)
    ensures Marked(t, seen + {d}) == Marked(t, seen) + Climbed(t, d, p)
  {
    var e :| e in seen && e < |t.parent| && Reach(t, Execution, y, e);
    ReachUp(t, y, e);
    forall x | x in Marked(t, seen + {d})
      ensures x in Marked(t, seen) + Climbed(t, d, p)
    {
      var f :| f in seen + {d} && f < |t.parent| && Reach(t, Execution, x, f);
      if f == d && x <= p {
        if x < p {
          OnPath(t, x, p, d);
          ReachUpTo(t, x, p);
        }
        ReachTransitive(t, x, p, e);
      }
    }
    forall x | x in Climbed(t, d, p)
      ensures x in Marked(t, seen + {d})
    {
      assert d in seen + {d};
    }
  }

  lemma ReachUpTo(t: Tree, x: nat, p: nat)
    requires IsTree(t) && x < p < |t.parent| && Reach(t, Execution, x, t.parent[p])
    ensures Reach(t, Execution, x, p)
  {
  }

  lemma ClimbedToRoot(t: Tree, seen: set<nat>, d: nat)
    requires IsTree(t) && d < |t.parent|
    ensures Marked(t, seen + {d}) == Marked(t, seen) + Climbed(t, d, 0) + {0}
  {
    RootReachesAll(t, d);
    assert d in seen + {d};
    forall x | x in Marked(t, seen + {d})
      ensures x in Marked(t, seen) + Climbed(t, d, 0) + {0}
    {
      var f :| f in seen + {d} && f < |t.parent| && Reach(t, Execution, x, f);
    }
  }

  lemma ListsAdd(t: Tree, children: map<nat, set<nat>>, marked: set<nat>, c: nat)
    requires IsTree(t) && Lists(t, children, marked) && 0 < c < |t.parent|
    ensures var p := t.parent[c];
            var kids := if p in children then children[p] else {};
            Lists(t, children[p := kids + {c}], marked + {c})
  {
  }

  /** A parent that is listed already has a child marked by an earlier climb. */
  lemma KnownChild(t: Tree, children: map<nat, set<nat>>, seen: set<nat>, d: nat, c: nat) returns (y: nat)
    requires IsTree(t) && d < |t.parent| && 0 < c < |t.parent| && Reach(t, Execution, c, d)
    requires Lists(t, children, Marked(t, seen) + Climbed(t, d, c)) && t.parent[c] in children
    ensures y in Kids(t, t.parent[c]) && y in Marked(t, seen)
  {
    y :| y in children[t.parent[c]];
    if y in Climbed(t, d, c) {
      OnPath(t, c, y, d);
    }
  }

  /** Climb from context d, listing every context under its parent, until the root
    or a parent that is already listed. */
  method Climb(t: Tree, children: map<nat, set<nat>>, d: nat, ghost seen: set<nat>)
    returns (children': map<nat, set<nat>>, root: bool)
    requires IsTree(t) && d < |t.parent| && Lists(t, children, Marked(t, seen))
    ensures Lists(t, children', Marked(t, seen + {d}))
    ensures !root ==> seen != {}
  {
    children' := children;
    var c: nat := d;
    assert Climbed(t, d, d) == {};
    assert Marked(t, seen) + Climbed(t, d, d) == Marked(t, seen);
    while c != 0
      invariant c < |t.parent| && Reach(t, Execution, c, d)
      invariant Lists(t, children', Marked(t, seen) + Climbed(t, d, c))
      decreases c
    {
      var p := t.parent[c];
      ClimbStep(t, d, c);
      ListsAdd(t, children', Marked(t, seen) + Climbed(t, d, c), c);
      assert Marked(t, seen) + Climbed(t, d, c) + {c} == Marked(t, seen) + Climbed(t, d, p);
      if p in children' {
        ghost var y := KnownChild(t, children', seen, d, c);
        KnownAbove(t, seen, d, p, y);
        children' := children'[p := children'[p] + {c}];
        return children', false;
      }
      children' := children'[p := {c}];
      c := p;
    }
    ClimbedToRoot(t, seen, d);
    return children', true;
  }

  /** The climb from every context with data, which stops at a parent that is
    already listed, still lists every ancestor of every context with data. */
  method FindAncestors(t: Tree, keys: set<nat>) returns (children: map<nat, set<nat>>, found: bool)
    requires IsTree(t) && forall d :: d in keys ==> d < |t.parent|
    ensures found <==> keys != {}
    ensures Lists(t, children, Marked(t, keys))
  {
    children, found := map[], false;
    var todo := keys;
    assert Marked(t, keys - todo) == {};
    while todo != {}
      invariant todo <= keys
      invariant found <==> keys - todo != {}
      invariant Lists(t, children, Marked(t, keys - todo))
    {
      var d: nat :| d in todo;
      var root;
      children, root := Climb(t, children, d, keys - todo);
      if root { found := true; }
      assert keys - (todo - {d}) == (keys - todo) + {d};
      todo := todo - {d};
    }
    assert keys - todo == keys;
  }

  // ----- Accumulators

  type Metric = nat
  datatype Accum = Accum(point: real, inFunction: real, noLoops: real, execution: real)
  type Accums = map<Metric, Accum>
  type Store = map<nat, Accums>

  function Get(a: Accums, m: Metric): Accum {
    if m in a then a[m] else Accum(0.0, 0.0, 0.0, 0.0)
  }

  function At(store: Store, c: nat, m: Metric): Accum {
    if c in store then Get(store[c], m) else Accum(0.0, 0.0, 0.0, 0.0)
  }

  ghost function Field(kind: Kind, a: Accum): real {
    match kind
    case Execution => a.execution
    case Function => a.inFunction
    case NoLoops => a.noLoops
  }

  ghost function Points(store: Store, m: Metric): nat -> real {
    (d: nat) => At(store, d, m).point
  }

  /** Before looking at children, every scope of a metric is its point value. */
  method Restart(a: Accums) returns (b: Accums)
    ensures forall m :: Get(b, m).point == Get(a, m).point
    ensures forall kind, m :: Field(kind, Get(b, m)) == Get(a, m).point
  {
    b := a;
    var todo := a.Keys;
    while todo != {}
      invariant todo <= a.Keys && b.Keys == a.Keys
      invariant forall m :: m in todo ==> b[m] == a[m]
      invariant forall m :: m in a.Keys - todo ==> b[m] == Accum(a[m].point, a[m].point, a[m].point, a[m].point)
    {
      var m: Metric :| m in todo;
      var p := b[m].point;
      b := b[m := Accum(p, p, p, p)];
      todo := todo - {m};
    }
    forall kind, m
      ensures Field(kind, Get(b, m)) == Get(a, m).point
    {
    }
  }

  /** What child x hands up according to the store. */
  ghost function HandUp(t: Tree, store: Store, kind: Kind, m: Metric): nat -> real {
    (x: nat) => if x < |t.call| && x < |t.loop| && Follows(t, kind, x) then Field(kind, At(store, x, m)) else 0.0
  }

  /** The parent's accumulator a becomes b: the child's execution sum is always added, its
    function sum unless the child is called, and the last unless it is a loop either. */
  ghost predicate Merged(t: Tree, x: nat, a: Accum, sub: Accum, b: Accum)
    requires x < |t.call| == |t.loop|
  {
    && b.point == a.point && b.execution == a.execution + sub.execution
    && b.inFunction == (if t.call[x] then a.inFunction else a.inFunction + sub.inFunction)
    && b.noLoops == (if t.call[x] || t.loop[x] then a.noLoops else a.noLoops + sub.noLoops)
  }

  /** Add one child's accumulators into its parent's. */
  method MergeChild(t: Tree, store: Store, a: Accums, x: nat) returns (b: Accums)
    requires x < |t.call| == |t.loop|
    ensures forall m :: Get(b, m).point == Get(a, m).point
    ensures forall kind, m :: Field(kind, Get(b, m)) == Field(kind, Get(a, m)) + HandUp(t, store, kind, m)(x)
    ensures forall m :: Merged(t, x, Get(a, m), At(store, x, m), Get(b, m))
  {
    var pullFunc, pullNoLoops := !t.call[x], !t.loop[x];
    var sub := if x in store then store[x] else map[];
    b := a;
    var todo := sub.Keys;
    while todo != {}
      invariant todo <= sub.Keys
      invariant forall m :: m in todo || m !in sub ==> Get(b, m) == Get(a, m)
      invariant forall m :: m in sub && m !in todo ==> Merged(t, x, Get(a, m), sub[m], Get(b, m))
    {
      var m: Metric :| m in todo;
      var acc := Get(b, m);
      if pullFunc {
        acc := acc.(inFunction := acc.inFunction + sub[m].inFunction);
        if pullNoLoops {
          acc := acc.(noLoops := acc.noLoops + sub[m].noLoops);
        }
      }
      acc := acc.(execution := acc.execution + sub[m].execution);
      b := b[m := acc];
      todo := todo - {m};
    }
    forall kind, m
      ensures Merged(t, x, Get(a, m), At(store, x, m), Get(b, m))
      ensures Field(kind, Get(b, m)) == Field(kind, Get(a, m)) + HandUp(t, store, kind, m)(x)
    {
      NothingMerged(t, x, Get(a, m));
      MergedIsHandUp(t, store, kind, m, x, Get(a, m), Get(b, m));
    }
  }

  lemma NothingMerged(t: Tree, x: nat, a: Accum)
    requires x < |t.call| == |t.loop|
    ensures Merged(t, x, a, Accum(0.0, 0.0, 0.0, 0.0), a)
  {
  }

  lemma MergedIsHandUp(t: Tree, store: Store, kind: Kind, m: Metric, x: nat, a: Accum, b: Accum)
    requires x < |t.call| == |t.loop|
    ensures Merged(t, x, a, At(store, x, m), b) ==> Field(kind, b) == Field(kind, a) + HandUp(t, store, kind, m)(x)
  {
  }

  ghost function SeqSum(xs: seq<nat>, w: nat -> real): real {
    if xs == [] then 0.0 else SeqSum(xs[..|xs| - 1], w) + w(xs[|xs| - 1])
  }

  lemma {:induction false} SeqSumIsSumOver(xs: seq<nat>, w: nat -> real)
    requires Distinct(xs)
    ensures SeqSum(xs, w) == SumOver<nat>(Elems(xs), w)
  {
    if xs == [] {
      assert Elems(xs) == {};
    } else {
      var n := |xs| - 1;
      SeqSumIsSumOver(xs[..n], w);
      SumOverAdd<nat>(Elems(xs), w, xs[n]);
      assert Elems(xs) - {xs[n]} == Elems(xs[..n]);
    }
  }

  /** A context's accumulators once all children in `subs` are settled. */
  method Settle(t: Tree, store: Store, c: nat, subs: seq<nat>) returns (b: Accums)
    requires IsTree(t) && forall i :: 0 <= i < |subs| ==> subs[i] < |t.parent|
    ensures forall m :: Get(b, m).point == At(store, c, m).point
    ensures forall kind, m :: Field(kind, Get(b, m)) ==
                              At(store, c, m).point + SeqSum(subs, HandUp(t, store, kind, m))
  {
    b := Restart(if c in store then store[c] else map[]);
    for i := 0 to |subs|
      invariant forall m :: Get(b, m).point == At(store, c, m).point
      invariant forall kind, m :: Field(kind, Get(b, m)) ==
                                  At(store, c, m).point + SeqSum(subs[..i], HandUp(t, store, kind, m))
    {
      assert subs[..i + 1][..i] == subs[..i];
      b := MergeChild(t, store, b, subs[i]);
    }
    assert subs[..|subs|] == subs;
  }

  // ----- Settled contexts

  /** The accumulator of context c holds the three sums over its subtree. */
  ghost predicate IsFinal(t: Tree, start: Store, a: Accum, c: nat, m: Metric)
    requires IsTree(t)
  {
    && a.point == At(start, c, m).point
    && forall kind :: Field(kind, a) == SubSum(t, kind, c, Points(start, m))
  }

  /** The same, field by field, over the contexts below c. */
  ghost predicate HoldsSums(t: Tree, start: Store, a: Accum, c: nat, m: Metric)
    requires IsTree(t)
  {
    && a.execution == SumOver<nat>(AllUnder(t, c), Points(start, m))
    && a.inFunction == SumOver<nat>(FunctionUnder(t, c), Points(start, m))
    && a.noLoops == SumOver<nat>(NoLoopsUnder(t, c), Points(start, m))
  }

  lemma FinalHoldsSums(t: Tree, start: Store, a: Accum, c: nat, m: Metric)
    requires IsTree(t) && IsFinal(t, start, a, c, m)
    ensures HoldsSums(t, start, a, c, m)
  {
    SumsByWays(t, c, Points(start, m));
    assert Field(Execution, a) == a.execution && Field(Function, a) == a.inFunction && Field(NoLoops, a) == a.noLoops;
  }

  ghost function KidsIn(children: map<nat, set<nat>>, c: nat): set<nat> {
    if c in children then children[c] else {}
  }

  /** Settled contexts have their final values, the others are untouched. */
  ghost predicate StoreOk(t: Tree, start: Store, store: Store, done: set<nat>)
    requires IsTree(t)
  {
    && (forall c, m :: c in done ==> IsFinal(t, start, At(store, c, m), c, m))
    && (forall c, m :: c !in done ==> At(store, c, m) == At(start, c, m))
  }

  lemma KidsSumAgrees(t: Tree, children: map<nat, set<nat>>, start: Store, store: Store, done: set<nat>,
                      c: nat, kind: Kind, m: Metric)
    requires IsTree(t) && c < |t.parent| && Lists(t, children, Marked(t, start.Keys))
    requires StoreOk(t, start, store, done) && KidsIn(children, c) <= done
    ensures SumOver<nat>(KidsIn(children, c), HandUp(t, store, kind, m)) ==
            SumOver<nat>(Kids(t, c), KidSum(t, kind, Points(start, m), |t.parent|))
  {
    var kids, p := KidsIn(children, c), Points(start, m);
    var w, v := HandUp(t, store, kind, m), KidSum(t, kind, p, |t.parent|);
    forall x | x in kids
      ensures v(x) == w(x)
    {
      assert IsFinal(t, start, At(store, x, m), x, m);
    }
    SumOverSame<nat>(kids, w, v);
    forall x | x in Kids(t, c) && x !in kids
      ensures v(x) == 0.0
    {
      assert x !in Marked(t, start.Keys);
      NothingBelow(t, kind, start.Keys, x, p, |t.parent|);
    }
    SumOverSubset<nat>(kids, Kids(t, c), v);
  }

  lemma SettledIsFinal(t: Tree, children: map<nat, set<nat>>, start: Store, store: Store, done: set<nat>,
                       c: nat, subs: seq<nat>, b: Accums, m: Metric)
    requires IsTree(t) && c < |t.parent| && Lists(t, children, Marked(t, start.Keys))
    requires StoreOk(t, start, store, done) && c !in done
    requires Distinct(subs) && Elems(subs) == KidsIn(children, c) <= done
    requires Get(b, m).point == At(store, c, m).point
    requires forall kind :: Field(kind, Get(b, m)) == At(store, c, m).point + SeqSum(subs, HandUp(t, store, kind, m))
    ensures IsFinal(t, start, Get(b, m), c, m)
  {
    forall kind
      ensures Field(kind, Get(b, m)) == SubSum(t, kind, c, Points(start, m))
    {
      SeqSumIsSumOver(subs, HandUp(t, store, kind, m));
      KidsSumAgrees(t, children, start, store, done, c, kind, m);
      SubSumByKids(t, kind, c, Points(start, m));
    }
  }

  // ----- The explicit stack

  datatype Frame = Frame(ctx: nat, todo: set<nat>, subs: seq<nat>)

  /** Children of the frame's context: still to visit, settled, or being visited. */
  ghost predicate FrameOk(children: map<nat, set<nat>>, f: Frame, open: set<nat>, done: set<nat>) {
    && f.ctx !in done && Distinct(f.subs)
    && KidsIn(children, f.ctx) == f.todo + Elems(f.subs) + open
    && f.todo !! done && open !! done && f.todo !! open && Elems(f.subs) <= done
  }

  ghost function OpenIn(stack: seq<Frame>, i: nat): set<nat> {
    if i + 1 < |stack| then {stack[i + 1].ctx} else {}
  }

  /** Context p is on the stack and has settled child y. */
  ghost predicate Waiting(stack: seq<Frame>, p: nat, y: nat) {
    exists i :: 0 <= i < |stack| && stack[i].ctx == p && y in stack[i].subs
  }

  ghost predicate IsChild(t: Tree, x: nat, p: nat) {
    0 < x < |t.parent| && t.parent[x] == p
  }

  /** The frames lead from the root down, each context a child of the one before. */
  ghost predicate Chain(t: Tree, stack: seq<Frame>) {
    && (forall i :: 0 <= i < |stack| ==> stack[i].ctx < |t.parent|)
    && (forall i: nat {:trigger Linked(t, stack, i)} :: i + 1 < |stack| ==> Linked(t, stack, i))
  }

  ghost predicate Linked(t: Tree, stack: seq<Frame>, i: nat)
    requires i + 1 < |stack|
  {
    IsChild(t, stack[i + 1].ctx, stack[i].ctx)
  }

  ghost predicate StackOk(t: Tree, children: map<nat, set<nat>>, stack: seq<Frame>, done: set<nat>)
    requires IsTree(t)
  {
    && (stack == [] ==> 0 in done)
    && (stack != [] ==> stack[0].ctx == 0)
    && Chain(t, stack)
    && (forall i: nat {:trigger OpenIn(stack, i)} ::
          i < |stack| ==> FrameOk(children, stack[i], OpenIn(stack, i), done))
    && (forall y {:trigger KidsIn(children, y)} :: y in done ==> KidsIn(children, y) <= done)
    && (forall y {:trigger Reported(t, stack, done, y)} :: y in done ==> Reported(t, stack, done, y))
  }

  /** A settled context's parent is settled too, or knows about it. */
  ghost predicate Reported(t: Tree, stack: seq<Frame>, done: set<nat>, y: nat) {
    y < |t.parent| && (y != 0 ==> t.parent[y] in done || Waiting(stack, t.parent[y], y))
  }

  lemma {:induction false} TopIsLargest(t: Tree, stack: seq<Frame>, i: nat)
    requires IsTree(t) && Chain(t, stack) && i < |stack|
    ensures i + 1 < |stack| ==> stack[i].ctx < stack[|stack| - 1].ctx
    decreases |stack| - i
  {
    if i + 1 < |stack| {
      assert Linked(t, stack, i);
      TopIsLargest(t, stack, i + 1);
    }
  }

  /** Start visiting child x of the top frame. */
  ghost function Pushed(children: map<nat, set<nat>>, stack: seq<Frame>, x: nat): seq<Frame>
    requires stack != []
  {
    var n := |stack| - 1;
    stack[n := stack[n].(todo := stack[n].todo - {x})] + [Frame(x, KidsIn(children, x), [])]
  }

  lemma ChildIsFresh(t: Tree, children: map<nat, set<nat>>, marked: set<nat>, stack: seq<Frame>, done: set<nat>, x: nat)
    requires IsTree(t) && Lists(t, children, marked) && StackOk(t, children, stack, done)
    requires stack != [] && x in stack[|stack| - 1].todo
    ensures IsChild(t, x, stack[|stack| - 1].ctx) && x in marked && x !in done
    ensures KidsIn(children, x) !! done
  {
    var n := |stack| - 1;
    assert FrameOk(children, stack[n], OpenIn(stack, n), done);
    assert x in KidsIn(children, stack[n].ctx);
    forall y | y in KidsIn(children, x)
      ensures y !in done
    {
      if y in done {
        assert Reported(t, stack, done, y);
        assert t.parent[y] == x;
        var i :| 0 <= i < |stack| && stack[i].ctx == x && y in stack[i].subs;
        TopIsLargest(t, stack, i);
      }
    }
  }

  lemma PushFrames(t: Tree, children: map<nat, set<nat>>, stack: seq<Frame>, done: set<nat>, x: nat, i: nat)
    requires IsTree(t) && StackOk(t, children, stack, done)
    requires stack != [] && x in stack[|stack| - 1].todo && IsChild(t, x, stack[|stack| - 1].ctx)
    requires x !in done && KidsIn(children, x) !! done && i <= |stack|
    ensures var s := Pushed(children, stack, x);
            FrameOk(children, s[i], OpenIn(s, i), done)
  {
    var s := Pushed(children, stack, x);
    if i < |stack| {
      assert FrameOk(children, stack[i], OpenIn(stack, i), done);
      if i == |stack| - 1 {
        assert OpenIn(s, i) == {x};
      } else {
        assert s[i] == stack[i] && OpenIn(s, i) == OpenIn(stack, i);
      }
    } else {
      assert Elems(s[i].subs) == {};
    }
  }

  lemma StillReported(t: Tree, stack: seq<Frame>, s: seq<Frame>, done: set<nat>, done': set<nat>, y: nat)
    requires Reported(t, stack, done, y) && done <= done'
    requires forall i :: 0 <= i < |stack| && stack[i].ctx !in done' ==>
                           i < |s| && s[i].ctx == stack[i].ctx && stack[i].subs <= s[i].subs
    ensures Reported(t, s, done', y)
  {
  }

  lemma PushChain(t: Tree, children: map<nat, set<nat>>, stack: seq<Frame>, x: nat)
    requires Chain(t, stack) && stack != [] && IsChild(t, x, stack[|stack| - 1].ctx)
    ensures Chain(t, Pushed(children, stack, x))
  {
    var s := Pushed(children, stack, x);
    assert forall i :: 0 <= i < |s| ==> s[i].ctx == if i < |stack| then stack[i].ctx else x;
    forall i: nat | i + 1 < |s|
      ensures Linked(t, s, i)
    {
      assert i + 1 < |stack| ==> Linked(t, stack, i);
    }
  }

  lemma PushReported(t: Tree, children: map<nat, set<nat>>, stack: seq<Frame>, done: set<nat>, x: nat, y: nat)
    requires stack != [] && Reported(t, stack, done, y)
    ensures Reported(t, Pushed(children, stack, x), done, y)
  {
    StillReported(t, stack, Pushed(children, stack, x), done, done, y);
  }

  lemma PushKeeps(t: Tree, children: map<nat, set<nat>>, marked: set<nat>, stack: seq<Frame>, done: set<nat>, x: nat)
    requires IsTree(t) && Lists(t, children, marked) && StackOk(t, children, stack, done)
    requires stack != [] && x in stack[|stack| - 1].todo
    ensures StackOk(t, children, Pushed(children, stack, x), done)
    ensures IsChild(t, x, stack[|stack| - 1].ctx) && x in marked
  {
    var s := Pushed(children, stack, x);
    ChildIsFresh(t, children, marked, stack, done, x);
    PushChain(t, children, stack, x);
    forall i: nat | i < |s|
      ensures FrameOk(children, s[i], OpenIn(s, i), done)
    {
      PushFrames(t, children, stack, done, x, i);
    }
    forall y | y in done
      ensures Reported(t, s, done, y)
    {
      assert Reported(t, stack, done, y);
      PushReported(t, children, stack, done, x, y);
    }
  }

  /** Settle the top frame and report it to the frame below. */
  ghost function Popped(stack: seq<Frame>): seq<Frame>
    requires stack != []
  {
    var n := |stack| - 1;
    if n == 0 then [] else stack[..n][n - 1 := stack[n - 1].(subs := stack[n - 1].subs + [stack[n].ctx])]
  }

  /** The top context is no child of a frame further down. */
  lemma OnlyOneParent(t: Tree, stack: seq<Frame>, i: nat)
    requires IsTree(t) && Chain(t, stack) && i + 2 < |stack|
    ensures t.parent[stack[|stack| - 1].ctx] != stack[i].ctx
  {
    var n := |stack| - 1;
    assert Linked(t, stack, n - 1);
    forall k: nat | k + 1 < n
      ensures Linked(t, stack[..n], k)
    {
      assert Linked(t, stack, k);
    }
    TopIsLargest(t, stack[..n], i);
  }

  lemma CloseFrame(children: map<nat, set<nat>>, f: Frame, c: nat, done: set<nat>)
    requires FrameOk(children, f, {c}, done) && f.ctx != c
    ensures FrameOk(children, f.(subs := f.subs + [c]), {}, done + {c})
  {
  }

  lemma KeepFrame(children: map<nat, set<nat>>, f: Frame, open: set<nat>, c: nat, done: set<nat>)
    requires FrameOk(children, f, open, done) && f.ctx != c && c !in KidsIn(children, f.ctx)
    ensures FrameOk(children, f, open, done + {c})
  {
  }

  lemma PopFrames(t: Tree, children: map<nat, set<nat>>, marked: set<nat>, stack: seq<Frame>, done: set<nat>, i: nat)
    requires IsTree(t) && Lists(t, children, marked) && StackOk(t, children, stack, done) && i + 1 < |stack|
    ensures var s := Popped(stack);
            FrameOk(children, s[i], OpenIn(s, i), done + {stack[|stack| - 1].ctx})
  {
    var n := |stack| - 1;
    var c, s := stack[n].ctx, Popped(stack);
    assert FrameOk(children, stack[i], OpenIn(stack, i), done);
    TopIsLargest(t, stack, i);
    if i == n - 1 {
      CloseFrame(children, stack[i], c, done);
    } else {
      assert s[i] == stack[i] && OpenIn(s, i) == OpenIn(stack, i);
      OnlyOneParent(t, stack, i);
      KeepFrame(children, stack[i], OpenIn(stack, i), c, done);
    }
  }

  lemma PopChain(t: Tree, stack: seq<Frame>)
    requires Chain(t, stack) && stack != []
    ensures Chain(t, Popped(stack))
  {
    var s := Popped(stack);
    assert forall i :: 0 <= i < |s| ==> s[i].ctx == stack[i].ctx;
    forall i: nat | i + 1 < |s|
      ensures Linked(t, s, i)
    {
      assert Linked(t, stack, i);
    }
  }

  lemma PopReported(t: Tree, stack: seq<Frame>, done: set<nat>, y: nat)
    requires Chain(t, stack) && stack != [] && stack[0].ctx == 0
    requires y == stack[|stack| - 1].ctx || Reported(t, stack, done, y)
    ensures Reported(t, Popped(stack), done + {stack[|stack| - 1].ctx}, y)
  {
    var n := |stack| - 1;
    var c, s := stack[n].ctx, Popped(stack);
    if y == c {
      if n > 0 {
        assert Linked(t, stack, n - 1);
        assert s[n - 1].ctx == t.parent[y] && s[n - 1].subs[|stack[n - 1].subs|] == y;
      }
    } else {
      StillReported(t, stack, s, done, done + {c}, y);
    }
  }

  lemma TopIsReady(t: Tree, children: map<nat, set<nat>>, marked: set<nat>, stack: seq<Frame>, done: set<nat>)
    requires IsTree(t) && Lists(t, children, marked) && StackOk(t, children, stack, done) && stack != [] && stack[|stack| - 1].todo == {}
    ensures var top := stack[|stack| - 1];
            && Distinct(top.subs) && KidsIn(children, top.ctx) == Elems(top.subs) <= done && top.ctx !in done
            && forall i :: 0 <= i < |top.subs| ==> top.subs[i] < |t.parent|
  {
    var top := stack[|stack| - 1];
    assert OpenIn(stack, |stack| - 1) == {};
    forall i | 0 <= i < |top.subs|
      ensures top.subs[i] < |t.parent|
    {
      assert top.subs[i] in Elems(top.subs);
    }
  }

  lemma PopKeeps(t: Tree, children: map<nat, set<nat>>, marked: set<nat>, stack: seq<Frame>, done: set<nat>)
    requires IsTree(t) && Lists(t, children, marked) && StackOk(t, children, stack, done)
    requires stack != [] && stack[|stack| - 1].todo == {}
    ensures StackOk(t, children, Popped(stack), done + {stack[|stack| - 1].ctx})
  {
    var s := Popped(stack);
    var done' := done + {stack[|stack| - 1].ctx};
    TopIsReady(t, children, marked, stack, done);
    PopChain(t, stack);
    forall i: nat | i < |s|
      ensures FrameOk(children, s[i], OpenIn(s, i), done')
    {
      PopFrames(t, children, marked, stack, done, i);
    }
    forall y | y in done'
      ensures Reported(t, s, done', y)
    {
      assert y in done ==> Reported(t, stack, done, y);
      PopReported(t, stack, done, y);
    }
  }

  lemma {:induction false} AllSettled(t: Tree, children: map<nat, set<nat>>, marked: set<nat>, done: set<nat>, x: nat)
    requires IsTree(t) && Lists(t, children, marked) && StackOk(t, children, [], done)
    requires forall y :: y in marked && 0 < y < |t.parent| ==> t.parent[y] in marked
    requires x in marked && x < |t.parent|
    ensures x in done
    decreases x
  {
    if x > 0 {
      AllSettled(t, children, marked, done, t.parent[x]);
      assert x in KidsIn(children, t.parent[x]);
    }
  }

  lemma MarkedIsClosed(t: Tree, keys: set<nat>)
    requires IsTree(t)
    ensures forall y :: y in Marked(t, keys) && 0 < y < |t.parent| ==> t.parent[y] in Marked(t, keys)
  {
    forall y | y in Marked(t, keys) && 0 < y < |t.parent|
      ensures t.parent[y] in Marked(t, keys)
    {
      var d :| d in keys && d < |t.parent| && Reach(t, Execution, y, d);
      ReachUp(t, y, d);
    }
  }

  /** All children of the top frame are settled: settle it too. */
  method SettleTop(t: Tree, children: map<nat, set<nat>>, start: Store, store: Store, stack: seq<Frame>,
                   ghost done: set<nat>)
    returns (store': Store, stack': seq<Frame>)
    requires IsTree(t) && Lists(t, children, Marked(t, start.Keys))
    requires StackOk(t, children, stack, done) && StoreOk(t, start, store, done)
    requires stack != [] && stack[|stack| - 1].todo == {}
    ensures var c := stack[|stack| - 1].ctx;
            && c !in done && stack' == Popped(stack)
            && StackOk(t, children, stack', done + {c}) && StoreOk(t, start, store', done + {c})
  {
    var n := |stack| - 1;
    var c, subs := stack[n].ctx, stack[n].subs;
    TopIsReady(t, children, Marked(t, start.Keys), stack, done);
    var b := Settle(t, store, c, subs);
    PopKeeps(t, children, Marked(t, start.Keys), stack, done);
    forall m
      ensures IsFinal(t, start, Get(b, m), c, m)
    {
      SettledIsFinal(t, children, start, store, done, c, subs, b, m);
    }
    store' := store[c := b];
    assert forall x, m :: At(store', x, m) == if x == c then Get(b, m) else At(store, x, m);
    stack' := if n == 0 then [] else stack[..n][n - 1 := stack[n - 1].(subs := stack[n - 1].subs + [c])];
  }

  ghost predicate Within(stack: seq<Frame>, s: set<nat>) {
    forall i :: 0 <= i < |stack| ==> stack[i].ctx in s
  }

  lemma PushWithin(children: map<nat, set<nat>>, stack: seq<Frame>, x: nat, s: set<nat>)
    requires stack != [] && Within(stack, s) && x in s
    ensures Within(Pushed(children, stack, x), s)
  {
  }

  lemma PopWithin(stack: seq<Frame>, s: set<nat>)
    requires stack != [] && Within(stack, s)
    ensures Within(Popped(stack), s)
  {
  }

  ghost predicate Traversing(t: Tree, children: map<nat, set<nat>>, start: Store, store: Store, stack: seq<Frame>, done: set<nat>)
    requires IsTree(t)
  {
    var all := Marked(t, start.Keys) + {0};
    StackOk(t, children, stack, done) && StoreOk(t, start, store, done) && done <= all && Within(stack, all)
  }

  ghost function Height(t: Tree, stack: seq<Frame>): int {
    if stack == [] then 0 else |t.parent| - stack[|stack| - 1].ctx
  }

  /** One step of the traversal: down to a child, or back up once all are settled. */
  method Visit(t: Tree, children: map<nat, set<nat>>, start: Store, store: Store, stack: seq<Frame>, ghost done: set<nat>)
    returns (store': Store, stack': seq<Frame>, ghost done': set<nat>)
    requires IsTree(t) && Lists(t, children, Marked(t, start.Keys))
    requires Traversing(t, children, start, store, stack, done) && stack != []
    ensures Traversing(t, children, start, store', stack', done')
    ensures if done' == done then 0 <= Height(t, stack') < Height(t, stack)
            else exists c :: c !in done && c in Marked(t, start.Keys) + {0} && done' == done + {c}
  {
    var n := |stack| - 1;
    var top := stack[n];
    ghost var marked := Marked(t, start.Keys);
    if top.todo != {} {
      var x: nat :| x in top.todo;
      PushKeeps(t, children, marked, stack, done, x);
      PushWithin(children, stack, x, marked + {0});
      store', done' := store, done;
      stack' := stack[n := top.(todo := top.todo - {x})] + [Frame(x, if x in children then children[x] else {}, [])];
      assert stack' == Pushed(children, stack, x);
    } else {
      PopWithin(stack, marked + {0});
      assert top.ctx in marked + {0};
      store', stack' := SettleTop(t, children, start, store, stack, done);
      done' := done + {top.ctx};
    }
  }

  /** Post-order traversal of the listed part of the tree. */
  method Propagate(t: Tree, children: map<nat, set<nat>>, start: Store) returns (store: Store)
    requires IsTree(t) && Lists(t, children, Marked(t, start.Keys))
    ensures forall c, m :: c in Marked(t, start.Keys) ==> IsFinal(t, start, At(store, c, m), c, m)
    ensures forall c, m :: c !in Marked(t, start.Keys) && c != 0 ==> At(store, c, m) == At(start, c, m)
  {
    ghost var marked := Marked(t, start.Keys);
    ghost var done: set<nat> := {};
    store := start;
    var stack := [Frame(0, if 0 in children then children[0] else {}, [])];
    while stack != []
      invariant Traversing(t, children, start, store, stack, done)
      decreases marked + {0} - done, Height(t, stack)
    {
      store, stack, done := Visit(t, children, start, store, stack, done);
    }
    MarkedIsClosed(t, start.Keys);
    forall c | c in marked
      ensures c in done
    {
      AllSettled(t, children, marked, done, c);
    }
  }

  /** The whole of the propagation. Every context above data ends with its three
    sums, the root's execution sum is the total of all points, and contexts
    without data below them are not touched. */
  method Finalize(t: Tree, start: Store) returns (store: Store)
    requires IsTree(t) && forall c :: c in start ==> c < |t.parent|
    ensures forall c, m :: c in Marked(t, start.Keys) ==>
                             IsFinal(t, start, At(store, c, m), c, m) && HoldsSums(t, start, At(store, c, m), c, m)
    ensures forall c, m :: c !in Marked(t, start.Keys) ==> At(store, c, m) == At(start, c, m)
    ensures forall m :: At(store, 0, m).execution == SumAll(Points(start, m), |t.parent|)
  {
    var children, found := FindAncestors(t, start.Keys);
    if !found {
      assert start == map[];
      forall m { SumAllZero(Points(start, m), |t.parent|); }
      return start;
    }
    store := Propagate(t, children, start);
    forall c, m | c in Marked(t, start.Keys)
      ensures HoldsSums(t, start, At(store, c, m), c, m)
    {
      FinalHoldsSums(t, start, At(store, c, m), c, m);
    }
    ghost var d :| d in start.Keys;
    RootReachesAll(t, d);
    assert 0 in Marked(t, start.Keys);
    forall m
      ensures At(store, 0, m).execution == SumAll(Points(start, m), |t.parent|)
    {
      assert IsFinal(t, start, At(store, 0, m), 0, m);
      assert Field(Execution, At(store, 0, m)) == SubSum(t, Execution, 0, Points(start, m));
      RootSumTo(t, Points(start, m), |t.parent|);
    }
  }
}

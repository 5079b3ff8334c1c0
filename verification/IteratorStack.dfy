/** Stacks of iterators over trees as values: what is left to visit, and what a step of
  `IteratorStack` does to it. */
module IteratorStacks {
  import opened Common
  import opened TreeWalks

  datatype Order = PreOrder | PostOrder | ReversePreOrder | ReversePostOrder | PreAndPostOrder
  datatype Enum = LeavesOnly | AllNodes | AllNonRoots

  /** `SingletonIterator` and `NonUniformDegreeTreeNodeChildIterator`. A child
    iterator's position is -1 once it is exhausted. */
  datatype Iter =
    | Single(node: Tree, done: bool, when: VisitType)
    | Children(parent: Tree, at: int, forward: bool)
  {
    ghost predicate Ok() {
      Children? ==> -1 <= at < |parent.kids|
    }

    function Current(): Option<Tree>
      requires Ok()
    {
      match this
      case Single(node, done, _) => if done then None else Some(node)
      case Children(parent, at, _) => if at < 0 then None else Some(parent.kids[at])
    }

    predicate IsValid()
      requires Ok()
    {
      Current().Some?
    }

    /** Advance: a child iterator follows the sibling ring and stops when it is back
      at the child it started from. */
    function Next(): (it: Iter)
      requires Ok()
      ensures it.Ok()
    {
      match this
      case Single(node, _, when) => Single(node, true, when)
      case Children(parent, at, forward) =>
        if at < 0 then this
        else
          var n := |parent.kids|;
          var sibling := if forward then (if at + 1 == n then 0 else at + 1) else (if at == 0 then n - 1 else at - 1);
          var pastEnd := if forward then 0 else n - 1;
          Children(parent, if sibling == pastEnd then -1 else sibling, forward)
    }
  }

  function FirstChild(t: Tree, forward: bool): (it: Iter)
    requires t.kids != []
    ensures it.Ok() && it.IsValid()
  {
    Children(t, if forward then 0 else |t.kids| - 1, forward)
  }

  // ----- What is left to visit

  /** Everything below the iterator's nodes, from its current node on. */
  ghost function From(kind: Kind, fwd: bool, it: Iter): seq<Visit>
    requires it.Ok()
  {
    match it
    case Single(node, done, _) => if done then [] else Walk(kind, node, fwd)
    case Children(parent, at, forward) =>
      if at < 0 then []
      else if forward then WalkAll(kind, parent.kids[at..], fwd)
      else WalkAll(kind, parent.kids[..at + 1], fwd)
  }

  lemma FromCurrent(kind: Kind, fwd: bool, it: Iter)
    requires it.Ok() && it.IsValid() && (it.Children? ==> it.forward == fwd)
    ensures From(kind, fwd, it) == Walk(kind, it.Current().value, fwd) + From(kind, fwd, it.Next())
  {
    if it.Children? {
      if fwd { FromForward(kind, it.parent, it.at); } else { FromBackward(kind, it.parent, it.at); }
    }
  }

  lemma FromForward(kind: Kind, parent: Tree, at: nat)
    requires at < |parent.kids|
    ensures var it := Children(parent, at, true);
            From(kind, true, it) == Walk(kind, parent.kids[at], true) + From(kind, true, it.Next())
  {
    var kids := parent.kids;
    assert Children(parent, at, true).Next() == Children(parent, if at + 1 == |kids| then -1 else at + 1, true);
    assert kids[at..][0] == kids[at] && kids[at..][1..] == kids[at + 1..];
    assert at + 1 == |kids| ==> kids[at + 1..] == [];
    assert From(kind, true, Children(parent, at, true).Next()) == WalkAll(kind, kids[at + 1..], true);
  }

  lemma FromBackward(kind: Kind, parent: Tree, at: nat)
    requires at < |parent.kids|
    ensures var it := Children(parent, at, false);
            From(kind, false, it) == Walk(kind, parent.kids[at], false) + From(kind, false, it.Next())
  {
    var kids := parent.kids;
    assert Children(parent, at, false).Next() == Children(parent, at - 1, false);
    assert kids[..at + 1][at] == kids[at] && kids[..at + 1][..at] == kids[..at];
    assert From(kind, false, Children(parent, at, false).Next()) == WalkAll(kind, kids[..at], false);
  }

  lemma FromFirst(kind: Kind, fwd: bool, t: Tree)
    requires t.kids != []
    ensures From(kind, fwd, FirstChild(t, fwd)) == WalkAll(kind, t.kids, fwd)
  {
    assert t.kids[0..] == t.kids && t.kids[..|t.kids|] == t.kids;
  }

  predicate PreLike(kind: Kind) {
    kind.PreKind? || kind.BothKind?
  }

  /** What one iterator on the stack still has to report. Traversals that report a
    node after its children have already descended below the current node. */
  ghost function Left(kind: Kind, fwd: bool, it: Iter): seq<Visit>
    requires it.Ok()
  {
    if !it.IsValid() then []
    else if kind.BothKind? && it.Single? && it.when == PostVisit then [Visit(it.node, PostVisit)]
    else if PreLike(kind) then From(kind, fwd, it)
    else Tail(kind, it.Current().value) + From(kind, fwd, it.Next())
  }

  ghost predicate AllOk(fwd: bool, stack: seq<Iter>) {
    forall i :: 0 <= i < |stack| ==> stack[i].Ok() && (stack[i].Children? ==> stack[i].forward == fwd)
  }

  ghost function Remaining(kind: Kind, fwd: bool, stack: seq<Iter>): seq<Visit>
    requires AllOk(fwd, stack)
  {
    if stack == [] then []
    else Left(kind, fwd, stack[|stack| - 1]) + Remaining(kind, fwd, stack[..|stack| - 1])
  }

  /** Below the top, traversals in post-order wait at nodes whose children are being
    visited. */
  ghost predicate Waits(kind: Kind, it: Iter)
    requires it.Ok()
  {
    it.IsValid() && it.Current().value.kids != []
  }

  /** Between two steps: the top is at the next node to report, unless all is done. */
  ghost predicate Settled(kind: Kind, fwd: bool, stack: seq<Iter>) {
    && AllOk(fwd, stack)
    && (!PreLike(kind) ==> forall i :: 0 <= i < |stack| - 1 ==> Waits(kind, stack[i]))
    && (stack != [] ==>
          var top := stack[|stack| - 1];
          && (!top.IsValid() ==> |stack| == 1)
          && (top.IsValid() && kind.LeafKind? ==> top.Current().value.kids == []))
  }

  /** The iterator's answer for its top element. */
  function VisitTypeOf(order: Order, it: Iter): VisitType {
    match order
    case PreOrder => PreVisit
    case ReversePreOrder => PreVisit
    case PostOrder => PostVisit
    case ReversePostOrder => PostVisit
    case PreAndPostOrder => if it.Single? then it.when else PreVisit
  }

  function Forward(order: Order): bool {
    !order.ReversePreOrder? && !order.ReversePostOrder?
  }

  ghost function KindOf(order: Order, leavesOnly: bool): Kind {
    match order
    case PreOrder => if leavesOnly then LeafKind(PreVisit) else PreKind
    case ReversePreOrder => if leavesOnly then LeafKind(PreVisit) else PreKind
    case PostOrder => if leavesOnly then LeafKind(PostVisit) else PostKind
    case ReversePostOrder => if leavesOnly then LeafKind(PostVisit) else PostKind
    case PreAndPostOrder => if leavesOnly then LeafKind(PostVisit) else BothKind
  }

  /** A valid top iterator reports its current node next. */
  lemma LeftStarts(order: Order, leavesOnly: bool, it: Iter)
    requires !(leavesOnly && order == PreAndPostOrder) && it.Ok() && it.IsValid()
    requires it.Children? ==> it.forward == Forward(order)
    requires leavesOnly ==> it.Current().value.kids == []
    ensures var vs := Left(KindOf(order, leavesOnly), Forward(order), it);
            vs != [] && vs[0] == Visit(it.Current().value, VisitTypeOf(order, it))
  {
    FromCurrent(KindOf(order, leavesOnly), Forward(order), it);
  }

  /** A settled stack reports the first of the remaining visits, or nothing is left. */
  lemma ReportsNext(order: Order, leavesOnly: bool, stack: seq<Iter>)
    requires !(leavesOnly && order == PreAndPostOrder)
    requires Settled(KindOf(order, leavesOnly), Forward(order), stack)
    ensures var vs := Remaining(KindOf(order, leavesOnly), Forward(order), stack);
            if stack != [] && stack[|stack| - 1].IsValid()
            then vs != [] && vs[0] == Visit(stack[|stack| - 1].Current().value, VisitTypeOf(order, stack[|stack| - 1]))
            else vs == []
  {
    if stack != [] {
      var top := stack[|stack| - 1];
      if top.IsValid() {
        LeftStarts(order, leavesOnly, top);
      } else {
        assert stack[..0] == [];
      }
    }
  }

  lemma RemainingPush(kind: Kind, fwd: bool, stack: seq<Iter>, it: Iter)
    requires AllOk(fwd, stack) && it.Ok() && (it.Children? ==> it.forward == fwd)
    ensures AllOk(fwd, stack + [it])
    ensures Remaining(kind, fwd, stack + [it]) == Left(kind, fwd, it) + Remaining(kind, fwd, stack)
  {
    assert (stack + [it])[..|stack|] == stack;
  }

  function ChildIter(x: Tree, fwd: bool): Option<Iter> {
    if x.kids != [] then Some(FirstChild(x, fwd)) else None
  }

  ghost function FromOpt(kind: Kind, fwd: bool, o: Option<Iter>): seq<Visit>
    requires o.Some? ==> o.value.Ok()
  {
    if o.Some? then From(kind, fwd, o.value) else []
  }

  // ----- The iterator

  /** All frames from position n on lead down to a leaf. */
  ghost predicate Descended(fwd: bool, stack: seq<Iter>, n: nat)
    requires n <= |stack| && AllOk(fwd, stack)
  {
    && (forall i :: n <= i < |stack| - 1 ==> stack[i].IsValid() && stack[i].Current().value.kids != [])
    && (n < |stack| ==> stack[|stack| - 1].IsValid() && stack[|stack| - 1].Current().value.kids == [])
  }

  lemma Regroup(a: seq<Visit>, b: seq<Visit>, c: seq<Visit>, d: seq<Visit>)
    ensures ((a + b) + c) + d == a + ((b + c) + d)
  {
  }

  lemma PostWalk(kind: Kind, t: Tree, fwd: bool)
    requires !PreLike(kind)
    ensures Walk(kind, t, fwd) == WalkAll(kind, t.kids, fwd) + Tail(kind, t)
  {
  }

  lemma FromChildren(kind: Kind, fwd: bool, x: Tree)
    ensures FromOpt(kind, fwd, ChildIter(x, fwd)) == WalkAll(kind, x.kids, fwd)
  {
    if x.kids != [] { FromFirst(kind, fwd, x); }
  }

  lemma PostLeft(kind: Kind, fwd: bool, it: Iter)
    requires !PreLike(kind) && it.Ok() && it.IsValid()
    ensures Left(kind, fwd, it) == Tail(kind, it.Current().value) + From(kind, fwd, it.Next())
  {
  }

  /** One level of the descent: the current node waits for its children. */
  lemma DescendStep(kind: Kind, fwd: bool, stack: seq<Iter>, it: Iter)
    requires !PreLike(kind) && AllOk(fwd, stack) && it.Ok() && it.IsValid() && (it.Children? ==> it.forward == fwd)
    ensures AllOk(fwd, stack + [it])
    ensures From(kind, fwd, it) + Remaining(kind, fwd, stack) ==
            FromOpt(kind, fwd, ChildIter(it.Current().value, fwd)) + Remaining(kind, fwd, stack + [it])
  {
    var x, rest := it.Current().value, Remaining(kind, fwd, stack);
    var a, b, c := WalkAll(kind, x.kids, fwd), Tail(kind, x), From(kind, fwd, it.Next());
    calc {
      From(kind, fwd, it) + rest;
      { FromCurrent(kind, fwd, it); }
      (Walk(kind, x, fwd) + c) + rest;
      { PostWalk(kind, x, fwd); }
      ((a + b) + c) + rest;
      { Regroup(a, b, c, rest); }
      a + ((b + c) + rest);
      { PostLeft(kind, fwd, it); }
      a + (Left(kind, fwd, it) + rest);
      { RemainingPush(kind, fwd, stack, it); }
      a + Remaining(kind, fwd, stack + [it]);
      { FromChildren(kind, fwd, x); }
      FromOpt(kind, fwd, ChildIter(x, fwd)) + Remaining(kind, fwd, stack + [it]);
    }
  }

  ghost predicate Pushable(fwd: bool, o: Option<Iter>) {
    o.Some? ==>
      var it := o.value;
      it.Ok() && it.IsValid() && (it.Children? ==> it.forward == fwd)
  }

  ghost function Weight(o: Option<Iter>): nat
    requires o.Some? ==> o.value.Ok() && o.value.IsValid()
  {
    if o.Some? then Size(o.value.Current().value) else 0
  }

  lemma ChildIsLighter(x: Tree, fwd: bool)
    ensures Pushable(fwd, ChildIter(x, fwd)) && Weight(ChildIter(x, fwd)) < Size(x)
  {
    if x.kids != [] { KidIsSmaller(x.kids, FirstChild(x, fwd).at); }
  }

  /** The iterators on the way down from an iterator to its first leaf. */
  ghost function Way(fwd: bool, o: Option<Iter>): seq<Iter>
    requires Pushable(fwd, o)
    decreases Weight(o)
  {
    if o.None? then []
    else
      ChildIsLighter(o.value.Current().value, fwd);
      [o.value] + Way(fwd, ChildIter(o.value.Current().value, fwd))
  }

  lemma WayStep(fwd: bool, stack: seq<Iter>, it: Iter)
    requires Pushable(fwd, Some(it))
    ensures Pushable(fwd, ChildIter(it.Current().value, fwd)) && Weight(ChildIter(it.Current().value, fwd)) < Weight(Some(it))
    ensures stack + Way(fwd, Some(it)) == (stack + [it]) + Way(fwd, ChildIter(it.Current().value, fwd))
  {
    ChildIsLighter(it.Current().value, fwd);
  }

  lemma {:induction false} WayRemains(kind: Kind, fwd: bool, stack: seq<Iter>, o: Option<Iter>)
    requires !PreLike(kind) && AllOk(fwd, stack) && Pushable(fwd, o)
    ensures AllOk(fwd, stack + Way(fwd, o))
    ensures Remaining(kind, fwd, stack + Way(fwd, o)) == FromOpt(kind, fwd, o) + Remaining(kind, fwd, stack)
    decreases Weight(o)
  {
    if o.None? {
      assert stack + Way(fwd, o) == stack;
      assert FromOpt(kind, fwd, o) + Remaining(kind, fwd, stack) == Remaining(kind, fwd, stack);
    } else {
      var it := o.value;
      var child := ChildIter(it.Current().value, fwd);
      WayStep(fwd, stack, it);
      DescendStep(kind, fwd, stack, it);
      WayRemains(kind, fwd, stack + [it], child);
      calc {
        Remaining(kind, fwd, stack + Way(fwd, o));
        Remaining(kind, fwd, (stack + [it]) + Way(fwd, child));
        FromOpt(kind, fwd, child) + Remaining(kind, fwd, stack + [it]);
        From(kind, fwd, it) + Remaining(kind, fwd, stack);
      }
    }
  }

  lemma {:induction false} WayDescends(fwd: bool, stack: seq<Iter>, o: Option<Iter>)
    requires AllOk(fwd, stack) && Pushable(fwd, o)
    ensures AllOk(fwd, stack + Way(fwd, o)) && Descended(fwd, stack + Way(fwd, o), |stack|)
    decreases Weight(o)
  {
    if o.Some? {
      var it := o.value;
      var child := ChildIter(it.Current().value, fwd);
      ChildIsLighter(it.Current().value, fwd);
      WayDescends(fwd, stack + [it], child);
      assert stack + Way(fwd, o) == (stack + [it]) + Way(fwd, child);
    }
  }

  // ----- One step in pre-order

  /** What is pushed when a traversal in pre-order leaves node x of iterator `top`. */
  ghost function Entered(kind: Kind, fwd: bool, top: Iter, x: Tree): seq<Iter> {
    if kind.BothKind? && top.Single? && top.when == PostVisit then []
    else
      (if kind.BothKind? then [Single(x, false, PostVisit)] else [])
      + (if x.kids != [] then [FirstChild(x, fwd)] else [])
  }

  lemma RemainingOpt(kind: Kind, fwd: bool, stack: seq<Iter>, x: Tree)
    requires PreLike(kind) && AllOk(fwd, stack)
    ensures var s := stack + (if x.kids != [] then [FirstChild(x, fwd)] else []);
            AllOk(fwd, s) && Remaining(kind, fwd, s) == WalkAll(kind, x.kids, fwd) + Remaining(kind, fwd, stack)
  {
    if x.kids != [] {
      FromFirst(kind, fwd, x);
      RemainingPush(kind, fwd, stack, FirstChild(x, fwd));
    } else {
      assert stack + [] == stack;
      assert WalkAll(kind, x.kids, fwd) + Remaining(kind, fwd, stack) == Remaining(kind, fwd, stack);
    }
  }

  lemma LeftOfNext(kind: Kind, fwd: bool, it: Iter)
    requires PreLike(kind) && it.Ok() && (it.Children? || !kind.BothKind? || it.when == PreVisit)
    ensures Left(kind, fwd, it.Next()) == From(kind, fwd, it.Next())
  {
  }

  lemma LeftIsFrom(kind: Kind, fwd: bool, it: Iter)
    requires PreLike(kind) && it.Ok() && (it.Children? || !kind.BothKind? || it.when == PreVisit)
    ensures Left(kind, fwd, it) == From(kind, fwd, it)
  {
  }

  lemma PreWalk(t: Tree, fwd: bool)
    ensures Walk(PreKind, t, fwd) == [Visit(t, PreVisit)] + WalkAll(PreKind, t.kids, fwd)
  {
  }

  lemma BothWalk(t: Tree, fwd: bool)
    ensures Walk(BothKind, t, fwd) == [Visit(t, PreVisit)] + WalkAll(BothKind, t.kids, fwd) + [Visit(t, PostVisit)]
  {
  }

  /** The visits of a stack whose top is about to enter its current node. */
  lemma TopEnters(kind: Kind, fwd: bool, base: seq<Iter>, top: Iter)
    requires PreLike(kind) && AllOk(fwd, base) && top.Ok() && top.IsValid() && (top.Children? ==> top.forward == fwd)
    requires top.Children? || !kind.BothKind? || top.when == PreVisit
    ensures AllOk(fwd, base + [top]) && AllOk(fwd, base + [top.Next()])
    ensures Remaining(kind, fwd, base + [top]) ==
            Walk(kind, top.Current().value, fwd) + Remaining(kind, fwd, base + [top.Next()])
  {
    var w, c, rest := Walk(kind, top.Current().value, fwd), From(kind, fwd, top.Next()), Remaining(kind, fwd, base);
    RemainingPush(kind, fwd, base, top);
    RemainingPush(kind, fwd, base, top.Next());
    LeftIsFrom(kind, fwd, top);
    LeftOfNext(kind, fwd, top);
    FromCurrent(kind, fwd, top);
    Assoc(w, c, rest);
  }

  lemma EnterPre(fwd: bool, base: seq<Iter>, top: Iter)
    requires AllOk(fwd, base) && top.Ok() && top.IsValid() && (top.Children? ==> top.forward == fwd)
    ensures var x := top.Current().value;
            var s := base + [top.Next()] + Entered(PreKind, fwd, top, x);
            AllOk(fwd, s) && Remaining(PreKind, fwd, base + [top]) == [Visit(x, PreVisit)] + Remaining(PreKind, fwd, s)
  {
    var x, mid := top.Current().value, base + [top.Next()];
    var a, b := [Visit(x, PreVisit)], WalkAll(PreKind, x.kids, fwd);
    assert Entered(PreKind, fwd, top, x) == if x.kids != [] then [FirstChild(x, fwd)] else [];
    TopEnters(PreKind, fwd, base, top);
    calc {
      Remaining(PreKind, fwd, base + [top]);
      { PreWalk(x, fwd); }
      (a + b) + Remaining(PreKind, fwd, mid);
      { Assoc(a, b, Remaining(PreKind, fwd, mid)); }
      a + (b + Remaining(PreKind, fwd, mid));
      { RemainingOpt(PreKind, fwd, mid, x); }
      a + Remaining(PreKind, fwd, mid + Entered(PreKind, fwd, top, x));
    }
  }

  lemma EnterBoth(fwd: bool, base: seq<Iter>, top: Iter)
    requires AllOk(fwd, base) && top.Ok() && top.IsValid() && (top.Children? ==> top.forward == fwd)
    requires top.Children? || top.when == PreVisit
    ensures var x := top.Current().value;
            var s := base + [top.Next()] + Entered(BothKind, fwd, top, x);
            AllOk(fwd, s) && Remaining(BothKind, fwd, base + [top]) == [Visit(x, PreVisit)] + Remaining(BothKind, fwd, s)
  {
    var x, mid, post := top.Current().value, base + [top.Next()], Single(top.Current().value, false, PostVisit);
    var a, b, t := [Visit(x, PreVisit)], WalkAll(BothKind, x.kids, fwd), [Visit(x, PostVisit)];
    TopEnters(BothKind, fwd, base, top);
    RemainingPush(BothKind, fwd, mid, post);
    assert mid + Entered(BothKind, fwd, top, x) ==
           (mid + [post]) + if x.kids != [] then [FirstChild(x, fwd)] else [];
    calc {
      Remaining(BothKind, fwd, base + [top]);
      { BothWalk(x, fwd); }
      ((a + b) + t) + Remaining(BothKind, fwd, mid);
      { Assoc(a + b, t, Remaining(BothKind, fwd, mid)); }
      (a + b) + (t + Remaining(BothKind, fwd, mid));
      (a + b) + Remaining(BothKind, fwd, mid + [post]);
      { Assoc(a, b, Remaining(BothKind, fwd, mid + [post])); }
      a + (b + Remaining(BothKind, fwd, mid + [post]));
      { RemainingOpt(BothKind, fwd, mid + [post], x); }
      a + Remaining(BothKind, fwd, mid + Entered(BothKind, fwd, top, x));
    }
  }

  lemma LeaveBoth(fwd: bool, base: seq<Iter>, top: Iter)
    requires AllOk(fwd, base) && top.Ok() && top.IsValid() && top.Single? && top.when == PostVisit
    ensures var s := base + [top.Next()];
            && AllOk(fwd, s)
            && Remaining(BothKind, fwd, base + [top]) == [Visit(top.node, PostVisit)] + Remaining(BothKind, fwd, s)
  {
    RemainingPush(BothKind, fwd, base, top);
    RemainingPush(BothKind, fwd, base, top.Next());
    assert [] + Remaining(BothKind, fwd, base) == Remaining(BothKind, fwd, base);
  }

  /** Leaving the current node reports it and leaves exactly the rest. */
  lemma StepPreLike(kind: Kind, fwd: bool, base: seq<Iter>, top: Iter)
    requires PreLike(kind) && AllOk(fwd, base) && top.Ok() && top.IsValid() && (top.Children? ==> top.forward == fwd)
    ensures var s := base + [top.Next()] + Entered(kind, fwd, top, top.Current().value);
            && AllOk(fwd, s) && Remaining(kind, fwd, base + [top]) != []
            && Remaining(kind, fwd, s) == Remaining(kind, fwd, base + [top])[1..]
  {
    if kind == PreKind {
      EnterPre(fwd, base, top);
    } else if top.Children? || top.when == PreVisit {
      EnterBoth(fwd, base, top);
    } else {
      LeaveBoth(fwd, base, top);
      assert base + [top.Next()] + [] == base + [top.Next()];
    }
  }

  // ----- One step in post-order

  /** Dropping an exhausted iterator drops no visit. */
  lemma DropInvalid(kind: Kind, fwd: bool, stack: seq<Iter>)
    requires AllOk(fwd, stack) && stack != [] && !stack[|stack| - 1].IsValid()
    ensures Remaining(kind, fwd, stack) == Remaining(kind, fwd, stack[..|stack| - 1])
  {
    assert [] + Remaining(kind, fwd, stack[..|stack| - 1]) == Remaining(kind, fwd, stack[..|stack| - 1]);
  }

  lemma ReplaceLast(s: seq<Iter>, x: Iter)
    requires s != []
    ensures s == s[..|s| - 1] + [s[|s| - 1]]
    ensures s[|s| - 1 := x] == s[..|s| - 1] + [x] && s[|s| - 1 := x][..|s| - 1] == s[..|s| - 1]
  {
  }

  /** What is left once the current node of the top has been reported. */
  ghost function Beyond(kind: Kind, fwd: bool, stack: seq<Iter>): seq<Visit>
    requires AllOk(fwd, stack) && stack != []
  {
    From(kind, fwd, stack[|stack| - 1].Next()) + Remaining(kind, fwd, stack[..|stack| - 1])
  }

  lemma BeyondTop(kind: Kind, fwd: bool, stack: seq<Iter>)
    requires !PreLike(kind) && AllOk(fwd, stack) && stack != [] && stack[|stack| - 1].IsValid()
    ensures Remaining(kind, fwd, stack) == Tail(kind, stack[|stack| - 1].Current().value) + Beyond(kind, fwd, stack)
  {
    var top, rest := stack[|stack| - 1], Remaining(kind, fwd, stack[..|stack| - 1]);
    PostLeft(kind, fwd, top);
    Assoc(Tail(kind, top.Current().value), From(kind, fwd, top.Next()), rest);
  }

  /** After a descent below the top, the stack is settled. */
  lemma DownSettles(kind: Kind, fwd: bool, before: seq<Iter>, stack: seq<Iter>)
    requires !PreLike(kind) && AllOk(fwd, before) && AllOk(fwd, stack) && before != [] && before[|before| - 1].IsValid()
    requires forall i :: 0 <= i < |before| - 1 ==> Waits(kind, before[i])
    requires |stack| >= |before| && stack[..|before|] == before && Descended(fwd, stack, |before|)
    requires |stack| > |before| <==> before[|before| - 1].Current().value.kids != []
    ensures Settled(kind, fwd, stack)
  {
    forall i | 0 <= i < |before|
      ensures stack[i] == before[i]
    {
      assert stack[i] == stack[..|before|][i];
    }
  }

  /** In the middle of a step in post-order: everything below the top waits. */
  ghost predicate Midway(kind: Kind, fwd: bool, stack: seq<Iter>) {
    && AllOk(fwd, stack) && stack != []
    && (forall i :: 0 <= i < |stack| - 1 ==> Waits(kind, stack[i]))
    && (stack[|stack| - 1].IsValid() || |stack| == 1)
  }

  ghost function Goal(kind: Kind, fwd: bool, stack: seq<Iter>): seq<Visit>
    requires Midway(kind, fwd, stack)
  {
    if stack[|stack| - 1].IsValid() then Beyond(kind, fwd, stack) else []
  }

  lemma GoalAtStart(order: Order, leavesOnly: bool, stack: seq<Iter>)
    requires !(leavesOnly && order == PreAndPostOrder) && !PreLike(KindOf(order, leavesOnly)) && stack != []
    requires Settled(KindOf(order, leavesOnly), Forward(order), stack)
    ensures var kind, fwd := KindOf(order, leavesOnly), Forward(order);
            && Midway(kind, fwd, stack)
            && Goal(kind, fwd, stack) ==
               var vs := Remaining(kind, fwd, stack);
               if vs == [] then [] else vs[1..]
  {
    ReportsNext(order, leavesOnly, stack);
    if stack[|stack| - 1].IsValid() { BeyondTop(KindOf(order, leavesOnly), Forward(order), stack); }
  }

  /** Advancing the top: what lies beyond it is what its new position starts with. */
  lemma GoalAhead(kind: Kind, fwd: bool, base: seq<Iter>, top: Iter)
    requires !PreLike(kind) && AllOk(fwd, base) && top.Ok() && (top.Children? ==> top.forward == fwd)
    requires top.IsValid() || base == []
    ensures AllOk(fwd, base + [top]) && AllOk(fwd, base + [top.Next()])
    ensures var goal := if top.IsValid() then Beyond(kind, fwd, base + [top]) else [];
            && goal == From(kind, fwd, top.Next()) + Remaining(kind, fwd, base)
            && (!top.Next().IsValid() ==> Remaining(kind, fwd, base + [top.Next()]) == goal)
  {
    assert (base + [top])[..|base|] == base;
    RemainingPush(kind, fwd, base, top.Next());
    assert !top.Next().IsValid() ==> Left(kind, fwd, top.Next()) == From(kind, fwd, top.Next()) == [];
  }

  /** A round has ended: back at a parent that is passed by when enumerating leaves, or
    at the next node to report. */
  ghost predicate Reached(kind: Kind, fwd: bool, leavesOnly: bool, goal: seq<Visit>, size: nat, stack: seq<Iter>, more: bool) {
    if more then leavesOnly && |stack| < size && Midway(kind, fwd, stack) && Goal(kind, fwd, stack) == goal
    else Settled(kind, fwd, stack) && Remaining(kind, fwd, stack) == goal
  }

  lemma MovedOn(kind: Kind, fwd: bool, stack: seq<Iter>)
    requires !PreLike(kind) && Midway(kind, fwd, stack)
    ensures var n := |stack| - 1;
            var s := stack[n := stack[n].Next()];
            && AllOk(fwd, s) && (forall i :: 0 <= i < n ==> Waits(kind, s[i]))
            && (if s[n].IsValid()
                then Midway(kind, fwd, s) && Goal(kind, fwd, stack) == From(kind, fwd, s[n]) + Remaining(kind, fwd, s[..n])
                else Remaining(kind, fwd, s) == Goal(kind, fwd, stack))
  {
    var n := |stack| - 1;
    MovedOk(kind, fwd, stack);
    ReplaceLast(stack, stack[n].Next());
    MovedGoal(kind, fwd, stack[..n], stack[n]);
  }

  lemma MovedOk(kind: Kind, fwd: bool, stack: seq<Iter>)
    requires Midway(kind, fwd, stack)
    ensures var n := |stack| - 1;
            var s := stack[n := stack[n].Next()];
            AllOk(fwd, s) && (forall i :: 0 <= i < n ==> Waits(kind, s[i])) && (s[n].IsValid() ==> Midway(kind, fwd, s))
  {
  }

  lemma MovedGoal(kind: Kind, fwd: bool, base: seq<Iter>, top: Iter)
    requires !PreLike(kind) && Midway(kind, fwd, base + [top])
    ensures AllOk(fwd, base) && AllOk(fwd, base + [top.Next()])
    ensures if top.Next().IsValid()
            then Goal(kind, fwd, base + [top]) == From(kind, fwd, top.Next()) + Remaining(kind, fwd, base)
            else Remaining(kind, fwd, base + [top.Next()]) == Goal(kind, fwd, base + [top])
  {
    var stack := base + [top];
    assert AllOk(fwd, base) by { assert forall i :: 0 <= i < |base| ==> base[i] == stack[i]; }
    assert stack[|base|] == top;
    GoalAhead(kind, fwd, base, top);
  }

  /** An exhausted last iterator stays exhausted. */
  lemma StaysExhausted(kind: Kind, fwd: bool, base: seq<Iter>, top: Iter)
    requires base == [] && top.Ok() && !top.IsValid() && (top.Children? ==> top.forward == fwd)
    ensures AllOk(fwd, base + [top]) && AllOk(fwd, base + [top.Next()])
    ensures Remaining(kind, fwd, base + [top]) == Remaining(kind, fwd, base + [top.Next()]) == []
  {
    RemainingPush(kind, fwd, base, top.Next());
    RemainingPush(kind, fwd, base, top);
  }

  /** What a fresh iterator enumerates. Without the root, a traversal that visits
    nodes twice still reports the root's second visit. */
  ghost function Expected(root: Tree, order: Order, how: Enum): seq<Visit> {
    var kind, fwd := KindOf(order, how == LeavesOnly), Forward(order);
    if how != AllNonRoots then Walk(kind, root, fwd)
    else WalkAll(kind, root.kids, fwd) + if order == PreAndPostOrder then [Visit(root, PostVisit)] else []
  }

  lemma StartPre(kind: Kind, fwd: bool, root: Tree, when: VisitType)
    requires PreLike(kind) && (kind.BothKind? ==> when == PreVisit)
    ensures var s := [Single(root, false, when)];
            Settled(kind, fwd, s) && Remaining(kind, fwd, s) == Walk(kind, root, fwd)
  {
    var s := [Single(root, false, when)];
    assert s[..0] == [];
    assert Walk(kind, root, fwd) + [] == Walk(kind, root, fwd);
  }

  lemma StartKids(kind: Kind, fwd: bool, root: Tree)
    requires PreLike(kind)
    ensures var s := (if kind.BothKind? then [Single(root, false, PostVisit)] else [])
                     + (if root.kids != [] then [FirstChild(root, fwd)] else []);
            && Settled(kind, fwd, s)
            && Remaining(kind, fwd, s) ==
               WalkAll(kind, root.kids, fwd) + if kind.BothKind? then [Visit(root, PostVisit)] else []
  {
    var base := if kind.BothKind? then [Single(root, false, PostVisit)] else [];
    RemainingOpt(kind, fwd, base, root);
    if kind.BothKind? {
      assert base[..0] == [];
      assert Remaining(kind, fwd, base) == [Visit(root, PostVisit)];
    }
  }

  lemma StartPost(kind: Kind, fwd: bool, stack: seq<Iter>)
    requires !PreLike(kind) && AllOk(fwd, stack) && Descended(fwd, stack, 0)
    ensures Settled(kind, fwd, stack)
  {
  }

  // ----- The pieces of a step, on stacks

  /** The order used internally: reversal is left to the child iterators, and
    enumerating leaves is a post-order traversal that skips inner nodes. */
  function InternalOf(order: Order, leavesOnly: bool): Order {
    if leavesOnly then PostOrder
    else if order == ReversePreOrder then PreOrder
    else if order == ReversePostOrder then PostOrder
    else order
  }

  lemma InternalKind(order: Order, leavesOnly: bool)
    requires !(leavesOnly && order == PreAndPostOrder)
    ensures InternalOf(order, leavesOnly) == PostOrder <==> !PreLike(KindOf(order, leavesOnly))
    ensures leavesOnly <==> KindOf(order, leavesOnly).LeafKind?
    ensures order == PreAndPostOrder <==> KindOf(order, leavesOnly).BothKind?
  {
  }

  ghost predicate Follows(fwd: bool, o: Option<Iter>) {
    o.Some? ==> o.value.Ok() && (o.value.Children? ==> o.value.forward == fwd)
  }

  /** Pushing an iterator, unless it is empty; in post-order also everything on the way
    down to its first leaf. */
  ghost function Pushed(order: Order, leavesOnly: bool, stack: seq<Iter>, o: Option<Iter>): seq<Iter>
    requires Follows(Forward(order), o)
  {
    if o.None? || !o.value.IsValid() then stack
    else if InternalOf(order, leavesOnly) == PostOrder then stack + Way(Forward(order), o)
    else stack + [o.value]
  }

  /** The top of the stack is a second visit. */
  predicate SecondVisit(stack: seq<Iter>) {
    stack != [] && stack[|stack| - 1].Single? && stack[|stack| - 1].when == PostVisit
  }

  /** The second visit of x that a traversal visiting nodes twice pushes. */
  ghost function Second(order: Order, stack: seq<Iter>, x: Tree): seq<Iter> {
    if order == PreAndPostOrder && !SecondVisit(stack) then [Single(x, false, PostVisit)] else []
  }

  /** The iterator for the children of x, unless this is the second visit. */
  ghost function BelowOf(order: Order, stack: seq<Iter>, x: Tree): (o: Option<Iter>)
    ensures Follows(Forward(order), o)
  {
    if order == PreAndPostOrder && SecondVisit(stack) then None else ChildIter(x, Forward(order))
  }

  /** Exhausted iterators are dropped, except the last one on the stack. */
  ghost function Dropped(fwd: bool, stack: seq<Iter>): seq<Iter>
    requires AllOk(fwd, stack)
  {
    if |stack| <= 1 || stack[|stack| - 1].IsValid() then stack else Dropped(fwd, stack[..|stack| - 1])
  }

  /** The top iterator is advanced. */
  function Advanced(stack: seq<Iter>): seq<Iter>
    requires stack != [] && stack[|stack| - 1].Ok()
  {
    stack[|stack| - 1 := stack[|stack| - 1].Next()]
  }

  lemma {:induction false} DroppedShape(fwd: bool, stack: seq<Iter>)
    requires AllOk(fwd, stack) && stack != []
    ensures var d := Dropped(fwd, stack);
            AllOk(fwd, d) && d != [] && (d[|d| - 1].IsValid() || |d| == 1)
  {
    if |stack| > 1 && !stack[|stack| - 1].IsValid() {
      DroppedShape(fwd, stack[..|stack| - 1]);
    }
  }

  lemma {:induction false} DroppedRight(kind: Kind, fwd: bool, stack: seq<Iter>)
    requires AllOk(fwd, stack) && stack != []
    ensures AllOk(fwd, Dropped(fwd, stack)) && Remaining(kind, fwd, Dropped(fwd, stack)) == Remaining(kind, fwd, stack)
  {
    if |stack| > 1 && !stack[|stack| - 1].IsValid() {
      DropInvalid(kind, fwd, stack);
      DroppedRight(kind, fwd, stack[..|stack| - 1]);
    }
  }

  /** Pushing in post-order leaves what the iterator has on top of the rest. */
  lemma PushedPost(order: Order, leavesOnly: bool, kind: Kind, stack: seq<Iter>, o: Option<Iter>)
    requires InternalOf(order, leavesOnly) == PostOrder && !PreLike(kind)
    requires AllOk(Forward(order), stack) && Follows(Forward(order), o)
    ensures var fwd, s := Forward(order), Pushed(order, leavesOnly, stack, o);
            && AllOk(fwd, s) && |s| >= |stack| && s[..|stack|] == stack
            && Remaining(kind, fwd, s) == FromOpt(kind, fwd, o) + Remaining(kind, fwd, stack)
            && Descended(fwd, s, |stack|)
            && (|s| > |stack| <==> o.Some? && o.value.IsValid())
  {
    var fwd := Forward(order);
    if o.Some? && o.value.IsValid() {
      WayRemains(kind, fwd, stack, o);
      WayDescends(fwd, stack, o);
      WaySize(fwd, o);
    } else {
      assert [] + Remaining(kind, fwd, stack) == Remaining(kind, fwd, stack);
    }
  }

  lemma WaySize(fwd: bool, o: Option<Iter>)
    requires Pushable(fwd, o) && o.Some?
    ensures |Way(fwd, o)| > 0
  {
  }

  // ----- The beginning

  lemma StartBelowRight(order: Order, root: Tree)
    ensures var kind, fwd := KindOf(order, false), Forward(order);
            var s := Pushed(order, false, [] + Second(order, [], root), BelowOf(order, [], root));
            Settled(kind, fwd, s) && Remaining(kind, fwd, s) == Expected(root, order, AllNonRoots)
  {
    var kind, fwd := KindOf(order, false), Forward(order);
    InternalKind(order, false);
    if PreLike(kind) {
      StartKids(kind, fwd, root);
      assert [] + Second(order, [], root) == Second(order, [], root);
      BelowPushed(order, root);
    } else {
      assert [] + Second(order, [], root) == [];
      PushedPost(order, false, kind, [], ChildIter(root, fwd));
      StartPost(kind, fwd, Pushed(order, false, [], ChildIter(root, fwd)));
      FromChildren(kind, fwd, root);
      assert WalkAll(kind, root.kids, fwd) + [] == WalkAll(kind, root.kids, fwd);
    }
  }

  lemma BelowPushed(order: Order, root: Tree)
    requires PreLike(KindOf(order, false))
    ensures var kind, fwd := KindOf(order, false), Forward(order);
            Pushed(order, false, Second(order, [], root), BelowOf(order, [], root)) ==
            (if kind.BothKind? then [Single(root, false, PostVisit)] else [])
            + (if root.kids != [] then [FirstChild(root, fwd)] else [])
  {
    InternalKind(order, false);
    var base := if KindOf(order, false).BothKind? then [Single(root, false, PostVisit)] else [];
    assert Second(order, [], root) == base;
    assert base + [] == base;
  }

  function FirstOf(root: Tree, order: Order): Iter {
    Single(root, false, if order == PostOrder then PostVisit else PreVisit)
  }

  lemma StartAtRight(order: Order, leavesOnly: bool, root: Tree)
    requires !(leavesOnly && order == PreAndPostOrder)
    ensures var kind, fwd := KindOf(order, leavesOnly), Forward(order);
            var s := Pushed(order, leavesOnly, [], Some(FirstOf(root, order)));
            Settled(kind, fwd, s) && Remaining(kind, fwd, s) == Walk(kind, root, fwd)
  {
    var kind, fwd, first := KindOf(order, leavesOnly), Forward(order), FirstOf(root, order);
    InternalKind(order, leavesOnly);
    if PreLike(kind) {
      assert [] + [first] == [first];
      StartPre(kind, fwd, root, PreVisit);
    } else {
      PushedPost(order, leavesOnly, kind, [], Some(first));
      StartPost(kind, fwd, Pushed(order, leavesOnly, [], Some(first)));
      assert From(kind, fwd, first) + [] == Walk(kind, root, fwd);
    }
  }

  // ----- A step in pre-order

  /** The top moves past its current node, and what belongs to the node is pushed. */
  ghost function Leaving(order: Order, stack: seq<Iter>): seq<Iter>
    requires AllOk(Forward(order), stack) && stack != []
  {
    var s, current := Advanced(stack), stack[|stack| - 1].Current();
    if current.None? then s
    else Pushed(order, false, s + Second(order, s, current.value), BelowOf(order, s, current.value))
  }

  lemma EnteredIs(order: Order, base: seq<Iter>, top: Iter, x: Tree)
    requires PreLike(KindOf(order, false)) && top.Ok()
    ensures var s := base + [top.Next()];
            Pushed(order, false, s + Second(order, s, x), BelowOf(order, s, x)) ==
            s + Entered(KindOf(order, false), Forward(order), top, x)
  {
    var s := base + [top.Next()];
    InternalKind(order, false);
    assert SecondVisit(s) <==> top.Single? && top.when == PostVisit;
    assert s + [] == s;
    var kids := if x.kids != [] then [FirstChild(x, Forward(order))] else [];
    assert (s + [Single(x, false, PostVisit)]) + kids == s + ([Single(x, false, PostVisit)] + kids);
    assert [] + kids == kids;
  }

  lemma LeavingRight(order: Order, base: seq<Iter>, top: Iter)
    requires PreLike(KindOf(order, false)) && Settled(KindOf(order, false), Forward(order), base + [top])
    ensures var kind, fwd, s := KindOf(order, false), Forward(order), Leaving(order, base + [top]);
            && s != [] && AllOk(fwd, s)
            && Remaining(kind, fwd, s) ==
               var vs := Remaining(kind, fwd, base + [top]);
               if vs == [] then [] else vs[1..]
  {
    var kind, fwd, stack := KindOf(order, false), Forward(order), base + [top];
    assert stack[|base|] == top && forall i :: 0 <= i < |base| ==> base[i] == stack[i];
    assert Advanced(stack) == base + [top.Next()];
    if top.IsValid() {
      StepPreLike(kind, fwd, base, top);
      EnteredIs(order, base, top, top.Current().value);
    } else {
      StaysExhausted(kind, fwd, base, top);
    }
  }

  lemma DroppedSettled(kind: Kind, fwd: bool, s: seq<Iter>)
    requires PreLike(kind) && AllOk(fwd, s) && s != []
    ensures Settled(kind, fwd, Dropped(fwd, s)) && Remaining(kind, fwd, Dropped(fwd, s)) == Remaining(kind, fwd, s)
  {
    DroppedShape(fwd, s);
    DroppedRight(kind, fwd, s);
  }

  lemma StepPreRight(order: Order, stack: seq<Iter>)
    requires PreLike(KindOf(order, false)) && stack != [] && Settled(KindOf(order, false), Forward(order), stack)
    ensures var kind, fwd, s := KindOf(order, false), Forward(order), Leaving(order, stack);
            && AllOk(fwd, s) && Settled(kind, fwd, Dropped(fwd, s))
            && Remaining(kind, fwd, Dropped(fwd, s)) ==
               var vs := Remaining(kind, fwd, stack);
               if vs == [] then [] else vs[1..]
  {
    var n := |stack| - 1;
    ReplaceLast(stack, stack[n]);
    LeavingRight(order, stack[..n], stack[n]);
    DroppedSettled(KindOf(order, false), Forward(order), Leaving(order, stack));
  }

  // ----- A step in post-order

  /** One round: advance the top and descend below its new node, or go back up. Then
    another round follows when leaves are enumerated. */
  ghost function Round(order: Order, leavesOnly: bool, stack: seq<Iter>): (seq<Iter>, bool)
    requires AllOk(Forward(order), stack) && stack != []
  {
    var s := Advanced(stack);
    AdvancedOk(Forward(order), stack);
    if s[|s| - 1].IsValid()
    then (Pushed(order, leavesOnly, s, ChildIter(s[|s| - 1].Current().value, Forward(order))), false)
    else
      var d := Dropped(Forward(order), s);
      (d, leavesOnly && |d| < |s|)
  }

  lemma AdvancedOk(fwd: bool, stack: seq<Iter>)
    requires AllOk(fwd, stack) && stack != []
    ensures AllOk(fwd, Advanced(stack))
  {
  }

  lemma DropsOne(kind: Kind, fwd: bool, base: seq<Iter>, top: Iter)
    requires AllOk(fwd, base) && base != [] && base[|base| - 1].IsValid()
    requires top.Ok() && !top.IsValid() && AllOk(fwd, base + [top])
    ensures Dropped(fwd, base + [top]) == base
  {
    assert (base + [top])[..|base|] == base;
  }

  /** Back at a parent: when leaves are enumerated, the parent itself is passed by. */
  lemma BackAtParent(kind: Kind, fwd: bool, leavesOnly: bool, d: seq<Iter>, size: nat)
    requires !PreLike(kind) && AllOk(fwd, d) && d != [] && |d| < size
    requires (forall i :: 0 <= i < |d| ==> Waits(kind, d[i])) && (leavesOnly <==> kind.LeafKind?)
    ensures Reached(kind, fwd, leavesOnly, Remaining(kind, fwd, d), size, d, leavesOnly)
  {
    if leavesOnly {
      BeyondTop(kind, fwd, d);
      assert [] + Beyond(kind, fwd, d) == Beyond(kind, fwd, d);
    }
  }

  /** The top is exhausted: back to the parent, if there is one. */
  lemma GoUpRight(kind: Kind, fwd: bool, leavesOnly: bool, s: seq<Iter>)
    requires !PreLike(kind) && AllOk(fwd, s) && s != [] && !s[|s| - 1].IsValid()
    requires (forall i :: 0 <= i < |s| - 1 ==> Waits(kind, s[i])) && (leavesOnly <==> kind.LeafKind?)
    ensures var d := Dropped(fwd, s);
            Reached(kind, fwd, leavesOnly, Remaining(kind, fwd, s), |s|, d, leavesOnly && |d| < |s|)
  {
    if |s| > 1 {
      var d := s[..|s| - 1];
      assert forall i :: 0 <= i < |d| ==> d[i] == s[i];
      ReplaceLast(s, s[|s| - 1]);
      assert Waits(kind, d[|d| - 1]);
      DropsOne(kind, fwd, d, s[|s| - 1]);
      DropInvalid(kind, fwd, s);
      BackAtParent(kind, fwd, leavesOnly, d, |s|);
    }
  }

  /** The top has a next sibling: descend below it. */
  lemma GoDownRight(order: Order, leavesOnly: bool, s: seq<Iter>)
    requires !PreLike(KindOf(order, leavesOnly)) && InternalOf(order, leavesOnly) == PostOrder
    requires Midway(KindOf(order, leavesOnly), Forward(order), s) && s[|s| - 1].IsValid()
    ensures var kind, fwd, n := KindOf(order, leavesOnly), Forward(order), |s| - 1;
            && AllOk(fwd, s[..n])
            && Reached(kind, fwd, leavesOnly, From(kind, fwd, s[n]) + Remaining(kind, fwd, s[..n]), |s|,
                       Pushed(order, leavesOnly, s, ChildIter(s[n].Current().value, fwd)), false)
  {
    var kind, fwd, n := KindOf(order, leavesOnly), Forward(order), |s| - 1;
    var base, top := s[..n], s[n];
    var o := ChildIter(top.Current().value, fwd);
    ReplaceLast(s, top);
    DescendStep(kind, fwd, base, top);
    PushedPost(order, leavesOnly, kind, s, o);
    DownSettles(kind, fwd, s, Pushed(order, leavesOnly, s, o));
  }

  lemma RoundRight(order: Order, leavesOnly: bool, stack: seq<Iter>)
    requires !(leavesOnly && order == PreAndPostOrder) && !PreLike(KindOf(order, leavesOnly))
    requires Midway(KindOf(order, leavesOnly), Forward(order), stack)
    ensures var kind, fwd, r := KindOf(order, leavesOnly), Forward(order), Round(order, leavesOnly, stack);
            Reached(kind, fwd, leavesOnly, Goal(kind, fwd, stack), |stack|, r.0, r.1)
  {
    AdvancedOk(Forward(order), stack);
    var s := Advanced(stack);
    if s[|s| - 1].IsValid() { RoundDown(order, leavesOnly, stack); } else { RoundUp(order, leavesOnly, stack); }
  }

  lemma RoundDown(order: Order, leavesOnly: bool, stack: seq<Iter>)
    requires !(leavesOnly && order == PreAndPostOrder) && !PreLike(KindOf(order, leavesOnly))
    requires Midway(KindOf(order, leavesOnly), Forward(order), stack) && stack[|stack| - 1].Next().IsValid()
    ensures var kind, fwd, r := KindOf(order, leavesOnly), Forward(order), Round(order, leavesOnly, stack);
            Reached(kind, fwd, leavesOnly, Goal(kind, fwd, stack), |stack|, r.0, r.1)
  {
    InternalKind(order, leavesOnly);
    MovedOn(KindOf(order, leavesOnly), Forward(order), stack);
    GoDownRight(order, leavesOnly, Advanced(stack));
  }

  lemma RoundUp(order: Order, leavesOnly: bool, stack: seq<Iter>)
    requires !(leavesOnly && order == PreAndPostOrder) && !PreLike(KindOf(order, leavesOnly))
    requires Midway(KindOf(order, leavesOnly), Forward(order), stack) && !stack[|stack| - 1].Next().IsValid()
    ensures var kind, fwd, r := KindOf(order, leavesOnly), Forward(order), Round(order, leavesOnly, stack);
            Reached(kind, fwd, leavesOnly, Goal(kind, fwd, stack), |stack|, r.0, r.1)
  {
    InternalKind(order, leavesOnly);
    MovedOn(KindOf(order, leavesOnly), Forward(order), stack);
    GoUpRight(KindOf(order, leavesOnly), Forward(order), leavesOnly, Advanced(stack));
  }

  lemma FirstMoves(a: seq<Visit>, b: seq<Visit>)
    requires b != []
    ensures (a + [b[0]]) + b[1..] == a + b
  {
  }

  /** Leaving out the root really leaves it out exactly when nodes are visited once. */
  lemma NonRootsOmitRoot(root: Tree, order: Order)
    ensures Expected(root, order, AllNonRoots) == WalkAll(KindOf(order, false), root.kids, Forward(order)) <==>
            order != PreAndPostOrder
  {
    var a := WalkAll(KindOf(order, false), root.kids, Forward(order));
    assert |Expected(root, order, AllNonRoots)| == |a| + if order == PreAndPostOrder then 1 else 0;
  }
}

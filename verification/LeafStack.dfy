/** Enumerating leaves in pre-and-post-order: the stack is descended as in post-order, but
  every node on the way is pushed a second time, and the leaves are reported from there. */
module LeafStacks {
  import opened Common
  import opened TreeWalks
  import opened IteratorStacks

  const LEAF := LeafKind(PostVisit)

  /** What one iterator still has to report: a second visit its node, any other what lies
    behind its current node. */
  ghost function Held(fwd: bool, it: Iter): seq<Visit>
    requires it.Ok()
  {
    if !it.IsValid() then []
    else if it.Single? && it.when == PostVisit then Tail(LEAF, it.node)
    else From(LEAF, fwd, it.Next())
  }

  ghost function AllHeld(fwd: bool, stack: seq<Iter>): seq<Visit>
    requires AllOk(fwd, stack)
  {
    if stack == [] then []
    else Held(fwd, stack[|stack| - 1]) + AllHeld(fwd, stack[..|stack| - 1])
  }

  lemma HeldPush(fwd: bool, stack: seq<Iter>, it: Iter)
    requires AllOk(fwd, stack) && it.Ok() && (it.Children? ==> it.forward == fwd)
    ensures AllOk(fwd, stack + [it])
    ensures AllHeld(fwd, stack + [it]) == Held(fwd, it) + AllHeld(fwd, stack)
  {
    assert (stack + [it])[..|stack|] == stack;
  }

  /** Waiting below the top: a second visit there is that of an inner node. */
  ghost predicate Inner(it: Iter)
    requires it.Ok()
  {
    it.IsValid() && (it.Single? && it.when == PostVisit ==> it.node.kids != [])
  }

  ghost predicate Below(fwd: bool, stack: seq<Iter>) {
    && AllOk(fwd, stack) && stack != []
    && (forall i :: 0 <= i < |stack| - 1 ==> Inner(stack[i]))
    && (stack[|stack| - 1].IsValid() || |stack| == 1)
  }

  /** Between two steps: at the second visit of a leaf, unless all is done. */
  ghost predicate AtLeaf(fwd: bool, stack: seq<Iter>) {
    && Below(fwd, stack)
    && var top := stack[|stack| - 1];
    top.IsValid() ==> top.Single? && top.when == PostVisit && top.node.kids == []
  }

  // ----- Going down

  /** Everything that is pushed for node x, down to its first leaf. */
  ghost function Down(fwd: bool, x: Tree): seq<Iter>
    decreases x
  {
    [Single(x, false, PostVisit)]
    + if x.kids == [] then [] else [FirstChild(x, fwd)] + Down(fwd, FirstChild(x, fwd).Current().value)
  }

  lemma DownStep(fwd: bool, stack: seq<Iter>, x: Tree)
    requires x.kids != []
    ensures var c := FirstChild(x, fwd);
            stack + Down(fwd, x) == ((stack + [Single(x, false, PostVisit)]) + [c]) + Down(fwd, c.Current().value)
  {
  }

  lemma FirstWalks(fwd: bool, x: Tree)
    requires x.kids != []
    ensures var c := FirstChild(x, fwd);
            Walk(LEAF, x, fwd) == Walk(LEAF, c.Current().value, fwd) + From(LEAF, fwd, c.Next())
  {
    FromFirst(LEAF, fwd, x);
    FromCurrent(LEAF, fwd, FirstChild(x, fwd));
    PostWalk(LEAF, x, fwd);
    assert Tail(LEAF, x) == [] && WalkAll(LEAF, x.kids, fwd) + [] == WalkAll(LEAF, x.kids, fwd);
  }

  lemma {:induction false} DownHolds(fwd: bool, stack: seq<Iter>, x: Tree)
    requires AllOk(fwd, stack)
    ensures AllOk(fwd, stack + Down(fwd, x))
    ensures AllHeld(fwd, stack + Down(fwd, x)) == Walk(LEAF, x, fwd) + AllHeld(fwd, stack)
    decreases x
  {
    var second, rest := Single(x, false, PostVisit), AllHeld(fwd, stack);
    HeldPush(fwd, stack, second);
    PostWalk(LEAF, x, fwd);
    if x.kids == [] {
      assert Down(fwd, x) == [second];
      assert WalkAll(LEAF, x.kids, fwd) + Tail(LEAF, x) == Tail(LEAF, x);
    } else {
      var c := FirstChild(x, fwd);
      var y := c.Current().value;
      HeldPush(fwd, stack + [second], c);
      DownHolds(fwd, (stack + [second]) + [c], y);
      DownStep(fwd, stack, x);
      FirstWalks(fwd, x);
      assert Held(fwd, second) + rest == rest;
      Assoc(Walk(LEAF, y, fwd), From(LEAF, fwd, c.Next()), rest);
    }
  }

  lemma {:induction false} DownAtLeaf(fwd: bool, stack: seq<Iter>, x: Tree)
    requires AllOk(fwd, stack) && forall i :: 0 <= i < |stack| ==> Inner(stack[i])
    ensures AtLeaf(fwd, stack + Down(fwd, x))
    decreases x
  {
    if x.kids == [] {
      assert Down(fwd, x) == [Single(x, false, PostVisit)];
    } else {
      var c := FirstChild(x, fwd);
      DownStep(fwd, stack, x);
      DownAtLeaf(fwd, (stack + [Single(x, false, PostVisit)]) + [c], c.Current().value);
    }
  }

  lemma StartRight(fwd: bool, root: Tree)
    ensures var s := [Single(root, false, PreVisit)] + Down(fwd, root);
            AtLeaf(fwd, s) && AllHeld(fwd, s) == Walk(LEAF, root, fwd)
  {
    var first := [Single(root, false, PreVisit)];
    DownHolds(fwd, first, root);
    DownAtLeaf(fwd, first, root);
    assert first[..0] == [];
    assert AllHeld(fwd, first) == [] + [];
    assert Walk(LEAF, root, fwd) + [] == Walk(LEAF, root, fwd);
  }

  // ----- A step

  /** One round: advance the top, and go down below its new node or back up. */
  ghost function LeafRound(fwd: bool, stack: seq<Iter>): (seq<Iter>, bool)
    requires AllOk(fwd, stack) && stack != []
  {
    var s := Advanced(stack);
    AdvancedOk(fwd, stack);
    if s[|s| - 1].IsValid() then (s + Down(fwd, s[|s| - 1].Current().value), false)
    else
      var d := Dropped(fwd, s);
      (d, |d| < |s|)
  }

  ghost function LeafGoal(fwd: bool, stack: seq<Iter>): seq<Visit>
    requires Below(fwd, stack)
  {
    if !stack[|stack| - 1].IsValid() then []
    else From(LEAF, fwd, stack[|stack| - 1].Next()) + AllHeld(fwd, stack[..|stack| - 1])
  }

  /** At a leaf, what comes after it is the rest. */
  lemma GoalAtLeaf(fwd: bool, stack: seq<Iter>)
    requires AtLeaf(fwd, stack)
    ensures LeafGoal(fwd, stack) == if AllHeld(fwd, stack) == [] then [] else AllHeld(fwd, stack)[1..]
  {
    var top, rest := stack[|stack| - 1], AllHeld(fwd, stack[..|stack| - 1]);
    if top.IsValid() {
      assert AllHeld(fwd, stack) == [Visit(top.node, PostVisit)] + rest;
      assert From(LEAF, fwd, top.Next()) == [] && [] + rest == rest;
    } else {
      assert stack[..0] == [];
    }
  }

  lemma ReportsLeaf(fwd: bool, stack: seq<Iter>)
    requires AtLeaf(fwd, stack)
    ensures var top, vs := stack[|stack| - 1], AllHeld(fwd, stack);
            if top.IsValid() then vs != [] && vs[0] == Visit(top.node, PostVisit) && top.when == PostVisit else vs == []
  {
    if !stack[|stack| - 1].IsValid() { assert stack[..0] == []; }
  }

  ghost predicate LeafReached(fwd: bool, goal: seq<Visit>, size: nat, stack: seq<Iter>, more: bool) {
    if more then |stack| < size && Below(fwd, stack) && LeafGoal(fwd, stack) == goal
    else AtLeaf(fwd, stack) && AllHeld(fwd, stack) == goal
  }

  /** Back at an iterator that waited: it has nothing to report for its current node. */
  lemma BackAtWaiting(fwd: bool, d: seq<Iter>)
    requires AllOk(fwd, d) && d != [] && forall i :: 0 <= i < |d| ==> Inner(d[i])
    ensures Below(fwd, d) && LeafGoal(fwd, d) == AllHeld(fwd, d)
  {
    var top := d[|d| - 1];
    assert Inner(top);
    assert Held(fwd, top) == From(LEAF, fwd, top.Next());
  }

  lemma UpRight(fwd: bool, base: seq<Iter>, top: Iter)
    requires AllOk(fwd, base) && (forall i :: 0 <= i < |base| ==> Inner(base[i]))
    requires top.Ok() && !top.IsValid() && (top.Children? ==> top.forward == fwd)
    ensures AllOk(fwd, base + [top])
    ensures var s := base + [top];
            var d := Dropped(fwd, s);
            LeafReached(fwd, AllHeld(fwd, base), |s|, d, |d| < |s|)
  {
    var s := base + [top];
    assert s[|base|] == top && s[..|base|] == base;
    if base == [] {
      AllDone(fwd, top);
      assert s == [top];
    } else {
      assert Inner(base[|base| - 1]);
      DropsOne(LEAF, fwd, base, top);
      BackAtWaiting(fwd, base);
    }
  }

  lemma AllDone(fwd: bool, top: Iter)
    requires top.Ok() && !top.IsValid() && (top.Children? ==> top.forward == fwd)
    ensures AtLeaf(fwd, [top]) && AllHeld(fwd, [top]) == [] && Dropped(fwd, [top]) == [top]
  {
    assert [top][..0] == [];
  }

  lemma DownRight(fwd: bool, base: seq<Iter>, top: Iter)
    requires AllOk(fwd, base) && (forall i :: 0 <= i < |base| ==> Inner(base[i]))
    requires top.Ok() && top.IsValid() && top.Children? && top.forward == fwd
    ensures AllOk(fwd, base + [top])
    ensures LeafReached(fwd, From(LEAF, fwd, top) + AllHeld(fwd, base), |base| + 1,
                        (base + [top]) + Down(fwd, top.Current().value), false)
  {
    var s, x := base + [top], top.Current().value;
    HeldPush(fwd, base, top);
    assert forall i :: 0 <= i < |s| ==> Inner(s[i]);
    DownHolds(fwd, s, x);
    DownAtLeaf(fwd, s, x);
    FromCurrent(LEAF, fwd, top);
    Assoc(Walk(LEAF, x, fwd), From(LEAF, fwd, top.Next()), AllHeld(fwd, base));
  }

  lemma LeafRoundRight(fwd: bool, stack: seq<Iter>)
    requires Below(fwd, stack)
    ensures var r := LeafRound(fwd, stack);
            LeafReached(fwd, LeafGoal(fwd, stack), |stack|, r.0, r.1)
  {
    var n := |stack| - 1;
    var base, top := stack[..n], stack[n].Next();
    ReplaceLast(stack, top);
    assert Advanced(stack) == base + [top];
    assert forall i :: 0 <= i < n ==> base[i] == stack[i];
    if top.IsValid() {
      DownRight(fwd, base, top);
    } else {
      UpRight(fwd, base, top);
      ExhaustedGoal(fwd, stack);
    }
  }

  lemma ExhaustedGoal(fwd: bool, stack: seq<Iter>)
    requires Below(fwd, stack) && !stack[|stack| - 1].Next().IsValid()
    ensures LeafGoal(fwd, stack) == AllHeld(fwd, stack[..|stack| - 1])
  {
    var rest := AllHeld(fwd, stack[..|stack| - 1]);
    assert From(LEAF, fwd, stack[|stack| - 1].Next()) == [] && [] + rest == rest;
  }
}

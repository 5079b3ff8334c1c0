/** `IteratorStack` and `NonUniformDegreeTreeIterator`: tree traversal over linked nodes
  with a stack of iterators instead of recursion. */
module TreeIterators {
  import opened Common
  import opened TreeWalks
  import opened IteratorStacks
  import opened LeafStacks
  import Rings = SiblingRings

  // ----- Trees of linked nodes

  ghost function KidNodes(nodes: seq<Rings.Node>, ts: seq<Tree>): (kids: seq<Rings.Node>)
    requires forall i :: 0 <= i < |ts| ==> ts[i].id < |nodes|
    ensures |kids| == |ts| && forall i :: 0 <= i < |ts| ==> kids[i] == nodes[ts[i].id]
  {
    seq(|ts|, i requires 0 <= i < |ts| => nodes[ts[i].id])
  }

  /** The tree is laid out in memory: `nodes` gives each tree node its object, and its
    children are linked into a ring. */
  ghost predicate Shows(nodes: seq<Rings.Node>, t: Tree)
    reads nodes
    decreases t
  {
    && t.id < |nodes|
    && (forall i :: 0 <= i < |t.kids| ==> Shows(nodes, t.kids[i]))
    && ShowsKids(nodes, t)
  }

  ghost predicate ShowsKids(nodes: seq<Rings.Node>, t: Tree)
    reads nodes
  {
    && t.id < |nodes| && (forall i :: 0 <= i < |t.kids| ==> t.kids[i].id < |nodes|)
    && Rings.IsRing(nodes[t.id], KidNodes(nodes, t.kids))
  }

  // ----- Iterators over nodes

  /** `SingletonIterator` and `NonUniformDegreeTreeNodeChildIterator`. */
  datatype NodeIter =
    | Once(node: Rings.Node, done: bool, when: VisitType)
    | Kids(parent: Rings.Node, child: Rings.Node?, forward: bool)
  {
    function Current(): Rings.Node? {
      match this
      case Once(node, done, _) => if done then null else node
      case Kids(_, child, _) => child
    }
  }

  /** The iterator points to the node at the position of `it`. */
  ghost predicate Agrees(nodes: seq<Rings.Node>, h: NodeIter, it: Iter)
    reads nodes
  {
    match it
    case Single(node, done, when) => Shows(nodes, node) && h == Once(nodes[node.id], done, when)
    case Children(parent, at, forward) =>
      && Shows(nodes, parent) && -1 <= at < |parent.kids|
      && (at >= 0 ==> Shows(nodes, parent.kids[at]))
      && h == Kids(nodes[parent.id], if at < 0 then null else nodes[parent.kids[at].id], forward)
  }

  ghost predicate OptAgrees(nodes: seq<Rings.Node>, h: Option<NodeIter>, o: Option<Iter>)
    reads nodes
  {
    if h.None? then o.None? else o.Some? && Agrees(nodes, h.value, o.value)
  }

  ghost predicate Tracks(nodes: seq<Rings.Node>, stack: seq<NodeIter>, model: seq<Iter>)
    reads nodes
  {
    |stack| == |model| && forall i :: 0 <= i < |stack| ==> Agrees(nodes, stack[i], model[i])
  }

  lemma CurrentAgrees(nodes: seq<Rings.Node>, h: NodeIter, it: Iter)
    requires Agrees(nodes, h, it)
    ensures it.Ok() && (h.Current() != null <==> it.IsValid())
    ensures it.IsValid() ==> Shows(nodes, it.Current().value) && h.Current() == nodes[it.Current().value.id]
  {
  }

  /** The first child in the direction of the traversal. */
  method FirstKid(p: Rings.Node, forward: bool, ghost nodes: seq<Rings.Node>, ghost t: Tree) returns (c: Rings.Node?)
    requires ShowsKids(nodes, t) && p == nodes[t.id]
    ensures c == if t.kids == [] then null else nodes[t.kids[if forward then 0 else |t.kids| - 1].id]
  {
    ghost var kids := KidNodes(nodes, t.kids);
    if t.kids != [] { assert Rings.Linked(p, kids, 0); }
    c := if forward then p.children else if p.children != null then p.children.prev else null;
  }

  /** Step to the next sibling, unless it is the one the iterator started from. */
  method NextKid(p: Rings.Node, child: Rings.Node, forward: bool, ghost nodes: seq<Rings.Node>, ghost t: Tree, ghost at: nat)
    returns (c: Rings.Node?)
    requires ShowsKids(nodes, t) && p == nodes[t.id] && at < |t.kids| && child == nodes[t.kids[at].id]
    ensures var next := Children(t, at, forward).Next().at;
            c == if next < 0 then null else nodes[t.kids[next].id]
  {
    ghost var kids := KidNodes(nodes, t.kids);
    assert Rings.Linked(p, kids, at);
    c := if forward then child.next else child.prev;
    var pastEnd := FirstKid(p, forward, nodes, t);
    if c == pastEnd {
      c := null;
    }
  }

  /** The increment of either kind of iterator. */
  method NextOf(h: NodeIter, ghost nodes: seq<Rings.Node>, ghost it: Iter) returns (h': NodeIter)
    requires Agrees(nodes, h, it)
    ensures it.Ok() && Agrees(nodes, h', it.Next())
  {
    if h.Once? {
      return h.(done := true);
    }
    if h.child == null {
      return h;
    }
    var c := NextKid(h.parent, h.child, h.forward, nodes, it.parent, it.at);
    return h.(child := c);
  }

  /** The iterator for the children of a node. */
  method ChildIterOf(n: Rings.Node, forward: bool, ghost nodes: seq<Rings.Node>, ghost x: Tree) returns (o: Option<NodeIter>)
    requires Shows(nodes, x) && n == nodes[x.id]
    ensures OptAgrees(nodes, o, ChildIter(x, forward))
  {
    if n.count > 0 {
      var c := FirstKid(n, forward, nodes, x);
      return Some(Kids(n, c, forward));
    }
    return None;
  }

  function NodeVisitType(order: Order, h: NodeIter): VisitType {
    match order
    case PreOrder => PreVisit
    case ReversePreOrder => PreVisit
    case PostOrder => PostVisit
    case ReversePostOrder => PostVisit
    case PreAndPostOrder => if h.Once? then h.when else PreVisit
  }

  // ----- The iterator

  /** A visit as the iterator reports it. */
  datatype NodeVisit = NodeVisit(node: Rings.Node, when: VisitType)

  ghost predicate IsVisit(nodes: seq<Rings.Node>, got: NodeVisit, v: Visit) {
    v.node.id < |nodes| && got == NodeVisit(nodes[v.node.id], v.when)
  }

  /** The next visit, if any is left. */
  ghost predicate Heads(nodes: seq<Rings.Node>, got: Option<NodeVisit>, vs: seq<Visit>) {
    if got.None? then vs == [] else vs != [] && IsVisit(nodes, got.value, vs[0])
  }

  class TreeIterator {
    const order: Order
    const leavesOnly: bool
    var stack: seq<NodeIter>
    ghost const nodes: seq<Rings.Node>
    /** The positions of the iterators in the tree. */
    ghost var model: seq<Iter>

    constructor (root: Rings.Node, order: Order, how: Enum, ghost nodes: seq<Rings.Node>, ghost t: Tree)
      requires Shows(nodes, t) && root == nodes[t.id]
      ensures this.order == order && leavesOnly == (how == LeavesOnly) && this.nodes == nodes
      ensures Valid() && Visits() == Expected(t, order, how)
    {
      this.order, leavesOnly, stack := order, how == LeavesOnly, [];
      this.nodes, model := nodes, [];
      new;
      if how == AllNonRoots {
        StartBelow(root, t);
      } else {
        StartAt(root, t);
      }
    }

    /** Start with the root's children. */
    method StartBelow(root: Rings.Node, ghost t: Tree)
      requires model == [] && Tracked() && !leavesOnly && Shows(nodes, t) && root == nodes[t.id]
      modifies this`stack, this`model
      ensures Valid() && Visits() == Expected(t, order, AllNonRoots)
    {
      var top := IteratorToPushIfAny(root, t);
      Push(top, BelowOf(order, [], t));
      StartBelowRight(order, t);
    }

    method StartAtLeaf(root: Rings.Node, ghost t: Tree)
      requires Doubled() && model == [] && Tracked() && Shows(nodes, t) && root == nodes[t.id]
      modifies this`stack, this`model
      ensures Valid() && Visits() == Walk(Kind(), t, Forward(order))
    {
      StartRight(Forward(order), t);
      PushOne(Once(root, false, PreVisit), Single(t, false, PreVisit));
      assert model == [Single(t, false, PreVisit)];
      PushTwice(root, t);
    }

    /** Start with the root itself. */
    method StartAt(root: Rings.Node, ghost t: Tree)
      requires model == [] && Tracked() && Shows(nodes, t) && root == nodes[t.id]
      modifies this`stack, this`model
      ensures Valid() && Visits() == Walk(Kind(), t, Forward(order))
    {
      if Doubled() {
        StartAtLeaf(root, t);
      } else {
        Push(Some(Once(root, false, if order == PostOrder then PostVisit else PreVisit)), Some(FirstOf(t, order)));
        StartAtRight(order, leavesOnly, t);
      }
    }

    ghost function Kind(): Kind {
      KindOf(order, leavesOnly)
    }

    ghost predicate Tracked()
      reads this, nodes
    {
      Tracks(nodes, stack, model)
    }

    ghost predicate Valid()
      reads this, nodes
    {
      Tracked() && if Doubled() then AtLeaf(Forward(order), model) else Settled(Kind(), Forward(order), model)
    }

    /** Leaves in pre-and-post-order. */
    predicate Doubled() {
      leavesOnly && order == PreAndPostOrder
    }

    /** All visits still to come. */
    ghost function Visits(): seq<Visit>
      requires AllOk(Forward(order), model)
      reads this
    {
      if Doubled() then AllHeld(Forward(order), model) else Remaining(Kind(), Forward(order), model)
    }

    method PushOne(h: NodeIter, ghost it: Iter)
      requires Tracked() && Agrees(nodes, h, it)
      modifies this`stack, this`model
      ensures Tracked() && model == old(model) + [it]
    {
      stack, model := stack + [h], model + [it];
    }

    /** The loop of `Push` in post-order: descend to the first leaf below. */
    method Descend(newtop: Option<NodeIter>, ghost o: Option<Iter>)
      requires Tracked() && Pushable(Forward(order), o) && OptAgrees(nodes, newtop, o)
      modifies this`stack, this`model
      ensures Tracked() && model == old(model) + Way(Forward(order), o)
    {
      var top := newtop;
      ghost var fwd, t := Forward(order), o;
      while top.Some?
        invariant Tracked() && Pushable(fwd, t) && OptAgrees(nodes, top, t)
        invariant model + Way(fwd, t) == old(model) + Way(fwd, o)
        decreases t.Some?, Weight(t)
      {
        ghost var x := t.value.Current().value;
        CurrentAgrees(nodes, top.value, t.value);
        WayStep(fwd, model, t.value);
        PushOne(top.value, t.value);
        top := ChildIterOf(top.value.Current(), Forward(order), nodes, x);
        t := ChildIter(x, fwd);
      }
    }

    /** The loop of `Push` when leaves are enumerated in pre-and-post-order: each node is
      pushed as a second visit before its children are. */
    method PushTwice(n: Rings.Node, ghost x: Tree)
      requires Tracked() && Shows(nodes, x) && n == nodes[x.id]
      modifies this`stack, this`model
      ensures Tracked() && model == old(model) + Down(Forward(order), x)
    {
      var current := n;
      ghost var fwd, y := Forward(order), x;
      while true
        invariant Tracked() && Shows(nodes, y) && current == nodes[y.id]
        invariant model + Down(fwd, y) == old(model) + Down(fwd, x)
        decreases y
      {
        if y.kids != [] { DownStep(fwd, model, y); }
        var child := PushPair(current, y);
        if child == null {
          return;
        }
        current, y := child, FirstChild(y, fwd).Current().value;
      }
    }

    /** Push the second visit of a node and the iterator for its children. */
    method PushPair(n: Rings.Node, ghost x: Tree) returns (child: Rings.Node?)
      requires Tracked() && Shows(nodes, x) && n == nodes[x.id]
      modifies this`stack, this`model
      ensures Tracked() && (child == null <==> x.kids == [])
      ensures x.kids == [] ==> model == old(model) + [Single(x, false, PostVisit)]
      ensures x.kids != [] ==>
                var c := FirstChild(x, Forward(order));
                && model == (old(model) + [Single(x, false, PostVisit)]) + [c]
                && Shows(nodes, c.Current().value) && child == nodes[c.Current().value.id]
    {
      PushOne(Once(n, false, PostVisit), Single(x, false, PostVisit));
      var o := ChildIterOf(n, Forward(order), nodes, x);
      if o.None? {
        return null;
      }
      CurrentAgrees(nodes, o.value, FirstChild(x, Forward(order)));
      PushOne(o.value, FirstChild(x, Forward(order)));
      child := o.value.Current();
    }

    /** Push an iterator, unless it is empty; in post-order also everything on the
      way down to its first leaf. */
    method Push(newtop: Option<NodeIter>, ghost o: Option<Iter>)
      requires Tracked() && Follows(Forward(order), o) && OptAgrees(nodes, newtop, o)
      modifies this`stack, this`model
      ensures Tracked() && model == Pushed(order, leavesOnly, old(model), o)
    {
      if newtop.Some? { CurrentAgrees(nodes, newtop.value, o.value); }
      if newtop.None? || newtop.value.Current() == null {
        return;
      }
      if InternalOf(order, leavesOnly) == PostOrder {
        Descend(newtop, o);
      } else {
        PushOne(newtop.value, o.value);
      }
    }

    /** The iterator for a node's children; a traversal that visits nodes twice first
      pushes the second visit, unless this is that second visit. */
    method IteratorToPushIfAny(n: Rings.Node, ghost x: Tree) returns (h: Option<NodeIter>)
      requires !(leavesOnly && order == PreAndPostOrder)
      requires Tracked() && Shows(nodes, x) && n == nodes[x.id]
      modifies this`stack, this`model
      ensures Tracked() && model == old(model) + Second(order, old(model), x)
      ensures OptAgrees(nodes, h, BelowOf(order, old(model), x))
    {
      if order == PreAndPostOrder {
        if stack != [] { assert Agrees(nodes, stack[|stack| - 1], model[|stack| - 1]); }
        if stack == [] || !stack[|stack| - 1].Once? {
          Push(Some(Once(n, false, PostVisit)), Some(Single(x, false, PostVisit)));
        } else {
          if stack[|stack| - 1].when == PreVisit {
            Push(Some(Once(n, false, PostVisit)), Some(Single(x, false, PostVisit)));
          } else {
            return None;
          }
        }
      }
      h := ChildIterOf(n, Forward(order), nodes, x);
    }

    /** Free exhausted iterators, except the last one on the stack. */
    method PopInvalid() returns (popped: bool)
      requires Tracked() && AllOk(Forward(order), model) && model != []
      modifies this`stack, this`model
      ensures Tracked() && model == Dropped(Forward(order), old(model)) && (popped <==> |model| < |old(model)|)
    {
      popped := false;
      ghost var fwd := Forward(order);
      var exhausted := TopExhausted();
      while exhausted && |stack| > 1
        invariant Tracked() && model != [] && AllOk(fwd, model) && Dropped(fwd, model) == Dropped(fwd, old(model))
        invariant exhausted <==> !model[|model| - 1].IsValid()
        invariant |model| <= |old(model)| && (popped <==> |model| < |old(model)|)
        decreases |model|
      {
        Pop();
        popped := true;
        exhausted := TopExhausted();
      }
    }

    method TopExhausted() returns (exhausted: bool)
      requires Tracked() && model != []
      ensures model[|model| - 1].Ok() && (exhausted <==> !model[|model| - 1].IsValid())
    {
      CurrentAgrees(nodes, stack[|stack| - 1], model[|stack| - 1]);
      exhausted := stack[|stack| - 1].Current() == null;
    }

    method Pop()
      requires Tracked() && model != []
      modifies this`stack, this`model
      ensures Tracked() && model == old(model)[..|old(model)| - 1]
    {
      stack, model := stack[..|stack| - 1], model[..|model| - 1];
    }

    /** Advance the iterator on top. */
    method AdvanceTop()
      requires Tracked() && AllOk(Forward(order), model) && stack != []
      modifies this`stack, this`model
      ensures Tracked() && model == Advanced(old(model))
    {
      var n := |stack| - 1;
      assert Agrees(nodes, stack[n], model[n]);
      var h := NextOf(stack[n], nodes, model[n]);
      stack, model := stack[n := h], Advanced(model);
    }

    /** `operator++` for pre-order and for pre-and-post-order. */
    method StepPre()
      requires Valid() && !Doubled() && InternalOf(order, leavesOnly) != PostOrder && stack != []
      modifies this`stack, this`model
      ensures Valid() && Visits() == if old(Visits()) == [] then [] else old(Visits())[1..]
    {
      StepPreRight(order, model);
      LeaveTop();
      var popped := PopInvalid();
    }

    /** Move the top past its current node, and push what belongs to that node. */
    method LeaveTop()
      requires Tracked() && !leavesOnly && AllOk(Forward(order), model) && stack != []
      modifies this`stack, this`model
      ensures Tracked() && model == Leaving(order, old(model))
    {
      var n := |stack| - 1;
      var current := stack[n].Current();
      ghost var at := model[n];
      CurrentAgrees(nodes, stack[n], at);
      AdvanceTop();
      if current != null {
        ghost var x, before := at.Current().value, model;
        var it := IteratorToPushIfAny(current, x);
        Push(it, BelowOf(order, before, x));
      }
    }

    /** One round of the loop in `operator++`. */
    method MoveOn() returns (more: bool)
      requires InternalOf(order, leavesOnly) == PostOrder && order != PreAndPostOrder
      requires Tracked() && AllOk(Forward(order), model) && stack != []
      modifies this`stack, this`model
      ensures Tracked() && (model, more) == Round(order, leavesOnly, old(model))
    {
      AdvancedOk(Forward(order), model);
      AdvanceTop();
      var top := stack[|stack| - 1];
      ghost var at := model[|stack| - 1];
      CurrentAgrees(nodes, top, at);
      if top.Current() == null {
        var popped := PopInvalid();
        return leavesOnly && popped;
      }
      ghost var x, before := at.Current().value, model;
      var it := IteratorToPushIfAny(top.Current(), x);
      assert model == before;
      Push(it, BelowOf(order, before, x));
      return false;
    }

    /** `operator++` for post-order: step to the next sibling and descend, or go back
      to the parent. Enumerating leaves, it goes on when it is back at a parent. */
    method StepPost()
      requires Valid() && !Doubled() && InternalOf(order, leavesOnly) == PostOrder && stack != []
      modifies this`stack, this`model
      ensures Valid() && Visits() == if old(Visits()) == [] then [] else old(Visits())[1..]
    {
      ghost var kind, fwd := Kind(), Forward(order);
      InternalKind(order, leavesOnly);
      GoalAtStart(order, leavesOnly, model);
      ghost var goal := Goal(kind, fwd, model);
      var more := true;
      while more
        invariant Tracked()
        invariant if more then Midway(kind, fwd, model) && Goal(kind, fwd, model) == goal
                  else Settled(kind, fwd, model) && Remaining(kind, fwd, model) == goal
        decreases more, |model|
      {
        RoundRight(order, leavesOnly, model);
        more := MoveOn();
      }
    }

    /** One round of the loop in `operator++` with every node pushed twice. */
    method MoveToLeaf() returns (more: bool)
      requires Doubled() && Tracked() && AllOk(Forward(order), model) && stack != []
      modifies this`stack, this`model
      ensures Tracked() && (model, more) == LeafRound(Forward(order), old(model))
    {
      AdvancedOk(Forward(order), model);
      AdvanceTop();
      var top := stack[|stack| - 1];
      ghost var at := model[|stack| - 1];
      CurrentAgrees(nodes, top, at);
      if top.Current() == null {
        more := PopInvalid();
      } else {
        PushTwice(top.Current(), at.Current().value);
        more := false;
      }
    }

    method StepLeaf()
      requires Valid() && Doubled()
      modifies this`stack, this`model
      ensures Valid() && Visits() == if old(Visits()) == [] then [] else old(Visits())[1..]
    {
      ghost var fwd := Forward(order);
      GoalAtLeaf(fwd, model);
      ghost var goal := LeafGoal(fwd, model);
      var more := true;
      while more
        invariant Tracked()
        invariant if more then Below(fwd, model) && LeafGoal(fwd, model) == goal
                  else AtLeaf(fwd, model) && AllHeld(fwd, model) == goal
        decreases more, |model|
      {
        LeafRoundRight(fwd, model);
        more := MoveToLeaf();
      }
    }

    /** `operator++`. */
    method Advance()
      requires Valid()
      modifies this`stack, this`model
      ensures Valid() && Visits() == if old(Visits()) == [] then [] else old(Visits())[1..]
    {
      if stack == [] { return; }
      if Doubled() {
        StepLeaf();
      } else if InternalOf(order, leavesOnly) == PostOrder {
        StepPost();
      } else {
        StepPre();
      }
    }

    /** The current node and how it is visited; None when the iterator is exhausted. */
    method Current() returns (v: Option<NodeVisit>)
      requires Valid()
      ensures Heads(nodes, v, Visits())
    {
      if Doubled() { ReportsLeaf(Forward(order), model); } else { ReportsNext(order, leavesOnly, model); }
      if stack == [] { return None; }
      var top := stack[|stack| - 1];
      CurrentAgrees(nodes, top, model[|stack| - 1]);
      if top.Current() == null { return None; }
      return Some(NodeVisit(top.Current(), NodeVisitType(order, top)));
    }

    /** Step until the iterator is exhausted. */
    method Drain() returns (visits: seq<NodeVisit>)
      requires Valid()
      modifies this`stack, this`model
      ensures AreVisits(nodes, visits, old(Visits()))
    {
      visits := [];
      var v := Current();
      ghost var left, done := Visits(), [];
      while v.Some?
        invariant Valid() && left == Visits() && Heads(nodes, v, left)
        invariant done + left == old(Visits()) && AreVisits(nodes, visits, done)
        decreases |left|
      {
        FirstMoves(done, left);
        OneVisitMore(nodes, visits, done, v.value, left[0]);
        visits, done := visits + [v.value], done + [left[0]];
        Advance();
        left := Visits();
        v := Current();
      }
    }
  }

  ghost predicate AreVisits(nodes: seq<Rings.Node>, got: seq<NodeVisit>, vs: seq<Visit>) {
    |got| == |vs| && forall i :: 0 <= i < |got| ==> IsVisit(nodes, got[i], vs[i])
  }

  lemma OneVisitMore(nodes: seq<Rings.Node>, got: seq<NodeVisit>, vs: seq<Visit>, g: NodeVisit, v: Visit)
    requires AreVisits(nodes, got, vs) && IsVisit(nodes, g, v)
    ensures AreVisits(nodes, got + [g], vs + [v])
  {
  }

  /** Over any tree of linked nodes, repeated steps from a fresh iterator enumerate
    exactly the recursive order. */
  method Enumerate(root: Rings.Node, order: Order, how: Enum, ghost nodes: seq<Rings.Node>, ghost t: Tree)
    returns (visits: seq<NodeVisit>)
    requires Shows(nodes, t) && root == nodes[t.id]
    ensures AreVisits(nodes, visits, Expected(t, order, how))
  {
    var it := new TreeIterator(root, order, how, nodes, t);
    visits := it.Drain();
  }
}

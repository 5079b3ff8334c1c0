/** `NonUniformDegreeTreeNode`: the children of a node as a doubly linked ring. */
module SiblingRings {

  /** The nodes as a ring, starting with the first child of p; nodes without a parent
    may form a ring as well. */
  ghost predicate IsRing(p: Node?, kids: seq<Node>)
    reads Just(p), kids
  {
    && (p != null ==> p !in kids && p.count == |kids| && p.children == (if kids == [] then null else kids[0]))
    && (forall i, j :: 0 <= i < j < |kids| ==> kids[i] != kids[j])
    && (forall i :: 0 <= i < |kids| ==> Linked(p, kids, i))
  }

  function Just(p: Node?): set<Node> {
    if p == null then {} else {p}
  }

  ghost predicate Linked(p: Node?, kids: seq<Node>, i: int)
    requires 0 <= i < |kids|
    reads kids
  {
    && kids[i].parent == p
    && kids[i].next == (if i + 1 == |kids| then kids[0] else kids[i + 1])
    && kids[i].prev == (if i == 0 then kids[|kids| - 1] else kids[i - 1])
  }

  ghost predicate Alone(n: Node)
    reads n
  {
    n.parent == null && n.next == n && n.prev == n
  }

  class Node {
    var parent: Node?
    var children: Node?
    var next: Node?
    var prev: Node?
    var count: nat

    /** A node of its own, without children: an empty ring starts from here. */
    constructor ()
      ensures Alone(this) && IsRing(this, [])
    {
      parent, children, next, prev, count := null, null, null, null, 0;
      new;
      next, prev := this, this;
    }

    /** Insert this node behind position i of the ring. */
    method LinkAfter(sibling: Node, ghost p: Node?, ghost kids: seq<Node>, ghost i: nat)
      requires Alone(this) && IsRing(p, kids) && this !in kids && this != p
      requires i < |kids| && kids[i] == sibling
      modifies this`parent, this`next, this`prev, Just(p)`count, kids`next, kids`prev
      ensures IsRing(p, kids[..i + 1] + [this] + kids[i + 1..])
    {
      assert Linked(p, kids, i);
      parent := sibling.parent;
      if parent != null {
        parent.count := parent.count + 1;
      }
      next := sibling.next;
      sibling.next := this;
      prev := sibling;
      next.prev := this;
      ghost var ring := kids[..i + 1] + [this] + kids[i + 1..];
      forall j | 0 <= j < |ring|
        ensures Linked(p, ring, j)
      {
        if j <= i { assert old(Linked(p, kids, j)); } else if j > i + 1 { assert old(Linked(p, kids, j - 1)); }
      }
    }

    /** Insert this node before position i; before the first child it becomes the first. */
    method LinkBefore(sibling: Node, ghost p: Node?, ghost kids: seq<Node>, ghost i: nat)
      requires Alone(this) && IsRing(p, kids) && this !in kids && this != p
      requires i < |kids| && kids[i] == sibling
      modifies this`parent, this`next, this`prev, Just(p)`count, Just(p)`children, kids`next, kids`prev
      ensures IsRing(p, kids[..i] + [this] + kids[i..])
    {
      assert Linked(p, kids, i);
      ghost var n := |kids|;
      ghost var before := if i == 0 then n - 1 else i - 1;
      LinkAfter(sibling.prev, p, kids, before);
      ghost var ring := kids[..before + 1] + [this] + kids[before + 1..];
      assert ring[before + 1] == this;
      assert Linked(p, ring, before + 1);
      if parent != null && sibling == parent.children {
        parent.children := this;
        assert i == 0;
      }
      if i == 0 {
        assert ring == kids + [this];
        Turned(p, kids, this);
      }
    }

    /** Become the last child; without a parent to be linked to, stay as it is. */
    method Link(p: Node?, ghost kids: seq<Node>)
      requires Alone(this) && this !in kids && this != p && if p == null then kids == [] else IsRing(p, kids)
      modifies this`parent, this`next, this`prev, Just(p)`count, Just(p)`children, kids`next, kids`prev
      ensures if p == null then Alone(this) else IsRing(p, kids + [this])
    {
      if p == null {
        return;
      }
      var first := p.children;
      if first != null {
        assert Linked(p, kids, 0);
        LinkAfter(first.prev, p, kids, |kids| - 1);
        assert kids[..|kids|] + [this] + kids[|kids|..] == kids + [this];
      } else {
        p.children := this;
        p.count := p.count + 1;
        parent := p;
      }
    }

    /** Leave the parent's ring; a node without a parent stays where it is. */
    method Unlink(ghost p: Node?, ghost kids: seq<Node>, ghost i: nat)
      requires IsRing(p, kids) && i < |kids| && kids[i] == this
      modifies this`parent, this`next, this`prev, Just(p)`count, Just(p)`children, kids`next, kids`prev
      ensures p == null ==> IsRing(p, kids)
      ensures p != null ==> Alone(this) && IsRing(p, kids[..i] + kids[i + 1..])
    {
      assert Linked(p, kids, i);
      if parent == null {
        return;
      }
      parent.count := parent.count - 1;
      if parent.count == 0 {
        parent.children := null;
      } else {
        if parent.children == this {
          parent.children := next;
        }
        prev.next := next;
        next.prev := prev;
        prev := this;
        next := this;
      }
      parent := null;
      ghost var ring := kids[..i] + kids[i + 1..];
      forall j | 0 <= j < |ring|
        ensures Linked(p, ring, j)
      {
        if j < i { assert old(Linked(p, kids, j)); } else { assert old(Linked(p, kids, j + 1)); }
      }
    }
  }

  /** A ring may start from any of its nodes: here from the one inserted last. */
  lemma Turned(p: Node?, kids: seq<Node>, first: Node)
    requires kids != [] && first !in kids && first != p && (p != null ==> p !in kids)
    requires forall i, j :: 0 <= i < j < |kids| ==> kids[i] != kids[j]
    requires forall j :: 0 <= j <= |kids| ==> Linked(p, kids + [first], j)
    requires p != null ==> p.count == |kids| + 1 && p.children == first
    ensures IsRing(p, kids[..0] + [first] + kids[0..])
  {
    var turned := [first] + kids;
    assert kids[..0] + [first] + kids[0..] == turned;
    forall j | 0 <= j < |turned|
      ensures Linked(p, turned, j)
    {
      assert Linked(p, kids + [first], if j == 0 then |kids| else j - 1);
    }
  }

  /** The children in the order they are visited. */
  ghost function InOrder(kids: seq<Node>, forward: bool): (order: seq<Node>)
    ensures |order| == |kids|
    ensures forall i :: 0 <= i < |kids| ==> order[i] == kids[if forward then i else |kids| - 1 - i]
  {
    seq(|kids|, i requires 0 <= i < |kids| => kids[if forward then i else |kids| - 1 - i])
  }

  /** The next sibling in that direction, and where the ring closes. */
  lemma RingStep(p: Node, kids: seq<Node>, forward: bool, i: nat)
    requires IsRing(p, kids) && i < |kids|
    ensures var order := InOrder(kids, forward);
            var sibling := if forward then order[i].next else order[i].prev;
            && sibling == (if i + 1 == |kids| then order[0] else order[i + 1])
            && (sibling == order[0] <==> i + 1 == |kids|)
  {
    assert Linked(p, kids, if forward then i else |kids| - 1 - i);
  }

  /** The child iterator: once around the ring, in either direction. */
  method Walk(p: Node, forward: bool, ghost kids: seq<Node>) returns (visits: seq<Node>)
    requires IsRing(p, kids)
    ensures visits == InOrder(kids, forward)
  {
    visits := [];
    ghost var order := InOrder(kids, forward);
    if kids != [] { assert Linked(p, kids, 0); }
    var pastEnd := if forward then p.children else if p.children != null then p.children.prev else null;
    var current := pastEnd;
    while current != null
      invariant |visits| <= |kids| && visits == order[..|visits|]
      invariant current == if |visits| == |kids| then null else order[|visits|]
      decreases |kids| - |visits|
    {
      RingStep(p, kids, forward, |visits|);
      visits := visits + [current];
      current := if forward then current.next else current.prev;
      if current == pastEnd {
        current := null;
      }
    }
  }
}

/** Consecutive numbers for the physical indices seen under each key, handed out by
  rank 0. */
module Numbering {
  import opened ThreadIds

  const LIMIT := 0x1_0000_0000_0000_0000

  // ----- CountingLookupMap

  /** The physical indices seen, 64 bits wide, are numbered one-to-one by 0 up to their
    count. */
  ghost predicate Dense(m: map<nat, nat>) {
    && (forall x :: x in m ==> x < LIMIT && m[x] < |m|)
    && (forall x, y :: x in m && y in m && m[x] == m[y] ==> x == y)
    && (forall v: nat :: v < |m| ==> Numbers(m, v))
  }

  ghost predicate Numbers(m: map<nat, nat>, v: nat) {
    exists x :: x in m && m[x] == v
  }

  function Got(m: map<nat, nat>, x: nat): map<nat, nat> {
    if x in m then m else m[x := |m|]
  }

  lemma GotIsDense(m: map<nat, nat>, x: nat)
    requires Dense(m) && x < LIMIT
    ensures Dense(Got(m, x)) && x in Got(m, x)
    ensures forall y :: y in m ==> y in Got(m, x) && Got(m, x)[y] == m[y]
  {
    if x !in m {
      var m' := m[x := |m|];
      assert m'.Keys == m.Keys + {x};
      assert |m'| == |m| + 1;
      forall v: nat | v < |m'|
        ensures Numbers(m', v)
      {
        if v == |m| {
          assert m'[x] == v;
        } else {
          assert Numbers(m, v);
          var y :| y in m && m[y] == v;
          assert m'[y] == v;
        }
      }
    }
  }

  lemma {:induction false} FewBelow(s: set<nat>, n: nat)
    requires forall x :: x in s ==> x < n
    ensures |s| <= n
  {
    if n > 0 {
      FewBelow(s - {n - 1}, n - 1);
    } else {
      assert s == {};
    }
  }

  /** There are never more numbers than fit into 64 bits. */
  lemma NumberFits(m: map<nat, nat>, x: nat)
    requires Dense(m) && x < LIMIT
    ensures x !in m ==> |m| < LIMIT
    ensures forall y :: y in m ==> m[y] < LIMIT
  {
    FewBelow(m.Keys, LIMIT);
    FewBelow(m.Keys + {x}, LIMIT);
  }

  // ----- All numberings

  type Tables = map<Key, map<nat, nat>>

  function TableOf(t: Tables, key: Key): map<nat, nat> {
    if key in t then t[key] else map[]
  }

  function Numbered(t: Tables, key: Key, x: nat): (t': Tables)
    ensures key in t' && x in t'[key]
  {
    t[key := Got(TableOf(t, key), x)]
  }

  ghost predicate AllDense(t: Tables) {
    forall key :: key in t ==> Dense(t[key])
  }

  /** Index x has number v under the key. */
  ghost predicate Has(t: Tables, key: Key, x: nat, v: nat) {
    key in t && x in t[key] && t[key][x] == v
  }

  /** Numbers are never taken back. */
  ghost predicate Extends(t: Tables, t': Tables) {
    forall key, x :: key in t && x in t[key] ==> Has(t', key, x, t[key][x])
  }

  lemma NumberedExtends(t: Tables, key: Key, x: nat)
    requires AllDense(t) && x < LIMIT
    ensures AllDense(Numbered(t, key, x)) && Extends(t, Numbered(t, key, x))
  {
    GotIsDense(TableOf(t, key), x);
  }

  lemma ExtendsTransitive(a: Tables, b: Tables, c: Tables)
    requires Extends(a, b) && Extends(b, c)
    ensures Extends(a, c)
  {
  }

  // ----- Rank 0

  /** What finalizing makes of an identifier, given its number. */
  function Finalized(id: PmsId, v: U64): PmsId {
    PmsId(KindOf(id.kind), id.physical, v)
  }

  /** A tuple is finalized: elements that needed a number have the one of their key, the
    others are unchanged. */
  ghost predicate IsFinalized(t: Tables, before: seq<PmsId>, after: seq<PmsId>) {
    |before| == |after| && forall i :: 0 <= i < |before| ==> ElementDone(t, before, i, after[i])
  }

  ghost predicate ElementDone(t: Tables, before: seq<PmsId>, i: nat, id: PmsId)
    requires i < |before|
  {
    if NeedsNumber(before[i])
    then id == Finalized(before[i], id.logical) && Has(t, KeyFor(before, i), before[i].physical, id.logical)
    else id == before[i]
  }

  /** The numberings once element i has its number, if it needs one. */
  function AfterElement(t: Tables, tuple: seq<PmsId>, i: nat): Tables
    requires i < |tuple|
  {
    if NeedsNumber(tuple[i]) then Numbered(t, KeyFor(tuple, i), tuple[i].physical) else t
  }

  /** The numberings once the first n elements have their numbers. */
  ghost function After(t: Tables, tuple: seq<PmsId>, n: nat): Tables
    requires n <= |tuple|
  {
    if n == 0 then t else AfterElement(After(t, tuple, n - 1), tuple, n - 1)
  }

  class FinalizeState {
    var tables: Tables

    ghost predicate Valid()
      reads this
    {
      AllDense(tables)
    }

    constructor ()
      ensures Valid() && tables == map[]
    {
      tables := map[];
    }

    /** Look a number up, adding it if necessary. */
    method Get(key: Key, x: U64) returns (v: U64)
      requires Valid()
      modifies this
      ensures Valid() && tables == Numbered(old(tables), key, x) && v == tables[key][x]
      ensures Extends(old(tables), tables)
    {
      NumberedExtends(tables, key, x);
      var m: map<nat, nat> := TableOf(tables, key);
      GotIsDense(m, x);
      NumberFits(m, x);
      if x in m {
        v := m[x];
      } else {
        v := |m|;
        var k: nat, n: nat := x, |m|;
        m := m[k := n];
      }
      tables := tables[key := m];
    }

    /** Finalize element i of a tuple whose earlier elements are finalized already. */
    method FinalizeElement(ids: seq<PmsId>, i: nat, ghost tuple: seq<PmsId>) returns (id: PmsId)
      requires Valid() && i < |ids| == |tuple| && ids[i] == tuple[i] && Places(ids[..i]) == Places(tuple[..i])
      modifies this
      ensures Valid() && Extends(old(tables), tables) && ElementDone(tables, tuple, i, id)
      ensures tables == AfterElement(old(tables), tuple, i)
    {
      id := ids[i];
      match InterpretOf(id.kind) {
        case BothValid =>
        case LogicOnly =>
        case LogicGlobal =>
          var kind := KindOf(id.kind);
          var v := Get(Global(kind), id.physical);
          id := PmsId(kind, id.physical, v);
        case LogicLocal =>
          var kind := KindOf(id.kind);
          var words := BuildKey(ids, i, kind);
          var v := Get(Local(words), id.physical);
          id := PmsId(kind, id.physical, v);
      }
    }

    /** Finalize a tuple on rank 0. The keys of later elements do not depend on what
      was made of earlier ones. */
    method Finalize(tuple: seq<PmsId>) returns (ids: seq<PmsId>)
      requires Valid()
      modifies this
      ensures Valid() && Extends(old(tables), tables) && IsFinalized(tables, tuple, ids)
      ensures tables == After(old(tables), tuple, |tuple|)
    {
      ids := tuple;
      for i := 0 to |tuple|
        invariant Valid() && Extends(old(tables), tables) && tables == After(old(tables), tuple, i)
        invariant |ids| == |tuple| && forall j :: i <= j < |tuple| ==> ids[j] == tuple[j]
        invariant forall j :: 0 <= j < i ==> ElementDone(tables, tuple, j, ids[j])
      {
        ghost var before := tables;
        SamePlaces(tables, tuple, ids, i);
        var id := FinalizeElement(ids, i, tuple);
        ElementsStay(before, tables, tuple, ids, i);
        ExtendsTransitive(old(tables), before, tables);
        ids := ids[i := id];
      }
    }
  }

  /** Finalizing an element keeps its place. */
  lemma SamePlaces(t: Tables, tuple: seq<PmsId>, ids: seq<PmsId>, i: nat)
    requires i <= |tuple| == |ids| && forall j :: 0 <= j < i ==> ElementDone(t, tuple, j, ids[j])
    ensures Places(ids[..i]) == Places(tuple[..i])
  {
  }

  lemma ElementsStay(t: Tables, t': Tables, tuple: seq<PmsId>, ids: seq<PmsId>, i: nat)
    requires i <= |tuple| == |ids| && Extends(t, t') && forall j :: 0 <= j < i ==> ElementDone(t, tuple, j, ids[j])
    ensures forall j :: 0 <= j < i ==> ElementDone(t', tuple, j, ids[j])
  {
  }

  /** Finalizing is done once: nothing in the result needs a number. */
  lemma FinalizedNeedsNothing(t: Tables, before: seq<PmsId>, after: seq<PmsId>, i: nat)
    requires IsFinalized(t, before, after) && i < |after|
    ensures !NeedsNumber(after[i]) && PlaceOf(after[i]) == PlaceOf(before[i])
  {
  }

  /** Elements of two finalized tuples that share a key have the same number exactly
    if they have the same physical index. */
  lemma SameNumberIff(t: Tables, a: seq<PmsId>, a': seq<PmsId>, i: nat, b: seq<PmsId>, b': seq<PmsId>, j: nat)
    requires AllDense(t) && IsFinalized(t, a, a') && IsFinalized(t, b, b') && i < |a| && j < |b|
    requires NeedsNumber(a[i]) && NeedsNumber(b[j]) && KeyFor(a, i) == KeyFor(b, j)
    ensures a'[i].logical == b'[j].logical <==> a[i].physical == b[j].physical
    ensures a'[i].logical < |t[KeyFor(a, i)]|
  {
  }
}

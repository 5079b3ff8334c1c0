/** Hierarchical thread identifiers and the keys under which their indices are numbered. */
module ThreadIds {
  type U16 = n: int | 0 <= n < 0x1_0000
  type U64 = n: int | 0 <= n < 0x1_0000_0000_0000_0000

  /** The kind holds its interpretation in the upper two bits. */
  datatype PmsId = PmsId(kind: U16, physical: U64, logical: U64)

  const INVALID: U16 := 0xffff

  datatype Interpret = BothValid | LogicLocal | LogicGlobal | LogicOnly

  function InterpretOf(kind: U16): Interpret {
    var bits := kind / 0x4000;
    if bits == 0 then BothValid else if bits == 1 then LogicLocal else if bits == 2 then LogicGlobal else LogicOnly
  }

  function KindOf(kind: U16): (k: U16)
    ensures k < 0x4000
  {
    kind % 0x4000
  }

  // ----- Keys

  /** The part of an identifier that enters into a key. */
  datatype Place = Place(kind: U16, physical: U64)

  function PlaceOf(id: PmsId): Place {
    Place(KindOf(id.kind), id.physical)
  }

  function Places(ids: seq<PmsId>): (ps: seq<Place>)
    ensures |ps| == |ids| && forall j :: 0 <= j < |ids| ==> ps[j] == PlaceOf(ids[j])
  {
    seq(|ids|, j requires 0 <= j < |ids| => PlaceOf(ids[j]))
  }

  function Words(p: Place): seq<U16> {
    [p.kind, p.physical / 0x1_0000_0000_0000 % 0x1_0000, p.physical / 0x1_0000_0000 % 0x1_0000,
     p.physical / 0x1_0000 % 0x1_0000, p.physical % 0x1_0000]
  }

  function FlatKey(ps: seq<Place>, kind: U16): (key: seq<U16>)
    ensures |key| == 5 * |ps| + 1
  {
    if ps == [] then [kind] else Words(ps[0]) + FlatKey(ps[1..], kind)
  }

  lemma WordsInjective(p: Place, q: Place)
    requires Words(p) == Words(q)
    ensures p == q
  {
    var a, b := Words(p), Words(q);
    assert a[0] == b[0] && a[1] == b[1] && a[2] == b[2] && a[3] == b[3] && a[4] == b[4];
    Recompose(p.physical);
    Recompose(q.physical);
  }

  lemma Recompose(x: U64)
    ensures x == (((x / 0x1_0000_0000_0000 % 0x1_0000) * 0x1_0000 + x / 0x1_0000_0000 % 0x1_0000) * 0x1_0000
                  + x / 0x1_0000 % 0x1_0000) * 0x1_0000 + x % 0x1_0000
  {
    Shift(x, 0x1_0000);
    Shift(x, 0x1_0000_0000);
  }

  /** Shifting by sixteen bits more. */
  lemma Shift(x: U64, p: int)
    requires p == 0x1_0000 || p == 0x1_0000_0000
    ensures x / (p * 0x1_0000) == x / p / 0x1_0000
    ensures x / p == x / (p * 0x1_0000) * 0x1_0000 + x / p % 0x1_0000
  {
  }

  /** Different prefixes or kinds have different keys. */
  lemma {:induction false} KeyInjective(ps: seq<Place>, k: U16, qs: seq<Place>, l: U16)
    requires FlatKey(ps, k) == FlatKey(qs, l)
    ensures ps == qs && k == l
  {
    var a, b := FlatKey(ps, k), FlatKey(qs, l);
    if ps == [] {
      assert a[0] == k && b[0] == l;
    } else {
      assert Words(ps[0]) == a[..5] && Words(qs[0]) == b[..5];
      assert FlatKey(ps[1..], k) == a[5..] && FlatKey(qs[1..], l) == b[5..];
      WordsInjective(ps[0], qs[0]);
      KeyInjective(ps[1..], k, qs[1..], l);
      assert ps == [ps[0]] + ps[1..] && qs == [qs[0]] + qs[1..];
    }
  }

  lemma {:induction false} FlatKeySnoc(ps: seq<Place>, p: Place, kind: U16)
    ensures FlatKey(ps + [p], kind) == FlatKey(ps, kind)[..5 * |ps|] + Words(p) + [kind]
  {
    if ps == [] {
      assert ps + [p] == [p] && [p][1..] == [];
    } else {
      assert (ps + [p])[0] == ps[0] && (ps + [p])[1..] == ps[1..] + [p];
      FlatKeySnoc(ps[1..], p, kind);
    }
  }

  lemma {:induction false} FlatKeyLast(ps: seq<Place>, kind: U16)
    ensures FlatKey(ps, kind)[5 * |ps|] == kind
  {
    if ps != [] { FlatKeyLast(ps[1..], kind); }
  }

  /** Build the key of element i, word by word. */
  method BuildKey(ids: seq<PmsId>, i: nat, kind: U16) returns (key: seq<U16>)
    requires i <= |ids|
    ensures key == FlatKey(Places(ids[..i]), kind)
  {
    key := [];
    ghost var ps := Places(ids[..i]);
    for j := 0 to i
      invariant key == FlatKey(ps[..j], kind)[..5 * j]
    {
      assert ps[..j + 1] == ps[..j] + [ps[j]] && ps[j] == PlaceOf(ids[j]);
      FlatKeySnoc(ps[..j], ps[j], kind);
      key := key + [KindOf(ids[j].kind)];
      key := key + [ids[j].physical / 0x1_0000_0000_0000 % 0x1_0000];
      key := key + [ids[j].physical / 0x1_0000_0000 % 0x1_0000];
      key := key + [ids[j].physical / 0x1_0000 % 0x1_0000];
      key := key + [ids[j].physical % 0x1_0000];
    }
    assert ps[..i] == ps;
    FlatKeyLast(ps, kind);
    key := key + [kind];
  }

  /** What an index is numbered under: a kind, or a kind below a given prefix. */
  datatype Key = Global(kind: U16) | Local(words: seq<U16>)

  /** The key for element i of a tuple, if it needs a number. */
  function KeyFor(ids: seq<PmsId>, i: nat): Key
    requires i < |ids|
  {
    if InterpretOf(ids[i].kind) == LogicGlobal then Global(KindOf(ids[i].kind))
    else Local(FlatKey(Places(ids[..i]), KindOf(ids[i].kind)))
  }

  predicate NeedsNumber(id: PmsId) {
    InterpretOf(id.kind) == LogicGlobal || InterpretOf(id.kind) == LogicLocal
  }

  /** Two elements share a numbering only if they are of the same kind and, for local
    ones, below the same places. */
  lemma KeysTellApart(a: seq<PmsId>, i: nat, b: seq<PmsId>, j: nat)
    requires i < |a| && j < |b| && NeedsNumber(a[i]) && NeedsNumber(b[j])
    ensures KeyFor(a, i) == KeyFor(b, j) <==>
              && a[i].kind == b[j].kind
              && (InterpretOf(a[i].kind) == LogicLocal ==> Places(a[..i]) == Places(b[..j]))
  {
    if KeyFor(a, i) == KeyFor(b, j) && KeyFor(a, i).Local? {
      KeyInjective(Places(a[..i]), KindOf(a[i].kind), Places(b[..j]), KindOf(b[j].kind));
    }
  }
}

/** `IdUnpacker`: the tables read back from packed identifiers, and the way identifiers
  are found in them. */
module UnpackedIds {
  import opened ByteFormat
  import opened Nonces
  import opened PackedIds

  type Hashes = map<Hash, Id>
  type IdTable = map<Id, (Byte, Hashes)>
  type MetricTable = map<seq<Byte>, Id>

  // ----- What the tables hold

  function WithChildren(m: Hashes, cs: seq<Child>): Hashes {
    if cs == [] then m else WithChildren(m, cs[..|cs| - 1])[cs[|cs| - 1].hash := cs[|cs| - 1].id]
  }

  function WithRecord(t: IdTable, r: Record): IdTable {
    var known: Hashes := if r.id in t then t[r.id].1 else map[];
    t[r.id := (r.nonce, WithChildren(known, r.children))]
  }

  function Ids(rs: seq<Record>): IdTable {
    if rs == [] then map[] else WithRecord(Ids(rs[..|rs| - 1]), rs[|rs| - 1])
  }

  /** Inserting does not replace what is there. */
  function WithMetric(t: MetricTable, name: seq<Byte>, id: Id): MetricTable {
    if name in t then t else t[name := id]
  }

  function Metrics(ms: seq<Metric>): MetricTable {
    if ms == [] then map[] else WithMetric(Metrics(ms[..|ms| - 1]), Clean(ms[|ms| - 1].name), ms[|ms| - 1].id)
  }

  /** Every child is found under its hash, if the hashes differ. */
  lemma {:induction false} ChildFound(cs: seq<Child>, k: nat, m: Hashes)
    requires Apart(cs) && k < |cs|
    ensures cs[k].hash in WithChildren(m, cs) && WithChildren(m, cs)[cs[k].hash] == cs[k].id
  {
    if k < |cs| - 1 { ChildFound(cs[..|cs| - 1], k, m); }
  }

  /** No two records are for the same context. */
  ghost predicate OwnIds(rs: seq<Record>) {
    forall a, b :: 0 <= a < b < |rs| ==> rs[a].id != rs[b].id
  }

  lemma {:induction false} OnlyRecorded(rs: seq<Record>, id: Id)
    requires forall a :: 0 <= a < |rs| ==> rs[a].id != id
    ensures id !in Ids(rs)
  {
    if rs != [] { OnlyRecorded(rs[..|rs| - 1], id); }
  }

  lemma {:induction false} RecordFound(rs: seq<Record>, k: nat)
    requires OwnIds(rs) && k < |rs|
    ensures rs[k].id in Ids(rs) && Ids(rs)[rs[k].id] == (rs[k].nonce, WithChildren(map[], rs[k].children))
  {
    if k < |rs| - 1 {
      RecordFound(rs[..|rs| - 1], k);
    } else {
      OnlyRecorded(rs[..|rs| - 1], rs[k].id);
    }
  }

  /** A name leads to the first metric that was packed under it. */
  lemma {:induction false} MetricFound(ms: seq<Metric>, k: nat)
    requires k < |ms| && forall a :: 0 <= a < k ==> Clean(ms[a].name) != Clean(ms[k].name)
    ensures Clean(ms[k].name) in Metrics(ms) && Metrics(ms)[Clean(ms[k].name)] == ms[k].id
  {
    if k < |ms| - 1 {
      MetricFound(ms[..|ms| - 1], k);
    } else {
      NotPackedBefore(ms[..k], Clean(ms[k].name));
    }
  }

  lemma {:induction false} NotPackedBefore(ms: seq<Metric>, name: seq<Byte>)
    requires forall a :: 0 <= a < |ms| ==> Clean(ms[a].name) != name
    ensures name !in Metrics(ms)
  {
    if ms != [] { NotPackedBefore(ms[..|ms| - 1], name); }
  }

  // ----- Reading the bytes back

  lemma Ahead8(v: nat, rest: seq<Byte>)
    ensures |NumberBytes(v) + rest| >= 8
    ensures (NumberBytes(v) + rest)[..8] == NumberBytes(v) && (NumberBytes(v) + rest)[8..] == rest
  {
  }

  method ReadNumber(it: seq<Byte>, ghost v: nat, ghost rest: seq<Byte>) returns (w: nat, it': seq<Byte>)
    requires v < U64 && it == NumberBytes(v) + rest
    ensures w == v && it' == rest
  {
    Ahead8(v, rest);
    w, it' := UnpackNumber(it);
  }

  method ReadString(it: seq<Byte>, ghost s: seq<Byte>, ghost rest: seq<Byte>) returns (r: seq<Byte>, it': seq<Byte>)
    requires it == StringBytes(s) + rest
    ensures r == Clean(s) && it' == rest
  {
    assert it == Clean(s) + [0] + rest;
    assert it[|s|] == 0;
    r, it' := UnpackString(it);
    FirstNul(Clean(s), rest, r, it');
  }

  /** Narrowing to 32 bits. */
  function Narrow(v: nat): (id: Id)
    ensures v < 0x1_0000_0000 ==> id == v
  {
    v % U32
  }

  /** One child: its hash and its identifier. */
  method ReadChild(it: seq<Byte>, m: Hashes, ghost c: Child, ghost rest: seq<Byte>) returns (m': Hashes, it': seq<Byte>)
    requires it == NumberBytes(c.hash) + (NumberBytes(c.id) + rest)
    ensures m' == m[c.hash := c.id] && it' == rest
  {
    var hash, id;
    hash, it' := ReadNumber(it, c.hash, NumberBytes(c.id) + rest);
    id, it' := ReadNumber(it', c.id, rest);
    m' := m[hash := Narrow(id)];
  }

  lemma ChildrenStep(cs: seq<Child>, j: nat, m: Hashes)
    requires j < |cs|
    ensures WithChildren(m, cs[..j + 1]) == WithChildren(m, cs[..j])[cs[j].hash := cs[j].id]
  {
    assert cs[..j + 1][..j] == cs[..j];
  }

  method ReadChildren(it: seq<Byte>, m: Hashes, ghost cs: seq<Child>, n: nat, ghost rest: seq<Byte>)
    returns (m': Hashes, it': seq<Byte>)
    requires n == |cs| && it == ChildBytes(cs) + rest
    ensures m' == WithChildren(m, cs) && it' == rest
  {
    m', it' := m, it;
    assert cs[0..] == cs && cs[..0] == [];
    for j := 0 to n
      invariant it' == ChildBytes(cs[j..]) + rest && m' == WithChildren(m, cs[..j])
    {
      ghost var c, tail := cs[j], cs[j + 1..];
      assert cs[j..][1..] == tail;
      ChildAhead(c, tail, cs[j..], rest);
      ChildrenStep(cs, j, m);
      m', it' := ReadChild(it', m', c, ChildBytes(tail) + rest);
    }
    assert cs[n..] == [] && cs[..n] == cs;
  }

  lemma ChildAhead(c: Child, tail: seq<Child>, cs: seq<Child>, rest: seq<Byte>)
    requires cs != [] && cs[0] == c && cs[1..] == tail
    ensures ChildBytes(cs) + rest == NumberBytes(c.hash) + (NumberBytes(c.id) + (ChildBytes(tail) + rest))
  {
  }

  lemma RecordAhead(r: Record, tail: seq<Record>, rs: seq<Record>, rest: seq<Byte>)
    requires rs != [] && rs[0] == r && rs[1..] == tail
    ensures RecordsBytes(rs) + rest ==
            NumberBytes(r.id)
            + ([r.nonce] + (NumberBytes(|r.children|) + (ChildBytes(r.children) + (RecordsBytes(tail) + rest))))
  {
  }

  lemma MetricAhead(m: Metric, tail: seq<Metric>, ms: seq<Metric>)
    requires ms != [] && ms[0] == m && ms[1..] == tail
    ensures MetricsBytes(ms) == NumberBytes(m.id) + (StringBytes(m.name) + MetricsBytes(tail))
  {
  }

  /** Sizes that fit into 64 bits. */
  ghost predicate Sized(rs: seq<Record>, ms: seq<Metric>) {
    |rs| < U64 && |ms| < U64 && forall k :: 0 <= k < |rs| ==> |rs[k].children| < U64
  }

  method ReadRecord(it: seq<Byte>, t: IdTable, ghost r: Record, ghost rest: seq<Byte>) returns (t': IdTable, it': seq<Byte>)
    requires |r.children| < U64
    requires it == NumberBytes(r.id) + ([r.nonce] + (NumberBytes(|r.children|) + (ChildBytes(r.children) + rest)))
    ensures t' == WithRecord(t, r) && it' == rest
  {
    ghost var afterCount := ChildBytes(r.children) + rest;
    ghost var afterNonce := NumberBytes(|r.children|) + afterCount;
    var pid, ccnt, nonce;
    pid, it' := ReadNumber(it, r.id, [r.nonce] + afterNonce);
    var id := Narrow(pid);
    nonce, it' := it'[0], it'[1..];
    assert it' == afterNonce;
    ccnt, it' := ReadNumber(it', |r.children|, afterCount);
    var hashes: Hashes := if id in t then t[id].1 else map[];
    hashes, it' := ReadChildren(it', hashes, r.children, ccnt, rest);
    t' := t[id := (nonce, hashes)];
  }

  method ReadRecords(it: seq<Byte>, ghost rs: seq<Record>, n: nat, ghost rest: seq<Byte>) returns (t: IdTable, it': seq<Byte>)
    requires n == |rs| && (forall k :: 0 <= k < |rs| ==> |rs[k].children| < U64)
    requires it == RecordsBytes(rs) + rest
    ensures t == Ids(rs) && it' == rest
  {
    t, it' := map[], it;
    assert rs[0..] == rs && rs[..0] == [];
    for i := 0 to n
      invariant it' == RecordsBytes(rs[i..]) + rest && t == Ids(rs[..i])
    {
      ghost var r, tail := rs[i], rs[i + 1..];
      assert rs[i..][1..] == tail && rs[..i + 1][..i] == rs[..i];
      RecordAhead(r, tail, rs[i..], rest);
      t, it' := ReadRecord(it', t, r, RecordsBytes(tail) + rest);
    }
    assert rs[n..] == [] && rs[..n] == rs;
  }

  method ReadMetrics(it: seq<Byte>, ghost ms: seq<Metric>, n: nat) returns (t: MetricTable)
    requires n == |ms| && it == MetricsBytes(ms)
    ensures t == Metrics(ms)
  {
    t := map[];
    var it' := it;
    assert ms[0..] == ms && ms[..0] == [];
    for i := 0 to n
      invariant it' == MetricsBytes(ms[i..]) && t == Metrics(ms[..i])
    {
      ghost var m, tail := ms[i], ms[i + 1..];
      assert ms[i..][1..] == tail && ms[..i + 1][..i] == ms[..i];
      MetricAhead(m, tail, ms[i..]);
      var id, name;
      id, it' := ReadNumber(it', m.id, StringBytes(m.name) + MetricsBytes(tail));
      name, it' := ReadString(it', m.name, MetricsBytes(tail));
      t := WithMetric(t, name, Narrow(id));
    }
    assert ms[..n] == ms;
  }
}

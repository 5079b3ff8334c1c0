/** Identifiers survive being packed, sent and unpacked. */
module IdRoundTrip {
  import opened Common
  import opened ByteFormat
  import opened Nonces
  import opened PackedIds
  import opened UnpackedIds

  /** The tables know a child of the given parent with this scope. */
  predicate KnownChild(h: Hasher, t: IdTable, parent: Id, scope: Scope) {
    parent in t && h(scope, t[parent].0) in t[parent].1
  }

  function ChildId(h: Hasher, t: IdTable, parent: Id, scope: Scope): Id
    requires KnownChild(h, t, parent, scope)
  {
    t[parent].1[h(scope, t[parent].0)]
  }

  class IdUnpacker {
    const h: Hasher
    var ctxtree: seq<Byte>
    var once: bool
    var globalId: Id
    var idmap: IdTable
    var metmap: MetricTable
    ghost const records: seq<Record>
    ghost const metrics: seq<Metric>

    ghost predicate Valid()
      reads this
    {
      && Sized(records, metrics)
      && if once then idmap == Ids(records) && metmap == Metrics(metrics)
         else ctxtree == PackedBytes(globalId, records, metrics)
    }

    /** The identifier of the root is needed at once, the rest when first asked for. */
    constructor (h: Hasher, c: seq<Byte>, ghost g: Id, ghost rs: seq<Record>, ghost ms: seq<Metric>)
      requires c == PackedBytes(g, rs, ms) && Sized(rs, ms)
      ensures Valid() && this.h == h && globalId == g && records == rs && metrics == ms
    {
      this.h, ctxtree, once, idmap, metmap := h, c, false, map[], map[];
      records, metrics := rs, ms;
      var id := ReadGlobal(c, g, rs, ms);
      globalId := id;
    }

    method Unpack()
      requires Valid() && !once
      modifies this`ctxtree, this`once, this`idmap, this`metmap
      ensures Valid() && once
    {
      var it, cnt, v;
      GlobalAhead(globalId, records, metrics);
      ghost var tail := NumberBytes(|metrics|) + MetricsBytes(metrics);
      v, it := ReadNumber(ctxtree, globalId, AfterGlobal(records, metrics));
      cnt, it := ReadNumber(it, |records|, RecordsBytes(records) + tail);
      idmap, it := ReadRecords(it, records, cnt, tail);
      cnt, it := ReadNumber(it, |metrics|, MetricsBytes(metrics));
      metmap := ReadMetrics(it, metrics, cnt);
      ctxtree, once := [], true;
    }

    /** The identifier of a context, given that of its parent. */
    method IdentifyContext(parent: Option<Id>, scope: Scope) returns (id: Id)
      requires Valid() && (parent.Some? ==> KnownChild(h, Ids(records), parent.value, scope))
      modifies this`ctxtree, this`once, this`idmap, this`metmap
      ensures Valid()
      ensures id == if parent.Some? then ChildId(h, Ids(records), parent.value, scope) else globalId
    {
      if !once {
        Unpack();
      }
      if parent.None? {
        return globalId;
      }
      var (nonce, hashes) := idmap[parent.value];
      return hashes[h(scope, nonce)];
    }

    method IdentifyMetric(name: seq<Byte>) returns (id: Id)
      requires Valid() && name in Metrics(metrics)
      modifies this`ctxtree, this`once, this`idmap, this`metmap
      ensures Valid() && id == Metrics(metrics)[name]
    {
      if !once {
        Unpack();
      }
      return metmap[name];
    }
  }

  method ReadGlobal(c: seq<Byte>, ghost g: Id, ghost rs: seq<Record>, ghost ms: seq<Metric>) returns (id: Id)
    requires c == PackedBytes(g, rs, ms)
    ensures id == g
  {
    GlobalAhead(g, rs, ms);
    var v, it := ReadNumber(c, g, AfterGlobal(rs, ms));
    return Narrow(v);
  }

  ghost function AfterGlobal(rs: seq<Record>, ms: seq<Metric>): seq<Byte> {
    NumberBytes(|rs|) + (RecordsBytes(rs) + (NumberBytes(|ms|) + MetricsBytes(ms)))
  }

  lemma GlobalAhead(g: Id, rs: seq<Record>, ms: seq<Metric>)
    ensures PackedBytes(g, rs, ms) == NumberBytes(g) + AfterGlobal(rs, ms)
  {
  }

  // ----- Contexts

  ghost predicate DistinctIds(cs: seq<Context>) {
    forall a, b :: 0 <= a < b < |cs| ==> cs[a].id != cs[b].id
  }

  /** A parent's record leads to each of its children. */
  lemma KidIdentified(h: Hasher, rs: seq<Record>, cs: seq<Context>, n: nat, k: nat)
    requires DistinctIds(cs) && DescribeAll(h, rs, cs) && n < |cs| && k < |cs[n].kids|
    ensures KnownChild(h, Ids(rs), cs[n].id, cs[n].kids[k].scope)
    ensures ChildId(h, Ids(rs), cs[n].id, cs[n].kids[k].scope) == cs[n].kids[k].id
  {
    var r, kid := rs[n], cs[n].kids[k];
    assert Describes(h, r, cs[n]);
    assert OwnIds(rs) by {
      forall a, b | 0 <= a < b < |rs|
        ensures rs[a].id != rs[b].id
      {
        assert Describes(h, rs[a], cs[a]) && Describes(h, rs[b], cs[b]);
      }
    }
    RecordFound(rs, n);
    var hashed := Rehash(h, r.nonce, Base(cs[n].kids));
    var j := Position(hashed, r.children, k);
    ChildFound(r.children, j, map[]);
  }

  lemma Position(a: seq<Child>, b: seq<Child>, k: nat) returns (j: nat)
    requires multiset(a) == multiset(b) && k < |a|
    ensures j < |b| && b[j] == a[k]
  {
    assert a[k] in multiset(b);
    j :| 0 <= j < |b| && b[j] == a[k];
  }

  lemma {:induction false} KidsAreNodes(cs: seq<Context>, c: Context, k: nat)
    requires c in NodesOf(cs) && k < |c.kids|
    ensures c.kids[k] in NodesOf(cs)
  {
    if c in Nodes(cs[0]) {
      if c == cs[0] { RootsAreNodes(c.kids, k); } else { KidsAreNodes(cs[0].kids, c, k); }
    } else {
      KidsAreNodes(cs[1..], c, k);
    }
  }

  lemma {:induction false} RootsAreNodes(cs: seq<Context>, k: nat)
    requires k < |cs|
    ensures cs[k] in NodesOf(cs)
  {
    if k > 0 { RootsAreNodes(cs[1..], k - 1); }
  }

  lemma KidIsNode(root: Context, c: Context, k: nat)
    requires c in Nodes(root) && k < |c.kids|
    ensures c.kids[k] in Nodes(root)
  {
    if c == root { RootsAreNodes(c.kids, k); } else { KidsAreNodes(root.kids, c, k); }
  }

  /** A way down from a context: the positions of the children to take. */
  predicate IsPath(c: Context, path: seq<nat>) {
    path != [] ==> path[0] < |c.kids| && IsPath(c.kids[path[0]], path[1..])
  }

  function At(c: Context, path: seq<nat>): Context
    requires IsPath(c, path)
  {
    if path == [] then c else At(c.kids[path[0]], path[1..])
  }

  lemma SizesFit(h: Hasher, root: Context, rs: seq<Record>, ms: seq<Metric>)
    requires |Nodes(root)| < U64 && |ms| < U64 && DescribeAll(h, rs, Nodes(root))
    ensures Sized(rs, ms)
  {
    forall k | 0 <= k < |rs|
      ensures |rs[k].children| < U64
    {
      assert Describes(h, rs[k], Nodes(root)[k]);
      SameSize(rs[k].children, Rehash(h, rs[k].nonce, Base(Nodes(root)[k].kids)));
      FewKids(root, Nodes(root)[k]);
    }
  }

  /** The whole way: whatever context is looked up after packing and unpacking, going
    down from the root by scopes, its own identifier is found. */
  method Transfer(h: Hasher, root: Context, ms: seq<Metric>, path: seq<nat>) returns (id: Option<Id>)
    requires |Nodes(root)| < U64 && |ms| < U64 && DistinctIds(Nodes(root)) && IsPath(root, path)
    ensures id.Some? <==> AllSeparable(h, Nodes(root))
    ensures id.Some? ==> id.value == At(root, path).id
  {
    var bytes: Option<seq<Byte>>;
    ghost var rs;
    bytes, rs := Pack(h, root, ms);
    if bytes.None? {
      return None;
    }
    SizesFit(h, root, rs, ms);
    var unpacker := new IdUnpacker(h, bytes.value, root.id, rs, ms);
    var found := unpacker.IdentifyContext(None, root.scope);
    var c := root;
    for d := 0 to |path|
      invariant unpacker.Valid() && unpacker.records == rs && unpacker.h == h
      invariant c in Nodes(root) && IsPath(c, path[d..]) && At(c, path[d..]) == At(root, path)
      invariant found == c.id
    {
      var k := path[d];
      assert path[d..][0] == k && path[d..][1..] == path[d + 1..];
      ghost var n :| 0 <= n < |Nodes(root)| && Nodes(root)[n] == c;
      KidIdentified(h, rs, Nodes(root), n, k);
      KidIsNode(root, c, k);
      found := unpacker.IdentifyContext(Some(found), c.kids[k].scope);
      c := c.kids[k];
    }
    return Some(found);
  }

  // ----- Metrics

  ghost predicate NamesClash(ms: seq<Metric>) {
    exists a, b :: 0 <= a < b < |ms| && ms[a].name == ms[b].name
  }

  ghost predicate NamesClean(ms: seq<Metric>) {
    forall k :: 0 <= k < |ms| ==> 0 !in ms[k].name
  }

  ghost predicate Identified(ms: seq<Metric>, k: nat)
    requires k < |ms|
  {
    ms[k].name in Metrics(ms) && Metrics(ms)[ms[k].name] == ms[k].id
  }

  lemma {:induction false} KeysAreClean(ms: seq<Metric>, name: seq<Byte>)
    requires name in Metrics(ms)
    ensures 0 !in name
  {
    if ms != [] && name in Metrics(ms[..|ms| - 1]) { KeysAreClean(ms[..|ms| - 1], name); }
  }

  /** All metrics with identifiers of their own are identified by name if and only if
    the names differ and contain no NUL. */
  lemma MetricsIdentifiedIff(ms: seq<Metric>)
    requires forall a, b :: 0 <= a < b < |ms| ==> ms[a].id != ms[b].id
    ensures (forall k :: 0 <= k < |ms| ==> Identified(ms, k)) <==> NamesClean(ms) && !NamesClash(ms)
  {
    if forall k :: 0 <= k < |ms| ==> Identified(ms, k) {
      forall k | 0 <= k < |ms|
        ensures 0 !in ms[k].name
      {
        assert Identified(ms, k);
        KeysAreClean(ms, ms[k].name);
      }
      forall a, b | 0 <= a < b < |ms|
        ensures ms[a].name != ms[b].name
      {
        assert Identified(ms, a) && Identified(ms, b);
      }
    }
    if NamesClean(ms) && !NamesClash(ms) {
      forall k | 0 <= k < |ms|
        ensures Identified(ms, k)
      {
        CleanIsSame(ms[k].name);
        forall a | 0 <= a < k
          ensures Clean(ms[a].name) != Clean(ms[k].name)
        {
          CleanIsSame(ms[a].name);
        }
        MetricFound(ms, k);
      }
    }
  }

  /** The same way for a metric. */
  method TransferMetric(h: Hasher, root: Context, ms: seq<Metric>, k: nat) returns (id: Option<Id>)
    requires |Nodes(root)| < U64 && |ms| < U64 && k < |ms|
    requires NamesClean(ms) && !NamesClash(ms)
    ensures id.Some? <==> AllSeparable(h, Nodes(root))
    ensures id.Some? ==> id.value == ms[k].id
  {
    var bytes: Option<seq<Byte>>;
    ghost var rs;
    bytes, rs := Pack(h, root, ms);
    if bytes.None? {
      return None;
    }
    SizesFit(h, root, rs, ms);
    var unpacker := new IdUnpacker(h, bytes.value, root.id, rs, ms);
    CleanIsSame(ms[k].name);
    forall a | 0 <= a < k
      ensures Clean(ms[a].name) != Clean(ms[k].name)
    {
      CleanIsSame(ms[a].name);
    }
    MetricFound(ms, k);
    var found := unpacker.IdentifyMetric(ms[k].name);
    return Some(found);
  }
}

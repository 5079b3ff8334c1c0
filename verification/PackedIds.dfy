/** `IdPacker` and `IdUnpacker`: the identifiers of all contexts and metrics, packed
  into bytes, sent elsewhere, and looked up there. */
module PackedIds {
  import opened Common
  import opened ByteFormat
  import opened Nonces

  datatype Context = Context(scope: Scope, id: Id, kids: seq<Context>)
  datatype Metric = Metric(name: seq<Byte>, id: Id)

  // ----- The packed form

  function Base(kids: seq<Context>): (cs: seq<Child>)
    ensures |cs| == |kids| && forall k :: 0 <= k < |kids| ==> cs[k] == Child(kids[k].scope, 0, kids[k].id)
  {
    seq(|kids|, k requires 0 <= k < |kids| => Child(kids[k].scope, 0, kids[k].id))
  }

  /** All contexts of a tree, in pre-order. */
  ghost function Nodes(c: Context): seq<Context> {
    [c] + NodesOf(c.kids)
  }

  ghost function NodesOf(cs: seq<Context>): seq<Context> {
    if cs == [] then [] else Nodes(cs[0]) + NodesOf(cs[1..])
  }

  /** What is recorded of one context: its children by hash. */
  datatype Record = Record(id: Id, nonce: Byte, children: seq<Child>)

  /** The record belongs to the context. */
  ghost predicate Describes(h: Hasher, r: Record, c: Context) {
    && r.id == c.id && r.nonce < TRIALS
    && multiset(r.children) == multiset(Rehash(h, r.nonce, Base(c.kids))) && Apart(r.children)
  }

  function ChildBytes(cs: seq<Child>): seq<Byte> {
    if cs == [] then [] else NumberBytes(cs[0].hash) + NumberBytes(cs[0].id) + ChildBytes(cs[1..])
  }

  function RecordBytes(r: Record): seq<Byte> {
    NumberBytes(r.id) + [r.nonce] + NumberBytes(|r.children|) + ChildBytes(r.children)
  }

  function RecordsBytes(rs: seq<Record>): seq<Byte> {
    if rs == [] then [] else RecordBytes(rs[0]) + RecordsBytes(rs[1..])
  }

  function MetricsBytes(ms: seq<Metric>): seq<Byte> {
    if ms == [] then [] else NumberBytes(ms[0].id) + StringBytes(ms[0].name) + MetricsBytes(ms[1..])
  }

  function PackedBytes(globalId: Id, rs: seq<Record>, ms: seq<Metric>): seq<Byte> {
    NumberBytes(globalId) + NumberBytes(|rs|) + RecordsBytes(rs) + NumberBytes(|ms|) + MetricsBytes(ms)
  }

  // ----- Packing

  lemma {:induction false} ChildBytesSnoc(cs: seq<Child>, c: Child)
    ensures ChildBytes(cs + [c]) == ChildBytes(cs) + NumberBytes(c.hash) + NumberBytes(c.id)
  {
    if cs == [] {
      assert cs + [c] == [c];
    } else {
      assert (cs + [c])[1..] == cs[1..] + [c];
      ChildBytesSnoc(cs[1..], c);
    }
  }

  lemma {:induction false} RecordsBytesConcat(a: seq<Record>, b: seq<Record>)
    ensures RecordsBytes(a + b) == RecordsBytes(a) + RecordsBytes(b)
  {
    if a == [] {
      assert a + b == b;
    } else {
      assert (a + b)[1..] == a[1..] + b;
      RecordsBytesConcat(a[1..], b);
    }
  }

  lemma {:induction false} MetricsBytesSnoc(ms: seq<Metric>, m: Metric)
    ensures MetricsBytes(ms + [m]) == MetricsBytes(ms) + NumberBytes(m.id) + StringBytes(m.name)
  {
    if ms == [] {
      assert ms + [m] == [m];
    } else {
      assert (ms + [m])[1..] == ms[1..] + [m];
      MetricsBytesSnoc(ms[1..], m);
    }
  }

  /** The nonces 0 to 19 do not all fail for this context. */
  ghost predicate Separable(h: Hasher, c: Context) {
    exists n: Byte :: n < TRIALS && Separates(h, n, Base(c.kids))
  }

  ghost predicate DescribeAll(h: Hasher, rs: seq<Record>, cs: seq<Context>) {
    |rs| == |cs| && forall k :: 0 <= k < |rs| ==> Describes(h, rs[k], cs[k])
  }

  method PackChildren(ct: seq<Byte>, children: seq<Child>) returns (out: seq<Byte>)
    ensures out == ct + ChildBytes(children)
  {
    out := ct;
    for j := 0 to |children|
      invariant out == ct + ChildBytes(children[..j])
    {
      assert children[..j + 1] == children[..j] + [children[j]];
      ChildBytesSnoc(children[..j], children[j]);
      out := PackNumber(out, children[j].hash);
      out := PackNumber(out, children[j].id);
    }
    assert children[..|children|] == children;
  }

  lemma SameSize(a: seq<Child>, b: seq<Child>)
    requires multiset(a) == multiset(b)
    ensures |a| == |b|
  {
    assert |multiset(a)| == |a| && |multiset(b)| == |b|;
  }

  /** The record of one context. Without a suitable nonce packing fails. */
  method PackContext(ct: seq<Byte>, h: Hasher, c: Context) returns (out: Option<seq<Byte>>, ghost r: Record)
    requires |c.kids| < U64
    ensures out.Some? <==> Separable(h, c)
    ensures out.Some? ==> Describes(h, r, c) && out.value == ct + RecordBytes(r)
  {
    var nonce, children := FindNonce(h, Base(c.kids));
    r := Record(c.id, nonce, children);
    if nonce == NO_NONCE {
      return None, r;
    }
    SameSize(children, Rehash(h, nonce, Base(c.kids)));
    var bytes := PackNumber(ct, c.id);
    bytes := bytes + [nonce];
    bytes := PackNumber(bytes, |children|);
    bytes := PackChildren(bytes, children);
    return Some(bytes), r;
  }

  // ----- Visiting all contexts

  /** `here` is the next child to visit. */
  datatype Frame = Frame(ctx: Context, here: nat)

  ghost predicate FramesOk(stack: seq<Frame>) {
    forall f :: 0 <= f < |stack| ==> stack[f].here <= |stack[f].ctx.kids|
  }

  /** The contexts still to be visited. */
  ghost function Ahead(stack: seq<Frame>): seq<Context>
    requires FramesOk(stack)
  {
    if stack == [] then []
    else
      var top := stack[|stack| - 1];
      NodesOf(top.ctx.kids[top.here..]) + Ahead(stack[..|stack| - 1])
  }

  lemma AheadPush(stack: seq<Frame>, f: Frame)
    requires FramesOk(stack) && f.here <= |f.ctx.kids|
    ensures FramesOk(stack + [f]) && Ahead(stack + [f]) == NodesOf(f.ctx.kids[f.here..]) + Ahead(stack)
  {
  }

  lemma VisitNext(base: seq<Frame>, top: Frame)
    requires FramesOk(base) && top.here < |top.ctx.kids|
    ensures var c := top.ctx.kids[top.here];
            var next := base + [top.(here := top.here + 1)] + [Frame(c, 0)];
            FramesOk(next) && FramesOk(base + [top]) && Ahead(base + [top]) == [c] + Ahead(next)
  {
    var kids, c := top.ctx.kids, top.ctx.kids[top.here];
    var mid := base + [top.(here := top.here + 1)];
    var rest := NodesOf(kids[top.here + 1..]);
    AheadPush(base, top);
    AheadPush(base, top.(here := top.here + 1));
    AheadPush(mid, Frame(c, 0));
    assert c.kids[0..] == c.kids;
    assert kids[top.here..][0] == c && kids[top.here..][1..] == kids[top.here + 1..];
    calc {
      Ahead(base + [top]);
      (([c] + NodesOf(c.kids)) + rest) + Ahead(base);
      { Assoc([c], NodesOf(c.kids), rest); Assoc([c], NodesOf(c.kids) + rest, Ahead(base)); }
      [c] + ((NodesOf(c.kids) + rest) + Ahead(base));
      { Assoc(NodesOf(c.kids), rest, Ahead(base)); }
      [c] + (NodesOf(c.kids) + Ahead(mid));
    }
  }

  lemma VisitPop(base: seq<Frame>, top: Frame)
    requires FramesOk(base) && top.here == |top.ctx.kids|
    ensures FramesOk(base + [top]) && Ahead(base + [top]) == Ahead(base)
  {
  }

  lemma {:induction false} ManyNodes(cs: seq<Context>)
    ensures |NodesOf(cs)| >= |cs|
  {
    if cs != [] { ManyNodes(cs[1..]); }
  }

  lemma {:induction false} NodesInside(cs: seq<Context>, c: Context)
    requires c in NodesOf(cs)
    ensures |Nodes(c)| <= |NodesOf(cs)|
  {
    if c in Nodes(cs[0]) {
      if c != cs[0] { NodesInside(cs[0].kids, c); }
    } else {
      NodesInside(cs[1..], c);
    }
  }

  ghost predicate AllSeparable(h: Hasher, cs: seq<Context>) {
    forall k :: 0 <= k < |cs| ==> Separable(h, cs[k])
  }

  lemma FewKids(root: Context, c: Context)
    requires c in Nodes(root) && |Nodes(root)| < U64
    ensures |c.kids| < U64
  {
    ManyNodes(c.kids);
    if c != root { NodesInside(root.kids, c); }
  }

  lemma RecordsSnoc(h: Hasher, rs: seq<Record>, r: Record, cs: seq<Context>, c: Context)
    requires DescribeAll(h, rs, cs) && Describes(h, r, c)
    ensures DescribeAll(h, rs + [r], cs + [c]) && RecordsBytes(rs + [r]) == RecordsBytes(rs) + RecordBytes(r)
  {
    RecordsBytesConcat(rs, [r]);
    assert RecordsBytes([r]) == RecordBytes(r);
  }

  /** The function called for every context. */
  method Visit(ct: seq<Byte>, h: Hasher, c: Context, ghost start: seq<Byte>, ghost rs: seq<Record>, ghost seen: seq<Context>)
    returns (out: Option<seq<Byte>>, ghost rs': seq<Record>)
    requires |c.kids| < U64 && ct == start + RecordsBytes(rs) && DescribeAll(h, rs, seen)
    ensures out.Some? <==> Separable(h, c)
    ensures out.Some? ==> DescribeAll(h, rs', seen + [c]) && out.value == start + RecordsBytes(rs')
  {
    ghost var r;
    out, r := PackContext(ct, h, c);
    rs' := rs + [r];
    if out.Some? {
      RecordsSnoc(h, rs, r, seen, c);
      Assoc(start, RecordsBytes(rs), RecordBytes(r));
    }
  }

  lemma SeparableSnoc(h: Hasher, seen: seq<Context>, c: Context)
    requires AllSeparable(h, seen)
    ensures AllSeparable(h, seen + [c]) <==> Separable(h, c)
  {
    assert (seen + [c])[|seen|] == c;
  }

  lemma NotSeparable(h: Hasher, all: seq<Context>, k: nat)
    requires k < |all| && !Separable(h, all[k])
    ensures !AllSeparable(h, all)
  {
  }

  /** Visit every context, parents first, with a stack of the contexts whose children
    are being visited. */
  method PackTree(ct: seq<Byte>, h: Hasher, root: Context) returns (out: Option<seq<Byte>>, cnt: nat, ghost rs: seq<Record>)
    requires |Nodes(root)| < U64
    ensures out.Some? <==> AllSeparable(h, Nodes(root))
    ensures out.Some? ==> cnt == |Nodes(root)| && DescribeAll(h, rs, Nodes(root)) && out.value == ct + RecordsBytes(rs)
  {
    FewKids(root, root);
    cnt := 1;
    assert ct + RecordsBytes([]) == ct;
    out, rs := Visit(ct, h, root, ct, [], []);
    if out.None? {
      NotSeparable(h, Nodes(root), 0);
      return;
    }
    ghost var seen := [root];
    assert [] + [root] == seen;
    var stack := [Frame(root, 0)];
    StartAhead(root);
    while stack != []
      invariant FramesOk(stack) && out.Some? && Nodes(root) == seen + Ahead(stack)
      invariant cnt == |seen| && DescribeAll(h, rs, seen) && AllSeparable(h, seen)
      invariant out.value == ct + RecordsBytes(rs)
      decreases |Ahead(stack)|, |stack|
    {
      var top, base := stack[|stack| - 1], stack[..|stack| - 1];
      SplitLast(stack);
      if top.here < |top.ctx.kids| {
        var c := top.ctx.kids[top.here];
        VisitNext(base, top);
        stack := base + [top.(here := top.here + 1)] + [Frame(c, 0)];
        assert Nodes(root)[|seen|] == c;
        FewKids(root, c);
        cnt := cnt + 1;
        out, rs := Visit(out.value, h, c, ct, rs, seen);
        if out.None? {
          NotSeparable(h, Nodes(root), |seen|);
          return;
        }
        SeparableSnoc(h, seen, c);
        Assoc(seen, [c], Ahead(stack));
        seen := seen + [c];
      } else {
        VisitPop(base, top);
        stack := base;
      }
    }
    assert seen == Nodes(root);
  }

  lemma StartAhead(root: Context)
    ensures FramesOk([Frame(root, 0)]) && Nodes(root) == [root] + Ahead([Frame(root, 0)])
  {
  }

  /** Overwrite eight bytes with a number. */
  method Backpatch(ct: seq<Byte>, at: nat, v: nat) returns (out: seq<Byte>)
    requires at + 8 <= |ct| && v < U64
    ensures out == ct[..at] + NumberBytes(v) + ct[at + 8..]
  {
    out := ct;
    var cntv := PackNumber([], v);
    assert cntv == NumberBytes(v);
    for j := 0 to |cntv|
      invariant |out| == |ct| && out == ct[..at] + cntv[..j] + ct[at + j..]
    {
      out := out[at + j := cntv[j]];
    }
  }

  method PackMetrics(ct: seq<Byte>, ms: seq<Metric>) returns (out: seq<Byte>)
    ensures out == ct + MetricsBytes(ms)
  {
    out := ct;
    for k := 0 to |ms|
      invariant out == ct + MetricsBytes(ms[..k])
    {
      assert ms[..k + 1] == ms[..k] + [ms[k]];
      MetricsBytesSnoc(ms[..k], ms[k]);
      out := PackNumber(out, ms[k].id);
      out := PackString(out, ms[k].name);
    }
    assert ms[..|ms|] == ms;
  }

  /** Everything that is sent; packing fails exactly if some context's children cannot
    be told apart. */
  method Pack(h: Hasher, root: Context, ms: seq<Metric>) returns (out: Option<seq<Byte>>, ghost rs: seq<Record>)
    requires |Nodes(root)| < U64 && |ms| < U64
    ensures out.Some? <==> AllSeparable(h, Nodes(root))
    ensures out.Some? ==> DescribeAll(h, rs, Nodes(root)) && out.value == PackedBytes(root.id, rs, ms)
  {
    var ct := PackNumber([], root.id);
    var cntPtr := |ct|;
    ct := PackNumber(ct, 0);
    ghost var head := ct;
    var cnt;
    out, cnt, rs := PackTree(ct, h, root);
    if out.None? {
      return;
    }
    ct := Backpatch(out.value, cntPtr, cnt);
    assert ct == NumberBytes(root.id) + NumberBytes(cnt) + RecordsBytes(rs);
    ct := PackNumber(ct, |ms|);
    ct := PackMetrics(ct, ms);
    out := Some(ct);
  }
}

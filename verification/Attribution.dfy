/** Moving values to the final contexts of reconstructions, and what that adds up to. */
module Attribution {
  import opened Paths
  import opened RealSums
  import opened ExteriorFactors
  import opened Redistribution

  // ----- Moving values to final contexts

  /** What context c receives when final context i receives amount a[i]. */
  ghost function ShareAt(finals: seq<Ctx>, a: seq<real>, c: Ctx): real
    requires |finals| == |a|
  {
    if finals == [] then 0.0
    else
      var n := |finals| - 1;
      ShareAt(finals[..n], a[..n], c) + if finals[n] == c then a[n] else 0.0
  }

  /** The value v split by the factors w. */
  ghost function Times(w: seq<real>, v: real): (a: seq<real>)
    ensures |a| == |w| && forall i :: 0 <= i < |w| ==> a[i] == w[i] * v
  {
    seq(|w|, i requires 0 <= i < |w| => w[i] * v)
  }

  /** Add a value to one context; zeros leave no trace. */
  method Add(outputs: Data, c: Ctx, m: Metric, v: real) returns (outputs': Data)
    ensures forall c', m' :: At(outputs', c', m') == At(outputs, c', m') + if c' == c && m' == m then v else 0.0
    ensures outputs'.Keys == outputs.Keys + if v == 0.0 then {} else {c}
    ensures forall c', m' :: m' in KeysAt(outputs', c') <==> m' in KeysAt(outputs, c') || (v != 0.0 && c' == c && m' == m)
  {
    if v == 0.0 { return outputs; }
    var values := if c in outputs then outputs[c] else map[];
    values := values[m := if m in values then values[m] + v else v];
    return outputs[c := values];
  }

  /** Spread one metric's value over the final contexts. */
  method AttributeMetric(outputs: Data, finals: seq<Ctx>, w: seq<real>, m: Metric, v: real) returns (outputs': Data)
    requires |finals| == |w|
    ensures forall c, m' :: At(outputs', c, m') ==
                            At(outputs, c, m') + if m' == m then ShareAt(finals, Times(w, v), c) else 0.0
  {
    outputs' := outputs;
    ghost var a := Times(w, v);
    assert forall c :: ShareAt(finals[..0], a[..0], c) == 0.0;
    for i := 0 to |finals|
      invariant forall c, m' :: At(outputs', c, m') ==
                                At(outputs, c, m') + if m' == m then ShareAt(finals[..i], a[..i], c) else 0.0
    {
      assert finals[..i + 1][..i] == finals[..i] && a[..i + 1][..i] == a[..i];
      outputs' := Add(outputs', finals[i], m, w[i] * v);
    }
    assert finals[..|finals|] == finals && a[..|a|] == a;
  }

  lemma {:induction false} NothingShared(finals: seq<Ctx>, a: seq<real>, c: Ctx)
    requires |finals| == |a| && forall i :: 0 <= i < |a| ==> a[i] == 0.0
    ensures ShareAt(finals, a, c) == 0.0
  {
    if finals != [] {
      NothingShared(finals[..|finals| - 1], a[..|a| - 1], c);
    }
  }

  /** Spread all metrics, in any order. */
  method Attribute(outputs: Data, finals: seq<Ctx>, w: seq<real>, input: Values) returns (outputs': Data)
    requires |finals| == |w|
    ensures forall c, m :: At(outputs', c, m) == At(outputs, c, m) + ShareAt(finals, Times(w, Val(input, m)), c)
  {
    outputs' := outputs;
    var todo := input.Keys;
    forall c, m | Val(input, m) == 0.0
      ensures ShareAt(finals, Times(w, Val(input, m)), c) == 0.0
    {
      NothingShared(finals, Times(w, Val(input, m)), c);
    }
    while todo != {}
      invariant todo <= input.Keys
      invariant forall c, m :: At(outputs', c, m) ==
                               At(outputs, c, m) + if m in todo then 0.0 else ShareAt(finals, Times(w, Val(input, m)), c)
    {
      var m: Metric :| m in todo;
      todo := todo - {m};
      if input[m] != 0.0 {
        outputs' := AttributeMetric(outputs', finals, w, m, input[m]);
      }
    }
  }

  // ----- A whole flow graph

  function ValueOf(q: Quotient): real {
    if q.Num? then q.value else 0.0
  }

  ghost predicate SameShape(ts: seq<Template>, rows: seq<seq<Quotient>>, inner: seq<real>, rescale: seq<seq<Quotient>>) {
    && |rows| == |rescale| && |inner| == |ts|
    && forall k :: 0 <= k < |rows| ==> |rows[k]| == |rescale[k]| == |ts|
  }

  ghost function ProductRow(row: seq<Quotient>, inner: seq<real>, rescale: seq<Quotient>): (w: seq<real>)
    requires |row| == |inner| == |rescale|
    ensures |w| == |row| && forall i :: 0 <= i < |row| ==> w[i] == ValueOf(row[i]) * inner[i] * ValueOf(rescale[i])
  {
    seq(|row|, i requires 0 <= i < |row| => ValueOf(row[i]) * inner[i] * ValueOf(rescale[i]))
  }

  /** The product of the three factors of every template. */
  method Combine(ex: seq<Quotient>, inner: seq<real>, rescale: seq<Quotient>) returns (w: seq<real>)
    requires |ex| == |inner| == |rescale|
    requires forall i :: 0 <= i < |ex| ==> ex[i].Num? && rescale[i].Num?
    ensures |w| == |ex| && forall i :: 0 <= i < |ex| ==> w[i] == ex[i].value * inner[i] * rescale[i].value
    ensures w == ProductRow(ex, inner, rescale)
  {
    w := [];
    for i := 0 to |ex|
      invariant |w| == i && forall j :: 0 <= j < i ==> w[j] == ex[j].value * inner[j] * rescale[j].value
    {
      w := w + [ex[i].value * inner[i] * rescale[i].value];
    }
    ghost var products := ProductRow(ex, inner, rescale);
    assert forall i :: 0 <= i < |ex| ==> w[i] == products[i];
  }

  /** The products of the three factors, for all templates in all reconstructions. */
  ghost function Products(ts: seq<Template>, rows: seq<seq<Quotient>>, inner: seq<real>, rescale: seq<seq<Quotient>>)
    : (ws: seq<seq<real>>)
    requires SameShape(ts, rows, inner, rescale)
    ensures |ws| == |rows|
    ensures forall k :: 0 <= k < |rows| ==> |ws[k]| == |ts| && ws[k] == ProductRow(rows[k], inner, rescale[k])
  {
    seq(|rows|, k requires 0 <= k < |rows| => ProductRow(rows[k], inner, rescale[k]))
  }

  lemma ProductsAre(ts: seq<Template>, rows: seq<seq<Quotient>>, inner: seq<real>, rescale: seq<seq<Quotient>>, ws: seq<seq<real>>)
    requires SameShape(ts, rows, inner, rescale)
    ensures AreProducts(ts, rows, inner, rescale, ws) ==> ws == Products(ts, rows, inner, rescale)
    ensures AllNumbers(rows) && AllNumbers(rescale) ==> AreProducts(ts, rows, inner, rescale, Products(ts, rows, inner, rescale))
  {
    if AreProducts(ts, rows, inner, rescale, ws) {
      forall k | 0 <= k < |rows|
        ensures ws[k] == ProductRow(rows[k], inner, rescale[k])
      {
        var w := ProductRow(rows[k], inner, rescale[k]);
        assert forall i :: 0 <= i < |ts| ==> ws[k][i] == w[i];
      }
    }
  }

  ghost predicate AreProducts(ts: seq<Template>, rows: seq<seq<Quotient>>, inner: seq<real>,
                              rescale: seq<seq<Quotient>>, ws: seq<seq<real>>)
  {
    && |ws| == |rows| == |rescale| && |inner| == |ts|
    && (forall k :: 0 <= k < |rows| ==> |ws[k]| == |rows[k]| == |rescale[k]| == |ts|)
    && (forall k, i :: 0 <= k < |rows| && 0 <= i < |ts| ==>
                         && rows[k][i].Num? && rescale[k][i].Num?
                         && ws[k][i] == rows[k][i].value * inner[i] * rescale[k][i].value)
  }

  ghost predicate Shaped(ts: seq<Template>, rs: seq<Reconstruction>, ws: seq<seq<real>>) {
    AllInstantiated(ts, rs) && |ws| == |rs| && forall k :: 0 <= k < |rs| ==> |ws[k]| == |ts|
  }

  /** What context c receives of the value v, over all reconstructions. */
  ghost function Received(ts: seq<Template>, rs: seq<Reconstruction>, ws: seq<seq<real>>, v: real, c: Ctx): real
    requires Shaped(ts, rs, ws)
  {
    if rs == [] then 0.0
    else
      var n := |rs| - 1;
      Received(ts, rs[..n], ws[..n], v, c) + ShareAt(rs[n].finals, Times(ws[n], v), c)
  }

  /** Re-attribute a flow graph's input values, reconstruction by reconstruction.
    Every context gets, metric by metric, the input times the factors of the
    templates that end in it. */
  method AttributeFlow(outputs: Data, ts: seq<Template>, rs: seq<Reconstruction>, rows: seq<seq<Quotient>>,
                       inner: seq<real>, rescale: seq<seq<Quotient>>, input: Values)
    returns (outputs': Data, ws: seq<seq<real>>)
    requires AllInstantiated(ts, rs) && |inner| == |ts| && |rows| == |rescale| == |rs|
    requires forall k :: 0 <= k < |rs| ==> |rows[k]| == |rescale[k]| == |ts|
    requires AllNumbers(rows) && AllNumbers(rescale)
    ensures Shaped(ts, rs, ws) && AreProducts(ts, rows, inner, rescale, ws)
    ensures forall c, m :: At(outputs', c, m) == At(outputs, c, m) + Received(ts, rs, ws, Val(input, m), c)
  {
    outputs', ws := outputs, [];
    for k := 0 to |rs|
      invariant |ws| == k && forall j :: 0 <= j < k ==> |ws[j]| == |ts| && ws[j] == ProductRow(rows[j], inner, rescale[j])
      invariant forall c, m :: At(outputs', c, m) == At(outputs, c, m) + Received(ts, rs[..k], ws, Val(input, m), c)
    {
      var w := Combine(rows[k], inner, rescale[k]);
      assert rs[..k + 1][..k] == rs[..k] && (ws + [w])[..k] == ws;
      ws := ws + [w];
      outputs' := Attribute(outputs', rs[k].finals, w, input);
    }
    assert rs[..|rs|] == rs;
    assert ws == Products(ts, rows, inner, rescale);
    ProductsAre(ts, rows, inner, rescale, ws);
  }

  // ----- Nothing is created or lost

  ghost function ShareBy(finals: seq<Ctx>, a: seq<real>): Ctx -> real
    requires |finals| == |a|
  {
    (c: Ctx) => ShareAt(finals, a, c)
  }

  lemma {:induction false} SharesAddUp(cs: set<Ctx>, finals: seq<Ctx>, a: seq<real>)
    requires |finals| == |a| && forall i :: 0 <= i < |finals| ==> finals[i] in cs
    ensures SumOver<nat>(cs, ShareBy(finals, a)) == Sum(a)
  {
    if finals == [] {
      SumOverZero<nat>(cs, ShareBy(finals, a));
    } else {
      var n := |finals| - 1;
      SharesAddUp(cs, finals[..n], a[..n]);
      SumOverBump<nat>(cs, ShareBy(finals[..n], a[..n]), ShareBy(finals, a), finals[n], a[n]);
    }
  }

  ghost function ReceivedBy(ts: seq<Template>, rs: seq<Reconstruction>, ws: seq<seq<real>>, v: real): Ctx -> real
    requires Shaped(ts, rs, ws)
  {
    (c: Ctx) => Received(ts, rs, ws, v, c)
  }

  ghost function RowSums(ws: seq<seq<real>>): real {
    if ws == [] then 0.0 else RowSums(ws[..|ws| - 1]) + Sum(ws[|ws| - 1])
  }

  lemma TimesPrefix(w: seq<real>, v: real, n: nat)
    requires n <= |w|
    ensures Times(w, v)[..n] == Times(w[..n], v)
  {
    forall i | 0 <= i < n
      ensures Times(w, v)[..n][i] == Times(w[..n], v)[i]
    {
      assert w[..n][i] == w[i];
    }
  }

  lemma {:induction false} SumTimes(w: seq<real>, v: real)
    ensures Sum(Times(w, v)) == v * Sum(w)
  {
    if w != [] {
      var n := |w| - 1;
      TimesPrefix(w, v, n);
      SumTimes(w[..n], v);
      Distribute(v, Sum(w[..n]), w[n], Sum(w));
    }
  }

  ghost function AmountSums(ws: seq<seq<real>>, v: real): real {
    if ws == [] then 0.0 else AmountSums(ws[..|ws| - 1], v) + Sum(Times(ws[|ws| - 1], v))
  }

  ghost predicate ScalesRow(f: real -> real, w: seq<real>, v: real) {
    Sum(Times(w, v)) == f(Sum(w))
  }

  /** What is additive and right for each row is right for all. */
  lemma {:induction false} AmountsBy(ws: seq<seq<real>>, v: real, f: real -> real)
    requires f(0.0) == 0.0 && (forall a, b :: Adds(f, a, b)) && forall w :: ScalesRow(f, w, v)
    ensures AmountSums(ws, v) == f(RowSums(ws))
  {
    if ws != [] {
      var n := |ws| - 1;
      AmountsBy(ws[..n], v, f);
      assert Adds(f, RowSums(ws[..n]), Sum(ws[n])) && ScalesRow(f, ws[n], v);
    }
  }

  lemma RowScales(w: seq<real>, v: real)
    ensures ScalesRow(By(v), w, v)
  {
    SumTimes(w, v);
  }

  lemma AmountsScale(ws: seq<seq<real>>, v: real)
    ensures AmountSums(ws, v) == By(v)(RowSums(ws))
  {
    ByAdds(v);
    forall w
      ensures ScalesRow(By(v), w, v)
    {
      RowScales(w, v);
    }
    AmountsBy(ws, v, By(v));
  }

  lemma {:induction false} ReceivedAddsUp(cs: set<Ctx>, ts: seq<Template>, rs: seq<Reconstruction>, ws: seq<seq<real>>, v: real)
    requires Shaped(ts, rs, ws)
    requires forall k, i :: 0 <= k < |rs| && 0 <= i < |ts| ==> rs[k].finals[i] in cs
    ensures SumOver<nat>(cs, ReceivedBy(ts, rs, ws, v)) == AmountSums(ws, v)
  {
    if rs == [] {
      SumOverZero<nat>(cs, ReceivedBy(ts, rs, ws, v));
    } else {
      var n := |rs| - 1;
      ReceivedAddsUp(cs, ts, rs[..n], ws[..n], v);
      SharesAddUp(cs, rs[n].finals, Times(ws[n], v));
      SumOverPlus<nat>(cs, ReceivedBy(ts, rs[..n], ws[..n], v), ShareBy(rs[n].finals, Times(ws[n], v)), ReceivedBy(ts, rs, ws, v));
    }
  }

  /** All contexts together receive the value times the sum of all factors. */
  lemma ReceivedTotal(cs: set<Ctx>, ts: seq<Template>, rs: seq<Reconstruction>, ws: seq<seq<real>>, v: real)
    requires Shaped(ts, rs, ws)
    requires forall k, i :: 0 <= k < |rs| && 0 <= i < |ts| ==> rs[k].finals[i] in cs
    ensures SumOver<nat>(cs, ReceivedBy(ts, rs, ws, v)) == By(v)(RowSums(ws))
  {
    ReceivedAddsUp(cs, ts, rs, ws, v);
    AmountsScale(ws, v);
  }

  lemma {:induction false} ProductsAreDot(nums: seq<real>, inner: seq<real>, w: seq<real>)
    requires |w| == |nums| == |inner| && forall i :: 0 <= i < |w| ==> w[i] == nums[i] * inner[i]
    ensures Sum(w) == Dot(nums, inner)
  {
    if w != [] {
      var n := |w| - 1;
      ProductsAreDot(nums[..n], inner[..n], w[..n]);
    }
  }

  lemma {:induction false} ProductsAreTable(nums: seq<seq<real>>, inner: seq<real>, ws: seq<seq<real>>)
    requires |ws| == |nums| && forall k :: 0 <= k < |ws| ==> |ws[k]| == |nums[k]| == |inner|
    requires forall k, i :: 0 <= k < |ws| && 0 <= i < |inner| ==> ws[k][i] == nums[k][i] * inner[i]
    ensures RowSums(ws) == Table(nums, inner)
  {
    if ws != [] {
      var n := |ws| - 1;
      ProductsAreTable(nums[..n], inner, ws[..n]);
      ProductsAreDot(nums[n], inner, ws[n]);
    }
  }

  /** Every template either received no exterior share or keeps it (factor 1). */
  ghost predicate NotRescaled(ts: seq<Template>, rows: seq<seq<Quotient>>, rescale: seq<seq<Quotient>>)
    requires |rows| == |rescale| && forall k :: 0 <= k < |rows| ==> |rows[k]| == |rescale[k]| == |ts|
  {
    forall k, i :: 0 <= k < |rows| && 0 <= i < |ts| ==> rows[k][i] == Num(0.0) || rescale[k][i] == Num(1.0)
  }

  lemma ProductsWithoutRescale(ts: seq<Template>, rows: seq<seq<Quotient>>, inner: seq<real>,
                               rescale: seq<seq<Quotient>>, ws: seq<seq<real>>)
    requires AreProducts(ts, rows, inner, rescale, ws) && AllNumbers(rows) && NotRescaled(ts, rows, rescale)
    ensures forall k, i :: 0 <= k < |ws| && 0 <= i < |inner| ==> ws[k][i] == NumberRows(rows)[k][i] * inner[i]
  {
    forall k, i | 0 <= k < |ws| && 0 <= i < |inner|
      ensures ws[k][i] == NumberRows(rows)[k][i] * inner[i]
    {
      var a, b, c := rows[k][i].value, inner[i], rescale[k][i].value;
      assert NumberRows(rows)[k][i] == a;
      assert a * b * c == a * b;
    }
  }

  ghost function MetricOf(data: Data, m: Metric): Ctx -> real {
    (c: Ctx) => At(data, c, m)
  }

  /** The products add up to all of the value or to nothing, as the factors do. */
  lemma ProductAmounts(ts: seq<Template>, rows: seq<seq<Quotient>>, inner: seq<real>,
                       rescale: seq<seq<Quotient>>, ws: seq<seq<real>>, v: real)
    requires AreProducts(ts, rows, inner, rescale, ws) && AllNumbers(rows) && NotRescaled(ts, rows, rescale)
    requires Table(NumberRows(rows), inner) == 1.0 || Table(NumberRows(rows), inner) == 0.0
    ensures AmountSums(ws, v) == if Table(NumberRows(rows), inner) == 1.0 then v else 0.0
  {
    ProductsWithoutRescale(ts, rows, inner, rescale, ws);
    ProductsAreTable(NumberRows(rows), inner, ws);
    AmountsScale(ws, v);
  }

  /** What the contexts receive of a flow graph's value is all of it or nothing, when the
    factors sum to one or to zero and no entered template is rescaled. */
  lemma ProductsConserve(cs: set<Ctx>, ts: seq<Template>, rs: seq<Reconstruction>, rows: seq<seq<Quotient>>,
                         inner: seq<real>, rescale: seq<seq<Quotient>>, ws: seq<seq<real>>, v: real)
    requires Shaped(ts, rs, ws) && AreProducts(ts, rows, inner, rescale, ws) && AllNumbers(rows)
    requires forall k, i :: 0 <= k < |rs| && 0 <= i < |ts| ==> rs[k].finals[i] in cs
    requires NotRescaled(ts, rows, rescale)
    requires Table(NumberRows(rows), inner) == 1.0 || Table(NumberRows(rows), inner) == 0.0
    ensures SumOver<nat>(cs, ReceivedBy(ts, rs, ws, v)) == if Table(NumberRows(rows), inner) == 1.0 then v else 0.0
  {
    ProductAmounts(ts, rows, inner, rescale, ws, v);
    ReceivedAddsUp(cs, ts, rs, ws, v);
  }

  lemma {:induction false} ShareOutside(finals: seq<Ctx>, a: seq<real>, c: Ctx)
    requires |finals| == |a| && c !in finals
    ensures ShareAt(finals, a, c) == 0.0
  {
    if finals != [] { ShareOutside(finals[..|finals| - 1], a[..|a| - 1], c); }
  }

  /** Only final contexts receive anything. */
  lemma {:induction false} ReceivedOutside(ts: seq<Template>, rs: seq<Reconstruction>, ws: seq<seq<real>>, v: real, c: Ctx)
    requires Shaped(ts, rs, ws) && forall k :: 0 <= k < |rs| ==> c !in rs[k].finals
    ensures Received(ts, rs, ws, v, c) == 0.0
  {
    if rs != [] {
      var n := |rs| - 1;
      ReceivedOutside(ts, rs[..n], ws[..n], v, c);
      ShareOutside(rs[n].finals, Times(ws[n], v), c);
    }
  }
}

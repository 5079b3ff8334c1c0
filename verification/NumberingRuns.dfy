/** Finalizing tuple after tuple on rank 0: which numbers the elements get, by the values of
  their kinds and of the elements before them. */
module NumberingRuns {
  import opened ThreadIds
  import opened Numbering
  import Protocol = NumberingProtocol

  /** The two elements are numbered together: global ones if they have the same kind, local
    ones if moreover the same elements come before them. */
  ghost predicate SameScope(a: seq<PmsId>, i: nat, b: seq<PmsId>, j: nat)
    requires i < |a| && j < |b|
  {
    && a[i].kind == b[j].kind
    && (0x8000 <= a[i].kind < 0xC000
        || (0x4000 <= a[i].kind < 0x8000 && i == j && SamePrefix(a, b, i)))
  }

  ghost predicate SamePrefix(a: seq<PmsId>, b: seq<PmsId>, n: nat)
    requires n <= |a| && n <= |b|
  {
    forall k :: 0 <= k < n ==> a[k].kind % 0x4000 == b[k].kind % 0x4000 && a[k].physical == b[k].physical
  }

  /** Element j of tuple q is finalized before element i of tuple p. */
  ghost predicate Earlier(q: nat, j: nat, p: nat, i: nat) {
    q < p || (q == p && j < i)
  }

  ghost predicate IsElement(tuples: seq<seq<PmsId>>, p: nat, i: nat) {
    p < |tuples| && i < |tuples[p]|
  }

  ghost predicate SameShape(tuples: seq<seq<PmsId>>, results: seq<seq<PmsId>>) {
    |results| == |tuples| && forall p :: 0 <= p < |tuples| ==> |results[p]| == |tuples[p]|
  }

  /** Only local and global elements change: they get a number and lose their mark. */
  ghost predicate ChangesOnly(id: PmsId, id': PmsId) {
    if 0x4000 <= id.kind < 0xC000 then id' == PmsId(id.kind % 0x4000, id.physical, id'.logical) else id' == id
  }

  /** Elements numbered together have the same number exactly if they have the same
    physical index. */
  ghost predicate TellsApart(tuples: seq<seq<PmsId>>, results: seq<seq<PmsId>>, p: nat, i: nat, q: nat, j: nat)
    requires SameShape(tuples, results) && IsElement(tuples, p, i) && IsElement(tuples, q, j)
  {
    SameScope(tuples[p], i, tuples[q], j) ==>
      (results[p][i].logical == results[q][j].logical <==> tuples[p][i].physical == tuples[q][j].physical)
  }

  /** Number v was given earlier to an element numbered together with this one. */
  ghost predicate GivenBefore(tuples: seq<seq<PmsId>>, results: seq<seq<PmsId>>, p: nat, i: nat, v: nat)
    requires SameShape(tuples, results) && IsElement(tuples, p, i)
  {
    exists q: nat, j: nat :: IsElement(tuples, q, j) && Earlier(q, j, p, i)
                   && SameScope(tuples[q], j, tuples[p], i) && results[q][j].logical == v
  }

  /** Numbers are given in the order in which indices appear: all smaller ones are taken. */
  ghost predicate InTurn(tuples: seq<seq<PmsId>>, results: seq<seq<PmsId>>, p: nat, i: nat)
    requires SameShape(tuples, results) && IsElement(tuples, p, i)
  {
    0x4000 <= tuples[p][i].kind < 0xC000 ==> forall v: nat :: v < results[p][i].logical ==> GivenBefore(tuples, results, p, i, v)
  }

  ghost predicate Lawful(tuples: seq<seq<PmsId>>, results: seq<seq<PmsId>>) {
    && SameShape(tuples, results)
    && (forall p: nat, i: nat :: IsElement(tuples, p, i) ==>
          ChangesOnly(tuples[p][i], results[p][i]) && InTurn(tuples, results, p, i))
    && (forall p: nat, i: nat, q: nat, j: nat :: IsElement(tuples, p, i) && IsElement(tuples, q, j) ==> TellsApart(tuples, results, p, i, q, j))
  }

  /** The first element of its scope gets 0. */
  lemma FirstGetsZero(tuples: seq<seq<PmsId>>, results: seq<seq<PmsId>>, p: nat, i: nat)
    requires Lawful(tuples, results) && IsElement(tuples, p, i) && 0x4000 <= tuples[p][i].kind < 0xC000
    requires forall q: nat, j: nat :: IsElement(tuples, q, j) && Earlier(q, j, p, i) ==> !SameScope(tuples[q], j, tuples[p], i)
    ensures results[p][i].logical == 0
  {
    assert InTurn(tuples, results, p, i);
    assert !GivenBefore(tuples, results, p, i, 0);
  }

  // ----- Scopes are keys

  lemma NeedsByRange(id: PmsId)
    ensures NeedsNumber(id) <==> 0x4000 <= id.kind < 0xC000
    ensures InterpretOf(id.kind) == LogicLocal <==> 0x4000 <= id.kind < 0x8000
  {
  }

  lemma PrefixIsPlaces(a: seq<PmsId>, b: seq<PmsId>, i: nat, j: nat)
    requires i <= |a| && j <= |b|
    ensures Places(a[..i]) == Places(b[..j]) <==> i == j && SamePrefix(a, b, i)
  {
    var ps, qs := Places(a[..i]), Places(b[..j]);
    assert forall k :: 0 <= k < i ==> ps[k] == PlaceOf(a[k]);
    assert forall k :: 0 <= k < j ==> qs[k] == PlaceOf(b[k]);
    if ps == qs {
      assert |ps| == |qs|;
      forall k | 0 <= k < i
        ensures a[k].kind % 0x4000 == b[k].kind % 0x4000 && a[k].physical == b[k].physical
      {
        assert ps[k] == qs[k];
      }
    }
  }

  lemma ScopeIsKey(a: seq<PmsId>, i: nat, b: seq<PmsId>, j: nat)
    requires i < |a| && j < |b| && NeedsNumber(a[i]) && NeedsNumber(b[j])
    ensures SameScope(a, i, b, j) <==> KeyFor(a, i) == KeyFor(b, j)
  {
    KeysTellApart(a, i, b, j);
    PrefixIsPlaces(a, b, i, j);
    NeedsByRange(a[i]);
  }

  // ----- Runs

  /** The numberings after the first p tuples. */
  ghost function AfterTuples(tuples: seq<seq<PmsId>>, p: nat): Tables
    requires p <= |tuples|
  {
    if p == 0 then map[] else After(AfterTuples(tuples, p - 1), tuples[p - 1], |tuples[p - 1]|)
  }

  /** The numberings just before element i of tuple p is finalized. */
  ghost function Before(tuples: seq<seq<PmsId>>, p: nat, i: nat): Tables
    requires p < |tuples| && i <= |tuples[p]|
  {
    After(AfterTuples(tuples, p), tuples[p], i)
  }

  lemma {:induction false} AfterExtends(t: Tables, tuple: seq<PmsId>, n: nat)
    requires AllDense(t) && n <= |tuple|
    ensures AllDense(After(t, tuple, n)) && Extends(t, After(t, tuple, n))
  {
    if n > 0 {
      AfterExtends(t, tuple, n - 1);
      var before := After(t, tuple, n - 1);
      if NeedsNumber(tuple[n - 1]) {
        NumberedExtends(before, KeyFor(tuple, n - 1), tuple[n - 1].physical);
        ExtendsTransitive(t, before, After(t, tuple, n));
      }
    }
  }

  lemma {:induction false} AfterTuplesDense(tuples: seq<seq<PmsId>>, p: nat)
    requires p <= |tuples|
    ensures AllDense(AfterTuples(tuples, p))
  {
    if p > 0 {
      AfterTuplesDense(tuples, p - 1);
      AfterExtends(AfterTuples(tuples, p - 1), tuples[p - 1], |tuples[p - 1]|);
    }
  }

  lemma {:induction false} AfterSplits(t: Tables, tuple: seq<PmsId>, n: nat, k: nat)
    requires AllDense(t) && n <= k <= |tuple|
    ensures Extends(After(t, tuple, n), After(t, tuple, k))
    decreases k
  {
    if n < k {
      AfterSplits(t, tuple, n, k - 1);
      AfterExtends(t, tuple, k - 1);
      var before := After(t, tuple, k - 1);
      if NeedsNumber(tuple[k - 1]) {
        NumberedExtends(before, KeyFor(tuple, k - 1), tuple[k - 1].physical);
        ExtendsTransitive(After(t, tuple, n), before, After(t, tuple, k));
      }
    }
  }

  lemma {:induction false} TuplesExtend(tuples: seq<seq<PmsId>>, p: nat, n: nat)
    requires p <= n <= |tuples|
    ensures Extends(AfterTuples(tuples, p), AfterTuples(tuples, n))
    decreases n
  {
    if p < n {
      TuplesExtend(tuples, p, n - 1);
      AfterTuplesDense(tuples, n - 1);
      AfterExtends(AfterTuples(tuples, n - 1), tuples[n - 1], |tuples[n - 1]|);
      ExtendsTransitive(AfterTuples(tuples, p), AfterTuples(tuples, n - 1), AfterTuples(tuples, n));
    }
  }

  /** What is numbered at some point stays so until the end. */
  lemma BeforeExtends(tuples: seq<seq<PmsId>>, p: nat, i: nat)
    requires p < |tuples| && i <= |tuples[p]|
    ensures AllDense(Before(tuples, p, i)) && Extends(Before(tuples, p, i), AfterTuples(tuples, |tuples|))
  {
    AfterTuplesDense(tuples, p);
    AfterExtends(AfterTuples(tuples, p), tuples[p], i);
    AfterSplits(AfterTuples(tuples, p), tuples[p], i, |tuples[p]|);
    TuplesExtend(tuples, p + 1, |tuples|);
    ExtendsTransitive(Before(tuples, p, i), AfterTuples(tuples, p + 1), AfterTuples(tuples, |tuples|));
  }

  ghost predicate Asks(tuples: seq<seq<PmsId>>, q: nat, j: nat, key: Key, y: nat) {
    IsElement(tuples, q, j) && NeedsNumber(tuples[q][j]) && KeyFor(tuples[q], j) == key && tuples[q][j].physical == y
  }

  /** Every index in a table was asked for by an earlier element. */
  lemma {:induction false} AskedBefore(tuples: seq<seq<PmsId>>, p: nat, i: nat, key: Key, y: nat) returns (q: nat, j: nat)
    requires p < |tuples| && i <= |tuples[p]|
    requires key in Before(tuples, p, i) && y in Before(tuples, p, i)[key]
    ensures Earlier(q, j, p, i) && Asks(tuples, q, j, key, y)
    decreases p, i
  {
    if i == 0 {
      q, j := AskedBefore(tuples, p - 1, |tuples[p - 1]|, key, y);
    } else {
      var t := Before(tuples, p, i - 1);
      if key in t && y in t[key] {
        q, j := AskedBefore(tuples, p, i - 1, key, y);
      } else {
        q, j := p, i - 1;
      }
    }
  }

  /** All elements have the numbers of the last tables. */
  ghost predicate AllNumbered(tuples: seq<seq<PmsId>>, results: seq<seq<PmsId>>, t: Tables) {
    |results| == |tuples| && forall p :: 0 <= p < |tuples| ==> IsFinalized(t, tuples[p], results[p])
  }

  lemma NumberIsHad(tuples: seq<seq<PmsId>>, results: seq<seq<PmsId>>, t: Tables, p: nat, i: nat)
    requires AllNumbered(tuples, results, t) && IsElement(tuples, p, i)
    ensures i < |results[p]| && ChangesOnly(tuples[p][i], results[p][i])
    ensures NeedsNumber(tuples[p][i]) ==> Has(t, KeyFor(tuples[p], i), tuples[p][i].physical, results[p][i].logical)
  {
    assert IsFinalized(t, tuples[p], results[p]);
    assert ElementDone(t, tuples[p], i, results[p][i]);
    NeedsByRange(tuples[p][i]);
  }

  lemma ShapeIsSame(tuples: seq<seq<PmsId>>, results: seq<seq<PmsId>>, t: Tables)
    requires AllNumbered(tuples, results, t)
    ensures SameShape(tuples, results)
  {
    forall p | 0 <= p < |tuples|
      ensures |results[p]| == |tuples[p]|
    {
      assert IsFinalized(t, tuples[p], results[p]);
    }
  }

  lemma NumbersTellApart(tuples: seq<seq<PmsId>>, results: seq<seq<PmsId>>, t: Tables, p: nat, i: nat, q: nat, j: nat)
    requires AllNumbered(tuples, results, t) && SameShape(tuples, results) && AllDense(t)
    requires IsElement(tuples, p, i) && IsElement(tuples, q, j)
    ensures TellsApart(tuples, results, p, i, q, j)
  {
    if SameScope(tuples[p], i, tuples[q], j) {
      NeedsByRange(tuples[p][i]);
      NeedsByRange(tuples[q][j]);
      ScopeIsKey(tuples[p], i, tuples[q], j);
      NumberIsHad(tuples, results, t, p, i);
      NumberIsHad(tuples, results, t, q, j);
      assert Dense(t[KeyFor(tuples[p], i)]);
    }
  }

  /** A number below that of element i was in the table before. */
  lemma SmallerIsThere(t: Tables, tuple: seq<PmsId>, i: nat, v: nat) returns (y: nat)
    requires AllDense(t) && i < |tuple| && NeedsNumber(tuple[i])
    requires v < AfterElement(t, tuple, i)[KeyFor(tuple, i)][tuple[i].physical]
    ensures Has(t, KeyFor(tuple, i), y, v)
  {
    var m := TableOf(t, KeyFor(tuple, i));
    assert v < |m|;
    assert Dense(m) && Numbers(m, v);
    y :| y in m && m[y] == v;
  }

  /** An element keeps the number it got. */
  lemma NumberWhenFinalized(tuples: seq<seq<PmsId>>, results: seq<seq<PmsId>>, p: nat, i: nat)
    requires AllNumbered(tuples, results, AfterTuples(tuples, |tuples|)) && SameShape(tuples, results)
    requires IsElement(tuples, p, i) && NeedsNumber(tuples[p][i])
    ensures AfterElement(Before(tuples, p, i), tuples[p], i)[KeyFor(tuples[p], i)][tuples[p][i].physical] == results[p][i].logical
  {
    BeforeExtends(tuples, p, i + 1);
    NumberIsHad(tuples, results, AfterTuples(tuples, |tuples|), p, i);
    var t := Before(tuples, p, i + 1);
    assert t == AfterElement(Before(tuples, p, i), tuples[p], i);
    assert Has(AfterTuples(tuples, |tuples|), KeyFor(tuples[p], i), tuples[p][i].physical, t[KeyFor(tuples[p], i)][tuples[p][i].physical]);
  }

  lemma NumberComesInTurn(tuples: seq<seq<PmsId>>, results: seq<seq<PmsId>>, p: nat, i: nat, v: nat)
    requires AllNumbered(tuples, results, AfterTuples(tuples, |tuples|)) && SameShape(tuples, results)
    requires IsElement(tuples, p, i) && NeedsNumber(tuples[p][i]) && v < results[p][i].logical
    ensures GivenBefore(tuples, results, p, i, v)
  {
    var t, last, key := Before(tuples, p, i), AfterTuples(tuples, |tuples|), KeyFor(tuples[p], i);
    BeforeExtends(tuples, p, i);
    NumberWhenFinalized(tuples, results, p, i);
    var y := SmallerIsThere(t, tuples[p], i, v);
    var q, j := AskedBefore(tuples, p, i, key, y);
    assert Has(last, key, y, t[key][y]);
    AskerHasNumber(tuples, results, p, i, q, j, y, v);
  }

  lemma AskerHasNumber(tuples: seq<seq<PmsId>>, results: seq<seq<PmsId>>, p: nat, i: nat, q: nat, j: nat, y: nat, v: nat)
    requires AllNumbered(tuples, results, AfterTuples(tuples, |tuples|)) && SameShape(tuples, results)
    requires IsElement(tuples, p, i) && NeedsNumber(tuples[p][i])
    requires Earlier(q, j, p, i) && Asks(tuples, q, j, KeyFor(tuples[p], i), y)
    requires Has(AfterTuples(tuples, |tuples|), KeyFor(tuples[p], i), y, v)
    ensures GivenBefore(tuples, results, p, i, v)
  {
    NumberIsHad(tuples, results, AfterTuples(tuples, |tuples|), q, j);
    ScopeIsKey(tuples[q], j, tuples[p], i);
    assert SameScope(tuples[q], j, tuples[p], i) && results[q][j].logical == v;
  }

  lemma ElementIsLawful(tuples: seq<seq<PmsId>>, results: seq<seq<PmsId>>, p: nat, i: nat)
    requires AllNumbered(tuples, results, AfterTuples(tuples, |tuples|)) && SameShape(tuples, results)
    requires IsElement(tuples, p, i)
    ensures ChangesOnly(tuples[p][i], results[p][i]) && InTurn(tuples, results, p, i)
  {
    NumberIsHad(tuples, results, AfterTuples(tuples, |tuples|), p, i);
    NeedsByRange(tuples[p][i]);
    forall v: nat | NeedsNumber(tuples[p][i]) && v < results[p][i].logical
      ensures GivenBefore(tuples, results, p, i, v)
    {
      NumberComesInTurn(tuples, results, p, i, v);
    }
  }

  /** Whatever is finalized in turn from empty tables is numbered by the law. */
  lemma RunIsLawful(tuples: seq<seq<PmsId>>, results: seq<seq<PmsId>>)
    requires AllNumbered(tuples, results, AfterTuples(tuples, |tuples|))
    ensures Lawful(tuples, results)
  {
    var t := AfterTuples(tuples, |tuples|);
    AfterTuplesDense(tuples, |tuples|);
    ShapeIsSame(tuples, results, t);
    forall p: nat, i: nat | IsElement(tuples, p, i)
      ensures ChangesOnly(tuples[p][i], results[p][i]) && InTurn(tuples, results, p, i)
    {
      ElementIsLawful(tuples, results, p, i);
    }
    forall p: nat, i: nat, q: nat, j: nat | IsElement(tuples, p, i) && IsElement(tuples, q, j)
      ensures TellsApart(tuples, results, p, i, q, j)
    {
      NumbersTellApart(tuples, results, t, p, i, q, j);
    }
  }

  lemma FinalizedStays(t: Tables, t': Tables, before: seq<PmsId>, after: seq<PmsId>)
    requires IsFinalized(t, before, after) && Extends(t, t')
    ensures IsFinalized(t', before, after)
  {
    forall i | 0 <= i < |before|
      ensures ElementDone(t', before, i, after[i])
    {
      assert ElementDone(t, before, i, after[i]);
    }
  }

  /** Finalize the tuples of all threads on rank 0, one after the other. */
  method FinalizeAll(tuples: seq<seq<PmsId>>) returns (results: seq<seq<PmsId>>)
    ensures Lawful(tuples, results)
  {
    results := [];
    var state := new FinalizeState();
    for p := 0 to |tuples|
      invariant state.Valid() && fresh(state) && state.tables == AfterTuples(tuples, p)
      invariant |results| == p && forall q :: 0 <= q < p ==> IsFinalized(state.tables, tuples[q], results[q])
    {
      ghost var t := state.tables;
      var ids := state.Finalize(tuples[p]);
      forall q | 0 <= q < p
        ensures IsFinalized(state.tables, tuples[q], results[q])
      {
        FinalizedStays(t, state.tables, tuples[q], results[q]);
      }
      results := results + [ids];
    }
    RunIsLawful(tuples, results);
  }

  // ----- Elements of other ranks

  /** Every element that needs a number can be asked for by an idle rank, at any time. */
  lemma ElementCanBeAsked(s: Protocol.State, r: nat, ids: seq<PmsId>, i: nat)
    requires Protocol.Shape(s) && r < |s.clients| && s.clients[r] == Protocol.Idle
    requires i < |ids| && 0x4000 <= ids[i].kind < 0xC000
    ensures Protocol.Enabled(s, Protocol.Begin(r, KeyFor(ids, i), ids[i].physical))
    ensures Protocol.Enabled(s, Protocol.Own(KeyFor(ids, i), ids[i].physical))
  {
  }

  /** The answer was given for element i of the tuple. */
  ghost predicate AnswersElement(a: Protocol.Answer, ids: seq<PmsId>, i: nat) {
    i < |ids| && 0x4000 <= ids[i].kind < 0xC000 && a.key == KeyFor(ids, i) && a.x == ids[i].physical
  }

  /** In every interleaving, whichever ranks ask: elements numbered together get equal answers
    exactly if they have the same physical index. */
  lemma ElementsAnswered(ranks: nat, states: seq<Protocol.State>, actions: seq<Protocol.Action>, k: nat, a: nat, b: nat,
                         ids: seq<PmsId>, i: nat, ids': seq<PmsId>, j: nat)
    requires Protocol.Run(ranks, states, actions) && k < |states|
    requires a < |states[k].answers| && b < |states[k].answers|
    requires AnswersElement(states[k].answers[a], ids, i) && AnswersElement(states[k].answers[b], ids', j)
    requires SameScope(ids, i, ids', j)
    ensures states[k].answers[a].v == states[k].answers[b].v <==> ids[i].physical == ids'[j].physical
  {
    NeedsByRange(ids[i]);
    NeedsByRange(ids'[j]);
    ScopeIsKey(ids, i, ids', j);
    Protocol.EqualAnswersIff(ranks, states, actions, k, a, b);
  }
}

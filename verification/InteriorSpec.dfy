/** What the interior factors mean: for every template the product, from the
  innermost call outwards, of the share its call has among the calls that could
  have been made at that point. The definition looks at one template at a time;
  `InteriorFactors` computes the same numbers by splitting sorted ranges. */
module InteriorSpec {
  import opened Paths
  import opened RealSums

  /** Frozen template paths, which of them were entered at all, and the rule that
    gives one call its share among the calls possible at the same point. */
  datatype Flow = Flow(paths: seq<Path>, possible: seq<bool>, share: (Scope, set<Scope>) -> real)

  /** The rule of the source: calls in proportion to their counts, and an even
    split when nothing was counted. */
  ghost function CallShare(calls: Scope -> real): (Scope, set<Scope>) -> real {
    (q: Scope, next: set<Scope>) =>
      var total := SumOver<nat>(next, calls);
      if q !in next then 0.0
      else if total > 0.0 then calls(q) / total
      else 1.0 / |next| as real
  }

  /** What a rule must satisfy for nothing to be lost or created. */
  ghost predicate Fair(share: (Scope, set<Scope>) -> real) {
    forall next: set<Scope> :: next != {} ==> FairFor(share, next)
  }

  ghost predicate FairFor(share: (Scope, set<Scope>) -> real, next: set<Scope>) {
    && (forall q :: q in next ==> share(q, next) >= 0.0)
    && SumOver<nat>(next, Among(share, next)) == 1.0
  }

  ghost function Among(share: (Scope, set<Scope>) -> real, next: set<Scope>): Scope -> real {
    (q: Scope) => share(q, next)
  }

  ghost predicate Frozen(f: Flow) {
    && |f.paths| == |f.possible|
    && Sorted(f.paths)
    && SuffixFree(f.paths)
    && Fair(f.share)
  }

  ghost predicate Possible(f: Flow, i: int) {
    0 <= i < |f.paths| && i < |f.possible| && f.possible[i]
  }

  /** Possible templates that agree with template i on its k innermost calls. */
  ghost function Class(f: Flow, i: nat, k: nat): set<nat>
    requires i < |f.paths|
  {
    set j: nat | j < |f.paths| && Possible(f, j) && Share(f.paths[i], f.paths[j], k)
  }

  /** The calls those templates make next. */
  ghost function Next(f: Flow, i: nat, k: nat): set<Scope>
    requires i < |f.paths|
  {
    set j | j in Class(f, i, k) && k < |f.paths[j]| :: RAt(f.paths[j], k)
  }

  /** Template i's share in round k. */
  ghost function Ratio(f: Flow, i: nat, k: nat): real
    requires Possible(f, i) && k < |f.paths[i]|
  {
    f.share(RAt(f.paths[i], k), Next(f, i, k))
  }

  /** What is left of the value for template i after its k innermost calls. */
  ghost function Weight(f: Flow, i: nat, k: nat): real
    requires Possible(f, i) && k <= |f.paths[i]|
  {
    if k == 0 then 1.0 else Weight(f, i, k - 1) * Ratio(f, i, k - 1)
  }

  ghost function Factor(f: Flow, i: nat): real {
    if Possible(f, i) then Weight(f, i, |f.paths[i]|) else 0.0
  }

  lemma NextHasOwn(f: Flow, i: nat, k: nat)
    requires Possible(f, i) && k < |f.paths[i]|
    ensures i in Class(f, i, k)
    ensures RAt(f.paths[i], k) in Next(f, i, k)
  {
    assert i in Class(f, i, k);
  }

  // ----- Classes

  lemma ClassShared(f: Flow, i: nat, j: nat, k: nat)
    requires i < |f.paths| && j in Class(f, i, k)
    ensures Class(f, j, k) == Class(f, i, k)
    ensures Next(f, j, k) == Next(f, i, k)
  {
    assert Class(f, j, k) == Class(f, i, k);
  }

  lemma ClassShrinks(f: Flow, i: nat, m: nat, k: nat)
    requires i < |f.paths| && m <= k
    ensures Class(f, i, k) <= Class(f, i, m)
  {
    forall x | x in Class(f, i, k)
      ensures x in Class(f, i, m)
    {
      ShareLess(f.paths[i], f.paths[x], k, m);
    }
  }

  /** With two templates in a class, neither path can have ended. */
  lemma ClassOfTwoGoesOn(f: Flow, i: nat, j: nat, k: nat)
    requires Frozen(f) && Possible(f, i) && j in Class(f, i, k) && i != j
    ensures k < |f.paths[i]| && k < |f.paths[j]|
  {
    NeitherEnds(f.paths, i, j);
    SharersGoOn(f.paths[i], f.paths[j], k);
  }

  lemma NeitherEnds(ps: seq<Path>, i: nat, j: nat)
    requires SuffixFree(ps) && i < |ps| && j < |ps| && i != j
    ensures !IsSuffix(ps[i], ps[j]) && !IsSuffix(ps[j], ps[i])
  {
  }

  lemma SharersGoOn(a: Path, b: Path, k: nat)
    requires Share(a, b, k) && !IsSuffix(a, b) && !IsSuffix(b, a)
    ensures k < |a| && k < |b|
  {
    SuffixIsShare(a, b);
    SuffixIsShare(b, a);
  }

  /** Once a path has ended, its template is the only one left. */
  lemma EndedIsAlone(f: Flow, i: nat)
    requires Frozen(f) && Possible(f, i)
    ensures Class(f, i, |f.paths[i]|) == {i}
  {
    forall j | j in Class(f, i, |f.paths[i]|)
      ensures j == i
    {
      if j != i { ClassOfTwoGoesOn(f, i, j, |f.paths[i]|); }
    }
    assert i in Class(f, i, |f.paths[i]|);
  }

  lemma ClassStep(f: Flow, i: nat, k: nat)
    requires Frozen(f) && Possible(f, i) && k < |f.paths[i]|
    ensures forall j :: j in Class(f, i, k) ==> k < |f.paths[j]|
    ensures forall j :: j in Class(f, i, k) ==>
                          (j in Class(f, i, k + 1) <==> RAt(f.paths[j], k) == RAt(f.paths[i], k))
    ensures Class(f, i, k + 1) <= Class(f, i, k)
  {
    ClassShrinks(f, i, k, k + 1);
    forall j | j in Class(f, i, k)
      ensures k < |f.paths[j]|
      ensures j in Class(f, i, k + 1) <==> RAt(f.paths[j], k) == RAt(f.paths[i], k)
    {
      if j != i {
        ClassOfTwoGoesOn(f, i, j, k);
      }
      ShareExtend(f.paths[i], f.paths[j], k);
    }
  }

  // ----- Ratios

  lemma RatioShared(f: Flow, i: nat, j: nat, k: nat)
    requires Frozen(f) && Possible(f, i) && k < |f.paths[i]| && j in Class(f, i, k + 1)
    ensures k < |f.paths[j]| && Ratio(f, j, k) == Ratio(f, i, k)
  {
    ClassStep(f, i, k);
    ClassShared(f, i, j, k);
  }

  lemma {:induction false} WeightShared(f: Flow, i: nat, j: nat, k: nat)
    requires Frozen(f) && Possible(f, i) && j in Class(f, i, k)
    ensures k <= |f.paths[i]| && k <= |f.paths[j]|
    ensures Weight(f, j, k) == Weight(f, i, k)
    decreases k
  {
    if k > 0 {
      RatioShared(f, i, j, k - 1);
      ClassShrinks(f, i, k - 1, k);
      WeightShared(f, i, j, k - 1);
    }
  }

  lemma RatioNonNeg(f: Flow, i: nat, k: nat)
    requires Frozen(f) && Possible(f, i) && k < |f.paths[i]|
    ensures Ratio(f, i, k) >= 0.0
  {
    NextHasOwn(f, i, k);
    assert FairFor(f.share, Next(f, i, k));
  }

  lemma RatioAlone(f: Flow, i: nat, k: nat, m: nat)
    requires Frozen(f) && Possible(f, i) && k <= m < |f.paths[i]| && Class(f, i, k) == {i}
    ensures Ratio(f, i, m) == 1.0
  {
    ClassShrinks(f, i, k, m);
    NextHasOwn(f, i, m);
    var q := RAt(f.paths[i], m);
    assert Next(f, i, m) == {q};
    assert FairFor(f.share, {q});
    SumOverOne<nat>(q, Among(f.share, {q}));
  }

  /** A template that is alone keeps its whole share. */
  lemma {:induction false} AloneKeepsWeight(f: Flow, i: nat, k: nat, m: nat)
    requires Frozen(f) && Possible(f, i) && k <= m <= |f.paths[i]|
    requires Class(f, i, k) == {i}
    ensures Weight(f, i, m) == Weight(f, i, k)
    decreases m
  {
    if k < m {
      AloneKeepsWeight(f, i, k, m - 1);
      RatioAlone(f, i, k, m - 1);
    }
  }

  lemma {:induction false} NothingStaysNothing(f: Flow, i: nat, k: nat, m: nat)
    requires Possible(f, i) && k <= m <= |f.paths[i]| && Weight(f, i, k) == 0.0
    ensures Weight(f, i, m) == 0.0
    decreases m
  {
    if k < m {
      NothingStaysNothing(f, i, k, m - 1);
    }
  }

  lemma {:induction false} WeightNonNeg(f: Flow, i: nat, k: nat)
    requires Frozen(f) && Possible(f, i) && k <= |f.paths[i]|
    ensures Weight(f, i, k) >= 0.0
    decreases k
  {
    if k > 0 {
      WeightNonNeg(f, i, k - 1);
      RatioNonNeg(f, i, k - 1);
    }
  }

  // ----- The factors of all possible templates sum to one

  ghost function Factors(f: Flow): nat -> real {
    (i: nat) => Factor(f, i)
  }

  ghost function MaxLen(ps: seq<Path>): (n: nat)
    ensures forall p :: p in ps ==> |p| <= n
  {
    if ps == [] then 0
    else
      var m := MaxLen(ps[1..]);
      if |ps[0]| > m then |ps[0]| else m
  }

  /** Members of class (i, k) whose next call lies in t. */
  ghost function Calling(f: Flow, i: nat, k: nat, t: set<Scope>): set<nat>
    requires i < |f.paths|
  {
    set j | j in Class(f, i, k) && k < |f.paths[j]| && RAt(f.paths[j], k) in t
  }

  /** The members that go on through j's call are the class one round later. */
  lemma CallingOne(f: Flow, i: nat, k: nat, j: nat)
    requires Frozen(f) && Possible(f, i) && k < |f.paths[i]| && j in Class(f, i, k)
    ensures k < |f.paths[j]|
    ensures Calling(f, i, k, {RAt(f.paths[j], k)}) == Class(f, j, k + 1)
    ensures Next(f, j, k) == Next(f, i, k)
  {
    ClassStep(f, i, k);
    ClassShared(f, i, j, k);
    ClassStep(f, j, k);
  }

  lemma CallingAll(f: Flow, i: nat, k: nat)
    requires Frozen(f) && Possible(f, i) && k < |f.paths[i]|
    ensures Calling(f, i, k, Next(f, i, k)) == Class(f, i, k)
    ensures SumOver<nat>(Next(f, i, k), Among(f.share, Next(f, i, k))) == 1.0
  {
    ClassStep(f, i, k);
    NextHasOwn(f, i, k);
    assert FairFor(f.share, Next(f, i, k));
  }

  lemma CallingSplits(f: Flow, i: nat, k: nat, t: set<Scope>, s: Scope)
    requires i < |f.paths| && s in t
    ensures Calling(f, i, k, t) == Calling(f, i, k, t - {s}) + Calling(f, i, k, {s})
    ensures Calling(f, i, k, t - {s}) !! Calling(f, i, k, {s})
  {
  }

  /** Splitting off the members that go on through j's call. */
  lemma CallSplitsOff(f: Flow, i: nat, k: nat, t: set<Scope>, j: nat)
    requires Frozen(f) && Possible(f, i) && k < |f.paths[i]| && j in Class(f, i, k)
    requires k < |f.paths[j]| && RAt(f.paths[j], k) in t
    ensures SumOver<nat>(Calling(f, i, k, t), Factors(f)) ==
            SumOver<nat>(Calling(f, i, k, t - {RAt(f.paths[j], k)}), Factors(f))
            + SumOver<nat>(Class(f, j, k + 1), Factors(f))
  {
    var s := RAt(f.paths[j], k);
    CallingSplits(f, i, k, t, s);
    SumOverUnion<nat>(Calling(f, i, k, t - {s}), Calling(f, i, k, {s}), Factors(f));
    CallingOne(f, i, k, j);
  }

  /** What each next call gets of the weight the class has. */
  ghost function Portion(f: Flow, i: nat, k: nat): Scope -> real
    requires Possible(f, i) && k <= |f.paths[i]|
  {
    Scaled<nat>(Among(f.share, Next(f, i, k)), Weight(f, i, k))
  }

  lemma WeightStep(f: Flow, i: nat, k: nat, j: nat)
    requires Frozen(f) && Possible(f, i) && k < |f.paths[i]| && j in Class(f, i, k)
    ensures k < |f.paths[j]|
    ensures Weight(f, j, k + 1) == Portion(f, i, k)(RAt(f.paths[j], k))
  {
    CallingOne(f, i, k, j);
    WeightShared(f, i, j, k);
  }

  lemma PortionsMakeWeight(f: Flow, i: nat, k: nat)
    requires Frozen(f) && Possible(f, i) && k < |f.paths[i]|
    ensures SumOver<nat>(Next(f, i, k), Portion(f, i, k)) == Weight(f, i, k)
  {
    CallingAll(f, i, k);
    ScaledUnit<nat>(Next(f, i, k), Among(f.share, Next(f, i, k)), Weight(f, i, k));
  }

  lemma CallerOf(f: Flow, i: nat, k: nat, s: Scope) returns (j: nat)
    requires i < |f.paths| && s in Next(f, i, k)
    ensures j in Class(f, i, k) && k < |f.paths[j]| && RAt(f.paths[j], k) == s
    ensures k < MaxLen(f.paths)
  {
    j :| j in Class(f, i, k) && k < |f.paths[j]| && RAt(f.paths[j], k) == s;
    assert f.paths[j] in f.paths;
  }

  lemma {:induction false} OneCallMore(f: Flow, i: nat, k: nat, t: set<Scope>, s: Scope)
    requires Frozen(f) && Possible(f, i) && k < |f.paths[i]| && t <= Next(f, i, k) && s in t
    ensures SumOver<nat>(Calling(f, i, k, t), Factors(f)) ==
            Portion(f, i, k)(s) + SumOver<nat>(Calling(f, i, k, t - {s}), Factors(f))
    decreases MaxLen(f.paths) - k, 0, 0
  {
    var j := CallerOf(f, i, k, s);
    CallSplitsOff(f, i, k, t, j);
    ClassGetsWeight(f, j, k + 1);
    WeightStep(f, i, k, j);
  }

  /** What the members that go on through the calls in t get. */
  ghost function CallingSum(f: Flow, i: nat, k: nat): set<Scope> -> real
    requires i < |f.paths|
  {
    (t: set<Scope>) => SumOver<nat>(Calling(f, i, k, t), Factors(f))
  }

  /** The part of a class that goes on through the calls in t gets their portions. */
  lemma {:induction false} SumOverCalls(f: Flow, i: nat, k: nat)
    requires Frozen(f) && Possible(f, i) && k < |f.paths[i]|
    ensures SumOver<nat>(Calling(f, i, k, Next(f, i, k)), Factors(f)) == SumOver<nat>(Next(f, i, k), Portion(f, i, k))
    decreases MaxLen(f.paths) - k, 0, 1
  {
    var g, w, all := CallingSum(f, i, k), Portion(f, i, k), Next(f, i, k);
    forall u, s
      ensures Splits<nat>(g, w, all, u, s)
    {
      if u <= all && s in u { OneCallMore(f, i, k, u, s); }
    }
    assert Calling(f, i, k, {}) == {};
    SplitsSum<nat>(g, w, all, all);
  }

  /** Together the members of a class end up with exactly what the class had. */
  lemma {:induction false} ClassGetsWeight(f: Flow, i: nat, k: nat)
    requires Frozen(f) && Possible(f, i) && k <= |f.paths[i]|
    ensures SumOver<nat>(Class(f, i, k), Factors(f)) == Weight(f, i, k)
    decreases MaxLen(f.paths) - k, 1
  {
    if k < |f.paths[i]| {
      CallingAll(f, i, k);
      SumOverCalls(f, i, k);
      PortionsMakeWeight(f, i, k);
    } else {
      EndedIsAlone(f, i);
      SumOverOne<nat>(i, Factors(f));
    }
  }

  // ----- ... as a sum over the factor list

  ghost predicate AreFactors(f: Flow, factors: seq<real>) {
    |factors| == |f.paths| && forall i :: 0 <= i < |factors| ==> factors[i] == Factor(f, i)
  }

  /** Conservation: the factors are non-negative and sum to exactly one as soon
    as any template is possible; they are all zero otherwise. */
  lemma FactorsSumToOne(f: Flow, factors: seq<real>)
    requires Frozen(f) && AreFactors(f, factors)
    ensures forall i :: 0 <= i < |factors| ==> factors[i] >= 0.0
    ensures forall i :: 0 <= i < |factors| && !f.possible[i] ==> factors[i] == 0.0
    ensures Sum(factors) == if true in f.possible then 1.0 else 0.0
  {
    forall i | 0 <= i < |factors|
      ensures factors[i] >= 0.0
    {
      if Possible(f, i) { WeightNonNeg(f, i, |f.paths[i]|); }
    }
    var all := set j: nat | j < |f.paths| && Possible(f, j);
    forall i: nat | i < |factors|
      ensures factors[i] == if i in all then Factors(f)(i) else 0.0
    {
    }
    SumIsSumOver(factors, all, Factors(f), |factors|);
    assert factors[..|factors|] == factors;
    if true in f.possible {
      var i :| 0 <= i < |f.possible| && f.possible[i];
      ClassGetsWeight(f, i, 0);
      assert Class(f, i, 0) == all;
    } else {
      assert all == {};
    }
  }

  // ----- The rule of the source loses nothing

  lemma {:induction false} CountedShareSum(calls: Scope -> real, t: set<Scope>, next: set<Scope>)
    requires t <= next && SumOver<nat>(next, calls) > 0.0
    ensures SumOver<nat>(t, Among(CallShare(calls), next)) == SumOver<nat>(t, calls) / SumOver<nat>(next, calls)
    decreases |t|
  {
    if t != {} {
      var q :| q in t;
      CountedShareSum(calls, t - {q}, next);
      SumOverAdd<nat>(t, Among(CallShare(calls), next), q);
      SumOverAdd<nat>(t, calls, q);
      AddOver(SumOver<nat>(t - {q}, calls), calls(q), SumOver<nat>(next, calls), SumOver<nat>(t, calls));
    }
  }

  lemma {:induction false} EvenShareSum(calls: Scope -> real, t: set<Scope>, next: set<Scope>)
    requires t <= next != {} && !(SumOver<nat>(next, calls) > 0.0)
    ensures SumOver<nat>(t, Among(CallShare(calls), next)) == |t| as real / |next| as real
    decreases |t|
  {
    if t != {} {
      var q :| q in t;
      EvenShareSum(calls, t - {q}, next);
      SumOverAdd<nat>(t, Among(CallShare(calls), next), q);
      AddOver(|t - {q}| as real, 1.0, |next| as real, |t| as real);
    }
  }

  lemma CallShareFair(calls: Scope -> real)
    requires forall q :: calls(q) >= 0.0
    ensures Fair(CallShare(calls))
  {
    forall next: set<Scope> | next != {}
      ensures FairFor(CallShare(calls), next)
    {
      ShareSum(calls, next);
      forall q | q in next
        ensures CallShare(calls)(q, next) >= 0.0
      {
        ShareNonNeg(calls, next, q);
      }
    }
  }

  lemma ShareSum(calls: Scope -> real, next: set<Scope>)
    requires next != {}
    ensures SumOver<nat>(next, Among(CallShare(calls), next)) == 1.0
  {
    var total := SumOver<nat>(next, calls);
    if total > 0.0 {
      CountedShareSum(calls, next, next);
      OverItself(total, total);
    } else {
      EvenShareSum(calls, next, next);
      OverItself(|next| as real, |next| as real);
    }
  }

  lemma ShareNonNeg(calls: Scope -> real, next: set<Scope>, q: Scope)
    requires q in next && calls(q) >= 0.0
    ensures CallShare(calls)(q, next) >= 0.0
  {
    var total := SumOver<nat>(next, calls);
    if total > 0.0 { QuotientNonNeg(calls(q), total); } else { QuotientNonNeg(1.0, |next| as real); }
  }

  lemma QuotientNonNeg(a: real, d: real)
    requires a >= 0.0 && d > 0.0
    ensures a / d >= 0.0
  {
  }
}

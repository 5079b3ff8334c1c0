/** Spreading the inputs over the ranks: ranks with too many give some away, and rank 0
  allocates those to ranks that have room. */
module Rebalance {
  /** An input file and the argument it was found under. */
  datatype Input = Input(path: string, arg: nat)

  const U32 := 0x1_0000_0000

  // ----- Counting

  ghost function Total(ns: seq<nat>): nat {
    if ns == [] then 0 else ns[0] + Total(ns[1..])
  }

  ghost function Size(ranks: seq<seq<Input>>): nat {
    if ranks == [] then 0 else |ranks[0]| + Size(ranks[1..])
  }

  ghost function All(ranks: seq<seq<Input>>): multiset<Input> {
    if ranks == [] then multiset{} else multiset(ranks[0]) + All(ranks[1..])
  }

  lemma {:induction false} TotalUpdate(ns: seq<nat>, i: nat, n: nat)
    requires i < |ns|
    ensures Total(ns[i := n]) == Total(ns) + n - ns[i]
  {
    if i == 0 {
      assert ns[i := n][1..] == ns[1..];
    } else {
      assert ns[i := n][1..] == ns[1..][i - 1 := n];
      TotalUpdate(ns[1..], i - 1, n);
    }
  }

  lemma {:induction false} TotalZero(ns: seq<nat>)
    requires forall i :: 0 <= i < |ns| ==> ns[i] == 0
    ensures Total(ns) == 0
  {
    if ns != [] { TotalZero(ns[1..]); }
  }

  lemma {:induction false} AllUpdate(ranks: seq<seq<Input>>, i: nat, x: Input)
    requires i < |ranks|
    ensures All(ranks[i := ranks[i] + [x]]) == All(ranks) + multiset{x}
  {
    var more := ranks[i := ranks[i] + [x]];
    if i == 0 {
      assert more[1..] == ranks[1..];
    } else {
      assert more[1..] == ranks[1..][i - 1 := ranks[1..][i - 1] + [x]];
      AllUpdate(ranks[1..], i - 1, x);
    }
  }

  lemma {:induction false} AllSnoc(ranks: seq<seq<Input>>, xs: seq<Input>)
    ensures All(ranks + [xs]) == All(ranks) + multiset(xs) && Size(ranks + [xs]) == Size(ranks) + |xs|
  {
    if ranks == [] {
      assert ranks + [xs] == [xs];
    } else {
      assert (ranks + [xs])[1..] == ranks[1..] + [xs];
      AllSnoc(ranks[1..], xs);
    }
  }

  lemma {:induction false} TotalSnoc(ns: seq<nat>, n: nat)
    ensures Total(ns + [n]) == Total(ns) + n
  {
    if ns == [] {
      assert ns + [n] == [n];
    } else {
      assert (ns + [n])[1..] == ns[1..] + [n];
      TotalSnoc(ns[1..], n);
    }
  }

  function Nothing(n: nat): seq<seq<Input>> {
    seq(n, _ => [])
  }

  lemma {:induction false} NoInputs(n: nat)
    ensures All(Nothing(n)) == multiset{}
  {
    if n > 0 {
      assert Nothing(n)[1..] == Nothing(n - 1);
      NoInputs(n - 1);
    }
  }

  // ----- One rank

  function Room(size: nat, limit: nat): nat {
    if size < limit + 1 then (limit + 1 - size) % U32 else 0
  }

  /** Give away inputs from the end until limit + 1 are left. */
  method GiveAway(sources: seq<Input>, limit: nat) returns (kept: seq<Input>, extra: seq<Input>)
    ensures kept == if |sources| <= limit + 1 then sources else sources[..limit + 1]
    ensures multiset(kept) + multiset(extra) == multiset(sources) && |kept| + |extra| == |sources|
  {
    kept, extra := sources, [];
    if |sources| > 0 {
      var i := |sources| - 1;
      while i > limit
        invariant 0 <= i < |sources| && kept == sources[..i + 1] && |kept| + |extra| == |sources|
        invariant |sources| <= limit + 1 ==> i == |sources| - 1
        invariant |sources| > limit + 1 ==> i >= limit
        invariant multiset(kept) + multiset(extra) == multiset(sources)
      {
        assert i == |kept| - 1;
        assert kept == kept[..i] + [kept[i]];
        extra := extra + [kept[i]];
        kept := kept[..i];
        i := i - 1;
      }
    }
  }

  // ----- Allocation

  /** Slots left; the first n ranks have none to give. */
  ghost predicate UsedUp(avails: seq<nat>, n: nat, nearfull: bool) {
    n <= |avails| && forall r :: 0 <= r < n ==> avails[r] <= if nearfull then 0 else 1
  }

  /** Find a rank with a free slot. At first every rank keeps one slot free. */
  method FindSlot(avails: seq<nat>, next: nat, nearfull: bool) returns (next': nat, nearfull': bool)
    requires UsedUp(avails, next, nearfull) && Total(avails) > 0
    requires nearfull ==> forall r :: 0 <= r < |avails| ==> avails[r] <= 1
    ensures UsedUp(avails, next', nearfull') && next' < |avails| && avails[next'] > if nearfull' then 0 else 1
    ensures nearfull ==> nearfull'
    ensures nearfull' ==> forall r :: 0 <= r < |avails| ==> avails[r] <= 1
  {
    next', nearfull' := next, nearfull;
    while true
      invariant UsedUp(avails, next', nearfull') && (nearfull ==> nearfull')
      invariant nearfull' ==> forall r :: 0 <= r < |avails| ==> avails[r] <= 1
      decreases if nearfull' then 0 else 1
    {
      while next' < |avails| && avails[next'] <= (if nearfull' then 0 else 1)
        invariant UsedUp(avails, next', nearfull')
      {
        next' := next' + 1;
      }
      if next' < |avails| {
        break;
      }
      if nearfull' { TotalZero(avails); }
      assert !nearfull';
      nearfull' := true;
      next' := 0;
    }
  }

  /** No rank gets more than it has room for. */
  ghost predicate Fits(before: seq<nat>, after: seq<nat>, allocations: seq<seq<Input>>) {
    && |before| == |after| == |allocations|
    && (forall r :: 0 <= r < |before| ==> after[r] + |allocations[r]| == before[r])
  }

  /** No rank is filled up completely while another has room for two. */
  ghost predicate Even(after: seq<nat>, allocations: seq<seq<Input>>) {
    forall r, q :: 0 <= r < |after| == |allocations| && 0 <= q < |after| && allocations[r] != [] && after[r] == 0 ==> after[q] <= 1
  }

  /** Before the last round every rank that was given something has a slot left. */
  ghost predicate Spare(avails: seq<nat>, allocations: seq<seq<Input>>, nearfull: bool) {
    && |avails| == |allocations|
    && (nearfull ==> forall r :: 0 <= r < |avails| ==> avails[r] <= 1)
    && (!nearfull ==> forall r :: 0 <= r < |avails| && allocations[r] != [] ==> avails[r] >= 1)
  }

  ghost predicate Placing(before: seq<nat>, avails: seq<nat>, allocations: seq<seq<Input>>, next: nat, nearfull: bool) {
    Fits(before, avails, allocations) && UsedUp(avails, next, nearfull) && Spare(avails, allocations, nearfull)
  }

  lemma Placed(before: seq<nat>, avails: seq<nat>, allocations: seq<seq<Input>>, x: Input, next: nat, nearfull: bool)
    requires Fits(before, avails, allocations) && UsedUp(avails, next, nearfull)
    requires next < |avails| && avails[next] > (if nearfull then 0 else 1) && Spare(avails, allocations, nearfull)
    ensures Placing(before, avails[next := avails[next] - 1], allocations[next := allocations[next] + [x]], next, nearfull)
  {
  }

  /** Place one input. */
  method Place(avails: seq<nat>, allocations: seq<seq<Input>>, x: Input, next: nat, nearfull: bool, ghost before: seq<nat>)
    returns (avails': seq<nat>, allocations': seq<seq<Input>>, next': nat, nearfull': bool)
    requires Placing(before, avails, allocations, next, nearfull) && Total(avails) > 0
    ensures Placing(before, avails', allocations', next', nearfull') && Total(avails') == Total(avails) - 1
    ensures All(allocations') == All(allocations) + multiset{x}
  {
    next', nearfull' := FindSlot(avails, next, nearfull);
    Placed(before, avails, allocations, x, next', nearfull');
    AllUpdate(allocations, next', x);
    TotalUpdate(avails, next', avails[next'] - 1);
    allocations' := allocations[next' := allocations[next'] + [x]];
    avails' := avails[next' := avails[next'] - 1];
  }

  /** Place the extra inputs of one rank. */
  method PlaceAll(avails: seq<nat>, allocations: seq<seq<Input>>, ps: seq<Input>, next: nat, nearfull: bool, ghost before: seq<nat>)
    returns (avails': seq<nat>, allocations': seq<seq<Input>>, next': nat, nearfull': bool)
    requires Placing(before, avails, allocations, next, nearfull) && Total(avails) >= |ps|
    ensures Placing(before, avails', allocations', next', nearfull') && Total(avails') == Total(avails) - |ps|
    ensures All(allocations') == All(allocations) + multiset(ps)
  {
    avails', allocations', next', nearfull' := avails, allocations, next, nearfull;
    for j := 0 to |ps|
      invariant Placing(before, avails', allocations', next', nearfull')
      invariant Total(avails') == Total(avails) - j
      invariant All(allocations') == All(allocations) + multiset(ps[..j])
    {
      TakeOne(ps, j);
      avails', allocations', next', nearfull' := Place(avails', allocations', ps[j], next', nearfull', before);
    }
    TakeAll(ps);
  }

  lemma TakeOne(ps: seq<Input>, j: nat)
    requires j < |ps|
    ensures multiset(ps[..j + 1]) == multiset(ps[..j]) + multiset{ps[j]}
  {
    assert ps[..j + 1] == ps[..j] + [ps[j]];
  }

  lemma TakeAll<T>(ps: seq<T>)
    ensures ps[..|ps|] == ps
  {
  }

  lemma NextRank(extras: seq<seq<Input>>, i: nat)
    requires i < |extras|
    ensures Size(extras[i..]) == |extras[i]| + Size(extras[i + 1..])
    ensures All(extras[..i + 1]) == All(extras[..i]) + multiset(extras[i])
  {
    assert extras[i..][1..] == extras[i + 1..];
    assert extras[..i + 1] == extras[..i] + [extras[i]];
    AllSnoc(extras[..i], extras[i]);
  }

  /** Allocate all extra inputs. There is room, so the search never fails. */
  method Allocate(avails: seq<nat>, extras: seq<seq<Input>>) returns (allocations: seq<seq<Input>>, ghost left: seq<nat>)
    requires Size(extras) <= Total(avails)
    ensures Fits(avails, left, allocations) && Even(left, allocations)
    ensures All(allocations) == All(extras)
  {
    allocations := Nothing(|avails|);
    NoInputs(|avails|);
    var free, next, nearfull := avails, 0, false;
    assert extras[0..] == extras && All(extras[..0]) == multiset{};
    for i := 0 to |extras|
      invariant Placing(avails, free, allocations, next, nearfull)
      invariant Size(extras[i..]) <= Total(free)
      invariant All(allocations) == All(extras[..i])
    {
      NextRank(extras, i);
      free, allocations, next, nearfull := PlaceAll(free, allocations, extras[i], next, nearfull, avails);
    }
    TakeAll(extras);
    left := free;
  }

  // ----- All ranks

  function Limit(total: nat, size: nat): nat
    requires size > 0
  {
    total / size
  }

  /** What one rank has after giving inputs away. */
  ghost predicate Gave(sources: seq<Input>, limit: nat, kept: seq<Input>, avail: nat) {
    && kept == (if |sources| <= limit + 1 then sources else sources[..limit + 1])
    && avail == Room(|sources|, limit)
  }

  /** What the first ranks have after giving inputs away. */
  ghost predicate GaveAll(
      sources: seq<seq<Input>>, limit: nat, kept: seq<seq<Input>>, extras: seq<seq<Input>>, avails: seq<nat>)
  {
    && |kept| == |extras| == |avails| <= |sources|
    && forall r :: 0 <= r < |kept| ==> Gave(sources[r], limit, kept[r], avails[r]) && |kept[r]| + |extras[r]| == |sources[r]|
  }

  lemma GaveMore(sources: seq<seq<Input>>, limit: nat, kept: seq<seq<Input>>, extras: seq<seq<Input>>, avails: seq<nat>,
                 k: seq<Input>, e: seq<Input>)
    requires GaveAll(sources, limit, kept, extras, avails) && |kept| < |sources|
    requires var s := sources[|kept|]; Gave(s, limit, k, Room(|s|, limit)) && |k| + |e| == |s|
    ensures GaveAll(sources, limit, kept + [k], extras + [e], avails + [Room(|sources[|kept|]|, limit)])
  {
  }

  /** Together the ranks have room for everything that was given away. */
  lemma {:induction false} EnoughRoom(
      sources: seq<seq<Input>>, limit: nat, kept: seq<seq<Input>>, extras: seq<seq<Input>>, avails: seq<nat>)
    requires |sources| == |kept| && limit + 1 < U32 && GaveAll(sources, limit, kept, extras, avails)
    ensures Size(extras) + |sources| * (limit + 1) == Size(sources) + Total(avails)
  {
    if sources != [] {
      EnoughRoom(sources[1..], limit, kept[1..], extras[1..], avails[1..]);
      assert Gave(sources[0], limit, kept[0], avails[0]);
      assert |extras[0]| + (limit + 1) == |sources[0]| + avails[0];
      OneMore(|sources|, limit + 1);
    }
  }

  lemma OneMore(n: int, m: int)
    ensures n * m == (n - 1) * m + m
  {
  }

  lemma LimitBounds(total: nat, size: nat)
    requires size > 0
    ensures total < size * (Limit(total, size) + 1) && size * Limit(total, size) <= total
  {
  }

  method GiveAllAway(sources: seq<seq<Input>>, limit: nat)
    returns (kept: seq<seq<Input>>, extras: seq<seq<Input>>, avails: seq<nat>)
    ensures |kept| == |sources| && GaveAll(sources, limit, kept, extras, avails)
    ensures All(kept) + All(extras) == All(sources)
  {
    kept, extras, avails := [], [], [];
    assert All(sources[..0]) == multiset{};
    for r := 0 to |sources|
      invariant |kept| == r && GaveAll(sources, limit, kept, extras, avails)
      invariant All(kept) + All(extras) == All(sources[..r])
    {
      var k, e := GiveAway(sources[r], limit);
      AllSnoc(kept, k);
      AllSnoc(extras, e);
      NextRank(sources, r);
      GaveMore(sources, limit, kept, extras, avails, k, e);
      kept, extras, avails := kept + [k], extras + [e], avails + [Room(|sources[r]|, limit)];
    }
    TakeAll(sources);
  }

  /** Add what was allocated to what was kept. */
  method Receive(kept: seq<seq<Input>>, allocations: seq<seq<Input>>) returns (result: seq<seq<Input>>)
    requires |kept| == |allocations|
    ensures |result| == |kept| && forall r :: 0 <= r < |kept| ==> result[r] == kept[r] + allocations[r]
    ensures All(result) == All(kept) + All(allocations)
  {
    result := [];
    assert All(kept[..0]) == All(allocations[..0]) == multiset{};
    for r := 0 to |kept|
      invariant |result| == r && forall q :: 0 <= q < r ==> result[q] == kept[q] + allocations[q]
      invariant All(result) == All(kept[..r]) + All(allocations[..r])
    {
      NextRank(kept, r);
      NextRank(allocations, r);
      AllSnoc(result, kept[r] + allocations[r]);
      result := result + [kept[r] + allocations[r]];
    }
    TakeAll(kept);
    TakeAll(allocations);
  }

  /** What rebalancing promises: every input is kept exactly once, no rank has more
    than limit + 1, ranks only lose what is beyond that, and a rank is not filled up to
    limit + 1 with inputs of others while another has less than limit. */
  ghost predicate Balanced(sources: seq<seq<Input>>, result: seq<seq<Input>>, limit: nat) {
    && |result| == |sources| && All(result) == All(sources)
    && (forall r :: 0 <= r < |result| ==> |result[r]| <= limit + 1)
    && (forall r :: 0 <= r < |result| ==> KeepsOwn(sources[r], result[r], limit))
    && (forall r, q :: 0 <= r < |result| && 0 <= q < |result| ==> NoneNeglected(sources[r], result[r], result[q], limit))
  }

  ghost predicate KeepsOwn(before: seq<Input>, after: seq<Input>, limit: nat) {
    (if |before| <= limit + 1 then before else before[..limit + 1]) <= after
  }

  ghost predicate NoneNeglected(before: seq<Input>, after: seq<Input>, other: seq<Input>, limit: nat) {
    |after| == limit + 1 > |before| ==> |other| >= limit
  }

  lemma IsBalanced(sources: seq<seq<Input>>, limit: nat, kept: seq<seq<Input>>, avails: seq<nat>,
                   allocations: seq<seq<Input>>, left: seq<nat>, result: seq<seq<Input>>)
    requires |sources| == |kept| == |avails| == |allocations| == |result| && limit + 1 < U32
    requires forall r :: 0 <= r < |sources| ==> Gave(sources[r], limit, kept[r], avails[r])
    requires Fits(avails, left, allocations) && Even(left, allocations)
    requires forall r :: 0 <= r < |kept| ==> result[r] == kept[r] + allocations[r]
    requires All(result) == All(sources)
    ensures Balanced(sources, result, limit)
  {
    forall r | 0 <= r < |result|
      ensures |result[r]| + left[r] == limit + 1 && KeepsOwn(sources[r], result[r], limit)
      ensures |result[r]| > |sources[r]| ==> allocations[r] != []
    {
      RankIsFull(sources[r], limit, kept[r], avails[r], allocations[r], left[r]);
    }
    forall r, q | 0 <= r < |result| && 0 <= q < |result|
      ensures NoneNeglected(sources[r], result[r], result[q], limit)
    {
      assert allocations[r] != [] && left[r] == 0 ==> left[q] <= 1;
    }
  }

  /** Inputs and free slots of a rank make limit + 1. */
  lemma RankIsFull(before: seq<Input>, limit: nat, kept: seq<Input>, avail: nat, given: seq<Input>, left: nat)
    requires limit + 1 < U32 && Gave(before, limit, kept, avail) && left + |given| == avail
    ensures |kept + given| + left == limit + 1 && KeepsOwn(before, kept + given, limit)
    ensures |kept + given| > |before| ==> given != []
  {
  }

  /** The whole exchange. */
  method Spread(sources: seq<seq<Input>>, total: nat) returns (result: seq<seq<Input>>)
    requires sources != [] && total == Size(sources) && total / |sources| + 1 < U32
    ensures Balanced(sources, result, total / |sources|)
  {
    var limit := Limit(total, |sources|);
    var kept, extras, avails := GiveAllAway(sources, limit);
    EnoughRoom(sources, limit, kept, extras, avails);
    LimitBounds(total, |sources|);
    ghost var left;
    var allocations;
    allocations, left := Allocate(avails, extras);
    result := Receive(kept, allocations);
    IsBalanced(sources, limit, kept, avails, allocations, left, result);
  }
}

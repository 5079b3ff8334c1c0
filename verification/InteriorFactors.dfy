/** `ContextFlowGraph::interiorFactors_impl`: the interior factors computed by
  splitting contiguous ranges of the sorted templates, round by round. */
module InteriorFactors {
  import opened Paths
  import opened InteriorSpec
  import opened RealSums

  /** A range of templates that agree on every call looked at so far. */
  datatype Group = Group(first: nat, last: nat, factor: real)

  /** The group holds exactly the possible templates of one class, and its factor
    is what that class has left. */
  ghost predicate GroupOk(f: Flow, g: Group, r: nat) {
    && g.first < g.last <= |f.paths|
    && (exists i :: g.first <= i < g.last && Possible(f, i))
    && (forall i: nat {:trigger Fits(f, g, r, i)} :: g.first <= i < g.last && Possible(f, i) ==> Fits(f, g, r, i))
  }

  ghost predicate Fits(f: Flow, g: Group, r: nat, i: nat)
    requires Possible(f, i)
  {
    && r <= |f.paths[i]|
    && (forall j: nat {:trigger j in Class(f, i, r)} ::
          Possible(f, j) ==> (j in Class(f, i, r) <==> g.first <= j < g.last))
    && g.factor == Weight(f, i, r)
  }

  /** Both ends of the range are possible templates. */
  ghost predicate Trimmed(f: Flow, g: Group) {
    g.first < g.last && Possible(f, g.first) && Possible(f, g.last - 1)
  }

  ghost predicate InGroup(groups: seq<Group>, i: nat) {
    exists x :: 0 <= x < |groups| && groups[x].first <= i < groups[x].last
  }

  /** The possible templates of a group still have calls left to look at. */
  lemma GroupGoesOn(f: Flow, g: Group, r: nat, i: nat, j: nat)
    requires Frozen(f) && GroupOk(f, g, r)
    requires g.first <= i < j < g.last && Possible(f, i) && Possible(f, j)
    ensures r < |f.paths[i]| && r < |f.paths[j]|
    ensures Share(f.paths[i], f.paths[j], r)
    ensures RAt(f.paths[i], r) <= RAt(f.paths[j], r)
  {
    assert Fits(f, g, r, i);
    assert j in Class(f, i, r);
    ClassOfTwoGoesOn(f, i, j, r);
    NextCallOrdered(f.paths[i], f.paths[j], r);
  }

  // ----- Splitting one group

  /** The call a template makes in round r, when it gets that far. */
  ghost function Keys(paths: seq<Path>, r: nat): (keys: seq<Scope>)
    ensures |keys| == |paths|
    ensures forall i :: 0 <= i < |paths| && r < |paths[i]| ==> keys[i] == RAt(paths[i], r)
  {
    seq(|paths|, i requires 0 <= i < |paths| => if r < |paths[i]| then RAt(paths[i], r) else 0)
  }

  /** Templates lo..hi start and end with a possible one and all possible ones
    make the same call. */
  ghost predicate IsRun(possible: seq<bool>, keys: seq<Scope>, lo: nat, hi: nat) {
    && |possible| == |keys| && lo < hi <= |keys|
    && possible[lo] && possible[hi - 1]
    && forall j :: lo <= j < hi && possible[j] ==> keys[j] == keys[lo]
  }

  /** The runs are in order, with increasing calls, and carry their call counts. */
  ghost predicate AreRuns(possible: seq<bool>, keys: seq<Scope>, calls: Scope -> real, subs: seq<Group>) {
    && (forall x :: 0 <= x < |subs| ==> IsRun(possible, keys, subs[x].first, subs[x].last))
    && (forall x :: 0 <= x < |subs| ==> subs[x].factor == calls(keys[subs[x].first]))
    && (forall x, y :: 0 <= x < y < |subs| ==> keys[subs[x].first] < keys[subs[y].first])
  }

  ghost function SumFactors(subs: seq<Group>): real {
    if subs == [] then 0.0 else SumFactors(subs[..|subs| - 1]) + subs[|subs| - 1].factor
  }

  /** Scanning state: everything possible before `it` lies in a finished run or in
    the current one, first..ilast; later calls are no smaller than the current one. */
  ghost predicate Scanning(possible: seq<bool>, keys: seq<Scope>, calls: Scope -> real,
                           lo: nat, it: nat, subs: seq<Group>, first: nat, ilast: nat)
  {
    && first <= ilast < it <= |keys| && lo <= first
    && IsRun(possible, keys, first, ilast + 1)
    && AreRuns(possible, keys, calls, subs)
    && (forall x :: 0 <= x < |subs| ==> lo <= subs[x].first && subs[x].last <= first)
    && (forall x :: 0 <= x < |subs| ==> keys[subs[x].first] < keys[first])
    && (forall j: nat {:trigger InGroup(subs, j)} ::
          lo <= j < it && possible[j] ==> InGroup(subs, j) || first <= j <= ilast)
  }

  lemma ScanSkip(possible: seq<bool>, keys: seq<Scope>, calls: Scope -> real,
                 lo: nat, it: nat, subs: seq<Group>, first: nat, ilast: nat)
    requires Scanning(possible, keys, calls, lo, it, subs, first, ilast)
    requires it < |keys| && !possible[it]
    ensures Scanning(possible, keys, calls, lo, it + 1, subs, first, ilast)
  {
  }

  /** Nothing possible lies between the current run and the cursor. */
  lemma NothingBehind(possible: seq<bool>, keys: seq<Scope>, calls: Scope -> real,
                      lo: nat, it: nat, subs: seq<Group>, first: nat, ilast: nat)
    requires Scanning(possible, keys, calls, lo, it, subs, first, ilast)
    ensures forall j :: ilast < j < it ==> !possible[j]
  {
    forall j | ilast < j < it
      ensures !possible[j]
    {
      assert !InGroup(subs, j);
    }
  }

  lemma ScanExtend(possible: seq<bool>, keys: seq<Scope>, calls: Scope -> real,
                   lo: nat, it: nat, subs: seq<Group>, first: nat, ilast: nat)
    requires Scanning(possible, keys, calls, lo, it, subs, first, ilast)
    requires it < |keys| && possible[it] && keys[it] == keys[first]
    ensures Scanning(possible, keys, calls, lo, it + 1, subs, first, it)
  {
    NothingBehind(possible, keys, calls, lo, it, subs, first, ilast);
  }

  lemma AppendRun(possible: seq<bool>, keys: seq<Scope>, calls: Scope -> real,
                  lo: nat, it: nat, subs: seq<Group>, first: nat, ilast: nat)
    requires Scanning(possible, keys, calls, lo, it, subs, first, ilast)
    ensures var all := subs + [Group(first, ilast + 1, calls(keys[first]))];
            && AreRuns(possible, keys, calls, all)
            && SumFactors(all) == SumFactors(subs) + calls(keys[first])
            && forall j: nat {:trigger InGroup(all, j)} :: lo <= j < it && possible[j] ==> InGroup(all, j)
  {
    var s := Group(first, ilast + 1, calls(keys[first]));
    AppendAreRuns(possible, keys, calls, subs, s);
    AppendSum(subs, s);
    forall j: nat | lo <= j < it && possible[j]
      ensures InGroup(subs + [s], j)
    {
      assert InGroup(subs, j) || first <= j <= ilast;
      AppendCovers(subs, s, j);
    }
  }

  lemma AppendAreRuns(possible: seq<bool>, keys: seq<Scope>, calls: Scope -> real, subs: seq<Group>, s: Group)
    requires AreRuns(possible, keys, calls, subs) && IsRun(possible, keys, s.first, s.last)
    requires s.factor == calls(keys[s.first]) && forall x :: 0 <= x < |subs| ==> keys[subs[x].first] < keys[s.first]
    ensures AreRuns(possible, keys, calls, subs + [s])
  {
  }

  lemma AppendSum(subs: seq<Group>, s: Group)
    ensures SumFactors(subs + [s]) == SumFactors(subs) + s.factor
  {
    assert (subs + [s])[..|subs|] == subs;
  }

  lemma AppendCovers(subs: seq<Group>, s: Group, j: nat)
    requires InGroup(subs, j) || s.first <= j < s.last
    ensures InGroup(subs + [s], j)
  {
    var all := subs + [s];
    if InGroup(subs, j) {
      var x :| 0 <= x < |subs| && subs[x].first <= j < subs[x].last;
      assert all[x] == subs[x];
    } else {
      assert all[|subs|] == s;
    }
  }

  lemma ScanRestart(possible: seq<bool>, keys: seq<Scope>, calls: Scope -> real,
                    lo: nat, it: nat, subs: seq<Group>, first: nat, ilast: nat)
    requires Scanning(possible, keys, calls, lo, it, subs, first, ilast)
    requires it < |keys| && possible[it] && keys[first] < keys[it]
    ensures var all := subs + [Group(first, ilast + 1, calls(keys[first]))];
            && Scanning(possible, keys, calls, lo, it + 1, all, it, it)
            && SumFactors(all) == SumFactors(subs) + calls(keys[first])
  {
    AppendRun(possible, keys, calls, lo, it, subs, first, ilast);
  }

  /** The call of every possible template in lo..hi, in sort order. */
  ghost predicate AreKeys(paths: seq<Path>, possible: seq<bool>, r: nat, lo: nat, hi: nat, keys: seq<Scope>) {
    && |paths| == |possible| == |keys| && lo < hi <= |paths|
    && (forall i :: lo <= i < hi && possible[i] ==> r < |paths[i]| && keys[i] == RAt(paths[i], r))
    && (forall i, j :: lo <= i < j < hi && possible[i] && possible[j] ==> keys[i] <= keys[j])
  }

  /** One possible template: it extends the current run or closes it. */
  method ScanNext(paths: seq<Path>, possible: seq<bool>, calls: Scope -> real, r: nat, it: nat,
                  subs: seq<Group>, total: real, first: nat, ilast: nat,
                  ghost keys: seq<Scope>, ghost lo: nat, ghost hi: nat)
    returns (subs': seq<Group>, total': real, first': nat, ilast': nat)
    requires AreKeys(paths, possible, r, lo, hi, keys) && it < hi && possible[it]
    requires Scanning(possible, keys, calls, lo, it, subs, first, ilast) && total == SumFactors(subs)
    ensures Scanning(possible, keys, calls, lo, it + 1, subs', first', ilast') && total' == SumFactors(subs')
  {
    if RAt(paths[first], r) == RAt(paths[it], r) {
      ScanExtend(possible, keys, calls, lo, it, subs, first, ilast);
      subs', total', first', ilast' := subs, total, first, it;
    } else {
      ScanRestart(possible, keys, calls, lo, it, subs, first, ilast);
      var v := calls(RAt(paths[first], r));
      subs', total', first', ilast' := subs + [Group(first, ilast + 1, v)], total + v, it, it;
    }
  }

  /** First pass over one group: cut it where the next call changes, skipping
    impossible templates. A sub-group first carries its call count as factor. The last
    run is still open. */
  method ScanRuns(paths: seq<Path>, possible: seq<bool>, calls: Scope -> real, g: Group, r: nat,
                  ghost keys: seq<Scope>)
    returns (subs: seq<Group>, total: real, first: nat, ilast: nat)
    requires AreKeys(paths, possible, r, g.first, g.last, keys)
    requires exists i :: g.first <= i < g.last && possible[i]
    ensures Scanning(possible, keys, calls, g.first, g.last, subs, first, ilast) && total == SumFactors(subs)
  {
    subs, total := [], 0.0;
    first, ilast := |paths|, |paths|;
    for it := g.first to g.last
      invariant first == |paths| ==> subs == [] && forall j :: g.first <= j < it ==> !possible[j]
      invariant first != |paths| ==> Scanning(possible, keys, calls, g.first, it, subs, first, ilast)
      invariant total == SumFactors(subs)
    {
      if possible[it] {
        if first == |paths| {
          first, ilast := it, it;
        } else {
          subs, total, first, ilast :=
            ScanNext(paths, possible, calls, r, it, subs, total, first, ilast, keys, g.first, g.last);
        }
      } else if first != |paths| {
        ScanSkip(possible, keys, calls, g.first, it, subs, first, ilast);
      }
    }
  }

  lemma CloseLast(paths: seq<Path>, possible: seq<bool>, calls: Scope -> real, g: Group, r: nat, keys: seq<Scope>,
                  subs: seq<Group>, first: nat, ilast: nat)
    requires AreKeys(paths, possible, r, g.first, g.last, keys)
    requires Scanning(possible, keys, calls, g.first, g.last, subs, first, ilast)
    ensures first < |paths| && r < |paths[first]|
    ensures var all := subs + [Group(first, ilast + 1, calls(RAt(paths[first], r)))];
            && AreRuns(possible, keys, calls, all)
            && (forall x :: 0 <= x < |all| ==> g.first <= all[x].first && all[x].last <= g.last)
            && (forall i: nat {:trigger InGroup(all, i)} :: g.first <= i < g.last && possible[i] ==> InGroup(all, i))
            && SumFactors(all) == SumFactors(subs) + calls(RAt(paths[first], r))
  {
    AppendRun(possible, keys, calls, g.first, g.last, subs, first, ilast);
    assert keys[first] == RAt(paths[first], r);
  }

  /** The whole first pass. */
  method ScanGroup(paths: seq<Path>, possible: seq<bool>, calls: Scope -> real, g: Group, r: nat,
                   ghost keys: seq<Scope>)
    returns (subs: seq<Group>, total: real)
    requires AreKeys(paths, possible, r, g.first, g.last, keys)
    requires exists i :: g.first <= i < g.last && possible[i]
    ensures AreRuns(possible, keys, calls, subs)
    ensures forall x :: 0 <= x < |subs| ==> g.first <= subs[x].first && subs[x].last <= g.last
    ensures forall i: nat {:trigger InGroup(subs, i)} :: g.first <= i < g.last && possible[i] ==> InGroup(subs, i)
    ensures total == SumFactors(subs)
  {
    var first, ilast;
    subs, total, first, ilast := ScanRuns(paths, possible, calls, g, r, keys);
    CloseLast(paths, possible, calls, g, r, keys, subs, first, ilast);
    var v := calls(RAt(paths[first], r));
    subs, total := subs + [Group(first, ilast + 1, v)], total + v;
  }

  // ----- The runs of a group are the classes one round later

  ghost function Heads(keys: seq<Scope>, subs: seq<Group>): set<Scope>
    requires forall x :: 0 <= x < |subs| ==> subs[x].first < |keys|
  {
    set x | 0 <= x < |subs| :: keys[subs[x].first]
  }

  lemma HeadsOfLast(keys: seq<Scope>, subs: seq<Group>)
    requires subs != [] && forall x :: 0 <= x < |subs| ==> subs[x].first < |keys|
    requires forall x, y :: 0 <= x < y < |subs| ==> keys[subs[x].first] < keys[subs[y].first]
    ensures var q := keys[subs[|subs| - 1].first];
            q in Heads(keys, subs) && Heads(keys, subs) - {q} == Heads(keys, subs[..|subs| - 1])
  {
    var n := |subs| - 1;
    var rest, q := subs[..n], keys[subs[n].first];
    forall p | p in Heads(keys, rest)
      ensures p in Heads(keys, subs) - {q}
    {
      var x :| 0 <= x < n && p == keys[rest[x].first];
      assert rest[x] == subs[x];
    }
    forall p | p in Heads(keys, subs) - {q}
      ensures p in Heads(keys, rest)
    {
      var x :| 0 <= x < |subs| && p == keys[subs[x].first];
      assert rest[x] == subs[x];
    }
    assert subs[n].first < |keys|;
  }

  lemma RunsPrefix(possible: seq<bool>, keys: seq<Scope>, calls: Scope -> real, subs: seq<Group>)
    requires AreRuns(possible, keys, calls, subs) && subs != []
    ensures AreRuns(possible, keys, calls, subs[..|subs| - 1])
    ensures subs[|subs| - 1].factor == calls(keys[subs[|subs| - 1].first])
  {
  }

  lemma LastHead(possible: seq<bool>, keys: seq<Scope>, calls: Scope -> real, subs: seq<Group>)
    requires AreRuns(possible, keys, calls, subs) && subs != []
    ensures |Heads(keys, subs)| == |Heads(keys, subs[..|subs| - 1])| + 1
    ensures SumOver<nat>(Heads(keys, subs), calls) ==
            calls(keys[subs[|subs| - 1].first]) + SumOver<nat>(Heads(keys, subs[..|subs| - 1]), calls)
  {
    var q := keys[subs[|subs| - 1].first];
    HeadsOfLast(keys, subs);
    SumOverAdd<nat>(Heads(keys, subs), calls, q);
  }

  lemma {:induction false} HeadsSum(possible: seq<bool>, keys: seq<Scope>, calls: Scope -> real, subs: seq<Group>)
    requires AreRuns(possible, keys, calls, subs)
    ensures |Heads(keys, subs)| == |subs| && SumOver<nat>(Heads(keys, subs), calls) == SumFactors(subs)
    decreases |subs|
  {
    if subs == [] {
      assert Heads(keys, subs) == {};
    } else {
      RunsPrefix(possible, keys, calls, subs);
      LastHead(possible, keys, calls, subs);
      HeadsSum(possible, keys, calls, subs[..|subs| - 1]);
    }
  }

  ghost predicate TwoPossible(f: Flow, g: Group) {
    exists i: nat, j: nat :: g.first <= i < j < g.last && Possible(f, i) && Possible(f, j)
  }

  lemma GroupKeys(f: Flow, g: Group, r: nat)
    requires Frozen(f) && GroupOk(f, g, r) && TwoPossible(f, g)
    ensures AreKeys(f.paths, f.possible, r, g.first, g.last, Keys(f.paths, r))
    ensures exists i :: g.first <= i < g.last && f.possible[i]
  {
    var a: nat, b: nat :| g.first <= a < b < g.last && Possible(f, a) && Possible(f, b);
    var keys := Keys(f.paths, r);
    forall i: nat | g.first <= i < g.last && f.possible[i]
      ensures r < |f.paths[i]| && keys[i] == RAt(f.paths[i], r)
    {
      if i <= a { GroupGoesOn(f, g, r, i, b); } else { GroupGoesOn(f, g, r, a, i); }
    }
    forall i: nat, j: nat | g.first <= i < j < g.last && f.possible[i] && f.possible[j]
      ensures keys[i] <= keys[j]
    {
      GroupGoesOn(f, g, r, i, j);
    }
    assert f.possible[a];
  }

  /** A group that has been cut completely into runs. */
  ghost predicate IsCut(f: Flow, calls: Scope -> real, g: Group, r: nat, subs: seq<Group>) {
    && Frozen(f) && GroupOk(f, g, r)
    && AreKeys(f.paths, f.possible, r, g.first, g.last, Keys(f.paths, r))
    && AreRuns(f.possible, Keys(f.paths, r), calls, subs)
    && (forall x :: 0 <= x < |subs| ==> g.first <= subs[x].first && subs[x].last <= g.last)
    && (forall i: nat {:trigger InGroup(subs, i)} :: g.first <= i < g.last && f.possible[i] ==> InGroup(subs, i))
  }

  lemma CutNext(f: Flow, calls: Scope -> real, g: Group, r: nat, subs: seq<Group>, i: nat)
    requires IsCut(f, calls, g, r, subs) && g.first <= i < g.last && Possible(f, i)
    ensures Next(f, i, r) == Heads(Keys(f.paths, r), subs)
  {
    var keys := Keys(f.paths, r);
    assert Fits(f, g, r, i);
    forall q | q in Next(f, i, r)
      ensures exists x :: 0 <= x < |subs| && q == keys[subs[x].first]
    {
      var j := CallerOf(f, i, r, q);
      assert InGroup(subs, j);
      var x :| 0 <= x < |subs| && subs[x].first <= j < subs[x].last;
      assert IsRun(f.possible, keys, subs[x].first, subs[x].last);
    }
    forall x | 0 <= x < |subs|
      ensures keys[subs[x].first] in Next(f, i, r)
    {
      assert IsRun(f.possible, keys, subs[x].first, subs[x].last);
      assert subs[x].first in Class(f, i, r);
    }
  }

  lemma CutRatio(f: Flow, calls: Scope -> real, g: Group, r: nat, subs: seq<Group>, x: nat)
    requires IsCut(f, calls, g, r, subs) && x < |subs| && f.share == CallShare(calls)
    ensures Possible(f, subs[x].first) && r < |f.paths[subs[x].first]|
    ensures Weight(f, subs[x].first, r) == g.factor
    ensures Ratio(f, subs[x].first, r) ==
            if SumFactors(subs) > 0.0 then subs[x].factor / SumFactors(subs) else 1.0 / |subs| as real
  {
    var keys, i := Keys(f.paths, r), subs[x].first;
    assert IsRun(f.possible, keys, i, subs[x].last);
    assert Fits(f, g, r, i);
    CutNext(f, calls, g, r, subs, i);
    HeadsSum(f.possible, keys, calls, subs);
    NextHasOwn(f, i, r);
  }

  lemma SameClassSameRun(f: Flow, calls: Scope -> real, g: Group, r: nat, subs: seq<Group>, x: nat, i: nat, j: nat)
    requires IsCut(f, calls, g, r, subs) && x < |subs|
    requires subs[x].first <= i < subs[x].last && Possible(f, i) && Possible(f, j)
    ensures j in Class(f, i, r + 1) <==> subs[x].first <= j < subs[x].last
  {
    var keys := Keys(f.paths, r);
    assert IsRun(f.possible, keys, subs[x].first, subs[x].last);
    assert Fits(f, g, r, i);
    ClassStep(f, i, r);
    if g.first <= j < g.last {
      assert InGroup(subs, j);
      var y :| 0 <= y < |subs| && subs[y].first <= j < subs[y].last;
      assert IsRun(f.possible, keys, subs[y].first, subs[y].last);
      assert j in Class(f, i, r);
    }
  }

  /** A run is a group of the next round once it has its weight. */
  lemma CutIsGroup(f: Flow, calls: Scope -> real, g: Group, r: nat, subs: seq<Group>, x: nat, s: Group)
    requires IsCut(f, calls, g, r, subs) && x < |subs|
    requires s.first == subs[x].first && s.last == subs[x].last
    requires Possible(f, s.first) && r < |f.paths[s.first]| && s.factor == Weight(f, s.first, r + 1)
    ensures GroupOk(f, s, r + 1) && Trimmed(f, s)
  {
    assert IsRun(f.possible, Keys(f.paths, r), s.first, s.last);
    forall i: nat | s.first <= i < s.last && Possible(f, i)
      ensures Fits(f, s, r + 1, i)
    {
      RunFits(f, calls, g, r, subs, x, s, i);
    }
  }

  lemma RunFits(f: Flow, calls: Scope -> real, g: Group, r: nat, subs: seq<Group>, x: nat, s: Group, i: nat)
    requires IsCut(f, calls, g, r, subs) && x < |subs|
    requires s.first == subs[x].first && s.last == subs[x].last
    requires Possible(f, s.first) && r < |f.paths[s.first]| && s.factor == Weight(f, s.first, r + 1)
    requires s.first <= i < s.last && Possible(f, i)
    ensures Fits(f, s, r + 1, i)
  {
    forall j: nat | Possible(f, j)
      ensures j in Class(f, i, r + 1) <==> s.first <= j < s.last
    {
      SameClassSameRun(f, calls, g, r, subs, x, i, j);
    }
    assert IsRun(f.possible, Keys(f.paths, r), s.first, s.last);
    WeightShared(f, i, s.first, r + 1);
  }

  ghost function Divided(w: real, v: real, total: real, n: nat): real
    requires n > 0
  {
    if total > 0.0 then w * v / total else w / n as real
  }

  lemma DividedIsShare(w: real, v: real, total: real, n: nat)
    requires n > 0
    ensures Divided(w, v, total, n) == w * (if total > 0.0 then v / total else 1.0 / n as real)
  {
  }

  lemma DividedIsWeight(f: Flow, i: nat, r: nat, v: real, total: real, n: nat)
    requires Possible(f, i) && r < |f.paths[i]| && n > 0
    requires Ratio(f, i, r) == if total > 0.0 then v / total else 1.0 / n as real
    ensures Weight(f, i, r + 1) == Divided(Weight(f, i, r), v, total, n)
  {
    DividedIsShare(Weight(f, i, r), v, total, n);
  }

  /** Divide a factor over the sub-groups: by call count, or evenly without counts. */
  method Divide(cut: seq<Group>, w: real, total: real) returns (subs: seq<Group>)
    ensures |subs| == |cut|
    ensures forall x :: 0 <= x < |cut| ==> subs[x] == cut[x].(factor := Divided(w, cut[x].factor, total, |cut|))
  {
    subs := cut;
    if total > 0.0 {
      for i := 0 to |subs|
        invariant |subs| == |cut| && forall x :: i <= x < |cut| ==> subs[x] == cut[x]
        invariant forall x :: 0 <= x < i ==> subs[x] == cut[x].(factor := Divided(w, cut[x].factor, total, |cut|))
      {
        subs := subs[i := subs[i].(factor := w * subs[i].factor / total)];
      }
    } else {
      for i := 0 to |subs|
        invariant |subs| == |cut| && forall x :: i <= x < |cut| ==> subs[x] == cut[x]
        invariant forall x :: 0 <= x < i ==> subs[x] == cut[x].(factor := Divided(w, cut[x].factor, total, |cut|))
      {
        subs := subs[i := subs[i].(factor := w / |subs| as real)];
      }
    }
  }

  lemma DividedIsGroup(f: Flow, calls: Scope -> real, g: Group, r: nat, cut: seq<Group>, x: nat, s: Group)
    requires IsCut(f, calls, g, r, cut) && f.share == CallShare(calls) && x < |cut|
    requires s == cut[x].(factor := Divided(g.factor, cut[x].factor, SumFactors(cut), |cut|))
    ensures GroupOk(f, s, r + 1) && Trimmed(f, s)
  {
    CutRatio(f, calls, g, r, cut, x);
    DividedIsWeight(f, s.first, r, cut[x].factor, SumFactors(cut), |cut|);
    CutIsGroup(f, calls, g, r, cut, x, s);
  }

  lemma SameRanges(cut: seq<Group>, subs: seq<Group>)
    requires |subs| == |cut|
    requires forall x :: 0 <= x < |cut| ==> subs[x].first == cut[x].first && subs[x].last == cut[x].last
    ensures forall i: nat {:trigger InGroup(subs, i)} :: InGroup(cut, i) ==> InGroup(subs, i)
  {
    forall i: nat | InGroup(cut, i)
      ensures InGroup(subs, i)
    {
      var x :| 0 <= x < |cut| && cut[x].first <= i < cut[x].last;
      assert subs[x].first <= i < subs[x].last;
    }
  }

  /** Cut one group into the groups of the next round and divide its factor. */
  method SplitGroup(paths: seq<Path>, possible: seq<bool>, calls: Scope -> real, g: Group, r: nat, ghost f: Flow)
    returns (subs: seq<Group>)
    requires f == Flow(paths, possible, CallShare(calls)) && Frozen(f)
    requires GroupOk(f, g, r) && TwoPossible(f, g)
    ensures forall x :: 0 <= x < |subs| ==> GroupOk(f, subs[x], r + 1) && Trimmed(f, subs[x])
    ensures forall x :: 0 <= x < |subs| ==> g.first <= subs[x].first < g.last
    ensures forall i: nat {:trigger InGroup(subs, i)} :: g.first <= i < g.last && Possible(f, i) ==> InGroup(subs, i)
  {
    GroupKeys(f, g, r);
    var cut, total := ScanGroup(paths, possible, calls, g, r, Keys(paths, r));
    subs := Divide(cut, g.factor, total);
    SameRanges(cut, subs);
    forall x | 0 <= x < |subs|
      ensures GroupOk(f, subs[x], r + 1) && Trimmed(f, subs[x])
    {
      DividedIsGroup(f, calls, g, r, cut, x, subs[x]);
    }
  }

  lemma InGroupConcat(a: seq<Group>, b: seq<Group>)
    ensures forall i: nat {:trigger InGroup(a + b, i)} :: InGroup(a + b, i) <==> InGroup(a, i) || InGroup(b, i)
  {
    forall i: nat
      ensures InGroup(a + b, i) <==> InGroup(a, i) || InGroup(b, i)
    {
      if InGroup(a, i) {
        var x :| 0 <= x < |a| && a[x].first <= i < a[x].last;
        assert (a + b)[x] == a[x];
      }
      if InGroup(b, i) {
        var x :| 0 <= x < |b| && b[x].first <= i < b[x].last;
        assert (a + b)[|a| + x] == b[x];
      }
    }
  }

  /** First pass of a round: split every group. */
  method SplitAll(paths: seq<Path>, possible: seq<bool>, calls: Scope -> real, groups: seq<Group>, r: nat, ghost f: Flow)
    returns (next: seq<Group>)
    requires f == Flow(paths, possible, CallShare(calls)) && Frozen(f)
    requires forall x :: 0 <= x < |groups| ==> GroupOk(f, groups[x], r) && TwoPossible(f, groups[x])
    ensures forall x :: 0 <= x < |next| ==> GroupOk(f, next[x], r + 1) && Trimmed(f, next[x])
    ensures forall x :: 0 <= x < |next| ==> InGroup(groups, next[x].first)
    ensures forall i: nat {:trigger InGroup(next, i)} :: InGroup(groups, i) && Possible(f, i) ==> InGroup(next, i)
  {
    next := [];
    for k := 0 to |groups|
      invariant forall x :: 0 <= x < |next| ==> GroupOk(f, next[x], r + 1) && Trimmed(f, next[x])
      invariant forall x :: 0 <= x < |next| ==> InGroup(groups, next[x].first)
      invariant forall i: nat {:trigger InGroup(next, i)} ::
                  InGroup(groups[..k], i) && Possible(f, i) ==> InGroup(next, i)
    {
      var subs := SplitGroup(paths, possible, calls, groups[k], r, f);
      InGroupConcat(next, subs);
      InGroupConcat(groups[..k], [groups[k]]);
      assert groups[..k + 1] == groups[..k] + [groups[k]];
      next := next + subs;
    }
    assert groups[..|groups|] == groups;
  }

  // ----- Resolving groups

  lemma LonelyIsFinal(f: Flow, r: nat, i: nat)
    requires Frozen(f) && Possible(f, i) && r <= |f.paths[i]|
    requires forall j :: j in Class(f, i, r) ==> j == i
    ensures Factor(f, i) == Weight(f, i, r)
  {
    assert i in Class(f, i, r);
    assert Class(f, i, r) == {i};
    AloneKeepsWeight(f, i, r, |f.paths[i]|);
  }

  lemma ClassInGroup(f: Flow, g: Group, r: nat, i: nat, j: nat)
    requires GroupOk(f, g, r) && g.first <= i < g.last && Possible(f, i) && Possible(f, j)
    ensures j in Class(f, i, r) <==> g.first <= j < g.last
  {
    assert Fits(f, g, r, i);
  }

  /** A group of one template, or one whose first path has ended, has one
    possible template. */
  lemma SettledIsLonely(f: Flow, g: Group, r: nat, i: nat)
    requires Frozen(f) && GroupOk(f, g, r) && Trimmed(f, g)
    requires |f.paths[g.first]| == r || g.last - g.first == 1
    requires g.first <= i < g.last && Possible(f, i)
    ensures forall j :: j in Class(f, i, r) ==> j == i
  {
    if |f.paths[g.first]| == r {
      EndedIsAlone(f, g.first);
      ClassInGroup(f, g, r, g.first, i);
    } else {
      forall j | j in Class(f, i, r)
        ensures j == i
      {
        ClassInGroup(f, g, r, i, j);
      }
    }
  }

  lemma GroupWeight(f: Flow, g: Group, r: nat, i: nat)
    requires GroupOk(f, g, r) && g.first <= i < g.last && Possible(f, i)
    ensures r <= |f.paths[i]| && g.factor == Weight(f, i, r)
  {
    assert Fits(f, g, r, i);
  }

  /** When a group stops being processed, its factor is the factor of all its
    possible templates. */
  lemma ResolvedIsFinal(f: Flow, g: Group, r: nat, i: nat)
    requires Frozen(f) && GroupOk(f, g, r) && Trimmed(f, g)
    requires g.factor == 0.0 || |f.paths[g.first]| == r || g.last - g.first == 1
    requires g.first <= i < g.last && Possible(f, i)
    ensures Factor(f, i) == g.factor
  {
    GroupWeight(f, g, r, i);
    if g.factor == 0.0 {
      NothingStaysNothing(f, i, r, |f.paths[i]|);
    } else {
      SettledIsLonely(f, g, r, i);
      LonelyIsFinal(f, r, i);
    }
  }

  /** The group is not processed any further. */
  predicate Stops(paths: seq<Path>, g: Group, r: nat)
    requires g.first < |paths|
  {
    g.factor == 0.0 || |paths[g.first]| == r || g.last - g.first == 1
  }

  /** The possible templates of the group end up with its factor. */
  ghost predicate IsGoal(possible: seq<bool>, g: Group, goal: nat -> real) {
    g.last <= |possible| && forall i: nat :: g.first <= i < g.last && possible[i] ==> goal(i) == g.factor
  }

  ghost predicate Towards(possible: seq<bool>, goal: nat -> real, factors: seq<real>, factors': seq<real>) {
    && |factors'| == |factors| == |possible|
    && forall i: nat :: i < |factors| ==> factors'[i] == factors[i] || (possible[i] && factors'[i] == goal(i))
  }

  method Assign(possible: seq<bool>, g: Group, factors: seq<real>, ghost goal: nat -> real) returns (factors': seq<real>)
    requires g.first <= g.last && |factors| == |possible| && IsGoal(possible, g, goal)
    ensures |factors'| == |factors|
    ensures forall i: nat :: i < |factors| ==>
                               factors'[i] == if g.first <= i < g.last && possible[i] then goal(i) else factors[i]
  {
    factors' := factors;
    for i := g.first to g.last
      invariant |factors'| == |factors|
      invariant forall j: nat :: j < |factors| ==>
                                   factors'[j] == if g.first <= j < i && possible[j] then goal(j) else factors[j]
    {
      if possible[i] {
        factors' := factors'[i := g.factor];
      }
    }
  }

  /** The second pass, for any goal that settled groups have reached, keeping the others. */
  method ResolveTo(paths: seq<Path>, possible: seq<bool>, groups: seq<Group>, r: nat, factors: seq<real>,
                   ghost goal: nat -> real, ghost keep: Group -> bool)
    returns (next: seq<Group>, factors': seq<real>)
    requires |factors| == |paths| == |possible|
    requires forall x :: 0 <= x < |groups| ==> groups[x].first < groups[x].last <= |paths|
    requires forall x :: 0 <= x < |groups| ==> if Stops(paths, groups[x], r) then IsGoal(possible, groups[x], goal) else keep(groups[x])
    ensures Towards(possible, goal, factors, factors') && forall x :: 0 <= x < |next| ==> keep(next[x])
    ensures forall x :: 0 <= x < |groups| && !Stops(paths, groups[x], r) ==> groups[x] in next
    ensures forall i: nat {:trigger InGroup(next, i)} :: i < |factors| && InGroup(groups, i) && possible[i] ==>
                                                           InGroup(next, i) || factors'[i] == goal(i)
  {
    next, factors' := [], factors;
    for k := 0 to |groups|
      invariant Towards(possible, goal, factors, factors') && forall x :: 0 <= x < |next| ==> keep(next[x])
      invariant forall x :: 0 <= x < k && !Stops(paths, groups[x], r) ==> groups[x] in next
      invariant forall i: nat {:trigger InGroup(next, i)} ::
                  i < |factors| && InGroup(groups[..k], i) && possible[i] ==> InGroup(next, i) || factors'[i] == goal(i)
    {
      var g := groups[k];
      assert groups[..k + 1] == groups[..k] + [g];
      InGroupConcat(groups[..k], [g]);
      if Stops(paths, g, r) {
        factors' := Assign(possible, g, factors', goal);
      } else {
        InGroupConcat(next, [g]);
        assert [g][0] == g;
        next := next + [g];
      }
    }
    assert groups[..|groups|] == groups;
  }

  /** A group that is processed further. */
  ghost predicate IsOpen(f: Flow, g: Group, r: nat) {
    GroupOk(f, g, r) && TwoPossible(f, g) && g.factor != 0.0
  }

  ghost function Kept(f: Flow, r: nat): Group -> bool {
    (g: Group) => IsOpen(f, g, r)
  }

  lemma SettledOrKept(f: Flow, g: Group, r: nat)
    requires Frozen(f) && GroupOk(f, g, r) && Trimmed(f, g)
    ensures if Stops(f.paths, g, r) then IsGoal(f.possible, g, Factors(f)) else Kept(f, r)(g)
  {
    if Stops(f.paths, g, r) {
      forall i: nat | g.first <= i < g.last && f.possible[i]
        ensures Factors(f)(i) == g.factor
      {
        ResolvedIsFinal(f, g, r, i);
      }
    }
  }

  /** Second pass of a round: assign the factors of groups that are settled. */
  method Resolve(paths: seq<Path>, possible: seq<bool>, groups: seq<Group>, r: nat, factors: seq<real>, ghost f: Flow)
    returns (next: seq<Group>, factors': seq<real>)
    requires f.paths == paths && f.possible == possible && Frozen(f) && |factors| == |paths|
    requires forall x :: 0 <= x < |groups| ==> GroupOk(f, groups[x], r + 1) && Trimmed(f, groups[x])
    ensures |factors'| == |factors|
    ensures forall x :: 0 <= x < |next| ==> IsOpen(f, next[x], r + 1)
    ensures forall x :: 0 <= x < |groups| && groups[x].first < |paths| && !Stops(paths, groups[x], r + 1) ==> groups[x] in next
    ensures forall i :: 0 <= i < |factors| ==> factors'[i] == factors[i] || (possible[i] && factors'[i] == Factor(f, i))
    ensures forall i: nat {:trigger InGroup(next, i)} :: i < |factors| && InGroup(groups, i) && possible[i] ==>
                                                           InGroup(next, i) || factors'[i] == Factor(f, i)
  {
    forall x | 0 <= x < |groups|
      ensures if Stops(paths, groups[x], r + 1) then IsGoal(possible, groups[x], Factors(f)) else Kept(f, r + 1)(groups[x])
    {
      SettledOrKept(f, groups[x], r + 1);
    }
    next, factors' := ResolveTo(paths, possible, groups, r + 1, factors, Factors(f), Kept(f, r + 1));
  }

  // ----- All rounds

  ghost predicate RoundOk(f: Flow, groups: seq<Group>, r: nat, factors: seq<real>) {
    && |factors| == |f.paths|
    && (forall x :: 0 <= x < |groups| ==> IsOpen(f, groups[x], r))
    && (forall i: nat {:trigger InGroup(groups, i)} ::
          i < |factors| ==> (InGroup(groups, i) && Possible(f, i)) || factors[i] == Factor(f, i))
  }

  lemma GroupBound(f: Flow, g: Group, r: nat)
    requires Frozen(f) && GroupOk(f, g, r) && TwoPossible(f, g)
    ensures r < MaxLen(f.paths)
  {
    var i: nat, j: nat :| g.first <= i < j < g.last && Possible(f, i) && Possible(f, j);
    GroupGoesOn(f, g, r, i, j);
    assert f.paths[i] in f.paths;
  }

  lemma WholeIsGroup(f: Flow, one: nat, two: nat)
    requires Frozen(f) && one < two && Possible(f, one) && Possible(f, two)
    ensures var whole := [Group(0, |f.paths|, 1.0)];
            RoundOk(f, whole, 0, seq(|f.paths|, _ => 0.0))
  {
    var g := Group(0, |f.paths|, 1.0);
    assert TwoPossible(f, g) by { assert g.first <= one < two < g.last; }
    forall i: nat | Possible(f, i)
      ensures Fits(f, g, 0, i)
    {
      forall j: nat | Possible(f, j)
        ensures j in Class(f, i, 0)
      {
        assert f.paths[i][|f.paths[i]|..] == f.paths[j][|f.paths[j]|..];
      }
    }
    assert GroupOk(f, g, 0) by { assert g.first <= one < g.last && Possible(f, one); }
    var factors: seq<real> := seq(|f.paths|, _ => 0.0);
    forall i: nat | i < |f.paths|
      ensures InGroup([g], i) && (Possible(f, i) || factors[i] == Factor(f, i))
    {
      assert [g][0] == g && factors[i] == 0.0;
    }
  }

  lemma RoundStep(f: Flow, groups: seq<Group>, split: seq<Group>, rest: seq<Group>, r: nat,
                  factors: seq<real>, factors': seq<real>)
    requires RoundOk(f, groups, r, factors) && |factors'| == |factors| && |f.possible| == |f.paths|
    requires forall i: nat {:trigger InGroup(split, i)} :: InGroup(groups, i) && Possible(f, i) ==> InGroup(split, i)
    requires forall x :: 0 <= x < |rest| ==> IsOpen(f, rest[x], r + 1)
    requires forall i :: 0 <= i < |factors| ==>
                           factors'[i] == factors[i] || (f.possible[i] && factors'[i] == Factor(f, i))
    requires forall i: nat {:trigger InGroup(rest, i)} :: i < |factors| && InGroup(split, i) && f.possible[i] ==>
                                                            InGroup(rest, i) || factors'[i] == Factor(f, i)
    ensures RoundOk(f, rest, r + 1, factors')
  {
    forall i: nat | i < |factors|
      ensures (InGroup(rest, i) && Possible(f, i)) || factors'[i] == Factor(f, i)
    {
      assert InGroup(groups, i) && Possible(f, i) ==> InGroup(split, i);
    }
  }

  // ----- The calls whose counts are looked up

  /** Template i still has company after its k innermost calls, and something to share. */
  ghost predicate Undecided(f: Flow, i: nat, k: nat) {
    Possible(f, i) && k < |f.paths[i]| && Weight(f, i, k) != 0.0 && exists j :: j in Class(f, i, k) && j != i
  }

  /** The calls whose counts decide the factors: those of undecided templates. */
  ghost function Looked(f: Flow): set<Scope> {
    set i: nat, k: nat | i < |f.paths| && k < |f.paths[i]| && Undecided(f, i, k) :: RAt(f.paths[i], k)
  }

  ghost function LookedIn(f: Flow, k: nat): set<Scope> {
    set i: nat | i < |f.paths| && Undecided(f, i, k) :: RAt(f.paths[i], k)
  }

  ghost function LookedBefore(f: Flow, r: nat): set<Scope> {
    set i: nat, k: nat | i < |f.paths| && k < r && Undecided(f, i, k) :: RAt(f.paths[i], k)
  }

  lemma LookedMore(f: Flow, r: nat)
    ensures LookedBefore(f, r + 1) == LookedBefore(f, r) + LookedIn(f, r)
  {
    forall s | s in LookedBefore(f, r + 1)
      ensures s in LookedBefore(f, r) || s in LookedIn(f, r)
    {
      var i: nat, k: nat :| i < |f.paths| && k < r + 1 && Undecided(f, i, k) && s == RAt(f.paths[i], k);
    }
    forall s | s in LookedBefore(f, r)
      ensures s in LookedBefore(f, r + 1)
    {
      var i: nat, k: nat :| i < |f.paths| && k < r && Undecided(f, i, k) && s == RAt(f.paths[i], k);
    }
  }

  /** The groups hold exactly the undecided templates. */
  ghost predicate HoldUndecided(f: Flow, groups: seq<Group>, r: nat) {
    forall i: nat {:trigger InGroup(groups, i)} :: Possible(f, i) ==> (InGroup(groups, i) <==> Undecided(f, i, r))
  }

  lemma OpenIsUndecided(f: Flow, g: Group, r: nat, i: nat)
    requires Frozen(f) && IsOpen(f, g, r) && g.first <= i < g.last && Possible(f, i)
    ensures Undecided(f, i, r)
  {
    var a: nat, b: nat :| g.first <= a < b < g.last && Possible(f, a) && Possible(f, b);
    var j := if i == a then b else a;
    GroupWeight(f, g, r, i);
    ClassInGroup(f, g, r, i, j);
    ClassOfTwoGoesOn(f, i, j, r);
  }

  lemma UndecidedGoesOn(f: Flow, g: Group, r: nat, i: nat)
    requires Frozen(f) && GroupOk(f, g, r) && Trimmed(f, g) && g.first <= i < g.last && Undecided(f, i, r)
    ensures !Stops(f.paths, g, r)
  {
    var j :| j in Class(f, i, r) && j != i;
    GroupWeight(f, g, r, i);
    ClassInGroup(f, g, r, i, j);
    ClassInGroup(f, g, r, g.first, i);
    ClassInGroup(f, g, r, g.first, j);
    ClassOfTwoGoesOn(f, g.first, if i == g.first then j else i, r);
  }

  lemma UndecidedBefore(f: Flow, i: nat, k: nat)
    requires Undecided(f, i, k + 1)
    ensures Undecided(f, i, k)
  {
    ClassShrinks(f, i, k, k + 1);
    var j :| j in Class(f, i, k + 1) && j != i;
    assert j in Class(f, i, k);
  }

  lemma WholeUndecided(f: Flow, one: nat, two: nat)
    requires Frozen(f) && one < two && Possible(f, one) && Possible(f, two)
    ensures HoldUndecided(f, [Group(0, |f.paths|, 1.0)], 0)
  {
    var g := Group(0, |f.paths|, 1.0);
    WholeIsGroup(f, one, two);
    assert IsOpen(f, [g][0], 0);
    forall i: nat | Possible(f, i)
      ensures InGroup([g], i) && Undecided(f, i, 0)
    {
      assert [g][0] == g;
      OpenIsUndecided(f, g, 0, i);
    }
  }

  lemma KeepsUndecided(f: Flow, split: seq<Group>, rest: seq<Group>, r: nat, i: nat)
    requires Frozen(f) && Undecided(f, i, r) && InGroup(split, i)
    requires forall x :: 0 <= x < |split| ==> GroupOk(f, split[x], r) && Trimmed(f, split[x])
    requires forall x :: 0 <= x < |split| && split[x].first < |f.paths| && !Stops(f.paths, split[x], r) ==> split[x] in rest
    ensures InGroup(rest, i)
  {
    var x :| 0 <= x < |split| && split[x].first <= i < split[x].last;
    UndecidedGoesOn(f, split[x], r, i);
    assert split[x] in rest;
  }

  lemma HeldIsUndecided(f: Flow, groups: seq<Group>, r: nat, i: nat)
    requires Frozen(f) && Possible(f, i) && InGroup(groups, i)
    requires forall x :: 0 <= x < |groups| ==> IsOpen(f, groups[x], r)
    ensures Undecided(f, i, r)
  {
    var x :| 0 <= x < |groups| && groups[x].first <= i < groups[x].last;
    OpenIsUndecided(f, groups[x], r, i);
  }

  lemma StillUndecided(f: Flow, groups: seq<Group>, split: seq<Group>, rest: seq<Group>, r: nat)
    requires Frozen(f) && HoldUndecided(f, groups, r)
    requires forall x :: 0 <= x < |split| ==> GroupOk(f, split[x], r + 1) && Trimmed(f, split[x])
    requires forall i: nat {:trigger InGroup(split, i)} :: InGroup(groups, i) && Possible(f, i) ==> InGroup(split, i)
    requires forall x :: 0 <= x < |rest| ==> IsOpen(f, rest[x], r + 1)
    requires forall x :: 0 <= x < |split| && split[x].first < |f.paths| && !Stops(f.paths, split[x], r + 1) ==> split[x] in rest
    ensures HoldUndecided(f, rest, r + 1)
  {
    forall i: nat | Possible(f, i)
      ensures InGroup(rest, i) <==> Undecided(f, i, r + 1)
    {
      if InGroup(rest, i) {
        HeldIsUndecided(f, rest, r + 1, i);
      } else if Undecided(f, i, r + 1) {
        UndecidedBefore(f, i, r);
        assert InGroup(groups, i) && InGroup(split, i);
        KeepsUndecided(f, split, rest, r + 1, i);
      }
    }
  }

  /** The counts of one round: one for each sub-group. */
  method LookUps(paths: seq<Path>, split: seq<Group>, r: nat) returns (looked: set<Scope>)
    requires forall x :: 0 <= x < |split| ==> split[x].first < |paths| && r < |paths[split[x].first]|
    ensures forall s :: s in looked <==> exists x :: 0 <= x < |split| && s == RAt(paths[split[x].first], r)
  {
    looked := {};
    for k := 0 to |split|
      invariant forall s :: s in looked <==> exists x :: 0 <= x < k && s == RAt(paths[split[x].first], r)
    {
      looked := looked + {RAt(paths[split[k].first], r)};
    }
  }

  lemma FirstUndecided(f: Flow, groups: seq<Group>, g: Group, r: nat)
    requires Frozen(f) && HoldUndecided(f, groups, r) && Trimmed(f, g) && InGroup(groups, g.first)
    ensures Undecided(f, g.first, r)
  {
  }

  lemma LooksLikeFirst(f: Flow, g: Group, r: nat, i: nat)
    requires Frozen(f) && GroupOk(f, g, r + 1) && Trimmed(f, g) && g.first <= i < g.last && Possible(f, i)
    ensures r < |f.paths[g.first]| && r < |f.paths[i]| && RAt(f.paths[g.first], r) == RAt(f.paths[i], r)
  {
    GroupWeight(f, g, r + 1, i);
    GroupWeight(f, g, r + 1, g.first);
    ClassInGroup(f, g, r + 1, i, g.first);
    ClassShrinks(f, i, r, r + 1);
    ClassStep(f, i, r);
  }

  lemma LookUpsAre(f: Flow, groups: seq<Group>, split: seq<Group>, r: nat, looked: set<Scope>)
    requires Frozen(f) && HoldUndecided(f, groups, r)
    requires forall x :: 0 <= x < |split| ==> GroupOk(f, split[x], r + 1) && Trimmed(f, split[x]) && InGroup(groups, split[x].first)
    requires forall i: nat {:trigger InGroup(split, i)} :: InGroup(groups, i) && Possible(f, i) ==> InGroup(split, i)
    requires forall x :: 0 <= x < |split| ==> split[x].first < |f.paths| && r < |f.paths[split[x].first]|
    requires forall s :: s in looked <==> exists x :: 0 <= x < |split| && s == RAt(f.paths[split[x].first], r)
    ensures looked == LookedIn(f, r)
  {
    forall s | s in looked
      ensures s in LookedIn(f, r)
    {
      var x :| 0 <= x < |split| && s == RAt(f.paths[split[x].first], r);
      FirstUndecided(f, groups, split[x], r);
    }
    forall s | s in LookedIn(f, r)
      ensures s in looked
    {
      var i: nat :| i < |f.paths| && Undecided(f, i, r) && RAt(f.paths[i], r) == s;
      assert InGroup(split, i);
      var x :| 0 <= x < |split| && split[x].first <= i < split[x].last;
      LooksLikeFirst(f, split[x], r, i);
    }
  }

  method LookUpsOf(paths: seq<Path>, groups: seq<Group>, split: seq<Group>, r: nat, ghost f: Flow)
    returns (looked: set<Scope>)
    requires Frozen(f) && f.paths == paths && HoldUndecided(f, groups, r)
    requires forall x :: 0 <= x < |split| ==> GroupOk(f, split[x], r + 1) && Trimmed(f, split[x])
    requires forall x :: 0 <= x < |split| ==> InGroup(groups, split[x].first)
    requires forall i: nat {:trigger InGroup(split, i)} :: InGroup(groups, i) && Possible(f, i) ==> InGroup(split, i)
    ensures looked == LookedIn(f, r)
  {
    forall x | 0 <= x < |split|
      ensures split[x].first < |paths| && r < |paths[split[x].first]|
    {
      LooksLikeFirst(f, split[x], r, split[x].first);
    }
    looked := LookUps(paths, split, r);
    LookUpsAre(f, groups, split, r, looked);
  }

  lemma NothingHeld(f: Flow, groups: seq<Group>, r: nat)
    requires HoldUndecided(f, groups, r) && groups == []
    ensures forall i: nat :: !Undecided(f, i, r)
  {
    forall i: nat
      ensures !Undecided(f, i, r)
    {
      assert !InGroup(groups, i);
    }
  }

  lemma {:induction false} StaysDecided(f: Flow, i: nat, r: nat, k: nat)
    requires r <= k && !Undecided(f, i, r)
    ensures !Undecided(f, i, k)
  {
    if r < k {
      StaysDecided(f, i, r, k - 1);
      if Undecided(f, i, k) { UndecidedBefore(f, i, k - 1); }
    }
  }

  lemma NoneLeft(f: Flow, r: nat)
    requires forall i: nat :: !Undecided(f, i, r)
    ensures Looked(f) == LookedBefore(f, r)
  {
    forall i: nat, k: nat | Undecided(f, i, k)
      ensures k < r
    {
      if r <= k { StaysDecided(f, i, r, k); }
    }
  }

  lemma OnlyPossible(f: Flow, i: nat)
    requires Frozen(f) && Possible(f, i) && forall j :: Possible(f, j) ==> j == i
    ensures Factor(f, i) == 1.0
  {
    LonelyIsFinal(f, 0, i);
  }

  /** Positions of the first two possible templates, or the length where there are none. */
  method FirstTwo(possible: seq<bool>) returns (one: nat, two: nat)
    ensures one <= two <= |possible| && (one == two ==> one == |possible|)
    ensures one < |possible| ==> possible[one]
    ensures two < |possible| ==> possible[two]
    ensures forall i :: 0 <= i < two && possible[i] ==> i == one
  {
    one, two := |possible|, |possible|;
    for i := 0 to |possible|
      invariant two == |possible| && (one < i || one == |possible|)
      invariant one < |possible| ==> possible[one]
      invariant forall j :: 0 <= j < i && possible[j] ==> j == one
    {
      if possible[i] {
        if one < |possible| {
          two := i;
          break;
        }
        one := i;
      }
    }
  }

  /** Two templates are possible. */
  ghost predicate Several(possible: seq<bool>) {
    exists i, j :: 0 <= i < j < |possible| && possible[i] && possible[j]
  }

  /** With at most one possible template there is nothing to share, by any rule. */
  method Shortcut(paths: seq<Path>, possible: seq<bool>) returns (done: bool, factors: seq<real>)
    requires |paths| == |possible| && Sorted(paths) && SuffixFree(paths)
    ensures done <==> !Several(possible)
    ensures done ==> forall share :: Fair(share) ==> AreFactors(Flow(paths, possible, share), factors)
  {
    factors := [];
    if |paths| == 1 {
      factors := [if possible[0] then 1.0 else 0.0];
      AtMostOne(paths, possible, 0, factors);
      return true, factors;
    }
    var one, two := FirstTwo(possible);
    if two == |possible| {
      factors := seq(|paths|, _ => 0.0);
      if one < |possible| {
        factors := factors[one := 1.0];
      }
      AtMostOne(paths, possible, one, factors);
      return true, factors;
    }
    done := false;
  }

  lemma AtMostOne(paths: seq<Path>, possible: seq<bool>, one: nat, factors: seq<real>)
    requires |factors| == |paths| == |possible| && Sorted(paths) && SuffixFree(paths)
    requires forall i :: 0 <= i < |possible| && possible[i] ==> i == one
    requires forall i :: 0 <= i < |factors| ==> factors[i] == if possible[i] then 1.0 else 0.0
    ensures forall share :: Fair(share) ==> AreFactors(Flow(paths, possible, share), factors)
  {
    forall share | Fair(share)
      ensures AreFactors(Flow(paths, possible, share), factors)
    {
      var f := Flow(paths, possible, share);
      if Possible(f, one) { OnlyPossible(f, one); }
    }
  }

  /** All rounds. The result is, template by template, the product of call shares, whatever
    the grouping does, and the counts looked up are those of undecided templates. */
  method Rounds(paths: seq<Path>, possible: seq<bool>, calls: Scope -> real,
                ghost f: Flow, ghost one: nat, ghost two: nat)
    returns (factors: seq<real>, looked: set<Scope>)
    requires f == Flow(paths, possible, CallShare(calls)) && Frozen(f)
    requires one < two && Possible(f, one) && Possible(f, two)
    ensures AreFactors(f, factors) && looked == Looked(f)
  {
    factors, looked := seq(|paths|, _ => 0.0), {};
    var groups := [Group(0, |paths|, 1.0)];
    var ridx: nat := 0;
    WholeIsGroup(f, one, two);
    WholeUndecided(f, one, two);
    GroupBound(f, groups[0], 0);
    while groups != []
      invariant RoundOk(f, groups, ridx, factors)
      invariant HoldUndecided(f, groups, ridx) && looked == LookedBefore(f, ridx)
      invariant ridx <= MaxLen(paths) && (groups != [] ==> ridx < MaxLen(paths))
      decreases MaxLen(paths) - ridx
    {
      var split := SplitAll(paths, possible, calls, groups, ridx, f);
      var counted := LookUpsOf(paths, groups, split, ridx, f);
      var rest, factors' := Resolve(paths, possible, split, ridx, factors, f);
      RoundStep(f, groups, split, rest, ridx, factors, factors');
      StillUndecided(f, groups, split, rest, ridx);
      LookedMore(f, ridx);
      looked := looked + counted;
      groups, factors, ridx := rest, factors', ridx + 1;
      if groups != [] { GroupBound(f, groups[0], ridx); }
    }
    forall i: nat | i < |factors|
      ensures factors[i] == Factor(f, i)
    {
      assert !InGroup(groups, i);
    }
    NothingHeld(f, groups, ridx);
    NoneLeft(f, ridx);
  }
}

/** The logical content of the two-level hash table: a sparse index over a dense list
  of entries. All facts the table's operations rely on are proved here on values. */
module IndexTable {
  import opened Common
  import opened Probing

  const EMPTY: int := -1
  const DELETED: int := -2
  const INVALID_INDEX: int := -99

  ghost function HashIn<K>(hash: (K, nat) -> nat, k: K, size: nat): (h: nat)
    requires size > 0
    ensures h < size
  {
    hash(k, size) % size
  }

  /** Entry d sits at slot `slots[d]`, the `dists[d]`-th probe of its key, and no
    earlier probe is EMPTY. */
  ghost predicate Placed<K(!new)>(hash: (K, nat) -> nat, index: seq<int>, k: K, slot: nat, dist: nat, d: nat)
    requires |index| > 0
  {
    && slot < |index| && dist < |index| && index[slot] == d
    && slot == Probe(HashIn(hash, k, |index|), dist, |index|)
    && NoEmptyBefore(hash, index, k, dist)
  }

  ghost predicate NoEmptyBefore<K(!new)>(hash: (K, nat) -> nat, index: seq<int>, k: K, dist: nat)
    requires |index| > 0
  {
    forall t: nat :: t < dist ==> index[Probe(HashIn(hash, k, |index|), t, |index|)] != EMPTY
  }

  ghost predicate TableOk<K(!new)>(hash: (K, nat) -> nat, index: seq<int>, keys: seq<K>, slots: seq<nat>, dists: seq<nat>) {
    && |index| % 2 == 1 && |keys| == |slots| == |dists|
    && Distinct(keys)
    && (forall i :: 0 <= i < |index| ==>
          index[i] == EMPTY || index[i] == DELETED || (0 <= index[i] < |keys| && slots[index[i]] == i))
    && (forall d :: 0 <= d < |keys| ==> Placed(hash, index, keys[d], slots[d], dists[d], d))
  }

  // ----- Looking up a key

  /** What a look-up of k must answer: the slot of its entry; a slot where it could
    be put; or INVALID_INDEX when the table has neither. */
  ghost predicate Answer<K(!new)>(hash: (K, nat) -> nat, index: seq<int>, keys: seq<K>, k: K, r: int)
    requires |index| > 0
  {
    if r == INVALID_INDEX then
      k !in keys && EMPTY !in index
    else
      && 0 <= r < |index|
      && if index[r] >= 0 then index[r] < |keys| && keys[index[r]] == k
         else k !in keys && CanPut(hash, index, k, r)
  }

  ghost predicate CanPut<K(!new)>(hash: (K, nat) -> nat, index: seq<int>, k: K, r: nat)
    requires |index| > 0
  {
    exists t: nat :: t < |index| && r == Probe(HashIn(hash, k, |index|), t, |index|) && NoEmptyBefore(hash, index, k, t)
  }

  /** The state of a scan for k after t probes: nothing EMPTY and no entry of k yet. */
  ghost predicate Scanned<K(!new)>(hash: (K, nat) -> nat, index: seq<int>, keys: seq<K>, k: K, t: nat)
    requires |index| > 0
  {
    && NoEmptyBefore(hash, index, k, t)
    && forall s: nat :: s < t ==>
                          var i := Probe(HashIn(hash, k, |index|), s, |index|);
                          0 <= index[i] < |keys| ==> keys[index[i]] != k
  }

  /** One of the first t probes for k is the DELETED slot i. */
  ghost predicate IsDeleted<K(!new)>(hash: (K, nat) -> nat, index: seq<int>, k: K, t: nat, i: int)
    requires |index| > 0
  {
    0 <= i < |index| && index[i] == DELETED && HitBefore(HashIn(hash, k, |index|), t, |index|, i)
  }

  /** The scan does not come back to it before the round is over. */
  lemma NotTwice<K(!new)>(hash: (K, nat) -> nat, index: seq<int>, k: K, t: nat, i: int)
    requires |index| % 2 == 1 && t < |index| && IsDeleted(hash, index, k, t, i)
    ensures i != Probe(HashIn(hash, k, |index|), t, |index|)
  {
    var h := HashIn(hash, k, |index|);
    var s: nat :| s < t && Probe(h, s, |index|) == i;
    ProbesDiffer(h, s, t, |index|);
  }

  lemma DeletedStays<K(!new)>(hash: (K, nat) -> nat, index: seq<int>, k: K, t: nat, i: int)
    requires |index| > 0
    ensures IsDeleted(hash, index, k, t, i) ==> IsDeleted(hash, index, k, t + 1, i)
    ensures var slot := Probe(HashIn(hash, k, |index|), t, |index|);
            index[slot] == DELETED ==> IsDeleted(hash, index, k, t + 1, slot)
  {
    var h := HashIn(hash, k, |index|);
    if IsDeleted(hash, index, k, t, i) {
      var s: nat :| s < t && Probe(h, s, |index|) == i;
      assert s < t + 1;
    }
    assert t < t + 1;
  }

  lemma ScannedStep<K(!new)>(hash: (K, nat) -> nat, index: seq<int>, keys: seq<K>, k: K, t: nat)
    requires |index| > 0 && Scanned(hash, index, keys, k, t)
    requires var i := Probe(HashIn(hash, k, |index|), t, |index|);
             index[i] != EMPTY && (0 <= index[i] < |keys| ==> keys[index[i]] != k)
    ensures Scanned(hash, index, keys, k, t + 1)
  {
  }

  /** Meeting EMPTY proves that the key is absent. */
  lemma EmptyMeansAbsent<K(!new)>(hash: (K, nat) -> nat, index: seq<int>, keys: seq<K>, slots: seq<nat>, dists: seq<nat>,
                                  k: K, t: nat)
    requires TableOk(hash, index, keys, slots, dists) && Scanned(hash, index, keys, k, t)
    requires index[Probe(HashIn(hash, k, |index|), t, |index|)] == EMPTY
    ensures k !in keys
  {
    forall d | 0 <= d < |keys|
      ensures keys[d] != k
    {
      assert Placed(hash, index, keys[d], slots[d], dists[d], d);
    }
  }

  /** A scan that came all the way round has seen every slot. */
  lemma WrapMeansAbsent<K(!new)>(hash: (K, nat) -> nat, index: seq<int>, keys: seq<K>, slots: seq<nat>, dists: seq<nat>, k: K)
    requires TableOk(hash, index, keys, slots, dists) && Scanned(hash, index, keys, k, |index|)
    ensures k !in keys && EMPTY !in index
  {
    forall d | 0 <= d < |keys|
      ensures keys[d] != k
    {
      assert Placed(hash, index, keys[d], slots[d], dists[d], d);
    }
    forall i | 0 <= i < |index|
      ensures index[i] != EMPTY
    {
      var t := ProbeReaches(HashIn(hash, k, |index|), i, |index|);
    }
  }

  // ----- Changing the table

  lemma PutKeeps<K(!new)>(hash: (K, nat) -> nat, index: seq<int>, keys: seq<K>, slots: seq<nat>, dists: seq<nat>,
                          k: K, r: nat, t: nat)
    requires TableOk(hash, index, keys, slots, dists) && k !in keys
    requires t < |index| && r == Probe(HashIn(hash, k, |index|), t, |index|) && NoEmptyBefore(hash, index, k, t)
    requires index[r] < 0
    ensures TableOk(hash, index[r := |keys|], keys + [k], slots + [r], dists + [t])
  {
    var index', keys', slots', dists' := index[r := |keys|], keys + [k], slots + [r], dists + [t];
    forall d | 0 <= d < |keys'|
      ensures Placed(hash, index', keys'[d], slots'[d], dists'[d], d)
    {
      if d < |keys| {
        assert Placed(hash, index, keys[d], slots[d], dists[d], d);
      }
    }
  }

  /** Deletion: the last entry moves into the hole and the hole's slot is marked. */
  lemma DeleteKeeps<K(!new)>(hash: (K, nat) -> nat, index: seq<int>, keys: seq<K>, slots: seq<nat>, dists: seq<nat>, d: nat)
    requires TableOk(hash, index, keys, slots, dists) && d < |keys|
    ensures slots[d] < |index| && slots[|keys| - 1] < |index|
    ensures var n := |keys| - 1;
            TableOk(hash, index[slots[n] := d][slots[d] := DELETED], keys[d := keys[n]][..n],
                    slots[d := slots[n]][..n], dists[d := dists[n]][..n])
  {
    var n := |keys| - 1;
    assert Placed(hash, index, keys[d], slots[d], dists[d], d);
    assert Placed(hash, index, keys[n], slots[n], dists[n], n);
    var index' := index[slots[n] := d][slots[d] := DELETED];
    var keys', slots', dists' := keys[d := keys[n]][..n], slots[d := slots[n]][..n], dists[d := dists[n]][..n];
    forall e | 0 <= e < |keys'|
      ensures Placed(hash, index', keys'[e], slots'[e], dists'[e], e)
    {
      var was := if e == d then n else e;
      assert Placed(hash, index, keys[was], slots[was], dists[was], was);
    }
  }

  // ----- Counting slots

  lemma ElemsLast(s: seq<nat>, n: nat)
    requires n < |s|
    ensures Elems(s[..n + 1]) == Elems(s[..n]) + {s[n]}
  {
    assert s[..n + 1] == s[..n] + [s[n]];
  }

  lemma {:induction false} ElementsCount(s: seq<nat>, n: nat)
    requires n <= |s|
    ensures |Elems(s[..n])| <= n
    ensures Distinct(s) ==> |Elems(s[..n])| == n
  {
    if n == 0 {
      assert Elems(s[..0]) == {};
    } else {
      ElementsCount(s, n - 1);
      ElemsLast(s, n - 1);
    }
  }

  lemma {:induction false} AllBelow(s: set<nat>, n: nat)
    requires forall i: nat :: i < n ==> i in s
    ensures |s| >= n
    decreases n
  {
    if n > 0 {
      AllBelow(s - {n - 1}, n - 1);
    }
  }

  /** An index without DELETED marks and with more slots than entries has room. */
  lemma RoomLeft<K(!new)>(hash: (K, nat) -> nat, index: seq<int>, keys: seq<K>, slots: seq<nat>, dists: seq<nat>)
    requires TableOk(hash, index, keys, slots, dists) && |keys| < |index| && DELETED !in index
    ensures EMPTY in index
  {
    if EMPTY !in index {
      ElementsCount(slots, |slots|);
      assert slots[..|slots|] == slots;
      forall i: nat | i < |index|
        ensures i in Elems(slots)
      {
        assert index[i] != EMPTY && index[i] != DELETED;
        assert slots[index[i]] == i;
      }
      AllBelow(Elems(slots), |index|);
    }
  }

  lemma SlotsDistinct<K(!new)>(hash: (K, nat) -> nat, index: seq<int>, keys: seq<K>, slots: seq<nat>, dists: seq<nat>)
    requires TableOk(hash, index, keys, slots, dists)
    ensures Distinct(slots)
  {
    forall i, j | 0 <= i < j < |slots|
      ensures slots[i] != slots[j]
    {
      assert Placed(hash, index, keys[i], slots[i], dists[i], i) && Placed(hash, index, keys[j], slots[j], dists[j], j);
    }
  }

  /** A table holds no more entries than its index has slots. */
  lemma FitsIndex<K(!new)>(hash: (K, nat) -> nat, index: seq<int>, keys: seq<K>, slots: seq<nat>, dists: seq<nat>)
    requires TableOk(hash, index, keys, slots, dists)
    ensures |keys| <= |index|
  {
    SlotsDistinct(hash, index, keys, slots, dists);
    ElementsCount(slots, |slots|);
    assert slots[..|slots|] == slots;
    forall x | x in Elems(slots)
      ensures x < |index|
    {
      var d :| 0 <= d < |keys| && slots[d] == x;
      assert Placed(hash, index, keys[d], slots[d], dists[d], d);
    }
    BelowCounts(Elems(slots), |index|);
  }
}

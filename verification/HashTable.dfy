/** `HashTable`: a sparse index set with open addressing over a dense array of entries. */
module HashTables {
  import opened Common
  import opened Probing
  import opened IndexTable

  datatype Entry<K, V> = Entry(key: K, value: V)

  function KeysOf<K, V>(es: seq<Entry<K, V>>): (keys: seq<K>)
    ensures |keys| == |es| && forall i :: 0 <= i < |es| ==> keys[i] == es[i].key
  {
    seq(|es|, i requires 0 <= i < |es| => es[i].key)
  }

  /** The value stored for a key. */
  ghost function Lookup<K, V>(es: seq<Entry<K, V>>, k: K): V
    requires k in KeysOf(es)
  {
    var d :| 0 <= d < |es| && es[d].key == k;
    es[d].value
  }

  /** The finite map a list of entries with distinct keys stands for. */
  ghost function MapOf<K, V>(es: seq<Entry<K, V>>): map<K, V> {
    map k | k in KeysOf(es) :: Lookup(es, k)
  }

  lemma MapOfAt<K, V>(es: seq<Entry<K, V>>, d: nat)
    requires Distinct(KeysOf(es)) && d < |es|
    ensures es[d].key in MapOf(es) && MapOf(es)[es[d].key] == es[d].value
  {
  }

  lemma KeyAt<K, V>(es: seq<Entry<K, V>>, k: K) returns (d: nat)
    requires Distinct(KeysOf(es)) && k in KeysOf(es)
    ensures d < |es| && es[d].key == k && MapOf(es)[k] == es[d].value
  {
    d :| 0 <= d < |es| && KeysOf(es)[d] == k;
    MapOfAt(es, d);
  }

  lemma MapOfAppend<K, V>(es: seq<Entry<K, V>>, e: Entry<K, V>)
    requires Distinct(KeysOf(es)) && e.key !in KeysOf(es)
    ensures Distinct(KeysOf(es + [e]))
    ensures MapOf(es + [e]) == MapOf(es)[e.key := e.value]
  {
    var es' := es + [e];
    assert KeysOf(es') == KeysOf(es) + [e.key];
    MapOfAt(es', |es|);
    forall k | k in KeysOf(es)
      ensures MapOf(es')[k] == MapOf(es)[k]
    {
      var d := KeyAt(es, k);
      MapOfAt(es', d);
    }
  }

  lemma MapOfUpdate<K, V>(es: seq<Entry<K, V>>, d: nat, v: V)
    requires Distinct(KeysOf(es)) && d < |es|
    ensures KeysOf(es[d := Entry(es[d].key, v)]) == KeysOf(es)
    ensures MapOf(es[d := Entry(es[d].key, v)]) == MapOf(es)[es[d].key := v]
  {
  }

  lemma KeysOfDelete<K, V>(es: seq<Entry<K, V>>, d: nat)
    requires Distinct(KeysOf(es)) && d < |es|
    ensures var n := |es| - 1;
            var es' := es[d := es[n]][..n];
            && KeysOf(es') == KeysOf(es)[d := es[n].key][..n]
            && Distinct(KeysOf(es'))
            && forall k :: k in KeysOf(es') <==> k in KeysOf(es) && k != es[d].key
  {
    var n := |es| - 1;
    var keys, keys' := KeysOf(es), KeysOf(es[d := es[n]][..n]);
    assert keys' == keys[d := keys[n]][..n];
    forall k | k in keys && k != keys[d]
      ensures k in keys'
    {
      var e :| 0 <= e < |keys| && keys[e] == k;
      assert keys'[if e == n then d else e] == k;
    }
  }

  /** The entry for k, if there is one, is gone, and the last entry has taken its place. */
  ghost predicate Removed<K, V>(es: seq<Entry<K, V>>, es': seq<Entry<K, V>>, k: K) {
    && (k !in KeysOf(es) ==> es' == es)
    && (forall d :: 0 <= d < |es| && es[d].key == k ==> es' == es[d := es[|es| - 1]][..|es| - 1])
  }

  lemma RemovedHere<K, V>(es: seq<Entry<K, V>>, d: nat)
    requires Distinct(KeysOf(es)) && d < |es|
    ensures Removed(es, es[d := es[|es| - 1]][..|es| - 1], es[d].key)
  {
  }

  lemma MapOfDelete<K, V>(es: seq<Entry<K, V>>, d: nat)
    requires Distinct(KeysOf(es)) && d < |es|
    ensures var n := |es| - 1;
            MapOf(es[d := es[n]][..n]) == MapOf(es) - {es[d].key}
  {
    var n := |es| - 1;
    var es' := es[d := es[n]][..n];
    KeysOfDelete(es, d);
    forall k | k in KeysOf(es')
      ensures MapOf(es')[k] == MapOf(es)[k]
    {
      var e := KeyAt(es', k);
      MapOfAt(es, if e == d then n else e);
    }
  }

  // ----- Sizes

  function Pow2(i: nat): (p: nat)
    ensures p > 0 && (i > 0 ==> p % 2 == 0)
  {
    if i == 0 then 1 else 2 * Pow2(i - 1)
  }

  lemma {:induction false} PowGrows(i: nat, j: nat)
    requires i <= j
    ensures Pow2(i) <= Pow2(j)
  {
    if i < j { PowGrows(i, j - 1); }
  }

  lemma SmallPowers()
    ensures Pow2(3) == 8 && Pow2(5) == 32
  {
  }

  /** Bit i of an unsigned number. */
  predicate HasBit(x: nat, i: nat) {
    if i == 0 then x % 2 == 1 else HasBit(x / 2, i - 1)
  }

  lemma {:induction false} TopBit(x: nat, i: nat)
    requires x < 2 * Pow2(i)
    ensures HasBit(x, i) <==> x >= Pow2(i)
  {
    if i > 0 { TopBit(x / 2, i - 1); }
  }

  lemma IndexSize(i: nat)
    requires 3 <= i
    ensures SizeForBit(i) >= 31 && SizeForBit(i) % 2 == 1
  {
    SmallPowers();
    PowGrows(5, i + 2);
    OddBelow(Pow2(i + 2));
    if i >= 20 {
      PowGrows(5, i);
      OddBelow(Pow2(i));
    }
  }

  lemma OddBelow(p: int)
    requires p % 2 == 0
    ensures (p - 1) % 2 == 1
  {
  }

  lemma LowerBit(x: nat, i: nat)
    requires 8 <= x < 2 * Pow2(i) && 3 <= i
    ensures HasBit(x, i) || (3 < i && x < 2 * Pow2(i - 1))
  {
    TopBit(x, i);
    SmallPowers();
  }

  function SizeForBit(i: nat): nat {
    if i < 20 then Pow2(i + 2) - 1 else Pow2(i) - 1
  }

  /** Up to four times the number of slots, or up to the number itself if it is large. */
  ghost predicate IsIndexSize(slots: nat, size: nat) {
    forall b: nat :: Pow2(b) <= slots < 2 * Pow2(b) ==> size == if b < 20 then 4 * Pow2(b) - 1 else Pow2(b) - 1
  }

  lemma PowApart(a: nat, b: nat)
    ensures a < b ==> 2 * Pow2(a) <= Pow2(b)
  {
    if a < b { PowGrows(a + 1, b); }
  }

  lemma TopBitDecides(x: nat, i: nat)
    requires x < 2 * Pow2(i) && HasBit(x, i)
    ensures IsIndexSize(x, SizeForBit(i))
  {
    TopBit(x, i);
    assert Pow2(i + 2) == 2 * Pow2(i + 1) == 4 * Pow2(i);
    forall b: nat
      ensures Pow2(b) <= x < 2 * Pow2(b) ==> b == i
    {
      PowApart(b, i);
      PowApart(i, b);
    }
  }

  /** Size of the index set for a number of initial slots: one less than a power of
    two, so that it is odd. `top` numbers the highest bit of the slot count's type. */
  method IndexSizeFor(initialSlots: nat, top: nat) returns (size: nat)
    requires 8 <= initialSlots < 2 * Pow2(top) && 3 <= top
    ensures size % 2 == 1 && size >= 31
    ensures IsIndexSize(initialSlots, size)
  {
    size := 0;
    var i := top;
    while i > 1
      invariant 3 <= i && initialSlots < 2 * Pow2(i)
      decreases i
    {
      if HasBit(initialSlots, i) {
        IndexSize(i);
        TopBitDecides(initialSlots, i);
        size := SizeForBit(i);
        break;
      }
      LowerBit(initialSlots, i);
      i := i - 1;
    }
  }

  // ----- Queries

  /** What a query for k comes to from its t-th probe on: it ends at an EMPTY slot, or
    at an entry that compares equal. */
  ghost predicate Found<K(!new)>(hash: (K, nat) -> nat, compare: (K, K) -> int, index: seq<int>, keys: seq<K>, k: K, t: nat)
    requires |index| > 0
    decreases |index| - t
  {
    && t < |index|
    && var v := index[Probe(HashIn(hash, k, |index|), t, |index|)];
    && v != EMPTY
    && ((0 <= v < |keys| && compare(k, keys[v]) == 0) || Found(hash, compare, index, keys, k, t + 1))
  }

  /** With an equality test that is one, a query finds exactly the stored keys. */
  lemma {:induction false} FoundIffStored<K(!new)>(hash: (K, nat) -> nat, compare: (K, K) -> int, index: seq<int>, keys: seq<K>,
                                                 slots: seq<nat>, dists: seq<nat>, k: K, t: nat)
    requires TableOk(hash, index, keys, slots, dists)
    requires forall d :: 0 <= d < |keys| ==> (compare(k, keys[d]) == 0 <==> k == keys[d])
    requires t <= |index| && Scanned(hash, index, keys, k, t)
    ensures Found(hash, compare, index, keys, k, t) <==> k in keys
    decreases |index| - t
  {
    if t == |index| {
      WrapMeansAbsent(hash, index, keys, slots, dists, k);
    } else {
      var v := index[Probe(HashIn(hash, k, |index|), t, |index|)];
      if v == EMPTY {
        EmptyMeansAbsent(hash, index, keys, slots, dists, k, t);
      } else if !(0 <= v < |keys| && k == keys[v]) {
        ScannedStep(hash, index, keys, k, t);
        FoundIffStored(hash, compare, index, keys, slots, dists, k, t + 1);
      }
    }
  }

  // ----- The table

  class HashTable<K(!new,==), V> {
    const hash: (K, nat) -> nat
    const compare: (K, K) -> int
    /** The keys on which the caller's functions are a hash and an equality test. */
    ghost const domain: iset<K>

    var entries: seq<Entry<K, V>>
    var numSlots: nat
    var indexSet: array<int>
    ghost var slots: seq<nat>
    ghost var dists: seq<nat>

    ghost predicate Laws() {
      && (forall k, size :: k in domain && size > 0 ==> hash(k, size) < size)
      && (forall a, b :: a in domain && b in domain ==> (compare(a, b) == 0 <==> a == b))
    }

    ghost predicate Valid()
      reads this, indexSet
    {
      && Laws()
      && (forall i :: 0 <= i < |entries| ==> entries[i].key in domain)
      && |entries| < numSlots
      && indexSet.Length >= 31
      && TableOk(hash, indexSet[..], KeysOf(entries), slots, dists)
    }

    /** The finite map the table stands for. */
    ghost function Contents(): map<K, V>
      reads this
    {
      MapOf(entries)
    }

    constructor (hash: (K, nat) -> nat, compare: (K, K) -> int, ghost domain: iset<K>, initialSlots: nat, top: nat)
      requires forall k, size :: k in domain && size > 0 ==> hash(k, size) < size
      requires forall a, b :: a in domain && b in domain ==> (compare(a, b) == 0 <==> a == b)
      requires initialSlots < 2 * Pow2(top) && 3 <= top
      ensures Valid() && fresh(indexSet) && entries == [] && Contents() == map[]
      ensures this.hash == hash && this.compare == compare && this.domain == domain
    {
      var slotCount := if initialSlots < 8 then 8 else initialSlots;
      assert 8 < 2 * Pow2(top) by { SmallPowers(); PowGrows(3, top); }
      var size := IndexSizeFor(slotCount, top);
      this.hash, this.compare, this.domain := hash, compare, domain;
      entries, numSlots, slots, dists := [], slotCount, [], [];
      indexSet := new int[size](_ => EMPTY);
      new;
      assert KeysOf(entries) == [];
    }

    /** The scan for k has passed t slots, and remembers one of them that was DELETED. */
    ghost predicate Passed(k: K, t: nat, firstDeleted: int)
      requires indexSet.Length > 0
      reads this, indexSet
    {
      && Scanned(hash, indexSet[..], KeysOf(entries), k, t)
      && (firstDeleted == INVALID_INDEX || IsDeleted(hash, indexSet[..], k, t, firstDeleted))
    }

    /** Look at the next slot: it ends the scan, or is passed. */
    method Inspect(k: K, currentIndex: nat, firstDeleted: int, ghost t: nat) returns (done: bool, r: int, firstDeleted': int)
      requires Valid() && k in domain && t < indexSet.Length && Passed(k, t, firstDeleted)
      requires currentIndex == Probe(HashIn(hash, k, indexSet.Length), t, indexSet.Length)
      ensures done ==> r != INVALID_INDEX && Answer(hash, indexSet[..], KeysOf(entries), k, r)
      ensures !done ==> Passed(k, t + 1, firstDeleted')
    {
      ghost var index, keys := indexSet[..], KeysOf(entries);
      var v := indexSet[currentIndex];
      firstDeleted' := firstDeleted;
      if v == EMPTY {
        EmptyMeansAbsent(hash, index, keys, slots, dists, k, t);
        r := if firstDeleted != INVALID_INDEX then firstDeleted else currentIndex;
        assert CanPut(hash, index, k, r);
        return true, r, firstDeleted;
      } else if v == DELETED {
        if firstDeleted != INVALID_INDEX {
          // the source's return for a scan that wraps back to this slot is dead
          NotTwice(hash, index, k, t, firstDeleted);
        } else {
          firstDeleted' := currentIndex;
        }
      } else {
        assert 0 <= v < |keys| && keys[v] == entries[v].key;
        if compare(k, entries[v].key) == 0 {
          return true, currentIndex, firstDeleted;
        }
      }
      ScannedStep(hash, index, keys, k, t);
      DeletedStays(hash, index, k, t, firstDeleted);
      return false, INVALID_INDEX, firstDeleted';
    }

    /** One run along the probe sequence of k. With `adding`, `overflow` reports
      that the index must be enlarged before k can be placed. */
    method Scan(k: K, adding: bool) returns (r: int, overflow: bool)
      requires Valid() && k in domain
      ensures overflow ==> adding
      ensures !overflow ==> Answer(hash, indexSet[..], KeysOf(entries), k, r)
      ensures !overflow && adding ==> r != INVALID_INDEX
    {
      var size := indexSet.Length;
      ghost var h := HashIn(hash, k, size);
      var initialIndex := hash(k, size);
      SmallMod(initialIndex, size);
      var currentIndex := initialIndex;
      var firstDeleted := INVALID_INDEX;
      var rehashCount: nat := 0;
      while true
        invariant rehashCount < size && currentIndex == Probe(h, rehashCount, size)
        invariant Passed(k, rehashCount, firstDeleted)
        decreases size - rehashCount
      {
        var done;
        done, r, firstDeleted := Inspect(k, currentIndex, firstDeleted, rehashCount);
        if done { return r, false; }
        currentIndex := Rehash(currentIndex, size);
        rehashCount := rehashCount + 1;
        BackAtStart(h, rehashCount, size);
        if rehashCount == size { WrapMeansAbsent(hash, indexSet[..], KeysOf(entries), slots, dists, k); }
        if adding {
          if (rehashCount > 10 && 2 * |entries| > size) || currentIndex == initialIndex {
            return INVALID_INDEX, true;
          }
        } else if currentIndex == initialIndex {
          return INVALID_INDEX, false;
        }
      }
    }

    /** The size of the next index set: bigger, and odd again. */
    method GrownSize() returns (size: nat)
      requires Valid()
      ensures size % 2 == 1 && size >= 31 && |entries| < size
    {
      FitsIndex(hash, indexSet[..], KeysOf(entries), slots, dists);
      if indexSet.Length < 4096 {
        size := indexSet.Length + 1024;
      } else {
        size := |entries| / 2 * 2;
        size := size + indexSet.Length;
      }
    }

    /** Place entry i in an index that holds the entries before it. */
    method Place(index: array<int>, i: nat, ghost slots: seq<nat>, ghost dists: seq<nat>)
      returns (finalIndex: nat, ghost t: nat)
      requires Laws() && i < |entries| < index.Length && entries[i].key in domain
      requires Distinct(KeysOf(entries))
      requires TableOk(hash, index[..], KeysOf(entries)[..i], slots, dists) && DELETED !in index[..]
      modifies index
      ensures TableOk(hash, index[..], KeysOf(entries)[..i + 1], slots + [finalIndex], dists + [t]) && DELETED !in index[..]
    {
      var size := index.Length;
      ghost var keys, k := KeysOf(entries), entries[i].key;
      ghost var before, h := index[..], HashIn(hash, k, size);
      var initialIndex := hash(entries[i].key, size);
      SmallMod(initialIndex, size);
      RoomLeft(hash, before, keys[..i], slots, dists);
      ghost var e :| 0 <= e < size && before[e] == EMPTY;
      ghost var te := ProbeReaches(h, e, size);
      finalIndex, t := initialIndex, 0;
      while index[finalIndex] != EMPTY
        invariant t <= te && finalIndex == Probe(h, t, size) && index[..] == before
        invariant NoEmptyBefore(hash, before, k, t)
        decreases te - t
      {
        finalIndex := Rehash(finalIndex, size);
        t := t + 1;
        ProbesDiffer(h, 0, t, size);
        assert finalIndex != initialIndex;
      }
      assert keys[..i + 1] == keys[..i] + [k];
      assert k !in keys[..i];
      PutKeeps(hash, before, keys[..i], slots, dists, k, finalIndex, t);
      index[finalIndex] := i;
      assert index[..] == before[finalIndex := i];
    }

    /** Rebuild the index in a bigger array, dropping all DELETED marks. */
    method OverflowIndexSet()
      requires Valid()
      modifies this`indexSet, this`slots, this`dists
      ensures Valid() && fresh(indexSet)
      ensures EMPTY in indexSet[..] && DELETED !in indexSet[..]
    {
      var size := GrownSize();
      ghost var keys := KeysOf(entries);
      var index := new int[size](_ => EMPTY);
      ghost var newSlots: seq<nat>, newDists: seq<nat> := [], [];
      for i := 0 to |entries|
        invariant TableOk(hash, index[..], keys[..i], newSlots, newDists) && DELETED !in index[..]
      {
        ghost var t;
        var slot;
        slot, t := Place(index, i, newSlots, newDists);
        newSlots, newDists := newSlots + [slot], newDists + [t];
      }
      assert keys[..|entries|] == keys;
      RoomLeft(hash, index[..], keys, newSlots, newDists);
      indexSet, slots, dists := index, newSlots, newDists;
    }

    /** Room for more entries. */
    method OverflowEntries()
      modifies this`numSlots
      ensures numSlots > old(numSlots)
    {
      numSlots := if numSlots < 4096 then numSlots + 512
                  else if numSlots < 16384 then numSlots + 2048
                  else numSlots * 133 / 100;
    }

    /** Look-up on behalf of an insertion. The index may be rebuilt, but the answer is
      always a usable slot. */
    method QueryForAdd(k: K) returns (r: int)
      requires Valid() && k in domain
      modifies this`indexSet, this`slots, this`dists
      ensures Valid() && (indexSet == old(indexSet) || fresh(indexSet))
      ensures unchanged(old(indexSet))
      ensures Answer(hash, indexSet[..], KeysOf(entries), k, r) && r != INVALID_INDEX
    {
      var overflow;
      r, overflow := Scan(k, true);
      if overflow {
        OverflowIndexSet();
        r, overflow := Scan(k, false);
      }
    }

    /** Append a new entry, referred to from slot r. */
    method Append(e: Entry<K, V>, r: nat)
      requires Valid() && e.key in domain && r < indexSet.Length && indexSet[r] < 0
      requires e.key !in KeysOf(entries) && CanPut(hash, indexSet[..], e.key, r)
      modifies this`entries, this`slots, this`dists, this`numSlots, indexSet
      ensures Valid() && entries == old(entries) + [e]
    {
      ghost var size, index, keys := indexSet.Length, indexSet[..], KeysOf(entries);
      ghost var t: nat :| t < size && r == Probe(HashIn(hash, e.key, size), t, size)
                          && NoEmptyBefore(hash, index, e.key, t);
      PutKeeps(hash, index, keys, slots, dists, e.key, r, t);
      indexSet[r] := |entries|;
      assert indexSet[..] == index[r := |entries|];
      entries, slots, dists := entries + [e], slots + [r], dists + [t];
      assert KeysOf(entries) == keys + [e.key];
      if |entries| == numSlots { OverflowEntries(); }
    }

    /** Insert an entry, or replace the one with the same key. */
    method AddEntry(e: Entry<K, V>)
      requires Valid() && e.key in domain
      modifies this, indexSet
      ensures Valid() && (indexSet == old(indexSet) || fresh(indexSet))
      ensures Contents() == old(Contents())[e.key := e.value]
      ensures e.key !in old(KeysOf(entries)) ==> entries == old(entries) + [e]
      ensures forall d :: 0 <= d < |old(entries)| && old(entries)[d].key == e.key ==> entries == old(entries)[d := e]
    {
      var r := QueryForAdd(e.key);
      var d := indexSet[r];
      if d < 0 {
        MapOfAppend(entries, e);
        Append(e, r);
      } else {
        MapOfUpdate(entries, d, e.value);
        assert KeysOf(entries)[d] == e.key;
        assert e == Entry(entries[d].key, e.value);
        entries := entries[d := e];
      }
    }

    /** Swap entry d with the last one and fix the index. */
    method SwapWithLast(index: nat, d: nat)
      requires Valid() && index < indexSet.Length && d < |entries| - 1 && indexSet[index] == d
      modifies this`entries, indexSet
      ensures var last := |old(entries)| - 1;
              && entries == old(entries)[d := old(entries)[last]][last := old(entries)[d]]
              && indexSet[..] == old(indexSet[..])[slots[last] := d][index := last]
    {
      ghost var before, keys := indexSet[..], KeysOf(entries);
      var last := |entries| - 1;
      assert Placed(hash, before, keys[last], slots[last], dists[last], last);
      var from, overflow := Scan(entries[last].key, false);
      FindsLast(before, keys, last, from);
      entries := entries[d := entries[last]][last := entries[d]];
      indexSet[index], indexSet[from] := indexSet[from], indexSet[index];
    }

    /** Move the last entry to position d, which is deleted, and drop the last slot. */
    method RemoveAt(index: nat, d: nat)
      requires Valid() && index < indexSet.Length && d < |entries| && indexSet[index] == d
      modifies this`entries, this`slots, this`dists, indexSet
      ensures Valid()
      ensures var n := |old(entries)| - 1;
              entries == old(entries)[d := old(entries)[n]][..n]
    {
      ghost var before, keys := indexSet[..], KeysOf(entries);
      var last := |entries| - 1;
      DeleteKeeps(hash, before, keys, slots, dists, d);
      assert Placed(hash, before, keys[last], slots[last], dists[last], last);
      assert Placed(hash, before, keys[d], slots[d], dists[d], d);
      KeysOfDelete(entries, d);
      if d != last {
        SwapWithLast(index, d);
      }
      entries := entries[..last];
      indexSet[index] := DELETED;
      assert index == slots[d];
      LastWriteWins(before, slots[last], d, index, last);
      assert entries == old(entries)[d := old(entries)[last]][..last];
      slots, dists := slots[d := slots[last]][..last], dists[d := dists[last]][..last];
    }

    lemma LastWriteWins(index: seq<int>, a: nat, d: int, b: nat, last: int)
      requires a < |index| && b < |index|
      ensures index[a := d][b := last][b := DELETED] == index[a := d][b := DELETED]
      ensures a == b ==> index[b := DELETED] == index[a := d][b := DELETED]
    {
    }

    lemma FindsLast(index: seq<int>, keys: seq<K>, last: nat, from: int)
      requires TableOk(hash, index, keys, slots, dists) && last < |keys|
      requires Answer(hash, index, keys, keys[last], from)
      ensures from == slots[last]
    {
    }

    /** Remove the entry with key k, if there is one: the last entry takes its place. */
    method DeleteEntry(k: K)
      requires Valid() && k in domain
      modifies this`entries, this`slots, this`dists, indexSet
      ensures Valid()
      ensures Contents() == old(Contents()) - {k}
      ensures Removed(old(entries), entries, k)
    {
      var index, overflow := Scan(k, false);
      if index == INVALID_INDEX || indexSet[index] == EMPTY || indexSet[index] == DELETED {
        return;
      }
      var d := indexSet[index];
      assert KeysOf(entries)[d] == k;
      MapOfDelete(entries, d);
      RemovedHere(entries, d);
      RemoveAt(index, d);
    }

    /** The value stored for k. */
    method QueryEntry(k: K) returns (v: Option<V>)
      requires Valid() && k in domain
      ensures v == if k in Contents() then Some(Contents()[k]) else None
    {
      var r, overflow := Scan(k, false);
      if r == INVALID_INDEX || indexSet[r] == EMPTY || indexSet[r] == DELETED {
        return None;
      }
      MapOfAt(entries, indexSet[r]);
      return Some(entries[indexSet[r]].value);
    }
  }

  // ----- Whole runs

  datatype Op<K, V> = Put(entry: Entry<K, V>) | Remove(key: K) | Ask(key: K)

  ghost function KeyOf<K, V>(op: Op<K, V>): K {
    match op
    case Put(e) => e.key
    case Remove(k) => k
    case Ask(k) => k
  }

  /** What one operation does to a finite map. */
  ghost function Effect<K, V>(m: map<K, V>, op: Op<K, V>): map<K, V> {
    match op
    case Put(e) => m[e.key := e.value]
    case Remove(k) => m - {k}
    case Ask(_) => m
  }

  ghost function MapAfter<K, V>(m: map<K, V>, ops: seq<Op<K, V>>): map<K, V> {
    if ops == [] then m else Effect(MapAfter(m, ops[..|ops| - 1]), ops[|ops| - 1])
  }

  ghost function Reply<K, V>(m: map<K, V>, op: Op<K, V>): Option<V> {
    if op.Ask? && op.key in m then Some(m[op.key]) else None
  }

  method Apply<K(!new,==), V>(table: HashTable<K, V>, op: Op<K, V>) returns (reply: Option<V>)
    requires table.Valid() && KeyOf(op) in table.domain
    modifies table, table.indexSet
    ensures table.Valid() && (table.indexSet == old(table.indexSet) || fresh(table.indexSet))
    ensures table.Contents() == Effect(old(table.Contents()), op)
    ensures reply == Reply(old(table.Contents()), op)
  {
    match op {
      case Put(e) =>
        table.AddEntry(e);
        return None;
      case Remove(k) =>
        table.DeleteEntry(k);
        return None;
      case Ask(k) =>
        reply := table.QueryEntry(k);
    }
  }

  /** Any run of operations, whatever rebuilds it triggers, answers like the map. */
  method Run<K(!new,==), V>(table: HashTable<K, V>, ops: seq<Op<K, V>>) returns (replies: seq<Option<V>>)
    requires table.Valid() && forall i :: 0 <= i < |ops| ==> KeyOf(ops[i]) in table.domain
    modifies table, table.indexSet
    ensures table.Valid() && table.Contents() == MapAfter(old(table.Contents()), ops)
    ensures |replies| == |ops|
    ensures forall i :: 0 <= i < |ops| ==> replies[i] == Reply(MapAfter(old(table.Contents()), ops[..i]), ops[i])
  {
    replies := [];
    ghost var start := table.Contents();
    for i := 0 to |ops|
      invariant table.Valid() && (table.indexSet == old(table.indexSet) || fresh(table.indexSet))
      invariant table.Contents() == MapAfter(start, ops[..i])
      invariant |replies| == i && RepliesOk(start, ops, replies)
    {
      MapAfterStep(start, ops, i);
      var reply := Apply(table, ops[i]);
      MoreReplies(start, ops, replies, reply);
      replies := replies + [reply];
    }
    assert ops[..|ops|] == ops;
  }

  ghost predicate RepliesOk<K, V>(start: map<K, V>, ops: seq<Op<K, V>>, replies: seq<Option<V>>) {
    |replies| <= |ops| && forall j :: 0 <= j < |replies| ==> replies[j] == Reply(MapAfter(start, ops[..j]), ops[j])
  }

  lemma MapAfterStep<K, V>(start: map<K, V>, ops: seq<Op<K, V>>, i: nat)
    requires i < |ops|
    ensures MapAfter(start, ops[..i + 1]) == Effect(MapAfter(start, ops[..i]), ops[i])
  {
    assert ops[..i + 1][..i] == ops[..i];
  }

  lemma MoreReplies<K, V>(start: map<K, V>, ops: seq<Op<K, V>>, replies: seq<Option<V>>, reply: Option<V>)
    requires RepliesOk(start, ops, replies) && |replies| < |ops|
    requires reply == Reply(MapAfter(start, ops[..|replies|]), ops[|replies|])
    ensures RepliesOk(start, ops, replies + [reply])
  {
  }
}

/** `HashTableSortedIterator`: the entries of a hash table in the order of a comparison. */
module SortedIterators {
  import opened Common
  import opened HashTables
  import opened QuickSorts

  /** The entries as the plain iterator gives them, last one first. */
  ghost function Downward<T>(es: seq<T>): seq<T> {
    if es == [] then [] else [es[|es| - 1]] + Downward(es[..|es| - 1])
  }

  lemma {:induction false} DownwardPermutes<T>(es: seq<T>)
    ensures multiset(Downward(es)) == multiset(es)
  {
    if es != [] {
      DownwardPermutes(es[..|es| - 1]);
      assert es == es[..|es| - 1] + [es[|es| - 1]];
    }
  }

  lemma TwiceCounts<T>(s: seq<T>, i: nat, j: nat)
    requires i < j < |s| && s[i] == s[j]
    ensures multiset(s)[s[i]] >= 2
  {
    assert s == s[..j] + [s[j]] + s[j + 1..];
    assert s[..j][i] in s[..j];
  }

  lemma OnceCounts<T>(s: seq<T>, d: nat)
    requires d < |s| && forall e :: 0 <= e < |s| && e != d ==> s[e] != s[d]
    ensures multiset(s)[s[d]] == 1
  {
    assert s == s[..d] + [s[d]] + s[d + 1..];
    assert s[d] !in s[..d] && s[d] !in s[d + 1..];
  }

  lemma AllOnce<K(!new), V>(es: seq<Entry<K, V>>, sorted: seq<Entry<K, V>>)
    requires Distinct(KeysOf(es)) && multiset(es) == multiset(sorted)
    ensures forall i, j :: 0 <= i < j < |sorted| ==> sorted[i].key != sorted[j].key
  {
    forall i, j | 0 <= i < j < |sorted| && sorted[i].key == sorted[j].key
      ensures false
    {
      assert sorted[i] in multiset(es) && sorted[j] in multiset(es);
      var d :| 0 <= d < |es| && es[d] == sorted[i];
      var e :| 0 <= e < |es| && es[e] == sorted[j];
      assert KeysOf(es)[d] == KeysOf(es)[e];
      TwiceCounts(sorted, i, j);
      forall f | 0 <= f < |es| && f != d
        ensures es[f] != es[d]
      {
        assert KeysOf(es)[f] != KeysOf(es)[d];
      }
      OnceCounts(es, d);
    }
  }

  /** The entries of the table in order, each exactly as often as it is stored. */
  ghost predicate InOrder<T>(cmp: Compare<T>, es: seq<T>, sorted: seq<T>) {
    multiset(sorted) == multiset(es) && Sorted(cmp, sorted)
  }

  /** Run the plain iterator over the entries. */
  method Collect<T>(es: seq<T>) returns (collected: seq<T>)
    ensures collected == Downward(es) && multiset(collected) == multiset(es)
  {
    collected := [];
    var at := |es| - 1;
    assert es[..|es|] == es;
    while at >= 0
      invariant -1 <= at < |es| && collected + Downward(es[..at + 1]) == Downward(es)
    {
      assert es[..at + 1][..at] == es[..at];
      collected := collected + [es[at]];
      at := at - 1;
    }
    DownwardPermutes(es);
  }

  /** The entries, sorted, in an array of their own. */
  method SortedArray<T(!new)>(cmp: Compare<T>, es: seq<T>) returns (a: array<T>)
    requires TotalPreorder(cmp)
    ensures fresh(a) && InOrder(cmp, es, a[..])
  {
    var collected := Collect(es);
    var n := |collected|;
    a := new T[n](i requires 0 <= i < n => collected[i]);
    assert a[..] == collected;
    QuickSorts.Sort(cmp, a, 0, n - 1);
    assert collected[0..n] == collected && a[..][0..n] == a[..];
  }

  class SortedIterator<K(!new,==), V(!new)> {
    const table: HashTable<K, V>
    const entryCompare: Compare<Entry<K, V>>
    var sortedEntries: array<Entry<K, V>>
    var current: nat

    ghost predicate Valid()
      reads this, table, sortedEntries
    {
      TotalPreorder(entryCompare) && InOrder(entryCompare, table.entries, sortedEntries[..])
    }

    constructor (table: HashTable<K, V>, entryCompare: Compare<Entry<K, V>>)
      requires TotalPreorder(entryCompare)
      ensures this.table == table && this.entryCompare == entryCompare
      ensures Valid() && fresh(sortedEntries) && current == 0
    {
      this.table, this.entryCompare, current := table, entryCompare, 0;
      sortedEntries := new Entry<K, V>[0];
      new;
      Reset();
    }

    /** Collect and sort the entries the table has now. */
    method Reset()
      requires TotalPreorder(entryCompare)
      modifies this
      ensures Valid() && fresh(sortedEntries) && current == 0
    {
      current := 0;
      sortedEntries := SortedArray(entryCompare, table.entries);
    }

    predicate IsValid()
      reads this, sortedEntries
    {
      current < sortedEntries.Length
    }

    function Current(): (e: Option<Entry<K, V>>)
      reads this, sortedEntries
      ensures e.Some? <==> IsValid()
    {
      if current < sortedEntries.Length then Some(sortedEntries[current]) else None
    }

    method Advance()
      modifies this`current
      ensures current == old(current) + 1
    {
      current := current + 1;
    }
  }

  /** Iterating yields every entry of the table exactly once, in order. */
  method Enumerate<K(!new,==), V(!new)>(table: HashTable<K, V>, cmp: Compare<Entry<K, V>>) returns (es: seq<Entry<K, V>>)
    requires table.Valid() && TotalPreorder(cmp)
    ensures InOrder(cmp, table.entries, es)
    ensures forall k :: k in table.Contents() ==> Listed(es, k, table.Contents()[k])
    ensures forall i, j :: 0 <= i < j < |es| ==> es[i].key != es[j].key
  {
    var it := new SortedIterator(table, cmp);
    ghost var all := it.sortedEntries[..];
    es := [];
    while it.IsValid()
      invariant it.Valid() && it.table == table && it.entryCompare == cmp && it.sortedEntries[..] == all
      invariant it.current <= |all| && es == all[..it.current]
      decreases |all| - it.current
    {
      es := es + [it.Current().value];
      it.Advance();
    }
    assert es == all;
    AllOnce(table.entries, es);
    AllThere(table.entries, es);
  }

  ghost predicate Listed<K, V>(es: seq<Entry<K, V>>, k: K, v: V) {
    exists i :: 0 <= i < |es| && es[i] == Entry(k, v)
  }

  lemma AllThere<K(!new), V>(es: seq<Entry<K, V>>, sorted: seq<Entry<K, V>>)
    requires Distinct(KeysOf(es)) && multiset(es) == multiset(sorted)
    ensures forall k :: k in MapOf(es) ==> Listed(sorted, k, MapOf(es)[k])
  {
    forall k | k in MapOf(es)
      ensures Listed(sorted, k, MapOf(es)[k])
    {
      var d := KeyAt(es, k);
      assert es[d] in multiset(sorted);
    }
  }
}

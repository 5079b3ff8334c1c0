/** `WordSet`: sets of machine words on top of the hash table. */
module WordSets {
  import opened Common
  import opened Probing
  import opened IndexTable
  import opened HashTables

  const WORD: nat := 0x1_0000_0000_0000_0000
  const INT: nat := 0x1_0000_0000

  /** The difference of two words, narrowed to a signed 32-bit integer. */
  function EntryCompare(a: nat, b: nat): int {
    var low := (a - b) % WORD % INT;
    if low < INT / 2 then low else low - INT
  }

  function HashFunct(w: nat, size: nat): nat {
    if size == 0 then 0 else w % size
  }

  /** The comparison only sees the low 32 bits of a word. */
  lemma CompareSeesLowBits(a: nat, b: nat)
    ensures EntryCompare(a, b) == 0 <==> a % 0x1_0000_0000 == b % 0x1_0000_0000
  {
  }

  /** No two words of the universe agree in their low 32 bits. */
  ghost predicate Separated(u: iset<nat>) {
    forall a, b :: a in u && b in u && a % INT == b % INT ==> a == b
  }

  /** The comparison decides equality on a universe exactly when it is separated. */
  lemma CompareDecidesIff(u: iset<nat>)
    ensures Separated(u) <==> forall a, b :: a in u && b in u ==> (EntryCompare(a, b) == 0 <==> a == b)
  {
    forall a: nat, b: nat { CompareSeesLowBits(a, b); }
  }

  /** Words below 2^32 form a separated universe. */
  lemma SmallWordsSeparated(u: iset<nat>)
    requires forall w :: w in u ==> w < 0x1_0000_0000
    ensures Separated(u)
  {
  }

  /** The index of a table with `size` slots that holds nothing but the word w. */
  function LoneIndex(size: nat, w: nat): (index: seq<int>)
    requires size > 0
    ensures |index| == size && forall i :: 0 <= i < size ==> index[i] == if i == w % size then 0 else EMPTY
  {
    seq(size, i => if i == w % size then 0 else EMPTY)
  }

  lemma HomeSlot(size: nat, w: nat)
    requires size > 0
    ensures HashIn(HashFunct, w, size) == w % size == Probe(w % size, 0, size)
  {
    SmallMod(w % size, size);
  }

  lemma LoneIndexOk(size: nat, w: nat, slot: nat)
    requires size % 2 == 1 && slot == w % size
    ensures TableOk(HashFunct, LoneIndex(size, w), [w], [slot], [0])
  {
    HomeSlot(size, w);
    assert Placed(HashFunct, LoneIndex(size, w), w, slot, 0, 0);
  }

  /** A set that holds w alone answers "present" for exactly the words that share its
    low 32 bits and its slot. */
  lemma LoneWordFound(size: nat, w: nat, x: nat)
    requires size % 2 == 1
    ensures Found(HashFunct, EntryCompare, LoneIndex(size, w), [w], x, 0) <==> x % size == w % size && x % INT == w % INT
  {
    CompareSeesLowBits(x, w);
    HomeSlot(size, x);
    LoneQuery(LoneIndex(size, w), w % size, w, x);
  }

  lemma LoneQuery(index: seq<int>, slot: nat, w: nat, x: nat)
    requires |index| % 2 == 1 && slot < |index|
    requires forall i :: 0 <= i < |index| ==> index[i] == if i == slot then 0 else EMPTY
    ensures var h := HashIn(HashFunct, x, |index|);
            Found(HashFunct, EntryCompare, index, [w], x, 0) <==> Probe(h, 0, |index|) == slot && EntryCompare(x, w) == 0
  {
    var h := HashIn(HashFunct, x, |index|);
    if |index| > 1 {
      ProbesDiffer(h, 0, 1, |index|);
    }
  }

  /** A new set with the word 0 in it answers "present" for 31 * 2^32. */
  lemma LargeWordsCollide()
    ensures TableOk<nat>(HashFunct, LoneIndex(31, 0), [0], [0], [0])
    ensures Found<nat>(HashFunct, EntryCompare, LoneIndex(31, 0), [0], 31 * INT, 0)
  {
    LoneIndexOk(31, 0, 0);
    LoneWordFound(31, 0, 31 * INT);
  }

  // ----- Sets

  type Items = seq<Entry<nat, ()>>

  ghost function WordsOf(es: Items): set<nat> {
    set k | k in KeysOf(es)
  }

  ghost predicate Added(es: Items, es': Items, w: nat) {
    && (w !in KeysOf(es) ==> es' == es + [Entry(w, ())])
    && (forall d :: 0 <= d < |es| && es[d].key == w ==> es' == es[d := Entry(w, ())])
  }

  lemma AddedWord(es: Items, es': Items, w: nat)
    requires Added(es, es', w)
    ensures WordsOf(es') == WordsOf(es) + {w}
    ensures w in WordsOf(es) ==> es' == es
  {
    if w in KeysOf(es) {
      var d :| 0 <= d < |es| && KeysOf(es)[d] == w;
      assert es[d].value == ();
      assert es' == es;
    } else {
      assert KeysOf(es') == KeysOf(es) + [w];
    }
  }

  lemma RemovedWord(es: Items, es': Items, w: nat)
    requires Distinct(KeysOf(es)) && Removed(es, es', w)
    ensures WordsOf(es') == WordsOf(es) - {w}
  {
    if w in KeysOf(es) {
      var d :| 0 <= d < |es| && KeysOf(es)[d] == w;
      KeysOfDelete(es, d);
    }
  }

  method EmptyTable(ghost universe: iset<nat>) returns (t: HashTable<nat, ()>)
    requires Separated(universe)
    ensures fresh(t) && fresh(t.indexSet) && t.Valid() && t.entries == []
    ensures t.domain == universe && t.hash == HashFunct && t.compare == EntryCompare
  {
    CompareDecidesIff(universe);
    t := new HashTable(HashFunct, EntryCompare, universe, 8, 31);
  }

  class WordSet {
    var table: HashTable<nat, ()>
    ghost const universe: iset<nat>

    ghost predicate Valid()
      reads this, table, table.indexSet
    {
      && Separated(universe)
      && table.domain == universe && table.hash == HashFunct && table.compare == EntryCompare
      && table.Valid()
    }

    /** The set of words. */
    ghost function Words(): set<nat>
      reads this, table
    {
      WordsOf(table.entries)
    }

    constructor (ghost universe: iset<nat>)
      requires Separated(universe)
      ensures Valid() && fresh(table) && fresh(table.indexSet) && Words() == {} && this.universe == universe
    {
      this.universe := universe;
      var t := EmptyTable(universe);
      table := t;
    }

    method Add(w: nat)
      requires Valid() && w in universe
      modifies table, table.indexSet
      ensures Valid() && (table.indexSet == old(table.indexSet) || fresh(table.indexSet))
      ensures Words() == old(Words()) + {w}
      ensures w in old(Words()) ==> table.entries == old(table.entries)
    {
      table.AddEntry(Entry(w, ()));
      AddedWord(old(table.entries), table.entries, w);
    }

    method Delete(w: nat)
      requires Valid() && w in universe
      modifies table, table.indexSet
      ensures Valid() && table.indexSet == old(table.indexSet)
      ensures Words() == old(Words()) - {w}
      ensures Removed(old(table.entries), table.entries, w)
    {
      table.DeleteEntry(w);
      RemovedWord(old(table.entries), table.entries, w);
    }

    method IsMember(w: nat) returns (b: bool)
      requires Valid() && w in universe
      ensures b <==> w in Words()
    {
      var v := table.QueryEntry(w);
      return v.Some?;
    }

    /** Two sets over the same universe that share storage only if they are one object. */
    ghost predicate Compatible(rhs: WordSet)
      reads this, rhs, table, rhs.table
    {
      && rhs.universe == universe
      && (rhs == this || (rhs.table != table && rhs.table.indexSet != table.indexSet))
    }

    ghost predicate Pair(rhs: WordSet)
      reads this, rhs, table, rhs.table, table.indexSet, rhs.table.indexSet
    {
      Valid() && rhs.Valid() && Compatible(rhs)
    }

    /** In the middle of `UnionWith`: the first i words of rhs have been added. */
    ghost predicate Uniting(rhs: WordSet, i: nat, es: Items, words: set<nat>)
      reads this, rhs, table, rhs.table, table.indexSet, rhs.table.indexSet
    {
      Pair(rhs) && rhs.table.entries == es && i <= |es| && Words() == words + Members(KeysOf(es)[..i])
    }

    method AddFrom(rhs: WordSet, i: nat, ghost es: Items, ghost words: set<nat>)
      requires Uniting(rhs, i, es, words) && i < |es|
      modifies table, table.indexSet
      ensures Uniting(rhs, i + 1, es, words) && (table.indexSet == old(table.indexSet) || fresh(table.indexSet))
    {
      var w := rhs.table.entries[i].key;
      assert KeysOf(es)[i] == w;
      MembersStep(KeysOf(es), i);
      Add(w);
    }

    /** `*this |= rhs`. */
    method UnionWith(rhs: WordSet)
      requires Pair(rhs)
      modifies table, table.indexSet
      ensures Pair(rhs) && (table.indexSet == old(table.indexSet) || fresh(table.indexSet))
      ensures Words() == old(Words()) + old(rhs.Words())
      ensures rhs.table.entries == old(rhs.table.entries)
    {
      ghost var es, words := rhs.table.entries, Words();
      var nentries := |rhs.table.entries|;
      for i := 0 to nentries
        invariant Uniting(rhs, i, es, words) && (table.indexSet == old(table.indexSet) || fresh(table.indexSet))
      {
        AddFrom(rhs, i, es, words);
      }
      assert KeysOf(es)[..nentries] == KeysOf(es);
    }

    /** Delete a word; a set that is another object does not notice. */
    method DeleteBeside(rhs: WordSet, w: nat)
      requires Pair(rhs) && w in universe
      modifies table, table.indexSet
      ensures Pair(rhs) && table.indexSet == old(table.indexSet)
      ensures Removed(old(table.entries), table.entries, w) && Words() == old(Words()) - {w}
      ensures rhs != this ==> rhs.table.entries == old(rhs.table.entries)
    {
      Delete(w);
    }

    /** In the middle of `DifferenceWith`: the words from position n on have been tested. */
    ghost predicate Testing(rhs: WordSet, n: nat, tested: seq<nat>, start: Items, away: set<nat>)
      reads this, rhs, table, rhs.table, table.indexSet, rhs.table.indexSet
    {
      && Pair(rhs) && n <= |start| && Walked(start, table.entries, n, away) && tested == Backwards(start, n)
      && if rhs == this then away == WordsOf(start) else away == rhs.Words()
    }

    /** Test one word of the walk and delete it if it is in rhs. */
    method TestAndDelete(rhs: WordSet, current: nat, ghost tested: seq<nat>, ghost start: Items, ghost away: set<nat>)
      requires current < |table.entries| && Testing(rhs, current + 1, tested, start, away)
      modifies table, table.indexSet
      ensures table.indexSet == old(table.indexSet) && current < |start|
      ensures Testing(rhs, current, tested + [start[current].key], start, away)
      ensures rhs != this ==> rhs.table.entries == old(rhs.table.entries)
    {
      var w := table.entries[current].key;
      ghost var before := table.entries;
      WalkedAt(start, before, current, away);
      assert KeysOf(before)[current] == w && w in WordsOf(before);
      var hit := rhs.IsMember(w);
      if hit {
        DeleteBeside(rhs, w);
        WalkDelete(start, before, table.entries, current, away);
      } else {
        WalkKeep(start, before, current, away);
      }
    }

    /** `*this -= rhs`: deletes while walking down the same dense array. Every word
      is tested exactly once, in the order it was stored, last one first. */
    method DifferenceWith(rhs: WordSet) returns (ghost tested: seq<nat>)
      requires Pair(rhs)
      modifies table, table.indexSet
      ensures Pair(rhs)
      ensures Words() == old(Words()) - old(rhs.Words())
      ensures rhs != this ==> rhs.table.entries == old(rhs.table.entries)
      ensures tested == Backwards(old(table.entries), 0)
    {
      tested := [];
      var current := |table.entries| - 1;
      ghost var start, away := table.entries, rhs.Words();
      while 0 <= current < |table.entries|
        invariant -1 <= current && Testing(rhs, current + 1, tested, start, away)
        invariant table.indexSet == old(table.indexSet)
        invariant rhs != this ==> rhs.table.entries == old(rhs.table.entries)
        decreases current
      {
        TestAndDelete(rhs, current, tested, start, away);
        tested := tested + [start[current].key];
        current := current - 1;
      }
      WalkDone(start, table.entries, away);
    }

    /** The iterator's walk over all words: does any of them belong to `other`? */
    method AnyIn(other: WordSet) returns (b: bool)
      requires Valid() && other.Valid() && other.universe == universe
      ensures b <==> Words() * other.Words() != {}
    {
      var current := |table.entries| - 1;
      ghost var keys := KeysOf(table.entries);
      while 0 <= current < |table.entries|
        invariant -1 <= current < |keys|
        invariant Members(keys[current + 1..]) * other.Words() == {}
        decreases current
      {
        var w := table.entries[current].key;
        MembersFrom(keys, current);
        assert keys[current] == w;
        var hit := other.IsMember(w);
        if hit {
          assert w in Words() * other.Words();
          return true;
        }
        current := current - 1;
      }
      assert keys[0..] == keys;
      return false;
    }

    /** Is every word of `other` a member? */
    method Includes(other: WordSet) returns (b: bool)
      requires Valid() && other.Valid() && other.universe == universe
      ensures b <==> other.Words() <= Words()
    {
      var current := |other.table.entries| - 1;
      ghost var keys := KeysOf(other.table.entries);
      while 0 <= current < |other.table.entries|
        invariant -1 <= current < |keys|
        invariant Members(keys[current + 1..]) - Words() == {}
        decreases current
      {
        var w := other.table.entries[current].key;
        MembersFrom(keys, current);
        assert keys[current] == w;
        var hit := IsMember(w);
        if !hit {
          assert w in other.Words() && w !in Words();
          return false;
        }
        current := current - 1;
      }
      assert keys[0..] == keys;
      assert Members(keys) == other.Words();
      NoneLeft(other.Words(), Words());
      return true;
    }

    /** Looks up the words of the smaller set in the larger one. */
    method Intersects(rhs: WordSet) returns (b: bool)
      requires Valid() && rhs.Valid() && rhs.universe == universe
      ensures b <==> Words() * rhs.Words() != {}
    {
      if |table.entries| > |rhs.table.entries| {
        b := rhs.AnyIn(this);
        assert rhs.Words() * Words() == Words() * rhs.Words();
      } else {
        b := AnyIn(rhs);
      }
    }

    /** Equal size, and every word of rhs is a member. */
    method Equals(rhs: WordSet) returns (b: bool)
      requires Valid() && rhs.Valid() && rhs.universe == universe
      ensures b <==> Words() == rhs.Words()
    {
      WordsCount(table.entries);
      WordsCount(rhs.table.entries);
      if |rhs.table.entries| != |table.entries| { return false; }
      b := Includes(rhs);
      if b { SubsetOfSameSize(rhs.Words(), Words()); }
    }

    /** Replace the set by an empty one. */
    method Clear()
      requires Valid()
      modifies this`table
      ensures Valid() && Words() == {}
      ensures table == old(table) || (fresh(table) && fresh(table.indexSet))
    {
      if |table.entries| > 0 {
        table := EmptyTable(universe);
      }
    }

    /** `*this &= rhs`, through a temporary set. */
    method IntersectWith(rhs: WordSet)
      requires Pair(rhs)
      modifies this`table, table, table.indexSet
      ensures Valid() && Words() == old(Words()) * old(rhs.Words())
      ensures rhs != this ==> rhs.Valid() && rhs.Words() == old(rhs.Words())
    {
      var larger, smaller := rhs, this;
      if |table.entries| > |rhs.table.entries| {
        larger, smaller := this, rhs;
      }
      var temp := larger.Common(smaller);
      assert larger.Words() * smaller.Words() == Words() * rhs.Words();
      Clear();
      UnionWith(temp);
    }

    /** A new set with the words of `smaller` that belong to this set. */
    method Common(smaller: WordSet) returns (temp: WordSet)
      requires Valid() && smaller.Valid() && smaller.universe == universe
      ensures fresh(temp) && temp.Valid() && temp.universe == universe
      ensures fresh(temp.table) && fresh(temp.table.indexSet)
      ensures temp.Words() == Words() * smaller.Words()
    {
      temp := new WordSet(universe);
      var current := |smaller.table.entries| - 1;
      ghost var keys := KeysOf(smaller.table.entries);
      while 0 <= current < |smaller.table.entries|
        invariant -1 <= current < |keys|
        invariant temp.Valid() && fresh(temp.table) && fresh(temp.table.indexSet)
        invariant temp.Words() == Words() * Members(keys[current + 1..])
        decreases current
      {
        MembersFrom(keys, current);
        TakeCommon(smaller, current, temp);
        current := current - 1;
      }
      assert keys[0..] == keys;
    }

    /** Add one word of `smaller` to the new set if it belongs to this set too. */
    method TakeCommon(smaller: WordSet, current: nat, temp: WordSet)
      requires Valid() && smaller.Valid() && smaller.universe == universe && temp.Valid() && temp.universe == universe
      requires temp.table != table && temp.table != smaller.table && temp != this && temp != smaller
      requires temp.table.indexSet != table.indexSet && temp.table.indexSet != smaller.table.indexSet
      requires current < |smaller.table.entries|
      modifies temp.table, temp.table.indexSet
      ensures temp.Valid() && (temp.table.indexSet == old(temp.table.indexSet) || fresh(temp.table.indexSet))
      ensures temp.Words() == old(temp.Words()) + (Words() * {KeysOf(smaller.table.entries)[current]})
    {
      var w := smaller.table.entries[current].key;
      assert KeysOf(smaller.table.entries)[current] == w;
      var hit := IsMember(w);
      if hit { temp.Add(w); }
    }
  }

  /** The stored words from the last one down to position n. */
  ghost function Backwards(es: Items, n: nat): seq<nat>
    decreases |es| - n
  {
    if n >= |es| then [] else Backwards(es, n + 1) + [es[n].key]
  }

  ghost function Members(keys: seq<nat>): set<nat> {
    set k | k in keys
  }

  lemma MembersStep(keys: seq<nat>, i: nat)
    requires i < |keys|
    ensures Members(keys[..i + 1]) == Members(keys[..i]) + {keys[i]}
  {
  }

  lemma MembersFrom(keys: seq<nat>, i: nat)
    requires i < |keys|
    ensures Members(keys[i..]) == {keys[i]} + Members(keys[i + 1..])
  {
  }

  lemma WordsCount(es: Items)
    requires Distinct(KeysOf(es))
    ensures |WordsOf(es)| == |es|
  {
    ElementsCount(KeysOf(es), |es|);
    assert KeysOf(es)[..|es|] == KeysOf(es);
    assert WordsOf(es) == Elems(KeysOf(es));
  }

  lemma NoneLeft(a: set<nat>, b: set<nat>)
    requires a - b == {}
    ensures a <= b
  {
    forall x | x in a
      ensures x in b
    {
      assert x !in a - b;
    }
  }

  lemma SubsetOfSameSize(a: set<nat>, b: set<nat>)
    requires a <= b && |a| == |b|
    ensures a == b
  {
    assert |b - a| == |b| - |a|;
  }

  lemma WalkedAt(start: Items, es: Items, current: nat, away: set<nat>)
    requires Walked(start, es, current + 1, away)
    ensures es[current] == start[current]
  {
  }

  /** A descending walk that has reached position n: what lies before is untouched,
    what lies behind stays, and only words of `away` are gone. */
  ghost predicate Walked(start: Items, es: Items, n: nat, away: set<nat>) {
    && Distinct(KeysOf(start)) && Distinct(KeysOf(es))
    && n <= |es| <= |start| && es[..n] == start[..n]
    && (forall i :: n <= i < |es| ==> es[i].key !in away)
    && WordsOf(es) <= WordsOf(start) && WordsOf(start) - WordsOf(es) <= away
  }

  lemma WalkKeep(start: Items, es: Items, current: nat, away: set<nat>)
    requires Walked(start, es, current + 1, away) && es[current].key !in away
    ensures Walked(start, es, current, away)
  {
  }

  /** Deleting the current word moves only an entry that was already walked over. */
  lemma WalkDelete(start: Items, es: Items, es': Items, current: nat, away: set<nat>)
    requires Walked(start, es, current + 1, away) && es[current].key in away && Removed(es, es', es[current].key)
    ensures Walked(start, es', current, away)
  {
    var n := |es| - 1;
    assert es' == es[current := es[n]][..n];
    KeysOfDelete(es, current);
    RemovedWord(es, es', es[current].key);
    assert es'[..current] == es[..current + 1][..current] == start[..current];
  }

  lemma WalkDone(start: Items, es: Items, away: set<nat>)
    requires Walked(start, es, 0, away)
    ensures WordsOf(es) == WordsOf(start) - away
  {
  }
}

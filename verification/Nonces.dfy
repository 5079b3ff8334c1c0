/** The choice of a nonce that tells the children of a context apart by their hashes. */
module Nonces {
  import opened ByteFormat

  type Scope = nat
  type Id = i: int | 0 <= i < U32 witness 0
  type Hash = h: int | 0 <= h < U64 witness 0

  const TRIALS := 20
  const NO_NONCE: Byte := 255

  datatype Child = Child(scope: Scope, hash: Hash, id: Id)

  /** The stable hash of a scope followed by a nonce. */
  type Hasher = (Scope, Byte) -> Hash

  function Rehash(h: Hasher, nonce: Byte, cs: seq<Child>): (r: seq<Child>)
    ensures |r| == |cs| && forall i :: 0 <= i < |r| ==> r[i] == cs[i].(hash := h(cs[i].scope, nonce))
  {
    seq(|cs|, i requires 0 <= i < |cs| => cs[i].(hash := h(cs[i].scope, nonce)))
  }

  // ----- Sorting by hash

  ghost predicate SortedByHash(cs: seq<Child>) {
    forall i, j :: 0 <= i < j < |cs| ==> cs[i].hash <= cs[j].hash
  }

  ghost predicate Apart(cs: seq<Child>) {
    forall i, j :: 0 <= i < j < |cs| ==> cs[i].hash != cs[j].hash
  }

  function Insert(c: Child, cs: seq<Child>): (r: seq<Child>)
    ensures multiset(r) == multiset(cs) + multiset{c}
  {
    if cs == [] then [c]
    else if c.hash <= cs[0].hash then [c] + cs
    else
      assert cs == [cs[0]] + cs[1..];
      [cs[0]] + Insert(c, cs[1..])
  }

  lemma {:induction false} InsertSorts(c: Child, cs: seq<Child>)
    requires SortedByHash(cs)
    ensures SortedByHash(Insert(c, cs))
  {
    if cs != [] && c.hash > cs[0].hash {
      InsertSorts(c, cs[1..]);
      var rest := Insert(c, cs[1..]);
      forall x | x in rest
        ensures cs[0].hash <= x.hash
      {
        assert x in multiset(rest);
        assert x == c || x in cs[1..];
      }
      forall j | 0 <= j < |rest|
        ensures cs[0].hash <= rest[j].hash
      {
        assert rest[j] in rest;
      }
    }
  }

  function Sort(cs: seq<Child>): (r: seq<Child>)
    ensures multiset(r) == multiset(cs)
  {
    if cs == [] then []
    else
      assert cs == [cs[0]] + cs[1..];
      Insert(cs[0], Sort(cs[1..]))
  }

  lemma {:induction false} SortSorts(cs: seq<Child>)
    ensures SortedByHash(Sort(cs))
  {
    if cs != [] {
      SortSorts(cs[1..]);
      InsertSorts(cs[0], Sort(cs[1..]));
    }
  }

  // ----- Permutations of children

  /** How many children have hash x. */
  ghost function With(cs: seq<Child>, x: Hash): nat {
    if cs == [] then 0 else (if cs[0].hash == x then 1 else 0) + With(cs[1..], x)
  }

  lemma {:induction false} WithNone(cs: seq<Child>, x: Hash)
    requires forall i :: 0 <= i < |cs| ==> cs[i].hash != x
    ensures With(cs, x) == 0
  {
    if cs != [] { WithNone(cs[1..], x); }
  }

  lemma {:induction false} WithOne(cs: seq<Child>, i: nat)
    requires i < |cs|
    ensures With(cs, cs[i].hash) >= 1
  {
    if i > 0 { WithOne(cs[1..], i - 1); }
  }

  lemma {:induction false} WithTwo(cs: seq<Child>, i: nat, j: nat)
    requires i < j < |cs| && cs[i].hash == cs[j].hash
    ensures With(cs, cs[i].hash) >= 2
  {
    if i == 0 { WithOne(cs[1..], j - 1); } else { WithTwo(cs[1..], i - 1, j - 1); }
  }

  lemma {:induction false} ApartAtMostOne(cs: seq<Child>, x: Hash)
    requires Apart(cs)
    ensures With(cs, x) <= 1
  {
    if cs != [] {
      assert forall i :: 0 <= i < |cs| - 1 ==> cs[1..][i] == cs[i + 1];
      if cs[0].hash == x { WithNone(cs[1..], x); } else { ApartAtMostOne(cs[1..], x); }
    }
  }

  lemma {:induction false} WithRemoved(cs: seq<Child>, k: nat, x: Hash)
    requires k < |cs|
    ensures With(cs, x) == With(cs[..k] + cs[k + 1..], x) + if cs[k].hash == x then 1 else 0
  {
    if k == 0 {
      assert cs[..k] + cs[k + 1..] == cs[1..];
    } else {
      WithRemoved(cs[1..], k - 1, x);
      assert (cs[..k] + cs[k + 1..])[1..] == cs[1..][..k - 1] + cs[1..][k..];
    }
  }

  lemma MultisetRemoved(cs: seq<Child>, k: nat)
    requires k < |cs|
    ensures multiset(cs) == multiset(cs[..k] + cs[k + 1..]) + multiset{cs[k]}
  {
    assert cs == cs[..k] + [cs[k]] + cs[k + 1..];
  }

  /** Where the first of the children is in a permutation of them. */
  lemma FirstOf(a: seq<Child>, b: seq<Child>) returns (k: nat)
    requires multiset(a) == multiset(b) && a != []
    ensures k < |b| && b[k] == a[0] && multiset(a[1..]) == multiset(b[..k] + b[k + 1..])
  {
    assert a[0] in multiset(b);
    k :| 0 <= k < |b| && b[k] == a[0];
    MultisetRemoved(b, k);
    assert a == [a[0]] + a[1..];
    assert multiset(a[1..]) == multiset(a) - multiset{a[0]};
    assert multiset(b[..k] + b[k + 1..]) == multiset(b) - multiset{a[0]};
  }

  /** Permuting children permutes their hashes. */
  lemma {:induction false} PermutedWith(a: seq<Child>, b: seq<Child>, x: Hash)
    requires multiset(a) == multiset(b)
    ensures With(a, x) == With(b, x)
    decreases |a|
  {
    if a == [] {
      assert |multiset(b)| == 0;
    } else {
      var k := FirstOf(a, b);
      PermutedWith(a[1..], b[..k] + b[k + 1..], x);
      WithRemoved(b, k, x);
    }
  }

  lemma {:induction false} PermutedHashes(a: seq<Child>, b: seq<Child>, h: Hasher, nonce: Byte)
    requires multiset(a) == multiset(b)
    ensures multiset(Rehash(h, nonce, a)) == multiset(Rehash(h, nonce, b))
    decreases |a|
  {
    if a == [] {
      assert |multiset(b)| == 0;
    } else {
      var k := FirstOf(a, b);
      var c := b[..k] + b[k + 1..];
      var x := a[0].(hash := h(a[0].scope, nonce));
      calc {
        multiset(Rehash(h, nonce, a));
        { assert a[..0] + a[1..] == a[1..]; RehashRemoved(a, 0, h, nonce); }
        multiset(Rehash(h, nonce, a[1..])) + multiset{x};
        { PermutedHashes(a[1..], c, h, nonce); }
        multiset(Rehash(h, nonce, c)) + multiset{x};
        { RehashRemoved(b, k, h, nonce); }
        multiset(Rehash(h, nonce, b));
      }
    }
  }

  lemma PermutedApart(a: seq<Child>, b: seq<Child>)
    requires multiset(a) == multiset(b) && Apart(a)
    ensures Apart(b)
  {
    forall i, j | 0 <= i < j < |b|
      ensures b[i].hash != b[j].hash
    {
      PermutedWith(a, b, b[i].hash);
      ApartAtMostOne(a, b[i].hash);
      if b[i].hash == b[j].hash { WithTwo(b, i, j); }
    }
  }

  lemma RehashRemoved(cs: seq<Child>, k: nat, h: Hasher, nonce: Byte)
    requires k < |cs|
    ensures multiset(Rehash(h, nonce, cs)) ==
            multiset(Rehash(h, nonce, cs[..k] + cs[k + 1..])) + multiset{cs[k].(hash := h(cs[k].scope, nonce))}
  {
    var r := Rehash(h, nonce, cs);
    MultisetRemoved(r, k);
    assert r[..k] + r[k + 1..] == Rehash(h, nonce, cs[..k] + cs[k + 1..]);
  }

  // ----- The search

  /** The nonce gives all children different hashes. */
  ghost predicate Separates(h: Hasher, nonce: Byte, base: seq<Child>) {
    Apart(Rehash(h, nonce, base))
  }

  /** The first n hashes are strictly ascending. */
  ghost predicate Ascending(cs: seq<Child>, n: nat) {
    forall i, j :: 0 <= i < j < n <= |cs| ==> cs[i].hash < cs[j].hash
  }

  lemma Ascends(cs: seq<Child>, n: nat)
    requires 0 < n < |cs| && SortedByHash(cs) && Ascending(cs, n) && cs[n - 1].hash != cs[n].hash
    ensures Ascending(cs, n + 1)
  {
  }

  /** One trial: hash, sort, and compare neighbours. */
  method Try(h: Hasher, nonce: Byte, cs: seq<Child>) returns (sorted: seq<Child>, unique: bool)
    ensures multiset(sorted) == multiset(Rehash(h, nonce, cs)) && SortedByHash(sorted)
    ensures unique <==> Apart(sorted)
  {
    var hashed := Rehash(h, nonce, cs);
    sorted := Sort(hashed);
    SortSorts(hashed);
    unique := NeighboursApart(sorted);
  }

  method NeighboursApart(sorted: seq<Child>) returns (unique: bool)
    requires SortedByHash(sorted)
    ensures unique <==> Apart(sorted)
  {
    var i := 1;
    while i < |sorted|
      invariant 1 <= i && (i <= |sorted| || sorted == []) && Ascending(sorted, i)
    {
      if sorted[i - 1].hash == sorted[i].hash {
        return false;
      }
      Ascends(sorted, i);
      i := i + 1;
    }
    return true;
  }

  /** The first nonce that separates the children, which come sorted by their hashes. */
  method FindNonce(h: Hasher, base: seq<Child>) returns (nonce: Byte, children: seq<Child>)
    ensures nonce == NO_NONCE == 255 || nonce < TRIALS == 20
    ensures nonce == NO_NONCE ==> forall n: Byte :: n < TRIALS ==> !Separates(h, n, base)
    ensures nonce != NO_NONCE ==>
              && Separates(h, nonce, base) && (forall n: Byte :: n < nonce ==> !Separates(h, n, base))
              && multiset(children) == multiset(Rehash(h, nonce, base)) && SortedByHash(children) && Apart(children)
  {
    nonce, children := NO_NONCE, base;
    var trial: int := 0;
    while trial < TRIALS
      invariant 0 <= trial <= TRIALS && nonce == NO_NONCE
      invariant forall n: Byte :: n < trial ==> !Separates(h, n, base)
      invariant forall n: Byte :: multiset(Rehash(h, n, children)) == multiset(Rehash(h, n, base))
    {
      ghost var before := children;
      var unique;
      children, unique := Try(h, trial, children);
      SameSeparation(h, trial, base, children);
      if unique {
        nonce := trial;
        return;
      }
      forall n: Byte
        ensures multiset(Rehash(h, n, children)) == multiset(Rehash(h, n, base))
      {
        PermutedHashes(children, Rehash(h, trial, before), h, n);
        assert Rehash(h, n, Rehash(h, trial, before)) == Rehash(h, n, before);
      }
      trial := trial + 1;
    }
  }

  lemma SameSeparation(h: Hasher, nonce: Byte, base: seq<Child>, cs: seq<Child>)
    requires multiset(cs) == multiset(Rehash(h, nonce, base))
    ensures Separates(h, nonce, base) <==> Apart(cs)
  {
    if Apart(cs) { PermutedApart(cs, Rehash(h, nonce, base)); }
    if Separates(h, nonce, base) { PermutedApart(Rehash(h, nonce, base), cs); }
  }
}

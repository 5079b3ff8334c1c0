/** The probe sequence of the hash table: steps of 16 modulo an odd table size. */
module Probing {

  /** The rehash function: the next index to probe. */
  function Rehash(i: nat, size: nat): (r: nat)
    requires size > 0
    ensures r < size
  {
    (i + 16) % size
  }

  /** Where the t-th probe from index h lands. */
  ghost function Probe(h: nat, t: nat, size: nat): (r: nat)
    requires size > 0
    ensures r < size
  {
    if t == 0 then h % size else Rehash(Probe(h, t - 1, size), size)
  }

  // ----- Congruences

  ghost predicate Divides(n: int, x: int) {
    exists q: int :: x == n * q
  }

  lemma DividesBy(n: int, x: int, q: int)
    requires x == n * q
    ensures Divides(n, x)
  {
  }

  lemma OddTimesOdd(n: int, q: int)
    requires n % 2 == 1 && q % 2 == 1
    ensures (n * q) % 2 == 1
  {
    var a, b := n / 2, q / 2;
    assert n * q == (2 * a + 1) * (2 * b + 1) == 2 * (2 * a * b + a + b) + 1;
  }

  /** An odd number that divides 2x divides x. */
  lemma HalveDivides(n: int, x: int)
    requires n % 2 == 1 && Divides(n, 2 * x)
    ensures Divides(n, x)
  {
    var q :| 2 * x == n * q;
    if q % 2 == 1 {
      OddTimesOdd(n, q);
    }
    assert 2 * x == n * (2 * (q / 2)) == 2 * (n * (q / 2));
    DividesBy(n, x, q / 2);
  }

  lemma SixteenDivides(n: int, x: int)
    requires n % 2 == 1 && Divides(n, 16 * x)
    ensures Divides(n, x)
  {
    assert 16 * x == 2 * (8 * x) && 8 * x == 2 * (4 * x) && 4 * x == 2 * (2 * x);
    HalveDivides(n, 8 * x);
    HalveDivides(n, 4 * x);
    HalveDivides(n, 2 * x);
    HalveDivides(n, x);
  }

  lemma SmallMultiple(n: int, x: int)
    requires 0 < x < n
    ensures !Divides(n, x)
  {
  }

  lemma ModDifference(a: int, n: int)
    requires n > 0
    ensures Divides(n, a - a % n)
  {
    DividesBy(n, a - a % n, a / n);
  }

  lemma DividesSum(n: int, x: int, y: int)
    requires Divides(n, x) && Divides(n, y)
    ensures Divides(n, x + y) && Divides(n, x - y)
  {
    var p :| x == n * p;
    var q :| y == n * q;
    assert x + y == n * (p + q) && x - y == n * (p - q);
  }

  // ----- The probe sequence is a full cycle

  /** The t-th probe is h + 16t up to multiples of the size. */
  lemma {:induction false} ProbeCongruent(h: nat, t: nat, size: nat)
    requires size > 0
    ensures Divides(size, h + 16 * t - Probe(h, t, size))
  {
    if t == 0 {
      ModDifference(h, size);
    } else {
      var before := Probe(h, t - 1, size);
      ProbeCongruent(h, t - 1, size);
      ModDifference(before + 16, size);
      DividesSum(size, h + 16 * (t - 1) - before, before + 16 - Probe(h, t, size));
    }
  }

  /** Two probes less than a full round apart hit different slots. */
  lemma ProbesDiffer(h: nat, s: nat, t: nat, size: nat)
    requires size % 2 == 1 && s < t < s + size
    ensures Probe(h, s, size) != Probe(h, t, size)
  {
    if Probe(h, s, size) == Probe(h, t, size) {
      ProbeCongruent(h, s, size);
      ProbeCongruent(h, t, size);
      DividesSum(size, h + 16 * t - Probe(h, t, size), h + 16 * s - Probe(h, s, size));
      assert 16 * (t - s) == (h + 16 * t - Probe(h, t, size)) - (h + 16 * s - Probe(h, s, size));
      SixteenDivides(size, t - s);
      SmallMultiple(size, t - s);
    }
  }

  /** After exactly `size` probes the sequence is back where it started. */
  lemma ProbeWraps(h: nat, size: nat)
    requires h < size
    ensures Probe(h, size, size) == h
  {
    ProbeCongruent(h, size, size);
    DividesBy(size, 16 * size, 16);
    var p := Probe(h, size, size);
    DividesSum(size, h + 16 * size - p, 16 * size);
    assert Divides(size, h - p);
    if h > p {
      SmallMultiple(size, h - p);
    } else if p > h {
      var q :| h - p == size * q;
      assert p - h == size * (-q);
      SmallMultiple(size, p - h);
    }
  }

  lemma SmallMod(x: nat, n: nat)
    requires x < n
    ensures x % n == x
  {
  }

  /** Only a full round leads back to the start. */
  lemma BackAtStart(h: nat, t: nat, size: nat)
    requires size % 2 == 1 && h < size && 0 < t <= size
    ensures Probe(h, t, size) == h <==> t == size
  {
    if t == size {
      ProbeWraps(h, size);
    } else {
      SmallMod(h, size);
      ProbesDiffer(h, 0, t, size);
    }
  }

  ghost function Probed(h: nat, n: nat, size: nat): set<nat>
    requires size > 0
  {
    if n == 0 then {} else Probed(h, n - 1, size) + {Probe(h, n - 1, size)}
  }

  ghost predicate HitBefore(h: nat, n: nat, size: nat, i: nat)
    requires size > 0
  {
    exists t: nat :: t < n && Probe(h, t, size) == i
  }

  lemma {:induction false} ProbedAreHit(h: nat, n: nat, size: nat, i: nat)
    requires size > 0 && i in Probed(h, n, size)
    ensures i < size && HitBefore(h, n, size, i)
  {
    if i in Probed(h, n - 1, size) {
      ProbedAreHit(h, n - 1, size, i);
      var t: nat :| t < n - 1 && Probe(h, t, size) == i;
      assert t < n;
    } else {
      assert n - 1 < n;
    }
  }

  lemma {:induction false} ProbedCounts(h: nat, n: nat, size: nat)
    requires size % 2 == 1 && n <= size
    ensures |Probed(h, n, size)| == n
  {
    if n > 0 {
      ProbedCounts(h, n - 1, size);
      if Probe(h, n - 1, size) in Probed(h, n - 1, size) {
        ProbedAreHit(h, n - 1, size, Probe(h, n - 1, size));
        var t: nat :| t < n - 1 && Probe(h, t, size) == Probe(h, n - 1, size);
        ProbesDiffer(h, t, n - 1, size);
      }
    }
  }

  lemma {:induction false} BelowCounts(s: set<nat>, n: nat)
    requires forall i :: i in s ==> i < n
    ensures |s| <= n
    ensures |s| == n ==> forall i: nat :: i < n ==> i in s
    decreases n
  {
    if n == 0 {
      assert s == {};
    } else if n - 1 in s {
      var rest := s - {n - 1};
      BelowCounts(rest, n - 1);
      forall i: nat | |s| == n && i < n
        ensures i in s
      {
        assert i in rest || i == n - 1;
      }
    } else {
      BelowCounts(s, n - 1);
    }
  }

  /** Every slot is probed before any is probed twice. */
  lemma ProbeReaches(h: nat, i: nat, size: nat) returns (t: nat)
    requires size % 2 == 1 && i < size
    ensures t < size && Probe(h, t, size) == i
  {
    ProbedCounts(h, size, size);
    forall x | x in Probed(h, size, size)
      ensures x < size
    {
      ProbedAreHit(h, size, size, x);
    }
    BelowCounts(Probed(h, size, size), size);
    ProbedAreHit(h, size, size, i);
    t :| t < size && Probe(h, t, size) == i;
  }

  lemma EvenMultiple(n: int, x: int)
    requires n % 2 == 0 && Divides(n, x)
    ensures x % 2 == 0
  {
    var q :| x == n * q;
    var half := n / 2;
    assert x == (2 * half) * q == 2 * (half * q);
  }

  /** With an even size, slots of the other parity are never probed. */
  lemma EvenSizeStalls(h: nat, t: nat, size: nat)
    requires size > 0 && size % 2 == 0
    ensures Probe(h, t, size) % 2 == h % 2
  {
    ProbeCongruent(h, t, size);
    EvenMultiple(size, h + 16 * t - Probe(h, t, size));
    SameParity(h, Probe(h, t, size), t);
  }

  lemma SameParity(h: nat, p: nat, t: nat)
    requires (h + 16 * t - p) % 2 == 0
    ensures p % 2 == h % 2
  {
  }

  /** Every slot is reached within one round if and only if the size is odd. */
  lemma AllReachedIff(h: nat, size: nat)
    requires size > 0
    ensures (forall i: nat :: i < size ==> HitBefore(h, size, size, i)) <==> size % 2 == 1
  {
    if size % 2 == 1 {
      forall i: nat | i < size
        ensures HitBefore(h, size, size, i)
      {
        var t := ProbeReaches(h, i, size);
      }
    } else {
      var missed := (h + 1) % 2;
      forall t: nat
        ensures Probe(h, t, size) != missed
      {
        EvenSizeStalls(h, t, size);
      }
      assert missed < size && !HitBefore(h, size, size, missed);
    }
  }
}

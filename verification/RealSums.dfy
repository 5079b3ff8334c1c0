/** Sums of reals over sequences and finite sets. */
module RealSums {

  lemma Distribute(c: real, a: real, b: real, sum: real)
    requires sum == a + b
    ensures c * sum == c * a + c * b
  {
  }

  lemma AddOver(a: real, b: real, d: real, sum: real)
    requires d != 0.0 && sum == a + b
    ensures sum / d == a / d + b / d
  {
  }

  function Sum(s: seq<real>): real {
    if s == [] then 0.0 else Sum(s[..|s| - 1]) + s[|s| - 1]
  }

  /** The sum of w over the elements of s. */
  ghost function SumOver<T>(s: set<T>, w: T -> real): real {
    if s == {} then 0.0
    else
      var x :| x in s;
      w(x) + SumOver(s - {x}, w)
  }

  lemma {:induction false} SumOverAdd<T>(s: set<T>, w: T -> real, x: T)
    requires x in s
    ensures SumOver(s, w) == w(x) + SumOver(s - {x}, w)
    decreases |s|
  {
    var y :| y in s && SumOver(s, w) == w(y) + SumOver(s - {y}, w);
    if y != x {
      SumOverAdd(s - {y}, w, x);
      SumOverAdd(s - {x}, w, y);
      assert s - {y} - {x} == s - {x} - {y};
    }
  }

  lemma SumOverOne<T>(x: T, w: T -> real)
    ensures SumOver({x}, w) == w(x)
  {
  }

  lemma {:induction false} SumOverUnion<T>(s: set<T>, t: set<T>, w: T -> real)
    requires s !! t
    ensures SumOver(s + t, w) == SumOver(s, w) + SumOver(t, w)
    decreases |s|
  {
    if s == {} {
      assert s + t == t;
    } else {
      var x :| x in s;
      SumOverAdd(s, w, x);
      SumOverAdd(s + t, w, x);
      SumOverUnion(s - {x}, t, w);
      assert s + t - {x} == (s - {x}) + t;
    }
  }

  lemma {:induction false} SumOverNonNeg<T>(s: set<T>, w: T -> real)
    requires forall x :: x in s ==> w(x) >= 0.0
    ensures SumOver(s, w) >= 0.0
    ensures forall x :: x in s ==> w(x) <= SumOver(s, w)
    decreases |s|
  {
    forall x | x in s
      ensures w(x) <= SumOver(s, w)
    {
      SumOverAdd(s, w, x);
      SumOverNonNeg(s - {x}, w);
    }
    if s != {} {
      var x :| x in s;
      assert 0.0 <= w(x) <= SumOver(s, w);
    }
  }

  ghost function Scaled<T>(w: T -> real, c: real): T -> real {
    (x: T) => c * w(x)
  }

  // ----- Sums through an additive function

  ghost predicate Adds(f: real -> real, a: real, b: real) {
    f(a + b) == f(a) + f(b)
  }

  /** Multiplying by v. */
  ghost function By(v: real): real -> real {
    x => v * x
  }

  lemma ByAdds(v: real)
    ensures forall a, b :: Adds(By(v), a, b)
  {
    forall a, b
      ensures Adds(By(v), a, b)
    {
      Distribute(v, a, b, a + b);
    }
  }

  lemma {:induction false} SumOverBy<T>(s: set<T>, w: T -> real, u: T -> real, f: real -> real)
    requires f(0.0) == 0.0 && (forall a, b :: Adds(f, a, b)) && forall x :: x in s ==> u(x) == f(w(x))
    ensures SumOver(s, u) == f(SumOver(s, w))
    decreases |s|
  {
    if s != {} {
      var x :| x in s;
      SumOverAdd(s, u, x);
      SumOverAdd(s, w, x);
      SumOverBy(s - {x}, w, u, f);
      assert Adds(f, w(x), SumOver(s - {x}, w));
    }
  }

  lemma SumOverScaled<T>(s: set<T>, w: T -> real, c: real)
    ensures SumOver(s, Scaled(w, c)) == c * SumOver(s, w)
  {
    ByAdds(c);
    SumOverBy(s, w, Scaled(w, c), By(c));
  }

  ghost predicate Splits<T>(g: set<T> -> real, w: T -> real, all: set<T>, u: set<T>, x: T) {
    u <= all && x in u ==> g(u) == w(x) + g(u - {x})
  }

  /** A quantity from which single elements split off is a sum. */
  lemma {:induction false} SplitsSum<T(!new)>(g: set<T> -> real, w: T -> real, all: set<T>, t: set<T>)
    requires t <= all && g({}) == 0.0 && forall u, x :: Splits(g, w, all, u, x)
    ensures g(t) == SumOver(t, w)
    decreases |t|
  {
    if t != {} {
      var x :| x in t;
      SplitsSum(g, w, all, t - {x});
      SumOverAdd(t, w, x);
      assert Splits(g, w, all, t, x);
    }
  }

  lemma ScaledUnit<T>(s: set<T>, w: T -> real, c: real)
    requires SumOver(s, w) == 1.0
    ensures SumOver(s, Scaled(w, c)) == c
  {
    SumOverScaled(s, w, c);
  }

  lemma {:induction false} SumOverBump<T>(s: set<T>, v: T -> real, w: T -> real, x: T, d: real)
    requires forall y :: y in s ==> w(y) == v(y) + if y == x then d else 0.0
    ensures SumOver(s, w) == SumOver(s, v) + if x in s then d else 0.0
    decreases |s|
  {
    if s != {} {
      var y :| y in s;
      SumOverAdd(s, v, y);
      SumOverAdd(s, w, y);
      SumOverBump(s - {y}, v, w, x, d);
    }
  }

  lemma {:induction false} SumOverPlus<T>(s: set<T>, u: T -> real, v: T -> real, w: T -> real)
    requires forall y :: y in s ==> w(y) == u(y) + v(y)
    ensures SumOver(s, w) == SumOver(s, u) + SumOver(s, v)
    decreases |s|
  {
    if s != {} {
      var y :| y in s;
      SumOverAdd(s, u, y);
      SumOverAdd(s, v, y);
      SumOverAdd(s, w, y);
      SumOverPlus(s - {y}, u, v, w);
    }
  }

  lemma {:induction false} SumOverSame<T>(s: set<T>, v: T -> real, w: T -> real)
    requires forall y :: y in s ==> w(y) == v(y)
    ensures SumOver(s, w) == SumOver(s, v)
    decreases |s|
  {
    if s != {} {
      var y :| y in s;
      SumOverAdd(s, v, y);
      SumOverAdd(s, w, y);
      SumOverSame(s - {y}, v, w);
    }
  }

  lemma {:induction false} SumOverZero<T>(s: set<T>, w: T -> real)
    requires forall y :: y in s ==> w(y) == 0.0
    ensures SumOver(s, w) == 0.0
    decreases |s|
  {
    if s != {} {
      var y :| y in s;
      SumOverAdd(s, w, y);
      SumOverZero(s - {y}, w);
    }
  }

  lemma SumOverSubset<T>(s: set<T>, t: set<T>, w: T -> real)
    requires s <= t && forall y :: y in t && y !in s ==> w(y) == 0.0
    ensures SumOver(t, w) == SumOver(s, w)
  {
    SumOverUnion(s, t - s, w);
    assert s + (t - s) == t;
    SumOverZero(t - s, w);
  }

  /** Summing a sequence is summing over its positions. */
  lemma {:induction false} SumIsSumOver(s: seq<real>, c: set<nat>, w: nat -> real, n: nat)
    requires n <= |s|
    requires forall i :: i in c ==> i < n
    requires forall i: nat :: i < n ==> s[i] == if i in c then w(i) else 0.0
    ensures Sum(s[..n]) == SumOver(c, w)
  {
    if n == 0 {
      assert c == {};
    } else {
      assert s[..n][..n - 1] == s[..n - 1];
      if n - 1 in c {
        SumOverAdd<nat>(c, w, n - 1);
        SumIsSumOver(s, c - {n - 1}, w, n - 1);
      } else {
        SumIsSumOver(s, c, w, n - 1);
      }
    }
  }

  // ----- Weighted rows

  ghost function Dot(a: seq<real>, w: seq<real>): real
    requires |a| == |w|
  {
    if a == [] then 0.0 else Dot(a[..|a| - 1], w[..|w| - 1]) + a[|a| - 1] * w[|w| - 1]
  }

  ghost function Plus(a: seq<real>, b: seq<real>): (c: seq<real>)
    requires |a| == |b|
    ensures |c| == |a| && forall i :: 0 <= i < |a| ==> c[i] == a[i] + b[i]
  {
    seq(|a|, i requires 0 <= i < |a| => a[i] + b[i])
  }

  /** Column sums of a table with n columns. */
  ghost function Columns(rows: seq<seq<real>>, n: nat): (c: seq<real>)
    requires forall r :: r in rows ==> |r| == n
    ensures |c| == n
  {
    if rows == [] then seq(n, _ => 0.0) else Plus(Columns(rows[..|rows| - 1], n), rows[|rows| - 1])
  }

  ghost function Table(rows: seq<seq<real>>, w: seq<real>): real
    requires forall r :: r in rows ==> |r| == |w|
  {
    if rows == [] then 0.0 else Table(rows[..|rows| - 1], w) + Dot(rows[|rows| - 1], w)
  }

  lemma {:induction false} DotPlus(a: seq<real>, b: seq<real>, w: seq<real>)
    requires |a| == |b| == |w|
    ensures Dot(Plus(a, b), w) == Dot(a, w) + Dot(b, w)
  {
    if a != [] {
      var n := |a| - 1;
      assert Plus(a, b)[..n] == Plus(a[..n], b[..n]);
      DotPlus(a[..n], b[..n], w[..n]);
      Distribute(w[n], a[n], b[n], Plus(a, b)[n]);
    }
  }

  lemma {:induction false} DotZero(n: nat, w: seq<real>)
    requires |w| == n
    ensures Dot(seq(n, _ => 0.0), w) == 0.0
  {
    if n > 0 {
      assert seq(n, _ => 0.0)[..n - 1] == seq(n - 1, _ => 0.0);
      DotZero(n - 1, w[..n - 1]);
    }
  }

  /** Summing a table row by row or column by column is the same. */
  lemma {:induction false} TableByColumns(rows: seq<seq<real>>, w: seq<real>)
    requires forall r :: r in rows ==> |r| == |w|
    ensures Table(rows, w) == Dot(Columns(rows, |w|), w)
  {
    if rows == [] {
      DotZero(|w|, w);
    } else {
      var k := |rows| - 1;
      TableByColumns(rows[..k], w);
      DotPlus(Columns(rows[..k], |w|), rows[k], w);
    }
  }

  lemma {:induction false} DotUnit(c: seq<real>, w: seq<real>)
    requires |c| == |w| && forall i :: 0 <= i < |w| && w[i] != 0.0 ==> c[i] == 1.0
    ensures Dot(c, w) == Sum(w)
  {
    if c != [] {
      DotUnit(c[..|c| - 1], w[..|w| - 1]);
    }
  }

  lemma {:induction false} ColumnAt(rows: seq<seq<real>>, n: nat, i: nat, column: seq<real>)
    requires i < n && forall r :: r in rows ==> |r| == n
    requires |column| == |rows| && forall k :: 0 <= k < |rows| ==> column[k] == rows[k][i]
    ensures Columns(rows, n)[i] == Sum(column)
  {
    if rows != [] {
      var m := |rows| - 1;
      ColumnAt(rows[..m], n, i, column[..m]);
    }
  }

  lemma {:induction false} SumDivided(a: seq<real>, b: seq<real>, d: real)
    requires |a| == |b| && d != 0.0 && forall i :: 0 <= i < |a| ==> b[i] == a[i] / d
    ensures Sum(b) == Sum(a) / d
  {
    if a != [] {
      var n := |a| - 1;
      SumDivided(a[..n], b[..n], d);
      AddOver(Sum(a[..n]), a[n], d, Sum(a));
    }
  }

  lemma OverItself(x: real, d: real)
    requires x == d != 0.0
    ensures x / d == 1.0
  {
  }

  lemma QuotientsSumToOne(a: seq<real>, b: seq<real>, d: real)
    requires |a| == |b| && d != 0.0 && d == Sum(a) && forall i :: 0 <= i < |a| ==> b[i] == a[i] / d
    ensures Sum(b) == 1.0
  {
    SumDivided(a, b, d);
    OverItself(Sum(a), d);
  }

  lemma QuotientColumn(rows: seq<seq<real>>, n: nat, i: nat, a: seq<real>, column: seq<real>, d: real)
    requires i < n && (forall r :: r in rows ==> |r| == n)
    requires |column| == |rows| && forall k :: 0 <= k < |rows| ==> column[k] == rows[k][i]
    requires |a| == |rows| && d == Sum(a) != 0.0 && forall k :: 0 <= k < |a| ==> column[k] == a[k] / d
    ensures Columns(rows, n)[i] == 1.0
  {
    ColumnAt(rows, n, i, column);
    QuotientsSumToOne(a, column, d);
  }
}

/** The bytes of packed data: 64-bit numbers in little-endian order and strings that end
  with a NUL. An iterator over the bytes is modelled by the bytes it has ahead. */
module ByteFormat {
  type Byte = b: int | 0 <= b < 256

  const U32 := 0x1_0000_0000
  const U64 := 0x1_0000_0000_0000_0000

  // ----- Numbers

  function Shifted(v: nat, n: nat): nat {
    if n == 0 then v else Shifted(v, n - 1) / 256
  }

  function LittleEndian(v: nat, n: nat): (bs: seq<Byte>)
    ensures |bs| == n
  {
    if n == 0 then [] else [v % 256] + LittleEndian(v / 256, n - 1)
  }

  function Power(n: nat): nat {
    if n == 0 then 1 else 256 * Power(n - 1)
  }

  function Number(bs: seq<Byte>): nat {
    if bs == [] then 0 else bs[0] + 256 * Number(bs[1..])
  }

  lemma {:induction false} NumberOfLittleEndian(v: nat, n: nat)
    requires v < Power(n)
    ensures Number(LittleEndian(v, n)) == v
  {
    if n > 0 {
      assert v / 256 < Power(n - 1);
      NumberOfLittleEndian(v / 256, n - 1);
      assert LittleEndian(v, n)[1..] == LittleEndian(v / 256, n - 1);
    }
  }

  lemma {:induction false} LittleEndianSnoc(v: nat, n: nat)
    ensures LittleEndian(v, n + 1) == LittleEndian(v, n) + [Shifted(v, n) % 256]
  {
    if n > 0 {
      LittleEndianSnoc(v / 256, n - 1);
      ShiftedInside(v, n);
    }
  }

  /** Bytes come from the lowest to the highest. */
  lemma {:induction false} ByteAt(v: nat, n: nat, i: nat)
    requires i < n
    ensures LittleEndian(v, n)[i] == Shifted(v, i) % 256
  {
    if i > 0 {
      ByteAt(v / 256, n - 1, i - 1);
      ShiftedInside(v, i);
    }
  }

  lemma {:induction false} ShiftedInside(v: nat, n: nat)
    requires n > 0
    ensures Shifted(v, n) == Shifted(v / 256, n - 1)
  {
    if n > 1 { ShiftedInside(v, n - 1); }
  }

  lemma {:induction false} NumberSnoc(bs: seq<Byte>, b: Byte)
    ensures Number(bs + [b]) == Number(bs) + b * Power(|bs|)
  {
    if bs == [] {
      assert bs + [b] == [b] && [b][1..] == [];
    } else {
      assert (bs + [b])[1..] == bs[1..] + [b];
      NumberSnoc(bs[1..], b);
      Carry(b, Power(|bs| - 1));
    }
  }

  lemma Carry(b: int, p: int)
    ensures 256 * (b * p) == b * (256 * p)
  {
  }

  lemma PowerOfEight()
    ensures Power(8) == U64
  {
    assert Power(4) == 256 * 256 * 256 * 256;
    assert Power(8) == 256 * 256 * 256 * 256 * Power(4);
  }

  function NumberBytes(v: nat): (bs: seq<Byte>)
    ensures |bs| == 8
  {
    LittleEndian(v, 8)
  }

  /** Append a number, one shift of eight bits at a time. */
  method PackNumber(out: seq<Byte>, v: nat) returns (out': seq<Byte>)
    requires v < U64
    ensures out' == out + NumberBytes(v)
  {
    out' := out;
    var n := 0;
    while n < 8
      invariant n <= 8 && out' == out + LittleEndian(v, n)
    {
      LittleEndianSnoc(v, n);
      out' := out' + [Shifted(v, n) % 256];
      n := n + 1;
    }
  }

  /** Read a number back. */
  method UnpackNumber(it: seq<Byte>) returns (v: nat, it': seq<Byte>)
    requires |it| >= 8
    ensures v == Number(it[..8]) && it' == it[8..]
    ensures forall w: nat :: w < U64 && it[..8] == NumberBytes(w) ==> v == w
  {
    v, it' := 0, it;
    var n: nat, shift: nat := 0, 1;
    while n < 8
      invariant n <= 8 && shift == Power(n)
      invariant v == Number(it[..n]) && it' == it[n..]
    {
      NumberSnoc(it[..n], it[n]);
      assert it[..n] + [it[n]] == it[..n + 1];
      v := v + it'[0] * shift;
      it' := it'[1..];
      n, shift := n + 1, 256 * shift;
    }
    PowerOfEight();
    forall w: nat | w < U64 && it[..8] == NumberBytes(w)
      ensures v == w
    {
      NumberOfLittleEndian(w, 8);
    }
  }

  // ----- Strings

  /** A NUL inside a string is replaced by a question mark. */
  function Clean(s: seq<Byte>): (c: seq<Byte>)
    ensures |c| == |s| && 0 !in c
  {
    seq(|s|, i requires 0 <= i < |s| => if s[i] == 0 then 63 else s[i])
  }

  lemma CleanIsSame(s: seq<Byte>)
    ensures Clean(s) == s <==> 0 !in s
  {
    if 0 !in s { assert forall i :: 0 <= i < |s| ==> s[i] in s; }
  }

  function StringBytes(s: seq<Byte>): seq<Byte> {
    Clean(s) + [0]
  }

  method PackString(out: seq<Byte>, s: seq<Byte>) returns (out': seq<Byte>)
    ensures out' == out + StringBytes(s)
    ensures forall i :: 0 <= i < |s| ==> out'[|out| + i] == if s[i] == 0 then 63 else s[i]
  {
    out' := out;
    for i := 0 to |s|
      invariant out' == out + Clean(s)[..i]
    {
      var c := s[i];
      if c == 0 {
        c := 63;
      }
      out' := out' + [c];
    }
    out' := out' + [0];
  }

  method UnpackString(it: seq<Byte>) returns (s: seq<Byte>, it': seq<Byte>)
    requires 0 in it
    ensures 0 !in s && it == s + [0] + it'
  {
    s, it' := [], it;
    while it'[0] != 0
      invariant 0 !in s && 0 in it' && it == s + it'
      decreases |it'|
    {
      s := s + [it'[0]];
      it' := it'[1..];
    }
    it' := it'[1..];
  }

  lemma NoNulBefore(b: seq<Byte>, y: seq<Byte>)
    requires 0 !in b
    ensures (b + [0] + y)[|b|] == 0 && forall k :: 0 <= k < |b| ==> (b + [0] + y)[k] != 0
  {
    forall k | 0 <= k < |b|
      ensures (b + [0] + y)[k] != 0
    {
      assert (b + [0] + y)[k] == b[k] && b[k] in b;
    }
  }

  /** A string ends at the first NUL. */
  lemma FirstNul(a: seq<Byte>, x: seq<Byte>, b: seq<Byte>, y: seq<Byte>)
    requires 0 !in a && 0 !in b && a + [0] + x == b + [0] + y
    ensures a == b && x == y
  {
    NoNulBefore(a, x);
    NoNulBefore(b, y);
    var s := a + [0] + x;
    assert |a| == |b|;
    assert a == s[..|a|] && b == s[..|b|];
    assert x == s[|a| + 1..] && y == s[|b| + 1..];
  }
}

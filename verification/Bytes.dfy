/**
 Bytes, little-endian numbers, and the order of byte strings.
 */
module Bytes {

  type byte = b: int | 0 <= b < 256

  /** `n` without its lowest `i` bytes. */
  function Shift(n: nat, i: nat): nat {
    if i == 0 then n else Shift(n / 256, i - 1)
  }

  /** `k` bytes, lowest first; higher bits of `n` are dropped, as a conversion to a narrower word does. */
  function ToBytes(n: nat, k: nat): (s: seq<byte>)
    ensures |s| == k
  {
    seq(k, i requires 0 <= i < k => Shift(n, i) % 256)
  }

  function ValueFrom(s: seq<byte>, i: nat): nat
    requires i <= |s|
    decreases |s| - i
  {
    if i == |s| then 0 else s[i] + 256 * ValueFrom(s, i + 1)
  }

  function FromBytes(s: seq<byte>): nat {
    ValueFrom(s, 0)
  }

  function Pow256(k: nat): (p: nat)
    ensures p >= 1
  {
    if k == 0 then 1 else 256 * Pow256(k - 1)
  }

  const U16: nat := 0x1_0000
  const U32: nat := 0x1_0000_0000
  const U64: nat := 0x1_0000_0000_0000_0000

  lemma {:induction false} ShiftStep(n: nat, i: nat)
    ensures Shift(n, i + 1) == Shift(n, i) / 256
    decreases i
  {
    if i > 0 {
      ShiftStep(n / 256, i - 1);
    }
  }

  lemma {:induction false} ShiftOut(n: nat, k: nat)
    requires n < Pow256(k)
    ensures Shift(n, k) == 0
    decreases k
  {
    if k > 0 {
      ShiftOut(n / 256, k - 1);
    }
  }

  lemma {:induction false} ValueOfBytes(n: nat, k: nat, i: nat)
    requires i <= k && n < Pow256(k)
    ensures ValueFrom(ToBytes(n, k), i) == Shift(n, i)
    decreases k - i
  {
    if i == k {
      ShiftOut(n, k);
    } else {
      ValueOfBytes(n, k, i + 1);
      ShiftStep(n, i);
    }
  }

  /** A number that fits its field is read back as written. */
  lemma RoundTrip(n: nat, k: nat)
    requires n < Pow256(k)
    ensures FromBytes(ToBytes(n, k)) == n
  {
    ValueOfBytes(n, k, 0);
  }

  lemma Words()
    ensures Pow256(2) == U16 && Pow256(4) == U32 && Pow256(8) == U64
  {
    assert Pow256(2) == 256 * Pow256(1) == 256 * (256 * Pow256(0));
    assert Pow256(4) == 256 * Pow256(3) == 256 * (256 * Pow256(2));
    assert Pow256(6) == 256 * Pow256(5) == 256 * (256 * Pow256(4));
    assert Pow256(8) == 256 * Pow256(7) == 256 * (256 * Pow256(6));
  }

  lemma RoundTrip16(n: nat)
    requires n < U16
    ensures FromBytes(ToBytes(n, 2)) == n
  {
    Words();
    RoundTrip(n, 2);
  }

  lemma RoundTrip32(n: nat)
    requires n < U32
    ensures FromBytes(ToBytes(n, 4)) == n
  {
    Words();
    RoundTrip(n, 4);
  }

  lemma RoundTrip64(n: nat)
    requires n < U64
    ensures FromBytes(ToBytes(n, 8)) == n
  {
    Words();
    RoundTrip(n, 8);
  }

  lemma {:induction false} ValueBound(s: seq<byte>, i: nat)
    requires i <= |s|
    ensures ValueFrom(s, i) < Pow256(|s| - i)
    decreases |s| - i
  {
    if i < |s| {
      ValueBound(s, i + 1);
    }
  }

  /** A field of `k` bytes never holds more than it can. */
  lemma FieldBound(s: seq<byte>)
    ensures FromBytes(s) < Pow256(|s|)
  {
    ValueBound(s, 0);
  }

  lemma {:induction false} ShiftOfValue(s: seq<byte>, i: nat)
    requires i <= |s|
    ensures Shift(FromBytes(s), i) == ValueFrom(s, i)
    decreases i
  {
    if i > 0 {
      ShiftOfValue(s, i - 1);
      ShiftStep(FromBytes(s), i - 1);
      assert ValueFrom(s, i - 1) == s[i - 1] + 256 * ValueFrom(s, i);
    }
  }

  /** And the bytes of a field are those of its value. */
  lemma {:induction false} BytesBack(s: seq<byte>)
    ensures ToBytes(FromBytes(s), |s|) == s
  {
    forall i | 0 <= i < |s|
      ensures ToBytes(FromBytes(s), |s|)[i] == s[i]
    {
      ShiftOfValue(s, i);
      assert ValueFrom(s, i) == s[i] + 256 * ValueFrom(s, i + 1);
    }
  }

  // ---- readers of fixed width, byte by byte ----

  function Le16(s: seq<byte>): (n: nat)
    requires |s| == 2
    ensures n == FromBytes(s)
  {
    FourMore(s, 0);
    s[0] as int + s[1] as int * 0x100
  }

  function Le32(s: seq<byte>): (n: nat)
    requires |s| == 4
    ensures n == FromBytes(s)
  {
    FourMore(s, 0);
    s[0] as int + s[1] as int * 0x100 + s[2] as int * 0x1_0000 + s[3] as int * 0x100_0000
  }

  function Le64(s: seq<byte>): (n: nat)
    requires |s| == 8
    ensures n == FromBytes(s)
  {
    FourMore(s, 0);
    FourMore(s, 4);
    s[0] as int + s[1] as int * 0x100 + s[2] as int * 0x1_0000 + s[3] as int * 0x100_0000
    + s[4] as int * 0x1_0000_0000 + s[5] as int * 0x100_0000_0000
    + s[6] as int * 0x1_0000_0000_0000 + s[7] as int * 0x100_0000_0000_0000
  }

  lemma FourMore(s: seq<byte>, i: nat)
    requires i + 2 <= |s|
    ensures ValueFrom(s, i) == s[i] + 0x100 * s[i + 1] + 0x1_0000 * ValueFrom(s, i + 2)
    ensures i + 4 <= |s| ==>
      ValueFrom(s, i)
        == s[i] + 0x100 * s[i + 1] + 0x1_0000 * s[i + 2] + 0x100_0000 * s[i + 3] + U32 * ValueFrom(s, i + 4)
  {
    assert ValueFrom(s, i + 1) == s[i + 1] + 256 * ValueFrom(s, i + 2);
    if i + 4 <= |s| {
      assert ValueFrom(s, i + 2) == s[i + 2] + 256 * ValueFrom(s, i + 3);
      assert ValueFrom(s, i + 3) == s[i + 3] + 256 * ValueFrom(s, i + 4);
    }
  }

  // ---- the order of keys ----

  /** Byte-wise order, a proper prefix first. */
  predicate Less(a: seq<byte>, b: seq<byte>) {
    if b == [] then false
    else if a == [] then true
    else a[0] < b[0] || (a[0] == b[0] && Less(a[1..], b[1..]))
  }

  lemma {:induction false} LessIrreflexive(a: seq<byte>)
    ensures !Less(a, a)
    decreases |a|
  {
    if a != [] {
      LessIrreflexive(a[1..]);
    }
  }

  lemma {:induction false} LessTransitive(a: seq<byte>, b: seq<byte>, c: seq<byte>)
    requires Less(a, b) && Less(b, c)
    ensures Less(a, c)
    decreases |a|
  {
    if a != [] {
      if a[0] == b[0] == c[0] {
        LessTransitive(a[1..], b[1..], c[1..]);
      }
    }
  }

  lemma {:induction false} LessTotal(a: seq<byte>, b: seq<byte>)
    ensures Less(a, b) || a == b || Less(b, a)
    decreases |a|
  {
    if a != [] && b != [] {
      LessTotal(a[1..], b[1..]);
      assert a == [a[0]] + a[1..] && b == [b[0]] + b[1..];
    }
  }

  lemma LessAsymmetric(a: seq<byte>, b: seq<byte>)
    requires Less(a, b)
    ensures !Less(b, a) && a != b
  {
    LessIrreflexive(a);
    if Less(b, a) {
      LessTransitive(a, b, a);
      assert false;
    }
  }
}

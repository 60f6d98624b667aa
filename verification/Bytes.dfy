/** Bytes, little-endian integers and bitwise operations on Python's unbounded integers. */
module Bytes {
  type byte = b: int | 0 <= b < 256
  type Octets = seq<byte>
  type Bits = seq<bool>

  datatype Option<+T> = None | Some(value: T)
  /** A value, or an exception of any kind. */
  datatype Result<+T> = Ok(value: T) | Raised

  // ----------------------------------------------------------- little endian

  function Pow256(n: nat): (p: nat)
    ensures p > 0
  {
    if n == 0 then 1 else 256 * Pow256(n - 1)
  }

  /** The low `n` bytes of `v`, least significant first. */
  function LittleEndian(v: nat, n: nat): (s: Octets)
    ensures |s| == n
    decreases n, v
  {
    if n == 0 then [] else [v % 256] + LittleEndian(v / 256, n - 1)
  }

  function FromLittleEndian(s: Octets): (v: nat)
    ensures v < Pow256(|s|)
  {
    if s == [] then 0 else s[0] + 256 * FromLittleEndian(s[1..])
  }

  /** Reading back what was written keeps the value below the field's width. */
  lemma {:induction false} LittleEndianRoundTrip(v: nat, n: nat)
    requires v < Pow256(n)
    ensures FromLittleEndian(LittleEndian(v, n)) == v
    decreases n
  {
    if n > 0 {
      LittleEndianRoundTrip(v / 256, n - 1);
      assert LittleEndian(v, n)[1..] == LittleEndian(v / 256, n - 1);
    }
  }

  lemma LowDigit(digit: byte, rest: nat)
    ensures (digit + 256 * rest) % 256 == digit && (digit + 256 * rest) / 256 == rest
  {}

  lemma {:induction false} FromLittleEndianRoundTrip(t: Octets)
    ensures LittleEndian(FromLittleEndian(t), |t|) == t
  {
    if t != [] {
      var rest := FromLittleEndian(t[1..]);
      var v := FromLittleEndian(t);
      LowDigit(t[0], rest);
      FromLittleEndianRoundTrip(t[1..]);
      assert LittleEndian(v, |t|) == [t[0]] + LittleEndian(rest, |t| - 1) == [t[0]] + t[1..];
    }
  }

  // -------------------------------------------------------------- bitwise xor

  /** `a ^ b` */
  function Xor(a: nat, b: nat): nat
    decreases a + b
  {
    if a == 0 && b == 0 then 0
    else (if a % 2 == b % 2 then 0 else 1) + 2 * Xor(a / 2, b / 2)
  }

  /** The low `n` bits of `v`, least significant first. */
  function LowBits(v: nat, n: nat): (bits: Bits)
    ensures |bits| == n
    decreases n, v
  {
    if n == 0 then [] else [v % 2 == 1] + LowBits(v / 2, n - 1)
  }

  function Pow2(n: nat): (p: nat)
    ensures p > 0
  {
    if n == 0 then 1 else 2 * Pow2(n - 1)
  }

  function FromBits(bits: Bits): (v: nat)
    ensures v < Pow2(|bits|)
  {
    if bits == [] then 0 else (if bits[0] then 1 else 0) + 2 * FromBits(bits[1..])
  }

  function XorBits(a: Bits, b: Bits): (c: Bits)
    requires |a| == |b|
    ensures |c| == |a| && forall i :: 0 <= i < |a| ==> c[i] == (a[i] != b[i])
  {
    seq(|a|, i requires 0 <= i < |a| => a[i] != b[i])
  }

  lemma {:induction false} FromLowBits(v: nat, n: nat)
    requires v < Pow2(n)
    ensures FromBits(LowBits(v, n)) == v
    decreases n
  {
    if n > 0 {
      FromLowBits(v / 2, n - 1);
      assert LowBits(v, n)[1..] == LowBits(v / 2, n - 1);
    }
  }

  lemma {:induction false} LowFromBits(bits: Bits)
    ensures LowBits(FromBits(bits), |bits|) == bits
  {
    if bits != [] {
      LowFromBits(bits[1..]);
    }
  }

  lemma {:induction false} XorIsBitwise(a: nat, b: nat, n: nat)
    ensures LowBits(Xor(a, b), n) == XorBits(LowBits(a, n), LowBits(b, n))
    ensures a < Pow2(n) && b < Pow2(n) ==> Xor(a, b) < Pow2(n)
    decreases n
  {
    if n > 0 {
      XorIsBitwise(a / 2, b / 2, n - 1);
    }
  }

  lemma {:induction false} XorCancels(a: nat, b: nat)
    ensures Xor(Xor(a, b), b) == a
    decreases a + b
  {
    if a != 0 || b != 0 {
      XorCancels(a / 2, b / 2);
    }
  }
}

/** CRC32C framing of the datagrams exchanged with the client: `crc32c` and
    `without_crc` of the UDP fixture, and the sealing done by the peers.
    Polynomial: section 12.1 of RFC 3720, in reflected form.

    The theory is written over bits, least significant first, which is the order
    the register consumes them in; `Crc` ties the integer arithmetic to it. */
module Crc32c {
  import opened Bytes

  /** Register and checksum: bit i of the 32-bit value at index i. */
  type Register = r: Bits | |r| == 32 witness Fill(32, false)

  const POLYNOMIAL: nat := 0x82F6_3B78
  const MASK: nat := 0xFFFF_FFFF

  function Fill(n: nat, bit: bool): (bits: Bits)
    ensures |bits| == n && forall i :: 0 <= i < n ==> bits[i] == bit
  {
    seq(n, _ => bit)
  }

  // ---------------------------------------------------------------- register

  const ONES: Register := Fill(32, true)
  const ZERO: Register := Fill(32, false)
  /** Bit i of the polynomial. */
  predicate Tap(i: nat) {
    POLYNOMIAL / Pow2(i) % 2 == 1
  }

  /** The polynomial of section 12.1 of RFC 3720, reflected: bit 31 - e is set for each exponent. */
  lemma PolynomialExponents(e: nat)
    requires e < 32
    ensures Tap(31 - e) <==> e in {28, 27, 26, 25, 23, 22, 20, 19, 18, 14, 13, 11, 10, 9, 8, 6, 0}
  {
    hide Tap, LowBits;
    TapIsBit(31 - e);
    PolynomialBits();
  }

  lemma TapIsBit(i: nat)
    requires i < 32
    ensures Tap(i) == LowBits(POLYNOMIAL, 32)[i]
  {
    hide LowBits, Pow2;
    BitAt(POLYNOMIAL, 32, i);
  }

  lemma FourOctets(v: nat)
    ensures LowBits(v, 32)
         == LowBits(v % 256, 8) + (LowBits(v / 256 % 256, 8)
            + (LowBits(v / 256 / 256 % 256, 8) + LowBits(v / 256 / 256 / 256, 8)))
  {
    hide LowBits;
    OctetSplit(v, 24);
    OctetSplit(v / 256, 16);
    OctetSplit(v / 256 / 256, 8);
  }

  lemma EightBits(o: nat)
    ensures LowBits(o, 8)
         == [o % 2 == 1, o / 2 % 2 == 1, o / 4 % 2 == 1, o / 8 % 2 == 1,
             o / 16 % 2 == 1, o / 32 % 2 == 1, o / 64 % 2 == 1, o / 128 % 2 == 1]
  {
    assert Pow2(0) == 1 && Pow2(1) == 2 && Pow2(2) == 4 && Pow2(3) == 8;
    assert Pow2(4) == 16 && Pow2(5) == 32 && Pow2(6) == 64 && Pow2(7) == 128;
    hide LowBits, Pow2;
    forall i | 0 <= i < 8
      ensures LowBits(o, 8)[i] == (o / Pow2(i) % 2 == 1)
    {
      BitAt(o, 8, i);
    }
    var bits := LowBits(o, 8);
    assert bits == [bits[0], bits[1], bits[2], bits[3], bits[4], bits[5], bits[6], bits[7]];
  }

  lemma PolynomialBits()
    ensures LowBits(POLYNOMIAL, 32)
         == [false, false, false, true, true, true, true, false]
            + ([true, true, false, true, true, true, false, false]
            + ([false, true, true, false, true, true, true, true]
            + [false, true, false, false, false, false, false, true]))
  {
    hide LowBits;
    FourOctets(POLYNOMIAL);
    EightBits(0x78);
    EightBits(0x3B);
    EightBits(0xF6);
    EightBits(0x82);
  }

  /** One step `(value >> 1) ^ (polynomial if value & 1 else 0)`. */
  function Shift(r: Register): Register {
    seq(32, i requires 0 <= i < 32 => (i < 31 && r[i + 1]) != (r[0] && Tap(i)))
  }

  function ShiftTimes(r: Register, n: nat): Register
    decreases n, r
  {
    if n == 0 then r else ShiftTimes(Shift(r), n - 1)
  }

  /** The register after consuming `bits` one by one. */
  function Run(r: Register, bits: Bits): Register
    decreases |bits|
  {
    if bits == [] then r else Run(Shift(r[0 := r[0] != bits[0]]), bits[1..])
  }

  /** All bits of a datagram in wire order. */
  function BitsOf(data: Octets): (bits: Bits)
    ensures |bits| == 8 * |data|
  {
    if data == [] then [] else BitsOf(data[..|data| - 1]) + LowBits(data[|data| - 1], 8)
  }

  /** Bit `i` of a byte string is bit `i % 8` of byte `i / 8`. */
  lemma {:induction false} BitsOfAt(data: Octets, i: nat)
    requires i < 8 * |data|
    ensures BitsOf(data)[i] == (data[i / 8] / Pow2(i % 8) % 2 == 1)
    decreases |data|
  {
    var n := |data| - 1;
    assert BitsOf(data) == BitsOf(data[..n]) + LowBits(data[n], 8);
    hide BitsOf, LowBits, Pow2;
    if i < 8 * n {
      BitsOfAt(data[..n], i);
      assert data[..n][i / 8] == data[i / 8];
    } else {
      BitAt(data[n], 8, i - 8 * n);
    }
  }

  function Checksum(data: Octets): Register {
    XorBits(Run(ONES, BitsOf(data)), ONES)
  }

  method Crc(data: Octets) returns (value: nat)
    ensures LowBits(value, 32) == Checksum(data) && value < Pow2(32)
  {
    value := MASK;
    MaskBits();
    for i := 0 to |data|
      invariant value < Pow2(32)
      invariant LowBits(value, 32) == Run(ONES, BitsOf(data[..i]))
    {
      StartOctet(value, data, i);
      value := Xor(value, data[i]);
      ghost var target := Run(ONES, BitsOf(data[..i + 1]));
      for bit := 0 to 8
        invariant value < Pow2(32)
        invariant ShiftTimes(LowBits(value, 32), 8 - bit) == target
      {
        StepOnce(value, 8 - bit);
        value := Xor(value / 2, if value % 2 == 1 then POLYNOMIAL else 0);
      }
    }
    assert data[..|data|] == data;
    Complement(value);
    value := Xor(value, MASK);
  }

  // ---------------------------------------------- integer arithmetic as bits

  lemma WordWidth()
    ensures Pow2(8) == 256 && Pow2(32) == 0x1_0000_0000 == Pow256(4)
  {
    assert Pow2(8) == 256;
    assert Pow2(12) == 0x1000;
    assert Pow2(16) == 0x1_0000;
    assert Pow2(20) == 0x10_0000;
    assert Pow2(24) == 0x100_0000;
    assert Pow2(28) == 0x1000_0000;
  }

  lemma MaskBits()
    ensures LowBits(MASK, 32) == ONES && MASK < Pow2(32)
  {
    WordWidth();
    AllOnes(32);
  }

  lemma {:induction false} BitAt(v: nat, n: nat, i: nat)
    requires i < n
    ensures LowBits(v, n)[i] == (v / Pow2(i) % 2 == 1)
    decreases i
  {
    if i > 0 {
      BitAt(v / 2, n - 1, i - 1);
      DivideTwice(v, Pow2(i - 1));
    }
  }

  lemma DivideTwice(v: nat, d: nat)
    requires d > 0
    ensures v / 2 / d == v / (2 * d)
  {
    var q := v / 2 / d;
    var t := d * q;
    assert t <= v / 2 < t + d;
    assert 2 * d * q == 2 * t && 2 * d * (q + 1) == 2 * t + 2 * d;
    QuotientUnique(v, 2 * d, q);
  }

  lemma QuotientUnique(v: nat, d: nat, q: nat)
    requires d > 0 && d * q <= v < d * (q + 1)
    ensures v / d == q
  {
    Monotone(d, v / d + 1, q);
    Monotone(d, q + 1, v / d);
  }

  lemma Monotone(d: nat, a: nat, b: nat)
    ensures a <= b ==> d * a <= d * b
  {}

  lemma TopTap()
    ensures Tap(31) && POLYNOMIAL < Pow2(32)
  {
    WordWidth();
    assert Pow2(31) == 0x8000_0000;
  }

  lemma {:induction false} JoinBits(low: nat, m: nat, high: nat, n: nat)
    requires low < Pow2(m)
    ensures LowBits(low + Pow2(m) * high, m + n) == LowBits(low, m) + LowBits(high, n)
    decreases m
  {
    if m > 0 {
      var rest := Pow2(m - 1) * high;
      assert Pow2(m) * high == 2 * rest;
      assert (low + 2 * rest) / 2 == low / 2 + rest;
      JoinBits(low / 2, m - 1, high, n);
    }
  }

  lemma Complement(v: nat)
    requires v < Pow2(32)
    ensures Xor(v, MASK) < Pow2(32) && LowBits(Xor(v, MASK), 32) == XorBits(LowBits(v, 32), ONES)
  {
    MaskBits();
    XorIsBitwise(v, MASK, 32);
  }

  lemma {:induction false} AllOnes(n: nat)
    ensures LowBits(Pow2(n) - 1, n) == Fill(n, true)
  {
    if n > 0 {
      AllOnes(n - 1);
    }
  }

  lemma {:induction false} HighBitsClear(v: nat, n: nat, m: nat)
    requires v < Pow2(n)
    ensures LowBits(v, n + m) == LowBits(v, n) + Fill(m, false)
    decreases n + m
  {
    if n > 0 {
      HighBitsClear(v / 2, n - 1, m);
    } else if m > 0 {
      HighBitsClear(0, 0, m - 1);
    }
  }

  lemma HalfBits(v: nat)
    requires v < Pow2(32)
    ensures v / 2 < Pow2(32) && LowBits(v / 2, 32) == LowBits(v, 32)[1..] + [false]
  {
    HighBitsClear(v / 2, 31, 1);
    assert LowBits(v, 32) == [v % 2 == 1] + LowBits(v / 2, 31);
    assert LowBits(0, 1) == [false];
  }

  lemma TapBits(q: nat, odd: bool)
    requires q == if odd then POLYNOMIAL else 0
    ensures q < Pow2(32) && forall i :: 0 <= i < 32 ==> LowBits(q, 32)[i] == (odd && Tap(i))
  {
    TopTap();
    forall i | 0 <= i < 32
      ensures LowBits(q, 32)[i] == (odd && Tap(i))
    {
      BitAt(q, 32, i);
    }
  }

  lemma WordShift(v: nat, q: nat)
    requires v < Pow2(32) && q == if v % 2 == 1 then POLYNOMIAL else 0
    ensures Xor(v / 2, q) < Pow2(32) && LowBits(Xor(v / 2, q), 32) == Shift(LowBits(v, 32))
  {
    var r := LowBits(v, 32);
    assert r[0] == (v % 2 == 1);
    HalfBits(v);
    TapBits(q, r[0]);
    XorIsBitwise(v / 2, q, 32);
  }

  lemma StepOnce(v: nat, n: nat)
    requires v < Pow2(32) && n > 0
    ensures var w := Xor(v / 2, if v % 2 == 1 then POLYNOMIAL else 0);
            w < Pow2(32) && ShiftTimes(LowBits(w, 32), n - 1) == ShiftTimes(LowBits(v, 32), n)
  {
    WordShift(v, if v % 2 == 1 then POLYNOMIAL else 0);
  }

  lemma StartOctet(v: nat, data: Octets, i: nat)
    requires i < |data| && v < Pow2(32) && LowBits(v, 32) == Run(ONES, BitsOf(data[..i]))
    ensures Xor(v, data[i]) < Pow2(32)
    ensures ShiftTimes(LowBits(Xor(v, data[i]), 32), 8) == Run(ONES, BitsOf(data[..i + 1]))
  {
    hide LowBits, Run, ShiftTimes, BitsOf, Xor;
    XorOctet(v, data[i]);
    RunOctet(ONES, data[..i], data[i]);
    assert data[..i] + [data[i]] == data[..i + 1];
  }

  lemma XorOctet(v: nat, o: byte)
    requires v < Pow2(32)
    ensures Xor(v, o) < Pow2(32)
    ensures ShiftTimes(LowBits(Xor(v, o), 32), 8) == Run(LowBits(v, 32), LowBits(o, 8))
  {
    WordWidth();
    HighBitsClear(o, 8, 24);
    XorIsBitwise(v, o, 32);
    FeedBits(LowBits(v, 32), LowBits(o, 8));
  }

  // ------------------------------------------------------------- register laws

  lemma {:induction false} RunConcat(r: Register, a: Bits, b: Bits)
    ensures Run(r, a + b) == Run(Run(r, a), b)
    decreases |a|
  {
    if a == [] {
      assert a + b == b;
    } else {
      assert (a + b)[1..] == a[1..] + b;
      RunConcat(Shift(r[0 := r[0] != a[0]]), a[1..], b);
    }
  }

  /** Consuming up to 32 bits one by one is adding them at once and shifting them out. */
  lemma {:induction false} FeedBits(r: Register, bits: Bits)
    requires |bits| <= 32
    ensures Run(r, bits) == ShiftTimes(XorBits(r, bits + Fill(32 - |bits|, false)), |bits|)
    decreases |bits|
  {
    var padded := bits + Fill(32 - |bits|, false);
    if bits == [] {
      assert XorBits(r, padded) == r;
    } else {
      var next := Shift(r[0 := r[0] != bits[0]]);
      var rest := bits[1..] + Fill(32 - |bits[1..]|, false);
      FeedBits(next, bits[1..]);
      assert Shift(XorBits(r, padded)) == XorBits(next, rest);
    }
  }

  lemma RunOctet(r: Register, data: Octets, o: byte)
    ensures Run(r, BitsOf(data + [o])) == Run(Run(r, BitsOf(data)), LowBits(o, 8))
  {
    assert (data + [o])[..|data|] == data;
    RunConcat(r, BitsOf(data), LowBits(o, 8));
  }

  lemma FeedWord(r: Register, word: Register)
    ensures Run(r, word) == ShiftTimes(XorBits(r, word), 32)
  {
    FeedBits(r, word);
    assert word + Fill(0, false) == word;
  }

  /** A check value that fixes the start of the register and the final complement: four octets 255
      have the checksum 0xFFFFFFFF. */
  lemma FourOnes(data: Octets)
    requires |data| == 4 && forall i :: 0 <= i < 4 ==> data[i] == 255
    ensures Checksum(data) == ONES && FromBits(Checksum(data)) == MASK
  {
    hide LowBits, ShiftTimes, Shift, Run, BitsOf, FromBits;
    OnesBits(data);
    FeedWord(ONES, ONES);
    assert XorBits(ONES, ONES) == ZERO && XorBits(ZERO, ONES) == ONES;
    ShiftTimesKeepsNonzero(ZERO, 32);
    MaskBits();
    FromLowBits(MASK, 32);
  }

  lemma {:induction false} OnesBits(data: Octets)
    requires forall i :: 0 <= i < |data| ==> data[i] == 255
    ensures BitsOf(data) == Fill(8 * |data|, true)
    decreases |data|
  {
    hide LowBits;
    if data != [] {
      OnesBits(data[..|data| - 1]);
      OnesOctet();
    }
  }

  lemma OnesOctet()
    ensures LowBits(255, 8) == Fill(8, true)
  {
    hide LowBits;
    EightBits(255);
  }

  lemma {:induction false} RunLinear(r: Register, s: Register, a: Bits, b: Bits)
    requires |a| == |b|
    ensures Run(XorBits(r, s), XorBits(a, b)) == XorBits(Run(r, a), Run(s, b))
    decreases |a|
  {
    if a != [] {
      var x, y := r[0 := r[0] != a[0]], s[0 := s[0] != b[0]];
      var z := XorBits(r, s)[0 := XorBits(r, s)[0] != XorBits(a, b)[0]];
      assert z == XorBits(x, y);
      assert Shift(z) == XorBits(Shift(x), Shift(y));
      assert XorBits(a, b)[1..] == XorBits(a[1..], b[1..]);
      RunLinear(Shift(x), Shift(y), a[1..], b[1..]);
    }
  }

  /** The last bit of one step tells whether the polynomial was added, so no step loses a bit. */
  lemma ShiftKeepsNonzero(r: Register)
    ensures Shift(r) == ZERO <==> r == ZERO
  {
    TopTap();
    if Shift(r) == ZERO {
      ShiftLosesNothing(r, Shift(r));
    }
    if r == ZERO {
      assert forall i :: 0 <= i < 32 ==> !Shift(r)[i];
    }
  }

  lemma ShiftLosesNothing(r: Register, s: Register)
    requires Tap(31) && s == Shift(r) && forall i :: 0 <= i < 32 ==> !s[i]
    ensures r == ZERO
  {
    assert s[31] == r[0];
    forall i | 0 <= i < 32
      ensures !r[i]
    {
      assert i == 0 || s[i - 1] == r[i];
    }
  }

  lemma {:induction false} ShiftTimesKeepsNonzero(r: Register, n: nat)
    ensures ShiftTimes(r, n) == ZERO <==> r == ZERO
    decreases n
  {
    if n > 0 {
      ShiftKeepsNonzero(r);
      ShiftTimesKeepsNonzero(Shift(r), n - 1);
    }
  }

  /** Clear bits neither set a cleared register nor clear a set one. */
  lemma {:induction false} QuietBits(r: Register, bits: Bits)
    requires forall i :: 0 <= i < |bits| ==> !bits[i]
    ensures Run(r, bits) == ZERO <==> r == ZERO
    decreases |bits|
  {
    if bits != [] {
      assert r[0 := r[0] != bits[0]] == r;
      ShiftKeepsNonzero(r);
      QuietBits(Shift(r), bits[1..]);
    }
  }

  // ----------------------------------------------------- sealing and stripping

  /** `struct.pack("<I", checksum)` */
  function Trailer(sum: Register): Octets {
    LittleEndian(FromBits(sum), 4)
  }

  /** `raw[0] & 128` */
  predicate Flagged(octet: byte) {
    octet >= 128
  }

  /** `raw[0] | 128` */
  function SetFlag(octet: byte): byte {
    if octet >= 128 then octet else octet + 128
  }

  /** `without_crc`. An empty datagram and a flagged one shorter than the trailer
      raise as well: the index and the unpacking fail. */
  function WithoutCrc(raw: Octets): Result<Octets> {
    if raw == [] then Raised
    else if !Flagged(raw[0]) then Ok(raw)
    else if |raw| < 4 then Raised
    else
      var n := |raw| - 4;
      if BitsOf(raw[n..]) == Checksum(raw[..n]) then Ok(raw[..n]) else Raised
  }

  method StripCrc(raw: Octets) returns (r: Result<Octets>)
    ensures r == WithoutCrc(raw)
  {
    if raw == [] {
      return Raised;
    }
    if !Flagged(raw[0]) {
      return Ok(raw);
    }
    if |raw| < 4 {
      return Raised;
    }
    var n := |raw| - 4;
    var sum := Crc(raw[..n]);
    TrailerValue(raw[n..], sum);
    r := if FromLittleEndian(raw[n..]) == sum then Ok(raw[..n]) else Raised;
  }

  /** What `Peer.send` puts on the wire. */
  function Seal(raw: Octets, crc: bool): Octets
    requires raw != []
  {
    if crc && raw[0] != 2 then
      var flagged := raw[0 := SetFlag(raw[0])];
      flagged + Trailer(Checksum(flagged))
    else raw
  }

  method SealDatagram(raw: Octets, crc: bool) returns (wire: Octets)
    requires raw != []
    ensures wire == Seal(raw, crc)
  {
    wire := raw;
    if crc && wire[0] != 2 {
      wire := wire[0 := SetFlag(wire[0])];
      var sum := Crc(wire);
      FromLowBits(sum, 32);
      wire := wire + LittleEndian(sum, 4);
    }
  }

  lemma {:induction false} BitsConcat(a: Octets, b: Octets)
    ensures BitsOf(a + b) == BitsOf(a) + BitsOf(b)
    decreases |b|
  {
    if b == [] {
      assert a + b == a;
    } else {
      assert (a + b)[..|a + b| - 1] == a + b[..|b| - 1];
      BitsConcat(a, b[..|b| - 1]);
    }
  }

  lemma OctetSplit(v: nat, n: nat)
    ensures LowBits(v, 8 + n) == LowBits(v % 256, 8) + LowBits(v / 256, n)
  {
    WordWidth();
    JoinBits(v % 256, 8, v / 256, n);
  }

  lemma {:induction false} LittleEndianBits(v: nat, n: nat)
    ensures BitsOf(LittleEndian(v, n)) == LowBits(v, 8 * n)
    decreases n
  {
    if n > 0 {
      OctetSplit(v, 8 * (n - 1));
      BitsConcat([v % 256], LittleEndian(v / 256, n - 1));
      assert BitsOf([v % 256]) == LowBits(v % 256, 8);
      LittleEndianBits(v / 256, n - 1);
    }
  }

  lemma TrailerBits(sum: Register)
    ensures BitsOf(Trailer(sum)) == sum
  {
    LittleEndianBits(FromBits(sum), 4);
    LowFromBits(sum);
  }

  /** Comparing the unpacked trailer as an integer is comparing its bits. */
  lemma TrailerValue(t: Octets, sum: nat)
    requires |t| == 4 && sum < Pow2(32)
    ensures FromLittleEndian(t) == sum <==> BitsOf(t) == LowBits(sum, 32)
  {
    var v := FromLittleEndian(t);
    FromLittleEndianRoundTrip(t);
    LittleEndianBits(v, 4);
    WordWidth();
    FromLowBits(v, 32);
    FromLowBits(sum, 32);
  }

  /** Stripping what was sealed returns the input with only the top bit of octet 0 changed;
      what is sent unsealed comes back as it is. */
  lemma StripSealed(raw: Octets, crc: bool)
    requires raw != []
    ensures crc && raw[0] != 2 ==> WithoutCrc(Seal(raw, crc)) == Ok(raw[0 := SetFlag(raw[0])])
    ensures !(crc && raw[0] != 2) && !Flagged(raw[0]) ==> WithoutCrc(Seal(raw, crc)) == Ok(raw)
  {
    if crc && raw[0] != 2 {
      var flagged := raw[0 := SetFlag(raw[0])];
      TrailerBits(Checksum(flagged));
      var wire := flagged + Trailer(Checksum(flagged));
      assert wire[..|wire| - 4] == flagged && wire[|wire| - 4..] == Trailer(Checksum(flagged));
    }
  }

  /** A flagged datagram is accepted exactly when the register, run over all of it with the
      trailer included, ends at one fixed value. */
  lemma AcceptedIffResidue(raw: Octets)
    requires |raw| >= 4 && Flagged(raw[0])
    ensures WithoutCrc(raw).Ok? <==> Run(ONES, BitsOf(raw)) == ShiftTimes(ONES, 32)
  {
    var n := |raw| - 4;
    assert raw == raw[..n] + raw[n..];
    BitsConcat(raw[..n], raw[n..]);
    TrailerFits(ONES, BitsOf(raw[..n]), BitsOf(raw[n..]), ONES);
  }

  lemma TrailerFits(initial: Register, body: Bits, trailer: Register, last: Register)
    ensures Run(initial, body + trailer) == ShiftTimes(last, 32) <==> trailer == XorBits(Run(initial, body), last)
  {
    var r := Run(initial, body);
    RunConcat(initial, body, trailer);
    FeedWord(r, trailer);
    ShiftDistinguishes(XorBits(r, trailer), last, 32);
    XorMoves(r, trailer, last);
  }

  lemma XorMoves(a: Bits, b: Bits, c: Bits)
    requires |a| == |b| == |c|
    ensures XorBits(a, b) == c <==> b == XorBits(a, c)
  {
    if XorBits(a, b) == c {
      assert forall i :: 0 <= i < |a| ==> c[i] == (a[i] != b[i]);
    }
  }

  lemma {:induction false} ShiftDistinguishes(r: Register, s: Register, n: nat)
    ensures ShiftTimes(r, n) == ShiftTimes(s, n) <==> r == s
    decreases n
  {
    if n > 0 {
      var d := XorBits(r, s);
      assert Shift(d) == XorBits(Shift(r), Shift(s));
      ShiftKeepsNonzero(d);
      XorZero(r, s);
      XorZero(Shift(r), Shift(s));
      ShiftDistinguishes(Shift(r), Shift(s), n - 1);
    }
  }

  lemma XorZero(a: Bits, b: Bits)
    requires |a| == |b|
    ensures XorBits(a, b) == Fill(|a|, false) <==> a == b
  {
    if XorBits(a, b) == Fill(|a|, false) {
      assert forall i :: 0 <= i < |a| ==> !XorBits(a, b)[i];
    }
  }

  // ------------------------------------------------------------- burst errors

  /** Two datagrams that both pass differ by a code word, and every code word passes. */
  lemma ChangeAccepted(raw: Octets, other: Octets)
    requires |raw| == |other| && |raw| >= 4
    requires Flagged(raw[0]) && Flagged(other[0]) && WithoutCrc(raw).Ok?
    ensures WithoutCrc(other).Ok? <==> Run(ZERO, XorBits(BitsOf(raw), BitsOf(other))) == ZERO
  {
    AcceptedIffResidue(raw);
    AcceptedIffResidue(other);
    RunLinear(ONES, ONES, BitsOf(raw), BitsOf(other));
    assert XorBits(ONES, ONES) == ZERO;
    XorZero(Run(ONES, BitsOf(raw)), Run(ONES, BitsOf(other)));
  }

  /** A nonzero pattern whose set bits lie in 32 consecutive positions is no code word. */
  lemma BurstIsNoCodeWord(change: Bits, start: nat)
    requires exists i :: 0 <= i < |change| && change[i]
    requires forall i :: 0 <= i < |change| && change[i] ==> start <= i < start + 32
    ensures Run(ZERO, change) != ZERO
  {
    // Padding with clear bits makes room for the whole window.
    var pad := Fill(32, false);
    var lead, window, tail := SplitWindow(change + pad, change, start);
    WindowNoticed(lead, window, tail);
    RunConcat(ZERO, change, pad);
    QuietBits(Run(ZERO, change), pad);
  }

  lemma SplitWindow(padded: Bits, change: Bits, start: nat) returns (lead: Bits, window: Register, tail: Bits)
    requires |padded| == |change| + 32 && change <= padded
    requires forall i :: |change| <= i < |padded| ==> !padded[i]
    requires exists i :: 0 <= i < |change| && change[i]
    requires forall i :: 0 <= i < |change| && change[i] ==> start <= i < start + 32
    ensures padded == lead + (window + tail) && window != ZERO
    ensures forall i :: 0 <= i < |lead| ==> !lead[i]
    ensures forall i :: 0 <= i < |tail| ==> !tail[i]
  {
    var hit :| 0 <= hit < |change| && change[hit];
    lead, window, tail := padded[..start], padded[start..start + 32], padded[start + 32..];
    assert window[hit - start] == change[hit];
    assert forall i :: 0 <= i < |lead| ==> lead[i] == padded[i];
    assert forall i :: 0 <= i < |tail| ==> tail[i] == padded[start + 32 + i];
  }

  lemma WindowNoticed(lead: Bits, window: Register, tail: Bits)
    requires forall i :: 0 <= i < |lead| ==> !lead[i]
    requires forall i :: 0 <= i < |tail| ==> !tail[i]
    requires window != ZERO
    ensures Run(ZERO, lead + (window + tail)) != ZERO
  {
    QuietBits(ZERO, lead);
    RunConcat(ZERO, lead, window + tail);
    RunConcat(ZERO, window, tail);
    FeedWord(ZERO, window);
    XorMoves(ZERO, window, window);
    ShiftTimesKeepsNonzero(window, 32);
    QuietBits(Run(ZERO, window), tail);
  }

  lemma {:induction false} BitsDetermineOctets(a: Octets, b: Octets)
    requires |a| == |b| && BitsOf(a) == BitsOf(b)
    ensures a == b
    decreases |a|
  {
    if a != [] {
      var n := |a| - 1;
      assert BitsOf(a)[..8 * n] == BitsOf(a[..n]) && BitsOf(b)[..8 * n] == BitsOf(b[..n]);
      BitsDetermineOctets(a[..n], b[..n]);
      assert BitsOf(a)[8 * n..] == LowBits(a[n], 8) && BitsOf(b)[8 * n..] == LowBits(b[n], 8);
      WordWidth();
      FromLowBits(a[n], 8);
      FromLowBits(b[n], 8);
      assert a == a[..n] + [a[n]] && b == b[..n] + [b[n]];
    }
  }

  /** Every change confined to 32 consecutive bits, anywhere in body or trailer, that leaves
      the flag set turns an accepted datagram into a rejected one. */
  lemma BurstRejected(raw: Octets, other: Octets, start: nat)
    requires |raw| == |other| && |raw| >= 4 && raw != other
    requires Flagged(raw[0]) && Flagged(other[0]) && WithoutCrc(raw).Ok?
    requires forall i :: 0 <= i < 8 * |raw| && BitsOf(raw)[i] != BitsOf(other)[i] ==> start <= i < start + 32
    ensures WithoutCrc(other) == Raised
  {
    var change := XorBits(BitsOf(raw), BitsOf(other));
    if forall i :: 0 <= i < |change| ==> !change[i] {
      assert change == Fill(|change|, false);
      XorZero(BitsOf(raw), BitsOf(other));
      BitsDetermineOctets(raw, other);
      assert false;
    }
    BurstIsNoCodeWord(change, start);
    ChangeAccepted(raw, other);
  }
}

/** Sequenced authenticated CBC of the control channel: `encrypted` and `decrypted` of the
    negotiation fixture, and the padding stage of the control hand-off fixture.
    CBC: section 6.2 of NIST SP 800-38A. Padding: section 6.3 of RFC 5652.
    MAC: section 2 of RFC 2104, used as the initialisation vector. */
module AuthenticatedCbc {
  import opened Bytes

  type Block = b: Octets | |b| == 16 witness seq(16, _ => 0)

  /** The cipher and the MAC under the fixture's one key. */
  datatype Suite = Suite(encipher: Block -> Block, decipher: Block -> Block, mac: Octets -> Block)

  /** A block cipher is a bijection per key; nothing is assumed of the MAC. */
  ghost predicate Lawful(suite: Suite) {
    && (forall b: Block :: suite.decipher(suite.encipher(b)) == b)
    && (forall b: Block :: suite.encipher(suite.decipher(b)) == b)
  }

  // -------------------------------------------------------------------- CBC

  function XorBlock(a: Block, b: Block): (c: Block)
  {
    XorIsBytes();
    seq(16, i requires 0 <= i < 16 => Xor(a[i], b[i]))
  }

  lemma XorIsBytes()
    ensures forall x: byte, y: byte :: Xor(x, y) < 256
  {
    assert Pow2(8) == 256;
    forall x: byte, y: byte
      ensures Xor(x, y) < 256
    {
      XorIsBitwise(x, y, 8);
    }
  }

  lemma XorBlockCancels(a: Block, b: Block)
    ensures XorBlock(XorBlock(a, b), b) == a
  {
    forall i | 0 <= i < 16
      ensures Xor(Xor(a[i], b[i]), b[i]) == a[i]
    {
      XorCancels(a[i], b[i]);
    }
  }

  function CbcEncrypt(suite: Suite, iv: Block, plain: Octets): (c: Octets)
    requires |plain| % 16 == 0
    ensures |c| == |plain|
    decreases |plain|
  {
    if plain == [] then []
    else
      var block := suite.encipher(XorBlock(plain[..16], iv));
      block + CbcEncrypt(suite, block, plain[16..])
  }

  function CbcDecrypt(suite: Suite, iv: Block, cipher: Octets): (p: Octets)
    requires |cipher| % 16 == 0
    ensures |p| == |cipher|
    decreases |cipher|
  {
    if cipher == [] then []
    else XorBlock(suite.decipher(cipher[..16]), iv) + CbcDecrypt(suite, cipher[..16], cipher[16..])
  }

  lemma {:induction false} CbcRoundTrip(suite: Suite, iv: Block, plain: Octets)
    requires Lawful(suite) && |plain| % 16 == 0
    ensures CbcDecrypt(suite, iv, CbcEncrypt(suite, iv, plain)) == plain
    decreases |plain|
  {
    if plain != [] {
      var block := suite.encipher(XorBlock(plain[..16], iv));
      var cipher := CbcEncrypt(suite, iv, plain);
      assert cipher[..16] == block && cipher[16..] == CbcEncrypt(suite, block, plain[16..]);
      XorBlockCancels(plain[..16], iv);
      CbcRoundTrip(suite, block, plain[16..]);
      assert plain == plain[..16] + plain[16..];
    }
  }

  lemma {:induction false} CbcInverse(suite: Suite, iv: Block, cipher: Octets)
    requires Lawful(suite) && |cipher| % 16 == 0
    ensures CbcEncrypt(suite, iv, CbcDecrypt(suite, iv, cipher)) == cipher
    decreases |cipher|
  {
    if cipher != [] {
      var block: Block := cipher[..16];
      var plain := CbcDecrypt(suite, iv, cipher);
      assert plain[..16] == XorBlock(suite.decipher(block), iv);
      assert plain[16..] == CbcDecrypt(suite, block, cipher[16..]);
      XorBlockCancels(suite.decipher(block), iv);
      CbcInverse(suite, block, cipher[16..]);
      assert cipher == block + cipher[16..];
    }
  }

  // ---------------------------------------------------------------- padding

  function Repeat(value: byte, n: nat): (s: Octets)
    ensures |s| == n && forall i :: 0 <= i < n ==> s[i] == value
  {
    seq(n, _ => value)
  }

  function Pad(plain: Octets): (padded: Octets)
    ensures |padded| % 16 == 0 && |plain| < |padded| <= |plain| + 16
  {
    var pad := 16 - |plain| % 16;
    plain + Repeat(pad, pad)
  }

  /** Every octet of the padding is its length. */
  lemma PadOctets(plain: Octets)
    ensures var padded := Pad(plain);
            && padded[..|plain|] == plain
            && forall i :: |plain| <= i < |padded| ==> padded[i] == |padded| - |plain|
  {}

  function Unpad(padded: Octets): Result<Octets> {
    if padded == [] then Raised
    else
      var pad := padded[|padded| - 1];
      if 1 <= pad <= 16 && pad <= |padded| && padded[|padded| - pad..] == Repeat(pad, pad) then
        Ok(padded[..|padded| - pad])
      else Raised
  }

  /** On whole blocks, unpadding accepts exactly what padding produces. */
  lemma UnpadInvertsPad(plain: Octets, padded: Octets)
    requires |padded| % 16 == 0
    ensures Unpad(padded) == Ok(plain) <==> padded == Pad(plain)
  {
    if padded == Pad(plain) {
      var pad := 16 - |plain| % 16;
      assert padded[|padded| - 1] == pad;
      assert padded[|padded| - pad..] == Repeat(pad, pad);
      assert padded[..|padded| - pad] == plain;
    }
    if Unpad(padded) == Ok(plain) {
      var pad := padded[|padded| - 1];
      assert |plain| == |padded| - pad;
      assert padded == plain + Repeat(pad, pad);
      PadLength(|plain|, pad);
    }
  }

  lemma PadLength(n: nat, pad: nat)
    requires 1 <= pad <= 16 && (n + pad) % 16 == 0
    ensures pad == 16 - n % 16
  {}

  // ------------------------------------------------------- negotiation codec

  /** Values `struct.pack("<Q", sequence)` accepts. */
  type Sequence = s: nat | s < 0x1_0000_0000_0000_0000

  datatype Message = Message(sequence: Sequence, body: Octets)

  function Plain(m: Message): (plain: Octets)
    ensures |plain| == 8 + |m.body|
  {
    LittleEndian(m.sequence, 8) + m.body
  }

  /** `bytes([iv[0] ^ 1]) + iv[1:]` */
  function FlipLowBit(iv: Block): Block {
    iv[0 := if iv[0] % 2 == 0 then iv[0] + 1 else iv[0] - 1]
  }

  function Encrypted(suite: Suite, m: Message, badMac: bool): Octets {
    var tag := suite.mac(Plain(m));
    var iv := if badMac then FlipLowBit(tag) else tag;
    iv + CbcEncrypt(suite, iv, Pad(Plain(m)))
  }

  /** `decrypted`; a MAC-checked plaintext without room for the sequence raises too. */
  function Decrypted(suite: Suite, data: Octets): Result<Message> {
    if !(|data| > 16 && |data| % 16 == 0) then Raised
    else
      var iv: Block := data[..16];
      match Unpad(CbcDecrypt(suite, iv, data[16..]))
      case Raised => Raised
      case Ok(plain) =>
        if iv != suite.mac(plain) || |plain| < 8 then Raised
        else
          SequenceBound(plain[..8]);
          Ok(Message(FromLittleEndian(plain[..8]), plain[8..]))
  }

  lemma SequenceBound(s: Octets)
    requires |s| == 8
    ensures FromLittleEndian(s) < 0x1_0000_0000_0000_0000
  {
    EightBytes();
  }

  lemma EightBytes()
    ensures Pow256(8) == 0x1_0000_0000_0000_0000
  {
    assert Pow256(4) == 0x1_0000_0000;
    assert Pow256(6) == 0x1_0000_0000_0000;
  }

  lemma PlainDetermined(plain: Octets, m: Message)
    ensures plain == Plain(m)
       <==> |plain| >= 8 && FromLittleEndian(plain[..8]) == m.sequence && plain[8..] == m.body
  {
    EightBytes();
    LittleEndianRoundTrip(m.sequence, 8);
    if |plain| >= 8 {
      FromLittleEndianRoundTrip(plain[..8]);
      assert plain == plain[..8] + plain[8..];
    }
  }

  lemma UnpaddedIsDecrypted(suite: Suite, data: Octets, plain: Octets)
    requires |data| > 16 && |data| % 16 == 0 && Unpad(CbcDecrypt(suite, data[..16], data[16..])) == Ok(plain)
    requires data[..16] == suite.mac(plain) && |plain| >= 8
    ensures FromLittleEndian(plain[..8]) < 0x1_0000_0000_0000_0000
    ensures Decrypted(suite, data) == Ok(Message(FromLittleEndian(plain[..8]), plain[8..]))
  {
    hide Unpad, CbcDecrypt, FromLittleEndian;
    SequenceBound(plain[..8]);
  }

  lemma EncryptedIsDecrypted(suite: Suite, m: Message)
    requires Lawful(suite)
    ensures Decrypted(suite, Encrypted(suite, m, false)) == Ok(m)
  {
    var plain := Plain(m);
    var tag := suite.mac(plain);
    var data := Encrypted(suite, m, false);
    assert data[..16] == tag && data[16..] == CbcEncrypt(suite, tag, Pad(plain));
    hide CbcEncrypt, CbcDecrypt, Encrypted, Decrypted, Pad, Unpad, Plain, FromLittleEndian;
    CbcRoundTrip(suite, tag, Pad(plain));
    UnpadInvertsPad(plain, Pad(plain));
    UnpaddedIsDecrypted(suite, data, plain);
    PlainDetermined(plain, m);
  }

  lemma DecryptedIsEncrypted(suite: Suite, data: Octets, m: Message)
    requires Lawful(suite) && Decrypted(suite, data) == Ok(m)
    ensures data == Encrypted(suite, m, false)
  {
    var iv: Block := data[..16];
    var padded := CbcDecrypt(suite, iv, data[16..]);
    var found := Unpad(padded).value;
    PlainDetermined(found, m);
    UnpadInvertsPad(found, padded);
    CbcInverse(suite, iv, data[16..]);
    assert data == iv + data[16..];
  }

  /** The decryptor accepts exactly the encryptor's output, and gives back what went in:
      no altered, truncated or differently padded ciphertext passes for a message. */
  lemma DecryptedIffEncrypted(suite: Suite, data: Octets, m: Message)
    requires Lawful(suite)
    ensures Decrypted(suite, data) == Ok(m) <==> data == Encrypted(suite, m, false)
  {
    EncryptedIsDecrypted(suite, m);
    if Decrypted(suite, data) == Ok(m) {
      DecryptedIsEncrypted(suite, data, m);
    }
  }

  /** A flipped MAC bit is always caught, whatever the MAC function is. */
  lemma BadMacRejected(suite: Suite, m: Message)
    requires Lawful(suite)
    ensures Decrypted(suite, Encrypted(suite, m, true)) == Raised
  {
    var plain := Plain(m);
    var iv := FlipLowBit(suite.mac(plain));
    var data := Encrypted(suite, m, true);
    assert data[..16] == iv && data[16..] == CbcEncrypt(suite, iv, Pad(plain));
    CbcRoundTrip(suite, iv, Pad(plain));
    UnpadInvertsPad(plain, Pad(plain));
    assert iv[0] != suite.mac(plain)[0];
  }

  // ---------------------------------------------------------- hand-off codec

  datatype Mode = Valid | BadMac | Short

  const CLEAR_TAGS: set<byte> := {1, 2, 6, 7}

  /** `ciphertext`: a tag octet, then IV and blocks; handshake tags travel in the clear. */
  function Ciphertext(suite: Suite, tag: byte, m: Message, mode: Mode): Octets {
    if tag in CLEAR_TAGS then [tag] + m.body
    else
      var iv := suite.mac(Plain(m));
      var blocks := CbcEncrypt(suite, iv, Pad(Plain(m)));
      match mode
      case Valid => [tag] + iv + blocks
      case BadMac => [tag] + FlipLowBit(iv) + blocks
      case Short => ([tag] + iv + blocks)[..17]
  }

  /** The padding stage: the plaintext written to the caller's buffer, or 0 returned. */
  function Handoff(suite: Suite, iv: Block, cipher: Octets, capacity: nat): Option<Octets> {
    if |cipher| % 16 != 0 then None
    else
      match Unpad(CbcDecrypt(suite, iv, cipher))
      case Raised => None
      case Ok(plain) => if |plain| <= capacity then Some(plain) else None
  }

  /** What the stage is handed for each mode of an encrypted tag: the valid ciphertext comes out
      as it went in, a flipped MAC bit only flips that bit of the sequence here (the MAC
      check follows), and a ciphertext cut after the IV is refused. */
  lemma HandoffModes(suite: Suite, tag: byte, m: Message, mode: Mode, capacity: nat)
    requires Lawful(suite) && tag !in CLEAR_TAGS
    ensures var wire := Ciphertext(suite, tag, m, mode);
            && |wire| >= 17 && wire[0] == tag
            && Handoff(suite, wire[1..17], wire[17..], capacity)
               == if mode.Short? || 8 + |m.body| > capacity then None
                  else if mode.BadMac? then Some(FlipFirst(Plain(m)))
                  else Some(Plain(m))
  {
    var plain := Plain(m);
    var iv := suite.mac(plain);
    var wire := Ciphertext(suite, tag, m, mode);
    var blocks := CbcEncrypt(suite, iv, Pad(plain));
    CbcRoundTrip(suite, iv, Pad(plain));
    UnpadInvertsPad(plain, Pad(plain));
    match mode {
      case Short =>
        assert wire[17..] == [];
      case Valid =>
        assert wire[1..17] == iv && wire[17..] == blocks;
      case BadMac =>
        assert wire[1..17] == FlipLowBit(iv) && wire[17..] == blocks;
        FlippedIv(suite, iv, blocks);
        assert FlipFirst(Pad(plain)) == Pad(FlipFirst(plain));
        UnpadInvertsPad(FlipFirst(plain), Pad(FlipFirst(plain)));
    }
  }

  function FlipFirst(s: Octets): Octets
    requires s != []
  {
    s[0 := if s[0] % 2 == 0 then s[0] + 1 else s[0] - 1]
  }

  lemma FlippedIv(suite: Suite, iv: Block, cipher: Octets)
    requires |cipher| % 16 == 0 && cipher != []
    ensures CbcDecrypt(suite, FlipLowBit(iv), cipher) == FlipFirst(CbcDecrypt(suite, iv, cipher))
  {
    var d := suite.decipher(cipher[..16]);
    FlippedXor(d[0], iv[0]);
    assert XorBlock(d, FlipLowBit(iv)) == FlipFirst(XorBlock(d, iv));
  }

  lemma FlippedXor(a: byte, b: byte)
    ensures var x := Xor(a, b);
            Xor(a, if b % 2 == 0 then b + 1 else b - 1) == if x % 2 == 0 then x + 1 else x - 1
  {
    var c := if b % 2 == 0 then b + 1 else b - 1;
    assert b / 2 == c / 2;
    assert Xor(0, 0) == 0;
  }

  // ------------------------------------------------------ block by block

  /** The exclusive or of blocks, bit by bit. */
  lemma XorBlockBits(a: Block, b: Block, i: nat)
    requires i < 16
    ensures LowBits(XorBlock(a, b)[i], 8) == XorBits(LowBits(a[i], 8), LowBits(b[i], 8))
  {
    XorIsBitwise(a[i], b[i], 8);
  }

  /** Block `j` of whole blocks. */
  function BlockAt(s: Octets, j: nat): Block
    requires 16 * j + 16 <= |s|
  {
    s[16 * j..16 * j + 16]
  }

  lemma BlockBehind(first: Block, rest: Octets, j: nat)
    requires 16 * j + 16 <= |rest|
    ensures BlockAt(first + rest, j + 1) == BlockAt(rest, j)
    ensures BlockAt(first + rest, 0) == first
  {
    var x, y := BlockAt(first + rest, j + 1), BlockAt(rest, j);
    assert forall i :: 0 <= i < 16 ==> x[i] == y[i];
  }

  /** The chaining of section 6.2 of NIST SP 800-38A: each cipher block enciphers the plain block
      combined with the cipher block before it, the first one with the IV. */
  lemma {:induction false} CbcChains(suite: Suite, iv: Block, plain: Octets, j: nat)
    requires |plain| % 16 == 0 && 16 * j + 16 <= |plain|
    ensures var c := CbcEncrypt(suite, iv, plain);
            BlockAt(c, j) == suite.encipher(XorBlock(BlockAt(plain, j), if j == 0 then iv else BlockAt(c, j - 1)))
    decreases j
  {
    var first, block := plain[..16], CbcEncryptFirst(suite, iv, plain);
    CbcUnfolds(suite, iv, plain);
    var rest := CbcEncrypt(suite, block, plain[16..]);
    hide CbcEncrypt, XorBlock, BlockAt;
    assert plain == first + plain[16..];
    if j == 0 {
      FirstBlock(block, rest);
      FirstBlock(first, plain[16..]);
    } else {
      CbcChains(suite, block, plain[16..], j - 1);
      BlockBehind(first, plain[16..], j - 1);
      BlockBehind(block, rest, j - 1);
      if j > 1 {
        BlockBehind(block, rest, j - 2);
      }
    }
  }

  function CbcEncryptFirst(suite: Suite, iv: Block, plain: Octets): Block
    requires |plain| >= 16
  {
    suite.encipher(XorBlock(plain[..16], iv))
  }

  lemma CbcUnfolds(suite: Suite, iv: Block, plain: Octets)
    requires |plain| % 16 == 0 && plain != []
    ensures var block := CbcEncryptFirst(suite, iv, plain);
            CbcEncrypt(suite, iv, plain) == block + CbcEncrypt(suite, block, plain[16..])
  {
    hide XorBlock;
  }

  lemma FirstBlock(first: Block, rest: Octets)
    ensures BlockAt(first + rest, 0) == first
  {}

  /** What is encrypted: in front the MAC over the eight octets of the sequence number and the body,
      one bit flipped for a bad one; behind it the same octets, padded, in CBC under it. */
  lemma EncryptedParts(suite: Suite, m: Message, bad: bool)
    ensures var plain := LittleEndian(m.sequence, 8) + m.body;
            var mac := suite.mac(plain);
            var data := Encrypted(suite, m, bad);
            var iv: Block := data[..16];
            && iv[1..] == mac[1..] && iv[0] == (if bad then Xor(mac[0], 1) else mac[0])
            && data[16..] == CbcEncrypt(suite, iv, Pad(plain))
  {
    FlippedBit(suite.mac(Plain(m))[0]);
    hide CbcEncrypt, Pad, Xor, LittleEndian;
  }

  lemma FlippedBit(b: byte)
    ensures Xor(b, 1) == if b % 2 == 0 then b + 1 else b - 1
  {
    XorWithZero(b / 2);
  }

  lemma {:induction false} XorWithZero(a: nat)
    ensures Xor(a, 0) == a
  {
    if a > 0 {
      XorWithZero(a / 2);
    }
  }
}

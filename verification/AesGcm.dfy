/** Streaming AES-256-GCM (libsignal/rust/crypto/src/aes_gcm.rs, libsignal/rust/crypto/src/aes_ctr.rs)
    against the one-shot form of sections 6.4, 6.5 and 7.1 of NIST SP 800-38D. */
module AesGcm {
  import opened Wrappers
  import opened Bytes
  import opened Arithmetic

  const TAG_SIZE := 16
  const NONCE_SIZE := 12
  const KEY_SIZE := 32

  type Block = b: Bytes | |b| == TAG_SIZE witness seq(16, _ => 0)

  const ZERO_BLOCK: Block := [0, 0, 0, 0, 0, 0, 0, 0, 0, 0, 0, 0, 0, 0, 0, 0]

  /** `cipher` is AES-256 on one block, `multiply` the product in the field of GHASH. */
  datatype Suite = Suite(cipher: (Bytes, Block) -> Block, multiply: (Block, Block) -> Block)

  // ------------------------------------------------------------- GHASH

  predicate WholeBlocks(n: int) {
    n % TAG_SIZE == 0
  }

  lemma BlocksAdd(a: int, b: int)
    requires WholeBlocks(a) && WholeBlocks(b)
    ensures WholeBlocks(a + b)
  {
  }

  /** Absorb the whole blocks of `data`. */
  function Absorb(suite: Suite, h: Block, y: Block, data: Bytes): Block
    decreases |data|
  {
    if |data| < TAG_SIZE then y
    else Absorb(suite, h, suite.multiply(XorBytes(y, data[..TAG_SIZE]), h), data[TAG_SIZE..])
  }

  /** The data with zeros up to the next whole block. */
  function Padded(data: Bytes): (r: Bytes)
    ensures WholeBlocks(|r|) && data <= r && |r| < |data| + TAG_SIZE
    ensures forall i :: |data| <= i < |r| ==> r[i] == 0
  {
    if |data| % TAG_SIZE == 0 then data else data + seq(TAG_SIZE - |data| % TAG_SIZE, _ => 0)
  }

  /** A number as big-endian bytes, modulo 256 to their number. */
  function BigEndian(n: nat, width: nat): (r: Bytes)
    ensures |r| == width
  {
    if width == 0 then [] else BigEndian(n / 0x100, width - 1) + [n % 0x100]
  }

  const TWO_TO_64 := 0x1_0000_0000_0000_0000

  /** Both lengths in bits, each in 64 bits; the multiplication is that of a machine word. */
  function LengthBlock(adLen: nat, msgLen: nat): Block {
    BigEndian(8 * adLen % TWO_TO_64, 8) + BigEndian(8 * msgLen % TWO_TO_64, 8)
  }

  lemma {:induction false} AbsorbSplits(suite: Suite, h: Block, y: Block, a: Bytes, b: Bytes)
    requires WholeBlocks(|a|)
    ensures Absorb(suite, h, y, a + b) == Absorb(suite, h, Absorb(suite, h, y, a), b)
    decreases |a|
  {
    if a == [] {
      assert a + b == b;
    } else {
      assert (a + b)[..TAG_SIZE] == a[..TAG_SIZE] && (a + b)[TAG_SIZE..] == a[TAG_SIZE..] + b;
      AbsorbSplits(suite, h, suite.multiply(XorBytes(y, a[..TAG_SIZE]), h), a[TAG_SIZE..], b);
    }
  }

  // ------------------------------------------------------------- GHASH of the standard

  /** X_i, counted from 1. */
  function BlockAt(data: Bytes, i: nat): Block
    requires 0 < i && TAG_SIZE * i <= |data|
  {
    data[TAG_SIZE * (i - 1)..TAG_SIZE * i]
  }

  /** Y_i of GHASH, section 6.4: Y_0 is zero and Y_i is (Y_(i-1) xor X_i) times H. */
  function GhashAt(suite: Suite, h: Block, data: Bytes, i: nat): Block
    requires TAG_SIZE * i <= |data|
  {
    if i == 0 then ZERO_BLOCK
    else suite.multiply(XorBytes(GhashAt(suite, h, data, i - 1), BlockAt(data, i)), h)
  }

  /** The GHASH of all whole blocks. */
  function StandardGhash(suite: Suite, h: Block, data: Bytes): Block {
    GhashAt(suite, h, data, |data| / TAG_SIZE)
  }

  /** Absorbing goes on from any Y_i to the last. */
  lemma {:induction false} AbsorbContinues(suite: Suite, h: Block, data: Bytes, i: nat)
    requires TAG_SIZE * i <= |data|
    ensures Absorb(suite, h, GhashAt(suite, h, data, i), data[TAG_SIZE * i..]) == StandardGhash(suite, h, data)
    decreases |data| - i
  {
    hide XorBytes;
    var rest := data[TAG_SIZE * i..];
    if |rest| >= TAG_SIZE {
      assert rest[..TAG_SIZE] == BlockAt(data, i + 1) && rest[TAG_SIZE..] == data[TAG_SIZE * (i + 1)..];
      AbsorbContinues(suite, h, data, i + 1);
    }
  }

  /** Absorbing from zero is the GHASH of the standard. */
  lemma AbsorbIsGhash(suite: Suite, h: Block, data: Bytes)
    ensures Absorb(suite, h, ZERO_BLOCK, data) == StandardGhash(suite, h, data)
  {
    hide Absorb, StandardGhash;
    assert data[TAG_SIZE * 0..] == data;
    AbsorbContinues(suite, h, data, 0);
  }

  /** The multiplication of GHASH distributes over exclusive or. */
  ghost predicate Distributes(suite: Suite) {
    forall a: Block, b: Block, h: Block {:trigger suite.multiply(XorBytes(a, b), h)} ::
      suite.multiply(XorBytes(a, b), h) == XorBytes(suite.multiply(a, h), suite.multiply(b, h))
  }

  /** `x` times the `k`-th power of H. */
  function TimesPower(suite: Suite, x: Block, h: Block, k: nat): Block {
    if k == 0 then x else suite.multiply(TimesPower(suite, x, h, k - 1), h)
  }

  /** The sum of X_1 H^n, X_2 H^(n-1), up to X_i H^(n-i+1). */
  function PowerSum(suite: Suite, h: Block, data: Bytes, i: nat, n: nat): Block
    requires i <= n && TAG_SIZE * i <= |data|
  {
    if i == 0 then ZERO_BLOCK
    else XorBytes(PowerSum(suite, h, data, i - 1, n), TimesPower(suite, BlockAt(data, i), h, n - i + 1))
  }

  lemma {:induction false} XorSelf(a: nat)
    ensures Xor(a, a) == 0
  {
    if a > 0 {
      XorSelf(a / 2);
    }
  }

  lemma TimesZero(suite: Suite, h: Block)
    requires Distributes(suite)
    ensures suite.multiply(ZERO_BLOCK, h) == ZERO_BLOCK
  {
    hide XorByte;
    var z := suite.multiply(ZERO_BLOCK, h);
    XorZero(ZERO_BLOCK);
    assert z == XorBytes(z, z);
    forall i | 0 <= i < TAG_SIZE
      ensures z[i] == 0
    {
      XorByteSelf(z[i]);
    }
  }

  lemma XorByteSelf(a: byte)
    ensures XorByte(a, a) == 0
  {
    XorSelf(a);
  }

  lemma {:induction false} PowerSumTimes(suite: Suite, h: Block, data: Bytes, i: nat, n: nat)
    requires Distributes(suite) && i <= n && TAG_SIZE * i <= |data|
    ensures suite.multiply(PowerSum(suite, h, data, i, n), h) == PowerSum(suite, h, data, i, n + 1)
  {
    hide XorBytes, BlockAt;
    if i == 0 {
      TimesZero(suite, h);
    } else {
      PowerSumTimes(suite, h, data, i - 1, n);
      assert TimesPower(suite, BlockAt(data, i), h, n - i + 2)
          == suite.multiply(TimesPower(suite, BlockAt(data, i), h, n - i + 1), h);
    }
  }

  /** GHASH is the polynomial X_1 H^m + ... + X_m H: every block counts, each with its own power of H. */
  lemma {:induction false} GhashIsPolynomial(suite: Suite, h: Block, data: Bytes, i: nat)
    requires Distributes(suite) && TAG_SIZE * i <= |data|
    ensures GhashAt(suite, h, data, i) == PowerSum(suite, h, data, i, i)
  {
    hide XorBytes, BlockAt;
    if i > 0 {
      GhashIsPolynomial(suite, h, data, i - 1);
      PowerSumTimes(suite, h, data, i - 1, i - 1);
      assert TimesPower(suite, BlockAt(data, i), h, 1) == suite.multiply(TimesPower(suite, BlockAt(data, i), h, 0), h);
    }
  }

  /** GHASH of A, C, their padding and their lengths, under the pad. */
  function OneShotTag(suite: Suite, h: Block, pad: Block, ad: Bytes, message: Bytes): Block {
    XorBytes(StandardGhash(suite, h, Padded(ad) + Padded(message) + LengthBlock(|ad|, |message|)), pad)
  }

  // ------------------------------------------------------------- the streaming form

  /** The state of `GcmGhash`; `buffer` is the used part of `msg_buf`. */
  datatype Ghash = Ghash(h: Block, hash: Block, pad: Block, buffer: Bytes, adLen: nat, msgLen: nat)

  function NewGhash(suite: Suite, h: Block, pad: Block, ad: Bytes): Ghash {
    Ghash(h, Absorb(suite, h, ZERO_BLOCK, Padded(ad)), pad, [], |ad|, 0)
  }

  function Min(a: nat, b: nat): nat { if a < b then a else b }

  /** `GcmGhash::update`: fill up the buffer first, if it holds something; then whole blocks directly,
      and the rest into the buffer. */
  function Updated(suite: Suite, g: Ghash, msg: Bytes): Ghash
    requires |g.buffer| < TAG_SIZE
    decreases |msg|, |g.buffer|
  {
    if |g.buffer| > 0 then
      var taking := Min(|msg|, TAG_SIZE - |g.buffer|);
      var filled := g.(buffer := g.buffer + msg[..taking], msgLen := g.msgLen + taking);
      if |filled.buffer| == TAG_SIZE then
        Updated(suite, filled.(hash := Absorb(suite, g.h, g.hash, filled.buffer), buffer := []), msg[taking..])
      else filled
    else
      var whole := TAG_SIZE * (|msg| / TAG_SIZE);
      g.(hash := Absorb(suite, g.h, g.hash, msg[..whole]), buffer := msg[whole..], msgLen := g.msgLen + |msg|)
  }

  /** One unfolding of an update on a buffer that holds something. */
  lemma UpdatedFills(suite: Suite, g: Ghash, msg: Bytes)
    requires 0 < |g.buffer| < TAG_SIZE
    ensures var taking := Min(|msg|, TAG_SIZE - |g.buffer|);
      var filled := g.(buffer := g.buffer + msg[..taking], msgLen := g.msgLen + taking);
      Updated(suite, g, msg)
      == if |filled.buffer| == TAG_SIZE
         then Updated(suite, filled.(hash := Absorb(suite, g.h, g.hash, filled.buffer), buffer := []), msg[taking..])
         else filled
  {
    hide Absorb;
  }

  /** And on an empty buffer. */
  lemma UpdatedWhole(suite: Suite, g: Ghash, msg: Bytes)
    requires g.buffer == []
    ensures var whole := TAG_SIZE * (|msg| / TAG_SIZE);
      Updated(suite, g, msg)
      == g.(hash := Absorb(suite, g.h, g.hash, msg[..whole]), buffer := msg[whole..], msgLen := g.msgLen + |msg|)
  {
    hide Absorb;
  }

  function Finalized(suite: Suite, g: Ghash): Block
    requires |g.buffer| < TAG_SIZE
  {
    var hash := if |g.buffer| > 0 then Absorb(suite, g.h, g.hash, Padded(g.buffer)) else g.hash;
    XorBytes(Absorb(suite, g.h, hash, LengthBlock(g.adLen, g.msgLen)), g.pad)
  }

  /** The state stands for associated data and message bytes: what was absorbed, with the buffered
      tail, is the padded associated data and all message bytes. */
  ghost predicate StandsFor(suite: Suite, g: Ghash, ad: Bytes, message: Bytes) {
    && |g.buffer| < TAG_SIZE && |g.buffer| <= |message| && WholeBlocks(|message| - |g.buffer|)
    && g.buffer == message[|message| - |g.buffer|..]
    && g.hash == Absorb(suite, g.h, ZERO_BLOCK, Padded(ad) + message[..|message| - |g.buffer|])
    && g.adLen == |ad| && g.msgLen == |message|
  }

  lemma NewStandsFor(suite: Suite, h: Block, pad: Block, ad: Bytes)
    ensures StandsFor(suite, NewGhash(suite, h, pad, ad), ad, [])
  {
    assert Padded(ad) + [] == Padded(ad);
  }

  lemma EmptyStandsFor(suite: Suite, g: Ghash, ad: Bytes, message: Bytes)
    requires g.buffer == []
    ensures StandsFor(suite, g, ad, message) <==>
      WholeBlocks(|message|) && g.hash == Absorb(suite, g.h, ZERO_BLOCK, Padded(ad) + message) && g.adLen == |ad|
      && g.msgLen == |message|
  {
    hide Absorb, Padded;
    assert message[..|message| - |g.buffer|] == message && message[|message| - |g.buffer|..] == [];
  }

  /** Absorbing whole blocks after an empty buffer. */
  lemma BlocksStandFor(suite: Suite, g: Ghash, ad: Bytes, message: Bytes, blocks: Bytes)
    requires StandsFor(suite, g, ad, message) && WholeBlocks(|blocks|) && g.buffer == []
    ensures StandsFor(suite, g.(hash := Absorb(suite, g.h, g.hash, blocks), msgLen := g.msgLen + |blocks|), ad,
                      message + blocks)
  {
    hide Absorb, Padded, StandsFor, WholeBlocks;
    var after := g.(hash := Absorb(suite, g.h, g.hash, blocks), msgLen := g.msgLen + |blocks|);
    EmptyStandsFor(suite, g, ad, message);
    EmptyStandsFor(suite, after, ad, message + blocks);
    BlocksAdd(|Padded(ad)|, |message|);
    BlocksAdd(|message|, |blocks|);
    AbsorbSplits(suite, g.h, ZERO_BLOCK, Padded(ad) + message, blocks);
    assert Padded(ad) + message + blocks == Padded(ad) + (message + blocks);
  }

  /** Bytes that do not fill the buffer. */
  lemma TailStandsFor(suite: Suite, g: Ghash, ad: Bytes, message: Bytes, tail: Bytes)
    requires StandsFor(suite, g, ad, message) && |g.buffer| + |tail| < TAG_SIZE
    ensures StandsFor(suite, g.(buffer := g.buffer + tail, msgLen := g.msgLen + |tail|), ad, message + tail)
  {
    hide Absorb, Padded, WholeBlocks;
    var (old', new') := (message, message + tail);
    var k := |message| - |g.buffer|;
    assert new'[..k] == old'[..k];
    assert old'[k..] == g.buffer;
    assert new'[k..] == g.buffer + tail;
  }

  /** A buffer that got full is absorbed. */
  lemma FullStandsFor(suite: Suite, g: Ghash, ad: Bytes, message: Bytes, more: Bytes)
    requires StandsFor(suite, g, ad, message) && |g.buffer| + |more| == TAG_SIZE
    ensures StandsFor(suite, g.(hash := Absorb(suite, g.h, g.hash, g.buffer + more), buffer := [],
                                msgLen := g.msgLen + |more|),
                      ad, message + more)
  {
    hide Absorb, Padded, WholeBlocks, StandsFor;
    var after := g.(hash := Absorb(suite, g.h, g.hash, g.buffer + more), buffer := [], msgLen := g.msgLen + |more|);
    var front := FrontOf(suite, g, ad, message);
    assert WholeBlocks(TAG_SIZE) by { BlockIsWhole(); }
    BlocksAdd(|front|, TAG_SIZE);
    BlocksAdd(|Padded(ad)|, |front|);
    AbsorbSplits(suite, g.h, ZERO_BLOCK, Padded(ad) + front, g.buffer + more);
    assert Padded(ad) + front + (g.buffer + more) == Padded(ad) + (message + more);
    EmptyStandsFor(suite, after, ad, message + more);
  }

  lemma BlockIsWhole()
    ensures WholeBlocks(TAG_SIZE)
  {
  }

  /** The message bytes already absorbed. */
  lemma FrontOf(suite: Suite, g: Ghash, ad: Bytes, message: Bytes) returns (front: Bytes)
    requires StandsFor(suite, g, ad, message)
    ensures message == front + g.buffer && WholeBlocks(|front|)
    ensures g.hash == Absorb(suite, g.h, ZERO_BLOCK, Padded(ad) + front) && g.adLen == |ad| && g.msgLen == |message|
  {
    hide Absorb, Padded, WholeBlocks;
    front := message[..|message| - |g.buffer|];
  }

  /** An update takes in the message, however it falls on the blocks. */
  lemma {:induction false} UpdatedStandsFor(suite: Suite, g: Ghash, ad: Bytes, message: Bytes, msg: Bytes)
    requires StandsFor(suite, g, ad, message)
    ensures StandsFor(suite, Updated(suite, g, msg), ad, message + msg)
    decreases |msg|, |g.buffer|
  {
    hide StandsFor, Absorb;
    BufferIsShort(suite, g, ad, message);
    if |g.buffer| > 0 {
      var taking := Min(|msg|, TAG_SIZE - |g.buffer|);
      assert message + msg == message + msg[..taking] + msg[taking..];
      if |g.buffer| + taking == TAG_SIZE {
        FullStandsFor(suite, g, ad, message, msg[..taking]);
        var filled := g.(hash := Absorb(suite, g.h, g.hash, g.buffer + msg[..taking]), buffer := [],
                         msgLen := g.msgLen + taking);
        UpdatedStandsFor(suite, filled, ad, message + msg[..taking], msg[taking..]);
      } else {
        assert msg[..taking] == msg;
        TailStandsFor(suite, g, ad, message, msg);
      }
    } else {
      var whole := TAG_SIZE * (|msg| / TAG_SIZE);
      BlocksStandFor(suite, g, ad, message, msg[..whole]);
      var absorbed := g.(hash := Absorb(suite, g.h, g.hash, msg[..whole]), msgLen := g.msgLen + whole);
      TailStandsFor(suite, absorbed, ad, message + msg[..whole], msg[whole..]);
      assert g.buffer + msg[whole..] == msg[whole..];
      assert message + msg == message + msg[..whole] + msg[whole..];
    }
  }

  lemma BufferIsShort(suite: Suite, g: Ghash, ad: Bytes, message: Bytes)
    requires StandsFor(suite, g, ad, message)
    ensures |g.buffer| < TAG_SIZE
  {
  }

  /** The tail, padded, completes the padded message. */
  lemma TailCompletes(suite: Suite, g: Ghash, ad: Bytes, message: Bytes)
    requires StandsFor(suite, g, ad, message)
    ensures Absorb(suite, g.h, g.hash, Padded(g.buffer)) == Absorb(suite, g.h, ZERO_BLOCK, Padded(ad) + Padded(message))
  {
    hide Absorb, Padded, WholeBlocks, StandsFor;
    var front := FrontOf(suite, g, ad, message);
    PaddedTail(front, g.buffer);
    BlocksAdd(|Padded(ad)|, |front|);
    AbsorbSplits(suite, g.h, ZERO_BLOCK, Padded(ad) + front, Padded(g.buffer));
    assert Padded(ad) + front + Padded(g.buffer) == Padded(ad) + Padded(message);
  }

  /** Finalizing yields the one-shot tag. */
  lemma FinalizedIsOneShot(suite: Suite, g: Ghash, ad: Bytes, message: Bytes)
    requires StandsFor(suite, g, ad, message)
    ensures Finalized(suite, g) == OneShotTag(suite, g.h, g.pad, ad, message)
  {
    hide LengthBlock, Absorb, Padded, XorBytes, WholeBlocks, StandardGhash;
    TailCompletes(suite, g, ad, message);
    BlocksAdd(|Padded(ad)|, |Padded(message)|);
    AbsorbSplits(suite, g.h, ZERO_BLOCK, Padded(ad) + Padded(message), LengthBlock(|ad|, |message|));
    AbsorbIsGhash(suite, g.h, Padded(ad) + Padded(message) + LengthBlock(|ad|, |message|));
    if g.buffer == [] {
      NothingToAbsorb(suite, g.h, g.hash);
    }
  }

  lemma NothingToAbsorb(suite: Suite, h: Block, y: Block)
    ensures Absorb(suite, h, y, Padded([])) == y
  {
  }

  lemma PaddedTail(front: Bytes, tail: Bytes)
    requires WholeBlocks(|front|)
    ensures Padded(front + tail) == front + Padded(tail)
  {
    assert |front + tail| % TAG_SIZE == |tail| % TAG_SIZE;
  }

  // ------------------------------------------------------------- counter mode

  type Nonce = b: Bytes | |b| == NONCE_SIZE witness seq(12, _ => 0)

  const TWO_TO_32 := 0x1_0000_0000

  /** The nonce and a 32-bit counter, which wraps. */
  function CounterBlock(nonce: Nonce, counter: nat): Block {
    nonce + BigEndian(counter % TWO_TO_32, 4)
  }

  /** `Aes256Ctr32`: a keystream and the position in it, in bytes from counter 0. */
  datatype Ctr = Ctr(key: Bytes, nonce: Nonce, pos: nat)

  function KeystreamByte(suite: Suite, ctr: Ctr, i: nat): byte {
    suite.cipher(ctr.key, CounterBlock(ctr.nonce, (ctr.pos + i) / TAG_SIZE))[(ctr.pos + i) % TAG_SIZE]
  }

  /** `process`: exclusive or with the keystream from the position on. */
  function Processed(suite: Suite, ctr: Ctr, data: Bytes): (r: Bytes)
    ensures |r| == |data|
  {
    seq(|data|, i requires 0 <= i < |data| => XorByte(data[i], KeystreamByte(suite, ctr, i)))
  }

  function Advanced(ctr: Ctr, n: nat): Ctr {
    ctr.(pos := ctr.pos + n)
  }

  lemma ProcessedSplits(suite: Suite, ctr: Ctr, a: Bytes, b: Bytes)
    ensures Processed(suite, ctr, a + b) == Processed(suite, ctr, a) + Processed(suite, Advanced(ctr, |a|), b)
  {
    hide XorByte;
    forall i | 0 <= i < |b|
      ensures KeystreamByte(suite, ctr, |a| + i) == KeystreamByte(suite, Advanced(ctr, |a|), i)
    {
      assert ctr.pos + (|a| + i) == Advanced(ctr, |a|).pos + i;
    }
  }

  /** Processing again from the same position restores the data. */
  lemma ProcessedInverts(suite: Suite, ctr: Ctr, data: Bytes)
    ensures Processed(suite, ctr, Processed(suite, ctr, data)) == data
  {
    forall i | 0 <= i < |data|
      ensures XorByte(XorByte(data[i], KeystreamByte(suite, ctr, i)), KeystreamByte(suite, ctr, i)) == data[i]
    {
      XorCancels(data[i], KeystreamByte(suite, ctr, i));
    }
  }

  /** Up to 2^36 - 32 bytes, the standard's limit on a plaintext, no counter block is used twice: those of
      the data differ from each other and from that of the pad, which has counter 1. */
  lemma CountersDiffer(nonce: Nonce, i: nat, j: nat)
    requires i < j < TAG_SIZE * (TWO_TO_32 - 2) && i / TAG_SIZE != j / TAG_SIZE
    ensures CounterBlock(nonce, 2 + i / TAG_SIZE) != CounterBlock(nonce, 2 + j / TAG_SIZE)
    ensures CounterBlock(nonce, 2 + i / TAG_SIZE) != CounterBlock(nonce, 1)
            && CounterBlock(nonce, 2 + j / TAG_SIZE) != CounterBlock(nonce, 1)
  {
    CounterIsRead(nonce, 1);
    CounterIsRead(nonce, 2 + i / TAG_SIZE);
    CounterIsRead(nonce, 2 + j / TAG_SIZE);
  }

  lemma CounterIsRead(nonce: Nonce, counter: nat)
    requires counter < TWO_TO_32
    ensures FromBigEndian(CounterBlock(nonce, counter)[12..]) == counter
  {
    hide BigEndian, FromBigEndian, Power256;
    WordSizes();
    BigEndianIsRead(counter, 4);
    assert CounterBlock(nonce, counter)[12..] == BigEndian(counter, 4);
  }

  // ------------------------------------------------------------- encryption and decryption

  datatype Gcm = Gcm(ctr: Ctr, ghash: Ghash)

  /** `setup_gcm`: the first keystream block is the pad, the data starts at the second. */
  function Setup(suite: Suite, key: Bytes, nonce: Bytes, ad: Bytes): (r: Result<Gcm>)
    ensures r.Ok? ==> |nonce| == NONCE_SIZE && r.value.ghash.buffer == []
  {
    if |nonce| != NONCE_SIZE then Err(InvalidNonceSize)
    else if |key| != KEY_SIZE then Err(InvalidKeySize)
    else
      var ctr := Ctr(key, nonce, TAG_SIZE);
      Ok(Gcm(Advanced(ctr, TAG_SIZE),
             NewGhash(suite, suite.cipher(key, ZERO_BLOCK), Processed(suite, ctr, ZERO_BLOCK), ad)))
  }

  /** Exactly when the set-up succeeds: a 96-bit nonce and a 256-bit key; the nonce is looked at first. */
  lemma SetupIff(suite: Suite, key: Bytes, nonce: Bytes, ad: Bytes)
    ensures Setup(suite, key, nonce, ad).Ok? <==> |nonce| == 12 && |key| == 32
    ensures Setup(suite, key, nonce, ad).Err? ==>
      Setup(suite, key, nonce, ad).error == if |nonce| == 12 then InvalidKeySize else InvalidNonceSize
  {
    hide Absorb, Processed;
  }

  function Encrypt(suite: Suite, g: Gcm, buf: Bytes): (Gcm, Bytes)
    requires |g.ghash.buffer| < TAG_SIZE
  {
    var out := Processed(suite, g.ctr, buf);
    (Gcm(Advanced(g.ctr, |buf|), Updated(suite, g.ghash, out)), out)
  }

  function Decrypt(suite: Suite, g: Gcm, buf: Bytes): (Gcm, Bytes)
    requires |g.ghash.buffer| < TAG_SIZE
  {
    (Gcm(Advanced(g.ctr, |buf|), Updated(suite, g.ghash, buf)), Processed(suite, g.ctr, buf))
  }

  function Verified(suite: Suite, g: Gcm, tag: Bytes): Result<()>
    requires |g.ghash.buffer| < TAG_SIZE
  {
    if |tag| != TAG_SIZE || tag != Finalized(suite, g.ghash) then Err(InvalidTag) else Ok(())
  }

  lemma {:induction false} UpdatedIsShort(suite: Suite, g: Ghash, msg: Bytes)
    requires |g.buffer| < TAG_SIZE
    ensures |Updated(suite, g, msg).buffer| < TAG_SIZE
    decreases |msg|, |g.buffer|
  {
    hide Absorb;
    if |g.buffer| > 0 {
      var taking := Min(|msg|, TAG_SIZE - |g.buffer|);
      if |g.buffer| + taking == TAG_SIZE {
        var filled := g.(hash := Absorb(suite, g.h, g.hash, g.buffer + msg[..taking]), buffer := [],
                         msgLen := g.msgLen + taking);
        UpdatedIsShort(suite, filled, msg[taking..]);
      }
    }
  }

  /** A plaintext given in pieces: the state after them and all output. */
  function EncryptedAll(suite: Suite, g: Gcm, pieces: seq<Bytes>): (r: (Gcm, Bytes))
    requires |g.ghash.buffer| < TAG_SIZE
    ensures |r.0.ghash.buffer| < TAG_SIZE
  {
    if pieces == [] then (g, [])
    else
      var (before, out) := EncryptedAll(suite, g, pieces[..|pieces| - 1]);
      var (after, more) := Encrypt(suite, before, pieces[|pieces| - 1]);
      UpdatedIsShort(suite, before.ghash, more);
      (after, out + more)
  }

  function DecryptedAll(suite: Suite, g: Gcm, pieces: seq<Bytes>): (r: (Gcm, Bytes))
    requires |g.ghash.buffer| < TAG_SIZE
    ensures |r.0.ghash.buffer| < TAG_SIZE
  {
    if pieces == [] then (g, [])
    else
      var (before, out) := DecryptedAll(suite, g, pieces[..|pieces| - 1]);
      var (after, more) := Decrypt(suite, before, pieces[|pieces| - 1]);
      UpdatedIsShort(suite, before.ghash, pieces[|pieces| - 1]);
      (after, out + more)
  }

  lemma {:induction false} EncryptedAllIs(suite: Suite, g: Gcm, ad: Bytes, pieces: seq<Bytes>)
    requires StandsFor(suite, g.ghash, ad, [])
    ensures var (after, out) := EncryptedAll(suite, g, pieces);
      out == Processed(suite, g.ctr, Joined(pieces)) && after.ctr == Advanced(g.ctr, |Joined(pieces)|)
      && StandsFor(suite, after.ghash, ad, out) && after.ghash.h == g.ghash.h && after.ghash.pad == g.ghash.pad
  {
    hide Processed, Updated, StandsFor;
    BufferIsShort(suite, g.ghash, ad, []);
    if pieces == [] {
    } else {
      var (front, last) := (pieces[..|pieces| - 1], pieces[|pieces| - 1]);
      EncryptedAllIs(suite, g, ad, front);
      var (before, out) := EncryptedAll(suite, g, front);
      var more := Processed(suite, before.ctr, last);
      ProcessedSplits(suite, g.ctr, Joined(front), last);
      UpdatedStandsFor(suite, before.ghash, ad, out, more);
      UpdatedKeepsKeys(suite, before.ghash, more);
    }
  }

  lemma {:induction false} UpdatedKeepsKeys(suite: Suite, g: Ghash, msg: Bytes)
    requires |g.buffer| < TAG_SIZE
    ensures Updated(suite, g, msg).h == g.h && Updated(suite, g, msg).pad == g.pad
    decreases |msg|, |g.buffer|
  {
    hide Absorb;
    if |g.buffer| > 0 {
      var taking := Min(|msg|, TAG_SIZE - |g.buffer|);
      if |g.buffer| + taking == TAG_SIZE {
        var filled := g.(hash := Absorb(suite, g.h, g.hash, g.buffer + msg[..taking]), buffer := [],
                         msgLen := g.msgLen + taking);
        UpdatedKeepsKeys(suite, filled, msg[taking..]);
      }
    }
  }

  lemma {:induction false} DecryptedAllIs(suite: Suite, g: Gcm, ad: Bytes, pieces: seq<Bytes>)
    requires StandsFor(suite, g.ghash, ad, [])
    ensures var (after, out) := DecryptedAll(suite, g, pieces);
      out == Processed(suite, g.ctr, Joined(pieces)) && after.ctr == Advanced(g.ctr, |Joined(pieces)|)
      && StandsFor(suite, after.ghash, ad, Joined(pieces)) && after.ghash.h == g.ghash.h
      && after.ghash.pad == g.ghash.pad
  {
    hide Processed, Updated, StandsFor;
    BufferIsShort(suite, g.ghash, ad, []);
    if pieces == [] {
    } else {
      var (front, last) := (pieces[..|pieces| - 1], pieces[|pieces| - 1]);
      DecryptedAllIs(suite, g, ad, front);
      var (before, out) := DecryptedAll(suite, g, front);
      ProcessedSplits(suite, g.ctr, Joined(front), last);
      UpdatedStandsFor(suite, before.ghash, ad, Joined(front), last);
      UpdatedKeepsKeys(suite, before.ghash, last);
    }
  }

  /** Encrypting a plaintext in one division and decrypting the result in any other restores the
      plaintext, and a tag verifies exactly when it is the one the encryption computed. */
  lemma RoundTrip(suite: Suite, key: Bytes, nonce: Bytes, ad: Bytes, pieces: seq<Bytes>, others: seq<Bytes>, tag: Bytes)
    requires Setup(suite, key, nonce, ad).Ok?
    requires Joined(others) == EncryptedAll(suite, Setup(suite, key, nonce, ad).value, pieces).1
    ensures var g := Setup(suite, key, nonce, ad).value;
      var (sent, received) := (EncryptedAll(suite, g, pieces), DecryptedAll(suite, g, others));
      received.1 == Joined(pieces)
      && (Verified(suite, received.0, tag).Ok? <==> tag == Finalized(suite, sent.0.ghash))
  {
    hide Processed, Updated, EncryptedAll, DecryptedAll, Finalized;
    var g := Setup(suite, key, nonce, ad).value;
    NewStandsFor(suite, g.ghash.h, g.ghash.pad, ad);
    EncryptedAllIs(suite, g, ad, pieces);
    DecryptedAllIs(suite, g, ad, others);
    ProcessedInverts(suite, g.ctr, Joined(pieces));
    FinalizedIsOneShot(suite, EncryptedAll(suite, g, pieces).0.ghash, ad, Joined(others));
    FinalizedIsOneShot(suite, DecryptedAll(suite, g, others).0.ghash, ad, Joined(others));
  }

  // ------------------------------------------------------------- the standard's one-shot form

  function FromBigEndian(b: Bytes): nat {
    if b == [] then 0 else FromBigEndian(b[..|b| - 1]) * 0x100 + b[|b| - 1]
  }

  /** Big-endian: the `i`-th byte counts the power of 256 that as many bytes after it leave. */
  lemma {:induction false} BigEndianAt(n: nat, width: nat, i: nat)
    requires i < width
    ensures BigEndian(n, width)[i] == n / Power256(width - 1 - i) % 0x100
  {
    if i < width - 1 {
      BigEndianAt(n / 0x100, width - 1, i);
      DivideTwice(n, 0x100, Power256(width - 2 - i));
    }
  }

  lemma {:induction false} BigEndianIsRead(n: nat, width: nat)
    requires n < Power256(width)
    ensures FromBigEndian(BigEndian(n, width)) == n
  {
    if width > 0 {
      assert n / 0x100 < Power256(width - 1);
      BigEndianIsRead(n / 0x100, width - 1);
      assert BigEndian(n, width)[..width - 1] == BigEndian(n / 0x100, width - 1);
    }
  }

  /** inc_32 of section 6.2: the last 32 bits, plus one, modulo 2^32. */
  function Increment32(block: Block): Block {
    block[..12] + BigEndian((FromBigEndian(block[12..]) + 1) % TWO_TO_32, 4)
  }

  /** GCTR of section 6.5. */
  function Gctr(suite: Suite, key: Bytes, counter: Block, data: Bytes): Bytes
    decreases |data|
  {
    if |data| <= TAG_SIZE then XorBytes(data, suite.cipher(key, counter)[..|data|])
    else
      XorBytes(data[..TAG_SIZE], suite.cipher(key, counter)) + Gctr(suite, key, Increment32(counter), data[TAG_SIZE..])
  }

  /** The authenticated encryption of section 7.1, for a 96-bit nonce and a full tag. */
  function StandardEncrypt(suite: Suite, key: Bytes, nonce: Nonce, ad: Bytes, plaintext: Bytes): (Bytes, Block) {
    var h := suite.cipher(key, ZERO_BLOCK);
    var j: Block := nonce + [0, 0, 0, 1];
    var ciphertext := Gctr(suite, key, Increment32(j), plaintext);
    (ciphertext, XorBytes(suite.cipher(key, j),
                          StandardGhash(suite, h, Padded(ad) + Padded(ciphertext) + LengthBlock(|ad|, |ciphertext|))))
  }

  lemma NextCounter(nonce: Nonce, counter: nat)
    ensures Increment32(CounterBlock(nonce, counter)) == CounterBlock(nonce, counter + 1)
  {
    hide BigEndian, FromBigEndian, Power256;
    var (block, low) := (CounterBlock(nonce, counter), BigEndian(counter % TWO_TO_32, 4));
    assert block[..12] == nonce && block[12..] == low;
    WordSizes();
    BigEndianIsRead(counter % TWO_TO_32, 4);
  }

  lemma WordSizes()
    ensures Power256(4) == TWO_TO_32 && Power256(8) == TWO_TO_64
  {
    assert Power256(4) == 0x100 * Power256(3) && Power256(2) == 0x1_0000;
    assert Power256(8) == 0x100 * Power256(7) && Power256(6) == 0x1_0000 * Power256(4);
  }

  lemma FirstCounters(nonce: Nonce)
    ensures CounterBlock(nonce, 1) == nonce + [0, 0, 0, 1]
  {
    assert BigEndian(1, 4) == BigEndian(0, 3) + [1];
    assert BigEndian(0, 3) == BigEndian(0, 2) + [0];
    assert BigEndian(0, 2) == BigEndian(0, 1) + [0];
  }

  lemma KeystreamOfBlock(suite: Suite, key: Bytes, nonce: Nonce, counter: nat, i: nat)
    requires i < TAG_SIZE
    ensures KeystreamByte(suite, Ctr(key, nonce, TAG_SIZE * counter), i) ==
              suite.cipher(key, CounterBlock(nonce, counter))[i]
  {
    hide CounterBlock;
    assert (TAG_SIZE * counter + i) / TAG_SIZE == counter;
  }

  lemma ProcessedBlock(suite: Suite, key: Bytes, nonce: Nonce, counter: nat, data: Bytes)
    requires |data| <= TAG_SIZE
    ensures Processed(suite, Ctr(key, nonce, TAG_SIZE * counter), data)
         == XorBytes(data, suite.cipher(key, CounterBlock(nonce, counter))[..|data|])
  {
    hide CounterBlock, KeystreamByte, XorByte;
    forall i | 0 <= i < |data|
      ensures KeystreamByte(suite, Ctr(key, nonce, TAG_SIZE * counter), i) ==
                suite.cipher(key, CounterBlock(nonce, counter))[i]
    {
      KeystreamOfBlock(suite, key, nonce, counter, i);
    }
  }

  /** The keystream from a block boundary on is GCTR from that counter. */
  lemma {:induction false} ProcessedIsGctr(suite: Suite, key: Bytes, nonce: Nonce, counter: nat, data: Bytes)
    ensures Processed(suite, Ctr(key, nonce, TAG_SIZE * counter), data) ==
              Gctr(suite, key, CounterBlock(nonce, counter), data)
    decreases |data|
  {
    hide Processed, CounterBlock, Increment32, XorBytes;
    if |data| <= TAG_SIZE {
      ProcessedBlock(suite, key, nonce, counter, data);
    } else {
      var ctr := Ctr(key, nonce, TAG_SIZE * counter);
      assert data == data[..TAG_SIZE] + data[TAG_SIZE..];
      ProcessedSplits(suite, ctr, data[..TAG_SIZE], data[TAG_SIZE..]);
      ProcessedBlock(suite, key, nonce, counter, data[..TAG_SIZE]);
      assert suite.cipher(key, CounterBlock(nonce, counter))[..TAG_SIZE] ==
               suite.cipher(key, CounterBlock(nonce, counter));
      NextCounter(nonce, counter);
      ProcessedIsGctr(suite, key, nonce, counter + 1, data[TAG_SIZE..]);
    }
  }

  lemma XorZero(block: Block)
    ensures XorBytes(ZERO_BLOCK, block) == block
  {
    XorCommutes(ZERO_BLOCK, block);
    forall i | 0 <= i < TAG_SIZE
      ensures XorByte(block[i], 0) == block[i]
    {
      XorWithZero(block[i]);
    }
    assert XorBytes(block, ZERO_BLOCK) == block;
  }

  lemma {:induction false} XorWithZero(a: nat)
    ensures Xor(a, 0) == a
  {
    if a > 0 {
      XorWithZero(a / 2);
    }
  }

  /** The streaming form refines the one-shot form: for any division of the plaintext, the output and
      the tag are those of the standard's authenticated encryption. */
  lemma StreamIsStandard(suite: Suite, key: Bytes, nonce: Bytes, ad: Bytes, pieces: seq<Bytes>)
    requires Setup(suite, key, nonce, ad).Ok?
    ensures var (after, out) := EncryptedAll(suite, Setup(suite, key, nonce, ad).value, pieces);
      (out, Finalized(suite, after.ghash)) == StandardEncrypt(suite, key, nonce, ad, Joined(pieces))
  {
    hide Processed, Updated, EncryptedAll, Finalized, StandsFor, XorBytes, StandardGhash, LengthBlock, Padded,
         CounterBlock,
         Gctr, Increment32;
    var g := Setup(suite, key, nonce, ad).value;
    NewStandsFor(suite, g.ghash.h, g.ghash.pad, ad);
    EncryptedAllIs(suite, g, ad, pieces);
    var (after, out) := EncryptedAll(suite, g, pieces);
    FinalizedIsOneShot(suite, after.ghash, ad, out);
    FirstCounters(nonce);
    NextCounter(nonce, 1);
    ProcessedIsGctr(suite, key, nonce, 2, Joined(pieces));
    var j := suite.cipher(key, CounterBlock(nonce, 1));
    ProcessedBlock(suite, key, nonce, 1, ZERO_BLOCK);
    assert j[..TAG_SIZE] == j;
    XorZero(j);
    XorCommutes(j, StandardGhash(suite, g.ghash.h, Padded(ad) + Padded(out) + LengthBlock(|ad|, |out|)));
  }

  /** The length block holds the lengths themselves as long as they are below 2^61 bytes. */
  lemma LengthsAreExact(adLen: nat, msgLen: nat)
    requires adLen < 0x2000_0000_0000_0000 && msgLen < 0x2000_0000_0000_0000
    ensures FromBigEndian(LengthBlock(adLen, msgLen)[..8]) == 8 * adLen
            && FromBigEndian(LengthBlock(adLen, msgLen)[8..]) == 8 * msgLen
  {
    hide BigEndian, FromBigEndian, Power256;
    WordSizes();
    BigEndianIsRead(8 * adLen, 8);
    BigEndianIsRead(8 * msgLen, 8);
    assert LengthBlock(adLen, msgLen)[..8] == BigEndian(8 * adLen, 8)
           && LengthBlock(adLen, msgLen)[8..] == BigEndian(8 * msgLen, 8);
  }

  // ------------------------------------------------------------- the objects

  class Aes256Ctr32 {
    const suite: Suite
    const key: Bytes
    const nonce: Nonce
    var pos: nat

    constructor (suite: Suite, key: Bytes, nonce: Nonce, counter: u32)
      ensures this.suite == suite && View() == Ctr(key, nonce, TAG_SIZE * counter)
    {
      this.suite, this.key, this.nonce, this.pos := suite, key, nonce, TAG_SIZE * counter;
    }

    function View(): Ctr
      reads this
    {
      Ctr(key, nonce, pos)
    }

    method Process(buf: array<byte>)
      modifies this, buf
      ensures buf[..] == Processed(suite, old(View()), old(buf[..])) && View() == Advanced(old(View()), buf.Length)
    {
      forall i | 0 <= i < buf.Length {
        buf[i] := XorByte(buf[i], KeystreamByte(suite, View(), i));
      }
      pos := pos + buf.Length;
    }
  }

  class GcmGhash {
    const suite: Suite
    const h: Block
    const ghashPad: Block
    const msgBuf: array<byte>
    const adLen: nat
    var ghash: Block
    var msgBufOffset: nat
    var msgLen: nat

    ghost predicate Valid()
      reads this
    {
      msgBuf.Length == TAG_SIZE && msgBufOffset < TAG_SIZE
    }

    function View(): Ghash
      requires Valid()
      reads this, msgBuf
    {
      Ghash(h, ghash, ghashPad, msgBuf[..msgBufOffset], adLen, msgLen)
    }

    constructor (suite: Suite, h: Block, ghashPad: Block, associatedData: Bytes)
      ensures Valid() && fresh(msgBuf) && this.suite == suite && View() == NewGhash(suite, h, ghashPad, associatedData)
    {
      this.suite, this.h, this.ghashPad, this.adLen := suite, h, ghashPad, |associatedData|;
      ghash := Absorb(suite, h, ZERO_BLOCK, Padded(associatedData));
      msgBuf := new byte[TAG_SIZE](_ => 0);
      msgBufOffset, msgLen := 0, 0;
    }

    /** `copy_from_slice` into the buffer from `offset` on. */
    method CopyFromSlice(offset: nat, slice: Bytes)
      requires offset + |slice| <= msgBuf.Length
      modifies msgBuf
      ensures msgBuf[..offset + |slice|] == old(msgBuf[..offset]) + slice
      ensures offset == 0 ==> msgBuf[..|slice|] == slice
    {
      forall i | 0 <= i < |slice| {
        msgBuf[offset + i] := slice[i];
      }
    }

    method Update(msg: Bytes)
      requires Valid()
      modifies this, msgBuf
      ensures Valid() && View() == Updated(suite, old(View()), msg)
      decreases |msg|, msgBufOffset
    {
      if msgBufOffset > 0 {
        UpdatedFills(suite, View(), msg);
        hide Updated, Absorb;
        var taking := Min(|msg|, TAG_SIZE - msgBufOffset);
        CopyFromSlice(msgBufOffset, msg[..taking]);
        msgBufOffset := msgBufOffset + taking;
        msgLen := msgLen + taking;
        if msgBufOffset == TAG_SIZE {
          assert msgBuf[..] == msgBuf[..TAG_SIZE];
          ghash := Absorb(suite, h, ghash, msgBuf[..]);
          msgBufOffset := 0;
          Update(msg[taking..]);
        }
        return;
      }
      UpdatedWhole(suite, View(), msg);
      hide Updated;
      msgLen := msgLen + |msg|;
      var fullBlocks := |msg| / TAG_SIZE;
      var leftover := |msg| - TAG_SIZE * fullBlocks;
      hide Absorb;
      if fullBlocks > 0 {
        ghash := Absorb(suite, h, ghash, msg[..TAG_SIZE * fullBlocks]);
      } else {
        NoBlocks(suite, h, ghash);
        assert msg[..TAG_SIZE * fullBlocks] == [];
      }
      CopyFromSlice(0, msg[TAG_SIZE * fullBlocks..]);
      msgBufOffset := leftover;
    }

    method Finalize() returns (tag: Block)
      requires Valid()
      ensures tag == Finalized(suite, View())
    {
      var hash := ghash;
      if msgBufOffset > 0 {
        hash := Absorb(suite, h, hash, Padded(msgBuf[..msgBufOffset]));
      }
      hash := Absorb(suite, h, hash, LengthBlock(adLen, msgLen));
      return XorBytes(hash, ghashPad);
    }
  }

  lemma NoBlocks(suite: Suite, h: Block, y: Block)
    ensures Absorb(suite, h, y, []) == y
  {
  }

  method SetupGcm(suite: Suite, key: Bytes, nonce: Bytes,
                  associatedData: Bytes) returns (r: Result<(Aes256Ctr32, GcmGhash)>)
    ensures match Setup(suite, key, nonce, associatedData)
      case Err(e) => r == Err(e)
      case Ok(g) =>
        r.Ok? && fresh(r.value.0) && fresh(r.value.1) && fresh(r.value.1.msgBuf) && r.value.1.Valid()
        && r.value.0.suite == suite && r.value.1.suite == suite && g == Gcm(r.value.0.View(), r.value.1.View())
  {
    if |nonce| != NONCE_SIZE {
      return Err(InvalidNonceSize);
    }
    if |key| != KEY_SIZE {
      return Err(InvalidKeySize);
    }
    var h := suite.cipher(key, ZERO_BLOCK);
    var ctr := new Aes256Ctr32(suite, key, nonce, 1);
    var ghashPad := new byte[TAG_SIZE](_ => 0);
    assert ghashPad[..] == ZERO_BLOCK;
    ctr.Process(ghashPad);
    var ghash := new GcmGhash(suite, h, ghashPad[..], associatedData);
    return Ok((ctr, ghash));
  }

  class Aes256GcmEncryption {
    const ctr: Aes256Ctr32
    const ghash: GcmGhash

    ghost predicate Valid()
      reads this, ghash
    {
      ghash.Valid() && ctr.suite == ghash.suite
    }

    function View(): Gcm
      requires Valid()
      reads this, ctr, ghash, ghash.msgBuf
    {
      Gcm(ctr.View(), ghash.View())
    }

    constructor (ctr: Aes256Ctr32, ghash: GcmGhash)
      requires ghash.Valid() && ctr.suite == ghash.suite
      ensures Valid() && this.ctr == ctr && this.ghash == ghash
    {
      this.ctr, this.ghash := ctr, ghash;
    }

    /** Rewrites the caller's buffer; what is hashed is the output. */
    method EncryptBuffer(buf: array<byte>)
      requires Valid() && buf != ghash.msgBuf
      modifies ctr, ghash, ghash.msgBuf, buf
      ensures Valid() && (View(), buf[..]) == Encrypt(ghash.suite, old(View()), old(buf[..]))
    {
      hide Updated, Processed;
      ctr.Process(buf);
      ghash.Update(buf[..]);
    }

    method ComputeTag() returns (tag: Block)
      requires Valid()
      ensures tag == Finalized(ghash.suite, View().ghash)
    {
      tag := ghash.Finalize();
    }
  }

  class Aes256GcmDecryption {
    const ctr: Aes256Ctr32
    const ghash: GcmGhash

    ghost predicate Valid()
      reads this, ghash
    {
      ghash.Valid() && ctr.suite == ghash.suite
    }

    function View(): Gcm
      requires Valid()
      reads this, ctr, ghash, ghash.msgBuf
    {
      Gcm(ctr.View(), ghash.View())
    }

    constructor (ctr: Aes256Ctr32, ghash: GcmGhash)
      requires ghash.Valid() && ctr.suite == ghash.suite
      ensures Valid() && this.ctr == ctr && this.ghash == ghash
    {
      this.ctr, this.ghash := ctr, ghash;
    }

    /** What is hashed is the input, before the caller's buffer is rewritten. */
    method DecryptBuffer(buf: array<byte>)
      requires Valid() && buf != ghash.msgBuf
      modifies ctr, ghash, ghash.msgBuf, buf
      ensures Valid() && (View(), buf[..]) == Decrypt(ghash.suite, old(View()), old(buf[..]))
    {
      hide Updated, Processed;
      ghash.Update(buf[..]);
      ctr.Process(buf);
    }

    method VerifyTag(tag: Bytes) returns (r: Result<()>)
      requires Valid()
      ensures r == Verified(ghash.suite, View(), tag)
    {
      if |tag| != TAG_SIZE {
        return Err(InvalidTag);
      }
      var computed := ghash.Finalize();
      if tag != computed {
        return Err(InvalidTag);
      }
      return Ok(());
    }
  }
}

/**
  Cipher modes over an arbitrary invertible sixteen-byte block function: CBC and CTR as in
  sections 6.2 and 6.5 of NIST SP 800-38A, and ECB as the loop of camera/native_miss.go:312-322.
*/
module BlockModes {
  import opened Bytes

  const BLOCK := 16

  /** The block cipher under one key. */
  datatype Cipher = Cipher(enc: Bytes -> Bytes, dec: Bytes -> Bytes)

  /** Both directions keep the block length, and decryption undoes encryption. */
  ghost predicate Lawful(c: Cipher)
  {
    && (forall b: Bytes {:trigger c.enc(b)} :: |b| == BLOCK ==> |c.enc(b)| == BLOCK && c.dec(c.enc(b)) == b)
    && (forall b: Bytes {:trigger c.dec(b)} :: |b| == BLOCK ==> |c.dec(b)| == BLOCK)
  }

  // ---------------------------------------------------------------- exclusive or

  /** Bitwise exclusive or of the low `bits` bits. */
  function XorBits(a: nat, b: nat, bits: nat): (r: nat)
  {
    if bits == 0 then 0 else (a % 2 + b % 2) % 2 + 2 * XorBits(a / 2, b / 2, bits - 1)
  }

  lemma {:induction false} XorRange(a: nat, b: nat, bits: nat)
    ensures XorBits(a, b, bits) < Pow2(bits)
  {
    if bits > 0 {
      XorRange(a / 2, b / 2, bits - 1);
    }
  }

  lemma {:induction false} XorUndone(a: nat, b: nat, bits: nat)
    requires a < Pow2(bits)
    ensures XorBits(XorBits(a, b, bits), b, bits) == a
  {
    if bits > 0 {
      var x := XorBits(a, b, bits);
      assert x / 2 == XorBits(a / 2, b / 2, bits - 1) && x % 2 == (a % 2 + b % 2) % 2;
      XorUndone(a / 2, b / 2, bits - 1);
    }
  }

  lemma EightBits()
    ensures Pow2(8) == 256
  {
    assert Pow2(4) == 16 && Pow2(5) == 32 && Pow2(6) == 64 && Pow2(7) == 128;
  }

  function Xor(a: byte, b: byte): (r: byte)
    ensures XorBits(r, b, 8) == a
  {
    EightBits();
    XorRange(a, b, 8);
    XorUndone(a, b, 8);
    XorBits(a, b, 8)
  }

  /** Exclusive or of a text with the key stream at the same positions. */
  function XorBytes(text: Bytes, key: Bytes): (r: Bytes)
    requires |key| >= |text|
    ensures |r| == |text|
  {
    seq(|text|, i requires 0 <= i < |text| => Xor(text[i], key[i]))
  }

  lemma XorBytesUndone(text: Bytes, key: Bytes)
    requires |key| >= |text|
    ensures XorBytes(XorBytes(text, key), key) == text
  {
  }

  // ---------------------------------------------------------------- cipher block chaining

  function CbcEncrypt(c: Cipher, iv: Bytes, text: Bytes): Bytes
    requires |iv| >= BLOCK
    decreases |text|
  {
    if |text| < BLOCK then []
    else
      var block := c.enc(XorBytes(text[..BLOCK], iv));
      if |block| != BLOCK then [] else block + CbcEncrypt(c, block, text[BLOCK..])
  }

  function CbcDecrypt(c: Cipher, iv: Bytes, text: Bytes): Bytes
    requires |iv| >= BLOCK
    decreases |text|
  {
    if |text| < BLOCK then []
    else
      var block := c.dec(text[..BLOCK]);
      if |block| != BLOCK then [] else XorBytes(block, iv) + CbcDecrypt(c, text[..BLOCK], text[BLOCK..])
  }

  lemma ModStep(n: nat)
    requires n % BLOCK == 0 && n > 0
    ensures n >= BLOCK && (n - BLOCK) % BLOCK == 0
  {
  }

  lemma {:induction false} CbcLength(c: Cipher, iv: Bytes, text: Bytes)
    requires Lawful(c) && |iv| >= BLOCK && |text| % BLOCK == 0
    ensures |CbcEncrypt(c, iv, text)| == |text|
    ensures |CbcDecrypt(c, iv, text)| == |text|
    decreases |text|
  {
    if text != [] {
      ModStep(|text|);
      CbcLength(c, c.enc(XorBytes(text[..BLOCK], iv)), text[BLOCK..]);
      CbcLength(c, text[..BLOCK], text[BLOCK..]);
    }
  }

  lemma {:induction false} CbcInverse(c: Cipher, iv: Bytes, text: Bytes)
    requires Lawful(c) && |iv| >= BLOCK && |text| % BLOCK == 0
    ensures CbcDecrypt(c, iv, CbcEncrypt(c, iv, text)) == text
    decreases |text|
  {
    if text != [] {
      ModStep(|text|);
      var block := c.enc(XorBytes(text[..BLOCK], iv));
      var rest := CbcEncrypt(c, block, text[BLOCK..]);
      CbcInverse(c, block, text[BLOCK..]);
      XorBytesUndone(text[..BLOCK], iv);
      assert (block + rest)[..BLOCK] == block && (block + rest)[BLOCK..] == rest;
      assert text == text[..BLOCK] + text[BLOCK..];
    }
  }

  // ---------------------------------------------------------------- electronic code book

  function Ecb(f: Bytes -> Bytes, text: Bytes): Bytes
    decreases |text|
  {
    if |text| < BLOCK then [] else f(text[..BLOCK]) + Ecb(f, text[BLOCK..])
  }

  lemma EcbStep(f: Bytes -> Bytes, text: Bytes)
    requires |text| >= BLOCK
    ensures Ecb(f, text) == f(text[..BLOCK]) + Ecb(f, text[BLOCK..])
  {
  }

  lemma {:induction false} EcbInverse(c: Cipher, text: Bytes)
    requires Lawful(c) && |text| % BLOCK == 0
    ensures Ecb(c.dec, Ecb(c.enc, text)) == text
    ensures |Ecb(c.enc, text)| == |text|
    decreases |text|
  {
    if text != [] {
      ModStep(|text|);
      hide Ecb;
      var block, rest := c.enc(text[..BLOCK]), Ecb(c.enc, text[BLOCK..]);
      EcbInverse(c, text[BLOCK..]);
      EcbStep(c.enc, text);
      assert (block + rest)[..BLOCK] == block && (block + rest)[BLOCK..] == rest;
      EcbStep(c.dec, block + rest);
      assert text == text[..BLOCK] + text[BLOCK..];
    } else {
      EcbOfNothing(c.enc);
      EcbOfNothing(c.dec);
    }
  }

  // ---------------------------------------------------------------- counter mode

  /** The counter block `i` blocks after `iv`, as a 128-bit big-endian number that wraps. */
  function Counter(iv: Bytes, i: nat): (block: Bytes)
    ensures |block| == BLOCK
  {
    ToBE(FromBE(iv) + i, BLOCK)
  }

  function CtrByte(c: Cipher, iv: Bytes, k: nat): byte
  {
    var block := c.enc(Counter(iv, k / BLOCK));
    if |block| == BLOCK then block[k % BLOCK] else 0
  }

  /** Key stream of `n` bytes. */
  function CtrStream(c: Cipher, iv: Bytes, n: nat): (s: Bytes)
    ensures |s| == n
  {
    seq(n, k requires 0 <= k => CtrByte(c, iv, k))
  }

  // ---------------------------------------------------------------- block by block

  /** Block `k` of a text. */
  function BlockOf(s: Bytes, k: nat): (b: Bytes)
    requires BLOCK * (k + 1) <= |s|
    ensures |b| == BLOCK
  {
    s[BLOCK * k..BLOCK * (k + 1)]
  }

  lemma FirstBlock(block: Bytes, rest: Bytes)
    requires |block| == BLOCK
    ensures BlockOf(block + rest, 0) == block
  {
  }

  lemma LaterBlock(block: Bytes, rest: Bytes, k: nat)
    requires |block| == BLOCK && k > 0 && BLOCK * k <= |rest|
    ensures BlockOf(block + rest, k) == BlockOf(rest, k - 1)
  {
  }

  lemma BlocksOf(text: Bytes, k: nat)
    requires BLOCK * (k + 1) <= |text|
    ensures k == 0 ==> BlockOf(text, k) == text[..BLOCK]
    ensures k > 0 ==> BLOCK * k <= |text[BLOCK..]| && BlockOf(text, k) == BlockOf(text[BLOCK..], k - 1)
  {
    assert text == text[..BLOCK] + text[BLOCK..];
    if k > 0 {
      LaterBlock(text[..BLOCK], text[BLOCK..], k);
    }
  }

  /** Each block is encrypted after exclusive or with the ciphertext block before it, the first with the vector. */
  lemma {:induction false} CbcChains(c: Cipher, iv: Bytes, text: Bytes, k: nat)
    requires Lawful(c) && |iv| == BLOCK && |text| % BLOCK == 0 && BLOCK * (k + 1) <= |text|
    ensures var out := CbcEncrypt(c, iv, text);
            |out| == |text| &&
            BlockOf(out, k) == c.enc(XorBytes(BlockOf(text, k), if k == 0 then iv else BlockOf(out, k - 1)))
    decreases |text|
  {
    var block := c.enc(XorBytes(text[..BLOCK], iv));
    var rest := CbcEncrypt(c, block, text[BLOCK..]);
    CbcLength(c, iv, text);
    CbcLength(c, block, text[BLOCK..]);
    BlocksOf(text, k);
    FirstBlock(block, rest);
    if k > 0 {
      CbcChains(c, block, text[BLOCK..], k - 1);
      LaterBlock(block, rest, k);
      if k > 1 {
        LaterBlock(block, rest, k - 1);
      }
    }
  }

  lemma {:induction false} CbcUnchains(c: Cipher, iv: Bytes, text: Bytes, k: nat)
    requires Lawful(c) && |iv| == BLOCK && |text| % BLOCK == 0 && BLOCK * (k + 1) <= |text|
    ensures var out := CbcDecrypt(c, iv, text);
            |out| == |text| &&
            BlockOf(out, k) == XorBytes(c.dec(BlockOf(text, k)), if k == 0 then iv else BlockOf(text, k - 1))
    decreases |text|
  {
    var block := XorBytes(c.dec(text[..BLOCK]), iv);
    var rest := CbcDecrypt(c, text[..BLOCK], text[BLOCK..]);
    CbcLength(c, iv, text);
    CbcLength(c, text[..BLOCK], text[BLOCK..]);
    BlocksOf(text, k);
    FirstBlock(block, rest);
    if k > 0 {
      CbcUnchains(c, text[..BLOCK], text[BLOCK..], k - 1);
      LaterBlock(block, rest, k);
      BlocksOf(text, k - 1);
    }
  }

  /** A text of whole blocks is determined by them. */
  lemma BlocksDetermine(a: Bytes, b: Bytes)
    requires |a| == |b| && |a| % BLOCK == 0
    requires forall k: nat :: BLOCK * (k + 1) <= |a| ==> BlockOf(a, k) == BlockOf(b, k)
    ensures a == b
  {
    forall i | 0 <= i < |a|
      ensures a[i] == b[i]
    {
      var k := i / BLOCK;
      assert BLOCK * (k + 1) <= |a|;
      assert BlockOf(a, k)[i % BLOCK] == a[i] && BlockOf(b, k)[i % BLOCK] == b[i];
    }
  }

  lemma {:induction false} EcbBlocks(f: Bytes -> Bytes, text: Bytes, k: nat)
    requires (forall b: Bytes :: |b| == BLOCK ==> |f(b)| == BLOCK) && |text| % BLOCK == 0 && BLOCK * (k + 1) <= |text|
    ensures |Ecb(f, text)| == |text| && BlockOf(Ecb(f, text), k) == f(BlockOf(text, k))
    decreases |text|
  {
    var block, rest := f(text[..BLOCK]), Ecb(f, text[BLOCK..]);
    EcbStep(f, text);
    BlocksOf(text, k);
    FirstBlock(block, rest);
    if k > 0 {
      EcbBlocks(f, text[BLOCK..], k - 1);
      LaterBlock(block, rest, k);
    } else if |text| > BLOCK {
      EcbBlocks(f, text[BLOCK..], 0);
    } else {
      EcbOfNothing(f);
      assert text[BLOCK..] == [];
    }
  }

  lemma PositionInBlock(k: nat, i: nat)
    requires i < BLOCK
    ensures (BLOCK * k + i) / BLOCK == k && (BLOCK * k + i) % BLOCK == i
  {
  }

  lemma StreamByte(c: Cipher, iv: Bytes, n: nat, k: nat, i: nat)
    requires BLOCK * (k + 1) <= n && i < BLOCK && |c.enc(Counter(iv, k))| == BLOCK
    ensures CtrStream(c, iv, n)[BLOCK * k + i] == c.enc(Counter(iv, k))[i]
  {
    hide Counter;
    PositionInBlock(k, i);
  }

  /** The counter is the vector as a number, plus the block's index, modulo 2^128. */
  lemma CounterValue(iv: Bytes, k: nat)
    ensures FromBE(Counter(iv, k)) == (FromBE(iv) + k) % Pow256(16)
  {
    hide FromBE, ToBE, Pow256;
    FromToBEMod(FromBE(iv) + k, BLOCK);
  }

  /** Block `k` of the key stream encrypts the counter. */
  lemma CtrCounts(c: Cipher, iv: Bytes, n: nat, k: nat)
    requires Lawful(c) && BLOCK * (k + 1) <= n
    ensures BlockOf(CtrStream(c, iv, n), k) == c.enc(Counter(iv, k))
  {
    hide Counter, CtrStream;
    var block := c.enc(Counter(iv, k));
    assert |block| == BLOCK;
    hide Lawful;
    forall i | 0 <= i < BLOCK
      ensures BlockOf(CtrStream(c, iv, n), k)[i] == block[i]
    {
      StreamByte(c, iv, n, k, i);
    }
  }

  /** Bit `k` of a byte. */
  predicate Bit(b: nat, k: nat)
  {
    if k == 0 then b % 2 == 1 else Bit(b / 2, k - 1)
  }

  /** A bit of the exclusive or is set exactly when the two bits differ. */
  lemma {:induction false} XorBit(a: nat, b: nat, bits: nat, k: nat)
    requires k < bits
    ensures Bit(XorBits(a, b, bits), k) <==> (Bit(a, k) != Bit(b, k))
  {
    var x := XorBits(a, b, bits);
    assert x / 2 == XorBits(a / 2, b / 2, bits - 1) && x % 2 == (a % 2 + b % 2) % 2;
    if k > 0 {
      XorBit(a / 2, b / 2, bits - 1, k - 1);
    }
  }

  // ---------------------------------------------------------------- the loops, in place

  method PutBlock(data: array<byte>, offset: nat, block: Bytes)
    requires |block| == BLOCK && offset + BLOCK <= data.Length
    modifies data
    ensures data[..] == old(data[..offset]) + block + old(data[offset + BLOCK..])
  {
    for i := 0 to BLOCK
      invariant forall k :: 0 <= k < i ==> data[offset + k] == block[k]
      invariant forall k :: 0 <= k < offset ==> data[k] == old(data[k])
      invariant forall k :: offset + BLOCK <= k < data.Length ==> data[k] == old(data[k])
    {
      data[offset + i] := block[i];
    }
  }

  /** The buffer at the top of a loop: what was skipped, what is done, what is still to do. */
  ghost predicate Laid(all: Bytes, head: Bytes, done: Bytes, rest: Bytes, from: nat, offset: nat)
  {
    all == head + done + rest && |head| == from && |done| == offset - from && |rest| % BLOCK == 0
  }

  lemma NextBlock(all: Bytes, head: Bytes, done: Bytes, rest: Bytes, from: nat, offset: nat)
    requires Laid(all, head, done, rest, from, offset) && offset < |all|
    ensures |rest| >= BLOCK && offset + BLOCK <= |all|
    ensures all[offset..offset + BLOCK] == rest[..BLOCK]
    ensures all[..offset] == head + done && all[offset + BLOCK..] == rest[BLOCK..]
  {
    ModStep(|rest|);
  }

  lemma BlockDone(all: Bytes, head: Bytes, done: Bytes, block: Bytes, rest: Bytes, from: nat, offset: nat)
    requires |rest| >= BLOCK && |rest| % BLOCK == 0 && |head| == from && |done| == offset - from && |block| == BLOCK
    requires all == (head + done) + block + rest[BLOCK..]
    ensures Laid(all, head, done + block, rest[BLOCK..], from, offset + BLOCK)
  {
    ModStep(|rest|);
    Assoc(head, done, block);
  }

  lemma LaidOut(all: Bytes, head: Bytes, done: Bytes, rest: Bytes, from: nat, offset: nat)
    requires Laid(all, head, done, rest, from, offset) && offset >= |all|
    ensures rest == [] && all[..from] == head && all[from..] == done
  {
    assert all == head + done;
  }

  /** Encrypts `data[from..]` block by block where it stands. */
  method CbcEncryptInPlace(c: Cipher, iv: Bytes, data: array<byte>, from: nat)
    requires Lawful(c) && |iv| == BLOCK && from <= data.Length && (data.Length - from) % BLOCK == 0
    modifies data
    ensures data[..from] == old(data[..from])
    ensures data[from..] == CbcEncrypt(c, iv, old(data[from..]))
  {
    hide CbcEncrypt;
    ghost var head, done, rest := data[..from], [], data[from..];
    assert data[..] == head + done + rest;
    var offset, prev := from, iv;
    while offset < data.Length
      invariant from <= offset && |prev| == BLOCK
      invariant Laid(data[..], head, done, rest, from, offset)
      invariant done + CbcEncrypt(c, prev, rest) == CbcEncrypt(c, iv, old(data[from..]))
      decreases data.Length - offset
    {
      NextBlock(data[..], head, done, rest, from, offset);
      var block := c.enc(XorBytes(data[offset..offset + BLOCK], prev));
      CbcEncryptStep(c, prev, rest, done);
      PutBlock(data, offset, block);
      BlockDone(data[..], head, done, block, rest, from, offset);
      done, rest := done + block, rest[BLOCK..];
      prev := block;
      offset := offset + BLOCK;
    }
    LaidOut(data[..], head, done, rest, from, offset);
    CbcOfNothing(c, prev);
  }

  lemma CbcEncryptStep(c: Cipher, prev: Bytes, rest: Bytes, done: Bytes)
    requires Lawful(c) && |prev| == BLOCK && |rest| >= BLOCK
    ensures var block := c.enc(XorBytes(rest[..BLOCK], prev));
            |block| == BLOCK &&
            done + CbcEncrypt(c, prev, rest) == (done + block) + CbcEncrypt(c, block, rest[BLOCK..])
  {
    var block := c.enc(XorBytes(rest[..BLOCK], prev));
    Assoc(done, block, CbcEncrypt(c, block, rest[BLOCK..]));
  }

  lemma CbcDecryptStep(c: Cipher, prev: Bytes, rest: Bytes, done: Bytes)
    requires Lawful(c) && |prev| == BLOCK && |rest| >= BLOCK
    ensures var block := c.dec(rest[..BLOCK]);
            |block| == BLOCK &&
            done + CbcDecrypt(c, prev, rest) ==
              (done + XorBytes(block, prev)) + CbcDecrypt(c, rest[..BLOCK], rest[BLOCK..])
  {
    var plain := XorBytes(c.dec(rest[..BLOCK]), prev);
    Assoc(done, plain, CbcDecrypt(c, rest[..BLOCK], rest[BLOCK..]));
  }

  lemma CbcOfNothing(c: Cipher, prev: Bytes)
    requires |prev| == BLOCK
    ensures CbcEncrypt(c, prev, []) == [] && CbcDecrypt(c, prev, []) == []
  {
  }

  /** Decrypts `data[from..]` where it stands, keeping each ciphertext block for the next one. */
  method CbcDecryptInPlace(c: Cipher, iv: Bytes, data: array<byte>, from: nat)
    requires Lawful(c) && |iv| == BLOCK && from <= data.Length && (data.Length - from) % BLOCK == 0
    modifies data
    ensures data[..from] == old(data[..from])
    ensures data[from..] == CbcDecrypt(c, iv, old(data[from..]))
  {
    hide CbcDecrypt;
    ghost var head, done, rest := data[..from], [], data[from..];
    assert data[..] == head + done + rest;
    var offset, prev := from, iv;
    while offset < data.Length
      invariant from <= offset && |prev| == BLOCK
      invariant Laid(data[..], head, done, rest, from, offset)
      invariant done + CbcDecrypt(c, prev, rest) == CbcDecrypt(c, iv, old(data[from..]))
      decreases data.Length - offset
    {
      NextBlock(data[..], head, done, rest, from, offset);
      var cipherBlock := data[offset..offset + BLOCK];
      CbcDecryptStep(c, prev, rest, done);
      var plain := XorBytes(c.dec(cipherBlock), prev);
      PutBlock(data, offset, plain);
      BlockDone(data[..], head, done, plain, rest, from, offset);
      done, rest := done + plain, rest[BLOCK..];
      prev := cipherBlock;
      offset := offset + BLOCK;
    }
    LaidOut(data[..], head, done, rest, from, offset);
    CbcOfNothing(c, prev);
  }

  /** Applies a block function to each block of `data[from..]` where it stands. */
  method EcbInPlace(f: Bytes -> Bytes, data: array<byte>, from: nat)
    requires forall b: Bytes :: |b| == BLOCK ==> |f(b)| == BLOCK
    requires from <= data.Length && (data.Length - from) % BLOCK == 0
    modifies data
    ensures data[..from] == old(data[..from])
    ensures data[from..] == Ecb(f, old(data[from..]))
  {
    hide Ecb;
    ghost var head, done, rest := data[..from], [], data[from..];
    assert data[..] == head + done + rest;
    var offset := from;
    while offset < data.Length
      invariant from <= offset
      invariant Laid(data[..], head, done, rest, from, offset)
      invariant done + Ecb(f, rest) == Ecb(f, old(data[from..]))
      decreases data.Length - offset
    {
      NextBlock(data[..], head, done, rest, from, offset);
      var block := f(data[offset..offset + BLOCK]);
      EcbStep(f, rest);
      Assoc(done, block, Ecb(f, rest[BLOCK..]));
      PutBlock(data, offset, block);
      BlockDone(data[..], head, done, block, rest, from, offset);
      done, rest := done + block, rest[BLOCK..];
      offset := offset + BLOCK;
    }
    LaidOut(data[..], head, done, rest, from, offset);
    EcbOfNothing(f);
  }

  lemma EcbOfNothing(f: Bytes -> Bytes)
    ensures Ecb(f, []) == []
  {
  }

  /** Exclusive or of `data[from..]` with a key stream, where it stands. */
  method XorInPlace(data: array<byte>, from: nat, key: Bytes)
    requires from <= data.Length && |key| == data.Length - from
    modifies data
    ensures data[..from] == old(data[..from])
    ensures data[from..] == XorBytes(old(data[from..]), key)
  {
    ghost var text := data[from..];
    for i := 0 to |key|
      invariant forall k :: 0 <= k < from ==> data[k] == old(data[k])
      invariant forall k :: 0 <= k < i ==> data[from + k] == Xor(text[k], key[k])
      invariant forall k :: i <= k < |key| ==> data[from + k] == text[k]
    {
      data[from + i] := Xor(data[from + i], key[i]);
    }
  }
}

/**
  The bytes on the wire, position by position, as a peer written by others reads and writes them: LAN
  packets (lan_types.go:175-199), MISS payloads (camera/native_miss.go:234-331), MIPS envelopes
  (mips_types.go:143-213), CS2 frames (camera/native_cs2.go:344-363) and Annex B streams
  (camera/probe_stream.go:483-494).
*/
module WireFormats {
  import opened Wrappers
  import opened Bytes
  import opened BlockModes
  import AnnexB
  import Cs2Channel
  import Decimal
  import LanPacket
  import MipsEnvelope
  import MissPayload
  import Pkcs7

  // ---------------------------------------------------------------- LAN packets

  /** Sixteen bytes of header for a packet of some length: magic, length, device identifier, time offset. */
  predicate LanHead(h: Bytes, length: nat, did: nat, offset: nat)
  {
    && |h| == 16 && h[0] == 0x21 && h[1] == 0x31
    && FromBE(h[2..4]) == length % 0x1_0000
    && FromBE(h[4..12]) == did && FromBE(h[12..16]) == offset
  }

  lemma HeadBytes(d: LanPacket.Device, did: uint64, length: nat)
    ensures LanHead(LanPacket.Head(d, did, length), length, did, d.offset)
  {
    var h := LanPacket.Head(d, did, length);
    LanPacket.HeadFields(d, did, length);
    MagicBytes(h);
    PowValues();
    FromToBE(d.offset, 4);
    OffsetField(d, did, length);
    hide FromBE, ToBE;
    assert h[12..16] == ToBE(d.offset, 4);
  }

  lemma OffsetField(d: LanPacket.Device, did: uint64, length: nat)
    ensures LanPacket.Head(d, did, length)[12..16] == ToBE(d.offset, 4)
  {
    hide ToBE;
    var h := LanPacket.Head(d, did, length);
    assert h[12..] == ToBE(d.offset, 4) && h[12..][..4] == h[12..16];
  }

  /** The magic number read big-endian is its two bytes. */
  lemma MagicBytes(s: Bytes)
    requires |s| >= 2
    ensures FromBE(s[..2]) == 0x2131 <==> s[0] == 0x21 && s[1] == 0x31
  {
    BigEndian(s[..2]);
  }

  /** Sixteen bytes of the encrypted text each: block `k` and the one before it. */
  predicate ChainedBlock(c: Cipher, iv: Bytes, clear: Bytes, out: Bytes, k: nat)
    requires |iv| == 16 && |clear| == |out| && 16 * (k + 1) <= |out|
  {
    BlockOf(out, k) == c.enc(XorBytes(BlockOf(clear, k), if k == 0 then iv else BlockOf(out, k - 1)))
  }

  /** One to sixteen bytes are appended, each of them their number, to a multiple of sixteen. */
  predicate PaddedTo16(text: Bytes, padded: Bytes)
  {
    && text <= padded && |padded| % 16 == 0 && 1 <= |padded| - |text| <= 16
    && forall i :: |text| <= i < |padded| ==> padded[i] == |padded| - |text|
  }

  lemma PadMeaning(text: Bytes)
    ensures PaddedTo16(text, Pkcs7.Pad(text, 16))
  {
    var n := Pkcs7.PadLength(|text|, 16);
    assert Pkcs7.Pad(text, 16)[|text|..] == Pkcs7.Repeat(n, n);
  }

  /** A text has one such padding. */
  lemma PadUnique(text: Bytes, padded: Bytes)
    requires PaddedTo16(text, padded)
    ensures padded == Pkcs7.Pad(text, 16)
  {
    PadMeaning(text);
    var other := Pkcs7.Pad(text, 16);
    SameMultiple(|text|, |padded| - |text|, |other| - |text|);
    assert |padded| == |other|;
    hide Pkcs7.Pad;
  }

  lemma SameMultiple(n: nat, a: nat, b: nat)
    requires 1 <= a <= 16 && 1 <= b <= 16 && (n + a) % 16 == 0 && (n + b) % 16 == 0
    ensures a == b
  {
  }

  /**
    A LAN packet, whole: header, then the digest of the packet with the token in the digest's place, then the
    padded payload in CBC under the token's digest, with the digest of both as vector.
  */
  ghost predicate LanWire(x: LanPacket.Crypto, d: LanPacket.Device, did: nat, payload: Bytes, p: Bytes, padded: Bytes)
    requires LanPacket.Sound(x)
  {
    && |p| == 32 + |padded| && PaddedTo16(payload, padded)
    && LanHead(p[..16], |p|, did, d.offset)
    && p[16..32] == x.md5(p[..16] + d.token + p[32..])
    && forall k: nat :: 16 * (k + 1) <= |padded| ==>
         ChainedBlock(x.aes(x.md5(d.token)), x.md5(x.md5(d.token) + d.token), padded, p[32..], k)
  }

  lemma BuiltPacket(x: LanPacket.Crypto, d: LanPacket.Device, payload: Bytes)
    requires LanPacket.Sound(x) && |d.token| == 16
    ensures LanPacket.Build(x, d, payload).Some? <==> Decimal.ParseUint(d.did).Some?
    ensures Decimal.ParseUint(d.did).Some? ==>
              LanWire(x, d, Decimal.ParseUint(d.did).value, payload, LanPacket.Build(x, d, payload).value,
                Pkcs7.Pad(payload, 16))
  {
    if Decimal.ParseUint(d.did).Some? {
      var did := Decimal.ParseUint(d.did).value;
      var p, padded := LanPacket.Build(x, d, payload).value, Pkcs7.Pad(payload, 16);
      var encrypted := LanPacket.Encrypted(x, d, payload);
      LanPacket.BuiltFields(x, d, payload, []);
      LanPacket.EncryptedFacts(x, d, payload);
      HeadBytes(d, did, 32 + |encrypted|);
      PadMeaning(payload);
      assert p + [] == p;
      assert p[32..] == encrypted;
      EncryptedBlocks(x, d, payload);
    }
  }

  lemma EncryptedBlocks(x: LanPacket.Crypto, d: LanPacket.Device, payload: Bytes)
    requires LanPacket.Sound(x) && |d.token| == 16
    ensures var padded, out := Pkcs7.Pad(payload, 16), LanPacket.Encrypted(x, d, payload);
            |out| == |padded| && forall k: nat :: 16 * (k + 1) <= |padded| ==>
              ChainedBlock(x.aes(x.md5(d.token)), x.md5(x.md5(d.token) + d.token), padded, out, k)
  {
    var padded := Pkcs7.Pad(payload, 16);
    var c, iv := x.aes(x.md5(d.token)), x.md5(x.md5(d.token) + d.token);
    LanPacket.PadAligned(payload);
    CbcLength(c, iv, padded);
    hide CbcEncrypt, Pkcs7.Pad;
    forall k: nat | 16 * (k + 1) <= |padded|
      ensures ChainedBlock(c, iv, padded, LanPacket.Encrypted(x, d, payload), k)
    {
      CbcChains(c, iv, padded, k);
    }
  }

  ghost predicate UnchainedBlock(c: Cipher, iv: Bytes, clear: Bytes, out: Bytes, k: nat)
    requires Lawful(c) && |iv| == 16 && |clear| == |out| && 16 * (k + 1) <= |out|
  {
    BlockOf(clear, k) == XorBytes(c.dec(BlockOf(out, k)), if k == 0 then iv else BlockOf(out, k - 1))
  }

  /**
    A packet that the holder of the token takes for a text: magic, its own length, the digest over the token, and
    padded text when the rest is decrypted. Device identifier and offset may be anything.
  */
  ghost predicate Sealed(x: LanPacket.Crypto, token: Bytes, text: Bytes, p: Bytes, padded: Bytes)
    requires LanPacket.Sound(x)
  {
    && |p| == 32 + |padded| && PaddedTo16(text, padded)
    && p[0] == 0x21 && p[1] == 0x31 && FromBE(p[2..4]) == |p|
    && p[16..32] == x.md5(p[..16] + token + p[32..])
    && forall k: nat :: 16 * (k + 1) <= |padded| ==>
         UnchainedBlock(x.aes(x.md5(token)), x.md5(x.md5(token) + token), padded, p[32..], k)
  }

  lemma UnchainedIff(c: Cipher, iv: Bytes, clear: Bytes, out: Bytes)
    requires Lawful(c) && |iv| == 16 && |clear| == |out| && |out| % 16 == 0
    ensures (forall k: nat :: 16 * (k + 1) <= |out| ==> UnchainedBlock(c, iv, clear, out, k)) <==>
            clear == CbcDecrypt(c, iv, out)
  {
    var plain := CbcDecrypt(c, iv, out);
    CbcLength(c, iv, out);
    hide CbcDecrypt;
    forall k: nat | 16 * (k + 1) <= |out|
      ensures UnchainedBlock(c, iv, clear, out, k) <==> BlockOf(clear, k) == BlockOf(plain, k)
    {
      CbcUnchains(c, iv, out, k);
    }
    if forall k: nat :: 16 * (k + 1) <= |out| ==> UnchainedBlock(c, iv, clear, out, k) {
      BlocksDetermine(clear, plain);
    }
  }

  lemma SealedParses(x: LanPacket.Crypto, d: LanPacket.Device, text: Bytes, packet: Bytes, padded: Bytes)
    requires LanPacket.Sound(x) && |d.token| == 16 && 32 + |padded| <= |packet|
    requires Sealed(x, d.token, text, packet[..32 + |padded|], padded)
    ensures LanPacket.Parse(x, d, packet) == LanPacket.Message(TrimNul(text))
  {
    var p := packet[..32 + |padded|];
    var e := p[32..];
    var c, iv := x.aes(x.md5(d.token)), x.md5(x.md5(d.token) + d.token);
    PadUnique(text, padded);
    Pkcs7.UnpadPad(text, 16);
    UnchainedIff(c, iv, padded, e);
    MagicBytes(packet);
    assert packet[..2] == p[..2] && packet[2..4] == p[2..4] && packet[..16] == p[..16] && packet[16..32] == p[16..32];
    assert packet[32..32 + |e|] == e;
    hide FromBE, CbcDecrypt, Pkcs7.Unpad, Pkcs7.Pad, LanPacket.Parse, TrimNul;
    LanPacket.ParseFields(x, d, packet, e, padded);
  }

  /** What the parser has checked when it yields a text. */
  lemma ParsedFacts(x: LanPacket.Crypto, d: LanPacket.Device, packet: Bytes)
    requires LanPacket.Sound(x) && |d.token| == 16 && LanPacket.Parse(x, d, packet).Message?
    ensures |packet| >= 32 && packet[0] == 0x21 && packet[1] == 0x31
    ensures var length := FromBE(packet[2..4]);
            && 32 <= length <= |packet| && (length - 32) % 16 == 0
            && packet[16..32] == x.md5(packet[..16] + d.token + packet[32..length])
            && var unpadded := Pkcs7.Unpad(
                 CbcDecrypt(x.aes(x.md5(d.token)), x.md5(x.md5(d.token) + d.token), packet[32..length]), 16);
               unpadded.Clear? && LanPacket.Parse(x, d, packet) == LanPacket.Message(TrimNul(unpadded.data))
  {
    if |packet| >= 32 {
      MagicBytes(packet);
    }
    hide FromBE, CbcDecrypt, Pkcs7.Unpad, TrimNul;
  }

  lemma ParsedIsSealed(x: LanPacket.Crypto, d: LanPacket.Device, packet: Bytes) returns (text: Bytes, padded: Bytes)
    requires LanPacket.Sound(x) && |d.token| == 16 && LanPacket.Parse(x, d, packet).Message?
    ensures 32 + |padded| <= |packet| && Sealed(x, d.token, text, packet[..32 + |padded|], padded)
    ensures LanPacket.Parse(x, d, packet) == LanPacket.Message(TrimNul(text))
  {
    hide FromBE, CbcDecrypt, Pkcs7.Unpad, Pkcs7.Pad, LanPacket.Parse, TrimNul, UnchainedBlock, PaddedTo16;
    ParsedFacts(x, d, packet);
    var c, iv := x.aes(x.md5(d.token)), x.md5(x.md5(d.token) + d.token);
    var length := FromBE(packet[2..4]);
    var e := packet[32..length];
    padded := CbcDecrypt(c, iv, e);
    CbcLength(c, iv, e);
    text := Pkcs7.Unpad(padded, 16).data;
    Pkcs7.PadUnpad(padded, 16);
    PadMeaning(text);
    UnchainedIff(c, iv, padded, e);
    var p := packet[..length];
    assert p[2..4] == packet[2..4] && p[..16] == packet[..16] && p[16..32] == packet[16..32] && p[32..] == e;
  }

  /**
    The parser yields a text exactly for the packets, with anything appended, that are sealed over a text it
    trims to that.
  */
  lemma ParseIff(x: LanPacket.Crypto, d: LanPacket.Device, packet: Bytes, m: Bytes)
    requires LanPacket.Sound(x) && |d.token| == 16
    ensures LanPacket.Parse(x, d, packet) == LanPacket.Message(m) <==>
            exists text, padded ::
              32 + |padded| <= |packet| && Sealed(x, d.token, text, packet[..32 + |padded|], padded) &&
                m == TrimNul(text)
  {
    if LanPacket.Parse(x, d, packet) == LanPacket.Message(m) {
      var text, padded := ParsedIsSealed(x, d, packet);
    }
    if text, padded :| 32 + |padded| <= |packet| && Sealed(x, d.token, text, packet[..32 + |padded|], padded)
                       && m == TrimNul(text) {
      SealedParses(x, d, text, packet, padded);
    }
  }

  /** Which error each refused packet gets, in the order of the checks. */
  lemma ParseErrors(x: LanPacket.Crypto, d: LanPacket.Device, packet: Bytes)
    requires LanPacket.Sound(x) && |d.token| == 16
    ensures |packet| < 32 <==> LanPacket.Parse(x, d, packet) == LanPacket.TooShort
    ensures |packet| >= 32 ==>
            var length := FromBE(packet[2..4]);
            var magic := packet[0] == 0x21 && packet[1] == 0x31;
            var fits := 32 <= length <= |packet|;
            && (!magic <==> LanPacket.Parse(x, d, packet) == LanPacket.BadMagic)
            && (magic && !fits <==> LanPacket.Parse(x, d, packet) == LanPacket.BadLength)
            && (fits ==>
                  var summed := packet[16..32] == x.md5(packet[..16] + d.token + packet[32..length]);
                  && (magic && !summed <==> LanPacket.Parse(x, d, packet) == LanPacket.BadChecksum)
                  && (magic && summed && length % 16 != 0 <==> LanPacket.Parse(x, d, packet) == LanPacket.NotAligned))
  {
    if |packet| >= 32 {
      MagicBytes(packet);
    }
    hide FromBE, CbcDecrypt, Pkcs7.Unpad, TrimNul;
  }

  /** A packet's own header and digest, read off the packet. */
  lemma BuiltHead(x: LanPacket.Crypto, d: LanPacket.Device, payload: Bytes)
    requires LanPacket.Sound(x) && |d.token| == 16 && Decimal.ParseUint(d.did).Some?
    requires 32 + |Pkcs7.Pad(payload, 16)| <= 65535
    ensures LanPacket.Build(x, d, payload).Some?
    ensures var p := LanPacket.Build(x, d, payload).value;
            && 32 <= |p| && p[0] == 0x21 && p[1] == 0x31 && FromBE(p[2..4]) == |p|
            && p[16..32] == x.md5(p[..16] + d.token + p[32..])
  {
    BuiltPacket(x, d, payload);
    hide LanPacket.Build, Pkcs7.Pad, FromBE, PaddedTo16, ChainedBlock;
    var p := LanPacket.Build(x, d, payload).value;
    assert p[..16][2..4] == p[2..4];
  }

  lemma Spliced(p: Bytes, sum: Bytes)
    requires |p| >= 32 && |sum| == 16
    ensures var q := p[..16] + sum + p[32..];
            && |q| == |p| && q[0] == p[0] && q[1] == p[1] && q[2..4] == p[2..4]
            && q[..16] == p[..16] && q[16..32] == sum && q[32..|q|] == p[32..]
  {
  }

  /** A built packet with only its digest altered is refused for its digest. */
  lemma AlteredChecksum(x: LanPacket.Crypto, d: LanPacket.Device, payload: Bytes, sum: Bytes)
    requires LanPacket.Sound(x) && |d.token| == 16 && Decimal.ParseUint(d.did).Some? && |sum| == 16
    requires 32 + |Pkcs7.Pad(payload, 16)| <= 65535
    requires var p := LanPacket.Build(x, d, payload).value; |p| >= 32 && sum != p[16..32]
    ensures var p := LanPacket.Build(x, d, payload).value;
            LanPacket.Parse(x, d, p[..16] + sum + p[32..]) == LanPacket.BadChecksum
  {
    hide LanPacket.Build, LanPacket.Parse, Pkcs7.Pad, FromBE;
    BuiltHead(x, d, payload);
    var p := LanPacket.Build(x, d, payload).value;
    Spliced(p, sum);
    ParseErrors(x, d, p[..16] + sum + p[32..]);
  }

  /** The identifier is read from any packet long enough with the magic, whatever else is wrong with it. */
  lemma DidErrors(packet: Bytes)
    ensures |packet| < 32 <==> LanPacket.DidFrom(packet) == LanPacket.DidTooShort
    ensures |packet| >= 32 ==>
            if packet[0] == 0x21 && packet[1] == 0x31
            then LanPacket.DidFrom(packet) == LanPacket.Did(Decimal.FormatUint(FromBE(packet[4..12])))
            else LanPacket.DidFrom(packet) == LanPacket.DidBadMagic
  {
    if |packet| >= 32 {
      MagicBytes(packet);
    }
    hide FromBE, Decimal.FormatUint;
  }

  // ---------------------------------------------------------------- MISS payloads

  /** What one byte of the encrypted body is, for each type of encryption and both ways. */
  ghost predicate MissBody(c: Cipher, iv: Bytes, encryptType: int, encrypt: bool, from: Bytes, to: Bytes)
    requires Lawful(c) && |iv| == 16
  {
    && |to| == |from|
    && match encryptType
       case 1 => |from| % 16 == 0 && forall k: nat :: 16 * (k + 1) <= |from| ==>
                   if encrypt then ChainedBlock(c, iv, from, to, k) else UnchainedBlock(c, iv, to, from, k)
       case 2 => |from| % 16 == 0 && forall k: nat :: 16 * (k + 1) <= |from| ==>
                   BlockOf(to, k) == if encrypt then c.enc(BlockOf(from, k)) else c.dec(BlockOf(from, k))
       case 3 => forall i :: 0 <= i < |from| ==> to[i] == Xor(from[i], c.enc(Counter(iv, i / 16))[i % 16])
       case _ => false
  }

  lemma AesBody(x: MissPayload.Crypto, data: Bytes, key: Bytes, iv: Bytes, encryptType: int, encrypt: bool)
    requires MissPayload.Sound(x) && |iv| == 16
    ensures var r := MissPayload.AesCrypt(x, data, key, iv, encryptType, encrypt);
            && (r.Ok? ==> MissBody(x.aes(key), iv, encryptType, encrypt, data, r.data))
            && (r.Ok? <==> (1 <= encryptType <= 2 && |data| % 16 == 0) || encryptType == 3)
            && (!r.Ok? ==> r == if 1 <= encryptType <= 2 then MissPayload.NotAligned else MissPayload.Unsupported)
  {
    var c := x.aes(key);
    if encryptType == 1 && |data| % 16 == 0 {
      CbcBody(c, iv, data, encrypt);
    } else if encryptType == 2 && |data| % 16 == 0 {
      EcbBody(c, iv, data, encrypt);
    } else if encryptType == 3 {
      CtrBody(c, iv, data, encrypt);
    }
    hide CbcEncrypt, CbcDecrypt, Ecb, CtrStream, MissBody, XorBytes;
  }

  lemma CbcBody(c: Cipher, iv: Bytes, data: Bytes, encrypt: bool)
    requires Lawful(c) && |iv| == 16 && |data| % 16 == 0
    ensures MissBody(c, iv, 1, encrypt, data, if encrypt then CbcEncrypt(c, iv, data) else CbcDecrypt(c, iv, data))
  {
    CbcLength(c, iv, data);
    hide CbcEncrypt, CbcDecrypt;
    forall k: nat | 16 * (k + 1) <= |data|
      ensures ChainedBlock(c, iv, data, CbcEncrypt(c, iv, data), k)
      ensures UnchainedBlock(c, iv, CbcDecrypt(c, iv, data), data, k)
    {
      CbcChains(c, iv, data, k);
      CbcUnchains(c, iv, data, k);
    }
  }

  lemma EcbAll(f: Bytes -> Bytes, data: Bytes)
    requires (forall b: Bytes :: |b| == 16 ==> |f(b)| == 16) && |data| % 16 == 0
    ensures |Ecb(f, data)| == |data|
    ensures forall k: nat :: 16 * (k + 1) <= |data| ==> BlockOf(Ecb(f, data), k) == f(BlockOf(data, k))
  {
    if data == [] {
      EcbOfNothing(f);
    } else {
      ModStep(|data|);
      EcbBlocks(f, data, 0);
      hide Ecb;
      forall k: nat | 16 * (k + 1) <= |data|
        ensures BlockOf(Ecb(f, data), k) == f(BlockOf(data, k))
      {
        EcbBlocks(f, data, k);
      }
    }
  }

  lemma EcbBody(c: Cipher, iv: Bytes, data: Bytes, encrypt: bool)
    requires Lawful(c) && |iv| == 16 && |data| % 16 == 0
    ensures MissBody(c, iv, 2, encrypt, data, if encrypt then Ecb(c.enc, data) else Ecb(c.dec, data))
  {
    hide Ecb;
    if encrypt {
      EcbAll(c.enc, data);
    } else {
      EcbAll(c.dec, data);
    }
  }

  lemma CtrBody(c: Cipher, iv: Bytes, data: Bytes, encrypt: bool)
    requires Lawful(c) && |iv| == 16
    ensures MissBody(c, iv, 3, encrypt, data, XorBytes(data, CtrStream(c, iv, |data|)))
  {
    hide Counter, Xor;
  }

  /** The text, and sixteen to thirty-one bytes after it up to a multiple of sixteen, each of them their number. */
  predicate MissPadded(text: Bytes, padded: Bytes)
  {
    && text <= padded && |padded| % 16 == 0 && 16 <= |padded| - |text| <= 31
    && forall i :: |text| <= i < |padded| ==> padded[i] == |padded| - |text|
  }

  /**
    An encoded payload, whole. Type 0: the nonce sent, then the text against the stream of four zeros and
    that nonce. Types 1 to 3: the padding's length in four bytes, least significant first, the vector, and the padded
    text encrypted under the first sixteen bytes of the key.
  */
  lemma EncodedPayload(
    x: MissPayload.Crypto, payload: Bytes, key: Bytes, encryptType: int, sent: Bytes, iv: Bytes) returns (padded: Bytes)
    requires MissPayload.Sound(x) && |sent| == 8 && |iv| == 16
    requires MissPayload.Encode(x, payload, key, encryptType, sent, iv).Ok?
    ensures var wire := MissPayload.Encode(x, payload, key, encryptType, sent, iv).data;
            if encryptType == 0 then
              && |wire| == 8 + |payload| && wire[..8] == sent && |key| == 32
              && forall i :: 0 <= i < |payload| ==>
                   wire[8 + i] == Xor(payload[i], x.chacha(key, [0, 0, 0, 0] + sent, i))
            else
              && MissPadded(payload, padded) && |wire| == 20 + |padded| && |key| >= 16
              && FromLE(wire[..4]) == |padded| - |payload| && wire[4..20] == iv
              && MissBody(x.aes(key[..16]), iv, encryptType, true, padded, wire[20..])
  {
    padded := MissPayload.Padded(payload);
    if encryptType != 0 {
      var n := |padded| - |payload|;
      var body := MissPayload.AesCrypt(x, padded, key[..16], iv, encryptType, true);
      AesBody(x, padded, key[..16], iv, encryptType, true);
      PowValues();
      FromToLE(n, 4);
      hide MissPayload.AesCrypt, ToLE, FromLE, MissBody;
      var wire := ToLE(n, 4) + iv + body.data;
      assert wire[..4] == ToLE(n, 4) && wire[4..20] == iv && wire[20..] == body.data;
    }
  }

  /** What decoding yields, and every refusal in the order of the checks. */
  lemma DecodedPayload(x: MissPayload.Crypto, payload: Bytes, key: Bytes, encryptType: int) returns (plain: Bytes)
    requires MissPayload.Sound(x) && encryptType != 0
    ensures var r := MissPayload.Decode(x, payload, key, encryptType);
            if |payload| < 20 then r == MissPayload.TooSmall
            else if |key| < 16 then r == MissPayload.KeyTooShort
            else if !(1 <= encryptType <= 3) then r == MissPayload.Unsupported
            else if encryptType != 3 && (|payload| - 20) % 16 != 0 then r == MissPayload.NotAligned
            else if FromLE(payload[..4]) > |payload| - 20 then r == MissPayload.PaddingTooLong
            else
              && MissBody(x.aes(key[..16]), payload[4..20], encryptType, false, payload[20..], plain)
              && r == MissPayload.Ok(plain[..|plain| - FromLE(payload[..4])])
  {
    plain := [];
    if |payload| >= 20 && |key| >= 16 {
      var r := MissPayload.AesCrypt(x, payload[20..], key[..16], payload[4..20], encryptType, false);
      AesBody(x, payload[20..], key[..16], payload[4..20], encryptType, false);
      if r.Ok? {
        plain := r.data;
        BodyLength(x.aes(key[..16]), payload[4..20], encryptType, false, payload[20..], plain);
      }
    }
    hide MissPayload.AesCrypt, FromLE, MissBody;
  }

  /** Type 0: nothing from less than a nonce; otherwise the rest against the stream of four zeros and that nonce. */
  lemma DecodedStream(x: MissPayload.Crypto, payload: Bytes, key: Bytes)
    ensures var r := MissPayload.Decode(x, payload, key, 0);
            if |payload| < 8 then r == MissPayload.Ok([])
            else if |key| != 32 then r == MissPayload.KeyLength
            else
              && r.Ok? && |r.data| == |payload| - 8
              && forall i :: 0 <= i < |r.data| ==>
                   r.data[i] == Xor(payload[8 + i], x.chacha(key, [0, 0, 0, 0] + payload[..8], i))
  {
  }

  /** Why encoding fails. */
  lemma EncodeErrors(x: MissPayload.Crypto, payload: Bytes, key: Bytes, encryptType: int, sent: Bytes, iv: Bytes)
    requires MissPayload.Sound(x) && |sent| == 8 && |iv| == 16
    requires !MissPayload.Encode(x, payload, key, encryptType, sent, iv).Ok?
    ensures MissPayload.Encode(x, payload, key, encryptType, sent, iv) ==
            if encryptType == 0 then MissPayload.KeyLength
            else if |key| < 16 then MissPayload.KeyTooShort
            else MissPayload.Unsupported
  {
    if encryptType != 0 && |key| >= 16 {
      AesBody(x, MissPayload.Padded(payload), key[..16], iv, encryptType, true);
    }
    hide MissPayload.AesCrypt, MissBody;
  }

  lemma BodyLength(c: Cipher, iv: Bytes, encryptType: int, encrypt: bool, from: Bytes, to: Bytes)
    requires Lawful(c) && |iv| == 16 && MissBody(c, iv, encryptType, encrypt, from, to)
    ensures |to| == |from|
  {
  }

  // ---------------------------------------------------------------- MIPS envelopes

  /** One field: its length in four bytes, least significant first, its type, its bytes. */
  function FieldBytes(kind: byte, body: Bytes): Bytes
  {
    ToLE(|body| % 0x1_0000_0000, 4) + [kind] + body
  }

  /**
    A packed envelope, whole: type 0 the identifier, 3 the sender, 1 the reply topic, 2 the payload; texts end
    in NUL.
  */
  lemma PackedEnvelope(m: MipsEnvelope.Envelope)
    ensures MipsEnvelope.EncodeFields(MipsEnvelope.FieldsOf(m)) ==
            FieldBytes(0, ToLE(m.id, 4))
            + (if m.from != [] then FieldBytes(3, m.from + [0]) else [])
            + (if m.replyTopic != [] then FieldBytes(1, m.replyTopic + [0]) else [])
            + FieldBytes(2, m.payload + [0])
  {
    hide ToLE;
    var id := [MipsEnvelope.Field(0, ToLE(m.id, 4))];
    var from := if m.from != [] then [MipsEnvelope.Field(3, m.from + [0])] else [];
    var reply := if m.replyTopic != [] then [MipsEnvelope.Field(1, m.replyTopic + [0])] else [];
    var payload := [MipsEnvelope.Field(2, m.payload + [0])];
    MipsEnvelope.EncodeFieldsAppend(id + from + reply, payload);
    MipsEnvelope.EncodeFieldsAppend(id + from, reply);
    MipsEnvelope.EncodeFieldsAppend(id, from);
    OneField(0, ToLE(m.id, 4));
    OneField(3, m.from + [0]);
    OneField(1, m.replyTopic + [0]);
    OneField(2, m.payload + [0]);
    assert MipsEnvelope.EncodeFields([]) == [];
  }

  lemma OneField(kind: byte, body: Bytes)
    ensures MipsEnvelope.EncodeFields([MipsEnvelope.Field(kind, body)]) == FieldBytes(kind, body)
  {
    var one := [MipsEnvelope.Field(kind, body)];
    assert one[1..] == [];
    assert MipsEnvelope.EncodeFields(one[1..]) == [];
    assert FieldBytes(kind, body) + [] == FieldBytes(kind, body);
  }

  /** The message with identifier 7 and payload "ok", byte by byte. */
  lemma SmallEnvelope()
    ensures MipsEnvelope.EncodeFields(MipsEnvelope.FieldsOf(MipsEnvelope.Envelope(7, [], [], [111, 107])))
         == [4, 0, 0, 0, 0, 7, 0, 0, 0, 3, 0, 0, 0, 2, 111, 107, 0]
  {
    PackedEnvelope(MipsEnvelope.Envelope(7, [], [], [111, 107]));
    FourBytes(7);
    SmallField(0, [7, 0, 0, 0]);
    SmallField(2, [111, 107, 0]);
    hide FieldBytes, ToLE, MipsEnvelope.EncodeFields, MipsEnvelope.FieldsOf;
    assert [111, 107] + [0] == [111, 107, 0];
  }

  lemma SmallField(kind: byte, body: Bytes)
    requires |body| < 256
    ensures FieldBytes(kind, body) == [|body|, 0, 0, 0, kind] + body
  {
    FourBytes(|body|);
    hide ToLE;
    assert |body| % 0x1_0000_0000 == |body|;
    assert [|body|, 0, 0, 0] + [kind] == [|body|, 0, 0, 0, kind];
  }

  /** A small number in four bytes, least significant first. */
  lemma FourBytes(v: byte)
    ensures ToLE(v, 4) == [v, 0, 0, 0]
  {
    assert ToLE(0, 0) == [] && ToLE(0, 1) == [0] && ToLE(0, 2) == [0, 0] && ToLE(0, 3) == [0, 0, 0];
    assert v / 256 == 0 && v % 256 == v;
  }

  /** A field that can be decoded stands at the front: no refusal yet. */
  predicate WholeField(data: Bytes)
  {
    |data| >= 5 && 5 + FromLE(data[..4]) <= |data| && (data[4] == 0 ==> FromLE(data[..4]) == 4)
  }

  /** After any decodable fields, why decoding stops short. */
  lemma UnpackErrors(fields: seq<MipsEnvelope.Field>, rest: Bytes)
    requires MipsEnvelope.AllValid(fields) && MipsEnvelope.Short(fields) && rest != [] && !WholeField(rest)
    ensures MipsEnvelope.UnpackOnto(MipsEnvelope.BLANK, MipsEnvelope.EncodeFields(fields) + rest) ==
            if |rest| < 5 then MipsEnvelope.TruncatedHeader
            else if 5 + FromLE(rest[..4]) > |rest| then MipsEnvelope.TruncatedPayload
            else MipsEnvelope.InvalidId
  {
    MipsEnvelope.UnpackFields(MipsEnvelope.BLANK, fields, rest);
    hide FromLE, MipsEnvelope.EncodeFields, MipsEnvelope.Fold;
  }

  /** Every byte string is decodable fields followed by nothing or by what stops decoding short. */
  lemma {:induction false} FieldsThenStop(data: Bytes) returns (fields: seq<MipsEnvelope.Field>, rest: Bytes)
    ensures MipsEnvelope.AllValid(fields) && MipsEnvelope.Short(fields)
    ensures data == MipsEnvelope.EncodeFields(fields) + rest && !WholeField(rest)
    decreases |data|
  {
    if WholeField(data) {
      MipsEnvelope.SplitField(data);
      var length := FromLE(data[..4]);
      var f := MipsEnvelope.Field(data[4], data[5..5 + length]);
      var more;
      more, rest := FieldsThenStop(data[5 + length..]);
      fields := [f] + more;
      MipsEnvelope.EncodeFieldsCons(f, more);
      hide FromLE, MipsEnvelope.EncodeFields, MipsEnvelope.EncodeField, WholeField;
      Assoc(MipsEnvelope.EncodeField(f), MipsEnvelope.EncodeFields(more), rest);
    } else {
      fields, rest := [], data;
      assert [] + data == data;
    }
  }

  // ---------------------------------------------------------------- CS2 frames and Annex B

  /** A frame on the wire: its length in four bytes, most significant first, then its bytes. */
  lemma FrameBytes(frame: Bytes)
    requires |frame| < 0x1_0000_0000
    ensures var w := Cs2Channel.EncodeFrame(frame);
            && |w| == 4 + |frame| && w[4..] == frame
            && 0x100_0000 * (w[0] as int) + 0x1_0000 * (w[1] as int) + 256 * (w[2] as int) + w[3] == |frame|
  {
    var w := Cs2Channel.EncodeFrame(frame);
    PowValues();
    FromToBE(|frame|, 4);
    BigEndian(w[..4]);
    hide ToBE, FromBE;
    assert w[..4] == ToBE(|frame|, 4);
  }

  /** Every unit is written behind 00 00 00 01. */
  lemma AnnexBBytes(unit: Bytes, more: seq<Bytes>)
    ensures AnnexB.Print([unit] + more) == [0, 0, 0, 1] + unit + AnnexB.Print(more)
    ensures AnnexB.Print([]) == []
  {
    assert ([unit] + more)[1..] == more;
  }
}

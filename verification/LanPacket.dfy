/**
  The LAN packet codec (lan_types.go:68-199, lan.go:1459-1467). MD5 is an arbitrary function to
  sixteen bytes and AES an arbitrary invertible block function per key; the JSON text inside is
  a byte string.
*/
module LanPacket {
  import opened Wrappers
  import opened Bytes
  import opened BlockModes
  import opened Decimal
  import Pkcs7

  const MAGIC := 0x2131
  const HEADER := 32

  datatype Crypto = Crypto(md5: Bytes -> Bytes, aes: Bytes -> Cipher)

  ghost predicate Sound(x: Crypto)
  {
    && (forall b: Bytes {:trigger x.md5(b)} :: |x.md5(b)| == 16)
    && (forall key: Bytes {:trigger x.aes(key)} :: Lawful(x.aes(key)))
  }

  datatype Device = Device(did: string, token: Bytes, offset: uint32)

  datatype Parsed =
    | Message(clear: Bytes)
    | TooShort | BadMagic | BadLength | BadChecksum | NotAligned
    | BadPadding(reason: Pkcs7.Unpadded)

  datatype DidResult = Did(did: string) | DidTooShort | DidBadMagic

  function Key(x: Crypto, d: Device): Bytes
  {
    x.md5(d.token)
  }

  function Iv(x: Crypto, d: Device): Bytes
  {
    x.md5(x.md5(d.token) + d.token)
  }

  function Encrypted(x: Crypto, d: Device, payload: Bytes): Bytes
    requires |Iv(x, d)| == 16
  {
    CbcEncrypt(x.aes(Key(x, d)), Iv(x, d), Pkcs7.Pad(payload, BLOCK))
  }

  /** The first sixteen bytes; the length field keeps only sixteen bits. */
  function Head(d: Device, did: uint64, length: nat): (h: Bytes)
    ensures |h| == 16
  {
    ToBE(MAGIC, 2) + ToBE(length % 0x1_0000, 2) + ToBE(did, 8) + ToBE(d.offset, 4)
  }

  /** `None` when the device identifier is not a decimal 64-bit number. */
  function Build(x: Crypto, d: Device, payload: Bytes): Option<Bytes>
    requires |Iv(x, d)| == 16
  {
    var encrypted := Encrypted(x, d, payload);
    match ParseUint(d.did)
    case None => None
    case Some(did) =>
      var head := Head(d, did, HEADER + |encrypted|);
      Some(head + x.md5(head + d.token + encrypted) + encrypted)
  }

  function Parse(x: Crypto, d: Device, packet: Bytes): Parsed
    requires |Iv(x, d)| == 16
  {
    if |packet| < HEADER then TooShort
    else if FromBE(packet[..2]) != MAGIC then BadMagic
    else
      var length := FromBE(packet[2..4]);
      if length > |packet| || length < HEADER then BadLength
      else
        var encrypted := packet[32..length];
        if packet[16..32] != x.md5(packet[..16] + d.token + encrypted) then BadChecksum
        else if |encrypted| % BLOCK != 0 then NotAligned
        else
          var unpadded := Pkcs7.Unpad(CbcDecrypt(x.aes(Key(x, d)), Iv(x, d), encrypted), BLOCK);
          if unpadded.Clear? then Message(TrimNul(unpadded.data)) else BadPadding(unpadded)
  }

  function DidFrom(packet: Bytes): DidResult
  {
    if |packet| < HEADER then DidTooShort
    else if FromBE(packet[..2]) != MAGIC then DidBadMagic
    else Did(FormatUint(FromBE(packet[4..12])))
  }

  // ---------------------------------------------------------------- the Go code's buffers

  method BuildPacketMessage(x: Crypto, d: Device, payload: Bytes) returns (result: Option<Bytes>)
    requires Sound(x) && |d.token| == 16
    ensures result == Build(x, d, payload)
  {
    hide ToBE, FromBE, CbcEncrypt;
    var clear := Pkcs7.Pkcs7Pad(payload, BLOCK);
    PadAligned(payload);
    var encrypted := new byte[|clear|](i requires 0 <= i < |clear| => clear[i]);
    assert encrypted[0..] == clear;
    CbcEncryptInPlace(x.aes(Key(x, d)), Iv(x, d), encrypted, 0);
    assert encrypted[0..] == encrypted[..] == Encrypted(x, d, payload);
    var did := ParseUint(d.did);
    if did == None {
      return None;
    }
    var packetLen := HEADER + encrypted.Length;
    var packet := new byte[packetLen];
    WriteAt(packet, 0, ToBE(MAGIC, 2));
    WriteAt(packet, 2, ToBE(packetLen % 0x1_0000, 2));
    WriteAt(packet, 4, ToBE(did.value, 8));
    WriteAt(packet, 12, ToBE(d.offset, 4));
    ghost var head := Head(d, did.value, packetLen);
    assert packet[..0] == [];
    assert packet[..16] == head;
    WriteAt(packet, 16, d.token);
    WriteAt(packet, 32, encrypted[..]);
    assert packet[..] == packet[..packetLen] == head + d.token + encrypted[..];
    var checksum := x.md5(packet[..]);
    assert packet[..16] == head && packet[32..] == encrypted[..];
    WriteAt(packet, 16, checksum);
    assert packet[..32] == head + checksum && packet[32..] == encrypted[..];
    assert packet[..] == packet[..32] + packet[32..];
    result := Some(packet[..]);
  }

  lemma PadAligned(payload: Bytes)
    ensures |Pkcs7.Pad(payload, BLOCK)| % BLOCK == 0
  {
    Pkcs7.UnpadPad(payload, BLOCK);
  }

  method ParsePacket(x: Crypto, d: Device, packet: Bytes) returns (result: Parsed)
    requires Sound(x) && |d.token| == 16
    ensures result == Parse(x, d, packet)
  {
    hide FromBE, CbcDecrypt;
    if |packet| < HEADER {
      return TooShort;
    }
    if FromBE(packet[0..2]) != MAGIC {
      return BadMagic;
    }
    var packetLen := FromBE(packet[2..4]);
    if packetLen > |packet| || packetLen < HEADER {
      return BadLength;
    }
    var checkBuffer := new byte[packetLen](i requires 0 <= i < packetLen => packet[i]);
    assert checkBuffer[..16] == packet[..16] && checkBuffer[32..] == packet[32..packetLen];
    WriteAt(checkBuffer, 16, d.token);
    assert checkBuffer[..] == checkBuffer[..32] + checkBuffer[32..];
    var same := EqualBytes(packet[16..32], x.md5(checkBuffer[..]));
    if !same {
      return BadChecksum;
    }
    var encrypted := packet[32..packetLen];
    if |encrypted| % BLOCK != 0 {
      return NotAligned;
    }
    var decrypted := new byte[|encrypted|](i requires 0 <= i < |encrypted| => encrypted[i]);
    assert decrypted[0..] == encrypted;
    CbcDecryptInPlace(x.aes(Key(x, d)), Iv(x, d), decrypted, 0);
    assert decrypted[0..] == decrypted[..];
    var unpadded := Pkcs7.Pkcs7Unpad(decrypted[..], BLOCK);
    if !unpadded.Clear? {
      return BadPadding(unpadded);
    }
    result := Message(TrimNul(unpadded.data));
  }

  method EqualBytes(left: Bytes, right: Bytes) returns (same: bool)
    ensures same <==> left == right
  {
    if |left| != |right| {
      return false;
    }
    for i := 0 to |left|
      invariant left[..i] == right[..i]
    {
      if left[i] != right[i] {
        return false;
      }
    }
    assert left[..|left|] == left && right[..|right|] == right;
    same := true;
  }

  // ---------------------------------------------------------------- inverse

  /** The fields a reader sees in a built packet, whatever follows it. */
  lemma BuiltFields(x: Crypto, d: Device, payload: Bytes, junk: Bytes)
    requires Sound(x) && |d.token| == 16 && ParseUint(d.did).Some?
    ensures var did := ParseUint(d.did).value;
            var encrypted := Encrypted(x, d, payload);
            var head := Head(d, did, HEADER + |encrypted|);
            var packet := Build(x, d, payload).value + junk;
            && |packet| == HEADER + |encrypted| + |junk|
            && packet[..16] == head
            && packet[16..32] == x.md5(head + d.token + encrypted)
            && packet[32..HEADER + |encrypted|] == encrypted
  {
    hide Head, Encrypted, ToBE, CbcEncrypt, Pkcs7.Pad;
    var encrypted := Encrypted(x, d, payload);
    var head := Head(d, ParseUint(d.did).value, HEADER + |encrypted|);
    var digest := x.md5(head + d.token + encrypted);
    Pieces(head, digest, encrypted, junk);
  }

  lemma Pieces(head: Bytes, digest: Bytes, encrypted: Bytes, junk: Bytes)
    requires |head| == 16 && |digest| == 16
    ensures var packet := head + digest + encrypted + junk;
            packet[..16] == head && packet[16..32] == digest && packet[32..32 + |encrypted|] == encrypted
  {
  }

  lemma HeadFields(d: Device, did: uint64, length: nat)
    ensures var h := Head(d, did, length);
            FromBE(h[..2]) == MAGIC && FromBE(h[2..4]) == length % 0x1_0000 && FromBE(h[4..12]) == did
  {
    hide ToBE, FromBE;
    var h := Head(d, did, length);
    PowValues();
    FromToBE(MAGIC, 2);
    FromToBE(length % 0x1_0000, 2);
    FromToBE(did, 8);
    assert h[..2] == ToBE(MAGIC, 2) && h[2..4] == ToBE(length % 0x1_0000, 2) && h[4..12] == ToBE(did, 8);
  }

  lemma EncryptedFacts(x: Crypto, d: Device, payload: Bytes)
    requires Sound(x)
    ensures var encrypted := Encrypted(x, d, payload);
            && |encrypted| == |Pkcs7.Pad(payload, BLOCK)| && |encrypted| % BLOCK == 0
            && CbcDecrypt(x.aes(Key(x, d)), Iv(x, d), encrypted) == Pkcs7.Pad(payload, BLOCK)
  {
    Pkcs7.UnpadPad(payload, BLOCK);
    CbcLength(x.aes(Key(x, d)), Iv(x, d), Pkcs7.Pad(payload, BLOCK));
    CbcInverse(x.aes(Key(x, d)), Iv(x, d), Pkcs7.Pad(payload, BLOCK));
  }

  lemma SubHead(packet: Bytes, head: Bytes)
    requires |packet| >= 16 && |head| == 16 && packet[..16] == head
    ensures packet[..2] == head[..2] && packet[2..4] == head[2..4] && packet[4..12] == head[4..12]
  {
    assert packet[..16][..2] == packet[..2] && packet[..16][2..4] == packet[2..4] &&
      packet[..16][4..12] == packet[4..12];
  }

  /** What the parser does with a packet whose fields are known. */
  lemma ParseFields(x: Crypto, d: Device, packet: Bytes, encrypted: Bytes, padded: Bytes)
    requires Sound(x) && |packet| >= HEADER + |encrypted| && |encrypted| % BLOCK == 0
    requires FromBE(packet[..2]) == MAGIC && FromBE(packet[2..4]) == HEADER + |encrypted|
    requires packet[32..HEADER + |encrypted|] == encrypted
    requires packet[16..32] == x.md5(packet[..16] + d.token + encrypted)
    requires CbcDecrypt(x.aes(Key(x, d)), Iv(x, d), encrypted) == padded
    requires Pkcs7.Unpad(padded, BLOCK).Clear?
    ensures Parse(x, d, packet) == Message(TrimNul(Pkcs7.Unpad(padded, BLOCK).data))
  {
    hide FromBE, CbcDecrypt, Pkcs7.Unpad, TrimNul;
  }

  /** Parsing a packet whose fields are those of a built one. */
  lemma ParseHeaded(x: Crypto, d: Device, payload: Bytes, encrypted: Bytes, did: uint64, packet: Bytes)
    requires Sound(x) && |packet| >= HEADER + |encrypted| && HEADER + |encrypted| <= 65535 && |encrypted| % BLOCK == 0
    requires packet[..16] == Head(d, did, HEADER + |encrypted|)
    requires packet[16..32] == x.md5(packet[..16] + d.token + encrypted)
    requires packet[32..HEADER + |encrypted|] == encrypted
    requires CbcDecrypt(x.aes(Key(x, d)), Iv(x, d), encrypted) == Pkcs7.Pad(payload, BLOCK)
    ensures Parse(x, d, packet) == Message(TrimNul(payload))
  {
    hide Head, ToBE, FromBE, CbcDecrypt, Pkcs7.Pad, Pkcs7.Unpad, Parse, TrimNul;
    Pkcs7.UnpadPad(payload, BLOCK);
    HeadFields(d, did, HEADER + |encrypted|);
    SubHead(packet, Head(d, did, HEADER + |encrypted|));
    ParseFields(x, d, packet, encrypted, Pkcs7.Pad(payload, BLOCK));
  }

  /** Parsing a built packet gives the payload without trailing zero bytes, also with anything appended. */
  lemma ParseBuild(x: Crypto, d: Device, payload: Bytes, junk: Bytes)
    requires Sound(x) && |d.token| == 16 && ParseUint(d.did).Some?
    requires HEADER + |Pkcs7.Pad(payload, BLOCK)| <= 65535
    ensures Parse(x, d, Build(x, d, payload).value + junk) == Message(TrimNul(payload))
  {
    BuiltFields(x, d, payload, junk);
    EncryptedFacts(x, d, payload);
    hide Head, Encrypted, CbcEncrypt, CbcDecrypt, Pkcs7.Pad, Build, Parse, TrimNul, ParseUint;
    ParseHeaded(x, d, payload, Encrypted(x, d, payload), ParseUint(d.did).value, Build(x, d, payload).value + junk);
  }

  /** The payload itself comes back exactly when it does not end in a zero byte. JSON text never does. */
  lemma ParseBuildIff(x: Crypto, d: Device, payload: Bytes, junk: Bytes)
    requires Sound(x) && |d.token| == 16 && ParseUint(d.did).Some?
    requires HEADER + |Pkcs7.Pad(payload, BLOCK)| <= 65535
    ensures Parse(x, d, Build(x, d, payload).value + junk) == Message(payload)
       <==> payload == [] || payload[|payload| - 1] != 0
  {
    ParseBuild(x, d, payload, junk);
  }

  /** The length field holds the packet's length exactly up to 65535 bytes. */
  lemma LengthFieldIff(x: Crypto, d: Device, payload: Bytes)
    requires Sound(x) && |d.token| == 16 && ParseUint(d.did).Some?
    ensures var packet := Build(x, d, payload).value;
            |packet| >= 4 && (FromBE(packet[2..4]) == |packet| <==> HEADER + |Pkcs7.Pad(payload, BLOCK)| <= 65535)
  {
    BuiltFields(x, d, payload, []);
    EncryptedFacts(x, d, payload);
    hide Head, Encrypted, ToBE, FromBE, CbcEncrypt, CbcDecrypt, Pkcs7.Pad, Build, ParseUint;
    var encrypted := Encrypted(x, d, payload);
    var did := ParseUint(d.did).value;
    var packet := Build(x, d, payload).value;
    assert packet + [] == packet;
    HeadFields(d, did, HEADER + |encrypted|);
    SubHead(packet, Head(d, did, HEADER + |encrypted|));
  }

  /** The identifier read from a built packet is the device's own exactly when that is canonical decimal. */
  lemma DidFromBuildIff(x: Crypto, d: Device, payload: Bytes, junk: Bytes)
    requires Sound(x) && |d.token| == 16 && ParseUint(d.did).Some?
    ensures DidFrom(Build(x, d, payload).value + junk) == Did(FormatUint(ParseUint(d.did).value))
    ensures DidFrom(Build(x, d, payload).value + junk) == Did(d.did) <==> Canonical(d.did)
  {
    var encrypted := Encrypted(x, d, payload);
    var did := ParseUint(d.did).value;
    var packet := Build(x, d, payload).value + junk;
    BuiltFields(x, d, payload, junk);
    HeadFields(d, did, HEADER + |encrypted|);
    SubHead(packet, Head(d, did, HEADER + |encrypted|));
    FormatParseIff(d.did);
    hide Head, Encrypted, ToBE, FromBE, CbcEncrypt, Pkcs7.Pad, Build, FormatUint, ParseUint, Canonical;
  }
}

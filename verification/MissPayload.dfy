/**
  Encryption of MISS payloads (camera/native_miss.go:234-331, camera/native_crypto.go:31-60).
  Type 0 is a stream cipher over a sent nonce; types 1 to 3 are AES in CBC, ECB and CTR mode
  over a padded payload whose padding length is sent in clear. Random bytes are parameters.
*/
module MissPayload {
  import opened Bytes
  import opened BlockModes

  /** AES under a sixteen-byte key, and the ChaCha20 key stream under a key and a nonce. */
  datatype Crypto = Crypto(aes: Bytes -> Cipher, chacha: (Bytes, Bytes, nat) -> byte)

  ghost predicate Sound(x: Crypto)
  {
    forall key: Bytes {:trigger x.aes(key)} :: Lawful(x.aes(key))
  }

  datatype Result = Ok(data: Bytes) | KeyLength | KeyTooShort | TooSmall | NotAligned | Unsupported | PaddingTooLong

  function PaddedLength(length: nat): (r: nat)
    ensures 16 <= r - length <= 31
    ensures r % BLOCK == 0
  {
    (length + 15) / 16 * 16 + 16
  }

  function Stream(x: Crypto, key: Bytes, nonce: Bytes, n: nat): (s: Bytes)
    ensures |s| == n
  {
    seq<byte>(n, (k: int) requires 0 <= k => x.chacha(key, nonce, k))
  }

  function Nonce(sent: Bytes): Bytes
  {
    [0, 0, 0, 0] + sent
  }

  function CameraEncode(x: Crypto, payload: Bytes, key: Bytes, sent: Bytes): Result
  {
    if |key| != 32 then KeyLength
    else Ok(sent + XorBytes(payload, Stream(x, key, Nonce(sent), |payload|)))
  }

  function CameraDecode(x: Crypto, payload: Bytes, key: Bytes): Result
  {
    if |payload| < 8 then Ok([])
    else if |key| != 32 then KeyLength
    else Ok(XorBytes(payload[8..], Stream(x, key, Nonce(payload[..8]), |payload| - 8)))
  }

  function AesCrypt(x: Crypto, data: Bytes, key: Bytes, iv: Bytes, encryptType: int, encrypt: bool): Result
    requires |iv| == BLOCK
  {
    var c := x.aes(key);
    match encryptType
    case 1 => if |data| % BLOCK != 0 then NotAligned
              else Ok(if encrypt then CbcEncrypt(c, iv, data) else CbcDecrypt(c, iv, data))
    case 2 => if |data| % BLOCK != 0 then NotAligned
              else Ok(if encrypt then Ecb(c.enc, data) else Ecb(c.dec, data))
    case 3 => Ok(XorBytes(data, CtrStream(c, iv, |data|)))
    case _ => Unsupported
  }

  function Padded(payload: Bytes): (r: Bytes)
    ensures |r| == PaddedLength(|payload|) && payload <= r
  {
    var n := PaddedLength(|payload|) - |payload|;
    payload + seq(n, _ => n)
  }

  function Encode(x: Crypto, payload: Bytes, key: Bytes, encryptType: int, sent: Bytes, iv: Bytes): Result
    requires |iv| == BLOCK
  {
    if encryptType == 0 then CameraEncode(x, payload, key, sent)
    else if |key| < 16 then KeyTooShort
    else
      var r := AesCrypt(x, Padded(payload), key[..16], iv, encryptType, true);
      if !r.Ok? then r else Ok(ToLE(PaddedLength(|payload|) - |payload|, 4) + iv + r.data)
  }

  function Decode(x: Crypto, payload: Bytes, key: Bytes, encryptType: int): Result
  {
    if encryptType == 0 then CameraDecode(x, payload, key)
    else if |payload| < 20 then TooSmall
    else if |key| < 16 then KeyTooShort
    else
      var paddingLen := FromLE(payload[..4]);
      var r := AesCrypt(x, payload[20..], key[..16], payload[4..20], encryptType, false);
      if !r.Ok? then r
      else if paddingLen > |r.data| then PaddingTooLong
      else Ok(r.data[..|r.data| - paddingLen])
  }

  // ---------------------------------------------------------------- the Go code's buffers

  /** Encrypts or decrypts `data[from..]` where it stands. */
  method AesCryptInPlace(
    x: Crypto, data: array<byte>, from: nat, key: Bytes, iv: Bytes, encryptType: int,
      encrypt: bool) returns (error: Result)
    requires Sound(x) && |iv| == BLOCK && from <= data.Length
    modifies data
    ensures data[..from] == old(data[..from])
    ensures var r := AesCrypt(x, old(data[from..]), key, iv, encryptType, encrypt);
            if r.Ok? then error == Ok([]) && data[from..] == r.data else error == r
  {
    hide CbcEncrypt, CbcDecrypt, Ecb;
    var c := x.aes(key);
    error := Ok([]);
    match encryptType {
      case 1 =>
        if (data.Length - from) % BLOCK != 0 {
          return NotAligned;
        }
        if encrypt {
          CbcEncryptInPlace(c, iv, data, from);
        } else {
          CbcDecryptInPlace(c, iv, data, from);
        }
      case 2 =>
        if (data.Length - from) % BLOCK != 0 {
          return NotAligned;
        }
        if encrypt {
          EcbInPlace(c.enc, data, from);
        } else {
          EcbInPlace(c.dec, data, from);
        }
      case 3 =>
        XorInPlace(data, from, CtrStream(c, iv, data.Length - from));
      case _ =>
        return Unsupported;
    }
  }

  method EncodePayload(
    x: Crypto, payload: Bytes, key: Bytes, encryptType: int, sent: Bytes, iv: Bytes) returns (result: Result)
    requires Sound(x) && |iv| == BLOCK
    ensures result == Encode(x, payload, key, encryptType, sent, iv)
  {
    hide AesCrypt, ToLE;
    if encryptType == 0 {
      return CameraEncode(x, payload, key, sent);
    }
    if |key| < 16 {
      return KeyTooShort;
    }
    var paddedLen := PaddedLength(|payload|);
    var paddingLen := paddedLen - |payload|;
    var buffer := new byte[20 + paddedLen];
    WriteAt(buffer, 0, ToLE(paddingLen, 4));
    WriteAt(buffer, 4, iv);
    assert buffer[..0] == [];
    assert buffer[..20] == ToLE(paddingLen, 4) + iv;
    WriteAt(buffer, 20, payload);
    ghost var front := buffer[..20 + |payload|];
    for i := |payload| to paddedLen
      invariant buffer[..20 + |payload|] == front
      invariant forall k :: 20 + |payload| <= k < 20 + i ==> buffer[k] == paddingLen
    {
      buffer[20 + i] := paddingLen;
    }
    assert front == ToLE(paddingLen, 4) + iv + payload;
    assert buffer[..20] == front[..20];
    assert buffer[20..20 + |payload|] == front[20..];
    assert buffer[20..] == buffer[20..20 + |payload|] + buffer[20 + |payload|..];
    assert buffer[20..] == Padded(payload);
    var error := AesCryptInPlace(x, buffer, 20, key[..16], iv, encryptType, true);
    if !error.Ok? {
      return error;
    }
    assert buffer[..] == buffer[..20] + buffer[20..];
    result := Ok(buffer[..]);
  }

  method DecodePayload(x: Crypto, payload: Bytes, key: Bytes, encryptType: int) returns (result: Result)
    requires Sound(x)
    ensures result == Decode(x, payload, key, encryptType)
  {
    hide AesCrypt, FromLE;
    if encryptType == 0 {
      return CameraDecode(x, payload, key);
    }
    if |payload| < 20 {
      return TooSmall;
    }
    if |key| < 16 {
      return KeyTooShort;
    }
    var paddingLen := FromLE(payload[..4]);
    var plain := new byte[|payload| - 20](i requires 0 <= i < |payload| - 20 => payload[20 + i]);
    assert plain[0..] == payload[20..];
    var error := AesCryptInPlace(x, plain, 0, key[..16], payload[4..20], encryptType, false);
    if !error.Ok? {
      return error;
    }
    assert plain[0..] == plain[..];
    if paddingLen > plain.Length {
      return PaddingTooLong;
    }
    result := Ok(plain[..plain.Length - paddingLen]);
  }

  // ---------------------------------------------------------------- inverse

  lemma AesCryptInverse(x: Crypto, data: Bytes, key: Bytes, iv: Bytes, encryptType: int)
    requires Sound(x) && |iv| == BLOCK && |data| % BLOCK == 0 && 1 <= encryptType <= 3
    ensures var r := AesCrypt(x, data, key, iv, encryptType, true);
            r.Ok? && |r.data| == |data| && AesCrypt(x, r.data, key, iv, encryptType, false) == Ok(data)
  {
    var c := x.aes(key);
    if encryptType == 1 {
      CbcLength(c, iv, data);
      CbcInverse(c, iv, data);
    } else if encryptType == 2 {
      EcbInverse(c, data);
    } else {
      XorBytesUndone(data, CtrStream(c, iv, |data|));
    }
  }

  lemma CameraInverse(x: Crypto, payload: Bytes, key: Bytes, sent: Bytes)
    requires |key| == 32 && |sent| == 8
    ensures CameraDecode(x, CameraEncode(x, payload, key, sent).data, key) == Ok(payload)
  {
    var stream := Stream(x, key, Nonce(sent), |payload|);
    var wire := sent + XorBytes(payload, stream);
    assert wire[..8] == sent && wire[8..] == XorBytes(payload, stream);
    XorBytesUndone(payload, stream);
  }

  /** The key lengths and types for which encoding succeeds. */
  predicate CanEncode(key: Bytes, encryptType: int)
  {
    (encryptType == 0 && |key| == 32) || (1 <= encryptType <= 3 && |key| >= 16)
  }

  /** Decoding undoes encoding for every payload, key and random choice, whenever encoding succeeds at all. */
  lemma DecodeEncode(x: Crypto, payload: Bytes, key: Bytes, encryptType: int, sent: Bytes, iv: Bytes)
    requires Sound(x) && |sent| == 8 && |iv| == BLOCK
    ensures var e := Encode(x, payload, key, encryptType, sent, iv);
            && (e.Ok? <==> CanEncode(key, encryptType))
            && (e.Ok? ==> Decode(x, e.data, key, encryptType) == Ok(payload))
            && (e.Ok? && encryptType != 0 ==> |e.data| == 20 + PaddedLength(|payload|))
  {
    if encryptType == 0 {
      if |key| == 32 {
        CameraInverse(x, payload, key, sent);
      }
    } else if CanEncode(key, encryptType) {
      hide AesCrypt, ToLE, FromLE;
      var n := PaddedLength(|payload|) - |payload|;
      AesCryptInverse(x, Padded(payload), key[..16], iv, encryptType);
      var body := AesCrypt(x, Padded(payload), key[..16], iv, encryptType, true).data;
      var wire := ToLE(n, 4) + iv + body;
      assert wire[..4] == ToLE(n, 4) && wire[4..20] == iv && wire[20..] == body;
      PowValues();
      FromToLE(n, 4);
      assert Padded(payload)[..|Padded(payload)| - n] == payload;
    }
  }
}

/** Padding of LAN payloads (lan_types.go:201-227), as in section 6.3 of RFC 5652. */
module Pkcs7 {
  import opened Bytes

  datatype Unpadded = Clear(data: Bytes) | InvalidLength | InvalidPadding

  function Repeat(b: byte, n: nat): (s: Bytes)
    ensures |s| == n && forall i :: 0 <= i < n ==> s[i] == b
  {
    seq(n, _ => b)
  }

  function PadLength(length: nat, blockSize: nat): (n: nat)
    requires blockSize > 0
    ensures 1 <= n <= blockSize && (length + n) % blockSize == 0
  {
    PadCompletes(length, blockSize);
    blockSize - length % blockSize
  }

  lemma PadCompletes(length: nat, blockSize: nat)
    requires blockSize > 0
    ensures (length + (blockSize - length % blockSize)) % blockSize == 0
  {
    var q, r := length / blockSize, length % blockSize;
    assert length + (blockSize - r) == (q + 1) * blockSize;
    MultipleMod(q + 1, blockSize);
  }

  lemma MultipleMod(q: nat, m: nat)
    requires m > 0
    ensures q * m % m == 0
  {
    ModUnique(q * m, q, 0, m);
  }

  /** Quotient and remainder are determined by the division identity. */
  lemma ModUnique(x: nat, q: nat, r: nat, m: nat)
    requires m > 0 && x == q * m + r && r < m
    ensures x % m == r && x / m == q
  {
    var q', r' := x / m, x % m;
    assert x == m * q' + r';
    SmallMultiple(q - q', m, r' - r);
  }

  lemma SmallMultiple(d: int, m: int, gap: int)
    requires d * m == gap && -m < gap < m
    ensures d == 0
  {
    assert d >= 1 ==> d * m >= m;
    assert d <= -1 ==> d * m <= -m;
  }

  /** `byte(padLen)` keeps the low eight bits. */
  function Pad(data: Bytes, blockSize: nat): Bytes
    requires blockSize > 0
  {
    var n := PadLength(|data|, blockSize);
    data + Repeat(n % 256, n)
  }

  function Unpad(data: Bytes, blockSize: nat): Unpadded
    requires blockSize > 0
  {
    if |data| == 0 || |data| % blockSize != 0 then InvalidLength
    else
      var n := data[|data| - 1];
      if n == 0 || n > blockSize || n > |data| then InvalidPadding
      else if data[|data| - n..] != Repeat(n, n) then InvalidPadding
      else Clear(data[..|data| - n])
  }

  method Pkcs7Pad(data: Bytes, blockSize: nat) returns (padded: Bytes)
    requires blockSize > 0
    ensures padded == Pad(data, blockSize)
  {
    var padLen := blockSize - |data| % blockSize;
    if padLen == 0 {
      padLen := blockSize;
    }
    var pad := new byte[padLen];
    for i := 0 to padLen
      invariant forall k :: 0 <= k < i ==> pad[k] == padLen % 256
    {
      pad[i] := padLen % 256;
    }
    assert pad[..] == Repeat(padLen % 256, padLen);
    padded := data + pad[..];
  }

  method Pkcs7Unpad(data: Bytes, blockSize: nat) returns (result: Unpadded)
    requires blockSize > 0
    ensures result == Unpad(data, blockSize)
  {
    if |data| == 0 || |data| % blockSize != 0 {
      return InvalidLength;
    }
    var padLen := data[|data| - 1];
    if padLen == 0 || padLen > blockSize || padLen > |data| {
      return InvalidPadding;
    }
    var tail := data[|data| - padLen..];
    for i := 0 to |tail|
      invariant forall k :: 0 <= k < i ==> tail[k] == padLen
    {
      if tail[i] != padLen {
        assert tail[i] != Repeat(padLen, padLen)[i];
        return InvalidPadding;
      }
    }
    assert tail == Repeat(padLen, padLen);
    result := Clear(data[..|data| - padLen]);
  }

  lemma UnpadPad(data: Bytes, blockSize: nat)
    requires 1 <= blockSize <= 255
    ensures Unpad(Pad(data, blockSize), blockSize) == Clear(data)
    ensures |Pad(data, blockSize)| % blockSize == 0
  {
    var n := PadLength(|data|, blockSize);
    var y := Pad(data, blockSize);
    assert y[|y| - n..] == Repeat(n, n) && y[..|y| - n] == data;
  }

  /** Unpadding accepts only what padding produces, for every block size. */
  lemma PadUnpad(padded: Bytes, blockSize: nat)
    requires blockSize > 0 && Unpad(padded, blockSize).Clear?
    ensures Pad(Unpad(padded, blockSize).data, blockSize) == padded
  {
    var n := padded[|padded| - 1];
    var data := Unpad(padded, blockSize).data;
    PaddedLength(|padded|, n, blockSize);
    assert PadLength(|data|, blockSize) == n;
    assert padded == data + padded[|padded| - n..];
  }

  /** Which text each padded string gives, and which error every other string. */
  lemma UnpadIff(padded: Bytes, blockSize: nat, data: Bytes)
    requires 1 <= blockSize <= 255
    ensures Unpad(padded, blockSize) == Clear(data) <==> Pad(data, blockSize) == padded
    ensures padded == [] || |padded| % blockSize != 0 <==> Unpad(padded, blockSize) == InvalidLength
  {
    UnpadPad(data, blockSize);
    if Unpad(padded, blockSize) == Clear(data) {
      PadUnpad(padded, blockSize);
    }
  }

  /** What the length without the padding leaves modulo the block size. */
  lemma PaddedLength(length: nat, n: nat, blockSize: nat)
    requires blockSize > 0 && length > 0 && length % blockSize == 0 && 1 <= n <= blockSize && n <= length
    ensures (length - n) % blockSize == blockSize - n || (n == blockSize && (length - n) % blockSize == 0)
  {
    var q := length / blockSize;
    assert length == blockSize * q;
    assert length - n == (q - 1) * blockSize + (blockSize - n);
    assert q >= 1;
    if n == blockSize {
      ModUnique(length - n, q - 1, 0, blockSize);
    } else {
      ModUnique(length - n, q - 1, blockSize - n, blockSize);
    }
  }

  /** Exactly the block sizes for which the padding byte can hold the padding length. */
  lemma RoundTripIff(blockSize: nat)
    requires blockSize > 0
    ensures (forall data: Bytes :: Unpad(Pad(data, blockSize), blockSize) == Clear(data)) <==> blockSize <= 255
  {
    if blockSize <= 255 {
      forall data: Bytes
        ensures Unpad(Pad(data, blockSize), blockSize) == Clear(data)
      {
        UnpadPad(data, blockSize);
      }
    } else {
      var y := Pad([], blockSize);
      assert |y| == blockSize;
      assert Unpad(y, blockSize) != Clear([]);
    }
  }
}

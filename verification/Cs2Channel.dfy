/**
  Receiver half of one CS2 data channel (camera/native_cs2.go:322-403): sixteen-bit sequence
  numbers are put back in order with a bounded buffer, and the resulting byte stream is cut
  into frames that carry a four-byte big-endian length.
*/
module Cs2Channel {
  import opened Bytes

  const HALF := 0x8000

  /** The receiver's fields as a value. */
  datatype Rx = Rx(
    waitSeq: uint16,
    pushBuf: map<uint16, Bytes>,
    pushSize: nat,
    waitSize: uint32,
    waitData: Bytes,
    popBuf: seq<Bytes>,
    popSize: int)

  /** Bytes of a frame on the wire, and of a list of frames. */
  function EncodeFrame(frame: Bytes): Bytes
  {
    ToBE(|frame|, 4) + frame
  }

  function Encode(frames: seq<Bytes>): Bytes
  {
    if frames == [] then [] else EncodeFrame(frames[0]) + Encode(frames[1..])
  }

  /** The bytes that have arrived but have not left as part of a frame. */
  function Residue(waitSize: uint32, waitData: Bytes): Bytes
  {
    (if waitSize != 0 then ToBE(waitSize, 4) else []) + waitData
  }

  lemma HeaderRange(header: Bytes)
    requires |header| == 4
    ensures FromBE(header) < 0x1_0000_0000
  {
    PowValues();
  }

  function ReadSize(waitSize: uint32, waitData: Bytes): uint32
    requires |waitData| > 4
  {
    HeaderRange(waitData[..4]);
    if waitSize == 0 then FromBE(waitData[..4]) else waitSize
  }

  function ReadBody(waitSize: uint32, waitData: Bytes): Bytes
    requires |waitData| > 4
  {
    if waitSize == 0 then waitData[4..] else waitData
  }

  /** Result of cutting: the partial frame left, the outgoing queue, and whether no send failed. */
  datatype Cut = Cut(waitSize: uint32, waitData: Bytes, popBuf: seq<Bytes>, ok: bool)

  function CutFrames(waitSize: uint32, waitData: Bytes, popBuf: seq<Bytes>, popSize: int): Cut
    decreases |waitData|
  {
    if |waitData| <= 4 then Cut(waitSize, waitData, popBuf, true)
    else
      var size := ReadSize(waitSize, waitData);
      var body := ReadBody(waitSize, waitData);
      if size > |body| then Cut(size, body, popBuf, true)
      else if |popBuf| >= popSize then Cut(size, body, popBuf, false)
      else CutFrames(0, body[size..], popBuf + [body[..size]], popSize)
  }

  function PushBytes(rx: Rx, buffer: Bytes): (Rx, bool)
  {
    var cut := CutFrames(rx.waitSize, rx.waitData + buffer, rx.popBuf, rx.popSize);
    (rx.(waitSize := cut.waitSize, waitData := cut.waitData, popBuf := cut.popBuf), cut.ok)
  }

  /** The signed sixteen-bit difference: the comparison of section 3.2 of RFC 1982. */
  function SerialDiff(sequence: int, waitSeq: int): (d: int)
    ensures -HALF <= d < HALF
  {
    var d := (sequence - waitSeq) % 0x1_0000;
    if d < HALF then d else d - 0x1_0000
  }

  /** `pushed` is the first result of the Go `PushSeq`: an acknowledgement is sent iff it is >= 0. */
  datatype Outcome = Outcome(rx: Rx, pushed: int, ok: bool)

  function Advance(rx: Rx): Rx
  {
    rx.(waitSeq := (rx.waitSeq + 1) % 0x1_0000)
  }

  function Release(rx: Rx, payload: Bytes, count: nat): Outcome
    decreases |rx.pushBuf|
  {
    var (pushedRx, ok) := PushBytes(rx, payload);
    if !ok then Outcome(pushedRx, count, false)
    else
      var next := Advance(pushedRx);
      if next.waitSeq !in next.pushBuf then Outcome(next, count, true)
      else
        RemoveShrinks(next.pushBuf, next.waitSeq);
        Release(next.(pushBuf := next.pushBuf - {next.waitSeq}), next.pushBuf[next.waitSeq], count + 1)
  }

  lemma RemoveShrinks<K, V>(m: map<K, V>, k: K)
    requires k in m
    ensures |m - {k}| == |m| - 1
  {
    assert (m - {k}).Keys == m.Keys - {k};
    assert |m.Keys - {k}| == |m.Keys| - 1;
  }

  function PushSequenced(rx: Rx, sequence: uint16, payload: Bytes): Outcome
  {
    var diff := SerialDiff(sequence, rx.waitSeq);
    if diff > 0 then
      if rx.pushSize == 0 then Outcome(rx, -1, true)
      else if sequence in rx.pushBuf then Outcome(rx, 0, true)
      else if |rx.pushBuf| == rx.pushSize then Outcome(rx, -1, true)
      else Outcome(rx.(pushBuf := rx.pushBuf[sequence := payload]), 0, true)
    else if diff < 0 then Outcome(rx, 0, true)
    else Release(rx, payload, 1)
  }

  /** What a reader gets: a frame, the news that the channel is closed and empty, or nothing yet, where Go blocks. */
  datatype Popped = Frame(frame: Bytes) | Ended | Waits

  /** The receiver as the Go code has it: an object updated in place. */
  class DataChannel {
    var waitSeq: uint16
    var pushBuf: map<uint16, Bytes>
    var waitData: Bytes
    var waitSize: uint32
    var popBuf: seq<Bytes>
    var closed: bool
    const pushSize: nat
    const popSize: int

    ghost function View(): Rx
      reads this
    {
      Rx(waitSeq, pushBuf, pushSize, waitSize, waitData, popBuf, popSize)
    }

    constructor (pushSize: int, popSize: int)
      ensures View() == Rx(0, map[], if pushSize > 0 then pushSize else 0, 0, [], [], popSize)
      ensures !closed
    {
      this.closed := false;
      this.waitSeq := 0;
      this.pushBuf := map[];
      this.waitData := [];
      this.waitSize := 0;
      this.popBuf := [];
      this.pushSize := if pushSize > 0 then pushSize else 0;
      this.popSize := popSize;
    }

    method Push(buffer: Bytes) returns (ok: bool)
      modifies this`waitData, this`waitSize, this`popBuf
      ensures (View(), ok) == PushBytes(old(View()), buffer)
    {
      waitData := waitData + buffer;
      ghost var goal := CutFrames(waitSize, waitData, popBuf, popSize);
      while |waitData| > 4
        invariant CutFrames(waitSize, waitData, popBuf, popSize) == goal
        decreases |waitData|
      {
        HeaderRange(waitData[..4]);
        if waitSize == 0 {
          waitSize := FromBE(waitData[..4]);
          waitData := waitData[4..];
        }
        if waitSize > |waitData| {
          return true;
        }
        if |popBuf| >= popSize {
          return false;
        }
        popBuf := popBuf + [waitData[..waitSize]];
        waitData := waitData[waitSize..];
        waitSize := 0;
      }
      ok := true;
    }

    method PushSeq(sequence: uint16, payload: Bytes) returns (pushed: int, ok: bool)
      modifies this`waitSeq, this`pushBuf, this`waitData, this`waitSize, this`popBuf
      ensures Outcome(View(), pushed, ok) == PushSequenced(old(View()), sequence, payload)
    {
      var diff := SerialDiff(sequence, waitSeq);
      if diff > 0 {
        if pushSize == 0 {
          return -1, true;
        }
        if sequence !in pushBuf {
          if |pushBuf| == pushSize {
            return -1, true;
          }
          pushBuf := pushBuf[sequence := payload];
        }
        return 0, true;
      }
      if diff < 0 {
        return 0, true;
      }
      var current := payload;
      pushed := 1;
      ghost var goal := Release(View(), current, pushed);
      while true
        invariant pushed >= 1
        invariant Release(View(), current, pushed) == goal
        decreases |pushBuf|
      {
        ok := Push(current);
        if !ok {
          return;
        }
        waitSeq := (waitSeq + 1) % 0x1_0000;
        if waitSeq !in pushBuf {
          return;
        }
        current := pushBuf[waitSeq];
        RemoveShrinks(pushBuf, waitSeq);
        pushBuf := pushBuf - {waitSeq};
        pushed := pushed + 1;
      }
    }

    method Pop() returns (popped: Popped)
      modifies this`popBuf
      ensures old(popBuf) == [] ==> popped == (if closed then Ended else Waits) && popBuf == []
      ensures old(popBuf) != [] ==> popped.Frame? && old(popBuf) == [popped.frame] + popBuf
    {
      if popBuf == [] {
        return if closed then Ended else Waits;
      }
      popped := Frame(popBuf[0]);
      popBuf := popBuf[1..];
    }

    /** Frames already queued can still be popped. */
    method Close()
      modifies this`closed
      ensures closed
    {
      closed := true;
    }
  }

  /** The low bits of a count, as Go's `uint32(n)` conversion keeps them. */
  function Low32(n: nat): uint32
  {
    n % 0x1_0000_0000
  }

  /** One command packet; what follows its eight header bytes is a single frame for the peer's channel. */
  method MarshalCommand(channel: byte, sequence: uint16, command: uint32, payload: Bytes) returns (packet: Bytes)
    ensures |packet| == 16 + |payload|
    ensures packet[0] == 0xF1 && packet[1] == 0xD0 && packet[4] == 0xD1 && packet[5] == channel
    ensures packet[2..4] == ToBE((12 + |payload|) % 0x1_0000, 2) && packet[6..8] == ToBE(sequence, 2)
    ensures 4 + |payload| < 0x1_0000_0000 ==> packet[8..] == EncodeFrame(ToBE(command, 4) + payload)
  {
    hide ToBE;
    var length: uint16 := (12 + |payload|) % 0x1_0000;
    var request := new byte[16 + |payload|];
    request[0] := 0xF1;
    request[1] := 0xD0;
    WriteAt(request, 2, ToBE(length, 2));
    request[4] := 0xD1;
    request[5] := channel;
    WriteAt(request, 6, ToBE(sequence, 2));
    WriteAt(request, 8, ToBE(Low32(4 + |payload|), 4));
    WriteAt(request, 12, ToBE(command, 4));
    WriteAt(request, 16, payload);
    packet := request[..];
    CommandFrame(packet, ToBE(Low32(4 + |payload|), 4), ToBE(command, 4), payload);
  }

  lemma CommandFrame(packet: Bytes, size: Bytes, command: Bytes, payload: Bytes)
    requires |packet| == 16 + |payload| && |size| == |command| == 4
    requires packet[8..12] == size && packet[12..16] == command && packet[16..] == payload
    ensures packet[8..] == size + (command + payload)
  {
    assert packet[12..] == packet[12..16] + packet[16..];
    assert packet[8..] == packet[8..12] + packet[12..];
  }
}

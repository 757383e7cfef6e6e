/**
  What an acknowledgement is worth. The worker acknowledges whatever `PushSeq` did not refuse
  (camera/native_cs2.go:145-154), before it looks at the error; an acknowledged packet is consumed
  or buffered exactly as long as every released stretch of frames fits the pop buffer.
*/
module Cs2Acks {
  import opened Bytes
  import opened Cs2Channel
  import opened Cs2Reassembly
  import opened Cs2Network

  // ---------------------------------------------------------------- when releasing fails

  /** The payloads that follow number `sequence` in the buffer without a gap. */
  function Successors(buffered: map<uint16, Bytes>, sequence: uint16): seq<Bytes>
    decreases |buffered|
  {
    var next := (sequence + 1) % WRAP;
    if next !in buffered then []
    else
      RemoveShrinks(buffered, next);
      [buffered[next]] + Successors(buffered - {next}, next)
  }

  /** The frames that the awaited packet would complete, with the packets buffered behind it. */
  function ReleasedFrames(rx: Rx, payload: Bytes): seq<Bytes>
  {
    Feed(rx.waitSize, rx.waitData, [payload] + Successors(rx.pushBuf, rx.waitSeq)).frames
  }

  predicate Fits(rx: Rx, payload: Bytes)
  {
    var frames := ReleasedFrames(rx, payload);
    frames == [] || |rx.popBuf| + |frames| <= rx.popSize
  }

  lemma FeedFirst(waitSize: uint32, waitData: Bytes, payload: Bytes, later: seq<Bytes>)
    ensures var first := Drain(waitSize, waitData + payload);
            Feed(waitSize, waitData, [payload] + later).frames ==
            first.frames + Feed(first.waitSize, first.waitData, later).frames
  {
    assert ([payload] + later)[1..] == later;
  }

  /** Releasing succeeds exactly when all its frames fit the pop buffer, which can be told before it begins. */
  lemma {:induction false} ReleaseOkIff(rx: Rx, payload: Bytes, count: nat)
    ensures Release(rx, payload, count).ok <==> Fits(rx, payload)
    decreases |rx.pushBuf|
  {
    hide CutFrames, Drain, Feed;
    var (pushed, ok) := PushBytes(rx, payload);
    CutMeaning(rx.waitSize, rx.waitData + payload, rx.popBuf, rx.popSize);
    FeedFirst(rx.waitSize, rx.waitData, payload, Successors(rx.pushBuf, rx.waitSeq));
    FeedNothing(pushed.waitSize, pushed.waitData);
    if ok {
      var next := Advance(pushed);
      if next.waitSeq in next.pushBuf {
        RemoveShrinks(next.pushBuf, next.waitSeq);
        ReleaseOkIff(next.(pushBuf := next.pushBuf - {next.waitSeq}), next.pushBuf[next.waitSeq], count + 1);
      }
    }
  }

  lemma FeedNothing(waitSize: uint32, waitData: Bytes)
    ensures Feed(waitSize, waitData, []).frames == []
  {
  }

  /** An arrival fails exactly when it is the awaited packet and its frames do not fit. */
  lemma ArrivalFailsIff(packets: seq<Bytes>, n: Net, i: nat, n': Net)
    requires Receive(packets, n, i, n') && n.rx.waitSeq == Num(n.consumed)
    ensures n'.failed <==> i == n.consumed && !Fits(n.rx, packets[i])
  {
    WindowIff(i, n.consumed);
    ReleaseOkIff(n.rx, packets[i], 1);
    hide Release, Fits, SerialDiff, Num;
  }

  // ---------------------------------------------------------------- acknowledgements over whole runs

  ghost predicate AckSafe(n: Net)
  {
    forall i :: i in n.acked ==> i < n.consumed || Held(n, i)
  }

  /** The awaited packet arrives in step `j` and its frames do not fit the pop buffer. */
  ghost predicate Overflows(packets: seq<Bytes>, run: seq<Net>, j: nat)
    requires j + 1 < |run|
  {
    var n := run[j];
    n.consumed < |packets| && Receive(packets, n, n.consumed, run[j + 1]) && !Fits(n.rx, packets[n.consumed])
  }

  ghost predicate OverflowsBefore(packets: seq<Bytes>, run: seq<Net>, k: nat)
    requires k < |run|
  {
    exists j :: 0 <= j < k && Overflows(packets, run, j)
  }

  lemma OverflowStep(packets: seq<Bytes>, run: seq<Net>, j: nat)
    requires j + 1 < |run| && Next(packets, run[j], run[j + 1]) && Inv(packets, run[j])
    ensures run[j + 1].failed <==> run[j].failed || Overflows(packets, run, j)
  {
    var n, n' := run[j], run[j + 1];
    AwaitedNum(packets, n.rx, n.consumed);
    hide Fits, Inv, Num, PushSequenced;
    if !Pop(n, n') {
      var i: nat :| Receive(packets, n, i, n');
      ArrivalFailsIff(packets, n, i, n');
    }
    if n.consumed < |packets| && Receive(packets, n, n.consumed, n') {
      ArrivalFailsIff(packets, n, n.consumed, n');
    }
  }

  lemma StepOf(packets: seq<Bytes>, run: seq<Net>, pushSize: nat, popSize: nat, k: nat)
    requires IsRun(packets, run, pushSize, popSize) && k + 1 < |run|
    ensures Next(packets, run[k], run[k + 1])
  {
    hide Next;
  }

  lemma {:induction false} FailedIff(packets: seq<Bytes>, run: seq<Net>, pushSize: nat, popSize: nat, k: nat)
    requires IsRun(packets, run, pushSize, popSize) && k < |run|
    ensures run[k].failed <==> OverflowsBefore(packets, run, k)
  {
    if k > 0 {
      FailedIff(packets, run, pushSize, popSize, k - 1);
      RunInv(packets, run, pushSize, popSize, k - 1);
      StepOf(packets, run, pushSize, popSize, k - 1);
      hide Overflows, Inv, Next, IsRun;
      OverflowStep(packets, run, k - 1);
    }
  }

  /**
    Ack safety, exactly: in every run the acknowledged packets are consumed or still buffered if and
    only if every awaited packet that arrived had its frames, with those released behind it, fit the pop buffer.
  */
  lemma AckSafeIff(packets: seq<Bytes>, run: seq<Net>, pushSize: nat, popSize: nat, k: nat)
    requires IsRun(packets, run, pushSize, popSize) && k < |run|
    ensures AckSafe(run[k]) <==> !OverflowsBefore(packets, run, k)
  {
    RunInv(packets, run, pushSize, popSize, k);
    FailedIff(packets, run, pushSize, popSize, k);
    var n := run[k];
    assert n.failed ==> n.consumed in n.acked && !Held(n, n.consumed);
  }

  function OneByteFrames(count: nat): (frames: seq<Bytes>)
    ensures |frames| == count && Wire(frames)
  {
    if count == 0 then [] else OneByteFrames(count - 1) + [[0]]
  }

  lemma DrainOneByteFrame()
    ensures Drain(0, EncodeFrame([0])).frames == [[0]]
  {
    ReadHeader(1, [0]);
    assert [0][..1] == [0] && [0][1..] == [];
    assert Drain(0, []).frames == [];
  }

  lemma DrainOneByteFrames(count: nat)
    requires count > 0
    ensures Drain(0, Encode(OneByteFrames(count))).frames == OneByteFrames(count)
  {
    hide Drain, Encode, EncodeFrame;
    var gs := OneByteFrames(count - 1);
    EncodeAppend(gs, [[0]]);
    EncodeOne([0]);
    DrainOneByteFrame();
    assert EncodeFrame([0]) != [] by { NotEmptyFrame([0]); }
    DrainFrames(gs, EncodeFrame([0]));
  }

  lemma NotEmptyFrame(frame: Bytes)
    ensures EncodeFrame(frame) != []
  {
  }

  /** Whatever the sizes of the buffers, one packet with one frame too many is acknowledged and lost. */
  lemma OverflowRun(pushSize: nat, popSize: nat) returns (packets: seq<Bytes>, run: seq<Net>)
    ensures Flatten(packets) == Encode(OneByteFrames(popSize + 1))
    ensures IsRun(packets, run, pushSize, popSize) && |run| == 2
    ensures run[1].acked == {0} && run[1].consumed == 0 && !AckSafe(run[1])
  {
    hide CutFrames, Drain, Encode;
    var stream := Encode(OneByteFrames(popSize + 1));
    packets := [stream];
    FlattenSnoc([], stream);
    assert [] + [stream] == packets;
    var rx := Rx(0, map[], pushSize, 0, [], [], popSize);
    var n := Net(rx, 0, [], {}, false);
    DrainOneByteFrames(popSize + 1);
    FeedFirst(0, [], stream, []);
    assert [] + stream == stream && [stream] + [] == packets;
    ReleaseOkIff(rx, stream, 1);
    CutMeaning(0, stream, [], popSize);
    var out := Release(rx, stream, 1);
    var n' := Net(out.rx, 0, [], {0}, true);
    run := [n, n'];
    WindowIff(0, 0);
    assert Receive(packets, n, 0, n');
    assert Next(packets, run[0], run[0 + 1]);
    assert 0 in n'.acked && !Held(n', 0);
  }

  /**
    Which arrivals are acknowledged: all but a packet ahead of its turn that is not buffered yet when
    the buffer is full. Such a packet changes nothing, nor does one consumed or buffered before.
  */
  lemma AcknowledgedIff(
    packets: seq<Bytes>, run: seq<Net>, pushSize: nat, popSize: nat, k: nat, i: nat, n': Net)
    requires IsRun(packets, run, pushSize, popSize) && k < |run| && Receive(packets, run[k], i, n')
    ensures var n := run[k];
            var refused := i > n.consumed && !Held(n, i) && |n.rx.pushBuf| == n.rx.pushSize;
            && (refused ==> n' == n)
            && (i in n'.acked <==> !refused)
            && (i < n.consumed || Held(n, i) ==> n' == n.(acked := n.acked + {i}))
            && (i == n.consumed && !n'.failed ==> n'.consumed > i)
  {
    hide Num, Ordered, Streamed, StreamedUpTo, AckedKept, HeldAcked, Release, SerialDiff, IsRun;
    RunInv(packets, run, pushSize, popSize, k);
    var n := run[k];
    AwaitedNum(packets, n.rx, n.consumed);
    BufferBound(packets, n.rx, n.consumed);
    NoRoomNoKeys(n.rx, Num(i));
    if i > n.consumed && !Held(n, i) {
      NotYetAcked(packets, n, i);
    }
    ReceiveCases(packets, n, i, n');
    if i == n.consumed {
      ReleaseCounts(n.rx, packets[i], 1);
      WindowIff(i, n.consumed);
    }
  }

  lemma NotYetAcked(packets: seq<Bytes>, n: Net, i: nat)
    requires Inv(packets, n) && !n.failed && i > n.consumed && !Held(n, i)
    ensures i !in n.acked
  {
    hide Ordered, Streamed, HeldAcked;
  }

  /** If packets 0 to count - 1 have all been acknowledged then all of them have been consumed. */
  lemma AllAckedAllConsumed(
    packets: seq<Bytes>, run: seq<Net>, pushSize: nat, popSize: nat, k: nat, count: nat)
    requires IsRun(packets, run, pushSize, popSize) && k < |run| && !OverflowsBefore(packets, run, k)
    requires forall i: nat :: i < count ==> i in run[k].acked
    ensures run[k].consumed >= count
  {
    RunInv(packets, run, pushSize, popSize, k);
    FailedIff(packets, run, pushSize, popSize, k);
    hide OverflowsBefore, IsRun, Ordered, Streamed, HeldAcked;
    var n := run[k];
    assert n.consumed < count ==> n.consumed in n.acked;
  }

  /** At rest the awaited number is not buffered, buffered ones are 1 to 32767 ahead, and the bound holds. */
  lemma BufferAtRest(packets: seq<Bytes>, run: seq<Net>, pushSize: nat, popSize: nat, k: nat, key: uint16)
    requires IsRun(packets, run, pushSize, popSize) && k < |run|
    ensures var rx := run[k].rx;
            |rx.pushBuf| <= rx.pushSize && rx.waitSeq !in rx.pushBuf &&
            (key in rx.pushBuf ==> 0 < SerialDiff(key, rx.waitSeq) < HALF)
  {
    RunInv(packets, run, pushSize, popSize, k);
    var n := run[k];
    AbsoluteUnique(n.consumed, n.consumed);
    if key in n.rx.pushBuf {
      assert HoldsAt(packets, n.rx, n.consumed, key);
      AbsoluteFacts(n.consumed, key);
      WindowIff(Absolute(n.consumed, key), n.consumed);
    }
  }

  /** Outside the window: a packet exactly half the number space ahead is acknowledged and dropped. */
  lemma HalfAheadLost(rx: Rx, consumed: nat, payload: Bytes)
    requires rx.waitSeq == Num(consumed)
    ensures PushSequenced(rx, Num(consumed + HALF), payload) == Outcome(rx, 0, true)
  {
    assert (Num(consumed + HALF) - Num(consumed)) % WRAP == HALF;
  }
}

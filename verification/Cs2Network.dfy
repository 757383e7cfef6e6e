/**
  One CS2 data channel end to end. The sender cuts a length-prefixed stream into packets and
  numbers them modulo 2^16; the network loses, repeats and reorders them; the receiver answers
  as its `worker` does (camera/native_cs2.go:145-154). Packets are known here by their
  absolute index, which the receiver never sees.
*/
module Cs2Network {
  import opened Bytes
  import opened Cs2Channel
  import opened Cs2Reassembly

  const WRAP := 0x1_0000

  /**
    `consumed` counts the packets handed to `Push` without error, `read` is what the reader has
    popped, `acked` the packets an acknowledgement was sent for, and `failed` says that the pop
    buffer was full, after which the worker has returned.
  */
  datatype Net = Net(rx: Rx, consumed: nat, read: seq<Bytes>, acked: set<nat>, failed: bool)

  /** Every frame ever put on the pop buffer, in order. */
  function Delivered(n: Net): seq<Bytes>
  {
    n.read + n.rx.popBuf
  }

  /** The packets that the sixteen-bit comparison can still tell apart. */
  predicate InWindow(i: nat, consumed: nat)
  {
    -HALF <= i - consumed < HALF
  }

  /** The number packet `i` carries on the wire. */
  function Num(i: nat): uint16
  {
    i % WRAP
  }

  function Taken(out: Outcome): nat
  {
    if out.pushed <= 0 then 0 else if out.ok then out.pushed else out.pushed - 1
  }

  function NewFrames(before: seq<Bytes>, after: seq<Bytes>): seq<Bytes>
  {
    if |before| <= |after| then after[|before|..] else []
  }

  ghost predicate Initial(n: Net, pushSize: nat, popSize: nat)
  {
    n == Net(Rx(0, map[], pushSize, 0, [], [], popSize), 0, [], {}, false)
  }

  /** Any copy of any packet in the window arrives, at any time and any number of times. */
  ghost predicate Receive(packets: seq<Bytes>, n: Net, i: nat, n': Net)
  {
    && !n.failed && i < |packets| && InWindow(i, n.consumed)
    && var out := PushSequenced(n.rx, Num(i), packets[i]);
       && n' == Net(
                  out.rx,
                  n.consumed + Taken(out),
                  n.read,
                  if out.pushed >= 0 then n.acked + {i} else n.acked,
                  !out.ok)
  }

  ghost predicate Pop(n: Net, n': Net)
  {
    n.rx.popBuf != [] && n' == n.(rx := n.rx.(popBuf := n.rx.popBuf[1..]), read := n.read + [n.rx.popBuf[0]])
  }

  ghost predicate Next(packets: seq<Bytes>, n: Net, n': Net)
  {
    (exists i: nat :: Receive(packets, n, i, n')) || Pop(n, n')
  }

  ghost predicate IsRun(packets: seq<Bytes>, run: seq<Net>, pushSize: nat, popSize: nat)
  {
    && run != [] && Initial(run[0], pushSize, popSize)
    && forall k :: 0 <= k < |run| - 1 ==> Next(packets, run[k], run[k + 1])
  }

  // ---------------------------------------------------------------- the invariant

  /** The absolute index a buffered sequence number stands for. */
  function Absolute(consumed: nat, key: uint16): nat
  {
    consumed + (key - consumed) % WRAP
  }

  ghost predicate HoldsAt(packets: seq<Bytes>, rx: Rx, consumed: nat, key: uint16)
    requires key in rx.pushBuf
  {
    var a := Absolute(consumed, key);
    consumed < a < consumed + HALF && a < |packets| && rx.pushBuf[key] == packets[a]
  }

  ghost predicate Ordered(packets: seq<Bytes>, rx: Rx, consumed: nat)
  {
    && consumed <= |packets|
    && rx.waitSeq == Num(consumed)
    && |rx.pushBuf| <= rx.pushSize
    && forall key :: key in rx.pushBuf ==> HoldsAt(packets, rx, consumed, key)
  }

  /** The channel is where pushing the consumed packets in order leaves it. */
  ghost predicate Streamed(
    packets: seq<Bytes>, waitSize: uint32, waitData: Bytes, consumed: nat, delivered: seq<Bytes>)
  {
    consumed <= |packets| && Feed(0, [], packets[..consumed]) == Drained(delivered, waitSize, waitData)
  }

  /** When the pop buffer overflowed, only the frames are certain. */
  ghost predicate StreamedUpTo(packets: seq<Bytes>, consumed: nat, delivered: seq<Bytes>)
  {
    consumed < |packets| && Wire(delivered) && Encode(delivered) <= Flatten(packets[..consumed + 1])
  }

  ghost predicate Held(n: Net, i: nat)
  {
    n.consumed < i < n.consumed + HALF && Num(i) in n.rx.pushBuf
  }

  ghost predicate AckedKept(n: Net)
  {
    forall i :: i in n.acked ==> i < n.consumed || Held(n, i) || (n.failed && i == n.consumed)
  }

  ghost predicate HeldAcked(n: Net)
  {
    forall key :: key in n.rx.pushBuf ==> Absolute(n.consumed, key) in n.acked
  }

  ghost predicate Inv(packets: seq<Bytes>, n: Net)
  {
    && Ordered(packets, n.rx, n.consumed)
    && (if n.failed then StreamedUpTo(packets, n.consumed, Delivered(n))
        else Streamed(packets, n.rx.waitSize, n.rx.waitData, n.consumed, Delivered(n)))
    && AckedKept(n) && HeldAcked(n)
    && (n.failed ==> n.consumed in n.acked)
  }

  // ---------------------------------------------------------------- arithmetic of the window

  lemma AbsoluteFacts(consumed: nat, key: uint16)
    ensures var a := Absolute(consumed, key);
            Num(a) == key && consumed <= a < consumed + WRAP
  {
  }

  lemma AbsoluteUnique(consumed: nat, a: nat)
    requires consumed <= a < consumed + WRAP
    ensures Absolute(consumed, Num(a)) == a
  {
  }

  /** The sixteen-bit comparison recovers the true distance exactly on the window. */
  lemma WindowIff(i: nat, consumed: nat)
    ensures SerialDiff(Num(i), Num(consumed)) == i - consumed <==> InWindow(i, consumed)
  {
    assert (Num(i) - Num(consumed)) % WRAP == (i - consumed) % WRAP;
  }

  lemma AbsoluteAdvance(consumed: nat, key: uint16)
    requires consumed < Absolute(consumed, key)
    ensures Absolute(consumed + 1, key) == Absolute(consumed, key)
  {
  }

  lemma AdvanceNum(rx: Rx, k: nat)
    requires rx.waitSeq == Num(k)
    ensures Advance(rx) == rx.(waitSeq := Num(k + 1))
  {
  }

  // ---------------------------------------------------------------- one Push

  lemma StreamedMeaning(packets: seq<Bytes>, waitSize: uint32, waitData: Bytes, consumed: nat, delivered: seq<Bytes>)
    requires Streamed(packets, waitSize, waitData, consumed, delivered)
    ensures Wire(delivered) && Encode(delivered) + Residue(waitSize, waitData) == Flatten(packets[..consumed])
  {
    Fed(packets[..consumed]);
  }

  lemma OnePush(packets: seq<Bytes>, rx: Rx, k: nat, delivered: seq<Bytes>)
    requires k < |packets| && Streamed(packets, rx.waitSize, rx.waitData, k, delivered)
    ensures var (rx', ok) := PushBytes(rx, packets[k]);
            var delivered' := delivered + NewFrames(rx.popBuf, rx'.popBuf);
            && rx.popBuf <= rx'.popBuf
            && (ok ==> Streamed(packets, rx'.waitSize, rx'.waitData, k + 1, delivered'))
            && (!ok ==> StreamedUpTo(packets, k, delivered'))
  {
    hide Feed, Encode, Drain, Residue, CutFrames;
    var (rx', ok) := PushBytes(rx, packets[k]);
    var data := rx.waitData + packets[k];
    CutMeaning(rx.waitSize, data, rx.popBuf, rx.popSize);
    var d := Drain(rx.waitSize, data);
    FeedSnoc(0, [], packets[..k], packets[k]);
    assert packets[..k + 1] == packets[..k] + [packets[k]];
    if ok {
      assert NewFrames(rx.popBuf, rx'.popBuf) == d.frames;
    } else {
      Fed(packets[..k + 1]);
      SomeOfThem(delivered, NewFrames(rx.popBuf, rx'.popBuf), d.frames, Residue(d.waitSize, d.waitData));
    }
  }

  /** Fewer frames of one stream. */
  lemma SomeOfThem(delivered: seq<Bytes>, added: seq<Bytes>, frames: seq<Bytes>, tail: Bytes)
    requires added <= frames && Wire(delivered + frames)
    ensures Wire(delivered + added) && Encode(delivered + added) <= Encode(delivered + frames) + tail
  {
    assert frames == added + frames[|added|..];
    Assoc(delivered, added, frames[|added|..]);
    EncodeAppend(delivered + added, frames[|added|..]);
    assert forall i :: 0 <= i < |delivered + added| ==> (delivered + added)[i] == (delivered + frames)[i];
  }

  // ---------------------------------------------------------------- releasing buffered packets

  lemma AdvanceOrdered(packets: seq<Bytes>, rx: Rx, k: nat)
    requires k < |packets| && Ordered(packets, rx, k)
    requires Num(k + 1) !in rx.pushBuf
    ensures Ordered(packets, Advance(rx), k + 1)
  {
    hide Absolute, Num, Advance;
    AdvanceNum(rx, k);
    forall key | key in rx.pushBuf
      ensures HoldsAt(packets, Advance(rx), k + 1, key)
    {
      assert HoldsAt(packets, rx, k, key);
      AbsoluteAdvance(k, key);
      AbsoluteFacts(k, key);
    }
  }

  /** The packet after the one consumed is buffered: it comes out, and the rest stays ordered. */
  lemma TakeNext(packets: seq<Bytes>, rx: Rx, k: nat)
    requires k < |packets| && Ordered(packets, rx, k)
    requires Num(k + 1) in rx.pushBuf
    ensures k + 1 < |packets| && rx.pushBuf[Num(k + 1)] == packets[k + 1]
    ensures Ordered(packets, Advance(rx).(pushBuf := rx.pushBuf - {Num(k + 1)}), k + 1)
  {
    hide Absolute, Num, Advance;
    var s := Num(k + 1);
    assert HoldsAt(packets, rx, k, s);
    AbsoluteUnique(k, k + 1);
    RemoveShrinks(rx.pushBuf, s);
    AdvanceNum(rx, k);
    var rest := Advance(rx).(pushBuf := rx.pushBuf - {s});
    forall key | key in rest.pushBuf
      ensures HoldsAt(packets, rest, k + 1, key)
    {
      assert HoldsAt(packets, rx, k, key);
      AbsoluteAdvance(k, key);
      AbsoluteFacts(k, key);
    }
  }

  /**
    What releasing did to the buffer between window positions `k` and `k'`: it only removed
    packets, each of them reached, and when `Push` failed on a later packet than `k` that packet
    had been buffered.
  */
  ghost predicate BufferMoved(before: Rx, k: nat, after: Rx, k': nat, ok: bool)
  {
    && after.pushBuf.Keys <= before.pushBuf.Keys
    && (forall key :: key in after.pushBuf ==> Absolute(k', key) == Absolute(k, key))
    && (forall key :: key in before.pushBuf && key !in after.pushBuf ==>
          Absolute(k, key) < k' || (!ok && Absolute(k, key) == k'))
    && (!ok && k' != k ==> Num(k') in before.pushBuf && Absolute(k, Num(k')) == k')
  }

  ghost predicate Released(
    packets: seq<Bytes>, rx: Rx, k: nat, delivered: seq<Bytes>, count: nat, out: Outcome)
  {
    && out.pushed >= count
    && var k' := k + (out.pushed - count) + (if out.ok then 1 else 0);
       var delivered' := delivered + NewFrames(rx.popBuf, out.rx.popBuf);
       && Ordered(packets, out.rx, k')
       && rx.popBuf <= out.rx.popBuf
       && BufferMoved(rx, k, out.rx, k', out.ok)
       && (if out.ok then Streamed(packets, out.rx.waitSize, out.rx.waitData, k', delivered')
           else StreamedUpTo(packets, k', delivered'))
  }

  lemma {:induction false} ReleaseKeeps(packets: seq<Bytes>, rx: Rx, k: nat, delivered: seq<Bytes>, count: nat)
    requires k < |packets| && Ordered(packets, rx, k) && Streamed(packets, rx.waitSize, rx.waitData, k, delivered)
    ensures Released(packets, rx, k, delivered, count, Release(rx, packets[k], count))
    decreases |rx.pushBuf|
  {
    hide CutFrames, Absolute, Num, Advance, HoldsAt, Streamed, StreamedUpTo;
    var (pushed, ok) := PushBytes(rx, packets[k]);
    OnePush(packets, rx, k, delivered);
    OrderedAfterPush(packets, rx, k);
    if ok {
      var next := Advance(pushed);
      AdvanceNum(pushed, k);
      if next.waitSeq !in next.pushBuf {
        AdvanceOrdered(packets, pushed, k);
        MoveByOne(packets, rx, k);
      } else {
        TakeNext(packets, pushed, k);
        RemoveShrinks(next.pushBuf, next.waitSeq);
        var rest := next.(pushBuf := next.pushBuf - {next.waitSeq});
        var delivered' := delivered + NewFrames(rx.popBuf, pushed.popBuf);
        ReleaseKeeps(packets, rest, k + 1, delivered', count + 1);
        ReleaseCompose(packets, rx, k, delivered, count, rest, Release(rest, packets[k + 1], count + 1));
      }
    }
  }

  lemma OrderedAfterPush(packets: seq<Bytes>, rx: Rx, k: nat)
    requires Ordered(packets, rx, k) && k < |packets|
    ensures Ordered(packets, PushBytes(rx, packets[k]).0, k)
  {
    var rx' := PushBytes(rx, packets[k]).0;
    forall key | key in rx'.pushBuf
      ensures HoldsAt(packets, rx', k, key)
    {
      assert HoldsAt(packets, rx, k, key);
    }
  }

  lemma MoveByOne(packets: seq<Bytes>, rx: Rx, k: nat)
    requires Ordered(packets, rx, k)
    ensures forall key :: key in rx.pushBuf ==> Absolute(k + 1, key) == Absolute(k, key)
  {
    forall key | key in rx.pushBuf
      ensures Absolute(k + 1, key) == Absolute(k, key)
    {
      assert HoldsAt(packets, rx, k, key);
      AbsoluteAdvance(k, key);
    }
  }

  lemma MovedCompose(packets: seq<Bytes>, rx: Rx, k: nat, rest: Rx, after: Rx, k': nat, ok: bool)
    requires Ordered(packets, rx, k)
    requires Num(k + 1) in rx.pushBuf && rest.pushBuf == rx.pushBuf - {Num(k + 1)}
    requires k + 1 <= k' && (ok ==> k + 1 < k')
    requires BufferMoved(rest, k + 1, after, k', ok)
    ensures BufferMoved(rx, k, after, k', ok)
  {
    MoveByOne(packets, rx, k);
    AbsoluteUnique(k, k + 1);
    hide Absolute, Num, Ordered;
    assert Absolute(k, Num(k + 1)) == k + 1;
    forall key | key in rx.pushBuf && key !in after.pushBuf
      ensures Absolute(k, key) < k' || (!ok && Absolute(k, key) == k')
    {
      if key != Num(k + 1) {
        assert key in rest.pushBuf;
        assert Absolute(k + 1, key) == Absolute(k, key);
      }
    }
  }

  lemma ReleaseCompose(
    packets: seq<Bytes>, rx: Rx, k: nat, delivered: seq<Bytes>, count: nat, rest: Rx, out: Outcome)
    requires Ordered(packets, rx, k) && k < |packets|
    requires rx.popBuf <= rest.popBuf && Num(k + 1) in rx.pushBuf
    requires rest.pushBuf == rx.pushBuf - {Num(k + 1)}
    requires Released(packets, rest, k + 1, delivered + NewFrames(rx.popBuf, rest.popBuf), count + 1, out)
    ensures Released(packets, rx, k, delivered, count, out)
  {
    hide Absolute, Num, BufferMoved, Ordered, Streamed, StreamedUpTo;
    NewFramesCompose(rx.popBuf, rest.popBuf, out.rx.popBuf);
    Assoc(delivered, NewFrames(rx.popBuf, rest.popBuf), NewFrames(rest.popBuf, out.rx.popBuf));
    var k' := k + (out.pushed - count) + (if out.ok then 1 else 0);
    MovedCompose(packets, rx, k, rest, out.rx, k', out.ok);
  }

  lemma NewFramesCompose(a: seq<Bytes>, b: seq<Bytes>, c: seq<Bytes>)
    requires a <= b <= c
    ensures NewFrames(a, b) + NewFrames(b, c) == NewFrames(a, c)
  {
  }

  // ---------------------------------------------------------------- steps keep the invariant

  lemma StoreOrdered(packets: seq<Bytes>, rx: Rx, k: nat, i: nat)
    requires Ordered(packets, rx, k) && i < |packets| && k < i < k + HALF
    requires Num(i) !in rx.pushBuf && |rx.pushBuf| < rx.pushSize
    ensures Ordered(packets, rx.(pushBuf := rx.pushBuf[Num(i) := packets[i]]), k)
  {
    AbsoluteUnique(k, i);
    hide Absolute, Num;
    var rx' := rx.(pushBuf := rx.pushBuf[Num(i) := packets[i]]);
    assert rx'.pushBuf.Keys == rx.pushBuf.Keys + {Num(i)};
    assert |rx'.pushBuf| == |rx'.pushBuf.Keys| == |rx.pushBuf.Keys| + 1;
    forall key | key in rx'.pushBuf
      ensures HoldsAt(packets, rx', k, key)
    {
      if key != Num(i) {
        assert HoldsAt(packets, rx, k, key);
      }
    }
  }

  lemma StoreKeeps(packets: seq<Bytes>, n: Net, i: nat, n': Net)
    requires Inv(packets, n) && !n.failed && i < |packets| && n.consumed < i < n.consumed + HALF
    requires Num(i) !in n.rx.pushBuf && |n.rx.pushBuf| < n.rx.pushSize
    requires n' == n.(rx := n.rx.(pushBuf := n.rx.pushBuf[Num(i) := packets[i]]), acked := n.acked + {i})
    ensures Inv(packets, n')
  {
    StoreOrdered(packets, n.rx, n.consumed, i);
    StoreAcks(n, i, packets[i], n');
  }

  lemma StoreAcks(n: Net, i: nat, payload: Bytes, n': Net)
    requires AckedKept(n) && HeldAcked(n) && !n.failed && n.consumed < i < n.consumed + HALF
    requires n' == n.(rx := n.rx.(pushBuf := n.rx.pushBuf[Num(i) := payload]), acked := n.acked + {i})
    ensures AckedKept(n') && HeldAcked(n')
  {
    AbsoluteUnique(n.consumed, i);
    hide Absolute, Num;
  }

  /** Acknowledged packets stay kept, and buffered ones acknowledged, when the window moves from `n` to `n'`. */
  lemma ReleaseAcks(packets: seq<Bytes>, n: Net, n': Net)
    requires Ordered(packets, n'.rx, n'.consumed)
    requires AckedKept(n) && HeldAcked(n) && !n.failed
    requires n.consumed <= n'.consumed && (!n'.failed ==> n.consumed < n'.consumed)
    requires BufferMoved(n.rx, n.consumed, n'.rx, n'.consumed, !n'.failed)
    requires n'.acked == n.acked + {n.consumed}
    ensures AckedKept(n') && HeldAcked(n') && (n'.failed ==> n'.consumed in n'.acked)
  {
    hide Absolute, Num, Ordered;
    forall j | j in n'.acked
      ensures j < n'.consumed || Held(n', j) || (n'.failed && j == n'.consumed)
    {
      if j > n.consumed {
        StillKept(packets, n, n', j);
      }
    }
  }

  /** A buffered packet is still buffered, has been consumed, or is the one that failed. */
  lemma StillKept(packets: seq<Bytes>, n: Net, n': Net, j: nat)
    requires Held(n, j) && Ordered(packets, n'.rx, n'.consumed)
    requires BufferMoved(n.rx, n.consumed, n'.rx, n'.consumed, !n'.failed)
    ensures j < n'.consumed || Held(n', j) || (n'.failed && j == n'.consumed)
  {
    AbsoluteUnique(n.consumed, j);
    hide Absolute, Num;
    if Num(j) in n'.rx.pushBuf {
      assert HoldsAt(packets, n'.rx, n'.consumed, Num(j));
    }
  }

  lemma ReleaseStep(packets: seq<Bytes>, n: Net, n': Net)
    requires Inv(packets, n) && n.consumed < |packets|
    requires Receive(packets, n, n.consumed, n')
    ensures Inv(packets, n')
  {
    var k := n.consumed;
    WindowIff(k, k);
    hide Absolute, Num, CutFrames, SerialDiff, Release, Ordered, Streamed, StreamedUpTo, AckedKept, HeldAcked,
      BufferMoved;
    var out := Release(n.rx, packets[k], 1);
    AwaitedNum(packets, n.rx, k);
    assert PushSequenced(n.rx, Num(k), packets[k]) == out;
    ReleaseKeeps(packets, n.rx, k, Delivered(n), 1);
    assert Delivered(n) + NewFrames(n.rx.popBuf, out.rx.popBuf) == Delivered(n');
    ReleaseAcks(packets, n, n');
  }

  lemma AwaitedNum(packets: seq<Bytes>, rx: Rx, consumed: nat)
    requires Ordered(packets, rx, consumed)
    ensures rx.waitSeq == Num(consumed)
  {
  }

  lemma BufferBound(packets: seq<Bytes>, rx: Rx, consumed: nat)
    requires Ordered(packets, rx, consumed)
    ensures |rx.pushBuf| <= rx.pushSize
  {
  }

  lemma NoRoomNoKeys(rx: Rx, key: uint16)
    requires |rx.pushBuf| <= rx.pushSize
    ensures key in rx.pushBuf ==> rx.pushSize != 0
  {
  }

  /** A packet already consumed or already buffered is acknowledged again and changes nothing else. */
  lemma RepeatKeeps(packets: seq<Bytes>, n: Net, i: nat, n': Net)
    requires Inv(packets, n) && n' == n.(acked := n.acked + {i})
    requires i < n.consumed || Held(n, i)
    ensures Inv(packets, n')
  {
    hide Num, Absolute, Ordered, Streamed, StreamedUpTo;
  }

  /** The four things that can come of one arrival. */
  lemma ReceiveCases(packets: seq<Bytes>, n: Net, i: nat, n': Net)
    requires Receive(packets, n, i, n') && n.rx.waitSeq == Num(n.consumed)
    ensures i < n.consumed ==> n' == n.(acked := n.acked + {i})
    ensures i > n.consumed && Num(i) in n.rx.pushBuf && n.rx.pushSize != 0 ==> n' == n.(acked := n.acked + {i})
    ensures i > n.consumed && Num(i) !in n.rx.pushBuf && |n.rx.pushBuf| == n.rx.pushSize ==> n' == n
    ensures i > n.consumed && Num(i) !in n.rx.pushBuf && |n.rx.pushBuf| < n.rx.pushSize ==>
              n' == n.(rx := n.rx.(pushBuf := n.rx.pushBuf[Num(i) := packets[i]]), acked := n.acked + {i})
    ensures i == n.consumed ==> i in n'.acked
  {
    WindowIff(i, n.consumed);
    if i == n.consumed {
      ReleaseCounts(n.rx, packets[i], 1);
    }
    hide Num, SerialDiff, Release;
  }

  lemma {:induction false} ReleaseCounts(rx: Rx, payload: Bytes, count: nat)
    ensures Release(rx, payload, count).pushed >= count
    decreases |rx.pushBuf|
  {
    hide CutFrames;
    var (pushed, ok) := PushBytes(rx, payload);
    var next := Advance(pushed);
    if ok && next.waitSeq in next.pushBuf {
      RemoveShrinks(next.pushBuf, next.waitSeq);
      ReleaseCounts(next.(pushBuf := next.pushBuf - {next.waitSeq}), next.pushBuf[next.waitSeq], count + 1);
    }
  }

  lemma ReceiveKeeps(packets: seq<Bytes>, n: Net, i: nat, n': Net)
    requires Inv(packets, n) && Receive(packets, n, i, n')
    ensures Inv(packets, n')
  {
    AwaitedNum(packets, n.rx, n.consumed);
    ReceiveCases(packets, n, i, n');
    BufferBound(packets, n.rx, n.consumed);
    if i == n.consumed {
      ReleaseStep(packets, n, n');
    } else if n' != n {
      NoRoomNoKeys(n.rx, Num(i));
      hide Receive, Num, Ordered, Streamed, AckedKept, HeldAcked;
      assert i > n.consumed ==> i < n.consumed + HALF;
      if i < n.consumed || Num(i) in n.rx.pushBuf {
        RepeatKeeps(packets, n, i, n');
      } else {
        StoreKeeps(packets, n, i, n');
      }
    }
  }

  lemma OrderedSame(packets: seq<Bytes>, rx: Rx, rx': Rx, k: nat)
    requires Ordered(packets, rx, k)
    requires rx'.pushBuf == rx.pushBuf && rx'.waitSeq == rx.waitSeq && rx'.pushSize == rx.pushSize
    ensures Ordered(packets, rx', k)
  {
    hide Absolute, Num;
    forall key | key in rx'.pushBuf
      ensures HoldsAt(packets, rx', k, key)
    {
      assert HoldsAt(packets, rx, k, key);
    }
  }

  lemma PopKeeps(packets: seq<Bytes>, n: Net, n': Net)
    requires Inv(packets, n) && Pop(n, n')
    ensures Inv(packets, n')
  {
    OrderedSame(packets, n.rx, n'.rx, n.consumed);
    MoveHead(n.read, n.rx.popBuf);
    hide Delivered, Ordered, Streamed, StreamedUpTo, Absolute, Num;
    assert Delivered(n') == Delivered(n) by {
      DeliveredIs(n);
      DeliveredIs(n');
    }
    assert AckedKept(n') && HeldAcked(n');
  }

  lemma DeliveredIs(n: Net)
    ensures Delivered(n) == n.read + n.rx.popBuf
  {
  }

  lemma MoveHead<T>(a: seq<T>, b: seq<T>)
    requires b != []
    ensures (a + [b[0]]) + b[1..] == a + b
  {
  }

  lemma NextKeeps(packets: seq<Bytes>, n: Net, n': Net)
    requires Inv(packets, n) && Next(packets, n, n')
    ensures Inv(packets, n')
  {
    if Pop(n, n') {
      PopKeeps(packets, n, n');
    } else {
      var i: nat :| Receive(packets, n, i, n');
      ReceiveKeeps(packets, n, i, n');
    }
  }

  lemma {:induction false} RunInv(packets: seq<Bytes>, run: seq<Net>, pushSize: nat, popSize: nat, k: nat)
    requires IsRun(packets, run, pushSize, popSize) && k < |run|
    ensures Inv(packets, run[k])
  {
    if k > 0 {
      RunInv(packets, run, pushSize, popSize, k - 1);
      assert Next(packets, run[k - 1], run[k - 1 + 1]);
      NextKeeps(packets, run[k - 1], run[k]);
    }
  }

  // ---------------------------------------------------------------- main results

  /**
    In every run, whatever the network does inside the window, the frames handed to the reader
    are a prefix of the frames sent, also when the pop buffer overflowed; and until then the
    bytes given to `Push` are exactly those of packets 0 to consumed - 1, in that order.
  */
  lemma FramesArePrefix(
    packets: seq<Bytes>, frames: seq<Bytes>, run: seq<Net>, pushSize: nat, popSize: nat, k: nat)
    requires IsRun(packets, run, pushSize, popSize) && k < |run|
    requires Wire(frames) && Flatten(packets) <= Encode(frames)
    ensures Delivered(run[k]) <= frames
    ensures var n := run[k];
            n.consumed <= |packets| &&
            (!n.failed ==>
               Encode(Delivered(n)) + Residue(n.rx.waitSize, n.rx.waitData) == Flatten(packets[..n.consumed]) &&
               Feed(0, [], packets[..n.consumed]).frames == Delivered(n))
  {
    RunInv(packets, run, pushSize, popSize, k);
    InvPrefix(packets, frames, run[k]);
    hide Feed, Ordered, AckedKept, HeldAcked, Encode, Residue;
    var n := run[k];
    if !n.failed {
      StreamedMeaning(packets, n.rx.waitSize, n.rx.waitData, n.consumed, Delivered(n));
    }
  }

  lemma InvPrefix(packets: seq<Bytes>, frames: seq<Bytes>, n: Net)
    requires Inv(packets, n) && Wire(frames) && Flatten(packets) <= Encode(frames)
    ensures Delivered(n) <= frames
  {
    hide Ordered, AckedKept, HeldAcked, Encode, Flatten;
    if !n.failed {
      StreamedMeaning(packets, n.rx.waitSize, n.rx.waitData, n.consumed, Delivered(n));
    }
    var upTo := if n.failed then n.consumed + 1 else n.consumed;
    SentSoFar(packets, upTo);
    PrefixChain(Encode(Delivered(n)), Flatten(packets[..upTo]), Flatten(packets[upTo..]), Encode(frames));
    EncodePrefix(Delivered(n), frames);
  }

  lemma SentSoFar(packets: seq<Bytes>, upTo: nat)
    requires upTo <= |packets|
    ensures Flatten(packets) == Flatten(packets[..upTo]) + Flatten(packets[upTo..])
  {
    assert packets == packets[..upTo] + packets[upTo..];
    FlattenAppend(packets[..upTo], packets[upTo..]);
  }

  lemma PrefixChain(a: Bytes, b: Bytes, c: Bytes, d: Bytes)
    requires a <= b && b + c <= d
    ensures a <= d
  {
  }

  /**
    Once every packet has been consumed the reader has every frame but possibly the last, which is
    outstanding exactly when it is empty, or has at most four bytes and some packet ended inside it.
  */
  lemma AllConsumedAllDelivered(
    packets: seq<Bytes>, frames: seq<Bytes>, run: seq<Net>, pushSize: nat, popSize: nat, k: nat)
    requires IsRun(packets, run, pushSize, popSize) && k < |run|
    requires Wire(frames) && Flatten(packets) == Encode(frames)
    requires run[k].consumed == |packets| && !run[k].failed
    ensures Delivered(run[k]) == if HeldBack(frames, packets) then frames[..|frames| - 1] else frames
  {
    RunInv(packets, run, pushSize, popSize, k);
    assert packets[..run[k].consumed] == packets;
    CompleteStreamIff(frames, packets);
  }
}

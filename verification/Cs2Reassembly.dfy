/**
  What frame cutting means: bytes are conserved, the frames are those the peer encoded, and
  the exact streams for which the delivered frames do not depend on packet boundaries.
*/
module Cs2Reassembly {
  import opened Bytes
  import opened Cs2Channel

  /** Cutting with an unbounded queue: the frames that leave, and the partial frame that stays. */
  datatype Drained = Drained(frames: seq<Bytes>, waitSize: uint32, waitData: Bytes)

  function Drain(waitSize: uint32, waitData: Bytes): Drained
    decreases |waitData|
  {
    if |waitData| <= 4 then Drained([], waitSize, waitData)
    else
      var size := ReadSize(waitSize, waitData);
      var body := ReadBody(waitSize, waitData);
      if size > |body| then Drained([], size, body)
      else
        var rest := Drain(0, body[size..]);
        rest.(frames := [body[..size]] + rest.frames)
  }

  /** Successive `Push` calls from a given partial frame. */
  function Feed(waitSize: uint32, waitData: Bytes, chunks: seq<Bytes>): Drained
    decreases |chunks|
  {
    if chunks == [] then Drained([], waitSize, waitData)
    else
      var first := Drain(waitSize, waitData + chunks[0]);
      var rest := Feed(first.waitSize, first.waitData, chunks[1..]);
      rest.(frames := first.frames + rest.frames)
  }

  // ---------------------------------------------------------------- lists of frames

  /** Every length fits the four-byte header. */
  ghost predicate Wire(frames: seq<Bytes>)
  {
    forall i :: 0 <= i < |frames| ==> |frames[i]| < 0x1_0000_0000
  }

  lemma {:induction false} EncodeAppend(fs: seq<Bytes>, gs: seq<Bytes>)
    ensures Encode(fs + gs) == Encode(fs) + Encode(gs)
  {
    if fs == [] {
      assert fs + gs == gs;
    } else {
      assert (fs + gs)[0] == fs[0] && (fs + gs)[1..] == fs[1..] + gs;
      EncodeAppend(fs[1..], gs);
    }
  }

  lemma EncodeOne(f: Bytes)
    ensures Encode([f]) == EncodeFrame(f)
  {
    assert Encode([f]) == EncodeFrame(f) + Encode([]);
  }

  lemma EncodeSplitAt(fs: seq<Bytes>, k: nat)
    requires k <= |fs|
    ensures Encode(fs) == Encode(fs[..k]) + Encode(fs[k..])
  {
    assert fs == fs[..k] + fs[k..];
    EncodeAppend(fs[..k], fs[k..]);
  }

  /** The length prefix makes the first frame of a stream unique. */
  lemma HeadFrame(f: Bytes, r: Bytes, g: Bytes, q: Bytes)
    requires |f| < 0x1_0000_0000 && |g| < 0x1_0000_0000
    requires EncodeFrame(f) + r == EncodeFrame(g) + q
    ensures f == g && r == q
  {
    PowValues();
    Assoc(ToBE(|f|, 4), f, r);
    Assoc(ToBE(|g|, 4), g, q);
    SplitEqual(ToBE(|f|, 4), f + r, ToBE(|g|, 4), g + q);
    FromToBE(|f|, 4);
    FromToBE(|g|, 4);
    SplitEqual(f, r, g, q);
  }

  /** Two readings of one stream as frames and a remainder are comparable. */
  lemma {:induction false} FramesComparable(fs: seq<Bytes>, r: Bytes, gs: seq<Bytes>, q: Bytes)
    requires Wire(fs) && Wire(gs)
    requires Encode(fs) + r == Encode(gs) + q
    ensures fs <= gs || gs <= fs
  {
    hide EncodeFrame;
    if fs != [] && gs != [] {
      var r', q' := Encode(fs[1..]) + r, Encode(gs[1..]) + q;
      assert EncodeFrame(fs[0]) + r' == Encode(fs) + r;
      assert EncodeFrame(gs[0]) + q' == Encode(gs) + q;
      HeadFrame(fs[0], r', gs[0], q');
      FramesComparable(fs[1..], r, gs[1..], q);
      assert fs == [fs[0]] + fs[1..] && gs == [gs[0]] + gs[1..];
    }
  }

  lemma {:induction false} EncodeLength(fs: seq<Bytes>)
    ensures |Encode(fs)| >= 4 * |fs|
  {
    if fs != [] {
      EncodeLength(fs[1..]);
    }
  }

  /** Frames whose encoding begins another list's encoding begin that list. */
  lemma EncodePrefix(fs: seq<Bytes>, gs: seq<Bytes>)
    requires Wire(fs) && Wire(gs)
    requires Encode(fs) <= Encode(gs)
    ensures fs <= gs
  {
    var r := Encode(gs)[|Encode(fs)|..];
    assert Encode(fs) + r == Encode(gs) + [];
    FramesComparable(fs, r, gs, []);
    if gs < fs {
      assert fs[..|gs|] == gs;
      EncodeSplitAt(fs, |gs|);
      EncodeLength(fs[|gs|..]);
    }
  }

  // ---------------------------------------------------------------- conservation

  lemma ReadStep(waitSize: uint32, waitData: Bytes)
    requires |waitData| > 4
    ensures Residue(waitSize, waitData)
         == ToBE(ReadSize(waitSize, waitData), 4) + ReadBody(waitSize, waitData)
  {
    if waitSize == 0 {
      ToFromBE(waitData[..4]);
      assert waitData == waitData[..4] + waitData[4..];
    }
  }

  lemma CutOneFrame(size: uint32, body: Bytes)
    requires size <= |body|
    ensures ToBE(size, 4) + body == EncodeFrame(body[..size]) + body[size..]
  {
    assert body == body[..size] + body[size..];
    assert |body[..size]| == size;
  }

  lemma EncodeCons(f: Bytes, fs: seq<Bytes>)
    ensures Encode([f] + fs) == EncodeFrame(f) + Encode(fs)
  {
    assert ([f] + fs)[1..] == fs;
  }

  /** No byte is lost, invented or moved by cutting. */
  lemma {:induction false} DrainConserves(waitSize: uint32, waitData: Bytes)
    ensures var d := Drain(waitSize, waitData);
            Wire(d.frames) &&
            Encode(d.frames) + Residue(d.waitSize, d.waitData) == Residue(waitSize, waitData)
    decreases |waitData|
  {
    if |waitData| > 4 {
      ReadStep(waitSize, waitData);
      var size := ReadSize(waitSize, waitData);
      var body := ReadBody(waitSize, waitData);
      if size <= |body| {
        CutOneFrame(size, body);
        DrainConserves(0, body[size..]);
        var rest := Drain(0, body[size..]);
        EncodeCons(body[..size], rest.frames);
        assert Residue(0, body[size..]) == body[size..];
      } else {
        assert size != 0;
      }
    }
  }

  lemma WireAppend(fs: seq<Bytes>, gs: seq<Bytes>)
    requires Wire(fs) && Wire(gs)
    ensures Wire(fs + gs)
  {
  }

  lemma ResidueAppend(waitSize: uint32, waitData: Bytes, more: Bytes)
    ensures Residue(waitSize, waitData + more) == Residue(waitSize, waitData) + more
  {
  }

  /** Conservation over any number of `Push` calls. */
  lemma {:induction false} FeedConserves(waitSize: uint32, waitData: Bytes, chunks: seq<Bytes>)
    ensures var d := Feed(waitSize, waitData, chunks);
            Wire(d.frames) &&
            Encode(d.frames) + Residue(d.waitSize, d.waitData) ==
            Residue(waitSize, waitData) + Flatten(chunks)
    decreases |chunks|
  {
    if chunks != [] {
      var first := Drain(waitSize, waitData + chunks[0]);
      DrainConserves(waitSize, waitData + chunks[0]);
      var rest := Feed(first.waitSize, first.waitData, chunks[1..]);
      FeedConserves(first.waitSize, first.waitData, chunks[1..]);
      var more := Flatten(chunks[1..]);
      EncodeAppend(first.frames, rest.frames);
      Assoc(Encode(first.frames), Encode(rest.frames), Residue(rest.waitSize, rest.waitData));
      Assoc(Encode(first.frames), Residue(first.waitSize, first.waitData), more);
      ResidueAppend(waitSize, waitData, chunks[0]);
      Assoc(Residue(waitSize, waitData), chunks[0], more);
      WireAppend(first.frames, rest.frames);
    }
  }

  lemma FirstAdded(queue: seq<Bytes>, frame: Bytes, after: seq<Bytes>, frames: seq<Bytes>)
    requires queue + [frame] <= after && after[|queue| + 1..] <= frames
    ensures queue <= after && after[|queue|..] <= [frame] + frames
  {
    assert after[|queue|..] == [frame] + after[|queue| + 1..];
  }

  /**
    `Push` proper: what it adds to the queue is a list of frames read from the front of the
    stream, also when the queue fills up on the way; without that error nothing is lost.
  */
  lemma {:induction false} CutMeaning(waitSize: uint32, waitData: Bytes, popBuf: seq<Bytes>, popSize: int)
    ensures var c := CutFrames(waitSize, waitData, popBuf, popSize);
            var d := Drain(waitSize, waitData);
            popBuf <= c.popBuf && c.popBuf[|popBuf|..] <= d.frames &&
            (c.ok ==> c.popBuf == popBuf + d.frames && c.waitSize == d.waitSize && c.waitData == d.waitData) &&
            (c.ok <==> |popBuf| + |d.frames| <= popSize || d.frames == []) &&
            (|popBuf| <= popSize ==> |c.popBuf| <= popSize)
    decreases |waitData|
  {
    if |waitData| > 4 {
      var size := ReadSize(waitSize, waitData);
      var body := ReadBody(waitSize, waitData);
      if size <= |body| && |popBuf| < popSize {
        CutMeaning(0, body[size..], popBuf + [body[..size]], popSize);
        var c := CutFrames(waitSize, waitData, popBuf, popSize);
        var rest := Drain(0, body[size..]);
        Assoc(popBuf, [body[..size]], rest.frames);
        FirstAdded(popBuf, body[..size], c.popBuf, rest.frames);
      }
    }
  }

  // ---------------------------------------------------------------- rest states

  /** What every state between two `Push` calls satisfies. */
  ghost predicate AtRest(waitSize: uint32, waitData: Bytes)
  {
    && (waitSize == 0 ==> |waitData| <= 4)
    && (waitSize != 0 ==> waitSize >= 2 && |waitData| >= 1 && (|waitData| < waitSize || |waitData| <= 4))
  }

  ghost predicate EmptyFrameNotLast(frames: seq<Bytes>, waitSize: uint32, waitData: Bytes)
  {
    frames != [] && frames[|frames| - 1] == [] ==> Residue(waitSize, waitData) != []
  }

  lemma {:induction false} DrainRests(waitSize: uint32, waitData: Bytes)
    requires waitSize != 0 ==> waitSize >= 2 && |waitData| >= 1
    ensures var d := Drain(waitSize, waitData);
            AtRest(d.waitSize, d.waitData) && EmptyFrameNotLast(d.frames, d.waitSize, d.waitData) &&
            (waitSize == 0 && d.waitSize != 0 ==> |d.waitData| < d.waitSize)
    decreases |waitData|
  {
    if |waitData| > 4 {
      var size := ReadSize(waitSize, waitData);
      var body := ReadBody(waitSize, waitData);
      if size <= |body| {
        DrainRests(0, body[size..]);
        var rest := Drain(0, body[size..]);
        if rest.frames == [] && size == 0 {
          DrainConserves(0, body[size..]);
          assert Encode(rest.frames) == [];
        }
      }
    }
  }

  lemma {:induction false} FeedRests(waitSize: uint32, waitData: Bytes, chunks: seq<Bytes>)
    requires AtRest(waitSize, waitData)
    ensures var d := Feed(waitSize, waitData, chunks);
            AtRest(d.waitSize, d.waitData) && EmptyFrameNotLast(d.frames, d.waitSize, d.waitData)
    decreases |chunks|
  {
    if chunks != [] {
      var first := Drain(waitSize, waitData + chunks[0]);
      DrainRests(waitSize, waitData + chunks[0]);
      FeedRests(first.waitSize, first.waitData, chunks[1..]);
      var rest := Feed(first.waitSize, first.waitData, chunks[1..]);
      if rest.frames == [] {
        FeedConserves(first.waitSize, first.waitData, chunks[1..]);
        assert Encode(rest.frames) == [];
      }
    }
  }

  // ---------------------------------------------------------------- dependence on packet boundaries

  /**
    The last frame is complete but short enough (with what follows it) for the loop guard
    `len > 4` to hold it back when its length was read by an earlier `Push`.
  */
  ghost predicate CanBeHeld(frames: seq<Bytes>, tail: Bytes)
  {
    frames != [] && 2 <= |frames[|frames| - 1]| && |frames[|frames| - 1]| + |tail| <= 4
  }

  ghost predicate ChunkIndependent(stream: Bytes)
  {
    forall chunks :: Flatten(chunks) == stream ==> Feed(0, [], chunks).frames == Drain(0, stream).frames
  }

  /** One reading is a proper prefix of another: what the longer one has extra. */
  lemma ExtraFrames(fs: seq<Bytes>, r: Bytes, gs: seq<Bytes>, q: Bytes)
    requires fs < gs && Encode(fs) + r == Encode(gs) + q
    ensures var extra := gs[|fs|..];
            r == EncodeFrame(extra[0]) + (Encode(extra[1..]) + q) &&
            |r| >= 4 * |extra| + |extra[0]| + |q|
  {
    var extra := gs[|fs|..];
    EncodeSplitAt(gs, |fs|);
    assert gs[..|fs|] == fs;
    Assoc(Encode(fs), Encode(extra), q);
    CancelLeft(Encode(fs), r, Encode(extra) + q);
    UnfoldFirst(extra, q);
  }

  lemma UnfoldFirst(extra: seq<Bytes>, q: Bytes)
    requires extra != []
    ensures Encode(extra) + q == EncodeFrame(extra[0]) + (Encode(extra[1..]) + q)
    ensures |Encode(extra) + q| >= 4 * |extra| + |extra[0]| + |q|
  {
    Assoc(EncodeFrame(extra[0]), Encode(extra[1..]), q);
    EncodeLength(extra[1..]);
  }

  lemma HeldHeader(size: uint32, data: Bytes, f: Bytes, rest: Bytes)
    requires |f| < 0x1_0000_0000 && size != 0
    requires Residue(size, data) == EncodeFrame(f) + rest
    ensures |f| == size && data == f + rest
  {
    PowValues();
    Assoc(ToBE(|f|, 4), f, rest);
    SplitEqual(ToBE(size, 4), data, ToBE(|f|, 4), f + rest);
    FromToBE(size, 4);
    FromToBE(|f|, 4);
  }

  /** A resting state never keeps an encoded frame that another reading of the stream delivers, bar one case. */
  lemma OnlyShortLastFrameHeld(fs: seq<Bytes>, size: uint32, data: Bytes, gs: seq<Bytes>, q: Bytes)
    requires Wire(fs) && Wire(gs) && AtRest(size, data)
    requires fs < gs
    requires Encode(fs) + Residue(size, data) == Encode(gs) + q
    ensures |gs| == |fs| + 1
    ensures size == 0 ==> gs[|fs|] == [] && q == []
    ensures size != 0 ==> 2 <= |gs[|fs|]| && |gs[|fs|]| + |q| <= 4 && |data| >= size
  {
    ExtraFrames(fs, Residue(size, data), gs, q);
    if size != 0 {
      var extra := gs[|fs|..];
      HeldHeader(size, data, extra[0], Encode(extra[1..]) + q);
      EncodeLength(extra[1..]);
    }
  }

  /** Whatever the packet boundaries, at most the last frame is held back, and only when it is that short. */
  lemma AnyChunking(chunks: seq<Bytes>)
    ensures var d := Feed(0, [], chunks);
            var whole := Drain(0, Flatten(chunks));
            || d.frames == whole.frames
            || (CanBeHeld(whole.frames, Residue(whole.waitSize, whole.waitData)) &&
                d.frames == whole.frames[..|whole.frames| - 1])
  {
    var stream := Flatten(chunks);
    var d, whole := Feed(0, [], chunks), Drain(0, stream);
    FeedConserves(0, [], chunks);
    FeedRests(0, [], chunks);
    DrainConserves(0, stream);
    DrainRests(0, stream);
    assert Residue(0, stream) == stream && Residue(0, []) + stream == stream;
    assert Encode(d.frames) + Residue(d.waitSize, d.waitData) == stream;
    SameStreamReadings(d, whole);
  }

  lemma SameStreamReadings(d: Drained, whole: Drained)
    requires Wire(d.frames) && AtRest(d.waitSize, d.waitData) && EmptyFrameNotLast(d.frames, d.waitSize, d.waitData)
    requires Wire(whole.frames) && AtRest(whole.waitSize, whole.waitData)
    requires EmptyFrameNotLast(whole.frames, whole.waitSize, whole.waitData)
    requires whole.waitSize != 0 ==> |whole.waitData| < whole.waitSize
    requires Encode(d.frames) + Residue(d.waitSize, d.waitData)
          == Encode(whole.frames) + Residue(whole.waitSize, whole.waitData)
    ensures || d.frames == whole.frames
            || (CanBeHeld(whole.frames, Residue(whole.waitSize, whole.waitData)) &&
                d.frames == whole.frames[..|whole.frames| - 1])
  {
    var r, q := Residue(d.waitSize, d.waitData), Residue(whole.waitSize, whole.waitData);
    FramesComparable(d.frames, r, whole.frames, q);
    if whole.frames < d.frames {
      OnlyShortLastFrameHeld(whole.frames, whole.waitSize, whole.waitData, d.frames, r);
      assert false;
    } else if d.frames < whole.frames {
      OnlyShortLastFrameHeld(d.frames, d.waitSize, d.waitData, whole.frames, q);
      assert d.frames == whole.frames[..|whole.frames| - 1];
    }
  }

  lemma ReadHeader(size: uint32, body: Bytes)
    requires body != []
    ensures var s := ToBE(size, 4) + body;
            ReadSize(0, s) == size && ReadBody(0, s) == body
  {
    var s := ToBE(size, 4) + body;
    assert s[..4] == ToBE(size, 4);
    PowValues();
    FromToBE(size, 4);
  }

  lemma DrainOne(f: Bytes, rest: Bytes)
    requires |f| < 0x1_0000_0000 && rest != []
    ensures var d := Drain(0, rest);
            Drain(0, EncodeFrame(f) + rest) == d.(frames := [f] + d.frames)
  {
    Assoc(ToBE(|f|, 4), f, rest);
    ReadHeader(|f|, f + rest);
    assert (f + rest)[..|f|] == f && (f + rest)[|f|..] == rest;
  }

  lemma ConsAssoc(gs: seq<Bytes>, fs: seq<Bytes>)
    requires gs != []
    ensures [gs[0]] + (gs[1..] + fs) == gs + fs
  {
  }

  /** Complete frames followed by at least one byte are all delivered. */
  lemma {:induction false} DrainFrames(gs: seq<Bytes>, r: Bytes)
    requires Wire(gs) && r != []
    ensures var d := Drain(0, r);
            Drain(0, Encode(gs) + r) == d.(frames := gs + d.frames)
  {
    if gs == [] {
      assert Encode(gs) + r == r;
      assert gs + Drain(0, r).frames == Drain(0, r).frames;
    } else {
      var rest := Encode(gs[1..]) + r;
      Assoc(EncodeFrame(gs[0]), Encode(gs[1..]), r);
      DrainOne(gs[0], rest);
      DrainFrames(gs[1..], r);
      var d := Drain(0, r);
      ConsAssoc(gs, d.frames);
    }
  }

  /** The boundary that holds a short last frame back: one byte after its header. */
  function HoldingChunks(frames: seq<Bytes>, stream: Bytes): seq<Bytes>
    requires frames != []
  {
    var cut := |Encode(frames[..|frames| - 1])| + 5;
    if cut <= |stream| then [stream[..cut], stream[cut..]] else [stream]
  }

  lemma FlattenHolding(frames: seq<Bytes>, stream: Bytes)
    requires frames != []
    ensures Flatten(HoldingChunks(frames, stream)) == stream
  {
    var chunks := HoldingChunks(frames, stream);
    if |chunks| == 2 {
      assert chunks == [chunks[0]] + [chunks[1]];
      FlattenSnoc([chunks[0]], chunks[1]);
      FlattenSnoc([], chunks[0]);
      assert [chunks[0]] == [] + [chunks[0]];
    } else {
      FlattenSnoc([], stream);
      assert chunks == [] + [stream];
    }
  }

  lemma ShortFrameHeld(stream: Bytes)
    requires var whole := Drain(0, stream);
             CanBeHeld(whole.frames, Residue(whole.waitSize, whole.waitData))
    ensures var whole := Drain(0, stream);
            Feed(0, [], HoldingChunks(whole.frames, stream)).frames == whole.frames[..|whole.frames| - 1]
  {
    hide Drain, Feed, Encode, HoldingChunks;
    var whole := Drain(0, stream);
    var tail := Residue(whole.waitSize, whole.waitData);
    var gs, f := whole.frames[..|whole.frames| - 1], whole.frames[|whole.frames| - 1];
    DrainConserves(0, stream);
    assert Residue(0, stream) == stream;
    assert whole.frames == gs + [f];
    EncodeAppend(gs, [f]);
    EncodeOne(f);
    HoldingBoundary(gs, f, tail, stream);
    HeldAfterHeader(gs, f, f[1..] + tail);
  }

  lemma RegroupAfterFirst(a: Bytes, h: Bytes, f: Bytes, t: Bytes)
    requires f != []
    ensures a + (h + f) + t == (a + (h + [f[0]])) + (f[1..] + t)
  {
  }

  lemma HoldingBoundary(gs: seq<Bytes>, f: Bytes, tail: Bytes, stream: Bytes)
    requires f != [] && stream == Encode(gs) + EncodeFrame(f) + tail
    ensures HoldingChunks(gs + [f], stream) == [Encode(gs) + (ToBE(|f|, 4) + [f[0]]), f[1..] + tail]
  {
    var one, more := Encode(gs) + (ToBE(|f|, 4) + [f[0]]), f[1..] + tail;
    RegroupAfterFirst(Encode(gs), ToBE(|f|, 4), f, tail);
    assert stream[..|one|] == one && stream[|one|..] == more;
    assert (gs + [f])[..|gs|] == gs;
  }

  lemma HeldAfterHeader(gs: seq<Bytes>, f: Bytes, more: Bytes)
    requires Wire(gs) && 2 <= |f| && |more| <= 3 && |f| < 0x1_0000_0000
    ensures Feed(0, [], [Encode(gs) + (ToBE(|f|, 4) + [f[0]]), more]).frames == gs
  {
    var front := ToBE(|f|, 4) + [f[0]];
    var one := Encode(gs) + front;
    ReadHeader(|f|, [f[0]]);
    DrainFrames(gs, front);
    assert Drain(0, front) == Drained([], |f|, [f[0]]);
    assert gs + [] == gs && [] + one == one;
    var later: seq<Bytes> := [more];
    assert later[1..] == [] && [one, more][1..] == later;
    assert Drain(|f|, [f[0]] + more).frames == [];
    assert Feed(|f|, [f[0]], later).frames == [];
  }

  /**
    Exactly when the delivered frames depend only on the bytes: when the last complete frame
    is not one that can be held back. Frames of five bytes or more never are.
  */
  lemma ChunkIndependentIff(stream: Bytes)
    ensures var whole := Drain(0, stream);
            ChunkIndependent(stream) <==> !CanBeHeld(whole.frames, Residue(whole.waitSize, whole.waitData))
  {
    var whole := Drain(0, stream);
    var tail := Residue(whole.waitSize, whole.waitData);
    if CanBeHeld(whole.frames, tail) {
      ShortFrameHeld(stream);
      FlattenHolding(whole.frames, stream);
      var chunks := HoldingChunks(whole.frames, stream);
      assert Flatten(chunks) == stream && Feed(0, [], chunks).frames != whole.frames;
    } else {
      forall chunks | Flatten(chunks) == stream
        ensures Feed(0, [], chunks).frames == whole.frames
      {
        AnyChunking(chunks);
      }
    }
  }

  /** After every byte of `frames` has been consumed, at most a last frame of 0, 2, 3 or 4 bytes is outstanding. */
  lemma CompleteStream(frames: seq<Bytes>, delivered: seq<Bytes>, size: uint32, data: Bytes)
    requires Wire(frames) && Wire(delivered) && AtRest(size, data)
    requires Encode(delivered) + Residue(size, data) == Encode(frames)
    ensures || delivered == frames
            || (frames != [] && delivered == frames[..|frames| - 1] && |frames[|frames| - 1]| in {0, 2, 3, 4})
  {
    assert Encode(delivered) <= Encode(frames);
    EncodePrefix(delivered, frames);
    if delivered != frames {
      assert Encode(frames) == Encode(frames) + [];
      OnlyShortLastFrameHeld(delivered, size, data, frames, []);
      assert delivered == frames[..|frames| - 1];
    }
  }

  // ---------------------------------------------------------------- when the last frame is outstanding

  lemma {:induction false} FeedAppend(waitSize: uint32, waitData: Bytes, xs: seq<Bytes>, ys: seq<Bytes>)
    ensures var d := Feed(waitSize, waitData, xs);
            var e := Feed(d.waitSize, d.waitData, ys);
            Feed(waitSize, waitData, xs + ys) == e.(frames := d.frames + e.frames)
    decreases |xs|
  {
    if xs == [] {
      assert xs + ys == ys;
      var e := Feed(waitSize, waitData, ys);
      assert [] + e.frames == e.frames;
    } else {
      assert (xs + ys)[1..] == xs[1..] + ys;
      hide Drain;
      var first := Drain(waitSize, waitData + xs[0]);
      FeedAppend(first.waitSize, first.waitData, xs[1..], ys);
      var d := Feed(first.waitSize, first.waitData, xs[1..]);
      Assoc(first.frames, d.frames, Feed(d.waitSize, d.waitData, ys).frames);
    }
  }

  lemma FeedSnoc(waitSize: uint32, waitData: Bytes, chunks: seq<Bytes>, c: Bytes)
    ensures var d := Feed(waitSize, waitData, chunks);
            var last := Drain(d.waitSize, d.waitData + c);
            Feed(waitSize, waitData, chunks + [c]) == last.(frames := d.frames + last.frames)
  {
    hide Drain;
    FeedAppend(waitSize, waitData, chunks, [c]);
    var d := Feed(waitSize, waitData, chunks);
    FeedOne(d.waitSize, d.waitData, c);
  }

  lemma FeedOne(waitSize: uint32, waitData: Bytes, c: Bytes)
    ensures Feed(waitSize, waitData, [c]) == Drain(waitSize, waitData + c)
  {
    hide Drain;
    var first := Drain(waitSize, waitData + c);
    assert [c][1..] == [];
    assert first.frames + [] == first.frames;
  }

  /** The chunks before the `m`-th end strictly inside the body of the last frame. */
  predicate EndsInside(frames: seq<Bytes>, chunks: seq<Bytes>, m: nat)
    requires frames != [] && m <= |chunks|
  {
    |Encode(frames[..|frames| - 1])| + 4 < |Flatten(chunks[..m])| < |Encode(frames)|
  }

  predicate HeldBack(frames: seq<Bytes>, chunks: seq<Bytes>)
  {
    frames != [] &&
    var last := frames[|frames| - 1];
    last == [] || (|last| <= 4 && exists m :: 0 <= m <= |chunks| && EndsInside(frames, chunks, m))
  }

  /** A channel whose bytes end inside the body of a frame has read its header and delivered all before it. */
  lemma InsideState(gs: seq<Bytes>, f: Bytes, part: Bytes, d: Drained)
    requires Wire(gs) && Wire(d.frames) && |f| < 0x1_0000_0000 && 1 <= |part| < |f|
    requires AtRest(d.waitSize, d.waitData)
    requires Encode(d.frames) + Residue(d.waitSize, d.waitData) == Encode(gs) + (ToBE(|f|, 4) + part)
    ensures d == Drained(gs, |f|, part)
  {
    hide Encode, ToBE, Wire, AtRest, Residue;
    var r, q := Residue(d.waitSize, d.waitData), ToBE(|f|, 4) + part;
    FramesComparable(d.frames, r, gs, q);
    if d.frames < gs {
      OnlyShortLastFrameHeld(d.frames, d.waitSize, d.waitData, gs, q);
      assert false;
    } else if gs < d.frames {
      InsideNotMore(gs, f, part, d.frames, r);
      assert false;
    } else {
      assert |d.frames| == |gs|;
      assert d.frames == gs;
      CancelLeft(Encode(gs), r, q);
      HeaderRead(d.waitSize, d.waitData, |f|, part);
    }
  }

  lemma InsideNotMore(gs: seq<Bytes>, f: Bytes, part: Bytes, fs: seq<Bytes>, r: Bytes)
    requires Wire(fs) && |f| < 0x1_0000_0000 && 1 <= |part| < |f| && gs < fs
    ensures Encode(fs) + r != Encode(gs) + (ToBE(|f|, 4) + part)
  {
    hide Encode, ToBE;
    var q := ToBE(|f|, 4) + part;
    if Encode(fs) + r == Encode(gs) + q {
      ExtraFrames(gs, q, fs, r);
      var extra := fs[|gs|..];
      assert extra[0] == fs[|gs|];
      assert Residue(|f|, part) == q;
      HeldHeader(|f|, part, extra[0], Encode(extra[1..]) + r);
    }
  }

  lemma HeaderRead(size: uint32, data: Bytes, length: uint32, part: Bytes)
    requires AtRest(size, data) && part != [] && Residue(size, data) == ToBE(length, 4) + part
    ensures size == length && data == part
  {
    PowValues();
    SplitEqual(ToBE(size, 4), data, ToBE(length, 4), part);
    FromToBE(size, 4);
    FromToBE(length, 4);
  }

  lemma {:induction false} StaysHeld(waitSize: uint32, waitData: Bytes, chunks: seq<Bytes>)
    requires |waitData| + |Flatten(chunks)| <= 4
    ensures Feed(waitSize, waitData, chunks).frames == []
    decreases |chunks|
  {
    if chunks != [] {
      StaysHeld(waitSize, waitData + chunks[0], chunks[1..]);
    }
  }

  /** Splitting the stream inside the body of a last frame of at most four bytes holds that frame back. */
  lemma InsideHolds(frames: seq<Bytes>, chunks: seq<Bytes>, m: nat)
    requires Wire(frames) && frames != [] && Flatten(chunks) == Encode(frames)
    requires |frames[|frames| - 1]| <= 4 && m <= |chunks| && EndsInside(frames, chunks, m)
    ensures Feed(0, [], chunks).frames == frames[..|frames| - 1]
  {
    hide Feed, Encode, Drain;
    var gs, f := frames[..|frames| - 1], frames[|frames| - 1];
    var front, more := chunks[..m], chunks[m..];
    assert chunks == front + more;
    FlattenAppend(front, more);
    LastFrame(gs, f, frames);
    var part := CutInside(Encode(gs), ToBE(|f|, 4), f, Flatten(front), Flatten(more));
    var d := Feed(0, [], front);
    Fed(front);
    InsideState(gs, f, part, d);
    StaysHeld(|f|, part, more);
    FeedAppend(0, [], front, more);
    assert gs + [] == gs;
  }

  lemma LastFrame(gs: seq<Bytes>, f: Bytes, frames: seq<Bytes>)
    requires frames == gs + [f]
    ensures Encode(frames) == Encode(gs) + (ToBE(|f|, 4) + f)
  {
    EncodeAppend(gs, [f]);
    EncodeOne(f);
  }

  lemma CutInside(a: Bytes, h: Bytes, f: Bytes, front: Bytes, more: Bytes) returns (part: Bytes)
    requires front + more == a + (h + f) && |h| == 4
    requires |a| + 4 < |front| < |a| + 4 + |f|
    ensures front == a + (h + part) && 1 <= |part| < |f| && |part| + |more| == |f|
  {
    part := front[|a| + 4..];
    assert front == (front + more)[..|front|];
    assert front[..|a|] == a && front[|a|..|a| + 4] == h;
    assert front == front[..|a|] + (front[|a|..|a| + 4] + part);
  }

  /** A cut that leaves a whole frame waiting has done nothing. */
  lemma DrainHolds(waitSize: uint32, waitData: Bytes)
    requires waitSize != 0 ==> waitSize >= 2 && |waitData| >= 1
    requires var d := Drain(waitSize, waitData); d.waitSize != 0 && |d.waitData| >= d.waitSize
    ensures Drain(waitSize, waitData) == Drained([], waitSize, waitData)
    decreases |waitData|
  {
    if |waitData| > 4 {
      var size := ReadSize(waitSize, waitData);
      var body := ReadBody(waitSize, waitData);
      if size <= |body| {
        DrainRests(0, body[size..]);
      }
    }
  }

  /** A whole frame left waiting was cut inside its body by some packet boundary. */
  lemma {:induction false} FindBoundary(gs: seq<Bytes>, f: Bytes, chunks: seq<Bytes>) returns (m: nat)
    requires 0 < |f| < 0x1_0000_0000 && Feed(0, [], chunks) == Drained(gs, |f|, f)
    ensures m <= |chunks| && |Encode(gs)| + 4 < |Flatten(chunks[..m])| < |Encode(gs)| + 4 + |f|
    decreases |chunks|
  {
    hide Drain;
    assert chunks != [];
    var n := |chunks| - 1;
    var front, c := chunks[..n], chunks[n];
    assert chunks == front + [c];
    FeedSnoc(0, [], front, c);
    FeedRests(0, [], front);
    FeedConserves(0, [], front);
    var e := Feed(0, [], front);
    DrainHolds(e.waitSize, e.waitData + c);
    assert e.frames + [] == e.frames;
    if c == [] {
      assert e.waitData + c == e.waitData;
      m := FindBoundary(gs, f, front);
      assert front[..m] == chunks[..m];
    } else {
      m := n;
    }
  }

  lemma WholeFrameWaits(gs: seq<Bytes>, f: Bytes, d: Drained)
    requires Wire(gs) && |f| < 0x1_0000_0000 && f != [] && d.frames == gs && AtRest(d.waitSize, d.waitData)
    requires Encode(d.frames) + Residue(d.waitSize, d.waitData) == Encode(gs) + (ToBE(|f|, 4) + f)
    ensures d == Drained(gs, |f|, f) && |f| <= 4
  {
    CancelLeft(Encode(gs), Residue(d.waitSize, d.waitData), ToBE(|f|, 4) + f);
    assert d.waitSize != 0;
    assert EncodeFrame(f) + [] == ToBE(|f|, 4) + f;
    HeldHeader(d.waitSize, d.waitData, f, []);
  }

  /**
    After every byte of `frames` has arrived, all frames are out but possibly the last; and that is
    outstanding exactly when it is empty, or has at most four bytes and some packet ended inside it.
  */
  lemma CompleteStreamIff(frames: seq<Bytes>, chunks: seq<Bytes>)
    requires Wire(frames) && Flatten(chunks) == Encode(frames)
    ensures Feed(0, [], chunks).frames == if HeldBack(frames, chunks) then frames[..|frames| - 1] else frames
  {
    hide Feed, Encode, EndsInside, Residue, AtRest, Wire;
    var d := Feed(0, [], chunks);
    Fed(chunks);
    CompleteStream(frames, d.frames, d.waitSize, d.waitData);
    if frames != [] {
      if frames[|frames| - 1] == [] {
        EmptyLastOutstanding(frames, d);
      } else if d.frames != frames {
        OutstandingCut(frames, chunks);
      } else if HeldBack(frames, chunks) {
        var m :| 0 <= m <= |chunks| && EndsInside(frames, chunks, m);
        InsideHolds(frames, chunks, m);
      }
    }
  }

  /** All that is known of a new channel after some pushes. */
  lemma Fed(chunks: seq<Bytes>)
    ensures var d := Feed(0, [], chunks);
            && Wire(d.frames) && AtRest(d.waitSize, d.waitData) && EmptyFrameNotLast(d.frames, d.waitSize, d.waitData)
            && Encode(d.frames) + Residue(d.waitSize, d.waitData) == Flatten(chunks)
  {
    FeedConserves(0, [], chunks);
    FeedRests(0, [], chunks);
    assert Residue(0, []) + Flatten(chunks) == Flatten(chunks);
  }

  lemma EmptyLastOutstanding(frames: seq<Bytes>, d: Drained)
    requires frames != [] && frames[|frames| - 1] == []
    requires EmptyFrameNotLast(d.frames, d.waitSize, d.waitData)
    requires Encode(d.frames) + Residue(d.waitSize, d.waitData) == Encode(frames)
    ensures d.frames != frames
  {
    if d.frames == frames {
      CancelLeft(Encode(frames), Residue(d.waitSize, d.waitData), []);
    }
  }

  lemma LastFits(frames: seq<Bytes>)
    requires Wire(frames) && frames != []
    ensures Wire(frames[..|frames| - 1]) && |frames[|frames| - 1]| < 0x1_0000_0000
  {
  }

  lemma OutstandingCut(frames: seq<Bytes>, chunks: seq<Bytes>)
    requires Wire(frames) && Flatten(chunks) == Encode(frames)
    requires frames != [] && frames[|frames| - 1] != [] && Feed(0, [], chunks).frames == frames[..|frames| - 1]
    ensures HeldBack(frames, chunks)
  {
    hide Feed, Encode, EndsInside, Residue, AtRest, Wire, EmptyFrameNotLast;
    var d := Feed(0, [], chunks);
    Fed(chunks);
    LastFits(frames);
    var gs, f := frames[..|frames| - 1], frames[|frames| - 1];
    assert frames == gs + [f];
    LastFrame(gs, f, frames);
    WholeFrameWaits(gs, f, d);
    var m := FindBoundary(gs, f, chunks);
    InsideAt(frames, chunks, m);
  }

  lemma InsideAt(frames: seq<Bytes>, chunks: seq<Bytes>, m: nat)
    requires frames != [] && m <= |chunks|
    requires var gs := frames[..|frames| - 1];
             |Encode(gs)| + 4 < |Flatten(chunks[..m])| < |Encode(gs)| + 4 + |frames[|frames| - 1]|
    ensures EndsInside(frames, chunks, m)
  {
    LastFrame(frames[..|frames| - 1], frames[|frames| - 1], frames);
  }
}

/**
  Video bootstrap (camera/native_bootstrap.go:12-67): payloads are held back until every
  parameter set has been seen and the payload at hand has a keyframe. NAL unit types are those
  of Table 7-1 of ITU-T H.264 and of ITU-T H.265.
*/
module Bootstrap {
  import opened Wrappers
  import opened Bytes
  import opened AnnexB

  /** What codec normalisation leaves of the codec name: "h265", or anything else. */
  datatype Codec = H265 | H264

  datatype Kind = Vps | Sps | Pps | Keyframe | Other

  function Classify(codec: Codec, unit: Bytes): Kind
  {
    match codec
    case H265 =>
      if |unit| < 2 then Other
      else
        var t := unit[0] / 2 % 64;
        if t == 32 then Vps
        else if t == 33 then Sps
        else if t == 34 then Pps
        else if 16 <= t <= 21 then Keyframe
        else Other
    case H264 =>
      if |unit| == 0 then Other
      else
        var t := unit[0] % 32;
        if t == 7 then Sps
        else if t == 8 then Pps
        else if t == 5 then Keyframe
        else Other
  }

  /** Parameter sets a decoder needs, in the order they are sent. */
  function Required(codec: Codec): seq<Kind>
  {
    match codec
    case H265 => [Vps, Sps, Pps]
    case H264 => [Sps, Pps]
  }

  datatype Video = Video(started: bool, h264SPS: Bytes, h264PPS: Bytes, h265VPS: Bytes, h265SPS: Bytes, h265PPS: Bytes)
  {
    /** The cached parameter set of one kind. */
    function Cached(codec: Codec, kind: Kind): Bytes
    {
      match (codec, kind)
      case (H265, Vps) => h265VPS
      case (H265, Sps) => h265SPS
      case (H265, Pps) => h265PPS
      case (H264, Sps) => h264SPS
      case (H264, Pps) => h264PPS
      case (_, _) => []
    }
  }

  const FRESH := Video(false, [], [], [], [], [])

  /** The last unit of one kind, or `fallback`. */
  function Latest(codec: Codec, kind: Kind, units: seq<Bytes>, fallback: Bytes): Bytes
  {
    if units == [] then fallback
    else if Classify(codec, units[|units| - 1]) == kind then units[|units| - 1]
    else Latest(codec, kind, units[..|units| - 1], fallback)
  }

  predicate HasKeyframe(codec: Codec, units: seq<Bytes>)
  {
    exists i :: 0 <= i < |units| && Classify(codec, units[i]) == Keyframe
  }

  function Absorb(v: Video, codec: Codec, units: seq<Bytes>): Video
  {
    match codec
    case H265 => v.(h265VPS := Latest(H265, Vps, units, v.h265VPS),
                    h265SPS := Latest(H265, Sps, units, v.h265SPS),
                    h265PPS := Latest(H265, Pps, units, v.h265PPS))
    case H264 => v.(h264SPS := Latest(H264, Sps, units, v.h264SPS),
                    h264PPS := Latest(H264, Pps, units, v.h264PPS))
  }

  function Sets(v: Video, codec: Codec): seq<Bytes>
  {
    seq(|Required(codec)|, i requires 0 <= i < |Required(codec)| => v.Cached(codec, Required(codec)[i]))
  }

  function Prepare(v: Video, codec: Codec, payload: Bytes): (Video, Option<Bytes>)
  {
    var units := Split(payload);
    if units == [] then (v, None)
    else
      var seen := Absorb(v, codec, units);
      if v.started then (seen, Some(payload))
      else if !HasKeyframe(codec, units) || [] in Sets(seen, codec) then (seen, None)
      else (seen.(started := true), Some(Print(Sets(seen, codec) + units)))
  }

  /** The sets that are not empty, in order. */
  function NonEmpty(sets: seq<Bytes>): seq<Bytes>
  {
    if sets == [] then []
    else NonEmpty(sets[..|sets| - 1]) + (if |sets[|sets| - 1]| == 0 then [] else [sets[|sets| - 1]])
  }

  lemma {:induction false} AllNonEmpty(sets: seq<Bytes>)
    requires [] !in sets
    ensures NonEmpty(sets) == sets
  {
    if sets != [] {
      AllNonEmpty(sets[..|sets| - 1]);
      assert sets == sets[..|sets| - 1] + [sets[|sets| - 1]];
    }
  }

  method CloneParameterSets(sets: seq<Bytes>) returns (filtered: seq<Bytes>)
    ensures filtered == NonEmpty(sets)
  {
    filtered := [];
    for i := 0 to |sets|
      invariant filtered == NonEmpty(sets[..i])
    {
      assert sets[..i + 1][..i] == sets[..i];
      if |sets[i]| != 0 {
        filtered := filtered + [sets[i]];
      }
    }
    assert sets[..|sets|] == sets;
  }

  class VideoBootstrap {
    var started: bool
    var h264SPS: Bytes
    var h264PPS: Bytes
    var h265VPS: Bytes
    var h265SPS: Bytes
    var h265PPS: Bytes

    ghost function View(): Video
      reads this
    {
      Video(started, h264SPS, h264PPS, h265VPS, h265SPS, h265PPS)
    }

    constructor ()
      ensures View() == FRESH
    {
      started := false;
      h264SPS, h264PPS := [], [];
      h265VPS, h265SPS, h265PPS := [], [], [];
    }

    /** The loop over the units of one payload. */
    method CacheSets(codec: Codec, nalus: seq<Bytes>) returns (hasKeyframe: bool)
      modifies this
      ensures View() == Absorb(old(View()), codec, nalus)
      ensures hasKeyframe == HasKeyframe(codec, nalus)
    {
      hide Classify, Latest, HasKeyframe;
      hasKeyframe := false;
      ghost var before := View();
      AbsorbNone(before, codec);
      for i := 0 to |nalus|
        invariant View() == Absorb(before, codec, nalus[..i])
        invariant hasKeyframe == HasKeyframe(codec, nalus[..i])
      {
        var nalu := nalus[i];
        assert nalus[..i + 1] == nalus[..i] + [nalu];
        AbsorbSnoc(before, codec, nalus[..i], nalu);
        KeyframeSnoc(codec, nalus[..i], nalu);
        KindOf(codec, nalu);
        match Classify(codec, nalu) {
          case Vps => h265VPS := nalu;
          case Sps => if codec == H265 { h265SPS := nalu; } else { h264SPS := nalu; }
          case Pps => if codec == H265 { h265PPS := nalu; } else { h264PPS := nalu; }
          case Keyframe => hasKeyframe := true;
          case Other =>
        }
      }
      assert nalus[..|nalus|] == nalus;
    }

    method PrepareInPlace(codec: Codec, payload: Bytes) returns (ok: bool, out: Bytes)
      modifies this
      ensures (View(), if ok then Some(out) else None) == Prepare(old(View()), codec, payload)
    {
      hide HasKeyframe, Split, Print, NonEmpty;
      var nalus := SplitAnnexBNalus(payload);
      if |nalus| == 0 {
        return false, [];
      }
      var hasKeyframe := CacheSets(codec, nalus);
      if !started {
        var sets := if codec == H265 then [h265VPS, h265SPS, h265PPS] else [h264SPS, h264PPS];
        assert sets == Sets(View(), codec);
        if !hasKeyframe || [] in sets {
          return false, [];
        }
        started := true;
        AllNonEmpty(sets);
        var cloned := CloneParameterSets(sets);
        out := AnnexBPayload(cloned + nalus);
        return true, out;
      }
      return true, payload;
    }
  }

  /** What one more unit does to the cached sets. */
  function Store(v: Video, codec: Codec, unit: Bytes): Video
  {
    match (codec, Classify(codec, unit))
    case (H265, Vps) => v.(h265VPS := unit)
    case (H265, Sps) => v.(h265SPS := unit)
    case (H265, Pps) => v.(h265PPS := unit)
    case (H264, Sps) => v.(h264SPS := unit)
    case (H264, Pps) => v.(h264PPS := unit)
    case (_, _) => v
  }

  lemma KindOf(codec: Codec, unit: Bytes)
    ensures codec == H264 ==> Classify(codec, unit) != Vps
  {
  }

  lemma AbsorbNone(v: Video, codec: Codec)
    ensures Absorb(v, codec, []) == v && !HasKeyframe(codec, [])
  {
  }

  lemma LatestSnoc(codec: Codec, kind: Kind, units: seq<Bytes>, unit: Bytes, fallback: Bytes)
    ensures Latest(codec, kind, units + [unit], fallback)
         == if Classify(codec, unit) == kind then unit else Latest(codec, kind, units, fallback)
  {
    assert (units + [unit])[..|units|] == units;
  }

  lemma AbsorbSnoc(v: Video, codec: Codec, units: seq<Bytes>, unit: Bytes)
    ensures Absorb(v, codec, units + [unit]) == Store(Absorb(v, codec, units), codec, unit)
  {
    LatestSnoc(codec, Vps, units, unit, v.Cached(codec, Vps));
    LatestSnoc(codec, Sps, units, unit, v.Cached(codec, Sps));
    LatestSnoc(codec, Pps, units, unit, v.Cached(codec, Pps));
    KindOf(codec, unit);
    hide Latest, Classify;
  }

  lemma KeyframeSnoc(codec: Codec, units: seq<Bytes>, unit: Bytes)
    ensures HasKeyframe(codec, units + [unit]) <==> HasKeyframe(codec, units) || Classify(codec, unit) == Keyframe
  {
    assert (units + [unit])[|units|] == unit;
    if HasKeyframe(codec, units) {
      var i :| 0 <= i < |units| && Classify(codec, units[i]) == Keyframe;
      assert (units + [unit])[i] == units[i];
    }
  }

  // ---------------------------------------------------------------- whole runs

  datatype Input = Input(codec: Codec, payload: Bytes)

  /** State after a run of calls on a fresh bootstrap, and the answer of its last call. */
  function After(inputs: seq<Input>): Video
  {
    if inputs == [] then FRESH
    else
      var n := |inputs| - 1;
      Prepare(After(inputs[..n]), inputs[n].codec, inputs[n].payload).0
  }

  function LastOutput(inputs: seq<Input>): Option<Bytes>
    requires inputs != []
  {
    var n := |inputs| - 1;
    Prepare(After(inputs[..n]), inputs[n].codec, inputs[n].payload).1
  }

  /** Every NAL unit that a run has shown for one codec, oldest first. */
  function UnitsSeen(inputs: seq<Input>, codec: Codec): seq<Bytes>
  {
    if inputs == [] then []
    else
      var n := |inputs| - 1;
      UnitsSeen(inputs[..n], codec) + (if inputs[n].codec == codec then Split(inputs[n].payload) else [])
  }

  /** The newest parameter sets of a run, [] standing for one not seen. */
  function SetsSeen(inputs: seq<Input>, codec: Codec): seq<Bytes>
  {
    seq(|Required(codec)|, i requires 0 <= i < |Required(codec)| =>
      Latest(codec, Required(codec)[i], UnitsSeen(inputs, codec), []))
  }

  /** The last payload has a keyframe and by then every parameter set of its codec has been seen. */
  predicate Ready(inputs: seq<Input>)
  {
    inputs != [] &&
    var last := inputs[|inputs| - 1];
    HasKeyframe(last.codec, Split(last.payload)) && [] !in SetsSeen(inputs, last.codec)
  }

  predicate EverReady(inputs: seq<Input>)
  {
    exists k :: 0 <= k <= |inputs| && Ready(inputs[..k])
  }

  lemma {:induction false} LatestAppend(codec: Codec, kind: Kind, xs: seq<Bytes>, ys: seq<Bytes>, fallback: Bytes)
    ensures Latest(codec, kind, xs + ys, fallback) == Latest(codec, kind, ys, Latest(codec, kind, xs, fallback))
    decreases |ys|
  {
    if ys == [] {
      assert xs + ys == xs;
    } else {
      var n := |ys| - 1;
      assert (xs + ys)[..|xs + ys| - 1] == xs + ys[..n];
      LatestAppend(codec, kind, xs, ys[..n], fallback);
    }
  }

  lemma {:induction false} LatestFrom(codec: Codec, kind: Kind, units: seq<Bytes>)
    requires AllWellFormed(units)
    ensures var u := Latest(codec, kind, units, []);
            u == [] || WellFormed(u)
  {
    if units != [] {
      LatestFrom(codec, kind, units[..|units| - 1]);
    }
  }

  lemma {:induction false} UnitsWellFormed(inputs: seq<Input>, codec: Codec)
    ensures AllWellFormed(UnitsSeen(inputs, codec))
  {
    if inputs != [] {
      var n := |inputs| - 1;
      UnitsWellFormed(inputs[..n], codec);
      SplitWellFormed(inputs[n].payload);
    }
  }

  ghost predicate Tracks(v: Video, inputs: seq<Input>)
  {
    && CacheTracks(v, inputs)
    && (v.started <==> EverReady(inputs))
  }

  lemma EverReadySnoc(inputs: seq<Input>)
    requires inputs != []
    ensures EverReady(inputs) <==> EverReady(inputs[..|inputs| - 1]) || Ready(inputs)
  {
    hide Ready;
    var before := inputs[..|inputs| - 1];
    assert inputs[..|inputs|] == inputs;
    assert forall k :: 0 <= k <= |before| ==> before[..k] == inputs[..k];
  }

  ghost predicate CacheTracks(v: Video, inputs: seq<Input>)
  {
    forall codec: Codec, kind: Kind :: kind in Required(codec) ==>
      v.Cached(codec, kind) == Latest(codec, kind, UnitsSeen(inputs, codec), [])
  }

  lemma AbsorbCached(v: Video, used: Codec, units: seq<Bytes>, codec: Codec, kind: Kind)
    requires kind in Required(codec)
    ensures Absorb(v, used, units).Cached(codec, kind)
         == if codec == used then Latest(codec, kind, units, v.Cached(codec, kind)) else v.Cached(codec, kind)
  {
    hide Latest;
  }

  lemma UnitsSnoc(inputs: seq<Input>, codec: Codec)
    requires inputs != []
    ensures var last := inputs[|inputs| - 1];
            UnitsSeen(inputs, codec) == UnitsSeen(inputs[..|inputs| - 1], codec)
              + (if last.codec == codec then Split(last.payload) else [])
  {
  }

  /** The newest set of one kind after one more payload. */
  lemma LatestSnocInput(inputs: seq<Input>, codec: Codec, kind: Kind)
    requires inputs != []
    ensures var before, last := inputs[..|inputs| - 1], inputs[|inputs| - 1];
            var older := Latest(codec, kind, UnitsSeen(before, codec), []);
            Latest(codec, kind, UnitsSeen(inputs, codec), []) ==
              if last.codec == codec then Latest(codec, kind, Split(last.payload), older) else older
  {
    var before, last := inputs[..|inputs| - 1], inputs[|inputs| - 1];
    UnitsSnoc(inputs, codec);
    hide Latest, Split, UnitsSeen;
    if last.codec == codec {
      LatestAppend(codec, kind, UnitsSeen(before, codec), Split(last.payload), []);
    } else {
      assert UnitsSeen(inputs, codec) == UnitsSeen(before, codec);
    }
  }

  lemma AbsorbTracks(v: Video, inputs: seq<Input>)
    requires inputs != [] && CacheTracks(v, inputs[..|inputs| - 1])
    ensures var last := inputs[|inputs| - 1];
            CacheTracks(Absorb(v, last.codec, Split(last.payload)), inputs)
  {
    var last := inputs[|inputs| - 1];
    var units := Split(last.payload);
    hide Latest, Split, UnitsSeen, Absorb, Required;
    forall codec: Codec, kind: Kind | kind in Required(codec)
      ensures Absorb(v, last.codec, units).Cached(codec, kind) == Latest(codec, kind, UnitsSeen(inputs, codec), [])
    {
      AbsorbCached(v, last.codec, units, codec, kind);
      LatestSnocInput(inputs, codec, kind);
    }
  }

  lemma SetsTracked(v: Video, inputs: seq<Input>, codec: Codec)
    requires CacheTracks(v, inputs)
    ensures Sets(v, codec) == SetsSeen(inputs, codec)
  {
  }

  lemma AfterSnoc(inputs: seq<Input>)
    requires inputs != []
    ensures var n := |inputs| - 1;
            After(inputs) == Prepare(After(inputs[..n]), inputs[n].codec, inputs[n].payload).0
  {
  }

  lemma SameCache(v: Video, inputs: seq<Input>)
    requires CacheTracks(v, inputs)
    ensures CacheTracks(v.(started := true), inputs)
  {
    hide Latest, UnitsSeen;
  }

  lemma PrepareTracks(v: Video, inputs: seq<Input>)
    requires inputs != [] && Tracks(v, inputs[..|inputs| - 1])
    ensures var last := inputs[|inputs| - 1];
            Tracks(Prepare(v, last.codec, last.payload).0, inputs)
  {
    hide Split, Latest, EverReady, Required, Sets, SetsSeen, HasKeyframe, CacheTracks, Absorb;
    var last := inputs[|inputs| - 1];
    var seen := Absorb(v, last.codec, Split(last.payload));
    AbsorbTracks(v, inputs);
    SetsTracked(seen, inputs, last.codec);
    SameCache(seen, inputs);
    EverReadySnoc(inputs);
    AbsorbNone(v, last.codec);
    StartedKept(v, last.codec, Split(last.payload));
  }

  lemma StartedKept(v: Video, codec: Codec, units: seq<Bytes>)
    ensures Absorb(v, codec, units).started == v.started
  {
  }

  lemma {:induction false} RunTracks(inputs: seq<Input>)
    ensures Tracks(After(inputs), inputs)
  {
    if inputs == [] {
      assert forall k :: 0 <= k <= |inputs| ==> inputs[..k] == [];
    } else {
      RunTracks(inputs[..|inputs| - 1]);
      AfterSnoc(inputs);
      PrepareTracks(After(inputs[..|inputs| - 1]), inputs);
    }
  }

  /**
    What a run emits, without the machine: nothing until some call has met the readiness
    condition; on that call the newest parameter sets and the payload's units; afterwards every
    payload with at least one unit, unchanged.
  */
  lemma OutputOfRun(inputs: seq<Input>)
    requires inputs != []
    ensures var before := inputs[..|inputs| - 1];
            var last := inputs[|inputs| - 1];
            LastOutput(inputs) ==
              if Split(last.payload) == [] then None
              else if EverReady(before) then Some(last.payload)
              else if Ready(inputs) then Some(Print(SetsSeen(inputs, last.codec) + Split(last.payload)))
              else None
  {
    var before, last := inputs[..|inputs| - 1], inputs[|inputs| - 1];
    RunTracks(before);
    AbsorbTracks(After(before), inputs);
    SetsTracked(Absorb(After(before), last.codec, Split(last.payload)), inputs, last.codec);
  }

  /** The first payload emitted splits into the newest parameter sets followed by the units that arrived. */
  lemma FirstOutputSplits(inputs: seq<Input>)
    requires Ready(inputs) && !EverReady(inputs[..|inputs| - 1])
    ensures var last := inputs[|inputs| - 1];
            LastOutput(inputs).Some? &&
            Split(LastOutput(inputs).value) == SetsSeen(inputs, last.codec) + Split(last.payload)
  {
    var last := inputs[|inputs| - 1];
    OutputOfRun(inputs);
    var sets := SetsSeen(inputs, last.codec);
    forall i | 0 <= i < |sets|
      ensures WellFormed(sets[i])
    {
      UnitsWellFormed(inputs, last.codec);
      LatestFrom(last.codec, Required(last.codec)[i], UnitsSeen(inputs, last.codec));
      assert sets[i] in sets;
    }
    SplitWellFormed(last.payload);
    SplitPrint(sets + Split(last.payload));
  }

  /** Once started, always started. */
  lemma StartedStays(inputs: seq<Input>, more: seq<Input>)
    requires After(inputs).started
    ensures After(inputs + more).started
  {
    hide After, CacheTracks, Ready;
    RunTracks(inputs);
    RunTracks(inputs + more);
    var k :| 0 <= k <= |inputs| && Ready(inputs[..k]);
    assert (inputs + more)[..k] == inputs[..k];
  }

  // ---------------------------------------------------------------- the unit types of Table 7-1

  /** The type in a unit's header; H.265 units have a second header byte. */
  function TypeOf(codec: Codec, unit: Bytes): Option<nat>
  {
    match codec
    case H264 => if |unit| >= 1 then Some(unit[0] % 32) else None
    case H265 => if |unit| >= 2 then Some(unit[0] / 2 % 64) else None
  }

  /** A header byte made of its fields: one forbidden bit, then in H.264 two bits of importance and five of type. */
  lemma H264Header(unit: Bytes, forbidden: nat, refIdc: nat, t: nat)
    requires |unit| >= 1 && forbidden < 2 && refIdc < 4 && t < 32 && unit[0] == 128 * forbidden + 32 * refIdc + t
    ensures TypeOf(H264, unit) == Some(t)
  {
  }

  /** And in H.265 six bits of type and the first of the layer's six. */
  lemma H265Header(unit: Bytes, forbidden: nat, t: nat, layer: nat)
    requires |unit| >= 2 && forbidden < 2 && t < 64 && layer < 2 && unit[0] == 128 * forbidden + 2 * t + layer
    ensures TypeOf(H265, unit) == Some(t)
  {
  }

  /** The newest unit of one type, or []. */
  function Newest(codec: Codec, t: nat, units: seq<Bytes>): Bytes
  {
    if units == [] then []
    else if TypeOf(codec, units[|units| - 1]) == Some(t) then units[|units| - 1]
    else Newest(codec, t, units[..|units| - 1])
  }

  /** Which types are which parameter set. */
  predicate SetType(codec: Codec, kind: Kind, t: nat)
  {
    match codec
    case H264 => (kind == Sps && t == 7) || (kind == Pps && t == 8)
    case H265 => (kind == Vps && t == 32) || (kind == Sps && t == 33) || (kind == Pps && t == 34)
  }

  lemma {:induction false} LatestIsNewest(codec: Codec, kind: Kind, t: nat, units: seq<Bytes>)
    requires SetType(codec, kind, t)
    ensures Latest(codec, kind, units, []) == Newest(codec, t, units)
  {
    if units != [] {
      LatestIsNewest(codec, kind, t, units[..|units| - 1]);
    }
  }

  /** In H.264 the parameter sets are sent in this order: type 7, type 8. */
  lemma H264SetsInOrder(inputs: seq<Input>)
    ensures var units := UnitsSeen(inputs, H264);
            SetsSeen(inputs, H264) == [Newest(H264, 7, units), Newest(H264, 8, units)]
  {
    LatestIsNewest(H264, Sps, 7, UnitsSeen(inputs, H264));
    LatestIsNewest(H264, Pps, 8, UnitsSeen(inputs, H264));
    hide Latest, Newest, UnitsSeen;
  }

  /** In H.265: type 32, type 33, type 34. */
  lemma H265SetsInOrder(inputs: seq<Input>)
    ensures var units := UnitsSeen(inputs, H265);
            SetsSeen(inputs, H265) == [Newest(H265, 32, units), Newest(H265, 33, units), Newest(H265, 34, units)]
  {
    LatestIsNewest(H265, Vps, 32, UnitsSeen(inputs, H265));
    LatestIsNewest(H265, Sps, 33, UnitsSeen(inputs, H265));
    LatestIsNewest(H265, Pps, 34, UnitsSeen(inputs, H265));
    hide Latest, Newest, UnitsSeen;
  }

  /** A keyframe is a unit of type 5 in H.264, and of types 16 to 21 in H.265. */
  lemma KeyframeTypes(units: seq<Bytes>)
    ensures HasKeyframe(H264, units) <==> exists i :: 0 <= i < |units| && TypeOf(H264, units[i]) == Some(5)
    ensures HasKeyframe(H265, units) <==>
            exists i :: 0 <= i < |units| && TypeOf(H265, units[i]).Some? && 16 <= TypeOf(H265, units[i]).value <= 21
  {
  }
}

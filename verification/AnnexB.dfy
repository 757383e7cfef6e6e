/**
  The byte stream format of Annex B of ITU-T H.264 and H.265 as the camera package reads it
  (camera/probe_driver.go:254-295) and writes it (camera/probe_stream.go:483-494).
*/
module AnnexB {
  import opened Bytes

  const START_CODE: Bytes := [0, 0, 0, 1]

  // ---------------------------------------------------------------- specification

  predicate ShortCode(b: Bytes)
  {
    |b| >= 3 && b[0] == 0 && b[1] == 0 && b[2] == 1
  }

  /** A three- or four-byte start code begins `b`. */
  predicate IsCode(b: Bytes)
  {
    ShortCode(b) || (|b| >= 4 && b[0] == 0 && ShortCode(b[1..]))
  }

  /** Index of the first start code, or -1. */
  function FindCode(b: Bytes): (r: int)
    ensures -1 <= r <= |b| - 3 || r == -1
    ensures r >= 0 ==> IsCode(b[r..])
    ensures forall k :: 0 <= k < (if r < 0 then |b| else r) ==> !IsCode(b[k..])
  {
    if |b| < 3 then -1
    else if IsCode(b) then 0
    else
      var rest := FindCode(b[1..]);
      assert forall k :: 1 <= k < |b| ==> b[1..][k - 1..] == b[k..];
      if rest < 0 then -1 else rest + 1
  }

  /** Index of the first byte that is not zero, or the length. */
  function ZeroRun(b: Bytes): (n: nat)
    ensures n <= |b|
    ensures forall k :: 0 <= k < n ==> b[k] == 0
    ensures n < |b| ==> b[n] != 0
  {
    if |b| == 0 || b[0] != 0 then 0 else 1 + ZeroRun(b[1..])
  }

  /** What is left of `b` after its leading zeros and the 01 that ends them. */
  function AfterCode(b: Bytes): (n: nat)
    ensures n <= |b|
    ensures IsCode(b) ==> n >= 3
  {
    var z := ZeroRun(b);
    if z < |b| && b[z] == 1 then z + 1 else z
  }

  /** Length of the unit at the front of `b`: up to the next start code or to the end. */
  function UnitLength(b: Bytes): (n: nat)
    ensures n <= |b|
    ensures forall k :: 0 <= k < n ==> !IsCode(b[k..])
  {
    var next := FindCode(b);
    if next < 0 then |b| else next
  }

  /** What follows the first start code of `b`. */
  function Body(b: Bytes): (body: Bytes)
    requires FindCode(b) >= 0
    ensures |body| < |b|
  {
    var code := b[FindCode(b)..];
    code[AfterCode(code)..]
  }

  /** The unit at the front of `body`, if it has any byte. */
  function FirstUnit(body: Bytes): seq<Bytes>
  {
    if UnitLength(body) > 0 then [body[..UnitLength(body)]] else []
  }

  function Split(b: Bytes): (units: seq<Bytes>)
    decreases |b|
  {
    if FindCode(b) < 0 then []
    else FirstUnit(Body(b)) + Split(Body(b)[UnitLength(Body(b))..])
  }

  function Print(units: seq<Bytes>): Bytes
  {
    if units == [] then [] else START_CODE + units[0] + Print(units[1..])
  }

  /** A unit that survives the format: not empty and without 00 00 01 inside. Trailing zeros are allowed. */
  ghost predicate WellFormed(unit: Bytes)
  {
    unit != [] && forall k :: 0 <= k < |unit| ==> !ShortCode(unit[k..])
  }

  ghost predicate AllWellFormed(units: seq<Bytes>)
  {
    forall i :: 0 <= i < |units| ==> WellFormed(units[i])
  }

  // ---------------------------------------------------------------- the Go code's loops

  /** The first start code at or after `start`, as an index into the whole payload, or -1. */
  function FindFrom(payload: Bytes, start: nat): (r: int)
    requires start <= |payload|
    ensures r == -1 || start <= r <= |payload| - 3
  {
    var f := FindCode(payload[start..]);
    if f < 0 then -1 else start + f
  }

  method FindAnnexBPrefix(payload: Bytes, start: nat) returns (r: int)
    requires start <= |payload|
    ensures r == FindFrom(payload, start)
  {
    var idx := start;
    while idx + 3 <= |payload|
      invariant start <= idx <= |payload|
      invariant forall k :: 0 <= k < idx - start ==> !IsCode(payload[start..][k..])
    {
      assert payload[start..][idx - start..] == payload[idx..];
      if payload[idx] == 0 && payload[idx + 1] == 0 {
        if payload[idx + 2] == 1 {
          return idx;
        }
        if idx + 3 < |payload| && payload[idx + 2] == 0 && payload[idx + 3] == 1 {
          return idx;
        }
      }
      idx := idx + 1;
    }
    r := -1;
  }

  method SplitAnnexBNalus(payload: Bytes) returns (nalus: seq<Bytes>)
    ensures nalus == Split(payload)
  {
    hide FindCode, Split, AfterCode, FirstUnit;
    nalus := [];
    var start := 0;
    while start < |payload|
      invariant 0 <= start <= |payload|
      invariant nalus + Split(payload[start..]) == Split(payload)
      decreases |payload| - start
    {
      var prefix := FindAnnexBPrefix(payload, start);
      if prefix < 0 {
        break;
      }
      var naluStart := prefix;
      while naluStart < |payload| && payload[naluStart] == 0
        invariant prefix <= naluStart <= |payload|
        invariant forall k :: prefix <= k < naluStart ==> payload[k] == 0
      {
        naluStart := naluStart + 1;
      }
      CodeSkipped(payload, prefix, naluStart);
      if naluStart < |payload| && payload[naluStart] == 1 {
        naluStart := naluStart + 1;
      }
      var next := FindAnnexBPrefix(payload, naluStart);
      if next < 0 {
        next := |payload|;
      }
      SplitStep(payload, start, naluStart, next);
      Assoc(nalus, FirstUnit(payload[naluStart..]), Split(payload[next..]));
      if naluStart < next {
        nalus := nalus + [payload[naluStart..next]];
      } else {
        assert nalus + [] == nalus;
      }
      start := next;
    }
    assert start == |payload| ==> payload[start..] == [];
    NothingToSplit(payload[start..]);
  }

  lemma NothingToSplit(b: Bytes)
    requires b == [] || FindCode(b) < 0
    ensures Split(b) == []
  {
  }

  /** Where the two skipping loops leave off. */
  lemma CodeSkipped(payload: Bytes, prefix: nat, zeros: nat)
    requires prefix <= zeros <= |payload|
    requires forall k :: prefix <= k < zeros ==> payload[k] == 0
    requires zeros < |payload| ==> payload[zeros] != 0
    ensures var code := payload[prefix..];
            prefix + AfterCode(code) == if zeros < |payload| && payload[zeros] == 1 then zeros + 1 else zeros
  {
    ZeroRunIs(payload[prefix..], zeros - prefix);
  }

  /** The body after the first start code, as a slice of the whole payload. */
  lemma BodyAt(payload: Bytes, start: nat)
    requires start <= |payload| && FindFrom(payload, start) >= 0
    ensures var prefix := FindFrom(payload, start);
            FindCode(payload[start..]) >= 0 &&
            Body(payload[start..]) == payload[prefix + AfterCode(payload[prefix..])..]
  {
    hide FindCode, AfterCode;
    var prefix := FindFrom(payload, start);
    assert payload[start..][prefix - start..] == payload[prefix..];
  }

  /** The unit at an index, as a slice of the whole payload. */
  lemma UnitAt(payload: Bytes, at: nat, next: nat)
    requires at <= |payload|
    requires next == if FindFrom(payload, at) < 0 then |payload| else FindFrom(payload, at)
    ensures at <= next <= |payload| && UnitLength(payload[at..]) == next - at
    ensures payload[at..][..next - at] == payload[at..next] && payload[at..][next - at..] == payload[next..]
  {
    hide FindCode;
  }

  lemma SplitUnfold(b: Bytes, body: Bytes, n: nat)
    requires FindCode(b) >= 0 && Body(b) == body && UnitLength(body) == n
    ensures n <= |body| && FirstUnit(body) == (if n > 0 then [body[..n]] else [])
    ensures Split(b) == FirstUnit(body) + Split(body[n..])
  {
    hide FindCode, Body, UnitLength;
  }

  /** The outer loop makes progress: a start code has at least three bytes. */
  lemma CodeProgress(payload: Bytes, start: nat)
    requires start <= |payload| && FindFrom(payload, start) >= 0
    ensures var prefix := FindFrom(payload, start);
            start < prefix + AfterCode(payload[prefix..]) <= |payload|
  {
    hide AfterCode;
    var prefix := FindFrom(payload, start);
    assert payload[start..][prefix - start..] == payload[prefix..];
  }

  /** One turn of the outer loop takes the first unit of the rest of the payload. */
  lemma SplitStep(payload: Bytes, start: nat, naluStart: nat, next: nat)
    requires start <= |payload| && FindFrom(payload, start) >= 0
    requires var prefix := FindFrom(payload, start);
             naluStart == prefix + AfterCode(payload[prefix..])
    requires next == if FindFrom(payload, naluStart) < 0 then |payload| else FindFrom(payload, naluStart)
    ensures naluStart <= next <= |payload| && start < next
    ensures FirstUnit(payload[naluStart..]) == if naluStart < next then [payload[naluStart..next]] else []
    ensures Split(payload[start..]) == FirstUnit(payload[naluStart..]) + Split(payload[next..])
  {
    hide *;
    CodeProgress(payload, start);
    BodyAt(payload, start);
    UnitAt(payload, naluStart, next);
    SplitUnfold(payload[start..], payload[naluStart..], next - naluStart);
  }

  lemma ZeroRunIs(b: Bytes, n: nat)
    requires n <= |b| && (forall k :: 0 <= k < n ==> b[k] == 0) && (n < |b| ==> b[n] != 0)
    ensures ZeroRun(b) == n
  {
  }

  method AnnexBPayload(nalus: seq<Bytes>) returns (payload: Bytes)
    ensures payload == Print(nalus)
  {
    payload := [];
    var i := 0;
    while i < |nalus|
      invariant 0 <= i <= |nalus|
      invariant payload + Print(nalus[i..]) == Print(nalus)
    {
      assert nalus[i..][1..] == nalus[i + 1..];
      assert Print(nalus[i..]) == START_CODE + nalus[i] + Print(nalus[i + 1..]);
      payload := payload + START_CODE;
      payload := payload + nalus[i];
      i := i + 1;
    }
  }

  // ---------------------------------------------------------------- inverse

  /** No short code begins inside a well-formed unit, nor where the four-byte code after it begins. */
  lemma NoShortCode(unit: Bytes, rest: Bytes, k: nat)
    requires WellFormed(unit) && k <= |unit|
    requires rest == [] || START_CODE <= rest
    ensures !ShortCode((unit + rest)[k..])
  {
    var b := unit + rest;
    if k + 3 <= |unit| {
      assert unit[k..][2] == b[k..][2] && unit[k..][1] == b[k..][1] && unit[k..][0] == b[k..][0];
      assert !ShortCode(unit[k..]);
    } else if k + 2 < |b| {
      assert b[k..][2] == rest[k + 2 - |unit|] == START_CODE[k + 2 - |unit|];
    }
  }

  lemma UnitEnds(unit: Bytes, rest: Bytes)
    requires WellFormed(unit)
    requires rest == [] || START_CODE <= rest
    ensures UnitLength(unit + rest) == |unit|
  {
    var b := unit + rest;
    hide FindCode;
    forall k | 0 <= k < |unit|
      ensures !IsCode(b[k..])
    {
      NoShortCode(unit, rest, k);
      NoShortCode(unit, rest, k + 1);
      assert b[k..][1..] == b[k + 1..];
    }
    assert b[|unit|..] == rest;
    if rest != [] {
      assert IsCode(rest);
    }
  }

  lemma SkipsStartCode(body: Bytes)
    ensures FindCode(START_CODE + body) >= 0 && Body(START_CODE + body) == body
  {
    var b := START_CODE + body;
    assert ShortCode(b[1..]);
    ZeroRunIs(b, 3);
    assert b[0..] == b && b[4..] == body;
  }

  lemma PrintUnfold(units: seq<Bytes>)
    requires units != []
    ensures Print(units) == START_CODE + (units[0] + Print(units[1..]))
    ensures START_CODE <= Print(units)
  {
  }

  /** The first unit of a printed stream is split off whole. */
  lemma SplitFirst(unit: Bytes, rest: Bytes)
    requires WellFormed(unit) && (rest == [] || START_CODE <= rest)
    ensures Split(START_CODE + (unit + rest)) == [unit] + Split(rest)
  {
    hide FindCode, Body, UnitLength, WellFormed;
    SkipsStartCode(unit + rest);
    UnitEnds(unit, rest);
    NotEmpty(unit);
    assert (unit + rest)[..|unit|] == unit && (unit + rest)[|unit|..] == rest;
  }

  lemma NotEmpty(unit: Bytes)
    requires WellFormed(unit)
    ensures |unit| > 0
  {
  }

  /** Splitting undoes printing, for any list of well-formed units. */
  lemma {:induction false} SplitPrint(units: seq<Bytes>)
    requires AllWellFormed(units)
    ensures Split(Print(units)) == units
  {
    if units == [] {
      NothingToSplit(Print(units));
    } else {
      hide FindCode, Print, Split, WellFormed;
      var unit, more := units[0], units[1..];
      PrintUnfold(units);
      RestBegins(more);
      SplitFirst(unit, Print(more));
      SplitPrint(more);
      assert units == [unit] + more;
    }
  }

  lemma RestBegins(units: seq<Bytes>)
    ensures Print(units) == [] || START_CODE <= Print(units)
  {
    if units != [] {
      PrintUnfold(units);
    }
  }

  lemma FrontWellFormed(body: Bytes, n: nat)
    requires 0 < n <= |body|
    requires forall k :: 0 <= k < n ==> !IsCode(body[k..])
    ensures WellFormed(body[..n])
  {
    forall k | 0 <= k < n
      ensures !ShortCode(body[..n][k..])
    {
      assert !IsCode(body[k..]);
      assert k + 3 <= n ==> body[..n][k..][..3] == body[k..][..3];
    }
  }

  /** Every unit that splitting yields is well-formed. */
  lemma {:induction false} SplitWellFormed(b: Bytes)
    ensures AllWellFormed(Split(b))
    decreases |b|
  {
    if FindCode(b) >= 0 {
      hide FindCode, WellFormed, Body, UnitLength;
      var body := Body(b);
      var n := UnitLength(body);
      SplitWellFormed(body[n..]);
      if n > 0 {
        FrontWellFormed(body, n);
      }
      assert AllWellFormed(FirstUnit(body));
    }
  }

  /** Printing what was split and splitting again changes nothing, for every byte string. */
  lemma SplitPrintSplit(b: Bytes)
    ensures Split(Print(Split(b))) == Split(b)
  {
    SplitWellFormed(b);
    SplitPrint(Split(b));
  }

  /** Bytes before the first start code belong to no unit; without any start code there is no unit. */
  lemma SplitDropsJunk(junk: Bytes, stream: Bytes)
    requires stream == [] || IsCode(stream)
    requires forall k :: 0 <= k < |junk| ==> !IsCode((junk + stream)[k..])
    ensures Split(junk + stream) == Split(stream)
  {
    var b := junk + stream;
    assert b[|junk|..] == stream && stream[0..] == stream;
    if stream == [] {
      NothingToSplit(stream);
      assert forall k :: 0 <= k < |b| ==> !IsCode(b[k..]);
      NothingToSplit(b);
    } else {
      assert FindCode(b) == |junk| && FindCode(stream) == 0;
    }
  }

  /** Exactly the lists that survive printing and splitting. */
  lemma RoundTripIff(units: seq<Bytes>)
    ensures Split(Print(units)) == units <==> AllWellFormed(units)
  {
    if AllWellFormed(units) {
      SplitPrint(units);
    } else {
      SplitWellFormed(Print(units));
    }
  }
}

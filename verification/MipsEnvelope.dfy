/** The MIPS message envelope (mips_types.go:143-223): a sequence of length-type-value fields. */
module MipsEnvelope {
  import opened Bytes

  const FIELD_ID: byte := 0
  const FIELD_REPLY_TOPIC: byte := 1
  const FIELD_PAYLOAD: byte := 2
  const FIELD_FROM: byte := 3

  datatype Envelope = Envelope(id: uint32, from: Bytes, replyTopic: Bytes, payload: Bytes)

  const BLANK := Envelope(0, [], [], [])

  datatype Unpacked = Unpacked(msg: Envelope) | TruncatedHeader | TruncatedPayload | InvalidId

  datatype Field = Field(kind: byte, body: Bytes)

  /** The length field keeps the low thirty-two bits. */
  function EncodeField(f: Field): Bytes
  {
    ToLE(|f.body| % 0x1_0000_0000, 4) + [f.kind] + f.body
  }

  function EncodeFields(fields: seq<Field>): Bytes
  {
    if fields == [] then [] else EncodeField(fields[0]) + EncodeFields(fields[1..])
  }

  function FieldsOf(m: Envelope): seq<Field>
  {
    [Field(FIELD_ID, ToLE(m.id, 4))]
    + (if m.from != [] then [Field(FIELD_FROM, m.from + [0])] else [])
    + (if m.replyTopic != [] then [Field(FIELD_REPLY_TOPIC, m.replyTopic + [0])] else [])
    + [Field(FIELD_PAYLOAD, m.payload + [0])]
  }

  predicate ValidField(f: Field)
  {
    f.kind == FIELD_ID ==> |f.body| == 4
  }

  function Id(body: Bytes): uint32
    requires |body| == 4
  {
    PowValues();
    FromLE(body)
  }

  /** What one field does to the message; fields of unknown kind do nothing. */
  function Apply(m: Envelope, f: Field): Envelope
    requires ValidField(f)
  {
    if f.kind == FIELD_ID then m.(id := Id(f.body))
    else if f.kind == FIELD_REPLY_TOPIC then m.(replyTopic := TrimNul(f.body))
    else if f.kind == FIELD_PAYLOAD then m.(payload := TrimNul(f.body))
    else if f.kind == FIELD_FROM then m.(from := TrimNul(f.body))
    else m
  }

  /** Decoding `data` on top of a message decoded so far. */
  function UnpackOnto(m: Envelope, data: Bytes): Unpacked
    decreases |data|
  {
    if data == [] then Unpacked(m)
    else if |data| < 5 then TruncatedHeader
    else
      var length := FromLE(data[..4]);
      if 5 + length > |data| then TruncatedPayload
      else
        var f := Field(data[4], data[5..5 + length]);
        if !ValidField(f) then InvalidId else UnpackOnto(Apply(m, f), data[5 + length..])
  }

  // ---------------------------------------------------------------- the Go code's loops

  method WriteField(buffer: Bytes, kind: byte, data: Bytes, nulTerminate: bool) returns (r: Bytes)
    ensures r == buffer + EncodeField(Field(kind, if nulTerminate then data + [0] else data))
  {
    var field := data;
    if nulTerminate {
      field := field + [0];
    }
    r := buffer + ToLE(|field| % 0x1_0000_0000, 4);
    r := r + [kind];
    r := r + field;
  }

  method Pack(m: Envelope) returns (wire: Bytes)
    ensures wire == EncodeFields(FieldsOf(m))
  {
    var first := Field(FIELD_ID, ToLE(m.id, 4));
    ghost var middle := (if m.from != [] then [Field(FIELD_FROM, m.from + [0])] else [])
                        + (if m.replyTopic != [] then [Field(FIELD_REPLY_TOPIC, m.replyTopic + [0])] else []);
    ghost var written := [first];
    wire := WriteField([], FIELD_ID, ToLE(m.id, 4), false);
    EncodeSnoc([], first);
    if m.from != [] {
      wire := WriteField(wire, FIELD_FROM, m.from, true);
      EncodeSnoc(written, Field(FIELD_FROM, m.from + [0]));
      written := written + [Field(FIELD_FROM, m.from + [0])];
    }
    if m.replyTopic != [] {
      wire := WriteField(wire, FIELD_REPLY_TOPIC, m.replyTopic, true);
      EncodeSnoc(written, Field(FIELD_REPLY_TOPIC, m.replyTopic + [0]));
      written := written + [Field(FIELD_REPLY_TOPIC, m.replyTopic + [0])];
    }
    wire := WriteField(wire, FIELD_PAYLOAD, m.payload, true);
    EncodeSnoc(written, Field(FIELD_PAYLOAD, m.payload + [0]));
    assert written + [Field(FIELD_PAYLOAD, m.payload + [0])] == FieldsOf(m);
  }

  method Unpack(data: Bytes) returns (result: Unpacked)
    ensures result == UnpackOnto(BLANK, data)
  {
    var msg := BLANK;
    var offset := 0;
    assert data[0..] == data;
    while offset < |data|
      invariant 0 <= offset <= |data|
      invariant UnpackOnto(msg, data[offset..]) == UnpackOnto(BLANK, data)
      decreases |data| - offset
    {
      ghost var rest := data[offset..];
      if |data[offset..]| < 5 {
        return TruncatedHeader;
      }
      var fieldLen := FromLE(data[offset..offset + 4]);
      var kind := data[offset + 4];
      var start := offset + 5;
      var end := start + fieldLen;
      assert rest[..4] == data[offset..offset + 4];
      if end > |data| {
        return TruncatedPayload;
      }
      assert rest[5..5 + fieldLen] == data[start..end] && rest[5 + fieldLen..] == data[end..];
      if kind == FIELD_ID {
        if fieldLen != 4 {
          return InvalidId;
        }
        msg := msg.(id := Id(data[start..end]));
      } else if kind == FIELD_REPLY_TOPIC {
        msg := msg.(replyTopic := TrimNul(data[start..end]));
      } else if kind == FIELD_PAYLOAD {
        msg := msg.(payload := TrimNul(data[start..end]));
      } else if kind == FIELD_FROM {
        msg := msg.(from := TrimNul(data[start..end]));
      }
      offset := end;
    }
    assert data[offset..] == [];
    result := Unpacked(msg);
  }

  // ---------------------------------------------------------------- last write wins

  /** Body of the last field of one kind, or `fallback`. */
  function LastBody(fields: seq<Field>, kind: byte, fallback: Bytes): Bytes
  {
    if fields == [] then fallback
    else if fields[|fields| - 1].kind == kind then fields[|fields| - 1].body
    else LastBody(fields[..|fields| - 1], kind, fallback)
  }

  predicate Has(fields: seq<Field>, kind: byte)
  {
    exists i :: 0 <= i < |fields| && fields[i].kind == kind
  }

  predicate AllValid(fields: seq<Field>)
  {
    forall i :: 0 <= i < |fields| ==> ValidField(fields[i])
  }

  predicate Short(fields: seq<Field>)
  {
    forall i :: 0 <= i < |fields| ==> |fields[i].body| < 0x1_0000_0000
  }

  /** A message read off a list of fields: for each kind the last one counts, absent kinds are blank. */
  function Summary(fields: seq<Field>): Envelope
    requires AllValid(fields)
  {
    LastBodyValid(fields, FIELD_ID);
    Envelope(
      Id(LastBody(fields, FIELD_ID, [0, 0, 0, 0])),
      TrimNul(LastBody(fields, FIELD_FROM, [])),
      TrimNul(LastBody(fields, FIELD_REPLY_TOPIC, [])),
      TrimNul(LastBody(fields, FIELD_PAYLOAD, [])))
  }

  lemma {:induction false} LastBodyValid(fields: seq<Field>, kind: byte)
    requires AllValid(fields) && kind == FIELD_ID
    ensures |LastBody(fields, kind, [0, 0, 0, 0])| == 4
  {
    if fields != [] {
      LastBodyValid(fields[..|fields| - 1], kind);
    }
  }

  lemma {:induction false} EncodeFieldsAppend(xs: seq<Field>, ys: seq<Field>)
    ensures EncodeFields(xs + ys) == EncodeFields(xs) + EncodeFields(ys)
  {
    if xs == [] {
      assert xs + ys == ys;
    } else {
      assert (xs + ys)[1..] == xs[1..] + ys;
      EncodeFieldsAppend(xs[1..], ys);
      Assoc(EncodeField(xs[0]), EncodeFields(xs[1..]), EncodeFields(ys));
    }
  }

  lemma EncodeSnoc(xs: seq<Field>, f: Field)
    ensures EncodeFields(xs + [f]) == EncodeFields(xs) + EncodeField(f)
  {
    EncodeFieldsAppend(xs, [f]);
    assert EncodeFields([f]) == EncodeField(f) + EncodeFields([]);
  }

  lemma ReadField(f: Field, rest: Bytes)
    requires |f.body| < 0x1_0000_0000
    ensures var data := EncodeField(f) + rest;
            && |data| >= 5 && FromLE(data[..4]) == |f.body| && 5 + |f.body| <= |data|
            && Field(data[4], data[5..5 + |f.body|]) == f && data[5 + |f.body|..] == rest
  {
    hide ToLE, FromLE, Pow256;
    PowValues();
    FromToLE(|f.body|, 4);
    var data := EncodeField(f) + rest;
    assert data[..4] == ToLE(|f.body|, 4);
    assert data[5..5 + |f.body|] == f.body;
    assert data[5 + |f.body|..] == rest;
  }

  lemma UnpackField(m: Envelope, f: Field, rest: Bytes)
    requires |f.body| < 0x1_0000_0000
    ensures UnpackOnto(m, EncodeField(f) + rest) == if ValidField(f) then UnpackOnto(Apply(m, f), rest) else InvalidId
  {
    ReadField(f, rest);
    hide EncodeField, FromLE, Apply, ValidField;
  }

  /** Decoding is a left fold over the fields. */
  function Fold(m: Envelope, fields: seq<Field>): Envelope
    requires AllValid(fields)
  {
    if fields == [] then m else Apply(Fold(m, fields[..|fields| - 1]), fields[|fields| - 1])
  }

  lemma {:induction false} FoldCons(m: Envelope, f: Field, fields: seq<Field>)
    requires ValidField(f) && AllValid(fields)
    ensures AllValid([f] + fields)
    ensures Fold(m, [f] + fields) == Fold(Apply(m, f), fields)
  {
    var all := [f] + fields;
    if fields == [] {
      assert all[..0] == [];
    } else {
      FoldCons(m, f, fields[..|fields| - 1]);
      assert all[..|all| - 1] == [f] + fields[..|fields| - 1];
    }
  }

  lemma {:induction false} UnpackFields(m: Envelope, fields: seq<Field>, rest: Bytes)
    requires AllValid(fields) && Short(fields)
    ensures UnpackOnto(m, EncodeFields(fields) + rest) == UnpackOnto(Fold(m, fields), rest)
    decreases |fields|
  {
    if fields == [] {
      assert EncodeFields(fields) + rest == rest;
    } else {
      hide UnpackOnto, Apply, EncodeField;
      Assoc(EncodeField(fields[0]), EncodeFields(fields[1..]), rest);
      UnpackField(m, fields[0], EncodeFields(fields[1..]) + rest);
      UnpackFields(Apply(m, fields[0]), fields[1..], rest);
      FoldCons(m, fields[0], fields[1..]);
      assert [fields[0]] + fields[1..] == fields;
    }
  }

  lemma {:induction false} FoldSummary(fields: seq<Field>)
    requires AllValid(fields)
    ensures Fold(BLANK, fields) == Summary(fields)
  {
    if fields == [] {
      PowValues();
      assert FromLE([]) == 0 && FromLE([0]) == 0 && FromLE([0, 0]) == 0 && FromLE([0, 0, 0]) == 0;
      assert [0, 0, 0, 0][1..] == [0, 0, 0] && [0, 0, 0][1..] == [0, 0] && [0, 0][1..] == [0] && [0][1..] == [];
    } else {
      FoldSummary(fields[..|fields| - 1]);
    }
  }

  /** The fields that a decodable byte string consists of. */
  function ParseFields(data: Bytes): seq<Field>
    decreases |data|
  {
    if |data| < 5 then []
    else
      var length := FromLE(data[..4]);
      if 5 + length > |data| then []
      else [Field(data[4], data[5..5 + length])] + ParseFields(data[5 + length..])
  }

  /** A byte string that begins with a whole field is that field's encoding and a rest. */
  lemma SplitField(data: Bytes)
    requires |data| >= 5 && 5 + FromLE(data[..4]) <= |data|
    ensures var length := FromLE(data[..4]);
            var f := Field(data[4], data[5..5 + length]);
            |f.body| < 0x1_0000_0000 && EncodeField(f) + data[5 + length..] == data
  {
    var length := FromLE(data[..4]);
    PowValues();
    ToFromLE(data[..4]);
    hide FromLE, ToLE;
    assert data == data[..4] + [data[4]] + data[5..5 + length] + data[5 + length..];
  }

  lemma EncodeFieldsCons(f: Field, fields: seq<Field>)
    ensures EncodeFields([f] + fields) == EncodeField(f) + EncodeFields(fields)
  {
    assert ([f] + fields)[1..] == fields;
  }

  lemma {:induction false} UnpackedIsEncoded(m: Envelope, data: Bytes)
    requires UnpackOnto(m, data).Unpacked?
    ensures var fields := ParseFields(data);
            AllValid(fields) && Short(fields) && EncodeFields(fields) == data
    decreases |data|
  {
    if data != [] {
      hide FromLE, EncodeField, EncodeFields, Apply;
      var length := FromLE(data[..4]);
      var f := Field(data[4], data[5..5 + length]);
      SplitField(data);
      UnpackedIsEncoded(Apply(m, f), data[5 + length..]);
      EncodeFieldsCons(f, ParseFields(data[5 + length..]));
    }
  }

  lemma {:induction false} ToFromLE(s: Bytes)
    ensures ToLE(FromLE(s), |s|) == s
  {
    if |s| > 0 {
      var v := FromLE(s);
      assert v % 256 == s[0] && v / 256 == FromLE(s[1..]);
      ToFromLE(s[1..]);
    }
  }

  /**
    What decoding accepts and yields, without the loop: a byte string decodes to `m` if and only
    if it is the encoding of fields whose identifiers are four bytes long and `m` summarises them.
  */
  lemma UnpackIff(data: Bytes, m: Envelope)
    ensures UnpackOnto(BLANK, data) == Unpacked(m) <==>
            exists fields :: AllValid(fields) && Short(fields) && EncodeFields(fields) == data && Summary(fields) == m
  {
    if UnpackOnto(BLANK, data) == Unpacked(m) {
      UnpackedIsEncoded(BLANK, data);
      DecodesToSummary(ParseFields(data));
    }
    if fields :| AllValid(fields) && Short(fields) && EncodeFields(fields) == data && Summary(fields) == m {
      DecodesToSummary(fields);
    }
  }

  lemma DecodesToSummary(fields: seq<Field>)
    requires AllValid(fields) && Short(fields)
    ensures UnpackOnto(BLANK, EncodeFields(fields)) == Unpacked(Summary(fields))
  {
    UnpackFields(BLANK, fields, []);
    FoldSummary(fields);
    assert EncodeFields(fields) + [] == EncodeFields(fields);
  }

  lemma {:induction false} LastBodyAppend(xs: seq<Field>, ys: seq<Field>, kind: byte, fallback: Bytes)
    ensures LastBody(xs + ys, kind, fallback)
         == if Has(ys, kind) then LastBody(ys, kind, fallback) else LastBody(xs, kind, fallback)
    decreases |ys|
  {
    if ys == [] {
      assert xs + ys == xs;
    } else {
      var n := |ys| - 1;
      assert (xs + ys)[..|xs + ys| - 1] == xs + ys[..n];
      LastBodyAppend(xs, ys[..n], kind, fallback);
      assert Has(ys, kind) <==> Has(ys[..n], kind) || ys[n].kind == kind;
    }
  }

  /** Decoding a concatenation merges the two decodes: each kind the second part has comes from it. */
  lemma UnpackConcat(a: Bytes, b: Bytes)
    requires UnpackOnto(BLANK, a).Unpacked? && UnpackOnto(BLANK, b).Unpacked?
    ensures var (ma, mb, fields) := (UnpackOnto(BLANK, a).msg, UnpackOnto(BLANK, b).msg, ParseFields(b));
            UnpackOnto(BLANK, a + b) == Unpacked(Envelope(
              if Has(fields, FIELD_ID) then mb.id else ma.id,
              if Has(fields, FIELD_FROM) then mb.from else ma.from,
              if Has(fields, FIELD_REPLY_TOPIC) then mb.replyTopic else ma.replyTopic,
              if Has(fields, FIELD_PAYLOAD) then mb.payload else ma.payload))
  {
    UnpackedIsEncoded(BLANK, a);
    UnpackedIsEncoded(BLANK, b);
    var xs, ys := ParseFields(a), ParseFields(b);
    DecodesToSummary(xs);
    DecodesToSummary(ys);
    EncodeFieldsAppend(xs, ys);
    DecodesToSummary(xs + ys);
    hide UnpackOnto, ParseFields, EncodeFields, Has, LastBody;
    LastBodyAppend(xs, ys, FIELD_ID, [0, 0, 0, 0]);
    LastBodyAppend(xs, ys, FIELD_FROM, []);
    LastBodyAppend(xs, ys, FIELD_REPLY_TOPIC, []);
    LastBodyAppend(xs, ys, FIELD_PAYLOAD, []);
  }

  // ---------------------------------------------------------------- round trip

  lemma TrimTerminated(s: Bytes)
    ensures TrimNul(s + [0]) == TrimNul(s)
  {
    assert (s + [0])[..|s|] == s;
  }

  /** Packing and unpacking gives the message with trailing zero bytes cut from its three byte fields. */
  lemma UnpackPack(m: Envelope)
    requires |m.from| < 0xFFFF_FFFF && |m.replyTopic| < 0xFFFF_FFFF && |m.payload| < 0xFFFF_FFFF
    ensures UnpackOnto(BLANK, EncodeFields(FieldsOf(m)))
         == Unpacked(Envelope(m.id, TrimNul(m.from), TrimNul(m.replyTopic), TrimNul(m.payload)))
  {
    var fields := FieldsOf(m);
    DecodesToSummary(fields);
    TrimTerminated(m.from);
    TrimTerminated(m.replyTopic);
    TrimTerminated(m.payload);
    PowValues();
    FromToLE(m.id, 4);
    LastBodies(m);
  }

  lemma LastBodies(m: Envelope)
    ensures var fields := FieldsOf(m);
            && LastBody(fields, FIELD_ID, [0, 0, 0, 0]) == ToLE(m.id, 4)
            && LastBody(fields, FIELD_FROM, []) == (if m.from != [] then m.from + [0] else [])
            && LastBody(fields, FIELD_REPLY_TOPIC, []) == (if m.replyTopic != [] then m.replyTopic + [0] else [])
            && LastBody(fields, FIELD_PAYLOAD, []) == m.payload + [0]
  {
    hide ToLE;
    var id := [Field(FIELD_ID, ToLE(m.id, 4))];
    var from := if m.from != [] then [Field(FIELD_FROM, m.from + [0])] else [];
    var reply := if m.replyTopic != [] then [Field(FIELD_REPLY_TOPIC, m.replyTopic + [0])] else [];
    var payload := [Field(FIELD_PAYLOAD, m.payload + [0])];
    assert FieldsOf(m) == id + from + reply + payload;
    forall kind: byte, fallback: Bytes
      ensures LastBody(id + from + reply + payload, kind, fallback)
           == if kind == FIELD_PAYLOAD then m.payload + [0]
              else if kind == FIELD_REPLY_TOPIC && reply != [] then m.replyTopic + [0]
              else if kind == FIELD_FROM && from != [] then m.from + [0]
              else if kind == FIELD_ID then ToLE(m.id, 4)
              else fallback
    {
      LastBodyAppend(id + from + reply, payload, kind, fallback);
      LastBodyAppend(id + from, reply, kind, fallback);
      LastBodyAppend(id, from, kind, fallback);
    }
  }
}

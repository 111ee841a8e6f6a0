/**
  The client's snapshot envelope: a version byte, then identity, provider dump and group ids, each
  behind a 32-bit length.
  */
module Envelope {
  import opened Bytes
  import opened Utf

  datatype Envelope = Envelope(identity: Bytes, provider: Bytes, groupIds: seq<JsString>)

  const ENVELOPE_VERSION: byte := 1

  /** Corrupt and unsupported are the two errors thrown. */
  datatype Result = Ok(e: Envelope) | Corrupt | Unsupported(version: byte)

  // ---- Layout ----

  function Field(x: Bytes): (b: Bytes)
    ensures |b| == 4 + |x|
  {
    ToBE(|x|, 4) + x
  }

  function Fields(xs: seq<Bytes>): (b: Bytes) {
    if xs == [] then [] else Field(xs[0]) + Fields(xs[1..])
  }

  function Texts(ids: seq<JsString>): (xs: seq<Bytes>)
    ensures |xs| == |ids| && forall i :: 0 <= i < |ids| ==> xs[i] == Utf8(ids[i])
  {
    seq(|ids|, i requires 0 <= i < |ids| => Utf8(ids[i]))
  }

  /** Everything behind the version byte. */
  function Body(identity: Bytes, provider: Bytes, texts: seq<Bytes>): (b: Bytes) {
    Field(identity) + (Field(provider) + (ToBE(|texts|, 4) + Fields(texts)))
  }

  function Encoded(e: Envelope): (b: Bytes) {
    [ENVELOPE_VERSION] + Body(e.identity, e.provider, Texts(e.groupIds))
  }

  // ---- Reading ----

  /** `readBytes` on what is left of the input. */
  function ReadField(b: Bytes): (r: Option<(Bytes, Bytes)>)
    ensures r.Some? ==> |r.value.1| < |b|
  {
    if |b| < 4 then None
    else
      var n := FromBE(b[..4]);
      if |b| < 4 + n then None else Some((b[4..4 + n], b[4 + n..]))
  }

  function ReadFields(b: Bytes, count: nat): (r: Option<seq<Bytes>>)
    ensures r.Some? ==> |r.value| == count
    decreases count
  {
    if count == 0 then Some([])
    else
      match ReadField(b)
      case None => None
      case Some((x, rest)) =>
        match ReadFields(rest, count - 1)
        case None => None
        case Some(xs) => Some([x] + xs)
  }

  datatype Parts = Parts(identity: Bytes, provider: Bytes, texts: seq<Bytes>)

  function ReadTexts(identity: Bytes, provider: Bytes, b: Bytes): (r: Option<Parts>) {
    if |b| < 4 then None
    else
      match ReadFields(b[4..], FromBE(b[..4]))
      case None => None
      case Some(texts) => Some(Parts(identity, provider, texts))
  }

  function ReadBody(b: Bytes): (r: Option<Parts>) {
    match ReadField(b)
    case None => None
    case Some((identity, b1)) =>
      match ReadField(b1)
      case None => None
      case Some((provider, b2)) => ReadTexts(identity, provider, b2)
  }

  function Ids(texts: seq<Bytes>): (ids: seq<JsString>)
    ensures |ids| == |texts| && forall i :: 0 <= i < |texts| ==> ids[i] == DecodeText(texts[i])
  {
    seq(|texts|, i requires 0 <= i < |texts| => DecodeText(texts[i]))
  }

  function Decoded(b: Bytes): (r: Result) {
    if b == [] then Corrupt
    else if b[0] != ENVELOPE_VERSION then Unsupported(b[0])
    else
      match ReadBody(b[1..])
      case None => Corrupt
      case Some(p) => Ok(Envelope(p.identity, p.provider, Ids(p.texts)))
  }

  // ---- Writing and reading, step by step ----

  function Flat(parts: seq<Bytes>): (b: Bytes) {
    if parts == [] then [] else parts[0] + Flat(parts[1..])
  }

  lemma {:induction false} FlatAppend(parts: seq<Bytes>, p: Bytes)
    ensures Flat(parts + [p]) == Flat(parts) + p
  {
    if parts == [] {
      assert parts + [p] == [p] && [p][1..] == [] && p + [] == p;
    } else {
      FlatAppend(parts[1..], p);
      assert (parts + [p])[1..] == parts[1..] + [p];
      Assoc(parts[0], Flat(parts[1..]), p);
    }
  }

  /** `concatBytes`: a first pass for the total length, a second that copies the parts. */
  method ConcatBytes(parts: seq<Bytes>) returns (out: array<byte>)
    ensures fresh(out) && out[..] == Flat(parts)
  {
    var total := 0;
    for i := 0 to |parts|
      invariant total == |Flat(parts[..i])|
    {
      FlatAppend(parts[..i], parts[i]);
      assert parts[..i + 1] == parts[..i] + [parts[i]];
      total := total + |parts[i]|;
    }
    assert parts[..|parts|] == parts;
    out := new byte[total];
    var offset := 0;
    for i := 0 to |parts|
      invariant offset == |Flat(parts[..i])| <= total && out[..offset] == Flat(parts[..i])
    {
      FlatAppend(parts[..i], parts[i]);
      assert parts[..i + 1] == parts[..i] + [parts[i]];
      FlatPrefix(parts, i + 1);
      WriteBytes(out, offset, parts[i]);
      offset := offset + |parts[i]|;
    }
    assert out[..offset] == out[..];
  }

  lemma {:induction false} FlatPrefix(parts: seq<Bytes>, i: nat)
    requires i <= |parts|
    ensures |Flat(parts[..i])| <= |Flat(parts)|
    decreases |parts| - i
  {
    if i == |parts| {
      assert parts[..i] == parts;
    } else {
      FlatPrefix(parts, i + 1);
      FlatAppend(parts[..i], parts[i]);
      assert parts[..i + 1] == parts[..i] + [parts[i]];
    }
  }

  lemma AppendId(parts: seq<Bytes>, head: Bytes, texts: seq<Bytes>, id: Bytes)
    requires Flat(parts) == head + Fields(texts)
    ensures Flat(parts + [ToBE(|id|, 4)] + [id]) == head + Fields(texts + [id])
  {
    FlatAppend(parts, ToBE(|id|, 4));
    FlatAppend(parts + [ToBE(|id|, 4)], id);
    FieldsAppend(texts, id);
    Assoc(Flat(parts), ToBE(|id|, 4), id);
    Assoc(head, Fields(texts), Field(id));
  }

  /** `encodeEnvelope`. */
  method EncodeEnvelope(e: Envelope) returns (out: array<byte>)
    ensures fresh(out) && out[..] == Encoded(e)
  {
    var head := [[ENVELOPE_VERSION], ToBE(|e.identity|, 4), e.identity, ToBE(|e.provider|, 4), e.provider,
        ToBE(|e.groupIds|, 4)];
    var parts := head;
    ghost var texts := Texts(e.groupIds);
    HeadFlat(e);
    assert texts[..0] == [] && Flat(head) + [] == Flat(head);
    for i := 0 to |e.groupIds|
      invariant Flat(parts) == Flat(head) + Fields(texts[..i])
    {
      var idBytes := Utf8(e.groupIds[i]);
      AppendId(parts, Flat(head), texts[..i], idBytes);
      assert texts[..i + 1] == texts[..i] + [idBytes];
      parts := parts + [ToBE(|idBytes|, 4)] + [idBytes];
    }
    assert texts[..|e.groupIds|] == texts;
    out := ConcatBytes(parts);
  }

  lemma FlatSix(v: Bytes, a: Bytes, i: Bytes, b: Bytes, p: Bytes, c: Bytes)
    ensures Flat([v, a, i, b, p, c]) == v + (a + (i + (b + (p + c))))
  {
    assert [c][1..] == [] && [p, c][1..] == [c] && [b, p, c][1..] == [p, c] && [i, b, p, c][1..] == [b, p, c];
    assert [a, i, b, p, c][1..] == [i, b, p, c] && [v, a, i, b, p, c][1..] == [a, i, b, p, c];
    assert Flat([c]) == c && Flat([p, c]) == p + c && Flat([b, p, c]) == b + (p + c);
    assert Flat([i, b, p, c]) == i + (b + (p + c));
  }

  lemma Regroup(v: Bytes, a: Bytes, i: Bytes, b: Bytes, p: Bytes, c: Bytes, f: Bytes)
    ensures (v + (a + (i + (b + (p + c))))) + f == v + ((a + i) + ((b + p) + (c + f)))
  {
  }

  lemma HeadFlat(e: Envelope)
    ensures Flat([[ENVELOPE_VERSION], ToBE(|e.identity|, 4), e.identity, ToBE(|e.provider|, 4), e.provider,
            ToBE(|e.groupIds|, 4)])
            + Fields(Texts(e.groupIds)) == Encoded(e)
  {
    var a, b, c := ToBE(|e.identity|, 4), ToBE(|e.provider|, 4), ToBE(|e.groupIds|, 4);
    FlatSix([ENVELOPE_VERSION], a, e.identity, b, e.provider, c);
    Regroup([ENVELOPE_VERSION], a, e.identity, b, e.provider, c, Fields(Texts(e.groupIds)));
  }

  lemma {:induction false} FieldsAppend(xs: seq<Bytes>, x: Bytes)
    ensures Fields(xs + [x]) == Fields(xs) + Field(x)
  {
    if xs == [] {
      assert xs + [x] == [x] && [x][1..] == [];
    } else {
      FieldsAppend(xs[1..], x);
      assert (xs + [x])[1..] == xs[1..] + [x];
      Assoc(Field(xs[0]), Fields(xs[1..]), Field(x));
    }
  }

  /** `readBytes` at a position: the field and the position behind it. */
  method ReadBytes(bytes: Bytes, start: nat) returns (r: Option<(Bytes, nat)>)
    requires start <= |bytes|
    ensures r.Some? <==> ReadField(bytes[start..]).Some?
    ensures r.Some? ==>
              start <= r.value.1 <= |bytes| && ReadField(bytes[start..]) == Some((r.value.0, bytes[r.value.1..]))
  {
    var pos := start;
    if pos + 4 > |bytes| { return None; }
    var n := FromBE(bytes[pos..pos + 4]);
    assert bytes[start..][..4] == bytes[pos..pos + 4];
    pos := pos + 4;
    if pos + n > |bytes| { return None; }
    assert bytes[start..][4..4 + n] == bytes[pos..pos + n];
    DropDrop(bytes, start, 4 + n);
    r := Some((bytes[pos..pos + n], pos + n));
  }

  /** `decodeEnvelope`. */
  method DecodeEnvelope(bytes: Bytes) returns (r: Result)
    ensures r == Decoded(bytes)
  {
    if 1 > |bytes| { return Corrupt; }
    if bytes[0] != ENVELOPE_VERSION { return Unsupported(bytes[0]); }
    var identity := ReadBytes(bytes, 1);
    if identity == None { return Corrupt; }
    var provider := ReadBytes(bytes, identity.value.1);
    if provider == None { return Corrupt; }
    var pos := provider.value.1;
    if pos + 4 > |bytes| { return Corrupt; }
    assert bytes[pos..][..4] == bytes[pos..pos + 4];
    DropDrop(bytes, pos, 4);
    var count := FromBE(bytes[pos..pos + 4]);
    var texts := ReadAllBytes(bytes, pos + 4, count);
    if texts == None { return Corrupt; }
    r := Ok(Envelope(identity.value.0, provider.value.0, Ids(texts.value)));
  }

  method ReadAllBytes(bytes: Bytes, start: nat, count: nat) returns (r: Option<seq<Bytes>>)
    requires start <= |bytes|
    ensures r == ReadFields(bytes[start..], count)
  {
    var pos, texts := start, [];
    ghost var want := ReadFields(bytes[start..], count);
    for i := 0 to count
      invariant start <= pos <= |bytes|
      invariant want == Prepend(texts, ReadFields(bytes[pos..], count - i))
    {
      var x := ReadBytes(bytes, pos);
      if x == None { return None; }
      PrependStep(texts, bytes[pos..], count - i, x.value.0);
      texts := texts + [x.value.0];
      pos := x.value.1;
    }
    assert texts + [] == texts;
    r := Some(texts);
  }

  function Prepend(xs: seq<Bytes>, r: Option<seq<Bytes>>): (r': Option<seq<Bytes>>)
    ensures xs == [] ==> r' == r
  {
    match r case None => None case Some(ys) => assert [] + ys == ys; Some(xs + ys)
  }

  lemma PrependStep(xs: seq<Bytes>, b: Bytes, count: nat, x: Bytes)
    requires count > 0 && ReadField(b).Some? && ReadField(b).value.0 == x
    ensures Prepend(xs, ReadFields(b, count)) == Prepend(xs + [x], ReadFields(ReadField(b).value.1, count - 1))
  {
    var r := ReadFields(ReadField(b).value.1, count - 1);
    if r.Some? {
      Assoc(xs, [x], r.value);
    }
  }

  // ---- Round trip ----

  const U32_RANGE: nat := 0x1_0000_0000

  lemma Width4()
    ensures Pow256(4) == U32_RANGE
  {
  }

  /** A field reads back, whatever follows, exactly when its length fits 32 bits. */
  lemma FieldIff(x: Bytes, rest: Bytes)
    ensures ReadField(Field(x) + rest) == Some((x, rest)) <==> |x| < U32_RANGE
    ensures ReadField(Field(x) + rest).Some? && ReadField(Field(x) + rest).value.0 == x ==> |x| < U32_RANGE
  {
    var b := Field(x) + rest;
    assert b[..4] == ToBE(|x|, 4);
    Width4();
    RoundTripBE(|x|, 4);
    if |x| < U32_RANGE {
      assert b[4..4 + |x|] == x && b[4 + |x|..] == rest;
    }
  }

  lemma FirstField(b: Bytes, x: Bytes, tail: Bytes, xs: seq<Bytes>)
    requires xs != [] && x == xs[0]
    requires ReadField(b) == Some((x, tail)) <==> |x| < U32_RANGE
    requires ReadField(b).Some? && ReadField(b).value.0 == x ==> |x| < U32_RANGE
    ensures ReadFields(b, |xs|) == Some(xs) <==> |x| < U32_RANGE && ReadFields(tail, |xs| - 1) == Some(xs[1..])
  {
    assert xs == [x] + xs[1..];
    if |x| < U32_RANGE && ReadFields(tail, |xs| - 1).Some? {
      var ys := ReadFields(tail, |xs| - 1).value;
      assert ([x] + ys)[1..] == ys;
    }
  }

  lemma {:induction false} FieldsIff(xs: seq<Bytes>, rest: Bytes)
    ensures ReadFields(Fields(xs) + rest, |xs|) == Some(xs) <==> forall i :: 0 <= i < |xs| ==> |xs[i]| < U32_RANGE
  {
    if xs == [] {
    } else {
      var tail := Fields(xs[1..]) + rest;
      Assoc(Field(xs[0]), Fields(xs[1..]), rest);
      FieldIff(xs[0], tail);
      FieldsIff(xs[1..], rest);
      FirstField(Fields(xs) + rest, xs[0], tail, xs);
    }
  }

  ghost predicate SizesFit(p: Parts) {
    && |p.identity| < U32_RANGE && |p.provider| < U32_RANGE && |p.texts| < U32_RANGE
    && forall i :: 0 <= i < |p.texts| ==> |p.texts[i]| < U32_RANGE
  }

  lemma TextsIff(p: Parts, rest: Bytes)
    ensures ReadTexts(p.identity, p.provider, ToBE(|p.texts|, 4) + Fields(p.texts) + rest) == Some(p)
       <==> |p.texts| < U32_RANGE && forall i :: 0 <= i < |p.texts| ==> |p.texts[i]| < U32_RANGE
  {
    var b := ToBE(|p.texts|, 4) + Fields(p.texts) + rest;
    assert b[..4] == ToBE(|p.texts|, 4) && b[4..] == Fields(p.texts) + rest;
    Width4();
    RoundTripBE(|p.texts|, 4);
    FieldsIff(p.texts, rest);
  }

  lemma BodyIff(p: Parts, rest: Bytes)
    ensures ReadBody(Body(p.identity, p.provider, p.texts) + rest) == Some(p) <==> SizesFit(p)
  {
    var t := ToBE(|p.texts|, 4) + Fields(p.texts) + rest;
    var q := Field(p.provider) + t;
    assert Body(p.identity, p.provider, p.texts) + rest == Field(p.identity) + q;
    FieldIff(p.identity, q);
    FieldIff(p.provider, t);
    TextsIff(p, rest);
  }

  ghost predicate Survives(id: JsString) {
    WellFormed(id) && !(id != [] && id[0] == BOM)
  }

  ghost predicate Storable(e: Envelope) {
    && SizesFit(Parts(e.identity, e.provider, Texts(e.groupIds)))
    && forall i :: 0 <= i < |e.groupIds| ==> Survives(e.groupIds[i])
  }

  lemma DecodeVersioned(b: Bytes, body: Bytes, p: Parts)
    requires b == [ENVELOPE_VERSION] + body && ReadBody(body) == Some(p)
    ensures Decoded(b) == Ok(Envelope(p.identity, p.provider, Ids(p.texts)))
  {
    assert b[1..] == body;
  }

  /** An envelope whose sizes fit reads back, up to what decoding does to its group ids. */
  lemma DecodeSized(e: Envelope, tail: Bytes)
    requires SizesFit(Parts(e.identity, e.provider, Texts(e.groupIds)))
    ensures Decoded(Encoded(e) + tail) == Ok(e.(groupIds := Ids(Texts(e.groupIds))))
  {
    var p := Parts(e.identity, e.provider, Texts(e.groupIds));
    var body := Body(p.identity, p.provider, p.texts);
    BodyIff(p, tail);
    Assoc([ENVELOPE_VERSION], body, tail);
    DecodeVersioned(Encoded(e) + tail, body + tail, p);
  }

  lemma IdsIff(ids: seq<JsString>)
    ensures Ids(Texts(ids)) == ids <==> forall i :: 0 <= i < |ids| ==> Survives(ids[i])
  {
    forall i | 0 <= i < |ids|
      ensures Ids(Texts(ids))[i] == ids[i] <==> Survives(ids[i])
    {
      SurvivesIff(ids[i]);
    }
  }

  /**
    Given sizes that fit, the envelope reads back exactly, trailing bytes or not, if and only if
    every group id survives UTF-8.
    */
  lemma EnvelopeIff(e: Envelope, tail: Bytes)
    requires SizesFit(Parts(e.identity, e.provider, Texts(e.groupIds)))
    ensures Decoded(Encoded(e) + tail) == Ok(e) <==> Storable(e)
  {
    DecodeSized(e, tail);
    IdsIff(e.groupIds);
  }

  // ---- Truncation ----

  lemma CutField(x: Bytes, b: Bytes)
    requires |x| < U32_RANGE && b < Field(x)
    ensures ReadField(b) == None
  {
    Width4();
    RoundTripBE(|x|, 4);
    if |b| >= 4 {
      assert b[..4] == Field(x)[..4] == ToBE(|x|, 4);
    }
  }

  /** A strict prefix of `a + c` is a strict prefix of `a`, or `a` and a strict prefix of `c`. */
  lemma CutPoint(b: Bytes, a: Bytes, c: Bytes)
    requires b < a + c
    ensures if |b| < |a| then b < a else b == a + b[|a|..] && b[|a|..] < c
  {
    assert (a + c)[..|a|] == a && (a + c)[|a|..] == c;
    if |b| < |a| {
      assert b == (a + c)[..|b|] == a[..|b|];
    } else {
      assert b[..|a|] == a && b[|a|..] == (a + c)[|a|..|b|] == c[..|b| - |a|];
    }
  }

  lemma {:induction false} CutFields(xs: seq<Bytes>, b: Bytes)
    requires (forall i :: 0 <= i < |xs| ==> |xs[i]| < U32_RANGE) && b < Fields(xs)
    ensures ReadFields(b, |xs|) == None
  {
    CutPoint(b, Field(xs[0]), Fields(xs[1..]));
    if |b| < |Field(xs[0])| {
      CutField(xs[0], b);
    } else {
      var rest := b[|Field(xs[0])|..];
      FieldIff(xs[0], rest);
      CutFields(xs[1..], rest);
    }
  }

  lemma CutTexts(p: Parts, b: Bytes)
    requires SizesFit(p) && b < ToBE(|p.texts|, 4) + Fields(p.texts)
    ensures ReadTexts(p.identity, p.provider, b) == None
  {
    CutPoint(b, ToBE(|p.texts|, 4), Fields(p.texts));
    if |b| >= 4 {
      Width4();
      RoundTripBE(|p.texts|, 4);
      assert b[..4] == ToBE(|p.texts|, 4);
      CutFields(p.texts, b[4..]);
    }
  }

  lemma CutBody(p: Parts, b: Bytes)
    requires SizesFit(p) && b < Body(p.identity, p.provider, p.texts)
    ensures ReadBody(b) == None
  {
    var t := ToBE(|p.texts|, 4) + Fields(p.texts);
    CutPoint(b, Field(p.identity), Field(p.provider) + t);
    if |b| < |Field(p.identity)| {
      CutField(p.identity, b);
    } else {
      var b1 := b[|Field(p.identity)|..];
      FieldIff(p.identity, b1);
      CutPoint(b1, Field(p.provider), t);
      if |b1| < |Field(p.provider)| {
        CutField(p.provider, b1);
      } else {
        FieldIff(p.provider, b1[|Field(p.provider)|..]);
        CutTexts(p, b1[|Field(p.provider)|..]);
      }
    }
  }

  /** Every strict prefix of an envelope is refused as corrupt. */
  lemma PrefixRefused(e: Envelope, b: Bytes)
    requires SizesFit(Parts(e.identity, e.provider, Texts(e.groupIds)))
    requires b < Encoded(e)
    ensures Decoded(b) == Corrupt
  {
    var p := Parts(e.identity, e.provider, Texts(e.groupIds));
    CutPoint(b, [ENVELOPE_VERSION], Body(p.identity, p.provider, p.texts));
    if b != [] {
      CutBody(p, b[1..]);
    }
  }
}

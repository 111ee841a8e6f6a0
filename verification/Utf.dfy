/**
  JavaScript strings as UTF-8 and back: `TextEncoder`, `TextDecoder` as the bytes helpers construct
  it, and the string hand-over to WebAssembly that writes an ASCII prefix itself and leaves the
  rest to `encodeInto`.
  */
module Utf {
  import opened Bytes

  /** UTF-16 code units, lone surrogates allowed. */
  type JsString = seq<u16>

  type Scalar = n: int | 0 <= n < 0xD800 || 0xE000 <= n < 0x11_0000

  const REPLACEMENT: Scalar := 0xFFFD
  const BOM: Scalar := 0xFEFF

  predicate High(u: u16) { 0xD800 <= u < 0xDC00 }

  predicate Low(u: u16) { 0xDC00 <= u < 0xE000 }

  predicate StartsPair(s: JsString) { |s| >= 2 && High(s[0]) && Low(s[1]) }

  /** How many code units the next code point takes. */
  function Units(s: JsString): (n: nat)
    requires s != []
    ensures 1 <= n <= 2 && n <= |s|
  {
    if StartsPair(s) then 2 else 1
  }

  /** The next code point; a lone surrogate becomes the replacement character. */
  function Point(s: JsString): (c: Scalar)
    requires s != []
  {
    if StartsPair(s) then 0x1_0000 + (s[0] - 0xD800) * 0x400 + (s[1] - 0xDC00)
    else if High(s[0]) || Low(s[0]) then REPLACEMENT
    else s[0]
  }

  function Scalars(s: JsString): (cs: seq<Scalar>) {
    if s == [] then [] else [Point(s)] + Scalars(s[Units(s)..])
  }

  /** Section 3 of RFC 3629. */
  function EncodeScalar(c: Scalar): (b: Bytes)
    ensures 1 <= |b| <= 4
    ensures |b| == 4 <==> c >= 0x1_0000
  {
    if c < 0x80 then [c]
    else if c < 0x800 then [0xC0 + c / 64, 0x80 + c % 64]
    else if c < 0x1_0000 then [0xE0 + c / 4096, 0x80 + c / 64 % 64, 0x80 + c % 64]
    else [0xF0 + c / 262144, 0x80 + c / 4096 % 64, 0x80 + c / 64 % 64, 0x80 + c % 64]
  }

  /** `TextEncoder.encode`. */
  function Utf8(s: JsString): (b: Bytes) {
    if s == [] then [] else EncodeScalar(Point(s)) + Utf8(s[Units(s)..])
  }

  // ---- Size and splitting ----

  /** Three bytes per code unit are always enough. */
  lemma {:induction false} Utf8Bound(s: JsString)
    ensures |Utf8(s)| <= 3 * |s|
  {
    if s == [] {
    } else {
      Utf8Bound(s[Units(s)..]);
    }
  }

  /** The cut between `a` and `b` goes through a surrogate pair. */
  predicate CutsPair(a: JsString, b: JsString) {
    a != [] && b != [] && High(a[|a| - 1]) && Low(b[0])
  }

  /** A pair takes four bytes; its halves apart would take three each. */
  lemma CutCosts(a: JsString, b: JsString)
    requires |a| == 1 && CutsPair(a, b)
    ensures |Utf8(a + b)| == |Utf8(a)| + |Utf8(b)| - 2
  {
    assert Point(a) == Point(b) == REPLACEMENT && Point(a + b) >= 0x1_0000;
    assert |EncodeScalar(REPLACEMENT)| == 3;
    assert (a + b)[2..] == b[1..] && a[1..] == [];
    assert Utf8(a) == EncodeScalar(Point(a)) + Utf8(a[1..]);
  }

  lemma {:induction false} Utf8Length(a: JsString, b: JsString)
    ensures !CutsPair(a, b) ==> Utf8(a + b) == Utf8(a) + Utf8(b)
    ensures CutsPair(a, b) ==> |Utf8(a + b)| == |Utf8(a)| + |Utf8(b)| - 2
  {
    if a == [] {
      assert a + b == b;
    } else if |a| == 1 && CutsPair(a, b) {
      CutCosts(a, b);
    } else {
      var n, head := Units(a), EncodeScalar(Point(a));
      assert (a + b)[n..] == a[n..] + b;
      Utf8Length(a[n..], b);
      FirstPoint(a, b);
      assert head + (Utf8(a[n..]) + Utf8(b)) == (head + Utf8(a[n..])) + Utf8(b);
    }
  }

  lemma FirstPoint(a: JsString, b: JsString)
    requires a != [] && !(|a| == 1 && CutsPair(a, b))
    ensures Units(a + b) == Units(a) && Point(a + b) == Point(a)
  {
    assert (a + b)[0] == a[0];
    if |a| >= 2 {
      assert (a + b)[1] == a[1];
    }
  }

  /** Encoding piece by piece is encoding the whole exactly when the cut respects surrogate pairs. */
  lemma SplitIff(a: JsString, b: JsString)
    ensures Utf8(a + b) == Utf8(a) + Utf8(b) <==> !CutsPair(a, b)
  {
    Utf8Length(a, b);
  }

  lemma {:induction false} Utf8Ascii(s: JsString)
    requires forall i :: 0 <= i < |s| ==> s[i] < 0x80
    ensures |Utf8(s)| == |s| && forall i :: 0 <= i < |s| ==> Utf8(s)[i] == s[i]
  {
    if s == [] {
    } else {
      Utf8Ascii(s[1..]);
    }
  }

  // ---- Passing a string to WebAssembly ----

  /** `encodeInto`: the whole code points that fit, as code units read and bytes written. */
  function EncodeInto(s: JsString, room: nat): (r: (nat, Bytes))
    ensures r.0 <= |s| && |r.1| <= room
  {
    if s == [] || |EncodeScalar(Point(s))| > room then (0, [])
    else
      var (read, bytes) := EncodeInto(s[Units(s)..], room - |EncodeScalar(Point(s))|);
      (Units(s) + read, EncodeScalar(Point(s)) + bytes)
  }

  lemma {:induction false} EncodeIntoFits(s: JsString, room: nat)
    ensures EncodeInto(s, room) == (|s|, Utf8(s)) <==> |Utf8(s)| <= room
  {
    if s == [] || |EncodeScalar(Point(s))| > room {
    } else {
      EncodeIntoFits(s[Units(s)..], room - |EncodeScalar(Point(s))|);
    }
  }

  method WriteBytes(view: array<byte>, at: nat, bytes: Bytes)
    requires at + |bytes| <= view.Length
    modifies view
    ensures view[..at + |bytes|] == old(view[..at]) + bytes
  {
    for i := 0 to |bytes|
      invariant view[..at + i] == old(view[..at]) + bytes[..i]
    {
      view[at + i] := bytes[i];
      assert view[..at + i + 1] == view[..at + i] + [bytes[i]];
    }
  }

  /** `realloc`: a block of the new size with the old contents as far as they fit. */
  method Realloc(old': array<byte>, size: nat) returns (block: array<byte>)
    ensures fresh(block) && block.Length == size
    ensures forall n :: 0 <= n <= size && n <= old'.Length ==> block[..n] == old'[..n]
  {
    block := new byte[size](i requires 0 <= i reads old' => if i < old'.Length then old'[i] else 0);
  }

  /**
    `passStringToWasm0`. With or without `realloc`, the block handed over holds exactly the UTF-8
    text: the ASCII loop never cuts a surrogate pair, and `encodeInto` never runs out of the three
    bytes per remaining code unit it is given.
    */
  method PassString(arg: JsString, canRealloc: bool) returns (block: array<byte>, len: nat)
    ensures fresh(block)
    ensures len == block.Length && block[..] == Utf8(arg)
  {
    if !canRealloc {
      var buf := Utf8(arg);
      block := new byte[|buf|](i requires 0 <= i < |buf| => buf[i]);
      return block, |buf|;
    }
    block := new byte[|arg|];
    var offset := 0;
    while offset < |arg|
      invariant 0 <= offset <= |arg| == block.Length
      invariant forall i :: 0 <= i < offset ==> arg[i] < 0x80 && block[i] == arg[i]
    {
      if arg[offset] > 0x7F { break; }
      block[offset] := arg[offset];
      offset := offset + 1;
    }
    assert block[..offset] == Utf8(arg[..offset]) by {
      Utf8Ascii(arg[..offset]);
    }
    if offset != |arg| {
      block, offset := PassRest(arg, block, offset);
    } else {
      assert arg[..offset] == arg && block[..] == block[..offset];
    }
    len := offset;
  }

  /** From the first code unit that is not ASCII on. */
  method PassRest(arg: JsString, block: array<byte>, offset: nat) returns (block': array<byte>, offset': nat)
    requires offset < |arg| && offset <= block.Length && block[..offset] == Utf8(arg[..offset])
    requires forall i :: 0 <= i < offset ==> arg[i] < 0x80
    ensures fresh(block') && offset' == block'.Length && block'[..] == Utf8(arg)
  {
    var rest := arg[offset..];
    var wide := Realloc(block, offset + |rest| * 3);
    assert wide[..offset] == block[..offset];
    var ret := EncodeInto(rest, |rest| * 3);
    RestFits(arg, offset);
    WriteBytes(wide, offset, ret.1);
    offset' := offset + |ret.1|;
    block' := Realloc(wide, offset');
    assert block'[..] == block'[..offset'] == wide[..offset'];
  }

  lemma RestFits(arg: JsString, offset: nat)
    requires offset < |arg| && forall i :: 0 <= i < offset ==> arg[i] < 0x80
    ensures EncodeInto(arg[offset..], |arg[offset..]| * 3).1 == Utf8(arg[offset..])
    ensures Utf8(arg[..offset]) + Utf8(arg[offset..]) == Utf8(arg)
  {
    var rest := arg[offset..];
    Utf8Bound(rest);
    EncodeIntoFits(rest, |rest| * 3);
    assert arg == arg[..offset] + rest;
    SplitIff(arg[..offset], rest);
  }

  // ---- Decoding ----

  /** Continuation bytes of one sequence: the value so far, or the replacement, and the bytes taken. */
  function Tail(b: Bytes, needed: nat, cp: nat, lo: byte, hi: byte): (r: (Option<nat>, nat))
    ensures r.1 <= |b|
    decreases needed
  {
    if needed == 0 then (Some(cp), 0)
    else if b == [] || b[0] < lo || b[0] > hi then (None, 0)
    else
      var (v, n) := Tail(b[1..], needed - 1, cp * 64 + b[0] % 64, 0x80, 0xBF);
      (v, n + 1)
  }

  /** One step of the UTF-8 decoder of the Encoding Standard: the code point and the bytes it takes. */
  function DecodeStep(b: Bytes): (r: (Scalar, nat))
    requires b != []
    ensures 1 <= r.1 <= |b|
  {
    var lead := b[0];
    if lead < 0x80 then (lead, 1)
    else if 0xC2 <= lead <= 0xDF then Finish(Tail(b[1..], 1, lead % 32, 0x80, 0xBF))
    else if 0xE0 <= lead <= 0xEF then
      Finish(Tail(b[1..], 2, lead % 16, if lead == 0xE0 then 0xA0 else 0x80, if lead == 0xED then 0x9F else 0xBF))
    else if 0xF0 <= lead <= 0xF4 then
      Finish(Tail(b[1..], 3, lead % 8, if lead == 0xF0 then 0x90 else 0x80, if lead == 0xF4 then 0x8F else 0xBF))
    else (REPLACEMENT, 1)
  }

  function Finish(r: (Option<nat>, nat)): (s: (Scalar, nat))
    ensures s.1 == r.1 + 1
  {
    match r.0
    case Some(c) => (if c < 0xD800 || 0xE000 <= c < 0x11_0000 then c else REPLACEMENT, r.1 + 1)
    case None => (REPLACEMENT, r.1 + 1)
  }

  function DecodeScalars(b: Bytes): (cs: seq<Scalar>) {
    if b == [] then [] else [DecodeStep(b).0] + DecodeScalars(b[DecodeStep(b).1..])
  }

  function ScalarUnits(c: Scalar): (s: JsString)
    ensures 1 <= |s| <= 2
  {
    if c < 0x1_0000 then [c] else [0xD800 + (c - 0x1_0000) / 0x400, 0xDC00 + (c - 0x1_0000) % 0x400]
  }

  function FromScalars(cs: seq<Scalar>): (s: JsString) {
    if cs == [] then [] else ScalarUnits(cs[0]) + FromScalars(cs[1..])
  }

  const BOM_BYTES: Bytes := [0xEF, 0xBB, 0xBF]

  /** `new TextDecoder().decode`: drops a leading byte order mark, replaces what is malformed. */
  function DecodeText(b: Bytes): (s: JsString) {
    FromScalars(DecodeScalars(if BOM_BYTES <= b then b[3..] else b))
  }

  lemma Tail1(c: Scalar, rest: Bytes)
    requires 0x80 <= c < 0x800
    ensures DecodeStep(EncodeScalar(c) + rest) == (c, 2)
  {
    var b := EncodeScalar(c) + rest;
    assert b[1..][0] == 0x80 + c % 64;
    assert Tail(b[1..], 1, b[0] % 32, 0x80, 0xBF) == (Some((c / 64) * 64 + c % 64), 1);
  }

  lemma TailStep(b: Bytes, needed: nat, cp: nat, lo: byte, hi: byte, d: nat, r: (Option<nat>, nat))
    requires needed > 0 && d < 64 && b != [] && b[0] == 0x80 + d && lo <= b[0] <= hi
    requires Tail(b[1..], needed - 1, cp * 64 + d, 0x80, 0xBF) == r
    ensures Tail(b, needed, cp, lo, hi) == (r.0, r.1 + 1)
  {
  }

  lemma ThreeBytes(b: Bytes, hi: nat, mid: nat, lo: nat)
    requires |b| >= 3 && hi < 16 && mid < 64 && lo < 64 && b[..3] == [0xE0 + hi, 0x80 + mid, 0x80 + lo]
    requires (hi == 0 ==> mid >= 32) && (hi == 13 ==> mid < 32)
    ensures Tail(b[1..], 2, b[0] % 16, if b[0] == 0xE0 then 0xA0 else 0x80, if b[0] == 0xED then 0x9F else 0xBF)
            == (Some((hi * 64 + mid) * 64 + lo), 2)
  {
    var b1, b2, b3 := b[1..], b[2..], b[3..];
    assert b1[1..] == b2 && b2[1..] == b3;
    assert b[0] == b[..3][0] && b1[0] == b[..3][1] && b2[0] == b[..3][2];
    TailStep(b2, 1, hi * 64 + mid, 0x80, 0xBF, lo, (Some((hi * 64 + mid) * 64 + lo), 0));
    TailStep(b1, 2, hi, if b[0] == 0xE0 then 0xA0 else 0x80, if b[0] == 0xED then 0x9F
        else 0xBF, mid, (Some((hi * 64 + mid) * 64 + lo), 1));
  }

  lemma Tail2(c: Scalar, rest: Bytes)
    requires 0x800 <= c < 0x1_0000
    ensures DecodeStep(EncodeScalar(c) + rest) == (c, 3)
  {
    var b := EncodeScalar(c) + rest;
    var hi, mid, lo := c / 4096, c / 64 % 64, c % 64;
    assert c == (hi * 64 + mid) * 64 + lo;
    assert b[..3] == [0xE0 + hi, 0x80 + mid, 0x80 + lo];
    ThreeBytes(b, hi, mid, lo);
    assert b[0] == 0xE0 + hi;
  }

  lemma FourBytes(b: Bytes, top: nat, hi: nat, mid: nat, lo: nat)
    requires |b| >= 4 && top <= 4 && hi < 64 && mid < 64 && lo < 64
    requires b[..4] == [0xF0 + top, 0x80 + hi, 0x80 + mid, 0x80 + lo]
    requires (top == 0 ==> hi >= 16) && (top == 4 ==> hi < 16)
    ensures Tail(b[1..], 3, b[0] % 8, if b[0] == 0xF0 then 0x90 else 0x80, if b[0] == 0xF4 then 0x8F else 0xBF)
            == (Some(((top * 64 + hi) * 64 + mid) * 64 + lo), 3)
  {
    var c := ((top * 64 + hi) * 64 + mid) * 64 + lo;
    var b1, b2, b3, b4 := b[1..], b[2..], b[3..], b[4..];
    assert b1[1..] == b2 && b2[1..] == b3 && b3[1..] == b4;
    assert b[0] == b[..4][0] && b1[0] == b[..4][1] && b2[0] == b[..4][2] && b3[0] == b[..4][3];
    TailStep(b3, 1, (top * 64 + hi) * 64 + mid, 0x80, 0xBF, lo, (Some(c), 0));
    TailStep(b2, 2, top * 64 + hi, 0x80, 0xBF, mid, (Some(c), 1));
    TailStep(b1, 3, top, if b[0] == 0xF0 then 0x90 else 0x80, if b[0] == 0xF4 then 0x8F else 0xBF, hi, (Some(c), 2));
  }

  lemma FourParts(c: nat, top: nat, hi: nat, mid: nat, lo: nat)
    requires 0x1_0000 <= c < 0x11_0000
    requires top == c / 262144 && hi == c / 4096 % 64 && mid == c / 64 % 64 && lo == c % 64
    ensures c == ((top * 64 + hi) * 64 + mid) * 64 + lo
    ensures top <= 4 && (top == 0 ==> hi >= 16) && (top == 4 ==> hi < 16)
  {
  }

  lemma Tail3(c: Scalar, rest: Bytes)
    requires 0x1_0000 <= c
    ensures DecodeStep(EncodeScalar(c) + rest) == (c, 4)
  {
    var b := EncodeScalar(c) + rest;
    var top, hi, mid, lo := c / 262144, c / 4096 % 64, c / 64 % 64, c % 64;
    FourParts(c, top, hi, mid, lo);
    assert b[..4] == [0xF0 + top, 0x80 + hi, 0x80 + mid, 0x80 + lo];
    FourBytes(b, top, hi, mid, lo);
    assert b[0] == 0xF0 + top;
  }

  lemma DecodeStepScalar(c: Scalar, rest: Bytes)
    ensures DecodeStep(EncodeScalar(c) + rest) == (c, |EncodeScalar(c)|)
  {
    if c < 0x80 {
    } else if c < 0x800 {
      Tail1(c, rest);
    } else if c < 0x1_0000 {
      Tail2(c, rest);
    } else {
      Tail3(c, rest);
    }
  }

  lemma {:induction false} DecodeUtf8(s: JsString)
    ensures DecodeScalars(Utf8(s)) == Scalars(s)
  {
    if s == [] {
    } else {
      var rest := Utf8(s[Units(s)..]);
      DecodeStepScalar(Point(s), rest);
      assert Utf8(s)[|EncodeScalar(Point(s))|..] == rest;
      DecodeUtf8(s[Units(s)..]);
    }
  }

  /** `isWellFormed`: every surrogate belongs to a pair. */
  predicate WellFormed(s: JsString) {
    s == [] ||
    (&& (StartsPair(s) || !(High(s[0]) || Low(s[0])))
     && WellFormed(s[Units(s)..]))
  }

  lemma {:induction false} FromScalarsIff(s: JsString)
    ensures |FromScalars(Scalars(s))| == |s|
    ensures FromScalars(Scalars(s)) == s <==> WellFormed(s)
  {
    if s == [] {
    } else {
      var n, rest := Units(s), s[Units(s)..];
      FromScalarsIff(rest);
      assert Scalars(s)[1..] == Scalars(rest);
      assert s == s[..n] + rest;
      assert |ScalarUnits(Point(s))| == n;
      if FromScalars(Scalars(s)) == s {
        SplitEqual(ScalarUnits(Point(s)), FromScalars(Scalars(rest)), s[..n], rest);
      }
      if StartsPair(s) {
        assert ScalarUnits(Point(s)) == [s[0], s[1]] == s[..n];
      } else {
        assert s[..n] == [s[0]];
      }
    }
  }

  lemma PointIsBom(s: JsString)
    requires s != []
    ensures Point(s) == BOM <==> s[0] == BOM
  {
  }

  lemma PointBytes(s: JsString)
    requires s != []
    ensures EncodeScalar(Point(s)) <= Utf8(s)
  {
  }

  lemma BomBytes()
    ensures EncodeScalar(BOM) == BOM_BYTES
  {
  }

  /** The first bytes give the first code point away. */
  lemma PointPrefix(s: JsString, c: Scalar)
    requires s != []
    ensures EncodeScalar(c) <= Utf8(s) <==> Point(s) == c
  {
    PointBytes(s);
    var b, n := Utf8(s), |EncodeScalar(c)|;
    if EncodeScalar(c) <= b {
      assert b == EncodeScalar(c) + b[n..];
      DecodeStepScalar(c, b[n..]);
      DecodeStepScalar(Point(s), Utf8(s[Units(s)..]));
    }
  }

  lemma BomFirst(s: JsString)
    ensures BOM_BYTES <= Utf8(s) <==> s != [] && s[0] == BOM
  {
    if s != [] {
      BomBytes();
      PointIsBom(s);
      PointPrefix(s, BOM);
    }
  }

  /**
    A string survives encoding and decoding if and only if its surrogates are paired and it does
    not start with a byte order mark.
    */
  lemma SurvivesIff(s: JsString)
    ensures DecodeText(Utf8(s)) == s <==> WellFormed(s) && !(s != [] && s[0] == BOM)
  {
    BomFirst(s);
    FromScalarsIff(s);
    DecodeUtf8(s);
    if s != [] && s[0] == BOM {
      assert Utf8(s)[3..] == Utf8(s[1..]);
      DecodeUtf8(s[1..]);
      FromScalarsIff(s[1..]);
      assert |DecodeText(Utf8(s))| == |s| - 1;
    }
  }

  /** What fails: a lone surrogate comes back as the replacement character, whichever it was. */
  lemma LoneSurrogate(u: u16)
    requires High(u) || Low(u)
    ensures DecodeText(Utf8([u])) == [REPLACEMENT]
  {
    var s: JsString := [u];
    BomFirst(s);
    DecodeUtf8(s);
    assert s[1..] == [];
    assert Scalars(s) == [REPLACEMENT] + Scalars(s[1..]) == [REPLACEMENT];
    assert FromScalars([REPLACEMENT]) == ScalarUnits(REPLACEMENT) + FromScalars([REPLACEMENT][1..]);
  }

  /** What fails: a byte order mark at the front is lost. */
  lemma LeadingMark(s: JsString)
    requires WellFormed(s)
    ensures DecodeText(Utf8([BOM] + s)) == s
  {
    var t: JsString := [BOM] + s;
    BomFirst(t);
    BomBytes();
    assert t[1..] == s;
    assert Utf8(t) == BOM_BYTES + Utf8(s);
    assert Utf8(t)[3..] == Utf8(s);
    DecodeUtf8(s);
    FromScalarsIff(s);
  }
}

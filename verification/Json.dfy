/**
  The compact JSON text `serde_json::to_vec` writes for storage keys and values, and the reader
  that `serde_json::from_slice` is on such text. The reader consumes a prefix of its input and
  returns what is left, so its round trip with the writer says both that the writer is injective
  and which values are self-delimiting: all of them but bare numbers.
  */
module Json {
  import opened Bytes

  datatype Json =
    | Null
    | Bool(b: bool)
    | Num(n: nat)
    | Str(s: Bytes)
    | Arr(items: seq<Json>)
    | Obj(fields: seq<Field>)

  datatype Field = Field(name: Bytes, value: Json)

  const QUOTE: byte := 34
  const COMMA: byte := 44
  const ZERO: byte := 48
  const COLON: byte := 58
  const OPEN_ARR: byte := 91
  const BACKSLASH: byte := 92
  const CLOSE_ARR: byte := 93
  const LOWER_U: byte := 117
  const OPEN_OBJ: byte := 123
  const CLOSE_OBJ: byte := 125
  const NULL_TEXT: Bytes := [110, 117, 108, 108]
  const TRUE_TEXT: Bytes := [116, 114, 117, 101]
  const FALSE_TEXT: Bytes := [102, 97, 108, 115, 101]

  predicate IsDigit(b: byte) { ZERO <= b < ZERO + 10 }

  // ---- Writer ----

  function Decimal(n: nat): (d: Bytes)
    ensures d != []
  {
    if n < 10 then [ZERO + n] else Decimal(n / 10) + [ZERO + n % 10]
  }

  function HexDigit(n: nat): (b: byte)
    requires n < 16
  {
    if n < 10 then ZERO + n else 87 + n
  }

  /** The letter of a two-character escape, 0 where the byte has none. */
  function ShortEscape(b: byte): (e: byte) {
    if b == 8 then 98
    else if b == 9 then 116
    else if b == 10 then 110
    else if b == 12 then 102
    else if b == 13 then 114
    else if b == QUOTE then QUOTE
    else if b == BACKSLASH then BACKSLASH
    else 0
  }

  function EscapeByte(b: byte): (e: Bytes)
    ensures e != [] && e[0] != QUOTE
  {
    if ShortEscape(b) != 0 then [BACKSLASH, ShortEscape(b)]
    else if b < 32 then [BACKSLASH, LOWER_U, ZERO, ZERO, HexDigit(b / 16), HexDigit(b % 16)]
    else [b]
  }

  /** String contents followed by the closing quote. */
  function StrTail(s: Bytes): (t: Bytes)
    ensures t != []
  {
    if s == [] then [QUOTE] else EscapeByte(s[0]) + StrTail(s[1..])
  }

  function Encode(j: Json): (t: Bytes)
    ensures t != []
    decreases j, 0
  {
    match j
    case Null => NULL_TEXT
    case Bool(b) => if b then TRUE_TEXT else FALSE_TEXT
    case Num(n) => Decimal(n)
    case Str(s) => [QUOTE] + StrTail(s)
    case Arr(items) => [OPEN_ARR] + ItemsTail(items, true)
    case Obj(fields) => [OPEN_OBJ] + FieldsTail(fields, true)
  }

  /** Array items and the closing bracket; a comma before every item but the first. */
  function ItemsTail(items: seq<Json>, first: bool): (t: Bytes)
    ensures t != []
    decreases items, 0
  {
    if items == [] then [CLOSE_ARR]
    else (if first then [] else [COMMA]) + (Encode(items[0]) + ItemsTail(items[1..], false))
  }

  function FieldsTail(fields: seq<Field>, first: bool): (t: Bytes)
    ensures t != []
    decreases fields, 0
  {
    if fields == [] then [CLOSE_OBJ]
    else
      (if first then [QUOTE] else [COMMA, QUOTE]) +
      (StrTail(fields[0].name) + ([COLON] + (Encode(fields[0].value) + FieldsTail(fields[1..], false))))
  }

  // ---- Reader ----

  function DigitPrefix(t: Bytes): (d: nat)
    ensures d <= |t|
    ensures forall i :: 0 <= i < d ==> IsDigit(t[i])
    ensures d < |t| ==> !IsDigit(t[d])
  {
    if t == [] || !IsDigit(t[0]) then 0 else 1 + DigitPrefix(t[1..])
  }

  function DecimalValue(d: Bytes): (n: nat)
    requires forall i :: 0 <= i < |d| ==> IsDigit(d[i])
  {
    if d == [] then 0 else
      assert IsDigit(d[|d| - 1]);
      10 * DecimalValue(d[..|d| - 1]) + (d[|d| - 1] - ZERO)
  }

  function HexValue(b: byte): (n: Option<nat>)
    ensures n.Some? ==> n.value < 16
  {
    if IsDigit(b) then Some(b - ZERO)
    else if 97 <= b <= 102 then Some(b - 87)
    else None
  }

  function ShortUnescape(e: byte): (b: Option<byte>) {
    if e == 98 then Some(8)
    else if e == 116 then Some(9)
    else if e == 110 then Some(10)
    else if e == 102 then Some(12)
    else if e == 114 then Some(13)
    else if e == QUOTE || e == BACKSLASH then Some(e)
    else None
  }

  /** One possibly escaped string byte. */
  function ReadByte(t: Bytes): (r: Option<(byte, Bytes)>)
    ensures r.Some? ==> |r.value.1| < |t|
  {
    if t == [] || t[0] == QUOTE then None
    else if t[0] != BACKSLASH then Some((t[0], t[1..]))
    else if |t| < 2 then None
    else if t[1] != LOWER_U then
      if ShortUnescape(t[1]).Some? then Some((ShortUnescape(t[1]).value, t[2..])) else None
    else if |t| >= 6 && t[2] == ZERO && t[3] == ZERO && HexValue(t[4]).Some? && HexValue(t[5]).Some? then
      Some((16 * HexValue(t[4]).value + HexValue(t[5]).value, t[6..]))
    else None
  }

  function ReadStrTail(t: Bytes): (r: Option<(Bytes, Bytes)>)
    ensures r.Some? ==> |r.value.1| < |t|
    decreases |t|
  {
    if t == [] then None
    else if t[0] == QUOTE then Some(([], t[1..]))
    else
      match ReadByte(t)
      case None => None
      case Some((b, rest)) =>
        match ReadStrTail(rest)
        case None => None
        case Some((s, rest')) => Some(([b] + s, rest'))
  }

  function Read(t: Bytes): (r: Option<(Json, Bytes)>)
    ensures r.Some? ==> |r.value.1| < |t|
    decreases |t|, 0
  {
    if t == [] then None
    else if IsDigit(t[0]) then
      var d := DigitPrefix(t);
      if t[0] == ZERO && d > 1 then None else Some((Num(DecimalValue(t[..d])), t[d..]))
    else if t[0] == QUOTE then
      match ReadStrTail(t[1..])
      case None => None
      case Some((s, rest)) => Some((Str(s), rest))
    else if t[0] == OPEN_ARR then
      match ReadItems(t[1..], true)
      case None => None
      case Some((items, rest)) => Some((Arr(items), rest))
    else if t[0] == OPEN_OBJ then
      match ReadFields(t[1..], true)
      case None => None
      case Some((fields, rest)) => Some((Obj(fields), rest))
    else if NULL_TEXT <= t then Some((Null, t[4..]))
    else if TRUE_TEXT <= t then Some((Bool(true), t[4..]))
    else if FALSE_TEXT <= t then Some((Bool(false), t[5..]))
    else None
  }

  function ReadItems(t: Bytes, first: bool): (r: Option<(seq<Json>, Bytes)>)
    ensures r.Some? ==> |r.value.1| < |t|
    decreases |t|, 1
  {
    if t == [] then None
    else if t[0] == CLOSE_ARR then Some(([], t[1..]))
    else if !first && t[0] != COMMA then None
    else
      match Read(if first then t else t[1..])
      case None => None
      case Some((j, rest)) =>
        match ReadItems(rest, false)
        case None => None
        case Some((items, rest')) => Some(([j] + items, rest'))
  }

  function ReadFields(t: Bytes, first: bool): (r: Option<(seq<Field>, Bytes)>)
    ensures r.Some? ==> |r.value.1| < |t|
    decreases |t|, 1
  {
    if t == [] then None
    else if t[0] == CLOSE_OBJ then Some(([], t[1..]))
    else
      var t' := if first then t else t[1..];
      if (!first && t[0] != COMMA) || t' == [] || t'[0] != QUOTE then None
      else
        match ReadStrTail(t'[1..])
        case None => None
        case Some((name, rest)) =>
          if rest == [] || rest[0] != COLON then None
          else
            match Read(rest[1..])
            case None => None
            case Some((j, rest')) =>
              match ReadFields(rest', false)
              case None => None
              case Some((fields, rest'')) => Some(([Field(name, j)] + fields, rest''))
  }

  /** `serde_json::from_slice`: one value and nothing after it. */
  function Decode(t: Bytes): (r: Option<Json>) {
    match Read(t)
    case Some((j, rest)) => if rest == [] then Some(j) else None
    case None => None
  }

  // ---- Round trip ----

  /** What may follow a value for the reader to stop at its end. */
  ghost predicate Delimited(j: Json, rest: Bytes) {
    j.Num? ==> rest == [] || !IsDigit(rest[0])
  }

  lemma {:induction false} DecimalDigits(n: nat)
    ensures forall i :: 0 <= i < |Decimal(n)| ==> IsDigit(Decimal(n)[i])
    ensures DecimalValue(Decimal(n)) == n
  {
    if n < 10 {
    } else {
      DecimalDigits(n / 10);
      assert Decimal(n)[..|Decimal(n)| - 1] == Decimal(n / 10);
    }
  }

  lemma {:induction false} DigitPrefixAppend(d: Bytes, rest: Bytes)
    requires forall i :: 0 <= i < |d| ==> IsDigit(d[i])
    requires rest == [] || !IsDigit(rest[0])
    ensures DigitPrefix(d + rest) == |d|
  {
    if d == [] {
      assert d + rest == rest;
    } else {
      DigitPrefixAppend(d[1..], rest);
      assert (d + rest)[1..] == d[1..] + rest;
    }
  }

  lemma ReadEscape(b: byte, rest: Bytes)
    ensures ReadByte(EscapeByte(b) + rest) == Some((b, rest))
  {
    var t := EscapeByte(b) + rest;
    if ShortEscape(b) != 0 {
      assert t[2..] == rest;
    } else if b < 32 {
      assert t[6..] == rest;
      assert 16 * (b / 16) + b % 16 == b;
    } else {
      assert t[1..] == rest;
    }
  }

  lemma {:induction false} ReadStr(s: Bytes, rest: Bytes)
    ensures ReadStrTail(StrTail(s) + rest) == Some((s, rest))
  {
    if s == [] {
      assert (StrTail(s) + rest)[1..] == rest;
    } else {
      ReadStr(s[1..], rest);
      assert StrTail(s) + rest == EscapeByte(s[0]) + (StrTail(s[1..]) + rest);
      ReadEscape(s[0], StrTail(s[1..]) + rest);
      assert s == [s[0]] + s[1..];
    }
  }

  /** The first byte tells the kinds of value apart, and no value starts like a delimiter. */
  lemma FirstByte(j: Json)
    ensures j.Num? <==> IsDigit(Encode(j)[0])
    ensures Encode(j)[0] !in {CLOSE_ARR, CLOSE_OBJ, COMMA, COLON}
    ensures forall rest: Bytes | rest != [] && rest[0] in {CLOSE_ARR, CLOSE_OBJ, COMMA} :: Delimited(j, rest)
  {
    if j.Num? {
      DecimalDigits(j.n);
    }
  }

  lemma ReadLiteral(j: Json, rest: Bytes)
    requires j.Null? || j.Bool?
    ensures Read(Encode(j) + rest) == Some((j, rest))
  {
    var t := Encode(j) + rest;
    assert t[|Encode(j)|..] == rest;
    assert t[0] == Encode(j)[0] && Encode(j) <= t;
  }

  lemma {:induction false} FirstDigit(n: nat)
    ensures Decimal(n)[0] == ZERO <==> n == 0
  {
    if n < 10 {
    } else {
      FirstDigit(n / 10);
    }
  }

  lemma ReadNumber(n: nat, rest: Bytes)
    requires Delimited(Num(n), rest)
    ensures Read(Decimal(n) + rest) == Some((Num(n), rest))
  {
    var t := Decimal(n) + rest;
    DecimalDigits(n);
    FirstDigit(n);
    DigitPrefixAppend(Decimal(n), rest);
    assert t[..|Decimal(n)|] == Decimal(n) && t[|Decimal(n)|..] == rest;
  }

  lemma ReadString(s: Bytes, rest: Bytes)
    ensures Read([QUOTE] + StrTail(s) + rest) == Some((Str(s), rest))
  {
    ReadStr(s, rest);
    assert ([QUOTE] + StrTail(s) + rest)[1..] == StrTail(s) + rest;
  }

  lemma ReadArr(tail: Bytes, items: seq<Json>, rest: Bytes)
    requires ReadItems(tail + rest, true) == Some((items, rest))
    ensures Read([OPEN_ARR] + tail + rest) == Some((Arr(items), rest))
  {
    assert ([OPEN_ARR] + tail + rest)[1..] == tail + rest;
  }

  lemma ReadObj(tail: Bytes, fields: seq<Field>, rest: Bytes)
    requires ReadFields(tail + rest, true) == Some((fields, rest))
    ensures Read([OPEN_OBJ] + tail + rest) == Some((Obj(fields), rest))
  {
    assert ([OPEN_OBJ] + tail + rest)[1..] == tail + rest;
  }

  lemma {:induction false} ReadEncode(j: Json, rest: Bytes)
    requires Delimited(j, rest)
    ensures Read(Encode(j) + rest) == Some((j, rest))
    decreases j, 0
  {
    match j
    case Null => ReadLiteral(j, rest);
    case Bool(b) => ReadLiteral(j, rest);
    case Num(n) => ReadNumber(n, rest);
    case Str(s) => ReadString(s, rest);
    case Arr(items) =>
      ReadEncodedItems(items, true, rest);
      ReadArr(ItemsTail(items, true), items, rest);
    case Obj(fields) =>
      ReadEncodedFields(fields, true, rest);
      ReadObj(FieldsTail(fields, true), fields, rest);
  }

  lemma {:induction false} ReadEncodedItems(items: seq<Json>, first: bool, rest: Bytes)
    ensures ReadItems(ItemsTail(items, first) + rest, first) == Some((items, rest))
    decreases items, 0
  {
    var t := ItemsTail(items, first) + rest;
    if items == [] {
      assert t[1..] == rest;
    } else {
      var j, more := items[0], items[1..];
      var tail := ItemsTail(more, false) + rest;
      FirstByte(j);
      ItemText(items, first, rest);
      ReadEncode(j, tail);
      ReadEncodedItems(more, false, rest);
      ReadItem(t, first, Encode(j) + tail, j, tail, more, rest);
      assert items == [j] + more;
    }
  }

  lemma ItemText(items: seq<Json>, first: bool, rest: Bytes)
    requires items != []
    ensures var t := ItemsTail(items, first) + rest;
            && (!first ==> t[0] == COMMA)
            && (if first then t else t[1..]) == Encode(items[0]) + (ItemsTail(items[1..], false) + rest)
  {
    var item, more := Encode(items[0]), ItemsTail(items[1..], false);
    Assoc(item, more, rest);
    if !first {
      assert ([COMMA] + (item + more) + rest)[1..] == (item + more) + rest;
    }
  }

  /** One item off the front. */
  lemma ReadItem(t: Bytes, first: bool, t': Bytes, j: Json, tail: Bytes, items: seq<Json>, rest: Bytes)
    requires t != [] && t[0] != CLOSE_ARR && (!first ==> t[0] == COMMA) && t' == (if first then t else t[1..])
    requires Read(t') == Some((j, tail)) && ReadItems(tail, false) == Some((items, rest))
    ensures ReadItems(t, first) == Some(([j] + items, rest))
  {
  }

  /** One field off the front: name, colon, value. */
  lemma ReadField(t: Bytes, first: bool, t': Bytes, after: Bytes, name: Bytes, value: Bytes, j: Json, tail: Bytes,
                  fields: seq<Field>, rest: Bytes)
    requires t != [] && t[0] != CLOSE_OBJ && (!first ==> t[0] == COMMA) && t' == (if first then t else t[1..])
    requires t' != [] && t'[0] == QUOTE && ReadStrTail(t'[1..]) == Some((name, after))
    requires after != [] && after[0] == COLON && after[1..] == value
    requires Read(value) == Some((j, tail))
    requires ReadFields(tail, false) == Some((fields, rest))
    ensures ReadFields(t, first) == Some(([Field(name, j)] + fields, rest))
  {
  }

  lemma Nested(head: Bytes, name: Bytes, colon: Bytes, value: Bytes, more: Bytes, rest: Bytes)
    ensures (head + (name + (colon + (value + more)))) + rest == head + (name + (colon + (value + (more + rest))))
  {
    Assoc(value, more, rest);
    Assoc(colon, value + more, rest);
    Assoc(name, colon + (value + more), rest);
    Assoc(head, name + (colon + (value + more)), rest);
  }

  /** A field from its opening quote on, and all that follows it. */
  function FieldBody(fields: seq<Field>, rest: Bytes): (t: Bytes)
    requires fields != []
  {
    StrTail(fields[0].name) + ([COLON] + (Encode(fields[0].value) + (FieldsTail(fields[1..], false) + rest)))
  }

  lemma FirstFieldText(fields: seq<Field>, rest: Bytes)
    requires fields != []
    ensures FieldsTail(fields, true) + rest == [QUOTE] + FieldBody(fields, rest)
  {
    var name, value, more := StrTail(fields[0].name), Encode(fields[0].value), FieldsTail(fields[1..], false);
    Nested([QUOTE], name, [COLON], value, more, rest);
  }

  lemma LaterFieldText(fields: seq<Field>, rest: Bytes)
    requires fields != []
    ensures FieldsTail(fields, false) + rest == [COMMA] + ([QUOTE] + FieldBody(fields, rest))
  {
    var name, value, more := StrTail(fields[0].name), Encode(fields[0].value), FieldsTail(fields[1..], false);
    Nested([COMMA, QUOTE], name, [COLON], value, more, rest);
    TwoThen(COMMA, QUOTE, FieldBody(fields, rest));
  }

  lemma TwoThen(a: byte, b: byte, t: Bytes)
    ensures [a, b] + t == [a] + ([b] + t)
    ensures ([a] + ([b] + t))[1..] == [b] + t
  {
  }

  lemma FieldText(fields: seq<Field>, first: bool, rest: Bytes)
    requires fields != []
    ensures var t := FieldsTail(fields, first) + rest;
            && (!first ==> t[0] == COMMA)
            && (if first then t else t[1..]) == [QUOTE] + FieldBody(fields, rest)
  {
    if first {
      FirstFieldText(fields, rest);
    } else {
      LaterFieldText(fields, rest);
      TwoThen(COMMA, QUOTE, FieldBody(fields, rest));
    }
  }

  lemma FieldStep(t: Bytes, first: bool, name: Bytes, value: Bytes, j: Json, tail: Bytes, fields: seq<Field>,
                  rest: Bytes)
    requires t != [] && (!first ==> t[0] == COMMA)
    requires (if first then t else t[1..]) == [QUOTE] + (StrTail(name) + ([COLON] + value))
    requires Read(value) == Some((j, tail)) && ReadFields(tail, false) == Some((fields, rest))
    ensures ReadFields(t, first) == Some(([Field(name, j)] + fields, rest))
  {
    var after := [COLON] + value;
    var t' := [QUOTE] + (StrTail(name) + after);
    ReadStr(name, after);
    assert t'[1..] == StrTail(name) + after && after[1..] == value;
    ReadField(t, first, t', after, name, value, j, tail, fields, rest);
  }

  lemma {:induction false} ReadEncodedFields(fields: seq<Field>, first: bool, rest: Bytes)
    ensures ReadFields(FieldsTail(fields, first) + rest, first) == Some((fields, rest))
    decreases fields, 0
  {
    var t := FieldsTail(fields, first) + rest;
    if fields == [] {
      assert t[1..] == rest;
    } else {
      var Field(name, j) := fields[0];
      var tail := FieldsTail(fields[1..], false) + rest;
      FirstByte(j);
      ReadEncode(j, tail);
      ReadEncodedFields(fields[1..], false, rest);
      FieldText(fields, first, rest);
      FieldStep(t, first, name, Encode(j) + tail, j, tail, fields[1..], rest);
      assert fields == [fields[0]] + fields[1..];
    }
  }

  /** Everything written reads back. */
  lemma DecodeEncode(j: Json)
    ensures Decode(Encode(j)) == Some(j)
  {
    ReadEncode(j, []);
    assert Encode(j) + [] == Encode(j);
  }

  /**
    Concatenated texts split uniquely: exactly the bare numbers need help, from a following byte
    that is not a digit.
    */
  lemma UniqueSplit(j: Json, rest: Bytes, j': Json, rest': Bytes)
    requires Delimited(j, rest) && Delimited(j', rest')
    requires Encode(j) + rest == Encode(j') + rest'
    ensures j == j' && rest == rest'
  {
    ReadEncode(j, rest);
    ReadEncode(j', rest');
  }

  lemma EncodeInjective(j: Json, j': Json)
    requires Encode(j) == Encode(j')
    ensures j == j'
  {
    DecodeEncode(j);
    DecodeEncode(j');
  }
}

/**
  The dependency-free base64 codec of the React Native bridge, against section 4 of RFC 4648: the
  text is the input's bits, six at a time, through the alphabet, padded to a multiple of four.
  */
module Base64 {
  import opened Bytes

  const UPPER := "ABCDEFGHIJKLMNOPQRSTUVWXYZ"
  const LOWER := "abcdefghijklmnopqrstuvwxyz"
  const OTHER := "0123456789+/"
  const CHARS := UPPER + LOWER + OTHER
  const PAD := '='

  // ---- The alphabet ----

  /** Table 1 of RFC 4648. */
  function Alphabet(v: nat): (c: char)
    requires v < 64
  {
    if v < 26 then 'A' + v as char
    else if v < 52 then 'a' + (v - 26) as char
    else if v < 62 then '0' + (v - 52) as char
    else if v == 62 then '+' else '/'
  }

  /** The value of a character; anything outside the alphabet counts as zero, like the table's rest. */
  function Sextet(c: char): (v: nat)
    ensures v < 64
  {
    if 'A' <= c <= 'Z' then (c - 'A') as nat
    else if 'a' <= c <= 'z' then 26 + (c - 'a') as nat
    else if '0' <= c <= '9' then 52 + (c - '0') as nat
    else if c == '+' then 62
    else if c == '/' then 63 else 0
  }

  lemma UpperChars(v: nat)
    requires v < 26
    ensures |UPPER| == 26 && UPPER[v] == Alphabet(v)
  {
  }

  lemma LowerChars(v: nat)
    requires v < 26
    ensures |LOWER| == 26 && LOWER[v] == Alphabet(26 + v)
  {
  }

  lemma OtherChars(v: nat)
    requires v < 12
    ensures |OTHER| == 12 && OTHER[v] == Alphabet(52 + v)
  {
  }

  lemma CharsAre(v: nat)
    requires v < 64
    ensures |CHARS| == 64 && CHARS[v] == Alphabet(v)
  {
    UpperChars(if v < 26 then v else 0);
    LowerChars(if 26 <= v < 52 then v - 26 else 0);
    OtherChars(if 52 <= v then v - 52 else 0);
  }

  lemma SextetOf(v: nat)
    requires v < 64
    ensures Sextet(Alphabet(v)) == v && Alphabet(v) != PAD && Alphabet(v) < 128 as char
  {
  }

  lemma OfSextet(c: char)
    ensures Alphabet(Sextet(c)) == c || Sextet(c) == 0
  {
  }

  /** The module's `LOOKUP` table: zero except at the characters of the alphabet. */
  method BuildLookup() returns (t: array<byte>)
    ensures fresh(t) && IsLookup(t)
  {
    t := new byte[256](_ => 0);
    CharsAre(0);
    for i := 0 to |CHARS|
      invariant forall c: char :: c < 256 as char ==>
        t[c as int] == if Sextet(c) < i && Alphabet(Sextet(c)) == c then Sextet(c) else 0
    {
      CharsAre(i);
      SextetOf(i);
      t[CHARS[i] as int] := i;
      forall c: char | c < 256 as char
        ensures t[c as int] == if Sextet(c) < i + 1 && Alphabet(Sextet(c)) == c then Sextet(c) else 0
      {
        SextetOf(Sextet(c));
      }
    }
    forall c: char | c < 256 as char
      ensures t[c as int] == Sextet(c)
    {
      OfSextet(c);
    }
  }

  // ---- Reference ----

  function Pow64(k: nat): (p: nat)
    ensures p >= 1
  {
    if k == 0 then 1 else 64 * Pow64(k - 1)
  }

  /** The `k` low base-64 digits of a number, most significant first. */
  function ToDigits(n: nat, k: nat): (x: seq<nat>)
    ensures |x| == k && forall i :: 0 <= i < k ==> x[i] < 64
  {
    if k == 0 then [] else ToDigits(n / 64, k - 1) + [n % 64]
  }

  function FromDigits(x: seq<nat>): (n: nat) {
    if x == [] then 0 else 64 * FromDigits(x[..|x| - 1]) + x[|x| - 1]
  }

  lemma {:induction false} FromToDigits(n: nat, k: nat)
    requires n < Pow64(k)
    ensures FromDigits(ToDigits(n, k)) == n
  {
    if k == 0 {
    } else {
      FromToDigits(n / 64, k - 1);
      assert ToDigits(n, k)[..k - 1] == ToDigits(n / 64, k - 1);
    }
  }

  /** Zero bits that complete the last sextet of `m` bytes: none, two or four, as a factor. */
  function Fill(m: nat): (f: nat)
    requires m <= 3
    ensures f >= 1
  {
    if m == 1 then 16 else if m == 2 then 4 else 1
  }

  /** A group of up to three bytes is one big number, written in base 64. */
  function GroupSextets(g: Bytes): (x: seq<nat>)
    requires 1 <= |g| <= 3
    ensures |x| == |g| + 1 && forall i :: 0 <= i < |x| ==> x[i] < 64
  {
    ToDigits(FromBE(g) * Fill(|g|), |g| + 1)
  }

  function Sextets(b: Bytes): (x: seq<nat>)
    ensures forall i :: 0 <= i < |x| ==> x[i] < 64
  {
    if |b| == 0 then [] else if |b| <= 3 then GroupSextets(b) else GroupSextets(b[..3]) + Sextets(b[3..])
  }

  function Padding(n: nat): (p: string) {
    if n % 3 == 0 then "" else if n % 3 == 1 then "==" else "="
  }

  function Chars(x: seq<nat>): (s: string)
    requires forall i :: 0 <= i < |x| ==> x[i] < 64
    ensures |s| == |x| && forall i :: 0 <= i < |x| ==> s[i] == Alphabet(x[i])
  {
    seq(|x|, i requires 0 <= i < |x| => Alphabet(x[i]))
  }

  function Text(b: Bytes): (s: string) {
    Chars(Sextets(b))
  }

  function Encoded(b: Bytes): (s: string) {
    Text(b) + Padding(|b|)
  }

  lemma {:induction false} SextetCount(b: Bytes)
    ensures |Sextets(b)| == |b| / 3 * 4 + (if |b| % 3 == 0 then 0 else |b| % 3 + 1)
  {
    if |b| <= 3 {
    } else {
      SextetCount(b[3..]);
    }
  }

  /** Four characters for every three bytes begun. */
  lemma EncodedLength(b: Bytes)
    ensures |Encoded(b)| == 4 * ((|b| + 2) / 3)
  {
    SextetCount(b);
  }

  // ---- Encoding ----

  /** `CHARS.charAt`. */
  function CharAt(v: nat): (c: char)
    requires v < 64
    ensures c == Alphabet(v)
  {
    CharsAre(v);
    CHARS[v]
  }

  /** Shifting and masking a 24-bit group. */
  lemma GroupShifts(n: nat)
    requires n < 0x100_0000
    ensures ToDigits(n, 4) == [n / 0x4_0000 % 64, n / 0x1000 % 64, n / 64 % 64, n % 64]
    ensures ToDigits(n / 64, 3) == [n / 0x4_0000 % 64, n / 0x1000 % 64, n / 64 % 64]
    ensures ToDigits(n / 0x1000, 2) == [n / 0x4_0000 % 64, n / 0x1000 % 64]
  {
    assert n / 64 / 64 == n / 0x1000 && n / 0x1000 / 64 == n / 0x4_0000;
    assert ToDigits(n / 0x4_0000, 1) == [n / 0x4_0000 % 64];
    assert ToDigits(n / 0x1000, 2) == ToDigits(n / 0x4_0000, 1) + [n / 0x1000 % 64];
    assert ToDigits(n / 64, 3) == ToDigits(n / 0x1000, 2) + [n / 64 % 64];
    assert ToDigits(n, 4) == ToDigits(n / 64, 3) + [n % 64];
  }

  lemma GroupNumber(b0: byte, b1: byte, b2: byte)
    ensures FromBE([b0]) == b0 && FromBE([b0, b1]) == 256 * b0 as int + b1
    ensures FromBE([b0, b1, b2]) == 256 * (256 * b0 as int + b1) + b2
  {
    assert [b0, b1][..1] == [b0] && [b0, b1, b2][..2] == [b0, b1];
  }

  /** The sextets of a group, read off the number that its bytes make with missing ones zero. */
  lemma GroupDigits(g: Bytes, b1: byte, b2: byte, n: nat)
    requires 1 <= |g| <= 3 && b1 == (if |g| > 1 then g[1] else 0) && b2 == (if |g| > 2 then g[2] else 0)
    requires n == g[0] as int * 0x1_0000 + b1 as int * 0x100 + b2
    ensures FromBE(g) * Fill(|g|) == if |g| == 1 then n / 0x1000 else if |g| == 2 then n / 64 else n
  {
    GroupNumber(g[0], b1, b2);
    if |g| == 1 {
      assert g == [g[0]];
    } else if |g| == 2 {
      assert g == [g[0], g[1]];
    } else {
      assert g == [g[0], g[1], g[2]];
    }
  }

  /** The characters of one group, as the loop and the tail of `bytesToBase64` compute them. */
  method GroupChars(g: Bytes) returns (s: string)
    requires 1 <= |g| <= 3
    ensures s == Chars(GroupSextets(g))
  {
    var b1 := if |g| > 1 then g[1] else 0;
    var b2 := if |g| > 2 then g[2] else 0;
    var n := g[0] as int * 0x1_0000 + b1 as int * 0x100 + b2;
    GroupShifts(n);
    GroupDigits(g, b1, b2, n);
    s := [CharAt(n / 0x4_0000 % 64), CharAt(n / 0x1000 % 64)];
    if |g| == 2 {
      s := s + [CharAt(n / 64 % 64)];
    } else if |g| == 3 {
      s := s + [CharAt(n / 64 % 64)] + [CharAt(n % 64)];
    }
  }

  method BytesToBase64(bytes: Bytes) returns (out: string)
    ensures out == Encoded(bytes)
  {
    var i;
    out, i := EncodeGroups(bytes);
    ghost var rest := bytes[i..];
    ghost var head := out;
    LastGroup(rest);
    if i < |bytes| {
      var tail := GroupChars(bytes[i..]);
      out := out + tail;
    }
    NoTail(head, out, Text(rest));
    PaddingSame(|bytes|, i);
    out := out + Padding(|bytes| - i);
  }

  /** The loop over whole groups. */
  method EncodeGroups(bytes: Bytes) returns (out: string, i: nat)
    ensures i <= |bytes| < i + 3 && i % 3 == 0 && out + Text(bytes[i..]) == Text(bytes)
  {
    out, i := "", 0;
    assert bytes[0..] == bytes;
    while i + 2 < |bytes|
      invariant i <= |bytes| && i % 3 == 0
      invariant out + Text(bytes[i..]) == Text(bytes)
    {
      var group := GroupChars(bytes[i..i + 3]);
      ghost var _ := NextGroup(bytes, i, out, Text(bytes));
      out := out + group;
      i := i + 3;
    }
  }

  lemma NoTail(head: string, out: string, tail: string)
    requires out == (if tail == [] then head else head + tail)
    ensures out == head + tail
  {
    assert head + [] == head;
  }

  lemma PaddingSame(n: nat, i: nat)
    requires i <= n && i % 3 == 0
    ensures Padding(n - i) == Padding(n)
  {
    assert (n - i) % 3 == n % 3;
  }

  lemma LastGroup(b: Bytes)
    requires |b| < 3
    ensures Text(b) == if b == [] then [] else Chars(GroupSextets(b))
  {
    if b != [] {
      assert b == b[..|b|];
    }
  }

  lemma SextetsStep(b: Bytes)
    requires |b| >= 3
    ensures Sextets(b) == GroupSextets(b[..3]) + Sextets(b[3..])
  {
    if |b| == 3 {
      assert b[..3] == b && b[3..] == [];
    }
  }

  lemma CharsAppend(x: seq<nat>, y: seq<nat>)
    requires forall i :: 0 <= i < |x| ==> x[i] < 64
    requires forall i :: 0 <= i < |y| ==> y[i] < 64
    ensures (forall i :: 0 <= i < |x + y| ==> (x + y)[i] < 64) && Chars(x + y) == Chars(x) + Chars(y)
  {
  }

  lemma TextStep(b: Bytes)
    requires |b| >= 3
    ensures Text(b) == Chars(GroupSextets(b[..3])) + Text(b[3..])
  {
    SextetsStep(b);
    CharsAppend(GroupSextets(b[..3]), Sextets(b[3..]));
  }

  lemma NextGroup(bytes: Bytes, i: nat, out: string, total: string) returns (rest: string)
    requires i + 2 < |bytes| && out + Text(bytes[i..]) == total
    ensures rest == Text(bytes[i + 3..]) && (out + Chars(GroupSextets(bytes[i..i + 3]))) + rest == total
  {
    var b := bytes[i..];
    TextStep(b);
    rest := Text(b[3..]);
    Assoc(out, Chars(GroupSextets(b[..3])), rest);
    DropDrop(bytes, i, 3);
    assert b[..3] == bytes[i..i + 3];
  }

  // ---- Decoding ----

  /** `k` sextets are `k - 1` whole bytes; bits beyond them are dropped. */
  function GroupBytes(x: seq<nat>): (b: Bytes)
    requires 1 <= |x| <= 4
    ensures |b| == |x| - 1
  {
    ToBE(FromDigits(x) / Fill(|x| - 1), |x| - 1)
  }

  function Unpack(x: seq<nat>): (b: Bytes) {
    if |x| == 0 then [] else if |x| <= 4 then GroupBytes(x) else GroupBytes(x[..4]) + Unpack(x[4..])
  }

  function Strip(s: string): (t: string)
    ensures |t| <= |s|
  {
    if s != "" && s[|s| - 1] == PAD then Strip(s[..|s| - 1]) else s
  }

  function Values(s: string): (x: seq<nat>)
    ensures |x| == |s| && forall i :: 0 <= i < |s| ==> x[i] == Sextet(s[i])
  {
    seq(|s|, i requires 0 <= i < |s| => Sextet(s[i]))
  }

  /** The bytes a string stands for once its padding is stripped. */
  function Decoded(s: string): (b: Bytes) {
    Unpack(Values(Strip(s)))
  }

  lemma {:induction false} UnpackLength(x: seq<nat>)
    ensures |Unpack(x)| == |x| * 3 / 4
  {
    if |x| <= 4 {
    } else {
      UnpackLength(x[4..]);
    }
  }

  lemma GroupRoundTrip(g: Bytes)
    requires 1 <= |g| <= 3
    ensures GroupBytes(GroupSextets(g)) == g
  {
    var n, m := FromBE(g) * Fill(|g|), |g|;
    ToFromBE(g);
    assert Pow256(1) == 256 && Pow256(2) == 0x1_0000 && Pow256(3) == 0x100_0000;
    assert Pow64(2) == 0x1000 && Pow64(3) == 0x4_0000 && Pow64(4) == 0x100_0000;
    FromToDigits(n, m + 1);
    assert n / Fill(m) == FromBE(g);
  }

  lemma {:induction false} UnpackSextets(b: Bytes)
    ensures Unpack(Sextets(b)) == b
  {
    if |b| == 0 {
    } else if |b| <= 3 {
      GroupRoundTrip(b);
    } else {
      var g := GroupSextets(b[..3]);
      GroupRoundTrip(b[..3]);
      UnpackSextets(b[3..]);
      assert (g + Sextets(b[3..]))[..4] == g && (g + Sextets(b[3..]))[4..] == Sextets(b[3..]);
      SextetCount(b[3..]);
    }
  }

  lemma {:induction false} StripPadding(s: string, p: string)
    requires forall i :: 0 <= i < |p| ==> p[i] == PAD
    requires s == "" || s[|s| - 1] != PAD
    ensures Strip(s + p) == s
  {
    if p == "" {
      assert s + p == s;
    } else {
      StripPadding(s, p[..|p| - 1]);
      assert (s + p)[..|s + p| - 1] == s + p[..|p| - 1];
    }
  }

  lemma ValuesOfChars(x: seq<nat>)
    requires forall i :: 0 <= i < |x| ==> x[i] < 64
    ensures Values(Chars(x)) == x
    ensures forall i :: 0 <= i < |x| ==> Chars(x)[i] != PAD
  {
    forall i | 0 <= i < |x|
      ensures Values(Chars(x))[i] == x[i] && Chars(x)[i] != PAD
    {
      SextetOf(x[i]);
    }
  }

  /** The text of a byte sequence stands for that sequence, so encoding is injective. */
  lemma DecodedEncoded(b: Bytes)
    ensures Decoded(Encoded(b)) == b
  {
    var x := Sextets(b);
    ValuesOfChars(x);
    StripPadding(Chars(x), Padding(|b|));
    UnpackSextets(b);
  }

  // ---- Canonical text ----

  /** The bits of the last sextet that no byte takes are zero. */
  predicate TailClear(x: seq<nat>) {
    && (|x| % 4 == 2 ==> x[|x| - 1] % 16 == 0)
    && (|x| % 4 == 3 ==> x[|x| - 1] % 4 == 0)
  }

  /** Whole groups of characters of the alphabet, padded at the end as needed, with no stray bits. */
  predicate CanonicalText(s: string) {
    var t := Strip(s);
    && |s| % 4 == 0 && |s| - |t| <= 2
    && (forall i :: 0 <= i < |t| ==> Alphabet(Sextet(t[i])) == t[i])
    && TailClear(Values(t))
  }

  lemma {:induction false} ToFromDigits(x: seq<nat>)
    requires forall i :: 0 <= i < |x| ==> x[i] < 64
    ensures FromDigits(x) < Pow64(|x|) && ToDigits(FromDigits(x), |x|) == x
  {
    if x == [] {
    } else {
      var front, last := x[..|x| - 1], x[|x| - 1];
      ToFromDigits(front);
      assert FromDigits(x) / 64 == FromDigits(front) && FromDigits(x) % 64 == last;
    }
  }

  /** Clear bits make the number of a group a whole number of bytes. */
  lemma FillDivides(front: nat, last: nat, m: nat, n: nat) returns (q: nat)
    requires 1 <= m <= 3 && last < 64 && n == 64 * front + last && n < Pow64(m + 1)
    requires (m == 1 ==> last % 16 == 0) && (m == 2 ==> last % 4 == 0)
    ensures q == n / Fill(m) && q * Fill(m) == n && q < Pow256(m)
  {
    if m == 1 {
      q := 4 * front + last / 16;
      assert n == 16 * q && n / 16 == q;
      assert Pow64(2) == 0x1000 && Pow256(1) == 256;
    } else if m == 2 {
      q := 16 * front + last / 4;
      assert n == 4 * q && n / 4 == q;
      assert Pow64(3) == 0x4_0000 && Pow256(2) == 0x1_0000;
    } else {
      q := n;
      assert Pow64(4) == 0x100_0000 && Pow256(3) == 0x100_0000;
    }
  }

  lemma GroupReencodes(x: seq<nat>)
    requires 2 <= |x| <= 4 && TailClear(x) && forall i :: 0 <= i < |x| ==> x[i] < 64
    ensures GroupSextets(GroupBytes(x)) == x
  {
    var m := |x| - 1;
    ToFromDigits(x);
    GroupNumbered(x, FromDigits(x[..m]), x[m], m, FromDigits(x));
  }

  lemma GroupNumbered(x: seq<nat>, front: nat, last: nat, m: nat, n: nat)
    requires 1 <= m <= 3 && |x| == m + 1 && n == FromDigits(x) && n < Pow64(m + 1) && ToDigits(n, m + 1) == x
    requires last < 64 && n == 64 * front + last && (m == 1 ==> last % 16 == 0) && (m == 2 ==> last % 4 == 0)
    ensures GroupSextets(GroupBytes(x)) == x
  {
    var q := FillDivides(front, last, m, n);
    GroupFrom(x, q, n, m);
  }

  lemma GroupFrom(x: seq<nat>, q: nat, n: nat, m: nat)
    requires 1 <= m <= 3 && |x| == m + 1 && n == FromDigits(x) && q == n / Fill(m)
    requires q * Fill(m) == n && q < Pow256(m) && ToDigits(n, m + 1) == x
    ensures GroupSextets(GroupBytes(x)) == x
  {
    BytesOf(x, q, n, m);
    RoundTripBE(q, m);
    SextetsOf(GroupBytes(x), q, n, x);
  }

  lemma BytesOf(x: seq<nat>, q: nat, n: nat, m: nat)
    requires 1 <= m <= 3 && |x| == m + 1 && n == FromDigits(x) && q == n / Fill(m)
    ensures GroupBytes(x) == ToBE(q, m)
  {
  }

  lemma SextetsOf(g: Bytes, q: nat, n: nat, x: seq<nat>)
    requires 1 <= |g| <= 3 && FromBE(g) == q && q * Fill(|g|) == n && ToDigits(n, |g| + 1) == x
    ensures GroupSextets(g) == x
  {
  }

  lemma SextetsJoin(g: Bytes, rest: Bytes)
    requires |g| == 3
    ensures Sextets(g + rest) == GroupSextets(g) + Sextets(rest)
  {
    SextetsStep(g + rest);
    assert (g + rest)[..3] == g && (g + rest)[3..] == rest;
  }

  lemma TailClearRest(x: seq<nat>)
    requires |x| > 4
    ensures TailClear(x) <==> TailClear(x[4..])
    ensures TailClear(x[..4]) && x == x[..4] + x[4..] && (|x| - 4) % 4 == |x| % 4
  {
    assert (|x| - 4) % 4 == |x| % 4;
    assert x[4..][|x| - 5] == x[|x| - 1];
  }

  lemma ReencodeStep(x: seq<nat>, g: seq<nat>, rest: seq<nat>, b: Bytes, bs: Bytes)
    requires |g| == 4 && |rest| > 0 && x == g + rest && GroupBytes(g) == b && Unpack(rest) == bs
    requires GroupSextets(b) == g && Sextets(bs) == rest
    ensures Sextets(Unpack(x)) == x
  {
    assert x[..4] == g && x[4..] == rest;
    SextetsJoin(b, bs);
  }

  lemma {:induction false} SextetsReencode(x: seq<nat>)
    requires TailClear(x) && |x| % 4 != 1 && forall i :: 0 <= i < |x| ==> x[i] < 64
    ensures Sextets(Unpack(x)) == x
  {
    if |x| == 0 {
    } else if |x| <= 4 {
      GroupReencodes(x);
    } else {
      var g, rest := x[..4], x[4..];
      TailClearRest(x);
      GroupReencodes(g);
      SextetsReencode(rest);
      ReencodeStep(x, g, rest, GroupBytes(g), Unpack(rest));
    }
  }

  lemma {:induction false} Stripped(s: string)
    ensures Strip(s) <= s && forall i :: |Strip(s)| <= i < |s| ==> s[i] == PAD
  {
    if s == "" || s[|s| - 1] != PAD {
    } else {
      Stripped(s[..|s| - 1]);
    }
  }

  lemma PaddingFor(len: nat, total: nat)
    requires len <= total <= len + 2 && total % 4 == 0
    ensures len % 4 != 1 && |Padding(len * 3 / 4)| == total - len
  {
    var q, r := len / 4, len % 4;
    assert len == 4 * q + r;
    if r == 0 {
      assert len * 3 / 4 == 3 * q;
    } else if r == 2 {
      assert len * 3 / 4 == 3 * q + 1 && total == len + 2;
    } else if r == 3 {
      assert len * 3 / 4 == 3 * q + 2 && total == len + 1;
    }
  }

  lemma AllPadding(s: string, t: string, p: string)
    requires t <= s && |p| == |s| - |t|
    requires (forall i :: |t| <= i < |s| ==> s[i] == PAD) && (forall i :: 0 <= i < |p| ==> p[i] == PAD)
    ensures s == t + p
  {
  }

  /** Canonical text is the text of the bytes it stands for. */
  lemma EncodedDecoded(s: string)
    requires CanonicalText(s)
    ensures Encoded(Decoded(s)) == s
  {
    var t := Strip(s);
    var x := Values(t);
    Stripped(s);
    PaddingFor(|t|, |s|);
    SextetsReencode(x);
    UnpackLength(x);
    assert Chars(x) == t;
    AllPadding(s, t, Padding(|Decoded(s)|));
  }

  lemma PaddedLength(n: nat)
    ensures var t := n / 3 * 4 + (if n % 3 == 0 then 0 else n % 3 + 1);
            (t + |Padding(n)|) % 4 == 0 && |Padding(n)| <= 2
  {
  }

  lemma CanonicalFrom(s: string, t: string, x: seq<nat>)
    requires (forall i :: 0 <= i < |x| ==> x[i] < 64) && t == Chars(x) && TailClear(x)
    requires Strip(s) == t && |s| % 4 == 0 && |s| - |t| <= 2
    ensures CanonicalText(s)
  {
    ValuesOfChars(x);
    forall i | 0 <= i < |t| ensures Alphabet(Sextet(t[i])) == t[i] {
      SextetOf(x[i]);
    }
  }

  /** The text of bytes is canonical. */
  lemma EncodedCanonical(b: Bytes)
    ensures CanonicalText(Encoded(b))
  {
    var x := Sextets(b);
    SextetCount(b);
    PaddedLength(|b|);
    SextetsTail(b);
    CanonicalPadded(Encoded(b), Chars(x), x, Padding(|b|));
  }

  lemma CanonicalPadded(s: string, t: string, x: seq<nat>, p: string)
    requires (forall i :: 0 <= i < |x| ==> x[i] < 64) && t == Chars(x) && TailClear(x)
    requires s == t + p && |s| % 4 == 0 && |p| <= 2 && forall i :: 0 <= i < |p| ==> p[i] == PAD
    ensures CanonicalText(s)
  {
    ValuesOfChars(x);
    StripPadding(t, p);
    CanonicalFrom(s, t, x);
  }

  lemma Low16(n: nat, h: nat, r: nat)
    requires n == 64 * h + 16 * r && r < 4
    ensures n % 64 % 16 == 0
  {
    assert n % 64 == 16 * r;
  }

  lemma Low4(n: nat, h: nat, r: nat)
    requires n == 64 * h + 4 * r && r < 16
    ensures n % 64 % 4 == 0
  {
    assert n % 64 == 4 * r;
  }

  lemma LastClear(x: seq<nat>, m: nat, q: nat)
    requires 1 <= m <= 3 && |x| == m + 1 && x[m] == q * Fill(m) % 64
    ensures TailClear(x)
  {
    if m == 1 {
      Low16(q * 16, q / 4, q % 4);
    } else if m == 2 {
      Low4(q * 4, q / 16, q % 16);
    }
  }

  lemma GroupTail(g: Bytes)
    requires 1 <= |g| <= 3
    ensures TailClear(GroupSextets(g))
  {
    LastDigit(FromBE(g) * Fill(|g|), |g|);
    LastClear(GroupSextets(g), |g|, FromBE(g));
  }

  lemma LastDigit(n: nat, k: nat)
    ensures ToDigits(n, k + 1)[k] == n % 64
  {
  }

  lemma {:induction false} SextetsTail(b: Bytes)
    ensures TailClear(Sextets(b))
  {
    if |b| == 0 {
    } else if |b| <= 3 {
      GroupTail(b);
    } else {
      var g, rest := GroupSextets(b[..3]), Sextets(b[3..]);
      SextetsTail(b[3..]);
      SextetCount(b[3..]);
      TailClearRest(g + rest);
      assert (g + rest)[4..] == rest;
    }
  }

  // ---- The length, in 32 bits ----

  /** JavaScript's conversion to a signed 32-bit integer. */
  function ToInt32(x: nat): (n: int)
    ensures -0x8000_0000 <= n < 0x8000_0000
  {
    var m := x % 0x1_0000_0000;
    if m < 0x8000_0000 then m else m - 0x1_0000_0000
  }

  /** `(len * 3) >> 2`; division rounds down, as the arithmetic shift does. */
  function OutLength(len: nat): (n: int) {
    ToInt32(len * 3) / 4
  }

  lemma OutLengthIff(len: nat)
    ensures OutLength(len) <= len * 3 / 4
    ensures OutLength(len) == len * 3 / 4 <==> len * 3 < 0x8000_0000
  {
  }

  /** What `base64ToBytes` returns on any string; none is the `RangeError` of a negative length. */
  function Result(s: string): (r: Option<Bytes>) {
    var n := OutLength(|Strip(s)|);
    OutLengthIff(|Strip(s)|);
    UnpackLength(Values(Strip(s)));
    if n < 0 then None else Some(Decoded(s)[..n])
  }

  /** The bytes a string stands for come back if and only if three times its unpadded length fits 31 bits. */
  lemma DecodesIff(s: string)
    ensures Result(s) == Some(Decoded(s)) <==> 3 * |Strip(s)| < 0x8000_0000
  {
    OutLengthIff(|Strip(s)|);
    UnpackLength(Values(Strip(s)));
    var n := OutLength(|Strip(s)|);
    if n == |Decoded(s)| {
      assert Decoded(s)[..n] == Decoded(s);
    }
  }

  lemma StripEncoded(b: Bytes)
    ensures |Strip(Encoded(b))| == |b| / 3 * 4 + (if |b| % 3 == 0 then 0 else |b| % 3 + 1)
  {
    ValuesOfChars(Sextets(b));
    StripPadding(Chars(Sextets(b)), Padding(|b|));
    SextetCount(b);
  }

  lemma EncodedOutLength(n: nat)
    ensures var m := n % 0x4000_0000;
            var len := n / 3 * 4 + if n % 3 == 0 then 0 else n % 3 + 1;
            OutLength(len) == if m < 0x2000_0000 then m else m - 0x4000_0000
  {
    var q, r := n / 3, n % 3;
    var x := (q * 4 + (if r == 0 then 0 else r + 1)) * 3;
    var low := if r == 0 then 0 else 3 - r;
    assert x == 4 * n + low;
    assert x % 0x1_0000_0000 == 4 * (n % 0x4000_0000) + low;
  }

  /** On encoded bytes: the length counts modulo 2^30, as a signed number, and a shorter output is cut off. */
  lemma ResultOfEncoded(b: Bytes)
    ensures var m := |b| % 0x4000_0000;
            Result(Encoded(b)) == if m < 0x2000_0000 then Some(b[..m]) else None
  {
    StripEncoded(b);
    EncodedOutLength(|b|);
    DecodedEncoded(b);
  }

  /** Decoding undoes encoding if and only if there are fewer than 2^29 bytes. */
  lemma RoundTripIff(b: Bytes)
    ensures Result(Encoded(b)) == Some(b) <==> |b| < 0x2000_0000
  {
    ResultOfEncoded(b);
    var m := |b| % 0x4000_0000;
    assert m < |b| || b[..m] == b;
  }

  /** From 2^29 bytes the length is negative; at 2^30 it is zero, and everything is lost without an error. */
  lemma LongInputs(b: Bytes)
    ensures |b| == 0x2000_0000 ==> Result(Encoded(b)) == None
    ensures |b| == 0x4000_0000 ==> Result(Encoded(b)) == Some([])
  {
    ResultOfEncoded(b);
  }

  lemma DigitsNumber(x0: nat, x1: nat, x2: nat, x3: nat)
    ensures FromDigits([x0]) == x0 && FromDigits([x0, x1]) == 64 * x0 + x1
    ensures FromDigits([x0, x1, x2]) == 64 * (64 * x0 + x1) + x2
    ensures FromDigits([x0, x1, x2, x3]) == 64 * (64 * (64 * x0 + x1) + x2) + x3
  {
    assert [x0, x1][..1] == [x0] && [x0, x1, x2][..2] == [x0, x1] && [x0, x1, x2, x3][..3] == [x0, x1, x2];
  }

  lemma ByteShifts(n: nat)
    requires n < 0x100_0000
    ensures ToBE(n, 3) == [n / 0x1_0000 % 256, n / 0x100 % 256, n % 256]
    ensures ToBE(n / 0x100, 2) == [n / 0x1_0000 % 256, n / 0x100 % 256]
    ensures ToBE(n / 0x1_0000, 1) == [n / 0x1_0000 % 256]
  {
    assert n / 0x100 / 0x100 == n / 0x1_0000;
    assert ToBE(n / 0x1_0000, 1) == [n / 0x1_0000 % 256];
    assert ToBE(n / 0x100, 2) == ToBE(n / 0x1_0000, 1) + [n / 0x100 % 256];
    assert ToBE(n, 3) == ToBE(n / 0x100, 2) + [n % 256];
  }

  /** Shifting four sextets together, absent ones as zero, and cutting them into bytes. */
  lemma GroupShiftsBack(x: seq<nat>, b: nat, c: nat, d: nat, n: nat)
    requires 1 <= |x| <= 4 && x[0] < 64 && b < 64 && c < 64 && d < 64
    requires b == (if |x| > 1 then x[1] else 0) && c == (if |x| > 2 then x[2] else 0)
             && d == (if |x| > 3 then x[3] else 0)
    requires n == x[0] * 0x4_0000 + b * 0x1000 + c * 64 + d
    ensures n < 0x100_0000
    ensures GroupBytes(x) == [n / 0x1_0000 % 256, n / 0x100 % 256, n % 256][..|x| - 1]
  {
    ByteShifts(n);
    DigitsNumber(x[0], b, c, d);
    if |x| == 2 {
      assert x == [x[0], x[1]] && FromDigits(x) / 16 == n / 0x1_0000;
    } else if |x| == 3 {
      assert x == [x[0], x[1], x[2]] && FromDigits(x) / 4 == n / 0x100;
    } else if |x| == 4 {
      assert x == [x[0], x[1], x[2], x[3]] && FromDigits(x) == n;
    }
  }

  /** Writes as many of a group's three bytes as the output still has room for. */
  method PutGroup(out: array<byte>, o: nat, n: nat) returns (o': nat)
    requires o <= out.Length && n < 0x100_0000
    modifies out
    ensures o' == if out.Length - o < 3 then out.Length else o + 3
    ensures out[..o'] == old(out[..o]) + [n / 0x1_0000 % 256, n / 0x100 % 256, n % 256][..o' - o]
  {
    o' := o;
    if o' < out.Length { out[o'] := n / 0x1_0000 % 256; o' := o' + 1; }
    if o' < out.Length { out[o'] := n / 0x100 % 256; o' := o' + 1; }
    if o' < out.Length { out[o'] := n % 256; o' := o' + 1; }
  }

  predicate IsLookup(lookup: array<byte>)
    reads lookup
  {
    lookup.Length == 256 && forall c: char :: c < 256 as char ==> lookup[c as int] == Sextet(c)
  }

  /** The sextets of the group at `i`, at most four of them. */
  function GroupAt(s: string, i: nat): (x: seq<nat>)
    requires i < |s|
    ensures 1 <= |x| <= 4
  {
    if |s| - i < 4 then Values(s[i..]) else Values(s[i..i + 4])
  }

  /** Looks the group's characters up and shifts them together. */
  method GroupNumberAt(b64: string, i: nat, len: nat, lookup: array<byte>) returns (n: nat)
    requires IsLookup(lookup) && i < len <= |b64|
    requires forall j :: len <= j < |b64| ==> b64[j] == PAD
    ensures n < 0x100_0000
    ensures var x := GroupAt(b64[..len], i);
            GroupBytes(x) == [n / 0x1_0000 % 256, n / 0x100 % 256, n % 256][..|x| - 1]
  {
    var a := At(b64, i, lookup);
    var b := At(b64, i + 1, lookup);
    var c, d := 0, 0;
    if i + 2 < len { c := At(b64, i + 2, lookup); }
    if i + 3 < len { d := At(b64, i + 3, lookup); }
    n := a * 0x4_0000 + b * 0x1000 + c * 64 + d;
    GroupShiftsBack(GroupAt(b64[..len], i), b, c, d, n);
  }

  lemma UnpackStep(x: seq<nat>, g: seq<nat>, rest: seq<nat>)
    requires x == g + rest && 1 <= |g| <= 4 && (|g| == 4 || rest == [])
    ensures Unpack(x) == GroupBytes(g) + Unpack(rest)
  {
    if rest == [] {
      assert x == g;
    } else {
      assert x[..4] == g && x[4..] == rest;
    }
  }

  lemma ValuesSplit(s: string, i: nat, j: nat)
    requires i <= j <= |s|
    ensures Values(s[i..]) == Values(s[i..j]) + Values(s[j..])
  {
  }

  lemma UnpackAt(s: string, i: nat)
    requires i < |s|
    ensures var j := if |s| - i < 4 then |s| else i + 4;
            && |Unpack(Values(s[i..]))| == (|s| - i) * 3 / 4
            && |GroupAt(s, i)| == j - i
            && Unpack(Values(s[i..])) == GroupBytes(GroupAt(s, i)) + Unpack(Values(s[j..]))
  {
    var j := if |s| - i < 4 then |s| else i + 4;
    ValuesSplit(s, i, j);
    UnpackLength(Values(s[i..]));
    assert s[i..|s|] == s[i..];
    UnpackStep(Values(s[i..]), Values(s[i..j]), Values(s[j..]));
  }

  method Base64ToBytes(b64: string, lookup: array<byte>) returns (out: Option<array<byte>>)
    requires IsLookup(lookup)
    ensures out.None? <==> Result(b64).None?
    ensures out.Some? ==> fresh(out.value) && Result(b64) == Some(out.value[..])
  {
    var len := |b64|;
    assert b64[..len] == b64;
    while len > 0 && b64[len - 1] == PAD
      invariant 0 <= len <= |b64|
      invariant Strip(b64) == Strip(b64[..len])
      invariant forall i :: len <= i < |b64| ==> b64[i] == PAD
    {
      assert b64[..len][..len - 1] == b64[..len - 1];
      len := len - 1;
    }
    var outLen := OutLength(len);
    OutLengthIff(len);
    if outLen < 0 { return None; }
    var bytes := DecodeGroups(b64, len, outLen, lookup);
    out := Some(bytes);
  }

  /** The loop over groups; output past `outLen` is dropped. */
  method DecodeGroups(b64: string, len: nat, outLen: nat, lookup: array<byte>) returns (out: array<byte>)
    requires IsLookup(lookup) && len <= |b64| && outLen <= len * 3 / 4
    requires forall j :: len <= j < |b64| ==> b64[j] == PAD
    ensures fresh(out) && outLen <= |Unpack(Values(b64[..len]))| && out[..] == Unpack(Values(b64[..len]))[..outLen]
  {
    ghost var total := Unpack(Values(b64[..len]));
    UnpackLength(Values(b64[..len]));
    out := new byte[outLen];
    var o, i := 0, 0;
    ghost var done, rest := [], total;
    assert b64[..len][0..] == b64[..len];
    while i < len
      invariant 0 <= i && 0 <= o && done + rest == total && Written(out, o, done)
      invariant if i < len then rest == Unpack(Values(b64[..len][i..])) else rest == []
    {
      o, done, rest := DecodeGroup(b64, i, len, lookup, out, o, done, total);
      i := i + 4;
    }
    assert done == total && out[..] == out[..o];
  }

  /** As much of `done` as fits is written. */
  ghost predicate Written(out: array<byte>, o: nat, done: Bytes)
    reads out
  {
    && o == (if |done| < out.Length then |done| else out.Length)
    && out[..o] == done[..o]
  }

  method DecodeGroup(b64: string, i: nat, len: nat, lookup: array<byte>, out: array<byte>, o: nat,
                     ghost done: Bytes, ghost total: Bytes)
    returns (o': nat, ghost done': Bytes, ghost rest: Bytes)
    requires IsLookup(lookup) && i < len <= |b64| && lookup != out
    requires forall j :: len <= j < |b64| ==> b64[j] == PAD
    requires out.Length <= |total| && done + Unpack(Values(b64[..len][i..])) == total && Written(out, o, done)
    modifies out
    ensures done' + rest == total && Written(out, o', done')
    ensures if i + 4 < len then rest == Unpack(Values(b64[..len][i + 4..])) else rest == []
  {
    ghost var s := b64[..len];
    ghost var group := GroupBytes(GroupAt(s, i));
    var n := GroupNumberAt(b64, i, len, lookup);
    UnpackAt(s, i);
    rest := Unpack(Values(s[if len - i < 4 then len else i + 4..]));
    done' := done + group;
    Assoc(done, group, rest);
    GroupFits(|s| - i, |group|, |rest|);
    o' := PutGroup(out, o, n);
    PutMore(done, group, [n / 0x1_0000 % 256, n / 0x100 % 256, n % 256], o, o', out.Length, out[..o']);
  }

  lemma PutMore(done: Bytes, group: Bytes, three: Bytes, o: nat, o': nat, room: nat, out: Bytes)
    requires |three| == 3 && |group| <= 3 && group == three[..|group|]
    requires o == (if |done| < room then |done| else room)
    requires o' == (if room - o < 3 then room else o + 3) && out == done[..o] + three[..o' - o]
    requires |group| == 3 || room <= |done| + |group|
    ensures o' == (if |done + group| < room then |done + group| else room) && out == (done + group)[..o']
  {
  }

  /** A short group is the last one and fills the output. */
  lemma GroupFits(left: nat, group: nat, rest: nat)
    requires group == (if left < 4 then left else 4) - 1 && group + rest == left * 3 / 4
    ensures group == 3 || rest == 0
  {
  }

  /** `LOOKUP[b64.charCodeAt(i)]`, which counts as zero off the end and above the table. */
  method At(b64: string, i: nat, lookup: array<byte>) returns (v: nat)
    requires IsLookup(lookup)
    ensures v == if i < |b64| then Sextet(b64[i]) else 0
  {
    v := if i < |b64| && b64[i] < 256 as char then lookup[b64[i] as int] else 0;
  }
}

/**
  The length-prefixed dump of a provider's key-value store. The wasm crate and the memory storage
  crate each write and read it: a count, then for every entry both lengths and both byte strings.
  */
module Snapshot {
  import opened Bytes
  import opened Renaming

  datatype Pair = Pair(key: Bytes, value: Bytes)

  // ---- Layout ----

  function Record(p: Pair): (b: Bytes)
    ensures |b| == 16 + |p.key| + |p.value|
  {
    ToBE(|p.key|, 8) + ToBE(|p.value|, 8) + p.key + p.value
  }

  function Records(ps: seq<Pair>): (b: Bytes) {
    if ps == [] then [] else Record(ps[0]) + Records(ps[1..])
  }

  function Snapshot(ps: seq<Pair>): (b: Bytes) {
    ToBE(|ps|, 8) + Records(ps)
  }

  /** The map that inserting the pairs in order builds on top of `m`. */
  function InsertAll(m: Store, ps: seq<Pair>): (m': Store)
    decreases ps
  {
    if ps == [] then m else InsertAll(m[ps[0].key := ps[0].value], ps[1..])
  }

  /** `ps` lists the map, every key once, in some iteration order. */
  ghost predicate Lists(ps: seq<Pair>, m: Store) {
    && (forall i, j :: 0 <= i < j < |ps| ==> ps[i].key != ps[j].key)
    && (forall i :: 0 <= i < |ps| ==> ps[i].key in m && m[ps[i].key] == ps[i].value)
    && (forall k :: k in m ==> exists i :: 0 <= i < |ps| && ps[i].key == k)
  }

  lemma {:induction false} InsertAllLookup(m: Store, ps: seq<Pair>, k: Bytes)
    requires forall i, j :: 0 <= i < j < |ps| ==> ps[i].key != ps[j].key
    ensures k in InsertAll(m, ps) <==> k in m || exists i :: 0 <= i < |ps| && ps[i].key == k
    ensures forall i :: 0 <= i < |ps| && ps[i].key == k ==> InsertAll(m, ps)[k] == ps[i].value
    ensures k in m && (forall i :: 0 <= i < |ps| ==> ps[i].key != k) ==> InsertAll(m, ps)[k] == m[k]
    decreases ps
  {
    if ps == [] {
    } else {
      var rest := ps[1..];
      assert forall i :: 0 <= i < |rest| ==> rest[i] == ps[i + 1];
      InsertAllLookup(m[ps[0].key := ps[0].value], rest, k);
      if i :| 0 <= i < |rest| && rest[i].key == k {
        assert ps[i + 1].key == k;
      }
      if i :| 0 < i < |ps| && ps[i].key == k {
        assert rest[i - 1].key == k;
      }
    }
  }

  lemma InsertAllListed(ps: seq<Pair>, m: Store)
    requires Lists(ps, m)
    ensures InsertAll(map[], ps) == m
  {
    var m' := InsertAll(map[], ps);
    forall k
      ensures k in m' <==> k in m
      ensures k in m ==> m'[k] == m[k]
    {
      InsertAllLookup(map[], ps, k);
    }
    assert m'.Keys == m.Keys;
  }

  lemma {:induction false} RecordsAppend(ps: seq<Pair>, p: Pair)
    ensures Records(ps + [p]) == Records(ps) + Record(p)
  {
    if ps == [] {
      assert ps + [p] == [p] && [p][1..] == [];
    } else {
      RecordsAppend(ps[1..], p);
      assert (ps + [p])[1..] == ps[1..] + [p];
      Assoc(Record(ps[0]), Records(ps[1..]), Record(p));
    }
  }

  // ---- Writing ----

  /**
    `snapshot_serialize` and `MemoryStorage::serialize`: entries in whatever order the hash map
    yields them. The count of bytes the latter returns is the number of bytes written.
    */
  method Serialize(values: Store) returns (out: Bytes, written: nat, ghost order: seq<Pair>)
    ensures Lists(order, values) && out == Snapshot(order) && written == |out|
  {
    out, written, order := ToBE(|values|, 8), 8, [];
    var left := values;
    ghost var done: Store := map[];
    while left != map[]
      invariant Lists(order, done) && |order| + |left| == |values|
      invariant (forall k :: k in done ==> k !in left) && done + left == values
      invariant out == ToBE(|values|, 8) + Records(order) && written == |out|
      decreases |left|
    {
      var k :| k in left;
      var v := left[k];
      RecordsAppend(order, Pair(k, v));
      Assoc(ToBE(|values|, 8), Records(order), Record(Pair(k, v)));
      out := out + (ToBE(|k|, 8) + ToBE(|v|, 8) + k + v);
      written := written + (8 + 8 + |k| + |v|);
      ListOne(order, done, k, v);
      MoveOne(done, left, values, k);
      OneLess(left, k);
      order, done, left := order + [Pair(k, v)], done[k := v], left - {k};
    }
    NoneLeft(done);
  }

  lemma ListOne(order: seq<Pair>, done: Store, k: Bytes, v: Bytes)
    requires Lists(order, done) && k !in done
    ensures Lists(order + [Pair(k, v)], done[k := v])
  {
    var order', done' := order + [Pair(k, v)], done[k := v];
    forall q | q in done' ensures exists i :: 0 <= i < |order'| && order'[i].key == q {
      if q == k {
        assert order'[|order|].key == k;
      } else {
        var i :| 0 <= i < |order| && order[i].key == q;
        assert order'[i].key == q;
      }
    }
  }

  // ---- Reading ----

  /** The width of `usize`: 32 bits in wasm32, 64 natively. */
  datatype Platform = Wasm32 | Native64 {
    function Range(): (n: nat) {
      if Wasm32? then 0x1_0000_0000 else 0x1_0000_0000_0000_0000
    }

    /** `n as usize`, for a `u64`. */
    function Cast(n: nat): (r: nat)
      ensures r <= n && (n < Range() ==> r == n)
    {
      if Wasm32? then n % 0x1_0000_0000 else n
    }
  }

  /** `Overflow` is `usize` arithmetic past the platform's range, which panics. */
  datatype Result = Ok(m: Store) | Truncated | Overflow

  /** One entry off the front: the pair and the bytes it took, or why not. */
  datatype Step = Got(p: Pair, n: nat) | Cut | Past

  /** The next entry, `used` bytes in: lengths are cast to `usize`, then added to the position. */
  function Next(b: Bytes, used: nat, u: Platform): (s: Step)
    ensures s.Got? ==> 16 <= s.n <= |b|
  {
    if |b| < 16 then Cut
    else
      var k, v := u.Cast(FromBE(b[..8])), u.Cast(FromBE(b[8..16]));
      if used + 16 + k >= u.Range() then Past
      else if |b| < 16 + k then Cut
      else if used + 16 + k + v >= u.Range() then Past
      else if |b| < 16 + k + v then Cut
      else Got(Pair(b[16..16 + k], b[16 + k..16 + k + v]), 16 + k + v)
  }

  /** A way to take entries off the front of the input. */
  type Reader = (Bytes, nat) -> Step

  function ReadRecords(next: Reader, b: Bytes, used: nat, count: nat, m: Store): (r: Result)
    decreases count
  {
    if count == 0 then Ok(m)
    else
      match next(b, used)
      case Got(p, n) =>
        if n <= |b| then ReadRecords(next, b[n..], used + n, count - 1, m[p.key := p.value]) else Truncated
      case Cut => Truncated
      case Past => Overflow
  }

  function Entries(u: Platform): (next: Reader)
    ensures forall b, used :: next(b, used) == Next(b, used, u)
  {
    (b: Bytes, used: nat) => Next(b, used, u)
  }

  function Parse(b: Bytes, u: Platform): (r: Result) {
    if |b| < 8 then Truncated else ReadRecords(Entries(u), b[8..], 8, FromBE(b[..8]), map[])
  }

  lemma TakeEntry(next: Reader, b: Bytes, used: nat, count: nat, m: Store)
    requires count > 0
    ensures ReadRecords(next, b, used, count, m) ==
            match next(b, used)
            case Got(p, n) =>
              if n <= |b| then ReadRecords(next, b[n..], used + n, count - 1, m[p.key := p.value]) else Truncated
            case Cut => Truncated
            case Past => Overflow
  {
  }

  lemma Advance(next: Reader, bytes: Bytes, pos: nat, count: nat, m: Store, s: Step)
    requires count > 0 && pos <= |bytes| && s == next(bytes[pos..], pos) && (s.Got? ==> pos + s.n <= |bytes|)
    ensures ReadRecords(next, bytes[pos..], pos, count, m) ==
            match s
            case Got(p, n) => ReadRecords(next, bytes[pos + n..], pos + n, count - 1, m[p.key := p.value])
            case Cut => Truncated
            case Past => Overflow
  {
    if s.Got? {
      DropDrop(bytes, pos, s.n);
    }
  }

  /** `snapshot_deserialize`: one running position over the input, one entry per announced count. */
  method Deserialize(bytes: Bytes, u: Platform) returns (r: Result)
    ensures r == Parse(bytes, u)
  {
    if |bytes| < 8 { return Truncated; }
    r := ReadEntries(bytes, FromBE(bytes[..8]), u, Entries(u));
  }

  method ReadEntries(bytes: Bytes, total: nat, u: Platform, ghost next: Reader) returns (r: Result)
    requires |bytes| >= 8 && forall b: Bytes, n: nat {:trigger Next(b, n, u)} :: Next(b, n, u) == next(b, n)
    ensures r == ReadRecords(next, bytes[8..], 8, total, map[])
  {
    var pos, count, m := 8, total, map[];
    ghost var want := ReadRecords(next, bytes[pos..], pos, count, m);
    while count > 0
      invariant 8 <= pos <= |bytes| && count >= 0
      invariant want == ReadRecords(next, bytes[pos..], pos, count, m)
    {
      var s := ReadRecord(bytes, pos, u);
      Advance(next, bytes, pos, count, m, s);
      match s {
        case Cut => return Truncated;
        case Past => return Overflow;
        case Got(p, n) =>
          m := m[p.key := p.value];
          pos := pos + n;
      }
      count := count - 1;
    }
    r := Ok(m);
  }

  /** Taking one entry, as the loop body does it with its running position. */
  method ReadRecord(bytes: Bytes, start: nat, u: Platform) returns (s: Step)
    requires start <= |bytes|
    ensures s == Next(bytes[start..], start, u) && (s.Got? ==> start + s.n <= |bytes|)
  {
    ghost var rest := bytes[start..];
    var pos := start;
    if |bytes| < pos + 8 { return Cut; }
    var k := u.Cast(FromBE(bytes[pos..pos + 8]));
    assert rest[..8] == bytes[pos..pos + 8];
    pos := pos + 8;
    if |bytes| < pos + 8 { return Cut; }
    var v := u.Cast(FromBE(bytes[pos..pos + 8]));
    assert rest[8..16] == bytes[pos..pos + 8];
    pos := pos + 8;
    if pos + k >= u.Range() { return Past; }
    if |bytes| < pos + k { return Cut; }
    var key := bytes[pos..pos + k];
    assert rest[16..16 + k] == key;
    pos := pos + k;
    if pos + v >= u.Range() { return Past; }
    if |bytes| < pos + v { return Cut; }
    assert rest[16 + k..16 + k + v] == bytes[pos..pos + v];
    s := Got(Pair(key, bytes[pos..pos + v]), pos + v - start);
  }

  // ---- Round trip ----

  lemma Width8()
    ensures Pow256(8) == 0x1_0000_0000_0000_0000
  {
    assert Pow256(4) == 0x1_0000_0000;
    assert Pow256(8) == 256 * (256 * (256 * (256 * Pow256(4))));
  }

  /** One record followed by anything reads as that record. */
  lemma ReadOne(p: Pair, tail: Bytes, used: nat, u: Platform)
    requires used + |Record(p)| < u.Range()
    ensures Next(Record(p) + tail, used, u) == Got(p, |Record(p)|)
  {
    var b, k, v := Record(p) + tail, |p.key|, |p.value|;
    assert b[..8] == ToBE(k, 8) && b[8..16] == ToBE(v, 8);
    assert b[16..16 + k] == p.key && b[16 + k..16 + k + v] == p.value;
    Width8();
    RoundTripBE(k, 8);
    RoundTripBE(v, 8);
  }

  /** The reader takes a whole record off any input that starts with one. */
  ghost predicate TakesRecords(next: Reader, range: nat) {
    forall p, tail, used: nat :: used + |Record(p)| < range ==> next(Record(p) + tail, used) == Got(p, |Record(p)|)
  }

  lemma {:induction false} ReadAll(next: Reader, ps: seq<Pair>, tail: Bytes, used: nat, m: Store, range: nat)
    requires TakesRecords(next, range) && used + |Records(ps)| < range
    ensures ReadRecords(next, Records(ps) + tail, used, |ps|, m) == Ok(InsertAll(m, ps))
    decreases ps
  {
    if ps == [] {
    } else {
      var n, rest := |Record(ps[0])|, Records(ps[1..]) + tail;
      assert Records(ps) + tail == Record(ps[0]) + rest;
      assert (Record(ps[0]) + rest)[n..] == rest;
      assert next(Record(ps[0]) + rest, used) == Got(ps[0], n);
      ReadAll(next, ps[1..], tail, used + n, m[ps[0].key := ps[0].value], range);
    }
  }

  lemma EntriesTakeRecords(u: Platform)
    ensures TakesRecords(Entries(u), u.Range())
  {
    forall p, tail, used: nat | used + |Record(p)| < u.Range()
      ensures Entries(u)(Record(p) + tail, used) == Got(p, |Record(p)|)
    {
      ReadOne(p, tail, used, u);
    }
  }

  lemma {:induction false} RecordsSize(ps: seq<Pair>)
    ensures 16 * |ps| <= |Records(ps)|
  {
    if ps == [] {
    } else {
      RecordsSize(ps[1..]);
    }
  }

  /**
    A dump below the platform's range reads back as the map, whatever order it was written in and
    whatever follows it.
    */
  lemma RoundTrip(ps: seq<Pair>, m: Store, tail: Bytes, u: Platform)
    requires Lists(ps, m) && |Snapshot(ps)| < u.Range()
    ensures Parse(Snapshot(ps) + tail, u) == Ok(m)
  {
    var b := Snapshot(ps) + tail;
    assert b[..8] == ToBE(|ps|, 8) && b[8..] == Records(ps) + tail;
    RecordsSize(ps);
    Width8();
    RoundTripBE(|ps|, 8);
    EntriesTakeRecords(u);
    ReadAll(Entries(u), ps, tail, 8, map[], u.Range());
    InsertAllListed(ps, m);
  }

  // ---- Truncation ----

  lemma CutOne(p: Pair, b: Bytes, used: nat, u: Platform)
    requires used + |Record(p)| < u.Range() && b < Record(p)
    ensures Next(b, used, u) == Cut
  {
    var k, v := |p.key|, |p.value|;
    Width8();
    RoundTripBE(k, 8);
    RoundTripBE(v, 8);
    if |b| >= 16 {
      assert Record(p)[..8] == ToBE(k, 8) && Record(p)[8..16] == ToBE(v, 8);
      assert b[..8] == Record(p)[..8] && b[8..16] == Record(p)[8..16];
    }
  }

  ghost predicate CutOf(b: Bytes, p: Pair) {
    b < Record(p)
  }

  /** The reader refuses a record that is cut short. */
  ghost predicate RefusesCuts(next: Reader, range: nat) {
    forall p, b, used: nat {:trigger CutOf(b, p), next(b, used)} ::
      used + |Record(p)| < range && CutOf(b, p) ==> next(b, used) == Cut
  }

  lemma SplitPrefix(head: Bytes, tail: Bytes, b: Bytes)
    requires b < head + tail
    ensures |b| < |head| ==> b < head
    ensures |b| >= |head| ==> b == head + b[|head|..] && b[|head|..] < tail
  {
    assert (head + tail)[..|head|] == head && (head + tail)[|head|..] == tail;
    if |b| < |head| {
      assert b == head[..|b|];
    } else {
      assert b[|head|..] == tail[..|b| - |head|];
    }
  }

  lemma {:induction false} CutRecords(next: Reader, ps: seq<Pair>, b: Bytes, used: nat, m: Store, range: nat)
    requires TakesRecords(next, range) && RefusesCuts(next, range)
    requires used + |Records(ps)| < range && b < Records(ps)
    ensures ReadRecords(next, b, used, |ps|, m) == Truncated
    decreases ps
  {
    var record := Record(ps[0]);
    var n := |record|;
    SplitPrefix(record, Records(ps[1..]), b);
    TakeEntry(next, b, used, |ps|, m);
    if |b| < n {
      assert CutOf(b, ps[0]) && next(b, used) == Cut;
    } else {
      assert next(record + b[n..], used) == Got(ps[0], n);
      CutRecords(next, ps[1..], b[n..], used + n, m[ps[0].key := ps[0].value], range);
    }
  }

  /** Every strict prefix of a dump is refused, never read as a smaller map. */
  lemma PrefixRefused(ps: seq<Pair>, b: Bytes, u: Platform)
    requires |Snapshot(ps)| < u.Range()
    requires b < Snapshot(ps)
    ensures Parse(b, u) == Truncated
  {
    if |b| >= 8 {
      assert Snapshot(ps)[..8] == ToBE(|ps|, 8) && Snapshot(ps)[8..] == Records(ps);
      assert b[..8] == ToBE(|ps|, 8) && b[8..] < Records(ps);
      RecordsSize(ps);
      Width8();
      RoundTripBE(|ps|, 8);
      EntriesTakeRecords(u);
      forall p, c, used: nat | used + |Record(p)| < u.Range() && c < Record(p)
        ensures Entries(u)(c, used) == Cut
      {
        CutOne(p, c, used, u);
      }
      CutRecords(Entries(u), ps, b[8..], 8, map[], u.Range());
    }
  }

  // ---- The streaming reader ----

  /** `MemoryStorage::deserialize`: the same dump off a reader, which only ever runs dry. */
  function NextFromStream(b: Bytes, u: Platform): (s: Step)
    ensures s.Got? ==> 16 <= s.n <= |b|
  {
    if |b| < 16 then Cut
    else
      var k, v := u.Cast(FromBE(b[..8])), u.Cast(FromBE(b[8..16]));
      if |b| < 16 + k + v then Cut
      else Got(Pair(b[16..16 + k], b[16 + k..16 + k + v]), 16 + k + v)
  }

  function StreamEntries(u: Platform): (next: Reader)
    ensures forall b, used :: next(b, used) == NextFromStream(b, u)
  {
    (b: Bytes, used: nat) => NextFromStream(b, u)
  }

  function ParseStream(b: Bytes, u: Platform): (r: Result) {
    if |b| < 8 then Truncated else ReadRecords(StreamEntries(u), b[8..], 8, u.Cast(FromBE(b[..8])), map[])
  }

  lemma {:induction false} StreamAgrees(next: Reader, next': Reader, b: Bytes, used: nat, count: nat, m: Store,
      range: nat)
    requires forall c, n: nat :: n + |c| < range ==> (next(c, n).Got? || next'(c, n).Got? ==> next(c, n) == next'(c, n))
    requires used + |b| < range
    ensures ReadRecords(next, b, used, count, m).Ok? <==> ReadRecords(next', b, used, count, m).Ok?
    ensures ReadRecords(next, b, used, count, m).Ok? ==>
            ReadRecords(next, b, used, count, m) == ReadRecords(next', b, used, count, m)
    decreases count
  {
    if count == 0 || !next(b, used).Got? || next(b, used).n > |b| {
    } else {
      var Got(p, n) := next(b, used);
      StreamAgrees(next, next', b[n..], used + n, count - 1, m[p.key := p.value], range);
    }
  }

  lemma NextAgrees(b: Bytes, used: nat, u: Platform)
    requires used + |b| < u.Range()
    ensures Next(b, used, u).Got? || NextFromStream(b, u).Got? ==> Next(b, used, u) == NextFromStream(b, u)
  {
  }

  lemma {:induction false} TooFewBytes(next: Reader, b: Bytes, used: nat, count: nat, m: Store)
    requires forall c, n :: next(c, n).Got? ==> next(c, n).n >= 1
    requires |b| < count
    ensures !ReadRecords(next, b, used, count, m).Ok?
    decreases count
  {
    if !next(b, used).Got? || next(b, used).n > |b| {
    } else {
      var Got(p, n) := next(b, used);
      TooFewBytes(next, b[n..], used + n, count - 1, m[p.key := p.value]);
    }
  }

  /** The number of entries the input announces. */
  function Announced(b: Bytes): (n: nat) {
    if |b| < 8 then 0 else FromBE(b[..8])
  }

  lemma AgreeInRange(b: Bytes, u: Platform)
    requires |b| < u.Range() && Announced(b) < u.Range()
    ensures Parse(b, u).Ok? <==> ParseStream(b, u).Ok?
    ensures Parse(b, u).Ok? ==> Parse(b, u) == ParseStream(b, u)
  {
    if |b| >= 8 {
      forall c, n: nat | n + |c| < u.Range()
        ensures Next(c, n, u).Got? || NextFromStream(c, u).Got? ==> Next(c, n, u) == NextFromStream(c, u)
      {
        NextAgrees(c, n, u);
      }
      StreamAgrees(Entries(u), StreamEntries(u), b[8..], 8, FromBE(b[..8]), map[], u.Range());
    }
  }

  /** The same input with its count cast to the platform's range. */
  function Recounted(b: Bytes, u: Platform): (b': Bytes)
    requires |b| >= 8
  {
    ToBE(u.Cast(Announced(b)), 8) + b[8..]
  }

  lemma StreamRecounts(b: Bytes, u: Platform)
    requires |b| >= 8
    ensures Announced(Recounted(b, u)) == u.Cast(Announced(b)) && ParseStream(Recounted(b, u), u) == ParseStream(b, u)
  {
    var n, b' := u.Cast(Announced(b)), Recounted(b, u);
    assert b'[..8] == ToBE(n, 8) && b'[8..] == b[8..];
    ToFromBE(b[..8]);
    Width8();
    RoundTripBE(n, 8);
  }

  /**
    On input within the platform's range, malformed input included: the readers accept and read the
    same if the announced count is within the range too. Beyond it the slice reader always refuses,
    while the stream reader accepts exactly what the slice reader would with the count cast.
    */
  lemma ReadersAgree(b: Bytes, u: Platform)
    requires |b| < u.Range()
    ensures Announced(b) < u.Range() ==>
              (Parse(b, u).Ok? <==> ParseStream(b, u).Ok?) && (Parse(b, u).Ok? ==> Parse(b, u) == ParseStream(b, u))
    ensures Announced(b) >= u.Range() ==>
              !Parse(b, u).Ok? && (ParseStream(b, u).Ok? <==> Parse(Recounted(b, u), u).Ok?)
  {
    if Announced(b) < u.Range() {
      AgreeInRange(b, u);
    } else {
      TooFewBytes(Entries(u), b[8..], 8, FromBE(b[..8]), map[]);
      StreamRecounts(b, u);
      CastInRange(b, u);
      AgreeInRange(Recounted(b, u), u);
    }
  }

  lemma CastInRange(b: Bytes, u: Platform)
    ensures u.Cast(Announced(b)) < u.Range()
  {
    if |b| >= 8 {
      ToFromBE(b[..8]);
      Width8();
    }
  }

  /**
    Eight bytes that announce 2^32 entries are an empty store to the one reader in wasm32 and an
    error to the other.
    */
  lemma CountWraps()
    ensures var b := ToBE(0x1_0000_0000, 8); ParseStream(b, Wasm32) == Ok(map[]) && Parse(b, Wasm32) == Truncated
  {
    var b := ToBE(0x1_0000_0000, 8);
    Width8();
    RoundTripBE(0x1_0000_0000, 8);
    assert b[..8] == b && b[8..] == [];
  }
}

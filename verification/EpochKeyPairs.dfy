/**
  Encryption key pairs per (group, epoch, leaf). The SQLite provider keeps the three in separate
  columns. The in-memory provider concatenates their JSON texts, and an epoch and a leaf index are
  both bare decimals.
  */
module EpochKeyPairs {
  import opened Bytes
  import opened Json

  datatype Triple = Triple(group: Json, epoch: Json, leaf: nat)

  /** `epoch_key_pairs_id`. */
  function Id(x: Triple): (id: Bytes) {
    Encode(x.group) + Encode(x.epoch) + Encode(Num(x.leaf))
  }

  /** With an epoch encoding that delimits itself, as group ids do, ids determine their triple. */
  lemma SelfDelimitingEpochs(x: Triple, y: Triple)
    requires !x.group.Num? && !y.group.Num? && !x.epoch.Num? && !y.epoch.Num?
    requires Id(x) == Id(y)
    ensures x == y
  {
    SameGroup(x, y);
    UniqueSplit(x.epoch, Encode(Num(x.leaf)), y.epoch, Encode(Num(y.leaf)));
    EncodeInjective(Num(x.leaf), Num(y.leaf));
  }

  lemma SameGroup(x: Triple, y: Triple)
    requires !x.group.Num? && !y.group.Num?
    ensures Id(x) == Id(y) <==>
            x.group == y.group && Encode(x.epoch) + Encode(Num(x.leaf)) == Encode(y.epoch) + Encode(Num(y.leaf))
  {
    var xs, ys := Encode(x.epoch) + Encode(Num(x.leaf)), Encode(y.epoch) + Encode(Num(y.leaf));
    assert Id(x) == Encode(x.group) + xs && Id(y) == Encode(y.group) + ys;
    if Id(x) == Id(y) {
      UniqueSplit(x.group, xs, y.group, ys);
    }
  }

  // ---- Decimal epochs ----

  function Pow10(d: nat): (p: nat)
    ensures p >= 1
  {
    if d == 0 then 1 else 10 * Pow10(d - 1)
  }

  function Digits(n: nat): (d: nat) {
    if n < 10 then 1 else 1 + Digits(n / 10)
  }

  /** The number one reads off an epoch written in front of a leaf index. */
  function Joined(e: nat, l: nat): (n: nat) {
    e * Pow10(Digits(l)) + l
  }

  /** Two (epoch, leaf) pairs that are written alike. */
  predicate Alike(e: nat, l: nat, e': nat, l': nat) {
    (e == e' && l == l') || (e > 0 && e' > 0 && Joined(e, l) == Joined(e', l'))
  }

  lemma DecimalStep(a: nat, b: nat)
    requires a > 0 && b < 10
    ensures Decimal(10 * a + b) == Decimal(a) + [ZERO + b]
  {
    assert (10 * a + b) / 10 == a && (10 * a + b) % 10 == b;
  }

  lemma JoinedStep(e: nat, l: nat)
    requires l >= 10
    ensures Joined(e, l) == 10 * Joined(e, l / 10) + l % 10
  {
    var p := Pow10(Digits(l / 10));
    assert Pow10(Digits(l)) == 10 * p;
    assert e * (10 * p) == 10 * (e * p);
  }

  lemma {:induction false} DecimalJoined(e: nat, l: nat)
    requires e > 0
    ensures Joined(e, l) > 0 && Decimal(Joined(e, l)) == Decimal(e) + Decimal(l)
  {
    if l < 10 {
      JoinedDigit(e, l);
      DecimalStep(e, l);
    } else {
      var m, h, u := Joined(e, l / 10), l / 10, l % 10;
      DecimalJoined(e, h);
      JoinedStep(e, l);
      AppendDigit(Joined(e, l), m, e, h, u);
      assert l == 10 * h + u;
    }
  }

  lemma JoinedDigit(e: nat, l: nat)
    requires l < 10
    ensures Joined(e, l) == 10 * e + l
  {
    assert Digits(l) == 1 && Pow10(1) == 10;
  }

  lemma AppendDigit(n: nat, m: nat, e: nat, h: nat, u: nat)
    requires h > 0 && u < 10 && m > 0 && n == 10 * m + u && Decimal(m) == Decimal(e) + Decimal(h)
    ensures Decimal(n) == Decimal(e) + Decimal(10 * h + u)
  {
    DecimalStep(m, u);
    DecimalStep(h, u);
    Assoc(Decimal(e), Decimal(h), [ZERO + u]);
  }

  lemma DecimalInjective(n: nat, n': nat)
    requires Decimal(n) == Decimal(n')
    ensures n == n'
  {
    DecimalDigits(n);
    DecimalDigits(n');
  }

  lemma WrittenAlike(e: nat, l: nat, e': nat, l': nat)
    ensures Decimal(e) + Decimal(l) == Decimal(e') + Decimal(l') <==> Alike(e, l, e', l')
  {
    var a, b := Decimal(e) + Decimal(l), Decimal(e') + Decimal(l');
    FirstDigit(e);
    FirstDigit(e');
    assert a[0] == Decimal(e)[0] && b[0] == Decimal(e')[0];
    if e > 0 && e' > 0 {
      DecimalJoined(e, l);
      DecimalJoined(e', l');
      if a == b {
        DecimalInjective(Joined(e, l), Joined(e', l'));
      }
    } else if e == 0 && e' == 0 && a == b {
      SplitEqual(Decimal(e), Decimal(l), Decimal(e'), Decimal(l'));
      DecimalInjective(l, l');
    }
  }

  /** Group ids are JSON objects and epochs are `u64` newtypes, which serialise as bare decimals. */
  predicate Actual(x: Triple) {
    !x.group.Num? && x.epoch.Num?
  }

  predicate Collide(x: Triple, y: Triple)
    requires Actual(x) && Actual(y)
  {
    x.group == y.group && Alike(x.epoch.n, x.leaf, y.epoch.n, y.leaf)
  }

  lemma IdsCollideIff(x: Triple, y: Triple)
    requires Actual(x) && Actual(y)
    ensures Id(x) == Id(y) <==> Collide(x, y)
  {
    SameGroup(x, y);
    WrittenAlike(x.epoch.n, x.leaf, y.epoch.n, y.leaf);
  }

  // ---- Runs ----

  datatype Op = Write(x: Triple, pairs: Json) | Delete(x: Triple)

  function MemoryRun(m: map<Bytes, Json>, ops: seq<Op>): (m': map<Bytes, Json>)
    decreases ops
  {
    if ops == [] then m
    else MemoryRun(if ops[0].Write? then m[Id(ops[0].x) := ops[0].pairs] else m - {Id(ops[0].x)}, ops[1..])
  }

  function SqlRun(db: map<Triple, Json>, ops: seq<Op>): (db': map<Triple, Json>)
    decreases ops
  {
    if ops == [] then db
    else SqlRun(if ops[0].Write? then db[ops[0].x := ops[0].pairs] else db - {ops[0].x}, ops[1..])
  }

  /** A missing entry reads as no key pairs. */
  function Read<K>(m: map<K, Json>, k: K): (pairs: Json) {
    if k in m then m[k] else Arr([])
  }

  ghost predicate Uses(ops: seq<Op>, used: set<Triple>) {
    forall i :: 0 <= i < |ops| ==> ops[i].x in used
  }

  ghost predicate AgreeOn(m: map<Bytes, Json>, db: map<Triple, Json>, used: set<Triple>) {
    forall x :: x in used ==> Read(m, Id(x)) == Read(db, x)
  }

  lemma {:induction false} RunsAgree(m: map<Bytes, Json>, db: map<Triple, Json>, ops: seq<Op>, used: set<Triple>)
    requires forall x, y :: x in used && y in used && Id(x) == Id(y) ==> x == y
    requires Uses(ops, used) && AgreeOn(m, db, used)
    ensures AgreeOn(MemoryRun(m, ops), SqlRun(db, ops), used)
    decreases ops
  {
    if ops == [] {
    } else {
      var x := ops[0].x;
      var m' := if ops[0].Write? then m[Id(x) := ops[0].pairs] else m - {Id(x)};
      var db' := if ops[0].Write? then db[x := ops[0].pairs] else db - {x};
      assert ops[0].x in used;
      RunsAgree(m', db', ops[1..], used);
    }
  }

  /** Every run over these triples reads back alike from both providers. */
  ghost predicate Independent(used: set<Triple>) {
    forall ops :: Uses(ops, used) ==> AgreeOn(MemoryRun(map[], ops), SqlRun(map[], ops), used)
  }

  /**
    The in-memory provider keeps a set of triples as independent as the SQLite columns do if and
    only if no two of them share a group and write their epoch and leaf alike.
    */
  lemma IndependentIff(used: set<Triple>)
    requires forall x :: x in used ==> Actual(x)
    ensures Independent(used) <==> forall x, y :: x in used && y in used && Collide(x, y) ==> x == y
  {
    forall x, y | x in used && y in used
      ensures Id(x) == Id(y) <==> Collide(x, y)
    {
      IdsCollideIff(x, y);
    }
    if forall x, y :: x in used && y in used && Collide(x, y) ==> x == y {
      forall ops | Uses(ops, used)
        ensures AgreeOn(MemoryRun(map[], ops), SqlRun(map[], ops), used)
      {
        RunsAgree(map[], map[], ops, used);
      }
    } else {
      var x, y :| x in used && y in used && Collide(x, y) && x != y;
      var pairs := Arr([Num(0)]);
      var ops := [Write(x, pairs)];
      assert Uses(ops, used) && ops[1..] == [];
      assert MemoryRun(map[], ops) == map[Id(x) := pairs];
      assert SqlRun(map[], ops) == map[x := pairs];
      assert !AgreeOn(MemoryRun(map[], ops), SqlRun(map[], ops), used);
    }
  }

  /** One leaf index per group is enough. */
  lemma FixedLeafIndependent(used: set<Triple>)
    requires forall x :: x in used ==> Actual(x)
    requires forall x, y :: x in used && y in used && x.group == y.group ==> x.leaf == y.leaf
    ensures Independent(used)
  {
    forall x, y | x in used && y in used && Collide(x, y)
      ensures x == y
    {
      var p := Pow10(Digits(x.leaf));
      assert x.epoch.n > 0 ==> (x.epoch.n - y.epoch.n) * p == 0;
    }
    IndependentIff(used);
  }

  /** Epoch 1 at leaf 11 and epoch 11 at leaf 1 are one entry. */
  lemma EpochsMixUp(group: Json)
    requires !group.Num?
    ensures Id(Triple(group, Num(1), 11)) == Id(Triple(group, Num(11), 1))
    ensures !Independent({Triple(group, Num(1), 11), Triple(group, Num(11), 1)})
  {
    var x, y := Triple(group, Num(1), 11), Triple(group, Num(11), 1);
    assert Pow10(1) == 10 && Pow10(2) == 100;
    assert Collide(x, y);
    IdsCollideIff(x, y);
    IndependentIff({x, y});
  }
}

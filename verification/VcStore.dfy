/**
  Virtual-client state, once per provider.

  A key package reference holds retained material, and the material keeps the state of the
  emulation epoch it was derived from alive. The in-memory provider stores the material and the
  epoch it names as two entries; the SQLite provider stores one row with an epoch column.
  */
module VcStore {
  import opened Bytes
  import opened Json

  /** One key package of a batch; `None` is a value that does not serialise. */
  datatype Material = Material(ref: Option<Json>, record: Option<Json>) {
    predicate Writable() {
      ref.Some? && record.Some?
    }
  }

  datatype Call =
    | WriteBatch(e: Json, tree: Option<Json>, mats: seq<Material>)
    | WriteTree(e: Json, value: Json)
    | WriteEmulation(e: Json, value: Json)
    | WritePackage(r: Json, value: Json)
    | DeleteIfUnreferenced(e: Json)
    | DeleteMaterial(r: Json)
    | DeletePackage(r: Json)
    | ReadMaterial(r: Json)
    | ReadTree(e: Json)
    | ReadEmulation(e: Json)
    | ReadPackage(r: Json)
    | HasMaterial(e: Json)

  datatype Answer = Done | Failed | Flag(b: bool) | Found(value: Option<Json>)

  function Get(m: map<Json, Json>, k: Json): (v: Option<Json>) {
    if k in m then Some(m[k]) else None
  }

  // ---- In memory ----

  datatype Memory = Memory(
    material: map<Json, Json>,
    tags: map<Json, Json>,
    trees: map<Json, Json>,
    emulation: map<Json, Json>,
    packages: map<Json, Json>)

  const EMPTY_MEMORY := Memory(map[], map[], map[], map[], map[])

  /** The liveness scan: some reference is tagged with the epoch. */
  predicate Referenced(s: Memory, e: Json) {
    exists r :: r in s.tags && s.tags[r] == e
  }

  /** The batch loop; it stops at the first record that does not serialise and keeps the ones before. */
  function PutMaterials(s: Memory, e: Json, mats: seq<Material>): (r: (Memory, bool))
    decreases mats
  {
    if mats == [] then (s, true)
    else if !mats[0].Writable() then (s, false)
    else
      var r := mats[0].ref.value;
      PutMaterials(s.(material := s.material[r := mats[0].record.value], tags := s.tags[r := e]), e, mats[1..])
  }

  function PutBatch(s: Memory, e: Json, tree: Option<Json>, mats: seq<Material>): (r: (Memory, bool)) {
    if tree.None? then (s, false) else PutMaterials(s.(trees := s.trees[e := tree.value]), e, mats)
  }

  function DropIfUnreferenced(s: Memory, e: Json): (r: (Memory, bool)) {
    if Referenced(s, e) then (s, false)
    else (s.(emulation := s.emulation - {e}, trees := s.trees - {e}), true)
  }

  function MemoryCall(s: Memory, c: Call): (r: (Memory, Answer)) {
    match c
    case WriteBatch(e, tree, mats) =>
      var (s', ok) := PutBatch(s, e, tree, mats);
      (s', if ok then Done else Failed)
    case WriteTree(e, v) => (s.(trees := s.trees[e := v]), Done)
    case WriteEmulation(e, v) => (s.(emulation := s.emulation[e := v]), Done)
    case WritePackage(r, v) => (s.(packages := s.packages[r := v]), Done)
    case DeleteIfUnreferenced(e) =>
      var (s', deleted) := DropIfUnreferenced(s, e);
      (s', Flag(deleted))
    case DeleteMaterial(r) => (s.(material := s.material - {r}, tags := s.tags - {r}), Done)
    case DeletePackage(r) =>
      (s.(material := s.material - {r}, tags := s.tags - {r}, packages := s.packages - {r}), Done)
    case ReadMaterial(r) => (s, Found(Get(s.material, r)))
    case ReadTree(e) => (s, Found(Get(s.trees, e)))
    case ReadEmulation(e) => (s, Found(Get(s.emulation, e)))
    case ReadPackage(r) => (s, Found(Get(s.packages, r)))
    case HasMaterial(e) => (s, Flag(Referenced(s, e)))
  }

  // ---- SQLite ----

  datatype Row = Row(epoch: Json, record: Json)

  datatype Db = Db(
    rows: map<Json, Row>,
    trees: map<Json, Json>,
    emulation: map<Json, Json>,
    packages: map<Json, Json>)

  const EMPTY_DB := Db(map[], map[], map[], map[])

  /** SELECT EXISTS on the epoch column. */
  predicate HasRow(db: Db, e: Json) {
    exists r :: r in db.rows && db.rows[r].epoch == e
  }

  function UpsertRows(db: Db, e: Json, mats: seq<Material>): (r: (Db, bool))
    decreases mats
  {
    if mats == [] then (db, true)
    else if !mats[0].Writable() then (db, false)
    else UpsertRows(db.(rows := db.rows[mats[0].ref.value := Row(e, mats[0].record.value)]), e, mats[1..])
  }

  function UpsertBatch(db: Db, e: Json, tree: Option<Json>, mats: seq<Material>): (r: (Db, bool)) {
    if tree.None? then (db, false) else UpsertRows(db.(trees := db.trees[e := tree.value]), e, mats)
  }

  function SqlCall(db: Db, c: Call): (r: (Db, Answer)) {
    match c
    case WriteBatch(e, tree, mats) =>
      var (db', ok) := UpsertBatch(db, e, tree, mats);
      (db', if ok then Done else Failed)
    case WriteTree(e, v) => (db.(trees := db.trees[e := v]), Done)
    case WriteEmulation(e, v) => (db.(emulation := db.emulation[e := v]), Done)
    case WritePackage(r, v) => (db.(packages := db.packages[r := v]), Done)
    case DeleteIfUnreferenced(e) =>
      if HasRow(db, e) then (db, Flag(false))
      else (db.(emulation := db.emulation - {e}, trees := db.trees - {e}), Flag(true))
    case DeleteMaterial(r) => (db.(rows := db.rows - {r}), Done)
    case DeletePackage(r) => (db.(rows := db.rows - {r}, packages := db.packages - {r}), Done)
    case ReadMaterial(r) => (db, Found(if r in db.rows then Some(db.rows[r].record) else None))
    case ReadTree(e) => (db, Found(Get(db.trees, e)))
    case ReadEmulation(e) => (db, Found(Get(db.emulation, e)))
    case ReadPackage(r) => (db, Found(Get(db.packages, r)))
    case HasMaterial(e) => (db, Flag(HasRow(db, e)))
  }

  // ---- The providers answer alike ----

  /** Each row is a material and the tag beside it. */
  ghost predicate Same(s: Memory, db: Db) {
    && s.material.Keys == s.tags.Keys == db.rows.Keys
    && (forall r :: r in db.rows ==> db.rows[r] == Row(s.tags[r], s.material[r]))
    && s.trees == db.trees && s.emulation == db.emulation && s.packages == db.packages
  }

  lemma {:induction false} BatchesAgree(s: Memory, db: Db, e: Json, mats: seq<Material>)
    requires Same(s, db)
    ensures Same(PutMaterials(s, e, mats).0, UpsertRows(db, e, mats).0)
    ensures PutMaterials(s, e, mats).1 == UpsertRows(db, e, mats).1
    decreases mats
  {
    if mats == [] || !mats[0].Writable() {
    } else {
      var r := mats[0].ref.value;
      var s' := s.(material := s.material[r := mats[0].record.value], tags := s.tags[r := e]);
      var db' := db.(rows := db.rows[r := Row(e, mats[0].record.value)]);
      assert s'.material.Keys == s.material.Keys + {r};
      assert s'.tags.Keys == s.tags.Keys + {r};
      assert db'.rows.Keys == db.rows.Keys + {r};
      BatchesAgree(s', db', e, mats[1..]);
    }
  }

  lemma LivenessAgrees(s: Memory, db: Db, e: Json)
    requires Same(s, db)
    ensures Referenced(s, e) <==> HasRow(db, e)
  {
    if r :| r in s.tags && s.tags[r] == e {
      assert r in db.rows && db.rows[r].epoch == e;
    }
    if r :| r in db.rows && db.rows[r].epoch == e {
      assert r in s.tags && s.tags[r] == e;
    }
  }

  lemma CallsAgree(s: Memory, db: Db, c: Call)
    requires Same(s, db)
    ensures Same(MemoryCall(s, c).0, SqlCall(db, c).0)
    ensures MemoryCall(s, c).1 == SqlCall(db, c).1
  {
    match c
    case WriteBatch(e, tree, mats) =>
      if tree.Some? {
        BatchesAgree(s.(trees := s.trees[e := tree.value]), db.(trees := db.trees[e := tree.value]), e, mats);
      }
    case DeleteIfUnreferenced(e) => LivenessAgrees(s, db, e);
    case HasMaterial(e) => LivenessAgrees(s, db, e);
    case _ =>
  }

  function MemoryAnswers(s: Memory, calls: seq<Call>): (a: seq<Answer>)
    decreases calls
  {
    if calls == [] then [] else [MemoryCall(s, calls[0]).1] + MemoryAnswers(MemoryCall(s, calls[0]).0, calls[1..])
  }

  function SqlAnswers(db: Db, calls: seq<Call>): (a: seq<Answer>)
    decreases calls
  {
    if calls == [] then [] else [SqlCall(db, calls[0]).1] + SqlAnswers(SqlCall(db, calls[0]).0, calls[1..])
  }

  lemma {:induction false} AnswersAgreeFrom(s: Memory, db: Db, calls: seq<Call>)
    requires Same(s, db)
    ensures MemoryAnswers(s, calls) == SqlAnswers(db, calls)
    decreases calls
  {
    if calls == [] {
    } else {
      CallsAgree(s, db, calls[0]);
      AnswersAgreeFrom(MemoryCall(s, calls[0]).0, SqlCall(db, calls[0]).0, calls[1..]);
    }
  }

  /** On every sequential run, failing batches included, the two providers give the same answers. */
  lemma ProvidersAgree(calls: seq<Call>)
    ensures MemoryAnswers(EMPTY_MEMORY, calls) == SqlAnswers(EMPTY_DB, calls)
  {
    AnswersAgreeFrom(EMPTY_MEMORY, EMPTY_DB, calls);
  }

  lemma Retagged(s: Memory, s': Memory, r: Json, e: Json, e': Json)
    requires s'.tags == s.tags[r := e]
    ensures Referenced(s', e') <==> e' == e || exists q :: q != r && q in s.tags && s.tags[q] == e'
  {
    assert r in s'.tags && s'.tags[r] == e;
    if q :| q in s'.tags && s'.tags[q] == e' {
      assert q == r || (q in s.tags && s.tags[q] == e');
    }
    if q :| q != r && q in s.tags && s.tags[q] == e' {
      assert q in s'.tags && s'.tags[q] == e';
    }
  }

  lemma WriteOne(s: Memory, e: Json, tree: Json, r: Json, record: Json)
    ensures var c := WriteBatch(e, Some(tree), [Material(Some(r), Some(record))]);
            MemoryCall(s, c).0.tags == s.tags[r := e]
  {
    var mats := [Material(Some(r), Some(record))];
    var s1 := s.(trees := s.trees[e := tree]);
    var s2 := s1.(material := s1.material[r := record], tags := s1.tags[r := e]);
    assert mats[1..] == [];
    assert PutMaterials(s1, e, mats) == PutMaterials(s2, e, mats[1..]) == (s2, true);
  }

  /** Writing a reference again under another epoch moves its reference there, in both providers. */
  lemma RewriteMovesReference(s: Memory, db: Db, e: Json, tree: Json, r: Json, record: Json, e': Json)
    requires Same(s, db)
    ensures var c := WriteBatch(e, Some(tree), [Material(Some(r), Some(record))]);
            var s', db' := MemoryCall(s, c).0, SqlCall(db, c).0;
            && (Referenced(s', e') <==> e' == e || exists q :: q != r && q in s.tags && s.tags[q] == e')
            && (HasRow(db', e') <==> Referenced(s', e'))
  {
    var c := WriteBatch(e, Some(tree), [Material(Some(r), Some(record))]);
    WriteOne(s, e, tree, r, record);
    Retagged(s, MemoryCall(s, c).0, r, e, e');
    CallsAgree(s, db, c);
    LivenessAgrees(MemoryCall(s, c).0, SqlCall(db, c).0, e');
  }
}

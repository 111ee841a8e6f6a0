/**
  Concurrent calls to the SQLite provider, one step per SQL statement, and the same calls run as
  transactions. A batch is an upsert of the tree and then one upsert per record; a conditional
  delete is a liveness query, a delete of the emulation state and a delete of the tree.
  */
module VcStatements {
  import opened Bytes
  import opened Json
  import opened VcStore

  /** No row names an epoch whose operation tree is gone. */
  ghost predicate NoOrphan(db: Db) {
    forall r :: r in db.rows ==> db.rows[r].epoch in db.trees
  }

  // ---- Transactions ----

  /** A call as one transaction: all of it, or nothing if it fails. */
  function Transaction(db: Db, c: Call): (db': Db) {
    if SqlCall(db, c).1 == Failed then db else SqlCall(db, c).0
  }

  function Transactions(db: Db, calls: seq<Call>): (db': Db)
    decreases calls
  {
    if calls == [] then db else Transactions(Transaction(db, calls[0]), calls[1..])
  }

  lemma {:induction false} UpsertKeepsTrees(db: Db, e: Json, mats: seq<Material>)
    requires NoOrphan(db) && e in db.trees
    ensures NoOrphan(UpsertRows(db, e, mats).0)
    ensures UpsertRows(db, e, mats).0.emulation == db.emulation
    decreases mats
  {
    if mats == [] || !mats[0].Writable() {
    } else {
      UpsertKeepsTrees(db.(rows := db.rows[mats[0].ref.value := Row(e, mats[0].record.value)]), e, mats[1..]);
    }
  }

  lemma TransactionKeeps(db: Db, c: Call)
    requires NoOrphan(db)
    ensures NoOrphan(Transaction(db, c))
    ensures forall e :: HasRow(db, e) && e in db.emulation ==> e in Transaction(db, c).emulation
  {
    if c.WriteBatch? && c.tree.Some? {
      UpsertKeepsTrees(db.(trees := db.trees[c.e := c.tree.value]), c.e, c.mats);
    }
    if c.DeleteIfUnreferenced? && !HasRow(db, c.e) {
      forall r | r in db.rows
        ensures db.rows[r].epoch != c.e
      {
      }
    }
  }

  /** With a transaction around every call, no run orphans a row or the state its epoch needs. */
  lemma {:induction false} TransactionsKeep(db: Db, calls: seq<Call>, c: Call)
    requires NoOrphan(db)
    ensures var db' := Transactions(db, calls);
            NoOrphan(db') && forall e :: HasRow(db', e) && e in db'.emulation ==> e in Transaction(db', c).emulation
    decreases calls
  {
    if calls == [] {
      TransactionKeeps(db, c);
    } else {
      TransactionKeeps(db, calls[0]);
      TransactionsKeep(Transaction(db, calls[0]), calls[1..], c);
    }
  }

  // ---- Single statements ----

  /** What a call still has to execute. */
  datatype Phase =
    | Rows(e: Json, mats: seq<Material>)
    | DropState(e: Json)
    | DropTree(e: Json)
    | DropPackage(r: Json)

  datatype System = System(db: Db, calls: map<nat, Phase>)

  datatype Step =
    | BeginBatch(tid: nat, e: Json, tree: Option<Json>, mats: seq<Material>)
    | BeginDelete(tid: nat, e: Json)
    | BeginPackage(tid: nat, r: Json)
    | Single(c: Call)
    | Continue(tid: nat)

  /** The calls that are one statement. */
  predicate OneStatement(c: Call) {
    !c.WriteBatch? && !c.DeleteIfUnreferenced? && !c.DeletePackage?
  }

  predicate Enabled(s: System, step: Step) {
    match step
    case BeginBatch(tid, _, _, _) => tid !in s.calls
    case BeginDelete(tid, _) => tid !in s.calls
    case BeginPackage(tid, _) => tid !in s.calls
    case Single(c) => OneStatement(c)
    case Continue(tid) => tid in s.calls
  }

  function Next(s: System, step: Step): (s': System) {
    if !Enabled(s, step) then s
    else
      match step
      case BeginBatch(tid, e, tree, mats) =>
        if tree.None? then s
        else System(s.db.(trees := s.db.trees[e := tree.value]), s.calls[tid := Rows(e, mats)])
      case BeginDelete(tid, e) =>
        if HasRow(s.db, e) then s else s.(calls := s.calls[tid := DropState(e)])
      case BeginPackage(tid, r) =>
        System(s.db.(rows := s.db.rows - {r}), s.calls[tid := DropPackage(r)])
      case Single(c) => s.(db := SqlCall(s.db, c).0)
      case Continue(tid) =>
        match s.calls[tid]
        case Rows(e, mats) =>
          if mats == [] || !mats[0].Writable() then s.(calls := s.calls - {tid})
          else
            System(s.db.(rows := s.db.rows[mats[0].ref.value := Row(e, mats[0].record.value)]),
                   s.calls[tid := Rows(e, mats[1..])])
        case DropState(e) =>
          System(s.db.(emulation := s.db.emulation - {e}), s.calls[tid := DropTree(e)])
        case DropTree(e) => System(s.db.(trees := s.db.trees - {e}), s.calls - {tid})
        case DropPackage(r) => System(s.db.(packages := s.db.packages - {r}), s.calls - {tid})
  }

  function Run(s: System, tids: seq<nat>): (s': System)
    decreases tids
  {
    if tids == [] then s else Run(Next(s, Continue(tids[0])), tids[1..])
  }

  lemma {:induction false} RunOver(s: System, tids: seq<nat>)
    requires forall i :: 0 <= i < |tids| ==> tids[i] !in s.calls
    ensures Run(s, tids) == s
  {
    if tids == [] {
    } else {
      RunOver(s, tids[1..]);
    }
  }

  /** Statement by statement and alone, a batch is the call of that name, stopping where that stops. */
  lemma {:induction false} SoloRows(s: System, tid: nat)
    requires tid in s.calls && s.calls[tid].Rows?
    ensures Run(s, seq(|s.calls[tid].mats| + 1, _ => tid)) ==
            System(UpsertRows(s.db, s.calls[tid].e, s.calls[tid].mats).0, s.calls - {tid})
    decreases s.calls[tid].mats
  {
    var mats := s.calls[tid].mats;
    var tids := seq(|mats| + 1, _ => tid);
    var s' := Next(s, Continue(tid));
    assert tids[1..] == seq(|mats|, _ => tid);
    if mats == [] || !mats[0].Writable() {
      RunOver(s', tids[1..]);
    } else {
      SoloRows(s', tid);
      assert s'.calls - {tid} == s.calls - {tid};
    }
  }

  lemma SoloBatch(db: Db, e: Json, tree: Option<Json>, mats: seq<Material>)
    ensures Run(Next(System(db, map[]), BeginBatch(0, e, tree, mats)), seq(|mats| + 1, _ => 0)) ==
            System(SqlCall(db, WriteBatch(e, tree, mats)).0, map[])
  {
    var s := Next(System(db, map[]), BeginBatch(0, e, tree, mats));
    if tree.None? {
      RunOver(s, seq(|mats| + 1, _ => 0));
    } else {
      SoloRows(s, 0);
      assert s.calls - {0} == map[];
    }
  }

  lemma SoloPackage(db: Db, r: Json)
    ensures Run(Next(System(db, map[]), BeginPackage(0, r)), [0]) == System(SqlCall(db, DeletePackage(r)).0, map[])
  {
    var s := Next(System(db, map[]), BeginPackage(0, r));
    RunOne(s, 0);
    assert s.calls - {0} == map[];
  }

  lemma SoloDelete(db: Db, e: Json)
    ensures Run(Next(System(db, map[]), BeginDelete(0, e)), [0, 0]) ==
            System(SqlCall(db, DeleteIfUnreferenced(e)).0, map[])
  {
    var s := Next(System(db, map[]), BeginDelete(0, e));
    RunOne(s, 0);
    RunAppend(s, [0], 0);
    assert [0] + [0] == [0, 0];
    assert map[0 := DropTree(e)] - {0} == map[];
  }

  /** The state of an epoch that a row names stays. */
  ghost predicate KeepsNamed(db: Db, db': Db) {
    forall e :: HasRow(db, e) && e in db.emulation ==> e in db'.emulation
  }

  /** Whatever order the statements in flight execute in, no row is orphaned and no named state goes. */
  ghost predicate Finishes(s: System) {
    && (forall tids :: NoOrphan(Run(s, tids).db))
    && (forall tids, tid :: KeepsNamed(Run(s, tids).db, Next(Run(s, tids), Continue(tid)).db))
  }

  /** Some call has seen the epoch unreferenced and has yet to delete its tree. */
  ghost predicate Dropping(s: System, e: Json) {
    exists tid :: tid in s.calls && (s.calls[tid].DropState? || s.calls[tid].DropTree?) && s.calls[tid].e == e
  }

  predicate Writes(p: Phase, e: Json) {
    p.Rows? && p.e == e && p.mats != [] && p.mats[0].Writable()
  }

  /** Some batch has stored the epoch's tree and has yet to store a row for it. */
  ghost predicate Writing(s: System, e: Json) {
    exists tid :: tid in s.calls && Writes(s.calls[tid], e)
  }

  ghost predicate Safe(s: System) {
    && NoOrphan(s.db)
    && (forall e :: Dropping(s, e) ==> !HasRow(s.db, e) && !Writing(s, e))
    && (forall e :: Writing(s, e) ==> e in s.db.trees)
  }

  lemma RunOne(s: System, tid: nat)
    ensures Run(s, [tid]) == Next(s, Continue(tid))
  {
    assert [tid][1..] == [];
    assert Run(s, [tid]) == Run(Next(s, Continue(tid)), [tid][1..]);
  }

  lemma RunAppend(s: System, tids: seq<nat>, tid: nat)
    ensures Run(s, tids + [tid]) == Next(Run(s, tids), Continue(tid))
    decreases tids
  {
    if tids == [] {
      RunOne(s, tid);
      assert tids + [tid] == [tid];
    } else {
      RunAppend(Next(s, Continue(tids[0])), tids[1..], tid);
      assert (tids + [tid])[1..] == tids[1..] + [tid];
    }
  }

  lemma FewerCalls(s: System, s': System)
    requires forall t :: t in s'.calls ==> t in s.calls && Later(s.calls[t], s'.calls[t])
    ensures forall e :: Dropping(s', e) ==> Dropping(s, e)
    ensures forall e :: Writing(s', e) ==> Writing(s, e)
  {
    forall e | Dropping(s', e) ensures Dropping(s, e) {
      var t :| t in s'.calls && (s'.calls[t].DropState? || s'.calls[t].DropTree?) && s'.calls[t].e == e;
      assert t in s.calls && Later(s.calls[t], s'.calls[t]);
    }
    forall e | Writing(s', e) ensures Writing(s, e) {
      var t :| t in s'.calls && Writes(s'.calls[t], e);
      assert t in s.calls && Later(s.calls[t], s'.calls[t]);
    }
  }

  /** A phase and one that a call in it may get to. */
  predicate Later(p: Phase, p': Phase) {
    || p == p'
    || (p.DropState? && p' == DropTree(p.e))
    || (p.Rows? && p.mats != [] && p.mats[0].Writable() && p' == Rows(p.e, p.mats[1..]))
  }

  lemma ContinueStaysSafe(s: System, tid: nat)
    requires Safe(s)
    ensures Safe(Next(s, Continue(tid))) && KeepsNamed(s.db, Next(s, Continue(tid)).db)
  {
    var s' := Next(s, Continue(tid));
    FewerCalls(s, s');
    if tid in s.calls {
      match s.calls[tid]
      case Rows(e, mats) =>
        if mats != [] && mats[0].Writable() {
          assert Writing(s, e);
          forall f | HasRow(s'.db, f) ensures HasRow(s.db, f) || f == e {
            var r :| r in s'.db.rows && s'.db.rows[r].epoch == f;
          }
        }
      case DropState(e) =>
        assert Dropping(s, e);
      case DropTree(e) =>
        assert Dropping(s, e);
        forall r | r in s.db.rows ensures s.db.rows[r].epoch != e {
          assert !HasRow(s.db, e);
        }
      case DropPackage(r) =>
    }
  }

  lemma {:induction false} SafeRuns(s: System, tids: seq<nat>)
    requires Safe(s)
    ensures Safe(Run(s, tids))
    decreases tids
  {
    if tids == [] {
    } else {
      ContinueStaysSafe(s, tids[0]);
      SafeRuns(Next(s, Continue(tids[0])), tids[1..]);
    }
  }

  /** A delete past its liveness query removes the tree in at most two more statements. */
  lemma DropsTree(s: System, e: Json) returns (tids: seq<nat>)
    requires Dropping(s, e)
    ensures Run(s, tids).db.rows == s.db.rows && e !in Run(s, tids).db.trees
    ensures forall t :: t in s.calls && s.calls[t].Rows? ==>
              t in Run(s, tids).calls && Run(s, tids).calls[t] == s.calls[t]
  {
    var tid :| tid in s.calls && (s.calls[tid].DropState? || s.calls[tid].DropTree?) && s.calls[tid].e == e;
    RunOne(s, tid);
    if s.calls[tid].DropTree? {
      tids := [tid];
    } else {
      tids := [tid] + [tid];
      RunAppend(s, [tid], tid);
    }
  }

  lemma UnsafeFails(s: System)
    requires !Safe(s)
    ensures !Finishes(s)
  {
    if !NoOrphan(s.db) {
      assert !NoOrphan(Run(s, []).db);
    } else if e :| Writing(s, e) && e !in s.db.trees {
      var tid :| tid in s.calls && Writes(s.calls[tid], e);
      RunOne(s, tid);
      WriteWithoutTree(s, tid, e);
      assert !NoOrphan(Run(s, [tid]).db);
    } else {
      var e :| Dropping(s, e) && (HasRow(s.db, e) || Writing(s, e));
      var tids := DropsTree(s, e);
      var s' := Run(s, tids);
      if HasRow(s.db, e) {
        var r :| r in s.db.rows && s.db.rows[r].epoch == e;
        assert r in s'.db.rows && s'.db.rows[r].epoch !in s'.db.trees;
        assert !NoOrphan(Run(s, tids).db);
      } else {
        var tid :| tid in s.calls && Writes(s.calls[tid], e);
        RunAppend(s, tids, tid);
        WriteWithoutTree(s', tid, e);
        assert !NoOrphan(Run(s, tids + [tid]).db);
      }
    }
  }

  lemma WriteWithoutTree(s: System, tid: nat, e: Json)
    requires tid in s.calls && Writes(s.calls[tid], e) && e !in s.db.trees
    ensures !NoOrphan(Next(s, Continue(tid)).db)
  {
    var r := s.calls[tid].mats[0].ref.value;
    var db := Next(s, Continue(tid)).db;
    assert r in db.rows && db.rows[r].epoch == e;
  }

  /**
    Without transactions, the statements in flight can finish in any order without orphaning a row
    or its epoch's state if and only if no delete past its liveness query shares its epoch with a stored row or with a
    batch that still has a row to store, and every such batch finds its tree in place.
    */
  lemma FinishesIff(s: System)
    ensures Finishes(s) <==> Safe(s)
  {
    if Safe(s) {
      forall tids ensures NoOrphan(Run(s, tids).db) {
        SafeRuns(s, tids);
      }
      forall tids, tid ensures KeepsNamed(Run(s, tids).db, Next(Run(s, tids), Continue(tid)).db) {
        SafeRuns(s, tids);
        ContinueStaysSafe(Run(s, tids), tid);
      }
    } else {
      UnsafeFails(s);
    }
  }

  // ---- Every run of statements ----

  const START := System(EMPTY_DB, map[])

  /**
    A batch with a row to store begins while its epoch is being dropped, or a delete passes its
    liveness query while a batch still has a row to store for its epoch.
    */
  ghost predicate Clashes(s: System, step: Step) {
    || (step.BeginBatch? && step.tid !in s.calls && step.tree.Some? && Writes(Rows(step.e, step.mats), step.e)
       && Dropping(s, step.e))
    || (step.BeginDelete? && step.tid !in s.calls && !HasRow(s.db, step.e) && Writing(s, step.e))
  }

  ghost predicate Disciplined(s: System, steps: seq<Step>)
    decreases steps
  {
    steps == [] || (!Clashes(s, steps[0]) && Disciplined(Next(s, steps[0]), steps[1..]))
  }

  /** At every point of the run, no step takes named state and the statements in flight can finish. */
  ghost predicate AlwaysFinishes(s: System, steps: seq<Step>)
    decreases steps
  {
    && Finishes(s)
    && (steps == [] || (KeepsNamed(s.db, Next(s, steps[0]).db) && AlwaysFinishes(Next(s, steps[0]), steps[1..])))
  }

  /** One more call in flight. */
  lemma MoreCalls(s: System, s': System, tid: nat, p: Phase)
    requires tid !in s.calls && s'.calls == s.calls[tid := p]
    ensures forall e :: Dropping(s', e) <==> Dropping(s, e) || ((p.DropState? || p.DropTree?) && p.e == e)
    ensures forall e :: Writing(s', e) <==> Writing(s, e) || Writes(p, e)
  {
    assert s'.calls[tid] == p;
    forall e ensures Dropping(s', e) <==> Dropping(s, e) || ((p.DropState? || p.DropTree?) && p.e == e) {
      if t :| t in s.calls && (s.calls[t].DropState? || s.calls[t].DropTree?) && s.calls[t].e == e {
        assert t in s'.calls && s'.calls[t] == s.calls[t];
      }
    }
    forall e ensures Writing(s', e) <==> Writing(s, e) || Writes(p, e) {
      if t :| t in s.calls && Writes(s.calls[t], e) {
        assert t in s'.calls && s'.calls[t] == s.calls[t];
      }
    }
  }

  lemma BatchSafeIff(s: System, step: Step)
    requires Safe(s) && step.BeginBatch?
    ensures Safe(Next(s, step)) <==> !Clashes(s, step)
  {
    if step.tid !in s.calls && step.tree.Some? {
      MoreCalls(s, Next(s, step), step.tid, Rows(step.e, step.mats));
      assert forall e :: HasRow(Next(s, step).db, e) <==> HasRow(s.db, e);
    }
  }

  lemma DeleteSafeIff(s: System, step: Step)
    requires Safe(s) && step.BeginDelete?
    ensures Safe(Next(s, step)) <==> !Clashes(s, step)
  {
    if step.tid !in s.calls && !HasRow(s.db, step.e) {
      MoreCalls(s, Next(s, step), step.tid, DropState(step.e));
    }
  }

  lemma RemovalSafe(s: System, s': System)
    requires Safe(s)
    requires s'.db.rows.Keys <= s.db.rows.Keys && forall r :: r in s'.db.rows ==> s'.db.rows[r] == s.db.rows[r]
    requires s.db.trees.Keys <= s'.db.trees.Keys
    requires forall e :: Dropping(s', e) ==> Dropping(s, e)
    requires forall e :: Writing(s', e) ==> Writing(s, e)
    ensures Safe(s')
  {
    forall e | HasRow(s'.db, e) ensures HasRow(s.db, e) {
      var r :| r in s'.db.rows && s'.db.rows[r].epoch == e;
      assert r in s.db.rows && s.db.rows[r].epoch == e;
    }
  }

  /** The steps that endanger a safe state are exactly those that clash. */
  lemma NextSafeIff(s: System, step: Step)
    requires Safe(s)
    ensures Safe(Next(s, step)) <==> !Clashes(s, step)
    ensures KeepsNamed(s.db, Next(s, step).db)
  {
    var s' := Next(s, step);
    match step
    case BeginBatch(_, _, _, _) => BatchSafeIff(s, step);
    case BeginDelete(_, _) => DeleteSafeIff(s, step);
    case BeginPackage(tid, r) =>
      if tid !in s.calls {
        MoreCalls(s, s', tid, DropPackage(r));
        RemovalSafe(s, s');
      }
    case Single(c) =>
      FewerCalls(s, s');
      RemovalSafe(s, s');
    case Continue(tid) => ContinueStaysSafe(s, tid);
  }

  lemma {:induction false} AlwaysFinishesFrom(s: System, steps: seq<Step>)
    requires Safe(s)
    ensures AlwaysFinishes(s, steps) <==> Disciplined(s, steps)
    decreases steps
  {
    FinishesIff(s);
    if steps == [] {
    } else {
      var s' := Next(s, steps[0]);
      NextSafeIff(s, steps[0]);
      FinishesIff(s');
      if Safe(s') {
        AlwaysFinishesFrom(s', steps[1..]);
      }
    }
  }

  /**
    Without transactions, a run of single statements can at every point finish without orphaning a
    row or the state of its epoch if and only if no batch with a row to store begins while its
    epoch is being dropped and no delete passes its liveness query while a batch still has a row to
    store for its epoch.
    */
  lemma RunFinishesIff(steps: seq<Step>)
    ensures AlwaysFinishes(START, steps) <==> Disciplined(START, steps)
  {
    AlwaysFinishesFrom(START, steps);
  }

  /** A batch that begins between the liveness query of a delete and its deletes is such a run. */
  lemma StatementsOrphan(e: Json, tree: Json, m: Material)
    requires m.Writable()
    ensures !AlwaysFinishes(START, [BeginDelete(0, e), BeginBatch(1, e, Some(tree), [m])])
  {
    var steps := [BeginDelete(0, e), BeginBatch(1, e, Some(tree), [m])];
    var s := Next(START, steps[0]);
    assert 0 in s.calls && s.calls[0] == DropState(e);
    assert Dropping(s, e) && Clashes(s, steps[1..][0]);
    RunFinishesIff(steps);
  }

  // ---- Each of the two calls needs its transaction ----

  lemma FirstRow(db: Db, e: Json, tree: Json, mats: seq<Material>)
    requires mats != [] && mats[0].Writable()
    ensures HasRow(UpsertBatch(db, e, Some(tree), mats).0, e)
  {
    var db1 := db.(trees := db.trees[e := tree]);
    var db2 := db1.(rows := db1.rows[mats[0].ref.value := Row(e, mats[0].record.value)]);
    assert mats[0].ref.value in db2.rows && db2.rows[mats[0].ref.value].epoch == e;
    assert HasRow(db2, e);
    RowsStay(db2, e, mats[1..]);
  }

  lemma {:induction false} RowsStay(db: Db, e: Json, mats: seq<Material>)
    requires HasRow(db, e)
    ensures HasRow(UpsertRows(db, e, mats).0, e)
    decreases mats
  {
    if mats == [] || !mats[0].Writable() {
    } else {
      var r := mats[0].ref.value;
      var db' := db.(rows := db.rows[r := Row(e, mats[0].record.value)]);
      assert r in db'.rows && db'.rows[r].epoch == e;
      RowsStay(db', e, mats[1..]);
    }
  }

  /**
    Batches as transactions are not enough: a batch that commits between the liveness query and
    the deletes of a conditional delete is orphaned.
    */
  lemma DeleteNeedsTransaction(db: Db, e: Json, tree: Json, mats: seq<Material>)
    requires NoOrphan(db) && !HasRow(db, e)
    requires mats != [] && forall i :: 0 <= i < |mats| ==> mats[i].Writable()
    ensures var s := Next(System(db, map[]), BeginDelete(0, e));
            !Finishes(s.(db := Transaction(s.db, WriteBatch(e, Some(tree), mats))))
  {
    var s := Next(System(db, map[]), BeginDelete(0, e));
    AllWritten(db.(trees := db.trees[e := tree]), e, mats);
    FirstRow(db, e, tree, mats);
    var s' := s.(db := Transaction(s.db, WriteBatch(e, Some(tree), mats)));
    assert 0 in s'.calls && s'.calls[0] == DropState(e);
    assert Dropping(s', e);
    FinishesIff(s');
  }

  lemma {:induction false} AllWritten(db: Db, e: Json, mats: seq<Material>)
    requires forall i :: 0 <= i < |mats| ==> mats[i].Writable()
    ensures UpsertRows(db, e, mats).1
    decreases mats
  {
    if mats == [] {
    } else {
      AllWritten(db.(rows := db.rows[mats[0].ref.value := Row(e, mats[0].record.value)]), e, mats[1..]);
    }
  }

  /**
    Conditional deletes as transactions are not enough either: one that commits after a batch
    stored the tree and before it stored a row takes the tree away.
    */
  lemma BatchNeedsTransaction(db: Db, e: Json, tree: Json, mats: seq<Material>)
    requires NoOrphan(db) && !HasRow(db, e)
    requires mats != [] && mats[0].Writable()
    ensures var s := Next(System(db, map[]), BeginBatch(0, e, Some(tree), mats));
            !Finishes(s.(db := Transaction(s.db, DeleteIfUnreferenced(e))))
  {
    var s := Next(System(db, map[]), BeginBatch(0, e, Some(tree), mats));
    var s' := s.(db := Transaction(s.db, DeleteIfUnreferenced(e)));
    assert !HasRow(s.db, e);
    assert 0 in s'.calls && Writes(s'.calls[0], e);
    assert Writing(s', e);
    FinishesIff(s');
  }
}

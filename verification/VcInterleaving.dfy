/**
  Concurrent calls to the in-memory provider, one step per lock section.

  Batch writes and conditional deletes hold the write lock throughout. Deleting material takes the
  lock once for the material and once for the tag, and deleting a key package once more, so other
  calls can run in between.
  */
module VcInterleaving {
  import opened Bytes
  import opened Json
  import opened VcStore

  /** Where a deleting call stands after its first lock section. */
  datatype Phase =
    | AtTag(r: Json, withPackage: bool)
    | AtPackage(r: Json)

  datatype System = System(store: Memory, calls: map<nat, Phase>)

  datatype Step =
    | Whole(c: Call)
    | Begin(tid: nat, r: Json, withPackage: bool)
    | Continue(tid: nat)

  /** The calls that are one lock section. */
  predicate OneSection(c: Call) {
    !c.DeleteMaterial? && !c.DeletePackage?
  }

  predicate Enabled(s: System, step: Step) {
    match step
    case Whole(c) => OneSection(c)
    case Begin(tid, _, _) => tid !in s.calls
    case Continue(tid) => tid in s.calls
  }

  /** One lock section; a step that is not enabled does nothing. */
  function Next(s: System, step: Step): (s': System) {
    if !Enabled(s, step) then s
    else
      match step
      case Whole(c) => s.(store := MemoryCall(s.store, c).0)
      case Begin(tid, r, withPackage) =>
        System(s.store.(material := s.store.material - {r}), s.calls[tid := AtTag(r, withPackage)])
      case Continue(tid) =>
        match s.calls[tid]
        case AtTag(r, withPackage) =>
          System(s.store.(tags := s.store.tags - {r}),
                 if withPackage then s.calls[tid := AtPackage(r)] else s.calls - {tid})
        case AtPackage(r) =>
          System(s.store.(packages := s.store.packages - {r}), s.calls - {tid})
  }

  function Run(s: System, steps: seq<Step>): (s': System)
    decreases steps
  {
    if steps == [] then s else Run(Next(s, steps[0]), steps[1..])
  }

  /** Alone, the lock sections of a delete are the call of that name. */
  lemma SoloDelete(m: Memory, r: Json)
    ensures Run(System(m, map[]), [Begin(0, r, false), Continue(0)]) ==
            System(MemoryCall(m, DeleteMaterial(r)).0, map[])
    ensures Run(System(m, map[]), [Begin(0, r, true), Continue(0), Continue(0)]) ==
            System(MemoryCall(m, DeletePackage(r)).0, map[])
  {
    var a, b := [Begin(0, r, false), Continue(0)], [Begin(0, r, true), Continue(0), Continue(0)];
    var s := System(m, map[]);
    var s1 := Next(Next(s, a[0]), a[1]);
    assert Run(s, a) == Run(Next(s, a[0]), a[1..]) == Run(s1, a[1..][1..]) == s1;
    var s2 := Next(Next(Next(s, b[0]), b[1]), b[2]);
    assert Run(s, b) == Run(Next(s, b[0]), b[1..]) == Run(Next(Next(s, b[0]), b[1]), b[1..][1..])
        == Run(s2, b[1..][1..][1..]) == s2;
    assert map[0 := AtTag(r, false)] - {0} == map[] == map[0 := AtPackage(r)] - {0};
  }

  const START := System(EMPTY_MEMORY, map[])

  // ---- What every interleaving keeps ----

  ghost predicate TagsHaveTrees(m: Memory) {
    forall r :: r in m.tags ==> m.tags[r] in m.trees
  }

  lemma {:induction false} PutKeepsTrees(m: Memory, e: Json, mats: seq<Material>)
    requires TagsHaveTrees(m) && e in m.trees
    ensures TagsHaveTrees(PutMaterials(m, e, mats).0)
    ensures PutMaterials(m, e, mats).0.trees == m.trees
    ensures PutMaterials(m, e, mats).0.emulation == m.emulation
    decreases mats
  {
    if mats == [] || !mats[0].Writable() {
    } else {
      var r := mats[0].ref.value;
      PutKeepsTrees(m.(material := m.material[r := mats[0].record.value], tags := m.tags[r := e]), e, mats[1..]);
    }
  }

  lemma NextKeepsTrees(s: System, step: Step)
    requires TagsHaveTrees(s.store)
    ensures TagsHaveTrees(Next(s, step).store)
    ensures forall e :: e in s.store.emulation && e !in Next(s, step).store.emulation ==> !Referenced(s.store, e)
  {
    if step.Whole? && step.c.WriteBatch? && step.c.tree.Some? {
      PutKeepsTrees(s.store.(trees := s.store.trees[step.c.e := step.c.tree.value]), step.c.e, step.c.mats);
    }
  }

  /**
    In every interleaving a tag that names an epoch has that epoch's operation tree beside it, and
    no step takes away the state of an epoch that a tag names.
    */
  lemma {:induction false} EveryInterleaving(s: System, steps: seq<Step>, step: Step)
    requires TagsHaveTrees(s.store)
    ensures var s' := Run(s, steps);
            && TagsHaveTrees(s'.store)
            && forall e :: e in s'.store.emulation && Referenced(s'.store, e) ==> e in Next(s', step).store.emulation
    decreases steps
  {
    if steps == [] {
      NextKeepsTrees(s, step);
    } else {
      NextKeepsTrees(s, steps[0]);
      EveryInterleaving(Next(s, steps[0]), steps[1..], step);
    }
  }

  // ---- Material and tag ----

  ghost predicate MaterialTagged(m: Memory) {
    forall r :: r in m.material ==> r in m.tags
  }

  /** Some call has removed the material of `r` and has yet to remove its tag. */
  ghost predicate Deleting(s: System, r: Json) {
    exists tid :: tid in s.calls && s.calls[tid].AtTag? && s.calls[tid].r == r
  }

  ghost predicate NoClash(s: System) {
    forall r :: r in s.store.material ==> !Deleting(s, r)
  }

  function Continues(tids: seq<nat>): (steps: seq<Step>) {
    seq(|tids|, i requires 0 <= i < |tids| => Continue(tids[i]))
  }

  /** Whatever order the calls in flight finish in, stored material has its tag. */
  ghost predicate Finishes(s: System) {
    forall tids :: MaterialTagged(Run(s, Continues(tids)).store)
  }

  /** The references a batch stores before it ends or fails. */
  function Stores(c: Call): (refs: set<Json>) {
    if c.WriteBatch? && c.tree.Some? then Stored(c.mats) else {}
  }

  function Stored(mats: seq<Material>): (refs: set<Json>) {
    if mats == [] || !mats[0].Writable() then {} else {mats[0].ref.value} + Stored(mats[1..])
  }

  /** A batch never stores a reference whose deletion is under way. */
  ghost predicate Disciplined(s: System, steps: seq<Step>)
    decreases steps
  {
    steps == [] ||
    (&& (steps[0].Whole? ==> forall r :: r in Stores(steps[0].c) ==> !Deleting(s, r))
     && Disciplined(Next(s, steps[0]), steps[1..]))
  }

  ghost predicate AlwaysFinishes(s: System, steps: seq<Step>)
    decreases steps
  {
    Finishes(s) && (steps == [] || AlwaysFinishes(Next(s, steps[0]), steps[1..]))
  }

  lemma {:induction false} PutMaterialsEffect(m: Memory, e: Json, mats: seq<Material>)
    ensures var m' := PutMaterials(m, e, mats).0;
            && m'.material.Keys == m.material.Keys + Stored(mats)
            && m'.tags.Keys == m.tags.Keys + Stored(mats)
    decreases mats
  {
    if mats == [] || !mats[0].Writable() {
    } else {
      var r := mats[0].ref.value;
      PutMaterialsEffect(m.(material := m.material[r := mats[0].record.value], tags := m.tags[r := e]), e, mats[1..]);
    }
  }

  lemma CallEffect(m: Memory, c: Call)
    requires OneSection(c)
    ensures var m' := MemoryCall(m, c).0;
            && m'.material.Keys == m.material.Keys + Stores(c)
            && m'.tags.Keys == m.tags.Keys + Stores(c)
  {
    if c.WriteBatch? && c.tree.Some? {
      PutMaterialsEffect(m.(trees := m.trees[c.e := c.tree.value]), c.e, c.mats);
    }
  }

  lemma ContinueKeeps(s: System, tid: nat)
    requires MaterialTagged(s.store) && NoClash(s)
    ensures MaterialTagged(Next(s, Continue(tid)).store) && NoClash(Next(s, Continue(tid)))
  {
    var s' := Next(s, Continue(tid));
    forall r | r in s'.store.material
      ensures r in s'.store.tags && !Deleting(s', r)
    {
      assert !Deleting(s, r);
    }
  }

  lemma {:induction false} FinishKeeps(s: System, tids: seq<nat>)
    requires MaterialTagged(s.store) && NoClash(s)
    ensures MaterialTagged(Run(s, Continues(tids)).store)
    decreases tids
  {
    if tids == [] {
    } else {
      ContinueKeeps(s, tids[0]);
      assert Continues(tids)[1..] == Continues(tids[1..]);
      FinishKeeps(Next(s, Continue(tids[0])), tids[1..]);
    }
  }

  /** The calls in flight finish safely exactly when no stored material awaits the loss of its tag. */
  lemma FinishesIff(s: System)
    requires MaterialTagged(s.store)
    ensures Finishes(s) <==> NoClash(s)
  {
    if NoClash(s) {
      forall tids ensures MaterialTagged(Run(s, Continues(tids)).store) {
        FinishKeeps(s, tids);
      }
    } else {
      var r :| r in s.store.material && Deleting(s, r);
      var tid :| tid in s.calls && s.calls[tid].AtTag? && s.calls[tid].r == r;
      var s' := Run(s, Continues([tid]));
      assert Continues([tid])[1..] == [];
      assert s' == Run(Next(s, Continue(tid)), Continues([tid])[1..]);
      assert r in s'.store.material && r !in s'.store.tags;
    }
  }

  lemma NextKeepsIff(s: System, step: Step)
    requires MaterialTagged(s.store) && NoClash(s)
    ensures MaterialTagged(Next(s, step).store)
    ensures NoClash(Next(s, step)) <==> (step.Whole? && OneSection(step.c) ==> forall r :: r in Stores(step.c) ==>
            !Deleting(s, r))
  {
    var s' := Next(s, step);
    match step
    case Whole(c) =>
      if OneSection(c) {
        CallEffect(s.store, c);
        assert forall r :: Deleting(s', r) <==> Deleting(s, r);
      }
    case Begin(tid, r, withPackage) =>
      if tid !in s.calls {
        forall q | q in s'.store.material
          ensures !Deleting(s', q)
        {
          assert q != r && !Deleting(s, q);
        }
      }
    case Continue(tid) => ContinueKeeps(s, tid);
  }

  lemma {:induction false} AlwaysFinishesFrom(s: System, steps: seq<Step>)
    requires MaterialTagged(s.store) && NoClash(s)
    requires forall i :: 0 <= i < |steps| && steps[i].Whole? ==> OneSection(steps[i].c)
    ensures AlwaysFinishes(s, steps) <==> Disciplined(s, steps)
    decreases steps
  {
    FinishesIff(s);
    if steps == [] {
    } else {
      var s' := Next(s, steps[0]);
      NextKeepsIff(s, steps[0]);
      FinishesIff(s');
      if NoClash(s') {
        AlwaysFinishesFrom(s', steps[1..]);
      }
    }
  }

  /**
    Stored material keeps its tag, at every point of a run and however the calls in flight then
    finish, if and only if no batch stores a reference while its deletion is under way.
    */
  lemma MaterialTaggedIff(steps: seq<Step>)
    requires forall i :: 0 <= i < |steps| && steps[i].Whole? ==> OneSection(steps[i].c)
    ensures AlwaysFinishes(START, steps) <==> Disciplined(START, steps)
  {
    AlwaysFinishesFrom(START, steps);
  }

  /**
    What goes wrong otherwise: a batch for `r` between the two lock sections of a delete of `r`
    leaves material without a tag, and the state of its epoch can then be deleted under it.
    */
  lemma InterleavedDeleteOrphans(e: Json, tree: Json, state: Json, r: Json, record: Json)
    ensures var steps := [
              Whole(WriteEmulation(e, state)),
              Begin(0, r, false),
              Whole(WriteBatch(e, Some(tree), [Material(Some(r), Some(record))])),
              Continue(0),
              Whole(DeleteIfUnreferenced(e))];
            var m := Run(START, steps).store;
            r in m.material && m.material[r] == record && r !in m.tags && e !in m.trees && e !in m.emulation
  {
    var mats := [Material(Some(r), Some(record))];
    var s1 := Next(START, Whole(WriteEmulation(e, state)));
    var s2 := Next(s1, Begin(0, r, false));
    var s3 := Next(s2, Whole(WriteBatch(e, Some(tree), mats)));
    var m1 := s2.store.(trees := s2.store.trees[e := tree]);
    assert PutMaterials(m1, e, mats) == PutMaterials(m1.(material := m1.material[r := record],
           tags := m1.tags[r := e]), e, mats[1..]);
    var s4 := Next(s3, Continue(0));
    var s5 := Next(s4, Whole(DeleteIfUnreferenced(e)));
    var steps := [Whole(WriteEmulation(e, state)), Begin(0, r, false), Whole(WriteBatch(e, Some(tree), mats)),
                  Continue(0), Whole(DeleteIfUnreferenced(e))];
    assert Run(START, steps) == Run(s1, steps[1..]) == Run(s2, steps[2..]) == Run(s3, steps[3..])
        == Run(s4, steps[4..]) == Run(s5, steps[5..]) == s5 by {
      assert steps[1..][1..] == steps[2..] && steps[2..][1..] == steps[3..];
      assert steps[3..][1..] == steps[4..] && steps[4..][1..] == steps[5..];
    }
  }
}

/**
  The in-memory provider as it runs: one flat map, updated key by key.

  The ghost field `tables` is the typed store the map stands for; `Valid` ties the two together and
  every method is specified on the typed side.
  */
module MemoryStorage {
  import opened Bytes
  import opened Json
  import opened FlatStore
  import opened StoredLists
  import Queue = ProposalQueue
  import Vc = VcStore

  /** Virtual-client tables are keyed by one JSON text each. */
  function JsonEntry(l: Label, k: Json): (x: Entry) {
    Entry(l, Encode(k), CURRENT_VERSION)
  }

  /** Table `l` holds exactly `tbl`. */
  ghost predicate TableIs(t: Typed, l: Label, tbl: map<Json, Json>) {
    && (forall k :: k in tbl ==> JsonEntry(l, k) in t && t[JsonEntry(l, k)] == Encode(tbl[k]))
    && (forall x :: x in t && x.table == l ==> exists k :: k in tbl && x == JsonEntry(l, k))
  }

  lemma TableWrite(t: Typed, l: Label, tbl: map<Json, Json>, k: Json, v: Json)
    requires TableIs(t, l, tbl)
    ensures TableIs(t[JsonEntry(l, k) := Encode(v)], l, tbl[k := v])
  {
    var t', tbl' := t[JsonEntry(l, k) := Encode(v)], tbl[k := v];
    forall k' | k' in tbl'
      ensures JsonEntry(l, k') in t' && t'[JsonEntry(l, k')] == Encode(tbl'[k'])
    {
      if k' != k && Encode(k') == Encode(k) {
        EncodeInjective(k', k);
      }
    }
    forall x | x in t' && x.table == l
      ensures exists k' :: k' in tbl' && x == JsonEntry(l, k')
    {
      if x == JsonEntry(l, k) {
        assert k in tbl';
      } else {
        var k' :| k' in tbl && x == JsonEntry(l, k');
        assert k' in tbl';
      }
    }
  }

  lemma TableDelete(t: Typed, l: Label, tbl: map<Json, Json>, k: Json)
    requires TableIs(t, l, tbl)
    ensures TableIs(t - {JsonEntry(l, k)}, l, tbl - {k})
  {
    var t', tbl' := t - {JsonEntry(l, k)}, tbl - {k};
    forall k' | k' in tbl'
      ensures JsonEntry(l, k') in t'
    {
      if Encode(k') == Encode(k) {
        EncodeInjective(k', k);
      }
    }
    forall x | x in t' && x.table == l
      ensures exists k' :: k' in tbl' && x == JsonEntry(l, k')
    {
      var k' :| k' in tbl && x == JsonEntry(l, k');
      assert k' in tbl';
    }
  }

  lemma TableLookup(t: Typed, l: Label, tbl: map<Json, Json>, k: Json)
    requires TableIs(t, l, tbl)
    ensures JsonEntry(l, k) in t <==> k in tbl
  {
    if JsonEntry(l, k) in t {
      var k' :| k' in tbl && JsonEntry(l, k) == JsonEntry(l, k');
      EncodeInjective(k, k');
    }
  }

  /** The virtual-client tables of `t` hold `s`. */
  ghost predicate VcHeld(t: Typed, s: Vc.Memory) {
    && TableIs(t, RetainedKeyPackageMaterial, s.material)
    && TableIs(t, RetainedKeyPackageEpoch, s.tags)
    && TableIs(t, VcOperationTree, s.trees)
    && TableIs(t, VcEmulationEpochState, s.emulation)
    && TableIs(t, KeyPackage, s.packages)
  }

  predicate VcTable(l: Label) {
    || l.RetainedKeyPackageMaterial? || l.RetainedKeyPackageEpoch?
    || l.VcOperationTree? || l.VcEmulationEpochState? || l.KeyPackage?
  }

  function VcPut(s: Vc.Memory, l: Label, k: Json, v: Json): (s': Vc.Memory)
    requires VcTable(l)
  {
    if l.RetainedKeyPackageMaterial? then s.(material := s.material[k := v])
    else if l.RetainedKeyPackageEpoch? then s.(tags := s.tags[k := v])
    else if l.VcOperationTree? then s.(trees := s.trees[k := v])
    else if l.VcEmulationEpochState? then s.(emulation := s.emulation[k := v])
    else s.(packages := s.packages[k := v])
  }

  function VcDrop(s: Vc.Memory, l: Label, k: Json): (s': Vc.Memory)
    requires VcTable(l)
  {
    if l.RetainedKeyPackageMaterial? then s.(material := s.material - {k})
    else if l.RetainedKeyPackageEpoch? then s.(tags := s.tags - {k})
    else if l.VcOperationTree? then s.(trees := s.trees - {k})
    else if l.VcEmulationEpochState? then s.(emulation := s.emulation - {k})
    else s.(packages := s.packages - {k})
  }

  /** Every table but `l` is the same in both stores. */
  ghost predicate OnlyTable(t: Typed, t': Typed, l: Label) {
    forall x: Entry :: x.table != l ==> (x in t <==> x in t') && (x in t ==> t[x] == t'[x])
  }

  lemma OtherTable(t: Typed, t': Typed, l: Label, l': Label, tbl: map<Json, Json>)
    requires OnlyTable(t, t', l) && l' != l && TableIs(t, l', tbl)
    ensures TableIs(t', l', tbl)
  {
  }

  lemma OthersHeld(t: Typed, t': Typed, s: Vc.Memory, l: Label)
    requires VcHeld(t, s) && OnlyTable(t, t', l)
    ensures !l.RetainedKeyPackageMaterial? ==> TableIs(t', RetainedKeyPackageMaterial, s.material)
    ensures !l.RetainedKeyPackageEpoch? ==> TableIs(t', RetainedKeyPackageEpoch, s.tags)
    ensures !l.VcOperationTree? ==> TableIs(t', VcOperationTree, s.trees)
    ensures !l.VcEmulationEpochState? ==> TableIs(t', VcEmulationEpochState, s.emulation)
    ensures !l.KeyPackage? ==> TableIs(t', KeyPackage, s.packages)
  {
    if !l.RetainedKeyPackageMaterial? { OtherTable(t, t', l, RetainedKeyPackageMaterial, s.material); }
    if !l.RetainedKeyPackageEpoch? { OtherTable(t, t', l, RetainedKeyPackageEpoch, s.tags); }
    if !l.VcOperationTree? { OtherTable(t, t', l, VcOperationTree, s.trees); }
    if !l.VcEmulationEpochState? { OtherTable(t, t', l, VcEmulationEpochState, s.emulation); }
    if !l.KeyPackage? { OtherTable(t, t', l, KeyPackage, s.packages); }
  }

  lemma HeldWrite(t: Typed, s: Vc.Memory, l: Label, k: Json, v: Json)
    requires VcHeld(t, s) && VcTable(l)
    ensures VcHeld(t[JsonEntry(l, k) := Encode(v)], VcPut(s, l, k, v))
  {
    OthersHeld(t, t[JsonEntry(l, k) := Encode(v)], s, l);
    if l.RetainedKeyPackageMaterial? { TableWrite(t, l, s.material, k, v); }
    else if l.RetainedKeyPackageEpoch? { TableWrite(t, l, s.tags, k, v); }
    else if l.VcOperationTree? { TableWrite(t, l, s.trees, k, v); }
    else if l.VcEmulationEpochState? { TableWrite(t, l, s.emulation, k, v); }
    else { TableWrite(t, l, s.packages, k, v); }
  }

  lemma HeldDelete(t: Typed, s: Vc.Memory, l: Label, k: Json)
    requires VcHeld(t, s) && VcTable(l)
    ensures VcHeld(t - {JsonEntry(l, k)}, VcDrop(s, l, k))
  {
    OthersHeld(t, t - {JsonEntry(l, k)}, s, l);
    if l.RetainedKeyPackageMaterial? { TableDelete(t, l, s.material, k); }
    else if l.RetainedKeyPackageEpoch? { TableDelete(t, l, s.tags, k); }
    else if l.VcOperationTree? { TableDelete(t, l, s.trees, k); }
    else if l.VcEmulationEpochState? { TableDelete(t, l, s.emulation, k); }
    else { TableDelete(t, l, s.packages, k); }
  }

  lemma TagTable(t: Typed, tags: map<Json, Json>, e: Json)
    requires TableIs(t, RetainedKeyPackageEpoch, tags)
    ensures (exists x :: x in t && x.table == RetainedKeyPackageEpoch && t[x] == Encode(e)) <==>
            (exists r :: r in tags && tags[r] == e)
  {
    if x :| x in t && x.table == RetainedKeyPackageEpoch && t[x] == Encode(e) {
      var r :| r in tags && x == JsonEntry(RetainedKeyPackageEpoch, r);
      EncodeInjective(tags[r], e);
    }
    if r :| r in tags && tags[r] == e {
      var x := JsonEntry(RetainedKeyPackageEpoch, r);
      assert x in t && x.table == RetainedKeyPackageEpoch && t[x] == Encode(e);
    }
  }

  /** Scanning every flat key for the epoch-tag prefix answers the liveness question. */
  lemma ScanIsLiveness(t: Typed, s: Vc.Memory, e: Json)
    requires VcHeld(t, s)
    ensures ScanEpochTags(Flatten(t), Encode(e)) <==> Vc.Referenced(s, e)
  {
    ScanIsTableScan(t, Encode(e));
    TagTable(t, s.tags, e);
  }

  /** A key that starts with an opening bracket is no storage key. */
  lemma UnlabelledKey(g: Json, r: Json)
    ensures Identify(Encode(Arr([g, r]))) == None
  {
    assert Encode(Arr([g, r]))[0] == OPEN_ARR;
  }

  class MemoryStorage {
    var values: Store
    ghost var tables: Typed

    ghost predicate Valid()
      reads this
    {
      values == Flatten(tables)
    }

    constructor ()
      ensures Valid() && tables == map[]
    {
      values, tables := map[], map[];
      new;
      assert values.Keys == Flatten(tables).Keys by {
        KeysInjective();
      }
    }

    // ---- One entry ----

    method Write(l: Label, key: Bytes, value: Bytes)
      requires Valid()
      modifies this
      ensures Valid() && tables == old(tables)[Entry(l, key, CURRENT_VERSION) := value]
    {
      FlattenWrite(tables, Entry(l, key, CURRENT_VERSION), value);
      values := values[BuildKey(l, key, CURRENT_VERSION) := value];
      tables := tables[Entry(l, key, CURRENT_VERSION) := value];
    }

    method Delete(l: Label, key: Bytes)
      requires Valid()
      modifies this
      ensures Valid() && tables == old(tables) - {Entry(l, key, CURRENT_VERSION)}
    {
      FlattenDelete(tables, Entry(l, key, CURRENT_VERSION));
      values := values - {BuildKey(l, key, CURRENT_VERSION)};
      tables := tables - {Entry(l, key, CURRENT_VERSION)};
    }

    method Lookup(l: Label, key: Bytes) returns (value: Option<Bytes>)
      requires Valid()
      ensures value == if Entry(l, key, CURRENT_VERSION) in tables then Some(tables[Entry(l, key, CURRENT_VERSION)])
              else None
    {
      FlattenLookup(tables, Entry(l, key, CURRENT_VERSION));
      var k := BuildKey(l, key, CURRENT_VERSION);
      value := if k in values then Some(values[k]) else None;
    }

    // ---- Lists ----

    /** Parses the list at a key, an absent one as empty. */
    method LookupList(l: Label, key: Bytes) returns (list: Option<seq<Bytes>>)
      requires Valid()
      ensures list == Queue.ListAt(tables, Entry(l, key, CURRENT_VERSION))
    {
      var value := Lookup(l, key);
      list := match value case Some(text) => DecodeList(text) case None => Some([]);
    }

    method Append(l: Label, key: Bytes, value: Bytes) returns (ok: bool)
      requires Valid()
      modifies this
      ensures Valid() && (tables, ok) == Queue.Append(old(tables), Entry(l, key, CURRENT_VERSION), value)
    {
      var list := LookupList(l, key);
      match list
      case Some(items) =>
        Write(l, key, EncodeList(items + [value]));
        ok := true;
      case None =>
        ok := false;
    }

    method RemoveItem(l: Label, key: Bytes, value: Bytes) returns (ok: bool)
      requires Valid()
      modifies this
      ensures Valid() && (tables, ok) == Queue.RemoveItem(old(tables), Entry(l, key, CURRENT_VERSION), value)
    {
      var list := LookupList(l, key);
      match list
      case Some(items) =>
        var rest := RemoveFirst(items, value);
        Write(l, key, EncodeList(rest));
        ok := true;
      case None =>
        ok := false;
    }

    /** The position search and removal of `remove_item`. */
    static method RemoveFirst(items: seq<Bytes>, value: Bytes) returns (rest: seq<Bytes>)
      ensures rest == Queue.RemoveFirst(items, value)
    {
      var pos := 0;
      while pos < |items| && items[pos] != value
        invariant 0 <= pos <= |items|
        invariant Queue.RemoveFirst(items, value) == items[..pos] + Queue.RemoveFirst(items[pos..], value)
      {
        assert items[pos..][1..] == items[pos + 1..];
        pos := pos + 1;
      }
      rest := if pos < |items| then items[..pos] + items[pos + 1..] else items;
      if pos < |items| {
        assert items[pos..][1..] == items[pos + 1..];
      }
    }

    // ---- The proposal queue ----

    method QueueProposal(g: Json, r: Json, p: Json) returns (ok: bool)
      requires Valid()
      modifies this
      ensures Valid() && (tables, ok) == Queue.Queued(old(tables), g, r, p)
    {
      Write(QueuedProposal, Encode(Arr([g, r])), Encode(p));
      ok := Append(ProposalQueueRefs, Encode(g), Encode(r));
    }

    method RemoveProposal(g: Json, r: Json) returns (ok: bool)
      requires Valid()
      modifies this
      ensures Valid() && (tables, ok) == Queue.Removed(old(tables), g, r)
    {
      ok := RemoveItem(ProposalQueueRefs, Encode(g), Encode(r));
      if ok {
        Delete(QueuedProposal, Encode(Arr([g, r])));
      }
    }

    method QueuedProposalRefs(g: Json) returns (refs: Queue.Outcome<seq<Json>>)
      requires Valid()
      ensures refs == Queue.Refs(tables, g)
    {
      var list := LookupList(ProposalQueueRefs, Encode(g));
      match list
      case None => refs := Queue.Panic;
      case Some(texts) =>
        refs := match Queue.DecodeAll(texts) case Some(js) => Queue.Ok(js) case None => Queue.Err;
    }

    method QueuedProposals(g: Json) returns (items: Queue.Outcome<seq<Queue.Item>>)
      requires Valid()
      ensures items == Queue.Proposals(tables, g)
    {
      var refs := QueuedProposalRefs(g);
      match refs
      case Err => items := Queue.Err;
      case Panic => items := Queue.Panic;
      case Ok(rs) => items := ReadBodies(g, rs);
    }

    method ReadBodies(g: Json, refs: seq<Json>) returns (items: Queue.Outcome<seq<Queue.Item>>)
      requires Valid()
      ensures items == Queue.Bodies(tables, g, refs)
    {
      var read, i := [], 0;
      assert refs[i..] == refs;
      Queue.PrependNothing(Queue.Bodies(tables, g, refs));
      while i < |refs|
        invariant 0 <= i <= |refs|
        invariant Queue.Bodies(tables, g, refs) == Queue.Prepend(read, Queue.Bodies(tables, g, refs[i..]))
      {
        var body := Lookup(QueuedProposal, Encode(Arr([g, refs[i]])));
        if body == None { return Queue.Panic; }
        var p := Decode(body.value);
        if p == None { return Queue.Err; }
        Queue.BodiesStep(tables, g, refs[i..], read, p.value);
        assert refs[i..][1..] == refs[i + 1..];
        read := read + [Queue.Item(refs[i], p.value)];
        i := i + 1;
      }
      assert refs[i..] == [] && read + [] == read;
      items := Queue.Ok(read);
    }

    /**
      Clearing removes each body under a key without label and version. No such key is ever
      stored, so only the reference list goes.
      */
    method ClearProposalQueue(g: Json) returns (refs: Queue.Outcome<seq<Json>>)
      requires Valid()
      modifies this
      ensures Valid() && tables == Queue.Cleared(old(tables), g)
      ensures refs == Queue.Refs(old(tables), g)
    {
      refs := QueuedProposalRefs(g);
      if !refs.Ok? {
        return;
      }
      var i := 0;
      while i < |refs.value|
        invariant 0 <= i <= |refs.value|
        invariant values == old(values) && tables == old(tables)
      {
        var key := Encode(Arr([g, refs.value[i]]));
        UnlabelledKey(g, refs.value[i]);
        FlattenForeignKey(tables, key);
        values := values - {key};
        i := i + 1;
      }
      Delete(ProposalQueueRefs, Encode(g));
    }

    // ---- Virtual clients ----

    /** One `values.insert` under an already held lock. */
    method Insert(ghost s: Vc.Memory, l: Label, k: Json, v: Json)
      requires Valid() && VcHeld(tables, s) && VcTable(l)
      modifies this
      ensures Valid() && VcHeld(tables, VcPut(s, l, k, v))
    {
      HeldWrite(tables, s, l, k, v);
      Write(l, Encode(k), Encode(v));
    }

    method Remove(ghost s: Vc.Memory, l: Label, k: Json)
      requires Valid() && VcHeld(tables, s) && VcTable(l)
      modifies this
      ensures Valid() && VcHeld(tables, VcDrop(s, l, k))
    {
      HeldDelete(tables, s, l, k);
      Delete(l, Encode(k));
    }

    /** One material of a batch and its epoch tag. */
    method InsertMaterial(ghost s: Vc.Memory, e: Json, r: Json, record: Json) returns (ghost s': Vc.Memory)
      requires Valid() && VcHeld(tables, s)
      modifies this
      ensures Valid() && VcHeld(tables, s') && s' == s.(material := s.material[r := record], tags := s.tags[r := e])
    {
      Insert(s, RetainedKeyPackageMaterial, r, record);
      s' := VcPut(s, RetainedKeyPackageMaterial, r, record);
      Insert(s', RetainedKeyPackageEpoch, r, e);
      s' := VcPut(s', RetainedKeyPackageEpoch, r, e);
    }

    method WriteRetainedBatch(ghost s: Vc.Memory, e: Json, tree: Option<Json>, mats: seq<Vc.Material>)
      returns (ok: bool)
      requires Valid() && VcHeld(tables, s)
      modifies this
      ensures Valid() && VcHeld(tables, Vc.PutBatch(s, e, tree, mats).0)
      ensures ok == Vc.PutBatch(s, e, tree, mats).1
    {
      if tree == None { return false; }
      Insert(s, VcOperationTree, e, tree.value);
      ghost var s1 := VcPut(s, VcOperationTree, e, tree.value);
      ghost var now := s1;
      var i := 0;
      while i < |mats|
        invariant 0 <= i <= |mats|
        invariant Valid() && VcHeld(tables, now)
        invariant Vc.PutMaterials(s1, e, mats) == Vc.PutMaterials(now, e, mats[i..])
      {
        assert mats[i..][0] == mats[i] && mats[i..][1..] == mats[i + 1..];
        if mats[i].ref == None { return false; }
        if mats[i].record == None { return false; }
        now := InsertMaterial(now, e, mats[i].ref.value, mats[i].record.value);
        i := i + 1;
      }
      ok := true;
    }

    method RetainedMaterial(ghost s: Vc.Memory, r: Json) returns (found: Option<Json>)
      requires Valid() && VcHeld(tables, s)
      ensures found == Vc.Get(s.material, r)
    {
      var value := Lookup(RetainedKeyPackageMaterial, Encode(r));
      TableLookup(tables, RetainedKeyPackageMaterial, s.material, r);
      if value == None { return None; }
      DecodeEncode(s.material[r]);
      found := Decode(value.value);
    }

    method HasRetainedMaterial(ghost s: Vc.Memory, e: Json) returns (referenced: bool)
      requires Valid() && VcHeld(tables, s)
      ensures referenced == Vc.Referenced(s, e)
    {
      var text := Encode(e);
      referenced := exists k :: k in values && IsEpochTag(k) && values[k] == text;
      ScanIsLiveness(tables, s, e);
    }

    method DeleteIfUnreferenced(ghost s: Vc.Memory, e: Json) returns (deleted: bool)
      requires Valid() && VcHeld(tables, s)
      modifies this
      ensures Valid() && VcHeld(tables, Vc.DropIfUnreferenced(s, e).0)
      ensures deleted == Vc.DropIfUnreferenced(s, e).1
    {
      deleted := HasRetainedMaterial(s, e);
      deleted := !deleted;
      if deleted {
        DropEpoch(s, e);
      }
    }

    method DropEpoch(ghost s: Vc.Memory, e: Json)
      requires Valid() && VcHeld(tables, s)
      modifies this
      ensures Valid() && VcHeld(tables, s.(emulation := s.emulation - {e}, trees := s.trees - {e}))
    {
      Remove(s, VcEmulationEpochState, e);
      ghost var s1 := s.(emulation := s.emulation - {e});
      assert VcDrop(s, VcEmulationEpochState, e) == s1;
      Remove(s1, VcOperationTree, e);
      assert VcDrop(s1, VcOperationTree, e) == s1.(trees := s.trees - {e});
    }

    method DeleteRetainedMaterial(ghost s: Vc.Memory, r: Json)
      requires Valid() && VcHeld(tables, s)
      modifies this
      ensures Valid() && VcHeld(tables, Vc.MemoryCall(s, Vc.DeleteMaterial(r)).0)
    {
      ghost var s1 := VcDrop(s, RetainedKeyPackageMaterial, r);
      ghost var s2 := VcDrop(s1, RetainedKeyPackageEpoch, r);
      assert Vc.MemoryCall(s, Vc.DeleteMaterial(r)).0 == s2;
      Remove(s, RetainedKeyPackageMaterial, r);
      Remove(s1, RetainedKeyPackageEpoch, r);
    }

    method DeleteKeyPackage(ghost s: Vc.Memory, r: Json)
      requires Valid() && VcHeld(tables, s)
      modifies this
      ensures Valid() && VcHeld(tables, Vc.MemoryCall(s, Vc.DeletePackage(r)).0)
    {
      ghost var s1 := Vc.MemoryCall(s, Vc.DeleteMaterial(r)).0;
      assert Vc.MemoryCall(s, Vc.DeletePackage(r)).0 == VcDrop(s1, KeyPackage, r);
      DeleteRetainedMaterial(s, r);
      Remove(s1, KeyPackage, r);
    }
  }
}

/**
  The persistent client and its restarts: what `open` makes of the last snapshot `save` wrote.

  The wasm side is opaque. What a group operation leaves in the provider's store and whether it
  succeeds are parameters, and so are the identities and groups it accepts back.
  */
module MlsClient {
  import opened Bytes
  import opened Utf
  import opened Envelope
  import Snapshot

  /** What persists: identity bytes, the provider's store, and the named groups in insertion order. */
  datatype Client = Client(identity: Bytes, provider: Store, groups: seq<JsString>)

  /** `Map.set`: a known key keeps its place. */
  function AddGroup(groups: seq<JsString>, id: JsString): (groups': seq<JsString>) {
    if id in groups then groups else groups + [id]
  }

  function AddGroups(groups: seq<JsString>, ids: seq<JsString>): (groups': seq<JsString>)
    decreases ids
  {
    if ids == [] then groups else AddGroups(AddGroup(groups, ids[0]), ids[1..])
  }

  /** The snapshot of a client whose store is dumped in the given order. */
  function Blob(c: Client, order: seq<Snapshot.Pair>): (b: Bytes) {
    Encoded(Envelope(c.identity, Snapshot.Snapshot(order), c.groups))
  }

  datatype Reopened = Opened(c: Client) | Failed

  /** What the wasm side accepts: identity bytes in `Identity.from_bytes`, and a store and an id in `Group.load`. */
  datatype Wasm = Wasm(identifies: Bytes -> bool, loads: (Store, JsString) -> bool)

  predicate AllLoad(wasm: Wasm, m: Store, ids: seq<JsString>) {
    forall i :: 0 <= i < |ids| ==> wasm.loads(m, ids[i])
  }

  /** `open` on a stored snapshot. */
  function Reopen(blob: Bytes, wasm: Wasm): (r: Reopened) {
    match Decoded(blob)
    case Corrupt => Failed
    case Unsupported(_) => Failed
    case Ok(e) =>
      var parsed := Snapshot.Parse(e.provider, Snapshot.Wasm32);
      if parsed.Ok? && wasm.identifies(e.identity) && AllLoad(wasm, parsed.m, e.groupIds) then
        Opened(Client(e.identity, parsed.m, AddGroups([], e.groupIds)))
      else Failed
  }

  // ---- The object ----

  class Adapter {
    var blobs: map<JsString, Bytes>

    constructor ()
      ensures blobs == map[]
    {
      blobs := map[];
    }
  }

  class MlsClient {
    const id: JsString
    const adapter: Adapter?
    var identity: Bytes
    var provider: Store
    var groups: seq<JsString>

    ghost function View(): (c: Client)
      reads this
    {
      Client(identity, provider, groups)
    }

    constructor (id: JsString, adapter: Adapter?, c: Client)
      ensures this.id == id && this.adapter == adapter && View() == c
    {
      this.id, this.adapter := id, adapter;
      identity, provider, groups := c.identity, c.provider, c.groups;
    }

    /** `store` is what the wasm call leaves behind, and `ok` whether it returned rather than threw. */
    method CreateGroup(groupId: JsString, store: Store, ok: bool)
      modifies this
      ensures View() == Client(old(identity), store, if ok then AddGroup(old(groups), groupId) else old(groups))
    {
      provider := store;
      if !ok { return; }
      if groupId !in groups {
        groups := groups + [groupId];
      }
    }

    method JoinGroup(groupId: Option<JsString>, store: Store, ok: bool)
      modifies this
      ensures View() == Client(old(identity), store,
                               if ok && groupId.Some? then AddGroup(old(groups), groupId.value) else old(groups))
    {
      provider := store;
      if !ok { return; }
      if groupId != None && groupId.value !in groups {
        groups := groups + [groupId.value];
      }
    }

    /** A no-op for in-memory clients. */
    method Save() returns (ghost order: seq<Snapshot.Pair>)
      modifies adapter
      ensures View() == old(View())
      ensures adapter != null ==>
                Snapshot.Lists(order, provider) && adapter.blobs == old(adapter.blobs)[id := Blob(View(), order)]
    {
      order := [];
      if adapter == null {
        return;
      }
      var dump, written;
      dump, written, order := Snapshot.Serialize(provider);
      var blob := EncodeEnvelope(Envelope(identity, dump, groups));
      adapter.blobs := adapter.blobs[id := blob[..]];
    }
  }

  /** `MlsClient.open`; `fresh'` is the identity and store a first start creates. */
  method Open(id: JsString, adapter: Adapter, fresh': Client, wasm: Wasm) returns (c: MlsClient?)
    requires fresh'.groups == []
    modifies adapter
    ensures c != null ==> fresh(c) && c.id == id && c.adapter == adapter
    ensures id in old(adapter.blobs) ==>
      && adapter.blobs == old(adapter.blobs)
      && (c != null <==> Reopen(old(adapter.blobs)[id], wasm).Opened?)
      && (c != null ==> c.View() == Reopen(old(adapter.blobs)[id], wasm).c)
    ensures id !in old(adapter.blobs) ==>
      && c != null && c.View() == fresh'
      && exists order ::
           Snapshot.Lists(order, fresh'.provider) && adapter.blobs == old(adapter.blobs)[id := Blob(fresh', order)]
  {
    if id in adapter.blobs {
      var r := Restore(adapter.blobs[id], wasm);
      if r.Failed? { return null; }
      c := new MlsClient(id, adapter, r.c);
    } else {
      c := new MlsClient(id, adapter, fresh');
      ghost var order := c.Save();
    }
  }

  method Restore(blob: Bytes, wasm: Wasm) returns (r: Reopened)
    ensures r == Reopen(blob, wasm)
  {
    var e := DecodeEnvelope(blob);
    if !e.Ok? { return Failed; }
    var parsed := Snapshot.Deserialize(e.e.provider, Snapshot.Wasm32);
    if !parsed.Ok? { return Failed; }
    if !wasm.identifies(e.e.identity) { return Failed; }
    var groups := LoadGroups(parsed.m, e.e.groupIds, wasm);
    r := if groups == None then Failed else Opened(Client(e.e.identity, parsed.m, groups.value));
  }

  /** The loop over the snapshot's group ids; the first that does not load ends the call. */
  method LoadGroups(store: Store, ids: seq<JsString>, wasm: Wasm) returns (groups: Option<seq<JsString>>)
    ensures groups == if AllLoad(wasm, store, ids) then Some(AddGroups([], ids)) else None
  {
    var loaded := [];
    assert ids[0..] == ids;
    for i := 0 to |ids|
      invariant forall k :: 0 <= k < i ==> wasm.loads(store, ids[k])
      invariant AddGroups([], ids) == AddGroups(loaded, ids[i..])
    {
      if !wasm.loads(store, ids[i]) { return None; }
      assert ids[i..][1..] == ids[i + 1..];
      loaded := AddGroup(loaded, ids[i]);
    }
    groups := Some(loaded);
  }

  // ---- Runs ----

  datatype Op =
    | Create(id: JsString, store: Store, ok: bool)
    | Join(named: Option<JsString>, store: Store, ok: bool)
    | Work(store: Store)
    | Save(order: seq<Snapshot.Pair>)
    | Restart

  /** The client, the stored snapshot, and the client as it was when that was written. */
  datatype World = World(now: Client, blob: Bytes, saved: Client)

  /** A restart that fails leaves the snapshot, and the client that was open, as they are. */
  function Step(w: World, op: Op, reopen: Bytes -> Reopened): (w': World) {
    match op
    case Create(id, store, ok) =>
      w.(now := w.now.(provider := store, groups := if ok then AddGroup(w.now.groups, id) else w.now.groups))
    case Join(named, store, ok) =>
      var groups := if ok && named.Some? then AddGroup(w.now.groups, named.value) else w.now.groups;
      w.(now := w.now.(provider := store, groups := groups))
    case Work(store) => w.(now := w.now.(provider := store))
    case Save(order) => World(w.now, Blob(w.now, order), w.now)
    case Restart => if reopen(w.blob).Opened? then w.(now := reopen(w.blob).c) else w
  }

  function Run(w: World, ops: seq<Op>, reopen: Bytes -> Reopened): (w': World)
    decreases ops
  {
    if ops == [] then w else Run(Step(w, ops[0], reopen), ops[1..], reopen)
  }

  /** Every save dumps the store it finds. */
  ghost predicate Faithful(w: World, ops: seq<Op>, reopen: Bytes -> Reopened)
    decreases ops
  {
    ops == [] ||
    (&& (ops[0].Save? ==> Snapshot.Lists(ops[0].order, w.now.provider))
     && Faithful(Step(w, ops[0], reopen), ops[1..], reopen))
  }

  ghost predicate DistinctIds(groups: seq<JsString>) {
    forall i, j :: 0 <= i < j < |groups| ==> groups[i] != groups[j]
  }

  /** The stored snapshot is one of the saved client, and no group is listed twice. */
  ghost predicate Consistent(w: World) {
    && DistinctIds(w.now.groups) && DistinctIds(w.saved.groups)
    && exists order :: Snapshot.Lists(order, w.saved.provider) && w.blob == Blob(w.saved, order)
  }

  /** A first start, which saves at once, is consistent. */
  lemma FirstStart(c: Client, order: seq<Snapshot.Pair>)
    requires Snapshot.Lists(order, c.provider) && c.groups == []
    ensures Consistent(World(c, Blob(c, order), c))
  {
  }

  /** Opened clients list no group twice. */
  ghost predicate OpensDistinct(reopen: Bytes -> Reopened) {
    forall b :: reopen(b).Opened? ==> DistinctIds(reopen(b).c.groups)
  }

  lemma {:induction false} RunConsistent(w: World, ops: seq<Op>, reopen: Bytes -> Reopened)
    requires Consistent(w) && Faithful(w, ops, reopen) && OpensDistinct(reopen)
    ensures Consistent(Run(w, ops, reopen))
    decreases ops
  {
    if ops == [] {
    } else {
      RunConsistent(Step(w, ops[0], reopen), ops[1..], reopen);
    }
  }

  lemma {:induction false} AddGroupsDistinct(groups: seq<JsString>, ids: seq<JsString>)
    requires DistinctIds(groups)
    ensures DistinctIds(AddGroups(groups, ids))
    decreases ids
  {
    if ids == [] {
    } else {
      AddGroupsDistinct(AddGroup(groups, ids[0]), ids[1..]);
    }
  }

  lemma ReopenDistinct(blob: Bytes, wasm: Wasm)
    ensures Reopen(blob, wasm).Opened? ==> DistinctIds(Reopen(blob, wasm).c.groups)
  {
    match Decoded(blob)
    case Corrupt =>
    case Unsupported(_) =>
    case Ok(e) => AddGroupsDistinct([], e.groupIds);
  }

  /** The dump and the other parts of the stored snapshot are below 4 GiB, and so is their number. */
  ghost predicate Fits(w: World) {
    forall order :: Snapshot.Lists(order, w.saved.provider) ==>
      SizesFit(Parts(w.saved.identity, Snapshot.Snapshot(order), Texts(w.saved.groups)))
  }

  lemma {:induction false} AddGroupsSize(groups: seq<JsString>, ids: seq<JsString>)
    ensures |AddGroups(groups, ids)| <= |groups| + |ids|
    ensures |AddGroups(groups, ids)| == |groups| + |ids| ==> AddGroups(groups, ids) == groups + ids
    ensures DistinctIds(groups + ids) ==> AddGroups(groups, ids) == groups + ids
    decreases ids
  {
    if ids == [] {
      assert groups + ids == groups;
    } else {
      AddGroupsSize(AddGroup(groups, ids[0]), ids[1..]);
      assert groups + ids == (groups + [ids[0]]) + ids[1..];
      if DistinctIds(groups + ids) {
        assert forall i :: 0 <= i < |groups| ==> (groups + ids)[i] == groups[i] != (groups + ids)[|groups|] == ids[0];
      }
    }
  }

  /** What reopening a snapshot amounts to once both round trips are known. */
  lemma ReopenBlob(c: Client, order: seq<Snapshot.Pair>, wasm: Wasm)
    requires Snapshot.Lists(order, c.provider)
    requires SizesFit(Parts(c.identity, Snapshot.Snapshot(order), Texts(c.groups)))
    ensures var ids := Ids(Texts(c.groups));
            Reopen(Blob(c, order), wasm) ==
            if wasm.identifies(c.identity) && AllLoad(wasm, c.provider, ids)
            then Opened(Client(c.identity, c.provider, AddGroups([], ids))) else Failed
  {
    var dump := Snapshot.Snapshot(order);
    var e := Envelope(c.identity, dump, c.groups);
    DecodeSized(e, []);
    assert Encoded(e) + [] == Encoded(e);
    Snapshot.RoundTrip(order, c.provider, [], Snapshot.Wasm32);
    assert dump + [] == dump;
  }

  lemma SameGroupsIff(groups: seq<JsString>, ids: seq<JsString>)
    requires DistinctIds(groups) && |ids| == |groups|
    ensures AddGroups([], ids) == groups <==> ids == groups
  {
    AddGroupsSize([], ids);
    assert [] + ids == ids;
  }

  ghost predicate Restorable(c: Client, wasm: Wasm) {
    && wasm.identifies(c.identity)
    && forall i :: 0 <= i < |c.groups| ==> Survives(c.groups[i]) && wasm.loads(c.provider, c.groups[i])
  }

  lemma ReopenIff(c: Client, order: seq<Snapshot.Pair>, wasm: Wasm)
    requires Snapshot.Lists(order, c.provider) && DistinctIds(c.groups)
    requires SizesFit(Parts(c.identity, Snapshot.Snapshot(order), Texts(c.groups)))
    ensures Reopen(Blob(c, order), wasm) == Opened(c) <==> Restorable(c, wasm)
  {
    ReopenBlob(c, order, wasm);
    var r, ids := Reopen(Blob(c, order), wasm), Ids(Texts(c.groups));
    SameGroupsIff(c.groups, ids);
    IdsIff(c.groups);
    assert r == Opened(c) <==> ids == c.groups && wasm.identifies(c.identity) && AllLoad(wasm, c.provider, c.groups);
  }

  /**
    After every run, restarts included, reopening restores exactly the identity, store and groups of
    the last snapshot written if and only if its identity is accepted and each of its group ids
    survives UTF-8 and loads from the stored provider.
    */
  lemma RestartIff(w: World, ops: seq<Op>, wasm: Wasm)
    requires Consistent(w) && Faithful(w, ops, b => Reopen(b, wasm)) && Fits(Run(w, ops, b => Reopen(b, wasm)))
    ensures var w' := Run(w, ops, b => Reopen(b, wasm));
            Reopen(w'.blob, wasm) == Opened(w'.saved) <==> Restorable(w'.saved, wasm)
  {
    var reopen := (b: Bytes) => Reopen(b, wasm);
    forall b ensures reopen(b).Opened? ==> DistinctIds(reopen(b).c.groups) {
      ReopenDistinct(b, wasm);
    }
    RunConsistent(w, ops, reopen);
    SavedReopens(Run(w, ops, reopen), wasm);
  }

  lemma SavedReopens(w: World, wasm: Wasm)
    requires Consistent(w) && Fits(w)
    ensures Reopen(w.blob, wasm) == Opened(w.saved) <==> Restorable(w.saved, wasm)
  {
    var order :| Snapshot.Lists(order, w.saved.provider) && w.blob == Blob(w.saved, order);
    ReopenIff(w.saved, order, wasm);
  }

  lemma OneId(a: JsString, b: JsString, d: JsString)
    requires DecodeText(Utf8(a)) == d && DecodeText(Utf8(b)) == d
    ensures AddGroups([], Ids(Texts([a, b]))) == [d]
    ensures forall i :: 0 <= i < 2 ==> Ids(Texts([a, b]))[i] == d
  {
    var ids := Ids(Texts([a, b]));
    var none: seq<JsString>, one: seq<JsString> := [], [d];
    assert ids[0] == d && ids[1..] == one && one[1..] == none;
    assert AddGroup(none, d) == one && AddGroup(one, d) == one;
    assert AddGroups(none, ids) == AddGroups(one, one) == AddGroups(one, none) == one;
  }

  lemma PairFits(identity: Bytes, a: JsString, b: JsString)
    requires |identity| < U32_RANGE && |a| == |b| == 1
    ensures SizesFit(Parts(identity, Snapshot.Snapshot([]), Texts([a, b])))
  {
    Utf8Bound(a);
    Utf8Bound(b);
    assert |Snapshot.Snapshot([])| == 8;
  }

  /** What fails: groups whose ids are different lone surrogates come back as one. */
  lemma GroupsCollapse(identity: Bytes, wasm: Wasm)
    requires |identity| < U32_RANGE && wasm.identifies(identity) && wasm.loads(map[], [REPLACEMENT])
    ensures var c := Client(identity, map[], [[0xD800], [0xD801]]);
            Reopen(Blob(c, []), wasm) == Opened(Client(identity, map[], [[REPLACEMENT]]))
  {
    var c := Client(identity, map[], [[0xD800], [0xD801]]);
    LoneSurrogate(0xD800);
    LoneSurrogate(0xD801);
    OneId([0xD800], [0xD801], [REPLACEMENT]);
    PairFits(identity, [0xD800], [0xD801]);
    ReopenBlob(c, [], wasm);
  }

  // ---- Calls on the object ----

  /** A save writes the store in whatever order it is dumped; the other calls are what they are. */
  predicate Answers(op: Op, call: Op) {
    if call.Save? then op.Save? else op == call
  }

  lemma RunLast(w: World, ops: seq<Op>, op: Op, reopen: Bytes -> Reopened)
    ensures Run(w, ops + [op], reopen) == Step(Run(w, ops, reopen), op, reopen)
  {
    RunAppend(w, ops, [op], reopen);
    var w' := Run(w, ops, reopen);
    assert [op][1..] == [];
    assert Run(w', [op], reopen) == Run(Step(w', op, reopen), [op][1..], reopen);
  }

  lemma {:induction false} FaithfulLast(w: World, ops: seq<Op>, op: Op, reopen: Bytes -> Reopened)
    requires Faithful(w, ops, reopen)
    requires op.Save? ==> Snapshot.Lists(op.order, Run(w, ops, reopen).now.provider)
    ensures Faithful(w, ops + [op], reopen)
    decreases ops
  {
    if ops == [] {
      assert (ops + [op])[1..] == [];
    } else {
      assert (ops + [op])[1..] == ops[1..] + [op];
      FaithfulLast(Step(w, ops[0], reopen), ops[1..], op, reopen);
    }
  }

  /** One call on the object, or on the one a restart opens in its place. */
  method Invoke(c: MlsClient, adapter: Adapter, call: Op, wasm: Wasm, ghost w: World)
    returns (c': MlsClient, ghost op: Op)
    requires c.adapter == adapter && c.id in adapter.blobs && w.now == c.View() && w.blob == adapter.blobs[c.id]
    modifies c, adapter
    ensures Answers(op, call) && (op.Save? ==> Snapshot.Lists(op.order, w.now.provider))
    ensures (c' == c || fresh(c')) && c'.id == c.id && c'.adapter == adapter && c.id in adapter.blobs
    ensures var w' := Step(w, op, b => Reopen(b, wasm));
            w'.now == c'.View() && w'.blob == adapter.blobs[c.id]
  {
    c', op := c, call;
    match call {
      case Create(id, store, ok) => c.CreateGroup(id, store, ok);
      case Join(named, store, ok) => c.JoinGroup(named, store, ok);
      case Work(store) => c.provider := store;
      case Save(_) =>
        ghost var order := c.Save();
        op := Save(order);
      case Restart =>
        var again := Open(c.id, adapter, Client([], map[], []), wasm);
        if again != null { c' := again; }
    }
  }

  /** A run of calls on the object, and on the object each restart opens, is a run of the machine. */
  method Perform(c: MlsClient, adapter: Adapter, calls: seq<Op>, wasm: Wasm, ghost saved: Client)
    returns (c': MlsClient, ghost ops: seq<Op>)
    requires c.adapter == adapter && c.id in adapter.blobs
    modifies c, adapter
    ensures |ops| == |calls| && forall i :: 0 <= i < |ops| ==> Answers(ops[i], calls[i])
    ensures c.id in adapter.blobs && c'.id == c.id
    ensures var w, reopen := World(old(c.View()), old(adapter.blobs)[c.id], saved), b => Reopen(b, wasm);
            && Faithful(w, ops, reopen)
            && Run(w, ops, reopen).now == c'.View() && Run(w, ops, reopen).blob == adapter.blobs[c.id]
  {
    c', ops := c, [];
    ghost var reopen := (b: Bytes) => Reopen(b, wasm);
    ghost var w := World(c.View(), adapter.blobs[c.id], saved);
    for i := 0 to |calls|
      invariant |ops| == i && forall k :: 0 <= k < i ==> Answers(ops[k], calls[k])
      invariant (c' == c || fresh(c')) && c'.id == c.id && c'.adapter == adapter && c.id in adapter.blobs
      invariant Faithful(w, ops, reopen)
      invariant Run(w, ops, reopen).now == c'.View() && Run(w, ops, reopen).blob == adapter.blobs[c.id]
    {
      ghost var op;
      c', op := Invoke(c', adapter, calls[i], wasm, Run(w, ops, reopen));
      RunLast(w, ops, op, reopen);
      FaithfulLast(w, ops, op, reopen);
      ops := ops + [op];
    }
  }

  // ---- Which groups come back ----

  predicate Names(op: Op, id: JsString) {
    (op.Create? && op.ok && op.id == id) || (op.Join? && op.ok && op.named == Some(id))
  }

  /** Between restarts the groups are those created, and those joined under an id. */
  lemma {:induction false} GroupsAreNamed(w: World, ops: seq<Op>, id: JsString, reopen: Bytes -> Reopened)
    requires forall i :: 0 <= i < |ops| ==> !ops[i].Restart?
    ensures id in Run(w, ops, reopen).now.groups <==>
            id in w.now.groups || exists i :: 0 <= i < |ops| && Names(ops[i], id)
    decreases ops
  {
    if ops == [] {
    } else {
      GroupsAreNamed(Step(w, ops[0], reopen), ops[1..], id, reopen);
      if i :| 0 <= i < |ops[1..]| && Names(ops[1..][i], id) {
        assert Names(ops[i + 1], id);
      }
      if i :| 0 < i < |ops| && Names(ops[i], id) {
        assert Names(ops[1..][i - 1], id);
      }
    }
  }

  lemma {:induction false} NoSaveKeeps(w: World, ops: seq<Op>, reopen: Bytes -> Reopened)
    requires forall i :: 0 <= i < |ops| ==> !ops[i].Save?
    ensures Run(w, ops, reopen).blob == w.blob && Run(w, ops, reopen).saved == w.saved
    decreases ops
  {
    if ops == [] {
    } else {
      NoSaveKeeps(Step(w, ops[0], reopen), ops[1..], reopen);
    }
  }

  lemma {:induction false} RunAppend(w: World, a: seq<Op>, b: seq<Op>, reopen: Bytes -> Reopened)
    ensures Run(w, a + b, reopen) == Run(Run(w, a, reopen), b, reopen)
    decreases a
  {
    if a == [] {
      assert a + b == b;
    } else {
      RunAppend(Step(w, a[0], reopen), a[1..], b, reopen);
      assert (a + b)[1..] == a[1..] + b;
    }
  }

  lemma RunSave(w: World, order: seq<Snapshot.Pair>, reopen: Bytes -> Reopened)
    ensures Run(w, [Save(order)], reopen).saved == w.now
  {
    assert [Save(order)][1..] == [];
    assert Run(w, [Save(order)], reopen) == Run(Step(w, Save(order), reopen), [Save(order)][1..], reopen);
  }

  /** The call at `i` is a restart that opens the snapshot it finds. */
  predicate OpensAt(w: World, ops: seq<Op>, i: nat, reopen: Bytes -> Reopened)
    requires i < |ops|
  {
    ops[i].Restart? && reopen(Run(w, ops[..i], reopen).blob).Opened?
  }

  /** How many calls there were up to the last restart that opened. */
  function LastOpen(w: World, ops: seq<Op>, reopen: Bytes -> Reopened): (k: nat)
    ensures k <= |ops|
    decreases |ops|
  {
    if ops == [] then 0
    else if OpensAt(w, ops, |ops| - 1, reopen) then |ops|
    else LastOpen(w, ops[..|ops| - 1], reopen)
  }

  lemma StepNames(w: World, op: Op, id: JsString, reopen: Bytes -> Reopened)
    requires !(op.Restart? && reopen(w.blob).Opened?)
    ensures id in Step(w, op, reopen).now.groups <==> id in w.now.groups || Names(op, id)
  {
  }

  ghost predicate NamedFrom(ops: seq<Op>, k: nat, id: JsString) {
    exists i :: k <= i < |ops| && Names(ops[i], id)
  }

  lemma NamedLast(front: seq<Op>, last: Op, k: nat, id: JsString)
    requires k <= |front|
    ensures NamedFrom(front + [last], k, id) <==> NamedFrom(front, k, id) || Names(last, id)
  {
    var ops := front + [last];
    if Names(last, id) {
      assert Names(ops[|front|], id);
    }
    if i :| k <= i < |front| && Names(front[i], id) {
      assert Names(ops[i], id);
    }
  }

  /** The groups are those the last restart brought back and those named since. */
  lemma {:induction false} GroupsSinceOpen(w: World, ops: seq<Op>, id: JsString, reopen: Bytes -> Reopened)
    ensures var k := LastOpen(w, ops, reopen);
            var w' := Run(w, ops[..k], reopen);
            && (id in Run(w, ops, reopen).now.groups <==> id in w'.now.groups || NamedFrom(ops, k, id))
            && (if k == 0 then w' == w else reopen(w'.blob) == Opened(w'.now))
    decreases |ops|
  {
    if ops == [] {
    } else {
      var n := |ops| - 1;
      var front, last := ops[..n], ops[n];
      assert ops == front + [last];
      RunLast(w, front, last, reopen);
      if OpensAt(w, ops, n, reopen) {
        assert ops[..|ops|] == ops;
      } else {
        var k := LastOpen(w, front, reopen);
        GroupsSinceOpen(w, front, id, reopen);
        assert front[..k] == ops[..k];
        StepNames(Run(w, front, reopen), last, id, reopen);
        NamedLast(front, last, k, id);
      }
    }
  }

  /**
    The groups a restart can bring back are the ones that the last restart before the last save
    brought back, and the ones created or joined under an id between the two; a group joined
    without an id never is.
    */
  lemma SavedGroups(w: World, before: seq<Op>, order: seq<Snapshot.Pair>, after: seq<Op>, id: JsString,
      reopen: Bytes -> Reopened)
    requires forall i :: 0 <= i < |after| ==> !after[i].Save?
    ensures var k := LastOpen(w, before, reopen);
            id in Run(w, before + [Save(order)] + after, reopen).saved.groups <==>
            id in Run(w, before[..k], reopen).now.groups || NamedFrom(before, k, id)
  {
    RunAppend(w, before + [Save(order)], after, reopen);
    RunAppend(w, before, [Save(order)], reopen);
    RunSave(Run(w, before, reopen), order, reopen);
    NoSaveKeeps(Run(w, before + [Save(order)], reopen), after, reopen);
    GroupsSinceOpen(w, before, id, reopen);
  }
}

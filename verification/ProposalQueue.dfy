/**
  The proposal queue of the in-memory provider: a list of references per group plus one body
  entry per reference, against the SQLite provider's table of rows.
  */
module ProposalQueue {
  import opened Bytes
  import opened Json
  import opened FlatStore
  import opened StoredLists

  /** A provider answer: a value, a reported error, or an `unwrap` on nothing. */
  datatype Outcome<+T> = Ok(value: T) | Err | Panic

  datatype Item = Item(ref: Json, body: Json)

  function RefsEntry(g: Json): (x: Entry) {
    Entry(ProposalQueueRefs, Encode(g), CURRENT_VERSION)
  }

  function BodyEntry(g: Json, r: Json): (x: Entry) {
    Entry(QueuedProposal, Encode(Arr([g, r])), CURRENT_VERSION)
  }

  // ---- The in-memory provider ----

  /** The stored list at `x`, empty if absent; `None` if the text is not a list. */
  function ListAt(t: Typed, x: Entry): (l: Option<seq<Bytes>>) {
    if x in t then DecodeList(t[x]) else Some([])
  }

  /** `append`; the flag is false on a malformed list, which is then left alone. */
  function Append(t: Typed, x: Entry, v: Bytes): (r: (Typed, bool)) {
    match ListAt(t, x)
    case Some(l) => (t[x := EncodeList(l + [v])], true)
    case None => (t, false)
  }

  function RemoveFirst<T(==)>(s: seq<T>, v: T): (r: seq<T>) {
    if s == [] then []
    else if s[0] == v then s[1..]
    else [s[0]] + RemoveFirst(s[1..], v)
  }

  /** `remove_item`. */
  function RemoveItem(t: Typed, x: Entry, v: Bytes): (r: (Typed, bool)) {
    match ListAt(t, x)
    case Some(l) => (t[x := EncodeList(RemoveFirst(l, v))], true)
    case None => (t, false)
  }

  function Queued(t: Typed, g: Json, r: Json, p: Json): (t': (Typed, bool)) {
    Append(t[BodyEntry(g, r) := Encode(p)], RefsEntry(g), Encode(r))
  }

  function Removed(t: Typed, g: Json, r: Json): (t': (Typed, bool)) {
    var (t1, ok) := RemoveItem(t, RefsEntry(g), Encode(r));
    (if ok then t1 - {BodyEntry(g, r)} else t1, ok)
  }

  /** What clearing amounts to once its unlabelled removals are known to miss. */
  function Cleared(t: Typed, g: Json): (t': Typed) {
    if Refs(t, g).Ok? then t - {RefsEntry(g)} else t
  }

  function DecodeAll(texts: seq<Bytes>): (js: Option<seq<Json>>) {
    if texts == [] then Some([])
    else
      match (Decode(texts[0]), DecodeAll(texts[1..]))
      case (Some(j), Some(js)) => Some([j] + js)
      case _ => None
  }

  /** `queued_proposal_refs`, by `read_list`. */
  function Refs(t: Typed, g: Json): (o: Outcome<seq<Json>>) {
    match ListAt(t, RefsEntry(g))
    case None => Panic
    case Some(texts) =>
      match DecodeAll(texts)
      case Some(refs) => Ok(refs)
      case None => Err
  }

  function Bodies(t: Typed, g: Json, refs: seq<Json>): (o: Outcome<seq<Item>>) {
    if refs == [] then Ok([])
    else if BodyEntry(g, refs[0]) !in t then Panic
    else
      match Decode(t[BodyEntry(g, refs[0])])
      case None => Err
      case Some(p) =>
        match Bodies(t, g, refs[1..])
        case Ok(rest) => Ok([Item(refs[0], p)] + rest)
        case Err => Err
        case Panic => Panic
  }

  /** `queued_proposals`. */
  function Proposals(t: Typed, g: Json): (o: Outcome<seq<Item>>) {
    match Refs(t, g)
    case Ok(refs) => Bodies(t, g, refs)
    case Err => Err
    case Panic => Panic
  }

  function Prepend(read: seq<Item>, o: Outcome<seq<Item>>): (o': Outcome<seq<Item>>) {
    match o case Ok(rest) => Ok(read + rest) case Err => Err case Panic => Panic
  }

  lemma PrependNothing(o: Outcome<seq<Item>>)
    ensures Prepend([], o) == o
  {
    if o.Ok? {
      assert [] + o.value == o.value;
    }
  }

  /** Reading one body off the front. */
  lemma BodiesStep(t: Typed, g: Json, refs: seq<Json>, read: seq<Item>, p: Json)
    requires refs != [] && BodyEntry(g, refs[0]) in t && Decode(t[BodyEntry(g, refs[0])]) == Some(p)
    ensures Prepend(read, Bodies(t, g, refs)) == Prepend(read + [Item(refs[0], p)], Bodies(t, g, refs[1..]))
  {
    var rest := Bodies(t, g, refs[1..]);
    if rest.Ok? {
      assert read + ([Item(refs[0], p)] + rest.value) == (read + [Item(refs[0], p)]) + rest.value;
    }
  }

  // ---- Runs, on both providers ----

  /** A queue call, or a write or delete of an entry of any other table. */
  datatype Op =
    | Queue(g: Json, r: Json, p: Json)
    | Remove(g: Json, r: Json)
    | Clear(g: Json)
    | Other(x: Entry, v: Option<Bytes>)

  predicate WellFormed(op: Op) {
    op.Other? ==> op.x.table != QueuedProposal && op.x.table != ProposalQueueRefs
  }

  function Step(t: Typed, op: Op): (t': Typed) {
    match op
    case Queue(g, r, p) => Queued(t, g, r, p).0
    case Remove(g, r) => Removed(t, g, r).0
    case Clear(g) => Cleared(t, g)
    case Other(x, Some(v)) => t[x := v]
    case Other(x, None) => t - {x}
  }

  function Run(t: Typed, ops: seq<Op>): (t': Typed)
    decreases ops
  {
    if ops == [] then t else Run(Step(t, ops[0]), ops[1..])
  }

  /** The `openmls_proposals` table, keyed by its primary key. */
  type Table = map<(Json, Json), Json>

  /** INSERT OR IGNORE, DELETE by key, DELETE by group. */
  function SqlStep(db: Table, op: Op): (db': Table) {
    match op
    case Queue(g, r, p) => if (g, r) in db then db else db[(g, r) := p]
    case Remove(g, r) => db - {(g, r)}
    case Clear(g) => map k | k in db && k.0 != g :: db[k]
    case Other(_, _) => db
  }

  function SqlRun(db: Table, ops: seq<Op>): (db': Table)
    decreases ops
  {
    if ops == [] then db else SqlRun(SqlStep(db, ops[0]), ops[1..])
  }

  /** No call queues a reference that is queued at that moment. */
  predicate NeverRequeues(db: Table, ops: seq<Op>)
    decreases ops
  {
    ops == [] ||
    (!(ops[0].Queue? && (ops[0].g, ops[0].r) in db) && NeverRequeues(SqlStep(db, ops[0]), ops[1..]))
  }

  ghost predicate Distinct(items: seq<Item>) {
    forall i, j :: 0 <= i < j < |items| ==> items[i].ref != items[j].ref
  }

  /** `items` lists the rows of group `g`, each once. */
  ghost predicate ListsRows(items: seq<Item>, db: Table, g: Json) {
    && Distinct(items)
    && forall r, p :: Item(r, p) in items <==> (g, r) in db && db[(g, r)] == p
  }

  /** Reading any group's queue back succeeds and yields that group's rows. */
  ghost predicate Agree(t: Typed, db: Table) {
    forall g :: Proposals(t, g).Ok? && ListsRows(Proposals(t, g).value, db, g)
  }

  ghost predicate AgreesThroughout(t: Typed, db: Table, ops: seq<Op>)
    decreases ops
  {
    Agree(t, db) && (ops == [] || AgreesThroughout(Step(t, ops[0]), SqlStep(db, ops[0]), ops[1..]))
  }

  // ---- Entries do not collide ----

  lemma EntriesApart(g: Json, r: Json, g': Json, r': Json)
    ensures RefsEntry(g) == RefsEntry(g') ==> g == g'
    ensures BodyEntry(g, r) == BodyEntry(g', r') ==> g == g' && r == r'
    ensures RefsEntry(g) != BodyEntry(g', r')
  {
    if RefsEntry(g) == RefsEntry(g') {
      EncodeInjective(g, g');
    }
    if BodyEntry(g, r) == BodyEntry(g', r') {
      EncodeInjective(Arr([g, r]), Arr([g', r']));
      assert [g, r][0] == g && [g, r][1] == r;
      assert [g', r'][0] == g' && [g', r'][1] == r';
    }
  }

  // ---- What one call does ----

  function BodyAt(t: Typed, g: Json, r: Json): (b: Option<Bytes>) {
    if BodyEntry(g, r) in t then Some(t[BodyEntry(g, r)]) else None
  }

  function Texts(list: seq<Json>): (texts: seq<Bytes>) {
    seq(|list|, i requires 0 <= i < |list| => Encode(list[i]))
  }

  lemma {:induction false} DecodeTexts(list: seq<Json>)
    ensures DecodeAll(Texts(list)) == Some(list)
  {
    if list == [] {
    } else {
      DecodeTexts(list[1..]);
      DecodeEncode(list[0]);
      assert Texts(list)[1..] == Texts(list[1..]);
      assert list == [list[0]] + list[1..];
    }
  }

  lemma {:induction false} RemoveText(list: seq<Json>, r: Json)
    ensures RemoveFirst(Texts(list), Encode(r)) == Texts(RemoveFirst(list, r))
  {
    if list == [] {
    } else {
      assert Texts(list)[1..] == Texts(list[1..]);
      if list[0] != r {
        if Encode(list[0]) == Encode(r) {
          EncodeInjective(list[0], r);
        }
        RemoveText(list[1..], r);
        assert Texts([list[0]] + RemoveFirst(list[1..], r)) == [Encode(list[0])] + Texts(RemoveFirst(list[1..], r));
      }
    }
  }

  /** What a call makes of a group's list of references. */
  function ListStep(list: seq<Json>, op: Op, g: Json): (list': seq<Json>) {
    match op
    case Queue(g', r, _) => if g' == g then list + [r] else list
    case Remove(g', r) => if g' == g then RemoveFirst(list, r) else list
    case Clear(g') => if g' == g then [] else list
    case Other(_, _) => list
  }

  /** The list of group `g` after one call. */
  lemma StepList(t: Typed, op: Op, g: Json)
    requires WellFormed(op)
    ensures ListAt(Step(t, op), RefsEntry(g)) ==
      match op
      case Queue(g', r, _) =>
        if g' == g && ListAt(t, RefsEntry(g)).Some? then Some(ListAt(t, RefsEntry(g)).value + [Encode(r)])
        else ListAt(t, RefsEntry(g))
      case Remove(g', r) =>
        if g' == g && ListAt(t, RefsEntry(g)).Some? then Some(RemoveFirst(ListAt(t, RefsEntry(g)).value, Encode(r)))
        else ListAt(t, RefsEntry(g))
      case Clear(g') => if g' == g && Refs(t, g).Ok? then Some([]) else ListAt(t, RefsEntry(g))
      case Other(_, _) => ListAt(t, RefsEntry(g))
  {
    match op
    case Queue(g', r, p) =>
      EntriesApart(g, r, g', r);
      EntriesApart(g', r, g', r);
      if ListAt(t, RefsEntry(g')).Some? {
        ListRoundTrip(ListAt(t, RefsEntry(g')).value + [Encode(r)]);
      }
    case Remove(g', r) =>
      EntriesApart(g, r, g', r);
      if ListAt(t, RefsEntry(g')).Some? {
        ListRoundTrip(RemoveFirst(ListAt(t, RefsEntry(g')).value, Encode(r)));
      }
    case Clear(g') =>
      EntriesApart(g, g, g', g');
    case Other(_, _) =>
  }

  /** The body of reference `r` of group `g` after one call. */
  lemma StepBody(t: Typed, op: Op, g: Json, r: Json)
    requires WellFormed(op)
    ensures BodyAt(Step(t, op), g, r) ==
      match op
      case Queue(g', r', p) => if g' == g && r' == r then Some(Encode(p)) else BodyAt(t, g, r)
      case Remove(g', r') =>
        if g' == g && r' == r && ListAt(t, RefsEntry(g)).Some? then None else BodyAt(t, g, r)
      case _ => BodyAt(t, g, r)
  {
    match op
    case Queue(g', r', p) =>
      EntriesApart(g, r, g', r');
      EntriesApart(g', r', g, r);
    case Remove(g', r') =>
      EntriesApart(g, r, g', r');
      EntriesApart(g', r', g, r);
    case Clear(g') =>
    case Other(_, _) =>
  }

  lemma StepListed(t: Typed, op: Op, g: Json, list: seq<Json>)
    requires WellFormed(op) && ListAt(t, RefsEntry(g)) == Some(Texts(list))
    ensures ListAt(Step(t, op), RefsEntry(g)) == Some(Texts(ListStep(list, op, g)))
  {
    StepList(t, op, g);
    match op
    case Queue(_, r, _) => assert Texts(list + [r]) == Texts(list) + [Encode(r)];
    case Remove(_, r) => RemoveText(list, r);
    case Clear(_) =>
      DecodeTexts(list);
      assert Texts([]) == [];
    case Other(_, _) =>
  }

  // ---- The insertion-ordered map ----

  /** An insertion-ordered queue per group; an absent group is empty. */
  type Queues = map<Json, seq<Item>>

  function QueueOf(q: Queues, g: Json): (items: seq<Item>) {
    if g in q then q[g] else []
  }

  function RemoveRef(items: seq<Item>, r: Json): (rest: seq<Item>) {
    if items == [] then []
    else if items[0].ref == r then items[1..]
    else [items[0]] + RemoveRef(items[1..], r)
  }

  function QueuesStep(q: Queues, op: Op): (q': Queues) {
    match op
    case Queue(g, r, p) => q[g := QueueOf(q, g) + [Item(r, p)]]
    case Remove(g, r) => q[g := RemoveRef(QueueOf(q, g), r)]
    case Clear(g) => q - {g}
    case Other(_, _) => q
  }

  function QueuesRun(q: Queues, ops: seq<Op>): (q': Queues)
    decreases ops
  {
    if ops == [] then q else QueuesRun(QueuesStep(q, ops[0]), ops[1..])
  }

  function RefsOf(items: seq<Item>): (refs: seq<Json>) {
    seq(|items|, i requires 0 <= i < |items| => items[i].ref)
  }

  /** Group `g`'s entries hold exactly `items`. */
  ghost predicate Holds(t: Typed, g: Json, items: seq<Item>) {
    && ListAt(t, RefsEntry(g)) == Some(Texts(RefsOf(items)))
    && Distinct(items)
    && forall i :: 0 <= i < |items| ==> BodyAt(t, g, items[i].ref) == Some(Encode(items[i].body))
  }

  ghost predicate Represents(t: Typed, q: Queues) {
    forall g :: Holds(t, g, QueueOf(q, g))
  }

  lemma {:induction false} ReadBodies(t: Typed, g: Json, items: seq<Item>)
    requires forall i :: 0 <= i < |items| ==> BodyAt(t, g, items[i].ref) == Some(Encode(items[i].body))
    ensures Bodies(t, g, RefsOf(items)) == Ok(items)
  {
    if items == [] {
    } else {
      ReadBodies(t, g, items[1..]);
      DecodeEncode(items[0].body);
      assert RefsOf(items)[1..] == RefsOf(items[1..]);
      assert items == [items[0]] + items[1..];
    }
  }

  lemma ReadHeld(t: Typed, g: Json, items: seq<Item>)
    requires Holds(t, g, items)
    ensures Refs(t, g) == Ok(RefsOf(items)) && Proposals(t, g) == Ok(items)
  {
    DecodeTexts(RefsOf(items));
    ReadBodies(t, g, items);
  }

  /** Removing from distinct items drops the one with that reference and keeps the others' order. */
  lemma {:induction false} RemoveRefItems(items: seq<Item>, r: Json)
    requires Distinct(items)
    ensures Distinct(RemoveRef(items, r))
    ensures forall x :: x in RemoveRef(items, r) <==> x in items && x.ref != r
  {
    if items == [] {
    } else {
      assert items == [items[0]] + items[1..];
      RemoveRefItems(items[1..], r);
      if items[0].ref == r {
        assert forall x :: x in items[1..] ==> x.ref != r;
      }
    }
  }

  // ---- One step ----

  /** The reference is not among the group's items. */
  ghost predicate Fresh(q: Queues, g: Json, r: Json) {
    forall x :: x in QueueOf(q, g) ==> x.ref != r
  }

  lemma {:induction false} RefsAfterRemove(items: seq<Item>, r: Json)
    ensures RefsOf(RemoveRef(items, r)) == RemoveFirst(RefsOf(items), r)
  {
    if items == [] {
    } else {
      assert RefsOf(items)[1..] == RefsOf(items[1..]);
      RefsAfterRemove(items[1..], r);
      if items[0].ref != r {
        assert RefsOf([items[0]] + RemoveRef(items[1..], r)) == [items[0].ref] + RefsOf(RemoveRef(items[1..], r));
      }
    }
  }

  /** The items' references are listed the way the queue changes. */
  lemma StepRefs(q: Queues, op: Op, g: Json)
    ensures RefsOf(QueueOf(QueuesStep(q, op), g)) == ListStep(RefsOf(QueueOf(q, g)), op, g)
  {
    match op
    case Queue(_, r, p) => assert RefsOf(QueueOf(q, g) + [Item(r, p)]) == RefsOf(QueueOf(q, g)) + [r];
    case Remove(_, r) => RefsAfterRemove(QueueOf(q, g), r);
    case Clear(_) => assert RefsOf([]) == [];
    case Other(_, _) =>
  }

  lemma StepDistinct(q: Queues, op: Op, g: Json)
    requires Distinct(QueueOf(q, g)) && (op.Queue? ==> Fresh(q, op.g, op.r))
    ensures Distinct(QueueOf(QueuesStep(q, op), g))
    ensures forall x :: x in QueueOf(QueuesStep(q, op), g) ==>
              if op.Queue? && op.g == g && op.r == x.ref then x.body == op.p
              else x in QueueOf(q, g) && !(op.Remove? && op.g == g && op.r == x.ref)
  {
    if op.Remove? {
      RemoveRefItems(QueueOf(q, g), op.r);
    }
  }

  lemma StepHolds(t: Typed, q: Queues, op: Op, g: Json)
    requires Represents(t, q) && WellFormed(op) && (op.Queue? ==> Fresh(q, op.g, op.r))
    ensures Holds(Step(t, op), g, QueueOf(QueuesStep(q, op), g))
  {
    var items, items' := QueueOf(q, g), QueueOf(QueuesStep(q, op), g);
    assert Holds(t, g, items);
    StepListed(t, op, g, RefsOf(items));
    StepRefs(q, op, g);
    StepDistinct(q, op, g);
    forall i | 0 <= i < |items'|
      ensures BodyAt(Step(t, op), g, items'[i].ref) == Some(Encode(items'[i].body))
    {
      assert items'[i] in items';
      StepBody(t, op, g, items'[i].ref);
    }
  }

  lemma StepRepresents(t: Typed, q: Queues, op: Op)
    requires Represents(t, q) && WellFormed(op) && (op.Queue? ==> Fresh(q, op.g, op.r))
    ensures Represents(Step(t, op), QueuesStep(q, op))
  {
    forall g
      ensures Holds(Step(t, op), g, QueueOf(QueuesStep(q, op), g))
    {
      StepHolds(t, q, op, g);
    }
  }

  /** The rows of the table are the items of the queues. */
  ghost predicate SameRows(q: Queues, db: Table) {
    forall g :: ListsRows(QueueOf(q, g), db, g)
  }

  lemma NotQueued(q: Queues, db: Table, g: Json, r: Json)
    requires SameRows(q, db) && (g, r) !in db
    ensures Fresh(q, g, r)
  {
    assert ListsRows(QueueOf(q, g), db, g);
    forall x | x in QueueOf(q, g)
      ensures x.ref != r
    {
      assert x == Item(x.ref, x.body);
    }
  }

  lemma StepRows(q: Queues, db: Table, op: Op)
    requires SameRows(q, db)
    requires !(op.Queue? && (op.g, op.r) in db)
    ensures SameRows(QueuesStep(q, op), SqlStep(db, op))
  {
    var q', db' := QueuesStep(q, op), SqlStep(db, op);
    if op.Queue? {
      NotQueued(q, db, op.g, op.r);
    }
    forall g'
      ensures ListsRows(QueueOf(q', g'), db', g')
    {
      assert ListsRows(QueueOf(q, g'), db, g');
      if op.Remove? {
        RemoveRefItems(QueueOf(q, g'), op.r);
      }
    }
  }

  // ---- Whole runs ----

  lemma {:induction false} RunQueues(t: Typed, q: Queues, db: Table, ops: seq<Op>)
    requires Represents(t, q) && SameRows(q, db) && NeverRequeues(db, ops)
    requires forall i :: 0 <= i < |ops| ==> WellFormed(ops[i])
    ensures Represents(Run(t, ops), QueuesRun(q, ops))
    ensures SameRows(QueuesRun(q, ops), SqlRun(db, ops))
    decreases ops
  {
    if ops == [] {
    } else {
      if ops[0].Queue? {
        NotQueued(q, db, ops[0].g, ops[0].r);
      }
      StepRepresents(t, q, ops[0]);
      StepRows(q, db, ops[0]);
      RunQueues(Step(t, ops[0]), QueuesStep(q, ops[0]), SqlStep(db, ops[0]), ops[1..]);
    }
  }

  lemma EmptyStores()
    ensures Represents(map[], map[]) && SameRows(map[], map[])
  {
    forall g: Json
      ensures Holds(map[], g, [])
    {
      assert Texts(RefsOf([])) == [];
    }
  }

  /**
    On every run that never queues a queued reference, every group reads back its insertion-ordered
    queue, without error and without hitting the `unwrap` of a missing body.
    */
  lemma OrderedQueue(ops: seq<Op>, g: Json)
    requires forall i :: 0 <= i < |ops| ==> WellFormed(ops[i])
    requires NeverRequeues(map[], ops)
    ensures Proposals(Run(map[], ops), g) == Ok(QueueOf(QueuesRun(map[], ops), g))
    ensures Refs(Run(map[], ops), g) == Ok(RefsOf(QueueOf(QueuesRun(map[], ops), g)))
  {
    EmptyStores();
    RunQueues(map[], map[], map[], ops);
    assert Holds(Run(map[], ops), g, QueueOf(QueuesRun(map[], ops), g));
    ReadHeld(Run(map[], ops), g, QueueOf(QueuesRun(map[], ops), g));
  }

  lemma RepresentedAgree(t: Typed, q: Queues, db: Table)
    requires Represents(t, q) && SameRows(q, db)
    ensures Agree(t, db)
  {
    forall g
      ensures Proposals(t, g).Ok? && ListsRows(Proposals(t, g).value, db, g)
    {
      assert Holds(t, g, QueueOf(q, g)) && ListsRows(QueueOf(q, g), db, g);
      ReadHeld(t, g, QueueOf(q, g));
    }
  }

  lemma {:induction false} BodiesKeepRefs(t: Typed, g: Json, refs: seq<Json>)
    requires Bodies(t, g, refs).Ok?
    ensures RefsOf(Bodies(t, g, refs).value) == refs
  {
    if refs == [] {
      assert RefsOf([]) == [];
    } else {
      BodiesKeepRefs(t, g, refs[1..]);
      assert refs == [refs[0]] + refs[1..];
    }
  }

  lemma {:induction false} DecodeAllAppend(texts: seq<Bytes>, js: seq<Json>, r: Json)
    requires DecodeAll(texts) == Some(js)
    ensures DecodeAll(texts + [Encode(r)]) == Some(js + [r])
  {
    DecodeEncode(r);
    if texts == [] {
      assert texts + [Encode(r)] == [Encode(r)] && js + [r] == [r];
      assert DecodeAll([Encode(r)][1..]) == Some([]);
      assert [r] + [] == [r];
    } else {
      DecodeAllAppend(texts[1..], js[1..], r);
      assert (texts + [Encode(r)])[1..] == texts[1..] + [Encode(r)];
      assert js + [r] == [js[0]] + (js[1..] + [r]);
    }
  }

  /** Queueing a queued reference lists it twice. */
  lemma RequeueListsTwice(t: Typed, q: Queues, g: Json, r: Json, p: Json)
    requires Represents(t, q)
    ensures Refs(Step(t, Queue(g, r, p)), g) == Ok(RefsOf(QueueOf(q, g)) + [r])
  {
    var items := QueueOf(q, g);
    assert Holds(t, g, items);
    StepListed(t, Queue(g, r, p), g, RefsOf(items));
    DecodeTexts(RefsOf(items) + [r]);
  }

  lemma RequeueDisagrees(t: Typed, q: Queues, db: Table, g: Json, r: Json, p: Json)
    requires Represents(t, q) && SameRows(q, db) && (g, r) in db
    ensures !Agree(Step(t, Queue(g, r, p)), SqlStep(db, Queue(g, r, p)))
  {
    var t' := Step(t, Queue(g, r, p));
    var items := QueueOf(q, g);
    RequeueListsTwice(t, q, g, r, p);
    assert ListsRows(items, db, g) && Item(r, db[(g, r)]) in items;
    var i :| 0 <= i < |items| && items[i] == Item(r, db[(g, r)]);
    if Proposals(t', g).Ok? {
      var read := Proposals(t', g).value;
      BodiesKeepRefs(t', g, RefsOf(items) + [r]);
      assert RefsOf(read)[i] == r && RefsOf(read)[|items|] == r;
      assert read[i].ref == read[|items|].ref;
    }
  }

  lemma {:induction false} AgreementFrom(t: Typed, q: Queues, db: Table, ops: seq<Op>)
    requires Represents(t, q) && SameRows(q, db)
    requires forall i :: 0 <= i < |ops| ==> WellFormed(ops[i])
    ensures AgreesThroughout(t, db, ops) <==> NeverRequeues(db, ops)
    decreases ops
  {
    RepresentedAgree(t, q, db);
    if ops == [] {
    } else {
      var op := ops[0];
      if op.Queue? && (op.g, op.r) in db {
        RequeueDisagrees(t, q, db, op.g, op.r, op.p);
        assert !AgreesThroughout(Step(t, op), SqlStep(db, op), ops[1..]);
      } else {
        if op.Queue? {
          NotQueued(q, db, op.g, op.r);
        }
        StepRepresents(t, q, op);
        StepRows(q, db, op);
        AgreementFrom(Step(t, op), QueuesStep(q, op), SqlStep(db, op), ops[1..]);
      }
    }
  }

  /**
    The two providers agree after every call of a run, group by group and row by row, if and only
    if the run never queues a reference that is already queued.
    */
  lemma AgreementIff(ops: seq<Op>)
    requires forall i :: 0 <= i < |ops| ==> WellFormed(ops[i])
    ensures AgreesThroughout(map[], map[], ops) <==> NeverRequeues(map[], ops)
  {
    EmptyStores();
    AgreementFrom(map[], map[], map[], ops);
  }

  // ---- The missing body ----

  /** Reading panics exactly when some listed reference has no body entry. */
  lemma {:induction false} BodiesPanic(t: Typed, g: Json, refs: seq<Json>)
    requires forall r :: r in refs && BodyEntry(g, r) in t ==> Decode(t[BodyEntry(g, r)]).Some?
    ensures Bodies(t, g, refs) == Panic <==> exists r :: r in refs && BodyEntry(g, r) !in t
    ensures Bodies(t, g, refs) != Err
  {
    if refs == [] {
    } else {
      assert refs == [refs[0]] + refs[1..];
      BodiesPanic(t, g, refs[1..]);
    }
  }

  /** A group's list of references after a run, repeats included. */
  function Listed(list: seq<Json>, ops: seq<Op>, g: Json): (list': seq<Json>)
    decreases ops
  {
    if ops == [] then list else Listed(ListStep(list, ops[0], g), ops[1..], g)
  }

  function CopyStep(n: nat, op: Op, g: Json, r: Json): (n': nat) {
    match op
    case Queue(g', r', _) => if g' == g && r' == r then n + 1 else n
    case Remove(g', r') => if g' == g && r' == r && n > 0 then n - 1 else n
    case Clear(g') => if g' == g then 0 else n
    case Other(_, _) => n
  }

  /** How often a reference is listed: queued more often than removed since the group was last cleared. */
  function Copies(n: nat, ops: seq<Op>, g: Json, r: Json): (n': nat)
    decreases ops
  {
    if ops == [] then n else Copies(CopyStep(n, ops[0], g, r), ops[1..], g, r)
  }

  function BodyStep(b: Option<Json>, op: Op, g: Json, r: Json): (b': Option<Json>) {
    if op.Queue? && op.g == g && op.r == r then Some(op.p)
    else if op.Remove? && op.g == g && op.r == r then None
    else b
  }

  /** What the last queueing of a reference left as its body, if no removal came after. */
  function LastBody(b: Option<Json>, ops: seq<Op>, g: Json, r: Json): (b': Option<Json>)
    decreases ops
  {
    if ops == [] then b else LastBody(BodyStep(b, ops[0], g, r), ops[1..], g, r)
  }

  function BodyText(b: Option<Json>): (t: Option<Bytes>) {
    if b.Some? then Some(Encode(b.value)) else None
  }

  lemma {:induction false} RunListed(t: Typed, ops: seq<Op>, g: Json, list: seq<Json>)
    requires forall i :: 0 <= i < |ops| ==> WellFormed(ops[i])
    requires ListAt(t, RefsEntry(g)) == Some(Texts(list))
    ensures ListAt(Run(t, ops), RefsEntry(g)) == Some(Texts(Listed(list, ops, g)))
    decreases ops
  {
    if ops == [] {
    } else {
      StepListed(t, ops[0], g, list);
      RunListed(Step(t, ops[0]), ops[1..], g, ListStep(list, ops[0], g));
    }
  }

  lemma {:induction false} RunBody(t: Typed, ops: seq<Op>, g: Json, list: seq<Json>, r: Json, b: Option<Json>)
    requires forall i :: 0 <= i < |ops| ==> WellFormed(ops[i])
    requires ListAt(t, RefsEntry(g)) == Some(Texts(list)) && BodyAt(t, g, r) == BodyText(b)
    ensures BodyAt(Run(t, ops), g, r) == BodyText(LastBody(b, ops, g, r))
    decreases ops
  {
    if ops == [] {
    } else {
      StepListed(t, ops[0], g, list);
      StepBody(t, ops[0], g, r);
      RunBody(Step(t, ops[0]), ops[1..], g, ListStep(list, ops[0], g), r, BodyStep(b, ops[0], g, r));
    }
  }

  lemma {:induction false} RemoveCount(list: seq<Json>, v: Json, r: Json)
    ensures multiset(RemoveFirst(list, v))[r] == multiset(list)[r] - if v == r && v in list then 1 else 0
  {
    if list == [] {
    } else {
      assert list == [list[0]] + list[1..];
      RemoveCount(list[1..], v, r);
    }
  }

  lemma CountStep(list: seq<Json>, op: Op, g: Json, r: Json)
    ensures multiset(ListStep(list, op, g))[r] == CopyStep(multiset(list)[r], op, g, r)
  {
    if op.Remove? {
      RemoveCount(list, op.r, r);
    }
  }

  lemma {:induction false} CountListed(list: seq<Json>, ops: seq<Op>, g: Json, r: Json)
    ensures multiset(Listed(list, ops, g))[r] == Copies(multiset(list)[r], ops, g, r)
    decreases ops
  {
    if ops == [] {
    } else {
      CountStep(list, ops[0], g, r);
      CountListed(ListStep(list, ops[0], g), ops[1..], g, r);
    }
  }

  /** A reference that is still listed and that a removal touched last. */
  ghost predicate Bodiless(ops: seq<Op>, g: Json, r: Json) {
    Copies(0, ops, g, r) > 0 && LastBody(None, ops, g, r) == None
  }

  /**
    After every run, requeues included, the references read back are those queued more often than
    removed since the last clear. Reading the proposals panics if and only if one of them was touched
    last by a removal, and never fails otherwise.
    */
  lemma ReadPanicsIff(ops: seq<Op>, g: Json)
    requires forall i :: 0 <= i < |ops| ==> WellFormed(ops[i])
    ensures var t := Run(map[], ops);
            && Refs(t, g) == Ok(Listed([], ops, g))
            && (Proposals(t, g) == Panic <==> exists r :: Bodiless(ops, g, r))
            && Proposals(t, g) != Err
  {
    var t, list := Run(map[], ops), Listed([], ops, g);
    EmptyList(g);
    RunListed(map[], ops, g, []);
    DecodeTexts(list);
    forall r
      ensures r in list <==> Copies(0, ops, g, r) > 0
      ensures BodyAt(t, g, r) == None <==> LastBody(None, ops, g, r) == None
      ensures BodyAt(t, g, r).Some? ==> Decode(BodyAt(t, g, r).value).Some?
    {
      CountListed([], ops, g, r);
      RunBody(map[], ops, g, [], r, None);
      if LastBody(None, ops, g, r).Some? {
        DecodeEncode(LastBody(None, ops, g, r).value);
      }
    }
    BodiesPanic(t, g, list);
    if r :| Bodiless(ops, g, r) {
      assert r in list && BodyAt(t, g, r) == None;
    }
    if r :| r in list && BodyEntry(g, r) !in t {
      assert Bodiless(ops, g, r);
    }
  }

  lemma EmptyList(g: Json)
    ensures ListAt(map[], RefsEntry(g)) == Some(Texts([]))
  {
    assert Texts([]) == [];
  }

  /** The smallest such run: queue a reference twice and remove it once. */
  lemma RequeuedBodyMissing(g: Json, r: Json, p: Json, p': Json)
    ensures Proposals(Run(map[], [Queue(g, r, p), Queue(g, r, p'), Remove(g, r)]), g) == Panic
  {
    var ops := [Queue(g, r, p), Queue(g, r, p'), Remove(g, r)];
    assert ops[1..] == [Queue(g, r, p'), Remove(g, r)] && ops[1..][1..] == [Remove(g, r)] && ops[1..][1..][1..] == [];
    assert Copies(0, ops, g, r) == Copies(1, ops[1..], g, r) == Copies(2, ops[1..][1..], g, r) == 1;
    assert LastBody(None, ops, g, r) == LastBody(Some(p), ops[1..], g, r) ==
           LastBody(Some(p'), ops[1..][1..], g, r) == None;
    assert Bodiless(ops, g, r);
    ReadPanicsIff(ops, g);
  }

  // ---- Clearing ----

  /** The stores hold the same lists, and the same bodies for what the lists name. */
  ghost predicate Indistinguishable(t: Typed, t': Typed) {
    forall g ::
      && ListAt(t, RefsEntry(g)) == ListAt(t', RefsEntry(g))
      && forall text, r ::
           ListAt(t, RefsEntry(g)).Some? && text in ListAt(t, RefsEntry(g)).value && Decode(text) == Some(r) ==>
             BodyAt(t, g, r) == BodyAt(t', g, r)
  }

  lemma {:induction false} SameBodies(t: Typed, t': Typed, g: Json, refs: seq<Json>)
    requires forall r :: r in refs ==> BodyAt(t, g, r) == BodyAt(t', g, r)
    ensures Bodies(t, g, refs) == Bodies(t', g, refs)
  {
    if refs == [] {
    } else {
      assert BodyAt(t, g, refs[0]) == BodyAt(t', g, refs[0]);
      SameBodies(t, t', g, refs[1..]);
    }
  }

  lemma {:induction false} DecodedFrom(texts: seq<Bytes>, r: Json)
    requires DecodeAll(texts).Some? && r in DecodeAll(texts).value
    ensures exists text :: text in texts && Decode(text) == Some(r)
  {
    if Decode(texts[0]) == Some(r) {
    } else {
      DecodedFrom(texts[1..], r);
      var text :| text in texts[1..] && Decode(text) == Some(r);
      assert text in texts;
    }
  }

  lemma SameAnswers(t: Typed, t': Typed, g: Json)
    requires Indistinguishable(t, t')
    ensures Refs(t, g) == Refs(t', g) && Proposals(t, g) == Proposals(t', g)
  {
    assert ListAt(t, RefsEntry(g)) == ListAt(t', RefsEntry(g));
    if Refs(t, g).Ok? {
      forall r | r in Refs(t, g).value
        ensures BodyAt(t, g, r) == BodyAt(t', g, r)
      {
        DecodedFrom(ListAt(t, RefsEntry(g)).value, r);
      }
      SameBodies(t, t', g, Refs(t, g).value);
    }
  }

  lemma {:induction false} RemoveFirstKeeps(s: seq<Bytes>, v: Bytes)
    ensures forall x :: x in RemoveFirst(s, v) ==> x in s
  {
    if s == [] || s[0] == v {
    } else {
      RemoveFirstKeeps(s[1..], v);
    }
  }

  lemma StaysIndistinguishable(t: Typed, t': Typed, op: Op)
    requires Indistinguishable(t, t') && WellFormed(op)
    ensures Indistinguishable(Step(t, op), Step(t', op))
  {
    var s, s' := Step(t, op), Step(t', op);
    if op.Clear? {
      SameAnswers(t, t', op.g);
    }
    forall g
      ensures ListAt(s, RefsEntry(g)) == ListAt(s', RefsEntry(g))
      ensures forall text, r ::
                ListAt(s, RefsEntry(g)).Some? && text in ListAt(s, RefsEntry(g)).value && Decode(text) == Some(r) ==>
                  BodyAt(s, g, r) == BodyAt(s', g, r)
    {
      assert ListAt(t, RefsEntry(g)) == ListAt(t', RefsEntry(g));
      StepList(t, op, g);
      StepList(t', op, g);
      forall text, r | ListAt(s, RefsEntry(g)).Some? && text in ListAt(s, RefsEntry(g)).value && Decode(text) == Some(r)
        ensures BodyAt(s, g, r) == BodyAt(s', g, r)
      {
        StepBody(t, op, g, r);
        StepBody(t', op, g, r);
        if op.Queue? && text == Encode(op.r) {
          DecodeEncode(op.r);
        }
        if op.Queue? {
          assert ListAt(t, RefsEntry(op.g)) == ListAt(t', RefsEntry(op.g));
        }
        if op.Remove? {
          assert ListAt(t, RefsEntry(op.g)) == ListAt(t', RefsEntry(op.g));
          if op.g == g && ListAt(t, RefsEntry(g)).Some? {
            RemoveFirstKeeps(ListAt(t, RefsEntry(g)).value, Encode(op.r));
          }
        }
      }
    }
  }

  lemma {:induction false} RunIndistinguishable(t: Typed, t': Typed, ops: seq<Op>, g: Json)
    requires Indistinguishable(t, t')
    requires forall i :: 0 <= i < |ops| ==> WellFormed(ops[i])
    ensures Proposals(Run(t, ops), g) == Proposals(Run(t', ops), g)
    ensures Refs(Run(t, ops), g) == Refs(Run(t', ops), g)
    decreases ops
  {
    if ops == [] {
      SameAnswers(t, t', g);
    } else {
      StaysIndistinguishable(t, t', ops[0]);
      RunIndistinguishable(Step(t, ops[0]), Step(t', ops[0]), ops[1..], g);
    }
  }

  /** Clearing that also deleted every body of the group, as the SQL statement does. */
  ghost function FullyCleared(t: Typed, g: Json): (t': Typed) {
    map x | x in t && x != RefsEntry(g) && !(exists r :: x == BodyEntry(g, r)) :: t[x]
  }

  lemma ClearedIndistinguishable(t: Typed, g: Json)
    requires Refs(t, g).Ok?
    ensures Indistinguishable(Cleared(t, g), FullyCleared(t, g))
  {
    var c, f := Cleared(t, g), FullyCleared(t, g);
    forall h
      ensures ListAt(c, RefsEntry(h)) == ListAt(f, RefsEntry(h))
      ensures h == g ==> ListAt(c, RefsEntry(h)) == Some([])
    {
      EntriesApart(h, h, g, g);
      forall r ensures RefsEntry(h) != BodyEntry(g, r) {
        EntriesApart(h, h, g, r);
      }
    }
    forall h, r | h != g
      ensures BodyAt(c, h, r) == BodyAt(f, h, r)
    {
      EntriesApart(g, g, h, r);
      forall r' ensures BodyEntry(h, r) != BodyEntry(g, r') {
        EntriesApart(h, r, g, r');
      }
    }
  }

  lemma {:induction false} DecodableRest(texts: seq<Bytes>, v: Bytes)
    requires DecodeAll(texts).Some?
    ensures DecodeAll(RemoveFirst(texts, v)).Some?
  {
    if texts == [] || texts[0] == v {
    } else {
      DecodableRest(texts[1..], v);
      assert RemoveFirst(texts, v)[1..] == RemoveFirst(texts[1..], v);
    }
  }

  /** Reference lists stay readable on every run, requeued references included. */
  lemma {:induction false} RefsReadable(t: Typed, ops: seq<Op>, g: Json)
    requires forall h :: Refs(t, h).Ok?
    requires forall i :: 0 <= i < |ops| ==> WellFormed(ops[i])
    ensures Refs(Run(t, ops), g).Ok?
    decreases ops
  {
    if ops == [] {
    } else {
      var op := ops[0];
      forall h
        ensures Refs(Step(t, op), h).Ok?
      {
        assert Refs(t, h).Ok?;
        StepList(t, op, h);
        if op.Queue? {
          DecodeAllAppend(ListAt(t, RefsEntry(h)).value, Refs(t, h).value, op.r);
        } else if op.Remove? {
          DecodableRest(ListAt(t, RefsEntry(h)).value, Encode(op.r));
        }
      }
      RefsReadable(Step(t, op), ops[1..], g);
    }
  }

  /**
    Clearing leaves the bodies behind. From every reachable store, no later run of queue calls can
    tell, and no other entry of the store changes.
    */
  lemma ClearIsFullClear(before: seq<Op>, g: Json, after: seq<Op>, g': Json)
    requires forall i :: 0 <= i < |before| ==> WellFormed(before[i])
    requires forall i :: 0 <= i < |after| ==> WellFormed(after[i])
    ensures var t := Run(map[], before);
            && Proposals(Run(Cleared(t, g), after), g') == Proposals(Run(FullyCleared(t, g), after), g')
            && Refs(Run(Cleared(t, g), after), g') == Refs(Run(FullyCleared(t, g), after), g')
            && Proposals(Cleared(t, g), g) == Ok([])
            && Cleared(t, g) == t - {RefsEntry(g)}
  {
    var t := Run(map[], before);
    forall h ensures Refs(map[], h).Ok? {
    }
    RefsReadable(map[], before, g);
    ClearedIndistinguishable(t, g);
    RunIndistinguishable(Cleared(t, g), FullyCleared(t, g), after, g');
  }

  /** The leftover is real: a body queued and cleared away is still in the store. */
  lemma ClearKeepsBodies(t: Typed, g: Json, r: Json, p: Json)
    requires Refs(t, g).Ok?
    ensures BodyAt(Run(t, [Queue(g, r, p), Clear(g)]), g, r) == Some(Encode(p))
  {
    var t1 := Step(t, Queue(g, r, p));
    assert [Queue(g, r, p), Clear(g)][1..] == [Clear(g)];
    assert Run(t1, [Clear(g)]) == Run(Step(t1, Clear(g)), [Clear(g)][1..]);
    StepBody(t, Queue(g, r, p), g, r);
    StepBody(t1, Clear(g), g, r);
  }
}

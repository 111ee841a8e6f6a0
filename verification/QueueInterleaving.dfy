/**
  Concurrent calls on the in-memory proposal queue, one turn per lock section.

  Queueing writes the body and then the list, removing takes the reference off the list and then
  deletes the body, clearing reads the list and then drops it, and reading takes the list and then
  one body at a time, so other calls can run in between.
  */
module QueueInterleaving {
  import opened Bytes
  import opened Json
  import opened FlatStore
  import opened StoredLists
  import opened ProposalQueue

  // ---- Lock sections ----

  datatype Section =
    | PutBody(g: Json, r: Json, p: Json)
    | AddRef(g: Json, r: Json)
    | TakeRef(g: Json, r: Json)
    | DropBody(g: Json, r: Json)
    | DropList(g: Json)
    | Elsewhere(x: Entry, v: Option<Bytes>)
    | Look

  function Do(t: Typed, sec: Section): (t': Typed) {
    match sec
    case PutBody(g, r, p) => t[BodyEntry(g, r) := Encode(p)]
    case AddRef(g, r) => Append(t, RefsEntry(g), Encode(r)).0
    case TakeRef(g, r) => RemoveItem(t, RefsEntry(g), Encode(r)).0
    case DropBody(g, r) => t - {BodyEntry(g, r)}
    case DropList(g) => t - {RefsEntry(g)}
    case Elsewhere(x, Some(v)) => t[x := v]
    case Elsewhere(x, None) => t - {x}
    case Look => t
  }

  /** Where a call stands after its first lock section; a reader that is done keeps its answer. */
  datatype Phase =
    | AtList(g: Json, r: Json, p: Json)
    | AtBody(g: Json, r: Json)
    | AtDrop(g: Json)
    | Reading(g: Json, todo: seq<Json>, read: seq<Item>)
    | Answered(o: Outcome<seq<Item>>)

  datatype System = System(store: Typed, calls: map<nat, Phase>)

  datatype Turn =
    | Begin(tid: nat, op: Op)
    | BeginRead(tid: nat, g: Json)
    | Continue(tid: nat)

  predicate Enabled(s: System, turn: Turn) {
    if turn.Continue? then turn.tid in s.calls && !s.calls[turn.tid].Answered? else turn.tid !in s.calls
  }

  function SectionOf(s: System, turn: Turn): (sec: Section)
    requires Enabled(s, turn)
  {
    match turn
    case Begin(_, Queue(g, r, p)) => PutBody(g, r, p)
    case Begin(_, Remove(g, r)) => TakeRef(g, r)
    case Begin(_, Clear(_)) => Look
    case Begin(_, Other(x, v)) => Elsewhere(x, v)
    case BeginRead(_, _) => Look
    case Continue(tid) =>
      match s.calls[tid]
      case AtList(g, r, _) => AddRef(g, r)
      case AtBody(g, r) => DropBody(g, r)
      case AtDrop(g) => DropList(g)
      case _ => Look
  }

  function Proceed(g: Json, todo: seq<Json>, read: seq<Item>): (p: Phase) {
    if todo == [] then Answered(Ok(read)) else Reading(g, todo, read)
  }

  /** One body off the front of what a reader has to do. */
  function ReadOne(t: Typed, g: Json, todo: seq<Json>, read: seq<Item>): (p: Phase)
    requires todo != []
  {
    match BodyAt(t, g, todo[0])
    case None => Answered(Panic)
    case Some(text) =>
      match Decode(text)
      case None => Answered(Err)
      case Some(p) => Proceed(g, todo[1..], read + [Item(todo[0], p)])
  }

  /** What is left of the call after the turn; nothing if that ended it. */
  function PhaseAfter(s: System, turn: Turn): (p: Option<Phase>)
    requires Enabled(s, turn)
  {
    match turn
    case Begin(_, Queue(g, r, p)) => Some(AtList(g, r, p))
    case Begin(_, Remove(g, r)) => if ListAt(s.store, RefsEntry(g)).Some? then Some(AtBody(g, r)) else None
    case Begin(_, Clear(g)) => if Refs(s.store, g).Ok? then Some(AtDrop(g)) else None
    case Begin(_, Other(_, _)) => None
    case BeginRead(_, g) =>
      (match Refs(s.store, g)
       case Ok(refs) => Some(Proceed(g, refs, []))
       case Err => Some(Answered(Err))
       case Panic => Some(Answered(Panic)))
    case Continue(tid) =>
      match s.calls[tid]
      case Reading(g, todo, read) => Some(if todo == [] then Answered(Ok(read)) else ReadOne(s.store, g, todo, read))
      case _ => None
  }

  function SetCall(calls: map<nat, Phase>, tid: nat, p: Option<Phase>): (calls': map<nat, Phase>) {
    if p.Some? then calls[tid := p.value] else calls - {tid}
  }

  /** One lock section; a turn that is not enabled does nothing. */
  function Next(s: System, turn: Turn): (s': System) {
    if !Enabled(s, turn) then s
    else System(Do(s.store, SectionOf(s, turn)), SetCall(s.calls, turn.tid, PhaseAfter(s, turn)))
  }

  function RunTurns(s: System, turns: seq<Turn>): (s': System)
    decreases turns
  {
    if turns == [] then s else RunTurns(Next(s, turns[0]), turns[1..])
  }

  const START := System(map[], map[])

  /** Writes elsewhere stay out of the queue's tables. */
  predicate Proper(turn: Turn) {
    turn.Begin? ==> WellFormed(turn.op)
  }

  // ---- Alone ----

  /** Alone, the lock sections of a call are the call. */
  lemma SoloCall(t: Typed, op: Op)
    ensures RunTurns(System(t, map[]), [Begin(0, op), Continue(0)]) == System(Step(t, op), map[])
  {
    var s := System(t, map[]);
    var turns := [Begin(0, op), Continue(0)];
    var s1 := Next(s, turns[0]);
    var s2 := Next(s1, turns[1]);
    assert RunTurns(s, turns) == RunTurns(s1, turns[1..]) == RunTurns(s2, turns[1..][1..]) == s2;
    assert forall p: Phase :: map[0 := p] - {0} == map[];
  }

  function Continues(tid: nat, n: nat): (turns: seq<Turn>) {
    seq(n, i => Continue(tid))
  }

  lemma {:induction false} SoloReader(t: Typed, g: Json, todo: seq<Json>, read: seq<Item>)
    ensures RunTurns(System(t, map[0 := Proceed(g, todo, read)]), Continues(0, |todo|)) ==
            System(t, map[0 := Answered(Prepend(read, Bodies(t, g, todo)))])
    decreases todo
  {
    var s, turns := System(t, map[0 := Proceed(g, todo, read)]), Continues(0, |todo|);
    if todo == [] {
      assert read + [] == read;
    } else {
      var s1 := Next(s, turns[0]);
      assert turns[0] == Continue(0) && turns[1..] == Continues(0, |todo[1..]|);
      assert s1 == System(t, map[0 := ReadOne(t, g, todo, read)]);
      if BodyEntry(g, todo[0]) in t && Decode(t[BodyEntry(g, todo[0])]).Some? {
        var p := Decode(t[BodyEntry(g, todo[0])]).value;
        BodiesStep(t, g, todo, read, p);
        SoloReader(t, g, todo[1..], read + [Item(todo[0], p)]);
      } else {
        Idle(s1, 0, |todo[1..]|);
      }
    }
  }

  /** A reader that has its answer keeps it. */
  lemma {:induction false} Idle(s: System, tid: nat, n: nat)
    requires tid in s.calls && s.calls[tid].Answered?
    ensures RunTurns(s, Continues(tid, n)) == s
    decreases n
  {
    if n == 0 {
    } else {
      assert Continues(tid, n)[0] == Continue(tid) && Continues(tid, n)[1..] == Continues(tid, n - 1);
      Idle(s, tid, n - 1);
    }
  }

  /** Alone, a reader answers what reading at once would. */
  lemma SoloRead(t: Typed, g: Json)
    ensures var n := if Refs(t, g).Ok? then |Refs(t, g).value| else 0;
            RunTurns(System(t, map[]), [BeginRead(0, g)] + Continues(0, n)) ==
            System(t, map[0 := Answered(Proposals(t, g))])
  {
    var n := if Refs(t, g).Ok? then |Refs(t, g).value| else 0;
    var s, turns := System(t, map[]), [BeginRead(0, g)] + Continues(0, n);
    assert turns[0] == BeginRead(0, g) && turns[1..] == Continues(0, n);
    var s1 := Next(s, turns[0]);
    if Refs(t, g).Ok? {
      SoloReader(t, g, Refs(t, g).value, []);
      PrependNothing(Bodies(t, g, Refs(t, g).value));
    } else {
      Idle(s1, 0, 0);
    }
  }

  // ---- Lists and bodies ----

  function ListOf(t: Typed, g: Json): (list: seq<Json>) {
    match Refs(t, g) case Ok(list) => list case _ => []
  }

  /** Every stored list is readable, and so is every stored body. */
  ghost predicate Sound(t: Typed) {
    && (forall g :: ListAt(t, RefsEntry(g)) == Some(Texts(ListOf(t, g))))
    && (forall g, r :: BodyAt(t, g, r).Some? ==> Decode(BodyAt(t, g, r).value).Some?)
  }

  function ListAfter(list: seq<Json>, sec: Section, g: Json): (list': seq<Json>) {
    match sec
    case AddRef(g', r) => if g' == g then list + [r] else list
    case TakeRef(g', r) => if g' == g then RemoveFirst(list, r) else list
    case DropList(g') => if g' == g then [] else list
    case _ => list
  }

  function BodyAfter(b: Option<Bytes>, sec: Section, g: Json, r: Json): (b': Option<Bytes>) {
    if sec.PutBody? && sec.g == g && sec.r == r then Some(Encode(sec.p))
    else if sec.DropBody? && sec.g == g && sec.r == r then None
    else b
  }

  predicate Inside(sec: Section) {
    sec.Elsewhere? ==> sec.x.table != QueuedProposal && sec.x.table != ProposalQueueRefs
  }

  lemma DoListAt(t: Typed, sec: Section, g: Json, list: seq<Json>)
    requires Inside(sec) && ListAt(t, RefsEntry(g)) == Some(Texts(list))
    ensures ListAt(Do(t, sec), RefsEntry(g)) == Some(Texts(ListAfter(list, sec, g)))
  {
    match sec
    case AddRef(g', r) =>
      EntriesApart(g, r, g', r);
      assert Texts(list + [r]) == Texts(list) + [Encode(r)];
      ListRoundTrip(Texts(list) + [Encode(r)]);
    case TakeRef(g', r) =>
      EntriesApart(g, r, g', r);
      RemoveText(list, r);
      ListRoundTrip(RemoveFirst(Texts(list), Encode(r)));
    case DropList(g') =>
      EntriesApart(g, g, g', g');
      assert Texts([]) == [];
    case PutBody(g', r, p) => EntriesApart(g, r, g', r);
    case DropBody(g', r) => EntriesApart(g, r, g', r);
    case Elsewhere(_, _) =>
    case Look =>
  }

  lemma DoBody(t: Typed, sec: Section, g: Json, r: Json)
    requires Inside(sec)
    ensures BodyAt(Do(t, sec), g, r) == BodyAfter(BodyAt(t, g, r), sec, g, r)
  {
    match sec
    case PutBody(g', r', p) => EntriesApart(g, r, g', r');
    case DropBody(g', r') => EntriesApart(g, r, g', r');
    case AddRef(g', r') => EntriesApart(g', r', g, r);
    case TakeRef(g', r') => EntriesApart(g', r', g, r);
    case DropList(g') => EntriesApart(g', r, g, r);
    case Elsewhere(_, _) =>
    case Look =>
  }

  lemma DoList(t: Typed, sec: Section, g: Json)
    requires Inside(sec) && Sound(t)
    ensures ListOf(Do(t, sec), g) == ListAfter(ListOf(t, g), sec, g)
    ensures ListAt(Do(t, sec), RefsEntry(g)) == Some(Texts(ListOf(Do(t, sec), g)))
  {
    DoListAt(t, sec, g, ListOf(t, g));
    DecodeTexts(ListAfter(ListOf(t, g), sec, g));
  }

  lemma DoSound(t: Typed, sec: Section)
    requires Inside(sec) && Sound(t)
    ensures Sound(Do(t, sec))
  {
    forall g ensures ListAt(Do(t, sec), RefsEntry(g)) == Some(Texts(ListOf(Do(t, sec), g))) {
      DoList(t, sec, g);
    }
    forall g, r | BodyAt(Do(t, sec), g, r).Some? ensures Decode(BodyAt(Do(t, sec), g, r).value).Some? {
      DoBody(t, sec, g, r);
      if sec.PutBody? {
        DecodeEncode(sec.p);
      }
    }
  }

  lemma NextSound(s: System, turn: Turn)
    requires Proper(turn) && Sound(s.store)
    ensures Sound(Next(s, turn).store)
  {
    if Enabled(s, turn) {
      DoSound(s.store, SectionOf(s, turn));
    }
  }

  lemma {:induction false} RunSound(s: System, turns: seq<Turn>)
    requires Sound(s.store) && forall i :: 0 <= i < |turns| ==> Proper(turns[i])
    ensures Sound(RunTurns(s, turns).store)
    decreases turns
  {
    if turns == [] {
    } else {
      NextSound(s, turns[0]);
      RunSound(Next(s, turns[0]), turns[1..]);
    }
  }

  lemma StartSound()
    ensures Sound(START.store) && forall g :: ListOf(START.store, g) == []
  {
    assert Texts([]) == [];
  }

  // ---- Reference lists are atomic ----

  /** The call that takes effect on its list in this turn, if one does. */
  function Effect(s: System, turn: Turn): (ops: seq<Op>) {
    if !Enabled(s, turn) then []
    else
      match turn
      case Begin(_, Remove(g, r)) => [Remove(g, r)]
      case Continue(tid) =>
        (match s.calls[tid]
         case AtList(g, r, p) => [Queue(g, r, p)]
         case AtDrop(g) => [Clear(g)]
         case _ => [])
      case _ => []
  }

  /** The calls of a schedule one after the other, each where it takes effect. */
  function InOrder(s: System, turns: seq<Turn>): (ops: seq<Op>)
    decreases turns
  {
    if turns == [] then [] else Effect(s, turns[0]) + InOrder(Next(s, turns[0]), turns[1..])
  }

  lemma EffectList(list: seq<Json>, s: System, turn: Turn, g: Json)
    requires Enabled(s, turn)
    ensures ListAfter(list, SectionOf(s, turn), g) == Listed(list, Effect(s, turn), g)
  {
    var ops := Effect(s, turn);
    if ops != [] {
      assert ops[1..] == [];
      assert Listed(list, ops, g) == ListStep(list, ops[0], g);
    }
  }

  lemma NextList(s: System, turn: Turn, g: Json)
    requires Proper(turn) && Sound(s.store)
    ensures ListOf(Next(s, turn).store, g) == Listed(ListOf(s.store, g), Effect(s, turn), g)
  {
    if Enabled(s, turn) {
      DoList(s.store, SectionOf(s, turn), g);
      EffectList(ListOf(s.store, g), s, turn, g);
    }
  }

  lemma {:induction false} ListedJoin(list: seq<Json>, a: seq<Op>, b: seq<Op>, g: Json)
    ensures Listed(list, a + b, g) == Listed(Listed(list, a, g), b, g)
    decreases a
  {
    if a == [] {
      assert a + b == b;
    } else {
      assert (a + b)[0] == a[0] && (a + b)[1..] == a[1..] + b;
      ListedJoin(ListStep(list, a[0], g), a[1..], b, g);
    }
  }

  lemma {:induction false} RunList(s: System, turns: seq<Turn>, g: Json)
    requires Sound(s.store) && forall i :: 0 <= i < |turns| ==> Proper(turns[i])
    ensures ListOf(RunTurns(s, turns).store, g) == Listed(ListOf(s.store, g), InOrder(s, turns), g)
    decreases turns
  {
    if turns == [] {
    } else {
      var s' := Next(s, turns[0]);
      NextSound(s, turns[0]);
      NextList(s, turns[0], g);
      RunList(s', turns[1..], g);
      ListedJoin(ListOf(s.store, g), Effect(s, turns[0]), InOrder(s', turns[1..]), g);
    }
  }

  /**
    However calls interleave, the reference lists are those of the calls one after the other: a
    removal where it begins, a queueing or a clear where it ends.
    */
  lemma ListsAreAtomic(turns: seq<Turn>, g: Json)
    requires forall i :: 0 <= i < |turns| ==> Proper(turns[i])
    ensures Refs(RunTurns(START, turns).store, g) == Ok(Listed([], InOrder(START, turns), g))
  {
    var t := RunTurns(START, turns).store;
    StartSound();
    RunSound(START, turns);
    RunList(START, turns, g);
    DecodeTexts(ListOf(t, g));
  }

  // ---- When every body is there ----

  predicate QueuesAt(s: System, tid: nat, g: Json, r: Json) {
    tid in s.calls && s.calls[tid].AtList? && s.calls[tid].g == g && s.calls[tid].r == r
  }

  predicate RemovesAt(s: System, tid: nat, g: Json, r: Json) {
    tid in s.calls && s.calls[tid] == AtBody(g, r)
  }

  ghost predicate Queueing(s: System, g: Json, r: Json) {
    exists tid :: QueuesAt(s, tid, g, r)
  }

  ghost predicate Removing(s: System, g: Json, r: Json) {
    exists tid :: RemovesAt(s, tid, g, r)
  }

  /** What is listed, or about to be, has a body that no removal is about to delete. */
  ghost predicate Clean(s: System) {
    forall g, r :: r in ListOf(s.store, g) || Queueing(s, g, r) ==>
      BodyAt(s.store, g, r).Some? && !Removing(s, g, r)
  }

  /** Reading any group's queue at once succeeds. */
  ghost predicate Readable(t: Typed) {
    forall g :: Proposals(t, g).Ok?
  }

  lemma AnswerIff(t: Typed, g: Json)
    requires Sound(t)
    ensures Proposals(t, g).Ok? <==> forall r :: r in ListOf(t, g) ==> BodyAt(t, g, r).Some?
    ensures Proposals(t, g).Ok? || Proposals(t, g) == Panic
  {
    DecodeTexts(ListOf(t, g));
    forall r | BodyEntry(g, r) in t ensures Decode(t[BodyEntry(g, r)]).Some? {
      assert BodyAt(t, g, r) == Some(t[BodyEntry(g, r)]);
    }
    BodiesPanic(t, g, ListOf(t, g));
  }

  lemma ReadableIff(t: Typed)
    requires Sound(t)
    ensures Readable(t) <==> forall g, r :: r in ListOf(t, g) ==> BodyAt(t, g, r).Some?
  {
    forall g
      ensures Proposals(t, g).Ok? <==> forall r :: r in ListOf(t, g) ==> BodyAt(t, g, r).Some?
    {
      AnswerIff(t, g);
    }
  }

  function Resume(tids: seq<nat>): (turns: seq<Turn>) {
    seq(|tids|, i requires 0 <= i < |tids| => Continue(tids[i]))
  }

  /** Whatever order the calls in flight go on in, every queue can be read. */
  ghost predicate Finishes(s: System) {
    forall tids :: Readable(RunTurns(s, Resume(tids)).store)
  }

  /** A call that goes on leaves fewer queueings and removals under way. */
  lemma FewerCalls(s: System, tid: nat, g: Json, r: Json)
    ensures var s' := Next(s, Continue(tid));
            (Removing(s', g, r) ==> Removing(s, g, r)) && (Queueing(s', g, r) ==> Queueing(s, g, r))
  {
    var s' := Next(s, Continue(tid));
    forall k | RemovesAt(s', k, g, r) ensures RemovesAt(s, k, g, r) {
    }
    forall k | QueuesAt(s', k, g, r) ensures QueuesAt(s, k, g, r) {
    }
  }

  lemma ContinueClean(s: System, tid: nat)
    requires Sound(s.store) && Clean(s)
    ensures Clean(Next(s, Continue(tid)))
  {
    var turn := Continue(tid);
    var s' := Next(s, turn);
    if Enabled(s, turn) {
      forall g, r | r in ListOf(s'.store, g) || Queueing(s', g, r)
        ensures BodyAt(s'.store, g, r).Some? && !Removing(s', g, r)
      {
        FewerCalls(s, tid, g, r);
        ContinueKeepsBody(s, tid, g, r);
      }
    }
  }

  lemma ContinueKeepsBody(s: System, tid: nat, g: Json, r: Json)
    requires Sound(s.store) && Enabled(s, Continue(tid))
    ensures var t := Next(s, Continue(tid)).store;
            && (r in ListOf(t, g) ==> r in ListOf(s.store, g) || Queueing(s, g, r))
            && (BodyAt(s.store, g, r).Some? && !Removing(s, g, r) ==> BodyAt(t, g, r).Some?)
  {
    DoList(s.store, SectionOf(s, Continue(tid)), g);
    DoBody(s.store, SectionOf(s, Continue(tid)), g, r);
    assert QueuesAt(s, tid, g, r) ==> Queueing(s, g, r);
    assert RemovesAt(s, tid, g, r) ==> Removing(s, g, r);
  }

  lemma {:induction false} FinishClean(s: System, tids: seq<nat>)
    requires Sound(s.store) && Clean(s)
    ensures Readable(RunTurns(s, Resume(tids)).store)
    decreases tids
  {
    if tids == [] {
      ReadableIff(s.store);
    } else {
      NextSound(s, Continue(tids[0]));
      ContinueClean(s, tids[0]);
      assert Resume(tids)[1..] == Resume(tids[1..]);
      FinishClean(Next(s, Continue(tids[0])), tids[1..]);
    }
  }

  /** A listed reference without a body makes the queue unreadable. */
  lemma Unreadable(t: Typed, g: Json, r: Json)
    requires Sound(t) && r in ListOf(t, g) && BodyAt(t, g, r) == None
    ensures !Readable(t)
  {
    ReadableIff(t);
  }

  lemma ResumeOne(s: System, tid: nat)
    requires Sound(s.store)
    ensures RunTurns(s, Resume([tid])) == Next(s, Continue(tid)) && Sound(Next(s, Continue(tid)).store)
  {
    NextSound(s, Continue(tid));
    assert Resume([tid])[0] == Continue(tid) && Resume([tid])[1..] == [];
  }

  lemma ResumeTwo(s: System, tid: nat, tid': nat)
    requires Sound(s.store)
    ensures RunTurns(s, Resume([tid, tid'])) == Next(Next(s, Continue(tid)), Continue(tid'))
    ensures Sound(RunTurns(s, Resume([tid, tid'])).store)
  {
    var turns := Resume([tid, tid']);
    var s1 := Next(s, Continue(tid));
    NextSound(s, Continue(tid));
    NextSound(s1, Continue(tid'));
    assert turns[0] == Continue(tid) && turns[1..][0] == Continue(tid') && turns[1..][1..] == [];
    assert RunTurns(s, turns) == RunTurns(s1, turns[1..]) == RunTurns(Next(s1, Continue(tid')), turns[1..][1..]);
  }

  /** A queueing that ends without its body. */
  lemma ListsBodiless(s: System, tid: nat, g: Json, r: Json, p: Json)
    requires Sound(s.store) && tid in s.calls && s.calls[tid] == AtList(g, r, p) && BodyAt(s.store, g, r) == None
    ensures var t := Next(s, Continue(tid)).store;
            r in ListOf(t, g) && BodyAt(t, g, r) == None
  {
    DoList(s.store, AddRef(g, r), g);
    DoBody(s.store, AddRef(g, r), g, r);
  }

  lemma LosesBody(s: System, tid: nat, g: Json, r: Json)
    requires Sound(s.store) && tid in s.calls && s.calls[tid] == AtBody(g, r)
    ensures var t := Next(s, Continue(tid)).store;
            ListOf(t, g) == ListOf(s.store, g) && BodyAt(t, g, r) == None
  {
    DoList(s.store, DropBody(g, r), g);
    DoBody(s.store, DropBody(g, r), g, r);
  }

  lemma UncleanFails(s: System, g: Json, r: Json)
    requires Sound(s.store) && (r in ListOf(s.store, g) || Queueing(s, g, r))
    requires BodyAt(s.store, g, r) == None || Removing(s, g, r)
    ensures !Finishes(s)
  {
    if BodyAt(s.store, g, r) == None {
      if r in ListOf(s.store, g) {
        assert RunTurns(s, Resume([])) == s;
        Unreadable(s.store, g, r);
      } else {
        var tid :| QueuesAt(s, tid, g, r);
        ListsBodiless(s, tid, g, r, s.calls[tid].p);
        ResumeOne(s, tid);
        Unreadable(RunTurns(s, Resume([tid])).store, g, r);
      }
    } else {
      var tid :| RemovesAt(s, tid, g, r);
      LosesBody(s, tid, g, r);
      ResumeOne(s, tid);
      if r in ListOf(s.store, g) {
        Unreadable(RunTurns(s, Resume([tid])).store, g, r);
      } else {
        var tid' :| QueuesAt(s, tid', g, r);
        ListsBodiless(Next(s, Continue(tid)), tid', g, r, s.calls[tid'].p);
        ResumeTwo(s, tid, tid');
        Unreadable(RunTurns(s, Resume([tid, tid'])).store, g, r);
      }
    }
  }

  lemma FinishesIff(s: System)
    requires Sound(s.store)
    ensures Finishes(s) <==> Clean(s)
  {
    if Clean(s) {
      forall tids ensures Readable(RunTurns(s, Resume(tids)).store) {
        FinishClean(s, tids);
      }
    } else {
      var g, r :| (r in ListOf(s.store, g) || Queueing(s, g, r))
                  && !(BodyAt(s.store, g, r).Some? && !Removing(s, g, r));
      UncleanFails(s, g, r);
    }
  }

  /**
    No reference is queued while its removal is under way, and none is removed while it is being
    queued or listed more than once.
    */
  ghost predicate Polite(s: System, turn: Turn) {
    turn.Begin? && turn.tid !in s.calls ==>
      match turn.op
      case Queue(g, r, _) => !Removing(s, g, r)
      case Remove(g, r) => !Queueing(s, g, r) && r !in RemoveFirst(ListOf(s.store, g), r)
      case _ => true
  }

  ghost predicate Disciplined(s: System, turns: seq<Turn>)
    decreases turns
  {
    turns == [] || (Polite(s, turns[0]) && Disciplined(Next(s, turns[0]), turns[1..]))
  }

  ghost predicate AlwaysReads(s: System, turns: seq<Turn>)
    decreases turns
  {
    Finishes(s) && (turns == [] || AlwaysReads(Next(s, turns[0]), turns[1..]))
  }

  lemma BeginQueueIff(s: System, tid: nat, g: Json, r: Json, p: Json)
    requires Sound(s.store) && Clean(s) && tid !in s.calls
    ensures Clean(Next(s, Begin(tid, Queue(g, r, p)))) <==> !Removing(s, g, r)
  {
    var s' := Next(s, Begin(tid, Queue(g, r, p)));
    assert QueuesAt(s', tid, g, r);
    assert Queueing(s', g, r);
    forall h, q
      ensures Removing(s', h, q) <==> Removing(s, h, q)
      ensures Queueing(s', h, q) <==> Queueing(s, h, q) || (h == g && q == r)
      ensures ListOf(s'.store, h) == ListOf(s.store, h)
      ensures BodyAt(s'.store, h, q) == if h == g && q == r then Some(Encode(p)) else BodyAt(s.store, h, q)
    {
      OtherCalls(s, s', tid, AtList(g, r, p), h, q);
      DoList(s.store, PutBody(g, r, p), h);
      DoBody(s.store, PutBody(g, r, p), h, q);
    }
  }

  lemma RemovingThen(s: System, s': System, tid: nat, p: Phase, g: Json, r: Json)
    requires tid !in s.calls && s'.calls == s.calls[tid := p]
    ensures Removing(s', g, r) <==> Removing(s, g, r) || p == AtBody(g, r)
  {
    forall k ensures RemovesAt(s', k, g, r) <==> RemovesAt(s, k, g, r) || (k == tid && p == AtBody(g, r)) {
    }
    assert RemovesAt(s', tid, g, r) <==> p == AtBody(g, r);
  }

  lemma QueueingThen(s: System, s': System, tid: nat, p: Phase, g: Json, r: Json)
    requires tid !in s.calls && s'.calls == s.calls[tid := p]
    ensures Queueing(s', g, r) <==> Queueing(s, g, r) || (p.AtList? && p.g == g && p.r == r)
  {
    var now := p.AtList? && p.g == g && p.r == r;
    forall k ensures QueuesAt(s', k, g, r) <==> QueuesAt(s, k, g, r) || (k == tid && now) {
    }
    assert QueuesAt(s', tid, g, r) <==> now;
  }

  /** A call that begins leaves the others where they are. */
  lemma OtherCalls(s: System, s': System, tid: nat, p: Phase, g: Json, r: Json)
    requires tid !in s.calls && s'.calls == s.calls[tid := p]
    ensures Removing(s', g, r) <==> Removing(s, g, r) || p == AtBody(g, r)
    ensures Queueing(s', g, r) <==> Queueing(s, g, r) || (p.AtList? && p.g == g && p.r == r)
  {
    RemovingThen(s, s', tid, p, g, r);
    QueueingThen(s, s', tid, p, g, r);
  }

  lemma BeginsRemoval(s: System, tid: nat, g: Json, r: Json)
    requires Sound(s.store) && tid !in s.calls
    ensures var s' := Next(s, Begin(tid, Remove(g, r)));
            s'.calls == s.calls[tid := AtBody(g, r)] && Sound(s'.store)
  {
    assert ListAt(s.store, RefsEntry(g)) == Some(Texts(ListOf(s.store, g)));
    NextSound(s, Begin(tid, Remove(g, r)));
  }

  /** `s'` is `s` with a removal of `r` begun, as far as `q` of `h` goes. */
  ghost predicate RemovalBegun(s: System, s': System, g: Json, r: Json, h: Json, q: Json) {
    && (Removing(s', h, q) <==> Removing(s, h, q) || (h == g && q == r))
    && (Queueing(s', h, q) <==> Queueing(s, h, q))
    && BodyAt(s'.store, h, q) == BodyAt(s.store, h, q)
    && (q in ListOf(s'.store, h) ==> q in ListOf(s.store, h))
  }

  lemma RemovalCleanIff(s: System, s': System, g: Json, r: Json)
    requires Clean(s) && forall h, q :: RemovalBegun(s, s', g, r, h, q)
    ensures Clean(s') <==> !Queueing(s, g, r) && r !in ListOf(s'.store, g)
  {
    assert RemovalBegun(s, s', g, r, g, r);
    if !Queueing(s, g, r) && r !in ListOf(s'.store, g) {
      forall h, q | q in ListOf(s'.store, h) || Queueing(s', h, q)
        ensures BodyAt(s'.store, h, q).Some? && !Removing(s', h, q)
      {
        assert RemovalBegun(s, s', g, r, h, q);
      }
    }
  }

  lemma BeginRemoveIff(s: System, tid: nat, g: Json, r: Json)
    requires Sound(s.store) && Clean(s) && tid !in s.calls
    ensures Clean(Next(s, Begin(tid, Remove(g, r)))) <==>
            !Queueing(s, g, r) && r !in RemoveFirst(ListOf(s.store, g), r)
  {
    var s' := Next(s, Begin(tid, Remove(g, r)));
    BeginsRemoval(s, tid, g, r);
    DoList(s.store, TakeRef(g, r), g);
    forall h, q ensures RemovalBegun(s, s', g, r, h, q) {
      OtherCalls(s, s', tid, AtBody(g, r), h, q);
      DoList(s.store, TakeRef(g, r), h);
      DoBody(s.store, TakeRef(g, r), h, q);
      RemoveCount(ListOf(s.store, h), r, q);
    }
    RemovalCleanIff(s, s', g, r);
  }

  /** The turns that begin neither a queueing nor a removal. */
  predicate Harmless(turn: Turn) {
    turn.BeginRead? || (turn.Begin? && (turn.op.Clear? || turn.op.Other?))
  }

  lemma HarmlessCalls(s: System, turn: Turn, g: Json, r: Json)
    requires Enabled(s, turn) && Harmless(turn)
    ensures var s' := Next(s, turn);
            (Removing(s', g, r) <==> Removing(s, g, r)) && (Queueing(s', g, r) <==> Queueing(s, g, r))
  {
    var s' := Next(s, turn);
    if turn.tid in s'.calls {
      OtherCalls(s, s', turn.tid, s'.calls[turn.tid], g, r);
    } else {
      assert forall k :: RemovesAt(s', k, g, r) <==> RemovesAt(s, k, g, r);
      assert forall k :: QueuesAt(s', k, g, r) <==> QueuesAt(s, k, g, r);
    }
  }

  lemma HarmlessStore(s: System, turn: Turn, g: Json, r: Json)
    requires Proper(turn) && Sound(s.store) && Enabled(s, turn) && Harmless(turn)
    ensures var t := Next(s, turn).store;
            ListOf(t, g) == ListOf(s.store, g) && BodyAt(t, g, r) == BodyAt(s.store, g, r)
  {
    QuietSection(s.store, SectionOf(s, turn), g, r);
  }

  lemma QuietSection(t: Typed, sec: Section, g: Json, r: Json)
    requires Inside(sec) && Sound(t) && (sec.Look? || sec.Elsewhere?)
    ensures ListOf(Do(t, sec), g) == ListOf(t, g) && BodyAt(Do(t, sec), g, r) == BodyAt(t, g, r)
  {
    DoList(t, sec, g);
    DoBody(t, sec, g, r);
  }

  lemma BeginOther(s: System, turn: Turn)
    requires Proper(turn) && Sound(s.store) && Clean(s) && Enabled(s, turn) && Harmless(turn)
    ensures Clean(Next(s, turn))
  {
    var s' := Next(s, turn);
    forall g, r | r in ListOf(s'.store, g) || Queueing(s', g, r)
      ensures BodyAt(s'.store, g, r).Some? && !Removing(s', g, r)
    {
      HarmlessCalls(s, turn, g, r);
      HarmlessStore(s, turn, g, r);
    }
  }

  lemma NextCleanIff(s: System, turn: Turn)
    requires Proper(turn) && Sound(s.store) && Clean(s)
    ensures Clean(Next(s, turn)) <==> Polite(s, turn)
  {
    if Enabled(s, turn) {
      match turn
      case Begin(tid, Queue(g, r, p)) => BeginQueueIff(s, tid, g, r, p);
      case Begin(tid, Remove(g, r)) => BeginRemoveIff(s, tid, g, r);
      case Begin(_, _) => BeginOther(s, turn);
      case BeginRead(_, _) => BeginOther(s, turn);
      case Continue(tid) => ContinueClean(s, tid);
    }
  }

  lemma {:induction false} AlwaysReadsFrom(s: System, turns: seq<Turn>)
    requires Sound(s.store) && Clean(s) && forall i :: 0 <= i < |turns| ==> Proper(turns[i])
    ensures AlwaysReads(s, turns) <==> Disciplined(s, turns)
    decreases turns
  {
    FinishesIff(s);
    if turns == [] {
    } else {
      var s' := Next(s, turns[0]);
      NextSound(s, turns[0]);
      NextCleanIff(s, turns[0]);
      FinishesIff(s');
      if Clean(s') {
        AlwaysReadsFrom(s', turns[1..]);
      }
    }
  }

  /**
    Every queue can be read, at every point of a schedule and however the calls in flight then go
    on, if and only if no reference is queued while its removal is under way, nor removed while it
    is being queued or is listed more than once.
    */
  lemma AlwaysReadsIff(turns: seq<Turn>)
    requires forall i :: 0 <= i < |turns| ==> Proper(turns[i])
    ensures AlwaysReads(START, turns) <==> Disciplined(START, turns)
  {
    StartSound();
    AlwaysReadsFrom(START, turns);
  }

  // ---- A reader among other calls ----

  /** A removal deletes the body of a reference that a reader took off the list. */
  predicate Disturbs(s: System, turn: Turn, g: Json, todo: seq<Json>) {
    && turn.Continue? && turn.tid in s.calls && s.calls[turn.tid].AtBody?
    && s.calls[turn.tid].g == g && s.calls[turn.tid].r in todo
  }

  predicate Undisturbed(s: System, turns: seq<Turn>, g: Json, todo: seq<Json>)
    decreases turns
  {
    turns == [] || (!Disturbs(s, turns[0], g, todo) && Undisturbed(Next(s, turns[0]), turns[1..], g, todo))
  }

  /** The turns of the other calls. */
  function Others(w: seq<Turn>, tid: nat): (turns: seq<Turn>) {
    if w == [] then []
    else if w[0] == Continue(tid) then Others(w[1..], tid)
    else [w[0]] + Others(w[1..], tid)
  }

  /** What the reader has answered so far. */
  function Answer(s: System, tid: nat): (o: Option<Outcome<seq<Item>>>) {
    if tid in s.calls && s.calls[tid].Answered? then Some(s.calls[tid].o) else None
  }

  ghost predicate AllThere(t: Typed, g: Json, refs: seq<Json>) {
    forall r :: r in refs ==> BodyAt(t, g, r).Some?
  }

  /** The systems differ at most in how far the reader is. */
  ghost predicate Beside(s: System, s': System, tid: nat) {
    && s.store == s'.store && tid in s.calls && tid in s'.calls
    && forall k :: k != tid ==> (k in s.calls <==> k in s'.calls) && (k in s.calls ==> s.calls[k] == s'.calls[k])
  }

  lemma NextBeside(s: System, s': System, turn: Turn, tid: nat)
    requires Beside(s, s', tid) && turn.tid != tid
    ensures Beside(Next(s, turn), Next(s', turn), tid)
    ensures Next(s, turn).calls[tid] == s.calls[tid] && Next(s', turn).calls[tid] == s'.calls[tid]
    ensures forall g, todo :: Disturbs(s, turn, g, todo) <==> Disturbs(s', turn, g, todo)
  {
    assert Enabled(s, turn) <==> Enabled(s', turn);
    if Enabled(s, turn) {
      assert SectionOf(s, turn) == SectionOf(s', turn) && PhaseAfter(s, turn) == PhaseAfter(s', turn);
    }
  }

  lemma NextAllThere(s: System, turn: Turn, g: Json, todo: seq<Json>)
    requires Proper(turn) && AllThere(s.store, g, todo) && !Disturbs(s, turn, g, todo)
    ensures AllThere(Next(s, turn).store, g, todo)
  {
    if Enabled(s, turn) {
      forall r | r in todo ensures BodyAt(Next(s, turn).store, g, r).Some? {
        DoBody(s.store, SectionOf(s, turn), g, r);
      }
    }
  }

  /** The reader of `all` has read some and found every body, or has answered with all of them. */
  ghost predicate OnTrack(p: Phase, g: Json, all: seq<Json>) {
    match p
    case Reading(h, todo, read) => h == g && todo != [] && RefsOf(read) + todo == all
    case Answered(o) => o.Ok? && RefsOf(o.value) == all
    case _ => false
  }

  lemma ReadOnTrack(s: System, tid: nat, g: Json, all: seq<Json>)
    requires Sound(s.store) && AllThere(s.store, g, all) && tid in s.calls && OnTrack(s.calls[tid], g, all)
    ensures tid in Next(s, Continue(tid)).calls && OnTrack(Next(s, Continue(tid)).calls[tid], g, all)
    ensures Beside(s, Next(s, Continue(tid)), tid)
  {
    match s.calls[tid]
    case Reading(_, todo, read) =>
      var r := todo[0];
      assert all[|read|] == r;
      assert BodyAt(s.store, g, r).Some?;
      var p := Decode(BodyAt(s.store, g, r).value).value;
      assert RefsOf(read + [Item(r, p)]) == RefsOf(read) + [r];
      assert RefsOf(read) + [r] + todo[1..] == all;
      assert todo[1..] == [] ==> RefsOf(read) + [r] == all;
    case Answered(_) =>
  }

  /** However it is scheduled, an undisturbed reader finds every body. */
  lemma {:induction false} ReaderKept(s: System, s': System, w: seq<Turn>, tid: nat, g: Json, all: seq<Json>)
    requires Sound(s.store) && AllThere(s.store, g, all) && Beside(s, s', tid) && OnTrack(s'.calls[tid], g, all)
    requires forall i :: 0 <= i < |Others(w, tid)| ==> Proper(Others(w, tid)[i]) && Others(w, tid)[i].tid != tid
    requires Undisturbed(s, Others(w, tid), g, all)
    ensures tid in RunTurns(s', w).calls && OnTrack(RunTurns(s', w).calls[tid], g, all)
    decreases w
  {
    if w == [] {
    } else if w[0] == Continue(tid) {
      ReadOnTrack(s', tid, g, all);
      ReaderKept(s, Next(s', w[0]), w[1..], tid, g, all);
    } else {
      var turns := Others(w, tid);
      assert turns[0] == w[0] && turns[1..] == Others(w[1..], tid);
      NextBeside(s, s', w[0], tid);
      NextSound(s, w[0]);
      NextAllThere(s, w[0], g, all);
      ReaderKept(Next(s, w[0]), Next(s', w[0]), w[1..], tid, g, all);
    }
  }

  lemma {:induction false} RunJoin(s: System, a: seq<Turn>, b: seq<Turn>)
    ensures RunTurns(s, a + b) == RunTurns(RunTurns(s, a), b)
    decreases a
  {
    if a == [] {
      assert a + b == b;
    } else {
      assert (a + b)[0] == a[0] && (a + b)[1..] == a[1..] + b;
      RunJoin(Next(s, a[0]), a[1..], b);
    }
  }

  lemma {:induction false} OthersJoin(a: seq<Turn>, b: seq<Turn>, tid: nat)
    ensures Others(a + b, tid) == Others(a, tid) + Others(b, tid)
    decreases a
  {
    if a == [] {
      assert a + b == b;
    } else {
      assert (a + b)[0] == a[0] && (a + b)[1..] == a[1..] + b;
      OthersJoin(a[1..], b, tid);
    }
  }

  lemma {:induction false} OthersOnly(turns: seq<Turn>, tid: nat)
    requires forall i :: 0 <= i < |turns| ==> turns[i].tid != tid
    ensures Others(turns, tid) == turns
  {
    if turns == [] {
    } else {
      OthersOnly(turns[1..], tid);
      assert turns == [turns[0]] + turns[1..];
    }
  }

  lemma {:induction false} NoOthers(tid: nat, n: nat)
    ensures Others(Continues(tid, n), tid) == []
  {
    if n == 0 {
    } else {
      assert Continues(tid, n)[0] == Continue(tid) && Continues(tid, n)[1..] == Continues(tid, n - 1);
      NoOthers(tid, n - 1);
    }
  }

  lemma {:induction false} AnswerStays(s: System, turns: seq<Turn>, tid: nat)
    requires Answer(s, tid).Some?
    ensures Answer(RunTurns(s, turns), tid) == Answer(s, tid)
    decreases turns
  {
    if turns == [] {
    } else {
      AnswerStays(Next(s, turns[0]), turns[1..], tid);
    }
  }

  /** A reader that gets ahead of the other calls. */
  lemma {:induction false} ReadAhead(s: System, tid: nat, g: Json, todo: seq<Json>, read: seq<Item>, n: nat)
    requires Sound(s.store) && AllThere(s.store, g, todo) && n < |todo|
    requires tid in s.calls && s.calls[tid] == Reading(g, todo, read)
    ensures var s' := RunTurns(s, Continues(tid, n));
            Beside(s, s', tid) && s'.calls[tid].Reading? && s'.calls[tid].g == g && s'.calls[tid].todo == todo[n..]
    decreases n
  {
    if n == 0 {
    } else {
      var s1 := Next(s, Continue(tid));
      assert Continues(tid, n)[0] == Continue(tid) && Continues(tid, n)[1..] == Continues(tid, n - 1);
      assert BodyAt(s.store, g, todo[0]).Some?;
      assert s1.calls[tid].Reading? && s1.calls[tid].todo == todo[1..] && s1.store == s.store;
      ReadAhead(s1, tid, g, todo[1..], s1.calls[tid].read, n - 1);
      assert todo[1..][n - 1..] == todo[n..];
    }
  }

  /** The reader comes to the reference just after its body went. */
  lemma DisturbNow(s: System, turns: seq<Turn>, tid: nat, g: Json, todo: seq<Json>, j: nat) returns (w: seq<Turn>)
    requires Sound(s.store) && AllThere(s.store, g, todo)
    requires tid in s.calls && s.calls[tid] == Reading(g, todo, [])
    requires turns != [] && forall i :: 0 <= i < |turns| ==> Proper(turns[i]) && turns[i].tid != tid
    requires Disturbs(s, turns[0], g, todo) && j < |todo| && todo[j] == s.calls[turns[0].tid].r
    ensures Others(w, tid) == turns && Answer(RunTurns(s, w), tid) == Some(Panic)
  {
    var ahead, rest := Continues(tid, j), [turns[0]] + ([Continue(tid)] + turns[1..]);
    w := ahead + rest;
    ReadAhead(s, tid, g, todo, [], j);
    var s1 := RunTurns(s, ahead);
    var s2 := Next(s1, turns[0]);
    var s3 := Next(s2, Continue(tid));
    NextBeside(s, s1, turns[0], tid);
    DoBody(s1.store, DropBody(g, todo[j]), g, todo[j]);
    assert s2.calls[tid].todo[0] == todo[j] && BodyAt(s2.store, g, todo[j]) == None;
    assert Answer(s3, tid) == Some(Panic);
    AnswerStays(s3, turns[1..], tid);
    RunJoin(s, ahead, rest);
    assert rest[1..] == [Continue(tid)] + turns[1..] && rest[1..][1..] == turns[1..];
    assert RunTurns(s1, rest) == RunTurns(s2, rest[1..]) == RunTurns(s3, turns[1..]);
    OthersJoin(ahead, rest, tid);
    NoOthers(tid, j);
    OthersOnly(turns[1..], tid);
    assert Others(rest, tid) == [turns[0]] + Others(rest[1..], tid) == [turns[0]] + turns[1..] == turns;
  }

  lemma {:induction false} Disturbed(s: System, turns: seq<Turn>, tid: nat, g: Json, todo: seq<Json>)
    returns (w: seq<Turn>)
    requires Sound(s.store) && AllThere(s.store, g, todo)
    requires tid in s.calls && s.calls[tid] == Reading(g, todo, [])
    requires forall i :: 0 <= i < |turns| ==> Proper(turns[i]) && turns[i].tid != tid
    requires !Undisturbed(s, turns, g, todo)
    ensures Others(w, tid) == turns && Answer(RunTurns(s, w), tid) == Some(Panic)
    decreases turns
  {
    var turn := turns[0];
    if Disturbs(s, turn, g, todo) {
      var j :| 0 <= j < |todo| && todo[j] == s.calls[turn.tid].r;
      w := DisturbNow(s, turns, tid, g, todo, j);
    } else {
      NextSound(s, turn);
      NextAllThere(s, turn, g, todo);
      NextBeside(s, s, turn, tid);
      var w' := Disturbed(Next(s, turn), turns[1..], tid, g, todo);
      w := [turn] + w';
      assert w[1..] == w' && turns == [turn] + turns[1..];
    }
  }

  /**
    A reader that has just taken a list whose bodies are all there gets them all, wherever its turns
    fall among those of the other calls, if and only if none of those calls deletes one of them.
    */
  lemma ReaderSafeIff(s: System, turns: seq<Turn>, tid: nat, g: Json, todo: seq<Json>)
    requires Sound(s.store) && AllThere(s.store, g, todo)
    requires tid in s.calls && s.calls[tid] == Reading(g, todo, []) && todo != []
    requires forall i :: 0 <= i < |turns| ==> Proper(turns[i]) && turns[i].tid != tid
    ensures (forall w :: Others(w, tid) == turns ==> Answer(RunTurns(s, w), tid) != Some(Panic)) <==>
            Undisturbed(s, turns, g, todo)
    ensures forall w :: Others(w, tid) == turns && Undisturbed(s, turns, g, todo) ==>
              var o := Answer(RunTurns(s, w), tid);
              o == None || (o.value.Ok? && RefsOf(o.value.value) == todo)
  {
    if Undisturbed(s, turns, g, todo) {
      forall w | Others(w, tid) == turns
        ensures tid in RunTurns(s, w).calls && OnTrack(RunTurns(s, w).calls[tid], g, todo)
      {
        assert RefsOf([]) + todo == todo;
        ReaderKept(s, s, w, tid, g, todo);
      }
    } else {
      var w := Disturbed(s, turns, tid, g, todo);
    }
  }

  // ---- Instances ----

  lemma QueuedOne(g: Json, r: Json, p: Json)
    ensures var queued := RunTurns(START, [Begin(0, Queue(g, r, p)), Continue(0)]);
            && queued.calls == map[] && Sound(queued.store) && ListOf(queued.store, g) == [r]
            && BodyAt(queued.store, g, r) == Some(Encode(p)) && Refs(queued.store, g) == Ok([r])
  {
    var t1 := Do(map[], PutBody(g, r, p));
    SoloCall(map[], Queue(g, r, p));
    StartSound();
    DoSound(map[], PutBody(g, r, p));
    DoList(map[], PutBody(g, r, p), g);
    DoBody(map[], PutBody(g, r, p), g, r);
    DoSound(t1, AddRef(g, r));
    DoList(t1, AddRef(g, r), g);
    DoBody(t1, AddRef(g, r), g, r);
    DecodeTexts(ListOf(Do(t1, AddRef(g, r)), g));
  }

  lemma BeginsRead(t: Typed, g: Json, r: Json)
    requires Refs(t, g) == Ok([r])
    ensures Next(System(t, map[]), BeginRead(1, g)) == System(t, map[1 := Reading(g, [r], [])])
  {
  }

  lemma BeginsQueueing(s: System, tid: nat, g: Json, r: Json, p: Json)
    requires Sound(s.store) && tid !in s.calls
    ensures var s' := Next(s, Begin(tid, Queue(g, r, p)));
            s'.calls == s.calls[tid := AtList(g, r, p)] && Sound(s'.store)
  {
    NextSound(s, Begin(tid, Queue(g, r, p)));
  }

  /** A removal that begins while a reader has the list. */
  lemma Overtaken(t: Typed, g: Json, r: Json)
    requires Sound(t) && ListOf(t, g) == [r]
    ensures var s := System(t, map[1 := Reading(g, [r], [])]);
            var turns := [Begin(2, Remove(g, r)), Continue(2)];
            Disciplined(s, turns) && !Undisturbed(s, turns, g, [r])
  {
    var s := System(t, map[1 := Reading(g, [r], [])]);
    var turns := [Begin(2, Remove(g, r)), Continue(2)];
    var s1 := Next(s, turns[0]);
    BeginsRemoval(s, 2, g, r);
    assert forall tid :: !QueuesAt(s, tid, g, r);
    assert RemoveFirst([r], r) == [];
    assert turns[1..] == [Continue(2)] && turns[1..][1..] == [];
    assert Polite(s, turns[0]) && Polite(s1, turns[1..][0]) && Disciplined(s1, turns[1..]);
    assert Disturbs(s1, turns[1..][0], g, [r]) && !Undisturbed(s1, turns[1..], g, [r]);
  }

  /**
    A disciplined schedule, in which no reference is ever queued twice, and a reader of it that
    comes to a body after its removal.
    */
  lemma RemovalOvertakesRead(g: Json, r: Json, p: Json)
    ensures var s := Next(RunTurns(START, [Begin(0, Queue(g, r, p)), Continue(0)]), BeginRead(1, g));
            var turns := [Begin(2, Remove(g, r)), Continue(2)];
            Disciplined(s, turns) && exists w :: Others(w, 1) == turns && Answer(RunTurns(s, w), 1) == Some(Panic)
  {
    var t := RunTurns(START, [Begin(0, Queue(g, r, p)), Continue(0)]).store;
    QueuedOne(g, r, p);
    BeginsRead(t, g, r);
    Overtaken(t, g, r);
    ReaderSafeIff(System(t, map[1 := Reading(g, [r], [])]), [Begin(2, Remove(g, r)), Continue(2)], 1, g, [r]);
  }

  lemma FourTurns(s: System, a: Turn, b: Turn, c: Turn, d: Turn)
    ensures var s1, turns := Next(s, a), [a, b, c, d];
            var s2 := Next(s1, b);
            var s3 := Next(s2, c);
            && RunTurns(s, turns) == Next(s3, d)
            && InOrder(s, turns) == Effect(s, a) + (Effect(s1, b) + (Effect(s2, c) + Effect(s3, d)))
  {
    var turns := [a, b, c, d];
    var s1 := Next(s, a);
    var s2 := Next(s1, b);
    var s3 := Next(s2, c);
    assert turns[1..] == [b, c, d] && [b, c, d][1..] == [c, d] && [c, d][1..] == [d];
    assert RunTurns(s, turns) == RunTurns(s1, [b, c, d]) == RunTurns(s2, [c, d]) == RunTurns(s3, [d]) == Next(s3, d);
    assert InOrder(s3, [d]) == Effect(s3, d) + [] == Effect(s3, d);
    assert InOrder(s2, [c, d]) == Effect(s2, c) + Effect(s3, d);
    assert InOrder(s1, [b, c, d]) == Effect(s1, b) + (Effect(s2, c) + Effect(s3, d));
  }

  /** A removal and a queueing of the same reference, both half done. */
  lemma Race(s: System, g: Json, r: Json, p: Json)
    requires Sound(s.store) && 0 in s.calls && 1 in s.calls
    requires s.calls[0] == AtBody(g, r) && s.calls[1] == AtList(g, r, p)
    ensures Proposals(Next(Next(s, Continue(1)), Continue(0)).store, g) == Panic
  {
    var s1 := Next(s, Continue(1));
    DoList(s.store, AddRef(g, r), g);
    NextSound(s, Continue(1));
    assert r in ListOf(s1.store, g) && s1.calls == s.calls - {1};
    LosesBody(s1, 0, g, r);
    NextSound(s1, Continue(0));
    AnswerIff(Next(s1, Continue(0)).store, g);
  }

  /**
    A queueing between the two lock sections of a removal of the same reference loses its body,
    though one after the other the calls would never have queued it twice.
    */
  lemma QueuedDuringRemoval(g: Json, r: Json, p: Json)
    ensures var turns := [Begin(0, Remove(g, r)), Begin(1, Queue(g, r, p)), Continue(1), Continue(0)];
            && Proposals(RunTurns(START, turns).store, g) == Panic
            && NeverRequeues(map[], InOrder(START, turns))
  {
    var s1 := Next(START, Begin(0, Remove(g, r)));
    var s2 := Next(s1, Begin(1, Queue(g, r, p)));
    StartSound();
    BeginsRemoval(START, 0, g, r);
    BeginsQueueing(s1, 1, g, r, p);
    Race(s2, g, r, p);
    FourTurns(START, Begin(0, Remove(g, r)), Begin(1, Queue(g, r, p)), Continue(1), Continue(0));
    OnceRemovedOnceQueued(g, r, p);
  }

  lemma OnceRemovedOnceQueued(g: Json, r: Json, p: Json)
    ensures NeverRequeues(map[], [Remove(g, r)] + ([] + ([Queue(g, r, p)] + [])))
  {
    var ops := [Remove(g, r)] + ([] + ([Queue(g, r, p)] + []));
    assert ops == [Remove(g, r), Queue(g, r, p)] && ops[1..] == [Queue(g, r, p)] && ops[1..][1..] == [];
    assert SqlStep(map[], Remove(g, r)) == map[];
  }

  lemma LateOrder(g: Json, r: Json, p: Json)
    ensures InOrder(START, [Begin(0, Clear(g)), Begin(1, Queue(g, r, p)), Continue(1), Continue(0)]) ==
            [Queue(g, r, p), Clear(g)]
  {
    var s1 := Next(START, Begin(0, Clear(g)));
    var s2 := Next(s1, Begin(1, Queue(g, r, p)));
    StartSound();
    BeginsClear(g);
    BeginsQueueing(s1, 1, g, r, p);
    assert Next(s2, Continue(1)).calls == s2.calls - {1};
    FourTurns(START, Begin(0, Clear(g)), Begin(1, Queue(g, r, p)), Continue(1), Continue(0));
  }

  lemma BeginsClear(g: Json)
    ensures Next(START, Begin(0, Clear(g))) == System(map[], map[0 := AtDrop(g)])
  {
  }

  /** A proposal queued between the two lock sections of a clear goes with the list that the clear never read. */
  lemma ClearDropsLate(g: Json, r: Json, p: Json)
    ensures var turns := [Begin(0, Clear(g)), Begin(1, Queue(g, r, p)), Continue(1), Continue(0)];
            InOrder(START, turns) == [Queue(g, r, p), Clear(g)] && Refs(RunTurns(START, turns).store, g) == Ok([])
  {
    LateOrder(g, r, p);
    ListsAreAtomic([Begin(0, Clear(g)), Begin(1, Queue(g, r, p)), Continue(1), Continue(0)], g);
    var ops := [Queue(g, r, p), Clear(g)];
    assert ops[1..] == [Clear(g)] && ops[1..][1..] == [];
    assert Listed([], ops, g) == Listed([r], ops[1..], g) == Listed([], ops[1..][1..], g);
  }
}

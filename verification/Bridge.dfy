/**
  The React Native side of the WebView bridge: requests get consecutive ids, and answers are
  matched to them by id, from a host that may reorder, repeat, invent or garble messages.
  */
module Bridge {
  import opened Bytes

  /** A JSON value in transit. */
  type Value = string

  datatype Call = Call(id: nat, name: string, args: Value)

  /**
    A raw message by what `JSON.parse` makes of it. Anything that parses to something without
    fields has none of them; `null` has no fields to ask for, so looking at it throws.
    */
  datatype Message =
    | Unparsable
    | NullMessage
    | Message(ready: bool, id: Option<int>, ok: bool, result: Value, error: Option<string>)

  datatype Settlement = Resolved(value: Value) | Rejected(error: string)

  /** A call of a pending promise's `resolve` or `reject`. */
  datatype Settled = Settled(id: nat, outcome: Settlement)

  /** `nextId`, the keys of `pending`, the settling calls made, the requests sent, and the ready promise. */
  datatype State = State(nextId: nat, pending: set<nat>, settled: seq<Settled>, sent: seq<Call>, ready: bool)

  const START := State(1, {}, [], [], false)

  datatype Event = Ask(name: string, args: Value) | Receive(m: Message)

  function Outcome(m: Message): (o: Settlement)
    requires m.Message?
  {
    if m.ok then Resolved(m.result)
    else Rejected(if m.error.Some? then m.error.value else "mls4rn bridge error")
  }

  /** The message is an answer bearing this id. */
  predicate Bears(m: Message, id: nat) {
    m.Message? && !m.ready && m.id == Some(id)
  }

  function Next(s: State, e: Event): (s': State) {
    match e
    case Ask(name, args) =>
      s.(nextId := s.nextId + 1, pending := s.pending + {s.nextId}, sent := s.sent + [Call(s.nextId, name, args)])
    case Receive(m) =>
      if !m.Message? then s
      else if m.ready then s.(ready := true)
      else if m.id.Some? && m.id.value >= 0 && m.id.value in s.pending then
        s.(pending := s.pending - {m.id.value}, settled := s.settled + [Settled(m.id.value, Outcome(m))])
      else s
  }

  function Run(s: State, es: seq<Event>): (s': State)
    decreases es
  {
    if es == [] then s else Run(Next(s, es[0]), es[1..])
  }

  class Bridge {
    var nextId: nat
    var pending: set<nat>
    var settled: seq<Settled>
    var sent: seq<Call>
    var ready: bool

    ghost function View(): (s: State)
      reads this
    {
      State(nextId, pending, settled, sent, ready)
    }

    constructor ()
      ensures View() == START
    {
      nextId, pending, settled, sent, ready := 1, {}, [], [], false;
    }

    /** `request`: the entry is in place before the transport sees the message. */
    method Request(name: string, args: Value) returns (id: nat)
      modifies this
      ensures View() == Next(old(View()), Ask(name, args)) && id == old(nextId)
    {
      id := nextId;
      nextId := nextId + 1;
      pending := pending + {id};
      sent := sent + [Call(id, name, args)];
    }

    /** `handleMessage`; only a literal `null` makes it throw. */
    method HandleMessage(m: Message) returns (threw: bool)
      modifies this
      ensures View() == Next(old(View()), Receive(m)) && (threw <==> m.NullMessage?)
    {
      if m.Unparsable? { return false; }
      if m.NullMessage? { return true; }
      threw := false;
      if m.ready {
        ready := true;
        return;
      }
      if m.id == None { return; }
      var id := m.id.value;
      if id < 0 || id !in pending { return; }
      pending := pending - {id};
      settled := settled + [Settled(id, if m.ok then Resolved(m.result)
                                        else Rejected(if m.error == None then "mls4rn bridge error"
                                            else m.error.value))];
    }
  }

  // ---- What every run keeps ----

  ghost function AnsweredIds(s: State): (ids: set<nat>) {
    set i | 0 <= i < |s.settled| :: s.settled[i].id
  }

  ghost predicate Consistent(s: State) {
    && s.nextId == |s.sent| + 1
    && (forall i :: 0 <= i < |s.sent| ==> s.sent[i].id == i + 1)
    && (forall i :: 0 <= i < |s.settled| ==> 1 <= s.settled[i].id < s.nextId)
    && (forall i, j :: 0 <= i < j < |s.settled| ==> s.settled[i].id != s.settled[j].id)
    && (forall id :: id in s.pending <==> 1 <= id < s.nextId && id !in AnsweredIds(s))
  }

  lemma AskConsistent(s: State, name: string, args: Value)
    requires Consistent(s)
    ensures Consistent(Next(s, Ask(name, args)))
  {
    assert AnsweredIds(Next(s, Ask(name, args))) == AnsweredIds(s);
  }

  lemma AnsweredMore(s: State, s': State, a: Settled)
    requires s'.settled == s.settled + [a]
    ensures AnsweredIds(s') == AnsweredIds(s) + {a.id}
  {
    assert s'.settled[|s.settled|] == a;
    forall id | id in AnsweredIds(s) ensures id in AnsweredIds(s') {
      var i :| 0 <= i < |s.settled| && s.settled[i].id == id;
      assert s'.settled[i].id == id;
    }
  }

  lemma AnswerConsistent(s: State, s': State, a: Settled)
    requires Consistent(s) && a.id in s.pending
    requires s' == s.(pending := s.pending - {a.id}, settled := s.settled + [a])
    ensures Consistent(s')
  {
    AnsweredMore(s, s', a);
    assert forall i :: 0 <= i < |s.settled| ==> s.settled[i].id in AnsweredIds(s);
  }

  lemma NextConsistent(s: State, e: Event)
    requires Consistent(s)
    ensures Consistent(Next(s, e))
  {
    var s' := Next(s, e);
    match e
    case Ask(name, args) => AskConsistent(s, name, args);
    case Receive(m) =>
      if s'.settled != s.settled {
        AnswerConsistent(s, s', Settled(m.id.value, Outcome(m)));
      } else {
        assert AnsweredIds(s') == AnsweredIds(s);
      }
  }

  /**
    On every run, ids count the requests up, pending ids are the issued ones not yet answered, and
    no promise is settled twice.
    */
  lemma {:induction false} RunConsistent(s: State, es: seq<Event>)
    requires Consistent(s)
    ensures Consistent(Run(s, es))
    decreases es
  {
    if es == [] {
    } else {
      NextConsistent(s, es[0]);
      RunConsistent(Next(s, es[0]), es[1..]);
    }
  }

  // ---- First answer ----

  /** The outcome of the first message that bears `id` once `id` is among the `issued` requests. */
  function FirstAnswer(es: seq<Event>, id: nat, issued: nat): (o: Option<Settlement>)
    decreases es
  {
    if es == [] then None
    else if es[0].Ask? then FirstAnswer(es[1..], id, issued + 1)
    else if Bears(es[0].m, id) && 1 <= id <= issued then Some(Outcome(es[0].m))
    else FirstAnswer(es[1..], id, issued)
  }

  lemma {:induction false} SettlesFrom(s: State, es: seq<Event>, id: nat, o: Settlement)
    requires Consistent(s)
    ensures Settled(id, o) in Run(s, es).settled <==>
            Settled(id, o) in s.settled || (id !in AnsweredIds(s) && FirstAnswer(es, id, |s.sent|) == Some(o))
    decreases es
  {
    if es == [] {
    } else {
      var s' := Next(s, es[0]);
      NextConsistent(s, es[0]);
      SettlesFrom(s', es[1..], id, o);
      NextSettles(s, es[0], id, o);
    }
  }

  lemma NextSettles(s: State, e: Event, id: nat, o: Settlement)
    requires Consistent(s)
    ensures var s' := Next(s, e); var hit := e.Receive? && Bears(e.m, id) && 1 <= id <= |s.sent|
            && id !in AnsweredIds(s);
            && (Settled(id, o) in s'.settled <==> Settled(id, o) in s.settled || (hit && Outcome(e.m) == o))
            && (id in AnsweredIds(s') <==> id in AnsweredIds(s) || hit)
  {
    var s' := Next(s, e);
    if s'.settled != s.settled {
      AnsweredMore(s, s', Settled(e.m.id.value, Outcome(e.m)));
    }
  }

  /**
    On every run, request `id` is settled with `o` if and only if `o` is the outcome of the first
    message bearing `id` after the request went out.
    */
  lemma SettledIffFirstAnswer(es: seq<Event>, id: nat, o: Settlement)
    ensures Settled(id, o) in Run(START, es).settled <==> FirstAnswer(es, id, 0) == Some(o)
  {
    assert AnsweredIds(START) == {};
    SettlesFrom(START, es, id, o);
  }

  // ---- An honest host ----

  /** Every answer to an issued request carries `f` of that request. */
  ghost predicate Honest(es: seq<Event>, f: Call -> Value, sent: seq<Call>)
    decreases es
  {
    es == [] ||
    match es[0]
    case Ask(name, args) => Honest(es[1..], f, sent + [Call(|sent| + 1, name, args)])
    case Receive(m) =>
      && (m.Message? && !m.ready && m.id.Some? && 1 <= m.id.value <= |sent| ==>
            m.ok && m.result == f(sent[m.id.value - 1]))
      && Honest(es[1..], f, sent)
  }

  lemma {:induction false} HonestFrom(es: seq<Event>, f: Call -> Value, s: State, id: nat, o: Settlement)
    requires Honest(es, f, s.sent) && Consistent(s) && 1 <= id
    requires FirstAnswer(es, id, |s.sent|) == Some(o)
    ensures id <= |Run(s, es).sent| && o == Resolved(f(Run(s, es).sent[id - 1]))
    decreases es
  {
    NextConsistent(s, es[0]);
    var s' := Next(s, es[0]);
    if es[0].Receive? && Bears(es[0].m, id) && id <= |s.sent| {
      SentGrows(s', es[1..], id);
    } else {
      HonestFrom(es[1..], f, s', id, o);
    }
  }

  lemma {:induction false} SentGrows(s: State, es: seq<Event>, id: nat)
    requires 1 <= id <= |s.sent|
    ensures id <= |Run(s, es).sent| && Run(s, es).sent[id - 1] == s.sent[id - 1]
    decreases es
  {
    if es == [] {
    } else {
      SentGrows(Next(s, es[0]), es[1..], id);
    }
  }

  /** Whatever the order and however often it answers, a host that computes `f` yields `f` of the request itself. */
  lemma HonestHost(es: seq<Event>, f: Call -> Value, i: nat)
    requires Honest(es, f, [])
    requires i < |Run(START, es).settled|
    ensures var s := Run(START, es); var id := s.settled[i].id;
            1 <= id <= |s.sent| && s.settled[i].outcome == Resolved(f(s.sent[id - 1]))
  {
    var s := Run(START, es);
    RunConsistent(START, es);
    SettledIffFirstAnswer(es, s.settled[i].id, s.settled[i].outcome);
    HonestFrom(es, f, START, s.settled[i].id, s.settled[i].outcome);
  }

  // ---- Mls.ready ----

  /** Where the memoised `ready` promise stands. */
  datatype Phase = Uncalled | AwaitReady | AwaitItem | AwaitRestore(id: nat) | Done | Failed

  datatype Mls = Mls(bridge: State, persistent: bool, phase: Phase)

  /** Calls of `ready`, continuations of its one async body, and everything else on the bridge. */
  datatype Step =
    | CallReady
    | ReadySeen
    | ItemArrives(snapshot: Option<string>)
    | ItemFails
    | RestoreSettled
    | Other(e: Event)

  /** The other facade methods never send a restore. */
  predicate Allowed(step: Step) {
    step.Other? && step.e.Ask? ==> step.e.name != "restore"
  }

  predicate AnsweredId(s: State, id: nat) {
    exists i :: 0 <= i < |s.settled| && s.settled[i].id == id
  }

  predicate ResolvedId(s: State, id: nat) {
    exists i :: 0 <= i < |s.settled| && s.settled[i].id == id && s.settled[i].outcome.Resolved?
  }

  function NextMls(m: Mls, step: Step): (m': Mls) {
    match step
    case CallReady => if m.phase.Uncalled? then m.(phase := AwaitReady) else m
    case ReadySeen =>
      if m.phase.AwaitReady? && m.bridge.ready then m.(phase := if m.persistent then AwaitItem else Done) else m
    case ItemArrives(snapshot) =>
      if !m.phase.AwaitItem? then m
      else if snapshot.Some? && snapshot.value != "" then
        Mls(Next(m.bridge, Ask("restore", snapshot.value)), m.persistent, AwaitRestore(m.bridge.nextId))
      else m.(phase := Done)
    case ItemFails => if m.phase.AwaitItem? then m.(phase := Failed) else m
    case RestoreSettled =>
      if !m.phase.AwaitRestore? then m
      else if ResolvedId(m.bridge, m.phase.id) then m.(phase := Done)
      else if AnsweredId(m.bridge, m.phase.id) then m.(phase := Failed)
      else m
    case Other(e) => m.(bridge := Next(m.bridge, e))
  }

  function RunMls(m: Mls, steps: seq<Step>): (m': Mls)
    decreases steps
  {
    if steps == [] then m else RunMls(NextMls(m, steps[0]), steps[1..])
  }

  function Restores(sent: seq<Call>): (n: nat) {
    if sent == [] then 0 else Restores(sent[..|sent| - 1]) + if sent[|sent| - 1].name == "restore" then 1 else 0
  }

  /** A restore has been answered, and not with an error. */
  ghost predicate Restored(s: State) {
    exists id :: 1 <= id <= |s.sent| && s.sent[id - 1].name == "restore" && ResolvedId(s, id)
  }

  lemma RestoredStays(s: State, s': State)
    requires Restored(s) && s.sent <= s'.sent && s.settled <= s'.settled
    ensures Restored(s')
  {
    var id :| 1 <= id <= |s.sent| && s.sent[id - 1].name == "restore" && ResolvedId(s, id);
    var i :| 0 <= i < |s.settled| && s.settled[i].id == id && s.settled[i].outcome.Resolved?;
    assert s'.settled[i] == s.settled[i];
    assert ResolvedId(s', id) && s'.sent[id - 1] == s.sent[id - 1];
  }

  /** At most one restore goes out, after the ready message; `ready` resolves after the host is and has restored. */
  ghost predicate ReadyOnce(m: Mls) {
    && Restores(m.bridge.sent) <= 1
    && (Restores(m.bridge.sent) == 1 ==> m.bridge.ready && (m.phase.AwaitRestore? || m.phase.Done? || m.phase.Failed?))
    && (!m.phase.Uncalled? && !m.phase.AwaitReady? ==> m.bridge.ready)
    && (m.phase.AwaitRestore? ==> 1 <= m.phase.id <= |m.bridge.sent| && m.bridge.sent[m.phase.id - 1].name == "restore")
    && (m.phase.Done? && Restores(m.bridge.sent) == 1 ==> Restored(m.bridge))
  }

  lemma RestoresAppend(sent: seq<Call>, r: Call)
    ensures Restores(sent + [r]) == Restores(sent) + if r.name == "restore" then 1 else 0
  {
    assert (sent + [r])[..|sent|] == sent;
  }

  lemma {:induction false} HasRestore(sent: seq<Call>, k: nat)
    requires k < |sent| && sent[k].name == "restore"
    ensures Restores(sent) >= 1
  {
    if k == |sent| - 1 {
    } else {
      HasRestore(sent[..|sent| - 1], k);
    }
  }

  lemma NextItem(m: Mls, snapshot: string)
    requires ReadyOnce(m) && Consistent(m.bridge) && m.phase.AwaitItem? && snapshot != ""
    ensures ReadyOnce(NextMls(m, ItemArrives(Some(snapshot))))
  {
    RestoresAppend(m.bridge.sent, Call(m.bridge.nextId, "restore", snapshot));
  }

  lemma NextSettled(m: Mls)
    requires ReadyOnce(m) && m.phase.AwaitRestore?
    ensures ReadyOnce(NextMls(m, RestoreSettled))
  {
    HasRestore(m.bridge.sent, m.phase.id - 1);
    if NextMls(m, RestoreSettled).phase.Done? {
      assert ResolvedId(m.bridge, m.phase.id);
    }
  }

  lemma NextOther(m: Mls, e: Event)
    requires ReadyOnce(m) && Allowed(Other(e))
    ensures ReadyOnce(NextMls(m, Other(e)))
  {
    var b, b' := m.bridge, Next(m.bridge, e);
    if e.Ask? {
      RestoresAppend(b.sent, Call(b.nextId, e.name, e.args));
    }
    assert b.sent <= b'.sent && b.settled <= b'.settled;
    if m.phase.Done? && Restores(b.sent) == 1 {
      RestoredStays(b, b');
    }
  }

  lemma NextReadyOnce(m: Mls, step: Step)
    requires ReadyOnce(m) && Consistent(m.bridge) && Allowed(step)
    ensures ReadyOnce(NextMls(m, step))
  {
    match step
    case CallReady =>
    case ReadySeen =>
    case ItemArrives(snapshot) =>
      if m.phase.AwaitItem? && snapshot.Some? && snapshot.value != "" {
        NextItem(m, snapshot.value);
      }
    case ItemFails =>
    case RestoreSettled =>
      if m.phase.AwaitRestore? {
        NextSettled(m);
      }
    case Other(e) =>
      NextOther(m, e);
  }

  lemma NextBridge(m: Mls, step: Step)
    requires Consistent(m.bridge)
    ensures Consistent(NextMls(m, step).bridge)
  {
    match step
    case CallReady =>
    case ReadySeen =>
    case ItemArrives(snapshot) =>
      if snapshot.Some? {
        NextConsistent(m.bridge, Ask("restore", snapshot.value));
      }
    case ItemFails =>
    case RestoreSettled =>
    case Other(e) => NextConsistent(m.bridge, e);
  }

  lemma {:induction false} RunReadyOnce(m: Mls, steps: seq<Step>)
    requires ReadyOnce(m) && Consistent(m.bridge)
    requires forall i :: 0 <= i < |steps| ==> Allowed(steps[i])
    ensures ReadyOnce(RunMls(m, steps))
    decreases steps
  {
    if steps == [] {
    } else {
      NextReadyOnce(m, steps[0]);
      NextBridge(m, steps[0]);
      RunReadyOnce(NextMls(m, steps[0]), steps[1..]);
    }
  }

  /** Every run of a fresh facade, however often `ready` is called, keeps `ReadyOnce`. */
  lemma ReadyRestoresOnce(persistent: bool, steps: seq<Step>)
    requires forall i :: 0 <= i < |steps| ==> Allowed(steps[i])
    ensures ReadyOnce(RunMls(Mls(START, persistent, Uncalled), steps))
  {
    assert AnsweredIds(START) == {};
    RunReadyOnce(Mls(START, persistent, Uncalled), steps);
  }

  /** The promise is made once: when it has settled, no later call or message changes how, or sends a restore. */
  lemma {:induction false} ReadyIsFinal(m: Mls, steps: seq<Step>)
    requires m.phase.Done? || m.phase.Failed?
    requires forall i :: 0 <= i < |steps| ==> Allowed(steps[i])
    ensures RunMls(m, steps).phase == m.phase && Restores(RunMls(m, steps).bridge.sent) == Restores(m.bridge.sent)
    decreases steps
  {
    if steps == [] {
    } else {
      if steps[0].Other? && steps[0].e.Ask? {
        RestoresAppend(m.bridge.sent, Call(m.bridge.nextId, steps[0].e.name, steps[0].e.args));
      }
      ReadyIsFinal(NextMls(m, steps[0]), steps[1..]);
    }
  }
}

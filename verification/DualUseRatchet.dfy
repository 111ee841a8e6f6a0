/**
  The own sender ratchet of a virtual client, which several devices share: it hands out keys to
  encrypt with, and keeps each until the message is confirmed or comes back to be decrypted.
  */
module DualUseRatchet {
  import opened Bytes
  import opened SenderRatchet

  datatype PastSecret = AwaitingConfirmation(material: Material) | Available(material: Material) | Consumed

  datatype DualUse = DualUse(past: map<nat, PastSecret>, head: RatchetSecret)

  // ---- What the ratchet is accountable for ----

  /** A generation sent and not confirmed, one skipped over, or one decrypted. */
  datatype Mark = Sent | Skipped | Used

  datatype Dual = Dual(head: Generation, past: map<nat, Mark>)

  const UNUSED := Dual(0, map[])

  /** The generations that count towards the receive window. */
  function Retained(past: map<nat, Mark>): (gs: set<nat>) {
    set g | g in past && past[g] != Sent
  }

  /** The oldest retained generation from `g` on. */
  function Oldest(past: map<nat, Mark>, g: nat, head: nat): (o: Option<nat>)
    ensures o.Some? ==> g <= o.value < head && o.value in Retained(past)
    ensures o.Some? ==> forall h :: g <= h < o.value ==> h !in Retained(past)
    ensures o.None? ==> forall h :: g <= h < head ==> h !in Retained(past)
    decreases head - g
  {
    if g >= head then None
    else if g in past && past[g] != Sent then Some(g)
    else Oldest(past, g + 1, head)
  }

  /** Beyond the tolerance the oldest retained generations go; sent ones never do. */
  function Pruned(past: map<nat, Mark>, head: nat, tolerance: nat): (past': map<nat, Mark>)
    decreases |past|
  {
    if |Retained(past)| <= tolerance then past
    else
      match Oldest(past, 0, head)
      case None => past
      case Some(g) =>
        Smaller(past, g);
        Pruned(past - {g}, head, tolerance)
  }

  lemma Smaller(past: map<nat, Mark>, g: nat)
    requires g in past
    ensures |past - {g}| < |past|
  {
    assert (past - {g}).Keys == past.Keys - {g};
  }

  function SendStep(d: Dual): (r: (Dual, Result<nat>)) {
    if d.head == MAX_GENERATION then (d, Err(RatchetTooLong))
    else (Dual(d.head + 1, d.past[d.head := Sent]), Ok(d.head))
  }

  function ConfirmStep(d: Dual, g: Generation): (d': Dual) {
    if g < d.head && g in d.past && d.past[g] == Sent then d.(past := d.past - {g}) else d
  }

  /** The generations up to `g`, skipped. */
  function SkipTo(past: map<nat, Mark>, head: nat, g: nat): (past': map<nat, Mark>) {
    if g <= head then past else SkipTo(past, head, g - 1)[g - 1 := Skipped]
  }

  /** Why a generation behind the head has no entry. */
  function MissingPast(d: Dual, g: nat): (e: Error) {
    var oldest := Oldest(d.past, 0, d.head);
    if oldest.Some? && g < oldest.value then TooDistantInThePast else SecretReuseError
  }

  function ReceiveStep(d: Dual, g: Generation, cfg: Configuration): (r: (Dual, Result<nat>)) {
    if d.head < MAX_GENERATION - cfg.maximumForwardDistance && g > d.head + cfg.maximumForwardDistance then
      (d, Err(TooDistantInTheFuture))
    else if g == MAX_GENERATION then (Dual(g, SkipTo(d.past, d.head, g)), Err(RatchetTooLong))
    else if g >= d.head then
      (Dual(g + 1, Pruned(SkipTo(d.past, d.head, g)[g := Used], g + 1, cfg.outOfOrderTolerance)), Ok(g))
    else if g !in d.past then
      (d, Err(MissingPast(d, g)))
    else if d.past[g] == Used then (d, Err(SecretReuseError))
    else (d.(past := Pruned(d.past[g := Used], d.head, cfg.outOfOrderTolerance)), Ok(g))
  }

  // ---- The ratchet itself ----

  /** Every stored key is that of its generation on `first`'s chain. */
  ghost predicate Stores(c: Suite, first: Secret, p: PastSecret, g: nat, m: Mark) {
    match m
    case Sent => p == AwaitingConfirmation(KeyOf(c, first, g))
    case Skipped => p == Available(KeyOf(c, first, g))
    case Used => p == Consumed
  }

  ghost predicate Follows(c: Suite, first: Secret, r: DualUse, d: Dual) {
    && OnChain(c, first, r.head) && r.head.generation == d.head
    && r.past.Keys == d.past.Keys
    && (forall g :: g in d.past ==> g < d.head && Stores(c, first, r.past[g], g, d.past[g]))
  }

  function NewDualUse(secret: Secret): (r: DualUse)
    ensures forall c :: Follows(c, secret, r, UNUSED)
  {
    DualUse(map[], RatchetSecret(secret, 0))
  }

  lemma FollowsPut(c: Suite, first: Secret, r: DualUse, d: Dual, g: nat, p: PastSecret, m: Mark)
    requires Follows(c, first, r, d) && g < d.head && Stores(c, first, p, g, m)
    ensures Follows(c, first, r.(past := r.past[g := p]), d.(past := d.past[g := m]))
  {
  }

  lemma FollowsDrop(c: Suite, first: Secret, r: DualUse, d: Dual, g: nat)
    requires Follows(c, first, r, d)
    ensures Follows(c, first, r.(past := r.past - {g}), d.(past := d.past - {g}))
  {
  }

  /** Ratchet once and record the generation left behind. */
  lemma FollowsForward(c: Suite, first: Secret, r: DualUse, d: Dual, p: PastSecret, m: Mark)
    requires Follows(c, first, r, d) && d.head < MAX_GENERATION && Stores(c, first, p, d.head, m)
    ensures var n := RatchetForward(c, r.head);
            && n.Ok? && n.value.2 == KeyOf(c, first, d.head)
            && Follows(c, first, DualUse(r.past[d.head := p], n.value.0), Dual(d.head + 1, d.past[d.head := m]))
  {
    ForwardOnChain(c, first, r.head);
  }

  /** `secret_for_encryption`. */
  method SecretForEncryption(c: Suite, r: DualUse, ghost first: Secret, ghost d: Dual)
    returns (r': DualUse, out: Result<(Generation, Material)>)
    requires Follows(c, first, r, d)
    ensures var (d', sent) := SendStep(d);
            && Follows(c, first, r', d')
            && out == if sent.Ok? then Ok((sent.value, KeyOf(c, first, sent.value))) else Err(sent.error)
  {
    var generation := r.head.generation;
    var next := RatchetForward(c, r.head);
    match next {
      case Err(e) => return r, Err(e);
      case Ok(forward) =>
        ForwardOnChain(c, first, r.head);
        FollowsForward(c, first, r, d, AwaitingConfirmation(forward.2), Sent);
        r' := DualUse(r.past[generation := AwaitingConfirmation(forward.2)], forward.0);
        out := Ok((generation, forward.2));
    }
  }

  /** `delete_secret_for_generation`. */
  method DeleteSecretForGeneration(c: Suite, r: DualUse, g: Generation, ghost first: Secret, ghost d: Dual)
    returns (r': DualUse)
    requires Follows(c, first, r, d)
    ensures Follows(c, first, r', ConfirmStep(d, g))
  {
    if g >= r.head.generation { return r; }
    r' := r;
    if g in r.past && r.past[g].AwaitingConfirmation? {
      FollowsDrop(c, first, r, d, g);
      r' := r.(past := r.past - {g});
    }
  }

  /** The loop over the generations skipped. */
  method SkipAhead(c: Suite, r: DualUse, g: Generation, ghost first: Secret, ghost d: Dual) returns (r': DualUse)
    requires Follows(c, first, r, d) && d.head <= g
    ensures Follows(c, first, r', Dual(g, SkipTo(d.past, d.head, g)))
  {
    r' := r;
    for h := r.head.generation to g
      invariant Follows(c, first, r', Dual(h, SkipTo(d.past, d.head, h)))
    {
      ghost var now := Dual(h, SkipTo(d.past, d.head, h));
      ForwardOnChain(c, first, r'.head);
      var forward := RatchetForward(c, r'.head).value;
      FollowsForward(c, first, r', now, Available(forward.2), Skipped);
      r' := DualUse(r'.past[h := Available(forward.2)], forward.0);
    }
  }

  predicate IsRetained(p: PastSecret) {
    !p.AwaitingConfirmation?
  }

  /** The oldest generation retained for decryption, scanning in order. */
  method OldestRetained(r: DualUse, ghost d: Dual, ghost c: Suite, ghost first: Secret) returns (oldest: Option<nat>)
    requires Follows(c, first, r, d)
    ensures oldest == Oldest(d.past, 0, d.head)
  {
    for g := 0 to r.head.generation
      invariant Oldest(d.past, 0, d.head) == Oldest(d.past, g, d.head)
    {
      if g in r.past && IsRetained(r.past[g]) { return Some(g); }
    }
    oldest := None;
  }

  /** `prune_past_secrets`. */
  method Prune(c: Suite, r: DualUse, tolerance: nat, ghost first: Secret, ghost d: Dual) returns (r': DualUse)
    requires Follows(c, first, r, d)
    ensures Follows(c, first, r', d.(past := Pruned(d.past, d.head, tolerance)))
  {
    r' := r;
    ghost var now := d;
    var retained := set g | g in r.past && IsRetained(r.past[g]);
    assert retained == Retained(d.past);
    var excess := if |retained| > tolerance then |retained| - tolerance else 0;
    while excess > 0
      invariant Follows(c, first, r', now) && now.head == d.head && excess >= 0
      invariant excess == if |Retained(now.past)| > tolerance then |Retained(now.past)| - tolerance else 0
      invariant Pruned(now.past, d.head, tolerance) == Pruned(d.past, d.head, tolerance)
    {
      var oldest := OldestRetained(r', now, c, first);
      Nonempty(now.past, now.head);
      FewerRetained(now.past, oldest.value);
      FollowsDrop(c, first, r', now, oldest.value);
      r' := r'.(past := r'.past - {oldest.value});
      now := now.(past := now.past - {oldest.value});
      excess := excess - 1;
    }
  }

  lemma Nonempty(past: map<nat, Mark>, head: nat)
    requires |Retained(past)| > 0 && forall g :: g in past ==> g < head
    ensures Oldest(past, 0, head).Some?
  {
    var g :| g in Retained(past);
    assert g in past;
  }

  lemma FewerRetained(past: map<nat, Mark>, g: nat)
    requires g in Retained(past)
    ensures Retained(past - {g}) == Retained(past) - {g} && |Retained(past - {g})| == |Retained(past)| - 1
  {
  }

  /** `secret_for_decryption`, against the same steps on marks. */
  method SecretForDecryption(c: Suite, r: DualUse, g: Generation, cfg: Configuration, ghost first: Secret,
      ghost d: Dual)
    returns (r': DualUse, out: Result<Material>)
    requires Follows(c, first, r, d)
    ensures var (d', got) := ReceiveStep(d, g, cfg);
            && Follows(c, first, r', d')
            && out == if got.Ok? then Ok(KeyOf(c, first, g)) else Err(got.error)
  {
    var head := r.head.generation;
    if head < MAX_GENERATION - cfg.maximumForwardDistance && g > head + cfg.maximumForwardDistance {
      return r, Err(TooDistantInTheFuture);
    }
    if g >= head {
      r', out := TakeAhead(c, r, g, cfg.outOfOrderTolerance, first, d);
    } else {
      r', out := TakeBehind(c, r, g, cfg.outOfOrderTolerance, first, d);
    }
  }

  method TakeAhead(c: Suite, r: DualUse, g: Generation, tolerance: nat, ghost first: Secret, ghost d: Dual)
    returns (r': DualUse, out: Result<Material>)
    requires Follows(c, first, r, d) && g >= d.head
    ensures g == MAX_GENERATION ==>
              out == Err(RatchetTooLong) && Follows(c, first, r', Dual(g, SkipTo(d.past, d.head, g)))
    ensures g < MAX_GENERATION ==>
              && out == Ok(KeyOf(c, first, g))
              && Follows(c, first, r', Dual(g + 1, Pruned(SkipTo(d.past, d.head, g)[g := Used], g + 1, tolerance)))
  {
    r' := SkipAhead(c, r, g, first, d);
    r', out := TakeHead(c, r', tolerance, first, Dual(g, SkipTo(d.past, d.head, g)));
  }

  /** Hand out the head's key and retain its used place. */
  method TakeHead(c: Suite, r: DualUse, tolerance: nat, ghost first: Secret, ghost d: Dual)
    returns (r': DualUse, out: Result<Material>)
    requires Follows(c, first, r, d)
    ensures d.head == MAX_GENERATION ==> out == Err(RatchetTooLong) && Follows(c, first, r', d)
    ensures d.head < MAX_GENERATION ==>
              && out == Ok(KeyOf(c, first, d.head))
              && Follows(c, first, r', Dual(d.head + 1, Pruned(d.past[d.head := Used], d.head + 1, tolerance)))
  {
    var g := r.head.generation;
    var next := RatchetForward(c, r.head);
    match next {
      case Err(e) => return r, Err(e);
      case Ok(forward) =>
        FollowsForward(c, first, r, d, Consumed, Used);
        r' := Prune(c, DualUse(r.past[g := Consumed], forward.0), tolerance, first, Dual(g + 1, d.past[g := Used]));
        out := Ok(forward.2);
    }
  }

  method TakeBehind(c: Suite, r: DualUse, g: Generation, tolerance: nat, ghost first: Secret, ghost d: Dual)
    returns (r': DualUse, out: Result<Material>)
    requires Follows(c, first, r, d) && g < d.head
    ensures g !in d.past ==>
              && Follows(c, first, r', d)
              && out == Err(MissingPast(d, g))
    ensures g in d.past && d.past[g] == Used ==> Follows(c, first, r', d) && out == Err(SecretReuseError)
    ensures g in d.past && d.past[g] != Used ==>
              && Follows(c, first, r', d.(past := Pruned(d.past[g := Used], d.head, tolerance)))
              && out == Ok(KeyOf(c, first, g))
  {
    if g !in r.past {
      var oldest := OldestRetained(r, d, c, first);
      return r, Err(if oldest.Some? && g < oldest.value then TooDistantInThePast else SecretReuseError);
    }
    match r.past[g] {
      case Consumed => return r, Err(SecretReuseError);
      case AwaitingConfirmation(material) => out := Ok(material);
      case Available(material) => out := Ok(material);
    }
    FollowsPut(c, first, r, d, g, Consumed, Used);
    r' := Prune(c, r.(past := r.past[g := Consumed]), tolerance, first, d.(past := d.past[g := Used]));
  }

  // ---- Every run ----

  datatype Op = Send | Confirm(generation: Generation) | Receive(generation: Generation, configuration: Configuration)

  function Step(d: Dual, op: Op): (r: (Dual, Result<nat>)) {
    match op
    case Send => SendStep(d)
    case Confirm(g) => (ConfirmStep(d, g), Ok(g))
    case Receive(g, cfg) => ReceiveStep(d, g, cfg)
  }

  function Run(d: Dual, ops: seq<Op>): (r: (Dual, seq<Result<nat>>))
    ensures |r.1| == |ops|
    decreases ops
  {
    if ops == [] then (d, [])
    else
      var (d', out) := Step(d, ops[0]);
      var (end, outs) := Run(d', ops[1..]);
      (end, [out] + outs)
  }

  ghost predicate Behind(d: Dual) {
    forall g :: g in d.past ==> g < d.head
  }

  /** Neither sent and unconfirmed nor skipped: no key for it is left. */
  ghost predicate Gone(d: Dual, g: nat) {
    g < d.head && (g !in d.past || d.past[g] == Used)
  }

  lemma {:induction false} PrunedKeeps(past: map<nat, Mark>, head: nat, tolerance: nat, g: nat)
    ensures g in Pruned(past, head, tolerance) ==> g in past && Pruned(past, head, tolerance)[g] == past[g]
    ensures g in past && past[g] == Sent ==> g in Pruned(past, head, tolerance)
    decreases |past|
  {
    if |Retained(past)| <= tolerance || Oldest(past, 0, head).None? {
    } else {
      var o := Oldest(past, 0, head).value;
      Smaller(past, o);
      PrunedKeeps(past - {o}, head, tolerance, g);
    }
  }

  lemma {:induction false} PrunedSize(past: map<nat, Mark>, head: nat, tolerance: nat)
    requires forall g :: g in past ==> g < head
    ensures |Retained(Pruned(past, head, tolerance))| <= tolerance
    decreases |past|
  {
    if |Retained(past)| <= tolerance {
    } else {
      Nonempty(past, head);
      var o := Oldest(past, 0, head).value;
      Smaller(past, o);
      PrunedSize(past - {o}, head, tolerance);
    }
  }

  lemma {:induction false} SkipToAt(past: map<nat, Mark>, head: nat, g: nat, h: nat)
    ensures h in SkipTo(past, head, g) <==> h in past || head <= h < g
    ensures h in SkipTo(past, head, g) ==> SkipTo(past, head, g)[h] == if head <= h < g then Skipped else past[h]
    decreases g
  {
    if g <= head {
    } else {
      SkipToAt(past, head, g - 1, h);
    }
  }

  lemma ReceiveMarks(d: Dual, g: Generation, cfg: Configuration, h: nat)
    requires Behind(d)
    ensures var (d', out) := ReceiveStep(d, g, cfg);
            && d'.head >= d.head
            && (h in d'.past ==> h < d'.head)
            && (Gone(d, h) ==> Gone(d', h))
            && (out.Ok? ==> out.value == g && !Gone(d, g) && (h == g ==> Gone(d', h)))
            && (h in d.past && d.past[h] == Sent && h != g ==> h in d'.past && d'.past[h] == Sent)
  {
    var skipped := SkipTo(d.past, d.head, g);
    SkipToAt(d.past, d.head, g, h);
    PrunedKeeps(skipped[g := Used], g + 1, cfg.outOfOrderTolerance, h);
    PrunedKeeps(d.past[g := Used], d.head, cfg.outOfOrderTolerance, h);
  }

  /** What one call does to the standing of a generation: once no key for it is left, none ever is. */
  lemma StepMarks(d: Dual, op: Op, h: nat)
    requires Behind(d)
    ensures var (d', out) := Step(d, op);
            && Behind(d') && d'.head >= d.head
            && (Gone(d, h) ==> Gone(d', h))
            && (op.Receive? && out.Ok? ==> !Gone(d, op.generation) && Gone(d', op.generation))
            && (op.Send? && out.Ok? ==> out.value == d.head < d'.head)
            && (h in d.past && d.past[h] == Sent ==>
                  if op == Confirm(h) || (op.Receive? && op.generation == h) then Gone(d', h)
                  else h in d'.past && d'.past[h] == Sent)
  {
    if op.Receive? {
      var d' := ReceiveStep(d, op.generation, op.configuration).0;
      forall g | g in d'.past ensures g < d'.head {
        ReceiveMarks(d, op.generation, op.configuration, g);
      }
      ReceiveMarks(d, op.generation, op.configuration, h);
      ReceiveMarks(d, op.generation, op.configuration, op.generation);
    }
  }

  /** A generation with no key left is never decrypted. */
  lemma {:induction false} GoneForever(d: Dual, ops: seq<Op>, g: nat)
    requires Behind(d) && Gone(d, g)
    ensures Gone(Run(d, ops).0, g)
    ensures forall i :: 0 <= i < |ops| && ops[i].Receive? && ops[i].generation == g ==> Run(d, ops).1[i].Err?
    decreases ops
  {
    if ops == [] {
    } else {
      StepMarks(d, ops[0], g);
      GoneForever(Step(d, ops[0]).0, ops[1..], g);
    }
  }

  lemma {:induction false} SendsFrom(d: Dual, ops: seq<Op>)
    requires Behind(d)
    ensures forall i :: 0 <= i < |ops| && ops[i].Send? && Run(d, ops).1[i].Ok? ==> Run(d, ops).1[i].value >= d.head
    decreases ops
  {
    if ops == [] {
    } else {
      StepMarks(d, ops[0], 0);
      SendsFrom(Step(d, ops[0]).0, ops[1..]);
    }
  }

  /**
    On every run of sends, confirmations and receipts, no generation is sent twice, none decrypted
    twice, and none sent after it was decrypted.
    */
  lemma {:induction false} EachOnce(d: Dual, ops: seq<Op>)
    requires Behind(d)
    ensures var outs := Run(d, ops).1;
            forall i, j :: 0 <= i < j < |ops| && outs[i].Ok? && outs[j].Ok? ==>
              && (ops[i].Send? && ops[j].Send? ==> outs[i].value < outs[j].value)
              && (ops[i].Receive? && ops[j].Receive? ==> ops[i].generation != ops[j].generation)
              && (ops[i].Receive? && ops[j].Send? ==> ops[i].generation < outs[j].value)
    decreases ops
  {
    if ops == [] {
    } else {
      var op, rest := ops[0], ops[1..];
      var (d', out) := Step(d, op);
      StepMarks(d, op, 0);
      EachOnce(d', rest);
      SendsFrom(d', rest);
      if op.Receive? && out.Ok? {
        GoneForever(d', rest, op.generation);
      }
    }
  }

  /**
    An own message that was sent can be decrypted, however far the ratchet has moved on, if and only
    if it has been neither confirmed nor decrypted since.
    */
  lemma {:induction false} OwnMessageIff(d: Dual, ops: seq<Op>, g: Generation, cfg: Configuration)
    requires Behind(d) && g in d.past && d.past[g] == Sent
    ensures ReceiveStep(Run(d, ops).0, g, cfg).1.Ok? <==>
            forall i :: 0 <= i < |ops| ==> ops[i] != Confirm(g) && !(ops[i].Receive? && ops[i].generation == g)
    decreases ops
  {
    if ops == [] {
    } else {
      var op := ops[0];
      var d' := Step(d, op).0;
      StepMarks(d, op, g);
      if op == Confirm(g) || (op.Receive? && op.generation == g) {
        GoneForever(d', ops[1..], g);
        RunBehind(d', ops[1..]);
        ReceiveMarks(Run(d', ops[1..]).0, g, cfg, g);
      } else {
        OwnMessageIff(d', ops[1..], g, cfg);
      }
    }
  }

  lemma {:induction false} RunBehind(d: Dual, ops: seq<Op>)
    requires Behind(d)
    ensures Behind(Run(d, ops).0)
    decreases ops
  {
    if ops == [] {
    } else {
      StepMarks(d, ops[0], 0);
      RunBehind(Step(d, ops[0]).0, ops[1..]);
    }
  }

  /** A receipt leaves at most the tolerance of generations retained, unconfirmed sends aside. */
  lemma WindowBounded(d: Dual, g: Generation, cfg: Configuration)
    requires Behind(d) && ReceiveStep(d, g, cfg).1.Ok?
    ensures |Retained(ReceiveStep(d, g, cfg).0.past)| <= cfg.outOfOrderTolerance
  {
    if g >= d.head {
      var past := SkipTo(d.past, d.head, g)[g := Used];
      forall h | h in past ensures h < g + 1 {
        SkipToAt(d.past, d.head, g, h);
      }
      PrunedSize(past, g + 1, cfg.outOfOrderTolerance);
    } else {
      PrunedSize(d.past[g := Used], d.head, cfg.outOfOrderTolerance);
    }
  }
}

/**
  The per-sender hash ratchets: a chain of secrets, one key and nonce per generation, and on the
  receiving side a window of past generations that may still arrive late.
  */
module SenderRatchet {
  import opened Bytes

  const MAX_GENERATION: nat := 0xFFFF_FFFF

  type Generation = g: nat | g <= 0xFFFF_FFFF

  type Secret = Bytes

  /** A ciphersuite: labelled expansion of a secret with a context to a length, and the lengths it uses. */
  datatype Suite = Suite(expand: (Secret, string, Bytes, nat) -> Secret, hashLength: nat, keyLength: nat,
      nonceLength: nat)

  datatype Error =
    | TooDistantInTheFuture
    | TooDistantInThePast
    | IndexOutOfBounds
    | SecretReuseError
    | RatchetTooLong
    | RatchetTypeError
    | LibraryError
    | ArithmeticPanic

  datatype Result<T> = Ok(value: T) | Err(error: Error)

  datatype Material = Material(key: Secret, nonce: Secret)

  function DeriveTreeSecret(c: Suite, s: Secret, name: string, g: nat, length: nat): (r: Secret) {
    c.expand(s, name, ToBE(g, 4), length)
  }

  // ---- The chain ----

  /** The ratchet secret of generation `g`. */
  function Chain(c: Suite, first: Secret, g: nat): (s: Secret) {
    if g == 0 then first else DeriveTreeSecret(c, Chain(c, first, g - 1), "secret", g - 1, c.hashLength)
  }

  /** The key and nonce of generation `g`. */
  function KeyOf(c: Suite, first: Secret, g: nat): (m: Material) {
    var s := Chain(c, first, g);
    Material(DeriveTreeSecret(c, s, "key", g, c.keyLength), DeriveTreeSecret(c, s, "nonce", g, c.nonceLength))
  }

  datatype RatchetSecret = RatchetSecret(secret: Secret, generation: Generation)

  /** `ratchet_forward`, returning the secret it moves to. */
  function RatchetForward(c: Suite, r: RatchetSecret): (n: Result<(RatchetSecret, Generation, Material)>) {
    if r.generation == MAX_GENERATION then Err(RatchetTooLong)
    else
      var nonce := DeriveTreeSecret(c, r.secret, "nonce", r.generation, c.nonceLength);
      var key := DeriveTreeSecret(c, r.secret, "key", r.generation, c.keyLength);
      var next := DeriveTreeSecret(c, r.secret, "secret", r.generation, c.hashLength);
      Ok((RatchetSecret(next, r.generation + 1), r.generation, Material(key, nonce)))
  }

  ghost predicate OnChain(c: Suite, first: Secret, r: RatchetSecret) {
    r.secret == Chain(c, first, r.generation)
  }

  lemma ForwardOnChain(c: Suite, first: Secret, r: RatchetSecret)
    requires OnChain(c, first, r) && r.generation < MAX_GENERATION
    ensures var n := RatchetForward(c, r);
            n.Ok? && n.value.1 == r.generation && n.value.2 == KeyOf(c, first, r.generation) &&
            n.value.0.generation == r.generation + 1 && OnChain(c, first, n.value.0)
  {
  }

  // ---- The receiving side ----

  datatype Configuration = Configuration(outOfOrderTolerance: Generation, maximumForwardDistance: Generation)

  /** `past` holds the most recent generation first. */
  datatype DecryptionRatchet = DecryptionRatchet(past: seq<Option<Material>>, head: RatchetSecret)

  /** What a receiver is accountable for: the next generation, how many it keeps behind it, and those handed out. */
  datatype Window = Window(head: Generation, kept: nat, served: set<nat>)

  const FRESH := Window(0, 0, {})

  /**
    The window machine: generation `g` is handed out, or the reason it is not. A distance of
    more than 2^31 does not fit the signed index the window is looked up with.
    */
  function Request(b: Build, w: Window, g: Generation, c: Configuration): (r: (Window, Result<nat>)) {
    if w.head < MAX_GENERATION - c.maximumForwardDistance && g > w.head + c.maximumForwardDistance then
      (w, Err(TooDistantInTheFuture))
    else if g < w.head && w.head - g > c.outOfOrderTolerance then (w, Err(TooDistantInThePast))
    else if g == MAX_GENERATION then
      (Window(g, w.kept + (g - w.head), w.served), Err(RatchetTooLong))
    else if g >= w.head then
      var kept := w.kept + (g + 1 - w.head);
      (Window(g + 1, if kept < c.outOfOrderTolerance then kept else c.outOfOrderTolerance, w.served + {g}), Ok(g))
    else if w.head - g == 0x8000_0000 && b.Checked? then (w, Err(ArithmeticPanic))
    else if w.head - g > 0x8000_0000 then (w, Err(TooDistantInThePast))
    else if w.head - g > w.kept then (w, Err(IndexOutOfBounds))
    else if g in w.served then (w, Err(SecretReuseError))
    else (w.(served := w.served + {g}), Ok(g))
  }

  /**
    The ratchet is `first`'s chain in state `w`: unserved kept generations have their own key
    stored, others have none.
    */
  ghost predicate Represents(c: Suite, first: Secret, d: DecryptionRatchet, w: Window) {
    && OnChain(c, first, d.head)
    && d.head.generation == w.head
    && |d.past| == w.kept <= w.head
    && (forall g :: g in w.served ==> g < w.head)
    && forall i :: 0 <= i < |d.past| ==>
         d.past[i] == (if w.head - 1 - i in w.served then None else Some(KeyOf(c, first, w.head - 1 - i)))
  }

  function NewRatchet(secret: Secret): (d: DecryptionRatchet)
    ensures forall c :: Represents(c, secret, d, FRESH)
  {
    DecryptionRatchet([], RatchetSecret(secret, 0))
  }

  /** The signed 32-bit window index `(distance as i32) - 1`, or none when the subtraction overflows and that panics. */
  function WindowIndex(b: Build, distance: Generation): (i: Option<int>)
    requires distance > 0
    ensures i == None <==> distance == 0x8000_0000 && b.Checked?
    ensures i.Some? ==> (i.value >= 0 <==> distance <= 0x8000_0000) && (i.value >= 0 ==> i.value == distance - 1)
  {
    var signed := if distance >= 0x8000_0000 then distance - 0x1_0000_0000 else distance;
    if signed - 1 >= -0x8000_0000 then Some(signed - 1)
    else if b.Checked? then None
    else Some(signed - 1 + 0x1_0000_0000)
  }

  lemma PushServed(c: Suite, first: Secret, d: DecryptionRatchet, w: Window, entry: Option<Material>,
      served: set<nat>, head: RatchetSecret)
    requires Represents(c, first, d, w) && OnChain(c, first, head) && head.generation == w.head + 1
    requires served == w.served || served == w.served + {w.head}
    requires entry == if w.head in served then None else Some(KeyOf(c, first, w.head))
    ensures Represents(c, first, DecryptionRatchet([entry] + d.past, head), Window(w.head + 1, w.kept + 1, served))
  {
    var past := [entry] + d.past;
    forall i | 0 <= i < |past|
      ensures past[i] == (if w.head - i in served then None else Some(KeyOf(c, first, w.head - i)))
    {
      if i > 0 {
        assert past[i] == d.past[i - 1];
      }
    }
  }

  /** The forward loop: every skipped generation's key is derived and kept. */
  method SkipForward(c: Suite, d: DecryptionRatchet, steps: nat, ghost first: Secret, ghost w: Window)
    returns (d': DecryptionRatchet)
    requires Represents(c, first, d, w) && w.head + steps <= MAX_GENERATION
    ensures Represents(c, first, d', Window(w.head + steps, w.kept + steps, w.served))
  {
    d' := d;
    for i := 0 to steps
      invariant Represents(c, first, d', Window(w.head + i, w.kept + i, w.served))
    {
      ghost var now := Window(w.head + i, w.kept + i, w.served);
      ForwardOnChain(c, first, d'.head);
      var (head, _, material) := RatchetForward(c, d'.head).value;
      PushServed(c, first, d', now, Some(material), w.served, head);
      d' := DecryptionRatchet([Some(material)] + d'.past, head);
    }
  }

  function Truncate<T>(s: seq<T>, n: nat): (t: seq<T>) {
    if |s| <= n then s else s[..n]
  }

  lemma TruncateKeeps(c: Suite, first: Secret, d: DecryptionRatchet, w: Window, n: nat)
    requires Represents(c, first, d, w)
    ensures Represents(c, first, DecryptionRatchet(Truncate(d.past, n), d.head),
            w.(kept := if w.kept < n then w.kept else n))
  {
  }

  lemma TakeOne(c: Suite, first: Secret, d: DecryptionRatchet, w: Window, i: nat)
    requires Represents(c, first, d, w) && i < w.kept
    ensures Represents(c, first, DecryptionRatchet(d.past[i := None], d.head),
            w.(served := w.served + {w.head - 1 - i}))
  {
  }

  /** The branch at or past the head: skip, hand out the head's key, keep its empty place, and truncate. */
  method TakeForward(c: Suite, d: DecryptionRatchet, g: Generation, tolerance: nat, ghost first: Secret,
      ghost w: Window)
    returns (d': DecryptionRatchet, r: Result<Material>)
    requires Represents(c, first, d, w) && g >= w.head
    ensures g == MAX_GENERATION ==>
              r == Err(RatchetTooLong) && Represents(c, first, d', Window(g, w.kept + (g - w.head), w.served))
    ensures g < MAX_GENERATION ==>
              var kept := w.kept + (g + 1 - w.head);
              && r == Ok(KeyOf(c, first, g))
              && Represents(c, first, d', Window(g + 1, if kept < tolerance then kept else tolerance, w.served + {g}))
  {
    d' := SkipForward(c, d, g - d.head.generation, first, w);
    ghost var skipped := Window(g, w.kept + (g - w.head), w.served);
    var next := RatchetForward(c, d'.head);
    if next.Err? {
      return d', Err(next.error);
    }
    ForwardOnChain(c, first, d'.head);
    var (head, _, material) := next.value;
    PushServed(c, first, d', skipped, None, w.served + {g}, head);
    d' := DecryptionRatchet([None] + d'.past, head);
    TruncateKeeps(c, first, d', Window(g + 1, skipped.kept + 1, w.served + {g}), tolerance);
    d' := DecryptionRatchet(Truncate(d'.past, tolerance), head);
    r := Ok(material);
  }

  /** The branch behind the head: take the stored key out of the window. */
  method TakePast(b: Build, c: Suite, d: DecryptionRatchet, g: Generation, ghost first: Secret, ghost w: Window)
    returns (d': DecryptionRatchet, r: Result<Material>)
    requires Represents(c, first, d, w) && g < w.head
    ensures r == if w.head - g == 0x8000_0000 && b.Checked? then Err(ArithmeticPanic)
                 else if w.head - g > 0x8000_0000 then Err(TooDistantInThePast)
                 else if w.head - g > w.kept then Err(IndexOutOfBounds)
                 else if g in w.served then Err(SecretReuseError)
                 else Ok(KeyOf(c, first, g))
    ensures Represents(c, first, d', if r.Ok? then w.(served := w.served + {g}) else w)
  {
    d' := d;
    var index := WindowIndex(b, d.head.generation - g);
    if index == None { return d, Err(ArithmeticPanic); }
    if index.value < 0 { return d, Err(TooDistantInThePast); }
    if index.value >= |d.past| { return d, Err(IndexOutOfBounds); }
    if d.past[index.value] == None { return d, Err(SecretReuseError); }
    TakeOne(c, first, d, w, index.value);
    d' := DecryptionRatchet(d.past[index.value := None], d.head);
    r := Ok(d.past[index.value].value);
  }

  /** `secret_for_decryption`, against the window machine: same outcome, same key, same next state. */
  method SecretForDecryption(b: Build, c: Suite, d: DecryptionRatchet, g: Generation, cfg: Configuration,
      ghost first: Secret, ghost w: Window)
    returns (d': DecryptionRatchet, r: Result<Material>)
    requires Represents(c, first, d, w)
    ensures var (w', out) := Request(b, w, g, cfg);
            && Represents(c, first, d', w')
            && r == (if out.Ok? then Ok(KeyOf(c, first, g)) else Err(out.error))
  {
    var head := d.head.generation;
    if head < MAX_GENERATION - cfg.maximumForwardDistance && g > head + cfg.maximumForwardDistance {
      return d, Err(TooDistantInTheFuture);
    }
    if g < head && head - g > cfg.outOfOrderTolerance {
      return d, Err(TooDistantInThePast);
    }
    if g >= head {
      d', r := TakeForward(c, d, g, cfg.outOfOrderTolerance, first, w);
    } else {
      d', r := TakePast(b, c, d, g, first, w);
    }
  }

  // ---- Every run of a receiver ----

  datatype Ask = Ask(generation: Generation, configuration: Configuration)

  function RunWindow(b: Build, w: Window, asks: seq<Ask>): (r: (Window, seq<Result<nat>>))
    ensures |r.1| == |asks|
    decreases asks
  {
    if asks == [] then (w, [])
    else
      var (w', out) := Request(b, w, asks[0].generation, asks[0].configuration);
      var (end, outs) := RunWindow(b, w', asks[1..]);
      (end, [out] + outs)
  }

  /** Everything handed out lies behind the head, and everything kept exists. */
  ghost predicate Sound(w: Window) {
    w.kept <= w.head && forall g :: g in w.served ==> g < w.head
  }

  /** A request hands out the generation asked for, and only one not handed out before. */
  lemma RequestSound(b: Build, w: Window, g: Generation, cfg: Configuration)
    requires Sound(w)
    ensures var (w', out) := Request(b, w, g, cfg);
            && Sound(w') && w'.head >= w.head
            && (out.Ok? ==> out.value == g && g !in w.served && w'.served == w.served + {g})
            && (out.Err? ==> w'.served == w.served)
  {
  }

  /**
    On every run, under configurations that may change from call to call, no generation is handed
    out twice, and the generations handed out are exactly those marked served.
    */
  lemma {:induction false} AtMostOnce(b: Build, w: Window, asks: seq<Ask>)
    requires Sound(w)
    ensures var (end, outs) := RunWindow(b, w, asks);
            && Sound(end)
            && (forall i :: 0 <= i < |asks| && outs[i].Ok? ==>
                  outs[i].value == asks[i].generation && outs[i].value !in w.served)
            && (forall i, j :: 0 <= i < j < |asks| && outs[i].Ok? && outs[j].Ok? ==> outs[i].value != outs[j].value)
            && (forall g :: g in end.served <==> g in w.served || exists i :: 0 <= i < |asks| && outs[i] == Ok(g))
    decreases asks
  {
    if asks == [] {
    } else {
      var (w', out) := Request(b, w, asks[0].generation, asks[0].configuration);
      RequestSound(b, w, asks[0].generation, asks[0].configuration);
      AtMostOnce(b, w', asks[1..]);
      var (end, outs) := RunWindow(b, w', asks[1..]);
      var all := RunWindow(b, w, asks).1;
      assert all == [out] + outs;
      forall g ensures g in end.served <==> g in w.served || exists i :: 0 <= i < |asks| && all[i] == Ok(g) {
        ServedCons(out, outs, g);
      }
    }
  }

  lemma ServedCons(out: Result<nat>, outs: seq<Result<nat>>, g: nat)
    ensures (exists i :: 0 <= i < |[out] + outs| && ([out] + outs)[i] == Ok(g)) <==>
            out == Ok(g) || exists i :: 0 <= i < |outs| && outs[i] == Ok(g)
  {
    var all := [out] + outs;
    if out == Ok(g) {
      assert all[0] == Ok(g);
    }
    if i :| 0 <= i < |outs| && outs[i] == Ok(g) {
      assert all[i + 1] == Ok(g);
    }
  }

  /** With one configuration throughout, the window never falls short of the tolerance. */
  ghost predicate Covers(w: Window, cfg: Configuration) {
    w.kept >= w.head || w.kept >= cfg.outOfOrderTolerance
  }

  lemma {:induction false} RunCovers(b: Build, w: Window, asks: seq<Ask>, cfg: Configuration)
    requires Sound(w) && Covers(w, cfg)
    requires forall i :: 0 <= i < |asks| ==> asks[i].configuration == cfg
    ensures Covers(RunWindow(b, w, asks).0, cfg) && Sound(RunWindow(b, w, asks).0)
    decreases asks
  {
    if asks == [] {
    } else {
      RequestSound(b, w, asks[0].generation, cfg);
      RunCovers(b, Request(b, w, asks[0].generation, cfg).0, asks[1..], cfg);
    }
  }

  /** The head is one past the highest generation handed out, unless the generations have run out. */
  ghost predicate HeadIsNext(w: Window) {
    w.head == MAX_GENERATION || (w.head == 0 && w.served == {}) || (w.head > 0 && w.head - 1 in w.served)
  }

  /** Keys further back than the tolerance are gone. */
  ghost predicate Bounded(w: Window, cfg: Configuration) {
    w.head == MAX_GENERATION || w.kept <= cfg.outOfOrderTolerance
  }

  /**
    On every run under one configuration the head follows the highest generation and the window
    stays within the tolerance.
    */
  lemma {:induction false} RunHead(b: Build, w: Window, asks: seq<Ask>, cfg: Configuration)
    requires HeadIsNext(w) && Bounded(w, cfg)
    requires forall i :: 0 <= i < |asks| ==> asks[i].configuration == cfg
    ensures HeadIsNext(RunWindow(b, w, asks).0) && Bounded(RunWindow(b, w, asks).0, cfg)
    decreases asks
  {
    if asks == [] {
    } else {
      RunHead(b, Request(b, w, asks[0].generation, cfg).0, asks[1..], cfg);
    }
  }

  /** Not handed out yet, not the last number there is, near enough ahead, and near enough behind. */
  predicate Acceptable(w: Window, g: Generation, cfg: Configuration) {
    && g !in w.served
    && g < MAX_GENERATION
    && (g <= w.head + cfg.maximumForwardDistance || w.head >= MAX_GENERATION - cfg.maximumForwardDistance)
    && w.head - g <= cfg.outOfOrderTolerance
  }

  /**
    After every run under one configuration, a generation is handed out if and only if it is
    acceptable and its distance behind the head fits the signed index.
    */
  lemma {:induction false} HandedOutIff(b: Build, asks: seq<Ask>, g: Generation, cfg: Configuration)
    requires forall i :: 0 <= i < |asks| ==> asks[i].configuration == cfg
    ensures var w := RunWindow(b, FRESH, asks).0;
            Request(b, w, g, cfg).1.Ok? <==>
            Acceptable(w, g, cfg) && (w.head - g < 0x8000_0000 || (w.head - g == 0x8000_0000 && b.Wrapping?))
  {
    RunCovers(b, FRESH, asks, cfg);
  }

  /** A late generation within the tolerance, never handed out, and still refused: the distance no longer fits. */
  lemma FarTolerance(b: Build)
    ensures var cfg := Configuration(MAX_GENERATION, MAX_GENERATION);
            var w := RunWindow(b, FRESH, [Ask(0x8000_0000, cfg)]).0;
            Acceptable(w, 0, cfg) && Request(b, w, 0, cfg).1 == Err(TooDistantInThePast)
  {
    var cfg := Configuration(MAX_GENERATION, MAX_GENERATION);
    var asks := [Ask(0x8000_0000, cfg)];
    assert RunWindow(b, FRESH, asks).0 == Request(b, FRESH, 0x8000_0000, cfg).0 by {
      assert asks[1..] == [];
    }
  }

  // ---- Both sides ----

  /** What the sender hands out on its next `n` calls. */
  function Sends(c: Suite, r: RatchetSecret, n: nat): (out: seq<(Generation, Material)>)
    decreases n
  {
    if n == 0 || RatchetForward(c, r).Err? then []
    else var (next, g, m) := RatchetForward(c, r).value; [(g, m)] + Sends(c, next, n - 1)
  }

  /** The sender's keys are the chain's, in order, none skipped and none repeated, until the generations run out. */
  lemma {:induction false} SendsChain(c: Suite, first: Secret, r: RatchetSecret, n: nat)
    requires OnChain(c, first, r)
    ensures var out := Sends(c, r, n);
            && |out| == (if r.generation + n <= MAX_GENERATION then n else MAX_GENERATION - r.generation)
            && forall i :: 0 <= i < |out| ==> out[i] == (r.generation + i, KeyOf(c, first, r.generation + i))
    decreases n
  {
    if n == 0 || r.generation >= MAX_GENERATION {
    } else {
      ForwardOnChain(c, first, r);
      SendsChain(c, first, RatchetForward(c, r).value.0, n - 1);
    }
  }
}

/**
  The secret tree: one secret at the root determines a secret for every node and two ratchets for
  every leaf. Secrets are derived only when a leaf is first used, and a parent's is deleted once
  its children's are known, so nothing that stays can give back what was deleted.
  */
module SecretTree {
  import opened Bytes
  import opened SenderRatchet
  import opened TreeMath
  import D = DualUseRatchet

  datatype SecretType = HandshakeSecret | ApplicationSecret

  // ---- What the secrets are, derived eagerly ----

  function LeftSecret(c: Suite, s: Secret): (r: Secret) {
    c.expand(s, "tree", Ascii("left"), c.hashLength)
  }

  function RightSecret(c: Suite, s: Secret): (r: Secret) {
    c.expand(s, "tree", Ascii("right"), c.hashLength)
  }

  /** The secret of node `p` of level `k` in the tree of depth `d`. */
  function NodeSecret(c: Suite, root: Secret, d: nat, k: nat, p: nat): (s: Secret)
    requires k <= d
    decreases d - k
  {
    if k == d then root
    else
      var above := NodeSecret(c, root, d, k + 1, p / 2);
      if p % 2 == 0 then LeftSecret(c, above) else RightSecret(c, above)
  }

  function RatchetRoot(c: Suite, leafSecret: Secret, t: SecretType): (s: Secret) {
    c.expand(leafSecret, if t.HandshakeSecret? then "handshake" else "application", [], c.hashLength)
  }

  /** The first secret of a leaf's ratchet. */
  function LeafSecret(c: Suite, root: Secret, d: nat, leaf: nat, t: SecretType): (s: Secret) {
    RatchetRoot(c, NodeSecret(c, root, d, 0, leaf), t)
  }

  // ---- The stored secrets, as a set of nodes ----

  type Nodes = map<(nat, nat), Secret>

  ghost predicate InTree(d: nat, k: nat, p: nat) {
    k <= d && p < Pow2(d - k)
  }

  /** A secret is stored for the node of level `k` above the leaf. */
  ghost predicate OnPath(m: Nodes, leaf: nat, k: nat) {
    (k, Shr(leaf, k)) in m
  }

  ghost predicate Reached(m: Nodes, leaf: nat) {
    exists k: nat :: OnPath(m, leaf, k)
  }

  /**
    Stored secrets are the right ones; no leaf has two of them above it; and a leaf has none
    exactly when it is `done`.
    */
  ghost predicate Frontier(c: Suite, root: Secret, d: nat, m: Nodes, done: set<nat>) {
    && (forall n :: n in m ==> InTree(d, n.0, n.1) && m[n] == NodeSecret(c, root, d, n.0, n.1))
    && (forall leaf: nat, j: nat, k: nat :: j < k && OnPath(m, leaf, j) ==> !OnPath(m, leaf, k))
    && (forall leaf: nat, k: nat :: leaf in done ==> !OnPath(m, leaf, k))
    && (forall leaf: nat :: leaf < Pow2(d) && leaf !in done ==> Reached(m, leaf))
  }

  lemma StartFrontier(c: Suite, root: Secret, d: nat)
    ensures Frontier(c, root, d, map[(d, 0) := root], {})
  {
    var m: Nodes := map[(d, 0) := root];
    forall leaf: nat | leaf < Pow2(d) ensures Reached(m, leaf) {
      ShrBound(leaf, d, d);
      assert OnPath(m, leaf, d);
    }
  }

  /** `derive_down` on the stored nodes. */
  function Derived(c: Suite, m: Nodes, k: nat, p: nat): (m': Nodes)
    requires (k + 1, p) in m
  {
    m[(k, 2 * p) := LeftSecret(c, m[(k + 1, p)])][(k, 2 * p + 1) := RightSecret(c, m[(k + 1, p)])] - {(k + 1, p)}
  }

  lemma DerivedOnPath(c: Suite, m: Nodes, k: nat, p: nat, leaf: nat, j: nat)
    requires (k + 1, p) in m
    requires forall i: nat :: i != k + 1 && OnPath(m, leaf, i) ==> !OnPath(m, leaf, k + 1)
    ensures OnPath(Derived(c, m, k, p), leaf, j) <==> if Shr(leaf, k + 1) == p then j == k else OnPath(m, leaf, j)
  {
    assert Shr(leaf, k + 1) == Shr(leaf, k) / 2;
    if Shr(leaf, k + 1) == p {
      assert OnPath(m, leaf, k + 1);
      assert j != k + 1 ==> !OnPath(m, leaf, j);
    }
  }

  lemma DeriveKeeps(c: Suite, root: Secret, d: nat, m: Nodes, done: set<nat>, k: nat, p: nat)
    requires Frontier(c, root, d, m, done) && (k + 1, p) in m
    ensures Frontier(c, root, d, Derived(c, m, k, p), done)
  {
    var m' := Derived(c, m, k, p);
    assert InTree(d, k + 1, p) && Pow2(d - k) == 2 * Pow2(d - k - 1);
    forall leaf: nat, j: nat
      ensures OnPath(m', leaf, j) <==> if Shr(leaf, k + 1) == p then j == k else OnPath(m, leaf, j)
    {
      DerivedOnPath(c, m, k, p, leaf, j);
    }
    forall leaf: nat | leaf < Pow2(d) && leaf !in done ensures Reached(m', leaf) {
      if Shr(leaf, k + 1) == p {
        assert OnPath(m', leaf, k);
      } else {
        assert Reached(m, leaf);
        var j: nat :| OnPath(m, leaf, j);
        assert OnPath(m', leaf, j);
      }
    }
    forall leaf: nat | leaf in done ensures Shr(leaf, k + 1) != p {
      assert !OnPath(m, leaf, k + 1);
    }
  }

  /** Taking a leaf's secret out leaves nothing stored above it. */
  lemma TakeLeaf(c: Suite, root: Secret, d: nat, m: Nodes, done: set<nat>, leaf: nat)
    requires Frontier(c, root, d, m, done) && (0, leaf) in m
    ensures Frontier(c, root, d, m - {(0, leaf)}, done + {leaf})
  {
    var m' := m - {(0, leaf)};
    assert OnPath(m, leaf, 0);
    forall l: nat, j: nat ensures OnPath(m', l, j) <==> l != leaf && OnPath(m, l, j) {
      assert Shr(l, 0) == l;
      if l == leaf && j > 0 {
        assert !OnPath(m, l, j);
      }
    }
    forall l: nat | l < Pow2(d) && l !in done + {leaf} ensures Reached(m', l) {
      assert Reached(m, l);
      var k: nat :| OnPath(m, l, k);
      assert OnPath(m', l, k);
    }
  }

  // ---- The two vectors that hold them ----

  function Cell(leaves: seq<Option<Secret>>, parents: seq<Option<Secret>>, t: TreeNodeIndex): (cell: Option<Secret>) {
    if t.Leaf? then (if t.index < |leaves| then leaves[t.index] else None)
    else if t.index < |parents| then parents[t.index] else None
  }

  ghost function Lookup(m: Nodes, k: nat, p: nat): (s: Option<Secret>) {
    if (k, p) in m then Some(m[(k, p)]) else None
  }

  function SlotOf(k: nat, p: nat): (t: TreeNodeIndex) {
    if k == 0 then Leaf(p) else Parent(Node(k - 1, p))
  }

  ghost predicate Shows(leaves: seq<Option<Secret>>, parents: seq<Option<Secret>>, d: nat, m: Nodes) {
    && |leaves| == |parents| == Pow2(d)
    && forall k: nat, p: nat :: InTree(d, k, p) ==> Cell(leaves, parents, SlotOf(k, p)) == Lookup(m, k, p)
  }

  lemma SlotIs(k: nat, p: nat)
    ensures SlotOf(k, p) == At(k, p)
  {
    if k == 0 {
      AtIndex(0, p);
    } else {
      ParentNode(k - 1, p);
    }
  }

  lemma SlotBound(d: nat, k: nat, p: nat)
    requires InTree(d, k, p)
    ensures SlotOf(k, p).index < Pow2(d)
  {
    if k > 0 {
      var j, e := k - 1, d - 1;
      assert e - j == d - k && e + 1 == d;
      NodeInTree(j, p, e);
    }
  }

  lemma SlotInjective(k: nat, p: nat, k': nat, p': nat)
    requires SlotOf(k, p) == SlotOf(k', p')
    ensures k == k' && p == p'
  {
    if k > 0 {
      NodeIndex(k - 1, p);
      NodeIndex(k' - 1, p');
    }
  }

  function SetLeaf(leaves: seq<Option<Secret>>, t: TreeNodeIndex, v: Option<Secret>): (r: seq<Option<Secret>>)
    requires t.Leaf? ==> t.index < |leaves|
  {
    if t.Leaf? then leaves[t.index := v] else leaves
  }

  function SetParent(parents: seq<Option<Secret>>, t: TreeNodeIndex, v: Option<Secret>): (r: seq<Option<Secret>>)
    requires t.Parent? ==> t.index < |parents|
  {
    if t.Parent? then parents[t.index := v] else parents
  }

  ghost function Put(m: Nodes, k: nat, p: nat, v: Option<Secret>): (m': Nodes) {
    if v.Some? then m[(k, p) := v.value] else m - {(k, p)}
  }

  lemma SetShows(leaves: seq<Option<Secret>>, parents: seq<Option<Secret>>, d: nat, m: Nodes, k: nat, p: nat,
      v: Option<Secret>)
    requires Shows(leaves, parents, d, m) && InTree(d, k, p)
    ensures SlotOf(k, p).index < Pow2(d)
    ensures Shows(SetLeaf(leaves, SlotOf(k, p), v), SetParent(parents, SlotOf(k, p), v), d, Put(m, k, p, v))
  {
    SlotBound(d, k, p);
    var t := SlotOf(k, p);
    var leaves', parents' := SetLeaf(leaves, t, v), SetParent(parents, t, v);
    forall j: nat, q: nat | InTree(d, j, q)
      ensures Cell(leaves', parents', SlotOf(j, q)) == Lookup(Put(m, k, p, v), j, q)
    {
      SlotBound(d, j, q);
      if SlotOf(j, q) == t {
        SlotInjective(j, q, k, p);
      } else {
        assert Cell(leaves', parents', SlotOf(j, q)) == Cell(leaves, parents, SlotOf(j, q));
      }
    }
  }

  // ---- The ratchets ----

  /** Whose ratchet it is: another member's, the own one, or the own one of a virtual client. */
  datatype Role = Receiver | Sender | Shared

  function RoleOf(own: nat, virtualClients: bool, leaf: nat): (role: Role) {
    if leaf != own then Receiver else if virtualClients then Shared else Sender
  }

  datatype Ratchet =
    | Sending(secret: RatchetSecret)
    | Receiving(ratchet: DecryptionRatchet)
    | Both(dual: D.DualUse)

  type Slots = seq<Option<Ratchet>>

  /** How far a ratchet has come. A sender's is the head of its window; a shared one's has its own record. */
  datatype Progress = Progress(window: Window, dual: D.Dual)

  const BEGINNING := Progress(FRESH, D.UNUSED)

  ghost predicate InState(c: Suite, first: Secret, role: Role, r: Ratchet, p: Progress) {
    match role
    case Receiver => r.Receiving? && Represents(c, first, r.ratchet, p.window)
    case Sender => r.Sending? && OnChain(c, first, r.secret) && r.secret.generation == p.window.head
    case Shared => r.Both? && D.Follows(c, first, r.dual, p.dual)
  }

  function NewRatchetFor(role: Role, first: Secret): (r: Ratchet)
    ensures forall c :: InState(c, first, role, r, BEGINNING)
  {
    match role
    case Receiver => Receiving(NewRatchet(first))
    case Sender => Sending(RatchetSecret(first, 0))
    case Shared => Both(D.NewDualUse(first))
  }

  // ---- What a ratchet hands out ----

  function DecryptStep(b: Build, role: Role, p: Progress, g: Generation, cfg: Configuration)
    : (r: (Progress, Result<nat>))
  {
    match role
    case Receiver => var (w, out) := Request(b, p.window, g, cfg); (p.(window := w), out)
    case Sender => (p, Err(RatchetTypeError))
    case Shared => var (d, out) := D.ReceiveStep(p.dual, g, cfg); (p.(dual := d), out)
  }

  function EncryptStep(role: Role, p: Progress): (r: (Progress, Result<nat>)) {
    match role
    case Receiver => (p, Err(RatchetTypeError))
    case Sender =>
      var w := p.window;
      if w.head == MAX_GENERATION then (p, Err(RatchetTooLong)) else (p.(window := w.(head := w.head + 1)), Ok(w.head))
    case Shared => var (d, out) := D.SendStep(p.dual); (p.(dual := d), out)
  }

  function ConfirmStep(role: Role, p: Progress, g: Generation): (p': Progress) {
    if role.Shared? then p.(dual := D.ConfirmStep(p.dual, g)) else p
  }

  type Progresses = map<(nat, SecretType), Progress>

  ghost function ProgressOf(ps: Progresses, leaf: nat, t: SecretType): (p: Progress) {
    if (leaf, t) in ps then ps[(leaf, t)] else BEGINNING
  }

  /** Each leaf's ratchet, where there is one, is in its state; where there is none the state is the initial one. */
  ghost predicate InStates(c: Suite, root: Secret, d: nat, own: nat, virtual: bool, rs: Slots, t: SecretType,
                           ps: Progresses)
  {
    && |rs| == Pow2(d)
    && forall leaf :: 0 <= leaf < |rs| ==>
         var p := ProgressOf(ps, leaf, t);
         var first, role := LeafSecret(c, root, d, leaf, t), RoleOf(own, virtual, leaf);
         if rs[leaf].Some? then InState(c, first, role, rs[leaf].value, p) else p == BEGINNING
  }

  ghost function Initialized(rs: Slots): (leaves: set<nat>) {
    set leaf | 0 <= leaf < |rs| && rs[leaf].Some?
  }

  lemma SetRatchet(c: Suite, root: Secret, d: nat, own: nat, virtual: bool, rs: Slots, t: SecretType, ps: Progresses,
                   leaf: nat, r: Ratchet, p: Progress)
    requires InStates(c, root, d, own, virtual, rs, t, ps) && leaf < |rs|
    requires InState(c, LeafSecret(c, root, d, leaf, t), RoleOf(own, virtual, leaf), r, p)
    ensures InStates(c, root, d, own, virtual, rs[leaf := Some(r)], t, ps[(leaf, t) := p])
  {
    var rs', ps' := rs[leaf := Some(r)], ps[(leaf, t) := p];
    forall l: nat ensures ProgressOf(ps', l, t) == if l == leaf then p else ProgressOf(ps, l, t) {
    }
  }

  lemma OtherType(c: Suite, root: Secret, d: nat, own: nat, virtual: bool, rs: Slots, t: SecretType, ps: Progresses,
                  leaf: nat, u: SecretType, p: Progress)
    requires InStates(c, root, d, own, virtual, rs, t, ps) && u != t
    ensures InStates(c, root, d, own, virtual, rs, t, ps[(leaf, u) := p])
  {
    forall l: nat ensures ProgressOf(ps[(leaf, u) := p], l, t) == ProgressOf(ps, l, t) {
    }
  }

  lemma StartRatchet(c: Suite, root: Secret, d: nat, own: nat, virtual: bool, rs: Slots, t: SecretType, ps: Progresses,
                     leaf: nat, secret: Secret)
    requires InStates(c, root, d, own, virtual, rs, t, ps) && leaf < |rs| && rs[leaf] == None
    requires secret == NodeSecret(c, root, d, 0, leaf)
    ensures var rs' := rs[leaf := Some(NewRatchetFor(RoleOf(own, virtual, leaf), RatchetRoot(c, secret, t)))];
            InStates(c, root, d, own, virtual, rs', t, ps) && Initialized(rs') == Initialized(rs) + {leaf}
  {
    var role := RoleOf(own, virtual, leaf);
    var r := NewRatchetFor(role, RatchetRoot(c, secret, t));
    assert InState(c, LeafSecret(c, root, d, leaf, t), role, r, BEGINNING);
  }

  class SecretTree {
    const suite: Suite
    const size: nat
    const ownIndex: nat
    const virtualClients: bool
    var leafNodes: seq<Option<Secret>>
    var parentNodes: seq<Option<Secret>>
    var handshake: Slots
    var application: Slots
    ghost const root: Secret
    ghost const depth: nat
    ghost var nodes: Nodes
    ghost var progress: Progresses

    ghost predicate Valid()
      reads this
    {
      && size == Pow2(depth + 1) - 1
      && Shows(leafNodes, parentNodes, depth, nodes)
      && Frontier(suite, root, depth, nodes, Initialized(handshake))
      && Initialized(handshake) == Initialized(application)
      && InStates(suite, root, depth, ownIndex, virtualClients, handshake, HandshakeSecret, progress)
      && InStates(suite, root, depth, ownIndex, virtualClients, application, ApplicationSecret, progress)
    }

    constructor (suite: Suite, encryptionSecret: Secret, size: nat, ownIndex: nat, virtualClients: bool,
        ghost depth: nat)
      requires size == Pow2(depth + 1) - 1
      ensures Valid() && this.suite == suite && this.ownIndex == ownIndex && this.virtualClients == virtualClients
      ensures this.root == encryptionSecret && this.depth == depth && progress == map[]
    {
      this.suite, this.size, this.ownIndex, this.virtualClients := suite, size, ownIndex, virtualClients;
      this.root, this.depth := encryptionSecret, depth;
      var count := size / 2 + 1;
      var none: seq<Option<Secret>> := seq(count, _ => None);
      var t := Root(size);
      RootIs(depth);
      SlotIs(depth, 0);
      SlotBound(depth, depth, 0);
      assert Shows(none, none, depth, map[]);
      SetShows(none, none, depth, map[], depth, 0, Some(encryptionSecret));
      StartFrontier(suite, encryptionSecret, depth);
      leafNodes := SetLeaf(none, t, Some(encryptionSecret));
      parentNodes := SetParent(none, t, Some(encryptionSecret));
      handshake := seq(count, _ => None);
      application := seq(count, _ => None);
      nodes := map[(depth, 0) := encryptionSecret];
      progress := map[];
      new;
      assert Initialized(handshake) == {};
      assert Initialized(application) == {};
    }

    method GetNode(t: TreeNodeIndex) returns (r: Result<Option<Secret>>)
      ensures r == if t.index < (if t.Leaf? then |leafNodes| else |parentNodes|)
              then Ok(Cell(leafNodes, parentNodes, t))
                   else Err(IndexOutOfBounds)
    {
      if t.Leaf? {
        if t.index >= |leafNodes| { return Err(IndexOutOfBounds); }
        return Ok(leafNodes[t.index]);
      }
      if t.index >= |parentNodes| { return Err(IndexOutOfBounds); }
      return Ok(parentNodes[t.index]);
    }

    method SetNode(t: TreeNodeIndex, v: Option<Secret>, ghost k: nat, ghost p: nat) returns (r: Result<()>)
      requires Shows(leafNodes, parentNodes, depth, nodes) && InTree(depth, k, p) && t == At(k, p)
      modifies `leafNodes, `parentNodes, `nodes
      ensures r == Ok(()) && nodes == Put(old(nodes), k, p, v) && Shows(leafNodes, parentNodes, depth, nodes)
    {
      SlotIs(k, p);
      SetShows(leafNodes, parentNodes, depth, nodes, k, p, v);
      nodes := Put(nodes, k, p, v);
      if t.Leaf? {
        if t.index >= |leafNodes| { return Err(IndexOutOfBounds); }
        leafNodes := leafNodes[t.index := v];
      } else {
        if t.index >= |parentNodes| { return Err(IndexOutOfBounds); }
        parentNodes := parentNodes[t.index := v];
      }
      r := Ok(());
    }

    /** `derive_down` on a parent that has its secret: the children get theirs, the parent loses its own. */
    method DeriveDown(parent: nat, ghost k: nat, ghost p: nat) returns (r: Result<()>)
      requires Shows(leafNodes, parentNodes, depth, nodes) && InTree(depth, k + 1, p) && parent == Node(k, p)
      modifies `leafNodes, `parentNodes, `nodes
      ensures Shows(leafNodes, parentNodes, depth, nodes)
      ensures (k + 1, p) in old(nodes) ==> r == Ok(()) && nodes == Derived(suite, old(nodes), k, p)
      ensures (k + 1, p) !in old(nodes) ==> r == Err(LibraryError) && nodes == old(nodes)
    {
      ParentNode(k, p);
      SlotBound(depth, k + 1, p);
      assert Cell(leafNodes, parentNodes, SlotOf(k + 1, p)) == Lookup(nodes, k + 1, p);
      var node := GetNode(Parent(parent));
      var secret;
      match node {
        case Err(e) => return Err(e);
        case Ok(None) => return Err(LibraryError);
        case Ok(Some(s)) => secret := s;
      }
      Children(k, p, parent);
      r := HandDown(parent, Left(parent), Right(parent), secret, k, p);
    }

    /** The writes of `derive_down`: left child, right child, parent. */
    method HandDown(parent: nat, left: TreeNodeIndex, right: TreeNodeIndex, secret: Secret, ghost k: nat, ghost p: nat)
      returns (r: Result<()>)
      requires Shows(leafNodes, parentNodes, depth, nodes) && InTree(depth, k + 1, p)
      requires left == At(k, 2 * p) && right == At(k, 2 * p + 1) && Parent(parent) == At(k + 1, p)
      requires (k + 1, p) in nodes && nodes[(k + 1, p)] == secret
      modifies `leafNodes, `parentNodes, `nodes
      ensures Shows(leafNodes, parentNodes, depth, nodes)
      ensures r == Ok(()) && nodes == Derived(suite, old(nodes), k, p)
    {
      assert Pow2(depth - k) == 2 * Pow2(depth - k - 1);
      r := SetNode(left, Some(LeftSecret(suite, secret)), k, 2 * p);
      if r.Err? { return; }
      r := SetNode(right, Some(RightSecret(suite, secret)), k, 2 * p + 1);
      if r.Err? { return; }
      r := SetNode(Parent(parent), None, k + 1, p);
    }

    method PathNode(leaf: nat, parent: nat, ghost k: nat) returns (r: Result<Option<Secret>>)
      requires Valid() && leaf < Pow2(depth) && 1 <= k <= depth && parent == Node(k - 1, Shr(leaf, k))
      ensures r.Ok? && (r.value.Some? <==> OnPath(nodes, leaf, k))
    {
      ShrBound(leaf, k, depth);
      SlotBound(depth, k, Shr(leaf, k));
      assert Cell(leafNodes, parentNodes, SlotOf(k, Shr(leaf, k))) == Lookup(nodes, k, Shr(leaf, k));
      r := GetNode(Parent(parent));
    }

    /** The empty parents above a leaf, lowest first, and the first one that has a secret. */
    method EmptyParents(leaf: nat, ghost level: nat) returns (r: Result<seq<nat>>)
      requires Valid() && leaf < Pow2(depth) && OnPath(nodes, leaf, level) && level >= 1
      ensures r.Ok? && |r.value| == level
      ensures forall i :: 0 <= i < level ==> r.value[i] == Node(i, Shr(leaf, i + 1))
    {
      var path := DirectPath(leaf, size, depth);
      forall i | 0 <= i < |path| ensures path[i] == Node(i, Shr(leaf, i + 1)) {
        ParentNode(i, Shr(leaf, i + 1));
      }
      assert InTree(depth, level, Shr(leaf, level));
      var empty := [];
      for i := 0 to |path|
        invariant i < level && empty == path[..i]
      {
        empty := empty + [path[i]];
        assert OnPath(nodes, leaf, i + 1) <==> i + 1 == level;
        var node := PathNode(leaf, path[i], i + 1);
        match node {
          case Err(e) => return Err(e);
          case Ok(Some(_)) => return Ok(empty);
          case Ok(None) =>
        }
      }
      r := Ok(empty);
    }

    method DeriveStep(leaf: nat, parent: nat, ghost i: nat) returns (r: Result<()>)
      requires Valid() && OnPath(nodes, leaf, i + 1) && parent == Node(i, Shr(leaf, i + 1))
      modifies `leafNodes, `parentNodes, `nodes
      ensures r == Ok(()) && Valid() && OnPath(nodes, leaf, i)
    {
      ghost var p, before := Shr(leaf, i + 1), nodes;
      DeriveKeeps(suite, root, depth, nodes, Initialized(handshake), i, p);
      DerivedOnPath(suite, nodes, i, p, leaf, i);
      r := DeriveDown(parent, i, p);
    }

    /** Derive every secret on the way down to the leaf. */
    method DeriveLeaf(leaf: nat, ghost level: nat) returns (r: Result<()>)
      requires Valid() && leaf < Pow2(depth) && OnPath(nodes, leaf, level) && level >= 1
      modifies `leafNodes, `parentNodes, `nodes
      ensures r == Ok(()) && Valid() && OnPath(nodes, leaf, 0)
    {
      var empty := EmptyParents(leaf, level);
      var down;
      match empty {
        case Err(e) => return Err(e);
        case Ok(ps) => down := ps;
      }
      var i := |down|;
      while i > 0
        invariant 0 <= i <= |down|
        invariant Valid() && OnPath(nodes, leaf, i)
      {
        i := i - 1;
        r := DeriveStep(leaf, down[i], i);
        if r.Err? { return; }
      }
      r := Ok(());
    }

    ghost predicate SameRatchets(h: Slots, a: Slots, ps: Progresses)
      reads this
    {
      handshake == h && application == a && progress == ps
    }

    /** `initialize_sender_ratchets`: afterwards the leaf has its ratchets and no secret above it is stored. */
    method InitializeSenderRatchets(leaf: nat) returns (r: Result<()>)
      requires Valid()
      modifies this
      ensures Valid() && progress == old(progress)
      ensures leaf >= Pow2(depth) ==> r == Err(IndexOutOfBounds) && nodes == old(nodes)
      ensures leaf >= Pow2(depth) ==> SameRatchets(old(handshake), old(application), old(progress))
      ensures leaf < Pow2(depth) ==> r == Ok(()) && Initialized(handshake) == old(Initialized(handshake)) + {leaf}
      ensures leaf < Pow2(depth) ==> forall k: nat :: !OnPath(nodes, leaf, k)
    {
      if leaf >= size / 2 + 1 { return Err(IndexOutOfBounds); }
      if handshake[leaf] != None && application[leaf] != None {
        assert leaf in Initialized(handshake);
        return Ok(());
      }
      assert leaf !in Initialized(handshake) by {
        assert leaf in Initialized(handshake) <==> leaf in Initialized(application);
      }
      assert Reached(nodes, leaf);
      ghost var level: nat :| OnPath(nodes, leaf, level);
      assert InTree(depth, 0, leaf);
      assert Cell(leafNodes, parentNodes, SlotOf(0, leaf)) == Lookup(nodes, 0, leaf);
      var node := GetNode(Leaf(leaf));
      if node == Ok(None) {
        r := DeriveLeaf(leaf, level);
        if r.Err? { return; }
      }
      r := FillLeaf(leaf);
    }

    /** The last part: both ratchets start from the leaf's secret, which is then deleted. */
    method FillLeaf(leaf: nat) returns (r: Result<()>)
      requires Valid() && leaf < Pow2(depth) && OnPath(nodes, leaf, 0)
      modifies this
      ensures Valid() && progress == old(progress) && r == Ok(())
      ensures Initialized(handshake) == old(Initialized(handshake)) + {leaf}
    {
      assert InTree(depth, 0, leaf);
      assert Cell(leafNodes, parentNodes, SlotOf(0, leaf)) == Lookup(nodes, 0, leaf);
      var node := GetNode(Leaf(leaf));
      var secret;
      match node {
        case Err(e) => return Err(e);
        case Ok(None) => return Err(LibraryError);
        case Ok(Some(s)) => secret := s;
      }
      assert leaf !in Initialized(handshake) && leaf !in Initialized(application);
      TakeLeaf(suite, root, depth, nodes, Initialized(handshake), leaf);
      StartRatchet(suite, root, depth, ownIndex, virtualClients, handshake, HandshakeSecret, progress, leaf, secret);
      StartRatchet(suite, root, depth, ownIndex, virtualClients, application, ApplicationSecret, progress, leaf,
          secret);
      var role := RoleOf(ownIndex, virtualClients, leaf);
      handshake := handshake[leaf := Some(NewRatchetFor(role, RatchetRoot(suite, secret, HandshakeSecret)))];
      application := application[leaf := Some(NewRatchetFor(role, RatchetRoot(suite, secret, ApplicationSecret)))];
      AtIndex(0, leaf);
      r := SetNode(Leaf(leaf), None, 0, leaf);
    }

    function Ratchets(t: SecretType): (rs: Slots)
      reads this
    {
      if t.HandshakeSecret? then handshake else application
    }

    method SetRatchets(t: SecretType, leaf: nat, r: Ratchet, ghost p: Progress)
      requires Valid() && leaf < Pow2(depth) && leaf in Initialized(handshake)
      requires InState(suite, LeafSecret(suite, root, depth, leaf, t), RoleOf(ownIndex, virtualClients, leaf), r, p)
      modifies `handshake, `application, `progress
      ensures Valid() && progress == old(progress)[(leaf, t) := p]
              && Initialized(handshake) == old(Initialized(handshake))
    {
      assert leaf in Initialized(application);
      SetRatchet(suite, root, depth, ownIndex, virtualClients, Ratchets(t), t, progress, leaf, r, p);
      if t.HandshakeSecret? {
        OtherType(suite, root, depth, ownIndex, virtualClients, application, ApplicationSecret, progress, leaf, t, p);
        assert Initialized(handshake[leaf := Some(r)]) == Initialized(handshake);
        handshake := handshake[leaf := Some(r)];
      } else {
        OtherType(suite, root, depth, ownIndex, virtualClients, handshake, HandshakeSecret, progress, leaf, t, p);
        assert Initialized(application[leaf := Some(r)]) == Initialized(application);
        application := application[leaf := Some(r)];
      }
      progress := progress[(leaf, t) := p];
    }

    /** Find the leaf's ratchet, setting both up on first use. */
    method EnsureRatchet(leaf: nat, t: SecretType) returns (r: Result<Ratchet>)
      requires Valid()
      modifies this
      ensures Valid() && progress == old(progress)
      ensures leaf >= Pow2(depth) ==> r == Err(IndexOutOfBounds)
      ensures leaf < Pow2(depth) ==>
                && leaf in Initialized(handshake) && r.Ok?
                && InState(suite, LeafSecret(suite, root, depth, leaf, t), RoleOf(ownIndex, virtualClients, leaf),
                           r.value, ProgressOf(progress, leaf, t))
    {
      if leaf >= |Ratchets(t)| { return Err(IndexOutOfBounds); }
      assert leaf in Initialized(handshake) <==> leaf in Initialized(application);
      if Ratchets(t)[leaf] == None {
        var init := InitializeSenderRatchets(leaf);
        match init {
          case Err(e) => return Err(e);
          case Ok(_) =>
        }
      }
      assert leaf in Initialized(handshake) && leaf in Initialized(application);
      r := Ok(Ratchets(t)[leaf].value);
    }

    ghost function FirstSecret(leaf: nat, t: SecretType): (s: Secret) {
      LeafSecret(suite, root, depth, leaf, t)
    }

    /** Ask a ratchet, of whatever kind, for a generation. */
    static method Decrypt(b: Build, c: Suite, r: Ratchet, g: Generation, cfg: Configuration,
                          ghost first: Secret, ghost role: Role, ghost p: Progress)
      returns (r': Ratchet, out: Result<Material>)
      requires InState(c, first, role, r, p)
      ensures var (p', got) := DecryptStep(b, role, p, g, cfg);
              && InState(c, first, role, r', p')
              && out == if got.Ok? then Ok(KeyOf(c, first, g)) else Err(got.error)
    {
      match r {
        case Sending(_) => return r, Err(RatchetTypeError);
        case Receiving(d) =>
          var d';
          d', out := SecretForDecryption(b, c, d, g, cfg, first, p.window);
          r' := Receiving(d');
        case Both(d) =>
          var d';
          d', out := D.SecretForDecryption(c, d, g, cfg, first, p.dual);
          r' := Both(d');
      }
    }

    /** Ask a ratchet, of whatever kind, for its next key. */
    static method Encrypt(c: Suite, r: Ratchet, ghost first: Secret, ghost role: Role, ghost p: Progress)
      returns (r': Ratchet, out: Result<(Generation, Material)>)
      requires InState(c, first, role, r, p)
      ensures var (p', sent) := EncryptStep(role, p);
              && InState(c, first, role, r', p')
              && out == if sent.Ok? then Ok((sent.value, KeyOf(c, first, sent.value))) else Err(sent.error)
    {
      match r {
        case Receiving(_) => return r, Err(RatchetTypeError);
        case Sending(secret) =>
          if secret.generation < MAX_GENERATION {
            ForwardOnChain(c, first, secret);
          }
          var next := RatchetForward(c, secret);
          match next {
            case Err(e) => return r, Err(e);
            case Ok(forward) => return Sending(forward.0), Ok((forward.1, forward.2));
          }
        case Both(d) =>
          var d';
          d', out := D.SecretForEncryption(c, d, first, p.dual);
          r' := Both(d');
      }
    }

    /**
      `secret_for_decryption`: whatever leaves were used before and in whatever order, the key is
      the eagerly derived one, and refusals are those of the leaf's own ratchet.
      */
    method DecryptionSecret(b: Build, leaf: nat, t: SecretType, g: Generation, cfg: Configuration)
      returns (r: Result<Material>)
      requires Valid()
      modifies this
      ensures Valid()
      ensures leaf >= Pow2(depth) ==> r == Err(IndexOutOfBounds) && progress == old(progress)
      ensures leaf < Pow2(depth) ==>
                var (p, out) := DecryptStep(b, RoleOf(ownIndex, virtualClients, leaf),
                    ProgressOf(old(progress), leaf, t), g, cfg);
                && progress == old(progress)[(leaf, t) := p]
                && r == if out.Ok? then Ok(KeyOf(suite, FirstSecret(leaf, t), g)) else Err(out.error)
    {
      if leaf >= size / 2 + 1 { return Err(IndexOutOfBounds); }
      var found := EnsureRatchet(leaf, t);
      match found {
        case Err(e) => return Err(e);
        case Ok(ratchet) =>
          ghost var role, p := RoleOf(ownIndex, virtualClients, leaf), ProgressOf(progress, leaf, t);
          var ratchet';
          ratchet', r := Decrypt(b, suite, ratchet, g, cfg, FirstSecret(leaf, t), role, p);
          SetRatchets(t, leaf, ratchet', DecryptStep(b, role, p, g, cfg).0);
      }
    }

    /** `secret_for_encryption`: the own leaf's generations in order, each with its eagerly derived key. */
    method EncryptionSecret(leaf: nat, t: SecretType) returns (r: Result<(Generation, Material)>)
      requires Valid()
      modifies this
      ensures Valid()
      ensures leaf >= Pow2(depth) ==> r == Err(IndexOutOfBounds) && progress == old(progress)
      ensures leaf < Pow2(depth) ==>
                var (p, out) := EncryptStep(RoleOf(ownIndex, virtualClients, leaf), ProgressOf(old(progress), leaf, t));
                && progress == old(progress)[(leaf, t) := p]
                && r == if out.Ok? then Ok((out.value, KeyOf(suite, FirstSecret(leaf, t), out.value)))
                   else Err(out.error)
    {
      var found := EnsureRatchet(leaf, t);
      match found {
        case Err(e) => return Err(e);
        case Ok(ratchet) =>
          ghost var role, p := RoleOf(ownIndex, virtualClients, leaf), ProgressOf(progress, leaf, t);
          var ratchet';
          ratchet', r := Encrypt(suite, ratchet, FirstSecret(leaf, t), role, p);
          SetRatchets(t, leaf, ratchet', EncryptStep(role, p).0);
      }
    }

    /** `delete_own_secret_for_generation`; a ratchet that is not set up yet is an error. */
    method DeleteOwnSecret(t: SecretType, g: Generation) returns (r: Result<()>)
      requires Valid() && virtualClients
      modifies this
      ensures Valid()
      ensures ownIndex !in old(Initialized(handshake)) ==> r == Err(IndexOutOfBounds) && progress == old(progress)
      ensures ownIndex < Pow2(depth) && ownIndex !in old(Initialized(handshake)) ==>
              ProgressOf(progress, ownIndex, t) == BEGINNING
      ensures ownIndex in old(Initialized(handshake)) ==>
                r == Ok(()) && progress == old(progress)[(ownIndex, t) := ConfirmStep(Shared,
                    ProgressOf(old(progress), ownIndex, t), g)]
    {
      assert ownIndex in Initialized(handshake) <==> ownIndex in Initialized(application);
      if ownIndex >= |Ratchets(t)| || Ratchets(t)[ownIndex] == None { return Err(IndexOutOfBounds); }
      match Ratchets(t)[ownIndex].value {
        case Both(dual) =>
          ghost var p := ProgressOf(progress, ownIndex, t);
          var dual' := D.DeleteSecretForGeneration(suite, dual, g, FirstSecret(ownIndex, t), p.dual);
          SetRatchets(t, ownIndex, Both(dual'), ConfirmStep(Shared, p, g));
          r := Ok(());
        case _ => r := Err(RatchetTypeError);
      }
    }
  }

  /**
    Two members with the same root secret agree, whatever traffic either has seen: what one
    encrypts with is what the other decrypts with, if its window accepts the generation.
    */
  method Deliver(sender: SecretTree, receiver: SecretTree, t: SecretType, b: Build, cfg: Configuration)
    returns (sent: Result<(Generation, Material)>, received: Result<Material>)
    requires sender != receiver && sender.Valid() && receiver.Valid()
    requires sender.suite == receiver.suite && sender.root == receiver.root && sender.depth == receiver.depth
    requires sender.ownIndex < Pow2(sender.depth)
    modifies sender, receiver
    ensures sender.Valid() && receiver.Valid()
    ensures sent.Ok? ==>
              var g, leaf := sent.value.0, sender.ownIndex;
              var role := RoleOf(receiver.ownIndex, receiver.virtualClients, leaf);
              var out := DecryptStep(b, role, ProgressOf(old(receiver.progress), leaf, t), g, cfg).1;
              received == if out.Ok? then Ok(sent.value.1) else Err(out.error)
  {
    sent := sender.EncryptionSecret(sender.ownIndex, t);
    match sent {
      case Err(e) => received := Err(e);
      case Ok(s) => received := receiver.DecryptionSecret(b, sender.ownIndex, t, s.0, cfg);
    }
  }

  // ---- Every run of calls ----

  datatype Op =
    | Encrypt
    | Decrypt(generation: Generation, configuration: Configuration)
    | Confirm(generation: Generation)

  datatype Use = Use(leaf: nat, kind: SecretType, op: Op)

  /** One call on one ratchet, and the generation whose key it hands out, if any. */
  function OpStep(b: Build, role: Role, p: Progress, op: Op): (r: (Progress, Option<nat>)) {
    match op
    case Encrypt =>
      var (p', out) := EncryptStep(role, p);
      (p', if out.Ok? then Some(out.value) else None)
    case Decrypt(g, cfg) =>
      var (p', out) := DecryptStep(b, role, p, g, cfg);
      (p', if out.Ok? then Some(out.value) else None)
    case Confirm(g) => (ConfirmStep(role, p, g), None)
  }

  ghost predicate Fine(role: Role, p: Progress) {
    match role
    case Receiver => Sound(p.window)
    case Sender => true
    case Shared => D.Behind(p.dual)
  }

  /** Generations from here on have not been sent. */
  function Floor(role: Role, p: Progress): (g: nat) {
    if role.Shared? then p.dual.head else p.window.head
  }

  /** The generation will not be decrypted any more. */
  ghost predicate Barred(role: Role, p: Progress, g: nat) {
    match role
    case Receiver => g in p.window.served
    case Sender => true
    case Shared => D.Gone(p.dual, g)
  }

  /** What every call keeps, and what handing a key out uses up. */
  lemma OpKeeps(b: Build, role: Role, p: Progress, op: Op, h: nat)
    requires Fine(role, p)
    ensures var (p', out) := OpStep(b, role, p, op);
            && Fine(role, p') && Floor(role, p') >= Floor(role, p)
            && (Barred(role, p, h) ==> Barred(role, p', h))
            && (op.Encrypt? && out.Some? ==> out.value == Floor(role, p) < Floor(role, p'))
            && (op.Decrypt? && out.Some? ==>
                  && out.value == op.generation && out.value < Floor(role, p')
                  && !Barred(role, p, out.value) && Barred(role, p', out.value))
  {
    match role
    case Receiver =>
      if op.Decrypt? {
        RequestSound(b, p.window, op.generation, op.configuration);
      }
    case Sender =>
    case Shared =>
      match op {
        case Encrypt => D.StepMarks(p.dual, D.Send, h);
        case Decrypt(g, cfg) =>
          D.StepMarks(p.dual, D.Receive(g, cfg), h);
          D.ReceiveMarks(p.dual, g, cfg, g);
        case Confirm(g) => D.StepMarks(p.dual, D.Confirm(g), h);
      }
  }

  /** The tree the calls go to, as far as they depend on it. */
  datatype Setting = Setting(build: Build, own: nat, virtual: bool, leaves: nat)

  ghost function UseStep(c: Setting, ps: Progresses, u: Use): (r: (Progresses, Option<nat>)) {
    if u.leaf >= c.leaves then (ps, None)
    else
      var (p, out) := OpStep(c.build, RoleOf(c.own, c.virtual, u.leaf), ProgressOf(ps, u.leaf, u.kind), u.op);
      (ps[(u.leaf, u.kind) := p], out)
  }

  ghost function RunUses(c: Setting, ps: Progresses, uses: seq<Use>): (r: (Progresses, seq<Option<nat>>))
    ensures |r.1| == |uses|
    decreases uses
  {
    if uses == [] then (ps, [])
    else
      var (ps', out) := UseStep(c, ps, uses[0]);
      var (end, outs) := RunUses(c, ps', uses[1..]);
      (end, [out] + outs)
  }

  ghost predicate AllFine(c: Setting, ps: Progresses) {
    forall leaf: nat, t: SecretType :: Fine(RoleOf(c.own, c.virtual, leaf), ProgressOf(ps, leaf, t))
  }

  /** The key is still there to be handed out to this use. */
  ghost predicate Open(c: Setting, ps: Progresses, u: Use, g: nat) {
    var role, p := RoleOf(c.own, c.virtual, u.leaf), ProgressOf(ps, u.leaf, u.kind);
    if u.op.Encrypt? then g >= Floor(role, p) else !Barred(role, p, g)
  }

  /** Two calls of one kind on one ratchet. */
  predicate SameKind(u: Use, v: Use) {
    u.leaf == v.leaf && u.kind == v.kind && u.op.Encrypt? == v.op.Encrypt?
  }

  /** A key handed to the first call must not go to the second: calls of one kind, or a send after a receipt. */
  predicate Excludes(u: Use, v: Use) {
    u.leaf == v.leaf && u.kind == v.kind && (u.op.Encrypt? ==> v.op.Encrypt?)
  }

  lemma UseKeeps(c: Setting, ps: Progresses, u: Use, v: Use, h: nat)
    requires AllFine(c, ps)
    ensures var (ps', out) := UseStep(c, ps, u);
            && AllFine(c, ps')
            && (Open(c, ps', v, h) ==> Open(c, ps, v, h))
            && (out.Some? ==> Open(c, ps, u, out.value) && !u.op.Confirm?)
            && (out == Some(h) && Excludes(u, v) ==> !Open(c, ps', v, h))
  {
    var (ps', out) := UseStep(c, ps, u);
    if u.leaf < c.leaves {
      var role, p := RoleOf(c.own, c.virtual, u.leaf), ProgressOf(ps, u.leaf, u.kind);
      var p' := OpStep(c.build, role, p, u.op).0;
      OpKeeps(c.build, role, p, u.op, h);
      forall leaf: nat, t: SecretType
        ensures ProgressOf(ps', leaf, t) == if leaf == u.leaf && t == u.kind then p' else ProgressOf(ps, leaf, t)
      {
      }
    }
  }

  /** A key no longer open to a use is never handed out to one like it. */
  lemma {:induction false} StaysClosed(c: Setting, ps: Progresses, uses: seq<Use>, v: Use, h: nat)
    requires AllFine(c, ps) && !Open(c, ps, v, h)
    ensures forall i :: 0 <= i < |uses| && SameKind(uses[i], v) ==> RunUses(c, ps, uses).1[i] != Some(h)
    decreases uses
  {
    if uses == [] {
    } else {
      UseKeeps(c, ps, uses[0], v, h);
      StaysClosed(c, UseStep(c, ps, uses[0]).0, uses[1..], v, h);
    }
  }

  /**
    On every run of sends, receipts and confirmations over the whole tree, no key is handed out twice
    to the same purpose: for a leaf and type, no generation encrypts twice, none decrypts twice, and
    none encrypts after it has decrypted.
    */
  lemma {:induction false} KeysOnce(c: Setting, ps: Progresses, uses: seq<Use>)
    requires AllFine(c, ps)
    ensures var outs := RunUses(c, ps, uses).1;
            forall i, j :: 0 <= i < j < |uses| && Excludes(uses[i], uses[j]) && outs[i].Some? ==> outs[i] != outs[j]
    decreases uses
  {
    if uses == [] {
    } else {
      var u, rest := uses[0], uses[1..];
      var (ps', out) := UseStep(c, ps, u);
      var sends := u.(op := Encrypt);
      var h := if out.Some? then out.value else 0;
      UseKeeps(c, ps, u, u, h);
      UseKeeps(c, ps, u, sends, h);
      KeysOnce(c, ps', rest);
      if out.Some? {
        StaysClosed(c, ps', rest, u, h);
        StaysClosed(c, ps', rest, sends, h);
      }
    }
  }

  /** The eagerly derived key of the generation a use is handed. */
  ghost function KeyFor(c: Suite, root: Secret, d: nat, u: Use, out: Option<nat>): (key: Option<Material>) {
    if out.Some? then Some(KeyOf(c, LeafSecret(c, root, d, u.leaf, u.kind), out.value)) else None
  }

  /** Any sequence of calls on one tree hands out exactly what the run says, with the eagerly derived keys. */
  method Perform(tree: SecretTree, b: Build, uses: seq<Use>, ghost c: Setting, ghost ps: Progresses)
    returns (keys: seq<Option<Material>>)
    requires tree.Valid() && SameProgress(tree.progress, ps)
    requires c == Setting(b, tree.ownIndex, tree.virtualClients, Pow2(tree.depth))
    requires forall i :: 0 <= i < |uses| && uses[i].op.Confirm? ==> tree.virtualClients && uses[i].leaf == tree.ownIndex
    modifies tree
    ensures tree.Valid() && SameProgress(tree.progress, RunUses(c, ps, uses).0) && |keys| == |uses|
    ensures forall i :: 0 <= i < |uses| ==>
              keys[i] == KeyFor(tree.suite, tree.root, tree.depth, uses[i], RunUses(c, ps, uses).1[i])
    decreases uses
  {
    if uses == [] { return []; }
    var key := PerformOne(tree, b, uses[0], c, ps);
    var rest := Perform(tree, b, uses[1..], c, UseStep(c, ps, uses[0]).0);
    keys := [key] + rest;
  }

  ghost predicate SameProgress(ps: Progresses, ps': Progresses) {
    forall leaf: nat, t: SecretType :: ProgressOf(ps, leaf, t) == ProgressOf(ps', leaf, t)
  }

  lemma SetSame(ps: Progresses, ps': Progresses, leaf: nat, t: SecretType, p: Progress)
    requires SameProgress(ps, ps')
    ensures SameProgress(ps[(leaf, t) := p], ps'[(leaf, t) := p])
  {
    var qs, qs' := ps[(leaf, t) := p], ps'[(leaf, t) := p];
    forall l: nat, u: SecretType ensures ProgressOf(qs, l, u) == ProgressOf(qs', l, u) {
      assert ProgressOf(ps, l, u) == ProgressOf(ps', l, u);
    }
  }

  method PerformOne(tree: SecretTree, b: Build, u: Use, ghost c: Setting, ghost ps: Progresses)
    returns (key: Option<Material>)
    requires tree.Valid() && c == Setting(b, tree.ownIndex, tree.virtualClients, Pow2(tree.depth))
    requires u.op.Confirm? ==> tree.virtualClients && u.leaf == tree.ownIndex
    requires SameProgress(tree.progress, ps)
    modifies tree
    ensures tree.Valid() && SameProgress(tree.progress, UseStep(c, ps, u).0)
    ensures key == KeyFor(tree.suite, tree.root, tree.depth, u, UseStep(c, ps, u).1)
  {
    ghost var p := ProgressOf(tree.progress, u.leaf, u.kind);
    assert p == ProgressOf(ps, u.leaf, u.kind);
    SetSame(tree.progress, ps, u.leaf, u.kind, OpStep(b, RoleOf(c.own, c.virtual, u.leaf), p, u.op).0);
    if u.op.Confirm? {
      key := PerformConfirm(tree, u);
    } else {
      key := PerformKey(tree, b, u);
    }
  }

  method PerformKey(tree: SecretTree, b: Build, u: Use) returns (key: Option<Material>)
    requires tree.Valid() && !u.op.Confirm?
    modifies tree
    ensures tree.Valid()
    ensures u.leaf >= Pow2(tree.depth) ==> tree.progress == old(tree.progress) && key == None
    ensures u.leaf < Pow2(tree.depth) ==>
              var role := RoleOf(tree.ownIndex, tree.virtualClients, u.leaf);
              var (p, out) := OpStep(b, role, ProgressOf(old(tree.progress), u.leaf, u.kind), u.op);
              && tree.progress == old(tree.progress)[(u.leaf, u.kind) := p]
              && key == KeyFor(tree.suite, tree.root, tree.depth, u, out)
  {
    key := None;
    if u.op.Encrypt? {
      var r := tree.EncryptionSecret(u.leaf, u.kind);
      if r.Ok? { key := Some(r.value.1); }
    } else {
      var r := tree.DecryptionSecret(b, u.leaf, u.kind, u.op.generation, u.op.configuration);
      if r.Ok? { key := Some(r.value); }
    }
  }

  method PerformConfirm(tree: SecretTree, u: Use) returns (key: Option<Material>)
    requires tree.Valid() && u.op.Confirm? && tree.virtualClients && u.leaf == tree.ownIndex
    modifies tree
    ensures tree.Valid() && key == None
    ensures u.leaf >= Pow2(tree.depth) ==> tree.progress == old(tree.progress)
    ensures u.leaf < Pow2(tree.depth) ==>
              var p := ConfirmStep(Shared, ProgressOf(old(tree.progress), u.leaf, u.kind), u.op.generation);
              SameProgress(tree.progress, old(tree.progress)[(u.leaf, u.kind) := p])
  {
    ghost var p := ProgressOf(tree.progress, u.leaf, u.kind);
    var _ := tree.DeleteOwnSecret(u.kind, u.op.generation);
    key := None;
  }

  // ---- What stored secrets can give ----

  /** The secrets of node `p` of level `k` and of every node below it. */
  ghost predicate DeterminedBy(d: nat, k: nat, p: nat, j: nat, q: nat) {
    InTree(d, k, p) && j <= k && InTree(d, j, q) && Shr(q, k - j) == p
  }

  /**
    Deletion: once a leaf is in use, no stored secret is that of the leaf or of a node above it;
    before, exactly one is.
    */
  lemma UsedLeafUnreachable(c: Suite, root: Secret, d: nat, m: Nodes, done: set<nat>, leaf: nat)
    requires Frontier(c, root, d, m, done) && leaf < Pow2(d)
    ensures leaf in done <==> forall n :: n in m ==> !DeterminedBy(d, n.0, n.1, 0, leaf)
    ensures forall n, n' :: n in m && n' in m ==>
              (DeterminedBy(d, n.0, n.1, 0, leaf) && DeterminedBy(d, n'.0, n'.1, 0, leaf) ==> n == n')
  {
    forall n | n in m ensures DeterminedBy(d, n.0, n.1, 0, leaf) <==> n.1 == Shr(leaf, n.0) {
    }
    forall n | n in m && n.1 == Shr(leaf, n.0) ensures OnPath(m, leaf, n.0) {
      assert n == (n.0, Shr(leaf, n.0));
    }
    if leaf !in done {
      assert Reached(m, leaf);
      var k: nat :| OnPath(m, leaf, k);
      var n := (k, Shr(leaf, k));
      assert n in m && DeterminedBy(d, n.0, n.1, 0, leaf);
    }
  }
}

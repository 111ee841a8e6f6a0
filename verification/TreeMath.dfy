/**
  Index arithmetic of the left-balanced array tree: nodes are numbers, leaves the even ones, and
  children, parents and paths come from bit operations. Node `p` of level `k` sits above the
  2^k leaves whose number shifted right by `k` is `p`.
  */
module TreeMath {
  import opened Bytes

  function Pow2(k: nat): (n: nat)
    ensures n >= 1
  {
    if k == 0 then 1 else 2 * Pow2(k - 1)
  }

  // ---- Bit operations on numbers ----

  lemma Halves(n: nat, i: nat)
    requires i < 2
    ensures (2 * n + i) / 2 == n && (2 * n + i) % 2 == i
  {
  }

  function Shr(x: nat, k: nat): (y: nat) {
    if k == 0 then x else Shr(x, k - 1) / 2
  }

  function Shl(x: nat, k: nat): (y: nat)
    ensures x > 0 ==> y > 0
  {
    if k == 0 then x else 2 * Shl(x, k - 1)
  }

  function Xor(a: nat, b: nat): (r: nat)
    decreases a + b
  {
    if a == 0 && b == 0 then 0 else 2 * Xor(a / 2, b / 2) + (if a % 2 == b % 2 then 0 else 1)
  }

  function Or(a: nat, b: nat): (r: nat)
    decreases a + b
  {
    if a == 0 && b == 0 then 0 else 2 * Or(a / 2, b / 2) + (if a % 2 == 1 || b % 2 == 1 then 1 else 0)
  }

  lemma {:induction false} XorZero(a: nat)
    ensures Xor(a, 0) == a && Or(a, 0) == a
  {
    if a == 0 {
    } else {
      XorZero(a / 2);
    }
  }

  lemma {:induction false} ShrShr(x: nat, j: nat, k: nat)
    ensures Shr(Shr(x, j), k) == Shr(x, j + k)
  {
    if k == 0 {
    } else {
      ShrShr(x, j, k - 1);
    }
  }

  lemma {:induction false} ShrBound(x: nat, j: nat, d: nat)
    requires x < Pow2(d) && j <= d
    ensures Shr(x, j) < Pow2(d - j)
  {
    if j == 0 {
    } else {
      ShrBound(x, j - 1, d);
    }
  }

  lemma Halve(x: nat, y: nat, m: nat)
    requires y * m <= x < (y + 1) * m
    ensures y / 2 * (2 * m) <= x < (y / 2 + 1) * (2 * m)
  {
    var q := y / 2;
    assert q * (2 * m) == (2 * q) * m;
    assert (q + 1) * (2 * m) == (2 * q + 2) * m;
    assert (2 * q) * m <= y * m && (y + 1) * m <= (2 * q + 2) * m;
  }

  /** The numbers that shift to `p` are the `p`-th block of 2^k. */
  lemma {:induction false} ShrInterval(x: nat, k: nat)
    ensures Shr(x, k) * Pow2(k) <= x < (Shr(x, k) + 1) * Pow2(k)
  {
    if k == 0 {
    } else {
      ShrInterval(x, k - 1);
      Halve(x, Shr(x, k - 1), Pow2(k - 1));
    }
  }

  // ---- Nodes ----

  /** The array index of node `p` of level `k`: `p`, a zero bit, and `k` one bits. */
  function Node(k: nat, p: nat): (x: nat) {
    if k == 0 then 2 * p else 2 * Node(k - 1, p) + 1
  }

  /** The number of trailing one bits. */
  function Level(x: nat): (k: nat) {
    if x % 2 == 0 then 0 else 1 + Level(x / 2)
  }

  function Position(x: nat): (p: nat) {
    if x % 2 == 0 then x / 2 else Position(x / 2)
  }

  /** Every index is one node, and every node one index. */
  lemma {:induction false} NodeIndex(k: nat, p: nat)
    ensures Level(Node(k, p)) == k && Position(Node(k, p)) == p
  {
    if k == 0 {
      Halves(p, 0);
    } else {
      NodeIndex(k - 1, p);
      Halves(Node(k - 1, p), 1);
    }
  }

  lemma {:induction false} IndexNode(x: nat)
    ensures Node(Level(x), Position(x)) == x
  {
    if x % 2 == 0 {
    } else {
      IndexNode(x / 2);
    }
  }

  lemma {:induction false} LevelBits(x: nat, k: nat)
    requires k <= Level(x)
    ensures Level(Shr(x, k)) == Level(x) - k
    ensures x + 1 >= Pow2(k)
  {
    if k == 0 {
    } else {
      LevelBits(x, k - 1);
      LevelSize(x, k);
    }
  }

  lemma {:induction false} LevelSize(x: nat, k: nat)
    requires k <= Level(x)
    ensures x + 1 >= Pow2(k)
  {
    if k == 0 {
    } else {
      LevelSize(x / 2, k - 1);
    }
  }

  lemma Pow2Of32()
    ensures Pow2(32) == 0x1_0000_0000
  {
    assert Pow2(8) == 256;
    assert Pow2(16) == 65536 by {
      assert Pow2(12) == 4096;
    }
    assert Pow2(20) == 0x10_0000;
    assert Pow2(24) == 0x100_0000;
    assert Pow2(28) == 0x1000_0000;
  }

  /**
    `level` on 32-bit indices. On the one that is all ones the loop comes to a shift by the word size,
    which panics, or in a build without checks shifts by nothing and never ends; there is no result.
    */
  method LevelOf(x: nat) returns (level: Option<nat>)
    requires x <= 0xFFFF_FFFF
    ensures level == if x == 0xFFFF_FFFF then None else Some(Level(x))
    ensures level.Some? ==> level.value < 32
  {
    if x % 2 == 0 { return Some(0); }
    var k := 0;
    LevelWord(x);
    while k < 32 && Shr(x, k) % 2 == 1
      invariant 0 <= k <= Level(x) && k <= 32
      invariant Level(Shr(x, k)) == Level(x) - k
      decreases 32 - k
    {
      LevelBits(x, k + 1);
      k := k + 1;
    }
    level := if k == 32 then None else Some(k);
  }

  lemma LevelWord(x: nat)
    requires x <= 0xFFFF_FFFF
    ensures Level(x) >= 32 <==> x == 0xFFFF_FFFF
  {
    Pow2Of32();
    AllOnes(32);
    if Level(x) >= 32 {
      LevelSize(x, 32);
    }
  }

  lemma {:induction false} AllOnes(k: nat)
    ensures Level(Pow2(k) - 1) == k
  {
    if k == 0 {
    } else {
      AllOnes(k - 1);
      Halves(Pow2(k - 1) - 1, 1);
    }
  }

  // ---- Children, parent and sibling ----

  datatype TreeNodeIndex = Leaf(index: nat) | Parent(index: nat)

  function FromIndex(x: nat): (t: TreeNodeIndex) {
    if x % 2 == 0 then Leaf(x / 2) else Parent((x - 1) / 2)
  }

  function ToIndex(t: TreeNodeIndex): (x: nat)
    ensures FromIndex(x) == t
  {
    match t case Leaf(i) => i * 2 case Parent(i) => i * 2 + 1
  }

  function Left(parent: nat): (t: TreeNodeIndex) {
    var x := parent * 2 + 1;
    FromIndex(Xor(x, Shl(1, Level(x) - 1)))
  }

  function Right(parent: nat): (t: TreeNodeIndex) {
    var x := parent * 2 + 1;
    FromIndex(Xor(x, Shl(3, Level(x) - 1)))
  }

  function ParentOf(t: TreeNodeIndex): (parent: nat) {
    var x := ToIndex(t);
    var k := Level(x);
    var b := Shr(x, k + 1) % 2;
    var index := Xor(Or(x, Shl(1, k)), Shl(b, k + 1));
    if index == 0 then 0 else (index - 1) / 2
  }

  function OtherChild(x: nat, parent: nat): (s: TreeNodeIndex) {
    if x < parent * 2 + 1 then Right(parent) else Left(parent)
  }

  function Sibling(t: TreeNodeIndex): (s: TreeNodeIndex) {
    OtherChild(ToIndex(t), ParentOf(t))
  }

  /** Node `p` of level `k` as a tree node index. */
  function At(k: nat, p: nat): (t: TreeNodeIndex) {
    FromIndex(Node(k, p))
  }

  lemma AtIndex(k: nat, p: nat)
    ensures ToIndex(At(k, p)) == Node(k, p)
    ensures At(k, p).Leaf? <==> k == 0
    ensures k == 0 ==> At(k, p) == Leaf(p)
  {
  }

  /** Exclusive or, one lowest bit at a time. */
  lemma XorBits(x: nat, a: nat, i: nat, y: nat, b: nat, j: nat, r: nat)
    requires x == 2 * a + i && y == 2 * b + j && i < 2 && j < 2 && Xor(a, b) == r
    ensures Xor(x, y) == 2 * r + if i == j then 0 else 1
  {
    Halves(a, i);
    Halves(b, j);
  }

  lemma OrBits(x: nat, a: nat, i: nat, y: nat, b: nat, j: nat, r: nat)
    requires x == 2 * a + i && y == 2 * b + j && i < 2 && j < 2 && Or(a, b) == r
    ensures Or(x, y) == 2 * r + if i == 1 || j == 1 then 1 else 0
  {
    Halves(a, i);
    Halves(b, j);
  }

  lemma LeftOfOne(p: nat, x: nat, y: nat)
    requires x == 4 * p + 1 && y == 1
    ensures Xor(x, y) == 4 * p
  {
    XorZero(2 * p);
    XorBits(x, 2 * p, 1, y, 0, 1, 2 * p);
  }

  lemma RightOfOne(p: nat, x: nat, y: nat)
    requires x == 4 * p + 1 && y == 3
    ensures Xor(x, y) == 4 * p + 2
  {
    XorZero(p);
    XorBits(2 * p, p, 0, 1, 0, 1, p);
    XorBits(x, 2 * p, 1, y, 1, 1, 2 * p + 1);
  }

  lemma {:induction false} LeftBits(k: nat, p: nat, x: nat, y: nat)
    requires x == Node(k + 1, p) && y == Shl(1, k)
    ensures Xor(x, y) == Node(k, 2 * p)
  {
    if k == 0 {
      assert x == 2 * Node(0, p) + 1;
      LeftOfOne(p, x, y);
    } else {
      LeftBits(k - 1, p, Node(k, p), Shl(1, k - 1));
      XorBits(x, Node(k, p), 1, y, Shl(1, k - 1), 0, Node(k - 1, 2 * p));
    }
  }

  lemma {:induction false} RightBits(k: nat, p: nat, x: nat, y: nat)
    requires x == Node(k + 1, p) && y == Shl(3, k)
    ensures Xor(x, y) == Node(k, 2 * p + 1)
  {
    if k == 0 {
      assert x == 2 * Node(0, p) + 1;
      RightOfOne(p, x, y);
    } else {
      RightBits(k - 1, p, Node(k, p), Shl(3, k - 1));
      XorBits(x, Node(k, p), 1, y, Shl(3, k - 1), 0, Node(k - 1, 2 * p + 1));
    }
  }

  lemma {:induction false} ShrNode(k: nat, p: nat)
    ensures Shr(Node(k, p), k + 1) == p
  {
    ShrShr(Node(k, p), 1, k);
    assert Shr(Node(k, p), 1) == Shr(Node(k, p), 0) / 2;
    if k == 0 {
    } else {
      ShrNode(k - 1, p);
    }
  }

  lemma ParentOfLeaf(q: nat, b: nat, x: nat, y: nat, z: nat)
    requires b < 2 && x == 2 * (2 * q + b) && y == 1 && z == 2 * b
    ensures Xor(Or(x, y), z) == 4 * q + 1
  {
    var p := 2 * q + b;
    XorZero(p);
    OrBits(x, p, 0, y, 0, 1, p);
    XorZero(q);
    XorBits(p, q, b, b, 0, b, q);
    XorBits(2 * p + 1, p, 1, z, b, 0, 2 * q);
  }

  lemma {:induction false} ParentBits(k: nat, q: nat, b: nat, x: nat, y: nat, z: nat)
    requires b < 2 && x == Node(k, 2 * q + b) && y == Shl(1, k) && z == Shl(b, k + 1)
    ensures Xor(Or(x, y), z) == Node(k + 1, q)
  {
    if k == 0 {
      assert z == 2 * Shl(b, 0);
      ParentOfLeaf(q, b, x, y, z);
      assert Node(1, q) == 2 * Node(0, q) + 1;
    } else {
      var x', y', z' := Node(k - 1, 2 * q + b), Shl(1, k - 1), Shl(b, k);
      ParentBits(k - 1, q, b, x', y', z');
      OrBits(x, x', 1, y, y', 0, Or(x', y'));
      XorBits(Or(x, y), Or(x', y'), 1, z, z', 0, Node(k, q));
    }
  }

  lemma {:induction false} Between(k: nat, p: nat)
    ensures Node(k, 2 * p) < Node(k + 1, p) < Node(k, 2 * p + 1)
  {
    if k == 0 {
      assert Node(1, p) == 2 * Node(0, p) + 1;
    } else {
      Between(k - 1, p);
    }
  }

  lemma LeftFrom(parent: nat, x: nat, k: nat, y: nat)
    requires x == 2 * parent + 1 && Level(x) == k + 1 && Xor(x, Shl(1, k)) == y
    ensures Left(parent) == FromIndex(y)
  {
    assert parent * 2 + 1 == x;
  }

  lemma RightFrom(parent: nat, x: nat, k: nat, y: nat)
    requires x == 2 * parent + 1 && Level(x) == k + 1 && Xor(x, Shl(3, k)) == y
    ensures Right(parent) == FromIndex(y)
  {
    assert parent * 2 + 1 == x;
  }

  /** The children of node `p` of level `k + 1` are nodes `2p` and `2p + 1` of level `k`. */
  lemma Children(k: nat, p: nat, parent: nat)
    requires parent == Node(k, p)
    ensures Left(parent) == At(k, 2 * p) && Right(parent) == At(k, 2 * p + 1)
  {
    var x := Node(k + 1, p);
    NodeIndex(k + 1, p);
    assert Left(parent) == At(k, 2 * p) by {
      LeftBits(k, p, x, Shl(1, k));
      LeftFrom(parent, x, k, Node(k, 2 * p));
    }
    assert Right(parent) == At(k, 2 * p + 1) by {
      RightBits(k, p, x, Shl(3, k));
      RightFrom(parent, x, k, Node(k, 2 * p + 1));
    }
  }

  lemma ParentFrom(t: TreeNodeIndex, x: nat, k: nat, b: nat, h: nat)
    requires ToIndex(t) == x && Level(x) == k && Shr(x, k + 1) % 2 == b
    requires Xor(Or(x, Shl(1, k)), Shl(b, k + 1)) == 2 * h + 1
    ensures ParentOf(t) == h
  {
  }

  lemma BitOf(k: nat, q: nat, b: nat)
    requires b < 2
    ensures Shr(Node(k, 2 * q + b), k + 1) % 2 == b
  {
    ShrNode(k, 2 * q + b);
  }

  lemma ParentAt(k: nat, q: nat, b: nat, t: TreeNodeIndex, x: nat)
    requires b < 2 && x == Node(k, 2 * q + b) && ToIndex(t) == x
    ensures ParentOf(t) == Node(k, q)
  {
    NodeIndex(k, 2 * q + b);
    BitOf(k, q, b);
    ParentBits(k, q, b, x, Shl(1, k), Shl(b, k + 1));
    ParentFrom(t, x, k, b, Node(k, q));
  }

  lemma ParentNode(k: nat, q: nat)
    ensures At(k + 1, q) == Parent(Node(k, q))
  {
    Halves(Node(k, q), 1);
    Halves(Node(k, q), 0);
  }

  lemma ParentIndexIs(k: nat, p: nat)
    ensures ParentOf(At(k, p)) == Node(k, p / 2)
  {
    var q, b := p / 2, p % 2;
    assert p == 2 * q + b;
    AtIndex(k, p);
    ParentAt(k, q, b, At(k, p), Node(k, p));
  }

  /** The parent of node `p` of level `k` is node `p / 2` of level `k + 1`. */
  lemma ParentIs(k: nat, p: nat)
    ensures At(k + 1, p / 2) == Parent(ParentOf(At(k, p)))
  {
    ParentIndexIs(k, p);
    ParentNode(k, p / 2);
  }

  function Flip(p: nat): (q: nat) {
    if p % 2 == 0 then p + 1 else p - 1
  }

  lemma OtherChildIs(k: nat, q: nat, b: nat, parent: nat)
    requires b < 2 && parent == Node(k, q)
    ensures OtherChild(Node(k, 2 * q + b), parent) == At(k, 2 * q + 1 - b)
  {
    Children(k, q, parent);
    Between(k, q);
    var left, right := Node(k, 2 * q), Node(k, 2 * q + 1);
    if b == 0 {
      Pick(left, parent, At(k, 2 * q), At(k, 2 * q + 1));
    } else {
      Pick(right, parent, At(k, 2 * q), At(k, 2 * q + 1));
    }
  }

  lemma Pick(x: nat, parent: nat, left: TreeNodeIndex, right: TreeNodeIndex)
    requires Left(parent) == left && Right(parent) == right
    ensures OtherChild(x, parent) == if x < parent * 2 + 1 then right else left
  {
  }

  lemma SiblingFrom(t: TreeNodeIndex, x: nat, parent: nat, s: TreeNodeIndex)
    requires ToIndex(t) == x && ParentOf(t) == parent && OtherChild(x, parent) == s
    ensures Sibling(t) == s
  {
  }

  lemma SiblingAt(k: nat, q: nat, b: nat, t: TreeNodeIndex)
    requires b < 2 && t == At(k, 2 * q + b)
    ensures Sibling(t) == At(k, 2 * q + 1 - b)
  {
    var x := Node(k, 2 * q + b);
    AtIndex(k, 2 * q + b);
    ParentAt(k, q, b, t, x);
    OtherChildIs(k, q, b, Node(k, q));
    SiblingFrom(t, x, Node(k, q), At(k, 2 * q + 1 - b));
  }

  /** The sibling is the parent's other child. */
  lemma SiblingIs(k: nat, p: nat, t: TreeNodeIndex)
    requires t == At(k, p)
    ensures Sibling(t) == At(k, Flip(p))
  {
    var q, b := p / 2, p % 2;
    assert p == 2 * q + b && Flip(p) == 2 * q + 1 - b;
    SiblingAt(k, q, b, t);
  }

  // ---- Sizes ----

  /** The position of the highest one bit; zero for zero. */
  function Log2(n: nat): (k: nat) {
    if n <= 1 then 0 else 1 + Log2(n / 2)
  }

  lemma {:induction false} Log2Bounds(n: nat)
    requires n >= 1
    ensures Pow2(Log2(n)) <= n < Pow2(Log2(n) + 1)
  {
    if n == 1 {
    } else {
      Log2Bounds(n / 2);
    }
  }

  lemma {:induction false} Pow2Monotone(j: nat, k: nat)
    requires j <= k
    ensures Pow2(j) <= Pow2(k)
  {
    if j == k {
    } else {
      Pow2Monotone(j, k - 1);
    }
  }

  /** `TreeSize::new` on 32 bits: a shift by the word size panics, or shifts by nothing. */
  function NewSize(build: Build, nodes: nat): (size: Option<nat>) {
    var k := Log2(nodes) + 1;
    if k < 32 then Some(Shl(1, k) - 1)
    else if build.Checked? then None
    else Some(Shl(1, k % 32) - 1)
  }

  /** The number of nodes of the full tree of depth `d`. */
  function FullSize(d: nat): (size: nat) {
    Pow2(d + 1) - 1
  }

  /** The size of the least full tree that holds `nodes` nodes. */
  ghost predicate LeastFull(nodes: nat, size: nat) {
    && (exists d :: size == FullSize(d))
    && nodes <= size
    && forall d :: nodes <= FullSize(d) ==> size <= FullSize(d)
  }

  lemma IdealSize(nodes: nat)
    ensures LeastFull(nodes, FullSize(Log2(nodes)))
  {
    var k := Log2(nodes);
    if nodes == 0 {
      assert Pow2(1) == 2;
    } else {
      Log2Bounds(nodes);
    }
    assert nodes <= FullSize(k);
    forall d: nat | nodes <= FullSize(d) ensures FullSize(k) <= FullSize(d) {
      NoSmaller(nodes, k, d);
    }
  }

  lemma NoSmaller(nodes: nat, k: nat, d: nat)
    requires k == Log2(nodes) && nodes <= FullSize(d)
    ensures FullSize(k) <= FullSize(d)
  {
    if k > d {
      Log2Bounds(nodes);
      Pow2Monotone(d + 1, k);
    } else {
      Pow2Monotone(k + 1, d + 1);
    }
  }

  lemma Log2Word(nodes: nat)
    requires nodes <= 0xFFFF_FFFF
    ensures Log2(nodes) + 1 < 32 <==> nodes < 0x8000_0000
    ensures Log2(nodes) + 1 <= 32
  {
    Pow2Of32();
    assert Pow2(32) == 2 * Pow2(31);
    if nodes > 0 {
      Log2Bounds(nodes);
      if Log2(nodes) >= 31 {
        Pow2Monotone(31, Log2(nodes));
      } else {
        Pow2Monotone(Log2(nodes) + 1, 31);
      }
      if Log2(nodes) >= 32 {
        Pow2Monotone(32, Log2(nodes));
      }
    }
  }

  /** The size is that of the least full tree if and only if there are fewer than 2^31 nodes. */
  lemma SmallestTreeIff(build: Build, nodes: nat)
    requires nodes <= 0xFFFF_FFFF
    ensures var size := NewSize(build, nodes);
            size.Some? && LeastFull(nodes, size.value) <==> nodes < 0x8000_0000
  {
    Log2Word(nodes);
    if nodes < 0x8000_0000 {
      IdealSize(nodes);
      ShlOne(Log2(nodes) + 1);
    } else {
      assert Shl(1, 0) == 1;
    }
  }

  /** What fails: at 2^31 nodes the size is computed with a shift by the word size. */
  lemma HugeTree()
    ensures NewSize(Checked, 0x8000_0000) == None && NewSize(Wrapping, 0x8000_0000) == Some(0)
  {
    Log2Word(0x8000_0000);
    assert Shl(1, 0) == 1;
  }

  lemma {:induction false} Log2Full(d: nat)
    ensures Log2(Pow2(d + 1) - 1) == d
    ensures Node(d, 0) == Pow2(d) - 1
  {
    if d == 0 {
      assert Pow2(1) == 2;
    } else {
      Log2Full(d - 1);
      assert (Pow2(d + 1) - 1) / 2 == Pow2(d) - 1;
    }
  }

  function Root(size: nat): (t: TreeNodeIndex) {
    FromIndex(Pow2(Log2(size)) - 1)
  }

  /** The root of the tree with 2^d leaves is node 0 of level d. */
  lemma RootIs(d: nat)
    ensures Root(Pow2(d + 1) - 1) == At(d, 0)
  {
    Log2Full(d);
  }

  lemma {:induction false} ShlPow(x: nat, k: nat)
    ensures Shl(x, k) == x * Pow2(k)
  {
    if k == 0 {
    } else {
      ShlPow(x, k - 1);
      assert x * Pow2(k) == 2 * (x * Pow2(k - 1));
    }
  }

  lemma ShlOne(k: nat)
    ensures Shl(1, k) == Pow2(k) && Shl(3, k) == 3 * Pow2(k)
  {
    ShlPow(1, k);
    ShlPow(3, k);
  }

  /**
    In trees of up to 2^30 leaves, twice what the cap of 2^30 nodes admits, every index and every
    shift fits 32 bits.
    */
  lemma WordFits(d: nat, k: nat, p: nat)
    requires d <= 30 && k <= d && p < Pow2(d - k)
    ensures Node(k, p) < 0x7FFF_FFFF && Shl(1, k + 1) < 0x1_0000_0000
    ensures k > 0 ==> Shl(3, k - 1) < 0x1_0000_0000
  {
    NodeInTree(k, p, d);
    Pow2Monotone(d + 1, 31);
    Pow2Monotone(k + 1, 31);
    Pow2Of32();
    assert Pow2(32) == 2 * Pow2(31);
    ShlOne(k + 1);
    if k > 0 {
      ShlOne(k - 1);
      assert Pow2(k + 1) == 4 * Pow2(k - 1);
    }
  }

  // ---- Paths ----

  /** `direct_path`: the parents of every node above the leaf, up to the root. */
  method DirectPath(leaf: nat, size: nat, ghost d: nat) returns (path: seq<nat>)
    requires size == Pow2(d + 1) - 1 && leaf < Pow2(d)
    ensures |path| == d
    ensures forall i :: 0 <= i < d ==> Parent(path[i]) == At(i + 1, Shr(leaf, i + 1))
  {
    RootIs(d);
    AtIndex(d, 0);
    var r := ToIndex(Root(size));
    path := [];
    var x := leaf * 2;
    NodeIndex(d, 0);
    while x != r
      invariant |path| <= d && x == Node(|path|, Shr(leaf, |path|))
      invariant forall i :: 0 <= i < |path| ==> Parent(path[i]) == At(i + 1, Shr(leaf, i + 1))
      decreases d - |path|
    {
      var k := |path|;
      AtTop(leaf, k, d);
      ParentIs(k, Shr(leaf, k));
      AtIndex(k + 1, Shr(leaf, k + 1));
      var parent := ParentOf(FromIndex(x));
      path := path + [parent];
      x := parent * 2 + 1;
    }
    NodeIndex(|path|, Shr(leaf, |path|));
  }

  lemma AtTop(leaf: nat, k: nat, d: nat)
    requires leaf < Pow2(d) && k <= d
    ensures k == d ==> Node(k, Shr(leaf, k)) == Node(d, 0)
  {
    if k == d {
      ShrBound(leaf, d, d);
    }
  }

  /** `copath`: the siblings of the leaf and of the nodes above it, the root left out. */
  method Copath(leaf: nat, size: nat, ghost d: nat) returns (copath: seq<TreeNodeIndex>)
    requires size == Pow2(d + 1) - 1 && leaf < Pow2(d)
    ensures |copath| == if d == 0 then 1 else d
    ensures forall i :: 0 <= i < |copath| ==> copath[i] == At(i, Flip(Shr(leaf, i)))
  {
    var path := DirectPath(leaf, size, d);
    if path != [] {
      path := path[..|path| - 1];
    }
    var full := [Leaf(leaf)] + seq(|path|, i requires 0 <= i < |path| => Parent(path[i]));
    AtIndex(0, leaf);
    assert forall i :: 1 <= i < |full| ==> full[i] == At(i, Shr(leaf, i)) by {
      forall i | 1 <= i < |full| ensures full[i] == At(i, Shr(leaf, i)) {
        assert full[i] == Parent(path[i - 1]);
      }
    }
    copath := seq(|full|, i requires 0 <= i < |full| => Sibling(full[i]));
    forall i | 0 <= i < |copath| ensures copath[i] == At(i, Flip(Shr(leaf, i))) {
      assert full[i] == At(i, Shr(leaf, i));
      SiblingIs(i, Shr(leaf, i), full[i]);
    }
  }

  /** The leaf is one of the 2^k below node `p` of level `k`. */
  predicate Below(leaf: nat, k: nat, p: nat) {
    p * Pow2(k) <= leaf < (p + 1) * Pow2(k)
  }

  lemma BelowIff(leaf: nat, k: nat, p: nat)
    ensures Below(leaf, k, p) <==> Shr(leaf, k) == p
  {
    ShrInterval(leaf, k);
    if Below(leaf, k, p) {
      SameBlock(leaf, p, Shr(leaf, k), Pow2(k));
    }
  }

  lemma SameBlock(x: nat, p: nat, q: nat, m: nat)
    requires p * m <= x < (p + 1) * m && q * m <= x < (q + 1) * m
    ensures p == q
  {
    if p < q {
      NextBlock(p, q, m);
    } else if q < p {
      NextBlock(q, p, m);
    }
  }

  lemma NextBlock(p: nat, q: nat, m: nat)
    requires p < q
    ensures (p + 1) * m <= q * m
  {
    assert q * m == (p + 1) * m + (q - p - 1) * m;
  }

  /** Two leaves that meet at a level meet at every level above it. */
  lemma {:induction false} MeetAbove(a: nat, b: nat, j: nat, k: nat)
    requires j <= k && Shr(a, j) == Shr(b, j)
    ensures Shr(a, k) == Shr(b, k)
  {
    if j == k {
    } else {
      MeetAbove(a, b, j, k - 1);
    }
  }

  lemma {:induction false} MeetsFirst(a: nat, b: nat, d: nat) returns (k: nat)
    requires a != b && Shr(a, d) == Shr(b, d)
    ensures k < d && Shr(a, k) != Shr(b, k) && Shr(a, k + 1) == Shr(b, k + 1)
    decreases d
  {
    assert Shr(a, 0) == a && Shr(b, 0) == b;
    if Shr(a, d - 1) != Shr(b, d - 1) {
      k := d - 1;
    } else {
      k := MeetsFirst(a, b, d - 1);
    }
  }

  /**
    The copath splits the other leaves: in a tree of at least two leaves, every leaf other than
    `leaf` lies below exactly one node of the copath, and `leaf` below none.
    */
  lemma CopathPartition(leaf: nat, other: nat, d: nat)
    requires leaf < Pow2(d) && other < Pow2(d)
    ensures leaf != other ==> exists k :: 0 <= k < d && Below(other, k, Flip(Shr(leaf, k)))
    ensures forall j, k :: 0 <= j < k < d && Below(other, j, Flip(Shr(leaf, j))) ==>
            !Below(other, k, Flip(Shr(leaf, k)))
    ensures forall k :: 0 <= k < d ==> !Below(leaf, k, Flip(Shr(leaf, k)))
  {
    if leaf != other {
      ShrBound(leaf, d, d);
      ShrBound(other, d, d);
      var k := MeetsFirst(leaf, other, d);
      assert Shr(leaf, k + 1) == Shr(leaf, k) / 2 && Shr(other, k + 1) == Shr(other, k) / 2;
      BelowIff(other, k, Flip(Shr(leaf, k)));
    }
    forall j, k | 0 <= j < k < d && Below(other, j, Flip(Shr(leaf, j)))
      ensures !Below(other, k, Flip(Shr(leaf, k)))
    {
      BelowIff(other, j, Flip(Shr(leaf, j)));
      BelowIff(other, k, Flip(Shr(leaf, k)));
      assert Shr(leaf, j + 1) == Shr(leaf, j) / 2 && Shr(other, j + 1) == Shr(other, j) / 2;
      MeetAbove(leaf, other, j + 1, k);
    }
    forall k | 0 <= k < d ensures !Below(leaf, k, Flip(Shr(leaf, k))) {
      BelowIff(leaf, k, Flip(Shr(leaf, k)));
    }
  }

  /** In the tree of one leaf the copath names a node that is not in the tree; in every other tree it never does. */
  lemma CopathInTreeIff(leaf: nat, d: nat, i: nat)
    requires leaf < Pow2(d) && i < (if d == 0 then 1 else d)
    ensures Node(i, Flip(Shr(leaf, i))) < Pow2(d + 1) - 1 <==> d >= 1
  {
    var p := Shr(leaf, i);
    if d >= 1 {
      ShrBound(leaf, i, d);
      FlipInTree(p, d - i);
      NodeInTree(i, Flip(p), d);
    } else {
      assert Pow2(1) == 2 && p == leaf == 0;
    }
  }

  /** What fails: the sibling of the only leaf is not in the tree of one node. */
  lemma OneLeafCopath()
    ensures Sibling(At(0, 0)) == At(0, 1) && Node(0, 1) >= FullSize(0)
  {
    var t := At(0, 0);
    SiblingIs(0, 0, t);
    assert Pow2(1) == 2;
  }

  lemma FlipInTree(p: nat, k: nat)
    requires k >= 1 && p < Pow2(k)
    ensures Flip(p) < Pow2(k)
  {
    assert Pow2(k) == 2 * Pow2(k - 1);
  }

  lemma {:induction false} NodeInTree(k: nat, p: nat, d: nat)
    requires k <= d && p < Pow2(d - k)
    ensures Node(k, p) < Pow2(d + 1) - 1
  {
    if k == 0 {
    } else {
      NodeInTree(k - 1, p, d - 1);
    }
  }

  /** The levels where two leaves have the same node above them are those from `k` on. */
  ghost predicate MeetAt(a: nat, b: nat, k: nat) {
    forall j: nat :: Shr(a, j) == Shr(b, j) <==> j >= k
  }

  /** A shift of a 32-bit word, by an amount that is masked to five bits. */
  function WordShl(x: nat, k: nat): (y: nat)
    requires k < 64
  {
    Shl(x, if k < 32 then k else k - 32) % 0x1_0000_0000
  }

  /** One leaf lies below 2^30 and the other does not. */
  predicate Across(a: nat, b: nat) {
    a < 0x4000_0000 <==> b >= 0x4000_0000
  }

  /**
    `lowest_common_ancestor`. Two equal leaves take the early return, which is for parents: it fails
    its assertion, or without assertions yields the parent slot before the leaf's own, wrapping at zero.
    Two leaves across 2^30 shift by the word size, which panics, or without checks shifts a zero by
    nothing and still gives their ancestor, the root.
    */
  method LowestCommonAncestor(build: Build, a: nat, b: nat) returns (parent: Option<nat>)
    requires a < 0x8000_0000 && b < 0x8000_0000
    ensures build.Checked? ==> (parent.None? <==> a == b || Across(a, b))
    ensures build.Wrapping? ==> parent.Some?
    ensures a != b && parent.Some? ==> exists k: nat :: MeetAt(a, b, k) && Parent(parent.value) == At(k, Shr(a, k))
    ensures a == b && build.Wrapping? ==> parent == Some(if b == 0 then 0x7FFF_FFFF else b - 1)
    ensures Across(a, b) && build.Wrapping? ==> parent == Some(0x3FFF_FFFF) && Parent(0x3FFF_FFFF) == At(31, 0)
  {
    var x, y := a * 2, b * 2;
    assert Level(x) == 0 && Level(y) == 0;
    ShrDouble(a, 0);
    ShrDouble(b, 0);
    var lx, ly := Level(x) + 1, Level(y) + 1;
    if lx <= ly && Shr(x, ly) == Shr(y, ly) {
      if build.Checked? { return None; }
      return Some((if y == 0 then 0xFFFF_FFFF else y - 1) / 2);
    }
    var xn, n := Climb(a, b);
    AcrossIff(a, b, n);
    if n >= 32 && build.Checked? { return None; }
    MeetHere(a, b, n, xn);
    var common := AncestorAt(x, n, xn);
    parent := Some(common);
  }

  /** The index at which the climb ends. */
  method AncestorAt(ghost x: nat, n: nat, p: nat) returns (parent: nat)
    requires x <= 0xFFFF_FFFF && 2 <= n <= 32 && p == Shr(x, n)
    ensures Parent(parent) == At(n - 1, p) && (n == 32 ==> p == 0 && parent == 0x3FFF_FFFF)
  {
    var high, low := WordShl(p, n), WordShl(1, n - 1);
    WordFromShift(x, n, p);
    ParentShape(n - 1, p);
    parent := (high + low - 2) / 2;
  }

  /** The loop that shifts both indices until they meet, and counts. */
  method Climb(a: nat, b: nat) returns (xn: nat, n: nat)
    requires a != b && a < 0x8000_0000 && b < 0x8000_0000
    ensures 1 <= n <= 32 && Shr(2 * a, n) == Shr(2 * b, n) == xn && Shr(2 * a, n - 1) != Shr(2 * b, n - 1)
  {
    var x, y := a * 2, b * 2;
    var yn;
    xn, yn, n := x, y, 0;
    Pow2Of32();
    ShrBound(x, 32, 32);
    ShrBound(y, 32, 32);
    while xn != yn
      invariant xn == Shr(x, n) && yn == Shr(y, n)
      invariant n > 0 ==> Shr(x, n - 1) != Shr(y, n - 1)
      invariant n <= 32
      decreases 32 - n
    {
      xn, yn, n := xn / 2, yn / 2, n + 1;
    }
  }

  lemma ShrHigh(a: nat)
    requires a < 0x8000_0000
    ensures Shr(a, 30) == if a < 0x4000_0000 then 0 else 1
  {
    Pow2Of32();
    assert Pow2(32) == 4 * Pow2(30);
    ShrInterval(a, 30);
  }

  /** The climb takes all 32 shifts exactly between leaves across 2^30. */
  lemma AcrossIff(a: nat, b: nat, n: nat)
    requires a < 0x8000_0000 && b < 0x8000_0000 && 1 <= n <= 32
    requires Shr(2 * a, n) == Shr(2 * b, n) && Shr(2 * a, n - 1) != Shr(2 * b, n - 1)
    ensures n == 32 <==> Across(a, b)
  {
    ShrDouble(a, 30);
    ShrDouble(b, 30);
    ShrHigh(a);
    ShrHigh(b);
    if n < 32 {
      MeetAbove(2 * a, 2 * b, n, 31);
    }
  }

  lemma ShiftBack(x: nat, n: nat)
    ensures Shl(Shr(x, n), n) <= x
  {
    ShrInterval(x, n);
    ShlPow(Shr(x, n), n);
  }

  lemma InWord(y: nat)
    requires y < 0x1_0000_0000
    ensures y % 0x1_0000_0000 == y
  {
  }

  lemma WordSmall(x: nat, k: nat)
    requires k < 32 && Shl(x, k) < 0x1_0000_0000
    ensures WordShl(x, k) == Shl(x, k)
  {
    InWord(Shl(x, k));
  }

  lemma WordOne(k: nat)
    requires k < 32
    ensures WordShl(1, k) == Shl(1, k) && (k == 31 ==> Shl(1, k) == 0x8000_0000)
  {
    Pow2Of32();
    assert Pow2(32) == 2 * Pow2(31);
    Pow2Monotone(k, 31);
    ShlPow(1, k);
    WordSmall(1, k);
  }

  /** What fails: leaf 2^30 and leaf 0 meet only at the root of the tree of 2^31 leaves. */
  lemma AcrossRoot()
    ensures Across(0x4000_0000, 0) && MeetAt(0x4000_0000, 0, 31)
  {
    ShrDouble(0x4000_0000, 30);
    ShrDouble(0, 30);
    ShrHigh(0x4000_0000);
    ShrHigh(0);
    Pow2Of32();
    ShrBound(0x8000_0000, 32, 32);
    ShrBound(0, 32, 32);
    MeetHere(0x4000_0000, 0, 32, 0);
  }

  /** What was shifted out of a word shifts back into it. */
  lemma WordFromShift(x: nat, n: nat, p: nat)
    requires x <= 0xFFFF_FFFF && 1 <= n <= 32 && p == Shr(x, n)
    ensures WordShl(p, n) == Shl(p, n) && WordShl(1, n - 1) == Shl(1, n - 1)
    ensures n == 32 ==> p == 0 && Shl(p, n) == 0 && Shl(1, n - 1) == 0x8000_0000
  {
    WordOne(n - 1);
    if n < 32 {
      ShiftBack(x, n);
      WordSmall(p, n);
    } else {
      Pow2Of32();
      ShrBound(x, 32, 32);
      ShlPow(0, 32);
      ShlPow(0, 0);
    }
  }

  lemma MeetHere(a: nat, b: nat, n: nat, x: nat)
    requires a != b && n >= 1
    requires Shr(2 * a, n) == Shr(2 * b, n) == x && Shr(2 * a, n - 1) != Shr(2 * b, n - 1)
    ensures n >= 2 && MeetAt(a, b, n - 1) && Shr(a, n - 1) == x
  {
    var k := n - 1;
    ShrDouble(a, k);
    ShrDouble(b, k);
    assert Shr(a, 0) == a && Shr(b, 0) == b;
    ShrDouble(a, k - 1);
    ShrDouble(b, k - 1);
    forall j: nat ensures Shr(a, j) == Shr(b, j) <==> j >= k {
      if j >= k {
        MeetAbove(a, b, k, j);
      } else if Shr(a, j) == Shr(b, j) {
        MeetAbove(a, b, j, k - 1);
      }
    }
  }

  lemma ParentShape(k: nat, p: nat)
    requires k >= 1
    ensures Shl(p, k + 1) + Shl(1, k) >= 2
    ensures At(k, p) == Parent((Shl(p, k + 1) + Shl(1, k) - 2) / 2)
  {
    NodeShape(k, p);
    ParentNode(k - 1, p);
    Halves(Node(k - 1, p), 0);
  }

  lemma {:induction false} ShrDouble(x: nat, k: nat)
    ensures Shr(2 * x, k + 1) == Shr(x, k)
  {
    if k == 0 {
      assert Shr(2 * x, 1) == Shr(2 * x, 0) / 2;
    } else {
      ShrDouble(x, k - 1);
    }
  }

  lemma {:induction false} NodeShape(k: nat, p: nat)
    ensures Node(k, p) == Shl(p, k + 1) + Shl(1, k) - 1
  {
    if k == 0 {
      assert Shl(p, 1) == 2 * Shl(p, 0);
    } else {
      NodeShape(k - 1, p);
    }
  }
}

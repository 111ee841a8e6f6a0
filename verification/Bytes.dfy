/** Byte strings and the fixed-width big-endian integers every format here is made of. */
module Bytes {

  type byte = n: int | 0 <= n < 256

  type Bytes = seq<byte>

  datatype Option<+T> = None | Some(value: T)

  type u16 = n: int | 0 <= n < 0x1_0000

  /** A flat byte store. */
  type Store = map<Bytes, Bytes>

  /** Whether integer overflow and debug assertions panic, or overflow wraps and nothing is asserted. */
  datatype Build = Checked | Wrapping

  /** The bytes of an ASCII label. */
  function Ascii(s: string): (b: Bytes)
    ensures |b| == |s|
    ensures forall i :: 0 <= i < |s| ==> b[i] == s[i] as int % 256
  {
    seq(|s|, i requires 0 <= i < |s| => s[i] as int % 256)
  }

  function Pow256(w: nat): (p: nat)
    ensures p >= 1
  {
    if w == 0 then 1 else 256 * Pow256(w - 1)
  }

  /** `n.to_be_bytes()` of a `w`-byte unsigned integer; larger values wrap. */
  function ToBE(n: nat, w: nat): (b: Bytes)
    ensures |b| == w
  {
    if w == 0 then [] else ToBE(n / 256, w - 1) + [n % 256]
  }

  function FromBE(b: Bytes): (n: nat) {
    if b == [] then 0 else 256 * FromBE(b[..|b| - 1]) + b[|b| - 1]
  }

  lemma {:induction false} ToFromBE(b: Bytes)
    ensures FromBE(b) < Pow256(|b|) && ToBE(FromBE(b), |b|) == b
  {
    if b == [] {
    } else {
      ToFromBE(b[..|b| - 1]);
    }
  }

  /** The integer survives exactly when it fits the width. */
  lemma {:induction false} RoundTripBE(n: nat, w: nat)
    ensures FromBE(ToBE(n, w)) == n <==> n < Pow256(w)
  {
    ToFromBE(ToBE(n, w));
    if w == 0 || n >= Pow256(w) {
    } else {
      RoundTripBE(n / 256, w - 1);
      assert ToBE(n, w)[..w - 1] == ToBE(n / 256, w - 1);
    }
  }

  lemma Assoc<T>(a: seq<T>, b: seq<T>, c: seq<T>)
    ensures a + (b + c) == (a + b) + c
  {
  }

  lemma DropDrop<T>(s: seq<T>, i: nat, j: nat)
    requires i + j <= |s|
    ensures s[i..][j..] == s[i + j..]
  {
  }

  /** Two concatenations that agree and whose first parts have equal length agree part by part. */
  lemma PrefixRest<T>(a: seq<T>, b: seq<T>)
    requires a <= b
    ensures b + [] == b == a + b[|a|..]
  {
  }

  lemma SplitEqual<T>(a: seq<T>, b: seq<T>, c: seq<T>, d: seq<T>)
    requires |a| == |c| && a + b == c + d
    ensures a == c && b == d
  {
    assert a == (a + b)[..|a|] && b == (a + b)[|a|..];
    assert c == (c + d)[..|c|] && d == (c + d)[|c|..];
  }
}

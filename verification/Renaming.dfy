/** Maps renamed along an injective key function, how updates commute with the renaming, and walks over a map. */
module Renaming {

  ghost predicate Injective<X(!new), K>(f: X -> K) {
    forall x, y :: f(x) == f(y) ==> x == y
  }

  ghost function Rekey<X(!new), K, V>(t: map<X, V>, f: X -> K): (m: map<K, V>)
    requires Injective(f)
    ensures forall x :: x in t ==> f(x) in m && m[f(x)] == t[x]
    ensures forall k :: k in m ==> exists x :: x in t && f(x) == k
  {
    map x | x in t :: f(x) := t[x]
  }

  lemma SameMap<K, V>(m: map<K, V>, m': map<K, V>)
    requires forall k :: k in m ==> k in m' && m[k] == m'[k]
    requires forall k :: k in m' ==> k in m
    ensures m == m'
  {
    assert m.Keys == m'.Keys;
  }

  lemma RekeyLookup<X(!new), K, V>(t: map<X, V>, f: X -> K, x: X)
    requires Injective(f)
    ensures f(x) in Rekey(t, f) <==> x in t
    ensures x in t ==> Rekey(t, f)[f(x)] == t[x]
  {
  }

  lemma RekeyWrite<X(!new), K, V>(t: map<X, V>, f: X -> K, x: X, v: V)
    requires Injective(f)
    ensures Rekey(t[x := v], f) == Rekey(t, f)[f(x) := v]
  {
    var m, m' := Rekey(t[x := v], f), Rekey(t, f)[f(x) := v];
    forall k | k in m'
      ensures k in m
    {
      if k != f(x) {
        var y :| y in t && f(y) == k;
        assert y in t[x := v];
      }
    }
    SameMap(m, m');
  }

  lemma RekeyDelete<X(!new), K, V>(t: map<X, V>, f: X -> K, x: X)
    requires Injective(f)
    ensures Rekey(t - {x}, f) == Rekey(t, f) - {f(x)}
  {
    var m, m' := Rekey(t - {x}, f), Rekey(t, f) - {f(x)};
    forall k | k in m'
      ensures k in m
    {
      var y :| y in t && f(y) == k;
      assert y in t - {x};
    }
    SameMap(m, m');
  }

  // ---- Going through a map entry by entry ----

  lemma MoveOne<K, V>(done: map<K, V>, rest: map<K, V>, all: map<K, V>, k: K)
    requires k in rest && done + rest == all
    ensures done[k := rest[k]] + (rest - {k}) == all
  {
    SameMap(done[k := rest[k]] + (rest - {k}), all);
  }

  lemma OneLess<K, V>(rest: map<K, V>, k: K)
    requires k in rest
    ensures |rest - {k}| == |rest| - 1
  {
    assert (rest - {k}).Keys == rest.Keys - {k};
  }

  lemma NoneLeft<K, V>(done: map<K, V>)
    ensures done + map[] == done
  {
    SameMap(done + map[], done);
  }
}

/** The command-line client's key store file: the flat store re-keyed by base64 text, and merged back in on load. */
module Persistence {
  import opened Bytes
  import opened Renaming
  import Base64

  type File = map<string, string>

  datatype Engine = Engine(encode: Bytes -> string, decode: string -> Option<Bytes>)

  /** The engine decodes exactly what it encodes. */
  ghost predicate Canonical(e: Engine) {
    && (forall b :: e.decode(e.encode(b)) == Some(b))
    && (forall s :: e.decode(s).Some? ==> e.encode(e.decode(s).value) == s)
  }

  /**
    The standard engine takes whole groups only, of characters of the alphabet, with the padding that
    belongs there and nothing in the bits no byte takes.
    */
  function Decode(s: string): (b: Option<Bytes>) {
    if Base64.CanonicalText(s) then Some(Base64.Decoded(s)) else None
  }

  const STANDARD := Engine(Base64.Encoded, Decode)

  lemma StandardCanonical()
    ensures Canonical(STANDARD)
  {
    forall b ensures STANDARD.decode(STANDARD.encode(b)) == Some(b) {
      Base64.DecodedEncoded(b);
      Base64.EncodedCanonical(b);
    }
    forall s | STANDARD.decode(s).Some? ensures STANDARD.encode(STANDARD.decode(s).value) == s {
      Base64.EncodedDecoded(s);
    }
  }

  /** The file holds exactly the store's entries, each key and each value as text. */
  ghost predicate SavedAs(e: Engine, m: Store, f: File) {
    && (forall k :: k in m ==> e.encode(k) in f && f[e.encode(k)] == e.encode(m[k]))
    && (forall t :: t in f ==> e.decode(t).Some? && e.decode(t).value in m)
  }

  lemma SaveOne(e: Engine, m: Store, f: File, k: Bytes, v: Bytes)
    requires Canonical(e) && SavedAs(e, m, f)
    ensures SavedAs(e, m[k := v], f[e.encode(k) := e.encode(v)])
  {
    forall q | q in m && e.encode(q) == e.encode(k) ensures q == k {
      assert e.decode(e.encode(q)) == e.decode(e.encode(k));
    }
  }

  /** `save_to_file`, over the store's entries in any order. */
  method SaveToFile(e: Engine, values: Store) returns (file: File)
    requires Canonical(e)
    ensures SavedAs(e, values, file)
  {
    file := map[];
    var rest := values;
    ghost var done: Store := map[];
    while rest != map[]
      invariant done + rest == values
      invariant SavedAs(e, done, file)
      decreases |rest|
    {
      var k :| k in rest;
      SaveOne(e, done, file, k, rest[k]);
      MoveOne(done, rest, values, k);
      file := file[e.encode(k) := e.encode(rest[k])];
      done := done[k := rest[k]];
      rest := rest - {k};
    }
    NoneLeft(done);
  }

  predicate Readable(e: Engine, file: File) {
    forall t :: t in file ==> e.decode(t).Some? && e.decode(file[t]).Some?
  }

  /** A key is in the loaded store from the file, or else from before. */
  ghost predicate Loaded(e: Engine, values: Store, file: File, result: Store) {
    forall k :: (k in result <==> k in values || e.encode(k) in file) &&
                (k in result ==> if e.encode(k) in file then e.decode(file[e.encode(k)]) == Some(result[k])
                                 else result[k] == values[k])
  }

  lemma LoadOne(e: Engine, values: Store, file: File, result: Store, k: Bytes, t: string, v: Bytes)
    requires Canonical(e) && Loaded(e, values, file, result) && e.decode(t) == Some(v)
    ensures Loaded(e, values, file[e.encode(k) := t], result[k := v])
  {
    var file', result' := file[e.encode(k) := t], result[k := v];
    forall q
      ensures q in result' <==> q in values || e.encode(q) in file'
      ensures q in result' ==> if e.encode(q) in file' then e.decode(file'[e.encode(q)]) == Some(result'[q])
                               else result'[q] == values[q]
    {
      assert e.decode(e.encode(q)) == Some(q) && e.decode(e.encode(k)) == Some(k);
    }
  }

  /**
    `load_from_file` into a store that may hold entries already. Text that does not decode panics
    under the write lock: what was inserted before stays, and the lock is poisoned. `done` is the
    part of the file that went in.
    */
  method LoadFromFile(e: Engine, values: Store, file: File) returns (store: Store, poisoned: bool, ghost done: File)
    requires Canonical(e)
    ensures poisoned <==> !Readable(e, file)
    ensures PartOf(done, file) && (!poisoned ==> done == file)
    ensures Readable(e, done) && Loaded(e, values, done, store)
  {
    store, poisoned, done := values, false, map[];
    var rest := file;
    while rest != map[]
      invariant done + rest == file && PartOf(done, file)
      invariant Readable(e, done) && Loaded(e, values, done, store)
      decreases |rest|
    {
      var t :| t in rest;
      var key, value := e.decode(t), e.decode(rest[t]);
      if key == None || value == None {
        assert file[t] == rest[t];
        poisoned := true;
        return;
      }
      LoadOne(e, values, done, store, key.value, rest[t], value.value);
      MoveOne(done, rest, file, t);
      MorePart(e, done, rest, file, t);
      store := store[key.value := value.value];
      done := done[t := rest[t]];
      rest := rest - {t};
    }
    NoneLeft(done);
  }

  ghost predicate PartOf(done: File, file: File) {
    forall t :: t in done ==> t in file && done[t] == file[t]
  }

  lemma MorePart(e: Engine, done: File, rest: File, file: File, t: string)
    requires done + rest == file && PartOf(done, file) && Readable(e, done)
    requires t in rest && e.decode(t).Some? && e.decode(rest[t]).Some?
    ensures PartOf(done[t := rest[t]], file) && Readable(e, done[t := rest[t]])
  {
    assert file[t] == rest[t];
  }

  /** A saved store always loads, and lays its entries over the ones already there. */
  lemma LoadSaved(e: Engine, values: Store, saved: Store, file: File)
    requires Canonical(e) && SavedAs(e, saved, file)
    ensures Readable(e, file)
    ensures forall result :: Loaded(e, values, file, result) ==> result == values + saved
  {
    forall t | t in file ensures e.decode(t).Some? && e.decode(file[t]).Some? {
      var k := e.decode(t).value;
      assert e.encode(k) == t && file[t] == e.encode(saved[k]);
    }
    forall result | Loaded(e, values, file, result) ensures result == values + saved {
      forall k ensures e.encode(k) in file <==> k in saved {
        assert e.decode(e.encode(k)) == Some(k);
      }
      SameMap(result, values + saved);
    }
  }
}

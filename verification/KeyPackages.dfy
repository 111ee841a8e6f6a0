/**
  Key packages at the delivery service: a client's packages are handed out from the back, one
  is always held back, and the hash of each one handed out is reserved until its welcome.
  */
module KeyPackages {
  import opened Bytes

  datatype Entry = Entry(hash: Bytes, package: Bytes)

  datatype State = State(entries: seq<Entry>, reserved: set<Bytes>)

  /** One call of `consume_kp`. */
  function Consume(s: State): (r: (State, Option<Bytes>)) {
    var n := |s.entries|;
    if n <= 1 then (s, None)
    else (State(s.entries[..n - 1], s.reserved + {s.entries[n - 1].hash}), Some(s.entries[n - 1].package))
  }

  class ClientInfo {
    const id: Bytes
    var entries: seq<Entry>
    var reserved: set<Bytes>

    ghost function View(): (s: State)
      reads this
    {
      State(entries, reserved)
    }

    constructor (id: Bytes, entries: seq<Entry>)
      ensures this.id == id && View() == State(entries, {})
    {
      this.id := id;
      this.entries, reserved := entries, {};
    }

    method ConsumeKp() returns (r: Option<Bytes>)
      modifies this
      ensures (View(), r) == Consume(old(View()))
    {
      if |entries| <= 1 { return None; }
      var last := entries[|entries| - 1];
      entries := entries[..|entries| - 1];
      reserved := reserved + {last.hash};
      r := Some(last.package);
    }
  }

  /** `ClientInfo::new`: the first package names the client, so an empty list panics. */
  method NewClient(entries: seq<Entry>, credential: Bytes -> Bytes) returns (c: Option<ClientInfo>)
    ensures c.Some? <==> entries != []
    ensures c.Some? ==> fresh(c.value) && c.value.View() == State(entries, {})
    ensures c.Some? ==> c.value.id == credential(entries[0].package)
  {
    if entries == [] { return None; }
    var client := new ClientInfo(credential(entries[0].package), entries);
    c := Some(client);
  }

  /** The state after `calls` calls, and what they returned. */
  function Run(s: State, calls: nat): (r: (State, seq<Option<Bytes>>))
    decreases calls
  {
    if calls == 0 then (s, [])
    else
      var (s', out) := Consume(s);
      var (end, outs) := Run(s', calls - 1);
      (end, [out] + outs)
  }

  /** The entries `calls` calls hand out, first one first. */
  function HandedOut(entries: seq<Entry>, calls: nat): (es: seq<Entry>)
    ensures |entries| >= 1 ==> |es| == if calls < |entries| then calls else |entries| - 1
    decreases calls
  {
    if calls == 0 || |entries| <= 1 then []
    else [entries[|entries| - 1]] + HandedOut(entries[..|entries| - 1], calls - 1)
  }

  /** The entries that stay. */
  function Kept(entries: seq<Entry>, calls: nat): (es: seq<Entry>)
    ensures |entries| >= 1 ==> |es| >= 1
    decreases calls
  {
    if calls == 0 || |entries| <= 1 then entries
    else Kept(entries[..|entries| - 1], calls - 1)
  }

  function Hashes(es: seq<Entry>): (hs: set<Bytes>) {
    set e | e in es :: e.hash
  }

  lemma {:induction false} RunOutcomes(s: State, calls: nat)
    requires |s.entries| >= 1
    ensures var outs := Run(s, calls).1; var out := HandedOut(s.entries, calls);
            && |outs| == calls
            && forall i :: 0 <= i < calls ==> outs[i] == if i < |s.entries| - 1 then Some(out[i].package) else None
    decreases calls
  {
    if calls == 0 {
    } else {
      RunOutcomes(Consume(s).0, calls - 1);
    }
  }

  lemma {:induction false} RunState(s: State, calls: nat)
    requires |s.entries| >= 1
    ensures var out := HandedOut(s.entries, calls);
            Run(s, calls).0 == State(Kept(s.entries, calls), s.reserved + Hashes(out))
    decreases calls
  {
    if calls == 0 {
    } else {
      RunState(Consume(s).0, calls - 1);
      if |s.entries| > 1 {
        var n := |s.entries|;
        var rest := HandedOut(s.entries[..n - 1], calls - 1);
        HashesCons(s.entries[n - 1], rest);
      }
    }
  }

  lemma MoveLast(entries: seq<Entry>, front: seq<Entry>, last: Entry, kept: seq<Entry>, rest: seq<Entry>,
                 out: seq<Entry>)
    requires entries == front + [last] && out == [last] + rest
    requires multiset(kept) + multiset(rest) == multiset(front)
    ensures multiset(kept) + multiset(out) == multiset(entries)
  {
  }

  lemma {:induction false} Conserved(entries: seq<Entry>, calls: nat)
    ensures multiset(Kept(entries, calls)) + multiset(HandedOut(entries, calls)) == multiset(entries)
    decreases calls
  {
    if calls == 0 || |entries| <= 1 {
      assert HandedOut(entries, calls) == [];
    } else {
      var front, last := entries[..|entries| - 1], entries[|entries| - 1];
      var kept, rest := Kept(front, calls - 1), HandedOut(front, calls - 1);
      Conserved(front, calls - 1);
      MoveLast(entries, front, last, kept, rest, HandedOut(entries, calls));
    }
  }

  /**
    From n >= 1 packages every run of any length has exactly its first n - 1 calls succeed, keeps
    at least one package, splits the original packages between handed out and kept, and reserves
    exactly the hashes handed out.
    */
  lemma EveryRun(s: State, calls: nat)
    requires |s.entries| >= 1
    ensures var (end, outs) := Run(s, calls); var out := HandedOut(s.entries, calls);
            && |outs| == calls
            && (forall i :: 0 <= i < calls ==> outs[i] == if i < |s.entries| - 1 then Some(out[i].package) else None)
            && |end.entries| >= 1
            && multiset(end.entries) + multiset(out) == multiset(s.entries)
            && end.reserved == s.reserved + Hashes(out)
  {
    RunOutcomes(s, calls);
    RunState(s, calls);
    Conserved(s.entries, calls);
  }

  lemma HashesCons(e: Entry, es: seq<Entry>)
    ensures Hashes([e] + es) == {e.hash} + Hashes(es)
  {
    forall h | h in {e.hash} + Hashes(es) ensures h in Hashes([e] + es) {
      if h == e.hash {
        assert e in [e] + es;
      } else {
        var x :| x in es && x.hash == h;
        assert x in [e] + es;
      }
    }
  }

  /** Handed out in reverse order of registration. */
  lemma {:induction false} HandedOutAt(entries: seq<Entry>, calls: nat, i: nat)
    requires i < |HandedOut(entries, calls)|
    ensures i < |entries| && HandedOut(entries, calls)[i] == entries[|entries| - 1 - i]
    decreases calls
  {
    if i == 0 {
    } else {
      HandedOutAt(entries[..|entries| - 1], calls - 1, i - 1);
    }
  }
}

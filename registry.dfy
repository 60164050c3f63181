/** The wrapper's event registry (`eventsRegistry`, a `Map` from event type
    to listener) and how it relates to the listeners attached on the native
    element. */
module Registry {
  import opened Dom

  type EventRegistry = map<string, Listener>

  /** `eventsRegistry.get(t)`: the listener, or `undefined`. */
  function Lookup(reg: EventRegistry, t: string): (r: Option<Listener>)
    ensures r.Some? <==> t in reg
    ensures r.Some? ==> r.value == reg[t]
  {
    if t in reg then Some(reg[t]) else None
  }

  /** The (type, listener) pairs the registry has recorded for the types in
      `ts`: what unbinding those types detaches. */
  function Bound(reg: EventRegistry, ts: set<string>): (r: set<(string, Listener)>) {
    set t | t in reg && t in ts :: (t, reg[t])
  }

  /** Every (type, listener) pair the registry has recorded. */
  function Entries(reg: EventRegistry): (r: set<(string, Listener)>) {
    set t | t in reg :: (t, reg[t])
  }

  /** A pair is recorded exactly when its type is registered with that
      listener, so the registry records at most one listener per type. */
  lemma {:induction false} EntriesMembership(reg: EventRegistry, t: string, l: Listener)
    ensures (t, l) in Entries(reg) <==> t in reg && reg[t] == l
  {
    if t in reg && reg[t] == l {
      assert (t, reg[t]) in Entries(reg);
    }
  }

  lemma {:induction false} AtMostOnePerType(reg: EventRegistry, t: string, l1: Listener, l2: Listener)
    requires (t, l1) in Entries(reg) && (t, l2) in Entries(reg)
    ensures l1 == l2
  {
    EntriesMembership(reg, t, l1);
    EntriesMembership(reg, t, l2);
  }

  lemma {:induction false} BoundAll(reg: EventRegistry)
    ensures Bound(reg, reg.Keys) == Entries(reg)
  {
  }

  /** Binding a new type records exactly one more pair. */
  lemma {:induction false} EntriesAfterBind(reg: EventRegistry, t: string, l: Listener)
    requires t !in reg
    ensures Entries(reg[t := l]) == Entries(reg) + {(t, l)}
  {
    var r := reg[t := l];
    forall p | p in Entries(r) ensures p in Entries(reg) + {(t, l)} {
      var u :| u in r && p == (u, r[u]);
      if u != t {
        assert p == (u, reg[u]);
        assert (u, reg[u]) in Entries(reg);
      }
    }
    forall p | p in Entries(reg) + {(t, l)} ensures p in Entries(r) {
      if p == (t, l) {
        assert (t, r[t]) in Entries(r);
      } else {
        var u :| u in reg && p == (u, reg[u]);
        assert (u, r[u]) in Entries(r);
      }
    }
  }

  /** Unbinding the types `ts` removes exactly their recorded pairs. */
  lemma {:induction false} EntriesAfterUnbind(reg: EventRegistry, ts: set<string>)
    ensures Entries(reg - ts) == Entries(reg) - Bound(reg, ts)
  {
    var r := reg - ts;
    forall p | p in Entries(r) ensures p in Entries(reg) - Bound(reg, ts) {
      var u :| u in r && p == (u, r[u]);
      assert (u, reg[u]) in Entries(reg);
    }
    forall p | p in Entries(reg) - Bound(reg, ts) ensures p in Entries(r) {
      var u :| u in reg && p == (u, reg[u]);
      assert u !in ts;
      assert (u, r[u]) in Entries(r);
    }
  }

  /** What unbinding a type list detaches grows one type at a time; a type
      already seen, or never bound, detaches nothing more. */
  lemma {:induction false} BoundStep(reg: EventRegistry, seen: set<string>, t: string)
    ensures t in reg && t !in seen ==> Bound(reg, seen + {t}) == Bound(reg, seen) + {(t, reg[t])}
    ensures t !in reg || t in seen ==> Bound(reg, seen + {t}) == Bound(reg, seen)
  {
    if t in reg {
      assert (t, reg[t]) in Bound(reg, seen + {t});
    }
  }

  /** Unbinding a type that is not registered detaches nothing and leaves the
      registry as it was. */
  lemma {:induction false} UnbindAbsent(reg: EventRegistry, t: string)
    requires t !in reg
    ensures Bound(reg, {t}) == {} && reg - {t} == reg
  {
  }
}

/** The event bus of internal/event/pubsub.go: taps, and listeners indexed by type. */
module EventBus {
  import opened Channels

  /** A typed listener set; typ is the type its channels were made for. */
  datatype Listeners = Listeners(typ: TypeName, chs: set<Channel>)

  class Bus {
    var taps: set<Channel>
    var listeners: map<TypeName, Listeners>

    /** Keys match typ, no stored set is empty, and every channel has its set's type. */
    ghost predicate Indexed()
      reads this
    {
      && (forall c :: c in taps ==> c.kind == Untyped)
      && forall t :: t in listeners ==>
         && listeners[t].typ == t
         && listeners[t].chs != {}
         && forall c :: c in listeners[t].chs ==> c.kind == Typed(t)
    }

    /** The flat set of (type, channel) pairs that the index stands for. */
    ghost function Flat(): set<(TypeName, Channel)>
      reads this
    {
      set t, c | t in listeners && c in listeners[t].chs :: (t, c)
    }

    function Of(t: TypeName): set<Channel>
      reads this
    {
      if t in listeners then listeners[t].chs else {}
    }

    ghost function All(): set<Channel>
      reads this
    {
      taps + set t, c | t in listeners && c in listeners[t].chs :: c
    }

    ghost predicate Valid()
      reads this, All()
    {
      Indexed() && forall c :: c in All() ==> c.Valid()
    }

    constructor ()
      ensures Valid() && taps == {} && listeners == map[]
    {
      taps := {};
      listeners := map[];
    }

    method Listen(c: Channel)
      requires Valid() && c.Valid() && c.kind.Typed?
      modifies this
      ensures Valid() && taps == old(taps)
      ensures Flat() == old(Flat()) + {(c.kind.typ, c)}
    {
      var t := c.kind.typ;
      if t in listeners {
        listeners := listeners[t := listeners[t].(chs := listeners[t].chs + {c})];
      } else {
        listeners := listeners[t := Listeners(t, {c})];
      }
    }

    method Unlisten(c: Channel)
      requires Valid() && c.kind.Typed?
      modifies this
      ensures Valid() && taps == old(taps)
      ensures Flat() == old(Flat()) - {(c.kind.typ, c)}
    {
      var t := c.kind.typ;
      if t in listeners {
        var chs := listeners[t].chs - {c};
        if |chs| == 0 {
          assert chs == {};
          listeners := listeners - {t};
        } else {
          listeners := listeners[t := listeners[t].(chs := chs)];
        }
      }
    }

    method Tap(c: Channel)
      requires Valid() && c.Valid() && c.kind == Untyped
      modifies this
      ensures Valid() && taps == old(taps) + {c} && listeners == old(listeners)
    {
      taps := taps + {c};
    }

    method Untap(c: Channel)
      requires Valid()
      modifies this
      ensures Valid() && taps == old(taps) - {c} && listeners == old(listeners)
    {
      taps := taps - {c};
    }

    /** Emit: every tap and every listener of the event's type is offered the envelope
        once; nothing else changes; failed is what the cleanup goroutines will remove. */
    method Emit(e: Envelope) returns (failed: set<Channel>)
      requires Valid()
      modifies taps, Of(e.typ)
      ensures Valid()
      ensures forall c :: c in taps + Of(e.typ) ==> c.state == Offer(old(c.state), e)
      ensures failed == set c | c in taps + Of(e.typ) && old(c.state.closed)
    {
      failed := SendAll(taps, e);
      if e.typ in listeners {
        var l := listeners[e.typ];
        assert l.typ == e.typ;  // the type assertion in listeners.emit
        var more := SendAll(l.chs, e);
        failed := failed + more;
      }
    }

    /** Any iteration order of the set of channels. */
    static method SendAll(chs: set<Channel>, e: Envelope) returns (failed: set<Channel>)
      requires forall c :: c in chs ==> c.Valid() && Carries(c.kind, e)
      modifies chs
      ensures forall c :: c in chs ==> c.Valid() && c.state == Offer(old(c.state), e)
      ensures failed == set c | c in chs && old(c.state.closed)
    {
      failed := {};
      var todo := chs;
      while todo != {}
        invariant todo <= chs
        invariant forall c :: c in chs ==> c.Valid()
        invariant forall c :: c in todo ==> c.state == old(c.state)
        invariant forall c :: c in chs - todo ==> c.state == Offer(old(c.state), e)
        invariant failed == set c | c in chs - todo && old(c.state.closed)
      {
        var c :| c in todo;
        var open := c.Send(e);
        if !open {
          failed := failed + {c};
        }
        todo := todo - {c};
      }
    }

    /** Cancellation of the bus context closes every subscriber, and panics exactly when
        one of them was closed already. */
    method Cancel() returns (panicked: bool)
      requires Valid()
      modifies All()
      ensures Valid()
      ensures panicked <==> exists c :: c in All() && old(c.state.closed)
      ensures forall c :: c in All() ==>
        c.state == old(c.state) || c.state == old(c.state).(closed := true)
      ensures !panicked ==> forall c :: c in All() ==> c.state == old(c.state).(closed := true)
    {
      panicked := false;
      var todo := taps + set t, c | t in listeners && c in listeners[t].chs :: c;
      while todo != {}
        invariant todo <= All()
        invariant Valid()
        invariant forall c :: c in todo ==> c.state == old(c.state)
        invariant forall c :: c in All() - todo ==>
          !old(c.state.closed) && c.state == old(c.state).(closed := true)
      {
        var c :| c in todo;
        panicked := c.Close();
        if panicked {
          return;
        }
        todo := todo - {c};
      }
    }
  }
}

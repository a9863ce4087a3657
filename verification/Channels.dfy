/** Go channels as the event bus uses them: bounded, closable, with a send that never
    blocks and that recovers from the panic of a send on a closed channel. */
module Channels {

  type TypeName = string

  /** An event carries its dynamic type; id stands for the envelope's UUID. */
  datatype Envelope = Envelope(typ: TypeName, payload: string, id: nat)

  datatype Kind = Untyped | Typed(typ: TypeName)

  /** kind is Untyped for `chan Envelope` and Typed(T) for `chan TypedEnvelope[T]`. */
  datatype Chan = Chan(kind: Kind, cap: nat, buf: seq<Envelope>, closed: bool)

  datatype Outcome = Delivered | Full | WasClosed

  predicate Carries(k: Kind, e: Envelope) {
    k.Typed? ==> k.typ == e.typ
  }

  predicate Sound(c: Chan) {
    |c.buf| <= c.cap && forall i :: 0 <= i < |c.buf| ==> Carries(c.kind, c.buf[i])
  }

  /** What the non-blocking send meets. */
  function Meets(c: Chan): Outcome {
    if c.closed then WasClosed else if |c.buf| < c.cap then Delivered else Full
  }

  function Offer(c: Chan, e: Envelope): (c': Chan)
    ensures Sound(c) && Carries(c.kind, e) ==> Sound(c')
    ensures c' == c || (Meets(c) == Delivered && c'.buf == c.buf + [e] && c' == c.(buf := c'.buf))
  {
    if Meets(c) == Delivered then c.(buf := c.buf + [e]) else c
  }

  /** A channel in the heap, shared by the bus and its subscriber. */
  class Channel {
    const kind: Kind
    var state: Chan

    ghost predicate Valid()
      reads this
    {
      state.kind == kind && Sound(state)
    }

    constructor (kind: Kind, cap: nat)
      ensures Valid() && this.kind == kind && state == Chan(kind, cap, [], false)
    {
      this.kind := kind;
      state := Chan(kind, cap, [], false);
    }

    /** send: false only when the channel is closed. */
    method Send(e: Envelope) returns (open: bool)
      requires Valid() && Carries(kind, e)
      modifies this
      ensures Valid() && state == Offer(old(state), e)
      ensures open == !old(state.closed) == !state.closed
    {
      if state.closed {
        open := false;
      } else {
        if |state.buf| < state.cap {
          state := state.(buf := state.buf + [e]);
        }
        open := true;
      }
    }

    /** close: a second close panics. */
    method Close() returns (panicked: bool)
      requires Valid()
      modifies this
      ensures Valid() && panicked == old(state.closed)
      ensures state == old(state).(closed := true)
    {
      panicked := state.closed;
      state := state.(closed := true);
    }
  }
}

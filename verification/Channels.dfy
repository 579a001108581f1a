/** Go channels as seen by one sending goroutine. What the receivers do before each of its selects, and
    whether its context is done by then, is given. */
module Channels {

  datatype Unit = Unit

  class Chan<T> {
    const cap: nat
    var len: nat            // how many of the last values sent are still in the buffer
    var waiting: bool       // a receiver is parked at the channel
    var closed: bool
    ghost var sent: seq<T>  // everything ever sent

    ghost predicate Valid()
      reads this
    {
      len <= cap && len <= |sent| && (waiting ==> len == 0)
    }

    /** A send would go through now. */
    predicate Ready()
      reads this
    {
      len < cap || waiting
    }

    constructor (cap: nat)
      ensures Valid() && this.cap == cap && len == 0 && sent == [] && !closed
    {
      this.cap := cap;
      len, sent, waiting, closed := 0, [], false, false;
    }

    /** A send on a closed channel panics, and one that is not ready blocks: both are excluded
        where a send is made. */
    method Send(x: T)
      requires Valid() && Ready() && !closed
      modifies this`len, this`waiting, this`sent
      ensures Valid() && sent == old(sent) + [x]
      ensures len == if old(waiting) then old(len) else old(len) + 1
    {
      sent := sent + [x];
      if waiting {
        waiting := false;
      } else {
        len := len + 1;
      }
    }

    /** Closing a closed channel panics. */
    method Close()
      requires !closed
      modifies this`closed
      ensures closed
    {
      closed := true;
    }

    /** What the receivers do before a select. */
    method Receive(m: Moment)
      requires Valid()
      modifies this`len, this`waiting
      ensures Valid() && len == Left(old(len), m)
      ensures Ready() <==> Free(cap, old(len), m)
      ensures waiting <==> len == 0 && m.parked
    {
      len := Left(len, m);
      waiting := len == 0 && m.parked;
    }
  }

  /** What the receivers of a channel do before one select of its sender, and which case the select
      takes when it has a choice: some values are taken from the buffer, and once that is empty a
      receiver may be parked. */
  datatype Moment = Moment(taken: nat, parked: bool, prefersSend: bool)

  function Left(len: nat, m: Moment): nat {
    if m.taken < len then len - m.taken else 0
  }

  predicate Free(cap: nat, len: nat, m: Moment) {
    Left(len, m) < cap || (Left(len, m) == 0 && m.parked)
  }

  /** How a select between a send and the context turns out: it may also still be waiting when
      the run is observed. */
  datatype Offered = Sent | SawDone | Waiting

  function Picked(ready: bool, done: bool, prefersSend: bool): Offered {
    if ready && (prefersSend || !done) then Sent
    else if done then SawDone
    else Waiting
  }

  /** What is in the buffer after the select. */
  function LeftAfter(len: nat, m: Moment, o: Offered): nat {
    if o.Sent? && !(Left(len, m) == 0 && m.parked) then Left(len, m) + 1 else Left(len, m)
  }

  /** A select whose surroundings are given. */
  method OfferAt<T>(ch: Chan<T>, x: T, done: bool, m: Moment) returns (o: Offered)
    requires ch.Valid() && !ch.closed
    modifies ch`len, ch`waiting, ch`sent
    ensures ch.Valid()
    ensures o == Picked(Free(ch.cap, old(ch.len), m), done, m.prefersSend)
    ensures ch.sent == if o.Sent? then old(ch.sent) + [x] else old(ch.sent)
    ensures ch.len == LeftAfter(old(ch.len), m, o)
    ensures o.Waiting? ==> !ch.Ready()
  {
    ch.Receive(m);
    o := Picked(ch.Ready(), done, m.prefersSend);
    if o.Sent? {
      ch.Send(x);
    }
  }
}

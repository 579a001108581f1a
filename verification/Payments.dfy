/** Payment update streams: trackPayment, which forwards them, and payInvoice, which waits for the
    final result. SubscribeSingleInvoice forwards invoice updates in the same way. */
module Payments {
  import opened Wrappers
  import opened Channels
  import opened StreamLoops
  import opened LoopRuns
  import opened Words

  // gRPC status codes.
  const CANCELED := 1
  const NOT_FOUND := 5
  const ALREADY_EXISTS := 6

  function ToSatoshis(msat: Uint64): Uint64 { msat / 1000 }

  datatype PaymentState = UnknownState | InFlight | Succeeded | FailedState | Initiated

  /** `hops` are the amounts that each hop of the route forwards. */
  datatype RpcHtlc = RpcHtlc(inFlight: bool, hops: Option<seq<Int64>>, decodable: bool)

  datatype PreimageText = NoPreimage | Preimage(bytes: Bytes) | BadText

  datatype RpcPayment = RpcPayment(state: PaymentState, preimage: PreimageText, feeMsat: Int64, valueMsat: Int64,
                                   reason: int, htlcs: seq<RpcHtlc>)

  datatype Status = Status(state: PaymentState, reason: int, preimage: Option<Bytes>, fee: Uint64, value: Uint64,
                           inFlightAmt: Uint64, inFlightHtlcs: nat)

  datatype Err =
    | StreamErr(code: int) | StreamClosed
    | PaymentNotInitiated | AlreadyPaid
    | BadPreimage | BadHtlc
    | BadInvoice | NoAmount
    | PaymentFailed(reason: int)

  // ---- decoding one update ----

  function AmountInFlight(h: RpcHtlc): Uint64 {
    if !h.inFlight || h.hops.None? || h.hops.value == [] then 0
    else AsUint64(h.hops.value[|h.hops.value| - 1])
  }

  function SumInFlight(hs: seq<RpcHtlc>): nat {
    if hs == [] then 0 else SumInFlight(hs[..|hs| - 1]) + AmountInFlight(hs[|hs| - 1])
  }

  function CountInFlight(hs: seq<RpcHtlc>): nat {
    if hs == [] then 0 else CountInFlight(hs[..|hs| - 1]) + (if hs[|hs| - 1].inFlight then 1 else 0)
  }

  function Unmarshal(p: RpcPayment): Result<Status, Err> {
    if p.state.Succeeded? && p.preimage.BadText? then Failure(BadPreimage)
    else if exists h | h in p.htlcs :: !h.decodable then Failure(BadHtlc)
    else Success(Status(
      p.state,
      if p.state.FailedState? then p.reason else 0,
      if p.state.Succeeded? && p.preimage.Preimage? then Some(p.preimage.bytes) else None,
      if p.state.Succeeded? then AsUint64(p.feeMsat) else 0,
      if p.state.Succeeded? then AsUint64(p.valueMsat) else 0,
      SumInFlight(p.htlcs) % TWO_TO_THE_64,
      CountInFlight(p.htlcs)))
  }

  lemma WrappedSum(sum: nat, amount: nat)
    ensures (sum % TWO_TO_THE_64 + amount) % TWO_TO_THE_64 == (sum + amount) % TWO_TO_THE_64
  {
  }

  /** The loop of unmarshallPaymentStatus: amounts are added up in 64 bits, HTLC by HTLC, and the
      first one that cannot be decoded ends it. */
  method TallyInFlight(htlcs: seq<RpcHtlc>) returns (ok: bool, amount: Uint64, count: nat)
    ensures ok <==> forall h | h in htlcs :: h.decodable
    ensures ok ==> amount == SumInFlight(htlcs) % TWO_TO_THE_64 && count == CountInFlight(htlcs)
  {
    amount, count := 0, 0;
    for i := 0 to |htlcs|
      invariant forall j | 0 <= j < i :: htlcs[j].decodable
      invariant amount == SumInFlight(htlcs[..i]) % TWO_TO_THE_64
      invariant count == CountInFlight(htlcs[..i])
    {
      var h := htlcs[i];
      if !h.decodable {
        return false, amount, count;
      }
      assert htlcs[..i + 1][..i] == htlcs[..i];
      WrappedSum(SumInFlight(htlcs[..i]), AmountInFlight(h));
      if h.inFlight {
        count := count + 1;
        amount := (amount + AmountInFlight(h)) % TWO_TO_THE_64;
      }
    }
    assert htlcs[..|htlcs|] == htlcs;
    ok := true;
  }

  /** unmarshallPaymentStatus. */
  method UnmarshallPaymentStatus(p: RpcPayment) returns (r: Result<Status, Err>)
    ensures r == Unmarshal(p)
  {
    var reason, preimage, fee: Uint64, value: Uint64 := 0, None, 0, 0;
    if p.state.Succeeded? {
      if p.preimage.BadText? {
        return Failure(BadPreimage);
      }
      preimage := if p.preimage.Preimage? then Some(p.preimage.bytes) else None;
      fee, value := AsUint64(p.feeMsat), AsUint64(p.valueMsat);
    } else if p.state.FailedState? {
      reason := p.reason;
    }
    var ok, amount, count := TallyInFlight(p.htlcs);
    if !ok {
      return Failure(BadHtlc);
    }
    r := Success(Status(p.state, reason, preimage, fee, value, amount, count));
  }

  // ---- what an update is decoded to, field by field ----

  predicate Readable(p: RpcPayment) {
    (p.state.Succeeded? ==> !p.preimage.BadText?) && forall h | h in p.htlcs :: h.decodable
  }

  /** An update is decoded unless a preimage or an HTLC cannot be. Fee, value and preimage are those of a
      payment that succeeded, the reason is that of one that failed. */
  lemma StatusFields(p: RpcPayment)
    ensures var r := Unmarshal(p);
            && (r.Success? <==> Readable(p))
            && (r.Failure? ==> r.error == if p.state.Succeeded? && p.preimage.BadText? then BadPreimage else BadHtlc)
            && (r.Success? ==> r.value.state == p.state)
            && (r.Success? && p.state.Succeeded? ==>
                  && r.value.fee == p.feeMsat + (if p.feeMsat < 0 then TWO_TO_THE_64 else 0)
                  && r.value.value == p.valueMsat + (if p.valueMsat < 0 then TWO_TO_THE_64 else 0)
                  && r.value.preimage == (if p.preimage.Preimage? then Some(p.preimage.bytes) else None)
                  && r.value.reason == 0)
            && (r.Success? && p.state.FailedState? ==> r.value.reason == p.reason)
            && (r.Success? && !p.state.Succeeded? ==> r.value.fee == r.value.value == 0 && r.value.preimage == None)
            && (r.Success? && !p.state.FailedState? ==> r.value.reason == 0)
  {
  }

  /** An HTLC in flight counts with what its last hop forwards; any other one does not count. */
  lemma OneInFlight(h: RpcHtlc)
    ensures SumInFlight([h]) == if h.inFlight && h.hops.Some? && h.hops.value != [] then
                                  var msat: int := h.hops.value[|h.hops.value| - 1];
                                  msat + (if msat < 0 then TWO_TO_THE_64 else 0)
                                else 0
    ensures CountInFlight([h]) == if h.inFlight then 1 else 0
  {
    assert [h][..0] == [];
  }

  /** And the HTLCs of a payment add up. */
  lemma {:induction false} InFlightAddsUp(hs: seq<RpcHtlc>, more: seq<RpcHtlc>)
    ensures SumInFlight(hs + more) == SumInFlight(hs) + SumInFlight(more)
    ensures CountInFlight(hs + more) == CountInFlight(hs) + CountInFlight(more)
  {
    if more == [] {
      assert hs + more == hs;
    } else {
      var n := |more| - 1;
      assert (hs + more)[..|hs + more| - 1] == hs + more[..n];
      InFlightAddsUp(hs, more[..n]);
    }
  }

  lemma StatusInFlight(p: RpcPayment)
    requires Readable(p)
    ensures Unmarshal(p).value.inFlightAmt == SumInFlight(p.htlcs) % TWO_TO_THE_64
    ensures Unmarshal(p).value.inFlightHtlcs == CountInFlight(p.htlcs)
  {
  }

  // ---- forwarding updates ----

  function UpdateReaction<R, U, X>(decode: R -> Result<U, X>, rename: int -> X, r: Recv<R>): Reaction<U, X> {
    match r
    case Eof => CloseUp
    case Broken(code) => Reject(rename(code))
    case Got(raw) =>
      match decode(raw)
      case Success(u) => Deliver(u)
      case Failure(e) => Reject(e)
  }

  function UpdateReactor<R, U, X>(decode: R -> Result<U, X>, rename: int -> X): Recv<R> -> Reaction<U, X> {
    r => UpdateReaction(decode, rename, r)
  }

  /** The goroutine that forwards the updates of one payment or one invoice: in all surroundings it
      passes their decoded image on in order, and it ends with both channels closed and no error, with
      one error and neither closed, or with the context done and neither closed. */
  method ForwardUpdates<R, U, X>(decode: R -> Result<U, X>, rename: int -> X, stream: seq<Recv<R>>, env: Surroundings,
                                 updates: Chan<U>, errs: Chan<X>)
    returns (s: Loop<U, X>)
    requires |env.moments| == |stream|
    requires updates.Valid() && updates.cap == 0 && updates.len == 0 && updates.sent == [] && !updates.closed
    requires errs.Valid() && errs.cap == 1 && errs.sent == [] && !errs.closed
    requires errs as object != updates
    modifies updates, errs
    ensures s == LoopRun(Forwarding(), UpdateReactor(decode, rename), stream, env, |stream|)
    ensures updates.sent == s.trace
    ensures RunOf(true, UpdateReactor(decode, rename), stream, s.n, s.trace, s.End())
    ensures errs.sent == if s.End().Failed? then [s.End().err] else []
    ensures updates.closed <==> s.End().Closed?
    ensures errs.closed <==> s.End().Closed?
  {
    ghost var react, d := UpdateReactor(decode, rename), Forwarding<U, X>();
    s := Start(env);
    for n := 0 to |stream|
      invariant s.stop.None? && s == LoopRun(d, react, stream, env, n)
      invariant updates.Valid() && !updates.closed && updates.cap == 0
      invariant updates.len == s.len && updates.sent == s.trace
      invariant errs.Valid() && errs.cap == 1 && errs.sent == [] && !errs.closed
    {
      LoopRunTurn(d, react, stream, env, s);
      s := Forward(decode, rename, stream[n], updates, errs, env, s);
      if s.stop.Some? {
        QuitsExact(d, react, stream, env);
        return;
      }
    }
    QuitsExact(d, react, stream, env);
  }

  /** The body of the loop. */
  method Forward<R, U, X>(decode: R -> Result<U, X>, rename: int -> X, r: Recv<R>, updates: Chan<U>, errs: Chan<X>,
                          env: Surroundings, s: Loop<U, X>)
    returns (t: Loop<U, X>)
    requires s.n < |env.moments| && s.stop.None?
    requires updates.Valid() && !updates.closed && updates.cap == 0
    requires updates.len == s.len && updates.sent == s.trace
    requires errs.Valid() && errs.cap == 1 && errs.sent == [] && !errs.closed
    requires errs as object != updates
    modifies updates, errs
    ensures t == Turn(Forwarding(), UpdateReaction(decode, rename, r), env, s)
    ensures updates.Valid() && updates.len == t.len && updates.sent == t.trace
    ensures errs.Valid() && errs.sent == if t.End().Failed? then [t.End().err] else []
    ensures updates.closed <==> t.stop == Some(Closed)
    ensures errs.closed <==> t.stop == Some(Closed)
  {
    match r {
      case Eof =>
        updates.Close();
        errs.Close();
        t := s.(n := s.n + 1, stop := Some(Closed));

      case Broken(code) =>
        errs.Send(rename(code));
        t := s.(n := s.n + 1, stop := Some(Failed(rename(code))));

      case Got(raw) =>
        var update := decode(raw);
        if update.Failure? {
          errs.Send(update.error);
          return s.(n := s.n + 1, stop := Some(Failed(update.error)));
        }
        t := ForwardOne(update.value, updates, env, s);
    }
  }

  function TrackError(code: int): Err {
    if code == NOT_FOUND then PaymentNotInitiated
    else if code == ALREADY_EXISTS then AlreadyPaid
    else StreamErr(code)
  }

  /** trackPayment. */
  method TrackPayment(stream: seq<Recv<RpcPayment>>, env: Surroundings)
    returns (statuses: Chan<Status>, errs: Chan<Err>, s: Loop<Status, Err>)
    requires |env.moments| == |stream|
    ensures fresh(statuses) && fresh(errs)
    ensures s == LoopRun(Forwarding(), UpdateReactor(Unmarshal, TrackError), stream, env, |stream|)
    ensures statuses.sent == s.trace
    ensures RunOf(true, UpdateReactor(Unmarshal, TrackError), stream, s.n, s.trace, s.End())
    ensures errs.sent == if s.End().Failed? then [s.End().err] else []
    ensures statuses.closed == errs.closed && (errs.closed <==> s.End().Closed?)
  {
    statuses := new Chan(0);
    errs := new Chan(1);
    s := ForwardUpdates(Unmarshal, TrackError, stream, env, statuses, errs);
  }

  /** Of a run that is over: it ended in one of three ways, the first event that ends a run decides
      which unless the context did, and everything before that event was passed on. */
  lemma EndsOneWay<R, U, X>(decode: R -> Result<U, X>, rename: int -> X, stream: seq<Recv<R>>, n: nat, sent: seq<U>,
                            end: End<X>)
    requires RunOf(true, UpdateReactor(decode, rename), stream, n, sent, end)
    ensures end.Receiving? || end.Blocked? || end.Closed? || end.Failed? || end.Cancelled?
    ensures end.Closed? ==> stream[n - 1] == Eof && |sent| == n - 1
    ensures end.Failed? ==> stream[n - 1] != Eof && |sent| == n - 1
    ensures end.Cancelled? ==> stream[n - 1].Got? && |sent| == n - 1
    ensures |sent| <= |stream|
    ensures forall i | 0 <= i < |sent| :: stream[i].Got? && decode(stream[i].event) == Success(sent[i])
  {
    var react := UpdateReactor(decode, rename);
    var m := Handled(n, end);
    assert m == Passed(n, end);
    AllDelivered(decode, rename, stream[..m]);
  }

  lemma {:induction false} AllDelivered<R, U, X>(decode: R -> Result<U, X>, rename: int -> X, es: seq<Recv<R>>)
    requires Continues(true, UpdateReactor(decode, rename), es)
    ensures |Image(UpdateReactor(decode, rename), es)| == |es|
    ensures forall i | 0 <= i < |es| ::
              es[i].Got? && decode(es[i].event) == Success(Image(UpdateReactor(decode, rename), es)[i])
  {
    if es != [] {
      var react := UpdateReactor(decode, rename);
      var n := |es| - 1;
      WentOn(true, react, es, |es|, n);
      AllDelivered(decode, rename, es[..n]);
      assert Notices(react(es[n])) == [react(es[n]).notice];
    }
  }

  /** How trackPayment ends at each kind of value: on an unreadable update with its error, on a broken stream
      with what its code stands for, and on the end of the stream without an error. */
  lemma TrackEnds(stream: seq<Recv<RpcPayment>>, env: Surroundings)
    requires |env.moments| == |stream|
    ensures var s := LoopRun(Forwarding(), UpdateReactor(Unmarshal, TrackError), stream, env, |stream|);
            && (s.End().Closed? ==> s.n > 0 && stream[s.n - 1] == Eof)
            && (s.End().Failed? ==> s.n > 0 && stream[s.n - 1] != Eof)
            && (s.End().Failed? && stream[s.n - 1].Got? ==>
                  !Readable(stream[s.n - 1].event) && (s.End().err == BadPreimage || s.End().err == BadHtlc))
            && (s.End().Failed? && stream[s.n - 1].Broken? ==>
                  && (stream[s.n - 1].code == 5 ==> s.End().err == PaymentNotInitiated)
                  && (stream[s.n - 1].code == 6 ==> s.End().err == AlreadyPaid)
                  && (stream[s.n - 1].code !in {5, 6} ==> s.End().err == StreamErr(stream[s.n - 1].code)))
  {
    var s := LoopRun(Forwarding(), UpdateReactor(Unmarshal, TrackError), stream, env, |stream|);
    QuitsExact(Forwarding(), UpdateReactor(Unmarshal, TrackError), stream, env);
    if s.End().Failed? && stream[s.n - 1].Got? {
      StatusFields(stream[s.n - 1].event);
    }
  }
}

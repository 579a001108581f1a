/** PayInvoice: start a payment, or pick up one that is already there, and wait for its result. */
module PaymentResults {
  import opened Wrappers
  import opened Channels
  import opened StreamLoops
  import opened Payments
  import opened Words

  datatype PaymentResult = Paid(feeSat: Uint64, amountSat: Uint64, preimage: Option<Bytes>) | NotPaid(err: Err)

  /** What the call has to say: nothing yet, a nil result, or a result. */
  datatype Verdict = Unsettled | NoResult | Final(result: PaymentResult)

  /** What a value received makes of the payment, if it settles the matter. */
  function Decides(r: Recv<RpcPayment>): Option<Verdict> {
    match r
    case Eof => Some(Final(NotPaid(StreamClosed)))
    case Broken(code) => Some(if code == CANCELED then NoResult else Final(NotPaid(StreamErr(code))))
    case Got(p) =>
      match Unmarshal(p)
      case Failure(e) => Some(Final(NotPaid(e)))
      case Success(s) =>
        if s.state.Succeeded? then Some(Final(Paid(ToSatoshis(s.fee), ToSatoshis(s.value), s.preimage)))
        else if s.state.FailedState? then Some(Final(NotPaid(PaymentFailed(s.reason))))
        else None
  }

  /** The verdict of a stream is that of its first value that settles the matter. */
  function StreamVerdict(es: seq<Recv<RpcPayment>>): Verdict {
    if es == [] then Unsettled
    else match Decides(es[0])
      case Some(v) => v
      case None => StreamVerdict(es[1..])
  }

  /** paymentResultFromStream. */
  method PaymentResultFromStream(stream: seq<Recv<RpcPayment>>) returns (v: Verdict)
    ensures v == StreamVerdict(stream)
  {
    var n := 0;
    while n < |stream|
      invariant n <= |stream|
      invariant StreamVerdict(stream) == StreamVerdict(stream[n..])
    {
      var r := stream[n];
      assert stream[n..][0] == r && stream[n..][1..] == stream[n + 1..];
      n := n + 1;
      if r == Broken(CANCELED) {
        return NoResult;
      }
      if r == Eof {
        return Final(NotPaid(StreamClosed));
      }
      if r.Broken? {
        return Final(NotPaid(StreamErr(r.code)));
      }
      var status := UnmarshallPaymentStatus(r.event);
      if status.Failure? {
        return Final(NotPaid(status.error));
      }
      match status.value.state {
        case Succeeded =>
          return Final(Paid(ToSatoshis(status.value.fee), ToSatoshis(status.value.value), status.value.preimage));
        case FailedState =>
          return Final(NotPaid(PaymentFailed(status.value.reason)));
        case InFlight =>
        case Initiated =>
        case UnknownState =>
      }
    }
    v := Unsettled;
  }

  // ---- the whole call ----

  datatype DecodedInvoice = Undecodable | AmountMissing | Payable(hash: Bytes)

  /** How an RPC that opens a payment stream turns out. */
  datatype Dial = Opened(stream: seq<Recv<RpcPayment>>) | Refused(code: int)

  datatype Call = SendPaymentV2 | TrackPaymentV2(hash: Bytes)

  /** routerClient.payInvoice: `calls` are the RPCs made, in order. */
  method PayInvoice(invoice: DecodedInvoice, send: Dial, track: Dial) returns (v: Verdict, calls: seq<Call>)
    // At most one payment is sent, and tracking is only for one that is already there.
    ensures calls == if !invoice.Payable? then []
                     else if send == Refused(ALREADY_EXISTS) then [SendPaymentV2, TrackPaymentV2(invoice.hash)]
                     else [SendPaymentV2]
    ensures v == InvoiceVerdict(invoice, send, track)
  {
    calls := [];
    if invoice.Undecodable? {
      return Final(NotPaid(BadInvoice)), calls;
    }
    if invoice.AmountMissing? {
      return Final(NotPaid(NoAmount)), calls;
    }
    calls := calls + [SendPaymentV2];
    if send == Refused(CANCELED) {
      return NoResult, calls;
    }
    if send == Refused(ALREADY_EXISTS) {
      calls := calls + [TrackPaymentV2(invoice.hash)];
      if track == Refused(CANCELED) {
        return NoResult, calls;
      }
      if track.Refused? {
        return Final(NotPaid(StreamErr(track.code))), calls;
      }
      v := PaymentResultFromStream(track.stream);
      return;
    }
    if send.Refused? {
      return Final(NotPaid(StreamErr(send.code))), calls;
    }
    v := PaymentResultFromStream(send.stream);
  }

  /** The values that the call takes one after the other: how the RPC that counts turned out, then
      what its stream yields. */
  function Events(send: Dial, track: Dial): seq<Recv<RpcPayment>> {
    var dial := if send == Refused(ALREADY_EXISTS) then track else send;
    match dial
    case Refused(code) => [Broken(code)]
    case Opened(stream) => stream
  }

  function InvoiceVerdict(invoice: DecodedInvoice, send: Dial, track: Dial): Verdict {
    match invoice
    case Undecodable => Final(NotPaid(BadInvoice))
    case AmountMissing => Final(NotPaid(NoAmount))
    case Payable(_) => StreamVerdict(Events(send, track))
  }

  /** LightningClient.PayInvoice: the caller's channel has one slot and is never closed, so the
      goroutine never waits for the caller. */
  method PayInvoiceAsync(invoice: DecodedInvoice, send: Dial, track: Dial) returns (results: Chan<PaymentResult>)
    ensures fresh(results) && !results.closed && results.cap == 1
    ensures var v := InvoiceVerdict(invoice, send, track);
            results.sent == if v.Final? then [v.result] else []
  {
    results := new Chan(1);
    var v, calls := PayInvoice(invoice, send, track);
    if v.Final? {
      results.Send(v.result);
    }
  }

  // ---- what decides ----

  predicate Undecided(es: seq<Recv<RpcPayment>>) {
    forall i | 0 <= i < |es| :: Decides(es[i]).None?
  }

  /** However many updates of a payment in flight come first, they do not matter. */
  lemma {:induction false} InFlightIrrelevant(before: seq<Recv<RpcPayment>>, es: seq<Recv<RpcPayment>>)
    requires Undecided(before)
    ensures StreamVerdict(before + es) == StreamVerdict(es)
  {
    if before == [] {
      assert before + es == es;
    } else {
      assert (before + es)[1..] == before[1..] + es;
      InFlightIrrelevant(before[1..], es);
    }
  }

  /** Nothing that comes after the first decisive value matters either. */
  lemma {:induction false} RestIrrelevant(es: seq<Recv<RpcPayment>>, after: seq<Recv<RpcPayment>>)
    requires !Undecided(es)
    ensures StreamVerdict(es + after) == StreamVerdict(es)
  {
    assert (es + after)[1..] == es[1..] + after;
    if Decides(es[0]).None? {
      assert !Undecided(es[1..]) by {
        var i :| 0 <= i < |es| && Decides(es[i]).Some?;
        assert es[1..][i - 1] == es[i];
      }
      RestIrrelevant(es[1..], after);
    }
  }

  /** The verdict is that of the value at k, for the one k before which nothing is decided. */
  lemma {:induction false} FirstDecides(es: seq<Recv<RpcPayment>>, k: nat)
    requires k < |es| && Undecided(es[..k]) && Decides(es[k]).Some?
    ensures StreamVerdict(es) == Decides(es[k]).value
  {
    InFlightIrrelevant(es[..k], es[k..]);
    assert es[..k] + es[k..] == es;
  }

  lemma {:induction false} StillUnsettled(es: seq<Recv<RpcPayment>>)
    ensures StreamVerdict(es).Unsettled? <==> Undecided(es)
  {
    if es != [] && Decides(es[0]).None? {
      StillUnsettled(es[1..]);
      assert forall i | 1 <= i < |es| :: es[i] == es[1..][i - 1];
    }
  }

  ghost predicate CanceledFirst(es: seq<Recv<RpcPayment>>) {
    exists k :: 0 <= k < |es| && es[k] == Broken(CANCELED) && Undecided(es[..k])
  }

  /** The call ends without a result exactly when Canceled comes first. */
  lemma {:induction false} NoResultExactly(es: seq<Recv<RpcPayment>>)
    ensures StreamVerdict(es).NoResult? <==> CanceledFirst(es)
  {
    if es != [] {
      if Decides(es[0]).None? {
        NoResultExactly(es[1..]);
        if StreamVerdict(es).NoResult? {
          var k :| 0 <= k < |es[1..]| && es[1..][k] == Broken(CANCELED) && Undecided(es[1..][..k]);
          assert es[..k + 1] == [es[0]] + es[1..][..k];
          assert es[k + 1] == Broken(CANCELED) && Undecided(es[..k + 1]);
        }
        if k :| 0 <= k < |es| && es[k] == Broken(CANCELED) && Undecided(es[..k]) {
          assert es[1..][..k - 1] == es[..k][1..] && es[1..][k - 1] == es[k];
        }
      } else {
        assert es[..0] == [];
        assert forall k | 0 < k <= |es| :: es[..k][0] == es[0];
      }
    }
  }

  /** So PayInvoice reports nothing exactly when its invoice is fine and Canceled came first, from
      the RPC or from its stream. */
  lemma InvoiceNoResult(invoice: DecodedInvoice, send: Dial, track: Dial)
    ensures InvoiceVerdict(invoice, send, track).NoResult? <==>
            invoice.Payable? && CanceledFirst(Events(send, track))
  {
    NoResultExactly(Events(send, track));
  }

  // ---- the result, in terms of what is received alone ----

  /** An update that can be read, of a payment that has neither succeeded nor failed. */
  predicate StillPending(r: Recv<RpcPayment>) {
    r.Got? && !r.event.state.Succeeded? && !r.event.state.FailedState? && forall h | h in r.event.htlcs :: h.decodable
  }

  lemma PendingUndecided(r: Recv<RpcPayment>)
    ensures StillPending(r) <==> Decides(r).None?
  {
    if r.Got? {
      StatusFields(r.event);
    }
  }

  /** With nothing but such updates there is no result yet. */
  lemma PendingUnsettled(es: seq<Recv<RpcPayment>>)
    ensures StreamVerdict(es).Unsettled? <==> forall i | 0 <= i < |es| :: StillPending(es[i])
  {
    forall i | 0 <= i < |es| {
      PendingUndecided(es[i]);
    }
    StillUnsettled(es);
  }

  /** Otherwise the first value of another kind, here at k, gives the result: a payment that succeeded its
      amounts in satoshis and its preimage, one that failed its reason, and anything else its error. */
  lemma VerdictExactly(es: seq<Recv<RpcPayment>>, k: nat)
    requires k < |es| && !StillPending(es[k]) && forall i | 0 <= i < k :: StillPending(es[i])
    ensures es[k] == Eof ==> StreamVerdict(es) == Final(NotPaid(StreamClosed))
    ensures es[k] == Broken(1) ==> StreamVerdict(es) == NoResult
    ensures es[k].Broken? && es[k].code != 1 ==> StreamVerdict(es) == Final(NotPaid(StreamErr(es[k].code)))
    ensures es[k].Got? && es[k].event.state.Succeeded? && es[k].event.preimage.BadText? ==>
              StreamVerdict(es) == Final(NotPaid(BadPreimage))
    ensures es[k].Got? && Readable(es[k].event) && es[k].event.state.Succeeded? ==>
              && StreamVerdict(es).Final? && StreamVerdict(es).result.Paid?
              && var paid, p := StreamVerdict(es).result, es[k].event;
              && paid.feeSat == (p.feeMsat + (if p.feeMsat < 0 then 0x1_0000_0000_0000_0000 else 0)) / 1000
              && paid.amountSat == (p.valueMsat + (if p.valueMsat < 0 then 0x1_0000_0000_0000_0000 else 0)) / 1000
              && paid.preimage == if p.preimage.Preimage? then Some(p.preimage.bytes) else None
    ensures es[k].Got? && Readable(es[k].event) && es[k].event.state.FailedState? ==>
              StreamVerdict(es) == Final(NotPaid(PaymentFailed(es[k].event.reason)))
    ensures es[k].Got? && !Readable(es[k].event) && !(es[k].event.state.Succeeded? && es[k].event.preimage.BadText?) ==>
              StreamVerdict(es) == Final(NotPaid(BadHtlc))
  {
    forall i | 0 <= i < |es| {
      PendingUndecided(es[i]);
    }
    FirstDecides(es, k);
    if es[k].Got? {
      StatusFields(es[k].event);
    }
  }

  /** So the call reports a payment as made exactly if that first value is one that succeeded and can be
      read, and as failed for a reason exactly if it is one that failed for that reason. */
  lemma PaidExactly(es: seq<Recv<RpcPayment>>, reason: int)
    ensures StreamVerdict(es).Final? && StreamVerdict(es).result.Paid?
      <==> exists k: nat :: FirstOther(es, k) && es[k].Got? && Readable(es[k].event) && es[k].event.state.Succeeded?
    ensures StreamVerdict(es) == Final(NotPaid(PaymentFailed(reason)))
      <==> exists k: nat :: FirstOther(es, k) && es[k].Got? && Readable(es[k].event)
                            && es[k].event.state.FailedState? && es[k].event.reason == reason
  {
    PendingUnsettled(es);
    forall k: nat | FirstOther(es, k)
      ensures forall j: nat | FirstOther(es, j) :: j == k
    {
    }
    if !StreamVerdict(es).Unsettled? {
      var k := FindOther(es);
      VerdictExactly(es, k);
    }
  }

  predicate FirstOther(es: seq<Recv<RpcPayment>>, k: nat) {
    k < |es| && !StillPending(es[k]) && forall i | 0 <= i < k :: StillPending(es[i])
  }

  lemma FindOther(es: seq<Recv<RpcPayment>>) returns (k: nat)
    requires !forall i | 0 <= i < |es| :: StillPending(es[i])
    ensures FirstOther(es, k)
  {
    k := 0;
    while StillPending(es[k])
      invariant k < |es| && forall i | 0 <= i < k :: StillPending(es[i])
      decreases |es| - k
    {
      k := k + 1;
    }
  }

  /** What the call makes of the invoice and of the two RPCs: gRPC code 1 is Canceled, 6 AlreadyExists. */
  lemma InvoiceCases(invoice: DecodedInvoice, send: Dial, track: Dial)
    ensures invoice == Undecodable ==> InvoiceVerdict(invoice, send, track) == Final(NotPaid(BadInvoice))
    ensures invoice == AmountMissing ==> InvoiceVerdict(invoice, send, track) == Final(NotPaid(NoAmount))
    ensures invoice.Payable? && send.Opened? ==> InvoiceVerdict(invoice, send, track) == StreamVerdict(send.stream)
    ensures invoice.Payable? && send == Refused(1) ==> InvoiceVerdict(invoice, send, track) == NoResult
    ensures invoice.Payable? && send.Refused? && send.code !in {1, 6} ==>
              InvoiceVerdict(invoice, send, track) == Final(NotPaid(StreamErr(send.code)))
    ensures invoice.Payable? && send == Refused(6) && track.Opened? ==>
              InvoiceVerdict(invoice, send, track) == StreamVerdict(track.stream)
    ensures invoice.Payable? && send == Refused(6) && track == Refused(1) ==>
              InvoiceVerdict(invoice, send, track) == NoResult
    ensures invoice.Payable? && send == Refused(6) && track.Refused? && track.code != 1 ==>
              InvoiceVerdict(invoice, send, track) == Final(NotPaid(StreamErr(track.code)))
  {
    if invoice.Payable? {
      var es := Events(send, track);
      if |es| == 1 && es[0].Broken? {
        VerdictExactly(es, 0);
      }
    }
  }
}

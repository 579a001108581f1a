/** What holds in every run of InterceptHtlcs and HtlcModifier while the session is open. */
module InterceptionSafety {
  import opened Wrappers
  import opened Interception
  import opened InterceptionInvariant
  import opened Words

  /** Every well-formed request received is held by the reader or the main loop, in a live handler,
      answered, failed, or dropped by the reader on its way out, and in one of these only. */
  lemma Conservation(p: Protocol, s: State)
    requires Reachable(p, s)
    ensures |s.log.received| == Bit(s.reader.Offering?) + Bit(s.main.Spawning?)
            + (|s.h.calling| + |s.h.building| + |s.h.sending|) + |s.log.sent| + |s.log.failed| + |s.log.dropped|
    ensures |s.log.dropped| <= 1 && (s.log.dropped != {} ==> s.done || s.quit)
    ensures forall i: nat :: Places(s, i) == Bit(i < |s.log.received|)
  {
    ReachableInv(p, s);
  }

  lemma {:induction false} OccursTwice(sent: seq<Answer>, j: nat, k: nat)
    requires j < k < |sent| && sent[j].id == sent[k].id
    ensures Occurrences(sent, sent[k].id) >= 2
  {
    var front := sent[..|sent| - 1];
    if k < |sent| - 1 {
      OccursTwice(front, j, k);
    } else {
      OccursAt(front, j);
    }
  }

  lemma {:induction false} OccursAt(sent: seq<Answer>, k: nat)
    requires k < |sent|
    ensures Occurrences(sent, sent[k].id) >= 1
  {
    if k < |sent| - 1 {
      OccursAt(sent[..|sent| - 1], k);
    }
  }

  lemma SentOnce(s: State, i: nat)
    requires Placed(s)
    ensures Occurrences(s.log.sent, i) <= 1
  {
    assert Places(s, i) <= 1;
  }

  /** No request is answered twice. */
  lemma AnsweredOnce(p: Protocol, s: State, j: nat, k: nat)
    requires Reachable(p, s) && j < k < |s.log.sent|
    ensures s.log.sent[j].id != s.log.sent[k].id
  {
    ReachableInv(p, s);
    if s.log.sent[j].id == s.log.sent[k].id {
      OccursTwice(s.log.sent, j, k);
      SentOnce(s, s.log.sent[k].id);
    }
  }

  /** Each message on the wire answers a request received. For InterceptHtlcs it carries that
      request's own raw circuit key; for HtlcModifier it carries the key that the handler supplied,
      which is the raw key again when the handler passes on the key it was given. */
  lemma AnswersItsRequest(p: Protocol, s: State, k: nat)
    requires Reachable(p, s) && k < |s.log.sent|
    ensures var Answer(id, d) := s.log.sent[k];
            && id < |s.log.received| && s.log.received[id].key.Some?
            && var raw := s.log.received[id].key.value;
            && d.req.key == Unpack(raw)
            && (p.HtlcModifier? ==> d.reply.Modified? && d.msg.key == Pack(d.reply.key))
            && (p.InterceptHtlcs? || d.reply.key == d.req.key ==> d.msg.key == raw)
  {
    ReachableInv(p, s);
    var Answer(id, d) := s.log.sent[k];
    assert Decoded(p, s.log.received, id, d.req) && Built(p, d);
    BuiltKey(p, d, s.log.received[id].key.value);
  }

  lemma BuiltKey(p: Protocol, d: Draft, raw: RawKey)
    requires Built(p, d) && d.req.key == Unpack(raw)
    ensures p.HtlcModifier? ==> d.reply.Modified? && d.msg.key == Pack(d.reply.key)
    ensures p.InterceptHtlcs? || d.reply.key == d.req.key ==> d.msg.key == raw
  {
    PackUnpack(raw);
  }

  /** What a handler of InterceptHtlcs decides about an HTLC. */
  datatype Decision =
    | Settle(preimage: Bytes)
    | FailWith(message: Bytes, code: int)
    | Resume
    | ResumeWith(inAmount: bv64, outAmount: bv64, records: Bytes)

  /** What the handler's response says; nothing if it contradicts itself. */
  function Decided(r: Response): Option<Decision>
    requires r.Intercepted?
  {
    if r.action == ACTION_SETTLE && r.preimage.Some? then Some(Settle(r.preimage.value))
    else if r.action == ACTION_FAIL && (r.failureMessage == [] || r.failureCode == 0) then
      Some(FailWith(r.failureMessage, r.failureCode))
    else if r.action == ACTION_RESUME then Some(Resume)
    else if r.action == ACTION_RESUME_MODIFIED then Some(ResumeWith(r.incomingAmount, r.outgoingAmount, r.records))
    else None
  }

  /** What lnd reads from a message: each field only with the action that it belongs to. */
  function Read(m: Message): Option<Decision> {
    if !m.Resolution? then None
    else match m.action
      case SETTLE => if m.preimage.Some? then Some(Settle(m.preimage.value)) else None
      case FAIL => Some(FailWith(m.failureMessage, m.failureCode))
      case RESUME => Some(Resume)
      case RESUME_MODIFIED => Some(ResumeWith(m.inAmount, m.outAmount, m.outRecords))
  }

  /** A response is turned into a message exactly if it decides something; lnd then reads just that
      decision from it, and no field is set that belongs to another action, but for the preimage. */
  lemma MessageMeansResponse(request: Request, r: Response)
    requires r.Intercepted?
    ensures var built := RpcInterceptorResponse(request, r);
            && (built.Success? <==> Decided(r).Some?)
            && (built.Success? ==>
                  var m := built.value;
                  && m.Resolution? && m.key == Pack(request.key) && m.preimage == r.preimage && Read(m) == Decided(r)
                  && (m.action != FAIL ==> m.failureMessage == [] && m.failureCode == 0)
                  && (m.action != RESUME_MODIFIED ==> m.inAmount == 0 && m.outAmount == 0 && m.outRecords == []))
  {
  }

  /** While the main loop runs and neither the context nor quit is done, every error passed to
      sendErr is still waiting there or in the error channel, unchanged. */
  lemma NoErrorLost(p: Protocol, s: State, w: Who)
    requires Reachable(p, s) && !s.done && !s.quit && (s.main.Selecting? || s.main.Spawning?)
    requires w in s.log.reports
    ensures w !in s.log.lost && Pending(s, w) != InSlot(s, w)
    ensures InSlot(s, w) ==> s.slot.value.err == s.log.reports[w]
    ensures w.Reader? && Pending(s, w) ==> s.reader.err == s.log.reports[w]
    ensures w.Handler? && Pending(s, w) ==> s.h.reporting[w.id] == s.log.reports[w]
  {
    ReachableInv(p, s);
    assert ReportPlaces(s, w) == 1;
  }

  /** Then the main loop can stop with an error: at once, after a pending one is sent, and after the
      handler is started that it may be about to start. */
  lemma ErrorReachesMain(p: Protocol, s: State, w: Who) returns (ls: seq<Label>, t: State)
    requires Reachable(p, s) && !s.done && !s.quit && (s.main.Selecting? || s.main.Spawning?)
    requires w in s.log.reports
    ensures |ls| <= 3 && Runs(p, s, ls, t)
    ensures t.main.Returning? && t.main.out.Took?
    ensures s.slot.None? ==> t.main.out.report == Report(w, s.log.reports[w])
    ensures s.slot.Some? ==> t.main.out.report == s.slot.value
  {
    NoErrorLost(p, s, w);
    if s.main.Spawning? {
      var m := Apply(p, s, Mn(MnSpawn));
      var rest;
      rest, t := TakesError(p, m, w, s.log.reports[w]);
      ls := [Mn(MnSpawn)] + rest;
      assert ls[1..] == rest;
    } else {
      ls, t := TakesError(p, s, w, s.log.reports[w]);
    }
  }

  lemma TakesError(p: Protocol, s: State, w: Who, e: Err) returns (ls: seq<Label>, t: State)
    requires s.main.Selecting? && (Pending(s, w) || s.slot.Some?)
    requires w.Reader? && Pending(s, w) ==> s.reader.err == e
    requires w.Handler? && Pending(s, w) ==> s.h.reporting[w.id] == e
    ensures |ls| <= 2 && Runs(p, s, ls, t)
    ensures t.main.Returning? && t.main.out.Took?
    ensures t.main.out.report == if s.slot.Some? then s.slot.value else Report(w, e)
  {
    if s.slot.Some? {
      ls, t := [Mn(MnTake)], Apply(p, s, Mn(MnTake));
      assert Runs(p, t, [], t);
    } else {
      var put := if w.Reader? then Rd(RdPut) else Hd(w.id, HdPut);
      var m := Apply(p, s, put);
      ls, t := [put, Mn(MnTake)], Apply(p, m, Mn(MnTake));
      assert ls[1..] == [Mn(MnTake)] && ls[1..][1..] == [];
      assert Runs(p, t, [], t);
      assert Runs(p, m, ls[1..], t);
    }
  }

  function ReturnValue(out: Outcome): Err {
    match out
    case Took(r) => r.err
    case SawQuit => ShuttingDown
    case SawContext => ContextDone
  }

  /** What the call returns is an error that one of its goroutines produced, or the shutdown error
      with quit closed, or the context's error with the context done. A shutdown or context error
      that the reader produced has the same cause. */
  lemma ReturnExplained(p: Protocol, s: State)
    requires Reachable(p, s) && s.main.Returned?
    ensures match s.main.out
            case Took(r) =>
              && ReturnValue(s.main.out) == r.err
              && r.who in s.log.reports && s.log.reports[r.who] == r.err && r.who !in s.log.lost
              && (r == Report(Reader, ShuttingDown) ==> s.quit)
              && (r == Report(Reader, ContextDone) ==> s.done)
            case SawQuit => s.quit && ReturnValue(s.main.out) == ShuttingDown
            case SawContext => s.done && ReturnValue(s.main.out) == ContextDone
  {
    ReachableInv(p, s);
    if s.main.out.Took? {
      var w := s.main.out.report.who;
      assert Taken(s, w) && ReportPlaces(s, w) <= 1;
    }
  }

  /** The wait group counts the goroutines that were added and are not done, so it is never negative. */
  lemma WaitGroupExact(p: Protocol, s: State)
    requires Reachable(p, s)
    ensures s.wg == Bit(!s.reader.Gone?) + Handlers(s)
    ensures s.wg >= 0
    ensures s.wg == 0 <==> s.reader.Gone? && s.h == NO_WORKERS
  {
    ReachableInv(p, s);
    if Handlers(s) == 0 {
      assert s.h.calling == map[] && s.h.building == map[] && s.h.sending == map[] && s.h.reporting == map[];
    }
  }
}

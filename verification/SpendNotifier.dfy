/** RegisterSpendNtfn: the goroutine that passes on spends and re-orgs. Unlike that of confirmations it
    passes over re-org signals once its context is done, and goes on. */
module SpendNotifier {
  import opened Wrappers
  import opened Channels
  import opened StreamLoops
  import opened LoopRuns
  import opened Words
  import opened ChainNotifier

  // ---- spends ----

  datatype RawSpend = RawSpend(outpointHash: Bytes, outpointIndex: Uint32, spenderTxHash: Bytes, inputIndex: Uint32,
                               rawTx: Bytes, height: Uint32)

  datatype Spend = Spend(outpointHash: Bytes, outpointIndex: Uint32, spenderTxHash: Bytes, inputIndex: Uint32,
                         tx: Bytes, height: int)

  function DecodeSpend(ps: Parsers, raw: RawSpend): Result<Spend, DecodeErr> {
    match MakeHash(raw.outpointHash)
    case Failure(e) => Failure(e)
    case Success(outpoint) =>
      match MakeHash(raw.spenderTxHash)
      case Failure(e) => Failure(e)
      case Success(spender) =>
        match ps.tx(raw.rawTx)
        case None => Failure(BadTx)
        case Some(tx) =>
          Success(Spend(outpoint, raw.outpointIndex, spender, raw.inputIndex, tx, AsInt32(raw.height)))
  }

  function SpendDecoder(ps: Parsers): RawSpend -> Result<Spend, DecodeErr> {
    raw => DecodeSpend(ps, raw)
  }

  function EncodeSpend(ws: Writers, s: Spend): RawSpend {
    RawSpend(s.outpointHash, s.outpointIndex, s.spenderTxHash, s.inputIndex, ws.tx(s.tx), s.height % TWO_TO_THE_32)
  }

  /** A spend that lnd sends is decoded to itself, exactly if its height fits in an int32. */
  lemma SpendRoundTrip(ps: Parsers, ws: Writers, s: Spend)
    requires |s.outpointHash| == HASH_SIZE && |s.spenderTxHash| == HASH_SIZE && ps.tx(ws.tx(s.tx)) == Some(s.tx)
    ensures DecodeSpend(ps, EncodeSpend(ws, s)) == Success(s) <==> -TWO_TO_THE_31 <= s.height < TWO_TO_THE_31
  {
  }

  // ---- the goroutine ----

  /** It puts the context's error on the error channel when its select with a spend sees the context
      done, and passes over a re-org when its select with that does. */
  function SpendDiscipline<N>(reorgAware: bool): Discipline<Notice<N>, Err> {
    Discipline(reorgAware, 1, (f: Notice<N>) => f.Reorged?,
               (f: Notice<N>) => if f.Reorged? then Skip else Report(ContextDone))
  }

  /** The select of processSpendDetail, and what the loop makes of its result. */
  method PassOn<N>(fact: N, spendChan: Chan<N>, errChan: Chan<Err>, reorgAware: bool, ghost reorgChan: Chan<Unit>,
                   env: Surroundings, s: Loop<Notice<N>, Err>, ghost base: seq<Unit>)
    returns (t: Loop<Notice<N>, Err>)
    requires s.n < |env.moments| && s.stop.None? && Agrees(env, s, base, spendChan, reorgChan)
    requires errChan.Valid() && errChan.cap == 1 && errChan.sent == [] && !errChan.closed
    requires reorgChan as object != spendChan && errChan as object != spendChan && reorgChan as object != errChan
    modifies spendChan`len, spendChan`waiting, spendChan`sent, errChan`len, errChan`waiting, errChan`sent
    ensures t == Turn(SpendDiscipline(reorgAware), Deliver(Fact(fact)), env, s)
    ensures Agrees(env, t, base, spendChan, reorgChan)
    ensures errChan.Valid() && errChan.sent == if t.End().Failed? then [t.End().err] else []
  {
    var o;
    o, t := OfferFact(fact, spendChan, reorgChan, env, s, base);
    match o {
      case Sent =>
        t := t.(stop := if reorgAware then None else Some(Finished));
      case SawDone =>
        errChan.Send(ContextDone);
        t := t.(stop := Some(Failed(ContextDone)));
      case Waiting =>
        t := t.(stop := Some(Blocked));
    }
  }

  /** processSpendDetail. */
  method ProcessSpendDetail<R, N>(decode: R -> Result<N, DecodeErr>, raw: R, spendChan: Chan<N>, errChan: Chan<Err>,
                                  reorgAware: bool, ghost reorgChan: Chan<Unit>, env: Surroundings,
                                  s: Loop<Notice<N>, Err>, ghost base: seq<Unit>)
    returns (t: Loop<Notice<N>, Err>)
    requires s.n < |env.moments| && s.stop.None? && Agrees(env, s, base, spendChan, reorgChan)
    requires errChan.Valid() && errChan.cap == 1 && errChan.sent == [] && !errChan.closed
    requires reorgChan as object != spendChan && errChan as object != spendChan && reorgChan as object != errChan
    modifies spendChan`len, spendChan`waiting, spendChan`sent, errChan`len, errChan`waiting, errChan`sent
    ensures t == Turn(SpendDiscipline(reorgAware), EventReaction(decode, reorgAware, Got(Seen(raw))), env, s)
    ensures Agrees(env, t, base, spendChan, reorgChan)
    ensures errChan.Valid() && errChan.sent == if t.End().Failed? then [t.End().err] else []
  {
    var decoded := decode(raw);
    if decoded.Failure? {
      errChan.Send(Undecodable(decoded.error));
      return Fails(s, Undecodable(decoded.error));
    }
    t := PassOn(decoded.value, spendChan, errChan, reorgAware, reorgChan, env, s, base);
  }

  /** processReorg. */
  method ProcessReorg<N>(ghost spendChan: Chan<N>, reorgAware: bool, reorgChan: Chan<Unit>, env: Surroundings,
                         s: Loop<Notice<N>, Err>, ghost base: seq<Unit>)
    returns (t: Loop<Notice<N>, Err>)
    requires s.n < |env.moments| && s.stop.None?
    requires Agrees(env, s, base, spendChan, reorgChan) && reorgChan as object != spendChan
    modifies reorgChan`len, reorgChan`waiting, reorgChan`sent
    ensures t == Turn(SpendDiscipline(reorgAware), if reorgAware then Deliver(Reorged) else Ignore, env, s)
    ensures Agrees(env, t, base, spendChan, reorgChan) && !t.End().Failed?
  {
    if !reorgAware {
      return s.(n := s.n + 1);
    }
    var o;
    o, t := OfferReorg(spendChan, reorgChan, env, s, base);
    match o {
      case Sent =>
      case SawDone =>
        t := t.(skipped := s.skipped + {s.n});
      case Waiting =>
        t := t.(stop := Some(Blocked));
    }
  }

  /** The body of the loop of RegisterSpendNtfn, for one value that Recv returned. */
  method OnSpendEvent<R, N>(decode: R -> Result<N, DecodeErr>, r: Recv<Event<R>>, spendChan: Chan<N>,
                            errChan: Chan<Err>, reorgAware: bool, reorgChan: Chan<Unit>, env: Surroundings,
                            s: Loop<Notice<N>, Err>, ghost base: seq<Unit>)
    returns (t: Loop<Notice<N>, Err>)
    requires s.n < |env.moments| && s.stop.None? && Agrees(env, s, base, spendChan, reorgChan)
    requires errChan.Valid() && errChan.cap == 1 && errChan.sent == [] && !errChan.closed
    requires reorgChan as object != spendChan && errChan as object != spendChan && reorgChan as object != errChan
    modifies spendChan`len, spendChan`waiting, spendChan`sent, errChan`len, errChan`waiting, errChan`sent
    modifies reorgChan`len, reorgChan`waiting, reorgChan`sent
    ensures t == Turn(SpendDiscipline(reorgAware), EventReaction(decode, reorgAware, r), env, s)
    ensures Agrees(env, t, base, spendChan, reorgChan)
    ensures errChan.Valid() && errChan.sent == if t.End().Failed? then [t.End().err] else []
  {
    match r {
      case Got(Seen(raw)) =>
        t := ProcessSpendDetail(decode, raw, spendChan, errChan, reorgAware, reorgChan, env, s, base);

      case Got(Reorg) =>
        t := ProcessReorg(spendChan, reorgAware, reorgChan, env, s, base);

      case Broken(code) =>
        errChan.Send(StreamBroken(code));
        t := Fails(s, StreamBroken(code));

      case Eof =>
        errChan.Send(StreamEnded);
        t := Fails(s, StreamEnded);

      case Got(NilEvent) =>
        errChan.Send(EventEmpty);
        t := Fails(s, EventEmpty);

      case Got(OtherEvent) =>
        errChan.Send(EventUnexpected);
        t := Fails(s, EventUnexpected);
    }
  }

  function SpendRun<R, N>(decode: R -> Result<N, DecodeErr>, reorgAware: bool, es: seq<Recv<Event<R>>>,
                          env: Surroundings): Loop<Notice<N>, Err>
    requires |es| == |env.moments|
  {
    LoopRun(SpendDiscipline(reorgAware), Reactor(decode, reorgAware), es, env, |es|)
  }

  /** One run of the goroutine that RegisterSpendNtfn starts, on a stream that yields the given values
      and in the given surroundings. */
  method SpendLoop<R, N>(decode: R -> Result<N, DecodeErr>, stream: seq<Recv<Event<R>>>, env: Surroundings,
                         spendChan: Chan<N>, errChan: Chan<Err>, reorgAware: bool, reorgChan: Chan<Unit>)
    returns (s: Loop<Notice<N>, Err>)
    requires |env.moments| == |stream|
    requires spendChan.Valid() && spendChan.cap == 1 && spendChan.len == 0 && spendChan.sent == [] && !spendChan.closed
    requires errChan.Valid() && errChan.cap == 1 && errChan.sent == [] && !errChan.closed
    requires reorgChan.Valid() && reorgChan.cap == env.otherCap && reorgChan.len == env.otherLen && !reorgChan.closed
    requires reorgChan as object != spendChan && errChan as object != spendChan && reorgChan as object != errChan
    modifies spendChan`len, spendChan`waiting, spendChan`sent, errChan`len, errChan`waiting, errChan`sent
    modifies reorgChan`len, reorgChan`waiting, reorgChan`sent
    ensures s == SpendRun(decode, reorgAware, stream, env)
    ensures spendChan.sent == Facts(s.trace)
    ensures reorgChan.sent == old(reorgChan.sent) + Reorgs(s.trace)
    ensures errChan.sent == if s.End().Failed? then [s.End().err] else []
  {
    ghost var d := SpendDiscipline(reorgAware);
    ghost var react := Reactor(decode, reorgAware);
    ghost var base := reorgChan.sent;
    s := Start(env);
    for n := 0 to |stream|
      invariant s.stop.None? && s == LoopRun(d, react, stream, env, n)
      invariant Agrees(env, s, base, spendChan, reorgChan)
      invariant errChan.Valid() && errChan.sent == []
    {
      LoopRunTurn(d, react, stream, env, s);
      s := OnSpendEvent(decode, stream[n], spendChan, errChan, reorgAware, reorgChan, env, s, base);
      if s.stop.Some? {
        return;
      }
    }
  }

  /** RegisterSpendNtfn: blocks cannot be asked for; the channels are new, and the goroutine's. */
  method RegisterSpendNtfn(ps: Parsers, includeBlock: bool, stream: seq<Recv<Event<RawSpend>>>, env: Surroundings,
                           reorgAware: bool, reorgChan: Chan<Unit>)
    returns (spendChan: Chan<Spend>, errChan: Chan<Err>, started: bool, s: Loop<Notice<Spend>, Err>)
    requires |env.moments| == |stream|
    requires reorgChan.Valid() && reorgChan.cap == env.otherCap && reorgChan.len == env.otherLen && !reorgChan.closed
    modifies reorgChan`len, reorgChan`waiting, reorgChan`sent
    ensures fresh(spendChan) && fresh(errChan) && (started <==> !includeBlock)
    ensures started ==> s == SpendRun(SpendDecoder(ps), reorgAware, stream, env)
    ensures started ==> spendChan.sent == Facts(s.trace)
    ensures started ==> reorgChan.sent == old(reorgChan.sent) + Reorgs(s.trace)
    ensures started ==> errChan.sent == if s.End().Failed? then [s.End().err] else []
    ensures !started ==> reorgChan.sent == old(reorgChan.sent) && spendChan.sent == [] && errChan.sent == []
  {
    spendChan := new Chan(1);
    errChan := new Chan(1);
    started := !includeBlock;
    s := Start(env);
    if started {
      s := SpendLoop(SpendDecoder(ps), stream, env, spendChan, errChan, reorgAware, reorgChan);
    }
  }

  // ---- what every run amounts to ----

  lemma SpendSteady<R, N>(decode: R -> Result<N, DecodeErr>, reorgAware: bool, es: seq<Recv<Event<R>>>)
    ensures Steady(SpendDiscipline(reorgAware), Reactor(decode, reorgAware), es)
  {
  }

  /** In all surroundings, the sends are the decoded image of a prefix but for the re-orgs passed over,
      each of which was taken in or after the turn of cancellation; the run reports the context only
      then, and waits only before. */
  lemma SpendRunSound<R, N>(decode: R -> Result<N, DecodeErr>, reorgAware: bool, es: seq<Recv<Event<R>>>,
                            env: Surroundings)
    requires |es| == |env.moments|
    ensures var react := Reactor(decode, reorgAware);
            var s := SpendRun(decode, reorgAware, es, env);
            && LoopOf(SpendDiscipline(reorgAware), react, es, env.cancelAt, s)
            && (forall i | i in s.skipped :: env.cancelAt <= i < s.n && es[i] == Got(Reorg) && reorgAware)
            && (s.End() == Failed(ContextDone) ==> env.cancelAt < s.n)
            && (s.End() == Blocked ==> s.n <= env.cancelAt)
            && s.End() != Cancelled
  {
    SpendSteady(decode, reorgAware, es);
    LoopRunSound(SpendDiscipline(reorgAware), Reactor(decode, reorgAware), es, env, |es|);
  }

  /** While nothing was passed over, the spends and re-orgs sent are exactly the decoded image of a
      prefix of the events, as they are for confirmations. */
  lemma SpendExact<R, N>(decode: R -> Result<N, DecodeErr>, reorgAware: bool, es: seq<Recv<Event<R>>>,
                         env: Surroundings)
    requires |es| == |env.moments| && SpendRun(decode, reorgAware, es, env).skipped == {}
    ensures var s := SpendRun(decode, reorgAware, es, env);
            && s.trace == Image(Reactor(decode, reorgAware), es[..Handled(s.n, s.End())])
            && (s.End() != Failed(ContextDone) ==>
                  RunOf(reorgAware, Reactor(decode, reorgAware), es, s.n, s.trace, s.End()))
  {
    var s := SpendRun(decode, reorgAware, es, env);
    SpendRunSound(decode, reorgAware, es, env);
    NothingSkipped(Reactor(decode, reorgAware), es[..Handled(s.n, s.End())]);
  }

  /** Without a re-org channel, at most one spend is delivered over any run, and no re-org; nothing is
      passed over; and the loop never waits, whether or not anybody receives. */
  lemma OneSpend<R, N>(decode: R -> Result<N, DecodeErr>, es: seq<Recv<Event<R>>>, env: Surroundings)
    requires |es| == |env.moments|
    ensures var s := SpendRun(decode, false, es, env);
            && |s.trace| <= 1 && (|s.trace| == 1 <==> s.End().Finished?)
            && |Facts(s.trace)| == |s.trace| && Reorgs(s.trace) == []
            && s.skipped == {} && s.End() != Blocked
  {
    var d, react := SpendDiscipline<N>(false), Reactor(decode, false);
    OneNotice(d, react, es, env, |es|);
    NeverWaits(d, react, es, env, |es|);
    var s := SpendRun(decode, false, es, env);
    if s.stop == Some(Finished) {
      OneFact(react(es[s.n - 1]).notice);
    }
  }

  // ---- when every run is exact ----

  /** The loop takes up a re-org signal that it is to pass on at i, once the context is cancelled. */
  ghost predicate LateReorg<R, N>(decode: R -> Result<N, DecodeErr>, reorgAware: bool, es: seq<Recv<Event<R>>>,
                                  cancelAt: nat, i: nat)
  {
    cancelAt <= i < |es| && reorgAware && es[i] == Got(Reorg) && Continues(true, Reactor(decode, true), es[..i])
  }

  lemma LateReorgIsSkip<R, N>(decode: R -> Result<N, DecodeErr>, reorgAware: bool, es: seq<Recv<Event<R>>>,
                              cancelAt: nat, i: nat)
    ensures LateReorg(decode, reorgAware, es, cancelAt, i)
      <==> LateSkip(SpendDiscipline(reorgAware), Reactor(decode, reorgAware), es, cancelAt, i)
  {
  }

  /** Wherever a re-org signal is taken up once the context is cancelled, some run passes over it and
      goes on. */
  lemma LateReorgSkipped<R, N>(decode: R -> Result<N, DecodeErr>, reorgAware: bool, es: seq<Recv<Event<R>>>,
                               cancelAt: nat, reorgCap: nat, reorgLen: nat, i: nat)
    requires LateReorg(decode, reorgAware, es, cancelAt, i)
    ensures var env := Surroundings(cancelAt, Moments(i, reorgLen, |es|), reorgCap, reorgLen);
            var d, react := SpendDiscipline(reorgAware), Reactor(decode, reorgAware);
            var s := LoopRun(d, react, es, env, i + 1);
            s.stop.None? && i in s.skipped && !ExactRun(d, react, es, env)
  {
    LateReorgIsSkip(decode, reorgAware, es, cancelAt, i);
    SpendSteady(decode, reorgAware, es);
    LateSkipped(SpendDiscipline(reorgAware), Reactor(decode, reorgAware), es, cancelAt, reorgCap, reorgLen, i);
  }

  /** For every stream, every turn of cancellation and every re-org channel: all runs send the exact
      image of what they handled if and only if there is no re-org channel, or no re-org signal is
      taken up once the context is cancelled. */
  lemma SpendExactExactly<R, N>(decode: R -> Result<N, DecodeErr>, reorgAware: bool, es: seq<Recv<Event<R>>>,
                                cancelAt: nat, reorgCap: nat, reorgLen: nat)
    ensures (forall ms: seq<Moment> | |ms| == |es| ::
               ExactRun(SpendDiscipline(reorgAware), Reactor(decode, reorgAware), es,
                        Surroundings(cancelAt, ms, reorgCap, reorgLen)))
      <==> !exists i: nat :: LateReorg(decode, reorgAware, es, cancelAt, i)
  {
    SpendSteady(decode, reorgAware, es);
    ExactExactly(SpendDiscipline(reorgAware), Reactor(decode, reorgAware), es, cancelAt, reorgCap, reorgLen);
    forall i: nat
      ensures LateReorg(decode, reorgAware, es, cancelAt, i)
        <==> LateSkip(SpendDiscipline(reorgAware), Reactor(decode, reorgAware), es, cancelAt, i)
    {
      LateReorgIsSkip(decode, reorgAware, es, cancelAt, i);
    }
  }

  // ---- what is delivered, in terms of events and decoding alone ----

  /** What a spend is decoded to, and which ones cannot be. */
  lemma SpendDecodes(ps: Parsers, raw: RawSpend)
    ensures var r := SpendDecoder(ps)(raw);
            && (r.Success? <==> |raw.outpointHash| == 32 && |raw.spenderTxHash| == 32 && ps.tx(raw.rawTx).Some?)
            && (r.Success? ==> r.value.outpointHash == raw.outpointHash && r.value.outpointIndex == raw.outpointIndex
                               && r.value.spenderTxHash == raw.spenderTxHash && r.value.inputIndex == raw.inputIndex
                               && Some(r.value.tx) == ps.tx(raw.rawTx) && IsSigned(raw.height, r.value.height))
            && (r == Failure(BadHash) <==> |raw.outpointHash| != 32 || |raw.spenderTxHash| != 32)
            && (r == Failure(BadTx) ==> ps.tx(raw.rawTx).None?) && r != Failure(BadBlock)
  {
  }

  /** The spends of a stream that can be decoded, in order. */
  function Spends<R, N>(decode: R -> Result<N, DecodeErr>, es: seq<Recv<Event<R>>>): seq<N> {
    if es == [] then []
    else
      var e := es[|es| - 1];
      Spends(decode, es[..|es| - 1])
      + (if e.Got? && e.event.Seen? && decode(e.event.raw).Success? then [decode(e.event.raw).value] else [])
  }

  lemma {:induction false} FactsOfImage<R, N>(decode: R -> Result<N, DecodeErr>, es: seq<Recv<Event<R>>>,
                                              skipped: set<nat>)
    requires forall i | i in skipped && i < |es| :: es[i] == Got(Reorg)
    ensures Facts(ImageBut(Reactor(decode, true), es, skipped)) == Spends(decode, es)
  {
    if es != [] {
      var n := |es| - 1;
      FactsOfImage(decode, es[..n], skipped);
      var before := ImageBut(Reactor(decode, true), es[..n], skipped);
      ReactsAware(decode, es[n]);
      if n !in skipped && EventReaction(decode, true, es[n]).Deliver? {
        Snoc(before, EventReaction(decode, true, es[n]).notice);
      } else {
        assert before + [] == before;
      }
    }
  }

  /** In re-org aware mode, every spend that is handled is sent, in order, whether or not re-orgs are passed
      over; with nothing passed over, every spend and re-org is, one for one; and the loop ends only at an
      event that spoils the stream, or with the context's error where it had a spend to send. */
  lemma SpendDelivers<R, N>(decode: R -> Result<N, DecodeErr>, es: seq<Recv<Event<R>>>, env: Surroundings)
    requires |es| == |env.moments|
    ensures var s := SpendRun(decode, true, es, env);
            && Handled(s.n, s.End()) <= |es|
            && Facts(s.trace) == Spends(decode, es[..Handled(s.n, s.End())])
            && (s.stop.None? ==> s.n == |es|)
            && (s.stop.Some? ==> s.n > 0 && (s.End().Blocked? || s.End().Failed?))
            && (s.End().Failed? ==>
                  || Spoils(decode, es[s.n - 1], s.End().err)
                  || (s.End().err == ContextDone && env.cancelAt < s.n && Decodable(decode, es[s.n - 1])))
  {
    SpendFacts(decode, es, env);
    SpendStops(decode, es, env);
  }

  lemma SpendFacts<R, N>(decode: R -> Result<N, DecodeErr>, es: seq<Recv<Event<R>>>, env: Surroundings)
    requires |es| == |env.moments|
    ensures var s := SpendRun(decode, true, es, env);
            Handled(s.n, s.End()) <= |es| && Facts(s.trace) == Spends(decode, es[..Handled(s.n, s.End())])
  {
    var s := SpendRun(decode, true, es, env);
    SpendRunSound(decode, true, es, env);
    FactsOfImage(decode, es[..Handled(s.n, s.End())], s.skipped);
  }

  lemma SpendStops<R, N>(decode: R -> Result<N, DecodeErr>, es: seq<Recv<Event<R>>>, env: Surroundings)
    requires |es| == |env.moments|
    ensures var s := SpendRun(decode, true, es, env);
            && (s.stop.None? ==> s.n == |es|)
            && (s.stop.Some? ==> s.n > 0 && (s.End().Blocked? || s.End().Failed?))
            && (s.End().Failed? ==>
                  || Spoils(decode, es[s.n - 1], s.End().err)
                  || (s.End().err == ContextDone && env.cancelAt < s.n && Decodable(decode, es[s.n - 1])))
  {
    var s := SpendRun(decode, true, es, env);
    SpendRunSound(decode, true, es, env);
    if s.stop.Some? {
      ReactsAware(decode, es[s.n - 1]);
    }
  }

  lemma SpendDeliversAll<R, N>(decode: R -> Result<N, DecodeErr>, es: seq<Recv<Event<R>>>, env: Surroundings)
    requires |es| == |env.moments| && SpendRun(decode, true, es, env).skipped == {}
    ensures var s := SpendRun(decode, true, es, env);
            && |s.trace| == Handled(s.n, s.End()) <= |es|
            && (forall i | 0 <= i < |s.trace| :: Says(decode, es[i], s.trace[i]))
  {
    var s := SpendRun(decode, true, es, env);
    SpendRunSound(decode, true, es, env);
    SpendExact(decode, true, es, env);
    assert Handled(s.n, s.End()) == Passed(s.n, s.End());
    AwareImage(decode, es[..Handled(s.n, s.End())]);
  }

  /** Without a re-org channel, only re-orgs are passed by; the first spend that can be decoded is sent, and
      is the last act, unless its select sees the context done; anything else is an error. */
  lemma SpendDeliversOne<R, N>(decode: R -> Result<N, DecodeErr>, es: seq<Recv<Event<R>>>, env: Surroundings)
    requires |es| == |env.moments|
    ensures var s := SpendRun(decode, false, es, env);
            && s.n <= |es| && (forall i | 0 <= i < Passed(s.n, s.End()) :: es[i] == Got(Reorg))
            && (s.stop.None? ==> s.n == |es| && s.trace == [])
            && (s.stop.Some? ==> s.n > 0 && (s.End().Finished? || s.End().Failed?))
            && (s.End().Finished? ==>
                  Decodable(decode, es[s.n - 1]) && s.trace == [Fact(decode(es[s.n - 1].event.raw).value)])
            && (s.End().Failed? ==> s.trace == [])
            && (s.End().Failed? ==>
                  || Spoils(decode, es[s.n - 1], s.End().err)
                  || (s.End().err == ContextDone && env.cancelAt < s.n && Decodable(decode, es[s.n - 1])))
  {
    var d, react := SpendDiscipline<N>(false), Reactor(decode, false);
    var s := SpendRun(decode, false, es, env);
    SpendRunSound(decode, false, es, env);
    OneSpend(decode, es, env);
    OneNotice(d, react, es, env, |es|);
    forall i | 0 <= i < Passed(s.n, s.End())
      ensures es[i] == Got(Reorg)
    {
      WentOn(false, react, es, Passed(s.n, s.End()), i);
      ReactsUnaware(decode, es[i]);
    }
    if s.stop.Some? {
      ReactsUnaware(decode, es[s.n - 1]);
    }
  }
}

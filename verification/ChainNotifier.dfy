/** The notification goroutines of the chain notifier client. Each takes the events of its stream
    one at a time, decodes them and passes them on over channels that others read. */
module ChainNotifier {
  import opened Wrappers
  import opened Channels
  import opened StreamLoops
  import opened LoopRuns
  import opened Words

  datatype DecodeErr = BadTx | BadBlock | BadHash

  datatype Err =
    | StreamBroken(code: int) | StreamEnded
    | Undecodable(why: DecodeErr)
    | EventEmpty | EventUnexpected
    | ContextDone

  /** The transaction and block parsers, which are external code. */
  datatype Parsers = Parsers(tx: Bytes -> Option<Bytes>, block: Bytes -> Option<Bytes>)

  function MakeHash(raw: Bytes): Result<Bytes, DecodeErr> {
    if |raw| == HASH_SIZE then Success(raw) else Failure(BadHash)
  }

  /** The events of a confirmation or spend stream. */
  datatype Event<+R> = Seen(raw: R) | Reorg | NilEvent | OtherEvent

  datatype Notice<+N> = Fact(fact: N) | Reorged

  /** What an event calls for, given how the stream's facts are decoded. */
  function EventReaction<R, N>(decode: R -> Result<N, DecodeErr>, reorgAware: bool, r: Recv<Event<R>>)
    : Reaction<Notice<N>, Err>
  {
    match r
    case Broken(code) => Reject(StreamBroken(code))
    case Eof => Reject(StreamEnded)
    case Got(NilEvent) => Reject(EventEmpty)
    case Got(OtherEvent) => Reject(EventUnexpected)
    case Got(Reorg) => if reorgAware then Deliver(Reorged) else Ignore
    case Got(Seen(raw)) =>
      match decode(raw)
      case Success(fact) => Deliver(Fact(fact))
      case Failure(e) => Reject(Undecodable(e))
  }

  function Reactor<R, N>(decode: R -> Result<N, DecodeErr>, reorgAware: bool)
    : Recv<Event<R>> -> Reaction<Notice<N>, Err>
  {
    r => EventReaction(decode, reorgAware, r)
  }

  // ---- confirmations ----

  datatype RawConf = RawConf(rawTx: Bytes, rawBlock: Bytes, blockHash: Bytes, height: Uint32, txIndex: Uint32)

  datatype Confirmation = Confirmation(height: Uint32, blockHash: Bytes, tx: Bytes, txIndex: Uint32,
                                       block: Option<Bytes>)

  function DecodeConf(ps: Parsers, includeBlock: bool, raw: RawConf): Result<Confirmation, DecodeErr> {
    var tx := ps.tx(raw.rawTx);
    if tx.None? then Failure(BadTx)
    else if includeBlock && ps.block(raw.rawBlock).None? then Failure(BadBlock)
    else match MakeHash(raw.blockHash)
      case Failure(e) => Failure(e)
      case Success(hash) =>
        Success(Confirmation(raw.height, hash, tx.value, raw.txIndex,
                             if includeBlock then ps.block(raw.rawBlock) else None))
  }

  function ConfDecoder(ps: Parsers, includeBlock: bool): RawConf -> Result<Confirmation, DecodeErr> {
    raw => DecodeConf(ps, includeBlock, raw)
  }

  /** How lnd writes transactions and blocks: the parsers read back what it wrote. */
  datatype Writers = Writers(tx: Bytes -> Bytes, block: Bytes -> Bytes)

  function EncodeConf(ws: Writers, c: Confirmation): RawConf {
    RawConf(ws.tx(c.tx), if c.block.Some? then ws.block(c.block.value) else [], c.blockHash, c.height, c.txIndex)
  }

  /** A confirmation that lnd sends is decoded to itself, with its block exactly if one was asked for. */
  lemma ConfRoundTrip(ps: Parsers, ws: Writers, c: Confirmation, includeBlock: bool)
    requires |c.blockHash| == HASH_SIZE && ps.tx(ws.tx(c.tx)) == Some(c.tx)
    requires c.block.Some? ==> ps.block(ws.block(c.block.value)) == c.block
    requires includeBlock ==> c.block.Some?
    ensures DecodeConf(ps, includeBlock, EncodeConf(ws, c)) == Success(if includeBlock then c else c.(block := None))
  {
  }

  /** What a confirmation is decoded to, and which ones cannot be. */
  lemma ConfDecodes(ps: Parsers, includeBlock: bool, raw: RawConf)
    ensures var r := ConfDecoder(ps, includeBlock)(raw);
            && (r.Success? <==> ps.tx(raw.rawTx).Some? && |raw.blockHash| == 32
                                && (includeBlock ==> ps.block(raw.rawBlock).Some?))
            && (r.Success? ==> r.value.height == raw.height && r.value.blockHash == raw.blockHash
                               && Some(r.value.tx) == ps.tx(raw.rawTx) && r.value.txIndex == raw.txIndex
                               && r.value.block == if includeBlock then ps.block(raw.rawBlock) else None)
            && (r == Failure(BadTx) <==> ps.tx(raw.rawTx).None?)
            && (r == Failure(BadBlock) ==> includeBlock && ps.block(raw.rawBlock).None?)
            && (r == Failure(BadHash) ==> |raw.blockHash| != 32)
  {
  }

  // ---- what a prefix of a stream amounts to ----

  function Facts<N>(trace: seq<Notice<N>>): seq<N> {
    if trace == [] then []
    else
      var t := trace[|trace| - 1];
      Facts(trace[..|trace| - 1]) + (if t.Fact? then [t.fact] else [])
  }

  function Reorgs<N>(trace: seq<Notice<N>>): seq<Unit> {
    if trace == [] then []
    else
      var t := trace[|trace| - 1];
      Reorgs(trace[..|trace| - 1]) + (if t.Reorged? then [Unit] else [])
  }

  lemma {:induction false} Snoc<N>(trace: seq<Notice<N>>, t: Notice<N>)
    ensures Facts(trace + [t]) == Facts(trace) + (if t.Fact? then [t.fact] else [])
    ensures Reorgs(trace + [t]) == Reorgs(trace) + (if t.Reorged? then [Unit] else [])
  {
    assert (trace + [t])[..|trace|] == trace;
  }

  // ---- sending notices ----

  /** The state says what is in the two channels that are sent on; `base` was sent before the run. */
  ghost predicate Agrees<N>(env: Surroundings, s: Loop<Notice<N>, Err>, base: seq<Unit>, factChan: Chan<N>,
                            reorgChan: Chan<Unit>)
    reads factChan, reorgChan
  {
    && factChan.Valid() && !factChan.closed && factChan.cap == 1
    && factChan.len == s.len && factChan.sent == Facts(s.trace)
    && reorgChan.Valid() && !reorgChan.closed && reorgChan.cap == env.otherCap
    && reorgChan.len == s.otherLen && reorgChan.sent == base + Reorgs(s.trace)
  }

  /** A turn that puts an error and stops. */
  function Fails<N>(s: Loop<Notice<N>, Err>, e: Err): Loop<Notice<N>, Err> {
    s.(n := s.n + 1, stop := Some(Failed(e)))
  }

  /** The select that sends a fact. Facts have a channel of their own with one slot. */
  method OfferFact<N>(fact: N, factChan: Chan<N>, ghost reorgChan: Chan<Unit>, env: Surroundings,
                      s: Loop<Notice<N>, Err>, ghost base: seq<Unit>)
    returns (o: Offered, t: Loop<Notice<N>, Err>)
    requires s.n < |env.moments| && Agrees(env, s, base, factChan, reorgChan) && reorgChan as object != factChan
    modifies factChan`len, factChan`waiting, factChan`sent
    ensures var m := env.moments[s.n];
            && o == Picked(Free(1, s.len, m), s.n >= env.cancelAt, m.prefersSend)
            && t == s.(n := s.n + 1, len := LeftAfter(s.len, m, o),
                       trace := if o.Sent? then s.trace + [Fact(fact)] else s.trace)
    ensures Agrees(env, t, base, factChan, reorgChan)
  {
    var m := env.moments[s.n];
    o := OfferAt(factChan, fact, s.n >= env.cancelAt, m);
    Snoc(s.trace, Fact(fact));
    t := s.(n := s.n + 1, len := LeftAfter(s.len, m, o));
    if o.Sent? {
      t := t.(trace := s.trace + [Fact(fact)]);
    }
  }

  /** The select that signals a re-org on the caller's channel. */
  method OfferReorg<N>(ghost factChan: Chan<N>, reorgChan: Chan<Unit>, env: Surroundings, s: Loop<Notice<N>, Err>,
                       ghost base: seq<Unit>)
    returns (o: Offered, t: Loop<Notice<N>, Err>)
    requires s.n < |env.moments| && Agrees(env, s, base, factChan, reorgChan) && reorgChan as object != factChan
    modifies reorgChan`len, reorgChan`waiting, reorgChan`sent
    ensures var m := env.moments[s.n];
            && o == Picked(Free(env.otherCap, s.otherLen, m), s.n >= env.cancelAt, m.prefersSend)
            && t == s.(n := s.n + 1, otherLen := LeftAfter(s.otherLen, m, o),
                       trace := if o.Sent? then s.trace + [Reorged] else s.trace)
    ensures Agrees(env, t, base, factChan, reorgChan)
  {
    var m := env.moments[s.n];
    o := OfferAt(reorgChan, Unit, s.n >= env.cancelAt, m);
    Snoc<N>(s.trace, Reorged);
    t := s.(n := s.n + 1, otherLen := LeftAfter(s.otherLen, m, o));
    if o.Sent? {
      t := t.(trace := s.trace + [Reorged]);
    }
  }

  // ---- the confirmation goroutine ----

  /** It returns when its select sees the context done, whatever it was to send. */
  function ConfDiscipline<N>(reorgAware: bool): Discipline<Notice<N>, Err> {
    Discipline(reorgAware, 1, (f: Notice<N>) => f.Reorged?, (f: Notice<N>) => Quit)
  }

  /** The select with a confirmation, and what the loop makes of its result. */
  method PassConf<N>(conf: N, confChan: Chan<N>, reorgAware: bool, ghost reorgChan: Chan<Unit>, env: Surroundings,
                     s: Loop<Notice<N>, Err>, ghost base: seq<Unit>)
    returns (t: Loop<Notice<N>, Err>)
    requires s.n < |env.moments| && s.stop.None?
    requires Agrees(env, s, base, confChan, reorgChan) && reorgChan as object != confChan
    modifies confChan`len, confChan`waiting, confChan`sent
    ensures t == Turn(ConfDiscipline(reorgAware), Deliver(Fact(conf)), env, s)
    ensures Agrees(env, t, base, confChan, reorgChan) && !t.End().Failed?
  {
    var o;
    o, t := OfferFact(conf, confChan, reorgChan, env, s, base);
    match o {
      case Sent =>
        t := t.(stop := if reorgAware then None else Some(Finished));
      case SawDone =>
        t := t.(stop := Some(Cancelled));
      case Waiting =>
        t := t.(stop := Some(Blocked));
    }
  }

  /** The select with a re-org, if it is to be signalled. */
  method PassReorg<N>(ghost confChan: Chan<N>, reorgAware: bool, reorgChan: Chan<Unit>, env: Surroundings,
                      s: Loop<Notice<N>, Err>, ghost base: seq<Unit>)
    returns (t: Loop<Notice<N>, Err>)
    requires s.n < |env.moments| && s.stop.None?
    requires Agrees(env, s, base, confChan, reorgChan) && reorgChan as object != confChan
    modifies reorgChan`len, reorgChan`waiting, reorgChan`sent
    ensures t == Turn(ConfDiscipline(reorgAware), if reorgAware then Deliver(Reorged) else Ignore, env, s)
    ensures Agrees(env, t, base, confChan, reorgChan) && !t.End().Failed?
  {
    if !reorgAware {
      return s.(n := s.n + 1);
    }
    var o;
    o, t := OfferReorg(confChan, reorgChan, env, s, base);
    match o {
      case Sent =>
      case SawDone =>
        t := t.(stop := Some(Cancelled));
      case Waiting =>
        t := t.(stop := Some(Blocked));
    }
  }

  /** The body of the loop of RegisterConfirmationsNtfn, for one value that Recv returned. The error
      channel has one slot: a send on it has to go through at once, whether or not anybody reads. */
  method OnConfEvent<R, N>(decode: R -> Result<N, DecodeErr>, r: Recv<Event<R>>, confChan: Chan<N>, errChan: Chan<Err>,
                           reorgAware: bool, reorgChan: Chan<Unit>, env: Surroundings, s: Loop<Notice<N>, Err>,
                           ghost base: seq<Unit>)
    returns (t: Loop<Notice<N>, Err>)
    requires s.n < |env.moments| && s.stop.None? && Agrees(env, s, base, confChan, reorgChan)
    requires errChan.Valid() && errChan.cap == 1 && errChan.sent == [] && !errChan.closed
    requires reorgChan as object != confChan && errChan as object != confChan && reorgChan as object != errChan
    modifies confChan`len, confChan`waiting, confChan`sent, errChan`len, errChan`waiting, errChan`sent
    modifies reorgChan`len, reorgChan`waiting, reorgChan`sent
    ensures t == Turn(ConfDiscipline(reorgAware), EventReaction(decode, reorgAware, r), env, s)
    ensures Agrees(env, t, base, confChan, reorgChan)
    ensures errChan.Valid() && errChan.sent == if t.End().Failed? then [t.End().err] else []
  {
    match r {
      case Broken(code) =>
        errChan.Send(StreamBroken(code));
        t := Fails(s, StreamBroken(code));

      case Eof =>
        errChan.Send(StreamEnded);
        t := Fails(s, StreamEnded);

      case Got(Seen(raw)) =>
        var decoded := decode(raw);
        if decoded.Failure? {
          errChan.Send(Undecodable(decoded.error));
          return Fails(s, Undecodable(decoded.error));
        }
        t := PassConf(decoded.value, confChan, reorgAware, reorgChan, env, s, base);

      case Got(Reorg) =>
        t := PassReorg(confChan, reorgAware, reorgChan, env, s, base);

      case Got(NilEvent) =>
        errChan.Send(EventEmpty);
        t := Fails(s, EventEmpty);

      case Got(OtherEvent) =>
        errChan.Send(EventUnexpected);
        t := Fails(s, EventUnexpected);
    }
  }

  function ConfRun<R, N>(decode: R -> Result<N, DecodeErr>, reorgAware: bool, es: seq<Recv<Event<R>>>,
                         env: Surroundings): Loop<Notice<N>, Err>
    requires |es| == |env.moments|
  {
    LoopRun(ConfDiscipline(reorgAware), Reactor(decode, reorgAware), es, env, |es|)
  }

  /** One run of the goroutine that RegisterConfirmationsNtfn starts, on a stream that yields the given
      values and in the given surroundings; the state's trace merges its sends on both channels. */
  method ConfirmationLoop<R, N>(decode: R -> Result<N, DecodeErr>, stream: seq<Recv<Event<R>>>, env: Surroundings,
                                confChan: Chan<N>, errChan: Chan<Err>, reorgAware: bool, reorgChan: Chan<Unit>)
    returns (s: Loop<Notice<N>, Err>)
    requires |env.moments| == |stream|
    requires confChan.Valid() && confChan.cap == 1 && confChan.len == 0 && confChan.sent == [] && !confChan.closed
    requires errChan.Valid() && errChan.cap == 1 && errChan.sent == [] && !errChan.closed
    requires reorgChan.Valid() && reorgChan.cap == env.otherCap && reorgChan.len == env.otherLen && !reorgChan.closed
    requires reorgChan as object != confChan && errChan as object != confChan && reorgChan as object != errChan
    modifies confChan`len, confChan`waiting, confChan`sent, errChan`len, errChan`waiting, errChan`sent
    modifies reorgChan`len, reorgChan`waiting, reorgChan`sent
    ensures s == ConfRun(decode, reorgAware, stream, env)
    ensures RunOf(reorgAware, Reactor(decode, reorgAware), stream, s.n, s.trace, s.End())
    ensures confChan.sent == Facts(s.trace)
    ensures reorgChan.sent == old(reorgChan.sent) + Reorgs(s.trace)
    ensures errChan.sent == if s.End().Failed? then [s.End().err] else []
  {
    ghost var d := ConfDiscipline(reorgAware);
    ghost var react := Reactor(decode, reorgAware);
    ghost var base := reorgChan.sent;
    s := Start(env);
    for n := 0 to |stream|
      invariant s.stop.None? && s == LoopRun(d, react, stream, env, n)
      invariant Agrees(env, s, base, confChan, reorgChan)
      invariant errChan.Valid() && errChan.sent == []
    {
      LoopRunTurn(d, react, stream, env, s);
      s := OnConfEvent(decode, stream[n], confChan, errChan, reorgAware, reorgChan, env, s, base);
      if s.stop.Some? {
        QuitsExact(d, react, stream, env);
        return;
      }
    }
    QuitsExact(d, react, stream, env);
  }

  /** RegisterConfirmationsNtfn: the channels are new, and the goroutine's. */
  method RegisterConfirmationsNtfn(ps: Parsers, includeBlock: bool, stream: seq<Recv<Event<RawConf>>>,
                                   env: Surroundings, reorgAware: bool, reorgChan: Chan<Unit>)
    returns (confChan: Chan<Confirmation>, errChan: Chan<Err>, s: Loop<Notice<Confirmation>, Err>)
    requires |env.moments| == |stream|
    requires reorgChan.Valid() && reorgChan.cap == env.otherCap && reorgChan.len == env.otherLen && !reorgChan.closed
    modifies reorgChan`len, reorgChan`waiting, reorgChan`sent
    ensures fresh(confChan) && fresh(errChan)
    ensures s == ConfRun(ConfDecoder(ps, includeBlock), reorgAware, stream, env)
    ensures confChan.sent == Facts(s.trace) && reorgChan.sent == old(reorgChan.sent) + Reorgs(s.trace)
    ensures errChan.sent == if s.End().Failed? then [s.End().err] else []
  {
    confChan := new Chan(1);
    errChan := new Chan(1);
    s := ConfirmationLoop(ConfDecoder(ps, includeBlock), stream, env, confChan, errChan, reorgAware, reorgChan);
  }

  lemma OneFact<N>(t: Notice<N>)
    requires t.Fact?
    ensures Facts([t]) == [t.fact] && Reorgs([t]) == []
  {
    assert [t][..0] == [];
  }

  /** What a confirmation run promises in all surroundings: its sends on both channels are the decoded
      image of a prefix, in order; it quits for the context only from the turn of cancellation on, and
      waits only before it; and if receivers always come, all that it takes is delivered. */
  lemma ConfRunSound<R, N>(decode: R -> Result<N, DecodeErr>, reorgAware: bool, es: seq<Recv<Event<R>>>,
                           env: Surroundings)
    requires |es| == |env.moments|
    ensures var s := ConfRun(decode, reorgAware, es, env);
            && RunOf(reorgAware, Reactor(decode, reorgAware), es, s.n, s.trace, s.End())
            && (s.End() == Cancelled ==> env.cancelAt < s.n)
            && (s.End() == Blocked ==> s.n <= env.cancelAt)
            && (Receives(env, |es|) ==> s.trace == Image(Reactor(decode, reorgAware), es[..s.n]))
  {
    if Receives(env, |es|) {
      ReceivedAll(ConfDiscipline(reorgAware), Reactor(decode, reorgAware), es, env);
    }
    QuitsExact(ConfDiscipline(reorgAware), Reactor(decode, reorgAware), es, env);
    LoopRunSound(ConfDiscipline(reorgAware), Reactor(decode, reorgAware), es, env, |es|);
  }

  /** Without a re-org channel, at most one confirmation is delivered over any run, and no re-org; and
      the loop never waits, whether or not anybody receives. */
  lemma OneConfirmation<R, N>(decode: R -> Result<N, DecodeErr>, es: seq<Recv<Event<R>>>, env: Surroundings)
    requires |es| == |env.moments|
    ensures var s := ConfRun(decode, false, es, env);
            && |s.trace| <= 1 && (|s.trace| == 1 <==> s.End().Finished?)
            && |Facts(s.trace)| == |s.trace| && Reorgs(s.trace) == []
            && s.End() != Blocked
  {
    var d, react := ConfDiscipline<N>(false), Reactor(decode, false);
    OneNotice(d, react, es, env, |es|);
    NeverWaits(d, react, es, env, |es|);
    var s := ConfRun(decode, false, es, env);
    if s.stop == Some(Finished) {
      OneFact(react(es[s.n - 1]).notice);
    }
  }

  // ---- what is delivered, in terms of events and decoding alone ----

  /** The notice is what this event says. */
  ghost predicate Says<R, N>(decode: R -> Result<N, DecodeErr>, e: Recv<Event<R>>, f: Notice<N>) {
    || (e == Got(Reorg) && f == Reorged)
    || (e.Got? && e.event.Seen? && decode(e.event.raw).Success? && f == Fact(decode(e.event.raw).value))
  }

  /** The event is a confirmation or spend that can be decoded. */
  ghost predicate Decodable<R, N>(decode: R -> Result<N, DecodeErr>, e: Recv<Event<R>>) {
    e.Got? && e.event.Seen? && decode(e.event.raw).Success?
  }

  /** The error that this event ends the loop with. */
  ghost predicate Spoils<R, N>(decode: R -> Result<N, DecodeErr>, e: Recv<Event<R>>, err: Err) {
    || (e.Broken? && err == StreamBroken(e.code))
    || (e.Eof? && err == StreamEnded)
    || (e == Got(NilEvent) && err == EventEmpty)
    || (e == Got(OtherEvent) && err == EventUnexpected)
    || (e.Got? && e.event.Seen? && decode(e.event.raw).Failure? && err == Undecodable(decode(e.event.raw).error))
  }

  lemma ReactsAware<R, N>(decode: R -> Result<N, DecodeErr>, e: Recv<Event<R>>)
    ensures var r := EventReaction(decode, true, e);
            && (r.Deliver? <==> e == Got(Reorg) || Decodable(decode, e))
            && (r.Deliver? ==> Says(decode, e, r.notice))
            && (!r.Deliver? ==> r.Reject? && Spoils(decode, e, r.err))
  {
  }

  lemma ReactsUnaware<R, N>(decode: R -> Result<N, DecodeErr>, e: Recv<Event<R>>)
    ensures var r := EventReaction(decode, false, e);
            && (r.Ignore? <==> e == Got(Reorg))
            && (r.Deliver? <==> Decodable(decode, e))
            && (r.Deliver? ==> r.notice.Fact? && Says(decode, e, r.notice))
            && (r.Reject? <==> !r.Ignore? && !r.Deliver?) && (r.Reject? ==> Spoils(decode, e, r.err))
  {
  }

  /** In re-org aware mode, events after which the loop goes on are delivered one for one. */
  lemma {:induction false} AwareImage<R, N>(decode: R -> Result<N, DecodeErr>, es: seq<Recv<Event<R>>>)
    requires Continues(true, Reactor(decode, true), es)
    ensures |Image(Reactor(decode, true), es)| == |es|
    ensures forall i | 0 <= i < |es| :: Says(decode, es[i], Image(Reactor(decode, true), es)[i])
  {
    if es != [] {
      var react, n := Reactor(decode, true), |es| - 1;
      WentOn(true, react, es, |es|, n);
      assert es[..|es|] == es;
      AwareImage(decode, es[..n]);
      ReactsAware(decode, es[n]);
      assert Image(react, es) == Image(react, es[..n]) + [react(es[n]).notice];
    }
  }

  /** In re-org aware mode, every confirmation and every re-org that is handled is sent, in order and one
      for one; the loop ends only at an event that spoils the stream, or on the context. */
  lemma ConfDelivers<R, N>(decode: R -> Result<N, DecodeErr>, es: seq<Recv<Event<R>>>, env: Surroundings)
    requires |es| == |env.moments|
    ensures var s := ConfRun(decode, true, es, env);
            && |s.trace| == Handled(s.n, s.End()) <= |es|
            && (forall i | 0 <= i < |s.trace| :: Says(decode, es[i], s.trace[i]))
            && (s.End().Receiving? <==> s.stop.None?) && (s.stop.None? ==> s.n == |es|)
            && (s.stop.Some? ==> s.n > 0 && (s.End().Blocked? || s.End().Cancelled? || s.End().Failed?))
            && (s.End().Failed? ==> Spoils(decode, es[s.n - 1], s.End().err))
  {
    var react := Reactor(decode, true);
    var s := ConfRun(decode, true, es, env);
    QuitsExact(ConfDiscipline(true), react, es, env);
    if s.stop.Some? {
      ReactsAware(decode, es[s.n - 1]);
    }
    assert Handled(s.n, s.End()) == Passed(s.n, s.End());
    AwareImage(decode, es[..Handled(s.n, s.End())]);
  }

  /** Without a re-org channel, only re-orgs are passed by; the first confirmation that can be decoded is
      sent, and is the last act, unless its select sees the context done; anything else is an error. */
  lemma ConfDeliversOne<R, N>(decode: R -> Result<N, DecodeErr>, es: seq<Recv<Event<R>>>, env: Surroundings)
    requires |es| == |env.moments|
    ensures var s := ConfRun(decode, false, es, env);
            && s.n <= |es| && (forall i | 0 <= i < Passed(s.n, s.End()) :: es[i] == Got(Reorg))
            && (s.stop.None? ==> s.n == |es| && s.trace == [])
            && (s.stop.Some? ==> s.n > 0 && (s.End().Finished? || s.End().Cancelled? || s.End().Failed?))
            && (s.End().Finished? ==>
                  Decodable(decode, es[s.n - 1]) && s.trace == [Fact(decode(es[s.n - 1].event.raw).value)])
            && (s.End().Cancelled? ==> Decodable(decode, es[s.n - 1]) && s.trace == [])
            && (s.End().Failed? ==> Spoils(decode, es[s.n - 1], s.End().err) && s.trace == [])
  {
    var d, react := ConfDiscipline<N>(false), Reactor(decode, false);
    var s := ConfRun(decode, false, es, env);
    LoopRunSound(d, react, es, env, |es|);
    OneConfirmation(decode, es, env);
    OneNotice(d, react, es, env, |es|);
    forall i | 0 <= i < Passed(s.n, s.End())
      ensures es[i] == Got(Reorg)
    {
      WentOn(false, react, es, Passed(s.n, s.End()), i);
      ReactsUnaware(decode, es[i]);
    }
    if s.stop.Some? {
      ReactsUnaware(decode, es[s.n - 1]);
    }
  }

  // ---- the block epoch goroutine ----

  function EpochReaction(r: Recv<Uint32>): Reaction<int, Err> {
    match r
    case Broken(code) => Reject(StreamBroken(code))
    case Eof => Reject(StreamEnded)
    case Got(height) => Deliver(AsInt32(height))
  }

  /** One run of the goroutine that RegisterBlockEpochNtfn starts; its channel has no buffer. */
  method BlockEpochLoop(stream: seq<Recv<Uint32>>, env: Surroundings, epochChan: Chan<int>, errChan: Chan<Err>)
    returns (s: Loop<int, Err>)
    requires |env.moments| == |stream|
    requires epochChan.Valid() && epochChan.cap == 0 && epochChan.len == 0 && epochChan.sent == [] && !epochChan.closed
    requires errChan.Valid() && errChan.cap == 1 && errChan.sent == [] && !errChan.closed
    requires errChan as object != epochChan
    modifies epochChan`len, epochChan`waiting, epochChan`sent, errChan`len, errChan`waiting, errChan`sent
    ensures s == LoopRun(Forwarding(), EpochReaction, stream, env, |stream|) && epochChan.sent == s.trace
    ensures RunOf(true, EpochReaction, stream, s.n, epochChan.sent, s.End())
    ensures errChan.sent == if s.End().Failed? then [s.End().err] else []
  {
    ghost var d: Discipline<int, Err> := Forwarding();
    s := Start(env);
    for n := 0 to |stream|
      invariant s.stop.None? && s == LoopRun(d, EpochReaction, stream, env, n)
      invariant epochChan.Valid() && epochChan.len == s.len && epochChan.sent == s.trace
      invariant errChan.Valid() && errChan.sent == []
    {
      LoopRunTurn(d, EpochReaction, stream, env, s);
      var r := stream[n];
      if !r.Got? {
        var err := if r.Eof? then StreamEnded else StreamBroken(r.code);
        errChan.Send(err);
        s := s.(n := n + 1, stop := Some(Failed(err)));
      } else {
        s := ForwardOne(AsInt32(r.event), epochChan, env, s);
      }
      if s.stop.Some? {
        QuitsExact(d, EpochReaction, stream, env);
        return;
      }
    }
    QuitsExact(d, EpochReaction, stream, env);
  }

  /** The 32-bit number with the same bits. */
  predicate IsSigned(u: Uint32, i: int) {
    -0x8000_0000 <= i < 0x8000_0000 && (i == u || i + 0x1_0000_0000 == u)
  }

  /** Heights are passed on one for one, as signed numbers, up to a broken stream. */
  lemma EpochsDelivered(es: seq<Recv<Uint32>>, env: Surroundings)
    requires |es| == |env.moments|
    ensures var s := LoopRun(Forwarding(), EpochReaction, es, env, |es|);
            && |s.trace| == Handled(s.n, s.End()) <= |es|
            && (forall i | 0 <= i < |s.trace| :: es[i].Got? && IsSigned(es[i].event, s.trace[i]))
            && (s.stop.None? ==> s.n == |es|)
            && (s.End().Failed? ==> s.n > 0 && !es[s.n - 1].Got?)
            && (s.End().Failed? && es[s.n - 1].Broken? ==> s.End().err == StreamBroken(es[s.n - 1].code))
            && (s.End().Failed? && es[s.n - 1].Eof? ==> s.End().err == StreamEnded)
            && !s.End().Finished? && !s.End().Closed?
  {
    var s := LoopRun(Forwarding(), EpochReaction, es, env, |es|);
    QuitsExact(Forwarding(), EpochReaction, es, env);
    EpochImage(es[..Handled(s.n, s.End())]);
  }

  lemma {:induction false} EpochImage(es: seq<Recv<Uint32>>)
    requires Continues(true, EpochReaction, es)
    ensures |Image(EpochReaction, es)| == |es|
    ensures forall i | 0 <= i < |es| :: es[i].Got? && IsSigned(es[i].event, Image(EpochReaction, es)[i])
  {
    if es != [] {
      WentOn(true, EpochReaction, es, |es|, |es| - 1);
      EpochImage(es[..|es| - 1]);
    }
  }
}

/** The HTLC interception protocol shared by InterceptHtlcs and HtlcModifier, as a labelled
    transition system: a reader goroutine, the main select loop, and one handler goroutine per
    request. Every choice of a select statement, of the stream and of the caller's handler is
    carried by the label, so a run is a sequence of labels. */
module Interception {
  import opened Wrappers
  import opened ShortChannelIds
  import opened Words

  datatype Protocol = InterceptHtlcs | HtlcModifier

  // ---- messages ----

  /** A circuit key as it travels over the wire. */
  datatype RawKey = RawKey(chanId: bv64, htlcId: bv64)

  /** A circuit key as handlers see it. */
  datatype CircuitKey = CircuitKey(chanId: ShortChannelId, htlcId: bv64)

  /** `body` stands for the remaining fields, which are copied across unread. */
  datatype RawRequest = RawRequest(paymentHash: Bytes, key: Option<RawKey>, body: Bytes)

  datatype Request = Request(key: CircuitKey, body: Bytes)

  /** What a handler answers: the first form for InterceptHtlcs, the second for HtlcModifier.
      `action` is the uint8 that the handler chose. */
  datatype Response =
    | Intercepted(preimage: Option<Bytes>, action: bv8, failureMessage: Bytes, failureCode: int,
                  incomingAmount: bv64, outgoingAmount: bv64, records: Bytes)
    | Modified(key: CircuitKey, amtPaid: bv64, cancelSet: bool)

  datatype ResolveAction = SETTLE | FAIL | RESUME | RESUME_MODIFIED

  datatype Message =
    | Resolution(key: RawKey, action: ResolveAction, preimage: Option<Bytes>, failureMessage: Bytes,
                 failureCode: int, inAmount: bv64, outAmount: bv64, outRecords: Bytes)
    | Modification(key: RawKey, amtPaid: bv64, cancelSet: bool)

  datatype Err =
    | RecvFailed(code: int)
    | BadPaymentHash
    | MissingCircuitKey
    | HandlerFailed(code: int)
    | PreimageRequired
    | FailureFieldsExclusive
    | UnknownAction(action: bv8)
    | SendFailed(code: int)
    | ShuttingDown
    | ContextDone

  const ACTION_SETTLE: bv8 := 0
  const ACTION_FAIL: bv8 := 1
  const ACTION_RESUME: bv8 := 2
  const ACTION_RESUME_MODIFIED: bv8 := 3

  function Unpack(raw: RawKey): CircuitKey {
    CircuitKey(FromUint64(raw.chanId), raw.htlcId)
  }

  function Pack(key: CircuitKey): RawKey {
    RawKey(ToUint64(key.chanId), key.htlcId)
  }

  lemma PackUnpack(raw: RawKey)
    ensures Pack(Unpack(raw)) == raw
  {
    PackedRoundTrip(raw.chanId);
  }

  /** HtlcModifier reads the circuit key without checking that it is there. */
  predicate Receivable(p: Protocol, raw: RawRequest) {
    p.HtlcModifier? ==> raw.key.Some?
  }

  function Decode(p: Protocol, raw: RawRequest): Result<Request, Err>
    requires Receivable(p, raw)
  {
    if p.InterceptHtlcs? && |raw.paymentHash| != HASH_SIZE then Failure(BadPaymentHash)
    else if raw.key.None? then Failure(MissingCircuitKey)
    else Success(Request(Unpack(raw.key.value), raw.body))
  }

  function RpcInterceptorResponse(request: Request, r: Response): Result<Message, Err>
    requires r.Intercepted?
  {
    var m := Resolution(Pack(request.key), SETTLE, r.preimage, [], 0, 0, 0, []);
    if r.action == ACTION_SETTLE then
      if r.preimage.None? then Failure(PreimageRequired) else Success(m)
    else if r.action == ACTION_FAIL then
      if |r.failureMessage| > 0 && r.failureCode != 0 then Failure(FailureFieldsExclusive)
      else Success(m.(action := FAIL, failureMessage := r.failureMessage, failureCode := r.failureCode))
    else if r.action == ACTION_RESUME then
      Success(m.(action := RESUME))
    else if r.action == ACTION_RESUME_MODIFIED then
      Success(m.(action := RESUME_MODIFIED, inAmount := r.incomingAmount, outAmount := r.outgoingAmount,
                 outRecords := r.records))
    else Failure(UnknownAction(r.action))
  }

  /** The form of response that the handler type of each protocol allows. */
  predicate Answers(p: Protocol, r: Response) {
    p.InterceptHtlcs? <==> r.Intercepted?
  }

  function Build(p: Protocol, request: Request, r: Response): Result<Message, Err>
    requires Answers(p, r)
  {
    if p.InterceptHtlcs? then RpcInterceptorResponse(request, r)
    else Success(Modification(Pack(r.key), r.amtPaid, r.cancelSet))
  }

  // ---- states ----

  datatype Who = Reader | Handler(id: nat)

  datatype Report = Report(who: Who, err: Err)

  datatype Outcome = Took(report: Report) | SawQuit | SawContext

  datatype ReaderPc =
    | Checking                          // testing ctx.Err()
    | Receiving                         // inside stream.Recv
    | Offering(id: nat, req: Request)   // in the select that sends on requestChan
    | Reporting(err: Err)               // inside sendErr
    | Leaving                           // about to run wg.Done
    | Gone

  datatype MainPc =
    | Selecting
    | Spawning(id: nat, req: Request)   // a request was taken, wg.Add has not run yet
    | Returning(out: Outcome)           // the deferred cancel has not run yet
    | Returned(out: Outcome)

  /** A message together with the request and the reply that it was built from. */
  datatype Draft = Draft(req: Request, reply: Response, msg: Message)

  datatype Answer = Answer(id: nat, draft: Draft)

  /** Handler goroutines, by what they are doing. */
  datatype Workers = Workers(
    calling: map<nat, Request>,
    building: map<nat, (Request, Response)>,
    sending: map<nat, Draft>,
    reporting: map<nat, Err>,
    leaving: set<nat>)

  /** What has happened so far. A step reads no more of it than the number of requests received,
      which is the id of the next one. */
  datatype Log = Log(
    received: seq<RawRequest>,           // well-formed requests
    sent: seq<Answer>,
    failed: set<nat>,
    dropped: set<nat>,
    reports: map<Who, Err>,              // every error passed to sendErr
    lost: set<Who>)                      // reports that sendErr gave up on

  datatype State = State(
    done: bool,                          // the session context
    quit: bool,                          // the client's quit channel
    slot: Option<Report>,                // errChan, capacity one
    wg: int,
    reader: ReaderPc,
    main: MainPc,
    h: Workers,
    log: Log)

  const NO_WORKERS := Workers(map[], map[], map[], map[], {})
  const NO_LOG := Log([], [], {}, {}, map[], {})

  /** The stream is open and the reader has just been started. */
  const INIT := State(false, false, None, 1, Checking, Selecting, NO_WORKERS, NO_LOG)

  datatype EnvLabel = CancelContext | CloseQuit

  datatype ReaderLabel =
    | RdContinue | RdStop
    | RdRecvFail(code: int) | RdReject(raw: RawRequest) | RdAccept(raw: RawRequest)
    | RdHandOff | RdSeeQuit | RdSeeContext
    | RdPut | RdLose | RdLeave

  datatype MainLabel = MnSpawn | MnTake | MnSeeQuit | MnSeeContext | MnCancel

  datatype HandlerLabel =
    | HdFail(code: int) | HdReply(reply: Response) | HdBuild | HdRefuse
    | HdSent | HdSendFail(code: int)
    | HdPut | HdLose | HdLeave

  datatype Label = Env(e: EnvLabel) | Rd(r: ReaderLabel) | Mn(m: MainLabel) | Hd(id: nat, h: HandlerLabel)

  // ---- steps ----

  predicate EnvEnabled(s: State, e: EnvLabel) {
    match e
    case CancelContext => !s.done
    case CloseQuit => !s.quit
  }

  predicate ReaderEnabled(p: Protocol, s: State, r: ReaderLabel) {
    match r
    case RdContinue => s.reader.Checking? && !s.done
    case RdStop => s.reader.Checking? && s.done
    case RdRecvFail(_) => s.reader.Receiving?
    case RdReject(raw) => s.reader.Receiving? && Receivable(p, raw) && Decode(p, raw).Failure?
    case RdAccept(raw) => s.reader.Receiving? && Receivable(p, raw) && Decode(p, raw).Success?
    case RdHandOff => s.reader.Offering? && s.main.Selecting?
    case RdSeeQuit => s.reader.Offering? && s.quit
    case RdSeeContext => s.reader.Offering? && s.done
    case RdPut => s.reader.Reporting? && s.slot.None?
    case RdLose => s.reader.Reporting? && (s.done || s.quit)
    case RdLeave => s.reader.Leaving?
  }

  predicate MainEnabled(s: State, m: MainLabel) {
    match m
    case MnSpawn => s.main.Spawning?
    case MnTake => s.main.Selecting? && s.slot.Some?
    case MnSeeQuit => s.main.Selecting? && s.quit
    case MnSeeContext => s.main.Selecting? && s.done
    case MnCancel => s.main.Returning?
  }

  predicate HandlerEnabled(p: Protocol, s: State, id: nat, h: HandlerLabel) {
    match h
    case HdFail(_) => id in s.h.calling
    case HdReply(reply) => id in s.h.calling && Answers(p, reply)
    case HdBuild =>
      id in s.h.building && Answers(p, s.h.building[id].1)
      && Build(p, s.h.building[id].0, s.h.building[id].1).Success?
    case HdRefuse =>
      id in s.h.building && Answers(p, s.h.building[id].1)
      && Build(p, s.h.building[id].0, s.h.building[id].1).Failure?
    case HdSent => id in s.h.sending
    case HdSendFail(_) => id in s.h.sending
    case HdPut => id in s.h.reporting && s.slot.None?
    case HdLose => id in s.h.reporting && (s.done || s.quit)
    case HdLeave => id in s.h.leaving
  }

  predicate Enabled(p: Protocol, s: State, l: Label) {
    match l
    case Env(e) => EnvEnabled(s, e)
    case Rd(r) => ReaderEnabled(p, s, r)
    case Mn(m) => MainEnabled(s, m)
    case Hd(id, h) => HandlerEnabled(p, s, id, h)
  }

  function EnvStep(s: State, e: EnvLabel): State {
    match e
    case CancelContext => s.(done := true)
    case CloseQuit => s.(quit := true)
  }

  function ReaderReports(s: State, e: Err): State {
    s.(reader := Reporting(e), log := s.log.(reports := s.log.reports[Reader := e]))
  }

  function ReaderDrops(s: State, e: Err): State
    requires s.reader.Offering?
  {
    s.(reader := Reporting(e),
       log := s.log.(reports := s.log.reports[Reader := e], dropped := s.log.dropped + {s.reader.id}))
  }

  /** A handler goroutine gives its request up; `h` is what is left of its earlier stage. */
  function HandlerReports(s: State, h: Workers, id: nat, e: Err): State {
    s.(h := h.(reporting := h.reporting[id := e]),
       log := s.log.(reports := s.log.reports[Handler(id) := e], failed := s.log.failed + {id}))
  }

  function ReaderStep(p: Protocol, s: State, r: ReaderLabel): State
    requires ReaderEnabled(p, s, r)
  {
    match r
    case RdContinue => s.(reader := Receiving)
    case RdStop => s.(reader := Leaving)
    case RdRecvFail(code) => ReaderReports(s, RecvFailed(code))
    case RdReject(raw) => ReaderReports(s, Decode(p, raw).error)
    case RdAccept(raw) =>
      s.(reader := Offering(|s.log.received|, Decode(p, raw).value),
         log := s.log.(received := s.log.received + [raw]))
    case RdHandOff => s.(reader := Checking, main := Spawning(s.reader.id, s.reader.req))
    case RdSeeQuit => ReaderDrops(s, ShuttingDown)
    case RdSeeContext => ReaderDrops(s, ContextDone)
    case RdPut => s.(reader := Leaving, slot := Some(Report(Reader, s.reader.err)))
    case RdLose => s.(reader := Leaving, log := s.log.(lost := s.log.lost + {Reader}))
    case RdLeave => s.(reader := Gone, wg := s.wg - 1)
  }

  function MainStep(s: State, m: MainLabel): State
    requires MainEnabled(s, m)
  {
    match m
    case MnSpawn =>
      s.(main := Selecting, wg := s.wg + 1, h := s.h.(calling := s.h.calling[s.main.id := s.main.req]))
    case MnTake => s.(main := Returning(Took(s.slot.value)), slot := None)
    case MnSeeQuit => s.(main := Returning(SawQuit))
    case MnSeeContext => s.(main := Returning(SawContext))
    case MnCancel => s.(main := Returned(s.main.out), done := true)
  }

  function HandlerStep(p: Protocol, s: State, id: nat, h: HandlerLabel): State
    requires HandlerEnabled(p, s, id, h)
  {
    match h
    case HdFail(code) => HandlerReports(s, s.h.(calling := s.h.calling - {id}), id, HandlerFailed(code))
    case HdReply(r) =>
      s.(h := s.h.(calling := s.h.calling - {id}, building := s.h.building[id := (s.h.calling[id], r)]))
    case HdBuild =>
      var (req, r) := s.h.building[id];
      s.(h := s.h.(building := s.h.building - {id},
                   sending := s.h.sending[id := Draft(req, r, Build(p, req, r).value)]))
    case HdRefuse =>
      var (req, r) := s.h.building[id];
      HandlerReports(s, s.h.(building := s.h.building - {id}), id, Build(p, req, r).error)
    case HdSent =>
      s.(h := s.h.(sending := s.h.sending - {id}, leaving := s.h.leaving + {id}),
         log := s.log.(sent := s.log.sent + [Answer(id, s.h.sending[id])]))
    case HdSendFail(code) => HandlerReports(s, s.h.(sending := s.h.sending - {id}), id, SendFailed(code))
    case HdPut =>
      s.(h := s.h.(reporting := s.h.reporting - {id}, leaving := s.h.leaving + {id}),
         slot := Some(Report(Handler(id), s.h.reporting[id])))
    case HdLose =>
      s.(h := s.h.(reporting := s.h.reporting - {id}, leaving := s.h.leaving + {id}),
         log := s.log.(lost := s.log.lost + {Handler(id)}))
    case HdLeave => s.(h := s.h.(leaving := s.h.leaving - {id}), wg := s.wg - 1)
  }

  function Apply(p: Protocol, s: State, l: Label): State
    requires Enabled(p, s, l)
  {
    match l
    case Env(e) => EnvStep(s, e)
    case Rd(r) => ReaderStep(p, s, r)
    case Mn(m) => MainStep(s, m)
    case Hd(id, h) => HandlerStep(p, s, id, h)
  }

  // ---- runs ----

  ghost predicate Runs(p: Protocol, s: State, ls: seq<Label>, t: State)
    decreases |ls|
  {
    if ls == [] then s == t
    else Enabled(p, s, ls[0]) && Runs(p, Apply(p, s, ls[0]), ls[1..], t)
  }

  ghost predicate Reachable(p: Protocol, s: State) {
    exists ls :: Runs(p, INIT, ls, s)
  }

  /** The goroutine that a label belongs to; none for the environment and the main loop. */
  function Actor(l: Label): Option<Who> {
    match l
    case Env(_) => None
    case Rd(_) => Some(Reader)
    case Mn(_) => None
    case Hd(id, _) => Some(Handler(id))
  }
}

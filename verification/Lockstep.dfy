/** ChannelAcceptor and RegisterRPCMiddleware: goroutines that answer the requests of a stream one
    at a time with what the caller's function says. */
module Lockstep {
  import opened Wrappers
  import opened Channels
  import opened StreamLoops
  import opened Words

  /** What the others do in one turn of the loop: the stream yields a value, the caller's function
      answers or fails, and the send goes through or fails. */
  datatype Turn<+Req, +Ans> = Turn(recv: Recv<Req>, answer: Result<Ans, int>, sendFails: Option<int>)

  datatype Err =
    | ContextDone
    | RecvFailed(code: int) | StreamEnded
    | InvalidRequest
    | FunctionFailed(code: int)
    | SendFailed(code: int)

  /** What the goroutine has done, in order. */
  datatype Event<+Req, +Ans, +Resp> = Received(req: Req) | Called(to: Req, answer: Ans) | Answered(resp: Resp)

  datatype End = Running | Stopped(err: Err)

  /** The k-th thing that the goroutine does in a turn: receive the request, call the function with
      it, answer with what is built from the two. */
  ghost predicate IsStep<Req, Ans, Resp>(valid: Req -> bool, build: (Req, Ans) -> Resp, t: Turn<Req, Ans>,
                                               k: nat, e: Event<Req, Ans, Resp>)
  {
    && t.recv.Got?
    && (k == 0 ==> e == Received(t.recv.event))
    && (k > 0 ==> valid(t.recv.event) && t.answer.Success?)
    && (k == 1 ==> e == Called(t.recv.event, t.answer.value))
    && (k == 2 ==> e == Answered(build(t.recv.event, t.answer.value)) && t.sendFails.None?)
  }

  /** Receiving, calling and answering take turns, and each turn is about its own request. */
  ghost predicate InStep<Req, Ans, Resp>(valid: Req -> bool, build: (Req, Ans) -> Resp,
                                                     turns: seq<Turn<Req, Ans>>, trace: seq<Event<Req, Ans, Resp>>)
  {
    forall i | 0 <= i < |trace| :: i / 3 < |turns| && IsStep(valid, build, turns[i / 3], i % 3, trace[i])
  }

  lemma Extended<Req, Ans, Resp>(valid: Req -> bool, build: (Req, Ans) -> Resp,
                                             turns: seq<Turn<Req, Ans>>, trace: seq<Event<Req, Ans, Resp>>,
                                             n: nat, k: nat, e: Event<Req, Ans, Resp>)
    requires InStep(valid, build, turns, trace) && k < 3 && |trace| == 3 * n + k
    requires n < |turns| && IsStep(valid, build, turns[n], k, e)
    ensures InStep(valid, build, turns, trace + [e])
  {
  }

  /** The error with which a turn ends the loop, if it does, and how many steps come before it. */
  function Failure<Req, Ans>(valid: Req -> bool, t: Turn<Req, Ans>): Option<(Err, nat)> {
    match t.recv
    case Eof => Some((StreamEnded, 0))
    case Broken(code) => Some((RecvFailed(code), 0))
    case Got(request) =>
      if !valid(request) then Some((InvalidRequest, 1))
      else if t.answer.Failure? then Some((FunctionFailed(t.answer.error), 1))
      else if t.sendFails.Some? then Some((SendFailed(t.sendFails.value), 2))
      else None
  }

  /** After n turns the loop still runs, or found the context done at the start of the turn in which it
      is cancelled, or stopped in the last turn because of its failure. */
  ghost predicate EndsDuly<Req, Ans, Resp>(valid: Req -> bool, turns: seq<Turn<Req, Ans>>, cancelAt: nat, n: nat,
                                           trace: seq<Event<Req, Ans, Resp>>, end: End)
  {
    && n <= |turns|
    && match end
       case Running => n == |turns| <= cancelAt && |trace| == 3 * n
       case Stopped(e) =>
         || (e == ContextDone && n == cancelAt < |turns| && |trace| == 3 * n)
         || (0 < n <= cancelAt &&
             exists k: nat :: Failure(valid, turns[n - 1]) == Some((e, k)) && |trace| == 3 * n - 3 + k)
  }

  /** The loop of both goroutines. ChannelAcceptor checks a request before it calls the function and
      builds the response from both; the middleware passes both on as they are. */
  method AnswerLoop<Req(==), Ans(==), Resp(==)>(valid: Req -> bool, build: (Req, Ans) -> Resp,
                                                turns: seq<Turn<Req, Ans>>, cancelAt: nat, errChan: Chan<Err>)
    returns (n: nat, trace: seq<Event<Req, Ans, Resp>>, end: End)
    requires errChan.Valid() && errChan.cap == 1 && errChan.sent == [] && !errChan.closed
    modifies errChan`len, errChan`waiting, errChan`sent
    ensures n <= |turns| && InStep(valid, build, turns, trace)
    ensures errChan.sent == if end.Stopped? then [end.err] else []
    // It goes on until something fails, and reports that as its last act without waiting for anybody.
    ensures EndsDuly(valid, turns, cancelAt, n, trace, end)
  {
    n, trace := 0, [];
    while n < |turns|
      invariant n <= |turns| && n <= cancelAt && |trace| == 3 * n && InStep(valid, build, turns, trace)
      invariant errChan.Valid() && errChan.sent == []
    {
      if n >= cancelAt {
        errChan.Send(ContextDone);
        return n, trace, Stopped(ContextDone);
      }
      var t := turns[n];
      n := n + 1;
      if !t.recv.Got? {
        var err := if t.recv.Eof? then StreamEnded else RecvFailed(t.recv.code);
        errChan.Send(err);
        return n, trace, Stopped(err);
      }
      var request := t.recv.event;
      Extended(valid, build, turns, trace, n - 1, 0, Received(request));
      trace := trace + [Received(request)];
      if !valid(request) {
        errChan.Send(InvalidRequest);
        return n, trace, Stopped(InvalidRequest);
      }
      if t.answer.Failure? {
        errChan.Send(FunctionFailed(t.answer.error));
        return n, trace, Stopped(FunctionFailed(t.answer.error));
      }
      var answer := t.answer.value;
      Extended(valid, build, turns, trace, n - 1, 1, Called(request, answer));
      trace := trace + [Called(request, answer)];
      if t.sendFails.Some? {
        errChan.Send(SendFailed(t.sendFails.value));
        return n, trace, Stopped(SendFailed(t.sendFails.value));
      }
      Extended(valid, build, turns, trace, n - 1, 2, Answered(build(request, answer)));
      trace := trace + [Answered(build(request, answer))];
    }
    end := Running;
  }

  // ---- what the two loops guarantee ----

  function Requests<Req, Ans, Resp>(trace: seq<Event<Req, Ans, Resp>>): seq<Req> {
    if trace == [] then []
    else
      var e := trace[|trace| - 1];
      Requests(trace[..|trace| - 1]) + (if e.Received? then [e.req] else [])
  }

  function Responses<Req, Ans, Resp>(trace: seq<Event<Req, Ans, Resp>>): seq<Resp> {
    if trace == [] then []
    else
      var e := trace[|trace| - 1];
      Responses(trace[..|trace| - 1]) + (if e.Answered? then [e.resp] else [])
  }

  lemma {:induction false} InLockstep<Req, Ans, Resp>(
      valid: Req -> bool, build: (Req, Ans) -> Resp, turns: seq<Turn<Req, Ans>>, trace: seq<Event<Req, Ans, Resp>>)
    requires InStep(valid, build, turns, trace)
    ensures |Requests(trace)| == (|trace| + 2) / 3 && |Responses(trace)| == |trace| / 3
  {
    if trace != [] {
      var n := |trace| - 1;
      assert IsStep(valid, build, turns[n / 3], n % 3, trace[n]);
      LastStep(valid, build, turns[n / 3], n % 3, trace[n]);
      InLockstep(valid, build, turns, trace[..n]);
    }
  }

  lemma LastStep<Req, Ans, Resp>(valid: Req -> bool, build: (Req, Ans) -> Resp, t: Turn<Req, Ans>, k: nat,
                                 e: Event<Req, Ans, Resp>)
    requires k < 3 && IsStep(valid, build, t, k, e)
    ensures e.Received? <==> k == 0
    ensures e.Answered? <==> k == 2
  {
  }

  ghost predicate Matches<Req, Ans, Resp>(build: (Req, Ans) -> Resp, t: Turn<Req, Ans>, request: Req, response: Resp) {
    t.recv == Got(request) && t.answer.Success? && response == build(request, t.answer.value)
  }

  lemma {:induction false} RequestsCome<Req, Ans, Resp>(
      valid: Req -> bool, build: (Req, Ans) -> Resp, turns: seq<Turn<Req, Ans>>,
      trace: seq<Event<Req, Ans, Resp>>, k: nat)
    requires InStep(valid, build, turns, trace) && k < |Requests(trace)|
    ensures k < |turns| && turns[k].recv == Got(Requests(trace)[k])
  {
    var n := |trace| - 1;
    InLockstep(valid, build, turns, trace);
    InLockstep(valid, build, turns, trace[..n]);
    if k < |Requests(trace[..n])| {
      RequestsCome(valid, build, turns, trace[..n], k);
    } else {
      assert IsStep(valid, build, turns[n / 3], n % 3, trace[n]);
    }
  }

  lemma {:induction false} ResponsesBuilt<Req, Ans, Resp>(
      valid: Req -> bool, build: (Req, Ans) -> Resp, turns: seq<Turn<Req, Ans>>,
      trace: seq<Event<Req, Ans, Resp>>, k: nat)
    requires InStep(valid, build, turns, trace) && k < |Responses(trace)|
    ensures k < |turns| && turns[k].recv.Got? && turns[k].answer.Success?
    ensures Responses(trace)[k] == build(turns[k].recv.event, turns[k].answer.value)
  {
    var n := |trace| - 1;
    InLockstep(valid, build, turns, trace);
    InLockstep(valid, build, turns, trace[..n]);
    if k < |Responses(trace[..n])| {
      ResponsesBuilt(valid, build, turns, trace[..n], k);
    } else {
      assert IsStep(valid, build, turns[n / 3], n % 3, trace[n]);
    }
  }

  /** At every point of a run, the requests received are the stream's first ones, as many as the
      responses sent or one more, and the k-th response was built from the k-th request and what the
      function answered to it. A prefix of a run is a run, so this is about every point. */
  lemma ResponsesMatch<Req, Ans, Resp>(
      valid: Req -> bool, build: (Req, Ans) -> Resp, turns: seq<Turn<Req, Ans>>, trace: seq<Event<Req, Ans, Resp>>)
    requires InStep(valid, build, turns, trace)
    ensures 0 <= |Requests(trace)| - |Responses(trace)| <= 1 && |Requests(trace)| <= |turns|
    ensures forall k | 0 <= k < |Requests(trace)| :: turns[k].recv == Got(Requests(trace)[k])
    ensures forall k | 0 <= k < |Responses(trace)| ::
              Matches(build, turns[k], Requests(trace)[k], Responses(trace)[k])
  {
    InLockstep(valid, build, turns, trace);
    if trace != [] {
      RequestsCome(valid, build, turns, trace, |Requests(trace)| - 1);
    }
    forall k | 0 <= k < |Requests(trace)|
      ensures turns[k].recv == Got(Requests(trace)[k])
    {
      RequestsCome(valid, build, turns, trace, k);
    }
    forall k | 0 <= k < |Responses(trace)|
      ensures Matches(build, turns[k], Requests(trace)[k], Responses(trace)[k])
    {
      RequestsCome(valid, build, turns, trace, k);
      ResponsesBuilt(valid, build, turns, trace, k);
    }
  }

  /** Between receiving a request and answering it, the loop calls the function with just that request, and
      builds the response from just what it answered. */
  lemma CalledBetween<Req, Ans, Resp>(valid: Req -> bool, build: (Req, Ans) -> Resp, turns: seq<Turn<Req, Ans>>,
                                      trace: seq<Event<Req, Ans, Resp>>, k: nat)
    requires InStep(valid, build, turns, trace) && 3 * k + 2 < |trace|
    ensures k < |turns| && turns[k].recv.Got? && turns[k].answer.Success?
    ensures var request, answer := turns[k].recv.event, turns[k].answer.value;
            && trace[3 * k] == Received(request) && trace[3 * k + 1] == Called(request, answer)
            && trace[3 * k + 2] == Answered(build(request, answer))
  {
    assert IsStep(valid, build, turns[(3 * k) / 3], (3 * k) % 3, trace[3 * k]);
    assert IsStep(valid, build, turns[(3 * k + 1) / 3], (3 * k + 1) % 3, trace[3 * k + 1]);
    assert IsStep(valid, build, turns[(3 * k + 2) / 3], (3 * k + 2) % 3, trace[3 * k + 2]);
  }

  /** All that the loop wants of a turn. */
  predicate Fine<Req, Ans>(valid: Req -> bool, t: Turn<Req, Ans>) {
    t.recv.Got? && valid(t.recv.event) && t.answer.Success? && t.sendFails.None?
  }

  /** The loop goes through the turns that are fine, and stops with the error of the first one that is
      not: that of the stream, of the request, of the function or of the send, whichever came first. */
  lemma StopsAtFirst<Req, Ans, Resp>(valid: Req -> bool, build: (Req, Ans) -> Resp, turns: seq<Turn<Req, Ans>>,
                                     cancelAt: nat, n: nat, trace: seq<Event<Req, Ans, Resp>>, end: End)
    requires InStep(valid, build, turns, trace) && EndsDuly(valid, turns, cancelAt, n, trace, end)
    ensures end.Running? ==> n == |turns| <= cancelAt && forall k | 0 <= k < n :: Fine(valid, turns[k])
    ensures end == Stopped(ContextDone) ==> n == cancelAt < |turns| && forall k | 0 <= k < n :: Fine(valid, turns[k])
    ensures end.Stopped? && end.err != ContextDone ==>
              && 0 < n <= cancelAt && (forall k | 0 <= k < n - 1 :: Fine(valid, turns[k]))
              && var t := turns[n - 1];
              && (t.recv.Eof? ==> end.err == StreamEnded)
              && (t.recv.Broken? ==> end.err == RecvFailed(t.recv.code))
              && (t.recv.Got? && !valid(t.recv.event) ==> end.err == InvalidRequest)
              && (t.recv.Got? && valid(t.recv.event) && t.answer.Failure? ==> end.err == FunctionFailed(t.answer.error))
              && (t.recv.Got? && valid(t.recv.event) && t.answer.Success? ==>
                    t.sendFails.Some? && end.err == SendFailed(t.sendFails.value))
  {
    forall k | 0 <= k && 3 * k + 2 < |trace|
      ensures k < |turns| && Fine(valid, turns[k])
    {
      assert IsStep(valid, build, turns[(3 * k + 2) / 3], (3 * k + 2) % 3, trace[3 * k + 2]);
    }
  }

  // ---- the channel acceptor ----

  datatype AcceptRequest = AcceptRequest(nodePubkey: Bytes, pendingChanId: Bytes, body: Bytes)

  /** `body` stands for the fields that are copied across. */
  datatype AcceptAnswer = AcceptAnswer(accept: bool, body: Bytes)

  datatype AcceptResponse = AcceptResponse(accept: bool, pendingChanId: Bytes, body: Bytes)

  /** newAcceptorRequest fails on a bad node key, and on a commitment type that it does not know. */
  predicate ValidAccept(known: Bytes -> bool, r: AcceptRequest) {
    |r.nodePubkey| == VERTEX_SIZE && known(r.body)
  }

  function AcceptChecker(known: Bytes -> bool): AcceptRequest -> bool {
    r => ValidAccept(known, r)
  }

  function AcceptBuilder(): (AcceptRequest, AcceptAnswer) -> AcceptResponse {
    (r: AcceptRequest, a: AcceptAnswer) => AcceptResponse(a.accept, r.pendingChanId, a.body)
  }

  /** In every run of ChannelAcceptor, the k-th response carries the pending channel id of the k-th
      request and what the accept function decided on it. */
  lemma AcceptorMatches(known: Bytes -> bool, turns: seq<Turn<AcceptRequest, AcceptAnswer>>,
                        trace: seq<Event<AcceptRequest, AcceptAnswer, AcceptResponse>>, k: nat)
    requires InStep(AcceptChecker(known), AcceptBuilder(), turns, trace) && k < |Responses(trace)|
    ensures k < |Requests(trace)| <= |Responses(trace)| + 1 && k < |turns|
    ensures Responses(trace)[k].pendingChanId == Requests(trace)[k].pendingChanId
    ensures turns[k].answer == Success(AcceptAnswer(Responses(trace)[k].accept, Responses(trace)[k].body))
  {
    ResponsesMatch(AcceptChecker(known), AcceptBuilder(), turns, trace);
    var request, response := Requests(trace)[k], Responses(trace)[k];
    assert Matches(AcceptBuilder(), turns[k], request, response);
    var answer := turns[k].answer.value;
    assert response == AcceptResponse(answer.accept, request.pendingChanId, answer.body);
    assert answer == AcceptAnswer(response.accept, response.body);
  }

  /** A request is valid with a node key of 33 bytes and a commitment type that is known. */
  lemma AcceptChecks(known: Bytes -> bool, r: AcceptRequest)
    ensures AcceptChecker(known)(r) <==> |r.nodePubkey| == 33 && known(r.body)
  {
  }

  /** ChannelAcceptor. */
  method ChannelAcceptor(known: Bytes -> bool, turns: seq<Turn<AcceptRequest, AcceptAnswer>>, cancelAt: nat)
    returns (errChan: Chan<Err>, n: nat, trace: seq<Event<AcceptRequest, AcceptAnswer, AcceptResponse>>, end: End)
    ensures fresh(errChan) && n <= |turns|
    ensures InStep(AcceptChecker(known), AcceptBuilder(), turns, trace)
    ensures EndsDuly(AcceptChecker(known), turns, cancelAt, n, trace, end)
    ensures errChan.sent == if end.Stopped? then [end.err] else []
  {
    errChan := new Chan(1);
    n, trace, end := AnswerLoop(AcceptChecker(known), AcceptBuilder(), turns, cancelAt, errChan);
  }

  // ---- the RPC middleware ----

  /** What the registration of a middleware does, before its loop. */
  datatype Registration = NotRegistered(err: Err) | NoRegComplete | Registered

  function Anything<Req>(): Req -> bool { r => true }

  function AsAnswered<Req, Ans>(): (Req, Ans) -> Ans { (r: Req, a: Ans) => a }

  /** The middleware refuses no request, and its k-th response is what the interceptor answered to the
      k-th request. */
  lemma MiddlewareMatches<Req, Ans>(turns: seq<Turn<Req, Ans>>, trace: seq<Event<Req, Ans, Ans>>, k: nat)
    requires InStep(Anything(), AsAnswered(), turns, trace) && k < |Responses(trace)|
    ensures k < |Requests(trace)| && k < |turns| && turns[k].recv == Got(Requests(trace)[k])
    ensures turns[k].answer == Success(Responses(trace)[k])
    ensures forall r: Req :: Anything()(r)
  {
    ResponsesMatch(Anything(), AsAnswered(), turns, trace);
    assert Matches(AsAnswered(), turns[k], Requests(trace)[k], Responses(trace)[k]);
  }

  /** RegisterRPCMiddleware: the registration message is sent, then the first value of the stream is
      waited for, and only a RegComplete starts the loop. The context is not looked at before. */
  method RegisterRPCMiddleware<Req(==), Ans(==)>(sendFails: Option<int>, first: Recv<bool>,
                                                 turns: seq<Turn<Req, Ans>>, cancelAt: nat)
    returns (reg: Registration, errChan: Chan<Err>, n: nat, trace: seq<Event<Req, Ans, Ans>>, end: End)
    ensures fresh(errChan)
    ensures reg.Registered? <==> sendFails.None? && first == Got(true)
    ensures !reg.Registered? ==> trace == [] && n == 0 && errChan.sent == []
    ensures sendFails.Some? ==> reg == NotRegistered(SendFailed(sendFails.value))
    ensures sendFails.None? && first.Eof? ==> reg == NotRegistered(StreamEnded)
    ensures sendFails.None? && first.Broken? ==> reg == NotRegistered(RecvFailed(first.code))
    ensures sendFails.None? && first == Got(false) ==> reg == NoRegComplete
    ensures reg.Registered? ==> InStep(Anything(), AsAnswered(), turns, trace)
    ensures reg.Registered? ==> errChan.sent == if end.Stopped? then [end.err] else []
    ensures reg.Registered? ==> EndsDuly(Anything(), turns, cancelAt, n, trace, end)
  {
    errChan := new Chan(1);
    n, trace, end := 0, [], Running;
    if sendFails.Some? {
      return NotRegistered(SendFailed(sendFails.value)), errChan, n, trace, end;
    }
    match first {
      case Eof =>
        reg := NotRegistered(StreamEnded);
      case Broken(code) =>
        reg := NotRegistered(RecvFailed(code));
      case Got(complete) =>
        if complete {
          reg := Registered;
          n, trace, end := AnswerLoop(Anything(), AsAnswered(), turns, cancelAt, errChan);
        } else {
          reg := NoRegComplete;
        }
    }
  }
}

/** What a run of InterceptHtlcs and HtlcModifier sends and returns, in terms of what the stream, the
    handlers and the sends did in it: its labels. */
module InterceptionHistory {
  import opened Wrappers
  import opened ShortChannelIds
  import opened Words
  import opened Interception
  import opened InterceptionInvariant
  import opened InterceptionSafety

  /** The last step of a run. */
  lemma {:induction false} LastStep(p: Protocol, s: State, ls: seq<Label>, t: State) returns (m: State)
    requires ls != [] && Runs(p, s, ls, t)
    ensures var n := |ls| - 1; Runs(p, s, ls[..n], m) && Enabled(p, m, ls[n]) && t == Apply(p, m, ls[n])
    decreases |ls|
  {
    var n := |ls| - 1;
    if n == 0 {
      m := s;
    } else {
      m := LastStep(p, Apply(p, s, ls[0]), ls[1..], t);
      assert ls[1..][..n - 1] == ls[..n][1..] && ls[1..][n - 1] == ls[n];
    }
  }

  /** The well-formed requests that the stream has yielded. */
  function Accepted(ls: seq<Label>): seq<RawRequest> {
    if ls == [] then []
    else
      var l := ls[|ls| - 1];
      Accepted(ls[..|ls| - 1]) + (if l.Rd? && l.r.RdAccept? then [l.r.raw] else [])
  }

  predicate IsReply(l: Label, id: nat) { l.Hd? && l.id == id && l.h.HdReply? }

  /** How often the handler for a request has replied. */
  function Replies(ls: seq<Label>, id: nat): nat {
    if ls == [] then 0 else Replies(ls[..|ls| - 1], id) + Bit(IsReply(ls[|ls| - 1], id))
  }

  predicate Replied(ls: seq<Label>, id: nat, r: Response) { Hd(id, HdReply(r)) in ls }

  /** Each reply that is under way is one that the handler has given. */
  ghost predicate RepliesKept(ls: seq<Label>, s: State) {
    && (forall id | id in s.h.building :: Replied(ls, id, s.h.building[id].1))
    && (forall id | id in s.h.sending :: Replied(ls, id, s.h.sending[id].reply))
    && (forall k | 0 <= k < |s.log.sent| :: Replied(ls, s.log.sent[k].id, s.log.sent[k].draft.reply))
  }

  /** A request has been replied to once at most, and then it is no longer on its way to its handler. */
  predicate ReplyCounted(ls: seq<Label>, s: State, id: nat) {
    && Replies(ls, id) <= 1
    && (Replies(ls, id) == 1 ==>
          id < |s.log.received| && !HeldByReader(s, id) && !HeldByMain(s, id) && id !in s.h.calling)
  }

  /** Where the errors of the reader come from. */
  ghost predicate ReaderErred(ls: seq<Label>, e: Err) {
    match e
    case RecvFailed(code) => Rd(RdRecvFail(code)) in ls
    case BadPaymentHash => exists raw :: Rd(RdReject(raw)) in ls && |raw.paymentHash| != 32
    case MissingCircuitKey => exists raw :: Rd(RdReject(raw)) in ls && |raw.paymentHash| == 32 && raw.key.None?
    case ShuttingDown => Rd(RdSeeQuit) in ls
    case ContextDone => Rd(RdSeeContext) in ls
    case _ => false
  }

  /** A response that contradicts itself, and the error that says how. */
  predicate Refuses(r: Response, e: Err) {
    r.Intercepted? &&
    match e
    case PreimageRequired => r.action == ACTION_SETTLE && r.preimage.None?
    case FailureFieldsExclusive => r.action == ACTION_FAIL && r.failureMessage != [] && r.failureCode != 0
    case UnknownAction(action) => r.action == action && action > ACTION_RESUME_MODIFIED
    case _ => false
  }

  /** Where the errors of a handler goroutine come from. */
  ghost predicate HandlerErred(ls: seq<Label>, id: nat, e: Err) {
    match e
    case HandlerFailed(code) => Hd(id, HdFail(code)) in ls
    case SendFailed(code) => Hd(id, HdSendFail(code)) in ls
    case _ => exists r :: Replied(ls, id, r) && Refuses(r, e)
  }

  ghost predicate ErrorGiven(ls: seq<Label>, w: Who, e: Err) {
    match w
    case Reader => ReaderErred(ls, e)
    case Handler(id) => HandlerErred(ls, id, e)
  }

  ghost predicate ErrorsGiven(ls: seq<Label>, s: State) {
    forall w | w in s.log.reports :: ErrorGiven(ls, w, s.log.reports[w])
  }

  predicate ReaderErrs(r: ReaderLabel) { r.RdRecvFail? || r.RdReject? || r.RdSeeQuit? || r.RdSeeContext? }

  predicate HandlerErrs(h: HandlerLabel) { h.HdFail? || h.HdRefuse? || h.HdSendFail? }

  /** Every failure is reported. */
  ghost predicate AllReported(ls: seq<Label>, s: State) {
    && (forall r :: Rd(r) in ls && ReaderErrs(r) ==> Reader in s.log.reports)
    && (forall id, h :: Hd(id, h) in ls && HandlerErrs(h) ==> Handler(id) in s.log.reports)
  }

  /** The requests whose responses were sent, in order. */
  function SentFor(ls: seq<Label>): seq<nat> {
    if ls == [] then []
    else
      var l := ls[|ls| - 1];
      SentFor(ls[..|ls| - 1]) + (if l.Hd? && l.h.HdSent? then [l.id] else [])
  }

  ghost predicate SendsKept(ls: seq<Label>, s: State) {
    |s.log.sent| == |SentFor(ls)| && forall k | 0 <= k < |s.log.sent| :: s.log.sent[k].id == SentFor(ls)[k]
  }

  ghost predicate Told(ls: seq<Label>, s: State) {
    && s.log.received == Accepted(ls)
    && RepliesKept(ls, s)
    && SendsKept(ls, s)
    && AllReported(ls, s)
    && (forall id: nat :: ReplyCounted(ls, s, id))
    && ErrorsGiven(ls, s)
  }

  // ---- one step ----

  lemma {:induction false} Later(ls: seq<Label>, l: Label, id: nat)
    ensures Replies(ls + [l], id) == Replies(ls, id) + Bit(IsReply(l, id))
    ensures Accepted(ls + [l]) == Accepted(ls) + (if l.Rd? && l.r.RdAccept? then [l.r.raw] else [])
    ensures SentFor(ls + [l]) == SentFor(ls) + (if l.Hd? && l.h.HdSent? then [l.id] else [])
  {
    assert (ls + [l])[..|ls|] == ls;
  }

  lemma ReplyLater(ls: seq<Label>, l: Label)
    ensures forall id, r :: Replied(ls, id, r) ==> Replied(ls + [l], id, r)
  {
  }

  lemma ErrorLater(ls: seq<Label>, l: Label, w: Who, e: Err)
    requires ErrorGiven(ls, w, e)
    ensures ErrorGiven(ls + [l], w, e)
  {
    ReplyLater(ls, l);
  }

  // What each kind of step leaves alone.

  lemma ReaderFrame(p: Protocol, s: State, r: ReaderLabel)
    requires ReaderEnabled(p, s, r)
    ensures var t := ReaderStep(p, s, r);
            t.h == s.h && t.log.sent == s.log.sent
            && t.log.received == s.log.received + (if r.RdAccept? then [r.raw] else [])
  {
  }

  lemma MainFrame(s: State, m: MainLabel)
    requires MainEnabled(s, m)
    ensures var t := MainStep(s, m);
            t.log == s.log && t.h.building == s.h.building && t.h.sending == s.h.sending
  {
  }

  lemma HandlerFrame(p: Protocol, s: State, id: nat, h: HandlerLabel)
    requires HandlerEnabled(p, s, id, h)
    ensures var t := HandlerStep(p, s, id, h);
            && t.log.received == s.log.received
            && (if h.HdSent? then |t.log.sent| == |s.log.sent| + 1 && t.log.sent[..|s.log.sent|] == s.log.sent
                                  && t.log.sent[|s.log.sent|].id == id
                else t.log.sent == s.log.sent)
  {
  }

  /** The state after a step leaves the replies alone. */
  lemma RepliesLeft(ls: seq<Label>, l: Label, s: State, t: State)
    requires RepliesKept(ls, s)
    requires t.h.building == s.h.building && t.h.sending == s.h.sending && t.log.sent == s.log.sent
    ensures RepliesKept(ls + [l], t)
  {
    ReplyLater(ls, l);
  }

  lemma ReportedStep(p: Protocol, ls: seq<Label>, s: State, l: Label)
    requires AllReported(ls, s) && Enabled(p, s, l)
    requires forall w | w in s.log.reports :: w in Apply(p, s, l).log.reports
    requires l.Rd? && ReaderErrs(l.r) ==> Reader in Apply(p, s, l).log.reports
    requires l.Hd? && HandlerErrs(l.h) ==> Handler(l.id) in Apply(p, s, l).log.reports
    ensures AllReported(ls + [l], Apply(p, s, l))
  {
  }

  lemma ReaderReported(p: Protocol, s: State, r: ReaderLabel)
    requires ReaderEnabled(p, s, r)
    ensures var t := ReaderStep(p, s, r);
            (forall w | w in s.log.reports :: w in t.log.reports) && (ReaderErrs(r) ==> Reader in t.log.reports)
  {
  }

  lemma HandlerReported(p: Protocol, s: State, id: nat, h: HandlerLabel)
    requires HandlerEnabled(p, s, id, h)
    ensures var t := HandlerStep(p, s, id, h);
            (forall w | w in s.log.reports :: w in t.log.reports) && (HandlerErrs(h) ==> Handler(id) in t.log.reports)
  {
  }

  lemma HandlerReplies(p: Protocol, ls: seq<Label>, s: State, id: nat, h: HandlerLabel)
    requires RepliesKept(ls, s) && HandlerEnabled(p, s, id, h)
    ensures RepliesKept(ls + [Hd(id, h)], HandlerStep(p, s, id, h))
  {
    ReplyLater(ls, Hd(id, h));
  }

  lemma ReaderCounted(p: Protocol, ls: seq<Label>, s: State, r: ReaderLabel, id: nat)
    requires ReplyCounted(ls, s, id) && ReaderEnabled(p, s, r)
    ensures ReplyCounted(ls + [Rd(r)], ReaderStep(p, s, r), id)
  {
    Later(ls, Rd(r), id);
  }

  lemma MainCounted(ls: seq<Label>, s: State, m: MainLabel, id: nat)
    requires ReplyCounted(ls, s, id) && MainEnabled(s, m)
    ensures ReplyCounted(ls + [Mn(m)], MainStep(s, m), id)
  {
    Later(ls, Mn(m), id);
  }

  lemma HandlerCounted(p: Protocol, ls: seq<Label>, s: State, who: nat, h: HandlerLabel, id: nat)
    requires ReplyCounted(ls, s, id) && HandlerEnabled(p, s, who, h)
    requires id in s.h.calling ==> id < |s.log.received| && !HeldByReader(s, id) && !HeldByMain(s, id)
    ensures ReplyCounted(ls + [Hd(who, h)], HandlerStep(p, s, who, h), id)
  {
    Later(ls, Hd(who, h), id);
  }

  lemma OnePlace(s: State, id: nat)
    requires Placed(s)
    ensures id in s.h.calling ==> id < |s.log.received| && !HeldByReader(s, id) && !HeldByMain(s, id)
  {
    assert Places(s, id) == Bit(id < |s.log.received|);
  }

  lemma ReaderErrors(p: Protocol, ls: seq<Label>, s: State, r: ReaderLabel)
    requires ErrorsGiven(ls, s) && ReaderEnabled(p, s, r)
    ensures ErrorsGiven(ls + [Rd(r)], ReaderStep(p, s, r))
  {
    var t, ls' := ReaderStep(p, s, r), ls + [Rd(r)];
    assert Rd(r) in ls';
    forall w | w in t.log.reports
      ensures ErrorGiven(ls', w, t.log.reports[w])
    {
      if w in s.log.reports && t.log.reports[w] == s.log.reports[w] {
        ErrorLater(ls, Rd(r), w, s.log.reports[w]);
      }
    }
  }

  /** A response is refused for just the reason that the error names. */
  lemma RefusedExactly(p: Protocol, request: Request, r: Response)
    requires Answers(p, r)
    ensures Build(p, request, r).Failure? ==> Refuses(r, Build(p, request, r).error)
    ensures Build(p, request, r).Success? ==> forall e :: !Refuses(r, e)
  {
  }

  lemma HandlerErrors(p: Protocol, ls: seq<Label>, s: State, id: nat, h: HandlerLabel)
    requires ErrorsGiven(ls, s) && RepliesKept(ls, s) && HandlerEnabled(p, s, id, h)
    ensures ErrorsGiven(ls + [Hd(id, h)], HandlerStep(p, s, id, h))
  {
    var t, ls' := HandlerStep(p, s, id, h), ls + [Hd(id, h)];
    assert Hd(id, h) in ls';
    forall w | w in t.log.reports
      ensures ErrorGiven(ls', w, t.log.reports[w])
    {
      if w in s.log.reports && t.log.reports[w] == s.log.reports[w] {
        ErrorLater(ls, Hd(id, h), w, s.log.reports[w]);
      } else if h.HdRefuse? {
        var (req, r) := s.h.building[id];
        RefusedExactly(p, req, r);
        ReplyLater(ls, Hd(id, h));
        assert Replied(ls', id, r);
      }
    }
  }

  lemma ErrorsLeft(ls: seq<Label>, l: Label, s: State, t: State)
    requires ErrorsGiven(ls, s) && t.log.reports == s.log.reports
    ensures ErrorsGiven(ls + [l], t)
  {
    forall w | w in t.log.reports
      ensures ErrorGiven(ls + [l], w, t.log.reports[w])
    {
      ErrorLater(ls, l, w, s.log.reports[w]);
    }
  }

  // ---- all runs ----

  lemma ReaderTold(p: Protocol, ls: seq<Label>, s: State, r: ReaderLabel)
    requires Told(ls, s) && ReaderEnabled(p, s, r)
    ensures Told(ls + [Rd(r)], ReaderStep(p, s, r))
  {
    ReaderFrame(p, s, r);
    Later(ls, Rd(r), 0);
    RepliesLeft(ls, Rd(r), s, ReaderStep(p, s, r));
    ReaderReported(p, s, r);
    ReportedStep(p, ls, s, Rd(r));
    ReaderErrors(p, ls, s, r);
    forall id: nat { ReaderCounted(p, ls, s, r, id); }
  }

  lemma MainTold(ls: seq<Label>, s: State, m: MainLabel)
    requires Told(ls, s) && MainEnabled(s, m)
    ensures Told(ls + [Mn(m)], MainStep(s, m))
  {
    MainFrame(s, m);
    Later(ls, Mn(m), 0);
    RepliesLeft(ls, Mn(m), s, MainStep(s, m));
    ErrorsLeft(ls, Mn(m), s, MainStep(s, m));
    forall id: nat { MainCounted(ls, s, m, id); }
  }

  lemma HandlerTold(p: Protocol, ls: seq<Label>, s: State, who: nat, h: HandlerLabel)
    requires Told(ls, s) && Placed(s) && HandlerEnabled(p, s, who, h)
    ensures Told(ls + [Hd(who, h)], HandlerStep(p, s, who, h))
  {
    HandlerFrame(p, s, who, h);
    Later(ls, Hd(who, h), 0);
    HandlerReplies(p, ls, s, who, h);
    HandlerReported(p, s, who, h);
    ReportedStep(p, ls, s, Hd(who, h));
    HandlerErrors(p, ls, s, who, h);
    forall id: nat
      ensures ReplyCounted(ls + [Hd(who, h)], HandlerStep(p, s, who, h), id)
    {
      OnePlace(s, id);
      HandlerCounted(p, ls, s, who, h, id);
    }
  }

  lemma EnvTold(ls: seq<Label>, s: State, e: EnvLabel)
    requires Told(ls, s) && EnvEnabled(s, e)
    ensures Told(ls + [Env(e)], EnvStep(s, e))
  {
    var t := EnvStep(s, e);
    Later(ls, Env(e), 0);
    RepliesLeft(ls, Env(e), s, t);
    ErrorsLeft(ls, Env(e), s, t);
    forall id: nat
      ensures ReplyCounted(ls + [Env(e)], t, id)
    {
      Later(ls, Env(e), id);
      assert ReplyCounted(ls, s, id);
    }
  }

  lemma StepTold(p: Protocol, ls: seq<Label>, s: State, l: Label)
    requires Told(ls, s) && Placed(s) && Enabled(p, s, l)
    ensures Told(ls + [l], Apply(p, s, l))
  {
    match l
    case Env(e) => EnvTold(ls, s, e);
    case Rd(r) => ReaderTold(p, ls, s, r);
    case Mn(m) => MainTold(ls, s, m);
    case Hd(id, h) => HandlerTold(p, ls, s, id, h);
  }

  lemma InitTold()
    ensures Told([], INIT)
  {
  }

  lemma PlacedAlong(p: Protocol, ls: seq<Label>, s: State)
    requires Runs(p, INIT, ls, s)
    ensures Placed(s) && Drafted(p, s)
  {
    assert Reachable(p, s);
    ReachableInv(p, s);
  }

  lemma LastTold(p: Protocol, ls: seq<Label>, s: State, l: Label)
    requires Runs(p, INIT, ls, s) && Told(ls, s) && Enabled(p, s, l)
    ensures Told(ls + [l], Apply(p, s, l))
  {
    PlacedAlong(p, ls, s);
    StepTold(p, ls, s, l);
  }

  lemma {:induction false} RunTold(p: Protocol, ls: seq<Label>, s: State)
    requires Runs(p, INIT, ls, s)
    ensures Told(ls, s)
    decreases |ls|
  {
    if ls == [] {
      InitTold();
    } else {
      var n := |ls| - 1;
      var m := LastStep(p, INIT, ls, s);
      RunTold(p, ls[..n], m);
      LastTold(p, ls[..n], m, ls[n]);
      assert ls == ls[..n] + [ls[n]];
    }
  }

  // ---- what is sent and returned ----

  lemma {:induction false} RepliedAt(ls: seq<Label>, id: nat, i: nat)
    requires i < |ls| && IsReply(ls[i], id)
    ensures Replies(ls, id) >= 1
  {
    if i < |ls| - 1 {
      RepliedAt(ls[..|ls| - 1], id, i);
    }
  }

  lemma {:induction false} RepliedTwice(ls: seq<Label>, id: nat, i: nat, j: nat)
    requires i < j < |ls| && IsReply(ls[i], id) && IsReply(ls[j], id)
    ensures Replies(ls, id) >= 2
  {
    if j < |ls| - 1 {
      RepliedTwice(ls[..|ls| - 1], id, i, j);
    } else {
      RepliedAt(ls[..|ls| - 1], id, i);
    }
  }

  /** Each message sent means what its handler said: exactly one step of the run is a reply of that
      handler, and the message is what that reply calls for. The requests received are those that the
      stream yielded. */
  lemma SentAsReplied(p: Protocol, ls: seq<Label>, s: State, k: nat) returns (i: nat, r: Response)
    requires Runs(p, INIT, ls, s) && k < |s.log.sent|
    ensures var Answer(id, d) := s.log.sent[k];
            && i < |ls| && ls[i] == Hd(id, HdReply(r))
            && (forall j | 0 <= j < |ls| && ls[j].Hd? && ls[j].id == id && ls[j].h.HdReply? :: j == i)
            && (p.InterceptHtlcs? ==> r.Intercepted? && Decided(r).Some? && Read(d.msg) == Decided(r))
            && (p.HtlcModifier? ==> r.Modified? && d.msg == Modification(Pack(r.key), r.amtPaid, r.cancelSet))
    ensures s.log.received == Accepted(ls)
  {
    RunTold(p, ls, s);
    PlacedAlong(p, ls, s);
    var Answer(id, d) := s.log.sent[k];
    r := d.reply;
    i :| 0 <= i < |ls| && ls[i] == Hd(id, HdReply(r));
    forall j | 0 <= j < |ls| && ls[j].Hd? && ls[j].id == id && ls[j].h.HdReply?
      ensures j == i
    {
      OneReply(ls, s, id, i, j);
    }
    assert Built(p, d);
    if p.InterceptHtlcs? {
      MessageMeansResponse(d.req, r);
    }
  }

  lemma OneReply(ls: seq<Label>, s: State, id: nat, i: nat, j: nat)
    requires i < |ls| && j < |ls| && IsReply(ls[i], id) && IsReply(ls[j], id) && ReplyCounted(ls, s, id)
    ensures i == j
  {
    if i < j {
      RepliedTwice(ls, id, i, j);
    }
    if j < i {
      RepliedTwice(ls, id, j, i);
    }
  }

  ghost predicate OutcomeGiven(ls: seq<Label>, s: State, out: Outcome) {
    match out
    case Took(r) => ReturnValue(out) == r.err && ErrorGiven(ls, r.who, r.err)
    case SawQuit => ReturnValue(out) == ShuttingDown && s.quit
    case SawContext => ReturnValue(out) == ContextDone && s.done
  }

  /** An error that the call returns was given by the stream, a handler or a send; or a reply
      contradicted itself; or the stream yielded a request that was not well formed; or it tells of the
      shutdown or of the context. */
  lemma ReturnedAsGiven(p: Protocol, ls: seq<Label>, s: State)
    requires Runs(p, INIT, ls, s) && s.main.Returned?
    ensures OutcomeGiven(ls, s, s.main.out)
  {
    RunTold(p, ls, s);
    assert Reachable(p, s);
    ReturnExplained(p, s);
  }

  /** Every send in the run is a response on the wire, in the order of the sends; and every failure of
      the stream, of a handler or of a send has been reported. */
  lemma NothingElseSent(p: Protocol, ls: seq<Label>, s: State)
    requires Runs(p, INIT, ls, s)
    ensures |s.log.sent| == |SentFor(ls)| && forall k | 0 <= k < |s.log.sent| :: s.log.sent[k].id == SentFor(ls)[k]
    ensures forall code :: Rd(RdRecvFail(code)) in ls ==> Reader in s.log.reports
    ensures forall raw :: Rd(RdReject(raw)) in ls ==> Reader in s.log.reports
    ensures forall id, code :: Hd(id, HdFail(code)) in ls ==> Handler(id) in s.log.reports
    ensures forall id, code :: Hd(id, HdSendFail(code)) in ls ==> Handler(id) in s.log.reports
    ensures forall id: nat :: Hd(id, HdRefuse) in ls ==> Handler(id) in s.log.reports
  {
    RunTold(p, ls, s);
  }

  /** What is well formed, and what a handler is given for it. */
  lemma DecodesExactly(p: Protocol, raw: RawRequest)
    requires Receivable(p, raw)
    ensures Decode(p, raw).Success? <==> raw.key.Some? && (p.InterceptHtlcs? ==> |raw.paymentHash| == 32)
    ensures Decode(p, raw).Success? ==>
              var key := CircuitKey(FromUint64(raw.key.value.chanId), raw.key.value.htlcId);
              Decode(p, raw).value == Request(key, raw.body)
    ensures Decode(p, raw).Failure? ==>
              Decode(p, raw).error == if |raw.paymentHash| != 32 then BadPaymentHash else MissingCircuitKey
  {
  }

  // ---- what is possible ----

  lemma {:induction false} RunsOn(p: Protocol, s: State, ls: seq<Label>, t: State, l: Label)
    requires Runs(p, s, ls, t) && Enabled(p, t, l)
    ensures Runs(p, s, ls + [l], Apply(p, t, l))
    decreases |ls|
  {
    if ls == [] {
      assert ls + [l] == [l] && [l][1..] == [];
    } else {
      assert (ls + [l])[1..] == ls[1..] + [l];
      RunsOn(p, Apply(p, s, ls[0]), ls[1..], t, l);
    }
  }

  /** An idle session takes up any well-formed request and calls a handler with it. */
  lemma CanBeHandled(p: Protocol, s: State, raw: RawRequest) returns (ls: seq<Label>, t: State)
    requires s.reader.Checking? && s.main.Selecting? && !s.done && Receivable(p, raw) && Decode(p, raw).Success?
    ensures Runs(p, s, ls, t) && |s.log.received| in t.h.calling
    ensures t.h.calling[|s.log.received|] == Decode(p, raw).value && t.log.received == s.log.received + [raw]
    ensures t.log.sent == s.log.sent && t.reader.Checking? && t.main.Selecting? && !t.done
  {
    ls, t := [], s;
    RunsOn(p, s, ls, t, Rd(RdContinue));
    ls, t := ls + [Rd(RdContinue)], Apply(p, t, Rd(RdContinue));
    RunsOn(p, s, ls, t, Rd(RdAccept(raw)));
    ls, t := ls + [Rd(RdAccept(raw))], Apply(p, t, Rd(RdAccept(raw)));
    RunsOn(p, s, ls, t, Rd(RdHandOff));
    ls, t := ls + [Rd(RdHandOff)], Apply(p, t, Rd(RdHandOff));
    RunsOn(p, s, ls, t, Mn(MnSpawn));
    ls, t := ls + [Mn(MnSpawn)], Apply(p, t, Mn(MnSpawn));
  }

  /** Whatever a handler replies, its goroutine can go on at once to send what the reply means, or to report
      the error if the reply contradicts itself. */
  lemma CanBeAnswered(p: Protocol, s: State, id: nat, r: Response) returns (ls: seq<Label>, t: State)
    requires id in s.h.calling && Answers(p, r)
    ensures Runs(p, s, ls, t)
    ensures Build(p, s.h.calling[id], r).Success? ==>
              t.log.sent == s.log.sent + [Answer(id, Draft(s.h.calling[id], r, Build(p, s.h.calling[id], r).value))]
    ensures Build(p, s.h.calling[id], r).Failure? ==>
              id in t.h.reporting && t.h.reporting[id] == Build(p, s.h.calling[id], r).error
  {
    ls, t := [], s;
    RunsOn(p, s, ls, t, Hd(id, HdReply(r)));
    ls, t := ls + [Hd(id, HdReply(r))], Apply(p, t, Hd(id, HdReply(r)));
    if Build(p, s.h.calling[id], r).Success? {
      RunsOn(p, s, ls, t, Hd(id, HdBuild));
      ls, t := ls + [Hd(id, HdBuild)], Apply(p, t, Hd(id, HdBuild));
      RunsOn(p, s, ls, t, Hd(id, HdSent));
      ls, t := ls + [Hd(id, HdSent)], Apply(p, t, Hd(id, HdSent));
    } else {
      RunsOn(p, s, ls, t, Hd(id, HdRefuse));
      ls, t := ls + [Hd(id, HdRefuse)], Apply(p, t, Hd(id, HdRefuse));
    }
  }
}

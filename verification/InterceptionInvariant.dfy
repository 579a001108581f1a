/** What every step of the interception protocol keeps, one group of facts at a time. */
module InterceptionInvariant {
  import opened Wrappers
  import opened Interception
  import opened Words

  /** How many of the responses on the wire belong to request i. */
  function Occurrences(sent: seq<Answer>, i: nat): nat {
    if sent == [] then 0 else Occurrences(sent[..|sent| - 1], i) + Bit(sent[|sent| - 1].id == i)
  }

  lemma OccurrencesSnoc(sent: seq<Answer>, a: Answer, i: nat)
    ensures Occurrences(sent + [a], i) == Occurrences(sent, i) + Bit(a.id == i)
  {
    assert (sent + [a])[..|sent|] == sent;
  }

  predicate HeldByReader(s: State, i: nat) { s.reader.Offering? && s.reader.id == i }

  predicate HeldByMain(s: State, i: nat) { s.main.Spawning? && s.main.id == i }

  predicate InHandler(s: State, i: nat) { i in s.h.calling || i in s.h.building || i in s.h.sending }

  /** The number of places that hold request i. */
  function Places(s: State, i: nat): nat {
    Bit(HeldByReader(s, i)) + Bit(HeldByMain(s, i))
    + Bit(i in s.h.calling) + Bit(i in s.h.building) + Bit(i in s.h.sending)
    + Occurrences(s.log.sent, i) + Bit(i in s.log.failed) + Bit(i in s.log.dropped)
  }

  /** Every request received is in exactly one place, and nothing else is anywhere. */
  ghost predicate Placed(s: State) {
    forall i: nat :: Places(s, i) == Bit(i < |s.log.received|)
  }

  /** The same by numbers. */
  ghost predicate Counted(s: State) {
    |s.log.received| == Bit(s.reader.Offering?) + Bit(s.main.Spawning?)
      + |s.h.calling| + |s.h.building| + |s.h.sending| + |s.log.sent| + |s.log.failed| + |s.log.dropped|
  }

  /** Only a reader on its way out drops a request, and it drops one at most. */
  ghost predicate Drops(s: State) {
    && |s.log.dropped| <= 1
    && (s.reader.Checking? || s.reader.Receiving? || s.reader.Offering? ==> s.log.dropped == {})
    && (s.log.dropped != {} ==> s.done || s.quit)
  }

  predicate Decoded(p: Protocol, received: seq<RawRequest>, i: nat, req: Request) {
    i < |received| && Receivable(p, received[i]) && Decode(p, received[i]) == Success(req)
  }

  predicate Built(p: Protocol, d: Draft) {
    Answers(p, d.reply) && Build(p, d.req, d.reply) == Success(d.msg)
  }

  /** What each place holds is what was received, decoded. */
  ghost predicate Genuine(p: Protocol, s: State) {
    && (s.reader.Offering? ==> Decoded(p, s.log.received, s.reader.id, s.reader.req))
    && (s.main.Spawning? ==> Decoded(p, s.log.received, s.main.id, s.main.req))
    && (forall i | i in s.h.calling :: Decoded(p, s.log.received, i, s.h.calling[i]))
    && (forall i | i in s.h.building :: Decoded(p, s.log.received, i, s.h.building[i].0))
  }

  /** What is sent was built from the decoded request and its handler's reply. */
  ghost predicate Drafted(p: Protocol, s: State) {
    && (forall i | i in s.h.building :: Answers(p, s.h.building[i].1))
    && (forall i | i in s.h.sending ::
          Decoded(p, s.log.received, i, s.h.sending[i].req) && Built(p, s.h.sending[i]))
    && (forall k | 0 <= k < |s.log.sent| ::
          var a := s.log.sent[k]; Decoded(p, s.log.received, a.id, a.draft.req) && Built(p, a.draft))
  }

  /** Goroutines that report or leave have resolved their request. */
  ghost predicate Resolved(s: State) {
    && (forall i | i in s.h.reporting :: i in s.log.failed)
    && (forall i | i in s.h.leaving :: i in s.log.failed || Occurrences(s.log.sent, i) > 0)
    && s.h.reporting.Keys !! s.h.leaving
  }

  function Handlers(s: State): nat {
    |s.h.calling| + |s.h.building| + |s.h.sending| + |s.h.reporting| + |s.h.leaving|
  }

  ghost predicate WaitGroup(s: State) {
    s.wg == Bit(!s.reader.Gone?) + Handlers(s)
  }

  // ---- reports ----

  predicate Pending(s: State, w: Who) {
    match w
    case Reader => s.reader.Reporting?
    case Handler(id) => id in s.h.reporting
  }

  function Result(m: MainPc): Option<Outcome> {
    if m.Returning? || m.Returned? then Some(m.out) else None
  }

  predicate Taken(s: State, w: Who) {
    Result(s.main).Some? && Result(s.main).value.Took? && Result(s.main).value.report.who == w
  }

  predicate InSlot(s: State, w: Who) { s.slot.Some? && s.slot.value.who == w }

  /** The number of places that hold the report of w. */
  function ReportPlaces(s: State, w: Who): nat {
    Bit(Pending(s, w)) + Bit(InSlot(s, w)) + Bit(Taken(s, w)) + Bit(w in s.log.lost)
  }

  /** Every report made is in exactly one place, and only a finished session loses one. */
  ghost predicate ReportsPlaced(s: State) {
    && (forall w: Who :: ReportPlaces(s, w) == Bit(w in s.log.reports))
    && (s.log.lost != {} ==> s.done || s.quit)
  }

  /** The error found in each place is the one that was reported. */
  ghost predicate ReportsKept(s: State) {
    && (s.reader.Reporting? ==> Reader in s.log.reports && s.log.reports[Reader] == s.reader.err)
    && (forall i | i in s.h.reporting :: Handler(i) in s.log.reports && s.log.reports[Handler(i)] == s.h.reporting[i])
    && (s.slot.Some? ==> s.slot.value.who in s.log.reports && s.log.reports[s.slot.value.who] == s.slot.value.err)
    && (Result(s.main).Some? && Result(s.main).value.Took? ==>
          var r := Result(s.main).value.report;
          r.who in s.log.reports && s.log.reports[r.who] == r.err)
  }

  /** Who can have reported at all, and when the reader reports an end of session. */
  ghost predicate Reporters(s: State) {
    && (Reader in s.log.reports ==> s.reader.Reporting? || s.reader.Leaving? || s.reader.Gone?)
    && (forall i: nat :: Handler(i) in s.log.reports <==> i in s.log.failed)
    && (Reader in s.log.reports && s.log.reports[Reader] == ShuttingDown ==> s.quit)
    && (Reader in s.log.reports && s.log.reports[Reader] == ContextDone ==> s.done)
  }

  /** The reason with which the main loop stops. */
  ghost predicate Reasons(s: State) {
    && (s.main.Returned? ==> s.done)
    && (Result(s.main).Some? ==>
          match Result(s.main).value
          case Took(_) => true
          case SawQuit => s.quit
          case SawContext => s.done)
  }

  ghost predicate Inv(p: Protocol, s: State) {
    && Placed(s) && Counted(s) && Drops(s) && Genuine(p, s) && Drafted(p, s) && Resolved(s) && WaitGroup(s)
    && ReportsPlaced(s) && ReportsKept(s) && Reporters(s) && Reasons(s)
  }

  /** What the one-place rule says about the request that a step moves. */
  ghost predicate Apart(s: State, i: nat) {
    && (HeldByMain(s, i) ==> !InHandler(s, i))
    && (HeldByReader(s, i) ==> i !in s.log.dropped)
    && (InHandler(s, i) ==>
          i !in s.log.failed && Occurrences(s.log.sent, i) == 0 && i !in s.h.reporting && i !in s.h.leaving)
    && (i in s.h.calling ==> i !in s.h.building && i !in s.h.sending)
    && (i in s.h.building ==> i !in s.h.sending)
    && (i in s.h.reporting ==> i !in s.h.leaving)
  }

  lemma Elsewhere(s: State, i: nat)
    requires Placed(s) && Resolved(s)
    ensures Apart(s, i)
  {
    assert Places(s, i) <= 1;
  }

  // ---- one step of the reader ----

  /** A step moves a request from one place to another. */
  lemma ReaderPlaces(p: Protocol, s: State, r: ReaderLabel, i: nat)
    requires ReaderEnabled(p, s, r) && Places(s, i) == Bit(i < |s.log.received|)
    ensures var t := ReaderStep(p, s, r); Places(t, i) == Bit(i < |t.log.received|)
  {
  }

  lemma ReaderCounts(p: Protocol, s: State, r: ReaderLabel)
    requires ReaderEnabled(p, s, r) && Counted(s) && Drops(s) && WaitGroup(s) && Resolved(s)
    requires s.reader.Offering? ==> Apart(s, s.reader.id)
    ensures var t := ReaderStep(p, s, r); Counted(t) && Drops(t) && WaitGroup(t) && Resolved(t)
  {
  }

  lemma ReaderGenuine(p: Protocol, s: State, r: ReaderLabel)
    requires ReaderEnabled(p, s, r) && Genuine(p, s) && Drafted(p, s)
    ensures var t := ReaderStep(p, s, r); Genuine(p, t) && Drafted(p, t)
  {
  }

  /** A step moves a report from one place to another. */
  lemma ReaderReportPlaces(p: Protocol, s: State, r: ReaderLabel, w: Who)
    requires ReaderEnabled(p, s, r) && Reporters(s) && ReportPlaces(s, w) == Bit(w in s.log.reports)
    ensures var t := ReaderStep(p, s, r); ReportPlaces(t, w) == Bit(w in t.log.reports)
  {
  }

  lemma ReaderReportsKept(p: Protocol, s: State, r: ReaderLabel)
    requires ReaderEnabled(p, s, r) && ReportsKept(s) && Reporters(s) && Reasons(s)
    ensures var t := ReaderStep(p, s, r); ReportsKept(t) && Reporters(t) && Reasons(t)
  {
  }

  lemma ReaderInv(p: Protocol, s: State, r: ReaderLabel)
    requires Inv(p, s) && ReaderEnabled(p, s, r)
    ensures Inv(p, ReaderStep(p, s, r))
  {
    var t := ReaderStep(p, s, r);
    forall i: nat ensures Places(t, i) == Bit(i < |t.log.received|) { ReaderPlaces(p, s, r, i); }
    forall w: Who ensures ReportPlaces(t, w) == Bit(w in t.log.reports) { ReaderReportPlaces(p, s, r, w); }
    if s.reader.Offering? { Elsewhere(s, s.reader.id); }
    ReaderCounts(p, s, r);
    ReaderGenuine(p, s, r);
    ReaderReportsKept(p, s, r);
  }

  // ---- one step of the main loop ----

  lemma MainPlaces(s: State, m: MainLabel, i: nat)
    requires MainEnabled(s, m) && Places(s, i) == Bit(i < |s.log.received|)
    ensures var t := MainStep(s, m); Places(t, i) == Bit(i < |t.log.received|)
  {
  }

  lemma MainCounts(s: State, m: MainLabel)
    requires MainEnabled(s, m) && Counted(s) && Drops(s) && WaitGroup(s) && Resolved(s)
    requires s.main.Spawning? ==> Apart(s, s.main.id)
    ensures var t := MainStep(s, m); Counted(t) && Drops(t) && WaitGroup(t) && Resolved(t)
  {
  }

  lemma MainGenuine(p: Protocol, s: State, m: MainLabel)
    requires MainEnabled(s, m) && Genuine(p, s) && Drafted(p, s)
    ensures var t := MainStep(s, m); Genuine(p, t) && Drafted(p, t)
  {
  }

  lemma MainReportsKept(s: State, m: MainLabel)
    requires MainEnabled(s, m) && ReportsKept(s) && Reporters(s) && Reasons(s)
    ensures var t := MainStep(s, m); ReportsKept(t) && Reporters(t) && Reasons(t)
  {
  }

  lemma MainReportPlaces(s: State, m: MainLabel, w: Who)
    requires MainEnabled(s, m) && ReportPlaces(s, w) == Bit(w in s.log.reports)
    ensures var t := MainStep(s, m); ReportPlaces(t, w) == Bit(w in t.log.reports)
  {
  }

  lemma MainInv(p: Protocol, s: State, m: MainLabel)
    requires Inv(p, s) && MainEnabled(s, m)
    ensures Inv(p, MainStep(s, m))
  {
    var t := MainStep(s, m);
    forall i: nat ensures Places(t, i) == Bit(i < |t.log.received|) { MainPlaces(s, m, i); }
    forall w: Who ensures ReportPlaces(t, w) == Bit(w in t.log.reports) { MainReportPlaces(s, m, w); }
    if s.main.Spawning? { Elsewhere(s, s.main.id); }
    MainCounts(s, m);
    MainGenuine(p, s, m);
    MainReportsKept(s, m);
    assert t.log.lost == s.log.lost;
  }

  // ---- one step of a handler ----

  predicate GivesUp(h: HandlerLabel) { h.HdFail? || h.HdRefuse? || h.HdSendFail? }

  lemma HandlerPlaces(p: Protocol, s: State, id: nat, h: HandlerLabel, i: nat)
    requires HandlerEnabled(p, s, id, h) && Places(s, i) == Bit(i < |s.log.received|)
    ensures var t := HandlerStep(p, s, id, h); Places(t, i) == Bit(i < |t.log.received|)
  {
    if h.HdSent? {
      OccurrencesSnoc(s.log.sent, Answer(id, s.h.sending[id]), i);
    }
  }

  /** How a step changes the number of goroutines at each stage. */
  lemma HandlerSizes(p: Protocol, s: State, id: nat, h: HandlerLabel)
    requires HandlerEnabled(p, s, id, h) && Apart(s, id)
    ensures var t := HandlerStep(p, s, id, h).h;
            && |t.calling| == |s.h.calling| - Bit(h.HdFail? || h.HdReply?)
            && |t.building| == |s.h.building| + Bit(h.HdReply?) - Bit(h.HdBuild? || h.HdRefuse?)
            && |t.sending| == |s.h.sending| + Bit(h.HdBuild?) - Bit(h.HdSent? || h.HdSendFail?)
            && |t.reporting| == |s.h.reporting| + Bit(GivesUp(h)) - Bit(h.HdPut? || h.HdLose?)
            && |t.leaving| == |s.h.leaving| + Bit(h.HdSent? || h.HdPut? || h.HdLose?) - Bit(h.HdLeave?)
  {
  }

  lemma HandlerCounts(p: Protocol, s: State, id: nat, h: HandlerLabel)
    requires HandlerEnabled(p, s, id, h) && Apart(s, id) && Counted(s) && Drops(s)
    ensures var t := HandlerStep(p, s, id, h); Counted(t) && Drops(t)
  {
    HandlerSizes(p, s, id, h);
  }

  lemma HandlerWaitGroup(p: Protocol, s: State, id: nat, h: HandlerLabel)
    requires HandlerEnabled(p, s, id, h) && Apart(s, id) && WaitGroup(s)
    ensures WaitGroup(HandlerStep(p, s, id, h))
  {
    HandlerSizes(p, s, id, h);
  }

  lemma HandlerResolved(p: Protocol, s: State, id: nat, h: HandlerLabel)
    requires HandlerEnabled(p, s, id, h) && Apart(s, id) && Resolved(s)
    ensures Resolved(HandlerStep(p, s, id, h))
  {
    if h.HdSent? {
      forall i: nat {
        OccurrencesSnoc(s.log.sent, Answer(id, s.h.sending[id]), i);
      }
    }
  }

  lemma HandlerGenuine(p: Protocol, s: State, id: nat, h: HandlerLabel)
    requires HandlerEnabled(p, s, id, h) && Genuine(p, s)
    ensures Genuine(p, HandlerStep(p, s, id, h))
  {
  }

  lemma HandlerDrafted(p: Protocol, s: State, id: nat, h: HandlerLabel)
    requires HandlerEnabled(p, s, id, h) && Genuine(p, s) && Drafted(p, s)
    ensures Drafted(p, HandlerStep(p, s, id, h))
  {
  }

  lemma HandlerReportPlaces(p: Protocol, s: State, id: nat, h: HandlerLabel, w: Who)
    requires HandlerEnabled(p, s, id, h) && ReportPlaces(s, w) == Bit(w in s.log.reports)
    requires GivesUp(h) ==> Handler(id) !in s.log.reports
    ensures var t := HandlerStep(p, s, id, h); ReportPlaces(t, w) == Bit(w in t.log.reports)
  {
  }

  lemma HandlerReportsKept(p: Protocol, s: State, id: nat, h: HandlerLabel)
    requires HandlerEnabled(p, s, id, h) && ReportsKept(s)
    requires GivesUp(h) ==> Handler(id) !in s.log.reports
    ensures ReportsKept(HandlerStep(p, s, id, h))
  {
  }

  lemma HandlerReporters(p: Protocol, s: State, id: nat, h: HandlerLabel)
    requires HandlerEnabled(p, s, id, h) && Reporters(s) && Reasons(s)
    ensures var t := HandlerStep(p, s, id, h); Reporters(t) && Reasons(t)
  {
  }

  lemma HandlerInv(p: Protocol, s: State, id: nat, h: HandlerLabel)
    requires Inv(p, s) && HandlerEnabled(p, s, id, h)
    ensures Inv(p, HandlerStep(p, s, id, h))
  {
    Elsewhere(s, id);
    var t := HandlerStep(p, s, id, h);
    forall i: nat ensures Places(t, i) == Bit(i < |t.log.received|) { HandlerPlaces(p, s, id, h, i); }
    forall w: Who ensures ReportPlaces(t, w) == Bit(w in t.log.reports) { HandlerReportPlaces(p, s, id, h, w); }
    assert t.log.lost != {} ==> t.done || t.quit;
    HandlerCounts(p, s, id, h);
    HandlerWaitGroup(p, s, id, h);
    HandlerResolved(p, s, id, h);
    HandlerGenuine(p, s, id, h);
    HandlerDrafted(p, s, id, h);
    HandlerReportsKept(p, s, id, h);
    HandlerReporters(p, s, id, h);
  }

  // ---- all runs ----

  lemma InitInv(p: Protocol)
    ensures Inv(p, INIT)
  {
  }

  lemma EnvCounts(s: State, e: EnvLabel)
    requires EnvEnabled(s, e) && Placed(s) && Counted(s) && Drops(s) && WaitGroup(s) && Resolved(s)
    ensures var t := EnvStep(s, e); Placed(t) && Counted(t) && Drops(t) && WaitGroup(t) && Resolved(t)
  {
    var t := EnvStep(s, e);
    forall i: nat ensures Places(t, i) == Bit(i < |t.log.received|) { assert Places(t, i) == Places(s, i); }
  }

  lemma EnvGenuine(p: Protocol, s: State, e: EnvLabel)
    requires EnvEnabled(s, e) && Genuine(p, s) && Drafted(p, s)
    ensures var t := EnvStep(s, e); Genuine(p, t) && Drafted(p, t)
  {
  }

  lemma EnvReports(s: State, e: EnvLabel)
    requires EnvEnabled(s, e) && ReportsPlaced(s) && ReportsKept(s) && Reporters(s) && Reasons(s)
    ensures var t := EnvStep(s, e); ReportsPlaced(t) && ReportsKept(t) && Reporters(t) && Reasons(t)
  {
    var t := EnvStep(s, e);
    forall w: Who ensures ReportPlaces(t, w) == Bit(w in t.log.reports) {
      assert ReportPlaces(t, w) == ReportPlaces(s, w);
    }
  }

  lemma StepInv(p: Protocol, s: State, l: Label)
    requires Inv(p, s) && Enabled(p, s, l)
    ensures Inv(p, Apply(p, s, l))
  {
    match l
    case Env(e) =>
      EnvCounts(s, e);
      EnvGenuine(p, s, e);
      EnvReports(s, e);
    case Rd(r) => ReaderInv(p, s, r);
    case Mn(m) => MainInv(p, s, m);
    case Hd(id, h) => HandlerInv(p, s, id, h);
  }

  lemma {:induction false} RunInv(p: Protocol, s: State, ls: seq<Label>, t: State)
    requires Inv(p, s) && Runs(p, s, ls, t)
    ensures Inv(p, t)
    decreases |ls|
  {
    if ls != [] {
      StepInv(p, s, ls[0]);
      RunInv(p, Apply(p, s, ls[0]), ls[1..], t);
    }
  }

  lemma ReachableInv(p: Protocol, s: State)
    requires Reachable(p, s)
    ensures Inv(p, s)
  {
    var ls :| Runs(p, INIT, ls, s);
    InitInv(p);
    RunInv(p, INIT, ls, s);
  }
}

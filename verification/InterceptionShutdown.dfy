/** The end of a session: what is left to run, and what waiting for the wait group means. */
module InterceptionShutdown {
  import opened Wrappers
  import opened Interception
  import opened InterceptionInvariant
  import opened Words
  import opened InterceptionSafety

  /** The main loop has returned and its deferred cancel has run. */
  predicate Over(s: State) { s.main.Returned? && s.done }

  function ReaderWeight(r: ReaderPc): nat {
    match r
    case Receiving => 4
    case Offering(_, _) => 3
    case Checking => 2
    case Reporting(_) => 2
    case Leaving => 1
    case Gone => 0
  }

  function Measure(s: State): nat {
    ReaderWeight(s.reader)
    + 5 * |s.h.calling| + 4 * |s.h.building| + 3 * |s.h.sending| + 2 * |s.h.reporting| + |s.h.leaving|
  }

  predicate Live(s: State, w: Who) {
    match w
    case Reader => !s.reader.Gone?
    case Handler(id) => InHandler(s, id) || id in s.h.reporting || id in s.h.leaving
  }

  /** No goroutine is stuck, given that Recv, Send and the handler return once the context is done:
      each live one has a step that it can take. */
  lemma NobodyStuck(p: Protocol, s: State, w: Who) returns (l: Label)
    requires Reachable(p, s) && Over(s) && Live(s, w)
    ensures Enabled(p, s, l) && Actor(l) == Some(w)
  {
    ReachableInv(p, s);
    l := NextStep(p, s, w);
  }

  lemma NextStep(p: Protocol, s: State, w: Who) returns (l: Label)
    requires Drafted(p, s) && Over(s) && Live(s, w)
    ensures Enabled(p, s, l) && Actor(l) == Some(w)
  {
    if w.Reader? { l := ReaderNext(p, s); } else { l := HandlerNext(p, s, w.id); }
  }

  lemma ReaderNext(p: Protocol, s: State) returns (l: Label)
    requires Over(s) && Live(s, Reader)
    ensures Enabled(p, s, l) && Actor(l) == Some(Reader)
  {
    if s.reader.Checking? { l := Rd(RdStop); }
    else if s.reader.Receiving? { l := Rd(RdRecvFail(0)); }
    else if s.reader.Offering? { l := Rd(RdSeeContext); }
    else if s.reader.Reporting? { l := Rd(RdLose); }
    else { l := Rd(RdLeave); }
  }

  lemma HandlerNext(p: Protocol, s: State, id: nat) returns (l: Label)
    requires Drafted(p, s) && Over(s) && Live(s, Handler(id))
    ensures Enabled(p, s, l) && Actor(l) == Some(Handler(id))
  {
    if id in s.h.calling { l := Hd(id, HdFail(0)); }
    else if id in s.h.building {
      var (req, r) := s.h.building[id];
      l := if Build(p, req, r).Success? then Hd(id, HdBuild) else Hd(id, HdRefuse);
    }
    else if id in s.h.sending { l := Hd(id, HdSendFail(0)); }
    else if id in s.h.reporting { l := Hd(id, HdLose); }
    else { l := Hd(id, HdLeave); }
  }

  /** The session stays over, and every step of a goroutine brings the end nearer. */
  lemma StepFalls(p: Protocol, s: State, l: Label)
    requires Placed(s) && Resolved(s) && Over(s) && Enabled(p, s, l)
    ensures Over(Apply(p, s, l))
    ensures Measure(Apply(p, s, l)) + Bit(Actor(l).Some?) <= Measure(s)
  {
    if l.Hd? { Elsewhere(s, l.id); HandlerFalls(p, s, l.id, l.h); }
  }

  lemma HandlerFalls(p: Protocol, s: State, id: nat, h: HandlerLabel)
    requires HandlerEnabled(p, s, id, h) && Apart(s, id)
    ensures Measure(HandlerStep(p, s, id, h)) < Measure(s)
  {
    HandlerSizes(p, s, id, h);
  }

  function GoroutineSteps(ls: seq<Label>): nat {
    if ls == [] then 0 else Bit(Actor(ls[0]).Some?) + GoroutineSteps(ls[1..])
  }

  /** However the rest of the run goes, it has no more goroutine steps than the measure allows. */
  lemma {:induction false} ExitBounded(p: Protocol, s: State, ls: seq<Label>, t: State)
    requires Inv(p, s) && Over(s) && Runs(p, s, ls, t)
    ensures Over(t) && GoroutineSteps(ls) + Measure(t) <= Measure(s)
    decreases |ls|
  {
    if ls != [] {
      StepFalls(p, s, ls[0]);
      StepInv(p, s, ls[0]);
      ExitBounded(p, Apply(p, s, ls[0]), ls[1..], t);
    }
  }

  /** Every session that is over can be run to the point where its wait group is back at zero. */
  lemma {:induction false} Drains(p: Protocol, s: State) returns (ls: seq<Label>, t: State)
    requires Inv(p, s) && Over(s)
    ensures Runs(p, s, ls, t) && t.wg == 0
    decreases Measure(s)
  {
    if s.wg == 0 {
      ls, t := [], s;
    } else {
      var l := AnyStep(p, s);
      StepFalls(p, s, l);
      StepInv(p, s, l);
      var ls', t' := Drains(p, Apply(p, s, l));
      ls, t := [l] + ls', t';
      assert ls[1..] == ls';
    }
  }

  lemma AnyStep(p: Protocol, s: State) returns (l: Label)
    requires Inv(p, s) && Over(s) && s.wg != 0
    ensures Enabled(p, s, l) && Actor(l).Some?
  {
    var w := SomeoneLive(s);
    l := NextStep(p, s, w);
  }

  lemma SomeoneLive(s: State) returns (w: Who)
    requires WaitGroup(s) && s.wg != 0
    ensures Live(s, w)
  {
    if !s.reader.Gone? { return Reader; }
    if s.h.calling != map[] { var id :| id in s.h.calling; return Handler(id); }
    if s.h.building != map[] { var id :| id in s.h.building; return Handler(id); }
    if s.h.sending != map[] { var id :| id in s.h.sending; return Handler(id); }
    if s.h.reporting != map[] { var id :| id in s.h.reporting; return Handler(id); }
    var id :| id in s.h.leaving;
    return Handler(id);
  }

  // ---- WaitForFinished as a barrier ----

  /** Some run from s leads to a state with a handler goroutine. */
  ghost predicate HandlerCanStart(p: Protocol, s: State) {
    exists ls, t :: Runs(p, s, ls, t) && t.h != NO_WORKERS
  }

  predicate Quiet(s: State) {
    s.reader.Gone? && !s.main.Spawning? && s.h == NO_WORKERS
  }

  lemma {:induction false} QuietStays(p: Protocol, s: State, ls: seq<Label>, t: State)
    requires Quiet(s) && Runs(p, s, ls, t)
    ensures Quiet(t)
    decreases |ls|
  {
    if ls != [] {
      QuietStays(p, Apply(p, s, ls[0]), ls[1..], t);
    }
  }

  /** When the wait group is at zero, a handler can still start exactly if the main loop holds a
      request that it has taken but not yet added a goroutine for. */
  lemma BarrierExact(p: Protocol, s: State)
    requires Reachable(p, s) && s.wg == 0
    ensures HandlerCanStart(p, s) <==> s.main.Spawning?
  {
    WaitGroupExact(p, s);
    if s.main.Spawning? {
      var t := Apply(p, s, Mn(MnSpawn));
      assert Runs(p, t, [], t);
      assert [Mn(MnSpawn)][1..] == [];
      assert Runs(p, s, [Mn(MnSpawn)], t) && s.main.id in t.h.calling;
    } else if HandlerCanStart(p, s) {
      var ls, t :| Runs(p, s, ls, t) && t.h != NO_WORKERS;
      QuietStays(p, s, ls, t);
      assert false;
    }
  }

  /** And such a state is reached while WaitForFinished waits, with quit closed: the reader hands a
      request over, sees the context done and leaves before the main loop adds the handler. */
  lemma BarrierLeaks(p: Protocol, raw: RawRequest) returns (s: State)
    requires Receivable(p, raw) && Decode(p, raw).Success?
    ensures Reachable(p, s) && s.quit && s.wg == 0 && s.main.Spawning?
  {
    assert Runs(p, INIT, [], INIT);
    var s1 := Then(p, INIT, Rd(RdContinue));
    var s2 := Then(p, s1, Rd(RdAccept(raw)));
    var s3 := Then(p, s2, Rd(RdHandOff));
    var s4 := Then(p, s3, Env(CancelContext));
    var s5 := Then(p, s4, Rd(RdStop));
    var s6 := Then(p, s5, Rd(RdLeave));
    s := Then(p, s6, Env(CloseQuit));
  }

  lemma Then(p: Protocol, s: State, l: Label) returns (t: State)
    requires Reachable(p, s) && Enabled(p, s, l)
    ensures Reachable(p, t) && t == Apply(p, s, l)
  {
    t := Apply(p, s, l);
    var ls :| Runs(p, INIT, ls, s);
    Extend(p, INIT, ls, s, l);
  }

  lemma {:induction false} Extend(p: Protocol, s: State, ls: seq<Label>, t: State, l: Label)
    requires Runs(p, s, ls, t) && Enabled(p, t, l)
    ensures Runs(p, s, ls + [l], Apply(p, t, l))
    decreases |ls|
  {
    if ls == [] {
      assert ([l])[1..] == [] && ls + [l] == [l];
    } else {
      assert (ls + [l])[1..] == ls[1..] + [l];
      Extend(p, Apply(p, s, ls[0]), ls[1..], t, l);
    }
  }
}

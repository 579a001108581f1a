/** Start-up: getLndInfo together with the goroutine that SubscribeState starts for it. The two
    share a one-slot state channel, a one-slot error channel and a context. */
module StateSubscription {
  import opened Wrappers

  datatype WalletState = NonExisting | Locked | Unlocked | RpcActive | ServerActive | WaitingToStart

  /** The RPC's numbers for the wallet states. */
  function Unmarshal(rpc: int): Option<WalletState> {
    if rpc == 255 then Some(WaitingToStart)
    else if rpc == 0 then Some(NonExisting)
    else if rpc == 1 then Some(Locked)
    else if rpc == 2 then Some(Unlocked)
    else if rpc == 3 then Some(RpcActive)
    else if rpc == 4 then Some(ServerActive)
    else None
  }

  predicate ReadyForGetInfo(w: WalletState) { w.RpcActive? || w.ServerActive? }

  datatype Err = RecvFailed(code: int) | UnknownState(rpc: int)

  datatype Producer =
    | Receiving
    | Sending(w: WalletState)     // in the select that sends on the state channel
    | ClosingStates | ClosingErrs
    | Failing(err: Err)           // sending on the error channel
    | Stopped

  datatype Consumer =
    | Selecting
    | AskingInfo                  // the GetInfo call
    | Informed                    // returned what GetInfo said
    | Failed(err: Err)            // returned an error of the subscription
    | Cancelled

  datatype State = State(
    wait: bool,                   // waitForUnlocked
    done: bool,                   // the context
    states: Option<WalletState>, statesClosed: bool,
    errs: Option<Err>, errsClosed: bool,
    producer: Producer,
    consumer: Consumer,
    panicked: bool,               // a send on a closed channel, or a second close
    // history
    yielded: seq<WalletState>,    // what the stream has yielded, decoded
    taken: seq<WalletState>,      // what the consumer has taken
    unsent: seq<WalletState>,     // what the producer was left with when it saw the context done
    errCount: nat)                // errors put on the error channel

  function Init(wait: bool): State {
    State(wait, false, None, false, None, false, Receiving, if wait then Selecting else AskingInfo, false,
          [], [], [], 0)
  }

  datatype Label =
    | Cancel
    | RecvFail(code: int) | RecvKnown(rpc: int) | RecvUnknown(rpc: int)
    | Send | SeeContext | CloseStates | CloseErrs | PutErr
    | TakeState | SeeStatesClosed | TakeErr | SeeErrsClosed | StopOnContext | GetInfo

  predicate Enabled(s: State, l: Label) {
    match l
    case Cancel => !s.done
    case RecvFail(_) => s.producer.Receiving?
    case RecvKnown(rpc) => s.producer.Receiving? && Unmarshal(rpc).Some?
    case RecvUnknown(rpc) => s.producer.Receiving? && Unmarshal(rpc).None?
    case Send => s.producer.Sending? && (s.states.None? || s.statesClosed)
    case SeeContext => s.producer.Sending? && s.done
    case CloseStates => s.producer.ClosingStates?
    case CloseErrs => s.producer.ClosingErrs?
    case PutErr => s.producer.Failing? && (s.errs.None? || s.errsClosed)
    case TakeState => s.consumer.Selecting? && s.states.Some?
    case SeeStatesClosed => s.consumer.Selecting? && s.states.None? && s.statesClosed
    case TakeErr => s.consumer.Selecting? && s.errs.Some?
    case SeeErrsClosed => s.consumer.Selecting? && s.errs.None? && s.errsClosed
    case StopOnContext => s.consumer.Selecting? && s.done
    case GetInfo => s.consumer.AskingInfo?
  }

  function Apply(s: State, l: Label): State
    requires Enabled(s, l)
  {
    match l
    case Cancel => s.(done := true)
    case RecvFail(code) => s.(producer := Failing(RecvFailed(code)))
    case RecvKnown(rpc) =>
      var w := Unmarshal(rpc).value; s.(producer := Sending(w), yielded := s.yielded + [w])
    case RecvUnknown(rpc) => s.(producer := Failing(UnknownState(rpc)))
    case Send =>
      if s.statesClosed then s.(panicked := true, producer := Stopped)
      else s.(states := Some(s.producer.w), producer := if s.producer.w.ServerActive? then ClosingStates else Receiving)
    case SeeContext => s.(producer := Stopped, unsent := [s.producer.w])
    case CloseStates =>
      s.(statesClosed := true, panicked := s.panicked || s.statesClosed, producer := ClosingErrs)
    case CloseErrs => s.(errsClosed := true, panicked := s.panicked || s.errsClosed, producer := Stopped)
    case PutErr =>
      if s.errsClosed then s.(panicked := true, producer := Stopped)
      else s.(errs := Some(s.producer.err), errCount := s.errCount + 1, producer := Stopped)
    case TakeState =>
      s.(states := None, taken := s.taken + [s.states.value],
         consumer := if ReadyForGetInfo(s.states.value) then AskingInfo else Selecting)
    case SeeStatesClosed => s.(consumer := AskingInfo)
    case TakeErr => s.(errs := None, consumer := Failed(s.errs.value))
    case SeeErrsClosed => s.(consumer := AskingInfo)
    case StopOnContext => s.(consumer := Cancelled)
    case GetInfo => s.(consumer := Informed)
  }

  ghost predicate Runs(s: State, ls: seq<Label>, t: State)
    decreases |ls|
  {
    if ls == [] then s == t
    else Enabled(s, ls[0]) && Runs(Apply(s, ls[0]), ls[1..], t)
  }

  ghost predicate Reachable(s: State) {
    exists ls :: Runs(Init(s.wait), ls, s)
  }

  // ---- what every step keeps ----

  function Buffered(s: State): seq<WalletState> { if s.states.Some? then [s.states.value] else [] }

  function InHand(s: State): seq<WalletState> { if s.producer.Sending? then [s.producer.w] else s.unsent }

  /** Every state that the stream yields is passed on once and in order. */
  predicate InOrder(s: State) {
    && s.yielded == s.taken + Buffered(s) + InHand(s)
    && (s.unsent != [] ==> s.producer.Stopped? && s.done)
  }

  predicate EndsActive(ws: seq<WalletState>) { ws != [] && ws[|ws| - 1].ServerActive? }

  /** The channels are closed once, by a producer that has yielded SERVER_ACTIVE last. */
  predicate ClosedLast(s: State) {
    && !s.panicked
    && (s.producer.ClosingStates? ==> !s.statesClosed && EndsActive(s.yielded))
    && (s.producer.ClosingErrs? ==> s.statesClosed)
    && (s.statesClosed ==> EndsActive(s.yielded) && (s.producer.ClosingErrs? || s.producer.Stopped?))
    && (s.errsClosed ==> s.statesClosed && s.producer.Stopped?)
  }

  /** At most one error is put, and then the producer has stopped. */
  predicate OneErr(s: State) {
    && s.errCount <= 1
    && (s.errCount == 1 ==> s.producer.Stopped? && !s.statesClosed)
    && (s.errs.Some? ==> s.errCount == 1)
    && (s.consumer.Failed? ==> s.errCount == 1 && s.errs.None?)
  }

  /** A waiting consumer goes on to GetInfo only on a ready state or on a closed channel. */
  predicate AsksReady(s: State) {
    && (s.consumer.Cancelled? ==> s.done)
    && (s.wait && (s.consumer.AskingInfo? || s.consumer.Informed?) ==>
          s.statesClosed || (s.taken != [] && ReadyForGetInfo(s.taken[|s.taken| - 1])))
    && (!s.wait ==> s.consumer.AskingInfo? || s.consumer.Informed?)
  }

  predicate Inv(s: State) { InOrder(s) && ClosedLast(s) && OneErr(s) && AsksReady(s) }

  lemma StepInOrder(s: State, l: Label)
    requires InOrder(s) && ClosedLast(s) && Enabled(s, l)
    ensures InOrder(Apply(s, l))
  {
  }

  lemma StepClosedLast(s: State, l: Label)
    requires InOrder(s) && ClosedLast(s) && Enabled(s, l)
    ensures ClosedLast(Apply(s, l))
  {
  }

  lemma StepOneErr(s: State, l: Label)
    requires ClosedLast(s) && OneErr(s) && Enabled(s, l)
    ensures OneErr(Apply(s, l))
  {
  }

  lemma StepAsksReady(s: State, l: Label)
    requires ClosedLast(s) && AsksReady(s) && Enabled(s, l)
    ensures AsksReady(Apply(s, l))
  {
  }

  lemma {:induction false} RunInv(s: State, ls: seq<Label>, t: State)
    requires Inv(s) && Runs(s, ls, t)
    ensures Inv(t)
    decreases |ls|
  {
    if ls != [] {
      var l := ls[0];
      StepInOrder(s, l);
      StepClosedLast(s, l);
      StepOneErr(s, l);
      StepAsksReady(s, l);
      RunInv(Apply(s, l), ls[1..], t);
    }
  }

  lemma ReachableInv(s: State)
    requires Reachable(s)
    ensures Inv(s)
  {
    var ls :| Runs(Init(s.wait), ls, s);
    RunInv(Init(s.wait), ls, s);
  }

  // ---- what holds in every run ----

  /** In wait mode GetInfo is called only after the stream has yielded RPC_ACTIVE or SERVER_ACTIVE,
      whichever channel the select looked at. */
  lemma GetInfoAfterReady(s: State)
    requires Reachable(s) && s.wait && (s.consumer.AskingInfo? || s.consumer.Informed?)
    ensures exists w :: w in s.yielded && ReadyForGetInfo(w)
  {
    ReachableInv(s);
    if s.statesClosed {
      assert s.yielded[|s.yielded| - 1] in s.yielded;
    } else {
      var k := |s.taken| - 1;
      assert s.yielded[k] == s.taken[k] && s.yielded[k] in s.yielded;
    }
  }

  /** SubscribeState never sends on or closes a closed channel, passes states on in order, and puts
      at most one error, which never has to wait. */
  lemma ChannelsSound(s: State)
    requires Reachable(s)
    ensures !s.panicked && s.errCount <= 1
    ensures s.taken + Buffered(s) <= s.yielded
    ensures s.producer.Failing? ==> Enabled(s, PutErr)
  {
    ReachableInv(s);
    assert s.yielded[..|s.taken + Buffered(s)|] == s.taken + Buffered(s);
  }

  /** The order in which lnd goes through its states. */
  function Rank(w: WalletState): nat {
    match w
    case WaitingToStart => 0
    case NonExisting => 1
    case Locked => 2
    case Unlocked => 3
    case RpcActive => 4
    case ServerActive => 5
  }

  predicate Progresses(ws: seq<WalletState>) {
    forall i, j | 0 <= i < j < |ws| :: Rank(ws[i]) < Rank(ws[j])
  }

  /** The producer waits for a receiver that has gone, and the context is not done. */
  predicate Stuck(s: State) {
    s.producer.Sending? && s.states.Some? && !s.done && !s.consumer.Selecting?
  }

  /** Once the consumer has stopped reading, the producer is stuck exactly when two states have been
      yielded that the consumer did not take, and the context is not done. */
  lemma StuckExactly(s: State)
    requires Reachable(s) && !s.consumer.Selecting?
    ensures Stuck(s) <==> !s.done && |s.yielded| >= |s.taken| + 2
  {
    ReachableInv(s);
  }

  /** Only the context can free a producer that is stuck. */
  lemma StuckStays(s: State, ls: seq<Label>, t: State)
    requires Reachable(s) && Stuck(s) && Runs(s, ls, t) && Cancel !in ls
    ensures Stuck(t) && t.producer == s.producer
  {
    ReachableInv(s);
    StuckUntilCancelled(s, ls, t);
  }

  lemma {:induction false} StuckUntilCancelled(s: State, ls: seq<Label>, t: State)
    requires Stuck(s) && !s.statesClosed && Runs(s, ls, t) && Cancel !in ls
    ensures Stuck(t) && t.producer == s.producer
    decreases |ls|
  {
    if ls != [] {
      StuckStep(s, ls[0]);
      StuckUntilCancelled(Apply(s, ls[0]), ls[1..], t);
    }
  }

  lemma StuckStep(s: State, l: Label)
    requires Stuck(s) && !s.statesClosed && Enabled(s, l) && l != Cancel
    ensures var t := Apply(s, l); Stuck(t) && !t.statesClosed && t.producer == s.producer
  {
  }

  /** So with states that progress strictly, a waiting getLndInfo that has stopped never leaves the
      producer stuck, for whatever reason it stopped. */
  lemma NeverStuck(s: State)
    requires Reachable(s) && s.wait && !s.consumer.Selecting? && Progresses(s.yielded)
    ensures !Stuck(s)
  {
    ReachableInv(s);
    if Stuck(s) {
      TwoMoreRanks(s.yielded, |s.taken| - 1);
      assert false;
    }
  }

  lemma TwoMoreRanks(ws: seq<WalletState>, k: nat)
    requires Progresses(ws) && k + 2 < |ws|
    ensures Rank(ws[k]) + 2 <= Rank(ws[k + 2])
  {
    assert Rank(ws[k]) < Rank(ws[k + 1]) < Rank(ws[k + 2]);
  }

  /** Without strict progress it can be left stuck, and so can it in the mode that does not wait. */
  lemma RepeatedStateSticks() returns (s: State)
    ensures Reachable(s) && s.wait && Stuck(s) && !Progresses(s.yielded)
  {
    var rpc := RecvKnown(3);
    var s0 := Init(true);
    var s1 := Apply(s0, rpc);
    var s2 := Apply(s1, Send);
    var s3 := Apply(s2, TakeState);
    var s4 := Apply(s3, rpc);
    var s5 := Apply(s4, Send);
    s := Apply(s5, rpc);
    Then(s0, [], s0, rpc);
    Then(s0, [rpc], s1, Send);
    Then(s0, [rpc] + [Send], s2, TakeState);
    Then(s0, [rpc] + [Send] + [TakeState], s3, rpc);
    Then(s0, [rpc] + [Send] + [TakeState] + [rpc], s4, Send);
    Then(s0, [rpc] + [Send] + [TakeState] + [rpc] + [Send], s5, rpc);
    assert Rank(s.yielded[0]) == Rank(s.yielded[1]);
  }

  lemma NoWaitSticks() returns (s: State)
    ensures Reachable(s) && !s.wait && Stuck(s) && Progresses(s.yielded)
  {
    var s0 := Init(false);
    var a, b := RecvKnown(1), RecvKnown(2);
    var s1 := Apply(s0, a);
    var s2 := Apply(s1, Send);
    s := Apply(s2, b);
    Then(s0, [], s0, a);
    Then(s0, [a], s1, Send);
    Then(s0, [a] + [Send], s2, b);
  }

  lemma {:induction false} Then(s: State, ls: seq<Label>, t: State, l: Label)
    requires Runs(s, ls, t) && Enabled(t, l)
    ensures Runs(s, ls + [l], Apply(t, l))
    decreases |ls|
  {
    if ls == [] {
      assert ls + [l] == [l] && [l][1..] == [];
    } else {
      assert (ls + [l])[1..] == ls[1..] + [l];
      Then(Apply(s, ls[0]), ls[1..], t, l);
    }
  }

  // ---- how the two end, and what the labels of a run say ----

  /** The wallet states by their numbers. */
  lemma StatesByNumber(rpc: int)
    ensures Unmarshal(rpc) == Some(WaitingToStart) <==> rpc == 255
    ensures Unmarshal(rpc) == Some(NonExisting) <==> rpc == 0
    ensures Unmarshal(rpc) == Some(Locked) <==> rpc == 1
    ensures Unmarshal(rpc) == Some(Unlocked) <==> rpc == 2
    ensures Unmarshal(rpc) == Some(RpcActive) <==> rpc == 3
    ensures Unmarshal(rpc) == Some(ServerActive) <==> rpc == 4
  {
  }

  /** The producer goes on receiving only before SERVER_ACTIVE, and when it stops it has put one error and
      closed nothing, or closed both channels after SERVER_ACTIVE, or seen the context done. */
  predicate EndsOneWay(s: State) {
    && (s.producer.Receiving? || s.producer.Failing? ==> ServerActive !in s.yielded)
    && (s.producer.Sending? && s.producer.w != ServerActive ==> ServerActive !in s.yielded)
    && (s.producer.ClosingErrs? ==> s.errCount == 0)
    && (s.producer.Receiving? || s.producer.Sending? || s.producer.Failing? ==> s.unsent == [] && s.errCount == 0)
    && (s.producer.ClosingStates? || s.producer.ClosingErrs? ==> s.unsent == [] && s.errCount == 0)
    && (s.producer.Stopped? ==>
          || (s.errCount == 1 && !s.statesClosed && !s.errsClosed && s.unsent == [] && ServerActive !in s.yielded)
          || (s.errCount == 0 && s.statesClosed && s.errsClosed && s.unsent == [] && ServerActive in s.yielded)
          || (s.errCount == 0 && !s.statesClosed && !s.errsClosed && s.unsent != [] && s.done))
  }

  lemma StepEndsOneWay(s: State, l: Label)
    requires InOrder(s) && ClosedLast(s) && OneErr(s) && EndsOneWay(s) && Enabled(s, l)
    ensures EndsOneWay(Apply(s, l))
  {
  }

  /** The consumer goes on reading exactly as long as no state that it has taken is ready. */
  predicate ReadsOn(s: State) {
    s.consumer.Selecting? ==> forall w | w in s.taken :: w != RpcActive && w != ServerActive
  }

  lemma StepReadsOn(s: State, l: Label)
    requires ReadsOn(s) && Enabled(s, l)
    ensures ReadsOn(Apply(s, l))
  {
  }

  /** Where the states and the errors come from. */
  ghost predicate FromLabels(ls: seq<Label>, s: State) {
    StatesFrom(ls, s.yielded) && ErrsFrom(ls, s)
  }

  ghost predicate StatesFrom(ls: seq<Label>, ws: seq<WalletState>) {
    forall w | w in ws :: exists rpc :: RecvKnown(rpc) in ls && Unmarshal(rpc) == Some(w)
  }

  predicate ErrsFrom(ls: seq<Label>, s: State) {
    && (s.producer.Failing? ==> ErrFrom(ls, s.producer.err))
    && (s.errs.Some? ==> ErrFrom(ls, s.errs.value))
    && (s.consumer.Failed? ==> ErrFrom(ls, s.consumer.err))
  }

  predicate ErrFrom(ls: seq<Label>, e: Err) {
    match e
    case RecvFailed(code) => RecvFail(code) in ls
    case UnknownState(rpc) => RecvUnknown(rpc) in ls && rpc !in {255, 0, 1, 2, 3, 4}
  }

  lemma LaterLabels(ls: seq<Label>, l: Label, s: State)
    requires FromLabels(ls, s)
    ensures FromLabels(ls + [l], s)
  {
    forall w | w in s.yielded
      ensures exists rpc :: RecvKnown(rpc) in ls + [l] && Unmarshal(rpc) == Some(w)
    {
      var rpc :| RecvKnown(rpc) in ls && Unmarshal(rpc) == Some(w);
      assert RecvKnown(rpc) in ls + [l];
    }
  }

  lemma StepFromLabels(ls: seq<Label>, s: State, l: Label)
    requires FromLabels(ls, s) && Enabled(s, l) && l in ls
    ensures FromLabels(ls, Apply(s, l))
  {
    StepErrsFrom(ls, s, l);
    StepYields(s, l);
    if l.RecvKnown? {
      assert RecvKnown(l.rpc) in ls && Unmarshal(l.rpc).Some?;
    }
  }

  lemma StepErrsFrom(ls: seq<Label>, s: State, l: Label)
    requires ErrsFrom(ls, s) && Enabled(s, l) && l in ls
    ensures ErrsFrom(ls, Apply(s, l))
  {
  }

  lemma StepYields(s: State, l: Label)
    requires Enabled(s, l)
    ensures Apply(s, l).yielded == s.yielded + if l.RecvKnown? then [Unmarshal(l.rpc).value] else []
  {
  }

  lemma {:induction false} RunEnds(before: seq<Label>, s: State, ls: seq<Label>, t: State)
    requires Inv(s) && EndsOneWay(s) && ReadsOn(s) && FromLabels(before, s) && Runs(s, ls, t)
    ensures EndsOneWay(t) && ReadsOn(t) && FromLabels(before + ls, t)
    decreases |ls|
  {
    if ls == [] {
      assert before + ls == before;
    } else {
      var l := ls[0];
      LaterLabels(before, l, s);
      StepFromLabels(before + [l], s, l);
      StepEndsOneWay(s, l);
      StepReadsOn(s, l);
      assert Runs(s, [l], Apply(s, l)) by { assert [l][1..] == []; }
      RunInv(s, [l], Apply(s, l));
      RunEnds(before + [l], Apply(s, l), ls[1..], t);
      assert before + [l] + ls[1..] == before + ls;
    }
  }

  /** In every run: the goroutine ends in one of its three ways, closing its channels exactly after the
      stream has yielded number 4, SERVER_ACTIVE; getLndInfo goes on reading until number 3 or 4 is taken;
      in wait mode it asks for the info only after the stream has yielded one of them; and an error that it
      returns is one that the stream gave. */
  lemma StartUp(wait: bool, ls: seq<Label>, s: State)
    requires Runs(Init(wait), ls, s) && s.wait
    ensures s.producer.Stopped? ==>
              || (s.errCount == 1 && !s.statesClosed && !s.errsClosed)
              || (s.errCount == 0 && s.statesClosed && s.errsClosed && RecvKnown(4) in ls)
              || (s.errCount == 0 && !s.statesClosed && !s.errsClosed && s.done)
    ensures s.producer.Receiving? ==> RecvKnown(4) !in ls
    ensures s.consumer.Selecting? ==> forall w | w in s.taken :: w != RpcActive && w != ServerActive
    ensures s.consumer.AskingInfo? || s.consumer.Informed? ==> RecvKnown(3) in ls || RecvKnown(4) in ls
    ensures s.consumer.Failed? ==> ErrFrom(ls, s.consumer.err)
  {
    WaitKept(Init(wait), ls, s);
    RunEnds([], Init(wait), ls, s);
    assert [] + ls == ls;
    assert Reachable(s);
    if s.consumer.AskingInfo? || s.consumer.Informed? {
      GetInfoAfterReady(s);
    }
    YieldedKnown(Init(wait), ls, s);
  }

  lemma {:induction false} WaitKept(s: State, ls: seq<Label>, t: State)
    requires Runs(s, ls, t)
    ensures t.wait == s.wait
    decreases |ls|
  {
    if ls != [] {
      WaitKept(Apply(s, ls[0]), ls[1..], t);
    }
  }

  lemma {:induction false} YieldedKnown(s: State, ls: seq<Label>, t: State)
    requires Runs(s, ls, t)
    ensures s.yielded <= t.yielded
    ensures RecvKnown(4) in ls ==> ServerActive in t.yielded
    decreases |ls|
  {
    if ls != [] {
      var m := Apply(s, ls[0]);
      YieldedKnown(m, ls[1..], t);
      if ls[0] == RecvKnown(4) {
        var k := |s.yielded|;
        assert m.yielded[k] == ServerActive && t.yielded[k] == m.yielded[k];
      }
    }
  }

  /** A consumer that is reading can always take what is there, and goes on to ask for the info at once if
      it is number 3 or 4, or if it finds a channel closed, and only then. */
  lemma AsksAtOnce(s: State)
    requires s.consumer.Selecting?
    ensures s.states.Some? ==> Enabled(s, TakeState) && Apply(s, TakeState).taken == s.taken + [s.states.value]
    ensures s.states.Some? ==>
              (Apply(s, TakeState).consumer.AskingInfo? <==>
                 s.states.value == RpcActive || s.states.value == ServerActive)
    ensures s.states.Some? ==> (Apply(s, TakeState).consumer.Selecting? <==> !Apply(s, TakeState).consumer.AskingInfo?)
    ensures s.states.None? && s.statesClosed ==>
              Enabled(s, SeeStatesClosed) && Apply(s, SeeStatesClosed).consumer.AskingInfo?
    ensures s.errs.None? && s.errsClosed ==> Enabled(s, SeeErrsClosed) && Apply(s, SeeErrsClosed).consumer.AskingInfo?
    ensures s.errs.Some? ==> Enabled(s, TakeErr) && Apply(s, TakeErr).consumer == Failed(s.errs.value)
    ensures s.done ==> Enabled(s, StopOnContext) && Apply(s, StopOnContext).consumer == Cancelled
  {
  }
}

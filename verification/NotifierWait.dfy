/** Start-up: the retry loop of waitForChainNotifier together with the block epoch goroutines that
    its attempts start. The caller's context is not nil. */
module NotifierWait {
  import opened Wrappers
  import opened Words

  /** An error of the RPC layer: with a gRPC status, or without. */
  datatype Err = Status(code: int, text: string) | Plain(text: string)

  const UNAVAILABLE := 14
  const STARTUP_MESSAGE := "chain notifier RPC is still in the process of starting"

  predicate Contains(s: string, t: string) {
    exists i | 0 <= i <= |s| :: t <= s[i..]
  }

  /** isChainNotifierStartingErr, for an error that is not nil. */
  predicate Starting(e: Err) {
    (e.Status? && e.code == UNAVAILABLE) || Contains(e.text, STARTUP_MESSAGE)
  }

  /** A block epoch goroutine. */
  datatype Epoch =
    | Receiving
    | Offering(height: int)   // in the select that sends on its unbuffered channel
    | Failing(err: Err)       // sending on its error channel
    | Stopped

  /** One registration. Its goroutine closes no channel, so no step sets the two flags; the loop would
      take a closed channel for a height. Its context is done when it was cancelled, by its timeout or
      by the attempt returning, or when the caller's context is done. */
  datatype Attempt = Attempt(epoch: Epoch, errs: Option<Err>, errsClosed: bool, blocksClosed: bool,
                             cancelled: bool, heights: seq<int>)

  datatype Outcome = Ready(height: Option<int>) | RegisterFailed(err: Err) | Failed(err: Err) | ContextDone

  datatype Main =
    | Registering
    | Selecting
    | Polling                 // waiting after a starting-up error
    | Returned(out: Outcome)

  datatype State = State(
    done: bool,               // the caller's context
    main: Main,
    attempts: seq<Attempt>,   // the registrations that succeeded
    // history
    registers: nat,           // calls of RegisterBlockEpochNtfn
    starts: nat,              // starting-up errors taken
    waits: nat)               // poll intervals waited in full

  const INIT := State(false, Registering, [], 0, 0, 0)
  const FRESH := Attempt(Receiving, None, false, false, false, [])

  datatype EnvLabel = Cancel | Timeout

  datatype MainLabel =
    | Register | RegisterFail(err: Err)
    | SeeContext | TakeStarting | TakeErr | SeeErrsClosed | TakeHeight | SeeBlocksClosed
    | WaitOver | WaitCancelled

  datatype EpochLabel = EpRecv(height: int) | EpRecvFail(err: Err) | EpPut | EpSeeContext

  datatype Label = Env(e: EnvLabel) | Mn(m: MainLabel) | Ep(i: nat, g: EpochLabel)

  function Last(s: State): Attempt
    requires s.attempts != []
  {
    s.attempts[|s.attempts| - 1]
  }

  predicate ContextIsDone(s: State, i: nat) {
    s.done || (i < |s.attempts| && s.attempts[i].cancelled)
  }

  predicate Selects(s: State) { s.main.Selecting? && s.attempts != [] }

  predicate MainEnabled(s: State, m: MainLabel) {
    match m
    case Register => s.main.Registering?
    case RegisterFail(_) => s.main.Registering?
    case WaitOver => s.main.Polling? && s.attempts != []
    case WaitCancelled => s.main.Polling? && s.attempts != [] && s.done
    case SeeContext => Selects(s) && ContextIsDone(s, |s.attempts| - 1)
    case TakeStarting => Selects(s) && Last(s).errs.Some? && Starting(Last(s).errs.value)
    case TakeErr => Selects(s) && Last(s).errs.Some? && !Starting(Last(s).errs.value)
    case SeeErrsClosed => Selects(s) && Last(s).errs.None? && Last(s).errsClosed
    case TakeHeight => Selects(s) && Last(s).epoch.Offering?
    case SeeBlocksClosed => Selects(s) && Last(s).blocksClosed
  }

  /** The deferred cancel of an attempt that returns. */
  function Abandon(s: State, a: Attempt): State
    requires s.attempts != []
  {
    s.(attempts := s.attempts[|s.attempts| - 1 := a.(cancelled := true)])
  }

  function MainStep(s: State, m: MainLabel): State
    requires MainEnabled(s, m)
  {
    match m
    case Register => s.(main := Selecting, attempts := s.attempts + [FRESH], registers := s.registers + 1)
    case RegisterFail(err) => s.(main := Returned(RegisterFailed(err)), registers := s.registers + 1)
    case SeeContext => Abandon(s, Last(s)).(main := Returned(ContextDone))
    case TakeStarting =>
      s.(main := Polling, starts := s.starts + 1,
         attempts := s.attempts[|s.attempts| - 1 := Last(s).(errs := None)])
    case TakeErr => Abandon(s, Last(s).(errs := None)).(main := Returned(Failed(Last(s).errs.value)))
    // A closed channel yields a nil error, or a height that nobody sent.
    case SeeErrsClosed => Abandon(s, Last(s)).(main := Returned(Ready(None)))
    case SeeBlocksClosed => Abandon(s, Last(s)).(main := Returned(Ready(None)))
    case TakeHeight =>
      Abandon(s, Last(s).(epoch := Receiving)).(main := Returned(Ready(Some(Last(s).epoch.height))))
    case WaitOver => Abandon(s, Last(s)).(main := Registering, waits := s.waits + 1)
    case WaitCancelled => Abandon(s, Last(s)).(main := Returned(ContextDone))
  }

  predicate EpochEnabled(s: State, i: nat, g: EpochLabel) {
    i < |s.attempts| && var a := s.attempts[i];
    match g
    case EpRecv(_) => a.epoch.Receiving?
    case EpRecvFail(_) => a.epoch.Receiving?
    case EpPut => a.epoch.Failing? && a.errs.None?
    case EpSeeContext => a.epoch.Offering? && ContextIsDone(s, i)
  }

  function EpochNext(a: Attempt, g: EpochLabel): Attempt
    requires g.EpPut? ==> a.epoch.Failing?
  {
    match g
    case EpRecv(h) => a.(epoch := Offering(h), heights := a.heights + [h])
    case EpRecvFail(err) => a.(epoch := Failing(err))
    case EpPut => a.(epoch := Stopped, errs := Some(a.epoch.err))
    case EpSeeContext => a.(epoch := Stopped)
  }

  predicate Enabled(s: State, l: Label) {
    match l
    case Env(Cancel) => !s.done
    case Env(Timeout) => (s.main.Selecting? || s.main.Polling?) && s.attempts != []
    case Mn(m) => MainEnabled(s, m)
    case Ep(i, g) => EpochEnabled(s, i, g)
  }

  function Apply(s: State, l: Label): State
    requires Enabled(s, l)
  {
    match l
    case Env(Cancel) => s.(done := true)
    case Env(Timeout) => Abandon(s, Last(s))
    case Mn(m) => MainStep(s, m)
    case Ep(i, g) => s.(attempts := s.attempts[i := EpochNext(s.attempts[i], g)])
  }

  ghost predicate Runs(s: State, ls: seq<Label>, t: State)
    decreases |ls|
  {
    if ls == [] then s == t
    else Enabled(s, ls[0]) && Runs(Apply(s, ls[0]), ls[1..], t)
  }

  ghost predicate Reachable(s: State) {
    exists ls :: Runs(INIT, ls, s)
  }

  // ---- what every step keeps ----

  /** No goroutine closes its channels, and one that has put its error has stopped. */
  predicate Sound(a: Attempt) {
    && !a.errsClosed && !a.blocksClosed
    && (a.errs.Some? ==> a.epoch.Stopped?)
    && (a.epoch.Offering? ==> a.heights != [] && a.heights[|a.heights| - 1] == a.epoch.height)
  }

  ghost predicate AllSound(s: State) {
    forall i | 0 <= i < |s.attempts| :: Sound(s.attempts[i])
  }

  /** The attempt that the loop is busy with. */
  predicate Current(s: State, i: nat) {
    i == |s.attempts| - 1 && (s.main.Selecting? || s.main.Polling?)
  }

  /** The contexts of all other attempts are done. */
  ghost predicate OthersCancelled(s: State) {
    && (s.main.Selecting? || s.main.Polling? ==> s.attempts != [])
    && forall i | 0 <= i < |s.attempts| :: Current(s, i) || s.attempts[i].cancelled
  }

  /** One attempt more than full poll waits, and one full wait for each starting-up error, except
      for the last of them. */
  predicate CountsAgree(s: State) {
    && s.registers == s.waits + Bit(!s.main.Registering?)
    && s.waits <= s.starts <= s.waits + 1
    && (s.main.Polling? ==> s.starts == s.waits + 1)
    && (s.main.Registering? || s.main.Selecting? ==> s.starts == s.waits)
    && |s.attempts| == s.registers - Bit(s.main.Returned? && s.main.out.RegisterFailed?)
  }

  /** Why the loop has returned. */
  ghost predicate Explained(s: State) {
    s.main.Returned? ==>
      match s.main.out
      case Ready(h) => s.attempts != [] && h.Some? && h.value in Last(s).heights
      case RegisterFailed(_) => true
      case Failed(e) => !Starting(e)
      case ContextDone => s.attempts != [] && ContextIsDone(s, |s.attempts| - 1)
  }

  ghost predicate Inv(s: State) {
    AllSound(s) && OthersCancelled(s) && CountsAgree(s) && Explained(s)
  }

  lemma MainKeeps(s: State, m: MainLabel)
    requires AllSound(s) && OthersCancelled(s) && MainEnabled(s, m)
    ensures AllSound(MainStep(s, m)) && OthersCancelled(MainStep(s, m))
  {
  }

  lemma MainCounts(s: State, m: MainLabel)
    requires CountsAgree(s) && MainEnabled(s, m)
    ensures CountsAgree(MainStep(s, m))
  {
  }

  lemma MainExplained(s: State, m: MainLabel)
    requires s.attempts != [] ==> Sound(Last(s))
    requires MainEnabled(s, m)
    ensures Explained(MainStep(s, m))
  {
  }

  lemma EpochKeeps(s: State, i: nat, g: EpochLabel)
    requires Inv(s) && EpochEnabled(s, i, g)
    ensures Inv(Apply(s, Ep(i, g)))
  {
    assert Sound(s.attempts[i]);
  }

  lemma EnvKeeps(s: State, e: EnvLabel)
    requires Inv(s) && Enabled(s, Env(e))
    ensures Inv(Apply(s, Env(e)))
  {
  }

  lemma StepInv(s: State, l: Label)
    requires Inv(s) && Enabled(s, l)
    ensures Inv(Apply(s, l))
  {
    match l
    case Env(e) => EnvKeeps(s, e);
    case Mn(m) =>
      MainKeeps(s, m);
      MainCounts(s, m);
      MainExplained(s, m);
    case Ep(i, g) => EpochKeeps(s, i, g);
  }

  lemma {:induction false} RunInv(s: State, ls: seq<Label>, t: State)
    requires Inv(s) && Runs(s, ls, t)
    ensures Inv(t)
    decreases |ls|
  {
    if ls != [] {
      StepInv(s, ls[0]);
      RunInv(Apply(s, ls[0]), ls[1..], t);
    }
  }

  lemma ReachableInv(s: State)
    requires Reachable(s)
    ensures Inv(s)
  {
    var ls :| Runs(INIT, ls, s);
    RunInv(INIT, ls, s);
  }

  // ---- what holds in every run ----

  predicate Returns(out: Outcome, e: Err) {
    out == Failed(e) || out == RegisterFailed(e)
  }

  /** waitForChainNotifier returns nil only if the last attempt's stream yielded a block height,
      which it took. An error of a block epoch stream that it returns is never a starting-up error, so
      that a starting-up error is returned only if registering itself has failed with it. */
  lemma NilMeansHeight(s: State)
    requires Reachable(s) && s.main.Returned?
    ensures match s.main.out
            case Ready(h) => s.attempts != [] && h.Some? && h.value in Last(s).heights
            case RegisterFailed(_) => |s.attempts| == s.registers - 1
            case Failed(e) => !Starting(e)
            case ContextDone => s.attempts != [] && ContextIsDone(s, |s.attempts| - 1)
    ensures forall e | Returns(s.main.out, e) && Starting(e) :: s.main.out.RegisterFailed?
  {
    ReachableInv(s);
  }

  /** And then it is, without a retry, whichever error it is. */
  lemma StartingErrReturned(e: Err) returns (s: State)
    ensures Reachable(s) && s.main == Returned(RegisterFailed(e)) && s.registers == 1 && s.waits == 0
  {
    var l := Mn(RegisterFail(e));
    s := Apply(INIT, l);
    assert Runs(s, [], s) && [l][1..] == [];
    assert Runs(INIT, [l], s);
  }

  /** The number of attempts begun is one plus the number of starting-up errors that a full poll
      wait has followed. */
  lemma AttemptsCounted(s: State)
    requires Reachable(s) && !s.main.Registering?
    ensures s.registers == 1 + s.waits
    ensures s.starts == s.waits || (s.starts == s.waits + 1 && (s.main.Polling? || s.main.Returned?))
  {
    ReachableInv(s);
  }

  function Weight(e: Epoch): nat {
    match e
    case Receiving => 2
    case Offering(_) => 1
    case Failing(_) => 1
    case Stopped => 0
  }

  /** The goroutine of an abandoned attempt is never stuck, given that Recv returns once the context
      is done, although nobody reads its channels any more. */
  lemma AbandonedMoves(s: State, i: nat) returns (g: EpochLabel)
    requires Reachable(s) && i < |s.attempts| && !Current(s, i) && !s.attempts[i].epoch.Stopped?
    ensures EpochEnabled(s, i, g)
  {
    ReachableInv(s);
    assert Sound(s.attempts[i]) && s.attempts[i].cancelled;
    g := match s.attempts[i].epoch
         case Receiving => EpRecvFail(Plain(""))
         case Offering(_) => EpSeeContext
         case Failing(_) => EpPut
         case Stopped => EpPut;
  }

  function StepsOf(ls: seq<Label>, i: nat): nat {
    if ls == [] then 0 else Bit(ls[0].Ep? && ls[0].i == i) + StepsOf(ls[1..], i)
  }

  /** However the run goes on, it takes no more steps than its weight allows: two at most. */
  lemma {:induction false} AbandonedEnds(s: State, ls: seq<Label>, t: State, i: nat)
    requires Inv(s) && Runs(s, ls, t) && i < |s.attempts| && !Current(s, i)
    ensures i < |t.attempts| && !Current(t, i)
    ensures StepsOf(ls, i) + Weight(t.attempts[i].epoch) <= Weight(s.attempts[i].epoch)
    decreases |ls|
  {
    if ls != [] {
      StepInv(s, ls[0]);
      AbandonedStep(s, ls[0], i);
      AbandonedEnds(Apply(s, ls[0]), ls[1..], t, i);
    }
  }

  lemma AbandonedStep(s: State, l: Label, i: nat)
    requires OthersCancelled(s) && Enabled(s, l) && i < |s.attempts| && !Current(s, i)
    ensures var t := Apply(s, l);
            && i < |t.attempts| && !Current(t, i)
            && Bit(l.Ep? && l.i == i) + Weight(t.attempts[i].epoch) <= Weight(s.attempts[i].epoch)
  {
  }

  // ---- which errors are retried, and what the labels of a run say ----

  /** The error has the gRPC code 14, Unavailable, or its text tells of a notifier that is starting. */
  ghost predicate StillStarting(e: Err) {
    || (e.Status? && e.code == 14)
    || exists a, b :: e.text == a + "chain notifier RPC is still in the process of starting" + b
  }

  lemma ContainsExactly(s: string, t: string)
    ensures Contains(s, t) <==> exists a, b :: s == a + t + b
  {
    if Contains(s, t) {
      var i :| 0 <= i <= |s| && t <= s[i..];
      assert s == s[..i] + t + s[i + |t|..];
    }
    if a, b :| s == a + t + b {
      assert s[|a|..] == t + b;
      assert t <= s[|a|..];
    }
  }

  lemma StartingExactly(e: Err)
    ensures Starting(e) <==> StillStarting(e)
  {
    ContainsExactly(e.text, STARTUP_MESSAGE);
  }

  /** With an error waiting, the loop can go on to retry exactly if the notifier is still starting, and
      can return the error exactly if it is not. */
  lemma RetriesExactly(s: State)
    requires s.main.Selecting? && s.attempts != [] && Last(s).errs.Some?
    ensures MainEnabled(s, TakeStarting) <==> StillStarting(Last(s).errs.value)
    ensures MainEnabled(s, TakeErr) <==> !StillStarting(Last(s).errs.value)
    ensures MainEnabled(s, TakeStarting) ==> MainStep(s, TakeStarting).main == Polling
    ensures MainEnabled(s, TakeErr) ==> MainStep(s, TakeErr).main == Returned(Failed(Last(s).errs.value))
  {
    StartingExactly(Last(s).errs.value);
  }

  /** A height on offer can be taken, and ends the wait; a poll interval can always pass, and then the loop
      registers again. */
  lemma MovesOn(s: State)
    ensures s.main.Selecting? && s.attempts != [] && Last(s).epoch.Offering? ==>
              MainEnabled(s, TakeHeight) && MainStep(s, TakeHeight).main == Returned(Ready(Some(Last(s).epoch.height)))
    ensures s.main.Polling? && s.attempts != [] ==>
              MainEnabled(s, WaitOver) && MainStep(s, WaitOver).main == Registering
    ensures s.main.Registering? ==>
              MainEnabled(s, Register) && MainStep(s, Register).main == Selecting
              && MainStep(s, Register).attempts == s.attempts + [FRESH]
  {
  }

  /** And it retries only then: with such an error in hand, and by registering again once a full poll
      interval has passed. */
  lemma RetriesOnly(s: State, m: MainLabel)
    requires MainEnabled(s, m)
    ensures m == TakeStarting ==> s.attempts != [] && Last(s).errs.Some? && StillStarting(Last(s).errs.value)
    ensures MainStep(s, m).main.Polling? <==> m == TakeStarting
    ensures MainStep(s, m).main.Registering? <==> m == WaitOver
  {
    if m == TakeStarting {
      StartingExactly(Last(s).errs.value);
    }
  }

  /** An error of a block epoch stream that is returned is not that of a notifier that is starting. */
  lemma ReturnedNotStarting(s: State, e: Err)
    requires Reachable(s) && s.main == Returned(Failed(e))
    ensures !(e.Status? && e.code == 14)
    ensures !exists a, b :: e.text == a + "chain notifier RPC is still in the process of starting" + b
  {
    NilMeansHeight(s);
    StartingExactly(e);
  }

  function Count(ls: seq<Label>, m: MainLabel): nat {
    if ls == [] then 0 else Count(ls[1..], m) + Bit(ls[0] == Mn(m))
  }

  function Failures(ls: seq<Label>): nat {
    if ls == [] then 0 else Failures(ls[1..]) + Bit(ls[0].Mn? && ls[0].m.RegisterFail?)
  }

  /** The counts of a state are those of the run's steps. */
  lemma {:induction false} CountsAreSteps(s: State, ls: seq<Label>, t: State)
    requires Runs(s, ls, t)
    ensures t.registers == s.registers + Count(ls, Register) + Failures(ls)
    ensures t.starts == s.starts + Count(ls, TakeStarting)
    ensures t.waits == s.waits + Count(ls, WaitOver)
    decreases |ls|
  {
    if ls != [] {
      CountStep(s, ls[0]);
      CountsAreSteps(Apply(s, ls[0]), ls[1..], t);
    }
  }

  lemma CountStep(s: State, l: Label)
    requires Enabled(s, l)
    ensures var t := Apply(s, l);
            && t.registers == s.registers + Bit(l == Mn(Register)) + Bit(l.Mn? && l.m.RegisterFail?)
            && t.starts == s.starts + Bit(l == Mn(TakeStarting)) && t.waits == s.waits + Bit(l == Mn(WaitOver))
  {
  }

  /** In every run, the calls that register are one more than the full poll waits, each of which
      followed one error of a notifier that is starting. */
  lemma RegistersCounted(ls: seq<Label>, s: State)
    requires Runs(INIT, ls, s) && !s.main.Registering?
    ensures Count(ls, Register) + Failures(ls) == 1 + Count(ls, WaitOver)
    ensures Count(ls, WaitOver) <= Count(ls, TakeStarting) <= Count(ls, WaitOver) + 1
  {
    CountsAreSteps(INIT, ls, s);
    assert Reachable(s);
    AttemptsCounted(s);
  }

  /** Where what is returned comes from: an error from the stream of some attempt or from registering,
      a height from the stream of the last attempt. */
  ghost predicate FromSteps(ls: seq<Label>, s: State) {
    && (forall i | 0 <= i < |s.attempts| :: AttemptFromSteps(ls, i, s.attempts[i]))
    && (s.main.Returned? ==> OutcomeFromSteps(ls, s.main.out))
  }

  ghost predicate OutcomeFromSteps(ls: seq<Label>, out: Outcome) {
    match out
    case Ready(h) => h.Some? ==> exists i :: Ep(i, EpRecv(h.value)) in ls
    case RegisterFailed(e) => Mn(RegisterFail(e)) in ls
    case Failed(e) => exists i :: Ep(i, EpRecvFail(e)) in ls
    case ContextDone => true
  }

  predicate AttemptFromSteps(ls: seq<Label>, i: nat, a: Attempt) {
    && (a.errs.Some? ==> Ep(i, EpRecvFail(a.errs.value)) in ls)
    && (a.epoch.Failing? ==> Ep(i, EpRecvFail(a.epoch.err)) in ls)
    && (a.epoch.Offering? ==> Ep(i, EpRecv(a.epoch.height)) in ls)
  }

  lemma AttemptLater(ls: seq<Label>, l: Label, s: State)
    requires FromSteps(ls, s)
    ensures FromSteps(ls + [l], s)
  {
    forall i | 0 <= i < |s.attempts|
      ensures AttemptFromSteps(ls + [l], i, s.attempts[i])
    {
      assert AttemptFromSteps(ls, i, s.attempts[i]);
    }
  }

  lemma MainFromSteps(ls: seq<Label>, s: State, m: MainLabel)
    requires FromSteps(ls, s) && MainEnabled(s, m) && Mn(m) in ls
    ensures FromSteps(ls, MainStep(s, m))
  {
    var t := MainStep(s, m);
    if s.attempts != [] {
      assert AttemptFromSteps(ls, |s.attempts| - 1, Last(s));
    }
    forall i | 0 <= i < |t.attempts|
      ensures AttemptFromSteps(ls, i, t.attempts[i])
    {
      if i < |s.attempts| {
        assert AttemptFromSteps(ls, i, s.attempts[i]);
      }
    }
  }

  lemma EpochFromSteps(ls: seq<Label>, s: State, i: nat, g: EpochLabel)
    requires FromSteps(ls, s) && EpochEnabled(s, i, g) && Ep(i, g) in ls
    ensures FromSteps(ls, Apply(s, Ep(i, g)))
  {
    var t := Apply(s, Ep(i, g));
    forall j | 0 <= j < |t.attempts|
      ensures AttemptFromSteps(ls, j, t.attempts[j])
    {
      assert AttemptFromSteps(ls, j, s.attempts[j]);
    }
  }

  lemma EnvFromSteps(ls: seq<Label>, s: State, e: EnvLabel)
    requires FromSteps(ls, s) && Enabled(s, Env(e))
    ensures FromSteps(ls, Apply(s, Env(e)))
  {
    var t := Apply(s, Env(e));
    forall j | 0 <= j < |t.attempts|
      ensures AttemptFromSteps(ls, j, t.attempts[j])
    {
      assert AttemptFromSteps(ls, j, s.attempts[j]);
    }
  }

  /** What waitForChainNotifier returns was given by a step of the run. */
  lemma {:induction false} ReturnedFromSteps(before: seq<Label>, s: State, ls: seq<Label>, t: State)
    requires FromSteps(before, s) && Runs(s, ls, t)
    ensures FromSteps(before + ls, t)
    decreases |ls|
  {
    if ls == [] {
      assert before + ls == before;
    } else {
      var l := ls[0];
      AttemptLater(before, l, s);
      match l {
        case Env(e) => EnvFromSteps(before + [l], s, e);
        case Mn(m) => MainFromSteps(before + [l], s, m);
        case Ep(i, g) => EpochFromSteps(before + [l], s, i, g);
      }
      ReturnedFromSteps(before + [l], Apply(s, l), ls[1..], t);
      assert before + [l] + ls[1..] == before + ls;
    }
  }

  /** An error that is returned is one that some attempt's stream or registering gave in the run, and
      nil means that the stream of the last attempt gave a height. */
  lemma ReturnGiven(ls: seq<Label>, s: State)
    requires Runs(INIT, ls, s) && s.main.Returned?
    ensures OutcomeFromSteps(ls, s.main.out) && (s.main.out.Ready? ==> s.main.out.height.Some?)
  {
    ReturnedFromSteps([], INIT, ls, s);
    assert [] + ls == ls;
    assert Reachable(s);
    NilMeansHeight(s);
  }
}

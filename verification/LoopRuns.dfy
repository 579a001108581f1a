/** One run of a loop that takes the values of a stream and sends notices, as a function of its
    surroundings: when its context is cancelled, and what happens at its channels in each turn. */
module LoopRuns {
  import opened Wrappers
  import opened Channels
  import opened StreamLoops

  /** What a loop does with a notice when its select sees the context done instead. */
  datatype OnDone<+X> = Skip | Quit | Report(err: X)

  /** How a loop sends: whether it stays on after its first notice, the capacity of its own channel,
      which notices go to the caller's other channel, and what it does about a context that is done. */
  datatype Discipline<!N, +X> = Discipline(staysOn: bool, cap: nat, other: N -> bool, onDone: N -> OnDone<X>)

  /** What the others do during a run: the turn of the loop in which the context is cancelled, at the
      latest before its select picks a case; what happens at the channels in each turn; and the
      capacity and the contents of the caller's other channel. */
  datatype Surroundings = Surroundings(cancelAt: nat, moments: seq<Moment>, otherCap: nat, otherLen: nat)

  /** The loop after n events: what it has sent, which notices it has passed over, what is in the
      buffers, and why it has stopped, if it has. */
  datatype Loop<+N, +X> = Loop(n: nat, trace: seq<N>, skipped: set<nat>, len: nat, otherLen: nat, stop: Option<End<X>>)
  {
    function End(): End<X> {
      if stop.Some? then stop.value else Receiving
    }
  }

  function Start<N, X>(env: Surroundings): Loop<N, X> {
    Loop(0, [], {}, 0, env.otherLen, None)
  }

  /** After a select with a notice. */
  function After<N, X>(d: Discipline<N, X>, x: N, o: Offered, s: Loop<N, X>): Loop<N, X> {
    match o
    case Sent => s.(trace := s.trace + [x], stop := if d.staysOn then None else Some(Finished))
    case Waiting => s.(stop := Some(Blocked))
    case SawDone =>
      match d.onDone(x)
      case Skip => s.(skipped := s.skipped + {s.n})
      case Quit => s.(stop := Some(Cancelled))
      case Report(e) => s.(stop := Some(Failed(e)))
  }

  /** How the select of turn s.n with this notice turns out. */
  function Select<N, X>(d: Discipline<N, X>, x: N, env: Surroundings, s: Loop<N, X>): Offered
    requires s.n < |env.moments|
  {
    var m := env.moments[s.n];
    var free := if d.other(x) then Free(env.otherCap, s.otherLen, m) else Free(d.cap, s.len, m);
    Picked(free, s.n >= env.cancelAt, m.prefersSend)
  }

  function Buffered<N, X>(d: Discipline<N, X>, x: N, m: Moment, o: Offered, s: Loop<N, X>): Loop<N, X> {
    if d.other(x) then s.(otherLen := LeftAfter(s.otherLen, m, o)) else s.(len := LeftAfter(s.len, m, o))
  }

  function Turn<N, X>(d: Discipline<N, X>, r: Reaction<N, X>, env: Surroundings, s: Loop<N, X>): (t: Loop<N, X>)
    requires s.n < |env.moments|
    ensures t.n == s.n + 1
  {
    match r
    case Deliver(x) =>
      var o := Select(d, x, env, s);
      After(d, x, o, Buffered(d, x, env.moments[s.n], o, s)).(n := s.n + 1)
    case Ignore => s.(n := s.n + 1)
    case Reject(e) => s.(n := s.n + 1, stop := Some(Failed(e)))
    case CloseUp => s.(n := s.n + 1, stop := Some(Closed))
  }

  function LoopRun<E, N, X>(d: Discipline<N, X>, react: E -> Reaction<N, X>, es: seq<E>, env: Surroundings, n: nat)
    : (s: Loop<N, X>)
    requires n <= |es| == |env.moments|
    ensures s.n <= n && (s.stop.None? ==> s.n == n)
  {
    if n == 0 then Start(env)
    else
      var s := LoopRun(d, react, es, env, n - 1);
      if s.stop.Some? then s else Turn(d, react(es[n - 1]), env, s)
  }

  lemma LoopRunNext<E, N, X>(d: Discipline<N, X>, react: E -> Reaction<N, X>, es: seq<E>, env: Surroundings, n: nat)
    requires n < |es| == |env.moments|
    ensures var s := LoopRun(d, react, es, env, n);
            s.stop.None? ==> LoopRun(d, react, es, env, n + 1) == Turn(d, react(es[n]), env, s)
  {
  }

  lemma {:induction false} LoopRunEnds<E, N, X>(d: Discipline<N, X>, react: E -> Reaction<N, X>, es: seq<E>,
                                                env: Surroundings, m: nat, n: nat)
    requires m <= n <= |es| == |env.moments| && LoopRun(d, react, es, env, m).stop.Some?
    ensures LoopRun(d, react, es, env, n) == LoopRun(d, react, es, env, m)
  {
    if m < n {
      LoopRunEnds(d, react, es, env, m, n - 1);
    }
  }

  /** One turn takes the run one event further; if it stops the loop, that is the whole run. */
  lemma LoopRunTurn<E, N, X>(d: Discipline<N, X>, react: E -> Reaction<N, X>, es: seq<E>, env: Surroundings,
                             s: Loop<N, X>)
    requires s.n < |es| == |env.moments| && s.stop.None? && s == LoopRun(d, react, es, env, s.n)
    ensures var t := Turn(d, react(es[s.n]), env, s);
            && t == LoopRun(d, react, es, env, s.n + 1)
            && (t.stop.Some? ==> t == LoopRun(d, react, es, env, |es|))
  {
    LoopRunNext(d, react, es, env, s.n);
    if Turn(d, react(es[s.n]), env, s).stop.Some? {
      LoopRunEnds(d, react, es, env, s.n + 1, |es|);
    }
  }

  // ---- what every run amounts to ----

  predicate Skips<N, X>(d: Discipline<N, X>, r: Reaction<N, X>) {
    r.Deliver? && d.onDone(r.notice).Skip?
  }

  /** A loop stops at an event for a reason that the event gives, or because it had to wait for a
      receiver or for the context, or because the context was done and it does not pass over that. */
  predicate StopsFor<N, X(==)>(d: Discipline<N, X>, r: Reaction<N, X>, done: bool, end: End<X>) {
    match end
    case Receiving => false
    case Blocked => r.Deliver? && !done
    case Cancelled => done && r.Deliver? && d.onDone(r.notice).Quit?
    case Failed(e) => r == Reject(e) || (done && r.Deliver? && d.onDone(r.notice) == Report(e))
    case Finished => !d.staysOn && r.Deliver?
    case Closed => r.CloseUp?
  }

  ghost predicate LoopOf<E, N, X>(d: Discipline<N, X>, react: E -> Reaction<N, X>, es: seq<E>, cancelAt: nat,
                                  s: Loop<N, X>)
  {
    && s.n <= |es|
    && s.trace == ImageBut(react, es[..Handled(s.n, s.End())], s.skipped)
    && Continues(d.staysOn, react, es[..Passed(s.n, s.End())])
    && (forall i | i in s.skipped :: cancelAt <= i < Passed(s.n, s.End()) && Skips(d, react(es[i])))
    && (s.stop.Some? ==> s.n > 0 && StopsFor(d, react(es[s.n - 1]), s.n - 1 >= cancelAt, s.stop.value))
  }

  /** The loop passes over notices only if it stays on. */
  ghost predicate Steady<E, N, X>(d: Discipline<N, X>, react: E -> Reaction<N, X>, es: seq<E>) {
    forall i | 0 <= i < |es| :: Skips(d, react(es[i])) ==> d.staysOn
  }

  /** What one turn changes: a notice is passed over, or the loop goes on, or it stops. */
  ghost predicate Moves<N, X>(d: Discipline<N, X>, r: Reaction<N, X>, done: bool, s: Loop<N, X>, t: Loop<N, X>) {
    && t.n == s.n + 1
    && if s.n in t.skipped then
         Skips(d, r) && done && t.stop.None? && t.trace == s.trace && t.skipped == s.skipped + {s.n}
       else if t.stop.None? then
         GoesOn(d.staysOn, r) && t.trace == s.trace + Notices(r) && t.skipped == s.skipped
       else
         && StopsFor(d, r, done, t.stop.value) && t.skipped == s.skipped
         && t.trace == s.trace + if t.stop.value.Finished? then Notices(r) else []
  }

  lemma TurnMoves<N, X>(d: Discipline<N, X>, r: Reaction<N, X>, env: Surroundings, s: Loop<N, X>)
    requires s.n < |env.moments| && s.stop.None? && s.n !in s.skipped
    ensures Moves(d, r, s.n >= env.cancelAt, s, Turn(d, r, env, s))
  {
  }

  lemma MoveSkips<E, N, X>(d: Discipline<N, X>, react: E -> Reaction<N, X>, es: seq<E>, cancelAt: nat, s: Loop<N, X>,
                               t: Loop<N, X>)
    requires s.n < |es| && s.stop.None? && LoopOf(d, react, es, cancelAt, s)
    requires Moves(d, react(es[s.n]), s.n >= cancelAt, s, t) && s.n in t.skipped && d.staysOn
    ensures LoopOf(d, react, es, cancelAt, t)
  {
    ImageSnoc(react, es, s.n, s.skipped + {s.n});
    LaterSkip(react, es[..s.n], s.skipped, s.n);
    ContinuesSnoc(d.staysOn, react, es, s.n);
  }

  lemma MoveGoesOn<E, N, X>(d: Discipline<N, X>, react: E -> Reaction<N, X>, es: seq<E>, cancelAt: nat, s: Loop<N, X>,
                               t: Loop<N, X>)
    requires s.n < |es| && s.stop.None? && LoopOf(d, react, es, cancelAt, s)
    requires Moves(d, react(es[s.n]), s.n >= cancelAt, s, t) && s.n !in t.skipped && t.stop.None?
    ensures LoopOf(d, react, es, cancelAt, t)
  {
    ImageSnoc(react, es, s.n, s.skipped);
    ContinuesSnoc(d.staysOn, react, es, s.n);
  }

  lemma MoveStops<E, N, X>(d: Discipline<N, X>, react: E -> Reaction<N, X>, es: seq<E>, cancelAt: nat, s: Loop<N, X>,
                               t: Loop<N, X>)
    requires s.n < |es| && s.stop.None? && LoopOf(d, react, es, cancelAt, s)
    requires Moves(d, react(es[s.n]), s.n >= cancelAt, s, t) && s.n !in t.skipped && t.stop.Some?
    ensures LoopOf(d, react, es, cancelAt, t)
  {
    ImageSnoc(react, es, s.n, s.skipped);
    assert Passed(t.n, t.End()) == s.n;
  }

  lemma MoveKeeps<E, N, X>(d: Discipline<N, X>, react: E -> Reaction<N, X>, es: seq<E>, cancelAt: nat, s: Loop<N, X>,
                               t: Loop<N, X>)
    requires s.n < |es| && s.stop.None? && LoopOf(d, react, es, cancelAt, s)
    requires Moves(d, react(es[s.n]), s.n >= cancelAt, s, t)
    requires Skips(d, react(es[s.n])) ==> d.staysOn
    ensures LoopOf(d, react, es, cancelAt, t)
  {
    if s.n in t.skipped {
      MoveSkips(d, react, es, cancelAt, s, t);
    } else if t.stop.None? {
      MoveGoesOn(d, react, es, cancelAt, s, t);
    } else {
      MoveStops(d, react, es, cancelAt, s, t);
    }
  }

  /** In every run, whatever the surroundings: the sends are the decoded image of a prefix but for
      what was passed over, all of it taken in or after the turn of cancellation; and the run stops at
      the first event that makes it, for the reason that the event or the context gives. */
  lemma {:induction false} LoopRunSound<E, N, X>(d: Discipline<N, X>, react: E -> Reaction<N, X>, es: seq<E>,
                                                 env: Surroundings, n: nat)
    requires n <= |es| == |env.moments| && Steady(d, react, es)
    ensures LoopOf(d, react, es, env.cancelAt, LoopRun(d, react, es, env, n))
  {
    if n > 0 {
      LoopRunSound(d, react, es, env, n - 1);
      var s := LoopRun(d, react, es, env, n - 1);
      if s.stop.None? {
        TurnMoves(d, react(es[n - 1]), env, s);
        MoveKeeps(d, react, es, env.cancelAt, s, Turn(d, react(es[n - 1]), env, s));
      }
    }
  }

  /** A notice is sent exactly if its channel is free and the send preferred or the context not done;
      the loop waits exactly if the channel is not free and the context not done. */
  lemma SendsExactly<E, N, X>(d: Discipline<N, X>, react: E -> Reaction<N, X>, es: seq<E>, env: Surroundings, n: nat)
    requires n < |es| == |env.moments| && react(es[n]).Deliver? && LoopRun(d, react, es, env, n).stop.None?
    ensures var s, t := LoopRun(d, react, es, env, n), LoopRun(d, react, es, env, n + 1);
            var x, m := react(es[n]).notice, env.moments[n];
            var free := if d.other(x) then Free(env.otherCap, s.otherLen, m) else Free(d.cap, s.len, m);
            && (t.trace == s.trace + [x] <==> free && (m.prefersSend || n < env.cancelAt))
            && (t.trace == s.trace || t.trace == s.trace + [x])
            && (t.stop == Some(Blocked) <==> !free && n < env.cancelAt)
  {
    LoopRunNext(d, react, es, env, n);
  }

  // ---- loops that simply quit when the context is done ----

  ghost predicate Quits<E, N, X>(d: Discipline<N, X>, react: E -> Reaction<N, X>, es: seq<E>) {
    forall i | 0 <= i < |es| && react(es[i]).Deliver? :: d.onDone(react(es[i]).notice).Quit?
  }

  /** They pass over nothing, so that their sends are exactly the image of a prefix. */
  lemma QuitsExact<E, N, X>(d: Discipline<N, X>, react: E -> Reaction<N, X>, es: seq<E>, env: Surroundings)
    requires |es| == |env.moments| && Quits(d, react, es)
    ensures var s := LoopRun(d, react, es, env, |es|);
            RunOf(d.staysOn, react, es, s.n, s.trace, s.End()) && s.skipped == {}
  {
    LoopRunSound(d, react, es, env, |es|);
    var s := LoopRun(d, react, es, env, |es|);
    assert s.skipped == {};
    NothingSkipped(react, es[..Handled(s.n, s.End())]);
  }

  /** A loop that leaves after its first notice has sent one exactly if that is why it has stopped. */
  lemma {:induction false} OneNotice<E, N, X>(d: Discipline<N, X>, react: E -> Reaction<N, X>, es: seq<E>,
                                              env: Surroundings, n: nat)
    requires n <= |es| == |env.moments| && Steady(d, react, es) && !d.staysOn
    ensures var s := LoopRun(d, react, es, env, n);
            if s.stop == Some(Finished) then
              s.n > 0 && react(es[s.n - 1]).Deliver? && s.trace == [react(es[s.n - 1]).notice] && s.skipped == {}
            else s.trace == [] && s.skipped == {}
  {
    if n > 0 {
      OneNotice(d, react, es, env, n - 1);
      var s := LoopRun(d, react, es, env, n - 1);
      if s.stop.None? {
        TurnMoves(d, react(es[n - 1]), env, s);
      }
    }
  }

  // ---- who waits ----

  /** A loop that leaves after its first notice, which has a slot in its own channel, never waits,
      whether or not anybody receives. */
  lemma {:induction false} NeverWaits<E, N, X>(d: Discipline<N, X>, react: E -> Reaction<N, X>, es: seq<E>,
                                               env: Surroundings, n: nat)
    requires n <= |es| == |env.moments| && !d.staysOn && d.cap > 0
    requires forall i | 0 <= i < |es| && react(es[i]).Deliver? :: !d.other(react(es[i]).notice)
    ensures var s := LoopRun(d, react, es, env, n);
            s.stop != Some(Blocked) && (s.stop.None? ==> s.len == 0)
  {
    if n > 0 {
      NeverWaits(d, react, es, env, n - 1);
    }
  }

  /** If nobody receives and nothing goes to the other channel, what is sent fills the loop's own channel
      and no more, and the loop waits exactly when the next notice has no slot. */
  lemma {:induction false} NobodyReceives<E, N, X>(d: Discipline<N, X>, react: E -> Reaction<N, X>, es: seq<E>,
                                                   env: Surroundings, n: nat)
    requires n <= |es| == |env.moments| && env.cancelAt >= |es|
    requires forall j | 0 <= j < |es| :: env.moments[j].taken == 0 && !env.moments[j].parked
    requires forall i | 0 <= i < |es| && react(es[i]).Deliver? :: !d.other(react(es[i]).notice)
    ensures var s := LoopRun(d, react, es, env, n);
            && |s.trace| == s.len <= d.cap
            && (s.stop == Some(Blocked) ==> s.len == d.cap)
            && s.skipped == {} && s.stop != Some(Cancelled)
  {
    if n > 0 {
      NobodyReceives(d, react, es, env, n - 1);
    }
  }

  /** Before turn n every select finds a receiver at its channel, and sends. */
  ghost predicate Receives(env: Surroundings, n: nat)
    requires n <= |env.moments|
  {
    forall j | 0 <= j < n :: env.moments[j].parked && env.moments[j].taken >= env.otherLen && env.moments[j].prefersSend
  }

  predicate ByEvent<N, X(==)>(d: Discipline<N, X>, r: Reaction<N, X>, end: End<X>) {
    || (!d.staysOn && r.Deliver? && end == Finished)
    || (r.Reject? && end == Failed(r.err))
    || (r.CloseUp? && end == Closed)
  }

  lemma ReceivedTurn<N, X>(d: Discipline<N, X>, r: Reaction<N, X>, env: Surroundings, s: Loop<N, X>)
    requires s.n < |env.moments| && Receives(env, s.n + 1)
    requires s.stop.None? && s.len == 0 && s.otherLen <= env.otherLen
    ensures var t := Turn(d, r, env, s);
            && t.len == 0 && t.otherLen <= env.otherLen && t.skipped == s.skipped
            && t.trace == s.trace + Notices(r)
            && (t.stop.Some? ==> ByEvent(d, r, t.stop.value))
  {
    assert env.moments[s.n].parked;
  }

  /** With receivers that always come, everything is delivered: the loop passes over nothing, never
      waits or quits, and stops only at an event that makes it. */
  lemma {:induction false} ReceivedRuns<E, N, X>(d: Discipline<N, X>, react: E -> Reaction<N, X>, es: seq<E>,
                                                 env: Surroundings, n: nat)
    requires n <= |es| == |env.moments| && Receives(env, n)
    ensures var s := LoopRun(d, react, es, env, n);
            && s.len == 0 && s.otherLen <= env.otherLen && s.skipped == {}
            && s.trace == Image(react, es[..s.n])
            && (s.stop.Some? ==> s.n > 0 && ByEvent(d, react(es[s.n - 1]), s.stop.value))
  {
    if n > 0 {
      ReceivedRuns(d, react, es, env, n - 1);
      var s := LoopRun(d, react, es, env, n - 1);
      if s.stop.None? {
        ReceivedTurn(d, react(es[n - 1]), env, s);
        ImageSnoc(react, es, n - 1, {});
      }
    }
  }

  /** So if every select finds a receiver and sends, the loop delivers the image of all that it takes,
      and what it takes is the whole stream, up to the first event that makes it stop. */
  lemma ReceivedAll<E, N, X>(d: Discipline<N, X>, react: E -> Reaction<N, X>, es: seq<E>, env: Surroundings)
    requires |es| == |env.moments| && Receives(env, |es|)
    ensures var s := LoopRun(d, react, es, env, |es|);
            && s.trace == Image(react, es[..s.n])
            && (s.n < |es| ==> s.stop.Some?)
            && (s.stop.Some? ==> s.n > 0 && ByEvent(d, react(es[s.n - 1]), s.stop.value))
  {
    ReceivedRuns(d, react, es, env, |es|);
  }

  // ---- when every run is exact ----

  /** The run has sent the whole decoded image of the events it has handled. */
  ghost predicate ExactRun<E, N, X>(d: Discipline<N, X>, react: E -> Reaction<N, X>, es: seq<E>, env: Surroundings)
    requires |es| == |env.moments|
  {
    var s := LoopRun(d, react, es, env, |es|);
    s.trace == Image(react, es[..Handled(s.n, s.End())])
  }

  lemma {:induction false} SkipShortens<E, N, X>(react: E -> Reaction<N, X>, es: seq<E>, skipped: set<nat>)
    ensures |ImageBut(react, es, skipped)| <= |Image(react, es)|
    ensures (exists i :: i in skipped && i < |es| && react(es[i]).Deliver?)
              ==> |ImageBut(react, es, skipped)| < |Image(react, es)|
  {
    if es != [] {
      SkipShortens(react, es[..|es| - 1], skipped);
    }
  }

  /** A run is exact exactly if it has passed over nothing. */
  lemma ExactOrSkipped<E, N, X>(d: Discipline<N, X>, react: E -> Reaction<N, X>, es: seq<E>, env: Surroundings)
    requires |es| == |env.moments| && Steady(d, react, es)
    ensures ExactRun(d, react, es, env) <==> LoopRun(d, react, es, env, |es|).skipped == {}
  {
    var s := LoopRun(d, react, es, env, |es|);
    LoopRunSound(d, react, es, env, |es|);
    var handled := es[..Handled(s.n, s.End())];
    if s.skipped == {} {
      NothingSkipped(react, handled);
    } else {
      var i :| i in s.skipped;
      assert i < |handled| && react(handled[i]).Deliver?;
      SkipShortens(react, handled, s.skipped);
    }
  }

  /** The loop takes up, at i and once the context is cancelled, a notice that it can pass over. */
  ghost predicate LateSkip<E, N, X>(d: Discipline<N, X>, react: E -> Reaction<N, X>, es: seq<E>, cancelAt: nat,
                                    i: nat)
  {
    cancelAt <= i < |es| && Skips(d, react(es[i])) && Continues(d.staysOn, react, es[..i])
  }

  /** Surroundings in which every select finds a receiver and sends, but for the one at i. */
  function Moments(i: nat, taken: nat, n: nat): (ms: seq<Moment>)
    ensures |ms| == n && forall j | 0 <= j < n :: ms[j] == Moment(taken, true, j != i)
  {
    if n == 0 then [] else Moments(i, taken, n - 1) + [Moment(taken, true, n - 1 != i)]
  }

  lemma {:induction false} SkippedStays<E, N, X>(d: Discipline<N, X>, react: E -> Reaction<N, X>, es: seq<E>,
                                                 env: Surroundings, m: nat, n: nat)
    requires m <= n <= |es| == |env.moments|
    ensures LoopRun(d, react, es, env, m).skipped <= LoopRun(d, react, es, env, n).skipped
  {
    if m < n {
      SkippedStays(d, react, es, env, m, n - 1);
    }
  }

  lemma ReachesLate<E, N, X>(d: Discipline<N, X>, react: E -> Reaction<N, X>, es: seq<E>, env: Surroundings, i: nat)
    requires |es| == |env.moments| && LateSkip(d, react, es, env.cancelAt, i) && Receives(env, i)
    ensures LoopRun(d, react, es, env, i).stop.None?
  {
    ReceivedRuns(d, react, es, env, i);
    var s := LoopRun(d, react, es, env, i);
    if s.stop.Some? {
      WentOn(d.staysOn, react, es, i, s.n - 1);
      assert false;
    }
  }

  /** Wherever such a notice is taken up, some run passes over it and goes on: here everything is
      received, and only that select takes the context's side. */
  lemma LateSkipped<E, N, X>(d: Discipline<N, X>, react: E -> Reaction<N, X>, es: seq<E>, cancelAt: nat,
                             otherCap: nat, otherLen: nat, i: nat)
    requires LateSkip(d, react, es, cancelAt, i) && Steady(d, react, es)
    ensures var env := Surroundings(cancelAt, Moments(i, otherLen, |es|), otherCap, otherLen);
            var s := LoopRun(d, react, es, env, i + 1);
            s.stop.None? && i in s.skipped && !ExactRun(d, react, es, env)
  {
    var env := Surroundings(cancelAt, Moments(i, otherLen, |es|), otherCap, otherLen);
    ReachesLate(d, react, es, env, i);
    LoopRunNext(d, react, es, env, i);
    SkippedStays(d, react, es, env, i + 1, |es|);
    ExactOrSkipped(d, react, es, env);
  }

  lemma SkippedLate<E, N, X>(d: Discipline<N, X>, react: E -> Reaction<N, X>, es: seq<E>, env: Surroundings)
    returns (i: nat)
    requires |es| == |env.moments| && Steady(d, react, es) && !ExactRun(d, react, es, env)
    ensures LateSkip(d, react, es, env.cancelAt, i)
  {
    var s := LoopRun(d, react, es, env, |es|);
    LoopRunSound(d, react, es, env, |es|);
    ExactOrSkipped(d, react, es, env);
    i :| i in s.skipped;
    ContinuedBefore(d.staysOn, react, es, Passed(s.n, s.End()), i);
  }

  /** For every stream, turn of cancellation and other channel: all runs send the exact image of what
      they handled if and only if no notice that can be passed over is taken up once the context is
      cancelled. */
  lemma ExactExactly<E, N, X>(d: Discipline<N, X>, react: E -> Reaction<N, X>, es: seq<E>, cancelAt: nat,
                              otherCap: nat, otherLen: nat)
    requires Steady(d, react, es)
    ensures (forall ms: seq<Moment> | |ms| == |es| ::
               ExactRun(d, react, es, Surroundings(cancelAt, ms, otherCap, otherLen)))
      <==> !exists i: nat :: LateSkip(d, react, es, cancelAt, i)
  {
    if i: nat :| LateSkip(d, react, es, cancelAt, i) {
      LateSkipped(d, react, es, cancelAt, otherCap, otherLen, i);
    }
    forall ms: seq<Moment> |
      |ms| == |es| && !ExactRun(d, react, es, Surroundings(cancelAt, ms, otherCap, otherLen))
      ensures exists i: nat :: LateSkip(d, react, es, cancelAt, i)
    {
      var i := SkippedLate(d, react, es, Surroundings(cancelAt, ms, otherCap, otherLen));
    }
  }

  // ---- loops that forward updates on one channel without a buffer ----

  function Forwarding<N, X>(): Discipline<N, X> {
    Discipline(true, 0, (x: N) => false, (x: N) => Quit)
  }

  /** The select of such a loop. */
  method ForwardOne<N, X>(x: N, ch: Chan<N>, env: Surroundings, s: Loop<N, X>) returns (t: Loop<N, X>)
    requires s.n < |env.moments| && s.stop.None?
    requires ch.Valid() && !ch.closed && ch.cap == 0 && ch.len == s.len && ch.sent == s.trace
    modifies ch`len, ch`waiting, ch`sent
    ensures t == Turn(Forwarding(), Deliver(x), env, s)
    ensures ch.Valid() && ch.len == t.len && ch.sent == t.trace
  {
    var m := env.moments[s.n];
    var o := OfferAt(ch, x, s.n >= env.cancelAt, m);
    t := s.(n := s.n + 1, len := LeftAfter(s.len, m, o));
    match o {
      case Sent =>
        t := t.(trace := s.trace + [x]);
      case SawDone =>
        t := t.(stop := Some(Cancelled));
      case Waiting =>
        t := t.(stop := Some(Blocked));
    }
  }

  /** In all surroundings, forwarding is cut short by the context only from the turn of cancellation
      on, and waits only before it; and if receivers always come, every update up to the first value
      that ends the stream is delivered. */
  lemma ForwardsDuly<E, N, X>(react: E -> Reaction<N, X>, es: seq<E>, env: Surroundings)
    requires |env.moments| == |es|
    ensures var s := LoopRun(Forwarding(), react, es, env, |es|);
            && (s.End() == Cancelled ==> env.cancelAt < s.n)
            && (s.End() == Blocked ==> s.n <= env.cancelAt)
            && (Receives(env, |es|) ==> s.End().Receiving? || s.End().Closed? || s.End().Failed?)
            && (Receives(env, |es|) ==> s.trace == Image(react, es[..s.n]))
  {
    LoopRunSound(Forwarding(), react, es, env, |es|);
    if Receives(env, |es|) {
      ReceivedAll(Forwarding(), react, es, env);
    }
  }
}

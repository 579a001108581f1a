/** Goroutines that take the values of a stream one at a time and pass on what they decode: what a
    finite run of such a loop amounts to, whoever reads its channels and whenever. */
module StreamLoops {
  import opened Wrappers

  /** What Recv returns. */
  datatype Recv<+E> = Got(event: E) | Eof | Broken(code: int)

  /** How a loop treats one event: pass a notice on, pass nothing on, give up with
      an error, or close the channels. */
  datatype Reaction<+N, +X> = Deliver(notice: N) | Ignore | Reject(err: X) | CloseUp

  /** Where a run of a loop stands when it is observed. */
  datatype End<+X> =
    | Receiving         // waiting in Recv for an event that has not come
    | Blocked           // waiting in a select for a receiver or for the context
    | Cancelled         // returned because the context is done, without an error
    | Failed(err: X)    // returned after putting an error on the error channel
    | Finished          // returned after its one notice
    | Closed            // returned after closing its channels

  // ---- what a prefix of a stream amounts to ----

  /** The notices that the reactions to a sequence of events deliver, in order. */
  function Image<E, N, X>(react: E -> Reaction<N, X>, es: seq<E>): seq<N> {
    if es == [] then []
    else Image(react, es[..|es| - 1]) + Notices(react(es[|es| - 1]))
  }

  /** The same with the events at some places left out. */
  function ImageBut<E, N, X>(react: E -> Reaction<N, X>, es: seq<E>, skipped: set<nat>): seq<N> {
    if es == [] then []
    else
      var n := |es| - 1;
      ImageBut(react, es[..n], skipped) + (if n in skipped then [] else Notices(react(es[n])))
  }

  /** The loop goes on after these events: none makes it give up, and none makes it deliver unless
      the loop stays on after its first notice. */
  ghost predicate Continues<E, N, X>(staysOn: bool, react: E -> Reaction<N, X>, es: seq<E>) {
    forall i | 0 <= i < |es| :: GoesOn(staysOn, react(es[i]))
  }

  predicate GoesOn<N, X>(staysOn: bool, r: Reaction<N, X>) {
    (r.Deliver? ==> staysOn) && !r.Reject? && !r.CloseUp?
  }

  /** The number of events whose handling is complete, of the n that were taken. */
  function Handled<X>(n: nat, end: End<X>): nat {
    if end.Receiving? || end.Finished? || n == 0 then n else n - 1
  }

  /** The number of events after which the loop went on. */
  function Passed<X>(n: nat, end: End<X>): nat {
    if end.Receiving? || n == 0 then n else n - 1
  }

  /** A run that has taken n events: what it sent is the decoded image of the events handled, in
      order, and it stops at the first event that makes it, for the reason that the event gives. */
  ghost predicate RunOf<E, N, X>(staysOn: bool, react: E -> Reaction<N, X>, es: seq<E>, n: nat, trace: seq<N>,
                                 end: End<X>)
  {
    && n <= |es| && (if end.Receiving? then n == |es| else n > 0)
    && trace == Image(react, es[..Handled(n, end)])
    && Continues(staysOn, react, es[..Passed(n, end)])
    && match end
       case Receiving => true
       case Blocked => react(es[n - 1]).Deliver?
       case Cancelled => react(es[n - 1]).Deliver?
       case Failed(e) => react(es[n - 1]) == Reject(e)
       case Finished => !staysOn && react(es[n - 1]).Deliver?
       case Closed => react(es[n - 1]).CloseUp?
  }

  function Notices<N, X>(r: Reaction<N, X>): seq<N> {
    if r.Deliver? then [r.notice] else []
  }

  lemma {:induction false} ImageSnoc<E, N, X>(react: E -> Reaction<N, X>, es: seq<E>, n: nat, skipped: set<nat>)
    requires n < |es|
    ensures Image(react, es[..n + 1]) == Image(react, es[..n]) + Notices(react(es[n]))
    ensures ImageBut(react, es[..n + 1], skipped)
         == ImageBut(react, es[..n], skipped) + (if n in skipped then [] else Notices(react(es[n])))
  {
    assert es[..n + 1][..n] == es[..n];
  }

  lemma {:induction false} LaterSkip<E, N, X>(react: E -> Reaction<N, X>, es: seq<E>, skipped: set<nat>, k: nat)
    requires k >= |es|
    ensures ImageBut(react, es, skipped + {k}) == ImageBut(react, es, skipped)
  {
    if es != [] {
      LaterSkip(react, es[..|es| - 1], skipped, k);
    }
  }

  lemma {:induction false} NothingSkipped<E, N, X>(react: E -> Reaction<N, X>, es: seq<E>)
    ensures ImageBut(react, es, {}) == Image(react, es)
  {
    if es != [] {
      NothingSkipped(react, es[..|es| - 1]);
    }
  }

  lemma WentOn<E, N, X>(staysOn: bool, react: E -> Reaction<N, X>, es: seq<E>, n: nat, i: nat)
    requires i < n <= |es| && Continues(staysOn, react, es[..n])
    ensures GoesOn(staysOn, react(es[i]))
  {
    assert es[..n][i] == es[i];
  }

  lemma ContinuesSnoc<E, N, X>(staysOn: bool, react: E -> Reaction<N, X>, es: seq<E>, n: nat)
    requires n < |es| && Continues(staysOn, react, es[..n]) && GoesOn(staysOn, react(es[n]))
    ensures Continues(staysOn, react, es[..n + 1])
  {
    var longer := es[..n + 1];
    forall i | 0 <= i < |longer|
      ensures GoesOn(staysOn, react(longer[i]))
    {
      if i < n {
        WentOn(staysOn, react, es, n, i);
      }
    }
  }

  lemma ContinuedBefore<E, N, X>(staysOn: bool, react: E -> Reaction<N, X>, es: seq<E>, n: nat, i: nat)
    requires i <= n <= |es| && Continues(staysOn, react, es[..n])
    ensures Continues(staysOn, react, es[..i])
  {
    forall j | 0 <= j < i
      ensures GoesOn(staysOn, react(es[..i][j]))
    {
      WentOn(staysOn, react, es, n, j);
    }
  }

  predicate StopsItself<X>(end: End<X>) { end.Failed? || end.Finished? || end.Closed? }

  /** Two runs on the same stream that stop by themselves stop at the same event, in the same way,
      having delivered the same notices: only the context and the receivers make a difference. */
  lemma Deterministic<E, N, X>(staysOn: bool, react: E -> Reaction<N, X>, es: seq<E>,
                            m: nat, t: seq<N>, d: End<X>, n: nat, u: seq<N>, e: End<X>)
    requires RunOf(staysOn, react, es, m, t, d) && RunOf(staysOn, react, es, n, u, e)
    requires StopsItself(d) && StopsItself(e)
    ensures m == n && t == u && d == e
  {
    if m < n {
      WentOn(staysOn, react, es, n - 1, m - 1);
      assert false;
    }
    if n < m {
      WentOn(staysOn, react, es, m - 1, n - 1);
      assert false;
    }
  }
}

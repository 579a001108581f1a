/** QueryMissionControl and ImportMissionControl: the entries of mission control, to and from the
    form in which they are sent. */
module MissionControl {
  import opened Wrappers
  import opened Words

  type Vertex = b: Bytes | |b| == VERTEX_SIZE witness seq(VERTEX_SIZE, i => 0)

  /** An instant: seconds since 1970 and nanoseconds. Go's zero time is the start of the year 1. */
  datatype Time = Time(unix: Int64, nanos: nat)

  const ZERO_SECONDS: Int64 := -62135596800
  const ZERO_TIME := Time(ZERO_SECONDS, 0)

  /** Amounts are sent in satoshis and in millisatoshis. */
  datatype PairData = PairData(failTime: Int64, failSat: Int64, failAmt: Int64,
                               successTime: Int64, successSat: Int64, successAmt: Int64)

  datatype Pair = Pair(nodeFrom: Bytes, nodeTo: Bytes, history: Option<PairData>)

  datatype Entry = Entry(nodeFrom: Vertex, nodeTo: Vertex,
                         failTime: Time, failAmt: Uint64, successTime: Time, successAmt: Uint64)

  datatype Err = BadVertex(size: nat)

  // ---- one pair, one entry ----

  function TimeOf(seconds: Int64): Time {
    if seconds != 0 then Time(seconds, 0) else ZERO_TIME
  }

  function SecondsOf(t: Time): Int64 {
    if t != ZERO_TIME then t.unix else 0
  }

  function EntryOf(p: Pair): Result<Entry, Err>
    requires p.history.Some?
  {
    var d := p.history.value;
    if |p.nodeFrom| != VERTEX_SIZE then Failure(BadVertex(|p.nodeFrom|))
    else if |p.nodeTo| != VERTEX_SIZE then Failure(BadVertex(|p.nodeTo|))
    else Success(Entry(p.nodeFrom, p.nodeTo, TimeOf(d.failTime), AsUint64(d.failAmt),
                       TimeOf(d.successTime), AsUint64(d.successAmt)))
  }

  function PairOf(e: Entry): Pair {
    Pair(e.nodeFrom, e.nodeTo, Some(PairData(SecondsOf(e.failTime), 0, AsInt64(e.failAmt),
                                             SecondsOf(e.successTime), 0, AsInt64(e.successAmt))))
  }

  // ---- whole lists ----

  /** The pairs that a query does not pass over. */
  function WithHistory(pairs: seq<Pair>): seq<Pair> {
    if pairs == [] then []
    else
      var last := pairs[|pairs| - 1];
      WithHistory(pairs[..|pairs| - 1]) + if last.history.Some? then [last] else []
  }

  /** These entries are what the pairs stand for. */
  ghost predicate StandFor(pairs: seq<Pair>, entries: seq<Entry>) {
    && |entries| == |pairs|
    && forall i | 0 <= i < |pairs| :: pairs[i].history.Some? && EntryOf(pairs[i]) == Success(entries[i])
  }

  /** The first pair with a history and a bad vertex decides the error. */
  ghost predicate FailsWith(pairs: seq<Pair>, e: Err) {
    exists k | 0 <= k < |pairs| :: pairs[k].history.Some? && EntryOf(pairs[k]) == Failure(e)
      && forall i | 0 <= i < k && pairs[i].history.Some? :: EntryOf(pairs[i]).Success?
  }

  method QueryMissionControl(pairs: seq<Pair>) returns (r: Result<seq<Entry>, Err>)
    ensures r.Success? ==> StandFor(WithHistory(pairs), r.value)
    ensures r.Failure? ==> FailsWith(pairs, r.error)
  {
    var result: seq<Entry> := [];
    for i := 0 to |pairs|
      invariant StandFor(WithHistory(pairs[..i]), result)
      invariant forall j | 0 <= j < i && pairs[j].history.Some? :: EntryOf(pairs[j]).Success?
    {
      assert pairs[..i + 1] == pairs[..i] + [pairs[i]];
      if pairs[i].history.None? {
        continue;
      }
      var entry := EntryOf(pairs[i]);
      if entry.Failure? {
        return Failure(entry.error);
      }
      result := result + [entry.value];
    }
    assert pairs[..|pairs|] == pairs;
    return Success(result);
  }

  /** Fills the pairs of the request in place. */
  method ImportMissionControl(entries: seq<Entry>) returns (req: array<Pair>)
    ensures fresh(req) && req.Length == |entries|
    ensures forall i | 0 <= i < |entries| :: req[i] == PairOf(entries[i])
  {
    req := new Pair[|entries|](i => Pair([], [], None));
    for i := 0 to |entries|
      invariant forall j | 0 <= j < i :: req[j] == PairOf(entries[j])
    {
      req[i] := PairOf(entries[i]);
    }
  }

  // ---- the round trips ----

  /** The times that survive an import: none at all, or a whole second other than that of 1970. */
  predicate Sendable(t: Time) {
    t == ZERO_TIME || (t.nanos == 0 && t.unix != 0)
  }

  ghost predicate Imported(entries: seq<Entry>, pairs: seq<Pair>) {
    |pairs| == |entries| && forall i | 0 <= i < |entries| :: pairs[i] == PairOf(entries[i])
  }

  lemma {:induction false} NothingPassedOver(pairs: seq<Pair>)
    requires forall i | 0 <= i < |pairs| :: pairs[i].history.Some?
    ensures WithHistory(pairs) == pairs
  {
    if pairs != [] {
      var n := |pairs| - 1;
      NothingPassedOver(pairs[..n]);
      assert pairs == pairs[..n] + [pairs[n]];
    }
  }

  /** Entries that were imported are queried back unless a time of theirs is not one that can be
      sent, such as the start of 1970, which comes back as no time. */
  lemma ImportThenQuery(entries: seq<Entry>, pairs: seq<Pair>, back: seq<Entry>)
    requires Imported(entries, pairs) && StandFor(WithHistory(pairs), back)
    ensures |back| == |entries|
    ensures back == entries <==> forall e | e in entries :: Sendable(e.failTime) && Sendable(e.successTime)
  {
    NothingPassedOver(pairs);
    forall i | 0 <= i < |entries|
      ensures back[i] == entries[i] <==> Sendable(entries[i].failTime) && Sendable(entries[i].successTime)
    {
      EntryRoundTrip(entries[i]);
      assert EntryOf(pairs[i]) == Success(back[i]);
    }
  }

  lemma EntryRoundTrip(e: Entry)
    ensures EntryOf(PairOf(e)).Success?
    ensures EntryOf(PairOf(e)).value == e <==> Sendable(e.failTime) && Sendable(e.successTime)
  {
    Int64RoundTrip(e.failAmt, 0);
    Int64RoundTrip(e.successAmt, 0);
  }

  /** No import of well-formed entries makes a query fail. */
  lemma ImportsAreQueried(entries: seq<Entry>, pairs: seq<Pair>, e: Err)
    requires Imported(entries, pairs)
    ensures !FailsWith(pairs, e)
  {
    forall k | 0 <= k < |pairs|
      ensures EntryOf(pairs[k]).Success?
    {
      EntryRoundTrip(entries[k]);
    }
  }

  /** An import keeps this of a pair: its vertices, its millisatoshi amounts, and its times unless they
      have the second of Go's zero time, which is imported as no time. The satoshi amounts are lost. */
  predicate Kept(was: Pair, now: Pair) {
    && was.history.Some? && now.history.Some?
    && now.nodeFrom == was.nodeFrom && now.nodeTo == was.nodeTo
    && var d, e := was.history.value, now.history.value;
    && e.failAmt == d.failAmt && e.successAmt == d.successAmt && e.failSat == e.successSat == 0
    && e.failTime == (if d.failTime == ZERO_SECONDS then 0 else d.failTime)
    && e.successTime == (if d.successTime == ZERO_SECONDS then 0 else d.successTime)
  }

  /** A history that comes back from a query and an import as it was. */
  predicate Stable(d: PairData) {
    d.failTime != ZERO_SECONDS && d.successTime != ZERO_SECONDS && d.failSat == d.successSat == 0
  }

  lemma PairRoundTrip(p: Pair)
    requires p.history.Some? && EntryOf(p).Success?
    ensures Kept(p, PairOf(EntryOf(p).value))
    ensures PairOf(EntryOf(p).value) == p <==> Stable(p.history.value)
  {
    Int64RoundTrip(0, p.history.value.failAmt);
    Int64RoundTrip(0, p.history.value.successAmt);
  }

  /** Of the pairs that were queried, those with a history are imported again. What is kept of each is
      all of it if and only if no time is that of Go's zero time, and no satoshi amount is set. */
  lemma QueryThenImport(pairs: seq<Pair>, entries: seq<Entry>, back: seq<Pair>)
    requires StandFor(WithHistory(pairs), entries) && Imported(entries, back)
    ensures |back| == |WithHistory(pairs)|
    ensures forall i | 0 <= i < |back| :: Kept(WithHistory(pairs)[i], back[i])
    ensures back == WithHistory(pairs) <==>
            forall p | p in WithHistory(pairs) && p.history.Some? :: Stable(p.history.value)
  {
    var kept := WithHistory(pairs);
    forall i | 0 <= i < |kept|
      ensures Kept(kept[i], back[i])
      ensures back[i] == kept[i] <==> Stable(kept[i].history.value)
    {
      PairRoundTrip(kept[i]);
      assert EntryOf(kept[i]) == Success(entries[i]) && back[i] == PairOf(entries[i]);
    }
  }

  /** What an entry has from its pair, field by field, and which pairs have none. */
  lemma EntryFields(p: Pair)
    requires p.history.Some?
    ensures var d, r := p.history.value, EntryOf(p);
            && (r.Success? <==> |p.nodeFrom| == 33 && |p.nodeTo| == 33)
            && (r.Failure? ==> r.error == BadVertex(if |p.nodeFrom| != 33 then |p.nodeFrom| else |p.nodeTo|))
            && (r.Success? ==>
                  && r.value.nodeFrom == p.nodeFrom && r.value.nodeTo == p.nodeTo
                  && (d.failAmt >= 0 ==> r.value.failAmt == d.failAmt)
                  && (d.successAmt >= 0 ==> r.value.successAmt == d.successAmt)
                  && (d.failTime != 0 ==> r.value.failTime == Time(d.failTime, 0))
                  && (d.failTime == 0 ==> r.value.failTime == Time(-62135596800, 0))
                  && (d.successTime != 0 ==> r.value.successTime == Time(d.successTime, 0))
                  && (d.successTime == 0 ==> r.value.successTime == Time(-62135596800, 0)))
  {
  }
}

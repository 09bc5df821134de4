/**
 * The snapshot sent to live subscribers (`broadcastQueue`) and returned by `/api/queue`:
 * a decorated copy of the stored ledger. Decoration adds presentation fields to copies
 * and never changes a stored entry.
 */
module Broadcast {
  import opened Wrappers
  import opened Queue
  import opened Duration
  import Estimator

  /** `waitingTimeHuman`: absent, or present with the formatter's result (which may be null). */
  datatype Human = NoHuman | Human(text: Option<string>)

  datatype Decorated = Decorated(entry: Entry, waitingTimeHuman: Human)

  datatype Snapshot = Snapshot(lastToken: int, entries: seq<Decorated>, avgServiceSeconds: Option<int>)

  /** Statuses whose copies are decorated in a broadcast; skipped entries are not. */
  predicate DecoratedStatus(st: Status) {
    st == Waiting || st == Arrived || st == Served || st == Cancelled
  }

  /** `waitingTime || 0`. */
  function WaitedOrZero(e: Entry): int {
    if Falsy(e.waitingTime) then 0 else e.waitingTime.value
  }

  function DecorateForBroadcast(e: Entry): Decorated {
    if DecoratedStatus(e.status) then
      Decorated(e.(waitedSeconds := Some(WaitedOrZero(e))), Human(FormatDuration(e.waitingTime)))
    else
      Decorated(e, NoHuman)
  }

  /** `broadcastQueue`'s payload: the ledger, decorated copies and the average service time. */
  function BroadcastPayload(state: QueueState, defaultAvg: int): (p: Snapshot)
    ensures p.lastToken == state.lastToken && |p.entries| == |state.entries|
    ensures p.avgServiceSeconds == Some(Estimator.AvgServiceSeconds(state.entries, defaultAvg))
  {
    Snapshot(state.lastToken,
      seq(|state.entries|, i requires 0 <= i < |state.entries| => DecorateForBroadcast(state.entries[i])),
      Some(Estimator.AvgServiceSeconds(state.entries, defaultAvg)))
  }

  /** `/api/queue`'s body: every copy gets `waitingTimeHuman`; no average is attached. */
  function QueueView(state: QueueState): (p: Snapshot)
    ensures p.lastToken == state.lastToken && |p.entries| == |state.entries|
    ensures p.avgServiceSeconds.None?
  {
    Snapshot(state.lastToken,
      seq(|state.entries|, i requires 0 <= i < |state.entries| =>
        Decorated(state.entries[i], Human(FormatDuration(state.entries[i].waitingTime)))),
      None)
  }

  /**
   * A broadcast copy differs from the stored entry at most in waitedSeconds; skipped
   * entries (and unknown statuses) are copied verbatim with no human-readable wait, the
   * others carry waitedSeconds = waitingTime (0 when unset) and its human-readable text.
   */
  lemma BroadcastCopies(state: QueueState, defaultAvg: int, i: nat)
    requires i < |state.entries|
    ensures var e := state.entries[i];
      var d := BroadcastPayload(state, defaultAvg).entries[i];
      && d.entry.(waitedSeconds := e.waitedSeconds) == e
      && (!DecoratedStatus(e.status) ==> d == Decorated(e, NoHuman))
      && (DecoratedStatus(e.status) ==>
            d.entry.waitedSeconds == Some(WaitedOrZero(e)) && d.waitingTimeHuman.Human?)
  {
  }

  /**
   * The human-readable wait of a decorated copy reads back as the stored waiting time when
   * that is at least one second; it is null exactly when no waiting time is stored.
   */
  lemma BroadcastHumanReadsBack(state: QueueState, defaultAvg: int, i: nat)
    requires i < |state.entries| && DecoratedStatus(state.entries[i].status)
    ensures var e := state.entries[i];
      var h := BroadcastPayload(state, defaultAvg).entries[i].waitingTimeHuman;
      && h.Human?
      && (h.text.None? <==> e.waitingTime.None?)
      && (e.waitingTime.Some? && e.waitingTime.value >= 1 ==>
            ParseDuration(h.text.value) == Some(e.waitingTime.value))
  {
    var e := state.entries[i];
    if e.waitingTime.Some? && e.waitingTime.value >= 1 {
      FormatParseRoundTrip(e.waitingTime.value);
    }
  }

  /** The queue endpoint copies entries verbatim and adds the human-readable wait to each. */
  lemma QueueViewCopies(state: QueueState, i: nat)
    requires i < |state.entries|
    ensures QueueView(state).entries[i].entry == state.entries[i]
    ensures var t := state.entries[i].waitingTime;
      t.Some? && t.value >= 1 ==>
        ParseDuration(QueueView(state).entries[i].waitingTimeHuman.text.value) == Some(t.value)
  {
    var t := state.entries[i].waitingTime;
    if t.Some? && t.value >= 1 {
      FormatParseRoundTrip(t.value);
    }
  }
}

/**
 * The mapping between ledger entries and records of the remote replicated store, in both
 * directions. Pull (`loadFromDynamo`) turns a full scan into a ledger state; push
 * (`syncToDynamo`) builds the record written for one entry. The store calls themselves are
 * not modelled: a scan arrives as a list of records and a push yields the record.
 */
module Remote {
  import opened Wrappers
  import opened Numbers
  import opened Text
  import opened Sorting
  import opened Queue
  import Estimator

  /**
   * A record of the remote store: the attributes the push writes and the legacy attributes
   * the pull still reads. `waitingTime` is stored as decimal text; the model keeps the
   * number that text spells.
   */
  datatype RemoteItem = RemoteItem(
    clinicId: Option<string>,
    tokenId: Option<string>,
    token: Option<int>,
    clinicName: Option<string>,
    personName: Option<string>,
    name: Option<string>,
    phoneNumber: Option<string>,
    email: Option<string>,
    date: Option<int>,
    status: Option<string>,
    tokenTakenAt: Option<int>,
    timestamp: Option<int>,
    createdAt: Option<int>,
    arrivedAt: Option<int>,
    servedAt: Option<int>,
    cancelledAt: Option<int>,
    waitingTime: Option<int>)

  // ---- Pull ----

  /**
   * The token of a record: its `token` attribute when non-zero, otherwise the number spelled
   * by the digits of `tokenId`; absent when that yields nothing or zero.
   */
  function RecordToken(it: RemoteItem): (t: Option<int>)
    ensures t.Some? ==> t.value != 0
    ensures it.token.Some? && it.token.value != 0 ==> t == it.token
    ensures !(it.token.Some? && it.token.value != 0) && Truthy(it.tokenId)
      && KeepDigits(it.tokenId.value) != "" && DigitsValue(KeepDigits(it.tokenId.value)) != 0
      ==> t == Some(DigitsValue(KeepDigits(it.tokenId.value)) as int)
    ensures t.None? <==>
      && !(it.token.Some? && it.token.value != 0)
      && (!Truthy(it.tokenId) || KeepDigits(it.tokenId.value) == "" || DigitsValue(KeepDigits(it.tokenId.value)) == 0)
  {
    var parsed :=
      if it.token.Some? && it.token.value != 0 then it.token
      else if Truthy(it.tokenId) then
        var digits := KeepDigits(it.tokenId.value);
        if digits == "" then None else Some(DigitsValue(digits) as int)
      else None;
    if parsed.Some? && parsed.value != 0 then parsed else None
  }

  /** The first present instant among three candidates, else `now`. */
  function FirstInstant(a: Option<int>, b: Option<int>, c: Option<int>, now: int): int {
    if a.Some? then a.value else if b.Some? then b.value else if c.Some? then c.value else now
  }

  /** The entry a record with a token maps to. */
  function PulledEntry(it: RemoteItem, token: int, clinicId: string, now: int): (e: Entry)
    ensures e.token == token
    ensures e.email.None? && e.estimatedWaitSeconds.None? && e.waitedSeconds.None?
    ensures !Truthy(it.status) ==> e.status == Waiting
    ensures Truthy(it.status) ==> StatusName(e.status) == it.status.value
  {
    Entry(
      token := token,
      tokenId := OrElse(it.tokenId,
        if it.token.Some? && it.token.value != 0 then Some(IntToString(it.token.value)) else None),
      clinicId := OrElse(it.clinicId, Some(clinicId)),
      clinicName := KeepTruthy(it.clinicName),
      name := KeepTruthy(OrElse(it.personName, it.name)),
      phoneNumber := KeepTruthy(it.phoneNumber),
      email := None,
      timestamp := FirstInstant(it.tokenTakenAt, it.timestamp, it.createdAt, now),
      status := if Truthy(it.status) then ParseStatus(it.status.value) else Waiting,
      arrivedAt := it.arrivedAt,
      servedAt := it.servedAt,
      cancelledAt := it.cancelledAt,
      waitingTime := it.waitingTime,
      estimatedWaitSeconds := None,
      waitedSeconds := None)
  }

  /** The `map` and `filter` steps: records without a token are dropped. */
  function PulledEntries(items: seq<RemoteItem>, clinicId: string, now: int): (es: seq<Entry>)
    ensures |es| <= |items|
    ensures forall i | 0 <= i < |es| :: es[i].token != 0
  {
    if items == [] then []
    else
      var t := RecordToken(items[0]);
      (if t.Some? then [PulledEntry(items[0], t.value, clinicId, now)] else [])
      + PulledEntries(items[1..], clinicId, now)
  }

  /** Number of records that carry a token. */
  function TokenCount(items: seq<RemoteItem>): nat {
    if items == [] then 0 else (if RecordToken(items[0]).Some? then 1 else 0) + TokenCount(items[1..])
  }

  /** The largest token, or 0 for no entries. */
  function MaxToken(es: seq<Entry>): (m: int)
    ensures forall i | 0 <= i < |es| :: es[i].token <= m
    ensures es != [] ==> exists i | 0 <= i < |es| :: es[i].token == m
    ensures es == [] ==> m == 0
  {
    if es == [] then 0
    else if |es| == 1 then es[0].token
    else
      var m := MaxToken(es[1..]);
      assert forall i | 1 <= i < |es| :: es[i] == es[1..][i - 1];
      Max(es[0].token, m)
  }

  /** `loadFromDynamo`'s mapping: the new ledger state built from a full scan. */
  function Pull(items: seq<RemoteItem>, clinicId: string, now: int): QueueState {
    var es := PulledEntries(items, clinicId, now);
    QueueState(MaxToken(es), SortBy(es, TokenKey))
  }

  lemma {:induction false} PulledEntriesCount(items: seq<RemoteItem>, clinicId: string, now: int)
    ensures |PulledEntries(items, clinicId, now)| == TokenCount(items)
  {
    if items != [] {
      PulledEntriesCount(items[1..], clinicId, now);
    }
  }

  /**
   * A pull keeps exactly the records that carry a token, holds them in ascending token
   * order, and sets lastToken to the largest token, or 0 when none is left.
   */
  lemma PullProperties(items: seq<RemoteItem>, clinicId: string, now: int)
    ensures var st := Pull(items, clinicId, now);
      && |st.entries| == TokenCount(items)
      && multiset(st.entries) == multiset(PulledEntries(items, clinicId, now))
      && SortedByToken(st.entries)
      && (forall i | 0 <= i < |st.entries| :: st.entries[i].token != 0 && st.entries[i].token <= st.lastToken)
      && (st.entries == [] ==> st.lastToken == 0)
      && (st.entries != [] ==> st.lastToken == st.entries[|st.entries| - 1].token)
  {
    var es := PulledEntries(items, clinicId, now);
    var st := Pull(items, clinicId, now);
    PulledEntriesCount(items, clinicId, now);
    forall i | 0 <= i < |st.entries|
      ensures st.entries[i].token != 0 && st.entries[i].token <= st.lastToken
    {
      SortByMember(es, TokenKey, i);
    }
    if st.entries != [] {
      var n := |st.entries| - 1;
      var k :| 0 <= k < |es| && es[k].token == st.lastToken;
      assert es[k] in multiset(st.entries);
      var j :| 0 <= j < |st.entries| && st.entries[j] == es[k];
      assert TokenKey(st.entries[j]) <= TokenKey(st.entries[n]) || j == n;
    }
  }

  // ---- Push ----

  /**
   * The `waitingTime` pushed for an entry: its own value when set and non-zero; otherwise
   * the wait from issue to arrival when it arrived; otherwise the waiting entries ahead of it
   * in the stored ledger times the average service time (no capacity scaling). Never negative.
   */
  function PushedWaitingTime(e: Entry, local: QueueState, defaultAvg: int): (w: nat)
    ensures !Falsy(e.waitingTime) ==> w == Max(0, e.waitingTime.value)
    ensures Falsy(e.waitingTime) && e.arrivedAt.Some? ==> w == Max(0, e.arrivedAt.value - e.timestamp)
    ensures Falsy(e.waitingTime) && e.arrivedAt.None? ==>
      w == Max(0, AheadCount(local.entries, e.token) * Estimator.AvgServiceSeconds(local.entries, defaultAvg))
  {
    var wait :=
      if !Falsy(e.waitingTime) then e.waitingTime.value
      else if e.arrivedAt.Some? then Max(0, e.arrivedAt.value - e.timestamp)
      else AheadCount(local.entries, e.token) * Estimator.AvgServiceSeconds(local.entries, defaultAvg);
    Max(0, wait)
  }

  /**
   * `syncToDynamo`'s item: key defaults (this server's clinic id; the decimal token, or a
   * fresh id when the token is 0), renamed attributes, optional attributes only when truthy.
   */
  function PutItem(e: Entry, clinicId: string, freshId: string, local: QueueState, defaultAvg: int): (it: RemoteItem)
    ensures it.clinicId.Some? && it.tokenId.Some? && it.status.Some? && it.waitingTime.Some?
    ensures it.token.None? && it.servedAt.None? && it.name.None?
    ensures it.tokenTakenAt == Some(e.timestamp) && it.date == Some(e.timestamp)
    ensures Truthy(e.tokenId) ==> it.tokenId == e.tokenId
    ensures !Truthy(e.tokenId) && e.token != 0 ==> it.tokenId == Some(IntToString(e.token))
    ensures it.personName == KeepTruthy(e.name) && it.email == KeepTruthy(e.email)
  {
    RemoteItem(
      clinicId := Some(if Truthy(e.clinicId) then e.clinicId.value else clinicId),
      tokenId := Some(if Truthy(e.tokenId) then e.tokenId.value
                      else if e.token != 0 then IntToString(e.token)
                      else freshId),
      token := None,
      clinicName := KeepTruthy(e.clinicName),
      personName := KeepTruthy(e.name),
      name := None,
      phoneNumber := KeepTruthy(e.phoneNumber),
      email := KeepTruthy(e.email),
      date := Some(e.timestamp),
      status := Some(StatusName(e.status)),
      tokenTakenAt := Some(e.timestamp),
      timestamp := None,
      createdAt := None,
      arrivedAt := e.arrivedAt,
      servedAt := None,
      cancelledAt := e.cancelledAt,
      waitingTime := Some(PushedWaitingTime(e, local, defaultAvg)))
  }

  /** The tokenId an entry of the ledger carries once the server has written it. */
  predicate CanonicalTokenId(e: Entry) {
    e.token > 0 && (!Truthy(e.tokenId) || e.tokenId == Some(NatToString(e.token)))
  }

  /**
   * Pushing an entry and pulling the record back returns the same token, key, contact
   * details, issue instant, status, arrival and cancellation; the pushed waiting time comes
   * back. The serving instant, the e-mail, the estimate and waitedSeconds do not come back.
   */
  lemma PushPullRoundTrip(e: Entry, clinicId: string, freshId: string, local: QueueState, defaultAvg: int, now: int)
    requires CanonicalTokenId(e) && CanonicalStatus(e.status) && StatusName(e.status) != ""
    ensures var it := PutItem(e, clinicId, freshId, local, defaultAvg);
      && RecordToken(it) == Some(e.token)
      && PulledEntry(it, e.token, clinicId, now) == e.(
        tokenId := Some(NatToString(e.token)),
        clinicId := Some(if Truthy(e.clinicId) then e.clinicId.value else clinicId),
        clinicName := KeepTruthy(e.clinicName),
        name := KeepTruthy(e.name),
        phoneNumber := KeepTruthy(e.phoneNumber),
        email := None,
        servedAt := None,
        waitingTime := Some(PushedWaitingTime(e, local, defaultAvg)),
        estimatedWaitSeconds := None,
        waitedSeconds := None)
  {
    var it := PutItem(e, clinicId, freshId, local, defaultAvg);
    assert IntToString(e.token) == NatToString(e.token);
    TokenDigitsRoundTrip(e.token);
    assert it.tokenId == Some(NatToString(e.token));
    StatusRoundTrip(e.status);
  }

  /**
   * The serving instant is never pushed, so a ledger rebuilt from the records the server
   * pushed has no completed service: the average falls back to the configured default.
   */
  lemma {:induction false} PulledPushesForgetServiceTimes(items: seq<RemoteItem>, clinicId: string, now: int, defaultAvg: int)
    requires forall k | 0 <= k < |items| :: items[k].servedAt.None?
    ensures Estimator.AvgServiceSeconds(Pull(items, clinicId, now).entries, defaultAvg) == defaultAvg
  {
    var es := PulledEntries(items, clinicId, now);
    NoServedAt(items, clinicId, now);
    var st := Pull(items, clinicId, now);
    forall i | 0 <= i < |st.entries| ensures !Estimator.Completed(st.entries[i]) {
      SortByMember(es, TokenKey, i);
    }
    Estimator.NoCompletedMeansDefault(st.entries, defaultAvg);
  }

  lemma {:induction false} NoServedAt(items: seq<RemoteItem>, clinicId: string, now: int)
    requires forall k | 0 <= k < |items| :: items[k].servedAt.None?
    ensures forall e | e in PulledEntries(items, clinicId, now) :: e.servedAt.None?
  {
    if items != [] {
      NoServedAt(items[1..], clinicId, now);
    }
  }
}

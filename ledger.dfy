/**
 * The token ledger: the server's durable document `{ lastToken, entries }` and the request
 * handlers that read, change and write it. Each handler runs as one uninterrupted step, so
 * the object's fields are the stored document; a handler assigns them where the server
 * writes the file. "Now" is a parameter. A handler that pushes an entry to the remote store
 * returns that entry as `synced`.
 */
module Ledger {
  import opened Wrappers
  import opened Numbers
  import opened Text
  import opened Queue
  import opened Estimator
  import Remote
  import Policy

  /** Deployment settings the handlers read. */
  datatype Config = Config(
    clinicId: string,
    defaultAvgServiceSeconds: int,
    serviceCapacity: int,
    allowWebTokens: bool,
    adminSecret: Option<string>)

  /** An HTTP answer: success, with its payload, or a status code and message. */
  datatype Reply = Ok | Issued(token: int) | ArrivedOk(waitingTime: Option<int>) | Failure(code: int, error: string)

  datatype KioskReply = KioskAck(token: int) | KioskFailed(error: string)

  /** `x ? String(x).trim() : null`. */
  function TrimmedField(s: Option<string>): (r: Option<string>)
    ensures r.Some? <==> Truthy(s)
    ensures r.Some? ==> r.value == Trim(s.value)
  {
    if Truthy(s) then Some(Trim(s.value)) else None
  }

  /** The entry a new token gets: waiting, keyed by its decimal token, issued now. */
  function NewEntry(token: int, profile: Profile, clinicId: string, now: int, estimate: int, waitingTime: Option<int>): Entry {
    Entry(
      token := token,
      tokenId := Some(IntToString(token)),
      clinicId := Some(clinicId),
      clinicName := None,
      name := TrimmedField(profile.name),
      phoneNumber := TrimmedField(profile.phoneNumber),
      email := TrimmedField(profile.email),
      timestamp := now,
      status := Waiting,
      arrivedAt := None,
      servedAt := None,
      cancelledAt := None,
      waitingTime := waitingTime,
      estimatedWaitSeconds := Some(estimate),
      waitedSeconds := None)
  }

  /** The key defaults set before a push: this clinic's id and the decimal token. */
  function WithKeyDefaults(e: Entry, clinicId: string): (r: Entry)
    ensures Truthy(r.clinicId) || r.clinicId == Some(clinicId)
    ensures Truthy(e.clinicId) ==> r.clinicId == e.clinicId
    ensures !Truthy(e.clinicId) ==> r.clinicId == Some(clinicId)
    ensures Truthy(e.tokenId) ==> r.tokenId == e.tokenId
    ensures !Truthy(e.tokenId) ==> r.tokenId == Some(IntToString(e.token))
    ensures r.(clinicId := e.clinicId, tokenId := e.tokenId) == e
  {
    e.(clinicId := OrElse(e.clinicId, Some(clinicId)),
       tokenId := OrElse(e.tokenId, Some(IntToString(e.token))))
  }

  /** The entry looked up by cancel and arrive: the first waiting one with the token. */
  function FirstWaiting(es: seq<Entry>, token: int): (i: int)
    ensures -1 <= i < |es|
    ensures i >= 0 ==> es[i].token == token && es[i].status == Waiting
    ensures i >= 0 ==> forall k | 0 <= k < i :: !(es[k].token == token && es[k].status == Waiting)
    ensures i == -1 <==> forall k | 0 <= k < |es| :: !(es[k].token == token && es[k].status == Waiting)
  {
    FindIndex(es, (e: Entry) => e.token == token && e.status == Waiting)
  }

  /** The entry looked up by the admin actions and the elapsed-time update: the first with the token. */
  function FirstWithToken(es: seq<Entry>, token: int): (i: int)
    ensures -1 <= i < |es|
    ensures i >= 0 ==> es[i].token == token && forall k | 0 <= k < i :: es[k].token != token
    ensures i == -1 <==> forall k | 0 <= k < |es| :: es[k].token != token
  {
    FindIndex(es, (e: Entry) => e.token == token)
  }

  /** A cancelled entry as the handler leaves it. */
  function CancelledEntry(e: Entry, now: int, clinicId: string): Entry {
    WithKeyDefaults(e.(status := Cancelled, cancelledAt := Some(now)), clinicId)
  }

  /** An arrived entry: the client's elapsed time becomes the final waiting time when sent. */
  function ArrivedEntry(e: Entry, now: int, elapsed: Option<Numeric>): Entry {
    e.(status := Arrived, arrivedAt := Some(now),
       waitingTime := if elapsed.Some? then Some(WholeSeconds(elapsed.value)) else e.waitingTime)
  }

  /**
   * A served or skipped entry (HTTP): the instant is recorded in servedAt, and the wait from
   * issue to arrival in waitedSeconds when that is unset or zero and the entry arrived.
   */
  function FinishedEntry(e: Entry, st: Status, now: int): Entry {
    var f := e.(status := st, servedAt := Some(now));
    if Falsy(f.waitedSeconds) && f.arrivedAt.Some? then
      f.(waitedSeconds := Some(Max(0, f.arrivedAt.value - f.timestamp)))
    else
      f
  }

  lemma SameTokensSorted(a: seq<Entry>, b: seq<Entry>)
    requires |a| == |b| && forall i | 0 <= i < |a| :: a[i].token == b[i].token
    requires SortedByToken(a)
    ensures SortedByToken(b)
  {
    forall i, j | 0 <= i < j < |b| ensures TokenKey(b[i]) <= TokenKey(b[j]) {
      assert TokenKey(a[i]) <= TokenKey(a[j]);
    }
  }

  lemma SortedAppend(es: seq<Entry>, x: Entry)
    requires SortedByToken(es) && forall i | 0 <= i < |es| :: es[i].token < x.token
    ensures SortedByToken(es + [x])
  {
    var r := es + [x];
    forall i, j | 0 <= i < j < |r| ensures TokenKey(r[i]) <= TokenKey(r[j]) {
      if j < |es| {
        assert TokenKey(es[i]) <= TokenKey(es[j]);
      }
    }
  }

  /**
   * Arrive stores the document before recomputing: a waiting entry behind the one that
   * arrived keeps an estimate that, with one service line, is a full service time higher
   * than a recompute of the stored document would give.
   */
  lemma ArriveLeavesLaterEstimateStale(es: seq<Entry>, i: nat, j: nat, avg: int, now: int, elapsed: Option<Numeric>)
    requires i < |es| && j < |es| && es[i].status == Waiting && es[j].status == Waiting
    requires es[i].token < es[j].token
    requires es[j].estimatedWaitSeconds == Recomputed(es, avg, 1)[j].estimatedWaitSeconds
    ensures var stored := es[i := ArrivedEntry(es[i], now, elapsed)];
      stored[j].estimatedWaitSeconds.value == Recomputed(stored, avg, 1)[j].estimatedWaitSeconds.value + avg
  {
    var arrived := ArrivedEntry(es[i], now, elapsed);
    var stored := es[i := arrived];
    var t := es[j].token;
    assert stored[j] == es[j];
    AheadCountLeave(es, i, arrived, t);
    var a := AheadCount(stored, t);
    var before := AheadCount(es, t) * avg;
    var after := a * avg;
    assert before == after + avg by {
      assert AheadCount(es, t) == a + 1;
    }
    assert Recomputed(es, avg, 1)[j].estimatedWaitSeconds == Some(RoundDiv(before, 1));
    assert Recomputed(stored, avg, 1)[j].estimatedWaitSeconds == Some(RoundDiv(after, 1));
    RoundDivExact(before, 1);
    RoundDivExact(after, 1);
    assert before * 1 == before && after * 1 == after;
  }

  /**
   * What a recompute does to a ledger with a freshly issued entry appended: the new entry's
   * estimate is the waiting count times the average, scaled and rounded; every earlier entry
   * keeps all but its estimate, and the token list grows by the new token.
   */
  lemma IssuedAppend(before: seq<Entry>, entry: Entry, avg: int, capacity: int)
    requires capacity >= 1 && SortedByToken(before) && entry.status == Waiting
    requires forall i | 0 <= i < |before| :: before[i].token < entry.token
    ensures SortedByToken(before + [entry])
    ensures var r := Recomputed(before + [entry], avg, capacity);
      && r[|before|] == entry.(estimatedWaitSeconds := Some(RoundDiv(WaitingCount(before) * avg, capacity)))
      && (forall i | 0 <= i < |before| :: r[i].(estimatedWaitSeconds := before[i].estimatedWaitSeconds) == before[i])
      && Tokens(r) == Tokens(before) + [entry.token]
  {
    SortedAppend(before, entry);
    IssuedEntryEstimate(before, entry, avg, capacity);
    forall i | 0 <= i < |before|
      ensures Recomputed(before + [entry], avg, capacity)[i].(estimatedWaitSeconds := before[i].estimatedWaitSeconds) == before[i]
    {
      EarlierEntryKept(before, entry, avg, capacity, i);
    }
    var r := Recomputed(before + [entry], avg, capacity);
    assert Tokens(r) == Tokens(before) + [entry.token] by {
      RecomputedKeepsQueue(before + [entry], avg, capacity);
    }
  }

  lemma IssuedEntryEstimate(before: seq<Entry>, entry: Entry, avg: int, capacity: int)
    requires capacity >= 1 && entry.status == Waiting
    requires forall i | 0 <= i < |before| :: before[i].token < entry.token
    ensures Recomputed(before + [entry], avg, capacity)[|before|]
      == entry.(estimatedWaitSeconds := Some(RoundDiv(WaitingCount(before) * avg, capacity)))
  {
    var es := before + [entry];
    assert es[|before|] == entry;
    AheadCountAppend(before, entry, entry.token);
    AheadOfNewestIsWaitingCount(before, entry.token);
    assert AheadCount(es, entry.token) == WaitingCount(before);
    assert Recomputed(es, avg, capacity)[|before|] == Estimated(entry, es, avg, capacity);
  }

  lemma EarlierEntryKept(before: seq<Entry>, entry: Entry, avg: int, capacity: int, i: nat)
    requires capacity >= 1 && i < |before|
    ensures Recomputed(before + [entry], avg, capacity)[i].(estimatedWaitSeconds := before[i].estimatedWaitSeconds) == before[i]
  {
    assert (before + [entry])[i] == before[i];
    RecomputedMeaning(before + [entry], avg, capacity, i);
  }

  class QueueLedger {
    const config: Config
    var lastToken: int
    var entries: seq<Entry>

    /**
     * Entries are held in ascending token order and no token exceeds lastToken, so the
     * next token issued is larger than every token held.
     */
    ghost predicate Valid()
      reads this
    {
      && SortedByToken(entries)
      && forall i | 0 <= i < |entries| :: entries[i].token <= lastToken
    }

    function State(): QueueState
      reads this
    {
      QueueState(lastToken, entries)
    }

    function Avg(): int
      reads this
    {
      AvgServiceSeconds(entries, config.defaultAvgServiceSeconds)
    }

    /** First boot: the empty document. */
    constructor (config: Config)
      ensures Valid() && this.config == config
      ensures lastToken == 0 && entries == []
    {
      this.config := config;
      lastToken := 0;
      entries := [];
    }

    /**
     * `recomputeEstimates`: every waiting entry gets round(ahead * avg / capacity), where
     * ahead counts the waiting entries with a smaller token.
     */
    method RecomputeEstimates()
      requires Valid()
      modifies this
      ensures Valid() && lastToken == old(lastToken)
      ensures entries == Recomputed(old(entries), old(Avg()), Capacity(config.serviceCapacity))
    {
      var avg := ComputeAvgServiceSeconds(entries, config.defaultAvgServiceSeconds);
      assert avg == Avg();
      ApplyEstimates(avg, Capacity(config.serviceCapacity));
    }

    /** The `forEach` of `recomputeEstimates`, for a given average and capacity. */
    method ApplyEstimates(avg: int, capacity: int)
      requires Valid() && capacity >= 1
      modifies this
      ensures Valid() && lastToken == old(lastToken)
      ensures entries == Recomputed(old(entries), avg, capacity)
    {
      var snapshot := entries;
      var i := 0;
      while i < |entries|
        invariant 0 <= i <= |entries| == |snapshot|
        invariant forall k | 0 <= k < i :: entries[k] == Estimated(snapshot[k], snapshot, avg, capacity)
        invariant forall k | i <= k < |entries| :: entries[k] == snapshot[k]
        invariant lastToken == old(lastToken)
      {
        var e := entries[i];
        if e.status == Waiting {
          var ahead := AheadCount(snapshot, e.token);
          entries := entries[i := e.(estimatedWaitSeconds := Some(RoundDiv(ahead * avg, capacity)))];
        }
        assert entries[i] == Estimated(snapshot[i], snapshot, avg, capacity);
        i := i + 1;
      }
      assert forall k | 0 <= k < |entries| :: entries[k] == Recomputed(snapshot, avg, capacity)[k];
      RecomputedKeepsQueue(snapshot, avg, capacity);
      SameTokensSorted(snapshot, entries);
    }

    /**
     * Issues the next token (shared by `createTokenEntry` and `/api/take`): the new entry
     * waits behind every waiting entry, lastToken advances by one, and every earlier entry
     * keeps all its fields but its estimate.
     */
    method Issue(profile: Profile, now: int, waitingTime: Option<int>) returns (token: int, synced: Entry)
      requires Valid()
      modifies this
      ensures Valid()
      ensures token == old(lastToken) + 1 && lastToken == token
      ensures |entries| == |old(entries)| + 1 && synced == entries[|entries| - 1]
      ensures entries == Recomputed(
        old(entries) + [NewEntry(token, profile, config.clinicId, now, WaitingCount(old(entries)) * old(Avg()), waitingTime)],
        old(Avg()), Capacity(config.serviceCapacity))
    {
      var avg := ComputeAvgServiceSeconds(entries, config.defaultAvgServiceSeconds);
      assert avg == Avg();
      token := lastToken + 1;
      var entry := NewEntry(token, profile, config.clinicId, now, WaitingCount(entries) * avg, waitingTime);
      AvgIgnoresAppend(entries, entry, config.defaultAvgServiceSeconds);
      Append(entry);
      RecomputeEstimates();
      synced := entries[|entries| - 1];
    }

    /** `data.lastToken = token; data.entries.push(entry)` for the entry of the next token. */
    method Append(entry: Entry)
      requires Valid() && entry.token == lastToken + 1
      modifies this
      ensures Valid() && lastToken == entry.token
      ensures entries == old(entries) + [entry]
    {
      SortedAppend(entries, entry);
      lastToken := entry.token;
      entries := entries + [entry];
    }

    /** `createTokenEntry` (browser pairing and kiosk flow): the new entry starts with waitingTime 0. */
    method CreateTokenEntry(profile: Profile, now: int) returns (token: int, synced: Entry)
      requires Valid()
      modifies this
      ensures Valid()
      ensures token == old(lastToken) + 1 && lastToken == token
      ensures |entries| == |old(entries)| + 1 && synced == entries[|entries| - 1]
      ensures forall i | 0 <= i < |old(entries)| ::
        entries[i].(estimatedWaitSeconds := old(entries)[i].estimatedWaitSeconds) == old(entries)[i]
      ensures Tokens(entries) == Tokens(old(entries)) + [token]
      ensures synced == NewEntry(token, profile, config.clinicId, now, WaitingCount(old(entries)) * old(Avg()), Some(0))
        .(estimatedWaitSeconds := Some(RoundDiv(WaitingCount(old(entries)) * old(Avg()), Capacity(config.serviceCapacity))))
      ensures entries == Recomputed(
        old(entries) + [NewEntry(token, profile, config.clinicId, now, WaitingCount(old(entries)) * old(Avg()), Some(0))],
        old(Avg()), Capacity(config.serviceCapacity))
    {
      ghost var before, avg := entries, Avg();
      token, synced := Issue(profile, now, Some(0));
      IssuedAppend(before, NewEntry(token, profile, config.clinicId, now, WaitingCount(before) * avg, Some(0)),
        avg, Capacity(config.serviceCapacity));
    }

    /**
     * `/api/take`: refused with 403 and no change unless the creation policy admits the
     * request; otherwise like createTokenEntry, except that waitingTime is left unset.
     */
    method Take(headers: Policy.AdminHeaders, body: Profile, now: int) returns (reply: Reply, synced: Option<Entry>)
      requires Valid()
      modifies this
      ensures Valid()
      ensures var allowed := Policy.IsTokenCreationAllowed(config.allowWebTokens, config.adminSecret, headers);
        && (!allowed ==> reply == Failure(403, "token creation disabled via web when using token machine")
                         && synced.None? && lastToken == old(lastToken) && entries == old(entries))
        && (allowed ==> reply == Issued(old(lastToken) + 1) && lastToken == old(lastToken) + 1
                        && |entries| == |old(entries)| + 1 && synced == Some(entries[|entries| - 1])
                        && synced.value
                           == NewEntry(lastToken, body, config.clinicId, now, WaitingCount(old(entries)) * old(Avg()), None)
                              .(estimatedWaitSeconds := Some(RoundDiv(WaitingCount(old(entries)) * old(Avg()),
                                                                      Capacity(config.serviceCapacity))))
                        && entries == Recomputed(
                             old(entries) + [NewEntry(lastToken, body, config.clinicId, now,
                                                      WaitingCount(old(entries)) * old(Avg()), None)],
                             old(Avg()), Capacity(config.serviceCapacity))
                        && forall i | 0 <= i < |old(entries)| ::
                             entries[i].(estimatedWaitSeconds := old(entries)[i].estimatedWaitSeconds) == old(entries)[i])
    {
      if !Policy.IsTokenCreationAllowed(config.allowWebTokens, config.adminSecret, headers) {
        return Failure(403, "token creation disabled via web when using token machine"), None;
      }
      ghost var before, avg := entries, Avg();
      var token, entry := Issue(body, now, None);
      IssuedAppend(before, NewEntry(token, body, config.clinicId, now, WaitingCount(before) * avg, None),
        avg, Capacity(config.serviceCapacity));
      reply, synced := Issued(token), Some(entry);
    }

    /**
     * `/api/cancel`: 400 without a token, 404 unless a waiting entry has it; otherwise that
     * entry becomes cancelled at `now`, gets its key defaults, and the estimates are recomputed.
     */
    method Cancel(token: Option<int>, now: int) returns (reply: Reply, synced: Option<Entry>)
      requires Valid()
      modifies this
      ensures Valid() && lastToken == old(lastToken)
      ensures Falsy(token) ==> reply == Failure(400, "token required")
      ensures !Falsy(token) && FirstWaiting(old(entries), token.value) == -1 ==>
        reply == Failure(404, "token not found or not cancellable")
      ensures reply.Failure? ==> entries == old(entries) && synced.None?
      ensures reply.Ok? <==> !Falsy(token) && FirstWaiting(old(entries), token.value) >= 0
      ensures reply.Ok? ==>
        var i := FirstWaiting(old(entries), token.value);
        var cancelled := CancelledEntry(old(entries)[i], now, config.clinicId);
        && entries == Recomputed(old(entries)[i := cancelled], old(Avg()), Capacity(config.serviceCapacity))
        && entries[i] == cancelled && synced == Some(cancelled)
    {
      if Falsy(token) {
        return Failure(400, "token required"), None;
      }
      var i := FirstWaiting(entries, token.value);
      if i == -1 {
        return Failure(404, "token not found or not cancellable"), None;
      }
      var cancelled := CancelledEntry(entries[i], now, config.clinicId);
      AvgIgnoresUpdate(entries, i, cancelled, config.defaultAvgServiceSeconds);
      SameTokensSorted(entries, entries[i := cancelled]);
      entries := entries[i := cancelled];
      RecomputeEstimates();
      reply, synced := Ok, Some(entries[i]);
    }

    /**
     * `/api/arrive`: 400 without a token, 404 unless a waiting entry has it; otherwise that
     * entry becomes arrived at `now`, with waitingTime = max(0, floor(elapsed)) when the
     * client sent one. The stored document keeps every other entry exactly as it was,
     * estimates included: the server recomputes only the copy it pushes.
     */
    method Arrive(token: Option<int>, elapsed: Option<Numeric>, now: int) returns (reply: Reply, synced: Option<Entry>)
      requires Valid()
      modifies this
      ensures Valid() && lastToken == old(lastToken)
      ensures Falsy(token) ==> reply == Failure(400, "token required")
      ensures !Falsy(token) && FirstWaiting(old(entries), token.value) == -1 ==>
        reply == Failure(404, "token not found or not waiting")
      ensures reply.Failure? ==> entries == old(entries) && synced.None?
      ensures !reply.Failure? <==> !Falsy(token) && FirstWaiting(old(entries), token.value) >= 0
      ensures !reply.Failure? ==>
        var i := FirstWaiting(old(entries), token.value);
        var arrived := ArrivedEntry(old(entries)[i], now, elapsed);
        && entries == old(entries)[i := arrived]
        && reply == ArrivedOk(arrived.waitingTime)
        && synced == Some(WithKeyDefaults(arrived, config.clinicId))
    {
      if Falsy(token) {
        return Failure(400, "token required"), None;
      }
      var i := FirstWaiting(entries, token.value);
      if i == -1 {
        return Failure(404, "token not found or not waiting"), None;
      }
      var arrived := ArrivedEntry(entries[i], now, elapsed);
      SameTokensSorted(entries, entries[i := arrived]);
      entries := entries[i := arrived];
      reply, synced := ArrivedOk(arrived.waitingTime), Some(WithKeyDefaults(arrived, config.clinicId));
    }

    /**
     * `/api/admin_action`: 400 when the action or token is missing, 404 for an unknown token,
     * 400 for an action other than serve or skip; otherwise the first entry with the token,
     * whatever its status, becomes served or skipped at `now` (FinishedEntry). The stored
     * document keeps every other entry exactly as it was.
     */
    method AdminAction(action: Option<string>, token: Option<int>, now: int) returns (reply: Reply, synced: Option<Entry>)
      requires Valid()
      modifies this
      ensures Valid() && lastToken == old(lastToken)
      ensures !Truthy(action) || Falsy(token) ==> reply == Failure(400, "action and token required")
      ensures Truthy(action) && !Falsy(token) && FirstWithToken(old(entries), token.value) == -1 ==>
        reply == Failure(404, "token not found")
      ensures (&& Truthy(action) && !Falsy(token) && FirstWithToken(old(entries), token.value) >= 0
               && action.value != "serve" && action.value != "skip") ==> reply == Failure(400, "unknown action")
      ensures reply.Failure? ==> entries == old(entries) && synced.None?
      ensures reply.Ok? <==> (&& Truthy(action) && !Falsy(token) && FirstWithToken(old(entries), token.value) >= 0
                             && action.value in {"serve", "skip"})
      ensures reply.Ok? ==>
        var i := FirstWithToken(old(entries), token.value);
        var finished := FinishedEntry(old(entries)[i], if action.value == "serve" then Served else Skipped, now);
        && entries == old(entries)[i := finished]
        && synced == Some(WithKeyDefaults(finished, config.clinicId))
    {
      if !Truthy(action) || Falsy(token) {
        return Failure(400, "action and token required"), None;
      }
      var i := FirstWithToken(entries, token.value);
      if i == -1 {
        return Failure(404, "token not found"), None;
      }
      var st: Status;
      if action.value == "serve" {
        st := Served;
      } else if action.value == "skip" {
        st := Skipped;
      } else {
        return Failure(400, "unknown action"), None;
      }
      var finished := FinishedEntry(entries[i], st, now);
      SameTokensSorted(entries, entries[i := finished]);
      entries := entries[i := finished];
      reply, synced := Ok, Some(WithKeyDefaults(finished, config.clinicId));
    }

    /**
     * The socket `admin_action`: the first entry with the token becomes served when the
     * action is "serve" and skipped for any other action, at `now`; nothing happens for an
     * unknown or missing token. No estimate is recomputed.
     */
    method SocketAdminAction(action: Option<string>, token: Option<int>, now: int)
      requires Valid()
      modifies this
      ensures Valid() && lastToken == old(lastToken)
      ensures token.None? || FirstWithToken(old(entries), token.value) == -1 ==> entries == old(entries)
      ensures token.Some? && FirstWithToken(old(entries), token.value) >= 0 ==>
        var i := FirstWithToken(old(entries), token.value);
        entries == old(entries)[i := old(entries)[i].(
          status := if action == Some("serve") then Served else Skipped,
          servedAt := Some(now))]
    {
      if token.None? {
        return;
      }
      var i := FirstWithToken(entries, token.value);
      if i != -1 {
        var e := entries[i].(status := if action == Some("serve") then Served else Skipped, servedAt := Some(now));
        SameTokensSorted(entries, entries[i := e]);
        entries := entries[i := e];
      }
    }

    /**
     * The socket `update_elapsed_time`: for a present, non-zero token held by some entry, in
     * any status, that entry's waitingTime becomes max(0, floor(elapsed)); otherwise nothing
     * changes. No other entry changes.
     */
    method UpdateElapsedTime(token: Option<int>, elapsed: Numeric)
      requires Valid()
      modifies this
      ensures Valid() && lastToken == old(lastToken)
      ensures Falsy(token) || FirstWithToken(old(entries), token.value) == -1 ==> entries == old(entries)
      ensures !Falsy(token) && FirstWithToken(old(entries), token.value) >= 0 ==>
        var i := FirstWithToken(old(entries), token.value);
        && entries == old(entries)[i := old(entries)[i].(waitingTime := Some(WholeSeconds(elapsed)))]
        && entries[i].waitingTime.value >= 0
    {
      if Falsy(token) {
        return;
      }
      var i := FirstWithToken(entries, token.value);
      if i == -1 {
        return;
      }
      var e := entries[i].(waitingTime := Some(WholeSeconds(elapsed)));
      SameTokensSorted(entries, entries[i := e]);
      entries := entries[i := e];
    }

    /** `/api/reset`: the empty document. */
    method Reset()
      requires Valid()
      modifies this
      ensures Valid() && lastToken == 0 && entries == []
    {
      lastToken := 0;
      entries := [];
    }

    /**
     * `loadFromDynamo`: a failed or disabled scan leaves the document alone; a full scan
     * replaces it wholesale with the pulled state (last pull wins).
     */
    method ReconcileFromRemote(scan: Option<seq<Remote.RemoteItem>>, now: int)
      requires Valid()
      modifies this
      ensures Valid()
      ensures scan.None? ==> lastToken == old(lastToken) && entries == old(entries)
      ensures scan.Some? ==> State() == Remote.Pull(scan.value, config.clinicId, now)
    {
      if scan.Some? {
        var st := Remote.Pull(scan.value, config.clinicId, now);
        Remote.PullProperties(scan.value, config.clinicId, now);
        lastToken, entries := st.lastToken, st.entries;
      }
    }

    /**
     * The socket `kiosk_create`: refused unless the connection registered as a kiosk;
     * otherwise a token is created from the payload's profile (an empty one when absent).
     */
    method KioskCreate(fromKiosk: bool, profile: Option<Profile>, now: int) returns (reply: KioskReply)
      requires Valid()
      modifies this
      ensures Valid()
      ensures !fromKiosk ==> (&& reply == KioskFailed("not_registered")
                              && lastToken == old(lastToken) && entries == old(entries))
      ensures fromKiosk ==>
        var p := if profile.Some? then profile.value else Profile(None, None, None);
        && reply == KioskAck(old(lastToken) + 1) && lastToken == old(lastToken) + 1
        && |entries| == |old(entries)| + 1
        && entries == Recomputed(
             old(entries) + [NewEntry(lastToken, p, config.clinicId, now, WaitingCount(old(entries)) * old(Avg()), Some(0))],
             old(Avg()), Capacity(config.serviceCapacity))
        && entries[|entries| - 1]
           == NewEntry(lastToken, p, config.clinicId, now, WaitingCount(old(entries)) * old(Avg()), Some(0))
              .(estimatedWaitSeconds := Some(RoundDiv(WaitingCount(old(entries)) * old(Avg()),
                                                      Capacity(config.serviceCapacity))))
        && forall i | 0 <= i < |old(entries)| ::
             entries[i].(estimatedWaitSeconds := old(entries)[i].estimatedWaitSeconds) == old(entries)[i]
    {
      if !fromKiosk {
        return KioskFailed("not_registered");
      }
      var p := if profile.Some? then profile.value else Profile(None, None, None);
      var token, _ := CreateTokenEntry(p, now);
      reply := KioskAck(token);
    }
  }

  /**
   * Issuing n tokens on a fresh ledger yields exactly 1, 2, ..., n, with no gap and no
   * repetition, and the ledger then holds those tokens in that order.
   */
  method IssueSequence(config: Config, n: nat, now: int) returns (tokens: seq<int>, held: seq<int>)
    ensures |tokens| == n
    ensures forall k | 0 <= k < n :: tokens[k] == k + 1
    ensures held == tokens
  {
    var ledger := new QueueLedger(config);
    tokens := [];
    while |tokens| < n
      invariant ledger.Valid() && |tokens| <= n
      invariant ledger.lastToken == |tokens|
      invariant forall k | 0 <= k < |tokens| :: tokens[k] == k + 1
      invariant Tokens(ledger.entries) == tokens
    {
      var token, _ := ledger.CreateTokenEntry(Profile(None, None, None), now);
      tokens := tokens + [token];
    }
    held := Tokens(ledger.entries);
  }
}

/**
 * The queue ledger's data: one TokenEntry per queue participant and the document
 * `{ lastToken, entries }` the server keeps in its durable file.
 *
 * Instants (`timestamp`, `arrivedAt`, `servedAt`, `cancelledAt`) are whole seconds; an absent
 * optional field stands for JavaScript's `null` or `undefined`.
 */
module Queue {
  import opened Wrappers
  import opened Text
  import opened Sorting

  /**
   * An entry's status. Entries loaded from the remote store may carry any status text;
   * one that is none of the five known names is kept verbatim as Other.
   */
  datatype Status = Waiting | Arrived | Served | Skipped | Cancelled | Other(text: string)

  function StatusName(st: Status): string {
    match st
    case Waiting => "waiting"
    case Arrived => "arrived"
    case Served => "served"
    case Skipped => "skipped"
    case Cancelled => "cancelled"
    case Other(text) => text
  }

  function ParseStatus(name: string): (st: Status)
    ensures StatusName(st) == name
  {
    if name == "waiting" then Waiting
    else if name == "arrived" then Arrived
    else if name == "served" then Served
    else if name == "skipped" then Skipped
    else if name == "cancelled" then Cancelled
    else Other(name)
  }

  /** A status as the server itself writes it: Other never carries a known name. */
  predicate CanonicalStatus(st: Status) {
    st.Other? ==> st.text !in {"waiting", "arrived", "served", "skipped", "cancelled"}
  }

  /** Printing a canonical status and reading it back gives the same status. */
  lemma StatusRoundTrip(st: Status)
    requires CanonicalStatus(st)
    ensures ParseStatus(StatusName(st)) == st
  {
  }

  datatype Entry = Entry(
    token: int,
    tokenId: Option<string>,
    clinicId: Option<string>,
    clinicName: Option<string>,
    name: Option<string>,
    phoneNumber: Option<string>,
    email: Option<string>,
    timestamp: int,
    status: Status,
    arrivedAt: Option<int>,
    servedAt: Option<int>,
    cancelledAt: Option<int>,
    waitingTime: Option<int>,
    estimatedWaitSeconds: Option<int>,
    waitedSeconds: Option<int>)

  datatype QueueState = QueueState(lastToken: int, entries: seq<Entry>)

  /** The contact details a client submits when asking for a token. */
  datatype Profile = Profile(name: Option<string>, phoneNumber: Option<string>, email: Option<string>)

  /** A string field that JavaScript treats as true: present and not empty. */
  predicate Truthy(s: Option<string>) {
    s.Some? && s.value != ""
  }

  /** `a || b` on optional strings. */
  function OrElse(a: Option<string>, b: Option<string>): (r: Option<string>)
    ensures Truthy(a) ==> r == a
    ensures !Truthy(a) ==> r == b
  {
    if Truthy(a) then a else b
  }

  /** `a || null` on an optional string: an empty string becomes absent. */
  function KeepTruthy(a: Option<string>): (r: Option<string>)
    ensures Truthy(a) ==> r == a
    ensures !Truthy(a) ==> r == None
  {
    OrElse(a, None)
  }

  /** A whole-number field that JavaScript treats as false: absent or 0. */
  predicate Falsy(n: Option<int>) {
    n.None? || n.value == 0
  }

  function TokenKey(e: Entry): int {
    e.token
  }

  /** Entries in ascending token order, ties allowed. */
  predicate SortedByToken(es: seq<Entry>) {
    SortedBy(es, TokenKey)
  }

  function Tokens(es: seq<Entry>): (ts: seq<int>)
    ensures |ts| == |es| && forall i | 0 <= i < |es| :: ts[i] == es[i].token
  {
    seq(|es|, i requires 0 <= i < |es| => es[i].token)
  }

  /** Number of waiting entries whose token is strictly smaller than the given token. */
  function AheadCount(es: seq<Entry>, token: int): (n: nat)
    ensures n <= |es|
  {
    if es == [] then
      0
    else
      var last := es[|es| - 1];
      AheadCount(es[..|es| - 1], token) + (if last.status == Waiting && last.token < token then 1 else 0)
  }

  /** Number of waiting entries. */
  function WaitingCount(es: seq<Entry>): (n: nat)
    ensures n <= |es|
  {
    if es == [] then 0
    else WaitingCount(es[..|es| - 1]) + (if es[|es| - 1].status == Waiting then 1 else 0)
  }

  /** A waiting entry is ahead of the given token exactly when it is counted. */
  lemma {:induction false} AheadCountIsCount(es: seq<Entry>, token: int)
    ensures AheadCount(es, token) == |set i | 0 <= i < |es| && es[i].status == Waiting && es[i].token < token|
  {
    var S := set i | 0 <= i < |es| && es[i].status == Waiting && es[i].token < token;
    if es != [] {
      var n := |es| - 1;
      var es' := es[..n];
      var S' := set i | 0 <= i < |es'| && es'[i].status == Waiting && es'[i].token < token;
      AheadCountIsCount(es', token);
      assert forall i | 0 <= i < n :: es'[i] == es[i];
      if es[n].status == Waiting && es[n].token < token {
        assert S == S' + {n};
        assert n !in S';
      } else {
        assert S == S';
      }
    }
  }

  /** A smaller token never has more waiting entries ahead of it. */
  lemma {:induction false} AheadCountMonotone(es: seq<Entry>, t1: int, t2: int)
    requires t1 <= t2
    ensures AheadCount(es, t1) <= AheadCount(es, t2)
  {
    if es != [] {
      AheadCountMonotone(es[..|es| - 1], t1, t2);
    }
  }

  /** When every token is smaller, every waiting entry is ahead. */
  lemma {:induction false} AheadOfNewestIsWaitingCount(es: seq<Entry>, token: int)
    requires forall i | 0 <= i < |es| :: es[i].token < token
    ensures AheadCount(es, token) == WaitingCount(es)
  {
    if es != [] {
      AheadOfNewestIsWaitingCount(es[..|es| - 1], token);
    }
  }

  /** AheadCount reads only statuses and tokens. */
  lemma {:induction false} AheadCountSameQueue(a: seq<Entry>, b: seq<Entry>, token: int)
    requires |a| == |b|
    requires forall i | 0 <= i < |a| :: a[i].status == b[i].status && a[i].token == b[i].token
    ensures AheadCount(a, token) == AheadCount(b, token)
  {
    if a != [] {
      AheadCountSameQueue(a[..|a| - 1], b[..|b| - 1], token);
    }
  }

  /**
   * When a waiting entry with a smaller token leaves the waiting state, one fewer entry is
   * ahead of the given token.
   */
  lemma {:induction false} AheadCountLeave(es: seq<Entry>, i: nat, x: Entry, token: int)
    requires i < |es| && es[i].status == Waiting && es[i].token < token
    requires x.status != Waiting
    ensures AheadCount(es[i := x], token) + 1 == AheadCount(es, token)
  {
    var n := |es| - 1;
    if i == n {
      assert es[i := x][..n] == es[..n];
    } else {
      assert es[i := x][..n] == es[..n][i := x];
      AheadCountLeave(es[..n], i, x, token);
    }
  }

  /** AheadCount over a concatenation. */
  lemma {:induction false} AheadCountAppend(a: seq<Entry>, e: Entry, token: int)
    ensures AheadCount(a + [e], token)
      == AheadCount(a, token) + (if e.status == Waiting && e.token < token then 1 else 0)
  {
    assert (a + [e])[..|a|] == a;
  }

  /**
   * `findIndex`: the first index whose element satisfies p, or -1.
   */
  function FindIndex<T>(s: seq<T>, p: T -> bool): (r: int)
    ensures -1 <= r < |s|
    ensures r >= 0 ==> p(s[r]) && forall k | 0 <= k < r :: !p(s[k])
    ensures r == -1 ==> forall k | 0 <= k < |s| :: !p(s[k])
  {
    if s == [] then -1
    else if p(s[0]) then 0
    else
      var r := FindIndex(s[1..], p);
      if r == -1 then -1 else r + 1
  }
}

/**
 * The browser client's `formatDuration` (public/app.jsx): "-" for a missing value; otherwise
 * the value is coerced to a number, floored and clamped at zero before it is formatted the
 * way the server formats whole seconds.
 */
module ClientFormat {
  import opened Wrappers
  import opened Numbers
  import opened Duration

  function FormatDurationClient(sec: Option<Numeric>): (r: string)
    ensures sec.None? <==> r == "-"
    ensures r != ""
  {
    match sec
    case None => "-"
    case Some(n) => FormatSeconds(WholeSeconds(n))
  }

  /** NaN, negative values and fractions below one all show as "<1s". */
  lemma ClientBelowOneSecond(n: Numeric)
    requires n.NaN? || n.value < 1.0
    ensures FormatDurationClient(Some(n)) == "<1s"
  {
  }

  /** A value of at least one second reads back as its whole seconds. */
  lemma ClientReadsBackFloor(v: real)
    requires v >= 1.0
    ensures ParseDuration(FormatDurationClient(Some(Finite(v)))) == Some(v.Floor)
  {
    FormatParseRoundTrip(v.Floor);
  }

  /** On whole numbers of seconds the client and the server produce the same text. */
  lemma ClientAgreesWithServer(s: int)
    ensures FormatDuration(Some(s)) == Some(FormatDurationClient(Some(Finite(s as real))))
  {
    assert (s as real).Floor == s;
  }
}

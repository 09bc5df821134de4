/**
 * The server's `formatDuration`: whole seconds as "Nh Nm Ns", largest unit first, zero
 * components left out, "<1s" below one second and null for a missing value. ParseDuration
 * reads such a text back, so that the two form a round trip.
 */
module Duration {
  import opened Wrappers
  import opened Text
  import Numbers

  datatype Unit = Hours | Minutes | Seconds

  function UnitSeconds(u: Unit): nat {
    match u
    case Hours => 3600
    case Minutes => 60
    case Seconds => 1
  }

  function UnitChar(u: Unit): char {
    match u
    case Hours => 'h'
    case Minutes => 'm'
    case Seconds => 's'
  }

  function UnitRank(u: Unit): nat {
    match u
    case Hours => 0
    case Minutes => 1
    case Seconds => 2
  }

  datatype Part = Part(amount: nat, unit: Unit)

  /** The number of seconds a list of components stands for. */
  function Total(ps: seq<Part>): nat {
    if ps == [] then 0 else ps[0].amount * UnitSeconds(ps[0].unit) + Total(ps[1..])
  }

  /** Units appear largest first, each at most once. */
  predicate LargestFirst(ps: seq<Part>) {
    forall i, j | 0 <= i < j < |ps| :: UnitRank(ps[i].unit) < UnitRank(ps[j].unit)
  }

  lemma HmsSplit(s: nat)
    ensures s == (s / 3600) * 3600 + ((s % 3600) / 60) * 60 + s % 60
  {
    var q, r := s / 3600, s % 3600;
    assert s == q * 3600 + r;
    assert r == (r / 60) * 60 + r % 60;
    assert s == (q * 60 + r / 60) * 60 + r % 60;
    Numbers.DivUnique(s, 60, q * 60 + r / 60, r % 60);
    assert s % 60 == r % 60;
  }

  lemma TotalAppend(a: seq<Part>, b: seq<Part>)
    ensures Total(a + b) == Total(a) + Total(b)
  {
    if a == [] {
      assert a + b == b;
    } else {
      assert (a + b)[1..] == a[1..] + b;
      TotalAppend(a[1..], b);
    }
  }

  /**
   * The components of a split duration: hours and minutes only when non-zero; seconds when
   * non-zero or when no other component was produced.
   */
  function Assemble(hours: nat, mins: nat, secs: nat): seq<Part> {
    var h := if hours > 0 then [Part(hours, Hours)] else [];
    var m := if mins > 0 then [Part(mins, Minutes)] else [];
    var sc := if secs > 0 || |h + m| == 0 then [Part(secs, Seconds)] else [];
    h + m + sc
  }

  lemma AssembleTotal(hours: nat, mins: nat, secs: nat)
    ensures Total(Assemble(hours, mins, secs)) == hours * 3600 + mins * 60 + secs
  {
    var h := if hours > 0 then [Part(hours, Hours)] else [];
    var m := if mins > 0 then [Part(mins, Minutes)] else [];
    var sc := if secs > 0 || |h + m| == 0 then [Part(secs, Seconds)] else [];
    TotalAppend(h, m);
    TotalAppend(h + m, sc);
  }

  lemma AssembleShape(hours: nat, mins: nat, secs: nat)
    requires mins < 60 && secs < 60 && hours * 3600 + mins * 60 + secs >= 1
    ensures var ps := Assemble(hours, mins, secs);
      && 1 <= |ps| <= 3
      && LargestFirst(ps)
      && (forall i | 0 <= i < |ps| :: ps[i].amount > 0)
      && (forall i | 0 <= i < |ps| :: ps[i].unit != Hours ==> ps[i].amount < 60)
  {
  }

  /**
   * The components of s seconds (s >= 1): hours, minutes and seconds, each only when
   * non-zero; seconds also when no other component was produced.
   */
  function Parts(s: nat): (ps: seq<Part>)
    requires s >= 1
    ensures 1 <= |ps| <= 3
    ensures Total(ps) == s
    ensures LargestFirst(ps)
    ensures forall i | 0 <= i < |ps| :: ps[i].amount > 0
    ensures forall i | 0 <= i < |ps| :: ps[i].unit != Hours ==> ps[i].amount < 60
  {
    var hours := s / 3600;
    var mins := (s % 3600) / 60;
    var secs := s % 60;
    HmsSplit(s);
    AssembleTotal(hours, mins, secs);
    AssembleShape(hours, mins, secs);
    Assemble(hours, mins, secs)
  }

  function PartText(p: Part): string {
    NatToString(p.amount) + [UnitChar(p.unit)]
  }

  /** `parts.join(" ")`. */
  function Render(ps: seq<Part>): string {
    if ps == [] then ""
    else if |ps| == 1 then PartText(ps[0])
    else PartText(ps[0]) + " " + Render(ps[1..])
  }

  /** The text for a number of seconds; never empty. */
  function FormatSeconds(s: int): string {
    if s < 1 then "<1s" else Render(Parts(s))
  }

  /** `formatDuration(sec)`: null for a missing value, otherwise the text of the seconds. */
  function FormatDuration(sec: Option<int>): (r: Option<string>)
    ensures r.None? <==> sec.None?
    ensures sec.Some? && sec.value < 1 ==> r == Some("<1s")
  {
    match sec
    case None => None
    case Some(s) => Some(FormatSeconds(s))
  }

  // ---- Reading a duration text back ----

  function UnitOf(c: char): Option<Unit> {
    if c == 'h' then Some(Hours)
    else if c == 'm' then Some(Minutes)
    else if c == 's' then Some(Seconds)
    else None
  }

  /** One component: decimal digits followed by a unit letter. */
  function ParsePart(t: string): Option<Part> {
    if |t| >= 2 && AllDigits(t[..|t| - 1]) && UnitOf(t[|t| - 1]).Some? then
      Some(Part(DigitsValue(t[..|t| - 1]), UnitOf(t[|t| - 1]).value))
    else
      None
  }

  /** Index of the first space in s, or |s| when there is none. */
  function SpaceIndex(s: string): (k: nat)
    ensures k <= |s|
  {
    if s == [] then 0 else if s[0] == ' ' then 0 else 1 + SpaceIndex(s[1..])
  }

  /** Components separated by single spaces. */
  function ParseParts(s: string): Option<seq<Part>>
    decreases |s|
  {
    var k := SpaceIndex(s);
    match ParsePart(s[..k])
    case None => None
    case Some(p) =>
      if k == |s| then Some([p])
      else
        match ParseParts(s[k + 1..])
        case None => None
        case Some(rest) => Some([p] + rest)
  }

  /** The number of seconds a duration text stands for, if it is well formed. */
  function ParseDuration(text: string): Option<nat> {
    match ParseParts(text)
    case None => None
    case Some(ps) => Some(Total(ps))
  }

  lemma PartTextRoundTrip(p: Part, rest: string)
    requires rest == [] || rest[0] == ' '
    ensures SpaceIndex(PartText(p) + rest) == |PartText(p)|
    ensures ParsePart(PartText(p)) == Some(p)
  {
    var t := PartText(p);
    assert forall i | 0 <= i < |t| :: t[i] != ' ' by {
      assert forall i | 0 <= i < |t| - 1 :: t[i] == NatToString(p.amount)[i];
    }
    SpaceIndexPrefix(t, rest);
    assert t[..|t| - 1] == NatToString(p.amount);
    DigitsValueOfNatToString(p.amount);
  }

  lemma {:induction false} SpaceIndexPrefix(t: string, rest: string)
    requires forall i | 0 <= i < |t| :: t[i] != ' '
    requires rest == [] || rest[0] == ' '
    ensures SpaceIndex(t + rest) == |t|
  {
    if t != [] {
      assert (t + rest)[1..] == t[1..] + rest;
      SpaceIndexPrefix(t[1..], rest);
    }
  }

  /** A single component with no space after it reads back as itself. */
  lemma ParseSingle(t: string, p: Part)
    requires SpaceIndex(t) == |t| && ParsePart(t) == Some(p)
    ensures ParseParts(t) == Some([p])
  {
    assert t[..|t|] == t;
  }

  /** A component, one space and a readable remainder read back as the component followed by the remainder. */
  lemma ParseCons(t: string, tail: string, p: Part, rest: seq<Part>)
    requires SpaceIndex(t + (" " + tail)) == |t| && ParsePart(t) == Some(p)
    requires ParseParts(tail) == Some(rest)
    ensures ParseParts(t + (" " + tail)) == Some([p] + rest)
  {
    var s := t + (" " + tail);
    assert s[..|t|] == t;
    assert s[|t| + 1..] == tail;
  }

  lemma RenderCons(ps: seq<Part>)
    requires |ps| >= 2
    ensures Render(ps) == PartText(ps[0]) + (" " + Render(ps[1..]))
  {
  }

  lemma ParseRenderSingle(p: Part)
    ensures ParseParts(Render([p])) == Some([p])
  {
    var t := PartText(p);
    PartTextRoundTrip(p, []);
    assert t + [] == t;
    ParseSingle(t, p);
  }

  /** If the text after the first component reads back, so does the whole text. */
  lemma ParseRenderCons(ps: seq<Part>)
    requires |ps| >= 2 && ParseParts(Render(ps[1..])) == Some(ps[1..])
    ensures ParseParts(Render(ps)) == Some([ps[0]] + ps[1..])
  {
    var t, tail := PartText(ps[0]), Render(ps[1..]);
    RenderCons(ps);
    PartTextRoundTrip(ps[0], " " + tail);
    ParseCons(t, tail, ps[0], ps[1..]);
  }

  lemma {:induction false} ParseRender(ps: seq<Part>)
    requires |ps| >= 1
    ensures ParseParts(Render(ps)) == Some(ps)
  {
    if |ps| == 1 {
      ParseRenderSingle(ps[0]);
      assert ps == [ps[0]];
    } else {
      ParseRender(ps[1..]);
      ParseRenderCons(ps);
      assert [ps[0]] + ps[1..] == ps;
    }
  }

  /** Every text the formatter produces for at least one second reads back as that many seconds. */
  lemma FormatParseRoundTrip(s: int)
    requires s >= 1
    ensures ParseDuration(FormatSeconds(s)) == Some(s)
  {
    ParseRender(Parts(s));
  }

  /** The text for less than one second is not a duration text: it cannot be confused with one. */
  lemma BelowOneSecondIsDistinct(s: int)
    requires s < 1
    ensures ParseDuration(FormatSeconds(s)) == None
  {
    assert SpaceIndex("<1s") == 3;
    assert "<1s"[..3] == "<1s";
    assert !IsDigit('<');
  }

  /** Worked examples: a whole hour shows hours only; a minute and a second show both. */
  lemma FormatHourExample()
    ensures FormatSeconds(3600) == "1h"
  {
    assert Parts(3600) == [Part(1, Hours)];
  }

  lemma FormatMinuteSecondExample()
    ensures FormatSeconds(61) == "1m 1s"
  {
    assert 61 / 3600 == 0 && (61 % 3600) / 60 == 1 && 61 % 60 == 1;
    assert Parts(61) == [Part(1, Minutes), Part(1, Seconds)];
  }

  lemma FormatMixedExample()
    ensures FormatSeconds(3725) == "1h 2m 5s"
  {
    assert 3725 / 3600 == 1 && (3725 % 3600) / 60 == 2 && 3725 % 60 == 5;
    assert Parts(3725) == Assemble(1, 2, 5);
    var ps := [Part(1, Hours), Part(2, Minutes), Part(5, Seconds)];
    assert Assemble(1, 2, 5) == ps;
    assert Render(ps[2..]) == "5s";
    assert Render(ps[1..]) == "2m 5s";
  }
}

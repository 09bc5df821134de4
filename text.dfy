/**
 * The string operations the server relies on: printing integers in decimal
 * (`n.toString()`), reading them back (`parseInt`), keeping only the digits of a string
 * (`s.replace(/[^0-9]/g, "")`) and `String.prototype.trim`.
 */
module Text {

  predicate IsDigit(c: char) {
    '0' <= c <= '9'
  }

  predicate AllDigits(s: string) {
    forall i | 0 <= i < |s| :: IsDigit(s[i])
  }

  function DigitValue(c: char): (d: nat)
    requires IsDigit(c)
    ensures d < 10
  {
    c as int - '0' as int
  }

  function DigitChar(d: nat): (c: char)
    requires d < 10
    ensures IsDigit(c) && DigitValue(c) == d
  {
    (d + '0' as int) as char
  }

  /** Decimal representation of a natural number, without leading zeros. */
  function NatToString(n: nat): (s: string)
    ensures |s| >= 1 && AllDigits(s)
    decreases n
  {
    if n < 10 then [DigitChar(n)] else NatToString(n / 10) + [DigitChar(n % 10)]
  }

  /** `String(i)` for an integer. */
  function IntToString(i: int): (s: string)
    ensures |s| >= 1
    ensures i >= 0 ==> AllDigits(s)
    ensures i < 0 ==> s[0] == '-' && AllDigits(s[1..])
  {
    if i < 0 then "-" + NatToString(-i) else NatToString(i)
  }

  /** `parseInt(s, 10)` for a non-empty string made of decimal digits only. */
  function DigitsValue(s: string): nat
    requires AllDigits(s)
  {
    if s == [] then 0 else DigitsValue(s[..|s| - 1]) * 10 + DigitValue(s[|s| - 1])
  }

  lemma {:induction false} DigitsValueOfNatToString(n: nat)
    ensures DigitsValue(NatToString(n)) == n
  {
    if n >= 10 {
      var s := NatToString(n);
      assert s[..|s| - 1] == NatToString(n / 10);
      DigitsValueOfNatToString(n / 10);
    }
  }

  /** `s.replace(/[^0-9]/g, "")`: the decimal digits of s, in order. */
  function KeepDigits(s: string): (r: string)
    ensures AllDigits(r) && |r| <= |s|
  {
    if s == [] then [] else (if IsDigit(s[0]) then [s[0]] else []) + KeepDigits(s[1..])
  }

  /** Every digit of s is kept, as often as it occurs. */
  lemma {:induction false} KeepDigitsCount(s: string)
    ensures forall c | IsDigit(c) :: multiset(KeepDigits(s))[c] == multiset(s)[c]
  {
    if s != [] {
      assert s == [s[0]] + s[1..];
      KeepDigitsCount(s[1..]);
    }
  }

  /** Keeping the digits of a concatenation keeps those of each part, in order. */
  lemma {:induction false} KeepDigitsConcat(a: string, b: string)
    ensures KeepDigits(a + b) == KeepDigits(a) + KeepDigits(b)
  {
    if a == [] {
      assert a + b == b;
    } else {
      assert (a + b)[1..] == a[1..] + b;
      KeepDigitsConcat(a[1..], b);
    }
  }

  /** One more character adds itself exactly when it is a digit. */
  lemma KeepDigitsAppend(a: string, c: char)
    ensures KeepDigits(a + [c]) == KeepDigits(a) + (if IsDigit(c) then [c] else [])
  {
    KeepDigitsConcat(a, [c]);
    assert KeepDigits([c]) == (if IsDigit(c) then [c] else []) + KeepDigits([]);
  }

  lemma {:induction false} KeepDigitsOfDigits(s: string)
    requires AllDigits(s)
    ensures KeepDigits(s) == s
  {
    if s != [] {
      KeepDigitsOfDigits(s[1..]);
    }
  }

  /**
   * The digits kept from `String(n)` read back as |n|: the sign of a negative number is lost.
   */
  lemma TokenDigitsRoundTrip(n: int)
    requires n != 0
    ensures KeepDigits(IntToString(n)) == NatToString(if n < 0 then -n else n)
    ensures DigitsValue(KeepDigits(IntToString(n))) == (if n < 0 then -n else n)
  {
    var m := if n < 0 then -n else n;
    KeepDigitsOfDigits(NatToString(m));
    if n < 0 {
      assert IntToString(n) == ['-'] + NatToString(m);
      assert KeepDigits(IntToString(n)) == KeepDigits(NatToString(m)) by {
        assert IntToString(n)[1..] == NatToString(m);
      }
    }
    DigitsValueOfNatToString(m);
  }

  /** The characters `String.prototype.trim` removes (white space and line terminators). */
  predicate IsJsSpace(c: char) {
    var k := c as int;
    k == 0x09 || k == 0x0A || k == 0x0B || k == 0x0C || k == 0x0D || k == 0x20
    || k == 0xA0 || k == 0x1680 || (0x2000 <= k <= 0x200A) || k == 0x2028 || k == 0x2029
    || k == 0x202F || k == 0x205F || k == 0x3000 || k == 0xFEFF
  }

  /** Number of white-space characters at the start of s. */
  function LeadingSpaces(s: string): (k: nat)
    ensures k <= |s|
    ensures forall i | 0 <= i < k :: IsJsSpace(s[i])
    ensures k < |s| ==> !IsJsSpace(s[k])
  {
    if s != [] && IsJsSpace(s[0]) then 1 + LeadingSpaces(s[1..]) else 0
  }

  /** Number of white-space characters at the end of s. */
  function TrailingSpaces(s: string): (k: nat)
    ensures k <= |s|
    ensures forall i | |s| - k <= i < |s| :: IsJsSpace(s[i])
    ensures k < |s| ==> !IsJsSpace(s[|s| - k - 1])
  {
    if s != [] && IsJsSpace(s[|s| - 1]) then 1 + TrailingSpaces(s[..|s| - 1]) else 0
  }

  /** `s.trim()`: s without its leading and trailing white space. */
  function Trim(s: string): (r: string)
    ensures r == [] || (!IsJsSpace(r[0]) && !IsJsSpace(r[|r| - 1]))
    ensures exists a, b | 0 <= a <= b <= |s| ::
      (r == s[a..b]
       && (forall i | 0 <= i < a :: IsJsSpace(s[i]))
       && (forall i | b <= i < |s| :: IsJsSpace(s[i])))
  {
    var a := LeadingSpaces(s);
    var rest := s[a..];
    var b := |s| - TrailingSpaces(rest);
    assert s[a..b] == rest[..|rest| - TrailingSpaces(rest)];
    s[a..b]
  }

  /** Trimming twice is trimming once. */
  lemma TrimIdempotent(s: string)
    ensures Trim(Trim(s)) == Trim(s)
  {
    var t := Trim(s);
    assert LeadingSpaces(t) == 0;
    assert TrailingSpaces(t[0..]) == 0 by { assert t[0..] == t; }
    assert t[0..|t|] == t;
  }
}

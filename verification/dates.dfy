/** Calendar-day strings (YYYY-MM-DD, lib/types.ts) and why comparing them
    character by character, as this model does in place of parsing them into
    dates, orders them by date. */
module Dates {
  import opened Types
  import opened Seqs

  function Pow10(n: nat): (r: nat)
    ensures r >= 1
  {
    if n == 0 then 1 else 10 * Pow10(n - 1)
  }

  /** The code of a character '0'..'9'. */
  predicate IsDigitCode(c: int)
  {
    48 <= c <= 57
  }

  function DigitCount(s: seq<int>): nat
  {
    if s == [] then 0 else (if IsDigitCode(s[0]) then 1 else 0) + DigitCount(s[1..])
  }

  /** The digits of `s` read as one decimal number, other characters skipped:
      20240315 for "2024-03-15". */
  function Num(s: seq<int>): (r: nat)
    ensures r < Pow10(DigitCount(s))
  {
    if s == [] then 0
    else if IsDigitCode(s[0]) then
      var p := Pow10(DigitCount(s[1..]));
      var rest := Num(s[1..]);
      LeadingDigit(s[0] - 48, p, rest);
      (s[0] - 48) * p + rest
    else Num(s[1..])
  }

  /** A leading digit outweighs everything after it. */
  lemma LeadingDigit(d: int, p: nat, rest: nat)
    requires 0 <= d <= 9 && rest < p
    ensures 0 <= d * p + rest < 10 * p
    ensures forall e :: d < e <= 9 ==> d * p + rest < e * p
  {
    assert d * p + rest < (d + 1) * p;
    forall e | d < e <= 9
      ensures d * p + rest < e * p
    {
      assert (d + 1) * p <= e * p;
    }
  }

  /** Two code sequences with digits at the same places and equal characters elsewhere. */
  predicate SameShape(a: seq<int>, b: seq<int>)
  {
    && |a| == |b|
    && forall i :: 0 <= i < |a| ==> (IsDigitCode(a[i]) && IsDigitCode(b[i])) || a[i] == b[i]
  }

  lemma {:induction false} SameShapeCount(a: seq<int>, b: seq<int>)
    requires SameShape(a, b)
    ensures DigitCount(a) == DigitCount(b)
  {
    if a != [] {
      assert SameShape(a[1..], b[1..]) by {
        assert forall i :: 0 <= i < |a| - 1 ==> a[1..][i] == a[i + 1] && b[1..][i] == b[i + 1];
      }
      SameShapeCount(a[1..], b[1..]);
    }
  }

  /** On sequences of the same shape, the lexicographic order is the numeric order of their digits. */
  lemma {:induction false} LexIsNumeric(a: seq<int>, b: seq<int>)
    requires SameShape(a, b)
    ensures LexLe(a, b) <==> Num(a) <= Num(b)
  {
    if a != [] {
      assert SameShape(a[1..], b[1..]) by {
        assert forall i :: 0 <= i < |a| - 1 ==> a[1..][i] == a[i + 1] && b[1..][i] == b[i + 1];
      }
      LexIsNumeric(a[1..], b[1..]);
      SameShapeCount(a[1..], b[1..]);
      var p := Pow10(DigitCount(a[1..]));
      if a[0] != b[0] {
        assert IsDigitCode(a[0]) && IsDigitCode(b[0]);
        LeadingDigit(a[0] - 48, p, Num(a[1..]));
        LeadingDigit(b[0] - 48, p, Num(b[1..]));
      }
    }
  }

  /** Two calendar days have the same shape. */
  lemma CalendarDaysSameShape(a: string, b: string)
    requires IsCalendarDay(a) && IsCalendarDay(b)
    ensures SameShape(Codes(a), Codes(b))
  {
    forall i | 0 <= i < 10
      ensures (IsDigitCode(Codes(a)[i]) && IsDigitCode(Codes(b)[i])) || Codes(a)[i] == Codes(b)[i]
    {
      if i != 4 && i != 7 {
        assert IsDigit(a[i]) && IsDigit(b[i]);
      }
    }
  }

  /** For YYYY-MM-DD strings, the character order is the date order. */
  lemma DayOrder(a: string, b: string)
    requires IsCalendarDay(a) && IsCalendarDay(b)
    ensures LexLe(Codes(a), Codes(b)) <==> Num(Codes(a)) <= Num(Codes(b))
  {
    CalendarDaysSameShape(a, b);
    LexIsNumeric(Codes(a), Codes(b));
  }
}

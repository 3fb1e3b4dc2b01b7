/** Decimal text of natural numbers, as `std::to_string` prints it and `std::from_chars` reads it. */
module Decimal {
  import opened Wrappers

  const LONG_MAX: int := 0x7FFF_FFFF_FFFF_FFFF

  predicate IsDigit(c: char) { '0' <= c <= '9' }

  predicate AllDigits(s: string) { forall i | 0 <= i < |s| :: IsDigit(s[i]) }

  function Digit(d: nat): (c: char)
    requires d < 10
    ensures IsDigit(c)
  {
    ('0' as int + d) as char
  }

  function Print(n: nat): (s: string)
    ensures s != [] && AllDigits(s)
  {
    if n < 10 then [Digit(n)] else Print(n / 10) + [Digit(n % 10)]
  }

  function Value(s: string): nat
    requires AllDigits(s)
  {
    if s == [] then 0 else 10 * Value(s[..|s| - 1]) + (s[|s| - 1] as int - '0' as int)
  }

  lemma {:induction false} ValueOfPrint(n: nat)
    ensures Value(Print(n)) == n
  {
    if n >= 10 {
      ValueOfPrint(n / 10);
      assert Print(n)[..|Print(n)| - 1] == Print(n / 10);
    }
  }

  /** The end of the run of digits that starts at `i`. */
  function RunEnd(s: string, i: nat): (end: nat)
    requires i <= |s|
    ensures i <= end <= |s|
    ensures AllDigits(s[i..end]) && (end < |s| ==> !IsDigit(s[end]))
    decreases |s| - i
  {
    if i == |s| || !IsDigit(s[i]) then i else
      var end := RunEnd(s, i + 1);
      assert s[i..end] == [s[i]] + s[i + 1..end];
      end
  }

  lemma {:induction false} RunEndIs(s: string, i: nat, end: nat)
    requires i <= end <= |s| && AllDigits(s[i..end]) && (end < |s| ==> !IsDigit(s[end]))
    ensures RunEnd(s, i) == end
    decreases end - i
  {
    if i < end {
      assert IsDigit(s[i..end][0]);
      assert s[i + 1..end] == s[i..end][1..];
      RunEndIs(s, i + 1, end);
    }
  }

  /** `std::from_chars` for a `long` in base ten: an optional minus sign, then digits. `None` is its
      error; otherwise the value and where reading stopped. */
  function FromChars(s: string, i: nat): (r: Option<(int, nat)>)
    requires i <= |s|
    ensures r.Some? ==> i < r.value.1 <= |s|
  {
    var negative := i < |s| && s[i] == '-';
    var start := if negative then i + 1 else i;
    var end := RunEnd(s, start);
    if end == start then None else
      var magnitude: int := Value(s[start..end]);
      if magnitude > LONG_MAX + (if negative then 1 else 0) then None
      else Some((if negative then -magnitude else magnitude, end))
  }

  /** Two numbers printed at the same place, each followed by a non-digit or nothing, are the same. */
  lemma PrintIsDelimited(n: nat, afterN: string, m: nat, afterM: string)
    requires Print(n) + afterN == Print(m) + afterM
    requires (afterN != [] ==> !IsDigit(afterN[0])) && (afterM != [] ==> !IsDigit(afterM[0]))
    ensures n == m && afterN == afterM
  {
    var s := Print(n) + afterN;
    assert s[0..|Print(n)|] == Print(n) && s[0..|Print(m)|] == Print(m);
    RunEndIs(s, 0, |Print(n)|);
    assert |Print(m)| < |s| ==> s[|Print(m)|] == afterM[0];
    RunEndIs(s, 0, |Print(m)|);
    ValueOfPrint(n);
    ValueOfPrint(m);
    assert afterN == s[|Print(n)|..] && afterM == s[|Print(m)|..];
  }
}

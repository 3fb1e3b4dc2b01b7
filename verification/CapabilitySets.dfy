/** The capability bounding set on its way to a child process: `bounding_fingerprint`,
    `encode_bounding_argument`, `parse_unsigned` and the subset test of `observe_capability_state` in
    `evaluation/process_isolation/low_capability_v3.cpp`.

    The set is read bit by bit into a 64-bit word, written in hexadecimal as a program argument,
    parsed there, and compared bit by bit with the set the child then reads. */
module CapabilitySets {
  import opened Wrappers
  import opened Bits

  const MAXIMUM_CAPABILITY: nat := 63
  const ARGUMENT_ROOM: nat := 17

  // ---------------------------------------------------------------------------------------------
  // The word
  // ---------------------------------------------------------------------------------------------

  /** What `prctl` says of one capability. */
  datatype Presence = Absent | Present | Unreadable

  /** The capabilities up to `last` that are present. */
  ghost predicate InSet(reading: seq<Presence>, last: nat, capability: nat) {
    capability <= last && capability < |reading| && reading[capability] == Present
  }

  /** The loop over all capabilities. */
  method BoundingFingerprint(reading: seq<Presence>, last: nat) returns (r: Option<nat>)
    requires last <= MAXIMUM_CAPABILITY && |reading| == MAXIMUM_CAPABILITY + 1
    ensures r.None? <==> exists c | 0 <= c <= last :: reading[c] == Unreadable
    ensures r.Some? ==> r.value < Power(64) && forall c: nat :: Has(r.value, c) <==> InSet(reading, last, c)
  {
    var result: nat := 0;
    forall c: nat ensures !Has(result, c) { HasZero(c); }
    for capability := 0 to last + 1
      invariant result < Power(capability)
      invariant forall c | 0 <= c < capability :: reading[c] != Unreadable
      invariant forall c: nat :: Has(result, c) <==> c < capability && reading[c] == Present
    {
      if reading[capability] == Unreadable {
        return None;
      }
      if reading[capability] == Present {
        ghost var before := result;
        OrBelow(before, Power(capability), capability + 1);
        result := Or(result, Power(capability));
        forall c: nat ensures Has(result, c) <==> Has(before, c) || c == capability {
          HasOr(before, Power(capability), c);
          HasPower(capability, c);
        }
      }
    }
    PowerGrows(last + 1, 64);
    return Some(result);
  }

  // ---------------------------------------------------------------------------------------------
  // The argument
  // ---------------------------------------------------------------------------------------------

  function Digit(value: nat): char
    requires value < 16
  {
    "0123456789abcdef"[value]
  }

  /** `std::from_chars` takes digits of either case. */
  function DigitValue(c: char): Option<nat> {
    if '0' <= c <= '9' then Some((c - '0') as nat)
    else if 'a' <= c <= 'f' then Some((c - 'a') as nat + 10)
    else if 'A' <= c <= 'F' then Some((c - 'A') as nat + 10)
    else None
  }

  /** `std::to_chars` in base sixteen. */
  function Print(n: nat): string {
    if n < 16 then [Digit(n)] else Print(n / 16) + [Digit(n % 16)]
  }

  /** The value of a document that is all digits. */
  function Value(document: string): Option<nat> {
    if document == "" then Some(0) else
      var last := |document| - 1;
      match (Value(document[..last]), DigitValue(document[last]))
      case (Some(high), Some(low)) => Some(high * 16 + low)
      case _ => None
  }

  /** `parse_unsigned` for a 64-bit word in base sixteen: all of the document, and no more than fits. */
  function Parse(document: string): Option<nat> {
    if document == "" then None else
      match Value(document)
      case None => None
      case Some(n) => if n < Power(64) then Some(n) else None
  }

  lemma DigitRoundTrip(value: nat)
    requires value < 16
    ensures DigitValue(Digit(value)) == Some(value)
  {
  }

  lemma {:induction false} ValueOfPrint(n: nat)
    ensures Value(Print(n)) == Some(n) && Print(n) != ""
  {
    if n < 16 {
      DigitRoundTrip(n);
      assert Print(n)[..0] == "";
    } else {
      ValueOfPrint(n / 16);
      DigitRoundTrip(n % 16);
      assert Print(n)[..|Print(n)| - 1] == Print(n / 16);
    }
  }

  lemma {:induction false} PrintIsShort(n: nat, digits: nat)
    requires 0 < digits && n < Power(4 * digits)
    ensures |Print(n)| <= digits
  {
    if n >= 16 {
      PowerOfSixteen(4 * (digits - 1));
      assert 4 * digits == 4 * (digits - 1) + 4;
      PrintIsShort(n / 16, digits - 1);
    }
  }

  /** The character is this digit, in either case. */
  predicate Shows(c: char, v: nat) { v < 16 && (c == "0123456789abcdef"[v] || c == "0123456789ABCDEF"[v]) }

  lemma DigitExactly(c: char, v: nat)
    ensures DigitValue(c) == Some(v) <==> Shows(c, v)
  {
  }

  function Number(digits: seq<nat>): nat {
    if digits == [] then 0 else Number(digits[..|digits| - 1]) * 16 + digits[|digits| - 1]
  }

  /** The document shows these digits. */
  predicate Spells(document: string, digits: seq<nat>) {
    |digits| == |document| && forall i | 0 <= i < |document| :: Shows(document[i], digits[i])
  }

  lemma {:induction false} ValueSpells(document: string, digits: seq<nat>)
    requires Spells(document, digits)
    ensures Value(document) == Some(Number(digits))
    decreases |document|
  {
    if document != "" {
      var last := |document| - 1;
      ValueSpells(document[..last], digits[..last]);
      DigitExactly(document[last], digits[last]);
    }
  }

  lemma {:induction false} SpellsValue(document: string)
    ensures Value(document).Some? ==> exists digits :: Spells(document, digits)
    decreases |document|
  {
    if document == "" {
      assert Spells(document, []);
    } else if Value(document).Some? {
      var last := |document| - 1;
      SpellsValue(document[..last]);
      var digits :| Spells(document[..last], digits);
      DigitExactly(document[last], DigitValue(document[last]).value);
      assert Spells(document, digits + [DigitValue(document[last]).value]);
    }
  }

  /** What is parsed: one digit or more, of either case and nothing else, for a number that fits 64 bits. */
  lemma ParsedExactly(document: string, n: nat)
    ensures Parse(document) == Some(n) <==>
              document != "" && n < Power(64) && exists digits :: Spells(document, digits) && n == Number(digits)
  {
    SpellsValue(document);
    if Value(document).Some? {
      var digits :| Spells(document, digits);
      ValueSpells(document, digits);
    }
    forall digits | Spells(document, digits) ensures Value(document) == Some(Number(digits)) { ValueSpells(document, digits); }
  }

  /** Every 64-bit word fits the argument and is parsed back. */
  lemma ArgumentRoundTrip(fingerprint: nat)
    requires fingerprint < Power(64)
    ensures |Print(fingerprint)| < ARGUMENT_ROOM && Parse(Print(fingerprint)) == Some(fingerprint)
  {
    PrintIsShort(fingerprint, 16);
    ValueOfPrint(fingerprint);
  }

  // ---------------------------------------------------------------------------------------------
  // The comparison
  // ---------------------------------------------------------------------------------------------

  ghost predicate Included(current: nat, launch: nat) { forall c: nat | Has(current, c) :: Has(launch, c) }

  /** The bit test is set inclusion. */
  lemma SubsetTest(current: nat, launch: nat)
    ensures AndNot(current, launch) == 0 <==> Included(current, launch)
  {
    var extra := AndNot(current, launch);
    if extra == 0 {
      forall c: nat | Has(current, c) ensures Has(launch, c) {
        HasAndNot(current, launch, c);
        HasZero(c);
      }
    } else {
      HasLowest(extra);
      HasAndNot(current, launch, Lowest(extra));
      assert Has(current, Lowest(extra)) && !Has(launch, Lowest(extra));
    }
  }

  /** From one process's reading to the other's verdict: the set is read, encoded, passed and parsed,
      and the child finds its own set included exactly when it is. */
  method BoundingSubset(launch: seq<Presence>, current: seq<Presence>, last: nat) returns (subset: Option<bool>)
    requires last <= MAXIMUM_CAPABILITY && |launch| == |current| == MAXIMUM_CAPABILITY + 1
    ensures subset.None? <==> exists c | 0 <= c <= last :: launch[c] == Unreadable || current[c] == Unreadable
    ensures subset.Some? ==>
              (subset.value <==> forall c: nat | InSet(current, last, c) :: InSet(launch, last, c))
  {
    var before := BoundingFingerprint(launch, last);
    var now := BoundingFingerprint(current, last);
    if before.None? || now.None? {
      return None;
    }
    var argument := Print(before.value);
    ArgumentRoundTrip(before.value);
    var parsed := Parse(argument);
    SubsetTest(now.value, parsed.value);
    assert Included(now.value, parsed.value) <==> forall c: nat | InSet(current, last, c) :: InSet(launch, last, c);
    return Some(AndNot(now.value, parsed.value) == 0);
  }
}

/** ISBN-10 and ISBN-13 (ISO 2108 check digits): validation, conversion and the OPF choice. */
module Isbn {
  import opened Decimal
  import opened Options

  // ----- validation (`media/book.rs`) -----

  // Drops hyphens and blanks and upper-cases ASCII letters.
  function Compact(value: string): string {
    if value == "" then ""
    else
      var c := value[0];
      var rest := Compact(value[1..]);
      if c == '-' || c == ' ' then rest
      else [if 'a' <= c <= 'z' then (c as int - 32) as char else c] + rest
  }

  // `to_digit(10).unwrap_or(10)`
  function ValueAt(c: char): int {
    if IsDigit(c) then c as int - '0' as int else 10
  }

  // The sum of the characters from position i on, each times its weight.
  function WeightedSum(s: string, weight: nat -> int, i: nat): int
    requires i <= |s|
    decreases |s| - i
  {
    if i == |s| then 0 else ValueAt(s[i]) * weight(i) + WeightedSum(s, weight, i + 1)
  }

  // Weights 10 down to 1.
  function Weight10(): nat -> int { (i: nat) => 10 - i }

  // Weights 1 and 3 in turn.
  function Weight13(): nat -> int { (i: nat) => if i % 2 == 0 then 1 else 3 }

  predicate Shape10(s: string) {
    |s| == 10 && forall i :: 0 <= i < 10 ==> IsDigit(s[i]) || (i == 9 && s[i] == 'X')
  }

  predicate Shape13(s: string) {
    |s| == 13 && forall i :: 0 <= i < 13 ==> IsDigit(s[i])
  }

  predicate Valid10(s: string) {
    Shape10(s) && WeightedSum(s, Weight10(), 0) % 11 == 0
  }

  predicate Valid13(s: string) {
    Shape13(s) && WeightedSum(s, Weight13(), 0) % 10 == 0
  }

  function New10(value: string): Option<string> {
    if Valid10(Compact(value)) then Some(Compact(value)) else None
  }

  function New13(value: string): Option<string> {
    if Valid13(Compact(value)) then Some(Compact(value)) else None
  }

  type Isbn10 = s: string | Valid10(s) witness "0000000000"
  type Isbn13 = s: string | Valid13(s) witness "0000000000000"

  // ----- conversion (`provider-local/book.rs`) -----

  function Check13(body: string): char {
    Digit((10 - WeightedSum(body, Weight13(), 0) % 10) % 10)
  }

  // The ISBN-10 check character of a nine-digit body: 11 minus the weighted sum, modulo 11.
  function Check10(body: string): char {
    var check := (11 - WeightedSum(body, Weight10(), 0) % 11) % 11;
    if check == 10 then 'X' else Digit(check)
  }

  function To13(isbn: Isbn10): Option<string> {
    var body := "978" + isbn[..9];
    New13(body + [Check13(body)])
  }

  // The prefix under which ISBN-10s live on.
  predicate Bookland(isbn: string) {
    |isbn| >= 3 && isbn[..3] == "978"
  }

  function To10(isbn: Isbn13): Option<string> {
    if !Bookland(isbn) then None
    else New10(isbn[3..12] + [Check10(isbn[3..12])])
  }

  // ----- sums -----

  lemma {:induction false} SumOfAppended(s: string, c: char, weight: nat -> int, i: nat)
    requires i <= |s|
    ensures WeightedSum(s + [c], weight, i) == WeightedSum(s, weight, i) + ValueAt(c) * weight(|s|)
    decreases |s| - i
  {
    if i < |s| {
      SumOfAppended(s, c, weight, i + 1);
    } else {
      assert WeightedSum(s + [c], weight, i + 1) == 0;
    }
  }

  lemma {:induction false} SumAfterChange(s: string, n: nat, c: char, weight: nat -> int, i: nat)
    requires n < |s| && i <= |s|
    ensures WeightedSum(s[n := c], weight, i) ==
            WeightedSum(s, weight, i) + if i <= n then (ValueAt(c) - ValueAt(s[n])) * weight(n) else 0
    decreases |s| - i
  {
    if i < |s| {
      SumAfterChange(s, n, c, weight, i + 1);
      if i == n {
        Distribute(ValueAt(c), ValueAt(s[n]), weight(n));
      }
    }
  }

  lemma Distribute(a: int, b: int, w: int)
    ensures a * w == b * w + (a - b) * w
  {
  }

  lemma CompactKeeps(s: string)
    requires forall i :: 0 <= i < |s| ==> IsDigit(s[i]) || s[i] == 'X'
    ensures Compact(s) == s
  {
    if s != "" {
      CompactKeeps(s[1..]);
      assert s == [s[0]] + s[1..];
    }
  }

  // ----- conversions never fail re-validation -----

  lemma Check13Completes(body: string)
    requires |body| == 12 && forall i :: 0 <= i < 12 ==> IsDigit(body[i])
    ensures Valid13(body + [Check13(body)])
  {
    SumOfAppended(body, Check13(body), Weight13(), 0);
  }

  lemma Check10Completes(body: string)
    requires |body| == 9 && forall i :: 0 <= i < 9 ==> IsDigit(body[i])
    ensures Valid10(body + [Check10(body)])
  {
    SumOfAppended(body, Check10(body), Weight10(), 0);
  }

  // A valid ISBN-10 ends in the check character of its body, and so does a valid ISBN-13.
  lemma Check10IsUnique(isbn: Isbn10)
    ensures isbn == isbn[..9] + [Check10(isbn[..9])]
  {
    assert isbn == isbn[..9] + [isbn[9]];
    SumOfAppended(isbn[..9], isbn[9], Weight10(), 0);
    var v := ValueAt(isbn[9]);
    assert 0 <= v <= 10;
    assert (WeightedSum(isbn[..9], Weight10(), 0) + v) % 11 == 0;
  }

  lemma Check13IsUnique(isbn: Isbn13)
    ensures isbn == isbn[..12] + [Check13(isbn[..12])]
  {
    assert isbn == isbn[..12] + [isbn[12]];
    SumOfAppended(isbn[..12], isbn[12], Weight13(), 0);
    var v := ValueAt(isbn[12]);
    assert (WeightedSum(isbn[..12], Weight13(), 0) + v) % 10 == 0;
  }

  lemma To13Succeeds(isbn: Isbn10)
    ensures To13(isbn).Some? && Valid13(To13(isbn).value)
    ensures To13(isbn).value[..3] == "978" && To13(isbn).value[3..12] == isbn[..9]
  {
    var body := "978" + isbn[..9];
    Check13Completes(body);
    CompactKeeps(body + [Check13(body)]);
  }

  /** An ISBN-13 converts exactly when it starts with 978, and then the result is valid. */
  lemma To10SucceedsIff(isbn: Isbn13)
    ensures To10(isbn).Some? <==> Bookland(isbn)
    ensures To10(isbn).Some? ==> Valid10(To10(isbn).value) && To10(isbn).value[..9] == isbn[3..12]
  {
    if Bookland(isbn) {
      var body := isbn[3..12];
      Check10Completes(body);
      CompactKeeps(body + [Check10(body)]);
    }
  }

  /** Converting a valid ISBN-10 to ISBN-13 and back restores it. */
  lemma RoundTrip10(isbn: Isbn10)
    ensures To13(isbn).Some? && Valid13(To13(isbn).value) && To10(To13(isbn).value) == Some(isbn)
  {
    To13Succeeds(isbn);
    To10SucceedsIff(To13(isbn).value);
    Check10IsUnique(isbn);
    Check10IsUnique(To10(To13(isbn).value).value);
  }

  /** Converting a valid 978 ISBN-13 to ISBN-10 and back restores it. */
  lemma RoundTrip13(isbn: Isbn13)
    requires Bookland(isbn)
    ensures To10(isbn).Some? && Valid10(To10(isbn).value) && To13(To10(isbn).value) == Some(isbn)
  {
    To10SucceedsIff(isbn);
    var ten: Isbn10 := To10(isbn).value;
    To13Succeeds(ten);
    Check13IsUnique(isbn);
    Check13IsUnique(To13(ten).value);
    assert isbn[..12] == "978" + isbn[3..12];
    assert To13(ten).value[..12] == "978" + To13(ten).value[3..12];
  }

  // ----- error detection -----

  lemma ElevenIsPrime(d: int, w: int)
    requires -10 <= d <= 10 && d != 0 && (1 <= w <= 10 || -10 <= w <= -1)
    ensures (d * w) % 11 != 0
  {
    var u := if w < 0 then -w else w;
    match u
    case 1 => case 2 => case 3 => case 4 => case 5 =>
    case 6 => case 7 => case 8 => case 9 => case _ =>
  }

  /** The ISBN-10 check rejects every substitution of one character. */
  lemma Substitution10IsRejected(isbn: Isbn10, n: nat, c: char)
    requires n < 10 && c != isbn[n]
    ensures !Valid10(isbn[n := c])
  {
    if Shape10(isbn[n := c]) {
      assert isbn[n := c][n] == c;
      SumAfterChange(isbn, n, c, Weight10(), 0);
      var d := ValueAt(c) - ValueAt(isbn[n]);
      ElevenIsPrime(d, 10 - n);
      NotBothZero(WeightedSum(isbn, Weight10(), 0), d * (10 - n));
    }
  }

  lemma NotBothZero(a: int, b: int)
    requires a % 11 == 0 && b % 11 != 0
    ensures (a + b) % 11 != 0
  {
  }

  /** The ISBN-10 check rejects every swap of two unequal characters. */
  lemma Swap10IsRejected(isbn: Isbn10, i: nat, j: nat)
    requires i < j < 10 && isbn[i] != isbn[j]
    ensures !Valid10(isbn[i := isbn[j]][j := isbn[i]])
  {
    var once := isbn[i := isbn[j]];
    var twice := once[j := isbn[i]];
    if Shape10(twice) {
      assert twice[i] == isbn[j] && twice[j] == isbn[i];
      SumAfterChange(isbn, i, isbn[j], Weight10(), 0);
      SumAfterChange(once, j, isbn[i], Weight10(), 0);
      var d := ValueAt(isbn[j]) - ValueAt(isbn[i]);
      assert once[j] == isbn[j];
      SwapDifference(d, 10 - i, 10 - j);
      ElevenIsPrime(d, j - i);
      NotBothZero(WeightedSum(isbn, Weight10(), 0), d * (j - i));
    }
  }

  lemma SwapDifference(d: int, wi: int, wj: int)
    ensures d * wi + (-d) * wj == d * (wi - wj)
  {
  }

  /** The ISBN-13 check rejects every substitution of one digit. */
  lemma Substitution13IsRejected(isbn: Isbn13, n: nat, c: char)
    requires n < 13 && c != isbn[n]
    ensures !Valid13(isbn[n := c])
  {
    if Shape13(isbn[n := c]) {
      assert isbn[n := c][n] == c;
      SumAfterChange(isbn, n, c, Weight13(), 0);
      var d := ValueAt(c) - ValueAt(isbn[n]);
      assert -9 <= d <= 9 && d != 0;
      if n % 2 == 0 { assert d * Weight13()(n) == d; } else { assert d * Weight13()(n) == 3 * d; }
    }
  }

  lemma SwapSum(isbn: string, i: nat)
    requires i + 1 < |isbn|
    ensures var d := ValueAt(isbn[i + 1]) - ValueAt(isbn[i]);
            WeightedSum(isbn[i := isbn[i + 1]][i + 1 := isbn[i]], Weight13(), 0) ==
            WeightedSum(isbn, Weight13(), 0) + if i % 2 == 0 then -2 * d else 2 * d
  {
    var once := isbn[i := isbn[i + 1]];
    SumAfterChange(isbn, i, isbn[i + 1], Weight13(), 0);
    SumAfterChange(once, i + 1, isbn[i], Weight13(), 0);
    assert once[i + 1] == isbn[i + 1];
  }

  lemma TenDividesTwice(sum: int, d: int)
    requires sum % 10 == 0
    ensures (sum + 2 * d) % 10 == 0 <==> d % 5 == 0
    ensures (sum - 2 * d) % 10 == 0 <==> d % 5 == 0
    ensures -d % 5 == 0 <==> d % 5 == 0
  {
  }

  /** A swap of neighbours passes the ISBN-13 check exactly when the digits differ by a multiple of five. */
  lemma Swap13PassesIff(isbn: Isbn13, i: nat)
    requires i < 12
    ensures Valid13(isbn[i := isbn[i + 1]][i + 1 := isbn[i]]) <==> (ValueAt(isbn[i]) - ValueAt(isbn[i + 1])) % 5 == 0
  {
    SwapSum(isbn, i);
    TenDividesTwice(WeightedSum(isbn, Weight13(), 0), ValueAt(isbn[i + 1]) - ValueAt(isbn[i]));
  }

  // ----- the choice among the identifiers of an OPF package -----

  function StripPrefix(value: string): string {
    if |value| >= 9 && (value[..9] == "urn:isbn:" || value[..9] == "URN:ISBN:") then value[9..] else value
  }

  // The first identifier that validates.
  function First(values: seq<string>, trim: string -> string, validate: string -> Option<string>): Option<string> {
    if values == [] then None
    else
      var r := validate(StripPrefix(trim(values[0])));
      if r.Some? then r else First(values[1..], trim, validate)
  }

  lemma {:induction false} FirstIsValid(values: seq<string>, trim: string -> string)
    ensures First(values, trim, New10).Some? ==> Valid10(First(values, trim, New10).value)
    ensures First(values, trim, New13).Some? ==> Valid13(First(values, trim, New13).value)
  {
    if values != [] { FirstIsValid(values[1..], trim); }
  }

  function Pair<T, U>(a: Option<T>, b: Option<U>): Option<(T, U)> {
    if a.Some? && b.Some? then Some((a.value, b.value)) else None
  }

  // The first ISBN-10 and the first ISBN-13, each derived from the other when it is missing.
  function Canonical(values: seq<string>, trim: string -> string): Option<(string, string)> {
    FirstIsValid(values, trim);
    var ten, thirteen := First(values, trim, New10), First(values, trim, New13);
    if ten.Some? && thirteen.None? then Pair(ten, To13(ten.value))
    else if ten.None? && thirteen.Some? then Pair(To10(thirteen.value), thirteen)
    else Pair(ten, thirteen)
  }

  /** Scans the identifiers once, keeping the first valid one of each form. */
  method CanonicalIsbns(values: seq<string>, trim: string -> string) returns (r: Option<(string, string)>)
    ensures r == Canonical(values, trim)
  {
    var ten: Option<string>, thirteen: Option<string> := None, None;
    for i := 0 to |values|
      invariant First(values, trim, New10) == if ten.Some? then ten else First(values[i..], trim, New10)
      invariant First(values, trim, New13) == if thirteen.Some? then thirteen else First(values[i..], trim, New13)
    {
      assert values[i..][1..] == values[i + 1..];
      var candidate := StripPrefix(trim(values[i]));
      if thirteen.None? { thirteen := New13(candidate); }
      if ten.None? { ten := New10(candidate); }
    }
    assert values[|values|..] == [];
    FirstIsValid(values, trim);
    match (ten, thirteen) {
      case (Some(a), Some(b)) => return Some((a, b));
      case (Some(a), None) =>
        var b := To13(a);
        if b.None? { return None; }
        return Some((a, b.value));
      case (None, Some(b)) =>
        var a := To10(b);
        if a.None? { return None; }
        return Some((a.value, b));
      case (None, None) => return None;
    }
  }

  // The ISBN-13 carries the body of the ISBN-10.
  predicate SameBody(ten: string, thirteen: string) {
    |ten| == 10 && |thirteen| == 13 && thirteen[..12] == "978" + ten[..9]
  }

  lemma SameBodyIsConversion(ten: Isbn10, thirteen: Isbn13)
    ensures SameBody(ten, thirteen) <==> To13(ten) == Some(thirteen)
  {
    To13Succeeds(ten);
    var converted: Isbn13 := To13(ten).value;
    assert converted[..12] == "978" + converted[3..12];
    Check13IsUnique(thirteen);
    Check13IsUnique(converted);
  }

  /** The choice fails exactly when no identifier is an ISBN-10 and the first ISBN-13, if any, is not 978. */
  lemma CanonicalFailsIff(values: seq<string>, trim: string -> string)
    ensures Canonical(values, trim).None? <==>
            First(values, trim, New10).None? &&
            (First(values, trim, New13).None? || !Bookland(First(values, trim, New13).value))
  {
    FirstIsValid(values, trim);
    var ten, thirteen := First(values, trim, New10), First(values, trim, New13);
    if ten.Some? { To13Succeeds(ten.value); }
    if thirteen.Some? { To10SucceedsIff(thirteen.value); }
  }

  /** A chosen pair is two valid forms. They identify one book exactly when a form had to be derived, or the first given
      ISBN-13 carries the body of the first given ISBN-10: two given forms are not checked against each other. */
  lemma CanonicalAgreesIff(values: seq<string>, trim: string -> string)
    requires Canonical(values, trim).Some?
    ensures var first10, first13 := First(values, trim, New10), First(values, trim, New13);
            var (ten, thirteen) := Canonical(values, trim).value;
            && Valid10(ten) && Valid13(thirteen)
            && (first10.Some? ==> ten == first10.value) && (first13.Some? ==> thirteen == first13.value)
            && (To13(ten) == Some(thirteen) <==>
                first10.None? || first13.None? || SameBody(first10.value, first13.value))
  {
    FirstIsValid(values, trim);
    var first10, first13 := First(values, trim, New10), First(values, trim, New13);
    var (ten, thirteen) := Canonical(values, trim).value;
    if first10.Some? { To13Succeeds(first10.value); }
    if first13.Some? { To10SucceedsIff(first13.value); }
    if first10.None? { RoundTrip13(first13.value); }
    SameBodyIsConversion(ten, thirteen);
  }

  const GIVEN10 := "0000000000"
  const GIVEN13 := "9780000000019"

  lemma GivenAreValid()
    ensures Valid10(GIVEN10) && Valid13(GIVEN13)
  {
    var ten: Isbn10 := GIVEN10;
    var weight := Weight13();
    assert WeightedSum(GIVEN13, weight, 12) == 9;
    assert WeightedSum(GIVEN13, weight, 11) == 12;
    assert WeightedSum(GIVEN13, weight, 9) == 12;
    assert WeightedSum(GIVEN13, weight, 7) == 12;
    assert WeightedSum(GIVEN13, weight, 5) == 12;
    assert WeightedSum(GIVEN13, weight, 3) == 12;
    assert WeightedSum(GIVEN13, weight, 2) == 20;
    assert WeightedSum(GIVEN13, weight, 1) == 41;
    assert WeightedSum(GIVEN13, weight, 0) == 50;
  }

  lemma ValidIsReadAsIs(isbn: string)
    requires Valid10(isbn) || Valid13(isbn)
    ensures StripPrefix(isbn) == isbn == Compact(isbn)
  {
    assert IsDigit(isbn[0]);
    assert isbn[..9][0] == isbn[0];
    CompactKeeps(isbn);
  }

  // Two given forms are both chosen, whatever they are.
  lemma BothAreChosen(ten: Isbn10, thirteen: Isbn13, trim: string -> string)
    requires trim(ten) == ten && trim(thirteen) == thirteen
    ensures Canonical([ten, thirteen], trim) == Some((ten, thirteen))
  {
    ValidIsReadAsIs(ten);
    ValidIsReadAsIs(thirteen);
    var values: seq<string> := [ten, thirteen];
    assert values[1..] == [thirteen];
    assert New13(ten).None? && New10(ten) == Some(ten) && New13(thirteen) == Some(thirteen);
    assert First(values, trim, New10) == Some(ten);
    assert First(values[1..], trim, New13) == Some(thirteen);
  }

  /** Two given forms that name different books: both are valid, and both are chosen. */
  lemma GivenFormsMayDisagree(trim: string -> string)
    requires trim(GIVEN10) == GIVEN10 && trim(GIVEN13) == GIVEN13
    ensures Canonical([GIVEN10, GIVEN13], trim) == Some((GIVEN10, GIVEN13))
    ensures !SameBody(GIVEN10, GIVEN13)
  {
    GivenAreValid();
    BothAreChosen(GIVEN10, GIVEN13, trim);
    BodiesDiffer(GIVEN10, GIVEN13);
  }

  lemma BodiesDiffer(ten: string, thirteen: string)
    requires |ten| == 10 && |thirteen| == 13 && ten[8] != thirteen[11]
    ensures !SameBody(ten, thirteen)
  {
    assert ("978" + ten[..9])[11] == ten[8] && thirteen[..12][11] == thirteen[11];
  }
}

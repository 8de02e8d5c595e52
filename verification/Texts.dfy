/** Prefixes, and trimming for a given notion of whitespace (`str::trim`). */
module Texts {
  function TrimStart(value: string, isWhitespace: char -> bool): string {
    if value != "" && isWhitespace(value[0]) then TrimStart(value[1..], isWhitespace) else value
  }

  function TrimEnd(value: string, isWhitespace: char -> bool): string {
    if value != "" && isWhitespace(value[|value| - 1]) then TrimEnd(value[..|value| - 1], isWhitespace) else value
  }

  predicate StartsWith(value: string, prefix: string) {
    |prefix| <= |value| && value[..|prefix|] == prefix
  }

  // The text between the blanks at both ends.
  ghost predicate Core(value: string, isWhitespace: char -> bool, i: nat, j: nat) {
    && i <= j <= |value|
    && (forall k :: 0 <= k < i ==> isWhitespace(value[k]))
    && (forall k :: j <= k < |value| ==> isWhitespace(value[k]))
    && (i < j ==> !isWhitespace(value[i]) && !isWhitespace(value[j - 1]))
  }

  lemma {:induction false} TrimmedStart(value: string, isWhitespace: char -> bool, i: nat)
    requires i <= |value| && forall k :: 0 <= k < i ==> isWhitespace(value[k])
    requires i < |value| ==> !isWhitespace(value[i])
    ensures TrimStart(value, isWhitespace) == value[i..]
  {
    if i > 0 {
      TrimmedStart(value[1..], isWhitespace, i - 1);
      assert value[1..][i - 1..] == value[i..];
    }
  }

  lemma {:induction false} TrimmedEnd(value: string, isWhitespace: char -> bool, j: nat)
    requires j <= |value| && forall k :: j <= k < |value| ==> isWhitespace(value[k])
    requires j > 0 ==> !isWhitespace(value[j - 1])
    ensures TrimEnd(value, isWhitespace) == value[..j]
  {
    if j < |value| {
      TrimmedEnd(value[..|value| - 1], isWhitespace, j);
      assert value[..|value| - 1][..j] == value[..j];
    }
  }

  lemma {:induction false} StartOf(value: string, isWhitespace: char -> bool) returns (i: nat)
    ensures i <= |value| && forall k :: 0 <= k < i ==> isWhitespace(value[k])
    ensures i < |value| ==> !isWhitespace(value[i])
  {
    i := 0;
    if value != "" && isWhitespace(value[0]) {
      i := StartOf(value[1..], isWhitespace);
      i := i + 1;
      assert forall k :: 0 < k < i ==> value[k] == value[1..][k - 1];
    }
  }

  lemma {:induction false} EndOf(value: string, isWhitespace: char -> bool, i: nat) returns (j: nat)
    requires i <= |value| && (i < |value| ==> !isWhitespace(value[i]))
    ensures i <= j <= |value| && forall k :: j <= k < |value| ==> isWhitespace(value[k])
    ensures i < j ==> !isWhitespace(value[j - 1])
  {
    j := |value|;
    if i < j && isWhitespace(value[j - 1]) {
      j := EndOf(value[..j - 1], isWhitespace, i);
      assert forall k :: j <= k < |value| - 1 ==> value[k] == value[..|value| - 1][k];
    }
  }

  // Trimming leaves the core, and every text has one.
  lemma TrimIsCore(value: string, isWhitespace: char -> bool, i: nat, j: nat)
    requires Core(value, isWhitespace, i, j) && i < j
    ensures TrimEnd(TrimStart(value, isWhitespace), isWhitespace) == value[i..j]
  {
    TrimmedStart(value, isWhitespace, i);
    var rest := value[i..];
    assert forall k :: 0 <= k < |rest| ==> rest[k] == value[i + k];
    TrimmedEnd(rest, isWhitespace, j - i);
    assert rest[..j - i] == value[i..j];
  }

  lemma CoreOf(value: string, isWhitespace: char -> bool) returns (i: nat, j: nat)
    ensures Core(value, isWhitespace, i, j)
    ensures i < j ==> TrimEnd(TrimStart(value, isWhitespace), isWhitespace) == value[i..j]
    ensures i == j ==> TrimEnd(TrimStart(value, isWhitespace), isWhitespace) == ""
  {
    i := StartOf(value, isWhitespace);
    j := EndOf(value, isWhitespace, i);
    if i < j {
      TrimIsCore(value, isWhitespace, i, j);
    } else {
      TrimmedStart(value, isWhitespace, i);
      assert value[i..] == "";
    }
  }
}

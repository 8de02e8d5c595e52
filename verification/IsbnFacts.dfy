/** What makes an ISBN valid and what is read of an identifier, character by character. */
module IsbnFacts {
  import opened Isbn

  // The value of a check character: its digit, or ten.
  function Value(c: char): int {
    if '0' <= c <= '9' then c as int - '0' as int else 10
  }

  lemma SumFrom(s: string, weight: nat -> int, i: nat)
    requires i < |s|
    ensures WeightedSum(s, weight, i) == Value(s[i]) * weight(i) + WeightedSum(s, weight, i + 1)
  {
  }

  lemma EndOfTen(s: string)
    requires |s| == 10
    ensures WeightedSum(s, Weight10(), 7) == 3 * Value(s[7]) + 2 * Value(s[8]) + Value(s[9])
  {
    SumFrom(s, Weight10(), 7);
    SumFrom(s, Weight10(), 8);
    SumFrom(s, Weight10(), 9);
  }

  lemma MiddleOfTen(s: string)
    requires |s| == 10
    ensures WeightedSum(s, Weight10(), 4) ==
            6 * Value(s[4]) + 5 * Value(s[5]) + 4 * Value(s[6]) + WeightedSum(s, Weight10(), 7)
  {
    SumFrom(s, Weight10(), 4);
    SumFrom(s, Weight10(), 5);
    SumFrom(s, Weight10(), 6);
  }

  lemma StartOfTen(s: string)
    requires |s| == 10
    ensures WeightedSum(s, Weight10(), 2) == 8 * Value(s[2]) + 7 * Value(s[3]) + WeightedSum(s, Weight10(), 4)
    ensures WeightedSum(s, Weight10(), 0) == 10 * Value(s[0]) + 9 * Value(s[1]) + WeightedSum(s, Weight10(), 2)
  {
    SumFrom(s, Weight10(), 0);
    SumFrom(s, Weight10(), 1);
    SumFrom(s, Weight10(), 2);
    SumFrom(s, Weight10(), 3);
  }

  /** An ISBN-10 is nine digits and a digit or an "X", and its sum with the weights ten down to one is a multiple of
      eleven. */
  lemma Valid10Iff(s: string)
    ensures Valid10(s) <==>
            && |s| == 10
            && (forall i :: 0 <= i < 9 ==> '0' <= s[i] <= '9') && ('0' <= s[9] <= '9' || s[9] == 'X')
            && (10 * Value(s[0]) + 9 * Value(s[1]) + 8 * Value(s[2]) + 7 * Value(s[3]) + 6 * Value(s[4]) +
                5 * Value(s[5]) + 4 * Value(s[6]) + 3 * Value(s[7]) + 2 * Value(s[8]) + Value(s[9])) % 11 == 0
  {
    if |s| == 10 {
      StartOfTen(s);
      MiddleOfTen(s);
      EndOfTen(s);
    }
  }

  lemma LastOfThirteen(s: string)
    requires |s| == 13
    ensures WeightedSum(s, Weight13(), 7) ==
            3 * Value(s[7]) + Value(s[8]) + 3 * Value(s[9]) + Value(s[10]) + 3 * Value(s[11]) + Value(s[12])
  {
    SumFrom(s, Weight13(), 7);
    SumFrom(s, Weight13(), 8);
    SumFrom(s, Weight13(), 9);
    SumFrom(s, Weight13(), 10);
    SumFrom(s, Weight13(), 11);
    SumFrom(s, Weight13(), 12);
  }

  lemma SumOfThirteen(s: string)
    requires |s| == 13
    ensures WeightedSum(s, Weight13(), 0) ==
            Value(s[0]) + Value(s[2]) + Value(s[4]) + Value(s[6]) + Value(s[8]) + Value(s[10]) + Value(s[12]) +
            3 * (Value(s[1]) + Value(s[3]) + Value(s[5]) + Value(s[7]) + Value(s[9]) + Value(s[11]))
  {
    SumFrom(s, Weight13(), 0);
    SumFrom(s, Weight13(), 1);
    SumFrom(s, Weight13(), 2);
    SumFrom(s, Weight13(), 3);
    SumFrom(s, Weight13(), 4);
    SumFrom(s, Weight13(), 5);
    SumFrom(s, Weight13(), 6);
    LastOfThirteen(s);
  }

  /** An ISBN-13 is thirteen digits whose sum, with every second one tripled, is a multiple of ten. */
  lemma Valid13Iff(s: string)
    ensures Valid13(s) <==>
            && |s| == 13 && (forall i :: 0 <= i < 13 ==> '0' <= s[i] <= '9')
            && (Value(s[0]) + Value(s[2]) + Value(s[4]) + Value(s[6]) + Value(s[8]) + Value(s[10]) + Value(s[12]) +
                3 * (Value(s[1]) + Value(s[3]) + Value(s[5]) + Value(s[7]) + Value(s[9]) + Value(s[11]))) % 10 == 0
  {
    if |s| == 13 { SumOfThirteen(s); }
  }

  // ----- reading -----

  lemma {:induction false} CompactParts(a: string, b: string)
    ensures Compact(a + b) == Compact(a) + Compact(b)
  {
    if a == "" {
      assert a + b == b;
    } else {
      CompactParts(a[1..], b);
      assert (a + b)[1..] == a[1..] + b;
    }
  }

  /** A character of an identifier: hyphens and blanks vanish, ASCII letters become capitals, the rest stays. */
  lemma CompactIs(front: string, c: char)
    ensures Compact("") == ""
    ensures Compact(front + [c]) ==
            if c == '-' || c == ' ' then Compact(front)
            else if 'a' <= c <= 'z' then Compact(front) + [(c as int - 32) as char]
            else Compact(front) + [c]
  {
    CompactParts(front, [c]);
    assert [c][1..] == "";
    assert Compact([c][1..]) == "";
  }

  /** An identifier is read without its ISBN prefix, in small letters or in capitals. */
  lemma PrefixIs(rest: string, value: string)
    ensures StripPrefix("urn:isbn:" + rest) == rest
    ensures StripPrefix("URN:ISBN:" + rest) == rest
    ensures (forall tail :: value != "urn:isbn:" + tail && value != "URN:ISBN:" + tail) ==> StripPrefix(value) == value
  {
    assert ("urn:isbn:" + rest)[..9] == "urn:isbn:" && ("URN:ISBN:" + rest)[..9] == "URN:ISBN:";
    if |value| >= 9 { assert value == value[..9] + value[9..]; }
  }
}

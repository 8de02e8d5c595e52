/** The two XML escapers: chained replacement (book writer) and single pass (NFO writer). */
module Escaping {
  import opened Texts

  // The entity that replaces a character, or the character itself.
  function Escaped(c: char): string {
    match c
    case '&' => "&amp;"
    case '<' => "&lt;"
    case '>' => "&gt;"
    case '\"' => "&quot;"
    case '\'' => "&apos;"
    case _ => [c]
  }

  /** The NFO writer's form: one pass over the characters. */
  function EscapeOnce(value: string): string {
    if value == "" then "" else Escaped(value[0]) + EscapeOnce(value[1..])
  }

  // `str::replace` of one character.
  function Replace(value: string, c: char, entity: string): string {
    if value == "" then "" else (if value[0] == c then entity else [value[0]]) + Replace(value[1..], c, entity)
  }

  /** The book writer's form: five replacements in a row, the ampersand first. */
  function EscapeChained(value: string): string {
    Replace(Replace(Replace(Replace(Replace(value, '&', "&amp;"), '<', "&lt;"), '>', "&gt;"), '\"', "&quot;"), '\'',
            "&apos;")
  }

  lemma {:induction false} ReplaceConcatenation(a: string, b: string, c: char, entity: string)
    ensures Replace(a + b, c, entity) == Replace(a, c, entity) + Replace(b, c, entity)
  {
    if a == "" {
      assert a + b == b;
    } else {
      ReplaceConcatenation(a[1..], b, c, entity);
      assert (a + b)[1..] == a[1..] + b;
    }
  }

  lemma ChainedConcatenation(a: string, b: string)
    ensures EscapeChained(a + b) == EscapeChained(a) + EscapeChained(b)
  {
    ReplaceConcatenation(a, b, '&', "&amp;");
    var a1, b1 := Replace(a, '&', "&amp;"), Replace(b, '&', "&amp;");
    ReplaceConcatenation(a1, b1, '<', "&lt;");
    var a2, b2 := Replace(a1, '<', "&lt;"), Replace(b1, '<', "&lt;");
    ReplaceConcatenation(a2, b2, '>', "&gt;");
    var a3, b3 := Replace(a2, '>', "&gt;"), Replace(b2, '>', "&gt;");
    ReplaceConcatenation(a3, b3, '\"', "&quot;");
    var a4, b4 := Replace(a3, '\"', "&quot;"), Replace(b3, '\"', "&quot;");
    ReplaceConcatenation(a4, b4, '\'', "&apos;");
  }

  // A replacement leaves text without the character alone.
  lemma {:induction false} ReplaceNothing(value: string, c: char, entity: string)
    requires c !in value
    ensures Replace(value, c, entity) == value
  {
    if value != "" {
      assert forall x :: x in value[1..] ==> x in value;
      ReplaceNothing(value[1..], c, entity);
      assert value == [value[0]] + value[1..];
    }
  }

  lemma ReplaceOne(c: char, entity: string)
    ensures Replace([c], c, entity) == entity
  {
    assert [c][1..] == "";
    assert Replace([c][1..], c, entity) == "";
  }

  // Text that the last four replacements leave alone.
  predicate Plain(value: string) {
    forall i :: 0 <= i < |value| ==> value[i] != '<' && value[i] != '>' && value[i] != '\"' && value[i] != '\''
  }

  lemma EscapedIsPlain(c: char)
    ensures Plain(Escaped(c))
  {
  }

  lemma PlainPassesLast(value: string)
    requires Plain(value)
    ensures Replace(value, '\'', "&apos;") == value
  {
    ReplaceNothing(value, '\'', "&apos;");
  }

  lemma PlainPassesQuotes(value: string)
    requires Plain(value)
    ensures Replace(Replace(value, '\"', "&quot;"), '\'', "&apos;") == value
  {
    ReplaceNothing(value, '\"', "&quot;");
    PlainPassesLast(value);
  }

  lemma PlainPassesThree(value: string)
    requires Plain(value)
    ensures Replace(Replace(Replace(value, '>', "&gt;"), '\"', "&quot;"), '\'', "&apos;") == value
  {
    ReplaceNothing(value, '>', "&gt;");
    PlainPassesQuotes(value);
  }

  lemma PlainPassesFour(value: string)
    requires Plain(value)
    ensures Replace(Replace(Replace(Replace(value, '<', "&lt;"), '>', "&gt;"), '\"', "&quot;"), '\'', "&apos;") == value
  {
    ReplaceNothing(value, '<', "&lt;");
    PlainPassesThree(value);
  }

  lemma ChainedOneCharacter(c: char)
    ensures EscapeChained([c]) == Escaped(c)
  {
    EscapedIsPlain(c);
    if c == '&' {
      ReplaceOne(c, "&amp;");
      PlainPassesFour(Escaped(c));
      return;
    }
    ReplaceNothing([c], '&', "&amp;");
    if c == '<' {
      ReplaceOne(c, "&lt;");
      PlainPassesThree(Escaped(c));
      return;
    }
    ReplaceNothing([c], '<', "&lt;");
    if c == '>' {
      ReplaceOne(c, "&gt;");
      PlainPassesQuotes(Escaped(c));
      return;
    }
    ReplaceNothing([c], '>', "&gt;");
    if c == '\"' {
      ReplaceOne(c, "&quot;");
      PlainPassesLast(Escaped(c));
      return;
    }
    ReplaceNothing([c], '\"', "&quot;");
    if c == '\'' {
      ReplaceOne(c, "&apos;");
    } else {
      ReplaceNothing([c], '\'', "&apos;");
    }
  }

  /** The two escapers agree on every string: no replacement touches what an earlier one inserted. */
  lemma {:induction false} EscapersAgree(value: string)
    ensures EscapeChained(value) == EscapeOnce(value)
  {
    if value != "" {
      assert value == [value[0]] + value[1..];
      ChainedConcatenation([value[0]], value[1..]);
      ChainedOneCharacter(value[0]);
      EscapersAgree(value[1..]);
    }
  }

  /** No raw angle bracket or quote is left. */
  lemma {:induction false} NothingRawIsLeft(value: string, c: char)
    requires c in "<>\"\'"
    ensures c !in EscapeOnce(value)
  {
    if value != "" {
      NothingRawIsLeft(value[1..], c);
      assert c !in Escaped(value[0]);
    }
  }

  // The predefined entities of section 4.6 of XML 1.0; any other text stands for itself.
  function Decode(value: string): string
    decreases |value|
  {
    if value == "" then ""
    else if StartsWith(value, "&amp;") then "&" + Decode(value[5..])
    else if StartsWith(value, "&lt;") then "<" + Decode(value[4..])
    else if StartsWith(value, "&gt;") then ">" + Decode(value[4..])
    else if StartsWith(value, "&quot;") then "\"" + Decode(value[6..])
    else if StartsWith(value, "&apos;") then "\'" + Decode(value[6..])
    else [value[0]] + Decode(value[1..])
  }

  lemma DecodeOther(c: char, rest: string)
    requires c !in "&<>\"\'"
    ensures Decode([c] + rest) == [c] + Decode(rest)
  {
    var value := [c] + rest;
    assert value[1..] == rest;
    forall p: string | p != "" && StartsWith(value, p) ensures p[0] == c {
      assert value[..|p|][0] == value[0];
    }
  }

  lemma DecodeEntity(c: char, rest: string)
    requires c in "&<>\"\'"
    ensures Decode(Escaped(c) + rest) == [c] + Decode(rest)
  {
    var value := Escaped(c) + rest;
    assert value[|Escaped(c)|..] == rest;
    assert value[..|Escaped(c)|] == Escaped(c);
    OtherEntities(value, c);
  }

  // The second and third letters tell the five entities apart.
  lemma OtherEntities(value: string, c: char)
    requires c in "&<>\"\'" && StartsWith(value, Escaped(c))
    ensures StartsWith(value, "&amp;") ==> c == '&'
    ensures StartsWith(value, "&lt;") ==> c == '<'
    ensures StartsWith(value, "&gt;") ==> c == '>'
    ensures StartsWith(value, "&quot;") ==> c == '\"'
    ensures StartsWith(value, "&apos;") ==> c == '\''
  {
    var e := Escaped(c);
    assert value[1] == value[..|e|][1] == e[1] && value[2] == value[..|e|][2] == e[2];
    assert StartsWith(value, "&amp;") ==> value[..5][1] == 'a' && value[..5][2] == 'm';
    assert StartsWith(value, "&lt;") ==> value[..4][1] == 'l';
    assert StartsWith(value, "&gt;") ==> value[..4][1] == 'g';
    assert StartsWith(value, "&quot;") ==> value[..6][1] == 'q';
    assert StartsWith(value, "&apos;") ==> value[..6][1] == 'a' && value[..6][2] == 'p';
  }

  /** Decoding the predefined entities restores every escaped string. */
  lemma {:induction false} DecodeRestores(value: string)
    ensures Decode(EscapeOnce(value)) == value
  {
    if value != "" {
      DecodeRestores(value[1..]);
      if value[0] in "&<>\"\'" {
        DecodeEntity(value[0], EscapeOnce(value[1..]));
      } else {
        DecodeOther(value[0], EscapeOnce(value[1..]));
      }
      assert value == [value[0]] + value[1..];
    }
  }
}

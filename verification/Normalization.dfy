/** What normalizing a text does: words with any blanks around them become words with one blank between. */
module Normalization {
  import opened Media
  import opened Sequences

  ghost predicate IsBlank(gap: string, isWhitespace: char -> bool) {
    forall i :: 0 <= i < |gap| ==> isWhitespace(gap[i])
  }

  ghost predicate IsWord(word: string, isWhitespace: char -> bool) {
    word != "" && forall i :: 0 <= i < |word| ==> !isWhitespace(word[i])
  }

  // A gap, a word, a gap, and so on; the last is a gap.
  function Spread(gaps: seq<string>, words: seq<string>): string
    requires |gaps| == |words| + 1
  {
    if words == [] then gaps[0] else gaps[0] + words[0] + Spread(gaps[1..], words[1..])
  }

  // Gaps of whitespace, none empty between two words.
  ghost predicate Separates(gaps: seq<string>, words: seq<string>, isWhitespace: char -> bool) {
    && |gaps| == |words| + 1
    && (forall i :: 0 <= i < |words| ==> IsWord(words[i], isWhitespace))
    && (forall i :: 0 <= i < |gaps| ==> IsBlank(gaps[i], isWhitespace))
    && (forall i :: 0 < i < |words| ==> gaps[i] != "")
  }

  // One blank between two words, and none at the ends.
  function Blanks(words: nat): seq<string> {
    seq(words + 1, i requires 0 <= i => if i == 0 || i == words then "" else " ")
  }

  lemma {:induction false} SkipGap(gap: string, rest: string, word: string, isWhitespace: char -> bool)
    requires IsBlank(gap, isWhitespace)
    ensures Words(gap + rest, word, isWhitespace) ==
            if gap == "" then Words(rest, word, isWhitespace)
            else (if word == "" then [] else [word]) + Words(rest, "", isWhitespace)
    decreases |gap|
  {
    if gap == "" {
      assert gap + rest == rest;
    } else {
      assert (gap + rest)[1..] == gap[1..] + rest;
      SkipGap(gap[1..], rest, "", isWhitespace);
      assert [] + Words(rest, "", isWhitespace) == Words(rest, "", isWhitespace);
    }
  }

  lemma {:induction false} ReadWord(text: string, rest: string, word: string, isWhitespace: char -> bool)
    requires forall i :: 0 <= i < |text| ==> !isWhitespace(text[i])
    ensures Words(text + rest, word, isWhitespace) == Words(rest, word + text, isWhitespace)
    decreases |text|
  {
    if text == "" {
      assert text + rest == rest && word + text == word;
    } else {
      assert (text + rest)[1..] == text[1..] + rest;
      ReadWord(text[1..], rest, word + [text[0]], isWhitespace);
      assert word + text == word + [text[0]] + text[1..];
    }
  }

  // The word being read ends at the next gap, or at the end of the text.
  lemma {:induction false} WordsOfSpread(gaps: seq<string>, words: seq<string>, word: string,
                                         isWhitespace: char -> bool)
    requires Separates(gaps, words, isWhitespace) && (word != "" && words != [] ==> gaps[0] != "")
    ensures Words(Spread(gaps, words), word, isWhitespace) == (if word == "" then [] else [word]) + words
    decreases |words|
  {
    var before := if word == "" then [] else [word];
    if words == [] {
      SkipGap(gaps[0], "", word, isWhitespace);
      assert gaps[0] + "" == gaps[0];
    } else {
      var rest := Spread(gaps[1..], words[1..]);
      Associative(gaps[0], words[0], rest);
      SkipGap(gaps[0], words[0] + rest, word, isWhitespace);
      assert word == "" || gaps[0] != "";
      assert IsWord(words[0], isWhitespace);
      ReadWord(words[0], rest, "", isWhitespace);
      assert "" + words[0] == words[0];
      WordsOfSpread(gaps[1..], words[1..], words[0], isWhitespace);
      assert before + words == before + ([words[0]] + words[1..]);
    }
  }

  lemma {:induction false} JoinIsSpread(words: seq<string>)
    ensures Join(words, " ") == Spread(Blanks(|words|), words)
  {
    if words == [] {
    } else if |words| == 1 {
      assert Spread(Blanks(1)[1..], words[1..]) == "";
      assert "" + words[0] + "" == words[0];
    } else {
      JoinIsSpread(words[1..]);
      BlankInFront(words);
    }
  }

  lemma GapInFront(gap: string, gaps: seq<string>, words: seq<string>)
    requires |gaps| == |words|
    ensures Spread([gap] + gaps, words) == gap + Spread([""] + gaps, words)
  {
    assert ([gap] + gaps)[1..] == gaps == ([""] + gaps)[1..];
    if words != [] {
      var rest := Spread(gaps, words[1..]);
      assert "" + words[0] == words[0];
      Associative(gap, words[0], rest);
    } else {
      assert gap + "" == gap;
    }
  }

  lemma BlanksFollow(n: nat)
    requires n > 1
    ensures Blanks(n)[0] == "" && Blanks(n)[1..] == [" "] + Blanks(n - 1)[1..]
    ensures Blanks(n - 1) == [""] + Blanks(n - 1)[1..]
  {
  }

  lemma BlankInFront(words: seq<string>)
    requires |words| > 1
    ensures Spread(Blanks(|words|), words) == words[0] + " " + Spread(Blanks(|words| - 1), words[1..])
  {
    var n := |words|;
    var gaps, tail := Blanks(n), Blanks(n - 1)[1..];
    BlanksFollow(n);
    GapInFront(" ", tail, words[1..]);
    assert Spread(gaps, words) == gaps[0] + words[0] + Spread(gaps[1..], words[1..]);
    assert gaps[0] + words[0] == words[0];
    Associative(words[0], " ", Spread([""] + tail, words[1..]));
  }

  /** Whatever blanks stand around and between its words, a text normalizes to the lower-cased words with one blank
      between. */
  lemma NormalizeCollapses(unicode: Unicode, gaps: seq<string>, words: seq<string>)
    requires Separates(gaps, words, unicode.isWhitespace)
    ensures unicode.Normalize(Spread(gaps, words)) == unicode.lower(Spread(Blanks(|words|), words))
  {
    WordsOfSpread(gaps, words, "", unicode.isWhitespace);
    assert [] + words == words;
    JoinIsSpread(words);
  }

  /** Every text is of that form. */
  lemma {:induction false} EveryTextIsSpread(value: string, isWhitespace: char -> bool)
    returns (gaps: seq<string>, words: seq<string>)
    ensures Separates(gaps, words, isWhitespace) && Spread(gaps, words) == value
    decreases |value|
  {
    if value == "" {
      gaps, words := [""], [];
    } else {
      var g, w := EveryTextIsSpread(value[1..], isWhitespace);
      var c := value[0];
      assert value == [c] + value[1..];
      if isWhitespace(c) {
        gaps, words := [[c] + g[0]] + g[1..], w;
        assert gaps[1..] == g[1..];
      } else if w != [] && g[0] == "" {
        gaps, words := g, [[c] + w[0]] + w[1..];
        assert words[1..] == w[1..];
      } else {
        gaps, words := [""] + g, [[c]] + w;
        assert gaps[1..] == g && words[1..] == w;
      }
    }
  }
}

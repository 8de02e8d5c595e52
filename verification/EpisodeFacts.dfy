/** Which file names identify an episode, character by character, and what the printed names look like. */
module EpisodeFacts {
  import opened Decimal
  import opened EpisodeNames
  import opened Options
  import opened Texts

  // ----- numerals -----

  lemma {:induction false} NoLeadingZero(n: nat)
    ensures n > 0 ==> Numeral(n)[0] != '0'
    ensures n == 0 ==> Numeral(n) == "0"
  {
    if n >= 10 {
      NoLeadingZero(n / 10);
      assert Numeral(n)[0] == Numeral(n / 10)[0];
    }
  }

  lemma {:induction false} NumeralWidth(n: nat)
    ensures n < 10 <==> |Numeral(n)| == 1
    ensures n < 100 <==> |Numeral(n)| <= 2
    ensures n < 1000 <==> |Numeral(n)| <= 3
  {
    if n >= 10 {
      assert |Numeral(n)| == |Numeral(n / 10)| + 1;
      if n >= 100 {
        assert |Numeral(n / 10)| == |Numeral(n / 10 / 10)| + 1;
        if n >= 1000 { assert |Numeral(n / 10 / 10)| == |Numeral(n / 10 / 10 / 10)| + 1; }
      }
    }
  }

  // The decimal digits of n, with zeros in front to fill the width.
  ghost predicate IsDecimal(s: string, n: nat, width: nat) {
    && |s| >= width && (forall i :: 0 <= i < |s| ==> IsDigit(s[i])) && ValueOf(s) == n
    && (|s| > width ==> s[0] != '0')
  }

  /** Printed numbers: seasons and episodes with at least two digits, absolute episodes with at least four. */
  lemma PrintedNumbers(n: nat)
    ensures IsDecimal(Numeral(n), n, 1)
    ensures IsDecimal(Padded(n), n, 2)
    ensures IsDecimal(Padded4(n), n, 4)
  {
    NumeralRoundTrip(n);
    PaddedRoundTrip(n);
    Padded4RoundTrip(n);
    NoLeadingZero(n);
    NumeralWidth(n);
    if n >= 10 {
      assert Padded(n) == Numeral(n);
    }
  }

  /** Printed names, spelled out. */
  lemma PrintedNames(season: nat, episode: nat)
    ensures EpisodeStem(season, episode) == "S" + Padded(season) + "E" + Padded(episode)
    ensures AbsoluteStem(episode) == "E" + Padded4(episode)
    ensures SeasonFolder(season) == "Season " + Padded(season)
  {
  }

  // ----- markers -----

  predicate Letter(c: char, lower: char, upper: char) { c == lower || c == upper }

  predicate LetterOrDigit(c: char) { 'a' <= c <= 'z' || 'A' <= c <= 'Z' || '0' <= c <= '9' }

  ghost predicate Digits(s: string) {
    s != "" && forall i :: 0 <= i < |s| ==> '0' <= s[i] <= '9'
  }

  // A number that 32 bits hold.
  ghost predicate Holds32(s: string, value: nat) {
    Digits(s) && ValueOf(s) == value && value < 0x1_0000_0000
  }

  // "S", a number and "E" stand at p and up to e, behind neither a letter nor a digit.
  ghost predicate MarkedUpTo(stem: string, p: nat, e: nat) {
    && p + 1 < e < |stem| && Letter(stem[p], 's', 'S') && Letter(stem[e], 'e', 'E')
    && (p > 0 ==> !LetterOrDigit(stem[p - 1]))
    && Digits(stem[p + 1..e]) && ValueOf(stem[p + 1..e]) < 0x1_0000_0000
  }

  ghost predicate MarkedAt(stem: string, p: nat) {
    exists e: nat :: MarkedUpTo(stem, p, e)
  }

  // What follows the number of a single episode: neither a digit nor "E", nor a dash before one.
  ghost predicate EndsAt(stem: string, n: nat) {
    && n <= |stem|
    && (n < |stem| ==> !('0' <= stem[n] <= '9') && !Letter(stem[n], 'e', 'E'))
    && (n + 1 < |stem| && stem[n] == '-' ==> !('0' <= stem[n + 1] <= '9') && !Letter(stem[n + 1], 'e', 'E'))
  }

  // The marker at p names one positive episode: its number stands behind the "E" at e and ends at n.
  ghost predicate MarkedAs(stem: string, p: nat, season: nat, episode: nat, e: nat, n: nat) {
    && MarkedUpTo(stem, p, e) && ValueOf(stem[p + 1..e]) == season
    && e + 1 < n && EndsAt(stem, n) && Holds32(stem[e + 1..n], episode) && episode > 0
  }

  lemma DigitsOf(s: string, i: nat, e: nat)
    requires i <= e <= |s|
    ensures Digits(s[i..e]) <==> i < e && forall k :: i <= k < e ==> IsDigit(s[k])
  {
    if Digits(s[i..e]) { assert forall k :: i <= k < e ==> s[k] == s[i..e][k - i]; }
  }

  lemma MarkedIsMarker(stem: string, p: nat, e: nat)
    requires MarkedUpTo(stem, p, e)
    ensures Marker(stem, p) && RunEnd(stem, p + 1) == e && SeasonAt(stem, p) == ValueOf(stem[p + 1..e])
  {
    DigitsOf(stem, p + 1, e);
    RunEndIs(stem, p + 1, e);
  }

  lemma MarkerIsMarked(stem: string, p: nat)
    requires Marker(stem, p)
    ensures MarkedUpTo(stem, p, RunEnd(stem, p + 1))
    ensures SeasonAt(stem, p) == ValueOf(stem[p + 1..RunEnd(stem, p + 1)])
  {
    DigitsOf(stem, p + 1, RunEnd(stem, p + 1));
  }

  lemma MarkerIff(stem: string, p: nat)
    ensures Marker(stem, p) <==> MarkedAt(stem, p)
  {
    if Marker(stem, p) { MarkerIsMarked(stem, p); }
    if MarkedAt(stem, p) {
      var e: nat :| MarkedUpTo(stem, p, e);
      MarkedIsMarker(stem, p, e);
    }
  }

  lemma SingleIsMarked(stem: string, p: nat)
    requires Marker(stem, p) && Single(stem, p)
    ensures var e := RunEnd(stem, p + 1);
            MarkedAs(stem, p, IdentityAt(stem, p).0, IdentityAt(stem, p).1, e, RunEnd(stem, e + 1))
  {
    var e := RunEnd(stem, p + 1);
    MarkerIsMarked(stem, p);
    DigitsOf(stem, e + 1, RunEnd(stem, e + 1));
  }

  lemma MarkedIsSingle(stem: string, p: nat, season: nat, episode: nat, e: nat, n: nat)
    requires MarkedAs(stem, p, season, episode, e, n)
    ensures Marker(stem, p) && Single(stem, p) && IdentityAt(stem, p) == (season, episode)
  {
    MarkedIsMarker(stem, p, e);
    DigitsOf(stem, e + 1, n);
    RunEndIs(stem, e + 1, n);
  }

  // ----- season folders -----

  // "season " in any case, and a number with blanks around it and perhaps a plus before it.
  ghost predicate NamesSeason(folder: string, text: Text, season: nat, i: nat, j: nat) {
    && 7 <= i < j <= |folder| && SpelledSeason(folder)
    && (forall k :: 7 <= k < i ==> text.isWhitespace(Lowered(folder[k])))
    && (forall k :: j <= k < |folder| ==> text.isWhitespace(Lowered(folder[k])))
    && !text.isWhitespace(Lowered(folder[i])) && !text.isWhitespace(Lowered(folder[j - 1]))
    && Holds32(folder[if folder[i] == '+' then i + 1 else i..j], season)
  }

  function Lowered(c: char): char {
    if 'A' <= c <= 'Z' then (c as int + 32) as char else c
  }

  ghost predicate SpelledSeason(folder: string) {
    && |folder| >= 7
    && Letter(folder[0], 's', 'S') && Letter(folder[1], 'e', 'E') && Letter(folder[2], 'a', 'A')
    && Letter(folder[3], 's', 'S') && Letter(folder[4], 'o', 'O') && Letter(folder[5], 'n', 'N')
    && folder[6] == ' '
  }

  lemma SeasonWord(folder: string)
    requires |folder| >= 7
    ensures LowerAscii(folder)[..7] == "season " <==> SpelledSeason(folder)
  {
    var lower := LowerAscii(folder);
    assert lower[..7] == [lower[0], lower[1], lower[2], lower[3], lower[4], lower[5], lower[6]];
  }

  lemma LowerIs(folder: string, i: nat, j: nat)
    requires 7 <= i <= j <= |folder|
    ensures var rest := LowerAscii(folder)[7..];
            && |rest| == |folder| - 7 && (forall k :: 7 <= k < |folder| ==> rest[k - 7] == Lowered(folder[k]))
            && (forall k :: i <= k < j ==> (IsDigit(rest[i - 7..j - 7][k - i]) <==> IsDigit(folder[k])))
  {
  }

  // Lower-casing leaves digits, and digits only, as they are.
  lemma DigitsStay(folder: string, i: nat, j: nat)
    requires 7 <= i <= j <= |folder|
    ensures Digits(LowerAscii(folder)[7..][i - 7..j - 7]) <==> Digits(folder[i..j])
    ensures Digits(folder[i..j]) ==> LowerAscii(folder)[7..][i - 7..j - 7] == folder[i..j]
  {
    LowerIs(folder, i, j);
    DigitsOf(LowerAscii(folder)[7..], i - 7, j - 7);
    DigitsOf(folder, i, j);
    var rest := LowerAscii(folder)[7..];
    if Digits(folder[i..j]) {
      var lower, own := rest[i - 7..j - 7], folder[i..j];
      assert forall m :: 0 <= m < j - i ==> lower[m] == own[m];
    }
  }

  // A number with a plus in front, perhaps.
  lemma ParsedIs(value: string, season: nat)
    requires value != ""
    ensures ParseU32(value) == Some(season) <==> Holds32(value[if value[0] == '+' then 1 else 0..], season)
  {
    var digits := value[if value[0] == '+' then 1 else 0..];
    assert digits == if value[0] == '+' then value[1..] else value;
    var e := RunEnd(digits, 0);
    if Digits(digits) { RunEndIs(digits, 0, |digits|); }
    assert digits[0..|digits|] == digits;
  }

  lemma CoreParses(folder: string, season: nat, i: nat, j: nat)
    requires 7 <= i < j <= |folder|
    ensures ParseU32(LowerAscii(folder)[7..][i - 7..j - 7]) == Some(season) <==>
            Holds32(folder[if folder[i] == '+' then i + 1 else i..j], season)
  {
    var rest := LowerAscii(folder)[7..];
    var start := if folder[i] == '+' then i + 1 else i;
    var core := rest[i - 7..j - 7];
    LowerIs(folder, i, j);
    assert core[0] == rest[i - 7] == Lowered(folder[i]);
    ParsedIs(core, season);
    assert core[start - i..] == rest[start - 7..j - 7];
    DigitsStay(folder, start, j);
  }

  lemma CoreIs(folder: string, text: Text, i: nat, j: nat)
    requires 7 <= i < j <= |folder|
    ensures Core(LowerAscii(folder)[7..], text.isWhitespace, i - 7, j - 7) <==>
            && (forall k :: 7 <= k < i ==> text.isWhitespace(Lowered(folder[k])))
            && (forall k :: j <= k < |folder| ==> text.isWhitespace(Lowered(folder[k])))
            && !text.isWhitespace(Lowered(folder[i])) && !text.isWhitespace(Lowered(folder[j - 1]))
  {
    var rest := LowerAscii(folder)[7..];
    LowerIs(folder, i, j);
    if Core(rest, text.isWhitespace, i - 7, j - 7) {
      forall k | 7 <= k < i || j <= k < |folder| ensures text.isWhitespace(Lowered(folder[k])) {
        assert text.isWhitespace(rest[k - 7]);
      }
    }
  }

  lemma NamedSeason(folder: string, text: Text, season: nat, i: nat, j: nat)
    requires NamesSeason(folder, text, season, i, j)
    ensures FolderSeason(Some(folder), text) == Some(season)
  {
    SeasonWord(folder);
    CoreIs(folder, text, i, j);
    CoreParses(folder, season, i, j);
    SeasonOfCore(folder, text, i, j);
  }

  lemma SeasonOfCore(folder: string, text: Text, i: nat, j: nat)
    requires 7 <= i < j <= |folder| && LowerAscii(folder)[..7] == "season "
    requires Core(LowerAscii(folder)[7..], text.isWhitespace, i - 7, j - 7)
    ensures FolderSeason(Some(folder), text) == ParseU32(LowerAscii(folder)[7..][i - 7..j - 7])
  {
    TrimIsCore(LowerAscii(folder)[7..], text.isWhitespace, i - 7, j - 7);
  }

  lemma SeasonHasCore(folder: string, text: Text) returns (i: nat, j: nat)
    requires FolderSeason(Some(folder), text).Some?
    ensures 7 <= i < j <= |folder| && LowerAscii(folder)[..7] == "season "
    ensures Core(LowerAscii(folder)[7..], text.isWhitespace, i - 7, j - 7)
  {
    var a, b := CoreOf(LowerAscii(folder)[7..], text.isWhitespace);
    assert ParseU32("").None?;
    i, j := a + 7, b + 7;
  }

  lemma SeasonIsNamed(folder: string, text: Text, season: nat) returns (i: nat, j: nat)
    requires FolderSeason(Some(folder), text) == Some(season)
    ensures NamesSeason(folder, text, season, i, j)
  {
    i, j := SeasonHasCore(folder, text);
    SeasonWord(folder);
    CoreIs(folder, text, i, j);
    CoreParses(folder, season, i, j);
    SeasonOfCore(folder, text, i, j);
  }

  ghost predicate GivesSeason(folder: Option<string>, text: Text, season: nat) {
    folder.Some? && exists i: nat, j: nat :: NamesSeason(folder.value, text, season, i, j)
  }

  // Where the number of a stem starts: behind an "E", if there is one.
  ghost function NumberStart(stem: string): (start: nat)
    ensures start <= |stem|
  {
    if stem != "" && Letter(stem[0], 'e', 'E') then 1 else 0
  }

  ghost predicate GivesNumber(stem: string, episode: nat) {
    exists n: nat :: NumberFrom(stem, NumberStart(stem), episode, n)
  }

  // The season of the folder, and the positive number at the start of the stem.
  ghost predicate FolderGives(stem: string, folder: Option<string>, text: Text, season: nat, episode: nat) {
    GivesSeason(folder, text, season) && GivesNumber(stem, episode) && episode > 0
  }

  lemma SeasonIff(folder: string, text: Text, season: nat)
    ensures FolderSeason(Some(folder), text) == Some(season) <==>
            exists i: nat, j: nat :: NamesSeason(folder, text, season, i, j)
  {
    if FolderSeason(Some(folder), text) == Some(season) { var i, j := SeasonIsNamed(folder, text, season); }
    if i: nat, j: nat :| NamesSeason(folder, text, season, i, j) { NamedSeason(folder, text, season, i, j); }
  }

  ghost predicate NumberFrom(stem: string, start: nat, episode: nat, n: nat) {
    start < n <= |stem| && Holds32(stem[start..n], episode) && (n < |stem| ==> !LetterOrDigit(stem[n]))
  }

  lemma NumberFromIff(stem: string, start: nat, episode: nat)
    requires start <= |stem|
    ensures (&& NumberAt(stem, start) == Some(episode)
             && (RunEnd(stem, start) < |stem| ==> !IsAlphanumeric(stem[RunEnd(stem, start)]))) <==>
            exists n: nat :: NumberFrom(stem, start, episode, n)
  {
    var e := RunEnd(stem, start);
    DigitsOf(stem, start, e);
    if NumberAt(stem, start) == Some(episode) && (e < |stem| ==> !IsAlphanumeric(stem[e])) {
      assert NumberFrom(stem, start, episode, e);
    }
    if n: nat :| NumberFrom(stem, start, episode, n) {
      DigitsOf(stem, start, n);
      RunEndIs(stem, start, n);
    }
  }

  lemma FolderGivesIff(stem: string, folder: Option<string>, text: Text, season: nat, episode: nat)
    ensures FromFolder(stem, folder, text) == Some((season, episode)) <==>
            FolderGives(stem, folder, text, season, episode)
  {
    NumberFromIff(stem, NumberStart(stem), episode);
    if folder.Some? { SeasonIff(folder.value, text, season); }
    var e := RunEnd(stem, NumberStart(stem));
    assert FromFolder(stem, folder, text) == Some((season, episode)) <==>
        && FolderSeason(folder, text) == Some(season) && NumberAt(stem, NumberStart(stem)) == Some(episode)
        && episode > 0 && (e < |stem| ==> !IsAlphanumeric(stem[e]));
  }

  // The one marker of the stem, if it names one episode; without any marker, the folder and the start of the stem.
  ghost predicate Identifies(stem: string, folder: Option<string>, text: Text, season: nat, episode: nat) {
    || (exists p: nat, e: nat, n: nat ::
          MarkedAs(stem, p, season, episode, e, n) && forall q :: MarkedAt(stem, q) ==> q == p)
    || ((forall q :: !MarkedAt(stem, q)) && FolderGives(stem, folder, text, season, episode))
  }

  lemma MarkersAre(stem: string)
    ensures forall q: nat :: q < |stem| && Marker(stem, q) <==> MarkedAt(stem, q)
  {
    forall q: nat ensures Marker(stem, q) <==> MarkedAt(stem, q) { MarkerIff(stem, q); }
  }

  /** A file name identifies an episode exactly as its characters say. */
  lemma IdentityIff(stem: string, folder: Option<string>, text: Text, season: nat, episode: nat)
    ensures Identity(stem, folder, text) == Some((season, episode)) <==>
            Identifies(stem, folder, text, season, episode)
  {
    MarkersAre(stem);
    NothingFoundIff(stem, |stem|);
    FolderGivesIff(stem, folder, text, season, episode);
    if exists p: nat :: MarkedAt(stem, p) {
      var p: nat :| MarkedAt(stem, p);
      MarkedIdentity(stem, folder, text, season, episode, p);
    } else {
      forall p: nat, e: nat, n: nat ensures !MarkedAs(stem, p, season, episode, e, n) {
        assert MarkedUpTo(stem, p, e) ==> MarkedAt(stem, p);
      }
    }
  }

  lemma MarkedIdentity(stem: string, folder: Option<string>, text: Text, season: nat, episode: nat, p: nat)
    requires MarkedAt(stem, p)
    ensures Identity(stem, folder, text) == Some((season, episode)) <==>
            exists r: nat, e: nat, n: nat ::
              MarkedAs(stem, r, season, episode, e, n) && forall q :: MarkedAt(stem, q) ==> q == r
  {
    MarkersAre(stem);
    MarkedStemsDecideIff(stem, folder, text, p);
    if Identity(stem, folder, text) == Some((season, episode)) {
      SingleIsMarked(stem, p);
    }
    if r: nat, e: nat, n: nat :|
      MarkedAs(stem, r, season, episode, e, n) && forall q :: MarkedAt(stem, q) ==> q == r {
      MarkedIsSingle(stem, r, season, episode, e, n);
    }
  }
}

/** Episode identity in file names: the printer (`television.rs`) and the parser (`episode_path.rs`). */
module EpisodeNames {
  import opened Decimal
  import opened Options
  import opened Texts

  const U32_LIMIT: nat := 0x1_0000_0000

  predicate IsLetter(c: char, lower: char, upper: char) { c == lower || c == upper }
  predicate IsS(c: char) { IsLetter(c, 's', 'S') }
  predicate IsE(c: char) { IsLetter(c, 'e', 'E') }

  predicate IsAlphanumeric(c: char) {
    IsDigit(c) || 'a' <= c <= 'z' || 'A' <= c <= 'Z'
  }

  // ----- numbers -----

  // The end of the digit run that starts at i.
  function RunEnd(s: string, i: nat): (e: nat)
    requires i <= |s|
    ensures i <= e <= |s|
    ensures forall k :: i <= k < e ==> IsDigit(s[k])
    ensures e < |s| ==> !IsDigit(s[e])
    decreases |s| - i
  {
    if i < |s| && IsDigit(s[i]) then RunEnd(s, i + 1) else i
  }

  // A non-empty digit run below 2^32.
  function NumberAt(s: string, i: nat): Option<nat>
    requires i <= |s|
  {
    var e := RunEnd(s, i);
    if e == i || ValueOf(s[i..e]) >= U32_LIMIT then None else Some(ValueOf(s[i..e]))
  }

  lemma ValueStep(s: string, i: nat, j: nat)
    requires i <= j < |s| && forall k :: i <= k <= j ==> IsDigit(s[k])
    ensures ValueOf(s[i..j + 1]) == 10 * ValueOf(s[i..j]) + (s[j] as int - '0' as int)
  {
    assert s[i..j + 1][..j - i] == s[i..j];
  }

  lemma {:induction false} ValueGrows(s: string, i: nat, j: nat, e: nat)
    requires i <= j <= e <= |s| && forall k :: i <= k < e ==> IsDigit(s[k])
    ensures ValueOf(s[i..j]) <= ValueOf(s[i..e])
    decreases e - j
  {
    if j < e {
      ValueStep(s, i, j);
      ValueGrows(s, i, j + 1, e);
    }
  }

  lemma RunEndIs(s: string, i: nat, e: nat)
    requires i <= e <= |s| && (forall k :: i <= k < e ==> IsDigit(s[k])) && (e < |s| ==> !IsDigit(s[e]))
    ensures RunEnd(s, i) == e
  {
  }

  // `checked_mul`, then `checked_add`.
  method PushDigit(value: nat, digit: nat) returns (r: Option<nat>)
    ensures r == if value * 10 + digit < U32_LIMIT then Some(value * 10 + digit) else None
  {
    if value * 10 >= U32_LIMIT { return None; }
    var shifted := value * 10;
    if shifted + digit >= U32_LIMIT { return None; }
    return Some(shifted + digit);
  }

  /** Reads digits from the cursor on, with checked 32-bit arithmetic: succeeds exactly on a non-empty digit run whose
      value fits, whatever the order in which the checks fail. */
  method Number(s: string, start: nat) returns (number: Option<nat>, cursor: nat)
    requires start <= |s|
    ensures number.Some? <==> start < |s| && IsDigit(s[start]) && ValueOf(s[start..RunEnd(s, start)]) < U32_LIMIT
    ensures number.Some? ==> cursor == RunEnd(s, start) && number.value == ValueOf(s[start..cursor])
    ensures number == NumberAt(s, start)
  {
    cursor := start;
    var value: nat := 0;
    while cursor < |s| && IsDigit(s[cursor])
      invariant start <= cursor <= |s| && forall k :: start <= k < cursor ==> IsDigit(s[k])
      invariant value == ValueOf(s[start..cursor]) < U32_LIMIT
    {
      ValueStep(s, start, cursor);
      ghost var e := RunEnd(s, start);
      assert cursor < e;
      ValueGrows(s, start, cursor + 1, e);
      var pushed := PushDigit(value, s[cursor] as int - '0' as int);
      if pushed.None? { return None, cursor; }
      value := pushed.value;
      cursor := cursor + 1;
    }
    RunEndIs(s, start, cursor);
    number := if cursor > start then Some(value) else None;
  }

  // ----- markers -----

  // A season and episode marker starts at p, on a word boundary.
  predicate Marker(s: string, p: nat) {
    && p < |s| && IsS(s[p])
    && (p == 0 || !IsAlphanumeric(s[p - 1]))
    && NumberAt(s, p + 1).Some?
    && RunEnd(s, p + 1) < |s| && IsE(s[RunEnd(s, p + 1)])
  }

  function SeasonAt(s: string, p: nat): nat
    requires Marker(s, p)
  {
    NumberAt(s, p + 1).value
  }

  // Where the episode number of a marker starts.
  function EpisodeStart(s: string, p: nat): nat
    requires Marker(s, p)
  {
    RunEnd(s, p + 1) + 1
  }

  // Text that makes the marker name more than one episode.
  predicate MultiSuffix(s: string, i: nat) {
    i < |s| && (IsE(s[i]) || (s[i] == '-' && i + 1 < |s| && (IsDigit(s[i + 1]) || IsE(s[i + 1]))))
  }

  // The marker names exactly one positive episode.
  predicate Single(s: string, p: nat)
    requires Marker(s, p)
  {
    var i := EpisodeStart(s, p);
    NumberAt(s, i).Some? && NumberAt(s, i).value > 0 && !MultiSuffix(s, RunEnd(s, i))
  }

  function IdentityAt(s: string, p: nat): (nat, nat)
    requires Marker(s, p) && Single(s, p)
  {
    (SeasonAt(s, p), NumberAt(s, EpisodeStart(s, p)).value)
  }

  // What the scan has concluded from the positions before n.
  datatype Scan = NothingFound | Found(identity: (nat, nat)) | Rejected

  function ScanTo(s: string, n: nat): Scan
    requires n <= |s|
  {
    if n == 0 then NothingFound
    else
      var before := ScanTo(s, n - 1);
      if before.Rejected? || !Marker(s, n - 1) then before
      else if before.Found? || !Single(s, n - 1) then Rejected
      else Found(IdentityAt(s, n - 1))
  }

  lemma {:induction false} RejectionIsFinal(s: string, n: nat, m: nat)
    requires n <= m <= |s| && ScanTo(s, n).Rejected?
    ensures ScanTo(s, m).Rejected?
  {
    if n < m { RejectionIsFinal(s, n, m - 1); }
  }

  ghost predicate OnlyMarker(s: string, n: nat, p: nat) {
    Marker(s, p) && p < n && forall q :: 0 <= q < n && Marker(s, q) ==> q == p
  }

  lemma {:induction false} NothingFoundIff(s: string, n: nat)
    requires n <= |s|
    ensures ScanTo(s, n).NothingFound? <==> forall q :: 0 <= q < n ==> !Marker(s, q)
  {
    if n > 0 { NothingFoundIff(s, n - 1); }
  }

  lemma {:induction false} FoundHasSingleMarker(s: string, n: nat) returns (p: nat)
    requires n <= |s| && ScanTo(s, n).Found?
    ensures p < n && Marker(s, p) && Single(s, p)
    ensures ScanTo(s, p).NothingFound?
    ensures forall q :: p < q < n ==> !Marker(s, q)
  {
    if Marker(s, n - 1) {
      p := n - 1;
    } else {
      p := FoundHasSingleMarker(s, n - 1);
    }
  }

  lemma FoundHasOneMarker(s: string, n: nat) returns (p: nat)
    requires n <= |s| && ScanTo(s, n).Found?
    ensures OnlyMarker(s, n, p) && Single(s, p)
  {
    p := FoundHasSingleMarker(s, n);
    NothingFoundIff(s, p);
  }

  lemma {:induction false} OneMarkerIsFound(s: string, n: nat, p: nat)
    requires n <= |s| && OnlyMarker(s, n, p) && Single(s, p)
    ensures ScanTo(s, n) == Found(IdentityAt(s, p))
  {
    if p == n - 1 {
      NothingFoundIff(s, n - 1);
    } else {
      OneMarkerIsFound(s, n - 1, p);
    }
  }

  // ----- the season folder -----

  datatype Text = Text(isWhitespace: char -> bool)

  function LowerChar(c: char): char {
    if 'A' <= c <= 'Z' then (c as int + 32) as char else c
  }

  function LowerAscii(value: string): string {
    seq(|value|, i requires 0 <= i < |value| => LowerChar(value[i]))
  }

  // `str::parse::<u32>`: digits with an optional plus sign, below 2^32.
  function ParseU32(value: string): Option<nat> {
    var digits := if value != "" && value[0] == '+' then value[1..] else value;
    if RunEnd(digits, 0) == |digits| then NumberAt(digits, 0) else None
  }

  function FolderSeason(folder: Option<string>, text: Text): Option<nat> {
    if folder.None? then None
    else
      var lower := LowerAscii(folder.value);
      if |lower| >= 7 && lower[..7] == "season " then
        ParseU32(TrimEnd(TrimStart(lower[7..], text.isWhitespace), text.isWhitespace))
      else None
  }

  // In a season folder, a leading episode number identifies the episode.
  function FromFolder(stem: string, folder: Option<string>, text: Text): Option<(nat, nat)> {
    var season := FolderSeason(folder, text);
    var start := if stem != "" && IsE(stem[0]) then 1 else 0;
    var episode := NumberAt(stem, start);
    if season.None? || episode.None? || episode.value == 0 then None
    else if RunEnd(stem, start) < |stem| && IsAlphanumeric(stem[RunEnd(stem, start)]) then None
    else Some((season.value, episode.value))
  }

  // ----- the identity of a file -----

  // One single marker decides; several markers or a multiple one decide against; none leaves it to the folder.
  function Identity(stem: string, folder: Option<string>, text: Text): Option<(nat, nat)> {
    match ScanTo(stem, |stem|)
    case NothingFound => FromFolder(stem, folder, text)
    case Found(identity) => Some(identity)
    case Rejected => None
  }

  // One pass of the scan: the scan with position p examined.
  method Examine(stem: string, p: nat, found: Option<(nat, nat)>) returns (scan: Scan)
    requires p < |stem| && ScanTo(stem, p) == (if found.Some? then Found(found.value) else NothingFound)
    ensures scan == ScanTo(stem, p + 1)
  {
    var before := if found.Some? then Found(found.value) else NothingFound;
    if !IsS(stem[p]) || (p > 0 && IsAlphanumeric(stem[p - 1])) { return before; }
    var season, cursor := Number(stem, p + 1);
    if season.None? { return before; }
    if !(cursor < |stem| && IsE(stem[cursor])) { return before; }
    assert Marker(stem, p);
    var episode, next := Number(stem, cursor + 1);
    if episode.None? || episode.value == 0 || found.Some? || MultiSuffix(stem, next) { return Rejected; }
    return Found((season.value, episode.value));
  }

  /** Scans the stem for markers, then looks at the folder. */
  method EpisodeNumber(stem: string, folder: Option<string>, text: Text) returns (r: Option<(nat, nat)>)
    ensures r == Identity(stem, folder, text)
  {
    var found: Option<(nat, nat)> := None;
    for start := 0 to |stem|
      invariant ScanTo(stem, start) == if found.Some? then Found(found.value) else NothingFound
    {
      var scan := Examine(stem, start, found);
      if scan.Rejected? {
        RejectionIsFinal(stem, start + 1, |stem|);
        return None;
      }
      if scan.Found? { found := Some(scan.identity); }
    }
    if found.Some? { return found; }
    var season := FolderSeason(folder, text);
    if season.None? { return None; }
    var episode, cursor := Number(stem, if stem != "" && IsE(stem[0]) then 1 else 0);
    if episode.None? || episode.value == 0 { return None; }
    if cursor < |stem| && IsAlphanumeric(stem[cursor]) { return None; }
    return Some((season.value, episode.value));
  }

  /** A stem with a marker identifies an episode exactly when it has one marker, and that one is single. */
  lemma MarkedStemsDecideIff(stem: string, folder: Option<string>, text: Text, p: nat)
    requires Marker(stem, p)
    ensures Identity(stem, folder, text).Some? <==> OnlyMarker(stem, |stem|, p) && Single(stem, p)
    ensures Identity(stem, folder, text).Some? ==> Identity(stem, folder, text) == Some(IdentityAt(stem, p))
  {
    if OnlyMarker(stem, |stem|, p) && Single(stem, p) { OneMarkerIsFound(stem, |stem|, p); }
    NothingFoundIff(stem, |stem|);
    if ScanTo(stem, |stem|).Found? {
      var q := FoundHasOneMarker(stem, |stem|);
      assert q == p;
    }
  }

  // ----- the printer -----

  // `{:02}`
  function Padded(n: nat): (s: string)
    ensures |s| >= 2 && forall i :: 0 <= i < |s| ==> IsDigit(s[i])
  {
    if n < 10 then "0" + Numeral(n) else Numeral(n / 10) + [Digit(n % 10)]
  }

  // `{:04}`
  function Padded4(n: nat): (s: string)
    ensures s != "" && forall i :: 0 <= i < |s| ==> IsDigit(s[i])
  {
    if n < 1000 then "0" + (if n < 100 then "0" + Padded(n) else Numeral(n)) else Numeral(n)
  }

  // The stem of an aired or DVD episode.
  function EpisodeStem(season: nat, episode: nat): string {
    "S" + Padded(season) + "E" + Padded(episode)
  }

  lemma PaddedRoundTrip(n: nat)
    ensures ValueOf(Padded(n)) == n
  {
    NumeralRoundTrip(n);
    if n < 10 {
      var s := Padded(n);
      assert s[..1] == "0" && s[..1][..0] == "";
      assert ValueOf(s[..1]) == 0;
    }
  }

  lemma StemLayout(season: nat, episode: nat)
    ensures var s, n := EpisodeStem(season, episode), 1 + |Padded(season)|;
            && s[0] == 'S' && n < |s| && s[n] == 'E'
            && s[1..n] == Padded(season) && s[n + 1..|s|] == Padded(episode)
  {
  }

  lemma StemNumbers(season: nat, episode: nat)
    requires season < U32_LIMIT && episode < U32_LIMIT
    ensures var s, n := EpisodeStem(season, episode), 1 + |Padded(season)|;
            && n < |s| && RunEnd(s, 1) == n && NumberAt(s, 1) == Some(season)
            && RunEnd(s, n + 1) == |s| && NumberAt(s, n + 1) == Some(episode)
            && forall k :: 1 <= k < |s| && k != n ==> IsDigit(s[k])
  {
    StemLayout(season, episode);
    PaddedRoundTrip(season);
    PaddedRoundTrip(episode);
    var s, n := EpisodeStem(season, episode), 1 + |Padded(season)|;
    forall k | 1 <= k < n ensures IsDigit(s[k]) { assert s[k] == s[1..n][k - 1]; }
    forall k | n + 1 <= k < |s| ensures IsDigit(s[k]) { assert s[k] == s[n + 1..|s|][k - n - 1]; }
    RunEndIs(s, 1, n);
    RunEndIs(s, n + 1, |s|);
  }

  /** The printed stem of every 32-bit season and positive 32-bit episode parses back to that pair. */
  lemma StemRoundTrip(season: nat, episode: nat, folder: Option<string>, text: Text)
    requires season < U32_LIMIT && 0 < episode < U32_LIMIT
    ensures Identity(EpisodeStem(season, episode), folder, text) == Some((season, episode))
  {
    var s, n := EpisodeStem(season, episode), 1 + |Padded(season)|;
    StemLayout(season, episode);
    StemNumbers(season, episode);
    assert Marker(s, 0) && Single(s, 0);
    forall q | 0 <= q < |s| && Marker(s, q) ensures q == 0 {
      assert IsS(s[q]);
    }
    MarkedStemsDecideIff(s, folder, text, 0);
  }

  /** Distinct episodes print distinct stems. */
  lemma StemsAreInjective(season: nat, episode: nat, otherSeason: nat, otherEpisode: nat)
    requires season < U32_LIMIT && 0 < episode < U32_LIMIT
    requires otherSeason < U32_LIMIT && 0 < otherEpisode < U32_LIMIT
    requires EpisodeStem(season, episode) == EpisodeStem(otherSeason, otherEpisode)
    ensures season == otherSeason && episode == otherEpisode
  {
    StemRoundTrip(season, episode, None, Text(_ => false));
    StemRoundTrip(otherSeason, otherEpisode, None, Text(_ => false));
  }

  // ----- absolute episodes, which rely on their season folder -----

  function AbsoluteStem(episode: nat): string {
    "E" + Padded4(episode)
  }

  function SeasonFolder(season: nat): string {
    "Season " + Padded(season)
  }

  lemma LeadingZero(s: string)
    requires forall i :: 0 <= i < |s| ==> IsDigit(s[i])
    ensures ValueOf("0" + s) == ValueOf(s)
    decreases |s|
  {
    if s != "" {
      LeadingZero(s[..|s| - 1]);
      assert ("0" + s)[..|s|] == "0" + s[..|s| - 1];
    } else {
      assert ("0" + s)[..0] == "" && "0" + s == "0";
    }
  }

  lemma Padded4RoundTrip(n: nat)
    ensures ValueOf(Padded4(n)) == n
  {
    NumeralRoundTrip(n);
    PaddedRoundTrip(n);
    if n < 100 {
      LeadingZero(Padded(n));
      LeadingZero("0" + Padded(n));
    } else if n < 1000 {
      LeadingZero(Numeral(n));
    }
  }

  lemma FolderRoundTrip(season: nat, text: Text)
    requires season < U32_LIMIT && forall c :: IsDigit(c) ==> !text.isWhitespace(c)
    ensures FolderSeason(Some(SeasonFolder(season)), text) == Some(season)
  {
    var d := Padded(season);
    var folder := SeasonFolder(season);
    var lower := LowerAscii(folder);
    assert folder[..7] == "Season " && folder[7..] == d;
    assert lower[..7] == "season ";
    assert lower[7..] == d;
    assert IsDigit(d[0]) && IsDigit(d[|d| - 1]);
    RunEndIs(d, 0, |d|);
    assert d[0..|d|] == d;
    PaddedRoundTrip(season);
  }

  lemma NoMarkerInAbsolute(episode: nat)
    ensures forall q :: 0 <= q < |AbsoluteStem(episode)| ==> !Marker(AbsoluteStem(episode), q)
  {
    var s := AbsoluteStem(episode);
    forall q | 0 <= q < |s| ensures !Marker(s, q) {
      if q > 0 { assert s[q] == Padded4(episode)[q - 1]; }
    }
  }

  lemma AbsoluteNumber(episode: nat)
    requires episode < U32_LIMIT
    ensures var s := AbsoluteStem(episode);
            s[0] == 'E' && RunEnd(s, 1) == |s| && NumberAt(s, 1) == Some(episode)
  {
    var s, d := AbsoluteStem(episode), Padded4(episode);
    forall k | 1 <= k < |s| ensures IsDigit(s[k]) { assert s[k] == d[k - 1]; }
    RunEndIs(s, 1, |s|);
    assert s[1..|s|] == d;
    Padded4RoundTrip(episode);
  }

  /** The printed stem of an absolute episode, inside its printed season folder, parses back to
      the season number and the episode number. */
  lemma AbsoluteRoundTrip(season: nat, episode: nat, text: Text)
    requires season < U32_LIMIT && 0 < episode < U32_LIMIT
    requires forall c :: IsDigit(c) ==> !text.isWhitespace(c)
    ensures Identity(AbsoluteStem(episode), Some(SeasonFolder(season)), text) == Some((season, episode))
  {
    NoMarkerInAbsolute(episode);
    NothingFoundIff(AbsoluteStem(episode), |AbsoluteStem(episode)|);
    FolderRoundTrip(season, text);
    AbsoluteNumber(episode);
  }

  /** An identified file keeps its identity inside the printed folder of its season. */
  lemma IdentityInItsSeason(stem: string, folder: Option<string>, text: Text)
    requires Identity(stem, folder, text).Some? && forall c :: IsDigit(c) ==> !text.isWhitespace(c)
    ensures var identity := Identity(stem, folder, text);
            Identity(stem, Some(SeasonFolder(identity.value.0)), text) == identity
  {
    if ScanTo(stem, |stem|).NothingFound? {
      FolderRoundTrip(Identity(stem, folder, text).value.0, text);
    }
  }

  lemma FolderOfSeasonOne()
    ensures SeasonFolder(1) == "Season 01"
  {
    assert Padded(1) == "01";
  }

  // A numbered file, outside and inside a season folder.
  lemma NumberedInASeason(text: Text)
    requires forall c :: IsDigit(c) ==> !text.isWhitespace(c)
    ensures Identity("03", None, text) == None
    ensures Identity("03", Some("Season 01"), text) == Some((1, 3))
  {
    NothingFoundIff("03", 2);
    FolderRoundTrip(1, text);
    PaddedRoundTrip(3);
    FolderOfSeasonOne();
    assert Padded(3) == "03";
    RunEndIs("03", 0, 2);
    assert "03"[0..2] == "03";
  }
}

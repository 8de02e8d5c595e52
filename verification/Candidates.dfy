/** The candidate pipeline: rank (`matching/mod.rs`), select and group (`orchestrator.rs`). */
module Candidates {
  import opened Media
  import opened MergePolicies
  import opened Options
  import opened Provenance
  import opened Retention
  import opened Sequences
  import opened StableSort

  datatype Candidate = Candidate(
    kind: MediaKind,
    provider: ProviderId,
    externalId: ExternalId,
    title: string,
    year: Option<nat>,
    sequence: Option<string>)

  datatype MatchQuery = MatchQuery(
    kind: MediaKind,
    title: string,
    localizedTitles: seq<LocalizedEntry>,
    aliases: seq<string>,
    externalIds: seq<ExternalId>,
    year: Option<nat>,
    sequence: Option<string>)

  datatype MatchClass = ProviderNative | ExactTitle | ExactTitleYear | ExactExternalId

  // The derived order of match classes.
  function Level(c: MatchClass): nat {
    match c case ProviderNative => 0 case ExactTitle => 1 case ExactTitleYear => 2 case ExactExternalId => 3
  }

  datatype MatchKey = MatchKey(matchClass: MatchClass, exactSequence: bool)

  // The derived order of match keys: class first, then sequence.
  predicate KeyLess(a: MatchKey, b: MatchKey) {
    || Level(a.matchClass) < Level(b.matchClass)
    || (a.matchClass == b.matchClass && !a.exactSequence && b.exactSequence)
  }

  function Height(k: MatchKey): int {
    2 * Level(k.matchClass) + if k.exactSequence then 1 else 0
  }

  lemma HeightIsOrder(a: MatchKey, b: MatchKey)
    ensures KeyLess(a, b) <==> Height(a) < Height(b)
    ensures Height(a) == Height(b) ==> a == b
  {
  }

  // ----- rank -----

  function IsExactTitle(query: MatchQuery, title: string, unicode: Unicode): bool {
    var wanted := unicode.Normalize(title);
    || unicode.Normalize(query.title) == wanted
    || (exists i :: 0 <= i < |query.localizedTitles| && unicode.Normalize(query.localizedTitles[i].text) == wanted)
    || (exists i :: 0 <= i < |query.aliases| && unicode.Normalize(query.aliases[i]) == wanted)
  }

  function KeyOf(query: MatchQuery, unicode: Unicode, c: Candidate): MatchKey {
    var matchClass :=
      if c.externalId in query.externalIds then ExactExternalId
      else if IsExactTitle(query, c.title, unicode) && query.year.Some? && query.year == c.year then ExactTitleYear
      else if IsExactTitle(query, c.title, unicode) then ExactTitle
      else ProviderNative;
    MatchKey(matchClass, query.sequence.Some? && c.sequence.Some? &&
                     unicode.Normalize(query.sequence.value) == unicode.Normalize(c.sequence.value))
  }

  datatype RankResult = Ranked(candidates: seq<Candidate>) | KindMismatch(found: MediaKind)

  function Descent(query: MatchQuery, unicode: Unicode): Candidate -> int {
    (c: Candidate) => -Height(KeyOf(query, unicode, c))
  }

  function FirstMismatch(query: MatchQuery, candidates: seq<Candidate>): Option<MediaKind> {
    if candidates == [] then None
    else if candidates[0].kind != query.kind then Some(candidates[0].kind)
    else FirstMismatch(query, candidates[1..])
  }

  /** Orders candidates by descending match key, keeping the arrival order of ties. */
  function Rank(query: MatchQuery, unicode: Unicode, candidates: seq<Candidate>): RankResult {
    match FirstMismatch(query, candidates)
    case Some(found) => KindMismatch(found)
    case None => Ranked(SortByKey(candidates, Descent(query, unicode)))
  }

  lemma {:induction false} RankSucceedsIff(query: MatchQuery, unicode: Unicode, candidates: seq<Candidate>)
    ensures Rank(query, unicode, candidates).Ranked? <==>
            forall i :: 0 <= i < |candidates| ==> candidates[i].kind == query.kind
  {
    if candidates != [] {
      RankSucceedsIff(query, unicode, candidates[1..]);
      assert forall i :: 0 < i < |candidates| ==> candidates[1..][i - 1] == candidates[i];
    }
  }

  /** Ranking is a stable, descending permutation, and the only one. */
  lemma RankIsStable(query: MatchQuery, unicode: Unicode, candidates: seq<Candidate>)
    requires Rank(query, unicode, candidates).Ranked?
    ensures var ranked := Rank(query, unicode, candidates).candidates;
            && multiset(ranked) == multiset(candidates)
            && (forall i, j :: 0 <= i < j < |ranked| ==>
                !KeyLess(KeyOf(query, unicode, ranked[i]), KeyOf(query, unicode, ranked[j])))
            && (forall other :: StablySorts(candidates, other, Descent(query, unicode)) ==> other == ranked)
  {
    var key := Descent(query, unicode);
    var ranked := SortByKey(candidates, key);
    SortByKeyIsStable(candidates, key);
    forall i, j | 0 <= i < j < |ranked|
      ensures !KeyLess(KeyOf(query, unicode, ranked[i]), KeyOf(query, unicode, ranked[j]))
    {
      assert key(ranked[i]) <= key(ranked[j]);
      HeightIsOrder(KeyOf(query, unicode, ranked[i]), KeyOf(query, unicode, ranked[j]));
    }
    forall other | StablySorts(candidates, other, key) ensures other == ranked {
      StableSortIsUnique(other, ranked, key);
    }
  }

  lemma {:induction false} FirstWithKey<T>(s: seq<T>, key: T -> int, k: int) returns (i: nat)
    requires WithKey(s, key, k) != []
    ensures i < |s| && s[i] == WithKey(s, key, k)[0] && key(s[i]) == k
    ensures forall j :: 0 <= j < i ==> key(s[j]) != k
  {
    if key(s[0]) == k {
      i := 0;
    } else {
      var rest := FirstWithKey(s[1..], key, k);
      i := rest + 1;
      assert forall j :: 0 < j < i ==> s[j] == s[1..][j - 1];
    }
  }

  /** The selected candidate has a best key, and is the first to arrive with that key. */
  lemma SelectedIsFirstBest(query: MatchQuery, unicode: Unicode, candidates: seq<Candidate>) returns (best: nat)
    requires Rank(query, unicode, candidates).Ranked? && candidates != []
    ensures var ranked := Rank(query, unicode, candidates).candidates;
            best < |candidates| && ranked != [] && ranked[0] == candidates[best]
    ensures forall c :: c in candidates ==> !KeyLess(KeyOf(query, unicode, candidates[best]), KeyOf(query, unicode, c))
    ensures forall j :: 0 <= j < best ==>
              KeyOf(query, unicode, candidates[j]) != KeyOf(query, unicode, candidates[best])
  {
    var key := Descent(query, unicode);
    var ranked := SortByKey(candidates, key);
    SortByKeyIsStable(candidates, key);
    assert |multiset(ranked)| == |multiset(candidates)|;
    WithKeyHead(ranked, key);
    best := FirstWithKey(candidates, key, key(ranked[0]));
    forall c | c in candidates ensures !KeyLess(KeyOf(query, unicode, candidates[best]), KeyOf(query, unicode, c)) {
      assert c in multiset(ranked);
      var i :| 0 <= i < |ranked| && ranked[i] == c;
      assert key(ranked[0]) <= key(ranked[i]);
      HeightIsOrder(KeyOf(query, unicode, candidates[best]), KeyOf(query, unicode, c));
    }
  }

  // ----- select -----

  datatype Selection = Selected(candidates: seq<Candidate>) | OutOfBounds(index: nat, length: nat)

  /** Moves the chosen candidate to the front. */
  method SelectCandidates(candidates: seq<Candidate>, index: nat) returns (r: Selection)
    ensures r.Selected? <==> index < |candidates|
    ensures r.OutOfBounds? ==> r == OutOfBounds(index, |candidates|)
    ensures r.Selected? ==> r.candidates == [candidates[index]] + (candidates[..index] + candidates[index + 1..])
    ensures r.Selected? ==> multiset(r.candidates) == multiset(candidates)
  {
    if index >= |candidates| { return OutOfBounds(index, |candidates|); }
    var remaining := candidates;
    var selected := remaining[index];
    remaining := remaining[..index] + remaining[index + 1..];
    remaining := [selected] + remaining;
    assert candidates == candidates[..index] + [candidates[index]] + candidates[index + 1..];
    return Selected(remaining);
  }

  // ----- group -----

  function SameFacts(a: Candidate, b: Candidate, unicode: Unicode): bool {
    var title := unicode.Normalize(a.title);
    && title != ""
    && title == unicode.Normalize(b.title)
    && (a.year.None? || b.year.None? || a.year == b.year)
    && (a.sequence.None? || b.sequence.None? || a.sequence == b.sequence)
  }

  function SameWork(a: Candidate, b: Candidate, unicode: Unicode): bool {
    if a.externalId == b.externalId then true
    else if a.externalId.namespace == b.externalId.namespace then false
    else SameFacts(a, b, unicode)
  }

  // Some id of the list names another value in the namespace of `id`.
  predicate Contradicts(ids: seq<ExternalId>, id: ExternalId) {
    exists i :: 0 <= i < |ids| && ids[i].namespace == id.namespace && ids[i] != id
  }

  // Query ids describe the local source, or a primary they name; not an unrelated remote choice.
  function AnchoredIds(primary: Candidate, ids: seq<ExternalId>): seq<ExternalId> {
    if primary.provider == "local" || primary.externalId in ids then ids else []
  }

  predicate SameLocalMovie(primary: Candidate, c: Candidate, unicode: Unicode) {
    primary.kind == Movies && primary.provider == "local" && c.provider == primary.provider &&
      SameFacts(primary, c, unicode)
  }

  predicate Compatible(primary: Candidate, ids: seq<ExternalId>, c: Candidate, unicode: Unicode) {
    var local := SameLocalMovie(primary, c, unicode);
    && (local || c.provider != primary.provider)
    && c.kind == primary.kind
    && !Contradicts(AnchoredIds(primary, ids), c.externalId)
    && (local || c.externalId in AnchoredIds(primary, ids) || SameWork(primary, c, unicode))
  }

  function IsCompatible(primary: Candidate, ids: seq<ExternalId>, unicode: Unicode): Candidate -> bool {
    (c: Candidate) => Compatible(primary, ids, c, unicode)
  }

  function OfProvider(provider: ProviderId): Candidate -> bool {
    (c: Candidate) => c.provider == provider
  }

  // A compatible candidate joins if it is the same local movie or alone among its provider's.
  function Joins(primary: Candidate, matches: seq<Candidate>, unicode: Unicode): Candidate -> bool {
    (c: Candidate) => SameLocalMovie(primary, c, unicode) || |Filtered(matches, OfProvider(c.provider))| == 1
  }

  // The group around the first candidate.
  function Group(candidates: seq<Candidate>, ids: seq<ExternalId>, unicode: Unicode): seq<Candidate> {
    if candidates == [] then []
    else
      var primary := candidates[0];
      if Contradicts(ids, primary.externalId) then [primary]
      else
        var matches := Filtered(candidates[1..], IsCompatible(primary, ids, unicode));
        [primary] + Filtered(matches, Joins(primary, matches, unicode))
  }

  // The loop over the compatible candidates.
  method Joining(primary: Candidate, matches: seq<Candidate>, unicode: Unicode) returns (selected: seq<Candidate>)
    ensures selected == Filtered(matches, Joins(primary, matches, unicode))
  {
    selected := [];
    ghost var joins := Joins(primary, matches, unicode);
    for i := 0 to |matches|
      invariant selected == Filtered(matches[..i], joins)
    {
      var candidate := matches[i];
      FilteredStep(matches, i, joins);
      var same := Filtered(matches, OfProvider(candidate.provider));
      if SameLocalMovie(primary, candidate, unicode) || |same| == 1 {
        selected := selected + [candidate];
      }
    }
    assert matches[..|matches|] == matches;
  }

  /** Collects the compatible candidates, then keeps those that join. */
  method CandidateGroup(candidates: seq<Candidate>, ids: seq<ExternalId>, unicode: Unicode)
    returns (selected: seq<Candidate>)
    ensures selected == Group(candidates, ids, unicode)
  {
    if candidates == [] { return []; }
    var primary := candidates[0];
    if Contradicts(ids, primary.externalId) { return [primary]; }
    var matches := Filtered(candidates[1..], IsCompatible(primary, ids, unicode));
    var joined := Joining(primary, matches, unicode);
    selected := [primary] + joined;
  }

  /** A candidate besides the primary is in the group exactly when it is compatible and either the
      same local movie or the only compatible candidate of its provider. */
  lemma GroupMembersIff(candidates: seq<Candidate>, ids: seq<ExternalId>, unicode: Unicode, c: Candidate)
    requires candidates != [] && !Contradicts(ids, candidates[0].externalId)
    ensures var primary, rest := candidates[0], candidates[1..];
            var matches := Filtered(rest, IsCompatible(primary, ids, unicode));
            && Group(candidates, ids, unicode)[0] == primary
            && (c in Group(candidates, ids, unicode)[1..] <==>
                c in rest && Compatible(primary, ids, c, unicode) &&
                (SameLocalMovie(primary, c, unicode) || |Filtered(matches, OfProvider(c.provider))| == 1))
  {
    var matches := Filtered(candidates[1..], IsCompatible(candidates[0], ids, unicode));
    FilteredIff(candidates[1..], IsCompatible(candidates[0], ids, unicode), c);
    FilteredIff(matches, Joins(candidates[0], matches, unicode), c);
  }

  lemma OneJoins(primary: Candidate, matches: seq<Candidate>, unicode: Unicode, provider: ProviderId)
    requires provider != primary.provider
    ensures |Filtered(Filtered(matches, Joins(primary, matches, unicode)), OfProvider(provider))| <= 1
  {
    var joined := Filtered(matches, Joins(primary, matches, unicode));
    if Filtered(joined, OfProvider(provider)) != [] {
      var x := Filtered(joined, OfProvider(provider))[0];
      FilteredIff(joined, OfProvider(provider), x);
      FilteredIff(matches, Joins(primary, matches, unicode), x);
      assert |Filtered(matches, OfProvider(provider))| == 1;
      FilteredShrinks(matches, Joins(primary, matches, unicode), OfProvider(provider));
    }
  }

  /** The group holds at most one candidate of every provider other than the primary's. */
  lemma OnePerOtherProvider(candidates: seq<Candidate>, ids: seq<ExternalId>, unicode: Unicode, provider: ProviderId)
    requires candidates != [] && provider != candidates[0].provider
    ensures |Filtered(Group(candidates, ids, unicode), OfProvider(provider))| <= 1
  {
    var primary := candidates[0];
    FilteredNone([primary], OfProvider(provider));
    if !Contradicts(ids, primary.externalId) {
      var matches := Filtered(candidates[1..], IsCompatible(primary, ids, unicode));
      var joined := Filtered(matches, Joins(primary, matches, unicode));
      FilteredOfConcatenation([primary], joined, OfProvider(provider));
      assert [] + Filtered(joined, OfProvider(provider)) == Filtered(joined, OfProvider(provider));
      OneJoins(primary, matches, unicode, provider);
    }
  }

  /** Permuting the other candidates only permutes the group. */
  lemma GroupOfPermutation(primary: Candidate, rest: seq<Candidate>, other: seq<Candidate>, ids: seq<ExternalId>,
                           unicode: Unicode)
    requires multiset(rest) == multiset(other)
    ensures multiset(Group([primary] + rest, ids, unicode)) == multiset(Group([primary] + other, ids, unicode))
  {
    assert ([primary] + rest)[1..] == rest && ([primary] + other)[1..] == other;
    if !Contradicts(ids, primary.externalId) {
      var p := IsCompatible(primary, ids, unicode);
      var a, b := Filtered(rest, p), Filtered(other, p);
      FilteredOfPermutation(rest, other, p);
      forall c ensures Joins(primary, a, unicode)(c) == Joins(primary, b, unicode)(c) {
        FilteredOfPermutation(a, b, OfProvider(c.provider));
      }
      SameFilter(a, Joins(primary, a, unicode), Joins(primary, b, unicode));
      FilteredOfPermutation(a, b, Joins(primary, b, unicode));
    }
  }

  lemma {:induction false} SameFilter<T(!new)>(s: seq<T>, p: T -> bool, q: T -> bool)
    requires forall x :: p(x) == q(x)
    ensures Filtered(s, p) == Filtered(s, q)
  {
    if s != [] { SameFilter(s[..|s| - 1], p, q); }
  }
}

/** Ranking and grouping of candidates, said of the fields of the query and of the candidates. */
module MatchFacts {
  import opened Candidates
  import opened Media
  import opened MergePolicies
  import opened Options
  import opened OrderedSets
  import opened Precedence
  import opened Provenance
  import opened Sequences
  import StableSort

  // ----- ranking -----

  // The title is the query's, one of its localized titles or one of its aliases, in normalized form.
  ghost predicate HasTitle(query: MatchQuery, c: Candidate, unicode: Unicode) {
    || unicode.Normalize(c.title) == unicode.Normalize(query.title)
    || (exists e <- query.localizedTitles :: unicode.Normalize(e.text) == unicode.Normalize(c.title))
    || (exists a <- query.aliases :: unicode.Normalize(a) == unicode.Normalize(c.title))
  }

  // The query gives a year, and it is the candidate's.
  ghost predicate HasYear(query: MatchQuery, c: Candidate) {
    query.year.Some? && c.year.Some? && c.year.value == query.year.value
  }

  ghost predicate HasSequence(query: MatchQuery, c: Candidate, unicode: Unicode) {
    query.sequence.Some? && c.sequence.Some? &&
    unicode.Normalize(c.sequence.value) == unicode.Normalize(query.sequence.value)
  }

  // Candidate a is a better match than b. An identifier of the query outweighs everything; then a title with the year
  // of the query; then a title; within each of these groups, the sequence.
  ghost predicate Better(query: MatchQuery, unicode: Unicode, a: Candidate, b: Candidate) {
    var named, alsoNamed := a.externalId in query.externalIds, b.externalId in query.externalIds;
    var titled, alsoTitled := HasTitle(query, a, unicode), HasTitle(query, b, unicode);
    var dated, alsoDated := titled && HasYear(query, a), alsoTitled && HasYear(query, b);
    || (named && !alsoNamed)
    || (!named && !alsoNamed && dated && !alsoDated)
    || (!named && !alsoNamed && !dated && !alsoDated && titled && !alsoTitled)
    || (named == alsoNamed && (named || (dated == alsoDated && titled == alsoTitled)) &&
        HasSequence(query, a, unicode) && !HasSequence(query, b, unicode))
  }

  lemma TitleIff(query: MatchQuery, c: Candidate, unicode: Unicode)
    ensures IsExactTitle(query, c.title, unicode) <==> HasTitle(query, c, unicode)
  {
    if exists e <- query.localizedTitles :: unicode.Normalize(e.text) == unicode.Normalize(c.title) {
      var e :| e in query.localizedTitles && unicode.Normalize(e.text) == unicode.Normalize(c.title);
      var i :| 0 <= i < |query.localizedTitles| && query.localizedTitles[i] == e;
    }
    if exists a <- query.aliases :: unicode.Normalize(a) == unicode.Normalize(c.title) {
      var a :| a in query.aliases && unicode.Normalize(a) == unicode.Normalize(c.title);
      var i :| 0 <= i < |query.aliases| && query.aliases[i] == a;
    }
  }

  lemma BetterIff(query: MatchQuery, unicode: Unicode, a: Candidate, b: Candidate)
    ensures Better(query, unicode, a, b) <==> Descent(query, unicode)(a) < Descent(query, unicode)(b)
  {
    TitleIff(query, a, unicode);
    TitleIff(query, b, unicode);
  }

  // The candidates in these positions are no worse than later ones, and tie in the order of arrival.
  ghost predicate Ranks(query: MatchQuery, unicode: Unicode, candidates: seq<Candidate>, ranked: seq<Candidate>,
                        positions: seq<nat>)
  {
    && |ranked| == |positions| == |candidates|
    && (forall n :: 0 <= n < |positions| ==> positions[n] < |candidates| && ranked[n] == candidates[positions[n]])
    && (forall k :: 0 <= k < |candidates| ==> k in positions)
    && (forall m, n :: 0 <= m < n < |ranked| ==>
          || Better(query, unicode, ranked[m], ranked[n])
          || (!Better(query, unicode, ranked[n], ranked[m]) && positions[m] < positions[n]))
  }

  function At(candidates: seq<Candidate>): nat -> Option<Candidate> {
    (k: nat) => if k < |candidates| then Some(candidates[k]) else None
  }

  function DescentAt(query: MatchQuery, unicode: Unicode, candidates: seq<Candidate>): nat -> int {
    (k: nat) => if k < |candidates| then Descent(query, unicode)(candidates[k]) else 0
  }

  lemma {:induction false} ChosenAll(candidates: seq<Candidate>, s: seq<nat>)
    requires forall i :: 0 <= i < |s| ==> s[i] < |candidates|
    ensures |Chosen(s, At(candidates))| == |s|
    ensures forall i :: 0 <= i < |s| ==> Chosen(s, At(candidates))[i] == candidates[s[i]]
  {
    if s != [] {
      ChosenAll(candidates, s[1..]);
      ChosenStep(s[0], s[1..], At(candidates));
      assert s == [s[0]] + s[1..];
    }
  }

  ghost function ThenArrival(query: MatchQuery, unicode: Unicode, candidates: seq<Candidate>): (nat, nat) -> bool {
    (k: nat, l: nat) =>
      DescentAt(query, unicode, candidates)(k) < DescentAt(query, unicode, candidates)(l) ||
      (DescentAt(query, unicode, candidates)(k) == DescentAt(query, unicode, candidates)(l) && k < l)
  }

  // The positions of the candidates, sorted like the candidates.
  lemma SortedPositions(query: MatchQuery, unicode: Unicode, candidates: seq<Candidate>) returns (positions: seq<nat>)
    ensures forall k: nat :: k in positions <==> k < |candidates|
    ensures StrictlyAscending(positions, ThenArrival(query, unicode, candidates))
    ensures Chosen(positions, At(candidates)) == StableSort.SortByKey(candidates, Descent(query, unicode))
  {
    var all, key := Upto(|candidates|), DescentAt(query, unicode, candidates);
    positions := StableSort.SortByKey(all, key);
    NumbersAreOrdered();
    SortAscends(all, key, NumberLess, ThenArrival(query, unicode, candidates));
    StableSort.SortByKeyIsStable(all, key);
    forall k: nat ensures k in positions <==> k < |candidates| {
      SameMembers(positions, all, k);
      if k < |candidates| { assert all[k] == k; }
    }
    ChosenAll(candidates, all);
    assert Chosen(all, At(candidates)) == candidates;
    SortCommutes(all, At(candidates), key, Descent(query, unicode));
  }

  /** The ranked list is the candidates from the best match to the worst, ties as they arrived. */
  lemma RankFollowsTheFacts(query: MatchQuery, unicode: Unicode, candidates: seq<Candidate>)
    returns (positions: seq<nat>)
    requires Rank(query, unicode, candidates).Ranked?
    ensures Ranks(query, unicode, candidates, Rank(query, unicode, candidates).candidates, positions)
  {
    positions := SortedPositions(query, unicode, candidates);
    var ranked := Rank(query, unicode, candidates).candidates;
    assert forall n :: 0 <= n < |positions| ==> positions[n] in positions;
    ChosenAll(candidates, positions);
    StableSort.SortByKeyIsStable(candidates, Descent(query, unicode));
    assert |multiset(ranked)| == |multiset(candidates)|;
    forall m, n | 0 <= m < n < |ranked|
      ensures || Better(query, unicode, ranked[m], ranked[n])
              || (!Better(query, unicode, ranked[n], ranked[m]) && positions[m] < positions[n])
    {
      assert ThenArrival(query, unicode, candidates)(positions[m], positions[n]);
      InOrder(query, unicode, candidates, positions[m], positions[n]);
    }
  }

  lemma InOrder(query: MatchQuery, unicode: Unicode, candidates: seq<Candidate>, k: nat, l: nat)
    requires k < |candidates| && l < |candidates| && ThenArrival(query, unicode, candidates)(k, l)
    ensures || Better(query, unicode, candidates[k], candidates[l])
            || (!Better(query, unicode, candidates[l], candidates[k]) && k < l)
  {
    var key := Descent(query, unicode);
    var at := DescentAt(query, unicode, candidates);
    assert at(k) == key(candidates[k]) && at(l) == key(candidates[l]);
    assert at(k) < at(l) || (at(k) == at(l) && k < l);
    BetterIff(query, unicode, candidates[k], candidates[l]);
    BetterIff(query, unicode, candidates[l], candidates[k]);
  }

  /** The candidate that is selected: nothing is a better match, and everything that arrived before is a worse one. */
  lemma BestIsSelected(query: MatchQuery, unicode: Unicode, candidates: seq<Candidate>) returns (best: nat)
    requires Rank(query, unicode, candidates).Ranked? && candidates != []
    ensures best < |candidates| && Rank(query, unicode, candidates).candidates != []
    ensures Rank(query, unicode, candidates).candidates[0] == candidates[best]
    ensures forall c <- candidates :: !Better(query, unicode, c, candidates[best])
    ensures forall k :: 0 <= k < best ==> Better(query, unicode, candidates[best], candidates[k])
  {
    var positions := RankFollowsTheFacts(query, unicode, candidates);
    best := positions[0];
    forall k | 0 <= k < |candidates|
      ensures !Better(query, unicode, candidates[k], candidates[best])
      ensures k < best ==> Better(query, unicode, candidates[best], candidates[k])
    {
      assert k in positions;
      var n :| 0 <= n < |positions| && positions[n] == k;
    }
  }

  /** A candidate of another kind makes the ranking fail, and the first such candidate is reported. */
  lemma {:induction false} FirstOtherKind(query: MatchQuery, candidates: seq<Candidate>, unicode: Unicode, k: nat)
    requires k < |candidates| && candidates[k].kind != query.kind
    requires forall j :: 0 <= j < k ==> candidates[j].kind == query.kind
    ensures Rank(query, unicode, candidates) == KindMismatch(candidates[k].kind)
  {
    FirstMismatchAt(query, candidates, k);
  }

  lemma {:induction false} FirstMismatchAt(query: MatchQuery, candidates: seq<Candidate>, k: nat)
    requires k < |candidates| && candidates[k].kind != query.kind
    requires forall j :: 0 <= j < k ==> candidates[j].kind == query.kind
    ensures FirstMismatch(query, candidates) == Some(candidates[k].kind)
  {
    if k > 0 { FirstMismatchAt(query, candidates[1..], k - 1); }
  }

  // ----- grouping -----

  // The same non-empty title in normalized form, and no year or sequence that differs.
  ghost predicate Agree(a: Candidate, b: Candidate, unicode: Unicode) {
    && unicode.Normalize(a.title) != "" && unicode.Normalize(a.title) == unicode.Normalize(b.title)
    && (a.year.Some? && b.year.Some? ==> a.year.value == b.year.value)
    && (a.sequence.Some? && b.sequence.Some? ==> a.sequence.value == b.sequence.value)
  }

  // Two files of one movie in the local library.
  ghost predicate LocalTwins(primary: Candidate, c: Candidate, unicode: Unicode) {
    primary.kind.Movies? && primary.provider == "local" && c.provider == "local" && Agree(primary, c, unicode)
  }

  // The query's identifiers count for a local primary, or one that they name.
  ghost predicate Anchors(primary: Candidate, ids: seq<ExternalId>) {
    primary.provider == "local" || primary.externalId in ids
  }

  // A candidate that may stand for the primary's work.
  ghost predicate Fits(primary: Candidate, ids: seq<ExternalId>, c: Candidate, unicode: Unicode) {
    var anchored := Anchors(primary, ids);
    && c.kind == primary.kind
    && (c.provider != primary.provider || LocalTwins(primary, c, unicode))
    && (anchored ==> forall id <- ids :: id.namespace == c.externalId.namespace ==> id.value == c.externalId.value)
    && (|| LocalTwins(primary, c, unicode)
        || (anchored && c.externalId in ids)
        || c.externalId == primary.externalId
        || (c.externalId.namespace != primary.externalId.namespace && Agree(primary, c, unicode)))
  }

  // No other candidate of its provider fits.
  ghost predicate Alone(primary: Candidate, rest: seq<Candidate>, ids: seq<ExternalId>, c: Candidate,
                        unicode: Unicode)
  {
    forall i, j :: 0 <= i < j < |rest| && rest[i].provider == c.provider && rest[j].provider == c.provider ==>
      !(Fits(primary, ids, rest[i], unicode) && Fits(primary, ids, rest[j], unicode))
  }

  ghost function Accepts(primary: Candidate, rest: seq<Candidate>, ids: seq<ExternalId>, unicode: Unicode)
    : Candidate -> bool
  {
    (c: Candidate) =>
      Fits(primary, ids, c, unicode) && (LocalTwins(primary, c, unicode) || Alone(primary, rest, ids, c, unicode))
  }

  lemma ContradictsIff(ids: seq<ExternalId>, id: ExternalId)
    ensures Contradicts(ids, id) <==> exists x <- ids :: x.namespace == id.namespace && x.value != id.value
  {
    if exists x <- ids :: x.namespace == id.namespace && x.value != id.value {
      var x :| x in ids && x.namespace == id.namespace && x.value != id.value;
      var i :| 0 <= i < |ids| && ids[i] == x;
    }
  }

  lemma FitsIff(primary: Candidate, ids: seq<ExternalId>, c: Candidate, unicode: Unicode)
    ensures Compatible(primary, ids, c, unicode) <==> Fits(primary, ids, c, unicode)
    ensures SameLocalMovie(primary, c, unicode) <==> LocalTwins(primary, c, unicode)
  {
    ContradictsIff(AnchoredIds(primary, ids), c.externalId);
  }

  lemma OneOfItsProvider(primary: Candidate, rest: seq<Candidate>, ids: seq<ExternalId>, c: Candidate,
                         unicode: Unicode)
    requires c in rest && Fits(primary, ids, c, unicode)
    ensures |Filtered(Filtered(rest, IsCompatible(primary, ids, unicode)), OfProvider(c.provider))| == 1 <==>
            Alone(primary, rest, ids, c, unicode)
  {
    var both := (x: Candidate) => IsCompatible(primary, ids, unicode)(x) && OfProvider(c.provider)(x);
    FilteredTwice(rest, IsCompatible(primary, ids, unicode), OfProvider(c.provider), both);
    forall x ensures both(x) <==> Fits(primary, ids, x, unicode) && x.provider == c.provider {
      FitsIff(primary, ids, x, unicode);
    }
    var k :| 0 <= k < |rest| && rest[k] == c;
    SomeKept(rest, both, k);
    if |Filtered(rest, both)| >= 2 {
      var i, j := KeptTwice(rest, both);
    }
    if i, j :| 0 <= i < j < |rest| && both(rest[i]) && both(rest[j]) { TwoKept(rest, both, i, j); }
  }

  /** A primary that the query's identifiers contradict stays alone. Otherwise the group is the primary and, in order,
      the candidates that fit it and are local twins of it or alone among their provider's. */
  lemma GroupFollowsTheFacts(primary: Candidate, rest: seq<Candidate>, ids: seq<ExternalId>, unicode: Unicode)
    ensures Group([primary] + rest, ids, unicode) ==
            if exists id <- ids :: id.namespace == primary.externalId.namespace && id.value != primary.externalId.value
            then [primary]
            else [primary] + Filtered(rest, Accepts(primary, rest, ids, unicode))
  {
    assert ([primary] + rest)[1..] == rest;
    ContradictsIff(ids, primary.externalId);
    if !Contradicts(ids, primary.externalId) {
      var compatible := IsCompatible(primary, ids, unicode);
      var matches := Filtered(rest, compatible);
      var joins := Joins(primary, matches, unicode);
      var both := (c: Candidate) => compatible(c) && joins(c);
      FilteredTwice(rest, compatible, joins, both);
      forall c | c in rest ensures both(c) <==> Accepts(primary, rest, ids, unicode)(c) {
        FitsIff(primary, ids, c, unicode);
        if Fits(primary, ids, c, unicode) { OneOfItsProvider(primary, rest, ids, c, unicode); }
      }
      SameOnMembers(rest, both, Accepts(primary, rest, ids, unicode));
    }
  }
}

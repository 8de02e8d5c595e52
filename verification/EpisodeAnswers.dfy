/** The seasons and episodes of a merged series, said of the documents as they arrive. */
module EpisodeAnswers {
  import opened Decimal
  import opened FieldAnswers
  import opened Media
  import opened MediaIdentities
  import opened MergeLoops
  import opened MergePolicies
  import opened Options
  import opened OrderedSets
  import opened Precedence
  import opened Provenance
  import opened Results
  import opened Retention
  import opened Sequences
  import opened SeriesAnswers
  import opened SeriesMerge
  import EpisodeProvenance
  import SeriesConflicts
  import SeriesPaths
  import SeriesTheorems

  // ----- what a series offers -----

  ghost predicate FirstNumbered(seasons: seq<Season>, number: nat, i: int) {
    0 <= i < |seasons| && seasons[i].number == number && forall j :: 0 <= j < i ==> seasons[j].number != number
  }

  // The first season of that number.
  ghost function OfferedSeason(s: Series, number: nat): Option<Season> {
    if exists i :: FirstNumbered(s.seasons, number, i) then
      var i :| FirstNumbered(s.seasons, number, i);
      Some(s.seasons[i])
    else None
  }

  ghost predicate FirstSequenced(episodes: seq<Episode>, sequence: EpisodeSequence, i: int) {
    && 0 <= i < |episodes| && episodes[i].sequence == sequence
    && forall j :: 0 <= j < i ==> episodes[j].sequence != sequence
  }

  // The first episode of that sequence in the first season of that number.
  ghost function OfferedEpisode(s: Series, number: nat, sequence: EpisodeSequence): Option<Episode> {
    match OfferedSeason(s, number)
    case None => None
    case Some(season) =>
      if exists i :: FirstSequenced(season.episodes, sequence, i) then
        var i :| FirstSequenced(season.episodes, sequence, i);
        Some(season.episodes[i])
      else None
  }

  lemma {:induction false} SeasonIsFound(seasons: seq<Season>, number: nat, i: nat)
    requires FirstNumbered(seasons, number, i)
    ensures FindSeason(seasons, number) == Some(seasons[i])
  {
    if i > 0 { SeasonIsFound(seasons[1..], number, i - 1); }
  }

  lemma {:induction false} FoundSeason(seasons: seq<Season>, number: nat)
    ensures FindSeason(seasons, number).Some? ==> exists i :: FirstNumbered(seasons, number, i)
  {
    if seasons != [] {
      if seasons[0].number == number {
        assert FirstNumbered(seasons, number, 0);
      } else {
        FoundSeason(seasons[1..], number);
        if i :| FirstNumbered(seasons[1..], number, i) { assert FirstNumbered(seasons, number, i + 1); }
      }
    }
  }

  lemma OfferedSeasonIsFound(s: Series, number: nat)
    ensures OfferedSeason(s, number) == FindSeason(s.seasons, number)
  {
    FoundSeason(s.seasons, number);
    if i :| FirstNumbered(s.seasons, number, i) { SeasonIsFound(s.seasons, number, i); }
    if OfferedSeason(s, number).Some? {
      var i :| FirstNumbered(s.seasons, number, i) && OfferedSeason(s, number) == Some(s.seasons[i]);
      SeasonIsFound(s.seasons, number, i);
    }
  }

  lemma {:induction false} EpisodeIsFound(episodes: seq<Episode>, sequence: EpisodeSequence, i: nat)
    requires FirstSequenced(episodes, sequence, i)
    ensures FindEpisode(episodes, sequence) == Some(episodes[i])
  {
    if i > 0 { EpisodeIsFound(episodes[1..], sequence, i - 1); }
  }

  lemma {:induction false} FoundEpisode(episodes: seq<Episode>, sequence: EpisodeSequence)
    ensures FindEpisode(episodes, sequence).Some? ==> exists i :: FirstSequenced(episodes, sequence, i)
  {
    if episodes != [] {
      if episodes[0].sequence == sequence {
        assert FirstSequenced(episodes, sequence, 0);
      } else {
        FoundEpisode(episodes[1..], sequence);
        if i :| FirstSequenced(episodes[1..], sequence, i) { assert FirstSequenced(episodes, sequence, i + 1); }
      }
    }
  }

  lemma OfferedEpisodeIsFound(s: Series, number: nat, sequence: EpisodeSequence)
    ensures OfferedEpisode(s, number, sequence) ==
            match FindSeason(s.seasons, number)
            case None => None
            case Some(season) => FindEpisode(season.episodes, sequence)
  {
    OfferedSeasonIsFound(s, number);
    if OfferedSeason(s, number).Some? {
      var episodes := OfferedSeason(s, number).value.episodes;
      FoundEpisode(episodes, sequence);
      if exists i :: FirstSequenced(episodes, sequence, i) {
        var i :| FirstSequenced(episodes, sequence, i) &&
                 OfferedEpisode(s, number, sequence) == Some(episodes[i]);
        EpisodeIsFound(episodes, sequence, i);
      }
    }
  }

  // ----- the documents of a season and of an episode -----

  ghost function SeasonPart(number: nat): Series -> Option<Season> { (s: Series) => OfferedSeason(s, number) }

  ghost function EpisodePart(number: nat, sequence: EpisodeSequence): Series -> Option<Episode> {
    (s: Series) => OfferedEpisode(s, number, sequence)
  }

  lemma {:induction false} SeasonsOfTurns(documents: seq<SeriesDocument>, number: nat, turns: seq<nat>)
    requires forall i :: 0 <= i < |turns| ==> turns[i] < |documents|
    ensures SeasonDocuments(Chosen(turns, PartAt(documents, Whole())), number) ==
            Chosen(turns, PartAt(documents, SeasonPart(number)))
  {
    if turns != [] {
      var d, rest := documents[turns[0]], Chosen(turns[1..], PartAt(documents, Whole()));
      SeasonsOfTurns(documents, number, turns[1..]);
      OfferedSeasonIsFound(d.value, number);
      assert PartAt(documents, Whole())(turns[0]) == Some(d);
      ChosenStep(turns[0], turns[1..], PartAt(documents, Whole()));
      ChosenStep(turns[0], turns[1..], PartAt(documents, SeasonPart(number)));
      assert turns == [turns[0]] + turns[1..] && ([d] + rest)[1..] == rest;
    }
  }

  // What document k adds to the documents of an episode.
  lemma EpisodeOfTurn(documents: seq<SeriesDocument>, number: nat, sequence: EpisodeSequence, k: nat,
                      rest: seq<Sourced<Season>>)
    requires k < |documents|
    ensures var season, episode := PartAt(documents, SeasonPart(number))(k),
            PartAt(documents, EpisodePart(number, sequence))(k);
            EpisodeDocuments((if season.Some? then [season.value] else []) + rest, sequence) ==
            (if episode.Some? then [episode.value] else []) + EpisodeDocuments(rest, sequence)
  {
    var d := documents[k];
    OfferedSeasonIsFound(d.value, number);
    OfferedEpisodeIsFound(d.value, number, sequence);
    if OfferedSeason(d.value, number).Some? {
      var x := Sourced(OfferedSeason(d.value, number).value, d.source);
      assert ([x] + rest)[1..] == rest;
    } else {
      assert [] + rest == rest && [] + EpisodeDocuments(rest, sequence) == EpisodeDocuments(rest, sequence);
    }
  }

  lemma {:induction false} EpisodesOfTurns(documents: seq<SeriesDocument>, number: nat, sequence: EpisodeSequence,
                                           turns: seq<nat>)
    requires forall i :: 0 <= i < |turns| ==> turns[i] < |documents|
    ensures EpisodeDocuments(Chosen(turns, PartAt(documents, SeasonPart(number))), sequence) ==
            Chosen(turns, PartAt(documents, EpisodePart(number, sequence)))
  {
    if turns != [] {
      EpisodesOfTurns(documents, number, sequence, turns[1..]);
      EpisodeOfTurn(documents, number, sequence, turns[0],
                    Chosen(turns[1..], PartAt(documents, SeasonPart(number))));
    }
  }

  lemma TurnsAreDocuments<T>(policy: MergePolicy, media: MediaKind, paths: seq<string>, documents: seq<Sourced<T>>)
    ensures forall i :: 0 <= i < |Turns(policy, media, paths, documents)| ==>
              Turns(policy, media, paths, documents)[i] < |documents|
  {
    TurnsAscend(policy, media, paths, documents);
    assert forall i :: 0 <= i < |Turns(policy, media, paths, documents)| ==>
        Turns(policy, media, paths, documents)[i] in Turns(policy, media, paths, documents);
  }

  // The documents of a season are those that offer it, in the order of two paths.
  lemma SeasonParts(policy: MergePolicy, first: string, path: string, documents: seq<SeriesDocument>, number: nat)
    ensures SeasonDocuments(Ordered(policy, Television, path, Ordered(policy, Television, first, documents)), number) ==
            Parts(policy, Television, [first, path], documents, SeasonPart(number))
  {
    WholeParts(policy, Television, documents, first, path);
    TurnsAreDocuments(policy, Television, [first, path], documents);
    SeasonsOfTurns(documents, number, Turns(policy, Television, [first, path], documents));
  }

  // Those of an episode are sorted once more.
  lemma EpisodeParts(policy: MergePolicy, first: string, path: string, next: string, documents: seq<SeriesDocument>,
                     number: nat, sequence: EpisodeSequence)
    ensures Ordered(policy, Television, next,
                    EpisodeDocuments(Parts(policy, Television, [first, path], documents, SeasonPart(number)),
                                     sequence)) ==
            Parts(policy, Television, [first, path, next], documents, EpisodePart(number, sequence))
  {
    TurnsAreDocuments(policy, Television, [first, path], documents);
    EpisodesOfTurns(documents, number, sequence, Turns(policy, Television, [first, path], documents));
    PartsAreOrdered(policy, Television, [first, path], next, documents, EpisodePart(number, sequence));
    assert [first, path] + [next] == [first, path, next];
  }

  // ----- seasons -----

  lemma SeasonPathIs(number: nat)
    ensures SeasonPath(number) == "series.seasons." + Numeral(number)
    ensures Dotted(SeasonPath(number), "artwork") == "series.seasons." + Numeral(number) + ".artwork"
  {
    assert SEASONS + "." == "series.seasons.";
  }

  // What is recorded under the path of a season is the source of its first document.
  lemma OwnSource(policy: MergePolicy, unicode: Unicode, number: nat, documents: seq<Sourced<Season>>)
    requires documents != []
    ensures SourcesFor(SeasonOf(policy, unicode, number, documents).log, SeasonPath(number)) == [documents[0].source]
  {
    var path, below := SeasonPath(number), Dotted(SeasonPath(number), "episodes");
    var own := [Entry(path, documents[0].source)];
    var episodes := Episodes(policy, unicode, number, documents).log;
    var observed := FieldObservations(policy, Television, Dotted(path, "artwork"), documents, SeasonArtwork);
    var sources := Sources(Kept(observed, SameKey(ArtworkKey(unicode))));
    SeriesPaths.EpisodesLogBelow(policy, unicode, below, number, documents);
    forall e | e in episodes ensures e.path != path {
      assert SeriesPaths.Below(below, e.path);
      assert |e.path| > |path|;
    }
    NoSourcesOutside(episodes, path);
    SourcesOfConcatenation(own, episodes, path);
    SourcesOfConcatenation(own + episodes, Under(Dotted(path, "artwork"), sources), path);
    assert |Dotted(path, "artwork")| > |path|;
    SourcesUnder(Dotted(path, "artwork"), sources, path);
    assert own[..0] == [] && SourcesFor(own, path) == SourcesFor([], path) + [documents[0].source];
  }

  lemma SeasonSource(policy: MergePolicy, unicode: Unicode, base: seq<SeriesDocument>, s: nat)
    requires base != [] && s < |SeriesTheorems.SeasonNumbers(base)|
    ensures var number := SeriesTheorems.SeasonNumbers(base)[s];
            && SeasonOrder(policy, base, number) != []
            && SourcesFor(SeriesOf(policy, unicode, base).log, SeasonPath(number)) ==
               [SeasonOrder(policy, base, number)[0].source]
  {
    var number := SeriesTheorems.SeasonNumbers(base)[s];
    var path := SeasonPath(number);
    assert SeriesPaths.Below(path, path);
    EpisodeProvenance.BelowShorter(SEASONS, Numeral(number), path);
    EpisodeProvenance.SeriesSources(policy, unicode, base, path);
    EpisodeProvenance.SeasonsSources(policy, unicode, base, s, path);
    SeriesTheorems.SeasonAt(policy, unicode, base, s);
    OwnSource(policy, unicode, number, SeasonOrder(policy, base, number));
  }

  // The artwork that a series offers for a season.
  ghost function ArtworkOfSeason(number: nat): Series -> seq<ArtworkReference> {
    (s: Series) => match OfferedSeason(s, number) case None => [] case Some(season) => season.artwork
  }

  lemma SeasonArtworkFrom(policy: MergePolicy, unicode: Unicode, first: string, path: string, next: string,
                          documents: seq<SeriesDocument>, number: nat, values: seq<ArtworkReference>,
                          sources: seq<SourceRef>)
    requires Aligned(values, sources,
                     FieldObservations(policy, Television, next,
                                       Parts(policy, Television, [first, path], documents, SeasonPart(number)),
                                       SeasonArtwork),
                     SameKey(ArtworkKey(unicode)))
    ensures Answers(policy, Television, [first, path, next], documents, ArtworkOfSeason(number), SameArtwork(unicode),
                    values, sources)
  {
    ArtworkClashes(unicode);
    PartsAreOrdered(policy, Television, [first, path], next, documents, SeasonPart(number));
    assert [first, path] + [next] == [first, path, next];
    RetainedIsAnswer(policy, Television, [first, path, next], documents, SeasonPart(number), SeasonArtwork,
                     SameKey(ArtworkKey(unicode)), ArtworkOfSeason(number), SameArtwork(unicode), values, sources);
  }

  /** A season comes from the document that speaks first among those that offer it; its artwork holds the first of
      every identity. Both are recorded under its path. */
  lemma SeasonsAreAnswered(policy: MergePolicy, unicode: Unicode, documents: seq<SeriesDocument>, s: nat)
    returns (k: nat)
    requires Merged(policy, unicode, documents).Ok?
    requires s < |Merged(policy, unicode, documents).value.value.seasons|
    ensures var r := Merged(policy, unicode, documents).value;
            var season := r.value.seasons[s];
            var path := "series.seasons." + Numeral(season.number);
            && SpeaksFirst(policy, Television, ["series", path], documents,
                           (x: Series) => OfferedSeason(x, season.number).Some?, k)
            && season.id == OfferedSeason(documents[k].value, season.number).value.id
            && Lookup(r.provenance, path) == [documents[k].source]
            && Answers(policy, Television, ["series", path, path + ".artwork"], documents,
                       ArtworkOfSeason(season.number), SameArtwork(unicode), season.artwork,
                       Lookup(r.provenance, path + ".artwork"))
  {
    var base := Ordered(policy, Television, "series", documents);
    var r := Merged(policy, unicode, documents).value;
    var number := r.value.seasons[s].number;
    EpisodeProvenance.MergedIsSeriesOf(policy, unicode, documents);
    EpisodeProvenance.MergedSeason(policy, unicode, documents, s);
    SeriesTheorems.SeasonAt(policy, unicode, base, s);
    SeasonSource(policy, unicode, base, s);
    LookupInGrouped(SeriesOf(policy, unicode, base).log, SeasonPath(number));
    SeasonParts(policy, "series", SeasonPath(number), documents, number);
    k := HeadSpeaksFirst(policy, Television, ["series", SeasonPath(number)], documents, SeasonPart(number),
                         (x: Series) => OfferedSeason(x, number).Some?);
    EpisodeProvenance.SeasonArtworkIsAligned(policy, unicode, documents, s);
    SeasonArtworkFrom(policy, unicode, "series", SeasonPath(number), Dotted(SeasonPath(number), "artwork"), documents,
                      number, r.value.seasons[s].artwork,
                      Lookup(r.provenance, Dotted(SeasonPath(number), "artwork")));
    SeasonPathIs(number);
  }

  // ----- episodes -----

  ghost function TitlesOfEpisode(number: nat, q: EpisodeSequence): Series -> seq<LocalizedEntry> {
    (s: Series) => match OfferedEpisode(s, number, q) case None => [] case Some(e) => e.titles
  }

  ghost function SummariesOfEpisode(number: nat, q: EpisodeSequence): Series -> seq<LocalizedEntry> {
    (s: Series) => match OfferedEpisode(s, number, q) case None => [] case Some(e) => e.summaries
  }

  ghost function CreditsOfEpisode(number: nat, q: EpisodeSequence): Series -> seq<Credit> {
    (s: Series) => match OfferedEpisode(s, number, q) case None => [] case Some(e) => e.credits
  }

  ghost function ArtworkOfEpisode(number: nat, q: EpisodeSequence): Series -> seq<ArtworkReference> {
    (s: Series) => match OfferedEpisode(s, number, q) case None => [] case Some(e) => e.artwork
  }

  ghost function RuntimeOfEpisode(number: nat, q: EpisodeSequence): Series -> Option<nat> {
    (s: Series) => match OfferedEpisode(s, number, q) case None => None case Some(e) => e.runtime
  }

  // The documents of an episode, sorted by the path of a field.
  lemma FieldParts(policy: MergePolicy, first: string, path: string, next: string, field: string,
                   documents: seq<SeriesDocument>, number: nat, q: EpisodeSequence)
    ensures Ordered(policy, Television, field,
                    Parts(policy, Television, [first, path, next], documents, EpisodePart(number, q))) ==
            Parts(policy, Television, [first, path, next, field], documents, EpisodePart(number, q))
  {
    PartsAreOrdered(policy, Television, [first, path, next], field, documents, EpisodePart(number, q));
    assert [first, path, next] + [field] == [first, path, next, field];
  }

  lemma FieldOfEpisode<U(!new)>(policy: MergePolicy, first: string, path: string, next: string, field: string,
                                documents: seq<SeriesDocument>, number: nat, q: EpisodeSequence,
                                pick: Episode -> seq<U>, clash: (U, U) -> bool, select: Series -> seq<U>,
                                same: (U, U) -> bool, values: seq<U>, sources: seq<SourceRef>)
    requires OffersItsPart(EpisodePart(number, q), pick, select) && SameRelation(clash, same)
    requires Aligned(values, sources,
                     FieldObservations(policy, Television, field,
                                       Parts(policy, Television, [first, path, next], documents,
                                             EpisodePart(number, q)), pick), clash)
    ensures Answers(policy, Television, [first, path, next, field], documents, select, same, values, sources)
  {
    FieldParts(policy, first, path, next, field, documents, number, q);
    RetainedIsAnswer(policy, Television, [first, path, next, field], documents, EpisodePart(number, q), pick, clash,
                     select, same, values, sources);
  }

  lemma CreditsClash(unicode: Unicode)
    ensures SameRelation(SameCredit(unicode), SameContribution(unicode))
  {
    forall a, b ensures SameCredit(unicode)(a, b) <==> SameContribution(unicode)(a, b) {
      CreditsClashIff(unicode, a, b);
    }
  }

  // The runtime is that of the document that speaks first among those that have one.
  ghost predicate RuntimeAnswers(policy: MergePolicy, paths: seq<string>, documents: seq<SeriesDocument>, number: nat,
                                 q: EpisodeSequence, runtime: Option<nat>, sources: seq<SourceRef>)
  {
    if forall d <- documents :: RuntimeOfEpisode(number, q)(d.value).None? then runtime == None && sources == []
    else exists k :: RuntimeFrom(policy, paths, documents, number, q, runtime, sources, k)
  }

  ghost predicate RuntimeFrom(policy: MergePolicy, paths: seq<string>, documents: seq<SeriesDocument>, number: nat,
                              q: EpisodeSequence, runtime: Option<nat>, sources: seq<SourceRef>, k: nat)
  {
    && SpeaksFirst(policy, Television, paths, documents, (s: Series) => RuntimeOfEpisode(number, q)(s).Some?, k)
    && runtime == RuntimeOfEpisode(number, q)(documents[k].value)
    && sources == [documents[k].source]
  }

  lemma {:induction false} FirstRuntimeIsHead(documents: seq<SeriesDocument>, number: nat, q: EpisodeSequence,
                                              turns: seq<nat>)
    requires forall i :: 0 <= i < |turns| ==> turns[i] < |documents|
    ensures var chosen := Chosen(turns, PartAt(documents, RuntimeOfEpisode(number, q)));
            FirstRuntime(Chosen(turns, PartAt(documents, EpisodePart(number, q)))) ==
            if chosen == [] then None else Some(chosen[0])
  {
    if turns != [] {
      var d, rest := documents[turns[0]], Chosen(turns[1..], PartAt(documents, EpisodePart(number, q)));
      FirstRuntimeIsHead(documents, number, q, turns[1..]);
      ChosenStep(turns[0], turns[1..], PartAt(documents, EpisodePart(number, q)));
      ChosenStep(turns[0], turns[1..], PartAt(documents, RuntimeOfEpisode(number, q)));
      assert turns == [turns[0]] + turns[1..];
      if OfferedEpisode(d.value, number, q).Some? {
        var x := Sourced(OfferedEpisode(d.value, number, q).value, d.source);
        assert ([x] + rest)[1..] == rest;
      }
    }
  }

  lemma SuppliedIsFirst(runtime: Option<nat>, sources: seq<SourceRef>, ordered: seq<Sourced<Episode>>)
    requires EpisodeProvenance.FirstSupplies(runtime, sources, ordered)
    ensures match FirstRuntime(ordered)
            case None => runtime == None && sources == []
            case Some(r) => runtime == Some(r.value) && sources == [r.source]
  {
    var k := EpisodeProvenance.FirstIndex(ordered);
    if k < |ordered| { assert ordered[k] in ordered; }
  }

  lemma OfferIsChosen<V>(documents: seq<SeriesDocument>, part: Series -> Option<V>, turns: seq<nat>, l: nat)
    requires l < |documents| && l in turns && part(documents[l].value).Some?
    ensures Chosen(turns, PartAt(documents, part)) != []
  {
    var y := Sourced(part(documents[l].value).value, documents[l].source);
    ChosenComesFrom(turns, PartAt(documents, part), y);
    assert PartAt(documents, part)(l) == Some(y);
  }

  lemma RuntimeIsAnswered(policy: MergePolicy, paths: seq<string>, documents: seq<SeriesDocument>, number: nat,
                          q: EpisodeSequence, runtime: Option<nat>, sources: seq<SourceRef>)
    requires EpisodeProvenance.FirstSupplies(
               runtime, sources, Parts(policy, Television, paths, documents, EpisodePart(number, q)))
    ensures RuntimeAnswers(policy, paths, documents, number, q, runtime, sources)
  {
    var turns, part := Turns(policy, Television, paths, documents), RuntimeOfEpisode(number, q);
    var chosen := Chosen(turns, PartAt(documents, part));
    SuppliedIsFirst(runtime, sources, Parts(policy, Television, paths, documents, EpisodePart(number, q)));
    TurnsAreDocuments(policy, Television, paths, documents);
    TurnsAscend(policy, Television, paths, documents);
    FirstRuntimeIsHead(documents, number, q, turns);
    if chosen == [] {
      forall d | d in documents ensures part(d.value).None? {
        var l :| 0 <= l < |documents| && documents[l] == d;
        if part(d.value).Some? { OfferIsChosen(documents, part, turns, l); }
      }
    } else {
      var k := HeadSpeaksFirst(policy, Television, paths, documents, part, (s: Series) => part(s).Some?);
      assert documents[k] in documents;
      assert RuntimeFrom(policy, paths, documents, number, q, runtime, sources, k);
    }
  }

  // All fields of an episode, and the sources of each.
  ghost predicate Answered(policy: MergePolicy, unicode: Unicode, first: string, path: string, next: string,
                           documents: seq<SeriesDocument>, number: nat, e: Episode, sources: seq<seq<SourceRef>>)
  {
    var q := e.sequence;
    && |sources| == 6
    && (exists k: nat ::
          && SpeaksFirst(policy, Television, [first, path, next], documents,
                         (s: Series) => OfferedEpisode(s, number, q).Some?, k)
          && e.id == OfferedEpisode(documents[k].value, number, q).value.id
          && sources[0] == [documents[k].source])
    && Answers(policy, Television, [first, path, next, next + ".titles"], documents, TitlesOfEpisode(number, q),
               SameLanguage(), e.titles, sources[1])
    && Answers(policy, Television, [first, path, next, next + ".summaries"], documents,
               SummariesOfEpisode(number, q), SameLanguage(), e.summaries, sources[2])
    && RuntimeAnswers(policy, [first, path, next, next + ".runtime"], documents, number, q, e.runtime, sources[3])
    && Answers(policy, Television, [first, path, next, next + ".credits"], documents, CreditsOfEpisode(number, q),
               SameContribution(unicode), e.credits, sources[4])
    && Answers(policy, Television, [first, path, next, next + ".artwork"], documents, ArtworkOfEpisode(number, q),
               SameArtwork(unicode), e.artwork, sources[5])
  }

  lemma BaseOfEpisode(policy: MergePolicy, paths: seq<string>, documents: seq<SeriesDocument>, number: nat,
                      q: EpisodeSequence) returns (k: nat)
    requires Parts(policy, Television, paths, documents, EpisodePart(number, q)) != []
    ensures SpeaksFirst(policy, Television, paths, documents, (s: Series) => OfferedEpisode(s, number, q).Some?, k)
    ensures Parts(policy, Television, paths, documents, EpisodePart(number, q))[0] ==
            Sourced(OfferedEpisode(documents[k].value, number, q).value, documents[k].source)
  {
    k := HeadSpeaksFirst(policy, Television, paths, documents, EpisodePart(number, q),
                         (s: Series) => OfferedEpisode(s, number, q).Some?);
  }

  lemma DottedIs(path: string, name: string, suffix: string)
    requires suffix == "." + name
    ensures Dotted(path, name) == path + suffix
  {
  }

  lemma FieldPathsAre(path: string)
    ensures EpisodeProvenance.FieldPath(path, 1) == Dotted(path, "titles") == path + ".titles"
    ensures EpisodeProvenance.FieldPath(path, 2) == Dotted(path, "summaries") == path + ".summaries"
    ensures EpisodeProvenance.FieldPath(path, 3) == path + ".runtime"
    ensures EpisodeProvenance.FieldPath(path, 4) == path + ".credits"
    ensures EpisodeProvenance.FieldPath(path, 5) == path + ".artwork"
  {
    DottedIs(path, "titles", ".titles");
    DottedIs(path, "summaries", ".summaries");
    DottedIs(path, "runtime", ".runtime");
    DottedIs(path, "credits", ".credits");
    DottedIs(path, "artwork", ".artwork");
  }

  lemma TextsOfEpisode(policy: MergePolicy, first: string, path: string, next: string,
                       documents: seq<SeriesDocument>, number: nat, e: Episode, sources: seq<seq<SourceRef>>)
    requires |sources| == 6
    requires var ordered := Parts(policy, Television, [first, path, next], documents, EpisodePart(number, e.sequence));
             && Aligned(e.titles, sources[1],
                        FieldObservations(policy, Television, next + ".titles", ordered, EpisodeTitles),
                        EpisodeProvenance.TextClash())
             && Aligned(e.summaries, sources[2],
                        FieldObservations(policy, Television, next + ".summaries", ordered, EpisodeSummaries),
                        EpisodeProvenance.TextClash())
    ensures var q := e.sequence;
            && Answers(policy, Television, [first, path, next, next + ".titles"], documents, TitlesOfEpisode(number, q),
                       SameLanguage(), e.titles, sources[1])
            && Answers(policy, Television, [first, path, next, next + ".summaries"], documents,
                       SummariesOfEpisode(number, q), SameLanguage(), e.summaries, sources[2])
  {
    var q := e.sequence;
    LanguagesAreKeys();
    FieldOfEpisode(policy, first, path, next, next + ".titles", documents, number, q, EpisodeTitles,
                   EpisodeProvenance.TextClash(), TitlesOfEpisode(number, q), SameLanguage(), e.titles, sources[1]);
    FieldOfEpisode(policy, first, path, next, next + ".summaries", documents, number, q, EpisodeSummaries,
                   EpisodeProvenance.TextClash(), SummariesOfEpisode(number, q), SameLanguage(), e.summaries,
                   sources[2]);
  }

  lemma ListsOfEpisode(policy: MergePolicy, unicode: Unicode, first: string, path: string, next: string,
                       documents: seq<SeriesDocument>, number: nat, e: Episode, sources: seq<seq<SourceRef>>)
    requires |sources| == 6
    requires var ordered := Parts(policy, Television, [first, path, next], documents, EpisodePart(number, e.sequence));
             && Aligned(e.credits, sources[4],
                        FieldObservations(policy, Television, next + ".credits", ordered, EpisodeCredits),
                        SameCredit(unicode))
             && Aligned(e.artwork, sources[5],
                        FieldObservations(policy, Television, next + ".artwork", ordered, EpisodeArtwork),
                        SameKey(ArtworkKey(unicode)))
    ensures var q := e.sequence;
            && Answers(policy, Television, [first, path, next, next + ".credits"], documents,
                       CreditsOfEpisode(number, q), SameContribution(unicode), e.credits, sources[4])
            && Answers(policy, Television, [first, path, next, next + ".artwork"], documents,
                       ArtworkOfEpisode(number, q), SameArtwork(unicode), e.artwork, sources[5])
  {
    var q := e.sequence;
    CreditsClash(unicode);
    ArtworkClashes(unicode);
    FieldOfEpisode(policy, first, path, next, next + ".credits", documents, number, q, EpisodeCredits,
                   SameCredit(unicode), CreditsOfEpisode(number, q), SameContribution(unicode), e.credits, sources[4]);
    FieldOfEpisode(policy, first, path, next, next + ".artwork", documents, number, q, EpisodeArtwork,
                   SameKey(ArtworkKey(unicode)), ArtworkOfEpisode(number, q), SameArtwork(unicode), e.artwork,
                   sources[5]);
  }

  lemma AlignedIsAnswered(policy: MergePolicy, unicode: Unicode, first: string, path: string, next: string,
                          documents: seq<SeriesDocument>, number: nat, e: Episode, sources: seq<seq<SourceRef>>)
    requires var ordered := Parts(policy, Television, [first, path, next], documents, EpisodePart(number, e.sequence));
             && EpisodeProvenance.EpisodeAligned(policy, unicode, next, ordered, e, sources)
             && e.id == ordered[0].value.id
    ensures Answered(policy, unicode, first, path, next, documents, number, e, sources)
  {
    var q := e.sequence;
    var k := BaseOfEpisode(policy, [first, path, next], documents, number, q);
    FieldPathsAre(next);
    TextsOfEpisode(policy, first, path, next, documents, number, e, sources);
    FieldParts(policy, first, path, next, next + ".runtime", documents, number, q);
    RuntimeIsAnswered(policy, [first, path, next, next + ".runtime"], documents, number, q, e.runtime, sources[3]);
    ListsOfEpisode(policy, unicode, first, path, next, documents, number, e, sources);
  }

  lemma EpisodePathIs(number: nat, episode: nat)
    ensures EpisodePath(number, episode) == "series.seasons." + Numeral(number) + ".episodes." + Numeral(episode)
  {
    SeasonPathIs(number);
  }

  lemma ContributionIsAnswered(policy: MergePolicy, unicode: Unicode, documents: seq<SeriesDocument>, s: nat, i: nat)
    requires EpisodeProvenance.HasEpisode(policy, unicode, documents, s, i)
    ensures var season := Merged(policy, unicode, documents).value.value.seasons[s];
            var e, seasons := season.episodes[i], EpisodeProvenance.DocumentsOf(policy, documents, season.number);
            Answered(policy, unicode, "series", SeasonPath(season.number),
                     EpisodePath(season.number, e.sequence.episode), documents, season.number, e,
                     EpisodeProvenance.Contribution(policy, unicode, season.number, seasons, e.sequence))
  {
    var season := Merged(policy, unicode, documents).value.value.seasons[s];
    var e, seasons := season.episodes[i], EpisodeProvenance.DocumentsOf(policy, documents, season.number);
    EpisodeProvenance.ContributionsAreAligned(policy, unicode, documents, s, i);
    EpisodeProvenance.MergedSeason(policy, unicode, documents, s);
    EpisodeProvenance.EpisodeAt(policy, unicode, season.number, seasons, i);
    var path, next := SeasonPath(season.number), EpisodePath(season.number, e.sequence.episode);
    SeasonParts(policy, "series", path, documents, season.number);
    EpisodeParts(policy, "series", path, next, documents, season.number, e.sequence);
    AlignedIsAnswered(policy, unicode, "series", path, next, documents, season.number, e,
                      EpisodeProvenance.Contribution(policy, unicode, season.number, seasons, e.sequence));
  }

  // What a provenance map holds below the path of an episode.
  ghost function RecordedBelow(provenance: SourceMap, path: string): seq<seq<SourceRef>> {
    [Lookup(provenance, path), Lookup(provenance, path + ".titles"), Lookup(provenance, path + ".summaries"),
     Lookup(provenance, path + ".runtime"), Lookup(provenance, path + ".credits"),
      Lookup(provenance, path + ".artwork")]
  }

  lemma RecordedBelowIs(provenance: SourceMap, path: string)
    ensures EpisodeProvenance.RecordedUnder(provenance, path) == RecordedBelow(provenance, path)
  {
    FieldPathsAre(path);
  }

  /** Every episode of the merged series is the answer of the documents that offer its sequence in its season, in the
      order of four paths. What is recorded below its path are its sources when no other episode of the season has its
      number. */
  lemma EpisodesAreAnswered(policy: MergePolicy, unicode: Unicode, documents: seq<SeriesDocument>, s: nat, i: nat)
    returns (sources: seq<seq<SourceRef>>)
    requires EpisodeProvenance.HasEpisode(policy, unicode, documents, s, i)
    ensures var r := Merged(policy, unicode, documents).value;
            var season, e := r.value.seasons[s], r.value.seasons[s].episodes[i];
            var path := "series.seasons." + Numeral(season.number);
            var next := path + ".episodes." + Numeral(e.sequence.episode);
            && Answered(policy, unicode, "series", path, next, documents, season.number, e, sources)
            && (EpisodeProvenance.OwnsItsNumber(season.episodes, i) ==> sources == RecordedBelow(r.provenance, next))
  {
    var r := Merged(policy, unicode, documents).value;
    var season, e := r.value.seasons[s], r.value.seasons[s].episodes[i];
    var seasons := EpisodeProvenance.DocumentsOf(policy, documents, season.number);
    sources := EpisodeProvenance.Contribution(policy, unicode, season.number, seasons, e.sequence);
    ContributionIsAnswered(policy, unicode, documents, s, i);
    SeasonPathIs(season.number);
    EpisodePathIs(season.number, e.sequence.episode);
    if EpisodeProvenance.OwnsItsNumber(season.episodes, i) {
      EpisodeProvenance.OwnerAlone(policy, unicode, documents, s, i);
      RecordedBelowIs(r.provenance, EpisodePath(season.number, e.sequence.episode));
    }
  }

  // ----- conflicts -----

  lemma ReportedText(policy: MergePolicy, unicode: Unicode, paths: seq<string>, field: string,
                     documents: seq<SeriesDocument>, number: nat, q: EpisodeSequence,
                     pick: Episode -> seq<LocalizedEntry>, select: Series -> seq<LocalizedEntry>)
    requires OffersItsPart(EpisodePart(number, q), pick, select)
    ensures var ordered := Parts(policy, Television, paths, documents, EpisodePart(number, q));
            Reports(policy, Television, paths + [field], documents, select, Language(), unicode.Normalize, field,
                    SeriesConflicts.FieldConflicts(policy, unicode, field, ordered, pick))
  {
    var ordered := Parts(policy, Television, paths, documents, EpisodePart(number, q));
    var conflicts := SeriesConflicts.FieldConflicts(policy, unicode, field, ordered, pick);
    SeriesConflicts.FieldConflictsIff(policy, unicode, field, ordered, pick, conflicts);
    PartsAreOrdered(policy, Television, paths, field, documents, EpisodePart(number, q));
    LanguagesAreKeys();
    LosersAreReported(policy, Television, paths + [field], documents, EpisodePart(number, q), pick,
                      LanguageKey(UNTAGGED), select, Language(), unicode.Normalize, field, conflicts);
  }

  // The conflicts of one episode: those of its titles, then those of its summaries.
  ghost predicate EpisodeReports(policy: MergePolicy, unicode: Unicode, paths: seq<string>, path: string,
                                 documents: seq<SeriesDocument>, number: nat, q: EpisodeSequence,
                                 conflicts: seq<MergeConflict>)
  {
    exists a, b ::
      && conflicts == a + b
      && Reports(policy, Television, paths + [path + ".titles"], documents, TitlesOfEpisode(number, q), Language(),
                 unicode.Normalize, path + ".titles", a)
      && Reports(policy, Television, paths + [path + ".summaries"], documents, SummariesOfEpisode(number, q),
                 Language(), unicode.Normalize, path + ".summaries", b)
  }

  lemma EpisodeIsReported(policy: MergePolicy, unicode: Unicode, first: string, path: string, next: string,
                          documents: seq<SeriesDocument>, number: nat, q: EpisodeSequence,
                          ordered: seq<Sourced<Episode>>)
    requires ordered == Parts(policy, Television, [first, path, next], documents, EpisodePart(number, q))
    ensures EpisodeReports(
              policy, unicode, [first, path, next], next, documents, number, q,
              SeriesConflicts.FieldConflicts(policy, unicode, next + ".titles", ordered, EpisodeTitles) +
              SeriesConflicts.FieldConflicts(policy, unicode, next + ".summaries", ordered, EpisodeSummaries))
  {
    ReportedText(policy, unicode, [first, path, next], next + ".titles", documents, number, q, EpisodeTitles,
                 TitlesOfEpisode(number, q));
    ReportedText(policy, unicode, [first, path, next], next + ".summaries", documents, number, q, EpisodeSummaries,
                 SummariesOfEpisode(number, q));
  }

  // The conflicts of the episodes of one season.
  ghost predicate SeasonReports(policy: MergePolicy, unicode: Unicode, first: string, documents: seq<SeriesDocument>,
                                season: Season, conflicts: seq<seq<MergeConflict>>)
  {
    && |conflicts| == |season.episodes|
    && forall i :: 0 <= i < |conflicts| ==>
         var q, path := season.episodes[i].sequence, "series.seasons." + Numeral(season.number);
         var next := path + ".episodes." + Numeral(q.episode);
         EpisodeReports(policy, unicode, [first, path, next], next, documents, season.number, q, conflicts[i])
  }

  // The lists one after another.
  function Concat<T>(lists: seq<seq<T>>): seq<T> {
    if lists == [] then [] else Concat(lists[..|lists| - 1]) + lists[|lists| - 1]
  }

  lemma {:induction false} ChainIsConcat<K, T>(keys: seq<K>, list: K -> seq<T>)
    ensures Chain(keys, list) == Concat(Each(keys, list))
  {
    if keys != [] {
      var n := |keys| - 1;
      ChainIsConcat(keys[..n], list);
      EachStep(keys, list, n);
      assert keys[..n + 1] == keys;
      assert Each(keys, list)[..n] == Each(keys[..n], list);
    }
  }

  lemma EpisodeConflictsAre(policy: MergePolicy, unicode: Unicode, documents: seq<SeriesDocument>, number: nat,
                            q: EpisodeSequence)
    ensures var seasons := EpisodeProvenance.DocumentsOf(policy, documents, number);
            var path := "series.seasons." + Numeral(number);
            var next := path + ".episodes." + Numeral(q.episode);
            EpisodeReports(policy, unicode, ["series", path, next], next, documents, number, q,
                           SeriesConflicts.EpisodeConflicts(policy, unicode, number, seasons)(q))
  {
    var seasons := EpisodeProvenance.DocumentsOf(policy, documents, number);
    var path, next := SeasonPath(number), EpisodePath(number, q.episode);
    SeasonParts(policy, "series", path, documents, number);
    EpisodeParts(policy, "series", path, next, documents, number, q);
    EpisodeIsReported(policy, unicode, "series", path, next, documents, number, q,
                      EpisodeOrder(policy, number, seasons, q));
    SeasonPathIs(number);
    EpisodePathIs(number, q.episode);
    FieldPathsAre(next);
  }

  // The conflicts of the episodes of a season, episode by episode.
  ghost function SeasonLists(policy: MergePolicy, unicode: Unicode, documents: seq<SeriesDocument>)
    : nat -> seq<seq<MergeConflict>>
  {
    (number: nat) =>
      var seasons := EpisodeProvenance.DocumentsOf(policy, documents, number);
      Each(SeriesTheorems.EpisodeSequences(seasons),
           SeriesConflicts.EpisodeConflicts(policy, unicode, number, seasons))
  }

  lemma ListsAreConflicts(policy: MergePolicy, unicode: Unicode, documents: seq<SeriesDocument>, number: nat)
    ensures Concat(SeasonLists(policy, unicode, documents)(number)) ==
            SeriesConflicts.SeasonConflicts(policy, unicode, Ordered(policy, Television, "series", documents))(number)
  {
    var seasons := EpisodeProvenance.DocumentsOf(policy, documents, number);
    ChainIsConcat(SeriesTheorems.EpisodeSequences(seasons),
                  SeriesConflicts.EpisodeConflicts(policy, unicode, number, seasons));
  }

  lemma SeasonIsReported(policy: MergePolicy, unicode: Unicode, documents: seq<SeriesDocument>, s: nat)
    requires Merged(policy, unicode, documents).Ok?
    requires s < |Merged(policy, unicode, documents).value.value.seasons|
    ensures var season := Merged(policy, unicode, documents).value.value.seasons[s];
            SeasonReports(policy, unicode, "series", documents, season,
                          SeasonLists(policy, unicode, documents)(season.number))
  {
    var season := Merged(policy, unicode, documents).value.value.seasons[s];
    var seasons := EpisodeProvenance.DocumentsOf(policy, documents, season.number);
    var keys := SeriesTheorems.EpisodeSequences(seasons);
    EpisodeProvenance.MergedSeason(policy, unicode, documents, s);
    EpisodeProvenance.SameSequences(policy, unicode, season.number, seasons);
    forall i | 0 <= i < |keys|
      ensures var q, path := season.episodes[i].sequence, "series.seasons." + Numeral(season.number);
              var next := path + ".episodes." + Numeral(q.episode);
              EpisodeReports(policy, unicode, ["series", path, next], next, documents, season.number, q,
                             SeasonLists(policy, unicode, documents)(season.number)[i])
    {
      assert EpisodeProvenance.Sequenced(season.episodes)[i] == keys[i];
      EpisodeConflictsAre(policy, unicode, documents, season.number, keys[i]);
    }
  }

  lemma SeriesTextIsReported(policy: MergePolicy, unicode: Unicode, first: string, path: string,
                             documents: seq<SeriesDocument>, pick: Series -> seq<LocalizedEntry>,
                             select: Series -> seq<LocalizedEntry>)
    requires forall s :: pick(s) == select(s)
    ensures Reports(policy, Television, [first, path], documents, select, Language(), unicode.Normalize, path,
                    SeriesConflicts.FieldConflicts(policy, unicode, path,
                                                   Ordered(policy, Television, first, documents), pick))
  {
    var base := Ordered(policy, Television, first, documents);
    var conflicts := SeriesConflicts.FieldConflicts(policy, unicode, path, base, pick);
    SeriesConflicts.FieldConflictsIff(policy, unicode, path, base, pick, conflicts);
    WholeParts(policy, Television, documents, first, path);
    LanguagesAreKeys();
    LosersAreReported(policy, Television, [first, path], documents, Whole(), pick, LanguageKey(UNTAGGED), select,
                      Language(), unicode.Normalize, path, conflicts);
  }

  /** The conflicts are those of the titles, then of the summaries, then of every episode, season by season. */
  lemma ConflictsAreReported(policy: MergePolicy, unicode: Unicode, documents: seq<SeriesDocument>)
    returns (inTitles: seq<MergeConflict>, inSummaries: seq<MergeConflict>,
             inSeasons: seq<seq<seq<MergeConflict>>>)
    requires Merged(policy, unicode, documents).Ok?
    ensures var r := Merged(policy, unicode, documents).value;
            && r.conflicts == inTitles + inSummaries + Concat(Each(inSeasons, episodes => Concat(episodes)))
            && |inSeasons| == |r.value.seasons|
            && (forall s :: 0 <= s < |inSeasons| ==>
                  SeasonReports(policy, unicode, "series", documents, r.value.seasons[s], inSeasons[s]))
    ensures Reports(policy, Television, ["series", "series.titles"], documents, (s: Series) => s.titles, Language(),
                    unicode.Normalize, "series.titles", inTitles)
    ensures Reports(policy, Television, ["series", "series.summaries"], documents, (s: Series) => s.summaries,
                    Language(), unicode.Normalize, "series.summaries", inSummaries)
  {
    var base := Ordered(policy, Television, "series", documents);
    var r := Merged(policy, unicode, documents).value;
    inTitles := SeriesConflicts.FieldConflicts(policy, unicode, TITLES, base, Titles);
    inSummaries := SeriesConflicts.FieldConflicts(policy, unicode, SUMMARIES, base, Summaries);
    SeriesTextIsReported(policy, unicode, "series", TITLES, documents, Titles, (s: Series) => s.titles);
    SeriesTextIsReported(policy, unicode, "series", SUMMARIES, documents, Summaries, (s: Series) => s.summaries);
    inSeasons := SeasonsAreReported(policy, unicode, documents);
    SeriesConflicts.ConflictsAreDisagreements(policy, unicode, documents);
  }

  lemma SeasonsAreReported(policy: MergePolicy, unicode: Unicode, documents: seq<SeriesDocument>)
    returns (inSeasons: seq<seq<seq<MergeConflict>>>)
    requires Merged(policy, unicode, documents).Ok?
    ensures StrictTotal(NumberLess)
    ensures var base, seasons := Ordered(policy, Television, "series", documents),
            Merged(policy, unicode, documents).value.value.seasons;
            && Concat(Each(inSeasons, episodes => Concat(episodes))) ==
               Chain(Ascending(NumbersOf(base), NumberLess), SeriesConflicts.SeasonConflicts(policy, unicode, base))
            && |inSeasons| == |seasons|
            && (forall s :: 0 <= s < |inSeasons| ==>
                  SeasonReports(policy, unicode, "series", documents, seasons[s], inSeasons[s]))
  {
    NumbersAreOrdered();
    var base := Ordered(policy, Television, "series", documents);
    var keys := Ascending(NumbersOf(base), NumberLess);
    inSeasons := Each(keys, SeasonLists(policy, unicode, documents));
    ListsAreChained(policy, unicode, documents, keys);
    ListedSeasons(policy, unicode, documents, keys);
    forall s | 0 <= s < |keys|
      ensures SeasonReports(policy, unicode, "series", documents,
                            Merged(policy, unicode, documents).value.value.seasons[s], inSeasons[s])
    {
      SeasonIsReported(policy, unicode, documents, s);
    }
  }

  lemma ListsAreChained(policy: MergePolicy, unicode: Unicode, documents: seq<SeriesDocument>, keys: seq<nat>)
    ensures Concat(Each(Each(keys, SeasonLists(policy, unicode, documents)), episodes => Concat(episodes))) ==
            Chain(keys, SeriesConflicts.SeasonConflicts(policy, unicode,
                                                        Ordered(policy, Television, "series", documents)))
  {
    var list := SeriesConflicts.SeasonConflicts(policy, unicode, Ordered(policy, Television, "series", documents));
    var lists := Each(keys, SeasonLists(policy, unicode, documents));
    forall s | 0 <= s < |keys| ensures Each(lists, episodes => Concat(episodes))[s] == list(keys[s]) {
      ListsAreConflicts(policy, unicode, documents, keys[s]);
    }
    assert Each(lists, episodes => Concat(episodes)) == Each(keys, list);
    ChainIsConcat(keys, list);
  }

  // The merged seasons have the numbers in ascending order.
  lemma ListedSeasons(policy: MergePolicy, unicode: Unicode, documents: seq<SeriesDocument>, keys: seq<nat>)
    requires Merged(policy, unicode, documents).Ok? && StrictTotal(NumberLess)
    requires keys == Ascending(NumbersOf(Ordered(policy, Television, "series", documents)), NumberLess)
    ensures var seasons := Merged(policy, unicode, documents).value.value.seasons;
            |seasons| == |keys| && forall s :: 0 <= s < |seasons| ==> seasons[s].number == keys[s]
  {
    var base := Ordered(policy, Television, "series", documents);
    EpisodeProvenance.MergedIsSeriesOf(policy, unicode, documents);
    SeriesTheorems.SeasonCount(policy, unicode, base);
    forall s | 0 <= s < |keys| ensures Seasons(policy, unicode, base).value[s].number == keys[s] {
      SeriesTheorems.SeasonAt(policy, unicode, base, s);
    }
  }
}

# Fixer, modelled and proved

Fixer scrapes metadata: it asks several providers for the same movie, series or book, merges their answers, and plans
where files and metadata go. This project models the deterministic core of that work in Dafny and proves what the code
promises about it, for all inputs, all policies and all runs. `dafny verify dfyconfig.toml` checks everything.

Code that works step by step is a method with loops (or a class, where the source keeps state in an object), proved
equal to a specification function; the properties below are then proved about the specification. Unicode tables,
trimming, clocks, the file system and the JSON library are parameters.

- **Merging** (`StableSort`, `MergePolicy`, `Provenance`, `Retention`, `Completeness`, `Media`, `MergeLoops`;
  `MovieMerge`; `SeriesMerge`, `SeriesMerger`, `SeriesTheorems`, `SeriesNormalForm`, `SeriesPaths`,
  `SeriesProvenance`, `EpisodeProvenance`, `SeriesConflicts`; `AnimeMerge`; `ArrivalOrder`, `MovieOrder`,
  `SeriesOrder`, `AnimeOrder`): sourced documents are sorted by provider rank and folded through de-duplicating maps
  while provenance and conflicts are recorded. Merged documents are normal forms; when the arrival order matters is
  known exactly; hierarchies are complete; provenance is aligned with what was kept, down to the fields of every
  episode; conflicts are one for each text that loses. What every field holds is also said directly of the documents
  as they arrive and of the policy's three maps (`FieldPaths`, `Precedence`, `FieldAnswers`, `MediaIdentities`,
  `Normalization`; `MovieAnswers`, `SeriesAnswers`, `EpisodeAnswers`, `AnimeAnswers`).
- **Organization** (`FileTree`, `SourceFiles`, `PathNames`, `Paths`, `Organize`, `OrganizeTheorems`, `OrganizeLayout`,
  `OrganizeStability`, `TemplatedOrganization`, `PlannedMetadata`, `MetadataOnly`; said of names and folders in
  `WalkFacts`, `PlacementFacts`, `SeriesPlanFacts`, `ManifestFacts`): a source tree is mapped to targets
  that never collide; every file is placed once unless planned metadata owns its target; metadata survives, and that
  of a printed episode ends beside its video; links resolve; organizing twice moves nothing, outside two families of
  files.
- **Candidates** (`Candidates`; `MatchFacts`): rank, select, group, and what makes a candidate the better match.
- **Pacing** (`RequestGate`): the exact schedule of the request gate in every interleaving.
- **Parsers and printers** (`PathTemplate`, `EpisodeNames`, `Isbn`, `Escaping`; said of characters in `TemplateFacts`,
  `EpisodeFacts`, `IsbnFacts`): templates, episode stems, ISBN check digits, XML escaping.
- **Configuration** (`ConfigMigration`, `LegacySettings`, `LegacyNames`, `MigrationTwice`, `ConfigHandle`): a migration
  that never overrides, brings every legacy setting, each by its name, home and has known fixed points, and
  persist-then-publish.
- **Live updates** (`JobEvents`): the single-flight reconcile loop.
- **Search** (`LibrarySearch`; `SearchFacts`): the bounded breadth-first search over library roots.
- **Shared ground** (`Options`, `Results`, `Sequences`, `OrderedSets`, `LexicalOrder`, `Decimal`, `Texts`).

Properties a reader might expect and the code does not have, each with an input that shows it and the exact condition
under which the code does have it:

- Arrival order. For series it never matters, whatever the providers send, exactly when no two providers share a rank
  on the base path (`SeriesOrder.OrderNeverMattersIff`). For movies a tie there may stay hidden: exactly when it is
  behind another provider and in no field a tie again (`MovieOrder.OrderNeverMattersIff`). Anime sort every field
  afresh, so distinct ranks on the base path are not enough (`AnimeMerge.BaseRanksAreNotEnough`): no two providers may
  share a rank in the base order or in that of titles, summaries or artwork (`AnimeOrder.OrderNeverMattersIff`).
- Provenance of episodes. What is recorded under the path of an episode is that episode's own exactly when no other
  sequence of the season has its number (`EpisodeProvenance.EpisodeProvenanceIsAlignedIff`;
  `EpisodeProvenance.SharedNumberIsNotAligned`).
- Episode metadata beside its video. The file that is planned for an episode is moved there exactly when its number is
  positive and it is printed in the aired or DVD order (`PlannedMetadata.PlannedNfoIff`); absolute ones keep their
  place below the package (`PlannedMetadata.OtherMetadataStays`).
- A film or a book named after its package. It takes the package's whole name exactly when that name has no extension
  of its own, and keeps its own extension unless that is empty (`OrganizeStability.MediaKeepsThePackageNameIff`; the
  package `D. S` gives `D.mkv`, `OrganizeStability.PackageNameIsCut`).
- Organizing twice. A file organized again from where it was placed stays there exactly when it is not a film or a
  book with an empty extension (`OrganizeStability.EmptyExtensionIsLost`), nor a television file without an episode
  that has one inside its package's directory (`OrganizeStability.SeasonPackageGivesAnIdentity`,
  `OrganizeStability.SeasonDestinationGivesAnIdentity`): `OrganizeStability.MediaTargetsAreStableIff`. A package name
  ending in a dot can give the empty extension back, and the condition says when.
- Two ISBN forms of one book. Two given forms are not checked against each other (`Isbn.GivenFormsMayDisagree`); the
  chosen pair identifies one book exactly when one form was derived, or the first given ISBN-13 carries the body of
  the first given ISBN-10 (`Isbn.CanonicalAgreesIff`).
- Merging three tables in another grouping (`ConfigMigration.MergeIsNotAssociative`): the groupings agree at a path
  exactly unless the middle table hides it from the right one (`ConfigMigration.MergeAssociatesIff`).
- Migrating settings twice. The first pass merges in what the secret references hold, under whatever names
  (`MigrationTwice.MigrationIsNotIdempotent`); the second changes nothing exactly when they are no table, or hold no
  legacy name but their own two (`MigrationTwice.MigratingTwiceIsOnceIff`).

## Model

| member | source | states |
|---|---|---|
| StableSort.StableSortIsUnique | crates/fixer-core/src/merge/mod.rs:221-232 | a list sorted by key that keeps every tie's order is the only such list, so the stable sort is determined by its promise |
| StableSort.OrderForgottenIff | crates/fixer-core/src/merge/television.rs:135-145 | every permutation of a list sorts to the same list exactly when elements that tie are equal |
| MergePolicies.Deduplicate | crates/fixer-core/src/merge/policy.rs:90-98 | the loop keeps exactly the first occurrence of every provider, in order |
| FieldPaths.ValidPathIff | crates/fixer-core/src/merge/policy.rs:14-28 | a field path is valid exactly when it is one or more non-empty segments of ASCII letters, digits, "_" and "-" with a dot between neighbours |
| Precedence.RanksFollowThePolicy | crates/fixer-core/src/merge/policy.rs:71-87 | a provider goes before another exactly when the field's own order, without one the media order, without one the global order, names it and names the other later or not at all |
| Provenance.ProvenanceMap.Add | crates/fixer-core/src/provenance.rs:70-89 | pushes the source at the end of its path's list and leaves every other path alone; an invalid path changes nothing |
| Provenance.ProvenanceMap.Recorded | crates/fixer-core/src/provenance.rs:91-96 | returns exactly the sources added for the path, in order |
| Retention.KeptIsAligned | crates/fixer-core/src/merge/mod.rs:234-252 | the de-duplicating fold keeps exactly the positions that no kept one clashes with, and records exactly their sources |
| Retention.AlignedIsUnique | crates/fixer-core/src/merge/mod.rs:234-275 | that reference definition determines both the values and the sources |
| Retention.RetainedAreFirst | crates/fixer-core/src/merge/mod.rs:234-252 | with a key, the kept positions are exactly the first occurrences of their key |
| Retention.DisagreementsIff | crates/fixer-core/src/merge/television.rs:179-213 | a list of conflicts is the reported one exactly when it holds one conflict for each entry that, normalized, disagrees with the first entry of its map key, in order, naming winner and loser |
| FieldAnswers.PreferredIsKept | crates/fixer-core/src/merge/mod.rs:221-252 | in any answer to a field, what a document sends first of its kind is kept and recorded when the policy, read off its own maps, puts its provider before every other document that sends the same kind |
| FieldAnswers.RetainedIsAnswer | crates/fixer-core/src/merge/mod.rs:176-275 | what the loops retain is the answer: an offer is kept exactly when no earlier one is of its kind, earlier meaning preferred by the policy's maps and arrived sooner on ties, and the answers stand in that order with the source of each |
| FieldAnswers.LosersAreReported | crates/fixer-core/src/merge/mod.rs:176-219 | one conflict for each offered text that disagrees with the first of its language, in the order of the policy's maps, naming the provider that was kept and the one that lost |
| Normalization.NormalizeCollapses | crates/fixer-core/src/merge/mod.rs:289-298 | whatever whitespace stands around and between its words, a text normalizes to its words in lower case with one blank between |
| MediaIdentities.CreditsClashIff | crates/fixer-core/src/merge/mod.rs:254-275 | two credits are one exactly when they have the same person, or names that normalize alike and the same role |
| Completeness.WarnsIffIncomplete | crates/fixer-core/src/merge/mod.rs:138-147 | the completeness is a fraction, and a warning is given exactly when something on the checklist is missing |
| MergeLoops.OrderedForgets | crates/fixer-core/src/merge/television.rs:135-158 | sorting by a field's ranks after sorting by the base ranks gives the same list for every arrival order |
| MergeLoops.MergeUnique | crates/fixer-core/src/merge/mod.rs:234-252 | the loop with its `seen` set yields the retained values, and adds exactly their sources to the provenance, in step |
| MergeLoops.MergeLocalized | crates/fixer-core/src/merge/mod.rs:176-219 | the loop keeps the first entry of every map key, records its source, and reports exactly the later entries that disagree |
| MergeLoops.MergeCredits | crates/fixer-core/src/merge/mod.rs:254-275 | a credit is kept exactly when no kept one shares its person, or its normalized name and role |
| MovieMerge.Merge | crates/fixer-core/src/merge/mod.rs:65-154 | the merge of a non-empty list is the field-by-field retention in each field's precedence order, with provenance, conflicts, completeness and warnings; an empty list is an error |
| MovieMerge.ArrivalOrderDoesNotMatter | crates/fixer-core/src/merge/mod.rs:73-77 | documents with distinct base ranks (more generally: equal where they tie) give the same value, provenance and conflicts in every arrival order, even where field orders leave providers unranked |
| StableSort.TwiceSorted | crates/fixer-core/src/merge/mod.rs:73-77 | sorting by one key and then by another gives the same list for every arrival order when elements that tie in both are equal |
| MovieOrder.OrderNeverMattersIff | crates/fixer-core/src/merge/mod.rs:65-154 | whatever documents a list of providers sends, every arrival order gives the same merge exactly when providers that tie on the base path come after another provider and share no rank in any of the eight fields |
| MovieOrder.TieInFrontShows | crates/fixer-core/src/merge/mod.rs:73-78 | two providers that tie in front of all others can send documents whose merge changes when they swap places |
| MovieOrder.TieInAFieldShows | crates/fixer-core/src/merge/mod.rs:73-137 | so can two that tie on the base path and in any field |
| MovieMerge.MergeIsNormalForm | crates/fixer-core/src/merge/mod.rs:65-154 | merging a merged movie again, from any source under any policy, returns exactly that movie with no conflict |
| MovieMerge.ProvenanceIsAligned | crates/fixer-core/src/merge/mod.rs:176-275 | for every field the i-th recorded source is the one that supplied the i-th retained value |
| MovieMerge.ConflictsAreDisagreements | crates/fixer-core/src/merge/mod.rs:176-219 | the conflicts are one for each title, then one for each summary, that disagrees with the first-ranked entry of its key, in order, and no others |
| MovieAnswers.TextsAreAnswered | crates/fixer-core/src/merge/mod.rs:87-106 | titles and summaries of the merged movie are the answers to "movie.titles" and "movie.summaries" of the documents as they arrived: the first text of every language, each with its source |
| MovieAnswers.WorksAreAnswered | crates/fixer-core/src/merge/mod.rs:107-137 | so are releases by identifier and credits by person, or by name and role |
| MovieAnswers.StylesAreAnswered | crates/fixer-core/src/merge/mod.rs:107-137 | so are genres by normalized name and artwork by identifier, or by kind and place |
| MovieAnswers.RatingsAreAnswered | crates/fixer-core/src/merge/mod.rs:107-137 | so are ratings by system and content ratings by system and value |
| MovieAnswers.BaseSpeaksFirst | crates/fixer-core/src/merge/mod.rs:73-86 | the identifier is that of the document the policy's maps put first |
| MovieAnswers.ConflictsAreReported | crates/fixer-core/src/merge/mod.rs:87-154 | the conflicts are those of the titles and then those of the summaries, each reported in the order of the policy's maps |
| MovieAnswers.CompletenessCounts | crates/fixer-core/src/merge/mod.rs:300-313 | the completeness is the number of titles, summaries, releases, credits, genres and artwork that are there, out of six; below six there is a warning |
| SeriesMerger.CheckOrdering | crates/fixer-core/src/merge/television.rs:56-68 | finds the first episode scheme, in document order, that differs from the series ordering |
| SeriesMerger.MergeEpisodes | crates/fixer-core/src/merge/television.rs:271-344 | the nested loops build the union of the documents' episode sequences in ascending order, each merged from the documents that have it (in the order said in SeriesTheorems.HierarchyIsComplete, of what is said in EpisodeAnswers.EpisodesAreAnswered) |
| SeriesMerger.MergeSeasons | crates/fixer-core/src/merge/television.rs:234-269 | the same for season numbers, reading only the first season of a number per document |
| SeriesMerger.Merge | crates/fixer-core/src/merge/television.rs:38-113 | the whole merge with provenance, conflicts, completeness and warnings, or the error of an empty list or a mixed ordering |
| SeriesTheorems.ArrivalOrderDoesNotMatter | crates/fixer-core/src/merge/television.rs:46-158 | every arrival order gives the same value, provenance, conflicts or error when documents that tie on the base path are equal |
| SeriesOrder.OrderNeverMattersIff | crates/fixer-core/src/merge/television.rs:38-113 | whatever documents a list of providers sends, every arrival order gives the same merge or the same error exactly when no two of them share a rank on the base path |
| SeriesOrder.EveryTieShows | crates/fixer-core/src/merge/television.rs:47-68 | two providers that tie there can send documents whose merge changes when they swap places, if only in the scheme it reports |
| SeriesTheorems.SucceedsIffUniform | crates/fixer-core/src/merge/television.rs:47-68 | the merge succeeds exactly on a non-empty list whose documents and episodes share one ordering scheme |
| SeriesTheorems.HierarchyIsComplete | crates/fixer-core/src/merge/television.rs:234-344 | seasons strictly ascend by number and are the union over all documents; each season's sequences strictly ascend, by scheme, then without a season number before with one, then by season number, then by episode number, and are the union over each document's first season of that number; every scheme is the series ordering |
| SeriesNormalForm.MergeIsNormalForm | crates/fixer-core/src/merge/television.rs:38-113 | merging a merged series again returns exactly that series (titles, seasons, episodes, credits, artwork, order included) with no conflict |
| SeriesProvenance.ProvenanceIsAligned | crates/fixer-core/src/merge/television.rs:160-232 | series titles, summaries and artwork: the i-th recorded source supplied the i-th retained value |
| EpisodeProvenance.EpisodeProvenanceIsAlignedIff | crates/fixer-core/src/merge/television.rs:271-464 | what is recorded under an episode's path supplied its base value, titles, summaries, credits and artwork position by position, and its runtime first, exactly when no other sequence of the season has its number |
| EpisodeProvenance.SharedNumberIsNotAligned | crates/fixer-core/src/merge/television.rs:271-344 | a single document with sequences of one number in one season whose path is not aligned |
| EpisodeProvenance.PathsCollectContributions | crates/fixer-core/src/merge/television.rs:271-344 | in general the sources under an episode path are those of all the season's episodes of that number, one after another in ascending order |
| EpisodeProvenance.ContributionsAreAligned | crates/fixer-core/src/merge/television.rs:271-464 | each of those contributions is aligned with its own episode |
| EpisodeProvenance.SeasonArtworkIsAligned | crates/fixer-core/src/merge/television.rs:405-463 | the sources under a season's artwork path supplied its artwork position by position |
| SeriesConflicts.FieldConflictsIff | crates/fixer-core/src/merge/television.rs:160-213 | a text field reports one conflict for each entry that disagrees with the first of its language, in order, and nothing else |
| SeriesConflicts.ConflictsAreDisagreements | crates/fixer-core/src/merge/television.rs:70-113 | the conflicts of a series are exactly those of its titles, of its summaries, and of the titles and summaries of every episode of every season, seasons and episodes ascending |
| SeriesAnswers.FieldsAreAnswered | crates/fixer-core/src/merge/television.rs:160-232 | titles, summaries and artwork of the merged series are the answers of the documents as they arrived, in the order of the base path and then of their own |
| SeriesAnswers.BaseSpeaksFirst | crates/fixer-core/src/merge/television.rs:47-68 | identifier and scheme are those of the document the policy's maps put first |
| SeriesAnswers.MismatchIsFirst | crates/fixer-core/src/merge/television.rs:47-68 | a failing merge of some documents names the scheme of the document that speaks first and the first deviating scheme of the first deviating document |
| SeriesAnswers.CompletenessCounts | crates/fixer-core/src/merge/television.rs:484-499 | the completeness is the number of titles, summaries, seasons, episodes and artwork that are there, out of five |
| EpisodeAnswers.SeasonsAreAnswered | crates/fixer-core/src/merge/television.rs:234-269 | a merged season comes from the document that speaks first among those that offer it, and its artwork is the answer of these |
| EpisodeAnswers.EpisodesAreAnswered | crates/fixer-core/src/merge/television.rs:271-464 | every merged episode is the answer of the documents that offer its sequence in its season: base, titles, summaries, credits, artwork and runtime, with their sources |
| EpisodeAnswers.ConflictsAreReported | crates/fixer-core/src/merge/television.rs:70-113 | the conflicts are those of the titles, then of the summaries, then of each episode season by season, each reported in the order of the policy's maps |
| AnimeMerge.Merge | crates/fixer-core/src/merge/anime.rs:36-87 | the anime merge, value-keyed per field, with its provenance, completeness and warnings |
| AnimeMerge.ArrivalOrderDoesNotMatter | crates/fixer-core/src/merge/anime.rs:36-149 | arrival order does not matter when documents that tie in any of the orders used are equal |
| AnimeMerge.TiedTitlesFollowArrival | crates/fixer-core/src/merge/anime.rs:89-149 | two documents that tie in the title order, with different first titles, always give different results in the two arrival orders |
| AnimeMerge.BaseRanksAreNotEnough | crates/fixer-core/src/merge/anime.rs:137-149 | a policy and two documents with distinct base ranks whose merge depends on the arrival order |
| AnimeOrder.OrderNeverMattersIff | crates/fixer-core/src/merge/anime.rs:36-149 | whatever documents a list of providers sends, every arrival order gives the same merge exactly when no two of them share a rank in the base, title, summary or artwork order |
| AnimeOrder.EveryTieShows | crates/fixer-core/src/merge/anime.rs:36-149 | two providers that tie in any one of these orders can send documents whose merge changes when they swap places |
| AnimeMerge.MergeIsNormalForm | crates/fixer-core/src/merge/anime.rs:36-135 | merging a merged anime again returns it unchanged |
| AnimeAnswers.FieldsAreAnswered | crates/fixer-core/src/merge/anime.rs:89-149 | titles, summaries and artwork are the answers of the documents as they arrived, each in the order of its own path alone; texts are told apart by their normalized values, across languages |
| AnimeAnswers.BaseSpeaksFirst | crates/fixer-core/src/merge/anime.rs:44-87 | the rest comes from one document, the first in the base order that has cours, or the first of all, and its source is recorded for the relation, and for the cours it has |
| AnimeAnswers.CompletenessCounts | crates/fixer-core/src/merge/anime.rs:177-187 | the completeness is the number of titles, cours and artwork that are there, out of three |
| Candidates.RankIsStable | crates/fixer-core/src/matching/mod.rs:174-192 | ranking is the only permutation that descends by match key and keeps the arrival order of ties; what a higher key means is said in MatchFacts.RankFollowsTheFacts |
| Candidates.RankSucceedsIff | crates/fixer-core/src/matching/mod.rs:174-238 | ranking fails exactly when a candidate is of another media kind than the query |
| Candidates.SelectedIsFirstBest | crates/fixer-core/src/matching/mod.rs:194-205 | the selected candidate has a best key and is the first to arrive with it; on the facts this is MatchFacts.BestIsSelected |
| MatchFacts.RankFollowsTheFacts | crates/fixer-core/src/matching/mod.rs:174-262 | the ranked list holds every candidate once and descends by facts: an identifier of the query beats none; among those without, an exact title with the query's year beats any other, and an exact title an inexact one; within such a group the query's sequence beats another; full ties keep the arrival order |
| MatchFacts.BestIsSelected | crates/fixer-core/src/matching/mod.rs:194-205 | nothing is a better match by these facts than the selected candidate, and whatever arrived before it is a worse one |
| MatchFacts.FirstOtherKind | crates/fixer-core/src/matching/mod.rs:207-215 | ranking reports the first candidate of another kind than the query |
| MatchFacts.GroupFollowsTheFacts | crates/fixer-sdk/src/orchestrator.rs:425-501 | a primary that contradicts the given identifiers stays alone; otherwise the group is the primary followed, in order, by the candidates that fit it and are local twins of it or alone among their provider's, all said of the candidates' fields |
| Candidates.SelectCandidates | crates/fixer-sdk/src/orchestrator.rs:412-423 | a valid index moves that candidate to the front and keeps the rest in order; an invalid one is reported |
| Candidates.CandidateGroup | crates/fixer-sdk/src/orchestrator.rs:425-481 | the filters and the loop yield the group, in order |
| Candidates.GroupMembersIff | crates/fixer-sdk/src/orchestrator.rs:425-501 | a candidate joins the primary exactly when it is compatible and is a local movie with the same facts or the only compatible candidate of its provider |
| Candidates.OnePerOtherProvider | crates/fixer-sdk/src/orchestrator.rs:425-481 | at most one member of every provider other than the primary's |
| Candidates.GroupOfPermutation | crates/fixer-sdk/src/orchestrator.rs:425-481 | permuting the other candidates only permutes the group |
| RequestPacing.RequestGate.Reserve | crates/fixer-provider-musicbrainz/src/provider.rs:111-126 | under the lock: hands out the later of now and the next start, and moves the next start one interval behind it |
| RequestPacing.StartIsMaximum | crates/fixer-provider-musicbrainz/src/provider.rs:103-126 | start k is the maximum over j up to k of now j plus (k - j) intervals, for readings in any order |
| RequestPacing.ScheduleIsLeast | crates/fixer-provider-musicbrainz/src/provider.rs:103-126 | the schedule starts nobody before the reading taken and keeps the interval between neighbours, and no schedule that does starts anyone earlier |
| RequestPacing.StartsAreApart | crates/fixer-provider-musicbrainz/src/provider.rs:103-126 | the i-th and the j-th start are at least j - i intervals apart |
| RequestPacing.WindowHoldsFew | crates/fixer-provider-musicbrainz/src/provider.rs:103-126 | a closed window of length L holds at most L / interval + 1 starts |
| RequestPacing.RunsAreConsistent | crates/fixer-provider-musicbrainz/src/provider.rs:111-126 | every interleaving of callers keeps the exact schedule in lock order, one slot per caller, and releases nobody early |
| RequestPacing.ReleasesArePaced | crates/fixer-provider-musicbrainz/src/provider.rs:111-126 | in every run a caller goes on at least as many intervals after an earlier start as there are slots between |
| RequestPacing.FewCallersGoOn | crates/fixer-provider-musicbrainz/src/provider.rs:111-126 | in every run at most t / interval + 1 callers have gone on by time t |
| RequestPacing.CallersGetThrough | crates/fixer-provider-musicbrainz/src/provider.rs:111-126 | after every run a new caller can go through: it goes on at once, or one interval behind the last start if that is later, and the others stay as they are |
| PathTemplates.ParseExpressions | crates/fixer-writer-local/src/path_template.rs:128-159 | the cursor loop equals the recursive parse, errors included |
| PathTemplates.RenderSource | crates/fixer-writer-local/src/path_template.rs:161-191 | the cursor loop equals the recursive render, errors included |
| PathTemplates.SegmentsReassemble | crates/fixer-writer-local/src/path_template.rs:128-159 | the literals and expressions a source is cut into are the source again |
| TemplateFacts.ParsingIs | crates/fixer-writer-local/src/path_template.rs:128-159 | a source is read from its first opening delimiter to the next closing one and on from there; a missing or a stray closing delimiter is a syntax error |
| TemplateFacts.ExpressionIs | crates/fixer-writer-local/src/path_template.rs:138-156 | the trimmed parts between bars are a variable and its filters; the first unsupported one is the error, the variable before the filters |
| PathTemplates.ParseFollowsSegments | crates/fixer-writer-local/src/path_template.rs:128-159 | an accepted source has one expression per piece, parsed from that piece, and no stray delimiter behind the last |
| PathTemplates.RenderIsInterleaving | crates/fixer-writer-local/src/path_template.rs:161-191 | once parsing accepts a source, rendering fails only for the first missing variable and otherwise is the literals interleaved with the filtered values |
| TemplateFacts.RenderingIs | crates/fixer-writer-local/src/path_template.rs:161-191 | rendering copies the text before an expression, inserts the value of its variable after its filters, and goes on behind it |
| TemplateFacts.FilterIs | crates/fixer-writer-local/src/path_template.rs:175-212 | "lower" and "upper" map the case, "sanitize" makes a blank of every separator, reserved and control character and then one blank of every run between words, and any other filter is refused |
| TemplateFacts.FiltersAre | crates/fixer-writer-local/src/path_template.rs:175-184 | filters apply from left to right |
| PathTemplates.SanitizedIsClean | crates/fixer-writer-local/src/path_template.rs:193-212 | a sanitized value holds no separator, control or reserved character |
| PathTemplates.RenderedPathStaysBelow | crates/fixer-writer-local/src/path_template.rs:122-244 | whatever the values, an accepted rendered path stays lexically below every root |
| TemplateFacts.AcceptedIff | crates/fixer-writer-local/src/path_template.rs:214-244 | a rendered path is accepted exactly when it is not empty, starts with no slash and holds no null character, and every part between slashes is empty, a dot, or a name without a reserved or control character or a blank or dot at its end |
| TemplateFacts.TemplatesAre | crates/fixer-writer-local/src/path_template.rs:113-126 | a source with a null character is refused; a rendered text is returned exactly when it is acceptable |
| Paths.SafePathStaysBelow | crates/fixer-writer-local/src/path_template.rs:214-244 | a validated path joined to a root resolves to the root followed by its names |
| Paths.RelativePath | crates/fixer-writer-local/src/organize.rs:588-611 | the loops compute one step up per remaining name of the origin and then the rest of the target; different anchors give nothing |
| Paths.RelativeReaches | crates/fixer-writer-local/src/organize.rs:588-611 | resolving the result from the origin reaches the target, for absolute paths of normal components |
| Paths.RelativeIsShortest | crates/fixer-writer-local/src/organize.rs:588-611 | no relative path that reaches the target has fewer components |
| SourceFiles.Collect | crates/fixer-writer-local/src/organize.rs:295-326 | the stack walk, with entries sorted and reversed, followed by the final sort, or the first path that cannot be inspected |
| SourceFiles.CollectsTheRegularFiles | crates/fixer-writer-local/src/organize.rs:295-326 | the walk succeeds exactly when everything it meets can be inspected; then its result is in order and holds a path exactly when it leads to a regular file without a symlink |
| SourceFiles.EachFileIsCollectedOnce | crates/fixer-writer-local/src/organize.rs:295-326 | with distinct names per directory the result strictly ascends: each file once |
| WalkFacts.FilesAscend | crates/fixer-writer-local/src/organize.rs:295-326 | of two collected files the earlier has the smaller name at the first place where their paths differ, character by character |
| Organize.PlaceFiles | crates/fixer-writer-local/src/organize.rs:139-178 | the placement loop, up to the first file without a target or the first episode seen twice |
| Organize.ColocateEpisodeSidecars | crates/fixer-writer-local/src/organize.rs:238-293 | in place, every target becomes what the sidecar rules say of the original placements, sources unchanged |
| Organize.RebaseAll | crates/fixer-writer-local/src/organize.rs:205-236 | maps the metadata operations in order, up to the first that is refused |
| Organize.EmitPlacements | crates/fixer-writer-local/src/organize.rs:185-199 | the loop that skips owned targets and refuses a second placement at a target |
| Organize.Organize | crates/fixer-writer-local/src/organize.rs:128-203 | the plan for a package path: placements of the files found, then the metadata operations, or the first error |
| TemplatedOrganization.OrganizeTemplated | crates/fixer-writer-local/src/organize.rs:117-203 | parses, renders and validates the package path, then plans, or the first error of any step |
| TemplatedOrganization.PlacedFilesStayIff | crates/fixer-writer-local/src/organize.rs:117-203 | whatever the template, a file organized again from where it was placed stays exactly under the condition on the file, the rendered package and the destination |
| OrganizeTheorems.PlacingSucceedsIff | crates/fixer-writer-local/src/organize.rs:139-178 | placing succeeds exactly when every file has a target and no two videos share an episode |
| PlacementFacts.PlacingFailsIff | crates/fixer-writer-local/src/organize.rs:139-178 | placing fails exactly when a lone file has no name, a file that takes its place from its extension or from the package finds none there, or two videos claim one episode |
| PlacementFacts.PrimaryIff | crates/fixer-writer-local/src/organize.rs:336-352 | a file is the media's own exactly when its name ends in one of the media's extensions, which are listed, in any case |
| PlacementFacts.MediaGoesTo | crates/fixer-writer-local/src/organize.rs:460-492 | music goes to the package, anime to its cour's folder and an episode to its season's folder, each under its own name; television without an episode goes to the package |
| PlacementFacts.FilmGoesTo | crates/fixer-writer-local/src/organize.rs:460-492 | a film or a book takes the package's name, up to that name's own extension, and keeps its extension |
| PlacementFacts.FileGoesTo | crates/fixer-writer-local/src/organize.rs:139-178 | in a finished plan every file but a television sidecar settles where its own rule says: the only media file and a video with an episode by the media's rule, or at the requested target; other files keep their path below the package |
| OrganizeTheorems.RebasingSucceedsIff | crates/fixer-writer-local/src/organize.rs:205-236 | rebasing succeeds exactly when every operation can be rebased, and then yields them one for one |
| PlacementFacts.RefusedIff | crates/fixer-writer-local/src/organize.rs:524-544 | a metadata operation is refused exactly when its file cannot be taken or its place is outside the destination |
| PlacementFacts.MetadataGoesTo | crates/fixer-writer-local/src/organize.rs:205-236 | in a finished plan a metadata operation stands below the package, unless it is a file "S….nfo" of an episode that a video has: then beside that video's target, under its stem |
| OrganizeTheorems.EmittingSucceedsIff | crates/fixer-writer-local/src/organize.rs:185-199 | emitting succeeds exactly when unowned targets pairwise differ and can be carried out, and then carries out each of them in order |
| PlacementFacts.TransferableIff | crates/fixer-writer-local/src/organize.rs:494-522 | a file can be transferred exactly to a target inside the destination, moved only from an absolute path; a symlink needs a relative path that leads from the target's directory to the file |
| OrganizeTheorems.PlanHasItsParts | crates/fixer-writer-local/src/organize.rs:117-203 | a plan settles every file in order and consists of the unowned placements followed by the metadata; videos have distinct episodes |
| OrganizeTheorems.UnownedFilesArePlacedOnce | crates/fixer-writer-local/src/organize.rs:185-203 | a file whose target no metadata operation owns is placed by exactly one operation, the only one at its target: a transfer in the requested mode, from the file itself or, as a symlink, by the relative path to it |
| OrganizeTheorems.EveryPlacementHasAFile | crates/fixer-writer-local/src/organize.rs:185-203 | every placement in the plan transfers some file in the requested mode, alone at a target that no metadata operation owns |
| OrganizeTheorems.MetadataSurvives | crates/fixer-writer-local/src/organize.rs:199-236 | the plan ends with every metadata operation, once, in order, with its kind, source and content |
| OrganizeLayout.PlansCoverTheTree | crates/fixer-writer-local/src/organize.rs:129-138 | a plan for a directory is made for exactly its regular files, each once |
| OrganizeLayout.EveryTreeFileIsPlannedOnce | crates/fixer-writer-local/src/organize.rs:117-203 | every regular file of the source tree settles once; exactly one operation of the finished plan transfers it there in the requested mode, alone at its target, unless metadata owns that target, and then nothing places it |
| OrganizeLayout.PlannedTargetsStayBelow | crates/fixer-core/src/output/plan.rs:140-156 | every planned target stays lexically below the destination |
| PathNames.JoinLeads | crates/fixer-writer-local/src/organize.rs:524-544 | joining a target to its package or destination gives a well-formed path that leads where the target leads from there; an absolute target, or one joined to nothing, stays as it is |
| OrganizeLayout.LinksReachTheirSources | crates/fixer-writer-local/src/organize.rs:494-522 | a symlink is planned unless its source is the directory that holds it; it resolves to its source from there, and no shorter link does; targets may start with a dot component |
| OrganizeLayout.VideosStay | crates/fixer-writer-local/src/organize.rs:238-293 | sidecar handling never moves a video |
| OrganizeLayout.SubtitlesFollowTheirVideo | crates/fixer-writer-local/src/organize.rs:271-292 | a subtitle that continues exactly one video's stem lands in that video's directory, under its new stem with the old suffix |
| PlacementFacts.SidecarGoesTo | crates/fixer-writer-local/src/organize.rs:271-292 | in a finished plan a sidecar that continues the stem of exactly one video settles beside it, under the video's new stem with what continued the old one |
| PlacementFacts.OtherSidecarsStay | crates/fixer-writer-local/src/organize.rs:271-292 | a sidecar that continues the stem of none or of several settles where its own rule says |
| OrganizeLayout.EpisodeMetadataMeetsItsVideo | crates/fixer-writer-local/src/organize.rs:205-270 | planned episode metadata is written beside the video's target, and a source metadata file of the same episode settles on that same, owned target |
| PlannedMetadata.PlanSeries | crates/fixer-writer-local/src/television.rs:34-55 | the loops plan one file for the series, one for every season and one for every episode, in order |
| SeriesPlanFacts.SeriesPlanIs | crates/fixer-writer-local/src/television.rs:34-157 | the plan of a series is "tvshow.nfo", then for each season in order "season.nfo" and one file per episode in the season's folder, the names spelled out (a missing season counts as zero), each with its own content, and nothing else |
| PlannedMetadata.PlannedNfoIff | crates/fixer-writer-local/src/television.rs:148-157 | the file of an episode is its planned metadata exactly when its number is positive and it is printed in the aired or DVD order, for every 32-bit season and number |
| PlannedMetadata.PrintedMetadataMeetsItsVideo | crates/fixer-writer-local/src/organize.rs:205-236 | organizing a series puts the metadata of every such episode that a video identifies beside that video's target |
| PlannedMetadata.OtherMetadataStays | crates/fixer-writer-local/src/organize.rs:205-236 | the metadata of every other episode, the absolute ones among them, ends below the package under its own name, whatever the videos |
| OrganizeStability.MediaKeepsThePackageNameIff | crates/fixer-writer-local/src/organize.rs:460-492 | a film or book takes the package's whole name exactly when that name has no extension of its own, and keeps its own extension exactly when that is not empty or the cut name ends in a dot |
| OrganizeStability.PackageNameIsCut | crates/fixer-writer-local/src/organize.rs:460-492 | the package "D. S" names its film "D.mkv" |
| OrganizeStability.MediaTargetsAreStableIff | crates/fixer-writer-local/src/organize.rs:460-492 | for every media kind, organizing a file from where it was placed leaves it there exactly under a condition on the file, the package and the destination that fails for two families: films and books with an empty extension, and television files that gain an episode from the package's directory |
| OrganizeStability.EmptyExtensionIsLost | crates/fixer-writer-local/src/organize.rs:460-492 | the film "x." is placed at "A/A", from where it cannot be organized again |
| OrganizeStability.SeasonPackageGivesAnIdentity | crates/fixer-writer-local/src/organize.rs:460-492 | a numbered file without a season, placed in the package "Season 01", gains a season folder the second time |
| OrganizeStability.SeasonDestinationGivesAnIdentity | crates/fixer-writer-local/src/organize.rs:460-492 | so does one in the package "." when the destination is named like a season |
| OrganizeLayout.KeptPathsDoNotCollide | crates/fixer-writer-local/src/organize.rs:155-165 | files that keep their relative paths below the package never share a target |
| MetadataOnly.Filter | crates/fixer-writer-local/src/organize.rs:354-387 | drops the transfers and rewrites the manifests, or the first error |
| MetadataOnly.KeepsTheRest | crates/fixer-writer-local/src/organize.rs:354-387 | what is left is what was no transfer, in order, at its target, with only manifests rewritten |
| ManifestFacts.FilteredPlanIs | crates/fixer-writer-local/src/organize.rs:354-387 | a filtered plan is what was no transfer, in order and with its content untouched, but for files named "fixer-manifest.json": these are written anew without the dropped targets |
| ManifestFacts.FilteringFailsAt | crates/fixer-writer-local/src/organize.rs:354-387 | filtering fails exactly at the first manifest that cannot be read or has no safe target |
| MetadataOnly.ManifestsTellTheTruth | crates/fixer-writer-local/src/organize.rs:354-576 | the content a filtered plan writes for a manifest lists a planned file exactly when the original did and the file names no dropped transfer, and keeps the rest |
| MetadataOnly.TablesTellTheTruth | crates/fixer-writer-local/src/organize.rs:546-576 | the same for an object of planned files |
| MetadataOnly.FilteringIsIdempotent | crates/fixer-writer-local/src/organize.rs:354-387 | filtering a filtered plan changes nothing, for a JSON library that reads back the rewritten manifests |
| MetadataOnly.LawfulCodecsRoundTrip | crates/fixer-writer-local/src/organize.rs:546-576 | a JSON library whose objects hold every key once, and that reads back what it writes, is such a library |
| EpisodeNames.Number | crates/fixer-writer-local/src/episode_path.rs:62-73 | the digit loop with checked arithmetic succeeds exactly on a non-empty digit run whose value is below 2^32, yields that value, and leaves the cursor behind the run |
| EpisodeNames.EpisodeNumber | crates/fixer-writer-local/src/episode_path.rs:6-61 | the marker scan, then the season folder |
| EpisodeNames.MarkedStemsDecideIff | crates/fixer-writer-local/src/episode_path.rs:6-47 | a stem with a marker identifies an episode exactly when it has exactly one boundary-respecting marker and that one is single |
| EpisodeFacts.IdentityIff | crates/fixer-writer-local/src/episode_path.rs:6-61 | a name identifies an episode exactly when its only marker, read character by character, is "S", digits, "E", digits without another episode behind, or, without a marker, a number in the folder "Season" and a number |
| EpisodeFacts.PrintedNames | crates/fixer-writer-local/src/television.rs:144-157 | the printed names are "S" and "E" with at least two digits each, "E" with at least four for absolute episodes, and "Season" with at least two |
| EpisodeNames.StemRoundTrip | crates/fixer-writer-local/src/television.rs:148-157 | the printed stem of every u32 season and positive u32 episode parses back to the pair |
| EpisodeNames.StemsAreInjective | crates/fixer-writer-local/src/television.rs:148-157 | distinct pairs print distinct stems |
| EpisodeNames.AbsoluteRoundTrip | crates/fixer-writer-local/src/television.rs:144-157 | an absolute stem inside its printed season folder parses back to season and episode |
| EpisodeNames.IdentityInItsSeason | crates/fixer-writer-local/src/episode_path.rs:48-61 | an identified file keeps its identity inside the printed folder of its season |
| Isbn.RoundTrip10 | crates/fixer-provider-local/src/book.rs:222-253 | every valid ISBN-10 converts to a valid ISBN-13 that converts back to it |
| Isbn.RoundTrip13 | crates/fixer-provider-local/src/book.rs:222-253 | every valid 978 ISBN-13 converts to a valid ISBN-10 that converts back to it |
| Isbn.To10SucceedsIff | crates/fixer-provider-local/src/book.rs:233-253 | an ISBN-13 converts exactly when it starts with 978, and never fails re-validation |
| IsbnFacts.Valid10Iff | crates/fixer-core/src/media/book.rs:13-30 | an ISBN-10 is nine digits and a digit or an "X" whose sum with the weights ten down to one is a multiple of eleven |
| IsbnFacts.Valid13Iff | crates/fixer-core/src/media/book.rs:43-64 | an ISBN-13 is thirteen digits whose sum, with every second one tripled, is a multiple of ten |
| Isbn.Substitution10IsRejected | crates/fixer-core/src/media/book.rs:13-30 | the ISBN-10 check rejects every substitution of one character |
| Isbn.Swap10IsRejected | crates/fixer-core/src/media/book.rs:13-30 | the ISBN-10 check rejects every swap of two unequal characters |
| Isbn.Substitution13IsRejected | crates/fixer-core/src/media/book.rs:43-64 | the ISBN-13 check rejects every substitution of one digit |
| Isbn.Swap13PassesIff | crates/fixer-core/src/media/book.rs:43-64 | a swap of neighbours passes the ISBN-13 check exactly when the digits differ by a multiple of five |
| Isbn.CanonicalIsbns | crates/fixer-provider-local/src/book.rs:192-220 | the scan keeps the first valid identifier of each form and derives a missing one |
| Isbn.CanonicalFailsIff | crates/fixer-provider-local/src/book.rs:192-220 | it fails exactly when no identifier is an ISBN-10 and the first ISBN-13, if any, is not 978 |
| Isbn.CanonicalAgreesIff | crates/fixer-provider-local/src/book.rs:192-220 | both results are valid and keep the first given forms; they identify one book exactly when a form was derived, or the first given ISBN-13 is 978 followed by the body of the first given ISBN-10 |
| Isbn.GivenFormsMayDisagree | crates/fixer-provider-local/src/book.rs:192-220 | two valid given identifiers of different books that are both chosen |
| Escaping.EscapersAgree | crates/fixer-writer-local/src/book.rs:268-275 | ampersand-first chained replacement equals the single-pass map on every string |
| Escaping.NothingRawIsLeft | crates/fixer-writer-local/src/nfo.rs:84-96 | the output holds no raw angle bracket or quote |
| Escaping.DecodeRestores | crates/fixer-writer-local/src/nfo.rs:84-96 | decoding the predefined entities (section 4.6 of XML 1.0) restores the input |
| ConfigMigration.InsertMeaning | crates/fixer-runtime/src/config.rs:931-945 | after an insert every leaf path holds what it held, except that a free, unblocked target holds exactly the inserted value |
| ConfigMigration.InsertNeverOverrides | crates/fixer-runtime/src/config.rs:931-945 | an insert keeps every leaf that was present |
| ConfigMigration.MergeNested | crates/fixer-runtime/src/config.rs:947-961 | the loop over the incoming entries, in any order, equals the recursive merge |
| ConfigMigration.MergeMeaning | crates/fixer-runtime/src/config.rs:947-961 | after a merge every leaf path holds the existing setting where one decides the path, and the incoming one elsewhere |
| ConfigMigration.MergeNeverOverrides | crates/fixer-runtime/src/config.rs:947-961 | a merge keeps every leaf that was present |
| ConfigMigration.MergeAssociatesIff | crates/fixer-runtime/src/config.rs:947-961 | the two groupings of a merge of three tables agree at a path exactly unless the middle table ends that path at a leaf where the first goes on, undecided, and the third has a leaf there |
| ConfigMigration.TakeLegacyValue | crates/fixer-runtime/src/config.rs:876-885 | the loop removes every alias and returns the first that was present |
| ConfigMigration.MovesMigrate | crates/fixer-runtime/src/config.rs:876-891 | after a list of moves each target, and every path below it, holds the canonical setting if one decides it, and otherwise its first present alias |
| LegacySettings.MigrationNeverOverrides | crates/fixer-runtime/src/config.rs:779-874 | every canonical setting of the file keeps its value through the whole migration |
| LegacySettings.LegacySettingsMigrate | crates/fixer-runtime/src/config.rs:787-874 | the eight top-level moves: a legacy setting, with all below it, reaches its target through the whole migration unless a canonical one decides it; the first alias beats later ones |
| LegacyNames.NamedSettingsArrive | crates/fixer-runtime/src/config.rs:796-837 | the eight moves by name: for each target path, spelled out, what the legacy name held is there unless the file decides that path itself; "api_key" before "tmdb_api_token", "anilist_token" before "anilist_access_token" |
| LegacyNames.FirstTokenWins | crates/fixer-runtime/src/config.rs:796-800 | a plain "api_key" arrives whatever "tmdb_api_token" holds, and that one arrives when it is alone |
| LegacyNames.FailsIff | crates/fixer-runtime/src/config.rs:787-851 | the migration fails exactly when a removed confidence setting is present, or the anilist switch is consulted and is no truth value |
| LegacySettings.WorkerCountMigrates | crates/fixer-runtime/src/config.rs:779-786 | the server's worker count becomes its queue capacity unless that is set |
| LegacySettings.AnilistSwitchMigrates | crates/fixer-runtime/src/config.rs:838-851 | the anilist switch becomes the list of providers unless one is given |
| LegacyNames.SwitchArrives | crates/fixer-runtime/src/config.rs:838-851 | the providers are the default ones by name, with anilist behind them exactly when the switch is on |
| LegacySettings.SecretReferencesMigrate | crates/fixer-runtime/src/config.rs:852-874 | each secret reference reaches its provider unless a setting already decides that place |
| LegacyNames.ReferencesArrive | crates/fixer-runtime/src/config.rs:852-874 | the two references by name, at the two target paths spelled out |
| MigrationTwice.FixedIffModern | crates/fixer-runtime/src/config.rs:779-874 | a file is a fixed point of the migration exactly when it holds no legacy setting and no table of secret references |
| MigrationTwice.MigratingTwiceIsOnceIff | crates/fixer-runtime/src/config.rs:779-874 | a second migration changes nothing exactly when the secret references are no table, or hold none of the names handled at the top level other than their own two, no table of references, and no worker count that reaches the server |
| MigrationTwice.MigrationIsNotIdempotent | crates/fixer-runtime/src/config.rs:779-874 | a file that a second pass migrates further |
| ConfigPublication.ConfigHandle.ReplaceAfter | crates/fixer-runtime/src/config.rs:554-573 | a validated proposal is written to the file and then to memory, in that order; when validation or the rename fails neither is written |
| ConfigPublication.MemoryFollowsFile | crates/fixer-runtime/src/config.rs:536-573 | in every run the in-memory configurations after the initial one are a prefix of the persisted ones, at most one behind, and equal when no writer holds the lock |
| ConfigPublication.SnapshotsArePersisted | crates/fixer-runtime/src/config.rs:536-540 | every snapshot is the initial or a persisted configuration, and snapshots never go back |
| ConfigPublication.FailedWritersLeaveNoTrace | crates/fixer-runtime/src/config.rs:554-573 | in every run, leaving out the steps of a writer that failed or has not passed the rename gives a run with the same file history, memory, publications and snapshots |
| ConfigPublication.PersistedNumberThePassed | crates/fixer-runtime/src/config.rs:554-573 | in every run there are exactly as many persisted configurations as writers that got past the rename |
| ConfigPublication.PersistedWereValidated | crates/fixer-runtime/src/config.rs:554-573 | in every run everything persisted passed validation |
| ConfigPublication.WritersGetThrough | crates/fixer-runtime/src/config.rs:554-573 | while nobody holds the lock a new writer gets through: a valid proposal ends in the file and in memory and is what the next reader gets; an invalid or unwritten one changes neither; the lock is free again |
| JobEvents.JobEventConnection.RequestReconcile | web/src/lib/sse.ts:87-102 | starts a reconcile unless one is in flight or the connection is closed; behind one in flight it sets the pending flag |
| JobEvents.JobEventConnection.OnSettled | web/src/lib/sse.ts:95-101 | ends the flight, and starts again exactly when a request was pending and the connection is open |
| JobEvents.RunsAreSingleFlightAndLoseNothing | web/src/lib/sse.ts:80-137 | in every run: one reconcile in flight at most, pending only behind one in flight, when idle and open every accepted request has a start at or after it, no start after close, never more starts than requests |
| LibrarySearch.Search | crates/fixer-server/src/workspace.rs:433-454 | refuses an empty or overlong query and a limit outside 1 to 100, and otherwise reports root, displayed path and name of what the bounded search for the lower-cased query finds |
| LibrarySearch.SearchRoots | crates/fixer-server/src/workspace.rs:452-505 | the three loops, with their two early exits, give the matches within the visit budget cut at the limit, and a `truncated` flag that is set exactly when either bound was exceeded |
| LibrarySearch.SearchIsTruthful | crates/fixer-server/src/workspace.rs:433-505 | results number at most `limit`, are a prefix of the full list, are the whole list when not truncated, and are complete exactly when nothing was cut off |
| SearchFacts.WantedIff | crates/fixer-server/src/workspace.rs:433-490 | a name is wanted exactly when its lower-cased form holds the trimmed and lower-cased query somewhere |
| SearchFacts.BoundedIs | crates/fixer-server/src/workspace.rs:452-505 | the search looks at the first 10000 entries and reports the first wanted files among them, up to the limit; it says that something may be missing exactly when there are more entries, or more wanted files |
| LibrarySearch.SearchIsBreadthFirst | crates/fixer-server/src/workspace.rs:455-475 | the queue lists a tree level by level |
| SearchFacts.CloserComesFirst | crates/fixer-server/src/workspace.rs:455-475 | no entry is visited before one that lies closer to the root |
| SearchFacts.RootsInTurn | crates/fixer-server/src/workspace.rs:452-475 | one root is searched after another |
| LibrarySearch.SearchIsAPermutedWalk | crates/fixer-server/src/workspace.rs:455-475 | the queue visits every entry exactly as often as a depth-first walk does |
| LibrarySearch.SearchVisitsIff | crates/fixer-server/src/workspace.rs:455-480 | an entry is visited exactly when a path through readable directories, not through symlinks, leads to it |
| LibrarySearch.UncutResultsAreTheMatchingFiles | crates/fixer-server/src/workspace.rs:433-505 | uncut results are exactly the regular files with a matching name that some root reaches |
| LibrarySearch.ReportsAreDistinct | crates/fixer-server/src/workspace.rs:485-490 | the reported root and displayed path determine the visited path when no name holds a slash |

## Left out

- Completeness is the exact quotient, without the rounding of `f32`; it is below one in the code exactly when it is in the model. The wording of warnings and conflicts, and timestamps, are not modelled: a warning is its code, a conflict its path and its two providers.
- Language tags: a tag is its original text and its canonical key; parsing and registry validation are not part of this model.
- Unicode: whitespace, control characters and case mapping are parameters, and texts are sequences of characters, so byte lengths are a parameter too.
- The television map key for untagged texts is itself a well-formed tag; uniqueness is therefore per map key, as in the code.
- Locks are modelled by the order of critical sections; lock poisoning and the overflow of monotonic clock values are not.
- JobEvents.RunsAreSingleFlightAndLoseNothing: a reconcile callback that throws synchronously is not modelled; the code assumes it does not.
- TemplatedOrganization.OrganizeTemplated: the template's context and the built-in templates, which come from the metadata, are inputs; the destination is absolute, and names are text; paths that are not text, Windows prefixes and canonicalization are not part of this model.
- SourceFiles.EachFileIsCollectedOnce: distinct names per directory is what a file system guarantees; the model states it as a condition.
- LibrarySearch.Search: directory entries that fail to be read at all are skipped by the code without being counted, and are not part of the tree; names are text, so lossy conversion is not modelled, and every visited path lies below its root, so the error of a path outside it cannot arise.
- PlannedMetadata.PlanSeries: the XML text of a planned file is a parameter.
- PathTemplates.RenderSource: a template context is a map from variables to values; how the context is filled from a movie is not modelled.
- Agreement between the local provider's own season and episode parser and `episode_number`: they differ by design on word boundaries.
- The output executor, job runtime, database, HTTP clients, provider requests, command line, server routing, authentication and web components: plumbing around the modelled core.
- Lost updates between concurrent settings requests: the code reads, edits and replaces without holding the lock, so only the publish protocol is stated.

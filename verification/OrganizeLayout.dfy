/** Where a plan puts things: episodes and their sidecars, the files of a tree, links, and names. */
module OrganizeLayout {
  import opened Options
  import opened Organize
  import opened OrganizeTheorems
  import opened PathNames
  import opened Paths
  import opened Results
  import opened Sequences
  import opened Texts
  import EpisodeNames
  import FileTrees
  import LexicalOrder
  import SourceFiles

  // ----- videos and sidecars -----

  lemma SidecarsHaveThreeLetters(extension: string)
    requires extension in SIDECARS
    ensures |extension| == 3
  {
  }

  lemma VideosAreNoSidecars(extension: string)
    requires extension in VIDEO
    ensures extension !in SIDECARS
  {
    if |extension| == 3 {
      var a, b, c := extension[0], extension[1], extension[2];
      assert extension == [a, b, c];
    }
  }

  /** Videos stay where the placement loop put them. */
  lemma VideosStay(placements: seq<Placement>, episodes: map<EpisodeKey, Path>, text: EpisodeNames.Text, i: nat)
    requires i < |placements| && IsPrimary(placements[i].source, Television)
    ensures Colocated(placements, episodes, Television, text)[i] == placements[i]
  {
    VideosAreNoSidecars(ExtensionText(placements[i].source));
  }

  lemma SuffixIsLong(name: string, stem: string)
    requires StartsWith(name, stem) && |stem| < |name| && name[|stem|] == '.'
    requires ExtensionOf(name).Some? && |ExtensionOf(name).value| == 3
    ensures |name| >= |stem| + 4
  {
    assert LastDot(name).value >= |stem|;
  }

  /** A subtitle that continues exactly one video's stem lands beside that video, under the video's new stem. */
  lemma SubtitlesFollowTheirVideo(p: Placement, videos: seq<Placement>, v: nat, episodes: map<EpisodeKey, Path>,
                                  text: EpisodeNames.Text)
    requires ExtensionText(p.source) in SIDECARS && ExtensionText(p.source) != NFO
    requires v < |videos| && FileName(videos[v].target).Some?
    requires Accompanies(FileName(p.source).value, videos[v])
    requires forall u :: 0 <= u < |videos| && u != v ==> !Accompanies(FileName(p.source).value, videos[u])
    ensures var target, name, stem := Sidecar(p, videos, episodes, text), FileName(p.source).value,
            FileStem(videos[v].source).value;
            && Parent(target) == Parent(videos[v].target)
            && FileName(target) == Some(FileStem(videos[v].target).value + name[|stem|..])
  {
    var name := FileName(p.source).value;
    var accompanies := (video: Placement) => Accompanies(name, video);
    FilteredOne(videos, accompanies, v);
    SidecarsHaveThreeLetters(ExtensionText(p.source));
    SuffixIsLong(name, FileStem(videos[v].source).value);
  }

  lemma NfoMovesToItsEpisode(placements: seq<Placement>, episodes: map<EpisodeKey, Path>, text: EpisodeNames.Text,
                             i: nat)
    requires i < |placements| && ExtensionText(placements[i].source) == NFO
    requires Episode(placements[i].source, text).Some? && Episode(placements[i].source, text).value in episodes
    ensures Colocated(placements, episodes, Television,
                      text)[i].target == episodes[Episode(placements[i].source, text).value]
  {
    assert SIDECARS[7] == NFO;
  }

  // A planned metadata file of the episode.
  predicate PlannedNfo(operation: Operation, key: EpisodeKey, text: EpisodeNames.Text) {
    && operation.WriteBytes?
    && Extension(operation.target) == Some(NFO)
    && StartsWith(FileStem(operation.target).value, "S")
    && Episode(operation.target, text) == Some(key)
  }

  lemma MetadataMovesToItsEpisode(operation: Operation, key: EpisodeKey, episodes: map<EpisodeKey, Path>,
                                  request: Request)
    requires request.kind.Television? && PlannedNfo(operation, key, request.text) && key in episodes
    requires Rebase(operation, episodes, request).Ok?
    ensures Rebase(operation, episodes, request).value == WriteBytes(episodes[key], operation.content)
  {
  }

  lemma SettledEpisodes(files: seq<Path>, request: Request, v: nat, i: nat, key: EpisodeKey)
    requires Planned(files, request).Ok? && request.kind.Television? && v < |files| && i < |files|
    requires VideoEpisode(files[v], request) == Some(key)
    requires ExtensionText(files[i]) == NFO && Episode(files[i], request.text) == Some(key)
    ensures var episodes, settled := PlaceAll(files, Asked(files, request)).value.episodes,
            PartsOf(files, request).settled;
            && key in episodes && |settled| == |files|
            && settled[i].target == episodes[key] == WithExtension(settled[v].target, NFO)
  {
    var ask := Asked(files, request);
    var placed := PlaceAll(files, ask).value;
    PlacedInOrder(files, ask);
    EpisodeTargets(files, ask, v);
    VideosStay(placed.placements, placed.episodes, request.text, v);
    NfoMovesToItsEpisode(placed.placements, placed.episodes, request.text, i);
  }

  /** Planned episode metadata meets its video: it is written beside the video's target, and a metadata file of the
      same episode in the source settles there too, so the planned one owns its target. */
  lemma EpisodeMetadataMeetsItsVideo(files: seq<Path>, request: Request, v: nat, i: nat, j: nat, key: EpisodeKey)
    requires Planned(files, request).Ok? && request.kind.Television?
    requires v < |files| && i < |files| && j < |request.metadata|
    requires VideoEpisode(files[v], request) == Some(key)
    requires ExtensionText(files[i]) == NFO && Episode(files[i], request.text) == Some(key)
    requires PlannedNfo(request.metadata[j], key, request.text)
    ensures var parts := PartsOf(files, request);
            && |parts.settled| == |files| && |parts.metadata| == |request.metadata|
            && parts.metadata[j] == WriteBytes(WithExtension(parts.settled[v].target, NFO), request.metadata[j].content)
            && parts.settled[i].target == parts.metadata[j].target
            && parts.settled[i].target in Targets(parts.metadata)
  {
    var parts := PartsOf(files, request);
    var episodes := PlaceAll(files, Asked(files, request)).value.episodes;
    var rebase := Rebasing(episodes, request);
    SettledEpisodes(files, request, v, i, key);
    RebasingSucceedsIff(request.metadata, rebase);
    assert rebase(request.metadata[j]) == Ok(parts.metadata[j]);
    MetadataMovesToItsEpisode(request.metadata[j], key, episodes, request);
    assert parts.metadata[j] in parts.metadata;
  }

  // ----- the files of a source tree -----

  lemma DownsAreInjective(a: seq<string>, b: seq<string>)
    requires Downs(a) == Downs(b)
    ensures a == b
  {
    assert |a| == |Downs(a)| == |b|;
    forall i | 0 <= i < |a| ensures a[i] == b[i] {
      assert Downs(a)[i] == Downs(b)[i];
    }
  }

  lemma BelowIsInjective(root: Path, a: seq<string>, b: seq<string>)
    requires root + Downs(a) == root + Downs(b)
    ensures a == b
  {
    assert Downs(a) == (root + Downs(a))[|root|..] == Downs(b);
    DownsAreInjective(a, b);
  }

  /** A plan for a source directory is made for exactly its regular files, reached without a symlink, each once. */
  lemma PlansCoverTheTree(request: Request, root: FileTrees.Node, path: seq<string>)
    requires request.directory == Some(root) && root.Dir? && SourceFiles.DistinctNames(root)
    requires Organized(request).Ok?
    ensures SourceList(request).Ok?
    ensures request.source + Downs(path) in SourceList(request).value <==> FileTrees.Reaches(root, path, FileTrees.File)
    ensures var files := SourceList(request).value;
            forall i, j :: 0 <= i < j < |files| ==> files[i] != files[j]
  {
    SourceFiles.CollectsTheRegularFiles(root, path);
    SourceFiles.EachFileIsCollectedOnce(root);
    LexicalOrder.PathOrder();
    var paths := SourceFiles.SortedFiles(SourceFiles.Walk([SourceFiles.Start(root)])).paths;
    var files := SourceList(request).value;
    if request.source + Downs(path) in files {
      var i :| 0 <= i < |files| && files[i] == request.source + Downs(path);
      BelowIsInjective(request.source, path, paths[i]);
    }
    if path in paths {
      var i :| 0 <= i < |paths| && paths[i] == path;
      assert files[i] == request.source + Downs(path);
    }
    forall i, j | 0 <= i < j < |files| ensures files[i] != files[j] {
      assert LexicalOrder.PathBefore(paths[i], paths[j]);
      if files[i] == files[j] { BelowIsInjective(request.source, paths[i], paths[j]); }
    }
  }

  // The placement of a file is the only one with that source.
  ghost predicate SettledAs(settled: seq<Placement>, source: Path, p: Placement) {
    p in settled && p.source == source && forall q <- settled :: q.source == source ==> q == p
  }

  lemma OnePlacementPerFile(files: seq<Path>, settled: seq<Placement>, source: Path)
    requires |settled| == |files| && forall i :: 0 <= i < |files| ==> settled[i].source == files[i]
    requires forall i, j :: 0 <= i < j < |files| ==> files[i] != files[j]
    requires source in files
    ensures exists p :: SettledAs(settled, source, p)
  {
    var i :| 0 <= i < |files| && files[i] == source;
    forall q | q in settled && q.source == source ensures q == settled[i] {
      var j :| 0 <= j < |settled| && settled[j] == q;
      assert files[j] == files[i];
    }
    assert SettledAs(settled, source, settled[i]);
  }

  /** Every regular file of the tree, reached without a symlink, has exactly one settled placement. Exactly one
      operation of the plan carries it out, alone at its target, unless a metadata operation owns that target; then
      none does. */
  lemma EveryTreeFileIsPlannedOnce(request: Request, root: FileTrees.Node, path: seq<string>) returns (p: Placement)
    requires request.directory == Some(root) && root.Dir? && SourceFiles.DistinctNames(root)
    requires Organized(request).Ok? && FileTrees.Reaches(root, path, FileTrees.File)
    ensures SourceList(request).Ok? && Planned(SourceList(request).value, request).Ok?
    ensures var parts := PartsOf(SourceList(request).value, request);
            && Organized(request).value == parts.placing + parts.metadata
            && SettledAs(parts.settled, request.source + Downs(path), p)
            && (p.target !in Targets(parts.metadata) ==> exists k :: PlacedAt(Organized(request).value, k, p, request))
            && (p.target in Targets(parts.metadata) ==> p.target !in Targets(parts.placing))
  {
    PlansCoverTheTree(request, root, path);
    var files := SourceList(request).value;
    var parts := PartsOf(files, request);
    PlanHasItsParts(files, request);
    OnePlacementPerFile(files, parts.settled, request.source + Downs(path));
    p :| SettledAs(parts.settled, request.source + Downs(path), p);
    if p.target !in Targets(parts.metadata) {
      UnownedFilesArePlacedOnce(files, request, p);
    } else {
      OwnedTargetsAreNotPlaced(files, request, p.target);
    }
  }

  // ----- targets and links -----

  /** Every planned target stays lexically below the destination, whatever the destination. */
  lemma PlannedTargetsStayBelow(files: seq<Path>, request: Request, k: nat, destination: seq<string>)
    requires Planned(files, request).Ok? && k < |Planned(files, request).value|
    ensures destination <= Resolve(destination, Planned(files, request).value[k].target)
  {
    var parts := PartsOf(files, request);
    var plan := Planned(files, request).value;
    PlanHasItsParts(files, request);
    if k < |parts.placing| {
      assert CarryingOut(request)(parts.unowned[k]) == Ok(parts.placing[k]);
      CarryingOutIsSafe(parts.unowned[k], request);
    } else {
      var j := k - |parts.placing|;
      var rebase := Rebasing(PlaceAll(files, Asked(files, request)).value.episodes, request);
      RebasingSucceedsIff(request.metadata, rebase);
      assert rebase(request.metadata[j]) == Ok(parts.metadata[j]);
    }
    StaysBelow(destination, plan[k].target);
  }

  lemma LinkParent(destination: seq<string>, place: Path, target: seq<string>)
    requires target != [] && (place == Downs(target) || place == [CurDir] + Downs(target))
    ensures Parent(Join(Absolute(destination), place)) == Some(Absolute(destination + target[..|target| - 1]))
  {
    var joined := Join(Absolute(destination), place);
    assert ([CurDir] + Downs(target))[1..] == Downs(target);
    assert joined == Absolute(destination) + Downs(target);
    assert joined[|joined| - 1] == Normal(target[|target| - 1]);
    assert joined[..|joined| - 1] == Absolute(destination + target[..|target| - 1]);
  }

  lemma LinkIs(p: Placement, request: Request, parent: Path)
    requires request.mode.Symlink? && Parent(Join(request.destination, p.target)) == Some(parent)
    requires Relative(parent, p.source).Some? && SafeTarget(p.target)
    ensures var link := Relative(parent, p.source).value;
            PlacementOperation(p, request) ==
            if link == [] then Err(InvalidSource(link)) else Ok(Transfer(Symlink, link, p.target))
  {
  }

  lemma NamesAreSafe(place: Path, target: seq<string>)
    requires target != [] && (place == Downs(target) || place == [CurDir] + Downs(target))
    ensures SafeTarget(place)
  {
  }

  /** A symlink is planned unless the source is the directory that holds it; it resolves to the source from that
      directory, and no shorter link would. The target may start with a dot, as a package may. */
  lemma LinksReachTheirSources(p: Placement, request: Request, destination: seq<string>, source: seq<string>,
                               target: seq<string>, other: Path)
    requires request.mode.Symlink? && request.destination == Absolute(destination) && p.source == Absolute(source)
    requires target != [] && (p.target == Downs(target) || p.target == [CurDir] + Downs(target))
    ensures var parent, operation := destination + target[..|target| - 1], PlacementOperation(p, request);
            && (operation.Ok? <==> parent != source)
            && (operation.Ok? ==> operation.value.Transfer? && Resolve(parent, operation.value.source) == source)
            && (operation.Ok? && RootDir !in other && Resolve(parent, other) == source ==>
                  |operation.value.source| <= |other|)
  {
    var parent := destination + target[..|target| - 1];
    LinkParent(destination, p.target, target);
    NamesAreSafe(p.target, target);
    RelativeReaches(parent, source);
    LinkIs(p, request, Absolute(parent));
    if RootDir !in other && Resolve(parent, other) == source { RelativeIsShortest(parent, source, other); }
    if parent == source { RelativeIsShortest(parent, source, []); }
  }

  /** Files that keep their relative paths never collide with each other. */
  lemma KeptPathsDoNotCollide(request: Request, a: seq<string>, b: seq<string>)
    requires a != [] && b != [] && Join(request.package, Downs(a)) == Join(request.package, Downs(b))
    ensures a == b
  {
    JoinNames(request.package, Downs(a));
    JoinNames(request.package, Downs(b));
    BelowIsInjective(request.package, a, b);
  }
}

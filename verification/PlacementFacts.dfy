/** Where a plan puts each file, said of names, folders and extensions. */
module PlacementFacts {
  import opened Options
  import opened Organize
  import opened OrganizeLayout
  import opened OrganizeTheorems
  import opened PathNames
  import opened Paths
  import opened Results
  import opened Sequences
  import opened Texts
  import EpisodeNames

  // ----- names -----

  // The path ends in a file name with this stem and this extension.
  ghost predicate Named(path: Path, front: Path, stem: string, extension: string) {
    path == front + [Normal(stem + "." + extension)] && stem != "" && '.' !in extension
  }

  lemma NameParts(path: Path, front: Path, stem: string, extension: string)
    requires Named(path, front, stem, extension)
    ensures FileName(path) == Some(stem + "." + extension) && path[..|path| - 1] == front
    ensures FileStem(path) == Some(stem) && Extension(path) == Some(extension)
  {
    assert stem + "." + extension == stem + ['.'] + extension;
    Appended(stem, extension);
  }

  lemma EveryExtensionIsNamed(path: Path) returns (front: Path, stem: string, extension: string)
    requires Extension(path).Some?
    ensures Named(path, front, stem, extension)
  {
    var name := FileName(path).value;
    var dot := LastDot(name).value;
    front, stem, extension := path[..|path| - 1], name[..dot], name[dot + 1..];
    assert name == name[..dot] + [name[dot]] + name[dot + 1..];
    assert forall i :: 0 <= i < |extension| ==> extension[i] == name[dot + 1 + i];
    assert stem + "." + extension == name;
  }

  // Equal when the ASCII letters of the first are taken as lower-case.
  ghost predicate SpelledLike(text: string, lower: string) {
    |text| == |lower| &&
    forall i :: 0 <= i < |text| ==>
      if 'A' <= text[i] <= 'Z' then text[i] as int + 32 == lower[i] as int else text[i] == lower[i]
  }

  lemma SpelledLikeIff(text: string, lower: string)
    ensures EpisodeNames.LowerAscii(text) == lower <==> SpelledLike(text, lower)
  {
    var lowered := EpisodeNames.LowerAscii(text);
    if SpelledLike(text, lower) { assert forall i :: 0 <= i < |text| ==> lowered[i] == lower[i]; }
    if lowered == lower { assert forall i :: 0 <= i < |text| ==> lowered[i] == lower[i]; }
  }

  // The extensions of the files that matter for a kind of media.
  ghost function MediaExtensions(kind: Kind): seq<string> {
    match kind
    case Music => ["aac", "flac", "m4a", "mp3", "ogg", "opus", "wav"]
    case Book => ["azw3", "cbr", "cbz", "epub", "mobi", "pdf"]
    case _ => ["avi", "m2ts", "m4v", "mkv", "mov", "mp4", "ts", "webm"]
  }

  /** A file is one of the media's own exactly when its name ends in one of these extensions, cases aside. */
  lemma PrimaryIff(path: Path, kind: Kind)
    ensures IsPrimary(path, kind) <==>
            exists front, stem, extension, known <- MediaExtensions(kind) ::
              Named(path, front, stem, extension) && SpelledLike(extension, known)
  {
    if IsPrimary(path, kind) {
      var front, stem, extension := EveryExtensionIsNamed(path);
      NameParts(path, front, stem, extension);
      SpelledLikeIff(extension, EpisodeNames.LowerAscii(extension));
      assert EpisodeNames.LowerAscii(extension) in MediaExtensions(kind);
    }
    if front, stem, extension, known :|
      known in MediaExtensions(kind) && Named(path, front, stem, extension) && SpelledLike(extension, known) {
      NameParts(path, front, stem, extension);
      SpelledLikeIff(extension, known);
    }
  }

  // ----- where a file of the media goes -----

  // The name of the directory that holds the file.
  ghost function Folder(front: Path): Option<string> {
    if front != [] && front[|front| - 1].Normal? then Some(front[|front| - 1].name) else None
  }

  lemma EpisodeOfName(path: Path, front: Path, stem: string, extension: string, text: EpisodeNames.Text)
    requires Named(path, front, stem, extension)
    ensures Organize.Episode(path, text) == EpisodeNames.Identity(stem, Folder(front), text)
  {
    NameParts(path, front, stem, extension);
  }

  lemma OnShelf(package: Path, shelf: Component, name: Component)
    requires shelf.Normal?
    ensures Join(package, [shelf] + [name]) == package + [shelf, name]
  {
    assert [shelf] + [name] == [shelf, name];
    JoinNames(package, [shelf, name]);
  }

  /** Music keeps its name in the package, anime in the folder of its cour, and an episode in the folder of its
      season; television without an episode keeps its name in the package. */
  lemma MediaGoesTo(source: Path, request: Request, front: Path, stem: string, extension: string)
    requires Named(source, front, stem, extension)
    ensures var name := Normal(stem + "." + extension);
            match request.kind
            case Music => MediaTarget(source, request) == Ok(request.package + [name])
            case Anime(cour) =>
              MediaTarget(source, request) ==
              Ok(request.package + [Normal("Cour " + EpisodeNames.Padded(cour)), name])
            case Television =>
              MediaTarget(source, request) ==
              (match EpisodeNames.Identity(stem, Folder(front), request.text)
               case None => Ok(request.package + [name])
               case Some(key) => Ok(request.package + [Normal("Season " + EpisodeNames.Padded(key.0)), name]))
            case _ => true
  {
    NameParts(source, front, stem, extension);
    EpisodeOfName(source, front, stem, extension, request.text);
    var name := Normal(stem + "." + extension);
    JoinNames(request.package, [name]);
    match request.kind {
      case Anime(cour) => OnShelf(request.package, Normal("Cour " + EpisodeNames.Padded(cour)), name);
      case Television =>
        var episode := EpisodeNames.Identity(stem, Folder(front), request.text);
        if episode.Some? {
          OnShelf(request.package, Normal(EpisodeNames.SeasonFolder(episode.value.0)), name);
        }
      case _ =>
    }
  }

  /** A film or a book takes the name of the package, up to that name's own extension, and keeps its extension. */
  lemma FilmGoesTo(source: Path, request: Request, front: Path, stem: string, extension: string, base: Path,
                   title: string, suffix: string)
    requires request.kind.Movie? || request.kind.Book?
    requires Named(source, front, stem, extension) && extension != ""
    ensures request.package == base + [Normal(title)] && title != "" && '.' !in title[1..] ==>
              MediaTarget(source, request) == Ok(request.package + [Normal(title + "." + extension)])
    ensures Named(request.package, base, title, suffix) ==>
              MediaTarget(source, request) == Ok(request.package + [Normal(title + "." + extension)])
  {
    NameParts(source, front, stem, extension);
    if request.package == base + [Normal(title)] && title != "" && '.' !in title[1..] {
      assert FileName(request.package) == Some(title);
      NoOwnExtension(title);
      FilmIsRenamed(source, request, title, title, extension);
    }
    if Named(request.package, base, title, suffix) {
      NameParts(request.package, base, title, suffix);
      FilmIsRenamed(source, request, title + "." + suffix, title, extension);
    }
  }

  lemma NoOwnExtension(title: string)
    requires title != "" && '.' !in title[1..]
    ensures StemOf(title) == title
  {
    assert forall i :: 0 < i < |title| ==> title[i] == title[1..][i - 1];
  }

  lemma FilmIsRenamed(source: Path, request: Request, name: string, stem: string, extension: string)
    requires request.kind.Movie? || request.kind.Book?
    requires Extension(source) == Some(extension) && extension != ""
    requires FileName(request.package) == Some(name) && StemOf(name) == stem && stem != ""
    ensures MediaTarget(source, request) == Ok(request.package + [Normal(stem + "." + extension)])
  {
    var renamed := stem + "." + extension;
    assert Renamed(name, extension) == stem + ("." + extension) == renamed;
    assert |renamed| >= 3;
    assert Single(renamed) == [Normal(renamed)];
    JoinNames(request.package, [Normal(renamed)]);
  }

  /** A file without a name or without an extension, and a film without a package name, have no place. */
  lemma NoPlace(source: Path, request: Request)
    ensures source == [] || !source[|source| - 1].Normal? ==>
              MediaTarget(source, request) == Err(MissingFileName(source))
    ensures source != [] && source[|source| - 1].Normal? &&
            (forall front, stem, extension :: !Named(source, front, stem, extension)) ==>
              MediaTarget(source, request) == Err(MissingExtension(source))
    ensures Extension(source).Some? && (request.kind.Movie? || request.kind.Book?) &&
            (request.package == [] || !request.package[|request.package| - 1].Normal?) ==>
              MediaTarget(source, request) == Err(MissingTargetName(request.package))
  {
    if Extension(source).Some? { var front, stem, extension := EveryExtensionIsNamed(source); }
  }

  // ----- which rule applies to a file -----

  // The file is the only one of the media's own.
  ghost predicate TheOnlyOne(files: seq<Path>, kind: Kind, i: nat) {
    i < |files| && IsPrimary(files[i], kind) && forall j :: 0 <= j < |files| && j != i ==> !IsPrimary(files[j], kind)
  }

  lemma SoleIff(files: seq<Path>, kind: Kind, i: nat)
    requires i < |files| && forall j, k :: 0 <= j < k < |files| ==> files[j] != files[k]
    ensures SolePrimary(files, kind) == Some(files[i]) <==> TheOnlyOne(files, kind, i)
  {
    var primary := (path: Path) => IsPrimary(path, kind);
    if TheOnlyOne(files, kind, i) { FilteredOne(files, primary, i); }
    if SolePrimary(files, kind) == Some(files[i]) {
      var v := OneKept(files, primary);
      assert files[v] == files[i];
    }
  }

  // The place of a file before sidecars are looked at: what its own rule says.
  ghost predicate HasPlace(files: seq<Path>, request: Request, i: nat, target: Path)
    requires i < |files|
  {
    if request.directory.None? || TheOnlyOne(files, request.kind, i) then
      if request.mediaTarget.Some? then target == Join(request.package, request.mediaTarget.value)
      else MediaTarget(files[i], request) == Ok(target)
    else if request.kind.Television? && IsPrimary(files[i], request.kind) &&
            Organize.Episode(files[i], request.text).Some? then
      MediaTarget(files[i], request) == Ok(target)
    else
      forall names :: names != [] && files[i] == request.source + Downs(names) ==>
        target == request.package + Downs(names)
  }

  lemma KeptBelow(request: Request, names: seq<string>)
    requires names != []
    ensures var source := request.source + Downs(names);
            Join(request.package, source[|request.source|..]) == request.package + Downs(names)
  {
    assert (request.source + Downs(names))[|request.source|..] == Downs(names);
    JoinNames(request.package, Downs(names));
  }

  lemma RuleApplies(files: seq<Path>, request: Request, i: nat)
    requires i < |files| && Asked(files, request).target(files[i]).Ok?
    requires forall j, k :: 0 <= j < k < |files| ==> files[j] != files[k]
    ensures HasPlace(files, request, i, Asked(files, request).target(files[i]).value)
  {
    SoleIff(files, request.kind, i);
    forall names | names != [] && files[i] == request.source + Downs(names)
      ensures Join(request.package, files[i][|request.source|..]) == request.package + Downs(names)
    {
      KeptBelow(request, names);
    }
  }

  // ----- files without a place -----

  predicate HasName(path: Path) {
    path != [] && path[|path| - 1].Normal?
  }

  // A film or a book takes the package's name, and the package has none.
  predicate NamelessFilm(request: Request) {
    (request.kind.Movie? || request.kind.Book?) && !HasName(request.package)
  }

  ghost predicate HasExtension(path: Path) {
    exists front, stem, extension :: Named(path, front, stem, extension)
  }

  lemma HasExtensionIff(path: Path)
    ensures HasExtension(path) <==> Extension(path).Some?
  {
    if Extension(path).Some? { var front, stem, extension := EveryExtensionIsNamed(path); }
    if front, stem, extension :| Named(path, front, stem, extension) { NameParts(path, front, stem, extension); }
  }

  // Nothing says where the file's own rule would put it.
  ghost predicate Homeless(source: Path, request: Request) {
    !HasExtension(source) || NamelessFilm(request)
  }

  lemma HomelessIff(source: Path, request: Request)
    ensures MediaTarget(source, request).Err? <==> Homeless(source, request)
  {
    HasExtensionIff(source);
  }

  // A lone file needs a name; one that takes its place from its extension and from the package needs those.
  ghost predicate Unplaceable(files: seq<Path>, request: Request, i: nat) {
    i < |files| &&
    if request.directory.None? then
      !HasName(files[i]) || (request.mediaTarget.None? && Homeless(files[i], request))
    else TheOnlyOne(files, request.kind, i) && request.mediaTarget.None? && Homeless(files[i], request)
  }

  lemma UnplaceableIff(files: seq<Path>, request: Request, i: nat)
    requires i < |files| && forall j, k :: 0 <= j < k < |files| ==> files[j] != files[k]
    ensures Asked(files, request).target(files[i]).Err? <==> Unplaceable(files, request, i)
  {
    SoleIff(files, request.kind, i);
    HomelessIff(files[i], request);
    HasExtensionIff(files[i]);
  }

  // Two videos of one episode.
  ghost predicate SharedEpisode(files: seq<Path>, request: Request, i: nat, j: nat) {
    && request.kind.Television? && i < j < |files|
    && IsPrimary(files[i], Television) && IsPrimary(files[j], Television)
    && Organize.Episode(files[i], request.text).Some?
    && Organize.Episode(files[i], request.text) == Organize.Episode(files[j], request.text)
  }

  lemma SharedEpisodeIff(files: seq<Path>, request: Request, i: nat, j: nat)
    requires i < j < |files|
    ensures var ask := Asked(files, request);
            SharedEpisode(files, request, i, j) <==>
            ask.episode(files[i]).Some? && ask.episode(files[i]) == ask.episode(files[j])
  {
  }

  lemma TargetsExistIff(files: seq<Path>, request: Request, ask: Questions)
    requires ask == Asked(files, request)
    requires forall j, k :: 0 <= j < k < |files| ==> files[j] != files[k]
    ensures (forall i :: 0 <= i < |files| ==> ask.target(files[i]).Ok?) <==>
            !exists i: nat :: Unplaceable(files, request, i)
  {
    if i: nat :| Unplaceable(files, request, i) { UnplaceableIff(files, request, i); }
    if i :| 0 <= i < |files| && ask.target(files[i]).Err? { UnplaceableIff(files, request, i); }
  }

  lemma EpisodesDifferIff(files: seq<Path>, request: Request, ask: Questions)
    requires ask == Asked(files, request)
    ensures EpisodesDiffer(files, ask) <==> !exists i: nat, j: nat :: SharedEpisode(files, request, i, j)
  {
    if i: nat, j: nat :| SharedEpisode(files, request, i, j) { SharedEpisodeIff(files, request, i, j); }
    if i, j :| 0 <= i < j < |files| && ask.episode(files[i]).Some? && ask.episode(files[i]) == ask.episode(files[j]) {
      SharedEpisodeIff(files, request, i, j);
    }
  }

  /** Placing fails exactly when some file has no place or two videos claim one episode. */
  lemma PlacingFailsIff(files: seq<Path>, request: Request)
    requires forall j, k :: 0 <= j < k < |files| ==> files[j] != files[k]
    ensures PlaceAll(files, Asked(files, request)).Err? <==>
            || (exists i: nat :: Unplaceable(files, request, i))
            || (exists i: nat, j: nat :: SharedEpisode(files, request, i, j))
  {
    var ask := Asked(files, request);
    PlacingSucceedsIff(files, ask);
    TargetsExistIff(files, request, ask);
    EpisodesDifferIff(files, request, ask);
  }

  // ----- sidecars -----

  ghost function SidecarExtensions(): seq<string> {
    ["srt", "ass", "ssa", "sub", "idx", "vtt", "sup", "nfo"]
  }

  // The name ends in the extension of a subtitle, or in that of a metadata file.
  ghost predicate IsSidecar(path: Path) {
    exists front, stem, extension, known <- SidecarExtensions() ::
      Named(path, front, stem, extension) && SpelledLike(extension, known)
  }

  lemma SidecarIff(path: Path)
    ensures Extension(path).Some? && ExtensionText(path) in SIDECARS <==> IsSidecar(path)
  {
    if Extension(path).Some? && ExtensionText(path) in SIDECARS {
      var front, stem, extension := EveryExtensionIsNamed(path);
      NameParts(path, front, stem, extension);
      SpelledLikeIff(extension, EpisodeNames.LowerAscii(extension));
      assert EpisodeNames.LowerAscii(extension) in SidecarExtensions();
    }
    if front, stem, extension, known :|
      known in SidecarExtensions() && Named(path, front, stem, extension) && SpelledLike(extension, known) {
      NameParts(path, front, stem, extension);
      SpelledLikeIff(extension, known);
    }
  }

  lemma SidecarsHaveExtensions(path: Path)
    requires ExtensionText(path) in SIDECARS
    ensures Extension(path).Some?
  {
  }

  /** Every file but a television sidecar goes where its own rule says. */
  lemma FileGoesTo(files: seq<Path>, request: Request, i: nat)
    requires Planned(files, request).Ok? && i < |files|
    requires forall j, k :: 0 <= j < k < |files| ==> files[j] != files[k]
    requires request.kind.Television? ==> !IsSidecar(files[i])
    ensures var settled := PartsOf(files, request).settled;
            |settled| == |files| && settled[i].source == files[i] && HasPlace(files, request, i, settled[i].target)
  {
    var ask := Asked(files, request);
    PlacedInOrder(files, ask);
    RuleApplies(files, request, i);
    SidecarIff(files[i]);
    if ExtensionText(files[i]) in SIDECARS { SidecarsHaveExtensions(files[i]); }
  }

  lemma BesideIs(path: Path, front: Path, stem: string, extension: string)
    requires Named(path, front, stem, extension)
    ensures WithExtension(path, NFO) == front + [Normal(stem + ".nfo")]
  {
    NameParts(path, front, stem, extension);
    var renamed := stem + ".nfo";
    assert Renamed(stem + "." + extension, NFO) == stem + ("." + NFO) == renamed;
    assert |renamed| >= 4;
    assert Single(renamed) == [Normal(renamed)];
    JoinNames(front, [Normal(renamed)]);
  }

  /** The metadata file of an episode goes beside the video of that episode, under the video's name. */
  lemma MetadataFileGoesTo(files: seq<Path>, request: Request, v: nat, i: nat, key: EpisodeKey, extension: string,
                           front: Path, stem: string, own: string)
    requires Planned(files, request).Ok? && request.kind.Television? && v < |files| && i < |files|
    requires IsPrimary(files[v], Television) && Organize.Episode(files[v], request.text) == Some(key)
    requires Extension(files[i]) == Some(extension) && SpelledLike(extension, "nfo")
    requires Organize.Episode(files[i], request.text) == Some(key)
    requires |PartsOf(files, request).settled| == |files|
    requires Named(PartsOf(files, request).settled[v].target, front, stem, own)
    ensures PartsOf(files, request).settled[i].target == front + [Normal(stem + ".nfo")]
  {
    SpelledLikeIff(extension, "nfo");
    SettledEpisodes(files, request, v, i, key);
    BesideIs(PartsOf(files, request).settled[v].target, front, stem, own);
  }

  // A television video with an episode, whose stem the name continues with a dot.
  ghost predicate Continues(files: seq<Path>, request: Request, name: string, v: nat) {
    && v < |files| && IsPrimary(files[v], Television) && Organize.Episode(files[v], request.text).Some?
    && exists front, stem, extension, rest ::
         Named(files[v], front, stem, extension) && name == stem + "." + rest
  }

  lemma AccompaniesIff(name: string, p: Placement)
    requires Extension(p.source).Some?
    ensures Accompanies(name, p) <==>
            exists front, stem, extension, rest ::
              Named(p.source, front, stem, extension) && name == stem + "." + rest
  {
    if front, stem, extension, rest :| Named(p.source, front, stem, extension) && name == stem + "." + rest {
      NameParts(p.source, front, stem, extension);
    }
    if Accompanies(name, p) {
      var front, stem, extension := EveryExtensionIsNamed(p.source);
      NameParts(p.source, front, stem, extension);
      assert name == name[..|stem|] + [name[|stem|]] + name[|stem| + 1..];
      assert name == stem + "." + name[|stem| + 1..];
    }
  }

  lemma ContinuesIff(files: seq<Path>, request: Request, name: string, v: nat, p: Placement)
    requires v < |files| && p.source == files[v]
    ensures Continues(files, request, name, v) <==>
            IsPrimary(p.source, Television) && Organize.Episode(p.source, request.text).Some? && Accompanies(name, p)
  {
    if IsPrimary(p.source, Television) { AccompaniesIff(name, p); }
  }

  // The videos that a sidecar looks at, and those that its name continues.
  ghost function Matching(placements: seq<Placement>, request: Request, name: string): Placement -> bool {
    (p: Placement) =>
      IsPrimary(p.source, Television) && Organize.Episode(p.source, request.text).Some? && Accompanies(name, p)
  }

  lemma MatchesAre(placements: seq<Placement>, request: Request, name: string)
    ensures Filtered(Videos(placements, Television, request.text), (video: Placement) => Accompanies(name, video)) ==
            Filtered(placements, Matching(placements, request, name))
  {
    FilteredTwice(placements,
                  (p: Placement) => IsPrimary(p.source, Television) && Organize.Episode(p.source, request.text).Some?,
                  (video: Placement) => Accompanies(name, video), Matching(placements, request, name));
  }

  // The metadata file of an episode that some video of the source has.
  ghost predicate IsMetadataOfVideo(files: seq<Path>, request: Request, i: nat)
    requires i < |files|
  {
    && Extension(files[i]).Some? && SpelledLike(Extension(files[i]).value, "nfo")
    && Organize.Episode(files[i], request.text).Some?
    && exists v :: 0 <= v < |files| && IsPrimary(files[v], Television) &&
                   Organize.Episode(files[v], request.text) == Organize.Episode(files[i], request.text)
  }

  // What a sidecar that is no such metadata file does.
  lemma SidecarLooksForVideos(files: seq<Path>, request: Request, i: nat)
    requires Planned(files, request).Ok? && request.kind.Television? && i < |files|
    requires IsSidecar(files[i]) && !IsMetadataOfVideo(files, request, i)
    ensures var placements := PlaceAll(files, Asked(files, request)).value.placements;
            && |placements| == |files| && placements[i].source == files[i]
            && FileName(files[i]).Some?
            && var name := FileName(files[i]).value;
            var matches := Filtered(placements, Matching(placements, request, name));
            PartsOf(files, request).settled == Settled(PlaceAll(files, Asked(files, request)).value, request)
            && |PartsOf(files, request).settled| == |files|
            && PartsOf(files, request).settled[i].target ==
               if |matches| == 1 && Accompanies(name, matches[0]) then Beside(name, matches[0], placements[i].target)
               else placements[i].target
  {
    var ask := Asked(files, request);
    var placed := PlaceAll(files, ask).value;
    PlacedInOrder(files, ask);
    SidecarIff(files[i]);
    var name := FileName(files[i]).value;
    MatchesAre(placed.placements, request, name);
    NotOfAnEpisode(files, request, i);
    var matches := Filtered(placed.placements, Matching(placed.placements, request, name));
    if |matches| == 1 { assert Matching(placed.placements, request, name)(matches[0]); }
  }

  lemma NotOfAnEpisode(files: seq<Path>, request: Request, i: nat)
    requires Planned(files, request).Ok? && request.kind.Television? && i < |files|
    requires IsSidecar(files[i]) && !IsMetadataOfVideo(files, request, i)
    ensures var episodes := PlaceAll(files, Asked(files, request)).value.episodes;
            !(&& ExtensionText(files[i]) == NFO && Organize.Episode(files[i], request.text).Some?
              && Organize.Episode(files[i], request.text).value in episodes)
  {
    SidecarIff(files[i]);
    SpelledLikeIff(Extension(files[i]).value, "nfo");
    if Organize.Episode(files[i], request.text).Some? {
      EpisodesIff(files, Asked(files, request), Organize.Episode(files[i], request.text).value);
      if source :| source in files && Asked(files, request).episode(source) == Organize.Episode(files[i], request.text)
      {
        var v :| 0 <= v < |files| && files[v] == source;
      }
    }
  }

  lemma BesideVideo(name: string, video: Placement, fv: Path, sv: string, ev: string, rest: string, front: Path,
                    stem: string, own: string, otherwise: Path)
    requires Named(video.source, fv, sv, ev) && name == sv + "." + rest && Named(video.target, front, stem, own)
    ensures Accompanies(name, video)
    ensures rest != "" ==> Beside(name, video, otherwise) == front + [Normal(stem + "." + rest)]
  {
    NameParts(video.source, fv, sv, ev);
    NameParts(video.target, front, stem, own);
    assert name[..|sv|] == sv && name[|sv|] == '.' && name[|sv|..] == "." + rest;
    if rest != "" {
      var beside := stem + "." + rest;
      assert stem + name[|sv|..] == beside && |beside| >= 3;
      assert Single(beside) == [Normal(beside)];
      JoinNames(front, [Normal(beside)]);
    }
  }

  /** A sidecar that continues the stem of exactly one video goes beside that video, under the video's new stem. */
  lemma SidecarGoesTo(files: seq<Path>, request: Request, i: nat, v: nat, fv: Path, sv: string, ev: string,
                      rest: string, front: Path, stem: string, own: string)
    requires Planned(files, request).Ok? && request.kind.Television? && i < |files| && v < |files|
    requires IsSidecar(files[i]) && !IsMetadataOfVideo(files, request, i)
    requires FileName(files[i]) == Some(sv + "." + rest) && rest != "" && Named(files[v], fv, sv, ev)
    requires IsPrimary(files[v], Television) && Organize.Episode(files[v], request.text).Some?
    requires forall u: nat :: u != v ==> !Continues(files, request, sv + "." + rest, u)
    requires |PartsOf(files, request).settled| == |files|
    requires Named(PartsOf(files, request).settled[v].target, front, stem, own)
    ensures PartsOf(files, request).settled[i].target == front + [Normal(stem + "." + rest)]
  {
    var name := sv + "." + rest;
    var placed := PlaceAll(files, Asked(files, request)).value;
    var placements := placed.placements;
    SidecarLooksForVideos(files, request, i);
    PlacedInOrder(files, Asked(files, request));
    forall u | 0 <= u < |placements|
      ensures Matching(placements, request, name)(placements[u]) <==> Continues(files, request, name, u)
    {
      ContinuesIff(files, request, name, u, placements[u]);
    }
    assert Continues(files, request, name, v);
    FilteredOne(placements, Matching(placements, request, name), v);
    VideosStay(placements, placed.episodes, request.text, v);
    BesideVideo(name, placements[v], fv, sv, ev, rest, front, stem, own, placements[i].target);
  }

  lemma OneMatchIsAlone(files: seq<Path>, request: Request, placements: seq<Placement>, name: string)
    requires |placements| == |files| && forall u :: 0 <= u < |files| ==> placements[u].source == files[u]
    requires |Filtered(placements, Matching(placements, request, name))| == 1
    ensures exists v: nat :: Continues(files, request, name, v) &&
                             forall u: nat :: u != v ==> !Continues(files, request, name, u)
  {
    var v := OneKept(placements, Matching(placements, request, name));
    forall u: nat | u < |files|
      ensures Matching(placements, request, name)(placements[u]) <==> Continues(files, request, name, u)
    {
      ContinuesIff(files, request, name, u, placements[u]);
    }
    assert Continues(files, request, name, v);
  }

  /** A sidecar that continues the stem of no video, or of several, goes where its own rule says. */
  lemma OtherSidecarsStay(files: seq<Path>, request: Request, i: nat)
    requires Planned(files, request).Ok? && request.kind.Television? && i < |files|
    requires forall j, k :: 0 <= j < k < |files| ==> files[j] != files[k]
    requires IsSidecar(files[i]) && !IsMetadataOfVideo(files, request, i) && FileName(files[i]).Some?
    requires !exists v: nat :: Continues(files, request, FileName(files[i]).value, v) &&
                               forall u: nat :: u != v ==> !Continues(files, request, FileName(files[i]).value, u)
    ensures var settled := PartsOf(files, request).settled;
            |settled| == |files| && HasPlace(files, request, i, settled[i].target)
  {
    var name := FileName(files[i]).value;
    var placements := PlaceAll(files, Asked(files, request)).value.placements;
    SidecarLooksForVideos(files, request, i);
    PlacedInOrder(files, Asked(files, request));
    RuleApplies(files, request, i);
    if |Filtered(placements, Matching(placements, request, name))| == 1 {
      OneMatchIsAlone(files, request, placements, name);
    }
  }

  // ----- what makes a plan possible -----

  // Below the destination, and not the destination itself.
  ghost predicate StaysInside(target: Path) {
    target != [] && forall c <- target :: !c.RootDir? && !c.ParentDir?
  }

  /** A file can be transferred to a target inside, moved only from an absolute path; a symlink also needs a relative
      path from the directory of the target. */
  lemma TransferableIff(p: Placement, request: Request)
    ensures !request.mode.Symlink? ==>
              (PlacementOperation(p, request).Ok? <==>
               && p.source != [] && StaysInside(p.target)
               && (request.mode.Move? ==> p.source[0].RootDir?))
    ensures request.mode.Symlink? ==>
              var place := Join(request.destination, p.target);
              (PlacementOperation(p, request).Ok? <==>
               && place != [] && !place[|place| - 1].RootDir? && StaysInside(p.target)
               && Relative(place[..|place| - 1], p.source).Some?
               && Relative(place[..|place| - 1], p.source) != Some([]))
  {
  }

  // No plan holds such an operation: the file to take is nowhere, a move does not start at a root, or the target leaves
  // the destination.
  ghost predicate Refused(operation: Operation, target: Path) {
    || (operation.Transfer? &&
        (operation.source == [] || (operation.mode.Move? && !operation.source[0].RootDir?)))
    || !StaysInside(target)
  }

  /** A metadata operation is refused exactly when its file cannot be taken or its place is outside the destination. */
  lemma RefusedIff(operation: Operation, episodes: map<EpisodeKey, Path>, request: Request)
    ensures var beside := request.kind.Television? && IsEpisodeNfo(operation, episodes, request.text);
            var target := if beside then episodes[Organize.Episode(operation.target, request.text).value]
                          else Join(request.package, operation.target);
            Rebase(operation, episodes, request).Err? <==> Refused(operation, target)
  {
  }

  lemma MetadataAt(files: seq<Path>, request: Request, j: nat)
    requires Planned(files, request).Ok? && j < |request.metadata|
    ensures var parts, episodes := PartsOf(files, request), PlaceAll(files, Asked(files, request)).value.episodes;
            && |parts.metadata| == |request.metadata|
            && Rebase(request.metadata[j], episodes, request) == Ok(parts.metadata[j])
  {
    var rebase := Rebasing(PlaceAll(files, Asked(files, request)).value.episodes, request);
    RebasingSucceedsIff(request.metadata, rebase);
    assert rebase(request.metadata[j]) == Ok(PartsOf(files, request).metadata[j]);
  }

  // Planned episode metadata: a file "S….nfo" that names an episode which a video of the source has.
  ghost predicate BelongsToVideo(files: seq<Path>, request: Request, j: nat, v: nat)
    requires j < |request.metadata|
  {
    var operation := request.metadata[j];
    && request.kind.Television? && operation.WriteBytes? && v < |files|
    && (exists front, rest :: Named(operation.target, front, "S" + rest, "nfo"))
    && Organize.Episode(operation.target, request.text).Some?
    && IsPrimary(files[v], Television)
    && Organize.Episode(files[v], request.text) == Organize.Episode(operation.target, request.text)
  }

  ghost predicate HasVideo(files: seq<Path>, request: Request, key: EpisodeKey, v: nat) {
    v < |files| && IsPrimary(files[v], Television) && Organize.Episode(files[v], request.text) == Some(key)
  }

  lemma VideoIs(files: seq<Path>, request: Request, key: EpisodeKey, v: nat)
    requires v < |files| && request.kind.Television?
    ensures Asked(files, request).episode(files[v]) == Some(key) <==> HasVideo(files, request, key, v)
  {
  }

  lemma HasVideoIff(files: seq<Path>, request: Request, key: EpisodeKey)
    requires PlaceAll(files, Asked(files, request)).Ok? && request.kind.Television?
    ensures key in PlaceAll(files, Asked(files, request)).value.episodes <==>
            exists v: nat :: HasVideo(files, request, key, v)
  {
    var episode := Asked(files, request).episode;
    EpisodesIff(files, Asked(files, request), key);
    if exists source <- files :: episode(source) == Some(key) {
      var source :| source in files && episode(source) == Some(key);
      var v :| 0 <= v < |files| && files[v] == source;
      VideoIs(files, request, key, v);
    }
    if v: nat :| HasVideo(files, request, key, v) {
      VideoIs(files, request, key, v);
      assert files[v] in files;
    }
  }

  lemma BelongsIff(files: seq<Path>, request: Request, j: nat)
    requires Planned(files, request).Ok? && j < |request.metadata|
    ensures var episodes := PlaceAll(files, Asked(files, request)).value.episodes;
            request.kind.Television? && IsEpisodeNfo(request.metadata[j], episodes, request.text) <==>
            exists v :: BelongsToVideo(files, request, j, v)
  {
    var operation := request.metadata[j];
    StartsWithS(operation.target);
    if request.kind.Television? && Organize.Episode(operation.target, request.text).Some? {
      var key := Organize.Episode(operation.target, request.text).value;
      HasVideoIff(files, request, key);
      forall v: nat ensures BelongsToVideo(files, request, j, v) ==> HasVideo(files, request, key, v) {}
      if v: nat :| HasVideo(files, request, key, v) {
        assert operation.WriteBytes? && (exists front, rest :: Named(operation.target, front, "S" + rest, "nfo")) ==>
            BelongsToVideo(files, request, j, v);
      }
    }
  }

  lemma StartsWithS(target: Path)
    ensures Extension(target) == Some(NFO) && StartsWith(FileStem(target).value, "S") <==>
            exists front, rest :: Named(target, front, "S" + rest, "nfo")
  {
    if Extension(target) == Some(NFO) && StartsWith(FileStem(target).value, "S") {
      var front, stem, extension := EveryExtensionIsNamed(target);
      NameParts(target, front, stem, extension);
      assert stem == "S" + stem[1..];
    }
    if front, rest :| Named(target, front, "S" + rest, "nfo") {
      NameParts(target, front, "S" + rest, "nfo");
    }
  }

  /** A planned metadata operation goes below the package, unless it belongs to a video: then beside that. */
  lemma MetadataGoesTo(files: seq<Path>, request: Request, j: nat)
    requires Planned(files, request).Ok? && j < |request.metadata|
    ensures var parts := PartsOf(files, request);
            && |parts.metadata| == |request.metadata| && |parts.settled| == |files|
            && (!(exists v :: BelongsToVideo(files, request, j, v)) ==>
                  parts.metadata[j].target == Join(request.package, request.metadata[j].target))
            && (forall v: nat, front, stem, own ::
                  BelongsToVideo(files, request, j, v) && Named(parts.settled[v].target, front, stem, own) ==>
                    parts.metadata[j].target == front + [Normal(stem + ".nfo")])
  {
    var parts, ask := PartsOf(files, request), Asked(files, request);
    var placed := PlaceAll(files, ask).value;
    MetadataAt(files, request, j);
    BelongsIff(files, request, j);
    PlacedInOrder(files, ask);
    forall v: nat, front, stem, own |
      BelongsToVideo(files, request, j, v) && Named(parts.settled[v].target, front, stem, own)
      ensures parts.metadata[j].target == front + [Normal(stem + ".nfo")]
    {
      EpisodeTargets(files, ask, v);
      VideosStay(placed.placements, placed.episodes, request.text, v);
      BesideIs(parts.settled[v].target, front, stem, own);
    }
  }
}

/** Planning where the files of a source go (`organize.rs`): placement targets, episode sidecars,
    rebased metadata operations, and the plan that joins them. */
module Organize {
  import opened Options
  import opened PathNames
  import opened Paths
  import opened Results
  import opened Sequences
  import opened Texts
  import EpisodeNames
  import FileTrees
  import SourceFiles

  // What the planner reads of the resolved metadata.
  datatype Kind = Movie | Television | Anime(cour: nat) | Music | Book

  datatype Mode = Move | Copy | Hardlink | Symlink | Reflink

  datatype Content = Content(bytes: seq<bv8>)

  datatype Operation =
    | CreateDirectory(target: Path)
    | WriteBytes(target: Path, content: Content)
    | Transfer(mode: Mode, source: Path, target: Path)

  type EpisodeKey = (nat, nat)

  datatype OrganizationError =
    | InspectSource(path: Path)
    | MissingFileName(path: Path)
    | MissingExtension(path: Path)
    | MissingTargetName(path: Path)
    | AmbiguousEpisode(key: EpisodeKey)
    | DuplicateTarget(path: Path)
    | RelativeSymlinkUnavailable(from: Path, to: Path)
    | InvalidSource(path: Path)
    | InvalidTarget(path: Path)

  type OrganizeResult<+T> = Results.Result<T, OrganizationError>

  // One request. `directory` is the source's tree when the source is a directory; `package` is the rendered
  // package path; `destination` is absolute.
  datatype Request = Request(
    source: Path,
    directory: Option<FileTrees.Node>,
    destination: Path,
    kind: Kind,
    mode: Mode,
    package: Path,
    mediaTarget: Option<Path>,
    metadata: seq<Operation>,
    text: EpisodeNames.Text)

  datatype Placement = Placement(source: Path, target: Path)

  datatype Placed = Placed(placements: seq<Placement>, episodes: map<EpisodeKey, Path>)

  // ----- files -----

  function ExtensionText(path: Path): string {
    if Extension(path).Some? then EpisodeNames.LowerAscii(Extension(path).value) else ""
  }

  const VIDEO := ["avi", "m2ts", "m4v", "mkv", "mov", "mp4", "ts", "webm"]
  const AUDIO := ["aac", "flac", "m4a", "mp3", "ogg", "opus", "wav"]
  const PAGES := ["azw3", "cbr", "cbz", "epub", "mobi", "pdf"]
  const SIDECARS := ["srt", "ass", "ssa", "sub", "idx", "vtt", "sup", "nfo"]
  const NFO := "nfo"

  function Supported(kind: Kind): seq<string> {
    match kind
    case Movie => VIDEO
    case Television => VIDEO
    case Anime(_) => VIDEO
    case Music => AUDIO
    case Book => PAGES
  }

  // `is_primary_media_file`
  predicate IsPrimary(path: Path, kind: Kind) {
    Extension(path).Some? && ExtensionText(path) in Supported(kind)
  }

  // The episode a file name, or a season folder and a file name, identifies.
  function Episode(path: Path, text: EpisodeNames.Text): Option<EpisodeKey> {
    if FileStem(path).None? then None
    else EpisodeNames.Identity(FileStem(path).value, FileName(path[..|path| - 1]), text)
  }

  // The episode of a television video.
  function VideoEpisode(path: Path, request: Request): Option<EpisodeKey> {
    if request.kind.Television? && IsPrimary(path, request.kind) then Episode(path, request.text) else None
  }

  // ----- placement targets -----

  // `media_target`
  function MediaTarget(source: Path, request: Request): OrganizeResult<Path> {
    if FileName(source).None? then Err(MissingFileName(source))
    else if Extension(source).None? then Err(MissingExtension(source))
    else
      var name := [source[|source| - 1]];
      match request.kind
      case Movie => PackageNamed(source, request.package)
      case Book => PackageNamed(source, request.package)
      case Television =>
        var episode := Episode(source, request.text);
        Ok(Join(request.package,
                if episode.Some? then [Normal(EpisodeNames.SeasonFolder(episode.value.0))] + name else name))
      case Anime(cour) => Ok(Join(request.package, [Normal("Cour " + EpisodeNames.Padded(cour))] + name))
      case Music => Ok(Join(request.package, name))
  }

  // The file takes the package's name, and keeps its own extension.
  function PackageNamed(source: Path, package: Path): OrganizeResult<Path>
    requires Extension(source).Some?
  {
    if FileName(package).None? then Err(MissingTargetName(package))
    else Ok(Join(package, Single(Renamed(FileName(package).value, Extension(source).value))))
  }

  // The only primary file, if there is exactly one.
  function SolePrimary(files: seq<Path>, kind: Kind): Option<Path> {
    var primary := Filtered(files, (path: Path) => IsPrimary(path, kind));
    if |primary| == 1 then Some(primary[0]) else None
  }

  // Where a file goes before sidecars are looked at.
  function Target(source: Path, sole: Option<Path>, request: Request): OrganizeResult<Path> {
    if request.directory.None? && FileName(source).None? then Err(MissingFileName(source))
    else if request.directory.None? || sole == Some(source) then
      if request.mediaTarget.Some? then Ok(Join(request.package, request.mediaTarget.value))
      else MediaTarget(source, request)
    else if VideoEpisode(source, request).Some? then MediaTarget(source, request)
    else Ok(Join(request.package, if |request.source| <= |source| then source[|request.source|..] else source))
  }

  // The two questions the placement loop asks about a file.
  datatype Questions = Questions(target: Path -> OrganizeResult<Path>, episode: Path -> Option<EpisodeKey>)

  function Asked(files: seq<Path>, request: Request): Questions {
    var sole := SolePrimary(files, request.kind);
    Questions((source: Path) => Target(source, sole, request), (source: Path) => VideoEpisode(source, request))
  }

  function PlaceNext(placed: Placed, source: Path, ask: Questions): OrganizeResult<Placed> {
    var target, episode := ask.target(source), ask.episode(source);
    if target.Err? then Err(target.error)
    else if episode.Some? && episode.value in placed.episodes then Err(AmbiguousEpisode(episode.value))
    else Ok(Placed(
      placed.placements + [Placement(source, target.value)],
      if episode.Some? then placed.episodes[episode.value := WithExtension(target.value, NFO)] else placed.episodes))
  }

  // All files in order, up to the first failure.
  function PlaceAll(files: seq<Path>, ask: Questions): OrganizeResult<Placed> {
    if files == [] then Ok(Placed([], map[]))
    else
      var before := PlaceAll(files[..|files| - 1], ask);
      if before.Err? then before else PlaceNext(before.value, files[|files| - 1], ask)
  }

  lemma {:induction false} FailureIsFinal(files: seq<Path>, n: nat, ask: Questions)
    requires n <= |files| && PlaceAll(files[..n], ask).Err?
    ensures PlaceAll(files, ask) == PlaceAll(files[..n], ask)
    decreases |files|
  {
    if n < |files| {
      assert files[..|files| - 1][..n] == files[..n];
      FailureIsFinal(files[..|files| - 1], n, ask);
    } else {
      assert files[..n] == files;
    }
  }

  /** The placement loop. */
  method PlaceFiles(files: seq<Path>, ask: Questions) returns (r: OrganizeResult<Placed>)
    ensures r == PlaceAll(files, ask)
  {
    var placements: seq<Placement>, episodes: map<EpisodeKey, Path> := [], map[];
    for i := 0 to |files|
      invariant PlaceAll(files[..i], ask) == Ok(Placed(placements, episodes))
    {
      assert files[..i + 1][..i] == files[..i];
      var source := files[i];
      var target := ask.target(source);
      if target.Err? {
        FailureIsFinal(files, i + 1, ask);
        return Err(target.error);
      }
      var episode := ask.episode(source);
      if episode.Some? {
        if episode.value in episodes {
          FailureIsFinal(files, i + 1, ask);
          return Err(AmbiguousEpisode(episode.value));
        }
        episodes := episodes[episode.value := WithExtension(target.value, NFO)];
      }
      placements := placements + [Placement(source, target.value)];
    }
    assert files[..|files|] == files;
    return Ok(Placed(placements, episodes));
  }

  // ----- sidecars -----

  // The name continues the video's stem with a dot.
  predicate Accompanies(name: string, video: Placement) {
    FileStem(video.source).Some? &&
    var stem := FileStem(video.source).value;
    StartsWith(name, stem) && |stem| < |name| && name[|stem|] == '.'
  }

  // The target beside the video, under the video's new stem.
  function Beside(name: string, video: Placement, otherwise: Path): Path
    requires Accompanies(name, video)
  {
    if FileStem(video.target).None? then otherwise
    else Join(video.target[..|video.target| - 1],
              Single(FileStem(video.target).value + name[|FileStem(video.source).value|..]))
  }

  function Sidecar(p: Placement, videos: seq<Placement>, episodes: map<EpisodeKey, Path>, text: EpisodeNames.Text)
    : Path
  {
    if ExtensionText(p.source) !in SIDECARS then p.target
    else if ExtensionText(p.source) == NFO && Episode(p.source, text).Some? &&
      Episode(p.source, text).value in episodes then
      episodes[Episode(p.source, text).value]
    else if FileName(p.source).None? then p.target
    else
      var name := FileName(p.source).value;
      var accompanies := (video: Placement) => Accompanies(name, video);
      var matches := Filtered(videos, accompanies);
      if |matches| == 1 then
        assert accompanies(matches[0]);
        Beside(name, matches[0], p.target)
      else p.target
  }

  function Videos(placements: seq<Placement>, kind: Kind, text: EpisodeNames.Text): seq<Placement> {
    Filtered(placements, (p: Placement) => IsPrimary(p.source, kind) && Episode(p.source, text).Some?)
  }

  function Colocated(placements: seq<Placement>, episodes: map<EpisodeKey, Path>, kind: Kind, text: EpisodeNames.Text)
    : (r: seq<Placement>)
    ensures |r| == |placements|
  {
    var videos := Videos(placements, kind, text);
    seq(|placements|, i requires 0 <= i < |placements| =>
      Placement(placements[i].source, Sidecar(placements[i], videos, episodes, text)))
  }

  /** Moves subtitles and episode metadata files to their videos, in place. */
  method ColocateEpisodeSidecars(placements: array<Placement>, episodes: map<EpisodeKey, Path>, kind: Kind,
                                 text: EpisodeNames.Text)
    modifies placements
    ensures placements[..] == Colocated(old(placements[..]), episodes, kind, text)
  {
    var primary := Videos(placements[..], kind, text);
    for i := 0 to placements.Length
      invariant forall k :: 0 <= k < i ==> placements[k] == Colocated(old(placements[..]), episodes, kind, text)[k]
      invariant forall k :: i <= k < placements.Length ==> placements[k] == old(placements[k])
    {
      placements[i] := placements[i].(target := Sidecar(placements[i], primary, episodes, text));
    }
  }

  // ----- operations -----

  // `safe_target`
  predicate SafeTarget(target: Path) {
    target != [] && RootDir !in target && ParentDir !in target
  }

  // The constructors of operations check the source first, then the target.
  function Checked(operation: Operation): OrganizeResult<Operation> {
    if operation.Transfer? && (operation.source == [] || (operation.mode.Move? && operation.source[0] != RootDir)) then
      Err(InvalidSource(operation.source))
    else if !SafeTarget(operation.target) then Err(InvalidTarget(operation.target))
    else Ok(operation)
  }

  // The metadata file of an episode whose video was placed.
  predicate IsEpisodeNfo(operation: Operation, episodes: map<EpisodeKey, Path>, text: EpisodeNames.Text) {
    && operation.WriteBytes?
    && Extension(operation.target) == Some(NFO)
    && StartsWith(FileStem(operation.target).value, "S")
    && Episode(operation.target, text).Some?
    && Episode(operation.target, text).value in episodes
  }

  // A metadata operation goes beside its episode, or below the package.
  function Rebase(operation: Operation, episodes: map<EpisodeKey, Path>, request: Request): OrganizeResult<Operation> {
    if request.kind.Television? && IsEpisodeNfo(operation, episodes, request.text) then
      Checked(MoveTo(operation, episodes[Episode(operation.target, request.text).value]))
    else Checked(MoveTo(operation, Join(request.package, operation.target)))
  }

  function MoveTo(operation: Operation, target: Path): Operation {
    operation.(target := target)
  }

  function Rebasing(episodes: map<EpisodeKey, Path>, request: Request): Operation -> OrganizeResult<Operation> {
    (operation: Operation) => Rebase(operation, episodes, request)
  }

  function Rebased(operations: seq<Operation>, rebase: Operation -> OrganizeResult<Operation>)
    : OrganizeResult<seq<Operation>>
  {
    if operations == [] then Ok([])
    else
      var before, moved := Rebased(operations[..|operations| - 1], rebase), rebase(operations[|operations| - 1]);
      if before.Err? then before else if moved.Err? then Err(moved.error) else Ok(before.value + [moved.value])
  }

  // A relative link for symlinks, the source itself otherwise.
  function PlacementOperation(p: Placement, request: Request): OrganizeResult<Operation> {
    if !request.mode.Symlink? then Checked(Transfer(request.mode, p.source, p.target))
    else
      var parent := Parent(Join(request.destination, p.target));
      if parent.None? then Err(MissingTargetName(p.target))
      else
        var link := Relative(parent.value, p.source);
        if link.None? then Err(RelativeSymlinkUnavailable(parent.value, p.source))
        else Checked(Transfer(Symlink, link.value, p.target))
  }

  function Targets(operations: seq<Operation>): set<Path> {
    set operation <- operations :: operation.target
  }

  function CarryingOut(request: Request): Placement -> OrganizeResult<Operation> {
    (p: Placement) => PlacementOperation(p, request)
  }

  // The placements whose target no metadata operation owns, up to the first collision.
  function Emitted(placements: seq<Placement>, reserved: set<Path>, carry: Placement -> OrganizeResult<Operation>)
    : OrganizeResult<seq<Operation>>
  {
    if placements == [] then Ok([])
    else
      var before, last := Emitted(placements[..|placements| - 1], reserved, carry), placements[|placements| - 1];
      if before.Err? || last.target in reserved then before
      else if last.target in Targets(before.value) then Err(DuplicateTarget(last.target))
      else
        var operation := carry(last);
        if operation.Err? then Err(operation.error) else Ok(before.value + [operation.value])
  }

  // The whole plan for the files found.
  function Planned(files: seq<Path>, request: Request): OrganizeResult<seq<Operation>> {
    var placed := PlaceAll(files, Asked(files, request));
    if placed.Err? then Err(placed.error)
    else
      var metadata := Rebased(request.metadata, Rebasing(placed.value.episodes, request));
      if metadata.Err? then metadata
      else
        var operations := Emitted(Settled(placed.value, request), Targets(metadata.value), CarryingOut(request));
        if operations.Err? then operations else Ok(operations.value + metadata.value)
  }

  // The placements after sidecars were moved to their videos.
  function Settled(placed: Placed, request: Request): seq<Placement> {
    if request.kind.Television? then Colocated(placed.placements, placed.episodes, request.kind, request.text)
    else placed.placements
  }

  lemma {:induction false} RebaseFailureIsFinal(operations: seq<Operation>, n: nat,
                                                rebase: Operation -> OrganizeResult<Operation>)
    requires n <= |operations| && Rebased(operations[..n], rebase).Err?
    ensures Rebased(operations, rebase) == Rebased(operations[..n], rebase)
    decreases |operations|
  {
    if n < |operations| {
      assert operations[..|operations| - 1][..n] == operations[..n];
      RebaseFailureIsFinal(operations[..|operations| - 1], n, rebase);
    } else {
      assert operations[..n] == operations;
    }
  }

  /** Rebases the metadata operations one by one. */
  method RebaseAll(operations: seq<Operation>, rebase: Operation -> OrganizeResult<Operation>)
    returns (r: OrganizeResult<seq<Operation>>)
    ensures r == Rebased(operations, rebase)
  {
    var result: seq<Operation> := [];
    for i := 0 to |operations|
      invariant Rebased(operations[..i], rebase) == Ok(result)
    {
      assert operations[..i + 1][..i] == operations[..i];
      var moved := rebase(operations[i]);
      if moved.Err? {
        RebaseFailureIsFinal(operations, i + 1, rebase);
        return Err(moved.error);
      }
      result := result + [moved.value];
    }
    assert operations[..|operations|] == operations;
    return Ok(result);
  }

  lemma {:induction false} EmitFailureIsFinal(placements: seq<Placement>, n: nat, reserved: set<Path>,
                                              carry: Placement -> OrganizeResult<Operation>)
    requires n <= |placements| && Emitted(placements[..n], reserved, carry).Err?
    ensures Emitted(placements, reserved, carry) == Emitted(placements[..n], reserved, carry)
    decreases |placements|
  {
    if n < |placements| {
      assert placements[..|placements| - 1][..n] == placements[..n];
      EmitFailureIsFinal(placements[..|placements| - 1], n, reserved, carry);
    } else {
      assert placements[..n] == placements;
    }
  }

  // Carrying out a placement keeps its target.
  ghost predicate KeepsTargets(carry: Placement -> OrganizeResult<Operation>) {
    forall p :: carry(p).Ok? ==> carry(p).value.target == p.target
  }

  /** The loop over the placements, which refuses a second placement at a target. */
  method EmitPlacements(placements: seq<Placement>, reserved: set<Path>, carry: Placement -> OrganizeResult<Operation>)
    returns (r: OrganizeResult<seq<Operation>>)
    requires KeepsTargets(carry)
    ensures r == Emitted(placements, reserved, carry)
  {
    var plan: seq<Operation>, placed: set<Path> := [], {};
    for i := 0 to |placements|
      invariant Emitted(placements[..i], reserved, carry) == Ok(plan) && placed == Targets(plan)
    {
      assert placements[..i + 1][..i] == placements[..i];
      var p := placements[i];
      if p.target !in reserved {
        if p.target in placed {
          EmitFailureIsFinal(placements, i + 1, reserved, carry);
          return Err(DuplicateTarget(p.target));
        }
        var operation := carry(p);
        if operation.Err? {
          EmitFailureIsFinal(placements, i + 1, reserved, carry);
          return Err(operation.error);
        }
        placed := placed + {p.target};
        plan := plan + [operation.value];
      }
    }
    assert placements[..|placements|] == placements;
    return Ok(plan);
  }

  // The files of the request: the tree's, or the source itself.
  function SourceList(request: Request): OrganizeResult<seq<Path>> {
    if request.directory.None? then Ok([request.source])
    else
      match SourceFiles.SortedFiles(SourceFiles.Walk([SourceFiles.Start(request.directory.value)]))
      case Files(paths) => Ok(Below(request.source, paths))
      case CannotInspect(path) => Err(InspectSource(request.source + Downs(path)))
  }

  function Below(root: Path, paths: seq<seq<string>>): seq<Path> {
    seq(|paths|, i requires 0 <= i < |paths| => root + Downs(paths[i]))
  }

  function Organized(request: Request): OrganizeResult<seq<Operation>> {
    var files := SourceList(request);
    if files.Err? then Err(files.error) else Planned(files.value, request)
  }

  lemma CarryingOutKeepsTargets(request: Request)
    ensures KeepsTargets(CarryingOut(request))
  {
  }

  /** Plans the files found: placements first, metadata operations behind them. */
  method PlanFiles(files: seq<Path>, request: Request) returns (r: OrganizeResult<seq<Operation>>)
    ensures r == Planned(files, request)
  {
    var placed := PlaceFiles(files, Asked(files, request));
    if placed.Err? { return Err(placed.error); }
    var placements := placed.value.placements;
    if request.kind.Television? {
      placements := ColocatedCopy(placements, placed.value.episodes, request);
    }
    var metadata := RebaseAll(request.metadata, Rebasing(placed.value.episodes, request));
    if metadata.Err? { return metadata; }
    CarryingOutKeepsTargets(request);
    var operations := EmitPlacements(placements, Targets(metadata.value), CarryingOut(request));
    if operations.Err? { return operations; }
    return Ok(operations.value + metadata.value);
  }

  /** Builds the plan for a source file, or for every regular file below a source directory. */
  method Organize(request: Request) returns (r: OrganizeResult<seq<Operation>>)
    ensures r == Organized(request)
  {
    var files := [request.source];
    if request.directory.Some? {
      var collected := SourceFiles.Collect(request.directory.value);
      if collected.CannotInspect? { return Err(InspectSource(request.source + Downs(collected.path))); }
      files := Below(request.source, collected.paths);
    }
    r := PlanFiles(files, request);
  }

  // Runs the in-place step on a buffer of the placements.
  method ColocatedCopy(placements: seq<Placement>, episodes: map<EpisodeKey, Path>, request: Request)
    returns (r: seq<Placement>)
    ensures r == Colocated(placements, episodes, request.kind, request.text)
  {
    var buffer := new Placement[|placements|](i requires 0 <= i < |placements| => placements[i]);
    assert buffer[..] == placements;
    ColocateEpisodeSidecars(buffer, episodes, request.kind, request.text);
    return buffer[..];
  }
}

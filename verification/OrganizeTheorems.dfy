/** What a successful organization plan guarantees. */
module OrganizeTheorems {
  import opened Options
  import opened Organize
  import opened PathNames
  import opened Paths
  import opened Results
  import opened Sequences

  // ----- the placement loop -----

  // The loop got as far as placing every file, each under its own target.
  lemma {:induction false} PlacedInOrder(files: seq<Path>, ask: Questions)
    requires PlaceAll(files, ask).Ok?
    ensures var placements := PlaceAll(files, ask).value.placements;
            && |placements| == |files|
            && forall i :: 0 <= i < |files| ==>
                 placements[i].source == files[i] && ask.target(files[i]) == Ok(placements[i].target)
  {
    if files != [] {
      PlacedInOrder(files[..|files| - 1], ask);
    }
  }

  // The episodes are those of the videos.
  lemma {:induction false} EpisodesIff(files: seq<Path>, ask: Questions, key: EpisodeKey)
    requires PlaceAll(files, ask).Ok?
    ensures key in PlaceAll(files, ask).value.episodes <==> exists source <- files :: ask.episode(source) == Some(key)
  {
    if files != [] {
      var n := |files| - 1;
      SplitLast(files, n);
      assert forall source :: source in files <==> source in files[..n] || source == files[n];
      EpisodesIff(files[..n], ask, key);
    }
  }

  ghost predicate EpisodesDiffer(files: seq<Path>, ask: Questions) {
    forall i, j :: 0 <= i < j < |files| && ask.episode(files[i]).Some? ==>
      ask.episode(files[i]) != ask.episode(files[j])
  }

  /** The placement loop succeeds exactly when every file has a target and no two videos share an episode. */
  lemma {:induction false} PlacingSucceedsIff(files: seq<Path>, ask: Questions)
    ensures PlaceAll(files, ask).Ok? <==>
            (forall i :: 0 <= i < |files| ==> ask.target(files[i]).Ok?) && EpisodesDiffer(files, ask)
  {
    if files != [] {
      var n := |files| - 1;
      var front, last := files[..n], files[n];
      PlacingSucceedsIff(front, ask);
      assert forall i :: 0 <= i < n ==> files[i] == front[i];
      if PlaceAll(front, ask).Ok? && ask.target(last).Ok? && ask.episode(last).Some? {
        var key := ask.episode(last).value;
        EpisodesIff(front, ask, key);
        if EpisodesDiffer(files, ask) {
          forall source <- front ensures ask.episode(source) != Some(key) {
            var i :| 0 <= i < n && front[i] == source;
            assert files[i] == source;
          }
        }
      }
    }
  }

  // A video's episode metadata belongs beside the video's target.
  lemma {:induction false} EpisodeTargets(files: seq<Path>, ask: Questions, i: nat)
    requires PlaceAll(files, ask).Ok? && i < |files| && ask.episode(files[i]).Some?
    ensures var placed, key := PlaceAll(files, ask).value, ask.episode(files[i]).value;
            && |placed.placements| == |files|
            && key in placed.episodes
            && placed.episodes[key] == WithExtension(placed.placements[i].target, NFO)
  {
    var n := |files| - 1;
    PlacedInOrder(files, ask);
    PlacedInOrder(files[..n], ask);
    if i < n { EpisodeTargets(files[..n], ask, i); }
  }

  // ----- the emitting loop -----

  function Unowned(placements: seq<Placement>, reserved: set<Path>): seq<Placement> {
    Filtered(placements, (p: Placement) => p.target !in reserved)
  }

  // The targets pairwise differ, and each placement can be carried out.
  ghost predicate Placeable(placements: seq<Placement>, carry: Placement -> OrganizeResult<Operation>) {
    && (forall i, j :: 0 <= i < j < |placements| ==> placements[i].target != placements[j].target)
    && (forall i :: 0 <= i < |placements| ==> carry(placements[i]).Ok?)
  }

  ghost predicate CarriedOut(placements: seq<Placement>, carry: Placement -> OrganizeResult<Operation>,
                             operations: seq<Operation>)
  {
    |operations| == |placements| && forall i :: 0 <= i < |placements| ==> carry(placements[i]) == Ok(operations[i])
  }

  /** Emitting succeeds exactly when the unowned targets differ and can be carried out; then it does just that. */
  lemma {:induction false} EmittingSucceedsIff(placements: seq<Placement>, reserved: set<Path>,
                                               carry: Placement -> OrganizeResult<Operation>)
    requires KeepsTargets(carry)
    ensures Emitted(placements, reserved, carry).Ok? <==> Placeable(Unowned(placements, reserved), carry)
    ensures Emitted(placements, reserved, carry).Ok? ==>
              CarriedOut(Unowned(placements, reserved), carry, Emitted(placements, reserved, carry).value)
  {
    if placements != [] {
      var n := |placements| - 1;
      var front, last := Unowned(placements[..n], reserved), placements[n];
      EmittingSucceedsIff(placements[..n], reserved, carry);
      if last.target !in reserved {
        assert Unowned(placements, reserved) == front + [last];
        AppendPlaceable(front, last, carry);
        if Emitted(placements[..n], reserved, carry).Ok? {
          TargetsOf(front, carry, Emitted(placements[..n], reserved, carry).value, last.target);
        }
      } else {
        assert Unowned(placements, reserved) == front;
      }
    }
  }

  lemma AppendPlaceable(front: seq<Placement>, last: Placement, carry: Placement -> OrganizeResult<Operation>)
    ensures Placeable(front + [last], carry) <==>
            Placeable(front, carry) && carry(last).Ok? && forall p <- front :: p.target != last.target
  {
    var all := front + [last];
    assert all[|front|] == last && forall i :: 0 <= i < |front| ==> all[i] == front[i];
    if Placeable(all, carry) {
      forall p <- front ensures p.target != last.target {
        var i :| 0 <= i < |front| && front[i] == p;
        assert all[i].target != all[|front|].target;
      }
    }
  }

  lemma TargetsOf(placements: seq<Placement>, carry: Placement -> OrganizeResult<Operation>,
                  operations: seq<Operation>, target: Path)
    requires KeepsTargets(carry) && CarriedOut(placements, carry, operations)
    ensures target in Targets(operations) <==> exists p <- placements :: p.target == target
  {
    if target in Targets(operations) {
      var i :| 0 <= i < |operations| && operations[i].target == target;
      assert placements[i] in placements && carry(placements[i]) == Ok(operations[i]);
    }
    if exists p <- placements :: p.target == target {
      var p :| p in placements && p.target == target;
      var i :| 0 <= i < |placements| && placements[i] == p;
      assert carry(placements[i]) == Ok(operations[i]) && operations[i] in operations;
    }
  }

  // ----- the metadata operations -----

  /** Rebasing succeeds exactly when every operation can be rebased; then it does just that, in order. */
  lemma {:induction false} RebasingSucceedsIff(operations: seq<Operation>,
                                               rebase: Operation -> OrganizeResult<Operation>)
    ensures Rebased(operations, rebase).Ok? <==> forall i :: 0 <= i < |operations| ==> rebase(operations[i]).Ok?
    ensures Rebased(operations, rebase).Ok? ==>
              && |Rebased(operations, rebase).value| == |operations|
              && forall i :: 0 <= i < |operations| ==> rebase(operations[i]) == Ok(Rebased(operations, rebase).value[i])
  {
    if operations != [] {
      var n := |operations| - 1;
      RebasingSucceedsIff(operations[..n], rebase);
      assert forall i :: 0 <= i < n ==> operations[..n][i] == operations[i];
    }
  }

  // What an operation does, wherever it does it.
  predicate SamePayload(a: Operation, b: Operation) {
    match a
    case CreateDirectory(_) => b.CreateDirectory?
    case WriteBytes(_, content) => b.WriteBytes? && b.content == content
    case Transfer(mode, source, _) => b.Transfer? && b.mode == mode && b.source == source
  }

  lemma RebaseKeepsPayload(operation: Operation, episodes: map<EpisodeKey, Path>, request: Request)
    requires Rebase(operation, episodes, request).Ok?
    ensures SamePayload(operation, Rebase(operation, episodes, request).value)
    ensures SafeTarget(Rebase(operation, episodes, request).value.target)
  {
  }

  lemma CarryingOutIsSafe(p: Placement, request: Request)
    requires PlacementOperation(p, request).Ok?
    ensures SafeTarget(PlacementOperation(p, request).value.target)
    ensures PlacementOperation(p, request).value.target == p.target
  {
  }

  // ----- the plan -----

  // The parts of a successful plan: the settled placements and the metadata operations.
  datatype Parts = Parts(settled: seq<Placement>, unowned: seq<Placement>, placing: seq<Operation>,
                         metadata: seq<Operation>)

  ghost function PartsOf(files: seq<Path>, request: Request): Parts
    requires Planned(files, request).Ok?
  {
    var placed := PlaceAll(files, Asked(files, request)).value;
    var settled := Settled(placed, request);
    var metadata := Rebased(request.metadata, Rebasing(placed.episodes, request)).value;
    Parts(settled, Unowned(settled, Targets(metadata)),
          Emitted(settled, Targets(metadata), CarryingOut(request)).value, metadata)
  }

  /** Every file is settled in order, and the plan is the unowned placements followed by the metadata operations. */
  lemma PlanHasItsParts(files: seq<Path>, request: Request)
    requires Planned(files, request).Ok?
    ensures var parts := PartsOf(files, request);
            && Planned(files, request).value == parts.placing + parts.metadata
            && |parts.settled| == |files| && (forall i :: 0 <= i < |files| ==> parts.settled[i].source == files[i])
            && CarriedOut(parts.unowned, CarryingOut(request), parts.placing)
            && Placeable(parts.unowned, CarryingOut(request))
            && EpisodesDiffer(files, Asked(files, request))
  {
    var ask := Asked(files, request);
    var placed := PlaceAll(files, ask).value;
    PlacedInOrder(files, ask);
    PlacingSucceedsIff(files, ask);
    CarryingOutKeepsTargets(request);
    var metadata := Rebased(request.metadata, Rebasing(placed.episodes, request)).value;
    EmittingSucceedsIff(Settled(placed, request), Targets(metadata), CarryingOut(request));
  }

  // The operation transfers the placement's file to its target in the requested mode; a symlink leads from the
  // directory of the target to the file.
  ghost predicate Places(operation: Operation, p: Placement, request: Request) {
    && operation.Transfer? && operation.mode == request.mode && operation.target == p.target
    && (!request.mode.Symlink? ==> operation.source == p.source)
    && (request.mode.Symlink? ==>
          var link := Join(request.destination, p.target);
          && link != [] && !link[|link| - 1].RootDir?
          && Relative(link[..|link| - 1], p.source) == Some(operation.source))
  }

  lemma CarriedOutIsPlaced(p: Placement, request: Request)
    requires PlacementOperation(p, request).Ok?
    ensures Places(PlacementOperation(p, request).value, p, request)
  {
  }

  // Position `k` of the plan carries out the placement, and nothing else in the plan has its target.
  ghost predicate PlacedAt(plan: seq<Operation>, k: int, p: Placement, request: Request) {
    && 0 <= k < |plan| && Places(plan[k], p, request)
    && forall j :: 0 <= j < |plan| && plan[j].target == p.target ==> j == k
  }

  /** The plan ends with every metadata operation, once and in order, with what it does unchanged. */
  lemma MetadataSurvives(files: seq<Path>, request: Request)
    requires Planned(files, request).Ok?
    ensures var plan, metadata := Planned(files, request).value, request.metadata;
            && |PartsOf(files, request).metadata| == |metadata| <= |plan|
            && plan[|plan| - |metadata|..] == PartsOf(files, request).metadata
            && forall j :: 0 <= j < |metadata| ==> SamePayload(metadata[j], plan[|plan| - |metadata|..][j])
  {
    var placed := PlaceAll(files, Asked(files, request)).value;
    var rebase := Rebasing(placed.episodes, request);
    var metadata := PartsOf(files, request).metadata;
    RebasingSucceedsIff(request.metadata, rebase);
    forall j | 0 <= j < |metadata| ensures SamePayload(request.metadata[j], metadata[j]) {
      assert rebase(request.metadata[j]) == Ok(metadata[j]);
      RebaseKeepsPayload(request.metadata[j], placed.episodes, request);
    }
  }

  lemma OwnedElsewhere(placing: seq<Operation>, metadata: seq<Operation>, j: nat)
    requires |placing| <= j < |placing + metadata|
    ensures (placing + metadata)[j].target in Targets(metadata)
  {
    assert metadata[j - |placing|] in metadata;
  }

  lemma PlacementsAreAlone(parts: Parts, request: Request, k: nat)
    requires CarriedOut(parts.unowned, CarryingOut(request), parts.placing)
    requires Placeable(parts.unowned, CarryingOut(request))
    requires k < |parts.unowned| && parts.unowned[k].target !in Targets(parts.metadata)
    ensures PlacedAt(parts.placing + parts.metadata, k, parts.unowned[k], request)
  {
    var plan := parts.placing + parts.metadata;
    forall i | 0 <= i < |parts.unowned| ensures plan[i].target == parts.unowned[i].target {
      assert CarryingOut(request)(parts.unowned[i]) == Ok(parts.placing[i]);
      CarryingOutIsSafe(parts.unowned[i], request);
    }
    assert CarryingOut(request)(parts.unowned[k]) == Ok(parts.placing[k]);
    CarriedOutIsPlaced(parts.unowned[k], request);
    forall j | |parts.placing| <= j < |plan| ensures plan[j].target in Targets(parts.metadata) {
      OwnedElsewhere(parts.placing, parts.metadata, j);
    }
  }

  lemma UnownedIff(settled: seq<Placement>, reserved: set<Path>, p: Placement)
    ensures p in Unowned(settled, reserved) <==> p in settled && p.target !in reserved
  {
    FilteredIff(settled, (q: Placement) => q.target !in reserved, p);
  }

  /** A file whose target no metadata operation owns is placed by exactly one operation, alone at its target. */
  lemma UnownedFilesArePlacedOnce(files: seq<Path>, request: Request, p: Placement)
    requires Planned(files, request).Ok? && p in PartsOf(files, request).settled
    requires p.target !in Targets(PartsOf(files, request).metadata)
    ensures exists k :: PlacedAt(Planned(files, request).value, k, p, request)
  {
    var parts := PartsOf(files, request);
    PlanHasItsParts(files, request);
    UnownedIff(parts.settled, Targets(parts.metadata), p);
    var k :| 0 <= k < |parts.unowned| && parts.unowned[k] == p;
    PlacementsAreAlone(parts, request, k);
  }

  /** Nothing else is placed: every operation before the metadata carries out some file's settled placement, alone at
      a target that no metadata operation owns. */
  lemma EveryPlacementHasAFile(files: seq<Path>, request: Request, k: nat)
    requires Planned(files, request).Ok? && k < |PartsOf(files, request).placing|
    ensures exists p <- PartsOf(files, request).settled ::
              && p.target !in Targets(PartsOf(files, request).metadata) && p.source in files
              && PlacedAt(Planned(files, request).value, k, p, request)
  {
    var parts := PartsOf(files, request);
    PlanHasItsParts(files, request);
    var p := parts.unowned[k];
    UnownedIff(parts.settled, Targets(parts.metadata), p);
    PlacementsAreAlone(parts, request, k);
    var i :| 0 <= i < |parts.settled| && parts.settled[i] == p;
    assert parts.settled[i].source == files[i];
  }

  lemma OwnedTargetsAreNotPlaced(files: seq<Path>, request: Request, target: Path)
    requires Planned(files, request).Ok? && target in Targets(PartsOf(files, request).metadata)
    ensures target !in Targets(PartsOf(files, request).placing)
  {
    var parts := PartsOf(files, request);
    PlanHasItsParts(files, request);
    CarryingOutKeepsTargets(request);
    TargetsOf(parts.unowned, CarryingOut(request), parts.placing, target);
    forall p | p in parts.unowned ensures p.target != target {
      UnownedIff(parts.settled, Targets(parts.metadata), p);
    }
  }
}

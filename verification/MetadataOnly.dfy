/** Removing a plan's asset transfers while keeping its manifests truthful (`metadata_only`). */
module MetadataOnly {
  import opened Options
  import opened PathNames
  import opened Paths
  import opened Results
  import opened Sequences
  import Organize

  // A manifest entry: a file path as text, or anything else.
  datatype Json = Text(value: string) | Other(value: string)

  // The planned files of a manifest: an array, an object, something else, or nothing.
  datatype PlannedFiles = List(files: seq<Json>) | Table(entries: seq<(string, Json)>) | Odd(value: string) | Missing

  datatype Manifest = Manifest(plannedFiles: PlannedFiles, rest: string)

  // The JSON library: reading may fail.
  datatype Codec = Codec(parse: Organize.Content -> Option<Manifest>, write: Manifest -> Organize.Content)

  datatype Failure = InvalidManifest | InvalidTarget(path: Path)

  type FilterResult<+T> = Results.Result<T, Failure>

  const MANIFEST := "fixer-manifest.json"

  predicate IsManifest(operation: Organize.Operation) {
    operation.WriteBytes? && FileName(operation.target) == Some(MANIFEST)
  }

  // The targets of the transfers.
  function Dropped(plan: seq<Organize.Operation>): seq<Path> {
    if plan == [] then []
    else
      var last := plan[|plan| - 1];
      Dropped(plan[..|plan| - 1]) + if last.Transfer? then [last.target] else []
  }

  // An entry stays unless it names a dropped target.
  predicate Stays(file: Json, dropped: seq<Path>) {
    file.Text? ==> Components(file.value) !in dropped
  }

  function Retained(manifest: Manifest, dropped: seq<Path>): Manifest {
    match manifest.plannedFiles
    case List(files) => manifest.(plannedFiles := List(Filtered(files, (file: Json) => Stays(file, dropped))))
    case Table(entries) =>
      manifest.(plannedFiles := Table(Filtered(entries, (entry: (string, Json)) => Stays(entry.1, dropped))))
    case _ => manifest
  }

  function Reconcile(operation: Organize.Operation, dropped: seq<Path>, codec: Codec): FilterResult<Organize.Operation>
    requires operation.WriteBytes?
  {
    var manifest := codec.parse(operation.content);
    if manifest.None? then Err(InvalidManifest)
    else if !Organize.SafeTarget(operation.target) then Err(InvalidTarget(operation.target))
    else Ok(Organize.WriteBytes(operation.target, codec.write(Retained(manifest.value, dropped))))
  }

  // What becomes of one operation; transfers are left out before.
  function Keep(operation: Organize.Operation, dropped: seq<Path>, codec: Codec): FilterResult<Organize.Operation> {
    if IsManifest(operation) then Reconcile(operation, dropped, codec) else Ok(operation)
  }

  function Kept(plan: seq<Organize.Operation>, dropped: seq<Path>, codec: Codec)
    : FilterResult<seq<Organize.Operation>>
  {
    if plan == [] then Ok([])
    else
      var before, last := Kept(plan[..|plan| - 1], dropped, codec), plan[|plan| - 1];
      if before.Err? || last.Transfer? then before
      else
        var kept := Keep(last, dropped, codec);
        if kept.Err? then Err(kept.error) else Ok(before.value + [kept.value])
  }

  lemma {:induction false} FailureIsFinal(plan: seq<Organize.Operation>, n: nat, dropped: seq<Path>, codec: Codec)
    requires n <= |plan| && Kept(plan[..n], dropped, codec).Err?
    ensures Kept(plan, dropped, codec) == Kept(plan[..n], dropped, codec)
    decreases |plan|
  {
    if n < |plan| {
      assert plan[..|plan| - 1][..n] == plan[..n];
      FailureIsFinal(plan[..|plan| - 1], n, dropped, codec);
    } else {
      assert plan[..n] == plan;
    }
  }

  /** Drops the transfers of a plan and takes them out of its manifests. */
  method Filter(plan: seq<Organize.Operation>, codec: Codec) returns (r: FilterResult<seq<Organize.Operation>>)
    ensures r == Kept(plan, Dropped(plan), codec)
  {
    var dropped := Dropped(plan);
    var filtered: seq<Organize.Operation> := [];
    for i := 0 to |plan|
      invariant Kept(plan[..i], dropped, codec) == Ok(filtered)
    {
      assert plan[..i + 1][..i] == plan[..i];
      if !plan[i].Transfer? {
        var kept := Keep(plan[i], dropped, codec);
        if kept.Err? {
          FailureIsFinal(plan, i + 1, dropped, codec);
          return Err(kept.error);
        }
        filtered := filtered + [kept.value];
      }
    }
    assert plan[..|plan|] == plan;
    return Ok(filtered);
  }

  // ----- what is left -----

  lemma {:induction false} DroppedIff(plan: seq<Organize.Operation>, target: Path)
    ensures target in Dropped(plan) <==> exists operation <- plan :: operation.Transfer? && operation.target == target
  {
    if plan != [] {
      SplitLast(plan, |plan| - 1);
      DroppedIff(plan[..|plan| - 1], target);
    }
  }

  // The operations that are no transfers, in order.
  function Writers(plan: seq<Organize.Operation>): seq<Organize.Operation> {
    Filtered(plan, (operation: Organize.Operation) => !operation.Transfer?)
  }

  /** What is left is what was no transfer, in order, with only the manifests rewritten. */
  lemma {:induction false} KeepsTheRest(plan: seq<Organize.Operation>, dropped: seq<Path>, codec: Codec)
    requires Kept(plan, dropped, codec).Ok?
    ensures var r, writers := Kept(plan, dropped, codec).value, Writers(plan);
            && |r| == |writers|
            && forall i :: 0 <= i < |r| ==>
                 !r[i].Transfer? && r[i].target == writers[i].target && Keep(writers[i], dropped, codec) == Ok(r[i])
  {
    if plan != [] {
      var n := |plan| - 1;
      KeepsTheRest(plan[..n], dropped, codec);
      var front := Writers(plan[..n]);
      if plan[n].Transfer? {
        assert Writers(plan) == front;
      } else {
        assert Writers(plan) == front + [plan[n]];
      }
    }
  }

  // A planned file that names the target of a transfer.
  ghost predicate NamesTransfer(file: Json, plan: seq<Organize.Operation>) {
    file.Text? && exists operation <- plan :: operation.Transfer? && operation.target == Components(file.value)
  }

  lemma StaysIff(file: Json, plan: seq<Organize.Operation>)
    ensures Stays(file, Dropped(plan)) <==> !NamesTransfer(file, plan)
  {
    if file.Text? { DroppedIff(plan, Components(file.value)); }
  }

  // A manifest that was read reads back the same when it is written without some of its planned files. Nothing is asked
  // of manifests that no content holds, such as objects with a key twice.
  ghost predicate RoundTrips(codec: Codec) {
    forall content, dropped :: codec.parse(content).Some? ==>
      var retained := Retained(codec.parse(content).value, dropped);
      codec.parse(codec.write(retained)) == Some(retained)
  }

  // An object as a JSON library holds it: every key once.
  ghost predicate KeysDiffer(entries: seq<(string, Json)>) {
    forall i, j :: 0 <= i < j < |entries| ==> entries[i].0 != entries[j].0
  }

  ghost predicate HasKeysOnce(manifest: Manifest) {
    manifest.plannedFiles.Table? ==> KeysDiffer(manifest.plannedFiles.entries)
  }

  // What is read has every key once, and such manifests read back as they were written.
  ghost predicate Lawful(codec: Codec) {
    && (forall content :: codec.parse(content).Some? ==> HasKeysOnce(codec.parse(content).value))
    && (forall manifest :: HasKeysOnce(manifest) ==> codec.parse(codec.write(manifest)) == Some(manifest))
  }

  lemma {:induction false} FilteredKeysDiffer(entries: seq<(string, Json)>, keep: ((string, Json)) -> bool)
    requires KeysDiffer(entries)
    ensures KeysDiffer(Filtered(entries, keep))
  {
    if entries != [] {
      var n := |entries| - 1;
      FilteredKeysDiffer(entries[..n], keep);
      var front := Filtered(entries[..n], keep);
      forall i | 0 <= i < |front| ensures front[i].0 != entries[n].0 { assert front[i] in entries[..n]; }
    }
  }

  /** A JSON library that keeps every key once reads back what the filter writes. */
  lemma LawfulCodecsRoundTrip(codec: Codec)
    requires Lawful(codec)
    ensures RoundTrips(codec)
  {
    forall content, dropped | codec.parse(content).Some?
      ensures HasKeysOnce(Retained(codec.parse(content).value, dropped))
    {
      var manifest := codec.parse(content).value;
      if manifest.plannedFiles.Table? {
        FilteredKeysDiffer(manifest.plannedFiles.entries, (entry: (string, Json)) => Stays(entry.1, dropped));
      }
    }
  }

  // The manifest at position i of a filtered plan, as it was and as it is written.
  lemma WrittenManifest(plan: seq<Organize.Operation>, codec: Codec, i: nat)
    requires RoundTrips(codec) && Kept(plan, Dropped(plan), codec).Ok?
    requires i < |Kept(plan, Dropped(plan), codec).value| == |Writers(plan)| && IsManifest(Writers(plan)[i])
    ensures var written := Kept(plan, Dropped(plan), codec).value[i];
            && written.WriteBytes? && codec.parse(Writers(plan)[i].content).Some?
            && codec.parse(written.content) == Some(Retained(codec.parse(Writers(plan)[i].content).value,
                                                             Dropped(plan)))
  {
    KeepsTheRest(plan, Dropped(plan), codec);
    var retained := Retained(codec.parse(Writers(plan)[i].content).value, Dropped(plan));
    assert codec.parse(codec.write(retained)) == Some(retained);
  }

  /** A manifest that a filtered plan writes lists a planned file exactly when it did before and the file names no
      transfer of the plan; nothing else in it changes. */
  lemma ManifestsTellTheTruth(plan: seq<Organize.Operation>, codec: Codec, i: nat, file: Json)
    requires RoundTrips(codec) && Kept(plan, Dropped(plan), codec).Ok?
    requires i < |Kept(plan, Dropped(plan), codec).value| == |Writers(plan)| && IsManifest(Writers(plan)[i])
    ensures var written := Kept(plan, Dropped(plan), codec).value[i];
            && written.WriteBytes? && codec.parse(Writers(plan)[i].content).Some? && codec.parse(written.content).Some?
            && var before, after := codec.parse(Writers(plan)[i].content).value, codec.parse(written.content).value;
            && after.rest == before.rest
            && (before.plannedFiles.List? ==>
                  && after.plannedFiles.List?
                  && (file in after.plannedFiles.files <==>
                      file in before.plannedFiles.files && !NamesTransfer(file, plan)))
            && (!before.plannedFiles.List? && !before.plannedFiles.Table? ==> after == before)
  {
    WrittenManifest(plan, codec, i);
    var before := codec.parse(Writers(plan)[i].content).value;
    StaysIff(file, plan);
    if before.plannedFiles.List? {
      FilteredIff(before.plannedFiles.files, (f: Json) => Stays(f, Dropped(plan)), file);
    }
  }

  /** The same for a manifest that maps keys to planned files. */
  lemma TablesTellTheTruth(plan: seq<Organize.Operation>, codec: Codec, i: nat, key: string, file: Json)
    requires RoundTrips(codec) && Kept(plan, Dropped(plan), codec).Ok?
    requires i < |Kept(plan, Dropped(plan), codec).value| == |Writers(plan)| && IsManifest(Writers(plan)[i])
    requires codec.parse(Writers(plan)[i].content).Some?
    requires codec.parse(Writers(plan)[i].content).value.plannedFiles.Table?
    ensures var written := Kept(plan, Dropped(plan), codec).value[i];
            && written.WriteBytes? && codec.parse(written.content).Some?
            && var before, after := codec.parse(Writers(plan)[i].content).value, codec.parse(written.content).value;
            && after.rest == before.rest && after.plannedFiles.Table?
            && ((key, file) in after.plannedFiles.entries <==>
                (key, file) in before.plannedFiles.entries && !NamesTransfer(file, plan))
  {
    WrittenManifest(plan, codec, i);
    var before := codec.parse(Writers(plan)[i].content).value;
    StaysIff(file, plan);
    FilteredIff(before.plannedFiles.entries, (entry: (string, Json)) => Stays(entry.1, Dropped(plan)), (key, file));
  }

  lemma NothingDropped(manifest: Manifest)
    ensures Retained(manifest, []) == manifest
  {
    match manifest.plannedFiles {
      case List(files) => FilteredAll(files, (file: Json) => Stays(file, []));
      case Table(entries) => FilteredAll(entries, (entry: (string, Json)) => Stays(entry.1, []));
      case _ =>
    }
  }

  ghost predicate Settled(operation: Organize.Operation, codec: Codec) {
    !operation.Transfer? && Keep(operation, [], codec) == Ok(operation)
  }

  lemma KeptIsSettled(operation: Organize.Operation, dropped: seq<Path>, codec: Codec)
    requires RoundTrips(codec) && !operation.Transfer? && Keep(operation, dropped, codec).Ok?
    ensures Settled(Keep(operation, dropped, codec).value, codec)
  {
    if IsManifest(operation) {
      var retained := Retained(codec.parse(operation.content).value, dropped);
      assert codec.parse(codec.write(retained)) == Some(retained);
      NothingDropped(retained);
    }
  }

  lemma {:induction false} SettledPlansAreKept(plan: seq<Organize.Operation>, codec: Codec)
    requires forall i :: 0 <= i < |plan| ==> Settled(plan[i], codec)
    ensures Dropped(plan) == [] && Kept(plan, [], codec) == Ok(plan)
  {
    if plan != [] {
      var n := |plan| - 1;
      SettledPlansAreKept(plan[..n], codec);
      SplitLast(plan, n);
    }
  }

  /** Filtering twice is filtering once. */
  lemma FilteringIsIdempotent(plan: seq<Organize.Operation>, codec: Codec)
    requires RoundTrips(codec) && Kept(plan, Dropped(plan), codec).Ok?
    ensures var r := Kept(plan, Dropped(plan), codec).value;
            Dropped(r) == [] && Kept(r, Dropped(r), codec) == Ok(r)
  {
    var dropped := Dropped(plan);
    var r := Kept(plan, dropped, codec).value;
    KeepsTheRest(plan, dropped, codec);
    forall i | 0 <= i < |r| ensures Settled(r[i], codec) {
      KeptIsSettled(Writers(plan)[i], dropped, codec);
    }
    SettledPlansAreKept(r, codec);
  }
}

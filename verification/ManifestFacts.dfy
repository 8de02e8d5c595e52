/** What removing the transfers leaves of a plan, operation by operation. */
module ManifestFacts {
  import opened MetadataOnly
  import opened Options
  import opened PathNames
  import opened Paths
  import opened Results
  import opened Sequences
  import Organize

  // A file to be written under the name of a manifest.
  ghost predicate WritesManifest(operation: Organize.Operation) {
    && operation.WriteBytes? && operation.target != []
    && operation.target[|operation.target| - 1] == Normal("fixer-manifest.json")
  }

  // The manifest without the planned files that name a transfer of the plan, the others in their order.
  ghost function WithoutTransfers(manifest: Manifest, plan: seq<Organize.Operation>): Manifest {
    match manifest.plannedFiles
    case List(files) => manifest.(plannedFiles := List(Filtered(files, (f: Json) => !NamesTransfer(f, plan))))
    case Table(entries) =>
      manifest.(plannedFiles := Table(Filtered(entries, (e: (string, Json)) => !NamesTransfer(e.1, plan))))
    case Odd(_) => manifest
    case Missing => manifest
  }

  lemma RetainedIs(manifest: Manifest, plan: seq<Organize.Operation>)
    ensures Retained(manifest, Dropped(plan)) == WithoutTransfers(manifest, plan)
  {
    forall file ensures Stays(file, Dropped(plan)) <==> !NamesTransfer(file, plan) { StaysIff(file, plan); }
    match manifest.plannedFiles {
      case List(files) =>
        SameOnMembers(files, (f: Json) => Stays(f, Dropped(plan)), (f: Json) => !NamesTransfer(f, plan));
      case Table(entries) =>
        SameOnMembers(entries, (e: (string, Json)) => Stays(e.1, Dropped(plan)),
                      (e: (string, Json)) => !NamesTransfer(e.1, plan));
      case _ =>
    }
  }

  // What becomes of an operation that is no transfer.
  ghost predicate Becomes(operation: Organize.Operation, plan: seq<Organize.Operation>, codec: Codec,
                          result: Organize.Operation)
  {
    if WritesManifest(operation) then
      && codec.parse(operation.content).Some?
      && result == Organize.WriteBytes(operation.target,
                                       codec.write(WithoutTransfers(codec.parse(operation.content).value, plan)))
    else result == operation
  }

  // A manifest that cannot be read, or whose target is none.
  ghost predicate Fails(operation: Organize.Operation, codec: Codec) {
    WritesManifest(operation) &&
    (codec.parse(operation.content).None? || exists c <- operation.target :: c.RootDir? || c.ParentDir?)
  }

  lemma KeepIs(operation: Organize.Operation, plan: seq<Organize.Operation>, codec: Codec)
    ensures var kept := Keep(operation, Dropped(plan), codec);
            && (kept.Err? <==> Fails(operation, codec))
            && (kept.Ok? ==> Becomes(operation, plan, codec, kept.value))
            && (kept.Err? ==> kept.error == if codec.parse(operation.content).None? then InvalidManifest
                                            else InvalidTarget(operation.target))
  {
    if operation.WriteBytes? && codec.parse(operation.content).Some? {
      RetainedIs(codec.parse(operation.content).value, plan);
    }
  }

  /** A filtered plan holds what was no transfer, in order and unchanged, but for the manifests: they are written anew
      without the files that the transfers would have brought. */
  lemma FilteredPlanIs(plan: seq<Organize.Operation>, codec: Codec)
    requires Kept(plan, Dropped(plan), codec).Ok?
    ensures var r, others := Kept(plan, Dropped(plan), codec).value,
            Filtered(plan, (operation: Organize.Operation) => !operation.Transfer?);
            |r| == |others| && forall i :: 0 <= i < |r| ==> Becomes(others[i], plan, codec, r[i])
  {
    KeepsTheRest(plan, Dropped(plan), codec);
    var r := Kept(plan, Dropped(plan), codec).value;
    forall i | 0 <= i < |r| ensures Becomes(Writers(plan)[i], plan, codec, r[i]) {
      KeepIs(Writers(plan)[i], plan, codec);
    }
  }

  lemma {:induction false} KeptUpTo(plan: seq<Organize.Operation>, n: nat, dropped: seq<Path>, codec: Codec)
    requires n <= |plan|
    requires forall i :: 0 <= i < n ==> plan[i].Transfer? || Keep(plan[i], dropped, codec).Ok?
    ensures Kept(plan[..n], dropped, codec).Ok?
    ensures n < |plan| && !plan[n].Transfer? && Keep(plan[n], dropped, codec).Err? ==>
              Kept(plan, dropped, codec) == Err(Keep(plan[n], dropped, codec).error)
  {
    if n > 0 {
      KeptUpTo(plan, n - 1, dropped, codec);
      assert plan[..n][..n - 1] == plan[..n - 1];
    }
    if n < |plan| && !plan[n].Transfer? && Keep(plan[n], dropped, codec).Err? {
      assert plan[..n + 1][..n] == plan[..n];
      FailureIsFinal(plan, n + 1, dropped, codec);
    }
  }

  /** Filtering fails exactly at the first manifest that cannot be read or has no safe target. */
  lemma FilteringFailsAt(plan: seq<Organize.Operation>, codec: Codec, n: nat)
    requires n <= |plan| && forall i :: 0 <= i < n ==> !Fails(plan[i], codec)
    requires n < |plan| ==> Fails(plan[n], codec)
    ensures var r := Kept(plan, Dropped(plan), codec);
            if n == |plan| then r.Ok?
            else r == Err(if codec.parse(plan[n].content).None? then InvalidManifest else InvalidTarget(plan[n].target))
  {
    forall i | 0 <= i < |plan| ensures Keep(plan[i], Dropped(plan), codec).Err? <==> Fails(plan[i], codec) {
      KeepIs(plan[i], plan, codec);
    }
    KeptUpTo(plan, n, Dropped(plan), codec);
    assert plan[..|plan|] == plan;
    if n < |plan| { KeepIs(plan[n], plan, codec); }
  }
}

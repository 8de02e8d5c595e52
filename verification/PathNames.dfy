/** File names on component paths, as `std::path` defines them. */
module PathNames {
  import opened Options
  import opened Paths

  type Path = seq<Component>

  // The position of the last dot, if any.
  function LastDot(name: string): (r: Option<nat>)
    ensures r.Some? ==> r.value < |name| && name[r.value] == '.' && forall i :: r.value < i < |name| ==> name[i] != '.'
    ensures r.None? ==> forall i :: 0 <= i < |name| ==> name[i] != '.'
  {
    if name == "" then None
    else if name[|name| - 1] == '.' then Some(|name| - 1)
    else LastDot(name[..|name| - 1])
  }

  // A dot in front is part of the stem.
  predicate HasExtension(name: string) {
    LastDot(name).Some? && LastDot(name).value > 0
  }

  function StemOf(name: string): string {
    if HasExtension(name) then name[..LastDot(name).value] else name
  }

  function ExtensionOf(name: string): Option<string> {
    if HasExtension(name) then Some(name[LastDot(name).value + 1..]) else None
  }

  function FileName(path: Path): Option<string> {
    if path != [] && path[|path| - 1].Normal? then Some(path[|path| - 1].name) else None
  }

  function FileStem(path: Path): Option<string> {
    if FileName(path).Some? then Some(StemOf(FileName(path).value)) else None
  }

  function Extension(path: Path): Option<string> {
    if FileName(path).Some? then ExtensionOf(FileName(path).value) else None
  }

  function Parent(path: Path): Option<Path> {
    if path == [] || path[|path| - 1].RootDir? then None else Some(path[..|path| - 1])
  }

  // A relative path of one name.
  function Single(name: string): Path {
    if name == "" || name == "." then [] else if name == ".." then [ParentDir] else [Normal(name)]
  }

  // `Path::join`
  function Join(base: Path, path: Path): Path {
    if base == [] || (path != [] && path[0].RootDir?) then path
    else base + if path != [] && path[0].CurDir? then path[1..] else path
  }

  lemma JoinNames(base: Path, names: Path)
    requires names != [] && names[0].Normal?
    ensures Join(base, names) == base + names
  {
  }

  // A root and a leading dot can only stand in front.
  ghost predicate WellFormed(path: Path) {
    forall i :: 0 < i < |path| ==> !path[i].RootDir? && !path[i].CurDir?
  }

  lemma {:induction false} ResolveInTurn(directory: seq<string>, a: Path, b: Path)
    ensures Resolve(directory, a + b) == Resolve(Resolve(directory, a), b)
    decreases |a|
  {
    if a == [] {
      assert a + b == b;
    } else {
      ResolveInTurn(Step(directory, a[0]), a[1..], b);
      assert (a + b)[1..] == a[1..] + b;
    }
  }

  /** A joined path leads where its second part leads from where the first one leads; a path from the root, and one that
      is joined to nothing, stays as it is. */
  lemma JoinLeads(base: Path, path: Path, directory: seq<string>)
    requires WellFormed(base) && WellFormed(path)
    ensures WellFormed(Join(base, path))
    ensures Resolve(directory, Join(base, path)) == Resolve(Resolve(directory, base), path)
    ensures base == [] || (path != [] && path[0].RootDir?) ==> Join(base, path) == path
  {
    if base == [] { return; }
    if path != [] && path[0].RootDir? {
      assert Resolve(directory, path) == Resolve([], path[1..]) == Resolve(Resolve(directory, base), path);
    } else {
      var rest := if path != [] && path[0].CurDir? then path[1..] else path;
      ResolveInTurn(directory, base, rest);
      assert forall i :: 0 < i < |rest| ==> !rest[i].RootDir? && !rest[i].CurDir?;
    }
  }

  // What the name of a component is: never empty, never dots that mean a directory.
  predicate Proper(name: string) {
    name != "" && name != "." && name != ".."
  }

  // The name with its extension replaced; an empty extension leaves the stem.
  function Renamed(name: string, extension: string): string {
    StemOf(name) + if extension == "" then "" else "." + extension
  }

  // `Path::with_extension`: a path without a file name stays as it is.
  function WithExtension(path: Path, extension: string): Path {
    if FileName(path).None? then path
    else Join(path[..|path| - 1], Single(Renamed(FileName(path).value, extension)))
  }

  // Putting an extension behind a stem and taking it off again.
  lemma Appended(stem: string, extension: string)
    requires stem != "" && '.' !in extension
    ensures StemOf(stem + ['.'] + extension) == stem
    ensures ExtensionOf(stem + ['.'] + extension) == Some(extension)
  {
    var name := stem + ['.'] + extension;
    forall i | |stem| < i < |name| ensures name[i] != '.' {
      assert name[i] == extension[i - |stem| - 1];
    }
    assert name[|stem|] == '.';
    assert LastDot(name) == Some(|stem|);
    assert name[..|stem|] == stem && name[|stem| + 1..] == extension;
  }

  lemma RenamedHasExtension(name: string, extension: string)
    requires name != "" && extension != "" && '.' !in extension
    ensures StemOf(Renamed(name, extension)) == StemOf(name)
    ensures ExtensionOf(Renamed(name, extension)) == Some(extension)
  {
    Appended(StemOf(name), extension);
    assert StemOf(name) + ("." + extension) == StemOf(name) + ['.'] + extension;
  }
}

/** Unix paths as component lists: validation of rendered paths (`path_template.rs`) and relative
    symlink targets (`organize.rs`). */
module Paths {
  import opened Options

  datatype Component = RootDir | CurDir | ParentDir | Normal(name: string)

  // The text between slashes; `word` is the part being read.
  function Parts(value: string, word: string): seq<string> {
    if value == "" then [word]
    else if value[0] == '/' then [word] + Parts(value[1..], "")
    else Parts(value[1..], word + [value[0]])
  }

  function Named(part: string): Component {
    if part == ".." then ParentDir else Normal(part)
  }

  // Empty parts and dots vanish; only a leading dot shows.
  function NamedParts(parts: seq<string>): seq<Component> {
    if parts == [] then []
    else (if parts[0] == "" || parts[0] == "." then [] else [Named(parts[0])]) + NamedParts(parts[1..])
  }

  predicate IsAbsolute(value: string) {
    value != "" && value[0] == '/'
  }

  // `Path::components`
  function Components(value: string): seq<Component> {
    var parts := Parts(value, "");
    if IsAbsolute(value) then [RootDir] + NamedParts(parts)
    else if parts != [] && parts[0] == "." then [CurDir] + NamedParts(parts)
    else NamedParts(parts)
  }

  // Where a component leads from a directory given by the names below the root.
  function Step(directory: seq<string>, c: Component): seq<string> {
    match c
    case RootDir => []
    case CurDir => directory
    case ParentDir => if directory == [] then [] else directory[..|directory| - 1]
    case Normal(name) => directory + [name]
  }

  // Lexical resolution of a path from a directory.
  function Resolve(directory: seq<string>, path: seq<Component>): seq<string>
    decreases |path|
  {
    if path == [] then directory else Resolve(Step(directory, path[0]), path[1..])
  }

  function Names(path: seq<Component>): seq<string> {
    if path == [] then []
    else (if path[0].Normal? then [path[0].name] else []) + Names(path[1..])
  }

  // ----- validated paths stay below any root -----

  predicate UnsafeCharacter(c: char, isControl: char -> bool) {
    isControl(c) || c == '<' || c == '>' || c == ':' || c == '\"' || c == '|' || c == '?' || c == '*'
  }

  predicate SafeSegment(name: string, isControl: char -> bool) {
    && name != ""
    && name[|name| - 1] != ' ' && name[|name| - 1] != '.'
    && forall i :: 0 <= i < |name| ==> !UnsafeCharacter(name[i], isControl)
  }

  // `validate_relative_path`
  predicate SafePath(value: string, isControl: char -> bool) {
    && value != ""
    && !IsAbsolute(value)
    && '\0' !in value
    && ParentDir !in Components(value) && RootDir !in Components(value)
    && forall i :: 0 <= i < |Components(value)| && Components(value)[i].Normal? ==>
         SafeSegment(Components(value)[i].name, isControl)
  }

  lemma {:induction false} StaysBelow(directory: seq<string>, path: seq<Component>)
    requires ParentDir !in path && RootDir !in path
    ensures Resolve(directory, path) == directory + Names(path)
    decreases |path|
  {
    if path != [] {
      assert path[0] in path && forall c :: c in path[1..] ==> c in path;
      StaysBelow(Step(directory, path[0]), path[1..]);
      if path[0].Normal? {
        assert (directory + [path[0].name]) + Names(path[1..]) == directory + ([path[0].name] + Names(path[1..]));
      } else {
        assert [] + Names(path[1..]) == Names(path[1..]);
      }
    }
  }

  /** An accepted path joined to a root stays lexically below it, for every root. */
  lemma SafePathStaysBelow(root: seq<string>, value: string, isControl: char -> bool)
    requires SafePath(value, isControl)
    ensures root <= Resolve(root, Components(value))
    ensures Resolve(root, Components(value)) == root + Names(Components(value))
  {
    StaysBelow(root, Components(value));
  }

  // ----- relative paths -----

  // Both paths start at the root, or neither does.
  predicate SameAnchor(from: seq<Component>, to: seq<Component>) {
    (from != [] && from[0].RootDir?) == (to != [] && to[0].RootDir?)
  }

  function Common<T(==)>(a: seq<T>, b: seq<T>): (n: nat)
    ensures n <= |a| && n <= |b| && a[..n] == b[..n]
    ensures n < |a| && n < |b| ==> a[n] != b[n]
  {
    if a != [] && b != [] && a[0] == b[0] then
      var n := Common(a[1..], b[1..]);
      assert a[..n + 1] == [a[0]] + a[1..][..n] && b[..n + 1] == [b[0]] + b[1..][..n];
      n + 1
    else 0
  }

  function Ups(path: seq<Component>): seq<Component> {
    if path == [] then [] else (if path[0].Normal? then [ParentDir] else []) + Ups(path[1..])
  }

  // Up from the rest of `from`, then down the rest of `to`.
  function Relative(from: seq<Component>, to: seq<Component>): Option<seq<Component>> {
    if !SameAnchor(from, to) then None
    else
      var n := Common(from, to);
      Some(Ups(from[n..]) + to[n..])
  }

  lemma CommonIs<T>(a: seq<T>, b: seq<T>, n: nat)
    requires n <= |a| && n <= |b| && a[..n] == b[..n]
    requires n < |a| && n < |b| ==> a[n] != b[n]
    ensures Common(a, b) == n
  {
    var m := Common(a, b);
    forall k | 0 <= k < n ensures a[k] == b[k] { assert a[..n][k] == b[..n][k]; }
    forall k | 0 <= k < m ensures a[k] == b[k] { assert a[..m][k] == b[..m][k]; }
  }

  lemma UpsStep(path: seq<Component>, i: nat)
    requires i < |path|
    ensures Ups(path[..i + 1]) == Ups(path[..i]) + if path[i].Normal? then [ParentDir] else []
    decreases i
  {
    if i > 0 {
      UpsStep(path[1..], i - 1);
      assert path[..i + 1][1..] == path[1..][..i] && path[..i][1..] == path[1..][..i - 1];
    }
  }

  /** `relative_path`: skips the common components, then goes up and down. */
  method RelativePath(from: seq<Component>, to: seq<Component>) returns (r: Option<seq<Component>>)
    ensures r == Relative(from, to)
  {
    if !SameAnchor(from, to) { return None; }
    var common := 0;
    while common < |from| && common < |to| && from[common] == to[common]
      invariant common <= |from| && common <= |to| && from[..common] == to[..common]
    {
      common := common + 1;
    }
    CommonIs(from, to, common);
    var result: seq<Component> := [];
    var rest := from[common..];
    for i := 0 to |rest|
      invariant result == Ups(rest[..i])
    {
      UpsStep(rest, i);
      if rest[i].Normal? { result := result + [ParentDir]; }
    }
    assert rest[..|rest|] == rest;
    result := result + to[common..];
    return Some(result);
  }

  function Downs(names: seq<string>): seq<Component> {
    seq(|names|, i requires 0 <= i < |names| => Normal(names[i]))
  }

  // An absolute path made of the root and normal components.
  function Absolute(names: seq<string>): seq<Component> {
    [RootDir] + Downs(names)
  }

  lemma {:induction false} CommonDowns(from: seq<string>, to: seq<string>)
    ensures Common(Downs(from), Downs(to)) == Common(from, to)
  {
    if from != [] && to != [] && from[0] == to[0] {
      assert Downs(from)[1..] == Downs(from[1..]) && Downs(to)[1..] == Downs(to[1..]);
      CommonDowns(from[1..], to[1..]);
    }
  }

  lemma CommonAbsolute(from: seq<string>, to: seq<string>)
    ensures Common(Absolute(from), Absolute(to)) == Common(from, to) + 1
  {
    var a, b := Absolute(from), Absolute(to);
    assert a[0] == RootDir == b[0] && a[1..] == Downs(from) && b[1..] == Downs(to);
    CommonDowns(from, to);
  }

  lemma DropAbsolute(names: seq<string>, n: nat)
    requires n <= |names|
    ensures Absolute(names)[n + 1..] == Downs(names[n..])
  {
  }

  lemma RelativeOfAbsolute(from: seq<string>, to: seq<string>)
    ensures Relative(Absolute(from), Absolute(to)) ==
            Some(Repeat(|from| - Common(from, to)) + Downs(to[Common(from, to)..]))
  {
    var n := Common(from, to);
    CommonAbsolute(from, to);
    DropAbsolute(from, n);
    DropAbsolute(to, n);
    UpsOfDowns(from[n..]);
  }

  function Repeat(n: nat): seq<Component> {
    seq(n, _ => ParentDir)
  }

  lemma UpsOfDowns(names: seq<string>)
    ensures Ups(Downs(names)) == Repeat(|names|)
    decreases |names|
  {
    if names != [] {
      assert Downs(names)[1..] == Downs(names[1..]);
      UpsOfDowns(names[1..]);
      assert Repeat(|names|) == [ParentDir] + Repeat(|names| - 1);
    }
  }

  lemma {:induction false} ResolveUps(directory: seq<string>, n: nat, keep: nat, path: seq<Component>)
    requires |directory| == keep + n
    ensures Resolve(directory, Repeat(n) + path) == Resolve(directory[..keep], path)
    decreases n
  {
    if n == 0 {
      assert Repeat(0) + path == path && directory[..keep] == directory;
    } else {
      var steps := Repeat(n) + path;
      assert steps[0] == ParentDir && steps[1..] == Repeat(n - 1) + path;
      ResolveUps(directory[..|directory| - 1], n - 1, keep, path);
      assert directory[..|directory| - 1][..keep] == directory[..keep];
    }
  }

  lemma ResolveDowns(directory: seq<string>, names: seq<string>)
    ensures Resolve(directory, Downs(names)) == directory + names
    decreases |names|
  {
    if names != [] {
      assert Downs(names)[1..] == Downs(names[1..]);
      ResolveDowns(directory + [names[0]], names[1..]);
      assert directory + names == directory + [names[0]] + names[1..];
    } else {
      assert directory + names == directory;
    }
  }

  lemma ResolveUpsAndDowns(directory: seq<string>, n: nat, names: seq<string>)
    requires n <= |directory|
    ensures Resolve(directory, Repeat(|directory| - n) + Downs(names)) == directory[..n] + names
  {
    var up := |directory| - n;
    ResolveUps(directory, up, n, Downs(names));
    ResolveDowns(directory[..n], names);
  }

  /** Following the relative path from its directory reaches the target. */
  lemma RelativeReaches(from: seq<string>, to: seq<string>)
    ensures Relative(Absolute(from), Absolute(to)).Some?
    ensures Resolve(from, Relative(Absolute(from), Absolute(to)).value) == to
  {
    var n := Common(from, to);
    RelativeOfAbsolute(from, to);
    ResolveUpsAndDowns(from, n, to[n..]);
    assert to == to[..n] + to[n..];
  }

  // The steps between two directories: up to the common one, then down.
  function Distance(a: seq<string>, b: seq<string>): nat {
    |a| - Common(a, b) + |b| - Common(a, b)
  }

  lemma OneStep(a: seq<string>, c: Component, b: seq<string>)
    requires !c.RootDir?
    ensures Distance(a, b) <= Distance(Step(a, c), b) + 1
  {
    var n := Common(a, b);
    match c {
      case ParentDir =>
        if a != [] {
          var up := a[..|a| - 1];
          if n == |a| {
            assert up == a[..n][..n - 1] == b[..n][..n - 1];
            CommonIs(up, b, n - 1);
          } else {
            assert up[..n] == a[..n];
            CommonIs(up, b, n);
          }
        }
      case Normal(name) =>
        var down := a + [name];
        assert down[..n] == a[..n];
        if n == |a| && n < |b| && b[n] == name {
          assert down == a[..n] + [name] && b[..n + 1] == b[..n] + [b[n]];
          assert down[..n + 1] == down;
          CommonIs(down, b, n + 1);
        } else {
          CommonIs(down, b, n);
        }
      case _ =>
    }
  }

  lemma {:induction false} NoShorter(a: seq<string>, path: seq<Component>, b: seq<string>)
    requires RootDir !in path && Resolve(a, path) == b
    ensures Distance(a, b) <= |path|
    decreases |path|
  {
    if path == [] {
      CommonIs(a, b, |a|);
    } else {
      assert path[0] in path && forall c :: c in path[1..] ==> c in path;
      OneStep(a, path[0], b);
      NoShorter(Step(a, path[0]), path[1..], b);
    }
  }

  /** No relative path that reaches the target has fewer components. */
  lemma RelativeIsShortest(from: seq<string>, to: seq<string>, other: seq<Component>)
    requires RootDir !in other && Resolve(from, other) == to
    ensures |Relative(Absolute(from), Absolute(to)).value| <= |other|
  {
    RelativeOfAbsolute(from, to);
    NoShorter(from, other, to);
  }
}

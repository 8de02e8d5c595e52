/** What becomes of a file's name when it is organized, and when it is organized again. */
module OrganizeStability {
  import opened Options
  import opened Organize
  import opened PathNames
  import opened Paths
  import opened Results
  import opened Sequences
  import Decimal
  import EpisodeNames

  // ----- films and books -----

  // With an empty extension the file takes the stem of the package's name; its name then ends in a dot again, and so
  // has an empty extension, when that stem ends in a dot without being a directory.
  predicate KeepsEmptyExtension(name: string) {
    var stem := StemOf(name);
    |stem| > 1 && stem != ".." && stem[|stem| - 1] == '.'
  }

  lemma PackageNamedIs(source: Path, package: Path, name: string)
    requires Extension(source).Some? && Extension(source).value != ""
    requires FileName(package) == Some(name) && Proper(name)
    ensures PackageNamed(source, package).Ok?
    ensures FileName(PackageNamed(source, package).value) == Some(Renamed(name, Extension(source).value))
  {
    var renamed := Renamed(name, Extension(source).value);
    assert |renamed| >= 3;
    assert Single(renamed) == [Normal(renamed)];
  }

  // The three places an empty extension can lead to.
  lemma PackageStemIs(source: Path, package: Path, name: string)
    requires Extension(source) == Some("") && FileName(package) == Some(name) && Proper(name)
    ensures var stem := StemOf(name);
            PackageNamed(source, package) ==
            Ok(if stem == "." then package
               else package + [if stem == ".." then ParentDir else Normal(stem)])
  {
    var stem := StemOf(name);
    assert Renamed(name, "") == stem && stem != "";
    assert package + [] == package;
  }

  lemma DottedStem(name: string)
    requires Proper(name) && StemOf(name) == "."
    ensures ExtensionOf(name).Some? && ExtensionOf(name).value != ""
  {
    assert HasExtension(name) && LastDot(name).value == 1;
    assert name[..1] == "." && name[1] == '.' && name == name[..1] + [name[1]] + name[2..];
  }

  lemma StemExtensionIff(stem: string)
    requires stem != "" && stem != "."
    ensures ExtensionOf(stem) == Some("") <==> |stem| > 1 && stem[|stem| - 1] == '.'
  {
    if |stem| > 1 && stem[|stem| - 1] == '.' {
      assert LastDot(stem) == Some(|stem| - 1);
    } else if LastDot(stem).Some? {
      assert |stem[LastDot(stem).value + 1..]| == |stem| - LastDot(stem).value - 1;
    }
  }

  lemma EmptyExtensionIff(source: Path, package: Path, name: string)
    requires Extension(source) == Some("") && FileName(package) == Some(name) && Proper(name)
    ensures Extension(PackageNamed(source, package).value) == Some("") <==> KeepsEmptyExtension(name)
  {
    var stem := StemOf(name);
    PackageStemIs(source, package, name);
    if stem == "." { DottedStem(name); } else { StemExtensionIff(stem); }
  }

  lemma KeepsThePackageNameIff(source: Path, package: Path, name: string)
    requires Extension(source).Some? && FileName(package) == Some(name) && Proper(name)
    ensures FileStem(PackageNamed(source, package).value) == Some(name) <==> !HasExtension(name)
  {
    if Extension(source).value != "" {
      PackageNamedIs(source, package, name);
      RenamedHasExtension(name, Extension(source).value);
    } else {
      PackageStemIs(source, package, name);
      assert HasExtension(name) ==> |StemOf(name)| < |name|;
    }
  }

  lemma KeepsTheExtensionIff(source: Path, package: Path, name: string)
    requires Extension(source).Some? && FileName(package) == Some(name) && Proper(name)
    ensures Extension(PackageNamed(source, package).value) == Extension(source) <==>
            Extension(source).value != "" || KeepsEmptyExtension(name)
  {
    if Extension(source).value != "" {
      PackageNamedIs(source, package, name);
      RenamedHasExtension(name, Extension(source).value);
    } else {
      EmptyExtensionIff(source, package, name);
    }
  }

  lemma FilmTargetIs(source: Path, request: Request)
    requires request.kind.Movie? || request.kind.Book?
    requires Extension(source).Some?
    ensures MediaTarget(source, request) == PackageNamed(source, request.package)
  {
  }

  /** A film or a book keeps its package's name exactly when that name has no extension of its own: what follows the
      last dot of the name is replaced. It keeps its extension unless that is empty. */
  lemma MediaKeepsThePackageNameIff(source: Path, request: Request, name: string)
    requires request.kind.Movie? || request.kind.Book?
    requires Extension(source).Some? && FileName(request.package) == Some(name) && Proper(name)
    ensures MediaTarget(source, request).Ok?
    ensures FileStem(MediaTarget(source, request).value) == Some(name) <==> !HasExtension(name)
    ensures Extension(MediaTarget(source, request).value) == Extension(source) <==>
            Extension(source).value != "" || KeepsEmptyExtension(name)
  {
    FilmTargetIs(source, request);
    KeepsThePackageNameIff(source, request.package, name);
    KeepsTheExtensionIff(source, request.package, name);
  }

  lemma PackageNamedExample(source: Path, package: Path, name: string, renamed: string)
    requires Extension(source).Some? && package == [Normal(name)]
    requires renamed == Renamed(name, Extension(source).value) && Proper(renamed)
    ensures PackageNamed(source, package) == Ok([Normal(name), Normal(renamed)])
  {
    assert FileName(package) == Some(name) && Single(renamed) == [Normal(renamed)];
    JoinNames(package, [Normal(renamed)]);
    assert package + [Normal(renamed)] == [Normal(name), Normal(renamed)];
  }

  /** A name that loses its end: the package "D. S" gives a film the name "D.mkv". */
  lemma PackageNameIsCut(request: Request)
    requires request.kind.Movie? && request.package == [Normal("D. S")]
    ensures MediaTarget([RootDir, Normal("x.mkv")], request) == Ok([Normal("D. S"), Normal("D.mkv")])
  {
    Appended("x", "mkv");
    Appended("D", " S");
    assert "x.mkv" == "x" + ['.'] + "mkv" && "D. S" == "D" + ['.'] + " S";
    assert Renamed("D. S", "mkv") == "D.mkv";
    var source := [RootDir, Normal("x.mkv")];
    assert FileName(source) == Some("x.mkv") && Extension(source) == Some("mkv");
    FilmTargetIs(source, request);
    PackageNamedExample(source, request.package, "D. S", "D.mkv");
  }

  // Where a placed file lies afterwards.
  function Location(request: Request, target: Path): Path { Join(request.destination, target) }

  lemma LocationEndsAlike(destination: Path, target: Path)
    requires target != [] && target != [CurDir]
    ensures var location := Join(destination, target);
            location != [] && location[|location| - 1] == target[|target| - 1]
  {
  }

  // Names below a package lie below the package's own place.
  lemma LocationOfNames(destination: Path, package: Path, names: Path)
    requires names != [] && names[0].Normal?
    ensures Join(destination, Join(package, names)) == Join(destination, package) + names
  {
    JoinNames(package, names);
    if package != [] && package[0].CurDir? {
      assert (package + names)[1..] == package[1..] + names;
      if destination != [] { Associative(destination, package[1..], names); }
    } else if destination != [] && package != [] && !package[0].RootDir? {
      Associative(destination, package, names);
    }
  }

  // A target that takes the extension along comes out the same again.
  lemma PackageNamedIsStableIff(source: Path, package: Path, name: string)
    requires Extension(source).Some? && FileName(package) == Some(name) && Proper(name)
    ensures PackageNamed(source, package).Ok?
    ensures var target := PackageNamed(source, package).value;
            Extension(target).Some? && PackageNamed(target, package) == Ok(target) <==>
            Extension(source).value != "" || KeepsEmptyExtension(name)
  {
    var target := PackageNamed(source, package).value;
    if Extension(source).value != "" {
      PackageNamedIs(source, package, name);
      RenamedHasExtension(name, Extension(source).value);
    } else {
      PackageStemIs(source, package, name);
      EmptyExtensionIff(source, package, name);
      if Extension(target).Some? && Extension(target).value != "" {
        PackageNamedIs(target, package, name);
        assert |Renamed(name, Extension(target).value)| > |StemOf(name)|;
      }
    }
  }

  // ----- episodes, and files under their own names -----

  // Episodes: the season folder confirms the identity.
  lemma EpisodeBelow(source: Path, directory: Path, text: EpisodeNames.Text)
    requires Episode(source, text).Some? && forall c :: Decimal.IsDigit(c) ==> !text.isWhitespace(c)
    ensures var folder := Normal(EpisodeNames.SeasonFolder(Episode(source, text).value.0));
            Episode(directory + [folder, source[|source| - 1]], text) == Episode(source, text)
  {
    var folder := Normal(EpisodeNames.SeasonFolder(Episode(source, text).value.0));
    var path := directory + [folder, source[|source| - 1]];
    assert path[..|path| - 1] == directory + [folder];
    EpisodeNames.IdentityInItsSeason(FileStem(source).value, FileName(source[..|source| - 1]), text);
  }

  // Television, anime and music look at the last name and at the episode only.
  lemma SameNameSameTarget(a: Path, b: Path, request: Request)
    requires !request.kind.Movie? && !request.kind.Book? && MediaTarget(a, request).Ok?
    requires b != [] && a[|a| - 1] == b[|b| - 1]
    requires request.kind.Television? ==> Episode(a, request.text) == Episode(b, request.text)
    ensures MediaTarget(b, request) == MediaTarget(a, request)
  {
  }

  // Files keep their name below the package, on a shelf or not.
  lemma Shelved(source: Path, request: Request, names: Path)
    requires names != [] && names[0].Normal? && source != [] && names[|names| - 1] == source[|source| - 1]
    requires MediaTarget(source, request) == Ok(Join(request.package, names))
    ensures var location := Location(request, MediaTarget(source, request).value);
            location == Join(request.destination, request.package) + names &&
            location[|location| - 1] == source[|source| - 1]
  {
    LocationOfNames(request.destination, request.package, names);
  }

  lemma ShelvedTargetsAreStable(source: Path, request: Request, shelf: Path)
    requires request.kind.Anime? || request.kind.Music?
    requires shelf == if request.kind.Anime? then [Normal("Cour " + EpisodeNames.Padded(request.kind.cour))] else []
    requires MediaTarget(source, request).Ok?
    ensures var target := MediaTarget(source, request).value;
            MediaTarget(Location(request, target), request) == Ok(target)
  {
    var name := source[|source| - 1];
    assert [] + [name] == [name];
    Shelved(source, request, shelf + [name]);
    SameNameSameTarget(source, Location(request, MediaTarget(source, request).value), request);
  }

  lemma EpisodeTargetIs(source: Path, request: Request, shelf: Component)
    requires request.kind.Television? && MediaTarget(source, request).Ok? && Episode(source, request.text).Some?
    requires shelf == Normal(EpisodeNames.SeasonFolder(Episode(source, request.text).value.0))
    ensures MediaTarget(source, request) == Ok(Join(request.package, [shelf, source[|source| - 1]]))
  {
    assert [shelf] + [source[|source| - 1]] == [shelf, source[|source| - 1]];
  }

  lemma EpisodeTargetsAreStable(source: Path, request: Request)
    requires request.kind.Television? && MediaTarget(source, request).Ok? && Episode(source, request.text).Some?
    requires forall c :: Decimal.IsDigit(c) ==> !request.text.isWhitespace(c)
    ensures var target := MediaTarget(source, request).value;
            MediaTarget(Location(request, target), request) == Ok(target)
  {
    var shelf := Normal(EpisodeNames.SeasonFolder(Episode(source, request.text).value.0));
    EpisodeTargetIs(source, request, shelf);
    Shelved(source, request, [shelf, source[|source| - 1]]);
    EpisodeBelow(source, Join(request.destination, request.package), request.text);
    SameNameSameTarget(source, Location(request, MediaTarget(source, request).value), request);
  }

  lemma UnnumberedTargetIs(source: Path, request: Request)
    requires request.kind.Television? && MediaTarget(source, request).Ok? && Episode(source, request.text).None?
    ensures MediaTarget(source, request) == Ok(Join(request.package, [source[|source| - 1]]))
    ensures Location(request, MediaTarget(source, request).value) ==
            Join(request.destination, request.package) + [source[|source| - 1]]
  {
    Shelved(source, request, [source[|source| - 1]]);
  }

  lemma UnnumberedTargetsAreStableIff(source: Path, request: Request)
    requires request.kind.Television? && MediaTarget(source, request).Ok? && Episode(source, request.text).None?
    ensures var target := MediaTarget(source, request).value;
            MediaTarget(Location(request, target), request) == Ok(target) <==>
            Episode(Location(request, target), request.text).None?
  {
    var name := source[|source| - 1];
    UnnumberedTargetIs(source, request);
    var target := MediaTarget(source, request).value;
    var location := Location(request, target);
    if Episode(location, request.text).Some? {
      var shelf := Normal(EpisodeNames.SeasonFolder(Episode(location, request.text).value.0));
      assert Extension(location) == Extension(source);
      EpisodeTargetIs(location, request, shelf);
      JoinNames(request.package, [name]);
      JoinNames(request.package, [shelf, name]);
    }
  }

  lemma LocationHasTheExtension(destination: Path, target: Path)
    requires target != [] && target != [CurDir]
    ensures Extension(Join(destination, target)) == Extension(target)
  {
    LocationEndsAlike(destination, target);
  }

  lemma FilmsHaveTargets(source: Path, request: Request)
    requires request.kind.Movie? || request.kind.Book?
    requires MediaTarget(source, request).Ok?
    ensures Extension(source).Some? && FileName(request.package).Some?
    ensures MediaTarget(source, request).value != [] && MediaTarget(source, request).value != [CurDir]
  {
    FilmTargetIs(source, request);
    var package, target := request.package, MediaTarget(source, request).value;
    var n := |package| - 1;
    assert n < |target| && target[n] == package[n];
  }

  // What a film is renamed to depends on its extension only.
  lemma SameExtensionSameTarget(source: Path, other: Path, request: Request)
    requires request.kind.Movie? || request.kind.Book?
    requires Extension(source) == Extension(other)
    ensures Extension(source).Some? ==> MediaTarget(source, request) == PackageNamed(other, request.package)
    ensures Extension(source).None? ==> MediaTarget(source, request).Err?
  {
    if Extension(source).Some? { FilmTargetIs(source, request); }
  }

  lemma FilmTargetsAreStableIff(source: Path, request: Request)
    requires request.kind.Movie? || request.kind.Book?
    requires MediaTarget(source, request).Ok? && Proper(FileName(request.package).value)
    ensures var target := MediaTarget(source, request).value;
            MediaTarget(Location(request, target), request) == Ok(target) <==>
            Extension(source).value != "" || KeepsEmptyExtension(FileName(request.package).value)
  {
    var target := MediaTarget(source, request).value;
    FilmsHaveTargets(source, request);
    FilmTargetIs(source, request);
    PackageNamedIsStableIff(source, request.package, FileName(request.package).value);
    LocationHasTheExtension(request.destination, target);
    SameExtensionSameTarget(Location(request, target), target, request);
  }

  // What can be said of a file, its package and the destination beforehand.
  predicate StaysPut(source: Path, request: Request)
    requires MediaTarget(source, request).Ok?
  {
    match request.kind
    case Movie => Extension(source).value != "" || KeepsEmptyExtension(FileName(request.package).value)
    case Book => Extension(source).value != "" || KeepsEmptyExtension(FileName(request.package).value)
    case Television =>
      || Episode(source, request.text).Some?
      || Episode(Join(request.destination, request.package) + [source[|source| - 1]], request.text).None?
    case Anime(_) => true
    case Music => true
  }

  /** Organizing a file from where it was placed leaves it there, for all but two families of files: films and books
      whose extension is empty, and television files without an episode whose package directory is named like a
      season. */
  lemma MediaTargetsAreStableIff(source: Path, request: Request)
    requires MediaTarget(source, request).Ok?
    requires FileName(request.package).Some? ==> Proper(FileName(request.package).value)
    requires forall c :: Decimal.IsDigit(c) ==> !request.text.isWhitespace(c)
    ensures var target := MediaTarget(source, request).value;
            MediaTarget(Location(request, target), request) == Ok(target) <==> StaysPut(source, request)
  {
    if request.kind.Movie? || request.kind.Book? {
      FilmTargetsAreStableIff(source, request);
    } else if request.kind.Anime? {
      ShelvedTargetsAreStable(source, request, [Normal("Cour " + EpisodeNames.Padded(request.kind.cour))]);
    } else if request.kind.Music? {
      ShelvedTargetsAreStable(source, request, []);
    } else if Episode(source, request.text).Some? {
      EpisodeTargetsAreStable(source, request);
    } else {
      UnnumberedTargetIs(source, request);
      UnnumberedTargetsAreStableIff(source, request);
    }
  }

  // ----- files that move -----

  /** A film that moves: without an extension to keep, it cannot be organized again. */
  lemma EmptyExtensionIsLost(request: Request)
    requires request.kind.Movie? && request.package == [Normal("A")]
    ensures MediaTarget([RootDir, Normal("x.")], request) == Ok([Normal("A"), Normal("A")])
    ensures MediaTarget(Location(request, [Normal("A"), Normal("A")]), request).Err?
  {
    Appended("x", "");
    assert "x." == "x" + ['.'] + "";
    assert LastDot("A").None?;
    assert Renamed("A", "") == "A";
    var source := [RootDir, Normal("x.")];
    assert FileName(source) == Some("x.") && Extension(source) == Some("");
    FilmTargetIs(source, request);
    PackageNamedExample(source, request.package, "A", "A");
    LocationEndsAlike(request.destination, [Normal("A"), Normal("A")]);
  }

  const NUMBERED := Normal("03.mkv")
  const SEASON := Normal("Season 01")

  lemma NumberedName(directory: Path)
    ensures FileStem(directory + [NUMBERED]) == Some("03") && Extension(directory + [NUMBERED]).Some?
  {
    Appended("03", "mkv");
    assert "03.mkv" == "03" + ['.'] + "mkv";
  }

  // The file "03.mkv" is an episode inside a season's folder, and not at the root.
  lemma NumberedFile(text: EpisodeNames.Text, directory: Path)
    requires forall c :: Decimal.IsDigit(c) ==> !text.isWhitespace(c)
    ensures Episode([RootDir] + [NUMBERED], text) == None
    ensures Episode(directory + [SEASON] + [NUMBERED], text) == Some((1, 3))
  {
    NumberedName([RootDir]);
    NumberedName(directory + [SEASON]);
    EpisodeNames.NumberedInASeason(text);
    assert ([RootDir] + [NUMBERED])[..1] == [RootDir];
    var path := directory + [SEASON] + [NUMBERED];
    assert path[..|path| - 1] == directory + [SEASON];
  }

  lemma UnsortedStays(request: Request)
    requires request.kind.Television? && forall c :: Decimal.IsDigit(c) ==> !request.text.isWhitespace(c)
    ensures MediaTarget([RootDir, NUMBERED], request) == Ok(Join(request.package, [NUMBERED]))
  {
    assert [RootDir] + [NUMBERED] == [RootDir, NUMBERED];
    NumberedName([RootDir]);
    NumberedFile(request.text, []);
    UnnumberedTargetIs([RootDir, NUMBERED], request);
  }

  lemma SortedMoves(request: Request, directory: Path)
    requires request.kind.Television? && forall c :: Decimal.IsDigit(c) ==> !request.text.isWhitespace(c)
    ensures MediaTarget(directory + [SEASON, NUMBERED], request) == Ok(Join(request.package, [SEASON, NUMBERED]))
  {
    assert directory + [SEASON] + [NUMBERED] == directory + [SEASON, NUMBERED];
    NumberedName(directory + [SEASON]);
    NumberedFile(request.text, directory);
    EpisodeNames.FolderOfSeasonOne();
    EpisodeTargetIs(directory + [SEASON, NUMBERED], request, SEASON);
  }

  lemma JoinBelowOne(c: Component, names: Path)
    requires names != [] && names[0].Normal?
    ensures Join([c], names) == [c] + names
  {
    JoinNames([c], names);
  }

  /** An episode that moves: in a package named like a season the file gains an identity, and a season folder. */
  lemma SeasonPackageGivesAnIdentity(request: Request)
    requires request.kind.Television? && request.package == [SEASON]
    requires forall c :: Decimal.IsDigit(c) ==> !request.text.isWhitespace(c)
    ensures MediaTarget([RootDir, NUMBERED], request) == Ok([SEASON] + [NUMBERED])
    ensures MediaTarget(Location(request, [SEASON] + [NUMBERED]), request) == Ok([SEASON] + [SEASON, NUMBERED])
  {
    UnsortedStays(request);
    JoinBelowOne(SEASON, [NUMBERED]);
    LocationOfNames(request.destination, request.package, [NUMBERED]);
    assert Join(request.destination, [SEASON]) == request.destination + [SEASON];
    Associative(request.destination, [SEASON], [NUMBERED]);
    assert [SEASON] + [NUMBERED] == [SEASON, NUMBERED];
    SortedMoves(request, request.destination);
    JoinBelowOne(SEASON, [SEASON, NUMBERED]);
  }

  /** The same without a package of its own: the destination is named like a season. */
  lemma SeasonDestinationGivesAnIdentity(request: Request)
    requires request.kind.Television? && request.package == [CurDir] && request.destination == [RootDir, SEASON]
    requires forall c :: Decimal.IsDigit(c) ==> !request.text.isWhitespace(c)
    ensures MediaTarget([RootDir, NUMBERED], request) == Ok([CurDir] + [NUMBERED])
    ensures MediaTarget(Location(request, [CurDir] + [NUMBERED]), request) == Ok([CurDir] + [SEASON, NUMBERED])
  {
    UnsortedStays(request);
    JoinBelowOne(CurDir, [NUMBERED]);
    assert ([CurDir] + [NUMBERED])[1..] == [NUMBERED];
    assert Location(request, [CurDir] + [NUMBERED]) == [RootDir] + [SEASON, NUMBERED];
    SortedMoves(request, [RootDir]);
    JoinBelowOne(CurDir, [SEASON, NUMBERED]);
  }
}

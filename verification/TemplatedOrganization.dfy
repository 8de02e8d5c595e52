/** Organizing with a package path that is rendered from a template (`organize`, `package_path`). */
module TemplatedOrganization {
  import opened Organize
  import opened OrganizeStability
  import opened PathNames
  import opened Paths
  import opened Results
  import Decimal
  import Media
  import PathTemplates

  datatype TemplatedError = Template(error: PathTemplates.TemplateError) | Organization(reason: OrganizationError)

  type TemplatedResult<+T> = Results.Result<T, TemplatedError>

  // The template is parsed, rendered with what the metadata says, and validated.
  function RenderedPackage(source: string, context: PathTemplates.Context, unicode: Media.Unicode)
    : PathTemplates.TemplateResult<string>
  {
    var expressions := PathTemplates.ParseSource(source, unicode);
    if expressions.Err? then Err(expressions.error)
    else PathTemplates.RenderPath(source, expressions.value, context, unicode)
  }

  // The request with its package in place.
  function Filled(request: Request, package: string): Request {
    request.(package := Components(package))
  }

  /** Renders the package path, then plans. */
  method OrganizeTemplated(source: string, context: PathTemplates.Context, unicode: Media.Unicode, request: Request)
    returns (r: TemplatedResult<seq<Operation>>)
    ensures r == match RenderedPackage(source, context, unicode)
                 case Err(error) => Err(Template(error))
                 case Ok(package) =>
                   var planned := Organized(Filled(request, package));
                   if planned.Ok? then Ok(planned.value) else Err(Organization(planned.error))
  {
    var expressions := PathTemplates.ParseExpressions(source, unicode);
    if expressions.Err? { return Err(Template(expressions.error)); }
    var rendered := PathTemplates.RenderSource(source, expressions.value, context, unicode);
    if rendered.Err? { return Err(Template(rendered.error)); }
    if !SafePath(rendered.value, unicode.isControl) { return Err(Template(PathTemplates.UnsafePath)); }
    var planned := Organize.Organize(Filled(request, rendered.value));
    if planned.Err? { return Err(Organization(planned.error)); }
    return Ok(planned.value);
  }

  // Names, and at most one dot in front.
  ghost predicate Plain(path: Path) {
    && path != []
    && (forall i :: 0 < i < |path| ==> path[i].Normal?)
    && (path[0].Normal? || path[0].CurDir?)
    && (forall c <- path :: c.Normal? ==> Proper(c.name))
  }

  lemma {:induction false} NamedPartsAreProper(parts: seq<string>)
    ensures forall c <- NamedParts(parts) :: (c.Normal? && Proper(c.name)) || c == ParentDir
  {
    if parts != [] { NamedPartsAreProper(parts[1..]); }
  }

  lemma {:induction false} FirstPart(value: string, word: string)
    ensures Parts(value, word) != [] && |Parts(value, word)[0]| >= |word|
    ensures word != "" || (value != "" && value[0] != '/') ==> Parts(value, word)[0] != ""
    decreases |value|
  {
    if value != "" && value[0] != '/' { FirstPart(value[1..], word + [value[0]]); }
  }

  lemma RenderedPackagesArePlain(source: string, context: PathTemplates.Context, unicode: Media.Unicode)
    requires RenderedPackage(source, context, unicode).Ok?
    ensures Plain(Components(RenderedPackage(source, context, unicode).value))
  {
    var value := RenderedPackage(source, context, unicode).value;
    var path, parts := Components(value), Parts(value, "");
    FirstPart(value, "");
    NamedPartsAreProper(parts);
    assert ParentDir !in path;
    forall i | 0 < i < |path| ensures path[i].Normal? {
      assert path[i] == if parts[0] == "." then NamedParts(parts)[i - 1] else NamedParts(parts)[i];
    }
  }

  /** Whatever the template and the metadata, a file that is organized stays where it was placed exactly under the
      condition on the file, the rendered package and the destination. */
  lemma PlacedFilesStayIff(template: string, context: PathTemplates.Context, unicode: Media.Unicode, source: Path,
                           request: Request)
    requires RenderedPackage(template, context, unicode).Ok?
    requires request == Filled(request, RenderedPackage(template, context, unicode).value)
    requires MediaTarget(source, request).Ok? && forall c :: Decimal.IsDigit(c) ==> !request.text.isWhitespace(c)
    ensures var target := MediaTarget(source, request).value;
            MediaTarget(Location(request, target), request) == Ok(target) <==> StaysPut(source, request)
  {
    RenderedPackagesArePlain(template, context, unicode);
    MediaTargetsAreStableIff(source, request);
  }
}

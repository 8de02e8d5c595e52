/** Path templates: parsing, rendering and path validation (`path_template.rs`), on Unix paths. */
module PathTemplates {
  import opened Media
  import opened Options
  import opened Results
  import opened Texts
  import Paths

  datatype TemplateError =
    | InvalidSyntax
    | UnsupportedVariable(variable: string)
    | UnsupportedFilter(filter: string)
    | MissingVariable(variable: string)
    | UnsafePath

  type TemplateResult<+T> = Results.Result<T, TemplateError>

  datatype Expression = Expression(variable: string, filters: seq<string>)

  type Context = map<string, string>

  const VARIABLES: set<string> := {"title", "year", "edition", "id"}
  const FILTERS: set<string> := {"sanitize", "lower", "upper"}

  // ----- text helpers -----

  // The first position at which c stands twice in a row (`find` of a doubled delimiter).
  function FindPair(s: string, c: char): (r: Option<nat>)
    ensures r.Some? ==> r.value + 2 <= |s| && s[r.value] == c && s[r.value + 1] == c
  {
    FindPairFrom(s, c, 0)
  }

  function FindPairFrom(s: string, c: char, i: nat): (r: Option<nat>)
    requires i <= |s|
    ensures r.Some? ==> i <= r.value && r.value + 2 <= |s| && s[r.value] == c && s[r.value + 1] == c
    decreases |s| - i
  {
    if i + 1 >= |s| then None
    else if s[i] == c && s[i + 1] == c then Some(i)
    else FindPairFrom(s, c, i + 1)
  }

  lemma {:induction false} NoPairBefore(s: string, c: char, i: nat, k: nat)
    requires i <= k < |s| - 1 && (FindPairFrom(s, c, i).Some? ==> k < FindPairFrom(s, c, i).value)
    ensures !(s[k] == c && s[k + 1] == c)
    decreases |s| - i
  {
    if i < k { NoPairBefore(s, c, i + 1, k); }
  }

  function Trim(value: string, unicode: Unicode): string {
    TrimEnd(TrimStart(value, unicode.isWhitespace), unicode.isWhitespace)
  }

  // `str::split` on one character; `word` is the part being read.
  function SplitOn(value: string, c: char, word: string): (parts: seq<string>)
    ensures parts != []
  {
    if value == "" then [word]
    else if value[0] == c then [word] + SplitOn(value[1..], c, "")
    else SplitOn(value[1..], c, word + [value[0]])
  }

  function TrimAll(parts: seq<string>, unicode: Unicode): seq<string> {
    seq(|parts|, i requires 0 <= i < |parts| => Trim(parts[i], unicode))
  }

  function FirstUnsupported(filters: seq<string>): Option<string> {
    if filters == [] then None
    else if filters[0] !in FILTERS then Some(filters[0])
    else FirstUnsupported(filters[1..])
  }

  // ----- parsing -----

  // The text between one pair of delimiters.
  function ParseRaw(raw: string, unicode: Unicode): TemplateResult<Expression> {
    var parts := TrimAll(SplitOn(Trim(raw, unicode), '|', ""), unicode);
    if parts[0] !in VARIABLES then Err(UnsupportedVariable(parts[0]))
    else
      match FirstUnsupported(parts[1..])
      case Some(filter) => Err(UnsupportedFilter(filter))
      case None => Ok(Expression(parts[0], parts[1..]))
  }

  // The literal before an expression, and the text between its delimiters.
  datatype Piece = Piece(literal: string, raw: string)

  datatype Cut = Tail | Unclosed | Cut(piece: Piece, rest: string)

  // What the next pair of delimiters cuts off.
  function CutNext(rest: string): (cut: Cut)
    ensures cut.Cut? ==> |cut.rest| < |rest|
    ensures cut.Cut? ==> rest == cut.piece.literal + "{{" + cut.piece.raw + "}}" + cut.rest
  {
    match FindPair(rest, '{')
    case None => Tail
    case Some(start) =>
      var after := rest[start + 2..];
      match FindPair(after, '}')
      case None => Unclosed
      case Some(end) =>
        Rejoin(rest, start, end);
        Cut(Piece(rest[..start], after[..end]), after[end + 2..])
  }

  lemma Rejoin(rest: string, start: nat, end: nat)
    requires start + 2 <= |rest| && rest[start] == '{' && rest[start + 1] == '{'
    requires end + 2 <= |rest[start + 2..]| && rest[start + 2..][end] == '}' && rest[start + 2..][end + 1] == '}'
    ensures rest == rest[..start] + "{{" + rest[start + 2..][..end] + "}}" + rest[start + 2..][end + 2..]
  {
  }

  function Parse(rest: string, unicode: Unicode): TemplateResult<seq<Expression>>
    decreases |rest|
  {
    match CutNext(rest)
    case Tail => if FindPair(rest, '}').Some? then Err(InvalidSyntax) else Ok([])
    case Unclosed => Err(InvalidSyntax)
    case Cut(piece, others) =>
      var expression := ParseRaw(piece.raw, unicode);
      if expression.Err? then Err(expression.error)
      else Prepend([expression.value], Parse(others, unicode))
  }

  function Prepend(parsed: seq<Expression>, others: TemplateResult<seq<Expression>>): TemplateResult<seq<Expression>> {
    if others.Err? then others else Ok(parsed + others.value)
  }

  lemma PrependTwice(a: seq<Expression>, b: seq<Expression>, others: TemplateResult<seq<Expression>>)
    ensures Prepend(a + b, others) == Prepend(a, Prepend(b, others))
  {
    if others.Ok? { assert (a + b) + others.value == a + (b + others.value); }
  }

  function ParseSource(source: string, unicode: Unicode): TemplateResult<seq<Expression>> {
    if '\0' in source then Err(UnsafePath) else Parse(source, unicode)
  }

  /** `parse_expressions`: one expression after another, then a check for a stray closing delimiter. */
  method ParseExpressions(source: string, unicode: Unicode) returns (r: TemplateResult<seq<Expression>>)
    ensures r == ParseSource(source, unicode)
  {
    if '\0' in source { return Err(UnsafePath); }
    var expressions: seq<Expression> := [];
    var rest := source;
    PrependNothing(Parse(source, unicode));
    while FindPair(rest, '{').Some?
      invariant Parse(source, unicode) == Prepend(expressions, Parse(rest, unicode))
      decreases |rest|
    {
      var start := FindPair(rest, '{').value;
      var after := rest[start + 2..];
      var end := FindPair(after, '}');
      if end.None? { return Err(InvalidSyntax); }
      var expression := ParseRaw(after[..end.value], unicode);
      if expression.Err? { return Err(expression.error); }
      PrependTwice(expressions, [expression.value], Parse(after[end.value + 2..], unicode));
      expressions := expressions + [expression.value];
      rest := after[end.value + 2..];
    }
    if FindPair(rest, '}').Some? { return Err(InvalidSyntax); }
    assert expressions + [] == expressions;
    return Ok(expressions);
  }

  lemma PrependNothing(others: TemplateResult<seq<Expression>>)
    ensures Prepend([], others) == others
  {
    if others.Ok? { assert [] + others.value == others.value; }
  }

  // ----- rendering -----

  predicate Forbidden(c: char) {
    c == '/' || c == '\\' || c == '<' || c == '>' || c == ':' || c == '\"' || c == '|' || c == '?' || c == '*'
  }

  function Blanked(value: string, unicode: Unicode): string {
    seq(|value|, i requires 0 <= i < |value| => if unicode.isControl(value[i]) || Forbidden(value[i]) then ' '
        else value[i])
  }

  // `sanitize_segment`: blanks out what a file name cannot hold, then collapses whitespace.
  function Sanitize(value: string, unicode: Unicode): string {
    Join(Words(Blanked(value, unicode), "", unicode.isWhitespace), " ")
  }

  function ApplyFilter(filter: string, value: string, unicode: Unicode): TemplateResult<string> {
    if filter == "sanitize" then Ok(Sanitize(value, unicode))
    else if filter == "lower" then Ok(unicode.lower(value))
    else if filter == "upper" then Ok(unicode.upper(value))
    else Err(UnsupportedFilter(filter))
  }

  function ApplyFilters(filters: seq<string>, value: string, unicode: Unicode): TemplateResult<string>
    decreases |filters|
  {
    if filters == [] then Ok(value)
    else
      var filtered := ApplyFilter(filters[0], value, unicode);
      if filtered.Err? then filtered else ApplyFilters(filters[1..], filtered.value, unicode)
  }

  function ValueOf(e: Expression, context: Context, unicode: Unicode): TemplateResult<string> {
    if e.variable !in context then Err(MissingVariable(e.variable))
    else ApplyFilters(e.filters, context[e.variable], unicode)
  }

  function Render(rest: string, expressions: seq<Expression>, context: Context, unicode: Unicode)
    : TemplateResult<string>
    decreases |expressions|
  {
    if expressions == [] then Ok(rest)
    else
      match CutNext(rest)
      case Tail => Err(InvalidSyntax)
      case Unclosed => Err(InvalidSyntax)
      case Cut(piece, others) =>
        var value := ValueOf(expressions[0], context, unicode);
        if value.Err? then value
        else Append(piece.literal + value.value, Render(others, expressions[1..], context, unicode))
  }

  function Append(output: string, others: TemplateResult<string>): TemplateResult<string> {
    if others.Err? then others else Ok(output + others.value)
  }

  lemma AppendTwice(a: string, b: string, others: TemplateResult<string>)
    ensures Append(a + b, others) == Append(a, Append(b, others))
  {
    if others.Ok? { assert (a + b) + others.value == a + (b + others.value); }
  }

  /** The filter loop of `render_source`. */
  method Filtered(e: Expression, context: Context, unicode: Unicode) returns (r: TemplateResult<string>)
    ensures r == ValueOf(e, context, unicode)
  {
    if e.variable !in context { return Err(MissingVariable(e.variable)); }
    var value := context[e.variable];
    for i := 0 to |e.filters|
      invariant ApplyFilters(e.filters, context[e.variable], unicode) == ApplyFilters(e.filters[i..], value, unicode)
    {
      assert e.filters[i..][1..] == e.filters[i + 1..];
      var filtered := ApplyFilter(e.filters[i], value, unicode);
      if filtered.Err? { return filtered; }
      value := filtered.value;
    }
    return Ok(value);
  }

  lemma AppendNothing(others: TemplateResult<string>)
    ensures Append("", others) == others
  {
    if others.Ok? { assert "" + others.value == others.value; }
  }

  // What one expression copies and inserts.
  function Inserted(rest: string, e: Expression, context: Context, unicode: Unicode): TemplateResult<string> {
    match CutNext(rest)
    case Cut(piece, _) =>
      var value := ValueOf(e, context, unicode);
      if value.Err? then value else Ok(piece.literal + value.value)
    case _ => Err(InvalidSyntax)
  }

  // The body of the expression loop.
  method InsertNext(rest: string, e: Expression, context: Context, unicode: Unicode)
    returns (r: TemplateResult<string>, remaining: string)
    ensures r == Inserted(rest, e, context, unicode)
    ensures r.Ok? ==> CutNext(rest).Cut? && remaining == CutNext(rest).rest
  {
    remaining := rest;
    var start := FindPair(rest, '{');
    if start.None? { return Err(InvalidSyntax), rest; }
    var after := rest[start.value + 2..];
    var end := FindPair(after, '}');
    if end.None? { return Err(InvalidSyntax), rest; }
    var value := Filtered(e, context, unicode);
    if value.Err? { return value, rest; }
    return Ok(rest[..start.value] + value.value), after[end.value + 2..];
  }

  lemma RenderStep(rest: string, expressions: seq<Expression>, context: Context, unicode: Unicode)
    requires expressions != []
    ensures var inserted := Inserted(rest, expressions[0], context, unicode);
            Render(rest, expressions, context, unicode) ==
            if inserted.Err? then inserted
            else Append(inserted.value, Render(CutNext(rest).rest, expressions[1..], context, unicode))
  {
  }

  /** `render_source`: copies literals and inserts filtered values, from left to right. */
  method RenderSource(source: string, expressions: seq<Expression>, context: Context, unicode: Unicode)
    returns (r: TemplateResult<string>)
    ensures r == Render(source, expressions, context, unicode)
  {
    var output, rest := "", source;
    AppendNothing(Render(source, expressions, context, unicode));
    assert expressions[0..] == expressions;
    for i := 0 to |expressions|
      invariant Render(source, expressions, context, unicode) ==
                Append(output, Render(rest, expressions[i..], context, unicode))
    {
      assert expressions[i..][1..] == expressions[i + 1..];
      RenderStep(rest, expressions[i..], context, unicode);
      var inserted, remaining := InsertNext(rest, expressions[i], context, unicode);
      if inserted.Err? { return inserted; }
      AppendTwice(output, inserted.value, Render(remaining, expressions[i + 1..], context, unicode));
      output, rest := output + inserted.value, remaining;
    }
    return Ok(output + rest);
  }

  // ----- parsing and rendering stay in step -----

  datatype Segments = Segments(pieces: seq<Piece>, tail: string)

  function Segment(rest: string): Segments
    decreases |rest|
  {
    match CutNext(rest)
    case Cut(piece, others) => Segments([piece] + Segment(others).pieces, Segment(others).tail)
    case _ => Segments([], rest)
  }

  function Reassemble(pieces: seq<Piece>, tail: string): string {
    if pieces == [] then tail
    else pieces[0].literal + "{{" + pieces[0].raw + "}}" + Reassemble(pieces[1..], tail)
  }

  // The literals with one value between each and the next.
  function Interleave(pieces: seq<Piece>, values: seq<string>, tail: string): string
    requires |pieces| == |values|
  {
    if pieces == [] then tail
    else pieces[0].literal + values[0] + Interleave(pieces[1..], values[1..], tail)
  }

  /** The pieces are the source: no character is lost or added. */
  lemma {:induction false} SegmentsReassemble(rest: string)
    ensures Reassemble(Segment(rest).pieces, Segment(rest).tail) == rest
    decreases |rest|
  {
    var cut := CutNext(rest);
    if cut.Cut? {
      SegmentsReassemble(cut.rest);
      assert ([cut.piece] + Segment(cut.rest).pieces)[1..] == Segment(cut.rest).pieces;
    }
  }

  // Every expression is parsed from the text of its piece.
  ghost predicate Follows(expressions: seq<Expression>, pieces: seq<Piece>, unicode: Unicode) {
    && |expressions| == |pieces|
    && forall i :: 0 <= i < |pieces| ==> ParseRaw(pieces[i].raw, unicode) == Ok(expressions[i])
  }

  lemma FollowsStep(e: Expression, p: Piece, expressions: seq<Expression>, pieces: seq<Piece>, unicode: Unicode)
    requires ParseRaw(p.raw, unicode) == Ok(e) && Follows(expressions, pieces, unicode)
    ensures Follows([e] + expressions, [p] + pieces, unicode)
  {
  }

  /** An accepted source has one expression per piece, each parsed from the piece's text, and no
      delimiter in its tail. */
  lemma {:induction false} ParseFollowsSegments(rest: string, unicode: Unicode)
    requires Parse(rest, unicode).Ok?
    ensures Follows(Parse(rest, unicode).value, Segment(rest).pieces, unicode)
    ensures FindPair(Segment(rest).tail, '{').None? && FindPair(Segment(rest).tail, '}').None?
    decreases |rest|
  {
    var cut := CutNext(rest);
    if cut.Cut? {
      ParseFollowsSegments(cut.rest, unicode);
      FollowsStep(ParseRaw(cut.piece.raw, unicode).value, cut.piece, Parse(cut.rest, unicode).value,
                  Segment(cut.rest).pieces, unicode);
    }
  }

  lemma {:induction false} SupportedFilters(filters: seq<string>, value: string, unicode: Unicode)
    requires FirstUnsupported(filters).None?
    ensures ApplyFilters(filters, value, unicode).Ok?
    decreases |filters|
  {
    if filters != [] {
      SupportedFilters(filters[1..], ApplyFilter(filters[0], value, unicode).value, unicode);
    }
  }

  lemma ParsedValue(raw: string, context: Context, unicode: Unicode)
    requires ParseRaw(raw, unicode).Ok?
    ensures var e := ParseRaw(raw, unicode).value;
            && e.variable in VARIABLES
            && ValueOf(e, context, unicode) ==
               if e.variable in context then Ok(FilteredValue(e, context, unicode))
                 else Err(MissingVariable(e.variable))
  {
    var e := ParseRaw(raw, unicode).value;
    if e.variable in context { SupportedFilters(e.filters, context[e.variable], unicode); }
  }

  // The value an expression inserts, when its variable is present.
  function FilteredValue(e: Expression, context: Context, unicode: Unicode): string {
    var value := ValueOf(e, context, unicode);
    if value.Ok? then value.value else ""
  }

  function FilteredValues(expressions: seq<Expression>, context: Context, unicode: Unicode): seq<string> {
    seq(|expressions|, i requires 0 <= i < |expressions| => FilteredValue(expressions[i], context, unicode))
  }

  function FirstMissing(expressions: seq<Expression>, context: Context): Option<string> {
    if expressions == [] then None
    else if expressions[0].variable !in context then Some(expressions[0].variable)
    else FirstMissing(expressions[1..], context)
  }

  // Rendering over the pieces instead of the text.
  function RenderPieces(pieces: seq<Piece>, expressions: seq<Expression>, tail: string, context: Context,
                        unicode: Unicode): TemplateResult<string>
    requires |pieces| == |expressions|
  {
    if pieces == [] then Ok(tail)
    else
      var value := ValueOf(expressions[0], context, unicode);
      if value.Err? then value
      else Append(pieces[0].literal + value.value, RenderPieces(pieces[1..], expressions[1..], tail, context, unicode))
  }

  lemma {:induction false} RenderFollowsPieces(rest: string, context: Context, unicode: Unicode)
    requires Parse(rest, unicode).Ok? && |Segment(rest).pieces| == |Parse(rest, unicode).value|
    ensures Render(rest, Parse(rest, unicode).value, context, unicode) ==
            RenderPieces(Segment(rest).pieces, Parse(rest, unicode).value, Segment(rest).tail, context, unicode)
    decreases |rest|
  {
    var cut := CutNext(rest);
    if cut.Cut? {
      ParseFollowsSegments(cut.rest, unicode);
      RenderFollowsPieces(cut.rest, context, unicode);
      assert Parse(rest, unicode).value[1..] == Parse(cut.rest, unicode).value;
      assert Segment(rest).pieces[1..] == Segment(cut.rest).pieces;
    }
  }

  lemma {:induction false} PiecesAreInterleaved(pieces: seq<Piece>, expressions: seq<Expression>, tail: string,
                                                context: Context,
                                                unicode: Unicode)
    requires Follows(expressions, pieces, unicode)
    ensures RenderPieces(pieces, expressions, tail, context, unicode) ==
            match FirstMissing(expressions, context)
            case Some(variable) => Err(MissingVariable(variable))
            case None => Ok(Interleave(pieces, FilteredValues(expressions, context, unicode), tail))
  {
    if pieces != [] {
      PiecesAreInterleaved(pieces[1..], expressions[1..], tail, context, unicode);
      ParsedValue(pieces[0].raw, context, unicode);
      assert FilteredValues(expressions, context, unicode)[1..] == FilteredValues(expressions[1..], context, unicode);
    }
  }

  /** Once a source is accepted, rendering fails only for the first missing variable, and otherwise
      yields the literals interleaved with the filtered values; inserted text is never scanned. */
  lemma RenderIsInterleaving(source: string, context: Context, unicode: Unicode)
    requires ParseSource(source, unicode).Ok?
    ensures var s, expressions := Segment(source), ParseSource(source, unicode).value;
            && |s.pieces| == |expressions|
            && Reassemble(s.pieces, s.tail) == source
            && Render(source, expressions, context, unicode) ==
               match FirstMissing(expressions, context)
               case Some(variable) => Err(MissingVariable(variable))
               case None => Ok(Interleave(s.pieces, FilteredValues(expressions, context, unicode), s.tail))
  {
    SegmentsReassemble(source);
    ParseFollowsSegments(source, unicode);
    RenderFollowsPieces(source, context, unicode);
    PiecesAreInterleaved(Segment(source).pieces, Parse(source, unicode).value, Segment(source).tail, context, unicode);
  }

  // ----- sanitized values and accepted paths -----

  lemma {:induction false} CharactersOfWords(value: string, word: string, isWhitespace: char -> bool, w: string,
                                             c: char)
    requires w in Words(value, word, isWhitespace) && c in w
    ensures c in value || c in word
    decreases |value|
  {
    if value != "" {
      assert value == [value[0]] + value[1..];
      if isWhitespace(value[0]) {
        if !(word != "" && w == word) { CharactersOfWords(value[1..], "", isWhitespace, w, c); }
      } else {
        CharactersOfWords(value[1..], word + [value[0]], isWhitespace, w, c);
      }
    }
  }

  lemma {:induction false} CharactersOfJoin(words: seq<string>, separator: string, c: char)
    requires c in Join(words, separator)
    ensures c in separator || exists w :: w in words && c in w
  {
    if |words| == 1 {
      assert words[0] in words;
    } else if |words| > 1 {
      assert words[0] in words && forall w :: w in words[1..] ==> w in words;
      if c in Join(words[1..], separator) { CharactersOfJoin(words[1..], separator, c); }
    }
  }

  /** A sanitized value holds no separator, no control character and nothing else a name cannot hold,
      so it never adds a path component. */
  lemma SanitizedIsClean(value: string, unicode: Unicode, c: char)
    requires c in Sanitize(value, unicode)
    ensures c == ' ' || (c in value && !Forbidden(c) && !unicode.isControl(c))
  {
    var blanked := Blanked(value, unicode);
    CharactersOfJoin(Words(blanked, "", unicode.isWhitespace), " ", c);
    if c !in " " {
      var w :| w in Words(blanked, "", unicode.isWhitespace) && c in w;
      CharactersOfWords(blanked, "", unicode.isWhitespace, w, c);
      var i :| 0 <= i < |blanked| && blanked[i] == c;
      assert c == value[i] || c == ' ';
    }
  }

  // `PathTemplate::render`: the rendered text, if it is a safe relative path.
  function RenderPath(source: string, expressions: seq<Expression>, context: Context, unicode: Unicode)
    : TemplateResult<string>
  {
    var rendered := Render(source, expressions, context, unicode);
    if rendered.Err? then rendered
    else if Paths.SafePath(rendered.value, unicode.isControl) then rendered
    else Err(UnsafePath)
  }

  /** Whatever values a template inserts, an accepted path stays lexically below every root. */
  lemma RenderedPathStaysBelow(source: string, expressions: seq<Expression>, context: Context, unicode: Unicode,
                               root: seq<string>)
    requires RenderPath(source, expressions, context, unicode).Ok?
    ensures root <= Paths.Resolve(root, Paths.Components(RenderPath(source, expressions, context, unicode).value))
  {
    Paths.SafePathStaysBelow(root, RenderPath(source, expressions, context, unicode).value, unicode.isControl);
  }
}

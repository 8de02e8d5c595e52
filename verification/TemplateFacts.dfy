/** Path templates, said of the characters of the source, of the values and of the rendered path. */
module TemplateFacts {
  import opened Media
  import opened Normalization
  import opened Options
  import opened PathTemplates
  import opened Results
  import opened Texts
  import Paths

  // ----- splitting -----

  // The parts with the separator between them.
  function Glued(parts: seq<string>, c: char): string
    requires parts != []
  {
    if |parts| == 1 then parts[0] else parts[0] + [c] + Glued(parts[1..], c)
  }

  // The parts of a text between the separators.
  ghost predicate SplitsInto(value: string, c: char, parts: seq<string>) {
    parts != [] && Glued(parts, c) == value && forall i :: 0 <= i < |parts| ==> c !in parts[i]
  }

  lemma {:induction false} SplitGlues(value: string, c: char, word: string)
    requires c !in word
    ensures SplitsInto(word + value, c, SplitOn(value, c, word))
    decreases |value|
  {
    if value == "" {
      assert word + value == word;
    } else if value[0] == c {
      SplitGlues(value[1..], c, "");
      var rest := SplitOn(value[1..], c, "");
      assert ([word] + rest)[1..] == rest;
      assert "" + value[1..] == value[1..];
      assert word + value == word + [c] + value[1..];
    } else {
      SplitGlues(value[1..], c, word + [value[0]]);
      assert word + value == word + [value[0]] + value[1..];
    }
  }

  lemma {:induction false} ReadPart(part: string, rest: string, c: char, word: string)
    requires c !in part
    ensures SplitOn(part + rest, c, word) == SplitOn(rest, c, word + part)
    decreases |part|
  {
    if part == "" {
      assert part + rest == rest && word + part == word;
    } else {
      assert (part + rest)[1..] == part[1..] + rest;
      ReadPart(part[1..], rest, c, word + [part[0]]);
      assert word + part == word + [part[0]] + part[1..];
    }
  }

  // A text splits in one way only.
  lemma {:induction false} SplitIs(value: string, c: char, parts: seq<string>)
    requires SplitsInto(value, c, parts)
    ensures SplitOn(value, c, "") == parts
    decreases |parts|
  {
    assert "" + parts[0] == parts[0];
    if |parts| == 1 {
      ReadPart(parts[0], "", c, "");
      assert parts[0] + "" == parts[0];
    } else {
      var rest := Glued(parts[1..], c);
      ReadPart(parts[0], [c] + rest, c, "");
      assert parts[0] + [c] + rest == parts[0] + ([c] + rest);
      assert ([c] + rest)[1..] == rest;
      SplitIs(rest, c, parts[1..]);
      assert parts == [parts[0]] + parts[1..];
    }
  }

  // ----- expressions -----

  // The text without the blanks around it.
  ghost predicate TrimmedTo(value: string, unicode: Unicode, core: string) {
    exists i: nat, j: nat :: Core(value, unicode.isWhitespace, i, j) && core == value[i..j]
  }

  lemma TrimIs(value: string, unicode: Unicode)
    ensures TrimmedTo(value, unicode, Trim(value, unicode))
    ensures forall core :: TrimmedTo(value, unicode, core) ==> core == Trim(value, unicode)
  {
    var i, j := CoreOf(value, unicode.isWhitespace);
    assert Trim(value, unicode) == value[i..j];
    forall core | TrimmedTo(value, unicode, core) ensures core == Trim(value, unicode) {
      var a: nat, b: nat :| Core(value, unicode.isWhitespace, a, b) && core == value[a..b];
      if a < b { TrimIsCore(value, unicode.isWhitespace, a, b); } else { EmptyCore(value, unicode, a, i, j); }
    }
  }

  lemma EmptyCore(value: string, unicode: Unicode, a: nat, i: nat, j: nat)
    requires Core(value, unicode.isWhitespace, a, a) && Core(value, unicode.isWhitespace, i, j)
    ensures i == j
  {
  }

  // The words of an expression: the trimmed text between the bars of the trimmed text.
  ghost predicate ExpressionWords(raw: string, unicode: Unicode, words: seq<string>) {
    exists core, parts ::
      && TrimmedTo(raw, unicode, core) && SplitsInto(core, '|', parts) && |words| == |parts|
      && forall i :: 0 <= i < |parts| ==> TrimmedTo(parts[i], unicode, words[i])
  }

  lemma WordsAre(raw: string, unicode: Unicode, words: seq<string>)
    ensures ExpressionWords(raw, unicode, words) <==>
            words == TrimAll(SplitOn(Trim(raw, unicode), '|', ""), unicode)
  {
    var core := Trim(raw, unicode);
    var parts := SplitOn(core, '|', "");
    TrimIs(raw, unicode);
    SplitGlues(core, '|', "");
    assert "" + core == core;
    forall part ensures TrimmedTo(part, unicode, Trim(part, unicode)) { TrimIs(part, unicode); }
    if ExpressionWords(raw, unicode, words) {
      var c, ps :| && TrimmedTo(raw, unicode, c) && SplitsInto(c, '|', ps) && |words| == |ps|
                   && forall i :: 0 <= i < |ps| ==> TrimmedTo(ps[i], unicode, words[i]);
      SplitIs(c, '|', ps);
      forall i | 0 <= i < |ps| ensures words[i] == Trim(ps[i], unicode) { TrimIs(ps[i], unicode); }
    }
  }

  ghost predicate IsVariable(word: string) {
    word == "title" || word == "year" || word == "edition" || word == "id"
  }

  ghost predicate IsFilter(word: string) {
    word == "sanitize" || word == "lower" || word == "upper"
  }

  lemma {:induction false} UnsupportedIs(filters: seq<string>, n: nat)
    requires n <= |filters| && forall i :: 0 <= i < n ==> IsFilter(filters[i])
    requires n < |filters| ==> !IsFilter(filters[n])
    ensures FirstUnsupported(filters) == if n < |filters| then Some(filters[n]) else None
  {
    if filters != [] && n > 0 {
      assert forall i :: 0 <= i < n - 1 ==> filters[1..][i] == filters[i + 1];
      UnsupportedIs(filters[1..], n - 1);
    }
  }

  lemma VariableIff(word: string)
    ensures word in VARIABLES <==> IsVariable(word)
  {
  }

  lemma ParseRawIs(raw: string, unicode: Unicode, words: seq<string>)
    requires ExpressionWords(raw, unicode, words) && words != []
    ensures ParseRaw(raw, unicode) ==
            if !IsVariable(words[0]) then Err(UnsupportedVariable(words[0]))
            else match FirstUnsupported(words[1..])
                 case Some(filter) => Err(UnsupportedFilter(filter))
                 case None => Ok(Expression(words[0], words[1..]))
  {
    WordsAre(raw, unicode, words);
    VariableIff(words[0]);
  }

  /** The words of an expression are a variable and its filters; the first that is none is reported, the variable
      before the filters. */
  lemma ExpressionIs(raw: string, unicode: Unicode, words: seq<string>, n: nat)
    requires ExpressionWords(raw, unicode, words) && 0 < n <= |words|
    requires forall i :: 0 < i < n ==> IsFilter(words[i])
    requires n < |words| ==> !IsFilter(words[n])
    ensures ParseRaw(raw, unicode) ==
            if !IsVariable(words[0]) then Err(UnsupportedVariable(words[0]))
            else if n < |words| then Err(UnsupportedFilter(words[n]))
            else Ok(Expression(words[0], words[1..]))
  {
    ParseRawIs(raw, unicode, words);
    assert forall i :: 0 < i < |words| ==> words[i] == words[1..][i - 1];
    UnsupportedIs(words[1..], n - 1);
  }

  // ----- sources -----

  // The character never stands twice in a row.
  ghost predicate NoPair(s: string, c: char) {
    forall k :: 0 <= k < |s| - 1 ==> !(s[k] == c && s[k + 1] == c)
  }

  lemma {:induction false} FirstPairFrom(s: string, c: char, i: nat, p: nat)
    requires i <= p && p + 1 < |s| && s[p] == c && s[p + 1] == c
    requires forall k :: i <= k < p ==> !(s[k] == c && s[k + 1] == c)
    ensures FindPairFrom(s, c, i) == Some(p)
    decreases |s| - i
  {
    if i < p { FirstPairFrom(s, c, i + 1, p); }
  }

  lemma PairIs(s: string, c: char, front: string, rest: string)
    requires s == front + [c, c] + rest && NoPair(front + [c], c)
    ensures FindPair(s, c) == Some(|front|) && s[..|front|] == front && s[|front| + 2..] == rest
  {
    var p := |front|;
    assert s[p] == c && s[p + 1] == c;
    forall k | 0 <= k < p ensures !(s[k] == c && s[k + 1] == c) {
      assert s[k] == (front + [c])[k] && s[k + 1] == (front + [c])[k + 1];
    }
    FirstPairFrom(s, c, 0, p);
  }

  lemma NoPairIs(s: string, c: char)
    ensures FindPair(s, c).None? <==> NoPair(s, c)
  {
    if FindPair(s, c).None? {
      forall k | 0 <= k < |s| - 1 ensures !(s[k] == c && s[k + 1] == c) { NoPairBefore(s, c, 0, k); }
    }
  }

  // The source goes on with a literal, an expression between the first delimiters, and the rest.
  ghost predicate Opens(source: string, literal: string, raw: string, rest: string) {
    source == literal + "{{" + raw + "}}" + rest && NoPair(literal + "{", '{') && NoPair(raw + "}", '}')
  }

  // The source opens an expression and never closes it.
  ghost predicate StaysOpen(source: string, literal: string, rest: string) {
    source == literal + "{{" + rest && NoPair(literal + "{", '{') && NoPair(rest, '}')
  }

  lemma CutIs(source: string, literal: string, raw: string, rest: string)
    requires Opens(source, literal, raw, rest)
    ensures CutNext(source) == Cut(Piece(literal, raw), rest)
  {
    var after := raw + "}}" + rest;
    assert source == literal + ['{', '{'] + after;
    PairIs(source, '{', literal, after);
    assert after == raw + ['}', '}'] + rest;
    PairIs(after, '}', raw, rest);
  }

  lemma UnclosedIs(source: string, literal: string, rest: string)
    requires StaysOpen(source, literal, rest)
    ensures CutNext(source) == Unclosed
  {
    assert source == literal + ['{', '{'] + rest;
    PairIs(source, '{', literal, rest);
    NoPairIs(rest, '}');
  }

  /** Parsing reads a source from left to right: an expression between the first delimiters, and so on; what follows
      the last one holds no delimiter. */
  lemma ParsingIs(source: string, literal: string, raw: string, rest: string, unicode: Unicode)
    ensures NoPair(source, '{') ==> Parse(source, unicode) == if NoPair(source, '}') then Ok([]) else Err(InvalidSyntax)
    ensures StaysOpen(source, literal, rest) ==> Parse(source, unicode) == Err(InvalidSyntax)
    ensures Opens(source, literal, raw, rest) ==>
              Parse(source, unicode) ==
              match ParseRaw(raw, unicode)
              case Err(error) => Err(error)
              case Ok(e) =>
                match Parse(rest, unicode)
                case Err(error) => Err(error)
                case Ok(others) => Ok([e] + others)
  {
    NoPairIs(source, '{');
    NoPairIs(source, '}');
    if StaysOpen(source, literal, rest) { UnclosedIs(source, literal, rest); }
    if Opens(source, literal, raw, rest) { CutIs(source, literal, raw, rest); }
  }

  /** Every source is of one of the three forms. */
  lemma EverySourceIs(source: string) returns (literal: string, raw: string, rest: string)
    ensures NoPair(source, '{') || StaysOpen(source, literal, rest) || Opens(source, literal, raw, rest)
  {
    literal, raw, rest := "", "", "";
    NoPairIs(source, '{');
    if FindPair(source, '{').Some? {
      literal, rest := UpToPair(source, '{');
      NoPairIs(rest, '}');
      if FindPair(rest, '}').Some? {
        var after := rest;
        raw, rest := UpToPair(after, '}');
        assert source == literal + "{{" + raw + "}}" + rest;
      }
    }
  }

  lemma UpToPair(s: string, c: char) returns (front: string, rest: string)
    requires FindPair(s, c).Some?
    ensures s == front + [c, c] + rest && NoPair(front + [c], c)
  {
    var p := FindPair(s, c).value;
    front, rest := s[..p], s[p + 2..];
    assert s == s[..p] + [s[p], s[p + 1]] + s[p + 2..];
    forall k | 0 <= k < |front + [c]| - 1 ensures !((front + [c])[k] == c && (front + [c])[k + 1] == c) {
      NoPairBefore(s, c, 0, k);
    }
  }

  // ----- values -----

  // What one filter makes of a value.
  ghost predicate FilteredTo(filter: string, value: string, unicode: Unicode, result: string) {
    && (filter == "lower" ==> result == unicode.lower(value))
    && (filter == "upper" ==> result == unicode.upper(value))
    && (filter == "sanitize" ==> SanitizedTo(value, unicode, result))
    && IsFilter(filter)
  }

  // Separators, control characters and what else a name cannot hold become blanks; then every run of blanks becomes
  // one, and those at the ends vanish.
  ghost predicate SanitizedTo(value: string, unicode: Unicode, result: string) {
    exists blanked: string, gaps, words ::
      && |blanked| == |value|
      && (forall i :: 0 <= i < |value| ==>
            blanked[i] == if unicode.isControl(value[i]) || value[i] in "/\\<>:\"|?*" then ' ' else value[i])
      && Separates(gaps, words, unicode.isWhitespace) && Spread(gaps, words) == blanked
      && result == Spread(Blanks(|words|), words)
  }

  lemma ForbiddenIs(c: char)
    ensures Forbidden(c) <==> c in "/\\<>:\"|?*"
  {
  }

  lemma SanitizeIs(value: string, unicode: Unicode)
    ensures SanitizedTo(value, unicode, Sanitize(value, unicode))
  {
    var blanked := Blanked(value, unicode);
    var gaps, words := EveryTextIsSpread(blanked, unicode.isWhitespace);
    WordsOfSpread(gaps, words, "", unicode.isWhitespace);
    assert [] + words == words;
    JoinIsSpread(words);
    forall i | 0 <= i < |value|
      ensures blanked[i] == if unicode.isControl(value[i]) || value[i] in "/\\<>:\"|?*" then ' ' else value[i]
    {
      ForbiddenIs(value[i]);
    }
  }

  lemma SanitizingIsUnique(value: string, unicode: Unicode, result: string)
    requires SanitizedTo(value, unicode, result)
    ensures result == Sanitize(value, unicode)
  {
    var blanked: string, gaps, words :|
      && |blanked| == |value|
      && (forall i :: 0 <= i < |value| ==>
            blanked[i] == if unicode.isControl(value[i]) || value[i] in "/\\<>:\"|?*" then ' ' else value[i])
      && Separates(gaps, words, unicode.isWhitespace) && Spread(gaps, words) == blanked
      && result == Spread(Blanks(|words|), words);
    forall i | 0 <= i < |value| ensures blanked[i] == Blanked(value, unicode)[i] { ForbiddenIs(value[i]); }
    assert blanked == Blanked(value, unicode);
    WordsOfSpread(gaps, words, "", unicode.isWhitespace);
    assert [] + words == words;
    JoinIsSpread(words);
  }

  /** The three filters, and nothing else. */
  lemma FilterIs(filter: string, value: string, unicode: Unicode, result: string)
    ensures ApplyFilter(filter, value, unicode) == Ok(result) <==> FilteredTo(filter, value, unicode, result)
    ensures !IsFilter(filter) ==> ApplyFilter(filter, value, unicode) == Err(UnsupportedFilter(filter))
  {
    SanitizeIs(value, unicode);
    if SanitizedTo(value, unicode, result) { SanitizingIsUnique(value, unicode, result); }
    assert "lower" != "upper" && "sanitize" != "lower" && "sanitize" != "upper" by {
      assert |"sanitize"| == 8 && |"lower"| == 5 && "lower"[0] != "upper"[0];
    }
  }

  // The filters of an expression, from left to right.
  ghost predicate FilteredAll(filters: seq<string>, value: string, unicode: Unicode, steps: seq<string>) {
    && |steps| == |filters| + 1 && steps[0] == value
    && forall i :: 0 <= i < |filters| ==> FilteredTo(filters[i], steps[i], unicode, steps[i + 1])
  }

  /** Filters apply from left to right, each to what the one before made. */
  lemma {:induction false} FiltersAre(filters: seq<string>, value: string, unicode: Unicode)
    returns (steps: seq<string>)
    requires forall i :: 0 <= i < |filters| ==> IsFilter(filters[i])
    ensures FilteredAll(filters, value, unicode, steps)
    ensures ApplyFilters(filters, value, unicode) == Ok(steps[|filters|])
    decreases |filters|
  {
    if filters == [] {
      steps := [value];
    } else {
      var first := ApplyFilter(filters[0], value, unicode);
      assert first.Ok?;
      FilterIs(filters[0], value, unicode, first.value);
      assert forall i :: 0 <= i < |filters| - 1 ==> filters[1..][i] == filters[i + 1];
      var rest := FiltersAre(filters[1..], first.value, unicode);
      steps := [value] + rest;
      forall i | 0 <= i < |filters| ensures FilteredTo(filters[i], steps[i], unicode, steps[i + 1]) {
        if i > 0 { assert FilteredTo(filters[1..][i - 1], rest[i - 1], unicode, rest[i]); }
      }
    }
  }

  /** Rendering copies literals and inserts, for each expression, the filtered value of its variable. */
  lemma RenderingIs(source: string, literal: string, raw: string, rest: string, e: Expression,
                    others: seq<Expression>, context: Context, unicode: Unicode) returns (steps: seq<string>)
    requires Opens(source, literal, raw, rest) && forall i :: 0 <= i < |e.filters| ==> IsFilter(e.filters[i])
    ensures Render(source, [], context, unicode) == Ok(source)
    ensures e.variable !in context ==>
              Render(source, [e] + others, context, unicode) == Err(MissingVariable(e.variable))
    ensures e.variable in context ==>
              && FilteredAll(e.filters, context[e.variable], unicode, steps)
              && Render(source, [e] + others, context, unicode) ==
                 match Render(rest, others, context, unicode)
                 case Err(error) => Err(error)
                 case Ok(tail) => Ok(literal + steps[|e.filters|] + tail)
  {
    CutIs(source, literal, raw, rest);
    assert ([e] + others)[1..] == others;
    steps := [];
    if e.variable in context { steps := FiltersAre(e.filters, context[e.variable], unicode); }
  }

  // ----- rendered paths -----

  lemma {:induction false} PartsAreSplit(value: string, word: string)
    ensures Paths.Parts(value, word) == SplitOn(value, '/', word)
    decreases |value|
  {
    if value != "" {
      if value[0] == '/' { PartsAreSplit(value[1..], ""); } else { PartsAreSplit(value[1..], word + [value[0]]); }
    }
  }

  // What a part between slashes stands for: an empty part and a dot for nothing.
  ghost function ComponentsOf(parts: seq<string>): seq<Paths.Component> {
    if parts == [] then []
    else
      (if parts[0] == "" || parts[0] == "." then []
       else if parts[0] == ".." then [Paths.ParentDir]
       else [Paths.Normal(parts[0])]) + ComponentsOf(parts[1..])
  }

  lemma {:induction false} NamedPartsAre(parts: seq<string>)
    ensures Paths.NamedParts(parts) == ComponentsOf(parts)
  {
    if parts != [] { NamedPartsAre(parts[1..]); }
  }

  // The part shows as this component.
  ghost predicate ShowsAs(part: string, c: Paths.Component) {
    part != "" && part != "." && c == if part == ".." then Paths.ParentDir else Paths.Normal(part)
  }

  lemma {:induction false} MemberOfComponents(parts: seq<string>, c: Paths.Component)
    ensures c in ComponentsOf(parts) <==> exists part <- parts :: ShowsAs(part, c)
  {
    if parts != [] {
      MemberOfComponents(parts[1..], c);
      assert forall part :: part in parts <==> part == parts[0] || part in parts[1..];
      assert c in ComponentsOf(parts) <==> ShowsAs(parts[0], c) || c in ComponentsOf(parts[1..]);
    }
  }

  /** The components of a path: a slash in front shows as the root, a dot in front as a dot, and every other part that
      is neither empty nor a dot as itself. */
  lemma PathComponents(value: string, parts: seq<string>)
    requires SplitsInto(value, '/', parts)
    ensures Paths.Components(value) ==
            (if value != "" && value[0] == '/' then [Paths.RootDir]
             else if parts[0] == "." then [Paths.CurDir] else []) +
            ComponentsOf(parts)
  {
    SplitIs(value, '/', parts);
    PartsAreSplit(value, "");
    NamedPartsAre(parts);
    assert [] + ComponentsOf(parts) == ComponentsOf(parts);
  }

  // A name without control characters and without what file systems refuse, and with neither a blank nor a dot at its
  // end.
  ghost predicate SafeName(name: string, isControl: char -> bool) {
    && name != "" && name[|name| - 1] != ' ' && name[|name| - 1] != '.'
    && forall i :: 0 <= i < |name| ==> !isControl(name[i]) && name[i] !in "<>:\"|?*"
  }

  lemma UnsafeIs(c: char, isControl: char -> bool)
    ensures Paths.UnsafeCharacter(c, isControl) <==> isControl(c) || c in "<>:\"|?*"
  {
  }

  lemma SafeNameIff(name: string, isControl: char -> bool)
    ensures Paths.SafeSegment(name, isControl) <==> SafeName(name, isControl)
  {
    forall i | 0 <= i < |name|
      ensures Paths.UnsafeCharacter(name[i], isControl) <==> isControl(name[i]) || name[i] in "<>:\"|?*"
    {
      UnsafeIs(name[i], isControl);
    }
  }

  // A text that is not empty and does not start with a slash, and whose parts are safe names, dots, or empty.
  ghost predicate AcceptablePath(value: string, isControl: char -> bool, parts: seq<string>) {
    && value != "" && value[0] != '/' && '\0' !in value
    && forall part <- parts :: part != ".." && (part == "" || part == "." || SafeName(part, isControl))
  }

  /** A rendered path is accepted exactly when every part of it is. */
  lemma AcceptedIff(value: string, isControl: char -> bool, parts: seq<string>)
    requires SplitsInto(value, '/', parts)
    ensures Paths.SafePath(value, isControl) <==> AcceptablePath(value, isControl, parts)
  {
    if Paths.SafePath(value, isControl) {
      forall part | part in parts ensures part != ".." && (part == "" || part == "." || SafeName(part, isControl)) {
        SafePartsAre(value, isControl, parts, part);
      }
    }
    if AcceptablePath(value, isControl, parts) { AcceptableIsSafe(value, isControl, parts); }
  }

  lemma SafePartsAre(value: string, isControl: char -> bool, parts: seq<string>, part: string)
    requires SplitsInto(value, '/', parts) && Paths.SafePath(value, isControl) && part in parts
    ensures part != ".." && (part == "" || part == "." || SafeName(part, isControl))
  {
    PathComponents(value, parts);
    var components := Paths.Components(value);
    MemberOfComponents(parts, Paths.Normal(part));
    MemberOfComponents(parts, Paths.ParentDir);
    SafeNameIff(part, isControl);
    if part != "" && part != "." && part != ".." {
      assert Paths.Normal(part) in components;
      var i :| 0 <= i < |components| && components[i] == Paths.Normal(part);
    }
  }

  lemma AcceptableIsSafe(value: string, isControl: char -> bool, parts: seq<string>)
    requires SplitsInto(value, '/', parts) && AcceptablePath(value, isControl, parts)
    ensures Paths.SafePath(value, isControl)
  {
    PathComponents(value, parts);
    var components := Paths.Components(value);
    forall c | c in components ensures c.CurDir? || (c.Normal? && Paths.SafeSegment(c.name, isControl)) {
      MemberOfComponents(parts, c);
      if c.Normal? { SafeNameIff(c.name, isControl); }
    }
  }

  /** A source with a null character is refused outright; a rendered text is returned exactly when it is acceptable. */
  lemma TemplatesAre(source: string, expressions: seq<Expression>, context: Context, unicode: Unicode)
    ensures ParseSource(source, unicode) == if '\0' in source then Err(UnsafePath) else Parse(source, unicode)
    ensures var rendered := Render(source, expressions, context, unicode);
            && (rendered.Err? ==> RenderPath(source, expressions, context, unicode) == rendered)
            && (rendered.Ok? ==> forall parts :: SplitsInto(rendered.value, '/', parts) ==>
                  RenderPath(source, expressions, context, unicode) ==
                  if AcceptablePath(rendered.value, unicode.isControl, parts) then rendered else Err(UnsafePath))
  {
    var rendered := Render(source, expressions, context, unicode);
    if rendered.Ok? {
      forall parts | SplitsInto(rendered.value, '/', parts)
        ensures Paths.SafePath(rendered.value, unicode.isControl) <==>
                AcceptablePath(rendered.value, unicode.isControl, parts)
      {
        AcceptedIff(rendered.value, unicode.isControl, parts);
      }
    }
  }
}

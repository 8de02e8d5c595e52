/** What a merged field holds, said of the documents as they arrive and of the policy's own maps. */
module FieldAnswers {
  import opened MergeLoops
  import opened MergePolicies
  import opened Options
  import opened OrderedSets
  import opened Precedence
  import opened Provenance
  import opened Retention
  import opened Sequences

  // One value that a document offers for a field.
  datatype Offer = Offer(document: nat, entry: nat)

  ghost predicate Offered<T, U>(documents: seq<Sourced<T>>, select: T -> seq<U>, o: Offer) {
    o.document < |documents| && o.entry < |select(documents[o.document].value)|
  }

  ghost function ValueOf<T, U>(documents: seq<Sourced<T>>, select: T -> seq<U>, o: Offer): U
    requires Offered(documents, select, o)
  {
    select(documents[o.document].value)[o.entry]
  }

  // Offers of one document keep their order; otherwise the documents' order decides.
  ghost predicate Earlier<T>(policy: MergePolicy, media: MediaKind, paths: seq<string>, documents: seq<Sourced<T>>,
                             a: Offer, b: Offer)
  {
    if a.document == b.document then a.entry < b.entry
    else Ahead(policy, media, paths, documents, a.document, b.document)
  }

  // The offers come in order.
  ghost predicate Lined<T>(policy: MergePolicy, media: MediaKind, paths: seq<string>, documents: seq<Sourced<T>>,
                           line: seq<Offer>)
  {
    forall m, n :: 0 <= m < n < |line| ==> Earlier(policy, media, paths, documents, line[m], line[n])
  }

  // The field holds these offers, in this order: those that are the same as no earlier one it holds.
  ghost predicate Holds<T, U>(policy: MergePolicy, media: MediaKind, paths: seq<string>, documents: seq<Sourced<T>>,
                              select: T -> seq<U>, same: (U, U) -> bool, values: seq<U>, sources: seq<SourceRef>,
                              picks: seq<Offer>)
  {
    && |values| == |sources| == |picks|
    && (forall n :: 0 <= n < |picks| ==>
          && Offered(documents, select, picks[n]) && values[n] == ValueOf(documents, select, picks[n])
          && sources[n] == documents[picks[n].document].source)
    && Lined(policy, media, paths, documents, picks)
    && (forall o :: Offered(documents, select, o) ==>
          (o in picks <==> !Beaten(policy, media, paths, documents, select, same, values, picks, o)))
  }

  ghost predicate Beaten<T, U>(policy: MergePolicy, media: MediaKind, paths: seq<string>, documents: seq<Sourced<T>>,
                               select: T -> seq<U>, same: (U, U) -> bool, values: seq<U>, picks: seq<Offer>, o: Offer)
    requires |values| == |picks| && Offered(documents, select, o)
  {
    exists n :: 0 <= n < |picks| && Earlier(policy, media, paths, documents, picks[n], o) &&
                same(values[n], ValueOf(documents, select, o))
  }

  /** The answer of a merge for one field: its values, and the source of each. */
  ghost predicate Answers<T, U>(policy: MergePolicy, media: MediaKind, paths: seq<string>, documents: seq<Sourced<T>>,
                                select: T -> seq<U>, same: (U, U) -> bool, values: seq<U>, sources: seq<SourceRef>)
  {
    exists picks :: Holds(policy, media, paths, documents, select, same, values, sources, picks)
  }

  /** An offer that every other one of the same kind comes after is kept, with its source. */
  lemma FirstIsKept<T, U>(policy: MergePolicy, media: MediaKind, paths: seq<string>, documents: seq<Sourced<T>>,
                          select: T -> seq<U>, same: (U, U) -> bool, values: seq<U>, sources: seq<SourceRef>, o: Offer)
    requires Answers(policy, media, paths, documents, select, same, values, sources) && Offered(documents, select, o)
    requires forall other :: Offered(documents, select, other) &&
                             same(ValueOf(documents, select, other), ValueOf(documents, select, o)) ==>
                             !Earlier(policy, media, paths, documents, other, o)
    ensures exists n :: 0 <= n < |values| == |sources| && values[n] == ValueOf(documents, select, o) &&
                        sources[n] == documents[o.document].source
  {
    var picks :| Holds(policy, media, paths, documents, select, same, values, sources, picks);
    assert !Beaten(policy, media, paths, documents, select, same, values, picks, o);
    var n :| 0 <= n < |picks| && picks[n] == o;
  }

  /** What a preferred provider sends is kept and recorded: the policy decides about every other document that offers
      the same, and the document itself has it first. */
  lemma PreferredIsKept<T, U>(policy: MergePolicy, media: MediaKind, paths: seq<string>, documents: seq<Sourced<T>>,
                              select: T -> seq<U>, same: (U, U) -> bool, values: seq<U>, sources: seq<SourceRef>,
                              o: Offer)
    requires paths != [] && Offered(documents, select, o)
    requires Answers(policy, media, paths, documents, select, same, values, sources)
    requires forall other :: Offered(documents, select, other) &&
                             same(ValueOf(documents, select, other), ValueOf(documents, select, o)) ==>
                             if other.document == o.document then o.entry <= other.entry
                             else Prefers(policy, media, paths[|paths| - 1],
                                          documents[o.document].source.provider,
                                          documents[other.document].source.provider)
    ensures exists n :: 0 <= n < |values| == |sources| && values[n] == ValueOf(documents, select, o) &&
                        sources[n] == documents[o.document].source
  {
    forall other | Offered(documents, select, other) &&
                   same(ValueOf(documents, select, other), ValueOf(documents, select, o))
      ensures !Earlier(policy, media, paths, documents, other, o)
    {
      if other.document != o.document {
        assert Ahead(policy, media, paths, documents, o.document, other.document);
        OneGoesFirst(policy, media, paths, documents, o.document, other.document);
      }
    }
    FirstIsKept(policy, media, paths, documents, select, same, values, sources, o);
  }

  // ----- the documents in the order in which they speak -----

  // What document k contributes, under its source.
  ghost function PartAt<T, V>(documents: seq<Sourced<T>>, part: T -> Option<V>): nat -> Option<Sourced<V>> {
    (k: nat) =>
      if k >= |documents| then None
      else
        match part(documents[k].value)
        case None => None
        case Some(v) => Some(Sourced(v, documents[k].source))
  }

  ghost function Parts<T, V>(policy: MergePolicy, media: MediaKind, paths: seq<string>, documents: seq<Sourced<T>>,
                             part: T -> Option<V>): seq<Sourced<V>>
  {
    Chosen(Turns(policy, media, paths, documents), PartAt(documents, part))
  }

  // Sorting the contributions is one more turn.
  lemma PartsAreOrdered<T, V>(policy: MergePolicy, media: MediaKind, paths: seq<string>, path: string,
                              documents: seq<Sourced<T>>, part: T -> Option<V>)
    ensures Ordered(policy, media, path, Parts(policy, media, paths, documents, part)) ==
            Parts(policy, media, paths + [path], documents, part)
  {
    assert (paths + [path])[..|paths|] == paths && (paths + [path])[|paths|] == path;
    SortCommutes(Turns(policy, media, paths, documents), PartAt(documents, part),
                 RankAt(policy, media, path, documents), RankOf(policy, media, path));
  }

  // The offers of the documents in the given turns.
  ghost function Line<T, U>(documents: seq<Sourced<T>>, select: T -> seq<U>, turns: seq<nat>): seq<Offer> {
    if turns == [] then []
    else
      var k := turns[|turns| - 1];
      Line(documents, select, turns[..|turns| - 1]) + if k < |documents| then OffersOf(documents, select, k) else []
  }

  ghost function OffersOf<T, U>(documents: seq<Sourced<T>>, select: T -> seq<U>, k: nat): seq<Offer>
    requires k < |documents|
  {
    seq(|select(documents[k].value)|, i requires 0 <= i => Offer(k, i))
  }

  lemma {:induction false} LineIff<T, U>(documents: seq<Sourced<T>>, select: T -> seq<U>, turns: seq<nat>, o: Offer)
    ensures o in Line(documents, select, turns) <==> o.document in turns && Offered(documents, select, o)
  {
    if turns != [] {
      var n := |turns| - 1;
      SplitLast(turns, n);
      LineIff(documents, select, turns[..n], o);
      if turns[n] == o.document && Offered(documents, select, o) {
        assert Line(documents, select, turns)[|Line(documents, select, turns[..n])| + o.entry] == o;
      }
    }
  }

  lemma LineGrows<T>(policy: MergePolicy, media: MediaKind, paths: seq<string>, documents: seq<Sourced<T>>,
                     front: seq<Offer>, k: nat, offers: seq<Offer>)
    requires Lined(policy, media, paths, documents, front)
    requires forall i :: 0 <= i < |front| ==> front[i].document != k &&
                                              Ahead(policy, media, paths, documents, front[i].document, k)
    requires forall i :: 0 <= i < |offers| ==> offers[i] == Offer(k, i)
    ensures Lined(policy, media, paths, documents, front + offers)
  {
  }

  lemma {:induction false} LineAscends<T, U>(policy: MergePolicy, media: MediaKind, paths: seq<string>,
                                             documents: seq<Sourced<T>>, select: T -> seq<U>, turns: seq<nat>)
    requires StrictlyAscending(turns, InTurn(policy, media, paths, documents))
    requires forall i :: 0 <= i < |turns| ==> turns[i] < |documents|
    ensures Lined(policy, media, paths, documents, Line(documents, select, turns))
  {
    if turns != [] {
      var n := |turns| - 1;
      var front := Line(documents, select, turns[..n]);
      LineAscends(policy, media, paths, documents, select, turns[..n]);
      forall i | 0 <= i < |front|
        ensures front[i].document != turns[n] && Ahead(policy, media, paths, documents, front[i].document, turns[n])
      {
        LineIff(documents, select, turns[..n], front[i]);
        var t :| 0 <= t < n && turns[t] == front[i].document;
        assert InTurn(policy, media, paths, documents)(turns[t], turns[n]);
        NobodyIsAheadOfHimself(policy, media, paths, documents, turns[n]);
      }
      LineGrows(policy, media, paths, documents, front, turns[n], OffersOf(documents, select, turns[n]));
    }
  }

  // A document offers what its part does.
  ghost predicate OffersItsPart<T(!new), V, U>(part: T -> Option<V>, select: V -> seq<U>, whole: T -> seq<U>) {
    forall x :: whole(x) == match part(x) case None => [] case Some(v) => select(v)
  }

  ghost predicate Spells<T, U>(obs: seq<Sourced<U>>, documents: seq<Sourced<T>>, whole: T -> seq<U>, line: seq<Offer>) {
    && |obs| == |line|
    && forall n :: 0 <= n < |line| ==>
         Offered(documents, whole, line[n]) &&
         obs[n] == Sourced(ValueOf(documents, whole, line[n]), documents[line[n].document].source)
  }

  lemma ObservationsMore<V, U>(before: seq<Sourced<V>>, next: Sourced<V>, select: V -> seq<U>)
    ensures Observations(Project(before + [next], select)) ==
            Observations(Project(before, select)) + Observed(Sourced(select(next.value), next.source))
  {
    var more := Project(before + [next], select);
    assert more[..|before|] == Project(before, select);
  }

  lemma SpellsMore<T, U>(documents: seq<Sourced<T>>, whole: T -> seq<U>, obs: seq<Sourced<U>>, line: seq<Offer>,
                         more: seq<Sourced<U>>, offers: seq<Offer>)
    requires Spells(obs, documents, whole, line) && Spells(more, documents, whole, offers)
    ensures Spells(obs + more, documents, whole, line + offers)
  {
  }

  // What document k adds to the observations and to the line.
  lemma DocumentIsObserved<T(!new), V, U>(documents: seq<Sourced<T>>, part: T -> Option<V>, select: V -> seq<U>,
                                          whole: T -> seq<U>, before: seq<Sourced<V>>, k: nat)
    returns (more: seq<Sourced<U>>)
    requires OffersItsPart(part, select, whole) && k < |documents|
    ensures Observations(Project(before + Chosen([k], PartAt(documents, part)), select)) ==
            Observations(Project(before, select)) + more
    ensures Spells(more, documents, whole, OffersOf(documents, whole, k))
  {
    var d := documents[k];
    OneChosen(k, PartAt(documents, part));
    if part(d.value).Some? {
      var next := Sourced(part(d.value).value, d.source);
      ObservationsMore(before, next, select);
      more := Observed(Sourced(select(next.value), next.source));
    } else {
      assert before + [] == before;
      more := [];
    }
  }

  // The loops visit the offers in the order of the turns.
  lemma {:induction false} LineIsObserved<T(!new), V, U>(documents: seq<Sourced<T>>, part: T -> Option<V>,
                                                         select: V -> seq<U>, whole: T -> seq<U>, turns: seq<nat>)
    requires OffersItsPart(part, select, whole)
    requires forall i :: 0 <= i < |turns| ==> turns[i] < |documents|
    ensures Spells(Observations(Project(Chosen(turns, PartAt(documents, part)), select)), documents, whole,
                   Line(documents, whole, turns))
  {
    if turns != [] {
      var n := |turns| - 1;
      var front, k := turns[..n], turns[n];
      var before := Chosen(front, PartAt(documents, part));
      LineIsObserved(documents, part, select, whole, front);
      SplitLast(turns, n);
      ChosenMore(front, k, PartAt(documents, part));
      var more := DocumentIsObserved(documents, part, select, whole, before, k);
      SpellsMore(documents, whole, Observations(Project(before, select)), Line(documents, whole, front), more,
                 OffersOf(documents, whole, k));
    }
  }

  lemma OneChosen<S, T>(x: S, choose: S -> Option<T>)
    ensures Chosen([x], choose) == if choose(x).Some? then [choose(x).value] else []
  {
    assert [x][1..] == [];
  }

  // The turns that the retained observations took.
  ghost function PickedFrom(line: seq<Offer>, picks: seq<nat>): seq<Offer>
    requires forall i :: 0 <= i < |picks| ==> picks[i] < |line|
  {
    seq(|picks|, i requires 0 <= i < |picks| => line[picks[i]])
  }

  lemma PickedAscend<T>(policy: MergePolicy, media: MediaKind, paths: seq<string>, documents: seq<Sourced<T>>,
                        line: seq<Offer>, picks: seq<nat>)
    requires Lined(policy, media, paths, documents, line) && StrictlyAscending(picks, NumberLess)
    requires forall i :: 0 <= i < |picks| ==> picks[i] < |line|
    ensures Lined(policy, media, paths, documents, PickedFrom(line, picks))
  {
    forall m, n | 0 <= m < n < |picks|
      ensures Earlier(policy, media, paths, documents, PickedFrom(line, picks)[m], PickedFrom(line, picks)[n])
    {
      assert NumberLess(picks[m], picks[n]);
    }
  }

  lemma PickedIff<T, U>(policy: MergePolicy, media: MediaKind, paths: seq<string>, documents: seq<Sourced<T>>,
                        select: T -> seq<U>, same: (U, U) -> bool, values: seq<U>, obs: seq<Sourced<U>>,
                        line: seq<Offer>, picks: seq<nat>, n: nat)
    requires Spells(obs, documents, select, line) && n < |line|
    requires Lined(policy, media, paths, documents, line)
    requires IsRetention(obs, same, picks) && |values| == |picks|
    requires forall i :: 0 <= i < |picks| ==> values[i] == obs[picks[i]].value
    ensures line[n] in PickedFrom(line, picks) <==>
            !Beaten(policy, media, paths, documents, select, same, values, PickedFrom(line, picks), line[n])
  {
    var picked := PickedFrom(line, picks);
    forall i | 0 <= i < |line| && i != n
      ensures line[i] != line[n] && (Earlier(policy, media, paths, documents, line[i], line[n]) <==> i < n)
    {
      NobodyTwice(policy, media, paths, documents, line, if i < n then i else n, if i < n then n else i);
    }
    assert line[n] in picked <==> n in picks by {
      if n in picks { var i :| 0 <= i < |picks| && picks[i] == n; assert picked[i] == line[n]; }
    }
    NobodyIsAheadOfHimself(policy, media, paths, documents, line[n].document);
    if Blocked(obs, same, picks, n) {
      var i :| 0 <= i < |picks| && picks[i] < n && same(obs[picks[i]].value, obs[n].value);
      assert picked[i] == line[picks[i]];
    }
    if Beaten(policy, media, paths, documents, select, same, values, picked, line[n]) {
      var i :| 0 <= i < |picked| && Earlier(policy, media, paths, documents, picked[i], line[n]) &&
               same(values[i], ValueOf(documents, select, line[n]));
      assert picked[i] == line[picks[i]];
      assert picks[i] < n;
    }
  }

  lemma NobodyTwice<T>(policy: MergePolicy, media: MediaKind, paths: seq<string>, documents: seq<Sourced<T>>,
                       line: seq<Offer>, i: nat, j: nat)
    requires i < j < |line|
    requires Earlier(policy, media, paths, documents, line[i], line[j])
    ensures line[i] != line[j] && !Earlier(policy, media, paths, documents, line[j], line[i])
  {
    if line[i].document != line[j].document {
      OneGoesFirst(policy, media, paths, documents, line[i].document, line[j].document);
    }
  }

  // ----- from the merge loops to answers -----

  ghost predicate SameRelation<U(!new)>(clash: (U, U) -> bool, same: (U, U) -> bool) {
    forall a, b :: clash(a, b) <==> same(a, b)
  }

  lemma RetainedIsHeld<T, U(!new)>(policy: MergePolicy, media: MediaKind, paths: seq<string>,
                                   documents: seq<Sourced<T>>, select: T -> seq<U>, clash: (U, U) -> bool,
                                   same: (U, U) -> bool, values: seq<U>, sources: seq<SourceRef>,
                                   obs: seq<Sourced<U>>, picks: seq<nat>)
    requires SameRelation(clash, same) && PicksAlign(values, sources, obs, clash, picks)
    requires Spells(obs, documents, select, Line(documents, select, Turns(policy, media, paths, documents)))
    ensures Holds(policy, media, paths, documents, select, same, values, sources,
                  PickedFrom(Line(documents, select, Turns(policy, media, paths, documents)), picks))
  {
    var turns := Turns(policy, media, paths, documents);
    var line := Line(documents, select, turns);
    var picked := PickedFrom(line, picks);
    TurnsAscend(policy, media, paths, documents);
    assert forall i :: 0 <= i < |turns| ==> turns[i] in turns;
    LineAscends(policy, media, paths, documents, select, turns);
    PickedAscend(policy, media, paths, documents, line, picks);
    SameIsRetained(obs, clash, same, picks);
    forall o | Offered(documents, select, o)
      ensures o in picked <==> !Beaten(policy, media, paths, documents, select, same, values, picked, o)
    {
      LineIff(documents, select, turns, o);
      var n :| 0 <= n < |line| && line[n] == o;
      PickedIff(policy, media, paths, documents, select, same, values, obs, line, picks, n);
    }
  }

  lemma SameIsRetained<U(!new)>(obs: seq<Sourced<U>>, clash: (U, U) -> bool, same: (U, U) -> bool, picks: seq<nat>)
    requires SameRelation(clash, same) && IsRetention(obs, clash, picks)
    ensures IsRetention(obs, same, picks)
  {
    forall n | 0 <= n < |obs| ensures Blocked(obs, clash, picks, n) <==> Blocked(obs, same, picks, n) {
      if Blocked(obs, clash, picks, n) {
        var i :| 0 <= i < |picks| && picks[i] < n && clash(obs[picks[i]].value, obs[n].value);
      }
    }
  }

  /** What the loops over a field retain is the answer to it. */
  lemma RetainedIsAnswer<T(!new), V, U(!new)>(policy: MergePolicy, media: MediaKind, paths: seq<string>,
                                              documents: seq<Sourced<T>>, part: T -> Option<V>, pick: V -> seq<U>,
                                              clash: (U, U) -> bool, select: T -> seq<U>, same: (U, U) -> bool,
                                              values: seq<U>, sources: seq<SourceRef>)
    requires OffersItsPart(part, pick, select) && SameRelation(clash, same)
    requires Aligned(values, sources,
                     Observations(Project(Parts(policy, media, paths, documents, part), pick)), clash)
    ensures Answers(policy, media, paths, documents, select, same, values, sources)
  {
    var turns := Turns(policy, media, paths, documents);
    var obs := Observations(Project(Parts(policy, media, paths, documents, part), pick));
    TurnsAscend(policy, media, paths, documents);
    assert forall i :: 0 <= i < |turns| ==> turns[i] in turns;
    LineIsObserved(documents, part, pick, select, turns);
    var picks :| PicksAlign(values, sources, obs, clash, picks);
    RetainedIsHeld(policy, media, paths, documents, select, clash, same, values, sources, obs, picks);
  }

  // The whole document.
  function Whole<T>(): T -> Option<T> { (x: T) => Some(x) }

  lemma {:induction false} ChosenUpto<T>(documents: seq<Sourced<T>>, n: nat)
    requires n <= |documents|
    ensures Chosen(Upto(n), PartAt(documents, Whole())) == documents[..n]
  {
    if n > 0 {
      var k: nat := n - 1;
      ChosenUpto(documents, k);
      ChosenMore(Upto(k), k, PartAt(documents, Whole()));
      OneChosen(k, PartAt(documents, Whole()));
    }
  }

  // The documents as they arrive, and sorted by one path or two.
  lemma WholeParts<T>(policy: MergePolicy, media: MediaKind, documents: seq<Sourced<T>>, path: string, next: string)
    ensures Parts(policy, media, [], documents, Whole()) == documents
    ensures Parts(policy, media, [path], documents, Whole()) == Ordered(policy, media, path, documents)
    ensures Parts(policy, media, [path, next], documents, Whole()) ==
            Ordered(policy, media, next, Ordered(policy, media, path, documents))
  {
    ChosenUpto(documents, |documents|);
    PartsAreOrdered(policy, media, [], path, documents, Whole());
    PartsAreOrdered(policy, media, [path], next, documents, Whole());
    assert [] + [path] == [path] && [path] + [next] == [path, next];
  }

  /** A field whose documents were put in the order of one path before is the answer to both. */
  lemma AlignedIsAnswer<T(!new), U(!new)>(policy: MergePolicy, media: MediaKind, first: string, path: string,
                                          documents: seq<Sourced<T>>, pick: T -> seq<U>, clash: (U, U) -> bool,
                                          select: T -> seq<U>, same: (U, U) -> bool, values: seq<U>,
                                          sources: seq<SourceRef>)
    requires (forall x :: pick(x) == select(x)) && SameRelation(clash, same)
    requires Aligned(values, sources,
                     FieldObservations(policy, media, path, Ordered(policy, media, first, documents), pick), clash)
    ensures Answers(policy, media, [first, path], documents, select, same, values, sources)
  {
    WholeParts(policy, media, documents, first, path);
    RetainedIsAnswer(policy, media, [first, path], documents, Whole(), pick, clash, select, same, values, sources);
  }

  /** A field that is sorted straight from the arrival is the answer to its own path. */
  lemma AlignedAlone<T(!new), U(!new)>(policy: MergePolicy, media: MediaKind, path: string,
                                       documents: seq<Sourced<T>>, pick: T -> seq<U>, clash: (U, U) -> bool,
                                       select: T -> seq<U>, same: (U, U) -> bool, values: seq<U>,
                                       sources: seq<SourceRef>)
    requires (forall x :: pick(x) == select(x)) && SameRelation(clash, same)
    requires Aligned(values, sources, FieldObservations(policy, media, path, documents, pick), clash)
    ensures Answers(policy, media, [path], documents, select, same, values, sources)
  {
    WholeParts(policy, media, documents, path, path);
    RetainedIsAnswer(policy, media, [path], documents, Whole(), pick, clash, select, same, values, sources);
  }

  // ----- the document that speaks first -----

  // Document k has what is asked for, and comes before every other one that has it.
  ghost predicate SpeaksFirst<T>(policy: MergePolicy, media: MediaKind, paths: seq<string>, documents: seq<Sourced<T>>,
                                 has: T -> bool, k: nat)
  {
    && k < |documents| && has(documents[k].value)
    && forall l: nat :: l < |documents| && l != k && has(documents[l].value) ==>
                        Ahead(policy, media, paths, documents, k, l)
  }

  lemma {:induction false} HeadOfChosen<T, V>(policy: MergePolicy, media: MediaKind, paths: seq<string>,
                                              documents: seq<Sourced<T>>, part: T -> Option<V>, turns: seq<nat>)
    returns (k: nat)
    requires Chosen(turns, PartAt(documents, part)) != []
    requires StrictlyAscending(turns, InTurn(policy, media, paths, documents))
    ensures k in turns && k < |documents| && part(documents[k].value).Some?
    ensures Chosen(turns, PartAt(documents, part))[0] == Sourced(part(documents[k].value).value, documents[k].source)
    ensures forall l :: l in turns && l < |documents| && l != k && part(documents[l].value).Some? ==>
                        Ahead(policy, media, paths, documents, k, l)
  {
    assert turns == [turns[0]] + turns[1..];
    if PartAt(documents, part)(turns[0]).Some? {
      k := turns[0];
      forall l | l in turns && l < |documents| && l != k ensures Ahead(policy, media, paths, documents, k, l) {
        var i :| 0 <= i < |turns| && turns[i] == l;
        assert InTurn(policy, media, paths, documents)(turns[0], turns[i]);
      }
    } else {
      k := HeadOfChosen(policy, media, paths, documents, part, turns[1..]);
    }
  }

  /** The first of the sorted documents is the one that speaks first. */
  lemma HeadSpeaksFirst<T, V>(policy: MergePolicy, media: MediaKind, paths: seq<string>, documents: seq<Sourced<T>>,
                              part: T -> Option<V>, has: T -> bool) returns (k: nat)
    requires Parts(policy, media, paths, documents, part) != []
    requires forall d :: d in documents ==> (has(d.value) <==> part(d.value).Some?)
    ensures SpeaksFirst(policy, media, paths, documents, has, k) && part(documents[k].value).Some?
    ensures Parts(policy, media, paths, documents, part)[0] ==
            Sourced(part(documents[k].value).value, documents[k].source)
  {
    TurnsAscend(policy, media, paths, documents);
    k := HeadOfChosen(policy, media, paths, documents, part, Turns(policy, media, paths, documents));
  }

  // ----- conflicts -----

  // Offer o has the language of the winner, the first offer in it, but says something else.
  ghost predicate Disagrees<T>(policy: MergePolicy, media: MediaKind, paths: seq<string>, documents: seq<Sourced<T>>,
                               select: T -> seq<LocalizedEntry>, language: LocalizedEntry -> string,
                               normalize: string -> string, winner: Offer, o: Offer)
  {
    && Offered(documents, select, winner) && Offered(documents, select, o)
    && var won, lost := ValueOf(documents, select, winner), ValueOf(documents, select, o);
    && language(won) == language(lost) && normalize(won.text) != normalize(lost.text)
    && forall other :: Offered(documents, select, other) && language(ValueOf(documents, select, other)) == language(won)
                       ==> !Earlier(policy, media, paths, documents, other, winner)
  }

  // One conflict for each loser, in order, naming the winner and the loser.
  ghost predicate ReportsEach<T>(policy: MergePolicy, media: MediaKind, paths: seq<string>, documents: seq<Sourced<T>>,
                                 select: T -> seq<LocalizedEntry>, language: LocalizedEntry -> string,
                                 normalize: string -> string, path: string, conflicts: seq<MergeConflict>,
                                 winners: seq<Offer>, losers: seq<Offer>)
  {
    && |conflicts| == |winners| == |losers|
    && (forall n :: 0 <= n < |losers| ==>
          && Disagrees(policy, media, paths, documents, select, language, normalize, winners[n], losers[n])
          && conflicts[n] == MergeConflict(path + "." + language(ValueOf(documents, select, losers[n])),
                                           [documents[winners[n].document].source.provider,
                                            documents[losers[n].document].source.provider]))
    && Lined(policy, media, paths, documents, losers)
    && (forall w, o :: Disagrees(policy, media, paths, documents, select, language, normalize, w, o) ==> o in losers)
  }

  /** The conflicts that a merge reports for one field. */
  ghost predicate Reports<T>(policy: MergePolicy, media: MediaKind, paths: seq<string>, documents: seq<Sourced<T>>,
                             select: T -> seq<LocalizedEntry>, language: LocalizedEntry -> string,
                             normalize: string -> string, path: string, conflicts: seq<MergeConflict>)
  {
    exists winners, losers :: ReportsEach(policy, media, paths, documents, select, language, normalize, path, conflicts,
                                          winners, losers)
  }

  lemma FirstOfLanguage<T>(policy: MergePolicy, media: MediaKind, paths: seq<string>, documents: seq<Sourced<T>>,
                           select: T -> seq<LocalizedEntry>, key: LocalizedEntry -> string,
                           obs: seq<Sourced<LocalizedEntry>>, line: seq<Offer>, n: nat, other: Offer)
    requires Spells(obs, documents, select, line) && n < |line|
    requires Lined(policy, media, paths, documents, line)
    requires other in line && key(ValueOf(documents, select, other)) == key(obs[n].value)
    ensures !Earlier(policy, media, paths, documents, other, line[FirstWith(obs, key, n)])
  {
    var f := FirstWith(obs, key, n);
    var m :| 0 <= m < |line| && line[m] == other;
    assert obs[m].value == ValueOf(documents, select, other);
    if m == f {
      NobodyIsAheadOfHimself(policy, media, paths, documents, other.document);
    } else {
      NobodyTwice(policy, media, paths, documents, line, f, m);
    }
  }

  lemma LosesIsDisagreement<T>(policy: MergePolicy, media: MediaKind, paths: seq<string>, documents: seq<Sourced<T>>,
                               select: T -> seq<LocalizedEntry>, key: LocalizedEntry -> string,
                               normalize: string -> string, obs: seq<Sourced<LocalizedEntry>>, line: seq<Offer>, n: nat)
    requires Spells(obs, documents, select, line) && n < |line|
    requires Lined(policy, media, paths, documents, line)
    requires forall o :: Offered(documents, select, o) ==> o in line
    ensures Loses(obs, key, normalize, n) ==>
              Disagrees(policy, media, paths, documents, select, key, normalize, line[FirstWith(obs, key, n)], line[n])
    ensures forall w :: Disagrees(policy, media, paths, documents, select, key, normalize, w, line[n]) ==>
                        Loses(obs, key, normalize, n)
  {
    var f := FirstWith(obs, key, n);
    forall other | Offered(documents, select, other) && key(ValueOf(documents, select, other)) == key(obs[n].value)
      ensures !Earlier(policy, media, paths, documents, other, line[f])
    {
      FirstOfLanguage(policy, media, paths, documents, select, key, obs, line, n, other);
    }
    forall w | Disagrees(policy, media, paths, documents, select, key, normalize, w, line[n])
      ensures Loses(obs, key, normalize, n)
    {
      var m :| 0 <= m < |line| && line[m] == w;
      assert obs[m].value == ValueOf(documents, select, w);
    }
  }

  ghost predicate SameTexts(key: LocalizedEntry -> string, language: LocalizedEntry -> string) {
    forall e :: key(e) == language(e)
  }

  // Loser i, its winner and its conflict.
  lemma LoserIsNamed<T>(policy: MergePolicy, media: MediaKind, paths: seq<string>, documents: seq<Sourced<T>>,
                        select: T -> seq<LocalizedEntry>, key: LocalizedEntry -> string, normalize: string -> string,
                        path: string, obs: seq<Sourced<LocalizedEntry>>, line: seq<Offer>, n: nat)
    requires Spells(obs, documents, select, line) && n < |line|
    requires Lined(policy, media, paths, documents, line)
    requires forall o :: Offered(documents, select, o) ==> o in line
    requires Loses(obs, key, normalize, n)
    ensures var w, o := line[FirstWith(obs, key, n)], line[n];
            && Disagrees(policy, media, paths, documents, select, key, normalize, w, o)
            && ConflictOf(obs, key, path, n) ==
               MergeConflict(path + "." + key(ValueOf(documents, select, o)),
                             [documents[w.document].source.provider, documents[o.document].source.provider])
  {
    LosesIsDisagreement(policy, media, paths, documents, select, key, normalize, obs, line, n);
  }

  lemma EveryLoserIsListed<T>(policy: MergePolicy, media: MediaKind, paths: seq<string>, documents: seq<Sourced<T>>,
                              select: T -> seq<LocalizedEntry>, key: LocalizedEntry -> string,
                              normalize: string -> string, obs: seq<Sourced<LocalizedEntry>>, line: seq<Offer>,
                              lost: seq<nat>, w: Offer, o: Offer)
    requires Spells(obs, documents, select, line) && Lined(policy, media, paths, documents, line)
    requires forall x :: Offered(documents, select, x) ==> x in line
    requires IsLosers(lost, obs, key, normalize) && forall i :: 0 <= i < |lost| ==> lost[i] < |line|
    requires Disagrees(policy, media, paths, documents, select, key, normalize, w, o)
    ensures o in PickedFrom(line, lost)
  {
    var n :| 0 <= n < |line| && line[n] == o;
    LosesIsDisagreement(policy, media, paths, documents, select, key, normalize, obs, line, n);
    var i :| 0 <= i < |lost| && lost[i] == n;
    assert PickedFrom(line, lost)[i] == o;
  }

  lemma WinnersAndLosers<T>(policy: MergePolicy, media: MediaKind, paths: seq<string>, documents: seq<Sourced<T>>,
                            select: T -> seq<LocalizedEntry>, key: LocalizedEntry -> string,
                            normalize: string -> string, path: string, conflicts: seq<MergeConflict>,
                            obs: seq<Sourced<LocalizedEntry>>, line: seq<Offer>, lost: seq<nat>)
    returns (winners: seq<Offer>, losers: seq<Offer>)
    requires Spells(obs, documents, select, line) && Lined(policy, media, paths, documents, line)
    requires forall o :: Offered(documents, select, o) ==> o in line
    requires IsLosers(lost, obs, key, normalize) && OneEach(conflicts, obs, key, path, lost)
    ensures ReportsEach(policy, media, paths, documents, select, key, normalize, path, conflicts, winners, losers)
  {
    winners := seq(|lost|, i requires 0 <= i < |lost| => line[FirstWith(obs, key, lost[i])]);
    losers := PickedFrom(line, lost);
    forall i | 0 <= i < |lost|
      ensures Disagrees(policy, media, paths, documents, select, key, normalize, winners[i], losers[i])
      ensures conflicts[i] == MergeConflict(path + "." + key(ValueOf(documents, select, losers[i])),
                                            [documents[winners[i].document].source.provider,
                                             documents[losers[i].document].source.provider])
    {
      assert lost[i] in lost;
      LoserIsNamed(policy, media, paths, documents, select, key, normalize, path, obs, line, lost[i]);
    }
    forall w, o | Disagrees(policy, media, paths, documents, select, key, normalize, w, o) ensures o in losers {
      EveryLoserIsListed(policy, media, paths, documents, select, key, normalize, obs, line, lost, w, o);
    }
    PickedAscend(policy, media, paths, documents, line, lost);
  }

  lemma SameDisagreement<T>(policy: MergePolicy, media: MediaKind, paths: seq<string>, documents: seq<Sourced<T>>,
                            select: T -> seq<LocalizedEntry>, key: LocalizedEntry -> string,
                            language: LocalizedEntry -> string, normalize: string -> string, w: Offer, o: Offer)
    requires SameTexts(key, language)
    ensures Disagrees(policy, media, paths, documents, select, key, normalize, w, o) <==>
            Disagrees(policy, media, paths, documents, select, language, normalize, w, o)
  {
  }

  lemma SameReports<T>(policy: MergePolicy, media: MediaKind, paths: seq<string>, documents: seq<Sourced<T>>,
                       select: T -> seq<LocalizedEntry>, key: LocalizedEntry -> string,
                       language: LocalizedEntry -> string, normalize: string -> string, path: string,
                       conflicts: seq<MergeConflict>, winners: seq<Offer>, losers: seq<Offer>)
    requires SameTexts(key, language)
    requires ReportsEach(policy, media, paths, documents, select, key, normalize, path, conflicts, winners, losers)
    ensures ReportsEach(policy, media, paths, documents, select, language, normalize, path, conflicts, winners, losers)
  {
    forall w, o
      ensures Disagrees(policy, media, paths, documents, select, key, normalize, w, o) <==>
              Disagrees(policy, media, paths, documents, select, language, normalize, w, o)
    {
      SameDisagreement(policy, media, paths, documents, select, key, language, normalize, w, o);
    }
  }

  /** The conflicts of the loop over a localized field are the disagreements of its documents. */
  lemma LosersAreReported<T(!new), V>(policy: MergePolicy, media: MediaKind, paths: seq<string>,
                                      documents: seq<Sourced<T>>, part: T -> Option<V>,
                                      pick: V -> seq<LocalizedEntry>, key: LocalizedEntry -> string,
                                      select: T -> seq<LocalizedEntry>, language: LocalizedEntry -> string,
                                      normalize: string -> string, path: string, conflicts: seq<MergeConflict>)
    requires OffersItsPart(part, pick, select) && SameTexts(key, language)
    requires OnePerLoser(conflicts, Observations(Project(Parts(policy, media, paths, documents, part), pick)), key,
                         normalize, path)
    ensures Reports(policy, media, paths, documents, select, language, normalize, path, conflicts)
  {
    var turns := Turns(policy, media, paths, documents);
    var obs := Observations(Project(Parts(policy, media, paths, documents, part), pick));
    var line := Line(documents, select, turns);
    TurnsAscend(policy, media, paths, documents);
    assert forall i :: 0 <= i < |turns| ==> turns[i] in turns;
    LineIsObserved(documents, part, pick, select, turns);
    LineAscends(policy, media, paths, documents, select, turns);
    forall o | Offered(documents, select, o) ensures o in line { LineIff(documents, select, turns, o); }
    var lost :| IsLosers(lost, obs, key, normalize) && OneEach(conflicts, obs, key, path, lost);
    var winners, losers := WinnersAndLosers(policy, media, paths, documents, select, key, normalize, path, conflicts,
                                            obs, line, lost);
    SameReports(policy, media, paths, documents, select, key, language, normalize, path, conflicts, winners, losers);
  }
}

/** The de-duplicating folds that every merger runs over its ordered documents. */
module Retention {
  import opened MergePolicies
  import opened OrderedSets
  import opened Provenance

  // A language tag: the spelling as given, and the lower-case canonical form used for lookup.
  datatype LanguageTag = LanguageTag(original: string, normalized: string)

  datatype LocalizedEntry = Tagged(language: LanguageTag, text: string) | Untagged(text: string)

  datatype MergeConflict = MergeConflict(fieldPath: string, providers: seq<ProviderId>)

  // ----- observations: what the nested loops visit, in order -----

  function Observed<T>(document: Sourced<seq<T>>): seq<Sourced<T>> {
    seq(|document.value|, i requires 0 <= i < |document.value| => Sourced(document.value[i], document.source))
  }

  function Observations<T>(documents: seq<Sourced<seq<T>>>): seq<Sourced<T>> {
    if documents == [] then []
    else Observations(documents[..|documents| - 1]) + Observed(documents[|documents| - 1])
  }

  function Values<T>(obs: seq<Sourced<T>>): seq<T> {
    seq(|obs|, i requires 0 <= i < |obs| => obs[i].value)
  }

  function Sources<T>(obs: seq<Sourced<T>>): seq<SourceRef> {
    seq(|obs|, i requires 0 <= i < |obs| => obs[i].source)
  }

  // ----- the fold: an observation is kept unless it clashes with one kept before -----

  ghost predicate ClashesWithAny<T>(kept: seq<Sourced<T>>, value: T, clash: (T, T) -> bool) {
    exists k :: 0 <= k < |kept| && clash(kept[k].value, value)
  }

  ghost function Kept<T>(obs: seq<Sourced<T>>, clash: (T, T) -> bool): seq<Sourced<T>> {
    if obs == [] then []
    else
      var kept, last := Kept(obs[..|obs| - 1], clash), obs[|obs| - 1];
      if ClashesWithAny(kept, last.value, clash) then kept else kept + [last]
  }

  lemma KeptStep<T>(obs: seq<Sourced<T>>, next: Sourced<T>, clash: (T, T) -> bool)
    ensures Kept(obs + [next], clash) ==
            if ClashesWithAny(Kept(obs, clash), next.value, clash) then Kept(obs, clash)
            else Kept(obs, clash) + [next]
  {
    assert (obs + [next])[..|obs|] == obs;
  }

  // Reference definition: `picks` are the retained positions when each position is retained
  // exactly if no earlier retained one clashes with it.
  ghost predicate IsRetention<T>(obs: seq<Sourced<T>>, clash: (T, T) -> bool, picks: seq<nat>) {
    && StrictlyAscending(picks, NumberLess)
    && (forall i :: 0 <= i < |picks| ==> picks[i] < |obs|)
    && (forall n :: 0 <= n < |obs| ==> (n in picks <==> !Blocked(obs, clash, picks, n)))
  }

  ghost predicate Blocked<T>(obs: seq<Sourced<T>>, clash: (T, T) -> bool, picks: seq<nat>, n: nat)
    requires n < |obs|
  {
    exists i :: 0 <= i < |picks| && picks[i] < n && clash(obs[picks[i]].value, obs[n].value)
  }

  lemma AppendAscending(s: seq<nat>, n: nat)
    requires StrictlyAscending(s, NumberLess) && forall m :: m in s ==> m < n
    ensures StrictlyAscending(s + [n], NumberLess)
  {
    assert forall i :: 0 <= i < |s| ==> s[i] in s;
  }

  ghost function Picks<T>(obs: seq<Sourced<T>>, clash: (T, T) -> bool): (picks: seq<nat>)
    ensures StrictlyAscending(picks, NumberLess)
    ensures forall m :: m in picks ==> m < |obs|
  {
    if obs == [] then []
    else
      var n := |obs| - 1;
      var picks := Picks(obs[..n], clash);
      AppendAscending(picks, n);
      if ClashesWithAny(Kept(obs[..n], clash), obs[n].value, clash) then picks else picks + [n]
  }

  // Field values and their recorded sources are the retained observations, position by position.
  ghost predicate Aligned<T>(values: seq<T>, sources: seq<SourceRef>, obs: seq<Sourced<T>>, clash: (T, T) -> bool) {
    exists picks :: PicksAlign(values, sources, obs, clash, picks)
  }

  ghost predicate PicksAlign<T>(values: seq<T>, sources: seq<SourceRef>, obs: seq<Sourced<T>>,
                                clash: (T, T) -> bool, picks: seq<nat>)
  {
    && IsRetention(obs, clash, picks)
    && |values| == |sources| == |picks|
    && forall i :: 0 <= i < |picks| ==> values[i] == obs[picks[i]].value && sources[i] == obs[picks[i]].source
  }

  lemma BlockedInPrefix<T>(obs: seq<Sourced<T>>, clash: (T, T) -> bool, p: seq<nat>, q: seq<nat>, m: nat)
    requires m < |obs| - 1 && (q == p || q == p + [|obs| - 1])
    ensures Blocked(obs[..|obs| - 1], clash, p, m) <==> Blocked(obs, clash, q, m)
  {
    if Blocked(obs[..|obs| - 1], clash, p, m) {
      var i :| 0 <= i < |p| && p[i] < m && clash(obs[..|obs| - 1][p[i]].value, obs[m].value);
      assert q[i] == p[i];
    }
    if Blocked(obs, clash, q, m) {
      var i :| 0 <= i < |q| && q[i] < m && clash(obs[q[i]].value, obs[m].value);
      assert q[i] == p[i] && obs[..|obs| - 1][p[i]] == obs[p[i]];
    }
  }

  ghost predicate PicksSelect<T>(obs: seq<Sourced<T>>, picks: seq<nat>, kept: seq<Sourced<T>>) {
    |picks| == |kept| && forall i :: 0 <= i < |picks| ==> picks[i] < |obs| && kept[i] == obs[picks[i]]
  }

  lemma {:induction false} PicksSelectKept<T>(obs: seq<Sourced<T>>, clash: (T, T) -> bool)
    ensures PicksSelect(obs, Picks(obs, clash), Kept(obs, clash))
  {
    if obs != [] {
      PicksSelectKept(obs[..|obs| - 1], clash);
    }
  }

  lemma LastBlocked<T>(obs: seq<Sourced<T>>, clash: (T, T) -> bool, p: seq<nat>, q: seq<nat>, kept: seq<Sourced<T>>)
    requires obs != [] && PicksSelect(obs[..|obs| - 1], p, kept) && (q == p || q == p + [|obs| - 1])
    ensures ClashesWithAny(kept, obs[|obs| - 1].value, clash) <==> Blocked(obs, clash, q, |obs| - 1)
  {
    var n := |obs| - 1;
    if ClashesWithAny(kept, obs[n].value, clash) {
      var i :| 0 <= i < |kept| && clash(kept[i].value, obs[n].value);
      assert q[i] == p[i] && obs[q[i]] == kept[i];
    }
    if Blocked(obs, clash, q, n) {
      var i :| 0 <= i < |q| && q[i] < n && clash(obs[q[i]].value, obs[n].value);
      assert q[i] == p[i] && obs[q[i]] == kept[i];
    }
  }

  lemma RetentionGrows<T>(obs: seq<Sourced<T>>, clash: (T, T) -> bool, p: seq<nat>, q: seq<nat>)
    requires obs != [] && IsRetention(obs[..|obs| - 1], clash, p)
    requires StrictlyAscending(q, NumberLess)
    requires q == if Blocked(obs, clash, q, |obs| - 1) then p else p + [|obs| - 1]
    ensures IsRetention(obs, clash, q)
  {
    var n := |obs| - 1;
    forall i | 0 <= i < |p| ensures p[i] < n { assert p[i] < |obs[..n]|; }
    forall m | 0 <= m < n ensures m in q <==> !Blocked(obs, clash, q, m) {
      BlockedInPrefix(obs, clash, p, q, m);
      assert m in q <==> m in p;
    }
    assert n in q <==> !Blocked(obs, clash, q, n);
  }

  lemma {:induction false} PicksAreRetained<T>(obs: seq<Sourced<T>>, clash: (T, T) -> bool)
    ensures IsRetention(obs, clash, Picks(obs, clash))
  {
    if obs != [] {
      var n := |obs| - 1;
      PicksAreRetained(obs[..n], clash);
      PicksSelectKept(obs[..n], clash);
      LastBlocked(obs, clash, Picks(obs[..n], clash), Picks(obs, clash), Kept(obs[..n], clash));
      RetentionGrows(obs, clash, Picks(obs[..n], clash), Picks(obs, clash));
    }
  }

  /** The fold keeps exactly the retained positions and records exactly their sources. */
  lemma KeptIsAligned<T>(obs: seq<Sourced<T>>, clash: (T, T) -> bool)
    ensures Aligned(Values(Kept(obs, clash)), Sources(Kept(obs, clash)), obs, clash)
  {
    PicksAreRetained(obs, clash);
    PicksSelectKept(obs, clash);
    assert PicksAlign(Values(Kept(obs, clash)), Sources(Kept(obs, clash)), obs, clash, Picks(obs, clash));
  }

  lemma BlockedLikewise<T>(obs: seq<Sourced<T>>, clash: (T, T) -> bool, p: seq<nat>, q: seq<nat>, n: nat)
    requires n < |obs| && Blocked(obs, clash, p, n) && forall m :: 0 <= m < n && m in p ==> m in q
    ensures Blocked(obs, clash, q, n)
  {
    var i :| 0 <= i < |p| && p[i] < n && clash(obs[p[i]].value, obs[n].value);
    assert p[i] in q;
    var j :| 0 <= j < |q| && q[j] == p[i];
  }

  lemma {:induction false} SamePositions<T>(obs: seq<Sourced<T>>, clash: (T, T) -> bool, p: seq<nat>, q: seq<nat>,
                                            n: nat)
    requires IsRetention(obs, clash, p) && IsRetention(obs, clash, q)
    requires n <= |obs|
    ensures forall m :: 0 <= m < n ==> (m in p <==> m in q)
  {
    if n > 0 {
      SamePositions(obs, clash, p, q, n - 1);
      if Blocked(obs, clash, p, n - 1) { BlockedLikewise(obs, clash, p, q, n - 1); }
      if Blocked(obs, clash, q, n - 1) { BlockedLikewise(obs, clash, q, p, n - 1); }
    }
  }

  lemma {:induction false} FirstIsKept<T>(obs: seq<Sourced<T>>, clash: (T, T) -> bool)
    requires obs != []
    ensures Kept(obs, clash) != [] && Kept(obs, clash)[0] == obs[0]
  {
    if |obs| > 1 {
      FirstIsKept(obs[..|obs| - 1], clash);
    }
  }

  /** The reference definition determines values and sources. */
  lemma AlignedIsUnique<T>(obs: seq<Sourced<T>>, clash: (T, T) -> bool,
                           v: seq<T>, s: seq<SourceRef>, w: seq<T>, u: seq<SourceRef>)
    requires Aligned(v, s, obs, clash) && Aligned(w, u, obs, clash)
    ensures v == w && s == u
  {
    var p :| PicksAlign(v, s, obs, clash, p);
    var q :| PicksAlign(w, u, obs, clash, q);
    SamePositions(obs, clash, p, q, |obs|);
    forall m ensures m in p <==> m in q {
      if m in p || m in q { assert 0 <= m < |obs|; }
    }
    NumbersAreOrdered();
    ListingsAgree(p, q, NumberLess);
  }

  ghost predicate NoClash<T>(values: seq<T>, clash: (T, T) -> bool) {
    forall i, j :: 0 <= i < j < |values| ==> !clash(values[i], values[j])
  }

  lemma {:induction false} KeptDoesNotClash<T>(obs: seq<Sourced<T>>, clash: (T, T) -> bool)
    ensures NoClash(Values(Kept(obs, clash)), clash)
  {
    if obs != [] {
      var kept, last := Kept(obs[..|obs| - 1], clash), obs[|obs| - 1];
      KeptDoesNotClash(obs[..|obs| - 1], clash);
      if !ClashesWithAny(kept, last.value, clash) {
        var v := Values(kept + [last]);
        assert forall k :: 0 <= k < |kept| ==> v[k] == kept[k].value && v[k] == Values(kept)[k];
        forall i, j | 0 <= i < j < |v| ensures !clash(v[i], v[j]) {
          if j == |kept| { assert !clash(kept[i].value, last.value); }
          else { assert !clash(Values(kept)[i], Values(kept)[j]); }
        }
      }
    }
  }

  lemma LastDoesNotClash<T>(obs: seq<Sourced<T>>, clash: (T, T) -> bool)
    requires obs != [] && NoClash(Values(obs), clash)
    ensures NoClash(Values(obs[..|obs| - 1]), clash)
    ensures !ClashesWithAny(obs[..|obs| - 1], obs[|obs| - 1].value, clash)
  {
    var n := |obs| - 1;
    assert Values(obs[..n]) == Values(obs)[..n];
    forall k | 0 <= k < n ensures !clash(obs[..n][k].value, obs[n].value) {
      assert !clash(Values(obs)[k], Values(obs)[n]);
    }
  }

  /** Values that never clash are all kept. */
  lemma {:induction false} KeptIsFixed<T>(obs: seq<Sourced<T>>, clash: (T, T) -> bool)
    requires NoClash(Values(obs), clash)
    ensures Kept(obs, clash) == obs
  {
    if obs != [] {
      LastDoesNotClash(obs, clash);
      KeptIsFixed(obs[..|obs| - 1], clash);
      assert obs == obs[..|obs| - 1] + [obs[|obs| - 1]];
    }
  }

  // Two values clash when their keys are equal.
  function SameKey<T>(key: T -> string): (T, T) -> bool {
    (a, b) => key(a) == key(b)
  }

  // The position of the first observation with the key of observation i.
  ghost function FirstWith<T>(obs: seq<Sourced<T>>, key: T -> string, i: nat): (f: nat)
    requires i < |obs|
    ensures f <= i && key(obs[f].value) == key(obs[i].value)
    ensures forall m :: 0 <= m < f ==> key(obs[m].value) != key(obs[i].value)
  {
    FirstFrom(obs, key, i, 0)
  }

  ghost function FirstFrom<T>(obs: seq<Sourced<T>>, key: T -> string, i: nat, from: nat): (f: nat)
    requires from <= i < |obs|
    requires forall m :: 0 <= m < from ==> key(obs[m].value) != key(obs[i].value)
    ensures f <= i && key(obs[f].value) == key(obs[i].value)
    ensures forall m :: 0 <= m < f ==> key(obs[m].value) != key(obs[i].value)
    decreases i - from
  {
    if key(obs[from].value) == key(obs[i].value) then from else FirstFrom(obs, key, i, from + 1)
  }

  /** With a key, the retained positions are exactly the first occurrences. */
  lemma RetainedAreFirst<T>(obs: seq<Sourced<T>>, key: T -> string, picks: seq<nat>, n: nat)
    requires IsRetention(obs, SameKey(key), picks) && n < |obs|
    ensures n in picks <==> FirstWith(obs, key, n) == n
  {
    var f := FirstWith(obs, key, n);
    if f < n {
      assert FirstWith(obs, key, f) == f;
      RetainedAreFirst(obs, key, picks, f);
      var i :| 0 <= i < |picks| && picks[i] == f;
      assert SameKey(key)(obs[picks[i]].value, obs[n].value);
      assert Blocked(obs, SameKey(key), picks, n);
    } else {
      assert forall m :: 0 <= m < n ==> !SameKey(key)(obs[m].value, obs[n].value);
    }
  }

  // ----- conflicts of a localized field -----

  function LanguageKey(untagged: string): LocalizedEntry -> string {
    (e: LocalizedEntry) => if e.Tagged? then e.language.normalized else untagged
  }

  // Observation i loses: an earlier one holds its language with a different normalized text.
  ghost predicate Loses(obs: seq<Sourced<LocalizedEntry>>, key: LocalizedEntry -> string, normalize: string -> string,
                        i: nat)
    requires i < |obs|
  {
    normalize(obs[FirstWith(obs, key, i)].value.text) != normalize(obs[i].value.text)
  }

  // The conflict that names the winner and the loser.
  ghost function ConflictOf(obs: seq<Sourced<LocalizedEntry>>, key: LocalizedEntry -> string, path: string, i: nat)
    : MergeConflict
    requires i < |obs|
  {
    MergeConflict(Dotted(path, key(obs[i].value)),
                  [obs[FirstWith(obs, key, i)].source.provider, obs[i].source.provider])
  }

  // One conflict per losing observation among the first n, in order.
  ghost function Disagreements(obs: seq<Sourced<LocalizedEntry>>, key: LocalizedEntry -> string,
                               normalize: string -> string, path: string, n: nat): seq<MergeConflict>
    requires n <= |obs|
  {
    if n == 0 then []
    else
      Disagreements(obs, key, normalize, path, n - 1) +
      if Loses(obs, key, normalize, n - 1) then [ConflictOf(obs, key, path, n - 1)] else []
  }

  lemma DisagreementsStep(obs: seq<Sourced<LocalizedEntry>>, key: LocalizedEntry -> string,
                          normalize: string -> string, path: string, n: nat)
    requires n < |obs|
    ensures Disagreements(obs, key, normalize, path, n + 1) ==
            Disagreements(obs, key, normalize, path, n) +
            if Loses(obs, key, normalize, n) then [ConflictOf(obs, key, path, n)] else []
  {
  }

  lemma FirstWithoutClash(obs: seq<Sourced<LocalizedEntry>>, key: LocalizedEntry -> string, n: nat)
    requires n < |obs| && NoClash(Values(obs), SameKey(key))
    ensures FirstWith(obs, key, n) == n
  {
    forall m | 0 <= m < n ensures key(obs[m].value) != key(obs[n].value) {
      assert !SameKey(key)(Values(obs)[m], Values(obs)[n]);
    }
  }

  lemma {:induction false} NoDisagreements(obs: seq<Sourced<LocalizedEntry>>, key: LocalizedEntry -> string,
                                           normalize: string -> string, path: string, n: nat)
    requires n <= |obs| && NoClash(Values(obs), SameKey(key))
    ensures Disagreements(obs, key, normalize, path, n) == []
  {
    if n > 0 {
      NoDisagreements(obs, key, normalize, path, n - 1);
      FirstWithoutClash(obs, key, n - 1);
    }
  }

  lemma ConflictOfPrefix(obs: seq<Sourced<LocalizedEntry>>, all: seq<Sourced<LocalizedEntry>>,
                         key: LocalizedEntry -> string, normalize: string -> string, path: string, n: nat)
    requires obs <= all && n < |obs|
    ensures Loses(all, key, normalize, n) == Loses(obs, key, normalize, n)
    ensures ConflictOf(all, key, path, n) == ConflictOf(obs, key, path, n)
  {
    var f, g := FirstWith(obs, key, n), FirstWith(all, key, n);
    assert all[f] == obs[f] && all[g] == obs[g] && all[n] == obs[n];
    assert f == g;
  }

  lemma {:induction false} DisagreementsOfPrefix(obs: seq<Sourced<LocalizedEntry>>, all: seq<Sourced<LocalizedEntry>>,
                                                 key: LocalizedEntry -> string, normalize: string -> string,
                                                 path: string, n: nat)
    requires obs <= all && n <= |obs|
    ensures Disagreements(all, key, normalize, path, n) == Disagreements(obs, key, normalize, path, n)
  {
    if n > 0 {
      DisagreementsOfPrefix(obs, all, key, normalize, path, n - 1);
      ConflictOfPrefix(obs, all, key, normalize, path, n - 1);
    }
  }

  // The losing observations among the first n, in order.
  ghost function Losers(obs: seq<Sourced<LocalizedEntry>>, key: LocalizedEntry -> string,
                        normalize: string -> string, n: nat): seq<nat>
    requires n <= |obs|
  {
    if n == 0 then []
    else Losers(obs, key, normalize, n - 1) + if Loses(obs, key, normalize, n - 1) then [n - 1] else []
  }

  lemma {:induction false} LosersIff(obs: seq<Sourced<LocalizedEntry>>, key: LocalizedEntry -> string,
                                     normalize: string -> string, n: nat, m: nat)
    requires n <= |obs|
    ensures m in Losers(obs, key, normalize, n) <==> m < n && Loses(obs, key, normalize, m)
  {
    if n > 0 { LosersIff(obs, key, normalize, n - 1, m); }
  }

  lemma {:induction false} LosersAscend(obs: seq<Sourced<LocalizedEntry>>, key: LocalizedEntry -> string,
                                        normalize: string -> string, n: nat)
    requires n <= |obs|
    ensures StrictlyAscending(Losers(obs, key, normalize, n), NumberLess)
  {
    if n > 0 {
      var before := Losers(obs, key, normalize, n - 1);
      LosersAscend(obs, key, normalize, n - 1);
      forall m | m in before ensures m < n - 1 { LosersIff(obs, key, normalize, n - 1, m); }
      AppendAscending(before, n - 1);
    }
  }

  lemma LosersAreLosers(obs: seq<Sourced<LocalizedEntry>>, key: LocalizedEntry -> string, normalize: string -> string)
    ensures IsLosers(Losers(obs, key, normalize, |obs|), obs, key, normalize)
  {
    LosersAscend(obs, key, normalize, |obs|);
    forall m: nat ensures m in Losers(obs, key, normalize, |obs|) <==> m < |obs| && Loses(obs, key, normalize, m) {
      LosersIff(obs, key, normalize, |obs|, m);
    }
  }

  // The conflicts name the losers, one by one.
  ghost predicate OneEach(conflicts: seq<MergeConflict>, obs: seq<Sourced<LocalizedEntry>>,
                          key: LocalizedEntry -> string, path: string, losers: seq<nat>)
  {
    |conflicts| == |losers| &&
    forall i :: 0 <= i < |losers| ==> losers[i] < |obs| && conflicts[i] == ConflictOf(obs, key, path, losers[i])
  }

  lemma OneEachMore(conflicts: seq<MergeConflict>, obs: seq<Sourced<LocalizedEntry>>, key: LocalizedEntry -> string,
                    path: string, losers: seq<nat>, n: nat)
    requires OneEach(conflicts, obs, key, path, losers) && n < |obs|
    ensures OneEach(conflicts + [ConflictOf(obs, key, path, n)], obs, key, path, losers + [n])
    ensures conflicts + [] == conflicts
  {
  }

  lemma {:induction false} ConflictsNameLosers(obs: seq<Sourced<LocalizedEntry>>, key: LocalizedEntry -> string,
                                               normalize: string -> string, path: string, n: nat)
    requires n <= |obs|
    ensures OneEach(Disagreements(obs, key, normalize, path, n), obs, key, path, Losers(obs, key, normalize, n))
  {
    if n > 0 {
      var conflicts, losers := Disagreements(obs, key, normalize, path, n - 1), Losers(obs, key, normalize, n - 1);
      ConflictsNameLosers(obs, key, normalize, path, n - 1);
      OneEachMore(conflicts, obs, key, path, losers, n - 1);
      assert losers + [] == losers;
      DisagreementsStep(obs, key, normalize, path, n - 1);
    }
  }

  // The positions that lose, each once, in order.
  ghost predicate IsLosers(losers: seq<nat>, obs: seq<Sourced<LocalizedEntry>>, key: LocalizedEntry -> string,
                           normalize: string -> string)
  {
    && StrictlyAscending(losers, NumberLess)
    && forall m: nat :: m in losers <==> m < |obs| && Loses(obs, key, normalize, m)
  }

  // The reference: one conflict for each entry that disagrees with the first of its language, in order, naming the
  // winner and the loser.
  ghost predicate OnePerLoser(conflicts: seq<MergeConflict>, obs: seq<Sourced<LocalizedEntry>>,
                              key: LocalizedEntry -> string, normalize: string -> string, path: string)
  {
    exists losers :: IsLosers(losers, obs, key, normalize) && OneEach(conflicts, obs, key, path, losers)
  }

  /** The conflicts of a field are exactly one for each entry that disagrees with the first of its language, in order;
      no other list is. */
  lemma DisagreementsIff(obs: seq<Sourced<LocalizedEntry>>, key: LocalizedEntry -> string,
                         normalize: string -> string, path: string, conflicts: seq<MergeConflict>)
    ensures conflicts == Disagreements(obs, key, normalize, path, |obs|) <==>
            OnePerLoser(conflicts, obs, key, normalize, path)
  {
    var own := Losers(obs, key, normalize, |obs|);
    ConflictsNameLosers(obs, key, normalize, path, |obs|);
    LosersAreLosers(obs, key, normalize);
    if losers :| IsLosers(losers, obs, key, normalize) && OneEach(conflicts, obs, key, path, losers) {
      NumbersAreOrdered();
      ListingsAgree(losers, own, NumberLess);
    }
  }
}

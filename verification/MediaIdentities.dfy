/** When a merge takes two values for the same, said of their fields. */
module MediaIdentities {
  import opened Media
  import opened Options

  // ----- text with a tail behind a separator -----

  lemma TailsAgree(a: string, s: string, b: string, t: string, c: char)
    requires c !in s && c !in t
    ensures a + [c] + s == b + [c] + t <==> a == b && s == t
  {
    if a + [c] + s == b + [c] + t {
      var whole := a + [c] + s;
      assert whole[|a|] == c && whole[|b|] == c;
      assert forall i :: |a| < i < |whole| ==> whole[i] == s[i - |a| - 1];
      assert forall i :: |b| < i < |whole| ==> whole[i] == t[i - |b| - 1];
      assert |a| == |b|;
      assert whole[..|a|] == a && whole[..|b|] == b && whole[|a| + 1..] == s && whole[|b| + 1..] == t;
    }
  }

  lemma HeadsAgree(a: string, s: string, b: string, t: string, c: char)
    requires c !in a && c !in b
    ensures a + [c] + s == b + [c] + t <==> a == b && s == t
  {
    if a + [c] + s == b + [c] + t {
      var whole := a + [c] + s;
      assert whole[|a|] == c && whole[|b|] == c;
      assert forall i :: 0 <= i < |a| ==> whole[i] == a[i];
      assert forall i :: 0 <= i < |b| ==> whole[i] == b[i];
      assert |a| == |b|;
      assert whole[..|a|] == a && whole[..|b|] == b && whole[|a| + 1..] == s && whole[|b| + 1..] == t;
    }
  }

  // The length and the first letters tell names apart.
  function Mark(name: string): (nat, char, char) {
    if |name| < 2 then (0, ' ', ' ') else (|name|, name[0], name[1])
  }

  // ----- credits -----

  lemma RoleNames(a: CreditRole, b: CreditRole)
    ensures ':' !in a.Name()
    ensures a.Name() == b.Name() ==> a == b
  {
    assert a != b ==> Mark(a.Name()) != Mark(b.Name());
  }

  // The same person, or the same name in the same role.
  ghost function SameContribution(unicode: Unicode): (Credit, Credit) -> bool {
    (a: Credit, b: Credit) =>
      || a.person.id == b.person.id
      || (a.role == b.role && unicode.Normalize(a.person.name) == unicode.Normalize(b.person.name))
  }

  lemma CreditsClashIff(unicode: Unicode, a: Credit, b: Credit)
    ensures SameCredit(unicode)(a, b) <==> SameContribution(unicode)(a, b)
  {
    var x, y := unicode.Normalize(a.person.name), unicode.Normalize(b.person.name);
    RoleNames(a.role, b.role);
    RoleNames(b.role, a.role);
    TailsAgree(x, a.role.Name(), y, b.role.Name(), ':');
    assert x + ":" + a.role.Name() == x + [':'] + a.role.Name();
    assert y + ":" + b.role.Name() == y + [':'] + b.role.Name();
  }

  // ----- artwork -----

  lemma KindNames(a: ArtworkKind, b: ArtworkKind)
    ensures ':' !in a.Name()
    ensures a.Name() == b.Name() ==> a == b
  {
    assert a != b ==> Mark(a.Name()) != Mark(b.Name());
  }

  // The same printed identifier, or, without any, the same kind and normalized location.
  ghost function SameArtwork(unicode: Unicode): (ArtworkReference, ArtworkReference) -> bool {
    (a: ArtworkReference, b: ArtworkReference) =>
      match (a.externalId, b.externalId)
      case (None, None) => a.kind == b.kind && unicode.Normalize(a.location) == unicode.Normalize(b.location)
      case (Some(x), Some(y)) => x.namespace + ":" + x.value == y.namespace + ":" + y.value
      case _ => false
  }

  lemma Behind(prefix: string, a: string, b: string)
    ensures prefix + a == prefix + b <==> a == b
  {
    assert (prefix + a)[|prefix|..] == a && (prefix + b)[|prefix|..] == b;
  }

  lemma PlacedArtwork(unicode: Unicode, a: ArtworkReference, b: ArtworkReference)
    requires a.externalId.None? && b.externalId.None?
    ensures ArtworkKey(unicode)(a) == ArtworkKey(unicode)(b) <==> SameArtwork(unicode)(a, b)
  {
    var x, y := unicode.Normalize(a.location), unicode.Normalize(b.location);
    KindNames(a.kind, b.kind);
    KindNames(b.kind, a.kind);
    HeadsAgree(a.kind.Name(), x, b.kind.Name(), y, ':');
    Behind("identity:", a.kind.Name() + [':'] + x, b.kind.Name() + [':'] + y);
    assert ArtworkKey(unicode)(a) == "identity:" + (a.kind.Name() + [':'] + x);
    assert ArtworkKey(unicode)(b) == "identity:" + (b.kind.Name() + [':'] + y);
  }

  lemma NamedArtwork(unicode: Unicode, a: ArtworkReference, b: ArtworkReference)
    requires a.externalId.Some? && b.externalId.Some?
    ensures ArtworkKey(unicode)(a) == ArtworkKey(unicode)(b) <==> SameArtwork(unicode)(a, b)
  {
    var x, y := a.externalId.value, b.externalId.value;
    Behind("id:", x.namespace + ":" + x.value, y.namespace + ":" + y.value);
    assert ArtworkKey(unicode)(a) == "id:" + (x.namespace + ":" + x.value);
    assert ArtworkKey(unicode)(b) == "id:" + (y.namespace + ":" + y.value);
  }

  lemma ArtworkClashesIff(unicode: Unicode, a: ArtworkReference, b: ArtworkReference)
    ensures ArtworkKey(unicode)(a) == ArtworkKey(unicode)(b) <==> SameArtwork(unicode)(a, b)
  {
    if a.externalId.None? && b.externalId.None? {
      PlacedArtwork(unicode, a, b);
    } else if a.externalId.Some? && b.externalId.Some? {
      NamedArtwork(unicode, a, b);
    } else {
      assert ArtworkKey(unicode)(a)[2] != ArtworkKey(unicode)(b)[2];
    }
  }
}

/** Value objects shared by the media domains, and the keys that identify them in a merge. */
module Media {
  import opened Options
  import opened Provenance

  // What the Unicode tables decide: whitespace, control characters and case mapping.
  datatype Unicode = Unicode(
    isWhitespace: char -> bool,
    isControl: char -> bool,
    lower: string -> string,
    upper: string -> string)
  {
    // Collapses whitespace to single blanks, then lower-cases.
    function Normalize(value: string): string {
      lower(Join(Words(value, "", isWhitespace), " "))
    }
  }

  // `split_whitespace`: the maximal runs of other characters; `word` is the run being read.
  function Words(value: string, word: string, isWhitespace: char -> bool): seq<string>
    decreases |value|
  {
    if value == "" then if word == "" then [] else [word]
    else if isWhitespace(value[0]) then
      (if word == "" then [] else [word]) + Words(value[1..], "", isWhitespace)
    else Words(value[1..], word + [value[0]], isWhitespace)
  }

  function Join(words: seq<string>, separator: string): string {
    if words == [] then ""
    else if |words| == 1 then words[0]
    else words[0] + separator + Join(words[1..], separator)
  }

  datatype Person = Person(id: string, name: string)

  datatype CreditRole =
    Director | Writer | Actor | Author | Editor | Translator | Performer | Composer | Producer
  {
    function Name(): string {
      match this
      case Director => "Director"
      case Writer => "Writer"
      case Actor => "Actor"
      case Author => "Author"
      case Editor => "Editor"
      case Translator => "Translator"
      case Performer => "Performer"
      case Composer => "Composer"
      case Producer => "Producer"
    }
  }

  datatype Credit = Credit(person: Person, role: CreditRole, character: Option<string>)

  datatype ArtworkKind = Poster | Backdrop | Banner | Logo | Cover | Profile {
    function Name(): string {
      match this
      case Poster => "Poster"
      case Backdrop => "Backdrop"
      case Banner => "Banner"
      case Logo => "Logo"
      case Cover => "Cover"
      case Profile => "Profile"
    }
  }

  datatype ArtworkReference = ArtworkReference(kind: ArtworkKind, location: string, externalId: Option<ExternalId>)

  function ArtworkKey(unicode: Unicode): ArtworkReference -> string {
    (a: ArtworkReference) =>
      match a.externalId
      case None => "identity:" + a.kind.Name() + ":" + unicode.Normalize(a.location)
      case Some(id) => "id:" + id.namespace + ":" + id.value
  }

  function CreditIdentity(unicode: Unicode, credit: Credit): string {
    unicode.Normalize(credit.person.name) + ":" + credit.role.Name()
  }

  // Two credits clash when the person or the normalized name and role is the same.
  function SameCredit(unicode: Unicode): (Credit, Credit) -> bool {
    (a: Credit, b: Credit) =>
      a.person.id == b.person.id || CreditIdentity(unicode, a) == CreditIdentity(unicode, b)
  }

  datatype OrderingScheme = Aired | Dvd | Absolute

  datatype Rating = Rating(system: string, value: real, maximum: real)

  datatype ContentRating = ContentRating(system: string, value: string)
}

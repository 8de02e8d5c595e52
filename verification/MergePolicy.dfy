/** Provider precedence: which source wins a field (`merge/policy.rs`). */
module MergePolicies {

  type ProviderId = string

  datatype MediaKind = Movies | Television | Anime | Music | Books

  // The rank of a provider that an order does not mention (`usize::MAX`).
  const UNRANKED: nat := 0xFFFF_FFFF_FFFF_FFFF

  // A dotted path: non-empty segments of ASCII letters, digits, '_' and '-'.
  predicate SegmentChar(c: char) {
    'a' <= c <= 'z' || 'A' <= c <= 'Z' || '0' <= c <= '9' || c == '_' || c == '-'
  }

  predicate ValidPath(p: string) {
    && p != ""
    && (forall i :: 0 <= i < |p| ==> SegmentChar(p[i]) || p[i] == '.')
    && p[0] != '.' && p[|p| - 1] != '.'
    && (forall i :: 0 <= i < |p| - 1 ==> p[i] != '.' || p[i + 1] != '.')
  }

  predicate ValidSegment(p: string) {
    p != "" && forall i :: 0 <= i < |p| ==> SegmentChar(p[i])
  }

  function Dotted(base: string, segment: string): string {
    base + "." + segment
  }

  lemma DottedIsValid(base: string, segment: string)
    requires ValidPath(base) && ValidSegment(segment)
    ensures ValidPath(Dotted(base, segment))
  {
    var p := Dotted(base, segment);
    assert forall i :: 0 <= i < |base| ==> p[i] == base[i];
    assert p[|base|] == '.';
    assert forall i :: 0 <= i < |segment| ==> p[|base| + 1 + i] == segment[i];
    forall i | 0 <= i < |p| ensures SegmentChar(p[i]) || p[i] == '.' {
      if i > |base| { assert p[i] == segment[i - |base| - 1]; }
    }
    forall i | 0 <= i < |p| - 1 ensures p[i] != '.' || p[i + 1] != '.' {
      if i >= |base| { assert p[i + 1] == segment[i - |base|]; }
    }
    assert p[|p| - 1] == segment[|segment| - 1];
  }

  datatype MergePolicy = MergePolicy(
    globalOrder: seq<ProviderId>,
    mediaOrder: map<MediaKind, seq<ProviderId>>,
    fieldOrder: map<string, seq<ProviderId>>)
  {
    // Field order, then media order, then global order.
    function OrderFor(media: MediaKind, path: string): seq<ProviderId> {
      if path in fieldOrder then fieldOrder[path]
      else if media in mediaOrder then mediaOrder[media]
      else globalOrder
    }

    function Rank(media: MediaKind, path: string, provider: ProviderId): nat {
      Position(OrderFor(media, path), provider)
    }
  }

  function Position(order: seq<ProviderId>, provider: ProviderId): nat {
    if order == [] then UNRANKED
    else if order[0] == provider then 0
    else var p := Position(order[1..], provider);
         if p == UNRANKED then UNRANKED else p + 1
  }

  ghost predicate Distinct<T>(s: seq<T>) {
    forall i, j :: 0 <= i < j < |s| ==> s[i] != s[j]
  }

  // The first occurrences, in order.
  function Deduplicated(order: seq<ProviderId>): (r: seq<ProviderId>)
    ensures Distinct(r)
    ensures forall p :: p in r <==> p in order
  {
    if order == [] then []
    else
      var rest := Deduplicated(order[..|order| - 1]);
      var last := order[|order| - 1];
      assert order == order[..|order| - 1] + [last];
      if last in rest then rest else rest + [last]
  }

  method Deduplicate(order: seq<ProviderId>) returns (result: seq<ProviderId>)
    ensures result == Deduplicated(order)
  {
    result := [];
    for i := 0 to |order|
      invariant result == Deduplicated(order[..i])
    {
      assert order[..i + 1][..i] == order[..i];
      if order[i] !in result {
        result := result + [order[i]];
      }
    }
    assert order[..|order|] == order;
  }
}

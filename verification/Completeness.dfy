/** How complete a merged document is: the share of a checklist, and the warning that something is missing. */
module Completeness {

  datatype ResolutionWarning = IncompleteMetadata

  function Present(checklist: seq<bool>): (n: nat)
    ensures n <= |checklist|
  {
    if checklist == [] then 0 else Present(checklist[1..]) + if checklist[0] then 1 else 0
  }

  function Count(present: bool): nat { if present then 1 else 0 }

  lemma PresentFrom(checklist: seq<bool>, i: nat)
    requires i < |checklist|
    ensures Present(checklist[i..]) == Count(checklist[i]) + Present(checklist[i + 1..])
  {
    assert checklist[i..][1..] == checklist[i + 1..];
  }

  // The share of the checklist, without the rounding of single-precision division.
  function Share(checklist: seq<bool>): real
    requires checklist != []
  {
    Present(checklist) as real / |checklist| as real
  }

  function WarningsFor(completeness: real): seq<ResolutionWarning> {
    if completeness < 1.0 then [IncompleteMetadata] else []
  }

  lemma {:induction false} AllPresentIff(checklist: seq<bool>)
    ensures Present(checklist) == |checklist| <==> forall i :: 0 <= i < |checklist| ==> checklist[i]
  {
    if checklist != [] {
      AllPresentIff(checklist[1..]);
      assert forall i :: 0 < i < |checklist| ==> checklist[i] == checklist[1..][i - 1];
    }
  }

  lemma QuotientIsOneIff(a: real, b: real)
    requires 0.0 <= a <= b && b > 0.0
    ensures 0.0 <= a / b <= 1.0 && (a / b < 1.0 <==> a < b)
  {
    assert a / b * b == a;
  }

  // A share is a fraction, and warns exactly when something on the list is missing.
  lemma WarnsIffIncomplete(checklist: seq<bool>)
    requires checklist != []
    ensures 0.0 <= Share(checklist) <= 1.0
    ensures WarningsFor(Share(checklist)) == [] <==> forall i :: 0 <= i < |checklist| ==> checklist[i]
  {
    AllPresentIff(checklist);
    QuotientIsOneIff(Present(checklist) as real, |checklist| as real);
  }
}

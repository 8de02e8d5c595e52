/** The dotted field paths under which orders and provenance are kept. */
module FieldPaths {
  import opened Media
  import opened MergePolicies

  // One part of a path: ASCII letters, digits, '_' and '-', and at least one of them.
  predicate Segment(p: string) {
    p != "" && forall c :: c in p ==>
      'a' <= c <= 'z' || 'A' <= c <= 'Z' || '0' <= c <= '9' || c == '_' || c == '-'
  }

  lemma DotBetween(segment: string, rest: string)
    requires Segment(segment) && ValidPath(rest)
    ensures ValidPath(segment + "." + rest)
  {
    var p, n := segment + "." + rest, |segment|;
    assert forall i :: 0 <= i < n ==> p[i] == segment[i] && p[i] in segment;
    assert p[n] == '.';
    assert forall i :: 0 <= i < |rest| ==> p[n + 1 + i] == rest[i];
    forall i | 0 <= i < |p| ensures SegmentChar(p[i]) || p[i] == '.' {
      if i > n { assert p[i] == rest[i - n - 1]; }
    }
    forall i | 0 <= i < |p| - 1 ensures p[i] != '.' || p[i + 1] != '.' {
      if i >= n { assert p[i + 1] == rest[i - n]; }
    }
    assert p[|p| - 1] == rest[|rest| - 1];
  }

  lemma SegmentIsPath(segment: string)
    requires Segment(segment)
    ensures ValidPath(segment)
  {
    assert forall i :: 0 <= i < |segment| ==> segment[i] in segment;
  }

  lemma {:induction false} SegmentsMakeAPath(segments: seq<string>)
    requires segments != [] && forall s :: s in segments ==> Segment(s)
    ensures ValidPath(Join(segments, "."))
  {
    var first, rest := segments[0], segments[1..];
    assert first in segments && forall s :: s in rest ==> s in segments;
    SegmentIsPath(first);
    if rest != [] {
      SegmentsMakeAPath(rest);
      DotBetween(first, Join(rest, "."));
    }
  }

  // One more character in front of the first segment.
  lemma Lengthened(c: char, others: seq<string>) returns (segments: seq<string>)
    requires Segment([c]) && others != [] && forall s :: s in others ==> Segment(s)
    ensures segments != [] && (forall s :: s in segments ==> Segment(s))
    ensures Join(segments, ".") == [c] + Join(others, ".")
  {
    var first := [c] + others[0];
    segments := [first] + others[1..];
    assert Segment(first) by {
      assert Segment(others[0]) && c in [c];
      assert forall x :: x in first ==> x == c || x in others[0];
    }
    assert segments[1..] == others[1..];
  }

  lemma {:induction false} PathHasSegments(p: string) returns (segments: seq<string>)
    requires ValidPath(p)
    ensures segments != [] && (forall s :: s in segments ==> Segment(s)) && p == Join(segments, ".")
    decreases |p|
  {
    assert p[0] != '.' && Segment([p[0]]);
    if |p| == 1 {
      segments := [p];
      assert p == [p[0]];
      return;
    }
    var n := if p[1] == '.' then 2 else 1;
    var rest := p[n..];
    assert forall i :: 0 <= i < |rest| ==> rest[i] == p[n + i];
    var others := PathHasSegments(rest);
    if p[1] == '.' {
      segments := [[p[0]]] + others;
      assert segments[1..] == others;
      assert p == [p[0]] + "." + rest;
    } else {
      segments := Lengthened(p[0], others);
      assert p == [p[0]] + rest;
    }
  }

  /** A path is valid exactly when it is made of segments with a dot between any two neighbours. */
  lemma ValidPathIff(p: string)
    ensures ValidPath(p) <==>
            exists segments :: segments != [] && (forall s :: s in segments ==> Segment(s)) && p == Join(segments, ".")
  {
    if ValidPath(p) { var segments := PathHasSegments(p); }
    forall segments | segments != [] && (forall s :: s in segments ==> Segment(s)) && p == Join(segments, ".") {
      SegmentsMakeAPath(segments);
    }
  }
}

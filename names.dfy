/**
 * The street-name continuity test (checkNameContinuity, identical in both
 * scripts): every segment after the first must share a street id with the
 * name set of the first segment.
 */
module NameContinuity {
  import opened Editor

  /** The name set built from the first segment: its primary id when positive, then every alternate id. */
  function FirstSegmentNames(s: Segment): (names: seq<int>)
    ensures forall id :: id in names <==> (id == s.primaryStreetId && id > 0) || id in s.streetIds
  {
    (if s.primaryStreetId > 0 then [s.primaryStreetId] else []) + s.streetIds
  }

  /** A later segment passes when its positive primary id, or any of its alternate ids, is in names. */
  predicate SharesName(s: Segment, names: seq<int>) {
    (s.primaryStreetId > 0 && s.primaryStreetId in names)
    || exists j :: 0 <= j < |s.streetIds| && s.streetIds[j] in names
  }

  /** The selection's names are continuous when every segment after the first shares a name with the first. */
  predicate NamesContinuous(segs: seq<Segment>) {
    forall i :: 1 <= i < |segs| ==> SharesName(segs[i], FirstSegmentNames(segs[0]))
  }

  /** Whether some alternate id of s is in names, as the inner loop with its `break` decides it. */
  method AnyAlternateIn(s: Segment, names: seq<int>) returns (included: bool)
    ensures included <==> exists j :: 0 <= j < |s.streetIds| && s.streetIds[j] in names
  {
    included := false;
    var idx2 := 0;
    while idx2 < |s.streetIds|
      invariant 0 <= idx2 <= |s.streetIds|
      invariant forall j :: 0 <= j < idx2 ==> s.streetIds[j] !in names
    {
      if s.streetIds[idx2] in names {
        included := true;
        return;
      }
      idx2 := idx2 + 1;
    }
  }

  /** checkNameContinuity: seeds the id list from the first segment and returns false at the first later segment that shares none. */
  method CheckNameContinuity(segs: seq<Segment>) returns (ok: bool)
    ensures ok == NamesContinuous(segs)
  {
    var streetIds: seq<int> := [];
    var idx := 0;
    while idx < |segs|
      invariant 0 <= idx <= |segs|
      invariant idx == 0 ==> streetIds == []
      invariant idx > 0 ==> streetIds == FirstSegmentNames(segs[0])
      invariant forall i :: 1 <= i < idx ==> SharesName(segs[i], FirstSegmentNames(segs[0]))
    {
      var s := segs[idx];
      if idx > 0 {
        if s.primaryStreetId > 0 && s.primaryStreetId in streetIds {
          idx := idx + 1;
          continue;
        }
        if |s.streetIds| > 0 {
          var included := AnyAlternateIn(s, streetIds);
          if included {
            idx := idx + 1;
            continue;
          } else {
            return false;
          }
        }
        return false;
      }
      if idx == 0 {
        if s.primaryStreetId > 0 {
          streetIds := streetIds + [s.primaryStreetId];
        }
        if |s.streetIds| > 0 {
          streetIds := streetIds + s.streetIds;
        }
      }
      idx := idx + 1;
    }
    return true;
  }

  /** Every selection of at most one segment has continuous names. */
  lemma ShortSelectionsAreContinuous(segs: seq<Segment>)
    requires |segs| <= 1
    ensures NamesContinuous(segs)
  {
  }

  /** A later segment with no positive primary id and no alternates always breaks continuity. */
  lemma UnnamedSegmentBreaksContinuity(segs: seq<Segment>, i: int)
    requires 1 <= i < |segs|
    requires segs[i].primaryStreetId <= 0 && segs[i].streetIds == []
    ensures !NamesContinuous(segs)
  {
    assert !SharesName(segs[i], FirstSegmentNames(segs[0]));
  }

  /**
   * The test compares each segment with the first one only: segments
   * {1, 2}, {2, 3}, {1} pass, although no id is common to all three,
   * while {1, 2}, {2, 3}, {4} fail at the third segment.
   */
  lemma ComparesWithFirstSegmentOnly()
    ensures NamesContinuous([Segment(1, 0, 0, [], 1, [2]), Segment(2, 0, 0, [], 2, [3]), Segment(3, 0, 0, [], 0, [1])])
    ensures !NamesContinuous([Segment(1, 0, 0, [], 1, [2]), Segment(2, 0, 0, [], 2, [3]), Segment(3, 0, 0, [], 4, [])])
  {
    var names := FirstSegmentNames(Segment(1, 0, 0, [], 1, [2]));
    assert names == [1, 2];
    assert Segment(3, 0, 0, [], 0, [1]).streetIds[0] in names;
    var segs := [Segment(1, 0, 0, [], 1, [2]), Segment(2, 0, 0, [], 2, [3]), Segment(3, 0, 0, [], 4, [])];
    assert FirstSegmentNames(segs[0]) == names;
    assert !SharesName(segs[2], names);
  }
}

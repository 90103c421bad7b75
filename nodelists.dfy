/**
 * The node-id lists doStraightenSegments derives from a selection: every
 * from/to id in order, the distinct ids, the ids seen more than once
 * (interior junctions), and the filtered lists built from them.
 */
module NodeLists {
  import opened Editor

  predicate NoDuplicates(s: seq<NodeId>) {
    forall i, j :: 0 <= i < j < |s| ==> s[i] != s[j]
  }

  /** How often id occurs in s. */
  function Count(s: seq<NodeId>, id: NodeId): nat {
    if s == [] then 0
    else Count(s[..|s| - 1], id) + if s[|s| - 1] == id then 1 else 0
  }

  /** Occurrences in a concatenation add up. */
  lemma {:induction false} CountConcat(a: seq<NodeId>, b: seq<NodeId>, id: NodeId)
    ensures Count(a + b, id) == Count(a, id) + Count(b, id)
  {
    if b == [] {
      assert a + b == a;
    } else {
      assert (a + b)[..|a + b| - 1] == a + b[..|b| - 1];
      CountConcat(a, b[..|b| - 1], id);
    }
  }

  /** An id occurs in s exactly when it is counted there. */
  lemma {:induction false} CountPositive(s: seq<NodeId>, id: NodeId)
    ensures id in s <==> Count(s, id) > 0
  {
    if s != [] {
      var init := s[..|s| - 1];
      assert s == init + [s[|s| - 1]];
      CountPositive(init, id);
    }
  }

  /** allNodeIds: the from and to node of every selected segment, in selection order. */
  function NodeIds(segs: seq<Segment>): (r: seq<NodeId>)
    ensures |r| == 2 * |segs|
    ensures forall i :: 0 <= i < |segs| ==> r[2 * i] == segs[i].fromNode && r[2 * i + 1] == segs[i].toNode
  {
    if segs == [] then []
    else
      var init := NodeIds(segs[..|segs| - 1]);
      var last := segs[|segs| - 1];
      assert forall i :: 0 <= i < |segs| - 1 ==> init[2 * i] == segs[i].fromNode && init[2 * i + 1] == segs[i].toNode;
      init + [last.fromNode, last.toNode]
  }

  /** Appending a segment appends its two end nodes. */
  lemma NodeIdsSnoc(segs: seq<Segment>, s: Segment)
    ensures NodeIds(segs + [s]) == NodeIds(segs) + [s.fromNode] + [s.toNode]
  {
    assert (segs + [s])[..|segs + [s]| - 1] == segs;
  }

  /** The ids of a selection are exactly the end nodes of its segments. */
  lemma {:induction false} InNodeIds(segs: seq<Segment>, id: NodeId)
    ensures id in NodeIds(segs) <==> exists i :: 0 <= i < |segs| && (segs[i].fromNode == id || segs[i].toNode == id)
  {
    var r := NodeIds(segs);
    if id in r {
      var k :| 0 <= k < |r| && r[k] == id;
      var i := k / 2;
      assert k == 2 * i || k == 2 * i + 1;
      assert segs[i].fromNode == id || segs[i].toNode == id;
    }
    if exists i :: 0 <= i < |segs| && (segs[i].fromNode == id || segs[i].toNode == id) {
      var i :| 0 <= i < |segs| && (segs[i].fromNode == id || segs[i].toNode == id);
      assert r[2 * i] == segs[i].fromNode && r[2 * i + 1] == segs[i].toNode;
    }
  }

  /** distinctNodes: the ids of s without repeats, in first-occurrence order, as a set built from s keeps them. */
  function Distinct(s: seq<NodeId>): (r: seq<NodeId>)
    ensures forall id :: id in r <==> id in s
  {
    if s == [] then []
    else
      var d := Distinct(s[..|s| - 1]);
      var x := s[|s| - 1];
      assert forall id :: id in s <==> id in s[..|s| - 1] || id == x by {
        assert s == s[..|s| - 1] + [x];
      }
      if x in d then d else d + [x]
  }

  /** No id is listed twice by Distinct. */
  lemma {:induction false} DistinctNoDuplicates(s: seq<NodeId>)
    ensures NoDuplicates(Distinct(s))
  {
    if s != [] {
      var init := s[..|s| - 1];
      var x := s[|s| - 1];
      DistinctNoDuplicates(init);
      var d := Distinct(init);
      if x !in d {
        assert forall i :: 0 <= i < |d| ==> (d + [x])[i] == d[i] && d[i] != x;
      }
    }
  }

  /** Extending s by an id already seen leaves Distinct unchanged; a new id goes at the end. */
  lemma DistinctSnoc(s: seq<NodeId>, x: NodeId)
    ensures Distinct(s + [x]) == if x in s then Distinct(s) else Distinct(s) + [x]
  {
    assert (s + [x])[..|s + [x]| - 1] == s;
  }

  /** Distinct keeps first-occurrence order: an id whose first occurrence comes earlier is listed earlier. */
  lemma {:induction false} DistinctFirstOccurrenceOrder(s: seq<NodeId>, i: int, j: int)
    requires 0 <= i < j < |s|
    requires s[i] !in s[..i] && s[j] !in s[..j]
    ensures exists p, q :: 0 <= p < q < |Distinct(s)| && Distinct(s)[p] == s[i] && Distinct(s)[q] == s[j]
  {
    var init := s[..|s| - 1];
    var x := s[|s| - 1];
    assert s == init + [x];
    DistinctSnoc(init, x);
    if j == |s| - 1 {
      assert x !in init;
      assert s[i] in init by { assert init[i] == s[i]; }
      assert s[i] in Distinct(init);
      var p :| 0 <= p < |Distinct(init)| && Distinct(init)[p] == s[i];
      assert Distinct(s) == Distinct(init) + [x];
      assert Distinct(s)[p] == s[i] && Distinct(s)[|Distinct(init)|] == s[j];
    } else {
      assert init[i] == s[i] && init[j] == s[j];
      assert init[..i] == s[..i] && init[..j] == s[..j];
      DistinctFirstOccurrenceOrder(init, i, j);
      var p, q :| 0 <= p < q < |Distinct(init)| && Distinct(init)[p] == s[i] && Distinct(init)[q] == s[j];
      assert Distinct(s)[p] == s[i] && Distinct(s)[q] == s[j];
    }
  }

  /** The ids of d that occur at least twice in all, in the order of d. */
  function Repeated(d: seq<NodeId>, all: seq<NodeId>): (r: seq<NodeId>)
    ensures forall id :: id in r <==> id in d && Count(all, id) >= 2
  {
    if d == [] then []
    else
      var x := d[|d| - 1];
      assert forall id :: id in d <==> id in d[..|d| - 1] || id == x by {
        assert d == d[..|d| - 1] + [x];
      }
      Repeated(d[..|d| - 1], all) + if Count(all, x) >= 2 then [x] else []
  }

  lemma RepeatedSnoc(d: seq<NodeId>, x: NodeId, all: seq<NodeId>)
    ensures Repeated(d + [x], all) == Repeated(d, all) + if Count(all, x) >= 2 then [x] else []
  {
    assert (d + [x])[..|d + [x]| - 1] == d;
  }

  /** dupNodeIds: every id occurring at least twice, listed once (DupsAreRepeated, DupsNoDuplicates). */
  function Dups(all: seq<NodeId>): seq<NodeId> {
    Repeated(Distinct(all), all)
  }

  /** The elements of s that are not in excl, in the order of s. */
  function Without(s: seq<NodeId>, excl: seq<NodeId>): (r: seq<NodeId>)
    ensures forall id :: id in r <==> id in s && id !in excl
    ensures |r| <= |s|
  {
    if s == [] then []
    else
      var x := s[|s| - 1];
      var init := s[..|s| - 1];
      assert s == init + [x];
      assert forall id :: id in s <==> id in init || id == x;
      var rest := Without(init, excl);
      if x in excl then rest else rest + [x]
  }

  /** Filtering a list without repeats leaves a list without repeats. */
  lemma {:induction false} WithoutNoDuplicates(s: seq<NodeId>, excl: seq<NodeId>)
    requires NoDuplicates(s)
    ensures NoDuplicates(Without(s, excl))
  {
    if s != [] {
      var init := s[..|s| - 1];
      var x := s[|s| - 1];
      assert NoDuplicates(init) by {
        assert forall i :: 0 <= i < |init| ==> init[i] == s[i];
      }
      WithoutNoDuplicates(init, excl);
      var rest := Without(init, excl);
      if x !in excl {
        assert x !in init by {
          assert forall i :: 0 <= i < |init| ==> init[i] == s[i] && s[i] != x;
        }
        assert forall i :: 0 <= i < |rest| ==> (rest + [x])[i] == rest[i] && rest[i] != x;
      }
    }
  }

  /** Keeping the repeated ids of a list without repeats leaves a list without repeats. */
  lemma {:induction false} RepeatedNoDuplicates(d: seq<NodeId>, all: seq<NodeId>)
    requires NoDuplicates(d)
    ensures NoDuplicates(Repeated(d, all))
  {
    if d != [] {
      var init := d[..|d| - 1];
      var x := d[|d| - 1];
      assert NoDuplicates(init) by {
        assert forall i :: 0 <= i < |init| ==> init[i] == d[i];
      }
      RepeatedNoDuplicates(init, all);
      var rest := Repeated(init, all);
      if Count(all, x) >= 2 {
        assert x !in init by {
          assert forall i :: 0 <= i < |init| ==> init[i] == d[i] && d[i] != x;
        }
        assert forall i :: 0 <= i < |rest| ==> (rest + [x])[i] == rest[i] && rest[i] != x;
      }
    }
  }

  /** dupNodeIds lists no id twice: the scan checks `includes` before it pushes. */
  lemma DupsNoDuplicates(all: seq<NodeId>)
    ensures NoDuplicates(Dups(all))
  {
    DistinctNoDuplicates(all);
    RepeatedNoDuplicates(Distinct(all), all);
  }

  /** The identifiers a selection reports as interior junctions: exactly those that occur twice or more. */
  lemma DupsAreRepeated(all: seq<NodeId>, id: NodeId)
    ensures id in Dups(all) <==> Count(all, id) >= 2
  {
  }

  /** For a connected selection, the endpoints (distinct minus dups) are exactly the ids seen once. */
  lemma EndpointsSeenOnce(all: seq<NodeId>, id: NodeId)
    ensures id in Without(Distinct(all), Dups(all)) <==> Count(all, id) == 1
  {
    CountPositive(all, id);
  }

  /** The occurrences of x around one of its positions: those before it, itself, and those after it. */
  lemma CountAround(pre: seq<NodeId>, x: NodeId, rest: seq<NodeId>)
    ensures Count(pre + [x] + rest, x) == Count(pre, x) + 1 + Count(rest, x)
    ensures x in pre <==> Count(pre, x) > 0
    ensures x in rest <==> Count(rest, x) > 0
  {
    assert pre + [x] + rest == pre + ([x] + rest);
    CountConcat(pre, [x] + rest, x);
    CountConcat([x], rest, x);
    assert Count([x], x) == 1 by {
      assert [x][..0] == [];
    }
    CountPositive(pre, x);
    CountPositive(rest, x);
  }

  /** One step of the duplicate scan: x is added when it occurs again later and is not listed yet. */
  lemma RepeatedStep(pre: seq<NodeId>, x: NodeId, rest: seq<NodeId>, all: seq<NodeId>)
    requires all == pre + [x] + rest
    ensures var dup := Repeated(Distinct(pre), all);
      Repeated(Distinct(pre + [x]), all) == if x in rest && x !in dup then dup + [x] else dup
  {
    CountAround(pre, x, rest);
    if x in pre {
      SeenIdStep(pre, x, all);
    } else {
      NewIdStep(pre, x, all);
    }
  }

  /** An id seen before leaves the duplicates as they are, and is among them if it occurs twice. */
  lemma SeenIdStep(pre: seq<NodeId>, x: NodeId, all: seq<NodeId>)
    requires x in pre
    ensures Repeated(Distinct(pre + [x]), all) == Repeated(Distinct(pre), all)
    ensures Count(all, x) >= 2 ==> x in Repeated(Distinct(pre), all)
  {
    DistinctSnoc(pre, x);
  }

  /** A new id is appended to the duplicates exactly when it occurs twice. */
  lemma NewIdStep(pre: seq<NodeId>, x: NodeId, all: seq<NodeId>)
    requires x !in pre
    ensures x !in Repeated(Distinct(pre), all)
    ensures Repeated(Distinct(pre + [x]), all) ==
      Repeated(Distinct(pre), all) + if Count(all, x) >= 2 then [x] else []
  {
    DistinctSnoc(pre, x);
    RepeatedSnoc(Distinct(pre), x, all);
  }

  /** The scan for dupNodeIds: an id is appended when it occurs again later in the list and is not listed yet. */
  method FindDupNodeIds(all: seq<NodeId>) returns (dup: seq<NodeId>)
    ensures dup == Dups(all)
  {
    dup := [];
    var idx := 0;
    while idx < |all|
      invariant 0 <= idx <= |all|
      invariant dup == Repeated(Distinct(all[..idx]), all)
    {
      var x := all[idx];
      assert all == all[..idx] + [x] + all[idx + 1..];
      assert all[..idx + 1] == all[..idx] + [x];
      RepeatedStep(all[..idx], x, all[idx + 1..], all);
      if x in all[idx + 1..] && x !in dup {
        dup := dup + [x];
      }
      assert dup == Repeated(Distinct(all[..idx + 1]), all);
      idx := idx + 1;
    }
    assert all[..idx] == all;
  }
}

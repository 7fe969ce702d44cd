/** The shape of the retained roots: one consecutive legacy run, then one consecutive v3 run. */
module RetainedRoots {
  import opened Wrappers
  import opened Order
  import opened Records

  datatype RootSchema = V1 | V2 | V3 | Unknown

  datatype GenerationRoot = GenerationRoot(number: Number, schema: RootSchema, state: State)

  function RootKey(r: GenerationRoot): Key { Key("", r.number, "") }

  predicate LegacyRoot(r: GenerationRoot) { r.schema == V1 || r.schema == V2 }

  // ---------------------------------------------------------------------------------------------
  // The shape
  // ---------------------------------------------------------------------------------------------

  ghost predicate DistinctNumbers(roots: seq<GenerationRoot>)
  {
    forall i, j :: 0 <= i < j < |roots| ==> roots[i].number != roots[j].number
  }

  /** Every number between two members of the run is the number of a member. */
  ghost predicate LegacyRun(roots: seq<GenerationRoot>)
  {
    forall a, b, z: Number ::
      a in roots && b in roots && LegacyRoot(a) && LegacyRoot(b) && a.number <= z <= b.number ==> LegacyAt(roots, z)
  }

  ghost predicate LegacyAt(roots: seq<GenerationRoot>, z: Number)
  {
    exists r :: r in roots && LegacyRoot(r) && r.number == z
  }

  ghost predicate V3Run(roots: seq<GenerationRoot>)
  {
    forall a, b, z: Number ::
      a in roots && b in roots && a.schema == V3 && b.schema == V3 && a.number <= z <= b.number ==> V3At(roots, z)
  }

  ghost predicate V3At(roots: seq<GenerationRoot>, z: Number)
  {
    exists r :: r in roots && r.schema == V3 && r.number == z
  }

  /** Distinct positive numbers of known schemas: a consecutive legacy run below a consecutive v3 run, v1 only at 1. */
  ghost predicate RunsShape(roots: seq<GenerationRoot>)
  {
    && roots != [] && DistinctNumbers(roots)
    && (forall r :: r in roots ==> r.number > 0 && r.schema != Unknown && (r.schema == V1 ==> r.number == 1))
    && (forall a, b :: a in roots && b in roots && LegacyRoot(a) && b.schema == V3 ==> a.number < b.number)
    && LegacyRun(roots) && V3Run(roots)
  }

  /** The shape does not depend on the order in which the roots are listed. */
  lemma ShapeIgnoresOrder(s: seq<GenerationRoot>, t: seq<GenerationRoot>)
    requires multiset(s) == multiset(t)
    ensures RunsShape(s) <==> RunsShape(t)
  {
    PermutedUnique(s, t);
    OneWay(s, t);
    OneWay(t, s);
  }

  lemma DistinctIsUnique(s: seq<GenerationRoot>, t: seq<GenerationRoot>)
    requires DistinctNumbers(s) && multiset(s) == multiset(t)
    ensures DistinctNumbers(t)
  {
    assert Unique(s);
    PermutedUnique(s, t);
    forall i, j | 0 <= i < j < |t| ensures t[i].number != t[j].number {
      assert t[i] in s && t[j] in s && t[i] != t[j];
      var m, n :| 0 <= m < |s| && 0 <= n < |s| && s[m] == t[i] && s[n] == t[j];
    }
  }

  lemma OneWay(s: seq<GenerationRoot>, t: seq<GenerationRoot>)
    requires multiset(s) == multiset(t) && |s| == |t| && (forall x :: x in s <==> x in t)
    ensures RunsShape(s) ==> RunsShape(t)
  {
    if RunsShape(s) {
      DistinctIsUnique(s, t);
      forall a, b, z: Number | a in t && b in t && LegacyRoot(a) && LegacyRoot(b) && a.number <= z <= b.number
        ensures LegacyAt(t, z)
      {
        assert LegacyAt(s, z);
      }
      forall a, b, z: Number | a in t && b in t && a.schema == V3 && b.schema == V3 && a.number <= z <= b.number
        ensures V3At(t, z)
      {
        assert V3At(s, z);
      }
    }
  }

  // ---------------------------------------------------------------------------------------------
  // The adjacent scan
  // ---------------------------------------------------------------------------------------------

  /** What the scan checks of one root and its predecessor. */
  predicate Follows(previous: GenerationRoot, root: GenerationRoot)
  {
    && previous.number < root.number
    && (previous.schema == V3 ==> root.schema == V3)
    && (root.number - previous.number == 1 || (previous.schema != V3 && root.schema == V3))
  }

  predicate RootFits(r: GenerationRoot) { r.number > 0 && r.schema != Unknown && (r.schema == V1 ==> r.number == 1) }

  ghost predicate Chained(t: seq<GenerationRoot>)
  {
    (forall i :: 0 <= i < |t| ==> RootFits(t[i])) && forall i :: 0 < i < |t| ==> Follows(t[i - 1], t[i])
  }

  lemma {:induction false} ChainFacts(t: seq<GenerationRoot>, i: nat, j: nat)
    requires Chained(t) && i < j < |t|
    ensures t[i].number < t[j].number && (t[i].schema == V3 ==> t[j].schema == V3)
    ensures (t[i].schema == V3) == (t[j].schema == V3) ==> t[j].number - t[i].number == j - i
    decreases j - i
  {
    assert Follows(t[j - 1], t[j]);
    if i < j - 1 { ChainFacts(t, i, j - 1); }
  }

  lemma ChainIsShape(t: seq<GenerationRoot>)
    requires Chained(t) && t != []
    ensures RunsShape(t)
  {
    forall i, j | 0 <= i < j < |t| ensures t[i].number != t[j].number { ChainFacts(t, i, j); }
    forall a, b | a in t && b in t && LegacyRoot(a) && b.schema == V3 ensures a.number < b.number {
      var i, j :| 0 <= i < |t| && 0 <= j < |t| && t[i] == a && t[j] == b;
      if i < j { ChainFacts(t, i, j); } else if j < i { ChainFacts(t, j, i); }
    }
    forall a, b, z: Number | a in t && b in t && LegacyRoot(a) && LegacyRoot(b) && a.number <= z <= b.number
      ensures LegacyAt(t, z)
    {
      ChainBetween(t, a, b, z);
    }
    forall a, b, z: Number | a in t && b in t && a.schema == V3 && b.schema == V3 && a.number <= z <= b.number
      ensures V3At(t, z)
    {
      ChainBetween(t, a, b, z);
    }
  }

  lemma ChainBetween(t: seq<GenerationRoot>, a: GenerationRoot, b: GenerationRoot, z: Number)
    requires Chained(t) && a in t && b in t && (a.schema == V3) == (b.schema == V3) && a.number <= z <= b.number
    ensures if a.schema == V3 then V3At(t, z) else LegacyAt(t, z)
  {
    var i, j :| 0 <= i < |t| && 0 <= j < |t| && t[i] == a && t[j] == b;
    if j < i { ChainFacts(t, j, i); }
    if i < j { ChainFacts(t, i, j); }
    var k := i + (z - a.number);
    if i < k { ChainFacts(t, i, k); }
    if k < j { ChainFacts(t, k, j); }
    assert t[k] in t;
    SameRunNumber(t, i, k, j);
  }

  /** Inside one run, positions and numbers advance together. */
  lemma SameRunNumber(t: seq<GenerationRoot>, i: nat, k: nat, j: nat)
    requires Chained(t) && i <= k <= j < |t| && (t[i].schema == V3) == (t[j].schema == V3)
    ensures (t[k].schema == V3) == (t[i].schema == V3) && t[k].number - t[i].number == k - i && RootFits(t[k])
  {
    if i < k { ChainFacts(t, i, k); }
    if k < j { ChainFacts(t, k, j); }
  }

  /** No root of an ordered list lies strictly between two neighbours. */
  lemma NothingBetween(t: seq<GenerationRoot>, i: nat, q: GenerationRoot)
    requires Ordered(t, RootKey) && 0 < i < |t| && q in t
    ensures q.number <= t[i - 1].number || t[i].number <= q.number
    ensures t[i - 1].number <= t[i].number
  {
    LessIrreflexive("");
    var k :| 0 <= k < |t| && t[k] == q;
    assert !KeyLess(RootKey(t[i]), RootKey(t[i - 1]));
    if k < i - 1 {
      assert !KeyLess(RootKey(t[i - 1]), RootKey(t[k]));
    } else if k > i {
      assert !KeyLess(RootKey(t[k]), RootKey(t[i]));
    }
  }

  lemma ShapeIsChain(t: seq<GenerationRoot>)
    requires RunsShape(t) && Ordered(t, RootKey)
    ensures Chained(t)
  {
    hide Ordered;
    forall i | 0 < i < |t| ensures Follows(t[i - 1], t[i]) {
      var p, r := t[i - 1], t[i];
      assert p in t && r in t;
      NothingBetween(t, i, r);
      assert p.number < r.number;
      if (p.schema == V3) == (r.schema == V3) && p.number + 1 < r.number {
        var z: Number := p.number + 1;
        assert if p.schema == V3 then V3At(t, z) else LegacyAt(t, z);
        var q :| q in t && q.number == z;
        NothingBetween(t, i, q);
        assert false;
      }
    }
  }

  lemma ChainAt(t: seq<GenerationRoot>, i: nat)
    requires Chained(t) && i < |t|
    ensures RootFits(t[i]) && (i > 0 ==> Follows(t[i - 1], t[i]))
  {}

  lemma ChainGrows(t: seq<GenerationRoot>, i: nat)
    requires i < |t| && Chained(t[..i]) && RootFits(t[i]) && (i > 0 ==> Follows(t[i - 1], t[i]))
    ensures Chained(t[..i + 1])
  {}

  /** Sorts a copy and scans adjacent roots; true exactly for the two-run shape. */
  method ValidRetainedRoots(roots: seq<GenerationRoot>) returns (ok: bool)
    ensures ok <==> RunsShape(roots)
  {
    hide RunsShape, Chained, Ordered;
    if |roots| == 0 {
      EmptyShapeless(roots);
      return false;
    }
    var ordered := Sort(roots, RootKey);
    ShapeIgnoresOrder(ordered, roots);
    assert |multiset(ordered)| == |ordered| && |multiset(roots)| == |roots|;
    if RunsShape(ordered) { ShapeIsChain(ordered); }
    assert Chained(ordered[..0]) by { ChainNothing(ordered); }
    for i := 0 to |ordered|
      invariant Chained(ordered[..i])
    {
      var root := ordered[i];
      if Chained(ordered) { ChainAt(ordered, i); }
      if root.number == 0 { return false; }
      match root.schema {
        case V1 => if root.number != 1 { return false; }
        case V2 =>
        case V3 =>
        case Unknown => return false;
      }
      if i > 0 {
        var previous := ordered[i - 1];
        if root.number <= previous.number || (previous.schema == V3 && root.schema != previous.schema) { return false; }
        if root.number - previous.number != 1 && (previous.schema == V3 || root.schema != V3) { return false; }
      }
      ChainGrows(ordered, i);
    }
    assert ordered[..|ordered|] == ordered;
    ChainIsShape(ordered);
    ok := true;
  }

  lemma EmptyShapeless(roots: seq<GenerationRoot>)
    ensures RunsShape(roots) ==> roots != []
  {}

  lemma ChainNothing(t: seq<GenerationRoot>)
    ensures Chained(t[..0])
  {}

  // ---------------------------------------------------------------------------------------------
  // What keeps the shape
  // ---------------------------------------------------------------------------------------------

  ghost predicate IsMaximum(roots: seq<GenerationRoot>, m: GenerationRoot)
  {
    m in roots && forall r :: r in roots ==> r.number <= m.number
  }

  /** The next number may be appended as a v3 root, whichever run the largest root belongs to. */
  lemma AppendNextV3(roots: seq<GenerationRoot>, m: GenerationRoot, next: GenerationRoot)
    requires RunsShape(roots) && IsMaximum(roots, m) && next.number == m.number + 1 && next.schema == V3
    ensures RunsShape(roots + [next])
  {
    hide LegacyRun, V3Run;
    var t := roots + [next];
    assert forall r :: r in t <==> r in roots || r == next;
    assert forall i :: 0 <= i < |roots| ==> t[i] == roots[i] && roots[i] in roots;
    LegacyRunKept(roots, next);
    V3RunGrows(roots, m, next);
  }

  lemma LegacyRunKept(roots: seq<GenerationRoot>, next: GenerationRoot)
    requires LegacyRun(roots) && !LegacyRoot(next)
    ensures LegacyRun(roots + [next])
  {
    var t := roots + [next];
    forall a, b, z: Number | a in t && b in t && LegacyRoot(a) && LegacyRoot(b) && a.number <= z <= b.number
      ensures LegacyAt(t, z)
    {
      assert LegacyAt(roots, z);
    }
  }

  lemma V3RunGrows(roots: seq<GenerationRoot>, m: GenerationRoot, next: GenerationRoot)
    requires RunsShape(roots) && IsMaximum(roots, m) && next.number == m.number + 1 && next.schema == V3
    ensures V3Run(roots + [next])
  {
    hide LegacyRun;
    var t := roots + [next];
    forall a, b, z: Number | a in t && b in t && a.schema == V3 && b.schema == V3 && a.number <= z <= b.number
      ensures V3At(t, z)
    {
      if z == next.number {
        assert next in t;
      } else {
        assert a != next;
        var c := if b == next then m else b;
        LargestIsV3(roots, a, m);
        assert c in roots && c.schema == V3 && z <= c.number;
        assert V3At(roots, z);
      }
    }
  }

  lemma LargestIsV3(roots: seq<GenerationRoot>, a: GenerationRoot, m: GenerationRoot)
    requires RunsShape(roots) && IsMaximum(roots, m) && a in roots && a.schema == V3
    ensures m.schema == V3
  {
    assert m in roots;
  }

  /** ... and a legacy root only while no v3 root is retained. */
  lemma AppendNextV2(roots: seq<GenerationRoot>, m: GenerationRoot, next: GenerationRoot)
    requires RunsShape(roots) && IsMaximum(roots, m) && next.number == m.number + 1 && next.schema == V2
    ensures RunsShape(roots + [next]) <==> m.schema != V3
  {
    var t := roots + [next];
    assert forall r :: r in t <==> r in roots || r == next;
    assert m in t && next in t;
    if m.schema != V3 {
      assert forall i :: 0 <= i < |roots| ==> t[i] == roots[i] && roots[i] in roots;
      forall r | r in roots ensures r.schema != V3 {
        if r.schema == V3 { LargestIsV3(roots, r, m); }
      }
      forall a, b, z: Number | a in t && b in t && LegacyRoot(a) && LegacyRoot(b) && a.number <= z <= b.number
        ensures LegacyAt(t, z)
      {
        if z == next.number {
          assert next in t;
        } else {
          assert LegacyAt(roots, z);
        }
      }
    }
  }

  /** `t` is `roots` without its smallest v3 root `x`, which is not the only one. */
  ghost predicate WithoutOldest(roots: seq<GenerationRoot>, t: seq<GenerationRoot>, x: GenerationRoot)
  {
    && x in roots && x.schema == V3 && (forall r :: r in roots && r.schema == V3 ==> x.number <= r.number)
    && (exists r :: r in roots && r.schema == V3 && r != x)
    && DistinctNumbers(t) && (forall r :: r in t <==> r in roots && r != x)
  }

  /** Removing the oldest of several v3 roots keeps the shape. */
  lemma RemoveOldestV3(roots: seq<GenerationRoot>, t: seq<GenerationRoot>, x: GenerationRoot)
    requires RunsShape(roots) && WithoutOldest(roots, t, x)
    ensures RunsShape(t)
  {
    var o :| o in roots && o.schema == V3 && o != x;
    assert o in t;
    forall a, b, z: Number | a in t && b in t && LegacyRoot(a) && LegacyRoot(b) && a.number <= z <= b.number
      ensures LegacyAt(t, z)
    {
      assert LegacyAt(roots, z);
      var r :| r in roots && LegacyRoot(r) && r.number == z;
      assert r in t;
    }
    forall a, b, z: Number | a in t && b in t && a.schema == V3 && b.schema == V3 && a.number <= z <= b.number
      ensures V3At(t, z)
    {
      assert V3At(roots, z);
      var r :| r in roots && r.schema == V3 && r.number == z;
      SameNumber(roots, a, x);
      assert r != x;
      assert r in t;
    }
  }

  lemma SameNumber(roots: seq<GenerationRoot>, a: GenerationRoot, b: GenerationRoot)
    requires DistinctNumbers(roots) && a in roots && b in roots
    ensures a.number == b.number ==> a == b
  {
    if a.number == b.number {
      var i, j :| 0 <= i < |roots| && 0 <= j < |roots| && roots[i] == a && roots[j] == b;
    }
  }

  // ---------------------------------------------------------------------------------------------
  // Pending successors
  // ---------------------------------------------------------------------------------------------

  /** Everything up to the current root is committed, and nothing but one immediate successor lies above it. */
  ghost predicate SuccessorShape(roots: seq<GenerationRoot>, current: Number)
  {
    && (exists r :: r in roots && r.number == current)
    && forall r :: r in roots ==> (r.number <= current && r.state == Committed) || r.number == current + 1
  }

  /** Accepts at most one immediate staging or committed-unreachable root; the result is its number, or zero. */
  method ExactPendingSuccessor(roots: seq<GenerationRoot>, current: Number) returns (result: Result<Number>)
    ensures result.Ok? <==> RunsShape(roots) && SuccessorShape(roots, current)
    ensures result.Ok? ==> result.value == 0 || result.value == current + 1
    ensures result.Ok? ==> (result.value != 0 <==> exists r :: r in roots && r.number == current + 1)
  {
    hide RunsShape;
    var shaped := ValidRetainedRoots(roots);
    if !shaped { return Err(Invalid); }
    ShapeDistinct(roots);
    var foundCurrent := false;
    var pending: Number := 0;
    for i := 0 to |roots|
      invariant foundCurrent <==> exists j :: 0 <= j < i && roots[j].number == current
      invariant pending == 0 || pending == current + 1
      invariant pending != 0 <==> exists j :: 0 <= j < i && roots[j].number == current + 1
      invariant forall j :: 0 <= j < i ==>
        (roots[j].number <= current && roots[j].state == Committed) || roots[j].number == current + 1
    {
      var root := roots[i];
      assert root in roots;
      if root.number == current && root.state == Committed {
        foundCurrent := true;
      } else if root.number < current && root.state == Committed {
      } else if current != MAX_NUMBER && root.number == current + 1 && pending == 0 {
        pending := root.number;
      } else {
        return Err(Invalid);
      }
    }
    if !foundCurrent {
      forall r | r in roots ensures r.number != current {
        var j :| 0 <= j < |roots| && roots[j] == r;
      }
      return Err(Invalid);
    }
    var k :| 0 <= k < |roots| && roots[k].number == current;
    assert roots[k] in roots;
    forall r | r in roots ensures (r.number <= current && r.state == Committed) || r.number == current + 1 {
      var j :| 0 <= j < |roots| && roots[j] == r;
    }
    if pending != 0 {
      ghost var j :| 0 <= j < |roots| && roots[j].number == current + 1;
      assert roots[j] in roots;
    } else {
      forall r | r in roots ensures r.number != current + 1 {
        var j :| 0 <= j < |roots| && roots[j] == r;
      }
    }
    result := Ok(pending);
  }

  lemma ShapeDistinct(roots: seq<GenerationRoot>)
    requires RunsShape(roots)
    ensures DistinctNumbers(roots)
  {}

  /** The currency test before staging: the current root is the committed maximum. */
  method HistoryHasExactCurrentMaximum(roots: seq<GenerationRoot>, current: Number) returns (ok: bool)
    ensures ok <==>
      && current > 0 && RunsShape(roots) && (exists r :: r in roots && r.number == current)
      && forall r :: r in roots ==> r.number <= current && r.state == Committed
  {
    hide RunsShape;
    if current == 0 { return false; }
    var shaped := ValidRetainedRoots(roots);
    if !shaped { return false; }
    ShapeDistinct(roots);
    var found := false;
    for i := 0 to |roots|
      invariant forall j :: 0 <= j < i ==> roots[j].number <= current && roots[j].state == Committed
      invariant found <==> exists j :: 0 <= j < i && roots[j].number == current
    {
      assert roots[i] in roots;
      if roots[i].number > current || roots[i].state != Committed { return false; }
      if roots[i].number == current { found := true; }
    }
    forall r | r in roots ensures r.number <= current && r.state == Committed && (r.number == current ==> found) {
      var j :| 0 <= j < |roots| && roots[j] == r;
    }
    if found {
      ghost var j :| 0 <= j < |roots| && roots[j].number == current;
      assert roots[j] in roots;
    }
    ok := found;
  }

  /** The shape test before a pending candidate is loaded. */
  method HistoryHasPendingShape(roots: seq<GenerationRoot>, expected: Number, candidate: Number) returns (ok: bool)
    ensures ok <==>
      && candidate == expected + 1 && RunsShape(roots)
      && (forall r :: r in roots ==> r.number <= candidate && (r.number != candidate ==> r.state == Committed))
      && (exists r :: r in roots && r.number == expected && r.state == Committed)
      && exists r :: r in roots && r.number == candidate
  {
    hide RunsShape;
    if candidate != expected + 1 { return false; }
    var shaped := ValidRetainedRoots(roots);
    if !shaped { return false; }
    ShapeDistinct(roots);
    var expectedFound, count := false, 0;
    for i := 0 to |roots|
      invariant forall j :: 0 <= j < i ==>
        roots[j].number <= candidate && (roots[j].number != candidate ==> roots[j].state == Committed)
      invariant expectedFound <==> exists j :: 0 <= j < i && roots[j].number == expected && roots[j].state == Committed
      invariant count == 0 <==> forall j :: 0 <= j < i ==> roots[j].number != candidate
      invariant count <= 1
    {
      assert roots[i] in roots;
      if roots[i].number > candidate { return false; }
      if roots[i].number != candidate && roots[i].state != Committed { return false; }
      if roots[i].number == expected && roots[i].state == Committed { expectedFound := true; }
      if roots[i].number == candidate { count := count + 1; }
    }
    PendingMeaning(roots, expected, candidate, expectedFound, count);
    ok := expectedFound && count == 1;
  }

  lemma PendingMeaning(roots: seq<GenerationRoot>, expected: Number, candidate: Number, expectedFound: bool, count: nat)
    requires forall j :: 0 <= j < |roots| ==>
      roots[j].number <= candidate && (roots[j].number != candidate ==> roots[j].state == Committed)
    requires expectedFound <==>
      exists j :: 0 <= j < |roots| && roots[j].number == expected && roots[j].state == Committed
    requires count == 0 <==> forall j :: 0 <= j < |roots| ==> roots[j].number != candidate
    ensures forall r :: r in roots ==> r.number <= candidate && (r.number != candidate ==> r.state == Committed)
    ensures expectedFound <==> exists r :: r in roots && r.number == expected && r.state == Committed
    ensures count != 0 <==> exists r :: r in roots && r.number == candidate
  {
    forall r | r in roots
      ensures r.number <= candidate && (r.number != candidate ==> r.state == Committed)
      ensures r.number == expected && r.state == Committed ==> expectedFound
      ensures r.number == candidate ==> count != 0
    {
      var j :| 0 <= j < |roots| && roots[j] == r;
    }
    if expectedFound {
      var j :| 0 <= j < |roots| && roots[j].number == expected && roots[j].state == Committed;
      assert roots[j] in roots;
    }
    if count != 0 {
      var j :| 0 <= j < |roots| && roots[j].number == candidate;
      assert roots[j] in roots;
    }
  }
}

/** The retained history as one lifecycle run at a time sees it: what the roots say, and the shape every campaign,
    activation and retention step keeps. */
module History {
  import opened Wrappers
  import opened Text
  import opened Records
  import opened Candidate
  import opened Mapper
  import opened Directory
  import opened RetainedRoots

  // ---------------------------------------------------------------------------------------------
  // Root facts
  // ---------------------------------------------------------------------------------------------

  function SchemaIn(t: Tree): RootSchema
  {
    if RootDn in t && HasText(t[RootDn], SchemaVersion) then
      var s := t[RootDn].values[SchemaVersion].text;
      if s == SCHEMA_V1 then V1 else if s == SCHEMA_V2 then V2 else if s == SCHEMA_V3 then V3 else Unknown
    else Unknown
  }

  function ParseState(s: string): Option<State>
  {
    if s == "staging" then Some(Staging) else if s == "committed" then Some(Committed) else None
  }

  function StateIn(t: Tree): Option<State>
  {
    if RootDn in t && HasText(t[RootDn], DatasetState) then ParseState(t[RootDn].values[DatasetState].text) else None
  }

  function DigestIn(t: Tree): Option<Bytes>
  {
    if RootDn in t && HasOctets(t[RootDn], CandidateDigest) then Some(t[RootDn].values[CandidateDigest].octets)
    else None
  }

  predicate RootAt(d: Dir, n: Number) { RootDn in TreeAt(d, n) }

  predicate V3Root(d: Dir, n: Number) { RootAt(d, n) && SchemaIn(TreeAt(d, n)) == V3 }

  predicate Legacy(d: Dir, n: Number) { RootAt(d, n) && SchemaIn(TreeAt(d, n)) != V3 }

  // ---------------------------------------------------------------------------------------------
  // The invariant of serialised runs
  // ---------------------------------------------------------------------------------------------

  /** One root of a well-formed history under current number `current`. */
  ghost predicate RootOk(d: Dir, current: Number, n: Number)
  {
    var t := TreeAt(d, n);
    && 0 < n <= current + 1
    && SchemaIn(t) != Unknown && (SchemaIn(t) == V1 ==> n == 1) && StateIn(t).Some?
    && (n <= current ==> StateIn(t) == Some(Committed))
    && (n == current + 1 ==> SchemaIn(t) == V3)
    && (SchemaIn(t) == V3 && n < current ==> MarkedIn(t))
  }

  ghost predicate RunsConsecutive(d: Dir)
  {
    && (forall a: Number, b: Number {:trigger Legacy(d, a), V3Root(d, b)} :: Legacy(d, a) && V3Root(d, b) ==> a < b)
    && (forall a: Number, z: Number, b: Number {:trigger Legacy(d, a), Legacy(d, b), RootAt(d, z)} ::
          Legacy(d, a) && Legacy(d, b) && a <= z <= b ==> Legacy(d, z))
    && (forall a: Number, z: Number, b: Number {:trigger V3Root(d, a), V3Root(d, b), RootAt(d, z)} ::
          V3Root(d, a) && V3Root(d, b) && a <= z <= b ==> V3Root(d, z))
  }

  /** The pointer describes the root it names. */
  ghost predicate PointerMatches(d: Dir)
  {
    && d.pointer.Some? && d.pointer.value.state == Committed && d.pointer.value.number > 0
    && RootAt(d, d.pointer.value.number)
    && (d.pointer.value.v3 <==> V3Root(d, d.pointer.value.number))
    && (d.pointer.value.v3 ==> DigestIn(TreeAt(d, d.pointer.value.number)) == Some(d.pointer.value.digest))
  }

  /** What every serialised run of campaigns, activations and retention keeps, crashes included. */
  ghost predicate HistorySafe(d: Dir)
  {
    && TreesShaped(d) && PointerMatches(d) && RunsConsecutive(d)
    && forall n: Number {:trigger RootAt(d, n)} :: RootAt(d, n) ==> RootOk(d, d.pointer.value.number, n)
  }

  /** A history written before campaigns existed. */
  ghost predicate LegacyOnly(d: Dir)
  {
    && TreesShaped(d) && PointerMatches(d) && !d.pointer.value.v3
    && (forall n: Number {:trigger RootAt(d, n)} :: RootAt(d, n) ==>
          Legacy(d, n) && SchemaIn(TreeAt(d, n)) != Unknown && (SchemaIn(TreeAt(d, n)) == V1 ==> n == 1) &&
          StateIn(TreeAt(d, n)) == Some(Committed) && 0 < n <= d.pointer.value.number)
    && (forall a: Number, z: Number {:trigger RootAt(d, a), RootAt(d, z)} ::
          RootAt(d, a) && a <= z <= d.pointer.value.number ==> RootAt(d, z))
  }

  lemma LegacyIsSafe(d: Dir)
    requires LegacyOnly(d)
    ensures HistorySafe(d)
  {
    hide TreesShaped, SchemaIn, StateIn, DigestIn;
    forall n: Number ensures !V3Root(d, n) && (RootAt(d, n) ==> RootOk(d, d.pointer.value.number, n)) {
      assert RootAt(d, n) ==> Legacy(d, n);
    }
    forall a: Number, z: Number, b: Number | Legacy(d, a) && Legacy(d, b) && a <= z <= b ensures Legacy(d, z) {
      assert RootAt(d, a) && RootAt(d, b) && (RootAt(d, z) || true);
    }
  }

  // ---------------------------------------------------------------------------------------------
  // Single changes
  // ---------------------------------------------------------------------------------------------

  /** Nothing a history check looks at differs, except that the mark may have been added. */
  ghost predicate SameRootFacts(t: Tree, t': Tree)
  {
    && (RootDn in t <==> RootDn in t') && SchemaIn(t) == SchemaIn(t') && StateIn(t) == StateIn(t')
    && DigestIn(t) == DigestIn(t')
    && (MarkedIn(t) ==> MarkedIn(t'))
  }

  lemma SameFactsKeepSafe(d: Dir, n: Number, t: Tree)
    requires HistorySafe(d) && WellNamed(t) && Rooted(t) && SameRootFacts(TreeAt(d, n), t)
    ensures HistorySafe(WithTree(d, n, t))
  {
    hide WellNamed, Rooted, SchemaIn, StateIn, DigestIn, MarkedIn;
    OtherTrees(d, n, t);
    var e := WithTree(d, n, t);
    assert e.pointer == d.pointer;
    forall m: Number
      ensures RootAt(e, m) == RootAt(d, m) && V3Root(e, m) == V3Root(d, m) && Legacy(e, m) == Legacy(d, m)
    {}
    forall m: Number | RootAt(e, m) ensures RootOk(e, d.pointer.value.number, m) {
      assert RootAt(d, m);
      assert RootOk(d, d.pointer.value.number, m);
    }
    SameRuns(d, e);
    assert PointerMatches(e);
  }

  lemma SameRuns(d: Dir, e: Dir)
    requires RunsConsecutive(d)
    requires forall m: Number ::
      RootAt(e, m) == RootAt(d, m) && V3Root(e, m) == V3Root(d, m) && Legacy(e, m) == Legacy(d, m)
    ensures RunsConsecutive(e)
  {
    hide RootAt, V3Root, Legacy;
    forall a: Number, b: Number | Legacy(e, a) && V3Root(e, b) ensures a < b { assert Legacy(d, a) && V3Root(d, b); }
    forall a: Number, z: Number, b: Number | Legacy(e, a) && Legacy(e, b) && a <= z <= b ensures Legacy(e, z) {
      assert Legacy(d, a) && Legacy(d, b) && (RootAt(d, z) || true);
    }
    forall a: Number, z: Number, b: Number | V3Root(e, a) && V3Root(e, b) && a <= z <= b ensures V3Root(e, z) {
      assert V3Root(d, a) && V3Root(d, b) && (RootAt(d, z) || true);
    }
  }

  /** A staging v3 root appears directly above the current one. */
  lemma NewRootKeepsSafe(d: Dir, t: Tree)
    requires HistorySafe(d) && d.pointer.value.number < MAX_NUMBER && !RootAt(d, d.pointer.value.number + 1)
    requires WellNamed(t) && Rooted(t) && RootDn in t && SchemaIn(t) == V3 && StateIn(t).Some?
    ensures HistorySafe(WithTree(d, d.pointer.value.number + 1, t))
  {
    hide WellNamed, Rooted, SchemaIn, StateIn, DigestIn, MarkedIn;
    var current := d.pointer.value.number;
    var n: Number := current + 1;
    OtherTrees(d, n, t);
    var e := WithTree(d, n, t);
    forall m: Number | m != n
      ensures RootAt(e, m) == RootAt(d, m) && V3Root(e, m) == V3Root(d, m) && Legacy(e, m) == Legacy(d, m)
    {}
    forall m: Number | RootAt(e, m) ensures RootOk(e, current, m) {
      if m != n { assert RootAt(d, m) && RootOk(d, current, m); }
    }
    forall m: Number | RootAt(d, m) ensures m <= current { assert RootOk(d, current, m); }
    NewRootRuns(d, e, current);
    assert PointerMatches(e);
  }

  lemma NewRootRuns(d: Dir, e: Dir, current: Number)
    requires RunsConsecutive(d) && current < MAX_NUMBER && RootAt(d, current)
    requires forall m: Number :: RootAt(d, m) ==> m <= current
    requires forall m: Number :: m != current + 1 ==>
      RootAt(e, m) == RootAt(d, m) && V3Root(e, m) == V3Root(d, m) && Legacy(e, m) == Legacy(d, m)
    requires V3Root(e, current + 1)
    ensures RunsConsecutive(e)
  {
    hide SchemaIn;
    var n: Number := current + 1;
    assert !Legacy(e, n);
    forall a: Number, b: Number | Legacy(e, a) && V3Root(e, b) ensures a < b {
      assert Legacy(d, a);
      if b != n { assert V3Root(d, b); }
    }
    forall a: Number, z: Number, b: Number | Legacy(e, a) && Legacy(e, b) && a <= z <= b ensures Legacy(e, z) {
      assert Legacy(d, a) && Legacy(d, b) && (RootAt(d, z) || true);
    }
    forall a: Number, z: Number, b: Number | V3Root(e, a) && V3Root(e, b) && a <= z <= b ensures V3Root(e, z) {
      if z != n {
        assert V3Root(d, a);
        assert Legacy(d, current) || V3Root(d, current);
        assert RootAt(d, z) || true;
      }
    }
  }

  /** The successor root is committed. */
  lemma SealKeepsSafe(d: Dir, t: Tree)
    requires HistorySafe(d) && d.pointer.value.number < MAX_NUMBER && WellNamed(t) && Rooted(t)
    requires var before := TreeAt(d, d.pointer.value.number + 1);
      RootDn in before && RootDn in t && SchemaIn(t) == SchemaIn(before) && StateIn(t) == Some(Committed)
    ensures HistorySafe(WithTree(d, d.pointer.value.number + 1, t))
  {
    hide WellNamed, Rooted, SchemaIn, StateIn, DigestIn, MarkedIn;
    var current := d.pointer.value.number;
    var n: Number := current + 1;
    assert RootAt(d, n) && RootOk(d, current, n);
    OtherTrees(d, n, t);
    var e := WithTree(d, n, t);
    forall m: Number
      ensures RootAt(e, m) == RootAt(d, m) && V3Root(e, m) == V3Root(d, m) && Legacy(e, m) == Legacy(d, m)
    {}
    forall m: Number | RootAt(e, m) ensures RootOk(e, current, m) { assert RootOk(d, current, m); }
    SameRuns(d, e);
    assert PointerMatches(e);
  }

  /** The pointer moves to the committed successor once its v3 predecessor is marked. */
  lemma SwitchKeepsSafe(d: Dir, p: Pointer)
    requires HistorySafe(d) && d.pointer.value.number < MAX_NUMBER && p.number == d.pointer.value.number + 1
    requires p.state == Committed && p.v3
    requires RootAt(d, p.number) && StateIn(TreeAt(d, p.number)) == Some(Committed)
    requires DigestIn(TreeAt(d, p.number)) == Some(p.digest)
    requires V3Root(d, d.pointer.value.number) ==> MarkedIn(TreeAt(d, d.pointer.value.number))
    ensures HistorySafe(d.(pointer := Some(p)))
  {
    hide WellNamed, Rooted, SchemaIn, StateIn, DigestIn, MarkedIn;
    var e := d.(pointer := Some(p));
    assert RootOk(d, d.pointer.value.number, p.number);
    forall m: Number
      ensures
        && TreeAt(e, m) == TreeAt(d, m) && RootAt(e, m) == RootAt(d, m) && V3Root(e, m) == V3Root(d, m)
        && Legacy(e, m) == Legacy(d, m)
    {}
    forall m: Number | RootAt(e, m) ensures RootOk(e, p.number, m) {
      assert RootAt(d, m) && RootOk(d, d.pointer.value.number, m);
    }
    SameRuns(d, e);
  }

  /** `n` is the oldest v3 root and lies below the current one. */
  ghost predicate OldestV3(d: Dir, n: Number)
  {
    V3Root(d, n) && forall m: Number {:trigger V3Root(d, m)} :: V3Root(d, m) ==> n <= m
  }

  lemma RemoveOldestKeepsSafe(d: Dir, n: Number)
    requires HistorySafe(d) && OldestV3(d, n) && n < d.pointer.value.number
    ensures HistorySafe(WithTree(d, n, map[]))
  {
    hide WellNamed, Rooted, SchemaIn, StateIn, DigestIn, MarkedIn;
    EmptyShape();
    var none: Tree := map[];
    OtherTrees(d, n, none);
    var e := WithTree(d, n, none);
    forall m: Number
      ensures
        && RootAt(e, m) == (RootAt(d, m) && m != n) && V3Root(e, m) == (V3Root(d, m) && m != n)
        && Legacy(e, m) == Legacy(d, m)
    {}
    forall m: Number | RootAt(e, m) ensures RootOk(e, d.pointer.value.number, m) {
      assert RootOk(d, d.pointer.value.number, m);
    }
    OldestRemovedRuns(d, e, n);
    assert PointerMatches(e);
  }

  lemma EmptyShape()
    ensures WellNamed(map[]) && Rooted(map[])
  {}

  lemma OldestRemovedRuns(d: Dir, e: Dir, n: Number)
    requires RunsConsecutive(d) && OldestV3(d, n)
    requires forall m: Number ::
      && RootAt(e, m) == (RootAt(d, m) && m != n) && V3Root(e, m) == (V3Root(d, m) && m != n)
      && Legacy(e, m) == Legacy(d, m)
    ensures RunsConsecutive(e)
  {
    hide RootAt, V3Root, Legacy;
    forall a: Number, b: Number | Legacy(e, a) && V3Root(e, b) ensures a < b { assert Legacy(d, a) && V3Root(d, b); }
    forall a: Number, z: Number, b: Number | Legacy(e, a) && Legacy(e, b) && a <= z <= b ensures Legacy(e, z) {
      assert Legacy(d, a) && Legacy(d, b) && (RootAt(d, z) || true);
    }
    forall a: Number, z: Number, b: Number | V3Root(e, a) && V3Root(e, b) && a <= z <= b ensures V3Root(e, z) {
      assert V3Root(d, a) && V3Root(d, b) && (RootAt(d, z) || true);
    }
  }

  // ---------------------------------------------------------------------------------------------
  // Listings
  // ---------------------------------------------------------------------------------------------

  /** `roots` lists every root once with its schema and state. */
  ghost predicate ListsRoots(d: Dir, roots: seq<GenerationRoot>)
  {
    && DistinctNumbers(roots)
    && (forall r :: r in roots ==>
          && RootAt(d, r.number) && r.schema == SchemaIn(TreeAt(d, r.number))
          && Some(r.state) == StateIn(TreeAt(d, r.number)))
    && (forall n: Number {:trigger RootAt(d, n)} :: RootAt(d, n) ==> ListedNumber(roots, n))
  }

  ghost predicate ListedNumber(roots: seq<GenerationRoot>, n: Number) { exists r :: r in roots && r.number == n }

  /** Every listing of a safe history has the two-run shape, and its pending successor is accepted. */
  lemma SafeHistoryIsAccepted(d: Dir, roots: seq<GenerationRoot>)
    requires HistorySafe(d) && ListsRoots(d, roots)
    ensures RunsShape(roots) && SuccessorShape(roots, d.pointer.value.number)
  {
    hide TreesShaped, SchemaIn, StateIn, DigestIn, MarkedIn;
    var current := d.pointer.value.number;
    assert ListedNumber(roots, current);
    forall r | r in roots
      ensures r.number > 0 && r.schema != Unknown && (r.schema == V1 ==> r.number == 1)
      ensures (r.number <= current && r.state == Committed) || r.number == current + 1
      ensures r.schema == V3 <==> V3Root(d, r.number)
      ensures LegacyRoot(r) <==> Legacy(d, r.number)
    {
      assert RootOk(d, current, r.number);
    }
    forall a, b, z: Number | a in roots && b in roots && LegacyRoot(a) && LegacyRoot(b) && a.number <= z <= b.number
      ensures LegacyAt(roots, z)
    {
      assert RootAt(d, z) || true;
      assert Legacy(d, z);
      assert ListedNumber(roots, z);
    }
    forall a, b, z: Number | a in roots && b in roots && a.schema == V3 && b.schema == V3 && a.number <= z <= b.number
      ensures V3At(roots, z)
    {
      assert RootAt(d, z) || true;
      assert V3Root(d, z);
      assert ListedNumber(roots, z);
    }
  }
}

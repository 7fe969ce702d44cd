/** Campaign lifecycles over one directory: staging a v3 candidate, activating it, and any sequence of both with
    automatic retention in between. Every command may stop after any request, and any reply may be lost. */
module CampaignRun {
  import opened Wrappers
  import opened Text
  import opened Records
  import opened Generations
  import opened Candidate
  import opened Mapper
  import opened ReadBack
  import opened Directory
  import opened RetainedRoots
  import opened History
  import opened Purge
  import opened Retention

  function Steps(candidate: Generation, metadata: Metadata): seq<Entry> { WriteSequence(candidate, Some(metadata)) }

  /** The subtree holds the first entries of the ordered write and nothing else. */
  ghost predicate PartlyWritten(t: Tree, candidate: Generation, metadata: Metadata)
  {
    exists k :: 0 <= k <= |Steps(candidate, metadata)| && t == Written(Steps(candidate, metadata)[..k])
  }

  /** A history on which a successor can be staged: a readable current generation with nothing above it. */
  ghost predicate Stageable(d: Dir)
  {
    && HistorySafe(d) && d.pointer.value.number < MAX_NUMBER && !RootAt(d, d.pointer.value.number + 1)
    && Maps(TreeAt(d, d.pointer.value.number), d.pointer.value.number, Committed)
  }

  /** A history on which an undisturbed campaign can run. */
  ghost predicate Campaignable(d: Dir) { Stageable(d) && MarkReadable(TreeAt(d, d.pointer.value.number)) }

  ghost predicate CandidateFor(d: Dir, candidate: Generation, metadata: Metadata)
  {
    && d.pointer.Some? && candidate.number == d.pointer.value.number + 1 && candidate.state == Staging
    && Writable(candidate, Some(metadata)) && MetadataSeals(Some(metadata), candidate)
  }

  /** A loaded pending candidate with its generation. */
  datatype Pending = Pending(candidate: Number, observed: Pointer, state: State, metadata: Option<Metadata>,
      stored: Generation)

  /** `g` holds the records of the subtree, as one complete search returned them. */
  ghost predicate StoredAs(t: Tree, n: Number, state: State, g: Generation)
  {
    && Valid(g) && g.number == n && g.state == state
    && exists entries, schema ::
         && Returned(entries, t) && Readable(entries, schema, n, state, |entries|)
         && SameRecords(g, PartsOf(entries, schema, n, state))
  }

  ghost predicate PendingOf(d: Dir, p: Pending)
  {
    var t := TreeAt(d, p.candidate);
    && p.candidate >= 2 && d.pointer == Some(p.observed)
    && (p.observed.number == p.candidate || p.observed.number == p.candidate - 1)
    && Maps(t, p.candidate, p.state) && RootAt(d, p.candidate) && StateIn(t) == Some(p.state)
    && StoredAs(t, p.candidate, p.state, p.stored)
    && (p.observed.number == p.candidate ==> p.state == Committed)
    && (p.metadata.Some? <==> SchemaIn(t) == V3)
    && (p.metadata.Some? ==>
          MetadataReadable(t[RootDn], p.candidate) && p.metadata.value == ReadMetadata(t[RootDn], p.candidate))
  }

  /** The ordered adds of one candidate. */
  method AddCampaignCandidate(r: Store, candidate: Generation, metadata: Metadata, faulty: bool) returns (ok: bool)
    requires HistorySafe(r.dir) && CandidateFor(r.dir, candidate, metadata) && !RootAt(r.dir, candidate.number)
    modifies r`dir
    ensures HistorySafe(r.dir) && r.dir.pointer == old(r.dir.pointer)
    ensures forall n: Number :: n != candidate.number ==> TreeAt(r.dir, n) == old(TreeAt(r.dir, n))
    ensures PartlyWritten(TreeAt(r.dir, candidate.number), candidate, metadata)
    ensures ok ==> TreeAt(r.dir, candidate.number) == Written(Steps(candidate, metadata))
    ensures !faulty ==> ok
  {
    hide HistorySafe, Writable, MetadataSeals, Written, WriteSequence, PartlyWritten, RootAt;
    ghost var before := r.dir;
    ghost var n := candidate.number;
    var entries := Steps(candidate, metadata);
    NothingWritten(r.dir, candidate, metadata);
    for i := 0 to |entries|
      invariant HistorySafe(r.dir) && r.dir.pointer == before.pointer && CandidateFor(r.dir, candidate, metadata)
      invariant forall m: Number :: m != n ==> TreeAt(r.dir, m) == TreeAt(before, m)
      invariant TreeAt(r.dir, n) == Written(entries[..i])
    {
      WrittenPart(candidate, metadata, i);
      // the request may fail
      var failed := Disturbed(faulty);
      if failed { return false; }
      AddIsSafe(r.dir, candidate, metadata, i);
      if !Addable(TreeAt(r.dir, candidate.number), entries[i]) { return false; }
      r.dir := WithTree(r.dir, candidate.number, AddTo(TreeAt(r.dir, candidate.number), entries[i]));
      WrittenPart(candidate, metadata, i + 1);
      // the reply may be lost
      var lost := Disturbed(faulty);
      if lost { return false; }
    }
    WrittenPart(candidate, metadata, |entries|);
    assert entries[..|entries|] == entries;
    ok := true;
  }

  /** The readback accepts only the candidate itself, completely written. */
  method ValidateReadback(r: Store, candidate: Generation, metadata: Metadata, faulty: bool) returns (ok: bool)
    requires WellNamed(TreeAt(r.dir, candidate.number)) && Valid(candidate)
    ensures ok ==> StoredAs(TreeAt(r.dir, candidate.number), candidate.number, Staging, candidate)
    ensures !faulty ==> (ok <==> StoredAs(TreeAt(r.dir, candidate.number), candidate.number, Staging, candidate))
    ensures ok ==> Maps(TreeAt(r.dir, candidate.number), candidate.number, Staging)
    ensures
      && !faulty && candidate.state == Staging && Writable(candidate, Some(metadata))
      && MetadataSeals(Some(metadata), candidate)
      && TreeAt(r.dir, candidate.number) == Written(Steps(candidate, metadata)) ==>
        ok
  {
    hide Readable, Maps, Valid, Writable, MetadataSeals, WriteSequence, Written, PartsOf, SameRecords, StoredAs;
    ghost var t, n := TreeAt(r.dir, candidate.number), candidate.number;
    if StoredAs(t, n, Staging, candidate) { StoredMaps(t, n, Staging, candidate); }
    var unread := Disturbed(faulty);
    if unread { return false; }
    var entries := r.ReadTree(candidate.number);
    var mapped := MapGeneration(entries, candidate.number, Staging, |entries|);
    MapsInAnyOrder(entries, TreeAt(r.dir, candidate.number), candidate.number, Staging);
    if candidate.state == Staging && Writable(candidate, Some(metadata)) && MetadataSeals(Some(metadata), candidate) &&
       TreeAt(r.dir, candidate.number) == Written(Steps(candidate, metadata))
    {
      WrittenIsAccepted(entries, candidate, metadata);
    }
    if mapped.Err? { return false; }
    MappedIsStored(entries, t, n, Staging, mapped.value);
    if StoredAs(t, n, Staging, candidate) { StoredIsUnique(t, n, Staging, candidate, mapped.value); }
    ok := mapped.value == candidate;
  }

  lemma StoredMaps(t: Tree, n: Number, state: State, g: Generation)
    requires StoredAs(t, n, state, g)
    ensures Maps(t, n, state)
  {
    hide Valid, Readable, Returned, SameRecords, PartsOf;
  }

  lemma WrittenIsAccepted(entries: seq<Entry>, candidate: Generation, metadata: Metadata)
    requires Valid(candidate) && candidate.state == Staging && Writable(candidate, Some(metadata))
    requires MetadataSeals(Some(metadata), candidate)
    requires Returned(entries, Written(Steps(candidate, metadata)))
    ensures exists schema :: Readable(entries, schema, candidate.number, Staging, |entries|)
    ensures forall g, schema ::
      Valid(g) && Readable(entries, schema, candidate.number, Staging, |entries|) &&
        SameRecords(g, PartsOf(entries, schema, candidate.number, Staging)) ==>
        g == candidate
  {
    hide Valid, Writable, MetadataSeals, WriteSequence, Written, PartsOf, Readable;
    var n := candidate.number;
    WriteDistinct(candidate, Some(metadata));
    ReturnedPermutes(entries, Steps(candidate, metadata));
    WrittenReadsBack(candidate, Some(metadata), entries, |entries|);
    forall g, schema | Valid(g) && Readable(entries, schema, n, Staging, |entries|) &&
        SameRecords(g, PartsOf(entries, schema, n, Staging))
      ensures g == candidate
    {
      ReadableSchema(entries, SCHEMA_V3, n);
      SchemaForced(entries, SCHEMA_V3, schema, n, Staging, |entries|);
      EquivalentIsSameRecords(g, candidate);
    }
  }

  lemma ReadableSchema(entries: seq<Entry>, schema: string, n: Number)
    requires Readable(entries, schema, n, Staging, |entries|)
    ensures SchemaIs(entries, schema)
  {
    hide Consistent, PartsOf, Sealed, ReadItem, HasItem;
    RootPresent(entries, schema, n, Staging);
    var e: Entry :| e in entries && e.dn == RootDn;
    assert ReadItem(e, schema, n, Staging).Some?;
    RootItemOnly(e, schema, n, Staging);
  }

  /** Stages one campaign candidate above the current generation. */
  method StageCampaign(r: Store, candidate: Generation, metadata: Metadata, faulty: bool)
      returns (result: Result<Pending>)
    requires HistorySafe(r.dir) && JournalSafe(r.dir, r.journal) && Valid(candidate) && Bounded(candidate)
    modifies r`dir
    ensures HistorySafe(r.dir) && JournalSafe(r.dir, r.journal) && r.dir.pointer == old(r.dir.pointer)
    ensures forall n: Number :: n != candidate.number ==> TreeAt(r.dir, n) == old(TreeAt(r.dir, n))
    ensures
      || TreeAt(r.dir, candidate.number) == old(TreeAt(r.dir, candidate.number))
      || (!old(RootAt(r.dir, candidate.number)) && PartlyWritten(TreeAt(r.dir, candidate.number), candidate, metadata))
    ensures
      || TreeAt(r.dir, candidate.number) == old(TreeAt(r.dir, candidate.number))
      || CandidateFor(r.dir, candidate, metadata)
    ensures result.Ok? ==>
      && CandidateFor(r.dir, candidate, metadata)
      && TreeAt(r.dir, candidate.number) == Written(Steps(candidate, metadata))
      && result.value.candidate == candidate.number && PendingOf(r.dir, result.value)
    ensures result.Ok? ==> old(Stageable(r.dir))
    ensures !faulty ==> (result.Ok? <==> old(Stageable(r.dir) && CandidateFor(r.dir, candidate, metadata)))
  {
    hide HistorySafe, JournalSafe, Valid, Consistent, Bounded, MetadataSeals, Written, WriteSequence, PartlyWritten,
      RootAt, Commits, Maps, TreesShaped, ListsRoots, RunsShape, PendingReadable, PendingOf, StoredAs;
    ghost var before := r.dir;
    assert Consistent(candidate) by { ValidConsistent(candidate); }
    var sealed := ValidateCandidate(metadata, candidate);
    SealedWritable(candidate, metadata, sealed);
    if !sealed { return Err(Invalid); }
    if candidate.number < 2 || candidate.state != Staging { return Err(Invalid); }
    SafeFacts(r.dir);
    Shaped(r.dir, r.dir.pointer.value.number);
    var unread := Disturbed(faulty);
    if unread { return Err(Unavailable); }
    var current := r.dir.pointer.value.number;
    var loaded := r.MapTree(current, Committed);
    if !loaded || current != candidate.number - 1 { return Err(Conflict); }
    var listed := r.ListRoots();
    ListedStates(r.dir);
    if listed.Err? { return Err(Unavailable); }
    var maximal := HistoryHasExactCurrentMaximum(listed.value, current);
    MaximalAccepted(r.dir, listed.value);
    if !maximal { return Err(Conflict); }
    NothingAbove(r.dir, listed.value, candidate.number);
    assert CandidateFor(r.dir, candidate, metadata);
    var added := AddCampaignCandidate(r, candidate, metadata, faulty);
    StagedJournal(before, r.dir, r.journal, candidate.number);
    if !added { return Err(Error.Uncertain); }
    SafeFacts(r.dir);
    Shaped(r.dir, candidate.number);
    var matches := ValidateReadback(r, candidate, metadata, faulty);
    if !matches { return Err(Invalid); }
    StagedPending(r.dir, candidate.number);
    result := LoadPending(r, candidate.number, faulty);
  }

  lemma ValidConsistent(g: Generation)
    requires Valid(g)
    ensures Consistent(g)
  {
    hide Consistent;
  }

  lemma SealedWritable(candidate: Generation, metadata: Metadata, sealed: bool)
    requires Consistent(candidate) && Bounded(candidate)
    requires sealed <==>
      && metadata.source != 0 && candidate.number > metadata.source
      && (forall x :: x in candidate.materials ==> x.privatePkcs8 != []) && Commits(metadata, candidate)
    ensures sealed <==> Writable(candidate, Some(metadata)) && MetadataSeals(Some(metadata), candidate)
  {
    hide Consistent, Bounded;
  }

  lemma MaximalAccepted(d: Dir, roots: seq<GenerationRoot>)
    requires HistorySafe(d) && ListsRoots(d, roots)
    ensures Stageable(d) ==>
      && RunsShape(roots) && (exists r :: r in roots && r.number == d.pointer.value.number)
      && d.pointer.value.number > 0
      && forall r :: r in roots ==> r.number <= d.pointer.value.number && r.state == Committed
  {
    hide SchemaIn, StateIn, MarkedIn, DigestIn, TreesShaped, RunsConsecutive, RunsShape, Maps;
    SafeHistoryIsAccepted(d, roots);
    if Stageable(d) {
      forall r | r in roots ensures r.number <= d.pointer.value.number && r.state == Committed {
        assert RootAt(d, r.number);
        assert RootOk(d, d.pointer.value.number, r.number);
      }
    }
  }

  lemma NothingAbove(d: Dir, roots: seq<GenerationRoot>, n: Number)
    requires ListsRoots(d, roots) && forall r :: r in roots ==> r.number < n
    ensures !RootAt(d, n)
  {
    hide SchemaIn, StateIn;
    assert RootAt(d, n) ==> ListedNumber(roots, n);
  }

  lemma StagedJournal(before: Dir, d: Dir, journal: Option<PurgePlan>, n: Number)
    requires JournalSafe(before, journal) && d.pointer == before.pointer && before.pointer.Some?
    requires n == before.pointer.value.number + 1
    requires forall m: Number :: m != n ==> TreeAt(d, m) == TreeAt(before, m)
    ensures JournalSafe(d, journal)
  {
    hide SchemaIn;
    if journal.Some? && RootAt(d, Target(journal.value)) {
      assert RootAt(before, Target(journal.value)) && V3Root(before, Target(journal.value));
      forall m: Number | V3Root(d, m) ensures Target(journal.value) <= m {
        if m != n { assert V3Root(before, m); }
      }
    }
  }

  lemma StagedPending(d: Dir, n: Number)
    requires TreesShaped(d) && n >= 2 && d.pointer.Some? && d.pointer.value.number == n - 1
    requires Maps(TreeAt(d, n), n, Staging)
    ensures PendingReadable(d, n)
  {
    hide Maps, RootAt, StateIn;
    MappedState(d, n, Staging);
    assert StateIn(TreeAt(d, n)) == Some(Staging) && Maps(TreeAt(d, n), n, Staging);
  }

  lemma MappedState(d: Dir, n: Number, state: State)
    requires TreesShaped(d) && Maps(TreeAt(d, n), n, state)
    ensures RootAt(d, n) && StateIn(TreeAt(d, n)) == Some(state)
  {
    hide Maps;
    MappedRoot(TreeAt(d, n), n, state);
    assert StateName(Staging)[0] != StateName(Committed)[0];
  }

  /** The pending candidate as stored, with the pointer unchanged around the reading. */
  method LoadPending(r: Store, candidate: Number, faulty: bool) returns (result: Result<Pending>)
    requires TreesShaped(r.dir)
    ensures result.Ok? ==> result.value.candidate == candidate && PendingOf(r.dir, result.value)
    ensures result.Ok? ==> PendingReadable(r.dir, candidate)
    ensures !faulty && HistorySafe(r.dir) && candidate >= 2 ==> (result.Ok? <==> PendingReadable(r.dir, candidate))
  {
    hide HistorySafe, TreesShaped, SchemaIn, StateIn, Maps, MetadataReadable, ReadMetadata, RunsShape, ListsRoots,
      RootAt, StoredAs, Readable, Valid, SameRecords;
    if candidate < 2 { return Err(Invalid); }
    var unread := Disturbed(faulty);
    if unread { return Err(Unavailable); }
    var listed := r.ListRoots();
    ListedStates(r.dir);
    if listed.Err? { return Err(Unavailable); }
    var shaped := HistoryHasPendingShape(listed.value, candidate - 1, candidate);
    PendingAccepted(r.dir, listed.value, candidate);
    if !shaped { return Err(Invalid); }
    NeighbourListed(r.dir, listed.value, candidate);
    if r.dir.pointer.None? || r.dir.pointer.value.state != Committed { return Err(Conflict); }
    var pointer := r.dir.pointer.value;
    if pointer.number != candidate - 1 && pointer.number != candidate { return Err(Conflict); }
    PendingRoot(r.dir, listed.value, candidate);
    var t := TreeAt(r.dir, candidate);
    var state := StateIn(t).value;
    if pointer.number == candidate && state != Committed { return Err(Invalid); }
    Shaped(r.dir, candidate);
    var entries := r.ReadTree(candidate);
    var mapped := MapGeneration(entries, candidate, state, |entries|);
    MapsInAnyOrder(entries, t, candidate, state);
    if mapped.Err? { return Err(Invalid); }
    MappedIsStored(entries, t, candidate, state, mapped.value);
    PendingEvidence(t, candidate, state);
    var metadata := if SchemaIn(t) == V3 then Some(ReadMetadata(t[RootDn], candidate)) else None;
    result := Ok(Pending(candidate, pointer, state, metadata, mapped.value));
  }

  lemma MappedIsStored(entries: seq<Entry>, t: Tree, n: Number, state: State, g: Generation)
    requires Returned(entries, t) && Valid(g)
    requires exists schema ::
      Readable(entries, schema, n, state, |entries|) && SameRecords(g, PartsOf(entries, schema, n, state))
    ensures StoredAs(t, n, state, g)
  {
    hide Readable, Valid, Returned;
    var schema :| Readable(entries, schema, n, state, |entries|) && SameRecords(g, PartsOf(entries, schema, n, state));
    PartsNumber(entries, schema, n, state);
  }

  /** The successor of the current generation, or the current generation above its retained source, is readable. */
  ghost predicate PendingReadable(d: Dir, candidate: Number)
  {
    && d.pointer.Some? && candidate > 0 && RootAt(d, candidate)
    && (exists state :: StateIn(TreeAt(d, candidate)) == Some(state) && Maps(TreeAt(d, candidate), candidate, state))
    && (|| d.pointer.value.number == candidate - 1
        || (&& d.pointer.value.number == candidate && RootAt(d, candidate - 1)
            && forall n: Number :: RootAt(d, n) ==> n <= candidate))
  }

  lemma ListedStates(d: Dir)
    ensures HistorySafe(d) ==> forall n: Number {:trigger RootAt(d, n)} :: RootAt(d, n) ==> StateIn(TreeAt(d, n)).Some?
  {
    hide SchemaIn, StateIn, MarkedIn, DigestIn, TreesShaped, RunsConsecutive;
    if HistorySafe(d) {
      forall n: Number | RootAt(d, n) ensures StateIn(TreeAt(d, n)).Some? {
        assert RootOk(d, d.pointer.value.number, n);
      }
    }
  }

  lemma PendingAccepted(d: Dir, roots: seq<GenerationRoot>, candidate: Number)
    requires ListsRoots(d, roots) && candidate >= 2
    ensures HistorySafe(d) && PendingReadable(d, candidate) ==>
      && RunsShape(roots) && d.pointer.value.state == Committed
      && (forall r :: r in roots ==> r.number <= candidate && (r.number != candidate ==> r.state == Committed))
      && (exists r :: r in roots && r.number == candidate - 1 && r.state == Committed)
      && exists r :: r in roots && r.number == candidate
    ensures HistorySafe(d) && PendingReadable(d, candidate) && d.pointer.value.number == candidate ==>
      StateIn(TreeAt(d, candidate)) == Some(Committed)
  {
    hide SchemaIn, StateIn, MarkedIn, DigestIn, TreesShaped, RunsConsecutive, RunsShape, Maps;
    if HistorySafe(d) && PendingReadable(d, candidate) {
      SafeHistoryIsAccepted(d, roots);
      forall r | r in roots ensures r.number <= candidate && (r.number != candidate ==> r.state == Committed) {
        assert RootAt(d, r.number);
        assert RootOk(d, d.pointer.value.number, r.number);
      }
      assert RootAt(d, candidate) && RootOk(d, d.pointer.value.number, candidate);
      assert RootAt(d, candidate - 1);
      assert ListedNumber(roots, candidate - 1) && ListedNumber(roots, candidate);
    }
  }

  lemma NeighbourListed(d: Dir, roots: seq<GenerationRoot>, candidate: Number)
    requires ListsRoots(d, roots) && candidate >= 2 && forall r :: r in roots ==> r.number <= candidate
    requires exists r :: r in roots && r.number == candidate - 1 && r.state == Committed
    ensures RootAt(d, candidate - 1) && forall n: Number :: RootAt(d, n) ==> n <= candidate
  {
    hide SchemaIn, StateIn;
    forall n: Number | RootAt(d, n) ensures n <= candidate { assert ListedNumber(roots, n); }
  }

  lemma PendingRoot(d: Dir, roots: seq<GenerationRoot>, candidate: Number)
    requires ListsRoots(d, roots) && exists r :: r in roots && r.number == candidate
    ensures RootAt(d, candidate) && StateIn(TreeAt(d, candidate)).Some?
  {
    hide SchemaIn, StateIn;
  }

  lemma PendingEvidence(t: Tree, n: Number, state: State)
    requires WellNamed(t) && Maps(t, n, state)
    ensures RootDn in t && (SchemaIn(t) == V3 ==> MetadataReadable(t[RootDn], n))
  {
    hide Maps, SchemaIn, MetadataReadable, ReadItem;
    MappedRoot(t, n, state);
    if SchemaIn(t) == V3 { var s := MappedV3(t, n, state); }
  }

  lemma NothingWritten(d: Dir, candidate: Generation, metadata: Metadata)
    requires HistorySafe(d) && !RootAt(d, candidate.number)
    ensures TreeAt(d, candidate.number) == map[] == Written(Steps(candidate, metadata)[..0])
  {
    hide WriteSequence, PointerMatches, RunsConsecutive;
    Shaped(d, candidate.number);
    if TreeAt(d, candidate.number) != map[] { RootedHasRoot(TreeAt(d, candidate.number)); }
  }

  lemma WrittenPart(candidate: Generation, metadata: Metadata, k: nat)
    requires k <= |Steps(candidate, metadata)|
    ensures PartlyWritten(Written(Steps(candidate, metadata)[..k]), candidate, metadata)
  {
    hide WriteSequence, Written;
  }

  // ---------------------------------------------------------------------------------------------
  // Activation
  // ---------------------------------------------------------------------------------------------

  /** The v3 source root gets its activation mark before the pointer leaves it. Whatever became of the request, the mark
      is read back: as long as that succeeds, the answer is yes exactly when the mark is there. */
  method MarkSourceWasActive(r: Store, source: Pointer, faulty: bool, blind: bool) returns (ok: bool)
    requires HistorySafe(r.dir) && r.dir.pointer == Some(source) && source.v3
    modifies r`dir
    ensures HistorySafe(r.dir) && r.dir.pointer == old(r.dir.pointer)
    ensures forall n: Number :: n != source.number ==> TreeAt(r.dir, n) == old(TreeAt(r.dir, n))
    ensures SameOrMarked(old(TreeAt(r.dir, source.number)), TreeAt(r.dir, source.number))
    ensures ok ==> MarkedIn(TreeAt(r.dir, source.number))
    ensures
      && !faulty && !blind && old(Maps(TreeAt(r.dir, source.number), source.number, Committed))
      && old(MarkReadable(TreeAt(r.dir, source.number))) ==>
        ok
    ensures !blind && !old(MarkedIn(TreeAt(r.dir, source.number))) ==>
      (ok <==> MarkedIn(TreeAt(r.dir, source.number)))
  {
    hide HistorySafe, Maps, RootIs, MarkedIn, SchemaIn, StateIn, DigestIn;
    var t := TreeAt(r.dir, source.number);
    SourceRoot(r.dir);
    var unread := Disturbed(faulty);
    if unread || !RootIs(t, source.number, SCHEMA_V3, Committed) || DigestIn(t) != Some(source.digest) { return false; }
    if WasActive in t[RootDn].values { return MarkedIn(t); }
    var refused := Disturbed(faulty);
    if !refused {
      MarkIsSafe(r.dir, source.number);
      r.dir := WithTree(r.dir, source.number, MarkRoot(t));
    }
    // a refusal or a lost reply is settled by reading the mark back
    var unobserved := Disturbed(blind);
    ok := !unobserved && MarkedIn(TreeAt(r.dir, source.number));
  }

  ghost predicate SameOrMarked(t: Tree, t': Tree) { t' == t || (RootDn in t && t' == MarkRoot(t)) }

  lemma SourceRoot(d: Dir)
    requires HistorySafe(d) && d.pointer.value.v3
    ensures var n, t := d.pointer.value.number, TreeAt(d, d.pointer.value.number);
      && RootDn in t && SchemaIn(t) == V3 && WellNamed(t) && Rooted(t) && DigestIn(t) == Some(d.pointer.value.digest)
      && (Maps(t, n, Committed) ==> RootIs(t, n, SCHEMA_V3, Committed))
      && (MarkReadable(t) && WasActive in t[RootDn].values ==> MarkedIn(t))
  {
    hide SchemaIn, DigestIn, Maps, RootIs, RunsConsecutive;
    var n := d.pointer.value.number;
    Shaped(d, n);
    if Maps(TreeAt(d, n), n, Committed) { MappedIs(TreeAt(d, n), n, Committed); }
  }

  lemma MappedIs(t: Tree, n: Number, state: State)
    requires WellNamed(t) && Maps(t, n, state) && SchemaIn(t) == V3
    ensures RootIs(t, n, SCHEMA_V3, state)
    ensures MetadataReadable(t[RootDn], n) && RootSealedBy(t, ReadMetadata(t[RootDn], n), state)
  {
    hide Maps, SchemaIn, Decimal, ParseNumber, ValidOperation;
    var s := MappedV3(t, n, state);
    GenerationText(t[RootDn], n);
    RecordedSource(t[RootDn], n);
  }

  lemma MarkIsSafe(d: Dir, n: Number)
    requires HistorySafe(d) && RootAt(d, n) && WellNamed(TreeAt(d, n)) && Rooted(TreeAt(d, n))
    ensures HistorySafe(WithTree(d, n, MarkRoot(TreeAt(d, n)))) && MarkedIn(MarkRoot(TreeAt(d, n)))
    ensures TreeAt(WithTree(d, n, MarkRoot(TreeAt(d, n))), n) == MarkRoot(TreeAt(d, n))
    ensures forall m: Number :: m != n ==> TreeAt(WithTree(d, n, MarkRoot(TreeAt(d, n))), m) == TreeAt(d, m)
  {
    hide HistorySafe, WellNamed, Rooted;
    MarkShape(TreeAt(d, n));
    OtherTrees(d, n, MarkRoot(TreeAt(d, n)));
    SameFactsKeepSafe(d, n, MarkRoot(TreeAt(d, n)));
  }

  /** Commits exactly the staging root that carries the metadata. */
  method CommitCampaignGeneration(r: Store, m: Metadata, faulty: bool) returns (ok: bool)
    requires HistorySafe(r.dir) && m.generation == r.dir.pointer.value.number + 1
    modifies r`dir
    ensures HistorySafe(r.dir) && r.dir.pointer == old(r.dir.pointer)
    ensures forall n: Number :: n != m.generation ==> TreeAt(r.dir, n) == old(TreeAt(r.dir, n))
    ensures
      || TreeAt(r.dir, m.generation) == old(TreeAt(r.dir, m.generation))
      || SealedFrom(old(TreeAt(r.dir, m.generation)), TreeAt(r.dir, m.generation), m)
    ensures ok ==> SealedFrom(old(TreeAt(r.dir, m.generation)), TreeAt(r.dir, m.generation), m)
    ensures !faulty && old(RootSealedBy(TreeAt(r.dir, m.generation), m, Staging)) ==> ok
  {
    hide HistorySafe, RootSealedBy;
    SafeFacts(r.dir);
    Shaped(r.dir, m.generation);
    var t := TreeAt(r.dir, m.generation);
    var refused := Disturbed(faulty);
    if refused || !RootSealedBy(t, m, Staging) { return false; }
    SealIsSafe(r.dir, m);
    r.dir := WithTree(r.dir, m.generation, CommitRoot(t));
    var lost := Disturbed(faulty);
    ok := !lost;
  }

  ghost predicate SealedFrom(t: Tree, t': Tree, m: Metadata) { RootSealedBy(t, m, Staging) && t' == CommitRoot(t) }

  /** Unchanged, or committed from a v3 root that carries the digest. */
  ghost predicate SameOrSealed(t: Tree, t': Tree, digest: Bytes)
  {
    t' == t || (RootDn in t && SchemaIn(t) == V3 && DigestIn(t) == Some(digest) && t' == CommitRoot(t))
  }

  lemma SealedKeepsDigest(t: Tree, t': Tree, m: Metadata)
    requires SealedFrom(t, t', m)
    ensures SameOrSealed(t, t', m.commitment)
  {
    SealedIsV3(t, m);
  }

  lemma SealIsSafe(d: Dir, m: Metadata)
    requires HistorySafe(d) && m.generation == d.pointer.value.number + 1
    requires RootSealedBy(TreeAt(d, m.generation), m, Staging)
    ensures RootDn in TreeAt(d, m.generation)
    ensures var t := TreeAt(d, m.generation); var e := WithTree(d, m.generation, CommitRoot(t));
      && HistorySafe(e) && TreeAt(e, m.generation) == CommitRoot(t)
      && forall n: Number :: n != m.generation ==> TreeAt(e, n) == TreeAt(d, n)
  {
    hide HistorySafe, WellNamed, Rooted;
    SafeFacts(d);
    Shaped(d, m.generation);
    var t := TreeAt(d, m.generation);
    CommitShape(t);
    OtherTrees(d, m.generation, CommitRoot(t));
    SealKeepsSafe(d, CommitRoot(t));
  }

  /** Moves the pointer from exactly the observed source to the committed candidate. */
  method SwitchCurrentCampaign(r: Store, source: Pointer, m: Metadata, faulty: bool) returns (ok: bool)
    requires HistorySafe(r.dir) && m.generation == source.number + 1 && RootAt(r.dir, m.generation)
    requires StateIn(TreeAt(r.dir, m.generation)) == Some(Committed)
    requires DigestIn(TreeAt(r.dir, m.generation)) == Some(m.commitment)
    requires r.dir.pointer == Some(source) && (source.v3 ==> MarkedIn(TreeAt(r.dir, source.number)))
    modifies r`dir
    ensures HistorySafe(r.dir) && r.dir.trees == old(r.dir.trees)
    ensures
      || r.dir.pointer == old(r.dir.pointer)
      || r.dir.pointer == Some(Pointer(true, m.generation, Committed, m.commitment))
    ensures ok ==> r.dir.pointer == Some(Pointer(true, m.generation, Committed, m.commitment))
    ensures !faulty ==> ok
  {
    hide HistorySafe, StateIn, DigestIn, MarkedIn, SchemaIn;
    var refused := Disturbed(faulty);
    if refused || r.dir.pointer != Some(source) { return false; }
    var next := Pointer(true, m.generation, Committed, m.commitment);
    SourceSchema(r.dir);
    SwitchKeepsSafe(r.dir, next);
    r.dir := r.dir.(pointer := Some(next));
    // the reply or the readback of the pointer may be lost
    var lost := Disturbed(faulty);
    ok := !lost;
  }

  lemma SourceSchema(d: Dir)
    requires HistorySafe(d)
    ensures d.pointer.Some? && (d.pointer.value.v3 <==> V3Root(d, d.pointer.value.number))
    ensures d.pointer.value.state == Committed
  {
    hide SchemaIn, TreesShaped, RunsConsecutive;
  }

  /** A staged candidate that an undisturbed activation accepts. */
  ghost predicate Activatable(d: Dir, m: Metadata)
  {
    && d.pointer.Some? && m.generation == d.pointer.value.number + 1 && m.source == d.pointer.value.number
    && (exists state :: PendingAt(d, m, state))
    && Maps(TreeAt(d, m.source), m.source, Committed) && MarkReadable(TreeAt(d, m.source))
  }

  ghost predicate PendingAt(d: Dir, m: Metadata, state: State)
  {
    var t := TreeAt(d, m.generation);
    && m.generation >= 2 && RootAt(d, m.generation) && StateIn(t) == Some(state) && Maps(t, m.generation, state)
    && SchemaIn(t) == V3
    && MetadataReadable(t[RootDn], m.generation) && ReadMetadata(t[RootDn], m.generation) == m
  }

  /** Nothing about any root changes but the mark of the source and the state of the candidate. */
  ghost predicate OnlyActivated(before: Dir, d: Dir, m: Metadata)
  {
    && (forall n: Number :: n != m.generation && n != m.source ==> TreeAt(d, n) == TreeAt(before, n))
    && (m.source < m.generation ==>
          && SameOrMarked(TreeAt(before, m.source), TreeAt(d, m.source))
          && SameOrSealed(TreeAt(before, m.generation), TreeAt(d, m.generation), m.commitment))
  }

  /** Activates one pending v3 candidate: mark the source, commit the candidate, switch the pointer once. */
  method CommitCampaignAndSwitch(r: Store, evidence: Metadata, faulty: bool, blind: bool) returns (ok: bool)
    requires HistorySafe(r.dir) && JournalSafe(r.dir, r.journal)
    modifies r`dir
    ensures HistorySafe(r.dir) && JournalSafe(r.dir, r.journal) && OnlyActivated(old(r.dir), r.dir, evidence)
    ensures LegacyImmutable(old(r.dir), r.dir)
    ensures
      || r.dir.pointer == old(r.dir.pointer)
      || (&& r.dir.pointer == Some(Pointer(true, evidence.generation, Committed, evidence.commitment))
          && evidence.source == old(r.dir.pointer.value.number) == evidence.generation - 1)
    ensures ok || r.dir.pointer != old(r.dir.pointer) ==>
      Maps(TreeAt(r.dir, evidence.generation), evidence.generation, Committed)
    ensures ok ==> r.dir.pointer == Some(Pointer(true, evidence.generation, Committed, evidence.commitment))
    ensures !faulty && !blind && old(Activatable(r.dir, evidence)) ==> ok
  {
    hide HistorySafe, JournalSafe, Maps, TreesShaped, SchemaIn, StateIn, DigestIn, MarkedIn, RootSealedBy, CommitRoot,
      PendingReadable, ReadMetadata, MetadataReadable, PendingAt, PendingOf, RootAt, MarkRoot, LegacyImmutable,
      SameOrSealed, SealedFrom, SameOrMarked;
    ghost var before, n := r.dir, evidence.generation;
    NothingChanged(r.dir);
    ghost var clean := !faulty && !blind && Activatable(r.dir, evidence);
    Unactivated(r.dir, evidence);
    SafeFacts(r.dir);
    if clean { ActivatableIsPending(r.dir, evidence); }
    var loaded := LoadPending(r, evidence.generation, faulty);
    if loaded.Err? { return false; }
    var prepared := loaded.value;
    PendingMeans(r.dir, prepared);
    if clean { ActivatableIsPrepared(r.dir, evidence, prepared); }
    if prepared.metadata.None? || prepared.metadata.value.commitment != evidence.commitment ||
       evidence.source != prepared.candidate - 1
    {
      return false;
    }
    var observed := prepared.metadata.value;
    SealedByEvidence(r.dir, prepared, observed);
    if prepared.observed.number == prepared.candidate { return true; }
    var source := prepared.observed;
    if source.v3 {
      SourceSchema(r.dir);
      var marked := MarkSourceWasActive(r, source, faulty, blind);
      JournalStays(before, r.dir, r.journal, evidence);
      ActivationSparesLegacy(before, r.dir, evidence);
      if !marked { return false; }
    }
    SourceSchema(r.dir);
    ghost var marked := r.dir;
    assert TreeAt(marked, n) == TreeAt(before, n);
    if prepared.state == Staging {
      var committed := CommitCampaignGeneration(r, observed, faulty);
      if TreeAt(r.dir, n) != TreeAt(before, n) { SealedKeepsDigest(TreeAt(before, n), TreeAt(r.dir, n), observed); }
      JournalStays(before, r.dir, r.journal, evidence);
      ActivationSparesLegacy(before, r.dir, evidence);
      if !committed { return false; }
    }
    CommittedFacts(before, r.dir, prepared, observed);
    ghost var sealed := r.dir;
    var switched := SwitchCurrentCampaign(r, source, observed, faulty);
    assert forall m: Number :: TreeAt(r.dir, m) == TreeAt(sealed, m);
    JournalStays(before, r.dir, r.journal, evidence);
    ActivationSparesLegacy(before, r.dir, evidence);
    if !switched { return false; }
    SafeFacts(r.dir);
    SwitchedPending(before, r.dir, evidence);
    var final := LoadPending(r, evidence.generation, faulty);
    ok := final.Ok?;
  }

  /** Subtrees of roots written before campaigns existed stay as they are. */
  ghost predicate LegacyImmutable(before: Dir, d: Dir)
  {
    forall n: Number {:trigger TreeAt(d, n)} :: Legacy(before, n) ==> TreeAt(d, n) == TreeAt(before, n)
  }

  lemma NothingChanged(d: Dir)
    ensures LegacyImmutable(d, d)
  {
    hide SchemaIn;
  }

  /** Only a v3 root is ever sealed or marked. */
  lemma ActivationSparesLegacy(before: Dir, d: Dir, m: Metadata)
    requires OnlyActivated(before, d, m) && m.source < m.generation
    requires TreeAt(d, m.source) == TreeAt(before, m.source) || V3Root(before, m.source)
    ensures LegacyImmutable(before, d)
  {
    hide SchemaIn, CommitRoot, MarkRoot, SameOrMarked;
  }

  lemma SealedIsV3(t: Tree, m: Metadata)
    requires RootSealedBy(t, m, Staging)
    ensures SchemaIn(t) == V3
  {
    assert SCHEMA_V3 != SCHEMA_V1 && SCHEMA_V3 != SCHEMA_V2 by {
      assert SCHEMA_V3[|SCHEMA_V3| - 1] != SCHEMA_V1[|SCHEMA_V1| - 1];
      assert SCHEMA_V3[|SCHEMA_V3| - 1] != SCHEMA_V2[|SCHEMA_V2| - 1];
    }
  }

  lemma Unactivated(d: Dir, m: Metadata)
    ensures OnlyActivated(d, d, m)
  {}

  lemma ActivatableIsPending(d: Dir, m: Metadata)
    requires Activatable(d, m)
    ensures m.generation >= 2 && PendingReadable(d, m.generation)
  {
    hide Maps, StateIn, SchemaIn, MetadataReadable, ReadMetadata, RootAt;
    var state :| PendingAt(d, m, state);
    assert StateIn(TreeAt(d, m.generation)) == Some(state) && Maps(TreeAt(d, m.generation), m.generation, state);
  }

  lemma PendingMeans(d: Dir, p: Pending)
    requires PendingOf(d, p)
    ensures p.candidate >= 2 && d.pointer == Some(p.observed)
    ensures p.observed.number == p.candidate || p.observed.number == p.candidate - 1
    ensures p.metadata.Some? ==> p.metadata.value.generation == p.candidate > p.metadata.value.source
  {
    hide Maps, StateIn, SchemaIn, RootAt;
  }

  lemma ActivatableIsPrepared(d: Dir, m: Metadata, p: Pending)
    requires Activatable(d, m) && PendingOf(d, p) && p.candidate == m.generation
    ensures p.metadata == Some(m) && m.source == p.candidate - 1 && p.observed.number == m.source
  {
    hide Maps, StateIn, SchemaIn, MetadataReadable, ReadMetadata, RootAt;
  }

  lemma SealedByEvidence(d: Dir, p: Pending, m: Metadata)
    requires HistorySafe(d) && PendingOf(d, p) && p.metadata == Some(m) && p.candidate == m.generation
    ensures var t := TreeAt(d, m.generation);
      && RootAt(d, m.generation) && RootSealedBy(t, m, p.state) && StateIn(t) == Some(p.state)
      && DigestIn(t) == Some(m.commitment) && Maps(t, m.generation, p.state)
    ensures p.observed.number == m.generation ==>
      p.state == Committed && d.pointer == Some(Pointer(true, m.generation, Committed, m.commitment))
  {
    hide Maps, StateIn, SchemaIn, RootSealedBy, RunsConsecutive;
    Shaped(d, m.generation);
    MappedIs(TreeAt(d, m.generation), m.generation, p.state);
  }

  lemma JournalStays(before: Dir, d: Dir, journal: Option<PurgePlan>, m: Metadata)
    requires JournalSafe(before, journal) && OnlyActivated(before, d, m) && m.source < m.generation
    requires before.pointer.Some? && d.pointer.Some? && before.pointer.value.number <= d.pointer.value.number
    ensures JournalSafe(d, journal)
  {
    hide SameOrMarked, SameOrSealed, SchemaIn;
    SameRootsKept(TreeAt(before, m.source), TreeAt(d, m.source), TreeAt(before, m.generation), TreeAt(d, m.generation),
                  m);
    forall n: Number ensures RootAt(d, n) == RootAt(before, n) && V3Root(d, n) == V3Root(before, n) {}
  }

  lemma SameRootsKept(s: Tree, s': Tree, t: Tree, t': Tree, m: Metadata)
    requires SameOrMarked(s, s') && SameOrSealed(t, t', m.commitment)
    ensures (RootDn in s <==> RootDn in s') && SchemaIn(s) == SchemaIn(s')
    ensures (RootDn in t <==> RootDn in t') && SchemaIn(t) == SchemaIn(t')
  {}

  /** Committing the root keeps what a search reads, in the new state. */
  lemma StoredCommitted(t: Tree, n: Number, state: State, g: Generation, h: Generation)
    requires WellNamed(t) && StoredAs(t, n, state, g) && RootDn in t && StoredAs(CommitRoot(t), n, Committed, h)
    ensures h == g.(state := Committed)
  {
    hide Valid, Consistent, Canonical, PartsOf, Returned, Sealed, Readable, SameRecords, RootUpdate;
    var s, x :| Returned(s, t) && Readable(s, x, n, state, |s|) && SameRecords(g, PartsOf(s, x, n, state));
    assert Maps(t, n, state);
    MappedRoot(t, n, state);
    var root := CommitRoot(t)[RootDn];
    assert CommitRoot(t) == t[RootDn := root];
    CommitUpdates(t, state);
    var i, u := ReturnedRoot(s, t, root);
    ReadableNames(s, x, n, state);
    ExchangedParts(s, u, i, x, n, state, Committed);
    ExchangedReadable(s, u, i, x, n, state, Committed);
    CommittedValid(g, PartsOf(s, x, n, state));
    assert StoredAs(CommitRoot(t), n, Committed, g.(state := Committed));
    StoredIsUnique(CommitRoot(t), n, Committed, g.(state := Committed), h);
  }

  lemma CommitUpdates(t: Tree, state: State)
    requires RootDn in t && t[RootDn].dn == RootDn && DatasetState in t[RootDn].values
    ensures RootUpdate(t[RootDn], CommitRoot(t)[RootDn], state, Committed)
  {}

  lemma ReadableNames(s: seq<Entry>, schema: string, n: Number, state: State)
    requires Readable(s, schema, n, state, |s|)
    ensures DistinctNames(s) && AllRead(s, schema, n, state)
  {
    hide Consistent, Sealed, PartsOf, DistinctNames, AllRead, HasItem;
  }

  lemma CommittedValid(g: Generation, parts: Generation)
    requires Valid(g) && SameRecords(g, parts)
    ensures Valid(g.(state := Committed)) && SameRecords(g.(state := Committed), parts.(state := Committed))
  {
    hide Consistent;
    CommittedConsistent(g, Committed);
  }

  lemma CommittedRootFacts(t: Tree)
    requires RootDn in t
    ensures RootDn in CommitRoot(t) && StateIn(CommitRoot(t)) == Some(Committed)
    ensures SchemaIn(CommitRoot(t)) == SchemaIn(t) && DigestIn(CommitRoot(t)) == DigestIn(t)
  {}

  /** Committing the root of a mapped staging subtree. */
  lemma CommittedMaps(t: Tree, n: Number)
    requires WellNamed(t) && Maps(t, n, Staging)
    ensures RootDn in t && Maps(CommitRoot(t), n, Committed)
  {
    hide Maps;
    MappedRoot(t, n, Staging);
    UpdateMaps(t, CommitRoot(t)[RootDn], n, Staging, Committed);
    assert CommitRoot(t) == t[RootDn := CommitRoot(t)[RootDn]];
  }

  lemma CommittedFacts(before: Dir, d: Dir, p: Pending, m: Metadata)
    requires TreesShaped(before) && p.candidate == m.generation
    requires RootAt(before, m.generation) && StateIn(TreeAt(before, m.generation)) == Some(p.state)
    requires DigestIn(TreeAt(before, m.generation)) == Some(m.commitment)
    requires Maps(TreeAt(before, m.generation), m.generation, p.state)
    requires
      if p.state == Staging then SealedFrom(TreeAt(before, m.generation), TreeAt(d, m.generation), m)
      else TreeAt(d, m.generation) == TreeAt(before, m.generation)
    ensures RootAt(d, m.generation) && StateIn(TreeAt(d, m.generation)) == Some(Committed)
    ensures DigestIn(TreeAt(d, m.generation)) == Some(m.commitment)
    ensures Maps(TreeAt(d, m.generation), m.generation, Committed)
  {
    hide Maps, StateIn, DigestIn, CommitRoot, RootSealedBy, TreesShaped, WellNamed;
    var t := TreeAt(before, m.generation);
    Shaped(before, m.generation);
    if p.state == Staging {
      CommittedMaps(t, m.generation);
      CommittedRootFacts(t);
    }
  }

  lemma SwitchedPending(before: Dir, d: Dir, m: Metadata)
    requires HistorySafe(before) && OnlyActivated(before, d, m) && m.source == m.generation - 1
    requires before.pointer.value.number == m.source && m.source > 0
    requires d.pointer.Some? && d.pointer.value.number == m.generation
    requires RootAt(d, m.generation) && StateIn(TreeAt(d, m.generation)) == Some(Committed)
    requires Maps(TreeAt(d, m.generation), m.generation, Committed)
    ensures PendingReadable(d, m.generation)
  {
    hide Maps, SameOrMarked, SameOrSealed, SchemaIn, StateIn, TreesShaped, RunsConsecutive, MarkedIn;
    SameRootsKept(TreeAt(before, m.source), TreeAt(d, m.source), TreeAt(before, m.generation), TreeAt(d, m.generation),
                  m);
    assert StateIn(TreeAt(d, m.generation)) == Some(Committed);
    assert Maps(TreeAt(d, m.generation), m.generation, Committed);
    forall n: Number | RootAt(d, n) ensures n <= m.generation {
      assert RootAt(before, n) && RootOk(before, m.source, n);
    }
  }

  // ---------------------------------------------------------------------------------------------
  // Adds in order
  // ---------------------------------------------------------------------------------------------

  lemma WrittenMore(entries: seq<Entry>, i: nat)
    requires i < |entries|
    ensures Written(entries[..i + 1]) == AddTo(Written(entries[..i]), entries[i])
  {
    assert entries[..i + 1][..i] == entries[..i];
  }

  lemma StagedRootFacts(n: Number, m: Metadata)
    ensures var t: Tree := AddTo(map[], RootEntry(n, Some(m)));
      WellNamed(t) && Rooted(t) && RootDn in t && SchemaIn(t) == V3 && StateIn(t) == Some(Staging)
  {
    assert SCHEMA_V3 != SCHEMA_V1 && SCHEMA_V3 != SCHEMA_V2 by {
      assert SCHEMA_V3[|SCHEMA_V3| - 1] != SCHEMA_V1[|SCHEMA_V1| - 1];
      assert SCHEMA_V3[|SCHEMA_V3| - 1] != SCHEMA_V2[|SCHEMA_V2| - 1];
    }
  }

  /** Each add of an undisturbed order succeeds and keeps the history safe. */
  lemma AddIsSafe(d: Dir, candidate: Generation, metadata: Metadata, i: nat)
    requires HistorySafe(d) && CandidateFor(d, candidate, metadata) && i < |Steps(candidate, metadata)|
    requires TreeAt(d, candidate.number) == Written(Steps(candidate, metadata)[..i])
    ensures var n, e := candidate.number, Steps(candidate, metadata)[i];
      var after := AddTo(TreeAt(d, n), e);
      && Addable(TreeAt(d, n), e) && after == Written(Steps(candidate, metadata)[..i + 1])
      && HistorySafe(WithTree(d, n, after))
      && (forall m: Number :: m != n ==> TreeAt(WithTree(d, n, after), m) == TreeAt(d, m))
      && TreeAt(WithTree(d, n, after), n) == after
  {
    hide HistorySafe, Writable, MetadataSeals, WriteSequence, RootEntry, WellNamed, Rooted, SchemaIn, StateIn,
      SameRootFacts;
    var n, w := candidate.number, Steps(candidate, metadata);
    var t := TreeAt(d, n);
    var after := AddTo(t, w[i]);
    WrittenMore(w, i);
    NextIsAddable(candidate, Some(metadata), i);
    OtherTrees(d, n, after);
    Safely(d);
    Shaped(d, n);
    AddKeepsShape(t, w[i]);
    if i == 0 {
      StagedRootFacts(n, metadata);
      assert w[..0] == [];
      NewRootKeepsSafe(d, after);
    } else {
      SameRoot(t, after);
      SameFactsKeepSafe(d, n, after);
    }
  }

  lemma Safely(d: Dir)
    requires HistorySafe(d)
    ensures TreesShaped(d) && PointerMatches(d)
  {
    hide TreesShaped, PointerMatches;
  }

  // ---------------------------------------------------------------------------------------------
  // Recognising a stored candidate
  // ---------------------------------------------------------------------------------------------

  /** The stored candidate is the given one, possibly committed in the meantime. */
  method CampaignPreparedMatches(p: Pending, candidate: Generation, metadata: Metadata) returns (ok: bool)
    requires Valid(p.stored) && Valid(candidate)
    ensures ok <==>
      && p.candidate - 1 == metadata.source && p.candidate == metadata.generation && p.metadata.Some?
      && p.metadata.value.commitment == metadata.commitment
      && (|| SameRecords(candidate, p.stored)
          || (&& candidate.state == Staging && p.stored.state == Committed
              && SameRecords(candidate, p.stored.(state := Staging))))
  {
    hide Consistent, Canonical, SameRecords;
    if p.candidate - 1 != metadata.source || p.candidate != metadata.generation { return false; }
    if p.metadata.None? || p.metadata.value.commitment != metadata.commitment { return false; }
    EquivalentIsSameRecords(candidate, p.stored);
    if candidate.state == Staging && p.stored.state == Committed {
      CommittedConsistent(p.stored, Staging);
      var staging := NewGeneration(p.stored.(state := Staging));
      if staging.Err? { return false; }
      EquivalentIsSameRecords(candidate, staging.value);
      Reordered(candidate, staging.value, p.stored.(state := Staging));
      DifferentStates(candidate, p.stored);
      return candidate == staging.value;
    }
    ok := candidate == p.stored;
  }

  lemma Reordered(a: Generation, b: Generation, c: Generation)
    requires SameRecords(b, c)
    ensures SameRecords(a, b) <==> SameRecords(a, c)
  {}

  lemma DifferentStates(a: Generation, b: Generation)
    requires a.state != b.state
    ensures !SameRecords(a, b)
  {}

  /** The digest already decides: a loaded candidate with the digest of a committed-to one matches it exactly when it is
      no earlier in its lifecycle. */
  lemma DigestDecides(d: Dir, p: Pending, candidate: Generation, metadata: Metadata)
    requires TreesShaped(d) && PendingOf(d, p) && Valid(candidate) && Bounded(p.stored) && Bounded(candidate)
    requires Commits(metadata, candidate)
    requires p.metadata.Some? && p.metadata.value.commitment == metadata.commitment
    ensures p.metadata.value == metadata && p.candidate == metadata.generation
    ensures
      || SameRecords(candidate, p.stored)
      || (&& candidate.state == Staging && p.stored.state == Committed
          && SameRecords(candidate, p.stored.(state := Staging))) <==>
      (candidate.state == Committed ==> p.stored.state == Committed)
  {
    hide Consistent, Canonical, Commits, Bounded, TreesShaped, PendingOf;
    StoredIsSealed(d, p);
    CommitmentBinds(metadata, candidate, p.metadata.value, p.stored);
  }

  /** A loaded v3 candidate is committed to by its metadata. */
  lemma StoredIsSealed(d: Dir, p: Pending)
    requires TreesShaped(d) && PendingOf(d, p) && p.metadata.Some?
    ensures Valid(p.stored) && p.stored.number == p.candidate == p.metadata.value.generation
    ensures Commits(p.metadata.value, p.stored)
  {
    hide Consistent, Canonical, Commits, TreesShaped, Maps, PartsOf, SchemaIn, StateIn, ReadItem, HasItem, RootReadable;
    var t, n := TreeAt(d, p.candidate), p.candidate;
    Shaped(d, n);
    var entries, schema :| Returned(entries, t) && Readable(entries, schema, n, p.state, |entries|) &&
      SameRecords(p.stored, PartsOf(entries, schema, n, p.state));
    assert t[RootDn] in entries;
    assert ReadItem(t[RootDn], schema, n, p.state).Some?;
    RootItemOnly(t[RootDn], schema, n, p.state);
    SchemaOnRoot(t, schema);
    CommitmentIgnoresOrderAndState(p.metadata.value, p.stored, PartsOf(entries, schema, n, p.state));
  }

  /** Two complete searches return the same generation. */
  lemma StoredIsUnique(t: Tree, n: Number, state: State, g: Generation, h: Generation)
    requires StoredAs(t, n, state, g) && StoredAs(t, n, state, h)
    ensures g == h
  {
    hide Valid, Consistent, Canonical, PartsOf, Returned, Sealed, SameRecords, AllRead, HasItem;
    var s, x :| Returned(s, t) && Readable(s, x, n, state, |s|) && SameRecords(g, PartsOf(s, x, n, state));
    var u, y :| Returned(u, t) && Readable(u, y, n, state, |u|) && SameRecords(h, PartsOf(u, y, n, state));
    ReturnedAlike(s, u, t);
    SameSchema(s, x, u, y, n, state);
    PartsPermuted(s, u, x, n, state);
    SameRecordsChain(g, PartsOf(s, x, n, state), PartsOf(u, x, n, state), h);
    EquivalentIsSameRecords(g, h);
  }

  lemma SameSchema(s: seq<Entry>, x: string, u: seq<Entry>, y: string, n: Number, state: State)
    requires multiset(s) == multiset(u) && Readable(s, x, n, state, |s|) && Readable(u, y, n, state, |u|)
    ensures x == y
  {
    hide Consistent, PartsOf, Sealed, ReadItem, HasItem;
    RootPresent(s, x, n, state);
    var e: Entry :| e in s && e.dn == RootDn;
    SameMembers(s, u);
    assert ReadItem(e, x, n, state).Some? && ReadItem(e, y, n, state).Some?;
    RootItemOnly(e, x, n, state);
    RootItemOnly(e, y, n, state);
  }

  lemma SameRecordsChain(a: Generation, b: Generation, c: Generation, d: Generation)
    requires SameRecords(a, b) && SameRecords(b, c) && SameRecords(d, c)
    ensures SameRecords(a, d)
  {}

  lemma SchemaOnRoot(t: Tree, schema: string)
    requires RootDn in t && SchemaVersion in t[RootDn].values && t[RootDn].values[SchemaVersion] == Text(schema)
    ensures SchemaIn(t) == V3 ==> schema == SCHEMA_V3
  {}
}

/** The automatic campaign over one directory: resume what is pending or stage a new candidate, then activate it. Any
    sequence of lifecycle commands with automatic retention in between, each stopped anywhere. */
module AutomaticCampaign {
  import opened Wrappers
  import opened Records
  import opened Generations
  import opened Candidate
  import opened Mapper
  import opened ReadBack
  import opened Directory
  import opened RetainedRoots
  import opened History
  import opened Purge
  import opened Retention
  import opened CampaignRun

  // ---------------------------------------------------------------------------------------------
  // One automatic campaign
  // ---------------------------------------------------------------------------------------------

  /** A history with a readable current generation. */
  ghost predicate Startable(d: Dir)
  {
    && HistorySafe(d) && d.pointer.value.number < MAX_NUMBER
    && Maps(TreeAt(d, d.pointer.value.number), d.pointer.value.number, Committed)
    && MarkReadable(TreeAt(d, d.pointer.value.number))
  }

  /** Nothing lies above the current generation, or a complete candidate made from it. */
  ghost predicate Resumable(d: Dir)
    requires d.pointer.Some? && d.pointer.value.number < MAX_NUMBER
  {
    !RootAt(d, d.pointer.value.number + 1) || exists m :: Activatable(d, m)
  }

  /** The pointer has moved past the one a journalled purge was planned under. */
  ghost predicate Overtaken(d: Dir, journal: Option<PurgePlan>)
  {
    journal.Some? && d.pointer.Some? && journal.value.current < d.pointer.value.number
  }

  /** Such a journal can never be recovered. */
  lemma OvertakenIsUnrecoverable(d: Dir, journal: Option<PurgePlan>)
    requires Overtaken(d, journal)
    ensures Unrecoverable(d, journal)
  {}

  /** Where a campaign is disturbed: at its first reads, while staging, while activating, or when an uncertain staging
      or activation is settled by reading. */
  datatype Faults = Faults(start: bool, staging: bool, activation: bool, settling: bool)

  const QUIET := Faults(false, false, false, false)

  const ANYWHERE := Faults(true, true, true, true)

  /** Activates a loaded candidate made from the current generation. A failed activation is settled by loading again: as
      long as that succeeds, the answer is yes exactly when the pointer moved, whatever happened to the activation. */
  method ContinueCampaign(r: Store, source: Number, prepared: Pending, faulty: bool, blind: bool) returns (ok: bool)
    requires HistorySafe(r.dir) && JournalSafe(r.dir, r.journal) && PendingOf(r.dir, prepared)
    requires source == r.dir.pointer.value.number
    modifies r`dir
    ensures HistorySafe(r.dir) && JournalSafe(r.dir, r.journal) && LegacyImmutable(old(r.dir), r.dir)
    ensures prepared.metadata.Some? && prepared.metadata.value.source == source ==>
      OnlyActivated(old(r.dir), r.dir, prepared.metadata.value)
    ensures prepared.metadata.None? || prepared.metadata.value.source != source ==> r.dir == old(r.dir) && !ok
    ensures r.dir.pointer == old(r.dir.pointer) || Moved(old(r.dir), r.dir)
    ensures ok || r.dir.pointer != old(r.dir.pointer) ==>
      Maps(TreeAt(r.dir, prepared.candidate), prepared.candidate, Committed)
    ensures ok ==>
      && Moved(old(r.dir), r.dir) && prepared.metadata.Some? && prepared.metadata.value.source == source
      && r.dir.pointer == Some(Pointer(true, prepared.candidate, Committed, prepared.metadata.value.commitment))
    ensures !blind ==> (ok <==> r.dir.pointer != old(r.dir.pointer))
    ensures !faulty && !blind && prepared.metadata.Some? && old(Activatable(r.dir, prepared.metadata.value)) ==> ok
  {
    hide HistorySafe, JournalSafe, Maps, PendingOf, Activatable, OnlyActivated, LegacyImmutable, TreesShaped,
      SameRecords, Valid;
    ghost var before := r.dir;
    PendingMeans(r.dir, prepared);
    PendingStored(r.dir, prepared);
    NothingChanged(r.dir);
    if prepared.metadata.Some? && Activatable(r.dir, prepared.metadata.value) {
      ActivatableIsPrepared(r.dir, prepared.metadata.value, prepared);
    }
    if prepared.metadata.None? || prepared.metadata.value.source != source { return false; }
    var m := prepared.metadata.value;
    Unactivated(r.dir, m);
    SafeFacts(r.dir);
    ghost var clean := !faulty && !blind && Activatable(r.dir, m);
    if clean { ActivatableIsPending(r.dir, m); }
    var refreshed := LoadPending(r, prepared.candidate, faulty);
    if refreshed.Err? { return false; }
    PendingStored(r.dir, refreshed.value);
    var same := CampaignPreparedMatches(refreshed.value, prepared.stored, m);
    if clean { LoadedTwice(r.dir, prepared, refreshed.value, m); }
    if !same || refreshed.value.observed.number != source { return false; }
    ok := CommitCampaignAndSwitch(r, m, faulty, blind);
    if !ok {
      SafeFacts(r.dir);
      ghost var moved := r.dir.pointer != before.pointer;
      if moved { MovedIsPending(before, r.dir, m); }
      var reconciled := LoadPending(r, m.generation, blind);
      if reconciled.Err? { return false; }
      PendingStored(r.dir, reconciled.value);
      PendingMeans(r.dir, reconciled.value);
      if moved { MovedMatches(before, r.dir, prepared, reconciled.value, m); }
      var matches := CampaignPreparedMatches(reconciled.value, prepared.stored, m);
      ok := matches && reconciled.value.observed.number == reconciled.value.candidate;
    }
  }

  /** The pointer moved by one, to a v3 root. */
  ghost predicate Moved(before: Dir, d: Dir)
  {
    && before.pointer.Some? && d.pointer.Some? && d.pointer.value.v3 && d.pointer.value.state == Committed
    && d.pointer.value.number == before.pointer.value.number + 1
  }

  lemma PendingStored(d: Dir, p: Pending)
    requires PendingOf(d, p)
    ensures Valid(p.stored)
  {
    hide Valid, Maps, SchemaIn, StateIn, MetadataReadable, ReadMetadata;
  }

  /** Loading an activatable candidate again gives the same candidate. */
  lemma LoadedTwice(d: Dir, p: Pending, q: Pending, m: Metadata)
    requires Activatable(d, m) && PendingOf(d, p) && PendingOf(d, q) && p.candidate == q.candidate == m.generation
    ensures p.metadata == q.metadata == Some(m) && q.observed.number == m.source == q.candidate - 1
    ensures SameRecords(p.stored, q.stored)
  {
    hide StoredAs, Maps, SchemaIn, StateIn, MetadataReadable, ReadMetadata;
    ActivatableIsPrepared(d, m, p);
    ActivatableIsPrepared(d, m, q);
    StoredIsUnique(TreeAt(d, m.generation), m.generation, p.state, p.stored, q.stored);
  }

  /** A generation that an activation has made current loads again. */
  lemma MovedIsPending(before: Dir, d: Dir, m: Metadata)
    requires HistorySafe(before) && HistorySafe(d) && OnlyActivated(before, d, m)
    requires d.pointer == Some(Pointer(true, m.generation, Committed, m.commitment))
    requires m.source == before.pointer.value.number == m.generation - 1
    requires Maps(TreeAt(d, m.generation), m.generation, Committed)
    ensures m.generation >= 2 && PendingReadable(d, m.generation)
  {
    hide HistorySafe, Maps, OnlyActivated, PendingReadable, TreesShaped;
    SafeFacts(before);
    SafeFacts(d);
    MappedState(d, m.generation, Committed);
    SwitchedPending(before, d, m);
  }

  /** ... and what is loaded is the candidate as it was stored before, now committed. */
  lemma MovedMatches(before: Dir, d: Dir, p: Pending, q: Pending, m: Metadata)
    requires HistorySafe(before) && HistorySafe(d) && OnlyActivated(before, d, m) && m.source < m.generation
    requires PendingOf(before, p) && PendingOf(d, q) && p.candidate == q.candidate == m.generation
    requires p.metadata == Some(m) && Maps(TreeAt(d, m.generation), m.generation, Committed)
    requires Valid(p.stored) && Valid(q.stored)
    ensures q.metadata.Some? && q.metadata.value.commitment == m.commitment
    ensures
      || SameRecords(p.stored, q.stored)
      || (&& p.stored.state == Staging && q.stored.state == Committed
          && SameRecords(p.stored, q.stored.(state := Staging)))
  {
    hide HistorySafe, Maps, SchemaIn, StateIn, DigestIn, MetadataReadable, ReadMetadata, Valid, StoredAs, CommitRoot,
      WellNamed, SameOrMarked;
    var n, t, u := m.generation, TreeAt(before, m.generation), TreeAt(d, m.generation);
    SafeFacts(before);
    SafeFacts(d);
    Shaped(before, n);
    MappedState(d, n, Committed);
    StoredNumbers(t, n, p.state, p.stored);
    StoredNumbers(u, n, q.state, q.stored);
    if u == t {
      StoredIsUnique(t, n, p.state, p.stored, q.stored);
    } else {
      CommittedRootFacts(t);
      CommittedEvidence(t, m);
      StoredCommitted(t, n, p.state, p.stored, q.stored);
    }
  }

  lemma StoredNumbers(t: Tree, n: Number, state: State, g: Generation)
    requires StoredAs(t, n, state, g)
    ensures g.number == n && g.state == state
  {
    hide Valid;
  }

  lemma PendingMaps(d: Dir, p: Pending)
    requires PendingOf(d, p)
    ensures Maps(TreeAt(d, p.candidate), p.candidate, p.state)
  {
    hide Maps, StateIn, SchemaIn, MetadataReadable, ReadMetadata, StoredAs;
  }

  /** What an interrupted campaign may have left while the pointer stayed: a part of the write, or the committed whole,
      and perhaps the mark on the source. */
  ghost predicate Interrupted(before: Dir, d: Dir, candidate: Generation, metadata: Metadata)
    requires before.pointer.Some? && before.pointer.value.number < MAX_NUMBER
  {
    var current: Number := before.pointer.value.number;
    var n: Number := current + 1;
    && (forall m: Number :: m != current && m != n ==> TreeAt(d, m) == TreeAt(before, m))
    && SameOrMarked(TreeAt(before, current), TreeAt(d, current))
    && (TreeAt(d, n) == map[] || candidate.number == n)
    && (PartlyWritten(TreeAt(d, n), candidate, metadata) ||
        (RootDn in Written(Steps(candidate, metadata)) &&
        TreeAt(d, n) == CommitRoot(Written(Steps(candidate, metadata)))))
  }

  /** Resumes the pending candidate if there is one; otherwise stages the planned one. Then activates it. Undisturbed
      this succeeds exactly when nothing lies above the current generation, or a complete candidate made from it. */
  method RunCampaign(r: Store, candidate: Generation, metadata: Metadata, faults: Faults) returns (ok: bool)
    requires HistorySafe(r.dir) && JournalSafe(r.dir, r.journal) && Valid(candidate) && Bounded(candidate)
    modifies r`dir
    ensures HistorySafe(r.dir) && JournalSafe(r.dir, r.journal) && LegacyImmutable(old(r.dir), r.dir)
    ensures r.dir.pointer == old(r.dir.pointer) || Moved(old(r.dir), r.dir)
    ensures ok ==>
      Moved(old(r.dir), r.dir) && Maps(TreeAt(r.dir, r.dir.pointer.value.number), r.dir.pointer.value.number, Committed)
    ensures ok ==> old(Maps(TreeAt(r.dir, r.dir.pointer.value.number), r.dir.pointer.value.number, Committed))
    ensures ok && r.journal.Some? ==> Overtaken(r.dir, r.journal)
    ensures old(Campaignable(r.dir)) && r.dir.pointer == old(r.dir.pointer) ==>
      Interrupted(old(r.dir), r.dir, candidate, metadata)
    ensures !faults.settling ==> (ok <==> r.dir.pointer != old(r.dir.pointer))
    ensures
      && faults == QUIET && old(Startable(r.dir))
      && (old(RootAt(r.dir, r.dir.pointer.value.number + 1)) || Planned(old(r.dir), candidate, metadata)) ==>
      (ok <==> old(Resumable(r.dir)))
    ensures ok && old(Campaignable(r.dir)) && r.dir.pointer.value.number < MAX_NUMBER ==> Campaignable(r.dir)
  {
    hide HistorySafe, JournalSafe, Valid, Bounded, Maps, WriteSequence, Written, PartlyWritten, Activatable,
      CandidateFor, OnlyActivated, LegacyImmutable, PendingOf, TreesShaped, ListsRoots, RunsShape, SuccessorShape,
      Interrupted, SameRecords, MarkReadable, RootAt;
    ghost var before := r.dir;
    NothingChanged(r.dir);
    SafeFacts(r.dir);
    var current := r.dir.pointer.value.number;
    UntouchedIsInterrupted(r.dir, candidate, metadata);
    JournalBound(r.dir, r.journal);
    Shaped(r.dir, current);
    var unread := Disturbed(faults.start);
    if unread { return false; }
    var loaded := r.MapTree(current, Committed);
    var listed := r.ListRoots();
    ListedStates(r.dir);
    if !loaded || listed.Err? { return false; }
    SafeHistoryIsAccepted(r.dir, listed.value);
    var successor := ExactPendingSuccessor(listed.value, current);
    if successor.Err? { return false; }
    SuccessorIsRoot(r.dir, listed.value);
    if successor.value != 0 {
      ghost var usable := exists m :: Activatable(r.dir, m);
      if faults == QUIET && usable { UsableIsPending(r.dir); }
      var prepared := LoadPending(r, successor.value, faults.start);
      if prepared.Err? { return false; }
      PendingMeans(r.dir, prepared.value);
      if Startable(r.dir) { PendingIsUsable(r.dir, prepared.value); }
      ok := ContinueCampaign(r, current, prepared.value, faults.activation, faults.settling);
    } else {
      ok := StageAndContinue(r, current, candidate, metadata, faults);
    }
  }

  /** The planner's candidate for the current generation. */
  ghost predicate Planned(d: Dir, candidate: Generation, metadata: Metadata)
  {
    CandidateFor(d, candidate, metadata) && metadata.source == d.pointer.value.number
  }

  /** Stages the planned candidate; an uncertain staging is settled by loading it. With an undisturbed settlement and
      activation, the campaign goes through exactly when the candidate has been written completely. */
  method StageAndContinue(r: Store, current: Number, candidate: Generation, metadata: Metadata, faults: Faults)
      returns (ok: bool)
    requires HistorySafe(r.dir) && JournalSafe(r.dir, r.journal) && Valid(candidate) && Bounded(candidate)
    requires r.dir.pointer.value.number == current && (current < MAX_NUMBER ==> !RootAt(r.dir, current + 1))
    modifies r`dir
    ensures HistorySafe(r.dir) && JournalSafe(r.dir, r.journal) && LegacyImmutable(old(r.dir), r.dir)
    ensures r.dir.pointer == old(r.dir.pointer) || Moved(old(r.dir), r.dir)
    ensures ok ==>
      Moved(old(r.dir), r.dir) && Maps(TreeAt(r.dir, r.dir.pointer.value.number), r.dir.pointer.value.number, Committed)
    ensures old(Campaignable(r.dir)) && r.dir.pointer == old(r.dir.pointer) ==>
      Interrupted(old(r.dir), r.dir, candidate, metadata)
    ensures !faults.settling ==> (ok <==> r.dir.pointer != old(r.dir.pointer))
    ensures
      && !faults.activation && !faults.settling && old(Campaignable(r.dir))
      && Planned(old(r.dir), candidate, metadata) ==>
        (ok <==> exists state :: Maps(TreeAt(r.dir, candidate.number), candidate.number, state))
    ensures faults == QUIET && old(Campaignable(r.dir)) && Planned(old(r.dir), candidate, metadata) ==> ok
    ensures ok && old(Campaignable(r.dir)) && r.dir.pointer.value.number < MAX_NUMBER ==> Campaignable(r.dir)
  {
    hide HistorySafe, JournalSafe, Valid, Bounded, Maps, WriteSequence, Written, PartlyWritten, Activatable,
      CandidateFor, OnlyActivated, LegacyImmutable, PendingOf, TreesShaped, Campaignable, Interrupted, SameRecords,
      PendingReadable, Stageable;
    ghost var before := r.dir;
    SafeFacts(r.dir);
    ghost var planned := Campaignable(r.dir) && Planned(r.dir, candidate, metadata);
    if planned {
      PlannedNumber(r.dir, candidate, metadata);
      assert Stageable(r.dir) by { CampaignableIsStageable(r.dir); }
    }
    var staged := StageCampaign(r, candidate, metadata, faults.staging);
    StagingSparesLegacy(before, r.dir, candidate.number);
    if Campaignable(before) { StagedIsInterrupted(before, r.dir, candidate, metadata); }
    ghost var pending := r.dir;
    SafeFacts(r.dir);
    ghost var written := exists state :: Maps(TreeAt(r.dir, candidate.number), candidate.number, state);
    if planned && written { StagedWhole(before, r.dir, candidate, metadata); }
    var prepared;
    if staged.Ok? {
      StagedNumbers(r.dir, candidate, metadata);
      prepared := staged.value;
      PendingMeans(r.dir, prepared);
      PendingMaps(r.dir, prepared);
    } else {
      var reloaded := LoadPending(r, candidate.number, faults.settling);
      if reloaded.Err? { return false; }
      PendingMeans(r.dir, reloaded.value);
      PendingStored(r.dir, reloaded.value);
      prepared := reloaded.value;
      PendingMaps(r.dir, prepared);
      if planned { StoredIsCandidate(r.dir, prepared, candidate, metadata); }
      var matches := CampaignPreparedMatches(prepared, candidate, metadata);
      if !matches { return false; }
    }
    if !RootAt(before, candidate.number) { StagedTree(before, r.dir, prepared, candidate, metadata); }
    if planned { ActivatableIsPrepared(r.dir, metadata, prepared); }
    ok := ContinueCampaign(r, current, prepared, faults.activation, faults.settling);
    SparedTwice(before, pending, r.dir);
    if Campaignable(before) && prepared.metadata == Some(metadata) && metadata.source == current &&
       !RootAt(before, candidate.number)
    {
      ContinuedIsInterrupted(before, pending, r.dir, candidate, metadata);
      if ok && candidate.number < MAX_NUMBER { ActivatedIsCampaignable(before, pending, r.dir, candidate, metadata); }
    }
  }

  lemma CampaignableIsStageable(d: Dir)
    requires Campaignable(d)
    ensures Stageable(d)
  {
    hide Stageable;
  }

  lemma UntouchedIsInterrupted(d: Dir, candidate: Generation, metadata: Metadata)
    ensures Campaignable(d) ==> Interrupted(d, d, candidate, metadata)
  {
    hide Maps, WriteSequence, Written, MarkReadable, CommitRoot, MarkRoot;
    if Campaignable(d) {
      NothingAt(d, d.pointer.value.number + 1);
      EmptyIsPart(candidate, metadata);
    }
  }

  lemma NothingAt(d: Dir, n: Number)
    requires HistorySafe(d) && !RootAt(d, n)
    ensures TreeAt(d, n) == map[]
  {
    hide PointerMatches, RunsConsecutive;
    Shaped(d, n);
    if TreeAt(d, n) != map[] { RootedHasRoot(TreeAt(d, n)); }
  }

  lemma EmptyIsPart(candidate: Generation, metadata: Metadata)
    ensures PartlyWritten(map[], candidate, metadata)
  {
    hide WriteSequence;
    WrittenPart(candidate, metadata, 0);
  }

  lemma StagedIsInterrupted(before: Dir, d: Dir, candidate: Generation, metadata: Metadata)
    requires Campaignable(before) && d.pointer == before.pointer
    requires forall m: Number :: m != candidate.number ==> TreeAt(d, m) == TreeAt(before, m)
    requires TreeAt(d, candidate.number) == TreeAt(before, candidate.number) ||
      (PartlyWritten(TreeAt(d, candidate.number), candidate, metadata) && CandidateFor(d, candidate, metadata))
    ensures Interrupted(before, d, candidate, metadata)
  {
    hide Maps, WriteSequence, Written, MarkReadable, CommitRoot, MarkRoot, PartlyWritten, Writable, MetadataSeals;
    NothingAt(before, before.pointer.value.number + 1);
    EmptyIsPart(candidate, metadata);
  }

  /** A candidate that loads after staging is the completely written one. */
  lemma StagedTree(before: Dir, d: Dir, p: Pending, candidate: Generation, metadata: Metadata)
    requires HistorySafe(before) && !RootAt(before, candidate.number) && TreesShaped(d) && PendingOf(d, p)
    requires p.candidate == candidate.number
    requires TreeAt(d, candidate.number) == TreeAt(before, candidate.number) ||
      (PartlyWritten(TreeAt(d, candidate.number), candidate, metadata) && CandidateFor(d, candidate, metadata))
    ensures TreeAt(d, candidate.number) == Written(Steps(candidate, metadata)) && CandidateFor(d, candidate, metadata)
    ensures p.metadata == Some(metadata)
  {
    hide HistorySafe, WriteSequence, Written, Maps, Writable, MetadataSeals, SchemaIn, StateIn, StoredAs, RootEntry,
      MetadataReadable, ReadMetadata;
    var n, t := candidate.number, TreeAt(d, candidate.number);
    NothingAt(before, n);
    var k :| 0 <= k <= |Steps(candidate, metadata)| && t == Written(Steps(candidate, metadata)[..k]);
    assert Complete(t, n);
    if k < |Steps(candidate, metadata)| { CutIsIncomplete(candidate, Some(metadata), k); }
    assert Steps(candidate, metadata)[..|Steps(candidate, metadata)|] == Steps(candidate, metadata);
    StagedNumbers(d, candidate, metadata);
    WrittenRoot(candidate, Some(metadata));
    SourcePositive(candidate, metadata);
    RootEvidence(n, metadata);
    SameEvidence(t, AddTo(map[], RootEntry(n, Some(metadata))));
  }

  /** A successor that maps after staging is the whole candidate, and it can be activated. */
  lemma StagedWhole(before: Dir, d: Dir, candidate: Generation, metadata: Metadata)
    requires Campaignable(before) && Planned(before, candidate, metadata)
    requires TreesShaped(d) && d.pointer == before.pointer
    requires forall m: Number :: m != candidate.number ==> TreeAt(d, m) == TreeAt(before, m)
    requires TreeAt(d, candidate.number) == TreeAt(before, candidate.number) ||
      PartlyWritten(TreeAt(d, candidate.number), candidate, metadata)
    requires exists state :: Maps(TreeAt(d, candidate.number), candidate.number, state)
    ensures TreeAt(d, candidate.number) == Written(Steps(candidate, metadata)) && CandidateFor(d, candidate, metadata)
    ensures Activatable(d, metadata) && metadata.generation == candidate.number
    ensures candidate.number >= 2 && PendingReadable(d, candidate.number)
  {
    hide HistorySafe, WriteSequence, Written, Maps, Writable, MetadataSeals, MarkReadable, TreesShaped, Activatable,
      PendingReadable, PartlyWritten;
    var n, w := candidate.number, Steps(candidate, metadata);
    PlannedNumber(before, candidate, metadata);
    PlannedStays(before, d, candidate, metadata);
    NothingAt(before, n);
    EmptyIsPart(candidate, metadata);
    WholeWhenMapped(TreeAt(d, n), candidate, metadata);
    StagedNumbers(d, candidate, metadata);
    StagedIsActivatable(before, d, candidate, metadata);
    ActivatableIsPending(d, metadata);
  }

  lemma WholeWhenMapped(t: Tree, candidate: Generation, metadata: Metadata)
    requires PartlyWritten(t, candidate, metadata) && Writable(candidate, Some(metadata))
    requires exists state :: Maps(t, candidate.number, state)
    ensures t == Written(Steps(candidate, metadata))
  {
    hide WriteSequence, Written, Maps, Writable;
    var w := Steps(candidate, metadata);
    var k :| 0 <= k <= |w| && t == Written(w[..k]);
    assert Complete(t, candidate.number);
    if k < |w| { CutIsIncomplete(candidate, Some(metadata), k); }
    assert w[..|w|] == w;
  }

  /** A loaded successor that holds the whole write is stored as the candidate itself. */
  lemma StoredIsCandidate(d: Dir, p: Pending, candidate: Generation, metadata: Metadata)
    requires TreesShaped(d) && PendingOf(d, p) && Valid(candidate) && CandidateFor(d, candidate, metadata)
    requires p.candidate == candidate.number
    requires TreeAt(d, candidate.number) == Written(Steps(candidate, metadata))
    ensures SameRecords(candidate, p.stored) && p.metadata == Some(metadata)
    ensures p.candidate == metadata.generation
  {
    hide Maps, Writable, MetadataSeals, WriteSequence, Written, TreesShaped, StateIn, SchemaIn, MetadataReadable,
      ReadMetadata, RootAt, Valid, PartsOf, Readable, SameRecords, Returned;
    var n, t := candidate.number, TreeAt(d, candidate.number);
    StagedNumbers(d, candidate, metadata);
    WrittenIsPending(d, candidate, metadata);
    assert p.state == Staging;
    var s, x :| Returned(s, t) && Readable(s, x, n, Staging, |s|) && SameRecords(p.stored, PartsOf(s, x, n, Staging));
    WrittenIsAccepted(s, candidate, metadata);
    assert p.stored == candidate;
    SameAsItself(candidate);
  }

  lemma SameAsItself(g: Generation)
    ensures SameRecords(g, g)
  {}

  lemma SourcePositive(candidate: Generation, metadata: Metadata)
    requires Writable(candidate, Some(metadata))
    ensures 0 < metadata.source < candidate.number == metadata.generation
  {
    hide Consistent, Bounded;
  }

  lemma ContinuedIsInterrupted(before: Dir, pending: Dir, d: Dir, candidate: Generation, metadata: Metadata)
    requires Campaignable(before) && pending.pointer == before.pointer && OnlyActivated(pending, d, metadata)
    requires CandidateFor(pending, candidate, metadata) && metadata.source == before.pointer.value.number
    requires forall m: Number :: m != candidate.number ==> TreeAt(pending, m) == TreeAt(before, m)
    requires TreeAt(pending, candidate.number) == Written(Steps(candidate, metadata))
    ensures Interrupted(before, d, candidate, metadata)
  {
    hide Maps, WriteSequence, Written, MarkReadable, CommitRoot, MarkRoot, HistorySafe, SchemaIn, DigestIn, Writable,
      MetadataSeals;
    StagedNumbers(pending, candidate, metadata);
    WrittenRoot(candidate, Some(metadata));
    WrittenPart(candidate, metadata, |Steps(candidate, metadata)|);
    assert Steps(candidate, metadata)[..|Steps(candidate, metadata)|] == Steps(candidate, metadata);
  }

  lemma JournalBound(d: Dir, journal: Option<PurgePlan>)
    requires JournalSafe(d, journal)
    ensures journal.Some? ==> d.pointer.Some? && journal.value.current <= d.pointer.value.number
  {}

  lemma SuccessorIsRoot(d: Dir, roots: seq<GenerationRoot>)
    requires ListsRoots(d, roots) && d.pointer.Some?
    ensures (exists r :: r in roots && r.number == d.pointer.value.number + 1) <==>
      d.pointer.value.number < MAX_NUMBER && RootAt(d, d.pointer.value.number + 1)
  {
    hide SchemaIn, StateIn;
    if d.pointer.value.number < MAX_NUMBER && RootAt(d, d.pointer.value.number + 1) {
      assert ListedNumber(roots, d.pointer.value.number + 1);
    }
  }

  lemma UsableIsPending(d: Dir)
    requires d.pointer.Some? && exists m :: Activatable(d, m)
    ensures d.pointer.value.number < MAX_NUMBER && d.pointer.value.number + 1 >= 2
    ensures PendingReadable(d, d.pointer.value.number + 1)
  {
    hide Maps, MarkReadable, PendingAt;
    var m :| Activatable(d, m);
    ActivatableIsPending(d, m);
  }

  /** On a readable history, a loaded successor of the current generation can be activated when it was made from it. */
  lemma PendingIsUsable(d: Dir, p: Pending)
    requires Startable(d) && PendingOf(d, p) && p.candidate == d.pointer.value.number + 1
    ensures p.metadata.Some? && p.metadata.value.source == d.pointer.value.number ==> Activatable(d, p.metadata.value)
    ensures (exists m :: Activatable(d, m)) ==> p.metadata.Some? && Activatable(d, p.metadata.value)
  {
    hide Maps, MarkReadable, StateIn, SchemaIn, MetadataReadable, StoredAs, HistorySafe, RootAt;
    PendingMeans(d, p);
    if p.metadata.Some? && p.metadata.value.source == d.pointer.value.number {
      SameMetadata(d, p);
      assert PendingAt(d, p.metadata.value, p.state);
    }
    if m :| Activatable(d, m) { ActivatableIsPrepared(d, m, p); }
  }

  lemma SameMetadata(d: Dir, p: Pending)
    requires PendingOf(d, p) && p.metadata.Some?
    ensures p.metadata.value.generation == p.candidate
  {
    hide Maps, StateIn, SchemaIn, StoredAs;
  }

  lemma StagedNumbers(d: Dir, candidate: Generation, metadata: Metadata)
    requires CandidateFor(d, candidate, metadata)
    ensures metadata.generation == candidate.number > metadata.source && d.pointer.Some?
    ensures candidate.number == d.pointer.value.number + 1
  {
    hide Consistent, Bounded, MetadataSeals;
  }

  lemma StagingSparesLegacy(before: Dir, d: Dir, n: Number)
    requires forall m: Number :: m != n ==> TreeAt(d, m) == TreeAt(before, m)
    requires TreeAt(d, n) == TreeAt(before, n) || !RootAt(before, n)
    ensures LegacyImmutable(before, d)
  {
    hide SchemaIn;
  }

  lemma SparedTwice(before: Dir, mid: Dir, d: Dir)
    requires LegacyImmutable(before, mid) && LegacyImmutable(mid, d)
    ensures LegacyImmutable(before, d)
  {
    hide SchemaIn;
    forall n: Number | Legacy(before, n) ensures TreeAt(d, n) == TreeAt(before, n) {
      assert TreeAt(mid, n) == TreeAt(before, n);
      assert Legacy(mid, n);
    }
  }

  lemma RetentionSparesLegacy(before: Dir, d: Dir)
    requires LegacyKept(before, d)
    ensures LegacyImmutable(before, d)
  {
    hide SchemaIn;
  }

  /** What staging wrote is a pending candidate. */
  lemma WrittenIsPending(d: Dir, candidate: Generation, metadata: Metadata)
    requires CandidateFor(d, candidate, metadata) && TreesShaped(d)
    requires TreeAt(d, candidate.number) == Written(Steps(candidate, metadata))
    ensures PendingAt(d, metadata, Staging)
  {
    hide Maps, Writable, MetadataSeals, WriteSequence, Written, TreesShaped, StateIn, SchemaIn, MetadataReadable,
      ReadMetadata, RootAt, RootEntry;
    var n := candidate.number;
    FinishedIsComplete(candidate, Some(metadata));
    Shaped(d, n);
    MappedState(d, n, Staging);
    SourcePositive(candidate, metadata);
    WrittenRoot(candidate, Some(metadata));
    RootEvidence(n, metadata);
    SameEvidence(TreeAt(d, n), AddTo(map[], RootEntry(n, Some(metadata))));
  }

  /** So is its committed form. */
  lemma CommittedIsPending(d: Dir, e: Dir, metadata: Metadata)
    requires PendingAt(d, metadata, Staging) && TreesShaped(d)
    requires TreeAt(e, metadata.generation) == CommitRoot(TreeAt(d, metadata.generation))
    ensures PendingAt(e, metadata, Committed)
  {
    hide Maps, TreesShaped, StateIn, SchemaIn, CommitRoot, WellNamed, MetadataReadable, ReadMetadata;
    var n, t := metadata.generation, TreeAt(d, metadata.generation);
    Shaped(d, n);
    CommittedMaps(t, n);
    CommittedRootFacts(t);
    CommittedEvidence(t, metadata);
  }

  lemma CommittedEvidence(t: Tree, metadata: Metadata)
    requires RootDn in t && MetadataReadable(t[RootDn], metadata.generation)
    requires ReadMetadata(t[RootDn], metadata.generation) == metadata
    ensures var u := CommitRoot(t);
      && RootDn in u && MetadataReadable(u[RootDn], metadata.generation)
      && ReadMetadata(u[RootDn], metadata.generation) == metadata
  {
    hide ParseNumber, ValidOperation;
  }

  /** What staging wrote can be activated. */
  lemma StagedIsActivatable(before: Dir, d: Dir, candidate: Generation, metadata: Metadata)
    requires Campaignable(before) && CandidateFor(d, candidate, metadata)
    requires metadata.source == before.pointer.value.number
    requires TreesShaped(d) && d.pointer == before.pointer
    requires metadata.generation == candidate.number == d.pointer.value.number + 1
    requires TreeAt(d, candidate.number) == Written(Steps(candidate, metadata))
    requires TreeAt(d, metadata.source) == TreeAt(before, metadata.source)
    ensures Activatable(d, metadata)
  {
    hide HistorySafe, Maps, Written, TreesShaped, PendingAt, CandidateFor;
    StagedNumbers(d, candidate, metadata);
    WrittenIsPending(d, candidate, metadata);
    assert PendingAt(d, metadata, Staging);
  }

  lemma SameEvidence(t: Tree, t': Tree)
    requires RootDn in t && RootDn in t' && t[RootDn] == t'[RootDn]
    ensures SchemaIn(t) == SchemaIn(t')
  {}

  lemma RootEvidence(n: Number, m: Metadata)
    requires m.generation == n && 0 < m.source < n
    ensures var e := RootEntry(n, Some(m));
      MetadataReadable(e, n) && ReadMetadata(e, n) == m && SchemaIn(AddTo(map[], e)) == V3
  {
    ParseNumberOf(m.source);
    StagedRootFacts(n, m);
  }

  lemma ActivatedIsCampaignable(before: Dir, pending: Dir, d: Dir, candidate: Generation, metadata: Metadata)
    requires Campaignable(before) && HistorySafe(d) && OnlyActivated(pending, d, metadata)
    requires metadata.generation == candidate.number > metadata.source
    requires metadata.source == before.pointer.value.number && candidate.number == metadata.source + 1
    requires candidate.number < MAX_NUMBER
    requires forall n: Number :: n != candidate.number ==> TreeAt(pending, n) == TreeAt(before, n)
    requires TreeAt(pending, candidate.number) == Written(Steps(candidate, metadata))
    requires d.pointer == Some(Pointer(true, candidate.number, Committed, metadata.commitment))
    requires Maps(TreeAt(d, candidate.number), candidate.number, Committed)
    ensures Campaignable(d)
  {
    hide Maps, WriteSequence, Written, TreesShaped, SchemaIn, StateIn, MarkedIn, DigestIn, SameOrMarked, RootSealedBy,
      RootEntry, RunsConsecutive;
    var n: Number := candidate.number + 1;
    assert RootAt(before, n) ==> RootOk(before, before.pointer.value.number, n);
    assert TreeAt(d, n) == TreeAt(before, n);
    WrittenRoot(candidate, Some(metadata));
    UnmarkedRoot(candidate.number, metadata);
  }

  lemma UnmarkedRoot(n: Number, m: Metadata)
    ensures WasActive !in RootEntry(n, Some(m)).values
  {}

  // ---------------------------------------------------------------------------------------------
  // Interruption and rerun
  // ---------------------------------------------------------------------------------------------

  /** A campaign stopped anywhere, and an undisturbed rerun with whatever the planner then offers: unless the first run
      already moved the pointer, the rerun finishes exactly when the successor is empty or completely written. */
  method RerunCampaign(r: Store, first: Generation, firstMetadata: Metadata, second: Generation,
                       secondMetadata: Metadata)
      returns (finished: bool, ghost mid: Dir)
    requires Campaignable(r.dir) && JournalSafe(r.dir, r.journal)
    requires Valid(first) && Bounded(first) && Valid(second) && Bounded(second)
    requires Planned(r.dir, first, firstMetadata) && Planned(r.dir, second, secondMetadata)
    modifies r`dir
    ensures mid.pointer == old(r.dir.pointer) || (Moved(old(r.dir), mid) && finished && r.dir == mid)
    ensures mid.pointer == old(r.dir.pointer) ==>
      && Interrupted(old(r.dir), mid, first, firstMetadata)
      && (finished <==>
            TreeAt(mid, first.number) == map[] || exists state :: Maps(TreeAt(mid, first.number), first.number, state))
      && (finished ==> Moved(mid, r.dir))
  {
    hide HistorySafe, JournalSafe, Valid, Bounded, Maps, Interrupted, CandidateFor, LegacyImmutable, MarkReadable,
      Activatable;
    ghost var before := r.dir;
    var interrupted := RunCampaign(r, first, firstMetadata, ANYWHERE);
    mid := r.dir;
    finished := true;
    SafeFacts(mid);
    PlannedNumber(before, first, firstMetadata);
    if r.dir.pointer.value.number == first.number - 1 {
      InterruptionDecides(before, mid, first, firstMetadata);
      PlannedStays(before, mid, second, secondMetadata);
      finished := RunCampaign(r, second, secondMetadata, QUIET);
    }
  }

  lemma PlannedNumber(d: Dir, candidate: Generation, metadata: Metadata)
    requires Planned(d, candidate, metadata)
    ensures d.pointer.Some? && candidate.number == d.pointer.value.number + 1
  {
    hide Writable, MetadataSeals;
  }

  lemma PlannedStays(before: Dir, d: Dir, candidate: Generation, metadata: Metadata)
    requires Planned(before, candidate, metadata) && d.pointer == before.pointer
    ensures Planned(d, candidate, metadata)
  {
    hide Writable, MetadataSeals;
  }

  lemma InterruptionDecides(before: Dir, d: Dir, candidate: Generation, metadata: Metadata)
    requires Campaignable(before) && HistorySafe(d) && d.pointer == before.pointer
    requires Planned(before, candidate, metadata)
    requires Interrupted(before, d, candidate, metadata)
    ensures Startable(d)
    ensures Resumable(d) <==>
      TreeAt(d, candidate.number) == map[] || exists state :: Maps(TreeAt(d, candidate.number), candidate.number, state)
  {
    hide HistorySafe, Maps, Written, WriteSequence, MarkReadable, CandidateFor, CommitRoot, MarkRoot, PartlyWritten,
      PendingAt;
    PlannedNumber(before, candidate, metadata);
    SafeFacts(before);
    var current, n := before.pointer.value.number, candidate.number;
    SafeFacts(d);
    Shaped(before, current);
    MarkedStaysReadable(TreeAt(before, current), TreeAt(d, current), current);
    if RootAt(d, n) {
      if state :| Maps(TreeAt(d, n), n, state) {
        FullIsPending(before, d, candidate, metadata, state);
      }
      forall m | Activatable(d, m) ensures exists state :: Maps(TreeAt(d, n), n, state) { ActivatableMaps(d, m); }
    } else {
      NothingAt(d, n);
    }
    assert TreeAt(d, n) == map[] ==> !RootAt(d, n);
  }

  lemma ActivatableMaps(d: Dir, m: Metadata)
    requires Activatable(d, m)
    ensures m.generation == d.pointer.value.number + 1
    ensures exists state :: Maps(TreeAt(d, m.generation), m.generation, state)
  {
    hide Maps, MarkReadable, SchemaIn, StateIn, MetadataReadable, ReadMetadata, RootAt;
    var state :| PendingAt(d, m, state);
    assert Maps(TreeAt(d, m.generation), m.generation, state);
  }

  lemma MarkedStaysReadable(t: Tree, t': Tree, n: Number)
    requires WellNamed(t) && SameOrMarked(t, t') && Maps(t, n, Committed) && MarkReadable(t)
    ensures Maps(t', n, Committed) && MarkReadable(t')
  {
    hide Maps, WellNamed;
    if t' != t {
      UpdateMaps(t, MarkRoot(t)[RootDn], n, Committed, Committed);
      assert MarkRoot(t) == t[RootDn := MarkRoot(t)[RootDn]];
    }
  }

  /** A complete remainder of an interrupted campaign is the whole write, committed or not. */
  lemma FullIsPending(before: Dir, d: Dir, candidate: Generation, metadata: Metadata, state: State)
    requires Campaignable(before) && Startable(d) && d.pointer == before.pointer && Planned(before, candidate, metadata)
    requires Interrupted(before, d, candidate, metadata) && Maps(TreeAt(d, candidate.number), candidate.number, state)
    ensures Activatable(d, metadata)
  {
    hide HistorySafe, Maps, Written, WriteSequence, MarkReadable, CommitRoot, MarkRoot, PendingAt, Writable,
      MetadataSeals;
    var n, w := candidate.number, Steps(candidate, metadata);
    var t := TreeAt(d, n);
    SafeFacts(before);
    SafeFacts(d);
    PlannedNumber(before, candidate, metadata);
    PlannedStays(before, d, candidate, metadata);
    SourcePositive(candidate, metadata);
    assert w[..|w|] == w;
    if t == Written(w) {
      WrittenIsPending(d, candidate, metadata);
    } else if PartlyWritten(t, candidate, metadata) {
      var k :| 0 <= k <= |w| && t == Written(w[..k]);
      assert Complete(t, n);
      assert k < |w|;
      CutIsIncomplete(candidate, Some(metadata), k);
    } else {
      var e := WithTree(before, n, Written(w));
      WrittenShape(before, candidate, metadata);
      PlannedStays(before, e, candidate, metadata);
      WrittenIsPending(e, candidate, metadata);
      CommittedIsPending(e, d, metadata);
    }
  }

  /** A finished write is well shaped. */
  lemma WrittenShape(d: Dir, candidate: Generation, metadata: Metadata)
    requires TreesShaped(d)
    ensures TreesShaped(WithTree(d, candidate.number, Written(Steps(candidate, metadata))))
    ensures TreeAt(WithTree(d, candidate.number, Written(Steps(candidate, metadata))), candidate.number) ==
      Written(Steps(candidate, metadata))
  {
    hide WriteSequence, Written, WellNamed, Rooted;
    var w := Steps(candidate, metadata);
    PrefixShape(candidate, metadata, |w|);
    assert w[..|w|] == w;
    OtherTrees(d, candidate.number, Written(w));
  }

  lemma {:induction false} PrefixShape(candidate: Generation, metadata: Metadata, k: nat)
    requires k <= |Steps(candidate, metadata)|
    ensures var t := Written(Steps(candidate, metadata)[..k]); WellNamed(t) && Rooted(t)
  {
    hide WriteSequence, WellNamed, Rooted, Addable, AddTo, Written;
    var w := Steps(candidate, metadata);
    if k == 0 {
      NothingWrittenShape(w);
    } else {
      PrefixShape(candidate, metadata, k - 1);
      WrittenMore(w, k - 1);
      NextIsAddable(candidate, Some(metadata), k - 1);
      AddKeepsShape(Written(w[..k - 1]), w[k - 1]);
    }
  }

  lemma NothingWrittenShape(w: seq<Entry>)
    ensures WellNamed(Written(w[..0])) && Rooted(Written(w[..0]))
  {}

  // ---------------------------------------------------------------------------------------------
  // Any sequence of commands
  // ---------------------------------------------------------------------------------------------

  datatype Command =
    | Stage(candidate: Generation, metadata: Metadata)
    | Activate(evidence: Metadata)
    | Campaign(candidate: Generation, metadata: Metadata)
    | Retain(policy: RetentionPolicy)

  ghost predicate Constructed(c: Command) { c.Stage? || c.Campaign? ==> Valid(c.candidate) && Bounded(c.candidate) }

  /** Any sequence of commands, one at a time, each possibly disturbed at any request. A journal that the pointer has
      overtaken is never recovered, and every enabled retention answers that its outcome is uncertain. */
  method RunCommands(r: Store, commands: seq<Command>) returns (answers: seq<RetentionOutcome>)
    requires HistorySafe(r.dir) && JournalSafe(r.dir, r.journal) && forall c :: c in commands ==> Constructed(c)
    modifies r
    ensures HistorySafe(r.dir) && JournalSafe(r.dir, r.journal) && LegacyImmutable(old(r.dir), r.dir)
    ensures old(r.dir.pointer.value.number) <= r.dir.pointer.value.number
    ensures r.dir.pointer.value.number <= old(r.dir.pointer.value.number) + |commands|
    ensures |answers| == |commands|
    ensures old(Overtaken(r.dir, r.journal)) ==>
      && r.journal == old(r.journal) && Overtaken(r.dir, r.journal)
      && forall i :: 0 <= i < |commands| && commands[i].Retain? && commands[i].policy.enabled ==>
           answers[i] == RetentionOutcome.Uncertain
  {
    hide HistorySafe, JournalSafe, LegacyImmutable, LegacyKept, OnlyActivated, Constructed, PartlyWritten, RootAt,
      TreesShaped, PendingOf, Unrecoverable, Eligible, ReserveKept, ReserveSpared, Maps, CandidateFor;
    ghost var before, journal := r.dir, r.journal;
    ghost var stale := Overtaken(r.dir, r.journal);
    SafeFacts(r.dir);
    NothingChanged(r.dir);
    answers := [];
    for i := 0 to |commands|
      invariant HistorySafe(r.dir) && JournalSafe(r.dir, r.journal) && LegacyImmutable(before, r.dir)
      invariant r.dir.pointer.Some?
      invariant before.pointer.value.number <= r.dir.pointer.value.number <= before.pointer.value.number + i
      invariant |answers| == i
      invariant stale ==> r.journal == journal && Overtaken(r.dir, r.journal)
      invariant stale ==>
        forall j :: 0 <= j < i && commands[j].Retain? && commands[j].policy.enabled ==>
          answers[j] == RetentionOutcome.Uncertain
    {
      ghost var mid := r.dir;
      assert commands[i] in commands;
      var answer := Finished;
      match commands[i] {
      case Stage(candidate, metadata) =>
        CanStage(commands[i]);
        var staged := StageCampaign(r, candidate, metadata, true);
        StagingSparesLegacy(mid, r.dir, candidate.number);
      case Activate(evidence) =>
        var activated := CommitCampaignAndSwitch(r, evidence, true, true);
      case Campaign(candidate, metadata) =>
        CanStage(commands[i]);
        var finished := RunCampaign(r, candidate, metadata, ANYWHERE);
      case Retain(policy) =>
        if stale { OvertakenIsUnrecoverable(r.dir, r.journal); }
        answer := r.ApplyAutomaticRetention(policy, true);
        RetentionSparesLegacy(mid, r.dir);
      }
      SafeFacts(r.dir);
      SparedTwice(before, mid, r.dir);
      answers := answers + [answer];
    }
  }

  /** From a history without campaigns, whatever the commands and wherever they stop: every v3 root below the pointer is
      marked, every listing has the two-run shape and an acceptable successor, and legacy subtrees are as they were. */
  method Lifecycle(r: Store, commands: seq<Command>)
    requires LegacyOnly(r.dir) && r.journal.None? && forall c :: c in commands ==> Constructed(c)
    modifies r
    ensures HistorySafe(r.dir) && JournalSafe(r.dir, r.journal) && LegacyImmutable(old(r.dir), r.dir)
    ensures old(r.dir.pointer.value.number) <= r.dir.pointer.value.number
    ensures r.dir.pointer.value.number <= old(r.dir.pointer.value.number) + |commands|
    ensures forall n: Number :: V3Root(r.dir, n) && n < r.dir.pointer.value.number ==> MarkedIn(TreeAt(r.dir, n))
    ensures forall roots :: ListsRoots(r.dir, roots) ==>
      RunsShape(roots) && SuccessorShape(roots, r.dir.pointer.value.number)
  {
    hide HistorySafe, JournalSafe, LegacyImmutable, Constructed, LegacyOnly, MarkedIn, V3Root, ListsRoots, RunsShape,
      SuccessorShape;
    LegacyIsSafe(r.dir);
    NoJournalIsSafe(r.dir);
    var answers := RunCommands(r, commands);
    SafeFacts(r.dir);
    forall roots | ListsRoots(r.dir, roots)
      ensures RunsShape(roots) && SuccessorShape(roots, r.dir.pointer.value.number)
    {
      SafeHistoryIsAccepted(r.dir, roots);
    }
  }

  lemma CanStage(c: Command)
    requires Constructed(c) && (c.Stage? || c.Campaign?)
    ensures Valid(c.candidate) && Bounded(c.candidate)
  {
    hide Valid, Bounded;
  }
}

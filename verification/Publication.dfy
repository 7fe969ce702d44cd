/** The publication and purge protocol run by any number of clients at once. One step is one request or one read of one
    client; a client may stop between any two steps, and the reply of any write may be lost after it took effect. */
module Publication {
  import opened Wrappers
  import opened Text
  import opened Records
  import opened Generations
  import opened Candidate
  import opened Mapper
  import opened ReadBack
  import opened Directory

  /** A staging candidate and, for a campaign, its commitment. */
  datatype Staged = Staged(generation: Generation, metadata: Option<Metadata>)

  function NumberOf(c: Staged): Number { c.generation.number }

  function Adds(c: Staged): seq<Entry> { WriteSequence(c.generation, c.metadata) }

  ghost predicate Ready(c: Staged) { Writable(c.generation, c.metadata) && MetadataSeals(c.metadata, c.generation) }

  datatype Mode = Claiming | Publishing | StagingOnly

  /** How the pointer will be moved. */
  datatype Move = Claim | Plain | Campaign(fence: Pointer, metadata: Metadata)

  datatype Plan = Plan(current: Number, target: Number)

  datatype Client =
    | Idle
    // reserving the pointer of an empty directory
    | PointerAbsent(c: Staged)
    | ContainerEmpty(c: Staged)
    // writing a candidate
    | Writing(c: Staged, written: nat, mode: Mode)
    | Verifying(c: Staged, mode: Mode)
    // loading a pending candidate
    | Fenced(number: Number, fence: Pointer, metadata: Option<Metadata>)
    | Loaded(number: Number, fence: Pointer, metadata: Option<Metadata>, state: State)
    // committing and switching
    | Marking(number: Number, state: State, move: Move)
    | Sealing(number: Number, move: Move, recheck: bool)
    | Rereading(number: Number)
    | Refencing(number: Number)
    | Switching(number: Number, move: Move)
    // purging
    | Inspecting(fence: Pointer)
    | Confirming(fence: Pointer, target: Number)
    | Planned(plan: Plan)
    | Targeting(plan: Plan, fence: Pointer)
    | Deleting(plan: Plan, fence: Pointer, rest: seq<Dn>, checked: bool)

  /** The directory, the purge journals on disk, and, for the proof only, who added each root. */
  datatype Shared = Shared(dir: Dir, journal: set<Plan>, owners: map<Number, nat>)

  // ---------------------------------------------------------------------------------------------
  // Steps
  // ---------------------------------------------------------------------------------------------

  /** The next program point, or a lost reply that makes the client give up. */
  predicate Replied(c': Client, next: Client) { c' == next || c' == Idle }

  predicate CommittedPointer(d: Dir, p: Pointer) { d.pointer == Some(p) && p.state == Committed }

  /** A failed request, a refused reading, or a crash. */
  predicate GivesUp(s: Shared, c: Client, s': Shared, c': Client) { s' == s && c' == Idle }

  ghost predicate Reserves(s: Shared, c: Client, s': Shared, c': Client)
  {
    || (&& c == Idle && s.dir.pointer == None && s' == s && c'.PointerAbsent? && NumberOf(c'.c) == 1
        && c'.c.metadata == None && Ready(c'.c))
    || (c.PointerAbsent? && (forall n :: TreeAt(s.dir, n) == map[]) && s' == s && c' == ContainerEmpty(c.c))
    || (c.ContainerEmpty? && s.dir.pointer == None &&
       s' == s.(dir := s.dir.(pointer := Some(Pointer(false, 1, Staging, [])))) &&
        Replied(c', Writing(c.c, 0, Claiming)))
  }

  /** A publisher starts above the current generation it has read. */
  ghost predicate Observes(s: Shared, c: Client, s': Shared, c': Client)
  {
    && c == Idle && s' == s && c'.Writing? && c'.written == 0 && c'.mode != Claiming && Ready(c'.c)
    && s.dir.pointer.Some? && s.dir.pointer.value.state == Committed && NumberOf(c'.c) == s.dir.pointer.value.number + 1
  }

  function AfterAdd(c: Client): Client
    requires c.Writing?
  {
    if c.written + 1 < |Adds(c.c)| then Writing(c.c, c.written + 1, c.mode) else Verifying(c.c, c.mode)
  }

  ghost predicate AddsEntry(s: Shared, id: nat, c: Client, s': Shared, c': Client)
  {
    && c.Writing? && c.written < |Adds(c.c)|
    && var n, e := NumberOf(c.c), Adds(c.c)[c.written];
       && Addable(TreeAt(s.dir, n), e)
       && s'.dir == WithTree(s.dir, n, AddTo(TreeAt(s.dir, n), e)) && s'.journal == s.journal
       && s'.owners == (if c.written == 0 then s.owners[n := id] else s.owners)
       && Replied(c', AfterAdd(c))
  }

  /** The readback maps the staged subtree. */
  ghost predicate Verifies(s: Shared, c: Client, s': Shared, c': Client)
  {
    && c.Verifying? && s' == s && Maps(TreeAt(s.dir, NumberOf(c.c)), NumberOf(c.c), Staging)
    && c' == match c.mode
             case Claiming => Sealing(NumberOf(c.c), Claim, false)
             case Publishing => Sealing(NumberOf(c.c), Plain, false)
             case StagingOnly => Idle
  }

  /** Loading a pending candidate: pointer, subtree, pointer again. */
  ghost predicate Loads(s: Shared, c: Client, s': Shared, c': Client)
  {
    && s' == s
    && (|| (c == Idle && c'.Fenced? && CommittedPointer(s.dir, c'.fence) && c'.number == c'.fence.number + 1)
        || (c.Fenced? && c'.Loaded? && c'.number == c.number && c'.fence == c.fence && c'.metadata == c.metadata &&
            Maps(TreeAt(s.dir, c.number), c.number, c'.state) &&
            (c.metadata.Some? ==>
               && c.metadata.value.generation == c.number
               && RootSealedBy(TreeAt(s.dir, c.number), c.metadata.value, c'.state)))
        || (c.Loaded? && s.dir.pointer == Some(c.fence) && c' == Resumed(c)))
  }

  /** Where a loaded candidate continues. */
  function Resumed(c: Client): Client
    requires c.Loaded?
  {
    match c.metadata
    case None => if c.state == Staging then Sealing(c.number, Plain, true) else Rereading(c.number)
    case Some(m) =>
      if c.fence.v3 then Marking(c.number, c.state, Campaign(c.fence, m))
      else AfterMark(c.number, c.state, Campaign(c.fence, m))
  }

  function AfterMark(n: Number, state: State, move: Move): Client
  {
    if state == Staging then Sealing(n, move, false) else Switching(n, move)
  }

  /** The source root gets its activation mark, or is found to have it. */
  ghost predicate Marks(s: Shared, c: Client, s': Shared, c': Client)
  {
    && c.Marking? && c.move.Campaign?
    && var p := c.move.fence;
       var t := TreeAt(s.dir, p.number);
       && RootIs(t, p.number, SCHEMA_V3, Committed) && CandidateDigest in t[RootDn].values
       && t[RootDn].values[CandidateDigest] == Octets(p.digest)
       && (|| (MarkedIn(t) && s' == s && c' == AfterMark(c.number, c.state, c.move))
           || (WasActive !in t[RootDn].values && s' == s.(dir := WithTree(s.dir, p.number, MarkRoot(t))) &&
               Replied(c', AfterMark(c.number, c.state, c.move))))
  }

  /** Only a staging root with the asserted metadata is committed. */
  ghost predicate Seals(s: Shared, c: Client, s': Shared, c': Client)
  {
    && c.Sealing?
    && var t := TreeAt(s.dir, c.number);
       && (if c.move.Campaign? then c.move.metadata.generation == c.number && RootSealedBy(t, c.move.metadata, Staging)
           else RootIs(t, c.number, SCHEMA_V2, Staging))
       && s' == s.(dir := WithTree(s.dir, c.number, CommitRoot(t)))
       && Replied(c', if c.recheck then Rereading(c.number) else Switching(c.number, c.move))
  }

  /** The committed root and the pointer are read once more before an ordinary switch. */
  ghost predicate Rechecks(s: Shared, c: Client, s': Shared, c': Client)
  {
    && s' == s
    && (|| (c.Rereading? && Maps(TreeAt(s.dir, c.number), c.number, Committed) && c' == Refencing(c.number))
        || (c.Refencing? && s.dir.pointer.Some? && s.dir.pointer.value.state == Committed &&
           s.dir.pointer.value.number + 1 == c.number &&
            c' == Switching(c.number, Plain)))
  }

  /** The asserted switch of the pointer. An ordinary switch rewrites only the number of a v2 pointer. */
  ghost predicate Switches(s: Shared, c: Client, s': Shared, c': Client)
  {
    && c.Switching? && s.dir.pointer.Some? && c' == Idle
    && var p := s.dir.pointer.value;
       match c.move
       case Claim =>
         && p == Pointer(false, c.number, Staging, p.digest)
         && s' == s.(dir := s.dir.(pointer := Some(p.(state := Committed))))
       case Plain =>
         && c.number > 1 && p == Pointer(false, c.number - 1, Committed, p.digest)
         && s' == s.(dir := s.dir.(pointer := Some(p.(number := c.number))))
       case Campaign(fence, m) =>
         p == fence && s' == s.(dir := s.dir.(pointer := Some(Pointer(true, c.number, Committed, m.commitment))))
  }

  /** An old generation is purgeable when its complete v3 root is committed and was active. */
  ghost predicate Purgeable(t: Tree, n: Number)
  {
    Complete(t, n) && RootIs(t, n, SCHEMA_V3, Committed) && MarkedIn(t)
  }

  ghost predicate Plans(s: Shared, c: Client, s': Shared, c': Client)
  {
    || (c == Idle && c'.Inspecting? && CommittedPointer(s.dir, c'.fence) && s' == s)
    || (&& c.Inspecting? && c'.Confirming? && c'.fence == c.fence && c'.target < c.fence.number
        && Purgeable(TreeAt(s.dir, c'.target), c'.target) && s' == s)
    || (&& c.Confirming? && s.dir.pointer == Some(c.fence) && c' == Planned(Plan(c.fence.number, c.target))
        && s' == s.(journal := s.journal + {c'.plan}))
    || (c == Idle && c'.Planned? && c'.plan in s.journal && s' == s)
    || (c.Planned? && s' == s.(journal := s.journal - {c.plan}) && c' == Idle)
  }

  /** `rest` lists names of a subtree, deeper ones first. */
  function Depth(dn: Dn): nat
  {
    match dn case RootDn => 0 case UnitDn(_) => 1 case RecordDn(_, _) => 2 case ForeignDn(_) => 1
  }

  ghost predicate Purges(s: Shared, c: Client, s': Shared, c': Client)
  {
    || (&& c.Planned? && c'.Targeting? && c'.plan == c.plan && CommittedPointer(s.dir, c'.fence)
        && c'.fence.number == c.plan.current && s' == s)
    || (c.Targeting? && c'.Deleting? && c'.plan == c.plan && c'.fence == c.fence && !c'.checked && s' == s &&
        (forall i, j :: 0 <= i < j < |c'.rest| ==> Depth(c'.rest[i]) >= Depth(c'.rest[j])) &&
        (forall dn :: dn in c'.rest <==> dn in TreeAt(s.dir, c.plan.target)))
    || (c.Deleting? && !c.checked && s.dir.pointer == Some(c.fence) && s' == s && c' == c.(checked := true))
    || (c.Deleting? && c.checked && c.rest != [] &&
        (if Leaf(TreeAt(s.dir, c.plan.target), c.rest[0])
         then s' == s.(dir := WithTree(s.dir, c.plan.target, RemoveFrom(TreeAt(s.dir, c.plan.target), c.rest[0])))
         else c.rest[0] !in TreeAt(s.dir, c.plan.target) && s' == s) &&
        Replied(c', c.(rest := c.rest[1..], checked := false)))
  }

  /** One step of client `id`. */
  ghost predicate Steps(s: Shared, id: nat, c: Client, s': Shared, c': Client)
  {
    || GivesUp(s, c, s', c') || Reserves(s, c, s', c') || Observes(s, c, s', c') || AddsEntry(s, id, c, s', c')
    || Verifies(s, c, s', c')
    || Loads(s, c, s', c') || Marks(s, c, s', c') || Seals(s, c, s', c') || Rechecks(s, c, s', c')
    || Switches(s, c, s', c')
    || Plans(s, c, s', c') || Purges(s, c, s', c')
  }

  // ---------------------------------------------------------------------------------------------
  // The invariant
  // ---------------------------------------------------------------------------------------------

  /** A committed pointer names a committed root with complete records, under v3 by that root's digest; no root lies
      more than one above it. */
  ghost predicate PointerSafe(d: Dir)
  {
    && (d.pointer.Some? ==> d.pointer.value.number > 0)
    && (d.pointer.Some? && d.pointer.value.state == Staging ==> d.pointer.value.number == 1)
    && (CurrentNumber(d) > 0 ==>
          Complete(TreeAt(d, CurrentNumber(d)), CurrentNumber(d)) && CommittedRoot(TreeAt(d, CurrentNumber(d))))
    && (CurrentNumber(d) > 0 && d.pointer.value.v3 ==>
          RootCarries(TreeAt(d, CurrentNumber(d)), CurrentNumber(d), d.pointer.value.digest))
    && (forall n: Number :: TreeAt(d, n) != map[] ==> 0 < n <= CurrentNumber(d) + 1)
  }

  ghost predicate PlanSafe(d: Dir, p: Plan) { p.target < p.current <= CurrentNumber(d) }

  ghost predicate SharedSafe(s: Shared)
  {
    && PointerSafe(s.dir) && TreesShaped(s.dir)
    && (forall p :: p in s.journal ==> PlanSafe(s.dir, p))
    && forall n :: n in s.owners && n >= CurrentNumber(s.dir) ==> RootDn in TreeAt(s.dir, n)
  }

  /** Once read complete, a root stays complete until the pointer reaches it. */
  ghost predicate VerifiedAt(d: Dir, n: Number)
  {
    0 < n <= CurrentNumber(d) + 1 && (n > CurrentNumber(d) ==> Complete(TreeAt(d, n), n))
  }

  ghost predicate SealedAt(d: Dir, n: Number)
  {
    VerifiedAt(d, n) && (n > CurrentNumber(d) ==> CommittedRoot(TreeAt(d, n)))
  }

  /** Until the pointer reaches it, the candidate's root carries the digest that the pointer will get. */
  ghost predicate CarriesAt(d: Dir, n: Number, digest: Bytes)
  {
    n > CurrentNumber(d) ==> RootCarries(TreeAt(d, n), n, digest)
  }

  /** The source of a v3 activation carries its mark before the pointer leaves it. */
  ghost predicate SourceMarked(d: Dir, move: Move)
  {
    move.Campaign? && move.fence.v3 && move.fence.number == CurrentNumber(d) ==> MarkedIn(TreeAt(d, move.fence.number))
  }

  ghost predicate MoveSafe(d: Dir, n: Number, move: Move)
  {
    match move
    case Claim => n == 1
    case Plain => true
    case Campaign(fence, m) =>
      && fence.state == Committed && 0 < fence.number <= CurrentNumber(d) && n == fence.number + 1
      && CarriesAt(d, n, m.commitment)
  }

  /** The root this client added holds exactly what it has written, unless the pointer has moved past it. */
  ghost predicate Owns(s: Shared, id: nat, c: Staged, written: nat)
    requires written <= |Adds(c)|
  {
    NumberOf(c) >= CurrentNumber(s.dir) ==>
      && NumberOf(c) in s.owners && s.owners[NumberOf(c)] == id
      && TreeAt(s.dir, NumberOf(c)) == Written(Adds(c)[..written])
  }

  /** What each program point may rely on. */
  ghost predicate Knows(s: Shared, id: nat, c: Client)
  {
    match c
    case Idle => true
    case PointerAbsent(x) => Ready(x) && NumberOf(x) == 1
    case ContainerEmpty(x) => Ready(x) && NumberOf(x) == 1
    case Writing(x, written, mode) =>
      && Ready(x) && 0 < NumberOf(x) <= CurrentNumber(s.dir) + 1 && written < |Adds(x)|
      && (mode == Claiming ==> NumberOf(x) == 1)
      && (written > 0 ==> Owns(s, id, x, written))
    case Verifying(x, mode) => 0 < NumberOf(x) <= CurrentNumber(s.dir) + 1 && (mode == Claiming ==> NumberOf(x) == 1)
    case Fenced(n, fence, _) =>
      fence.state == Committed && 0 < fence.number <= CurrentNumber(s.dir) && n == fence.number + 1
    case Loaded(n, fence, metadata, state) =>
      && fence.state == Committed && 0 < fence.number <= CurrentNumber(s.dir) && n == fence.number + 1
      && VerifiedAt(s.dir, n) && (state == Committed ==> SealedAt(s.dir, n))
      && (metadata.Some? ==> CarriesAt(s.dir, n, metadata.value.commitment))
    case Marking(n, state, move) =>
      MoveSafe(s.dir, n, move) && VerifiedAt(s.dir, n) && (state == Committed ==> SealedAt(s.dir, n))
    case Sealing(n, move, _) => MoveSafe(s.dir, n, move) && VerifiedAt(s.dir, n) && SourceMarked(s.dir, move)
    case Rereading(n) => VerifiedAt(s.dir, n)
    case Refencing(n) => SealedAt(s.dir, n)
    case Switching(n, move) => MoveSafe(s.dir, n, move) && SealedAt(s.dir, n) && SourceMarked(s.dir, move)
    case Inspecting(fence) => 0 < fence.number <= CurrentNumber(s.dir)
    case Confirming(fence, target) => target < fence.number <= CurrentNumber(s.dir)
    case Planned(plan) => PlanSafe(s.dir, plan)
    case Targeting(plan, fence) => PlanSafe(s.dir, plan) && fence.state == Committed && fence.number == plan.current
    case Deleting(plan, fence, _, _) =>
      PlanSafe(s.dir, plan) && fence.state == Committed && fence.number == plan.current
  }

  /** Same entries; the root may differ in its state and may have got its activation mark. */
  ghost predicate KeptRecords(t: Tree, t': Tree)
  {
    && t'.Keys == t.Keys && (forall dn :: dn in t && dn != RootDn ==> t'[dn] == t[dn])
    && (RootDn in t ==>
          && t'[RootDn].dn == t[RootDn].dn && t'[RootDn].class_ == t[RootDn].class_
          && t[RootDn].values.Keys <= t'[RootDn].values.Keys <= t[RootDn].values.Keys + {DatasetState, WasActive}
          && forall a :: a in t[RootDn].values && a != DatasetState ==>
             t'[RootDn].values[a] == t[RootDn].values[a])
  }

  /** What every step guarantees the other clients. */
  ghost predicate Guarantees(s: Shared, s': Shared, id: nat)
  {
    && CurrentNumber(s.dir) <= CurrentNumber(s'.dir) <= CurrentNumber(s.dir) + 1
    && (CurrentNumber(s.dir) < CurrentNumber(s'.dir) && s.dir.pointer.Some? && s.dir.pointer.value.v3 ==>
          MarkedIn(TreeAt(s'.dir, CurrentNumber(s.dir))))
    && (forall n: Number {:trigger TreeAt(s'.dir, n)} :: n >= CurrentNumber(s'.dir) && Complete(TreeAt(s.dir, n), n) ==>
          Complete(TreeAt(s'.dir, n), n) && (CommittedRoot(TreeAt(s.dir, n)) ==> CommittedRoot(TreeAt(s'.dir, n))))
    && (forall n: Number {:trigger TreeAt(s'.dir, n)} :: n >= CurrentNumber(s'.dir) && Complete(TreeAt(s.dir, n), n) ==>
          KeptRecords(TreeAt(s.dir, n), TreeAt(s'.dir, n)))
    && (forall n: Number {:trigger TreeAt(s'.dir, n)} ::
          && n >= CurrentNumber(s'.dir) && n in s.owners && s.owners[n] != id && !Complete(TreeAt(s.dir, n), n) ==>
            TreeAt(s'.dir, n) == TreeAt(s.dir, n) && n in s'.owners && s'.owners[n] == s.owners[n])
  }

  /** One client's step keeps the shared invariant, earns its new knowledge and honours the guarantee. */
  ghost predicate StepSafe(s: Shared, id: nat, s': Shared, c': Client)
  {
    SharedSafe(s') && Knows(s', id, c') && Guarantees(s, s', id)
  }

  // ---------------------------------------------------------------------------------------------
  // Reads
  // ---------------------------------------------------------------------------------------------

  lemma ReadSafe(s: Shared, id: nat, c': Client)
    requires SharedSafe(s) && Knows(s, id, c')
    ensures StepSafe(s, id, s, c')
  {
    hide KeptRecords, RootCarries;
    NothingLost(s.dir);
  }

  lemma ObservesSafe(s: Shared, id: nat, c: Client, s': Shared, c': Client)
    requires SharedSafe(s) && Observes(s, c, s', c')
    ensures StepSafe(s, id, s', c')
  {
    hide Ready, TreesShaped;
    AddsExist(c'.c);
    ReadSafe(s, id, c');
  }

  lemma AddsExist(c: Staged)
    requires Ready(c)
    ensures |Adds(c)| >= 6 && NumberOf(c) > 0
  {
    hide WriteSequence;
    WriteReads(c.generation, c.metadata);
    WritableFacts(c.generation, c.metadata);
  }

  lemma VerifiesSafe(s: Shared, id: nat, c: Client, s': Shared, c': Client)
    requires SharedSafe(s) && Knows(s, id, c) && Verifies(s, c, s', c')
    ensures StepSafe(s, id, s', c')
  {
    hide Maps, SharedSafe;
    ReadSafe(s, id, c');
  }

  lemma LoadsSafe(s: Shared, id: nat, c: Client, s': Shared, c': Client)
    requires SharedSafe(s) && Knows(s, id, c) && Loads(s, c, s', c')
    ensures StepSafe(s, id, s', c')
  {
    hide Maps, RootSealedBy, CommittedRoot, Complete, RootCarries;
    if c.Fenced? {
      MappedFacts(s.dir, c.number, c'.state);
      if c.metadata.Some? { SealedCarries(TreeAt(s.dir, c.number), c.metadata.value, c'.state); }
    }
    ReadSafe(s, id, c');
  }

  lemma SealedCarries(t: Tree, m: Metadata, state: State)
    ensures RootSealedBy(t, m, state) ==> RootCarries(t, m.generation, m.commitment)
  {}

  lemma RechecksSafe(s: Shared, id: nat, c: Client, s': Shared, c': Client)
    requires SharedSafe(s) && Knows(s, id, c) && Rechecks(s, c, s', c')
    ensures StepSafe(s, id, s', c')
  {
    hide Maps, CommittedRoot, Complete, RootCarries;
    if c.Rereading? { MappedFacts(s.dir, c.number, Committed); }
    ReadSafe(s, id, c');
  }

  // ---------------------------------------------------------------------------------------------
  // Writes
  // ---------------------------------------------------------------------------------------------

  lemma ReservesSafe(s: Shared, id: nat, c: Client, s': Shared, c': Client)
    requires SharedSafe(s) && Knows(s, id, c) && Reserves(s, c, s', c')
    ensures StepSafe(s, id, s', c')
  {
    hide Ready, SharedSafe, TreesShaped, Guarantees;
    if c.ContainerEmpty? {
      AddsExist(c.c);
      SharedPointer(s);
      PointerMoves(s, id, Pointer(false, 1, Staging, []));
    } else {
      ReadSafe(s, id, c');
    }
  }

  lemma SharedPointer(s: Shared)
    requires SharedSafe(s)
    ensures PointerSafe(s.dir)
  {
    hide PointerSafe;
  }

  /** A pointer that stays, or moves up by one onto a complete committed root, changes nothing else. */
  lemma PointerMoves(s: Shared, id: nat, p: Pointer)
    requires SharedSafe(s) && p.number > 0 && (p.state == Staging ==> p.number == 1)
    requires var d := s.dir.(pointer := Some(p));
      && CurrentNumber(s.dir) <= CurrentNumber(d) <= CurrentNumber(s.dir) + 1
      && (p.state == Committed ==> Complete(TreeAt(d, p.number), p.number) && CommittedRoot(TreeAt(d, p.number)))
      && (p.state == Committed && p.v3 ==> RootCarries(TreeAt(d, p.number), p.number, p.digest))
      && (CurrentNumber(s.dir) < CurrentNumber(d) && s.dir.pointer.Some? && s.dir.pointer.value.v3 ==>
            MarkedIn(TreeAt(s.dir, CurrentNumber(s.dir))))
    ensures var moved := s.(dir := s.dir.(pointer := Some(p))); SharedSafe(moved) && Guarantees(s, moved, id)
  {
    hide Complete, CommittedRoot, WellNamed, Rooted, KeptRecords, RootCarries;
    NothingLost(s.dir);
    assert forall n: Number :: TreeAt(s.dir.(pointer := Some(p)), n) == TreeAt(s.dir, n);
  }

  /** Changing one subtree so that completeness survives at and above the pointer. */
  lemma TreeChangeSafe(s: Shared, n: Number, t: Tree)
    requires SharedSafe(s) && WellNamed(t) && Rooted(t) && 0 < n <= CurrentNumber(s.dir) + 1
    requires n >= CurrentNumber(s.dir) && Complete(TreeAt(s.dir, n), n) ==>
      Complete(t, n) && (CommittedRoot(TreeAt(s.dir, n)) ==> CommittedRoot(t))
    requires n >= CurrentNumber(s.dir) && Complete(TreeAt(s.dir, n), n) ==> KeptRecords(TreeAt(s.dir, n), t)
    requires n >= CurrentNumber(s.dir) ==> (RootDn in TreeAt(s.dir, n) ==> RootDn in t)
    ensures SharedSafe(s.(dir := WithTree(s.dir, n, t)))
  {
    hide Complete, CommittedRoot, WellNamed, Rooted, RootCarries, KeptRecords;
    DigestKept(TreeAt(s.dir, n), t);
    OtherTrees(s.dir, n, t);
  }

  /** Kept records keep number, schema and digest of the root. */
  lemma DigestKept(t: Tree, t': Tree)
    ensures KeptRecords(t, t') ==> forall n, digest :: RootCarries(t, n, digest) ==> RootCarries(t', n, digest)
  {}

  lemma RootChangesKeepRecords(t: Tree)
    requires RootDn in t
    ensures KeptRecords(t, CommitRoot(t)) && (WasActive !in t[RootDn].values ==> KeptRecords(t, MarkRoot(t)))
  {}

  lemma NothingLost(d: Dir)
    ensures forall n: Number :: KeptRecords(TreeAt(d, n), TreeAt(d, n))
  {}

  lemma TreeChangeGuaranteed(s: Shared, id: nat, n: Number, t: Tree)
    requires n >= CurrentNumber(s.dir) && Complete(TreeAt(s.dir, n), n) ==>
      Complete(t, n) && (CommittedRoot(TreeAt(s.dir, n)) ==> CommittedRoot(t))
    requires n >= CurrentNumber(s.dir) && Complete(TreeAt(s.dir, n), n) ==> KeptRecords(TreeAt(s.dir, n), t)
    requires n >= CurrentNumber(s.dir) && n in s.owners && s.owners[n] != id && !Complete(TreeAt(s.dir, n), n) ==>
      t == TreeAt(s.dir, n)
    ensures Guarantees(s, s.(dir := WithTree(s.dir, n, t)), id)
  {
    hide Complete, CommittedRoot, KeptRecords;
    NothingLost(s.dir);
    OtherTrees(s.dir, n, t);
  }

  lemma SealsSafe(s: Shared, id: nat, c: Client, s': Shared, c': Client)
    requires SharedSafe(s) && Knows(s, id, c) && Seals(s, c, s', c')
    ensures StepSafe(s, id, s', c')
  {
    hide Complete, CommittedRoot, WellNamed, Rooted, KeptRecords, CommitRoot, Guarantees, Knows, SharedSafe,
      TreesShaped, RootCarries;
    var n := c.number;
    var t := TreeAt(s.dir, n);
    assert RootDn in t;
    SealedCandidate(s, id, c);
    CommitShape(t);
    RootChangesKeepRecords(t);
    SealAboveCurrent(s, n);
    if n > CurrentNumber(s.dir) { CommitKeepsComplete(t, n); }
    TreeChangeSafe(s, n, CommitRoot(t));
    TreeChangeGuaranteed(s, id, n, CommitRoot(t));
    OtherTrees(s.dir, n, CommitRoot(t));
    SealedKnows(s, id, c, s', c');
  }

  lemma SealedCandidate(s: Shared, id: nat, c: Client)
    requires SharedSafe(s) && Knows(s, id, c) && c.Sealing?
    ensures PointerSafe(s.dir) && VerifiedAt(s.dir, c.number) && WellNamed(TreeAt(s.dir, c.number))
    ensures Rooted(TreeAt(s.dir, c.number))
  {
    hide Complete, CommittedRoot, WellNamed, Rooted, PlanSafe, PointerSafe;
  }

  /** Once committed, the verified candidate may be switched to. */
  lemma SealedKnows(s: Shared, id: nat, c: Client, s': Shared, c': Client)
    requires Knows(s, id, c) && Seals(s, c, s', c') && RootDn in TreeAt(s.dir, c.number)
    requires c.number > CurrentNumber(s.dir) ==>
      Complete(CommitRoot(TreeAt(s.dir, c.number)), c.number) && CommittedRoot(CommitRoot(TreeAt(s.dir, c.number)))
    ensures Knows(s', id, c')
  {
    hide Complete, CommittedRoot, CommitRoot, RootIs, RootSealedBy, RootCarries, KeptRecords;
    RootChangesKeepRecords(TreeAt(s.dir, c.number));
    DigestKept(TreeAt(s.dir, c.number), CommitRoot(TreeAt(s.dir, c.number)));
  }

  /** The current root is committed, so no commit request can succeed on it. */
  lemma SealAboveCurrent(s: Shared, n: Number)
    requires PointerSafe(s.dir) && RootDn in TreeAt(s.dir, n) && DatasetState in TreeAt(s.dir, n)[RootDn].values
    requires TreeAt(s.dir, n)[RootDn].values[DatasetState] == Text(StateName(Staging))
    ensures n != CurrentNumber(s.dir) || n == 0
  {
    hide Complete;
    assert StateName(Staging)[0] != StateName(Committed)[0];
  }

  /** The source of an activation lies at or below the current generation. */
  lemma MarkedSource(s: Shared, id: nat, c: Client)
    requires SharedSafe(s) && Knows(s, id, c) && c.Marking? && c.move.Campaign?
    ensures 0 < c.move.fence.number <= CurrentNumber(s.dir)
    ensures WellNamed(TreeAt(s.dir, c.move.fence.number)) && Rooted(TreeAt(s.dir, c.move.fence.number))
    ensures c.move.fence.number == CurrentNumber(s.dir) ==>
      Complete(TreeAt(s.dir, c.move.fence.number), c.move.fence.number)
  {
    hide Complete, CommittedRoot, WellNamed, Rooted, PlanSafe;
  }

  /** The mark touches neither the candidate nor the pointer. */
  lemma MarkedKnows(s: Shared, id: nat, c: Client, s': Shared, c': Client)
    requires Knows(s, id, c) && Marks(s, c, s', c')
    ensures Knows(s', id, c')
  {
    hide Complete, CommittedRoot, MarkRoot, RootCarries, MarkedIn;
    MarkingMarks(TreeAt(s.dir, c.move.fence.number));
  }

  lemma MarkingMarks(t: Tree)
    ensures RootDn in t ==> MarkedIn(MarkRoot(t))
  {}

  lemma MarksSafe(s: Shared, id: nat, c: Client, s': Shared, c': Client)
    requires SharedSafe(s) && Knows(s, id, c) && Marks(s, c, s', c')
    ensures StepSafe(s, id, s', c')
  {
    hide Complete, CommittedRoot, WellNamed, Rooted, KeptRecords, MarkRoot, Guarantees, Knows, SharedSafe, TreesShaped,
      RootCarries;
    if s' == s {
      MarkedKnows(s, id, c, s', c');
      ReadSafe(s, id, c');
    } else {
      var n := c.move.fence.number;
      var t := TreeAt(s.dir, n);
      MarkedSource(s, id, c);
      MarkShape(t);
      RootChangesKeepRecords(t);
      if n == CurrentNumber(s.dir) { MarkKeepsComplete(t, n); }
      TreeChangeSafe(s, n, MarkRoot(t));
      TreeChangeGuaranteed(s, id, n, MarkRoot(t));
      OtherTrees(s.dir, n, MarkRoot(t));
      MarkedKnows(s, id, c, s', c');
    }
  }

  lemma SwitchesSafe(s: Shared, id: nat, c: Client, s': Shared, c': Client)
    requires SharedSafe(s) && Knows(s, id, c) && Switches(s, c, s', c')
    ensures StepSafe(s, id, s', c')
    ensures CurrentNumber(s'.dir) == CurrentNumber(s.dir) + 1
  {
    hide Complete, CommittedRoot, SharedSafe, TreesShaped, Guarantees, RootCarries;
    SharedPointer(s);
    assert TreeAt(s'.dir, c.number) == TreeAt(s.dir, c.number);
    PointerMoves(s, id, s'.dir.pointer.value);
  }

  lemma AddsSafe(s: Shared, id: nat, c: Client, s': Shared, c': Client)
    requires SharedSafe(s) && Knows(s, id, c) && AddsEntry(s, id, c, s', c')
    ensures StepSafe(s, id, s', c')
  {
    hide Complete, CommittedRoot, WellNamed, Rooted, Ready, Written, WriteSequence, RootCarries;
    var n, w := NumberOf(c.c), Adds(c.c);
    var t, e := TreeAt(s.dir, n), Adds(c.c)[c.written];
    var after := AddTo(t, e);
    AddKeepsShape(t, e);
    OtherTrees(s.dir, n, after);
    AddedIncomplete(s, id, c);
    var moved := s.(dir := WithTree(s.dir, n, after));
    TreeChangeSafe(s, n, after);
    if c.written == 0 {
      AddsRoot(s, id, c, moved);
    } else {
      TreeChangeGuaranteed(s, id, n, after);
    }
    AddedPrefix(c, t);
  }

  /** Before each add the subtree is not complete: it is empty, or a cut write, or below the pointer. */
  lemma AddedIncomplete(s: Shared, id: nat, c: Client)
    requires SharedSafe(s) && Knows(s, id, c) && c.Writing?
    requires Addable(TreeAt(s.dir, NumberOf(c.c)), Adds(c.c)[c.written])
    ensures NumberOf(c.c) >= CurrentNumber(s.dir) ==> !Complete(TreeAt(s.dir, NumberOf(c.c)), NumberOf(c.c))
    ensures c.written == 0 ==> TreeAt(s.dir, NumberOf(c.c)) == map[] && Adds(c.c)[0].dn == RootDn
  {
    hide Complete, WriteSequence, Writable, MetadataSeals, Written;
    var t := TreeAt(s.dir, NumberOf(c.c));
    FirstAdd(c.c);
    if c.written == 0 {
      if t != map[] { RootedHasRoot(t); }
      EmptyIncomplete(t, NumberOf(c.c));
    } else if NumberOf(c.c) >= CurrentNumber(s.dir) {
      CutIsIncomplete(c.c.generation, c.c.metadata, c.written);
    }
  }

  lemma FirstAdd(c: Staged)
    requires Ready(c)
    ensures Adds(c) != [] && Adds(c)[0].dn == RootDn
  {
    hide Writable, MetadataSeals;
    AddsExist(c);
    Segments(c.generation, c.metadata);
    SkeletonSize(c.generation.number, c.metadata);
    assert Adds(c)[0] == RootEntry(c.generation.number, c.metadata);
  }

  lemma EmptyIncomplete(t: Tree, n: Number)
    requires WellNamed(t)
    ensures t == map[] ==> !Complete(t, n)
  {
    hide Maps;
    if t == map[] {
      forall state | Maps(t, n, state) ensures false {
        MappedRoot(t, n, state);
      }
    }
  }

  lemma AddsRoot(s: Shared, id: nat, c: Client, moved: Shared)
    requires SharedSafe(s) && Knows(s, id, c) && c.Writing? && c.written == 0
    requires TreeAt(s.dir, NumberOf(c.c)) == map[] && Adds(c.c)[0].dn == RootDn
    requires moved == s.(dir := WithTree(s.dir, NumberOf(c.c), AddTo(TreeAt(s.dir, NumberOf(c.c)), Adds(c.c)[0])))
    requires SharedSafe(moved)
    requires NumberOf(c.c) >= CurrentNumber(s.dir) ==> !Complete(TreeAt(s.dir, NumberOf(c.c)), NumberOf(c.c))
    ensures SharedSafe(moved.(owners := moved.owners[NumberOf(c.c) := id]))
    ensures Guarantees(s, moved.(owners := moved.owners[NumberOf(c.c) := id]), id)
  {
    hide Complete, CommittedRoot, WellNamed, Rooted, Ready, WriteSequence, RootCarries;
    OtherTrees(s.dir, NumberOf(c.c), AddTo(TreeAt(s.dir, NumberOf(c.c)), Adds(c.c)[0]));
  }

  lemma AddedPrefix(c: Client, t: Tree)
    requires c.Writing? && c.written < |Adds(c.c)|
    ensures t == Written(Adds(c.c)[..c.written]) ==>
      AddTo(t, Adds(c.c)[c.written]) == Written(Adds(c.c)[..c.written + 1])
    ensures Written(Adds(c.c)[..0]) == map[]
  {
    hide WriteSequence;
    var w := Adds(c.c);
    assert w[..c.written + 1][..c.written] == w[..c.written];
  }

  // ---------------------------------------------------------------------------------------------
  // Purging
  // ---------------------------------------------------------------------------------------------

  lemma PlansSafe(s: Shared, id: nat, c: Client, s': Shared, c': Client)
    requires SharedSafe(s) && Knows(s, id, c) && Plans(s, c, s', c')
    ensures StepSafe(s, id, s', c')
  {
    hide Complete, CommittedRoot, TreesShaped, Purgeable, Guarantees;
    if s' == s {
      ReadSafe(s, id, c');
    } else {
      JournalChanges(s, id, s'.journal);
    }
  }

  lemma JournalChanges(s: Shared, id: nat, journal: set<Plan>)
    requires SharedSafe(s) && forall p :: p in journal ==> PlanSafe(s.dir, p)
    ensures SharedSafe(s.(journal := journal)) && Guarantees(s, s.(journal := journal), id)
  {
    hide Complete, CommittedRoot, TreesShaped, KeptRecords, RootCarries;
    NothingLost(s.dir);
  }

  lemma PurgesSafe(s: Shared, id: nat, c: Client, s': Shared, c': Client)
    requires SharedSafe(s) && Knows(s, id, c) && Purges(s, c, s', c')
    ensures StepSafe(s, id, s', c')
  {
    hide Complete, CommittedRoot, WellNamed, Rooted, Leaf, KeptRecords, Guarantees, RootCarries, Knows, SharedSafe;
    PurgedKnows(s, id, c, s', c');
    if s' == s {
      ReadSafe(s, id, c');
    } else {
      PurgedTarget(s, id, c);
      var n := c.plan.target;
      var t := TreeAt(s.dir, n);
      RemoveKeepsShape(t, c.rest[0]);
      LeafNonEmpty(t, c.rest[0]);
      TreeChangeSafe(s, n, RemoveFrom(t, c.rest[0]));
      TreeChangeGuaranteed(s, id, n, RemoveFrom(t, c.rest[0]));
      OtherTrees(s.dir, n, RemoveFrom(t, c.rest[0]));
    }
  }

  lemma PurgedTarget(s: Shared, id: nat, c: Client)
    requires SharedSafe(s) && Knows(s, id, c) && c.Deleting?
    ensures PointerSafe(s.dir) && c.plan.target < CurrentNumber(s.dir)
    ensures WellNamed(TreeAt(s.dir, c.plan.target)) && Rooted(TreeAt(s.dir, c.plan.target))
  {
    hide Complete, CommittedRoot, WellNamed, Rooted, RootCarries;
  }

  lemma PurgedKnows(s: Shared, id: nat, c: Client, s': Shared, c': Client)
    requires Knows(s, id, c) && Purges(s, c, s', c')
    ensures Knows(s', id, c')
  {
    hide Leaf, RemoveFrom;
  }

  lemma LeafNonEmpty(t: Tree, dn: Dn)
    requires Leaf(t, dn)
    ensures t != map[]
  {}

  // ---------------------------------------------------------------------------------------------
  // All clients together
  // ---------------------------------------------------------------------------------------------

  lemma StepIsSafe(s: Shared, id: nat, c: Client, s': Shared, c': Client)
    requires SharedSafe(s) && Knows(s, id, c) && Steps(s, id, c, s', c')
    ensures StepSafe(s, id, s', c')
  {
    hide SharedSafe, Knows, Guarantees, Reserves, Observes, AddsEntry, Verifies, Loads, Marks, Seals, Rechecks,
      Switches, Plans, Purges;
    if GivesUp(s, c, s', c') { GivesUpSafe(s, id, c, s', c'); }
    else if Reserves(s, c, s', c') { ReservesSafe(s, id, c, s', c'); }
    else if Observes(s, c, s', c') { ObservesSafe(s, id, c, s', c'); }
    else if AddsEntry(s, id, c, s', c') { AddsSafe(s, id, c, s', c'); }
    else if Verifies(s, c, s', c') { VerifiesSafe(s, id, c, s', c'); }
    else if Loads(s, c, s', c') { LoadsSafe(s, id, c, s', c'); }
    else if Marks(s, c, s', c') { MarksSafe(s, id, c, s', c'); }
    else if Seals(s, c, s', c') { SealsSafe(s, id, c, s', c'); }
    else if Rechecks(s, c, s', c') { RechecksSafe(s, id, c, s', c'); }
    else if Switches(s, c, s', c') { SwitchesSafe(s, id, c, s', c'); }
    else if Plans(s, c, s', c') { PlansSafe(s, id, c, s', c'); }
    else { PurgesSafe(s, id, c, s', c'); }
  }

  lemma GivesUpSafe(s: Shared, id: nat, c: Client, s': Shared, c': Client)
    requires SharedSafe(s) && GivesUp(s, c, s', c')
    ensures StepSafe(s, id, s', c')
  {
    ReadSafe(s, id, c');
  }

  /** What a client relies on survives every step of any other client. */
  lemma KnowledgeIsStable(s: Shared, s': Shared, mover: nat, id: nat, c: Client)
    requires SharedSafe(s) && Guarantees(s, s', mover) && Knows(s, id, c) && id != mover
    ensures Knows(s', id, c)
  {
    hide Complete, CommittedRoot, SharedSafe, Written, WriteSequence, Ready, RootCarries, KeptRecords;
    if c.Loaded? || c.Marking? || c.Sealing? || c.Switching? { DigestStays(s, s', mover, c.number); }
    if c.Sealing? || c.Switching? { MarkStays(s, s', mover, c.move); }
    if c.Writing? && c.written > 0 && NumberOf(c.c) >= CurrentNumber(s'.dir) {
      CutStaysCut(c.c, c.written);
      assert TreeAt(s'.dir, NumberOf(c.c)) == TreeAt(s.dir, NumberOf(c.c));
    }
  }

  lemma MarkStays(s: Shared, s': Shared, mover: nat, move: Move)
    requires SharedSafe(s) && Guarantees(s, s', mover) && SourceMarked(s.dir, move)
    requires move.Campaign? ==> 0 < move.fence.number <= CurrentNumber(s.dir)
    ensures SourceMarked(s'.dir, move)
  {
    hide Complete, CommittedRoot, KeptRecords, RootCarries, TreesShaped;
    if move.Campaign? && move.fence.number == CurrentNumber(s'.dir) {
      MarkKept(TreeAt(s.dir, move.fence.number), TreeAt(s'.dir, move.fence.number));
    }
  }

  lemma MarkKept(t: Tree, t': Tree)
    ensures KeptRecords(t, t') && MarkedIn(t) ==> MarkedIn(t')
  {}

  lemma DigestStays(s: Shared, s': Shared, mover: nat, n: Number)
    requires Guarantees(s, s', mover) && VerifiedAt(s.dir, n)
    ensures forall digest :: CarriesAt(s.dir, n, digest) ==> CarriesAt(s'.dir, n, digest)
  {
    hide Complete, CommittedRoot, KeptRecords, RootCarries;
    DigestKept(TreeAt(s.dir, n), TreeAt(s'.dir, n));
  }

  lemma CutStaysCut(c: Staged, k: nat)
    requires Ready(c) && k < |Adds(c)|
    ensures !Complete(Written(Adds(c)[..k]), NumberOf(c))
  {
    hide Complete, Writable, MetadataSeals, WriteSequence, Written;
    CutIsIncomplete(c.generation, c.metadata, k);
  }

  datatype System = System(shared: Shared, clients: map<nat, Client>)

  function ClientAt(y: System, id: nat): Client { if id in y.clients then y.clients[id] else Idle }

  /** Client `id` takes one step. */
  ghost predicate Acts(y: System, id: nat, y': System)
  {
    y'.clients == y.clients[id := ClientAt(y', id)] && Steps(y.shared, id, ClientAt(y, id), y'.shared, ClientAt(y', id))
  }

  ghost predicate Next(y: System, y': System) { exists id :: Acts(y, id, y') }

  ghost predicate SystemSafe(y: System)
  {
    SharedSafe(y.shared) && forall id {:trigger ClientAt(y, id)} :: Knows(y.shared, id, ClientAt(y, id))
  }

  lemma NextIsSafe(y: System, y': System)
    requires SystemSafe(y) && Next(y, y')
    ensures SystemSafe(y')
    ensures CurrentNumber(y.shared.dir) <= CurrentNumber(y'.shared.dir) <= CurrentNumber(y.shared.dir) + 1
  {
    hide SharedSafe, Knows, Steps;
    var id :| Acts(y, id, y');
    StepIsSafe(y.shared, id, ClientAt(y, id), y'.shared, ClientAt(y', id));
    forall other: nat ensures Knows(y'.shared, other, ClientAt(y', other)) {
      if other != id {
        assert ClientAt(y', other) == ClientAt(y, other);
        KnowledgeIsStable(y.shared, y'.shared, id, other, ClientAt(y, other));
      }
    }
  }

  ghost predicate Run(r: seq<System>) { r != [] && forall i :: 0 <= i < |r| - 1 ==> Next(r[i], r[i + 1]) }

  /** Safety over every run: whatever the interleaving, crashes and lost replies. */
  lemma {:induction false} RunIsSafe(r: seq<System>, i: nat)
    requires Run(r) && SystemSafe(r[0]) && i < |r|
    ensures SystemSafe(r[i])
  {
    hide SystemSafe, Next;
    if i > 0 {
      RunIsSafe(r, i - 1);
      NextIsSafe(r[i - 1], r[i]);
    }
  }

  /** The current number never decreases, and no step moves it by more than one. */
  lemma {:induction false} RunNeverGoesBack(r: seq<System>, i: nat, j: nat)
    requires Run(r) && SystemSafe(r[0]) && i <= j < |r|
    ensures CurrentNumber(r[i].shared.dir) <= CurrentNumber(r[j].shared.dir) <= CurrentNumber(r[i].shared.dir) + (j - i)
    decreases j - i
  {
    hide SystemSafe, Next;
    if i < j {
      RunNeverGoesBack(r, i, j - 1);
      RunIsSafe(r, j - 1);
      NextIsSafe(r[j - 1], r[j]);
    }
  }

  /** At every point of a run the committed pointer names a retained committed root that maps to a generation, every
      subtree entry has its ancestors, and no root number exceeds the pointer by more than one. */
  lemma PointerNamesCompleteRoot(r: seq<System>, i: nat)
    requires Run(r) && SystemSafe(r[0]) && i < |r|
    ensures var d := r[i].shared.dir;
      && (CurrentNumber(d) > 0 ==>
            Complete(TreeAt(d, CurrentNumber(d)), CurrentNumber(d)) && CommittedRoot(TreeAt(d, CurrentNumber(d))))
      && (forall n: Number :: TreeAt(d, n) != map[] ==> RootDn in TreeAt(d, n) && 0 < n <= CurrentNumber(d) + 1)
      && (forall n: Number :: Rooted(TreeAt(d, n)))
  {
    hide Complete, CommittedRoot, Knows, Next;
    RunIsSafe(r, i);
    var d := r[i].shared.dir;
    forall n: Number | TreeAt(d, n) != map[] ensures RootDn in TreeAt(d, n) { RootedHasRoot(TreeAt(d, n)); }
  }

  /** At every point of a run a committed v3 pointer names a committed v3 root of its number and of its digest: exactly
      what the activation mark of that root asserts. */
  lemma PointerNamesItsDigest(r: seq<System>, i: nat)
    requires Run(r) && SystemSafe(r[0]) && i < |r|
    ensures var d := r[i].shared.dir;
      d.pointer.Some? && d.pointer.value.state == Committed && d.pointer.value.v3 ==>
        var t := TreeAt(d, d.pointer.value.number);
        && RootIs(t, d.pointer.value.number, SCHEMA_V3, Committed) && CandidateDigest in t[RootDn].values
        && t[RootDn].values[CandidateDigest] == Octets(d.pointer.value.digest)
  {
    hide Complete, Knows, Next, TreesShaped;
    RunIsSafe(r, i);
  }

  /** Whenever the pointer moves on from a v3 generation, the root it leaves carries the activation mark. */
  lemma LeftGenerationIsMarked(r: seq<System>, i: nat)
    requires Run(r) && SystemSafe(r[0]) && i + 1 < |r|
    ensures var d, e := r[i].shared.dir, r[i + 1].shared.dir;
      CurrentNumber(d) < CurrentNumber(e) && d.pointer.Some? && d.pointer.value.v3 ==>
        MarkedIn(TreeAt(e, CurrentNumber(d)))
  {
    hide SharedSafe, Knows, Steps, KeptRecords, Complete, CommittedRoot;
    RunIsSafe(r, i);
    assert Next(r[i], r[i + 1]);
    var id :| Acts(r[i], id, r[i + 1]);
    StepIsSafe(r[i].shared, id, ClientAt(r[i], id), r[i + 1].shared, ClientAt(r[i + 1], id));
  }

  // ---------------------------------------------------------------------------------------------
  // What is read back is what becomes current
  // ---------------------------------------------------------------------------------------------

  lemma RecordsKeptTwice(t: Tree, u: Tree, v: Tree)
    requires KeptRecords(t, u) && KeptRecords(u, v)
    ensures KeptRecords(t, v)
  {}

  lemma StepKeepsRecords(y: System, y': System, n: Number)
    requires SystemSafe(y) && Next(y, y') && n >= CurrentNumber(y'.shared.dir) && Complete(TreeAt(y.shared.dir, n), n)
    ensures Complete(TreeAt(y'.shared.dir, n), n) && KeptRecords(TreeAt(y.shared.dir, n), TreeAt(y'.shared.dir, n))
  {
    hide SharedSafe, Knows, Steps, KeptRecords, Complete, CommittedRoot;
    var id :| Acts(y, id, y');
    StepIsSafe(y.shared, id, ClientAt(y, id), y'.shared, ClientAt(y', id));
    assert TreeAt(y'.shared.dir, n) == TreeAt(y'.shared.dir, n);
  }

  /** From the point where a root is complete until the pointer leaves it behind, no entry of its subtree changes except
      the state and the mark on the root. */
  lemma {:induction false} RecordsNeverChange(r: seq<System>, i: nat, j: nat, n: Number)
    requires Run(r) && SystemSafe(r[0]) && i <= j < |r|
    requires Complete(TreeAt(r[i].shared.dir, n), n) && n >= CurrentNumber(r[j].shared.dir)
    ensures Complete(TreeAt(r[j].shared.dir, n), n)
    ensures KeptRecords(TreeAt(r[i].shared.dir, n), TreeAt(r[j].shared.dir, n))
    decreases j - i
  {
    hide SystemSafe, Next, KeptRecords, Complete;
    if i == j {
      NothingLost(r[i].shared.dir);
    } else {
      RunIsSafe(r, j - 1);
      NextIsSafe(r[j - 1], r[j]);
      RecordsNeverChange(r, i, j - 1, n);
      StepKeepsRecords(r[j - 1], r[j], n);
      RecordsKeptTwice(TreeAt(r[i].shared.dir, n), TreeAt(r[j - 1].shared.dir, n), TreeAt(r[j].shared.dir, n));
    }
  }

  /** A generation read completely at one point of a run is the one found there when its number has become current:
      every later search maps, under the same schema, to the same records. */
  lemma CurrentIsWhatWasRead(r: seq<System>, i: nat, j: nat, n: Number, s: seq<Entry>, schema: string, state: State,
                             u: seq<Entry>)
      returns (later: State)
    requires Run(r) && SystemSafe(r[0]) && i <= j < |r| && CurrentNumber(r[j].shared.dir) == n
    requires Returned(s, TreeAt(r[i].shared.dir, n)) && Readable(s, schema, n, state, |s|)
    requires Returned(u, TreeAt(r[j].shared.dir, n))
    ensures Readable(u, schema, n, later, |u|)
    ensures SameRecords(PartsOf(u, schema, n, later), PartsOf(s, schema, n, state).(state := later))
  {
    hide SystemSafe, Next, KeptRecords, Readable, Run, PartsOf, SharedSafe, Knows;
    var t, t' := TreeAt(r[i].shared.dir, n), TreeAt(r[j].shared.dir, n);
    assert Maps(t, n, state);
    RecordsNeverChange(r, i, j, n);
    later :| Maps(t', n, later);
    MapsInAnyOrder(u, t', n, later);
    var found :| Readable(u, found, n, later, |u|);
    RunIsSafe(r, i);
    SafeTrees(r[i], n);
    RunIsSafe(r, j);
    SafeTrees(r[j], n);
    SameReading(t, t', n, s, schema, state, u, found, later);
  }

  lemma SafeTrees(y: System, n: Number)
    requires SystemSafe(y)
    ensures WellNamed(TreeAt(y.shared.dir, n))
  {
    hide PointerSafe, WellNamed, Rooted, PlanSafe, Knows;
  }

  lemma SameReading(t: Tree, t': Tree, n: Number, s: seq<Entry>, schema: string, state: State, u: seq<Entry>,
                    found: string, later: State)
    requires WellNamed(t) && WellNamed(t') && KeptRecords(t, t')
    requires Returned(s, t) && Readable(s, schema, n, state, |s|) && Returned(u, t')
    requires Readable(u, found, n, later, |u|)
    ensures found == schema && SameRecords(PartsOf(u, schema, n, later), PartsOf(s, schema, n, state).(state := later))
  {
    hide PartsOf, Consistent, Sealed, ReadItem, HasItem, RootReadable;
    RootRead(t, n, s, schema, state);
    RootRead(t', n, u, found, later);
    RootsAgree(t[RootDn], t'[RootDn], n, schema, state, found, later, t, t');
    var i, x := ReturnedRoot(s, t, t'[RootDn]);
    assert t[RootDn := t'[RootDn]] == t';
    assert x[i] == t'[RootDn];
    ExchangedParts(s, x, i, schema, n, state, later);
    ReturnedAlike(u, x, t');
    PartsPermuted(u, x, schema, n, later);
  }

  lemma RootRead(t: Tree, n: Number, s: seq<Entry>, schema: string, state: State)
    requires WellNamed(t) && Returned(s, t) && Readable(s, schema, n, state, |s|)
    ensures RootDn in t && t[RootDn].dn == RootDn && RootReadable(t[RootDn], schema, n, state)
  {
    hide PartsOf, Consistent, Sealed, ReadItem, RootReadable;
    RootPresent(s, schema, n, state);
    var e: Entry :| e in s && e.dn == RootDn;
    assert ReadItem(e, schema, n, state).Some?;
    RootItemOnly(e, schema, n, state);
  }

  lemma RootsAgree(e: Entry, e': Entry, n: Number, schema: string, state: State, found: string, later: State, t: Tree,
                   t': Tree)
    requires KeptRecords(t, t') && RootDn in t && e == t[RootDn] && e' == t'[RootDn] && e.dn == RootDn
    requires RootReadable(e, schema, n, state) && RootReadable(e', found, n, later)
    ensures found == schema && RootUpdate(e, e', state, later)
  {
    hide OfGeneration, MetadataReadable;
  }

  /** The empty directory without clients is a safe start. */
  lemma EmptyIsSafe()
    ensures SystemSafe(System(Shared(Dir(None, map[]), {}, map[]), map[]))
  {
    hide Complete, CommittedRoot;
  }

  // ---------------------------------------------------------------------------------------------
  // An undisturbed bootstrap
  // ---------------------------------------------------------------------------------------------

  /** One publisher alone, over a directory whose only subtree is its own. */
  function Alone(pointer: Option<Pointer>, t: Tree, c: Client): System
  {
    var trees := if t == map[] then map[] else map[1 := t];
    var owners := if t == map[] then map[] else map[1 := 0];
    System(Shared(Dir(pointer, trees), {}, owners), map[0 := c])
  }

  const RESERVED := Pointer(false, 1, Staging, [])

  ghost predicate First(c: Staged) { Ready(c) && NumberOf(c) == 1 && c.metadata == None }

  lemma Extend(r: seq<System>, y: System)
    requires Run(r) && Next(r[|r| - 1], y)
    ensures Run(r + [y])
  {
    hide Next;
    forall i | 0 <= i < |r + [y]| - 1 ensures Next((r + [y])[i], (r + [y])[i + 1]) {}
  }

  /** The first `k` adds. */
  lemma {:induction false} BootstrapWrites(c: Staged, k: nat) returns (r: seq<System>)
    requires First(c) && k <= |Adds(c)|
    ensures Run(r) && r[0] == System(Shared(Dir(None, map[]), {}, map[]), map[])
    ensures r[|r| - 1] ==
      Alone(Some(RESERVED), Written(Adds(c)[..k]),
            if k < |Adds(c)| then Writing(c, k, Claiming) else Verifying(c, Claiming))
  {
    hide Ready, WriteSequence, Written, Next, Run;
    if k == 0 {
      r := BootstrapReserves(c);
      assert Written(Adds(c)[..0]) == map[] by { EmptyWritten(Adds(c)); }
      AddsExist(c);
    } else {
      r := BootstrapWrites(c, k - 1);
      var y := Alone(Some(RESERVED), Written(Adds(c)[..k]),
                     if k < |Adds(c)| then Writing(c, k, Claiming) else Verifying(c, Claiming));
      AddActs(c, k - 1);
      RunLast(r);
      Extend(r, y);
      r := r + [y];
    }
  }

  lemma RunLast(r: seq<System>)
    requires Run(r)
    ensures |r| > 0
  {}

  lemma EmptyWritten(w: seq<Entry>)
    ensures Written(w[..0]) == map[]
  {}

  lemma BootstrapReserves(c: Staged) returns (r: seq<System>)
    requires First(c)
    ensures Run(r) && r[0] == System(Shared(Dir(None, map[]), {}, map[]), map[])
    ensures r[|r| - 1] == Alone(Some(RESERVED), map[], Writing(c, 0, Claiming))
  {
    hide Ready, WriteSequence;
    var a := System(Shared(Dir(None, map[]), {}, map[]), map[]);
    var b, d, e := Alone(None, map[], PointerAbsent(c)), Alone(None, map[], ContainerEmpty(c)),
        Alone(Some(RESERVED), map[], Writing(c, 0, Claiming));
    assert Acts(a, 0, b) && Acts(b, 0, d) && Acts(d, 0, e);
    r := [a, b, d, e];
  }

  lemma AddActs(c: Staged, k: nat)
    requires First(c) && k < |Adds(c)|
    ensures Next(Alone(Some(RESERVED), Written(Adds(c)[..k]), Writing(c, k, Claiming)),
                 Alone(Some(RESERVED), Written(Adds(c)[..k + 1]), if k + 1 < |Adds(c)| then Writing(c, k + 1, Claiming)
                 else Verifying(c, Claiming)))
  {
    hide Ready, WriteSequence, Written, Addable, Reserves, Observes, Verifies, Loads, Marks, Seals, Rechecks, Switches,
      Plans, Purges;
    var t, after := Written(Adds(c)[..k]), Written(Adds(c)[..k + 1]);
    NextIsAddable(c.generation, None, k);
    AddedPrefix(Writing(c, k, Claiming), t);
    EmptyWritten(Adds(c));
    var x := Alone(Some(RESERVED), t, Writing(c, k, Claiming));
    var y := Alone(Some(RESERVED), after, AfterAdd(Writing(c, k, Claiming)));
    assert TreeAt(x.shared.dir, 1) == t && (k == 0 <==> t == map[]);
    assert after == AddTo(t, Adds(c)[k]) && Adds(c)[k].dn in after;
    assert y.shared.dir == WithTree(x.shared.dir, 1, after);
    assert AddsEntry(x.shared, 0, Writing(c, k, Claiming), y.shared, AfterAdd(Writing(c, k, Claiming)));
    assert Acts(x, 0, y);
  }

  /** From the empty directory one undisturbed publisher makes its first generation current. */
  lemma BootstrapSucceeds(c: Staged) returns (r: seq<System>)
    requires First(c)
    ensures Run(r) && r[0] == System(Shared(Dir(None, map[]), {}, map[]), map[])
    ensures CurrentNumber(r[|r| - 1].shared.dir) == 1
    ensures RootDn in Written(Adds(c)) && TreeAt(r[|r| - 1].shared.dir, 1) == CommitRoot(Written(Adds(c)))
  {
    hide Ready, WriteSequence, Written, Next, Run, Maps, Steps;
    var w := Adds(c);
    r := BootstrapWrites(c, |w|);
    assert w[..|w|] == w;
    WrittenRoot(c.generation, None);
    RunLast(r);
    var t := Written(w);
    var verified, sealed := Alone(Some(RESERVED), t, Sealing(1, Claim, false)),
        Alone(Some(RESERVED), CommitRoot(t), Switching(1, Claim));
    var final := Alone(Some(RESERVED.(state := Committed)), CommitRoot(t), Idle);
    VerifyActs(c, t);
    SealActs(c, t);
    ClaimActs(CommitRoot(t));
    Extend(r, verified);
    r := r + [verified];
    Extend(r, sealed);
    r := r + [sealed];
    Extend(r, final);
    r := r + [final];
  }

  lemma VerifyActs(c: Staged, t: Tree)
    requires First(c) && t == Written(Adds(c)) && RootDn in t
    ensures Next(Alone(Some(RESERVED), t, Verifying(c, Claiming)), Alone(Some(RESERVED), t, Sealing(1, Claim, false)))
  {
    hide Writable, MetadataSeals, WriteSequence, Written, Maps;
    FinishedIsComplete(c.generation, None);
    var x, y := Alone(Some(RESERVED), t, Verifying(c, Claiming)), Alone(Some(RESERVED), t, Sealing(1, Claim, false));
    assert TreeAt(x.shared.dir, 1) == t;
    assert Verifies(x.shared, Verifying(c, Claiming), y.shared, Sealing(1, Claim, false));
    assert Acts(x, 0, y);
  }

  lemma SealActs(c: Staged, t: Tree)
    requires First(c) && RootDn in t && t[RootDn] == RootEntry(1, None)
    ensures Next(Alone(Some(RESERVED), t, Sealing(1, Claim, false)),
                 Alone(Some(RESERVED), CommitRoot(t), Switching(1, Claim)))
  {
    hide Ready, WriteSequence, Reserves, Observes, AddsEntry, Verifies, Loads, Marks, Rechecks, Switches, Plans, Purges;
    var x, y := Alone(Some(RESERVED), t, Sealing(1, Claim, false)),
        Alone(Some(RESERVED), CommitRoot(t), Switching(1, Claim));
    assert TreeAt(x.shared.dir, 1) == t && RootIs(t, 1, SCHEMA_V2, Staging);
    assert Seals(x.shared, Sealing(1, Claim, false), y.shared, Switching(1, Claim));
    assert Acts(x, 0, y);
  }

  lemma ClaimActs(t: Tree)
    ensures Next(Alone(Some(RESERVED), t, Switching(1, Claim)), Alone(Some(RESERVED.(state := Committed)), t, Idle))
  {
    var x, y := Alone(Some(RESERVED), t, Switching(1, Claim)), Alone(Some(RESERVED.(state := Committed)), t, Idle);
    assert Switches(x.shared, Switching(1, Claim), y.shared, Idle);
    assert Acts(x, 0, y);
  }
}

/** The directory under one lifecycle run at a time: staging, activation, purging and automatic retention, each of which
    may stop after any request and lose any reply. */
module Retention {
  import opened Wrappers
  import opened Order
  import opened Records
  import opened Candidate
  import opened Mapper
  import opened Directory
  import opened RetainedRoots
  import opened History
  import opened Purge

  /** Whether a step is disturbed: a stop, a refused request, or a reply that never arrives. */
  method Disturbed(faulty: bool) returns (hit: bool)
    ensures !faulty ==> !hit
  {
    hit := false;
    if faulty { hit := *; }
  }

  /** A journalled plan that the remaining history still bears out. */
  ghost predicate JournalSafe(d: Dir, journal: Option<PurgePlan>)
  {
    journal.Some? ==>
      && ValidPlan(journal.value) && d.pointer.Some? && journal.value.current <= d.pointer.value.number
      && (RootAt(d, Target(journal.value)) ==> OldestV3(d, Target(journal.value)))
  }

  /** The outcome of one purge attempt on the target's subtree. */
  ghost predicate PurgedPart(before: Tree, after: Tree, p: PurgePlan)
  {
    && (forall dn :: dn in after ==> dn in before && after[dn] == before[dn])
    && Rooted(after) && WellNamed(after)
    && (after != map[] ==> RootDn in after)
    && (SnapshotMatches(before, p) ==> after == map[] || SnapshotMatches(after, p))
  }

  /** One verified root of an inventory. */
  datatype InventoryRow = InventoryRow(root: GenerationRoot, wasActive: bool, metadata: Option<Metadata>)

  datatype Inventory = Inventory(current: Number, rows: seq<InventoryRow>)

  function RowKey(r: InventoryRow): Key { RootKey(r.root) }

  /** The subtree maps in its root's state, and its root's evidence is well formed. */
  ghost predicate InventoryReadable(t: Tree, n: Number)
  {
    && RootDn in t && StateIn(t).Some? && Maps(t, n, StateIn(t).value)
    && (SchemaIn(t) == V3 ==> MetadataReadable(t[RootDn], n))
    && (WasActive in t[RootDn].values ==> t[RootDn].values[WasActive] == Text("TRUE"))
  }

  ghost predicate RowOf(d: Dir, r: InventoryRow)
  {
    var t := TreeAt(d, r.root.number);
    && RootAt(d, r.root.number) && r.root.schema == SchemaIn(t) && Some(r.root.state) == StateIn(t)
    && (r.wasActive <==> MarkedIn(t)) && Maps(t, r.root.number, r.root.state)
    && (SchemaIn(t) == V3 ==>
          MetadataReadable(t[RootDn], r.root.number) && r.metadata == Some(ReadMetadata(t[RootDn], r.root.number)))
  }

  ghost predicate Ascending(rows: seq<InventoryRow>)
  {
    forall i, j :: 0 <= i < j < |rows| ==> rows[i].root.number < rows[j].root.number
  }

  ghost predicate RowFor(rows: seq<InventoryRow>, n: Number) { exists j :: 0 <= j < |rows| && rows[j].root.number == n }

  /** Every root exactly once, all complete, oldest first. */
  ghost predicate InventoryOf(d: Dir, inv: Inventory)
  {
    && d.pointer.Some? && d.pointer.value.state == Committed && inv.current == d.pointer.value.number
    && Ascending(inv.rows)
    && (forall j :: 0 <= j < |inv.rows| ==> RowOf(d, inv.rows[j]))
    && (forall n: Number {:trigger RootAt(d, n)} :: RootAt(d, n) ==> RowFor(inv.rows, n))
  }

  datatype RetentionPolicy = RetentionPolicy(enabled: bool, maxGenerations: nat, minRollback: nat, maxBatch: nat)

  datatype RetentionOutcome = Finished | Blocked | Uncertain

  /** How many roots a clean retention leaves. */
  function RetainedCount(count: nat, policy: RetentionPolicy): int
  {
    if count <= policy.maxGenerations then count
    else if count - policy.maxBatch < policy.maxGenerations then policy.maxGenerations else count - policy.maxBatch
  }

  ghost function RootNumbers(d: Dir): set<Number> { set n | n in d.trees && RootAt(d, n) }

  /** Every root can be read completely. */
  ghost predicate Inventoriable(d: Dir)
  {
    forall n: Number {:trigger RootAt(d, n)} :: RootAt(d, n) ==> InventoryReadable(TreeAt(d, n), n)
  }

  /** What an inventory demands: a committed pointer to a committed root, and readable roots in the two-run shape. */
  ghost predicate Inventoried(d: Dir)
  {
    && d.pointer.Some? && d.pointer.value.state == Committed && Inventoriable(d)
    && RootAt(d, d.pointer.value.number) && StateIn(TreeAt(d, d.pointer.value.number)) == Some(Committed)
    && forall roots :: ListsRoots(d, roots) ==> RunsShape(roots)
  }

  /** The v3 roots that the rollback reserve does not protect. */
  ghost function BelowFloor(d: Dir, policy: RetentionPolicy): set<Number>
    requires d.pointer.Some?
  {
    set n | n in RootNumbers(d) && V3Root(d, n) && n < d.pointer.value.number - policy.minRollback
  }

  /** How many deletes the size asks for: the excess over the bound, at most one batch. */
  function Demanded(count: nat, policy: RetentionPolicy): nat
  {
    if count <= policy.maxGenerations then 0
    else if count - policy.maxGenerations < policy.maxBatch then count - policy.maxGenerations else policy.maxBatch
  }

  /** How many can be carried out when `below` v3 roots lie below the floor. */
  function CarriedOut(count: nat, below: nat, policy: RetentionPolicy): nat
  {
    if below < Demanded(count, policy) then below else Demanded(count, policy)
  }

  /** Blocked exactly when the demand exceeds what lies below the floor. */
  function CleanOutcome(count: nat, below: nat, policy: RetentionPolicy): RetentionOutcome
  {
    if below < Demanded(count, policy) then Blocked else Finished
  }

  /** Exactly these whole subtrees are gone: v3 ones below the floor, each older than every v3 root that is left. */
  ghost predicate GoneExactly(before: Dir, d: Dir, policy: RetentionPolicy, gone: set<Number>)
    requires before.pointer.Some?
  {
    && gone <= BelowFloor(before, policy)
    && (forall n: Number {:trigger TreeAt(d, n)} :: n in gone ==> TreeAt(d, n) == map[])
    && (forall n: Number {:trigger TreeAt(d, n)} :: n !in gone ==> TreeAt(d, n) == TreeAt(before, n))
    && forall a: Number, b: Number :: a in gone && V3Root(d, b) ==> a < b
  }

  ghost predicate OldestGone(before: Dir, d: Dir, policy: RetentionPolicy, count: nat)
    requires before.pointer.Some?
  {
    var gone := RootNumbers(before) - RootNumbers(d);
    |gone| == count && GoneExactly(before, d, policy, gone)
  }

  /** Nothing but complete v3 generations up to the current one. */
  ghost predicate Eligible(d: Dir)
  {
    && HistorySafe(d)
    && forall n: Number {:trigger RootAt(d, n)} :: RootAt(d, n) ==>
         V3Root(d, n) && n <= d.pointer.value.number && Maps(TreeAt(d, n), n, Committed) && MarkReadable(TreeAt(d, n))
  }

  predicate MarkReadable(t: Tree)
  {
    RootDn in t && (WasActive in t[RootDn].values ==> t[RootDn].values[WasActive] == Text("TRUE"))
  }

  class Store {
    var dir: Dir
    var journal: Option<PurgePlan>

    /** One search over a subtree, in whatever order the directory answers. */
    method ReadTree(n: Number) returns (entries: seq<Entry>)
      requires WellNamed(TreeAt(dir, n))
      ensures Returned(entries, TreeAt(dir, n))
    {
      var t := TreeAt(dir, n);
      entries := [];
      var todo := t.Keys;
      while todo != {}
        invariant todo <= t.Keys
        invariant forall e :: e in entries <==> e.dn in t && e.dn !in todo && t[e.dn] == e
        invariant Unique(entries)
      {
        var dn :| dn in todo;
        entries := entries + [t[dn]];
        todo := todo - {dn};
      }
      forall dn | dn in t ensures t[dn] in entries { assert t[dn].dn == dn; }
    }

    /** The remaining entries, checked against the plan before the first or a resumed delete. */
    method PurgeSnapshotMatchesPlan(entries: seq<Entry>, plan: PurgePlan) returns (ok: bool)
      requires WellNamed(TreeAt(dir, Target(plan))) && Returned(entries, TreeAt(dir, Target(plan)))
      ensures ok <==> SnapshotMatches(TreeAt(dir, Target(plan)), plan)
    {
      hide RootMatchesPlan, EntryDeletable;
      ghost var t := TreeAt(dir, Target(plan));
      var rootSeen := false;
      for i := 0 to |entries|
        invariant rootSeen <==> exists j :: 0 <= j < i && entries[j].dn == RootDn
        invariant forall j :: 0 <= j < i ==>
          EntryDeletable(entries[j], Target(plan)) && (entries[j].dn == RootDn ==> RootMatchesPlan(entries[j], plan))
      {
        assert entries[i] in entries;
        if entries[i].dn == RootDn {
          if !RootMatchesPlan(entries[i], plan) { return false; }
          rootSeen := true;
        }
        if !EntryDeletable(entries[i], Target(plan)) { return false; }
      }
      RootListed(entries, t);
      forall dn | dn in t
        ensures EntryDeletable(t[dn], Target(plan)) && (dn == RootDn ==> RootMatchesPlan(t[dn], plan))
      {
        assert t[dn] in entries;
        var k :| 0 <= k < |entries| && entries[k] == t[dn];
      }
      ok := rootSeen;
    }

    /** One delete per entry, deepest first, with a look at the pointer before and at the entry after each. A refused
        delete or a lost reply is settled by that second look: as long as the reads succeed, the answer is yes exactly
        when the subtree is gone. */
    method DeleteAll(entries: seq<Entry>, plan: PurgePlan, faulty: bool, blind: bool) returns (ok: bool)
      requires TreesShaped(dir) && ValidPlan(plan) && DistinctNames(entries) && Ordered(entries, DepthKey)
      requires Remaining(entries, 0, TreeAt(dir, Target(plan))) && SnapshotMatches(TreeAt(dir, Target(plan)), plan)
      requires forall j :: 0 <= j < |entries| ==> !entries[j].dn.ForeignDn?
      modifies this`dir
      ensures dir.pointer == old(dir.pointer)
      ensures forall n: Number :: n != Target(plan) ==> TreeAt(dir, n) == old(TreeAt(dir, n))
      ensures PurgedPart(old(TreeAt(dir, Target(plan))), TreeAt(dir, Target(plan)), plan)
      ensures ok ==> TreeAt(dir, Target(plan)) == map[]
      ensures !blind ==> (ok <==> TreeAt(dir, Target(plan)) == map[])
      ensures !faulty && !blind ==> ok
      ensures
        && old(HistorySafe(dir)) && old(OldestV3(dir, Target(plan)))
        && old(dir.pointer.Some? && Target(plan) < dir.pointer.value.number) ==>
          HistorySafe(dir)
    {
      hide SnapshotMatches, TreesShaped, HistorySafe, OldestV3, Remaining, Ordered, Purging, PurgedPart;
      ghost var before := dir;
      PurgingStarts(before, entries, plan);
      for i := 0 to |entries|
        invariant Purging(before, dir, entries, i, plan)
        invariant dir.pointer == before.pointer && TreesShaped(dir)
        invariant
          && HistorySafe(before) && OldestV3(before, Target(plan)) && before.pointer.Some?
          && Target(plan) < before.pointer.value.number ==>
            HistorySafe(dir)
      {
        PurgingMeans(before, dir, entries, i, plan);
        // the pointer may be unreadable here, or the process may stop
        var unread := Disturbed(blind);
        if unread { return false; }
        PurgingStep(before, dir, entries, i, plan);
        // the delete may be refused with the entry still in place
        var refused := Disturbed(faulty);
        if !refused {
          dir := WithTree(dir, Target(plan), RemoveFrom(TreeAt(dir, Target(plan)), entries[i].dn));
          PurgingMeans(before, dir, entries, i + 1, plan);
        }
        // whatever the reply, the entry is looked up again
        var unseen := Disturbed(blind);
        if unseen || entries[i].dn in TreeAt(dir, Target(plan)) { return false; }
      }
      PurgingMeans(before, dir, entries, |entries|, plan);
      // the pointer is read once more
      var unread := Disturbed(blind);
      ok := !unread;
    }

    /** Deletes the planned generation leaf by leaf. However it ends, nothing but a part of the target is gone and every
        remaining entry has its ancestors; undisturbed under an unchanged pointer it removes the whole subtree, also
        when it resumes an interrupted attempt. */
    method DeleteGeneration(plan: PurgePlan, faulty: bool, blind: bool) returns (ok: bool)
      requires TreesShaped(dir)
      modifies this`dir
      ensures dir.pointer == old(dir.pointer)
      ensures forall n: Number :: n != Target(plan) ==> TreeAt(dir, n) == old(TreeAt(dir, n))
      ensures PurgedPart(old(TreeAt(dir, Target(plan))), TreeAt(dir, Target(plan)), plan)
      ensures ok ==> TreeAt(dir, Target(plan)) == map[] && old(PurgeReady(dir, plan))
      ensures old(PurgeReady(dir, plan)) ==> PurgeReady(dir, plan)
      ensures !old(PurgeReady(dir, plan)) ==> dir == old(dir)
      ensures old(PurgeReady(dir, plan)) && !faulty && !blind ==> ok
      ensures !blind ==> (ok <==> old(PurgeReady(dir, plan)) && TreeAt(dir, Target(plan)) == map[])
      ensures old(HistorySafe(dir)) && old(RootAt(dir, Target(plan)) ==> OldestV3(dir, Target(plan))) ==>
        HistorySafe(dir)
    {
      hide SnapshotMatches, TreesShaped, HistorySafe, OldestV3;
      ghost var before := dir;
      ghost var n := Target(plan);
      Untouched(TreeAt(dir, n), dir, plan);
      if !ValidPlan(plan) || dir.pointer.None? || dir.pointer.value.state != Committed ||
         dir.pointer.value.number != plan.current
      {
        return false;
      }
      var unread := Disturbed(blind);
      if unread { return false; }
      var entries := ReadTree(Target(plan));
      EmptyReading(entries, TreeAt(dir, n));
      if |entries| == 0 { return true; }
      var matches := PurgeSnapshotMatchesPlan(entries, plan);
      if !matches { return false; }
      var sorted := Sort(entries, DepthKey);
      ok := DeleteAll(sorted, plan, faulty, blind) by {
        ReturnedRemaining(entries, sorted, TreeAt(dir, n));
        NoForeign(TreeAt(dir, n), plan, sorted);
      }
    }

    /** Attempts that stop anywhere, however many, followed by an undisturbed one: exactly the target is gone. */
    method PurgeAfterInterruptions(plan: PurgePlan, interruptions: nat)
      requires TreesShaped(dir) && PurgeReady(dir, plan)
      modifies this`dir
      ensures dir.pointer == old(dir.pointer) && TreeAt(dir, Target(plan)) == map[]
      ensures forall n: Number :: n != Target(plan) ==> TreeAt(dir, n) == old(TreeAt(dir, n))
    {
      hide SnapshotMatches, TreesShaped, HistorySafe, OldestV3, PurgeReady, PurgedPart;
      for i := 0 to interruptions
        invariant TreesShaped(dir) && PurgeReady(dir, plan) && dir.pointer == old(dir.pointer)
        invariant forall n: Number :: n != Target(plan) ==> TreeAt(dir, n) == old(TreeAt(dir, n))
      {
        ghost var before := dir;
        var interrupted := DeleteGeneration(plan, true, true);
        StillShaped(before, dir, plan);
      }
      var finished := DeleteGeneration(plan, false, false);
    }

    /** Reads and maps one subtree. */
    method MapTree(n: Number, state: State) returns (ok: bool)
      requires WellNamed(TreeAt(dir, n))
      ensures ok <==> Maps(TreeAt(dir, n), n, state)
    {
      hide Readable, Maps;
      var entries := ReadTree(n);
      var mapped := MapGeneration(entries, n, state, |entries|);
      MapsInAnyOrder(entries, TreeAt(dir, n), n, state);
      ok := mapped.Ok?;
    }

    /** The facts of every retained root, without its records. */
    method ListRoots() returns (result: Result<seq<GenerationRoot>>)
      ensures result.Ok? <==>
        forall n: Number {:trigger RootAt(dir, n)} :: RootAt(dir, n) ==> StateIn(TreeAt(dir, n)).Some?
      ensures result.Ok? ==> ListsRoots(dir, result.value)
    {
      hide SchemaIn, StateIn;
      var roots: seq<GenerationRoot> := [];
      var todo := dir.trees.Keys;
      while todo != {}
        invariant todo <= dir.trees.Keys
        invariant ListedApart(dir, roots, todo)
        invariant forall n: Number {:trigger RootAt(dir, n)} :: RootAt(dir, n) && n !in todo ==> ListedNumber(roots, n)
      {
        var n :| n in todo;
        var t := TreeAt(dir, n);
        if RootDn in t {
          assert RootAt(dir, n);
          if StateIn(t).None? { return Err(Invalid); }
          var row := GenerationRoot(n, SchemaIn(t), StateIn(t).value);
          ListedMore(dir, roots, todo, row);
          roots := roots + [row];
        } else {
          ListedLess(dir, roots, todo, n);
        }
        todo := todo - {n};
      }
      ListedAll(dir, roots);
      result := Ok(roots);
    }

    /** Every root read completely under one stable pointer, in ascending order. */
    method InventoryGenerations() returns (result: Result<Inventory>)
      requires TreesShaped(dir)
      ensures result.Ok? ==> InventoryOf(dir, result.value)
      ensures result.Ok? <==> Inventoried(dir)
      ensures HistorySafe(dir) && Inventoriable(dir) ==> result.Ok?
    {
      hide SchemaIn, StateIn, MarkedIn, HistorySafe, TreesShaped, Maps, MetadataReadable, ReadMetadata, RunsShape,
        SuccessorShape, WellNamed, InventoryReadable;
      SafeIsInventoried(dir);
      if dir.pointer.None? || dir.pointer.value.state != Committed {
        PointerNeeded(dir);
        return Err(Conflict);
      }
      var listed := ListRoots();
      StatesReadable(dir);
      if listed.Err? { return Err(Unavailable); }
      var rows: seq<InventoryRow> := [];
      for i := 0 to |listed.value|
        invariant |rows| == i && forall j :: 0 <= j < i ==> rows[j].root == listed.value[j] && RowOf(dir, rows[j])
        invariant forall j :: 0 <= j < i ==>
          InventoryReadable(TreeAt(dir, listed.value[j].number), listed.value[j].number)
      {
        assert listed.value[i] in listed.value;
        Shaped(dir, listed.value[i].number);
        var row := InventoryRootFacts(listed.value[i]);
        if row.Err? { return Err(Invalid); }
        rows := rows + [row.value];
      }
      AllInventoried(dir, listed.value);
      var shaped := ValidRetainedRoots(listed.value);
      ListingsShaped(dir, listed.value);
      if !shaped { return Err(Invalid); }
      var sorted := Sort(rows, RowKey);
      SortedRows(dir, listed.value, rows, sorted);
      var currentFound := false;
      for i := 0 to |sorted|
        invariant currentFound <==>
          exists j ::
            0 <= j < i && sorted[j].root.number == dir.pointer.value.number && sorted[j].root.state == Committed
      {
        if sorted[i].root.number == dir.pointer.value.number { currentFound := sorted[i].root.state == Committed; }
        SortedApart(sorted, i);
      }
      CurrentListed(dir, sorted);
      if !currentFound { return Err(Conflict); }
      result := Ok(Inventory(dir.pointer.value.number, sorted));
    }

    /** One inventory row: the root's facts, its metadata, and a complete reading of its subtree. */
    method InventoryRootFacts(root: GenerationRoot) returns (result: Result<InventoryRow>)
      requires RootAt(dir, root.number) && WellNamed(TreeAt(dir, root.number))
      requires root.schema == SchemaIn(TreeAt(dir, root.number))
      requires Some(root.state) == StateIn(TreeAt(dir, root.number))
      ensures result.Ok? <==> InventoryReadable(TreeAt(dir, root.number), root.number)
      ensures result.Ok? ==> result.value.root == root && RowOf(dir, result.value)
    {
      hide SchemaIn, StateIn, Maps, MetadataReadable, ReadMetadata, WellNamed;
      var t := TreeAt(dir, root.number);
      var mapped := MapTree(root.number, root.state);
      if !mapped { return Err(Invalid); }
      var metadata := None;
      if root.schema == V3 {
        if !MetadataReadable(t[RootDn], root.number) { return Err(Invalid); }
        metadata := Some(ReadMetadata(t[RootDn], root.number));
      }
      var present := WasActive in t[RootDn].values;
      if present && t[RootDn].values[WasActive] != Text("TRUE") { return Err(Invalid); }
      result := Ok(InventoryRow(root, present, metadata));
    }

    /** The first row that may be purged below the rollback floor. */
    method ChooseTarget(inv: Inventory, floor: int) returns (target: Option<InventoryRow>)
      requires TreesShaped(dir) && HistorySafe(dir) && InventoryOf(dir, inv) && floor <= inv.current
      ensures target.Some? ==>
        && target.value.root.number < floor && OldestV3(dir, target.value.root.number)
        && RootAt(dir, target.value.root.number)
      ensures target.Some? ==> MetadataReadable(TreeAt(dir, target.value.root.number)[RootDn], target.value.root.number)
      ensures target.Some? ==>
        target.value.metadata ==
          Some(ReadMetadata(TreeAt(dir, target.value.root.number)[RootDn], target.value.root.number))
      ensures target.Some? ==>
        SnapshotMatches(TreeAt(dir, target.value.root.number), PurgePlan(inv.current, target.value.metadata.value))
      ensures target.None? ==> forall n: Number :: V3Root(dir, n) ==> n >= floor
    {
      hide HistorySafe, TreesShaped, InventoryOf, RowOf, SnapshotMatches, V3Root, MetadataReadable, ReadMetadata;
      for i := 0 to |inv.rows|
        invariant forall j :: 0 <= j < i ==>
          !(inv.rows[j].root.number < floor && inv.rows[j].root.schema == V3 && inv.rows[j].root.state == Committed &&
              inv.rows[j].wasActive)
      {
        var row := inv.rows[i];
        if row.root.number < floor && row.root.schema == V3 && row.root.state == Committed && row.wasActive {
          FirstPurgeable(dir, inv, i, floor);
          return Some(row);
        }
      }
      NothingPurgeable(dir, inv, floor);
      target := None;
    }

    /** Creates the journal; a disturbed creation may or may not have left it behind. */
    method CreateJournal(plan: PurgePlan, faulty: bool) returns (ok: bool)
      modifies this`journal
      ensures journal == old(journal) || journal == Some(plan)
      ensures ok ==> journal == Some(plan)
      ensures !faulty ==> ok
    {
      var before := Disturbed(faulty);
      if before { return false; }
      journal := Some(plan);
      var after := Disturbed(faulty);
      ok := !after;
    }

    method RemoveJournal(faulty: bool) returns (ok: bool)
      modifies this`journal
      ensures journal == old(journal) || journal == None
      ensures ok ==> journal == None
      ensures !faulty ==> ok
    {
      var before := Disturbed(faulty);
      if before { return false; }
      journal := None;
      var after := Disturbed(faulty);
      ok := !after;
    }

    /** One round: plan the oldest purgeable generation, journal the plan, delete, and forget the plan. */
    method PurgeOldest(inv: Inventory, row: InventoryRow, faulty: bool) returns (ok: bool)
      requires HistorySafe(dir) && journal.None? && InventoryOf(dir, inv) && row.root.number < inv.current
      requires OldestV3(dir, row.root.number)
      requires row.metadata.Some? && Target(PurgePlan(inv.current, row.metadata.value)) == row.root.number
      requires row.root.number > 0
      requires SnapshotMatches(TreeAt(dir, row.root.number), PurgePlan(inv.current, row.metadata.value))
      modifies this
      ensures HistorySafe(dir) && JournalSafe(dir, journal) && dir.pointer == old(dir.pointer)
      ensures forall n: Number :: n != row.root.number ==> TreeAt(dir, n) == old(TreeAt(dir, n))
      ensures journal.Some? ==> Target(journal.value) == row.root.number && PurgeReady(dir, journal.value)
      ensures journal.None? ==>
        TreeAt(dir, row.root.number) == old(TreeAt(dir, row.root.number)) || TreeAt(dir, row.root.number) == map[]
      ensures ok ==> journal.None? && TreeAt(dir, row.root.number) == map[]
      ensures !faulty ==> ok
    {
      hide SnapshotMatches, InventoryOf, PurgedPart, OldestV3, HistorySafe, JournalSafe;
      var plan := PurgePlan(inv.current, row.metadata.value);
      ghost var before := dir;
      SafeFacts(dir);
      InventoryCurrent(dir, inv);
      PlannedIsSafe(dir, plan);
      NoJournalIsSafe(dir);
      var created := CreateJournal(plan, faulty);
      if !created { return false; }
      assert PurgeReady(dir, plan);
      var deleted := DeleteGeneration(plan, faulty, faulty);
      OldestAfterPurge(before, dir, plan);
      NoJournalIsSafe(dir);
      if !deleted { return false; }
      ok := RemoveJournal(faulty);
    }

    /** Carries a journalled purge to its end and forgets the plan. Undisturbed this succeeds exactly when the pointer
        is where the plan saw it and the target is gone or still a remainder of the plan. */
    method RecoverJournal(faulty: bool) returns (ok: bool)
      requires HistorySafe(dir) && JournalSafe(dir, journal) && journal.Some?
      modifies this
      ensures HistorySafe(dir) && JournalSafe(dir, journal) && dir.pointer == old(dir.pointer)
      ensures forall n: Number :: n != old(Target(journal.value)) ==> TreeAt(dir, n) == old(TreeAt(dir, n))
      ensures LegacyKept(old(dir), dir)
      ensures journal == old(journal) || journal.None?
      ensures journal.Some? && old(PurgeReady(dir, journal.value)) ==> PurgeReady(dir, journal.value)
      ensures ok || journal.None? ==>
        TreeAt(dir, old(Target(journal.value))) == map[] && old(PurgeReady(dir, journal.value))
      ensures ok ==> journal.None?
      ensures !faulty ==> (ok <==> old(PurgeReady(dir, journal.value)))
      ensures !old(PurgeReady(dir, journal.value)) ==> dir == old(dir) && journal == old(journal)
      ensures old(TreeAt(dir, Target(journal.value))) == map[] ==> TreeAt(dir, old(Target(journal.value))) == map[]
    {
      hide HistorySafe, JournalSafe, OldestV3, PurgeReady, LegacyKept, TreesShaped, SnapshotMatches;
      ghost var before := dir;
      var plan := journal.value;
      SafeFacts(dir);
      JournalMeans(dir, plan);
      ok := DeleteGeneration(plan, faulty, faulty);
      EmptyStaysEmpty(TreeAt(before, Target(plan)), TreeAt(dir, Target(plan)), plan);
      OldestAfterPurge(before, dir, plan);
      JournalLegacy(before, dir, plan);
      NoJournalIsSafe(dir);
      if !ok { return; }
      ok := RemoveJournal(faulty);
    }

    /** Deletes oldest v3 generations until the bound holds or the batch is used up. */
    method DeleteOldest(policy: RetentionPolicy, faulty: bool) returns (outcome: RetentionOutcome)
      requires HistorySafe(dir) && journal.None?
      modifies this
      ensures HistorySafe(dir) && JournalSafe(dir, journal) && dir.pointer == old(dir.pointer)
      ensures ReserveKept(old(dir), dir, policy) && LegacyKept(old(dir), dir) && OnlyGone(old(dir), dir)
      ensures !faulty ==> journal.None?
      ensures old(Inventoriable(dir)) ==> !Unrecoverable(dir, journal) && Inventoriable(Recovered(dir, journal))
      ensures !faulty && old(Inventoriable(dir)) ==>
        var count, below := old(|RootNumbers(dir)|), old(|BelowFloor(dir, policy)|);
        && OldestGone(old(dir), dir, policy, CarriedOut(count, below, policy))
        && outcome == CleanOutcome(count, below, policy)
      ensures !faulty && old(Eligible(dir)) && policy.minRollback < policy.maxGenerations ==>
        && outcome == Finished && Eligible(dir)
        && |RootNumbers(dir)| == RetainedCount(old(|RootNumbers(dir)|), policy)
    {
      hide HistorySafe, JournalSafe, InventoryOf, OldestV3, SnapshotMatches, PurgedPart, Eligible, PurgeReady,
        RootNumbers, MetadataReadable, ReadMetadata, ReserveKept, LegacyKept, OnlyGone, TreesShaped, Inventoriable,
        BelowFloor, OldestGone, Ascending, RowOf, Inventoried;
      ghost var before := dir;
      NothingGone(dir, policy);
      SafeFacts(dir);
      NoJournalIsSafe(dir);
      NoneGone(dir, policy);
      EligibleOutcome(dir, policy);
      ghost var readable := Inventoriable(dir);
      ghost var clean := !faulty && readable;
      for deleted := 0 to policy.maxBatch
        invariant HistorySafe(dir) && journal.None? && dir.pointer == before.pointer && dir.pointer.Some?
        invariant readable ==> Inventoriable(dir)
        invariant clean ==> OldestGone(before, dir, policy, deleted)
        invariant clean ==> deleted > 0 ==> |RootNumbers(before)| - deleted >= policy.maxGenerations
        invariant ReserveKept(before, dir, policy) && LegacyKept(before, dir) && OnlyGone(before, dir)
      {
        SafeFacts(dir);
        NoJournalIsSafe(dir);
        if clean {
          GoneSizes(before, dir, policy, deleted);
          EligibleTrimmed(before, dir, policy, deleted);
        }
        var read := Disturbed(faulty);
        if read { return RetentionOutcome.Uncertain; }
        var inventory := InventoryGenerations();
        if inventory.Err? { return RetentionOutcome.Uncertain; }
        var inv := inventory.value;
        InventoryCurrent(dir, inv);
        InventorySize(dir, inv);
        if |inv.rows| <= policy.maxGenerations { return Finished; }
        NothingBelow(dir, policy);
        if inv.current <= policy.minRollback { return Blocked; }
        var floor := inv.current - policy.minRollback;
        var target := ChooseTarget(inv, floor);
        if target.None? { return Blocked; }
        TargetNumber(dir, target.value);
        OldestIsV3(dir, target.value.root.number);
        ghost var round := dir;
        var purged := PurgeOldest(inv, target.value, faulty);
        SafeFacts(dir);
        OnlyOldestGone(before, round, dir, target.value.root.number, policy);
        if readable { StaysInventoriable(round, dir, journal, target.value.root.number); }
        if !purged { return RetentionOutcome.Uncertain; }
        if clean { OneMoreGone(before, round, dir, target.value.root.number, policy, deleted); }
      }
      NoJournalIsSafe(dir);
      if clean {
        GoneSizes(before, dir, policy, policy.maxBatch);
        EligibleTrimmed(before, dir, policy, policy.maxBatch);
      }
      return Finished;
    }

    /** Resumes a journalled purge, then deletes oldest v3 generations. The rollback reserve is safe unless a journalled
        target that is still there lies in it; a journal that cannot be recovered stops retention altogether. */
    method ApplyAutomaticRetention(policy: RetentionPolicy, faulty: bool) returns (outcome: RetentionOutcome)
      requires HistorySafe(dir) && JournalSafe(dir, journal)
      modifies this
      ensures HistorySafe(dir) && JournalSafe(dir, journal) && dir.pointer == old(dir.pointer)
      ensures TreeAt(dir, dir.pointer.value.number) == old(TreeAt(dir, dir.pointer.value.number))
      ensures LegacyKept(old(dir), dir)
      ensures !policy.enabled ==> outcome == Finished && dir == old(dir) && journal == old(journal)
      ensures old(ReserveSpared(dir, journal, policy)) ==> ReserveKept(old(dir), dir, policy)
      ensures old(Unrecoverable(dir, journal)) && policy.enabled ==>
        outcome == RetentionOutcome.Uncertain && dir == old(dir) && journal == old(journal)
      ensures !old(Unrecoverable(dir, journal)) && old(Inventoriable(Recovered(dir, journal))) ==>
        !Unrecoverable(dir, journal) && Inventoriable(Recovered(dir, journal))
      ensures !faulty && policy.enabled && old(journal.Some? && PurgeReady(dir, journal.value)) ==>
        && journal.None? && TreeAt(dir, old(Target(journal.value))) == map[]
        && (ReserveKept(old(dir), dir, policy) <==> old(ReserveSpared(dir, journal, policy)))
      ensures
        && !faulty && policy.enabled && !old(Unrecoverable(dir, journal))
        && old(Inventoriable(Recovered(dir, journal))) ==>
        var start := old(Recovered(dir, journal));
        && start.pointer.Some?
        && var count, below := |RootNumbers(start)|, |BelowFloor(start, policy)|;
           && OldestGone(start, dir, policy, CarriedOut(count, below, policy))
           && outcome == CleanOutcome(count, below, policy)
      ensures
        && !faulty && policy.enabled && !old(Unrecoverable(dir, journal)) && old(Eligible(Recovered(dir, journal)))
        && policy.minRollback < policy.maxGenerations ==>
        && outcome == Finished && Eligible(dir)
        && |RootNumbers(dir)| == RetainedCount(old(|RootNumbers(Recovered(dir, journal))|), policy)
    {
      hide HistorySafe, JournalSafe, OldestV3, PurgeReady, Eligible, RootNumbers, ReserveKept, LegacyKept, OnlyGone,
        TreesShaped, SnapshotMatches, Inventoriable, BelowFloor, OldestGone;
      ghost var before, plan := dir, journal;
      NothingGone(dir, policy);
      SafeFacts(dir);
      if !policy.enabled { return Finished; }
      if journal.Some? {
        JournalMeans(dir, journal.value);
        var resumed := RecoverJournal(faulty);
        OnlyTargetGone(before, dir, plan.value, policy);
        RecoveryInventory(before, dir, plan, journal);
        if !resumed { return RetentionOutcome.Uncertain; }
        RecoveredAlike(before, dir, plan);
        RecoveredInventory(before, dir, plan, policy);
      }
      ghost var start := dir;
      outcome := DeleteOldest(policy, faulty);
      SafeFacts(dir);
      if plan.Some? { RecoveredGone(before, start, dir, plan, policy); }
      KeptTwice(before, start, dir, policy);
    }
  }

  /** The directory after `i` deletes. */
  ghost predicate Purging(before: Dir, d: Dir, entries: seq<Entry>, i: nat, p: PurgePlan)
    requires i <= |entries|
  {
    var n := Target(p);
    && DistinctNames(entries) && Ordered(entries, DepthKey)
    && (forall j :: 0 <= j < |entries| ==> !entries[j].dn.ForeignDn?)
    && (forall m: Number :: m != n ==> TreeAt(d, m) == TreeAt(before, m))
    && WellNamed(TreeAt(d, n)) && Rooted(TreeAt(d, n)) && Remaining(entries, i, TreeAt(d, n))
    && (forall dn :: dn in TreeAt(d, n) ==> dn in TreeAt(before, n) && TreeAt(d, n)[dn] == TreeAt(before, n)[dn])
    && (if i < |entries| then SnapshotMatches(TreeAt(d, n), p) else TreeAt(d, n) == map[])
  }

  lemma PurgingStarts(d: Dir, entries: seq<Entry>, p: PurgePlan)
    requires TreesShaped(d) && DistinctNames(entries) && Ordered(entries, DepthKey)
    requires forall j :: 0 <= j < |entries| ==> !entries[j].dn.ForeignDn?
    requires Remaining(entries, 0, TreeAt(d, Target(p))) && SnapshotMatches(TreeAt(d, Target(p)), p)
    ensures Purging(d, d, entries, 0, p)
  {
    hide Ordered, RootMatchesPlan, EntryDeletable;
    assert exists j :: 0 <= j < |entries| && entries[j].dn == RootDn;
  }

  lemma PurgingMeans(before: Dir, d: Dir, entries: seq<Entry>, i: nat, p: PurgePlan)
    requires i <= |entries| && Purging(before, d, entries, i, p)
    ensures forall m: Number :: m != Target(p) ==> TreeAt(d, m) == TreeAt(before, m)
    ensures PurgedPart(TreeAt(before, Target(p)), TreeAt(d, Target(p)), p)
    ensures i == |entries| ==> TreeAt(d, Target(p)) == map[]
  {
    hide Ordered, RootMatchesPlan, EntryDeletable, Remaining;
  }

  /** One more delete: the next entry is a leaf, and the history stays safe, also when it was the root. */
  lemma PurgingStep(before: Dir, d: Dir, entries: seq<Entry>, i: nat, p: PurgePlan)
    requires i < |entries| && Purging(before, d, entries, i, p) && TreesShaped(d) && d.pointer == before.pointer
    ensures var after := WithTree(d, Target(p), RemoveFrom(TreeAt(d, Target(p)), entries[i].dn));
      && Leaf(TreeAt(d, Target(p)), entries[i].dn) && Purging(before, after, entries, i + 1, p) && TreesShaped(after)
      && (HistorySafe(d) && OldestV3(before, Target(p)) && d.pointer.Some? && Target(p) < d.pointer.value.number ==>
            HistorySafe(after))
  {
    hide Ordered, SnapshotMatches, Remaining, HistorySafe, Leaf;
    var n := Target(p);
    var t := TreeAt(d, n);
    var after := RemoveFrom(t, entries[i].dn);
    NextIsLeaf(entries, i, t);
    RemoveKeepsShape(t, entries[i].dn);
    RemoveNext(entries, i, t);
    OtherTrees(d, n, after);
    MatchingRoot(t, p);
    if entries[i].dn == RootDn {
      RootIsLast(entries, i, t);
      OldestStays(before, d, n);
      if HistorySafe(d) && OldestV3(before, n) && d.pointer.Some? && n < d.pointer.value.number {
        RemoveOldestKeepsSafe(d, n);
      }
    } else {
      RemainderMatches(t, p, entries[i].dn);
      MatchingRoot(after, p);
      StillRemaining(entries, i, after);
      SameRoot(t, after);
      if HistorySafe(d) { SameFactsKeepSafe(d, n, after); }
    }
  }

  lemma MatchingRoot(t: Tree, p: PurgePlan)
    requires SnapshotMatches(t, p)
    ensures RootDn in t && SchemaIn(t) == V3
  {
    assert SCHEMA_V3 != SCHEMA_V1 && SCHEMA_V3 != SCHEMA_V2 by {
      assert SCHEMA_V3[|SCHEMA_V3| - 1] != SCHEMA_V1[|SCHEMA_V1| - 1];
      assert SCHEMA_V3[|SCHEMA_V3| - 1] != SCHEMA_V2[|SCHEMA_V2| - 1];
    }
  }

  lemma StillRemaining(entries: seq<Entry>, i: nat, t: Tree)
    requires i < |entries| && Remaining(entries, i + 1, t) && RootDn in t
    ensures i + 1 < |entries|
  {}

  /** While its root stands, the target is still the oldest v3 root. */
  lemma OldestStays(before: Dir, d: Dir, n: Number)
    requires forall m: Number :: m != n ==> TreeAt(d, m) == TreeAt(before, m)
    requires V3Root(d, n)
    ensures OldestV3(before, n) ==> OldestV3(d, n)
  {
    hide SchemaIn;
    forall m: Number | OldestV3(before, n) && V3Root(d, m) ensures n <= m {
      if m != n { assert V3Root(before, m); }
    }
  }

  lemma Untouched(t: Tree, d: Dir, plan: PurgePlan)
    requires TreesShaped(d) && t == TreeAt(d, Target(plan))
    ensures PurgedPart(t, t, plan) && WellNamed(t) && Rooted(t)
  {
    if t != map[] { RootedHasRoot(t); }
  }

  lemma StillShaped(before: Dir, d: Dir, plan: PurgePlan)
    requires TreesShaped(before) && forall n: Number :: n != Target(plan) ==> TreeAt(d, n) == TreeAt(before, n)
    requires PurgedPart(TreeAt(before, Target(plan)), TreeAt(d, Target(plan)), plan)
    ensures TreesShaped(d)
  {
    hide WellNamed, Rooted, SnapshotMatches;
    forall n: Number ensures WellNamed(TreeAt(d, n)) && Rooted(TreeAt(d, n)) {
      if n != Target(plan) { assert TreeAt(d, n) == TreeAt(before, n); }
    }
  }

  ghost predicate ListedApart(d: Dir, roots: seq<GenerationRoot>, todo: set<Number>)
  {
    && DistinctNumbers(roots)
    && forall r :: r in roots ==>
         && r.number !in todo && RootAt(d, r.number) && r.schema == SchemaIn(TreeAt(d, r.number))
         && Some(r.state) == StateIn(TreeAt(d, r.number))
  }

  lemma ListedMore(d: Dir, roots: seq<GenerationRoot>, todo: set<Number>, row: GenerationRoot)
    requires ListedApart(d, roots, todo) && row.number in todo && RootAt(d, row.number)
    requires row.schema == SchemaIn(TreeAt(d, row.number)) && Some(row.state) == StateIn(TreeAt(d, row.number))
    ensures ListedApart(d, roots + [row], todo - {row.number})
    ensures forall n: Number :: ListedNumber(roots, n) || n == row.number ==> ListedNumber(roots + [row], n)
  {
    hide SchemaIn, StateIn;
    var after := roots + [row];
    assert row in after;
    forall i | 0 <= i < |roots| ensures roots[i].number != row.number { assert roots[i] in roots; }
    forall n: Number | ListedNumber(roots, n) ensures ListedNumber(after, n) {
      var r :| r in roots && r.number == n;
      assert r in after;
    }
  }

  lemma ListedLess(d: Dir, roots: seq<GenerationRoot>, todo: set<Number>, n: Number)
    requires ListedApart(d, roots, todo)
    ensures ListedApart(d, roots, todo - {n})
  {}

  lemma ListedAll(d: Dir, roots: seq<GenerationRoot>)
    requires ListedApart(d, roots, {})
    requires forall n: Number {:trigger RootAt(d, n)} :: RootAt(d, n) ==> ListedNumber(roots, n)
    ensures ListsRoots(d, roots)
    ensures forall n: Number :: RootAt(d, n) ==> StateIn(TreeAt(d, n)).Some?
  {
    hide SchemaIn, StateIn;
    forall n: Number | RootAt(d, n) ensures StateIn(TreeAt(d, n)).Some? {
      assert ListedNumber(roots, n);
    }
  }

  lemma PointerNeeded(d: Dir)
    requires d.pointer.None? || d.pointer.value.state != Committed
    ensures !HistorySafe(d)
  {}

  lemma Shaped(d: Dir, n: Number)
    requires TreesShaped(d)
    ensures WellNamed(TreeAt(d, n)) && Rooted(TreeAt(d, n))
  {}

  lemma SortedRows(d: Dir, roots: seq<GenerationRoot>, rows: seq<InventoryRow>, sorted: seq<InventoryRow>)
    requires ListsRoots(d, roots) && |rows| == |roots|
    requires forall j :: 0 <= j < |rows| ==> rows[j].root == roots[j] && RowOf(d, rows[j])
    requires multiset(sorted) == multiset(rows) && Ordered(sorted, RowKey)
    ensures Ascending(sorted) && (forall j :: 0 <= j < |sorted| ==> RowOf(d, sorted[j]))
    ensures forall n: Number {:trigger RootAt(d, n)} :: RootAt(d, n) ==> RowFor(sorted, n)
  {
    hide RowOf, RootAt;
    assert Unique(rows);
    PermutedUnique(sorted, rows);
    LessIrreflexive("");
    forall i, j | 0 <= i < j < |sorted| ensures sorted[i].root.number < sorted[j].root.number {
      assert !KeyLess(RowKey(sorted[j]), RowKey(sorted[i]));
      assert sorted[i] in rows && sorted[j] in rows && sorted[i] != sorted[j];
      var m, n :| 0 <= m < |rows| && 0 <= n < |rows| && rows[m] == sorted[i] && rows[n] == sorted[j];
    }
    forall j | 0 <= j < |sorted| ensures RowOf(d, sorted[j]) { assert sorted[j] in rows; }
    forall n: Number | RootAt(d, n) ensures RowFor(sorted, n) {
      assert ListedNumber(roots, n);
      var r :| r in roots && r.number == n;
      var m :| 0 <= m < |roots| && roots[m] == r;
      assert rows[m] in sorted;
    }
  }

  lemma SortedApart(rows: seq<InventoryRow>, i: nat)
    requires Ascending(rows) && i < |rows|
    ensures forall j :: 0 <= j < i ==> rows[j].root.number != rows[i].root.number
  {}

  lemma CurrentListed(d: Dir, rows: seq<InventoryRow>)
    requires d.pointer.Some? && (forall j :: 0 <= j < |rows| ==> RowOf(d, rows[j]))
    requires forall n: Number {:trigger RootAt(d, n)} :: RootAt(d, n) ==> RowFor(rows, n)
    ensures RootAt(d, d.pointer.value.number) && StateIn(TreeAt(d, d.pointer.value.number)) == Some(Committed) <==>
      exists j :: 0 <= j < |rows| && rows[j].root.number == d.pointer.value.number && rows[j].root.state == Committed
  {
    hide SchemaIn, StateIn, MarkedIn, Maps, MetadataReadable, ReadMetadata;
    var current := d.pointer.value.number;
    if RootAt(d, current) {
      assert RowFor(rows, current);
      var j :| 0 <= j < |rows| && rows[j].root.number == current;
      assert RowOf(d, rows[j]);
    }
  }

  lemma StatesReadable(d: Dir)
    ensures Inventoriable(d) ==>
      forall n: Number {:trigger RootAt(d, n)} :: RootAt(d, n) ==> StateIn(TreeAt(d, n)).Some?
  {
    hide StateIn, SchemaIn, Maps, MetadataReadable;
  }

  lemma AllInventoried(d: Dir, roots: seq<GenerationRoot>)
    requires ListsRoots(d, roots)
    requires forall j :: 0 <= j < |roots| ==> InventoryReadable(TreeAt(d, roots[j].number), roots[j].number)
    ensures Inventoriable(d)
  {
    hide StateIn, SchemaIn, InventoryReadable;
    forall n: Number | RootAt(d, n) ensures InventoryReadable(TreeAt(d, n), n) {
      assert ListedNumber(roots, n);
      var r :| r in roots && r.number == n;
    }
  }

  /** One listing of the roots is as good as any other. */
  lemma ListingsShaped(d: Dir, roots: seq<GenerationRoot>)
    requires ListsRoots(d, roots)
    ensures RunsShape(roots) <==> forall other :: ListsRoots(d, other) ==> RunsShape(other)
  {
    hide RunsShape, StateIn, SchemaIn;
    forall other | ListsRoots(d, other) ensures RunsShape(other) <==> RunsShape(roots) {
      ListingsAgree(d, roots, other);
      ShapeIgnoresOrder(roots, other);
    }
  }

  lemma ListingsAgree(d: Dir, a: seq<GenerationRoot>, b: seq<GenerationRoot>)
    requires ListsRoots(d, a) && ListsRoots(d, b)
    ensures multiset(a) == multiset(b)
  {
    hide StateIn, SchemaIn;
    OtherListing(d, a, b);
    OtherListing(d, b, a);
    SameElementsSameBag(a, b);
  }

  lemma OtherListing(d: Dir, a: seq<GenerationRoot>, b: seq<GenerationRoot>)
    requires ListsRoots(d, a) && ListsRoots(d, b)
    ensures Unique(a) && forall r :: r in a ==> r in b
  {
    hide StateIn, SchemaIn;
    forall r | r in a ensures r in b {
      assert ListedNumber(b, r.number);
      var x :| x in b && x.number == r.number;
    }
  }

  lemma SafeIsInventoried(d: Dir)
    ensures HistorySafe(d) && Inventoriable(d) ==> Inventoried(d)
  {
    hide RunsShape, SuccessorShape, ListsRoots, SchemaIn, StateIn, MarkedIn, DigestIn, TreesShaped, RunsConsecutive,
      InventoryReadable;
    if HistorySafe(d) && Inventoriable(d) {
      forall roots | ListsRoots(d, roots) ensures RunsShape(roots) { SafeHistoryIsAccepted(d, roots); }
      assert RootOk(d, d.pointer.value.number, d.pointer.value.number);
    }
  }

  lemma SafeFacts(d: Dir)
    requires HistorySafe(d)
    ensures TreesShaped(d) && d.pointer.Some? && d.pointer.value.state == Committed && d.pointer.value.number > 0
    ensures forall n: Number :: V3Root(d, n) && n < d.pointer.value.number ==>
      MarkedIn(TreeAt(d, n)) && StateIn(TreeAt(d, n)) == Some(Committed) && n > 0
    ensures RootAt(d, d.pointer.value.number)
  {
    hide TreesShaped, SchemaIn, StateIn, MarkedIn, DigestIn;
    forall n: Number | V3Root(d, n) && n < d.pointer.value.number
      ensures MarkedIn(TreeAt(d, n)) && StateIn(TreeAt(d, n)) == Some(Committed) && n > 0
    {
      assert RootAt(d, n) && RootOk(d, d.pointer.value.number, n);
    }
  }

  lemma InventoryCurrent(d: Dir, inv: Inventory)
    requires InventoryOf(d, inv)
    ensures d.pointer.Some? && inv.current == d.pointer.value.number && Ascending(inv.rows)
    ensures forall j :: 0 <= j < |inv.rows| ==> RowOf(d, inv.rows[j])
  {
    hide RowOf, Ascending;
  }

  lemma RowMeans(d: Dir, row: InventoryRow)
    requires RowOf(d, row) && row.root.schema == V3 && row.root.state == Committed && row.wasActive
    requires WellNamed(TreeAt(d, row.root.number))
    ensures V3Root(d, row.root.number) && MetadataReadable(TreeAt(d, row.root.number)[RootDn], row.root.number)
    ensures row.metadata == Some(ReadMetadata(TreeAt(d, row.root.number)[RootDn], row.root.number))
    ensures forall current :: SnapshotMatches(TreeAt(d, row.root.number), PurgePlan(current, row.metadata.value))
  {
    hide SchemaIn, StateIn, MarkedIn, Maps, MetadataReadable, ReadMetadata, SnapshotMatches, WellNamed;
    forall current: Number ensures SnapshotMatches(TreeAt(d, row.root.number), PurgePlan(current, row.metadata.value)) {
      CompleteIsPurgeable(TreeAt(d, row.root.number), row.root.number, current);
    }
  }

  /** The first purgeable row is the oldest v3 root, because every older one would have been marked too. */
  lemma FirstPurgeable(d: Dir, inv: Inventory, i: nat, floor: int)
    requires TreesShaped(d) && HistorySafe(d) && InventoryOf(d, inv) && floor <= inv.current && i < |inv.rows|
    requires var row := inv.rows[i];
      row.root.number < floor && row.root.schema == V3 && row.root.state == Committed && row.wasActive
    requires forall j :: 0 <= j < i ==>
      !(inv.rows[j].root.number < floor && inv.rows[j].root.schema == V3 && inv.rows[j].root.state == Committed &&
          inv.rows[j].wasActive)
    ensures var row := inv.rows[i];
      && OldestV3(d, row.root.number) && RootAt(d, row.root.number)
      && MetadataReadable(TreeAt(d, row.root.number)[RootDn], row.root.number)
      && row.metadata == Some(ReadMetadata(TreeAt(d, row.root.number)[RootDn], row.root.number))
      && SnapshotMatches(TreeAt(d, row.root.number), PurgePlan(inv.current, row.metadata.value))
  {
    hide TreesShaped, HistorySafe, SchemaIn, StateIn, MarkedIn, Maps, MetadataReadable, ReadMetadata, SnapshotMatches,
      WellNamed;
    var row := inv.rows[i];
    Shaped(d, row.root.number);
    RowMeans(d, row);
    SafeFacts(d);
    forall m: Number | V3Root(d, m) ensures row.root.number <= m {
      assert RootAt(d, m);
      assert RowFor(inv.rows, m);
      var j :| 0 <= j < |inv.rows| && inv.rows[j].root.number == m;
      assert RowOf(d, inv.rows[j]);
    }
  }

  lemma NothingPurgeable(d: Dir, inv: Inventory, floor: int)
    requires HistorySafe(d) && InventoryOf(d, inv) && floor <= inv.current
    requires forall j :: 0 <= j < |inv.rows| ==>
      !(inv.rows[j].root.number < floor && inv.rows[j].root.schema == V3 && inv.rows[j].root.state == Committed &&
          inv.rows[j].wasActive)
    ensures forall n: Number :: V3Root(d, n) ==> n >= floor
  {
    hide HistorySafe, SchemaIn, StateIn, MarkedIn, Maps, MetadataReadable, ReadMetadata;
    SafeFacts(d);
    forall n: Number | V3Root(d, n) ensures n >= floor {
      assert RootAt(d, n);
      assert RowFor(inv.rows, n);
      var j :| 0 <= j < |inv.rows| && inv.rows[j].root.number == n;
      assert RowOf(d, inv.rows[j]);
    }
  }

  lemma TargetNumber(d: Dir, row: InventoryRow)
    requires RootAt(d, row.root.number) && MetadataReadable(TreeAt(d, row.root.number)[RootDn], row.root.number)
    requires row.metadata == Some(ReadMetadata(TreeAt(d, row.root.number)[RootDn], row.root.number))
    ensures row.metadata.value.generation == row.root.number && row.root.number > 0
  {
    MetadataNumber(TreeAt(d, row.root.number)[RootDn], row.root.number);
  }

  lemma OldestIsV3(d: Dir, n: Number)
    requires OldestV3(d, n)
    ensures V3Root(d, n)
  {}

  lemma PlannedIsSafe(d: Dir, plan: PurgePlan)
    requires ValidPlan(plan) && d.pointer.Some? && plan.current == d.pointer.value.number && OldestV3(d, Target(plan))
    ensures JournalSafe(d, Some(plan))
  {}

  /** The current generation and its rollback reserve are as they were. */
  ghost predicate ReserveKept(before: Dir, d: Dir, policy: RetentionPolicy)
    requires d.pointer.Some?
  {
    forall n: Number {:trigger TreeAt(d, n)} :: n >= d.pointer.value.number - policy.minRollback ==>
      TreeAt(d, n) == TreeAt(before, n)
  }

  /** Roots written before campaigns existed are as they were. */
  ghost predicate LegacyKept(before: Dir, d: Dir)
  {
    forall n: Number {:trigger TreeAt(d, n)} :: !V3Root(before, n) ==> TreeAt(d, n) == TreeAt(before, n)
  }

  lemma JournalLegacy(before: Dir, d: Dir, plan: PurgePlan)
    requires TreesShaped(before) && (RootAt(before, Target(plan)) ==> OldestV3(before, Target(plan)))
    requires forall n: Number :: n != Target(plan) ==> TreeAt(d, n) == TreeAt(before, n)
    requires PurgedPart(TreeAt(before, Target(plan)), TreeAt(d, Target(plan)), plan)
    ensures LegacyKept(before, d)
  {
    hide SchemaIn, SnapshotMatches, WellNamed;
    var n := Target(plan);
    if !V3Root(before, n) {
      Shaped(before, n);
      if TreeAt(before, n) != map[] { RootedHasRoot(TreeAt(before, n)); }
      assert TreeAt(d, n) == map[];
    }
  }

  /** Every subtree is as it was or gone completely or in part. */
  ghost predicate OnlyGone(before: Dir, d: Dir)
  {
    forall n: Number {:trigger TreeAt(d, n)} :: TreeAt(before, n) == map[] ==> TreeAt(d, n) == map[]
  }

  /** No journalled target that is still there lies in the reserve. */
  predicate ReserveSpared(d: Dir, journal: Option<PurgePlan>, policy: RetentionPolicy)
    requires d.pointer.Some?
  {
    journal.Some? ==>
      Target(journal.value) < d.pointer.value.number - policy.minRollback || TreeAt(d, Target(journal.value)) == map[]
  }

  /** A journalled purge that no attempt can finish as long as the pointer and the target stay as they are. */
  ghost predicate Unrecoverable(d: Dir, journal: Option<PurgePlan>) { journal.Some? && !PurgeReady(d, journal.value) }

  /** The directory without the journalled target. */
  function Recovered(d: Dir, journal: Option<PurgePlan>): Dir
  {
    if journal.Some? then WithTree(d, Target(journal.value), map[]) else d
  }

  lemma EmptyStaysEmpty(t: Tree, t': Tree, plan: PurgePlan)
    requires PurgedPart(t, t', plan)
    ensures t == map[] ==> t' == map[]
  {}

  lemma NothingGone(d: Dir, policy: RetentionPolicy)
    ensures (d.pointer.Some? ==> ReserveKept(d, d, policy)) && LegacyKept(d, d) && OnlyGone(d, d)
  {
    hide SchemaIn;
  }

  lemma OnlyOldestGone(before: Dir, round: Dir, d: Dir, n: Number, policy: RetentionPolicy)
    requires round.pointer.Some? && d.pointer == round.pointer && n < d.pointer.value.number - policy.minRollback
    requires V3Root(round, n)
    requires forall m: Number :: m != n ==> TreeAt(d, m) == TreeAt(round, m)
    ensures ReserveKept(before, round, policy) ==> ReserveKept(before, d, policy)
    ensures LegacyKept(before, round) ==> LegacyKept(before, d)
    ensures OnlyGone(before, round) ==> OnlyGone(before, d)
  {
    hide SchemaIn;
    if LegacyKept(before, round) {
      forall m: Number | !V3Root(before, m) ensures TreeAt(d, m) == TreeAt(before, m) {
        assert TreeAt(round, m) == TreeAt(before, m);
      }
    }
    if ReserveKept(before, round, policy) {
      forall m: Number | m >= d.pointer.value.number - policy.minRollback ensures TreeAt(d, m) == TreeAt(before, m) {
        assert TreeAt(round, m) == TreeAt(before, m);
      }
    }
    if OnlyGone(before, round) {
      forall m: Number | TreeAt(before, m) == map[] ensures TreeAt(d, m) == map[] {
        assert TreeAt(round, m) == map[];
      }
    }
  }

  /** What recovery touches: the target, and so the reserve only where the target lies in it. */
  lemma OnlyTargetGone(before: Dir, d: Dir, plan: PurgePlan, policy: RetentionPolicy)
    requires before.pointer.Some? && d.pointer == before.pointer && Target(plan) < d.pointer.value.number
    requires forall m: Number :: m != Target(plan) ==> TreeAt(d, m) == TreeAt(before, m)
    requires TreeAt(before, Target(plan)) == map[] ==> TreeAt(d, Target(plan)) == map[]
    ensures ReserveSpared(before, Some(plan), policy) ==> ReserveKept(before, d, policy)
    ensures TreeAt(d, Target(plan)) == map[] && ReserveKept(before, d, policy) ==>
      ReserveSpared(before, Some(plan), policy)
    ensures TreeAt(d, d.pointer.value.number) == TreeAt(before, d.pointer.value.number)
  {}

  /** Deleting on from `mid`, the reserve and what recovery did to it stay as they are. */
  lemma KeptTwice(before: Dir, mid: Dir, d: Dir, policy: RetentionPolicy)
    requires before.pointer.Some? && mid.pointer == before.pointer && d.pointer == before.pointer
    requires ReserveKept(mid, d, policy) && LegacyKept(mid, d) && LegacyKept(before, mid) && OnlyGone(mid, d)
    ensures ReserveKept(before, d, policy) <==> ReserveKept(before, mid, policy)
    ensures LegacyKept(before, d)
    ensures TreeAt(d, d.pointer.value.number) == TreeAt(mid, d.pointer.value.number)
    ensures forall n: Number :: TreeAt(mid, n) == map[] ==> TreeAt(d, n) == map[]
  {
    hide SchemaIn;
    forall n: Number | !V3Root(before, n) ensures TreeAt(d, n) == TreeAt(before, n) {
      assert TreeAt(mid, n) == TreeAt(before, n) && !V3Root(mid, n);
    }
    if ReserveKept(before, d, policy) {
      forall n: Number | n >= mid.pointer.value.number - policy.minRollback
        ensures TreeAt(mid, n) == TreeAt(before, n)
      {
        assert TreeAt(d, n) == TreeAt(mid, n);
      }
    }
    if ReserveKept(before, mid, policy) {
      forall n: Number | n >= d.pointer.value.number - policy.minRollback ensures TreeAt(d, n) == TreeAt(before, n) {
        assert TreeAt(mid, n) == TreeAt(before, n);
      }
    }
  }

  /** A finished recovery leaves the directory without the target, subtree by subtree. */
  lemma RecoveredAlike(before: Dir, d: Dir, journal: Option<PurgePlan>)
    requires journal.Some? && d.pointer == before.pointer && TreeAt(d, Target(journal.value)) == map[]
    requires forall m: Number :: m != Target(journal.value) ==> TreeAt(d, m) == TreeAt(before, m)
    ensures Eligible(Recovered(before, journal)) ==> Eligible(d)
    ensures RootNumbers(d) == RootNumbers(Recovered(before, journal))
  {
    var none: Tree := map[];
    OtherTrees(before, Target(journal.value), none);
    AlikeTrees(Recovered(before, journal), d);
  }

  lemma RecoveredInventory(before: Dir, d: Dir, journal: Option<PurgePlan>, policy: RetentionPolicy)
    requires journal.Some? && d.pointer == before.pointer && d.pointer.Some?
    requires TreeAt(d, Target(journal.value)) == map[]
    requires forall m: Number :: m != Target(journal.value) ==> TreeAt(d, m) == TreeAt(before, m)
    ensures Inventoriable(Recovered(before, journal)) ==> Inventoriable(d)
    ensures BelowFloor(d, policy) == BelowFloor(Recovered(before, journal), policy)
  {
    hide InventoryReadable, SchemaIn;
    var none: Tree := map[];
    var e := Recovered(before, journal);
    OtherTrees(before, Target(journal.value), none);
    assert forall m: Number :: TreeAt(d, m) == TreeAt(e, m);
    forall m: Number ensures RootAt(d, m) == RootAt(e, m) && V3Root(d, m) == V3Root(e, m) {}
  }

  lemma RecoveryInventory(before: Dir, d: Dir, journal: Option<PurgePlan>, left: Option<PurgePlan>)
    requires journal.Some? && (left == journal || (left.None? && TreeAt(d, Target(journal.value)) == map[]))
    requires forall m: Number :: m != Target(journal.value) ==> TreeAt(d, m) == TreeAt(before, m)
    ensures Inventoriable(Recovered(before, journal)) ==> Inventoriable(Recovered(d, left))
  {
    hide InventoryReadable, SchemaIn;
    var none: Tree := map[];
    var e, f := Recovered(before, journal), Recovered(d, left);
    OtherTrees(before, Target(journal.value), none);
    OtherTrees(d, Target(journal.value), none);
    assert forall m: Number :: TreeAt(e, m) == TreeAt(f, m);
    forall m: Number ensures RootAt(e, m) == RootAt(f, m) {}
  }

  lemma RecoveredGone(before: Dir, mid: Dir, d: Dir, journal: Option<PurgePlan>, policy: RetentionPolicy)
    requires journal.Some? && mid.pointer == before.pointer && mid.pointer.Some?
    requires TreeAt(mid, Target(journal.value)) == map[]
    requires forall m: Number :: m != Target(journal.value) ==> TreeAt(mid, m) == TreeAt(before, m)
    ensures forall count :: OldestGone(mid, d, policy, count) ==>
      OldestGone(Recovered(before, journal), d, policy, count)
  {
    hide SchemaIn, V3Root, RootNumbers, BelowFloor;
    var none: Tree := map[];
    var e := Recovered(before, journal);
    OtherTrees(before, Target(journal.value), none);
    assert forall m: Number :: TreeAt(mid, m) == TreeAt(e, m);
    AlikeTrees(mid, e);
    RecoveredInventory(before, mid, journal, policy);
  }

  /** Only the subtrees matter, not how the directory stores the empty ones. */
  lemma AlikeTrees(d: Dir, e: Dir)
    requires d.pointer == e.pointer && forall n: Number :: TreeAt(d, n) == TreeAt(e, n)
    ensures Eligible(d) ==> Eligible(e)
    ensures RootNumbers(d) == RootNumbers(e)
  {
    hide Maps, SchemaIn, StateIn, DigestIn, MarkedIn, MarkReadable, WellNamed, Rooted;
    forall n: Number
      ensures RootAt(e, n) == RootAt(d, n) && V3Root(e, n) == V3Root(d, n) && Legacy(e, n) == Legacy(d, n)
    {}
    if Eligible(d) {
      AlikeSafe(d, e);
      forall n: Number | RootAt(e, n)
        ensures V3Root(e, n) && n <= e.pointer.value.number && Maps(TreeAt(e, n), n, Committed)
        ensures MarkReadable(TreeAt(e, n))
      {
        assert RootAt(d, n);
      }
    }
  }

  lemma AlikeSafe(d: Dir, e: Dir)
    requires HistorySafe(d) && d.pointer == e.pointer && forall n: Number :: TreeAt(d, n) == TreeAt(e, n)
    ensures HistorySafe(e)
  {
    hide SchemaIn, StateIn, DigestIn, MarkedIn, WellNamed, Rooted;
    forall n: Number
      ensures RootAt(e, n) == RootAt(d, n) && V3Root(e, n) == V3Root(d, n) && Legacy(e, n) == Legacy(d, n)
    {}
    forall n: Number | RootAt(e, n) ensures RootOk(e, e.pointer.value.number, n) {
      assert RootAt(d, n) && RootOk(d, d.pointer.value.number, n);
    }
    SameRuns(d, e);
    assert PointerMatches(e);
    forall n: Number ensures WellNamed(TreeAt(e, n)) && Rooted(TreeAt(e, n)) { assert TreeAt(d, n) == TreeAt(e, n); }
  }

  lemma NoJournalIsSafe(d: Dir)
    ensures JournalSafe(d, None)
  {}

  lemma JournalMeans(d: Dir, plan: PurgePlan)
    requires JournalSafe(d, Some(plan))
    ensures ValidPlan(plan) && d.pointer.Some? && Target(plan) < d.pointer.value.number
    ensures RootAt(d, Target(plan)) ==> OldestV3(d, Target(plan))
  {}

  /** After a purge attempt the plan still describes the oldest v3 root, or the root is gone. */
  lemma OldestAfterPurge(before: Dir, d: Dir, plan: PurgePlan)
    requires JournalSafe(before, Some(plan)) && d.pointer == before.pointer
    requires forall n: Number :: n != Target(plan) ==> TreeAt(d, n) == TreeAt(before, n)
    requires PurgedPart(TreeAt(before, Target(plan)), TreeAt(d, Target(plan)), plan)
    ensures JournalSafe(d, Some(plan))
  {
    hide SnapshotMatches, WellNamed, Rooted;
    var n := Target(plan);
    if RootAt(d, n) {
      SameRoot(TreeAt(before, n), TreeAt(d, n));
      OldestStays(before, d, n);
    }
  }

  lemma V3Metadata(t: Tree, n: Number)
    requires WellNamed(t) && Maps(t, n, Committed) && SchemaIn(t) == V3
    ensures RootDn in t && MetadataReadable(t[RootDn], n)
  {
    hide Maps, SchemaIn, MetadataReadable, WellNamed, ReadItem;
    var s := MappedV3(t, n, Committed);
  }

  lemma EligibleRoot(d: Dir, n: Number)
    requires Eligible(d) && RootAt(d, n)
    ensures V3Root(d, n) && n <= d.pointer.value.number && StateIn(TreeAt(d, n)) == Some(Committed)
    ensures InventoryReadable(TreeAt(d, n), n) && n > 0
  {
    hide Maps, SchemaIn, StateIn, MarkedIn, MetadataReadable, TreesShaped;
    assert RootOk(d, d.pointer.value.number, n);
    SafeFacts(d);
    Shaped(d, n);
    V3Metadata(TreeAt(d, n), n);
  }

  lemma EligibleReadable(d: Dir)
    requires Eligible(d)
    ensures forall n: Number {:trigger RootAt(d, n)} :: RootAt(d, n) ==> InventoryReadable(TreeAt(d, n), n)
  {
    hide Eligible, InventoryReadable, RootAt;
    forall n: Number | RootAt(d, n) ensures InventoryReadable(TreeAt(d, n), n) { EligibleRoot(d, n); }
  }

  ghost function NumbersOf(rows: seq<InventoryRow>): set<Number>
  {
    if rows == [] then {} else NumbersOf(rows[..|rows| - 1]) + {rows[|rows| - 1].root.number}
  }

  lemma {:induction false} NumbersContents(rows: seq<InventoryRow>, n: Number)
    ensures n in NumbersOf(rows) <==> RowFor(rows, n)
  {
    if rows != [] {
      var rest := rows[..|rows| - 1];
      NumbersContents(rest, n);
      if RowFor(rest, n) {
        var j :| 0 <= j < |rest| && rest[j].root.number == n;
        assert rows[j].root.number == n;
      }
      if RowFor(rows, n) && n != rows[|rows| - 1].root.number {
        var j :| 0 <= j < |rows| && rows[j].root.number == n;
        assert rest[j].root.number == n;
      }
    }
  }

  lemma {:induction false} RowNumbers(rows: seq<InventoryRow>)
    requires Ascending(rows)
    ensures |NumbersOf(rows)| == |rows|
  {
    if rows != [] {
      var rest, last := rows[..|rows| - 1], rows[|rows| - 1];
      RowNumbers(rest);
      NumbersContents(rest, last.root.number);
    }
  }

  lemma InventorySize(d: Dir, inv: Inventory)
    requires InventoryOf(d, inv)
    ensures |inv.rows| == |RootNumbers(d)|
  {
    hide RowOf, NumbersOf;
    RowNumbers(inv.rows);
    forall n ensures n in NumbersOf(inv.rows) <==> n in RootNumbers(d) {
      NumbersContents(inv.rows, n);
      if RowFor(inv.rows, n) {
        var j :| 0 <= j < |inv.rows| && inv.rows[j].root.number == n;
        RowIsRoot(d, inv.rows[j]);
      }
    }
    assert NumbersOf(inv.rows) == RootNumbers(d);
  }

  lemma RowIsRoot(d: Dir, row: InventoryRow)
    requires RowOf(d, row)
    ensures RootAt(d, row.root.number) && row.root.number in d.trees
  {
    hide Maps;
  }

  /** All numbers from `lo` on, `size` many. */
  ghost function Interval(lo: int, size: nat): set<int>
  {
    if size == 0 then {} else Interval(lo, size - 1) + {lo + size - 1}
  }

  lemma {:induction false} IntervalContents(lo: int, size: nat)
    ensures forall n :: n in Interval(lo, size) <==> lo <= n < lo + size
  {
    if size > 0 { IntervalContents(lo, size - 1); }
  }

  lemma {:induction false} IntervalSize(lo: int, size: nat)
    ensures |Interval(lo, size)| == size
  {
    if size > 0 {
      IntervalSize(lo, size - 1);
      IntervalContents(lo, size - 1);
    }
  }

  lemma {:induction false} Smallest(s: set<Number>) returns (lo: Number)
    requires s != {}
    ensures lo in s && forall n :: n in s ==> lo <= n
  {
    lo :| lo in s;
    var others := s - {lo};
    assert forall n :: n in s ==> n == lo || n in others;
    if others != {} {
      var rest := Smallest(others);
      if rest < lo { lo := rest; }
    }
  }

  /** An eligible history is one interval ending at the current number, so its size locates its oldest root. */
  lemma EligibleInterval(d: Dir)
    requires Eligible(d)
    ensures 0 < |RootNumbers(d)| <= d.pointer.value.number
    ensures forall n: Number :: RootAt(d, n) <==>
      d.pointer.value.number - |RootNumbers(d)| + 1 <= n <= d.pointer.value.number
  {
    hide Eligible, InventoryReadable, TreesShaped, StateIn, SchemaIn, MarkedIn;
    EligibleCurrent(d);
    var current := d.pointer.value.number;
    var lo := Smallest(RootNumbers(d));
    EligibleRoot(d, lo);
    forall n: Number ensures (n in RootNumbers(d) <==> RootAt(d, n)) && (n in RootNumbers(d) <==> lo <= n <= current) {
      if RootAt(d, n) { EligibleRoot(d, n); }
      if lo <= n <= current { EligibleBetween(d, lo, n); }
    }
    assert forall n: int :: n in RootNumbers(d) <==> lo <= n <= current;
    SameSize(RootNumbers(d), lo, current);
  }

  lemma SameSize(s: set<int>, lo: Number, hi: Number)
    requires lo <= hi && forall n: int :: n in s <==> lo <= n <= hi
    ensures |s| == hi - lo + 1
  {
    IntervalContents(lo, hi - lo + 1);
    IntervalSize(lo, hi - lo + 1);
    forall n: int ensures n in s <==> n in Interval(lo, hi - lo + 1) {}
    assert s == Interval(lo, hi - lo + 1);
  }

  lemma EligibleCurrent(d: Dir)
    requires Eligible(d)
    ensures d.pointer.Some? && d.pointer.value.number in RootNumbers(d)
  {
    hide Maps, SchemaIn, TreesShaped;
  }

  lemma EligibleBetween(d: Dir, lo: Number, n: Number)
    requires Eligible(d) && RootAt(d, lo) && lo <= n <= d.pointer.value.number
    ensures RootAt(d, n) && n in RootNumbers(d)
  {
    hide Maps, SchemaIn, TreesShaped, MarkReadable;
    var current := d.pointer.value.number;
    assert V3Root(d, lo) && V3Root(d, current);
    assert RootAt(d, n) || !RootAt(d, n);
    assert V3Root(d, n);
  }

  /** With a reserve smaller than the bound, an oversized eligible history has its oldest root below the floor. */
  lemma OldestBelowFloor(d: Dir, policy: RetentionPolicy)
    requires Eligible(d) && policy.minRollback < policy.maxGenerations < |RootNumbers(d)|
    ensures exists n: Number :: V3Root(d, n) && n < d.pointer.value.number - policy.minRollback
  {
    hide Eligible, RootNumbers, SchemaIn;
    EligibleCurrent(d);
    EligibleInterval(d);
    var n: Number := d.pointer.value.number - |RootNumbers(d)| + 1;
    assert RootAt(d, n);
    EligibleRoot(d, n);
  }

  // ---------------------------------------------------------------------------------------------
  // What a clean retention deletes
  // ---------------------------------------------------------------------------------------------

  lemma NoneGone(d: Dir, policy: RetentionPolicy)
    requires d.pointer.Some?
    ensures OldestGone(d, d, policy, 0)
  {
    hide V3Root, RootNumbers;
    assert RootNumbers(d) - RootNumbers(d) == {};
  }

  /** Sizes after `count` deletes. */
  lemma GoneSizes(before: Dir, d: Dir, policy: RetentionPolicy, count: nat)
    requires before.pointer.Some? && d.pointer == before.pointer && OldestGone(before, d, policy, count)
    ensures |RootNumbers(d)| == |RootNumbers(before)| - count
    ensures |BelowFloor(d, policy)| == |BelowFloor(before, policy)| - count
  {
    hide RootNumbers, V3Root, BelowFloor, RootAt, OldestGone;
    var gone := RootNumbers(before) - RootNumbers(d);
    assert |gone| == count && gone <= BelowFloor(before, policy) by { GoneCount(before, d, policy, count); }
    forall n: Number ensures n in RootNumbers(d) <==> n in RootNumbers(before) && n !in gone {
      GoneOrSame(before, d, policy, count, n);
    }
    assert RootNumbers(d) == RootNumbers(before) - gone;
    forall n: Number ensures n in BelowFloor(d, policy) <==> n in BelowFloor(before, policy) && n !in gone {
      GoneOrSame(before, d, policy, count, n);
    }
    assert BelowFloor(d, policy) == BelowFloor(before, policy) - gone;
  }

  lemma GoneCount(before: Dir, d: Dir, policy: RetentionPolicy, count: nat)
    requires before.pointer.Some? && OldestGone(before, d, policy, count)
    ensures var gone := RootNumbers(before) - RootNumbers(d); |gone| == count && gone <= BelowFloor(before, policy)
  {
    hide RootNumbers, V3Root, BelowFloor;
  }

  lemma GoneOrSame(before: Dir, d: Dir, policy: RetentionPolicy, count: nat, n: Number)
    requires before.pointer.Some? && d.pointer == before.pointer && OldestGone(before, d, policy, count)
    ensures n in RootNumbers(d) <==> RootAt(d, n)
    ensures n in RootNumbers(before) <==> RootAt(before, n)
    ensures RootAt(d, n) ==> TreeAt(d, n) == TreeAt(before, n) && RootAt(before, n)
    ensures n in BelowFloor(d, policy) <==> n in BelowFloor(before, policy) && n in RootNumbers(d)
    ensures n in BelowFloor(before, policy) ==> n in RootNumbers(before)
  {
    hide SchemaIn;
  }

  lemma RootMembers(d: Dir)
    ensures forall n: Number :: n in RootNumbers(d) <==> RootAt(d, n)
  {}

  lemma NothingBelow(d: Dir, policy: RetentionPolicy)
    requires HistorySafe(d)
    ensures d.pointer.Some?
    ensures d.pointer.value.number <= policy.minRollback ==> BelowFloor(d, policy) == {}
    ensures (forall n: Number :: V3Root(d, n) ==> n >= d.pointer.value.number - policy.minRollback) ==>
      BelowFloor(d, policy) == {}
  {
    hide HistorySafe, V3Root;
    SafeFacts(d);
  }

  lemma OneMoreGone(before: Dir, round: Dir, d: Dir, n: Number, policy: RetentionPolicy, count: nat)
    requires before.pointer.Some? && round.pointer == before.pointer && d.pointer == before.pointer
    requires OldestGone(before, round, policy, count) && Inventoriable(round)
    requires OldestV3(round, n) && n < d.pointer.value.number - policy.minRollback && TreeAt(d, n) == map[]
    requires forall m: Number :: m != n ==> TreeAt(d, m) == TreeAt(round, m)
    ensures OldestGone(before, d, policy, count + 1)
  {
    hide RootNumbers, BelowFloor, V3Root, InventoryReadable;
    var gone := RootNumbers(before) - RootNumbers(round);
    RootMembers(round);
    RootMembers(d);
    forall m: Number ensures RootAt(d, m) <==> m != n && RootAt(round, m) {}
    assert RootNumbers(d) == RootNumbers(round) - {n};
    GoneOrSame(before, round, policy, count, n);
    OldestIsBelow(round, n, policy);
    assert n !in gone && n in RootNumbers(before) && n in RootNumbers(round);
    assert RootNumbers(before) - RootNumbers(d) == gone + {n};
    GoneMore(before, round, d, policy, gone, n);
  }

  lemma GoneMore(before: Dir, round: Dir, d: Dir, policy: RetentionPolicy, gone: set<Number>, n: Number)
    requires before.pointer.Some? && GoneExactly(before, round, policy, gone)
    requires OldestV3(round, n) && n in BelowFloor(before, policy) && TreeAt(d, n) == map[]
    requires forall m: Number :: m != n ==> TreeAt(d, m) == TreeAt(round, m)
    ensures GoneExactly(before, d, policy, gone + {n})
  {
    hide SchemaIn, BelowFloor;
    forall b: Number | V3Root(d, b) ensures V3Root(round, b) && n < b {}
    forall m: Number | m in gone ensures TreeAt(d, m) == map[] { assert TreeAt(round, m) == map[]; }
    forall m: Number | m !in gone && m != n ensures TreeAt(d, m) == TreeAt(before, m) {
      assert TreeAt(round, m) == TreeAt(before, m);
    }
  }

  /** However a purge round ends, without the journalled target every root is still readable. */
  lemma StaysInventoriable(before: Dir, d: Dir, journal: Option<PurgePlan>, n: Number)
    requires Inventoriable(before) && forall m: Number :: m != n ==> TreeAt(d, m) == TreeAt(before, m)
    requires journal.Some? ==> Target(journal.value) == n
    requires journal.None? ==> TreeAt(d, n) == TreeAt(before, n) || TreeAt(d, n) == map[]
    ensures Inventoriable(Recovered(d, journal))
  {
    hide InventoryReadable;
    var e := Recovered(d, journal);
    var none: Tree := map[];
    OtherTrees(d, n, none);
    forall m: Number | RootAt(e, m) ensures InventoryReadable(TreeAt(e, m), m) {
      assert TreeAt(e, m) == TreeAt(before, m) && RootAt(before, m);
    }
  }

  lemma OldestIsBelow(d: Dir, n: Number, policy: RetentionPolicy)
    requires d.pointer.Some? && OldestV3(d, n) && n < d.pointer.value.number - policy.minRollback
    ensures n in BelowFloor(d, policy) && n in RootNumbers(d)
  {
    hide SchemaIn;
  }

  lemma EligibleOutcome(d: Dir, policy: RetentionPolicy)
    ensures Eligible(d) ==> Inventoriable(d)
  {
    hide Eligible;
    if Eligible(d) { EligibleReadable(d); }
  }

  /** On an all-v3 history with a reserve smaller than the bound, the floor never stands in the way. */
  lemma EligibleBelow(d: Dir, policy: RetentionPolicy)
    requires Eligible(d) && policy.minRollback < policy.maxGenerations
    ensures d.pointer.Some? && Demanded(|RootNumbers(d)|, policy) <= |BelowFloor(d, policy)|
  {
    hide Eligible, RootNumbers, SchemaIn;
    EligibleCurrent(d);
    EligibleInterval(d);
    var count, current := |RootNumbers(d)|, d.pointer.value.number;
    if count > policy.maxGenerations {
      var lo: Number, hi: Number := current - count + 1, current - policy.minRollback - 1;
      forall n: int ensures n in BelowFloor(d, policy) <==> lo <= n <= hi {
        if lo <= n <= hi { BetweenIsBelow(d, policy, n); }
        if n in BelowFloor(d, policy) { assert RootAt(d, n); }
      }
      SameSize(BelowFloor(d, policy), lo, hi);
    }
  }

  lemma BetweenIsBelow(d: Dir, policy: RetentionPolicy, n: Number)
    requires Eligible(d) && RootAt(d, n) && n < d.pointer.value.number - policy.minRollback
    ensures n in BelowFloor(d, policy)
  {
    hide Maps, SchemaIn, TreesShaped, MarkReadable, HistorySafe;
  }

  lemma EligibleTrimmed(before: Dir, d: Dir, policy: RetentionPolicy, count: nat)
    requires before.pointer.Some? && d.pointer == before.pointer && HistorySafe(d)
    requires OldestGone(before, d, policy, count)
    ensures Eligible(before) ==> Eligible(d)
    ensures Eligible(before) && policy.minRollback < policy.maxGenerations ==>
      Demanded(|RootNumbers(before)|, policy) <= |BelowFloor(before, policy)|
  {
    hide HistorySafe, Maps, SchemaIn, MarkReadable, RootNumbers, BelowFloor;
    if Eligible(before) {
      if policy.minRollback < policy.maxGenerations { EligibleBelow(before, policy); }
      forall m: Number | RootAt(d, m)
        ensures V3Root(d, m) && m <= d.pointer.value.number && Maps(TreeAt(d, m), m, Committed)
        ensures MarkReadable(TreeAt(d, m))
      {
        assert TreeAt(d, m) == TreeAt(before, m) && RootAt(before, m);
      }
    }
  }

  lemma RootListed(entries: seq<Entry>, t: Tree)
    requires Returned(entries, t) && WellNamed(t)
    ensures RootDn in t <==> exists j :: 0 <= j < |entries| && entries[j].dn == RootDn
  {
    if RootDn in t {
      assert t[RootDn] in entries;
      var k :| 0 <= k < |entries| && entries[k] == t[RootDn];
      assert entries[k].dn == RootDn;
    }
    if k :| 0 <= k < |entries| && entries[k].dn == RootDn { assert entries[k] in entries; }
  }

  lemma EmptyReading(entries: seq<Entry>, t: Tree)
    requires Returned(entries, t)
    ensures entries == [] <==> t == map[]
  {
    if entries != [] { assert entries[0] in entries; }
    if t != map[] {
      var dn :| dn in t;
      assert t[dn] in entries;
    }
  }

  // ---------------------------------------------------------------------------------------------
  // A reserve raised between two runs
  // ---------------------------------------------------------------------------------------------

  /** The root of an activated generation, as a v3 write, a commit and a mark leave it. */
  function MarkedRoot(m: Metadata): Entry
  {
    var e := RootEntry(m.generation, Some(m));
    e.(values := e.values[DatasetState := Text(StateName(Committed))][WasActive := Text("TRUE")])
  }

  lemma MarkedRootFacts(m: Metadata, current: Number)
    requires 0 < m.source < m.generation
    ensures var t: Tree := map[RootDn := MarkedRoot(m)];
      && WellNamed(t) && Rooted(t) && SchemaIn(t) == V3 && StateIn(t) == Some(Committed) && MarkedIn(t)
      && DigestIn(t) == Some(m.commitment) && SnapshotMatches(t, PurgePlan(current, m))
  {
    hide Decimal, ParseNumber, ValidOperation;
    ParseNumberOf(m.source);
    assert SCHEMA_V3 != SCHEMA_V1 && SCHEMA_V3 != SCHEMA_V2 by {
      assert SCHEMA_V3[|SCHEMA_V3| - 1] != SCHEMA_V1[|SCHEMA_V1| - 1];
      assert SCHEMA_V3[|SCHEMA_V3| - 1] != SCHEMA_V2[|SCHEMA_V2| - 1];
    }
    var e := MarkedRoot(m);
    assert Projected(e) == e;
    RootOfPlan(e, PurgePlan(current, m));
  }

  lemma RootOfPlan(e: Entry, p: PurgePlan)
    requires e == MarkedRoot(p.metadata) && 0 < p.metadata.source < p.metadata.generation && Projected(e) == e
    requires ParseNumber(Decimal(p.metadata.source)) == Some(p.metadata.source)
    ensures RootMatchesPlan(e, p)
  {
    hide Decimal, ParseNumber, ValidOperation, Projected;
  }

  /** A journal for generation 2 under current 3, planned with no reserve and found with a reserve of one: the purge
      finishes although its target now belongs to the reserve. */
  lemma RaisedReserveIsLost() returns (d: Dir, plan: PurgePlan, planned: RetentionPolicy, raised: RetentionPolicy)
    ensures HistorySafe(d) && JournalSafe(d, Some(plan)) && PurgeReady(d, plan) && RootAt(d, Target(plan))
    ensures planned.enabled && raised == planned.(minRollback := planned.minRollback + 1)
    ensures planned.minRollback < raised.minRollback < raised.maxGenerations
    ensures ReserveSpared(d, Some(plan), planned) && !ReserveSpared(d, Some(plan), raised)
  {
    hide SchemaIn, StateIn, MarkedIn, DigestIn, SnapshotMatches, MarkedRoot, WellNamed, Rooted, HistorySafe;
    var operation: Operation := "baaaaaaaaaaaaaaaaaaaaaaaaa";
    var old2, new3 := Metadata(operation, 1, 2, [2]), Metadata(operation, 2, 3, [3]);
    MarkedRootFacts(old2, 3);
    MarkedRootFacts(new3, 4);
    plan := PurgePlan(3, old2);
    d := Dir(Some(Pointer(true, 3, Committed, [3])),
             map[2 := map[RootDn := MarkedRoot(old2)], 3 := map[RootDn := MarkedRoot(new3)]]);
    planned := RetentionPolicy(true, 2, 0, 1);
    raised := planned.(minRollback := 1);
    TwoRootsSafe(d, map[RootDn := MarkedRoot(old2)], map[RootDn := MarkedRoot(new3)]);
  }

  /** Two consecutive marked v3 roots under a pointer to the second are a safe history. */
  lemma TwoRootsSafe(d: Dir, a: Tree, b: Tree)
    requires d == Dir(Some(Pointer(true, 3, Committed, [3])), map[2 := a, 3 := b])
    requires forall t :: t == a || t == b ==>
      WellNamed(t) && Rooted(t) && RootDn in t && SchemaIn(t) == V3 && StateIn(t) == Some(Committed) && MarkedIn(t)
    requires DigestIn(b) == Some([3])
    ensures HistorySafe(d) && OldestV3(d, 2)
  {
    hide SchemaIn, StateIn, MarkedIn, DigestIn, WellNamed, Rooted;
    EmptyShape();
    assert TreeAt(d, 2) == a && TreeAt(d, 3) == b;
    assert forall n: Number :: n != 2 && n != 3 ==> TreeAt(d, n) == map[];
    assert V3Root(d, 2) && V3Root(d, 3) && RootOk(d, 3, 2) && RootOk(d, 3, 3);
    assert forall n: Number :: RootAt(d, n) <==> n == 2 || n == 3;
  }
}

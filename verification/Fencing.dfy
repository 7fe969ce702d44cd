/** What a client saw before it acted: every load, plan and delete of a run is fenced by readings of the pointer. */
module Fencing {
  import opened Wrappers
  import opened Records
  import opened Candidate
  import opened Mapper
  import opened Directory
  import opened Publication

  /** A client that starts idle has come to its present program point by a step of its own, and stayed there since. */
  lemma {:induction false} LastChange(r: seq<System>, id: nat, j: nat) returns (i: nat)
    requires Run(r) && j < |r| && ClientAt(r[0], id) != ClientAt(r[j], id)
    ensures i < j && Acts(r[i], id, r[i + 1]) && ClientAt(r[i], id) != ClientAt(r[j], id)
    ensures forall k :: i < k <= j ==> ClientAt(r[k], id) == ClientAt(r[j], id)
  {
    hide Steps;
    if ClientAt(r[j - 1], id) == ClientAt(r[j], id) {
      i := LastChange(r, id, j - 1);
    } else {
      i := j - 1;
      assert Next(r[j - 1], r[j - 1 + 1]);
      var actor :| Acts(r[j - 1], actor, r[j]);
      OthersStay(r[j - 1], actor, r[j], id);
    }
  }

  lemma OthersStay(y: System, actor: nat, y': System, id: nat)
    requires Acts(y, actor, y')
    ensures id != actor ==> ClientAt(y', id) == ClientAt(y, id)
  {
    hide Steps;
  }

  /** As long as the current number stays, so does the pointer. */
  lemma StepKeepsPointer(s: Shared, id: nat, c: Client, s': Shared, c': Client)
    requires SharedSafe(s) && Knows(s, id, c) && Steps(s, id, c, s', c')
    ensures CurrentNumber(s'.dir) == CurrentNumber(s.dir) > 0 ==> s'.dir.pointer == s.dir.pointer
  {
    hide SharedSafe, Knows, Observes, Verifies, Loads, Rechecks, Plans, Complete, Maps, RootIs, RootSealedBy, Leaf,
      AddTo, RemoveFrom, CommitRoot, MarkRoot, Addable;
    if Switches(s, c, s', c') {
      SwitchesSafe(s, id, c, s', c');
    } else {
      PointerStays(s, id, c, s', c');
    }
  }

  lemma PointerStays(s: Shared, id: nat, c: Client, s': Shared, c': Client)
    requires Steps(s, id, c, s', c') && !Switches(s, c, s', c')
    ensures s'.dir.pointer == s.dir.pointer || s.dir.pointer == None
  {
    hide Reserves, Observes, AddsEntry, Verifies, Loads, Marks, Seals, Rechecks, Switches, Plans, Purges;
    if AddsEntry(s, id, c, s', c') { AddingStays(s, id, c, s', c'); }
    else if Marks(s, c, s', c') || Seals(s, c, s', c') { RootChangeStays(s, c, s', c'); }
    else if Purges(s, c, s', c') { PurgingStays(s, c, s', c'); }
    else { OthersStayPut(s, c, s', c'); }
  }

  lemma AddingStays(s: Shared, id: nat, c: Client, s': Shared, c': Client)
    requires AddsEntry(s, id, c, s', c')
    ensures s'.dir.pointer == s.dir.pointer
  {
    hide Adds, Addable, AddTo;
  }

  lemma RootChangeStays(s: Shared, c: Client, s': Shared, c': Client)
    requires Marks(s, c, s', c') || Seals(s, c, s', c')
    ensures s'.dir.pointer == s.dir.pointer
  {
    hide RootIs, RootSealedBy, CommitRoot, MarkRoot, MarkedIn;
  }

  lemma PurgingStays(s: Shared, c: Client, s': Shared, c': Client)
    requires Purges(s, c, s', c')
    ensures s'.dir.pointer == s.dir.pointer
  {
    hide Leaf, RemoveFrom;
  }

  lemma OthersStayPut(s: Shared, c: Client, s': Shared, c': Client)
    requires
      || GivesUp(s, c, s', c') || Reserves(s, c, s', c') || Observes(s, c, s', c') || Verifies(s, c, s', c')
      || Loads(s, c, s', c') || Rechecks(s, c, s', c') || Plans(s, c, s', c')
    ensures s'.dir.pointer == s.dir.pointer || s.dir.pointer == None
  {
    hide Ready, Maps, Purgeable, RootSealedBy;
  }

  lemma {:induction false} PointerBetween(r: seq<System>, i: nat, k: nat, j: nat)
    requires Run(r) && SystemSafe(r[0]) && i <= k <= j < |r|
    requires CurrentNumber(r[i].shared.dir) == CurrentNumber(r[j].shared.dir) > 0
    ensures r[k].shared.dir.pointer == r[i].shared.dir.pointer
    decreases k - i
  {
    hide SystemSafe, Next;
    if i < k {
      RunNeverGoesBack(r, i, k - 1);
      RunNeverGoesBack(r, k - 1, k);
      RunNeverGoesBack(r, k, j);
      PointerBetween(r, i, k - 1, j);
      RunIsSafe(r, k - 1);
      NextKeepsPointer(r[k - 1], r[k]);
    }
  }

  lemma NextKeepsPointer(y: System, y': System)
    requires SystemSafe(y) && Next(y, y')
    ensures CurrentNumber(y'.shared.dir) == CurrentNumber(y.shared.dir) > 0 ==>
      y'.shared.dir.pointer == y.shared.dir.pointer
  {
    hide SharedSafe, Knows, Steps;
    var id :| Acts(y, id, y');
    StepKeepsPointer(y.shared, id, ClientAt(y, id), y'.shared, ClientAt(y', id));
  }

  /** A client that resumes a candidate read it while the pointer stayed at the fence throughout, from the first reading
      of the pointer to the last: the candidate lay directly above the current generation all the time. */
  lemma LoadIsFenced(r: seq<System>, id: nat, j: nat) returns (i: nat, m: nat)
    requires Run(r) && SystemSafe(r[0]) && j + 1 < |r| && ClientAt(r[0], id) == Idle
    requires ClientAt(r[j], id).Loaded? && Acts(r[j], id, r[j + 1]) && ClientAt(r[j + 1], id) != Idle
    ensures var c := ClientAt(r[j], id);
      && i < m < j && c.number == c.fence.number + 1 && c.fence.state == Committed
      && (forall k :: i <= k <= j ==> r[k].shared.dir.pointer == Some(c.fence))
      && Maps(TreeAt(r[m].shared.dir, c.number), c.number, c.state)
      && (c.metadata.Some? ==> RootSealedBy(TreeAt(r[m].shared.dir, c.number), c.metadata.value, c.state))
  {
    hide SystemSafe, Next, Maps, RootSealedBy;
    var c := ClientAt(r[j], id);
    ResumesUnderFence(r[j].shared, id, c, r[j + 1].shared, ClientAt(r[j + 1], id));
    m := LastChange(r, id, j);
    assert ClientAt(r[m + 1], id) == c;
    LoadedFromFenced(r[m].shared, id, ClientAt(r[m], id), r[m + 1].shared, c);
    i := LastChange(r, id, m);
    FencedFromIdle(r[i].shared, id, ClientAt(r[i], id), r[i + 1].shared, ClientAt(r[i + 1], id));
    RunIsSafe(r, i);
    CommittedNumber(r[i], c.fence);
    forall k | i <= k <= j ensures r[k].shared.dir.pointer == Some(c.fence) { PointerBetween(r, i, k, j); }
  }

  lemma CommittedNumber(y: System, p: Pointer)
    requires SystemSafe(y) && CommittedPointer(y.shared.dir, p)
    ensures CurrentNumber(y.shared.dir) == p.number > 0
  {
    hide Complete, CommittedRoot, Knows, RootCarries;
  }

  lemma ResumesUnderFence(s: Shared, id: nat, c: Client, s': Shared, c': Client)
    requires Steps(s, id, c, s', c') && c.Loaded? && c' != Idle
    ensures s.dir.pointer == Some(c.fence)
  {
    hide Complete, Maps, RootIs, RootSealedBy, Leaf, AddTo, RemoveFrom, CommitRoot, MarkRoot, Addable, Adds, Ready;
  }

  lemma LoadedFromFenced(s: Shared, id: nat, c: Client, s': Shared, c': Client)
    requires Steps(s, id, c, s', c') && c'.Loaded? && c != c'
    ensures c == Fenced(c'.number, c'.fence, c'.metadata) && Maps(TreeAt(s.dir, c'.number), c'.number, c'.state)
    ensures c'.metadata.Some? ==> RootSealedBy(TreeAt(s.dir, c'.number), c'.metadata.value, c'.state)
  {
    hide Complete, Maps, RootIs, RootSealedBy, Leaf, AddTo, RemoveFrom, CommitRoot, MarkRoot, Addable, Adds, Ready;
  }

  lemma FencedFromIdle(s: Shared, id: nat, c: Client, s': Shared, c': Client)
    requires Steps(s, id, c, s', c') && c'.Fenced? && c != c'
    ensures CommittedPointer(s.dir, c'.fence) && c'.number == c'.fence.number + 1
  {
    hide Complete, Maps, RootIs, RootSealedBy, Leaf, AddTo, RemoveFrom, CommitRoot, MarkRoot, Addable, Adds, Ready;
  }

  /** A plan is journalled only for a generation found complete, committed and marked while the pointer stayed where the
      plan says it was. */
  lemma PlanIsFenced(r: seq<System>, id: nat, j: nat) returns (i: nat, m: nat)
    requires Run(r) && SystemSafe(r[0]) && j + 1 < |r| && ClientAt(r[0], id) == Idle
    requires ClientAt(r[j], id).Confirming? && Acts(r[j], id, r[j + 1]) && ClientAt(r[j + 1], id) != Idle
    ensures var c := ClientAt(r[j], id);
      && i < m < j && ClientAt(r[j + 1], id) == Planned(Plan(c.fence.number, c.target))
      && (forall k :: i <= k <= j ==> r[k].shared.dir.pointer == Some(c.fence))
      && c.target < c.fence.number && Purgeable(TreeAt(r[m].shared.dir, c.target), c.target)
  {
    hide SystemSafe, Next, Purgeable;
    var c := ClientAt(r[j], id);
    PlannedUnderFence(r[j].shared, id, c, r[j + 1].shared, ClientAt(r[j + 1], id));
    m := LastChange(r, id, j);
    assert ClientAt(r[m + 1], id) == c;
    ConfirmingFromInspecting(r[m].shared, id, ClientAt(r[m], id), r[m + 1].shared, c);
    i := LastChange(r, id, m);
    InspectingFromIdle(r[i].shared, id, ClientAt(r[i], id), r[i + 1].shared, ClientAt(r[i + 1], id));
    RunIsSafe(r, i);
    CommittedNumber(r[i], c.fence);
    forall k | i <= k <= j ensures r[k].shared.dir.pointer == Some(c.fence) { PointerBetween(r, i, k, j); }
  }

  lemma PlannedUnderFence(s: Shared, id: nat, c: Client, s': Shared, c': Client)
    requires Steps(s, id, c, s', c') && c.Confirming? && c' != Idle
    ensures s.dir.pointer == Some(c.fence) && c' == Planned(Plan(c.fence.number, c.target))
  {
    hide Complete, Maps, RootIs, RootSealedBy, Leaf, AddTo, RemoveFrom, CommitRoot, MarkRoot, Addable, Adds, Ready;
  }

  lemma ConfirmingFromInspecting(s: Shared, id: nat, c: Client, s': Shared, c': Client)
    requires Steps(s, id, c, s', c') && c'.Confirming? && c != c'
    ensures c == Inspecting(c'.fence) && c'.target < c'.fence.number && Purgeable(TreeAt(s.dir, c'.target), c'.target)
  {
    hide Complete, Maps, RootIs, RootSealedBy, Leaf, AddTo, RemoveFrom, CommitRoot, MarkRoot, Addable, Adds, Ready,
      Purgeable;
  }

  lemma InspectingFromIdle(s: Shared, id: nat, c: Client, s': Shared, c': Client)
    requires Steps(s, id, c, s', c') && c'.Inspecting? && c != c'
    ensures CommittedPointer(s.dir, c'.fence)
  {
    hide Complete, Maps, RootIs, RootSealedBy, Leaf, AddTo, RemoveFrom, CommitRoot, MarkRoot, Addable, Adds, Ready;
  }

  /** A commit takes effect only on a staging root, of a campaign only on the one that carries the operation, source and
      digest that the client has loaded; a mark only on the committed root that the pointer named, and only once; a
      campaign switch only from exactly the pointer that the client has read. */
  lemma WritesAreAsserted(s: Shared, id: nat, c: Client, s': Shared, c': Client)
    requires Steps(s, id, c, s', c') && s'.dir != s.dir
    ensures c.Sealing? ==>
      if c.move.Campaign?
        then c.move.metadata.generation == c.number && RootSealedBy(TreeAt(s.dir, c.number), c.move.metadata, Staging)
        else RootIs(TreeAt(s.dir, c.number), c.number, SCHEMA_V2, Staging)
    ensures c.Marking? ==>
      && c.move.Campaign? && RootIs(TreeAt(s.dir, c.move.fence.number), c.move.fence.number, SCHEMA_V3, Committed)
      && RootCarries(TreeAt(s.dir, c.move.fence.number), c.move.fence.number, c.move.fence.digest)
      && WasActive !in TreeAt(s.dir, c.move.fence.number)[RootDn].values
    ensures c.Switching? && c.move.Campaign? ==> s.dir.pointer == Some(c.move.fence)
  {
    hide Reserves, Observes, AddsEntry, Verifies, Loads, Rechecks, Plans, Purges, CommitRoot, MarkRoot;
    if !Marks(s, c, s', c') && !Seals(s, c, s', c') && !Switches(s, c, s', c') { NotAWrite(s, id, c, s', c'); }
  }

  lemma NotAWrite(s: Shared, id: nat, c: Client, s': Shared, c': Client)
    requires Steps(s, id, c, s', c') && !Marks(s, c, s', c') && !Seals(s, c, s', c') && !Switches(s, c, s', c')
    requires s'.dir != s.dir
    ensures !c.Sealing? && !c.Marking? && !c.Switching?
  {
    hide Marks, Seals, Switches, Ready, Maps, Purgeable, RootSealedBy, Adds, Addable, AddTo, Leaf, RemoveFrom;
  }

  /** The pointer is reserved only after it was found absent, the container empty, and the pointer absent again. */
  lemma ReservationIsFenced(r: seq<System>, id: nat, j: nat) returns (i: nat, m: nat)
    requires Run(r) && j + 1 < |r| && ClientAt(r[0], id) == Idle && ClientAt(r[j], id).ContainerEmpty?
    requires Acts(r[j], id, r[j + 1]) && r[j + 1].shared.dir != r[j].shared.dir
    ensures i < m < j && r[i].shared.dir.pointer == None && r[j].shared.dir.pointer == None
    ensures forall n :: TreeAt(r[m].shared.dir, n) == map[]
    ensures r[j + 1].shared.dir == r[j].shared.dir.(pointer := Some(RESERVED))
  {
    hide Next;
    var c := ClientAt(r[j], id);
    ReservesUnderFence(r[j].shared, id, c, r[j + 1].shared, ClientAt(r[j + 1], id));
    m := LastChange(r, id, j);
    assert ClientAt(r[m + 1], id) == c;
    EmptyFromAbsent(r[m].shared, id, ClientAt(r[m], id), r[m + 1].shared, c);
    i := LastChange(r, id, m);
    AbsentFromIdle(r[i].shared, id, ClientAt(r[i], id), r[i + 1].shared, ClientAt(r[i + 1], id));
  }

  lemma ReservesUnderFence(s: Shared, id: nat, c: Client, s': Shared, c': Client)
    requires Steps(s, id, c, s', c') && c.ContainerEmpty? && s'.dir != s.dir
    ensures s.dir.pointer == None && s'.dir == s.dir.(pointer := Some(RESERVED))
  {
    hide Complete, Maps, RootIs, RootSealedBy, Leaf, AddTo, RemoveFrom, CommitRoot, MarkRoot, Addable, Adds, Ready;
  }

  lemma EmptyFromAbsent(s: Shared, id: nat, c: Client, s': Shared, c': Client)
    requires Steps(s, id, c, s', c') && c'.ContainerEmpty? && c != c'
    ensures c.PointerAbsent? && forall n :: TreeAt(s.dir, n) == map[]
  {
    hide Complete, Maps, RootIs, RootSealedBy, Leaf, AddTo, RemoveFrom, CommitRoot, MarkRoot, Addable, Adds, Ready;
  }

  lemma AbsentFromIdle(s: Shared, id: nat, c: Client, s': Shared, c': Client)
    requires Steps(s, id, c, s', c') && c'.PointerAbsent? && c != c'
    ensures s.dir.pointer == None
  {
    hide Complete, Maps, RootIs, RootSealedBy, Leaf, AddTo, RemoveFrom, CommitRoot, MarkRoot, Addable, Adds, Ready;
  }

  /** A freshly written candidate is committed only after its subtree was read back and mapped. */
  lemma CommitIsFenced(r: seq<System>, id: nat, j: nat) returns (m: nat)
    requires Run(r) && j < |r| && ClientAt(r[0], id) == Idle && ClientAt(r[j], id).Sealing?
    requires !ClientAt(r[j], id).move.Campaign? && !ClientAt(r[j], id).recheck
    ensures m < j && ClientAt(r[m], id).Verifying?
    ensures Maps(TreeAt(r[m].shared.dir, ClientAt(r[j], id).number), ClientAt(r[j], id).number, Staging)
  {
    hide Next, Maps;
    var c := ClientAt(r[j], id);
    m := LastChange(r, id, j);
    assert ClientAt(r[m + 1], id) == c;
    SealingFromVerifying(r[m].shared, id, ClientAt(r[m], id), r[m + 1].shared, c);
  }

  lemma SealingFromVerifying(s: Shared, id: nat, c: Client, s': Shared, c': Client)
    requires Steps(s, id, c, s', c') && c'.Sealing? && c != c' && !c'.move.Campaign? && !c'.recheck
    ensures c.Verifying? && Maps(TreeAt(s.dir, c'.number), c'.number, Staging)
  {
    hide Complete, Maps, RootIs, RootSealedBy, Leaf, AddTo, RemoveFrom, CommitRoot, MarkRoot, Addable, Adds, Ready;
  }

  /** An ordinary switch after a load is sent only after the committed candidate and then the pointer directly below it
      have been read once more. */
  lemma RecheckIsFenced(r: seq<System>, id: nat, j: nat) returns (m: nat)
    requires Run(r) && j + 1 < |r| && ClientAt(r[0], id) == Idle && ClientAt(r[j], id).Refencing?
    requires Acts(r[j], id, r[j + 1]) && ClientAt(r[j + 1], id) != Idle
    ensures var c, d := ClientAt(r[j], id), r[j].shared.dir;
      && m < j && Maps(TreeAt(r[m].shared.dir, c.number), c.number, Committed)
      && ClientAt(r[j + 1], id) == Switching(c.number, Plain)
      && d.pointer.Some? && d.pointer.value.state == Committed && d.pointer.value.number + 1 == c.number
  {
    hide Next, Maps;
    var c := ClientAt(r[j], id);
    SwitchesUnderFence(r[j].shared, id, c, r[j + 1].shared, ClientAt(r[j + 1], id));
    m := LastChange(r, id, j);
    assert ClientAt(r[m + 1], id) == c;
    RefencingFromReading(r[m].shared, id, ClientAt(r[m], id), r[m + 1].shared, c);
  }

  lemma SwitchesUnderFence(s: Shared, id: nat, c: Client, s': Shared, c': Client)
    requires Steps(s, id, c, s', c') && c.Refencing? && c' != Idle
    ensures c' == Switching(c.number, Plain) && s.dir.pointer.Some? && s.dir.pointer.value.state == Committed
    ensures s.dir.pointer.value.number + 1 == c.number
  {
    hide Complete, Maps, RootIs, RootSealedBy, Leaf, AddTo, RemoveFrom, CommitRoot, MarkRoot, Addable, Adds, Ready;
  }

  lemma RefencingFromReading(s: Shared, id: nat, c: Client, s': Shared, c': Client)
    requires Steps(s, id, c, s', c') && c'.Refencing? && c != c'
    ensures Maps(TreeAt(s.dir, c'.number), c'.number, Committed)
  {
    hide Complete, Maps, RootIs, RootSealedBy, Leaf, AddTo, RemoveFrom, CommitRoot, MarkRoot, Addable, Adds, Ready;
  }

  /** Before every single delete the client has read the pointer once more and found it where the plan saw it. */
  lemma DeleteIsFenced(r: seq<System>, id: nat, j: nat) returns (i: nat)
    requires Run(r) && SystemSafe(r[0]) && j < |r| && ClientAt(r[0], id) == Idle
    requires ClientAt(r[j], id).Deleting? && ClientAt(r[j], id).checked
    ensures var c := ClientAt(r[j], id);
      && i < j && (forall k :: i < k <= j ==> ClientAt(r[k], id) == c)
      && r[i].shared.dir.pointer == Some(c.fence) && c.fence.state == Committed && c.fence.number == c.plan.current
  {
    hide SystemSafe, Next;
    var c := ClientAt(r[j], id);
    i := LastChange(r, id, j);
    assert ClientAt(r[i + 1], id) == c;
    CheckedUnderFence(r[i].shared, id, ClientAt(r[i], id), r[i + 1].shared, c);
    RunIsSafe(r, j);
    DeletingKnows(r[j], id);
  }

  lemma DeletingKnows(y: System, id: nat)
    requires SystemSafe(y) && ClientAt(y, id).Deleting?
    ensures var c := ClientAt(y, id); c.fence.state == Committed && c.fence.number == c.plan.current
  {
    hide SharedSafe;
    assert Knows(y.shared, id, ClientAt(y, id));
  }

  lemma CheckedUnderFence(s: Shared, id: nat, c: Client, s': Shared, c': Client)
    requires Steps(s, id, c, s', c') && c'.Deleting? && c'.checked && c != c'
    ensures s.dir.pointer == Some(c'.fence)
  {
    hide Complete, Maps, RootIs, RootSealedBy, Leaf, AddTo, RemoveFrom, CommitRoot, MarkRoot, Addable, Adds, Ready;
  }
}

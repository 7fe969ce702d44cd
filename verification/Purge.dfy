/** Deleting one old generation: the plan, the check of what is left of it, and the leaf-first order. */
module Purge {
  import opened Wrappers
  import opened Order
  import opened Records
  import opened Generations
  import opened Candidate
  import opened Mapper
  import opened Directory
  import opened RetainedRoots
  import opened History

  /** One verified old generation, bound to the current number it was planned under. */
  datatype PurgePlan = PurgePlan(current: Number, metadata: Metadata)

  function Target(p: PurgePlan): Number { p.metadata.generation }

  predicate ValidPlan(p: PurgePlan) { 0 < Target(p) < p.current }

  /** The attributes a deletion reads; keys and record contents are not fetched. */
  const PURGE_ATTRIBUTES: set<Attribute> :=
    {Cn, Ou, SchemaVersion, GenerationNumber, DatasetState, CandidateDigest, OperationId, SourceGeneration, WasActive}

  function Projected(e: Entry): Entry { e.(values := map a | a in e.values && a in PURGE_ATTRIBUTES :: e.values[a]) }

  predicate RootMatchesPlan(e: Entry, p: PurgePlan)
  {
    && e.dn == RootDn && e.class_ == MetadataDataset
    && Exact(Projected(e), {Cn, SchemaVersion, GenerationNumber, DatasetState, CandidateDigest, OperationId,
         SourceGeneration, WasActive}, {})
    && e.values[SchemaVersion] == Text(SCHEMA_V3) && e.values[DatasetState] == Text(StateName(Committed))
    && e.values[WasActive] == Text("TRUE")
    && e.values[Cn] == Text(RootName(Target(p))) && e.values[GenerationNumber] == Text(Decimal(Target(p)))
    && MetadataReadable(e, Target(p)) && ReadMetadata(e, Target(p)) == p.metadata
  }

  predicate UnitOf(c: Class, u: Unit)
  {
    match c
    case HandleClass => u == HandlesUnit
    case ProfileClass => u == ProfilesUnit
    case CredentialClass => u == CredentialsUnit
    case PolicyClass => u == PoliciesUnit
    case MaterialClass => u == MaterialsUnit
    case _ => false
  }

  /** One remaining entry of generation `n`. */
  predicate EntryDeletable(e: Entry, n: Number)
  {
    match e.dn
    case RootDn => e.class_ == Dataset || e.class_ == MetadataDataset
    case UnitDn(_) => e.class_ == OrganizationalUnit && ReadUnit(Projected(e)).Some?
    case RecordDn(u, _) =>
      && UnitOf(e.class_, u) && Exact(Projected(e), {Cn, GenerationNumber}, {}) && RecordAt(e, u, SCHEMA_V3)
      && OfGeneration(e, n)
    case ForeignDn(_) => false
  }

  /** What is left of the target is still exactly a part of the planned generation, its root included. */
  ghost predicate SnapshotMatches(t: Tree, p: PurgePlan)
  {
    && RootDn in t && RootMatchesPlan(t[RootDn], p)
    && forall dn :: dn in t ==> t[dn].dn == dn && EntryDeletable(t[dn], Target(p))
  }

  /** The pointer is where the plan saw it, and the target is gone or a remainder of the planned generation. */
  ghost predicate PurgeReady(d: Dir, p: PurgePlan)
  {
    && ValidPlan(p) && d.pointer.Some? && d.pointer.value.state == Committed && d.pointer.value.number == p.current
    && (TreeAt(d, Target(p)) == map[] || SnapshotMatches(TreeAt(d, Target(p)), p))
  }

  /** A matching remainder has a committed, marked root with exactly the metadata of the plan. */
  lemma MatchIsEvidence(t: Tree, p: PurgePlan)
    requires SnapshotMatches(t, p)
    ensures RootSealedBy(t, p.metadata, Committed) && MarkedIn(t)
  {
    hide ParseNumber, ValidOperation;
    RecordedSource(t[RootDn], Target(p));
  }

  /** ... and below it only the five units and records of that generation, each of the class of its unit. */
  lemma MatchingEntries(t: Tree, p: PurgePlan, dn: Dn)
    requires SnapshotMatches(t, p) && dn in t && dn != RootDn
    ensures dn.UnitDn? || dn.RecordDn?
    ensures dn.UnitDn? ==> t[dn].class_ == OrganizationalUnit && Ou in t[dn].values
    ensures dn.UnitDn? ==> t[dn].values[Ou] == Text(UnitName(dn.unit))
    ensures dn.RecordDn? ==>
      && GenerationNumber in t[dn].values && t[dn].values[GenerationNumber] == Text(Decimal(p.metadata.generation))
      && Cn in t[dn].values && t[dn].values[Cn] == Text(dn.cn)
      && t[dn].class_ == match dn.unit
                         case HandlesUnit => HandleClass
                         case ProfilesUnit => ProfileClass
                         case CredentialsUnit => CredentialClass
                         case PoliciesUnit => PolicyClass
                         case MaterialsUnit => MaterialClass
  {
    hide RootMatchesPlan, ValidCn, Projected, Exact, OfGeneration, ReadUnit;
    var e := t[dn];
    if dn.UnitDn? { UnitText(e); }
    if dn.RecordDn? { GenerationText(e, Target(p)); }
  }

  lemma UnitText(e: Entry)
    requires e.dn.UnitDn? && ReadUnit(Projected(e)).Some?
    ensures Ou in e.values && e.values[Ou] == Text(UnitName(e.dn.unit))
  {}

  // ---------------------------------------------------------------------------------------------
  // Leaf-first order
  // ---------------------------------------------------------------------------------------------

  /** Deeper names first; names of equal depth in any order. */
  function DepthKey(e: Entry): Key
  {
    Key("", match e.dn case RootDn => 0 case UnitDn(_) => -1 case RecordDn(_, _) => -2 case ForeignDn(_) => -1, "")
  }

  /** The subtree holds exactly the entries from position `i` on. */
  ghost predicate Remaining(entries: seq<Entry>, i: nat, t: Tree)
    requires i <= |entries|
  {
    && (forall j :: i <= j < |entries| ==> entries[j].dn in t && t[entries[j].dn] == entries[j])
    && forall dn :: dn in t ==> exists j :: i <= j < |entries| && entries[j].dn == dn
  }

  lemma ReturnedRemaining(entries: seq<Entry>, sorted: seq<Entry>, t: Tree)
    requires Returned(entries, t) && WellNamed(t) && multiset(sorted) == multiset(entries)
    ensures Remaining(sorted, 0, t) && DistinctNames(sorted)
  {
    PermutedUnique(sorted, entries);
    forall dn | dn in t ensures exists j :: 0 <= j < |sorted| && sorted[j].dn == dn {
      assert t[dn] in sorted;
    }
    forall j | 0 <= j < |sorted| ensures sorted[j].dn in t && t[sorted[j].dn] == sorted[j] {
      assert sorted[j] in entries;
    }
    forall i, j | 0 <= i < j < |sorted| ensures sorted[i].dn != sorted[j].dn {
      assert sorted[i] != sorted[j];
    }
  }

  /** The next entry in the sorted order has no child left. */
  lemma NextIsLeaf(entries: seq<Entry>, i: nat, t: Tree)
    requires i < |entries| && Remaining(entries, i, t) && Ordered(entries, DepthKey)
    requires forall j :: 0 <= j < |entries| ==> !entries[j].dn.ForeignDn?
    ensures Leaf(t, entries[i].dn)
  {
    LessIrreflexive("");
    forall other | other in t ensures ParentDn(other) != Some(entries[i].dn) {
      var j :| i <= j < |entries| && entries[j].dn == other;
      if i < j { assert !KeyLess(DepthKey(entries[j]), DepthKey(entries[i])); }
    }
  }

  lemma RemoveNext(entries: seq<Entry>, i: nat, t: Tree)
    requires i < |entries| && Remaining(entries, i, t) && DistinctNames(entries)
    ensures Remaining(entries, i + 1, RemoveFrom(t, entries[i].dn))
  {
    forall dn | dn in RemoveFrom(t, entries[i].dn) ensures exists j :: i + 1 <= j < |entries| && entries[j].dn == dn {
      var j :| i <= j < |entries| && entries[j].dn == dn;
    }
  }

  lemma RootAtEnd(entries: seq<Entry>, i: nat)
    requires i < |entries| && Ordered(entries, DepthKey) && DistinctNames(entries)
    requires forall j :: 0 <= j < |entries| ==> !entries[j].dn.ForeignDn?
    ensures entries[i].dn == RootDn ==> i + 1 == |entries|
  {
    if i + 1 < |entries| { assert !KeyLess(DepthKey(entries[i + 1]), DepthKey(entries[i])); }
  }

  /** The root goes last: it is the only entry left when its turn comes. */
  lemma RootIsLast(entries: seq<Entry>, i: nat, t: Tree)
    requires i < |entries| && Remaining(entries, i, t) && Ordered(entries, DepthKey) && DistinctNames(entries)
    requires entries[i].dn == RootDn
    requires forall j :: 0 <= j < |entries| ==> !entries[j].dn.ForeignDn?
    ensures i + 1 == |entries| && RemoveFrom(t, RootDn) == map[]
  {
    LessIrreflexive("");
    RootAtEnd(entries, i);
    forall dn | dn in t ensures dn == RootDn {
      var j :| i <= j < |entries| && entries[j].dn == dn;
    }
  }

  /** Removing any other entry leaves a remainder that still matches the plan. */
  lemma RemainderMatches(t: Tree, p: PurgePlan, dn: Dn)
    requires SnapshotMatches(t, p) && dn != RootDn
    ensures SnapshotMatches(RemoveFrom(t, dn), p)
  {
    hide RootMatchesPlan, EntryDeletable;
  }

  lemma SameRoot(t: Tree, t': Tree)
    requires RootDn in t && RootDn in t' && t'[RootDn] == t[RootDn]
    ensures SameRootFacts(t, t')
  {}

  lemma NoForeign(t: Tree, p: PurgePlan, entries: seq<Entry>)
    requires SnapshotMatches(t, p) && Remaining(entries, 0, t)
    ensures forall j :: 0 <= j < |entries| ==> !entries[j].dn.ForeignDn?
  {
    hide RootMatchesPlan;
    forall j | 0 <= j < |entries| ensures !entries[j].dn.ForeignDn? {
      assert EntryDeletable(t[entries[j].dn], Target(p));
    }
  }

  // ---------------------------------------------------------------------------------------------
  // A complete marked generation can be purged
  // ---------------------------------------------------------------------------------------------

  /** Projecting a readable record leaves just its name and number. */
  lemma ProjectedExact(e: Entry, more: set<Attribute>, optional: set<Attribute>)
    requires Exact(e, {Cn, GenerationNumber} + more, optional) && more !! PURGE_ATTRIBUTES
    requires optional !! PURGE_ATTRIBUTES
    ensures Exact(Projected(e), {Cn, GenerationNumber}, {})
  {}

  lemma SameNamesRequired(e: Entry, required: set<Attribute>, more: set<Attribute>, optional: set<Attribute>)
    requires Exact(e, required, optional) && required == {Cn, GenerationNumber} + more
    ensures Exact(e, {Cn, GenerationNumber} + more, optional)
  {}

  lemma HandleDeletable(e: Entry, n: Number)
    requires ReadHandle(e, SCHEMA_V3, n).Some?
    ensures Exact(Projected(e), {Cn, GenerationNumber}, {}) && RecordAt(e, HandlesUnit, SCHEMA_V3) && OfGeneration(e, n)
  {
    hide RecordAt, OfGeneration, Projected, Exact;
    SameNamesRequired(e, {Cn, GenerationNumber, HandleId}, {HandleId}, {});
    ProjectedExact(e, {HandleId}, {});
  }

  lemma ProfileDeletable(e: Entry, n: Number)
    requires ReadProfile(e, SCHEMA_V3, n).Some?
    ensures Exact(Projected(e), {Cn, GenerationNumber}, {}) && RecordAt(e, ProfilesUnit, SCHEMA_V3)
    ensures OfGeneration(e, n)
  {
    hide RecordAt, OfGeneration, Projected, Exact, WindowReadable;
    SameNamesRequired(e, {Cn, GenerationNumber, ProfileId, SigningDomain, RecordStatus},
                      {ProfileId, SigningDomain, RecordStatus}, {NotBefore, NotAfter});
    ProjectedExact(e, {ProfileId, SigningDomain, RecordStatus}, {NotBefore, NotAfter});
  }

  lemma CredentialDeletable(e: Entry, n: Number)
    requires ReadCredential(e, SCHEMA_V3, n).Some?
    ensures Exact(Projected(e), {Cn, GenerationNumber}, {}) && RecordAt(e, CredentialsUnit, SCHEMA_V3)
    ensures OfGeneration(e, n)
  {
    hide RecordAt, OfGeneration, Projected, Exact;
    var more := {ProfileId, AlgorithmAttr, SelectorAttr, PublicKey, HandleId};
    SameNamesRequired(e, {Cn, GenerationNumber, ProfileId, AlgorithmAttr, SelectorAttr, PublicKey, HandleId}, more, {});
    ProjectedExact(e, more, {});
  }

  lemma PolicyDeletable(e: Entry, n: Number)
    requires ReadPolicy(e, SCHEMA_V3, n).Some?
    ensures Exact(Projected(e), {Cn, GenerationNumber}, {}) && RecordAt(e, PoliciesUnit, SCHEMA_V3)
    ensures OfGeneration(e, n)
  {
    hide RecordAt, OfGeneration, Projected, Exact, RouteReadable;
    var more := {TenantId, SigningDomain, ProfileUse, ProfileId, RecordStatus, RolloutAttr, CompatibilityAttr};
    SameNamesRequired(e, {Cn, GenerationNumber, TenantId, SigningDomain, ProfileUse, ProfileId, RecordStatus,
                          RolloutAttr, CompatibilityAttr}, more, {FeedbackRoute});
    ProjectedExact(e, more, {FeedbackRoute});
  }

  lemma MaterialDeletable(e: Entry, n: Number)
    requires ReadMaterial(e, SCHEMA_V3, n).Some?
    ensures Exact(Projected(e), {Cn, GenerationNumber}, {}) && RecordAt(e, MaterialsUnit, SCHEMA_V3)
    ensures OfGeneration(e, n)
  {
    hide RecordAt, OfGeneration, Projected, Exact;
    var more := {TenantId, SigningDomain, ProfileUse, HandleId, AlgorithmAttr, PublicKey, PrivateKey};
    SameNamesRequired(e, {Cn, GenerationNumber, TenantId, SigningDomain, ProfileUse, HandleId, AlgorithmAttr, PublicKey,
                          PrivateKey}, more, {});
    ProjectedExact(e, more, {});
  }

  lemma UnitDeletable(e: Entry)
    requires ReadUnit(e).Some?
    ensures ReadUnit(Projected(e)).Some? && e.dn.UnitDn?
  {}

  lemma ReadableIsDeletable(e: Entry, n: Number, state: State)
    requires ReadItem(e, SCHEMA_V3, n, state).Some?
    ensures EntryDeletable(e, n)
  {
    hide ReadHandle, ReadProfile, ReadCredential, ReadPolicy, ReadMaterial, ReadUnit, Exact, OfGeneration, Projected,
      ValidCn;
    match e.class_
    case Dataset =>
    case MetadataDataset =>
    case OrganizationalUnit => UnitDeletable(e);
    case HandleClass => HandleDeletable(e, n);
    case ProfileClass => ProfileDeletable(e, n);
    case CredentialClass => CredentialDeletable(e, n);
    case PolicyClass => PolicyDeletable(e, n);
    case MaterialClass => MaterialDeletable(e, n);
    case ForeignClass =>
  }

  lemma MarkedRootMatches(e: Entry, n: Number)
    requires RootReadable(e, SCHEMA_V3, n, Committed) && WasActive in e.values && e.values[WasActive] == Text("TRUE")
    requires e.values[GenerationNumber] == Text(Decimal(n))
    ensures MetadataReadable(e, n) && RootMatchesPlan(e, PurgePlan(0, ReadMetadata(e, n)))
    ensures forall current :: RootMatchesPlan(e, PurgePlan(current, ReadMetadata(e, n)))
  {
    hide ParseNumber, ValidOperation, Decimal;
  }

  lemma GenerationText(e: Entry, n: Number)
    requires OfGeneration(e, n)
    ensures GenerationNumber in e.values && e.values[GenerationNumber] == Text(Decimal(n))
  {}

  /** The schema a subtree maps under is the one on its root. */
  lemma MappedV3(t: Tree, n: Number, state: State) returns (s: seq<Entry>)
    requires WellNamed(t) && Maps(t, n, state) && SchemaIn(t) == V3
    ensures Returned(s, t) && AllRead(s, SCHEMA_V3, n, state)
    ensures RootDn in t && RootReadable(t[RootDn], SCHEMA_V3, n, state)
  {
    hide Consistent, PartsOf, Sealed, ReadItem, RootReadable;
    var schema;
    s, schema :| Returned(s, t) && Readable(s, schema, n, state, |s|);
    assert t[RootDn] in s;
    assert ReadItem(t[RootDn], schema, n, state).Some?;
    RootItemOnly(t[RootDn], schema, n, state);
  }

  /** A complete committed v3 generation with the activation mark matches the plan made from its root. */
  lemma CompleteIsPurgeable(t: Tree, n: Number, current: Number)
    requires WellNamed(t) && Maps(t, n, Committed) && SchemaIn(t) == V3 && MarkedIn(t)
    ensures RootDn in t && MetadataReadable(t[RootDn], n)
    ensures SnapshotMatches(t, PurgePlan(current, ReadMetadata(t[RootDn], n)))
  {
    hide Maps, EntryDeletable, RootMatchesPlan, ReadItem, RootReadable, MetadataReadable, ReadMetadata;
    var s := MappedV3(t, n, Committed);
    RootNumberText(t[RootDn], n);
    MarkedRootMatches(t[RootDn], n);
    MetadataNumber(t[RootDn], n);
    forall dn | dn in t ensures t[dn].dn == dn && EntryDeletable(t[dn], n) {
      assert t[dn] in s;
      ReadableIsDeletable(t[dn], n, Committed);
    }
  }

  lemma RootNumberText(e: Entry, n: Number)
    requires RootReadable(e, SCHEMA_V3, n, Committed)
    ensures GenerationNumber in e.values && e.values[GenerationNumber] == Text(Decimal(n))
  {
    GenerationText(e, n);
  }

  lemma MetadataNumber(e: Entry, n: Number)
    requires MetadataReadable(e, n)
    ensures ReadMetadata(e, n).generation == n
  {}
}

/** The directory as the protocol sees it: one current pointer, one subtree per generation number, and the four kinds
    of single requests (add, asserted modify, leaf-only delete, read). */
module Directory {
  import opened Wrappers
  import opened Text
  import opened Order
  import opened Records
  import opened Generations
  import opened Candidate
  import opened Mapper
  import opened ReadBack

  /** The attributes of cn=current that matter: schema, number, state and, under v3, the candidate digest. */
  datatype Pointer = Pointer(v3: bool, number: Number, state: State, digest: Bytes)

  type Tree = map<Dn, Entry>

  datatype Dir = Dir(pointer: Option<Pointer>, trees: map<Number, Tree>)

  function TreeAt(d: Dir, n: Number): Tree { if n in d.trees then d.trees[n] else map[] }

  /** The active generation; an absent or still reserved pointer activates none. */
  function CurrentNumber(d: Dir): Number
  {
    if d.pointer.Some? && d.pointer.value.state == Committed then d.pointer.value.number else 0
  }

  // ---------------------------------------------------------------------------------------------
  // Names and ancestors
  // ---------------------------------------------------------------------------------------------

  /** The parent of an entry inside the subtree of its generation. */
  function ParentDn(dn: Dn): Option<Dn>
  {
    match dn
    case RootDn => None
    case UnitDn(_) => Some(RootDn)
    case RecordDn(u, _) => Some(UnitDn(u))
    case ForeignDn(_) => Some(RootDn)
  }

  ghost predicate WellNamed(t: Tree) { forall dn :: dn in t ==> t[dn].dn == dn }

  /** Every entry still has its parent. */
  ghost predicate Rooted(t: Tree) { forall dn :: dn in t && ParentDn(dn).Some? ==> ParentDn(dn).value in t }

  ghost predicate Leaf(t: Tree, dn: Dn) { dn in t && forall other :: other in t ==> ParentDn(other) != Some(dn) }

  lemma RootedHasRoot(t: Tree)
    requires Rooted(t) && t != map[]
    ensures RootDn in t
  {
    var dn :| dn in t;
    match dn
    case RootDn =>
    case UnitDn(_) => assert ParentDn(dn) == Some(RootDn);
    case ForeignDn(_) => assert ParentDn(dn) == Some(RootDn);
    case RecordDn(u, _) => assert ParentDn(dn) == Some(UnitDn(u)) && ParentDn(UnitDn(u)) == Some(RootDn);
  }

  // ---------------------------------------------------------------------------------------------
  // Requests
  // ---------------------------------------------------------------------------------------------

  function WithTree(d: Dir, n: Number, t: Tree): Dir { d.(trees := d.trees[n := t]) }

  /** An add fails when the entry exists or its parent does not. */
  predicate Addable(t: Tree, e: Entry) { e.dn !in t && (ParentDn(e.dn).Some? ==> ParentDn(e.dn).value in t) }

  function AddTo(t: Tree, e: Entry): Tree { t[e.dn := e] }

  function RemoveFrom(t: Tree, dn: Dn): Tree { map x | x in t && x != dn :: t[x] }

  /** The root carries the asserted schema, number and state. */
  predicate RootIs(t: Tree, n: Number, schema: string, state: State)
  {
    && RootDn in t && SchemaVersion in t[RootDn].values && t[RootDn].values[SchemaVersion] == Text(schema)
    && GenerationNumber in t[RootDn].values && t[RootDn].values[GenerationNumber] == Text(Decimal(n))
    && DatasetState in t[RootDn].values && t[RootDn].values[DatasetState] == Text(StateName(state))
  }

  /** The extended assertion of a campaign: operation, source and digest as well. */
  predicate RootSealedBy(t: Tree, m: Metadata, state: State)
  {
    && RootIs(t, m.generation, SCHEMA_V3, state)
    && OperationId in t[RootDn].values && t[RootDn].values[OperationId] == Text(m.operation)
    && SourceGeneration in t[RootDn].values && t[RootDn].values[SourceGeneration] == Text(Decimal(m.source))
    && CandidateDigest in t[RootDn].values && t[RootDn].values[CandidateDigest] == Octets(m.commitment)
  }

  /** The assertion holds of exactly the metadata that the root records. */
  lemma AssertedIsRecorded(t: Tree, m: Metadata, state: State)
    requires RootDn in t && MetadataReadable(t[RootDn], m.generation)
    requires RootIs(t, m.generation, SCHEMA_V3, state)
    ensures RootSealedBy(t, m, state) <==> ReadMetadata(t[RootDn], m.generation) == m
  {
    hide Decimal, ParseNumber, ValidOperation;
    NumberReads(m.source);
    RecordedSource(t[RootDn], m.generation);
  }

  lemma NumberReads(n: Number)
    ensures ParseNumber(Decimal(n)) == if n > 0 then Some(n) else None
  {
    if n > 0 { ParseNumberOf(n); }
  }

  lemma RecordedSource(e: Entry, n: Number)
    requires MetadataReadable(e, n)
    ensures e.values[SourceGeneration] == Text(Decimal(ReadMetadata(e, n).source))
  {}

  /** The root of a v3 generation with this digest; its state and its mark are left open. */
  predicate RootCarries(t: Tree, n: Number, digest: Bytes)
  {
    && RootDn in t && SchemaVersion in t[RootDn].values && t[RootDn].values[SchemaVersion] == Text(SCHEMA_V3)
    && GenerationNumber in t[RootDn].values && t[RootDn].values[GenerationNumber] == Text(Decimal(n))
    && CandidateDigest in t[RootDn].values && t[RootDn].values[CandidateDigest] == Octets(digest)
  }

  /** The root carries the activation mark. */
  predicate MarkedIn(t: Tree)
  {
    RootDn in t && WasActive in t[RootDn].values && t[RootDn].values[WasActive] == Text("TRUE")
  }

  function SetRoot(t: Tree, a: Attribute, v: Value): Tree
    requires RootDn in t
  {
    t[RootDn := t[RootDn].(values := t[RootDn].values[a := v])]
  }

  function CommitRoot(t: Tree): Tree
    requires RootDn in t
  {
    SetRoot(t, DatasetState, Text(StateName(Committed)))
  }

  function MarkRoot(t: Tree): Tree
    requires RootDn in t
  {
    SetRoot(t, WasActive, Text("TRUE"))
  }

  // ---------------------------------------------------------------------------------------------
  // Complete subtrees
  // ---------------------------------------------------------------------------------------------

  /** `s` is some order in which a search may return the subtree. */
  ghost predicate Returned(s: seq<Entry>, t: Tree)
  {
    && Unique(s) && (forall e :: e in s ==> e.dn in t && t[e.dn] == e) && forall dn :: dn in t ==> t[dn] in s
  }

  ghost predicate Maps(t: Tree, n: Number, state: State)
  {
    exists s: seq<Entry>, schema :: Returned(s, t) && Readable(s, schema, n, state, |s|)
  }

  /** The subtree maps to a generation in the state its root declares. */
  ghost predicate Complete(t: Tree, n: Number) { exists state :: Maps(t, n, state) }

  ghost predicate CommittedRoot(t: Tree)
  {
    RootDn in t && DatasetState in t[RootDn].values && t[RootDn].values[DatasetState] == Text(StateName(Committed))
  }

  /** The subtree a write sequence has produced so far. */
  function Written(s: seq<Entry>): Tree { if s == [] then map[] else AddTo(Written(s[..|s| - 1]), s[|s| - 1]) }

  lemma {:induction false} WrittenContents(s: seq<Entry>)
    requires DistinctNames(s)
    ensures (forall dn :: dn in Written(s) ==> Written(s)[dn] in s && Written(s)[dn].dn == dn)
    ensures forall e :: e in s ==> e.dn in Written(s) && Written(s)[e.dn] == e
  {
    if s != [] {
      var rest, last := s[..|s| - 1], s[|s| - 1];
      WrittenContents(rest);
      assert s == rest + [last];
      forall e | e in rest ensures e.dn != last.dn {
        var i :| 0 <= i < |rest| && rest[i] == e;
        assert s[i] == e;
      }
    }
  }

  lemma ReturnedPermutes(s: seq<Entry>, t: seq<Entry>)
    requires DistinctNames(t) && Returned(s, Written(t))
    ensures multiset(s) == multiset(t)
  {
    WrittenContents(t);
    assert Unique(t);
    forall e ensures e in s <==> e in t {
      if e in t { assert e.dn in Written(t); }
    }
    SameElementsSameBag(s, t);
  }

  lemma SameElementsSameBag<T>(s: seq<T>, t: seq<T>)
    requires Unique(s) && Unique(t) && forall e :: e in s <==> e in t
    ensures multiset(s) == multiset(t)
  {
    UniqueCounts(s);
    UniqueCounts(t);
    forall e ensures multiset(s)[e] == multiset(t)[e] {
      if e in s {
        assert multiset(s)[e] == 1 && multiset(t)[e] == 1;
      } else {
        assert e !in multiset(s) && e !in multiset(t);
      }
    }
  }

  lemma ReturnedExists(t: seq<Entry>)
    requires DistinctNames(t)
    ensures Returned(t, Written(t))
  {
    WrittenContents(t);
    assert Unique(t);
  }

  /** A write cut short is not complete. */
  lemma CutIsIncomplete(g: Generation, metadata: Option<Metadata>, k: nat)
    requires Writable(g, metadata) && k < |WriteSequence(g, metadata)|
    ensures !Complete(Written(WriteSequence(g, metadata)[..k]), g.number)
  {
    hide Writable, WriteSequence, Readable, Written;
    WriteDistinct(g, metadata);
    var w := WriteSequence(g, metadata)[..k];
    forall state, s, schema | Returned(s, Written(w)) ensures !Readable(s, schema, g.number, state, |s|) {
      ReturnedPermutes(s, w);
      InterruptedWriteRejected(g, metadata, k, s, schema, state, |s|);
    }
  }

  /** A finished write is complete and still staging. */
  lemma FinishedIsComplete(g: Generation, metadata: Option<Metadata>)
    requires Writable(g, metadata) && MetadataSeals(metadata, g)
    ensures Maps(Written(WriteSequence(g, metadata)), g.number, Staging)
  {
    hide Writable, WriteSequence, Readable, MetadataSeals, Written;
    var w := WriteSequence(g, metadata);
    WriteDistinct(g, metadata);
    ReturnedExists(w);
    WrittenReadsBack(g, metadata, w, |w|);
  }

  // ---------------------------------------------------------------------------------------------
  // Adds in order
  // ---------------------------------------------------------------------------------------------

  /** Names in the order written: the root, the units, then records. */
  lemma AddedName(candidate: Generation, metadata: Option<Metadata>, i: nat)
    requires i < |WriteSequence(candidate, metadata)|
    ensures |WriteSequence(candidate, metadata)| >= 6
    ensures i < 6 ==> WriteSequence(candidate, metadata)[i] == Skeleton(candidate.number, metadata)[i]
    ensures i >= 6 ==> WriteSequence(candidate, metadata)[i].dn.RecordDn?
  {
    hide InUnit, HandleRows, ProfileRows, CredentialRows, PolicyRows, MaterialRows, Skeleton, BeforeMaterials,
      WriteSequence;
    var v3 := metadata.Some?;
    Segments(candidate, metadata);
    RowsInUnits(candidate, v3);
    SkeletonSize(candidate.number, metadata);
    var b, c, d, e, m := HandleRows(candidate, v3), ProfileRows(candidate, v3), CredentialRows(candidate, v3),
        PolicyRows(candidate, v3), MaterialRows(candidate, v3);
    UnitDistinct(b, HandlesUnit, v3);
    UnitDistinct(c, ProfilesUnit, v3);
    UnitDistinct(d, CredentialsUnit, v3);
    UnitDistinct(e, PoliciesUnit, v3);
    UnitDistinct(m, MaterialsUnit, v3);
    var rest := b + c + d + e + m;
    assert WriteSequence(candidate, metadata) == Skeleton(candidate.number, metadata) + rest;
    assert forall x :: x in rest ==> x in b || x in c || x in d || x in e || x in m;
    if i >= 6 { assert rest[i - 6] in rest; }
  }

  lemma SkeletonNames(n: Number, metadata: Option<Metadata>)
    ensures |Skeleton(n, metadata)| == 6 && Skeleton(n, metadata)[0].dn == RootDn
    ensures forall i :: 1 <= i < 6 ==> Skeleton(n, metadata)[i].dn.UnitDn?
    ensures forall u: Unit :: exists i :: 1 <= i < 6 && Skeleton(n, metadata)[i].dn == UnitDn(u)
  {
    hide RootEntry;
    RootEntryName(n, metadata);
    var s := Skeleton(n, metadata);
    forall u: Unit ensures exists i :: 1 <= i < 6 && s[i].dn == UnitDn(u) {
      match u
      case HandlesUnit => assert s[1].dn == UnitDn(u);
      case ProfilesUnit => assert s[2].dn == UnitDn(u);
      case CredentialsUnit => assert s[3].dn == UnitDn(u);
      case PoliciesUnit => assert s[4].dn == UnitDn(u);
      case MaterialsUnit => assert s[5].dn == UnitDn(u);
    }
  }

  lemma RootEntryName(n: Number, metadata: Option<Metadata>)
    ensures RootEntry(n, metadata).dn == RootDn
  {}

  /** Each entry's parent has been written before it, and the entry itself has not. */
  lemma NextIsAddable(candidate: Generation, metadata: Option<Metadata>, i: nat)
    requires i < |WriteSequence(candidate, metadata)|
    ensures Addable(Written(WriteSequence(candidate, metadata)[..i]), WriteSequence(candidate, metadata)[i])
    ensures i == 0 ==> WriteSequence(candidate, metadata)[0] == RootEntry(candidate.number, metadata)
    ensures i > 0 ==>
      RootDn in Written(WriteSequence(candidate, metadata)[..i]) && WriteSequence(candidate, metadata)[i].dn != RootDn
  {
    hide WriteSequence, Skeleton, RootEntry, Written;
    var w, done := WriteSequence(candidate, metadata), WriteSequence(candidate, metadata)[..i];
    WriteDistinct(candidate, metadata);
    WrittenContents(done);
    var skeleton := Skeleton(candidate.number, metadata);
    SkeletonNames(candidate.number, metadata);
    SkeletonSize(candidate.number, metadata);
    AddedName(candidate, metadata, i);
    AddedName(candidate, metadata, 0);
    assert w[i].dn !in Written(done);
    if i > 0 { assert done[0] in done; }
    if i >= 6 {
      var k :| 1 <= k < 6 && skeleton[k].dn == UnitDn(w[i].dn.unit);
      AddedName(candidate, metadata, k);
      assert done[k] in done;
    }
  }

  lemma WrittenRoot(candidate: Generation, metadata: Option<Metadata>)
    ensures |WriteSequence(candidate, metadata)| > 0
    ensures var t := Written(WriteSequence(candidate, metadata));
      RootDn in t && t[RootDn] == RootEntry(candidate.number, metadata)
  {
    hide WriteSequence, Written, Skeleton, RootEntry;
    var w := WriteSequence(candidate, metadata);
    Segments(candidate, metadata);
    SkeletonSize(candidate.number, metadata);
    WriteDistinct(candidate, metadata);
    WrittenContents(w);
    AddedName(candidate, metadata, 0);
    RootEntryName(candidate.number, metadata);
    assert w[0] in w;
  }

  // ---------------------------------------------------------------------------------------------
  // Root changes keep a subtree complete
  // ---------------------------------------------------------------------------------------------

  /** A root update that changes at most the state and the activation mark. */
  ghost predicate RootUpdate(e: Entry, e': Entry, state: State, state': State)
  {
    && e'.dn == e.dn && e'.class_ == e.class_ && e.values.Keys <= e'.values.Keys <= e.values.Keys + {WasActive}
    && (forall a :: a in e.values && a != DatasetState && a != WasActive ==> e'.values[a] == e.values[a])
    && (WasActive in e'.values ==>
          e'.values[WasActive] != NotSingle || (WasActive in e.values && e.values[WasActive] == e'.values[WasActive]))
    && (DatasetState in e.values && e.values[DatasetState] == Text(StateName(state)) ==>
          e'.values[DatasetState] == Text(StateName(state')))
  }

  lemma ExactKept(e: Entry, e': Entry, required: set<Attribute>, state: State, state': State)
    requires RootUpdate(e, e', state, state') && Exact(e, required, {WasActive})
    requires DatasetState in required && e.values[DatasetState] == Text(StateName(state))
    ensures Exact(e', required, {WasActive})
  {}

  lemma MetadataKept(e: Entry, e': Entry, n: Number, state: State, state': State)
    requires RootUpdate(e, e', state, state')
    ensures MetadataReadable(e, n) ==> MetadataReadable(e', n) && ReadMetadata(e, n) == ReadMetadata(e', n)
    ensures MetadataReadable(e', n) ==> MetadataReadable(e, n)
  {
    hide ParseNumber, ValidOperation;
  }

  lemma RootStaysReadable(e: Entry, e': Entry, schema: string, n: Number, state: State, state': State)
    requires RootUpdate(e, e', state, state') && RootReadable(e, schema, n, state)
    ensures RootReadable(e', schema, n, state')
    ensures MetadataReadable(e, n) <==> MetadataReadable(e', n)
    ensures MetadataReadable(e, n) ==> ReadMetadata(e, n) == ReadMetadata(e', n)
  {
    hide ParseNumber, Decimal, ValidOperation, RootName, Exact, MetadataReadable, StateName;
    var required := {Cn, SchemaVersion, GenerationNumber, DatasetState} +
        (if schema == SCHEMA_V3 then {CandidateDigest, OperationId, SourceGeneration} else {});
    RootAttributes(e, required);
    ExactKept(e, e', required, state, state');
    MetadataKept(e, e', n, state, state');
  }

  lemma RootAttributes(e: Entry, required: set<Attribute>)
    requires Exact(e, required, {WasActive})
    ensures required <= e.values.Keys
  {}

  lemma RecordsIgnoreState(e: Entry, schema: string, n: Number, state: State, state': State)
    requires e.dn != RootDn
    ensures ReadItem(e, schema, n, state) == ReadItem(e, schema, n, state')
  {}

  lemma {:induction false} PickSame<T>(s: seq<Entry>, t: seq<Entry>, f: Entry -> Option<T>, g: Entry -> Option<T>)
    requires |s| == |t| && forall i :: 0 <= i < |s| ==> f(s[i]) == g(t[i])
    ensures Pick(s, f) == Pick(t, g)
  {
    if s != [] { PickSame(s[..|s| - 1], t[..|t| - 1], f, g); }
  }

  /** One search result with the root entry exchanged. */
  ghost predicate Exchanged(s: seq<Entry>, t: seq<Entry>, i: nat, state: State, state': State)
  {
    && |s| == |t| && i < |s| && s[i].dn == RootDn && RootUpdate(s[i], t[i], state, state')
    && forall j :: 0 <= j < |s| && j != i ==> s[j] == t[j]
  }

  lemma ExchangedItems(s: seq<Entry>, t: seq<Entry>, i: nat, schema: string, n: Number, state: State, state': State,
                       j: nat)
    requires Exchanged(s, t, i, state, state') && DistinctNames(s) && AllRead(s, schema, n, state) && j < |s|
    ensures ReadItem(s[j], schema, n, state) == ReadItem(t[j], schema, n, state')
  {
    assert s[j] in s && s[i] in s;
    assert ReadItem(s[j], schema, n, state).Some?;
    if j == i {
      hide RootReadable, RootUpdate;
      RootItemOnly(s[i], schema, n, state);
      RootStaysReadable(s[i], t[i], schema, n, state, state');
      SameClass(s[i], t[i], state, state');
    } else {
      assert s[j].dn != s[i].dn;
      RecordsIgnoreState(s[j], schema, n, state, state');
    }
  }

  lemma SameClass(e: Entry, e': Entry, state: State, state': State)
    requires RootUpdate(e, e', state, state')
    ensures e'.class_ == e.class_ && e'.dn == e.dn
  {}

  lemma ExchangedParts(s: seq<Entry>, t: seq<Entry>, i: nat, schema: string, n: Number, state: State, state': State)
    requires Exchanged(s, t, i, state, state') && DistinctNames(s) && AllRead(s, schema, n, state)
    ensures PartsOf(t, schema, n, state') == PartsOf(s, schema, n, state).(state := state')
    ensures AllRead(t, schema, n, state') && DistinctNames(t)
    ensures forall item :: HasItem(s, schema, n, state, item) ==> HasItem(t, schema, n, state', item)
  {
    hide ReadItem, RootUpdate, Pick;
    forall j | 0 <= j < |s| ensures ReadItem(s[j], schema, n, state) == ReadItem(t[j], schema, n, state') {
      ExchangedItems(s, t, i, schema, n, state, state', j);
    }
    PickSame(s, t, HandlePicker(schema, n, state), HandlePicker(schema, n, state'));
    PickSame(s, t, ProfilePicker(schema, n, state), ProfilePicker(schema, n, state'));
    PickSame(s, t, CredentialPicker(schema, n, state), CredentialPicker(schema, n, state'));
    PickSame(s, t, PolicyPicker(schema, n, state), PolicyPicker(schema, n, state'));
    PickSame(s, t, MaterialPicker(schema, n, state), MaterialPicker(schema, n, state'));
    SameClass(s[i], t[i], state, state');
    forall e | e in t ensures ReadItem(e, schema, n, state').Some? {
      var j :| 0 <= j < |t| && t[j] == e;
      assert s[j] in s;
    }
    forall item | HasItem(s, schema, n, state, item) ensures HasItem(t, schema, n, state', item) {
      var e :| e in s && ReadItem(e, schema, n, state) == Some(item);
      var j :| 0 <= j < |s| && s[j] == e;
      assert t[j] in t;
    }
  }

  lemma ExchangedReadable(s: seq<Entry>, t: seq<Entry>, i: nat, schema: string, n: Number, state: State, state': State)
    requires Exchanged(s, t, i, state, state') && Readable(s, schema, n, state, |s|)
    ensures Readable(t, schema, n, state', |t|)
  {
    hide ReadItem, RootUpdate, PartsOf, Consistent, Commits, MetadataReadable;
    ExchangedParts(s, t, i, schema, n, state, state');
    var parts := PartsOf(s, schema, n, state);
    CommittedConsistent(parts, state');
    PartsNumber(s, schema, n, state);
    if schema == SCHEMA_V3 {
      assert s[i] in s;
      assert ReadItem(s[i], schema, n, state).Some?;
      RootItemOnly(s[i], schema, n, state);
      RootStaysReadable(s[i], t[i], schema, n, state, state');
      SameClass(s[i], t[i], state, state');
      forall e | e in t && e.dn == RootDn && MetadataReadable(e, n)
        ensures Commits(ReadMetadata(e, n), PartsOf(t, schema, n, state'))
      {
        var j :| 0 <= j < |t| && t[j] == e;
        assert j == i;
        CommitmentIgnoresOrderAndState(ReadMetadata(s[i], n), parts, parts.(state := state'));
      }
    }
  }

  lemma ReturnedRoot(s: seq<Entry>, tree: Tree, root: Entry) returns (i: nat, t: seq<Entry>)
    requires Returned(s, tree) && WellNamed(tree) && RootDn in tree && root.dn == RootDn
    ensures i < |s| && s[i] == tree[RootDn] && t == s[i := root] && Returned(t, tree[RootDn := root])
  {
    assert tree[RootDn] in s;
    i :| 0 <= i < |s| && s[i] == tree[RootDn];
    t := s[i := root];
    var after := tree[RootDn := root];
    forall j | 0 <= j < |s| && j != i ensures s[j].dn != RootDn && t[j] == s[j] {
      assert s[j] in s && s[j] != s[i];
      assert tree[s[j].dn] == s[j];
    }
    assert t[i] == root;
    assert Unique(t);
    forall e | e in t ensures e.dn in after && after[e.dn] == e {
      var j :| 0 <= j < |t| && t[j] == e;
      if j != i { assert s[j] in s; }
    }
    forall dn | dn in after ensures after[dn] in t {
      if dn == RootDn {
        assert t[i] == root;
      } else {
        assert tree[dn] in s;
        var j :| 0 <= j < |s| && s[j] == tree[dn];
        assert tree[dn].dn == dn;
        assert t[j] == tree[dn];
      }
    }
  }

  /** Updating state or activation mark of the root of a mapped subtree. */
  lemma UpdateMaps(tree: Tree, root: Entry, n: Number, state: State, state': State)
    requires WellNamed(tree) && RootDn in tree && RootUpdate(tree[RootDn], root, state, state') && Maps(tree, n, state)
    ensures Maps(tree[RootDn := root], n, state')
  {
    hide Readable, RootUpdate;
    SameClass(tree[RootDn], root, state, state');
    var s, schema :| Returned(s, tree) && Readable(s, schema, n, state, |s|);
    var i, t := ReturnedRoot(s, tree, root);
    ExchangedReadable(s, t, i, schema, n, state, state');
  }

  lemma MappedRoot(t: Tree, n: Number, state: State)
    requires WellNamed(t) && Maps(t, n, state)
    ensures RootDn in t && DatasetState in t[RootDn].values && t[RootDn].values[DatasetState] == Text(StateName(state))
    ensures n > 0
  {
    hide Consistent, PartsOf, Sealed, ReadItem;
    var s, schema :| Returned(s, t) && Readable(s, schema, n, state, |s|);
    RootPresent(s, schema, n, state);
    var e: Entry :| e in s && e.dn == RootDn;
    assert ReadItem(e, schema, n, state).Some?;
    RootItemOnly(e, schema, n, state);
    RootState(e, schema, n, state);
  }

  lemma RootState(e: Entry, schema: string, n: Number, state: State)
    requires RootReadable(e, schema, n, state)
    ensures DatasetState in e.values && e.values[DatasetState] == Text(StateName(state))
  {}

  lemma CommitKeepsComplete(t: Tree, n: Number)
    requires WellNamed(t) && Complete(t, n)
    ensures RootDn in t && Complete(CommitRoot(t), n) && CommittedRoot(CommitRoot(t))
  {
    hide Maps;
    var state :| Maps(t, n, state);
    MappedRoot(t, n, state);
    UpdateMaps(t, CommitRoot(t)[RootDn], n, state, Committed);
    assert CommitRoot(t) == t[RootDn := CommitRoot(t)[RootDn]];
  }

  lemma MarkKeepsComplete(t: Tree, n: Number)
    requires WellNamed(t) && Complete(t, n)
    ensures RootDn in t && Complete(MarkRoot(t), n) && (CommittedRoot(t) ==> CommittedRoot(MarkRoot(t)))
  {
    hide Maps;
    var state :| Maps(t, n, state);
    MappedRoot(t, n, state);
    UpdateMaps(t, MarkRoot(t)[RootDn], n, state, state);
    assert MarkRoot(t) == t[RootDn := MarkRoot(t)[RootDn]];
  }

  // ---------------------------------------------------------------------------------------------
  // Single requests keep names and ancestors
  // ---------------------------------------------------------------------------------------------

  lemma AddKeepsShape(t: Tree, e: Entry)
    requires WellNamed(t) && Rooted(t) && Addable(t, e)
    ensures WellNamed(AddTo(t, e)) && Rooted(AddTo(t, e))
  {}

  lemma RemoveKeepsShape(t: Tree, dn: Dn)
    requires WellNamed(t) && Rooted(t) && Leaf(t, dn)
    ensures WellNamed(RemoveFrom(t, dn)) && Rooted(RemoveFrom(t, dn))
  {
    forall x | x in RemoveFrom(t, dn) && ParentDn(x).Some? ensures ParentDn(x).value in RemoveFrom(t, dn) {
      assert ParentDn(x) != Some(dn);
    }
  }

  lemma SetKeepsShape(t: Tree, a: Attribute, v: Value)
    requires WellNamed(t) && Rooted(t) && RootDn in t
    ensures WellNamed(SetRoot(t, a, v)) && Rooted(SetRoot(t, a, v))
  {}

  ghost predicate TreesShaped(d: Dir)
  {
    forall n: Number {:trigger TreeAt(d, n)} :: WellNamed(TreeAt(d, n)) && Rooted(TreeAt(d, n))
  }

  /** Other subtrees are untouched by a change of one. */
  lemma OtherTrees(d: Dir, n: Number, t: Tree)
    ensures TreeAt(WithTree(d, n, t), n) == t && CurrentNumber(WithTree(d, n, t)) == CurrentNumber(d)
    ensures forall m: Number :: m != n ==> TreeAt(WithTree(d, n, t), m) == TreeAt(d, m)
  {}

  lemma CommitShape(t: Tree)
    requires WellNamed(t) && Rooted(t) && RootDn in t
    ensures WellNamed(CommitRoot(t)) && Rooted(CommitRoot(t)) && RootDn in CommitRoot(t)
  {
    SetKeepsShape(t, DatasetState, Text(StateName(Committed)));
  }

  lemma MarkShape(t: Tree)
    requires WellNamed(t) && Rooted(t) && RootDn in t
    ensures WellNamed(MarkRoot(t)) && Rooted(MarkRoot(t)) && RootDn in MarkRoot(t)
  {
    SetKeepsShape(t, WasActive, Text("TRUE"));
  }

  lemma MappedFacts(d: Dir, n: Number, state: State)
    requires TreesShaped(d) && Maps(TreeAt(d, n), n, state)
    ensures Complete(TreeAt(d, n), n) && n > 0 && (state == Committed ==> CommittedRoot(TreeAt(d, n)))
  {
    hide Maps;
    MappedRoot(TreeAt(d, n), n, state);
  }

  // ---------------------------------------------------------------------------------------------
  // Any search order will do
  // ---------------------------------------------------------------------------------------------

  lemma ReturnedAlike(s: seq<Entry>, u: seq<Entry>, t: Tree)
    requires Returned(s, t) && Returned(u, t)
    ensures multiset(s) == multiset(u)
  {
    forall e ensures e in s <==> e in u {
      if e in s { assert t[e.dn] in u; }
      if e in u { assert t[e.dn] in s; }
    }
    SameElementsSameBag(s, u);
  }

  lemma SealedAnyOrder(s: seq<Entry>, u: seq<Entry>, schema: string, n: Number, state: State)
    requires multiset(s) == multiset(u) && Consistent(PartsOf(s, schema, n, state)) && Sealed(s, schema, n, state)
    ensures Sealed(u, schema, n, state)
  {
    hide Consistent, PartsOf, Commits, MetadataReadable;
    var x, y := PartsOf(s, schema, n, state), PartsOf(u, schema, n, state);
    PartsPermuted(s, u, schema, n, state);
    PermutedElements(x, y);
    SameMembers(s, u);
    if schema == SCHEMA_V3 {
      forall e | e in u && e.dn == RootDn && MetadataReadable(e, n) ensures Commits(ReadMetadata(e, n), y) {
        assert e in s;
        CommitmentIgnoresOrderAndState(ReadMetadata(e, n), x, y);
      }
    }
  }

  lemma SameMembers(s: seq<Entry>, u: seq<Entry>)
    requires multiset(s) == multiset(u)
    ensures (forall e :: e in s <==> e in u) && |s| == |u|
  {
    assert forall e :: e in s <==> e in multiset(s);
    assert forall e :: e in u <==> e in multiset(u);
    assert |multiset(s)| == |s| && |multiset(u)| == |u|;
  }

  lemma ReadableAnyOrder(s: seq<Entry>, u: seq<Entry>, schema: string, n: Number, state: State, limit: nat)
    requires multiset(s) == multiset(u) && Readable(s, schema, n, state, limit)
    ensures Readable(u, schema, n, state, limit)
  {
    hide Consistent, PartsOf, Sealed, ReadItem, HasItem;
    SameMembers(s, u);
    PermutedNames(u, s);
    MoreItems(s, u, schema, n, state);
    PartsPermuted(s, u, schema, n, state);
    PermutedConsistent(PartsOf(s, schema, n, state), PartsOf(u, schema, n, state));
    SealedAnyOrder(s, u, schema, n, state);
  }

  /** A subtree maps in one search order exactly when it maps in every order. */
  lemma MapsInAnyOrder(u: seq<Entry>, t: Tree, n: Number, state: State)
    requires Returned(u, t)
    ensures Maps(t, n, state) <==> exists schema :: Readable(u, schema, n, state, |u|)
  {
    hide Readable;
    if Maps(t, n, state) {
      var s, schema :| Returned(s, t) && Readable(s, schema, n, state, |s|);
      ReturnedAlike(s, u, t);
      SameMembers(s, u);
      ReadableAnyOrder(s, u, schema, n, state, |s|);
    }
  }
}

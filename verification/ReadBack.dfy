/** Writing a candidate entry by entry and reading the subtree back gives the same candidate, and nothing shorter is
    ever taken for it. */
module ReadBack {
  import opened Wrappers
  import opened Text
  import opened Order
  import opened Records
  import opened Generations
  import opened Candidate
  import opened Mapper

  // ---------------------------------------------------------------------------------------------
  // Picking values
  // ---------------------------------------------------------------------------------------------

  lemma {:induction false} PickAppend<T>(s: seq<Entry>, t: seq<Entry>, f: Entry -> Option<T>)
    ensures Pick(s + t, f) == Pick(s, f) + Pick(t, f)
  {
    if t == [] {
      assert s + t == s;
    } else {
      assert (s + t)[..|s + t| - 1] == s + t[..|t| - 1];
      PickAppend(s, t[..|t| - 1], f);
    }
  }

  lemma {:induction false} PickNone<T>(s: seq<Entry>, f: Entry -> Option<T>)
    requires forall e :: e in s ==> f(e).None?
    ensures Pick(s, f) == []
  {
    if s != [] { PickNone(s[..|s| - 1], f); }
  }

  lemma {:induction false} PickAll<T>(s: seq<Entry>, xs: seq<T>, f: Entry -> Option<T>)
    requires |s| == |xs| && forall i :: 0 <= i < |s| ==> f(s[i]) == Some(xs[i])
    ensures Pick(s, f) == xs
  {
    if s != [] {
      PickAll(s[..|s| - 1], xs[..|s| - 1], f);
      assert xs == xs[..|s| - 1] + [xs[|s| - 1]];
    }
  }

  lemma RemoveAt(s: seq<Entry>, i: nat)
    requires i < |s|
    ensures multiset(s) == multiset(s[..i] + s[i + 1..]) + multiset{s[i]}
  {
    assert s == s[..i] + [s[i]] + s[i + 1..];
  }

  function Picked<T>(e: Entry, f: Entry -> Option<T>): seq<T> { match f(e) case None => [] case Some(x) => [x] }

  lemma PickAround<T>(t: seq<Entry>, i: nat, f: Entry -> Option<T>)
    requires i < |t|
    ensures Pick(t, f) == Pick(t[..i], f) + Picked(t[i], f) + Pick(t[i + 1..], f)
    ensures Pick(t[..i] + t[i + 1..], f) == Pick(t[..i], f) + Pick(t[i + 1..], f)
  {
    PickAppend(t[..i], t[i + 1..], f);
    assert t == t[..i] + [t[i]] + t[i + 1..];
    PickAppend(t[..i] + [t[i]], t[i + 1..], f);
    PickAppend(t[..i], [t[i]], f);
    assert [t[i]][..0] == [];
  }

  lemma RemovedEqual(s: multiset<Entry>, t: multiset<Entry>, a: multiset<Entry>, b: multiset<Entry>, x: Entry)
    requires s == t && s == a + multiset{x} && t == b + multiset{x}
    ensures a == b
  {
    assert a == s - multiset{x} && b == t - multiset{x};
  }

  /** The order of the entries only reorders what is picked. */
  lemma {:induction false} PickPermuted<T>(s: seq<Entry>, t: seq<Entry>, f: Entry -> Option<T>)
    requires multiset(s) == multiset(t)
    ensures multiset(Pick(s, f)) == multiset(Pick(t, f))
    decreases |s|
  {
    hide Picked;
    assert |multiset(s)| == |s| && |multiset(t)| == |t|;
    if s != [] {
      hide Pick;
      var n := |s| - 1;
      assert s[n] in multiset(s);
      var i :| 0 <= i < |t| && t[i] == s[n];
      var r, u := s[..n] + s[n + 1..], t[..i] + t[i + 1..];
      RemoveAt(s, n);
      RemoveAt(t, i);
      RemovedEqual(multiset(s), multiset(t), multiset(r), multiset(u), s[n]);
      PickPermuted(r, u, f);
      PickAround(s, n, f);
      PickAround(t, i, f);
      PickedMoves(Pick(s[..n], f), Picked(s[n], f), Pick(s[n + 1..], f), Pick(t[..i], f), Pick(t[i + 1..], f));
    }
  }

  lemma PickedMoves<T>(a: seq<T>, x: seq<T>, b: seq<T>, c: seq<T>, d: seq<T>)
    requires multiset(a + b) == multiset(c + d)
    ensures multiset(a + x + b) == multiset(c + x + d)
  {
    assert multiset(a + x + b) == multiset(a + b) + multiset(x);
    assert multiset(c + x + d) == multiset(c + d) + multiset(x);
  }

  // ---------------------------------------------------------------------------------------------
  // Every written entry reads back as what was written
  // ---------------------------------------------------------------------------------------------

  function SchemaOf(metadata: Option<Metadata>): string { if metadata.Some? then SCHEMA_V3 else SCHEMA_V2 }

  lemma NamesParse()
    ensures forall s :: ParseStatus(StatusName(s)) == Some(s)
    ensures forall r :: ParseRollout(RolloutName(r)) == Some(r)
    ensures forall u :: ParseUse(UseName(u)) == Some(u)
    ensures forall a :: ParseAlgorithm(AlgorithmName(a)) == Some(a)
  {
    forall r ensures ParseRollout(RolloutName(r)) == Some(r) {
      assert RolloutName(Enforce)[0] == 'e' && RolloutName(Observe)[0] == 'o' && |RolloutName(Off)| == 3;
    }
    forall s ensures ParseStatus(StatusName(s)) == Some(s) {
      assert |StatusName(Active)| == 6 && |StatusName(Disabled)| == 8;
    }
    forall u ensures ParseUse(UseName(u)) == Some(u) {
      assert |UseName(Originator)| == 10 && |UseName(OrdinaryTransit)| == 16 && |UseName(NextDomainTransit)| == 19;
      assert |UseName(DeliveryStatus)| == 15;
    }
    forall a ensures ParseAlgorithm(AlgorithmName(a)) == Some(a) {
      assert |AlgorithmName(RsaSha256)| == 10 && |AlgorithmName(Ed25519Sha256)| == 14;
      assert |AlgorithmName(MlDsa44Ed25519Sha512)| == 22;
    }
  }

  lemma HandleReads(h: Handle, i: nat, n: Number, v3: bool, state: State)
    requires n > 0 && h.generation == n && i < LENGTH_LIMIT
    ensures ReadItem(HandleEntry(h, i, n, v3), if v3 then SCHEMA_V3 else SCHEMA_V2, n, state) == Some(HandleItem(h))
  {
    hide ReadProfile, ReadCredential, ReadPolicy, ReadMaterial, ReadUnit, RootReadable;
    hide ValidCn, ParseNumber, RecordCn, Decimal, ValidIdentifier;
    RecordCnValid(i, v3);
    ParseNumberOf(n);
  }

  lemma ProfileReads(p: Profile, i: nat, n: Number, v3: bool, state: State)
    requires n > 0 && p.generation == n && i < LENGTH_LIMIT
    ensures ReadItem(ProfileEntry(p, i, n, v3), if v3 then SCHEMA_V3 else SCHEMA_V2, n, state) == Some(ProfileItem(p))
  {
    hide ReadHandle, ReadCredential, ReadPolicy, ReadMaterial, ReadUnit, RootReadable;
    hide ValidCn, ParseNumber, RecordCn, Decimal, ValidIdentifier, CanonicalDnsName, ParseStatus, StatusName;
    RecordCnValid(i, v3);
    ParseNumberOf(n);
    NamesParse();
  }

  lemma CredentialReads(c: Credential, i: nat, n: Number, v3: bool, state: State)
    requires n > 0 && c.generation == n && i < LENGTH_LIMIT
    ensures ReadItem(CredentialEntry(c, i, n, v3), if v3 then SCHEMA_V3 else SCHEMA_V2, n, state) ==
      Some(CredentialItem(c))
  {
    hide ReadHandle, ReadProfile, ReadPolicy, ReadMaterial, ReadUnit, RootReadable;
    hide ValidCn, ParseNumber, RecordCn, Decimal, ValidIdentifier, CanonicalDnsName, ParseAlgorithm, AlgorithmName;
    RecordCnValid(i, v3);
    ParseNumberOf(n);
    NamesParse();
  }

  lemma PolicyShape(q: Policy, i: nat, n: Number, v3: bool)
    requires n > 0 && q.generation == n && i < LENGTH_LIMIT
    ensures var e := PolicyEntry(q, i, n, v3);
      && Exact(e, {Cn, GenerationNumber, TenantId, SigningDomain, ProfileUse, ProfileId, RecordStatus, RolloutAttr,
           CompatibilityAttr}, {FeedbackRoute})
      && RecordAt(e, PoliciesUnit, if v3 then SCHEMA_V3 else SCHEMA_V2) && OfGeneration(e, n)
  {
    hide ValidCn, ParseNumber, RecordCn, Decimal, ValidIdentifier, CanonicalDnsName, StatusName, UseName, RolloutName;
    RecordCnValid(i, v3);
    ParseNumberOf(n);
  }

  lemma PolicyReads(q: Policy, i: nat, n: Number, v3: bool, state: State)
    requires n > 0 && q.generation == n && i < LENGTH_LIMIT
    ensures ReadItem(PolicyEntry(q, i, n, v3), if v3 then SCHEMA_V3 else SCHEMA_V2, n, state) == Some(PolicyItem(q))
  {
    hide ReadHandle, ReadProfile, ReadCredential, ReadMaterial, ReadUnit, RootReadable;
    hide ValidCn, ParseNumber, RecordCn, Decimal, ValidIdentifier, CanonicalDnsName, ParseStatus, StatusName, ParseUse,
      UseName, ParseRollout, RolloutName;
    hide Exact, RecordAt, OfGeneration;
    PolicyShape(q, i, n, v3);
    NamesParse();
    match q.compatibility case Strict =>
  }

  lemma MaterialShape(m: KeyMaterial, i: nat, n: Number, v3: bool)
    requires n > 0 && m.generation == n && i < LENGTH_LIMIT
    ensures var e := MaterialEntry(m, i, n, v3);
      && Exact(e, {Cn, GenerationNumber, TenantId, SigningDomain, ProfileUse, HandleId, AlgorithmAttr, PublicKey,
           PrivateKey}, {})
      && RecordAt(e, MaterialsUnit, if v3 then SCHEMA_V3 else SCHEMA_V2) && OfGeneration(e, n)
  {
    hide ValidCn, ParseNumber, RecordCn, Decimal, ValidIdentifier, CanonicalDnsName, UseName, AlgorithmName;
    RecordCnValid(i, v3);
    ParseNumberOf(n);
  }

  lemma MaterialReads(m: KeyMaterial, i: nat, n: Number, v3: bool, state: State)
    requires n > 0 && m.generation == n && i < LENGTH_LIMIT
    ensures ReadItem(MaterialEntry(m, i, n, v3), if v3 then SCHEMA_V3 else SCHEMA_V2, n, state) == Some(MaterialItem(m))
  {
    hide ReadHandle, ReadProfile, ReadCredential, ReadPolicy, ReadUnit, RootReadable;
    hide RecordCn, Decimal, ValidIdentifier, CanonicalDnsName, ParseUse, UseName, ParseAlgorithm, AlgorithmName;
    hide Exact, RecordAt, OfGeneration;
    MaterialShape(m, i, n, v3);
    NamesParse();
  }

  lemma UnitReads(u: Unit, schema: string, n: Number, state: State)
    ensures ReadItem(UnitEntry(u), schema, n, state) == Some(UnitItem(u))
  {
    hide UnitName;
  }

  /** The metadata a v3 root may carry. */
  predicate MetadataFits(metadata: Option<Metadata>, n: Number)
  {
    metadata.Some? ==> metadata.value.generation == n && 0 < metadata.value.source < n
  }

  lemma RootReads(n: Number, metadata: Option<Metadata>)
    requires n > 0 && MetadataFits(metadata, n)
    ensures ReadItem(RootEntry(n, metadata), SchemaOf(metadata), n, Staging) == Some(RootItem)
    ensures metadata.Some? ==>
      MetadataReadable(RootEntry(n, metadata), n) && ReadMetadata(RootEntry(n, metadata), n) == metadata.value
  {
    hide ReadHandle, ReadProfile, ReadCredential, ReadPolicy, ReadMaterial, ReadUnit;
    hide ParseNumber, Decimal, RootName, ValidOperation;
    ParseNumberOf(n);
    assert SCHEMA_V2 != SCHEMA_V3 by { assert SCHEMA_V2[|SCHEMA_V2| - 1] != SCHEMA_V3[|SCHEMA_V3| - 1]; }
    if metadata.Some? { ParseNumberOf(metadata.value.source); }
  }

  // ---------------------------------------------------------------------------------------------
  // The parts of a written subtree
  // ---------------------------------------------------------------------------------------------

  function HandleRows(g: Generation, v3: bool): seq<Entry>
  {
    Rows(g.handles, (h: Handle, i: nat) => HandleEntry(h, i, g.number, v3))
  }

  function ProfileRows(g: Generation, v3: bool): seq<Entry>
  {
    Rows(g.profiles, (p: Profile, i: nat) => ProfileEntry(p, i, g.number, v3))
  }

  function CredentialRows(g: Generation, v3: bool): seq<Entry>
  {
    Rows(g.credentials, (c: Credential, i: nat) => CredentialEntry(c, i, g.number, v3))
  }

  function PolicyRows(g: Generation, v3: bool): seq<Entry>
  {
    Rows(g.policies, (q: Policy, i: nat) => PolicyEntry(q, i, g.number, v3))
  }

  function MaterialRows(g: Generation, v3: bool): seq<Entry>
  {
    Rows(g.materials, (m: KeyMaterial, i: nat) => MaterialEntry(m, i, g.number, v3))
  }

  lemma Segments(g: Generation, metadata: Option<Metadata>)
    ensures var v3 := metadata.Some?;
      BeforeMaterials(g, metadata) ==
        Skeleton(g.number, metadata) + HandleRows(g, v3) + ProfileRows(g, v3) + CredentialRows(g, v3) +
            PolicyRows(g, v3)
    ensures WriteSequence(g, metadata) == BeforeMaterials(g, metadata) + MaterialRows(g, metadata.Some?)
  {
    hide HandleEntry, ProfileEntry, CredentialEntry, PolicyEntry, MaterialEntry, RootEntry;
    var v3 := metadata.Some?;
    assert Rows(g.handles, (h: Handle, i: nat) => HandleEntry(h, i, g.number, v3)) == HandleRows(g, v3);
    assert Rows(g.profiles, (p: Profile, i: nat) => ProfileEntry(p, i, g.number, v3)) == ProfileRows(g, v3);
    assert Rows(g.credentials, (c: Credential, i: nat) => CredentialEntry(c, i, g.number, v3)) == CredentialRows(g, v3);
    assert Rows(g.policies, (q: Policy, i: nat) => PolicyEntry(q, i, g.number, v3)) == PolicyRows(g, v3);
    assert Rows(g.materials, (m: KeyMaterial, i: nat) => MaterialEntry(m, i, g.number, metadata.Some?)) ==
      MaterialRows(g, metadata.Some?);
  }

  /** A candidate that can be written: consistent, short enough, and with fitting metadata. */
  ghost predicate Writable(g: Generation, metadata: Option<Metadata>)
  {
    Consistent(g) && Bounded(g) && MetadataFits(metadata, g.number)
  }

  ghost predicate Spells<T>(s: seq<Entry>, xs: seq<T>, item: T -> Item, schema: string, n: Number, state: State)
  {
    |s| == |xs| && forall i :: 0 <= i < |s| ==> ReadItem(s[i], schema, n, state) == Some(item(xs[i]))
  }

  lemma RowsSpell(g: Generation, metadata: Option<Metadata>, state: State)
    requires Writable(g, metadata)
    ensures var v3, schema := metadata.Some?, SchemaOf(metadata);
      && Spells(HandleRows(g, v3), g.handles, (h: Handle) => HandleItem(h), schema, g.number, state)
      && Spells(ProfileRows(g, v3), g.profiles, (p: Profile) => ProfileItem(p), schema, g.number, state)
      && Spells(CredentialRows(g, v3), g.credentials, (c: Credential) => CredentialItem(c), schema, g.number, state)
      && Spells(PolicyRows(g, v3), g.policies, (q: Policy) => PolicyItem(q), schema, g.number, state)
      && Spells(MaterialRows(g, v3), g.materials, (m: KeyMaterial) => MaterialItem(m), schema, g.number, state)
  {
    hide Consistent, ReadItem, HandleEntry, ProfileEntry, CredentialEntry, PolicyEntry, MaterialEntry;
    var v3, n := metadata.Some?, g.number;
    GenerationsAgree(g);
    forall i | 0 <= i < |g.handles|
      ensures ReadItem(HandleRows(g, v3)[i], SchemaOf(metadata), n, state) == Some(HandleItem(g.handles[i]))
    {
      HandleReads(g.handles[i], i, n, v3, state);
    }
    forall i | 0 <= i < |g.profiles|
      ensures ReadItem(ProfileRows(g, v3)[i], SchemaOf(metadata), n, state) == Some(ProfileItem(g.profiles[i]))
    {
      ProfileReads(g.profiles[i], i, n, v3, state);
    }
    forall i | 0 <= i < |g.credentials|
      ensures ReadItem(CredentialRows(g, v3)[i], SchemaOf(metadata), n, state) == Some(CredentialItem(g.credentials[i]))
    {
      CredentialReads(g.credentials[i], i, n, v3, state);
    }
    forall i | 0 <= i < |g.policies|
      ensures ReadItem(PolicyRows(g, v3)[i], SchemaOf(metadata), n, state) == Some(PolicyItem(g.policies[i]))
    {
      PolicyReads(g.policies[i], i, n, v3, state);
    }
    forall i | 0 <= i < |g.materials|
      ensures ReadItem(MaterialRows(g, v3)[i], SchemaOf(metadata), n, state) == Some(MaterialItem(g.materials[i]))
    {
      MaterialReads(g.materials[i], i, n, v3, state);
    }
  }

  lemma GenerationsAgree(g: Generation)
    requires Consistent(g)
    ensures g.number > 0
    ensures forall i :: 0 <= i < |g.handles| ==> g.handles[i].generation == g.number
    ensures forall i :: 0 <= i < |g.profiles| ==> g.profiles[i].generation == g.number
    ensures forall i :: 0 <= i < |g.credentials| ==> g.credentials[i].generation == g.number
    ensures forall i :: 0 <= i < |g.policies| ==> g.policies[i].generation == g.number
    ensures forall i :: 0 <= i < |g.materials| ==> g.materials[i].generation == g.number
  {
    hide Apart, Owned, Keyed, Used, Unique;
    assert forall i :: 0 <= i < |g.handles| ==> g.handles[i] in g.handles;
    assert forall i :: 0 <= i < |g.profiles| ==> g.profiles[i] in g.profiles;
    forall i | 0 <= i < |g.credentials| ensures g.credentials[i].generation == g.number {
      assert CredentialLinked(g.credentials[i], g.number, g.handles, g.profiles);
    }
    forall i | 0 <= i < |g.policies| ensures g.policies[i].generation == g.number {
      assert PolicyLinked(g.policies[i], g.number, g.profiles);
    }
    forall i | 0 <= i < |g.materials| ensures g.materials[i].generation == g.number {
      assert MaterialLinked(g.materials[i], g.number, g.credentials, g.policies);
    }
  }

  lemma SkeletonReads(n: Number, metadata: Option<Metadata>, i: nat)
    requires n > 0 && MetadataFits(metadata, n) && i < 6
    ensures var item := ReadItem(Skeleton(n, metadata)[i], SchemaOf(metadata), n, Staging);
      item.Some? && (item.value.RootItem? || item.value.UnitItem?)
    ensures forall state :: i > 0 ==>
      ReadItem(Skeleton(n, metadata)[i], SchemaOf(metadata), n, state) ==
        ReadItem(Skeleton(n, metadata)[i], SchemaOf(metadata), n, Staging)
  {
    hide ReadItem, RootEntry, UnitEntry;
    RootReads(n, metadata);
    forall u, state ensures ReadItem(UnitEntry(u), SchemaOf(metadata), n, state) == Some(UnitItem(u)) {
      UnitReads(u, SchemaOf(metadata), n, state);
    }
  }

  /** No entry of a segment of another kind is picked. */
  lemma SpellsNone<T, U>(s: seq<Entry>, xs: seq<T>, item: T -> Item, schema: string, n: Number, state: State,
                         f: Entry -> Option<U>)
    requires Spells(s, xs, item, schema, n, state)
    requires forall i :: 0 <= i < |s| ==> f(s[i]).None?
    ensures Pick(s, f) == []
  {
    forall e | e in s ensures f(e).None? {
      var i :| 0 <= i < |s| && s[i] == e;
    }
    PickNone(s, f);
  }

  lemma PickFive<T>(a: seq<Entry>, b: seq<Entry>, c: seq<Entry>, d: seq<Entry>, e: seq<Entry>, f: Entry -> Option<T>)
    ensures Pick(a + b + c + d + e, f) == Pick(a, f) + Pick(b, f) + Pick(c, f) + Pick(d, f) + Pick(e, f)
  {
    PickAppend(a + b + c + d, e, f);
    PickAppend(a + b + c, d, f);
    PickAppend(a + b, c, f);
    PickAppend(a, b, f);
  }

  lemma SkeletonPicksNone<T>(n: Number, metadata: Option<Metadata>, schema: string, state: State, f: Entry -> Option<T>)
    requires n > 0 && MetadataFits(metadata, n) && schema == SchemaOf(metadata)
    requires forall e ::
      (ReadItem(e, schema, n, state).None? || ReadItem(e, schema, n, state).value.RootItem? ||
        ReadItem(e, schema, n, state).value.UnitItem?) ==>
        f(e).None?
    ensures Pick(Skeleton(n, metadata), f) == []
  {
    hide ReadItem, Pick, UnitEntry;
    var s := Skeleton(n, metadata);
    forall e | e in s ensures f(e).None? {
      var i :| 0 <= i < 6 && s[i] == e;
      SkeletonReads(n, metadata, i);
      if i == 0 { RootReadsAny(n, metadata, schema, state); }
    }
    PickNone(s, f);
  }

  lemma RootReadsAny(n: Number, metadata: Option<Metadata>, schema: string, state: State)
    ensures var item := ReadItem(RootEntry(n, metadata), schema, n, state); item.None? || item.value.RootItem?
  {
    hide RootReadable;
  }

  /** Everything written before the key owners: all records but no key. */
  lemma BeforeParts(g: Generation, metadata: Option<Metadata>, state: State)
    requires Writable(g, metadata)
    ensures PartsOf(BeforeMaterials(g, metadata), SchemaOf(metadata), g.number, state) ==
      Generation(g.number, state, g.handles, g.profiles, g.credentials, g.policies, [])
    ensures PartsOf(MaterialRows(g, metadata.Some?), SchemaOf(metadata), g.number, state) ==
      Generation(g.number, state, [], [], [], [], g.materials)
  {
    hide ReadItem, Pick, HandleRows, ProfileRows, CredentialRows, PolicyRows, MaterialRows, Skeleton, BeforeMaterials,
      WriteSequence, Writable;
    var v3, schema, n := metadata.Some?, SchemaOf(metadata), g.number;
    Segments(g, metadata);
    RowsSpell(g, metadata, state);
    WritableFacts(g, metadata);
    var a, b, c, d, e := Skeleton(n, metadata), HandleRows(g, v3), ProfileRows(g, v3), CredentialRows(g, v3),
        PolicyRows(g, v3);
    var m := MaterialRows(g, v3);
    var fh, fp, fc, fq, fm := HandlePicker(schema, n, state), ProfilePicker(schema, n, state),
        CredentialPicker(schema, n, state), PolicyPicker(schema, n, state), MaterialPicker(schema, n, state);
    HandlePart(a, b, c, d, e, m, g, metadata, state);
    ProfilePart(a, b, c, d, e, m, g, metadata, state);
    CredentialPart(a, b, c, d, e, m, g, metadata, state);
    PolicyPart(a, b, c, d, e, m, g, metadata, state);
    MaterialPart(a, b, c, d, e, m, g, metadata, state);
  }

  lemma WritableFacts(g: Generation, metadata: Option<Metadata>)
    requires Writable(g, metadata)
    ensures g.number > 0 && MetadataFits(metadata, g.number)
  {}

  /** The five written segments after the skeleton, each spelling its record list. */
  ghost predicate Spelled(a: seq<Entry>, b: seq<Entry>, c: seq<Entry>, d: seq<Entry>, e: seq<Entry>, m: seq<Entry>,
                          g: Generation, metadata: Option<Metadata>, state: State)
  {
    var schema, n := SchemaOf(metadata), g.number;
    && n > 0 && MetadataFits(metadata, n) && a == Skeleton(n, metadata)
    && Spells(b, g.handles, (h: Handle) => HandleItem(h), schema, n, state)
    && Spells(c, g.profiles, (p: Profile) => ProfileItem(p), schema, n, state)
    && Spells(d, g.credentials, (x: Credential) => CredentialItem(x), schema, n, state)
    && Spells(e, g.policies, (q: Policy) => PolicyItem(q), schema, n, state)
    && Spells(m, g.materials, (x: KeyMaterial) => MaterialItem(x), schema, n, state)
  }

  lemma HandlePart(a: seq<Entry>, b: seq<Entry>, c: seq<Entry>, d: seq<Entry>, e: seq<Entry>, m: seq<Entry>,
                   g: Generation, metadata: Option<Metadata>, state: State)
    requires Spelled(a, b, c, d, e, m, g, metadata, state)
    ensures var f := HandlePicker(SchemaOf(metadata), g.number, state);
      Pick(a + b + c + d + e, f) == g.handles && Pick(m, f) == []
  {
    hide ReadItem, Pick, Skeleton;
    var schema, n := SchemaOf(metadata), g.number;
    var f := HandlePicker(schema, n, state);
    PickFive(a, b, c, d, e, f);
    SkeletonPicksNone(n, metadata, schema, state, f);
    PickAll(b, g.handles, f);
    SpellsNone(c, g.profiles, (p: Profile) => ProfileItem(p), schema, n, state, f);
    SpellsNone(d, g.credentials, (x: Credential) => CredentialItem(x), schema, n, state, f);
    SpellsNone(e, g.policies, (q: Policy) => PolicyItem(q), schema, n, state, f);
    SpellsNone(m, g.materials, (x: KeyMaterial) => MaterialItem(x), schema, n, state, f);
  }

  lemma ProfilePart(a: seq<Entry>, b: seq<Entry>, c: seq<Entry>, d: seq<Entry>, e: seq<Entry>, m: seq<Entry>,
                    g: Generation, metadata: Option<Metadata>, state: State)
    requires Spelled(a, b, c, d, e, m, g, metadata, state)
    ensures var f := ProfilePicker(SchemaOf(metadata), g.number, state);
      Pick(a + b + c + d + e, f) == g.profiles && Pick(m, f) == []
  {
    hide ReadItem, Pick, Skeleton;
    var schema, n := SchemaOf(metadata), g.number;
    var f := ProfilePicker(schema, n, state);
    PickFive(a, b, c, d, e, f);
    SkeletonPicksNone(n, metadata, schema, state, f);
    SpellsNone(b, g.handles, (h: Handle) => HandleItem(h), schema, n, state, f);
    PickAll(c, g.profiles, f);
    SpellsNone(d, g.credentials, (x: Credential) => CredentialItem(x), schema, n, state, f);
    SpellsNone(e, g.policies, (q: Policy) => PolicyItem(q), schema, n, state, f);
    SpellsNone(m, g.materials, (x: KeyMaterial) => MaterialItem(x), schema, n, state, f);
  }

  lemma CredentialPart(a: seq<Entry>, b: seq<Entry>, c: seq<Entry>, d: seq<Entry>, e: seq<Entry>, m: seq<Entry>,
                       g: Generation, metadata: Option<Metadata>, state: State)
    requires Spelled(a, b, c, d, e, m, g, metadata, state)
    ensures var f := CredentialPicker(SchemaOf(metadata), g.number, state);
      Pick(a + b + c + d + e, f) == g.credentials && Pick(m, f) == []
  {
    hide ReadItem, Pick, Skeleton;
    var schema, n := SchemaOf(metadata), g.number;
    var f := CredentialPicker(schema, n, state);
    PickFive(a, b, c, d, e, f);
    SkeletonPicksNone(n, metadata, schema, state, f);
    SpellsNone(b, g.handles, (h: Handle) => HandleItem(h), schema, n, state, f);
    SpellsNone(c, g.profiles, (p: Profile) => ProfileItem(p), schema, n, state, f);
    PickAll(d, g.credentials, f);
    SpellsNone(e, g.policies, (q: Policy) => PolicyItem(q), schema, n, state, f);
    SpellsNone(m, g.materials, (x: KeyMaterial) => MaterialItem(x), schema, n, state, f);
  }

  lemma PolicyPart(a: seq<Entry>, b: seq<Entry>, c: seq<Entry>, d: seq<Entry>, e: seq<Entry>, m: seq<Entry>,
                   g: Generation, metadata: Option<Metadata>, state: State)
    requires Spelled(a, b, c, d, e, m, g, metadata, state)
    ensures var f := PolicyPicker(SchemaOf(metadata), g.number, state);
      Pick(a + b + c + d + e, f) == g.policies && Pick(m, f) == []
  {
    hide ReadItem, Pick, Skeleton;
    var schema, n := SchemaOf(metadata), g.number;
    var f := PolicyPicker(schema, n, state);
    PickFive(a, b, c, d, e, f);
    SkeletonPicksNone(n, metadata, schema, state, f);
    SpellsNone(b, g.handles, (h: Handle) => HandleItem(h), schema, n, state, f);
    SpellsNone(c, g.profiles, (p: Profile) => ProfileItem(p), schema, n, state, f);
    SpellsNone(d, g.credentials, (x: Credential) => CredentialItem(x), schema, n, state, f);
    PickAll(e, g.policies, f);
    SpellsNone(m, g.materials, (x: KeyMaterial) => MaterialItem(x), schema, n, state, f);
  }

  lemma MaterialPart(a: seq<Entry>, b: seq<Entry>, c: seq<Entry>, d: seq<Entry>, e: seq<Entry>, m: seq<Entry>,
                     g: Generation, metadata: Option<Metadata>, state: State)
    requires Spelled(a, b, c, d, e, m, g, metadata, state)
    ensures var f := MaterialPicker(SchemaOf(metadata), g.number, state);
      Pick(a + b + c + d + e, f) == [] && Pick(m, f) == g.materials
  {
    hide ReadItem, Pick, Skeleton;
    var schema, n := SchemaOf(metadata), g.number;
    var f := MaterialPicker(schema, n, state);
    PickFive(a, b, c, d, e, f);
    SkeletonPicksNone(n, metadata, schema, state, f);
    SpellsNone(b, g.handles, (h: Handle) => HandleItem(h), schema, n, state, f);
    SpellsNone(c, g.profiles, (p: Profile) => ProfileItem(p), schema, n, state, f);
    SpellsNone(d, g.credentials, (x: Credential) => CredentialItem(x), schema, n, state, f);
    SpellsNone(e, g.policies, (q: Policy) => PolicyItem(q), schema, n, state, f);
    PickAll(m, g.materials, f);
  }

  // ---------------------------------------------------------------------------------------------
  // Names of a written subtree
  // ---------------------------------------------------------------------------------------------

  ghost predicate InUnit(s: seq<Entry>, u: Unit, v3: bool)
  {
    forall i :: 0 <= i < |s| ==> s[i].dn == RecordDn(u, RecordCn(i, v3))
  }

  lemma UnitDistinct(s: seq<Entry>, u: Unit, v3: bool)
    requires InUnit(s, u, v3)
    ensures DistinctNames(s) && forall e :: e in s ==> e.dn.RecordDn? && e.dn.unit == u
  {
    forall i, j | 0 <= i < j < |s| ensures s[i].dn != s[j].dn {
      if RecordCn(i, v3) == RecordCn(j, v3) { RecordCnInjective(i, j, v3); }
    }
  }

  lemma AppendDistinct(s: seq<Entry>, t: seq<Entry>)
    requires DistinctNames(s) && DistinctNames(t) && forall x, y :: x in s && y in t ==> x.dn != y.dn
    ensures DistinctNames(s + t)
  {
    forall i, j | 0 <= i < j < |s + t| ensures (s + t)[i].dn != (s + t)[j].dn {
      if i < |s| <= j { assert s[i] in s && t[j - |s|] in t; }
    }
  }

  lemma RowsInUnits(g: Generation, v3: bool)
    ensures InUnit(HandleRows(g, v3), HandlesUnit, v3) && InUnit(ProfileRows(g, v3), ProfilesUnit, v3)
    ensures InUnit(CredentialRows(g, v3), CredentialsUnit, v3) && InUnit(PolicyRows(g, v3), PoliciesUnit, v3)
    ensures InUnit(MaterialRows(g, v3), MaterialsUnit, v3)
  {
    hide RecordCn;
  }

  lemma SkeletonDistinct(n: Number, metadata: Option<Metadata>)
    ensures DistinctNames(Skeleton(n, metadata)) && forall e :: e in Skeleton(n, metadata) ==> !e.dn.RecordDn?
  {}

  /** No two adds of one candidate use the same name. */
  lemma WriteDistinct(g: Generation, metadata: Option<Metadata>)
    ensures DistinctNames(WriteSequence(g, metadata))
  {
    hide InUnit, HandleRows, ProfileRows, CredentialRows, PolicyRows, MaterialRows, Skeleton, BeforeMaterials,
      WriteSequence, DistinctNames;
    var v3 := metadata.Some?;
    Segments(g, metadata);
    RowsInUnits(g, v3);
    SkeletonDistinct(g.number, metadata);
    var a, b, c, d, e, m := Skeleton(g.number, metadata), HandleRows(g, v3), ProfileRows(g, v3), CredentialRows(g, v3),
        PolicyRows(g, v3), MaterialRows(g, v3);
    UnitDistinct(b, HandlesUnit, v3);
    UnitDistinct(c, ProfilesUnit, v3);
    UnitDistinct(d, CredentialsUnit, v3);
    UnitDistinct(e, PoliciesUnit, v3);
    UnitDistinct(m, MaterialsUnit, v3);
    AppendDistinct(a, b);
    AppendDistinct(a + b, c);
    AppendDistinct(a + b + c, d);
    AppendDistinct(a + b + c + d, e);
    AppendDistinct(a + b + c + d + e, m);
  }

  lemma SpellsReads<T>(s: seq<Entry>, xs: seq<T>, item: T -> Item, schema: string, n: Number, state: State)
    requires Spells(s, xs, item, schema, n, state)
    ensures AllRead(s, schema, n, state)
  {
    hide ReadItem;
    forall e | e in s ensures ReadItem(e, schema, n, state).Some? {
      var i :| 0 <= i < |s| && s[i] == e;
    }
  }

  lemma AppendReads(s: seq<Entry>, t: seq<Entry>, schema: string, n: Number, state: State)
    requires AllRead(s, schema, n, state) && AllRead(t, schema, n, state)
    ensures AllRead(s + t, schema, n, state)
  {
    hide ReadItem;
  }

  lemma SkeletonAllRead(n: Number, metadata: Option<Metadata>)
    requires n > 0 && MetadataFits(metadata, n)
    ensures AllRead(Skeleton(n, metadata), SchemaOf(metadata), n, Staging)
    ensures HasItem(Skeleton(n, metadata), SchemaOf(metadata), n, Staging, RootItem)
    ensures forall u :: HasItem(Skeleton(n, metadata), SchemaOf(metadata), n, Staging, UnitItem(u))
  {
    hide ReadItem, RootEntry, UnitEntry;
    var s := Skeleton(n, metadata);
    RootReads(n, metadata);
    forall u, state ensures ReadItem(UnitEntry(u), SchemaOf(metadata), n, state) == Some(UnitItem(u)) {
      UnitReads(u, SchemaOf(metadata), n, state);
    }
    assert s[0] in s;
    forall u ensures HasItem(s, SchemaOf(metadata), n, Staging, UnitItem(u)) {
      assert UnitEntry(u) in s by {
        match u
        case HandlesUnit => assert s[1] == UnitEntry(u);
        case ProfilesUnit => assert s[2] == UnitEntry(u);
        case CredentialsUnit => assert s[3] == UnitEntry(u);
        case PoliciesUnit => assert s[4] == UnitEntry(u);
        case MaterialsUnit => assert s[5] == UnitEntry(u);
      }
    }
  }

  /** Every add of a candidate reads back, and the fixed skeleton is among them. */
  lemma WriteReads(g: Generation, metadata: Option<Metadata>)
    requires Writable(g, metadata)
    ensures AllRead(WriteSequence(g, metadata), SchemaOf(metadata), g.number, Staging)
    ensures forall e :: e in Skeleton(g.number, metadata) ==> e in WriteSequence(g, metadata)
    ensures |WriteSequence(g, metadata)| >= 6
  {
    hide ReadItem, HandleRows, ProfileRows, CredentialRows, PolicyRows, MaterialRows, Skeleton, BeforeMaterials,
      WriteSequence, Writable, AllRead, Spells;
    var v3, schema, n := metadata.Some?, SchemaOf(metadata), g.number;
    WritableFacts(g, metadata);
    Segments(g, metadata);
    RowsSpell(g, metadata, Staging);
    SkeletonAllRead(n, metadata);
    var a, b, c, d, e, m := Skeleton(n, metadata), HandleRows(g, v3), ProfileRows(g, v3), CredentialRows(g, v3),
        PolicyRows(g, v3), MaterialRows(g, v3);
    SpellsReads(b, g.handles, (h: Handle) => HandleItem(h), schema, n, Staging);
    SpellsReads(c, g.profiles, (p: Profile) => ProfileItem(p), schema, n, Staging);
    SpellsReads(d, g.credentials, (x: Credential) => CredentialItem(x), schema, n, Staging);
    SpellsReads(e, g.policies, (q: Policy) => PolicyItem(q), schema, n, Staging);
    SpellsReads(m, g.materials, (x: KeyMaterial) => MaterialItem(x), schema, n, Staging);
    AppendReads(a, b, schema, n, Staging);
    AppendReads(a + b, c, schema, n, Staging);
    AppendReads(a + b + c, d, schema, n, Staging);
    AppendReads(a + b + c + d, e, schema, n, Staging);
    AppendReads(a + b + c + d + e, m, schema, n, Staging);
    SkeletonSize(n, metadata);
    assert WriteSequence(g, metadata) == a + (b + c + d + e + m);
  }

  lemma SkeletonSize(n: Number, metadata: Option<Metadata>)
    ensures |Skeleton(n, metadata)| == 6 && Skeleton(n, metadata)[0] == RootEntry(n, metadata)
  {}

  // ---------------------------------------------------------------------------------------------
  // The round trip
  // ---------------------------------------------------------------------------------------------

  lemma WriteParts(g: Generation, metadata: Option<Metadata>, state: State)
    requires Writable(g, metadata)
    ensures PartsOf(WriteSequence(g, metadata), SchemaOf(metadata), g.number, state) == g.(state := state)
  {
    hide ReadItem, Pick, MaterialRows, BeforeMaterials, WriteSequence, Writable;
    Segments(g, metadata);
    BeforeParts(g, metadata, state);
    PartsAppend(BeforeMaterials(g, metadata), MaterialRows(g, metadata.Some?), SchemaOf(metadata), g.number, state);
  }

  /** The parts of two joined entry lists. */
  lemma PartsAppend(s: seq<Entry>, t: seq<Entry>, schema: string, n: Number, state: State)
    ensures var x, y, z := PartsOf(s, schema, n, state), PartsOf(t, schema, n, state), PartsOf(s + t, schema, n, state);
      && z.handles == x.handles + y.handles && z.profiles == x.profiles + y.profiles
      && z.credentials == x.credentials + y.credentials
      && z.policies == x.policies + y.policies && z.materials == x.materials + y.materials
  {
    hide ReadItem, Pick;
    PickAppend(s, t, HandlePicker(schema, n, state));
    PickAppend(s, t, ProfilePicker(schema, n, state));
    PickAppend(s, t, CredentialPicker(schema, n, state));
    PickAppend(s, t, PolicyPicker(schema, n, state));
    PickAppend(s, t, MaterialPicker(schema, n, state));
  }

  lemma PartsPermuted(s: seq<Entry>, t: seq<Entry>, schema: string, n: Number, state: State)
    requires multiset(s) == multiset(t)
    ensures SameRecords(PartsOf(s, schema, n, state), PartsOf(t, schema, n, state))
  {
    hide ReadItem, Pick;
    PickPermuted(s, t, HandlePicker(schema, n, state));
    PickPermuted(s, t, ProfilePicker(schema, n, state));
    PickPermuted(s, t, CredentialPicker(schema, n, state));
    PickPermuted(s, t, PolicyPicker(schema, n, state));
    PickPermuted(s, t, MaterialPicker(schema, n, state));
  }

  lemma PermutedNames(s: seq<Entry>, t: seq<Entry>)
    requires multiset(s) == multiset(t) && DistinctNames(t)
    ensures DistinctNames(s) && |s| == |t| && forall e :: e in s <==> e in t
  {
    assert Unique(t);
    PermutedUnique(s, t);
    forall i, j | 0 <= i < j < |s| ensures s[i].dn != s[j].dn {
      assert s[i] in t && s[j] in t && s[i] != s[j];
      var x, y :| 0 <= x < |t| && 0 <= y < |t| && t[x] == s[i] && t[y] == s[j];
    }
  }

  /** The metadata fits the candidate it is stored with. */
  ghost predicate MetadataSeals(metadata: Option<Metadata>, g: Generation)
  {
    metadata.Some? ==> (forall m :: m in g.materials ==> m.privatePkcs8 != []) && Commits(metadata.value, g)
  }

  lemma WriteSealed(g: Generation, metadata: Option<Metadata>, s: seq<Entry>)
    requires Writable(g, metadata) && MetadataSeals(metadata, g) && multiset(s) == multiset(WriteSequence(g, metadata))
    requires SameRecords(PartsOf(s, SchemaOf(metadata), g.number, Staging), g.(state := Staging))
    ensures Sealed(s, SchemaOf(metadata), g.number, Staging)
  {
    hide ReadItem, Pick, WriteSequence, Consistent, PartsOf, Commits, MetadataReadable;
    var parts := PartsOf(s, SchemaOf(metadata), g.number, Staging);
    assert SCHEMA_V2 != SCHEMA_V3 by { assert SCHEMA_V2[|SCHEMA_V2| - 1] != SCHEMA_V3[|SCHEMA_V3| - 1]; }
    if metadata.Some? {
      PermutedElements(parts, g.(state := Staging));
      CommittedConsistent(g, Staging);
      CommitmentIgnoresOrderAndState(metadata.value, g, g.(state := Staging));
      CommitmentIgnoresOrderAndState(metadata.value, g.(state := Staging), parts);
      WriteDistinct(g, metadata);
      PermutedNames(s, WriteSequence(g, metadata));
      WriteReads(g, metadata);
      SkeletonSize(g.number, metadata);
      RootReads(g.number, metadata);
      forall e | e in s && e.dn == RootDn ensures e == RootEntry(g.number, metadata) {
        assert RootEntry(g.number, metadata) in Skeleton(g.number, metadata);
        var i, j :| 0 <= i < |s| && 0 <= j < |s| && s[i] == e && s[j] == RootEntry(g.number, metadata);
      }
    }
  }

  /** Whatever order the directory returns the entries in, the written candidate is read back: the same records under
      the same number, in state staging. */
  lemma WrittenReadsBack(g: Generation, metadata: Option<Metadata>, s: seq<Entry>, limit: nat)
    requires Writable(g, metadata) && MetadataSeals(metadata, g) && multiset(s) == multiset(WriteSequence(g, metadata))
    requires |s| <= limit
    ensures Readable(s, SchemaOf(metadata), g.number, Staging, limit)
    ensures SameRecords(PartsOf(s, SchemaOf(metadata), g.number, Staging), g.(state := Staging))
  {
    hide ReadItem, Pick, WriteSequence, Consistent, PartsOf, MetadataSeals, Sealed, HasItem, SameRecords;
    var schema, n := SchemaOf(metadata), g.number;
    WritableFacts(g, metadata);
    WriteParts(g, metadata, Staging);
    PartsPermuted(s, WriteSequence(g, metadata), schema, n, Staging);
    WriteDistinct(g, metadata);
    PermutedNames(s, WriteSequence(g, metadata));
    WriteReads(g, metadata);
    SkeletonAllRead(n, metadata);
    MoreItems(Skeleton(n, metadata), s, schema, n, Staging);
    CommittedConsistent(g, Staging);
    ConsistentEitherWay(PartsOf(s, schema, n, Staging), g.(state := Staging));
    WriteSealed(g, metadata, s);
  }

  lemma MoreItems(s: seq<Entry>, t: seq<Entry>, schema: string, n: Number, state: State)
    requires forall e :: e in s ==> e in t
    ensures forall item :: HasItem(s, schema, n, state, item) ==> HasItem(t, schema, n, state, item)
  {
    hide ReadItem;
  }

  // ---------------------------------------------------------------------------------------------
  // Interrupted writes
  // ---------------------------------------------------------------------------------------------

  lemma {:induction false} PickPrefix<T>(s: seq<Entry>, k: nat, f: Entry -> Option<T>)
    requires k <= |s|
    ensures |Pick(s[..k], f)| <= |Pick(s, f)|
  {
    PickAppend(s[..k], s[k..], f);
    assert s == s[..k] + s[k..];
  }

  lemma {:induction false} PickShorter<T>(s: seq<Entry>, k: nat, xs: seq<T>, f: Entry -> Option<T>)
    requires k < |s| == |xs| && forall i :: 0 <= i < |s| ==> f(s[i]) == Some(xs[i])
    ensures |Pick(s[..k], f)| == k
  {
    PickAll(s[..k], xs[..k], f);
  }

  /** The parts of a cut write never have as many key owners as handles, or have none at all. */
  lemma PrefixParts(g: Generation, metadata: Option<Metadata>, k: nat, state: State)
    requires Writable(g, metadata) && k < |WriteSequence(g, metadata)|
    ensures var parts := PartsOf(WriteSequence(g, metadata)[..k], SchemaOf(metadata), g.number, state);
      |parts.materials| != |parts.handles| || parts.materials == []
  {
    hide ReadItem, Pick, MaterialRows, BeforeMaterials, WriteSequence, Writable;
    var before, m := BeforeMaterials(g, metadata), MaterialRows(g, metadata.Some?);
    var schema, n := SchemaOf(metadata), g.number;
    Segments(g, metadata);
    BeforeParts(g, metadata, state);
    if k <= |before| {
      assert WriteSequence(g, metadata)[..k] == before[..k];
      PickPrefix(before, k, MaterialPicker(schema, n, state));
    } else {
      var j := k - |before|;
      assert WriteSequence(g, metadata)[..k] == before + m[..j];
      PartsAppend(before, m[..j], schema, n, state);
      RowsSpell(g, metadata, state);
      PickShorter(m, j, g.materials, MaterialPicker(schema, n, state));
      PickPrefix(m, j, HandlePicker(schema, n, state));
      WritableSizes(g, metadata);
    }
  }

  lemma WritableSizes(g: Generation, metadata: Option<Metadata>)
    requires Writable(g, metadata)
    ensures |g.handles| == |g.materials|
  {
    ConsistentSizes(g);
  }

  /** A write cut short before its last add is never taken for a generation, in whatever order it is read. */
  lemma InterruptedWriteRejected(g: Generation, metadata: Option<Metadata>, k: nat, s: seq<Entry>, schema: string,
                                 state: State, limit: nat)
    requires Writable(g, metadata) && k < |WriteSequence(g, metadata)|
    requires multiset(s) == multiset(WriteSequence(g, metadata)[..k])
    ensures !Readable(s, schema, g.number, state, limit)
  {
    hide ReadItem, Pick, WriteSequence, Consistent, PartsOf, Sealed, HasItem, SameRecords, Writable;
    var w := WriteSequence(g, metadata)[..k];
    assert |multiset(s)| == |s| && |multiset(w)| == |w|;
    if Readable(s, schema, g.number, state, limit) {
      PrefixHasRoot(g, metadata, k, s);
      SchemaForced(s, SchemaOf(metadata), schema, g.number, state, limit);
      PrefixParts(g, metadata, k, state);
      PartsPermuted(s, w, schema, g.number, state);
      PermutedElements(PartsOf(s, schema, g.number, state), PartsOf(w, schema, g.number, state));
      ConsistentSizes(PartsOf(s, schema, g.number, state));
      assert false;
    }
  }

  lemma PrefixHasRoot(g: Generation, metadata: Option<Metadata>, k: nat, s: seq<Entry>)
    requires Writable(g, metadata) && 0 < k < |WriteSequence(g, metadata)|
    requires multiset(s) == multiset(WriteSequence(g, metadata)[..k])
    ensures SchemaIs(s, SchemaOf(metadata))
  {
    hide BeforeMaterials, Writable;
    var w := WriteSequence(g, metadata);
    Segments(g, metadata);
    SkeletonSize(g.number, metadata);
    assert w[0] == RootEntry(g.number, metadata);
    assert w[..k][0] in multiset(w[..k]);
    assert RootEntry(g.number, metadata) in s;
  }
}

/** Directory entries of one generation: the ordered write of a candidate and the exact mapping that reads it back. */
module Mapper {
  import opened Wrappers
  import opened Text
  import opened Records
  import opened Generations
  import opened Candidate

  // ---------------------------------------------------------------------------------------------
  // Entries
  // ---------------------------------------------------------------------------------------------

  const SCHEMA_V1 := "dkim2-datasource-v1"

  const SCHEMA_V2 := "dkim2-datasource-v2"

  datatype Unit = HandlesUnit | ProfilesUnit | CredentialsUnit | PoliciesUnit | MaterialsUnit

  function UnitName(u: Unit): string
  {
    match u
    case HandlesUnit => "handles"
    case ProfilesUnit => "profiles"
    case CredentialsUnit => "credentials"
    case PoliciesUnit => "policies"
    case MaterialsUnit => "key-material"
  }

  /** A distinguished name, relative to the root of one generation. */
  datatype Dn = RootDn | UnitDn(unit: Unit) | RecordDn(unit: Unit, cn: string) | ForeignDn(name: string)

  /** The structural class of an entry; the root of a v3 generation has the auxiliary metadata class as well. */
  datatype Class = Dataset | MetadataDataset | OrganizationalUnit | HandleClass | ProfileClass | CredentialClass
      | PolicyClass | MaterialClass | ForeignClass

  datatype Attribute =
    | Cn | Ou | SchemaVersion | GenerationNumber | DatasetState | HandleId | ProfileId | SigningDomain | RecordStatus
    | NotBefore | NotAfter
    | AlgorithmAttr | SelectorAttr | PublicKey | TenantId | ProfileUse | RolloutAttr | CompatibilityAttr | FeedbackRoute
    | PrivateKey
    | CandidateDigest | OperationId | WasActive | SourceGeneration | ForeignAttr(name: string)

  /** What is stored under one attribute: one text, one octet string, or anything that is not exactly one value. */
  datatype Value = Text(text: string) | Octets(octets: Bytes) | NotSingle

  datatype Entry = Entry(dn: Dn, class_: Class, values: map<Attribute, Value>)

  // ---------------------------------------------------------------------------------------------
  // Canonical decimals
  // ---------------------------------------------------------------------------------------------

  function DigitChar(d: nat): char
    requires d < 10
  {
    '0' + d as char
  }

  function Decimal(n: nat): (s: string)
    ensures s != "" && forall c :: c in s ==> '0' <= c <= '9'
  {
    if n < 10 then [DigitChar(n)] else Decimal(n / 10) + [DigitChar(n % 10)]
  }

  function ParseDigits(s: string): Option<nat>
  {
    if s == "" then None
    else
      var c := s[|s| - 1];
      if !('0' <= c <= '9') then None
      else if |s| == 1 then Some((c - '0') as nat)
      else match ParseDigits(s[..|s| - 1])
        case None => None
        case Some(v) => Some(10 * v + (c - '0') as nat)
  }

  lemma {:induction false} ParseOfDecimal(n: nat)
    ensures ParseDigits(Decimal(n)) == Some(n)
  {
    if n >= 10 {
      ParseOfDecimal(n / 10);
      assert Decimal(n)[..|Decimal(n)| - 1] == Decimal(n / 10);
    }
  }

  /** A canonical positive 64-bit decimal. */
  function ParseNumber(s: string): (r: Option<Number>)
    ensures r.Some? ==> r.value > 0 && Decimal(r.value) == s
  {
    match ParseDigits(s)
    case None => None
    case Some(v) => if 0 < v <= MAX_NUMBER && Decimal(v) == s then Some(v) else None
  }

  lemma ParseNumberOf(n: Number)
    requires n > 0
    ensures ParseNumber(Decimal(n)) == Some(n)
  {
    ParseOfDecimal(n);
  }

  lemma DecimalInjective(n: nat, m: nat)
    requires Decimal(n) == Decimal(m)
    ensures n == m
  {
    ParseOfDecimal(n);
    ParseOfDecimal(m);
  }

  function RecordCn(index: nat, v3: bool): string { if v3 then "record-" + Decimal(index + 1) else Decimal(index + 1) }

  /** The storage name grammar of the schema. */
  predicate ValidCn(cn: string, schema: string)
  {
    if schema == SCHEMA_V3 then |cn| > 7 && cn[..7] == "record-" && ParseNumber(cn[7..]).Some?
    else (schema == SCHEMA_V1 || schema == SCHEMA_V2) && ParseNumber(cn).Some?
  }

  lemma RecordCnValid(index: nat, v3: bool)
    requires index < MAX_NUMBER
    ensures ValidCn(RecordCn(index, v3), if v3 then SCHEMA_V3 else SCHEMA_V2)
  {
    ParseNumberOf(index + 1);
    if v3 { assert RecordCn(index, v3)[7..] == Decimal(index + 1); }
  }

  lemma RecordCnInjective(i: nat, j: nat, v3: bool)
    requires RecordCn(i, v3) == RecordCn(j, v3)
    ensures i == j
  {
    if v3 { assert RecordCn(i, v3)[7..] == Decimal(i + 1) && RecordCn(j, v3)[7..] == Decimal(j + 1); }
    DecimalInjective(i + 1, j + 1);
  }

  // ---------------------------------------------------------------------------------------------
  // The ordered write
  // ---------------------------------------------------------------------------------------------

  function StateName(s: State): string { match s case Staging => "staging" case Committed => "committed" }

  function RootName(n: Number): string { "generation-" + Decimal(n) }

  function RootEntry(n: Number, metadata: Option<Metadata>): Entry
  {
    var common := map[Cn := Text(RootName(n)), SchemaVersion := Text(if metadata.Some? then SCHEMA_V3 else SCHEMA_V2),
                      GenerationNumber := Text(Decimal(n)), DatasetState := Text(StateName(Staging))];
    match metadata
    case None => Entry(RootDn, Dataset, common)
    case Some(m) =>
      Entry(RootDn, MetadataDataset,
            common + map[SourceGeneration := Text(Decimal(m.source)), OperationId := Text(m.operation),
                         CandidateDigest := Octets(m.commitment)])
  }

  function UnitEntry(u: Unit): Entry { Entry(UnitDn(u), OrganizationalUnit, map[Ou := Text(UnitName(u))]) }

  function HandleEntry(h: Handle, index: nat, n: Number, v3: bool): Entry
  {
    Entry(RecordDn(HandlesUnit, RecordCn(index, v3)), HandleClass,
          map[Cn := Text(RecordCn(index, v3)), GenerationNumber := Text(Decimal(n)), HandleId := Text(h.id)])
  }

  function ProfileEntry(p: Profile, index: nat, n: Number, v3: bool): Entry
  {
    var common := map[Cn := Text(RecordCn(index, v3)), GenerationNumber := Text(Decimal(n)), ProfileId := Text(p.id),
                      SigningDomain := Text(p.domain), RecordStatus := Text(StatusName(p.status))];
    Entry(RecordDn(ProfilesUnit, RecordCn(index, v3)), ProfileClass,
          match p.window
          case None => common
          case Some(w) => common[NotBefore := Text(w.notBefore)][NotAfter := Text(w.notAfter)])
  }

  function CredentialEntry(c: Credential, index: nat, n: Number, v3: bool): Entry
  {
    Entry(RecordDn(CredentialsUnit, RecordCn(index, v3)), CredentialClass,
          map[Cn := Text(RecordCn(index, v3)), GenerationNumber := Text(Decimal(n)), ProfileId := Text(c.profileId),
              AlgorithmAttr := Text(AlgorithmName(c.algorithm)), SelectorAttr := Text(c.selector),
              PublicKey := Octets(c.publicSpki),
              HandleId := Text(c.handleId)])
  }

  function PolicyEntry(q: Policy, index: nat, n: Number, v3: bool): Entry
  {
    var common := map[Cn := Text(RecordCn(index, v3)), GenerationNumber := Text(Decimal(n)), TenantId := Text(q.tenant),
                      SigningDomain := Text(q.domain), ProfileUse := Text(UseName(q.use)),
                      ProfileId := Text(q.profileId),
                      RecordStatus := Text(StatusName(q.status)), RolloutAttr := Text(RolloutName(q.rollout)),
                      CompatibilityAttr := Text(CompatibilityName(q.compatibility))];
    Entry(RecordDn(PoliciesUnit, RecordCn(index, v3)), PolicyClass,
          if q.route.Some? then common[FeedbackRoute := Text(q.route.value)] else common)
  }

  function MaterialEntry(m: KeyMaterial, index: nat, n: Number, v3: bool): Entry
  {
    Entry(RecordDn(MaterialsUnit, RecordCn(index, v3)), MaterialClass,
          map[Cn := Text(RecordCn(index, v3)), GenerationNumber := Text(Decimal(n)), TenantId := Text(m.tenant),
              SigningDomain := Text(m.domain), ProfileUse := Text(UseName(m.use)), HandleId := Text(m.handleId),
              AlgorithmAttr := Text(AlgorithmName(m.algorithm)), PublicKey := Octets(m.publicSpki),
              PrivateKey := Octets(m.privatePkcs8)])
  }

  function Rows<T>(s: seq<T>, row: (T, nat) -> Entry): seq<Entry> { seq(|s|, i requires 0 <= i < |s| => row(s[i], i)) }

  function Skeleton(n: Number, metadata: Option<Metadata>): seq<Entry>
  {
    [RootEntry(n, metadata), UnitEntry(HandlesUnit), UnitEntry(ProfilesUnit), UnitEntry(CredentialsUnit),
        UnitEntry(PoliciesUnit), UnitEntry(MaterialsUnit)]
  }

  function BeforeMaterials(g: Generation, metadata: Option<Metadata>): seq<Entry>
  {
    var v3 := metadata.Some?;
    Skeleton(g.number, metadata)
    + Rows(g.handles, (h: Handle, i: nat) => HandleEntry(h, i, g.number, v3))
    + Rows(g.profiles, (p: Profile, i: nat) => ProfileEntry(p, i, g.number, v3))
    + Rows(g.credentials, (c: Credential, i: nat) => CredentialEntry(c, i, g.number, v3))
    + Rows(g.policies, (q: Policy, i: nat) => PolicyEntry(q, i, g.number, v3))
  }

  /** The adds of one staged candidate, in order. */
  function WriteSequence(g: Generation, metadata: Option<Metadata>): seq<Entry>
  {
    BeforeMaterials(g, metadata) + Rows(g.materials,
        (m: KeyMaterial, i: nat) => MaterialEntry(m, i, g.number, metadata.Some?))
  }

  // ---------------------------------------------------------------------------------------------
  // Reading one entry
  // ---------------------------------------------------------------------------------------------

  /** All required attributes, no foreign one, one value each. */
  predicate Exact(e: Entry, required: set<Attribute>, optional: set<Attribute>)
  {
    required <= e.values.Keys <= required + optional && forall a :: a in e.values ==> e.values[a] != NotSingle
  }

  predicate HasText(e: Entry, a: Attribute) { a in e.values && e.values[a].Text? }

  predicate HasId(e: Entry, a: Attribute) { HasText(e, a) && ValidIdentifier(e.values[a].text) }

  predicate HasName(e: Entry, a: Attribute) { HasText(e, a) && CanonicalDnsName(e.values[a].text) }

  predicate HasOctets(e: Entry, a: Attribute) { a in e.values && e.values[a].Octets? }

  predicate HasKey(e: Entry, a: Attribute) { HasOctets(e, a) && 0 < |e.values[a].octets| <= MAX_SPKI_BYTES }

  predicate IsInstant(s: string) { |s| <= 35 && forall c :: c in s ==> ' ' <= c <= '~' }

  predicate HasInstant(e: Entry, a: Attribute) { HasText(e, a) && IsInstant(e.values[a].text) }

  /** The entry sits under its fixed unit, named by its own canonical sequence number. */
  predicate RecordAt(e: Entry, unit: Unit, schema: string)
  {
    HasText(e, Cn) && ValidCn(e.values[Cn].text, schema) && e.dn == RecordDn(unit, e.values[Cn].text)
  }

  predicate OfGeneration(e: Entry, n: Number)
  {
    HasText(e, GenerationNumber) && ParseNumber(e.values[GenerationNumber].text) == Some(n)
  }

  function ParseStatus(s: string): Option<Status>
  {
    if s == "active" then Some(Active) else if s == "disabled" then Some(Disabled) else None
  }

  function ParseRollout(s: string): Option<Rollout>
  {
    if s == "enforce" then Some(Enforce)
    else if s == "observe" then Some(Observe) else if s == "off" then Some(Off) else None
  }

  function ParseUse(s: string): Option<Use>
  {
    if s == "originator" then Some(Originator) else if s == "ordinary_transit" then Some(OrdinaryTransit)
    else if s == "next_domain_transit" then Some(NextDomainTransit)
    else if s == "delivery_status" then Some(DeliveryStatus) else None
  }

  function ParseAlgorithm(s: string): Option<Algorithm>
  {
    if s == "rsa-sha256" then Some(RsaSha256) else if s == "ed25519-sha256" then Some(Ed25519Sha256)
    else if s == "mldsa44-ed25519-sha512" then Some(MlDsa44Ed25519Sha512) else None
  }

  predicate HasStatus(e: Entry) { HasText(e, RecordStatus) && ParseStatus(e.values[RecordStatus].text).Some? }

  predicate HasUse(e: Entry) { HasText(e, ProfileUse) && ParseUse(e.values[ProfileUse].text).Some? }

  predicate HasAlgorithm(e: Entry) { HasText(e, AlgorithmAttr) && ParseAlgorithm(e.values[AlgorithmAttr].text).Some? }

  function ReadHandle(e: Entry, schema: string, n: Number): Option<Handle>
  {
    if Exact(e, {Cn, GenerationNumber, HandleId}, {}) && RecordAt(e, HandlesUnit, schema) &&
       OfGeneration(e, n) && HasId(e, HandleId)
    then Some(Handle(n, e.values[HandleId].text))
    else None
  }

  /** Both validity bounds or neither. */
  predicate WindowReadable(e: Entry)
  {
    && (NotBefore in e.values <==> NotAfter in e.values)
    && (NotBefore in e.values ==> HasInstant(e, NotBefore) && HasInstant(e, NotAfter))
  }

  function ReadWindow(e: Entry): Option<Window>
    requires WindowReadable(e)
  {
    if NotBefore in e.values then Some(Window(e.values[NotBefore].text, e.values[NotAfter].text)) else None
  }

  function ReadProfile(e: Entry, schema: string, n: Number): Option<Profile>
  {
    if Exact(e, {Cn, GenerationNumber, ProfileId, SigningDomain, RecordStatus}, {NotBefore, NotAfter}) &&
       RecordAt(e, ProfilesUnit, schema) && OfGeneration(e, n) && HasStatus(e) && WindowReadable(e) &&
       HasId(e, ProfileId) && HasName(e, SigningDomain)
    then Some(Profile(n, e.values[ProfileId].text, e.values[SigningDomain].text,
                      ParseStatus(e.values[RecordStatus].text).value, ReadWindow(e)))
    else None
  }

  function ReadCredential(e: Entry, schema: string, n: Number): Option<Credential>
  {
    if Exact(e, {Cn, GenerationNumber, ProfileId, AlgorithmAttr, SelectorAttr, PublicKey, HandleId}, {}) &&
       RecordAt(e, CredentialsUnit, schema) && OfGeneration(e, n) && HasAlgorithm(e) &&
       HasId(e, ProfileId) && HasName(e, SelectorAttr) && HasKey(e, PublicKey) && HasId(e, HandleId)
    then Some(Credential(n, e.values[ProfileId].text, e.values[SelectorAttr].text,
                         ParseAlgorithm(e.values[AlgorithmAttr].text).value,
                         e.values[PublicKey].octets, e.values[HandleId].text))
    else None
  }

  predicate RouteReadable(e: Entry) { FeedbackRoute in e.values ==> HasId(e, FeedbackRoute) }

  function ReadPolicy(e: Entry, schema: string, n: Number): Option<Policy>
  {
    if Exact(e, {Cn, GenerationNumber, TenantId, SigningDomain, ProfileUse, ProfileId, RecordStatus, RolloutAttr,
                 CompatibilityAttr}, {FeedbackRoute}) &&
       RecordAt(e, PoliciesUnit, schema) && OfGeneration(e, n) && HasUse(e) && HasStatus(e) &&
       HasText(e, RolloutAttr) && ParseRollout(e.values[RolloutAttr].text).Some? &&
       HasText(e, CompatibilityAttr) && e.values[CompatibilityAttr].text == "strict" &&
       HasId(e, TenantId) && HasName(e, SigningDomain) && HasId(e, ProfileId) && RouteReadable(e)
    then Some(Policy(n, e.values[TenantId].text, e.values[SigningDomain].text,
                     ParseUse(e.values[ProfileUse].text).value, e.values[ProfileId].text,
                     ParseStatus(e.values[RecordStatus].text).value, ParseRollout(e.values[RolloutAttr].text).value,
                     Strict, if FeedbackRoute in e.values then Some(e.values[FeedbackRoute].text) else None))
    else None
  }

  function ReadMaterial(e: Entry, schema: string, n: Number): Option<KeyMaterial>
  {
    if Exact(e, {Cn, GenerationNumber, TenantId, SigningDomain, ProfileUse, HandleId, AlgorithmAttr, PublicKey,
                 PrivateKey}, {}) &&
       RecordAt(e, MaterialsUnit, schema) && OfGeneration(e, n) && HasUse(e) &&
       Native(ParseUse(e.values[ProfileUse].text).value) && HasAlgorithm(e) && HasId(e, TenantId) &&
       HasName(e, SigningDomain) && HasId(e, HandleId) && HasKey(e, PublicKey) && HasOctets(e, PrivateKey)
    then Some(KeyMaterial(n, e.values[TenantId].text, e.values[SigningDomain].text,
                          ParseUse(e.values[ProfileUse].text).value, e.values[HandleId].text,
                          ParseAlgorithm(e.values[AlgorithmAttr].text).value, e.values[PublicKey].octets,
                          e.values[PrivateKey].octets))
    else None
  }

  function ReadUnit(e: Entry): Option<Unit>
  {
    if e.dn.UnitDn? && Exact(e, {Ou}, {}) && e.values[Ou] == Text(UnitName(e.dn.unit)) then Some(e.dn.unit) else None
  }

  predicate MetadataReadable(e: Entry, n: Number)
  {
    && HasText(e, SourceGeneration) && ParseNumber(e.values[SourceGeneration].text).Some?
    && ParseNumber(e.values[SourceGeneration].text).value < n
    && HasText(e, OperationId) && ValidOperation(e.values[OperationId].text)
    && HasOctets(e, CandidateDigest)
  }

  function ReadMetadata(e: Entry, n: Number): Metadata
    requires MetadataReadable(e, n)
  {
    Metadata(e.values[OperationId].text, ParseNumber(e.values[SourceGeneration].text).value, n,
             e.values[CandidateDigest].octets)
  }

  /** The root entry of generation `n` in the given schema and state. */
  predicate RootReadable(e: Entry, schema: string, n: Number, state: State)
  {
    && e.dn == RootDn && (schema == SCHEMA_V2 || schema == SCHEMA_V3)
    && e.class_ == (if schema == SCHEMA_V3 then MetadataDataset else Dataset)
    && Exact(e, {Cn, SchemaVersion, GenerationNumber, DatasetState} +
         (if schema == SCHEMA_V3 then {CandidateDigest, OperationId, SourceGeneration} else {}), {WasActive})
    && e.values[SchemaVersion] == Text(schema) && e.values[Cn] == Text(RootName(n))
    && e.values[DatasetState] == Text(StateName(state))
    && OfGeneration(e, n)
    && (schema == SCHEMA_V3 ==> MetadataReadable(e, n))
  }

  /** What one entry contributes. */
  datatype Item = RootItem | UnitItem(unit: Unit) | HandleItem(handle: Handle) | ProfileItem(profile: Profile)
                | CredentialItem(credential: Credential) | PolicyItem(policy: Policy)
                | MaterialItem(material: KeyMaterial)

  function ReadItem(e: Entry, schema: string, n: Number, state: State): Option<Item>
  {
    match e.class_
    case Dataset => if RootReadable(e, schema, n, state) then Some(RootItem) else None
    case MetadataDataset => if RootReadable(e, schema, n, state) then Some(RootItem) else None
    case OrganizationalUnit => (match ReadUnit(e) case None => None case Some(u) => Some(UnitItem(u)))
    case HandleClass => (match ReadHandle(e, schema, n) case None => None case Some(h) => Some(HandleItem(h)))
    case ProfileClass => (match ReadProfile(e, schema, n) case None => None case Some(p) => Some(ProfileItem(p)))
    case CredentialClass =>
      (match ReadCredential(e, schema, n) case None => None case Some(c) => Some(CredentialItem(c)))
    case PolicyClass => (match ReadPolicy(e, schema, n) case None => None case Some(q) => Some(PolicyItem(q)))
    case MaterialClass => (match ReadMaterial(e, schema, n) case None => None case Some(m) => Some(MaterialItem(m)))
    case ForeignClass => None
  }

  // ---------------------------------------------------------------------------------------------
  // Reading a subtree
  // ---------------------------------------------------------------------------------------------

  /** The values picked out of a sequence, in order. */
  function Pick<T>(s: seq<Entry>, f: Entry -> Option<T>): seq<T>
  {
    if s == [] then []
    else
      var rest := Pick(s[..|s| - 1], f);
      match f(s[|s| - 1]) case None => rest case Some(x) => rest + [x]
  }

  function HandlePicker(schema: string, n: Number, state: State): Entry -> Option<Handle>
  {
    e => match ReadItem(e, schema, n, state) case Some(HandleItem(h)) => Some(h) case _ => None
  }

  function ProfilePicker(schema: string, n: Number, state: State): Entry -> Option<Profile>
  {
    e => match ReadItem(e, schema, n, state) case Some(ProfileItem(p)) => Some(p) case _ => None
  }

  function CredentialPicker(schema: string, n: Number, state: State): Entry -> Option<Credential>
  {
    e => match ReadItem(e, schema, n, state) case Some(CredentialItem(c)) => Some(c) case _ => None
  }

  function PolicyPicker(schema: string, n: Number, state: State): Entry -> Option<Policy>
  {
    e => match ReadItem(e, schema, n, state) case Some(PolicyItem(q)) => Some(q) case _ => None
  }

  function MaterialPicker(schema: string, n: Number, state: State): Entry -> Option<KeyMaterial>
  {
    e => match ReadItem(e, schema, n, state) case Some(MaterialItem(m)) => Some(m) case _ => None
  }

  /** The record set a subtree spells out. */
  function PartsOf(s: seq<Entry>, schema: string, n: Number, state: State): Generation
  {
    Generation(n, state, Pick(s, HandlePicker(schema, n, state)), Pick(s, ProfilePicker(schema, n, state)),
        Pick(s, CredentialPicker(schema, n, state)),
               Pick(s, PolicyPicker(schema, n, state)), Pick(s, MaterialPicker(schema, n, state)))
  }

  ghost predicate DistinctNames(s: seq<Entry>) { forall i, j :: 0 <= i < j < |s| ==> s[i].dn != s[j].dn }

  ghost predicate AllRead(s: seq<Entry>, schema: string, n: Number, state: State)
  {
    forall e :: e in s ==> ReadItem(e, schema, n, state).Some?
  }

  ghost predicate HasItem(s: seq<Entry>, schema: string, n: Number, state: State, item: Item)
  {
    exists e :: e in s && ReadItem(e, schema, n, state) == Some(item)
  }

  /** The root's schema version, when exactly one is given. */
  ghost predicate SchemaIs(s: seq<Entry>, schema: string)
  {
    exists e :: e in s && e.dn == RootDn && HasText(e, SchemaVersion) && e.values[SchemaVersion].text == schema
  }

  /** A v3 root's commitment matches the records. */
  ghost predicate Sealed(s: seq<Entry>, schema: string, n: Number, state: State)
  {
    schema == SCHEMA_V3 ==>
      (forall m :: m in PartsOf(s, schema, n, state).materials ==> m.privatePkcs8 != []) &&
      forall e :: e in s && e.dn == RootDn && MetadataReadable(e, n) ==>
      Commits(ReadMetadata(e, n), PartsOf(s, schema, n, state))
  }

  /** What the mapping accepts. */
  ghost predicate Readable(s: seq<Entry>, schema: string, n: Number, state: State, limit: nat)
  {
    && n > 0 && 6 <= |s| <= limit && DistinctNames(s) && AllRead(s, schema, n, state)
    && HasItem(s, schema, n, state, RootItem) && (forall u :: HasItem(s, schema, n, state, UnitItem(u)))
    && Consistent(PartsOf(s, schema, n, state)) && Sealed(s, schema, n, state)
  }

  /** The names seen and the parts collected after a prefix. */
  ghost predicate Collected(s: seq<Entry>, schema: string, n: Number, state: State, parts: Generation, rootSeen: bool,
                            units: set<Unit>, names: set<Dn>)
  {
    && AllRead(s, schema, n, state) && DistinctNames(s) && parts == PartsOf(s, schema, n, state)
    && (rootSeen <==> HasItem(s, schema, n, state, RootItem))
    && (forall u :: u in units <==> HasItem(s, schema, n, state, UnitItem(u)))
    && names == (set e | e in s :: e.dn)
  }

  /** The part lists after one more item. */
  function AddItem(parts: Generation, item: Item): Generation
  {
    match item
    case RootItem => parts
    case UnitItem(_) => parts
    case HandleItem(h) => parts.(handles := parts.handles + [h])
    case ProfileItem(p) => parts.(profiles := parts.profiles + [p])
    case CredentialItem(c) => parts.(credentials := parts.credentials + [c])
    case PolicyItem(q) => parts.(policies := parts.policies + [q])
    case MaterialItem(m) => parts.(materials := parts.materials + [m])
  }

  lemma PartsStep(s: seq<Entry>, e: Entry, schema: string, n: Number, state: State, item: Item)
    requires ReadItem(e, schema, n, state) == Some(item)
    ensures PartsOf(s + [e], schema, n, state) == AddItem(PartsOf(s, schema, n, state), item)
  {
    hide ReadItem;
    assert (s + [e])[..|s|] == s;
  }

  lemma ItemStep(s: seq<Entry>, e: Entry, schema: string, n: Number, state: State, item: Item, other: Item)
    requires ReadItem(e, schema, n, state) == Some(item)
    ensures HasItem(s + [e], schema, n, state, other) <==> HasItem(s, schema, n, state, other) || item == other
  {
    hide ReadItem;
    assert forall x :: x in s + [e] <==> x in s || x == e;
    if item == other { assert e in s + [e]; }
    if HasItem(s, schema, n, state, other) {
      var x :| x in s && ReadItem(x, schema, n, state) == Some(other);
      assert x in s + [e];
    }
  }

  lemma CollectedStep(s: seq<Entry>, e: Entry, schema: string, n: Number, state: State, item: Item,
                      parts: Generation, rootSeen: bool, units: set<Unit>, names: set<Dn>)
    requires Collected(s, schema, n, state, parts, rootSeen, units, names)
    requires ReadItem(e, schema, n, state) == Some(item) && e.dn !in names
    ensures Collected(s + [e], schema, n, state, AddItem(parts, item), rootSeen || item == RootItem,
                      units + (if item.UnitItem? then {item.unit} else {}), names + {e.dn})
  {
    hide ReadItem, PartsOf, HasItem, AddItem;
    PartsStep(s, e, schema, n, state, item);
    ItemStep(s, e, schema, n, state, item, RootItem);
    forall u
      ensures HasItem(s + [e], schema, n, state, UnitItem(u)) <==>
        HasItem(s, schema, n, state, UnitItem(u)) || item == UnitItem(u)
    {
      ItemStep(s, e, schema, n, state, item, UnitItem(u));
    }
    assert forall x :: x in s + [e] <==> x in s || x == e;
    assert forall i :: 0 <= i < |s| ==> s[i] in s && s[i].dn in names;
  }

  lemma CollectedNone(schema: string, n: Number, state: State)
    ensures Collected([], schema, n, state, Generation(n, state, [], [], [], [], []), false, {}, {})
  {}

  lemma Rejected(s: seq<Entry>, i: nat, schema: string, n: Number, state: State, limit: nat, names: set<Dn>)
    requires i < |s| && names == (set e | e in s[..i] :: e.dn)
    requires s[i].dn in names || ReadItem(s[i], schema, n, state).None?
    ensures !Readable(s, schema, n, state, limit)
  {
    hide ReadItem, PartsOf, HasItem, Sealed;
    assert s[i] in s;
    if s[i].dn in names {
      var e :| e in s[..i] && e.dn == s[i].dn;
      var j :| 0 <= j < i && s[..i][j] == e;
      assert s[j].dn == s[i].dn;
    }
  }

  method FindSchema(s: seq<Entry>) returns (schema: Option<string>)
    ensures schema.Some? ==> SchemaIs(s, schema.value)
    ensures schema.None? ==> forall n, state, limit, text :: !Readable(s, text, n, state, limit)
  {
    hide Consistent, PartsOf, Sealed;
    for i := 0 to |s|
      invariant forall j :: 0 <= j < i ==> s[j].dn != RootDn
    {
      if s[i].dn == RootDn {
        if SchemaVersion in s[i].values && s[i].values[SchemaVersion].Text? {
          return Some(s[i].values[SchemaVersion].text);
        }
        assert s[i] in s;
        forall n, state, limit, text ensures !Readable(s, text, n, state, limit) {
          RootNeedsSchema(s, i, text, n, state, limit);
        }
        return None;
      }
    }
    forall n, state, limit, text ensures !Readable(s, text, n, state, limit) { RootNeeded(s, text, n, state, limit); }
    schema := None;
  }

  lemma RootNeeded(s: seq<Entry>, schema: string, n: Number, state: State, limit: nat)
    requires forall j :: 0 <= j < |s| ==> s[j].dn != RootDn
    ensures !Readable(s, schema, n, state, limit)
  {
    hide Consistent, PartsOf, Sealed, Exact, ReadHandle, ReadProfile, ReadCredential, ReadPolicy, ReadMaterial,
      ReadUnit;
    forall e | e in s ensures ReadItem(e, schema, n, state) != Some(RootItem) {
      var j :| 0 <= j < |s| && s[j] == e;
    }
  }

  lemma RootNeedsSchema(s: seq<Entry>, i: nat, schema: string, n: Number, state: State, limit: nat)
    requires i < |s| && s[i].dn == RootDn && !HasText(s[i], SchemaVersion)
    ensures !Readable(s, schema, n, state, limit)
  {
    hide Consistent, PartsOf, Sealed, Exact;
    assert s[i] in s;
    if AllRead(s, schema, n, state) {
      assert ReadItem(s[i], schema, n, state).Some?;
      RootItemOnly(s[i], schema, n, state);
    }
  }

  lemma RootItemOnly(e: Entry, schema: string, n: Number, state: State)
    requires ReadItem(e, schema, n, state).Some? && e.dn == RootDn
    ensures ReadItem(e, schema, n, state) == Some(RootItem) && RootReadable(e, schema, n, state)
    ensures SchemaVersion in e.values && e.values[SchemaVersion] == Text(schema)
  {}

  lemma SizesNeeded(s: seq<Entry>, n: Number, state: State, limit: nat)
    requires n == 0 || |s| < 6 || |s| > limit
    ensures forall schema :: !Readable(s, schema, n, state, limit)
  {
    hide Consistent, PartsOf, Sealed, HasItem, AllRead, DistinctNames;
  }

  /** Only the schema on the root itself can make the subtree readable. */
  lemma SchemaForced(s: seq<Entry>, schema: string, other: string, n: Number, state: State, limit: nat)
    requires SchemaIs(s, schema) && Readable(s, other, n, state, limit)
    ensures other == schema
  {
    hide Consistent, PartsOf, Sealed, HasItem, RootReadable, ReadItem;
    var e :| e in s && e.dn == RootDn && HasText(e, SchemaVersion) && e.values[SchemaVersion].text == schema;
    assert ReadItem(e, other, n, state).Some?;
    RootItemOnly(e, other, n, state);
  }

  lemma CollectedNames(s: seq<Entry>, schema: string, n: Number, state: State, parts: Generation, rootSeen: bool,
                       units: set<Unit>, names: set<Dn>)
    requires Collected(s, schema, n, state, parts, rootSeen, units, names)
    ensures names == set e | e in s :: e.dn
  {}

  const ALL_UNITS: set<Unit> := {HandlesUnit, ProfilesUnit, CredentialsUnit, PoliciesUnit, MaterialsUnit}

  lemma UnitSet(units: set<Unit>)
    ensures units == ALL_UNITS <==> forall u: Unit :: u in units
  {
    forall u | u in units ensures u in ALL_UNITS {
      match u
      case HandlesUnit => case ProfilesUnit => case CredentialsUnit => case PoliciesUnit => case MaterialsUnit =>
    }
    forall u: Unit | u in ALL_UNITS
      ensures u == HandlesUnit || u == ProfilesUnit || u == CredentialsUnit || u == PoliciesUnit || u == MaterialsUnit
    {}
    if units == ALL_UNITS {
      forall u: Unit ensures u in units {
        match u
        case HandlesUnit => case ProfilesUnit => case CredentialsUnit => case PoliciesUnit => case MaterialsUnit =>
      }
    }
  }

  lemma CollectedMeaning(s: seq<Entry>, schema: string, n: Number, state: State, parts: Generation, rootSeen: bool,
                         units: set<Unit>, names: set<Dn>, limit: nat)
    requires Collected(s, schema, n, state, parts, rootSeen, units, names) && n > 0 && 6 <= |s| <= limit
    ensures parts == PartsOf(s, schema, n, state) && AllRead(s, schema, n, state) && DistinctNames(s)
    ensures rootSeen ==> HasItem(s, schema, n, state, RootItem)
    ensures Readable(s, schema, n, state, limit) <==>
      rootSeen && units == ALL_UNITS && Consistent(parts) && Sealed(s, schema, n, state)
  {
    hide Consistent, PartsOf, Sealed, HasItem, ReadItem, DistinctNames, AllRead;
    UnitSet(units);
  }

  /** The metadata on the root of a v3 subtree. */
  method RootMetadata(s: seq<Entry>, schema: string, n: Number, state: State) returns (metadata: Metadata)
    requires AllRead(s, schema, n, state) && schema == SCHEMA_V3 && HasItem(s, schema, n, state, RootItem)
    ensures exists e :: e in s && e.dn == RootDn && MetadataReadable(e, n) && metadata == ReadMetadata(e, n)
  {
    hide ReadItem, RootReadable;
    RootPresent(s, schema, n, state);
    var i := 0;
    while s[i].dn != RootDn
      invariant 0 <= i < |s| && forall j :: 0 <= j < i ==> s[j].dn != RootDn
      decreases |s| - i
    {
      if i + 1 == |s| {
        ghost var e :| e in s && e.dn == RootDn;
        ghost var j :| 0 <= j < |s| && s[j] == e;
        assert false;
      }
      i := i + 1;
    }
    assert s[i] in s;
    assert ReadItem(s[i], schema, n, state).Some?;
    RootItemOnly(s[i], schema, n, state);
    RootHasMetadata(s[i], n, state);
    metadata := ReadMetadata(s[i], n);
  }

  lemma RootPresent(s: seq<Entry>, schema: string, n: Number, state: State)
    requires HasItem(s, schema, n, state, RootItem)
    ensures s != [] && exists e :: e in s && e.dn == RootDn
  {
    hide Exact, ReadHandle, ReadProfile, ReadCredential, ReadPolicy, ReadMaterial, ReadUnit;
    var e :| e in s && ReadItem(e, schema, n, state) == Some(RootItem);
    assert e.dn == RootDn;
  }

  lemma RootHasMetadata(e: Entry, n: Number, state: State)
    requires RootReadable(e, SCHEMA_V3, n, state)
    ensures MetadataReadable(e, n)
  {
    hide Exact;
  }

  lemma SealDecides(s: seq<Entry>, schema: string, n: Number, state: State, g: Generation, m: Metadata)
    requires schema == SCHEMA_V3 && DistinctNames(s) && n > 0
    requires exists e :: e in s && e.dn == RootDn && MetadataReadable(e, n) && m == ReadMetadata(e, n)
    requires Consistent(g) && SameRecords(g, PartsOf(s, schema, n, state))
    ensures Sealed(s, schema, n, state) <==>
      m.source != 0 && g.number > m.source && (forall x :: x in g.materials ==> x.privatePkcs8 != []) && Commits(m, g)
  {
    hide Consistent, PartsOf, Commits;
    var parts := PartsOf(s, schema, n, state);
    var e :| e in s && e.dn == RootDn && MetadataReadable(e, n) && m == ReadMetadata(e, n);
    PartsNumber(s, schema, n, state);
    PermutedElements(g, parts);
    CommitmentIgnoresOrderAndState(m, g, parts);
    forall x | x in s && x.dn == RootDn ensures x == e {
      var i, j :| 0 <= i < |s| && 0 <= j < |s| && s[i] == x && s[j] == e;
    }
  }

  lemma PartsNumber(s: seq<Entry>, schema: string, n: Number, state: State)
    ensures PartsOf(s, schema, n, state).number == n && PartsOf(s, schema, n, state).state == state
  {}

  lemma SealedV2(s: seq<Entry>, schema: string, n: Number, state: State)
    requires schema != SCHEMA_V3
    ensures Sealed(s, schema, n, state)
  {}

  /** The constructor and, for a v3 root, the commitment decide over the collected parts. */
  method FinishMapping(entries: seq<Entry>, schema: string, n: Number, state: State, parts: Generation)
      returns (result: Result<Generation>)
    requires AllRead(entries, schema, n, state) && DistinctNames(entries)
    requires HasItem(entries, schema, n, state, RootItem) && n > 0
    requires parts == PartsOf(entries, schema, n, state)
    ensures result.Ok? <==> Consistent(parts) && Sealed(entries, schema, n, state)
    ensures result.Ok? ==> Valid(result.value) && SameRecords(result.value, parts)
  {
    hide Consistent, Canonical, PartsOf, ReadItem, Sealed, SameRecords, HasItem, AllRead, DistinctNames, ReadMetadata,
      MetadataReadable;
    result := NewGeneration(parts);
    if result.Err? { return; }
    if schema == SCHEMA_V3 {
      var metadata := RootMetadata(entries, schema, n, state);
      var intact := ValidateCandidate(metadata, result.value);
      SealDecides(entries, schema, n, state, result.value, metadata);
      if !intact { return Err(Invalid); }
    } else {
      SealedV2(entries, schema, n, state);
    }
  }

  /** Maps one exact closed subtree through the domain constructor; anything else is rejected. */
  method MapGeneration(entries: seq<Entry>, n: Number, state: State, limit: nat) returns (result: Result<Generation>)
    ensures result.Ok? <==> exists schema :: Readable(entries, schema, n, state, limit)
    ensures result.Ok? ==> Valid(result.value)
    ensures result.Ok? ==>
      exists schema ::
        Readable(entries, schema, n, state, limit) && SameRecords(result.value, PartsOf(entries, schema, n, state))
  {
    hide Consistent, Canonical, PartsOf, ReadItem, Sealed, SameRecords, Collected, Readable, HasItem, AllRead,
      DistinctNames, AddItem;
    if n == 0 || |entries| < 6 || |entries| > limit {
      SizesNeeded(entries, n, state, limit);
      return Err(Invalid);
    }
    var found := FindSchema(entries);
    if found.None? { return Err(Invalid); }
    var schema := found.value;
    forall other | Readable(entries, other, n, state, limit) ensures other == schema {
      SchemaForced(entries, schema, other, n, state, limit);
    }
    var parts := Generation(n, state, [], [], [], [], []);
    var rootSeen, units, names := false, {}, {};
    CollectedNone(schema, n, state);
    for i := 0 to |entries|
      invariant Collected(entries[..i], schema, n, state, parts, rootSeen, units, names)
    {
      CollectedNames(entries[..i], schema, n, state, parts, rootSeen, units, names);
      var item := ReadItem(entries[i], schema, n, state);
      if entries[i].dn in names || item.None? {
        Rejected(entries, i, schema, n, state, limit, names);
        return Err(Invalid);
      }
      CollectedStep(entries[..i], entries[i], schema, n, state, item.value, parts, rootSeen, units, names);
      assert entries[..i + 1] == entries[..i] + [entries[i]];
      parts := AddItem(parts, item.value);
      rootSeen := rootSeen || item.value == RootItem;
      units := units + (if item.value.UnitItem? then {item.value.unit} else {});
      names := names + {entries[i].dn};
    }
    assert entries[..|entries|] == entries;
    CollectedMeaning(entries, schema, n, state, parts, rootSeen, units, names, limit);
    if !rootSeen || units != ALL_UNITS { return Err(Invalid); }
    result := FinishMapping(entries, schema, n, state, parts);
  }
}

/** The closed vocabularies and the five record kinds of one numbered snapshot. */
module Records {
  import opened Wrappers
  import opened Text
  import opened Order

  const MAX_NUMBER := 0xFFFF_FFFF_FFFF_FFFF

  /** A 64-bit generation number; zero names no generation. */
  type Number = n: nat | n <= MAX_NUMBER

  datatype Algorithm = RsaSha256 | Ed25519Sha256 | MlDsa44Ed25519Sha512

  const MAX_CREDENTIALS_PER_PROFILE := 3

  /** The canonical signing order. */
  function Rank(a: Algorithm): int
  {
    match a
    case RsaSha256 => 0
    case Ed25519Sha256 => 1
    case MlDsa44Ed25519Sha512 => 2
  }

  function AlgorithmName(a: Algorithm): string
  {
    match a
    case RsaSha256 => "rsa-sha256"
    case Ed25519Sha256 => "ed25519-sha256"
    case MlDsa44Ed25519Sha512 => "mldsa44-ed25519-sha512"
  }

  datatype Use = Originator | OrdinaryTransit | NextDomainTransit | DeliveryStatus

  function UseName(u: Use): string
  {
    match u
    case Originator => "originator"
    case OrdinaryTransit => "ordinary_transit"
    case NextDomainTransit => "next_domain_transit"
    case DeliveryStatus => "delivery_status"
  }

  /** Uses whose private keys are held natively. */
  predicate Native(u: Use) { u != NextDomainTransit }

  type NativeUse = u: Use | Native(u) witness Originator

  const MAX_SPKI_BYTES := 2048

  /** Public key bytes as a credential accepts them. */
  type Spki = s: Bytes | 0 < |s| <= MAX_SPKI_BYTES witness [0]

  datatype Status = Active | Disabled

  datatype Rollout = Enforce | Observe | Off

  datatype Compatibility = Strict

  datatype State = Staging | Committed

  /** An instant, as its canonical UTC text. */
  type Instant = s: string | |s| <= 35 && (forall c :: c in s ==> ' ' <= c <= '~') witness ""

  datatype Window = Window(notBefore: Instant, notAfter: Instant)

  datatype Handle = Handle(generation: Number, id: Id)

  datatype Profile = Profile(generation: Number, id: Id, domain: DnsName, status: Status, window: Option<Window>)

  datatype Credential = Credential(generation: Number, profileId: Id, selector: DnsName, algorithm: Algorithm,
                                   publicSpki: Spki, handleId: Id)

  datatype Policy = Policy(generation: Number, tenant: Id, domain: DnsName, use: Use, profileId: Id, status: Status,
                           rollout: Rollout, compatibility: Compatibility, route: Option<Id>)

  datatype KeyMaterial = KeyMaterial(generation: Number, tenant: Id, domain: DnsName, use: NativeUse, handleId: Id,
                                     algorithm: Algorithm, publicSpki: Spki, privatePkcs8: Bytes)

  datatype BindingKey = BindingKey(tenant: Id, domain: DnsName, use: Use)

  function PolicyBinding(p: Policy): BindingKey { BindingKey(p.tenant, p.domain, p.use) }

  function MaterialBinding(m: KeyMaterial): BindingKey { BindingKey(m.tenant, m.domain, m.use) }

  /** The exact tuple key the source uses for maps and for sorting. */
  function PolicyKey(b: BindingKey): string { b.tenant + "\0" + (b.domain + "\0" + UseName(b.use)) }

  lemma UseNameInjective(u: Use, v: Use)
    requires UseName(u) == UseName(v)
    ensures u == v
  {
    assert UseName(u)[0] == UseName(v)[0];
    assert |UseName(u)| == |UseName(v)|;
  }

  lemma AlgorithmNameInjective(a: Algorithm, b: Algorithm)
    requires AlgorithmName(a) == AlgorithmName(b)
    ensures a == b
  {
    assert AlgorithmName(a)[0] == AlgorithmName(b)[0];
  }

  /** Separator text never makes two bindings collide. */
  lemma PolicyKeyInjective(a: BindingKey, b: BindingKey)
    requires PolicyKey(a) == PolicyKey(b)
    ensures a == b
  {
    IdPrintable(a.tenant);
    IdPrintable(b.tenant);
    DnsNamePrintable(a.domain);
    DnsNamePrintable(b.domain);
    SeparatedInjective(a.tenant, a.domain + "\0" + UseName(a.use), b.tenant, b.domain + "\0" + UseName(b.use));
    SeparatedInjective(a.domain, UseName(a.use), b.domain, UseName(b.use));
    UseNameInjective(a.use, b.use);
  }

  // Canonical record order.

  function HandleKey(h: Handle): Key { Key(h.id, 0, "") }

  function ProfileKey(p: Profile): Key { Key(p.id, 0, "") }

  function CredentialKey(c: Credential): Key { Key(c.profileId, Rank(c.algorithm), c.selector) }

  function PolicySortKey(p: Policy): Key { Key(PolicyKey(PolicyBinding(p)), 0, "") }

  function MaterialKey(m: KeyMaterial): Key { Key(m.handleId, 0, "") }

  function BindingSortKey(b: BindingKey): Key { Key(PolicyKey(b), 0, "") }

  function AlgorithmKey(a: Algorithm): Key { Key("", Rank(a), "") }

  // Renumbering changes the generation of a record and nothing else.

  function RebaseHandle(h: Handle, n: Number): Handle { h.(generation := n) }

  function RebaseProfile(p: Profile, n: Number): Profile { p.(generation := n) }

  function RebaseCredential(c: Credential, n: Number): Credential { c.(generation := n) }

  function RebasePolicy(p: Policy, n: Number): Policy { p.(generation := n) }

  function RebaseMaterial(m: KeyMaterial, n: Number): KeyMaterial { m.(generation := n) }

  /** The owner name of a selector fits in a DNS name. */
  predicate OwnerFits(domain: DnsName, selector: DnsName)
  {
    |selector| + |"._domainkey."| + |domain| <= 253 &&
    |Split(selector, '.')| + |Split(domain, '.')| + 1 <= 127
  }
}

/** What a consistent snapshot means: which profiles and policies it holds and which key sits in which slot.
    Planners and validators are specified on this table; record order and numbering play no part in it. */
module Snapshots {
  import opened Wrappers
  import opened Text
  import opened Order
  import opened Records
  import opened Generations

  datatype ProfileFacts = ProfileFacts(domain: DnsName, status: Status, window: Option<Window>)

  datatype PolicyFacts = PolicyFacts(profile: Id, status: Status, rollout: Rollout, compatibility: Compatibility,
      route: Option<Id>)

  /** A credential together with the key material its handle names. */
  datatype Slot = Slot(selector: DnsName, handle: Id, publicSpki: Spki, binding: BindingKey, privatePkcs8: Bytes)

  datatype View = View(profiles: map<Id, ProfileFacts>, policies: map<BindingKey, PolicyFacts>,
      slots: map<SlotKey, Slot>)

  function FactsOfProfile(p: Profile): ProfileFacts { ProfileFacts(p.domain, p.status, p.window) }

  function FactsOfPolicy(q: Policy): PolicyFacts
  {
    PolicyFacts(q.profileId, q.status, q.rollout, q.compatibility, q.route)
  }

  function MakeSlot(c: Credential, m: KeyMaterial): Slot
  {
    Slot(c.selector, c.handleId, c.publicSpki, MaterialBinding(m), m.privatePkcs8)
  }

  ghost function MaterialFor(materials: seq<KeyMaterial>, handleId: Id): KeyMaterial
    requires Keyed(handleId, materials)
  {
    var m :| m in materials && m.handleId == handleId; m
  }

  ghost function ProfileIds(profiles: seq<Profile>): set<Id> { set p | p in profiles :: p.id }

  ghost function ProfileFor(profiles: seq<Profile>, id: Id): (p: Profile)
    requires id in ProfileIds(profiles)
    ensures p in profiles && p.id == id
  {
    var p :| p in profiles && p.id == id; p
  }

  ghost function ProfileTable(g: Generation): map<Id, ProfileFacts>
    requires Consistent(g)
  {
    map id | id in ProfileIds(g.profiles) :: FactsOfProfile(ProfileFor(g.profiles, id))
  }

  ghost function PolicyBindings(policies: seq<Policy>): set<BindingKey> { set q | q in policies :: PolicyBinding(q) }

  ghost function PolicyFor(policies: seq<Policy>, b: BindingKey): (q: Policy)
    requires b in PolicyBindings(policies)
    ensures q in policies && PolicyBinding(q) == b
  {
    var q :| q in policies && PolicyBinding(q) == b; q
  }

  ghost function PolicyTable(g: Generation): map<BindingKey, PolicyFacts>
    requires Consistent(g)
  {
    map b | b in PolicyBindings(g.policies) :: FactsOfPolicy(PolicyFor(g.policies, b))
  }

  lemma CredentialsKeyed(g: Generation)
    requires Consistent(g)
    ensures forall c :: c in g.credentials ==> Keyed(c.handleId, g.materials)
    ensures forall c, d :: c in g.credentials && d in g.credentials && CredentialSlot(c) == CredentialSlot(d) ==> c == d
  {
    forall c, d | c in g.credentials && d in g.credentials && CredentialSlot(c) == CredentialSlot(d) ensures c == d {
      assert c != d ==> Apart(c, d);
    }
  }

  ghost function CredentialFor(credentials: seq<Credential>, k: SlotKey): (c: Credential)
    requires k in CredentialSlots(credentials)
    ensures c in credentials && CredentialSlot(c) == k
  {
    var c :| c in credentials && CredentialSlot(c) == k; c
  }

  ghost function SlotTable(g: Generation): map<SlotKey, Slot>
    requires Consistent(g)
  {
    CredentialsKeyed(g);
    map k | k in CredentialSlots(g.credentials) ::
      var c := CredentialFor(g.credentials, k);
      MakeSlot(c, MaterialFor(g.materials, c.handleId))
  }

  ghost function ViewOf(g: Generation): View
    requires Consistent(g)
  {
    View(ProfileTable(g), PolicyTable(g), SlotTable(g))
  }

  /** The credential and the material behind one slot. */
  ghost predicate Behind(g: Generation, k: SlotKey, c: Credential, m: KeyMaterial)
  {
    c in g.credentials && m in g.materials && CredentialSlot(c) == k && m.handleId == c.handleId
  }

  lemma SlotIntro(g: Generation, k: SlotKey, c: Credential, m: KeyMaterial)
    requires Consistent(g) && Behind(g, k, c, m)
    ensures k in SlotTable(g) && SlotTable(g)[k] == MakeSlot(c, m)
    ensures c.algorithm == m.algorithm && c.publicSpki == m.publicSpki
  {
    hide CredentialLinked, ValidPolicies, ValidProfiles, ValidHandles;
    CredentialsKeyed(g);
    assert k in SlotTable(g);
    assert MaterialFor(g.materials, c.handleId) == m;
    assert MaterialLinked(m, g.number, g.credentials, g.policies);
    var d :| d in g.credentials && d.handleId == m.handleId && d.algorithm == m.algorithm &&
        d.publicSpki == m.publicSpki;
    assert c != d ==> Apart(c, d);
  }

  lemma SlotElim(g: Generation, k: SlotKey) returns (c: Credential, m: KeyMaterial)
    requires Consistent(g) && k in SlotTable(g)
    ensures Behind(g, k, c, m) && SlotTable(g)[k] == MakeSlot(c, m)
  {
    hide CredentialLinked, ValidPolicies, ValidProfiles, ValidHandles;
    CredentialsKeyed(g);
    c :| c in g.credentials && CredentialSlot(c) == k;
    m := MaterialFor(g.materials, c.handleId);
    SlotIntro(g, k, c, m);
  }

  lemma CredentialHasSlot(g: Generation, c: Credential) returns (m: KeyMaterial)
    requires Consistent(g) && c in g.credentials
    ensures Behind(g, CredentialSlot(c), c, m) && CredentialSlot(c) in SlotTable(g)
    ensures SlotTable(g)[CredentialSlot(c)] == MakeSlot(c, m)
  {
    hide CredentialLinked, ValidPolicies, ValidProfiles, ValidHandles;
    CredentialsKeyed(g);
    m := MaterialFor(g.materials, c.handleId);
    SlotIntro(g, CredentialSlot(c), c, m);
  }

  ghost predicate HasSlot(v: View, p: Id) { exists a :: SlotKey(p, a) in v.slots }

  ghost predicate SlotLinked(v: View, k: SlotKey)
    requires k in v.slots
  {
    && k.profile in v.profiles
    && v.slots[k].binding in v.policies && Native(v.slots[k].binding.use)
    && v.policies[v.slots[k].binding].profile == k.profile
  }

  ghost predicate PolicyFits(v: View, b: BindingKey)
    requires b in v.policies
  {
    var q := v.policies[b];
    && q.profile in v.profiles
    && v.profiles[q.profile].domain == b.domain
    && (q.status == Active || q.rollout == Enforce ==> v.profiles[q.profile].status == Active)
    && (q.rollout == Enforce ==> q.status == Active)
  }

  /** What the validated relationships say about the table. */
  ghost predicate ValidView(v: View)
  {
    && (forall k {:trigger SlotLinked(v, k)} :: k in v.slots ==> SlotLinked(v, k))
    && (forall p {:trigger HasSlot(v, p)} :: p in v.profiles ==> HasSlot(v, p))
    && (forall j, k :: j in v.slots && k in v.slots && j != k ==>
          v.slots[j].handle != v.slots[k].handle && v.slots[j].selector != v.slots[k].selector)
    && (forall b {:trigger PolicyFits(v, b)} :: b in v.policies ==> PolicyFits(v, b))
  }

  lemma ProfileIntro(g: Generation, p: Profile)
    requires Consistent(g) && p in g.profiles
    ensures p.id in ProfileTable(g) && ProfileTable(g)[p.id] == FactsOfProfile(p)
  {}

  lemma ProfileElim(g: Generation, id: Id) returns (p: Profile)
    requires Consistent(g) && id in ProfileTable(g)
    ensures p in g.profiles && p.id == id && ProfileTable(g)[id] == FactsOfProfile(p)
  {
    p :| p in g.profiles && p.id == id;
  }

  lemma PolicyIntro(g: Generation, q: Policy)
    requires Consistent(g) && q in g.policies
    ensures PolicyBinding(q) in PolicyTable(g) && PolicyTable(g)[PolicyBinding(q)] == FactsOfPolicy(q)
  {}

  lemma PolicyElim(g: Generation, b: BindingKey) returns (q: Policy)
    requires Consistent(g) && b in PolicyTable(g)
    ensures q in g.policies && PolicyBinding(q) == b && PolicyTable(g)[b] == FactsOfPolicy(q)
  {
    q :| q in g.policies && PolicyBinding(q) == b;
  }

  lemma ConsistentSlots(g: Generation)
    requires Consistent(g)
    ensures forall k :: k in SlotTable(g) ==> SlotLinked(ViewOf(g), k)
  {
    hide SlotTable, ProfileTable, PolicyTable, ValidPolicies, ValidProfiles, ValidHandles;
    forall k | k in SlotTable(g) ensures SlotLinked(ViewOf(g), k) {
      var c, m := SlotElim(g, k);
      assert CredentialLinked(c, g.number, g.handles, g.profiles);
      var p :| p in g.profiles && p.id == c.profileId;
      ProfileIntro(g, p);
      assert MaterialLinked(m, g.number, g.credentials, g.policies);
      var d, q :| d in g.credentials && q in g.policies && d.handleId == m.handleId &&
          PolicyBinding(q) == MaterialBinding(m) && q.profileId == d.profileId;
      assert c != d ==> Apart(c, d);
      PolicyIntro(g, q);
    }
  }

  lemma ConsistentProfiles(g: Generation)
    requires Consistent(g)
    ensures forall p :: p in ProfileTable(g) ==> HasSlot(ViewOf(g), p)
  {
    hide SlotTable, ProfileTable, PolicyTable, ValidPolicies, ValidProfiles, ValidHandles, ValidMaterials;
    forall id | id in ProfileTable(g) ensures HasSlot(ViewOf(g), id) {
      var p := ProfileElim(g, id);
      assert Owned(p.id, g.credentials);
      var c :| c in g.credentials && c.profileId == id;
      var m := CredentialHasSlot(g, c);
      assert SlotKey(id, c.algorithm) in ViewOf(g).slots;
    }
  }

  lemma ConsistentDistinct(g: Generation, j: SlotKey, k: SlotKey)
    requires Consistent(g) && j in SlotTable(g) && k in SlotTable(g) && j != k
    ensures SlotTable(g)[j].handle != SlotTable(g)[k].handle && SlotTable(g)[j].selector != SlotTable(g)[k].selector
  {
    hide SlotTable, ValidPolicies, ValidProfiles, ValidHandles, ValidMaterials;
    var c, m := SlotElim(g, j);
    var d, n := SlotElim(g, k);
    assert c != d && Apart(c, d);
  }

  lemma ConsistentPolicies(g: Generation)
    requires Consistent(g)
    ensures forall b :: b in PolicyTable(g) ==> PolicyFits(ViewOf(g), b)
  {
    hide SlotTable, ProfileTable, PolicyTable, ValidCredentials, ValidProfiles, ValidHandles, ValidMaterials;
    forall b | b in PolicyTable(g) ensures PolicyFits(ViewOf(g), b) {
      var q := PolicyElim(g, b);
      assert PolicyLinked(q, g.number, g.profiles);
      var p :| p in g.profiles && p.id == q.profileId && p.domain == q.domain &&
          (q.status == Active || q.rollout == Enforce ==> p.status == Active);
      ProfileIntro(g, p);
    }
  }

  lemma ConsistentView(g: Generation)
    requires Consistent(g)
    ensures ValidView(ViewOf(g))
  {
    hide Consistent, SlotTable, ProfileTable, PolicyTable, SlotLinked, HasSlot, PolicyFits;
    ConsistentSlots(g);
    ConsistentProfiles(g);
    ConsistentPolicies(g);
    forall j, k | j in SlotTable(g) && k in SlotTable(g) && j != k
      ensures SlotTable(g)[j].handle != SlotTable(g)[k].handle && SlotTable(g)[j].selector != SlotTable(g)[k].selector
    {
      ConsistentDistinct(g, j, k);
    }
  }

  // ---------------------------------------------------------------------------------------------
  // The table determines the snapshot
  // ---------------------------------------------------------------------------------------------

  lemma SameViewCredentials(a: Generation, b: Generation)
    requires Consistent(a) && Consistent(b) && a.number == b.number && SlotTable(a) == SlotTable(b)
    ensures forall c :: c in a.credentials ==> c in b.credentials
    ensures forall m :: m in a.materials ==> m in b.materials
  {
    hide SlotTable, ProfileTable, PolicyTable, ValidProfiles, ValidPolicies, ValidHandles;
    forall c | c in a.credentials ensures c in b.credentials {
      var m := CredentialHasSlot(a, c);
      var d, n := SlotElim(b, CredentialSlot(c));
      assert CredentialLinked(c, a.number, a.handles, a.profiles);
      assert CredentialLinked(d, b.number, b.handles, b.profiles);
    }
    forall m | m in a.materials ensures m in b.materials {
      assert MaterialLinked(m, a.number, a.credentials, a.policies);
      var c :| c in a.credentials && c.handleId == m.handleId && c.algorithm == m.algorithm &&
          c.publicSpki == m.publicSpki;
      SlotIntro(a, CredentialSlot(c), c, m);
      var d, n := SlotElim(b, CredentialSlot(c));
      SlotIntro(b, CredentialSlot(c), d, n);
      assert MaterialLinked(n, b.number, b.credentials, b.policies);
    }
  }

  lemma SameViewProfiles(a: Generation, b: Generation)
    requires Consistent(a) && Consistent(b) && a.number == b.number
    requires ProfileTable(a) == ProfileTable(b) && PolicyTable(a) == PolicyTable(b)
    ensures forall p :: p in a.profiles ==> p in b.profiles
    ensures forall q :: q in a.policies ==> q in b.policies
  {
    hide SlotTable, ProfileTable, PolicyTable, ValidCredentials, ValidMaterials, ValidHandles;
    forall p | p in a.profiles ensures p in b.profiles {
      ProfileIntro(a, p);
      var r := ProfileElim(b, p.id);
    }
    forall q | q in a.policies ensures q in b.policies {
      PolicyIntro(a, q);
      var r := PolicyElim(b, PolicyBinding(q));
      assert PolicyLinked(q, a.number, a.profiles) && PolicyLinked(r, b.number, b.profiles);
    }
  }

  lemma SameHandles(a: Generation, b: Generation)
    requires Consistent(a) && Consistent(b) && a.number == b.number
    requires forall c :: c in a.credentials ==> c in b.credentials
    ensures forall h :: h in a.handles ==> h in b.handles
  {
    hide ValidProfiles, ValidPolicies;
    forall h | h in a.handles ensures h in b.handles {
      assert Used(h.id, a.credentials);
      var c :| c in a.credentials && c.handleId == h.id;
      assert CredentialLinked(c, b.number, b.handles, b.profiles);
    }
  }

  lemma SameElementsSameSize<T>(s: seq<T>, t: seq<T>)
    requires Unique(s) && Unique(t) && forall x :: x in s <==> x in t
    ensures |s| == |t|
  {
    UniqueSize(s);
    UniqueSize(t);
    assert (set x | x in s) == (set x | x in t);
  }

  lemma {:induction false} UniqueSize<T>(s: seq<T>)
    requires Unique(s)
    ensures |set x | x in s| == |s|
  {
    if s != [] {
      var rest := s[..|s| - 1];
      assert s == rest + [s[|s| - 1]];
      UniqueSize(rest);
      assert (set x | x in s) == (set x | x in rest) + {s[|s| - 1]};
    }
  }

  /** As many keys as elements, when no two elements share one. */
  lemma CountByKey<K>(keys: seq<K>, distinct: set<K>)
    requires forall i, j :: 0 <= i < j < |keys| ==> keys[i] != keys[j]
    requires forall k :: k in distinct <==> k in keys
    ensures |distinct| == |keys|
  {
    UniqueSize(keys);
    assert distinct == set k | k in keys;
  }

  /** Two constructed snapshots are equivalent exactly when number, state and table agree. */
  lemma ViewDetermines(a: Generation, b: Generation)
    requires Valid(a) && Valid(b)
    ensures a == b <==> a.number == b.number && a.state == b.state && ViewOf(a) == ViewOf(b)
  {
    if a.number == b.number && a.state == b.state && ViewOf(a) == ViewOf(b) {
      hide ValidCredentials, ValidMaterials, ValidPolicies, ValidProfiles, Canonical, SlotTable, ProfileTable,
        PolicyTable;
      SameViewCredentials(a, b);
      SameViewCredentials(b, a);
      SameViewProfiles(a, b);
      SameViewProfiles(b, a);
      SameHandles(a, b);
      SameHandles(b, a);
      SizesAgree(a, b);
      CanonicalUnique(a, b);
    }
  }

  lemma SlotsCounted(g: Generation)
    requires Consistent(g)
    ensures |SlotTable(g)| == |g.credentials|
  {
    hide ValidHandles, ValidProfiles, ValidPolicies, ValidMaterials, CredentialLinked;
    forall i, j | 0 <= i < j < |g.credentials|
      ensures CredentialSlot(g.credentials[i]) != CredentialSlot(g.credentials[j])
    {
      assert g.credentials[i] != g.credentials[j] && Apart(g.credentials[i], g.credentials[j]);
    }
    SlotCount(g.credentials);
    CredentialsKeyed(g);
    assert SlotTable(g).Keys == CredentialSlots(g.credentials);
    assert |SlotTable(g)| == |SlotTable(g).Keys|;
  }

  lemma SlotCount(s: seq<Credential>)
    requires forall i, j :: 0 <= i < j < |s| ==> CredentialSlot(s[i]) != CredentialSlot(s[j])
    ensures |CredentialSlots(s)| == |s|
  {
    var keys := seq(|s|, i requires 0 <= i < |s| => CredentialSlot(s[i]));
    assert forall k :: k in keys ==> exists c :: c in s && CredentialSlot(c) == k;
    forall c | c in s ensures CredentialSlot(c) in keys {
      var i :| 0 <= i < |s| && s[i] == c;
      assert keys[i] == CredentialSlot(c);
    }
    CountByKey(keys, CredentialSlots(s));
  }

  lemma SizesAgree(a: Generation, b: Generation)
    requires Consistent(a) && Consistent(b)
    requires (forall x :: x in a.handles <==> x in b.handles) && (forall x :: x in a.profiles <==> x in b.profiles)
    requires forall x :: x in a.credentials <==> x in b.credentials
    requires forall x :: x in a.policies <==> x in b.policies
    requires forall x :: x in a.materials <==> x in b.materials
    ensures |a.handles| == |b.handles| && |a.profiles| == |b.profiles| && |a.credentials| == |b.credentials|
    ensures |a.policies| == |b.policies| && |a.materials| == |b.materials|
  {
    hide CredentialLinked, MaterialLinked, PolicyLinked, Apart;
    SameElementsSameSize(a.handles, b.handles);
    SameElementsSameSize(a.profiles, b.profiles);
    SameElementsSameSize(a.credentials, b.credentials);
    SameElementsSameSize(a.policies, b.policies);
    SameElementsSameSize(a.materials, b.materials);
  }

  // ---------------------------------------------------------------------------------------------
  // Reading the table off an assembled record set
  // ---------------------------------------------------------------------------------------------

  /** Some key material of `g` makes `c` the expected key of its slot. */
  ghost predicate SlotWitnessed(g: Generation, expected: map<SlotKey, Slot>, c: Credential)
  {
    exists m ::
      && m in g.materials && m.handleId == c.handleId && CredentialSlot(c) in expected
      && expected[CredentialSlot(c)] == MakeSlot(c, m)
  }

  ghost predicate SlotFilled(g: Generation, k: SlotKey) { exists c :: c in g.credentials && CredentialSlot(c) == k }

  lemma SlotTableIs(g: Generation, expected: map<SlotKey, Slot>)
    requires Consistent(g)
    requires forall c :: c in g.credentials ==> SlotWitnessed(g, expected, c)
    requires forall k :: k in expected ==> SlotFilled(g, k)
    ensures SlotTable(g) == expected
  {
    hide Consistent, SlotTable;
    forall k | k in expected ensures k in SlotTable(g) && SlotTable(g)[k] == expected[k] {
      assert SlotFilled(g, k);
      var c :| c in g.credentials && CredentialSlot(c) == k;
      assert SlotWitnessed(g, expected, c);
      var m :| m in g.materials && m.handleId == c.handleId && expected[CredentialSlot(c)] == MakeSlot(c, m);
      SlotIntro(g, k, c, m);
    }
    forall k | k in SlotTable(g) ensures k in expected {
      var c, m := SlotElim(g, k);
      assert SlotWitnessed(g, expected, c);
    }
  }

  lemma ProfileTableIs(g: Generation, expected: map<Id, ProfileFacts>)
    requires Consistent(g)
    requires forall p :: p in g.profiles ==> p.id in expected && expected[p.id] == FactsOfProfile(p)
    requires forall id :: id in expected ==> exists p :: p in g.profiles && p.id == id
    ensures ProfileTable(g) == expected
  {
    hide Consistent, ProfileTable;
    forall id | id in expected ensures id in ProfileTable(g) && ProfileTable(g)[id] == expected[id] {
      var p :| p in g.profiles && p.id == id;
      ProfileIntro(g, p);
    }
    forall id | id in ProfileTable(g) ensures id in expected {
      var p := ProfileElim(g, id);
    }
  }

  lemma PolicyTableIs(g: Generation, expected: map<BindingKey, PolicyFacts>)
    requires Consistent(g)
    requires forall q :: q in g.policies ==>
      PolicyBinding(q) in expected && expected[PolicyBinding(q)] == FactsOfPolicy(q)
    requires forall b :: b in expected ==> exists q :: q in g.policies && PolicyBinding(q) == b
    ensures PolicyTable(g) == expected
  {
    hide Consistent, PolicyTable;
    forall b | b in expected ensures b in PolicyTable(g) && PolicyTable(g)[b] == expected[b] {
      var q :| q in g.policies && PolicyBinding(q) == b;
      PolicyIntro(g, q);
    }
    forall b | b in PolicyTable(g) ensures b in expected {
      var q := PolicyElim(g, b);
    }
  }

  /** Record order does not show in the table. */
  lemma SameRecordsSameView(a: Generation, b: Generation)
    requires Consistent(a) && Consistent(b) && SameRecords(a, b)
    ensures ViewOf(a) == ViewOf(b)
  {
    hide Consistent, SlotTable, ProfileTable, PolicyTable;
    PermutedElements(a, b);
    forall c | c in a.credentials ensures SlotWitnessed(a, SlotTable(b), c) {
      var m := CredentialHasSlot(b, c);
      assert m in a.materials;
    }
    forall k | k in SlotTable(b) ensures SlotFilled(a, k) {
      var c, m := SlotElim(b, k);
      assert c in a.credentials;
    }
    SlotTableIs(a, SlotTable(b));
    SameRecordsSameFacts(a, b);
  }

  lemma SameRecordsSameFacts(a: Generation, b: Generation)
    requires Consistent(a) && Consistent(b)
    requires (forall x :: x in a.profiles <==> x in b.profiles) && (forall x :: x in a.policies <==> x in b.policies)
    ensures ProfileTable(a) == ProfileTable(b) && PolicyTable(a) == PolicyTable(b)
  {
    hide Consistent, ProfileTable, PolicyTable;
    forall p | p in a.profiles ensures p.id in ProfileTable(b) && ProfileTable(b)[p.id] == FactsOfProfile(p) {
      ProfileIntro(b, p);
    }
    forall id | id in ProfileTable(b) ensures exists p :: p in a.profiles && p.id == id { var p := ProfileElim(b, id); }
    ProfileTableIs(a, ProfileTable(b));
    forall q | q in a.policies
      ensures PolicyBinding(q) in PolicyTable(b) && PolicyTable(b)[PolicyBinding(q)] == FactsOfPolicy(q)
    {
      PolicyIntro(b, q);
    }
    forall x | x in PolicyTable(b) ensures exists q :: q in a.policies && PolicyBinding(q) == x {
      var q := PolicyElim(b, x);
    }
    PolicyTableIs(a, PolicyTable(b));
  }
}

/** One complete numbered snapshot: canonical order, validation, and its meaning as a table of slots. */
module Generations {
  import opened Wrappers
  import opened Text
  import opened Order
  import opened Records

  datatype Generation = Generation(
    number: Number, state: State, handles: seq<Handle>, profiles: seq<Profile>, credentials: seq<Credential>,
    policies: seq<Policy>, materials: seq<KeyMaterial>)

  // ---------------------------------------------------------------------------------------------
  // Validity
  // ---------------------------------------------------------------------------------------------

  ghost predicate ValidHandles(n: Number, handles: seq<Handle>)
  {
    && Unique(handles)
    && (forall h :: h in handles ==> h.generation == n)
    && (forall a, b :: a in handles && b in handles && a.id == b.id ==> a == b)
  }

  ghost predicate ValidProfiles(n: Number, profiles: seq<Profile>)
  {
    && Unique(profiles)
    && (forall p :: p in profiles ==> p.generation == n)
    && (forall a, b :: a in profiles && b in profiles && a.id == b.id ==> a == b)
  }

  ghost predicate CredentialLinked(c: Credential, n: Number, handles: seq<Handle>, profiles: seq<Profile>)
  {
    && c.generation == n
    && (exists p :: p in profiles && p.id == c.profileId && OwnerFits(p.domain, c.selector))
    && (exists h :: h in handles && h.id == c.handleId)
  }

  /** Two credentials share neither handle, nor selector, nor profile and algorithm. */
  predicate Apart(a: Credential, b: Credential)
  {
    a.handleId != b.handleId && a.selector != b.selector && (a.profileId != b.profileId || a.algorithm != b.algorithm)
  }

  ghost predicate Owned(profileId: Id, credentials: seq<Credential>)
  {
    exists c :: c in credentials && c.profileId == profileId
  }

  /** The credential checks that look at one credential and the ones before it. */
  ghost predicate CredentialsApart(n: Number, s: seq<Credential>, handles: seq<Handle>, profiles: seq<Profile>)
  {
    && Unique(s)
    && (forall c {:trigger CredentialLinked(c, n, handles, profiles)} :: c in s ==>
          CredentialLinked(c, n, handles, profiles))
    && (forall a, b :: a in s && b in s && a != b ==> Apart(a, b))
  }

  ghost predicate ValidCredentials(n: Number, credentials: seq<Credential>, handles: seq<Handle>,
                                   profiles: seq<Profile>)
  {
    && CredentialsApart(n, credentials, handles, profiles)
    && (forall p {:trigger Owned(p.id, credentials)} :: p in profiles ==> Owned(p.id, credentials))
  }

  ghost predicate PolicyLinked(q: Policy, n: Number, profiles: seq<Profile>)
  {
    && q.generation == n
    && (exists p :: p in profiles && p.id == q.profileId && p.domain == q.domain &&
          (q.status == Active || q.rollout == Enforce ==> p.status == Active))
    && (q.rollout == Enforce ==> q.status == Active)
  }

  ghost predicate ValidPolicies(n: Number, policies: seq<Policy>, profiles: seq<Profile>)
  {
    && Unique(policies)
    && (forall q {:trigger PolicyLinked(q, n, profiles)} :: q in policies ==> PolicyLinked(q, n, profiles))
    && (forall a, b :: a in policies && b in policies && PolicyBinding(a) == PolicyBinding(b) ==> a == b)
  }

  ghost predicate MaterialLinked(m: KeyMaterial, n: Number, credentials: seq<Credential>, policies: seq<Policy>)
  {
    && m.generation == n
    && exists c, q :: c in credentials && q in policies && c.handleId == m.handleId && c.algorithm == m.algorithm &&
         c.publicSpki == m.publicSpki && PolicyBinding(q) == MaterialBinding(m) && q.profileId == c.profileId
  }

  ghost predicate Keyed(handleId: Id, materials: seq<KeyMaterial>)
  {
    exists m :: m in materials && m.handleId == handleId
  }

  ghost predicate Used(handleId: Id, credentials: seq<Credential>)
  {
    exists c :: c in credentials && c.handleId == handleId
  }

  ghost predicate MaterialsApart(n: Number, s: seq<KeyMaterial>, credentials: seq<Credential>, policies: seq<Policy>)
  {
    && Unique(s)
    && (forall m {:trigger MaterialLinked(m, n, credentials, policies)} :: m in s ==>
          MaterialLinked(m, n, credentials, policies))
    && (forall a, b :: a in s && b in s && a.handleId == b.handleId ==> a == b)
  }

  /** Handles, credentials and key materials correspond one to one. */
  ghost predicate ValidMaterials(n: Number, materials: seq<KeyMaterial>, credentials: seq<Credential>,
                                 policies: seq<Policy>, handles: seq<Handle>)
  {
    && MaterialsApart(n, materials, credentials, policies)
    && (forall c {:trigger Keyed(c.handleId, materials)} :: c in credentials ==> Keyed(c.handleId, materials))
    && (forall h {:trigger Used(h.id, credentials)} :: h in handles ==> Used(h.id, credentials))
  }

  /** Complete relationships and global uniqueness, whatever the record order. */
  ghost predicate Consistent(g: Generation)
  {
    && g.number > 0
    && g.handles != []
    && ValidHandles(g.number, g.handles)
    && ValidProfiles(g.number, g.profiles)
    && ValidCredentials(g.number, g.credentials, g.handles, g.profiles)
    && ValidPolicies(g.number, g.policies, g.profiles)
    && ValidMaterials(g.number, g.materials, g.credentials, g.policies, g.handles)
  }

  ghost predicate Canonical(g: Generation)
  {
    && Strictly(g.handles, HandleKey)
    && Strictly(g.profiles, ProfileKey)
    && Strictly(g.credentials, CredentialKey)
    && Strictly(g.policies, PolicySortKey)
    && Strictly(g.materials, MaterialKey)
  }

  /** What every constructed generation is. */
  ghost predicate Valid(g: Generation) { Consistent(g) && Canonical(g) }

  /** The same number, state and records in any order. */
  ghost predicate SameRecords(a: Generation, b: Generation)
  {
    && a.number == b.number && a.state == b.state
    && multiset(a.handles) == multiset(b.handles)
    && multiset(a.profiles) == multiset(b.profiles)
    && multiset(a.credentials) == multiset(b.credentials)
    && multiset(a.policies) == multiset(b.policies)
    && multiset(a.materials) == multiset(b.materials)
  }

  lemma PermutedElements(a: Generation, b: Generation)
    requires SameRecords(a, b)
    ensures Unique(a.handles) == Unique(b.handles) && Unique(a.profiles) == Unique(b.profiles)
    ensures Unique(a.credentials) == Unique(b.credentials) && Unique(a.policies) == Unique(b.policies)
    ensures Unique(a.materials) == Unique(b.materials)
    ensures |a.handles| == |b.handles| && |a.profiles| == |b.profiles| && |a.credentials| == |b.credentials|
    ensures |a.policies| == |b.policies| && |a.materials| == |b.materials|
    ensures (forall x :: x in a.handles <==> x in b.handles) && (forall x :: x in a.profiles <==> x in b.profiles)
    ensures forall x :: x in a.credentials <==> x in b.credentials
    ensures forall x :: x in a.policies <==> x in b.policies
    ensures forall x :: x in a.materials <==> x in b.materials
  {
    PermutedUnique(a.handles, b.handles);
    PermutedUnique(a.profiles, b.profiles);
    PermutedUnique(a.credentials, b.credentials);
    PermutedUnique(a.policies, b.policies);
    PermutedUnique(a.materials, b.materials);
  }

  lemma PermutedCredentials(a: Generation, b: Generation)
    requires SameRecords(a, b) && ValidCredentials(a.number, a.credentials, a.handles, a.profiles)
    ensures ValidCredentials(b.number, b.credentials, b.handles, b.profiles)
  {
    PermutedElements(a, b);
    forall c | c in b.credentials ensures CredentialLinked(c, b.number, b.handles, b.profiles) {
      assert CredentialLinked(c, a.number, a.handles, a.profiles);
    }
    forall p | p in b.profiles ensures Owned(p.id, b.credentials) {
      assert Owned(p.id, a.credentials);
    }
  }

  lemma PermutedPolicies(a: Generation, b: Generation)
    requires SameRecords(a, b) && ValidPolicies(a.number, a.policies, a.profiles)
    ensures ValidPolicies(b.number, b.policies, b.profiles)
  {
    PermutedElements(a, b);
    forall q | q in b.policies ensures PolicyLinked(q, b.number, b.profiles) {
      assert PolicyLinked(q, a.number, a.profiles);
    }
  }

  lemma PermutedMaterials(a: Generation, b: Generation)
    requires SameRecords(a, b) && ValidMaterials(a.number, a.materials, a.credentials, a.policies, a.handles)
    ensures ValidMaterials(b.number, b.materials, b.credentials, b.policies, b.handles)
  {
    PermutedElements(a, b);
    forall m | m in b.materials ensures MaterialLinked(m, b.number, b.credentials, b.policies) {
      assert MaterialLinked(m, a.number, a.credentials, a.policies);
    }
    forall c | c in b.credentials ensures Keyed(c.handleId, b.materials) {
      assert Keyed(c.handleId, a.materials);
    }
    forall h | h in b.handles ensures Used(h.id, b.credentials) {
      assert Used(h.id, a.credentials);
    }
  }

  lemma PermutedConsistent(a: Generation, b: Generation)
    requires SameRecords(a, b) && Consistent(a)
    ensures Consistent(b)
  {
    PermutedElements(a, b);
    PermutedCredentials(a, b);
    PermutedPolicies(a, b);
    PermutedMaterials(a, b);
  }

  /** Canonical order leaves one arrangement of each record set. */
  lemma CanonicalUnique(a: Generation, b: Generation)
    requires Canonical(a) && Canonical(b) && a.number == b.number && a.state == b.state
    requires |a.handles| == |b.handles| && |a.profiles| == |b.profiles| && |a.credentials| == |b.credentials|
    requires |a.policies| == |b.policies| && |a.materials| == |b.materials|
    requires (forall x :: x in a.handles <==> x in b.handles) && (forall x :: x in a.profiles <==> x in b.profiles)
    requires forall x :: x in a.credentials <==> x in b.credentials
    requires forall x :: x in a.policies <==> x in b.policies
    requires forall x :: x in a.materials <==> x in b.materials
    ensures a == b
  {
    StrictOrderUnique(a.handles, b.handles, HandleKey);
    StrictOrderUnique(a.profiles, b.profiles, ProfileKey);
    StrictOrderUnique(a.credentials, b.credentials, CredentialKey);
    StrictOrderUnique(a.policies, b.policies, PolicySortKey);
    StrictOrderUnique(a.materials, b.materials, MaterialKey);
  }

  lemma CredentialsSortStrictly(g: Generation)
    requires ValidCredentials(g.number, g.credentials, g.handles, g.profiles) && Ordered(g.credentials, CredentialKey)
    ensures Strictly(g.credentials, CredentialKey)
  {
    forall i, j | 0 <= i < j < |g.credentials|
      ensures CredentialKey(g.credentials[i]) != CredentialKey(g.credentials[j])
    {
      assert g.credentials[i] != g.credentials[j];
      assert Apart(g.credentials[i], g.credentials[j]);
    }
    OrderedDistinctIsStrict(g.credentials, CredentialKey);
  }

  lemma PoliciesSortStrictly(g: Generation)
    requires ValidPolicies(g.number, g.policies, g.profiles) && Ordered(g.policies, PolicySortKey)
    ensures Strictly(g.policies, PolicySortKey)
  {
    forall i, j | 0 <= i < j < |g.policies|
      ensures PolicySortKey(g.policies[i]) != PolicySortKey(g.policies[j])
    {
      assert g.policies[i] != g.policies[j];
      if PolicySortKey(g.policies[i]) == PolicySortKey(g.policies[j]) {
        PolicyKeyInjective(PolicyBinding(g.policies[i]), PolicyBinding(g.policies[j]));
      }
    }
    OrderedDistinctIsStrict(g.policies, PolicySortKey);
  }

  lemma MaterialsSortStrictly(g: Generation)
    requires ValidMaterials(g.number, g.materials, g.credentials, g.policies, g.handles)
    requires Ordered(g.materials, MaterialKey)
    ensures Strictly(g.materials, MaterialKey)
  {
    OrderedDistinctIsStrict(g.materials, MaterialKey);
  }

  lemma SortedIsCanonical(g: Generation)
    requires Consistent(g)
    requires Ordered(g.handles, HandleKey) && Ordered(g.profiles, ProfileKey) && Ordered(g.credentials, CredentialKey)
    requires Ordered(g.policies, PolicySortKey) && Ordered(g.materials, MaterialKey)
    ensures Canonical(g)
  {
    OrderedDistinctIsStrict(g.handles, HandleKey);
    OrderedDistinctIsStrict(g.profiles, ProfileKey);
    CredentialsSortStrictly(g);
    PoliciesSortStrictly(g);
    MaterialsSortStrictly(g);
  }

  /** Equivalence of constructed snapshots is agreement of number, state and record sets, in whatever order supplied. */
  lemma EquivalentIsSameRecords(a: Generation, b: Generation)
    requires Valid(a) && Valid(b)
    ensures a == b <==> SameRecords(a, b)
  {
    if SameRecords(a, b) {
      PermutedElements(a, b);
      CanonicalUnique(a, b);
    }
  }

  // ---------------------------------------------------------------------------------------------
  // The validating constructor
  // ---------------------------------------------------------------------------------------------

  ghost function HandleIds(handles: seq<Handle>): set<Id> { set h | h in handles :: h.id }

  lemma HandlesStep(n: Number, s: seq<Handle>, x: Handle)
    ensures ValidHandles(n, s + [x]) <==> ValidHandles(n, s) && x.generation == n && x.id !in HandleIds(s)
    ensures HandleIds(s + [x]) == HandleIds(s) + {x.id}
  {
    assert forall h :: h in s + [x] <==> h in s || h == x;
    if ValidHandles(n, s + [x]) {
      assert Unique(s) by { assert forall i :: 0 <= i < |s| ==> s[i] == (s + [x])[i]; }
      assert forall i :: 0 <= i < |s| ==> s[i] == (s + [x])[i] && s[i] != (s + [x])[|s|];
    }
  }

  lemma HandlesPrefix(n: Number, s: seq<Handle>, i: nat)
    requires i <= |s|
    ensures ValidHandles(n, s) ==> ValidHandles(n, s[..i])
  {}

  method ValidateHandles(n: Number, handles: seq<Handle>) returns (ok: bool, ids: set<Id>)
    ensures ok <==> ValidHandles(n, handles)
    ensures ok ==> ids == HandleIds(handles) && |ids| == |handles|
  {
    ids := {};
    for i := 0 to |handles|
      invariant ValidHandles(n, handles[..i]) && ids == HandleIds(handles[..i]) && |ids| == i
    {
      assert handles[..i + 1] == handles[..i] + [handles[i]];
      HandlesStep(n, handles[..i], handles[i]);
      if handles[i].generation != n || handles[i].id in ids {
        HandlesPrefix(n, handles, i + 1);
        return false, ids;
      }
      ids := ids + {handles[i].id};
    }
    assert handles[..|handles|] == handles;
    ok := true;
  }

  /** The table of the profiles accepted so far. */
  ghost predicate ById(s: seq<Profile>, byId: map<Id, Profile>)
  {
    && (forall id :: id in byId <==> exists p :: p in s && p.id == id)
    && forall p :: p in s ==> p.id in byId && byId[p.id] == p
  }

  lemma NoProfiles(n: Number)
    ensures ValidProfiles(n, []) && ById([], map[])
  {}

  lemma ProfilesStep(n: Number, s: seq<Profile>, x: Profile, byId: map<Id, Profile>)
    requires ValidProfiles(n, s) && ById(s, byId)
    ensures ValidProfiles(n, s + [x]) <==> x.generation == n && x.id !in byId
    ensures x.id !in byId ==> ById(s + [x], byId[x.id := x])
  {
    assert forall p :: p in s + [x] <==> p in s || p == x;
    assert (s + [x])[|s|] == x;
    assert forall i :: 0 <= i < |s| ==> (s + [x])[i] == s[i];
  }

  lemma ProfilesPrefix(n: Number, s: seq<Profile>, i: nat)
    requires i <= |s|
    ensures ValidProfiles(n, s) ==> ValidProfiles(n, s[..i])
  {}

  method ValidateProfiles(n: Number, profiles: seq<Profile>) returns (ok: bool, byId: map<Id, Profile>)
    ensures ok <==> ValidProfiles(n, profiles)
    ensures ok ==> forall id :: id in byId <==> exists p :: p in profiles && p.id == id
    ensures ok ==> forall p :: p in profiles ==> p.id in byId && byId[p.id] == p
  {
    hide ValidProfiles;
    byId := map[];
    NoProfiles(n);
    for i := 0 to |profiles|
      invariant ValidProfiles(n, profiles[..i]) && ById(profiles[..i], byId)
    {
      assert profiles[..i + 1] == profiles[..i] + [profiles[i]];
      ProfilesStep(n, profiles[..i], profiles[i], byId);
      ProfilesPrefix(n, profiles, i + 1);
      if profiles[i].generation != n || profiles[i].id in byId { return false, byId; }
      byId := byId[profiles[i].id := profiles[i]];
    }
    assert profiles[..|profiles|] == profiles;
    ok := true;
  }

  lemma AlgorithmSetBound(s: set<Algorithm>)
    ensures |s| <= MAX_CREDENTIALS_PER_PROFILE
  {
    var all := {RsaSha256, Ed25519Sha256, MlDsa44Ed25519Sha512};
    forall a | a in s ensures a in all {
      match a case RsaSha256 => case Ed25519Sha256 => case MlDsa44Ed25519Sha512 =>
    }
    assert |all - s| == |all| - |s|;
  }

  lemma CredentialsStep(n: Number, s: seq<Credential>, x: Credential, handles: seq<Handle>, profiles: seq<Profile>)
    ensures CredentialsApart(n, s + [x], handles, profiles) <==>
      CredentialsApart(n, s, handles, profiles) && CredentialLinked(x, n, handles, profiles) &&
      forall c :: c in s ==> Apart(c, x)
  {
    hide CredentialLinked;
    var t := s + [x];
    assert forall c :: c in t <==> c in s || c == x;
    assert forall i :: 0 <= i < |s| ==> t[i] == s[i] && s[i] in s;
    if CredentialsApart(n, t, handles, profiles) {
      assert t[|s|] == x;
      forall c | c in s ensures Apart(c, x) {
        assert c in t && x in t && c != x;
      }
    }
    if forall c :: c in s ==> Apart(c, x) {
      assert x !in s;
    }
  }

  lemma CredentialsEmpty(n: Number, handles: seq<Handle>, profiles: seq<Profile>)
    ensures CredentialsSeen(n, [], handles, profiles, map[], {}, {}) && CredentialOwners([]) == {}
  {}

  lemma CredentialsPrefix(n: Number, s: seq<Credential>, i: nat, handles: seq<Handle>, profiles: seq<Profile>)
    requires i <= |s|
    ensures CredentialsApart(n, s, handles, profiles) ==> CredentialsApart(n, s[..i], handles, profiles)
  {}

  /** The place of a credential: one per profile and algorithm. */
  datatype SlotKey = SlotKey(profile: Id, algorithm: Algorithm)

  function CredentialSlot(c: Credential): SlotKey { SlotKey(c.profileId, c.algorithm) }

  ghost function CredentialHandles(s: seq<Credential>): set<Id> { set c | c in s :: c.handleId }

  ghost function CredentialSelectors(s: seq<Credential>): set<DnsName> { set c | c in s :: c.selector }

  ghost function CredentialSlots(s: seq<Credential>): set<SlotKey> { set c | c in s :: CredentialSlot(c) }

  ghost function CredentialOwners(s: seq<Credential>): set<Id> { set c | c in s :: c.profileId }

  lemma CollectedStep(s: seq<Credential>, c: Credential)
    ensures CredentialHandles(s + [c]) == CredentialHandles(s) + {c.handleId}
    ensures CredentialSelectors(s + [c]) == CredentialSelectors(s) + {c.selector}
    ensures CredentialSlots(s + [c]) == CredentialSlots(s) + {CredentialSlot(c)}
    ensures CredentialOwners(s + [c]) == CredentialOwners(s) + {c.profileId}
  {
    assert forall x :: x in s + [c] <==> x in s || x == c;
  }

  lemma CollectedApart(s: seq<Credential>, c: Credential)
    ensures (forall x :: x in s ==> Apart(x, c)) <==>
      && c.handleId !in CredentialHandles(s) && c.selector !in CredentialSelectors(s)
      && CredentialSlot(c) !in CredentialSlots(s)
  {
    forall x | x in s && !Apart(x, c)
      ensures
        || c.handleId in CredentialHandles(s) || c.selector in CredentialSelectors(s)
        || CredentialSlot(c) in CredentialSlots(s)
    {
      assert CredentialSlot(x) in CredentialSlots(s);
    }
  }

  /** What the loop over the credentials knows about the ones it has accepted. */
  ghost predicate CredentialsSeen(n: Number, s: seq<Credential>, handles: seq<Handle>, profiles: seq<Profile>,
                                  byHandle: map<Id, Credential>, selectors: set<DnsName>, slots: set<SlotKey>)
  {
    && CredentialsApart(n, s, handles, profiles)
    && |byHandle| == |s| && byHandle.Keys == CredentialHandles(s)
    && (forall c :: c in s ==> c.handleId in byHandle && byHandle[c.handleId] == c)
    && selectors == CredentialSelectors(s)
    && slots == CredentialSlots(s)
  }

  /** The checks on one more credential say exactly whether the accepted prefix may grow by it. */
  lemma CredentialsSeenStep(n: Number, s: seq<Credential>, c: Credential, handles: seq<Handle>, profiles: seq<Profile>,
                            byHandle: map<Id, Credential>, selectors: set<DnsName>, slots: set<SlotKey>)
    requires CredentialsSeen(n, s, handles, profiles, byHandle, selectors, slots)
    ensures var fits := CredentialLinked(c, n, handles, profiles) && c.handleId !in byHandle &&
        c.selector !in selectors && CredentialSlot(c) !in slots;
      && (fits <==> CredentialsApart(n, s + [c], handles, profiles))
      && (fits ==>
            CredentialsSeen(n, s + [c], handles, profiles, byHandle[c.handleId := c], selectors + {c.selector},
                            slots + {CredentialSlot(c)}))
  {
    hide CredentialsApart, CredentialLinked, Apart, CredentialHandles, CredentialSelectors, CredentialSlots,
      CredentialSlot;
    CredentialsStep(n, s, c, handles, profiles);
    CollectedApart(s, c);
    CollectedStep(s, c);
    assert forall x :: x in s + [c] <==> x in s || x == c;
  }

  method ValidateCredentials(n: Number, credentials: seq<Credential>, ghost handles: seq<Handle>, ids: set<Id>,
                             ghost profiles: seq<Profile>, byId: map<Id, Profile>)
      returns (ok: bool, byHandle: map<Id, Credential>)
    requires ids == HandleIds(handles)
    requires forall id :: id in byId <==> exists p :: p in profiles && p.id == id
    requires forall p :: p in profiles ==> p.id in byId && byId[p.id] == p
    ensures ok <==> ValidCredentials(n, credentials, handles, profiles)
    ensures ok ==> |byHandle| == |credentials| && byHandle.Keys == CredentialHandles(credentials)
    ensures ok ==> forall c :: c in credentials ==> c.handleId in byHandle && byHandle[c.handleId] == c
  {
    hide CredentialsApart, CredentialLinked, CredentialHandles, CredentialSelectors, CredentialSlots, CredentialSlot;
    hide OwnerFits, CredentialOwners, HandleIds, Owned;
    CredentialsEmpty(n, handles, profiles);
    byHandle := map[];
    var selectors: set<DnsName> := {};
    var slots: set<SlotKey> := {};
    var owners: set<Id> := {};
    for i := 0 to |credentials|
      invariant CredentialsSeen(n, credentials[..i], handles, profiles, byHandle, selectors, slots)
      invariant owners == CredentialOwners(credentials[..i])
    {
      var c := credentials[i];
      var linked := c.generation == n && c.profileId in byId && OwnerFits(byId[c.profileId].domain,
                                                                          c.selector) && c.handleId in ids;
      LinkedCheck(c, n, handles, profiles, byId);
      assert credentials[..i + 1] == credentials[..i] + [c];
      CredentialsSeenStep(n, credentials[..i], c, handles, profiles, byHandle, selectors, slots);
      CollectedStep(credentials[..i], c);
      if !linked || c.handleId in byHandle || c.selector in selectors || CredentialSlot(c) in slots {
        CredentialsPrefix(n, credentials, i + 1, handles, profiles);
        return false, byHandle;
      }
      byHandle := byHandle[c.handleId := c];
      selectors := selectors + {c.selector};
      slots := slots + {CredentialSlot(c)};
      owners := owners + {c.profileId};
    }
    assert credentials[..|credentials|] == credentials;
    ok := byId.Keys <= owners;
    OwnersCheck(credentials, profiles, byId);
  }

  lemma LinkedCheck(c: Credential, n: Number, handles: seq<Handle>, profiles: seq<Profile>, byId: map<Id, Profile>)
    requires forall id :: id in byId <==> exists p :: p in profiles && p.id == id
    requires forall p :: p in profiles ==> p.id in byId && byId[p.id] == p
    ensures CredentialLinked(c, n, handles, profiles) <==>
      && c.generation == n && c.profileId in byId && OwnerFits(byId[c.profileId].domain, c.selector)
      && c.handleId in HandleIds(handles)
  {}

  lemma OwnersCheck(credentials: seq<Credential>, profiles: seq<Profile>, byId: map<Id, Profile>)
    requires forall id :: id in byId <==> exists p :: p in profiles && p.id == id
    ensures byId.Keys <= CredentialOwners(credentials) <==>
      forall p {:trigger Owned(p.id, credentials)} :: p in profiles ==> Owned(p.id, credentials)
  {
    if byId.Keys <= CredentialOwners(credentials) {
      forall p | p in profiles ensures Owned(p.id, credentials) {
        assert p.id in byId.Keys;
      }
    }
    if forall p {:trigger Owned(p.id, credentials)} :: p in profiles ==> Owned(p.id, credentials) {
      forall id | id in byId.Keys ensures id in CredentialOwners(credentials) {
        var p :| p in profiles && p.id == id;
        assert Owned(p.id, credentials);
      }
    }
  }

  ghost function PolicyKeys(s: seq<Policy>): set<string> { set q | q in s :: PolicyKey(PolicyBinding(q)) }

  lemma PoliciesStep(n: Number, s: seq<Policy>, x: Policy, profiles: seq<Profile>)
    ensures ValidPolicies(n, s + [x], profiles) <==>
      ValidPolicies(n, s, profiles) && PolicyLinked(x, n, profiles) && PolicyKey(PolicyBinding(x)) !in PolicyKeys(s)
    ensures PolicyKeys(s + [x]) == PolicyKeys(s) + {PolicyKey(PolicyBinding(x))}
  {
    hide PolicyLinked;
    var t := s + [x];
    assert forall q :: q in t <==> q in s || q == x;
    if ValidPolicies(n, t, profiles) {
      assert Unique(s) by { assert forall i :: 0 <= i < |s| ==> s[i] == t[i]; }
      assert forall i :: 0 <= i < |s| ==> s[i] == t[i] && t[i] != t[|s|];
      forall q | q in s ensures PolicyKey(PolicyBinding(q)) != PolicyKey(PolicyBinding(x)) {
        if PolicyKey(PolicyBinding(q)) == PolicyKey(PolicyBinding(x)) {
          PolicyKeyInjective(PolicyBinding(q), PolicyBinding(x));
        }
      }
    }
  }

  lemma PoliciesPrefix(n: Number, s: seq<Policy>, i: nat, profiles: seq<Profile>)
    requires i <= |s|
    ensures ValidPolicies(n, s, profiles) ==> ValidPolicies(n, s[..i], profiles)
  {
    hide PolicyLinked;
  }

  lemma PolicyCheck(q: Policy, n: Number, profiles: seq<Profile>, byId: map<Id, Profile>)
    requires forall id :: id in byId <==> exists p :: p in profiles && p.id == id
    requires forall p :: p in profiles ==> p.id in byId && byId[p.id] == p
    ensures PolicyLinked(q, n, profiles) <==>
      && q.generation == n && q.profileId in byId && byId[q.profileId].domain == q.domain
      && (q.status == Active || q.rollout == Enforce ==> byId[q.profileId].status == Active)
      && (q.rollout == Enforce ==> q.status == Active)
  {}

  method ValidatePolicies(n: Number, policies: seq<Policy>, ghost profiles: seq<Profile>, byId: map<Id, Profile>)
      returns (ok: bool, byKey: map<string, Policy>)
    requires forall id :: id in byId <==> exists p :: p in profiles && p.id == id
    requires forall p :: p in profiles ==> p.id in byId && byId[p.id] == p
    ensures ok <==> ValidPolicies(n, policies, profiles)
    ensures ok ==> byKey.Keys == PolicyKeys(policies)
    ensures ok ==>
      forall q :: q in policies ==> PolicyKey(PolicyBinding(q)) in byKey && byKey[PolicyKey(PolicyBinding(q))] == q
  {
    hide PolicyLinked, PolicyKey, PolicyBinding;
    byKey := map[];
    for i := 0 to |policies|
      invariant ValidPolicies(n, policies[..i], profiles)
      invariant byKey.Keys == PolicyKeys(policies[..i])
      invariant forall q :: q in policies[..i] ==>
        PolicyKey(PolicyBinding(q)) in byKey && byKey[PolicyKey(PolicyBinding(q))] == q
    {
      var q := policies[i];
      assert policies[..i + 1] == policies[..i] + [q];
      PoliciesStep(n, policies[..i], q, profiles);
      PolicyCheck(q, n, profiles, byId);
      PoliciesPrefix(n, policies, i + 1, profiles);
      if q.generation != n || q.profileId !in byId || byId[q.profileId].domain != q.domain { return false, byKey; }
      if (q.status == Active || q.rollout == Enforce) && byId[q.profileId].status != Active { return false, byKey; }
      if q.rollout == Enforce && q.status != Active { return false, byKey; }
      var key := PolicyKey(PolicyBinding(q));
      if key in byKey { return false, byKey; }
      byKey := byKey[key := q];
    }
    assert policies[..|policies|] == policies;
    ok := true;
  }

  ghost function MaterialHandles(s: seq<KeyMaterial>): set<Id> { set m | m in s :: m.handleId }

  lemma MaterialsStep(n: Number, s: seq<KeyMaterial>, x: KeyMaterial, credentials: seq<Credential>,
                      policies: seq<Policy>)
    ensures MaterialsApart(n, s + [x], credentials, policies) <==>
      && MaterialsApart(n, s, credentials, policies) && MaterialLinked(x, n, credentials, policies)
      && x.handleId !in MaterialHandles(s)
    ensures MaterialHandles(s + [x]) == MaterialHandles(s) + {x.handleId}
  {
    hide MaterialLinked;
    var t := s + [x];
    assert forall m :: m in t <==> m in s || m == x;
    if MaterialsApart(n, t, credentials, policies) {
      assert Unique(s) by { assert forall i :: 0 <= i < |s| ==> s[i] == t[i]; }
      assert forall i :: 0 <= i < |s| ==> s[i] == t[i] && t[i] != t[|s|];
    }
  }

  lemma MaterialsPrefix(n: Number, s: seq<KeyMaterial>, i: nat, credentials: seq<Credential>, policies: seq<Policy>)
    requires i <= |s|
    ensures MaterialsApart(n, s, credentials, policies) ==> MaterialsApart(n, s[..i], credentials, policies)
  {
    hide MaterialLinked;
  }

  /** Two linked materials of one binding and algorithm are the same key owner, so the duplicate test on that pair
      never rejects a set the handle test accepts. */
  lemma SelectionClash(n: Number, a: KeyMaterial, b: KeyMaterial, credentials: seq<Credential>, policies: seq<Policy>,
                       handles: seq<Handle>, profiles: seq<Profile>)
    requires ValidCredentials(n, credentials, handles, profiles) && ValidPolicies(n, policies, profiles)
    requires MaterialLinked(a, n, credentials, policies) && MaterialLinked(b, n, credentials, policies)
    requires MaterialBinding(a) == MaterialBinding(b) && a.algorithm == b.algorithm
    ensures a.handleId == b.handleId
  {
    hide CredentialLinked, PolicyLinked;
    var c, q :| c in credentials && q in policies && c.handleId == a.handleId && c.algorithm == a.algorithm &&
      PolicyBinding(q) == MaterialBinding(a) && q.profileId == c.profileId;
    var d, r :| d in credentials && r in policies && d.handleId == b.handleId && d.algorithm == b.algorithm &&
      PolicyBinding(r) == MaterialBinding(b) && r.profileId == d.profileId;
    assert q == r;
    assert c != d ==> Apart(c, d);
  }

  lemma MaterialCheck(m: KeyMaterial, n: Number, credentials: seq<Credential>, policies: seq<Policy>,
                      byHandle: map<Id, Credential>, byKey: map<string, Policy>)
    requires byHandle.Keys == CredentialHandles(credentials)
    requires forall c :: c in credentials ==> c.handleId in byHandle && byHandle[c.handleId] == c
    requires byKey.Keys == PolicyKeys(policies)
    requires forall q :: q in policies ==>
      PolicyKey(PolicyBinding(q)) in byKey && byKey[PolicyKey(PolicyBinding(q))] == q
    ensures var key := PolicyKey(MaterialBinding(m));
      MaterialLinked(m, n, credentials, policies) <==>
        && m.generation == n && key in byKey && m.handleId in byHandle
        && byKey[key].profileId == byHandle[m.handleId].profileId
        && m.algorithm == byHandle[m.handleId].algorithm && m.publicSpki == byHandle[m.handleId].publicSpki
  {
    var key := PolicyKey(MaterialBinding(m));
    if key in byKey {
      var q :| q in policies && PolicyKey(PolicyBinding(q)) == key;
      PolicyKeyInjective(PolicyBinding(q), MaterialBinding(m));
    }
    if m.handleId in byHandle {
      var c :| c in credentials && c.handleId == m.handleId;
    }
  }

  ghost predicate SelectionSeen(s: seq<KeyMaterial>, selection: set<(string, Algorithm)>)
  {
    && (forall m :: m in s ==> (PolicyKey(MaterialBinding(m)), m.algorithm) in selection)
    && (forall x :: x in selection ==> exists m :: m in s && x == (PolicyKey(MaterialBinding(m)), m.algorithm))
  }

  lemma SelectionRejects(n: Number, s: seq<KeyMaterial>, m: KeyMaterial, selection: set<(string, Algorithm)>,
                         credentials: seq<Credential>, policies: seq<Policy>, handles: seq<Handle>,
                         profiles: seq<Profile>)
    requires ValidCredentials(n, credentials, handles, profiles) && ValidPolicies(n, policies, profiles)
    requires MaterialsApart(n, s, credentials, policies) && SelectionSeen(s, selection)
    requires (PolicyKey(MaterialBinding(m)), m.algorithm) in selection && m.handleId !in MaterialHandles(s)
    ensures !MaterialLinked(m, n, credentials, policies)
  {
    hide CredentialsApart, ValidPolicies, PolicyKey;
    var a :| a in s && (PolicyKey(MaterialBinding(a)), a.algorithm) == (PolicyKey(MaterialBinding(m)), m.algorithm);
    PolicyKeyInjective(MaterialBinding(a), MaterialBinding(m));
    assert MaterialLinked(a, n, credentials, policies);
    if MaterialLinked(m, n, credentials, policies) {
      SelectionClash(n, a, m, credentials, policies, handles, profiles);
    }
  }

  method ValidateMaterials(n: Number, materials: seq<KeyMaterial>, ids: set<Id>, byHandle: map<Id, Credential>,
                           byKey: map<string, Policy>, ghost credentials: seq<Credential>, ghost policies: seq<Policy>,
                           ghost handles: seq<Handle>, ghost profiles: seq<Profile>)
      returns (ok: bool)
    requires ValidHandles(n, handles) && ids == HandleIds(handles) && |ids| == |handles|
    requires ValidCredentials(n, credentials, handles, profiles) && ValidPolicies(n, policies, profiles)
    requires byHandle.Keys == CredentialHandles(credentials) && |byHandle| == |credentials|
    requires forall c :: c in credentials ==> c.handleId in byHandle && byHandle[c.handleId] == c
    requires byKey.Keys == PolicyKeys(policies)
    requires forall q :: q in policies ==>
      PolicyKey(PolicyBinding(q)) in byKey && byKey[PolicyKey(PolicyBinding(q))] == q
    ensures ok <==> ValidMaterials(n, materials, credentials, policies, handles)
  {
    hide MaterialLinked, CredentialsApart, ValidPolicies, ValidHandles, PolicyKeys, PolicyKey, CredentialHandles,
      HandleIds, MaterialsApart, ValidMaterials, ValidCredentials, SelectionSeen, MaterialHandles;
    NeedsApart(n, materials, credentials, policies, handles);
    var seen: set<Id> := {};
    var selection: set<(string, Algorithm)> := {};
    MaterialsEmpty(n, credentials, policies);
    for i := 0 to |materials|
      invariant MaterialsApart(n, materials[..i], credentials, policies)
      invariant seen == MaterialHandles(materials[..i]) && |seen| == i
      invariant SelectionSeen(materials[..i], selection)
    {
      var m := materials[i];
      var key := PolicyKey(MaterialBinding(m));
      assert materials[..i + 1] == materials[..i] + [m];
      MaterialsStep(n, materials[..i], m, credentials, policies);
      MaterialCheck(m, n, credentials, policies, byHandle, byKey);
      MaterialsPrefix(n, materials, i + 1, credentials, policies);
      if m.generation != n || m.handleId in seen { return false; }
      if (key, m.algorithm) in selection {
        SelectionRejects(n, materials[..i], m, selection, credentials, policies, handles, profiles);
        return false;
      }
      if key !in byKey || m.handleId !in byHandle || byKey[key].profileId != byHandle[m.handleId].profileId ||
         m.algorithm != byHandle[m.handleId].algorithm || m.publicSpki != byHandle[m.handleId].publicSpki
      {
        return false;
      }
      SelectionStep(materials[..i], m, selection);
      seen := seen + {m.handleId};
      selection := selection + {(key, m.algorithm)};
    }
    assert materials[..|materials|] == materials;
    ok := |seen| == |byHandle| && |ids| == |byHandle|;
    CountDecides(n, materials, credentials, policies, handles, profiles);
  }

  lemma NeedsApart(n: Number, materials: seq<KeyMaterial>, credentials: seq<Credential>, policies: seq<Policy>,
                   handles: seq<Handle>)
    ensures ValidMaterials(n, materials, credentials, policies, handles) ==>
      MaterialsApart(n, materials, credentials, policies)
  {}

  lemma CountDecides(n: Number, materials: seq<KeyMaterial>, credentials: seq<Credential>, policies: seq<Policy>,
                     handles: seq<Handle>, profiles: seq<Profile>)
    requires ValidCredentials(n, credentials, handles, profiles) && MaterialsApart(n, materials, credentials, policies)
    ensures |MaterialHandles(materials)| == |CredentialHandles(credentials)| == |HandleIds(handles)| <==>
      ValidMaterials(n, materials, credentials, policies, handles)
  {
    hide MaterialHandles, CredentialHandles, HandleIds, ValidCredentials, MaterialsApart;
    CoverageByCount(n, materials, credentials, policies, handles, profiles);
  }

  lemma MaterialsEmpty(n: Number, credentials: seq<Credential>, policies: seq<Policy>)
    ensures MaterialsApart(n, [], credentials, policies) && MaterialHandles([]) == {} && SelectionSeen([], {})
  {}

  lemma SelectionStep(s: seq<KeyMaterial>, m: KeyMaterial, selection: set<(string, Algorithm)>)
    requires SelectionSeen(s, selection)
    ensures SelectionSeen(s + [m], selection + {(PolicyKey(MaterialBinding(m)), m.algorithm)})
  {
    hide PolicyKey;
    assert forall x :: x in s + [m] <==> x in s || x == m;
  }

  lemma SubsetOfEqualSize<T>(a: set<T>, b: set<T>)
    requires a <= b
    ensures |a| <= |b| && (|a| == |b| <==> a == b)
  {
    assert |b - a| == |b| - |a|;
  }

  /** Equal counts of handles, credentials and materials mean one-to-one coverage. */
  lemma CoverageByCount(n: Number, materials: seq<KeyMaterial>, credentials: seq<Credential>, policies: seq<Policy>,
                        handles: seq<Handle>, profiles: seq<Profile>)
    requires ValidCredentials(n, credentials, handles, profiles) && MaterialsApart(n, materials, credentials, policies)
    ensures |MaterialHandles(materials)| == |CredentialHandles(credentials)| == |HandleIds(handles)| <==>
      (forall c {:trigger Keyed(c.handleId, materials)} :: c in credentials ==> Keyed(c.handleId, materials)) &&
      (forall h {:trigger Used(h.id, credentials)} :: h in handles ==> Used(h.id, credentials))
  {
    hide Apart, OwnerFits, PolicyBinding, MaterialBinding;
    forall x | x in MaterialHandles(materials) ensures x in CredentialHandles(credentials) {
      var m :| m in materials && m.handleId == x;
      assert MaterialLinked(m, n, credentials, policies);
    }
    forall x | x in CredentialHandles(credentials) ensures x in HandleIds(handles) {
      var c :| c in credentials && c.handleId == x;
      assert CredentialLinked(c, n, handles, profiles);
    }
    SubsetOfEqualSize(MaterialHandles(materials), CredentialHandles(credentials));
    SubsetOfEqualSize(CredentialHandles(credentials), HandleIds(handles));
    KeyedAsSets(materials, credentials);
    UsedAsSets(handles, credentials);
  }

  lemma KeyedAsSets(materials: seq<KeyMaterial>, credentials: seq<Credential>)
    ensures CredentialHandles(credentials) <= MaterialHandles(materials) <==>
      forall c {:trigger Keyed(c.handleId, materials)} :: c in credentials ==> Keyed(c.handleId, materials)
  {
    if CredentialHandles(credentials) <= MaterialHandles(materials) {
      forall c | c in credentials ensures Keyed(c.handleId, materials) {
        assert c.handleId in CredentialHandles(credentials);
      }
    }
    if forall c {:trigger Keyed(c.handleId, materials)} :: c in credentials ==> Keyed(c.handleId, materials) {
      forall x | x in CredentialHandles(credentials) ensures x in MaterialHandles(materials) {
        var c :| c in credentials && c.handleId == x;
        assert Keyed(c.handleId, materials);
      }
    }
  }

  lemma UsedAsSets(handles: seq<Handle>, credentials: seq<Credential>)
    ensures HandleIds(handles) <= CredentialHandles(credentials) <==>
      forall h {:trigger Used(h.id, credentials)} :: h in handles ==> Used(h.id, credentials)
  {
    if HandleIds(handles) <= CredentialHandles(credentials) {
      forall h | h in handles ensures Used(h.id, credentials) {
        assert h.id in HandleIds(handles);
      }
    }
    if forall h {:trigger Used(h.id, credentials)} :: h in handles ==> Used(h.id, credentials) {
      forall x | x in HandleIds(handles) ensures x in CredentialHandles(credentials) {
        var h :| h in handles && h.id == x;
        assert Used(h.id, credentials);
      }
    }
  }

  /** The source's validate(): it accepts exactly the consistent record sets. */
  method Validate(g: Generation) returns (ok: bool)
    requires g.handles != []
    ensures ok <==> Consistent(g)
  {
    hide ValidHandles, ValidProfiles, ValidCredentials, ValidPolicies, ValidMaterials;
    if g.number == 0 { return false; }
    var ids, byId, byHandle, byKey;
    ok, ids := ValidateHandles(g.number, g.handles);
    if !ok { return; }
    ok, byId := ValidateProfiles(g.number, g.profiles);
    if !ok { return; }
    ok, byHandle := ValidateCredentials(g.number, g.credentials, g.handles, ids, g.profiles, byId);
    if !ok { return; }
    ok, byKey := ValidatePolicies(g.number, g.policies, g.profiles, byId);
    if !ok { return; }
    ok := ValidateMaterials(g.number, g.materials, ids, byHandle, byKey, g.credentials, g.policies, g.handles,
                            g.profiles);
  }

  lemma ConsistentSizes(g: Generation)
    requires Consistent(g)
    ensures g.profiles != [] && g.credentials != [] && g.policies != [] && g.materials != []
    ensures |g.handles| == |g.credentials| == |g.materials|
  {
    assert Used(g.handles[0].id, g.credentials);
    var c :| c in g.credentials && c.handleId == g.handles[0].id;
    assert CredentialLinked(c, g.number, g.handles, g.profiles);
    assert Keyed(c.handleId, g.materials);
    var m :| m in g.materials && m.handleId == c.handleId;
    assert MaterialLinked(m, g.number, g.credentials, g.policies);
    CountedByHandle(g);
  }

  lemma CountedByHandle(g: Generation)
    requires Consistent(g)
    ensures |g.handles| == |g.credentials| == |g.materials|
  {
    forall i, j | 0 <= i < j < |g.credentials| ensures g.credentials[i].handleId != g.credentials[j].handleId {
      assert g.credentials[i] != g.credentials[j] && Apart(g.credentials[i], g.credentials[j]);
    }
    HandlesCounted(g.handles);
    CredentialsCounted(g.credentials);
    MaterialsCounted(g.materials);
    hide ValidProfiles, ValidPolicies, Canonical;
    CoverageByCount(g.number, g.materials, g.credentials, g.policies, g.handles, g.profiles);
  }

  lemma {:induction false} HandlesCounted(s: seq<Handle>)
    requires forall i, j :: 0 <= i < j < |s| ==> s[i].id != s[j].id
    ensures |HandleIds(s)| == |s|
  {
    if s != [] {
      var rest := s[..|s| - 1];
      assert s == rest + [s[|s| - 1]];
      HandlesCounted(rest);
      assert HandleIds(s) == HandleIds(rest) + {s[|s| - 1].id};
    }
  }

  lemma {:induction false} CredentialsCounted(s: seq<Credential>)
    requires forall i, j :: 0 <= i < j < |s| ==> s[i].handleId != s[j].handleId
    ensures |CredentialHandles(s)| == |s|
  {
    if s != [] {
      var rest := s[..|s| - 1];
      assert s == rest + [s[|s| - 1]];
      CredentialsCounted(rest);
      assert CredentialHandles(s) == CredentialHandles(rest) + {s[|s| - 1].handleId};
    }
  }

  lemma {:induction false} MaterialsCounted(s: seq<KeyMaterial>)
    requires forall i, j :: 0 <= i < j < |s| ==> s[i].handleId != s[j].handleId
    ensures |MaterialHandles(s)| == |s|
  {
    if s != [] {
      var rest := s[..|s| - 1];
      assert s == rest + [s[|s| - 1]];
      MaterialsCounted(rest);
      assert MaterialHandles(s) == MaterialHandles(rest) + {s[|s| - 1].handleId};
    }
  }

  /** The constructor accepts exactly the consistent record sets, in any order, and returns them in canonical order. */
  method NewGeneration(parts: Generation) returns (result: Result<Generation>)
    ensures result.Ok? <==> Consistent(parts)
    ensures result.Ok? ==> Valid(result.value) && SameRecords(result.value, parts)
  {
    hide ValidHandles, ValidProfiles, ValidCredentials, ValidPolicies, ValidMaterials;
    if parts.number == 0 || parts.handles == [] || parts.profiles == [] || parts.credentials == [] ||
        parts.policies == [] ||
       parts.materials == [] || |parts.materials| != |parts.handles|
    {
      NonemptyNeeded(parts);
      return Err(Invalid);
    }
    var handles := Sort(parts.handles, HandleKey);
    var profiles := Sort(parts.profiles, ProfileKey);
    var credentials := Sort(parts.credentials, CredentialKey);
    var policies := Sort(parts.policies, PolicySortKey);
    var materials := Sort(parts.materials, MaterialKey);
    var g := Generation(parts.number, parts.state, handles, profiles, credentials, policies, materials);
    PermutedElements(g, parts);
    var ok := Validate(g);
    if !ok {
      ConsistentEitherWay(g, parts);
      return Err(Invalid);
    }
    SortedIsCanonical(g);
    PermutedConsistent(g, parts);
    return Ok(g);
  }

  lemma NonemptyNeeded(parts: Generation)
    requires parts.number == 0 || parts.handles == [] || parts.profiles == [] || parts.credentials == [] ||
        parts.policies == [] ||
       parts.materials == [] || |parts.materials| != |parts.handles|
    ensures !Consistent(parts)
  {
    hide Consistent;
    if Consistent(parts) { ConsistentSizes(parts); ConsistentNumber(parts); }
  }

  lemma ConsistentNumber(g: Generation)
    requires Consistent(g)
    ensures g.number > 0 && g.handles != []
  {}

  lemma ConsistentEitherWay(a: Generation, b: Generation)
    requires SameRecords(a, b)
    ensures Consistent(a) <==> Consistent(b)
  {
    hide Consistent;
    if Consistent(a) { PermutedConsistent(a, b); }
    if Consistent(b) { PermutedConsistent(b, a); }
  }
}

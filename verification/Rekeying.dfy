/** Replacing the keys of one bound profile by fresh ones keeps a record set consistent, as long as the new selectors
    fit under the domain. */
module Rekeying {
  import opened Text
  import opened Order
  import opened Records
  import opened Generations
  import opened Snapshots
  import opened Rebasing
  import opened Bindings
  import opened Builders
  import opened Joins
  import opened Kept
  import opened Rotation

  /** The rekeyed profile on its own: its policy and the new keys. */
  ghost function FreshPart(n: Number, profile: Profile, policy: Policy, algorithms: seq<Algorithm>,
                           slots: seq<Slot>): Generation
    requires |algorithms| == |slots| && forall i :: 0 <= i < |slots| ==> Native(slots[i].binding.use)
  {
    var materials := MaterialsOf(n, profile.id, algorithms, slots);
    Generation(n, Staging, HandlesFor(n, materials), [profile], CredentialsOf(n, profile.id, algorithms, slots),
               [policy], materials)
  }

  /** Fresh keys for one bound profile of `x`. */
  ghost predicate Rekeyable(x: Generation, profile: Profile, policy: Policy, b: BindingKey, algorithms: seq<Algorithm>,
                            slots: seq<Slot>)
  {
    && Consistent(x) && x.state == Staging && profile in x.profiles && policy in x.policies
    && policy.profileId == profile.id && PolicyBinding(policy) == b
    && Native(b.use) && Issued(profile.id, b, algorithms, slots) && Unique(algorithms) && algorithms != []
    && DistinctSlots(slots) && Avoids(slots, CredentialSelectors(x.credentials), HandleIds(x.handles))
    && forall s :: s in slots ==> OwnerFits(profile.domain, s.selector)
  }

  lemma FreshHandles(x: Generation, profile: Profile, policy: Policy, b: BindingKey, algorithms: seq<Algorithm>,
                     slots: seq<Slot>)
    requires Rekeyable(x, profile, policy, b, algorithms, slots)
    ensures ValidHandles(x.number, FreshPart(x.number, profile, policy, algorithms, slots).handles)
    ensures ValidProfiles(x.number, FreshPart(x.number, profile, policy, algorithms, slots).profiles)
  {
    hide Consistent, Avoids;
    SourceGenerations(x);
  }

  lemma FreshCredentials(x: Generation, profile: Profile, policy: Policy, b: BindingKey, algorithms: seq<Algorithm>,
                         slots: seq<Slot>)
    requires Rekeyable(x, profile, policy, b, algorithms, slots)
    ensures var f := FreshPart(x.number, profile, policy, algorithms, slots);
      ValidCredentials(x.number, f.credentials, f.handles, f.profiles)
  {
    hide Consistent, Avoids, OwnerFits;
    var f := FreshPart(x.number, profile, policy, algorithms, slots);
    forall i | 0 <= i < |slots| ensures CredentialLinked(f.credentials[i], x.number, f.handles, f.profiles) {
      assert slots[i] in slots && f.handles[i] in f.handles && profile in f.profiles;
    }
    forall i, j | 0 <= i < j < |slots|
      ensures Apart(f.credentials[i], f.credentials[j]) && Apart(f.credentials[j], f.credentials[i])
    {}
    assert f.credentials[0] in f.credentials;
    assert Owned(profile.id, f.credentials);
  }

  lemma FreshPolicies(x: Generation, profile: Profile, policy: Policy, b: BindingKey, algorithms: seq<Algorithm>,
                      slots: seq<Slot>)
    requires Rekeyable(x, profile, policy, b, algorithms, slots)
    ensures ValidPolicies(x.number, [policy], [profile])
  {
    hide ValidCredentials, ValidMaterials, ValidHandles, Avoids, OwnerFits;
    assert PolicyLinked(policy, x.number, x.profiles);
    var p :| p in x.profiles && p.id == policy.profileId && p.domain == policy.domain &&
        (policy.status == Active || policy.rollout == Enforce ==> p.status == Active);
    assert p == profile;
    assert profile in [profile];
    assert PolicyLinked(policy, x.number, [profile]);
  }

  lemma FreshMaterials(x: Generation, profile: Profile, policy: Policy, b: BindingKey, algorithms: seq<Algorithm>,
                       slots: seq<Slot>)
    requires Rekeyable(x, profile, policy, b, algorithms, slots)
    ensures var f := FreshPart(x.number, profile, policy, algorithms, slots);
      ValidMaterials(x.number, f.materials, f.credentials, f.policies, f.handles)
  {
    hide Consistent, Avoids, OwnerFits;
    var f := FreshPart(x.number, profile, policy, algorithms, slots);
    forall i | 0 <= i < |slots|
      ensures
        && MaterialLinked(f.materials[i], x.number, f.credentials, f.policies)
        && Keyed(f.credentials[i].handleId, f.materials) && Used(f.handles[i].id, f.credentials)
    {
      assert f.credentials[i] in f.credentials && policy in f.policies && f.materials[i] in f.materials;
    }
    forall i, j | 0 <= i < |slots| && 0 <= j < |slots| && f.materials[i].handleId == f.materials[j].handleId
      ensures i == j
    {
      assert slots[i].handle == slots[j].handle;
    }
  }

  lemma FreshIsRelated(x: Generation, profile: Profile, policy: Policy, b: BindingKey, algorithms: seq<Algorithm>,
                       slots: seq<Slot>)
    requires Rekeyable(x, profile, policy, b, algorithms, slots)
    ensures Related(FreshPart(x.number, profile, policy, algorithms, slots))
  {
    hide Rekeyable, ValidHandles, ValidProfiles, ValidCredentials, ValidPolicies, ValidMaterials;
    assert |algorithms| == |slots| && forall i :: 0 <= i < |slots| ==> Native(slots[i].binding.use) by {
      SlotsNative(x, profile, policy, b, algorithms, slots);
    }
    FreshHandles(x, profile, policy, b, algorithms, slots);
    FreshCredentials(x, profile, policy, b, algorithms, slots);
    FreshPolicies(x, profile, policy, b, algorithms, slots);
    FreshMaterials(x, profile, policy, b, algorithms, slots);
  }

  lemma SlotsNative(x: Generation, profile: Profile, policy: Policy, b: BindingKey, algorithms: seq<Algorithm>,
                    slots: seq<Slot>)
    requires Rekeyable(x, profile, policy, b, algorithms, slots)
    ensures |algorithms| == |slots| && forall i :: 0 <= i < |slots| ==> Native(slots[i].binding.use)
  {}

  /** What stays and what is new share nothing. */
  lemma FreshIsDisjoint(x: Generation, profile: Profile, policy: Policy, b: BindingKey, algorithms: seq<Algorithm>,
                        slots: seq<Slot>)
    requires Rekeyable(x, profile, policy, b, algorithms, slots) && OnlyPolicy(ViewOf(x), profile.id, b)
    ensures Disjoint(KeptPart(x, b, profile.id, x.number), FreshPart(x.number, profile, policy, algorithms, slots))
  {
    hide Consistent, ViewOf, KeptPart, Part, OwnerFits, OnlyPolicy, DistinctSlots;
    var kept, f := KeptPart(x, b, profile.id, x.number), FreshPart(x.number, profile, policy, algorithms, slots);
    var keep: Id -> bool := id => id != profile.id;
    KeptIsPart(x, b, profile.id, x.number);
    KeptNumber(x, b, profile.id, x.number);
    forall h, g | h in kept.handles && g in f.handles ensures h.id != g.id {
      HandleOwner(x, kept, keep, h);
      var c :| c in x.credentials && keep(c.profileId) && c.handleId == h.id;
      CredentialHandleListed(x, c);
      var i :| 0 <= i < |f.handles| && f.handles[i] == g;
      assert slots[i] in slots;
    }
    forall c, d | c in kept.credentials && d in f.credentials ensures c.selector != d.selector {
      CredentialOwner(x, kept, keep, c);
      var i :| 0 <= i < |f.credentials| && f.credentials[i] == d;
      assert slots[i] in slots;
      SelectorListed(x, RebaseCredential(c, x.number));
    }
    forall p, q | p in kept.profiles && q in f.profiles ensures p.id != q.id { ProfileOwner(x, kept, keep, p); }
    forall p, q | p in kept.policies && q in f.policies ensures PolicyBinding(p) != PolicyBinding(q) {
      PolicyOwner(x, kept, keep, p);
      SameBindingSamePolicy(x, RebasePolicy(p, x.number), policy);
    }
  }

  lemma KeptNumber(x: Generation, b: BindingKey, p: Id, n: Number)
    ensures KeptPart(x, b, p, n).number == n
  {}

  lemma CredentialHandleListed(x: Generation, c: Credential)
    requires Consistent(x) && c in x.credentials
    ensures c.handleId in HandleIds(x.handles)
  {
    assert CredentialLinked(c, x.number, x.handles, x.profiles);
  }

  lemma SelectorListed(x: Generation, c: Credential)
    requires c in x.credentials
    ensures c.selector in CredentialSelectors(x.credentials)
  {}

  lemma SameBindingSamePolicy(x: Generation, p: Policy, q: Policy)
    requires Consistent(x) && p in x.policies && q in x.policies
    ensures PolicyBinding(p) == PolicyBinding(q) ==> p == q
  {}

  lemma {:induction false} OnlyOneRemoved<T>(s: seq<T>, key: T -> string, x: T)
    requires Unique(s) && x in s && forall y :: y in s && key(y) == key(x) ==> y == x
    ensures multiset(Without(s, key, {key(x)}) + [x]) == multiset(s)
  {
    var last := |s| - 1;
    var rest := s[..last];
    assert s == rest + [s[last]];
    if s[last] == x {
      forall y | y in rest ensures key(y) != key(x) {
        var i :| 0 <= i < |rest| && rest[i] == y;
        assert s[i] != s[last];
      }
      WithoutNone(rest, key, {key(x)});
    } else {
      assert Unique(rest);
      OnlyOneRemoved(rest, key, x);
      assert key(s[last]) != key(x);
      var w := Without(rest, key, {key(x)});
      assert multiset(w + [s[last]] + [x]) == multiset(w + [x]) + multiset{s[last]};
    }
  }

  lemma UnchangedNumbers(x: Generation)
    requires Consistent(x)
    ensures forall h :: h in x.handles ==> RebaseHandle(h, x.number) == h
    ensures forall p :: p in x.profiles ==> RebaseProfile(p, x.number) == p
    ensures forall c :: c in x.credentials ==> RebaseCredential(c, x.number) == c
    ensures forall q :: q in x.policies ==> RebasePolicy(q, x.number) == q
    ensures forall m :: m in x.materials ==> RebaseMaterial(m, x.number) == m
  {
    hide Consistent;
    SourceGenerations(x);
  }

  lemma KeptByHandle(x: Generation, b: BindingKey, p: Id)
    requires Consistent(x)
    ensures var kept, removed := KeptPart(x, b, p, x.number), ProfileHandles(x.credentials, p);
      && kept.handles == Without(x.handles, HandleName, removed)
      && kept.materials == Without(x.materials, MaterialName, removed)
  {
    hide Consistent, Without, ProfileHandles, PolicyKey;
    UnchangedNumbers(x);
    var kept, removed := KeptPart(x, b, p, x.number), ProfileHandles(x.credentials, p);
    WithoutMember(x.handles, HandleName, removed);
    WithoutMember(x.materials, MaterialName, removed);
    var hs, ms := Without(x.handles, HandleName, removed), Without(x.materials, MaterialName, removed);
    assert forall i :: 0 <= i < |hs| ==> hs[i] in hs && kept.handles[i] == hs[i];
    assert forall i :: 0 <= i < |ms| ==> ms[i] in ms && kept.materials[i] == ms[i];
  }

  /** The kept lists under the same number are the filtered lists themselves. */
  lemma KeptLists(x: Generation, b: BindingKey, p: Id)
    requires Consistent(x)
    ensures var kept, removed := KeptPart(x, b, p, x.number), ProfileHandles(x.credentials, p);
      && kept.handles == Without(x.handles, HandleName, removed)
      && kept.profiles == Without(x.profiles, ProfileName, {p})
      && kept.credentials == Without(x.credentials, OwnerName, {p})
      && kept.policies == Without(x.policies, PolicyName, {PolicyKey(b)})
      && kept.materials == Without(x.materials, MaterialName, removed)
  {
    hide Consistent, Without, ProfileHandles, PolicyKey;
    KeptByHandle(x, b, p);
    UnchangedNumbers(x);
    var kept := KeptPart(x, b, p, x.number);
    WithoutMember(x.profiles, ProfileName, {p});
    WithoutMember(x.credentials, OwnerName, {p});
    WithoutMember(x.policies, PolicyName, {PolicyKey(b)});
    var ps, cs := Without(x.profiles, ProfileName, {p}), Without(x.credentials, OwnerName, {p});
    var qs := Without(x.policies, PolicyName, {PolicyKey(b)});
    assert forall i :: 0 <= i < |ps| ==> ps[i] in ps && kept.profiles[i] == ps[i];
    assert forall i :: 0 <= i < |cs| ==> cs[i] in cs && kept.credentials[i] == cs[i];
    assert forall i :: 0 <= i < |qs| ==> qs[i] in qs && kept.policies[i] == qs[i];
  }

  /** Kept and fresh records together are the rekeyed set, up to order. */
  lemma RekeyIsUnion(x: Generation, profile: Profile, policy: Policy, b: BindingKey, algorithms: seq<Algorithm>,
                     slots: seq<Slot>)
    requires Rekeyable(x, profile, policy, b, algorithms, slots)
    ensures SameRecords(Union(KeptPart(x, b, profile.id, x.number),
        FreshPart(x.number, profile, policy, algorithms, slots)),
                        Rekey(x, profile.id, CredentialsOf(x.number, profile.id, algorithms, slots),
                        MaterialsOf(x.number, profile.id, algorithms, slots)))
  {
    hide Consistent, Without, ProfileHandles, PolicyKey, Avoids, DistinctSlots, OwnerFits, CredentialsOf, MaterialsOf,
      HandlesFor;
    KeptLists(x, b, profile.id);
    KeptNumber(x, b, profile.id, x.number);
    SourceGenerations(x);
    forall p | p in x.profiles && ProfileName(p) == ProfileName(profile) ensures p == profile {
      SameIdSameProfile(x, p, profile);
    }
    OnlyOneRemoved(x.profiles, ProfileName, profile);
    forall q | q in x.policies && PolicyName(q) == PolicyName(policy) ensures q == policy {
      PolicyKeyInjective(PolicyBinding(q), PolicyBinding(policy));
      SameBindingSamePolicy(x, q, policy);
    }
    OnlyOneRemoved(x.policies, PolicyName, policy);
  }

  lemma SameIdSameProfile(x: Generation, p: Profile, q: Profile)
    requires Consistent(x) && p in x.profiles && q in x.profiles && p.id == q.id
    ensures p == q
  {}

  /** Rekeying with fresh fitting keys keeps the record set consistent. */
  lemma RekeyKeepsConsistent(x: Generation, profile: Profile, policy: Policy, b: BindingKey, algorithms: seq<Algorithm>,
                             slots: seq<Slot>)
    requires Rekeyable(x, profile, policy, b, algorithms, slots) && OnlyPolicy(ViewOf(x), profile.id, b)
    ensures |algorithms| == |slots| && forall i :: 0 <= i < |slots| ==> Native(slots[i].binding.use)
    ensures Consistent(Rekey(x, profile.id, CredentialsOf(x.number, profile.id, algorithms, slots),
        MaterialsOf(x.number, profile.id, algorithms, slots)))
  {
    hide Related, Disjoint, KeptPart, FreshPart, OnlyPolicy, ViewOf, ValidHandles, ValidProfiles, ValidCredentials,
      ValidPolicies, ValidMaterials, Rekey, Part, OwnerFits;
    var n := x.number;
    SlotsNative(x, profile, policy, b, algorithms, slots);
    var kept, added := KeptPart(x, b, profile.id, n), FreshPart(n, profile, policy, algorithms, slots);
    KeptIsPart(x, b, profile.id, n);
    KeptNumber(x, b, profile.id, n);
    PartRelated(x, kept, id => id != profile.id);
    FreshIsRelated(x, profile, policy, b, algorithms, slots);
    FreshIsDisjoint(x, profile, policy, b, algorithms, slots);
    FreshNumber(n, profile, policy, algorithms, slots);
    UnionRelated(kept, added);
    UnionConsistent(x, kept, added);
    RekeyIsUnion(x, profile, policy, b, algorithms, slots);
    PermutedConsistent(Union(kept, added),
        Rekey(x, profile.id, CredentialsOf(n, profile.id, algorithms, slots),
        MaterialsOf(n, profile.id, algorithms, slots)));
  }

  lemma FreshNumber(n: Number, profile: Profile, policy: Policy, algorithms: seq<Algorithm>, slots: seq<Slot>)
    requires |algorithms| == |slots| && forall i :: 0 <= i < |slots| ==> Native(slots[i].binding.use)
    ensures FreshPart(n, profile, policy, algorithms, slots).number == n
    ensures |FreshPart(n, profile, policy, algorithms, slots).handles| == |slots|
  {}

  lemma UnionConsistent(x: Generation, kept: Generation, added: Generation)
    requires Consistent(x) && Related(Union(kept, added)) && kept.number == x.number && added.handles != []
    ensures Consistent(Union(kept, added))
  {
    hide ValidHandles, ValidProfiles, ValidCredentials, ValidPolicies, ValidMaterials;
  }
}

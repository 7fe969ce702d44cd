/** Lookups of policies, profiles, credentials and key materials, and what they mean on the table of slots. */
module Bindings {
  import opened Wrappers
  import opened Text
  import opened Records
  import opened Generations
  import opened Snapshots

  /** `b` is the one policy that names profile `p`. */
  ghost predicate OnlyPolicy(v: View, p: Id, b: BindingKey)
  {
    && b in v.policies && v.policies[b].profile == p
    && forall x :: x in v.policies && v.policies[x].profile == p ==> x == b
  }

  /** An active policy that alone names an active profile. */
  ghost predicate ActiveBinding(v: View, b: BindingKey)
  {
    && b in v.policies && v.policies[b].status == Active
    && OnlyPolicy(v, v.policies[b].profile, b)
    && v.policies[b].profile in v.profiles && v.profiles[v.policies[b].profile].status == Active
  }

  /** A policy for each profile, as the lineage projection needs. */
  ghost predicate OnePolicyPerProfile(v: View)
  {
    forall p {:trigger HasOnlyPolicy(v, p)} :: p in v.profiles ==> HasOnlyPolicy(v, p)
  }

  ghost predicate HasOnlyPolicy(v: View, p: Id) { exists b :: OnlyPolicy(v, p, b) }

  lemma PolicyOf(g: Generation, q: Policy)
    requires Consistent(g) && q in g.policies
    ensures PolicyBinding(q) in ViewOf(g).policies && ViewOf(g).policies[PolicyBinding(q)] == FactsOfPolicy(q)
    ensures q.profileId in ViewOf(g).profiles && ViewOf(g).profiles[q.profileId].domain == q.domain
    ensures q.status == Active ==> ViewOf(g).profiles[q.profileId].status == Active
  {
    hide Consistent, SlotTable, ProfileTable, PolicyTable;
    PolicyIntro(g, q);
    ConsistentView(g);
    assert PolicyFits(ViewOf(g), PolicyBinding(q));
  }

  method ProfileById(g: Generation, id: Id) returns (found: Option<Profile>)
    requires Consistent(g)
    ensures found.Some? <==> id in ViewOf(g).profiles
    ensures found.Some? ==>
      found.value in g.profiles && found.value.id == id && ViewOf(g).profiles[id] == FactsOfProfile(found.value)
  {
    hide Consistent, SlotTable, PolicyTable, ProfileTable;
    for i := 0 to |g.profiles|
      invariant forall j :: 0 <= j < i ==> g.profiles[j].id != id
    {
      if g.profiles[i].id == id {
        ProfileIntro(g, g.profiles[i]);
        return Some(g.profiles[i]);
      }
    }
    if id in ViewOf(g).profiles {
      ghost var p := ProfileElim(g, id);
    }
    found := None;
  }

  method PolicyAt(g: Generation, b: BindingKey) returns (found: Option<Policy>)
    requires Consistent(g)
    ensures found.Some? <==> b in ViewOf(g).policies
    ensures found.Some? ==>
      && found.value in g.policies && PolicyBinding(found.value) == b
      && ViewOf(g).policies[b] == FactsOfPolicy(found.value)
  {
    hide Consistent, SlotTable, PolicyTable, ProfileTable;
    for i := 0 to |g.policies|
      invariant forall j :: 0 <= j < i ==> PolicyBinding(g.policies[j]) != b
    {
      if g.policies[i].tenant == b.tenant && g.policies[i].domain == b.domain && g.policies[i].use == b.use {
        PolicyIntro(g, g.policies[i]);
        return Some(g.policies[i]);
      }
    }
    if b in ViewOf(g).policies {
      ghost var q := PolicyElim(g, b);
    }
    found := None;
  }

  method MaterialByHandle(g: Generation, handle: Id) returns (found: Option<KeyMaterial>)
    ensures found.Some? <==> Keyed(handle, g.materials)
    ensures found.Some? ==> found.value in g.materials && found.value.handleId == handle
  {
    for i := 0 to |g.materials|
      invariant forall j :: 0 <= j < i ==> g.materials[j].handleId != handle
    {
      if g.materials[i].handleId == handle { return Some(g.materials[i]); }
    }
    found := None;
  }

  /** What a pass over the policies has counted. */
  ghost predicate Counted(s: seq<Policy>, p: Id, count: nat, last: Option<Policy>)
  {
    && (count == 0 <==> forall j :: 0 <= j < |s| ==> s[j].profileId != p)
    && (count == 1 ==>
          && last.Some?
          && exists k ::
               && 0 <= k < |s| && s[k] == last.value && s[k].profileId == p
               && forall j :: 0 <= j < |s| && j != k ==> s[j].profileId != p)
    && (count >= 2 ==> exists j, k :: 0 <= j < k < |s| && s[j].profileId == p && s[k].profileId == p)
  }

  lemma CountedStep(s: seq<Policy>, q: Policy, p: Id, count: nat, last: Option<Policy>)
    requires Counted(s, p, count, last)
    ensures q.profileId != p ==> Counted(s + [q], p, count, last)
    ensures q.profileId == p ==> Counted(s + [q], p, count + 1, Some(q))
  {
    var t := s + [q];
    assert forall i :: 0 <= i < |s| ==> t[i] == s[i];
    assert t[|s|] == q;
    if count == 1 {
      var k :| 0 <= k < |s| && s[k] == last.value && s[k].profileId == p && forall j :: 0 <= j < |s| && j != k ==>
          s[j].profileId != p;
      assert t[k] == last.value;
      if q.profileId == p { assert 0 <= k < |s| < |t| && t[k].profileId == p && t[|s|].profileId == p; }
    }
    if count >= 2 {
      var j, k :| 0 <= j < k < |s| && s[j].profileId == p && s[k].profileId == p;
      assert t[j].profileId == p && t[k].profileId == p;
    }
  }

  /** The policy that alone names a profile, if there is exactly one. */
  method ExclusivePolicyForProfile(g: Generation, p: Id) returns (found: Option<Policy>)
    requires Consistent(g)
    ensures found.Some? <==> HasOnlyPolicy(ViewOf(g), p)
    ensures found.Some? ==> found.value in g.policies && OnlyPolicy(ViewOf(g), p, PolicyBinding(found.value))
  {
    hide Consistent, SlotTable, PolicyTable, ProfileTable, Counted, OnlyPolicy;
    var count, last := 0, None;
    CountedNone(p);
    for i := 0 to |g.policies|
      invariant Counted(g.policies[..i], p, count, last)
    {
      CountedStep(g.policies[..i], g.policies[i], p, count, last);
      assert g.policies[..i + 1] == g.policies[..i] + [g.policies[i]];
      if g.policies[i].profileId == p {
        last := Some(g.policies[i]);
        count := count + 1;
      }
    }
    assert g.policies[..|g.policies|] == g.policies;
    CountedMeaning(g, p, count, last);
    found := if count == 1 then last else None;
  }

  lemma CountedNone(p: Id)
    ensures Counted([], p, 0, None)
  {}

  lemma CountedMeaning(g: Generation, p: Id, count: nat, last: Option<Policy>)
    requires Consistent(g) && Counted(g.policies, p, count, last)
    ensures count == 1 <==> HasOnlyPolicy(ViewOf(g), p)
    ensures count == 1 ==> last.Some? && last.value in g.policies && OnlyPolicy(ViewOf(g), p, PolicyBinding(last.value))
  {
    hide SlotTable, PolicyTable, ProfileTable, ValidCredentials, ValidMaterials, ValidProfiles, ValidHandles;
    if count == 1 {
      var k :| 0 <= k < |g.policies| && g.policies[k] == last.value && g.policies[k].profileId == p &&
        forall j :: 0 <= j < |g.policies| && j != k ==> g.policies[j].profileId != p;
      PolicyIntro(g, g.policies[k]);
      forall x | x in ViewOf(g).policies && ViewOf(g).policies[x].profile == p
        ensures x == PolicyBinding(g.policies[k])
      {
        var q := PolicyElim(g, x);
        var i :| 0 <= i < |g.policies| && g.policies[i] == q;
      }
      assert OnlyPolicy(ViewOf(g), p, PolicyBinding(last.value));
    } else if HasOnlyPolicy(ViewOf(g), p) {
      var b :| OnlyPolicy(ViewOf(g), p, b);
      var q := PolicyElim(g, b);
      if count >= 2 {
        var j, k :| 0 <= j < k < |g.policies| && g.policies[j].profileId == p && g.policies[k].profileId == p;
        PolicyIntro(g, g.policies[j]);
        PolicyIntro(g, g.policies[k]);
      }
    }
  }

  /** The credentials of one profile in canonical order. */
  method CredentialsForProfile(g: Generation, p: Id) returns (result: seq<Credential>)
    requires Consistent(g)
    ensures forall c :: c in result <==> c in g.credentials && c.profileId == p
    ensures forall i, j :: 0 <= i < j < |result| ==> result[i].algorithm != result[j].algorithm
    ensures result == [] <==> p !in ViewOf(g).profiles
  {
    hide SlotTable, PolicyTable, ProfileTable, ValidPolicies, ValidMaterials, ValidProfiles, ValidHandles,
      CredentialLinked;
    result := [];
    for i := 0 to |g.credentials|
      invariant forall c :: c in result <==> c in g.credentials[..i] && c.profileId == p
      invariant forall j, k :: 0 <= j < k < |result| ==> result[j].algorithm != result[k].algorithm
    {
      assert g.credentials[..i + 1] == g.credentials[..i] + [g.credentials[i]];
      if g.credentials[i].profileId == p {
        AlgorithmsApart(g, i);
        assert forall j :: 0 <= j < |result| ==> result[j] in result;
        result := result + [g.credentials[i]];
      }
    }
    assert g.credentials[..|g.credentials|] == g.credentials;
    ProfileOwnsCredentials(g, p);
    assert result != [] ==> result[0] in result;
  }

  lemma AlgorithmsApart(g: Generation, i: nat)
    requires Consistent(g) && i < |g.credentials|
    ensures forall c :: c in g.credentials[..i] && c.profileId == g.credentials[i].profileId ==>
      c.algorithm != g.credentials[i].algorithm
  {
    hide CredentialLinked, ValidPolicies, ValidMaterials, ValidProfiles, ValidHandles;
    forall c | c in g.credentials[..i] && c.profileId == g.credentials[i].profileId
      ensures c.algorithm != g.credentials[i].algorithm
    {
      var j :| 0 <= j < i && g.credentials[j] == c;
      assert g.credentials[j] != g.credentials[i];
      assert Apart(g.credentials[j], g.credentials[i]);
    }
  }

  lemma ProfileOwnsCredentials(g: Generation, p: Id)
    requires Consistent(g)
    ensures p in ViewOf(g).profiles <==> exists c :: c in g.credentials && c.profileId == p
  {
    hide Consistent, SlotTable, PolicyTable, ProfileTable;
    ConsistentView(g);
    if p in ViewOf(g).profiles {
      assert HasSlot(ViewOf(g), p);
      var a :| SlotKey(p, a) in ViewOf(g).slots;
      var c, m := SlotElim(g, SlotKey(p, a));
    }
    if c :| c in g.credentials && c.profileId == p {
      var m := CredentialHasSlot(g, c);
      assert SlotLinked(ViewOf(g), CredentialSlot(c));
    }
  }

  /** One exact active binding with its profile and credentials. */
  method ExactActiveBinding(g: Generation, b: BindingKey) returns (result: Result<(Policy, Profile, seq<Credential>)>)
    requires Consistent(g)
    ensures result.Ok? <==> ActiveBinding(ViewOf(g), b)
    ensures result.Ok? ==>
      var (policy, profile, credentials) := result.value;
      && policy in g.policies && PolicyBinding(policy) == b && policy.profileId == profile.id
      && ViewOf(g).policies[b].profile == profile.id && profile in g.profiles
      && credentials != []
      && (forall c :: c in credentials <==> c in g.credentials && c.profileId == profile.id)
      && (forall i, j :: 0 <= i < j < |credentials| ==> credentials[i].algorithm != credentials[j].algorithm)
  {
    hide Consistent, SlotTable, PolicyTable, ProfileTable;
    var policy := PolicyAt(g, b);
    if policy.None? || policy.value.status != Active { return Err(Invalid); }
    PolicyOf(g, policy.value);
    var profile := ProfileById(g, policy.value.profileId);
    if profile.None? || profile.value.status != Active { return Err(Invalid); }
    var only := ExclusivePolicyForProfile(g, profile.value.id);
    if only.None? { return Err(Invalid); }
    PolicyOf(g, only.value);
    var credentials := CredentialsForProfile(g, profile.value.id);
    if credentials == [] { return Err(Invalid); }
    result := Ok((policy.value, profile.value, credentials));
  }

  /** All keys of a profile with a single policy are bound to that policy. */
  lemma SoleBinding(v: View, p: Id, b: BindingKey, k: SlotKey)
    requires ValidView(v) && OnlyPolicy(v, p, b) && k in v.slots && k.profile == p
    ensures v.slots[k].binding == b
  {
    assert SlotLinked(v, k);
  }

  /** Only a natively held key keeps a profile alive, so an active binding has a native use. */
  lemma NativeBinding(S: View, b: BindingKey)
    requires ValidView(S) && ActiveBinding(S, b)
    ensures Native(b.use)
  {
    var p := S.policies[b].profile;
    assert HasSlot(S, p);
    var a :| SlotKey(p, a) in S.slots;
    SoleBinding(S, p, b, SlotKey(p, a));
    assert SlotLinked(S, SlotKey(p, a));
  }
}

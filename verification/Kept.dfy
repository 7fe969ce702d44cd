/** The records that stay when one profile with its only policy and its keys is taken out of a consistent set. */
module Kept {
  import opened Text
  import opened Order
  import opened Records
  import opened Generations
  import opened Snapshots
  import opened Rebasing
  import opened Bindings
  import opened Builders
  import opened Joins

  function ProfileName(p: Profile): string { p.id }

  function PolicyName(q: Policy): string { PolicyKey(PolicyBinding(q)) }

  lemma {:induction false} WithoutUnique<T>(s: seq<T>, key: T -> string, removed: set<string>)
    requires Unique(s)
    ensures Unique(Without(s, key, removed))
  {
    if s != [] {
      var rest := s[..|s| - 1];
      assert Unique(rest);
      WithoutUnique(rest, key, removed);
      WithoutMember(rest, key, removed);
    }
  }

  /** The current records that stay, renumbered. */
  ghost function KeptPart(C: Generation, b: BindingKey, pc: Id, n: Number): Generation
  {
    var removed := ProfileHandles(C.credentials, pc);
    Generation(n, Staging, RebaseHandles(Without(C.handles, HandleName, removed), n),
        RebaseProfiles(Without(C.profiles, ProfileName, {pc}), n),
               RebaseCredentials(Without(C.credentials, OwnerName, {pc}), n),
               RebasePolicies(Without(C.policies, PolicyName, {PolicyKey(b)}), n),
               RebaseMaterials(Without(C.materials, MaterialName, removed), n))
  }

  /** A handle stays exactly when a credential of another profile uses it. */
  lemma KeptHandles(C: Generation, pc: Id, handleId: Id)
    requires Consistent(C)
    ensures KeptHandle(C, id => id != pc, handleId) <==>
      Handle(C.number, handleId) in C.handles && handleId !in ProfileHandles(C.credentials, pc)
  {
    hide ValidProfiles, ValidPolicies, Unique;
    SourceGenerations(C);
    if KeptHandle(C, id => id != pc, handleId) {
      var c :| c in C.credentials && c.profileId != pc && c.handleId == handleId;
      assert CredentialLinked(c, C.number, C.handles, C.profiles);
      forall d | d in C.credentials && d.profileId == pc ensures d.handleId != handleId { assert Apart(c, d); }
    }
    if Handle(C.number, handleId) in C.handles && handleId !in ProfileHandles(C.credentials, pc) {
      assert Used(Handle(C.number, handleId).id, C.credentials);
      var c :| c in C.credentials && c.handleId == handleId;
      assert c.profileId == pc ==> CredentialName(c) in ProfileHandles(C.credentials, pc);
    }
  }

  lemma KeptPartHandles(C: Generation, b: BindingKey, pc: Id, n: Number)
    requires Consistent(C)
    ensures HandlePart(C, KeptPart(C, b, pc, n), id => id != pc)
  {
    hide Consistent, ProfileHandles, KeptHandle;
    SourceGenerations(C);
    var removed := ProfileHandles(C.credentials, pc);
    var kept := Without(C.handles, HandleName, removed);
    WithoutUnique(C.handles, HandleName, removed);
    WithoutMember(C.handles, HandleName, removed);
    var r := RebaseHandles(kept, n);
    forall i, j | 0 <= i < j < |r| ensures r[i] != r[j] { assert kept[i] in kept && kept[j] in kept; }
    forall h ensures h in r <==> h.generation == n && KeptHandle(C, id => id != pc, h.id) {
      KeptHandles(C, pc, h.id);
      if h in r {
        var i :| 0 <= i < |r| && r[i] == h;
        assert kept[i] in kept && kept[i] == Handle(C.number, h.id);
      }
      if h.generation == n && Handle(C.number, h.id) in kept {
        var i :| 0 <= i < |kept| && kept[i] == Handle(C.number, h.id);
        assert r[i] == h;
      }
    }
  }

  lemma KeptPartProfiles(C: Generation, b: BindingKey, pc: Id, n: Number)
    requires Consistent(C)
    ensures ProfilePart(C, KeptPart(C, b, pc, n), id => id != pc)
  {
    hide Consistent;
    SourceGenerations(C);
    var kept := Without(C.profiles, ProfileName, {pc});
    WithoutUnique(C.profiles, ProfileName, {pc});
    WithoutMember(C.profiles, ProfileName, {pc});
    RebasedProfiles(kept, n);
    var r := RebaseProfiles(kept, n);
    forall i, j | 0 <= i < j < |r| ensures r[i] != r[j] {
      assert kept[i] in kept && kept[j] in kept && kept[i] == RebaseProfile(r[i], C.number);
      assert kept[j] == RebaseProfile(r[j], C.number);
    }
    forall p ensures p in r <==> p.generation == n && RebaseProfile(p, C.number) in C.profiles && p.id != pc {
      if p in r {
        var i :| 0 <= i < |r| && r[i] == p;
        assert kept[i] in kept && RebaseProfile(p, C.number) == kept[i];
      }
      if p.generation == n && RebaseProfile(p, C.number) in kept {
        assert RebaseProfile(RebaseProfile(p, C.number), n) == p;
      }
    }
  }

  lemma KeptPartCredentials(C: Generation, b: BindingKey, pc: Id, n: Number)
    requires Consistent(C)
    ensures CredentialPart(C, KeptPart(C, b, pc, n), id => id != pc)
  {
    hide Consistent;
    SourceGenerations(C);
    var kept := Without(C.credentials, OwnerName, {pc});
    WithoutUnique(C.credentials, OwnerName, {pc});
    WithoutMember(C.credentials, OwnerName, {pc});
    RebasedCredentials(kept, n);
    var r := RebaseCredentials(kept, n);
    forall i, j | 0 <= i < j < |r| ensures r[i] != r[j] {
      assert kept[i] in kept && kept[j] in kept && kept[i] == RebaseCredential(r[i], C.number);
      assert kept[j] == RebaseCredential(r[j], C.number);
    }
    forall c
      ensures c in r <==> c.generation == n && RebaseCredential(c, C.number) in C.credentials && c.profileId != pc
    {
      if c in r {
        var i :| 0 <= i < |r| && r[i] == c;
        assert kept[i] in kept && RebaseCredential(c, C.number) == kept[i];
      }
      if c.generation == n && RebaseCredential(c, C.number) in kept {
        assert RebaseCredential(RebaseCredential(c, C.number), n) == c;
      }
    }
  }

  /** Leaving out the target policy is leaving out the policies of its profile. */
  lemma KeptPolicies(C: Generation, b: BindingKey, pc: Id, q: Policy)
    requires Consistent(C) && OnlyPolicy(ViewOf(C), pc, b) && q in C.policies
    ensures PolicyName(q) != PolicyKey(b) <==> q.profileId != pc
  {
    hide Consistent, PolicyKey, SlotTable, ProfileTable, PolicyTable;
    PolicyOf(C, q);
    if PolicyName(q) == PolicyKey(b) { PolicyKeyInjective(PolicyBinding(q), b); }
  }

  lemma KeptPartPolicies(C: Generation, b: BindingKey, pc: Id, n: Number)
    requires Consistent(C) && OnlyPolicy(ViewOf(C), pc, b)
    ensures PolicyPart(C, KeptPart(C, b, pc, n), id => id != pc)
  {
    hide Consistent, PolicyKey, ViewOf, OnlyPolicy, PolicyName;
    SourceGenerations(C);
    var kept := Without(C.policies, PolicyName, {PolicyKey(b)});
    WithoutUnique(C.policies, PolicyName, {PolicyKey(b)});
    WithoutMember(C.policies, PolicyName, {PolicyKey(b)});
    forall q | q in C.policies ensures q in kept <==> q.profileId != pc { KeptPolicies(C, b, pc, q); }
    RebasedPolicies(kept, n);
    var r := RebasePolicies(kept, n);
    forall i, j | 0 <= i < j < |r| ensures r[i] != r[j] {
      assert kept[i] in kept && kept[j] in kept && kept[i] == RebasePolicy(r[i], C.number);
      assert kept[j] == RebasePolicy(r[j], C.number);
    }
    forall q ensures q in r <==> q.generation == n && RebasePolicy(q, C.number) in C.policies && q.profileId != pc {
      if q in r {
        var i :| 0 <= i < |r| && r[i] == q;
        assert kept[i] in kept && RebasePolicy(q, C.number) == kept[i];
      }
      if q.generation == n && RebasePolicy(q, C.number) in kept {
        assert RebasePolicy(RebasePolicy(q, C.number), n) == q;
      }
    }
  }

  lemma ListedHandle(C: Generation, m: KeyMaterial)
    requires Consistent(C) && m in C.materials
    ensures Handle(C.number, m.handleId) in C.handles
  {
    hide ValidProfiles, ValidPolicies, Unique, ValidCredentials;
    MaterialHandle(C, m);
    SourceGenerations(C);
  }

  lemma KeptPartMaterials(C: Generation, b: BindingKey, pc: Id, n: Number)
    requires Consistent(C)
    ensures MaterialPart(C, KeptPart(C, b, pc, n), id => id != pc)
  {
    hide Consistent, ProfileHandles, KeptHandle;
    SourceGenerations(C);
    var removed := ProfileHandles(C.credentials, pc);
    var kept := Without(C.materials, MaterialName, removed);
    WithoutUnique(C.materials, MaterialName, removed);
    WithoutMember(C.materials, MaterialName, removed);
    RebasedMaterials(kept, n);
    var r := RebaseMaterials(kept, n);
    forall i, j | 0 <= i < j < |r| ensures r[i] != r[j] {
      assert kept[i] in kept && kept[j] in kept && kept[i] == RebaseMaterial(r[i], C.number);
      assert kept[j] == RebaseMaterial(r[j], C.number);
    }
    forall m
      ensures m in r <==>
        m.generation == n && RebaseMaterial(m, C.number) in C.materials && KeptHandle(C, id => id != pc, m.handleId)
    {
      KeptHandles(C, pc, m.handleId);
      if m in r {
        var i :| 0 <= i < |r| && r[i] == m;
        assert kept[i] in kept && RebaseMaterial(m, C.number) == kept[i];
        ListedHandle(C, kept[i]);
      }
      if m.generation == n && RebaseMaterial(m, C.number) in kept {
        assert RebaseMaterial(RebaseMaterial(m, C.number), n) == m;
      }
    }
  }

  lemma KeptIsPart(C: Generation, b: BindingKey, pc: Id, n: Number)
    requires Consistent(C) && OnlyPolicy(ViewOf(C), pc, b)
    ensures Part(C, KeptPart(C, b, pc, n), id => id != pc)
  {
    hide Consistent, ViewOf, OnlyPolicy, KeptPart, HandlePart, ProfilePart, CredentialPart, PolicyPart, MaterialPart;
    KeptPartHandles(C, b, pc, n);
    KeptPartProfiles(C, b, pc, n);
    KeptPartCredentials(C, b, pc, n);
    KeptPartPolicies(C, b, pc, n);
    KeptPartMaterials(C, b, pc, n);
  }

  lemma HandleOwner(g: Generation, r: Generation, keep: Id -> bool, h: Handle)
    requires Part(g, r, keep) && h in r.handles
    ensures exists c :: c in g.credentials && keep(c.profileId) && c.handleId == h.id
  {}

  lemma CredentialOwner(g: Generation, r: Generation, keep: Id -> bool, c: Credential)
    requires Part(g, r, keep) && c in r.credentials
    ensures RebaseCredential(c, g.number) in g.credentials && keep(c.profileId)
  {}

  lemma ProfileOwner(g: Generation, r: Generation, keep: Id -> bool, p: Profile)
    requires Part(g, r, keep) && p in r.profiles
    ensures RebaseProfile(p, g.number) in g.profiles && keep(p.id)
  {}

  lemma PolicyOwner(g: Generation, r: Generation, keep: Id -> bool, q: Policy)
    requires Part(g, r, keep) && q in r.policies
    ensures RebasePolicy(q, g.number) in g.policies && keep(q.profileId)
  {}
}

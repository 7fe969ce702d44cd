/** Renumbered copies of records and of whole generations. */
module Rebasing {
  import opened Order
  import opened Records
  import opened Generations
  import opened Snapshots
  import opened Joins

  function RebaseHandles(s: seq<Handle>, n: Number): seq<Handle>
  {
    seq(|s|, i requires 0 <= i < |s| => RebaseHandle(s[i], n))
  }

  function RebaseProfiles(s: seq<Profile>, n: Number): seq<Profile>
  {
    seq(|s|, i requires 0 <= i < |s| => RebaseProfile(s[i], n))
  }

  function RebaseCredentials(s: seq<Credential>, n: Number): seq<Credential>
  {
    seq(|s|, i requires 0 <= i < |s| => RebaseCredential(s[i], n))
  }

  function RebasePolicies(s: seq<Policy>, n: Number): seq<Policy>
  {
    seq(|s|, i requires 0 <= i < |s| => RebasePolicy(s[i], n))
  }

  function RebaseMaterials(s: seq<KeyMaterial>, n: Number): seq<KeyMaterial>
  {
    seq(|s|, i requires 0 <= i < |s| => RebaseMaterial(s[i], n))
  }

  /** The records of `g` under another number and state. */
  function Rebase(g: Generation, n: Number, state: State): Generation
  {
    Generation(n, state, RebaseHandles(g.handles, n), RebaseProfiles(g.profiles, n),
        RebaseCredentials(g.credentials, n),
               RebasePolicies(g.policies, n), RebaseMaterials(g.materials, n))
  }

  lemma RebasedCredentials(s: seq<Credential>, n: Number)
    ensures forall c :: c in s ==> RebaseCredential(c, n) in RebaseCredentials(s, n)
    ensures forall i :: 0 <= i < |RebaseCredentials(s, n)| ==>
      s[i] in s && RebaseCredentials(s, n)[i] == RebaseCredential(s[i], n)
  {
    forall c | c in s ensures RebaseCredential(c, n) in RebaseCredentials(s, n) {
      var i :| 0 <= i < |s| && s[i] == c;
      assert RebaseCredentials(s, n)[i] == RebaseCredential(c, n);
    }
  }

  lemma RebasedMaterials(s: seq<KeyMaterial>, n: Number)
    ensures forall m :: m in s ==> RebaseMaterial(m, n) in RebaseMaterials(s, n)
    ensures forall i :: 0 <= i < |RebaseMaterials(s, n)| ==>
      s[i] in s && RebaseMaterials(s, n)[i] == RebaseMaterial(s[i], n)
  {
    forall m | m in s ensures RebaseMaterial(m, n) in RebaseMaterials(s, n) {
      var i :| 0 <= i < |s| && s[i] == m;
      assert RebaseMaterials(s, n)[i] == RebaseMaterial(m, n);
    }
  }

  lemma RebasedProfiles(s: seq<Profile>, n: Number)
    ensures forall p :: p in s ==> RebaseProfile(p, n) in RebaseProfiles(s, n)
    ensures forall i :: 0 <= i < |RebaseProfiles(s, n)| ==>
      s[i] in s && RebaseProfiles(s, n)[i] == RebaseProfile(s[i], n)
  {
    forall p | p in s ensures RebaseProfile(p, n) in RebaseProfiles(s, n) {
      var i :| 0 <= i < |s| && s[i] == p;
      assert RebaseProfiles(s, n)[i] == RebaseProfile(p, n);
    }
  }

  lemma RebasedPolicies(s: seq<Policy>, n: Number)
    ensures forall q :: q in s ==> RebasePolicy(q, n) in RebasePolicies(s, n)
    ensures forall i :: 0 <= i < |RebasePolicies(s, n)| ==>
      s[i] in s && RebasePolicies(s, n)[i] == RebasePolicy(s[i], n)
  {
    forall q | q in s ensures RebasePolicy(q, n) in RebasePolicies(s, n) {
      var i :| 0 <= i < |s| && s[i] == q;
      assert RebasePolicies(s, n)[i] == RebasePolicy(q, n);
    }
  }

  lemma SourceGenerations(g: Generation)
    requires Consistent(g)
    ensures forall h :: h in g.handles ==> h.generation == g.number
    ensures forall p :: p in g.profiles ==> p.generation == g.number
    ensures forall c :: c in g.credentials ==> c.generation == g.number
    ensures forall q :: q in g.policies ==> q.generation == g.number
    ensures (forall m :: m in g.materials ==> m.generation == g.number)
    ensures Unique(g.handles) && Unique(g.profiles) && Unique(g.credentials) && Unique(g.policies)
    ensures Unique(g.materials)
  {
    forall c | c in g.credentials ensures c.generation == g.number {
      assert CredentialLinked(c, g.number, g.handles, g.profiles);
    }
    forall q | q in g.policies ensures q.generation == g.number { assert PolicyLinked(q, g.number, g.profiles); }
    forall m | m in g.materials ensures m.generation == g.number {
      assert MaterialLinked(m, g.number, g.credentials, g.policies);
    }
  }

  // ---------------------------------------------------------------------------------------------
  // A renumbered copy is the whole of its source
  // ---------------------------------------------------------------------------------------------

  lemma AllIsPart(g: Generation, n: Number, s: State)
    requires Consistent(g)
    ensures Part(g, Rebase(g, n, s), id => true)
  {
    hide Consistent, HandlePart, ProfilePart, CredentialPart, PolicyPart, MaterialPart;
    AllHandles(g, n, s);
    AllProfiles(g, n, s);
    AllCredentials(g, n, s);
    AllPolicies(g, n, s);
    AllMaterials(g, n, s);
  }

  lemma AllHandles(g: Generation, n: Number, s: State)
    requires Consistent(g)
    ensures HandlePart(g, Rebase(g, n, s), id => true)
  {
    hide ValidProfiles, ValidPolicies;
    SourceGenerations(g);
    var r := RebaseHandles(g.handles, n);
    forall h ensures h in r <==> h.generation == n && KeptHandle(g, id => true, h.id) {
      if h in r {
        var i :| 0 <= i < |r| && r[i] == h;
        assert g.handles[i] in g.handles && Used(g.handles[i].id, g.credentials);
      }
      if h.generation == n && KeptHandle(g, id => true, h.id) {
        var c :| c in g.credentials && c.handleId == h.id;
        assert CredentialLinked(c, g.number, g.handles, g.profiles);
        var o :| o in g.handles && o.id == c.handleId;
        var i :| 0 <= i < |g.handles| && g.handles[i] == o;
        assert r[i] == h;
      }
    }
    forall i, j | 0 <= i < j < |r| ensures r[i] != r[j] {
      assert g.handles[i] in g.handles && g.handles[j] in g.handles && g.handles[i] != g.handles[j];
    }
  }

  lemma AllProfiles(g: Generation, n: Number, s: State)
    requires Consistent(g)
    ensures ProfilePart(g, Rebase(g, n, s), id => true)
  {
    hide Consistent;
    SourceGenerations(g);
    RebasedProfiles(g.profiles, n);
    var r := RebaseProfiles(g.profiles, n);
    forall p ensures p in r <==> p.generation == n && RebaseProfile(p, g.number) in g.profiles {
      if p in r {
        var i :| 0 <= i < |r| && r[i] == p;
        assert RebaseProfile(p, g.number) == g.profiles[i];
      }
      assert p.generation == n ==> RebaseProfile(RebaseProfile(p, g.number), n) == p;
    }
    forall i, j | 0 <= i < j < |r| ensures r[i] != r[j] {
      assert RebaseProfile(r[i], g.number) == g.profiles[i] && RebaseProfile(r[j], g.number) == g.profiles[j];
    }
  }

  lemma AllCredentials(g: Generation, n: Number, s: State)
    requires Consistent(g)
    ensures CredentialPart(g, Rebase(g, n, s), id => true)
  {
    hide Consistent;
    SourceGenerations(g);
    RebasedCredentials(g.credentials, n);
    var r := RebaseCredentials(g.credentials, n);
    forall c ensures c in r <==> c.generation == n && RebaseCredential(c, g.number) in g.credentials {
      if c in r {
        var i :| 0 <= i < |r| && r[i] == c;
        assert RebaseCredential(c, g.number) == g.credentials[i];
      }
      assert c.generation == n ==> RebaseCredential(RebaseCredential(c, g.number), n) == c;
    }
    forall i, j | 0 <= i < j < |r| ensures r[i] != r[j] {
      assert RebaseCredential(r[i], g.number) == g.credentials[i];
      assert RebaseCredential(r[j], g.number) == g.credentials[j];
    }
  }

  lemma AllPolicies(g: Generation, n: Number, s: State)
    requires Consistent(g)
    ensures PolicyPart(g, Rebase(g, n, s), id => true)
  {
    hide Consistent;
    SourceGenerations(g);
    RebasedPolicies(g.policies, n);
    var r := RebasePolicies(g.policies, n);
    forall q ensures q in r <==> q.generation == n && RebasePolicy(q, g.number) in g.policies {
      if q in r {
        var i :| 0 <= i < |r| && r[i] == q;
        assert RebasePolicy(q, g.number) == g.policies[i];
      }
      assert q.generation == n ==> RebasePolicy(RebasePolicy(q, g.number), n) == q;
    }
    forall i, j | 0 <= i < j < |r| ensures r[i] != r[j] {
      assert RebasePolicy(r[i], g.number) == g.policies[i] && RebasePolicy(r[j], g.number) == g.policies[j];
    }
  }

  lemma MaterialUsed(g: Generation, m: KeyMaterial)
    requires Consistent(g) && m in g.materials
    ensures KeptHandle(g, id => true, m.handleId)
  {
    assert MaterialLinked(m, g.number, g.credentials, g.policies);
  }

  lemma AllMaterials(g: Generation, n: Number, s: State)
    requires Consistent(g)
    ensures MaterialPart(g, Rebase(g, n, s), id => true)
  {
    hide Consistent, KeptHandle;
    SourceGenerations(g);
    RebasedMaterials(g.materials, n);
    var r := RebaseMaterials(g.materials, n);
    forall m
      ensures m in r <==>
        m.generation == n && RebaseMaterial(m, g.number) in g.materials && KeptHandle(g, id => true, m.handleId)
    {
      if m in r {
        var i :| 0 <= i < |r| && r[i] == m;
        assert RebaseMaterial(m, g.number) == g.materials[i];
        MaterialUsed(g, g.materials[i]);
      }
      assert m.generation == n ==> RebaseMaterial(RebaseMaterial(m, g.number), n) == m;
    }
    forall i, j | 0 <= i < j < |r| ensures r[i] != r[j] {
      assert RebaseMaterial(r[i], g.number) == g.materials[i] && RebaseMaterial(r[j], g.number) == g.materials[j];
    }
  }

  /** A renumbered copy of a consistent generation is consistent. */
  lemma RebaseIsConsistent(g: Generation, n: Number, s: State)
    requires Consistent(g) && n > 0
    ensures Consistent(Rebase(g, n, s))
  {
    hide ValidHandles, ValidProfiles, ValidCredentials, ValidPolicies, ValidMaterials, Part;
    AllIsPart(g, n, s);
    PartRelated(g, Rebase(g, n, s), id => true);
  }

  /** ... and its tables are the ones it was copied from. */
  lemma RebaseKeepsView(g: Generation, n: Number, s: State)
    requires Consistent(g) && n > 0
    ensures Consistent(Rebase(g, n, s)) && ViewOf(Rebase(g, n, s)) == ViewOf(g)
  {
    hide Consistent, SlotTable, ProfileTable, PolicyTable;
    RebaseIsConsistent(g, n, s);
    RebaseKeepsFacts(g, n, s);
    RebaseKeepsSlots(g, n, s);
  }

  lemma RebaseKeepsFacts(g: Generation, n: Number, s: State)
    requires Consistent(g) && Consistent(Rebase(g, n, s))
    ensures ProfileTable(Rebase(g, n, s)) == ProfileTable(g) && PolicyTable(Rebase(g, n, s)) == PolicyTable(g)
  {
    hide Consistent, ProfileTable, PolicyTable;
    var r := Rebase(g, n, s);
    RebasedProfiles(g.profiles, n);
    RebasedPolicies(g.policies, n);
    forall p | p in r.profiles ensures p.id in ProfileTable(g) && ProfileTable(g)[p.id] == FactsOfProfile(p) {
      var i :| 0 <= i < |r.profiles| && r.profiles[i] == p;
      ProfileIntro(g, g.profiles[i]);
    }
    forall id | id in ProfileTable(g) ensures exists p :: p in r.profiles && p.id == id {
      var p := ProfileElim(g, id);
      assert RebaseProfile(p, n) in r.profiles;
    }
    ProfileTableIs(r, ProfileTable(g));
    forall q | q in r.policies
      ensures PolicyBinding(q) in PolicyTable(g) && PolicyTable(g)[PolicyBinding(q)] == FactsOfPolicy(q)
    {
      var i :| 0 <= i < |r.policies| && r.policies[i] == q;
      PolicyIntro(g, g.policies[i]);
    }
    forall b | b in PolicyTable(g) ensures exists q :: q in r.policies && PolicyBinding(q) == b {
      var q := PolicyElim(g, b);
      assert RebasePolicy(q, n) in r.policies;
    }
    PolicyTableIs(r, PolicyTable(g));
  }

  lemma RebaseKeepsSlots(g: Generation, n: Number, s: State)
    requires Consistent(g) && Consistent(Rebase(g, n, s))
    ensures SlotTable(Rebase(g, n, s)) == SlotTable(g)
  {
    hide Consistent, SlotTable;
    var r := Rebase(g, n, s);
    RebasedCredentials(g.credentials, n);
    RebasedMaterials(g.materials, n);
    forall c | c in r.credentials ensures SlotWitnessed(r, SlotTable(g), c) {
      var i :| 0 <= i < |r.credentials| && r.credentials[i] == c;
      var m := CredentialHasSlot(g, g.credentials[i]);
      assert RebaseMaterial(m, n) in r.materials;
    }
    forall k | k in SlotTable(g) ensures SlotFilled(r, k) {
      var c, m := SlotElim(g, k);
      assert RebaseCredential(c, n) in r.credentials;
    }
    SlotTableIs(r, SlotTable(g));
  }
}

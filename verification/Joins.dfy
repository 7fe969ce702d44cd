/** Parts of a consistent record set, cut out along whole profiles, and the union of two parts that share nothing. */
module Joins {
  import opened Text
  import opened Order
  import opened Records
  import opened Generations

  /** Complete relationships and uniqueness, of a possibly empty set. */
  ghost predicate Related(g: Generation)
  {
    && ValidHandles(g.number, g.handles) && ValidProfiles(g.number, g.profiles)
    && ValidCredentials(g.number, g.credentials, g.handles, g.profiles)
    && ValidPolicies(g.number, g.policies, g.profiles)
    && ValidMaterials(g.number, g.materials, g.credentials, g.policies, g.handles)
  }

  /** The handles of the kept profiles' credentials. */
  ghost predicate KeptHandle(g: Generation, keep: Id -> bool, handleId: Id)
  {
    exists c :: c in g.credentials && keep(c.profileId) && c.handleId == handleId
  }

  ghost predicate HandlePart(g: Generation, r: Generation, keep: Id -> bool)
  {
    Unique(r.handles) && forall h :: h in r.handles <==> h.generation == r.number && KeptHandle(g, keep, h.id)
  }

  ghost predicate ProfilePart(g: Generation, r: Generation, keep: Id -> bool)
  {
    && Unique(r.profiles)
    && forall p :: p in r.profiles <==>
         p.generation == r.number && RebaseProfile(p, g.number) in g.profiles && keep(p.id)
  }

  ghost predicate CredentialPart(g: Generation, r: Generation, keep: Id -> bool)
  {
    && Unique(r.credentials)
    && forall c :: c in r.credentials <==>
         c.generation == r.number && RebaseCredential(c, g.number) in g.credentials && keep(c.profileId)
  }

  ghost predicate PolicyPart(g: Generation, r: Generation, keep: Id -> bool)
  {
    && Unique(r.policies)
    && forall q :: q in r.policies <==>
         q.generation == r.number && RebasePolicy(q, g.number) in g.policies && keep(q.profileId)
  }

  ghost predicate MaterialPart(g: Generation, r: Generation, keep: Id -> bool)
  {
    && Unique(r.materials)
    && forall m :: m in r.materials <==>
         m.generation == r.number && RebaseMaterial(m, g.number) in g.materials && KeptHandle(g, keep, m.handleId)
  }

  /** `r` holds, renumbered, exactly what belongs to the kept profiles of `g`. */
  ghost predicate Part(g: Generation, r: Generation, keep: Id -> bool)
  {
    && HandlePart(g, r, keep) && ProfilePart(g, r, keep) && CredentialPart(g, r, keep) && PolicyPart(g, r, keep)
    && MaterialPart(g, r, keep)
  }

  // ---------------------------------------------------------------------------------------------
  // A part is related
  // ---------------------------------------------------------------------------------------------

  lemma PartProfiles(g: Generation, r: Generation, keep: Id -> bool)
    requires ValidProfiles(g.number, g.profiles) && ProfilePart(g, r, keep)
    ensures ValidProfiles(r.number, r.profiles)
    ensures forall p :: p in g.profiles && keep(p.id) ==> RebaseProfile(p, r.number) in r.profiles
  {
    forall a, b | a in r.profiles && b in r.profiles && a.id == b.id ensures a == b {
      assert RebaseProfile(a, g.number) == RebaseProfile(b, g.number);
      assert a == RebaseProfile(RebaseProfile(a, g.number), r.number);
      assert b == RebaseProfile(RebaseProfile(b, g.number), r.number);
    }
    forall p | p in g.profiles && keep(p.id) ensures RebaseProfile(p, r.number) in r.profiles {
      assert RebaseProfile(RebaseProfile(p, r.number), g.number) == p;
    }
  }

  lemma PartCredentialHome(g: Generation, r: Generation, keep: Id -> bool)
    requires CredentialsApart(g.number, g.credentials, g.handles, g.profiles) && CredentialPart(g, r, keep)
    ensures forall c :: c in g.credentials && keep(c.profileId) ==> RebaseCredential(c, r.number) in r.credentials
    ensures forall a, b :: a in r.credentials && b in r.credentials && a != b ==> Apart(a, b)
  {
    forall c | c in g.credentials && keep(c.profileId) ensures RebaseCredential(c, r.number) in r.credentials {
      assert CredentialLinked(c, g.number, g.handles, g.profiles);
      assert RebaseCredential(RebaseCredential(c, r.number), g.number) == c;
    }
    forall a, b | a in r.credentials && b in r.credentials && a != b ensures Apart(a, b) {
      var x, y := RebaseCredential(a, g.number), RebaseCredential(b, g.number);
      assert a == RebaseCredential(x, r.number) && b == RebaseCredential(y, r.number);
    }
  }

  lemma PartCredentials(g: Generation, r: Generation, keep: Id -> bool)
    requires ValidProfiles(g.number, g.profiles) && ValidCredentials(g.number, g.credentials, g.handles, g.profiles)
    requires HandlePart(g, r, keep) && ProfilePart(g, r, keep) && CredentialPart(g, r, keep)
    ensures ValidCredentials(r.number, r.credentials, r.handles, r.profiles)
  {
    hide ValidProfiles;
    PartProfiles(g, r, keep);
    PartCredentialHome(g, r, keep);
    forall c | c in r.credentials ensures CredentialLinked(c, r.number, r.handles, r.profiles) {
      var x := RebaseCredential(c, g.number);
      assert CredentialLinked(x, g.number, g.handles, g.profiles);
      var p :| p in g.profiles && p.id == x.profileId && OwnerFits(p.domain, x.selector);
      assert RebaseProfile(p, r.number) in r.profiles;
      assert KeptHandle(g, keep, c.handleId);
      assert Handle(r.number, c.handleId) in r.handles;
    }
    forall p | p in r.profiles ensures Owned(p.id, r.credentials) {
      assert Owned(RebaseProfile(p, g.number).id, g.credentials);
      var c :| c in g.credentials && c.profileId == p.id;
      assert RebaseCredential(c, r.number) in r.credentials;
    }
  }

  lemma PartPolicies(g: Generation, r: Generation, keep: Id -> bool)
    requires ValidProfiles(g.number, g.profiles) && ValidPolicies(g.number, g.policies, g.profiles)
    requires ProfilePart(g, r, keep) && PolicyPart(g, r, keep)
    ensures ValidPolicies(r.number, r.policies, r.profiles)
    ensures forall q :: q in g.policies && keep(q.profileId) ==> RebasePolicy(q, r.number) in r.policies
  {
    hide ValidProfiles;
    PartProfiles(g, r, keep);
    forall q | q in r.policies ensures PolicyLinked(q, r.number, r.profiles) {
      var x := RebasePolicy(q, g.number);
      assert PolicyLinked(x, g.number, g.profiles);
      var p :| p in g.profiles && p.id == x.profileId && p.domain == x.domain &&
          (x.status == Active || x.rollout == Enforce ==> p.status == Active);
      assert RebaseProfile(p, r.number) in r.profiles;
    }
    forall a, b | a in r.policies && b in r.policies && PolicyBinding(a) == PolicyBinding(b) ensures a == b {
      var x, y := RebasePolicy(a, g.number), RebasePolicy(b, g.number);
      assert PolicyBinding(x) == PolicyBinding(y);
      assert a == RebasePolicy(x, r.number) && b == RebasePolicy(y, r.number);
    }
    forall q | q in g.policies && keep(q.profileId) ensures RebasePolicy(q, r.number) in r.policies {
      assert PolicyLinked(q, g.number, g.profiles);
      assert RebasePolicy(RebasePolicy(q, r.number), g.number) == q;
    }
  }

  lemma PartMaterialLinked(g: Generation, r: Generation, keep: Id -> bool, m: KeyMaterial)
    requires ValidProfiles(g.number, g.profiles) && ValidCredentials(g.number, g.credentials, g.handles, g.profiles)
    requires ValidPolicies(g.number, g.policies, g.profiles)
    requires MaterialsApart(g.number, g.materials, g.credentials, g.policies)
    requires ProfilePart(g, r, keep) && CredentialPart(g, r, keep) && PolicyPart(g, r, keep) && MaterialPart(g, r, keep)
    requires m in r.materials
    ensures MaterialLinked(m, r.number, r.credentials, r.policies)
  {
    hide ValidProfiles, ValidPolicies, CredentialLinked, Unique;
    PartCredentialHome(g, r, keep);
    PartPolicies(g, r, keep);
    var x := RebaseMaterial(m, g.number);
    assert MaterialLinked(x, g.number, g.credentials, g.policies);
    var c, q :| c in g.credentials && q in g.policies && c.handleId == x.handleId && c.algorithm == x.algorithm &&
      c.publicSpki == x.publicSpki && PolicyBinding(q) == MaterialBinding(x) && q.profileId == c.profileId;
    var d :| d in g.credentials && keep(d.profileId) && d.handleId == m.handleId;
    assert c != d ==> Apart(c, d);
    var e, s := RebaseCredential(c, r.number), RebasePolicy(q, r.number);
    assert e in r.credentials && s in r.policies && PolicyBinding(s) == MaterialBinding(m);
  }

  lemma PartMaterials(g: Generation, r: Generation, keep: Id -> bool)
    requires ValidProfiles(g.number, g.profiles) && ValidCredentials(g.number, g.credentials, g.handles, g.profiles)
    requires ValidPolicies(g.number, g.policies, g.profiles)
    requires ValidMaterials(g.number, g.materials, g.credentials, g.policies, g.handles) && Part(g, r, keep)
    ensures ValidMaterials(r.number, r.materials, r.credentials, r.policies, r.handles)
  {
    hide ValidProfiles, ValidPolicies, CredentialLinked, MaterialLinked, Unique, PolicyPart, ProfilePart;
    PartCredentialHome(g, r, keep);
    forall m | m in r.materials ensures MaterialLinked(m, r.number, r.credentials, r.policies) {
      PartMaterialLinked(g, r, keep, m);
    }
    forall a, b | a in r.materials && b in r.materials && a.handleId == b.handleId ensures a == b {
      assert a == RebaseMaterial(RebaseMaterial(a, g.number), r.number);
      assert b == RebaseMaterial(RebaseMaterial(b, g.number), r.number);
    }
    forall c | c in r.credentials ensures Keyed(c.handleId, r.materials) {
      var x := RebaseCredential(c, g.number);
      assert Keyed(x.handleId, g.materials);
      var m :| m in g.materials && m.handleId == c.handleId;
      assert MaterialLinked(m, g.number, g.credentials, g.policies);
      NumberOfMaterial(m, g);
      assert RebaseMaterial(RebaseMaterial(m, r.number), g.number) == m && KeptHandle(g, keep, m.handleId);
      assert RebaseMaterial(m, r.number) in r.materials;
    }
    forall h | h in r.handles ensures Used(h.id, r.credentials) {
      var c :| c in g.credentials && keep(c.profileId) && c.handleId == h.id;
      assert RebaseCredential(c, r.number) in r.credentials;
    }
  }

  lemma NumberOfMaterial(m: KeyMaterial, g: Generation)
    requires MaterialLinked(m, g.number, g.credentials, g.policies)
    ensures m.generation == g.number
  {}

  /** Cutting a consistent set along whole profiles leaves a related set. */
  lemma PartRelated(g: Generation, r: Generation, keep: Id -> bool)
    requires Consistent(g) && Part(g, r, keep)
    ensures Related(r)
  {
    hide ValidHandles, ValidProfiles, ValidCredentials, ValidPolicies, ValidMaterials, HandlePart, ProfilePart,
      CredentialPart, PolicyPart, MaterialPart;
    PartHandles(g, r, keep);
    PartProfiles(g, r, keep);
    PartCredentials(g, r, keep);
    PartPolicies(g, r, keep);
    PartMaterials(g, r, keep);
  }

  lemma PartHandles(g: Generation, r: Generation, keep: Id -> bool)
    requires HandlePart(g, r, keep)
    ensures ValidHandles(r.number, r.handles)
  {}

  // ---------------------------------------------------------------------------------------------
  // Unions
  // ---------------------------------------------------------------------------------------------

  function Union(a: Generation, b: Generation): Generation
  {
    Generation(a.number, a.state, a.handles + b.handles, a.profiles + b.profiles, a.credentials + b.credentials,
               a.policies + b.policies, a.materials + b.materials)
  }

  /** No handle, profile, selector or binding in common. */
  ghost predicate Disjoint(a: Generation, b: Generation)
  {
    && (forall x, y :: x in a.handles && y in b.handles ==> x.id != y.id)
    && (forall x, y :: x in a.profiles && y in b.profiles ==> x.id != y.id)
    && (forall x, y :: x in a.credentials && y in b.credentials ==> x.selector != y.selector)
    && (forall x, y :: x in a.policies && y in b.policies ==> PolicyBinding(x) != PolicyBinding(y))
  }

  lemma UniqueUnion<T>(s: seq<T>, t: seq<T>)
    requires Unique(s) && Unique(t) && forall x :: x in s ==> x !in t
    ensures Unique(s + t) && forall x :: x in s + t <==> x in s || x in t
  {
    forall i, j | 0 <= i < j < |s + t| ensures (s + t)[i] != (s + t)[j] {
      if i < |s| <= j { assert s[i] in s && t[j - |s|] in t; }
    }
  }

  lemma UnionHandles(a: Generation, b: Generation)
    requires ValidHandles(a.number, a.handles) && ValidHandles(a.number, b.handles) && Disjoint(a, b)
    ensures ValidHandles(a.number, a.handles + b.handles)
  {
    UniqueUnion(a.handles, b.handles);
  }

  lemma UnionProfiles(a: Generation, b: Generation)
    requires ValidProfiles(a.number, a.profiles) && ValidProfiles(a.number, b.profiles) && Disjoint(a, b)
    ensures ValidProfiles(a.number, a.profiles + b.profiles)
  {
    UniqueUnion(a.profiles, b.profiles);
  }

  /** Every credential's handle is listed, and every credential's profile. */
  lemma LinkedFacts(g: Generation, c: Credential)
    requires ValidCredentials(g.number, g.credentials, g.handles, g.profiles) && c in g.credentials
    ensures exists h :: h in g.handles && h.id == c.handleId
    ensures exists p :: p in g.profiles && p.id == c.profileId && OwnerFits(p.domain, c.selector)
    ensures c.generation == g.number
  {
    assert CredentialLinked(c, g.number, g.handles, g.profiles);
  }

  lemma CrossApart(a: Generation, b: Generation, c: Credential, d: Credential)
    requires ValidCredentials(a.number, a.credentials, a.handles, a.profiles)
    requires ValidCredentials(b.number, b.credentials, b.handles, b.profiles) && Disjoint(a, b)
    requires c in a.credentials && d in b.credentials
    ensures Apart(c, d) && Apart(d, c) && c != d
  {
    hide ValidCredentials;
    LinkedFacts(a, c);
    LinkedFacts(b, d);
  }

  lemma LinkedWider(c: Credential, n: Number, handles: seq<Handle>, profiles: seq<Profile>, moreHandles: seq<Handle>,
                    moreProfiles: seq<Profile>)
    requires CredentialLinked(c, n, handles, profiles) && (forall h :: h in handles ==> h in moreHandles)
    requires forall p :: p in profiles ==> p in moreProfiles
    ensures CredentialLinked(c, n, moreHandles, moreProfiles)
  {
    var p :| p in profiles && p.id == c.profileId && OwnerFits(p.domain, c.selector);
    var h :| h in handles && h.id == c.handleId;
    assert p in moreProfiles && h in moreHandles;
  }

  lemma UnionCredentials(a: Generation, b: Generation)
    requires a.number == b.number && Disjoint(a, b)
    requires ValidCredentials(a.number, a.credentials, a.handles, a.profiles)
    requires ValidCredentials(b.number, b.credentials, b.handles, b.profiles)
    ensures ValidCredentials(a.number, a.credentials + b.credentials, a.handles + b.handles, a.profiles + b.profiles)
  {
    hide CredentialLinked, Disjoint, Apart, Unique;
    var u := Union(a, b);
    forall c, d | c in a.credentials && d in b.credentials ensures Apart(c, d) && Apart(d, c) && c != d {
      CrossApart(a, b, c, d);
    }
    UniqueUnion(a.credentials, b.credentials);
    forall c | c in u.credentials ensures CredentialLinked(c, a.number, u.handles, u.profiles) {
      if c in a.credentials {
        LinkedWider(c, a.number, a.handles, a.profiles, u.handles, u.profiles);
      } else {
        LinkedWider(c, a.number, b.handles, b.profiles, u.handles, u.profiles);
      }
    }
    forall p | p in u.profiles ensures Owned(p.id, u.credentials) {
      if p in a.profiles {
        assert Owned(p.id, a.credentials);
        var c :| c in a.credentials && c.profileId == p.id;
        assert c in u.credentials;
      } else {
        assert Owned(p.id, b.credentials);
        var c :| c in b.credentials && c.profileId == p.id;
        assert c in u.credentials;
      }
    }
  }

  lemma PolicyLinkedWider(q: Policy, n: Number, profiles: seq<Profile>, more: seq<Profile>)
    requires PolicyLinked(q, n, profiles) && forall p :: p in profiles ==> p in more
    ensures PolicyLinked(q, n, more)
  {
    var p :| p in profiles && p.id == q.profileId && p.domain == q.domain &&
        (q.status == Active || q.rollout == Enforce ==> p.status == Active);
    assert p in more;
  }

  lemma UnionPolicies(a: Generation, b: Generation)
    requires a.number == b.number && Disjoint(a, b)
    requires ValidPolicies(a.number, a.policies, a.profiles) && ValidPolicies(b.number, b.policies, b.profiles)
    ensures ValidPolicies(a.number, a.policies + b.policies, a.profiles + b.profiles)
  {
    hide PolicyLinked, Unique;
    var u := Union(a, b);
    UniqueUnion(a.policies, b.policies);
    forall q | q in u.policies ensures PolicyLinked(q, a.number, u.profiles) {
      if q in a.policies {
        PolicyLinkedWider(q, a.number, a.profiles, u.profiles);
      } else {
        PolicyLinkedWider(q, a.number, b.profiles, u.profiles);
      }
    }
  }

  lemma MaterialLinkedWider(m: KeyMaterial, n: Number, credentials: seq<Credential>, policies: seq<Policy>,
                            moreCredentials: seq<Credential>, morePolicies: seq<Policy>)
    requires MaterialLinked(m, n, credentials, policies) && (forall c :: c in credentials ==> c in moreCredentials)
    requires forall q :: q in policies ==> q in morePolicies
    ensures MaterialLinked(m, n, moreCredentials, morePolicies)
  {
    var c, q :| c in credentials && q in policies && c.handleId == m.handleId && c.algorithm == m.algorithm &&
      c.publicSpki == m.publicSpki && PolicyBinding(q) == MaterialBinding(m) && q.profileId == c.profileId;
    assert c in moreCredentials && q in morePolicies;
  }

  /** Every material's handle is listed. */
  lemma MaterialHandle(g: Generation, m: KeyMaterial)
    requires ValidCredentials(g.number, g.credentials, g.handles, g.profiles)
    requires ValidMaterials(g.number, g.materials, g.credentials, g.policies, g.handles)
    requires m in g.materials
    ensures exists h :: h in g.handles && h.id == m.handleId
  {
    hide ValidCredentials;
    assert MaterialLinked(m, g.number, g.credentials, g.policies);
    var c :| c in g.credentials && c.handleId == m.handleId;
    LinkedFacts(g, c);
  }

  lemma UnionMaterials(a: Generation, b: Generation)
    requires a.number == b.number && Disjoint(a, b)
    requires ValidCredentials(a.number, a.credentials, a.handles, a.profiles)
    requires ValidCredentials(b.number, b.credentials, b.handles, b.profiles)
    requires ValidMaterials(a.number, a.materials, a.credentials, a.policies, a.handles)
    requires ValidMaterials(b.number, b.materials, b.credentials, b.policies, b.handles)
    ensures ValidMaterials(a.number, a.materials + b.materials, a.credentials + b.credentials, a.policies + b.policies,
                           a.handles + b.handles)
  {
    hide MaterialLinked, ValidCredentials, Unique;
    var u := Union(a, b);
    forall m, o | m in a.materials && o in b.materials ensures m.handleId != o.handleId {
      MaterialHandle(a, m);
      MaterialHandle(b, o);
    }
    UniqueUnion(a.materials, b.materials);
    forall m | m in u.materials ensures MaterialLinked(m, a.number, u.credentials, u.policies) {
      if m in a.materials { MaterialLinkedWider(m, a.number, a.credentials, a.policies, u.credentials, u.policies); }
      else { MaterialLinkedWider(m, a.number, b.credentials, b.policies, u.credentials, u.policies); }
    }
    forall c | c in u.credentials ensures Keyed(c.handleId, u.materials) { KeyedWider(a, b, c); }
    forall h | h in u.handles ensures Used(h.id, u.credentials) { UsedWider(a, b, h); }
  }

  lemma KeyedWider(a: Generation, b: Generation, c: Credential)
    requires
      || (c in a.credentials && Keyed(c.handleId, a.materials))
      || (c in b.credentials && Keyed(c.handleId, b.materials))
    ensures Keyed(c.handleId, a.materials + b.materials)
  {
    var m :| (m in a.materials || m in b.materials) && m.handleId == c.handleId;
    assert m in a.materials + b.materials;
  }

  lemma UsedWider(a: Generation, b: Generation, h: Handle)
    requires (h in a.handles && Used(h.id, a.credentials)) || (h in b.handles && Used(h.id, b.credentials))
    ensures Used(h.id, a.credentials + b.credentials)
  {
    var c :| (c in a.credentials || c in b.credentials) && c.handleId == h.id;
    assert c in a.credentials + b.credentials;
  }

  /** Two related sets with nothing in common are related together. */
  lemma UnionRelated(a: Generation, b: Generation)
    requires Related(a) && Related(b) && a.number == b.number && Disjoint(a, b)
    ensures Related(Union(a, b))
  {
    hide ValidHandles, ValidProfiles, ValidCredentials, ValidPolicies, ValidMaterials, Disjoint;
    UnionHandles(a, b);
    UnionProfiles(a, b);
    UnionCredentials(a, b);
    UnionPolicies(a, b);
    UnionMaterials(a, b);
  }
}

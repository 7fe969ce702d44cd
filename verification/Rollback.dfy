/** Forward rollback: one retained binding is rebased above the current snapshot. */
module Rollback {
  import opened Wrappers
  import opened Text
  import opened Order
  import opened Records
  import opened Generations
  import opened Snapshots
  import opened Rebasing
  import opened Bindings
  import opened Builders
  import opened Lifecycle
  import opened Lineage
  import opened Transitions
  import opened Joins
  import opened Kept

  /** The current table with the target binding, its profile and its keys taken from the source table. */
  ghost function RolledBack(S: View, C: View, b: BindingKey): View
    requires b in S.policies && b in C.policies && S.policies[b].profile in S.profiles
  {
    var ps, pc := S.policies[b].profile, C.policies[b].profile;
    View(
      map id | id in C.profiles.Keys + {ps} && (id == ps || id != pc) :: if id == ps then S.profiles[ps]
      else C.profiles[id],
      map x | x in C.policies :: if x == b then S.policies[b] else C.policies[x],
      map k | k in C.slots.Keys + S.slots.Keys &&
      (if k.profile == ps then k in S.slots else k in C.slots && k.profile != pc) ::
        if k.profile == ps then S.slots[k] else C.slots[k])
  }

  /** The target binding carries the same policy, profile and keys in both tables. */
  ghost predicate SameBinding(S: View, C: View, b: BindingKey)
    requires ActiveBinding(S, b) && ActiveBinding(C, b)
  {
    && S.policies[b] == C.policies[b] && S.profiles[S.policies[b].profile] == C.profiles[C.policies[b].profile]
    && SameAt(S, C, S.policies[b].profile)
  }

  /** The source keys of one profile, renumbered, with their handles and key owners. */
  ghost predicate Carried(source: Generation, p: Id, n: Number, upTo: nat,
                          handles: seq<Handle>, credentials: seq<Credential>, materials: seq<KeyMaterial>)
    requires upTo <= |source.credentials|
  {
    && (forall c :: c in credentials <==>
          && c.generation == n
          && exists i ::
               0 <= i < upTo && source.credentials[i].profileId == p && c == RebaseCredential(source.credentials[i], n))
    && (forall c :: c in credentials ==> exists m :: m in materials && m.handleId == c.handleId)
    && (forall m :: m in materials ==> exists x :: x in source.materials && m == RebaseMaterial(x, n))
  }

  lemma MaterialOf(g: Generation, c: Credential)
    requires Consistent(g) && c in g.credentials
    ensures Keyed(c.handleId, g.materials)
  {
    CredentialsKeyed(g);
  }

  lemma CarriedStep(source: Generation, p: Id, n: Number, i: nat, handles: seq<Handle>, credentials: seq<Credential>,
                    materials: seq<KeyMaterial>, m: KeyMaterial)
    requires i < |source.credentials| && Carried(source, p, n, i, handles, credentials, materials)
    requires m in source.materials && m.handleId == source.credentials[i].handleId
    ensures source.credentials[i].profileId != p ==> Carried(source, p, n, i + 1, handles, credentials, materials)
    ensures source.credentials[i].profileId == p ==>
      Carried(source, p, n, i + 1, handles + [Handle(n, m.handleId)],
              credentials + [RebaseCredential(source.credentials[i], n)], materials + [RebaseMaterial(m, n)])
  {
    if source.credentials[i].profileId == p {
      var after, owners := credentials + [RebaseCredential(source.credentials[i], n)],
          materials + [RebaseMaterial(m, n)];
      assert forall c :: c in after <==> c in credentials || c == RebaseCredential(source.credentials[i], n);
      forall c | c in after ensures exists x :: x in owners && x.handleId == c.handleId {
        if c in credentials {
          var x :| x in materials && x.handleId == c.handleId;
          assert x in owners;
        } else {
          assert RebaseMaterial(m, n) in owners;
        }
      }
      forall x | x in owners ensures exists y :: y in source.materials && x == RebaseMaterial(y, n) {
        if x !in materials { assert m in source.materials && x == RebaseMaterial(m, n); }
      }
      forall c | c in after
        ensures exists j ::
          0 <= j < i + 1 && source.credentials[j].profileId == p && c == RebaseCredential(source.credentials[j], n)
      {
        if c in credentials {
          var j :| 0 <= j < i && source.credentials[j].profileId == p &&
                   c == RebaseCredential(source.credentials[j], n);
          assert 0 <= j < i + 1;
        } else {
          assert 0 <= i < i + 1 && c == RebaseCredential(source.credentials[i], n);
        }
      }
      forall c: Credential | c.generation == n && exists j ::
        0 <= j < i + 1 && source.credentials[j].profileId == p && c == RebaseCredential(source.credentials[j], n)
        ensures c in after
      {
        var j :| 0 <= j < i + 1 && source.credentials[j].profileId == p &&
            c == RebaseCredential(source.credentials[j], n);
        if j < i { assert c in credentials; }
      }
    }
  }

  /** Collects the source binding's keys under the new number. */
  method CarryKeys(source: Generation, p: Id, n: Number)
      returns (handles: seq<Handle>, credentials: seq<Credential>, materials: seq<KeyMaterial>)
    requires Consistent(source)
    ensures Carried(source, p, n, |source.credentials|, handles, credentials, materials)
    ensures CarriedRows(source, n, handles, credentials, materials)
  {
    hide Consistent, Carried, CarriedRows, Keyed;
    handles, credentials, materials := [], [], [];
    CarriedNone(source, p, n);
    NoRows(source, n);
    for i := 0 to |source.credentials|
      invariant Carried(source, p, n, i, handles, credentials, materials)
      invariant CarriedRows(source, n, handles, credentials, materials)
    {
      var c := source.credentials[i];
      MaterialOf(source, c);
      var found := MaterialByHandle(source, c.handleId);
      CarriedStep(source, p, n, i, handles, credentials, materials, found.value);
      RowsStep(source, p, n, i, handles, credentials, materials, found.value);
      if c.profileId == p {
        credentials := credentials + [RebaseCredential(c, n)];
        handles := handles + [Handle(n, c.handleId)];
        materials := materials + [RebaseMaterial(found.value, n)];
      }
    }
  }

  lemma CarriedNone(source: Generation, p: Id, n: Number)
    ensures Carried(source, p, n, 0, [], [], [])
  {}

  /** The same profile twice is not a consistent set. */
  lemma ProfileClash(C: Generation, pc: Id, ps: Profile, parts: Generation)
    requires Consistent(C) && Consistent(parts)
    requires parts.profiles ==
      RebaseProfiles(Without(C.profiles, ProfileName, {pc}), parts.number) + [RebaseProfile(ps, parts.number)]
    ensures ps.id == pc || ps.id !in ProfileTable(C)
  {
    hide ValidCredentials, ValidMaterials, ValidHandles, ValidPolicies, ProfileTable, Without;
    var kept := Without(C.profiles, ProfileName, {pc});
    WithoutMember(C.profiles, ProfileName, {pc});
    forall i | 0 <= i < |kept| ensures kept[i].id != ps.id {
      assert parts.profiles[i].id == kept[i].id && parts.profiles[|kept|] == RebaseProfile(ps, parts.number);
      assert parts.profiles[i] in parts.profiles && parts.profiles[|kept|] in parts.profiles;
    }
    if ps.id in ProfileTable(C) {
      var p := ProfileElim(C, ps.id);
    }
  }

  /** The profile table of the assembled set; a source profile that is another current profile makes it inconsistent. */
  lemma AssembledProfiles(C: Generation, S: Generation, b: BindingKey, pc: Profile, ps: Profile, parts: Generation)
    requires Consistent(C) && Consistent(S) && Consistent(parts) && pc in C.profiles && ps in S.profiles
    requires parts.profiles ==
      RebaseProfiles(Without(C.profiles, ProfileName, {pc.id}), parts.number) + [RebaseProfile(ps, parts.number)]
    ensures ps.id == pc.id || ps.id !in ProfileTable(C)
    ensures ProfileTable(parts) == map id | id in ProfileTable(C).Keys + {ps.id} && (id == ps.id || id != pc.id) ::
      if id == ps.id then FactsOfProfile(ps) else ProfileTable(C)[id]
  {
    hide Consistent, ProfileTable, Without;
    var n := parts.number;
    var kept := Without(C.profiles, ProfileName, {pc.id});
    WithoutMember(C.profiles, ProfileName, {pc.id});
    RebasedProfiles(kept, n);
    assert forall p :: p in parts.profiles <==> p in RebaseProfiles(kept, n) || p == RebaseProfile(ps, n);
    ProfileClash(C, pc.id, ps, parts);
    var expected := map id | id in ProfileTable(C).Keys + {ps.id} && (id == ps.id || id != pc.id) ::
      if id == ps.id then FactsOfProfile(ps) else ProfileTable(C)[id];
    forall p | p in parts.profiles ensures p.id in expected && expected[p.id] == FactsOfProfile(p) {
      if p in RebaseProfiles(kept, n) {
        var i :| 0 <= i < |kept| && RebaseProfiles(kept, n)[i] == p;
        ProfileIntro(C, kept[i]);
      }
    }
    forall id | id in expected ensures exists p :: p in parts.profiles && p.id == id {
      if id == ps.id {
        assert RebaseProfile(ps, n) in parts.profiles;
      } else {
        var p := ProfileElim(C, id);
        assert RebaseProfile(p, n) in parts.profiles;
      }
    }
    ProfileTableIs(parts, expected);
  }

  lemma AssembledPolicies(C: Generation, S: Generation, b: BindingKey, q: Policy, parts: Generation)
    requires Consistent(C) && Consistent(S) && Consistent(parts) && q in S.policies && PolicyBinding(q) == b
    requires b in PolicyTable(C)
    requires parts.policies ==
      RebasePolicies(Without(C.policies, PolicyName, {PolicyKey(b)}), parts.number) + [RebasePolicy(q, parts.number)]
    ensures PolicyTable(parts) == map x | x in PolicyTable(C) :: if x == b then FactsOfPolicy(q) else PolicyTable(C)[x]
  {
    hide Consistent, PolicyTable, Without, PolicyKey;
    var n := parts.number;
    var kept := Without(C.policies, PolicyName, {PolicyKey(b)});
    WithoutMember(C.policies, PolicyName, {PolicyKey(b)});
    RebasedPolicies(kept, n);
    assert forall p :: p in parts.policies <==> p in RebasePolicies(kept, n) || p == RebasePolicy(q, n);
    var expected := map x | x in PolicyTable(C) :: if x == b then FactsOfPolicy(q) else PolicyTable(C)[x];
    forall p | p in parts.policies
      ensures PolicyBinding(p) in expected && expected[PolicyBinding(p)] == FactsOfPolicy(p)
    {
      if p in RebasePolicies(kept, n) {
        var i :| 0 <= i < |kept| && RebasePolicies(kept, n)[i] == p;
        PolicyIntro(C, kept[i]);
      }
    }
    forall x | x in expected ensures exists p :: p in parts.policies && PolicyBinding(p) == x {
      if x == b {
        assert RebasePolicy(q, n) in parts.policies;
      } else {
        var p := PolicyElim(C, x);
        if PolicyKey(x) == PolicyKey(b) { PolicyKeyInjective(x, b); }
        assert RebasePolicy(p, n) in parts.policies;
      }
    }
    PolicyTableIs(parts, expected);
  }

  /** What the assembled credentials and key owners put in each slot. */
  ghost function CarriedSlots(C: Generation, S: Generation, pc: Id, ps: Id): map<SlotKey, Slot>
    requires Consistent(C) && Consistent(S)
  {
    map k | k in SlotTable(C).Keys + SlotTable(S).Keys &&
        (if k.profile == ps then k in SlotTable(S) else k in SlotTable(C) && k.profile != pc) ::
      if k.profile == ps then SlotTable(S)[k] else SlotTable(C)[k]
  }

  lemma KeptMaterial(C: Generation, pc: Id, c: Credential, m: KeyMaterial)
    requires Consistent(C) && c in C.credentials && c.profileId != pc && m in C.materials && m.handleId == c.handleId
    ensures m in Without(C.materials, MaterialName, ProfileHandles(C.credentials, pc))
  {
    hide ValidHandles, ValidProfiles, ValidPolicies, ValidMaterials, CredentialLinked;
    WithoutMember(C.materials, MaterialName, ProfileHandles(C.credentials, pc));
    forall d | d in C.credentials && d.profileId == pc ensures d.handleId != c.handleId {
      assert Apart(c, d);
    }
  }

  lemma AssembledSlots(C: Generation, S: Generation, pc: Id, ps: Id, parts: Generation,
                       handles: seq<Handle>, credentials: seq<Credential>, materials: seq<KeyMaterial>)
    requires Consistent(C) && Consistent(S) && Consistent(parts) && (ps == pc || ps !in ProfileTable(C))
    requires Carried(S, ps, parts.number, |S.credentials|, handles, credentials, materials)
    requires parts.credentials == RebaseCredentials(Without(C.credentials, OwnerName, {pc}), parts.number) + credentials
    requires parts.materials == RebaseMaterials(Without(C.materials, MaterialName, ProfileHandles(C.credentials, pc)),
                                                parts.number) + materials
    ensures SlotTable(parts) == CarriedSlots(C, S, pc, ps)
  {
    hide Consistent, SlotTable, ProfileTable, Without, ProfileHandles;
    forall c | c in parts.credentials ensures SlotWitnessed(parts, CarriedSlots(C, S, pc, ps), c) {
      AssembledWitness(C, S, pc, ps, parts, handles, credentials, materials, c);
    }
    forall k | k in CarriedSlots(C, S, pc, ps) ensures SlotFilled(parts, k) {
      AssembledFilled(C, S, pc, ps, parts, handles, credentials, materials, k);
    }
    SlotTableIs(parts, CarriedSlots(C, S, pc, ps));
  }

  lemma CarriedWitness(C: Generation, S: Generation, pc: Id, ps: Id, parts: Generation,
                       handles: seq<Handle>, credentials: seq<Credential>, materials: seq<KeyMaterial>, c: Credential)
    requires Consistent(C) && Consistent(S) && c in credentials
    requires Carried(S, ps, parts.number, |S.credentials|, handles, credentials, materials)
    requires forall m :: m in materials ==> m in parts.materials
    ensures SlotWitnessed(parts, CarriedSlots(C, S, pc, ps), c)
  {
    hide Consistent, SlotTable, ProfileTable;
    var n := parts.number;
    var i :| 0 <= i < |S.credentials| && S.credentials[i].profileId == ps && c == RebaseCredential(S.credentials[i], n);
    var x :| x in materials && x.handleId == c.handleId;
    var m :| m in S.materials && x == RebaseMaterial(m, n);
    SlotIntro(S, CredentialSlot(c), S.credentials[i], m);
  }

  lemma KeptWitness(C: Generation, S: Generation, pc: Id, ps: Id, parts: Generation, d: Credential)
    requires Consistent(C) && Consistent(S) && (ps == pc || ps !in ProfileTable(C)) && d in C.credentials
    requires d.profileId != pc
    requires forall m ::
      m in RebaseMaterials(Without(C.materials, MaterialName, ProfileHandles(C.credentials, pc)), parts.number) ==>
        m in parts.materials
    ensures SlotWitnessed(parts, CarriedSlots(C, S, pc, ps), RebaseCredential(d, parts.number))
  {
    hide Consistent, SlotTable, ProfileTable, Without, ProfileHandles;
    var m := CredentialHasSlot(C, d);
    KeptMaterial(C, pc, d, m);
    RebasedMaterials(Without(C.materials, MaterialName, ProfileHandles(C.credentials, pc)), parts.number);
    assert RebaseMaterial(m, parts.number) in parts.materials;
    OwnerExists(C, d);
  }

  lemma AssembledWitness(C: Generation, S: Generation, pc: Id, ps: Id, parts: Generation,
                         handles: seq<Handle>, credentials: seq<Credential>, materials: seq<KeyMaterial>, c: Credential)
    requires Consistent(C) && Consistent(S) && (ps == pc || ps !in ProfileTable(C)) && c in parts.credentials
    requires Carried(S, ps, parts.number, |S.credentials|, handles, credentials, materials)
    requires parts.credentials == RebaseCredentials(Without(C.credentials, OwnerName, {pc}), parts.number) + credentials
    requires parts.materials == RebaseMaterials(Without(C.materials, MaterialName, ProfileHandles(C.credentials, pc)),
                                                parts.number) + materials
    ensures SlotWitnessed(parts, CarriedSlots(C, S, pc, ps), c)
  {
    hide Consistent, SlotTable, ProfileTable, Without, ProfileHandles, CarriedSlots, SlotWitnessed, Carried;
    var kept := Without(C.credentials, OwnerName, {pc});
    RebasedCredentials(kept, parts.number);
    if c in credentials {
      CarriedWitness(C, S, pc, ps, parts, handles, credentials, materials, c);
    } else {
      var i :| 0 <= i < |kept| && RebaseCredentials(kept, parts.number)[i] == c;
      WithoutMember(C.credentials, OwnerName, {pc});
      KeptWitness(C, S, pc, ps, parts, kept[i]);
    }
  }

  lemma AssembledFilled(C: Generation, S: Generation, pc: Id, ps: Id, parts: Generation,
                        handles: seq<Handle>, credentials: seq<Credential>, materials: seq<KeyMaterial>, k: SlotKey)
    requires Consistent(C) && Consistent(S) && k in CarriedSlots(C, S, pc, ps)
    requires Carried(S, ps, parts.number, |S.credentials|, handles, credentials, materials)
    requires parts.credentials == RebaseCredentials(Without(C.credentials, OwnerName, {pc}), parts.number) + credentials
    ensures SlotFilled(parts, k)
  {
    hide Consistent, SlotTable, Without;
    var n := parts.number;
    if k.profile == ps {
      var c, m := SlotElim(S, k);
      var i :| 0 <= i < |S.credentials| && S.credentials[i] == c;
      assert RebaseCredential(c, n) in credentials;
      assert RebaseCredential(c, n) in parts.credentials;
    } else {
      var c, m := SlotElim(C, k);
      WithoutMember(C.credentials, OwnerName, {pc});
      RebasedCredentials(Without(C.credentials, OwnerName, {pc}), n);
      assert RebaseCredential(c, n) in parts.credentials;
    }
  }

  /** Compares the keys of one profile in two snapshots, credential by credential. */
  method KeysEqual(current: Generation, source: Generation, p: Id, left: seq<Credential>, right: seq<Credential>)
      returns (equal: bool)
    requires Consistent(current) && Consistent(source) && Owns(current, p, left) && Owns(source, p, right)
    ensures equal <==> SameAt(ViewOf(source), ViewOf(current), p)
  {
    hide Consistent, SlotTable, ProfileTable, PolicyTable;
    OwnsSlots(current, p, left);
    OwnsSlots(source, p, right);
    if |left| != |right| {
      assert SameAt(ViewOf(source), ViewOf(current), p) ==> Algorithms(left) == Algorithms(right);
      return false;
    }
    var table := CredentialsByAlgorithm(source, p);
    for i := 0 to |left|
      invariant EqualOn(ViewOf(source), ViewOf(current), p, Algorithms(left[..i]))
    {
      assert left[i] in left;
      assert left[i].algorithm in Algorithms(left);
      assert Algorithms(left[..i + 1]) == Algorithms(left[..i]) + {left[i].algorithm};
      if left[i].algorithm !in table { return false; }
      var same, replaced := CompareSlot(current, source, left[i], table[left[i].algorithm]);
      if !same { return false; }
    }
    assert left[..|left|] == left;
    AllEqual(ViewOf(source), ViewOf(current), p, Algorithms(right), Algorithms(left));
    equal := true;
  }

  method BindingsEqual(current: Generation, source: Generation, b: BindingKey, left: (Policy, Profile, seq<Credential>),
                       right: (Policy, Profile, seq<Credential>))
      returns (equal: bool)
    requires Consistent(current) && Consistent(source) && Target(current, b, left) && Target(source, b, right)
    ensures equal <==> SameBinding(ViewOf(source), ViewOf(current), b)
  {
    hide Consistent, SlotTable, ProfileTable, PolicyTable, SameAt, Owns;
    PolicyOf(current, left.0);
    PolicyOf(source, right.0);
    ProfileIntro(current, left.1);
    ProfileIntro(source, right.1);
    if left.1.id != right.1.id || FactsOfProfile(left.1) != FactsOfProfile(right.1) ||
       FactsOfPolicy(left.0) != FactsOfPolicy(right.0)
    {
      return false;
    }
    equal := KeysEqual(current, source, left.1.id, left.2, right.2);
  }

  /** An exact active binding as the lookup returns it. */
  ghost predicate Target(g: Generation, b: BindingKey, t: (Policy, Profile, seq<Credential>))
    requires Consistent(g)
  {
    && ActiveBinding(ViewOf(g), b)
    && t.0 in g.policies && PolicyBinding(t.0) == b && t.1 in g.profiles && t.0.profileId == t.1.id
    && ViewOf(g).policies[b].profile == t.1.id
    && Owns(g, t.1.id, t.2)
  }

  datatype RollbackTransition = RollbackTransition(expectedCurrent: Number, source: Number, binding: LifecycleBinding,
      candidate: Generation)

  ghost predicate RollbackGuards(current: Generation, source: Generation, next: Number, b: BindingKey)
    requires Consistent(current) && Consistent(source)
  {
    && current.state == Committed && source.state == Committed && source.number < current.number
    && next == current.number + 1
    && Native(b.use) && ActiveBinding(ViewOf(current), b) && ActiveBinding(ViewOf(source), b)
    && !SameBinding(ViewOf(source), ViewOf(current), b)
  }

  /** Succeeds exactly when the guards hold and the source's profile and keys clash with nothing that stays. The result
      is a valid staging successor whose target binding, with its profile and keys, is the source's and whose other
      records are the current ones renumbered. */
  method PlanForwardRollback(current: Generation, source: Generation, next: Number, b: BindingKey)
      returns (result: Result<RollbackTransition>)
    requires Consistent(current) && Consistent(source)
    ensures result.Ok? <==> RollbackGuards(current, source, next, b) && Fits(ViewOf(source), ViewOf(current), b)
    ensures result.Ok? ==>
      var t := result.value;
      && t.expectedCurrent == current.number && t.source == source.number
      && t.binding == LifecycleBinding(b, ViewOf(source).policies[b].profile)
      && Valid(t.candidate) && t.candidate.number == current.number + 1 && t.candidate.state == Staging
      && ViewOf(t.candidate) == RolledBack(ViewOf(source), ViewOf(current), b)
  {
    hide Consistent, SlotTable, ProfileTable, PolicyTable, SameBinding, Without, Canonical, ProfileHandles, PolicyKey;
    if current.state != Committed || source.state != Committed || current.number == MAX_NUMBER ||
        source.number >= current.number ||
       next != current.number + 1 || !Native(b.use)
    {
      return Err(Invalid);
    }
    var target := ExactActiveBinding(current, b);
    if target.Err? { return Err(Invalid); }
    var origin := ExactActiveBinding(source, b);
    if origin.Err? { return Err(Invalid); }
    var equal := BindingsEqual(current, source, b, target.value, origin.value);
    if equal { return Err(Invalid); }
    var candidate := RebaseSourceBinding(current, source, next, b, target.value, origin.value);
    if candidate.Err? { return Err(candidate.error); }
    result := Ok(RollbackTransition(current.number, source.number, LifecycleBinding(b, origin.value.1.id),
        candidate.value));
  }

  method RebaseSourceBinding(current: Generation, source: Generation, n: Number, b: BindingKey,
                             target: (Policy, Profile, seq<Credential>), origin: (Policy, Profile, seq<Credential>))
      returns (result: Result<Generation>)
    requires Consistent(current) && Consistent(source) && Target(current, b, target) && Target(source, b, origin)
    requires n > 0
    ensures result.Ok? <==> Fits(ViewOf(source), ViewOf(current), b)
    ensures result.Ok? ==>
      && Valid(result.value) && result.value.number == n && result.value.state == Staging
      && ViewOf(result.value) == RolledBack(ViewOf(source), ViewOf(current), b)
  {
    hide Consistent, SlotTable, ProfileTable, PolicyTable, Without, Canonical, ProfileHandles, PolicyKey, Owns,
      ActiveBinding, Carried, CarriedRows, Fits, RolledBack, RebaseHandles, RebaseProfiles, RebaseCredentials,
      RebasePolicies, RebaseMaterials;
    var pc, ps := target.1, origin.1;
    var removed, keptCredentials := SplitProfile(current.credentials, pc.id);
    var keptHandles := KeepOthers(current.handles, HandleName, removed);
    var keptProfiles := KeepOthers(current.profiles, ProfileName, {pc.id});
    var keptPolicies := KeepOthers(current.policies, PolicyName, {PolicyKey(b)});
    var keptMaterials := KeepOthers(current.materials, MaterialName, removed);
    var handles, credentials, materials := CarryKeys(source, ps.id, n);
    var parts := Generation(n, Staging, RebaseHandles(keptHandles, n) + handles,
        RebaseProfiles(keptProfiles, n) + [RebaseProfile(ps, n)],
                            RebaseCredentials(keptCredentials, n) + credentials,
                            RebasePolicies(keptPolicies, n) + [RebasePolicy(origin.0, n)],
                            RebaseMaterials(keptMaterials, n) + materials);
    result := NewGeneration(parts);
    assert parts == Union(KeptPart(current, b, pc.id, n),
                          CarriedGeneration(n, handles, ps, credentials, origin.0, materials));
    BindingListed(ViewOf(current), b);
    BindingListed(ViewOf(source), b);
    if Fits(ViewOf(source), ViewOf(current), b) {
      FittingIsConsistent(current, source, b, target, origin, n, handles, credentials, materials);
    }
    if result.Ok? {
      SameRecordsSameView(result.value, parts);
      AssembledTable(current, source, b, target, origin, parts, handles, credentials, materials);
      ConsistentIsFitting(current, source, b, parts);
    }
  }

  lemma AssembledTable(C: Generation, S: Generation, b: BindingKey, target: (Policy, Profile, seq<Credential>),
                       origin: (Policy, Profile, seq<Credential>), parts: Generation, handles: seq<Handle>,
                       credentials: seq<Credential>, materials: seq<KeyMaterial>)
    requires Consistent(C) && Consistent(S) && Consistent(parts) && Target(C, b, target) && Target(S, b, origin)
    requires Carried(S, origin.1.id, parts.number, |S.credentials|, handles, credentials, materials)
    requires parts.profiles ==
      RebaseProfiles(Without(C.profiles, ProfileName, {target.1.id}), parts.number) +
          [RebaseProfile(origin.1, parts.number)]
    requires parts.policies ==
      RebasePolicies(Without(C.policies, PolicyName, {PolicyKey(b)}), parts.number) +
          [RebasePolicy(origin.0, parts.number)]
    requires parts.credentials == RebaseCredentials(Without(C.credentials, OwnerName, {target.1.id}),
                                                    parts.number) + credentials
    requires parts.materials ==
      RebaseMaterials(Without(C.materials, MaterialName, ProfileHandles(C.credentials, target.1.id)),
                      parts.number) + materials
    ensures origin.1.id == target.1.id || origin.1.id !in ViewOf(C).profiles
    ensures ViewOf(parts) == RolledBack(ViewOf(S), ViewOf(C), b)
  {
    hide Consistent, SlotTable, ProfileTable, PolicyTable, Without, ProfileHandles, PolicyKey, Owns, Carried,
      RebaseProfiles, RebasePolicies, RebaseCredentials, RebaseMaterials;
    AssembledProfiles(C, S, b, target.1, origin.1, parts);
    PolicyIntro(S, origin.0);
    AssembledPolicies(C, S, b, origin.0, parts);
    AssembledSlots(C, S, target.1.id, origin.1.id, parts, handles, credentials, materials);
    ProfileIntro(S, origin.1);
    var R := RolledBack(ViewOf(S), ViewOf(C), b);
    assert ProfileTable(parts) == R.profiles;
    assert PolicyTable(parts) == R.policies;
    assert SlotTable(parts) == R.slots;
  }

  // ---------------------------------------------------------------------------------------------
  // When the assembled set is consistent
  // ---------------------------------------------------------------------------------------------

  /** The source profile is the current one or new, and its keys clash with no key that stays. */
  ghost predicate Fits(S: View, C: View, b: BindingKey)
    requires b in S.policies && b in C.policies
  {
    var ps, pc := S.policies[b].profile, C.policies[b].profile;
    && (ps == pc || ps !in C.profiles)
    && forall j, k :: j in C.slots && k in S.slots && j.profile != pc && k.profile == ps ==>
         C.slots[j].handle != S.slots[k].handle && C.slots[j].selector != S.slots[k].selector
  }

  /** The collected rows as lists: one handle, one credential and one owner each, none twice. */
  ghost predicate CarriedRows(source: Generation, n: Number, handles: seq<Handle>, credentials: seq<Credential>,
                              materials: seq<KeyMaterial>)
  {
    && |handles| == |credentials| == |materials| && Unique(credentials)
    && (forall i :: 0 <= i < |credentials| ==>
          handles[i] == Handle(n, credentials[i].handleId) && materials[i].handleId == credentials[i].handleId)
    && (forall i :: 0 <= i < |materials| ==>
          materials[i].generation == n && RebaseMaterial(materials[i], source.number) in source.materials)
  }

  lemma RowsStep(source: Generation, p: Id, n: Number, i: nat, handles: seq<Handle>, credentials: seq<Credential>,
                 materials: seq<KeyMaterial>, m: KeyMaterial)
    requires Consistent(source) && i < |source.credentials| && Carried(source, p, n, i, handles, credentials, materials)
    requires CarriedRows(source, n, handles, credentials, materials) && m in source.materials
    requires m.handleId == source.credentials[i].handleId
    ensures CarriedRows(source, n, handles + [Handle(n, m.handleId)],
                        credentials + [RebaseCredential(source.credentials[i], n)], materials + [RebaseMaterial(m, n)])
  {
    hide Consistent;
    SourceGenerations(source);
    var c := source.credentials[i];
    forall j | 0 <= j < i ensures RebaseCredential(c, n) != RebaseCredential(source.credentials[j], n) {
      assert source.credentials[j] in source.credentials && c in source.credentials && source.credentials[j] != c;
    }
    assert RebaseMaterial(RebaseMaterial(m, n), source.number) == m;
  }

  lemma NoRows(source: Generation, n: Number)
    ensures CarriedRows(source, n, [], [], [])
  {}

  // --- the carried part --------------------------------------------------------------------------

  ghost function CarriedGeneration(n: Number, handles: seq<Handle>, ps: Profile, credentials: seq<Credential>,
                                   q: Policy, materials: seq<KeyMaterial>): Generation
  {
    Generation(n, Staging, handles, [RebaseProfile(ps, n)], credentials, [RebasePolicy(q, n)], materials)
  }

  lemma CarriedCredentials(S: Generation, p: Id, n: Number, r: Generation)
    requires Consistent(S) && r.number == n && Carried(S, p, n, |S.credentials|, r.handles, r.credentials, r.materials)
    requires CarriedRows(S, n, r.handles, r.credentials, r.materials)
    ensures CredentialPart(S, r, id => id == p)
  {
    hide Consistent;
    SourceGenerations(S);
    forall c
      ensures c in r.credentials <==>
        c.generation == n && RebaseCredential(c, S.number) in S.credentials && c.profileId == p
    {
      if c in r.credentials {
        var i :| 0 <= i < |S.credentials| && S.credentials[i].profileId == p &&
            c == RebaseCredential(S.credentials[i], n);
        assert S.credentials[i] in S.credentials && RebaseCredential(c, S.number) == S.credentials[i];
      }
      if c.generation == n && RebaseCredential(c, S.number) in S.credentials && c.profileId == p {
        var i :| 0 <= i < |S.credentials| && S.credentials[i] == RebaseCredential(c, S.number);
        assert c == RebaseCredential(S.credentials[i], n);
      }
    }
  }

  lemma PartUnique(S: Generation, r: Generation, p: Id)
    requires CredentialPart(S, r, id => id == p)
    ensures Unique(r.credentials)
  {}

  /** Two carried rows never share a handle. */
  lemma CarriedHandlesApart(S: Generation, p: Id, r: Generation, i: nat, j: nat)
    requires Consistent(S) && CredentialPart(S, r, id => id == p) && i < j < |r.credentials|
    ensures r.credentials[i].handleId != r.credentials[j].handleId
  {
    hide ValidProfiles, ValidPolicies, ValidMaterials, ValidHandles, CredentialsApart, CredentialPart;
    PartCredentialHome(S, r, id => id == p);
    PartUnique(S, r, p);
    assert r.credentials[i] in r.credentials && r.credentials[j] in r.credentials;
    assert r.credentials[i] != r.credentials[j];
  }

  lemma CarriedHandlesUnique(S: Generation, p: Id, n: Number, r: Generation)
    requires Consistent(S) && CredentialPart(S, r, id => id == p)
    requires CarriedRows(S, n, r.handles, r.credentials, r.materials)
    ensures Unique(r.handles)
  {
    hide Consistent, CredentialPart;
    forall i, j | 0 <= i < j < |r.handles| ensures r.handles[i] != r.handles[j] { CarriedHandlesApart(S, p, r, i, j); }
  }

  lemma CarriedHandlesPart(S: Generation, p: Id, n: Number, r: Generation)
    requires Consistent(S) && r.number == n && CredentialPart(S, r, id => id == p)
    requires CarriedRows(S, n, r.handles, r.credentials, r.materials)
    ensures HandlePart(S, r, id => id == p)
  {
    hide Consistent;
    SourceGenerations(S);
    CarriedHandlesUnique(S, p, n, r);
    forall h ensures h in r.handles <==> h.generation == n && KeptHandle(S, id => id == p, h.id) {
      if h in r.handles {
        var i :| 0 <= i < |r.handles| && r.handles[i] == h;
        assert r.credentials[i] in r.credentials;
        assert RebaseCredential(r.credentials[i], S.number) in S.credentials;
      }
      if h.generation == n && KeptHandle(S, id => id == p, h.id) {
        var c :| c in S.credentials && c.profileId == p && c.handleId == h.id;
        assert RebaseCredential(RebaseCredential(c, n), S.number) == c && RebaseCredential(c, n) in r.credentials;
        var i :| 0 <= i < |r.credentials| && r.credentials[i] == RebaseCredential(c, n);
        assert r.handles[i] == h;
      }
    }
  }

  lemma CarriedMaterialsUnique(S: Generation, p: Id, n: Number, r: Generation)
    requires Consistent(S) && CredentialPart(S, r, id => id == p)
    requires CarriedRows(S, n, r.handles, r.credentials, r.materials)
    ensures Unique(r.materials)
  {
    hide Consistent, CredentialPart;
    forall i, j | 0 <= i < j < |r.materials| ensures r.materials[i] != r.materials[j] {
      CarriedHandlesApart(S, p, r, i, j);
    }
  }

  lemma CarriedMaterialIn(S: Generation, p: Id, n: Number, r: Generation, m: KeyMaterial)
    requires r.number == n && CredentialPart(S, r, id => id == p)
    requires CarriedRows(S, n, r.handles, r.credentials, r.materials) && m in r.materials
    ensures m.generation == n && RebaseMaterial(m, S.number) in S.materials && KeptHandle(S, id => id == p, m.handleId)
  {
    hide Unique;
    var i :| 0 <= i < |r.materials| && r.materials[i] == m;
    assert r.credentials[i] in r.credentials;
    assert RebaseCredential(r.credentials[i], S.number) in S.credentials;
  }

  lemma CarriedMaterialOut(S: Generation, p: Id, n: Number, r: Generation, m: KeyMaterial)
    requires Consistent(S) && r.number == n && CredentialPart(S, r, id => id == p)
    requires CarriedRows(S, n, r.handles, r.credentials, r.materials)
    requires m.generation == n && RebaseMaterial(m, S.number) in S.materials && KeptHandle(S, id => id == p, m.handleId)
    ensures m in r.materials
  {
    hide Consistent, Unique;
    SourceGenerations(S);
    var c :| c in S.credentials && c.profileId == p && c.handleId == m.handleId;
    assert RebaseCredential(RebaseCredential(c, n), S.number) == c && RebaseCredential(c, n) in r.credentials;
    var i :| 0 <= i < |r.credentials| && r.credentials[i] == RebaseCredential(c, n);
    OneMaterial(S, RebaseMaterial(r.materials[i], S.number), RebaseMaterial(m, S.number));
    assert r.materials[i] == RebaseMaterial(RebaseMaterial(r.materials[i], S.number), n);
    assert RebaseMaterial(RebaseMaterial(m, S.number), n) == m;
  }

  lemma CarriedMaterialsPart(S: Generation, p: Id, n: Number, r: Generation)
    requires Consistent(S) && r.number == n && CredentialPart(S, r, id => id == p)
    requires CarriedRows(S, n, r.handles, r.credentials, r.materials)
    ensures MaterialPart(S, r, id => id == p)
  {
    hide Consistent, CredentialPart, CarriedRows, KeptHandle, Unique;
    CarriedMaterialsUnique(S, p, n, r);
    forall m
      ensures m in r.materials <==>
        m.generation == n && RebaseMaterial(m, S.number) in S.materials && KeptHandle(S, id => id == p, m.handleId)
    {
      if m in r.materials { CarriedMaterialIn(S, p, n, r, m); }
      if m.generation == n && RebaseMaterial(m, S.number) in S.materials && KeptHandle(S, id => id == p, m.handleId) {
        CarriedMaterialOut(S, p, n, r, m);
      }
    }
  }

  lemma OneMaterial(g: Generation, m: KeyMaterial, o: KeyMaterial)
    requires Consistent(g) && m in g.materials && o in g.materials && m.handleId == o.handleId
    ensures m == o
  {}

  lemma CarriedIsPart(S: Generation, b: BindingKey, n: Number, ps: Profile, q: Policy, handles: seq<Handle>,
                      credentials: seq<Credential>, materials: seq<KeyMaterial>)
    requires Consistent(S) && ps in S.profiles && q in S.policies && PolicyBinding(q) == b && q.profileId == ps.id
    requires OnlyPolicy(ViewOf(S), ps.id, b)
    requires Carried(S, ps.id, n, |S.credentials|, handles, credentials, materials)
    requires CarriedRows(S, n, handles, credentials, materials)
    ensures Part(S, CarriedGeneration(n, handles, ps, credentials, q, materials), id => id == ps.id)
  {
    hide Consistent, Carried, CarriedRows, HandlePart, CredentialPart, MaterialPart, ViewOf, OnlyPolicy;
    var r := CarriedGeneration(n, handles, ps, credentials, q, materials);
    CarriedCredentials(S, ps.id, n, r);
    CarriedHandlesPart(S, ps.id, n, r);
    CarriedMaterialsPart(S, ps.id, n, r);
    SourceGenerations(S);
    forall p
      ensures p in r.profiles <==> p.generation == n && RebaseProfile(p, S.number) in S.profiles && p.id == ps.id
    {
      if p.generation == n && RebaseProfile(p, S.number) in S.profiles && p.id == ps.id {
        OneProfile(S, RebaseProfile(p, S.number), ps);
      }
      assert RebaseProfile(RebaseProfile(ps, n), S.number) == ps;
    }
    forall x
      ensures x in r.policies <==> x.generation == n && RebasePolicy(x, S.number) in S.policies && x.profileId == ps.id
    {
      if x.generation == n && RebasePolicy(x, S.number) in S.policies && x.profileId == ps.id {
        SolePolicy(S, b, ps.id, RebasePolicy(x, S.number), q);
      }
      assert RebasePolicy(RebasePolicy(q, n), S.number) == q;
    }
  }

  lemma OneProfile(g: Generation, p: Profile, o: Profile)
    requires Consistent(g) && p in g.profiles && o in g.profiles && p.id == o.id
    ensures p == o
  {}

  lemma SolePolicy(g: Generation, b: BindingKey, p: Id, x: Policy, q: Policy)
    requires Consistent(g) && OnlyPolicy(ViewOf(g), p, b) && x in g.policies && q in g.policies && x.profileId == p
    requires PolicyBinding(q) == b
    ensures x == q
  {
    hide SlotTable, ProfileTable, PolicyTable, ValidProfiles, ValidCredentials, ValidMaterials, ValidHandles,
      PolicyLinked;
    PolicyOf(g, x);
  }

  // --- together ----------------------------------------------------------------------------------

  lemma PartsDisjoint(C: Generation, S: Generation, b: BindingKey, pc: Id, ps: Id, kept: Generation,
                      carried: Generation)
    requires Consistent(C) && Consistent(S) && ActiveBinding(ViewOf(C), b) && ActiveBinding(ViewOf(S), b)
    requires Fits(ViewOf(S), ViewOf(C), b)
    requires ViewOf(C).policies[b].profile == pc && ViewOf(S).policies[b].profile == ps
    requires Part(C, kept, id => id != pc) && Part(S, carried, id => id == ps)
    ensures Disjoint(kept, carried)
  {
    hide Consistent, ViewOf, HandlePart, ProfilePart, CredentialPart, PolicyPart, ActiveBinding, Fits, Part;
    BindingListed(ViewOf(C), b);
    BindingListed(ViewOf(S), b);
    forall x, y | x in kept.handles && y in carried.handles ensures x.id != y.id {
      var c :| c in C.credentials && c.profileId != pc && c.handleId == x.id by {
        HandleOwner(C, kept, id => id != pc, x);
      }
      var d :| d in S.credentials && d.profileId == ps && d.handleId == y.id by {
        HandleOwner(S, carried, id => id == ps, y);
      }
      KeysApart(C, S, b, c, d);
    }
    forall x, y | x in kept.credentials && y in carried.credentials ensures x.selector != y.selector {
      CredentialOwner(C, kept, id => id != pc, x);
      CredentialOwner(S, carried, id => id == ps, y);
      KeysApart(C, S, b, RebaseCredential(x, C.number), RebaseCredential(y, S.number));
    }
    forall x, y | x in kept.profiles && y in carried.profiles ensures x.id != y.id {
      ProfileOwner(C, kept, id => id != pc, x);
      ProfileOwner(S, carried, id => id == ps, y);
      ProfileApart(C, S, b, RebaseProfile(x, C.number));
    }
    forall x, y | x in kept.policies && y in carried.policies ensures PolicyBinding(x) != PolicyBinding(y) {
      PolicyOwner(C, kept, id => id != pc, x);
      PolicyOwner(S, carried, id => id == ps, y);
      PoliciesApart(C, S, b, RebasePolicy(x, C.number), RebasePolicy(y, S.number));
    }
  }

  lemma BindingListed(v: View, b: BindingKey)
    requires ActiveBinding(v, b)
    ensures b in v.policies
  {}

  lemma KeysApart(C: Generation, S: Generation, b: BindingKey, c: Credential, d: Credential)
    requires Consistent(C) && Consistent(S) && b in ViewOf(C).policies && b in ViewOf(S).policies
    requires Fits(ViewOf(S), ViewOf(C), b)
    requires c in C.credentials && d in S.credentials && c.profileId != ViewOf(C).policies[b].profile
    requires d.profileId == ViewOf(S).policies[b].profile
    ensures c.handleId != d.handleId && c.selector != d.selector
  {
    hide Consistent, SlotTable, ProfileTable, PolicyTable;
    var m := CredentialHasSlot(C, c);
    var o := CredentialHasSlot(S, d);
    assert CredentialSlot(c) in ViewOf(C).slots && CredentialSlot(d) in ViewOf(S).slots;
  }

  lemma ProfileApart(C: Generation, S: Generation, b: BindingKey, p: Profile)
    requires Consistent(C) && Consistent(S) && b in ViewOf(C).policies && b in ViewOf(S).policies
    requires Fits(ViewOf(S), ViewOf(C), b)
    requires p in C.profiles && p.id != ViewOf(C).policies[b].profile
    ensures p.id != ViewOf(S).policies[b].profile
  {
    hide Consistent, SlotTable, ProfileTable, PolicyTable;
    ProfileIntro(C, p);
  }

  lemma PoliciesApart(C: Generation, S: Generation, b: BindingKey, q: Policy, s: Policy)
    requires Consistent(C) && Consistent(S) && ActiveBinding(ViewOf(C), b) && ActiveBinding(ViewOf(S), b)
    requires q in C.policies && s in S.policies && q.profileId != ViewOf(C).policies[b].profile
    requires s.profileId == ViewOf(S).policies[b].profile
    ensures PolicyBinding(q) != PolicyBinding(s)
  {
    hide Consistent, SlotTable, ProfileTable, PolicyTable;
    PolicyOf(C, q);
    PolicyOf(S, s);
  }

  /** Without a clash the assembled set is consistent. */
  lemma FittingIsConsistent(C: Generation, S: Generation, b: BindingKey, target: (Policy, Profile, seq<Credential>),
                            origin: (Policy, Profile, seq<Credential>), n: Number, handles: seq<Handle>,
                            credentials: seq<Credential>, materials: seq<KeyMaterial>)
    requires Consistent(C) && Consistent(S) && Target(C, b, target) && Target(S, b, origin)
    requires Fits(ViewOf(S), ViewOf(C), b) && n > 0
    requires Carried(S, origin.1.id, n, |S.credentials|, handles, credentials, materials)
    requires CarriedRows(S, n, handles, credentials, materials)
    ensures Consistent(Union(KeptPart(C, b, target.1.id, n),
        CarriedGeneration(n, handles, origin.1, credentials, origin.0, materials)))
  {
    hide Consistent, Fits, Carried, CarriedRows, KeptPart, CarriedGeneration, Part, Related, Disjoint, ViewOf, Owns;
    var pc, ps := target.1.id, origin.1.id;
    var kept, carried := KeptPart(C, b, pc, n),
        CarriedGeneration(n, handles, origin.1, credentials, origin.0, materials);
    KeptIsPart(C, b, pc, n);
    CarriedIsPart(S, b, n, origin.1, origin.0, handles, credentials, materials);
    PartRelated(C, kept, id => id != pc);
    PartRelated(S, carried, id => id == ps);
    PartsDisjoint(C, S, b, pc, ps, kept, carried);
    assert kept.number == carried.number == n by {
      PartNumbers(C, b, pc, n, handles, origin.1, credentials, origin.0, materials);
    }
    UnionRelated(kept, carried);
    CarriedNonEmpty(S, origin.1, carried);
    RelatedIsConsistent(Union(kept, carried));
  }

  lemma PartNumbers(C: Generation, b: BindingKey, pc: Id, n: Number, handles: seq<Handle>, ps: Profile,
                    credentials: seq<Credential>, q: Policy, materials: seq<KeyMaterial>)
    ensures KeptPart(C, b, pc, n).number == CarriedGeneration(n, handles, ps, credentials, q, materials).number == n
  {}

  /** The source profile owns a credential, so a handle is carried. */
  lemma CarriedNonEmpty(S: Generation, ps: Profile, carried: Generation)
    requires Consistent(S) && ps in S.profiles && Part(S, carried, id => id == ps.id)
    ensures carried.handles != []
  {
    hide ValidProfiles, ValidPolicies, ValidMaterials, CredentialsApart;
    assert Owned(ps.id, S.credentials);
    var c :| c in S.credentials && c.profileId == ps.id;
    assert KeptHandle(S, id => id == ps.id, c.handleId);
    assert Handle(carried.number, c.handleId) in carried.handles;
  }

  lemma RelatedIsConsistent(g: Generation)
    requires Related(g) && g.number > 0 && g.handles != []
    ensures Consistent(g)
  {
    hide ValidHandles, ValidProfiles, ValidCredentials, ValidPolicies, ValidMaterials;
  }

  /** A consistent rollback has no clash. */
  lemma ConsistentIsFitting(C: Generation, S: Generation, b: BindingKey, parts: Generation)
    requires Consistent(C) && Consistent(S) && Consistent(parts) && ActiveBinding(ViewOf(C), b)
    requires ActiveBinding(ViewOf(S), b)
    requires ViewOf(parts) == RolledBack(ViewOf(S), ViewOf(C), b)
    requires
      || ViewOf(S).policies[b].profile == ViewOf(C).policies[b].profile
      || ViewOf(S).policies[b].profile !in ViewOf(C).profiles
    ensures Fits(ViewOf(S), ViewOf(C), b)
  {
    hide Consistent, SlotTable, ProfileTable, PolicyTable, PolicyFits, HasSlot;
    ConsistentView(parts);
    ConsistentView(C);
    var ps, pc, R := ViewOf(S).policies[b].profile, ViewOf(C).policies[b].profile, ViewOf(parts);
    forall j, k | j in ViewOf(C).slots && k in ViewOf(S).slots && j.profile != pc && k.profile == ps
      ensures ViewOf(C).slots[j].handle != ViewOf(S).slots[k].handle
      ensures ViewOf(C).slots[j].selector != ViewOf(S).slots[k].selector
    {
      assert SlotLinked(ViewOf(C), j);
      assert j in R.slots && R.slots[j] == ViewOf(C).slots[j] && k in R.slots && R.slots[k] == ViewOf(S).slots[k];
    }
  }

  // ---------------------------------------------------------------------------------------------
  // A rollback is never taken for a rotation
  // ---------------------------------------------------------------------------------------------

  /** With the source's facts retained, the rotation test rejects every rollback candidate. */
  lemma RollbackIsNotRotation(current: Generation, source: Generation, candidate: Generation, history: LineageHistory,
                              b: BindingKey, p: Id, c: BindingKey)
    requires Consistent(current) && Consistent(source) && Consistent(candidate)
    requires RollbackGuards(current, source, candidate.number, b)
    requires ViewOf(candidate) == RolledBack(ViewOf(source), ViewOf(current), b)
    requires
      || ViewOf(source).policies[b].profile == ViewOf(current).policies[b].profile
      || ViewOf(source).policies[b].profile !in ViewOf(current).profiles
    requires Projected(ViewOf(source), source.number, history.facts)
    ensures !RotationIntent(current, candidate, history, p, c)
  {
    hide Consistent, SlotTable, ProfileTable, PolicyTable, SameBinding, Without, Canonical, ValidView, RenewedAt,
      Unused, OnlyPolicy, MatchedOnce;
    var S, C, K := ViewOf(source), ViewOf(current), ViewOf(candidate);
    var ps := S.policies[b].profile;
    ConsistentView(source);
    ConsistentView(current);
    SourceKey(source, ps);
    var a :| SlotKey(ps, a) in S.slots;
    assert K.slots[SlotKey(ps, a)] == S.slots[SlotKey(ps, a)];
    if RotationIntent(current, candidate, history, p, c) {
      assert ps in K.profiles;
      assert p == ps by {
        if p != ps { UntouchedProfile(S, C, b, p, c); }
      }
      assert MatchedOnce(S, source.number, history.facts, SlotKey(ps, a));
      var i := MatchExists(S, source.number, history.facts, SlotKey(ps, a));
      UnusedInstance(K, ps, candidate.number, history.facts, a, i);
      assert false;
    }
  }

  lemma SourceKey(g: Generation, p: Id)
    requires Consistent(g) && p in ViewOf(g).profiles
    ensures exists a :: SlotKey(p, a) in ViewOf(g).slots
  {
    HasOldKeys(g, p);
  }

  lemma UnusedInstance(v: View, p: Id, n: Number, facts: seq<LineageFact>, a: Algorithm, i: nat)
    requires Unused(v, p, n, facts) && SlotKey(p, a) in v.slots && i < |facts| && facts[i].generation < n
    ensures !Reuses(facts[i], SlotKey(p, a), v.slots[SlotKey(p, a)])
  {}

  lemma UntouchedProfile(S: View, C: View, b: BindingKey, p: Id, c: BindingKey)
    requires b in S.policies && b in C.policies && S.policies[b].profile in S.profiles && p != S.policies[b].profile
    requires ValidView(C)
    ensures !RotatedOnly(C, RolledBack(S, C, b), p, c)
  {
    hide RenewedAt;
    var K := RolledBack(S, C, b);
    if p in C.profiles && p in K.profiles {
      assert HasSlot(C, p);
      var a :| SlotKey(p, a) in C.slots;
      assert SameAt(C, K, p);
      if RenewedAt(C, K, p) { RenewedIsChange(C, K, p, a); }
    }
    assert c in C.policies ==> PolicyFits(C, c);
  }
}

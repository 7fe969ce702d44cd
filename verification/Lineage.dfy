/** Retained lineage facts and their exact match with one snapshot. */
module Lineage {
  import opened Text
  import opened Records
  import opened Generations
  import opened Snapshots
  import opened Bindings

  /** A root creation time in seconds; the zero time is never a parsed value. */
  type Moment = t: int | t != 0 witness 1

  datatype LineageFact = LineageFact(generation: Number, created: Moment, tenant: Id, domain: DnsName, use: NativeUse,
                                     selector: DnsName, algorithm: Algorithm, publicSpki: Spki, handle: Id)

  datatype LineageHistory = LineageHistory(complete: bool, facts: seq<LineageFact>)

  function FactBinding(f: LineageFact): BindingKey { BindingKey(f.tenant, f.domain, f.use) }

  /** `f` records the key in slot `k` of generation `n`. */
  predicate FactOf(f: LineageFact, n: Number, k: SlotKey, s: Slot)
  {
    && f.generation == n && FactBinding(f) == s.binding && f.selector == s.selector
    && f.algorithm == k.algorithm && f.handle == s.handle && f.publicSpki == s.publicSpki
  }

  ghost function Positions(facts: seq<LineageFact>, n: Number): set<nat>
  {
    set i: nat | i < |facts| && facts[i].generation == n
  }

  ghost function Matching(facts: seq<LineageFact>, n: Number, k: SlotKey, s: Slot): set<nat>
  {
    set i: nat | i < |facts| && FactOf(facts[i], n, k, s)
  }

  ghost predicate MatchedOnce(v: View, n: Number, facts: seq<LineageFact>, k: SlotKey)
    requires k in v.slots
  {
    HasOnlyPolicy(v, k.profile) && |Matching(facts, n, k, v.slots[k])| == 1
  }

  /** The facts recorded for generation `n` are as many as its keys, and every key has exactly one. */
  ghost predicate Projected(v: View, n: Number, facts: seq<LineageFact>)
  {
    && |Positions(facts, n)| == |v.slots|
    && forall k {:trigger MatchedOnce(v, n, facts, k)} :: k in v.slots ==> MatchedOnce(v, n, facts, k)
  }

  lemma MatchExists(v: View, n: Number, facts: seq<LineageFact>, k: SlotKey) returns (i: nat)
    requires k in v.slots && MatchedOnce(v, n, facts, k)
    ensures i < |facts| && FactOf(facts[i], n, k, v.slots[k])
  {
    assert Matching(facts, n, k, v.slots[k]) != {};
    i :| i in Matching(facts, n, k, v.slots[k]);
  }

  /** One index per key, and all of them positions of generation `n`. */
  lemma {:induction false} DistinctMatches(v: View, n: Number, facts: seq<LineageFact>, keys: set<SlotKey>)
      returns (used: set<nat>)
    requires ValidView(v) && keys <= v.slots.Keys
    requires forall k :: k in keys ==> MatchedOnce(v, n, facts, k)
    ensures used <= Positions(facts, n) && |used| == |keys|
    ensures forall i :: i in used ==> exists k :: k in keys && FactOf(facts[i], n, k, v.slots[k])
    decreases keys
  {
    hide SlotLinked, HasSlot, PolicyFits, MatchedOnce;
    if keys == {} {
      used := {};
    } else {
      var k :| k in keys;
      var rest := DistinctMatches(v, n, facts, keys - {k});
      var i := MatchExists(v, n, facts, k);
      assert i !in rest;
      used := rest + {i};
    }
  }

  /** The pigeonhole consequence: nothing else is recorded for that generation. */
  lemma ProjectionIsExact(v: View, n: Number, facts: seq<LineageFact>, i: nat) returns (k: SlotKey)
    requires ValidView(v) && Projected(v, n, facts) && i < |facts| && facts[i].generation == n
    ensures k in v.slots && FactOf(facts[i], n, k, v.slots[k])
  {
    hide ValidView, MatchedOnce;
    var used := DistinctMatches(v, n, facts, v.slots.Keys);
    SubsetOfEqualSize(used, Positions(facts, n));
    assert i in used;
    k :| k in v.slots.Keys && FactOf(facts[i], n, k, v.slots[k]);
  }

  lemma PositionsStep(facts: seq<LineageFact>, j: nat, n: Number)
    requires j < |facts|
    ensures Positions(facts[..j + 1], n) == Positions(facts[..j], n) + if facts[j].generation == n then {j} else {}
  {}

  method CountFacts(facts: seq<LineageFact>, n: Number) returns (count: nat)
    ensures count == |Positions(facts, n)|
  {
    count := 0;
    for j := 0 to |facts|
      invariant count == |Positions(facts[..j], n)|
    {
      PositionsStep(facts, j, n);
      if facts[j].generation == n { count := count + 1; }
    }
    assert facts[..|facts|] == facts;
  }

  lemma MatchingStep(facts: seq<LineageFact>, j: nat, n: Number, k: SlotKey, s: Slot)
    requires j < |facts|
    ensures Matching(facts[..j + 1], n, k, s) ==
      Matching(facts[..j], n, k, s) + if FactOf(facts[j], n, k, s) then {j} else {}
  {
    hide FactOf;
  }

  method CountMatches(facts: seq<LineageFact>, n: Number, q: Policy, p: Profile, c: Credential, ghost s: Slot)
      returns (count: nat)
    requires p.domain == q.domain && PolicyBinding(q) == s.binding
    requires s.selector == c.selector && s.handle == c.handleId && s.publicSpki == c.publicSpki
    ensures count == |Matching(facts, n, CredentialSlot(c), s)|
  {
    count := 0;
    for j := 0 to |facts|
      invariant count == |Matching(facts[..j], n, CredentialSlot(c), s)|
    {
      MatchingStep(facts, j, n, CredentialSlot(c), s);
      var f := facts[j];
      if f.generation == n && f.tenant == q.tenant && f.domain == p.domain && f.use == q.use &&
          f.selector == c.selector &&
         f.algorithm == c.algorithm && f.handle == c.handleId && f.publicSpki == c.publicSpki
      {
        count := count + 1;
      }
    }
    assert facts[..|facts|] == facts;
  }

  /** One snapshot against the facts of its own number. */
  method ValidateGenerationLineageProjection(g: Generation, facts: seq<LineageFact>, n: Number) returns (ok: bool)
    requires Consistent(g)
    ensures ok <==> g.number == n && Projected(ViewOf(g), n, facts)
  {
    hide Consistent, SlotTable, ProfileTable, PolicyTable, HasOnlyPolicy, OnlyPolicy, ValidView, Positions, Matching;
    if g.number != n { return false; }
    var count := CountFacts(facts, n);
    KeysCounted(g);
    if count != |g.credentials| { return false; }
    for i := 0 to |g.credentials|
      invariant forall j {:trigger g.credentials[j]} :: 0 <= j < i ==>
        && CredentialSlot(g.credentials[j]) in SlotTable(g)
        && MatchedOnce(ViewOf(g), n, facts, CredentialSlot(g.credentials[j]))
    {
      var c := g.credentials[i];
      ghost var m := CredentialHasSlot(g, c);
      ghost var k := CredentialSlot(c);
      assert MatchedOnce(ViewOf(g), n, facts, k) <==>
        HasOnlyPolicy(ViewOf(g), k.profile) && |Matching(facts, n, k, ViewOf(g).slots[k])| == 1;
      var profile := ProfileById(g, c.profileId);
      var policy := ExclusivePolicyForProfile(g, c.profileId);
      OwnerExists(g, c);
      if profile.None? || policy.None? { return false; }
      OwnerDomain(g, c, policy.value, profile.value);
      var matches := CountMatches(facts, n, policy.value, profile.value, c, SlotTable(g)[k]);
      if matches != 1 { return false; }
    }
    forall k | k in SlotTable(g) ensures MatchedOnce(ViewOf(g), n, facts, k) {
      var c, m := SlotElim(g, k);
      var j :| 0 <= j < |g.credentials| && g.credentials[j] == c;
    }
    ok := true;
  }

  lemma KeysCounted(g: Generation)
    requires Consistent(g)
    ensures |ViewOf(g).slots| == |g.credentials|
  {
    SlotsCounted(g);
  }

  lemma OwnerExists(g: Generation, c: Credential)
    requires Consistent(g) && c in g.credentials
    ensures c.profileId in ViewOf(g).profiles
  {
    ProfileOwnsCredentials(g, c.profileId);
  }

  /** The sole policy of a credential's profile is the binding of its key, and it names the profile's domain. */
  lemma OwnerDomain(g: Generation, c: Credential, q: Policy, p: Profile)
    requires Consistent(g) && c in g.credentials && CredentialSlot(c) in SlotTable(g)
    requires q in g.policies && OnlyPolicy(ViewOf(g), c.profileId, PolicyBinding(q))
    requires p in g.profiles && p.id == c.profileId && ViewOf(g).profiles[c.profileId] == FactsOfProfile(p)
    ensures SlotTable(g)[CredentialSlot(c)].binding == PolicyBinding(q) && p.domain == q.domain
  {
    hide Consistent, SlotTable, ProfileTable, PolicyTable;
    ConsistentView(g);
    SoleBinding(ViewOf(g), c.profileId, PolicyBinding(q), CredentialSlot(c));
    PolicyOf(g, q);
  }
}

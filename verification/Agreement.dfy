/** The planners and the independently written validators agree. */
module Agreement {
  import opened Wrappers
  import opened Text
  import opened Order
  import opened Records
  import opened Generations
  import opened Snapshots
  import opened Bindings
  import opened Lifecycle
  import opened Lineage
  import opened Transitions
  import opened Campaign
  import opened Eligibility
  import opened Rotation
  import opened Planners

  /** No generated public key is one the current snapshot already publishes. */
  ghost predicate FreshPublics(S: View, pairs: seq<Option<KeyPair>>)
  {
    forall i, k :: 0 <= i < |pairs| && pairs[i].Some? && k in S.slots ==>
      pairs[i].value.publicSpki != S.slots[k].publicSpki
  }

  lemma FreshReplaces(S: View, K: View, targets: map<Id, set<Algorithm>>, ids: Identifiers, pairs: seq<Option<KeyPair>>,
                      k: SlotKey, j: SlotKey)
    requires Rekeyed(S, K, targets, ids, pairs) && FreshPublics(S, pairs)
    requires k in S.slots && j in K.slots && j.profile in targets
    ensures ReplacedSlot(S.slots[k], K.slots[j]) && FreshSlot(S, K.slots[j])
  {
    hide SameAt, Carries;
    var i :| 0 <= i < |pairs| && pairs[i] == Some(KeyPair(j.algorithm, K.slots[j].publicSpki, K.slots[j].privatePkcs8));
  }

  /** A rekeyed profile that kept its algorithms counts as completely replaced. */
  lemma RekeyedIsReplaced(S: View, K: View, targets: map<Id, set<Algorithm>>, ids: Identifiers,
                          pairs: seq<Option<KeyPair>>, p: Id)
    requires Rekeyed(S, K, targets, ids, pairs) && FreshPublics(S, pairs) && p in targets
    requires SlotAlgorithms(S, p) <= targets[p]
    ensures ReplacedAt(S, K, p)
  {
    hide SameAt, FreshSlot, ReplacedSlot, FreshPublics;
    assert Carries(K, p, targets[p]);
    forall a: Algorithm | SlotKey(p, a) in S.slots ensures SlotKey(p, a) in K.slots {
      assert SlotKey(p, a).algorithm in SlotAlgorithms(S, p);
    }
    forall a: Algorithm, b: Algorithm | SlotKey(p, a) in S.slots && SlotKey(p, b) in K.slots
      ensures ReplacedSlot(S.slots[SlotKey(p, a)], K.slots[SlotKey(p, b)])
    {
      FreshReplaces(S, K, targets, ids, pairs, SlotKey(p, a), SlotKey(p, b));
    }
  }

  /** A campaign that keeps every algorithm is a complete campaign change of exactly its bindings. */
  lemma CampaignAgrees(S: View, K: View, bindings: seq<BindingKey>, wanted: Option<set<Algorithm>>,
                       targets: map<Id, set<Algorithm>>, ids: Identifiers, pairs: seq<Option<KeyPair>>)
    requires ValidView(S) && Aims(S, bindings, wanted, targets) && Rekeyed(S, K, targets, ids, pairs)
    requires FreshPublics(S, pairs)
    requires forall b :: b in bindings ==> Native(b.use)
    requires wanted.Some? ==>
      forall b :: b in bindings && b in S.policies ==> SlotAlgorithms(S, S.policies[b].profile) <= wanted.value
    ensures CampaignChange(S, K) && ChangedSet(S, K) == set b | b in bindings
  {
    hide SameAt, FreshSlot, ReplacedSlot, FreshPublics, ReplacedAt, SlotAlgorithms, FreshKey, PolicyFits, SlotLinked;
    forall b | b in bindings ensures Rebound(S, K, S.policies[b].profile, b) {
      RekeyedIsReplaced(S, K, targets, ids, pairs, S.policies[b].profile);
    }
    forall p | p in S.profiles ensures ProfileFits(S, K, p) {
      if p in targets {
        var b :| b in bindings && b in S.policies && S.policies[b].profile == p;
        assert Rebound(S, K, p, b);
      } else {
        assert SameAt(S, K, p);
      }
    }
    forall b | b in ChangedSet(S, K) ensures b in bindings {
      var p := S.policies[b].profile;
      assert HasSlot(S, p);
      ReplacedIsChange(S, K, p);
      assert p !in targets ==> SameAt(S, K, p);
      var c :| c in bindings && c in S.policies && S.policies[c].profile == p;
    }
  }

  lemma DecisionsList(v: View, facts: seq<LineageFact>, now: int, rotateAfter: int, list: seq<EligibilityDecision>)
    requires Decisions(v, facts, now, rotateAfter, list)
    ensures Lists(DecisionBindings(list), DueSet(v, facts, now, rotateAfter))
  {
    hide Since, Due;
    var bindings := DecisionBindings(list);
    forall b ensures b in bindings <==> b in DueSet(v, facts, now, rotateAfter) {
      if b in bindings {
        var i :| 0 <= i < |bindings| && bindings[i] == b;
        assert list[i] in list;
      }
      if b in DueSet(v, facts, now, rotateAfter) {
        assert Decided(list, b);
        var d :| d in list && d.binding == b;
        var i :| 0 <= i < |list| && list[i] == d;
        assert bindings[i] == b;
      }
    }
  }

  /** The stored result of a global rotation is recognised as exactly the due bindings, in the same order. */
  lemma GlobalRotationIsRecognised(current: Generation, candidate: Generation, facts: seq<LineageFact>, now: int,
                                   limits: RotationLimits, decisions: seq<EligibilityDecision>, ids: Identifiers,
                                   pairs: seq<Option<KeyPair>>, changed: seq<BindingKey>)
    requires Valid(current) && Valid(candidate) && FreshPublics(ViewOf(current), pairs)
    requires Decisions(ViewOf(current), facts, now, limits.rotateAfter, decisions)
    requires CampaignCandidate(current, candidate, DecisionBindings(decisions), None, ids, pairs)
    ensures candidate.number == current.number + 1 && CampaignChange(ViewOf(current), ViewOf(candidate))
    ensures ChangedSet(ViewOf(current), ViewOf(candidate)) == DueSet(ViewOf(current), facts, now, limits.rotateAfter)
    ensures Lists(changed, ChangedSet(ViewOf(current), ViewOf(candidate))) ==> changed == DecisionBindings(decisions)
  {
    hide Consistent, Canonical, SlotTable, ProfileTable, PolicyTable, Decisions, CampaignChange, ChangedSet, DueSet,
      Rekeyed, FreshPublics, ActiveBinding;
    var S, K := ViewOf(current), ViewOf(candidate);
    var bindings := DecisionBindings(decisions);
    ConsistentView(current);
    DecisionsList(S, facts, now, limits.rotateAfter, decisions);
    var targets :| Aims(S, bindings, None, targets) && Rekeyed(S, K, targets, ids, pairs);
    forall b | b in bindings ensures Native(b.use) { NativeBinding(S, b); }
    CampaignAgrees(S, K, bindings, None, targets, ids, pairs);
    assert ChangedSet(S, K) == DueSet(S, facts, now, limits.rotateAfter);
    if Lists(changed, ChangedSet(S, K)) { ListsUnique(changed, bindings, ChangedSet(S, K)); }
  }

  /** Every stored result of a global extension passes the extension test for the same request. */
  lemma GlobalExtensionIsAccepted(current: Generation, candidate: Generation, algorithms: seq<Algorithm>,
                                  limits: RotationLimits, bindings: seq<BindingKey>, ids: Identifiers,
                                  pairs: seq<Option<KeyPair>>)
    requires Valid(current) && Valid(candidate) && FreshPublics(ViewOf(current), pairs)
    requires AllNative(ActiveSet(ViewOf(current)))
    requires Lists(bindings, ActiveSet(ViewOf(current)))
    requires Keepable(ViewOf(current), bindings, AlgorithmsIn(algorithms))
    requires CampaignCandidate(current, candidate, bindings, Some(AlgorithmsIn(algorithms)), ids, pairs)
    ensures candidate.number == current.number + 1
    ensures Extended(ViewOf(current), ViewOf(candidate), set a | a in algorithms)
  {
    hide Consistent, Canonical, SlotTable, ProfileTable, PolicyTable, CampaignChange, ChangedSet, ActiveSet,
      FreshPublics, FreshKey, SlotAlgorithms, Carries, SameAt, Strictly;
    var S, K := ViewOf(current), ViewOf(candidate);
    var requested := AlgorithmsIn(algorithms);
    ConsistentView(current);
    var targets :| Aims(S, bindings, Some(requested), targets) && Rekeyed(S, K, targets, ids, pairs);
    CampaignAgrees(S, K, bindings, Some(requested), targets, ids, pairs);
    forall b | b in ActiveSet(S) ensures b in S.policies && Carries(K, S.policies[b].profile, requested) {
      assert b in bindings;
      assert Carries(K, S.policies[b].profile, targets[S.policies[b].profile]);
    }
    assert ChangedSet(S, K) == ActiveSet(S);
  }

  // ---------------------------------------------------------------------------------------------
  // One rotated binding
  // ---------------------------------------------------------------------------------------------

  /** A rekeyed enforced binding is a unique rotation. */
  lemma RotationIsUnique(S: View, K: View, b: BindingKey, requested: set<Algorithm>, ids: Identifiers,
                         pairs: seq<Option<KeyPair>>)
    requires ValidView(S) && ActiveBinding(S, b) && S.policies[b].rollout == Enforce
    requires SlotAlgorithms(S, S.policies[b].profile) <= requested
    requires Rekeyed(S, K, map[S.policies[b].profile := requested], ids, pairs) && FreshPublics(S, pairs)
    ensures RotatedOnly(S, K, S.policies[b].profile, b)
    ensures CrossReplaced(S, K, S.policies[b].profile)
  {
    hide SameAt, FreshSlot, FreshPublics, SlotAlgorithms, FreshKey, ValidView, Carries;
    NativeBinding(S, b);
    RekeyedIsReplaced(S, K, map[S.policies[b].profile := requested], ids, pairs, S.policies[b].profile);
  }

  /** Retiring and active selectors of a rotation without cross reuse have nothing in common. */
  lemma SelectorsDisjoint(S: View, K: View, p: Id, retiring: seq<LifecycleCredential>, active: seq<LifecycleCredential>)
    requires CrossReplaced(S, K, p) && Projects(S, p, retiring) && Projects(K, p, active)
    ensures forall c, d :: c in retiring && d in active ==> c.selector != d.selector
  {
    forall c, d | c in retiring && d in active ensures c.selector != d.selector {
      assert ReplacedSlot(S.slots[SlotKey(p, c.algorithm)], K.slots[SlotKey(p, d.algorithm)]);
    }
  }

  /** One fact per key, all recorded for generation `n`. */
  ghost predicate ProjectionOf(v: View, n: Number, facts: seq<LineageFact>)
  {
    && |facts| == |v.slots| && (forall f :: f in facts ==> f.generation == n)
    && forall k {:trigger Recorded(v, n, facts, k)} :: k in v.slots ==> Recorded(v, n, facts, k)
  }

  ghost predicate Recorded(v: View, n: Number, facts: seq<LineageFact>, k: SlotKey)
    requires k in v.slots
  {
    exists i :: 0 <= i < |facts| && FactOf(facts[i], n, k, v.slots[k])
  }

  /** Every position of a projection belongs to one key, because the counts agree. */
  /** Handles are distinct, so a fact records at most one key. */
  lemma OneKeyPerFact(v: View, n: Number, f: LineageFact, k: SlotKey, l: SlotKey)
    requires ValidView(v) && k in v.slots && l in v.slots
    requires FactOf(f, n, k, v.slots[k]) && k != l
    ensures !FactOf(f, n, l, v.slots[l])
  {
    hide SlotLinked, HasSlot, PolicyFits;
  }

  lemma ProjectionRecords(v: View, n: Number, facts: seq<LineageFact>, k: SlotKey) returns (i: nat)
    requires ProjectionOf(v, n, facts) && k in v.slots
    ensures i < |facts| && FactOf(facts[i], n, k, v.slots[k])
  {
    hide FactOf;
    assert Recorded(v, n, facts, k);
    i := RecordedAt(v, n, facts, k);
  }

  lemma MatchAt(facts: seq<LineageFact>, n: Number, k: SlotKey, s: Slot, x: nat)
    requires x < |facts| && FactOf(facts[x], n, k, s)
    ensures x in Matching(facts, n, k, s)
  {}

  lemma MatchInMiddle(facts: seq<LineageFact>, n: Number, offset: nat, own: seq<LineageFact>, k: SlotKey, s: Slot,
                      x: nat)
    requires Positions(facts, n) == Range(offset, |own|) && x in Matching(facts, n, k, s)
    requires LiesAt(facts, offset, own)
    ensures 0 <= x - offset < |own| && FactOf(own[x - offset], n, k, s)
  {
    RangeContents(offset, |own|);
    assert x in Positions(facts, n);
    assert facts[offset + (x - offset)] == own[x - offset];
  }

  lemma {:induction false} ProjectionOnto(v: View, n: Number, facts: seq<LineageFact>, keys: set<SlotKey>)
      returns (used: set<nat>)
    requires ValidView(v) && keys <= v.slots.Keys && forall k :: k in keys ==> Recorded(v, n, facts, k)
    ensures |used| == |keys|
    ensures forall i :: i in used ==> i < |facts| && exists k :: k in keys && FactOf(facts[i], n, k, v.slots[k])
    decreases keys
  {
    hide ValidView, Recorded, FactOf;
    if keys == {} {
      used := {};
    } else {
      var k :| k in keys;
      var rest := ProjectionOnto(v, n, facts, keys - {k});
      assert Recorded(v, n, facts, k);
      var i := RecordedAt(v, n, facts, k);
      forall l | l in keys - {k} && i in rest ensures !FactOf(facts[i], n, l, v.slots[l]) {
        OneKeyPerFact(v, n, facts[i], k, l);
      }
      used := rest + {i};
    }
  }

  lemma RecordedAt(v: View, n: Number, facts: seq<LineageFact>, k: SlotKey) returns (i: nat)
    requires k in v.slots && Recorded(v, n, facts, k)
    ensures i < |facts| && FactOf(facts[i], n, k, v.slots[k])
  {
    i :| 0 <= i < |facts| && FactOf(facts[i], n, k, v.slots[k]);
  }

  /** No key has two facts in a projection. */
  lemma ProjectionOnce(v: View, n: Number, facts: seq<LineageFact>, k: SlotKey, i: nat, j: nat)
    requires ValidView(v) && ProjectionOf(v, n, facts) && k in v.slots && i < |facts| && j < |facts|
    requires FactOf(facts[i], n, k, v.slots[k]) && FactOf(facts[j], n, k, v.slots[k])
    ensures i == j
  {
    hide ValidView, FactOf;
    if i != j {
      var others := v.slots.Keys - {k};
      var used := ProjectionOnto(v, n, facts, others);
      forall l | l in others ensures !FactOf(facts[i], n, l, v.slots[l]) && !FactOf(facts[j], n, l, v.slots[l]) {
        OneKeyPerFact(v, n, facts[i], k, l);
        OneKeyPerFact(v, n, facts[j], k, l);
      }
      var all := Range(0, |facts|);
      RangeContents(0, |facts|);
      assert used <= all - {i, j};
      assert |all - {i, j}| == |all| - 2;
      SubsetOfEqualSize(used, all - {i, j});
    }
  }

  ghost function Range(a: nat, n: nat): set<nat> { if n == 0 then {} else Range(a, n - 1) + {a + n - 1} }

  lemma {:induction false} RangeContents(a: nat, n: nat)
    ensures |Range(a, n)| == n && forall x: nat :: x in Range(a, n) <==> a <= x < a + n
  {
    if n > 0 { RangeContents(a, n - 1); }
  }

  /** Only the middle part of the history carries the number `n`. */
  ghost predicate LiesAt(facts: seq<LineageFact>, offset: nat, own: seq<LineageFact>)
  {
    forall j :: 0 <= j < |own| ==> offset + j < |facts| && facts[offset + j] == own[j]
  }

  lemma MiddleLies(before: seq<LineageFact>, own: seq<LineageFact>, after: seq<LineageFact>)
    ensures LiesAt(before + own + after, |before|, own)
  {}

  lemma NumberedMiddle(n: Number, before: seq<LineageFact>, own: seq<LineageFact>, after: seq<LineageFact>)
    requires (forall f :: f in before ==> f.generation != n) && (forall f :: f in own ==> f.generation == n)
    requires forall f :: f in after ==> f.generation != n
    ensures Positions(before + own + after, n) == Range(|before|, |own|)
  {
    var facts := before + own + after;
    RangeContents(|before|, |own|);
    forall x: nat | x < |facts| ensures facts[x].generation == n <==> |before| <= x < |before| + |own| {
      if x < |before| { assert facts[x] in before; }
      else if x < |before| + |own| { assert facts[x] == own[x - |before|] && facts[x] in own; }
      else { assert facts[x] == after[x - |before| - |own|] && facts[x] in after; }
    }
  }

  lemma MatchedInMiddle(v: View, n: Number, facts: seq<LineageFact>, offset: nat, own: seq<LineageFact>, k: SlotKey)
    requires ValidView(v) && ProjectionOf(v, n, own) && k in v.slots
    requires Positions(facts, n) == Range(offset, |own|)
    requires LiesAt(facts, offset, own)
    ensures |Matching(facts, n, k, v.slots[k])| == 1
  {
    hide ValidView, ProjectionOf, FactOf, Range, Matching, Positions;
    var i := ProjectionRecords(v, n, own, k);
    var at := offset + i;
    var found := Matching(facts, n, k, v.slots[k]);
    assert at in found by { MatchAt(facts, n, k, v.slots[k], at); }
    forall x: nat | x in found ensures x == at {
      MatchInMiddle(facts, n, offset, own, k, v.slots[k], x);
      ProjectionOnce(v, n, own, k, i, x - offset);
    }
    assert found == {at};
  }

  /** Facts of other generations around a projection do not disturb it. */
  lemma ProjectedInMiddle(v: View, n: Number, facts: seq<LineageFact>, offset: nat, own: seq<LineageFact>)
    requires ValidView(v) && OnePolicyPerProfile(v) && ProjectionOf(v, n, own)
    requires Positions(facts, n) == Range(offset, |own|)
    requires LiesAt(facts, offset, own)
    ensures Projected(v, n, facts)
  {
    hide HasOnlyPolicy, ValidView, OnePolicyPerProfile, Positions, Matching, Recorded, FactOf, Range;
    RangeContents(offset, |own|);
    forall k | k in v.slots ensures MatchedOnce(v, n, facts, k) {
      MatchedInMiddle(v, n, facts, offset, own, k);
      KeyHasPolicy(v, k);
    }
  }

  lemma OwnNumber(v: View, n: Number, own: seq<LineageFact>)
    requires ProjectionOf(v, n, own)
    ensures forall f :: f in own ==> f.generation == n
  {
    hide Recorded;
  }

  lemma ProjectionIsProjected(v: View, n: Number, before: seq<LineageFact>, own: seq<LineageFact>,
                              after: seq<LineageFact>)
    requires ValidView(v) && OnePolicyPerProfile(v) && ProjectionOf(v, n, own)
    requires (forall f :: f in before ==> f.generation != n) && (forall f :: f in after ==> f.generation != n)
    ensures Projected(v, n, before + own + after)
  {
    hide ValidView, OnePolicyPerProfile, Positions, Range, Projected, ProjectionOf, LiesAt;
    OwnNumber(v, n, own);
    NumberedMiddle(n, before, own, after);
    MiddleLies(before, own, after);
    ProjectedInMiddle(v, n, before + own + after, |before|, own);
  }

  lemma KeyHasPolicy(v: View, k: SlotKey)
    requires ValidView(v) && OnePolicyPerProfile(v) && k in v.slots
    ensures HasOnlyPolicy(v, k.profile)
  {
    hide HasOnlyPolicy;
    assert SlotLinked(v, k);
  }

  /** The retained history knows every identifier, and the generator repeats no recorded public key. */
  ghost predicate HistoryCovered(facts: seq<LineageFact>, ids: Identifiers, pairs: seq<Option<KeyPair>>)
  {
    && (forall f :: f in facts ==> f.selector in ids.selectors && f.handle in ids.handles)
    && (forall f, i :: f in facts && 0 <= i < |pairs| && pairs[i].Some? ==> pairs[i].value.publicSpki != f.publicSpki)
  }

  lemma RekeyedIsUnused(S: View, K: View, p: Id, requested: set<Algorithm>, ids: Identifiers,
                        pairs: seq<Option<KeyPair>>, n: Number, older: seq<LineageFact>, own: seq<LineageFact>,
                        latest: seq<LineageFact>)
    requires ValidView(S) && Rekeyed(S, K, map[p := requested], ids, pairs) && FreshPublics(S, pairs) && n < MAX_NUMBER
    requires HistoryCovered(older, ids, pairs) && ProjectionOf(S, n, own)
    requires forall f :: f in latest ==> f.generation == n + 1
    ensures Unused(K, p, n + 1, older + own + latest)
  {
    hide Rekeyed, FreshPublics, ValidView, HistoryCovered, ProjectionOf, Reuses;
    var facts := older + own + latest;
    forall x | |older| + |own| <= x < |facts| ensures facts[x].generation == n + 1 {
      assert facts[x] == latest[x - |older| - |own|] && facts[x] in latest;
    }
    forall a: Algorithm, i | SlotKey(p, a) in K.slots && 0 <= i < |facts| && facts[i].generation < n + 1
      ensures !Reuses(facts[i], SlotKey(p, a), K.slots[SlotKey(p, a)])
    {
      if i < |older| {
        assert facts[i] == older[i];
        OlderNotReused(S, K, p, requested, ids, pairs, older, i, a);
      } else if i < |older| + |own| {
        assert facts[i] == own[i - |older|];
        OwnNotReused(S, K, p, requested, ids, pairs, n, own, i - |older|, a);
      }
    }
  }

  lemma OlderNotReused(S: View, K: View, p: Id, requested: set<Algorithm>, ids: Identifiers,
                       pairs: seq<Option<KeyPair>>, older: seq<LineageFact>, i: nat, a: Algorithm)
    requires Rekeyed(S, K, map[p := requested], ids, pairs) && HistoryCovered(older, ids, pairs) && i < |older|
    requires SlotKey(p, a) in K.slots
    ensures !Reuses(older[i], SlotKey(p, a), K.slots[SlotKey(p, a)])
  {
    hide Rekeyed;
    var j := GeneratedBy(S, K, p, requested, ids, pairs, a);
    assert older[i] in older;
  }

  lemma OwnNotReused(S: View, K: View, p: Id, requested: set<Algorithm>, ids: Identifiers, pairs: seq<Option<KeyPair>>,
                     n: Number, own: seq<LineageFact>, i: nat, a: Algorithm)
    requires ValidView(S) && Rekeyed(S, K, map[p := requested], ids, pairs) && FreshPublics(S, pairs)
    requires ProjectionOf(S, n, own)
    requires i < |own| && SlotKey(p, a) in K.slots
    ensures !Reuses(own[i], SlotKey(p, a), K.slots[SlotKey(p, a)])
  {
    hide Rekeyed, ValidView, FreshPublics, ProjectionOf;
    var k := ProjectionKey(S, n, own, i);
    FreshReplaces(S, K, map[p := requested], ids, pairs, k, SlotKey(p, a));
  }

  lemma GeneratedBy(S: View, K: View, p: Id, requested: set<Algorithm>, ids: Identifiers, pairs: seq<Option<KeyPair>>,
                    a: Algorithm)
      returns (j: nat)
    requires Rekeyed(S, K, map[p := requested], ids, pairs) && SlotKey(p, a) in K.slots
    ensures j < |pairs| && pairs[j].Some? && pairs[j].value.publicSpki == K.slots[SlotKey(p, a)].publicSpki
    ensures K.slots[SlotKey(p, a)].selector !in ids.selectors && K.slots[SlotKey(p, a)].handle !in ids.handles
  {
    hide SameAt, Carries, FreshSlot;
    var s := K.slots[SlotKey(p, a)];
    j :| 0 <= j < |pairs| && pairs[j] == Some(KeyPair(a, s.publicSpki, s.privatePkcs8));
  }

  lemma ProjectionKey(v: View, n: Number, facts: seq<LineageFact>, i: nat) returns (k: SlotKey)
    requires ValidView(v) && ProjectionOf(v, n, facts) && i < |facts|
    ensures k in v.slots && FactOf(facts[i], n, k, v.slots[k])
  {
    hide ValidView, FactOf, Recorded;
    var used := ProjectionOnto(v, n, facts, v.slots.Keys);
    var all := Range(0, |facts|);
    RangeContents(0, |facts|);
    SubsetOfEqualSize(used, all);
    assert i in used;
    k :| k in v.slots.Keys && FactOf(facts[i], n, k, v.slots[k]);
  }

  /** A planned rotation of an enforced binding is a rotation to the intent test, for the same binding, once both
      snapshots are recorded on top of the older history. */
  lemma PlannedRotationIsIntended(current: Generation, candidate: Generation, b: BindingKey, requested: set<Algorithm>,
                                  ids: Identifiers, pairs: seq<Option<KeyPair>>, older: seq<LineageFact>,
                                  own: seq<LineageFact>, latest: seq<LineageFact>)
    requires Consistent(current) && Consistent(candidate) && current.state == Committed
    requires candidate.number == current.number + 1
    requires ActiveBinding(ViewOf(current), b) && ViewOf(current).policies[b].rollout == Enforce
    requires OnePolicyPerProfile(ViewOf(current))
    requires SlotAlgorithms(ViewOf(current), ViewOf(current).policies[b].profile) <= requested
    requires Rekeyed(ViewOf(current), ViewOf(candidate), map[ViewOf(current).policies[b].profile := requested], ids,
                     pairs)
    requires FreshPublics(ViewOf(current), pairs) && HistoryCovered(older, ids, pairs)
    requires forall f :: f in older ==> f.generation < current.number
    requires ProjectionOf(ViewOf(current), current.number, own)
    requires ProjectionOf(ViewOf(candidate), candidate.number, latest)
    ensures RotationIntent(current, candidate, LineageHistory(true, older + own + latest),
                           ViewOf(current).policies[b].profile, b)
    ensures CrossReplaced(ViewOf(current), ViewOf(candidate), ViewOf(current).policies[b].profile)
  {
    hide Consistent, SlotTable, ProfileTable, PolicyTable, ValidView, ActiveBinding, FreshPublics, SlotAlgorithms,
      RotatedOnly, Projected, Unused, HistoryCovered, FreshKey, CrossReplaced, SameAt, Carries;
    var S, K := ViewOf(current), ViewOf(candidate);
    ActivePolicy(S, b);
    var p := S.policies[b].profile;
    ConsistentView(current);
    ConsistentView(candidate);
    RotationIsUnique(S, K, b, requested, ids, pairs);
    RekeyedIsUnused(S, K, p, requested, ids, pairs, current.number, older, own, latest);
    ProjectionIsProjected(S, current.number, older, own, latest);
    SamePoliciesOnly(S, K);
    ProjectionIsProjected(K, candidate.number, older + own, latest, []);
    assert older + own + latest == older + own + latest + [];
    assert forall f :: f in older + own + latest ==> f in older || f in own || f in latest;
  }

  lemma SamePoliciesOnly(S: View, K: View)
    requires OnePolicyPerProfile(S) && K.profiles == S.profiles && K.policies == S.policies
    ensures OnePolicyPerProfile(K)
  {
    forall p | p in K.profiles ensures HasOnlyPolicy(K, p) {
      assert HasOnlyPolicy(S, p);
      var b :| OnlyPolicy(S, p, b);
      assert OnlyPolicy(K, p, b);
    }
  }

  /** Committing a snapshot changes its state and nothing else. */
  function CommittedForm(g: Generation): Generation { g.(state := Committed) }

  lemma CommittedKeepsTable(g: Generation)
    requires Consistent(g)
    ensures Consistent(CommittedForm(g)) && ViewOf(CommittedForm(g)) == ViewOf(g)
  {
    hide ValidCredentials, ValidMaterials, ValidHandles, ValidPolicies, ValidProfiles;
    assert SlotTable(CommittedForm(g)) == SlotTable(g);
    assert ProfileTable(CommittedForm(g)) == ProfileTable(g);
    assert PolicyTable(CommittedForm(g)) == PolicyTable(g);
  }

  /** ... and, once committed, its retirement is planned for that binding, with disjoint selectors. */
  lemma PlannedRotationRetires(current: Generation, candidate: Generation, b: BindingKey, requested: set<Algorithm>,
                               ids: Identifiers, pairs: seq<Option<KeyPair>>, t: Rotated)
    requires Consistent(current) && Consistent(candidate)
    requires ActiveBinding(ViewOf(current), b) && ViewOf(current).policies[b].rollout == Enforce
    requires SlotAlgorithms(ViewOf(current), ViewOf(current).policies[b].profile) <= requested
    requires Rekeyed(ViewOf(current), ViewOf(candidate), map[ViewOf(current).policies[b].profile := requested], ids,
                     pairs)
    requires FreshPublics(ViewOf(current), pairs)
    ensures Consistent(CommittedForm(candidate))
    ensures RotatedOnly(ViewOf(current), ViewOf(CommittedForm(candidate)), ViewOf(current).policies[b].profile, b)
    ensures RotatedOnly(ViewOf(current), ViewOf(candidate), t.binding.profile, t.binding.key) &&
            Projects(ViewOf(current), t.binding.profile, t.retiring) &&
            Projects(ViewOf(candidate), t.binding.profile, t.active) ==>
      t.binding == LifecycleBinding(b, ViewOf(current).policies[b].profile) &&
      forall c, d :: c in t.retiring && d in t.active ==> c.selector != d.selector
  {
    hide Consistent, SlotTable, ProfileTable, PolicyTable, ValidView, FreshPublics, SlotAlgorithms, RotatedOnly,
      FreshKey, CrossReplaced, SameAt, Carries, Projects;
    var S, K := ViewOf(current), ViewOf(candidate);
    ConsistentView(current);
    RotationIsUnique(S, K, b, requested, ids, pairs);
    CommittedKeepsTable(candidate);
    if RotatedOnly(S, K, t.binding.profile, t.binding.key) && Projects(S, t.binding.profile, t.retiring) &&
       Projects(K, t.binding.profile, t.active)
    {
      RotatedUnique(S, K, S.policies[b].profile, b, t.binding.profile, t.binding.key);
      SelectorsDisjoint(S, K, t.binding.profile, t.retiring, t.active);
    }
  }

  // ---------------------------------------------------------------------------------------------
  // What the pairwise comparison does not see
  // ---------------------------------------------------------------------------------------------

  /** A candidate proved by the intent test never reuses a retiring selector, whatever produced it. */
  lemma IntentSeparatesSelectors(current: Generation, candidate: Generation, history: LineageHistory, p: Id,
                                 b: BindingKey, retiring: seq<LifecycleCredential>, active: seq<LifecycleCredential>)
    requires Consistent(current) && Consistent(candidate) && RotationIntent(current, candidate, history, p, b)
    requires Projects(ViewOf(current), p, retiring) && Projects(ViewOf(candidate), p, active)
    ensures forall c, d :: c in retiring && d in active ==> c.selector != d.selector
  {
    hide Consistent, SlotTable, ProfileTable, PolicyTable, ValidView, RotatedOnly, MatchedOnce;
    var S := ViewOf(current);
    forall c, d | c in retiring && d in active ensures c.selector != d.selector {
      var k := SlotKey(p, c.algorithm);
      assert MatchedOnce(S, current.number, history.facts, k);
      var i := MatchExists(S, current.number, history.facts, k);
      assert !Reuses(history.facts[i], SlotKey(p, d.algorithm), ViewOf(candidate).slots[SlotKey(p, d.algorithm)]);
    }
  }

  /** A two-key snapshot of one enforced binding. */
  function TwoKeys(n: Number, rsaSelector: DnsName, rsaHandle: Id, rsaKey: Spki, edSelector: DnsName, edHandle: Id,
                   edKey: Spki, name: Id, domain: DnsName): Generation
  {
    Generation(n, Committed, [Handle(n, rsaHandle), Handle(n, edHandle)], [Profile(n, name, domain, Active, None)],
      [Credential(n, name, rsaSelector, RsaSha256, rsaKey, rsaHandle),
      Credential(n, name, edSelector, Ed25519Sha256, edKey, edHandle)],
      [Policy(n, name, domain, Originator, name, Active, Enforce, Strict, None)],
      [KeyMaterial(n, name, domain, Originator, rsaHandle, RsaSha256, rsaKey, [7]),
      KeyMaterial(n, name, domain, Originator, edHandle, Ed25519Sha256, edKey, [8])])
  }

  lemma TwoKeysConsistent(n: Number, rsaSelector: DnsName, rsaHandle: Id, rsaKey: Spki, edSelector: DnsName,
                          edHandle: Id, edKey: Spki, name: Id, domain: DnsName)
    requires n > 0 && rsaSelector != edSelector && rsaHandle != edHandle && OwnerFits(domain, rsaSelector)
    requires OwnerFits(domain, edSelector)
    ensures Consistent(TwoKeys(n, rsaSelector, rsaHandle, rsaKey, edSelector, edHandle, edKey, name, domain))
  {
    hide OwnerFits, ValidCredentials, ValidPolicies, ValidMaterials;
    var g := TwoKeys(n, rsaSelector, rsaHandle, rsaKey, edSelector, edHandle, edKey, name, domain);
    assert ValidHandles(n, g.handles) && ValidProfiles(n, g.profiles);
    TwoCredentials(g, name);
    TwoPolicies(g, g.policies[0], g.profiles[0]);
    TwoMaterials(g, name);
  }

  ghost predicate TwoOfOne(g: Generation, name: Id)
  {
    && |g.handles| == |g.credentials| == |g.materials| == 2 && |g.profiles| == |g.policies| == 1
    && g.profiles[0].id == name && g.policies[0].profileId == name
    && forall i :: 0 <= i < 2 ==>
         && g.credentials[i].generation == g.number == g.materials[i].generation && g.credentials[i].profileId == name
         && g.credentials[i].handleId == g.handles[i].id == g.materials[i].handleId
         && g.credentials[i].algorithm == g.materials[i].algorithm
         && g.credentials[i].publicSpki == g.materials[i].publicSpki
         && MaterialBinding(g.materials[i]) == PolicyBinding(g.policies[0])
  }

  lemma TwoCredentials(g: Generation, name: Id)
    requires TwoOfOne(g, name) && Apart(g.credentials[0], g.credentials[1]) && Apart(g.credentials[1], g.credentials[0])
    requires OwnerFits(g.profiles[0].domain, g.credentials[0].selector)
    requires OwnerFits(g.profiles[0].domain, g.credentials[1].selector)
    ensures ValidCredentials(g.number, g.credentials, g.handles, g.profiles)
  {
    hide CredentialLinked, TwoOfOne;
    CredentialOfOne(g, name, 0);
    CredentialOfOne(g, name, 1);
    TwoElements(g.credentials);
  }

  lemma CredentialOfOne(g: Generation, name: Id, i: nat)
    requires TwoOfOne(g, name) && i < 2 && OwnerFits(g.profiles[0].domain, g.credentials[i].selector)
    ensures |g.credentials| == 2 && |g.profiles| == 1
    ensures CredentialLinked(g.credentials[i], g.number, g.handles, g.profiles)
    ensures Owned(g.profiles[0].id, g.credentials)
  {
    hide OwnerFits;
    assert g.handles[i] in g.handles && g.profiles[0] in g.profiles && g.credentials[i] in g.credentials;
  }

  lemma TwoPolicies(g: Generation, q: Policy, p: Profile)
    requires g.policies == [q] && g.profiles == [p] && q.generation == g.number && q.profileId == p.id
    requires q.domain == p.domain
    requires p.status == Active && q.status == Active
    ensures ValidPolicies(g.number, g.policies, g.profiles)
  {
    assert p in g.profiles;
    assert PolicyLinked(q, g.number, g.profiles);
  }

  lemma TwoMaterials(g: Generation, name: Id)
    requires TwoOfOne(g, name) && g.materials[0].handleId != g.materials[1].handleId
    ensures ValidMaterials(g.number, g.materials, g.credentials, g.policies, g.handles)
  {
    hide MaterialLinked, TwoOfOne, Keyed, Used, Unique;
    MaterialOfOne(g, name, 0);
    MaterialOfOne(g, name, 1);
    TwoElements(g.materials);
    TwoElements(g.credentials);
    TwoElements(g.handles);
  }

  lemma TwoElements<T>(s: seq<T>)
    requires |s| == 2
    ensures (forall x :: x in s <==> x == s[0] || x == s[1]) && (Unique(s) <==> s[0] != s[1])
  {}

  lemma MaterialOfOne(g: Generation, name: Id, i: nat)
    requires TwoOfOne(g, name) && i < 2
    ensures |g.handles| == |g.credentials| == |g.materials| == 2
    ensures MaterialLinked(g.materials[i], g.number, g.credentials, g.policies)
    ensures Keyed(g.credentials[i].handleId, g.materials) && Used(g.handles[i].id, g.credentials)
  {
    assert g.policies[0] in g.policies && g.credentials[i] in g.credentials && g.materials[i] in g.materials;
  }

  lemma TwoKeysTable(n: Number, rsaSelector: DnsName, rsaHandle: Id, rsaKey: Spki, edSelector: DnsName, edHandle: Id,
                     edKey: Spki, name: Id, domain: DnsName)
    requires n > 0 && rsaSelector != edSelector && rsaHandle != edHandle && OwnerFits(domain, rsaSelector)
    requires OwnerFits(domain, edSelector)
    ensures var g := TwoKeys(n, rsaSelector, rsaHandle, rsaKey, edSelector, edHandle, edKey, name, domain);
      var b := BindingKey(name, domain, Originator);
      && Consistent(g)
      && SlotTable(g) ==
         map[SlotKey(name, RsaSha256) := Slot(rsaSelector, rsaHandle, rsaKey, b, [7]),
             SlotKey(name, Ed25519Sha256) := Slot(edSelector, edHandle, edKey, b, [8])]
      && ProfileTable(g) == map[name := ProfileFacts(domain, Active, None)]
      && PolicyTable(g) == map[b := PolicyFacts(name, Active, Enforce, Strict, None)]
  {
    hide Consistent, SlotTable, ProfileTable, PolicyTable, OwnerFits;
    TwoKeysConsistent(n, rsaSelector, rsaHandle, rsaKey, edSelector, edHandle, edKey, name, domain);
    var g := TwoKeys(n, rsaSelector, rsaHandle, rsaKey, edSelector, edHandle, edKey, name, domain);
    var b := BindingKey(name, domain, Originator);
    var slots := map[SlotKey(name, RsaSha256) := Slot(rsaSelector, rsaHandle, rsaKey, b, [7]),
                     SlotKey(name, Ed25519Sha256) := Slot(edSelector, edHandle, edKey, b, [8])];
    assert g.materials[0] in g.materials && g.materials[1] in g.materials;
    assert g.credentials[0] in g.credentials && g.credentials[1] in g.credentials;
    assert SlotWitnessed(g, slots, g.credentials[0]) && SlotWitnessed(g, slots, g.credentials[1]);
    assert SlotFilled(g, SlotKey(name, RsaSha256)) && SlotFilled(g, SlotKey(name, Ed25519Sha256));
    SlotTableIs(g, slots);
    assert g.profiles[0] in g.profiles && g.policies[0] in g.policies;
    ProfileTableIs(g, map[name := ProfileFacts(domain, Active, None)]);
    PolicyTableIs(g, map[b := PolicyFacts(name, Active, Enforce, Strict, None)]);
  }

  /** Two committed neighbours with their private keys whose rotation swapped the selectors of two algorithms:
      retirement accepts them, and a selector it would retire is still active. */
  lemma SwappedSelectorsRetire() returns (P: Generation, K: Generation, p: Id, b: BindingKey)
    ensures Consistent(P) && Consistent(K) && P.state == Committed && K.state == Committed && K.number == P.number + 1
    ensures RotatedOnly(ViewOf(P), ViewOf(K), p, b)
    ensures SlotKey(p, RsaSha256) in ViewOf(P).slots && SlotKey(p, Ed25519Sha256) in ViewOf(K).slots
    ensures ViewOf(P).slots[SlotKey(p, RsaSha256)].selector == ViewOf(K).slots[SlotKey(p, Ed25519Sha256)].selector
    ensures forall m :: m in P.materials ==> m.privatePkcs8 != []
    ensures forall m :: m in K.materials ==> m.privatePkcs8 != []
  {
    hide Consistent, SlotTable, ProfileTable, PolicyTable, RotatedOnly, OwnerFits;
    var x: DnsName, y: DnsName, d: DnsName := "x", "y", "d";
    p := "p";
    assert [1][0] != [3][0] && [2][0] != [4][0];
    assert "h"[0] != "i"[0] && "h"[0] != "j"[0] && "i"[0] != "k"[0] && "j"[0] != "k"[0] && x[0] != y[0];
    assert OwnerFits(d, x) && OwnerFits(d, y) by { ShortNames(x, y, d); }
    P, K, b := SwapRotates(x, y, d, p, "h", "i", "j", "k", [1], [2], [3], [4]);
  }

  lemma ShortNames(x: DnsName, y: DnsName, d: DnsName)
    requires x == "x" && y == "y" && d == "d"
    ensures OwnerFits(d, x) && OwnerFits(d, y)
  {
    SplitWhole(x, '.');
    SplitWhole(y, '.');
    SplitWhole(d, '.');
  }

  lemma SwapRotates(x: DnsName, y: DnsName, d: DnsName, p: Id, h: Id, i: Id, j: Id, k: Id, r: Spki, e: Spki, r': Spki,
                    e': Spki)
      returns (P: Generation, K: Generation, b: BindingKey)
    requires x != y && h != i && h != j && i != k && j != k && r != r' && e != e' && OwnerFits(d, x) && OwnerFits(d, y)
    ensures Consistent(P) && Consistent(K) && P.state == Committed && K.state == Committed && K.number == P.number + 1
    ensures RotatedOnly(ViewOf(P), ViewOf(K), p, b)
    ensures SlotKey(p, RsaSha256) in ViewOf(P).slots && SlotKey(p, Ed25519Sha256) in ViewOf(K).slots
    ensures ViewOf(P).slots[SlotKey(p, RsaSha256)].selector == ViewOf(K).slots[SlotKey(p, Ed25519Sha256)].selector
    ensures forall m :: m in P.materials ==> m.privatePkcs8 != []
    ensures forall m :: m in K.materials ==> m.privatePkcs8 != []
  {
    hide Consistent, SlotTable, ProfileTable, PolicyTable, OwnerFits;
    b := BindingKey(p, d, Originator);
    P := TwoKeys(1, x, h, r, y, i, e, p, d);
    K := TwoKeys(2, y, j, r', x, k, e', p, d);
    TwoKeysTable(1, x, h, r, y, i, e, p, d);
    TwoKeysTable(2, y, j, r', x, k, e', p, d);
    assert OnlyPolicy(ViewOf(P), p, b);
    assert RenewedAt(ViewOf(P), ViewOf(K), p);
  }
}

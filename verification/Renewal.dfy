/** What a rotation does to the age of bindings: new keys are as old as their record, all others keep their date. */
module Renewal {
  import opened Wrappers
  import opened Text
  import opened Order
  import opened Records
  import opened Generations
  import opened Snapshots
  import opened Bindings
  import opened Lifecycle
  import opened Lineage
  import opened Campaign
  import opened Eligibility
  import opened Rotation
  import opened Planners
  import opened Agreement

  /** One record per key of generation `n`, all dated `t`, on top of a history that is older in number and date. */
  ghost predicate RecordedOn(older: seq<LineageFact>, K: View, n: Number, recorded: seq<LineageFact>, t: Moment)
  {
    && (forall f :: f in older ==> f.generation < n && f.created <= t)
    && ProjectionOf(K, n, recorded) && forall f :: f in recorded ==> f.created == t
  }

  /** The identifier lookup knows every selector of the history. */
  predicate SelectorsKnown(facts: seq<LineageFact>, ids: Identifiers)
  {
    forall f :: f in facts ==> f.selector in ids.selectors
  }

  /** Some binding of the campaign. */
  ghost predicate Renewed(S: View, targets: map<Id, set<Algorithm>>, b: BindingKey)
  {
    ActiveBinding(S, b) && S.policies[b].profile in targets
  }

  // ---------------------------------------------------------------------------------------------
  // Renewed keys
  // ---------------------------------------------------------------------------------------------

  lemma OlderIsOther(S: View, K: View, targets: map<Id, set<Algorithm>>, ids: Identifiers,
                     pairs: seq<Option<KeyPair>>, older: seq<LineageFact>, b: BindingKey, a: Algorithm, f: LineageFact)
    requires Rekeyed(S, K, targets, ids, pairs) && Renewed(S, targets, b) && SelectorsKnown(older, ids) && f in older
    ensures !RecordedAs(K, f, b, a)
  {
    hide SameAt, Carries, FreshSlot;
  }

  /** The slot of an exclusive binding belongs to it. */
  lemma OwnBinding(K: View, b: BindingKey, k: SlotKey)
    requires ValidView(K) && b in K.policies && OnlyPolicy(K, K.policies[b].profile, b)
    requires k in K.slots && k.profile == K.policies[b].profile
    ensures K.slots[k].binding == b
  {
    hide PolicyFits, HasSlot;
    assert SlotLinked(K, k);
  }

  lemma RecordMatches(K: View, n: Number, recorded: seq<LineageFact>, b: BindingKey, a: Algorithm) returns (i: nat)
    requires ValidView(K) && ProjectionOf(K, n, recorded) && b in K.policies
    requires OnlyPolicy(K, K.policies[b].profile, b) && SlotKey(K.policies[b].profile, a) in K.slots
    ensures i < |recorded| && RecordedAs(K, recorded[i], b, a)
  {
    hide ValidView, ProjectionOf, OnlyPolicy;
    var k := SlotKey(K.policies[b].profile, a);
    i := ProjectionRecords(K, n, recorded, k);
    OwnBinding(K, b, k);
  }

  /** No two records of one generation match the same key. */
  lemma RecordsOnce(K: View, n: Number, recorded: seq<LineageFact>, b: BindingKey, k: SlotKey, i: nat, j: nat)
    requires ValidView(K) && ProjectionOf(K, n, recorded) && k in K.slots && i < |recorded| && j < |recorded|
    requires KeyFact(recorded[i], b, k, K.slots[k]) && KeyFact(recorded[j], b, k, K.slots[k])
    ensures i == j
  {
    hide ProjectionOf, SlotLinked, HasSlot, PolicyFits;
    var x := ProjectionKey(K, n, recorded, i);
    var y := ProjectionKey(K, n, recorded, j);
    assert x == k && y == k;
    hide ValidView;
    ProjectionOnce(K, n, recorded, k, i, j);
  }

  /** A position in the longer history lies in the older part or among the records. */
  lemma Located(older: seq<LineageFact>, recorded: seq<LineageFact>, i: nat)
    requires i < |older + recorded|
    ensures i < |older| ==> (older + recorded)[i] == older[i] && older[i] in older
    ensures i >= |older| ==>
      (older + recorded)[i] == recorded[i - |older|] && recorded[i - |older|] in recorded
  {}

  lemma RecordedDates(older: seq<LineageFact>, K: View, n: Number, recorded: seq<LineageFact>, t: Moment)
    requires RecordedOn(older, K, n, recorded, t)
    ensures ProjectionOf(K, n, recorded)
    ensures forall f :: f in older ==> f.generation < n && f.created <= t
    ensures forall f :: f in recorded ==> f.generation == n && f.created == t
  {
    hide Recorded;
  }

  /** Renewed keys have no older record, and exactly the date of the new one. */
  lemma RenewedBorn(S: View, K: View, targets: map<Id, set<Algorithm>>, ids: Identifiers, pairs: seq<Option<KeyPair>>,
                    older: seq<LineageFact>, n: Number, recorded: seq<LineageFact>, t: Moment, b: BindingKey)
    requires Rekeyed(S, K, targets, ids, pairs) && ValidView(K) && Renewed(S, targets, b)
    requires SelectorsKnown(older, ids) && RecordedOn(older, K, n, recorded, t)
    ensures forall u :: Since(K, older + recorded, b, u) <==> u == t
  {
    hide Rekeyed, SelectorsKnown, RecordedOn, ProjectionOf, RecordedAs, ValidView;
    var facts := older + recorded;
    RecordedDates(older, K, n, recorded, t);
    RenewedPolicy(S, K, targets, ids, pairs, b);
    var c := FirstKey(K, b);
    var i := RecordMatches(K, n, recorded, b, c);
    Located(older, recorded, |older| + i);
    assert BornAt(K, facts, b, t);
    forall u | BornAt(K, facts, b, u) ensures u == t {
      var a: Algorithm, j :| 0 <= j < |facts| && RecordedAs(K, facts[j], b, a) && facts[j].created == u;
      Located(older, recorded, j);
      if j < |older| { OlderIsOther(S, K, targets, ids, pairs, older, b, a, facts[j]); }
    }
  }

  lemma RenewedPolicy(S: View, K: View, targets: map<Id, set<Algorithm>>, ids: Identifiers,
                      pairs: seq<Option<KeyPair>>, b: BindingKey)
    requires Rekeyed(S, K, targets, ids, pairs) && Renewed(S, targets, b)
    ensures K.policies == S.policies && K.profiles == S.profiles && b in K.policies && ActiveBinding(K, b)
    ensures OnlyPolicy(K, K.policies[b].profile, b) && K.policies[b].profile in K.profiles
  {
    hide SameAt, Carries, FreshKey;
  }

  lemma FirstKey(K: View, b: BindingKey) returns (a: Algorithm)
    requires ValidView(K) && b in K.policies && K.policies[b].profile in K.profiles
    ensures SlotKey(K.policies[b].profile, a) in K.slots
  {
    hide SlotLinked, PolicyFits;
    assert HasSlot(K, K.policies[b].profile);
    a :| SlotKey(K.policies[b].profile, a) in K.slots;
  }

  /** The lineage of a renewed binding is sound exactly when its record is not dated beyond the horizon. */
  lemma RenewedLineage(S: View, K: View, targets: map<Id, set<Algorithm>>, ids: Identifiers,
                       pairs: seq<Option<KeyPair>>, older: seq<LineageFact>, n: Number, recorded: seq<LineageFact>,
                       t: Moment, b: BindingKey, horizon: int)
    requires Rekeyed(S, K, targets, ids, pairs) && ValidView(K) && Renewed(S, targets, b)
    requires SelectorsKnown(older, ids) && RecordedOn(older, K, n, recorded, t)
    ensures LineageComplete(K, older + recorded, b, horizon) <==> t <= horizon
  {
    hide Rekeyed, SelectorsKnown, RecordedOn, ProjectionOf, ValidView, KeyFact;
    var facts := older + recorded;
    RecordedDates(older, K, n, recorded, t);
    RenewedPolicy(S, K, targets, ids, pairs, b);
    var c := FirstKey(K, b);
    var i := RecordMatches(K, n, recorded, b, c);
    Located(older, recorded, |older| + i);
    assert KeySound(K, facts, b, c, horizon) ==> t <= horizon;
    if t <= horizon {
      forall a: Algorithm ensures KeySound(K, facts, b, a, horizon) {
        RenewedKeySound(S, K, targets, ids, pairs, older, n, recorded, t, b, a, horizon);
      }
    }
  }

  lemma RenewedKeySound(S: View, K: View, targets: map<Id, set<Algorithm>>, ids: Identifiers,
                        pairs: seq<Option<KeyPair>>, older: seq<LineageFact>, n: Number, recorded: seq<LineageFact>,
                        t: Moment, b: BindingKey, a: Algorithm, horizon: int)
    requires Rekeyed(S, K, targets, ids, pairs) && ValidView(K) && Renewed(S, targets, b)
    requires SelectorsKnown(older, ids) && RecordedOn(older, K, n, recorded, t) && t <= horizon
    ensures b in K.policies && KeySound(K, older + recorded, b, a, horizon)
  {
    hide Rekeyed, SelectorsKnown, RecordedOn, ProjectionOf, ValidView, KeyFact;
    var facts := older + recorded;
    RecordedDates(older, K, n, recorded, t);
    RenewedPolicy(S, K, targets, ids, pairs, b);
    var k := SlotKey(K.policies[b].profile, a);
    if k in K.slots {
      var i := RecordMatches(K, n, recorded, b, a);
      Located(older, recorded, |older| + i);
      forall j | 0 <= j < |facts| && KeyFact(facts[j], b, k, K.slots[k]) ensures j >= |older| && facts[j].created == t {
        Located(older, recorded, j);
        if j < |older| { OlderIsOther(S, K, targets, ids, pairs, older, b, a, facts[j]); }
      }
      forall x, y | 0 <= x < |facts| && 0 <= y < |facts| && KeyFact(facts[x], b, k, K.slots[k]) &&
          KeyFact(facts[y], b, k, K.slots[k])
        ensures x == y
      {
        Located(older, recorded, x);
        Located(older, recorded, y);
        RecordsOnce(K, n, recorded, b, k, x - |older|, y - |older|);
      }
    }
  }

  // ---------------------------------------------------------------------------------------------
  // Untouched keys
  // ---------------------------------------------------------------------------------------------

  /** A binding whose profile the campaign leaves alone. */
  ghost predicate Untouched(S: View, targets: map<Id, set<Algorithm>>, b: BindingKey)
  {
    b in S.policies && S.policies[b].profile in S.profiles && S.policies[b].profile !in targets
  }

  lemma SameKeys(S: View, K: View, targets: map<Id, set<Algorithm>>, ids: Identifiers, pairs: seq<Option<KeyPair>>,
                 b: BindingKey, a: Algorithm)
    requires Rekeyed(S, K, targets, ids, pairs) && Untouched(S, targets, b)
    ensures b in K.policies && K.policies[b].profile == S.policies[b].profile
    ensures var k := SlotKey(S.policies[b].profile, a);
      (k in K.slots <==> k in S.slots) && (k in S.slots ==> K.slots[k] == S.slots[k])
  {
    hide Carries, FreshKey;
    assert SameAt(S, K, S.policies[b].profile);
  }

  /** A new record is never older than the date a binding had, so the date stays. */
  lemma KeptBorn(S: View, K: View, targets: map<Id, set<Algorithm>>, ids: Identifiers, pairs: seq<Option<KeyPair>>,
                 older: seq<LineageFact>, n: Number, recorded: seq<LineageFact>, t: Moment, b: BindingKey, u: int)
    requires Rekeyed(S, K, targets, ids, pairs) && Untouched(S, targets, b)
    requires RecordedOn(older, K, n, recorded, t) && Since(S, older, b, u)
    ensures Since(K, older + recorded, b, u)
  {
    hide Rekeyed, RecordedOn, KeyFact;
    var facts := older + recorded;
    RecordedDates(older, K, n, recorded, t);
    var c: Algorithm, i :| 0 <= i < |older| && RecordedAs(S, older[i], b, c) && older[i].created == u;
    SameKeys(S, K, targets, ids, pairs, b, c);
    Located(older, recorded, i);
    assert RecordedAs(K, facts[i], b, c);
    forall w | BornAt(K, facts, b, w) ensures u <= w {
      var a: Algorithm, j :| 0 <= j < |facts| && RecordedAs(K, facts[j], b, a) && facts[j].created == w;
      SameKeys(S, K, targets, ids, pairs, b, a);
      Located(older, recorded, j);
      if j < |older| { assert RecordedAs(S, older[j], b, a) && BornAt(S, older, b, w); }
    }
  }

  lemma KeptLineage(S: View, K: View, targets: map<Id, set<Algorithm>>, ids: Identifiers, pairs: seq<Option<KeyPair>>,
                    older: seq<LineageFact>, n: Number, recorded: seq<LineageFact>, t: Moment, b: BindingKey,
                    horizon: int)
    requires Rekeyed(S, K, targets, ids, pairs) && ValidView(K) && Untouched(S, targets, b)
    requires RecordedOn(older, K, n, recorded, t) && t <= horizon && LineageComplete(S, older, b, horizon)
    ensures LineageComplete(K, older + recorded, b, horizon)
  {
    hide Rekeyed, RecordedOn, KeyFact, ValidView, ProjectionOf;
    var facts := older + recorded;
    RecordedDates(older, K, n, recorded, t);
    SameKeys(S, K, targets, ids, pairs, b, RsaSha256);
    forall a: Algorithm ensures KeySound(K, facts, b, a, horizon) {
      SameKeys(S, K, targets, ids, pairs, b, a);
      assert KeySound(S, older, b, a, horizon);
      var k := SlotKey(K.policies[b].profile, a);
      if k in K.slots { KeptKeySound(K, older, n, recorded, t, b, k, horizon); }
    }
  }

  lemma KeptKeySound(K: View, older: seq<LineageFact>, n: Number, recorded: seq<LineageFact>, t: Moment,
                     b: BindingKey, k: SlotKey, horizon: int)
    requires ValidView(K) && RecordedOn(older, K, n, recorded, t) && t <= horizon && k in K.slots
    requires LineageSound(older, b, k, K.slots[k], horizon)
    ensures LineageSound(older + recorded, b, k, K.slots[k], horizon)
  {
    hide RecordedOn, KeyFact, ValidView, ProjectionOf;
    var facts, s := older + recorded, K.slots[k];
    RecordedDates(older, K, n, recorded, t);
    var i :| 0 <= i < |older| && KeyFact(older[i], b, k, s);
    Located(older, recorded, i);
    assert KeyFact(facts[i], b, k, s);
    forall j | 0 <= j < |facts| && KeyFact(facts[j], b, k, s) ensures facts[j].created <= horizon {
      Located(older, recorded, j);
    }
    forall x, y | 0 <= x < y < |facts| && KeyFact(facts[x], b, k, s) && KeyFact(facts[y], b, k, s)
      ensures facts[x].generation != facts[y].generation
    {
      Located(older, recorded, x);
      Located(older, recorded, y);
      if x >= |older| { RecordsOnce(K, n, recorded, b, k, x - |older|, y - |older|); }
    }
  }

  // ---------------------------------------------------------------------------------------------
  // The successor of a campaign
  // ---------------------------------------------------------------------------------------------

  /** The earliest date among the first `n` facts, if one of them records a key of the binding. */
  lemma {:induction false} EarliestBirth(v: View, facts: seq<LineageFact>, b: BindingKey, n: nat)
      returns (u: Option<int>)
    requires n <= |facts| && b in v.policies
    ensures u.None? ==> forall a: Algorithm, i :: 0 <= i < n ==> !RecordedAs(v, facts[i], b, a)
    ensures u.Some? ==> BornAt(v, facts, b, u.value)
    ensures u.Some? ==>
      forall a: Algorithm, i :: 0 <= i < n && RecordedAs(v, facts[i], b, a) ==> u.value <= facts[i].created
  {
    hide RecordedAs;
    u := None;
    if n > 0 {
      u := EarliestBirth(v, facts, b, n - 1);
      var f := facts[n - 1];
      if (exists a: Algorithm :: RecordedAs(v, f, b, a)) && (u.None? || f.created < u.value) { u := Some(f.created); }
    }
  }

  /** A binding with a sound lineage has a date. */
  lemma DateExists(v: View, facts: seq<LineageFact>, b: BindingKey, horizon: int) returns (u: int)
    requires ValidView(v) && b in v.policies && v.policies[b].profile in v.profiles
    requires LineageComplete(v, facts, b, horizon)
    ensures Since(v, facts, b, u)
  {
    hide KeyFact, ValidView;
    var c := FirstKey(v, b);
    assert KeySound(v, facts, b, c, horizon);
    var k := SlotKey(v.policies[b].profile, c);
    var i :| 0 <= i < |facts| && KeyFact(facts[i], b, k, v.slots[k]);
    assert RecordedAs(v, facts[i], b, c);
    var found := EarliestBirth(v, facts, b, |facts|);
    u := found.value;
  }

  lemma ActiveProfiles(S: View, b: BindingKey)
    requires ValidView(S) && b in ActiveSet(S)
    ensures b in S.policies && S.policies[b].profile in S.profiles
  {
    hide SlotLinked, HasSlot;
    assert PolicyFits(S, b);
  }

  /** Every active binding is renewed or untouched. */
  lemma RenewedOrUntouched(S: View, bindings: seq<BindingKey>, wanted: Option<set<Algorithm>>,
                           targets: map<Id, set<Algorithm>>, b: BindingKey)
    requires ValidView(S) && Aims(S, bindings, wanted, targets) && b in ActiveSet(S)
    ensures b in bindings ==> Renewed(S, targets, b)
    ensures b !in bindings ==> Untouched(S, targets, b)
  {
    hide ValidView;
    ActiveProfiles(S, b);
  }

  lemma BindingsActive(S: View, bindings: seq<BindingKey>, wanted: Option<set<Algorithm>>,
                       targets: map<Id, set<Algorithm>>)
    requires Aims(S, bindings, wanted, targets)
    ensures forall b :: b in bindings ==> b in ActiveSet(S)
  {}

  lemma SameActive(S: View, K: View, targets: map<Id, set<Algorithm>>, ids: Identifiers, pairs: seq<Option<KeyPair>>)
    requires Rekeyed(S, K, targets, ids, pairs)
    ensures ActiveSet(K) == ActiveSet(S)
  {
    hide SameAt, Carries, FreshKey;
  }

  /** The date of an active binding after the campaign: that of the records where it was renewed, its own elsewhere. */
  lemma DateAfter(S: View, K: View, bindings: seq<BindingKey>, wanted: Option<set<Algorithm>>,
                  targets: map<Id, set<Algorithm>>, ids: Identifiers, pairs: seq<Option<KeyPair>>,
                  older: seq<LineageFact>, n: Number, recorded: seq<LineageFact>, t: Moment, horizon: int,
                  b: BindingKey, u: int)
    requires ValidView(S) && ValidView(K) && Aims(S, bindings, wanted, targets) && Rekeyed(S, K, targets, ids, pairs)
    requires SelectorsKnown(older, ids) && RecordedOn(older, K, n, recorded, t) && ActiveLineages(S, older, horizon)
    requires b in ActiveSet(S)
    ensures Since(K, older + recorded, b, u) <==> if b in bindings then u == t else Since(S, older, b, u)
  {
    hide Aims, Rekeyed, SelectorsKnown, RecordedOn, ValidView, LineageComplete, ActiveSet, BornAt;
    RenewedOrUntouched(S, bindings, wanted, targets, b);
    if b in bindings {
      RenewedBorn(S, K, targets, ids, pairs, older, n, recorded, t, b);
    } else {
      ActiveProfiles(S, b);
      var w := DateExists(S, older, b, horizon);
      KeptBorn(S, K, targets, ids, pairs, older, n, recorded, t, b, w);
    }
  }

  /** Eligibility on the recorded successor: a renewed binding is due exactly from the rotation age of its records on,
      under their date; every other binding is due exactly as on the predecessor, under the same date. */
  lemma RotationResetsAge(current: Generation, candidate: Generation, bindings: seq<BindingKey>,
                          wanted: Option<set<Algorithm>>, ids: Identifiers, pairs: seq<Option<KeyPair>>,
                          older: seq<LineageFact>, recorded: seq<LineageFact>, t: Moment, horizon: int, now: int,
                          rotateAfter: int, before: seq<EligibilityDecision>, after: seq<EligibilityDecision>)
    requires Consistent(current) && CampaignCandidate(current, candidate, bindings, wanted, ids, pairs)
    requires SelectorsKnown(older, ids)
    requires RecordedOn(older, ViewOf(candidate), candidate.number, recorded, t)
    requires ActiveLineages(ViewOf(current), older, horizon)
    requires Decisions(ViewOf(current), older, now, rotateAfter, before)
    requires Decisions(ViewOf(candidate), older + recorded, now, rotateAfter, after)
    ensures forall b :: b in bindings ==> (Decided(after, b) <==> t + rotateAfter <= now)
    ensures forall d :: d in after && d.binding in bindings ==> d.since == t
    ensures forall d: EligibilityDecision :: d.binding !in bindings ==> (d in after <==> d in before)
  {
    hide Consistent, Canonical, SlotTable, ProfileTable, PolicyTable, Aims, Rekeyed, SelectorsKnown, RecordedOn,
      ActiveSet, ActiveLineages, Since, Due, Strictly;
    var S, K := ViewOf(current), ViewOf(candidate);
    ConsistentView(current);
    ConsistentView(candidate);
    hide ValidView;
    var targets :| Aims(S, bindings, wanted, targets) && Rekeyed(S, K, targets, ids, pairs);
    BindingsActive(S, bindings, wanted, targets);
    SameActive(S, K, targets, ids, pairs);
    var facts := older + recorded;
    forall b | b in bindings ensures Decided(after, b) <==> t + rotateAfter <= now {
      DateAfter(S, K, bindings, wanted, targets, ids, pairs, older, candidate.number, recorded, t, horizon, b, t);
      SinceDecides(K, facts, b, t, now, rotateAfter);
      assert Decided(after, b) <==> b in DueSet(K, facts, now, rotateAfter);
    }
    forall d | d in after && d.binding in bindings ensures d.since == t {
      DateAfter(S, K, bindings, wanted, targets, ids, pairs, older, candidate.number, recorded, t, horizon, d.binding,
                d.since);
    }
    forall d: EligibilityDecision | d.binding !in bindings ensures d in after <==> d in before {
      if d.binding in ActiveSet(S) {
        DateAfter(S, K, bindings, wanted, targets, ids, pairs, older, candidate.number, recorded, t, horizon,
                  d.binding, d.since);
        if Since(S, older, d.binding, d.since) {
          SinceDecides(S, older, d.binding, d.since, now, rotateAfter);
          SinceDecides(K, facts, d.binding, d.since, now, rotateAfter);
        }
      }
    }
  }

  /** The lineage of the successor is sound exactly when its records are not dated beyond the horizon. */
  lemma SuccessorLineage(current: Generation, candidate: Generation, bindings: seq<BindingKey>,
                         wanted: Option<set<Algorithm>>, ids: Identifiers, pairs: seq<Option<KeyPair>>,
                         older: seq<LineageFact>, recorded: seq<LineageFact>, t: Moment, horizon: int)
    requires Consistent(current) && CampaignCandidate(current, candidate, bindings, wanted, ids, pairs)
    requires bindings != [] && SelectorsKnown(older, ids)
    requires RecordedOn(older, ViewOf(candidate), candidate.number, recorded, t)
    requires ActiveLineages(ViewOf(current), older, horizon)
    ensures ActiveLineages(ViewOf(candidate), older + recorded, horizon) <==> t <= horizon
  {
    hide Consistent, Canonical, SlotTable, ProfileTable, PolicyTable, Aims, Rekeyed, SelectorsKnown, RecordedOn,
      ActiveSet, LineageComplete;
    var S, K := ViewOf(current), ViewOf(candidate);
    ConsistentView(current);
    ConsistentView(candidate);
    hide ValidView;
    var targets :| Aims(S, bindings, wanted, targets) && Rekeyed(S, K, targets, ids, pairs);
    BindingsActive(S, bindings, wanted, targets);
    SameActive(S, K, targets, ids, pairs);
    var n := candidate.number;
    assert bindings[0] in bindings;
    RenewedOrUntouched(S, bindings, wanted, targets, bindings[0]);
    RenewedLineage(S, K, targets, ids, pairs, older, n, recorded, t, bindings[0], horizon);
    if t <= horizon {
      forall b | b in ActiveSet(K) ensures LineageComplete(K, older + recorded, b, horizon) {
        RenewedOrUntouched(S, bindings, wanted, targets, b);
        if b in bindings {
          RenewedLineage(S, K, targets, ids, pairs, older, n, recorded, t, b, horizon);
        } else {
          KeptLineage(S, K, targets, ids, pairs, older, n, recorded, t, b, horizon);
        }
      }
    }
  }

  /** A successor recorded twice has no sound lineage. */
  lemma TwiceRecordedIsRejected(S: View, K: View, bindings: seq<BindingKey>, wanted: Option<set<Algorithm>>,
                                targets: map<Id, set<Algorithm>>, ids: Identifiers, pairs: seq<Option<KeyPair>>,
                                older: seq<LineageFact>, n: Number, recorded: seq<LineageFact>, horizon: int)
    requires ValidView(K) && bindings != [] && Aims(S, bindings, wanted, targets) && Rekeyed(S, K, targets, ids, pairs)
    requires ProjectionOf(K, n, recorded)
    ensures !ActiveLineages(K, older + recorded + recorded, horizon)
  {
    hide ValidView, Rekeyed, ProjectionOf, KeyFact, ActiveBinding, Aims;
    var b := bindings[0];
    assert Renewed(S, targets, b) by { FirstIsRenewed(S, bindings, wanted, targets); }
    RenewedPolicy(S, K, targets, ids, pairs, b);
    var a := FirstKey(K, b);
    var i := RecordMatches(K, n, recorded, b, a);
    var facts := older + recorded + recorded;
    var k := SlotKey(K.policies[b].profile, a);
    assert facts[|older| + i] == recorded[i] && facts[|older| + |recorded| + i] == recorded[i];
    assert KeyFact(facts[|older| + i], b, k, K.slots[k]);
    assert !KeySound(K, facts, b, a, horizon);
    assert b in ActiveSet(K) by { RenewedIsActive(K, b); }
  }

  lemma FirstIsRenewed(S: View, bindings: seq<BindingKey>, wanted: Option<set<Algorithm>>,
                       targets: map<Id, set<Algorithm>>)
    requires bindings != [] && Aims(S, bindings, wanted, targets)
    ensures Renewed(S, targets, bindings[0])
  {
    hide SlotAlgorithms;
    assert bindings[0] in bindings;
  }

  lemma RenewedIsActive(K: View, b: BindingKey)
    requires ActiveBinding(K, b)
    ensures b in ActiveSet(K)
  {}

  /** Right after a global rotation nothing is due. */
  lemma GlobalRotationLeavesNothingDue(current: Generation, candidate: Generation,
                                       decisions: seq<EligibilityDecision>, ids: Identifiers,
                                       pairs: seq<Option<KeyPair>>, older: seq<LineageFact>,
                                       recorded: seq<LineageFact>, t: Moment, horizon: int, now: int,
                                       rotateAfter: int, after: seq<EligibilityDecision>)
    requires Consistent(current)
    requires CampaignCandidate(current, candidate, DecisionBindings(decisions), None, ids, pairs)
    requires SelectorsKnown(older, ids)
    requires RecordedOn(older, ViewOf(candidate), candidate.number, recorded, t)
    requires ActiveLineages(ViewOf(current), older, horizon)
    requires Decisions(ViewOf(current), older, now, rotateAfter, decisions) && now < t + rotateAfter
    requires Decisions(ViewOf(candidate), older + recorded, now, rotateAfter, after)
    ensures after == []
  {
    hide Consistent, CampaignCandidate, SelectorsKnown, RecordedOn, ActiveLineages, Decisions;
    RotationResetsAge(current, candidate, DecisionBindings(decisions), None, ids, pairs, older, recorded, t, horizon,
                      now, rotateAfter, decisions, after);
    forall d | d in decisions ensures d.binding in DecisionBindings(decisions) {
      var i :| 0 <= i < |decisions| && decisions[i] == d;
      assert DecisionBindings(decisions)[i] == d.binding;
    }
    assert forall d :: d in after ==> Decided(after, d.binding);
    NoMembers(after);
  }

  lemma NoMembers(s: seq<EligibilityDecision>)
    ensures (forall d :: d !in s) ==> s == []
  {
    assert s != [] ==> s[0] in s;
  }

  /** The candidate of a single rotation is a campaign of one binding. */
  lemma SingleIsCampaign(current: Generation, candidate: Generation, b: BindingKey, requested: set<Algorithm>,
                         ids: Identifiers, pairs: seq<Option<KeyPair>>)
    requires Consistent(current) && Valid(candidate) && candidate.number == current.number + 1
    requires candidate.state == Staging && ActiveBinding(ViewOf(current), b)
    requires Rekeyed(ViewOf(current), ViewOf(candidate), map[ViewOf(current).policies[b].profile := requested], ids,
                     pairs)
    requires IndependentKeys(ViewOf(candidate), {ViewOf(current).policies[b].profile}, pairs)
    ensures CampaignCandidate(current, candidate, [b], Some(requested), ids, pairs)
  {
    hide Consistent, Canonical, SlotTable, ProfileTable, PolicyTable, Rekeyed, ActiveBinding, IndependentKeys;
    var S := ViewOf(current);
    ActivePolicy(S, b);
    var targets := map[S.policies[b].profile := requested];
    assert b in [b];
    assert Aims(S, [b], Some(requested), targets);
    AimsAt(S, [b], Some(requested), targets);
    assert targets.Keys == {S.policies[b].profile};
  }

  // ---------------------------------------------------------------------------------------------
  // Records that do not count
  // ---------------------------------------------------------------------------------------------

  /** The fact differs from every key of an active binding in binding, selector, algorithm, handle or public key. */
  ghost predicate Foreign(v: View, f: LineageFact)
  {
    forall b, a: Algorithm {:trigger SlotKey(v.policies[b].profile, a)} ::
      b in ActiveSet(v) && SlotKey(v.policies[b].profile, a) in v.slots ==>
        var s := v.slots[SlotKey(v.policies[b].profile, a)];
        || FactBinding(f) != b || f.selector != s.selector || f.algorithm != a || f.handle != s.handle
        || f.publicSpki != s.publicSpki
  }

  lemma ForeignIsUnmatched(v: View, f: LineageFact, b: BindingKey, a: Algorithm)
    requires Foreign(v, f) && b in ActiveSet(v)
    ensures b in v.policies && !RecordedAs(v, f, b, a)
  {}

  /** Such a fact changes neither which lineages are sound nor any date. */
  lemma ForeignRecordsIgnored(v: View, facts: seq<LineageFact>, f: LineageFact, horizon: int, now: int,
                              rotateAfter: int, list: seq<EligibilityDecision>)
    requires Foreign(v, f)
    ensures ActiveLineages(v, facts + [f], horizon) <==> ActiveLineages(v, facts, horizon)
    ensures Decisions(v, facts + [f], now, rotateAfter, list) <==> Decisions(v, facts, now, rotateAfter, list)
  {
    hide Foreign, ActiveSet, LineageComplete, BornAt;
    var more := facts + [f];
    forall b | b in ActiveSet(v)
      ensures LineageComplete(v, more, b, horizon) <==> LineageComplete(v, facts, b, horizon)
      ensures forall u :: BornAt(v, more, b, u) <==> BornAt(v, facts, b, u)
    {
      ForeignLineage(v, facts, f, b, horizon);
      ForeignDates(v, facts, f, b);
    }
    assert DueSet(v, more, now, rotateAfter) == DueSet(v, facts, now, rotateAfter);
    forall d: EligibilityDecision | d.binding in ActiveSet(v)
      ensures Since(v, more, d.binding, d.since) <==> Since(v, facts, d.binding, d.since)
    {}
  }

  lemma ForeignDates(v: View, facts: seq<LineageFact>, f: LineageFact, b: BindingKey)
    requires Foreign(v, f) && b in ActiveSet(v)
    ensures forall u :: BornAt(v, facts + [f], b, u) <==> BornAt(v, facts, b, u)
  {
    hide Foreign, RecordedAs, ActiveSet;
    var more := facts + [f];
    ForeignIsUnmatched(v, f, b, RsaSha256);
    forall u ensures BornAt(v, more, b, u) <==> BornAt(v, facts, b, u) {
      if BornAt(v, more, b, u) {
        var a: Algorithm, i :| 0 <= i < |more| && RecordedAs(v, more[i], b, a) && more[i].created == u;
        ForeignIsUnmatched(v, f, b, a);
        assert i < |facts| && more[i] == facts[i];
      }
      if BornAt(v, facts, b, u) {
        var a: Algorithm, i :| 0 <= i < |facts| && RecordedAs(v, facts[i], b, a) && facts[i].created == u;
        assert more[i] == facts[i];
      }
    }
  }

  lemma ForeignLineage(v: View, facts: seq<LineageFact>, f: LineageFact, b: BindingKey, horizon: int)
    requires Foreign(v, f) && b in ActiveSet(v)
    ensures LineageComplete(v, facts + [f], b, horizon) <==> LineageComplete(v, facts, b, horizon)
  {
    hide Foreign, ActiveSet, KeyFact, LineageSound;
    var more := facts + [f];
    ForeignIsUnmatched(v, f, b, RsaSha256);
    forall a: Algorithm ensures KeySound(v, more, b, a, horizon) <==> KeySound(v, facts, b, a, horizon) {
      ForeignIsUnmatched(v, f, b, a);
      var k := SlotKey(v.policies[b].profile, a);
      if k in v.slots { ForeignSound(facts, f, b, k, v.slots[k], horizon); }
    }
  }

  lemma ForeignSound(facts: seq<LineageFact>, f: LineageFact, b: BindingKey, k: SlotKey, s: Slot, horizon: int)
    requires !KeyFact(f, b, k, s)
    ensures LineageSound(facts + [f], b, k, s, horizon) <==> LineageSound(facts, b, k, s, horizon)
  {
    hide KeyFact;
    var more := facts + [f];
    assert forall i :: 0 <= i < |facts| ==> more[i] == facts[i];
    assert more[|facts|] == f;
    if i :| 0 <= i < |facts| && KeyFact(facts[i], b, k, s) { assert KeyFact(more[i], b, k, s); }
    if LineageSound(more, b, k, s, horizon) {
      var i :| 0 <= i < |more| && KeyFact(more[i], b, k, s);
      assert KeyFact(facts[i], b, k, s);
      forall x | 0 <= x < |facts| && KeyFact(facts[x], b, k, s) ensures facts[x].created <= horizon {
        assert KeyFact(more[x], b, k, s);
      }
      forall x, y | 0 <= x < y < |facts| && KeyFact(facts[x], b, k, s) && KeyFact(facts[y], b, k, s)
        ensures facts[x].generation != facts[y].generation
      {
        assert KeyFact(more[x], b, k, s) && KeyFact(more[y], b, k, s);
      }
    }
  }
}

/** Which active bindings are due for rotation, read off the complete retained lineage. */
module Eligibility {
  import opened Wrappers
  import opened Order
  import opened Records
  import opened Generations
  import opened Snapshots
  import opened Bindings
  import opened Lifecycle
  import opened Lineage
  import opened Campaign

  const MIN_RSA_BITS := 2048
  const MAX_RSA_BITS := 8192

  datatype RotationLimits = RotationLimits(rotateAfter: int, maximumClockSkew: int, allocationAttempts: int,
      rsaBits: int, maximumBindings: int)

  predicate ValidLimits(l: RotationLimits)
  {
    && l.rotateAfter > 0 && l.maximumClockSkew >= 0 && l.allocationAttempts > 0
    && MIN_RSA_BITS <= l.rsaBits <= MAX_RSA_BITS && l.rsaBits % 8 == 0 && l.maximumBindings > 0
  }

  datatype EligibilityDecision = EligibilityDecision(binding: BindingKey, since: Moment)

  function DecisionKey(d: EligibilityDecision): Key { BindingSortKey(d.binding) }

  /** A retained record of this key under binding `b`, from any generation. */
  predicate KeyFact(f: LineageFact, b: BindingKey, k: SlotKey, s: Slot)
  {
    && FactBinding(f) == b && f.selector == s.selector && f.algorithm == k.algorithm
    && f.handle == s.handle && f.publicSpki == s.publicSpki
  }

  /** At least one record, none twice for a generation, none dated beyond the horizon. */
  ghost predicate LineageSound(facts: seq<LineageFact>, b: BindingKey, k: SlotKey, s: Slot, horizon: int)
  {
    && (exists i :: 0 <= i < |facts| && KeyFact(facts[i], b, k, s))
    && NoStray(facts, b, k, s, horizon)
  }

  ghost predicate NoStray(facts: seq<LineageFact>, b: BindingKey, k: SlotKey, s: Slot, horizon: int)
  {
    && (forall i :: 0 <= i < |facts| && KeyFact(facts[i], b, k, s) ==> facts[i].created <= horizon)
    && (forall i, j :: 0 <= i < j < |facts| && KeyFact(facts[i], b, k, s) && KeyFact(facts[j], b, k, s) ==>
          facts[i].generation != facts[j].generation)
  }

  ghost predicate Earliest(facts: seq<LineageFact>, b: BindingKey, k: SlotKey, s: Slot, t: int)
  {
    && (exists i :: 0 <= i < |facts| && KeyFact(facts[i], b, k, s) && facts[i].created == t)
    && (forall i :: 0 <= i < |facts| && KeyFact(facts[i], b, k, s) ==> t <= facts[i].created)
  }

  /** What the scan knows after a prefix of the history. */
  ghost predicate Scanned(facts: seq<LineageFact>, b: BindingKey, k: SlotKey, s: Slot, horizon: int, seen: set<Number>,
                          earliest: Option<Moment>)
  {
    && NoStray(facts, b, k, s, horizon)
    && (forall n :: n in seen <==>
          exists j :: 0 <= j < |facts| && KeyFact(facts[j], b, k, s) && facts[j].generation == n)
    && (earliest.None? ==> forall j :: 0 <= j < |facts| ==> !KeyFact(facts[j], b, k, s))
    && (earliest.Some? ==> Earliest(facts, b, k, s, earliest.value))
  }

  lemma ScannedNone(b: BindingKey, k: SlotKey, s: Slot, horizon: int)
    ensures Scanned([], b, k, s, horizon, {}, None)
  {}

  lemma NoStrayOther(facts: seq<LineageFact>, f: LineageFact, b: BindingKey, k: SlotKey, s: Slot, horizon: int)
    requires NoStray(facts, b, k, s, horizon) && !KeyFact(f, b, k, s)
    ensures NoStray(facts + [f], b, k, s, horizon)
  {
    hide KeyFact;
  }

  lemma EarliestOther(facts: seq<LineageFact>, f: LineageFact, b: BindingKey, k: SlotKey, s: Slot, t: int)
    requires Earliest(facts, b, k, s, t) && !KeyFact(f, b, k, s)
    ensures Earliest(facts + [f], b, k, s, t)
  {
    hide KeyFact;
    var i :| 0 <= i < |facts| && KeyFact(facts[i], b, k, s) && facts[i].created == t;
    assert (facts + [f])[i] == facts[i];
  }

  lemma ScannedOther(facts: seq<LineageFact>, f: LineageFact, b: BindingKey, k: SlotKey, s: Slot, horizon: int,
                     seen: set<Number>, earliest: Option<Moment>)
    requires Scanned(facts, b, k, s, horizon, seen, earliest) && !KeyFact(f, b, k, s)
    ensures Scanned(facts + [f], b, k, s, horizon, seen, earliest)
  {
    hide KeyFact, NoStray, Earliest;
    NoStrayOther(facts, f, b, k, s, horizon);
    var t := facts + [f];
    assert forall j :: 0 <= j < |facts| ==> t[j] == facts[j];
    assert t[|facts|] == f;
    if earliest.Some? { EarliestOther(facts, f, b, k, s, earliest.value); }
    forall n | n in seen ensures exists j :: 0 <= j < |t| && KeyFact(t[j], b, k, s) && t[j].generation == n {
      var j :| 0 <= j < |facts| && KeyFact(facts[j], b, k, s) && facts[j].generation == n;
      assert KeyFact(t[j], b, k, s);
    }
  }

  lemma ScannedMatch(facts: seq<LineageFact>, f: LineageFact, b: BindingKey, k: SlotKey, s: Slot, horizon: int,
                     seen: set<Number>, earliest: Option<Moment>)
    requires Scanned(facts, b, k, s, horizon, seen, earliest) && KeyFact(f, b, k, s) && f.generation !in seen
    requires f.created <= horizon
    ensures Scanned(facts + [f], b, k, s, horizon, seen + {f.generation},
                    if earliest.None? || f.created < earliest.value then Some(f.created) else earliest)
  {
    hide KeyFact;
    var t := facts + [f];
    assert forall j :: 0 <= j < |facts| ==> t[j] == facts[j];
    assert t[|facts|] == f;
    if earliest.Some? {
      var i :| 0 <= i < |facts| && KeyFact(facts[i], b, k, s) && facts[i].created == earliest.value;
      assert KeyFact(t[i], b, k, s) && t[i].created == earliest.value;
    }
    forall n | n in seen ensures exists j :: 0 <= j < |t| && KeyFact(t[j], b, k, s) && t[j].generation == n {
      var j :| 0 <= j < |facts| && KeyFact(facts[j], b, k, s) && facts[j].generation == n;
      assert KeyFact(t[j], b, k, s);
    }
    assert KeyFact(t[|facts|], b, k, s);
  }

  lemma ScanRejects(facts: seq<LineageFact>, i: nat, b: BindingKey, k: SlotKey, s: Slot, horizon: int,
                    seen: set<Number>, earliest: Option<Moment>)
    requires i < |facts| && Scanned(facts[..i], b, k, s, horizon, seen, earliest) && KeyFact(facts[i], b, k, s)
    requires facts[i].generation in seen || facts[i].created > horizon
    ensures !NoStray(facts, b, k, s, horizon)
  {
    hide KeyFact;
    if facts[i].generation in seen {
      var j :| 0 <= j < i && KeyFact(facts[..i][j], b, k, s) && facts[..i][j].generation == facts[i].generation;
      assert facts[..i][j] == facts[j];
    }
  }

  /** One scan of the history for one credential: its earliest record, or a rejection. */
  method EarliestFact(facts: seq<LineageFact>, b: BindingKey, c: Credential, ghost s: Slot, horizon: int)
      returns (earliest: Option<Moment>)
    requires s.selector == c.selector && s.handle == c.handleId && s.publicSpki == c.publicSpki
    ensures earliest.Some? <==> LineageSound(facts, b, CredentialSlot(c), s, horizon)
    ensures earliest.Some? ==> Earliest(facts, b, CredentialSlot(c), s, earliest.value)
  {
    hide Scanned, NoStray;
    ghost var k := CredentialSlot(c);
    earliest := None;
    var seen: set<Number> := {};
    ScannedNone(b, k, s, horizon);
    for i := 0 to |facts|
      invariant Scanned(facts[..i], b, k, s, horizon, seen, earliest)
    {
      var f := facts[i];
      assert facts[..i + 1] == facts[..i] + [f];
      if FactBinding(f) == b && f.selector == c.selector && f.algorithm == c.algorithm && f.handle == c.handleId &&
         f.publicSpki == c.publicSpki
      {
        if f.generation in seen || f.created > horizon {
          ScanRejects(facts, i, b, k, s, horizon, seen, earliest);
          return None;
        }
        ScannedMatch(facts[..i], f, b, k, s, horizon, seen, earliest);
        seen := seen + {f.generation};
        if earliest.None? || f.created < earliest.value { earliest := Some(f.created); }
      } else {
        ScannedOther(facts[..i], f, b, k, s, horizon, seen, earliest);
      }
    }
    assert facts[..|facts|] == facts;
    ScannedAll(facts, b, k, s, horizon, seen, earliest);
  }

  lemma ScannedAll(facts: seq<LineageFact>, b: BindingKey, k: SlotKey, s: Slot, horizon: int, seen: set<Number>,
                   earliest: Option<Moment>)
    requires Scanned(facts, b, k, s, horizon, seen, earliest)
    ensures NoStray(facts, b, k, s, horizon)
    ensures earliest.Some? <==> exists i :: 0 <= i < |facts| && KeyFact(facts[i], b, k, s)
    ensures earliest.Some? ==> Earliest(facts, b, k, s, earliest.value)
  {
    hide KeyFact;
  }

  /** Some key now bound under `b` was recorded at time `t`. */
  ghost predicate BornAt(v: View, facts: seq<LineageFact>, b: BindingKey, t: int)
  {
    && b in v.policies
    && exists a: Algorithm, i :: 0 <= i < |facts| && RecordedAs(v, facts[i], b, a) && facts[i].created == t
  }

  ghost predicate RecordedAs(v: View, f: LineageFact, b: BindingKey, a: Algorithm)
    requires b in v.policies
  {
    var k := SlotKey(v.policies[b].profile, a);
    k in v.slots && KeyFact(f, b, k, v.slots[k])
  }

  ghost predicate KeySound(v: View, facts: seq<LineageFact>, b: BindingKey, a: Algorithm, horizon: int)
    requires b in v.policies
  {
    var k := SlotKey(v.policies[b].profile, a);
    k in v.slots ==> LineageSound(facts, b, k, v.slots[k], horizon)
  }

  /** Every key of the binding has a sound lineage. */
  ghost predicate LineageComplete(v: View, facts: seq<LineageFact>, b: BindingKey, horizon: int)
  {
    && b in v.policies
    && forall a: Algorithm {:trigger KeySound(v, facts, b, a, horizon)} :: KeySound(v, facts, b, a, horizon)
  }

  /** The binding's earliest matching record is at least the rotation age old. */
  ghost predicate Due(v: View, facts: seq<LineageFact>, b: BindingKey, now: int, rotateAfter: int)
  {
    exists t :: BornAt(v, facts, b, t) && t + rotateAfter <= now
  }

  ghost function DueSet(v: View, facts: seq<LineageFact>, now: int, rotateAfter: int): set<BindingKey>
  {
    set b | b in ActiveSet(v) && Due(v, facts, b, now, rotateAfter)
  }

  ghost predicate Since(v: View, facts: seq<LineageFact>, b: BindingKey, t: int)
  {
    BornAt(v, facts, b, t) && forall u :: BornAt(v, facts, b, u) ==> t <= u
  }

  /** What the inner loop has established for the first credentials of a binding. */
  ghost predicate SinceUpTo(v: View, facts: seq<LineageFact>, b: BindingKey, part: set<Algorithm>, t: int)
  {
    && b in v.policies
    && (exists a: Algorithm, i ::
          a in part && 0 <= i < |facts| && RecordedAs(v, facts[i], b, a) && facts[i].created == t)
    && (forall a: Algorithm, i :: a in part && 0 <= i < |facts| && RecordedAs(v, facts[i], b, a) ==>
          t <= facts[i].created)
  }

  lemma SinceStep(v: View, facts: seq<LineageFact>, b: BindingKey, part: set<Algorithm>, a: Algorithm,
                  since: Option<Moment>, e: Moment)
    requires b in v.policies && SlotKey(v.policies[b].profile, a) in v.slots
    requires Earliest(facts, b, SlotKey(v.policies[b].profile, a), v.slots[SlotKey(v.policies[b].profile, a)], e)
    requires since.None? <==> part == {}
    requires since.Some? ==> SinceUpTo(v, facts, b, part, since.value)
    ensures SinceUpTo(v, facts, b, part + {a}, if since.None? || e < since.value then e else since.value)
  {
    hide KeyFact;
    var k := SlotKey(v.policies[b].profile, a);
    var i :| 0 <= i < |facts| && KeyFact(facts[i], b, k, v.slots[k]) && facts[i].created == e;
    assert RecordedAs(v, facts[i], b, a);
    if since.Some? {
      var x, j :| x in part && 0 <= j < |facts| && RecordedAs(v, facts[j], b, x) && facts[j].created == since.value;
      assert x in part + {a};
    }
    assert a in part + {a};
  }

  lemma SinceTotal(v: View, facts: seq<LineageFact>, b: BindingKey, part: set<Algorithm>, t: int)
    requires SinceUpTo(v, facts, b, part, t)
    requires forall a :: a in part <==> SlotKey(v.policies[b].profile, a) in v.slots
    ensures Since(v, facts, b, t)
  {
    hide KeyFact;
    var a, i :| a in part && 0 <= i < |facts| && RecordedAs(v, facts[i], b, a) && facts[i].created == t;
    assert BornAt(v, facts, b, t);
    forall u | BornAt(v, facts, b, u) ensures t <= u {
      var x, j :| 0 <= j < |facts| && RecordedAs(v, facts[j], b, x) && facts[j].created == u;
      assert x in part;
    }
  }

  lemma KeySoundMeans(v: View, facts: seq<LineageFact>, b: BindingKey, a: Algorithm, horizon: int)
    requires b in v.policies
    ensures var k := SlotKey(v.policies[b].profile, a);
      KeySound(v, facts, b, a, horizon) <==> (k in v.slots ==> LineageSound(facts, b, k, v.slots[k], horizon))
  {}

  lemma NoAlgorithms(s: seq<Credential>)
    ensures Algorithms(s[..0]) == {}
  {}

  lemma OneMoreAlgorithm(s: seq<Credential>, i: nat)
    requires i < |s|
    ensures Algorithms(s[..i + 1]) == Algorithms(s[..i]) + {s[i].algorithm}
    ensures Algorithms(s[..i]) == {} <==> i == 0
  {
    assert s[..i + 1] == s[..i] + [s[i]];
    assert i > 0 ==> s[0] in s[..i] && s[0].algorithm in Algorithms(s[..i]);
  }

  /** The earliest record over all credentials of one active policy. */
  method BindingSince(g: Generation, policy: Policy, facts: seq<LineageFact>, horizon: int)
      returns (since: Option<Moment>)
    requires Consistent(g) && policy in g.policies && policy.status == Active
    ensures since.Some? <==> LineageComplete(ViewOf(g), facts, PolicyBinding(policy), horizon)
    ensures since.Some? ==> Since(ViewOf(g), facts, PolicyBinding(policy), since.value)
  {
    hide Consistent, ProfileTable, PolicyTable, SlotTable, LineageSound, Earliest, SinceUpTo, Since, KeySound,
      Algorithms;
    ghost var v := ViewOf(g);
    ghost var b := PolicyBinding(policy);
    PolicyOf(g, policy);
    var profile := ProfileById(g, policy.profileId);
    if profile.None? || profile.value.status != Active { assert false; }
    var credentials := CredentialsForProfile(g, policy.profileId);
    OwnsSlots(g, policy.profileId, credentials);
    since := None;
    NoAlgorithms(credentials);
    for i := 0 to |credentials|
      invariant since.None? <==> i == 0
      invariant since.Some? ==> SinceUpTo(v, facts, b, Algorithms(credentials[..i]), since.value)
      invariant forall a :: a in Algorithms(credentials[..i]) ==> KeySound(v, facts, b, a, horizon)
    {
      var c := credentials[i];
      assert c in credentials;
      ghost var m := CredentialHasSlot(g, c);
      OneMoreAlgorithm(credentials, i);
      var earliest := EarliestFact(facts, PolicyBinding(policy), c, v.slots[CredentialSlot(c)], horizon);
      assert earliest.Some? <==> KeySound(v, facts, b, c.algorithm, horizon) by {
        KeySoundMeans(v, facts, b, c.algorithm, horizon);
      }
      if earliest.None? { return None; }
      SinceStep(v, facts, b, Algorithms(credentials[..i]), c.algorithm, since, earliest.value);
      if since.None? || earliest.value < since.value { since := earliest; }
    }
    assert credentials[..|credentials|] == credentials;
    forall a: Algorithm ensures KeySound(v, facts, b, a, horizon) {
      KeySoundMeans(v, facts, b, a, horizon);
      assert SlotKey(policy.profileId, a) in v.slots ==> a in Algorithms(credentials);
    }
    SinceTotal(v, facts, b, Algorithms(credentials), since.value);
  }

  lemma SinceDecides(v: View, facts: seq<LineageFact>, b: BindingKey, t: int, now: int, rotateAfter: int)
    requires Since(v, facts, b, t)
    ensures Due(v, facts, b, now, rotateAfter) <==> t + rotateAfter <= now
    ensures forall u :: Since(v, facts, b, u) ==> u == t
  {
    hide BornAt;
  }

  /** The decisions gathered from the first `i` policies. */
  ghost predicate DueUpTo(g: Generation, v: View, facts: seq<LineageFact>, now: int, rotateAfter: int, i: nat,
                          rows: seq<EligibilityDecision>)
    requires i <= |g.policies|
  {
    && Unique(rows)
    && (forall d :: d in rows ==>
          && FromPolicy(g, i, d.binding) && Since(v, facts, d.binding, d.since)
          && Due(v, facts, d.binding, now, rotateAfter))
    && (forall j {:trigger g.policies[j]} ::
          && 0 <= j < i && g.policies[j].status == Active
          && Due(v, facts, PolicyBinding(g.policies[j]), now, rotateAfter) ==>
            Decided(rows, PolicyBinding(g.policies[j])))
  }

  ghost predicate FromPolicy(g: Generation, i: nat, b: BindingKey)
    requires i <= |g.policies|
  {
    exists j :: 0 <= j < i && g.policies[j].status == Active && PolicyBinding(g.policies[j]) == b
  }

  ghost predicate Decided(rows: seq<EligibilityDecision>, b: BindingKey) { exists d :: d in rows && d.binding == b }

  ghost predicate ActiveLineages(v: View, facts: seq<LineageFact>, horizon: int)
  {
    forall b :: b in ActiveSet(v) ==> LineageComplete(v, facts, b, horizon)
  }

  lemma DueStep(g: Generation, v: View, facts: seq<LineageFact>, now: int, rotateAfter: int, i: nat,
                rows: seq<EligibilityDecision>, next: Option<EligibilityDecision>)
    requires Consistent(g) && i < |g.policies| && DueUpTo(g, v, facts, now, rotateAfter, i, rows)
    requires next.None? ==>
      g.policies[i].status != Active || !Due(v, facts, PolicyBinding(g.policies[i]), now, rotateAfter)
    requires next.Some? ==> g.policies[i].status == Active && next.value.binding == PolicyBinding(g.policies[i])
    requires next.Some? ==>
      Since(v, facts, next.value.binding, next.value.since) && Due(v, facts, next.value.binding, now, rotateAfter)
    ensures DueUpTo(g, v, facts, now, rotateAfter, i + 1, if next.None? then rows else rows + [next.value])
  {
    hide Consistent, Since, Due;
    var after := if next.None? then rows else rows + [next.value];
    PoliciesDistinct(g, i);
    forall d | d in rows ensures FromPolicy(g, i + 1, d.binding) && (next.Some? ==> d.binding != next.value.binding) {
      assert FromPolicy(g, i, d.binding);
      var j :| 0 <= j < i && g.policies[j].status == Active && PolicyBinding(g.policies[j]) == d.binding;
      assert 0 <= j < i + 1;
    }
    if next.Some? {
      AppendUnique(rows, next.value);
      assert next.value in after;
      assert Decided(after, PolicyBinding(g.policies[i]));
      assert FromPolicy(g, i + 1, next.value.binding) by { assert 0 <= i < i + 1; }
    }
    forall j | 0 <= j < i + 1 && g.policies[j].status == Active &&
        Due(v, facts, PolicyBinding(g.policies[j]), now, rotateAfter)
      ensures Decided(after, PolicyBinding(g.policies[j]))
    {
      if j < i {
        assert Decided(rows, PolicyBinding(g.policies[j]));
        var d :| d in rows && d.binding == PolicyBinding(g.policies[j]);
        assert d in after;
      }
    }
  }

  /** `list` holds the due bindings in canonical order, each with its earliest record. */
  ghost predicate Decisions(v: View, facts: seq<LineageFact>, now: int, rotateAfter: int,
                            list: seq<EligibilityDecision>)
  {
    && Strictly(list, DecisionKey)
    && (forall d :: d in list <==>
          d.binding in DueSet(v, facts, now, rotateAfter) && Since(v, facts, d.binding, d.since))
    && (forall b {:trigger Decided(list, b)} :: b in DueSet(v, facts, now, rotateAfter) ==> Decided(list, b))
  }

  lemma DueComplete(g: Generation, facts: seq<LineageFact>, now: int, rotateAfter: int, rows: seq<EligibilityDecision>)
    requires Consistent(g) && DueUpTo(g, ViewOf(g), facts, now, rotateAfter, |g.policies|, rows)
    ensures forall d :: d in rows <==>
      d.binding in DueSet(ViewOf(g), facts, now, rotateAfter) && Since(ViewOf(g), facts, d.binding, d.since)
    ensures forall b :: b in DueSet(ViewOf(g), facts, now, rotateAfter) ==> Decided(rows, b)
    ensures forall i, j :: 0 <= i < j < |rows| ==> rows[i].binding != rows[j].binding
  {
    hide Consistent, Since, Due, ProfileTable, PolicyTable, SlotTable, KeyFact;
    var v := ViewOf(g);
    forall d
      ensures d in rows <==> d.binding in DueSet(v, facts, now, rotateAfter) && Since(v, facts, d.binding, d.since)
    {
      if d in rows {
        assert FromPolicy(g, |g.policies|, d.binding);
        var j :| 0 <= j < |g.policies| && g.policies[j].status == Active && PolicyBinding(g.policies[j]) == d.binding;
        PolicyIntro(g, g.policies[j]);
      }
      if d.binding in DueSet(v, facts, now, rotateAfter) && Since(v, facts, d.binding, d.since) {
        var q := PolicyElim(g, d.binding);
        var j :| 0 <= j < |g.policies| && g.policies[j] == q;
        assert Decided(rows, PolicyBinding(g.policies[j]));
        var e :| e in rows && e.binding == d.binding;
        SinceDecides(v, facts, d.binding, d.since, now, rotateAfter);
      }
    }
    forall b | b in DueSet(v, facts, now, rotateAfter) ensures Decided(rows, b) {
      var q := PolicyElim(g, b);
      var j :| 0 <= j < |g.policies| && g.policies[j] == q;
      assert Decided(rows, PolicyBinding(g.policies[j]));
    }
    forall i, j | 0 <= i < j < |rows| ensures rows[i].binding != rows[j].binding {
      assert rows[i] in rows && rows[j] in rows && rows[i] != rows[j];
      if rows[i].binding == rows[j].binding {
        SinceDecides(v, facts, rows[i].binding, rows[i].since, now, rotateAfter);
      }
    }
  }

  method SortDecisions(rows: seq<EligibilityDecision>) returns (list: seq<EligibilityDecision>)
    requires Unique(rows) && forall i, j :: 0 <= i < j < |rows| ==> rows[i].binding != rows[j].binding
    ensures Strictly(list, DecisionKey) && (forall d :: d in list <==> d in rows) && |list| == |rows|
  {
    list := Sort(rows, DecisionKey);
    PermutedUnique(list, rows);
    forall i, j | 0 <= i < j < |list| ensures DecisionKey(list[i]) != DecisionKey(list[j]) {
      assert list[i] in rows && list[j] in rows && list[i] != list[j];
      var m, n :| 0 <= m < |rows| && rows[m] == list[i] && 0 <= n < |rows| && rows[n] == list[j];
      if DecisionKey(list[i]) == DecisionKey(list[j]) { PolicyKeyInjective(list[i].binding, list[j].binding); }
    }
    OrderedDistinctIsStrict(list, DecisionKey);
  }

  /** Every due active binding under one complete lineage, in canonical order. */
  method EligibleBindings(now: int, current: Generation, history: LineageHistory, limits: RotationLimits)
      returns (result: Result<seq<EligibilityDecision>>)
    requires Consistent(current)
    ensures result.Ok? <==>
      && history.complete && ValidLimits(limits) && |ActiveSet(ViewOf(current))| <= limits.maximumBindings
      && ActiveLineages(ViewOf(current), history.facts, now + limits.maximumClockSkew)
    ensures result.Ok? ==> Decisions(ViewOf(current), history.facts, now, limits.rotateAfter, result.value)
  {
    hide Consistent, ProfileTable, PolicyTable, SlotTable, LineageComplete, Since, Due, ActiveSet, Gathered, DueUpTo,
      PolicyKey;
    if !history.complete || !ValidLimits(limits) { return Err(Invalid); }
    ghost var v := ViewOf(current);
    ghost var horizon := now + limits.maximumClockSkew;
    var rows: seq<EligibilityDecision> := [];
    var active := 0;
    ghost var gathered: seq<BindingKey> := [];
    NothingGathered(current, v, history.facts, now, limits.rotateAfter);
    for i := 0 to |current.policies|
      invariant DueUpTo(current, v, history.facts, now, limits.rotateAfter, i, rows)
      invariant Gathered(current, i, gathered) && active == |gathered| <= limits.maximumBindings
      invariant forall b :: b in gathered ==> LineageComplete(v, history.facts, b, horizon)
    {
      var policy := current.policies[i];
      ghost var b := PolicyBinding(policy);
      if policy.status == Active {
        active := active + 1;
        PoliciesDistinct(current, i);
        GatheredStep(current, i, gathered);
        GatheredWithin(current, i + 1, gathered + [b]);
        assert b in gathered + [b];
        if active > limits.maximumBindings { return Err(Invalid); }
        var since := BindingSince(current, policy, history.facts, now + limits.maximumClockSkew);
        if since.None? {
          assert b in ActiveSet(v);
          return Err(Invalid);
        }
        gathered := gathered + [b];
        SinceDecides(v, history.facts, b, since.value, now, limits.rotateAfter);
        if since.value + limits.rotateAfter <= now {
          DueStep(current, v, history.facts, now, limits.rotateAfter, i, rows,
                  Some(EligibilityDecision(b, since.value)));
          rows := rows + [EligibilityDecision(PolicyBinding(policy), since.value)];
        } else {
          DueStep(current, v, history.facts, now, limits.rotateAfter, i, rows, None);
        }
      } else {
        GatheredSkip(current, i, gathered);
        DueStep(current, v, history.facts, now, limits.rotateAfter, i, rows, None);
      }
    }
    GatheredWithin(current, |current.policies|, gathered);
    DueComplete(current, history.facts, now, limits.rotateAfter, rows);
    DueRowsUnique(current, v, history.facts, now, limits.rotateAfter, rows);
    assert ActiveLineages(v, history.facts, horizon);
    var list := SortDecisions(rows);
    forall b | b in DueSet(v, history.facts, now, limits.rotateAfter) ensures Decided(list, b) {
      assert Decided(rows, b);
      var d :| d in rows && d.binding == b;
      assert d in list;
    }
    result := Ok(list);
  }

  lemma DueRowsUnique(g: Generation, v: View, facts: seq<LineageFact>, now: int, rotateAfter: int,
                      rows: seq<EligibilityDecision>)
    requires DueUpTo(g, v, facts, now, rotateAfter, |g.policies|, rows)
    ensures Unique(rows)
  {}

  lemma NothingGathered(g: Generation, v: View, facts: seq<LineageFact>, now: int, rotateAfter: int)
    ensures DueUpTo(g, v, facts, now, rotateAfter, 0, []) && Gathered(g, 0, [])
  {}

  lemma GatheredSkip(g: Generation, i: nat, rows: seq<BindingKey>)
    requires i < |g.policies| && Gathered(g, i, rows) && g.policies[i].status != Active
    ensures Gathered(g, i + 1, rows)
  {
    forall b | b in rows
      ensures exists j :: 0 <= j < i + 1 && g.policies[j].status == Active && PolicyBinding(g.policies[j]) == b
    {
      var j :| 0 <= j < i && g.policies[j].status == Active && PolicyBinding(g.policies[j]) == b;
      assert 0 <= j < i + 1;
    }
  }
}

/** Explicit lifecycle transitions: the intent test for a rotation candidate, retirement of a predecessor's keys,
    and the forward rollback of one binding. */
module Transitions {
  import opened Wrappers
  import opened Text
  import opened Order
  import opened Records
  import opened Generations
  import opened Snapshots
  import opened Bindings
  import opened Lifecycle
  import opened Lineage

  // ---------------------------------------------------------------------------------------------
  // Rotation intent
  // ---------------------------------------------------------------------------------------------

  /** The fact repeats the selector, the handle, or the public key of this algorithm. */
  predicate Reuses(f: LineageFact, k: SlotKey, s: Slot)
  {
    f.selector == s.selector || f.handle == s.handle || (f.algorithm == k.algorithm && f.publicSpki == s.publicSpki)
  }

  /** No key of profile `p` repeats an identifier or public key recorded for an earlier generation. */
  ghost predicate Unused(v: View, p: Id, n: Number, facts: seq<LineageFact>)
  {
    forall a: Algorithm, i {:trigger SlotKey(p, a), facts[i]} ::
      SlotKey(p, a) in v.slots && 0 <= i < |facts| && facts[i].generation < n ==>
        !Reuses(facts[i], SlotKey(p, a), v.slots[SlotKey(p, a)])
  }

  ghost predicate HistoryUpTo(n: Number, history: LineageHistory)
  {
    history.complete && forall f :: f in history.facts ==> f.generation <= n
  }

  /** One fresh normal rotation of binding `b`, proved from the complete retained lineage. */
  ghost predicate RotationIntent(current: Generation, candidate: Generation, history: LineageHistory, p: Id,
                                 b: BindingKey)
    requires Consistent(current) && Consistent(candidate)
  {
    && current.state == Committed && candidate.number == current.number + 1
    && HistoryUpTo(candidate.number, history)
    && RotatedOnly(ViewOf(current), ViewOf(candidate), p, b)
    && Projected(ViewOf(current), current.number, history.facts)
    && Projected(ViewOf(candidate), candidate.number, history.facts)
    && Unused(ViewOf(candidate), p, candidate.number, history.facts)
  }

  lemma RotatedUnique(P: View, C: View, p: Id, b: BindingKey, q: Id, c: BindingKey)
    requires ValidView(P) && RotatedOnly(P, C, p, b) && RotatedOnly(P, C, q, c)
    ensures p == q && b == c
  {
    hide RenewedAt;
    assert PolicyFits(P, b) && PolicyFits(P, c);
    if p != q {
      assert HasSlot(P, p);
      var a :| SlotKey(p, a) in P.slots;
      assert SameAt(P, C, p);
      RenewedIsChange(P, C, p, a);
    }
  }

  lemma RenewedIsChange(P: View, C: View, p: Id, a: Algorithm)
    requires RenewedAt(P, C, p) && SlotKey(p, a) in P.slots
    ensures !SameAt(P, C, p)
  {}

  lemma RotatedStaysActive(C: View, P: View, p: Id, b: BindingKey)
    requires ValidView(C) && RotatedOnly(P, C, p, b)
    ensures ActiveBinding(C, b) && C.policies[b].profile == p
  {
    assert PolicyFits(C, b);
  }

  ghost predicate KeyUnused(v: View, k: SlotKey, n: Number, facts: seq<LineageFact>)
  {
    k in v.slots && forall j :: 0 <= j < |facts| && facts[j].generation < n ==> !Reuses(facts[j], k, v.slots[k])
  }

  method UnusedIdentifiers(g: Generation, ghost p: Id, credentials: seq<Credential>, facts: seq<LineageFact>)
      returns (ok: bool)
    requires Consistent(g)
    requires forall c :: c in credentials <==> c in g.credentials && c.profileId == p
    ensures ok <==> Unused(ViewOf(g), p, g.number, facts)
  {
    hide Consistent, SlotTable, ProfileTable, PolicyTable;
    ghost var v := ViewOf(g);
    for i := 0 to |credentials|
      invariant forall c :: c in credentials[..i] ==> KeyUnused(v, CredentialSlot(c), g.number, facts)
    {
      var c := credentials[i];
      ghost var m := CredentialHasSlot(g, c);
      for j := 0 to |facts|
        invariant forall h :: 0 <= h < j && facts[h].generation < g.number ==>
          !Reuses(facts[h], CredentialSlot(c), v.slots[CredentialSlot(c)])
      {
        var f := facts[j];
        if f.generation < g.number {
          if f.selector == c.selector || f.handle == c.handleId ||
             (f.algorithm == c.algorithm && f.publicSpki == c.publicSpki)
          {
            assert Reuses(facts[j], CredentialSlot(c), v.slots[CredentialSlot(c)]);
            assert CredentialSlot(c) == SlotKey(p, c.algorithm);
            return false;
          }
        }
      }
      assert credentials[..i + 1] == credentials[..i] + [c];
    }
    assert credentials[..|credentials|] == credentials;
    forall a: Algorithm, j | SlotKey(p, a) in v.slots && 0 <= j < |facts| && facts[j].generation < g.number
      ensures !Reuses(facts[j], SlotKey(p, a), v.slots[SlotKey(p, a)])
    {
      var c, m := SlotElim(g, SlotKey(p, a));
      assert KeyUnused(v, CredentialSlot(c), g.number, facts);
    }
    ok := true;
  }

  method FactsUpTo(facts: seq<LineageFact>, n: Number) returns (ok: bool)
    ensures ok <==> forall f :: f in facts ==> f.generation <= n
  {
    for i := 0 to |facts|
      invariant forall j :: 0 <= j < i ==> facts[j].generation <= n
    {
      if facts[i].generation > n { return false; }
    }
    ok := true;
  }

  /** Accepts exactly the fresh rotations of one enforced binding. */
  method ValidateRotationCandidateIntent(current: Generation, candidate: Generation, history: LineageHistory)
      returns (result: Result<LifecycleBinding>)
    requires Consistent(current) && Consistent(candidate)
    ensures result.Ok? <==> exists p, b :: RotationIntent(current, candidate, history, p, b)
    ensures result.Ok? ==> RotationIntent(current, candidate, history, result.value.profile, result.value.key)
  {
    hide Consistent, SlotTable, ProfileTable, PolicyTable, RotatedOnly, Projected, Unused, ValidView;
    ghost var P := ViewOf(current);
    ghost var C := ViewOf(candidate);
    ConsistentView(current);
    ConsistentView(candidate);
    if current.state != Committed || current.number == MAX_NUMBER || candidate.number != current.number + 1 ||
       !history.complete
    {
      return Err(Invalid);
    }
    var bounded := FactsUpTo(history.facts, candidate.number);
    if !bounded { return Err(Invalid); }
    var rotated := UniqueRotatedBinding(candidate, current);
    if rotated.Err? { return Err(rotated.error); }
    var binding := rotated.value.binding;
    forall p, b | RotatedOnly(P, C, p, b) ensures p == binding.profile && b == binding.key {
      RotatedUnique(P, C, p, b, binding.profile, binding.key);
    }
    var before := ValidateGenerationLineageProjection(current, history.facts, current.number);
    if !before { return Err(Invalid); }
    var after := ValidateGenerationLineageProjection(candidate, history.facts, candidate.number);
    if !after { return Err(Invalid); }
    RotatedStaysActive(C, P, binding.profile, binding.key);
    var exact := ExactActiveBinding(candidate, binding.key);
    if exact.Err? || exact.value.1.id != binding.profile { return Err(Invalid); }
    var unused := UnusedIdentifiers(candidate, binding.profile, exact.value.2, history.facts);
    if !unused { return Err(Invalid); }
    assert RotationIntent(current, candidate, history, binding.profile, binding.key);
    result := Ok(binding);
  }

  // ---------------------------------------------------------------------------------------------
  // Retirement
  // ---------------------------------------------------------------------------------------------

  datatype RetirementTransition = RetirementTransition(predecessor: Number, current: Number, rotated: Rotated)

  /** No key of the successor holds a selector that the predecessor gave to another key. */
  ghost predicate NoSelectorMoves(P: View, C: View)
  {
    forall j, k :: j in P.slots && k in P.slots && j != k && k in C.slots ==> P.slots[j].selector != C.slots[k].selector
  }

  ghost predicate SelectorsApart(retiring: seq<LifecycleCredential>, active: seq<LifecycleCredential>)
  {
    forall c, d :: c in retiring && d in active ==> c.selector != d.selector
  }

  /** The rotation test compares keys algorithm by algorithm, so it separates retiring from active selectors exactly
      when no selector moved to another key. Only algorithms the predecessor already had can exchange selectors: an
      added key is always fresh. With one retiring key there is nothing to exchange. */
  lemma RetirementSeparates(P: View, C: View, p: Id, b: BindingKey, retiring: seq<LifecycleCredential>,
                            active: seq<LifecycleCredential>)
    requires ValidView(P) && ValidView(C) && RotatedOnly(P, C, p, b) && Projects(P, p, retiring)
    requires Projects(C, p, active)
    ensures SelectorsApart(retiring, active) <==> NoSelectorMoves(P, C)
    ensures |retiring| <= 1 ==> SelectorsApart(retiring, active)
  {
    hide ValidView, OnlyPolicy, Strictly, SelectorsApart, NoSelectorMoves;
    SeparatedByMoves(P, C, p, b, retiring, active);
    if SelectorsApart(retiring, active) { MovesSeparated(P, C, p, b, retiring, active); }
    if |retiring| <= 1 { OneKeyApart(P, C, p, b, retiring, active); }
  }

  lemma SeparatedByMoves(P: View, C: View, p: Id, b: BindingKey, retiring: seq<LifecycleCredential>,
                         active: seq<LifecycleCredential>)
    requires RotatedOnly(P, C, p, b) && Projects(P, p, retiring) && Projects(C, p, active)
    ensures NoSelectorMoves(P, C) ==> SelectorsApart(retiring, active)
  {
    hide OnlyPolicy, Strictly, SameAt;
    if NoSelectorMoves(P, C) {
      forall c, d | c in retiring && d in active ensures c.selector != d.selector {
        assert SlotKey(p, c.algorithm) in P.slots && SlotKey(p, d.algorithm) in C.slots;
        if SlotKey(p, d.algorithm) !in P.slots { assert FreshSlot(P, C.slots[SlotKey(p, d.algorithm)]); }
      }
    }
  }

  lemma MovesSeparated(P: View, C: View, p: Id, b: BindingKey, retiring: seq<LifecycleCredential>,
                       active: seq<LifecycleCredential>)
    requires ValidView(P) && ValidView(C) && RotatedOnly(P, C, p, b) && Projects(P, p, retiring)
    requires Projects(C, p, active)
    requires SelectorsApart(retiring, active)
    ensures NoSelectorMoves(P, C)
  {
    hide OnlyPolicy, Strictly, RenewedAt, HasSlot, PolicyFits;
    forall j, k | j in P.slots && k in P.slots && j != k && k in C.slots
      ensures P.slots[j].selector != C.slots[k].selector
    {
      assert SlotLinked(P, j) && SlotLinked(P, k);
      if k.profile != p {
        assert SameAt(P, C, k.profile) && k == SlotKey(k.profile, k.algorithm);
      } else if j.profile != p {
        assert SameAt(P, C, j.profile) && j == SlotKey(j.profile, j.algorithm);
      } else {
        assert j == SlotKey(p, j.algorithm) && k == SlotKey(p, k.algorithm);
        assert LifecycleCredential(P.slots[j].selector, j.algorithm, P.slots[j].publicSpki) in retiring;
        assert LifecycleCredential(C.slots[k].selector, k.algorithm, C.slots[k].publicSpki) in active;
      }
    }
  }

  lemma OneKeyApart(P: View, C: View, p: Id, b: BindingKey, retiring: seq<LifecycleCredential>,
                    active: seq<LifecycleCredential>)
    requires RotatedOnly(P, C, p, b) && Projects(P, p, retiring) && Projects(C, p, active) && |retiring| <= 1
    ensures SelectorsApart(retiring, active)
  {
    hide OnlyPolicy, Strictly, SameAt;
    forall c, d | c in retiring && d in active ensures c.selector != d.selector {
      var k := SlotKey(p, d.algorithm);
      if k in P.slots {
        assert LifecycleCredential(P.slots[k].selector, d.algorithm, P.slots[k].publicSpki) in retiring;
      } else {
        assert FreshSlot(P, C.slots[k]);
      }
    }
  }

  /** Retirement is planned exactly for committed neighbours that differ by one complete rotation; what may retire is
      the predecessor's projection of that binding and nothing else. */
  method PlanRetirement(current: Generation, predecessor: Generation) returns (result: Result<RetirementTransition>)
    requires Consistent(current) && Consistent(predecessor)
    ensures result.Ok? <==>
      && current.state == Committed && predecessor.state == Committed && current.number == predecessor.number + 1
      && exists p, b :: RotatedOnly(ViewOf(predecessor), ViewOf(current), p, b)
    ensures result.Ok? ==>
      var t := result.value;
      && t.predecessor == predecessor.number && t.current == current.number
      && RotatedOnly(ViewOf(predecessor), ViewOf(current), t.rotated.binding.profile, t.rotated.binding.key)
      && Projects(ViewOf(predecessor), t.rotated.binding.profile, t.rotated.retiring)
      && Projects(ViewOf(current), t.rotated.binding.profile, t.rotated.active)
      && (SelectorsApart(t.rotated.retiring, t.rotated.active) <==>
            NoSelectorMoves(ViewOf(predecessor), ViewOf(current)))
  {
    hide SelectorsApart, NoSelectorMoves, Projects, ValidView;
    hide Consistent, SlotTable, ProfileTable, PolicyTable, RotatedOnly;
    if current.state != Committed || predecessor.state != Committed || predecessor.number == MAX_NUMBER ||
       predecessor.number + 1 != current.number
    {
      return Err(Invalid);
    }
    var rotated := UniqueRotatedBinding(current, predecessor);
    if rotated.Err? { return Err(rotated.error); }
    ConsistentView(predecessor);
    ConsistentView(current);
    RetirementSeparates(ViewOf(predecessor), ViewOf(current), rotated.value.binding.profile, rotated.value.binding.key,
                        rotated.value.retiring, rotated.value.active);
    result := Ok(RetirementTransition(predecessor.number, current.number, rotated.value));
  }
}

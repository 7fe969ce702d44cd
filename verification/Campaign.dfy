/** Campaign successors: which bindings are active, which changed, and whether a stored successor is the requested
    extension. */
module Campaign {
  import opened Wrappers
  import opened Text
  import opened Order
  import opened Records
  import opened Generations
  import opened Snapshots
  import opened Rebasing
  import opened Bindings
  import opened Lifecycle

  ghost function ActiveSet(v: View): set<BindingKey> { set b | b in v.policies && v.policies[b].status == Active }

  /** `list` is the set in canonical binding order. */
  ghost predicate Lists(list: seq<BindingKey>, bindings: set<BindingKey>)
  {
    Strictly(list, BindingSortKey) && forall b :: b in list <==> b in bindings
  }

  lemma ListsUnique(s: seq<BindingKey>, t: seq<BindingKey>, bindings: set<BindingKey>)
    requires Lists(s, bindings) && Lists(t, bindings)
    ensures s == t
  {
    StrictIsUnique(s);
    StrictIsUnique(t);
    SameElementsSameSize(s, t);
    StrictOrderUnique(s, t, BindingSortKey);
  }

  lemma StrictIsUnique(s: seq<BindingKey>)
    requires Strictly(s, BindingSortKey)
    ensures Unique(s)
  {
    forall i, j | 0 <= i < j < |s| ensures s[i] != s[j] {
      KeyIrreflexive(BindingSortKey(s[i]));
    }
  }

  /** Sorting distinct bindings by their text key gives the canonical list. */
  method SortBindings(rows: seq<BindingKey>) returns (list: seq<BindingKey>)
    requires Unique(rows)
    ensures Lists(list, set b | b in rows) && |list| == |rows|
  {
    list := Sort(rows, BindingSortKey);
    PermutedUnique(list, rows);
    forall i, j | 0 <= i < j < |list| ensures BindingSortKey(list[i]) != BindingSortKey(list[j]) {
      if BindingSortKey(list[i]) == BindingSortKey(list[j]) { PolicyKeyInjective(list[i], list[j]); }
    }
    OrderedDistinctIsStrict(list, BindingSortKey);
  }

  lemma AppendUnique<T>(s: seq<T>, x: T)
    requires Unique(s) && x !in s
    ensures Unique(s + [x])
  {}

  lemma PoliciesDistinct(g: Generation, i: nat)
    requires Consistent(g) && i < |g.policies|
    ensures forall j :: 0 <= j < i ==> PolicyBinding(g.policies[j]) != PolicyBinding(g.policies[i])
    ensures g.policies[i].profileId in ViewOf(g).profiles
    ensures ViewOf(g).profiles[g.policies[i].profileId].domain == g.policies[i].domain
    ensures g.policies[i].status == Active ==> ViewOf(g).profiles[g.policies[i].profileId].status == Active
  {
    hide ValidHandles, ValidProfiles, ValidCredentials, ValidMaterials, PolicyLinked, ProfileTable, PolicyTable,
      SlotTable;
    PolicyOf(g, g.policies[i]);
    forall j | 0 <= j < i ensures PolicyBinding(g.policies[j]) != PolicyBinding(g.policies[i]) {
      assert g.policies[j] != g.policies[i];
    }
  }

  /** The active bindings among the first `i` policies, in policy order. */
  ghost predicate Gathered(g: Generation, i: nat, rows: seq<BindingKey>)
    requires i <= |g.policies|
  {
    && Unique(rows)
    && (forall b :: b in rows ==>
          exists j :: 0 <= j < i && g.policies[j].status == Active && PolicyBinding(g.policies[j]) == b)
    && (forall j :: 0 <= j < i && g.policies[j].status == Active ==> PolicyBinding(g.policies[j]) in rows)
  }

  ghost predicate AllNative(bindings: set<BindingKey>) { forall b :: b in bindings ==> Native(b.use) }

  lemma GatheredWithin(g: Generation, i: nat, rows: seq<BindingKey>)
    requires Consistent(g) && i <= |g.policies| && Gathered(g, i, rows)
    ensures (set b | b in rows) <= ActiveSet(ViewOf(g)) && |rows| <= |ActiveSet(ViewOf(g))|
    ensures i == |g.policies| ==> (set b | b in rows) == ActiveSet(ViewOf(g)) && |rows| == |ActiveSet(ViewOf(g))|
  {
    hide Consistent, ProfileTable, PolicyTable, SlotTable;
    forall b | b in rows ensures b in ActiveSet(ViewOf(g)) {
      var j :| 0 <= j < i && g.policies[j].status == Active && PolicyBinding(g.policies[j]) == b;
      PolicyIntro(g, g.policies[j]);
    }
    UniqueSize(rows);
    SubsetOfEqualSize((set b | b in rows), ActiveSet(ViewOf(g)));
    if i == |g.policies| {
      forall b | b in ActiveSet(ViewOf(g)) ensures b in rows {
        var q := PolicyElim(g, b);
        var j :| 0 <= j < |g.policies| && g.policies[j] == q;
      }
    }
  }

  /** The active bindings of a committed snapshot, in canonical order. */
  method ActiveBindings(g: Generation, maximum: int) returns (result: Result<seq<BindingKey>>)
    requires Consistent(g)
    ensures result.Ok? <==>
      g.state == Committed && AllNative(ActiveSet(ViewOf(g))) && 0 < |ActiveSet(ViewOf(g))| <= maximum
    ensures result.Ok? ==> Lists(result.value, ActiveSet(ViewOf(g))) && |result.value| == |ActiveSet(ViewOf(g))|
  {
    hide Consistent, ProfileTable, PolicyTable, SlotTable, ActiveSet, PolicyKey;
    if g.state != Committed || maximum <= 0 { return Err(Invalid); }
    var rows: seq<BindingKey> := [];
    var seen: set<string> := {};
    for i := 0 to |g.policies|
      invariant Gathered(g, i, rows) && |rows| <= maximum
      invariant seen == set b | b in rows :: PolicyKey(b)
      invariant forall b :: b in rows ==> Native(b.use)
    {
      var q := g.policies[i];
      PoliciesDistinct(g, i);
      if q.status == Active {
        var profile := ProfileById(g, q.profileId);
        GatheredStep(g, i, rows);
        GatheredWithin(g, i + 1, rows + [PolicyBinding(q)]);
        assert PolicyBinding(q) in rows + [PolicyBinding(q)];
        if profile.None? || profile.value.status != Active || profile.value.domain != q.domain || !Native(q.use) {
          assert PolicyBinding(q) in ActiveSet(ViewOf(g));
          return Err(Invalid);
        }
        var identity := PolicyKey(PolicyBinding(q));
        if identity in seen {
          // distinct policies never collide on their text identity
          ghost var b :| b in rows && PolicyKey(b) == identity;
          PolicyKeyInjective(b, PolicyBinding(q));
          assert false;
        }
        seen := seen + {identity};
        rows := rows + [PolicyBinding(q)];
        if |rows| > maximum { return Err(Invalid); }
      }
    }
    GatheredWithin(g, |g.policies|, rows);
    if |rows| == 0 { return Err(Invalid); }
    var list := SortBindings(rows);
    result := Ok(list);
  }

  lemma GatheredStep(g: Generation, i: nat, rows: seq<BindingKey>)
    requires i < |g.policies| && Gathered(g, i, rows) && g.policies[i].status == Active
    requires forall j :: 0 <= j < i ==> PolicyBinding(g.policies[j]) != PolicyBinding(g.policies[i])
    ensures PolicyBinding(g.policies[i]) !in rows && Gathered(g, i + 1, rows + [PolicyBinding(g.policies[i])])
  {
    AppendUnique(rows, PolicyBinding(g.policies[i]));
    var after := rows + [PolicyBinding(g.policies[i])];
    forall b | b in after
      ensures exists j :: 0 <= j < i + 1 && g.policies[j].status == Active && PolicyBinding(g.policies[j]) == b
    {
      if b in rows {
        var j :| 0 <= j < i && g.policies[j].status == Active && PolicyBinding(g.policies[j]) == b;
        assert 0 <= j < i + 1;
      } else {
        assert 0 <= i < i + 1 && PolicyBinding(g.policies[i]) == b;
      }
    }
  }

  // ---------------------------------------------------------------------------------------------
  // Changed bindings
  // ---------------------------------------------------------------------------------------------

  /** Every algorithm of `p` survives, added keys are fresh, and no new key shares anything with any old one. */
  ghost predicate ReplacedAt(S: View, C: View, p: Id)
  {
    && AddedFresh(S, C, p)
    && (forall a: Algorithm {:trigger SlotKey(p, a)} :: SlotKey(p, a) in S.slots ==> SlotKey(p, a) in C.slots)
    && CrossReplaced(S, C, p)
  }

  ghost predicate CrossReplaced(S: View, C: View, p: Id)
  {
    forall a: Algorithm, b: Algorithm {:trigger SlotKey(p, a), SlotKey(p, b)} ::
      SlotKey(p, a) in S.slots && SlotKey(p, b) in C.slots ==>
        ReplacedSlot(S.slots[SlotKey(p, a)], C.slots[SlotKey(p, b)])
  }

  /** The binding whose replacement the change of profile `p` stands for. */
  ghost predicate Rebound(S: View, C: View, p: Id, b: BindingKey)
  {
    && OnlyPolicy(S, p, b) && S.policies[b].status == Active && Native(b.use)
    && p in S.profiles && S.profiles[p].status == Active
    && ReplacedAt(S, C, p)
  }

  ghost predicate ProfileFits(S: View, C: View, p: Id) { SameAt(S, C, p) || exists b :: Rebound(S, C, p, b) }

  ghost function ChangedSet(S: View, C: View): set<BindingKey>
  {
    set b | b in S.policies && Rebound(S, C, S.policies[b].profile, b)
  }

  /** A complete campaign successor: every profile is untouched or completely replaced. */
  ghost predicate CampaignChange(S: View, C: View)
  {
    && S.profiles == C.profiles && S.policies == C.policies
    && forall p {:trigger ProfileFits(S, C, p)} :: p in S.profiles ==> ProfileFits(S, C, p)
  }

  function AlgorithmTextKey(c: Credential): Key { Key(AlgorithmName(c.algorithm), 0, "") }

  lemma SortedByAlgorithm(s: seq<Credential>, t: seq<Credential>)
    requires forall i, j :: 0 <= i < j < |s| ==> s[i].algorithm != s[j].algorithm
    requires multiset(t) == multiset(s) && Ordered(t, AlgorithmTextKey)
    ensures Strictly(t, AlgorithmTextKey)
    ensures |t| == |s| && (forall c :: c in t <==> c in s)
    ensures forall i, j :: 0 <= i < j < |t| ==> t[i].algorithm != t[j].algorithm
  {
    assert Unique(s);
    PermutedUnique(t, s);
    forall i, j | 0 <= i < j < |t|
      ensures AlgorithmTextKey(t[i]) != AlgorithmTextKey(t[j]) && t[i].algorithm != t[j].algorithm
    {
      assert t[i] in s && t[j] in s && t[i] != t[j];
      var m, n :| 0 <= m < |s| && s[m] == t[i] && 0 <= n < |s| && s[n] == t[j];
      if AlgorithmName(t[i].algorithm) == AlgorithmName(t[j].algorithm) {
        AlgorithmNameInjective(t[i].algorithm, t[j].algorithm);
      }
    }
    OrderedDistinctIsStrict(t, AlgorithmTextKey);
  }

  function AlgorithmsInOrder(s: seq<Credential>): seq<Algorithm> { seq(|s|, i requires 0 <= i < |s| => s[i].algorithm) }

  function NameKey(a: Algorithm): Key { Key(AlgorithmName(a), 0, "") }

  /** Two sorted credential lists with the same algorithm set agree algorithm by algorithm. */
  lemma AlignedAlgorithms(s: seq<Credential>, t: seq<Credential>)
    requires Strictly(s, AlgorithmTextKey) && Strictly(t, AlgorithmTextKey) && |s| == |t|
    requires Algorithms(s) == Algorithms(t)
    ensures forall i :: 0 <= i < |s| ==> s[i].algorithm == t[i].algorithm
  {
    var x, y := AlgorithmsInOrder(s), AlgorithmsInOrder(t);
    forall a ensures a in x <==> a in Algorithms(s) { AlgorithmMember(s, a); }
    forall a ensures a in y <==> a in Algorithms(t) { AlgorithmMember(t, a); }
    StrictOrderUnique(x, y, NameKey);
    assert forall i :: 0 <= i < |s| ==> x[i] == s[i].algorithm && y[i] == t[i].algorithm;
  }

  lemma AlgorithmMember(s: seq<Credential>, a: Algorithm)
    ensures a in AlgorithmsInOrder(s) <==> a in Algorithms(s)
  {
    if a in AlgorithmsInOrder(s) {
      var i :| 0 <= i < |s| && AlgorithmsInOrder(s)[i] == a;
      assert s[i] in s;
    }
    if a in Algorithms(s) {
      var c :| c in s && c.algorithm == a;
      var i :| 0 <= i < |s| && s[i] == c;
      assert AlgorithmsInOrder(s)[i] == a;
    }
  }

  /** Same number of keys: the exact algorithm set must be kept, and all keys are compared. */
  method SameCardinality(S: Generation, C: Generation, p: Id, olds: seq<Credential>, news: seq<Credential>)
      returns (result: Result<bool>)
    requires Consistent(S) && Consistent(C) && Owns(S, p, olds) && Owns(C, p, news) && |olds| == |news|
    requires Strictly(olds, AlgorithmTextKey) && Strictly(news, AlgorithmTextKey)
    ensures result.Ok? <==> Algorithms(olds) == Algorithms(news)
    ensures result.Ok? ==> (result.value <==> SameAt(ViewOf(S), ViewOf(C), p))
  {
    hide Consistent, SlotTable, ProfileTable, PolicyTable, SameAt, Algorithms, ReplacedSlot, Strictly, EqualOn, Owns;
    OwnsSlots(S, p, olds);
    OwnsSlots(C, p, news);
    if Algorithms(olds) == Algorithms(news) { AlignedAlgorithms(olds, news); }
    var same := true;
    EqualOnNothing(ViewOf(S), ViewOf(C), p, olds);
    for i := 0 to |olds|
      invariant forall j :: 0 <= j < i ==> olds[j].algorithm == news[j].algorithm
      invariant same <==> EqualOn(ViewOf(S), ViewOf(C), p, Algorithms(olds[..i]))
    {
      OwnedAt(S, p, olds, i);
      OwnedAt(C, p, news, i);
      if olds[i].algorithm != news[i].algorithm { return Err(Invalid); }
      var equal := CompareOne(S, C, p, olds[i], news[i]);
      EqualOnStep(ViewOf(S), ViewOf(C), p, olds, i);
      if !equal { same := false; }
    }
    assert olds[..|olds|] == olds;
    AlignedSets(olds, news);
    if same { AllEqual(ViewOf(S), ViewOf(C), p, Algorithms(olds), Algorithms(news)); }
    if SameAt(ViewOf(S), ViewOf(C), p) { SameIsEqualOn(ViewOf(S), ViewOf(C), p, Algorithms(olds)); }
    result := Ok(same);
  }

  lemma OwnedAt(g: Generation, p: Id, credentials: seq<Credential>, i: nat)
    requires Owns(g, p, credentials) && i < |credentials|
    ensures credentials[i] in g.credentials && credentials[i].profileId == p
  {
    assert credentials[i] in credentials;
  }

  method CompareOne(S: Generation, C: Generation, ghost p: Id, o: Credential, n: Credential) returns (equal: bool)
    requires Consistent(S) && Consistent(C) && o in S.credentials && n in C.credentials
    requires o.profileId == p == n.profileId && o.algorithm == n.algorithm
    ensures equal <==> EqualOn(ViewOf(S), ViewOf(C), p, {o.algorithm})
  {
    hide Consistent, SlotTable, ProfileTable, PolicyTable;
    var replaced;
    equal, replaced := CompareSlot(S, C, o, n);
    EqualOnOne(ViewOf(S), ViewOf(C), p, o.algorithm);
  }

  lemma EqualOnNothing(S: View, C: View, p: Id, s: seq<Credential>)
    ensures EqualOn(S, C, p, Algorithms(s[..0]))
  {}

  lemma EqualOnStep(S: View, C: View, p: Id, s: seq<Credential>, i: nat)
    requires i < |s|
    ensures EqualOn(S, C, p, Algorithms(s[..i + 1])) <==>
      EqualOn(S, C, p, Algorithms(s[..i])) && EqualOn(S, C, p, {s[i].algorithm})
  {
    assert s[..i + 1] == s[..i] + [s[i]];
    assert Algorithms(s[..i + 1]) == Algorithms(s[..i]) + {s[i].algorithm};
  }

  lemma EqualOnOne(S: View, C: View, p: Id, a: Algorithm)
    ensures EqualOn(S, C, p, {a}) <==>
      SlotKey(p, a) in S.slots && SlotKey(p, a) in C.slots && S.slots[SlotKey(p, a)] == C.slots[SlotKey(p, a)]
  {}

  lemma AlignedSets(s: seq<Credential>, t: seq<Credential>)
    requires |s| == |t| && forall i :: 0 <= i < |s| ==> s[i].algorithm == t[i].algorithm
    ensures Algorithms(s) == Algorithms(t)
  {
    forall a ensures a in Algorithms(s) <==> a in Algorithms(t) {
      AlgorithmMember(s, a);
      AlgorithmMember(t, a);
      assert AlgorithmsInOrder(s) == AlgorithmsInOrder(t);
    }
  }

  lemma SameIsEqualOn(S: View, C: View, p: Id, part: set<Algorithm>)
    requires SameAt(S, C, p) && forall a :: a in part ==> SlotKey(p, a) in S.slots
    ensures EqualOn(S, C, p, part)
  {}

  lemma SetsByAlgorithm(g: Generation, p: Id, credentials: seq<Credential>, m: map<Algorithm, Credential>)
    requires Consistent(g) && Owns(g, p, credentials) && ByAlgorithm(g, p, m)
    ensures Algorithms(credentials) == m.Keys && |m| == |credentials|
  {
    hide Consistent, SlotTable;
    OwnsSlots(g, p, credentials);
    assert Algorithms(credentials) == m.Keys;
  }

  /** Classifies one profile of a campaign successor: Ok(true) untouched, Ok(false) possibly replaced. */
  method CampaignProfileUnchanged(S: Generation, C: Generation, p: Id, olds: seq<Credential>, news: seq<Credential>)
      returns (result: Result<bool>)
    requires Consistent(S) && Consistent(C) && Owns(S, p, olds) && Owns(C, p, news) && olds != []
    ensures result == Ok(true) <==> SameAt(ViewOf(S), ViewOf(C), p)
    ensures result.Ok? ==> Algorithms(olds) <= Algorithms(news) && AddedFresh(ViewOf(S), ViewOf(C), p)
    ensures Algorithms(olds) <= Algorithms(news) && AddedFresh(ViewOf(S), ViewOf(C), p) ==>
      (exists b :: BoundTo(ViewOf(S), ViewOf(C), p, b)) ==> result.Ok?
  {
    hide Consistent, SlotTable, ProfileTable, PolicyTable, SameAt, AddedFresh, BoundTo, Owns, Algorithms;
    OwnedSizes(S, C, p, olds, news);
    if |news| < |olds| || |news| > MAX_CREDENTIALS_PER_PROFILE { return Err(Invalid); }
    var before := Sort(olds, AlgorithmTextKey);
    var after := Sort(news, AlgorithmTextKey);
    SortedOwned(S, p, olds, before);
    SortedOwned(C, p, news, after);
    if |news| == |olds| {
      result := SameCardinality(S, C, p, before, after);
      if Algorithms(olds) <= Algorithms(news) { SubsetOfEqualSize(Algorithms(olds), Algorithms(news)); }
      NothingAdded(S, C, p, olds, news);
      return;
    }
    var olderMap := CredentialsByAlgorithm(S, p);
    var newerMap := CredentialsByAlgorithm(C, p);
    SetsByAlgorithm(S, p, olds, olderMap);
    SetsByAlgorithm(C, p, news, newerMap);
    if !(olderMap.Keys <= newerMap.Keys) { return Err(Invalid); }
    var fits := ValidateExtendedCredentials(S, C, p, olderMap, newerMap);
    if !fits { return Err(Invalid); }
    result := Ok(false);
  }

  lemma OwnedSizes(S: Generation, C: Generation, p: Id, olds: seq<Credential>, news: seq<Credential>)
    requires Consistent(S) && Consistent(C) && Owns(S, p, olds) && Owns(C, p, news)
    ensures |Algorithms(olds)| == |olds| && |Algorithms(news)| == |news| <= MAX_CREDENTIALS_PER_PROFILE
    ensures SameAt(ViewOf(S), ViewOf(C), p) ==> Algorithms(olds) == Algorithms(news)
    ensures Algorithms(olds) <= Algorithms(news) ==> |olds| <= |news|
  {
    hide Consistent, SlotTable, ProfileTable, PolicyTable;
    OwnsSlots(S, p, olds);
    OwnsSlots(C, p, news);
    AlgorithmSetBound(Algorithms(news));
    if Algorithms(olds) <= Algorithms(news) { SubsetOfEqualSize(Algorithms(olds), Algorithms(news)); }
  }

  lemma SortedOwned(g: Generation, p: Id, s: seq<Credential>, t: seq<Credential>)
    requires Owns(g, p, s) && multiset(t) == multiset(s) && Ordered(t, AlgorithmTextKey)
    ensures Owns(g, p, t) && Strictly(t, AlgorithmTextKey) && |t| == |s| && Algorithms(t) == Algorithms(s)
  {
    SortedByAlgorithm(s, t);
  }

  lemma NothingAdded(S: Generation, C: Generation, p: Id, olds: seq<Credential>, news: seq<Credential>)
    requires Consistent(S) && Consistent(C) && Owns(S, p, olds) && Owns(C, p, news)
    ensures Algorithms(olds) == Algorithms(news) ==> AddedFresh(ViewOf(S), ViewOf(C), p)
  {
    hide Consistent, SlotTable, ProfileTable, PolicyTable;
    OwnsSlots(S, p, olds);
    OwnsSlots(C, p, news);
  }

  /** No old key of the profile shares selector, handle or public key with any new one. */
  method CrossCheck(S: Generation, C: Generation, p: Id, olds: seq<Credential>, news: seq<Credential>)
      returns (ok: bool)
    requires Consistent(S) && Consistent(C) && Owns(S, p, olds) && Owns(C, p, news)
    ensures ok <==> CrossReplaced(ViewOf(S), ViewOf(C), p)
  {
    hide Consistent, SlotTable, ProfileTable, PolicyTable;
    for i := 0 to |olds|
      invariant forall c, d :: c in olds[..i] && d in news ==> ReplacedKeys(c, d)
    {
      assert olds[..i + 1] == olds[..i] + [olds[i]];
      for j := 0 to |news|
        invariant forall d :: d in news[..j] ==> ReplacedKeys(olds[i], d)
      {
        assert news[..j + 1] == news[..j] + [news[j]];
        if !ReplacedKeys(olds[i], news[j]) {
          CrossInstance(S, C, p, olds[i], news[j]);
          return false;
        }
      }
      assert news[..|news|] == news;
    }
    assert olds[..|olds|] == olds;
    forall a: Algorithm, b: Algorithm | SlotKey(p, a) in ViewOf(S).slots && SlotKey(p, b) in ViewOf(C).slots
      ensures ReplacedSlot(ViewOf(S).slots[SlotKey(p, a)], ViewOf(C).slots[SlotKey(p, b)])
    {
      var c, m := SlotElim(S, SlotKey(p, a));
      var d, n := SlotElim(C, SlotKey(p, b));
      assert ReplacedKeys(c, d);
    }
    ok := true;
  }

  predicate ReplacedKeys(c: Credential, d: Credential)
  {
    c.selector != d.selector && c.handleId != d.handleId && c.publicSpki != d.publicSpki
  }

  lemma CrossInstance(S: Generation, C: Generation, p: Id, c: Credential, d: Credential)
    requires Consistent(S) && Consistent(C) && c in S.credentials && d in C.credentials
    requires c.profileId == p == d.profileId
    ensures CrossReplaced(ViewOf(S), ViewOf(C), p) ==> ReplacedKeys(c, d)
  {
    hide Consistent, SlotTable, ProfileTable, PolicyTable;
    var m := CredentialHasSlot(S, c);
    var n := CredentialHasSlot(C, d);
    assert CredentialSlot(c) == SlotKey(p, c.algorithm) && CredentialSlot(d) == SlotKey(p, d.algorithm);
  }

  lemma ReplacedIsChange(S: View, C: View, p: Id)
    requires ReplacedAt(S, C, p) && HasSlot(S, p)
    ensures !SameAt(S, C, p)
  {
    var a :| SlotKey(p, a) in S.slots;
  }

  /** What one profile of the comparison yields: nothing, its changed binding, or a rejection. */
  method ChangedProfile(S: Generation, C: Generation, profile: Profile) returns (result: Result<Option<BindingKey>>)
    requires Consistent(S) && Consistent(C) && profile in S.profiles
    requires ViewOf(S).profiles == ViewOf(C).profiles && ViewOf(S).policies == ViewOf(C).policies
    ensures result.Ok? <==> ProfileFits(ViewOf(S), ViewOf(C), profile.id)
    ensures result.Ok? && result.value.None? ==> SameAt(ViewOf(S), ViewOf(C), profile.id)
    ensures result.Ok? && result.value.Some? ==> Rebound(ViewOf(S), ViewOf(C), profile.id, result.value.value)
  {
    hide Consistent, SlotTable, ProfileTable, PolicyTable, SameAt, AddedFresh, BoundTo, Algorithms, CrossReplaced,
      ValidView, OnlyPolicy;
    var p := profile.id;
    ProfileIntro(S, profile);
    ConsistentView(S);
    ConsistentView(C);
    var olds := CredentialsForProfile(S, p);
    var news := CredentialsForProfile(C, p);
    OldsInNews(S, C, p, olds, news);
    var same := CampaignProfileUnchanged(S, C, p, olds, news);
    ReboundFacts(S, C, p);
    if same.Err? { return Err(Invalid); }
    if same.value { return Ok(None); }
    var policy := ExclusivePolicyForProfile(S, p);
    if policy.None? || policy.value.status != Active || profile.status != Active || !Native(policy.value.use) {
      NoRebound(S, C, profile, policy);
      return Err(Invalid);
    }
    PolicyOf(S, policy.value);
    var crossed := CrossCheck(S, C, p, olds, news);
    if !crossed { return Err(Invalid); }
    assert Rebound(ViewOf(S), ViewOf(C), p, PolicyBinding(policy.value));
    result := Ok(Some(PolicyBinding(policy.value)));
  }

  lemma OldsInNews(S: Generation, C: Generation, p: Id, olds: seq<Credential>, news: seq<Credential>)
    requires Consistent(S) && Consistent(C) && Owns(S, p, olds) && Owns(C, p, news)
    ensures Algorithms(olds) <= Algorithms(news) <==>
      forall a: Algorithm {:trigger SlotKey(p, a)} :: SlotKey(p, a) in ViewOf(S).slots ==>
        SlotKey(p, a) in ViewOf(C).slots
  {
    hide Consistent, SlotTable, ProfileTable, PolicyTable, Algorithms;
    OwnsSlots(S, p, olds);
    OwnsSlots(C, p, news);
    if forall a: Algorithm {:trigger SlotKey(p, a)} :: SlotKey(p, a) in ViewOf(S).slots ==>
        SlotKey(p, a) in ViewOf(C).slots {
      forall a | a in Algorithms(olds) ensures a in Algorithms(news) {
        assert SlotKey(p, a) in ViewOf(S).slots;
      }
    }
  }

  lemma ReboundFacts(S: Generation, C: Generation, p: Id)
    requires Consistent(S) && Consistent(C) && ViewOf(S).policies == ViewOf(C).policies && p in ViewOf(S).profiles
    ensures forall b :: Rebound(ViewOf(S), ViewOf(C), p, b) ==>
      BoundTo(ViewOf(S), ViewOf(C), p, b) && !SameAt(ViewOf(S), ViewOf(C), p)
  {
    hide Consistent, SlotTable, ProfileTable, PolicyTable, SameAt, AddedFresh, CrossReplaced;
    ConsistentView(S);
    ConsistentView(C);
    forall b | Rebound(ViewOf(S), ViewOf(C), p, b)
      ensures BoundTo(ViewOf(S), ViewOf(C), p, b) && !SameAt(ViewOf(S), ViewOf(C), p)
    {
      assert HasSlot(ViewOf(S), p);
      ReplacedIsChange(ViewOf(S), ViewOf(C), p);
      forall a: Algorithm | SlotKey(p, a) in ViewOf(S).slots ensures ViewOf(S).slots[SlotKey(p, a)].binding == b {
        SoleBinding(ViewOf(S), p, b, SlotKey(p, a));
      }
      forall a: Algorithm | SlotKey(p, a) in ViewOf(C).slots ensures ViewOf(C).slots[SlotKey(p, a)].binding == b {
        SoleBinding(ViewOf(C), p, b, SlotKey(p, a));
      }
    }
  }

  lemma NoRebound(S: Generation, C: Generation, profile: Profile, policy: Option<Policy>)
    requires Consistent(S) && Consistent(C) && profile in S.profiles
    requires policy.Some? <==> HasOnlyPolicy(ViewOf(S), profile.id)
    requires policy.Some? ==>
      policy.value in S.policies && OnlyPolicy(ViewOf(S), profile.id, PolicyBinding(policy.value))
    requires policy.None? || policy.value.status != Active || profile.status != Active || !Native(policy.value.use)
    ensures forall b :: !Rebound(ViewOf(S), ViewOf(C), profile.id, b)
  {
    hide Consistent, SlotTable, ProfileTable, PolicyTable, ReplacedAt;
    ProfileIntro(S, profile);
    if b :| Rebound(ViewOf(S), ViewOf(C), profile.id, b) {
      assert OnlyPolicy(ViewOf(S), profile.id, b);
      PolicyOf(S, policy.value);
    }
  }

  /** Canonical order makes comparing records position by position the same as comparing the tables. */
  ghost predicate AlignedProfiles(a: Generation, b: Generation)
  {
    && |a.profiles| == |b.profiles|
    && forall i :: 0 <= i < |a.profiles| ==> RebaseProfile(a.profiles[i], 0) == RebaseProfile(b.profiles[i], 0)
  }

  ghost predicate AlignedPolicies(a: Generation, b: Generation)
  {
    && |a.policies| == |b.policies|
    && forall i :: 0 <= i < |a.policies| ==> RebasePolicy(a.policies[i], 0) == RebasePolicy(b.policies[i], 0)
  }

  lemma AlignedProfilesAgree(a: Generation, b: Generation)
    requires Valid(a) && Valid(b) && AlignedProfiles(a, b)
    ensures ProfileTable(a) == ProfileTable(b)
  {
    hide Consistent, ProfileTable, Canonical;
    forall p | p in a.profiles ensures p.id in ProfileTable(b) && ProfileTable(b)[p.id] == FactsOfProfile(p) {
      var i :| 0 <= i < |a.profiles| && a.profiles[i] == p;
      ProfileIntro(b, b.profiles[i]);
    }
    forall id | id in ProfileTable(b) ensures exists p :: p in a.profiles && p.id == id {
      var p := ProfileElim(b, id);
      var i :| 0 <= i < |b.profiles| && b.profiles[i] == p;
      assert a.profiles[i] in a.profiles;
    }
    ProfileTableIs(a, ProfileTable(b));
  }

  lemma AgreeingProfilesAlign(a: Generation, b: Generation)
    requires Valid(a) && Valid(b) && ProfileTable(a) == ProfileTable(b)
    ensures AlignedProfiles(a, b)
  {
    hide Consistent, ProfileTable, AlignedProfiles;
    var x, y := RebaseProfiles(a.profiles, 0), RebaseProfiles(b.profiles, 0);
    TableSizes(a);
    TableSizes(b);
    RebasedTableMembers(a, b);
    RebasedTableMembers(b, a);
    StrictOrderUnique(x, y, ProfileKey);
    ProfilesByPosition(a, b);
  }

  lemma ProfilesByPosition(a: Generation, b: Generation)
    requires RebaseProfiles(a.profiles, 0) == RebaseProfiles(b.profiles, 0)
    ensures AlignedProfiles(a, b)
  {
    var x, y := RebaseProfiles(a.profiles, 0), RebaseProfiles(b.profiles, 0);
    assert forall i :: 0 <= i < |x| ==>
      x[i] == RebaseProfile(a.profiles[i], 0) && y[i] == RebaseProfile(b.profiles[i], 0);
  }

  lemma ProfilesAlign(a: Generation, b: Generation)
    requires Valid(a) && Valid(b)
    ensures AlignedProfiles(a, b) <==> ProfileTable(a) == ProfileTable(b)
  {
    hide Consistent, Canonical, ProfileTable, AlignedProfiles;
    if AlignedProfiles(a, b) { AlignedProfilesAgree(a, b); }
    if ProfileTable(a) == ProfileTable(b) { AgreeingProfilesAlign(a, b); }
  }

  lemma RebasedTableMembers(a: Generation, b: Generation)
    requires Consistent(a) && Consistent(b) && ProfileTable(a) == ProfileTable(b)
    ensures forall p :: p in RebaseProfiles(a.profiles, 0) ==> p in RebaseProfiles(b.profiles, 0)
  {
    hide Consistent, ProfileTable;
    RebasedProfiles(b.profiles, 0);
    forall p | p in RebaseProfiles(a.profiles, 0) ensures p in RebaseProfiles(b.profiles, 0) {
      var i :| 0 <= i < |a.profiles| && RebaseProfiles(a.profiles, 0)[i] == p;
      ProfileIntro(a, a.profiles[i]);
      var q := ProfileElim(b, a.profiles[i].id);
      assert RebaseProfile(q, 0) == p;
    }
  }

  lemma AlignedPoliciesAgree(a: Generation, b: Generation)
    requires Valid(a) && Valid(b) && AlignedPolicies(a, b)
    ensures PolicyTable(a) == PolicyTable(b)
  {
    hide Consistent, PolicyTable, PolicyKey, Canonical;
    forall q | q in a.policies
      ensures PolicyBinding(q) in PolicyTable(b) && PolicyTable(b)[PolicyBinding(q)] == FactsOfPolicy(q)
    {
      var i :| 0 <= i < |a.policies| && a.policies[i] == q;
      PolicyIntro(b, b.policies[i]);
    }
    forall x | x in PolicyTable(b) ensures exists q :: q in a.policies && PolicyBinding(q) == x {
      var q := PolicyElim(b, x);
      var i :| 0 <= i < |b.policies| && b.policies[i] == q;
      assert a.policies[i] in a.policies;
    }
    PolicyTableIs(a, PolicyTable(b));
  }

  lemma AgreeingPoliciesAlign(a: Generation, b: Generation)
    requires Valid(a) && Valid(b) && PolicyTable(a) == PolicyTable(b)
    ensures AlignedPolicies(a, b)
  {
    hide Consistent, PolicyTable, PolicyKey, AlignedPolicies;
    var x, y := RebasePolicies(a.policies, 0), RebasePolicies(b.policies, 0);
    TableSizes(a);
    TableSizes(b);
    RebasedPolicyMembers(a, b);
    RebasedPolicyMembers(b, a);
    StrictOrderUnique(x, y, PolicySortKey);
    PoliciesByPosition(a, b);
  }

  lemma PoliciesByPosition(a: Generation, b: Generation)
    requires RebasePolicies(a.policies, 0) == RebasePolicies(b.policies, 0)
    ensures AlignedPolicies(a, b)
  {
    var x, y := RebasePolicies(a.policies, 0), RebasePolicies(b.policies, 0);
    assert forall i :: 0 <= i < |x| ==>
      x[i] == RebasePolicy(a.policies[i], 0) && y[i] == RebasePolicy(b.policies[i], 0);
  }

  lemma PoliciesAlign(a: Generation, b: Generation)
    requires Valid(a) && Valid(b)
    ensures AlignedPolicies(a, b) <==> PolicyTable(a) == PolicyTable(b)
  {
    hide Consistent, Canonical, PolicyTable, AlignedPolicies;
    if AlignedPolicies(a, b) { AlignedPoliciesAgree(a, b); }
    if PolicyTable(a) == PolicyTable(b) { AgreeingPoliciesAlign(a, b); }
  }

  lemma RebasedPolicyMembers(a: Generation, b: Generation)
    requires Consistent(a) && Consistent(b) && PolicyTable(a) == PolicyTable(b)
    ensures forall q :: q in RebasePolicies(a.policies, 0) ==> q in RebasePolicies(b.policies, 0)
  {
    hide Consistent, PolicyTable, PolicyKey;
    RebasedPolicies(b.policies, 0);
    forall q | q in RebasePolicies(a.policies, 0) ensures q in RebasePolicies(b.policies, 0) {
      var i :| 0 <= i < |a.policies| && RebasePolicies(a.policies, 0)[i] == q;
      PolicyIntro(a, a.policies[i]);
      var r := PolicyElim(b, PolicyBinding(a.policies[i]));
      assert RebasePolicy(r, 0) == q;
    }
  }

  /** Positional comparison of profiles and policies. */
  method SameFactsInOrder(a: Generation, b: Generation) returns (same: bool)
    requires Valid(a) && Valid(b)
    ensures same <==> ViewOf(a).profiles == ViewOf(b).profiles && ViewOf(a).policies == ViewOf(b).policies
  {
    hide Consistent, ProfileTable, PolicyTable, SlotTable, Canonical;
    ProfilesAlign(a, b);
    PoliciesAlign(a, b);
    if |a.profiles| != |b.profiles| || |a.policies| != |b.policies| { return false; }
    for i := 0 to |a.profiles|
      invariant forall j :: 0 <= j < i ==> RebaseProfile(a.profiles[j], 0) == RebaseProfile(b.profiles[j], 0)
    {
      if a.profiles[i].id != b.profiles[i].id || FactsOfProfile(a.profiles[i]) != FactsOfProfile(b.profiles[i]) {
        return false;
      }
    }
    for i := 0 to |a.policies|
      invariant forall j :: 0 <= j < i ==> RebasePolicy(a.policies[j], 0) == RebasePolicy(b.policies[j], 0)
    {
      if PolicyBinding(a.policies[i]) != PolicyBinding(b.policies[i]) ||
         FactsOfPolicy(a.policies[i]) != FactsOfPolicy(b.policies[i])
      {
        return false;
      }
    }
    same := true;
  }

  /** The changed bindings among the first `i` source profiles. */
  ghost predicate ChangedUpTo(g: Generation, S: View, C: View, i: nat, rows: seq<BindingKey>)
    requires i <= |g.profiles|
  {
    && Unique(rows)
    && (forall b {:trigger FromProfile(g, S, i, b)} {:trigger b in ChangedSet(S, C)} :: b in rows ==>
          b in ChangedSet(S, C) && FromProfile(g, S, i, b))
    && (forall j {:trigger g.profiles[j]} :: 0 <= j < i ==> Accounted(S, C, g.profiles[j].id, rows))
  }

  /** Row `b` stems from one of the first `i` profiles. */
  ghost predicate FromProfile(g: Generation, S: View, i: nat, b: BindingKey)
    requires i <= |g.profiles|
  {
    b in S.policies && exists j :: 0 <= j < i && g.profiles[j].id == S.policies[b].profile
  }

  ghost predicate Accounted(S: View, C: View, p: Id, rows: seq<BindingKey>)
  {
    SameAt(S, C, p) || exists b :: b in rows && b in S.policies && S.policies[b].profile == p
  }

  lemma ChangedStep(g: Generation, S: View, C: View, i: nat, rows: seq<BindingKey>, next: Option<BindingKey>)
    requires Consistent(g) && i < |g.profiles| && ChangedUpTo(g, S, C, i, rows)
    requires next.None? ==> SameAt(S, C, g.profiles[i].id)
    requires next.Some? ==> Rebound(S, C, g.profiles[i].id, next.value)
    ensures ChangedUpTo(g, S, C, i + 1, if next.None? then rows else rows + [next.value])
  {
    hide Consistent, SameAt, ReplacedAt, OnlyPolicy, ChangedSet;
    var after := if next.None? then rows else rows + [next.value];
    forall b | b in rows ensures FromProfile(g, S, i + 1, b) {
      assert FromProfile(g, S, i, b);
      var j :| 0 <= j < i && g.profiles[j].id == S.policies[b].profile;
      assert 0 <= j < i + 1;
    }
    forall j {:trigger g.profiles[j]} | 0 <= j < i ensures Accounted(S, C, g.profiles[j].id, after) {
      assert Accounted(S, C, g.profiles[j].id, rows);
      if !SameAt(S, C, g.profiles[j].id) {
        var b :| b in rows && b in S.policies && S.policies[b].profile == g.profiles[j].id;
        assert b in after;
      }
    }
    if next.Some? {
      ReboundRow(g, S, C, i, rows, next.value);
      AppendUnique(rows, next.value);
      assert next.value in after && next.value in S.policies && S.policies[next.value].profile == g.profiles[i].id;
    }
    assert Accounted(S, C, g.profiles[i].id, after);
  }

  lemma ReboundRow(g: Generation, S: View, C: View, i: nat, rows: seq<BindingKey>, next: BindingKey)
    requires Consistent(g) && i < |g.profiles| && ChangedUpTo(g, S, C, i, rows) && Rebound(S, C, g.profiles[i].id, next)
    ensures next !in rows && next in ChangedSet(S, C) && FromProfile(g, S, i + 1, next)
    ensures next in S.policies && S.policies[next].profile == g.profiles[i].id
  {
    hide ValidHandles, ValidCredentials, ValidPolicies, ValidMaterials, SameAt, ReplacedAt;
    assert S.policies[next].profile == g.profiles[i].id;
    assert 0 <= i < i + 1;
    forall j | 0 <= j < i ensures g.profiles[j].id != g.profiles[i].id {
      assert g.profiles[j] in g.profiles && g.profiles[i] in g.profiles && g.profiles[j] != g.profiles[i];
    }
    assert !FromProfile(g, S, i, next);
  }

  lemma ChangedWithin(g: Generation, S: View, C: View, rows: seq<BindingKey>, i: nat)
    requires i <= |g.profiles| && ChangedUpTo(g, S, C, i, rows)
    ensures |rows| <= |ChangedSet(S, C)|
  {
    UniqueSize(rows);
    SubsetOfEqualSize((set b | b in rows), ChangedSet(S, C));
  }

  lemma ChangedComplete(g: Generation, C: View, rows: seq<BindingKey>)
    requires Consistent(g) && ChangedUpTo(g, ViewOf(g), C, |g.profiles|, rows)
    ensures (set b | b in rows) == ChangedSet(ViewOf(g), C)
    ensures forall p :: p in ViewOf(g).profiles ==> ProfileFits(ViewOf(g), C, p)
  {
    hide Consistent, ProfileTable, PolicyTable, SlotTable, SameAt, ReplacedAt;
    var S := ViewOf(g);
    ConsistentView(g);
    forall b | b in ChangedSet(S, C) ensures b in rows {
      var p := ProfileElim(g, S.policies[b].profile);
      var j :| 0 <= j < |g.profiles| && g.profiles[j] == p;
      assert HasSlot(S, p.id);
      ReplacedIsChange(S, C, p.id);
    }
    forall p | p in S.profiles ensures ProfileFits(S, C, p) {
      var r := ProfileElim(g, p);
      var j :| 0 <= j < |g.profiles| && g.profiles[j] == r;
      if !SameAt(S, C, p) {
        assert Accounted(S, C, g.profiles[j].id, rows);
        var b :| b in rows && b in S.policies && S.policies[b].profile == p;
        assert b in ChangedSet(S, C);
        assert Rebound(S, C, p, b);
      }
    }
  }

  /** Accepts exactly the complete source-plus-one campaign successors within the bound and lists what changed. */
  method ChangedActiveBindings(source: Generation, candidate: Generation, maximum: int)
      returns (result: Result<seq<BindingKey>>)
    requires Valid(source) && Valid(candidate)
    ensures result.Ok? <==>
      && candidate.number == source.number + 1 && maximum > 0
      && CampaignChange(ViewOf(source), ViewOf(candidate)) && |ChangedSet(ViewOf(source), ViewOf(candidate))| <= maximum
    ensures result.Ok? ==>
      && Lists(result.value, ChangedSet(ViewOf(source), ViewOf(candidate)))
      && |result.value| == |ChangedSet(ViewOf(source), ViewOf(candidate))|
  {
    hide Consistent, ProfileTable, PolicyTable, SlotTable, Canonical, ChangedSet, ProfileFits, Rebound, SameAt,
      ChangedUpTo;
    if source.number == MAX_NUMBER || candidate.number != source.number + 1 || maximum <= 0 { return Err(Invalid); }
    var facts := SameFactsInOrder(source, candidate);
    if !facts { return Err(Invalid); }
    ghost var S := ViewOf(source);
    ghost var C := ViewOf(candidate);
    var rows: seq<BindingKey> := [];
    ChangedNone(source, S, C);
    for i := 0 to |source.profiles|
      invariant ChangedUpTo(source, S, C, i, rows) && |rows| <= maximum
    {
      var profile := source.profiles[i];
      ProfileIntro(source, profile);
      var change := ChangedProfile(source, candidate, profile);
      if change.Err? { return Err(Invalid); }
      ChangedStep(source, S, C, i, rows, change.value);
      if change.value.Some? {
        rows := rows + [change.value.value];
        ChangedWithin(source, S, C, rows, i + 1);
        if |rows| > maximum { return Err(Invalid); }
      }
    }
    ChangedComplete(source, C, rows);
    ChangedWithin(source, S, C, rows, |source.profiles|);
    RowsAreSet(source, S, C, rows);
    var list := SortBindings(rows);
    result := Ok(list);
  }

  lemma ChangedNone(g: Generation, S: View, C: View)
    ensures ChangedUpTo(g, S, C, 0, [])
  {}

  lemma RowsAreSet(g: Generation, S: View, C: View, rows: seq<BindingKey>)
    requires ChangedUpTo(g, S, C, |g.profiles|, rows) && (set b | b in rows) == ChangedSet(S, C)
    ensures Unique(rows) && |rows| == |ChangedSet(S, C)|
  {
    UniqueSize(rows);
  }

  // ---------------------------------------------------------------------------------------------
  // Extensions
  // ---------------------------------------------------------------------------------------------

  ghost predicate AlgorithmSet(algorithms: seq<Algorithm>) { algorithms != [] && Unique(algorithms) }

  /** A sorted copy of a nonempty duplicate-free algorithm list. */
  method CanonicalAlgorithmSet(algorithms: seq<Algorithm>) returns (result: Result<seq<Algorithm>>)
    ensures result.Ok? <==> AlgorithmSet(algorithms)
    ensures result.Ok? ==>
      Strictly(result.value, AlgorithmKey) && Unique(result.value) && forall a :: a in result.value <==> a in algorithms
  {
    SetBound(algorithms);
    if |algorithms| == 0 || |algorithms| > MAX_CREDENTIALS_PER_PROFILE { return Err(Invalid); }
    var sorted := Sort(algorithms, AlgorithmKey);
    PermutedUnique(sorted, algorithms);
    for i := 0 to |sorted|
      invariant forall j :: 0 < j < i ==> sorted[j] != sorted[j - 1]
    {
      if i > 0 && sorted[i] == sorted[i - 1] { return Err(Invalid); }
    }
    NeighboursDistinct(sorted);
    result := Ok(sorted);
  }

  lemma SetBound(algorithms: seq<Algorithm>)
    ensures Unique(algorithms) ==> |algorithms| <= MAX_CREDENTIALS_PER_PROFILE
  {
    if Unique(algorithms) {
      UniqueSize(algorithms);
      AlgorithmSetBound(set a | a in algorithms);
    }
  }

  lemma NeighboursDistinct(s: seq<Algorithm>)
    requires Ordered(s, AlgorithmKey) && forall j :: 0 < j < |s| ==> s[j] != s[j - 1]
    ensures Strictly(s, AlgorithmKey) && Unique(s)
  {
    forall i, j | 0 <= i < j < |s| ensures AlgorithmKey(s[i]) != AlgorithmKey(s[j]) {
      if Rank(s[i]) == Rank(s[j]) {
        KeyIrreflexive(AlgorithmKey(s[i]));
        KeyTotal(AlgorithmKey(s[j - 1]), AlgorithmKey(s[j]));
        RankInjective(s[j - 1], s[j]);
      }
    }
    OrderedDistinctIsStrict(s, AlgorithmKey);
  }

  /** Profile `p` carries exactly the requested algorithms. */
  ghost predicate Carries(v: View, p: Id, algorithms: set<Algorithm>)
  {
    forall a: Algorithm {:trigger SlotKey(p, a)} :: SlotKey(p, a) in v.slots <==> a in algorithms
  }

  /** Every active binding was replaced and now carries exactly the requested set. */
  ghost predicate Extended(S: View, C: View, algorithms: set<Algorithm>)
  {
    && CampaignChange(S, C)
    && ChangedSet(S, C) == ActiveSet(S)
    && forall b :: b in ActiveSet(S) ==> Carries(C, S.policies[b].profile, algorithms)
  }

  lemma ChangedIsActive(S: Generation, C: Generation, b: BindingKey)
    requires Consistent(S) && Consistent(C) && ViewOf(S).profiles == ViewOf(C).profiles
    requires ViewOf(S).policies == ViewOf(C).policies
    requires b in ChangedSet(ViewOf(S), ViewOf(C))
    ensures ActiveBinding(ViewOf(C), b) && b in ActiveSet(ViewOf(S)) && Native(b.use)
  {
    hide Consistent, ProfileTable, PolicyTable, SlotTable, ReplacedAt;
  }

  method CarriesExactly(g: Generation, ghost p: Id, credentials: seq<Credential>, requested: seq<Algorithm>)
      returns (ok: bool)
    requires Consistent(g) && Owns(g, p, credentials) && Unique(requested)
    ensures ok <==> Carries(ViewOf(g), p, set a | a in requested)
  {
    hide Consistent, ProfileTable, PolicyTable, SlotTable;
    OwnsSlots(g, p, credentials);
    UniqueSize(requested);
    ghost var wanted := set a | a in requested;
    if |credentials| != |requested| {
      assert Carries(ViewOf(g), p, wanted) ==> Algorithms(credentials) == wanted;
      return false;
    }
    for i := 0 to |credentials|
      invariant forall j :: 0 <= j < i ==> credentials[j].algorithm in requested
    {
      if credentials[i].algorithm !in requested {
        assert credentials[i].algorithm in Algorithms(credentials);
        assert SlotKey(p, credentials[i].algorithm) in ViewOf(g).slots;
        return false;
      }
    }
    SubsetOfEqualSize(Algorithms(credentials), wanted);
    ok := true;
  }

  /** Accepts exactly the stored successors in which every active source binding is replaced and carries the request. */
  method ValidateExtensionCandidate(source: Generation, candidate: Generation, algorithms: seq<Algorithm>, maximum: int)
      returns (ok: bool)
    requires Valid(source) && Valid(candidate)
    ensures ok <==>
      && AlgorithmSet(algorithms)
      && source.state == Committed && candidate.number == source.number + 1
      && AllNative(ActiveSet(ViewOf(source))) && 0 < |ActiveSet(ViewOf(source))| <= maximum
      && Extended(ViewOf(source), ViewOf(candidate), set a | a in algorithms)
  {
    hide Consistent, ProfileTable, PolicyTable, SlotTable, Canonical, ChangedSet, ActiveSet, CampaignChange,
      ActiveBinding, Carries;
    ghost var S := ViewOf(source);
    ghost var C := ViewOf(candidate);
    ActiveProfiles(S);
    var requested := CanonicalAlgorithmSet(algorithms);
    if requested.Err? { return false; }
    ghost var wanted := set a | a in requested.value;
    assert wanted == set a | a in algorithms;
    var active := ActiveBindings(source, maximum);
    if active.Err? { return false; }
    var changed := ChangedActiveBindings(source, candidate, maximum);
    if changed.Err? { return false; }
    if ChangedSet(S, C) == ActiveSet(S) { ListsUnique(changed.value, active.value, ActiveSet(S)); }
    ok := CarriedEverywhere(source, candidate, changed.value, active.value, requested.value);
    assert AlgorithmSet(algorithms);
    if ok {
      assert changed.value == active.value;
      forall b ensures b in ChangedSet(S, C) <==> b in ActiveSet(S) {
        assert b in changed.value <==> b in active.value;
      }
      assert ChangedSet(S, C) == ActiveSet(S);
      forall b | b in ActiveSet(S) ensures Carries(C, S.policies[b].profile, wanted) {
        assert b in changed.value;
      }
    }
  }

  method CarriedEverywhere(source: Generation, candidate: Generation, changed: seq<BindingKey>, active: seq<BindingKey>,
                           requested: seq<Algorithm>)
      returns (ok: bool)
    requires Consistent(source) && Consistent(candidate) && Unique(requested)
    requires CampaignChange(ViewOf(source), ViewOf(candidate))
    requires forall b :: b in changed ==> b in ChangedSet(ViewOf(source), ViewOf(candidate))
    ensures ok <==>
      && changed == active
      && forall b :: b in changed ==>
           Carries(ViewOf(candidate), BoundProfile(ViewOf(source), b), set a | a in requested)
  {
    hide Consistent, ProfileTable, PolicyTable, SlotTable, ChangedSet, ActiveSet, CampaignChange, ActiveBinding,
      Carries;
    ghost var wanted := set a | a in requested;
    if |changed| != |active| { return false; }
    for i := 0 to |changed|
      invariant forall j :: 0 <= j < i ==>
        changed[j] == active[j] && Carries(ViewOf(candidate), BoundProfile(ViewOf(source), changed[j]), wanted)
    {
      var b := changed[i];
      if b != active[i] { return false; }
      ChangedFacts(source, candidate, b);
      var exact := ExactActiveBinding(candidate, b);
      if exact.Err? { return false; }
      var carries := CarriesExactly(candidate, exact.value.1.id, exact.value.2, requested);
      if !carries {
        assert changed[i] in changed;
        return false;
      }
    }
    forall b | b in changed ensures Carries(ViewOf(candidate), BoundProfile(ViewOf(source), b), wanted) {
      var i :| 0 <= i < |changed| && changed[i] == b;
    }
    ok := true;
  }

  ghost function BoundProfile(v: View, b: BindingKey): Id { if b in v.policies then v.policies[b].profile else "a" }

  lemma ActiveProfiles(S: View)
    ensures forall b :: b in ActiveSet(S) ==> b in S.policies && BoundProfile(S, b) == S.policies[b].profile
  {}

  lemma ChangedFacts(S: Generation, C: Generation, b: BindingKey)
    requires Consistent(S) && Consistent(C) && CampaignChange(ViewOf(S), ViewOf(C))
    requires b in ChangedSet(ViewOf(S), ViewOf(C))
    ensures ActiveBinding(ViewOf(C), b) && b in ActiveSet(ViewOf(S))
    ensures b in ViewOf(C).policies && ViewOf(C).policies[b].profile == BoundProfile(ViewOf(S), b)
  {
    hide Consistent, ProfileTable, PolicyTable, SlotTable, ReplacedAt, ProfileFits;
    ChangedIsActive(S, C, b);
  }
}

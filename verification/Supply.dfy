/** When a planner cannot fail: enough unused randomness, a willing key generator, and room for the new selectors. */
module Supply {
  import opened Wrappers
  import opened Text
  import opened Order
  import opened Records
  import opened Generations
  import opened Snapshots
  import opened Rebasing
  import opened Bindings
  import opened Builders
  import opened Lifecycle
  import opened Rekeying
  import opened Rotation

  // ---------------------------------------------------------------------------------------------
  // Randomness and generated keys
  // ---------------------------------------------------------------------------------------------

  /** The next `2 * count` draws are unused as selectors and as handles, and no two are equal. */
  ghost predicate PlentyNames(ids: Identifiers, attempts: int, draws: seq<Draw>, selectors: set<string>,
                              handles: set<string>, count: nat)
  {
    && ids.available && attempts > 0 && |draws| >= 2 * count
    && (forall i :: 0 <= i < 2 * count ==> UnusedDraw(ids, selectors, handles, draws[i]))
    && forall i, j :: 0 <= i < j < 2 * count ==> draws[i] != draws[j]
  }

  ghost predicate UnusedDraw(ids: Identifiers, selectors: set<string>, handles: set<string>, d: Draw)
  {
    SelectorText(d) !in selectors + ids.selectors && HandleText(d) !in handles + ids.handles
  }

  /** The generator answers the next requests with keys of the requested algorithms. */
  ghost predicate PlentyPairs(pairs: seq<Option<KeyPair>>, wanted: seq<Algorithm>)
  {
    |pairs| >= |wanted| && forall i :: 0 <= i < |wanted| ==> pairs[i].Some? && pairs[i].value.algorithm == wanted[i]
  }

  lemma NamesTaken(ids: Identifiers, attempts: int, draws: seq<Draw>, selectors: set<string>, handles: set<string>,
                   count: nat)
    requires PlentyNames(ids, attempts, draws, selectors, handles, count + 1)
    ensures |draws| >= 2 && UnusedDraw(ids, selectors, handles, draws[0])
    ensures UnusedDraw(ids, selectors + {SelectorText(draws[0])}, handles, draws[1])
    ensures PlentyNames(ids, attempts, draws[2..], selectors + {SelectorText(draws[0])},
                        handles + {HandleText(draws[1])}, count)
  {
    forall i | 1 <= i < 2 * (count + 1) ensures SelectorText(draws[i]) != SelectorText(draws[0]) {
      TextInjective(draws[i], draws[0]);
    }
    forall i | 2 <= i < 2 * (count + 1) ensures HandleText(draws[i]) != HandleText(draws[1]) {
      TextInjective(draws[i], draws[1]);
    }
    forall i | 0 <= i < 2 * count
      ensures UnusedDraw(ids, selectors + {SelectorText(draws[0])}, handles + {HandleText(draws[1])}, draws[2..][i])
    {
      assert draws[2..][i] == draws[i + 2] && UnusedDraw(ids, selectors, handles, draws[i + 2]);
    }
  }

  lemma TextInjective(d: Draw, e: Draw)
    requires d != e
    ensures SelectorText(d) != SelectorText(e) && HandleText(d) != HandleText(e)
  {
    assert SelectorText(d)[6..] == d && SelectorText(e)[6..] == e;
    assert HandleText(d)[4..] == d && HandleText(e)[4..] == e;
  }

  lemma PairTaken(pairs: seq<Option<KeyPair>>, a: Algorithm, rest: seq<Algorithm>)
    requires PlentyPairs(pairs, [a] + rest)
    ensures |pairs| > 0 && pairs[0].Some? && pairs[0].value.algorithm == a && PlentyPairs(pairs[1..], rest)
  {
    assert ([a] + rest)[0] == a;
    forall i | 0 <= i < |rest| ensures pairs[1..][i].Some? && pairs[1..][i].value.algorithm == rest[i] {
      assert ([a] + rest)[i + 1] == rest[i];
    }
  }

  // ---------------------------------------------------------------------------------------------
  // The order of requests
  // ---------------------------------------------------------------------------------------------

  /** The canonical signing order of a set of algorithms. */
  ghost function RankOrder(s: set<Algorithm>): seq<Algorithm>
  {
    (if RsaSha256 in s then [RsaSha256] else []) + (if Ed25519Sha256 in s then [Ed25519Sha256] else []) +
        (if MlDsa44Ed25519Sha512 in s then [MlDsa44Ed25519Sha512] else [])
  }

  lemma RankOrderIsStrict(s: set<Algorithm>)
    ensures Strictly(RankOrder(s), AlgorithmKey) && Unique(RankOrder(s)) && forall a :: a in RankOrder(s) <==> a in s
  {
    forall a: Algorithm ensures a in RankOrder(s) <==> a in s {
      match a
      case RsaSha256 =>
      case Ed25519Sha256 =>
      case MlDsa44Ed25519Sha512 =>
    }
  }

  lemma SortedIsRankOrder(list: seq<Algorithm>)
    requires Strictly(list, AlgorithmKey) && Unique(list)
    ensures list == RankOrder(AlgorithmsIn(list))
  {
    RankOrderIsStrict(AlgorithmsIn(list));
    SameElementsSameSize(list, RankOrder(AlgorithmsIn(list)));
    StrictOrderUnique(list, RankOrder(AlgorithmsIn(list)), AlgorithmKey);
  }

  lemma OrderedIsRankOrder(list: seq<Algorithm>)
    requires Ordered(list, AlgorithmKey) && Unique(list)
    ensures list == RankOrder(AlgorithmsIn(list))
  {
    forall a, b | a in list && b in list && AlgorithmKey(a) == AlgorithmKey(b) ensures a == b { RankInjective(a, b); }
    OrderedDistinctIsStrict(list, AlgorithmKey);
    SortedIsRankOrder(list);
  }

  // ---------------------------------------------------------------------------------------------
  // Room for a selector
  // ---------------------------------------------------------------------------------------------

  /** A selector of the allocator: thirty characters in one label. */
  predicate ShortName(s: string) { |s| == 30 && '.' !in s }

  lemma SelectorIsShort(d: Draw)
    ensures ShortName(SelectorText(d))
  {
    var s := SelectorText(d);
    assert forall i :: 6 <= i < |s| ==> s[i] == d[i - 6] && d[i - 6] in d;
  }

  /** The domain leaves room for an allocated selector and the fixed label between them. */
  predicate RoomFor(domain: DnsName) { |domain| <= 211 }

  lemma {:induction false} LabelCount(s: string)
    requires forall i :: 0 <= i < |Split(s, '.')| ==> Split(s, '.')[i] != ""
    ensures 2 * |Split(s, '.')| - 1 <= |s|
  {
    if s != "" {
      var rest := Split(s[1..], '.');
      if s[0] == '.' {
        assert Split(s, '.')[0] == "";
      } else if |s| == 1 {
        assert rest == [""];
      } else if s[1] == '.' {
        var tail := s[1..][1..];
        assert rest == [""] + Split(tail, '.');
        assert rest[0] == "" && rest[1..] == Split(tail, '.') && [s[0]] + "" == [s[0]];
        assert Split(s, '.') == [[s[0]]] + Split(tail, '.');
        assert forall i :: 0 <= i < |Split(tail, '.')| ==> Split(tail, '.')[i] == Split(s, '.')[i + 1];
        LabelCount(tail);
      } else {
        assert forall i :: 1 <= i < |rest| ==> rest[i] == Split(s, '.')[i];
        assert rest[0] != "";
        LabelCount(s[1..]);
      }
    }
  }

  lemma ShortNameFits(domain: DnsName, selector: DnsName)
    requires ShortName(selector)
    ensures OwnerFits(domain, selector) <==> RoomFor(domain)
  {
    SplitWhole(selector, '.');
    forall i | 0 <= i < |Split(domain, '.')| ensures Split(domain, '.')[i] != "" {
      assert Split(domain, '.')[i] in Split(domain, '.') && ValidLabel(Split(domain, '.')[i]);
    }
    LabelCount(domain);
  }

  // ---------------------------------------------------------------------------------------------
  // The builder stays consistent
  // ---------------------------------------------------------------------------------------------

  /** The builder holds a consistent set, and every identifier in it is reserved. */
  ghost predicate Sound(x: Generation, selectors: set<string>, handles: set<string>)
  {
    Consistent(x) && CredentialSelectors(x.credentials) <= selectors && HandleIds(x.handles) <= handles
  }

  lemma SoundStart(g: Generation, n: Number)
    requires Consistent(g) && n > 0
    ensures Sound(Rebase(g, n, Staging), CredentialSelectors(g.credentials), HandleIds(g.handles))
  {
    hide Consistent;
    RebaseIsConsistent(g, n, Staging);
    forall c | c in RebaseCredentials(g.credentials, n) ensures c.selector in CredentialSelectors(g.credentials) {
      var i :| 0 <= i < |g.credentials| && RebaseCredentials(g.credentials, n)[i] == c;
      assert g.credentials[i] in g.credentials;
    }
    forall h | h in RebaseHandles(g.handles, n) ensures h.id in HandleIds(g.handles) {
      var i :| 0 <= i < |g.handles| && RebaseHandles(g.handles, n)[i] == h;
      assert g.handles[i] in g.handles;
    }
  }

  /** The rekeyed set's identifiers are old ones or those of the new slots. */
  lemma RekeyedIdentifiers(x: Generation, p: Id, algorithms: seq<Algorithm>, slots: seq<Slot>)
    requires |algorithms| == |slots| && forall i :: 0 <= i < |slots| ==> Native(slots[i].binding.use)
    ensures var y := Rekey(x, p, CredentialsOf(x.number, p, algorithms, slots),
        MaterialsOf(x.number, p, algorithms, slots));
      && CredentialSelectors(y.credentials) <= CredentialSelectors(x.credentials) + Selectors(slots)
      && HandleIds(y.handles) <= HandleIds(x.handles) + Handles(slots)
  {
    hide Without, ProfileHandles;
    var credentials, materials := CredentialsOf(x.number, p, algorithms, slots),
        MaterialsOf(x.number, p, algorithms, slots);
    var removed := ProfileHandles(x.credentials, p);
    WithoutMember(x.credentials, OwnerName, {p});
    WithoutMember(x.handles, HandleName, removed);
    forall c | c in Without(x.credentials, OwnerName, {p}) + credentials
        ensures c.selector in CredentialSelectors(x.credentials) + Selectors(slots) {
      if c in credentials {
        var i :| 0 <= i < |credentials| && credentials[i] == c;
        assert slots[i] in slots;
      }
    }
    forall h | h in Without(x.handles, HandleName, removed) + HandlesFor(x.number, materials)
      ensures h.id in HandleIds(x.handles) + Handles(slots)
    {
      if h in HandlesFor(x.number, materials) {
        var i :| 0 <= i < |materials| && HandlesFor(x.number, materials)[i] == h;
        assert slots[i] in slots;
      }
    }
  }

  /** The policy and profile of an active binding, as they stand in the builder. */
  lemma BindingInBuilder(g: Generation, n: Number, x: Generation, b: BindingKey)
      returns (profile: Profile, policy: Policy)
    requires Consistent(g) && Consistent(x) && x.number == n && x.profiles == RebaseProfiles(g.profiles, n)
    requires x.policies == RebasePolicies(g.policies, n)
    requires ActiveBinding(ViewOf(g), b)
    ensures profile in x.profiles && policy in x.policies
    ensures policy.profileId == profile.id == ViewOf(g).policies[b].profile && PolicyBinding(policy) == b
    ensures profile.domain == b.domain && OnlyPolicy(ViewOf(x), profile.id, b)
  {
    hide Consistent, SlotTable, ProfileTable, PolicyTable;
    CampaignFactsAre(g, n, x);
    profile := ProfileElim(x, ViewOf(g).policies[b].profile);
    policy := PolicyElim(x, b);
    PolicyOf(x, policy);
  }

  lemma SoundStep(g: Generation, n: Number, x: Generation, selectors: set<string>, handles: set<string>,
                  ids: Identifiers, p: Id, b: BindingKey, algorithms: seq<Algorithm>, slots: seq<Slot>)
    requires Consistent(g) && Sound(x, selectors, handles) && x.number == n && x.state == Staging
    requires x.profiles == RebaseProfiles(g.profiles, n) && x.policies == RebasePolicies(g.policies, n)
    requires ActiveBinding(ViewOf(g), b) && ViewOf(g).policies[b].profile == p && RoomFor(b.domain) && Native(b.use)
    requires Issued(p, b, algorithms, slots) && Unique(algorithms) && algorithms != []
    requires FreshIdentifiers(slots, selectors, handles, ids)
    requires forall s :: s in slots ==> ShortName(s.selector)
    ensures Sound(Rekey(x, p, CredentialsOf(n, p, algorithms, slots), MaterialsOf(n, p, algorithms, slots)),
                  selectors + Selectors(slots), handles + Handles(slots))
  {
    hide Consistent, SlotTable, ProfileTable, PolicyTable, ActiveBinding, OnlyPolicy, OwnerFits, RoomFor, ShortName,
      Rekey, CredentialsOf, MaterialsOf, DistinctSlots, RebaseProfiles, RebasePolicies;
    var profile, policy := BindingInBuilder(g, n, x, b);
    forall s | s in slots ensures OwnerFits(profile.domain, s.selector) { ShortNameFits(profile.domain, s.selector); }
    assert Avoids(slots, CredentialSelectors(x.credentials), HandleIds(x.handles));
    RekeyKeepsConsistent(x, profile, policy, b, algorithms, slots);
    RekeyedIdentifiers(x, p, algorithms, slots);
  }

  /** The rekeyed profiles hold allocated selectors only. */
  ghost predicate ShortDone(x: Generation, done: set<Id>)
  {
    forall c :: c in x.credentials && c.profileId in done ==> ShortName(c.selector)
  }

  lemma NothingDone(x: Generation)
    ensures ShortDone(x, {})
  {}

  lemma ShortStep(x: Generation, done: set<Id>, p: Id, algorithms: seq<Algorithm>, slots: seq<Slot>)
    requires ShortDone(x, done) && |algorithms| == |slots|
    requires forall i :: 0 <= i < |slots| ==> Native(slots[i].binding.use)
    requires forall s :: s in slots ==> ShortName(s.selector)
    ensures ShortDone(Rekey(x, p, CredentialsOf(x.number, p, algorithms, slots),
        MaterialsOf(x.number, p, algorithms, slots)), done + {p})
  {
    hide ShortName, Without, ProfileHandles;
    var credentials := CredentialsOf(x.number, p, algorithms, slots);
    WithoutMember(x.credentials, OwnerName, {p});
    forall c | c in Without(x.credentials, OwnerName, {p}) + credentials && c.profileId in done + {p}
        ensures ShortName(c.selector) {
      if c in credentials {
        var i :| 0 <= i < |credentials| && credentials[i] == c;
        assert slots[i] in slots;
      }
    }
  }

  /** A consistent result leaves room in the domain of every rekeyed binding. */
  lemma RoomNeeded(g: Generation, n: Number, x: Generation, b: BindingKey, done: set<Id>)
    requires Consistent(g) && Consistent(x) && x.number == n && x.profiles == RebaseProfiles(g.profiles, n)
    requires x.policies == RebasePolicies(g.policies, n)
    requires ActiveBinding(ViewOf(g), b) && ViewOf(g).policies[b].profile in done && ShortDone(x, done)
    ensures RoomFor(b.domain)
  {
    hide SlotTable, ProfileTable, PolicyTable, ActiveBinding, OnlyPolicy, OwnerFits, RoomFor, ShortName, RebaseProfiles,
      RebasePolicies, ValidHandles, ValidPolicies, ValidMaterials;
    var profile, policy := BindingInBuilder(g, n, x, b);
    assert Owned(profile.id, x.credentials);
    var c :| c in x.credentials && c.profileId == profile.id;
    assert CredentialLinked(c, n, x.handles, x.profiles);
    var p :| p in x.profiles && p.id == c.profileId && OwnerFits(p.domain, c.selector);
    assert p == profile;
    ShortNameFits(profile.domain, c.selector);
  }
}

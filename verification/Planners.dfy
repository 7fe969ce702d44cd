/** The key replacer and the three planners: one binding, every due binding, every active binding. */
module Planners {
  import opened Wrappers
  import opened Text
  import opened Order
  import opened Records
  import opened Generations
  import opened Snapshots
  import opened Rebasing
  import opened Bindings
  import opened Builders
  import opened Lifecycle
  import opened Lineage
  import opened Campaign
  import opened Eligibility
  import opened Rotation
  import opened Supply

  /** Hands out fresh identifiers and keys and reserves every identifier it has handed out.
      Randomness and the key generator are input sequences read in order. */
  class KeyReplacer {
    const next: Number
    const identifiers: Identifiers
    const attempts: int
    const draws: seq<Draw>
    const pairs: seq<Option<KeyPair>>
    var drawn: nat
    var generated: nat
    var usedSelectors: set<string>
    var usedHandles: set<string>

    predicate Valid()
      reads this
    {
      drawn <= |draws| && generated <= |pairs|
    }

    /** Unused randomness for `count` more selectors and handles. */
    ghost predicate NamesLeft(count: nat)
      requires Valid()
      reads this
    {
      PlentyNames(identifiers, attempts, draws[drawn..], usedSelectors, usedHandles, count)
    }

    /** The generator will answer these requests. */
    ghost predicate KeysLeft(wanted: seq<Algorithm>)
      requires Valid()
      reads this
    {
      PlentyPairs(pairs[generated..], wanted)
    }

    ghost predicate Supplied(wanted: seq<Algorithm>)
      reads this
    {
      Valid() && NamesLeft(|wanted|) && KeysLeft(wanted)
    }

    /** Reserves every current selector and handle. */
    constructor (current: Generation, n: Number, ids: Identifiers, bound: int, random: seq<Draw>,
                 keys: seq<Option<KeyPair>>)
      ensures Valid() && next == n && identifiers == ids && attempts == bound && draws == random && pairs == keys
      ensures usedSelectors == CredentialSelectors(current.credentials) && usedHandles == HandleIds(current.handles)
      ensures drawn == generated == 0
    {
      next, identifiers, attempts, draws, pairs := n, ids, bound, random, keys;
      drawn, generated := 0, 0;
      usedSelectors, usedHandles := {}, {};
      new;
      for i := 0 to |current.credentials|
        invariant Valid() && drawn == generated == 0 && usedSelectors == CredentialSelectors(current.credentials[..i])
        invariant usedHandles == {}
      {
        CollectedStep(current.credentials[..i], current.credentials[i]);
        assert current.credentials[..i + 1] == current.credentials[..i] + [current.credentials[i]];
        usedSelectors := usedSelectors + {current.credentials[i].selector};
      }
      assert current.credentials[..|current.credentials|] == current.credentials;
      for i := 0 to |current.handles|
        invariant Valid() && drawn == generated == 0 && usedSelectors == CredentialSelectors(current.credentials)
        invariant usedHandles == HandleIds(current.handles[..i])
      {
        assert current.handles[..i + 1] == current.handles[..i] + [current.handles[i]];
        usedHandles := usedHandles + {current.handles[i].id};
      }
      assert current.handles[..|current.handles|] == current.handles;
    }

    method AllocateSelector() returns (result: Result<DnsName>)
      requires Valid()
      modifies this`drawn, this`usedSelectors
      ensures Valid()
      ensures result.Ok? ==>
        && result.value !in old(usedSelectors) && result.value !in identifiers.selectors
        && usedSelectors == old(usedSelectors) + {result.value}
      ensures result.Err? ==> usedSelectors == old(usedSelectors)
      ensures
        && old(drawn) < |draws| && identifiers.available && attempts > 0
        && SelectorText(draws[old(drawn)]) !in old(usedSelectors) + identifiers.selectors ==>
        result.Ok? && result.value == SelectorText(draws[old(drawn)]) && drawn == old(drawn) + 1
      ensures result.Ok? ==> ShortName(result.value)
    {
      if drawn < |draws| { assert Candidate("dkim2", draws[drawn..][0]) == SelectorText(draws[drawn]); }
      ghost var unused := drawn < |draws| && identifiers.available && attempts > 0 &&
          SelectorText(draws[drawn]) !in usedSelectors + identifiers.selectors;
      assert unused ==> FirstUnused("dkim2", draws[drawn..], 0, usedSelectors, identifiers.selectors);
      var found, rest := AllocateHistoricalId("dkim2", draws[drawn..], usedSelectors, identifiers.available,
                                              identifiers.selectors, attempts);
      if found.Err? { return Err(found.error); }
      ghost var i: nat :| i < attempts &&
          FirstUnused("dkim2", draws[drawn..], i, usedSelectors, identifiers.selectors) &&
          found.value == draws[drawn..][i] && rest == draws[drawn..][i + 1..];
      drawn := |draws| - |rest|;
      SelectorTextIsName(found.value);
      SelectorIsShort(found.value);
      assert SelectorText(found.value) == Candidate("dkim2", found.value);
      usedSelectors := usedSelectors + {SelectorText(found.value)};
      result := Ok(SelectorText(found.value));
    }

    method AllocateHandle() returns (result: Result<Id>)
      requires Valid()
      modifies this`drawn, this`usedHandles
      ensures Valid()
      ensures result.Ok? ==>
        && result.value !in old(usedHandles) && result.value !in identifiers.handles
        && usedHandles == old(usedHandles) + {result.value}
      ensures result.Err? ==> usedHandles == old(usedHandles)
      ensures
        && old(drawn) < |draws| && identifiers.available && attempts > 0
        && HandleText(draws[old(drawn)]) !in old(usedHandles) + identifiers.handles ==>
        result.Ok? && result.value == HandleText(draws[old(drawn)]) && drawn == old(drawn) + 1
    {
      if drawn < |draws| { assert Candidate("key", draws[drawn..][0]) == HandleText(draws[drawn]); }
      ghost var unused := drawn < |draws| && identifiers.available && attempts > 0 &&
          HandleText(draws[drawn]) !in usedHandles + identifiers.handles;
      assert unused ==> FirstUnused("key", draws[drawn..], 0, usedHandles, identifiers.handles);
      var found, rest := AllocateHistoricalId("key", draws[drawn..], usedHandles, identifiers.available,
                                              identifiers.handles, attempts);
      if found.Err? { return Err(found.error); }
      ghost var i: nat :| i < attempts && FirstUnused("key", draws[drawn..], i, usedHandles, identifiers.handles) &&
          found.value == draws[drawn..][i] && rest == draws[drawn..][i + 1..];
      drawn := |draws| - |rest|;
      HandleTextIsId(found.value);
      assert HandleText(found.value) == Candidate("key", found.value);
      usedHandles := usedHandles + {HandleText(found.value)};
      result := Ok(HandleText(found.value));
    }

    /** The next generated pair, when it is one for the requested algorithm. */
    method NextPair(a: Algorithm) returns (result: Result<KeyPair>)
      requires Valid()
      modifies this`generated
      ensures Valid()
      ensures result.Ok? ==>
        result.value.algorithm == a && exists i :: 0 <= i < |pairs| && pairs[i] == Some(result.value)
      ensures result.Ok? ==>
        && generated == old(generated) + 1 && old(generated) < |pairs| && pairs[old(generated)] == Some(result.value)
      ensures forall rest :: old(KeysLeft([a] + rest)) ==> result.Ok? && KeysLeft(rest)
    {
      forall rest | KeysLeft([a] + rest)
        ensures
          && generated < |pairs| && pairs[generated].Some? && pairs[generated].value.algorithm == a
          && PlentyPairs(pairs[generated + 1..], rest)
      {
        PairTaken(pairs[generated..], a, rest);
        assert pairs[generated..][1..] == pairs[generated + 1..];
      }
      if generated == |pairs| { return Err(Unavailable); }
      var pair := pairs[generated];
      generated := generated + 1;
      if pair.None? || pair.value.algorithm != a { return Err(Invalid); }
      result := Ok(pair.value);
    }

    /** One unused selector and one unused handle. */
    method AllocateNames(ghost more: nat) returns (result: Result<(DnsName, Id)>)
      requires Valid()
      modifies this`drawn, this`usedSelectors, this`usedHandles
      ensures Valid()
      ensures result.Ok? ==>
        && result.value.0 !in old(usedSelectors) && result.value.0 !in identifiers.selectors
        && ShortName(result.value.0)
        && result.value.1 !in old(usedHandles) && result.value.1 !in identifiers.handles
        && usedSelectors == old(usedSelectors) + {result.value.0} && usedHandles == old(usedHandles) + {result.value.1}
      ensures old(NamesLeft(more + 1)) ==> result.Ok? && NamesLeft(more)
    {
      ghost var start, plenty := drawn, NamesLeft(more + 1);
      if plenty { NamesTaken(identifiers, attempts, draws[drawn..], usedSelectors, usedHandles, more); }
      var selector := AllocateSelector();
      if selector.Err? { return Err(selector.error); }
      var handle := AllocateHandle();
      if handle.Err? { return Err(handle.error); }
      assert plenty ==> draws[start..][2..] == draws[drawn..];
      result := Ok((selector.value, handle.value));
    }

    /** One fresh key for one binding. */
    method IssueKey(b: BindingKey, a: Algorithm, ghost more: seq<Algorithm>) returns (result: Result<Slot>)
      requires Valid()
      modifies this
      ensures Valid()
      ensures result.Ok? ==>
        && result.value.binding == b && Native(b.use) && Generated(pairs, a, result.value)
        && ShortName(result.value.selector)
        && result.value.selector !in old(usedSelectors) && result.value.selector !in identifiers.selectors
        && result.value.handle !in old(usedHandles) && result.value.handle !in identifiers.handles
        && usedSelectors == old(usedSelectors) + {result.value.selector}
        && usedHandles == old(usedHandles) + {result.value.handle}
      ensures result.Ok? ==>
        generated == old(generated) + 1 && TakenFrom(pairs, old(generated), [a], [result.value])
      ensures old(Supplied([a] + more)) && Native(b.use) ==> result.Ok? && Supplied(more)
    {
      hide PlentyNames, PlentyPairs;
      var names := AllocateNames(|more|);
      if names.Err? { return Err(names.error); }
      var pair := NextPair(a);
      if pair.Err? { return Err(pair.error); }
      if !Native(b.use) { return Err(Invalid); }
      result := Ok(Slot(names.value.0, names.value.1, pair.value.publicSpki, b, pair.value.privatePkcs8));
    }

    /** One key per algorithm for one binding. */
    method IssueKeys(b: BindingKey, algorithms: seq<Algorithm>, ghost more: seq<Algorithm>)
        returns (result: Result<seq<Slot>>)
      requires Valid()
      modifies this
      ensures Valid()
      ensures result.Ok? ==>
        && |result.value| == |algorithms|
        && (forall i :: 0 <= i < |algorithms| ==>
              result.value[i].binding == b && Generated(pairs, algorithms[i], result.value[i]))
        && (forall s :: s in result.value ==> ShortName(s.selector))
        && FreshIdentifiers(result.value, old(usedSelectors), old(usedHandles), identifiers)
        && usedSelectors == old(usedSelectors) + Selectors(result.value)
        && usedHandles == old(usedHandles) + Handles(result.value)
        && (algorithms != [] ==> Native(b.use))
      ensures result.Ok? ==>
        && generated == old(generated) + |algorithms|
        && TakenFrom(pairs, old(generated), algorithms, result.value)
      ensures old(Supplied(algorithms + more)) && Native(b.use) ==> result.Ok? && Supplied(more)
    {
      hide FreshIdentifiers, Selectors, Handles, ShortName, Generated, PlentyNames, PlentyPairs;
      var slots: seq<Slot> := [];
      NoSlots(usedSelectors, usedHandles, identifiers);
      assert algorithms[0..] == algorithms;
      for i := 0 to |algorithms|
        invariant Valid() && |slots| == i
        invariant forall j :: 0 <= j < i ==> slots[j].binding == b && Generated(pairs, algorithms[j], slots[j])
        invariant forall s :: s in slots ==> ShortName(s.selector)
        invariant FreshIdentifiers(slots, old(usedSelectors), old(usedHandles), identifiers)
        invariant usedSelectors == old(usedSelectors) + Selectors(slots)
        invariant usedHandles == old(usedHandles) + Handles(slots)
        invariant i > 0 ==> Native(b.use)
        invariant generated == old(generated) + i && TakenFrom(pairs, old(generated), algorithms[..i], slots)
        invariant old(Supplied(algorithms + more)) && Native(b.use) ==> Supplied(algorithms[i..] + more)
      {
        assert algorithms[i..] + more == [algorithms[i]] + (algorithms[i + 1..] + more);
        var slot := IssueKey(b, algorithms[i], algorithms[i + 1..] + more);
        if slot.Err? { return Err(slot.error); }
        FreshStep(slots, slot.value, old(usedSelectors), old(usedHandles), identifiers);
        slots := slots + [slot.value];
      }
      assert algorithms[|algorithms|..] + more == more;
      result := Ok(slots);
    }

    /** Reserves a selector and a handle for every requested algorithm before any key exists. */
    method AllocateAll(count: nat) returns (result: Result<(seq<DnsName>, seq<Id>)>)
      requires Valid()
      modifies this`drawn, this`usedSelectors, this`usedHandles
      ensures Valid()
      ensures result.Ok? ==>
        ReservedNames(result.value.0, count, old(usedSelectors), usedSelectors, identifiers.selectors)
      ensures result.Ok? ==> ReservedNames(result.value.1, count, old(usedHandles), usedHandles, identifiers.handles)
      ensures result.Ok? ==> forall x :: x in result.value.0 ==> ShortName(x)
      ensures old(NamesLeft(count)) ==> result.Ok?
    {
      hide ShortName, PlentyNames;
      var selectors: seq<DnsName> := [];
      var handles: seq<Id> := [];
      for i := 0 to count
        invariant Valid()
        invariant ReservedNames(selectors, i, old(usedSelectors), usedSelectors, identifiers.selectors)
        invariant ReservedNames(handles, i, old(usedHandles), usedHandles, identifiers.handles)
        invariant forall x :: x in selectors ==> ShortName(x)
        invariant old(NamesLeft(count)) ==> NamesLeft(count - i)
      {
        var names := AllocateNames(count - i - 1);
        if names.Err? { return Err(names.error); }
        selectors := selectors + [names.value.0];
        handles := handles + [names.value.1];
      }
      result := Ok((selectors, handles));
    }

    /** A key for each requested algorithm under the reserved names. */
    method KeysFor(b: BindingKey, algorithms: seq<Algorithm>, selectors: seq<DnsName>, handles: seq<Id>)
        returns (result: Result<seq<Slot>>)
      requires Valid() && Native(b.use) && |selectors| == |handles| == |algorithms|
      modifies this`generated
      ensures Valid()
      ensures result.Ok? ==>
        && |result.value| == |algorithms|
        && forall i :: 0 <= i < |algorithms| ==>
             && result.value[i].binding == b && Generated(pairs, algorithms[i], result.value[i])
             && result.value[i].selector == selectors[i] && result.value[i].handle == handles[i]
      ensures result.Ok? ==>
        && generated == old(generated) + |algorithms|
        && TakenFrom(pairs, old(generated), algorithms, result.value)
      ensures old(KeysLeft(algorithms)) ==> result.Ok?
    {
      hide PlentyPairs;
      var slots: seq<Slot> := [];
      assert algorithms[0..] == algorithms;
      for i := 0 to |algorithms|
        invariant Valid() && |slots| == i
        invariant forall j :: 0 <= j < i ==>
          && slots[j].binding == b && Generated(pairs, algorithms[j], slots[j])
          && slots[j].selector == selectors[j] && slots[j].handle == handles[j]
        invariant generated == old(generated) + i && TakenFrom(pairs, old(generated), algorithms[..i], slots)
        invariant old(KeysLeft(algorithms)) ==> KeysLeft(algorithms[i..])
      {
        assert algorithms[i..] == [algorithms[i]] + algorithms[i + 1..];
        var pair := NextPair(algorithms[i]);
        if pair.Err? { return Err(pair.error); }
        slots := slots + [Slot(selectors[i], handles[i], pair.value.publicSpki, b, pair.value.privatePkcs8)];
      }
      result := Ok(slots);
    }

    /** Issues fresh keys for one exact active binding and replaces its profile's keys in the builder. */
    method Replace(builder: Builder, p: Id, b: BindingKey, algorithms: seq<Algorithm>, ghost more: seq<Algorithm>)
        returns (ok: bool, ghost slots: seq<Slot>)
      requires Valid()
      modifies this, builder
      ensures Valid()
      ensures ok ==>
        && |slots| == |algorithms| && Issued(p, b, algorithms, slots) && Native(b.use) && algorithms != []
        && (forall s :: s in slots ==> ShortName(s.selector))
        && (forall i :: 0 <= i < |algorithms| ==> Generated(pairs, algorithms[i], slots[i]))
        && FreshIdentifiers(slots, old(usedSelectors), old(usedHandles), identifiers)
        && usedSelectors == old(usedSelectors) + Selectors(slots) && usedHandles == old(usedHandles) + Handles(slots)
        && (old(builder.number) == next ==>
              builder.Contents() == Rekey(old(builder.Contents()), p, CredentialsOf(next, p, algorithms, slots),
                                          MaterialsOf(next, p, algorithms, slots)))
      ensures ok ==>
        && generated == old(generated) + |algorithms| && TakenFrom(pairs, old(generated), algorithms, slots)
      ensures !ok ==> builder.Contents() == old(builder.Contents())
      ensures
        && old(Supplied(algorithms + more)) && Native(b.use) && algorithms != [] && next > 0
        && old(Replaceable(builder.Contents(), next, p)) ==>
          ok && Supplied(more)
    {
      hide FreshIdentifiers, Selectors, Handles, Generated, ShortName, PlentyNames, PlentyPairs, Rekey, Paired,
        OneToOne, Names, DistinctKeys, ProfileHandles;
      var issued := IssueKeys(b, algorithms, more);
      if issued.Err? || algorithms == [] { return false, []; }
      slots := issued.value;
      var credentials := CredentialsOf(next, p, algorithms, issued.value);
      var materials := MaterialsOf(next, p, algorithms, issued.value);
      PairedKeys(next, p, algorithms, issued.value);
      ok := builder.ReplaceProfileKeys(p, credentials, materials);
    }
  }

  /** The builder works on number `n` and still holds the profile and keys for it. */
  ghost predicate Replaceable(x: Generation, n: Number, p: Id)
  {
    x.number == n && (exists o :: o in x.profiles && o.id == p) && ProfileHandles(x.credentials, p) != {}
  }

  lemma ReplaceReady(g: Generation, n: Number, targets: map<Id, set<Algorithm>>, news: map<SlotKey, Slot>,
                     x: Generation, selectors: set<string>, handles: set<string>, ids: Identifiers,
                     pairs: seq<Option<KeyPair>>, p: Id)
    requires Consistent(g) && CampaignState(g, n, targets, news, x, selectors, handles, ids, pairs) && p !in targets
    requires p in ViewOf(g).profiles
    ensures Replaceable(x, n, p)
  {
    hide SlotTable, ProfileTable, PolicyTable, ValidMaterials, ValidPolicies, ValidHandles, CredentialsApart,
      MaterialsServe, NewKeys, Reserved, NewSlots;
    var o := ProfileElim(g, p);
    RebasedProfiles(g.profiles, n);
    assert RebaseProfile(o, n) in x.profiles;
    assert Owned(o.id, g.credentials);
    var c :| c in g.credentials && c.profileId == p;
    assert RebaseCredential(c, n) in x.credentials;
    assert CredentialName(RebaseCredential(c, n)) in ProfileHandles(x.credentials, p);
  }

  lemma ContentsNumber(g: Generation, n: Number, targets: map<Id, set<Algorithm>>, news: map<SlotKey, Slot>,
                       x: Generation, selectors: set<string>, handles: set<string>, ids: Identifiers,
                       pairs: seq<Option<KeyPair>>)
    requires Consistent(g) && CampaignState(g, n, targets, news, x, selectors, handles, ids, pairs)
    ensures x.number == n && x.state == Staging && x.profiles == RebaseProfiles(g.profiles, n)
    ensures x.policies == RebasePolicies(g.policies, n)
  {
    hide Consistent, SlotTable, ProfileTable, PolicyTable, NewSlots, CredentialsAre, MaterialsServe, NewKeys, Reserved,
      HandleIds;
  }

  lemma SoundAdvance(g: Generation, n: Number, targets: map<Id, set<Algorithm>>, news: map<SlotKey, Slot>,
                     x: Generation, selectors: set<string>, handles: set<string>, ids: Identifiers,
                     pairs: seq<Option<KeyPair>>, p: Id, b: BindingKey, algorithms: seq<Algorithm>, slots: seq<Slot>)
    requires Consistent(g) && CampaignState(g, n, targets, news, x, selectors, handles, ids, pairs)
    requires ActiveBinding(ViewOf(g), b) && ViewOf(g).policies[b].profile == p && RoomFor(b.domain) && Native(b.use)
    requires Issued(p, b, algorithms, slots) && Unique(algorithms) && algorithms != []
    requires FreshIdentifiers(slots, selectors, handles, ids)
    requires forall s :: s in slots ==> ShortName(s.selector)
    ensures Sound(x, selectors, handles) ==>
      Sound(Rekey(x, p, CredentialsOf(n, p, algorithms, slots), MaterialsOf(n, p, algorithms, slots)),
            selectors + Selectors(slots), handles + Handles(slots))
  {
    hide Consistent, SlotTable, ProfileTable, PolicyTable, ActiveBinding, RoomFor, ShortName, Rekey, CredentialsOf,
      MaterialsOf, FreshIdentifiers, NewSlots, CredentialsAre, MaterialsServe, NewKeys, Reserved, HandleIds, Sound;
    if Sound(x, selectors, handles) { SoundStep(g, n, x, selectors, handles, ids, p, b, algorithms, slots); }
  }

  /** The algorithms one binding of a campaign asks for, in order. */
  ghost function Request(v: View, b: BindingKey, wanted: Option<set<Algorithm>>): seq<Algorithm>
  {
    var own := if b in v.policies then SlotAlgorithms(v, v.policies[b].profile) else {};
    RankOrder(if wanted.Some? then wanted.value else own)
  }

  ghost function Demand(v: View, bindings: seq<BindingKey>, wanted: Option<set<Algorithm>>): seq<Algorithm>
  {
    if bindings == [] then [] else Request(v, bindings[0], wanted) + Demand(v, bindings[1..], wanted)
  }

  /** Enough unused randomness and generated keys for this order of requests. */
  ghost predicate Ample(current: Generation, ids: Identifiers, attempts: int, draws: seq<Draw>,
                        pairs: seq<Option<KeyPair>>, wanted: seq<Algorithm>)
  {
    && PlentyNames(ids, attempts, draws, CredentialSelectors(current.credentials), HandleIds(current.handles), |wanted|)
    && PlentyPairs(pairs, wanted)
  }

  lemma PairedKeys(n: Number, p: Id, algorithms: seq<Algorithm>, slots: seq<Slot>)
    requires |algorithms| == |slots| && forall i :: 0 <= i < |slots| ==> Native(slots[i].binding.use)
    ensures Paired(p, n, CredentialsOf(n, p, algorithms, slots), MaterialsOf(n, p, algorithms, slots))
    ensures |CredentialsOf(n, p, algorithms, slots)| == |algorithms|
  {}

  /** Names handed out one by one: new, never issued before, and all different. */
  ghost predicate ReservedNames(names: seq<string>, count: nat, before: set<string>, after: set<string>,
                                historical: set<string>)
  {
    && |names| == count
    && (forall x :: x in names ==> x !in before && x !in historical)
    && Unique(names)
    && after == before + set x | x in names
  }

  lemma NamedSlots(slots: seq<Slot>, selectors: seq<DnsName>, handles: seq<Id>, usedSelectors: set<string>,
                   usedHandles: set<string>, newSelectors: set<string>, newHandles: set<string>, ids: Identifiers)
    requires ReservedNames(selectors, |slots|, usedSelectors, newSelectors, ids.selectors)
    requires ReservedNames(handles, |slots|, usedHandles, newHandles, ids.handles)
    requires forall i :: 0 <= i < |slots| ==> slots[i].selector == selectors[i] && slots[i].handle == handles[i]
    ensures FreshIdentifiers(slots, usedSelectors, usedHandles, ids)
    ensures newSelectors == usedSelectors + Selectors(slots) && newHandles == usedHandles + Handles(slots)
  {
    hide ReservedNames;
    NamesAvoid(selectors, |slots|, usedSelectors, newSelectors, ids.selectors);
    NamesAvoid(handles, |slots|, usedHandles, newHandles, ids.handles);
    SelectorsAre(slots, selectors);
    HandlesAre(slots, handles);
  }

  lemma NamesAvoid(names: seq<string>, count: nat, before: set<string>, after: set<string>, historical: set<string>)
    requires ReservedNames(names, count, before, after, historical)
    ensures |names| == count && (forall x :: x in names ==> x !in before && x !in historical)
    ensures after == before + set x | x in names
    ensures forall i, j :: 0 <= i < j < |names| ==> names[i] != names[j]
  {}

  lemma SelectorsAre(slots: seq<Slot>, selectors: seq<DnsName>)
    requires |selectors| == |slots| && forall i :: 0 <= i < |slots| ==> slots[i].selector == selectors[i]
    ensures Selectors(slots) == set x | x in selectors
    ensures forall s :: s in slots ==> s.selector in selectors
  {
    forall s | s in slots ensures s.selector in selectors {
      var i :| 0 <= i < |slots| && slots[i] == s;
    }
    forall x | x in selectors ensures x in Selectors(slots) {
      var i :| 0 <= i < |selectors| && selectors[i] == x;
      assert slots[i] in slots;
    }
  }

  lemma HandlesAre(slots: seq<Slot>, handles: seq<Id>)
    requires |handles| == |slots| && forall i :: 0 <= i < |slots| ==> slots[i].handle == handles[i]
    ensures Handles(slots) == set x | x in handles
    ensures forall s :: s in slots ==> s.handle in handles
  {
    forall s | s in slots ensures s.handle in handles {
      var i :| 0 <= i < |slots| && slots[i] == s;
    }
    forall x | x in handles ensures x in Handles(slots) {
      var i :| 0 <= i < |handles| && handles[i] == x;
      assert slots[i] in slots;
    }
  }

  lemma NoSlots(selectors: set<string>, handles: set<string>, ids: Identifiers)
    ensures FreshIdentifiers([], selectors, handles, ids) && Selectors([]) == {} && Handles([]) == {}
  {}

  ghost function SlotAlgorithms(v: View, p: Id): set<Algorithm>
  {
    set k | k in v.slots && k.profile == p :: k.algorithm
  }

  lemma OwnedAlgorithms(g: Generation, p: Id, credentials: seq<Credential>, algorithms: seq<Algorithm>)
    requires Consistent(g) && Owns(g, p, credentials) && algorithms == AlgorithmsInOrder(credentials)
    ensures Unique(algorithms) && AlgorithmsIn(algorithms) == SlotAlgorithms(ViewOf(g), p) == Algorithms(credentials)
  {
    hide Consistent, SlotTable, ProfileTable, PolicyTable;
    OwnsSlots(g, p, credentials);
    forall a ensures a in AlgorithmsIn(algorithms) <==> a in SlotAlgorithms(ViewOf(g), p) {
      AlgorithmMember(credentials, a);
      if SlotKey(p, a) in ViewOf(g).slots { assert SlotKey(p, a).algorithm in SlotAlgorithms(ViewOf(g), p); }
    }
  }

  lemma SortedAlgorithms(s: seq<Algorithm>, t: seq<Algorithm>)
    requires Unique(s) && multiset(t) == multiset(s)
    ensures Unique(t) && AlgorithmsIn(t) == AlgorithmsIn(s)
  {
    PermutedUnique(t, s);
  }

  /** What the first bindings of a campaign aim at: the requested set, or each profile's own algorithms. */
  ghost predicate Aims(v: View, bindings: seq<BindingKey>, wanted: Option<set<Algorithm>>,
                       targets: map<Id, set<Algorithm>>)
  {
    && (forall b :: b in bindings ==> ActiveBinding(v, b) && v.policies[b].profile in targets)
    && (forall p :: p in targets ==> (exists b :: b in bindings && b in v.policies && v.policies[b].profile == p) &&
                                     targets[p] == (if wanted.Some? then wanted.value else SlotAlgorithms(v, p)))
  }

  lemma AimsStep(v: View, bindings: seq<BindingKey>, wanted: Option<set<Algorithm>>, targets: map<Id, set<Algorithm>>,
                 b: BindingKey)
    requires Aims(v, bindings, wanted, targets) && ActiveBinding(v, b) && b !in bindings
    ensures var p := v.policies[b].profile;
      && p !in targets
      && Aims(v, bindings + [b], wanted, targets[p := if wanted.Some? then wanted.value else SlotAlgorithms(v, p)])
  {
    hide SlotAlgorithms;
    var p := v.policies[b].profile;
    assert p !in targets;
    var after := targets[p := if wanted.Some? then wanted.value else SlotAlgorithms(v, p)];
    forall q | q in after ensures exists c :: c in bindings + [b] && c in v.policies && v.policies[c].profile == q {
      if q == p {
        assert b in bindings + [b];
      } else {
        var c :| c in bindings && c in v.policies && v.policies[c].profile == q;
        assert c in bindings + [b];
      }
    }
  }

  function DecisionBindings(list: seq<EligibilityDecision>): seq<BindingKey>
  {
    seq(|list|, i requires 0 <= i < |list| => list[i].binding)
  }

  /** Everything a campaign successor of `current` promises. */
  ghost function ProfilesOf(v: View, bindings: seq<BindingKey>): set<Id>
  {
    set b | b in bindings && b in v.policies :: v.policies[b].profile
  }

  lemma AimsAt(v: View, bindings: seq<BindingKey>, wanted: Option<set<Algorithm>>, targets: map<Id, set<Algorithm>>)
    requires Aims(v, bindings, wanted, targets)
    ensures targets.Keys == ProfilesOf(v, bindings)
  {
    hide SlotAlgorithms, ActiveBinding;
    forall p ensures p in targets <==> p in ProfilesOf(v, bindings) {
      if b :| b in bindings && b in v.policies && v.policies[b].profile == p { assert p in ProfilesOf(v, bindings); }
    }
  }

  ghost predicate CampaignCandidate(current: Generation, candidate: Generation, bindings: seq<BindingKey>,
                                    wanted: Option<set<Algorithm>>, ids: Identifiers, pairs: seq<Option<KeyPair>>)
    requires Consistent(current)
  {
    && Valid(candidate) && candidate.number == current.number + 1 && candidate.state == Staging
    && IndependentKeys(ViewOf(candidate), ProfilesOf(ViewOf(current), bindings), pairs)
    && exists targets ::
         && Aims(ViewOf(current), bindings, wanted, targets)
         && Rekeyed(ViewOf(current), ViewOf(candidate), targets, ids, pairs)
  }

  lemma DecisionsDistinct(list: seq<EligibilityDecision>)
    requires Strictly(list, DecisionKey)
    ensures Unique(DecisionBindings(list))
  {
    forall i, j | 0 <= i < j < |list| ensures list[i].binding != list[j].binding {
      KeyIrreflexive(DecisionKey(list[i]));
    }
  }

  lemma ActiveProfile(v: View, b: BindingKey)
    requires ActiveBinding(v, b)
    ensures b in v.policies && v.policies[b].profile in v.profiles
  {}

  /** A campaign after its first bindings: they have their targets, the builder holds exactly the keys issued so far,
      and the replacer has reserved all names. */
  ghost predicate InCampaign(current: Generation, bindings: seq<BindingKey>, wanted: Option<set<Algorithm>>,
                             targets: map<Id, set<Algorithm>>, news: map<SlotKey, Slot>, builder: Builder,
                             replacer: KeyReplacer)
    reads builder, replacer
  {
    && Consistent(current) && Aims(ViewOf(current), bindings, wanted, targets)
    && KeysApart(news, replacer.pairs, replacer.generated)
    && CampaignState(current, replacer.next, targets, news, builder.Contents(), replacer.usedSelectors,
                     replacer.usedHandles, replacer.identifiers, replacer.pairs)
  }

  ghost predicate SoundSoFar(builder: Builder, replacer: KeyReplacer)
    reads builder, replacer
  {
    Sound(builder.Contents(), replacer.usedSelectors, replacer.usedHandles)
  }

  /** `requested` lists the algorithms that the campaign wants for the profile of an active binding. */
  ghost predicate Requested(current: Generation, b: BindingKey, p: Id, requested: seq<Algorithm>,
                            wanted: Option<set<Algorithm>>)
  {
    && Consistent(current) && ActiveBinding(ViewOf(current), b) && ViewOf(current).policies[b].profile == p
    && Unique(requested)
    && AlgorithmsIn(requested) == if wanted.Some? then wanted.value else SlotAlgorithms(ViewOf(current), p)
  }

  /** Replaces the keys of one binding of a campaign by the requested algorithms. */
  method RekeyBinding(current: Generation, builder: Builder, replacer: KeyReplacer, b: BindingKey, p: Id,
                      requested: seq<Algorithm>, ghost wanted: Option<set<Algorithm>>, ghost more: seq<Algorithm>,
                      ghost before: seq<BindingKey>, ghost targets: map<Id, set<Algorithm>>,
                      ghost news: map<SlotKey, Slot>)
      returns (ok: bool, ghost targets': map<Id, set<Algorithm>>, ghost news': map<SlotKey, Slot>)
    requires replacer.Valid() && b !in before
    requires Requested(current, b, p, requested, wanted)
    requires InCampaign(current, before, wanted, targets, news, builder, replacer)
    modifies builder, replacer
    ensures replacer.Valid()
    ensures requested != [] && replacer.next > 0 && old(replacer.Supplied(requested + more)) ==>
      ok && replacer.Supplied(more)
    ensures ok ==> InCampaign(current, before + [b], wanted, targets', news', builder, replacer)
    ensures ok && old(ShortDone(builder.Contents(), targets.Keys)) ==> ShortDone(builder.Contents(), targets'.Keys)
    ensures ok && RoomFor(b.domain) && old(SoundSoFar(builder, replacer)) ==> SoundSoFar(builder, replacer)
  {
    hide RoomFor, ShortName, Sound, PlentyNames, PlentyPairs, ShortDone;
    hide Consistent, SlotTable, ProfileTable, PolicyTable, Rekey, FreshIdentifiers, Generated, NewKeys, Reserved, Aims,
      Selectors, Handles, CredentialsOf, MaterialsOf, SlotMap, HandleIds, NewSlots, CredentialsAre, MaterialsServe,
      SlotAlgorithms, Algorithms, KeysApart, TakenFrom;
    ghost var contents := builder.Contents();
    ghost var start := replacer.generated;
    ghost var selectors := replacer.usedSelectors;
    ghost var handles := replacer.usedHandles;
    ActivePolicy(ViewOf(current), b);
    ConsistentView(current);
    NativeBinding(ViewOf(current), b);
    ActiveProfile(ViewOf(current), b);
    AimsStep(ViewOf(current), before, wanted, targets, b);
    ReplaceReady(current, replacer.next, targets, news, builder.Contents(), replacer.usedSelectors,
                 replacer.usedHandles, replacer.identifiers, replacer.pairs, p);
    ghost var slots;
    ok, slots := replacer.Replace(builder, p, b, requested, more);
    targets', news' := targets, news;
    if ok {
      ContentsNumber(current, replacer.next, targets, news, contents, selectors, handles, replacer.identifiers,
                     replacer.pairs);
      if ShortDone(contents, targets.Keys) { ShortStep(contents, targets.Keys, p, requested, slots); }
      assert targets[p := AlgorithmsIn(requested)].Keys == targets.Keys + {p};
      if RoomFor(b.domain) {
        SoundAdvance(current, replacer.next, targets, news, contents, selectors, handles, replacer.identifiers,
                     replacer.pairs, p, b, requested, slots);
      }
      CampaignAdvance(current, replacer.next, targets, news, contents, selectors, handles, replacer.identifiers,
                      replacer.pairs, p, b, requested, slots);
      NewProfiles(current, replacer.next, targets, news, contents, selectors, handles, replacer.identifiers,
                  replacer.pairs);
      KeysApartStep(news, replacer.pairs, start, p, requested, slots);
      targets' := targets[p := AlgorithmsIn(requested)];
      news' := news + SlotMap(p, requested, slots);
    }
  }

  /** The profile of an exact active binding and its algorithms in signing order. */
  method OwnAlgorithms(current: Generation, b: BindingKey) returns (result: Result<(Id, seq<Algorithm>)>)
    requires Consistent(current)
    ensures result.Ok? <==> ActiveBinding(ViewOf(current), b)
    ensures result.Ok? ==>
      var (p, sorted) := result.value;
      && b in ViewOf(current).policies && ViewOf(current).policies[b].profile == p && p in ViewOf(current).profiles
      && Ordered(sorted, AlgorithmKey) && Unique(sorted) && sorted != []
      && AlgorithmsIn(sorted) == SlotAlgorithms(ViewOf(current), p)
  {
    hide Consistent, SlotTable, ProfileTable, PolicyTable, SlotAlgorithms, ActiveBinding, AlgorithmsIn;
    var exact := ExactActiveBinding(current, b);
    if exact.Err? { return Err(exact.error); }
    var (policy, profile, credentials) := exact.value;
    var algorithms := AlgorithmsInOrder(credentials);
    OwnedAlgorithms(current, profile.id, credentials, algorithms);
    var sorted := Sort(algorithms, AlgorithmKey);
    SortedAlgorithms(algorithms, sorted);
    ActiveProfile(ViewOf(current), b);
    OwnsSomething(current, profile.id, credentials, sorted);
    result := Ok((profile.id, sorted));
  }

  /** Rekeys due binding after due binding under its own algorithms. */
  method RotateAll(current: Generation, builder: Builder, replacer: KeyReplacer, bindings: seq<BindingKey>)
      returns (ok: bool, ghost targets: map<Id, set<Algorithm>>, ghost news: map<SlotKey, Slot>)
    requires Consistent(current) && replacer.Valid() && Unique(bindings)
    requires InCampaign(current, [], None, map[], map[], builder, replacer)
    modifies builder, replacer
    ensures replacer.Valid()
    ensures ok ==> InCampaign(current, bindings, None, targets, news, builder, replacer)
    ensures ok ==> ShortDone(builder.Contents(), targets.Keys)
    ensures ok && (forall b :: b in bindings ==> RoomFor(b.domain)) && old(SoundSoFar(builder, replacer)) ==>
      SoundSoFar(builder, replacer)
    ensures
      && replacer.next > 0 && (forall b :: b in bindings ==> ActiveBinding(ViewOf(current), b))
      && old(replacer.Supplied(Demand(ViewOf(current), bindings, None))) ==>
        ok
  {
    hide ShortDone, RoomFor, Sound, PlentyNames, PlentyPairs, RankOrder, Request, Demand, CampaignState, Aims,
      Consistent, SlotTable, ProfileTable, PolicyTable, SlotAlgorithms, ActiveBinding, Rekey, HandleIds, AlgorithmsIn,
      CredentialSelectors, Strictly, Ordered;
    targets, news := map[], map[];
    ghost var v := ViewOf(current);
    ghost var plenty := replacer.next > 0 && (forall b :: b in bindings ==> ActiveBinding(v, b)) &&
        replacer.Supplied(Demand(v, bindings, None));
    ghost var room := (forall b :: b in bindings ==> RoomFor(b.domain)) && SoundSoFar(builder, replacer);
    assert bindings[0..] == bindings;
    NothingDone(builder.Contents());
    assert targets.Keys == {};
    for i := 0 to |bindings|
      invariant replacer.Valid() && InCampaign(current, bindings[..i], None, targets, news, builder, replacer)
      invariant ShortDone(builder.Contents(), targets.Keys)
      invariant plenty ==> replacer.Supplied(Demand(v, bindings[i..], None))
      invariant room ==> SoundSoFar(builder, replacer)
    {
      assert bindings[..i + 1] == bindings[..i] + [bindings[i]];
      assert bindings[i] in bindings;
      DemandStep(v, bindings, None, i);
      var own := OwnAlgorithms(current, bindings[i]);
      if own.Err? { return false, targets, news; }
      var (p, sorted) := own.value;
      DueRequest(v, bindings[i], sorted);
      ok, targets, news := RekeyBinding(current, builder, replacer, bindings[i], p, sorted, None,
                                        Demand(v, bindings[i + 1..], None), bindings[..i], targets, news);
      if !ok { return; }
    }
    assert bindings[..|bindings|] == bindings;
    ok := true;
  }

  /** Rotates every due active binding in exactly one complete successor; nothing due, no candidate. */
  method PlanGlobalRotation(current: Generation, next: Number, now: int, history: LineageHistory, ids: Identifiers,
                            limits: RotationLimits, draws: seq<Draw>, pairs: seq<Option<KeyPair>>)
      returns (result: Result<Option<(Generation, seq<EligibilityDecision>)>>)
    requires Consistent(current)
    ensures result.Ok? ==> RotationFits(current, next, now, history, limits)
    ensures result.Ok? && result.value.None? ==> Decisions(ViewOf(current), history.facts, now, limits.rotateAfter, [])
    ensures result.Ok? && result.value.Some? ==>
      var (candidate, decisions) := result.value.value;
      && decisions != [] && Decisions(ViewOf(current), history.facts, now, limits.rotateAfter, decisions)
      && CampaignCandidate(current, candidate, DecisionBindings(decisions), None, ids, pairs)
    ensures RotationFits(current, next, now, history, limits) &&
            (forall decisions :: Decisions(ViewOf(current), history.facts, now, limits.rotateAfter, decisions) ==>
               Ample(current, ids, limits.allocationAttempts, draws, pairs,
                   Demand(ViewOf(current), DecisionBindings(decisions), None))) ==>
      result.Ok?
  {
    hide Consistent, SlotTable, ProfileTable, PolicyTable, CampaignState, Aims, Decisions, Canonical, Rekeyed,
      ActiveLineages, HandleIds, CredentialSelectors, Sound, RoomFor, PlentyNames, PlentyPairs, Request, ActiveBinding,
      DueSet, Ample, ShortDone;
    if current.number == MAX_NUMBER || next != current.number + 1 || !history.complete || !ValidLimits(limits) {
      return Err(Invalid);
    }
    var eligible := EligibleBindings(now, current, history, limits);
    if eligible.Err? { return Err(eligible.error); }
    var decisions := eligible.value;
    if decisions == [] {
      NothingDue(current, next, now, history, limits);
      return Ok(None);
    }
    DecisionsDistinct(decisions) by {
      assert Strictly(decisions, DecisionKey) by {
        DecisionsStrict(ViewOf(current), history.facts, now, limits.rotateAfter, decisions);
      }
    }
    var builder := new Builder.Next(current, next, Staging);
    var replacer := new KeyReplacer(current, next, ids, limits.allocationAttempts, draws, pairs);
    ghost var bindings := DecisionBindings(decisions);
    CampaignBegins(current, next, ids, pairs);
    AimsNothing(ViewOf(current), None);
    SoundStart(current, next);
    ghost var clean := RotationFits(current, next, now, history, limits) &&
        Ample(current, ids, limits.allocationAttempts, draws, pairs, Demand(ViewOf(current), bindings, None));
    if clean {
      SuppliedAtStart(replacer, current, Demand(ViewOf(current), bindings, None));
      DueFits(current, next, now, history, limits, decisions);
    }
    var ok;
    ghost var targets, news;
    ok, targets, news := RotateAll(current, builder, replacer, DecisionBindings(decisions));
    if !ok { return Err(Invalid); }
    if clean { SoundMeans(builder.Contents(), replacer.usedSelectors, replacer.usedHandles); }
    var candidate := builder.Build();
    if candidate.Err? { return Err(candidate.error); }
    CampaignRoom(current, next, bindings, None, targets, news, builder.Contents(), replacer.usedSelectors,
                 replacer.usedHandles, ids, pairs);
    DueHasRoom(current, next, now, history, limits, decisions);
    CampaignResult(current, next, targets, news, builder.Contents(), replacer.usedSelectors, replacer.usedHandles, ids,
                   pairs, candidate.value);
    CampaignKeysApart(current, next, targets, news, builder.Contents(), replacer.usedSelectors, replacer.usedHandles,
                      ids, pairs, replacer.generated, candidate.value);
    AimsAt(ViewOf(current), bindings, None, targets);
    result := Ok(Some((candidate.value, decisions)));
  }

  /** Everything but randomness and key generation that a global rotation needs; the last line is the room a due domain
      must leave for a selector. */
  ghost predicate RotationFits(current: Generation, next: Number, now: int, history: LineageHistory,
                               limits: RotationLimits)
    requires Consistent(current)
  {
    var v := ViewOf(current);
    && next == current.number + 1 && history.complete && ValidLimits(limits) && |ActiveSet(v)| <= limits.maximumBindings
    && ActiveLineages(v, history.facts, now + limits.maximumClockSkew)
    && forall b :: b in DueSet(v, history.facts, now, limits.rotateAfter) ==> ActiveBinding(v, b) && RoomFor(b.domain)
  }

  lemma DueFits(current: Generation, next: Number, now: int, history: LineageHistory, limits: RotationLimits,
                decisions: seq<EligibilityDecision>)
    requires Consistent(current) && RotationFits(current, next, now, history, limits)
    requires Decisions(ViewOf(current), history.facts, now, limits.rotateAfter, decisions)
    ensures forall b :: b in DecisionBindings(decisions) ==> ActiveBinding(ViewOf(current), b) && RoomFor(b.domain)
  {
    hide Consistent, SlotTable, ProfileTable, PolicyTable, DueSet, ActiveBinding, RoomFor, Since, ActiveLineages;
    forall b | b in DecisionBindings(decisions) ensures ActiveBinding(ViewOf(current), b) && RoomFor(b.domain) {
      var i :| 0 <= i < |decisions| && decisions[i].binding == b;
      assert decisions[i] in decisions;
    }
  }

  lemma NothingDue(current: Generation, next: Number, now: int, history: LineageHistory, limits: RotationLimits)
    requires Consistent(current) && next == current.number + 1 && history.complete && ValidLimits(limits)
    requires |ActiveSet(ViewOf(current))| <= limits.maximumBindings
    requires ActiveLineages(ViewOf(current), history.facts, now + limits.maximumClockSkew)
    requires Decisions(ViewOf(current), history.facts, now, limits.rotateAfter, [])
    ensures RotationFits(current, next, now, history, limits)
  {
    hide Consistent, SlotTable, ProfileTable, PolicyTable, DueSet, ActiveBinding, ActiveLineages, Since;
    assert forall b :: b in DueSet(ViewOf(current), history.facts, now, limits.rotateAfter) ==> Decided([], b);
  }

  lemma DueHasRoom(current: Generation, next: Number, now: int, history: LineageHistory, limits: RotationLimits,
                   decisions: seq<EligibilityDecision>)
    requires Consistent(current) && next == current.number + 1 && history.complete && ValidLimits(limits)
    requires |ActiveSet(ViewOf(current))| <= limits.maximumBindings
    requires ActiveLineages(ViewOf(current), history.facts, now + limits.maximumClockSkew)
    requires Decisions(ViewOf(current), history.facts, now, limits.rotateAfter, decisions)
    requires forall b :: b in DecisionBindings(decisions) ==> ActiveBinding(ViewOf(current), b) && RoomFor(b.domain)
    ensures RotationFits(current, next, now, history, limits)
  {
    hide Consistent, SlotTable, ProfileTable, PolicyTable, DueSet, ActiveBinding, ActiveLineages, Since, RoomFor;
    forall b | b in DueSet(ViewOf(current), history.facts, now, limits.rotateAfter)
      ensures ActiveBinding(ViewOf(current), b) && RoomFor(b.domain)
    {
      assert Decided(decisions, b);
      var d :| d in decisions && d.binding == b;
      var i :| 0 <= i < |decisions| && decisions[i] == d;
      assert DecisionBindings(decisions)[i] == b;
    }
  }

  lemma SuppliedAtStart(replacer: KeyReplacer, current: Generation, wanted: seq<Algorithm>)
    requires replacer.Valid() && replacer.drawn == replacer.generated == 0
    requires replacer.usedSelectors == CredentialSelectors(current.credentials)
    requires replacer.usedHandles == HandleIds(current.handles)
    requires Ample(current, replacer.identifiers, replacer.attempts, replacer.draws, replacer.pairs, wanted)
    ensures replacer.Supplied(wanted)
  {
    assert replacer.draws[0..] == replacer.draws && replacer.pairs[0..] == replacer.pairs;
  }

  lemma DemandStep(v: View, bindings: seq<BindingKey>, wanted: Option<set<Algorithm>>, i: nat)
    requires i < |bindings|
    ensures Demand(v, bindings[i..], wanted) == Request(v, bindings[i], wanted) + Demand(v, bindings[i + 1..], wanted)
  {
    assert bindings[i..][1..] == bindings[i + 1..];
  }

  lemma RequestIs(v: View, b: BindingKey, requested: seq<Algorithm>)
    requires Strictly(requested, AlgorithmKey) && Unique(requested)
    ensures Request(v, b, Some(AlgorithmsIn(requested))) == requested
  {
    SortedIsRankOrder(requested);
  }

  lemma DueRequest(v: View, b: BindingKey, sorted: seq<Algorithm>)
    requires Ordered(sorted, AlgorithmKey) && Unique(sorted) && b in v.policies
    requires AlgorithmsIn(sorted) == SlotAlgorithms(v, v.policies[b].profile)
    ensures Request(v, b, None) == sorted
  {
    OrderedIsRankOrder(sorted);
  }

  /** Every binding of a built campaign had room. */
  lemma CampaignRoom(g: Generation, n: Number, bindings: seq<BindingKey>, wanted: Option<set<Algorithm>>,
                     targets: map<Id, set<Algorithm>>, news: map<SlotKey, Slot>, x: Generation, selectors: set<string>,
                     handles: set<string>, ids: Identifiers, pairs: seq<Option<KeyPair>>)
    requires Consistent(g) && Consistent(x) && CampaignState(g, n, targets, news, x, selectors, handles, ids, pairs)
    requires Aims(ViewOf(g), bindings, wanted, targets) && ShortDone(x, targets.Keys)
    ensures forall b :: b in bindings ==> ActiveBinding(ViewOf(g), b) && RoomFor(b.domain)
  {
    hide Consistent, SlotTable, ProfileTable, PolicyTable, CampaignState, ActiveBinding, RoomFor, ShortDone,
      SlotAlgorithms;
    ContentsNumber(g, n, targets, news, x, selectors, handles, ids, pairs);
    forall b | b in bindings ensures ActiveBinding(ViewOf(g), b) && RoomFor(b.domain) {
      ActiveProfile(ViewOf(g), b);
      RoomNeeded(g, n, x, b, targets.Keys);
    }
  }

  lemma SoundMeans(x: Generation, selectors: set<string>, handles: set<string>)
    requires Sound(x, selectors, handles)
    ensures Consistent(x)
  {
    hide Consistent;
  }

  lemma OwnsSomething(g: Generation, p: Id, credentials: seq<Credential>, sorted: seq<Algorithm>)
    requires Consistent(g) && Owns(g, p, credentials) && p in ViewOf(g).profiles
    requires AlgorithmsIn(sorted) == Algorithms(credentials)
    ensures sorted != []
  {
    hide SlotTable, PolicyTable, ProfileTable, ValidMaterials, ValidPolicies, ValidHandles, CredentialsApart;
    var o := ProfileElim(g, p);
    assert Owned(o.id, g.credentials);
    var c :| c in g.credentials && c.profileId == p;
    assert c in credentials;
    assert c.algorithm in Algorithms(credentials);
  }

  lemma DecisionsStrict(v: View, facts: seq<LineageFact>, now: int, rotateAfter: int, list: seq<EligibilityDecision>)
    requires Decisions(v, facts, now, rotateAfter, list)
    ensures Strictly(list, DecisionKey)
  {}

  lemma AimsNothing(v: View, wanted: Option<set<Algorithm>>)
    ensures Aims(v, [], wanted, map[])
  {}

  method ContainsEvery(requested: seq<Algorithm>, current: seq<Algorithm>) returns (ok: bool)
    ensures ok <==> AlgorithmsIn(current) <= AlgorithmsIn(requested)
  {
    for i := 0 to |current|
      invariant forall j :: 0 <= j < i ==> current[j] in requested
    {
      if current[i] !in requested {
        assert current[i] in AlgorithmsIn(current);
        return false;
      }
    }
    ok := true;
  }

  ghost function RequestedSet(v: View, p: Id, algorithms: seq<Algorithm>): set<Algorithm>
  {
    if algorithms == [] then SlotAlgorithms(v, p) else AlgorithmsIn(algorithms)
  }

  ghost predicate RsaFits(requested: set<Algorithm>, rsaBits: int)
  {
    RsaSha256 in requested ==> MIN_RSA_BITS <= rsaBits <= MAX_RSA_BITS && rsaBits % 8 == 0
  }

  /** The requested algorithms, or the current ones; none may be dropped. */
  method RequestedAlgorithms(own: seq<Algorithm>, algorithms: seq<Algorithm>, rsaBits: int)
      returns (result: Result<seq<Algorithm>>)
    requires own != [] && Unique(own)
    ensures var wanted := AlgorithmsIn(if algorithms == [] then own else algorithms);
      && (result.Ok? <==>
            (algorithms == [] || AlgorithmSet(algorithms)) && AlgorithmsIn(own) <= wanted && RsaFits(wanted, rsaBits))
      && (result.Ok? ==>
            && result.value == RankOrder(wanted) && AlgorithmsIn(result.value) == wanted && Unique(result.value)
            && result.value != [])
  {
    hide RankOrder;
    var input := if algorithms == [] then own else algorithms;
    var canonical := CanonicalAlgorithmSet(input);
    if canonical.Err? { return Err(Invalid); }
    var requested := canonical.value;
    assert input[0] in requested;
    assert AlgorithmsIn(requested) == AlgorithmsIn(input);
    SortedIsRankOrder(requested);
    var kept := ContainsEvery(requested, own);
    if !kept { return Err(Invalid); }
    if RsaSha256 in requested && (rsaBits < MIN_RSA_BITS || rsaBits > MAX_RSA_BITS || rsaBits % 8 != 0) {
      return Err(Invalid);
    }
    result := Ok(requested);
  }

  /** Fresh names first, then the keys, then the candidate. */
  method RekeySingle(current: Generation, next: Number, b: BindingKey, p: Id, requested: seq<Algorithm>, attempts: int,
                     ids: Identifiers, draws: seq<Draw>, pairs: seq<Option<KeyPair>>)
      returns (result: Result<Generation>)
    requires Consistent(current) && next == current.number + 1 && ActiveBinding(ViewOf(current), b)
    requires ViewOf(current).policies[b].profile == p && Native(b.use)
    requires Unique(requested) && requested != []
    ensures result.Ok? ==>
      && Valid(result.value) && result.value.number == next && result.value.state == Staging
      && Rekeyed(ViewOf(current), ViewOf(result.value), map[p := AlgorithmsIn(requested)], ids, pairs)
      && IndependentKeys(ViewOf(result.value), {p}, pairs)
    ensures result.Ok? ==> RoomFor(b.domain)
    ensures RoomFor(b.domain) && Ample(current, ids, attempts, draws, pairs, requested) ==> result.Ok?
  {
    hide Consistent, SlotTable, ProfileTable, PolicyTable, CampaignState, Canonical, Rekeyed, HandleIds,
      CredentialSelectors, Rekey, SlotMap, Sound, RoomFor, PlentyNames, PlentyPairs, ShortName, ActiveBinding;
    hide FreshIdentifiers, Generated, ReservedNames, Selectors, Handles, CredentialsOf, MaterialsOf, Algorithms, Paired,
      OneToOne, Names, DistinctKeys, ProfileHandles, Ample, AlgorithmsIn, ShortDone;
    ActiveProfile(ViewOf(current), b);
    var replacer := new KeyReplacer(current, next, ids, attempts, draws, pairs);
    ghost var usedSelectors := replacer.usedSelectors;
    ghost var usedHandles := replacer.usedHandles;
    if Ample(current, ids, attempts, draws, pairs, requested) { SuppliedAtStart(replacer, current, requested); }
    var names := replacer.AllocateAll(|requested|);
    if names.Err? { return Err(names.error); }
    NameCounts(names.value.0, names.value.1, |requested|, usedSelectors, replacer.usedSelectors, usedHandles,
               replacer.usedHandles, ids);
    var keys := replacer.KeysFor(b, requested, names.value.0, names.value.1);
    if keys.Err? { return Err(keys.error); }
    NamedSlots(keys.value, names.value.0, names.value.1, usedSelectors, usedHandles, replacer.usedSelectors,
               replacer.usedHandles, ids);

    var builder := new Builder.Next(current, next, Staging);
    CampaignBegins(current, next, ids, pairs);
    ghost var contents := builder.Contents();
    ReplaceReady(current, next, map[], map[], contents, usedSelectors, usedHandles, ids, pairs, p);
    PairedKeys(next, p, requested, keys.value);
    var ok := builder.ReplaceProfileKeys(p, CredentialsOf(next, p, requested, keys.value),
                                         MaterialsOf(next, p, requested, keys.value));
    if !ok { return Err(Invalid); }
    SlotsShort(keys.value, names.value.0);
    NothingDone(contents);
    ContentsNumber(current, next, map[], map[], contents, usedSelectors, usedHandles, ids, pairs);
    ShortStep(contents, {}, p, requested, keys.value);
    if RoomFor(b.domain) {
      SoundStart(current, next);
      SoundAdvance(current, next, map[], map[], contents, usedSelectors, usedHandles, ids, pairs, p, b, requested,
                   keys.value);
      SoundMeans(builder.Contents(), usedSelectors + Selectors(keys.value), usedHandles + Handles(keys.value));
    }
    CampaignAdvance(current, next, map[], map[], contents, usedSelectors, usedHandles, ids, pairs, p, b, requested,
                    keys.value);
    result := builder.Build();
    if result.Ok? {
      ghost var none: map<Id, set<Algorithm>> := map[];
      ghost var nothing: map<SlotKey, Slot> := map[];
      ghost var targets := none[p := AlgorithmsIn(requested)];
      assert targets == map[p := AlgorithmsIn(requested)];
      ContentsNumber(current, next, targets, nothing + SlotMap(p, requested, keys.value), builder.Contents(),
                     usedSelectors + Selectors(keys.value), usedHandles + Handles(keys.value), ids, pairs);
      RoomNeeded(current, next, builder.Contents(), b, {} + {p});
      CampaignResult(current, next, targets, nothing + SlotMap(p, requested, keys.value), builder.Contents(),
                     usedSelectors + Selectors(keys.value), usedHandles + Handles(keys.value), ids, pairs,
                     result.value);
      NothingApart(pairs);
      KeysApartStep(nothing, pairs, 0, p, requested, keys.value);
      CampaignKeysApart(current, next, targets, nothing + SlotMap(p, requested, keys.value), builder.Contents(),
                        usedSelectors + Selectors(keys.value), usedHandles + Handles(keys.value), ids, pairs,
                        |keys.value|, result.value);
      assert targets.Keys == {p};
    }
  }

  /** Replaces one complete active binding; it may extend the algorithm set and never drops an algorithm. */
  method PlanRotation(current: Generation, next: Number, b: BindingKey, algorithms: seq<Algorithm>, rsaBits: int,
                      attempts: int, ids: Identifiers, draws: seq<Draw>, pairs: seq<Option<KeyPair>>)
      returns (result: Result<Generation>)
    requires Consistent(current)
    ensures result.Ok? ==> SingleFits(current, next, b, algorithms, rsaBits) && Native(b.use)
    ensures result.Ok? ==>
      var p := ViewOf(current).policies[b].profile;
      var requested := RequestedSet(ViewOf(current), p, algorithms);
      && SlotAlgorithms(ViewOf(current), p) <= requested
      && Valid(result.value) && result.value.number == current.number + 1 && result.value.state == Staging
      && Rekeyed(ViewOf(current), ViewOf(result.value), map[p := requested], ids, pairs)
      && IndependentKeys(ViewOf(result.value), {p}, pairs)
    ensures SingleFits(current, next, b, algorithms, rsaBits) &&
            Ample(current, ids, attempts, draws, pairs,
            RankOrder(RequestedSet(ViewOf(current), ViewOf(current).policies[b].profile, algorithms))) ==>
      result.Ok?
  {
    hide Consistent, SlotTable, ProfileTable, PolicyTable, Canonical, Rekeyed, RoomFor, RankOrder, ActiveBinding,
      SlotAlgorithms, AlgorithmsIn, Ample, RsaFits, AlgorithmSet, Unique;
    ConsistentView(current);
    if SingleFits(current, next, b, algorithms, rsaBits) { NativeBinding(ViewOf(current), b); }
    AttemptsNeeded(current, ids, attempts, draws, pairs);
    if current.number == MAX_NUMBER || next != current.number + 1 || attempts <= 0 || !Native(b.use) {
      return Err(Invalid);
    }
    var own := OwnAlgorithms(current, b);
    if own.Err? { return Err(own.error); }
    var requested := RequestedAlgorithms(own.value.1, algorithms, rsaBits);
    if requested.Err? { return Err(requested.error); }
    result := RekeySingle(current, next, b, own.value.0, requested.value, attempts, ids, draws, pairs);
  }

  /** Everything but randomness and key generation that a single rotation needs. */
  ghost predicate SingleFits(current: Generation, next: Number, b: BindingKey, algorithms: seq<Algorithm>, rsaBits: int)
    requires Consistent(current)
  {
    var v := ViewOf(current);
    && next == current.number + 1 && ActiveBinding(v, b) && RoomFor(b.domain)
    && (algorithms == [] || AlgorithmSet(algorithms))
    && var requested := RequestedSet(v, v.policies[b].profile, algorithms);
       && SlotAlgorithms(v, v.policies[b].profile) <= requested
       && RsaFits(requested, rsaBits)
  }

  lemma AttemptsNeeded(current: Generation, ids: Identifiers, attempts: int, draws: seq<Draw>,
                       pairs: seq<Option<KeyPair>>)
    ensures forall wanted :: Ample(current, ids, attempts, draws, pairs, wanted) ==> attempts > 0
  {}

  lemma SlotsShort(slots: seq<Slot>, selectors: seq<DnsName>)
    requires |slots| == |selectors| && (forall i :: 0 <= i < |slots| ==> slots[i].selector == selectors[i])
    requires forall x :: x in selectors ==> ShortName(x)
    ensures forall s :: s in slots ==> ShortName(s.selector)
  {
    forall s | s in slots ensures ShortName(s.selector) {
      var i :| 0 <= i < |slots| && slots[i] == s;
      assert selectors[i] in selectors;
    }
  }

  lemma NameCounts(selectors: seq<string>, handles: seq<string>, count: nat, a: set<string>, b: set<string>,
                   c: set<string>, d: set<string>, ids: Identifiers)
    requires ReservedNames(selectors, count, a, b, ids.selectors) && ReservedNames(handles, count, c, d, ids.handles)
    ensures |selectors| == |handles| == count
  {}

  // ---------------------------------------------------------------------------------------------
  // Extension of every active binding
  // ---------------------------------------------------------------------------------------------

  /** Every binding keeps its algorithms under the request. */
  ghost predicate Keepable(v: View, bindings: seq<BindingKey>, requested: set<Algorithm>)
  {
    forall b :: b in bindings ==> ActiveBinding(v, b) && SlotAlgorithms(v, v.policies[b].profile) <= requested
  }

  /** Some binding lacks a requested algorithm. */
  ghost predicate Extends(v: View, bindings: seq<BindingKey>, requested: set<Algorithm>)
  {
    exists b :: b in bindings && b in v.policies && SlotAlgorithms(v, v.policies[b].profile) < requested
  }

  /** The first pass: no binding may lose an algorithm, and at least one must gain one. */
  method CollectExtension(current: Generation, bindings: seq<BindingKey>, requested: seq<Algorithm>)
      returns (ok: bool, profiles: seq<Id>, grows: bool)
    requires Consistent(current) && Unique(requested)
    ensures ok ==> |profiles| == |bindings| && Keepable(ViewOf(current), bindings, AlgorithmsIn(requested))
    ensures ok ==>
      forall i :: 0 <= i < |bindings| ==>
        bindings[i] in ViewOf(current).policies && ViewOf(current).policies[bindings[i]].profile == profiles[i]
    ensures ok ==> (grows <==> Extends(ViewOf(current), bindings, AlgorithmsIn(requested)))
    ensures Keepable(ViewOf(current), bindings, AlgorithmsIn(requested)) ==> ok
  {
    hide Consistent, SlotTable, ProfileTable, PolicyTable, ActiveBinding, SlotAlgorithms, Algorithms, AlgorithmsIn;
    profiles, grows := [], false;
    ghost var v := ViewOf(current);
    ghost var wanted := AlgorithmsIn(requested);
    for i := 0 to |bindings|
      invariant |profiles| == i
      invariant Keepable(v, bindings[..i], wanted)
      invariant forall j :: 0 <= j < i ==> bindings[j] in v.policies && v.policies[bindings[j]].profile == profiles[j]
      invariant grows <==> Extends(v, bindings[..i], wanted)
    {
      var exact := ExactActiveBinding(current, bindings[i]);
      if exact.Err? { return false, profiles, grows; }
      var (policy, profile, credentials) := exact.value;
      var own := AlgorithmsInOrder(credentials);
      OwnedAlgorithms(current, profile.id, credentials, own);
      var kept := ContainsEvery(requested, own);
      if !kept { return false, profiles, grows; }
      OwnsSlots(current, profile.id, credentials);
      RequestedSize(requested);
      SubsetOfEqualSize(SlotAlgorithms(v, profile.id), wanted);
      ActivePolicy(v, bindings[i]);
      assert bindings[..i + 1] == bindings[..i] + [bindings[i]];
      assert forall x :: x in bindings[..i + 1] <==> x in bindings[..i] || x == bindings[i];
      grows := grows || |credentials| < |requested|;
      profiles := profiles + [profile.id];
    }
    assert bindings[..|bindings|] == bindings;
    ok := true;
  }

  lemma RequestedSize(requested: seq<Algorithm>)
    requires Unique(requested)
    ensures |AlgorithmsIn(requested)| == |requested|
  {
    UniqueSize(requested);
  }

  lemma ActivePolicy(v: View, b: BindingKey)
    requires ActiveBinding(v, b)
    ensures b in v.policies
  {}

  /** Rekeys binding after binding to the requested set. */
  method RekeyAll(current: Generation, builder: Builder, replacer: KeyReplacer, bindings: seq<BindingKey>,
                  profiles: seq<Id>, requested: seq<Algorithm>)
      returns (ok: bool, ghost targets: map<Id, set<Algorithm>>, ghost news: map<SlotKey, Slot>)
    requires Consistent(current) && replacer.Valid() && Unique(bindings) && Strictly(requested, AlgorithmKey)
    requires Unique(requested) && requested != []
    requires Keepable(ViewOf(current), bindings, AlgorithmsIn(requested)) && |profiles| == |bindings|
    requires forall i :: 0 <= i < |bindings| ==>
      bindings[i] in ViewOf(current).policies && ViewOf(current).policies[bindings[i]].profile == profiles[i]
    requires InCampaign(current, [], Some(AlgorithmsIn(requested)), map[], map[], builder, replacer)
    modifies builder, replacer
    ensures replacer.Valid()
    ensures ok ==> InCampaign(current, bindings, Some(AlgorithmsIn(requested)), targets, news, builder, replacer)
    ensures ok ==> ShortDone(builder.Contents(), targets.Keys)
    ensures ok && (forall b :: b in bindings ==> RoomFor(b.domain)) && old(SoundSoFar(builder, replacer)) ==>
      SoundSoFar(builder, replacer)
    ensures
      && replacer.next > 0
      && old(replacer.Supplied(Demand(ViewOf(current), bindings, Some(AlgorithmsIn(requested))))) ==>
        ok
  {
    hide ShortDone, RoomFor, Sound, PlentyNames, PlentyPairs, RankOrder, Request, Demand, CampaignState, Aims,
      Consistent, SlotTable, ProfileTable, PolicyTable, SlotAlgorithms, ActiveBinding, Rekey, HandleIds, AlgorithmsIn,
      CredentialSelectors, Strictly;
    targets, news := map[], map[];
    ghost var v, wanted := ViewOf(current), Some(AlgorithmsIn(requested));
    ghost var plenty := replacer.next > 0 && replacer.Supplied(Demand(v, bindings, wanted));
    ghost var room := (forall b :: b in bindings ==> RoomFor(b.domain)) && SoundSoFar(builder, replacer);
    assert bindings[0..] == bindings;
    NothingDone(builder.Contents());
    assert targets.Keys == {};
    for i := 0 to |bindings|
      invariant replacer.Valid() && InCampaign(current, bindings[..i], wanted, targets, news, builder, replacer)
      invariant ShortDone(builder.Contents(), targets.Keys)
      invariant plenty ==> replacer.Supplied(Demand(v, bindings[i..], wanted))
      invariant room ==> SoundSoFar(builder, replacer)
    {
      assert bindings[..i + 1] == bindings[..i] + [bindings[i]];
      assert bindings[i] in bindings;
      DemandStep(v, bindings, wanted, i);
      RequestIs(v, bindings[i], requested);
      ok, targets, news := RekeyBinding(current, builder, replacer, bindings[i], profiles[i], requested, wanted,
                                        Demand(v, bindings[i + 1..], wanted), bindings[..i], targets, news);
      if !ok { return; }
    }
    assert bindings[..|bindings|] == bindings;
    ok := true;
  }

  /** Rekeys every active native binding to exactly the requested set in one successor; repeated on a current state
      that already carries it, no candidate is built. */
  method PlanGlobalExtension(current: Generation, next: Number, algorithms: seq<Algorithm>, ids: Identifiers,
                             limits: RotationLimits, draws: seq<Draw>, pairs: seq<Option<KeyPair>>)
      returns (result: Result<Option<(Generation, seq<BindingKey>)>>)
    requires Consistent(current)
    ensures result.Ok? ==>
      && next == current.number + 1 && ValidLimits(limits) && AlgorithmSet(algorithms) && current.state == Committed
      && AllNative(ActiveSet(ViewOf(current))) && 0 < |ActiveSet(ViewOf(current))| <= limits.maximumBindings
    ensures result.Ok? && result.value.Some? ==> ExtensionFits(current, next, algorithms, limits)
    ensures result.Ok? && result.value.None? ==>
      forall b :: b in ActiveSet(ViewOf(current)) ==>
        SlotAlgorithms(ViewOf(current), ViewOf(current).policies[b].profile) == AlgorithmsIn(algorithms)
    ensures result.Ok? && result.value.Some? ==>
      var (candidate, bindings) := result.value.value;
      && Lists(bindings, ActiveSet(ViewOf(current))) && Keepable(ViewOf(current), bindings, AlgorithmsIn(algorithms))
      && Extends(ViewOf(current), bindings, AlgorithmsIn(algorithms))
      && CampaignCandidate(current, candidate, bindings, Some(AlgorithmsIn(algorithms)), ids, pairs)
    ensures ExtensionFits(current, next, algorithms, limits) &&
            (forall bindings :: Lists(bindings, ActiveSet(ViewOf(current))) ==>
               Ample(current, ids, limits.allocationAttempts, draws, pairs,
                   Demand(ViewOf(current), bindings, Some(AlgorithmsIn(algorithms))))) ==>
      result.Ok?
  {
    hide Consistent, SlotTable, ProfileTable, PolicyTable, CampaignState, Aims, Canonical, Rekeyed, HandleIds,
      CredentialSelectors, ActiveBinding, SlotAlgorithms, Sound, RoomFor, PlentyNames, PlentyPairs, RankOrder, Ample,
      Demand, Request, ActiveSet, Keepable, Extends, ShortDone;
    if current.number == MAX_NUMBER || next != current.number + 1 || !ValidLimits(limits) { return Err(Invalid); }
    var canonical := CanonicalAlgorithmSet(algorithms);
    if canonical.Err? { return Err(canonical.error); }
    var requested := canonical.value;
    assert AlgorithmsIn(requested) == AlgorithmsIn(algorithms);
    assert algorithms[0] in requested;
    if ExtensionFits(current, next, algorithms, limits) {
      forall bindings | Lists(bindings, ActiveSet(ViewOf(current)))
        ensures Keepable(ViewOf(current), bindings, AlgorithmsIn(requested))
      {
        FitsKeepable(current, next, algorithms, limits, bindings);
      }
    }
    var active := ActiveBindings(current, limits.maximumBindings);
    if active.Err? { return Err(active.error); }
    var bindings := active.value;
    StrictIsUnique(bindings);
    var ok, profiles, grows := CollectExtension(current, bindings, requested);
    if !ok { return Err(Invalid); }
    if !grows {
      NothingExtends(ViewOf(current), bindings, AlgorithmsIn(requested));
      return Ok(None);
    }
    var builder := new Builder.Next(current, next, Staging);
    var replacer := new KeyReplacer(current, next, ids, limits.allocationAttempts, draws, pairs);
    ghost var targets: map<Id, set<Algorithm>>;
    ghost var news: map<SlotKey, Slot>;
    CampaignBegins(current, next, ids, pairs);
    AimsNothing(ViewOf(current), Some(AlgorithmsIn(requested)));
    SoundStart(current, next);
    ghost var clean := ExtensionFits(current, next, algorithms, limits) &&
        Ample(current, ids, limits.allocationAttempts, draws, pairs,
        Demand(ViewOf(current), bindings, Some(AlgorithmsIn(requested))));
    if clean {
      SuppliedAtStart(replacer, current, Demand(ViewOf(current), bindings, Some(AlgorithmsIn(requested))));
      FitsKeepable(current, next, algorithms, limits, bindings);
    }
    ok, targets, news := RekeyAll(current, builder, replacer, bindings, profiles, requested);
    if !ok { return Err(Invalid); }
    if clean { SoundMeans(builder.Contents(), replacer.usedSelectors, replacer.usedHandles); }
    var candidate := builder.Build();
    if candidate.Err? { return Err(candidate.error); }
    CampaignRoom(current, next, bindings, Some(AlgorithmsIn(requested)), targets, news, builder.Contents(),
                 replacer.usedSelectors, replacer.usedHandles, ids, pairs);
    AllHaveRoom(current, next, algorithms, limits, bindings);
    CampaignResult(current, next, targets, news, builder.Contents(), replacer.usedSelectors, replacer.usedHandles, ids,
                   pairs, candidate.value);
    CampaignKeysApart(current, next, targets, news, builder.Contents(), replacer.usedSelectors, replacer.usedHandles,
                      ids, pairs, replacer.generated, candidate.value);
    AimsAt(ViewOf(current), bindings, Some(AlgorithmsIn(requested)), targets);
    result := Ok(Some((candidate.value, bindings)));
  }

  /** Everything but randomness and key generation that an extension needs. */
  ghost predicate ExtensionFits(current: Generation, next: Number, algorithms: seq<Algorithm>, limits: RotationLimits)
    requires Consistent(current)
  {
    var v := ViewOf(current);
    && next == current.number + 1 && ValidLimits(limits) && AlgorithmSet(algorithms) && current.state == Committed
    && AllNative(ActiveSet(v)) && 0 < |ActiveSet(v)| <= limits.maximumBindings
    && forall b :: b in ActiveSet(v) ==>
         && ActiveBinding(v, b) && RoomFor(b.domain)
         && SlotAlgorithms(v, v.policies[b].profile) <= AlgorithmsIn(algorithms)
  }

  lemma FitsKeepable(current: Generation, next: Number, algorithms: seq<Algorithm>, limits: RotationLimits,
                     bindings: seq<BindingKey>)
    requires Consistent(current) && ExtensionFits(current, next, algorithms, limits)
    requires Lists(bindings, ActiveSet(ViewOf(current)))
    ensures Keepable(ViewOf(current), bindings, AlgorithmsIn(algorithms))
    ensures forall b :: b in bindings ==> RoomFor(b.domain)
  {
    hide Consistent, SlotTable, ProfileTable, PolicyTable, ActiveBinding, SlotAlgorithms, RoomFor, Strictly,
      AlgorithmsIn;
  }

  lemma AllHaveRoom(current: Generation, next: Number, algorithms: seq<Algorithm>, limits: RotationLimits,
                    bindings: seq<BindingKey>)
    requires Consistent(current) && next == current.number + 1 && ValidLimits(limits) && AlgorithmSet(algorithms)
    requires current.state == Committed
    requires AllNative(ActiveSet(ViewOf(current))) && 0 < |ActiveSet(ViewOf(current))| <= limits.maximumBindings
    requires Lists(bindings, ActiveSet(ViewOf(current)))
    requires Keepable(ViewOf(current), bindings, AlgorithmsIn(algorithms))
    requires forall b :: b in bindings ==> ActiveBinding(ViewOf(current), b) && RoomFor(b.domain)
    ensures ExtensionFits(current, next, algorithms, limits)
  {
    hide Consistent, SlotTable, ProfileTable, PolicyTable, ActiveBinding, SlotAlgorithms, RoomFor, Strictly,
      AlgorithmsIn;
  }

  lemma NothingExtends(v: View, bindings: seq<BindingKey>, requested: set<Algorithm>)
    requires Keepable(v, bindings, requested) && !Extends(v, bindings, requested)
    ensures forall b :: b in bindings ==> SlotAlgorithms(v, v.policies[b].profile) == requested
  {
    hide SlotAlgorithms;
    forall b | b in bindings ensures SlotAlgorithms(v, v.policies[b].profile) == requested {
      assert !(SlotAlgorithms(v, v.policies[b].profile) < requested);
    }
  }
}

/** Allocation of fresh identifiers and keys, and the planners that build rotation and extension successors. */
module Rotation {
  import opened Wrappers
  import opened Text
  import opened Order
  import opened Records
  import opened Generations
  import opened Snapshots
  import opened Rebasing
  import opened Builders
  import opened Lifecycle
  import opened Campaign

  // ---------------------------------------------------------------------------------------------
  // Identifier allocation
  // ---------------------------------------------------------------------------------------------

  /** Twelve random bytes in lower-case hexadecimal. */
  type Draw = s: string | |s| == 24 && (forall c :: c in s ==>
      '0' <= c <= '9' || 'a' <= c <= 'f') witness "000000000000000000000000"

  /** Everything ever issued, as far as the retained history can tell; the lookup fails while it is incomplete. */
  datatype Identifiers = Identifiers(available: bool, selectors: set<string>, handles: set<string>)

  function SelectorText(d: Draw): string { "dkim2-" + d }

  function HandleText(d: Draw): string { "key-" + d }

  lemma {:induction false} SplitWhole(s: string, separator: char)
    requires separator !in s
    ensures Split(s, separator) == [s]
  {
    if s != "" {
      assert s[0] in s;
      assert forall c :: c in s[1..] ==> c in s;
      SplitWhole(s[1..], separator);
      assert s == [s[0]] + s[1..];
    }
  }

  lemma SelectorTextIsName(d: Draw)
    ensures CanonicalDnsName(SelectorText(d))
  {
    var s := SelectorText(d);
    assert forall i :: 6 <= i < |s| ==> s[i] == d[i - 6] && d[i - 6] in d;
    SplitWhole(s, '.');
  }

  lemma HandleTextIsId(d: Draw)
    ensures ValidIdentifier(HandleText(d))
  {
    var s := HandleText(d);
    assert forall i :: 4 <= i < |s| ==> s[i] == d[i - 4] && d[i - 4] in d;
  }

  function Candidate(prefix: string, d: Draw): string { prefix + "-" + d }

  /** The `i`-th draw is the first that was never issued. */
  ghost predicate FirstUnused(prefix: string, draws: seq<Draw>, i: nat, used: set<string>, historical: set<string>)
  {
    && i < |draws| && Candidate(prefix, draws[i]) !in used && Candidate(prefix, draws[i]) !in historical
    && forall j :: 0 <= j < i ==> Candidate(prefix, draws[j]) in used || Candidate(prefix, draws[j]) in historical
  }

  /** Bounded allocation: the first unused draw within the attempts, or an error. */
  method AllocateHistoricalId(prefix: string, draws: seq<Draw>, used: set<string>, available: bool,
                              historical: set<string>, attempts: int)
      returns (result: Result<Draw>, rest: seq<Draw>)
    ensures result.Ok? <==>
      available && exists i: nat :: i < attempts && FirstUnused(prefix, draws, i, used, historical)
    ensures result.Ok? ==>
      exists i: nat ::
        && i < attempts && FirstUnused(prefix, draws, i, used, historical) && result.value == draws[i]
        && rest == draws[i + 1..]
  {
    rest := draws;
    if attempts <= 0 { return Err(Invalid), rest; }
    for i := 0 to attempts
      invariant i <= |draws| && rest == draws[i..]
      invariant forall j :: 0 <= j < i ==>
        Candidate(prefix, draws[j]) in used || (available && Candidate(prefix, draws[j]) in historical)
    {
      if |rest| == 0 { return Err(Unavailable), rest; }
      var d := rest[0];
      rest := rest[1..];
      if Candidate(prefix, d) !in used {
        if !available { return Err(Unavailable), rest; }
        if Candidate(prefix, d) !in historical {
          assert FirstUnused(prefix, draws, i, used, historical);
          return Ok(d), rest;
        }
      }
    }
    result := Err(Unavailable);
  }

  // ---------------------------------------------------------------------------------------------
  // New keys as slots
  // ---------------------------------------------------------------------------------------------

  datatype KeyPair = KeyPair(algorithm: Algorithm, publicSpki: Spki, privatePkcs8: Bytes)

  function SlotCredential(n: Number, k: SlotKey, s: Slot): Credential
  {
    Credential(n, k.profile, s.selector, k.algorithm, s.publicSpki, s.handle)
  }

  function SlotMaterial(n: Number, k: SlotKey, s: Slot): KeyMaterial
    requires Native(s.binding.use)
  {
    KeyMaterial(n, s.binding.tenant, s.binding.domain, s.binding.use, s.handle, k.algorithm, s.publicSpki,
                s.privatePkcs8)
  }

  /** Keys issued for binding `b` of profile `p` in this order of algorithms. */
  ghost predicate Issued(p: Id, b: BindingKey, algorithms: seq<Algorithm>, slots: seq<Slot>)
  {
    && |slots| == |algorithms|
    && forall i :: 0 <= i < |slots| ==> slots[i].binding == b
  }

  /** The key of each slot came from the generator, for its algorithm. */
  /** The generator never answers with the same public key twice. */
  ghost predicate DistinctPublics(pairs: seq<Option<KeyPair>>)
  {
    forall i, j :: 0 <= i < j < |pairs| && pairs[i].Some? && pairs[j].Some? ==>
      pairs[i].value.publicSpki != pairs[j].value.publicSpki
  }

  ghost predicate PairBehind(pairs: seq<Option<KeyPair>>, i: nat, s: Slot)
  {
    i < |pairs| && pairs[i].Some? && pairs[i].value.publicSpki == s.publicSpki
  }

  /** The slots hold the answers from position `start` on, one each. */
  ghost predicate TakenFrom(pairs: seq<Option<KeyPair>>, start: nat, algorithms: seq<Algorithm>, slots: seq<Slot>)
  {
    && |slots| == |algorithms| && start + |slots| <= |pairs|
    && forall i :: 0 <= i < |slots| ==>
         pairs[start + i] == Some(KeyPair(algorithms[i], slots[i].publicSpki, slots[i].privatePkcs8))
  }

  /** All new keys stem from the first `used` answers, no two from the same one. */
  ghost predicate KeysApart(news: map<SlotKey, Slot>, pairs: seq<Option<KeyPair>>, used: nat)
  {
    && used <= |pairs|
    && (forall k :: k in news ==> exists i: nat :: i < used && PairBehind(pairs, i, news[k]))
    && (DistinctPublics(pairs) ==>
          forall j, k :: j in news && k in news && j != k ==> news[j].publicSpki != news[k].publicSpki)
  }

  lemma KeysApartStep(news: map<SlotKey, Slot>, pairs: seq<Option<KeyPair>>, start: nat, p: Id,
                      algorithms: seq<Algorithm>, slots: seq<Slot>)
    requires KeysApart(news, pairs, start) && TakenFrom(pairs, start, algorithms, slots) && Unique(algorithms)
    requires forall k :: k in news ==> k.profile != p
    ensures KeysApart(news + SlotMap(p, algorithms, slots), pairs, start + |slots|)
  {
    hide SlotMap, DistinctPublics;
    SlotMapContents(p, algorithms, slots);
    var added := SlotMap(p, algorithms, slots);
    var after := news + added;
    forall k | k in after ensures exists i: nat :: i < start + |slots| && PairBehind(pairs, i, after[k]) {
      if k in added {
        var i := AddedPair(pairs, start, p, algorithms, slots, k);
        assert i < start + |slots| && PairBehind(pairs, i, after[k]);
      } else {
        var i: nat :| i < start && PairBehind(pairs, i, news[k]);
        assert i < start + |slots| && PairBehind(pairs, i, after[k]);
      }
    }
    if DistinctPublics(pairs) {
      forall j, k | j in after && k in after && j != k ensures after[j].publicSpki != after[k].publicSpki {
        var x := PairOf(news, pairs, start, p, algorithms, slots, j);
        var y := PairOf(news, pairs, start, p, algorithms, slots, k);
        if x != y { PairsDiffer(pairs, x, y); }
      }
    }
  }

  lemma NothingApart(pairs: seq<Option<KeyPair>>)
    ensures KeysApart(map[], pairs, 0)
  {}

  lemma PairsDiffer(pairs: seq<Option<KeyPair>>, i: nat, j: nat)
    requires DistinctPublics(pairs) && i < |pairs| && j < |pairs| && i != j && pairs[i].Some? && pairs[j].Some?
    ensures pairs[i].value.publicSpki != pairs[j].value.publicSpki
  {
    assert i < j || j < i;
  }

  lemma AddedPair(pairs: seq<Option<KeyPair>>, start: nat, p: Id, algorithms: seq<Algorithm>, slots: seq<Slot>,
                  k: SlotKey)
      returns (i: nat)
    requires TakenFrom(pairs, start, algorithms, slots) && Unique(algorithms) && k in SlotMap(p, algorithms, slots)
    ensures start <= i < start + |slots| && PairBehind(pairs, i, SlotMap(p, algorithms, slots)[k])
    ensures k == SlotKey(p, algorithms[i - start])
  {
    hide SlotMap;
    SlotMapContents(p, algorithms, slots);
    var x :| 0 <= x < |algorithms| && algorithms[x] == k.algorithm;
    assert k == SlotKey(p, algorithms[x]);
    i := start + x;
  }

  /** A position of the key in the answers: an own one for an added key, an earlier one for any other. */
  lemma PairOf(news: map<SlotKey, Slot>, pairs: seq<Option<KeyPair>>, start: nat, p: Id, algorithms: seq<Algorithm>,
               slots: seq<Slot>, k: SlotKey)
      returns (i: nat)
    requires KeysApart(news, pairs, start) && TakenFrom(pairs, start, algorithms, slots) && Unique(algorithms)
    requires k in news || k in SlotMap(p, algorithms, slots)
    ensures PairBehind(pairs, i, (news + SlotMap(p, algorithms, slots))[k])
    ensures k in SlotMap(p, algorithms, slots) ==>
      start <= i < start + |slots| && k == SlotKey(p, algorithms[i - start])
    ensures k !in SlotMap(p, algorithms, slots) ==> i < start
  {
    hide SlotMap, DistinctPublics;
    if k in SlotMap(p, algorithms, slots) {
      i := AddedPair(pairs, start, p, algorithms, slots, k);
    } else {
      i :| i < start && PairBehind(pairs, i, news[k]);
    }
  }

  ghost predicate Generated(pairs: seq<Option<KeyPair>>, a: Algorithm, s: Slot)
  {
    exists i :: 0 <= i < |pairs| && pairs[i] == Some(KeyPair(a, s.publicSpki, s.privatePkcs8))
  }

  ghost predicate Avoids(slots: seq<Slot>, selectors: set<string>, handles: set<string>)
  {
    forall s :: s in slots ==> s.selector !in selectors && s.handle !in handles
  }

  ghost predicate DistinctSlots(slots: seq<Slot>)
  {
    forall i, j :: 0 <= i < j < |slots| ==> slots[i].selector != slots[j].selector && slots[i].handle != slots[j].handle
  }

  /** The identifiers of `slots` avoid each other and everything in use or in the history. */
  ghost predicate FreshIdentifiers(slots: seq<Slot>, selectors: set<string>, handles: set<string>, ids: Identifiers)
  {
    Avoids(slots, selectors, handles) && Avoids(slots, ids.selectors, ids.handles) && DistinctSlots(slots)
  }

  ghost function Selectors(slots: seq<Slot>): set<string> { set s | s in slots :: s.selector }

  ghost function Handles(slots: seq<Slot>): set<string> { set s | s in slots :: s.handle }

  function CredentialsOf(n: Number, p: Id, algorithms: seq<Algorithm>, slots: seq<Slot>): seq<Credential>
    requires |algorithms| == |slots|
  {
    seq(|slots|, i requires 0 <= i < |slots| => SlotCredential(n, SlotKey(p, algorithms[i]), slots[i]))
  }

  function MaterialsOf(n: Number, p: Id, algorithms: seq<Algorithm>, slots: seq<Slot>): seq<KeyMaterial>
    requires |algorithms| == |slots| && forall i :: 0 <= i < |slots| ==> Native(slots[i].binding.use)
  {
    seq(|slots|, i requires 0 <= i < |slots| => SlotMaterial(n, SlotKey(p, algorithms[i]), slots[i]))
  }

  lemma NamesStep(slots: seq<Slot>, x: Slot)
    ensures Selectors(slots + [x]) == Selectors(slots) + {x.selector}
    ensures Handles(slots + [x]) == Handles(slots) + {x.handle}
    ensures forall s, h :: Avoids(slots + [x], s, h) <==> Avoids(slots, s, h) && x.selector !in s && x.handle !in h
  {
    assert forall s :: s in slots + [x] <==> s in slots || s == x;
  }

  lemma DistinctStep(slots: seq<Slot>, x: Slot)
    requires DistinctSlots(slots) && x.selector !in Selectors(slots) && x.handle !in Handles(slots)
    ensures DistinctSlots(slots + [x])
  {
    forall i | 0 <= i < |slots| ensures slots[i].selector != x.selector && slots[i].handle != x.handle {
      assert slots[i] in slots;
    }
  }

  lemma FreshStep(slots: seq<Slot>, x: Slot, selectors: set<string>, handles: set<string>, ids: Identifiers)
    requires FreshIdentifiers(slots, selectors, handles, ids)
    requires x.selector !in selectors + Selectors(slots) && x.handle !in handles + Handles(slots)
    requires x.selector !in ids.selectors && x.handle !in ids.handles
    ensures FreshIdentifiers(slots + [x], selectors, handles, ids)
    ensures Selectors(slots + [x]) == Selectors(slots) + {x.selector}
    ensures Handles(slots + [x]) == Handles(slots) + {x.handle}
  {
    hide Avoids, DistinctSlots, Selectors, Handles;
    NamesStep(slots, x);
    DistinctStep(slots, x);
  }

  /** `slots` placed under their algorithms. */
  function SlotMap(p: Id, algorithms: seq<Algorithm>, slots: seq<Slot>): map<SlotKey, Slot>
    requires |algorithms| == |slots|
  {
    if |slots| == 0 then map[]
    else
      var last := |slots| - 1;
      SlotMap(p, algorithms[..last], slots[..last])[SlotKey(p, algorithms[last]) := slots[last]]
  }

  lemma {:induction false} SlotMapKeys(p: Id, algorithms: seq<Algorithm>, slots: seq<Slot>)
    requires |algorithms| == |slots|
    ensures forall k :: k in SlotMap(p, algorithms, slots) <==> k.profile == p && k.algorithm in algorithms
  {
    if slots != [] {
      var last := |slots| - 1;
      SlotMapKeys(p, algorithms[..last], slots[..last]);
      assert algorithms == algorithms[..last] + [algorithms[last]];
    }
  }

  lemma {:induction false} SlotMapAt(p: Id, algorithms: seq<Algorithm>, slots: seq<Slot>, i: nat)
    requires |algorithms| == |slots| && Unique(algorithms) && i < |slots|
    ensures SlotKey(p, algorithms[i]) in SlotMap(p, algorithms, slots)
    ensures SlotMap(p, algorithms, slots)[SlotKey(p, algorithms[i])] == slots[i]
  {
    var last := |slots| - 1;
    if i < last {
      SlotMapAt(p, algorithms[..last], slots[..last], i);
      assert algorithms[i] != algorithms[last];
    }
  }

  lemma SlotMapContents(p: Id, algorithms: seq<Algorithm>, slots: seq<Slot>)
    requires |algorithms| == |slots| && Unique(algorithms)
    ensures forall k :: k in SlotMap(p, algorithms, slots) <==> k.profile == p && k.algorithm in algorithms
    ensures forall i :: 0 <= i < |slots| ==>
      && SlotKey(p, algorithms[i]) in SlotMap(p, algorithms, slots)
      && SlotMap(p, algorithms, slots)[SlotKey(p, algorithms[i])] == slots[i]
  {
    hide SlotMap;
    SlotMapKeys(p, algorithms, slots);
    forall i | 0 <= i < |slots|
      ensures SlotKey(p, algorithms[i]) in SlotMap(p, algorithms, slots)
      ensures SlotMap(p, algorithms, slots)[SlotKey(p, algorithms[i])] == slots[i]
    {
      SlotMapAt(p, algorithms, slots, i);
    }
  }

  // ---------------------------------------------------------------------------------------------
  // The builder during a campaign
  // ---------------------------------------------------------------------------------------------

  /** A renumbered credential of a profile that has not been rekeyed. */
  ghost predicate FromOld(g: Generation, n: Number, done: set<Id>, c: Credential)
  {
    exists o :: o in g.credentials && o.profileId !in done && c == RebaseCredential(o, n)
  }

  ghost predicate FromNew(n: Number, news: map<SlotKey, Slot>, c: Credential)
  {
    CredentialSlot(c) in news && c == SlotCredential(n, CredentialSlot(c), news[CredentialSlot(c)])
  }

  ghost predicate NewSlots(g: Generation, done: set<Id>, news: map<SlotKey, Slot>)
  {
    forall k :: k in news ==>
      k.profile in done && Native(news[k].binding.use) && news[k].handle !in HandleIds(g.handles)
  }

  /** The credentials are the renumbered ones of the remaining profiles and the new ones. */
  ghost predicate CredentialsAre(g: Generation, n: Number, done: set<Id>, news: map<SlotKey, Slot>, x: seq<Credential>)
  {
    && (forall c {:trigger FromOld(g, n, done, c)} {:trigger FromNew(n, news, c)} :: c in x ==>
          FromOld(g, n, done, c) || FromNew(n, news, c))
    && (forall o :: o in g.credentials && o.profileId !in done ==> RebaseCredential(o, n) in x)
    && (forall k :: k in news ==> SlotCredential(n, k, news[k]) in x)
  }

  /** The key owners include those of every credential. */
  ghost predicate MaterialsServe(g: Generation, n: Number, done: set<Id>, news: map<SlotKey, Slot>, x: seq<KeyMaterial>)
    requires NewSlots(g, done, news)
  {
    && (forall k :: k in news ==> SlotMaterial(n, k, news[k]) in x)
    && (forall o, m :: o in g.credentials && m in g.materials && o.profileId !in done && m.handleId == o.handleId ==>
          RebaseMaterial(m, n) in x)
  }

  ghost predicate Campaigned(g: Generation, n: Number, done: set<Id>, news: map<SlotKey, Slot>, x: Generation)
  {
    && x.number == n && x.state == Staging
    && x.profiles == RebaseProfiles(g.profiles, n) && x.policies == RebasePolicies(g.policies, n)
    && NewSlots(g, done, news)
    && CredentialsAre(g, n, done, news, x.credentials)
    && MaterialsServe(g, n, done, news, x.materials)
  }

  lemma CampaignStart(g: Generation, n: Number)
    ensures Campaigned(g, n, {}, map[], Rebase(g, n, Staging))
  {
    RebasedCredentials(g.credentials, n);
    RebasedMaterials(g.materials, n);
    forall c | c in RebaseCredentials(g.credentials, n) ensures FromOld(g, n, {}, c) {
      var i :| 0 <= i < |g.credentials| && RebaseCredentials(g.credentials, n)[i] == c;
      assert g.credentials[i] in g.credentials;
    }
  }

  lemma CredentialsStepped(g: Generation, n: Number, done: set<Id>, news: map<SlotKey, Slot>, x: seq<Credential>,
                           p: Id, algorithms: seq<Algorithm>, slots: seq<Slot>)
    requires CredentialsAre(g, n, done, news, x) && (forall k :: k in news ==> k.profile in done) && p !in done
    requires |algorithms| == |slots| && Unique(algorithms)
    ensures CredentialsAre(g, n, done + {p}, news + SlotMap(p, algorithms, slots),
                           Without(x, OwnerName, {p}) + CredentialsOf(n, p, algorithms, slots))
  {
    hide Without, SlotMap;
    var issued := SlotMap(p, algorithms, slots);
    var added := CredentialsOf(n, p, algorithms, slots);
    SlotMapContents(p, algorithms, slots);
    WithoutMember(x, OwnerName, {p});
    var after := Without(x, OwnerName, {p}) + added;
    forall c | c in after ensures FromOld(g, n, done + {p}, c) || FromNew(n, news + issued, c) {
      if c in added {
        var i :| 0 <= i < |added| && added[i] == c;
        assert CredentialSlot(c) == SlotKey(p, algorithms[i]);
      } else {
        assert FromOld(g, n, done, c) || FromNew(n, news, c);
        if FromOld(g, n, done, c) {
          var o :| o in g.credentials && o.profileId !in done && c == RebaseCredential(o, n);
          assert o.profileId != p;
        }
      }
    }
    forall k | k in news + issued ensures SlotCredential(n, k, (news + issued)[k]) in after {
      if k in issued {
        var i :| 0 <= i < |algorithms| && algorithms[i] == k.algorithm;
        assert k == SlotKey(p, algorithms[i]);
        assert added[i] == SlotCredential(n, k, slots[i]);
      } else {
        assert SlotCredential(n, k, news[k]) in x;
      }
    }
  }

  lemma RemovedAreOld(g: Generation, n: Number, done: set<Id>, news: map<SlotKey, Slot>, x: seq<Credential>, p: Id,
                      h: string)
    requires CredentialsAre(g, n, done, news, x) && (forall k :: k in news ==> k.profile in done) && p !in done
    requires h in ProfileHandles(x, p)
    ensures exists o :: o in g.credentials && o.profileId == p && o.handleId == h
  {
    var c :| c in x && c.profileId == p && c.handleId == h;
    assert FromOld(g, n, done, c) || FromNew(n, news, c);
    var o :| o in g.credentials && o.profileId !in done && c == RebaseCredential(o, n);
  }

  /** Removing a profile's handles takes none that a remaining or a new key needs. */
  lemma RemovedAreUnneeded(g: Generation, n: Number, done: set<Id>, news: map<SlotKey, Slot>, x: seq<Credential>, p: Id)
    requires Consistent(g) && CredentialsAre(g, n, done, news, x) && NewSlots(g, done, news) && p !in done
    ensures forall k :: k in news ==> news[k].handle !in ProfileHandles(x, p)
    ensures forall o :: o in g.credentials && o.profileId !in done + {p} ==> o.handleId !in ProfileHandles(x, p)
  {
    hide ValidProfiles, ValidPolicies, ValidMaterials, ValidHandles, CredentialsAre, ProfileHandles;
    forall h | h in ProfileHandles(x, p)
      ensures h in HandleIds(g.handles) && forall o :: o in g.credentials && o.profileId != p ==> o.handleId != h
    {
      RemovedAreOld(g, n, done, news, x, p, h);
      var d :| d in g.credentials && d.profileId == p && d.handleId == h;
      assert CredentialLinked(d, g.number, g.handles, g.profiles);
      assert forall o :: o in g.credentials && o.profileId != p ==> Apart(o, d);
    }
  }

  lemma MaterialsStepped(g: Generation, n: Number, done: set<Id>, news: map<SlotKey, Slot>, x: seq<Credential>,
                         y: seq<KeyMaterial>, p: Id, b: BindingKey, algorithms: seq<Algorithm>, slots: seq<Slot>)
    requires Consistent(g) && CredentialsAre(g, n, done, news, x) && NewSlots(g, done, news)
    requires MaterialsServe(g, n, done, news, y) && p !in done
    requires Issued(p, b, algorithms, slots) && Unique(algorithms) && Native(b.use)
    requires forall i :: 0 <= i < |slots| ==> slots[i].handle !in HandleIds(g.handles)
    ensures NewSlots(g, done + {p}, news + SlotMap(p, algorithms, slots))
    ensures MaterialsServe(g, n, done + {p}, news + SlotMap(p, algorithms, slots),
                           Without(y, MaterialName, ProfileHandles(x, p)) + MaterialsOf(n, p, algorithms, slots))
  {
    hide Without, Consistent, CredentialsAre, ProfileHandles, SlotMap, HandleIds;
    var removed := ProfileHandles(x, p);
    RemovedAreUnneeded(g, n, done, news, x, p);
    var issued := SlotMap(p, algorithms, slots);
    var added := MaterialsOf(n, p, algorithms, slots);
    SlotMapContents(p, algorithms, slots);
    WithoutMember(y, MaterialName, removed);
    var after := Without(y, MaterialName, removed) + added;
    forall k | k in issued
      ensures exists i :: 0 <= i < |slots| && issued[k] == slots[i] && k == SlotKey(p, algorithms[i])
    {
      var i :| 0 <= i < |algorithms| && algorithms[i] == k.algorithm;
    }
    forall k | k in news + issued ensures SlotMaterial(n, k, (news + issued)[k]) in after {
      if k in issued {
        var i :| 0 <= i < |slots| && issued[k] == slots[i] && k == SlotKey(p, algorithms[i]);
        assert added[i] == SlotMaterial(n, k, slots[i]);
      } else {
        assert news[k].handle !in removed;
      }
    }
    forall o, m | o in g.credentials && m in g.materials && o.profileId !in done + {p} && m.handleId == o.handleId
      ensures RebaseMaterial(m, n) in after
    {
      assert m.handleId !in removed;
    }
  }

  /** Replacing the keys of one more profile. */
  lemma CampaignStep(g: Generation, n: Number, done: set<Id>, news: map<SlotKey, Slot>, x: Generation,
                     p: Id, b: BindingKey, algorithms: seq<Algorithm>, slots: seq<Slot>)
    requires Consistent(g) && Campaigned(g, n, done, news, x) && p !in done
    requires Issued(p, b, algorithms, slots) && Unique(algorithms) && Native(b.use)
    requires forall i :: 0 <= i < |slots| ==> slots[i].handle !in HandleIds(g.handles)
    ensures Campaigned(g, n, done + {p}, news + SlotMap(p, algorithms, slots),
                       Rekey(x, p, CredentialsOf(n, p, algorithms, slots), MaterialsOf(n, p, algorithms, slots)))
  {
    hide Consistent, CredentialsAre, MaterialsServe, Without, HandleIds;
    CredentialsStepped(g, n, done, news, x.credentials, p, algorithms, slots);
    MaterialsStepped(g, n, done, news, x.credentials, x.materials, p, b, algorithms, slots);
  }

  /** The table a campaign arrives at. */
  ghost function CampaignSlots(S: map<SlotKey, Slot>, done: set<Id>, news: map<SlotKey, Slot>): map<SlotKey, Slot>
  {
    map k | k in S.Keys + news.Keys && (if k.profile in done then k in news else k in S) :: if k.profile in done
        then news[k] else S[k]
  }

  lemma CampaignSlotsAre(g: Generation, n: Number, done: set<Id>, news: map<SlotKey, Slot>, x: Generation)
    requires Consistent(g) && Campaigned(g, n, done, news, x) && Consistent(x)
    ensures SlotTable(x) == CampaignSlots(SlotTable(g), done, news)
  {
    hide Consistent, SlotTable, HandleIds;
    var expected := CampaignSlots(SlotTable(g), done, news);
    forall c | c in x.credentials ensures SlotWitnessed(x, expected, c) {
      assert FromOld(g, n, done, c) || FromNew(n, news, c);
      if FromNew(n, news, c) {
        var k := CredentialSlot(c);
        var m := SlotMaterial(n, k, news[k]);
        assert m in x.materials && MakeSlot(c, m) == news[k];
      } else {
        var o :| o in g.credentials && o.profileId !in done && c == RebaseCredential(o, n);
        var m := CredentialHasSlot(g, o);
        assert RebaseMaterial(m, n) in x.materials;
      }
    }
    forall k | k in expected ensures SlotFilled(x, k) {
      if k.profile in done {
        assert SlotCredential(n, k, news[k]) in x.credentials;
      } else {
        var o, m := SlotElim(g, k);
        assert RebaseCredential(o, n) in x.credentials;
      }
    }
    SlotTableIs(x, expected);
  }

  lemma CampaignFactsAre(g: Generation, n: Number, x: Generation)
    requires Consistent(g) && Consistent(x) && x.profiles == RebaseProfiles(g.profiles, n)
    requires x.policies == RebasePolicies(g.policies, n)
    ensures ProfileTable(x) == ProfileTable(g) && PolicyTable(x) == PolicyTable(g)
  {
    hide Consistent, ProfileTable, PolicyTable;
    RebasedProfiles(g.profiles, n);
    RebasedPolicies(g.policies, n);
    forall p | p in x.profiles ensures p.id in ProfileTable(g) && ProfileTable(g)[p.id] == FactsOfProfile(p) {
      var i :| 0 <= i < |x.profiles| && x.profiles[i] == p;
      ProfileIntro(g, g.profiles[i]);
    }
    forall id | id in ProfileTable(g) ensures exists p :: p in x.profiles && p.id == id {
      var p := ProfileElim(g, id);
      assert RebaseProfile(p, n) in x.profiles;
    }
    ProfileTableIs(x, ProfileTable(g));
    forall q | q in x.policies
      ensures PolicyBinding(q) in PolicyTable(g) && PolicyTable(g)[PolicyBinding(q)] == FactsOfPolicy(q)
    {
      var i :| 0 <= i < |x.policies| && x.policies[i] == q;
      PolicyIntro(g, g.policies[i]);
    }
    forall b | b in PolicyTable(g) ensures exists q :: q in x.policies && PolicyBinding(q) == b {
      var q := PolicyElim(g, b);
      assert RebasePolicy(q, n) in x.policies;
    }
    PolicyTableIs(x, PolicyTable(g));
  }

  // ---------------------------------------------------------------------------------------------
  // What a campaign achieves
  // ---------------------------------------------------------------------------------------------

  /** A key that repeats no current identifier and none in the history, from the generator. */
  ghost predicate FreshKey(S: View, ids: Identifiers, pairs: seq<Option<KeyPair>>, a: Algorithm, s: Slot)
  {
    FreshSlot(S, s) && s.selector !in ids.selectors && s.handle !in ids.handles && Generated(pairs, a, s)
  }

  /** The targeted profiles carry exactly their target algorithms in fresh keys; everything else is as it was. */
  ghost predicate Rekeyed(S: View, K: View, targets: map<Id, set<Algorithm>>, ids: Identifiers,
                          pairs: seq<Option<KeyPair>>)
  {
    && K.profiles == S.profiles && K.policies == S.policies
    && (forall p {:trigger SameAt(S, K, p)} :: p in S.profiles && p !in targets ==> SameAt(S, K, p))
    && (forall p {:trigger Carries(K, p, targets[p])} :: p in targets ==> Carries(K, p, targets[p]))
    && (forall k :: k in K.slots && k.profile in targets ==> FreshKey(S, ids, pairs, k.algorithm, K.slots[k]))
  }

  /** The keys issued so far are exactly the targets' and all fresh. */
  ghost predicate NewKeys(S: View, targets: map<Id, set<Algorithm>>, news: map<SlotKey, Slot>, ids: Identifiers,
                          pairs: seq<Option<KeyPair>>)
  {
    && (forall k :: k in news <==> k.profile in targets && k.algorithm in targets[k.profile])
    && (forall k :: k in news ==> FreshKey(S, ids, pairs, k.algorithm, news[k]))
  }

  /** Every current identifier is reserved. */
  ghost predicate Reserved(S: View, selectors: set<string>, handles: set<string>)
  {
    forall k :: k in S.slots ==> S.slots[k].selector in selectors && S.slots[k].handle in handles
  }

  ghost predicate CampaignState(g: Generation, n: Number, targets: map<Id, set<Algorithm>>, news: map<SlotKey, Slot>,
                                x: Generation, selectors: set<string>, handles: set<string>, ids: Identifiers,
                                pairs: seq<Option<KeyPair>>)
    requires Consistent(g)
  {
    && Campaigned(g, n, targets.Keys, news, x)
    && NewKeys(ViewOf(g), targets, news, ids, pairs)
    && Reserved(ViewOf(g), selectors, handles) && HandleIds(g.handles) <= handles
  }

  lemma ReservedAtStart(g: Generation)
    requires Consistent(g)
    ensures Reserved(ViewOf(g), CredentialSelectors(g.credentials), HandleIds(g.handles))
  {
    hide SlotTable, ProfileTable, PolicyTable, ValidPolicies, ValidMaterials, ValidProfiles;
    forall k | k in SlotTable(g)
      ensures
        && SlotTable(g)[k].selector in CredentialSelectors(g.credentials)
        && SlotTable(g)[k].handle in HandleIds(g.handles)
    {
      var c, m := SlotElim(g, k);
      assert CredentialLinked(c, g.number, g.handles, g.profiles);
    }
  }

  lemma CampaignBegins(g: Generation, n: Number, ids: Identifiers, pairs: seq<Option<KeyPair>>)
    requires Consistent(g)
    ensures CampaignState(g, n, map[], map[], Rebase(g, n, Staging), CredentialSelectors(g.credentials),
                          HandleIds(g.handles), ids, pairs)
  {
    hide Consistent, SlotTable, ProfileTable, PolicyTable, Campaigned, Reserved;
    CampaignStart(g, n);
    ReservedAtStart(g);
    var none: map<Id, set<Algorithm>> := map[];
    assert none.Keys == {};
  }

  ghost function AlgorithmsIn(algorithms: seq<Algorithm>): set<Algorithm> { set a | a in algorithms }

  lemma IssuedAreFresh(S: View, p: Id, algorithms: seq<Algorithm>, slots: seq<Slot>, selectors: set<string>,
                       handles: set<string>, ids: Identifiers, pairs: seq<Option<KeyPair>>)
    requires |slots| == |algorithms| && Unique(algorithms) && Reserved(S, selectors, handles)
    requires FreshIdentifiers(slots, selectors, handles, ids)
    requires forall i :: 0 <= i < |slots| ==> Generated(pairs, algorithms[i], slots[i])
    ensures forall k :: k in SlotMap(p, algorithms, slots) ==>
      FreshKey(S, ids, pairs, k.algorithm, SlotMap(p, algorithms, slots)[k])
  {
    hide SlotMap, Generated, DistinctSlots;
    SlotMapContents(p, algorithms, slots);
    forall k | k in SlotMap(p, algorithms, slots)
      ensures FreshKey(S, ids, pairs, k.algorithm, SlotMap(p, algorithms, slots)[k])
    {
      var i :| 0 <= i < |algorithms| && algorithms[i] == k.algorithm;
      assert k == SlotKey(p, algorithms[i]);
      assert slots[i] in slots;
    }
  }

  lemma CampaignAdvance(g: Generation, n: Number, targets: map<Id, set<Algorithm>>, news: map<SlotKey, Slot>,
                        x: Generation, selectors: set<string>, handles: set<string>, ids: Identifiers,
                        pairs: seq<Option<KeyPair>>, p: Id, b: BindingKey, algorithms: seq<Algorithm>, slots: seq<Slot>)
    requires Consistent(g) && CampaignState(g, n, targets, news, x, selectors, handles, ids, pairs) && p !in targets
    requires Issued(p, b, algorithms, slots) && Unique(algorithms) && Native(b.use)
    requires FreshIdentifiers(slots, selectors, handles, ids)
    requires forall i :: 0 <= i < |slots| ==> Generated(pairs, algorithms[i], slots[i])
    ensures CampaignState(g, n, targets[p := AlgorithmsIn(algorithms)], news + SlotMap(p, algorithms, slots),
                          Rekey(x, p, CredentialsOf(n, p, algorithms, slots), MaterialsOf(n, p, algorithms, slots)),
                          selectors + Selectors(slots), handles + Handles(slots), ids, pairs)
  {
    hide Consistent, SlotTable, ProfileTable, PolicyTable, Campaigned, SlotMap, Rekey, Generated, HandleIds,
      CredentialsOf, MaterialsOf;
    hide NewKeys, Reserved, FreshIdentifiers, Selectors, Handles;
    NewKeysStep(ViewOf(g), targets, news, selectors, handles, ids, pairs, p, algorithms, slots);
    ReservedMore(ViewOf(g), selectors, handles, Selectors(slots), Handles(slots));
    NewHandles(slots, selectors, handles, ids);
    CampaignStep(g, n, targets.Keys, news, x, p, b, algorithms, slots);
    assert targets[p := AlgorithmsIn(algorithms)].Keys == targets.Keys + {p};
  }

  lemma NewHandles(slots: seq<Slot>, selectors: set<string>, handles: set<string>, ids: Identifiers)
    requires FreshIdentifiers(slots, selectors, handles, ids)
    ensures forall i :: 0 <= i < |slots| ==> slots[i].handle !in handles
  {
    assert forall i :: 0 <= i < |slots| ==> slots[i] in slots;
  }

  lemma ReservedMore(S: View, selectors: set<string>, handles: set<string>, x: set<string>, y: set<string>)
    requires Reserved(S, selectors, handles)
    ensures Reserved(S, selectors + x, handles + y)
  {}

  lemma NewKeysStep(S: View, targets: map<Id, set<Algorithm>>, news: map<SlotKey, Slot>, selectors: set<string>,
                    handles: set<string>, ids: Identifiers, pairs: seq<Option<KeyPair>>, p: Id,
                    algorithms: seq<Algorithm>, slots: seq<Slot>)
    requires NewKeys(S, targets, news, ids, pairs) && p !in targets && Reserved(S, selectors, handles)
    requires |slots| == |algorithms| && Unique(algorithms) && FreshIdentifiers(slots, selectors, handles, ids)
    requires forall i :: 0 <= i < |slots| ==> Generated(pairs, algorithms[i], slots[i])
    ensures NewKeys(S, targets[p := AlgorithmsIn(algorithms)], news + SlotMap(p, algorithms, slots), ids, pairs)
  {
    hide SlotMap, FreshKey, Generated, FreshIdentifiers, Reserved;
    IssuedAreFresh(S, p, algorithms, slots, selectors, handles, ids, pairs);
    SlotMapContents(p, algorithms, slots);
  }

  /** No two keys of these profiles are the same, as long as the generator does not repeat itself. */
  ghost predicate IndependentKeys(K: View, profiles: set<Id>, pairs: seq<Option<KeyPair>>)
  {
    DistinctPublics(pairs) ==>
      forall j, k :: j in K.slots && k in K.slots && j != k && j.profile in profiles && k.profile in profiles ==>
        K.slots[j].publicSpki != K.slots[k].publicSpki
  }

  lemma CampaignKeysApart(g: Generation, n: Number, targets: map<Id, set<Algorithm>>, news: map<SlotKey, Slot>,
                          x: Generation, selectors: set<string>, handles: set<string>, ids: Identifiers,
                          pairs: seq<Option<KeyPair>>, used: nat, result: Generation)
    requires Consistent(g) && Consistent(x) && Consistent(result) && SameRecords(result, x)
    requires CampaignState(g, n, targets, news, x, selectors, handles, ids, pairs) && KeysApart(news, pairs, used)
    ensures IndependentKeys(ViewOf(result), targets.Keys, pairs)
  {
    hide Consistent, SlotTable, ProfileTable, PolicyTable, FreshKey, Generated, HandleIds, CredentialsAre,
      MaterialsServe, NewSlots, Reserved, DistinctPublics;
    SameRecordsSameView(result, x);
    CampaignSlotsAre(g, n, targets.Keys, news, x);
  }

  lemma NewProfiles(g: Generation, n: Number, targets: map<Id, set<Algorithm>>, news: map<SlotKey, Slot>,
                    x: Generation, selectors: set<string>, handles: set<string>, ids: Identifiers,
                    pairs: seq<Option<KeyPair>>)
    requires Consistent(g) && CampaignState(g, n, targets, news, x, selectors, handles, ids, pairs)
    ensures forall k :: k in news ==> k.profile in targets
  {
    hide FreshKey, Campaigned, Reserved, Consistent;
  }

  lemma CampaignResult(g: Generation, n: Number, targets: map<Id, set<Algorithm>>, news: map<SlotKey, Slot>,
                       x: Generation, selectors: set<string>, handles: set<string>, ids: Identifiers,
                       pairs: seq<Option<KeyPair>>, result: Generation)
    requires Consistent(g) && Consistent(x) && Consistent(result) && SameRecords(result, x)
    requires CampaignState(g, n, targets, news, x, selectors, handles, ids, pairs)
    ensures Rekeyed(ViewOf(g), ViewOf(result), targets, ids, pairs) && result.number == n && result.state == Staging
  {
    hide Consistent, SlotTable, ProfileTable, PolicyTable, FreshKey, Generated, HandleIds, CredentialsAre,
      MaterialsServe, NewSlots, Reserved;
    SameRecordsSameView(result, x);
    CampaignSlotsAre(g, n, targets.Keys, news, x);
    CampaignFactsAre(g, n, x);
  }
}

/** The independent validators that decide what a stored successor is: a fresh rotation of exactly one binding,
    a retirement of its predecessor's keys, or a forward rollback. */
module Lifecycle {
  import opened Wrappers
  import opened Text
  import opened Order
  import opened Records
  import opened Generations
  import opened Snapshots
  import opened Bindings

  // ---------------------------------------------------------------------------------------------
  // What changed between two tables
  // ---------------------------------------------------------------------------------------------

  /** Profile `p` holds the same keys in both tables. */
  ghost predicate SameAt(P: View, C: View, p: Id)
  {
    forall a: Algorithm {:trigger SlotKey(p, a)} ::
      (SlotKey(p, a) in P.slots <==> SlotKey(p, a) in C.slots) &&
      (SlotKey(p, a) in P.slots ==> P.slots[SlotKey(p, a)] == C.slots[SlotKey(p, a)])
  }

  predicate ReplacedSlot(o: Slot, n: Slot)
  {
    o.selector != n.selector && o.handle != n.handle && o.publicSpki != n.publicSpki
  }

  /** No key of `P` uses the selector or the handle. */
  ghost predicate FreshSlot(P: View, n: Slot)
  {
    forall k :: k in P.slots ==> P.slots[k].handle != n.handle && P.slots[k].selector != n.selector
  }

  /** Every old algorithm of `p` survives with a new selector, handle and public key; added ones are fresh. */
  ghost predicate RenewedAt(P: View, C: View, p: Id)
  {
    AddedFresh(P, C, p) &&
    forall a: Algorithm {:trigger SlotKey(p, a)} ::
      SlotKey(p, a) in P.slots ==>
        SlotKey(p, a) in C.slots && ReplacedSlot(P.slots[SlotKey(p, a)], C.slots[SlotKey(p, a)])
  }

  /** Every key `p` gained for a new algorithm is fresh. */
  ghost predicate AddedFresh(P: View, C: View, p: Id)
  {
    forall a: Algorithm {:trigger SlotKey(p, a)} ::
      SlotKey(p, a) in C.slots && SlotKey(p, a) !in P.slots ==> FreshSlot(P, C.slots[SlotKey(p, a)])
  }

  /** Exactly profile `p`, bound by the enforced policy `b` alone, was renewed; everything else is equal. */
  ghost predicate RotatedOnly(P: View, C: View, p: Id, b: BindingKey)
  {
    && P.profiles == C.profiles && P.policies == C.policies
    && OnlyPolicy(P, p, b)
    && P.policies[b].status == Active && P.policies[b].rollout == Enforce && Native(b.use)
    && RenewedAt(P, C, p)
    && (forall q {:trigger SameAt(P, C, q)} :: q in P.profiles && q != p ==> SameAt(P, C, q))
  }

  datatype LifecycleBinding = LifecycleBinding(key: BindingKey, profile: Id)

  /** A public DNS expectation without its handle. */
  datatype LifecycleCredential = LifecycleCredential(selector: DnsName, algorithm: Algorithm, publicSpki: Spki)

  datatype Rotated = Rotated(binding: LifecycleBinding, retiring: seq<LifecycleCredential>,
      active: seq<LifecycleCredential>)

  function LifecycleKey(c: LifecycleCredential): Key { AlgorithmKey(c.algorithm) }

  /** `list` is the public projection of profile `p` in signing order. */
  ghost predicate Projects(v: View, p: Id, list: seq<LifecycleCredential>)
  {
    && Strictly(list, LifecycleKey)
    && forall c :: c in list <==>
         && SlotKey(p, c.algorithm) in v.slots && v.slots[SlotKey(p, c.algorithm)].selector == c.selector
         && v.slots[SlotKey(p, c.algorithm)].publicSpki == c.publicSpki
  }

  // ---------------------------------------------------------------------------------------------
  // The rotated-binding proof
  // ---------------------------------------------------------------------------------------------

  method CredentialsByAlgorithm(g: Generation, p: Id) returns (m: map<Algorithm, Credential>)
    requires Consistent(g)
    ensures forall a :: a in m <==> SlotKey(p, a) in SlotTable(g)
    ensures forall a :: a in m ==> m[a] in g.credentials && CredentialSlot(m[a]) == SlotKey(p, a)
  {
    hide SlotTable, Consistent;
    m := map[];
    for i := 0 to |g.credentials|
      invariant forall a :: a in m ==> m[a] in g.credentials && CredentialSlot(m[a]) == SlotKey(p, a)
      invariant forall j :: 0 <= j < i && g.credentials[j].profileId == p ==> g.credentials[j].algorithm in m
    {
      if g.credentials[i].profileId == p { m := m[g.credentials[i].algorithm := g.credentials[i]]; }
    }
    forall a ensures a in m <==> SlotKey(p, a) in SlotTable(g) {
      if a in m { var _ := CredentialHasSlot(g, m[a]); }
      if SlotKey(p, a) in SlotTable(g) { var c, _ := SlotElim(g, SlotKey(p, a)); }
    }
  }

  method ProfileMap(g: Generation) returns (m: map<Id, Profile>)
    requires Consistent(g)
    ensures m.Keys == ProfileTable(g).Keys
    ensures forall id :: id in m ==>
      m[id] in g.profiles && m[id].id == id && ProfileTable(g)[id] == FactsOfProfile(m[id])
  {
    hide ValidCredentials, ValidMaterials, ValidHandles, ValidPolicies, SlotTable, PolicyTable;
    m := map[];
    for i := 0 to |g.profiles|
      invariant forall id :: id in m ==> m[id] in g.profiles && m[id].id == id
      invariant forall j :: 0 <= j < i ==> g.profiles[j].id in m
    {
      m := m[g.profiles[i].id := g.profiles[i]];
    }
  }

  lemma SameTables<K, V>(x: map<K, V>, y: map<K, V>)
    requires |x| == |y| && forall k :: k in x ==> k in y && y[k] == x[k]
    ensures x == y
  {
    assert |x.Keys| == |x| && |y.Keys| == |y|;
    SubsetOfEqualSize(x.Keys, y.Keys);
  }

  method SameProfiles(a: Generation, b: Generation) returns (same: bool)
    requires Consistent(a) && Consistent(b)
    ensures same <==> ProfileTable(a) == ProfileTable(b)
  {
    hide Consistent, ProfileTable, FactsOfProfile;
    TableSizes(a);
    TableSizes(b);
    if |a.profiles| != |b.profiles| { return false; }
    var left := ProfileMap(a);
    var right := ProfileMap(b);
    var todo := left.Keys;
    while todo != {}
      invariant todo <= left.Keys
      invariant forall id :: id in left && id !in todo ==>
        id in right && FactsOfProfile(left[id]) == FactsOfProfile(right[id])
    {
      var id :| id in todo;
      if id !in right || FactsOfProfile(left[id]) != FactsOfProfile(right[id]) { return false; }
      todo := todo - {id};
    }
    SameTables(ProfileTable(a), ProfileTable(b));
    same := true;
  }

  method SamePolicies(a: Generation, b: Generation) returns (same: bool)
    requires Consistent(a) && Consistent(b)
    ensures same <==> PolicyTable(a) == PolicyTable(b)
  {
    hide Consistent, ProfileTable, PolicyTable, SlotTable;
    TableSizes(a);
    TableSizes(b);
    if |a.policies| != |b.policies| { return false; }
    for i := 0 to |a.policies|
      invariant forall j :: 0 <= j < i ==>
        && PolicyBinding(a.policies[j]) in PolicyTable(b)
        && PolicyTable(b)[PolicyBinding(a.policies[j])] == FactsOfPolicy(a.policies[j])
    {
      var other := PolicyAt(b, PolicyBinding(a.policies[i]));
      PolicyIntro(a, a.policies[i]);
      if other.None? || FactsOfPolicy(other.value) != FactsOfPolicy(a.policies[i]) { return false; }
    }
    forall k | k in PolicyTable(a) ensures k in PolicyTable(b) && PolicyTable(b)[k] == PolicyTable(a)[k] {
      var q := PolicyElim(a, k);
    }
    SameTables(PolicyTable(a), PolicyTable(b));
    same := true;
  }

  /** Compares the keys in one slot of two snapshots. */
  method CompareSlot(pred: Generation, cur: Generation, o: Credential, n: Credential)
      returns (equal: bool, replaced: bool)
    requires Consistent(pred) && Consistent(cur) && o in pred.credentials && n in cur.credentials
    requires CredentialSlot(o) == CredentialSlot(n)
    ensures CredentialSlot(o) in SlotTable(pred) && CredentialSlot(n) in SlotTable(cur)
    ensures equal <==> SlotTable(pred)[CredentialSlot(o)] == SlotTable(cur)[CredentialSlot(n)]
    ensures replaced <==>
      && ReplacedSlot(SlotTable(pred)[CredentialSlot(o)], SlotTable(cur)[CredentialSlot(n)])
      && SlotTable(pred)[CredentialSlot(o)].binding == SlotTable(cur)[CredentialSlot(n)].binding
  {
    hide Consistent, SlotTable;
    ghost var behindOld := CredentialHasSlot(pred, o);
    ghost var behindNew := CredentialHasSlot(cur, n);
    var oldMaterial := MaterialByHandle(pred, o.handleId);
    var newMaterial := MaterialByHandle(cur, n.handleId);
    var a, b := oldMaterial.value, newMaterial.value;
    SlotIntro(pred, CredentialSlot(o), o, a);
    SlotIntro(cur, CredentialSlot(n), n, b);
    var credentialEqual := RebaseCredential(o, 0) == RebaseCredential(n, 0);
    var sameOwner := MaterialBinding(a) == MaterialBinding(b) && a.algorithm == b.algorithm;
    var materialEqual := sameOwner && a.handleId == b.handleId && a.privatePkcs8 == b.privatePkcs8 &&
        a.publicSpki == b.publicSpki;
    equal := credentialEqual && materialEqual;
    replaced := !credentialEqual && !materialEqual && o.selector != n.selector && o.handleId != n.handleId &&
      o.publicSpki != n.publicSpki && sameOwner;
  }

  lemma HandleUse(g: Generation, id: Id)
    requires Consistent(g)
    ensures Keyed(id, g.materials) <==> exists k :: k in SlotTable(g) && SlotTable(g)[k].handle == id
  {
    hide SlotTable, ValidHandles, ValidProfiles, ValidPolicies, ValidCredentials;
    if Keyed(id, g.materials) {
      var m :| m in g.materials && m.handleId == id;
      assert MaterialLinked(m, g.number, g.credentials, g.policies);
      var c :| c in g.credentials && c.handleId == id;
      var n := CredentialHasSlot(g, c);
    }
    if k :| k in SlotTable(g) && SlotTable(g)[k].handle == id {
      var c, m := SlotElim(g, k);
    }
  }

  method UsesSelector(g: Generation, selector: DnsName) returns (used: bool)
    requires Consistent(g)
    ensures used <==> exists k :: k in SlotTable(g) && SlotTable(g)[k].selector == selector
  {
    hide SlotTable, Consistent;
    for i := 0 to |g.credentials|
      invariant forall j :: 0 <= j < i ==> g.credentials[j].selector != selector
    {
      if g.credentials[i].selector == selector {
        ghost var m := CredentialHasSlot(g, g.credentials[i]);
        return true;
      }
    }
    if k :| k in SlotTable(g) && SlotTable(g)[k].selector == selector {
      ghost var c, m := SlotElim(g, k);
    }
    used := false;
  }

  /** Both maps hold the credentials of profile `p` by algorithm. */
  ghost predicate ByAlgorithm(g: Generation, p: Id, m: map<Algorithm, Credential>)
    requires Consistent(g)
  {
    && (forall a :: a in m <==> SlotKey(p, a) in SlotTable(g))
    && (forall a :: a in m ==> m[a] in g.credentials && CredentialSlot(m[a]) == SlotKey(p, a))
  }

  /** All keys of `p` in both tables are bound to `b`. */
  ghost predicate BoundTo(P: View, C: View, p: Id, b: BindingKey)
  {
    && (forall a: Algorithm {:trigger SlotKey(p, a)} :: SlotKey(p, a) in P.slots ==>
         P.slots[SlotKey(p, a)].binding == b)
    && (forall a: Algorithm {:trigger SlotKey(p, a)} :: SlotKey(p, a) in C.slots ==>
         C.slots[SlotKey(p, a)].binding == b)
  }

  /** One added credential: fresh in the predecessor and owned by the reference binding. */
  method AddedFits(pred: Generation, cur: Generation, reference: KeyMaterial, n: Credential) returns (fits: bool)
    requires Consistent(pred) && Consistent(cur) && n in cur.credentials
    ensures CredentialSlot(n) in SlotTable(cur)
    ensures fits <==> FreshSlot(ViewOf(pred), SlotTable(cur)[CredentialSlot(n)]) &&
                      SlotTable(cur)[CredentialSlot(n)].binding == MaterialBinding(reference)
  {
    hide Consistent, SlotTable, ProfileTable, PolicyTable;
    ghost var behind := CredentialHasSlot(cur, n);
    var found := MaterialByHandle(cur, n.handleId);
    var material := found.value;
    SlotIntro(cur, CredentialSlot(n), n, material);
    HandleUse(pred, n.handleId);
    if material.algorithm != n.algorithm || MaterialBinding(material) != MaterialBinding(reference) { return false; }
    var reused := MaterialByHandle(pred, n.handleId);
    var taken := UsesSelector(pred, n.selector);
    fits := reused.None? && !taken;
  }

  /** The keys a rotation adds for new algorithms, checked against an arbitrary old key of the profile. */
  method ValidateExtendedCredentials(pred: Generation, cur: Generation, ghost p: Id, olds: map<Algorithm, Credential>,
                                     news: map<Algorithm, Credential>)
      returns (ok: bool)
    requires Consistent(pred) && Consistent(cur) && ByAlgorithm(pred, p, olds) && ByAlgorithm(cur, p, news)
    requires olds.Keys != {}
    ensures ok ==> AddedFresh(ViewOf(pred), ViewOf(cur), p)
    ensures AddedFresh(ViewOf(pred), ViewOf(cur), p) ==>
      (exists b :: BoundTo(ViewOf(pred), ViewOf(cur), p, b)) ==> ok
    ensures news.Keys == olds.Keys ==> ok
  {
    hide Consistent, SlotTable, ProfileTable, PolicyTable, FreshSlot;
    var any :| any in olds.Keys;
    ghost var m := CredentialHasSlot(pred, olds[any]);
    var reference := MaterialByHandle(pred, olds[any].handleId);
    SlotIntro(pred, SlotKey(p, any), olds[any], reference.value);
    var todo := news.Keys - olds.Keys;
    while todo != {}
      invariant todo <= news.Keys - olds.Keys
      invariant forall a :: a in news && a !in olds && a !in todo ==>
        FreshSlot(ViewOf(pred), SlotTable(cur)[SlotKey(p, a)])
    {
      var a :| a in todo;
      var fits := AddedFits(pred, cur, reference.value, news[a]);
      if !fits { return false; }
      todo := todo - {a};
    }
    ok := true;
  }

  /** The keys for every algorithm in `part` are equal in both tables. */
  ghost predicate EqualOn(P: View, C: View, p: Id, part: set<Algorithm>)
  {
    forall a :: a in part ==>
      SlotKey(p, a) in P.slots && SlotKey(p, a) in C.slots && P.slots[SlotKey(p, a)] == C.slots[SlotKey(p, a)]
  }

  ghost predicate ReplacedOn(P: View, C: View, p: Id, part: set<Algorithm>)
  {
    forall a :: a in part ==>
      && SlotKey(p, a) in P.slots && SlotKey(p, a) in C.slots
      && ReplacedSlot(P.slots[SlotKey(p, a)], C.slots[SlotKey(p, a)])
  }

  ghost predicate KeptBindings(P: View, C: View, p: Id, part: set<Algorithm>)
  {
    forall a :: a in part ==>
      && SlotKey(p, a) in P.slots && SlotKey(p, a) in C.slots
      && P.slots[SlotKey(p, a)].binding == C.slots[SlotKey(p, a)].binding
  }

  /** What the two flags of the comparison say about the keys seen so far. */
  ghost predicate PartCompared(P: View, C: View, p: Id, part: set<Algorithm>, allEqual: bool, allReplaced: bool)
  {
    && (allEqual <==> EqualOn(P, C, p, part)) && (allReplaced ==> ReplacedOn(P, C, p, part))
    && (ReplacedOn(P, C, p, part) && KeptBindings(P, C, p, part) ==> allReplaced)
  }

  lemma PartsNothing(P: View, C: View, p: Id)
    ensures EqualOn(P, C, p, {}) && ReplacedOn(P, C, p, {}) && KeptBindings(P, C, p, {})
  {}

  lemma PartsMore(P: View, C: View, p: Id, part: set<Algorithm>, a: Algorithm)
    ensures var k := SlotKey(p, a);
      var both := k in P.slots && k in C.slots;
      && (EqualOn(P, C, p, part + {a}) <==> EqualOn(P, C, p, part) && both && P.slots[k] == C.slots[k])
      && (ReplacedOn(P, C, p, part + {a}) <==>
           ReplacedOn(P, C, p, part) && both && ReplacedSlot(P.slots[k], C.slots[k]))
      && (KeptBindings(P, C, p, part + {a}) <==>
            KeptBindings(P, C, p, part) && both && P.slots[k].binding == C.slots[k].binding)
  {
    hide ReplacedSlot;
  }

  /** Compares every old key of one profile; None when an algorithm was removed. */
  method CompareKeys(pred: Generation, cur: Generation, ghost p: Id, olds: map<Algorithm, Credential>,
                     news: map<Algorithm, Credential>)
      returns (result: Option<(bool, bool)>)
    requires Consistent(pred) && Consistent(cur) && ByAlgorithm(pred, p, olds) && ByAlgorithm(cur, p, news)
    ensures result.Some? <==> olds.Keys <= news.Keys
    ensures result.Some? ==> (result.value.0 <==> EqualOn(ViewOf(pred), ViewOf(cur), p, olds.Keys))
    ensures result.Some? && result.value.1 ==> ReplacedOn(ViewOf(pred), ViewOf(cur), p, olds.Keys)
    ensures
      && result.Some? && ReplacedOn(ViewOf(pred), ViewOf(cur), p, olds.Keys)
      && KeptBindings(ViewOf(pred), ViewOf(cur), p, olds.Keys) ==>
        result.value.1
  {
    hide Consistent, SlotTable, ProfileTable, PolicyTable, ReplacedSlot, EqualOn, ReplacedOn, KeptBindings;
    var allEqual, allReplaced := true, true;
    var todo := olds.Keys;
    PartsNothing(ViewOf(pred), ViewOf(cur), p);
    assert olds.Keys - todo == {};
    while todo != {}
      invariant todo <= olds.Keys && olds.Keys - todo <= news.Keys
      invariant PartCompared(ViewOf(pred), ViewOf(cur), p, olds.Keys - todo, allEqual, allReplaced)
    {
      var a :| a in todo;
      if a !in news { return None; }
      var equal, replaced := CompareSlot(pred, cur, olds[a], news[a]);
      allEqual := allEqual && equal;
      allReplaced := allReplaced && replaced;
      PartsMore(ViewOf(pred), ViewOf(cur), p, olds.Keys - todo, a);
      assert olds.Keys - (todo - {a}) == olds.Keys - todo + {a};
      todo := todo - {a};
    }
    assert olds.Keys - todo == olds.Keys;
    result := Some((allEqual, allReplaced));
  }

  ghost function Algorithms(s: seq<Credential>): set<Algorithm> { set c | c in s :: c.algorithm }

  lemma AlgorithmsCounted(s: seq<Credential>)
    requires forall i, j :: 0 <= i < j < |s| ==> s[i].algorithm != s[j].algorithm
    ensures |Algorithms(s)| == |s|
  {
    var keys := seq(|s|, i requires 0 <= i < |s| => s[i].algorithm);
    assert forall a :: a in keys ==> exists c :: c in s && c.algorithm == a;
    forall c | c in s ensures c.algorithm in keys {
      var i :| 0 <= i < |s| && s[i] == c;
      assert keys[i] == c.algorithm;
    }
    CountByKey(keys, Algorithms(s));
  }

  /** The credentials of profile `p`, one per algorithm. */
  ghost predicate Owns(g: Generation, p: Id, credentials: seq<Credential>)
  {
    && (forall c :: c in credentials <==> c in g.credentials && c.profileId == p)
    && (forall i, j :: 0 <= i < j < |credentials| ==> credentials[i].algorithm != credentials[j].algorithm)
  }

  lemma OwnsSlots(g: Generation, p: Id, credentials: seq<Credential>)
    requires Consistent(g) && Owns(g, p, credentials)
    ensures forall a :: a in Algorithms(credentials) <==> SlotKey(p, a) in SlotTable(g)
    ensures |Algorithms(credentials)| == |credentials|
  {
    hide Consistent, SlotTable;
    AlgorithmsCounted(credentials);
    forall a ensures a in Algorithms(credentials) <==> SlotKey(p, a) in SlotTable(g) {
      if a in Algorithms(credentials) {
        var c :| c in credentials && c.algorithm == a;
        var m := CredentialHasSlot(g, c);
      }
      if SlotKey(p, a) in SlotTable(g) {
        var c, m := SlotElim(g, SlotKey(p, a));
        assert c in credentials;
      }
    }
  }

  lemma AllEqual(S: View, C: View, p: Id, olds: set<Algorithm>, news: set<Algorithm>)
    requires forall a :: a in olds <==> SlotKey(p, a) in S.slots
    requires forall a :: a in news <==> SlotKey(p, a) in C.slots
    requires EqualOn(S, C, p, news) && |olds| == |news|
    ensures SameAt(S, C, p)
  {
    SubsetOfEqualSize(news, olds);
  }

  /** One profile of the comparison: Some(false) when nothing changed, Some(true) when it was completely renewed. */
  method ClassifyProfile(pred: Generation, cur: Generation, p: Id) returns (result: Option<bool>)
    requires Consistent(pred) && Consistent(cur) && p in ViewOf(pred).profiles
    ensures result == Some(false) <==> SameAt(ViewOf(pred), ViewOf(cur), p)
    ensures result == Some(true) ==> RenewedAt(ViewOf(pred), ViewOf(cur), p)
    ensures RenewedAt(ViewOf(pred), ViewOf(cur), p) ==>
      (exists b :: BoundTo(ViewOf(pred), ViewOf(cur), p, b)) ==> result == Some(true)
  {
    hide Consistent, SlotTable, ProfileTable, PolicyTable, SameAt, RenewedAt, EqualOn, ReplacedOn, KeptBindings,
      BoundTo, FreshSlot, ReplacedSlot;
    var olds := CredentialsByAlgorithm(pred, p);
    var news := CredentialsByAlgorithm(cur, p);
    HasOldKeys(pred, p);
    AlgorithmSetBound(news.Keys);
    if olds.Keys <= news.Keys { SubsetOfEqualSize(olds.Keys, news.Keys); }
    ShapeOfChange(pred, cur, p, olds, news);
    if |olds| == 0 || |news| < |olds| || |news| > MAX_CREDENTIALS_PER_PROFILE { return None; }
    var compared := CompareKeys(pred, cur, p, olds, news);
    if compared.None? { return None; }
    var (allEqual, allReplaced) := compared.value;
    var extension := |news| - |olds|;
    var added := ValidateExtendedCredentials(pred, cur, p, olds, news);
    if !added { return None; }
    if allEqual && extension == 0 { return Some(false); }
    if allEqual || !allReplaced { return None; }
    return Some(true);
  }

  lemma ShapeOfChange(pred: Generation, cur: Generation, p: Id, olds: map<Algorithm, Credential>,
                      news: map<Algorithm, Credential>)
    requires Consistent(pred) && Consistent(cur) && ByAlgorithm(pred, p, olds) && ByAlgorithm(cur, p, news)
    requires olds.Keys != {}
    ensures SameAt(ViewOf(pred), ViewOf(cur), p) <==>
      olds.Keys == news.Keys && EqualOn(ViewOf(pred), ViewOf(cur), p, olds.Keys)
    ensures RenewedAt(ViewOf(pred), ViewOf(cur), p) <==>
      && olds.Keys <= news.Keys && ReplacedOn(ViewOf(pred), ViewOf(cur), p, olds.Keys)
      && AddedFresh(ViewOf(pred), ViewOf(cur), p)
    ensures RenewedAt(ViewOf(pred), ViewOf(cur), p) ==>
      && !EqualOn(ViewOf(pred), ViewOf(cur), p, olds.Keys)
      && ((exists b :: BoundTo(ViewOf(pred), ViewOf(cur), p, b)) ==>
            KeptBindings(ViewOf(pred), ViewOf(cur), p, olds.Keys))
  {
    hide Consistent, SlotTable, ProfileTable, PolicyTable, FreshSlot;
    var any :| any in olds.Keys;
  }

  lemma HasOldKeys(g: Generation, p: Id)
    requires Consistent(g) && p in ViewOf(g).profiles
    ensures exists a :: SlotKey(p, a) in SlotTable(g)
  {
    hide Consistent, SlotTable, ProfileTable, PolicyTable;
    ConsistentView(g);
    assert HasSlot(ViewOf(g), p);
  }

  /** The public projection of one profile's credentials, sorted in signing order. */
  method LifecycleCredentials(ghost g: Generation, ghost p: Id, input: map<Algorithm, Credential>)
      returns (list: seq<LifecycleCredential>)
    requires Consistent(g) && ByAlgorithm(g, p, input)
    ensures Projects(ViewOf(g), p, list)
  {
    hide Consistent, SlotTable, ProfileTable, PolicyTable;
    var rows: seq<LifecycleCredential> := [];
    var todo := input.Keys;
    while todo != {}
      invariant todo <= input.Keys
      invariant forall r :: r in rows <==>
        && r.algorithm in input && r.algorithm !in todo
        && r == LifecycleCredential(input[r.algorithm].selector, r.algorithm, input[r.algorithm].publicSpki)
      invariant forall i, j :: 0 <= i < j < |rows| ==> rows[i].algorithm != rows[j].algorithm
    {
      var a :| a in todo;
      assert forall i :: 0 <= i < |rows| ==> rows[i] in rows;
      rows := rows + [LifecycleCredential(input[a].selector, a, input[a].publicSpki)];
      todo := todo - {a};
    }
    list := Sort(rows, LifecycleKey);
    SortedRows(rows, list);
    forall a | a in input
      ensures
        && SlotTable(g)[SlotKey(p, a)].selector == input[a].selector
        && SlotTable(g)[SlotKey(p, a)].publicSpki == input[a].publicSpki
    {
      var m := CredentialHasSlot(g, input[a]);
    }
  }

  lemma SortedRows(rows: seq<LifecycleCredential>, list: seq<LifecycleCredential>)
    requires forall i, j :: 0 <= i < j < |rows| ==> rows[i].algorithm != rows[j].algorithm
    requires multiset(list) == multiset(rows) && Ordered(list, LifecycleKey)
    ensures Strictly(list, LifecycleKey) && forall r :: r in list <==> r in rows
  {
    assert Unique(rows);
    PermutedUnique(list, rows);
    forall i, j | 0 <= i < j < |list| ensures LifecycleKey(list[i]) != LifecycleKey(list[j]) {
      assert list[i] in rows && list[j] in rows && list[i] != list[j];
      var m, n :| 0 <= m < |rows| && rows[m] == list[i] && 0 <= n < |rows| && rows[n] == list[j];
      RankInjective(list[i].algorithm, list[j].algorithm);
    }
    OrderedDistinctIsStrict(list, LifecycleKey);
  }

  lemma RankInjective(a: Algorithm, b: Algorithm)
    ensures Rank(a) == Rank(b) <==> a == b
  {}

  /** What the comparison knows about the profiles it has looked at. */
  ghost predicate Compared(P: View, C: View, done: set<Id>, changed: Option<Id>)
  {
    && (changed.Some? ==> changed.value in done && RenewedAt(P, C, changed.value) && !SameAt(P, C, changed.value))
    && forall q {:trigger SameAt(P, C, q)} :: q in done && changed != Some(q) ==> SameAt(P, C, q)
  }

  lemma BoundBySolePolicy(P: View, C: View, p: Id, b: BindingKey)
    requires ValidView(P) && ValidView(C) && RotatedOnly(P, C, p, b)
    ensures BoundTo(P, C, p, b)
  {
    forall a: Algorithm | SlotKey(p, a) in P.slots ensures P.slots[SlotKey(p, a)].binding == b {
      SoleBinding(P, p, b, SlotKey(p, a));
    }
    forall a: Algorithm | SlotKey(p, a) in C.slots ensures C.slots[SlotKey(p, a)].binding == b {
      SoleBinding(C, p, b, SlotKey(p, a));
    }
  }

  ghost function SlotsOf(v: View, p: Id): set<SlotKey> { set k | k in v.slots && k.profile == p }

  /** Outside the renewed profile nothing is gained or lost, so the growth of the whole table is its growth. */
  lemma GrowthIsLocal(P: View, C: View, p: Id)
    requires forall q {:trigger SameAt(P, C, q)} :: q in P.profiles && q != p ==> SameAt(P, C, q)
    requires ValidView(P) && ValidView(C) && P.profiles == C.profiles
    ensures |C.slots| - |P.slots| == |SlotsOf(C, p)| - |SlotsOf(P, p)|
  {
    forall k ensures k in C.slots.Keys - SlotsOf(C, p) <==> k in P.slots.Keys - SlotsOf(P, p) {
      if k in C.slots && k.profile != p {
        assert SlotLinked(C, k);
        assert SameAt(P, C, k.profile);
        assert k == SlotKey(k.profile, k.algorithm);
      }
      if k in P.slots && k.profile != p {
        assert SlotLinked(P, k);
        assert SameAt(P, C, k.profile);
        assert k == SlotKey(k.profile, k.algorithm);
      }
    }
    assert C.slots.Keys - SlotsOf(C, p) == P.slots.Keys - SlotsOf(P, p);
    assert |C.slots.Keys - SlotsOf(C, p)| == |C.slots| - |SlotsOf(C, p)|;
    assert |P.slots.Keys - SlotsOf(P, p)| == |P.slots| - |SlotsOf(P, p)|;
  }

  lemma SlotsOfCounted(g: Generation, p: Id, m: map<Algorithm, Credential>)
    requires Consistent(g) && ByAlgorithm(g, p, m)
    ensures |SlotsOf(ViewOf(g), p)| == |m|
  {
    hide Consistent, SlotTable, ProfileTable, PolicyTable;
    AlgorithmSlots(p, m.Keys);
    assert SlotsOf(ViewOf(g), p) == (set a | a in m.Keys :: SlotKey(p, a)) by {
      forall k ensures k in SlotsOf(ViewOf(g), p) <==> k in (set a | a in m.Keys :: SlotKey(p, a)) {
        assert k.profile == p ==> k == SlotKey(p, k.algorithm);
      }
    }
  }

  lemma {:induction false} AlgorithmSlots(p: Id, s: set<Algorithm>)
    ensures |set a | a in s :: SlotKey(p, a)| == |s|
  {
    if s != {} {
      var a :| a in s;
      AlgorithmSlots(p, s - {a});
      assert (set x | x in s :: SlotKey(p, x)) == (set x | x in s - {a} :: SlotKey(p, x)) + {SlotKey(p, a)};
    }
  }

  /** Classifies every profile; at most one may have changed, and it must have been completely renewed. */
  method CompareProfiles(pred: Generation, cur: Generation) returns (result: Option<Option<Id>>)
    requires Consistent(pred) && Consistent(cur)
    ensures result.Some? ==> Compared(ViewOf(pred), ViewOf(cur), ViewOf(pred).profiles.Keys, result.value)
    ensures result.None? ==> forall p, b :: !RotatedOnly(ViewOf(pred), ViewOf(cur), p, b)
  {
    hide Consistent, SlotTable, ProfileTable, PolicyTable, SameAt, RenewedAt, OnlyPolicy, ValidView, BoundTo;
    ghost var P := ViewOf(pred);
    ghost var C := ViewOf(cur);
    ConsistentView(pred);
    ConsistentView(cur);
    forall p, b | RotatedOnly(P, C, p, b) ensures BoundTo(P, C, p, b) { BoundBySolePolicy(P, C, p, b); }
    var table := ProfileMap(pred);
    var changed: Option<Id> := None;
    var todo := table.Keys;
    while todo != {}
      invariant todo <= table.Keys
      invariant Compared(P, C, table.Keys - todo, changed)
    {
      var q :| q in todo;
      var kind := ClassifyProfile(pred, cur, q);
      if kind.None? || (kind.value && changed.Some?) { return None; }
      if kind.value { changed := Some(q); }
      assert table.Keys - (todo - {q}) == (table.Keys - todo) + {q};
      todo := todo - {q};
    }
    assert table.Keys - todo == table.Keys;
    result := Some(changed);
  }

  /** The rotated-binding proof: it succeeds exactly when one enforced active binding was completely renewed and
      everything else is logically equal. */
  method UniqueRotatedBinding(current: Generation, predecessor: Generation) returns (result: Result<Rotated>)
    requires Consistent(current) && Consistent(predecessor)
    ensures result.Ok? <==> exists p, b :: RotatedOnly(ViewOf(predecessor), ViewOf(current), p, b)
    ensures result.Ok? ==>
      var r := result.value;
      && RotatedOnly(ViewOf(predecessor), ViewOf(current), r.binding.profile, r.binding.key)
      && Projects(ViewOf(predecessor), r.binding.profile, r.retiring)
      && Projects(ViewOf(current), r.binding.profile, r.active)
  {
    hide Consistent, SlotTable, ProfileTable, PolicyTable, SameAt, RenewedAt, OnlyPolicy, ValidView, BoundTo, Projects;
    ghost var P := ViewOf(predecessor);
    ghost var C := ViewOf(current);
    ConsistentView(predecessor);
    ConsistentView(current);
    var sameProfiles := SameProfiles(predecessor, current);
    if !sameProfiles { return Err(Invalid); }
    var samePolicies := SamePolicies(predecessor, current);
    if !samePolicies { return Err(Invalid); }
    var compared := CompareProfiles(predecessor, current);
    if compared.None? { return Err(Invalid); }
    forall p, b | RotatedOnly(P, C, p, b) ensures compared.value == Some(p) {
      RotatedIsChanged(P, C, p, b, compared.value);
    }
    if compared.value.None? { return Err(Invalid); }
    var p := compared.value.value;
    var olds := CredentialsByAlgorithm(predecessor, p);
    var news := CredentialsByAlgorithm(current, p);
    var added := |news| - |olds|;
    RotationSizes(predecessor, current, p, olds, news);
    if |current.credentials| != |predecessor.credentials| + added ||
        |current.handles| != |predecessor.handles| + added ||
       |current.materials| != |predecessor.materials| + added
    {
      return Err(Invalid);
    }
    var previous := ExclusivePolicyForProfile(predecessor, p);
    var next := ExclusivePolicyForProfile(current, p);
    if previous.None? || next.None? || previous.value.status != Active || previous.value.rollout != Enforce ||
       !Native(previous.value.use)
    {
      NotRotated(predecessor, current, p, previous);
      return Err(Invalid);
    }
    var b := PolicyBinding(previous.value);
    PolicyOf(predecessor, previous.value);
    PolicyOf(current, next.value);
    SamePolicy(P, C, p, b, PolicyBinding(next.value));
    assert RotatedOnly(P, C, p, b);
    var retiring := LifecycleCredentials(predecessor, p, olds);
    var active := LifecycleCredentials(current, p, news);
    result := Ok(Rotated(LifecycleBinding(b, p), retiring, active));
  }

  lemma SamePolicy(P: View, C: View, p: Id, b: BindingKey, c: BindingKey)
    requires P.policies == C.policies && OnlyPolicy(P, p, b) && OnlyPolicy(C, p, c)
    ensures b == c
  {}

  lemma NotRotated(pred: Generation, cur: Generation, p: Id, previous: Option<Policy>)
    requires Consistent(pred) && Consistent(cur) && ViewOf(pred).policies == ViewOf(cur).policies
    requires previous.Some? <==> HasOnlyPolicy(ViewOf(pred), p)
    requires previous.Some? ==>
      previous.value in pred.policies && OnlyPolicy(ViewOf(pred), p, PolicyBinding(previous.value))
    requires
      || previous.None? || !HasOnlyPolicy(ViewOf(cur), p) || previous.value.status != Active
      || previous.value.rollout != Enforce || !Native(previous.value.use)
    ensures forall b :: !RotatedOnly(ViewOf(pred), ViewOf(cur), p, b)
  {
    hide Consistent, SlotTable, ProfileTable, PolicyTable, SameAt, RenewedAt;
    if b :| RotatedOnly(ViewOf(pred), ViewOf(cur), p, b) {
      assert OnlyPolicy(ViewOf(pred), p, b) && OnlyPolicy(ViewOf(cur), p, b);
      PolicyOf(pred, previous.value);
    }
  }

  lemma RotatedIsChanged(P: View, C: View, p: Id, b: BindingKey, changed: Option<Id>)
    requires ValidView(P) && RotatedOnly(P, C, p, b) && Compared(P, C, P.profiles.Keys, changed)
    ensures changed == Some(p)
  {
    assert PolicyFits(P, b);
    assert HasSlot(P, p);
    var a :| SlotKey(p, a) in P.slots;
    assert !SameAt(P, C, p);
  }

  lemma RotationSizes(pred: Generation, cur: Generation, p: Id, olds: map<Algorithm, Credential>,
                      news: map<Algorithm, Credential>)
    requires Consistent(pred) && Consistent(cur) && ByAlgorithm(pred, p, olds) && ByAlgorithm(cur, p, news)
    requires Compared(ViewOf(pred), ViewOf(cur), ViewOf(pred).profiles.Keys, Some(p))
    requires ViewOf(pred).profiles == ViewOf(cur).profiles
    ensures var added := |news| - |olds|;
      && |cur.credentials| == |pred.credentials| + added && |cur.handles| == |pred.handles| + added
      && |cur.materials| == |pred.materials| + added
  {
    hide Consistent, SlotTable, ProfileTable, PolicyTable, SameAt, RenewedAt, ValidView;
    ConsistentView(pred);
    ConsistentView(cur);
    GrowthIsLocal(ViewOf(pred), ViewOf(cur), p);
    SlotsCounted(pred);
    SlotsCounted(cur);
    SlotsOfCounted(pred, p, olds);
    SlotsOfCounted(cur, p, news);
    ConsistentSizes(pred);
    ConsistentSizes(cur);
  }

  lemma TableSizes(g: Generation)
    requires Consistent(g)
    ensures |ProfileTable(g).Keys| == |g.profiles| && |PolicyTable(g).Keys| == |g.policies|
  {
    hide ValidCredentials, ValidMaterials, ValidHandles, PolicyLinked;
    ProfileCount(g.profiles);
    PolicyCount(g.policies);
    assert ProfileTable(g).Keys == (set p | p in g.profiles :: p.id);
    assert PolicyTable(g).Keys == (set q | q in g.policies :: PolicyBinding(q));
  }

  lemma ProfileCount(s: seq<Profile>)
    requires forall i, j :: 0 <= i < j < |s| ==> s[i].id != s[j].id
    ensures |set p | p in s :: p.id| == |s|
  {
    var keys := seq(|s|, i requires 0 <= i < |s| => s[i].id);
    assert forall k :: k in keys ==> exists p :: p in s && p.id == k;
    forall p | p in s ensures p.id in keys {
      var i :| 0 <= i < |s| && s[i] == p;
      assert keys[i] == p.id;
    }
    CountByKey(keys, set p | p in s :: p.id);
  }

  lemma PolicyCount(s: seq<Policy>)
    requires forall i, j :: 0 <= i < j < |s| ==> PolicyBinding(s[i]) != PolicyBinding(s[j])
    ensures |set q | q in s :: PolicyBinding(q)| == |s|
  {
    var keys := seq(|s|, i requires 0 <= i < |s| => PolicyBinding(s[i]));
    assert forall k :: k in keys ==> exists q :: q in s && PolicyBinding(q) == k;
    forall q | q in s ensures PolicyBinding(q) in keys {
      var i :| 0 <= i < |s| && s[i] == q;
      assert keys[i] == PolicyBinding(q);
    }
    CountByKey(keys, set q | q in s :: PolicyBinding(q));
  }
}

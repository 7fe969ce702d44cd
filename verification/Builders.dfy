/** The mutable candidate builder: renumbered copies of a snapshot whose keys are replaced profile by profile. */
module Builders {
  import opened Wrappers
  import opened Text
  import opened Records
  import opened Generations
  import opened Snapshots
  import opened Rebasing

  // ---------------------------------------------------------------------------------------------
  // Filtering by key
  // ---------------------------------------------------------------------------------------------

  function HandleName(h: Handle): string { h.id }

  function OwnerName(c: Credential): string { c.profileId }

  function MaterialName(m: KeyMaterial): string { m.handleId }

  /** The elements whose key is not in `removed`, in their order. */
  function Without<T>(s: seq<T>, key: T -> string, removed: set<string>): seq<T>
  {
    if s == [] then []
    else
      var rest := Without(s[..|s| - 1], key, removed);
      if key(s[|s| - 1]) in removed then rest else rest + [s[|s| - 1]]
  }

  lemma {:induction false} WithoutMember<T>(s: seq<T>, key: T -> string, removed: set<string>)
    ensures forall x :: x in Without(s, key, removed) <==> x in s && key(x) !in removed
  {
    if s != [] {
      WithoutMember(s[..|s| - 1], key, removed);
      assert s == s[..|s| - 1] + [s[|s| - 1]];
    }
  }

  lemma {:induction false} WithoutNone<T>(s: seq<T>, key: T -> string, removed: set<string>)
    requires forall x :: x in s ==> key(x) !in removed
    ensures Without(s, key, removed) == s
  {
    if s != [] {
      WithoutNone(s[..|s| - 1], key, removed);
      assert s == s[..|s| - 1] + [s[|s| - 1]];
    }
  }

  lemma WithoutAt<T>(s: seq<T>, key: T -> string, removed: set<string>, i: nat)
    requires i < |Without(s, key, removed)|
    ensures Without(s, key, removed)[i] in s
  {
    var x := Without(s, key, removed)[i];
    assert x in Without(s, key, removed);
    WithoutMember(s, key, removed);
  }

  lemma {:induction false} WithoutDistinct<T>(s: seq<T>, key: T -> string, removed: set<string>)
    requires DistinctKeys(s, key)
    ensures DistinctKeys(Without(s, key, removed), key)
  {
    if s != [] {
      var before, last := s[..|s| - 1], s[|s| - 1];
      var rest := Without(before, key, removed);
      WithoutDistinct(before, key, removed);
      WithoutMember(before, key, removed);
      forall i | 0 <= i < |rest| ensures key(rest[i]) != key(last) {
        WithoutAt(before, key, removed, i);
        var j :| 0 <= j < |before| && before[j] == rest[i];
        assert s[j] == rest[i];
      }
    }
  }

  ghost predicate DistinctKeys<T>(s: seq<T>, key: T -> string)
  {
    forall i, j :: 0 <= i < j < |s| ==> key(s[i]) != key(s[j])
  }

  ghost function Names<T>(s: seq<T>, key: T -> string): set<string> { set x | x in s :: key(x) }

  // ---------------------------------------------------------------------------------------------
  // One-to-one correspondence of handles, credentials and materials
  // ---------------------------------------------------------------------------------------------

  function CredentialName(c: Credential): string { c.handleId }

  /** Every handle is declared once, used by one credential and owns one key. */
  ghost predicate OneToOne(handles: seq<Handle>, credentials: seq<Credential>, materials: seq<KeyMaterial>)
  {
    && DistinctKeys(handles, HandleName) && DistinctKeys(credentials, CredentialName)
    && DistinctKeys(materials, MaterialName)
    && Names(handles, HandleName) == Names(credentials, CredentialName) == Names(materials, MaterialName)
  }

  /** Replacement keys for one profile: credential i and material i share handle, algorithm and public key. */
  predicate Paired(profileId: Id, number: Number, credentials: seq<Credential>, materials: seq<KeyMaterial>)
  {
    && |credentials| == |materials|
    && forall i :: 0 <= i < |credentials| ==>
         && credentials[i].generation == number == materials[i].generation
         && credentials[i].profileId == profileId
         && credentials[i].handleId == materials[i].handleId
         && credentials[i].algorithm == materials[i].algorithm
         && credentials[i].publicSpki == materials[i].publicSpki
  }

  function HandlesFor(number: Number, materials: seq<KeyMaterial>): seq<Handle>
  {
    seq(|materials|, i requires 0 <= i < |materials| => Handle(number, materials[i].handleId))
  }

  /** The handles of one profile's credentials. */
  function ProfileHandles(credentials: seq<Credential>, profileId: Id): set<string>
  {
    set c | c in credentials && c.profileId == profileId :: CredentialName(c)
  }

  lemma NamesOfPairs(profileId: Id, number: Number, credentials: seq<Credential>, materials: seq<KeyMaterial>)
    requires Paired(profileId, number, credentials, materials)
    ensures Names(HandlesFor(number, materials), HandleName) ==
      Names(credentials, CredentialName) == Names(materials, MaterialName)
    ensures DistinctKeys(credentials, CredentialName) ==>
      DistinctKeys(materials, MaterialName) && DistinctKeys(HandlesFor(number, materials), HandleName)
  {
    var handles := HandlesFor(number, materials);
    forall x | x in Names(credentials, CredentialName)
      ensures x in Names(materials, MaterialName) && x in Names(handles, HandleName)
    {
      var i :| 0 <= i < |credentials| && credentials[i].handleId == x;
      assert materials[i] in materials && handles[i] in handles;
    }
    forall x | x in Names(materials, MaterialName) ensures x in Names(credentials, CredentialName) {
      var i :| 0 <= i < |materials| && materials[i].handleId == x;
      assert credentials[i] in credentials;
    }
    forall x | x in Names(handles, HandleName) ensures x in Names(credentials, CredentialName) {
      var i :| 0 <= i < |handles| && handles[i].id == x;
      assert credentials[i] in credentials;
    }
  }

  lemma NamesAppend<T>(s: seq<T>, t: seq<T>, key: T -> string)
    ensures Names(s + t, key) == Names(s, key) + Names(t, key)
    ensures DistinctKeys(s, key) && DistinctKeys(t, key) && Names(s, key) !! Names(t, key) ==> DistinctKeys(s + t, key)
  {
    assert forall x :: x in s + t <==> x in s || x in t;
    if DistinctKeys(s, key) && DistinctKeys(t, key) && Names(s, key) !! Names(t, key) {
      forall i, j | 0 <= i < j < |s + t| ensures key((s + t)[i]) != key((s + t)[j]) {
        if i < |s| <= j {
          assert s[i] in s && t[j - |s|] in t;
          assert key(s[i]) in Names(s, key) && key(t[j - |s|]) in Names(t, key);
        }
      }
    }
  }

  lemma NamesWithout<T>(s: seq<T>, key: T -> string, removed: set<string>)
    ensures Names(Without(s, key, removed), key) == Names(s, key) - removed
  {
    WithoutMember(s, key, removed);
    forall n | n in Names(s, key) - removed ensures n in Names(Without(s, key, removed), key) {
      var x :| x in s && key(x) == n;
      assert x in Without(s, key, removed);
    }
    forall n | n in Names(Without(s, key, removed), key) ensures n in Names(s, key) - removed {
      var x :| x in Without(s, key, removed) && key(x) == n;
      assert x in s;
    }
  }

  /** Removing one profile's credentials removes exactly the names of their handles. */
  lemma ProfileNames(credentials: seq<Credential>, profileId: Id)
    requires DistinctKeys(credentials, CredentialName)
    ensures Names(Without(credentials, OwnerName, {profileId}), CredentialName) ==
      Names(credentials, CredentialName) - ProfileHandles(credentials, profileId)
  {
    WithoutMember(credentials, OwnerName, {profileId});
  }

  lemma {:induction false} ProfileDistinct(credentials: seq<Credential>, removed: set<string>)
    requires DistinctKeys(credentials, CredentialName)
    ensures DistinctKeys(Without(credentials, OwnerName, removed), CredentialName)
  {
    if credentials != [] {
      var rest := credentials[..|credentials| - 1];
      ProfileDistinct(rest, removed);
      WithoutMember(rest, OwnerName, removed);
      var kept := Without(rest, OwnerName, removed);
      forall i | 0 <= i < |kept| ensures kept[i].handleId != credentials[|credentials| - 1].handleId {
        assert kept[i] in rest;
      }
    }
  }

  /** Replacing one profile's keys by keys with unused distinct handles keeps the correspondence. */
  lemma ReplacementOneToOne(number: Number, profileId: Id, handles: seq<Handle>, credentials: seq<Credential>,
                            materials: seq<KeyMaterial>, newCredentials: seq<Credential>,
                            newMaterials: seq<KeyMaterial>)
    requires OneToOne(handles, credentials, materials)
    requires Paired(profileId, number, newCredentials, newMaterials) && DistinctKeys(newCredentials, CredentialName)
    requires Names(newCredentials, CredentialName) !! Names(handles, HandleName)
    ensures var removed := ProfileHandles(credentials, profileId);
      OneToOne(Without(handles, HandleName, removed) + HandlesFor(number, newMaterials),
               Without(credentials, OwnerName, {profileId}) + newCredentials,
               Without(materials, MaterialName, removed) + newMaterials)
  {
    hide Without, Names, DistinctKeys, Paired, ProfileHandles;
    var removed := ProfileHandles(credentials, profileId);
    NamesOfPairs(profileId, number, newCredentials, newMaterials);
    NamesWithout(handles, HandleName, removed);
    NamesWithout(materials, MaterialName, removed);
    ProfileNames(credentials, profileId);
    WithoutDistinct(handles, HandleName, removed);
    WithoutDistinct(materials, MaterialName, removed);
    ProfileDistinct(credentials, {profileId});
    NamesAppend(Without(handles, HandleName, removed), HandlesFor(number, newMaterials), HandleName);
    NamesAppend(Without(credentials, OwnerName, {profileId}), newCredentials, CredentialName);
    NamesAppend(Without(materials, MaterialName, removed), newMaterials, MaterialName);
  }

  // ---------------------------------------------------------------------------------------------
  // The builder object
  // ---------------------------------------------------------------------------------------------

  /** The record set after one profile's keys have been replaced. */
  function Rekey(g: Generation, profileId: Id, credentials: seq<Credential>, materials: seq<KeyMaterial>): Generation
  {
    var removed := ProfileHandles(g.credentials, profileId);
    g.(credentials := Without(g.credentials, OwnerName, {profileId}) + credentials,
       handles := Without(g.handles, HandleName, removed) + HandlesFor(g.number, materials),
       materials := Without(g.materials, MaterialName, removed) + materials)
  }

  class Builder {
    var number: Number
    var state: State
    var handles: seq<Handle>
    var profiles: seq<Profile>
    var credentials: seq<Credential>
    var policies: seq<Policy>
    var materials: seq<KeyMaterial>

    /** The record set the builder currently holds. */
    function Contents(): Generation
      reads this
    {
      Generation(number, state, handles, profiles, credentials, policies, materials)
    }

    /** A renumbered copy of a snapshot; the caller has checked that `n` lies above its number. The copy of a valid
        snapshot can be built as it stands and has the same tables. */
    constructor Next(g: Generation, n: Number, s: State)
      requires g.number < n
      ensures Contents() == Rebase(g, n, s)
      ensures Consistent(g) ==> Consistent(Contents()) && ViewOf(Contents()) == ViewOf(g)
    {
      number, state := n, s;
      handles := RebaseHandles(g.handles, n);
      profiles := RebaseProfiles(g.profiles, n);
      credentials := RebaseCredentials(g.credentials, n);
      policies := RebasePolicies(g.policies, n);
      materials := RebaseMaterials(g.materials, n);
      new;
      if Consistent(g) { RebaseKeepsView(g, n, s); }
    }

    /** Replaces every credential, handle and key owner of one profile, or changes nothing. */
    method ReplaceProfileKeys(profileId: Id, newCredentials: seq<Credential>, newMaterials: seq<KeyMaterial>)
        returns (ok: bool)
      modifies this
      ensures ok <==>
        && old(number) > 0 && newCredentials != [] && Paired(profileId, old(number), newCredentials, newMaterials)
        && (exists p :: p in old(profiles) && p.id == profileId)
        && ProfileHandles(old(credentials), profileId) != {}
      ensures !ok ==> Contents() == old(Contents())
      ensures ok ==> Contents() == Rekey(old(Contents()), profileId, newCredentials, newMaterials)
      ensures ok && old(OneToOne(handles, credentials, materials)) && DistinctKeys(newCredentials, CredentialName) &&
              Names(newCredentials, CredentialName) !! old(Names(handles, HandleName)) ==>
        OneToOne(handles, credentials, materials)
    {
      hide Without, OneToOne, Names, DistinctKeys, ProfileHandles, HandlesFor;
      if number == 0 || |newCredentials| == 0 || |newCredentials| != |newMaterials| { return false; }
      if !(exists p :: p in profiles && p.id == profileId) { return false; }
      for i := 0 to |newCredentials|
        invariant Paired(profileId, number, newCredentials[..i], newMaterials[..i])
      {
        var c, m := newCredentials[i], newMaterials[i];
        if c.generation != number || c.profileId != profileId || m.generation != number || c.handleId != m.handleId ||
           c.algorithm != m.algorithm || c.publicSpki != m.publicSpki
        {
          return false;
        }
      }
      assert newCredentials[..|newCredentials|] == newCredentials && newMaterials[..|newMaterials|] == newMaterials;
      var removed, keptCredentials := SplitProfile(credentials, profileId);
      if removed == {} { return false; }
      var keptHandles := KeepOthers(handles, HandleName, removed);
      var keptMaterials := KeepOthers(materials, MaterialName, removed);
      ghost var before := Contents();
      handles := keptHandles + HandlesFor(number, newMaterials);
      credentials := keptCredentials + newCredentials;
      materials := keptMaterials + newMaterials;
      if OneToOne(before.handles, before.credentials, before.materials) &&
          DistinctKeys(newCredentials, CredentialName) &&
         Names(newCredentials, CredentialName) !! Names(before.handles, HandleName)
      {
        ReplacementOneToOne(number, profileId, before.handles, before.credentials, before.materials, newCredentials,
                            newMaterials);
      }
      return true;
    }

    /** The validated candidate; exactly the consistent record sets are accepted. */
    method Build() returns (result: Result<Generation>)
      ensures result.Ok? <==> Consistent(Contents())
      ensures result.Ok? ==> Valid(result.value) && SameRecords(result.value, Contents())
    {
      result := NewGeneration(Generation(number, state, handles, profiles, credentials, policies, materials));
    }
  }

  method KeepOthers<T>(s: seq<T>, key: T -> string, removed: set<string>) returns (kept: seq<T>)
    ensures kept == Without(s, key, removed)
  {
    kept := [];
    for i := 0 to |s|
      invariant kept == Without(s[..i], key, removed)
    {
      assert s[..i + 1][..i] == s[..i];
      if key(s[i]) !in removed { kept := kept + [s[i]]; }
    }
    assert s[..|s|] == s;
  }

  /** One pass that separates a profile's credentials from the rest and remembers their handles. */
  method SplitProfile(s: seq<Credential>, profileId: Id) returns (removed: set<string>, kept: seq<Credential>)
    ensures removed == ProfileHandles(s, profileId)
    ensures kept == Without(s, OwnerName, {profileId})
  {
    removed, kept := {}, [];
    for i := 0 to |s|
      invariant removed == ProfileHandles(s[..i], profileId)
      invariant kept == Without(s[..i], OwnerName, {profileId})
    {
      assert s[..i + 1][..i] == s[..i];
      assert s[..i + 1] == s[..i] + [s[i]];
      if s[i].profileId == profileId {
        removed := removed + {s[i].handleId};
      } else {
        kept := kept + [s[i]];
      }
    }
    assert s[..|s|] == s;
  }
}

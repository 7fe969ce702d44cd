/** The byte order of strings, composite sort keys, and the library sort the source calls. */
module Order {

  /** Lexicographic comparison without locale or normalization. */
  predicate Less(a: string, b: string)
  {
    if a == "" then b != ""
    else if b == "" then false
    else a[0] < b[0] || (a[0] == b[0] && Less(a[1..], b[1..]))
  }

  lemma {:induction false} LessIrreflexive(a: string)
    ensures !Less(a, a)
  {
    if a != "" { LessIrreflexive(a[1..]); }
  }

  lemma {:induction false} LessTransitive(a: string, b: string, c: string)
    requires Less(a, b) && Less(b, c)
    ensures Less(a, c)
  {
    if a != "" && a[0] == b[0] == c[0] { LessTransitive(a[1..], b[1..], c[1..]); }
  }

  lemma {:induction false} LessTotal(a: string, b: string)
    ensures Less(a, b) || a == b || Less(b, a)
  {
    if a != "" && b != "" {
      LessTotal(a[1..], b[1..]);
      if a[0] == b[0] && a[1..] == b[1..] {
        assert a == [a[0]] + a[1..] && b == [b[0]] + b[1..];
      }
    }
  }

  /** The comparison keys of the source's sort calls: text, then a number, then text. */
  datatype Key = Key(text: string, number: int, rest: string)

  predicate KeyLess(a: Key, b: Key)
  {
    Less(a.text, b.text) ||
    (a.text == b.text && (a.number < b.number || (a.number == b.number && Less(a.rest, b.rest))))
  }

  lemma KeyIrreflexive(a: Key)
    ensures !KeyLess(a, a)
  {
    LessIrreflexive(a.text);
    LessIrreflexive(a.rest);
  }

  lemma KeyTransitive(a: Key, b: Key, c: Key)
    requires KeyLess(a, b) && KeyLess(b, c)
    ensures KeyLess(a, c)
  {
    if Less(a.text, b.text) && Less(b.text, c.text) { LessTransitive(a.text, b.text, c.text); }
    if Less(a.rest, b.rest) && Less(b.rest, c.rest) { LessTransitive(a.rest, b.rest, c.rest); }
  }

  lemma KeyTotal(a: Key, b: Key)
    ensures KeyLess(a, b) || a == b || KeyLess(b, a)
  {
    LessTotal(a.text, b.text);
    LessTotal(a.rest, b.rest);
  }

  /** No element is preceded by a larger one. */
  ghost predicate Ordered<T>(s: seq<T>, key: T -> Key)
  {
    forall i, j :: 0 <= i < j < |s| ==> !KeyLess(key(s[j]), key(s[i]))
  }

  ghost predicate Strictly<T>(s: seq<T>, key: T -> Key)
  {
    forall i, j :: 0 <= i < j < |s| ==> KeyLess(key(s[i]), key(s[j]))
  }

  /** No value occurs twice. */
  ghost predicate Unique<T>(s: seq<T>) { forall i, j :: 0 <= i < j < |s| ==> s[i] != s[j] }

  lemma {:induction false} UniqueCounts<T>(s: seq<T>)
    ensures Unique(s) <==> forall x :: x in s ==> multiset(s)[x] == 1
  {
    if s != [] {
      var rest, last := s[..|s| - 1], s[|s| - 1];
      assert s == rest + [last];
      UniqueCounts(rest);
      assert forall x :: x in s <==> x in rest || x == last;
      assert multiset(s)[last] == multiset(rest)[last] + 1;
      assert last in rest ==> multiset(rest)[last] >= 1;
      assert forall x :: x in rest ==> x in s;
      if Unique(s) {
        assert Unique(rest);
        assert last !in rest;
      }
      if forall x :: x in s ==> multiset(s)[x] == 1 {
        assert last !in rest;
        forall x | x in rest ensures multiset(rest)[x] == 1 {
          assert multiset(s)[x] == 1;
        }
      }
    }
  }

  lemma PermutedUnique<T>(s: seq<T>, t: seq<T>)
    requires multiset(s) == multiset(t)
    ensures Unique(s) <==> Unique(t)
    ensures |s| == |t| && forall x :: x in s <==> x in t
  {
    UniqueCounts(s);
    UniqueCounts(t);
    assert |multiset(s)| == |s| && |multiset(t)| == |t|;
    assert forall x :: x in s <==> x in multiset(s);
    assert forall x :: x in t <==> x in multiset(t);
  }

  /** Two strictly ordered sequences with the same elements are the same sequence. */
  lemma {:induction false} StrictOrderUnique<T>(s: seq<T>, t: seq<T>, key: T -> Key)
    requires Strictly(s, key) && Strictly(t, key)
    requires |s| == |t| && forall x :: x in s <==> x in t
    ensures s == t
  {
    if s != [] {
      assert s[0] in t;
      assert t[0] in s;
      if s[0] != t[0] {
        var i :| 0 < i < |s| && s[i] == t[0];
        var j :| 0 < j < |t| && t[j] == s[0];
        assert KeyLess(key(s[0]), key(s[i])) && KeyLess(key(t[0]), key(t[j]));
        KeyTransitive(key(s[0]), key(t[0]), key(s[0]));
        KeyIrreflexive(key(s[0]));
      }
      TailsAgree(s, t, key);
      TailsAgree(t, s, key);
      StrictOrderUnique(s[1..], t[1..], key);
      assert s == [s[0]] + s[1..] && t == [t[0]] + t[1..];
    }
  }

  lemma TailsAgree<T>(s: seq<T>, t: seq<T>, key: T -> Key)
    requires s != [] && t != [] && s[0] == t[0]
    requires Strictly(s, key) && (forall x :: x in s ==> x in t)
    ensures forall x :: x in s[1..] ==> x in t[1..]
  {
    forall x | x in s[1..]
      ensures x in t[1..]
    {
      var i :| 0 < i < |s| && s[i] == x;
      KeyIrreflexive(key(x));
      assert s[i] in s && x in t;
      var j :| 0 <= j < |t| && t[j] == x;
    }
  }

  lemma OrderedDistinctIsStrict<T>(s: seq<T>, key: T -> Key)
    requires Ordered(s, key)
    requires forall i, j :: 0 <= i < j < |s| ==> key(s[i]) != key(s[j])
    ensures Strictly(s, key)
  {
    forall i, j | 0 <= i < j < |s|
      ensures KeyLess(key(s[i]), key(s[j]))
    {
      KeyTotal(key(s[i]), key(s[j]));
    }
  }

  lemma KeyNotLessTransitive(a: Key, b: Key, c: Key)
    requires !KeyLess(b, a) && !KeyLess(c, b)
    ensures !KeyLess(c, a)
  {
    KeyTotal(a, b);
    KeyTotal(b, c);
    KeyIrreflexive(a);
    if KeyLess(c, a) {
      if KeyLess(a, b) { KeyTransitive(c, a, b); }
    }
  }

  /** The library sort: some ordered permutation; equal keys may come out in any order. */
  method Sort<T>(s: seq<T>, key: T -> Key) returns (r: seq<T>)
    ensures multiset(r) == multiset(s)
    ensures Ordered(r, key)
  {
    r := [];
    for i := 0 to |s|
      invariant multiset(r) == multiset(s[..i])
      invariant Ordered(r, key)
    {
      var k := |r|;
      while k > 0 && KeyLess(key(s[i]), key(r[k - 1]))
        invariant 0 <= k <= |r|
        invariant forall j :: k <= j < |r| ==> KeyLess(key(s[i]), key(r[j]))
      {
        k := k - 1;
      }
      InsertOrdered(r, k, s[i], key);
      assert r == r[..k] + r[k..];
      assert s[..i + 1] == s[..i] + [s[i]];
      r := r[..k] + [s[i]] + r[k..];
    }
    assert s[..|s|] == s;
  }

  lemma InsertOrdered<T>(r: seq<T>, k: nat, x: T, key: T -> Key)
    requires k <= |r| && Ordered(r, key)
    requires k > 0 ==> !KeyLess(key(x), key(r[k - 1]))
    requires forall j :: k <= j < |r| ==> KeyLess(key(x), key(r[j]))
    ensures Ordered(r[..k] + [x] + r[k..], key)
  {
    var t := r[..k] + [x] + r[k..];
    forall i, j | 0 <= i < j < |t|
      ensures !KeyLess(key(t[j]), key(t[i]))
    {
      if j == k {
        assert t[i] == r[i];
        if i < k - 1 { KeyNotLessTransitive(key(r[i]), key(r[k - 1]), key(x)); }
      } else if i == k {
        assert t[j] == r[j - 1];
        if KeyLess(key(t[j]), key(x)) {
          KeyTransitive(key(x), key(t[j]), key(x));
          KeyIrreflexive(key(x));
        }
      } else {
        assert t[i] == r[if i < k then i else i - 1] && t[j] == r[if j < k then j else j - 1];
      }
    }
  }
}

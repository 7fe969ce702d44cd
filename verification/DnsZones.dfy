/** Finding the zone that encloses a record, and the checks on the zone found. */
module DnsZones {
  import opened Wrappers
  import opened Text
  import opened KeyRecords

  // ---------------------------------------------------------------------------------------------
  // Labels
  // ---------------------------------------------------------------------------------------------

  lemma {:induction false} JoinOfSplit(s: string, c: char)
    ensures Join(Split(s, c), [c]) == s
  {
    if s != "" {
      JoinOfSplit(s[1..], c);
      var rest := Split(s[1..], c);
      if s[0] == c {
        assert ([""] + rest)[1..] == rest;
        assert Join([""] + rest, [c]) == "" + [c] + Join(rest, [c]);
      } else {
        var parts := [[s[0]] + rest[0]] + rest[1..];
        assert parts[1..] == rest[1..];
        if |rest| > 1 {
          assert Join(parts, [c]) == [s[0]] + rest[0] + [c] + Join(rest[1..], [c]);
        }
      }
    }
  }

  lemma {:induction false} SplitParts(s: string, c: char)
    ensures forall i :: 0 <= i < |Split(s, c)| ==> c !in Split(s, c)[i]
  {
    if s != "" { SplitParts(s[1..], c); }
  }

  lemma {:induction false} SplitOfJoin(parts: seq<string>, c: char)
    requires parts != [] && forall i :: 0 <= i < |parts| ==> c !in parts[i]
    ensures Split(Join(parts, [c]), c) == parts
  {
    if |parts| == 1 {
      SplitHead(parts[0], "", c);
    } else {
      SplitOfJoin(parts[1..], c);
      SplitHead(parts[0], Join(parts[1..], [c]), c);
      assert Join(parts, [c]) == parts[0] + [c] + Join(parts[1..], [c]);
      assert parts == [parts[0]] + parts[1..];
    }
  }

  lemma {:induction false} JoinCut(parts: seq<string>, i: nat, c: string)
    requires 0 < i < |parts|
    ensures Join(parts, c) == Join(parts[..i], c) + c + Join(parts[i..], c)
  {
    if i == 1 {
      assert parts[..1] == [parts[0]];
    } else {
      JoinCut(parts[1..], i - 1, c);
      assert parts[1..][..i - 1] == parts[..i][1..] && parts[1..][i - 1..] == parts[i..];
      assert parts[..i][0] == parts[0];
      Regrouped(parts[0], c, Join(parts[..i][1..], c), Join(parts[i..], c));
    }
  }

  lemma Regrouped(first: string, c: string, head: string, tail: string)
    ensures first + c + (head + c + tail) == (first + c + head) + c + tail
  {}

  function TrimDots(s: string): string
  {
    if s != "" && s[0] == '.' then TrimDots(s[1..])
    else if s != "" && s[|s| - 1] == '.' then TrimDots(s[..|s| - 1])
    else s
  }

  function Clean(s: string): string { TrimDots(TrimSpace(s)) }

  lemma CutTwice(s: string, from: nat, to: nat, c: nat, d: nat)
    requires from <= to <= |s| && c + d <= to - from
    ensures s[from..to][c..to - from - d] == s[from + c..to - d]
  {
    var x, y := s[from..to][c..to - from - d], s[from + c..to - d];
    assert |x| == |y|;
    forall k | 0 <= k < |x| ensures x[k] == y[k] {
      assert x[k] == s[from..to][c + k];
    }
  }

  /** Only dots are cut, and all of them at both ends. */
  lemma {:induction false} DotsCut(s: string) returns (a: nat, b: nat)
    ensures a + b <= |s| && TrimDots(s) == s[a..|s| - b]
    ensures forall i :: 0 <= i < a || |s| - b <= i < |s| ==> s[i] == '.'
    ensures TrimDots(s) != "" ==> TrimDots(s)[0] != '.' && TrimDots(s)[|TrimDots(s)| - 1] != '.'
  {
    a, b := 0, 0;
    if s != "" && s[0] == '.' {
      a, b := DotsCut(s[1..]);
      CutTwice(s, 1, |s|, a, b);
      a := a + 1;
    } else if s != "" && s[|s| - 1] == '.' {
      a, b := DotsCut(s[..|s| - 1]);
      CutTwice(s, 0, |s| - 1, a, b);
      b := b + 1;
    }
  }

  lemma {:induction false} BlanksCut(s: string) returns (a: nat, b: nat)
    ensures a + b <= |s| && TrimSpace(s) == s[a..|s| - b] && Trimmed(TrimSpace(s))
    ensures forall i :: 0 <= i < a || |s| - b <= i < |s| ==> IsSpace(s[i])
  {
    hide IsSpace;
    TrimMeans(s);
    a, b := 0, 0;
    if s != "" && IsSpace(s[0]) {
      a, b := BlanksCut(s[1..]);
      CutTwice(s, 1, |s|, a, b);
      a := a + 1;
    } else if s != "" && IsSpace(s[|s| - 1]) {
      var t := s[..|s| - 1];
      LeftStays(s);
      a, b := BlanksCut(t);
      CutTwice(s, 0, |s| - 1, a, b);
      b := b + 1;
    }
  }

  lemma LeftStays(s: string)
    requires s != "" && !IsSpace(s[0]) && IsSpace(s[|s| - 1])
    ensures TrimSpace(s) == TrimSpace(s[..|s| - 1])
  {}

  /** A cleaned name is the one asked for without its outer blanks and then without its outer dots. */
  lemma CleanCutsEdges(s: string) returns (a: nat, b: nat, c: nat, d: nat)
    ensures a + b + c + d <= |s| && Clean(s) == s[a + c..|s| - b - d]
    ensures forall i :: 0 <= i < a || |s| - b <= i < |s| ==> IsSpace(s[i])
    ensures forall i :: a <= i < a + c || |s| - b - d <= i < |s| - b ==> s[i] == '.'
    ensures TrimSpace(s) == s[a..|s| - b] && Trimmed(TrimSpace(s))
    ensures Clean(s) != "" ==> Clean(s)[0] != '.' && Clean(s)[|Clean(s)| - 1] != '.'
  {
    hide IsSpace, TrimSpace, Trimmed;
    a, b := BlanksCut(s);
    var t := TrimSpace(s);
    c, d := DotsCut(t);
    CutTwice(s, a, |s| - b, c, d);
    assert forall i :: 0 <= i < |t| ==> t[i] == s[a + i];
  }

  // ---------------------------------------------------------------------------------------------
  // The search
  // ---------------------------------------------------------------------------------------------

  datatype Target = Target(zone: string, subdomain: string)

  function LabelsOf(zone: string): seq<string> { Split(zone, '.') }

  /** The zone itself, and every parent of at least two labels. */
  function CandidateCount(zone: string): nat { if |LabelsOf(zone)| <= 2 then 1 else |LabelsOf(zone)| - 1 }

  function CandidateZone(zone: string, i: nat): string
    requires i < |LabelsOf(zone)|
  {
    Join(LabelsOf(zone)[i..], ".")
  }

  function WithPrefix(subdomain: string, prefix: string): string
  {
    if subdomain == "" then prefix else subdomain + "." + prefix
  }

  function TargetAt(zone: string, subdomain: string, i: nat): Target
    requires i < |LabelsOf(zone)|
  {
    Target(CandidateZone(zone, i), if i == 0 then subdomain else WithPrefix(subdomain, Join(LabelsOf(zone)[..i], ".")))
  }

  /** Candidate `i` bears an SOA record and no longer one does. */
  ghost predicate Bears(zone: string, lookup: string -> Result<bool>, i: nat)
  {
    && i < CandidateCount(zone) && lookup(CandidateZone(zone, i)) == Ok(true)
    && forall j :: 0 <= j < i ==> lookup(CandidateZone(zone, j)) == Ok(false)
  }

  /** What the search may ask for, read off the text: the zone itself, and every dotted rest behind one of its dots. */
  predicate Askable(zone: string, name: string)
  {
    || name == zone
    || (&& '.' in name && |name| < |zone| && zone[|zone| - |name|..] == name && zone[|zone| - |name| - 1] == '.')
  }

  /** All longer names are answered with no. */
  ghost predicate LongerDenied(zone: string, lookup: string -> Result<bool>, size: nat)
  {
    forall x :: Askable(zone, x) && |x| > size ==> lookup(x) == Ok(false)
  }

  /** The longest askable name that bears an SOA record, and the subdomain extended by what was cut off. */
  ghost predicate FoundTarget(zone: string, subdomain: string, lookup: string -> Result<bool>, t: Target)
  {
    && Askable(zone, t.zone) && lookup(t.zone) == Ok(true) && LongerDenied(zone, lookup, |t.zone|)
    && t.subdomain == if t.zone == zone then subdomain else WithPrefix(subdomain, zone[..|zone| - |t.zone| - 1])
  }

  /** Every askable name is answered with no, or a lookup fails before any is answered with yes. */
  ghost predicate NoTarget(zone: string, lookup: string -> Result<bool>)
  {
    || (forall x :: Askable(zone, x) ==> lookup(x) == Ok(false))
    || (exists x :: Askable(zone, x) && lookup(x).Err? && LongerDenied(zone, lookup, |x|))
  }

  /** The longest candidate that bears an SOA record. A failed lookup ends the search. */
  method ResolveUpdateTarget(zone: string, subdomain: string, lookup: string -> Result<bool>)
      returns (result: Result<Target>)
    ensures var z, s := Clean(zone), Clean(subdomain);
      forall t :: result == Ok(t) <==> z != "" && exists i :: Bears(z, lookup, i) && t == TargetAt(z, s, i)
    ensures result.Err? <==> Clean(zone) == "" || forall i :: !Bears(Clean(zone), lookup, i)
    ensures forall t :: result == Ok(t) <==> Clean(zone) != "" && FoundTarget(Clean(zone), Clean(subdomain), lookup, t)
    ensures result.Err? <==> Clean(zone) == "" || NoTarget(Clean(zone), lookup)
  {
    hide Clean, Split, Join, FoundTarget, NoTarget;
    var z, s := Clean(zone), Clean(subdomain);
    if z == "" { return Err(Invalid); }
    SearchOnText(z, s, lookup);
    var labels := LabelsOf(z);
    WholeZone(z);
    var found := lookup(z);
    if found.Err? { return Err(Unavailable); }
    if found.value {
      assert Bears(z, lookup, 0);
      return Ok(Target(z, s));
    }
    for i := 1 to if |labels| - 1 < 1 then 1 else |labels| - 1
      invariant forall j :: 0 <= j < i ==> lookup(CandidateZone(z, j)) == Ok(false)
    {
      var parent := Join(labels[i..], ".");
      found := lookup(parent);
      assert parent == CandidateZone(z, i);
      if found.Err? { return Err(Unavailable); }
      if found.value {
        assert Bears(z, lookup, i);
        return Ok(Target(parent, WithPrefix(s, Join(labels[..i], "."))));
      }
    }
    result := Err(Invalid);
  }

  lemma WholeZone(zone: string)
    ensures |LabelsOf(zone)| >= 1 && CandidateZone(zone, 0) == zone && LabelsOf(zone)[0..] == LabelsOf(zone)
  {
    JoinOfSplit(zone, '.');
    assert LabelsOf(zone)[0..] == LabelsOf(zone);
  }

  // ---------------------------------------------------------------------------------------------
  // The candidates on the text
  // ---------------------------------------------------------------------------------------------

  lemma {:induction false} SplitOfCat(a: string, c: char, b: string)
    ensures Split(a + [c] + b, c) == Split(a, c) + Split(b, c)
  {
    hide Split;
    var s := a + [c] + b;
    SplitUnfolds(s, c);
    SplitUnfolds(a, c);
    if a == "" {
      assert s[1..] == b;
    } else {
      SplitOfCat(a[1..], c, b);
      assert s[1..] == a[1..] + [c] + b;
      FirstLonger(a[0], Split(a[1..], c), Split(b, c));
    }
  }

  /** Lengthening the first part, or putting an empty one before it, ignores what follows. */
  lemma FirstLonger(first: char, x: seq<string>, y: seq<string>)
    requires x != []
    ensures [""] + (x + y) == [""] + x + y
    ensures [[first] + (x + y)[0]] + (x + y)[1..] == [[first] + x[0]] + x[1..] + y
  {}

  lemma SplitUnfolds(s: string, c: char)
    ensures s == "" ==> Split(s, c) == [""]
    ensures s != "" ==>
      var rest := Split(s[1..], c);
      Split(s, c) == if s[0] == c then [""] + rest else [[s[0]] + rest[0]] + rest[1..]
  {}

  lemma DotByLabels(s: string)
    ensures '.' in s <==> |LabelsOf(s)| >= 2
  {
    hide Split;
    JoinOfSplit(s, '.');
    SplitParts(s, '.');
    if |LabelsOf(s)| >= 2 {
      assert s == LabelsOf(s)[0] + "." + Join(LabelsOf(s)[1..], ".");
      assert s[|LabelsOf(s)[0]|] == '.';
    } else {
      assert s == LabelsOf(s)[0];
    }
  }

  /** Every candidate is askable, and what it cuts off is the text in front of it. */
  lemma CandidateOnText(zone: string, i: nat)
    requires i < CandidateCount(zone)
    ensures Askable(zone, CandidateZone(zone, i)) && (i == 0 <==> CandidateZone(zone, i) == zone)
    ensures i > 0 ==> Join(LabelsOf(zone)[..i], ".") == zone[..|zone| - |CandidateZone(zone, i)| - 1]
  {
    hide Join, Split;
    WholeZone(zone);
    if i > 0 {
      var labels, parent := LabelsOf(zone), CandidateZone(zone, i);
      JoinCut(labels, i, ".");
      SplitParts(zone, '.');
      SplitOfJoin(labels[i..], '.');
      DotByLabels(parent);
      var prefix := Join(labels[..i], ".");
      assert zone == prefix + "." + parent;
    }
  }

  /** Every askable name is a candidate. */
  lemma TextIsCandidate(zone: string, name: string) returns (i: nat)
    requires Askable(zone, name)
    ensures i < CandidateCount(zone) && CandidateZone(zone, i) == name
  {
    hide Join, Split;
    WholeZone(zone);
    i := 0;
    if name != zone {
      var prefix := zone[..|zone| - |name| - 1];
      assert zone == prefix + ['.'] + name;
      SplitOfCat(prefix, '.', name);
      DotByLabels(name);
      JoinOfSplit(name, '.');
      i := |LabelsOf(prefix)|;
      assert LabelsOf(zone)[i..] == LabelsOf(name);
    }
  }

  lemma BearingIsFound(zone: string, subdomain: string, lookup: string -> Result<bool>, i: nat)
    requires Bears(zone, lookup, i)
    ensures FoundTarget(zone, subdomain, lookup, TargetAt(zone, subdomain, i))
  {
    hide Join, Split, Askable;
    CandidateOnText(zone, i);
    forall x | Askable(zone, x) && |x| > |CandidateZone(zone, i)| ensures lookup(x) == Ok(false) {
      var j := TextIsCandidate(zone, x);
      if i < j { LaterIsShorter(zone, i, j); }
    }
  }

  lemma FoundIsBearing(zone: string, subdomain: string, lookup: string -> Result<bool>, t: Target) returns (i: nat)
    requires FoundTarget(zone, subdomain, lookup, t)
    ensures Bears(zone, lookup, i) && t == TargetAt(zone, subdomain, i)
  {
    hide Join, Split, Askable;
    i := TextIsCandidate(zone, t.zone);
    CandidateOnText(zone, i);
    forall j | 0 <= j < i ensures lookup(CandidateZone(zone, j)) == Ok(false) {
      CandidateOnText(zone, j);
      LaterIsShorter(zone, j, i);
    }
  }

  /** The first candidate that is not denied. */
  lemma {:induction false} FirstNotDenied(zone: string, lookup: string -> Result<bool>, n: nat) returns (i: nat)
    requires n <= CandidateCount(zone)
    ensures i <= n && forall j :: 0 <= j < i ==> lookup(CandidateZone(zone, j)) == Ok(false)
    ensures i < n ==> lookup(CandidateZone(zone, i)) != Ok(false)
  {
    hide Join, Split;
    i := 0;
    if n > 0 {
      i := FirstNotDenied(zone, lookup, n - 1);
      if i == n - 1 && lookup(CandidateZone(zone, n - 1)) == Ok(false) { i := n; }
    }
  }

  lemma YesOrNo(answer: Result<bool>)
    ensures answer.Err? || answer == Ok(true) || answer == Ok(false)
  {
    match answer
    case Err(_) =>
    case Ok(yes) => if yes { assert answer == Ok(true); } else { assert answer == Ok(false); }
  }

  lemma NoneBears(zone: string, lookup: string -> Result<bool>)
    requires forall i :: !Bears(zone, lookup, i)
    ensures NoTarget(zone, lookup)
  {
    hide Join, Split, Askable;
    var n := CandidateCount(zone);
    var i := FirstNotDenied(zone, lookup, n);
    if i < n {
      assert !Bears(zone, lookup, i);
      var x := CandidateZone(zone, i);
      YesOrNo(lookup(x));
      CandidateOnText(zone, i);
      forall y | Askable(zone, y) && |y| > |x| ensures lookup(y) == Ok(false) {
        var j := TextIsCandidate(zone, y);
        if i < j { LaterIsShorter(zone, i, j); }
      }
      assert Askable(zone, x) && lookup(x).Err? && LongerDenied(zone, lookup, |x|);
    } else {
      forall x | Askable(zone, x) ensures lookup(x) == Ok(false) {
        var j := TextIsCandidate(zone, x);
      }
    }
  }

  lemma NoTargetBears(zone: string, lookup: string -> Result<bool>, i: nat)
    requires NoTarget(zone, lookup)
    ensures !Bears(zone, lookup, i)
  {
    hide Join, Split, Askable;
    if Bears(zone, lookup, i) {
      BearingIsFound(zone, "", lookup, i);
      var b := CandidateZone(zone, i);
      assert Askable(zone, b);
      if x :| Askable(zone, x) && lookup(x).Err? && LongerDenied(zone, lookup, |x|) {
        var j := TextIsCandidate(zone, x);
        assert |b| <= |x|;
        if i < j { LaterIsShorter(zone, i, j); }
      }
    }
  }

  /** The search by labels and the search on the text are one. */
  lemma SearchOnText(zone: string, subdomain: string, lookup: string -> Result<bool>)
    ensures forall t :: FoundTarget(zone, subdomain, lookup, t) <==>
      exists i :: Bears(zone, lookup, i) && t == TargetAt(zone, subdomain, i)
    ensures NoTarget(zone, lookup) <==> forall i :: !Bears(zone, lookup, i)
  {
    hide FoundTarget, NoTarget, CandidateZone, Askable, Join, Split;
    forall t
      ensures FoundTarget(zone, subdomain, lookup, t) <==>
        exists i :: Bears(zone, lookup, i) && t == TargetAt(zone, subdomain, i)
    {
      if FoundTarget(zone, subdomain, lookup, t) { var i := FoundIsBearing(zone, subdomain, lookup, t); }
      if i :| Bears(zone, lookup, i) && t == TargetAt(zone, subdomain, i) {
        BearingIsFound(zone, subdomain, lookup, i);
      }
    }
    if NoTarget(zone, lookup) {
      forall i ensures !Bears(zone, lookup, i) { NoTargetBears(zone, lookup, i); }
    } else if forall i :: !Bears(zone, lookup, i) {
      NoneBears(zone, lookup);
    }
  }

  /** Later candidates are shorter, so the one chosen is the longest bearing an SOA record. */
  lemma ChosenIsLongest(zone: string, lookup: string -> Result<bool>, i: nat, j: nat)
    requires Bears(zone, lookup, i) && j < CandidateCount(zone) && lookup(CandidateZone(zone, j)) == Ok(true)
    ensures |CandidateZone(zone, j)| <= |CandidateZone(zone, i)|
    ensures j != i ==> |CandidateZone(zone, j)| < |CandidateZone(zone, i)|
  {
    hide Split, Join;
    if i < j { LaterIsShorter(zone, i, j); }
  }

  lemma LaterIsShorter(zone: string, i: nat, j: nat)
    requires i < j < |LabelsOf(zone)|
    ensures |CandidateZone(zone, j)| < |CandidateZone(zone, i)|
  {
    hide Join;
    JoinCut(LabelsOf(zone)[i..], j - i, ".");
    assert LabelsOf(zone)[i..][j - i..] == LabelsOf(zone)[j..];
  }

  // ---------------------------------------------------------------------------------------------
  // Record names
  // ---------------------------------------------------------------------------------------------

  function Backslashes(s: string): nat { if s != "" && s[|s| - 1] == '\\' then Backslashes(s[..|s| - 1]) + 1 else 0 }

  /** Ends in a dot that is not escaped. */
  predicate IsFqdn(s: string) { s != "" && s[|s| - 1] == '.' && Backslashes(s[..|s| - 1]) % 2 == 0 }

  function Fqdn(s: string): string { if IsFqdn(s) then s else s + "." }

  function Slashes(k: nat): string { if k == 0 then "" else Slashes(k - 1) + "\\" }

  lemma {:induction false} BackslashesOf(t: string, k: nat)
    requires t == "" || t[|t| - 1] != '\\'
    ensures Backslashes(t + Slashes(k)) == k
  {
    if k == 0 {
      assert t + Slashes(0) == t;
    } else {
      BackslashesOf(t, k - 1);
      assert (t + Slashes(k))[..|t + Slashes(k)| - 1] == t + Slashes(k - 1);
    }
  }

  /** A final dot is escaped exactly by an odd number of backslashes before it; then, or without one, a dot is added. */
  lemma FqdnOnText(t: string, k: nat)
    requires t == "" || t[|t| - 1] != '\\'
    ensures IsFqdn(t + Slashes(k) + ".") <==> k % 2 == 0
    ensures Fqdn(t + Slashes(k) + ".") == t + Slashes(k) + (if k % 2 == 0 then "." else "..")
    ensures t != "" && t[|t| - 1] != '.' ==> Fqdn(t) == t + "."
  {
    BackslashesOf(t, k);
    var s := t + Slashes(k);
    assert (s + ".")[..|s|] == s;
    assert s + "." + "." == s + "..";
  }

  function RelativeName(zone: string, selector: string, subdomain: string): string
  {
    selector + "._domainkey" + (if subdomain != "" then "." + subdomain else "") + "." + zone
  }

  function RecordName(zone: string, selector: string, subdomain: string): string
  {
    Fqdn(RelativeName(zone, selector, subdomain))
  }

  /** Whichever candidate is chosen, the record keeps its owner name. */
  lemma OwnerNameKept(zone: string, subdomain: string, selector: string, i: nat)
    requires i < |LabelsOf(zone)| && (i > 0 ==> Join(LabelsOf(zone)[..i], ".") != "")
    ensures var t := TargetAt(zone, subdomain, i);
      RecordName(t.zone, selector, t.subdomain) == RecordName(zone, selector, subdomain)
  {
    hide Join, Split;
    WholeZone(zone);
    if i > 0 {
      var labels := LabelsOf(zone);
      var prefix, parent := Join(labels[..i], "."), Join(labels[i..], ".");
      JoinCut(labels, i, ".");
      assert zone == prefix + "." + parent;
      var base := selector + "._domainkey";
      if subdomain == "" {
        assert base + ("." + prefix) + "." + parent == base + "" + "." + (prefix + "." + parent);
      } else {
        assert base + ("." + (subdomain + "." + prefix)) + "." + parent ==
          base + ("." + subdomain) + "." + (prefix + "." + parent);
      }
    }
  }

  /** A cleaned zone does not begin with a dot, so the part cut off in front of a parent is never empty. */
  lemma PrefixNotEmpty(zone: string, i: nat)
    requires 0 < i < |LabelsOf(Clean(zone))|
    ensures Join(LabelsOf(Clean(zone))[..i], ".") != ""
  {
    hide Join, TrimSpace;
    var z := Clean(zone);
    var labels := LabelsOf(z);
    DotsTrimmed(TrimSpace(zone));
    FirstLabel(z);
    if i > 1 { JoinCut(labels[..i], 1, "."); }
    SingleLabel(labels);
    assert labels[..i][..1] == labels[..1] && (i == 1 ==> labels[..i] == labels[..1]);
  }

  lemma SingleLabel(labels: seq<string>)
    requires labels != []
    ensures Join(labels[..1], ".") == labels[0]
  {}

  lemma {:induction false} DotsTrimmed(s: string)
    ensures TrimDots(s) != "" ==> TrimDots(s)[0] != '.' && TrimDots(s)[|TrimDots(s)| - 1] != '.'
  {
    if s != "" && s[0] == '.' { DotsTrimmed(s[1..]); }
    else if s != "" && s[|s| - 1] == '.' { DotsTrimmed(s[..|s| - 1]); }
  }

  lemma FirstLabel(z: string)
    requires z == "" || z[0] != '.'
    ensures z == "" ==> |LabelsOf(z)| == 1
    ensures z != "" ==> LabelsOf(z)[0] != ""
  {}

  /** The target found names the same record as the zone asked for. */
  lemma ResolvedOwner(zone: string, subdomain: string, selector: string, i: nat)
    requires i < |LabelsOf(Clean(zone))|
    ensures var t := TargetAt(Clean(zone), Clean(subdomain), i);
      RecordName(t.zone, selector, t.subdomain) == RecordName(Clean(zone), selector, Clean(subdomain))
  {
    hide Clean, Join, Split, RecordName;
    if i > 0 { PrefixNotEmpty(zone, i); }
    OwnerNameKept(Clean(zone), Clean(subdomain), selector, i);
  }

  // ---------------------------------------------------------------------------------------------
  // Canonical names
  // ---------------------------------------------------------------------------------------------

  const NAME_LIMIT := 255

  predicate GoodLabel(s: string) { 0 < |s| <= 63 && forall c :: c in s ==> c != '\\' && !('A' <= c <= 'Z') }

  /** The labels of an absolute name. */
  function Labels(name: string): seq<string>
  {
    if name == "." || name == "" then [] else Split(name[..|name| - 1], '.')
  }

  predicate AbsoluteCanonicalName(name: string)
  {
    && 0 < |name| <= NAME_LIMIT && name[|name| - 1] == '.'
    && forall i :: 0 <= i < |Labels(name)| ==> GoodLabel(Labels(name)[i])
  }

  predicate EligibleUpdateZone(name: string) { AbsoluteCanonicalName(name) && |Labels(name)| >= 2 }

  /** `parent` is `child` or one of its ancestors. */
  predicate IsSubDomain(parent: string, child: string)
  {
    |Labels(parent)| <= |Labels(child)| && Labels(child)[|Labels(child)| - |Labels(parent)|..] == Labels(parent)
  }

  lemma SubDomainTransitive(a: string, b: string, c: string)
    requires IsSubDomain(a, b) && IsSubDomain(b, c)
    ensures IsSubDomain(a, c)
  {
    hide Labels;
    var x, y, z := Labels(a), Labels(b), Labels(c);
    assert z[|z| - |x|..] == z[|z| - |y|..][|y| - |x|..];
  }

  /** One absolute owner and its preferred record content. */
  datatype ExpectedTxt = ExpectedTxt(owner: string, content: string)

  ghost predicate ValidExpectedTxt(expected: ExpectedTxt)
  {
    AbsoluteCanonicalName(expected.owner) && exists key :: StrictRecord(expected.content, key)
  }

  ghost predicate ValidZoneOwner(zone: string, expected: ExpectedTxt)
  {
    ValidExpectedTxt(expected) && AbsoluteCanonicalName(zone) && IsSubDomain(zone, expected.owner)
  }

  /** The resolved zone encloses the logical one, and both own the record. */
  ghost predicate ValidateResolvedUpdateZone(logical: string, resolved: string, expected: ExpectedTxt)
  {
    && EligibleUpdateZone(logical) && EligibleUpdateZone(resolved) && ValidZoneOwner(logical, expected)
    && ValidZoneOwner(resolved, expected)
    && IsSubDomain(resolved, logical)
  }

  /** The zone an update for records under `logical` must go to. */
  method ResolveUpdateZone(logical: string, lookup: string -> Result<bool>) returns (result: Result<string>)
    ensures result.Ok? ==>
      EligibleUpdateZone(logical) && EligibleUpdateZone(result.value) && IsSubDomain(result.value, logical)
    ensures result.Ok? ==>
      exists i :: Bears(Clean(logical), lookup, i) && result.value == Fqdn(CandidateZone(Clean(logical), i))
    ensures EligibleUpdateZone(logical) && !IsSpace(logical[0]) ==>
      (result.Err? <==> forall i :: !Bears(Clean(logical), lookup, i))
  {
    hide Clean, AbsoluteCanonicalName, Labels, Split, Join, Fqdn;
    if !EligibleUpdateZone(logical) { return Err(Uncertain); }
    NonEmpty(logical);
    if !IsSpace(logical[0]) { CleanCanonical(logical); }
    var target := ResolveUpdateTarget(logical, "", lookup);
    if target.Err? { return Err(Uncertain); }
    var resolved := Fqdn(target.value.zone);
    ghost var i :| Bears(Clean(logical), lookup, i) && target.value == TargetAt(Clean(logical), Clean(""), i);
    if !IsSpace(logical[0]) { CandidateIsEligible(logical, i); }
    if !EligibleUpdateZone(resolved) || !IsSubDomain(resolved, logical) { return Err(Uncertain); }
    result := Ok(resolved);
  }

  lemma NonEmpty(name: string)
    requires EligibleUpdateZone(name)
    ensures name != ""
  {}

  /** A canonical name without blank edges is cleaned of its final dot only. */
  lemma CleanCanonical(logical: string)
    requires EligibleUpdateZone(logical) && !IsSpace(logical[0])
    ensures logical != "." && Clean(logical) == logical[..|logical| - 1] != ""
    ensures Labels(logical) == LabelsOf(Clean(logical))
  {
    hide Split, TrimSpace, Labels;
    TrimMeans(logical);
    RootIsSmall();
    assert logical != ".";
    var body := logical[..|logical| - 1];
    assert Labels(logical) == LabelsOf(body) by { LabelsOfBody(logical); }
    BodyEdges(body);
  }

  lemma RootIsSmall()
    ensures Labels(".") == []
  {}

  lemma LabelsOfBody(name: string)
    requires name != "." && name != ""
    ensures Labels(name) == LabelsOf(name[..|name| - 1])
  {}

  /** Good labels neither begin nor end with a dot, and together they do not either. */
  lemma BodyEdges(body: string)
    requires body != "" && forall i :: 0 <= i < |LabelsOf(body)| ==> GoodLabel(LabelsOf(body)[i])
    ensures body[0] != '.' && body[|body| - 1] != '.' && TrimDots(body + ".") == TrimDots(body) == body
  {
    hide GoodLabel, Split;
    FirstGood(body);
    GoodIsNonEmpty(LabelsOf(body)[|LabelsOf(body)| - 1]);
    LastGood(body);
    assert (body + ".")[..|body|] == body;
  }

  lemma LeadingDot(body: string)
    ensures body != "" && body[0] == '.' ==> LabelsOf(body)[0] == ""
  {}

  lemma FirstGood(body: string)
    requires body != "" && forall i :: 0 <= i < |LabelsOf(body)| ==> GoodLabel(LabelsOf(body)[i])
    ensures body[0] != '.'
  {
    LeadingDot(body);
    GoodIsNonEmpty(LabelsOf(body)[0]);
  }

  lemma {:induction false} LastGood(body: string)
    requires body != "" && LabelsOf(body)[|LabelsOf(body)| - 1] != ""
    ensures body[|body| - 1] != '.'
  {
    var rest := LabelsOf(body[1..]);
    EmptySplit();
    if |body| > 1 {
      assert body[|body| - 1] == body[1..][|body| - 2];
      if |rest| == 1 {
        SingleHasNoDot(body[1..]);
        assert body[1..][|body| - 2] in body[1..];
      } else {
        LastGood(body[1..]);
      }
    } else {
      assert body[1..] == "";
    }
  }

  lemma {:induction false} SingleHasNoDot(s: string)
    requires |LabelsOf(s)| == 1
    ensures '.' !in s
  {
    if s != "" { SingleHasNoDot(s[1..]); }
  }

  /** Every candidate of an eligible zone is eligible and encloses it. */
  lemma CandidateIsEligible(logical: string, i: nat)
    requires EligibleUpdateZone(logical) && !IsSpace(logical[0]) && i < CandidateCount(Clean(logical))
    ensures var resolved := Fqdn(CandidateZone(Clean(logical), i));
      EligibleUpdateZone(resolved) && IsSubDomain(resolved, logical)
  {
    hide Clean, Split, Join, GoodLabel, Labels, Fqdn;
    CleanCanonical(logical);
    var labels := Labels(logical);
    var parent := CandidateZone(Clean(logical), i);
    var resolved := Fqdn(parent);
    SplitParts(Clean(logical), '.');
    SplitOfJoin(labels[i..], '.');
    JoinedIsName(labels[i..]);
    assert |parent| <= |Clean(logical)| by {
      WholeZone(Clean(logical));
      if i > 0 { LaterIsShorter(Clean(logical), 0, i); }
    }
    assert Labels(resolved) == labels[i..];
  }

  /** Good labels joined with dots become an absolute name by one final dot. */
  lemma JoinedIsName(labels: seq<string>)
    requires labels != [] && (forall i :: 0 <= i < |labels| ==> GoodLabel(labels[i]) && '.' !in labels[i])
    ensures var s := Join(labels, ".");
      Fqdn(s) == s + "." && s != "" && Labels(s + ".") == labels && (s + ".")[..|s|] == s
  {
    hide Split, Join, GoodLabel;
    var s := Join(labels, ".");
    SplitOfJoin(labels, '.');
    GoodIsNonEmpty(labels[0]);
    EmptySplit();
    assert s != "";
    BodyEdges(s);
    assert (s + ".")[..|s|] == s;
    LabelsOfBody(s + ".");
  }

  lemma GoodIsNonEmpty(s: string)
    requires GoodLabel(s)
    ensures s != ""
  {}

  lemma EmptySplit()
    ensures Split("", '.') == [""]
  {}

  /** A resolved zone always passes the later validation of records under the logical zone. */
  lemma ResolvedZoneIsValid(logical: string, resolved: string, expected: ExpectedTxt)
    requires EligibleUpdateZone(logical) && EligibleUpdateZone(resolved) && IsSubDomain(resolved, logical)
    requires ValidZoneOwner(logical, expected)
    ensures ValidateResolvedUpdateZone(logical, resolved, expected)
  {
    hide Labels, StrictRecord;
    SubDomainTransitive(resolved, logical, expected.owner);
  }
}

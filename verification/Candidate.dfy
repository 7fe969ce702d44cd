/** The campaign commitment: the framed byte stream that binds a candidate to its source and operation.
    The hash of the stream is represented by the stream itself. */
module Candidate {
  import opened Wrappers
  import opened Text
  import opened Order
  import opened Records
  import opened Generations

  const LENGTH_LIMIT := 0x1_0000_0000

  const DIGEST_DOMAIN := "DKIM2-CAMPAIGN-CANDIDATE-CONTENT-V2\0"

  const SCHEMA_V3 := "dkim2-datasource-v3"

  // ---------------------------------------------------------------------------------------------
  // Fixed-width numbers and framed fields
  // ---------------------------------------------------------------------------------------------

  function Power256(k: nat): nat { if k == 0 then 1 else 256 * Power256(k - 1) }

  /** The low `k` bytes of `n`, most significant first. */
  function BigEndian(n: nat, k: nat): (r: Bytes)
    ensures |r| == k
  {
    if k == 0 then [] else BigEndian(n / 256, k - 1) + [n % 256]
  }

  lemma {:induction false} BigEndianInjective(n: nat, m: nat, k: nat)
    requires n < Power256(k) && m < Power256(k) && BigEndian(n, k) == BigEndian(m, k)
    ensures n == m
  {
    if k > 0 {
      var x, y := BigEndian(n, k), BigEndian(m, k);
      assert x[k - 1] == y[k - 1] && x[..k - 1] == BigEndian(n / 256, k - 1) && y[..k - 1] == BigEndian(m / 256, k - 1);
      BigEndianInjective(n / 256, m / 256, k - 1);
    }
  }

  /** Text as bytes; every text written here is seven-bit, so the conversion loses nothing. */
  function Ascii(s: string): Bytes { seq(|s|, i requires 0 <= i < |s| => s[i] as int % 256) }

  ghost predicate SevenBit(s: string) { forall c :: c in s ==> c < 128 as char }

  lemma AsciiInjective(s: string, t: string)
    requires SevenBit(s) && SevenBit(t) && Ascii(s) == Ascii(t)
    ensures s == t
  {
    forall i | 0 <= i < |s| ensures s[i] == t[i] {
      assert Ascii(s)[i] == Ascii(t)[i] && s[i] in s && t[i] in t;
    }
  }

  /** The units the writer emits. */
  datatype Field = Count(count: nat) | Fixed(value: Number) | Framed(content: Bytes) | Nullable(optional: Option<Bytes>)

  function FieldBytes(f: Field): Bytes
  {
    match f
    case Count(n) => LengthBytes(n)
    case Fixed(v) => BigEndian(v, 8)
    case Framed(b) => LengthBytes(|b|) + b
    case Nullable(o) => FlagBytes(o) + OptionalBytes(o)
  }

  function Encode(fields: seq<Field>): Bytes
  {
    if fields == [] then [] else FieldBytes(fields[0]) + Encode(fields[1..])
  }

  lemma {:induction false} EncodeAppend(fields: seq<Field>, more: seq<Field>)
    ensures Encode(fields + more) == Encode(fields) + Encode(more)
  {
    if fields == [] {
      assert fields + more == more;
    } else {
      assert (fields + more)[1..] == fields[1..] + more;
      EncodeAppend(fields[1..], more);
    }
  }

  predicate SameKind(f: Field, g: Field)
  {
    (f.Count? && g.Count?) || (f.Fixed? && g.Fixed?) || (f.Framed? && g.Framed?) || (f.Nullable? && g.Nullable?)
  }

  /** Counts and lengths survive the four-byte truncation. */
  predicate Fits(f: Field)
  {
    match f
    case Count(n) => n < LENGTH_LIMIT
    case Fixed(_) => true
    case Framed(b) => |b| < LENGTH_LIMIT
    case Nullable(None) => true
    case Nullable(Some(b)) => |b| < LENGTH_LIMIT
  }

  lemma Prefixes(a: Bytes, r: Bytes, b: Bytes, s: Bytes)
    requires a + r == b + s && |a| == |b|
    ensures a == b && r == s
  {
    assert a == (a + r)[..|a|] && b == (b + s)[..|b|];
    assert r == (a + r)[|a|..] && s == (b + s)[|b|..];
  }

  lemma Regroup(a: Bytes, b: Bytes, c: Bytes)
    ensures (a + b) + c == a + (b + c)
  {}

  function LengthBytes(n: nat): (r: Bytes)
    ensures |r| == 4
  {
    BigEndian(n % LENGTH_LIMIT, 4)
  }

  lemma FourBytes()
    ensures Power256(4) == LENGTH_LIMIT
  {}

  lemma LengthPeel(n: nat, r: Bytes, m: nat, s: Bytes)
    requires n < LENGTH_LIMIT && m < LENGTH_LIMIT && LengthBytes(n) + r == LengthBytes(m) + s
    ensures n == m && r == s
  {
    hide Power256, BigEndian;
    FourBytes();
    Prefixes(LengthBytes(n), r, LengthBytes(m), s);
    BigEndianInjective(n, m, 4);
  }

  lemma FramePeel(a: Bytes, r: Bytes, b: Bytes, s: Bytes)
    requires |a| < LENGTH_LIMIT && |b| < LENGTH_LIMIT
    requires LengthBytes(|a|) + a + r == LengthBytes(|b|) + b + s
    ensures a == b && r == s
  {
    hide LengthBytes;
    Regroup(LengthBytes(|a|), a, r);
    Regroup(LengthBytes(|b|), b, s);
    LengthPeel(|a|, a + r, |b|, b + s);
    Prefixes(a, r, b, s);
  }

  lemma FixedPeel(v: Number, r: Bytes, w: Number, s: Bytes)
    requires BigEndian(v, 8) + r == BigEndian(w, 8) + s
    ensures v == w && r == s
  {
    Prefixes(BigEndian(v, 8), r, BigEndian(w, 8), s);
    assert Power256(8) == MAX_NUMBER + 1;
    BigEndianInjective(v, w, 8);
  }

  function FlagBytes(o: Option<Bytes>): Bytes { if o.None? then [0] else [1] }

  function OptionalBytes(o: Option<Bytes>): Bytes { if o.None? then [] else LengthBytes(|o.value|) + o.value }

  lemma NullablePeel(o: Option<Bytes>, r: Bytes, p: Option<Bytes>, s: Bytes)
    requires Fits(Nullable(o)) && Fits(Nullable(p))
    requires FlagBytes(o) + OptionalBytes(o) + r == FlagBytes(p) + OptionalBytes(p) + s
    ensures o == p && r == s
  {
    hide LengthBytes;
    Regroup(FlagBytes(o), OptionalBytes(o), r);
    Regroup(FlagBytes(p), OptionalBytes(p), s);
    Prefixes(FlagBytes(o), OptionalBytes(o) + r, FlagBytes(p), OptionalBytes(p) + s);
    assert FlagBytes(o)[0] == FlagBytes(p)[0];
    if o.Some? {
      FramePeel(o.value, r, p.value, s);
    } else {
      assert OptionalBytes(o) + r == r && OptionalBytes(p) + s == s;
    }
  }

  /** One field can be read off the front of a stream once its kind is known. */
  lemma FieldPeel(f: Field, r: Bytes, g: Field, s: Bytes)
    requires SameKind(f, g) && Fits(f) && Fits(g) && FieldBytes(f) + r == FieldBytes(g) + s
    ensures f == g && r == s
  {
    hide LengthBytes, BigEndian;
    match f {
      case Count(n) => LengthPeel(n, r, g.count, s);
      case Fixed(v) => FixedPeel(v, r, g.value, s);
      case Framed(b) => FramePeel(b, r, g.content, s);
      case Nullable(o) => NullablePeel(o, r, g.optional, s);
    }
  }

  ghost predicate SameKinds(x: seq<Field>, y: seq<Field>)
  {
    |x| == |y| && forall i :: 0 <= i < |x| ==> SameKind(x[i], y[i])
  }

  ghost predicate AllFit(x: seq<Field>) { forall i :: 0 <= i < |x| ==> Fits(x[i]) }

  /** A stream of known kinds determines its fields and where they end. */
  lemma {:induction false} EncodePeel(x: seq<Field>, r: Bytes, y: seq<Field>, s: Bytes)
    requires SameKinds(x, y) && AllFit(x) && AllFit(y) && Encode(x) + r == Encode(y) + s
    ensures x == y && r == s
  {
    hide FieldBytes, Fits;
    if x != [] {
      Regroup(FieldBytes(x[0]), Encode(x[1..]), r);
      Regroup(FieldBytes(y[0]), Encode(y[1..]), s);
      FieldPeel(x[0], Encode(x[1..]) + r, y[0], Encode(y[1..]) + s);
      EncodePeel(x[1..], r, y[1..], s);
      assert x == [x[0]] + x[1..] && y == [y[0]] + y[1..];
    } else {
      assert Encode(x) + r == r && Encode(y) + s == s;
    }
  }

  // ---------------------------------------------------------------------------------------------
  // Records as fields
  // ---------------------------------------------------------------------------------------------

  function StatusName(s: Status): string { match s case Active => "active" case Disabled => "disabled" }

  function RolloutName(r: Rollout): string
  {
    match r case Enforce => "enforce" case Observe => "observe" case Off => "off"
  }

  function CompatibilityName(c: Compatibility): string { "strict" }

  function TextField(s: string): Field { Framed(Ascii(s)) }

  function HandleFields(h: Handle): seq<Field> { [TextField(h.id)] }

  function ProfileFields(p: Profile): seq<Field>
  {
    [TextField(p.id), TextField(p.domain), TextField(StatusName(p.status)),
     Nullable(if p.window.Some? then Some(Ascii(p.window.value.notBefore)) else None),
     Nullable(if p.window.Some? then Some(Ascii(p.window.value.notAfter)) else None)]
  }

  function CredentialFields(c: Credential): seq<Field>
  {
    [TextField(c.profileId), TextField(AlgorithmName(c.algorithm)), TextField(c.selector), Framed(c.publicSpki),
        TextField(c.handleId)]
  }

  function PolicyFields(q: Policy): seq<Field>
  {
    [TextField(q.tenant), TextField(q.domain), TextField(UseName(q.use)), TextField(q.profileId),
        TextField(StatusName(q.status)),
     TextField(RolloutName(q.rollout)), TextField(CompatibilityName(q.compatibility)),
     Nullable(if q.route.Some? then Some(Ascii(q.route.value)) else None)]
  }

  function MaterialFields(m: KeyMaterial): seq<Field>
  {
    [TextField(m.tenant), TextField(m.domain), TextField(UseName(m.use)), TextField(m.handleId),
        TextField(AlgorithmName(m.algorithm)),
     Framed(m.publicSpki), Framed(m.privatePkcs8)]
  }

  function ListFields<T>(s: seq<T>, row: T -> seq<Field>): seq<Field>
  {
    if s == [] then [] else ListFields(s[..|s| - 1], row) + row(s[|s| - 1])
  }

  /** One record list: its length, its records, and what follows. */
  function Section<T>(s: seq<T>, row: T -> seq<Field>, rest: seq<Field>): seq<Field>
  {
    [Count(|s|)] + (ListFields(s, row) + rest)
  }

  function RecordFields(g: Generation): seq<Field>
  {
    Section(g.handles, HandleFields,
            Section(g.profiles, ProfileFields,
                    Section(g.credentials, CredentialFields,
                            Section(g.policies, PolicyFields,
                                    Section(g.materials, MaterialFields, [])))))
  }

  function HeaderFields(operation: string, source: Number, number: Number): seq<Field>
  {
    [TextField(SCHEMA_V3), Fixed(source), Fixed(number), TextField(operation)]
  }

  /** The bytes hashed for an arrangement of a candidate's records. */
  function Stream(operation: string, source: Number, g: Generation): Bytes
  {
    Ascii(DIGEST_DOMAIN) + Encode(HeaderFields(operation, source, g.number) + RecordFields(g))
  }

  // ---------------------------------------------------------------------------------------------
  // Unique decodability
  // ---------------------------------------------------------------------------------------------

  /** Rows of one record kind all have the same field kinds. */
  ghost predicate Uniform<T(!new)>(row: T -> seq<Field>) { forall x, y :: SameKinds(row(x), row(y)) }

  lemma {:induction false} ListKinds<T(!new)>(s: seq<T>, t: seq<T>, row: T -> seq<Field>)
    requires Uniform(row) && |s| == |t|
    ensures SameKinds(ListFields(s, row), ListFields(t, row))
  {
    if s != [] {
      var n := |s| - 1;
      ListKinds(s[..n], t[..n], row);
      assert SameKinds(row(s[n]), row(t[n]));
    }
  }

  lemma {:induction false} ListRows<T(!new)>(s: seq<T>, t: seq<T>, row: T -> seq<Field>)
    requires Uniform(row) && |s| == |t| && ListFields(s, row) == ListFields(t, row)
    ensures forall i :: 0 <= i < |s| ==> row(s[i]) == row(t[i])
  {
    if s != [] {
      var n := |s| - 1;
      var a, b := ListFields(s[..n], row), ListFields(t[..n], row);
      assert SameKinds(row(s[n]), row(t[n]));
      ListKinds(s[..n], t[..n], row);
      assert a == ListFields(s, row)[..|a|] && b == ListFields(t, row)[..|b|];
      assert row(s[n]) == ListFields(s, row)[|a|..] && row(t[n]) == ListFields(t, row)[|b|..];
      ListRows(s[..n], t[..n], row);
      assert forall i :: 0 <= i < n ==> s[..n][i] == s[i] && t[..n][i] == t[i];
    }
  }

  ghost predicate RowsFit<T>(s: seq<T>, row: T -> seq<Field>)
  {
    |s| < LENGTH_LIMIT && forall x :: x in s ==> AllFit(row(x))
  }

  lemma {:induction false} ListFits<T>(s: seq<T>, row: T -> seq<Field>)
    requires forall x :: x in s ==> AllFit(row(x))
    ensures AllFit(ListFields(s, row))
  {
    if s != [] { ListFits(s[..|s| - 1], row); }
  }

  /** A whole section can be read off the front of a stream. */
  lemma SectionPeel<T(!new)>(s: seq<T>, x: seq<Field>, t: seq<T>, y: seq<Field>, row: T -> seq<Field>)
    requires Uniform(row) && RowsFit(s, row) && RowsFit(t, row)
    requires Encode(Section(s, row, x)) == Encode(Section(t, row, y))
    ensures |s| == |t| && (forall i :: 0 <= i < |s| ==> row(s[i]) == row(t[i])) && Encode(x) == Encode(y)
  {
    hide FieldBytes, Uniform, SameKinds, AllFit, ListFields;
    assert Section(s, row, x)[1..] == ListFields(s, row) + x && Section(t, row, y)[1..] == ListFields(t, row) + y;
    FieldPeel(Count(|s|), Encode(ListFields(s, row) + x), Count(|t|), Encode(ListFields(t, row) + y));
    EncodeAppend(ListFields(s, row), x);
    EncodeAppend(ListFields(t, row), y);
    ListKinds(s, t, row);
    ListFits(s, row);
    ListFits(t, row);
    EncodePeel(ListFields(s, row), Encode(x), ListFields(t, row), Encode(y));
    ListRows(s, t, row);
  }

  lemma RowsUniform()
    ensures Uniform(HandleFields) && Uniform(ProfileFields) && Uniform(CredentialFields) && Uniform(PolicyFields)
    ensures Uniform(MaterialFields)
  {
    hide SameKinds, HandleFields, ProfileFields, CredentialFields, PolicyFields, MaterialFields;
    forall x, y ensures SameKinds(HandleFields(x), HandleFields(y)) { HandleKinds(x, y); }
    forall x, y ensures SameKinds(ProfileFields(x), ProfileFields(y)) { ProfileKinds(x, y); }
    forall x, y ensures SameKinds(CredentialFields(x), CredentialFields(y)) { CredentialKinds(x, y); }
    forall x, y ensures SameKinds(PolicyFields(x), PolicyFields(y)) { PolicyKinds(x, y); }
    forall x, y ensures SameKinds(MaterialFields(x), MaterialFields(y)) { MaterialKinds(x, y); }
  }

  lemma HandleKinds(x: Handle, y: Handle)
    ensures SameKinds(HandleFields(x), HandleFields(y)) && AllFit(HandleFields(x))
  {}

  lemma ProfileKinds(x: Profile, y: Profile)
    ensures SameKinds(ProfileFields(x), ProfileFields(y)) && AllFit(ProfileFields(x))
  {
    hide Ascii, StatusName;
    TextLengths(x.id, x.domain);
    NameLengths();
    if x.window.Some? { TextLengths(x.window.value.notBefore, x.window.value.notAfter); }
  }

  lemma TextLength(s: string)
    ensures |Ascii(s)| == |s|
  {}

  lemma TextLengths(s: string, t: string)
    ensures |Ascii(s)| == |s| && |Ascii(t)| == |t|
  {}

  lemma NameLengths()
    ensures forall s :: |Ascii(StatusName(s))| < 32
    ensures forall r :: |Ascii(RolloutName(r))| < 32
    ensures forall u :: |Ascii(UseName(u))| < 32
    ensures forall a :: |Ascii(AlgorithmName(a))| < 32
  {}

  lemma CredentialKinds(x: Credential, y: Credential)
    ensures SameKinds(CredentialFields(x), CredentialFields(y)) && AllFit(CredentialFields(x))
  {
    hide Ascii, AlgorithmName;
    TextLengths(x.profileId, x.selector);
    TextLength(x.handleId);
    NameLengths();
  }

  lemma PolicyKinds(x: Policy, y: Policy)
    ensures SameKinds(PolicyFields(x), PolicyFields(y)) && AllFit(PolicyFields(x))
  {
    hide Ascii, UseName, StatusName, RolloutName;
    TextLengths(x.tenant, x.domain);
    TextLengths(x.profileId, CompatibilityName(x.compatibility));
    NameLengths();
    if x.route.Some? { TextLength(x.route.value); }
  }

  lemma MaterialKinds(x: KeyMaterial, y: KeyMaterial)
    ensures SameKinds(MaterialFields(x), MaterialFields(y))
    ensures |x.privatePkcs8| < LENGTH_LIMIT ==> AllFit(MaterialFields(x))
  {
    hide Ascii, UseName, AlgorithmName;
    TextLengths(x.tenant, x.domain);
    TextLength(x.handleId);
    NameLengths();
  }

  lemma TextEqual(s: string, t: string)
    requires Printable(s) && Printable(t) && TextField(s) == TextField(t)
    ensures s == t
  {
    AsciiInjective(s, t);
  }

  lemma HandleRow(a: Handle, b: Handle)
    requires HandleFields(a) == HandleFields(b)
    ensures RebaseHandle(a, 0) == RebaseHandle(b, 0)
  {
    assert TextField(a.id) == HandleFields(a)[0] && TextField(b.id) == HandleFields(b)[0];
    TextEqual(a.id, b.id);
  }

  lemma NamesEqual(x: DnsName, y: DnsName)
    requires TextField(x) == TextField(y)
    ensures x == y
  {
    DnsNamePrintable(x);
    DnsNamePrintable(y);
    TextEqual(x, y);
  }

  lemma ClosedNames()
    ensures forall a, b :: TextField(StatusName(a)) == TextField(StatusName(b)) ==> a == b
    ensures forall a, b :: TextField(RolloutName(a)) == TextField(RolloutName(b)) ==> a == b
    ensures forall a, b :: TextField(UseName(a)) == TextField(UseName(b)) ==> a == b
    ensures forall a, b :: TextField(AlgorithmName(a)) == TextField(AlgorithmName(b)) ==> a == b
  {
    forall a, b | TextField(StatusName(a)) == TextField(StatusName(b)) ensures a == b {
      assert |Ascii(StatusName(a))| == |Ascii(StatusName(b))|;
    }
    forall a, b | TextField(RolloutName(a)) == TextField(RolloutName(b)) ensures a == b {
      assert |Ascii(RolloutName(a))| == |Ascii(RolloutName(b))| && Ascii(RolloutName(a))[0] == Ascii(RolloutName(b))[0];
    }
    forall a, b | TextField(UseName(a)) == TextField(UseName(b)) ensures a == b {
      assert |Ascii(UseName(a))| == |Ascii(UseName(b))|;
    }
    forall a, b | TextField(AlgorithmName(a)) == TextField(AlgorithmName(b)) ensures a == b {
      assert |Ascii(AlgorithmName(a))| == |Ascii(AlgorithmName(b))|;
    }
  }

  lemma ProfileRow(a: Profile, b: Profile)
    requires ProfileFields(a) == ProfileFields(b)
    ensures RebaseProfile(a, 0) == RebaseProfile(b, 0)
  {
    hide TextField, Ascii;
    var x, y := ProfileFields(a), ProfileFields(b);
    assert x[0] == y[0] && x[1] == y[1] && x[2] == y[2] && x[3] == y[3] && x[4] == y[4];
    TextEqual(a.id, b.id);
    NamesEqual(a.domain, b.domain);
    ClosedNames();
    if a.window.Some? {
      AsciiInjective(a.window.value.notBefore, b.window.value.notBefore);
      AsciiInjective(a.window.value.notAfter, b.window.value.notAfter);
    }
  }

  lemma CredentialRow(a: Credential, b: Credential)
    requires CredentialFields(a) == CredentialFields(b)
    ensures RebaseCredential(a, 0) == RebaseCredential(b, 0)
  {
    hide TextField, Ascii;
    var x, y := CredentialFields(a), CredentialFields(b);
    assert x[0] == y[0] && x[1] == y[1] && x[2] == y[2] && x[3] == y[3] && x[4] == y[4];
    TextEqual(a.profileId, b.profileId);
    NamesEqual(a.selector, b.selector);
    TextEqual(a.handleId, b.handleId);
    ClosedNames();
  }

  lemma PolicyRow(a: Policy, b: Policy)
    requires PolicyFields(a) == PolicyFields(b)
    ensures RebasePolicy(a, 0) == RebasePolicy(b, 0)
  {
    hide TextField, Ascii;
    var x, y := PolicyFields(a), PolicyFields(b);
    assert x[0] == y[0] && x[1] == y[1] && x[2] == y[2] && x[3] == y[3] && x[4] == y[4] && x[5] == y[5] && x[7] == y[7];
    TextEqual(a.tenant, b.tenant);
    NamesEqual(a.domain, b.domain);
    TextEqual(a.profileId, b.profileId);
    ClosedNames();
    if a.route.Some? { AsciiInjective(a.route.value, b.route.value); }
  }

  lemma MaterialRow(a: KeyMaterial, b: KeyMaterial)
    requires MaterialFields(a) == MaterialFields(b)
    ensures RebaseMaterial(a, 0) == RebaseMaterial(b, 0)
  {
    hide TextField, Ascii;
    var x, y := MaterialFields(a), MaterialFields(b);
    assert x[0] == y[0] && x[1] == y[1] && x[2] == y[2] && x[3] == y[3] && x[4] == y[4] && x[5] == y[5] && x[6] == y[6];
    TextEqual(a.tenant, b.tenant);
    NamesEqual(a.domain, b.domain);
    TextEqual(a.handleId, b.handleId);
    ClosedNames();
  }

  /** The only lengths a caller must bound: the five record counts and the private keys. */
  ghost predicate Bounded(g: Generation)
  {
    && |g.handles| < LENGTH_LIMIT && |g.profiles| < LENGTH_LIMIT && |g.credentials| < LENGTH_LIMIT
    && |g.policies| < LENGTH_LIMIT
    && |g.materials| < LENGTH_LIMIT && forall m :: m in g.materials ==> |m.privatePkcs8| < LENGTH_LIMIT
  }

  lemma BoundedFits(g: Generation)
    requires Bounded(g)
    ensures RowsFit(g.handles, HandleFields) && RowsFit(g.profiles, ProfileFields)
    ensures RowsFit(g.credentials, CredentialFields)
    ensures RowsFit(g.policies, PolicyFields) && RowsFit(g.materials, MaterialFields)
  {
    hide AllFit, HandleFields, ProfileFields, CredentialFields, PolicyFields, MaterialFields, SameKinds;
    forall x | x in g.handles ensures AllFit(HandleFields(x)) { HandleKinds(x, x); }
    forall x | x in g.profiles ensures AllFit(ProfileFields(x)) { ProfileKinds(x, x); }
    forall x | x in g.credentials ensures AllFit(CredentialFields(x)) { CredentialKinds(x, x); }
    forall x | x in g.policies ensures AllFit(PolicyFields(x)) { PolicyKinds(x, x); }
    forall x | x in g.materials ensures AllFit(MaterialFields(x)) { MaterialKinds(x, x); }
  }

  ghost predicate SameRows(a: Generation, b: Generation)
  {
    && |a.handles| == |b.handles| && |a.profiles| == |b.profiles| && |a.credentials| == |b.credentials|
    && |a.policies| == |b.policies| && |a.materials| == |b.materials|
    && (forall i :: 0 <= i < |a.handles| ==> RebaseHandle(a.handles[i], 0) == RebaseHandle(b.handles[i], 0))
    && (forall i :: 0 <= i < |a.profiles| ==> RebaseProfile(a.profiles[i], 0) == RebaseProfile(b.profiles[i], 0))
    && (forall i :: 0 <= i < |a.credentials| ==>
          RebaseCredential(a.credentials[i], 0) == RebaseCredential(b.credentials[i], 0))
    && (forall i :: 0 <= i < |a.policies| ==> RebasePolicy(a.policies[i], 0) == RebasePolicy(b.policies[i], 0))
    && (forall i :: 0 <= i < |a.materials| ==> RebaseMaterial(a.materials[i], 0) == RebaseMaterial(b.materials[i], 0))
  }

  lemma RecordsPeel(a: Generation, b: Generation)
    requires Bounded(a) && Bounded(b) && Encode(RecordFields(a)) == Encode(RecordFields(b))
    ensures SameRows(a, b)
  {
    hide Encode, Section, Uniform, Bounded, RowsFit, HandleFields, ProfileFields, CredentialFields, PolicyFields,
      MaterialFields;
    RowsUniform();
    BoundedFits(a);
    BoundedFits(b);
    var a5, b5 := Section(a.materials, MaterialFields, []), Section(b.materials, MaterialFields, []);
    var a4, b4 := Section(a.policies, PolicyFields, a5), Section(b.policies, PolicyFields, b5);
    var a3, b3 := Section(a.credentials, CredentialFields, a4), Section(b.credentials, CredentialFields, b4);
    var a2, b2 := Section(a.profiles, ProfileFields, a3), Section(b.profiles, ProfileFields, b3);
    SectionPeel(a.handles, a2, b.handles, b2, HandleFields);
    SectionPeel(a.profiles, a3, b.profiles, b3, ProfileFields);
    SectionPeel(a.credentials, a4, b.credentials, b4, CredentialFields);
    SectionPeel(a.policies, a5, b.policies, b5, PolicyFields);
    SectionPeel(a.materials, [], b.materials, [], MaterialFields);
    forall i | 0 <= i < |a.handles| ensures RebaseHandle(a.handles[i], 0) == RebaseHandle(b.handles[i], 0) {
      HandleRow(a.handles[i], b.handles[i]);
    }
    forall i | 0 <= i < |a.profiles| ensures RebaseProfile(a.profiles[i], 0) == RebaseProfile(b.profiles[i], 0) {
      ProfileRow(a.profiles[i], b.profiles[i]);
    }
    forall i | 0 <= i < |a.credentials|
      ensures RebaseCredential(a.credentials[i], 0) == RebaseCredential(b.credentials[i], 0)
    {
      CredentialRow(a.credentials[i], b.credentials[i]);
    }
    forall i | 0 <= i < |a.policies| ensures RebasePolicy(a.policies[i], 0) == RebasePolicy(b.policies[i], 0) {
      PolicyRow(a.policies[i], b.policies[i]);
    }
    forall i | 0 <= i < |a.materials| ensures RebaseMaterial(a.materials[i], 0) == RebaseMaterial(b.materials[i], 0) {
      MaterialRow(a.materials[i], b.materials[i]);
    }
  }

  lemma HeaderPeel(operation: string, source: Number, a: Generation, operation': string, source': Number, b: Generation)
    requires |operation| < LENGTH_LIMIT && |operation'| < LENGTH_LIMIT && Printable(operation) && Printable(operation')
    requires Stream(operation, source, a) == Stream(operation', source', b)
    ensures operation == operation' && source == source' && a.number == b.number
    ensures Encode(RecordFields(a)) == Encode(RecordFields(b))
  {
    hide Encode, RecordFields, FieldBytes, Ascii;
    var x, y := HeaderFields(operation, source, a.number), HeaderFields(operation', source', b.number);
    Prefixes(Ascii(DIGEST_DOMAIN), Encode(x + RecordFields(a)), Ascii(DIGEST_DOMAIN), Encode(y + RecordFields(b)));
    EncodeAppend(x, RecordFields(a));
    EncodeAppend(y, RecordFields(b));
    TextLengths(operation, operation');
    TextLength(SCHEMA_V3);
    EncodePeel(x, Encode(RecordFields(a)), y, Encode(RecordFields(b)));
    assert x[1] == y[1] && x[2] == y[2] && x[3] == y[3];
    TextEqual(operation, operation');
  }

  /** Equal streams come from equal sources, numbers, operations and record rows. */
  lemma StreamDecodes(operation: string, source: Number, a: Generation, operation': string, source': Number,
                      b: Generation)
    requires |operation| < LENGTH_LIMIT && |operation'| < LENGTH_LIMIT && Printable(operation) && Printable(operation')
    requires Bounded(a) && Bounded(b) && Stream(operation, source, a) == Stream(operation', source', b)
    ensures operation == operation' && source == source' && a.number == b.number && SameRows(a, b)
  {
    hide Stream, RecordFields;
    HeaderPeel(operation, source, a, operation', source', b);
    RecordsPeel(a, b);
  }

  // ---------------------------------------------------------------------------------------------
  // Canonical arrangement
  // ---------------------------------------------------------------------------------------------

  /** The commitment orders credentials by profile and algorithm name, not by signing rank. */
  function CommitKey(c: Credential): Key { Key(c.profileId, 0, AlgorithmName(c.algorithm)) }

  /** `a` holds the records of `g` in commitment order. */
  ghost predicate Arranges(g: Generation, a: Generation)
  {
    && SameRecords(g, a)
    && Ordered(a.handles, HandleKey) && Ordered(a.profiles, ProfileKey) && Ordered(a.credentials, CommitKey)
    && Ordered(a.policies, PolicySortKey) && Ordered(a.materials, MaterialKey)
  }

  ghost predicate StrictlyArranged(a: Generation)
  {
    && Strictly(a.handles, HandleKey) && Strictly(a.profiles, ProfileKey) && Strictly(a.credentials, CommitKey)
    && Strictly(a.policies, PolicySortKey) && Strictly(a.materials, MaterialKey)
  }

  lemma CommitStrict(a: Generation)
    requires ValidCredentials(a.number, a.credentials, a.handles, a.profiles) && Ordered(a.credentials, CommitKey)
    ensures Strictly(a.credentials, CommitKey)
  {
    forall i, j | 0 <= i < j < |a.credentials| ensures CommitKey(a.credentials[i]) != CommitKey(a.credentials[j]) {
      assert a.credentials[i] != a.credentials[j];
      assert Apart(a.credentials[i], a.credentials[j]);
      if AlgorithmName(a.credentials[i].algorithm) == AlgorithmName(a.credentials[j].algorithm) {
        AlgorithmNameInjective(a.credentials[i].algorithm, a.credentials[j].algorithm);
      }
    }
    OrderedDistinctIsStrict(a.credentials, CommitKey);
  }

  lemma ArrangedStrictly(g: Generation, a: Generation)
    requires Consistent(g) && Arranges(g, a)
    ensures Consistent(a) && StrictlyArranged(a)
  {
    hide CredentialLinked, PolicyLinked, MaterialLinked, Ordered;
    PermutedConsistent(g, a);
    OrderedDistinctIsStrict(a.handles, HandleKey);
    OrderedDistinctIsStrict(a.profiles, ProfileKey);
    CommitStrict(a);
    PoliciesSortStrictly(a);
    MaterialsSortStrictly(a);
  }

  lemma StrictlyArrangedUnique(a: Generation, b: Generation)
    requires StrictlyArranged(a) && StrictlyArranged(b) && SameRecords(a, b)
    ensures a == b
  {
    PermutedElements(a, b);
    StrictOrderUnique(a.handles, b.handles, HandleKey);
    StrictOrderUnique(a.profiles, b.profiles, ProfileKey);
    StrictOrderUnique(a.credentials, b.credentials, CommitKey);
    StrictOrderUnique(a.policies, b.policies, PolicySortKey);
    StrictOrderUnique(a.materials, b.materials, MaterialKey);
  }

  /** Record order and state leave no trace in the commitment order. */
  lemma ArrangementUnique(g: Generation, a: Generation, h: Generation, b: Generation)
    requires Consistent(g) && SameRecords(g.(state := h.state), h) && Arranges(g, a) && Arranges(h, b)
    ensures a.(state := b.state) == b
  {
    hide Consistent, StrictlyArranged, Ordered;
    CommittedConsistent(g, h.state);
    PermutedConsistent(g.(state := h.state), h);
    ArrangedStrictly(g, a);
    ArrangedStrictly(h, b);
    RestatedArrangement(a, b.state);
    StrictlyArrangedUnique(a.(state := b.state), b);
  }

  lemma CommittedConsistent(g: Generation, state: State)
    requires Consistent(g)
    ensures Consistent(g.(state := state))
  {
    hide ValidHandles, ValidProfiles, ValidCredentials, ValidPolicies, ValidMaterials;
  }

  lemma RestatedArrangement(a: Generation, state: State)
    requires StrictlyArranged(a)
    ensures StrictlyArranged(a.(state := state))
  {
    hide Strictly;
  }

  // ---------------------------------------------------------------------------------------------
  // The writer
  // ---------------------------------------------------------------------------------------------

  /** A hash under construction: everything written to it so far. */
  class Hasher {
    var written: Bytes
    ghost var fields: seq<Field>

    ghost predicate Valid()
      reads this
    {
      written == Ascii(DIGEST_DOMAIN) + Encode(fields)
    }

    /** Starts with the digest domain. */
    constructor ()
      ensures Valid() && fields == []
    {
      written, fields := Ascii(DIGEST_DOMAIN), [];
      new;
      assert written == Ascii(DIGEST_DOMAIN) + Encode([]);
    }

    method Write(f: Field)
      requires Valid()
      modifies this
      ensures Valid() && fields == old(fields) + [f]
    {
      EncodeAppend(fields, [f]);
      assert Encode([f]) == FieldBytes(f) + Encode([]) == FieldBytes(f);
      Regroup(Ascii(DIGEST_DOMAIN), Encode(fields), FieldBytes(f));
      written := written + FieldBytes(f);
      fields := fields + [f];
    }

    method WriteRow(row: seq<Field>)
      requires Valid()
      modifies this
      ensures Valid() && fields == old(fields) + row
    {
      for i := 0 to |row|
        invariant Valid() && fields == old(fields) + row[..i]
      {
        Write(row[i]);
        assert row[..i + 1] == row[..i] + [row[i]];
      }
      assert row[..|row|] == row;
    }

    /** The count of a record list, then every record. */
    method WriteList<T>(s: seq<T>, row: T -> seq<Field>)
      requires Valid()
      modifies this
      ensures Valid() && fields == old(fields) + ([Count(|s|)] + ListFields(s, row))
    {
      Write(Count(|s|));
      for i := 0 to |s|
        invariant Valid() && fields == old(fields) + ([Count(|s|)] + ListFields(s[..i], row))
      {
        assert s[..i + 1][..i] == s[..i];
        WriteRow(row(s[i]));
      }
      assert s[..|s|] == s;
    }
  }

  predicate Base32(c: char) { 'a' <= c <= 'z' || '2' <= c <= '7' }

  /** Canonical unpadded lower-case base32 of sixteen bytes that are not all zero. */
  predicate ValidOperation(s: string)
  {
    && |s| == 26 && (forall c :: c in s ==> Base32(c))
    && s[25] in "aeimquy4" && s != "aaaaaaaaaaaaaaaaaaaaaaaaaa"
  }

  type Operation = s: string | ValidOperation(s) witness "baaaaaaaaaaaaaaaaaaaaaaaaa"

  datatype Metadata = Metadata(operation: Operation, source: Number, generation: Number, commitment: Bytes)

  /** `m` commits to the records of `g`. */
  ghost predicate Commits(m: Metadata, g: Generation)
  {
    m.generation == g.number && exists a :: Arranges(g, a) && m.commitment == Stream(m.operation, m.source, a)
  }

  lemma SectionsInOrder(g: Generation)
    ensures RecordFields(g) ==
      ([Count(|g.handles|)] + ListFields(g.handles, HandleFields)) +
      ([Count(|g.profiles|)] + ListFields(g.profiles, ProfileFields)) +
      ([Count(|g.credentials|)] + ListFields(g.credentials, CredentialFields)) +
      ([Count(|g.policies|)] + ListFields(g.policies, PolicyFields)) +
      ([Count(|g.materials|)] + ListFields(g.materials, MaterialFields))
  {
    hide ListFields, HandleFields, ProfileFields, CredentialFields, PolicyFields, MaterialFields;
  }

  /** The four sorted lists without private keys. */
  method WritePublicLists(hash: Hasher, candidate: Generation)
      returns (handles: seq<Handle>, profiles: seq<Profile>, credentials: seq<Credential>, policies: seq<Policy>)
    requires hash.Valid()
    modifies hash
    ensures hash.Valid()
    ensures multiset(handles) == multiset(candidate.handles) && Ordered(handles, HandleKey)
    ensures multiset(profiles) == multiset(candidate.profiles) && Ordered(profiles, ProfileKey)
    ensures multiset(credentials) == multiset(candidate.credentials) && Ordered(credentials, CommitKey)
    ensures multiset(policies) == multiset(candidate.policies) && Ordered(policies, PolicySortKey)
    ensures hash.fields == old(hash.fields) +
      ([Count(|handles|)] + ListFields(handles, HandleFields)) +
      ([Count(|profiles|)] + ListFields(profiles, ProfileFields)) +
      ([Count(|credentials|)] + ListFields(credentials, CredentialFields)) +
      ([Count(|policies|)] + ListFields(policies, PolicyFields))
  {
    hide Encode, ListFields, HandleFields, ProfileFields, CredentialFields, PolicyFields, Ordered, CommitKey,
      PolicySortKey;
    handles := Sort(candidate.handles, HandleKey);
    hash.WriteList(handles, HandleFields);
    profiles := Sort(candidate.profiles, ProfileKey);
    hash.WriteList(profiles, ProfileFields);
    credentials := Sort(candidate.credentials, CommitKey);
    hash.WriteList(credentials, CredentialFields);
    policies := Sort(candidate.policies, PolicySortKey);
    hash.WriteList(policies, PolicyFields);
  }

  method HavePrivateKeys(materials: seq<KeyMaterial>) returns (ok: bool)
    ensures ok <==> forall m :: m in materials ==> m.privatePkcs8 != []
  {
    for i := 0 to |materials|
      invariant forall j :: 0 <= j < i ==> materials[j].privatePkcs8 != []
    {
      if |materials[i].privatePkcs8| == 0 { return false; }
    }
    ok := true;
  }

  /** Writes the whole commitment in its own record order. */
  method NewCandidateMetadata(operation: Operation, source: Number, candidate: Generation)
      returns (result: Result<Metadata>)
    ensures result.Ok? <==>
      source != 0 && candidate.number > source && forall m :: m in candidate.materials ==> m.privatePkcs8 != []
    ensures result.Ok? ==>
      Commits(result.value, candidate) && result.value.operation == operation && result.value.source == source
  {
    hide Stream, Encode, ListFields, HandleFields, ProfileFields, CredentialFields, PolicyFields, MaterialFields,
      Ordered, Section, RecordFields, CommitKey, PolicySortKey, TextField;
    if source == 0 || candidate.number <= source { return Err(Invalid); }
    var hash := new Hasher();
    hash.Write(TextField(SCHEMA_V3));
    hash.Write(Fixed(source));
    hash.Write(Fixed(candidate.number));
    hash.Write(TextField(operation));
    ghost var header := HeaderFields(operation, source, candidate.number);
    assert hash.fields == header;
    var handles, profiles, credentials, policies := WritePublicLists(hash, candidate);
    var materials := Sort(candidate.materials, MaterialKey);
    PermutedUnique(materials, candidate.materials);
    var open := HavePrivateKeys(materials);
    if !open { return Err(Invalid); }
    hash.WriteList(materials, MaterialFields);
    ghost var a := Generation(candidate.number, candidate.state, handles, profiles, credentials, policies, materials);
    ListsInOrder(header, a, hash.fields);
    WrittenStream(operation, source, a, hash.fields, hash.written);
    assert Arranges(candidate, a);
    result := Ok(Metadata(operation, source, candidate.number, hash.written));
  }

  lemma ListsInOrder(header: seq<Field>, g: Generation, fields: seq<Field>)
    requires fields == header +
      ([Count(|g.handles|)] + ListFields(g.handles, HandleFields)) +
      ([Count(|g.profiles|)] + ListFields(g.profiles, ProfileFields)) +
      ([Count(|g.credentials|)] + ListFields(g.credentials, CredentialFields)) +
      ([Count(|g.policies|)] + ListFields(g.policies, PolicyFields)) +
      ([Count(|g.materials|)] + ListFields(g.materials, MaterialFields))
    ensures fields == header + RecordFields(g)
  {
    hide ListFields, HandleFields, ProfileFields, CredentialFields, PolicyFields, MaterialFields, RecordFields;
    SectionsInOrder(g);
  }

  lemma WrittenStream(operation: Operation, source: Number, a: Generation, fields: seq<Field>, written: Bytes)
    requires written == Ascii(DIGEST_DOMAIN) + Encode(fields)
    requires fields == HeaderFields(operation, source, a.number) + RecordFields(a)
    ensures written == Stream(operation, source, a)
  {}

  // ---------------------------------------------------------------------------------------------
  // What a commitment means
  // ---------------------------------------------------------------------------------------------

  lemma OperationPrintable(s: Operation)
    ensures Printable(s) && |s| < LENGTH_LIMIT
  {}

  /** Equal commitments bind the same source, number, operation and records: up to its state, one candidate. */
  lemma CommitmentBinds(m: Metadata, g: Generation, m': Metadata, h: Generation)
    requires Consistent(g) && Consistent(h) && Bounded(g) && Bounded(h) && Commits(m, g) && Commits(m', h)
    requires m.commitment == m'.commitment
    ensures m == m' && SameRecords(g.(state := h.state), h)
  {
    hide Consistent, Stream, Ordered, Bounded;
    var a :| Arranges(g, a) && m.commitment == Stream(m.operation, m.source, a);
    var b :| Arranges(h, b) && m'.commitment == Stream(m'.operation, m'.source, b);
    OperationPrintable(m.operation);
    OperationPrintable(m'.operation);
    BoundedArrangement(g, a);
    BoundedArrangement(h, b);
    StreamDecodes(m.operation, m.source, a, m'.operation, m'.source, b);
    PermutedConsistent(g, a);
    PermutedConsistent(h, b);
    SameRowsSameRecords(a, b);
  }

  lemma BoundedArrangement(g: Generation, a: Generation)
    requires Bounded(g) && Arranges(g, a)
    ensures Bounded(a)
  {
    PermutedElements(g, a);
  }

  lemma SameRowsSameRecords(a: Generation, b: Generation)
    requires Consistent(a) && Consistent(b) && a.number == b.number && SameRows(a, b)
    ensures a.handles == b.handles && a.profiles == b.profiles && a.credentials == b.credentials
    ensures a.policies == b.policies && a.materials == b.materials
  {
    hide Apart, Owned, Keyed, Used;
    assert forall i :: 0 <= i < |a.handles| ==> a.handles[i] in a.handles && b.handles[i] in b.handles;
    assert forall i :: 0 <= i < |a.profiles| ==> a.profiles[i] in a.profiles && b.profiles[i] in b.profiles;
    forall i | 0 <= i < |a.credentials| ensures a.credentials[i] == b.credentials[i] {
      assert CredentialLinked(a.credentials[i], a.number, a.handles, a.profiles);
      assert CredentialLinked(b.credentials[i], b.number, b.handles, b.profiles);
    }
    forall i | 0 <= i < |a.policies| ensures a.policies[i] == b.policies[i] {
      assert PolicyLinked(a.policies[i], a.number, a.profiles) && PolicyLinked(b.policies[i], b.number, b.profiles);
    }
    forall i | 0 <= i < |a.materials| ensures a.materials[i] == b.materials[i] {
      assert MaterialLinked(a.materials[i], a.number, a.credentials, a.policies);
      assert MaterialLinked(b.materials[i], b.number, b.credentials, b.policies);
    }
  }

  /** Reordering the records or committing the root never invalidates a commitment. */
  lemma CommitmentIgnoresOrderAndState(m: Metadata, g: Generation, h: Generation)
    requires Consistent(g) && SameRecords(g.(state := h.state), h)
    ensures Commits(m, g) <==> Commits(m, h)
  {
    hide Consistent, Stream, Ordered;
    if Commits(m, g) {
      var a :| Arranges(g, a) && m.commitment == Stream(m.operation, m.source, a);
      RestatedStream(m.operation, m.source, a, h.state);
      assert Arranges(h, a.(state := h.state));
    }
    if Commits(m, h) {
      var b :| Arranges(h, b) && m.commitment == Stream(m.operation, m.source, b);
      RestatedStream(m.operation, m.source, b, g.state);
      assert Arranges(g, b.(state := g.state));
    }
  }

  lemma RestatedStream(operation: Operation, source: Number, a: Generation, state: State)
    ensures Stream(operation, source, a.(state := state)) == Stream(operation, source, a)
  {
    hide Encode, ListFields;
  }

  /** Recomputes the commitment of a read-back candidate. */
  method ValidateCandidate(m: Metadata, candidate: Generation) returns (ok: bool)
    requires Consistent(candidate)
    ensures ok <==>
      && m.source != 0 && candidate.number > m.source && (forall x :: x in candidate.materials ==> x.privatePkcs8 != [])
      && Commits(m, candidate)
  {
    hide Consistent, Commits;
    var computed := NewCandidateMetadata(m.operation, m.source, candidate);
    if computed.Err? { return false; }
    OneCommitment(m, computed.value, candidate);
    ok := computed.value.generation == m.generation && computed.value.commitment == m.commitment;
  }

  lemma OneCommitment(m: Metadata, n: Metadata, g: Generation)
    requires Consistent(g) && Commits(n, g) && m.operation == n.operation && m.source == n.source
    ensures Commits(m, g) <==> m.generation == n.generation && m.commitment == n.commitment
  {
    hide Consistent, Stream, Ordered;
    var b :| Arranges(g, b) && n.commitment == Stream(n.operation, n.source, b);
    if Commits(m, g) {
      var a :| Arranges(g, a) && m.commitment == Stream(m.operation, m.source, a);
      ArrangementUnique(g, a, g, b);
    }
  }
}

/** DKIM key records (section 3.6.1 of RFC 6376): the printer, the strict and the lenient parser, and the character
    strings of one TXT record. */
module KeyRecords {
  import opened Wrappers
  import opened Text
  import opened Records
  import opened Base64

  datatype Key = Key(algorithm: Algorithm, public: Bytes)

  datatype Tag = Tag(name: string, value: string)

  // ---------------------------------------------------------------------------------------------
  // Text helpers
  // ---------------------------------------------------------------------------------------------

  /** White space as the trimming function of the source knows it. */
  predicate IsSpace(c: char)
  {
    || '\t' <= c <= '\r' || c == ' ' || c == '\U{0085}' || c == '\U{00A0}' || c == '\U{1680}'
    || '\U{2000}' <= c <= '\U{200A}'
    || c == '\U{2028}' || c == '\U{2029}' || c == '\U{202F}' || c == '\U{205F}' || c == '\U{3000}'
  }

  function TrimLeft(s: string): string { if s != "" && IsSpace(s[0]) then TrimLeft(s[1..]) else s }

  function TrimRight(s: string): string { if s != "" && IsSpace(s[|s| - 1]) then TrimRight(s[..|s| - 1]) else s }

  function TrimSpace(s: string): string { TrimRight(TrimLeft(s)) }

  predicate Trimmed(s: string) { s == "" || (!IsSpace(s[0]) && !IsSpace(s[|s| - 1])) }

  /** The text around the first separator, if there is one. */
  function Cut(s: string, separator: char): Option<Tag>
  {
    if s == "" then None
    else if s[0] == separator then Some(Tag("", s[1..]))
    else match Cut(s[1..], separator)
      case None => None
      case Some(t) => Some(Tag([s[0]] + t.name, t.value))
  }

  lemma {:induction false} CutAt(name: string, value: string, separator: char)
    requires separator !in name
    ensures Cut(name + [separator] + value, separator) == Some(Tag(name, value))
  {
    var s := name + [separator] + value;
    if name != "" {
      CutAt(name[1..], value, separator);
      assert s[1..] == name[1..] + [separator] + value;
      assert name == [name[0]] + name[1..];
    }
  }

  lemma {:induction false} TrimLeftMeans(s: string)
    ensures (s != "" && !IsSpace(s[0]) ==> TrimLeft(s) == s) && (TrimLeft(s) != "" ==> !IsSpace(TrimLeft(s)[0]))
    ensures |TrimLeft(s)| <= |s| && TrimLeft(s) == s[|s| - |TrimLeft(s)|..]
  {
    if s != "" && IsSpace(s[0]) { TrimLeftMeans(s[1..]); }
  }

  lemma {:induction false} TrimRightMeans(s: string)
    ensures s != "" && !IsSpace(s[|s| - 1]) ==> TrimRight(s) == s
    ensures TrimRight(s) != "" ==> !IsSpace(TrimRight(s)[|TrimRight(s)| - 1])
    ensures |TrimRight(s)| <= |s| && TrimRight(s) == s[..|TrimRight(s)|]
  {
    if s != "" && IsSpace(s[|s| - 1]) { TrimRightMeans(s[..|s| - 1]); }
  }

  lemma TrimMeans(s: string)
    ensures Trimmed(TrimSpace(s)) && |TrimSpace(s)| <= |s| && (Trimmed(s) ==> TrimSpace(s) == s)
    ensures forall c :: c in TrimSpace(s) ==> c in s
  {
    TrimLeftMeans(s);
    TrimRightMeans(TrimLeft(s));
  }

  lemma {:induction false} SplitHead(head: string, rest: string, separator: char)
    requires separator !in head
    ensures Split(head + [separator] + rest, separator) == [head] + Split(rest, separator)
    ensures Split(head, separator) == [head]
  {
    var s := head + [separator] + rest;
    if head != "" {
      SplitHead(head[1..], rest, separator);
      assert s[1..] == head[1..] + [separator] + rest;
      assert head == [head[0]] + head[1..];
    } else {
      assert s[1..] == rest;
    }
  }

  /** A blank before a trimmed text is trimmed away again. */
  lemma TrimBlank(s: string)
    requires Trimmed(s)
    ensures TrimSpace(" " + s) == s
  {
    assert (" " + s)[1..] == s;
    TrimLeftMeans(s);
    TrimRightMeans(s);
  }

  // ---------------------------------------------------------------------------------------------
  // Vocabularies
  // ---------------------------------------------------------------------------------------------

  function DnsKeyType(a: Algorithm): string
  {
    match a
    case RsaSha256 => "rsa"
    case Ed25519Sha256 => "ed25519"
    case MlDsa44Ed25519Sha512 => AlgorithmName(a)
  }

  /** An absent key type means rsa. */
  function AlgorithmForDnsKeyType(keyType: Option<string>): Option<Algorithm>
  {
    match keyType
    case None => Some(RsaSha256)
    case Some(t) =>
      if t == "rsa" then Some(RsaSha256)
      else if t == "ed25519" then Some(Ed25519Sha256)
      else if t == "mldsa44-ed25519-sha512" then Some(MlDsa44Ed25519Sha512)
      else None
  }

  /** The composite algorithm fixes its hash; the other two allow an explicit sha256. */
  predicate DnsHashAllowed(a: Algorithm, hash: Option<string>)
  {
    hash.None? || (a != MlDsa44Ed25519Sha512 && hash == Some("sha256"))
  }

  // ---------------------------------------------------------------------------------------------
  // The printer
  // ---------------------------------------------------------------------------------------------

  function DnsKeyRecord(a: Algorithm, public: Bytes): Result<string>
  {
    if public == [] then Err(Invalid)
    else
      var hash := if a == MlDsa44Ed25519Sha512 then "" else "; h=sha256";
      Ok("v=DKIM1; k=" + DnsKeyType(a) + hash + "; p=" + Encode(public, true))
  }

  // ---------------------------------------------------------------------------------------------
  // The strict parser
  // ---------------------------------------------------------------------------------------------

  function ParseTag(part: string): Option<Tag>
  {
    match Cut(TrimSpace(part), '=')
    case None => None
    case Some(t) => if t.name == "" then None else Some(t)
  }

  function ParseAll(parts: seq<string>, parse: string -> Option<Tag>): Option<seq<Tag>>
  {
    if parts == [] then Some([])
    else match (ParseAll(parts[..|parts| - 1], parse), parse(parts[|parts| - 1]))
      case (Some(tags), Some(t)) => Some(tags + [t])
      case _ => None
  }

  function Names(tags: seq<Tag>): set<string> { set t | t in tags :: t.name }

  ghost predicate DistinctTags(tags: seq<Tag>) { forall i, j :: 0 <= i < j < |tags| ==> tags[i].name != tags[j].name }

  /** The value of a tag that occurs. */
  function Find(tags: seq<Tag>, name: string): Option<string>
  {
    if tags == [] then None
    else if tags[|tags| - 1].name == name then Some(tags[|tags| - 1].value)
    else Find(tags[..|tags| - 1], name)
  }

  /** The strict record shape: version first, a known key type, at most one hash tag, and the key. */
  ghost predicate StrictTags(tags: seq<Tag>, key: Key)
  {
    && DistinctTags(tags) && 3 <= |tags| <= 4 && tags[0] == Tag("v", "DKIM1")
    && (forall t :: t in tags ==> t.name in {"v", "k", "h", "p"})
    && Find(tags, "k").Some? && AlgorithmForDnsKeyType(Find(tags, "k")) == Some(key.algorithm)
    && DnsHashAllowed(key.algorithm, Find(tags, "h"))
    && Find(tags, "p").Some? && DecodeSkipping(Find(tags, "p").value, true) == Some(key.public) && key.public != []
  }

  ghost predicate StrictRecord(content: string, key: Key)
  {
    ParseAll(Split(content, ';'), ParseTag).Some? && StrictTags(ParseAll(Split(content, ';'), ParseTag).value, key)
  }

  /** The map a parser has filled so far. */
  ghost predicate Tabled(values: map<string, string>, tags: seq<Tag>)
  {
    && DistinctTags(tags) && |values| == |tags| && values.Keys == Names(tags)
    && forall name :: Find(tags, name) == (if name in values then Some(values[name]) else None)
  }

  lemma {:induction false} FindAmong(tags: seq<Tag>, name: string)
    ensures Find(tags, name).Some? <==> name in Names(tags)
    ensures Find(tags, name).Some? ==> Tag(name, Find(tags, name).value) in tags
  {
    if tags != [] {
      var rest, last := tags[..|tags| - 1], tags[|tags| - 1];
      FindAmong(rest, name);
      assert tags == rest + [last];
    }
  }

  lemma {:induction false} FindDistinct(tags: seq<Tag>, t: Tag)
    requires DistinctTags(tags) && t in tags
    ensures Find(tags, t.name) == Some(t.value)
  {
    var rest, last := tags[..|tags| - 1], tags[|tags| - 1];
    assert tags == rest + [last];
    if t != last {
      var i :| 0 <= i < |rest| && rest[i] == t;
      assert tags[i].name != last.name;
      FindDistinct(rest, t);
    }
  }

  lemma DistinctMore(tags: seq<Tag>, t: Tag)
    requires DistinctTags(tags)
    ensures DistinctTags(tags + [t]) <==> t.name !in Names(tags)
    ensures Names(tags + [t]) == Names(tags) + {t.name}
  {
    var more := tags + [t];
    assert forall x :: x in more <==> x in tags || x == t;
    if t.name in Names(tags) {
      var x :| x in tags && x.name == t.name;
      var i :| 0 <= i < |tags| && tags[i] == x;
      assert more[i].name == more[|tags|].name;
    } else {
      forall i, j | 0 <= i < j < |more| ensures more[i].name != more[j].name { assert more[i] in tags; }
    }
  }

  lemma FindMore(tags: seq<Tag>, t: Tag, name: string)
    ensures Find(tags + [t], name) == if t.name == name then Some(t.value) else Find(tags, name)
  {
    assert (tags + [t])[..|tags|] == tags;
  }

  lemma TabledMore(values: map<string, string>, tags: seq<Tag>, t: Tag)
    requires Tabled(values, tags)
    ensures DistinctTags(tags + [t]) <==> t.name !in values
    ensures t.name !in values ==> Tabled(values[t.name := t.value], tags + [t])
  {
    hide Find, DistinctTags, Names;
    DistinctMore(tags, t);
    if t.name !in values {
      forall name
        ensures Find(tags + [t], name) ==
          if name in values[t.name := t.value] then Some(values[t.name := t.value][name]) else None
      {
        FindMore(tags, t, name);
      }
    }
  }

  lemma ParseAllMore(parts: seq<string>, i: nat, parse: string -> Option<Tag>)
    requires i < |parts|
    ensures ParseAll(parts[..i + 1], parse) ==
      if ParseAll(parts[..i], parse).Some? && parse(parts[i]).Some?
      then Some(ParseAll(parts[..i], parse).value + [parse(parts[i]).value]) else None
  {
    assert parts[..i + 1][..i] == parts[..i];
  }

  /** A prefix that fails, or repeats a name, spoils the whole. */
  lemma {:induction false} PrefixDecides(parts: seq<string>, i: nat, parse: string -> Option<Tag>)
    requires i <= |parts| && ParseAll(parts, parse).Some?
    ensures ParseAll(parts[..i], parse).Some? && |ParseAll(parts, parse).value| == |parts|
    ensures ParseAll(parts[..i], parse).value == ParseAll(parts, parse).value[..i]
    decreases |parts|
  {
    if i == |parts| {
      assert parts[..i] == parts;
    } 
    if parts != [] {
      var rest := parts[..|parts| - 1];
      PrefixDecides(rest, if i < |parts| then i else |rest|, parse);
      if i < |parts| { assert rest[..i] == parts[..i]; }
    }
  }

  /** The strict parser answers exactly the records of the strict shape. */
  method ParseDkimContent(content: string) returns (result: Result<Key>)
    ensures forall key :: result == Ok(key) <==> StrictRecord(content, key)
  {
    hide Split, Cut, TrimSpace, StrictTags, Tabled, DistinctTags, DecodeSkipping;
    var parts := Split(content, ';');
    var values: map<string, string> := map[];
    ghost var tags: seq<Tag> := [];
    TabledNone();
    for i := 0 to |parts|
      invariant ParseAll(parts[..i], ParseTag) == Some(tags) && Tabled(values, tags) && |tags| == i
      invariant i > 0 ==> tags[0] == Tag("v", "DKIM1")
    {
      ParseAllMore(parts, i, ParseTag);
      var tag := ParseTag(parts[i]);
      if tag.None? || tag.value.name in values || (i == 0 && tag.value != Tag("v", "DKIM1")) {
        PrefixRejects(parts, i, tags, values);
        return Err(Invalid);
      }
      TabledMore(values, tags, tag.value);
      tags := tags + [tag.value];
      values := values[tag.value.name := tag.value.value];
    }
    assert parts[..|parts|] == parts;
    result := StrictKey(values, tags);
  }

  lemma TabledNone()
    ensures Tabled(map[], [])
  {}

  lemma PrefixRejects(parts: seq<string>, i: nat, tags: seq<Tag>, values: map<string, string>)
    requires i < |parts| && ParseAll(parts[..i], ParseTag) == Some(tags) && Tabled(values, tags) && |tags| == i
    requires
      || ParseTag(parts[i]).None? || ParseTag(parts[i]).value.name in values
      || (i == 0 && ParseTag(parts[i]).value != Tag("v", "DKIM1"))
    ensures forall key :: !(ParseAll(parts, ParseTag).Some? && StrictTags(ParseAll(parts, ParseTag).value, key))
  {
    hide ParseTag, Find, AlgorithmForDnsKeyType, DnsHashAllowed, DecodeSkipping, Names, ParseAll, DistinctTags;
    PrefixRepeats(parts, i, ParseTag, tags);
  }

  /** The parsed tags continue the prefix with the next one, and a repeated name shows in the whole. */
  lemma PrefixRepeats(parts: seq<string>, i: nat, parse: string -> Option<Tag>, tags: seq<Tag>)
    requires i < |parts| && ParseAll(parts[..i], parse) == Some(tags) && DistinctTags(tags) && |tags| == i
    ensures ParseAll(parts, parse).Some? ==>
      && parse(parts[i]).Some? && i < |ParseAll(parts, parse).value|
      && ParseAll(parts, parse).value[i] == parse(parts[i]).value
    ensures ParseAll(parts, parse).Some? && parse(parts[i]).value.name in Names(tags) ==>
      !DistinctTags(ParseAll(parts, parse).value)
  {
    hide Names, Find;
    if ParseAll(parts, parse).Some? {
      PrefixDecides(parts, i + 1, parse);
      ParseAllMore(parts, i, parse);
      var all, t := ParseAll(parts, parse).value, parse(parts[i]).value;
      DistinctMore(tags, t);
      assert all[..i + 1] == tags + [t] && all[i] == t;
      assert DistinctTags(all) ==> DistinctTags(all[..i + 1]);
    }
  }

  /** The checks after the loop. */
  method StrictKey(values: map<string, string>, ghost tags: seq<Tag>) returns (result: Result<Key>)
    requires Tabled(values, tags) && (tags != [] ==> tags[0] == Tag("v", "DKIM1"))
    ensures forall key :: result == Ok(key) <==> StrictTags(tags, key)
  {
    hide DecodeSkipping, Find;
    var keyType := if "k" in values then Some(values["k"]) else None;
    var algorithm := AlgorithmForDnsKeyType(keyType);
    if |values| < 3 || |values| > 4 || "p" !in values || values["p"] == "" || keyType.None? || algorithm.None? {
      NothingDecoded();
      return Err(Invalid);
    }
    KnownNames(values, tags);
    if !(values.Keys <= {"v", "k", "h", "p"}) { return Err(Invalid); }
    if !DnsHashAllowed(algorithm.value, if "h" in values then Some(values["h"]) else None) { return Err(Invalid); }
    var public := DecodeSkipping(values["p"], true);
    if public.None? || public.value == [] { return Err(Invalid); }
    result := Ok(Key(algorithm.value, public.value));
  }

  lemma NothingDecoded()
    ensures DecodeSkipping("", true) == Some([])
  {}

  lemma KnownNames(values: map<string, string>, tags: seq<Tag>)
    requires Tabled(values, tags)
    ensures values.Keys <= {"v", "k", "h", "p"} <==> forall t :: t in tags ==> t.name in {"v", "k", "h", "p"}
  {
    hide Find;
    if values.Keys <= {"v", "k", "h", "p"} {
      forall t | t in tags ensures t.name in {"v", "k", "h", "p"} { assert t.name in Names(tags); }
    }
  }

  // ---------------------------------------------------------------------------------------------
  // The lenient parser
  // ---------------------------------------------------------------------------------------------

  const MAX_RECORD := 16384

  const MAX_VALUE := 8192

  function Without(s: string, cs: set<char>): string
  {
    if s == "" then "" else (if s[0] in cs then "" else [s[0]]) + Without(s[1..], cs)
  }

  /** Blanks are dropped, padding is optional, and only the canonical encoding of at most 8192 bytes is accepted. */
  function DecodeDnsPublicValue(value: string): Option<Bytes>
  {
    var compact := Without(value, {' ', '\t'});
    if compact == "" || |compact| > MAX_RECORD then None
    else
      var padded := '=' in compact;
      match DecodeSkipping(compact, padded)
      case None => None
      case Some(b) => if Encode(b, padded) == compact && 0 < |b| <= MAX_VALUE then Some(b) else None
  }

  /** The value holds exactly one of the two canonical encodings of the key, blanks aside. */
  lemma PublicValueDecodes(value: string, b: Bytes)
    ensures var compact := Without(value, {' ', '\t'});
      DecodeDnsPublicValue(value) == Some(b) <==>
        (compact == Encode(b, true) || compact == Encode(b, false)) && 0 < |b| <= MAX_VALUE
  {
    hide DecodeSkipping, Encode, Without;
    var compact := Without(value, {' ', '\t'});
    var padded := '=' in compact;
    EncodedText(b, true);
    EncodedText(b, false);
    SkippingDecodesExactly(compact, b, padded);
  }

  predicate KnownTag(name: string) { name in {"v", "h", "k", "n", "p", "s", "t"} }

  predicate Generic(value: string) { forall c :: c in value ==> c == '\t' || ' ' <= c <= '~' }

  predicate Alpha(c: char) { 'a' <= c <= 'z' || 'A' <= c <= 'Z' }

  predicate AlphaNumeric(c: char) { Alpha(c) || '0' <= c <= '9' }

  predicate HyphenatedWord(s: string)
  {
    && s != "" && Alpha(s[0]) && AlphaNumeric(s[|s| - 1])
    && forall i :: 1 <= i < |s| - 1 ==> AlphaNumeric(s[i]) || s[i] == '-'
  }

  function TrimBlanksLeft(s: string): string { if s != "" && s[0] in {' ', '\t'} then TrimBlanksLeft(s[1..]) else s }

  function TrimBlanks(s: string): string
  {
    if s != "" && s[|s| - 1] in {' ', '\t'} then TrimBlanks(s[..|s| - 1]) else TrimBlanksLeft(s)
  }

  predicate ValidFlags(value: string)
  {
    value != "" && forall raw :: raw in Split(value, ':') ==> HyphenatedWord(TrimBlanks(raw))
  }

  function ParseField(field: string): Option<Tag>
  {
    match Cut(TrimSpace(field), '=')
    case None => None
    case Some(t) =>
      var name, value := TrimSpace(t.name), TrimSpace(t.value);
      if t.name == "" || !KnownTag(name) || |value| > MAX_VALUE || !Generic(value) then None else Some(Tag(name, value))
  }

  /** A blank last field is no field. */
  function RecordFields(record: string): seq<string>
  {
    var fields := Split(record, ';');
    if TrimSpace(fields[|fields| - 1]) == "" then fields[..|fields| - 1] else fields
  }

  ghost predicate LenientTags(tags: seq<Tag>, key: Key)
  {
    && DistinctTags(tags)
    && (Find(tags, "v").Some? ==> tags != [] && tags[0].name == "v" && Find(tags, "v") == Some("DKIM1"))
    && (Find(tags, "t").Some? ==> ValidFlags(Find(tags, "t").value))
    && AlgorithmForDnsKeyType(Find(tags, "k")) == Some(key.algorithm)
    && Find(tags, "p").Some? && DecodeDnsPublicValue(Find(tags, "p").value) == Some(key.public)
  }

  ghost predicate LenientRecord(record: string, key: Key)
  {
    && 0 < |record| <= MAX_RECORD && ParseAll(RecordFields(record), ParseField).Some?
    && LenientTags(ParseAll(RecordFields(record), ParseField).value, key)
  }

  /** The lenient parser answers exactly the records of the lenient shape. */
  method ParseDnsRecord(record: string) returns (result: Result<Key>)
    ensures forall key :: result == Ok(key) <==> LenientRecord(record, key)
  {
    hide Split, Cut, TrimSpace, LenientTags, Tabled, DistinctTags, DecodeDnsPublicValue, ParseField;
    if record == "" || |record| > MAX_RECORD { return Err(Invalid); }
    var fields := Split(record, ';');
    ghost var live := RecordFields(record);
    var values: map<string, string> := map[];
    var firstTag := "";
    ghost var tags: seq<Tag> := [];
    TabledNone();
    for i := 0 to |fields|
      invariant Tabled(values, tags) && |tags| == (if i <= |live| then i else |live|)
      invariant ParseAll(live[..|tags|], ParseField) == Some(tags)
      invariant firstTag == (if tags == [] then "" else tags[0].name) && (tags != [] ==> firstTag != "")
    {
      if !(TrimSpace(fields[i]) == "" && i == |fields| - 1) {
        assert i < |live| && live[i] == fields[i];
        ParseAllMore(live, i, ParseField);
        var tag := ParseField(fields[i]);
        if tag.None? || tag.value.name in values {
          FieldRejects(live, i, tags, values);
          return Err(Invalid);
        }
        FieldNamed(fields[i]);
        TabledMore(values, tags, tag.value);
        tags := tags + [tag.value];
        values := values[tag.value.name := tag.value.value];
        if firstTag == "" { firstTag := tag.value.name; }
      }
    }
    assert live[..|live|] == live;
    result := LenientKey(values, firstTag, tags);
  }

  lemma FieldNamed(field: string)
    ensures ParseField(field).Some? ==> ParseField(field).value.name != ""
  {}

  lemma FieldRejects(parts: seq<string>, i: nat, tags: seq<Tag>, values: map<string, string>)
    requires i < |parts| && ParseAll(parts[..i], ParseField) == Some(tags) && Tabled(values, tags) && |tags| == i
    requires ParseField(parts[i]).None? || ParseField(parts[i]).value.name in values
    ensures forall key :: !(ParseAll(parts, ParseField).Some? && LenientTags(ParseAll(parts, ParseField).value, key))
  {
    hide ParseField, Find, AlgorithmForDnsKeyType, DecodeDnsPublicValue, Names, ParseAll, DistinctTags, ValidFlags;
    PrefixRepeats(parts, i, ParseField, tags);
  }

  method LenientKey(values: map<string, string>, firstTag: string, ghost tags: seq<Tag>) returns (result: Result<Key>)
    requires Tabled(values, tags) && firstTag == if tags == [] then "" else tags[0].name
    ensures forall key :: result == Ok(key) <==> LenientTags(tags, key)
  {
    hide DecodeDnsPublicValue, Find, ValidFlags;
    if "v" in values && (firstTag != "v" || values["v"] != "DKIM1") { return Err(Invalid); }
    EmptyPublicValue();
    if "p" !in values || values["p"] == "" { return Err(Invalid); }
    if "t" in values && !ValidFlags(values["t"]) { return Err(Invalid); }
    var algorithm := AlgorithmForDnsKeyType(if "k" in values then Some(values["k"]) else None);
    if algorithm.None? { return Err(Invalid); }
    var public := DecodeDnsPublicValue(values["p"]);
    if public.None? { return Err(Invalid); }
    result := Ok(Key(algorithm.value, public.value));
  }

  lemma EmptyPublicValue()
    ensures DecodeDnsPublicValue("") == None
  {}

  // ---------------------------------------------------------------------------------------------
  // Printed records
  // ---------------------------------------------------------------------------------------------

  function PrintedTags(a: Algorithm, public: Bytes): seq<Tag>
  {
    [Tag("v", "DKIM1"), Tag("k", DnsKeyType(a))] + (if a == MlDsa44Ed25519Sha512 then [] else [Tag("h", "sha256")]) +
        [Tag("p", Encode(public, true))]
  }

  function TagText(t: Tag): string { t.name + "=" + t.value }

  /** The record is its tags, with a semicolon and a blank between them. */
  function TagsText(tags: seq<Tag>): string
    requires tags != []
  {
    if |tags| == 1 then TagText(tags[0]) else TagText(tags[0]) + ";" + " " + TagsText(tags[1..])
  }

  lemma WithoutHash(k: string, e: string)
    ensures "v=DKIM1; k=" + k + "" + "; p=" + e == "v=DKIM1" + ";" + " " + (("k=" + k) + ";" + " " + ("p=" + e))
  {
    assert "v=DKIM1; k=" == "v=DKIM1" + ";" + " " + "k=" && "; p=" == ";" + " " + "p=";
  }

  lemma WithHash(k: string, e: string)
    ensures "v=DKIM1; k=" + k + "; h=sha256" + "; p=" + e ==
      "v=DKIM1" + ";" + " " + (("k=" + k) + ";" + " " + ("h=sha256" + ";" + " " + ("p=" + e)))
  {
    assert "v=DKIM1; k=" == "v=DKIM1" + ";" + " " + "k=" && "; p=" == ";" + " " + "p=";
    assert "; h=sha256" == ";" + " " + "h=sha256";
  }

  lemma PrintedIsTags(a: Algorithm, public: Bytes)
    requires public != []
    ensures DnsKeyRecord(a, public) == Ok(TagsText(PrintedTags(a, public)))
  {
    hide Encode, TagsText, TagText;
    var e, k := Encode(public, true), DnsKeyType(a);
    var v, t, h, p := Tag("v", "DKIM1"), Tag("k", k), Tag("h", "sha256"), Tag("p", e);
    TagTexts(k, e);
    if a == MlDsa44Ed25519Sha512 {
      ThreeTags(v, t, p);
      assert PrintedTags(a, public) == [v, t, p];
      WithoutHash(k, e);
    } else {
      FourTags(v, t, h, p);
      assert PrintedTags(a, public) == [v, t, h, p];
      WithHash(k, e);
    }
  }

  lemma TagTexts(k: string, e: string)
    ensures TagText(Tag("v", "DKIM1")) == "v=DKIM1" && TagText(Tag("k", k)) == "k=" + k
    ensures TagText(Tag("h", "sha256")) == "h=sha256" && TagText(Tag("p", e)) == "p=" + e
  {}

  lemma ThreeTags(x: Tag, y: Tag, z: Tag)
    ensures TagsText([x, y, z]) == TagText(x) + ";" + " " + (TagText(y) + ";" + " " + TagText(z))
  {
    hide TagText;
    assert [x, y, z][1..] == [y, z] && [y, z][1..] == [z];
    assert TagsText([z]) == TagText(z);
    assert TagsText([y, z]) == TagText(y) + ";" + " " + TagText(z);
  }

  lemma FourTags(x: Tag, y: Tag, z: Tag, w: Tag)
    ensures TagsText([x, y, z, w]) ==
      TagText(x) + ";" + " " + (TagText(y) + ";" + " " + (TagText(z) + ";" + " " + TagText(w)))
  {
    hide TagText;
    assert [x, y, z, w][1..] == [y, z, w];
    ThreeTags(y, z, w);
  }

  /** A tag whose text survives both parsers unchanged. */
  predicate Plain(t: Tag)
  {
    && t.name != "" && Trimmed(t.name) && '=' !in t.name && ';' !in t.name && Trimmed(t.value) && t.value != ""
    && ';' !in t.value
  }

  lemma TagsFromFirst(tags: seq<Tag>, blank: string)
    requires tags != []
    ensures |tags| == 1 ==> blank + TagsText(tags) == blank + TagText(tags[0])
    ensures |tags| > 1 ==> blank + TagsText(tags) == blank + TagText(tags[0]) + [';'] + (" " + TagsText(tags[1..]))
  {
    hide TagText;
    if |tags| > 1 { Regroup(blank, TagText(tags[0]), [';'], " ", TagsText(tags[1..])); }
  }

  lemma Regroup<T>(a: seq<T>, b: seq<T>, c: seq<T>, d: seq<T>, e: seq<T>)
    ensures a + (b + c + d + e) == a + b + c + (d + e)
  {}

  lemma {:induction false} TagsSplit(tags: seq<Tag>, blank: string)
    requires tags != [] && (forall t :: t in tags ==> Plain(t)) && (blank == "" || blank == " ")
    ensures var parts := Split(blank + TagsText(tags), ';');
      |parts| == |tags| && forall i :: 0 <= i < |tags| ==> TrimSpace(parts[i]) == TagText(tags[i])
  {
    hide Plain, TrimSpace, TagText, TagsText, Trimmed, Split;
    TagsFromFirst(tags, blank);
    var head := blank + TagText(tags[0]);
    assert Plain(tags[0]);
    PlainText(tags[0]);
    HeadTrims(TagText(tags[0]), blank);
    if |tags| == 1 {
      SplitHead(head, "", ';');
    } else {
      var rest := " " + TagsText(tags[1..]);
      SplitHead(head, rest, ';');
      TagsSplit(tags[1..], " ");
      var parts := Split(blank + TagsText(tags), ';');
      forall i | 0 <= i < |tags| ensures TrimSpace(parts[i]) == TagText(tags[i]) {
        if i > 0 { assert parts[i] == Split(rest, ';')[i - 1] && tags[i] == tags[1..][i - 1]; }
      }
    }
  }

  lemma HeadTrims(s: string, blank: string)
    requires Trimmed(s) && ';' !in s && (blank == "" || blank == " ")
    ensures TrimSpace(blank + s) == s && ';' !in blank + s
  {
    TrimBlank(s);
    TrimMeans(s);
    assert "" + s == s;
  }

  lemma PlainText(t: Tag)
    requires Plain(t)
    ensures Trimmed(TagText(t)) && ';' !in TagText(t) && TagText(t) != ""
  {}

  lemma {:induction false} ParsesPointwise(parts: seq<string>, tags: seq<Tag>, parse: string -> Option<Tag>)
    ensures ParseAll(parts, parse) == Some(tags) <==>
      |parts| == |tags| && forall i :: 0 <= i < |parts| ==> parse(parts[i]) == Some(tags[i])
  {
    if parts != [] && tags != [] {
      var m := |parts| - 1;
      ParsesPointwise(parts[..m], tags[..|tags| - 1], parse);
      assert tags == tags[..|tags| - 1] + [tags[|tags| - 1]];
    }
  }

  lemma PlainParses(t: Tag, part: string)
    requires Plain(t) && TrimSpace(part) == TagText(t)
    ensures ParseTag(part) == Some(t)
    ensures ParseField(part) == if KnownTag(t.name) && |t.value| <= MAX_VALUE && Generic(t.value) then Some(t) else None
  {
    hide TrimSpace, Trimmed;
    CutAt(t.name, t.value, '=');
    TrimMeans(t.name);
    TrimMeans(t.value);
  }

  ghost predicate Survives(t: Tag) { Plain(t) && KnownTag(t.name) && Generic(t.value) }

  lemma ConstantsSurvive(a: Algorithm)
    ensures Survives(Tag("v", "DKIM1")) && Survives(Tag("h", "sha256")) && Survives(Tag("k", DnsKeyType(a)))
  {
    hide Survives;
    ConstantSurvives("v", "DKIM1");
    ConstantSurvives("h", "sha256");
    ConstantSurvives("k", DnsKeyType(a));
  }

  lemma ConstantSurvives(name: string, value: string)
    requires |name| == 1 && KnownTag(name)
    requires forall i :: 0 <= i < |value| ==> '-' <= value[i] <= '9' || 'A' <= value[i] <= 'z'
    requires value != ""
    ensures Survives(Tag(name, value))
  {}

  lemma KeySurvives(b: Bytes)
    requires b != []
    ensures Survives(Tag("p", Encode(b, true)))
  {
    hide Encode;
    EncodedText(b, true);
    var e := Encode(b, true);
    assert e[0] in e && e[|e| - 1] in e;
  }

  lemma PrintedPlain(a: Algorithm, public: Bytes)
    requires public != []
    ensures forall t :: t in PrintedTags(a, public) ==> Survives(t) && (t.name != "p" ==> |t.value| <= MAX_VALUE)
  {
    hide Encode, Survives;
    ConstantsSurvive(a);
    KeySurvives(public);
  }

  lemma {:induction false} EncodedLength(b: Bytes)
    ensures |Encode(b, true)| == (|b| + 2) / 3 * 4
  {
    if |b| >= 3 { EncodedLength(b[3..]); }
  }

  lemma Letters()
    ensures "v" != "k" && "v" != "h" && "v" != "p" && "v" != "t" && "k" != "h" && "k" != "p" && "k" != "t" && "h" != "p"
    ensures "h" != "t" && "p" != "t"
  {
    assert "v"[0] != "k"[0] && "v"[0] != "h"[0] && "v"[0] != "p"[0] && "v"[0] != "t"[0] && "k"[0] != "h"[0];
    assert "k"[0] != "p"[0] && "k"[0] != "t"[0] && "h"[0] != "p"[0] && "h"[0] != "t"[0] && "p"[0] != "t"[0];
  }

  lemma PrintedFinds(a: Algorithm, public: Bytes)
    ensures var tags := PrintedTags(a, public);
      && DistinctTags(tags) && tags[0] == Tag("v", "DKIM1") && Find(tags, "v") == Some("DKIM1")
      && Find(tags, "k") == Some(DnsKeyType(a))
      && Find(tags, "h") == (if a == MlDsa44Ed25519Sha512 then None else Some("sha256"))
      && Find(tags, "p") == Some(Encode(public, true)) && Find(tags, "t") == None
  {
    hide Encode, Find, DnsKeyType;
    var tags := PrintedTags(a, public);
    Letters();
    assert DistinctTags(tags);
    FindDistinct(tags, tags[0]);
    FindDistinct(tags, tags[1]);
    FindDistinct(tags, tags[|tags| - 1]);
    FindAmong(tags, "t");
    FindAmong(tags, "h");
    if a != MlDsa44Ed25519Sha512 { FindDistinct(tags, tags[2]); }
  }

  /** Parsing a printed record gives the printed algorithm and bytes back. */
  lemma PrintedParsesStrictly(a: Algorithm, public: Bytes)
    requires public != []
    ensures DnsKeyRecord(a, public).Ok? && StrictRecord(DnsKeyRecord(a, public).value, Key(a, public))
  {
    hide Encode, Split, TrimSpace, Plain, Find, DistinctTags, ParseTag, DecodeSkipping, TagsText, DnsKeyRecord;
    var tags := PrintedTags(a, public);
    PrintedIsTags(a, public);
    PrintedPlain(a, public);
    PrintedFinds(a, public);
    TagsSplit(tags, "");
    var text := TagsText(tags);
    assert "" + text == text;
    var parts := Split(text, ';');
    forall i | 0 <= i < |parts| ensures ParseTag(parts[i]) == Some(tags[i]) {
      assert tags[i] in tags;
      PlainParses(tags[i], parts[i]);
    }
    ParsesPointwise(parts, tags, ParseTag);
    SkippingDecodesExactly(Encode(public, true), public, true);
  }

  /** The fields of a printed record are its tags. */
  lemma PrintedFields(a: Algorithm, public: Bytes)
    requires public != []
    ensures var fields, tags := RecordFields(DnsKeyRecord(a, public).value), PrintedTags(a, public);
      |fields| == |tags| && forall i :: 0 <= i < |tags| ==> TrimSpace(fields[i]) == TagText(tags[i])
  {
    hide Encode, Split, TrimSpace, Plain, TagsText, DnsKeyRecord, TagText;
    var tags := PrintedTags(a, public);
    PrintedIsTags(a, public);
    PrintedPlain(a, public);
    TagsSplit(tags, "");
    var text := TagsText(tags);
    assert "" + text == text;
    assert tags[|tags| - 1] in tags;
    PlainText(tags[|tags| - 1]);
  }

  lemma PrintedLenientTags(a: Algorithm, public: Bytes, key: Key)
    requires 0 < |public| <= 6144
    ensures LenientTags(PrintedTags(a, public), key) <==> key == Key(a, public)
  {
    hide Encode, Find, DistinctTags, DecodeDnsPublicValue;
    PrintedFinds(a, public);
    EncodedValueDecodes(public);
  }

  /** The lenient parser agrees up to its bound on one value, which is 6144 key bytes. */
  lemma PrintedParsesLeniently(a: Algorithm, public: Bytes, key: Key)
    requires public != []
    ensures LenientRecord(DnsKeyRecord(a, public).value, key) <==> key == Key(a, public) && |public| <= 6144
  {
    hide Encode, RecordFields, TrimSpace, Plain, ParseField, LenientTags, DnsKeyRecord, TagText, ParseAll;
    PrintedIsTags(a, public);
    var tags, fields := PrintedTags(a, public), RecordFields(DnsKeyRecord(a, public).value);
    PrintedPlain(a, public);
    PrintedFields(a, public);
    EncodedLength(public);
    var last := |tags| - 1;
    assert tags[last] == Tag("p", Encode(public, true));
    forall i | 0 <= i < |tags| ensures |tags[i].value| <= MAX_VALUE ==> ParseField(fields[i]) == Some(tags[i]) {
      assert tags[i] in tags;
      PlainParses(tags[i], fields[i]);
    }
    if |public| <= 6144 {
      ParsesPointwise(fields, tags, ParseField);
      PrintedSize(a, public);
      PrintedLenientTags(a, public, key);
    } else {
      assert tags[last] in tags;
      PlainParses(tags[last], fields[last]);
      if ParseAll(fields, ParseField).Some? { ParsesPointwise(fields, ParseAll(fields, ParseField).value, ParseField); }
    }
  }

  lemma EncodedValueDecodes(b: Bytes)
    requires 0 < |b| <= MAX_VALUE
    ensures DecodeDnsPublicValue(Encode(b, true)) == Some(b)
  {
    hide Encode, DecodeDnsPublicValue;
    EncodedText(b, true);
    NothingToDrop(Encode(b, true));
    PublicValueDecodes(Encode(b, true), b);
  }

  lemma {:induction false} NothingToDrop(s: string)
    requires ' ' !in s && '\t' !in s
    ensures Without(s, {' ', '\t'}) == s
  {
    if s != "" { NothingToDrop(s[1..]); }
  }

  lemma PrintedSize(a: Algorithm, public: Bytes)
    requires public != []
    ensures 0 < |DnsKeyRecord(a, public).value| <= 60 + |Encode(public, true)|
  {
    hide Encode;
  }

  // ---------------------------------------------------------------------------------------------
  // The lenient parser accepts strict records
  // ---------------------------------------------------------------------------------------------

  /** The only strict key values the lenient parser refuses are too long or carry an inner line break. */
  predicate LenientValue(p: string) { |TrimSpace(p)| <= MAX_VALUE && '\r' !in TrimSpace(p) && '\n' !in TrimSpace(p) }

  lemma PlusIsAssociative(a: string, b: string, c: string)
    ensures a + (b + c) == a + b + c
  {}

  lemma {:induction false} BreaksAppend(s: string, t: string)
    ensures WithoutBreaks(s + t) == WithoutBreaks(s) + WithoutBreaks(t)
  {
    if s == "" {
      assert s + t == t;
    } else {
      BreaksAppend(s[1..], t);
      var first := if s[0] == '\r' || s[0] == '\n' then "" else [s[0]];
      assert (s + t)[1..] == s[1..] + t && (s + t)[0] == s[0];
      PlusIsAssociative(first, WithoutBreaks(s[1..]), WithoutBreaks(t));
    }
  }

  lemma {:induction false} InBreaks(s: string, c: char)
    ensures c in WithoutBreaks(s) <==> c in s && c != '\r' && c != '\n'
  {
    if s != "" { InBreaks(s[1..], c); }
  }

  lemma {:induction false} BreaksTrimmedLeft(s: string)
    requires forall c :: c in s && IsSpace(c) ==> c == '\r' || c == '\n'
    ensures WithoutBreaks(TrimLeft(s)) == WithoutBreaks(s)
  {
    hide IsSpace;
    if s != "" && IsSpace(s[0]) {
      assert s[0] in s;
      BreaksTrimmedLeft(s[1..]);
      assert WithoutBreaks(s) == "" + WithoutBreaks(s[1..]);
    }
  }

  lemma {:induction false} BreaksTrimmedRight(s: string)
    requires forall c :: c in s && IsSpace(c) ==> c == '\r' || c == '\n'
    ensures WithoutBreaks(TrimRight(s)) == WithoutBreaks(s)
  {
    if s != "" && IsSpace(s[|s| - 1]) {
      BreaksTrimmedRight(s[..|s| - 1]);
      BreaksAppend(s[..|s| - 1], s[|s| - 1..]);
      assert s == s[..|s| - 1] + s[|s| - 1..];
      assert s[|s| - 1] in s;
      assert WithoutBreaks(s[|s| - 1..]) == "";
    }
  }

  /** A value the strict parser decodes: trimming changes line breaks only, and what is left is the encoding. */
  lemma TrimmedValue(p: string, b: Bytes)
    requires DecodeSkipping(p, true) == Some(b)
    ensures WithoutBreaks(TrimSpace(p)) == Encode(b, true)
    ensures forall c :: c in TrimSpace(p) ==> c == '\r' || c == '\n' || ' ' < c <= '~'
  {
    hide Encode;
    SkippingDecodesExactly(p, b, true);
    EncodedText(b, true);
    forall c | c in p ensures c == '\r' || c == '\n' || ' ' < c <= '~' { InBreaks(p, c); }
    TrimLeftMeans(p);
    assert forall c :: c in TrimLeft(p) ==> c in p;
    BreaksTrimmedLeft(p);
    BreaksTrimmedRight(TrimLeft(p));
    TrimMeans(p);
  }

  lemma LenientValueDecodes(p: string, b: Bytes)
    requires DecodeSkipping(p, true) == Some(b) && b != []
    ensures LenientValue(p) <==> |TrimSpace(p)| <= MAX_VALUE && Generic(TrimSpace(p))
    ensures LenientValue(p) ==> DecodeDnsPublicValue(TrimSpace(p)) == Some(b)
  {
    hide Encode, TrimSpace, DecodeDnsPublicValue, DecodeSkipping;
    TrimmedValue(p, b);
    if LenientValue(p) {
      NoBreaksToSkip(TrimSpace(p));
      EncodedLength(b);
      EncodedValueDecodes(b);
    }
  }

  /** The lenient reading of a strict tag. */
  function Relaxed(t: Tag): Tag { if t.name == "p" then Tag("p", TrimSpace(t.value)) else t }

  function RelaxedAll(tags: seq<Tag>): seq<Tag> { seq(|tags|, i requires 0 <= i < |tags| => Relaxed(tags[i])) }

  lemma {:induction false} RelaxedFinds(tags: seq<Tag>, name: string)
    ensures Find(RelaxedAll(tags), name) ==
      if name == "p" && Find(tags, name).Some? then Some(TrimSpace(Find(tags, name).value)) else Find(tags, name)
  {
    hide TrimSpace;
    if tags != [] {
      var rest := tags[..|tags| - 1];
      RelaxedFinds(rest, name);
      assert RelaxedAll(tags)[..|tags| - 1] == RelaxedAll(rest);
    }
  }

  /** One part, read by both parsers. */
  lemma PartReadTwice(part: string, t: Tag)
    requires ParseTag(part) == Some(t) && t.name in {"v", "k", "h", "p"}
    requires t.name != "p" ==> Trimmed(t.value) && Generic(t.value) && |t.value| <= MAX_VALUE
    ensures TrimSpace(part) != ""
    ensures ParseField(part) ==
      if t.name == "p" && (|TrimSpace(t.value)| > MAX_VALUE || !Generic(TrimSpace(t.value))) then None
      else Some(Relaxed(t))
  {
    hide TrimSpace, Generic;
    TrimMeans(t.name);
    TrimMeans(t.value);
    assert Trimmed("v") && Trimmed("k") && Trimmed("h") && Trimmed("p");
  }

  lemma StrictValues(tags: seq<Tag>, key: Key, t: Tag)
    requires StrictTags(tags, key) && t in tags
    ensures t.name in {"v", "k", "h", "p"}
    ensures t.name != "p" ==> Trimmed(t.value) && Generic(t.value) && |t.value| <= MAX_VALUE
    ensures t.name == "p" ==> Find(tags, "p") == Some(t.value)
  {
    hide DecodeSkipping, Find, Trimmed, Generic;
    FindDistinct(tags, t);
    if t.name == "v" { FindDistinct(tags, tags[0]); }
    KnownValues();
  }

  lemma KnownValues()
    ensures forall v: string :: v in {"DKIM1", "sha256", "rsa", "ed25519", "mldsa44-ed25519-sha512"} ==>
      Trimmed(v) && Generic(v) && |v| <= MAX_VALUE
  {
    KnownValue("DKIM1");
    KnownValue("sha256");
    KnownValue("rsa");
    KnownValue("ed25519");
    KnownValue("mldsa44-ed25519-sha512");
  }

  lemma KnownValue(v: string)
    requires v != "" && |v| <= 100 && forall i :: 0 <= i < |v| ==> '-' <= v[i] <= '9' || 'A' <= v[i] <= 'z'
    ensures Trimmed(v) && Generic(v) && |v| <= MAX_VALUE
  {}

  /** A strict record is a lenient record for the same key exactly when it respects the lenient bounds. */
  lemma StrictIsLenient(content: string, key: Key)
    requires StrictRecord(content, key)
    ensures var p := Find(ParseAll(Split(content, ';'), ParseTag).value, "p").value;
      LenientRecord(content, key) <==> |content| <= MAX_RECORD && LenientValue(p)
  {
    hide Split, TrimSpace, ParseTag, ParseField, Find, DecodeSkipping, DecodeDnsPublicValue, Generic, DistinctTags,
      LenientTags, StrictTags, ParseAll, Relaxed, LenientValue;
    var parts := Split(content, ';');
    var tags := ParseAll(parts, ParseTag).value;
    ParsesPointwise(parts, tags, ParseTag);
    StrictFacts(tags, key);
    var p := Find(tags, "p").value;
    LenientValueDecodes(p, key.public);
    forall i | 0 <= i < |parts|
      ensures TrimSpace(parts[i]) != "" && (LenientValue(p) ==> ParseField(parts[i]) == Some(Relaxed(tags[i])))
    {
      StrictValues(tags, key, tags[i]);
      PartReadTwice(parts[i], tags[i]);
    }
    assert RecordFields(content) == parts;
    assert content != "" by { EmptyContent(content, parts); }
    if LenientValue(p) {
      ParsesPointwise(parts, RelaxedAll(tags), ParseField);
      RelaxedIsLenient(tags, key);
    } else {
      var i :| 0 <= i < |tags| && tags[i] == Tag("p", p);
      StrictValues(tags, key, tags[i]);
      PartReadTwice(parts[i], tags[i]);
      if ParseAll(parts, ParseField).Some? { ParsesPointwise(parts, ParseAll(parts, ParseField).value, ParseField); }
    }
  }

  lemma EmptyContent(content: string, parts: seq<string>)
    requires parts == Split(content, ';') && |parts| >= 3
    ensures content != ""
  {}

  lemma StrictFacts(tags: seq<Tag>, key: Key)
    requires StrictTags(tags, key)
    ensures |tags| >= 3 && Find(tags, "p").Some? && DecodeSkipping(Find(tags, "p").value, true) == Some(key.public)
    ensures key.public != []
    ensures Tag("p", Find(tags, "p").value) in tags
  {
    hide Find, DecodeSkipping;
    FindAmong(tags, "p");
  }

  lemma RelaxedIsLenient(tags: seq<Tag>, key: Key)
    requires StrictTags(tags, key) && LenientValue(Find(tags, "p").value)
    ensures LenientTags(RelaxedAll(tags), key)
  {
    hide Find, DecodeSkipping, DecodeDnsPublicValue, TrimSpace, ValidFlags, AlgorithmForDnsKeyType, DnsHashAllowed;
    RelaxedFinds(tags, "v");
    RelaxedFinds(tags, "k");
    RelaxedFinds(tags, "p");
    RelaxedFinds(tags, "t");
    Letters();
    FindDistinct(tags, tags[0]);
    FindAmong(tags, "t");
    LenientValueDecodes(Find(tags, "p").value, key.public);
    forall i | 0 <= i < |tags| ensures RelaxedAll(tags)[i].name == tags[i].name {}
  }

  // ---------------------------------------------------------------------------------------------
  // Character strings and comparison
  // ---------------------------------------------------------------------------------------------

  const CHUNK := 254

  /** Splits one record into the character strings of a TXT record; joining them gives the record back. */
  method TxtChunks(content: string) returns (chunks: seq<string>)
    ensures Join(chunks, "") == content && |chunks| == if content == "" then 1 else (|content| + CHUNK - 1) / CHUNK
    ensures forall i :: 0 <= i < |chunks| ==> |chunks[i]| <= CHUNK && (i < |chunks| - 1 ==> |chunks[i]| == CHUNK)
  {
    hide Join;
    JoinNone();
    if content == "" { return [""]; }
    chunks := [];
    var rest := content;
    while |rest| > CHUNK
      invariant Join(chunks, "") + rest == content && rest != ""
      invariant forall i :: 0 <= i < |chunks| ==> |chunks[i]| == CHUNK
      invariant |chunks| * CHUNK + |rest| == |content|
    {
      JoinMore(chunks, rest[..CHUNK]);
      PlusIsAssociative(Join(chunks, ""), rest[..CHUNK], rest[CHUNK..]);
      assert rest == rest[..CHUNK] + rest[CHUNK..];
      chunks := chunks + [rest[..CHUNK]];
      rest := rest[CHUNK..];
    }
    JoinMore(chunks, rest);
    chunks := chunks + [rest];
  }

  lemma JoinNone()
    ensures Join([], "") == "" && Join([""], "") == ""
  {}

  lemma {:induction false} JoinMore(chunks: seq<string>, s: string)
    ensures Join(chunks + [s], "") == Join(chunks, "") + s
  {
    var more := chunks + [s];
    if |chunks| == 0 {
      assert more == [s];
    } else {
      JoinMore(chunks[1..], s);
      assert more[1..] == chunks[1..] + [s];
      if |chunks| == 1 { assert chunks[1..] == []; }
    }
  }

  /** The parsed keys agree, byte for byte or through the equivalence `spki` of their encodings. */
  ghost predicate SameKey(x: Key, y: Key, spki: (Algorithm, Bytes, Bytes) -> bool)
  {
    && x.algorithm == y.algorithm
    && (x.public == y.public || spki(x.algorithm, x.public, y.public) || spki(x.algorithm, y.public, x.public))
  }

  method MatchingDkimContent(expected: string, observed: string, spki: (Algorithm, Bytes, Bytes) -> bool)
      returns (ok: bool)
    ensures ok <==> exists x, y :: StrictRecord(expected, x) && StrictRecord(observed, y) && SameKey(x, y, spki)
  {
    hide StrictRecord;
    var left := ParseDkimContent(expected);
    if expected == observed {
      if left.Ok? { assert StrictRecord(expected, left.value) && SameKey(left.value, left.value, spki); }
      return left.Ok?;
    }
    if left.Err? { return false; }
    var right := ParseDkimContent(observed);
    if right.Err? || right.value.algorithm != left.value.algorithm { return false; }
    ok := left.value.public == right.value.public ||
        spki(left.value.algorithm, left.value.public, right.value.public) ||
      spki(left.value.algorithm, right.value.public, left.value.public);
    if ok {
      assert StrictRecord(expected, left.value) && StrictRecord(observed, right.value);
      assert SameKey(left.value, right.value, spki);
    }
  }

  lemma StrictKeyIsUnique(content: string, x: Key, y: Key)
    requires StrictRecord(content, x) && StrictRecord(content, y)
    ensures x == y
  {
    hide Split, ParseTag, DecodeSkipping, DistinctTags, Find;
  }

  /** Two printed records match exactly when their keys do. */
  lemma PrintedRecordsMatch(a: Algorithm, public: Bytes, b: Algorithm, other: Bytes,
                            spki: (Algorithm, Bytes, Bytes) -> bool)
    requires public != [] && other != []
    ensures
      (exists x, y ::
         && StrictRecord(DnsKeyRecord(a, public).value, x) && StrictRecord(DnsKeyRecord(b, other).value, y)
         && SameKey(x, y, spki)) <==>
      SameKey(Key(a, public), Key(b, other), spki)
  {
    hide StrictRecord, DnsKeyRecord, SameKey;
    PrintedParsesStrictly(a, public);
    PrintedParsesStrictly(b, other);
    forall x, y | StrictRecord(DnsKeyRecord(a, public).value, x) && StrictRecord(DnsKeyRecord(b, other).value, y)
      ensures x == Key(a, public) && y == Key(b, other)
    {
      StrictKeyIsUnique(DnsKeyRecord(a, public).value, x, Key(a, public));
      StrictKeyIsUnique(DnsKeyRecord(b, other).value, y, Key(b, other));
    }
  }
}

/** Splitting and joining of byte strings, and the two closed name grammars. */
module Text {

  type byte = x: int | 0 <= x < 256

  type Bytes = seq<byte>

  function Split(s: string, separator: char): (parts: seq<string>)
    ensures |parts| >= 1
  {
    if s == "" then [""]
    else
      var rest := Split(s[1..], separator);
      if s[0] == separator then [""] + rest else [[s[0]] + rest[0]] + rest[1..]
  }

  function Join(parts: seq<string>, separator: string): string
  {
    if |parts| == 0 then ""
    else if |parts| == 1 then parts[0]
    else parts[0] + separator + Join(parts[1..], separator)
  }

  lemma {:induction false} SplitKeepsChars(s: string, separator: char, c: char)
    requires c in s && c != separator
    ensures exists part :: part in Split(s, separator) && c in part
  {
    var rest := Split(s[1..], separator);
    if s[0] == c {
      assert c in Split(s, separator)[0];
    } else {
      assert c in s[1..];
      SplitKeepsChars(s[1..], separator, c);
      var part :| part in rest && c in part;
      var i :| 0 <= i < |rest| && rest[i] == part;
      if s[0] == separator {
        assert Split(s, separator)[i + 1] == part;
      } else if i == 0 {
        assert c in Split(s, separator)[0];
      } else {
        assert Split(s, separator)[i] == part;
      }
    }
  }

  predicate LowerAlphaNumeric(c: char) { 'a' <= c <= 'z' || '0' <= c <= '9' }

  /** The administrative identifier grammar. */
  predicate ValidIdentifier(s: string)
  {
    0 < |s| <= 128 && LowerAlphaNumeric(s[0]) &&
    forall i :: 1 <= i < |s| ==> LowerAlphaNumeric(s[i]) || s[i] == '.' || s[i] == '_' || s[i] == '-'
  }

  predicate ValidLabel(s: string)
  {
    0 < |s| <= 63 && LowerAlphaNumeric(s[0]) && LowerAlphaNumeric(s[|s| - 1]) &&
    forall i :: 1 <= i < |s| - 1 ==> LowerAlphaNumeric(s[i]) || s[i] == '-'
  }

  /** A canonical lower-case host name of at most 253 bytes and 127 labels. */
  predicate CanonicalDnsName(s: string)
  {
    0 < |s| <= 253 && |Split(s, '.')| <= 127 &&
    forall piece :: piece in Split(s, '.') ==> ValidLabel(piece)
  }

  type Id = s: string | ValidIdentifier(s) witness "a"

  type DnsName = s: string | CanonicalDnsName(s) witness "a"

  /** Printable seven-bit text. */
  ghost predicate Printable(s: string) { forall c :: c in s ==> ' ' <= c <= '~' }

  lemma IdPrintable(s: Id)
    ensures Printable(s)
  {}

  lemma DnsNamePrintable(s: DnsName)
    ensures Printable(s)
  {
    forall c | c in s && c != '.'
      ensures ' ' <= c <= '~'
    {
      SplitKeepsChars(s, '.', c);
      var piece :| piece in Split(s, '.') && c in piece;
      assert ValidLabel(piece);
    }
  }

  lemma FirstOfSeparated(x: string, y: string)
    requires Printable(x)
    ensures (x + "\0" + y)[0] == '\0' <==> x == ""
  {
    if x != "" {
      assert (x + "\0" + y)[0] == x[0] && x[0] in x;
    }
  }

  /** Text made of three parts with a NUL between them determines its parts when they hold no NUL. */
  lemma {:induction false} SeparatedInjective(a: string, b: string, x: string, y: string)
    requires Printable(a) && Printable(x) && a + "\0" + b == x + "\0" + y
    ensures a == x && b == y
  {
    if a == "" {
      assert (x + "\0" + y)[0] == '\0';
      FirstOfSeparated(x, y);
      assert b == (a + "\0" + b)[1..] == (x + "\0" + y)[1..] == y;
    } else {
      assert (a + "\0" + b)[0] == a[0] && a[0] in a;
      assert x != "";
      assert (x + "\0" + y)[0] == x[0];
      assert forall c :: c in a[1..] ==> c in a;
      assert forall c :: c in x[1..] ==> c in x;
      assert a[1..] + "\0" + b == (a + "\0" + b)[1..] == (x + "\0" + y)[1..] == x[1..] + "\0" + y;
      SeparatedInjective(a[1..], b, x[1..], y);
      assert a == [a[0]] + a[1..] && x == [x[0]] + x[1..];
    }
  }
}

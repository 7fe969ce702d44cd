/** Strict base64 (section 4 of RFC 4648), with and without padding. */
module Base64 {
  import opened Wrappers
  import opened Text

  /** The character of a six-bit value. */
  function Symbol(v: nat): char
    requires v < 64
  {
    if v < 26 then 'A' + v as char
    else if v < 52 then 'a' + (v - 26) as char
    else if v < 62 then '0' + (v - 52) as char
    else if v == 62 then '+' else '/'
  }

  function Value(c: char): (v: Option<nat>)
    ensures v.Some? ==> v.value < 64
  {
    if 'A' <= c <= 'Z' then Some((c - 'A') as nat)
    else if 'a' <= c <= 'z' then Some((c - 'a') as nat + 26)
    else if '0' <= c <= '9' then Some((c - '0') as nat + 52)
    else if c == '+' then Some(62)
    else if c == '/' then Some(63)
    else None
  }

  lemma ValueOfSymbol(v: nat, c: char)
    requires v < 64
    ensures Value(Symbol(v)) == Some(v) && (Value(c) == Some(v) ==> c == Symbol(v))
    ensures Symbol(v) != '=' && ' ' < Symbol(v) <= '~'
  {}

  function Padding(n: nat, padded: bool): string { if !padded then "" else if n == 1 then "==" else "=" }

  /** Three bytes become four characters; one or two left-over bytes become two or three and the padding. */
  function Encode(b: Bytes, padded: bool): string
  {
    if b == [] then ""
    else if |b| == 1 then [Symbol(b[0] / 4), Symbol(b[0] % 4 * 16)] + Padding(1, padded)
    else if |b| ==
      2 then [Symbol(b[0] / 4), Symbol(b[0] % 4 * 16 + b[1] / 16), Symbol(b[1] % 16 * 4)] + Padding(2, padded)
    else Quantum(b[0], b[1], b[2]) + Encode(b[3..], padded)
  }

  function Quantum(x: byte, y: byte, z: byte): string
  {
    [Symbol(x / 4), Symbol(x % 4 * 16 + y / 16), Symbol(y % 16 * 4 + z / 64), Symbol(z % 64)]
  }

  predicate Whole(s: string)
  {
    |s| >= 4 && Value(s[0]).Some? && Value(s[1]).Some? && Value(s[2]).Some? && Value(s[3]).Some?
  }

  /** The strict decoder: whole quanta, then at most one short one with its exact padding and zero spare bits. */
  function Decode(s: string, padded: bool): Option<Bytes>
  {
    if s == "" then Some([])
    else if Whole(s) then
      match Decode(s[4..], padded)
      case None => None
      case Some(rest) => Some(Bytes3(Value(s[0]).value, Value(s[1]).value, Value(s[2]).value, Value(s[3]).value) + rest)
    else DecodeShort(s, padded)
  }

  function Bytes3(p: nat, q: nat, r: nat, t: nat): (b: Bytes)
    requires p < 64 && q < 64 && r < 64 && t < 64
    ensures |b| == 3
  {
    [p * 4 + q / 16, q % 16 * 16 + r / 4, r % 4 * 64 + t]
  }

  function DecodeShort(s: string, padded: bool): Option<Bytes>
  {
    if |s| < 2 || Value(s[0]).None? || Value(s[1]).None? then None
    else
      var p, q := Value(s[0]).value, Value(s[1]).value;
      if s[2..] == Padding(1, padded) then
        if q % 16 == 0 then Some([p * 4 + q / 16]) else None
      else if |s| < 3 || Value(s[2]).None? || s[3..] != Padding(2, padded) then None
      else
        var r := Value(s[2]).value;
        if r % 4 == 0 then Some([p * 4 + q / 16, q % 16 * 16 + r / 4]) else None
  }

  lemma {:induction false} DecodeOfEncode(b: Bytes, padded: bool)
    ensures Decode(Encode(b, padded), padded) == Some(b)
  {
    hide Symbol, Value;
    var s := Encode(b, padded);
    if b == [] {
    } else if |b| < 3 {
      ShortDecodes(b, padded);
    } else {
      DecodeOfEncode(b[3..], padded);
      QuantumDecodes(b[0], b[1], b[2]);
      assert s[4..] == Encode(b[3..], padded);
      assert b == [b[0], b[1], b[2]] + b[3..];
    }
  }

  lemma FirstByte(x: byte, y: byte)
    ensures x / 4 < 64 && x % 4 * 16 + y / 16 < 64 && x / 4 * 4 + (x % 4 * 16 + y / 16) / 16 == x
  {}

  lemma SecondByte(x: byte, y: byte, z: byte)
    ensures y % 16 * 4 + z / 64 < 64 && (x % 4 * 16 + y / 16) % 16 * 16 + (y % 16 * 4 + z / 64) / 4 == y
  {
    assert (x % 4 * 16 + y / 16) % 16 == y / 16;
    assert (y % 16 * 4 + z / 64) / 4 == y % 16;
  }

  lemma ThirdByte(y: byte, z: byte)
    ensures z % 64 < 64 && (y % 16 * 4 + z / 64) % 4 * 64 + z % 64 == z
  {
    assert (y % 16 * 4 + z / 64) % 4 == z / 64;
  }

  lemma BytesOfSextets(x: byte, y: byte, z: byte)
    ensures x / 4 < 64 && x % 4 * 16 + y / 16 < 64 && y % 16 * 4 + z / 64 < 64 && z % 64 < 64
    ensures Bytes3(x / 4, x % 4 * 16 + y / 16, y % 16 * 4 + z / 64, z % 64) == [x, y, z]
  {
    FirstByte(x, y);
    SecondByte(x, y, z);
    ThirdByte(y, z);
  }

  lemma QuantumDecodes(x: byte, y: byte, z: byte)
    ensures var s := Quantum(x, y, z);
      Whole(s) && Bytes3(Value(s[0]).value, Value(s[1]).value, Value(s[2]).value, Value(s[3]).value) == [x, y, z]
  {
    hide Symbol, Value, Bytes3;
    BytesOfSextets(x, y, z);
    ValueOfSymbol(x / 4, ' ');
    ValueOfSymbol(x % 4 * 16 + y / 16, ' ');
    ValueOfSymbol(y % 16 * 4 + z / 64, ' ');
    ValueOfSymbol(z % 64, ' ');
  }

  lemma ShortDecodes(b: Bytes, padded: bool)
    requires 0 < |b| < 3
    ensures Decode(Encode(b, padded), padded) == Some(b)
  {
    hide Symbol, Value;
    var s := Encode(b, padded);
    NoPadValue();
    ValueOfSymbol(b[0] / 4, ' ');
    if |b| == 1 {
      ValueOfSymbol(b[0] % 4 * 16, ' ');
      assert s[2..] == Padding(1, padded);
      assert |s| >= 4 ==> s[3] == '=';
      assert b == [b[0]];
    } else {
      ValueOfSymbol(b[0] % 4 * 16 + b[1] / 16, ' ');
      ValueOfSymbol(b[1] % 16 * 4, ' ');
      assert s[3..] == Padding(2, padded);
      assert |s| >= 4 ==> s[3] == '=';
      assert s[2] == Symbol(b[1] % 16 * 4);
      assert s[2..] != Padding(1, padded) by { assert s[2..][0] == s[2]; }
      assert !Whole(s);
      var p, q, r := b[0] / 4, b[0] % 4 * 16 + b[1] / 16, b[1] % 16 * 4;
      assert Value(s[0]) == Some(p) && Value(s[1]) == Some(q) && Value(s[2]) == Some(r);
      assert r % 4 == 0 && p * 4 + q / 16 == b[0] && q % 16 * 16 + r / 4 == b[1];
      assert b == [b[0], b[1]];
    }
  }

  lemma NoPadValue()
    ensures Value('=') == None
  {}

  lemma {:induction false} EncodeOfDecode(s: string, padded: bool)
    requires Decode(s, padded).Some?
    ensures Encode(Decode(s, padded).value, padded) == s
  {
    hide Symbol, Value;
    if s == "" {
    } else if Whole(s) {
      EncodeOfDecode(s[4..], padded);
      var b, rest := Decode(s, padded).value, Decode(s[4..], padded).value;
      QuantumEncodes(s);
      assert b[3..] == rest;
      assert s == s[..4] + s[4..];
    } else {
      ShortEncodes(s, padded);
    }
  }

  lemma Bytes3Parts(p: nat, q: nat, r: nat, t: nat)
    requires p < 64 && q < 64 && r < 64 && t < 64
    ensures var b := Bytes3(p, q, r, t);
      b[0] / 4 == p && b[0] % 4 * 16 + b[1] / 16 == q && b[1] % 16 * 4 + b[2] / 64 == r && b[2] % 64 == t
  {}

  lemma QuantumEncodes(s: string)
    requires Whole(s)
    ensures var b := Bytes3(Value(s[0]).value, Value(s[1]).value, Value(s[2]).value, Value(s[3]).value);
      Quantum(b[0], b[1], b[2]) == s[..4]
  {
    hide Symbol, Value, Bytes3;
    ValueOfSymbol(Value(s[0]).value, s[0]);
    ValueOfSymbol(Value(s[1]).value, s[1]);
    ValueOfSymbol(Value(s[2]).value, s[2]);
    ValueOfSymbol(Value(s[3]).value, s[3]);
    Bytes3Parts(Value(s[0]).value, Value(s[1]).value, Value(s[2]).value, Value(s[3]).value);
    var b := Bytes3(Value(s[0]).value, Value(s[1]).value, Value(s[2]).value, Value(s[3]).value);
    assert Quantum(b[0], b[1], b[2]) == [s[0], s[1], s[2], s[3]] == s[..4];
  }

  lemma ShortEncodes(s: string, padded: bool)
    requires DecodeShort(s, padded).Some?
    ensures Encode(DecodeShort(s, padded).value, padded) == s
  {
    hide Symbol, Value;
    ValueOfSymbol(Value(s[0]).value, s[0]);
    ValueOfSymbol(Value(s[1]).value, s[1]);
    if s[2..] == Padding(1, padded) {
      assert s == [s[0], s[1]] + s[2..];
    } else {
      ValueOfSymbol(Value(s[2]).value, s[2]);
      assert s == [s[0], s[1], s[2]] + s[3..];
    }
  }

  /** Strict decoding and encoding are inverse: a text decodes to `b` exactly when it is the encoding of `b`. */
  lemma DecodesExactly(s: string, b: Bytes, padded: bool)
    ensures Decode(s, padded) == Some(b) <==> s == Encode(b, padded)
  {
    DecodeOfEncode(b, padded);
    if Decode(s, padded).Some? { EncodeOfDecode(s, padded); }
  }

  lemma {:induction false} EncodedText(b: Bytes, padded: bool)
    ensures |Encode(b, padded)| <= |b| / 3 * 4 + 4 && (b != [] ==> |Encode(b, padded)| >= 2)
    ensures forall c :: c in Encode(b, padded) ==> ' ' < c <= '~' && c != ';'
    ensures !padded ==> '=' !in Encode(b, padded)
    ensures Encode(b, true) == Encode(b, false) || '=' in Encode(b, true)
  {
    hide Symbol;
    PaddingShows(b);
    forall v: nat | v < 64 ensures Symbol(v) != '=' && ' ' < Symbol(v) <= '~' && Symbol(v) != ';' {
      ValueOfSymbol(v, ';');
    }
    if |b| >= 3 { EncodedText(b[3..], padded); }
  }

  /** Either there is nothing to pad, or the padding is visible. */
  lemma {:induction false} PaddingShows(b: Bytes)
    ensures Encode(b, true) == Encode(b, false) || '=' in Encode(b, true)
  {
    hide Symbol;
    if |b| == 1 || |b| == 2 {
      assert Encode(b, true)[3] == '=';
    } else if |b| >= 3 {
      PaddingShows(b[3..]);
      assert forall i :: 0 <= i < |Encode(b[3..], true)| ==> Encode(b, true)[i + 4] == Encode(b[3..], true)[i];
    }
  }

  // ---------------------------------------------------------------------------------------------
  // Line breaks
  // ---------------------------------------------------------------------------------------------

  /** The library's decoder skips carriage returns and line feeds, also in strict mode. */
  function WithoutBreaks(s: string): string
  {
    if s == "" then "" else (if s[0] == '\r' || s[0] == '\n' then "" else [s[0]]) + WithoutBreaks(s[1..])
  }

  function DecodeSkipping(s: string, padded: bool): Option<Bytes> { Decode(WithoutBreaks(s), padded) }

  lemma {:induction false} NoBreaksToSkip(s: string)
    ensures WithoutBreaks(s) == s <==> '\r' !in s && '\n' !in s
    ensures |WithoutBreaks(s)| <= |s|
  {
    if s != "" { NoBreaksToSkip(s[1..]); }
  }

  lemma SkippingDecodesExactly(s: string, b: Bytes, padded: bool)
    ensures DecodeSkipping(s, padded) == Some(b) <==> WithoutBreaks(s) == Encode(b, padded)
    ensures s == Encode(b, padded) ==> DecodeSkipping(s, padded) == Some(b)
  {
    DecodesExactly(WithoutBreaks(s), b, padded);
    if s == Encode(b, padded) {
      EncodedText(b, padded);
      NoBreaksToSkip(s);
    }
  }
}

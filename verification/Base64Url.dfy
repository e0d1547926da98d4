/**
 base64url: the encoding of RFC 4648, section 5, without padding, made from the one of section 4.

 The library's base64 filter writes and reads the padded text of section 4. `Encode` then
 replaces two symbols and takes the padding off; `Decode` puts both back and reads. What the library
 makes of a text that is not base64, or is empty, is a parameter (`other`): some bytes, or a failure.
 */
module Base64Url {
  datatype Option<T> = None | Some(value: T)

  type Byte = x: int | 0 <= x < 256
  type Sextet = x: int | 0 <= x < 64

  // ---------- groups of 24 bits ----------

  // The bits of bytes x, y, z as sextets a, b, c, e, and back.
  function A(x: Byte): Sextet { x as int / 4 }
  function B(x: Byte, y: Byte): Sextet { x as int % 4 * 16 + y as int / 16 }
  function C(y: Byte, z: Byte): Sextet { y as int % 16 * 4 + z as int / 64 }
  function E(z: Byte): Sextet { z as int % 64 }
  function X(a: Sextet, b: Sextet): Byte { a as int * 4 + b as int / 16 }
  function Y(b: Sextet, c: Sextet): Byte { b as int % 16 * 16 + c as int / 4 }
  function Z(c: Sextet, e: Sextet): Byte { c as int % 4 * 64 + e as int }

  lemma GroupThere(x: Byte, y: Byte, z: Byte)
    ensures X(A(x), B(x, y)) == x && Y(B(x, y), C(y, z)) == y && Z(C(y, z), E(z)) == z
  {
  }

  lemma GroupBack(a: Sextet, b: Sextet, c: Sextet, e: Sextet)
    ensures A(X(a, b)) == a && B(X(a, b), Y(b, c)) == b && C(Y(b, c), Z(c, e)) == c && E(Z(c, e)) == e
    ensures B(X(a, b), 0) == b <==> b % 16 == 0
    ensures C(Y(b, c), 0) == c <==> c % 4 == 0
  {
  }

  /** Three bytes are four sextets; what is missing in the last group is not written. */
  function Sextets(d: seq<Byte>): (v: seq<Sextet>)
    ensures |v| == |d| + |d| / 3 + if |d| % 3 == 0 then 0 else 1
  {
    if d == [] then []
    else if |d| == 1 then [A(d[0]), B(d[0], 0)]
    else if |d| == 2 then [A(d[0]), B(d[0], d[1]), C(d[1], 0)]
    else [A(d[0]), B(d[0], d[1]), C(d[1], d[2]), E(d[2])] + Sextets(d[3..])
  }

  /** Four sextets are three bytes; bits that make no whole byte are dropped. */
  function Bytes(v: seq<Sextet>): (d: seq<Byte>)
  {
    if |v| < 2 then []
    else if |v| == 2 then [X(v[0], v[1])]
    else if |v| == 3 then [X(v[0], v[1]), Y(v[1], v[2])]
    else [X(v[0], v[1]), Y(v[1], v[2]), Z(v[2], v[3])] + Bytes(v[4..])
  }

  lemma SextetsOfGroup(x: Byte, y: Byte, z: Byte, rest: seq<Byte>)
    ensures Sextets([x, y, z] + rest) == [A(x), B(x, y), C(y, z), E(z)] + Sextets(rest)
  {
    assert ([x, y, z] + rest)[3..] == rest;
  }

  lemma BytesOfGroup(a: Sextet, b: Sextet, c: Sextet, e: Sextet, rest: seq<Sextet>)
    ensures Bytes([a, b, c, e] + rest) == [X(a, b), Y(b, c), Z(c, e)] + Bytes(rest)
  {
    assert ([a, b, c, e] + rest)[4..] == rest;
  }

  lemma {:induction false} BytesOfSextets(d: seq<Byte>)
    ensures Bytes(Sextets(d)) == d
  {
    hide A, B, C, E, X, Y, Z;
    if |d| == 1 {
      GroupThere(d[0], 0, 0);
    } else if |d| == 2 {
      GroupThere(d[0], d[1], 0);
    } else if |d| >= 3 {
      var x, y, z, rest := d[0], d[1], d[2], d[3..];
      GroupThere(x, y, z);
      BytesOfSextets(rest);
      assert d == [x, y, z] + rest;
      SextetsOfGroup(x, y, z, rest);
      BytesOfGroup(A(x), B(x, y), C(y, z), E(z), Sextets(rest));
    }
  }

  /** No bits are left over, or they are zero. */
  predicate Canonical(v: seq<Sextet>) {
    match |v| % 4
    case 0 => true
    case 1 => false
    case 2 => v[|v| - 1] % 16 == 0
    case _ => v[|v| - 1] % 4 == 0
  }

  lemma CanonicalRest(group: seq<Sextet>, rest: seq<Sextet>)
    requires |group| == 4
    ensures Canonical(group + rest) <==> Canonical(rest)
  {
    assert |group + rest| % 4 == |rest| % 4;
  }

  lemma SamePrefix(group: seq<Sextet>, v: seq<Sextet>, w: seq<Sextet>)
    ensures group + v == group + w <==> v == w
  {
    assert (group + v)[|group|..] == v && (group + w)[|group|..] == w;
  }

  lemma SextetsOfTwo(a: Sextet, b: Sextet)
    ensures Sextets(Bytes([a, b])) == [a, b] <==> b % 16 == 0
  {
    hide A, B, C, E, X, Y, Z;
    GroupBack(a, b, 0, 0);
    assert Sextets([X(a, b)]) == [a, B(X(a, b), 0)];
  }

  lemma SextetsOfThree(a: Sextet, b: Sextet, c: Sextet)
    ensures Sextets(Bytes([a, b, c])) == [a, b, c] <==> c % 4 == 0
  {
    hide A, B, C, E, X, Y, Z;
    GroupBack(a, b, c, 0);
    assert Sextets([X(a, b), Y(b, c)]) == [a, b, C(Y(b, c), 0)];
  }

  lemma SextetsOfNone(v: seq<Sextet>)
    requires |v| < 2
    ensures Sextets(Bytes(v)) == []
  {
  }

  lemma CanonicalShort(a: Sextet, b: Sextet, c: Sextet)
    ensures Canonical([]) && !Canonical([a])
    ensures Canonical([a, b]) <==> b % 16 == 0
    ensures Canonical([a, b, c]) <==> c % 4 == 0
  {
  }

  lemma SextetsOfShort(v: seq<Sextet>)
    requires |v| < 4
    ensures Sextets(Bytes(v)) == v <==> Canonical(v)
  {
    hide Sextets, Bytes, Canonical;
    CanonicalShort(if |v| > 0 then v[0] else 0, if |v| > 1 then v[1] else 0, if |v| > 2 then v[2] else 0);
    if |v| < 2 {
      SextetsOfNone(v);
      assert v == [] || v == [v[0]];
    } else if |v| == 2 {
      assert v == [v[0], v[1]];
      SextetsOfTwo(v[0], v[1]);
    } else {
      assert v == [v[0], v[1], v[2]];
      SextetsOfThree(v[0], v[1], v[2]);
    }
  }

  /** Reading, then writing: the same text exactly when it was canonical. */
  lemma {:induction false} SextetsOfBytes(v: seq<Sextet>)
    ensures Sextets(Bytes(v)) == v <==> Canonical(v)
  {
    hide A, B, C, E, X, Y, Z, Sextets, Bytes, Canonical;
    if |v| < 4 {
      SextetsOfShort(v);
    } else {
      var a, b, c, e, rest := v[0], v[1], v[2], v[3], v[4..];
      SextetsOfBytes(rest);
      assert v == [a, b, c, e] + rest;
      GroupBack(a, b, c, e);
      BytesOfGroup(a, b, c, e, rest);
      SextetsOfGroup(X(a, b), Y(b, c), Z(c, e), Bytes(rest));
      SamePrefix([a, b, c, e], Sextets(Bytes(rest)), rest);
      CanonicalRest([a, b, c, e], rest);
    }
  }

  // ---------- symbols ----------

  /** The first 62 symbols of both alphabets. */
  function Alphanumeric(v: Sextet): (c: char)
    requires v < 62
    ensures 'A' <= c <= 'Z' || 'a' <= c <= 'z' || '0' <= c <= '9'
  {
    if v < 26 then 'A' + v as char else if v < 52 then 'a' + (v - 26) as char else '0' + (v - 52) as char
  }

  /** Table 1 of RFC 4648. */
  function Symbol(v: Sextet): char {
    if v == 62 then '+' else if v == 63 then '/' else Alphanumeric(v)
  }

  /** Table 2 of RFC 4648. */
  function UrlSymbol(v: Sextet): char {
    if v == 62 then '-' else if v == 63 then '_' else Alphanumeric(v)
  }

  /** What a symbol of table 1 stands for. */
  function Value(c: char): Option<Sextet> {
    if 'A' <= c <= 'Z' then Some(c as int - 'A' as int)
    else if 'a' <= c <= 'z' then Some(c as int - 'a' as int + 26)
    else if '0' <= c <= '9' then Some(c as int - '0' as int + 52)
    else if c == '+' then Some(62)
    else if c == '/' then Some(63)
    else None
  }

  lemma ValueOfSymbol(v: Sextet)
    ensures Value(Symbol(v)) == Some(v) && Symbol(v) != '='
  {
  }

  predicate UrlSafe(c: char) {
    'A' <= c <= 'Z' || 'a' <= c <= 'z' || '0' <= c <= '9' || c == '-' || c == '_'
  }

  // ---------- the texts ----------

  function Symbols(v: seq<Sextet>): (s: string)
    ensures |s| == |v| && forall i :: 0 <= i < |v| ==> s[i] == Symbol(v[i])
  {
    seq(|v|, i requires 0 <= i < |v| => Symbol(v[i]))
  }

  /** The padding after n symbols. */
  function Pads(n: nat): (s: string)
    ensures |s| == (4 - n % 4) % 4 && forall i :: 0 <= i < |s| ==> s[i] == '='
  {
    seq((4 - n % 4) % 4, _ => '=')
  }

  /** What the library writes: section 4. */
  function Base64(d: seq<Byte>): string {
    Symbols(Sextets(d)) + Pads(|Sextets(d)|)
  }

  /** What `encode` promises: section 5, unpadded. */
  function Encoded(d: seq<Byte>): (s: string)
    ensures |s| == |Sextets(d)| && forall i :: 0 <= i < |s| ==> s[i] == UrlSymbol(Sextets(d)[i]) && UrlSafe(s[i])
  {
    var v := Sextets(d);
    seq(|v|, i requires 0 <= i < |v| => UrlSymbol(v[i]))
  }

  /** The padding of a text, at most two signs. */
  function Padding(s: string): (n: nat)
    ensures n <= |s| && n <= 2
  {
    if |s| >= 2 && s[|s| - 1] == '=' && s[|s| - 2] == '=' then 2 else if |s| >= 1 && s[|s| - 1] == '=' then 1 else 0
  }

  predicate AllSymbols(s: string) {
    forall i :: 0 <= i < |s| ==> Value(s[i]).Some?
  }

  function Values(s: string): (v: seq<Sextet>)
    requires AllSymbols(s)
    ensures |v| == |s| && forall i :: 0 <= i < |s| ==> v[i] == Value(s[i]).value
  {
    seq(|s|, i requires 0 <= i < |s| => Value(s[i]).value)
  }

  /** What the library reads from a text that is one of section 4. */
  function Read(s: string): Option<seq<Byte>> {
    var body := s[..|s| - Padding(s)];
    if s != "" && |s| % 4 == 0 && AllSymbols(body) then Some(Bytes(Values(body))) else None
  }

  /** Reading symbols with their padding. */
  lemma ReadSymbols(v: seq<Sextet>, s: string)
    requires v != [] && |v| % 4 != 1 && s == Symbols(v) + Pads(|v|)
    ensures Read(s) == Some(Bytes(v))
  {
    hide Bytes, Symbol, Value;
    forall i | 0 <= i < |v| ensures s[i] == Symbol(v[i]) && s[i] != '=' && Value(s[i]) == Some(v[i]) {
      ValueOfSymbol(v[i]);
    }
    assert Padding(s) == |Pads(|v|)|;
    assert Values(s[..|v|]) == v;
  }

  lemma SextetsFillGroups(d: seq<Byte>)
    ensures |Sextets(d)| % 4 != 1 && (d != [] ==> Sextets(d) != [])
  {
    hide Sextets;
    assert |d| == 3 * (|d| / 3) + |d| % 3;
  }

  /** Reading is the inverse of writing. */
  lemma ReadBase64(d: seq<Byte>)
    requires d != []
    ensures Read(Base64(d)) == Some(d)
  {
    hide Read, Sextets, Bytes;
    SextetsFillGroups(d);
    ReadSymbols(Sextets(d), Base64(d));
    BytesOfSextets(d);
  }

  // ---------- between the alphabets ----------

  function ToUrl(c: char): char {
    if c == '+' then '-' else if c == '/' then '_' else c
  }

  function FromUrl(c: char): char {
    if c == '-' then '+' else if c == '_' then '/' else c
  }

  /** A text of section 5 with its symbols replaced and its padding put back. */
  function Restored(s: string): string {
    seq(|s|, i requires 0 <= i < |s| => FromUrl(s[i])) + Pads(|s|)
  }

  /** What `decode` returns. */
  function Decoded(s: string, other: string -> Option<seq<Byte>>): Option<seq<Byte>> {
    var d := Read(Restored(s));
    if d.Some? then d else other(Restored(s))
  }

  /** Restoring the encoded text gives what the library wrote. */
  lemma RestoredIsBase64(d: seq<Byte>)
    ensures Restored(Encoded(d)) == Base64(d)
  {
    var v := Sextets(d);
    forall i | 0 <= i < |v| ensures FromUrl(Encoded(d)[i]) == Symbol(v[i]) {
    }
    assert Restored(Encoded(d)) == Base64(d);
  }

  /** decode undoes encode for every non-empty string of bytes. */
  lemma RoundTrip(d: seq<Byte>, other: string -> Option<seq<Byte>>)
    requires d != []
    ensures Decoded(Encoded(d), other) == Some(d)
  {
    RestoredIsBase64(d);
    ReadBase64(d);
  }

  /** So different bytes have different texts. */
  lemma EncodedIsInjective(d: seq<Byte>, e: seq<Byte>)
    requires Encoded(d) == Encoded(e)
    ensures d == e
  {
    var other := (_: string) => None;
    if d != [] && e != [] {
      RoundTrip(d, other);
      RoundTrip(e, other);
    }
  }

  /** What decode makes of a text over the symbols of section 5. */
  lemma DecodedIsBytes(v: seq<Sextet>, s: string, other: string -> Option<seq<Byte>>)
    requires s != "" && |s| == |v| && |v| % 4 != 1 && forall i :: 0 <= i < |v| ==> s[i] == UrlSymbol(v[i])
    ensures Decoded(s, other) == Some(Bytes(v))
  {
    hide Bytes, Read, Pads;
    assert forall i :: 0 <= i < |v| ==> FromUrl(s[i]) == Symbol(v[i]);
    assert Restored(s) == Symbols(v) + Pads(|v|);
    ReadSymbols(v, Restored(s));
  }

  lemma UrlSymbolIsInjective(v: Sextet, w: Sextet)
    requires UrlSymbol(v) == UrlSymbol(w)
    ensures v == w
  {
    ValueOfSymbol(v);
    ValueOfSymbol(w);
  }

  /** encode undoes decode exactly for the canonical texts over the symbols of section 5. */
  lemma ReencodedIsSame(v: seq<Sextet>, s: string, other: string -> Option<seq<Byte>>)
    requires s != "" && |s| == |v| && |v| % 4 != 1 && forall i :: 0 <= i < |v| ==> s[i] == UrlSymbol(v[i])
    ensures Decoded(s, other).Some? && (Encoded(Decoded(s, other).value) == s <==> Canonical(v))
  {
    hide Bytes, Sextets, Canonical, Decoded, UrlSymbol;
    DecodedIsBytes(v, s, other);
    SextetsOfBytes(v);
    var w := Sextets(Bytes(v));
    if Encoded(Bytes(v)) == s {
      forall i | 0 <= i < |v| ensures w[i] == v[i] {
        assert UrlSymbol(w[i]) == UrlSymbol(v[i]);
        UrlSymbolIsInjective(w[i], v[i]);
      }
      assert w == v;
    }
  }

  // ---------- the two routines ----------

  /** encode: replace the symbols in place, then erase the padding. */
  method Encode(d: seq<Byte>) returns (out: string)
    ensures out == Encoded(d)
  {
    out := Base64(d);
    var n := |out|;
    for i := 0 to n
      invariant |out| == n
      invariant forall k :: 0 <= k < n ==> out[k] == if k < i then ToUrl(Base64(d)[k]) else Base64(d)[k]
    {
      if out[i] == '+' {
        out := out[i := '-'];
      } else if out[i] == '/' {
        out := out[i := '_'];
      }
    }
    ghost var m := |Sextets(d)|;
    assert forall k :: 0 <= k < n ==> out[k] == if k < m then Encoded(d)[k] else '=';
    // std::remove: the kept characters move to the front, and the rest is erased.
    var kept, j := 0, 0;
    while j < n
      invariant j <= n && |out| == n && kept == if j < m then j else m
      invariant forall k :: 0 <= k < n ==> out[k] == if k < m then Encoded(d)[k] else '='
    {
      if out[j] != '=' {
        out := out[kept := out[j]];
        kept := kept + 1;
      }
      j := j + 1;
    }
    out := out[..kept];
  }

  /** decode: replace the symbols in place, pad, and read. */
  method Decode(s: string, other: string -> Option<seq<Byte>>) returns (out: Option<seq<Byte>>)
    ensures out == Decoded(s, other)
    ensures forall d: seq<Byte> :: d != [] && s == Encoded(d) ==> out == Some(d)
  {
    var text := s;
    for i := 0 to |s|
      invariant |text| == |s|
      invariant forall k :: 0 <= k < |s| ==> text[k] == if k < i then FromUrl(s[k]) else s[k]
    {
      if text[i] == '-' {
        text := text[i := '+'];
      } else if text[i] == '_' {
        text := text[i := '/'];
      }
    }
    while |text| % 4 != 0
      invariant |s| <= |text| <= |Restored(s)|
      invariant text == Restored(s)[..|text|]
      decreases |Restored(s)| - |text|
    {
      text := text + "=";
    }
    assert text == Restored(s);
    out := Read(text);
    if out.None? {
      out := other(text);
    }
    forall d: seq<Byte> | d != [] && s == Encoded(d) ensures out == Some(d) {
      RoundTrip(d, other);
    }
  }
}

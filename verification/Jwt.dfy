/**
 Tokens in the compact form of RFC 7515, section 7.1: header, payload and signature, each
 in base64url, with dots between.

 JSON (dump and parse), the signature of HS256 and what the base64 reader makes of malformed
 text are parameters. All that is assumed, where it is needed, is in Trusted: parse undoes dump,
 and no dump and no signature is empty.
 */
module Jwt {
  import opened Base64Url

  datatype Error = InvalidFormat | InvalidText | InvalidSignature | InvalidJson
  datatype Result<J> = Ok(value: J) | Err(error: Error)

  datatype Codec<!J> = Codec(dump: J -> seq<Byte>, parse: seq<Byte> -> Option<J>)
  datatype Reader = Reader(sign: string -> seq<Byte>, malformed: string -> Option<seq<Byte>>)

  ghost predicate Trusted<J(!new)>(json: Codec<J>, r: Reader) {
    && (forall j: J :: json.dump(j) != [] && json.parse(json.dump(j)) == Some(j))
    && forall s: string :: r.sign(s) != []
  }

  // ---------- segments ----------

  predicate NoDot(s: string) {
    forall i :: 0 <= i < |s| ==> s[i] != '.'
  }

  function Join(h: string, p: string, s: string): string {
    h + "." + p + "." + s
  }

  /** std::string::find. */
  function Find(s: string, c: char, from: nat): (r: Option<nat>)
    ensures r.Some? ==> from <= r.value < |s| && s[r.value] == c && forall i :: from <= i < r.value ==> s[i] != c
    ensures r.None? ==> forall i :: from <= i < |s| ==> s[i] != c
    decreases |s| - from
  {
    if from >= |s| then None else if s[from] == c then Some(from) else Find(s, c, from + 1)
  }

  /** The number of dots. */
  function Dots(s: string): nat {
    if s == "" then 0 else (if s[0] == '.' then 1 else 0) + Dots(s[1..])
  }

  /** The dots from a place on: those found one after the other. */
  lemma {:induction false} DotsFrom(s: string, from: nat)
    requires from <= |s|
    ensures match Find(s, '.', from)
            case None => Dots(s[from..]) == 0
            case Some(k) => Dots(s[from..]) == 1 + Dots(s[k + 1..])
    decreases |s| - from
  {
    if from < |s| {
      assert s[from..][1..] == s[from + 1..];
      if s[from] != '.' {
        DotsFrom(s, from + 1);
      }
    }
  }

  lemma FindIs(s: string, from: nat, k: nat)
    requires from <= k < |s| && s[k] == '.' && forall i :: from <= i < k ==> s[i] != '.'
    ensures Find(s, '.', from) == Some(k)
  {
    hide Find;
  }

  /** The segments of a joined text are its slices. */
  lemma Slices(h: string, p: string, s: string)
    ensures var t, k := Join(h, p, s), |h| + 1 + |p|;
      && |t| == k + 1 + |s| && t[|h|] == '.' && t[k] == '.'
      && t[..|h|] == h && t[|h| + 1..k] == p && t[k + 1..] == s
  {
  }

  lemma JoinOfSlices(t: string, i: nat, k: nat)
    requires i < k < |t| && Find(t, '.', 0) == Some(i) && Find(t, '.', i + 1) == Some(k)
    ensures NoDot(t[..i]) && NoDot(t[i + 1..k]) && t == Join(t[..i], t[i + 1..k], t[k + 1..])
  {
    hide Find;
    assert t == t[..i] + [t[i]] + t[i + 1..k] + [t[k]] + t[k + 1..];
  }

  /** The two dots found are where the segments end, whatever the third one is. */
  lemma SegmentsAreUnique(h: string, p: string, s: string)
    requires NoDot(h) && NoDot(p)
    ensures Find(Join(h, p, s), '.', 0) == Some(|h|)
    ensures Find(Join(h, p, s), '.', |h| + 1) == Some(|h| + 1 + |p|)
  {
    hide Find, Join;
    var t := Join(h, p, s);
    Slices(h, p, s);
    forall i | 0 <= i < |h| ensures t[i] != '.' {
      assert t[..|h|][i] == h[i];
    }
    FindIs(t, 0, |h|);
    forall i | |h| + 1 <= i < |h| + 1 + |p| ensures t[i] != '.' {
      assert t[|h| + 1..|h| + 1 + |p|][i - |h| - 1] == p[i - |h| - 1];
    }
    FindIs(t, |h| + 1, |h| + 1 + |p|);
  }

  lemma DotsOfJoin(h: string, p: string, s: string)
    requires NoDot(h) && NoDot(p)
    ensures Dots(Join(h, p, s)) == 2 + Dots(s)
  {
    hide Find, Join, NoDot, Dots;
    var t := Join(h, p, s);
    SegmentsAreUnique(h, p, s);
    Slices(h, p, s);
    DotsFrom(t, 0);
    assert t[0..] == t;
    DotsFrom(t, |h| + 1);
  }

  lemma NoDots(s: string)
    requires NoDot(s)
    ensures Dots(s) == 0
  {
    hide Dots;
    DotsFrom(s, 0);
    assert s[0..] == s;
  }

  lemma FormatByFind(token: string)
    ensures Dots(token) >= 2 <==> var f := Find(token, '.', 0); f.Some? && Find(token, '.', f.value + 1).Some?
  {
    hide Find;
    DotsFrom(token, 0);
    assert token[0..] == token;
    var f := Find(token, '.', 0);
    if f.Some? {
      DotsFrom(token, f.value + 1);
    }
  }

  // ---------- what the two routines compute ----------

  function Data<J>(header: J, payload: J, json: Codec<J>): string {
    Encoded(json.dump(header)) + "." + Encoded(json.dump(payload))
  }

  function Token<J>(header: J, payload: J, json: Codec<J>, r: Reader): string {
    Data(header, payload, json) + "." + Encoded(r.sign(Data(header, payload, json)))
  }

  /** h, p and s are the segments of the token: the first two have no dot. */
  ghost predicate IsSplit(token: string, h: string, p: string, s: string) {
    NoDot(h) && NoDot(p) && token == Join(h, p, s)
  }

  /** All three segments can be read. */
  predicate Readable(h: string, p: string, s: string, r: Reader) {
    Decoded(h, r.malformed).Some? && Decoded(p, r.malformed).Some? && Decoded(s, r.malformed).Some?
  }

  /** The last segment is the signature of the text of the other two. */
  predicate IsSigned(h: string, p: string, s: string, r: Reader) {
    Decoded(s, r.malformed) == Some(r.sign(h + "." + p))
  }

  /**
   What the three segments must be for each result: the payload's value only if all can be read, the last is the signature
   of the others, if that is asked for, and the payload is JSON; and each error exactly if the first thing that fails is its.
   */
  ghost predicate IsAnswer<J>(result: Result<J>, h: string, p: string, s: string, json: Codec<J>, r: Reader, verify: bool) {
    var trusted := Readable(h, p, s, r) && (verify ==> IsSigned(h, p, s, r));
    && (result == Err(InvalidText) <==> !Readable(h, p, s, r))
    && (result == Err(InvalidSignature) <==> Readable(h, p, s, r) && verify && !IsSigned(h, p, s, r))
    && (result == Err(InvalidJson) <==> trusted && json.parse(Decoded(p, r.malformed).value).None?)
    && (result.Ok? <==> trusted && json.parse(Decoded(p, r.malformed).value).Some?)
    && (result.Ok? ==> json.parse(Decoded(p, r.malformed).value) == Some(result.value))
  }

  /** The payload of three segments. */
  function Opened<J>(h: string, p: string, s: string, json: Codec<J>, r: Reader, verify: bool): Result<J> {
    var payload, signature := Decoded(p, r.malformed), Decoded(s, r.malformed);
    if Decoded(h, r.malformed).None? || payload.None? || signature.None? then Err(InvalidText)
    else if verify && r.sign(h + "." + p) != signature.value then Err(InvalidSignature)
    else
      match json.parse(payload.value)
      case Some(j) => Ok(j)
      case None => Err(InvalidJson)
  }

  /** A segment that stands for d: url-safe symbols, six bits each, that are read back as d. */
  ghost predicate Carries(text: string, d: seq<Byte>, r: Reader) {
    && |text| == |d| + |d| / 3 + (if |d| % 3 == 0 then 0 else 1)
    && (forall i :: 0 <= i < |text| ==> UrlSafe(text[i]))
    && (d != [] ==> Decoded(text, r.malformed) == Some(d))
  }

  /**
   jwt::create: the token has two dots, and so one split into segments; they carry the header, the payload and the
   signature of the text of the two.
   */
  method Create<J>(header: J, payload: J, json: Codec<J>, r: Reader) returns (token: string)
    ensures token == Token(header, payload, json, r)
    ensures Dots(token) == 2
    ensures forall h, p, s :: NoDot(h) && NoDot(p) && token == Join(h, p, s) ==>
              && Carries(h, json.dump(header), r) && Carries(p, json.dump(payload), r)
              && Carries(s, r.sign(h + "." + p), r)
  {
    TokenHasThreeSegments(header, payload, json, r);
    forall h, p, s | NoDot(h) && NoDot(p) && Token(header, payload, json, r) == Join(h, p, s)
      ensures Carries(h, json.dump(header), r) && Carries(p, json.dump(payload), r) && Carries(s, r.sign(h + "." + p), r)
    {
      TokenSegments(header, payload, json, r, h, p, s);
    }
    var header64 := Encode(json.dump(header));
    var payload64 := Encode(json.dump(payload));
    var data := header64 + "." + payload64;
    var signature := Encode(r.sign(data));
    token := data + "." + signature;
  }

  /** The part of decode that follows the search for the dots. */
  method Open<J>(h: string, p: string, s: string, json: Codec<J>, r: Reader, verify: bool) returns (result: Result<J>)
    ensures IsAnswer(result, h, p, s, json, r, verify) && result == Opened(h, p, s, json, r, verify)
    ensures result != Err(InvalidFormat)
  {
    hide Decoded, Encoded;
    var headerJson := Base64Url.Decode(h, r.malformed);
    var payloadJson := Base64Url.Decode(p, r.malformed);
    var signature := Base64Url.Decode(s, r.malformed);
    if headerJson.None? || payloadJson.None? || signature.None? {
      return Err(InvalidText);
    }
    if verify {
      var data := h + "." + p;
      if r.sign(data) != signature.value {
        return Err(InvalidSignature);
      }
    }
    match json.parse(payloadJson.value) {
      case Some(j) => result := Ok(j);
      case None => result := Err(InvalidJson);
    }
  }

  /**
   jwt::decode: fewer than two dots are an invalid format; anything else has three segments in exactly one way, the
   first two without dots, and they decide the result.
   */
  method Decode<J>(token: string, json: Codec<J>, r: Reader, verify: bool) returns (result: Result<J>)
    ensures result == Err(InvalidFormat) <==> Dots(token) < 2
    ensures Dots(token) >= 2 ==> exists h, p, s :: IsSplit(token, h, p, s)
    ensures forall h, p, s :: IsSplit(token, h, p, s) ==>
              IsAnswer(result, h, p, s, json, r, verify) && result == Opened(h, p, s, json, r, verify)
  {
    hide Find, Join, Dots, NoDot, Decoded, IsAnswer, Opened;
    var first := Find(token, '.', 0);
    var second := Find(token, '.', if first.Some? then first.value + 1 else 0);
    FormatByFind(token);
    forall h, p, s | IsSplit(token, h, p, s)
      ensures first == Some(|h|) && second == Some(|h| + 1 + |p|)
      ensures h == token[..|h|] && p == token[|h| + 1..|h| + 1 + |p|] && s == token[|h| + 1 + |p| + 1..]
    {
      SegmentsAreUnique(h, p, s);
      Slices(h, p, s);
    }
    if first.None? || second.None? {
      return Err(InvalidFormat);
    }
    var header64 := token[..first.value];
    var payload64 := token[first.value + 1..second.value];
    var signature64 := token[second.value + 1..];
    JoinOfSlices(token, first.value, second.value);
    assert IsSplit(token, header64, payload64, signature64);
    result := Open(header64, payload64, signature64, json, r, verify);
  }

  // ---------- what is promised ----------

  lemma EncodedCarries(d: seq<Byte>, r: Reader)
    ensures Carries(Encoded(d), d, r)
  {
    if d != [] {
      RoundTrip(d, r.malformed);
    }
  }

  /** Two splits of the same text at its first two dots are the same. */
  lemma SameSegments(h: string, p: string, s: string, h': string, p': string, s': string)
    requires NoDot(h) && NoDot(p) && NoDot(h') && NoDot(p') && Join(h, p, s) == Join(h', p', s')
    ensures h == h' && p == p' && s == s'
  {
    hide Find, Join, NoDot;
    SegmentsAreUnique(h, p, s);
    SegmentsAreUnique(h', p', s');
    Slices(h, p, s);
    Slices(h', p', s');
  }

  lemma TokenSegments<J>(header: J, payload: J, json: Codec<J>, r: Reader, h: string, p: string, s: string)
    requires NoDot(h) && NoDot(p) && Token(header, payload, json, r) == Join(h, p, s)
    ensures Carries(h, json.dump(header), r) && Carries(p, json.dump(payload), r) && Carries(s, r.sign(h + "." + p), r)
  {
    hide Join, NoDot, Carries, Token;
    var h0, p0 := Encoded(json.dump(header)), Encoded(json.dump(payload));
    var s0 := Encoded(r.sign(h0 + "." + p0));
    TokenHasThreeSegments(header, payload, json, r);
    SameSegments(h0, p0, s0, h, p, s);
    EncodedCarries(json.dump(header), r);
    EncodedCarries(json.dump(payload), r);
    EncodedCarries(r.sign(h + "." + p), r);
  }

  /** A created token has exactly two dots: no segment has one. */
  lemma TokenHasThreeSegments<J>(header: J, payload: J, json: Codec<J>, r: Reader)
    ensures var h, p := Encoded(json.dump(header)), Encoded(json.dump(payload));
      var s := Encoded(r.sign(h + "." + p));
      NoDot(h) && NoDot(p) && NoDot(s) && Token(header, payload, json, r) == Join(h, p, s)
    ensures Dots(Token(header, payload, json, r)) == 2
  {
    var h, p := Encoded(json.dump(header)), Encoded(json.dump(payload));
    var s := Encoded(r.sign(h + "." + p));
    DotsOfJoin(h, p, s);
    NoDots(s);
  }

  /** decode gives back what create was given, whether or not it verifies. */
  lemma TokenRoundTrip<J(!new)>(header: J, payload: J, json: Codec<J>, r: Reader, verify: bool)
    requires Trusted(json, r)
    ensures var h, p := Encoded(json.dump(header)), Encoded(json.dump(payload));
      Opened(h, p, Encoded(r.sign(h + "." + p)), json, r, verify) == Ok(payload)
  {
    hide Encoded, Decoded;
    var h, p := Encoded(json.dump(header)), Encoded(json.dump(payload));
    RoundTrip(json.dump(header), r.malformed);
    RoundTrip(json.dump(payload), r.malformed);
    RoundTrip(r.sign(h + "." + p), r.malformed);
  }

  /** The same for the two routines. */
  method CreateThenDecode<J(!new)>(header: J, payload: J, json: Codec<J>, r: Reader, verify: bool) returns (result: Result<J>)
    requires Trusted(json, r)
    ensures result == Ok(payload)
  {
    var token := Create(header, payload, json, r);
    TokenHasThreeSegments(header, payload, json, r);
    TokenRoundTrip(header, payload, json, r, verify);
    result := Decode(token, json, r, verify);
  }

  /** Other bytes for a payload, under the old signature, are refused for it exactly when the two texts are signed differently. */
  lemma ReplacedPayload<J(!new)>(header: J, payload: J, other: seq<Byte>, json: Codec<J>, r: Reader)
    requires Trusted(json, r) && other != []
    ensures var h, p := Encoded(json.dump(header)), Encoded(other);
      var data := Data(header, payload, json);
      Opened(h, p, Encoded(r.sign(data)), json, r, true) == Err(InvalidSignature) <==> r.sign(h + "." + p) != r.sign(data)
  {
    hide Encoded, Decoded;
    RoundTrip(json.dump(header), r.malformed);
    RoundTrip(other, r.malformed);
    RoundTrip(r.sign(Data(header, payload, json)), r.malformed);
  }

  /** A token created under one key is accepted under another exactly when the two keys sign its text in the same way. */
  method CreateThenDecodeUnder<J(!new)>(header: J, payload: J, json: Codec<J>, maker: Reader, r: Reader)
    returns (result: Result<J>)
    requires Trusted(json, maker) && Trusted(json, r)
    ensures var data := Data(header, payload, json);
      result == if r.sign(data) == maker.sign(data) then Ok(payload) else Err(InvalidSignature)
  {
    var token := Create(header, payload, json, maker);
    TokenHasThreeSegments(header, payload, json, maker);
    ghost var data := Data(header, payload, json);
    ghost var h, p, s := Encoded(json.dump(header)), Encoded(json.dump(payload)), Encoded(maker.sign(data));
    RoundTrip(json.dump(header), r.malformed);
    RoundTrip(json.dump(payload), r.malformed);
    RoundTrip(maker.sign(data), r.malformed);
    assert IsSplit(token, h, p, s);
    result := Decode(token, json, r, true);
  }

  /** More than two dots are not refused as such: with a reader that accepts the text after the second dot, the token is opened. */
  lemma MoreDotsAreAccepted<J(!new)>(header: J, payload: J, json: Codec<J>, r: Reader, h: string, p: string, s: string)
    requires Trusted(json, r) && h == Encoded(json.dump(header)) && p == Encoded(json.dump(payload))
    requires Dots(s) > 0 && Decoded(s, r.malformed).Some?
    ensures Dots(Join(h, p, s)) > 2 && NoDot(h) && NoDot(p)
    ensures Opened(h, p, s, json, r, false) == Ok(payload)
  {
    hide Dots, Decoded;
    RoundTrip(json.dump(header), r.malformed);
    RoundTrip(json.dump(payload), r.malformed);
    DotsOfJoin(h, p, s);
  }
}

/**
 Presigned object-store URLs (AWS Signature Version 4 in the query string). Texts are given by their UTF-8 encoding,
 one character per byte; hashing and key derivation are parameters.
 */
module Presign {
  import opened Prelude
  import opened Text

  predicate IsUtf8(s: string) {
    forall i :: 0 <= i < |s| ==> s[i] as int < 256
  }

  type Utf8 = s: string | IsUtf8(s)

  // ----- percent encoding, sections 2.1 and 2.3 of RFC 3986 -----

  predicate Unreserved(c: char) {
    || 'A' <= c <= 'Z' || 'a' <= c <= 'z' || '0' <= c <= '9'
    || c == '-' || c == '.' || c == '_' || c == '~'
  }

  function HexDigit(d: nat): char
    requires d < 16
  {
    if d < 10 then ('0' as int + d) as char else ('A' as int + d - 10) as char
  }

  function HexValue(c: char): Option<nat> {
    if '0' <= c <= '9' then Some(c as int - '0' as int)
    else if 'A' <= c <= 'F' then Some(c as int - 'A' as int + 10)
    else if 'a' <= c <= 'f' then Some(c as int - 'a' as int + 10)
    else None
  }

  function EncodeChar(c: char): string
    requires c as int < 256
  {
    if Unreserved(c) then [c] else ['%', HexDigit(c as int / 16), HexDigit(c as int % 16)]
  }

  /** Every byte but the unreserved characters, the slash included. */
  function Encode(s: Utf8): string {
    if s == "" then "" else EncodeChar(s[0]) + Encode(s[1..])
  }

  function Decode(s: string): Option<string> {
    if s == "" then Some("")
    else if s[0] == '%' then
      if |s| < 3 || HexValue(s[1]).None? || HexValue(s[2]).None? then None
      else
        match Decode(s[3..])
        case None => None
        case Some(rest) => Some([(16 * HexValue(s[1]).value + HexValue(s[2]).value) as char] + rest)
    else
      match Decode(s[1..])
      case None => None
      case Some(rest) => Some([s[0]] + rest)
  }

  lemma DecodeChar(c: char, rest: string)
    requires c as int < 256
    ensures Decode(EncodeChar(c) + rest) == match Decode(rest)
                                            case None => None
                                            case Some(r) => Some([c] + r)
  {
    var s := EncodeChar(c) + rest;
    if Unreserved(c) {
      assert s[1..] == rest;
    } else {
      assert s[3..] == rest;
      assert (16 * (c as int / 16) + c as int % 16) as char == c;
    }
  }

  /** Decoding inverts encoding, also in front of anything else. */
  lemma {:induction false} DecodeEncode(s: Utf8, rest: string)
    ensures Decode(Encode(s) + rest) == match Decode(rest) case None => None case Some(r) => Some(s + r)
  {
    if s == "" {
      assert Encode(s) + rest == rest;
      assert Decode(rest).Some? ==> "" + Decode(rest).value == Decode(rest).value;
    } else {
      DecodeEncode(s[1..], rest);
      DecodeChar(s[0], Encode(s[1..]) + rest);
      Associative(EncodeChar(s[0]), Encode(s[1..]), rest);
      assert [s[0]] + s[1..] == s;
      if Decode(rest).Some? {
        Associative([s[0]], s[1..], Decode(rest).value);
      }
    }
  }

  predicate Plain(s: string) {
    forall i :: 0 <= i < |s| ==> Unreserved(s[i]) || s[i] == '%'
  }

  /** What encoding leaves is safe everywhere in a URL. */
  lemma {:induction false} EncodeIsPlain(s: Utf8)
    ensures Plain(Encode(s))
  {
    if s != "" {
      EncodeIsPlain(s[1..]);
    }
  }

  /** ALPHA and DIGIT of RFC 5234, and the hyphen, full stop, underscore and tilde of section 2.3 of RFC 3986. */
  predicate PassesUnchanged(c: char) {
    var code := c as int;
    0x41 <= code <= 0x5A || 0x61 <= code <= 0x7A || 0x30 <= code <= 0x39 || code in {0x2D, 0x2E, 0x5F, 0x7E}
  }

  /** Section 2.1: every other byte becomes a percent sign and its two hex digits, upper-case. */
  lemma EncodedByte(c: char)
    requires c as int < 256 && !PassesUnchanged(c)
    ensures |Encode([c])| == 3 && Encode([c])[0] == '%'
    ensures var digits := "0123456789ABCDEF";
            exists h: nat, l: nat :: h < 16 && l < 16 && Encode([c])[1] == digits[h] && Encode([c])[2] == digits[l]
                                     && 16 * h + l == c as int
  {
    var digits, h, l := "0123456789ABCDEF", c as int / 16, c as int % 16;
    assert [c][1..] == "";
    assert Encode([c]) == EncodeChar(c) + "";
    HexDigitIs(h);
    HexDigitIs(l);
    assert Encode([c])[1] == digits[h] && Encode([c])[2] == digits[l] && 16 * h + l == c as int;
  }

  lemma PlainByte(c: char)
    requires PassesUnchanged(c)
    ensures Encode([c]) == [c]
  {
    assert [c][1..] == "";
    assert Encode([c]) == EncodeChar(c) + "";
  }

  lemma HexDigitIs(d: nat)
    requires d < 16
    ensures HexDigit(d) == "0123456789ABCDEF"[d]
  {
  }

  /** Encoding goes byte by byte. */
  lemma {:induction false} EncodeConcat(a: Utf8, b: Utf8)
    requires IsUtf8(a + b)
    ensures Encode(a + b) == Encode(a) + Encode(b)
  {
    if a == "" {
      assert a + b == b;
    } else {
      EncodeConcat(a[1..], b);
      assert (a + b)[1..] == a[1..] + b;
    }
  }

  // ----- paths -----

  function EncodeAll(parts: seq<string>): seq<string>
    requires forall p :: p in parts ==> IsUtf8(p)
  {
    if parts == [] then [] else [Encode(parts[0])] + EncodeAll(parts[1..])
  }

  lemma {:induction false} SplitUtf8(s: Utf8, sep: char)
    ensures forall p :: p in Split(s, sep) ==> IsUtf8(p)
  {
    if s != "" {
      SplitUtf8(s[1..], sep);
      var rest := Split(s[1..], sep);
      assert rest[0] in rest;
      forall p | p in Split(s, sep) ensures IsUtf8(p) {
        assert p in rest || p == "" || p == [s[0]] + rest[0];
      }
    }
  }

  /** Every segment is encoded, the slashes between them stay. */
  function EncodePath(path: Utf8): string {
    SplitUtf8(path, '/');
    Join(EncodeAll(Split(path, '/')), '/')
  }

  lemma {:induction false} JoinSplit(s: string, sep: char)
    ensures Join(Split(s, sep), sep) == s
  {
    if s != "" {
      JoinSplit(s[1..], sep);
      var rest := Split(s[1..], sep);
      if s[0] == sep {
        assert ([""] + rest)[1..] == rest;
      } else if |rest| > 1 {
        assert ([[s[0]] + rest[0]] + rest[1..])[1..] == rest[1..];
      }
    }
  }

  lemma {:induction false} DecodeParts(parts: seq<string>, rest: string)
    requires parts != [] && forall p :: p in parts ==> IsUtf8(p)
    ensures Decode(Join(EncodeAll(parts), '/') + rest) ==
            match Decode(rest) case None => None case Some(r) => Some(Join(parts, '/') + r)
  {
    var first := parts[0];
    if |parts| == 1 {
      assert EncodeAll(parts) == [Encode(first)];
      DecodeEncode(first, rest);
    } else {
      var tail := Join(EncodeAll(parts[1..]), '/');
      DecodeParts(parts[1..], rest);
      assert EncodeAll(parts)[1..] == EncodeAll(parts[1..]);
      Regroup(Encode(first), tail, rest);
      DecodeEncode(first, ['/'] + (tail + rest));
      assert (['/'] + (tail + rest))[1..] == tail + rest;
      if Decode(rest).Some? {
        Regroup(first, Join(parts[1..], '/'), Decode(rest).value);
      }
    }
  }

  lemma Regroup(a: string, b: string, c: string)
    ensures (a + ['/'] + b) + c == a + (['/'] + (b + c))
  {
  }

  /** Decoding an encoded path gives the path back. */
  lemma DecodePath(path: Utf8, rest: string)
    ensures Decode(EncodePath(path) + rest) == match Decode(rest) case None => None case Some(r) => Some(path + r)
  {
    SplitUtf8(path, '/');
    DecodeParts(Split(path, '/'), rest);
    JoinSplit(path, '/');
  }

  // ----- the query -----

  type Params = seq<(string, string)>

  predicate Utf8Params(params: Params) {
    forall p :: p in params ==> IsUtf8(p.0) && IsUtf8(p.1)
  }

  function InsertParam(param: (string, string), sorted: Params): (r: Params)
    ensures multiset(r) == multiset(sorted) + multiset{param}
  {
    if sorted == [] || LexLeq(sorted[|sorted| - 1].0, param.0) then sorted + [param]
    else
      var init, last := sorted[..|sorted| - 1], sorted[|sorted| - 1];
      assert sorted == init + [last];
      InsertParam(param, init) + [last]
  }

  /** By name. */
  function SortParams(params: Params): (r: Params)
    ensures multiset(r) == multiset(params)
  {
    if params == [] then []
    else
      var init, last := params[..|params| - 1], params[|params| - 1];
      assert params == init + [last];
      InsertParam(last, SortParams(init))
  }

  predicate SortedByName(params: Params) {
    forall i, j :: 0 <= i < j < |params| ==> LexLeq(params[i].0, params[j].0)
  }

  lemma {:induction false} InsertSorted(param: (string, string), sorted: Params)
    requires SortedByName(sorted)
    ensures SortedByName(InsertParam(param, sorted))
    ensures forall p :: p in InsertParam(param, sorted) ==> p == param || p in sorted
  {
    if sorted != [] && !LexLeq(sorted[|sorted| - 1].0, param.0) {
      var init, last := sorted[..|sorted| - 1], sorted[|sorted| - 1];
      InsertSorted(param, init);
      LexTotal(last.0, param.0);
      forall i | 0 <= i < |InsertParam(param, init)| ensures LexLeq(InsertParam(param, init)[i].0, last.0) {
        assert InsertParam(param, init)[i] in InsertParam(param, init);
      }
    } else if sorted != [] {
      forall i | 0 <= i < |sorted| - 1 ensures LexLeq(sorted[i].0, param.0) {
        LexTransitive(sorted[i].0, sorted[|sorted| - 1].0, param.0);
      }
    }
  }

  /** By name indeed. */
  lemma {:induction false} SortParamsSorts(params: Params)
    ensures SortedByName(SortParams(params))
  {
    if params != [] {
      SortParamsSorts(params[..|params| - 1]);
      InsertSorted(params[|params| - 1], SortParams(params[..|params| - 1]));
    }
  }

  lemma {:induction false} SortedStays(params: Params)
    requires SortedByName(params)
    ensures SortParams(params) == params
  {
    if params != [] {
      var init, last := params[..|params| - 1], params[|params| - 1];
      assert params == init + [last];
      InsertLast(init, last, params);
      SortedStays(init);
    }
  }

  lemma InsertLast(init: Params, last: (string, string), params: Params)
    requires SortedByName(params) && params == init + [last]
    ensures InsertParam(last, init) == params
    ensures SortedByName(init)
  {
    assert params[|init|] == last && forall i :: 0 <= i < |init| ==> params[i] == init[i];
  }

  function Pair(param: (string, string)): string
    requires IsUtf8(param.0) && IsUtf8(param.1)
  {
    Encode(param.0) + "=" + Encode(param.1)
  }

  function Pairs(params: Params): (r: seq<string>)
    requires Utf8Params(params)
    ensures |r| == |params|
  {
    if params == [] then [] else [Pair(params[0])] + Pairs(params[1..])
  }

  lemma SortedUtf8(params: Params)
    requires Utf8Params(params)
    ensures Utf8Params(SortParams(params))
  {
    forall p | p in SortParams(params) ensures IsUtf8(p.0) && IsUtf8(p.1) {
      assert p in multiset(params);
    }
  }

  function CanonicalQuery(params: Params): string
    requires Utf8Params(params)
  {
    SortedUtf8(params);
    Join(Pairs(SortParams(params)), '&')
  }

  function ParsePair(s: string): Option<(string, string)> {
    match CutFirst(s, '=')
    case None => None
    case Some((key, value)) =>
      match (Decode(key), Decode(value))
      case (Some(k), Some(v)) => Some((k, v))
      case _ => None
  }

  function ParsePairs(parts: seq<string>): Option<Params> {
    if parts == [] then Some([])
    else
      match (ParsePair(parts[0]), ParsePairs(parts[1..]))
      case (Some(first), Some(rest)) => Some([first] + rest)
      case _ => None
  }

  function ParseQuery(query: string): Option<Params> {
    ParsePairs(Split(query, '&'))
  }

  lemma PlainHasNone(s: string, c: char)
    requires Plain(s) && !Unreserved(c) && c != '%'
    ensures c !in s
  {
  }

  lemma ParsePairOf(param: (string, string))
    requires IsUtf8(param.0) && IsUtf8(param.1)
    ensures ParsePair(Pair(param)) == Some(param) && '&' !in Pair(param)
  {
    EncodeIsPlain(param.0);
    EncodeIsPlain(param.1);
    PlainHasNone(Encode(param.0), '=');
    PlainHasNone(Encode(param.0), '&');
    PlainHasNone(Encode(param.1), '&');
    CutFirstOf(Encode(param.0), Encode(param.1), '=');
    DecodeWhole(param.0);
    DecodeWhole(param.1);
  }

  lemma DecodeWhole(s: Utf8)
    ensures Decode(Encode(s)) == Some(s)
  {
    DecodeEncode(s, "");
    assert Encode(s) + "" == Encode(s) && s + "" == s;
  }

  lemma {:induction false} ParsePairsOf(params: Params)
    requires Utf8Params(params)
    ensures ParsePairs(Pairs(params)) == Some(params)
    ensures forall p :: p in Pairs(params) ==> '&' !in p
  {
    if params != [] {
      var first, rest := params[0], params[1..];
      assert [first] + rest == params;
      ParsePairsOf(rest);
      ParsePairOf(first);
      ParsePairsCons(Pair(first), Pairs(rest), first, rest);
    }
  }

  lemma ParsePairsCons(first: string, rest: seq<string>, param: (string, string), params: Params)
    requires ParsePair(first) == Some(param) && ParsePairs(rest) == Some(params)
    ensures ParsePairs([first] + rest) == Some([param] + params)
  {
    assert ([first] + rest)[1..] == rest;
  }

  /** Parsing the canonical query gives the parameters back, in the order they were signed. */
  lemma ParseCanonicalQuery(params: Params)
    requires Utf8Params(params) && params != []
    ensures ParseQuery(CanonicalQuery(params)) == Some(SortParams(params))
  {
    SortedUtf8(params);
    var sorted := SortParams(params);
    assert |sorted| == |multiset(params)| == |params|;
    ParsePairsOf(sorted);
    SplitJoin(Pairs(sorted), '&');
  }

  // ----- signing -----

  /** Digests and signatures are lower-case hex; a digest of HMAC is bytes and can be a key again. */
  datatype Crypto = Crypto(sha256: string -> Oid, hmac: (Bytes, string) -> Bytes, hex: Bytes -> Oid)

  const ALGORITHM := "AWS4-HMAC-SHA256"

  function CanonicalRequest(httpMethod: string, uri: string, query: string, host: string): string {
    httpMethod + "\n" + uri + "\n" + query + "\n" + "host:" + host + "\n" + "\n" + "host" + "\n" + "UNSIGNED-PAYLOAD"
  }

  /** Line by line, as the signing standard lays a request out; so every field is covered by the signature. */
  lemma CanonicalRequestLines(httpMethod: string, uri: string, query: string, host: string)
    requires '\n' !in httpMethod && '\n' !in uri && '\n' !in query && '\n' !in host
    ensures Split(CanonicalRequest(httpMethod, uri, query, host), '\n')
            == [httpMethod, uri, query, "host:" + host, "", "host", "UNSIGNED-PAYLOAD"]
  {
    var name, payload := "host", "UNSIGNED-PAYLOAD";
    assert '\n' !in name && '\n' !in payload && '\n' !in "host:" + host;
    SevenLines(httpMethod, uri, query, "host:" + host, "", name, payload);
    SevenListed(httpMethod, uri, query, "host:" + host, "", name, payload);
    SevenRegrouped(httpMethod, uri, query, "host:", host, name, payload);
  }

  lemma SplitMore(line: string, rest: string, lines: seq<string>)
    requires '\n' !in line && Split(rest, '\n') == lines
    ensures Split(line + ['\n'] + rest, '\n') == [line] + lines
  {
    SplitFirst(line, rest, '\n');
  }

  lemma TwoMore(a: string, b: string, rest: string, lines: seq<string>)
    requires '\n' !in a && '\n' !in b && Split(rest, '\n') == lines
    ensures Split(a + ['\n'] + (b + ['\n'] + rest), '\n') == [a] + ([b] + lines)
  {
    SplitMore(b, rest, lines);
    SplitMore(a, b + ['\n'] + rest, [b] + lines);
  }

  lemma SevenLines(a: string, b: string, c: string, d: string, e: string, f: string, g: string)
    requires '\n' !in a && '\n' !in b && '\n' !in c && '\n' !in d && '\n' !in e && '\n' !in f && '\n' !in g
    ensures Split(a + ['\n'] + (b + ['\n'] + (c + ['\n'] + (d + ['\n'] + (e + ['\n'] + (f + ['\n'] + g))))), '\n')
            == [a] + ([b] + ([c] + ([d] + ([e] + ([f] + [g])))))
  {
    SplitFirst(g, "", '\n');
    TwoMore(e, f, g, [g]);
    FourLines(a, b, c, d, e + ['\n'] + (f + ['\n'] + g), [e] + ([f] + [g]));
  }

  lemma FourLines(a: string, b: string, c: string, d: string, rest: string, lines: seq<string>)
    requires '\n' !in a && '\n' !in b && '\n' !in c && '\n' !in d && Split(rest, '\n') == lines
    ensures Split(a + ['\n'] + (b + ['\n'] + (c + ['\n'] + (d + ['\n'] + rest))), '\n')
            == [a] + ([b] + ([c] + ([d] + lines)))
  {
    TwoMore(c, d, rest, lines);
    TwoMore(a, b, c + ['\n'] + (d + ['\n'] + rest), [c] + ([d] + lines));
  }

  lemma SevenListed<T>(a: T, b: T, c: T, d: T, e: T, f: T, g: T)
    ensures [a] + ([b] + ([c] + ([d] + ([e] + ([f] + [g]))))) == [a, b, c, d, e, f, g]
  {
  }

  lemma SevenRegrouped(a: string, b: string, c: string, tag: string, host: string, f: string, g: string)
    ensures a + "\n" + b + "\n" + c + "\n" + tag + host + "\n" + "\n" + f + "\n" + g
            == a + ['\n'] + (b + ['\n'] + (c + ['\n'] + ((tag + host) + ['\n'] + ("" + ['\n'] + (f + ['\n'] + g)))))
  {
  }

  function Scope(dateStamp: string, region: string): string {
    dateStamp + "/" + region + "/" + "s3" + "/" + "aws4_request"
  }

  lemma ScopeParts(dateStamp: string, region: string)
    requires '/' !in dateStamp && '/' !in region
    ensures Split(Scope(dateStamp, region), '/') == [dateStamp, region, "s3", "aws4_request"]
  {
    var parts := [dateStamp, region, "s3", "aws4_request"];
    assert parts[1..] == [region, "s3", "aws4_request"] && parts[1..][1..] == ["s3", "aws4_request"];
    assert Join(parts[1..][1..], '/') == "s3" + "/" + "aws4_request";
    assert Join(parts[1..], '/') == region + "/" + ("s3" + "/" + "aws4_request");
    assert Scope(dateStamp, region) == Join(parts, '/');
    SplitJoin(parts, '/');
  }

  function StringToSign(amzDate: string, scope: string, hashed: string): string {
    ALGORITHM + "\n" + amzDate + "\n" + scope + "\n" + hashed
  }

  lemma FourSplit(a: string, b: string, c: string, d: string)
    requires '\n' !in a && '\n' !in b && '\n' !in c && '\n' !in d
    ensures Split(a + "\n" + b + "\n" + c + "\n" + d, '\n') == [a, b, c, d]
  {
    SplitFirst(d, "", '\n');
    SplitMore(c, d, [d]);
    TwoMore(a, b, c + ['\n'] + d, [c] + [d]);
    FourRegrouped(a, b, c, d);
    assert [a] + ([b] + ([c] + [d])) == [a, b, c, d];
  }

  lemma FourRegrouped(a: string, b: string, c: string, d: string)
    ensures a + "\n" + b + "\n" + c + "\n" + d == a + ['\n'] + (b + ['\n'] + (c + ['\n'] + d))
  {
  }

  lemma ScopeText(dateStamp: string, region: string)
    ensures Scope(dateStamp, region) == dateStamp + "/" + region + "/s3/aws4_request"
  {
  }

  lemma NotInScope(dateStamp: string, region: string)
    requires '\n' !in dateStamp && '\n' !in region
    ensures '\n' !in Scope(dateStamp, region)
  {
  }

  /** The second text that is signed, line by line. */
  lemma StringToSignLines(amzDate: string, dateStamp: string, region: string, hashed: string)
    requires '\n' !in amzDate && '\n' !in dateStamp && '\n' !in region && '\n' !in hashed
    ensures Split(StringToSign(amzDate, Scope(dateStamp, region), hashed), '\n')
            == ["AWS4-HMAC-SHA256", amzDate, dateStamp + "/" + region + "/s3/aws4_request", hashed]
  {
    NotInScope(dateStamp, region);
    ScopeText(dateStamp, region);
    FourSplit(ALGORITHM, amzDate, Scope(dateStamp, region), hashed);
  }

  function Octets(s: Utf8): Bytes {
    seq(|s|, i requires 0 <= i < |s| => s[i] as int)
  }

  function SigningKey(crypto: Crypto, secret: Utf8, dateStamp: string, region: string): Bytes {
    var kDate := crypto.hmac(Octets("AWS4") + Octets(secret), dateStamp);
    var kRegion := crypto.hmac(kDate, region);
    var kService := crypto.hmac(kRegion, "s3");
    crypto.hmac(kService, "aws4_request")
  }

  /** One HMAC after the other, each digest the key of the next. */
  function Chained(crypto: Crypto, key: Bytes, texts: seq<string>): Bytes {
    if texts == [] then key else crypto.hmac(Chained(crypto, key, texts[..|texts| - 1]), texts[|texts| - 1])
  }

  /** The key is derived along the very scope that is signed, part by part. */
  lemma KeyFollowsScope(crypto: Crypto, secret: Utf8, dateStamp: string, region: string)
    requires '/' !in dateStamp && '/' !in region
    ensures SigningKey(crypto, secret, dateStamp, region) == KeyFor(crypto, secret, dateStamp, region)
    ensures Split(Scope(dateStamp, region), '/') == [dateStamp, region, "s3", "aws4_request"]
  {
    ScopeParts(dateStamp, region);
    FourChained(crypto, Octets("AWS4") + Octets(secret), dateStamp, region, "s3", "aws4_request");
  }

  lemma FourChained(crypto: Crypto, key: Bytes, a: string, b: string, c: string, d: string)
    ensures Chained(crypto, key, [a, b, c, d])
            == crypto.hmac(crypto.hmac(crypto.hmac(crypto.hmac(key, a), b), c), d)
  {
    ChainedSnoc(crypto, key, [], a);
    ChainedSnoc(crypto, key, [a], b);
    ChainedSnoc(crypto, key, [a, b], c);
    ChainedSnoc(crypto, key, [a, b, c], d);
    assert [] + [a] == [a] && [a] + [b] == [a, b] && [a, b] + [c] == [a, b, c] && [a, b, c] + [d] == [a, b, c, d];
  }

  lemma ChainedSnoc(crypto: Crypto, key: Bytes, texts: seq<string>, last: string)
    ensures Chained(crypto, key, texts + [last]) == crypto.hmac(Chained(crypto, key, texts), last)
  {
    assert (texts + [last])[..|texts|] == texts;
  }

  function Signature(crypto: Crypto, httpMethod: string, uri: string, query: string, host: string, amzDate: string,
                     dateStamp: string, region: string, secret: Utf8): Oid {
    var hashed := crypto.sha256(CanonicalRequest(httpMethod, uri, query, host));
    crypto.hex(crypto.hmac(SigningKey(crypto, secret, dateStamp, region),
                           StringToSign(amzDate, Scope(dateStamp, region), hashed)))
  }

  /** The request splits into these lines: the signing standard's canonical request with the host as its only header. */
  ghost predicate RequestLines(request: string, httpMethod: string, uri: string, query: string, host: string) {
    Split(request, '\n') == [httpMethod, uri, query, "host:" + host, "", "host", "UNSIGNED-PAYLOAD"]
  }

  /** The text splits into the four lines of the standard's string to sign. */
  ghost predicate SignedLines(text: string, amzDate: string, dateStamp: string, region: string, hashed: string) {
    Split(text, '\n') == ["AWS4-HMAC-SHA256", amzDate, dateStamp + "/" + region + "/s3/aws4_request", hashed]
  }

  /** The standard's key for a day, a region and this service. */
  function KeyFor(crypto: Crypto, secret: Utf8, dateStamp: string, region: string): Bytes {
    Chained(crypto, Octets("AWS4") + Octets(secret), [dateStamp, region, "s3", "aws4_request"])
  }

  lemma SameText(a: string, b: string)
    requires Split(a, '\n') == Split(b, '\n')
    ensures a == b
  {
    JoinSplit(a, '\n');
    JoinSplit(b, '\n');
  }

  lemma LinesOf(lines: seq<string>, text: string, i: nat)
    requires Split(text, '\n') == lines && i < |lines|
    ensures '\n' !in lines[i]
  {
    assert lines[i] in Split(text, '\n');
  }

  /**
   What a signature is, without saying how the texts are put together: the two texts are whatever splits into these
   lines, and the key is chained along the parts of the scope.
   */
  lemma SignatureOf(crypto: Crypto, httpMethod: string, uri: string, query: string, host: string, amzDate: string,
                    dateStamp: string, region: string, secret: Utf8, request: string, text: string)
    requires '/' !in dateStamp && '/' !in region
    requires RequestLines(request, httpMethod, uri, query, host)
    requires SignedLines(text, amzDate, dateStamp, region, crypto.sha256(request))
    ensures Signature(crypto, httpMethod, uri, query, host, amzDate, dateStamp, region, secret)
            == crypto.hex(crypto.hmac(KeyFor(crypto, secret, dateStamp, region), text))
  {
    RequestText(httpMethod, uri, query, host, request);
    SignedText(amzDate, dateStamp, region, crypto.sha256(request), text);
    ScopeParts(dateStamp, region);
    KeyFollowsScope(crypto, secret, dateStamp, region);
  }

  lemma RequestText(httpMethod: string, uri: string, query: string, host: string, request: string)
    requires RequestLines(request, httpMethod, uri, query, host)
    ensures request == CanonicalRequest(httpMethod, uri, query, host)
  {
    var lines := [httpMethod, uri, query, "host:" + host, "", "host", "UNSIGNED-PAYLOAD"];
    LinesOf(lines, request, 0);
    LinesOf(lines, request, 1);
    LinesOf(lines, request, 2);
    LinesOf(lines, request, 3);
    NotInTail("host:", host, '\n');
    CanonicalRequestLines(httpMethod, uri, query, host);
    SameText(request, CanonicalRequest(httpMethod, uri, query, host));
  }

  lemma NotInTail(a: string, b: string, c: char)
    requires c !in a + b
    ensures c !in a && c !in b
  {
    assert forall i :: 0 <= i < |b| ==> (a + b)[|a| + i] == b[i];
    assert forall i :: 0 <= i < |a| ==> (a + b)[i] == a[i];
  }

  lemma SignedText(amzDate: string, dateStamp: string, region: string, hashed: Oid, text: string)
    requires SignedLines(text, amzDate, dateStamp, region, hashed)
    ensures text == StringToSign(amzDate, Scope(dateStamp, region), hashed)
  {
    var lines := ["AWS4-HMAC-SHA256", amzDate, dateStamp + "/" + region + "/s3/aws4_request", hashed];
    LinesOf(lines, text, 1);
    LinesOf(lines, text, 2);
    LinesOf(lines, text, 3);
    NotInTail(dateStamp + "/" + region, "/s3/aws4_request", '\n');
    NotInTail(dateStamp + "/", region, '\n');
    NotInTail(dateStamp, "/", '\n');
    StringToSignLines(amzDate, dateStamp, region, hashed);
    SameText(text, StringToSign(amzDate, Scope(dateStamp, region), hashed));
  }

  /** Where the separator is found does not depend on what follows it. */
  lemma {:induction false} CutAtAgain(s: string, sep: string, before: string, after: string, other: string)
    requires CutAt(s, sep) == Some((before, after))
    ensures CutAt(before + sep + other, sep) == Some((before, other))
  {
    var t := before + sep + other;
    if StartsWith(s, sep) {
      assert t == sep + other;
      PrefixOfConcat(sep, other);
    } else {
      CutAtAgain(s[1..], sep, before[1..], after, other);
      DropFirst(before, sep, other);
      if StartsWith(t, sep) {
        SamePrefix(s, t, before, sep, after, other);
      }
    }
  }

  lemma SamePrefix(s: string, t: string, before: string, sep: string, after: string, other: string)
    requires s == before + sep + after && t == before + sep + other && StartsWith(t, sep)
    ensures StartsWith(s, sep)
  {
    assert s[..|sep|] == (before + sep)[..|sep|] == t[..|sep|];
  }

  datatype PresignError = NoMethod | BadTtl | BadEndpoint

  datatype Request = Request(httpMethod: string, endpoint: string, bucket: Utf8, key: Utf8, region: Utf8,
                             accessKey: Utf8, secret: Utf8, ttl: int, amzDate: Utf8)

  function BeforeSlash(s: string): string {
    match CutFirst(s, '/')
    case None => s
    case Some((before, _)) => before
  }

  const SCHEME_END := "://"

  /** The origin and its host, or None when the scheme or the host is missing. */
  function SplitEndpoint(endpoint: string): (r: Option<(string, string)>)
    ensures r.Some? ==> '/' !in r.value.1 && r.value.1 != ""
                        && exists scheme :: r.value.0 == scheme + SCHEME_END + r.value.1
  {
    match CutAt(endpoint, SCHEME_END)
    case None => None
    case Some((scheme, rest)) =>
      if scheme == "" || BeforeSlash(rest) == "" then None
      else Some((scheme + SCHEME_END + BeforeSlash(rest), BeforeSlash(rest)))
  }

  lemma BeforeSlashOf(host: string, tail: string)
    requires '/' !in host && (tail == "" || tail[0] == '/')
    ensures BeforeSlash(host + tail) == host
  {
    if tail == "" {
      assert host + tail == host;
    } else {
      CutFirstOf(host, tail[1..], '/');
      assert host + tail == host + ['/'] + tail[1..];
    }
  }

  /** The host is what stands between the scheme and the first slash, character for character. */
  lemma EndpointSplits(scheme: string, host: string, tail: string)
    requires scheme != "" && NoneBefore(scheme, SCHEME_END)
    requires host != "" && '/' !in host && (tail == "" || tail[0] == '/')
    ensures SplitEndpoint(scheme + SCHEME_END + (host + tail)) == Some((scheme + SCHEME_END + host, host))
  {
    CutAtOf(scheme, SCHEME_END, host + tail);
    BeforeSlashOf(host, tail);
  }

  /** The documented lower-case host is what comes out exactly when the endpoint's host has no upper-case letter. */
  lemma HostIsLowerIff(endpoint: string, origin: string, host: string)
    requires SplitEndpoint(endpoint) == Some((origin, host))
    ensures Lower(host) == host <==> forall i :: 0 <= i < |host| ==> !('A' <= host[i] <= 'Z')
  {
    if Lower(host) == host {
      forall i | 0 <= i < |host| ensures !('A' <= host[i] <= 'Z') {
        assert LowerChar(host[i]) == host[i];
      }
    }
  }

  lemma UpperCaseHost(scheme: string, host: string)
    requires scheme != "" && ':' !in scheme && host != "" && '/' !in host && 'A' <= host[0] <= 'Z'
    ensures SplitEndpoint(scheme + SCHEME_END + host) == Some((scheme + SCHEME_END + host, host)) && Lower(host) != host
  {
    NoneBeforeFirstChar(scheme, SCHEME_END);
    EndpointSplits(scheme, host, "");
    assert host + "" == host;
    assert Lower(host)[0] == LowerChar(host[0]) != host[0];
  }

  lemma UpperCaseHostIsKept()
    ensures var host := "S3.Example";
            && SplitEndpoint("https" + SCHEME_END + host) == Some(("https" + SCHEME_END + host, host))
            && Lower(host) != host
  {
    var scheme, host := "https", "S3.Example";
    assert ':' !in scheme && '/' !in host && host[0] == 'S';
    UpperCaseHost(scheme, host);
  }

  function CanonicalUri(bucket: Utf8, key: Utf8): string {
    "/" + EncodePath(bucket) + "/" + EncodePath(key)
  }

  const NAME_ALGORITHM := "X-Amz-Algorithm"
  const NAME_CREDENTIAL := "X-Amz-Credential"
  const NAME_DATE := "X-Amz-Date"
  const NAME_EXPIRES := "X-Amz-Expires"
  const NAME_HEADERS := "X-Amz-SignedHeaders"
  const NAME_SIGNATURE := "X-Amz-Signature"

  function SignedParams(req: Request): Params
    requires |req.amzDate| >= 8 && req.ttl > 0
  {
    [(NAME_ALGORITHM, ALGORITHM),
     (NAME_CREDENTIAL, req.accessKey + "/" + Scope(req.amzDate[..8], req.region)),
     (NAME_DATE, req.amzDate),
     (NAME_EXPIRES, Digits(req.ttl)),
     (NAME_HEADERS, "host")]
  }

  lemma ConcatUtf8(a: Utf8, b: Utf8)
    ensures IsUtf8(a + b)
  {
  }

  lemma ScopeUtf8(dateStamp: Utf8, region: Utf8)
    ensures IsUtf8(Scope(dateStamp, region))
  {
    ConcatUtf8(dateStamp, "/");
    ConcatUtf8(dateStamp + "/", region);
  }

  lemma DigitsUtf8(n: nat)
    ensures IsUtf8(Digits(n))
  {
    forall i | 0 <= i < |Digits(n)| ensures Digits(n)[i] as int < 256 {
      assert IsDigit(Digits(n)[i]);
    }
  }

  lemma SignedParamsUtf8(req: Request)
    requires |req.amzDate| >= 8 && req.ttl > 0
    ensures Utf8Params(SignedParams(req))
  {
    var scope := Scope(req.amzDate[..8], req.region);
    ScopeUtf8(req.amzDate[..8], req.region);
    ConcatUtf8(req.accessKey, "/");
    ConcatUtf8(req.accessKey + "/", scope);
    DigitsUtf8(req.ttl);
    FiveUtf8(ALGORITHM, req.accessKey + "/" + scope, req.amzDate, Digits(req.ttl), "host");
  }

  lemma FiveUtf8(v1: Utf8, v2: Utf8, v3: Utf8, v4: Utf8, v5: Utf8)
    ensures Utf8Params([(NAME_ALGORITHM, v1), (NAME_CREDENTIAL, v2), (NAME_DATE, v3), (NAME_EXPIRES, v4),
                        (NAME_HEADERS, v5)])
  {
    assert IsUtf8(NAME_ALGORITHM) && IsUtf8(NAME_CREDENTIAL) && IsUtf8(NAME_DATE) && IsUtf8(NAME_EXPIRES);
    assert IsUtf8(NAME_HEADERS);
  }

  /** The signature a request for this URI and this query gets. */
  function RequestSignature(crypto: Crypto, req: Request, uri: string, query: string, host: string): Oid
    requires |req.amzDate| >= 8
  {
    Signature(crypto, req.httpMethod, uri, query, host, req.amzDate, req.amzDate[..8], req.region, req.secret)
  }

  function UrlText(origin: string, uri: string, query: string, signature: string): string {
    origin + uri + "?" + (query + "&" + (NAME_SIGNATURE + "=" + signature))
  }

  function PresignUrl(crypto: Crypto, req: Request): Result<string, PresignError>
    requires |req.amzDate| >= 8
  {
    if req.httpMethod == "" then Err(NoMethod)
    else if req.ttl <= 0 then Err(BadTtl)
    else
      match SplitEndpoint(req.endpoint)
      case None => Err(BadEndpoint)
      case Some((origin, host)) =>
        SignedParamsUtf8(req);
        var uri, query := CanonicalUri(req.bucket, req.key), CanonicalQuery(SignedParams(req));
        Ok(UrlText(origin, uri, query, RequestSignature(crypto, req, uri, query, host)))
  }

  // ----- reading a presigned URL -----

  datatype Pieces = Pieces(origin: string, host: string, uri: string, query: string, signature: string)

  function ParseTail(tail: string): Option<string> {
    match CutFirst(tail, '=')
    case None => None
    case Some((name, signature)) => if name == NAME_SIGNATURE then Some(signature) else None
  }

  function ParseOrigin(before: string): Option<(string, string, string)> {
    match CutAt(before, SCHEME_END)
    case None => None
    case Some((scheme, rest)) =>
      match CutFirst(rest, '/')
      case None => None
      case Some((host, path)) => Some((scheme + SCHEME_END + host, host, "/" + path))
  }

  function ParseUrl(url: string): Option<Pieces> {
    match CutFirst(url, '?')
    case None => None
    case Some((before, after)) =>
      match (ParseOrigin(before), CutLast(after, '&'))
      case (Some((origin, host, uri)), Some((query, tail))) =>
        (match ParseTail(tail)
         case None => None
         case Some(signature) => Some(Pieces(origin, host, uri, query, signature)))
      case _ => None
  }

  lemma TailParses(signature: Oid)
    ensures ParseTail(NAME_SIGNATURE + "=" + signature) == Some(signature)
    ensures '&' !in NAME_SIGNATURE + "=" + signature
  {
    CutFirstOf(NAME_SIGNATURE, signature, '=');
    assert forall i :: 0 <= i < |signature| ==> IsHexDigit(signature[i]);
  }

  lemma OriginParses(endpoint: string, origin: string, host: string, path: string)
    requires SplitEndpoint(endpoint) == Some((origin, host))
    ensures ParseOrigin(origin + ("/" + path)) == Some((origin, host, "/" + path))
  {
    var (scheme, rest) := CutAt(endpoint, SCHEME_END).value;
    CutAtAgain(endpoint, SCHEME_END, scheme, rest, host + "/" + path);
    FiveParts(scheme, SCHEME_END, host, "/", path);
    OriginRead(origin + ("/" + path), scheme, host, path);
  }

  lemma FiveParts<T>(a: seq<T>, b: seq<T>, c: seq<T>, d: seq<T>, e: seq<T>)
    ensures (a + b + c) + (d + e) == a + b + (c + d + e)
  {
  }

  lemma OriginRead(text: string, scheme: string, host: string, path: string)
    requires CutAt(text, SCHEME_END) == Some((scheme, host + "/" + path)) && '/' !in host
    ensures ParseOrigin(text) == Some((scheme + SCHEME_END + host, host, "/" + path))
  {
    CutFirstOf(host, path, '/');
  }

  lemma {:induction false} EncodedPathSafe(parts: seq<string>, c: char)
    requires parts != [] && !Unreserved(c) && c != '%' && c != '/' && forall p :: p in parts ==> IsUtf8(p)
    ensures c !in Join(EncodeAll(parts), '/')
  {
    EncodeIsPlain(parts[0]);
    PlainHasNone(Encode(parts[0]), c);
    if |parts| == 1 {
      assert EncodeAll(parts) == [Encode(parts[0])];
    } else {
      EncodedPathSafe(parts[1..], c);
      assert EncodeAll(parts)[1..] == EncodeAll(parts[1..]);
    }
  }

  lemma UriSafe(bucket: Utf8, key: Utf8)
    ensures '?' !in CanonicalUri(bucket, key)
  {
    SplitUtf8(bucket, '/');
    SplitUtf8(key, '/');
    EncodedPathSafe(Split(bucket, '/'), '?');
    EncodedPathSafe(Split(key, '/'), '?');
  }

  /** The first question mark ends the path exactly when the origin holds none. */
  lemma PathEndsAtQuestionMarkIff(origin: string, uri: string, rest: string)
    requires '?' !in uri
    ensures CutFirst(origin + uri + "?" + rest, '?') == Some((origin + uri, rest)) <==> '?' !in origin
  {
    if '?' !in origin {
      CutFirstOf(origin + uri, rest, '?');
    }
  }

  /** Decoding the signed path gives bucket and key. */
  lemma UriDecodes(bucket: Utf8, key: Utf8)
    ensures Decode(CanonicalUri(bucket, key)) == Some("/" + bucket + "/" + key)
  {
    DecodePath(key, "");
    Neutral(EncodePath(key), key);
    DecodeSlash(EncodePath(key), key);
    DecodePath(bucket, "/" + EncodePath(key));
    DecodeSlash(EncodePath(bucket) + ("/" + EncodePath(key)), bucket + ("/" + key));
    Slashes(EncodePath(bucket), EncodePath(key));
    Slashes(bucket, key);
  }

  lemma Neutral(a: string, b: string)
    ensures a + "" == a && b + "" == b
  {
  }

  lemma Slashes(a: string, b: string)
    ensures "/" + (a + ("/" + b)) == "/" + a + "/" + b
  {
  }

  lemma DecodeSlash(s: string, decoded: string)
    requires Decode(s) == Some(decoded)
    ensures Decode("/" + s) == Some("/" + decoded)
  {
    assert ("/" + s)[1..] == s;
  }

  lemma TailOf(bucket: string, key: string)
    ensures ("/" + bucket + "/" + key)[1..] == bucket + "/" + key
  {
  }

  /** A signed path determines bucket, slash and key together, and so both when buckets hold no slash. */
  lemma SameUri(bucket1: Utf8, key1: Utf8, bucket2: Utf8, key2: Utf8)
    requires CanonicalUri(bucket1, key1) == CanonicalUri(bucket2, key2)
    ensures bucket1 + "/" + key1 == bucket2 + "/" + key2
    ensures '/' !in bucket1 && '/' !in bucket2 ==> bucket1 == bucket2 && key1 == key2
  {
    SameDecoded(CanonicalUri(bucket1, key1), bucket1, key1, bucket2, key2);
    if '/' !in bucket1 && '/' !in bucket2 {
      CutFirstOf(bucket1, key1, '/');
      CutFirstOf(bucket2, key2, '/');
    }
  }

  lemma SameDecoded(uri: string, bucket1: Utf8, key1: Utf8, bucket2: Utf8, key2: Utf8)
    requires uri == CanonicalUri(bucket1, key1) == CanonicalUri(bucket2, key2)
    ensures bucket1 + "/" + key1 == bucket2 + "/" + key2
  {
    UriDecodes(bucket1, key1);
    UriDecodes(bucket2, key2);
    TailOf(bucket1, key1);
    TailOf(bucket2, key2);
  }

  /**
   The URL determines what was signed: taken apart again it gives the host, the canonical URI and the canonical query
   that went into the signature, the path decodes to bucket and key, and the query to the parameters.
   */
  lemma PresignedUrlParses(crypto: Crypto, req: Request, origin: string, host: string)
    requires |req.amzDate| >= 8 && req.httpMethod != "" && req.ttl > 0
    requires SplitEndpoint(req.endpoint) == Some((origin, host)) && '?' !in origin
    ensures var url := PresignUrl(crypto, req);
            && url.Ok?
            && var pieces := ParseUrl(url.value);
            && pieces.Some?
            && pieces.value.host == host
            && pieces.value.uri == CanonicalUri(req.bucket, req.key)
            && Utf8Params(SignedParams(req)) && pieces.value.query == CanonicalQuery(SignedParams(req))
            && pieces.value.signature == RequestSignature(crypto, req, pieces.value.uri, pieces.value.query, host)
            && Decode(pieces.value.uri) == Some("/" + req.bucket + "/" + req.key)
            && ParseQuery(pieces.value.query) == Some(SortParams(SignedParams(req)))
  {
    SignedParamsUtf8(req);
    var uri, query := CanonicalUri(req.bucket, req.key), CanonicalQuery(SignedParams(req));
    UriSafe(req.bucket, req.key);
    UriDecodes(req.bucket, req.key);
    ParseCanonicalQuery(SignedParams(req));
    UrlTextParses(req.endpoint, origin, host, uri, query, RequestSignature(crypto, req, uri, query, host));
  }

  lemma FiveInOrder(params: Params)
    requires |params| == 5 && forall i :: 0 <= i < 4 ==> LexLeq(params[i].0, params[i + 1].0)
    ensures SortedByName(params)
  {
    LexTransitive(params[0].0, params[1].0, params[2].0);
    LexTransitive(params[1].0, params[2].0, params[3].0);
    LexTransitive(params[2].0, params[3].0, params[4].0);
    LexTransitive(params[0].0, params[2].0, params[3].0);
    LexTransitive(params[1].0, params[3].0, params[4].0);
    LexTransitive(params[0].0, params[3].0, params[4].0);
  }

  lemma NamesInOrder(params: Params)
    requires |params| == 5 && params[0].0 == NAME_ALGORITHM && params[1].0 == NAME_CREDENTIAL
    requires params[2].0 == NAME_DATE && params[3].0 == NAME_EXPIRES && params[4].0 == NAME_HEADERS
    ensures SortedByName(params)
  {
    assert params[0].0[6] == 'A' && params[1].0[6] == 'C' && params[2].0[6] == 'D';
    assert params[3].0[6] == 'E' && params[4].0[6] == 'S';
    InOrderAt(params, "X-Amz-");
  }

  lemma InOrderAt(params: Params, prefix: string)
    requires |params| == 5 && forall i :: 0 <= i < 5 ==> prefix < params[i].0
    requires forall i :: 0 <= i < 4 ==> params[i].0[|prefix|] < params[i + 1].0[|prefix|]
    ensures SortedByName(params)
  {
    forall i | 0 <= i < 4 ensures LexLeq(params[i].0, params[i + 1].0) {
      assert DifferFirstAt(params[i].0, params[i + 1].0, |prefix|);
      LexIff(params[i].0, params[i + 1].0);
    }
    FiveInOrder(params);
  }

  ghost predicate FiveParameters(params: Params, req: Request)
    requires |req.amzDate| >= 8 && req.ttl > 0
  {
    && |params| == 5
    && params[0] == ("X-Amz-Algorithm", "AWS4-HMAC-SHA256")
    && params[1] == ("X-Amz-Credential",
                     req.accessKey + "/" + (req.amzDate[..8] + "/" + req.region + "/s3/aws4_request"))
    && params[2] == ("X-Amz-Date", req.amzDate)
    && params[3] == ("X-Amz-Expires", Digits(req.ttl))
    && params[4] == ("X-Amz-SignedHeaders", "host")
  }

  lemma SignedInOrder(params: Params)
    requires |params| == 5 && params[0].0 == NAME_ALGORITHM && params[1].0 == NAME_CREDENTIAL
    requires params[2].0 == NAME_DATE && params[3].0 == NAME_EXPIRES && params[4].0 == NAME_HEADERS
    ensures SortParams(params) == params
  {
    NamesInOrder(params);
    SortedStays(params);
  }

  lemma ReadBack(req: Request, params: Params)
    requires |req.amzDate| >= 8 && req.ttl > 0 && params == SortParams(SignedParams(req))
    ensures FiveParameters(params, req)
  {
    SignedInOrder(SignedParams(req));
    ScopeText(req.amzDate[..8], req.region);
  }

  /** The query of the URL, read back: these five parameters in this order. */
  lemma PresignedParameters(crypto: Crypto, req: Request, origin: string, host: string, pieces: Pieces)
    requires |req.amzDate| >= 8 && req.httpMethod != "" && req.ttl > 0
    requires SplitEndpoint(req.endpoint) == Some((origin, host)) && '?' !in origin
    requires PresignUrl(crypto, req).Ok? && ParseUrl(PresignUrl(crypto, req).value) == Some(pieces)
    ensures ParseQuery(pieces.query).Some? && FiveParameters(ParseQuery(pieces.query).value, req)
  {
    PresignedUrlParses(crypto, req, origin, host);
    ReadBack(req, SortParams(SignedParams(req)));
  }

  /**
   The signature in the URL is the one of what the URL says, by the signing standard: the request is whatever splits
   into these seven lines, the text that is signed whatever splits into these four, and the key is chained along the
   parts of the scope.
   */
  lemma PresignedUrlIsSigned(crypto: Crypto, req: Request, origin: string, host: string, pieces: Pieces,
                             request: string, text: string)
    requires |req.amzDate| >= 8 && req.httpMethod != "" && req.ttl > 0
    requires SplitEndpoint(req.endpoint) == Some((origin, host)) && '?' !in origin
    requires '/' !in req.region && '/' !in req.amzDate[..8]
    requires PresignUrl(crypto, req).Ok? && ParseUrl(PresignUrl(crypto, req).value) == Some(pieces)
    requires RequestLines(request, req.httpMethod, pieces.uri, pieces.query, pieces.host)
    requires SignedLines(text, req.amzDate, req.amzDate[..8], req.region, crypto.sha256(request))
    ensures pieces.signature
            == crypto.hex(crypto.hmac(KeyFor(crypto, req.secret, req.amzDate[..8], req.region), text))
  {
    PresignedUrlParses(crypto, req, origin, host);
    SignatureOf(crypto, req.httpMethod, pieces.uri, pieces.query, pieces.host, req.amzDate, req.amzDate[..8],
                req.region, req.secret, request, text);
  }

  lemma UrlTextParses(endpoint: string, origin: string, host: string, uri: string, query: string, signature: Oid)
    requires SplitEndpoint(endpoint) == Some((origin, host)) && '?' !in origin
    requires '?' !in uri && uri != "" && uri[0] == '/'
    ensures ParseUrl(UrlText(origin, uri, query, signature)) == Some(Pieces(origin, host, uri, query, signature))
  {
    var tail := NAME_SIGNATURE + "=" + signature;
    CutFirstOf(origin + uri, query + "&" + tail, '?');
    assert uri == "/" + uri[1..];
    OriginParses(endpoint, origin, host, uri[1..]);
    TailParses(signature);
    CutLastOf(query, tail, '&');
  }

  // ----- a reader that checks the signature from the URL alone -----

  function Value(params: Params, name: string): (r: Option<string>)
    ensures r.Some? ==> (name, r.value) in params
    ensures r.None? ==> forall p :: p in params ==> p.0 != name
  {
    if params == [] then None
    else if params[0].0 == name then Some(params[0].1)
    else Value(params[1..], name)
  }

  /** Access key, date stamp and region of a credential; the access key may hold slashes. */
  function ParseCredential(credential: string): Option<(string, string, string)> {
    match CutLast(credential, '/')
    case None => None
    case Some((rest1, _)) =>
      match CutLast(rest1, '/')
      case None => None
      case Some((rest2, _)) =>
        match CutLast(rest2, '/')
        case None => None
        case Some((rest3, region)) =>
          match CutLast(rest3, '/')
          case None => None
          case Some((accessKey, dateStamp)) => Some((accessKey, dateStamp, region))
  }

  lemma CredentialParses(accessKey: string, dateStamp: string, region: string)
    requires '/' !in dateStamp && '/' !in region
    ensures ParseCredential(accessKey + "/" + Scope(dateStamp, region)) == Some((accessKey, dateStamp, region))
  {
    var stamped := accessKey + "/" + dateStamp;
    var located := stamped + "/" + region;
    var service := located + "/" + "s3";
    assert accessKey + "/" + Scope(dateStamp, region) == service + "/" + "aws4_request";
    CutLastOf(service, "aws4_request", '/');
    CutLastOf(located, "s3", '/');
    CutLastOf(stamped, region, '/');
    CutLastOf(accessKey, dateStamp, '/');
  }

  predicate SignatureHolds(crypto: Crypto, httpMethod: string, url: string, secret: Utf8) {
    match ParseUrl(url)
    case None => false
    case Some(pieces) =>
      match ParseQuery(pieces.query)
      case None => false
      case Some(params) => ParamsHold(crypto, httpMethod, pieces, params, secret)
  }

  predicate ParamsHold(crypto: Crypto, httpMethod: string, pieces: Pieces, params: Params, secret: Utf8) {
    match (Value(params, NAME_DATE), Value(params, NAME_CREDENTIAL))
    case (Some(amzDate), Some(credential)) =>
      (match ParseCredential(credential)
       case None => false
       case Some((_, dateStamp, region)) =>
         pieces.signature ==
         Signature(crypto, httpMethod, pieces.uri, pieces.query, pieces.host, amzDate, dateStamp, region, secret))
    case _ => false
  }

  lemma SortedValue(params: Params, name: string, value: string)
    requires (name, value) in params && forall p :: p in params && p.0 == name ==> p.1 == value
    ensures Value(SortParams(params), name) == Some(value)
  {
    var sorted := SortParams(params);
    assert (name, value) in multiset(params);
    var found := Value(sorted, name);
    assert (name, value) in sorted;
    assert (name, found.value) in multiset(sorted);
  }

  lemma SignedValues(req: Request, params: Params)
    requires |req.amzDate| >= 8 && req.ttl > 0 && params == SignedParams(req)
    ensures Value(SortParams(params), NAME_DATE) == Some(req.amzDate)
    ensures Value(SortParams(params), NAME_CREDENTIAL)
            == Some(req.accessKey + "/" + Scope(req.amzDate[..8], req.region))
  {
    NamesDiffer(params);
    ValueAt(params, 1);
    ValueAt(params, 2);
  }

  lemma ValueAt(params: Params, i: nat)
    requires i < |params| && forall j :: 0 <= j < |params| && j != i ==> params[j].0 != params[i].0
    ensures Value(SortParams(params), params[i].0) == Some(params[i].1)
  {
    SortedValue(params, params[i].0, params[i].1);
  }

  lemma NamesDiffer(params: Params)
    requires |params| == 5 && params[0].0 == NAME_ALGORITHM && params[1].0 == NAME_CREDENTIAL
    requires params[2].0 == NAME_DATE && params[3].0 == NAME_EXPIRES && params[4].0 == NAME_HEADERS
    ensures forall j :: 0 <= j < 5 && j != 1 ==> params[j].0 != params[1].0
    ensures forall j :: 0 <= j < 5 && j != 2 ==> params[j].0 != params[2].0
  {
    assert params[0].0[6] == 'A' && params[1].0[6] == 'C' && params[2].0[6] == 'D';
    assert params[3].0[6] == 'E' && params[4].0[6] == 'S';
  }

  /** Reading the URL and signing what was read again gives the signature in it: for every hash and every secret. */
  lemma PresignedUrlVerifies(crypto: Crypto, req: Request, origin: string, host: string)
    requires |req.amzDate| >= 8 && req.httpMethod != "" && req.ttl > 0
    requires SplitEndpoint(req.endpoint) == Some((origin, host)) && '?' !in origin
    requires '/' !in req.region && '/' !in req.amzDate[..8]
    ensures PresignUrl(crypto, req).Ok?
    ensures SignatureHolds(crypto, req.httpMethod, PresignUrl(crypto, req).value, req.secret)
  {
    PresignedUrlParses(crypto, req, origin, host);
    SignedValues(req, SignedParams(req));
    CredentialParses(req.accessKey, req.amzDate[..8], req.region);
    var pieces := ParseUrl(PresignUrl(crypto, req).value).value;
    HoldsFor(crypto, req, pieces, SortParams(SignedParams(req)),
             req.accessKey + "/" + Scope(req.amzDate[..8], req.region));
  }

  lemma HoldsFor(crypto: Crypto, req: Request, pieces: Pieces, params: Params, credential: string)
    requires |req.amzDate| >= 8
    requires Value(params, NAME_DATE) == Some(req.amzDate) && Value(params, NAME_CREDENTIAL) == Some(credential)
    requires ParseCredential(credential) == Some((req.accessKey, req.amzDate[..8], req.region))
    requires pieces.signature == RequestSignature(crypto, req, pieces.uri, pieces.query, pieces.host)
    ensures ParamsHold(crypto, req.httpMethod, pieces, params, req.secret)
  {
  }
}

/**
 * Reading the claims of the bearer token (src/utils/jwtHelper.js). The token is
 * JWT-shaped (header.payload.signature, the compact serialization of section
 * 7.1 of RFC 7515) and is never signature-checked. The payload segment is
 * base64url (section 5 of RFC 4648); the code maps it onto the standard
 * alphabet (section 4 of RFC 4648) before `atob`.
 */
module JwtHelper {
  import opened Wrappers
  import opened Text
  import opened Json

  type Byte = b: int | 0 <= b < 256

  /**
   * The browser's decoders, each of which may fail (throw): `atob` on the
   * standard base64 alphabet, UTF-8 decoding (RFC 3629) of a byte string, and
   * `JSON.parse`.
   */
  datatype Codec = Codec(
    atob: string -> Option<seq<Byte>>,
    utf8: seq<Byte> -> Option<string>,
    parse: string -> Option<Json>)

  /** `s.replace(/-/g, '+').replace(/_/g, '/')`: base64url characters mapped to standard base64. */
  function ToStandardBase64(s: string): (r: string)
    ensures |r| == |s|
    ensures forall i :: 0 <= i < |s| ==>
      r[i] == (if s[i] == '-' then '+' else if s[i] == '_' then '/' else s[i])
    ensures '-' !in r && '_' !in r
  {
    ReplaceAll(ReplaceAll(s, '-', '+'), '_', '/')
  }

  /** `atob`'s result as a JavaScript string: one character per byte. */
  function BinaryString(bytes: seq<Byte>): (s: string)
    ensures |s| == |bytes|
    ensures forall i :: 0 <= i < |s| ==> s[i] as int == bytes[i]
  {
    seq(|bytes|, i requires 0 <= i < |bytes| => bytes[i] as char)
  }

  const HexDigits := "0123456789abcdef"

  /** `('00' + b.toString(16)).slice(-2)`: two lower-case hex digits, zero-padded. */
  function Hex2(b: Byte): (h: string)
    ensures |h| == 2
  {
    [HexDigits[b / 16], HexDigits[b % 16]]
  }

  /** The value of one hex digit of either case, as `decodeURIComponent` reads it. */
  function HexValue(c: char): (v: Option<int>)
    ensures v.Some? ==> 0 <= v.value < 16
  {
    if '0' <= c <= '9' then Some(c as int - '0' as int)
    else if 'a' <= c <= 'f' then Some(c as int - 'a' as int + 10)
    else if 'A' <= c <= 'F' then Some(c as int - 'A' as int + 10)
    else None
  }

  /** The hex digits are those of `HexDigits` in either case, and each reads as its position there. */
  lemma HexValueRule(c: char)
    ensures HexValue(c).Some? <==> LowerChar(c) in HexDigits
    ensures HexValue(c).Some? ==> HexDigits[HexValue(c).value] == LowerChar(c)
  {
  }

  /** Every byte written as `'%'` and two hex digits, as the `map(...).join('')` chain does. */
  function PercentEncode(bytes: seq<Byte>): (s: string)
    ensures |s| == 3 * |bytes|
  {
    if bytes == [] then [] else ['%'] + Hex2(bytes[0]) + PercentEncode(bytes[1..])
  }

  /** The escape-reading half of `decodeURIComponent`: a run of `%XX` triplets back to bytes. */
  function PercentDecode(s: string): Option<seq<Byte>>
    decreases |s|
  {
    if s == [] then Some([])
    else if |s| >= 3 && s[0] == '%' && HexValue(s[1]).Some? && HexValue(s[2]).Some? then
      match PercentDecode(s[3..])
      case None => None
      case Some(rest) => Some([HexValue(s[1]).value * 16 + HexValue(s[2]).value] + rest)
    else None
  }

  /** Each lower-case hex digit reads back as its own position. */
  lemma HexDigitValue(k: int)
    requires 0 <= k < 16
    ensures HexValue(HexDigits[k]) == Some(k)
  {
    assert HexDigits[0] == '0' && HexDigits[9] == '9' && HexDigits[10] == 'a' && HexDigits[15] == 'f';
  }

  lemma HexRoundTrip(b: Byte)
    ensures HexValue(Hex2(b)[0]).Some? && HexValue(Hex2(b)[1]).Some?
    ensures HexValue(Hex2(b)[0]).value * 16 + HexValue(Hex2(b)[1]).value == b
  {
    HexDigitValue(b / 16);
    HexDigitValue(b % 16);
  }

  /** A `%XX` triplet of two hex digits reads as their value, ahead of whatever follows. */
  lemma DecodeTriplet(hi: char, lo: char, t: string)
    requires HexValue(hi).Some? && HexValue(lo).Some?
    ensures PercentDecode(['%', hi, lo] + t) ==
      if PercentDecode(t).Some? then Some([HexValue(hi).value * 16 + HexValue(lo).value] + PercentDecode(t).value)
      else None
  {
    assert (['%', hi, lo] + t)[3..] == t;
  }

  /** The first byte's triplet leads the escaped text. */
  lemma EncodeFront(b: Byte, rest: seq<Byte>)
    ensures PercentEncode([b] + rest) == ['%', Hex2(b)[0], Hex2(b)[1]] + PercentEncode(rest)
  {
    assert ([b] + rest)[1..] == rest;
  }

  /** The escaping loses nothing: reading the triplets back gives the bytes. */
  lemma {:induction false} PercentRoundTrip(bytes: seq<Byte>)
    ensures PercentDecode(PercentEncode(bytes)) == Some(bytes)
  {
    if bytes != [] {
      var b, rest := bytes[0], bytes[1..];
      var h := Hex2(b);
      var e := PercentEncode(rest);
      assert [b] + rest == bytes;
      EncodeFront(b, rest);
      HexRoundTrip(b);
      PercentRoundTrip(rest);
      DecodeTriplet(h[0], h[1], e);
      assert PercentDecode(['%', h[0], h[1]] + e) == Some([b] + rest);
    }
  }

  /**
   * `decodeURIComponent` on a string of `%XX` triplets: the bytes they name,
   * decoded as UTF-8. No other strings reach it here.
   */
  function DecodeUriComponent(escaped: string, codec: Codec): Option<string> {
    match PercentDecode(escaped)
    case None => None
    case Some(bytes) => codec.utf8(bytes)
  }

  /** The decoded payload text is the UTF-8 decoding of the payload bytes. */
  lemma UriDecodeIsUtf8(bytes: seq<Byte>, codec: Codec)
    ensures DecodeUriComponent(PercentEncode(bytes), codec) == codec.utf8(bytes)
  {
    PercentRoundTrip(bytes);
  }

  /**
   * `decodeToken(token)`: the parsed payload, or `JNull` (JavaScript `null`)
   * when anything throws: no token, no second segment, bad base64, bad
   * UTF-8, bad JSON. The segment count is not checked.
   */
  function DecodeToken(token: Option<string>, codec: Codec): (payload: Json)
    ensures token.None? ==> payload == JNull
    ensures token.Some? && '.' !in token.value ==> payload == JNull
    ensures token.Some? && Count(token.value, '.') >= 1 ==>
      var bytes := codec.atob(ToStandardBase64(Split(token.value, '.')[1]));
      && (bytes.None? ==> payload == JNull)
      && (bytes.Some? && codec.utf8(bytes.value).None? ==> payload == JNull)
      && (bytes.Some? && codec.utf8(bytes.value).Some? && codec.parse(codec.utf8(bytes.value).value).None? ==>
            payload == JNull)
      && (bytes.Some? && codec.utf8(bytes.value).Some? && codec.parse(codec.utf8(bytes.value).value).Some? ==>
            payload == codec.parse(codec.utf8(bytes.value).value).value)
  {
    if token.None? then JNull
    else
      CountAbsent(token.value, '.');
      var parts := Split(token.value, '.');
      if |parts| < 2 then JNull
      else
        match codec.atob(ToStandardBase64(parts[1]))
        case None => JNull
        case Some(bytes) =>
          UriDecodeIsUtf8(bytes, codec);
          match DecodeUriComponent(PercentEncode(bytes), codec)
          case None => JNull
          case Some(text) => codec.parse(text).GetOr(JNull)
  }

  /**
   * A token whose second segment decodes decodes to that payload, whatever
   * comes after it: a two-segment token decodes as well as a three-segment one.
   */
  lemma DecodeReadsSecondSegment(header: string, segment: string, tail: string, codec: Codec,
                                 bytes: seq<Byte>, text: string, payload: Json)
    requires '.' !in header && '.' !in segment
    requires tail == [] || tail[0] == '.'
    requires codec.atob(ToStandardBase64(segment)) == Some(bytes)
    requires codec.utf8(bytes) == Some(text)
    requires codec.parse(text) == Some(payload)
    ensures DecodeToken(Some(header + "." + segment + tail), codec) == payload
  {
    var token := header + "." + segment + tail;
    assert token == header + ['.'] + (segment + tail);
    SplitFront(header, '.', segment + tail);
    if tail == [] {
      assert segment + tail == segment;
      SplitPlain(segment, '.');
    } else {
      assert segment + tail == segment + ['.'] + tail[1..];
      SplitFront(segment, '.', tail[1..]);
    }
    assert Split(token, '.')[1] == segment;
    UriDecodeIsUtf8(bytes, codec);
  }

  /** The claims tried for the customer id, in order. */
  const IdClaims := ["id", "customerId", "sub"]

  /** Position of the first key whose claim is truthy, or `|keys|` when there is none. */
  function FirstTruthyIndex(payload: Json, keys: seq<string>): (i: nat)
    ensures i <= |keys|
    ensures i < |keys| ==> Present(Get(payload, keys[i]))
    ensures forall k :: 0 <= k < i ==> !Present(Get(payload, keys[k]))
  {
    if keys == [] then 0
    else if Present(Get(payload, keys[0])) then 0
    else 1 + FirstTruthyIndex(payload, keys[1..])
  }

  /** `p?.k1 || p?.k2 || ... || null`. */
  function FirstTruthyClaim(payload: Json, keys: seq<string>): Json {
    var i := FirstTruthyIndex(payload, keys);
    if i < |keys| then Get(payload, keys[i]).value else JNull
  }

  /** `getCustomerIdFromToken(token)`: `id`, then `customerId`, then `sub`, else `null`. */
  function CustomerIdFromToken(token: Option<string>, codec: Codec): (id: Json)
    ensures id == JNull || Truthy(id)
    ensures DecodeToken(token, codec) == JNull ==> id == JNull
  {
    FirstTruthyClaim(DecodeToken(token, codec), IdClaims)
  }

  /** First match wins: the result is the first of `id`, `customerId`, `sub` that is truthy. */
  lemma CustomerIdFallback(token: Option<string>, codec: Codec)
    ensures var p := DecodeToken(token, codec);
            var id := CustomerIdFromToken(token, codec);
            && (Present(Get(p, "id")) ==> id == Get(p, "id").value)
            && (!Present(Get(p, "id")) && Present(Get(p, "customerId")) ==> id == Get(p, "customerId").value)
            && (!Present(Get(p, "id")) && !Present(Get(p, "customerId")) && Present(Get(p, "sub")) ==>
                  id == Get(p, "sub").value)
            && (!Present(Get(p, "id")) && !Present(Get(p, "customerId")) && !Present(Get(p, "sub")) ==>
                  id == JNull)
  {
    var p := DecodeToken(token, codec);
    var i := FirstTruthyIndex(p, IdClaims);
    assert IdClaims[0] == "id" && IdClaims[1] == "customerId" && IdClaims[2] == "sub";
  }

  /** Truthiness, not presence, decides: an empty-string `id` falls through to `customerId`. */
  lemma EmptyIdSkipped(fields: map<string, Json>, customerId: string)
    requires "id" in fields && fields["id"] == JString("")
    requires "customerId" in fields && fields["customerId"] == JString(customerId) && customerId != ""
    ensures FirstTruthyClaim(JObject(fields), IdClaims) == JString(customerId)
  {
    var i := FirstTruthyIndex(JObject(fields), IdClaims);
    assert IdClaims[0] == "id" && IdClaims[1] == "customerId";
    assert !Present(Get(JObject(fields), IdClaims[0]));
    assert Present(Get(JObject(fields), IdClaims[1]));
  }
}

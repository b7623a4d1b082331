/**
 * The route guard (src/components/Auth/ProtectedRoute.jsx): it reads the stored
 * token once, judges it, removes it from storage when it is unreadable or
 * expired, and either renders the protected page or redirects to `/login`.
 * The clock (`Date.now()`) is the parameter `nowMs`.
 */
module ProtectedRoute {
  import opened Wrappers
  import opened Text
  import opened Json
  import opened Storage
  import opened JwtHelper

  /** How the guard judges a stored token. */
  datatype Verdict =
    | Absent      // `null` or the empty string
    | WrongShape  // not exactly three dot-separated segments
    | Unreadable  // `atob`, `JSON.parse` or reading `exp` threw
    | Expired     // a truthy `exp` below the current second
    | Accepted
  {
    /** The verdicts after which the token is removed from storage. */
    predicate Clears() { this == Unreadable || this == Expired }
  }

  /** `Math.floor(Date.now() / 1000)`. */
  function CurrentSecond(nowMs: nat): int {
    nowMs / 1000
  }

  /** `payload.exp && payload.exp < currentTime`. */
  predicate IsExpired(payload: Json, nowMs: nat)
    ensures IsExpired(payload, nowMs) ==> payload.JObject? && "exp" in payload.fields && Truthy(payload.fields["exp"])
    ensures payload.JObject? && "exp" in payload.fields && payload.fields["exp"].JNumber? ==>
      var exp := payload.fields["exp"].n;
      (IsExpired(payload, nowMs) <==> exp != 0.0 && exp < CurrentSecond(nowMs) as real)
  {
    var exp := Get(payload, "exp");
    Present(exp) && LessThan(exp.value, CurrentSecond(nowMs) as real)
  }

  /** The judgement `isTokenValid` makes of the captured token. */
  function Assess(token: Option<string>, nowMs: nat, codec: Codec): (v: Verdict)
    ensures v == Absent <==> TruthyToken(token).None?
    ensures v != Absent && v != WrongShape ==> Count(token.value, '.') == 2
    ensures v == WrongShape ==> Count(token.value, '.') != 2
    ensures TruthyToken(token).Some? && Count(token.value, '.') == 2 ==>
      var bytes := codec.atob(ToStandardBase64(Split(token.value, '.')[1]));
      (v == Unreadable <==>
        bytes.None? || codec.parse(BinaryString(bytes.value)).None? || codec.parse(BinaryString(bytes.value)) == Some(JNull))
  {
    if token.None? || token.value == "" then Absent
    else
      var parts := Split(token.value, '.');
      if |parts| != 3 then WrongShape
      else
        match codec.atob(ToStandardBase64(parts[1]))
        case None => Unreadable
        case Some(bytes) =>
          match codec.parse(BinaryString(bytes))
          case None => Unreadable
          case Some(payload) =>
            if payload == JNull then Unreadable
            else if IsExpired(payload, nowMs) then Expired
            else Accepted
  }

  /** The storage contents the guard leaves behind. */
  function StoreAfter(items: map<string, string>, nowMs: nat, codec: Codec): (after: map<string, string>)
    ensures after == items || after == items - {TokenKey}
  {
    var token := if TokenKey in items then Some(items[TokenKey]) else None;
    if Assess(token, nowMs, codec).Clears() then items - {TokenKey} else items
  }

  /**
   * The `catch` branch: a stored three-segment token whose middle segment
   * `atob` or `JSON.parse` rejects, or which parses to `null` (so that
   * reading `exp` throws), is removed from storage and turned away.
   */
  lemma UndecodableCleared(items: map<string, string>, nowMs: nat, codec: Codec)
    requires TokenKey in items && items[TokenKey] != "" && Count(items[TokenKey], '.') == 2
    requires var bytes := codec.atob(ToStandardBase64(Split(items[TokenKey], '.')[1]));
      bytes.None? || codec.parse(BinaryString(bytes.value)).None? || codec.parse(BinaryString(bytes.value)) == Some(JNull)
    ensures Assess(GetOf(items), nowMs, codec) == Unreadable
    ensures StoreAfter(items, nowMs, codec) == items - {TokenKey}
  {
    assert GetOf(items) == Some(items[TokenKey]);
  }

  /**
   * `isTokenValid()` over the token read when the guard rendered: true only
   * for an accepted token; the token is removed exactly when it was
   * unreadable or expired.
   */
  method IsTokenValid(store: LocalStorage, token: Option<string>, nowMs: nat, codec: Codec)
      returns (valid: bool)
    modifies store
    ensures valid <==> Assess(token, nowMs, codec) == Accepted
    ensures store.items ==
      if Assess(token, nowMs, codec).Clears() then old(store.items) - {TokenKey} else old(store.items)
  {
    if token.None? || token.value == "" {
      return false;
    }
    var parts := Split(token.value, '.');
    if |parts| != 3 {
      return false;
    }
    var bytes := codec.atob(ToStandardBase64(parts[1]));
    if bytes.None? {
      store.RemoveItem(TokenKey);
      return false;
    }
    var payload := codec.parse(BinaryString(bytes.value));
    if payload.None? || payload.value == JNull {
      store.RemoveItem(TokenKey);
      return false;
    }
    var exp := Get(payload.value, "exp");
    if Present(exp) && LessThan(exp.value, CurrentSecond(nowMs) as real) {
      store.RemoveItem(TokenKey);
      return false;
    }
    return true;
  }

  datatype Outcome = RenderChildren | RedirectTo(path: string, replace: bool)

  /** The guard's render: the children for an accepted token, otherwise a replacing redirect to `/login`. */
  method Render(store: LocalStorage, nowMs: nat, codec: Codec) returns (outcome: Outcome)
    modifies store
    ensures outcome == if Assess(old(store.GetItem(TokenKey)), nowMs, codec) == Accepted
                       then RenderChildren else RedirectTo("/login", true)
    ensures store.items == StoreAfter(old(store.items), nowMs, codec)
  {
    var token := store.GetItem(TokenKey);
    var valid := IsTokenValid(store, token, nowMs, codec);
    if !valid {
      return RedirectTo("/login", true);
    }
    if TruthyToken(token).None? {
      return RedirectTo("/login", true);
    }
    return RenderChildren;
  }

  /**
   * Guarding twice in the same second settles: the second pass never removes
   * anything and lets through exactly what the first let through.
   */
  lemma GuardSettles(items: map<string, string>, nowMs: nat, codec: Codec)
    ensures var after := StoreAfter(items, nowMs, codec);
            && StoreAfter(after, nowMs, codec) == after
            && (Assess(GetOf(after), nowMs, codec) == Accepted <==> Assess(GetOf(items), nowMs, codec) == Accepted)
  {
    var after := StoreAfter(items, nowMs, codec);
    if after != items {
      assert TokenKey !in after;
      assert Assess(GetOf(after), nowMs, codec) == Absent;
    }
  }

  /** `getItem` on a plain map. */
  function GetOf(items: map<string, string>): Option<string> {
    if TokenKey in items then Some(items[TokenKey]) else None
  }

  /**
   * A whole-number `exp` counts as expired only from the second after it:
   * at `nowMs >= 1000 * (exp + 1)`. An `exp` of 0 is falsy and never expires.
   */
  lemma {:induction false} ExpiryBoundary(payload: Json, exp: int, nowMs: nat)
    requires Get(payload, "exp") == Some(JNumber(exp as real))
    ensures IsExpired(payload, nowMs) <==> exp != 0 && 1000 * (exp + 1) <= nowMs
  {
    var s := CurrentSecond(nowMs);
    assert 1000 * s <= nowMs < 1000 * s + 1000;
    if exp != 0 && 1000 * (exp + 1) <= nowMs {
      assert exp < s;
    }
    if exp < s {
      assert exp + 1 <= s;
      assert 1000 * (exp + 1) <= 1000 * s;
    }
  }

  /** A payload without a truthy `exp`, or with one that is not a number, never expires. */
  lemma NoNumericExpNeverExpires(payload: Json, nowMs: nat)
    requires !Present(Get(payload, "exp")) || ToNumber(Get(payload, "exp").value).None?
    ensures !IsExpired(payload, nowMs)
  {
  }

  /**
   * A three-segment token whose middle segment decodes to an object is
   * accepted or expired by its `exp` alone; the header and signature are not read.
   */
  lemma AssessThreeSegments(header: string, segment: string, signature: string, nowMs: nat,
                            codec: Codec, bytes: seq<Byte>, payload: Json)
    requires '.' !in header && '.' !in segment && '.' !in signature
    requires codec.atob(ToStandardBase64(segment)) == Some(bytes)
    requires codec.parse(BinaryString(bytes)) == Some(payload)
    requires payload != JNull
    ensures Assess(Some(header + "." + segment + "." + signature), nowMs, codec)
            == if IsExpired(payload, nowMs) then Expired else Accepted
  {
    var token := header + "." + segment + "." + signature;
    assert token == header + ['.'] + (segment + ['.'] + signature);
    SplitFront(header, '.', segment + ['.'] + signature);
    SplitFront(segment, '.', signature);
    SplitPlain(signature, '.');
    assert Split(token, '.') == [header, segment, signature];
  }

  /** Every two-segment token is turned away as wrongly shaped, whatever its segments hold. */
  lemma TwoSegmentsWrongShape(header: string, payload: string, nowMs: nat, codec: Codec)
    requires '.' !in header && '.' !in payload
    ensures Assess(Some(header + "." + payload), nowMs, codec) == WrongShape
  {
    var token := header + "." + payload;
    assert token == header + ['.'] + payload;
    SplitFront(header, '.', payload);
    SplitPlain(payload, '.');
    assert Split(token, '.') == [header, payload];
    assert token != "";
  }
}

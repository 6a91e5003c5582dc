/**
 * The bearer/expiry gate of the user service (`encodeJWT`, `decodeJWT`,
 * `get_current_user`). Signing and signature verification are left to
 * function parameters: `jwtDecode(token)` is what the JWT library returns for
 * a token (None when it raises), `sign` is what it produces for a payload.
 */
module Auth {
  import opened Wrappers

  /** A JSON value inside a token's claims. */
  datatype Json = JNum(n: int) | JStr(s: string) | JBool(b: bool) | JNull | JOther

  /** The decoded claims: a JSON object. */
  type Claims = map<string, Json>

  /** What `decodeJWT` returns: the claims, `None`, or `False`. */
  datatype Decoded = Payload(claims: Claims) | NoneValue | FalseValue

  /** The outcome of `get_current_user`. `IndexError` is raised outside the 401 handling. */
  datatype AuthResult = Authenticated(payload: Claims) | Unauthorized(status: int, detail: string) | IndexError

  const BearerPrefix: string := "Bearer "
  const MissingBearer: string := "Missing bearer token"
  const InvalidOrExpired: string := "Invalid or expired token"
  const ConfigMissing: string := "JWT_SECRET and JWT_ALGORITHM must be set in environment variables"
  /** Tokens are issued for sixty minutes. */
  const Lifetime: nat := 3600

  // ---------------------------------------------------------------------------
  // Whitespace splitting (`str.split()` without arguments)

  /** The characters Python's `str.split()` treats as whitespace. */
  predicate IsSpace(c: char) {
    || c == ' ' || ('\t' <= c <= '\r') || ('\U{1C}' <= c <= '\U{1F}')
    || c == '\U{85}' || c == '\U{A0}' || c == '\U{1680}' || ('\U{2000}' <= c <= '\U{200A}')
    || c == '\U{2028}' || c == '\U{2029}' || c == '\U{202F}' || c == '\U{205F}' || c == '\U{3000}'
  }

  /** Length of the longest whitespace-free prefix of `s`. */
  function WordLength(s: string): (n: nat)
    ensures n <= |s|
    ensures forall i :: 0 <= i < n ==> !IsSpace(s[i])
    ensures n < |s| ==> IsSpace(s[n])
  {
    if s != [] && !IsSpace(s[0]) then 1 + WordLength(s[1..]) else 0
  }

  /** The whitespace-separated words of `s`, as `s.split()` returns them. */
  function Words(s: string): (ws: seq<string>)
    decreases |s|
  {
    if s == [] then []
    else if IsSpace(s[0]) then Words(s[1..])
    else [s[..WordLength(s)]] + Words(s[WordLength(s)..])
  }

  /** A string without whitespace. */
  predicate IsWord(w: string) {
    w != [] && forall i :: 0 <= i < |w| ==> !IsSpace(w[i])
  }

  /** `split()` yields no word exactly when the string is all whitespace, and otherwise
      every word it yields is non-empty and free of whitespace. */
  lemma {:induction false} WordsEmptyIff(s: string)
    ensures Words(s) == [] <==> forall i :: 0 <= i < |s| ==> IsSpace(s[i])
    ensures forall w :: w in Words(s) ==> IsWord(w)
    decreases |s|
  {
    if s != [] && IsSpace(s[0]) {
      WordsEmptyIff(s[1..]);
      assert forall i :: 1 <= i < |s| ==> s[i] == s[1..][i - 1];
    } else if s != [] {
      var n := WordLength(s);
      WordsEmptyIff(s[n..]);
      assert IsWord(s[..n]);
    }
  }

  /** Whitespace in front of the string does not change its words. */
  lemma {:induction false} WordsSkipSpaces(sp: string, rest: string)
    requires forall i :: 0 <= i < |sp| ==> IsSpace(sp[i])
    ensures Words(sp + rest) == Words(rest)
    decreases |sp|
  {
    if sp == [] {
      assert sp + rest == rest;
    } else {
      assert (sp + rest)[1..] == sp[1..] + rest;
      WordsSkipSpaces(sp[1..], rest);
    }
  }

  /** A word followed by nothing or by whitespace is split off whole. */
  lemma {:induction false} WordsOfWordThenRest(w: string, rest: string)
    requires IsWord(w)
    requires rest == [] || IsSpace(rest[0])
    ensures Words(w + rest) == [w] + Words(rest)
  {
    var s := w + rest;
    assert s[0] == w[0];
    WordLengthOf(w, rest);
    assert s[..|w|] == w && s[|w|..] == rest;
  }

  lemma {:induction false} WordLengthOf(w: string, rest: string)
    requires forall i :: 0 <= i < |w| ==> !IsSpace(w[i])
    requires rest == [] || IsSpace(rest[0])
    ensures WordLength(w + rest) == |w|
    decreases |w|
  {
    if w != [] {
      assert (w + rest)[1..] == w[1..] + rest;
      WordLengthOf(w[1..], rest);
    } else {
      assert w + rest == rest;
    }
  }

  /** The header "Bearer <rest>" splits into "Bearer" followed by the words of `rest`. */
  lemma BearerWords(rest: string)
    ensures Words(BearerPrefix + rest) == ["Bearer"] + Words(rest)
  {
    assert BearerPrefix + rest == "Bearer" + (" " + rest);
    WordsOfWordThenRest("Bearer", " " + rest);
    WordsSkipSpaces(" ", rest);
  }

  // ---------------------------------------------------------------------------
  // decodeJWT

  /** Python's `expires >= now` on a JSON value: a number or a boolean compares,
      anything else raises `TypeError`. */
  function NotExpired(expires: Json, now: nat): Option<bool> {
    match expires
    case JNum(n) => Some(n >= now)
    case JBool(b) => Some((if b then 1 else 0) >= now)
    case _ => None
  }

  /** `decodeJWT`: the claims while `expires >= now`, `None` once past expiry, and `False`
      whenever anything raises (bad signature, malformed token, missing or incomparable
      "expires"). `verified` is what the JWT library returned for the token. */
  function DecodeJWT(verified: Option<Claims>, now: nat): (d: Decoded)
    ensures d.Payload? ==> verified == Some(d.claims) && "expires" in d.claims
  {
    if verified.None? || "expires" !in verified.value then FalseValue
    else match NotExpired(verified.value["expires"], now)
      case None => FalseValue
      case Some(ok) => if ok then Payload(verified.value) else NoneValue
  }

  /** The three outcomes of `decodeJWT`: `False` exactly when the library raised or "expires"
      is missing or not comparable with a number, `None` exactly when a comparable "expires"
      lies before `now`, and the claims otherwise. */
  lemma DecodeJWTOutcomes(verified: Option<Claims>, now: nat)
    ensures DecodeJWT(verified, now) == FalseValue <==>
      verified.None? || "expires" !in verified.value || NotExpired(verified.value["expires"], now).None?
    ensures DecodeJWT(verified, now) == NoneValue <==>
      verified.Some? && "expires" in verified.value && NotExpired(verified.value["expires"], now) == Some(false)
    ensures DecodeJWT(verified, now).Payload? <==>
      verified.Some? && "expires" in verified.value && NotExpired(verified.value["expires"], now) == Some(true)
  {
  }

  /** Python truthiness of the value `decodeJWT` returned. */
  predicate Falsy(d: Decoded) {
    !d.Payload? || d.claims == map[]
  }

  /** The expiry boundary: a token whose numeric expiry is at or after `now` is accepted,
      one whose expiry has passed yields `None`. */
  lemma ExpiryBoundary(c: Claims, e: int, now: nat)
    requires "expires" in c && c["expires"] == JNum(e)
    ensures DecodeJWT(Some(c), now) == (if e >= now then Payload(c) else NoneValue)
    ensures e == now ==> DecodeJWT(Some(c), now) == Payload(c)
  {
  }

  // ---------------------------------------------------------------------------
  // get_current_user

  predicate HasBearerPrefix(h: string) {
    |h| >= |BearerPrefix| && h[..|BearerPrefix|] == BearerPrefix
  }

  /** `get_current_user` on the value of the Authorization header (None when absent). */
  function GetCurrentUser(header: Option<string>, jwtDecode: string -> Option<Claims>, now: nat): (r: AuthResult)
    ensures r.Unauthorized? ==> r.status == 401
    ensures r.Authenticated? ==>
      header.Some? && HasBearerPrefix(header.value) && |Words(header.value)| >= 2 &&
      jwtDecode(Words(header.value)[1]) == Some(r.payload) && r.payload != map[]
  {
    if header.None? || header.value == "" || !HasBearerPrefix(header.value) then
      Unauthorized(401, MissingBearer)
    else
      var words := Words(header.value);
      if |words| < 2 then IndexError
      else
        var payload := DecodeJWT(jwtDecode(words[1]), now);
        if Falsy(payload) then Unauthorized(401, InvalidOrExpired)
        else Authenticated(payload.claims)
  }

  /** A missing header, or one not starting with exactly "Bearer " (case and space included),
      is refused with "Missing bearer token", and only such headers are. */
  lemma MissingBearerIff(header: Option<string>, jwtDecode: string -> Option<Claims>, now: nat)
    ensures GetCurrentUser(header, jwtDecode, now) == Unauthorized(401, MissingBearer) <==>
      header.None? || !HasBearerPrefix(header.value)
  {
  }

  /** The token is the first word after the prefix; a header that holds nothing but
      whitespace after "Bearer " fails at the split with `IndexError`. */
  lemma TokenIsSecondWord(rest: string, jwtDecode: string -> Option<Claims>, now: nat)
    ensures var r := GetCurrentUser(Some(BearerPrefix + rest), jwtDecode, now);
      && (r.IndexError? <==> forall i :: 0 <= i < |rest| ==> IsSpace(rest[i]))
      && (r.Authenticated? ==> |Words(rest)| >= 1 && jwtDecode(Words(rest)[0]) == Some(r.payload))
  {
    var h := BearerPrefix + rest;
    assert h[..|BearerPrefix|] == BearerPrefix;
    BearerWords(rest);
    WordsEmptyIff(rest);
  }

  /** The gate passes the payload through unchanged exactly when the header carries a token
      the library accepts and whose "expires" has not passed; every other decode outcome
      (`None`, `False`, an empty object) becomes 401 "Invalid or expired token". The token is
      the first word after the prefix, however much whitespace precedes or follows it. */
  lemma {:induction false} GateAcceptsIff(rest: string, jwtDecode: string -> Option<Claims>, now: nat)
    requires |Words(rest)| >= 1
    ensures var tok := Words(rest)[0];
      var r := GetCurrentUser(Some(BearerPrefix + rest), jwtDecode, now);
      && (r.Authenticated? <==> DecodeJWT(jwtDecode(tok), now).Payload?)
      && (r.Authenticated? ==> r.payload == jwtDecode(tok).value)
      && (!r.Authenticated? ==> r == Unauthorized(401, InvalidOrExpired))
  {
    var h := BearerPrefix + rest;
    assert h[..|BearerPrefix|] == BearerPrefix;
    BearerWords(rest);
  }

  // ---------------------------------------------------------------------------
  // encodeJWT

  /** The payload of a token issued to `userId` at time `now`. */
  function IssuedPayload(userId: string, now: nat): Claims {
    map["user_id" := JStr(userId), "expires" := JNum(now + Lifetime)]
  }

  /** Python truthiness of an optional configuration string. */
  predicate Configured(v: Option<string>) {
    v.Some? && v.value != ""
  }

  /** `encodeJWT`: refuses with `ValueError` unless both the secret and the algorithm are set,
      and only then signs the payload `{user_id, expires: now + 3600}`. */
  function EncodeJWT(userId: string, secret: Option<string>, algorithm: Option<string>, now: nat,
                     sign: (Claims, string, string) -> string): (r: Result<string, string>)
    ensures r.Failure? <==> !Configured(secret) || !Configured(algorithm)
    ensures r.Failure? ==> r.error == ConfigMissing
    ensures r.Success? ==> r.value == sign(IssuedPayload(userId, now), secret.value, algorithm.value)
  {
    var payload := IssuedPayload(userId, now);
    if !Configured(secret) || !Configured(algorithm) then Failure(ConfigMissing)
    else Success(sign(payload, secret.value, algorithm.value))
  }

  /** A token issued at `issued` is accepted by the gate exactly until `issued + 3600`
      inclusive, provided the JWT library decodes what it signed back to the same payload. */
  lemma IssuedTokenLifetime(userId: string, secret: Option<string>, algorithm: Option<string>, issued: nat,
                            sign: (Claims, string, string) -> string,
                            jwtDecode: string -> Option<Claims>, now: nat)
    requires EncodeJWT(userId, secret, algorithm, issued, sign).Success?
    requires var tok := EncodeJWT(userId, secret, algorithm, issued, sign).value;
      IsWord(tok) && jwtDecode(tok) == Some(IssuedPayload(userId, issued))
    ensures var tok := EncodeJWT(userId, secret, algorithm, issued, sign).value;
      GetCurrentUser(Some(BearerPrefix + tok), jwtDecode, now) ==
        if now <= issued + Lifetime then Authenticated(IssuedPayload(userId, issued))
        else Unauthorized(401, InvalidOrExpired)
  {
    var tok := EncodeJWT(userId, secret, algorithm, issued, sign).value;
    WordsOfWordThenRest(tok, []);
    assert tok + [] == tok;
    GateAcceptsIff(tok, jwtDecode, now);
  }
}

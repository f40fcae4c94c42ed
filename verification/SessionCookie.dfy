/** The signed session cookie of internal/auth/session_cookie.go. The keyed hash is any function `mac` on bytes. */
module SessionCookie {
  import opened Wrappers
  import opened Text
  import opened Base64

  datatype VerifyError =
    | NoCookie
    | MalformedCookie
    | MalformedPayload
    | InvalidSignature
    | MalformedFields
    | MalformedUserID
    | MalformedExpiry
    | Expired

  type Mac = seq<Byte> -> seq<Byte>

  function Sign(mac: Mac, payload: seq<Byte>): string {
    Encode(Url, mac(payload))
  }

  function Payload(userID: int, expiry: int): string {
    PrintInt(userID) + "|" + PrintInt(expiry)
  }

  lemma PayloadIsAscii(userID: int, expiry: int)
    ensures forall i :: 0 <= i < |Payload(userID, expiry)| ==> Payload(userID, expiry)[i] as int < 256
  {
    PrintIntChars(userID);
    PrintIntChars(expiry);
  }

  /** The value IssueCookie sets. */
  function IssueCookie(mac: Mac, userID: int, expiry: int): string {
    PayloadIsAscii(userID, expiry);
    var payload := ToBytes(Payload(userID, expiry));
    Encode(Url, payload) + "." + Sign(mac, payload)
  }

  function Verify(mac: Mac, cookie: Option<string>, now: int): Result<int, VerifyError> {
    match cookie
    case None => Err(NoCookie)
    case Some(value) =>
      match Cut(value, '.')
      case None => Err(MalformedCookie)
      case Some((payloadRaw, signature)) =>
        match Decode(Url, payloadRaw)
        case None => Err(MalformedPayload)
        case Some(bytes) =>
          if signature != Sign(mac, bytes) then Err(InvalidSignature)
          else VerifyFields(FromBytes(bytes), now)
  }

  function VerifyFields(payload: string, now: int): Result<int, VerifyError> {
    match Cut(payload, '|')
    case None => Err(MalformedFields)
    case Some((user, exp)) =>
      match ParseInt64(user)
      case None => Err(MalformedUserID)
      case Some(userID) =>
        match ParseInt64(exp)
        case None => Err(MalformedExpiry)
        case Some(expiry) => if now > expiry then Err(Expired) else Ok(userID)
  }

  /** The signature is the keyed hash of the payload, in the URL alphabet. */
  lemma SignatureDecodes(mac: Mac, payload: seq<Byte>)
    ensures Decode(Url, Sign(mac, payload)) == Some(mac(payload))
  {
    DecodeEncode(Url, mac(payload));
  }

  /** An issued cookie gives its user id back up to and including its expiry, and is expired after it. */
  lemma IssuedCookieVerifies(mac: Mac, userID: int, expiry: int, now: int)
    requires MIN_INT64 <= userID <= MAX_INT64 && MIN_INT64 <= expiry <= MAX_INT64
    ensures Verify(mac, Some(IssueCookie(mac, userID, expiry)), now)
         == if now <= expiry then Ok(userID) else Err(Expired)
  {
    PayloadIsAscii(userID, expiry);
    var payload := Payload(userID, expiry);
    var bytes := ToBytes(payload);
    EncodeAvoidsSeparators(Url, bytes);
    CutJoin(Encode(Url, bytes), Sign(mac, bytes), '.');
    DecodeEncode(Url, bytes);
    assert FromBytes(bytes) == payload;
    PrintIntChars(userID);
    CutJoin(PrintInt(userID), PrintInt(expiry), '|');
    ParsePrintInt(userID);
    ParsePrintInt(expiry);
  }

  /** What a well-signed cookie for a user is, said by joining its parts rather than by taking it apart. */
  ghost predicate Genuine(mac: Mac, value: string, now: int, userID: int) {
    exists raw, bytes :: IsSigned(mac, value, raw, bytes) && GenuineFields(FromBytes(bytes), now, userID)
  }

  ghost predicate IsSigned(mac: Mac, value: string, raw: string, bytes: seq<Byte>) {
    '.' !in raw && value == raw + ['.'] + Sign(mac, bytes) && Decode(Url, raw) == Some(bytes)
  }

  ghost predicate GenuineFields(payload: string, now: int, userID: int) {
    exists user, exp :: AreFields(payload, user, exp, now, userID)
  }

  ghost predicate AreFields(payload: string, user: string, exp: string, now: int, userID: int) {
    && '|' !in user && payload == user + ['|'] + exp && ParseInt64(user) == Some(userID)
    && ParseInt64(exp).Some? && now <= ParseInt64(exp).value
  }

  lemma AcceptedFields(payload: string, now: int, userID: int)
    ensures VerifyFields(payload, now) == Ok(userID) <==> GenuineFields(payload, now, userID)
  {
    if VerifyFields(payload, now) == Ok(userID) {
      var (user, exp) := Cut(payload, '|').value;
      assert AreFields(payload, user, exp, now, userID);
    }
    if GenuineFields(payload, now, userID) {
      var user, exp :| AreFields(payload, user, exp, now, userID);
      CutJoin(user, exp, '|');
    }
  }

  lemma SignedIsVerified(mac: Mac, value: string, raw: string, bytes: seq<Byte>, now: int)
    requires IsSigned(mac, value, raw, bytes)
    ensures Verify(mac, Some(value), now) == VerifyFields(FromBytes(bytes), now)
  {
    CutJoin(raw, Sign(mac, bytes), '.');
  }

  /** A cookie is accepted for a user exactly when it carries the signature of its own decoded payload, unexpired. */
  lemma AcceptedIsGenuine(mac: Mac, value: string, now: int, userID: int)
    ensures Verify(mac, Some(value), now) == Ok(userID) <==> Genuine(mac, value, now, userID)
  {
    if Verify(mac, Some(value), now) == Ok(userID) {
      var (raw, signature) := Cut(value, '.').value;
      var bytes := Decode(Url, raw).value;
      assert IsSigned(mac, value, raw, bytes);
      AcceptedFields(FromBytes(bytes), now, userID);
    }
    if Genuine(mac, value, now, userID) {
      var raw, bytes :| IsSigned(mac, value, raw, bytes) && GenuineFields(FromBytes(bytes), now, userID);
      SignedIsVerified(mac, value, raw, bytes, now);
      AcceptedFields(FromBytes(bytes), now, userID);
    }
  }

  /** No two different users or expiries share a cookie, whatever the key. */
  lemma CookiesAreDistinct(mac: Mac, u: int, e: int, v: int, f: int)
    requires MIN_INT64 <= u <= MAX_INT64 && MIN_INT64 <= e <= MAX_INT64
    requires MIN_INT64 <= v <= MAX_INT64 && MIN_INT64 <= f <= MAX_INT64
    ensures IssueCookie(mac, u, e) == IssueCookie(mac, v, f) <==> u == v && e == f
  {
    if IssueCookie(mac, u, e) == IssueCookie(mac, v, f) {
      IssuedCookieVerifies(mac, u, e, e);
      IssuedCookieVerifies(mac, v, f, e);
      IssuedCookieVerifies(mac, u, e, f);
      IssuedCookieVerifies(mac, v, f, f);
    }
  }

  /** No cookie, one without a dot, one whose payload is not base64, one with another signature: each has its error. */
  lemma RefusedCookies(mac: Mac, value: string, raw: string, signature: string, now: int)
    requires '.' !in raw
    ensures Verify(mac, None, now) == Err(NoCookie)
    ensures Verify(mac, Some(value), now) == Err(MalformedCookie) <==> '.' !in value
    ensures Verify(mac, Some(raw + ['.'] + signature), now) == Err(MalformedPayload) <==> Decode(Url, raw).None?
    ensures Verify(mac, Some(raw + ['.'] + signature), now) == Err(InvalidSignature) <==>
            Decode(Url, raw).Some? && signature != Sign(mac, Decode(Url, raw).value)
  {
    CutJoin(raw, signature, '.');
    if Cut(value, '.').Some? {
      var parts := Cut(value, '.').value;
      assert value[|parts.0|] == '.';
    }
  }

  ghost predicate IsInt64Numeral(s: string) {
    exists v :: IsNumeral(s, v) && MIN_INT64 <= v <= MAX_INT64
  }

  lemma ParsesIff(s: string)
    ensures ParseInt64(s).Some? <==> IsInt64Numeral(s)
  {
    if ParseInt64(s).Some? {
      ParseInt64Iff(s, ParseInt64(s).value);
    }
    if IsInt64Numeral(s) {
      var v :| IsNumeral(s, v) && MIN_INT64 <= v <= MAX_INT64;
      ParseInt64Iff(s, v);
    }
  }

  /** And so has each fault of a signed payload, looked for in this order: no bar, the user id, the expiry, its age. */
  lemma RefusedFields(payload: string, user: string, exp: string, now: int)
    requires '|' !in user
    ensures VerifyFields(payload, now) == Err(MalformedFields) <==> '|' !in payload
    ensures VerifyFields(user + ['|'] + exp, now) == Err(MalformedUserID) <==> !IsInt64Numeral(user)
    ensures VerifyFields(user + ['|'] + exp, now) == Err(MalformedExpiry) <==>
            IsInt64Numeral(user) && !IsInt64Numeral(exp)
    ensures VerifyFields(user + ['|'] + exp, now) == Err(Expired) <==>
            IsInt64Numeral(user) && exists e :: IsNumeral(exp, e) && MIN_INT64 <= e <= MAX_INT64 && e < now
  {
    CutJoin(user, exp, '|');
    ParsesIff(user);
    ParsesIff(exp);
    if Cut(payload, '|').Some? {
      var parts := Cut(payload, '|').value;
      assert payload[|parts.0|] == '|';
    }
    if ParseInt64(exp).Some? {
      ParseInt64Iff(exp, ParseInt64(exp).value);
    }
    if e :| IsNumeral(exp, e) && MIN_INT64 <= e <= MAX_INT64 && e < now {
      ParseInt64Iff(exp, e);
    }
  }
}

/** Bearer-token helpers of the web server (src/webServer/security/JWTHandler.ts).

    The signature check itself is cryptography and stays abstract: a `Decoder`
    says, for a compact token text, whether it decodes at all and, if so, which
    algorithm its header names, whether the RSA signature over it checks out
    against the embedded public key, and which time claims it carries. Around that
    abstraction the verifier library's decision procedure is written out, so that
    the effect of the options `{algorithms: ["RS256"], ignoreExpiration: true}`
    can be stated and proved. */
module JwtHandler {
  import opened Wrappers
  import opened JsValues

  /** A time claim of the payload: absent, a number of seconds, or some other JSON value. */
  datatype TimeClaim = Absent | Seconds(t: int) | NotANumber

  datatype DecodedToken = DecodedToken(alg: string, signatureValid: bool, nbf: TimeClaim, exp: TimeClaim)

  /** The library's view of a token text: `None` when it is not a decodable JWT. */
  type Decoder = string -> Option<DecodedToken>

  /** What verification depends on besides the token: the decoder and the clock, in Unix seconds. */
  datatype Verifier = Verifier(decode: Decoder, now: int)

  datatype VerifyOptions = VerifyOptions(algorithms: seq<string>, ignoreExpiration: bool)

  /** The reasons for which the library throws. */
  datatype VerifyError =
    | JwtMustBeProvided
    | Malformed
    | AlgorithmNotAllowed
    | InvalidSignature
    | InvalidNbf
    | NotActive
    | InvalidExp
    | Expired

  /** The options the handler passes: RS256 only, expiry ignored. */
  const HandlerOptions := VerifyOptions(["RS256"], true)

  /** `jwt.verify(token, key, opts)` with a zero clock tolerance; `Err` stands for a throw.
      `None` is an `undefined` token. */
  function LibraryVerify(v: Verifier, token: Option<string>, opts: VerifyOptions): Result<DecodedToken, VerifyError>
  {
    if !TruthyText(token) then Err(JwtMustBeProvided)
    else match v.decode(token.value)
      case None => Err(Malformed)
      case Some(d) =>
        if d.alg !in opts.algorithms then Err(AlgorithmNotAllowed)
        else if !d.signatureValid then Err(InvalidSignature)
        else if d.nbf.NotANumber? then Err(InvalidNbf)
        else if d.nbf.Seconds? && d.nbf.t > v.now then Err(NotActive)
        else if !opts.ignoreExpiration && d.exp.NotANumber? then Err(InvalidExp)
        else if !opts.ignoreExpiration && d.exp.Seconds? && v.now >= d.exp.t then Err(Expired)
        else Ok(d)
  }

  /** `JWTHandler.verifyJwt`: true when the library returns, false when it throws. */
  function VerifyJwt(v: Verifier, token: Option<string>): (ok: bool)
    ensures ok <==> LibraryVerify(v, token, HandlerOptions).Ok?
  {
    match LibraryVerify(v, token, HandlerOptions)
    case Ok(_) => true
    case Err(_) => false
  }

  /** What `verifyJwt` accepts, stated without the library's control flow. */
  predicate AcceptedToken(v: Verifier, token: string)
  {
    && token != ""
    && v.decode(token).Some?
    && v.decode(token).value.alg == "RS256"
    && v.decode(token).value.signatureValid
    && match v.decode(token).value.nbf
       case Absent => true
       case Seconds(t) => t <= v.now
       case NotANumber => false
  }

  lemma VerifyJwtAccepts(v: Verifier, token: Option<string>)
    ensures VerifyJwt(v, token) <==> token.Some? && AcceptedToken(v, token.value)
  {
  }

  /** Decoder that reports the given `exp` claim for every token. */
  function WithExp(decode: Decoder, exp: TimeClaim): Decoder
  {
    (s: string) => match decode(s) case None => None case Some(d) => Some(d.(exp := exp))
  }

  /** Expiry is ignored: changing the `exp` claim of every token changes no verdict. */
  lemma ExpiryIgnored(v: Verifier, token: Option<string>, exp: TimeClaim)
    ensures VerifyJwt(Verifier(WithExp(v.decode, exp), v.now), token) == VerifyJwt(v, token)
  {
  }

  /** Without a `nbf` claim the verdict does not depend on the clock. */
  lemma NoClockWithoutNotBefore(decode: Decoder, token: string, now1: int, now2: int)
    requires decode(token).Some? ==> decode(token).value.nbf.Absent?
    ensures VerifyJwt(Verifier(decode, now1), Some(token)) == VerifyJwt(Verifier(decode, now2), Some(token))
  {
  }

  /** The `ignoreExpiration` option matters: the same expired, correctly signed token
      is rejected by the library's default options and accepted by the handler's. */
  lemma ExpiredTokenStillAccepted(v: Verifier, token: string)
    requires token != ""
    requires v.decode(token) == Some(DecodedToken("RS256", true, Absent, Seconds(v.now - 1)))
    ensures LibraryVerify(v, Some(token), VerifyOptions(["RS256"], false)) == Err(Expired)
    ensures VerifyJwt(v, Some(token))
  {
  }

  /** Only RS256 is accepted: a token signed under any other algorithm name is refused. */
  lemma OnlyRS256(v: Verifier, token: string)
    requires v.decode(token).Some? && v.decode(token).value.alg != "RS256"
    ensures !VerifyJwt(v, Some(token))
  {
  }

  // ---------------------------------------------------------------------------
  // Header helpers

  /** `checkJWTAvailability`: an `authorization` header is present and starts with "Bearer ". */
  function CheckJwtAvailability(authorization: Option<string>): (available: bool)
    ensures available <==> authorization.Some? && "Bearer " <= authorization.value
  {
    if TruthyText(authorization) then "Bearer " <= authorization.value else false
  }

  /** Thrown when the header is missing: `undefined.split` is a TypeError. */
  datatype HeaderError = MissingHeader

  /** `extractJwtFromRequest`: the second piece of the header split on spaces;
      `Ok(None)` is `undefined` (no space at all). */
  function ExtractJwt(authorization: Option<string>): (r: Result<Option<string>, HeaderError>)
    ensures r.Err? <==> authorization.None?
  {
    match authorization
    case None => Err(MissingHeader)
    case Some(h) =>
      var parts := Split(h, ' ');
      if |parts| >= 2 then Ok(Some(parts[1])) else Ok(None)
  }

  /** When the header passes the availability check, the extracted token is the text
      after "Bearer " up to the next space. */
  lemma ExtractAfterBearer(authorization: Option<string>)
    requires CheckJwtAvailability(authorization)
    ensures ExtractJwt(authorization) == Ok(Some(TakeUntil(authorization.value[7..], ' ')))
  {
    var h := authorization.value;
    assert h == "Bearer" + [' '] + h[7..] by {
      assert h[..7] == "Bearer ";
    }
    SecondPiece("Bearer", h[7..]);
  }

  /** The second space-separated piece of `p rest` is `rest` up to its next space. */
  lemma SecondPiece(p: string, rest: string)
    requires ' ' !in p
    ensures ExtractJwt(Some(p + [' '] + rest)) == Ok(Some(TakeUntil(rest, ' ')))
  {
    SplitCons(p, ' ', rest);
    SplitHead(rest, ' ');
  }

  /** A header without any space yields `undefined`. */
  lemma ExtractWithoutSpace(h: string)
    requires ' ' !in h
    ensures ExtractJwt(Some(h)) == Ok(None)
  {
    SplitNoSeparator(h, ' ');
  }
}

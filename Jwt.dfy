/**
 * The token checks and token minting of `JwtService`. JWS/JWT signing and parsing
 * (RFC 7515, RFC 7519) are not modelled: a `Codec` carries the signer and the verifying
 * parser, with the signing key bound into both. The clock is a parameter: each read of
 * `System.currentTimeMillis()` / `new Date()` is one argument, in milliseconds.
 */
module Jwt {
  import opened Wrappers
  import opened Errors
  import opened TokenEntity
  import opened Ledger

  const MinLong: int := -0x8000_0000_0000_0000
  const MaxLong: int := 0x7FFF_FFFF_FFFF_FFFF

  /** Java's `long`: milliseconds since the epoch and the configured durations. */
  type Long = x: int | -0x8000_0000_0000_0000 <= x < 0x8000_0000_0000_0000

  /** Java's `long` addition, which wraps around modulo 2^64. */
  function AddLong(a: Long, b: Long): (r: Long)
    ensures (r - (a + b)) % 0x1_0000_0000_0000_0000 == 0
    ensures MinLong <= a + b <= MaxLong ==> r == a + b
  {
    if a + b > MaxLong then a + b - 0x1_0000_0000_0000_0000
    else if a + b < MinLong then a + b + 0x1_0000_0000_0000_0000
    else a + b
  }

  /**
   * The payload of a verified token: `sub` (section 4.1.2 of RFC 7519), `iat`
   * (section 4.1.6) and `exp` (section 4.1.4), the two dates in milliseconds.
   * Each claim may be absent, and then its getter answers null.
   */
  datatype Claims = Claims(subject: Option<string>, issuedAt: Option<Long>, expiration: Option<Long>)

  /**
   * The JWT library with the service's signing key: `sign` builds and signs a compact
   * token, `parse` verifies one and yields its claims, or nothing when the token is
   * malformed or its signature does not match.
   */
  datatype Codec = Codec(sign: Claims -> string, parse: string -> Option<Claims>)

  /** Parsing what was signed with the same key gives back the claims that were signed. */
  ghost predicate Sound(codec: Codec)
  {
    forall c: Claims :: codec.parse(codec.sign(c)) == Some(c)
  }

  /** The service's configuration: the key (inside the codec) and the two lifetimes in ms. */
  datatype JwtService = JwtService(codec: Codec, accessTokenExpiration: Long, refreshTokenExpiration: Long)

  /** `extractClaim`: verify the token, then project one claim out of its payload. */
  function ExtractClaim<T>(svc: JwtService, token: string, resolver: Claims -> T): (r: Result<T, Exception>)
    ensures r.Success? <==> svc.codec.parse(token).Some?
    ensures r.Success? ==> r.value == resolver(svc.codec.parse(token).value)
    ensures r.Failure? ==> r.error == JwtException
  {
    match svc.codec.parse(token)
    case None => Failure(JwtException)
    case Some(claims) => Success(resolver(claims))
  }

  /** `extractUsername`: the `sub` claim of a verified token, which may be null. */
  function ExtractUsername(svc: JwtService, token: string): (r: Result<Option<string>, Exception>)
    ensures r.Success? <==> svc.codec.parse(token).Some?
    ensures r.Success? ==> r.value == svc.codec.parse(token).value.subject
    ensures r.Failure? ==> r.error == JwtException
  {
    ExtractClaim(svc, token, (c: Claims) => c.subject)
  }

  /** `extractExpiration`: the `exp` claim of a verified token, which may be null. */
  function ExtractExpiration(svc: JwtService, token: string): (r: Result<Option<Long>, Exception>)
    ensures r.Success? <==> svc.codec.parse(token).Some?
    ensures r.Success? ==> r.value == svc.codec.parse(token).value.expiration
    ensures r.Failure? ==> r.error == JwtException
  {
    ExtractClaim(svc, token, (c: Claims) => c.expiration)
  }

  /**
   * `isTokenExpired`, misnamed: true when the token has NOT expired, i.e. its expiry is
   * not before `now`, so a token is still accepted at exactly its expiry instant.
   * A token without an `exp` claim makes the date comparison throw.
   */
  function IsTokenExpired(svc: JwtService, token: string, now: Long): (r: Result<bool, Exception>)
    ensures r.Success? <==> svc.codec.parse(token).Some? && svc.codec.parse(token).value.expiration.Some?
    ensures r.Success? ==> (r.value <==> now <= svc.codec.parse(token).value.expiration.value)
    ensures r.Failure? ==> r.error == (if svc.codec.parse(token).None? then JwtException else NullPointerException)
  {
    match ExtractExpiration(svc, token)
    case Failure(e) => Failure(e)
    case Success(None) => Failure(NullPointerException)
    case Success(Some(exp)) => Success(!(exp < now))
  }

  /**
   * When a token is accepted, stated without the order of evaluation: it verifies, its
   * subject is the user, its expiry is not before `now`, and exactly one row holds it in
   * the looked-up column, a row that has not been logged out.
   */
  ghost predicate Accepted(svc: JwtService, rows: seq<Token>, col: Column, token: string, username: string, now: Long)
    reads rows
  {
    match svc.codec.parse(token)
    case None => false
    case Some(c) =>
      c.subject == Some(username) && c.expiration.Some? && now <= c.expiration.value &&
      Unique(rows, col, token) &&
      exists i :: 0 <= i < |rows| && Key(rows[i], col) == Some(token) && !rows[i].loggedOut
  }

  /**
   * The check shared by `isValid` (access column) and `isValidRefreshToken` (refresh
   * column), in the source's order of evaluation: parse and read the subject; look the
   * row up and read its inverted flag; compare the subject (a null subject throws);
   * only when it matches, parse again for the expiry; finally the ledger verdict.
   */
  function Check(svc: JwtService, rows: seq<Token>, col: Column, token: string, username: string, now: Long)
    : (r: Result<bool, Exception>)
    reads rows
    ensures svc.codec.parse(token).None? <==> r == Failure(JwtException)
    ensures r == Failure(IncorrectResultSizeException) <==>
              svc.codec.parse(token).Some? && !Unique(rows, col, token)
    ensures r == Failure(NullPointerException) <==>
              svc.codec.parse(token).Some? && Unique(rows, col, token) &&
              (svc.codec.parse(token).value.subject.None? ||
               (svc.codec.parse(token).value.subject == Some(username) &&
                svc.codec.parse(token).value.expiration.None?))
    ensures r == Success(true) <==> Accepted(svc, rows, col, token, username, now)
  {
    match ExtractUsername(svc, token)
    case Failure(e) => Failure(e)
    case Success(subject) =>
      match FindBy(rows, col, token)
      case Failure(e) => Failure(e)
      case Success(row) =>
        var validToken := match row case Some(t) => t.IsLoggedOut() case None => false;
        if subject.None? then Failure(NullPointerException)
        else if subject.value != username then Success(false)
        else
          match IsTokenExpired(svc, token, now)
          case Failure(e) => Failure(e)
          case Success(live) => Success(live && validToken)
  }

  /** `isValid`: may this access token be used by `username` at time `now`? */
  function IsValid(svc: JwtService, rows: seq<Token>, token: string, username: string, now: Long)
    : (r: Result<bool, Exception>)
    reads rows
    ensures r == Success(true) <==> Accepted(svc, rows, AccessTokenColumn, token, username, now)
    ensures svc.codec.parse(token).None? <==> r == Failure(JwtException)
  {
    Check(svc, rows, AccessTokenColumn, token, username, now)
  }

  /** `isValidRefreshToken`: the same check, with the row found by its refresh token. */
  function IsValidRefreshToken(svc: JwtService, rows: seq<Token>, token: string, username: string, now: Long)
    : (r: Result<bool, Exception>)
    reads rows
    ensures r == Success(true) <==> Accepted(svc, rows, RefreshTokenColumn, token, username, now)
    ensures svc.codec.parse(token).None? <==> r == Failure(JwtException)
  {
    Check(svc, rows, RefreshTokenColumn, token, username, now)
  }

  /**
   * `generateToken`: sign `sub` = the username, `iat` = the first clock read and
   * `exp` = the second clock read plus the lifetime, in `long` arithmetic.
   */
  function GenerateToken(svc: JwtService, username: string, expiryTime: Long, issuedClock: Long, expiryClock: Long)
    : (r: string)
    ensures Sound(svc.codec) ==>
            svc.codec.parse(r) == Some(Claims(Some(username), Some(issuedClock), Some(AddLong(expiryClock, expiryTime))))
  {
    svc.codec.sign(Claims(Some(username), Some(issuedClock), Some(AddLong(expiryClock, expiryTime))))
  }

  /** `generateAccessToken`: a token for the user living `accessTokenExpiration` ms. */
  function GenerateAccessToken(svc: JwtService, username: string, issuedClock: Long, expiryClock: Long): (r: string)
    ensures Sound(svc.codec) ==> ExtractUsername(svc, r) == Success(Some(username))
    ensures Sound(svc.codec) ==>
            ExtractExpiration(svc, r) == Success(Some(AddLong(expiryClock, svc.accessTokenExpiration)))
  {
    GenerateToken(svc, username, svc.accessTokenExpiration, issuedClock, expiryClock)
  }

  /** `generateRefreshToken`: a token for the user living `refreshTokenExpiration` ms. */
  function GenerateRefreshToken(svc: JwtService, username: string, issuedClock: Long, expiryClock: Long): (r: string)
    ensures Sound(svc.codec) ==> ExtractUsername(svc, r) == Success(Some(username))
    ensures Sound(svc.codec) ==>
            ExtractExpiration(svc, r) == Success(Some(AddLong(expiryClock, svc.refreshTokenExpiration)))
  {
    GenerateToken(svc, username, svc.refreshTokenExpiration, issuedClock, expiryClock)
  }
}

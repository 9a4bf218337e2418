/**
 * What the token checks and token minting of `JwtService` guarantee, proved against
 * the model in module Jwt and the ledger lookups in module Ledger.
 */
module JwtProperties {
  import opened Wrappers
  import opened Errors
  import opened TokenEntity
  import opened Ledger
  import opened Jwt

  /**
   * A token whose subject is another user is refused with `false` (the expiry is never
   * read), unless the ledger lookup, which comes first, already threw.
   */
  lemma RejectsOtherSubject(svc: JwtService, rows: seq<Token>, col: Column, token: string, username: string, now: Long)
    requires svc.codec.parse(token).Some?
    requires svc.codec.parse(token).value.subject.Some?
    requires svc.codec.parse(token).value.subject.value != username
    ensures Check(svc, rows, col, token, username, now) ==
            if Unique(rows, col, token) then Success(false) else Failure(IncorrectResultSizeException)
  {
  }

  /**
   * A token that no row holds in the looked-up column is never accepted, whatever its
   * subject and expiry; if it verifies and carries both claims, the answer is `false`.
   */
  lemma RejectsUnrecorded(svc: JwtService, rows: seq<Token>, col: Column, token: string, username: string, now: Long)
    requires forall k :: 0 <= k < |rows| ==> Key(rows[k], col) != Some(token)
    ensures Check(svc, rows, col, token, username, now) != Success(true)
    ensures svc.codec.parse(token).Some? && svc.codec.parse(token).value.subject.Some? &&
            svc.codec.parse(token).value.expiration.Some? ==>
            Check(svc, rows, col, token, username, now) == Success(false)
  {
  }

  /** A revoked row refuses its correctly signed, unexpired token for its own user. */
  lemma RejectsRevoked(svc: JwtService, rows: seq<Token>, col: Column, token: string, username: string, now: Long, i: int)
    requires 0 <= i < |rows| && Key(rows[i], col) == Some(token) && rows[i].loggedOut
    requires Unique(rows, col, token)
    requires svc.codec.parse(token).Some? && svc.codec.parse(token).value.subject.Some? &&
             svc.codec.parse(token).value.expiration.Some?
    ensures Check(svc, rows, col, token, username, now) == Success(false)
  {
    FoundRow(rows, col, token, i);
  }

  /**
   * A string held only in the access-token column is refused as a refresh token, even
   * when the same string passes as an access token.
   */
  lemma AccessTokenIsNotARefreshToken(svc: JwtService, rows: seq<Token>, token: string, username: string, now: Long, i: int)
    requires 0 <= i < |rows| && rows[i].accessToken == Some(token)
    requires forall k :: 0 <= k < |rows| ==> rows[k].refreshToken != Some(token)
    ensures IsValidRefreshToken(svc, rows, token, username, now) != Success(true)
  {
    RejectsUnrecorded(svc, rows, RefreshTokenColumn, token, username, now);
  }

  /** A token that does not verify makes both checks throw, whatever the ledger holds. */
  lemma UnverifiedTokenThrows(svc: JwtService, rows: seq<Token>, token: string, username: string, now: Long)
    requires svc.codec.parse(token).None?
    ensures IsValid(svc, rows, token, username, now) == Failure(JwtException)
    ensures IsValidRefreshToken(svc, rows, token, username, now) == Failure(JwtException)
  {
  }

  /** A verified token is still live at exactly its expiry instant and dead one ms later. */
  lemma ExpiryInstant(svc: JwtService, token: string, exp: Long)
    requires svc.codec.parse(token).Some? && svc.codec.parse(token).value.expiration == Some(exp)
    requires exp < MaxLong
    ensures IsTokenExpired(svc, token, exp) == Success(true)
    ensures IsTokenExpired(svc, token, exp + 1) == Success(false)
  {
  }

  /**
   * The claims of a minted token: `sub` is the username, `iat` the first clock read and
   * `exp` the second clock read plus the lifetime (exactly so unless the sum overflows).
   */
  lemma GeneratedClaims(svc: JwtService, username: string, expiryTime: Long, issuedClock: Long, expiryClock: Long)
    requires Sound(svc.codec)
    ensures var token := GenerateToken(svc, username, expiryTime, issuedClock, expiryClock);
            ExtractUsername(svc, token) == Success(Some(username)) &&
            ExtractClaim(svc, token, (c: Claims) => c.issuedAt) == Success(Some(issuedClock)) &&
            ExtractExpiration(svc, token) == Success(Some(AddLong(expiryClock, expiryTime)))
    ensures MinLong <= expiryClock + expiryTime <= MaxLong ==>
            ExtractExpiration(svc, GenerateToken(svc, username, expiryTime, issuedClock, expiryClock))
              == Success(Some(expiryClock + expiryTime))
  {
  }

  /** A minted token passes the expiry test up to and including issue time plus lifetime. */
  lemma FreshTokenLive(svc: JwtService, username: string, expiryTime: Long, issuedClock: Long, expiryClock: Long, now: Long)
    requires Sound(svc.codec)
    requires MinLong <= expiryClock + expiryTime <= MaxLong
    ensures IsTokenExpired(svc, GenerateToken(svc, username, expiryTime, issuedClock, expiryClock), now)
              == Success(now <= expiryClock + expiryTime)
  {
    GeneratedClaims(svc, username, expiryTime, issuedClock, expiryClock);
  }

  /**
   * A lifetime so long that clock plus lifetime overflows `long` wraps the expiry into
   * the past: such a token fails the expiry test from the moment it is minted.
   */
  lemma OverflowedLifetimeBornExpired(svc: JwtService, username: string, expiryTime: Long, issuedClock: Long, expiryClock: Long, now: Long)
    requires Sound(svc.codec)
    requires expiryClock + expiryTime > MaxLong
    requires expiryClock <= now
    ensures IsTokenExpired(svc, GenerateToken(svc, username, expiryTime, issuedClock, expiryClock), now) == Success(false)
  {
    GeneratedClaims(svc, username, expiryTime, issuedClock, expiryClock);
  }

  /**
   * End to end: a minted access token recorded in a single live row is accepted for its
   * user exactly until its expiry instant.
   */
  lemma IssuedAccessTokenAccepted(svc: JwtService, rows: seq<Token>, username: string, issuedClock: Long, expiryClock: Long, now: Long, i: int)
    requires Sound(svc.codec)
    requires MinLong <= expiryClock + svc.accessTokenExpiration <= MaxLong
    requires 0 <= i < |rows| && !rows[i].loggedOut
    requires rows[i].accessToken == Some(GenerateAccessToken(svc, username, issuedClock, expiryClock))
    requires Unique(rows, AccessTokenColumn, GenerateAccessToken(svc, username, issuedClock, expiryClock))
    ensures IsValid(svc, rows, GenerateAccessToken(svc, username, issuedClock, expiryClock), username, now)
              == Success(now <= expiryClock + svc.accessTokenExpiration)
  {
    var token := GenerateAccessToken(svc, username, issuedClock, expiryClock);
    GeneratedClaims(svc, username, svc.accessTokenExpiration, issuedClock, expiryClock);
    FoundRow(rows, AccessTokenColumn, token, i);
  }

  /** Logging out the row that holds an access token makes that token unusable. */
  method LogOutRevokes(svc: JwtService, rows: seq<Token>, token: string, username: string, now: Long, i: int)
    requires 0 <= i < |rows| && rows[i].accessToken == Some(token)
    modifies rows[i]
    ensures rows[i].Row() == old(rows[i].Row()).(loggedOut := true)
    ensures IsValid(svc, rows, token, username, now) != Success(true)
  {
    rows[i].SetLoggedOut(true);
  }
}

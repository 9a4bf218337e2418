# JWT access/refresh token checks, modelled in Dafny

This project models the core of a Spring Boot JWT authentication service. It covers
the `JwtService` checks that decide whether a presented access or refresh token is
accepted, the minting of those tokens, and the `Token` ledger row whose revocation
flag the checks read.

- `Token.dfy` (module `TokenEntity`): the mutable `Token` row as a class with the
  fields `id`, `accessToken`, `refreshToken`, `loggedOut` and `users`. Each setter
  changes exactly one field (stated through the `Row()` snapshot). `IsLoggedOut`
  keeps the source's inverted meaning: it is true when the row has NOT been logged out.
- `Ledger.dfy` (module `Ledger`): the token table as a sequence of `Token` rows, with
  the exact-match lookups `findByAccessToken` / `findByRefreshToken`. No match is a
  valid answer (`None`). Several matches raise the error a single-result query raises.
  The model proves that this error happens exactly when the column holds the token
  more than once.
- `Jwt.dfy` (module `Jwt`): `extractClaim`, `extractUsername`, `extractExpiration`,
  `isTokenExpired`, `isValid`, `isValidRefreshToken`, `generateToken`,
  `generateAccessToken` and `generateRefreshToken`. They are pure functions of the
  configuration, the ledger rows, the token string and the clock. The checks follow the
  source's order of evaluation and the outcomes it can end in: an answer, a failed parse,
  a null claim, or a lookup that matched several rows. `Accepted` states acceptance
  without the order of evaluation. The contracts of `isValid` and `isValidRefreshToken`
  prove each check true exactly when `Accepted` holds.
- `JwtProperties.dfy` (module `JwtProperties`): further guarantees. Lemmas cover subject mismatch,
  missing rows, revoked rows, the refresh column, parse failure, the expiry instant,
  the claims of minted tokens, and an end-to-end issue-then-validate result.

Abstractions:
- JWS/JWT signing and verification (RFC 7515, RFC 7519) are the two function values
  of a `Codec`, with the signing key bound into both. `Sound(codec)` says that parsing
  what was signed gives back the signed claims. It is a precondition of the lemmas
  about minted tokens, not an axiom.
- Each read of the clock is a parameter in milliseconds. `generateToken` reads the
  clock twice: once for `iat` and once for `exp`. So it takes two clock values.
- Java `long` arithmetic wraps around. `AddLong` models `now + expiryTime` with that
  wrap-around.
- Java exceptions are values of `Errors.Exception`, returned through `Result`.
  `JwtException` means parsing failed. `NullPointerException` means a claim that the
  code dereferences (`sub` or `exp`) is absent. `IncorrectResultSizeException` means a
  lookup matched more than one row.
- The owning user is represented by its username.

Behaviour of the code worth noting:
- A token is still accepted when its expiry equals the current instant (`!exp.before(now)`).
- The ledger is consulted right after the first parse, before the subject and the
  expiry are compared. So, under the clock-free parser of this model, a lookup error
  surfaces even for a token of another user.
- A token that fails verification makes both checks throw.

## Model

| member | source | states |
|---|---|---|
| TokenEntity.Token.constructor | src/main/java/com/jwt/auth/model/Token.java:7-26 | a new row has every reference field null and `loggedOut` false, so `IsLoggedOut()` is true |
| TokenEntity.Token.IsLoggedOut | src/main/java/com/jwt/auth/model/Token.java:52-54 | the answer is the negation of the stored `loggedOut` flag |
| TokenEntity.Token.SetRefreshToken | src/main/java/com/jwt/auth/model/Token.java:28-34 | afterwards the refresh token is the argument and no other field has changed |
| TokenEntity.Token.SetId | src/main/java/com/jwt/auth/model/Token.java:36-42 | afterwards the id is the argument and no other field has changed |
| TokenEntity.Token.SetAccessToken | src/main/java/com/jwt/auth/model/Token.java:44-50 | afterwards the access token is the argument and no other field has changed |
| TokenEntity.Token.SetLoggedOut | src/main/java/com/jwt/auth/model/Token.java:56-58 | afterwards the flag is the argument, `IsLoggedOut()` is its negation, and id, both tokens and user are unchanged |
| TokenEntity.Token.SetUsers | src/main/java/com/jwt/auth/model/Token.java:60-66 | afterwards the owning user is the argument and no other field has changed |
| TokenEntity.LogOutTwice | src/main/java/com/jwt/auth/model/Token.java:56-58 | `setLoggedOut(true)` is idempotent: twice leaves the state that once leaves |
| Ledger.Matching | src/main/java/com/jwt/auth/service/JwtService.java:45-47 | the rows returned are exactly the rows whose column holds the token |
| Ledger.FindBy | src/main/java/com/jwt/auth/service/JwtService.java:45-47 | `None` iff no row holds the token; a returned row is in the table and holds it; the lookup throws iff the column holds the token more than once |
| Ledger.MatchingAtMostOne | src/main/java/com/jwt/auth/service/JwtService.java:45-47 | when the column holds the token at most once, at most one row matches |
| Ledger.TwoMatches | src/main/java/com/jwt/auth/service/JwtService.java:54-57 | two different positions holding the token give at least two matches |
| Ledger.SingleMatchUnique | src/main/java/com/jwt/auth/service/JwtService.java:54-57 | at most one match means the column holds the token at most once |
| Ledger.FoundRow | src/main/java/com/jwt/auth/service/JwtService.java:45-47 | the single row holding the token is the one the lookup returns |
| Jwt.AddLong | src/main/java/com/jwt/auth/service/JwtService.java:102 | `long` addition: congruent to the exact sum modulo 2^64 and equal to it when it fits |
| Jwt.ExtractClaim | src/main/java/com/jwt/auth/service/JwtService.java:71-83 | succeeds iff the token verifies, then yields the resolver applied to its claims; otherwise throws `JwtException` |
| Jwt.IsTokenExpired | src/main/java/com/jwt/auth/service/JwtService.java:63-69 | true iff expiry >= now (so the misnamed method means "not expired"); throws when the token does not verify or has no `exp` |
| Ledger.FindByAccessToken | src/main/java/com/jwt/auth/service/JwtService.java:45-47 | `None` iff no row's access token is the string; a returned row is in the table and holds it; throws iff two rows hold it |
| Ledger.FindByRefreshToken | src/main/java/com/jwt/auth/service/JwtService.java:54-57 | `None` iff no row's refresh token is the string; a returned row is in the table and holds it; throws iff two rows hold it |
| Jwt.ExtractUsername | src/main/java/com/jwt/auth/service/JwtService.java:37-39 | succeeds iff the token verifies, then yields its `sub` claim (possibly null); otherwise throws `JwtException` |
| Jwt.ExtractExpiration | src/main/java/com/jwt/auth/service/JwtService.java:67-69 | succeeds iff the token verifies, then yields its `exp` claim (possibly null); otherwise throws `JwtException` |
| Jwt.Check | src/main/java/com/jwt/auth/service/JwtService.java:42-60 | throws `JwtException` iff the token does not verify; throws the lookup error iff it verifies and the column holds it more than once; throws `NullPointerException` iff the lookup succeeds and `sub` is null, or `sub` is the user and `exp` is null; true iff `Accepted`: the token verifies, `sub` is the user, `exp` is not before now, and exactly one row holds it, a row not logged out |
| Jwt.IsValid | src/main/java/com/jwt/auth/service/JwtService.java:42-50 | true iff `Accepted` with the row found by its access token; throws `JwtException` iff the token does not verify |
| Jwt.IsValidRefreshToken | src/main/java/com/jwt/auth/service/JwtService.java:52-60 | true iff `Accepted` with the row found by its refresh token; throws `JwtException` iff the token does not verify |
| Jwt.GenerateToken | src/main/java/com/jwt/auth/service/JwtService.java:96-105 | under a sound codec, the token parses back to `sub` = the username, `iat` = the first clock read, `exp` = the second clock read plus the lifetime in `long` arithmetic |
| Jwt.GenerateAccessToken | src/main/java/com/jwt/auth/service/JwtService.java:86-88 | under a sound codec, the token's subject is the username and its expiry is the clock plus `accessTokenExpiration` |
| Jwt.GenerateRefreshToken | src/main/java/com/jwt/auth/service/JwtService.java:90-94 | under a sound codec, the token's subject is the username and its expiry is the clock plus `refreshTokenExpiration` |
| JwtProperties.RejectsOtherSubject | src/main/java/com/jwt/auth/service/JwtService.java:42-49 | a token for another user gives `false` (or the lookup error, which comes first) |
| JwtProperties.RejectsUnrecorded | src/main/java/com/jwt/auth/service/JwtService.java:45-49 | a token no row holds is never accepted, and gives `false` when it verifies with both claims |
| JwtProperties.RejectsRevoked | src/main/java/com/jwt/auth/service/JwtService.java:45-49 | a verified token whose single row is logged out gives `false`, whatever its subject and expiry |
| JwtProperties.AccessTokenIsNotARefreshToken | src/main/java/com/jwt/auth/service/JwtService.java:52-59 | a string held only as an access token is never accepted as a refresh token |
| JwtProperties.UnverifiedTokenThrows | src/main/java/com/jwt/auth/service/JwtService.java:37-43 | a token that does not verify makes both checks throw `JwtException`, whatever the ledger holds |
| JwtProperties.ExpiryInstant | src/main/java/com/jwt/auth/service/JwtService.java:63-65 | a token is live at exactly its expiry instant and not live one millisecond later |
| JwtProperties.GeneratedClaims | src/main/java/com/jwt/auth/service/JwtService.java:96-105 | read back through the extractors, a minted token's `sub` is the username, `iat` the first clock read and `exp` the second clock read plus the lifetime, exactly their sum when it fits in a `long` |
| JwtProperties.FreshTokenLive | src/main/java/com/jwt/auth/service/JwtService.java:63-68 | a minted token passes the expiry test iff now <= clock + lifetime |
| JwtProperties.OverflowedLifetimeBornExpired | src/main/java/com/jwt/auth/service/JwtService.java:102 | when clock + lifetime overflows `long`, the token fails the expiry test from the moment it is minted |
| JwtProperties.IssuedAccessTokenAccepted | src/main/java/com/jwt/auth/service/JwtService.java:42-49 | a minted access token held by one live row is accepted for its user iff now <= clock + lifetime |
| JwtProperties.LogOutRevokes | src/main/java/com/jwt/auth/service/JwtService.java:45-49 | after its row is logged out, an access token is never accepted |

## Left out

- JWS/JWT building, parsing and HMAC verification, and the key derivation in `getSigningKey` (base64url decoding, `Keys.hmacShaKeyFor`): these are a foreign cryptographic library. They are the abstract `Codec`.
- Exceptions of the JWT parser other than `JwtException`: every parse failure is modelled as `JwtException`. This includes the `IllegalArgumentException` that `parseSignedClaims` raises for an empty string.
- The JWT library's own checks inside `parseSignedClaims` are not modelled. It rejects an expired token itself, and it stores dates in whole seconds (NumericDate, section 2 of RFC 7519). The abstract parser depends on no clock and returns the signed claims exactly.
- The getters (`getId`, `getAccessToken`, `getRefreshToken`, `getUsers`): in the model they are the fields of `Token`, read directly.
- `System.currentTimeMillis()` and `new Date()`: the clock is a parameter.
- Spring `@Value` injection of the secret and the two lifetimes: these are the fields of the `JwtService` datatype.
- The `TokenRepository` implementation, persistence and concurrent updates: the repository is not part of this model. The ledger is an in-memory sequence of rows, and the lookups follow the single-result query contract. Each position stands for one distinct row; the model does not exclude one object listed at two positions, which it would count as two rows.
- JPA mapping and the lazy `Users` relation: a row's user is its username.
- `AuthenticationController` and the register, login, refresh and logout orchestration: their service code is not part of this model.

# Refresh-token rotation service, modelled in Dafny

The service hands out a pair of credentials for a user id: a ten-minute HS512 access
token carrying the claims `sub` (user id), `ip` (client address) and `exp`, and an
opaque random refresh token whose bcrypt hash is stored in the `refresh_tokens`
table together with the owner and the client address. Two endpoints drive it:

- `giveTokens` checks that `user_id` is a GUID, mints both tokens and inserts one row;
- `refreshTokens` verifies the access token (HS512 only), scans the subject's rows for
  the first hash that verifies the presented refresh token, logs a warning if the
  client address changed, deletes every row with the matched hash, and issues a new
  pair with a new row.

The model treats each request as one atomic step from a table (`seq<Record>`) to a
response and a new table. The clock, the random secret and its hash, the bcrypt
comparison (a function parameter `verify(hash, plaintext)`), and the success or
failure of each SQL statement and signing call are inputs (`Rotation.Env`,
`Rotation.Verifier`).

Files:

- `wrappers.dfy`: `Option` and `Result`.
- `guid.dfy`: the user-id pattern, and its position-by-position reading (section 3 of RFC 4122).
- `jwt.dfy`: access tokens as parsed claims, minting, and what `jwt.Parse` with the service's key function accepts.
- `store.dfy`: the table, the select by user and the delete by hash.
- `rotation.dfy`: `Issue`, the scan for a matching row, and `Refresh`.
- `properties.dfy`: single use, replay after a failed delete, the observational IP flag, issue-then-refresh, and the owner invariant.

Behaviour of the code worth knowing:

- The delete is `WHERE token_hash = $1`. It removes rows of any owner carrying that hash. Its row count is never read, and a failed delete is only logged.
- The IP-change "notification" is only a log line. The model returns it as a flag.
- The access token is minted before the refresh secret. No expiry or cleanup of rows exists.
- A verified token whose `sub` or `ip` claim is missing or not a string makes the handler panic on a type assertion. The model returns `Aborted` and leaves the table alone.
- The select has no `ORDER BY`. "First match" is first in the order rows come back, and the model takes that to be table order.

## Model

| member | source | states |
|---|---|---|
| Guid.ValidIDIffCanonical | main.go:17 | the anchored pattern accepts a string exactly when it has 36 characters, `-` at indices 8, 13, 18 and 23, and a hex digit of either case everywhere else |
| Guid.ValidIDExamples | main_test.go:9-18 | `3fa85f64-5717-4562-b3fc-2c963f66afa6` is accepted and `not-a-guid` is rejected |
| Jwt.Mint | a_token.go:14-23 | a minted token is accepted by the service's own verification at the moment it is minted, yielding `sub = userId`, `ip = ip`, `exp = now + 600`, and is refused as expired 600 seconds later (unless `now + 600 = 0`, which the library reads as no expiry) |
| Jwt.Verify | main.go:125-135 | a token is accepted exactly when it parses, declares HS512, has a valid signature and is not past a present non-zero `exp` (the library reads `exp: 0` as no expiry); any other algorithm is refused as a mismatch; an accepted token yields its own claims |
| Jwt.MintVerifyRoundTrip | a_token.go:15-22 | a minted token verifies with its own claims exactly while `now < issuedAt + 600` (always, in the single case `issuedAt + 600 = 0`), and is refused as expired afterwards otherwise |
| TokenStore.RecordsOf | main.go:150 | a row is selected exactly when it is in the table and belongs to that user |
| TokenStore.RecordsOfMultiplicity | main.go:150 | the select returns each row of the user as many times as it occurs in the table, and no row of anyone else |
| TokenStore.Without | main.go:192 | after the delete, a row survives exactly when its hash differs from the deleted one, with its multiplicity unchanged |
| Rotation.Issue | main.go:60-107 | `EmptyUserId` is returned exactly for an empty id and `InvalidGuid` exactly for a non-empty non-GUID id; for a GUID, `AccessTokenFailed`, `RefreshTokenFailed` and `InsertFailed` are returned exactly when signing, then generation, then the insert is the first step to fail; success happens exactly when the id is a GUID and signing, generation and insert succeed; a failure leaves the table unchanged; success appends exactly one row `{user_id, hash of the returned refresh token, ip}` to the unchanged old rows, and returns an access token that verifies to the minted claims |
| Rotation.FirstMatch | main.go:163-180 | the returned index is the first row whose hash verifies the presented token; no index is returned exactly when no row verifies it |
| Rotation.Scan | main.go:158-180 | the loop finds a match exactly when some row verifies; it keeps the hash of the first such row; its IP flag is set exactly when the current address differs from the `ip` claim or from that row's address; with no match, the flag stays false |
| Rotation.LiveTokenAmongRows | main.go:150-167 | a row of the user verifying the token exists in the table exactly when one exists among the selected rows |
| Rotation.Lookup | main.go:150-180 | the scan returns nothing exactly when no row of the subject verifies the token; otherwise it returns a row of the subject that verifies the token and is the first such row of the select |
| Rotation.Refresh | main.go:124-227 | an access token that does not verify gives `Unauthorized` with the table untouched and no warning, and `Unauthorized` arises in no other case; `Aborted` is returned exactly when the token verifies but its `sub` or `ip` claim is unreadable, and `QueryFailed` exactly when the claims are readable but the select fails; after a match, `AccessTokenFailed`, `RefreshTokenFailed` and `InsertFailed` are returned exactly when signing, then generation, then the insert is the first step to fail; success happens exactly when the token verifies, its claims are readable, the select succeeds, a row of the subject verifies the refresh token, and signing, generation and insert succeed; `InvalidRefreshToken` is returned exactly when no row of the subject verifies; every rejection leaves the table untouched; success returns the new plaintext, ends the table with `{sub, new hash, current ip}`, and returns an access token for `sub` at the current address; a failure after the match (signing, generation or insert) leaves the table without the matched hash when the delete succeeded, or unchanged when it failed, and adds no row |
| RotationProperties.IpAlertIff | main.go:171-184 | the warning is raised exactly when there is a first matching row and the current address differs from the `ip` claim or from that row's stored address |
| RotationProperties.AnomalyIsObservational | main.go:182-189 | changing only the client address does not change acceptance, the error, or the rows kept |
| RotationProperties.RotationConsumesMatch | main.go:191-217 | after a successful refresh with a successful delete, no kept row carries the matched hash; every other row keeps its multiplicity; exactly one row `{sub, new hash, current ip}` is appended |
| RotationProperties.ReplayIsRejected | main.go:192 | after such a refresh, no row of the subject verifies the old token, so replaying the same pair fails, and fails with `InvalidRefreshToken` whenever the access token still verifies and the select succeeds |
| RotationProperties.FailedRotationConsumes | main.go:191-216 | when the delete succeeded but the new pair cannot be signed, generated or stored, the request fails with an internal error, no row is added, and no row of the subject verifies the presented token any more |
| RotationProperties.ReplayAfterFailedDelete | main.go:192-195 | when the delete fails, the table is the old table plus the new row, and the same pair refreshes successfully again while the access token lives |
| RotationProperties.IssueThenRefresh | main.go:85-98 | the pair a successful issue returns refreshes successfully within ten minutes, and the warning is raised exactly when the refresh comes from another address |
| RotationProperties.ScanAgreesWithRefresh | main.go:158-184 | the loop run over the subject's selected rows finds a match exactly when `Refresh` does, keeps the hash of the same row, and raises the same IP-change flag |
| RotationProperties.IssueKeepsOwnersValid | main.go:63-72 | if every row belongs to a GUID, the same holds after an issue |
| RotationProperties.RefreshKeepsOwnersValid | main.go:212-213 | if every row belongs to a GUID, the same holds after a refresh, although the `sub` claim is not re-validated |
| RotationProperties.FirstIssue | main.go:84-98 | a successful issue into an empty table for a GUID leaves exactly one row `{id, hash, ip}`, and its access token verifies to `{sub: id, ip, exp: now + 600}` |
| RotationProperties.IssueExample | main.go:61-104 | issuing for `3fa85f64-5717-4562-b3fc-2c963f66afa6` from 10.0.0.1 into an empty table succeeds and stores one row; the access token carries that id, 10.0.0.1 and `exp = now + 600` |
| RotationProperties.IssueRefreshExample | main.go:171-177 | refreshing that pair from 10.0.0.2 within ten minutes succeeds and raises the IP-change warning |

## Left out

- HTTP plumbing: routing, the POST check, query and JSON decoding, JSON encoding, and `getIP` (main.go:24-58, main.go:112-122, main.go:219-226). The client address is an input, and a body that fails to decode is not modelled.
- Database connection and SQL execution (db.go). The table is a sequence of rows, and each statement's success is an input. `created_at` is never read, so it is omitted. `rows.Scan` errors, which the loop ignores, are not modelled.
- Rotation.Refresh: an error while iterating the select's rows (`rows.Next` stopping early, with `rows.Err` never checked) ends the scan early, and the handler then answers `InvalidRefreshToken` although a verifying row may exist. This is not modelled: the model's select either fails outright (`Env.queryOk`) or returns every row of the subject.
- JWT encoding, HMAC computation and claim parsing belong to the golang-jwt library, which is not part of this model. A token is its algorithm, its claims and a "signed with the server secret" bit. `nbf`, `iat` and non-numeric `exp` claims are not modelled. A token without `exp`, or with `exp` 0, is accepted, as the library's default validator does.
- The `payload` type assertion to `MapClaims` (main.go:137-141) is not modelled: `jwt.Parse` always yields that type.
- Random generation, base64 and bcrypt (r_token.go). The secret and its hash arrive through `Env.secret`. The bcrypt comparison is the `verify` parameter. The round trip the unit test checks (main_test.go:33) is a hypothesis of the lemmas that need it, not a fact.
- Concurrency: the race between the select (main.go:150) and the delete (main.go:192) when two requests present the same token. Each request is one atomic step.
- Logging, and the e-mail the warning log line announces. Only the flag is modelled.
- RotationProperties.FailedRotationConsumes: it assumes the same single-hash property as ReplayIsRejected below.
- RotationProperties.ReplayIsRejected: it assumes that at most one distinct hash in the table verifies the presented token, and that the newly generated hash does not. bcrypt's salts make these overwhelmingly likely, but they are not facts.
- RotationProperties.IssueThenRefresh: it assumes no older row of the user verifies the newly generated token. That is the freshness of the random secret.

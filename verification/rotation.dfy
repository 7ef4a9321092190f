/**
 The two endpoints of the service as pure steps over the token table: `giveTokens`
 (Issue) and `refreshTokens` (Refresh). Everything the handlers obtain from outside
 (the clock, random secrets, the bcrypt comparison, the success of each SQL statement
 and of each signing call) arrives as an input, so that each request is one atomic
 transition from a table to a response and a new table.
 */
module Rotation {
  import opened Wrappers
  import opened Guid
  import opened Jwt
  import opened TokenStore

  /** `bcrypt.CompareHashAndPassword(hash, plaintext) == nil`; a corrupt hash simply does not verify. */
  type Verifier = (string, string) -> bool

  /** A freshly generated refresh token: the base64 plaintext and its bcrypt hash. */
  datatype Secret = Secret(plaintext: string, hash: string)

  /**
   What the outside world contributes to one request: the current time (Unix seconds),
   whether signing the access token succeeds, the generated refresh secret (None when
   random generation or hashing fails), and whether the select, the delete and the
   insert succeed.
   */
  datatype Env = Env(now: int, signOk: bool, secret: Option<Secret>,
                     queryOk: bool, deleteOk: bool, insertOk: bool)

  /** The response body `{a_token, r_token}`. */
  datatype Tokens = Tokens(access: AccessToken, refresh: string)

  /** The body of a refresh request: the access token and the refresh token, as presented. */
  datatype RefreshRequest = RefreshRequest(access: AccessToken, refresh: string)

  /** The error responses of the two handlers. */
  datatype Error =
    | EmptyUserId          // 400: no `user_id` query parameter
    | InvalidGuid          // 400: `user_id` is not a GUID
    | Unauthorized         // 401: the access token does not verify
    | Aborted              // the `sub` or `ip` claim is not a string: the handler panics
    | QueryFailed          // 500: the select failed
    | InvalidRefreshToken  // 401: no row of the subject verifies the presented token
    | AccessTokenFailed    // 500: signing the new access token failed
    | RefreshTokenFailed   // 500: generating or hashing the new refresh token failed
    | InsertFailed         // 500: storing the new row failed
  {
    /** Errors raised before the table is written: the request is simply refused. */
    predicate IsRejection() {
      this in {EmptyUserId, InvalidGuid, Unauthorized, Aborted, QueryFailed, InvalidRefreshToken}
    }
  }

  datatype IssueOutcome = IssueOutcome(result: Result<Tokens, Error>, store: Store)

  /** A refresh response, the table after it, and whether the IP-change warning was logged. */
  datatype RefreshOutcome = RefreshOutcome(result: Result<Tokens, Error>, store: Store, ipChanged: bool)

  /** `giveTokens` for `user_id` from address `ip`. */
  function Issue(store: Store, userId: string, ip: string, env: Env): (o: IssueOutcome)
    ensures o.result == Failure(EmptyUserId) <==> userId == ""
    ensures o.result == Failure(InvalidGuid) <==> userId != "" && !ValidID(userId)
    ensures o.result == Failure(AccessTokenFailed) <==> ValidID(userId) && !env.signOk
    ensures o.result == Failure(RefreshTokenFailed) <==> ValidID(userId) && env.signOk && env.secret.None?
    ensures o.result == Failure(InsertFailed) <==>
              ValidID(userId) && env.signOk && env.secret.Some? && !env.insertOk
    ensures o.result.Success? <==> ValidID(userId) && env.signOk && env.secret.Some? && env.insertOk
    ensures o.result.Failure? ==> o.store == store
    ensures o.result.Success? ==>
              && o.store == store + [Record(userId, env.secret.value.hash, ip)]
              && o.result.value.refresh == env.secret.value.plaintext
              && Verify(o.result.value.access, env.now) == Success(MintClaims(userId, ip, env.now))
  {
    if userId == "" then IssueOutcome(Failure(EmptyUserId), store)
    else if !ValidID(userId) then IssueOutcome(Failure(InvalidGuid), store)
    else if !env.signOk then IssueOutcome(Failure(AccessTokenFailed), store)
    else if env.secret.None? then IssueOutcome(Failure(RefreshTokenFailed), store)
    else if !env.insertOk then IssueOutcome(Failure(InsertFailed), store)
    else
      var secret := env.secret.value;
      IssueOutcome(Success(Tokens(Mint(userId, ip, env.now), secret.plaintext)),
                   store + [Record(userId, secret.hash, ip)])
  }

  /** Row `k` is the first of `rows` whose hash verifies `presented`. */
  predicate IsFirstMatch(rows: seq<Record>, presented: string, verify: Verifier, k: int) {
    && 0 <= k < |rows|
    && verify(rows[k].tokenHash, presented)
    && forall j :: 0 <= j < k ==> !verify(rows[j].tokenHash, presented)
  }

  /** Some row of `rows` verifies `presented`. */
  predicate SomeRowVerifies(rows: seq<Record>, presented: string, verify: Verifier) {
    exists j :: 0 <= j < |rows| && verify(rows[j].tokenHash, presented)
  }

  /** Some row of `user` in the table verifies `presented`. */
  predicate HasLiveToken(store: Store, user: string, presented: string, verify: Verifier) {
    exists i :: 0 <= i < |store| && store[i].userId == user && verify(store[i].tokenHash, presented)
  }

  /** The index of the first row whose hash verifies `presented`, if any. */
  function FirstMatch(rows: seq<Record>, presented: string, verify: Verifier): (k: Option<nat>)
    ensures k.Some? ==> IsFirstMatch(rows, presented, verify, k.value)
    ensures k.None? <==> !SomeRowVerifies(rows, presented, verify)
  {
    if |rows| == 0 then None
    else if verify(rows[0].tokenHash, presented) then Some(0)
    else
      match FirstMatch(rows[1..], presented, verify)
      case None => None
      case Some(k) => Some(k + 1)
  }

  /** The scan of the handler: the subject's rows, in the order the select returns them, stopped at the first match. */
  function Lookup(store: Store, user: string, presented: string, verify: Verifier): (m: Option<Record>)
    ensures m.None? <==> !HasLiveToken(store, user, presented, verify)
    ensures m.Some? ==> m.value in store && m.value.userId == user && verify(m.value.tokenHash, presented)
    ensures m.Some? ==>
              exists k :: IsFirstMatch(RecordsOf(store, user), presented, verify, k)
                          && m.value == RecordsOf(store, user)[k]
  {
    var rows := RecordsOf(store, user);
    LiveTokenAmongRows(store, user, presented, verify);
    match FirstMatch(rows, presented, verify)
    case None => None
    case Some(k) =>
      assert rows[k] in rows;
      Some(rows[k])
  }

  /** A live token of `user` is exactly a verifying row among those the select returns. */
  lemma LiveTokenAmongRows(store: Store, user: string, presented: string, verify: Verifier)
    ensures HasLiveToken(store, user, presented, verify) <==>
              SomeRowVerifies(RecordsOf(store, user), presented, verify)
  {
    var rows := RecordsOf(store, user);
    if HasLiveToken(store, user, presented, verify) {
      var i :| 0 <= i < |store| && store[i].userId == user && verify(store[i].tokenHash, presented);
      assert store[i] in rows;
      var j :| 0 <= j < |rows| && rows[j] == store[i];
      assert verify(rows[j].tokenHash, presented);
    }
    if SomeRowVerifies(rows, presented, verify) {
      var j :| 0 <= j < |rows| && verify(rows[j].tokenHash, presented);
      assert rows[j] in rows;
      var i :| 0 <= i < |store| && store[i] == rows[j];
      assert store[i].userId == user && verify(store[i].tokenHash, presented);
    }
  }

  /**
   The `for rows.Next()` loop of the handler, statement by statement: it stops at the
   first row whose hash verifies, remembers that hash, and raises the IP-change flag
   when the current address differs from the token's `ip` claim or from the row's.
   */
  method Scan(rows: seq<Record>, presented: string, originalIp: string, currentIp: string, verify: Verifier)
    returns (found: bool, matchedHash: string, ipChanged: bool)
    ensures found <==> SomeRowVerifies(rows, presented, verify)
    ensures found ==>
              exists k :: IsFirstMatch(rows, presented, verify, k) && matchedHash == rows[k].tokenHash
                          && (ipChanged <==> currentIp != originalIp || currentIp != rows[k].ip)
    ensures !found ==> !ipChanged && matchedHash == ""
  {
    found, matchedHash, ipChanged := false, "", false;
    var i := 0;
    while i < |rows|
      invariant 0 <= i <= |rows|
      invariant forall j :: 0 <= j < i ==> !verify(rows[j].tokenHash, presented)
      invariant !found && !ipChanged && matchedHash == ""
      decreases |rows| - i
    {
      var hash, storedIp := rows[i].tokenHash, rows[i].ip;
      if verify(hash, presented) {
        found := true;
        matchedHash := hash;
        if currentIp != originalIp {
          ipChanged := true;
        }
        if currentIp != storedIp {
          ipChanged := true;
        }
        assert IsFirstMatch(rows, presented, verify, i);
        return;
      }
      i := i + 1;
    }
  }

  /** The claims a verified token must carry for the handler to read them without panicking. */
  predicate ClaimsReadable(c: Claims) {
    c.sub.Some? && c.ip.Some?
  }

  /** The request reaches the rotation: its token verifies, its claims are readable, and a row of its subject verifies the refresh token. */
  predicate RefreshMatched(store: Store, req: RefreshRequest, verify: Verifier, env: Env) {
    var v := Verify(req.access, env.now);
    && v.Success?
    && ClaimsReadable(v.value)
    && env.queryOk
    && HasLiveToken(store, v.value.sub.value, req.refresh, verify)
  }

  /** The conditions under which `refreshTokens` answers with a new pair. */
  predicate RefreshAccepted(store: Store, req: RefreshRequest, verify: Verifier, env: Env) {
    RefreshMatched(store, req, verify, env) && env.signOk && env.secret.Some? && env.insertOk
  }

  /** `refreshTokens` for a request arriving from `currentIp`. */
  function Refresh(store: Store, req: RefreshRequest, currentIp: string, verify: Verifier, env: Env)
    : (o: RefreshOutcome)
    ensures Verify(req.access, env.now).Failure? ==> o == RefreshOutcome(Failure(Unauthorized), store, false)
    ensures o.result == Failure(Unauthorized) <==> Verify(req.access, env.now).Failure?
    ensures o.result == Failure(Aborted) <==>
              Verify(req.access, env.now).Success? && !ClaimsReadable(req.access.claims)
    ensures o.result == Failure(QueryFailed) <==>
              Verify(req.access, env.now).Success? && ClaimsReadable(req.access.claims) && !env.queryOk
    ensures o.result.Success? <==> RefreshAccepted(store, req, verify, env)
    ensures o.result.Failure? && o.result.error.IsRejection() ==> o.store == store && !o.ipChanged
    ensures o.result == Failure(InvalidRefreshToken) <==>
              && Verify(req.access, env.now).Success?
              && ClaimsReadable(req.access.claims)
              && env.queryOk
              && !HasLiveToken(store, req.access.claims.sub.value, req.refresh, verify)
    ensures o.ipChanged ==> o.result != Failure(InvalidRefreshToken)
    ensures o.result == Failure(AccessTokenFailed) <==>
              RefreshMatched(store, req, verify, env) && !env.signOk
    ensures o.result == Failure(RefreshTokenFailed) <==>
              RefreshMatched(store, req, verify, env) && env.signOk && env.secret.None?
    ensures o.result == Failure(InsertFailed) <==>
              RefreshMatched(store, req, verify, env) && env.signOk && env.secret.Some? && !env.insertOk
    ensures o.result.Failure? && !o.result.error.IsRejection() ==>
              && Verify(req.access, env.now).Success?
              && ClaimsReadable(req.access.claims)
              && Lookup(store, req.access.claims.sub.value, req.refresh, verify).Some?
              && o.store == (if env.deleteOk
                             then Without(store, Lookup(store, req.access.claims.sub.value, req.refresh, verify).value.tokenHash)
                             else store)
    ensures o.result.Success? ==>
              && o.result.value.refresh == env.secret.value.plaintext
              && |o.store| > 0
              && o.store[|o.store| - 1] == Record(req.access.claims.sub.value, env.secret.value.hash, currentIp)
              && Verify(o.result.value.access, env.now)
                 == Success(MintClaims(req.access.claims.sub.value, currentIp, env.now))
  {
    match Verify(req.access, env.now)
    case Failure(_) => RefreshOutcome(Failure(Unauthorized), store, false)
    case Success(claims) =>
      if !ClaimsReadable(claims) then RefreshOutcome(Failure(Aborted), store, false)
      else if !env.queryOk then RefreshOutcome(Failure(QueryFailed), store, false)
      else
        var userId, originalIp := claims.sub.value, claims.ip.value;
        match Lookup(store, userId, req.refresh, verify)
        case None => RefreshOutcome(Failure(InvalidRefreshToken), store, false)
        case Some(matched) =>
          var ipChanged := currentIp != originalIp || currentIp != matched.ip;
          // A failed delete is only logged: the rotation carries on with the old row in place.
          var afterDelete := if env.deleteOk then Without(store, matched.tokenHash) else store;
          if !env.signOk then RefreshOutcome(Failure(AccessTokenFailed), afterDelete, ipChanged)
          else if env.secret.None? then RefreshOutcome(Failure(RefreshTokenFailed), afterDelete, ipChanged)
          else if !env.insertOk then RefreshOutcome(Failure(InsertFailed), afterDelete, ipChanged)
          else
            var secret := env.secret.value;
            RefreshOutcome(Success(Tokens(Mint(userId, currentIp, env.now), secret.plaintext)),
                           afterDelete + [Record(userId, secret.hash, currentIp)], ipChanged)
  }
}

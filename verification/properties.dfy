/**
 Properties of the rotation protocol that relate several requests, or one request
 under different inputs: single use of a refresh token, what a failed delete costs,
 the purely observational IP-change flag, the issue-then-refresh round trip, and the
 invariant that every row of the table belongs to a well-formed user id.
 */
module RotationProperties {
  import opened Wrappers
  import opened Guid
  import opened Jwt
  import opened TokenStore
  import opened Rotation

  /** At most one distinct hash in the table verifies `presented` (bcrypt's salted hashes do not collide). */
  predicate OneHashFor(store: Store, presented: string, verify: Verifier) {
    forall i, j :: 0 <= i < |store| && 0 <= j < |store|
      && verify(store[i].tokenHash, presented) && verify(store[j].tokenHash, presented)
      ==> store[i].tokenHash == store[j].tokenHash
  }

  /** Every row of the table belongs to a GUID. */
  predicate OwnersValid(store: Store) {
    forall r :: r in store ==> ValidID(r.userId)
  }

  /** The request carries a parsed token whose `sub` and `ip` claims are strings. */
  predicate HasSubject(req: RefreshRequest) {
    req.access.Jws? && ClaimsReadable(req.access.claims)
  }

  /** The subject claim of such a request. */
  function Subject(req: RefreshRequest): string
    requires HasSubject(req)
  {
    req.access.claims.sub.value
  }

  /** The rows of the table a refresh leaves in place, i.e. without the row it appends on success. */
  function Kept(o: RefreshOutcome): Store
    requires o.result.Success? ==> |o.store| > 0
  {
    if o.result.Success? then o.store[..|o.store| - 1] else o.store
  }

  /**
   The warning is logged exactly when a row was matched and the current address differs
   from the token's `ip` claim or from the address stored with the first matching row.
   */
  lemma IpAlertIff(store: Store, req: RefreshRequest, currentIp: string, verify: Verifier, env: Env)
    requires Verify(req.access, env.now).Success?
    requires HasSubject(req) && env.queryOk
    ensures var rows := RecordsOf(store, Subject(req));
            Refresh(store, req, currentIp, verify, env).ipChanged <==>
              exists k :: IsFirstMatch(rows, req.refresh, verify, k)
                          && (currentIp != req.access.claims.ip.value || currentIp != rows[k].ip)
  {
    var rows := RecordsOf(store, Subject(req));
    var m := Lookup(store, Subject(req), req.refresh, verify);
    var o := Refresh(store, req, currentIp, verify, env);
    LiveTokenAmongRows(store, Subject(req), req.refresh, verify);
    if m.Some? {
      var k :| IsFirstMatch(rows, req.refresh, verify, k) && m.value == rows[k];
      assert o.ipChanged <==> currentIp != req.access.claims.ip.value || currentIp != rows[k].ip;
    } else {
      assert !o.ipChanged;
      forall k | 0 <= k < |rows| ensures !IsFirstMatch(rows, req.refresh, verify, k) {
        assert !verify(rows[k].tokenHash, req.refresh);
      }
    }
  }

  /**
   The IP-change flag is observational: changing only the caller's address never
   changes whether the refresh is accepted, which error it fails with, or which rows
   it consumes.
   */
  lemma AnomalyIsObservational(store: Store, req: RefreshRequest, ip1: string, ip2: string,
                               verify: Verifier, env: Env)
    ensures var o1, o2 := Refresh(store, req, ip1, verify, env), Refresh(store, req, ip2, verify, env);
            && (o1.result.Success? <==> o2.result.Success?)
            && (o1.result.Failure? ==> o1.result == o2.result)
            && Kept(o1) == Kept(o2)
  {
    var v := Verify(req.access, env.now);
    if v.Success? && ClaimsReadable(v.value) && env.queryOk {
      var m := Lookup(store, v.value.sub.value, req.refresh, verify);
      if m.Some? && env.signOk && env.secret.Some? && env.insertOk {
        var kept := if env.deleteOk then Without(store, m.value.tokenHash) else store;
        var s1 := kept + [Record(v.value.sub.value, env.secret.value.hash, ip1)];
        var s2 := kept + [Record(v.value.sub.value, env.secret.value.hash, ip2)];
        assert Refresh(store, req, ip1, verify, env).store == s1;
        assert Refresh(store, req, ip2, verify, env).store == s2;
        assert s1[..|s1| - 1] == kept == s2[..|s2| - 1];
      }
    }
  }

  /**
   A successful refresh whose delete succeeded consumes the first matching row: every
   row carrying its hash is gone, every other row is kept with its multiplicity, and
   exactly one row for the subject at the current address is appended.
   */
  lemma RotationConsumesMatch(store: Store, req: RefreshRequest, currentIp: string, verify: Verifier, env: Env)
    requires RefreshAccepted(store, req, verify, env) && env.deleteOk
    ensures HasSubject(req)
    ensures var m := Lookup(store, Subject(req), req.refresh, verify);
            var o := Refresh(store, req, currentIp, verify, env);
            && m.Some?
            && o.store == Kept(o) + [Record(Subject(req), env.secret.value.hash, currentIp)]
            && (forall r :: r in Kept(o) <==> r in store && r.tokenHash != m.value.tokenHash)
            && (forall r: Record :: r.tokenHash != m.value.tokenHash ==> multiset(Kept(o))[r] == multiset(store)[r])
  {
    var o := Refresh(store, req, currentIp, verify, env);
    var m := Lookup(store, Subject(req), req.refresh, verify);
    assert Kept(o) == Without(store, m.value.tokenHash);
  }

  /**
   Single use: after a successful refresh whose delete succeeded, presenting the same
   pair again finds no live row for the subject and is refused, whatever the second
   request's clock, address or collaborators do, provided the presented plaintext had
   one hash in the table and the newly issued hash does not verify it.
   */
  lemma ReplayIsRejected(store: Store, req: RefreshRequest, ip1: string, ip2: string,
                         verify: Verifier, env1: Env, env2: Env)
    requires RefreshAccepted(store, req, verify, env1) && env1.deleteOk
    requires OneHashFor(store, req.refresh, verify)
    requires env1.secret.Some? && !verify(env1.secret.value.hash, req.refresh)
    ensures HasSubject(req)
    ensures !HasLiveToken(Refresh(store, req, ip1, verify, env1).store, Subject(req), req.refresh, verify)
    ensures Refresh(Refresh(store, req, ip1, verify, env1).store, req, ip2, verify, env2).result.Failure?
    ensures Verify(req.access, env2.now).Success? && env2.queryOk ==>
              Refresh(Refresh(store, req, ip1, verify, env1).store, req, ip2, verify, env2).result
              == Failure(InvalidRefreshToken)
  {
    var o := Refresh(store, req, ip1, verify, env1);
    RotationConsumesMatch(store, req, ip1, verify, env1);
    var m := Lookup(store, Subject(req), req.refresh, verify);
    var h := m.value.tokenHash;
    var n := |o.store|;
    forall i | 0 <= i < n && o.store[i].userId == Subject(req)
      ensures !verify(o.store[i].tokenHash, req.refresh)
    {
      if i == n - 1 {
        assert o.store[i].tokenHash == env1.secret.value.hash;
      } else {
        var r := o.store[i];
        assert r == Kept(o)[i];
        assert r in Kept(o);
        assert r in store && r.tokenHash != h;
        var a :| 0 <= a < |store| && store[a] == r;
        var b :| 0 <= b < |store| && store[b] == m.value;
        assert store[a].tokenHash != store[b].tokenHash;
      }
    }
  }

  /**
   Fail-closed rotation: when the delete succeeded but signing, generating or storing
   the new pair then fails, the request fails with an internal error, no row is
   added, and the presented token no longer matches any row of the subject, so the
   session is lost.
   */
  lemma FailedRotationConsumes(store: Store, req: RefreshRequest, currentIp: string, verify: Verifier, env: Env)
    requires Verify(req.access, env.now).Success? && HasSubject(req) && env.queryOk
    requires HasLiveToken(store, Subject(req), req.refresh, verify)
    requires env.deleteOk && !(env.signOk && env.secret.Some? && env.insertOk)
    requires OneHashFor(store, req.refresh, verify)
    ensures var o := Refresh(store, req, currentIp, verify, env);
            && o.result.Failure? && !o.result.error.IsRejection()
            && (forall r :: r in o.store ==> r in store)
            && !HasLiveToken(o.store, Subject(req), req.refresh, verify)
  {
    var o := Refresh(store, req, currentIp, verify, env);
    var m := Lookup(store, Subject(req), req.refresh, verify);
    var h := m.value.tokenHash;
    assert !o.result.Success?;
    assert o.result.error !in {Unauthorized, Aborted, QueryFailed, InvalidRefreshToken};
    assert o.store == Without(store, h);
    var b :| 0 <= b < |store| && store[b] == m.value;
    forall i | 0 <= i < |o.store| && o.store[i].userId == Subject(req)
      ensures !verify(o.store[i].tokenHash, req.refresh)
    {
      var r := o.store[i];
      assert r in o.store;
      var a :| 0 <= a < |store| && store[a] == r;
      assert store[a].tokenHash != store[b].tokenHash;
    }
  }

  /**
   A failed delete is only logged: the consumed row survives next to the new one, so
   the same pair refreshes again while the access token lives. Single use holds only
   on the branch where the delete succeeds.
   */
  lemma ReplayAfterFailedDelete(store: Store, req: RefreshRequest, ip1: string, ip2: string,
                                verify: Verifier, env1: Env, env2: Env)
    requires RefreshAccepted(store, req, verify, env1) && !env1.deleteOk
    requires Verify(req.access, env2.now).Success?
    requires env2.queryOk && env2.signOk && env2.secret.Some? && env2.insertOk
    ensures Refresh(store, req, ip1, verify, env1).store == store + [Record(Subject(req), env1.secret.value.hash, ip1)]
    ensures Refresh(Refresh(store, req, ip1, verify, env1).store, req, ip2, verify, env2).result.Success?
  {
    var o := Refresh(store, req, ip1, verify, env1);
    var i :| 0 <= i < |store| && store[i].userId == Subject(req) && verify(store[i].tokenHash, req.refresh);
    assert o.store[i] == store[i];
    assert HasLiveToken(o.store, Subject(req), req.refresh, verify);
  }

  /**
   Issue followed by refresh: the pair a successful issue returns refreshes successfully
   while the access token lives, and the warning is raised exactly when the refresh
   comes from another address.
   */
  lemma IssueThenRefresh(store: Store, userId: string, ip1: string, ip2: string,
                         verify: Verifier, env1: Env, env2: Env)
    requires ValidID(userId)
    requires env1.signOk && env1.secret.Some? && env1.insertOk
    requires verify(env1.secret.value.hash, env1.secret.value.plaintext)
    requires !HasLiveToken(store, userId, env1.secret.value.plaintext, verify)
    requires env2.now < env1.now + Lifetime
    requires env2.queryOk && env2.signOk && env2.secret.Some? && env2.insertOk
    ensures Issue(store, userId, ip1, env1).result.Success?
    ensures var i := Issue(store, userId, ip1, env1);
            var o := Refresh(i.store, RefreshRequest(i.result.value.access, i.result.value.refresh), ip2, verify, env2);
            o.result.Success? && (o.ipChanged <==> ip2 != ip1)
  {
    var i := Issue(store, userId, ip1, env1);
    var req := RefreshRequest(i.result.value.access, i.result.value.refresh);
    var n := |i.store|;
    assert i.store[n - 1] == Record(userId, env1.secret.value.hash, ip1);
    assert HasLiveToken(i.store, userId, req.refresh, verify);
    var rows := RecordsOf(i.store, userId);
    IpAlertIff(i.store, req, ip2, verify, env2);
    // Only the new row verifies the new plaintext, so it is the first match.
    forall k | 0 <= k < |rows| && verify(rows[k].tokenHash, req.refresh)
      ensures rows[k].ip == ip1
    {
      assert rows[k] in i.store;
      var a :| 0 <= a < n && i.store[a] == rows[k];
    }
    assert SomeRowVerifies(rows, req.refresh, verify) by {
      LiveTokenAmongRows(i.store, userId, req.refresh, verify);
    }
    var k := FirstMatch(rows, req.refresh, verify).value;
    assert IsFirstMatch(rows, req.refresh, verify, k);
  }

  /**
   The loop of the handler and the functional scan inside `Refresh` agree: run over the
   subject's rows, `Scan` finds a match exactly when `Refresh` does, keeps the hash of
   the same row, and raises the same IP-change flag.
   */
  method ScanAgreesWithRefresh(store: Store, req: RefreshRequest, currentIp: string, verify: Verifier, env: Env)
    returns (found: bool, matchedHash: string, ipChanged: bool)
    requires Verify(req.access, env.now).Success? && HasSubject(req) && env.queryOk
    ensures found <==> Lookup(store, Subject(req), req.refresh, verify).Some?
    ensures found ==> matchedHash == Lookup(store, Subject(req), req.refresh, verify).value.tokenHash
    ensures ipChanged == Refresh(store, req, currentIp, verify, env).ipChanged
  {
    var rows := RecordsOf(store, Subject(req));
    found, matchedHash, ipChanged := Scan(rows, req.refresh, req.access.claims.ip.value, currentIp, verify);
    LiveTokenAmongRows(store, Subject(req), req.refresh, verify);
    IpAlertIff(store, req, currentIp, verify, env);
  }

  /** Issue only ever stores rows owned by a GUID. */
  lemma IssueKeepsOwnersValid(store: Store, userId: string, ip: string, env: Env)
    requires OwnersValid(store)
    ensures OwnersValid(Issue(store, userId, ip, env).store)
  {
  }

  /**
   Refresh never re-validates the subject claim, yet keeps every owner a GUID: it only
   appends a row after finding a live row of that same subject.
   */
  lemma RefreshKeepsOwnersValid(store: Store, req: RefreshRequest, currentIp: string, verify: Verifier, env: Env)
    requires OwnersValid(store)
    ensures OwnersValid(Refresh(store, req, currentIp, verify, env).store)
  {
  }

  /**
   An example: issuing for
   `3fa85f64-5717-4562-b3fc-2c963f66afa6` from 10.0.0.1 into an empty table stores one
   row for that user, and the access token verifies to that id, that address and an
   expiry ten minutes on.
   */
  lemma IssueExample(id: string, env: Env)
    requires id == "3fa85f64-5717-4562-b3fc-2c963f66afa6"
    requires env.signOk && env.secret.Some? && env.insertOk
    ensures var i := Issue([], id, "10.0.0.1", env);
            && i.result.Success?
            && i.store == [Record(id, env.secret.value.hash, "10.0.0.1")]
            && Verify(i.result.value.access, env.now) == Success(Claims(Some(id), Some("10.0.0.1"), Some(env.now + 600)))
  {
    assert ValidID(id) by { ValidIDExamples(); }
    FirstIssue(id, "10.0.0.1", env);
  }

  /** A first issue for a GUID stores exactly its one row and returns a token for that id and address. */
  lemma FirstIssue(id: string, ip: string, env: Env)
    requires ValidID(id)
    requires env.signOk && env.secret.Some? && env.insertOk
    ensures var i := Issue([], id, ip, env);
            && i.result.Success?
            && i.store == [Record(id, env.secret.value.hash, ip)]
            && Verify(i.result.value.access, env.now) == Success(Claims(Some(id), Some(ip), Some(env.now + Lifetime)))
  {
    assert [] + [Record(id, env.secret.value.hash, ip)] == [Record(id, env.secret.value.hash, ip)];
  }

  /**
   The example continued: refreshing the returned pair from 10.0.0.2 within ten minutes succeeds
   and raises the IP-change warning.
   */
  lemma IssueRefreshExample(id: string, verify: Verifier, env1: Env, env2: Env)
    requires id == "3fa85f64-5717-4562-b3fc-2c963f66afa6"
    requires env1.signOk && env1.secret.Some? && env1.insertOk
    requires verify(env1.secret.value.hash, env1.secret.value.plaintext)
    requires env2.now < env1.now + Lifetime
    requires env2.queryOk && env2.signOk && env2.secret.Some? && env2.insertOk
    ensures var i := Issue([], id, "10.0.0.1", env1);
            && i.result.Success?
            && var o := Refresh(i.store, RefreshRequest(i.result.value.access, i.result.value.refresh),
                                "10.0.0.2", verify, env2);
               o.result.Success? && o.ipChanged
  {
    assert ValidID(id) by { ValidIDExamples(); }
    IssueThenRefresh([], id, "10.0.0.1", "10.0.0.2", verify, env1, env2);
  }
}

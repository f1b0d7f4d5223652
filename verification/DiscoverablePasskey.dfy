// A login that starts from a passkey alone: the challenge is the one-time value, and the account is
// whatever the authenticator names (src/auth_factors/passkey_discoverable.rs:83-283).

module DiscoverablePasskey {
  import opened Prelude
  import opened World
  import opened Runs
  import opened Moments
  import opened AuthFactorService
  import S = OneTimeStore
  import L = AttemptLimiter
  import F = FactorDatabase
  import P = PasskeyRepository
  import K = PasskeyService

  datatype DiscoverableConfirmation = Invalid | RateLimited | Completed(user: UserId, epoch: int)

  // The authenticator's response: the account it names, if that is readable at all, and the
  // credential it was made with.
  datatype Response = Response(handle: Option<UserId>, credentialId: Bytes, verify: (S.Payload, F.Credential) -> K.Asserted)

  // What the call found out about the response, and in which state of the database.
  datatype Finding =
    | NotReached
    | Unidentified
    | UnknownCredential(db: F.Db)
    | Refused(db: F.Db, grant: S.Grant, row: nat)
    | Genuine(db: F.Db, grant: S.Grant, row: nat)

  // The account's row with the credential of the response.
  predicate RowOf(db: F.Db, response: Response, row: nat) {
    && response.handle.Some? && row in db.passkeys
    && db.passkeys[row].user == response.handle.value && db.passkeys[row].credentialId == response.credentialId
  }

  ghost predicate Founded(f: Finding, response: Response) {
    match f
    case NotReached => true
    case Unidentified => true
    case UnknownCredential(db) => response.handle.Some? && forall q :: !RowOf(db, response, q)
    case Refused(db, grant, row) =>
      RowOf(db, response, row) && response.verify(grant.payload, db.passkeys[row].credential).AssertionRefused?
    case Genuine(db, grant, row) =>
      RowOf(db, response, row) && response.verify(grant.payload, db.passkeys[row].credential).Verified?
  }

  // The finding is about the stored challenge, and about the database as it was during the call.
  ghost predicate Witnessed(a: Moment, b: Moment, challenge: nat, response: Response, f: Finding) {
    && (f.Unidentified? && response.handle.Some? ==> Sometime(a, b, NoAccount(response.handle.value)))
    && (f.UnknownCredential? || f.Refused? || f.Genuine? ==> Sometime(a, b, DatabaseWas(f.db)))
    && (f.Refused? || f.Genuine? ==> f.grant.id == challenge && Sometime(a, b, Present(f.grant)))
  }

  // A finding that counts against somebody.
  predicate Failing(f: Finding) {
    f.Unidentified? || f.UnknownCredential? || f.Refused?
  }

  method DiscoverableFailure(s: Service, me: CallId, leases: seq<L.Lease>, ghost st: Standing) returns (r: DiscoverableConfirmation)
    requires s.Valid() && Stands(me, s.w, st) && st.leases == leases
    modifies s
    ensures s.Valid() && Stands(me, s.w, st.(leases := [], until := 0, charged := true)) && Leads(old(s.here), s.here)
    ensures |leases| == 1 && L.Distinct(leases[0].dimensions) ==> Charges(old(s.here), s.here, leases[0], s.limits, st.until)
    ensures r == if L.RecordAll(old(s.w).limiter, leases, s.limits, old(s.w).now).1 == [] then Invalid else DiscoverableConfirmation.RateLimited
  {
    hide Stands, Leads, At, Charges;
    var reached := s.RecordFailure(me, leases, st);
    return if reached == [] then Invalid else DiscoverableConfirmation.RateLimited;
  }

  // Nobody is named, so only the source address can be charged.
  method UnidentifiedFailure(s: Service, me: CallId, ip: Option<string>, ghost until: int)
    returns (r: Result<DiscoverableConfirmation>, ghost charged: bool)
    requires s.Valid() && Stands(me, s.w, IDLE) && until <= L.LeaseEnd(s.w.now)
    modifies s
    ensures s.Valid() && Stands(me, s.w, IDLE.(charged := charged)) && Leads(old(s.here), s.here)
    ensures r.Ok? ==> !r.value.Completed?
    ensures charged ==> ip.Some? && Charges(old(s.here), s.here, L.Lease(me, [L.Counter(L.SourceIp, ip.value)]), s.limits, until)
    ensures r == Ok(Invalid) ==> (charged <==> ip.Some?)
    ensures r.Err? ==> !charged && ip.None? && s.rejectMissingIp && r.error.SourceIpUnavailable?
  {
    hide Inv, Stands, Leads, At, Charges;
    LeadingIsTransitive();
    LeadsItself(s.here);
    charged := false;
    assert IDLE.(charged := false) == IDLE;
    if ip.None? {
      return if s.rejectMissingIp then Err(ServiceError.SourceIpUnavailable) else Ok(Invalid), charged;
    }
    var dims := [L.Counter(L.SourceIp, ip.value)];
    var allowed := s.EnsureDimensionsAllowed(me, dims, until, IDLE);
    if allowed.None? { return Ok(DiscoverableConfirmation.RateLimited), charged; }
    ghost var st := IDLE.(leases := allowed.value.leases, until := until);
    assert st.(leases := [], until := 0, charged := true) == IDLE.(charged := true);
    assert allowed.value.leases == [L.Lease(me, dims)];
    var failure := DiscoverableFailure(s, me, allowed.value.leases, st);
    charged := true;
    return Ok(failure), charged;
  }

  // The challenge is held and the places are still reserved: write the assertion back, then settle
  // both. A missing row leaves the challenge spent; a storage error or exhaustion puts it back.
  method WriteBack(s: Service, me: CallId, challenge: nat, user: UserId, epoch: int, row: nat, credentialId: Bytes,
                   result: F.AuthenticationResult, dims: seq<L.Counter>, leases: seq<L.Lease>, ghost st: Standing)
    returns (r: Result<DiscoverableConfirmation>, ghost done: set<nat>, ghost seen: Moment, ghost at: Moment)
    requires s.Valid() && Stands(me, s.w, st) && st.leases == leases && st.done == {} && !st.charged
    requires st.held.Some? && st.held.value.id == challenge
    modifies s
    ensures s.Valid() && Leads(old(s.here), seen) && Leads(seen, at) && Leads(at, s.here)
    ensures Stands(me, s.w, IDLE.(done := done)) && done <= {challenge}
    ensures r.Ok? ==> r.value == if done == {challenge} then Completed(user, epoch) else Invalid
    ensures r.Err? ==> done == {} && (r.error.DatabaseUnavailable? || r.error.PasskeyUpdateConflict?)
    ensures done == {challenge} ==> forall d :: d in dims ==> Sometime(old(s.here), s.here, NoFailures(d))
    ensures done == {challenge} ==>
      || P.Justified(P.Applied, At(seen).db, At(at).db, user, row, credentialId, result)
      || P.Justified(P.AlreadyCurrent, At(seen).db, At(at).db, user, row, credentialId, result)
    ensures r == Ok(Invalid) ==> P.Justified(P.RowMissing, At(seen).db, At(at).db, user, row, credentialId, result)
    ensures r.Err? && r.error.PasskeyUpdateConflict? ==> P.Justified(P.Exhausted, At(seen).db, At(at).db, user, row, credentialId, result)
  {
    hide Inv, Stands, Leads, At, Sometime, P.AtomicMerge, P.Current, P.Advanced;
    LeadingIsTransitive();
    done := {};
    assert st.(held := None).(leases := [], until := 0) == IDLE.(done := {});
    assert st.(held := None, done := st.done + {challenge}).(leases := [], until := 0) == IDLE.(done := {challenge});
    var outcome;
    outcome, seen, at := P.PersistPasskeyAuthentication(s, me, user, row, credentialId, result, st);
    if outcome.Err? || outcome.value == P.Exhausted {
      var restored := s.Restore(me, st);
      s.Release(me, leases, st.(held := None));
      return Err(if outcome.Err? then DatabaseUnavailable else PasskeyUpdateConflict), done, seen, at;
    }
    if outcome.value == P.RowMissing {
      s.Forget(me, st);
      s.Release(me, leases, st.(held := None));
      return Ok(Invalid), done, seen, at;
    }
    s.Complete(me, st);
    done := {challenge};
    s.Release(me, leases, st.(held := None, done := st.done + {challenge}));
    ghost var before := old(s.here);
    var i := 0;
    while i < |dims|
      invariant 0 <= i <= |dims| && s.Valid() && Stands(me, s.w, IDLE.(done := done)) && Leads(at, s.here)
      invariant forall j :: 0 <= j < i ==> Sometime(before, s.here, NoFailures(dims[j]))
    {
      s.ClearFailures(me, dims[i], IDLE.(done := done));
      i := i + 1;
    }
    return Ok(Completed(user, epoch)), done, seen, at;
  }

  // The account's row with that credential, if it has one.
  method FindCredential(s: Service, me: CallId, response: Response, ghost st: Standing)
    returns (r: Result<Option<(nat, F.Credential)>>, ghost listed: Moment)
    requires s.Valid() && Stands(me, s.w, st) && response.handle.Some?
    modifies s
    ensures s.Valid() && Stands(me, s.w, st) && listed == old(s.here) && Leads(listed, s.here)
    ensures r == Ok(None) ==> forall q :: !RowOf(At(listed).db, response, q)
    ensures r.Ok? && r.value.Some? ==>
      RowOf(At(listed).db, response, r.value.value.0) && At(listed).db.passkeys[r.value.value.0].credential == r.value.value.1
  {
    hide Inv, Stands, Leads, At;
    listed := s.here;
    r := Ok(None);
    if q :| q in s.w.db.passkeys && RowOf(s.w.db, response, q) {
      r := Ok(Some((q, s.w.db.passkeys[q].credential)));
    }
    var unavailable: bool := *;
    s.Pause(me, st);
    if unavailable {
      r := Err(DatabaseUnavailable);
    }
  }

  // A response that names an account, with a place reserved for it: verify it against the account's
  // own row, take the challenge, write the assertion back.
  method FinishIdentified(s: Service, me: CallId, grant: S.Grant, response: Response, leases: seq<L.Lease>, ghost until: int)
    returns (r: Result<DiscoverableConfirmation>, ghost f: Finding, ghost done: set<nat>, ghost seen: Moment, ghost at: Moment)
    requires s.Valid() && Stands(me, s.w, IDLE.(leases := leases, until := until)) && response.handle.Some?
    requires |leases| == 1 && L.Distinct(leases[0].dimensions) && grant.key == S.ChallengeKey(grant.id)
    modifies s
    ensures s.Valid() && Leads(old(s.here), seen) && Leads(seen, at) && Leads(at, s.here)
    ensures Stands(me, s.w, IDLE.(charged := Failing(f), done := done)) && done <= {grant.id}
    ensures Founded(f, response) && !f.Unidentified?
    ensures !f.NotReached? ==> Sometime(old(s.here), s.here, DatabaseWas(f.db))
    ensures f.Refused? || f.Genuine? ==> f.grant == grant
    ensures Failing(f) ==> r.Ok? && !r.value.Completed? && Charges(old(s.here), s.here, leases[0], s.limits, until)
    ensures r.Ok? ==> (r.value.Completed? <==> done == {grant.id})
    ensures done == {grant.id} ==>
      && f.Genuine? && r.Ok? && r.value.user == response.handle.value
      && Sometime(old(s.here), s.here, Active(r.value.user, r.value.epoch))
      && (forall d :: d in leases[0].dimensions ==> Sometime(old(s.here), s.here, NoFailures(d)))
      && WrittenBack(At(seen).db, At(at).db, response, f)
  {
    hide Inv, Stands, Leads, At, Sometime, Is, Charges, RowOf, WrittenBack, L.Distinct;
    LeadingIsTransitive();
    ghost var before := s.here;
    f, done, seen, at := NotReached, {}, s.here, s.here;
    LeadsItself(s.here);
    ghost var st := IDLE.(leases := leases, until := until);
    assert st.(leases := [], until := 0) == IDLE.(charged := false, done := {}) && st.(leases := [], until := 0, charged := true) == IDLE.(charged := true, done := {});
    var row, listed := FindCredential(s, me, response, st);
    if row.Err? {
      s.Release(me, leases, st);
      return Err(row.error), f, done, seen, at;
    }
    DatabaseListed(before, listed, s.here);
    if row.value.None? {
      f := UnknownCredential(At(listed).db);
      var failure := DiscoverableFailure(s, me, leases, st);
      return Ok(failure), f, done, seen, at;
    }
    var (id, stored) := row.value.value;
    var asserted := response.verify(grant.payload, stored);
    if asserted.AssertionMisconfigured? {
      s.Release(me, leases, st);
      return Err(CredentialRejected), f, done, seen, at;
    }
    if asserted.AssertionRefused? {
      f := Refused(At(listed).db, grant, id);
      RefusedIsFounded(At(listed).db, grant, id, stored, response);
      var failure := DiscoverableFailure(s, me, leases, st);
      return Ok(failure), f, done, seen, at;
    }
    f := Genuine(At(listed).db, grant, id);
    GenuineIsFounded(At(listed).db, grant, id, stored, response);
    r, done, seen, at := TakeAndWriteBack(s, me, grant.id, response.handle.value, id, asserted.result, leases, until);
    if done == {grant.id} { WrittenBackFor(At(seen).db, At(at).db, response, f, asserted.result); }
  }

  // The row that was found shows the assertion.
  ghost predicate WrittenBack(a: F.Db, b: F.Db, response: Response, f: Finding)
    requires f.Genuine? && response.handle.Some? && Founded(f, response)
  {
    var result := response.verify(f.grant.payload, f.db.passkeys[f.row].credential).result;
    || P.Justified(P.Applied, a, b, response.handle.value, f.row, result.id, result)
    || P.Justified(P.AlreadyCurrent, a, b, response.handle.value, f.row, result.id, result)
  }

  lemma WrittenBackFor(a: F.Db, b: F.Db, response: Response, f: Finding, result: F.AuthenticationResult)
    requires f.Genuine? && response.handle.Some? && Founded(f, response)
    requires response.verify(f.grant.payload, f.db.passkeys[f.row].credential) == K.Verified(result)
    requires P.Justified(P.Applied, a, b, response.handle.value, f.row, result.id, result)
             || P.Justified(P.AlreadyCurrent, a, b, response.handle.value, f.row, result.id, result)
    ensures WrittenBack(a, b, response, f)
  {
  }

  lemma DatabaseListed(a: Moment, listed: Moment, b: Moment)
    requires Leads(a, listed) && Leads(listed, b)
    ensures Sometime(a, b, DatabaseWas(At(listed).db))
  {
  }

  lemma RefusedIsFounded(db: F.Db, grant: S.Grant, row: nat, stored: F.Credential, response: Response)
    requires RowOf(db, response, row) && db.passkeys[row].credential == stored && response.verify(grant.payload, stored).AssertionRefused?
    ensures Founded(Refused(db, grant, row), response)
  {
  }

  lemma GenuineIsFounded(db: F.Db, grant: S.Grant, row: nat, stored: F.Credential, response: Response)
    requires RowOf(db, response, row) && db.passkeys[row].credential == stored && response.verify(grant.payload, stored).Verified?
    ensures Founded(Genuine(db, grant, row), response) && row in db.passkeys
  {
  }

  // The account must be active, and the challenge still there to take.
  method TakeAndWriteBack(s: Service, me: CallId, challenge: nat, user: UserId, row: nat, result: F.AuthenticationResult, leases: seq<L.Lease>,
                          ghost until: int)
    returns (r: Result<DiscoverableConfirmation>, ghost done: set<nat>, ghost seen: Moment, ghost at: Moment)
    requires s.Valid() && Stands(me, s.w, IDLE.(leases := leases, until := until)) && |leases| == 1
    modifies s
    ensures s.Valid() && Leads(old(s.here), seen) && Leads(seen, at) && Leads(at, s.here)
    ensures Stands(me, s.w, IDLE.(done := done)) && done <= {challenge}
    ensures r.Ok? ==> (r.value.Completed? <==> done == {challenge})
    ensures done == {challenge} ==>
      && r.Ok? && r.value.user == user && Sometime(old(s.here), s.here, Active(user, r.value.epoch))
      && (forall d :: d in leases[0].dimensions ==> Sometime(old(s.here), s.here, NoFailures(d)))
      && (|| P.Justified(P.Applied, At(seen).db, At(at).db, user, row, result.id, result)
          || P.Justified(P.AlreadyCurrent, At(seen).db, At(at).db, user, row, result.id, result))
  {
    hide Inv, Stands, Leads, At, Sometime, Is, P.Justified, S.Minted, S.Matches;
    LeadingIsTransitive();
    done, seen, at := {}, s.here, s.here;
    LeadsItself(s.here);
    ghost var st := IDLE.(leases := leases, until := until);
    assert st.(leases := [], until := 0) == IDLE.(done := {});
    var epoch := ActiveEpoch(s, me, user, st);
    if epoch.Err? || epoch.value.None? {
      s.Release(me, leases, st);
      return if epoch.Err? then Err(epoch.error) else Ok(Invalid), done, seen, at;
    }
    var taken := s.TakeStored(me, S.ChallengeKey(challenge), S.Anyone, st);
    if taken.Err? || taken.value.None? {
      s.Release(me, leases, st);
      return if taken.Err? then Err(taken.error) else Ok(Invalid), done, seen, at;
    }
    MintedChallenge(s.cfg, s.w, taken.value.value, challenge);
    r, done, seen, at := WriteBack(s, me, challenge, user, epoch.value.value, row, result.id, result, leases[0].dimensions, leases, st.(held := taken.value));
  }

  // Completed: this request took the challenge, the assertion verified against the account's own row
  // as it was during the call, the account was active at the returned epoch, and the row shows the
  // assertion. A failed attempt is charged exactly when the response names nobody, no credential of
  // the account, or does not verify.
  method FinishDiscoverable(s: Service, me: CallId, challenge: nat, ip: Option<string>, snapshot: int, response: Response)
    returns (r: Result<DiscoverableConfirmation>, ghost f: Finding, ghost charged: bool, ghost done: set<nat>, ghost seen: Moment, ghost at: Moment)
    requires s.Valid() && Stands(me, s.w, IDLE)
    modifies s
    ensures s.Valid() && Leads(old(s.here), seen) && Leads(seen, at) && Leads(at, s.here)
    ensures Stands(me, s.w, IDLE.(charged := charged, done := done)) && done <= {challenge}
    ensures Founded(f, response) && Witnessed(old(s.here), s.here, challenge, response, f)
    ensures charged ==> Failing(f)
    ensures f.UnknownCredential? || f.Refused? ==>
      charged && r.Ok? && Charges(old(s.here), s.here, s.Attempt(me, response.handle.value, None, ip), s.limits, L.LeaseEnd(old(s.w).now))
    ensures f.Unidentified? && charged ==>
      ip.Some? && Charges(old(s.here), s.here, L.Lease(me, [L.Counter(L.SourceIp, ip.value)]), s.limits, L.LeaseEnd(old(s.w).now))
    ensures f.Unidentified? && ip.Some? && r == Ok(Invalid) ==> charged
    ensures Failing(f) && r.Ok? ==> !r.value.Completed?
    ensures r.Ok? ==> (r.value.Completed? <==> done == {challenge})
    ensures done == {challenge} ==>
      && f.Genuine? && r.Ok? && r.value.user == response.handle.value
      && Sometime(old(s.here), s.here, Active(r.value.user, r.value.epoch))
      && (forall d :: d in s.Attempt(me, r.value.user, None, ip).dimensions ==> Sometime(old(s.here), s.here, NoFailures(d)))
      && WrittenBack(At(seen).db, At(at).db, response, f)
  {
    hide Inv, Stands, Leads, At, Sometime, Is, Charges, Founded, WrittenBack, S.Minted, L.Distinct;
    LeadingIsTransitive();
    f, charged, done, seen, at := NotReached, false, {}, s.here, s.here;
    NothingFounded(response);
    LeadsItself(s.here);
    assert IDLE.(charged := false, done := {}) == IDLE;
    ghost var before := s.here;
    ghost var until := L.LeaseEnd(s.w.now);
    var generation := K.EnabledPasskeyGeneration(s, me, snapshot, IDLE);
    if generation.Err? { return Err(generation.error), f, charged, done, seen, at; }
    var key := S.ChallengeKey(challenge);
    var found, first := s.FindStored(me, key, IDLE);
    if found.Err? { return Err(found.error), f, charged, done, seen, at; }
    if found.value.None? { return Ok(Invalid), f, charged, done, seen, at; }
    var grant := found.value.value;
    SometimeAt(before, first, s.here, Present(grant));
    if grant.payload.generation != Some(generation.value) {
      var discarded := s.DiscardStored(me, key, IDLE);
      if discarded.Err? { return Err(discarded.error), f, charged, done, seen, at; }
      return Ok(Invalid), f, charged, done, seen, at;
    }
    TimeMoves(before, s.here);
    if response.handle.None? {
      f := Unidentified;
      r, charged := UnidentifiedFailure(s, me, ip, until);
      return;
    }
    var user := response.handle.value;
    var allowed := s.ReserveAttempt(me, user, None, ip, until, IDLE);
    TimeMoves(before, s.here);
    if allowed == Err(ServiceError.UserNotFound) {
      f := Unidentified;
      r, charged := UnidentifiedFailure(s, me, ip, until);
      return;
    }
    if allowed.Err? { return Err(allowed.error), f, charged, done, seen, at; }
    if allowed.value.None? { return Ok(DiscoverableConfirmation.RateLimited), f, charged, done, seen, at; }
    r, f, done, seen, at := FinishIdentified(s, me, grant, response, allowed.value.value.leases, until);
    charged := Failing(f);
  }

  lemma NothingFounded(response: Response)
    ensures Founded(NotReached, response) && Founded(Unidentified, response)
  {
  }

  lemma MintedChallenge(cfg: Config, w: World, g: S.Grant, challenge: nat)
    requires Inv(cfg, w) && S.Minted(w.store.minted, g) && g.key == S.ChallengeKey(challenge)
    ensures g.id == challenge
  {
    assert S.WellKeyed(w.store.minted[g.id]);
  }

  method ActiveEpoch(s: Service, me: CallId, user: UserId, ghost st: Standing) returns (r: Result<Option<int>>)
    requires s.Valid() && Stands(me, s.w, st)
    modifies s
    ensures s.Valid() && Stands(me, s.w, st) && Leads(old(s.here), s.here)
    ensures r.Ok? && r.value.Some? ==> Sometime(old(s.here), s.here, Active(user, r.value.value))
  {
    hide Inv, Stands, Leads, At, Sometime;
    ghost var before := s.here;
    LeadsItself(before);
    var epoch := if user in s.w.db.users && s.w.db.users[user].active then Some(s.w.db.users[user].epoch) else None;
    var unavailable: bool := *;
    s.Pause(me, st);
    if epoch.Some? { SometimeAt(before, before, s.here, Active(user, epoch.value)); }
    return if unavailable then Err(DatabaseUnavailable) else Ok(epoch);
  }
}

// Adding a factor from a signed-in session: the enrolment is bound to one user, session and epoch,
// and is taken before the row is inserted (src/auth_factors/authenticated_enrollment.rs:152-449,
// session_enrollment_types.rs:50-64).

module SessionEnrolment {
  import opened Prelude
  import opened World
  import opened Runs
  import opened Moments
  import opened AuthFactorService
  import S = OneTimeStore
  import C = ReplayClaims
  import F = FactorDatabase
  import V = SecretEnvelope
  import K = PasskeyService

  datatype EnrollmentFinish =
    | Completed
    | InvalidEnrollment
    | InvalidCredential
    | KeyUnavailable
    | AlreadyExists
    | AuthenticationChanged

  // The session that confirms, and the enrolment it names.
  datatype Claim = Claim(user: UserId, session: int, enrolment: nat)

  function Claimant(c: Claim, epoch: int, factor: FactorMethod): S.Claimant {
    S.Owner(c.user, c.session, epoch, factor, c.enrolment)
  }

  method CurrentSessionEpoch(s: Service, me: CallId, user: UserId, ghost st: Standing) returns (r: Result<int>)
    requires s.Valid() && Stands(me, s.w, st)
    modifies s
    ensures s.Valid() && Stands(me, s.w, st) && Leads(old(s.here), s.here)
    ensures r.Ok? ==> Sometime(old(s.here), s.here, Epoch(user, r.value))
  {
    hide Inv, Stands, Leads, At, Sometime;
    ghost var before := s.here;
    LeadsItself(before);
    var epoch := if user in s.w.db.users then Ok(s.w.db.users[user].epoch) else Err(ServiceError.UserNotFound);
    var unavailable: bool := *;
    s.Pause(me, st);
    if epoch.Ok? { SometimeAt(before, before, s.here, Epoch(user, epoch.value)); }
    return if unavailable then Err(DatabaseUnavailable) else epoch;
  }

  // The stored enrolment, if it is the one the session names and has not expired.
  method FindEnrolment(s: Service, me: CallId, c: Claim, epoch: int, factor: FactorMethod)
    returns (r: Result<Option<S.Grant>>, ghost seen: Moment)
    requires s.Valid() && Stands(me, s.w, IDLE)
    modifies s
    ensures s.Valid() && Stands(me, s.w, IDLE) && Sound(seen)
    ensures Leads(old(s.here), seen) && Leads(seen, s.here)
    ensures r.Ok? && r.value.Some? ==>
      && IsEnrolment(At(seen), r.value.value, c, epoch, factor) && Is(At(seen), Present(r.value.value))
      && s.w.now < r.value.value.expires
  {
    hide Stands, Leads, At, Is;
    seen := s.here;
    LeadsItself(seen);
    var found;
    found, seen := s.FindStored(me, S.EnrolmentKey(c.user, factor), IDLE);
    if found.Err? || found.value.None? {
      return found, seen;
    }
    var g := found.value.value;
    return Ok(if S.Matches(g, Claimant(c, epoch, factor)) && s.w.now < g.expires then Some(g) else None), seen;
  }

  ghost predicate IsEnrolment(w: World, g: S.Grant, c: Claim, epoch: int, factor: FactorMethod) {
    && S.Minted(w.store.minted, g)
    && g.payload.SessionEnrolment? && g.key == S.EnrolmentKey(c.user, factor)
    && S.Matches(g, Claimant(c, epoch, factor))
  }

  // What a confirmation works on: the enrolment that was stored under that id for that user, session
  // and factor, stamped with an epoch the account had during the call.
  ghost predicate Named(a: Moment, b: Moment, c: Claim, factor: FactorMethod, g: Option<S.Grant>) {
    g.Some? ==>
      && g.value.payload.SessionEnrolment? && S.Matches(g.value, Claimant(c, g.value.payload.stamp, factor))
      && Sometime(a, b, Present(g.value)) && Sometime(a, b, Epoch(c.user, g.value.payload.stamp))
  }

  // The row an enrolment stores.
  function Operation(g: S.Grant, credential: F.Credential): F.Op
    requires g.payload.SessionEnrolment?
  {
    match g.payload.material
    case Seed(cipher, plain) => F.InsertAuthenticatedTotp(g.payload.owner, g.payload.stamp, cipher, plain)
    case Registration(challenge) =>
      F.InsertAuthenticatedPasskey(g.payload.owner, g.payload.stamp, credential, challenge)
  }

  // The committed row: the account was active at the epoch of the enrolment, and what is stored is
  // what the enrolment carried.
  ghost predicate Added(a: F.Db, b: F.Db, g: S.Grant, credential: F.Credential)
    requires g.payload.SessionEnrolment?
  {
    && F.ActiveUserEpochMatches(a, g.payload.owner, g.payload.stamp)
    && match g.payload.material
       case Seed(cipher, plain) =>
         && g.payload.owner !in a.totp
         && b == a.(totp := a.totp[g.payload.owner := F.TotpRow(cipher, g.payload.stamp, plain)])
       case Registration(challenge) =>
         && F.PolicyEnabled(a.policy) && F.IssuerGenerationMatches(a.issuer, challenge.generation)
         && !F.CredentialTaken(a, credential.id)
         && b == a.(passkeys := a.passkeys[a.nextRow := F.PasskeyRow(g.payload.owner, credential.id, credential, 1, g.payload.stamp, challenge)],
                    nextRow := a.nextRow + 1)
  }

  lemma StoredIsAdded(db: F.Db, g: S.Grant, credential: F.Credential)
    requires g.payload.SessionEnrolment?
    ensures var (after, o) := F.Apply(db, Operation(g, credential));
            if o == F.Stored then Added(db, after, g, credential)
            else after == db && o in {F.AlreadyExists, F.AuthenticationChanged, F.Conflict, F.IssuerChanged}
  {
  }

  function Finish(o: F.Outcome): EnrollmentFinish {
    if o == F.Stored then Completed
    else if o == F.IssuerChanged then InvalidEnrollment
    else if o == F.AuthenticationChanged then AuthenticationChanged
    else AlreadyExists
  }

  // The request has taken the enrolment.
  predicate Holds(w: World, me: CallId, g: S.Grant) {
    me in w.store.held && w.store.held[me] == g
  }

  // Takes the enrolment and inserts the row. Whatever the insert decides, the enrolment stays spent;
  // only a storage error puts it back.
  method TakeAndStore(s: Service, me: CallId, g: S.Grant, c: Claim, epoch: int, factor: FactorMethod, credential: F.Credential, ghost found: Moment)
    returns (r: Result<EnrollmentFinish>, ghost done: set<nat>, ghost seen: Moment, ghost at: Moment)
    requires s.Valid() && Stands(me, s.w, IDLE) && Sound(found) && Leads(found, s.here)
    requires IsEnrolment(At(found), g, c, epoch, factor)
    modifies s
    ensures s.Valid() && Leads(old(s.here), seen) && Leads(seen, at) && Leads(at, s.here)
    ensures Stands(me, s.w, IDLE.(done := done)) && done <= {c.enrolment}
    ensures done == {c.enrolment} <==> r == Ok(Completed)
    ensures r != Ok(InvalidCredential) && r != Ok(KeyUnavailable)
    ensures r == Err(DatabaseUnavailable) ==> Sometime(old(s.here), s.here, Stored(g))
    ensures r == Ok(Completed) ==> Holds(At(seen), me, g) && Added(At(seen).db, At(at).db, g, credential)
  {
    hide Inv, Stands, Leads, At, Added, Holds, F.Apply, Sometime;
    LeadingIsTransitive();
    done, seen, at := {}, s.here, s.here;
    LeadsItself(s.here);
    assert IDLE.(done := {}) == IDLE;
    var taken := s.TakeStored(me, S.EnrolmentKey(c.user, factor), Claimant(c, epoch, factor), IDLE);
    if taken.Err? { return Err(taken.error), done, seen, at; }
    if taken.value.None? { return Ok(InvalidEnrollment), done, seen, at; }
    MintedOnce(found, s.here, g, taken.value.value);
    ghost var holding := IDLE.(held := Some(g));
    assert holding.(held := None) == IDLE && holding.(held := None, done := holding.done + {g.id}) == IDLE.(done := {g.id});
    seen, at := s.here, s.here;
    LeadsItself(s.here);
    var unavailable: bool := *;
    if unavailable {
      var restored := s.Restore(me, holding);
      return Err(if restored.Ok? then DatabaseUnavailable else restored.error), done, seen, at;
    }
    var op := Operation(g, credential);
    var outcome := F.Apply(s.w.db, op).1;
    StoredIsAdded(s.w.db, g, credential);
    HolderMayWrite(s.cfg, s.w, me, g, credential, holding);
    s.Act(me, Write(op));
    at := Next(seen, me, Write(op));
    WritingKeepsStanding(s.cfg, At(seen), me, op, holding);
    RelyKeepsStanding(me, At(at), s.w, holding);
    if outcome == F.Stored {
      s.Complete(me, holding);
      done := {g.id};
    } else {
      s.Forget(me, holding);
    }
    return Ok(Finish(outcome)), done, seen, at;
  }

  lemma MintedOnce(a: Moment, b: Moment, g: S.Grant, taken: S.Grant)
    requires Sound(a) && Leads(a, b) && S.Minted(At(a).store.minted, g) && S.Minted(At(b).store.minted, taken) && taken.id == g.id
    ensures taken == g
  {
    LaterHasAdvanced(a, b);
  }

  lemma HolderMayWrite(cfg: Config, w: World, me: CallId, g: S.Grant, credential: F.Credential, st: Standing)
    requires g.payload.SessionEnrolment? && Stands(me, w, st) && st.held == Some(g)
    ensures MayAct(cfg, w, me, Write(Operation(g, credential))) && Holds(w, me, g)
  {
  }

  lemma WritingKeepsStanding(cfg: Config, w: World, me: CallId, op: F.Op, st: Standing)
    requires MayAct(cfg, w, me, Write(op)) && Stands(me, w, st)
    ensures Stands(me, Apply(cfg, w, me, Write(op)), st)
    ensures Apply(cfg, w, me, Write(op)).db == F.Apply(w.db, op).0
  {
  }

  lemma EnrolmentOpensToSeed(cfg: Config, w: World, ring: V.KeyRing, g: S.Grant)
    requires Inv(cfg, w) && ring in cfg.rings && S.Minted(w.store.minted, g)
    requires g.payload.SessionEnrolment? && g.payload.material.Seed?
    ensures var o := V.Decrypt(cfg.p, ring, g.payload.material.cipher); o.Plain? ==> o.secret == g.payload.material.plain
  {
    assert SoundPayload(cfg, w.db.published, w.store.minted[g.id].payload);
  }

  // Completed: the code was right for the seed that was stored, this request spent its time step
  // before it took the enrolment, and the account's epoch was the session's.
  method ConfirmSessionTotp(s: Service, me: CallId, c: Claim, code: string)
    returns (r: Result<EnrollmentFinish>, ghost v: Verdict, ghost g: Option<S.Grant>, ghost done: set<nat>, ghost seen: Moment, ghost at: Moment)
    requires s.Valid() && Stands(me, s.w, IDLE)
    modifies s
    ensures s.Valid() && Leads(old(s.here), seen) && Leads(seen, at) && Leads(at, s.here)
    ensures Stands(me, s.w, IDLE.(done := done)) && done <= {c.enrolment}
    ensures Judged(s.generate, code, v) && (v.Wrong? ==> r == Ok(InvalidCredential))
    ensures Named(old(s.here), s.here, c, Totp, g)
    ensures !v.Unchecked? ==> g.Some? && g.value.payload.material.Seed? && g.value.payload.material.plain == v.seed
    ensures r == Ok(InvalidCredential) ==> !v.Unchecked?
    ensures r == Ok(InvalidCredential) && v.Right? ==> C.Claimed(At(at).claims, At(at).now, c.user, v.step)
    ensures r == Err(DatabaseUnavailable) && v.Right? ==> Sometime(old(s.here), s.here, Stored(g.value))
    ensures done == {c.enrolment} <==> r == Ok(Completed)
    ensures r == Ok(Completed) ==>
      && v.Right? && ClaimedBy(At(seen).claims.log, me, c.user, v.step)
      && g.Some? && g.value.payload.material.Seed? && g.value.payload.material.plain == v.seed
      && Holds(At(seen), me, g.value) && Added(At(seen).db, At(at).db, g.value, NO_CREDENTIAL)
  {
    hide Inv, Stands, Leads, Sometime, Is, ClaimedBy, Check, Judged, Added, Holds, V.Decrypt, At, Charges, C.Claimed;
    LeadingIsTransitive();
    v, g, done, seen, at := Unchecked, None, {}, s.here, s.here;
    NothingJudged(s.generate, code);
    LeadsItself(s.here);
    assert IDLE.(done := {}) == IDLE;
    var epoch := CurrentSessionEpoch(s, me, c.user, IDLE);
    if epoch.Err? { return Err(epoch.error), v, g, done, seen, at; }
    var found, first := FindEnrolment(s, me, c, epoch.value, Totp);
    if found.Err? { return Err(found.error), v, g, done, seen, at; }
    if found.value.None? { return Ok(InvalidEnrollment), v, g, done, seen, at; }
    var pending := found.value.value;
    SometimeAt(first, first, s.here, Present(pending)) by { LeadsItself(first); }
    g := found.value;
    var opening := V.DecryptWithRing(s.cfg.p, s.ring, pending.payload.material.cipher);
    EnrolmentOpensToSeed(s.cfg, At(first), s.ring, pending);
    if opening.UnknownKeyId? {
      var taken := s.TakeStored(me, S.EnrolmentKey(c.user, Totp), Claimant(c, epoch.value, Totp), IDLE);
      if taken.Err? { return Err(taken.error), v, g, done, seen, at; }
      if taken.value.None? { return Ok(InvalidEnrollment), v, g, done, seen, at; }
      s.Forget(me, IDLE.(held := taken.value));
      assert IDLE.(held := taken.value).(held := None) == IDLE;
      return Ok(KeyUnavailable), v, g, done, seen, at;
    }
    if !opening.Plain? { return Err(SecretUnreadable), v, g, done, seen, at; }
    ghost var judged := s.here;
    var now := s.w.now;
    var step := Check(s.generate, opening.secret, code, now);
    s.Pause(me, IDLE);
    TimeMoves(judged, s.here);
    seen, at := s.here, s.here;
    LeadsItself(s.here);
    if step.None? {
      v := Wrong(opening.secret, now);
      JudgedWrong(s.generate, code, opening.secret, now);
      return Ok(InvalidCredential), v, g, done, seen, at;
    }
    v := Right(opening.secret, step.value, now);
    JudgedRight(s.generate, code, opening.secret, step.value, now);
    var claimed := s.ClaimStep(me, c.user, step.value, now, IDLE);
    if claimed.Err? { return Err(claimed.error), v, g, done, seen, at; }
    if !claimed.value { return Ok(InvalidCredential), v, g, done, seen, at; }
    ghost var spent := s.here;
    r, done, seen, at := TakeAndStore(s, me, pending, c, epoch.value, Totp, NO_CREDENTIAL, first);
    ClaimRemains(spent, seen, me, c.user, step.value);
  }

  lemma JudgedWrong(generate: (Bytes, nat) -> string, code: string, seed: Bytes, now: int)
    requires Check(generate, seed, code, now) == None
    ensures Judged(generate, code, Wrong(seed, now))
  {
  }

  lemma JudgedRight(generate: (Bytes, nat) -> string, code: string, seed: Bytes, step: nat, now: int)
    requires Check(generate, seed, code, now) == Some(step)
    ensures Judged(generate, code, Right(seed, step, now))
  {
  }

  // A TOTP enrolment carries no credential.
  const NO_CREDENTIAL: F.Credential := F.Credential([], 0, false, false)

  // Another passkey for a signed-in account.
  method FinishSessionPasskey(s: Service, me: CallId, c: Claim, snapshot: int, attest: S.Payload -> K.Attested)
    returns (r: Result<EnrollmentFinish>, ghost g: Option<S.Grant>, ghost done: set<nat>, ghost seen: Moment, ghost at: Moment)
    requires s.Valid() && Stands(me, s.w, IDLE)
    modifies s
    ensures s.Valid() && Leads(old(s.here), seen) && Leads(seen, at) && Leads(at, s.here)
    ensures Stands(me, s.w, IDLE.(done := done)) && done <= {c.enrolment}
    ensures Named(old(s.here), s.here, c, Passkey, g)
    ensures r == Ok(InvalidCredential) ==> g.Some? && attest(g.value.payload).RegistrationRefused?
    ensures done == {c.enrolment} <==> r == Ok(Completed)
    ensures r == Ok(Completed) ==>
      && g.Some? && g.value.payload.material.Registration? && g.value.payload.material.challenge.generation == snapshot
      && attest(g.value.payload).Registered?
      && Holds(At(seen), me, g.value) && Added(At(seen).db, At(at).db, g.value, attest(g.value.payload).credential)
  {
    hide Inv, Stands, Leads, At, Sometime, Is, Added, Holds;
    LeadingIsTransitive();
    g, done, seen, at := None, {}, s.here, s.here;
    LeadsItself(s.here);
    assert IDLE.(done := {}) == IDLE;
    var generation := K.EnabledPasskeyGeneration(s, me, snapshot, IDLE);
    if generation.Err? { return Err(generation.error), g, done, seen, at; }
    var epoch := CurrentSessionEpoch(s, me, c.user, IDLE);
    if epoch.Err? { return Err(epoch.error), g, done, seen, at; }
    var found, first := FindEnrolment(s, me, c, epoch.value, Passkey);
    if found.Err? { return Err(found.error), g, done, seen, at; }
    if found.value.None? { return Ok(InvalidEnrollment), g, done, seen, at; }
    var pending := found.value.value;
    SometimeAt(first, first, s.here, Present(pending)) by { LeadsItself(first); }
    g := found.value;
    if pending.payload.material.challenge.generation != generation.value {
      var taken := s.TakeStored(me, S.EnrolmentKey(c.user, Passkey), Claimant(c, epoch.value, Passkey), IDLE);
      if taken.Err? { return Err(taken.error), g, done, seen, at; }
      if taken.value.Some? {
        s.Forget(me, IDLE.(held := taken.value));
        assert IDLE.(held := taken.value).(held := None) == IDLE;
      }
      return Ok(InvalidEnrollment), g, done, seen, at;
    }
    var attested := attest(pending.payload);
    if attested.RegistrationMisconfigured? { return Err(CredentialRejected), g, done, seen, at; }
    if attested.RegistrationRefused? { return Ok(InvalidCredential), g, done, seen, at; }
    r, done, seen, at := TakeAndStore(s, me, pending, c, epoch.value, Passkey, attested.credential, first);
  }
}

// Taking the login ticket, doing the durable write, and putting the ticket back when the write
// fails (src/auth_factors/persistence.rs:16-40). The write a caller passes in is one of `Job`.

module Persistence {
  import opened Prelude
  import opened World
  import opened Runs
  import opened Moments
  import opened AuthFactorService
  import S = OneTimeStore
  import F = FactorDatabase
  import P = PasskeyRepository

  datatype Job =
    | StoreTotp(recovery: bool, user: UserId, stamp: int, cipher: Bytes, seed: Bytes)
    | StorePasskey(user: UserId, stamp: int, credential: F.Credential, challenge: Challenge)
    | Assertion(user: UserId, row: nat, credentialId: Bytes, result: F.AuthenticationResult)

  // The write belongs to the ticket it is guarded by.
  ghost predicate Fits(cfg: Config, w: World, g: S.Grant, job: Job) {
    match job
    case StoreTotp(_, user, stamp, cipher, seed) =>
      g.payload.LoginTicket? && g.payload.user == user && g.payload.epoch == stamp && StartedOn(w, g.id, user, cipher, seed)
    case StorePasskey(user, stamp, _, challenge) =>
      g.payload.LoginTicket? && g.payload.user == user && g.payload.epoch == stamp && F.Captured(w.db.published, cfg.bootstrap, challenge)
    case Assertion(_, _, _, _) => true
  }

  lemma FitsLater(a: Moment, b: Moment, g: S.Grant, job: Job)
    requires Sound(a) && Leads(a, b) && Fits(a.cfg, At(a), g, job)
    ensures Fits(b.cfg, At(b), g, job)
  {
    LaterHasAdvanced(a, b);
  }

  function Operation(job: Job): F.Op
    requires !job.Assertion?
  {
    match job
    case StoreTotp(recovery, user, stamp, cipher, seed) =>
      if recovery then F.InsertTotpForPasskeyRecovery(user, stamp, cipher, seed) else F.InsertTotpIfEmpty(user, stamp, cipher, seed)
    case StorePasskey(user, stamp, credential, challenge) =>
      F.InsertPasskeyIfEmpty(user, stamp, credential, challenge)
  }

  // The committed write, between two adjacent states of the database.
  ghost predicate Persisted(a: F.Db, b: F.Db, job: Job) {
    match job
    case StoreTotp(recovery, user, stamp, cipher, seed) =>
      && F.ActiveUserEpochMatches(a, user, stamp)
      && user !in a.totp && (F.HasPasskey(a, user) <==> recovery)
      && b == a.(totp := a.totp[user := F.TotpRow(cipher, stamp, seed)])
    case StorePasskey(user, stamp, credential, challenge) =>
      && F.ActiveUserEpochMatches(a, user, stamp)
      && F.PolicyEnabled(a.policy) && F.IssuerGenerationMatches(a.issuer, challenge.generation)
      && !F.AccountHasFactor(a, user) && !F.CredentialTaken(a, credential.id)
      && b == a.(passkeys := a.passkeys[a.nextRow := F.PasskeyRow(user, credential.id, credential, 1, stamp, challenge)],
                 nextRow := a.nextRow + 1)
    case Assertion(user, row, credentialId, result) =>
      P.Justified(P.Applied, a, b, user, row, credentialId, result) || P.Justified(P.AlreadyCurrent, a, b, user, row, credentialId, result)
  }

  // Why a write was refused; a storage error says nothing.
  ghost predicate Refused(a: F.Db, b: F.Db, job: Job, e: ServiceError) {
    match job
    case StoreTotp(recovery, user, stamp, _, _) =>
      || e.DatabaseUnavailable?
      || (e.AuthenticationEpochChanged? && !F.ActiveUserEpochMatches(a, user, stamp))
      || (e.FirstFactorAlreadyExists? && (user in a.totp || (F.HasPasskey(a, user) <==> !recovery)))
    case StorePasskey(user, stamp, credential, challenge) =>
      || e.DatabaseUnavailable?
      || (e.AuthenticationEpochChanged? && !F.ActiveUserEpochMatches(a, user, stamp))
      || (e.FirstFactorAlreadyExists? &&
           (!F.IssuerGenerationMatches(a.issuer, challenge.generation) || !F.PolicyEnabled(a.policy)
            || F.AccountHasFactor(a, user) || F.CredentialTaken(a, credential.id)))
    case Assertion(user, row, credentialId, result) =>
      || e.DatabaseUnavailable?
      || (e.PasskeyUpdateConflict? &&
           (P.Justified(P.RowMissing, a, b, user, row, credentialId, result) || P.Justified(P.Exhausted, a, b, user, row, credentialId, result)))
  }

  function Failure(o: F.Outcome): ServiceError {
    if o == F.AuthenticationChanged then AuthenticationEpochChanged else FirstFactorAlreadyExists
  }

  lemma InsertOutcome(db: F.Db, job: Job)
    requires !job.Assertion?
    ensures var (after, o) := F.Apply(db, Operation(job));
            if o == F.Stored then Persisted(db, after, job) else Refused(db, db, job, Failure(o)) && after == db
  {
  }

  method Persist(s: Service, me: CallId, g: S.Grant, job: Job, ghost st: Standing) returns (r: Result<()>, ghost seen: Moment, ghost at: Moment)
    requires s.Valid() && Stands(me, s.w, st) && st.held == Some(g) && Fits(s.cfg, s.w, g, job)
    modifies s
    ensures s.Valid() && Stands(me, s.w, st)
    ensures Leads(old(s.here), seen) && Leads(seen, at) && Leads(at, s.here)
    ensures if r.Ok? then Persisted(At(seen).db, At(at).db, job) else Refused(At(seen).db, At(at).db, job, r.error)
  {
    hide Leads, At, Deployable, SoundMinted, SoundStarts, SoundSlots, Faithful, F.Apply, Refused, Persisted;
    if job.Assertion? {
      hide Stands, Inv;
      var outcome;
      outcome, seen, at := P.PersistPasskeyAuthentication(s, me, job.user, job.row, job.credentialId, job.result, st);
      AssertionOutcome(At(seen).db, At(at).db, job, outcome);
      if outcome.Err? {
        return Err(DatabaseUnavailable), seen, at;
      }
      if outcome.value == P.Applied || outcome.value == P.AlreadyCurrent {
        return Ok(()), seen, at;
      }
      return Err(PasskeyUpdateConflict), seen, at;
    }
    seen, at := s.here, s.here;
    LeadsItself(s.here);
    var unavailable: bool := *;
    if unavailable {
      OutageIsNoReason(At(seen).db, At(at).db, job);
      return Err(DatabaseUnavailable), seen, at;
    }
    var op := Operation(job);
    var outcome := F.Apply(s.w.db, op).1;
    InsertOutcome(s.w.db, job);
    s.Act(me, Write(op));
    at := Next(seen, me, Write(op));
    RelyKeepsStanding(me, At(at), s.w, st);
    return if outcome == F.Stored then Ok(()) else Err(Failure(outcome)), seen, at;
  }

  lemma OutageIsNoReason(a: F.Db, b: F.Db, job: Job)
    ensures Refused(a, b, job, DatabaseUnavailable)
  {
  }

  lemma AssertionOutcome(a: F.Db, b: F.Db, job: Job, o: Result<P.PersistOutcome>)
    requires job.Assertion?
    requires o.Ok? ==> P.Justified(o.value, a, b, job.user, job.row, job.credentialId, job.result)
    ensures o.Err? ==> Refused(a, b, job, DatabaseUnavailable)
    ensures o.Ok? && (o.value == P.Applied || o.value == P.AlreadyCurrent) ==> Persisted(a, b, job)
    ensures o.Ok? && (o.value == P.RowMissing || o.value == P.Exhausted) ==> Refused(a, b, job, PasskeyUpdateConflict)
  {
  }

  // True: the ticket was taken, the write committed while it was held, and this request completed
  // on it. False: the ticket was not there to take and nothing was written.
  method ConsumeThenPersist(s: Service, me: CallId, g: S.Grant, hash: string, job: Job, ghost st: Standing)
    returns (r: Result<bool>, ghost seen: Moment, ghost at: Moment)
    requires s.Valid() && Stands(me, s.w, st) && st.held.None? && g.id !in st.done
    requires IsTicket(s.w, g, g.id, hash) && Fits(s.cfg, s.w, g, job)
    modifies s
    ensures s.Valid()
    ensures Leads(old(s.here), seen) && Leads(seen, at) && Leads(at, s.here)
    ensures Stands(me, s.w, if r == Ok(true) then st.(done := st.done + {g.id}) else st)
    ensures r == Ok(true) ==> Persisted(At(seen).db, At(at).db, job) && Sometime(old(s.here), seen, Taken(me, g))
    ensures r == Ok(false) ==> Sometime(old(s.here), s.here, NotTakeable(g.key, S.Holder(hash)))
    ensures r.Err? && !r.error.RedisUnavailable? ==> Sometime(old(s.here), s.here, Stored(g))
    ensures r.Err? ==> r.error.RedisUnavailable? || r.error.DatabaseUnavailable? || Refused(At(seen).db, At(at).db, job, r.error)
  {
    hide Leads, Inv, Stands, Refused, Persisted, Fits, Sometime, Is, At, Charges, CurrentEpoch;
    LeadingIsTransitive();
    ghost var before := s.here;
    var taken;
    taken, seen := s.TakeForHolder(me, g.id, hash, st);
    at := seen;
    LeadsItself(at);
    if taken.Err? {
      if taken.error.DatabaseUnavailable? {
        ghost var back :| IsTicket(At(seen), back, g.id, hash) && Sometime(before, s.here, Stored(back));
        TakenIsFound(before, seen, g, back, g.id, hash);
      }
      return Err(taken.error), seen, at;
    }
    if taken.value.None? {
      return Ok(false), seen, at;
    }
    LaterHasAdvanced(before, seen);
    assert taken.value == Some(g);
    SometimeAt(before, seen, s.here, Taken(me, g));
    ghost var holding := st.(held := Some(g));
    FitsLater(before, s.here, g, job);
    var persisted;
    persisted, seen, at := Persist(s, me, g, job, holding);
    if persisted.Err? {
      var restored := s.Restore(me, holding);
      assert holding.(held := None) == st;
      return Err(if restored.Err? then restored.error else persisted.error), seen, at;
    }
    s.Complete(me, holding);
    assert holding.(held := None, done := holding.done + {g.id}) == st.(done := st.done + {g.id});
    return Ok(true), seen, at;
  }
}

// Verifying a code against the stored factor: inline, and to complete a login ticket
// (src/auth_factors/totp_service.rs).

module TotpService {
  import opened Prelude
  import opened World
  import opened Runs
  import opened Moments
  import opened AuthFactorService
  import S = OneTimeStore
  import C = ReplayClaims
  import L = AttemptLimiter
  import F = FactorDatabase
  import V = SecretEnvelope

  datatype FactorVerification = Accepted | Rejected | VerificationKeyUnavailable

  datatype TotpConfirmation =
    | Completed(user: UserId, epoch: int)
    | InvalidTicket
    | NoPendingEnrollment
    | InvalidCode
    | KeyUnavailable
    | RateLimited

  datatype Reencryption = NotNeeded | Reencrypted | Superseded | FactorMissing

  method FindTotpSecret(s: Service, me: CallId, user: UserId, ghost st: Standing) returns (r: Result<Option<Bytes>>, ghost read: Moment)
    requires s.Valid() && Stands(me, s.w, st)
    modifies s
    ensures s.Valid() && Stands(me, s.w, st) && read == old(s.here) && Leads(read, s.here)
    ensures r.Ok? ==> r.value == if user in At(read).db.totp then Some(At(read).db.totp[user].secret) else None
  {
    read := s.here;
    var found := if user in s.w.db.totp then Some(s.w.db.totp[user].secret) else None;
    var unavailable: bool := *;
    s.Pause(me, st);
    return if unavailable then Err(DatabaseUnavailable) else Ok(found), read;
  }

  // Whoever can open a stored secret finds the seed it was enrolled with.
  lemma StoredSecretOpensToSeed(cfg: Config, w: World, ring: V.KeyRing, user: UserId)
    requires Inv(cfg, w) && ring in cfg.rings && user in w.db.totp
    ensures var o := V.Decrypt(cfg.p, ring, w.db.totp[user].secret); o.Plain? ==> o.secret == w.db.totp[user].seed
  {
  }

  // The stored secret is under the active key, and still opens to the seed.
  predicate Migrated(cfg: Config, ring: V.KeyRing, db: F.Db, user: UserId, plain: Bytes) {
    user in db.totp && db.totp[user].seed == plain && V.Decrypt(cfg.p, ring, db.totp[user].secret) == V.Plain(plain, false)
  }

  lemma SwapMigrates(cfg: Config, ring: V.KeyRing, db: F.Db, user: UserId, cipher: Bytes, nonce: Bytes, plain: Bytes)
    requires Deployable(cfg) && ring in cfg.rings && |nonce| == V.NONCE_LENGTH && V.Encrypt(cfg.p, ring, nonce, plain).Some?
    requires user in db.totp && db.totp[user].secret == cipher ==> db.totp[user].seed == plain
    ensures var (after, o) := F.Apply(db, F.UpdateTotpIfCurrent(user, cipher, V.Encrypt(cfg.p, ring, nonce, plain).value));
            if o == F.Updated then Migrated(cfg, ring, after, user, plain)
            else !(user in after.totp && after.totp[user].secret == cipher)
  {
    V.RotationPreservesSecret(cfg.p, ring, ring, nonce, plain);
  }

  // Lazy re-encryption: replaces the ciphertext that was read, if it is still the stored one.
  method ReencryptTotpSecretIfNeeded(s: Service, me: CallId, user: UserId, cipher: Bytes, plain: Bytes, needed: bool, nonce: Bytes, ghost st: Standing)
    returns (r: Result<Reencryption>, ghost at: Moment)
    requires s.Valid() && Stands(me, s.w, st) && |nonce| == V.NONCE_LENGTH
    requires V.Decrypt(s.cfg.p, s.ring, cipher) == V.Plain(plain, needed)
    modifies s
    ensures s.Valid() && Stands(me, s.w, st)
    ensures Leads(old(s.here), at) && Leads(at, s.here)
    ensures r == Ok(NotNeeded) <==> !needed
    ensures r == Ok(Reencrypted) ==> Migrated(s.cfg, s.ring, At(at).db, user, plain)
    ensures r == Ok(Superseded) || r == Ok(FactorMissing) ==> Sometime(old(s.here), s.here, SecretReplaced(user, cipher))
    ensures r == Ok(Superseded) ==> user in At(at).db.totp
    ensures r == Ok(FactorMissing) ==> user !in At(at).db.totp
  {
    hide Stands, Rely, Leads, At, Sometime, Migrated, Deployable, SoundMinted, SoundStarts, SoundSlots, Reads, F.Valid, F.IdentityTraced;
    at := s.here;
    LeadsItself(s.here);
    DeployedRing(s.cfg, s.ring);
    if !needed {
      return Ok(NotNeeded), at;
    }
    var sealed := V.Encrypt(s.cfg.p, s.ring, nonce, plain);
    if sealed.None? {
      return Err(SecretUnreadable), at;
    }
    SealedReads(s.cfg, s.ring, nonce, plain);
    var unavailable: bool := *;
    if unavailable {
      return Err(DatabaseUnavailable), at;
    }
    var op := F.UpdateTotpIfCurrent(user, cipher, sealed.value);
    if user in s.w.db.totp { StoredSecretOpensToSeed(s.cfg, s.w, s.ring, user); }
    var outcome := F.Apply(s.w.db, op).1;
    ghost var before := s.here;
    s.Act(me, Write(op));
    at := Next(before, me, Write(op));
    WritingStands(s.cfg, At(before), me, op, st);
    RelyKeepsStanding(me, At(at), s.w, st);
    SwapMigrates(s.cfg, s.ring, At(before).db, user, cipher, nonce, plain);
    if outcome == F.Updated {
      return Ok(Reencrypted), at;
    }
    SometimeAt(before, at, s.here, SecretReplaced(user, cipher));
    LeadingIsTransitive();
    at := s.here;
    LeadsItself(s.here);
    var present := user in s.w.db.totp;
    s.Pause(me, st);
    return Ok(if present then Superseded else FactorMissing), at;
  }

  lemma WritingStands(cfg: Config, w: World, me: CallId, op: F.Op, st: Standing)
    requires MayAct(cfg, w, me, Write(op)) && Stands(me, w, st)
    ensures Stands(me, Apply(cfg, w, me, Write(op)), st)
  {
  }

  // A row that is still there after the swap missed is the enrolment that was verified exactly when
  // no later epoch has enrolled since; "superseded" alone does not tell.
  lemma SupersededIsSameEnrolmentIff(a: F.Db, b: F.Db, user: UserId)
    requires F.Valid(a) && F.Valid(b) && F.Advances(a, b) && user in a.totp && user in b.totp
    ensures F.SameEnrolment(a.totp[user], b.totp[user]) <==> b.totp[user].stamp <= a.users[user].epoch
  {
    assert a.totp[user].stamp <= a.users[user].epoch;
  }

  // A reset and a new enrolment between the read and the swap: the swap misses, a row is there, and
  // the inline verification accepts a code of a seed that no factor has any more.
  lemma SupersededMayHideReset()
    ensures var db := F.Db(map[1 := F.User(0, true)], map[1 := F.TotpRow([7], 0, [1])], map[], 0, F.PolicyAbsent, None, map[]);
            var removed := F.Apply(db, F.ResetFactor(1, Totp)).0;
            var after := F.Apply(removed, F.InsertTotpIfEmpty(1, 1, [8], [2])).0;
            && F.Valid(db) && F.Apply(after, F.UpdateTotpIfCurrent(1, [7], [9])).1 == F.Untouched
            && 1 in after.totp && after.totp[1].seed != db.totp[1].seed
  {
    var db := F.Db(map[1 := F.User(0, true)], map[1 := F.TotpRow([7], 0, [1])], map[], 0, F.PolicyAbsent, None, map[]);
    var removed := F.Apply(db, F.ResetFactor(1, Totp)).0;
    assert removed.users[1] == F.User(1, true) && !F.AccountHasFactor(removed, 1);
    assert F.Apply(removed, F.InsertTotpIfEmpty(1, 1, [8], [2])).0.totp[1] == F.TotpRow([8], 1, [2]);
  }

  // A wrong code: one failure in every dimension; the ticket goes once its own limit is reached.
  method RejectCode(s: Service, me: CallId, ticket: nat, hash: string, leases: seq<L.Lease>, ghost st: Standing)
    returns (r: Result<TotpConfirmation>)
    requires s.Valid() && Stands(me, s.w, st) && st.held.None? && st.leases == leases
    modifies s
    ensures s.Valid() && Stands(me, s.w, st.(leases := [], until := 0, charged := true)) && Leads(old(s.here), s.here)
    ensures var reached := L.RecordAll(old(s.w).limiter, leases, s.limits, old(s.w).now).1;
            r.Ok? ==> r.value == if reached == [] then InvalidCode else TotpConfirmation.RateLimited
    ensures |leases| == 1 && L.Distinct(leases[0].dimensions) ==> Charges(old(s.here), s.here, leases[0], s.limits, st.until)
    ensures L.Ticket in L.RecordAll(old(s.w).limiter, leases, s.limits, old(s.w).now).1 && r.Ok? ==>
      && Sometime(old(s.here), s.here, NotTakeable(S.TicketKey(ticket), S.Holder(hash)))
      && Sometime(old(s.here), s.here, NoPending(SetupKey(ticket)))
  {
    hide Inv, Stands, Leads, At, Sometime, Charges, L.RecordAll;
    LeadingIsTransitive();
    ghost var charged := st.(leases := [], until := 0, charged := true);
    var reached := s.RecordFailure(me, leases, st);
    if L.Ticket in reached {
      var invalidated := s.InvalidateTicket(me, ticket, hash, charged);
      if invalidated.Err? {
        return Err(invalidated.error);
      }
      return Ok(TotpConfirmation.RateLimited);
    }
    return Ok(if reached != [] then TotpConfirmation.RateLimited else InvalidCode);
  }

  // Reads the factor, opens it, checks the code and spends it. `secret` is what was read, and
  // `pass` is set only when the code was right and this request won its time step.
  datatype Attempt = Pass(cipher: Bytes, plain: Bytes, stale: bool) | NoFactor | KeyRetired | WrongCode | Replayed

  // The stored secret names a key this process no longer has.
  predicate Retired(cfg: Config, ring: V.KeyRing, db: F.Db, user: UserId) {
    user in db.totp && V.Decrypt(cfg.p, ring, db.totp[user].secret).UnknownKeyId?
  }

  lemma RetiredOf(cfg: Config, ring: V.KeyRing, db: F.Db, user: UserId, opening: V.Opened)
    requires user in db.totp && opening == V.Decrypt(cfg.p, ring, db.totp[user].secret)
    ensures opening.UnknownKeyId? <==> Retired(cfg, ring, db, user)
  {
  }

  method CheckStoredFactor(s: Service, me: CallId, user: UserId, code: string, leases: seq<L.Lease>, ghost st: Standing)
    returns (r: Result<Attempt>, ghost v: Verdict, ghost read: Moment, ghost at: Moment)
    requires s.Valid() && Stands(me, s.w, st) && st.leases == leases
    modifies s
    ensures s.Valid() && Leads(old(s.here), read) && Leads(read, at) && Leads(at, s.here)
    ensures Stands(me, s.w, if r == Ok(WrongCode) then st else st.(leases := [], until := 0)) && Sound(read)
    ensures Judged(s.generate, code, v) && (v.Wrong? <==> r == Ok(WrongCode))
    ensures !v.Unchecked? ==> user in At(read).db.totp && At(read).db.totp[user].seed == v.seed
    ensures r == Ok(NoFactor) ==> v.Unchecked? && user !in At(read).db.totp
    ensures r == Ok(KeyRetired) ==> v.Unchecked? && Retired(s.cfg, s.ring, At(read).db, user)
    ensures r == Ok(Replayed) ==> v.Right? && C.Claimed(At(at).claims, At(at).now, user, v.step)
    ensures r.Ok? && r.value.Pass? ==>
      && v.Right? && ClaimedBy(s.w.claims.log, me, user, v.step)
      && V.Decrypt(s.cfg.p, s.ring, r.value.cipher) == V.Plain(r.value.plain, r.value.stale)
  {
    hide Stands, Leads, At, Sometime, Charges, Inv, Deployable, Reads, Check, Retired, V.Decrypt;
    LeadingIsTransitive();
    v := Unchecked;
    var secret;
    secret, read := FindTotpSecret(s, me, user, st);
    LeadsItself(read);
    at := read;
    if secret.Err? || secret.value.None? {
      s.Release(me, leases, st);
      return if secret.Err? then Err(secret.error) else Ok(NoFactor), v, read, at;
    }
    var opening := V.DecryptWithRing(s.cfg.p, s.ring, secret.value.value);
    if !opening.Plain? {
      s.Release(me, leases, st);
      RetiredOf(s.cfg, s.ring, At(read).db, user, opening);
      return if opening.UnknownKeyId? then Ok(KeyRetired) else Err(SecretUnreadable), v, read, at;
    }
    StoredSecretOpensToSeed(s.cfg, At(read), s.ring, user);
    var now := s.w.now;
    var step := Check(s.generate, opening.secret, code, now);
    ghost var judged := s.here;
    s.Pause(me, st);
    TimeMoves(judged, s.here);
    LeadsItself(s.here);
    at := s.here;
    if step.None? {
      v := Wrong(opening.secret, now);
      return Ok(WrongCode), v, read, at;
    }
    v := Right(opening.secret, step.value, now);
    var claimed := s.ClaimTotpTimestep(me, user, step.value, now, leases, st);
    if claimed.Err? {
      return Err(claimed.error), v, read, at;
    }
    return Ok(if claimed.value then Pass(secret.value.value, opening.secret, opening.needsReencryption) else Replayed), v, read, at;
  }

  // What an accepted code is worth afterwards, in terms of what can be read again: while the account
  // keeps its epoch, the factor that was read is there; and whatever row is there later is that
  // factor exactly when no enrolment of the user has committed since.
  ghost predicate StillEnrolled(read: Moment, later: Moment, user: UserId)
    requires Leads(read, later) && user in At(read).db.totp
  {
    var was, now := At(read).db, At(later).db;
    && (user in now.users && user in was.users && now.users[user].epoch == was.users[user].epoch ==>
          user in now.totp && F.SameEnrolment(was.totp[user], now.totp[user]))
    && (user in now.totp ==>
          (F.SameEnrolment(was.totp[user], now.totp[user]) <==> !TotpEnrolledIn(read.cfg, At(read), later.steps[|read.steps|..], user)))
  }

  lemma EnrolmentRemains(read: Moment, later: Moment, user: UserId)
    requires Sound(read) && Leads(read, later) && user in At(read).db.totp
    ensures StillEnrolled(read, later, user)
  {
    LaterIsRun(read, later);
    SameEnrolmentIffNoneCommitted(read.cfg, At(read), later.steps[|read.steps|..], user);
  }

  // Inline verification. Accepted: the code was right for the seed stored when the call read it,
  // and this request spent its time step.
  method VerifyTotp(s: Service, me: CallId, user: UserId, ip: Option<string>, code: string, nonce: Bytes)
    returns (r: Result<FactorVerification>, ghost v: Verdict, ghost read: Moment, ghost at: Moment)
    requires s.Valid() && Stands(me, s.w, IDLE) && |nonce| == V.NONCE_LENGTH
    modifies s
    ensures s.Valid() && Leads(old(s.here), read) && Leads(read, at) && Leads(at, s.here)
    ensures Stands(me, s.w, IDLE.(charged := v.Wrong?))
    ensures Judged(s.generate, code, v)
    ensures !v.Unchecked? ==> user in At(read).db.totp && At(read).db.totp[user].seed == v.seed
    ensures r == Ok(Accepted) ==> v.Right? && ClaimedBy(s.w.claims.log, me, user, v.step) && StillEnrolled(read, s.here, user)
    ensures v.Wrong? ==> r == Ok(Rejected) || r == Err(ServiceError.RateLimited)
    ensures v.Wrong? ==> Charges(old(s.here), s.here, s.Attempt(me, user, None, ip), s.limits, L.LeaseEnd(old(s.w).now))
    ensures r == Ok(VerificationKeyUnavailable) ==> Retired(s.cfg, s.ring, At(read).db, user)
    ensures r == Ok(Rejected) && v.Unchecked? ==> user !in At(read).db.totp
    ensures r == Ok(Rejected) && v.Right? ==> C.Claimed(At(at).claims, At(at).now, user, v.step) || user !in At(at).db.totp
  {
    hide Inv, Stands, Leads, At, Charges, Check, Judged, ClaimedBy, StillEnrolled;
    LeadingIsTransitive();
    v, read, at := Unchecked, s.here, s.here;
    NothingJudged(s.generate, code);
    LeadsItself(s.here);
    ghost var until := L.LeaseEnd(s.w.now);
    var allowed := s.ReserveAttempt(me, user, None, ip, until, IDLE);
    if allowed.Err? { return Err(allowed.error), v, read, at; }
    if allowed.value.None? { return Err(ServiceError.RateLimited), v, read, at; }
    var leases := allowed.value.value.leases;
    ghost var st := IDLE.(leases := leases, until := until);
    var attempt;
    attempt, v, read, at := CheckStoredFactor(s, me, user, code, leases, st);
    assert st.(leases := [], until := 0) == IDLE;
    if attempt.Err? { return Err(attempt.error), v, read, at; }
    ghost var checked := s.here;
    match attempt.value {
      case NoFactor => return Ok(Rejected), v, read, at;
      case KeyRetired => return Ok(VerificationKeyUnavailable), v, read, at;
      case Replayed => return Ok(Rejected), v, read, at;
      case WrongCode =>
        var reached := s.RecordFailure(me, leases, st);
        assert st.(leases := [], until := 0, charged := true) == IDLE.(charged := true);
        return if reached != [] then Err(ServiceError.RateLimited) else Ok(Rejected), v, read, at;
      case Pass(cipher, plain, stale) =>
        var migrated;
        migrated, at := ReencryptTotpSecretIfNeeded(s, me, user, cipher, plain, stale, nonce, IDLE);
        ClaimRemains(checked, s.here, me, user, v.step);
        EnrolmentRemains(read, s.here, user);
        return Ok(if migrated == Ok(FactorMissing) then Rejected else Accepted), v, read, at;
    }
  }

  ghost predicate Authenticated(w: World, me: CallId, user: UserId, epoch: int, v: Verdict) {
    && v.Right? && ClaimedBy(w.claims.log, me, user, v.step)
    && user in w.db.users && w.db.users[user].epoch == epoch
    && user in w.db.totp && w.db.totp[user].seed == v.seed
  }

  // The same check, then the ticket. Completed: `g` is the holder's ticket, the answer is its user and
  // epoch, and when this request had taken it the account still had that epoch and the very seed the
  // code was checked against, so no reset can slip between the check and the completion.
  method VerifyTotpLogin(s: Service, me: CallId, ticket: nat, hash: string, ip: Option<string>, code: string, nonce: Bytes)
    returns (r: Result<TotpConfirmation>, ghost v: Verdict, ghost g: Option<S.Grant>, ghost at: Moment)
    requires s.Valid() && Stands(me, s.w, IDLE) && |nonce| == V.NONCE_LENGTH
    modifies s
    ensures s.Valid() && Leads(old(s.here), at) && Leads(at, s.here)
    ensures Stands(me, s.w, IDLE.(charged := v.Wrong?, done := if r.Ok? && r.value.Completed? then {ticket} else {}))
    ensures Judged(s.generate, code, v)
    ensures !v.Unchecked? ==> g.Some?
    ensures g.Some? ==> g.value.payload.LoginTicket? && Sometime(old(s.here), s.here, Found(g.value, ticket, hash))
    ensures v.Wrong? ==> r.Err? || r.value.InvalidCode? || r.value.RateLimited?
    ensures v.Wrong? ==> Charges(old(s.here), s.here, s.Attempt(me, g.value.payload.user, Some(ticket), ip), s.limits, L.LeaseEnd(old(s.w).now))
    ensures r == Ok(KeyUnavailable) ==> v.Unchecked?
    ensures r == Ok(InvalidCode) ==> !v.Unchecked?
    ensures r == Ok(InvalidCode) && v.Right? ==> C.Claimed(At(at).claims, At(at).now, g.value.payload.user, v.step)
    ensures r.Ok? && r.value.Completed? ==>
      && v.Right? && r.value == Completed(g.value.payload.user, g.value.payload.epoch)
      && Is(At(at), Taken(me, g.value)) && Authenticated(At(at), me, r.value.user, r.value.epoch, v)
      && Sometime(old(s.here), s.here, NoFailures(L.Counter(L.Ticket, s.uuid(ticket))))
  {
    hide Inv, Stands, Leads, At, Charges, Check, Judged, ClaimedBy, IsTicket, CurrentEpoch, Authenticated, Sometime, Is;
    LeadingIsTransitive();
    v, g, at := Unchecked, None, s.here;
    NothingJudged(s.generate, code);
    LeadsItself(s.here);
    ghost var before := s.here;
    ghost var until := L.LeaseEnd(s.w.now);
    var found, seen := s.FindForHolder(me, ticket, hash, IDLE);
    TimeMoves(before, s.here);
    if found.Err? { return Err(found.error), v, g, at; }
    if found.value.None? { return Ok(InvalidTicket), v, g, at; }
    var grant := found.value.value;
    TicketIsLogin(At(seen), grant, ticket, hash);
    g := found.value;
    if s.w.now >= grant.expires || Totp !in grant.payload.methods { return Ok(InvalidTicket), v, g, at; }
    var user := grant.payload.user;
    var allowed := s.ReserveAttempt(me, user, Some(ticket), ip, until, IDLE);
    if allowed.Err? { return Err(allowed.error), v, g, at; }
    if allowed.value.None? { return Ok(TotpConfirmation.RateLimited), v, g, at; }
    var leases := allowed.value.value.leases;
    ghost var st := IDLE.(leases := leases, until := until);
    var attempt;
    ghost var read;
    attempt, v, read, at := CheckStoredFactor(s, me, user, code, leases, st);
    assert st.(leases := [], until := 0) == IDLE;
    if attempt.Err? { return Err(attempt.error), v, g, at; }
    match attempt.value {
      case NoFactor => return Ok(InvalidTicket), v, g, at;
      case KeyRetired => return Ok(KeyUnavailable), v, g, at;
      case Replayed => return Ok(InvalidCode), v, g, at;
      case WrongCode =>
        r := RejectCode(s, me, ticket, hash, leases, st);
        assert st.(leases := [], until := 0, charged := true) == IDLE.(charged := true, done := {});
        return;
      case Pass(cipher, plain, stale) =>
        ghost var checked := s.here;
        var migrated, _ := ReencryptTotpSecretIfNeeded(s, me, user, cipher, plain, stale, nonce, IDLE);
        ClaimRemains(checked, s.here, me, user, v.step);
        if migrated == Ok(FactorMissing) { return Ok(InvalidTicket), v, g, at; }
        r, at := CompleteLogin(s, me, grant, hash, seen, read, v);
        return;
    }
  }

  // The ticket is taken last; only then are the failures on it forgotten.
  method CompleteLogin(s: Service, me: CallId, g: S.Grant, hash: string, ghost seen: Moment, ghost read: Moment, ghost v: Verdict)
    returns (r: Result<TotpConfirmation>, ghost at: Moment)
    requires s.Valid() && Stands(me, s.w, IDLE)
    requires Sound(seen) && IsTicket(At(seen), g, g.id, hash) && CurrentEpoch(At(seen).db, g)
    requires Leads(seen, read) && Leads(read, s.here)
    requires v.Right? && ClaimedBy(s.w.claims.log, me, g.payload.user, v.step)
    requires g.payload.user in At(read).db.totp && At(read).db.totp[g.payload.user].seed == v.seed
    modifies s
    ensures s.Valid() && Leads(old(s.here), at) && Leads(at, s.here)
    ensures Stands(me, s.w, IDLE.(done := if r.Ok? && r.value.Completed? then {g.id} else {}))
    ensures r.Ok? ==> r.value.InvalidTicket? || r.value == Completed(g.payload.user, g.payload.epoch)
    ensures r.Ok? && r.value.Completed? ==> Sometime(old(s.here), s.here, NoFailures(L.Counter(L.Ticket, s.uuid(g.id))))
    ensures r.Ok? && r.value.InvalidTicket? ==> Sometime(old(s.here), s.here, NotTakeable(g.key, S.Holder(hash)))
    ensures r.Ok? && r.value.Completed? ==> Is(At(at), Taken(me, g)) && Authenticated(At(at), me, g.payload.user, g.payload.epoch, v)
  {
    hide Inv, Stands, Leads, At, Sometime, Is, Judged, ClaimedBy;
    LeadingIsTransitive();
    ghost var checked := s.here;
    var taken;
    taken, at := s.TakeForHolder(me, g.id, hash, IDLE);
    assert IDLE.(done := {}) == IDLE;
    if taken.Err? { return Err(taken.error), at; }
    if taken.value.None? { return Ok(InvalidTicket), at; }
    TakenIsFound(seen, at, g, taken.value.value, g.id, hash);
    FactorSurvives(seen, read, at, g.payload.user);
    ClaimRemains(checked, at, me, g.payload.user, v.step);
    ghost var holding := IDLE.(held := Some(g));
    s.Complete(me, holding);
    ghost var completed := IDLE.(done := {g.id});
    assert holding.(held := None, done := holding.done + {g.id}) == completed;
    s.ClearFailures(me, L.Counter(L.Ticket, s.uuid(g.id)), completed);
    return Ok(Completed(g.payload.user, g.payload.epoch)), at;
  }

  // Between two moments with the same epoch no factor row is replaced.
  lemma FactorSurvives(a: Moment, read: Moment, b: Moment, user: UserId)
    requires Sound(a) && Leads(a, read) && Leads(read, b) && user in At(read).db.totp
    requires user in At(a).db.users && user in At(b).db.users && At(a).db.users[user].epoch == At(b).db.users[user].epoch
    ensures user in At(b).db.totp && F.SameEnrolment(At(read).db.totp[user], At(b).db.totp[user])
  {
    LaterHasAdvanced(a, read);
    LaterHasAdvanced(read, b);
  }
}

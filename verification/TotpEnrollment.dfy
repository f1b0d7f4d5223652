// First enrolment of a TOTP factor on a login ticket: reserving a seed, and confirming it with its
// first code (src/auth_factors/totp_enrollment.rs:44-267).

module TotpEnrollment {
  import opened Prelude
  import opened World
  import opened Runs
  import opened Moments
  import opened AuthFactorService
  import opened Persistence
  import opened TotpService
  import S = OneTimeStore
  import C = ReplayClaims
  import L = AttemptLimiter
  import F = FactorDatabase
  import V = SecretEnvelope

  // One entry per passkey, then one for the TOTP factor.
  function FactorMethods(db: F.Db, user: UserId): seq<FactorMethod> {
    seq(|F.PasskeysOf(db, user)|, _ => Passkey) + if user in db.totp then [Totp] else []
  }

  method ListFactorMethods(s: Service, me: CallId, user: UserId, ghost st: Standing) returns (r: Result<seq<FactorMethod>>)
    requires s.Valid() && Stands(me, s.w, st)
    modifies s
    ensures s.Valid() && Stands(me, s.w, st) && Leads(old(s.here), s.here)
    ensures r.Ok? ==> r.value == FactorMethods(old(s.w).db, user)
  {
    hide Inv, Stands, Leads, At, FactorMethods;
    var found := FactorMethods(s.w.db, user);
    var unavailable: bool := *;
    s.Pause(me, st);
    return if unavailable then Err(DatabaseUnavailable) else Ok(found);
  }

  // The list is one passkey and nothing else, and passkeys are switched off.
  method IsDisabledPasskeyOnly(s: Service, me: CallId, methods: seq<FactorMethod>, ghost st: Standing) returns (r: Result<bool>)
    requires s.Valid() && Stands(me, s.w, st)
    modifies s
    ensures s.Valid() && Stands(me, s.w, st) && Leads(old(s.here), s.here)
    ensures r.Ok? ==> (r.value <==> methods == [Passkey] && old(s.w).db.policy == F.Policy(false))
  {
    hide Inv, Stands, Leads, At;
    LeadsItself(s.here);
    if methods != [Passkey] {
      return Ok(false);
    }
    var policy := s.w.db.policy;
    var unavailable: bool := *;
    s.Pause(me, st);
    return if unavailable || policy.PolicyUnreadable? then Err(DatabaseUnavailable) else Ok(!F.PolicyEnabled(policy));
  }

  method IsRecoveryRequired(s: Service, me: CallId, user: UserId, ghost st: Standing) returns (r: Result<bool>)
    requires s.Valid() && Stands(me, s.w, st)
    modifies s
    ensures s.Valid() && Stands(me, s.w, st) && Leads(old(s.here), s.here)
    ensures r == Ok(true) ==> FactorMethods(old(s.w).db, user) == [Passkey]
  {
    hide Inv, Stands, Leads, At, FactorMethods;
    LeadingIsTransitive();
    var methods := ListFactorMethods(s, me, user, st);
    if methods.Err? { return Err(methods.error); }
    r := IsDisabledPasskeyOnly(s, me, methods.value, st);
  }

  // What the check decides on one reading of the database.
  predicate OffersRecovery(db: F.Db, user: UserId) {
    FactorMethods(db, user) == [Passkey] && db.policy == F.Policy(false)
  }

  // The recovery insert takes any passkey-only account; the check in front of it counts list
  // entries, so while passkeys are switched off it lets exactly the accounts through that have a
  // single passkey.
  lemma RecoveryIsOfferedIff(db: F.Db, user: UserId, stamp: int, cipher: Bytes, seed: Bytes)
    requires F.ActiveUserEpochMatches(db, user, stamp) && F.HasPasskey(db, user) && user !in db.totp
    ensures F.Apply(db, F.InsertTotpForPasskeyRecovery(user, stamp, cipher, seed)).1 == F.Stored
    ensures OffersRecovery(db, user) <==> db.policy == F.Policy(false) && |F.PasskeysOf(db, user)| == 1
  {
    if |F.PasskeysOf(db, user)| == 1 {
      assert FactorMethods(db, user)[0] == Passkey;
    }
  }

  // An account with two passkeys while passkeys are switched off: it has nothing it could use, the
  // insert would take it, and it is not offered recovery.
  lemma TwoPasskeysAreNotOfferedRecovery()
    ensures var challenge := Challenge(1, 7, false);
            var key := id => F.PasskeyRow(1, [id], F.Credential([id], 0, false, false), 1, 0, challenge);
            var db := F.Db(map[1 := F.User(0, true)], map[], map[0 := key(5), 1 := key(6)], 2, F.Policy(false), None, map[]);
            && F.Valid(db) && F.Apply(db, F.InsertTotpForPasskeyRecovery(1, 0, [8], [2])).1 == F.Stored
            && !OffersRecovery(db, 1)
  {
    var challenge := Challenge(1, 7, false);
    var key := id => F.PasskeyRow(1, [id], F.Credential([id], 0, false, false), 1, 0, challenge);
    var db := F.Db(map[1 := F.User(0, true)], map[], map[0 := key(5), 1 := key(6)], 2, F.Policy(false), None, map[]);
    assert F.PasskeysOf(db, 1) == {0, 1} && 0 in db.passkeys;
    RecoveryIsOfferedIff(db, 1, 0, [8], [2]);
  }

  // SET NX EX decides between concurrent starts; the loser's seed never leaves the process.
  method ReserveSetup(s: Service, me: CallId, ticket: nat, user: UserId, cipher: Bytes, secret: Bytes, ghost st: Standing) returns (r: Result<bool>)
    requires s.Valid() && Stands(me, s.w, st) && Reads(s.cfg, cipher, secret)
    modifies s
    ensures s.Valid() && Stands(me, s.w, st) && Leads(old(s.here), s.here)
    ensures r == Ok(true) ==> StartedOn(s.w, ticket, user, cipher, secret) && s.w.starts[cipher].call == me
  {
    hide Leads, At, Deployable;
    ghost var before := s.here;
    LeadsItself(s.here);
    var unavailable: bool := *;
    // A ciphertext under a fresh nonce has not been seen before.
    if unavailable || cipher in s.w.starts {
      return Err(RedisUnavailable);
    }
    var value := TotpSetup(user, cipher);
    var won := SetupKey(ticket) !in s.w.pending;
    s.Act(me, Reserve(SetupKey(ticket), value, secret));
    RelyKeepsStanding(me, At(Next(before, me, Reserve(SetupKey(ticket), value, secret))), s.w, st);
    return Ok(won);
  }

  // Some(seed): this request won the ticket's setup slot for the ticket's user, and it is the only one
  // that was ever given a seed under `cipher`.
  method StartTotpEnrollment(s: Service, me: CallId, ticket: nat, hash: string, secret: Bytes, nonce: Bytes)
    returns (r: Result<Option<Bytes>>, ghost g: Option<S.Grant>, ghost cipher: Bytes)
    requires s.Valid() && Stands(me, s.w, IDLE) && |nonce| == V.NONCE_LENGTH
    modifies s
    ensures s.Valid() && Stands(me, s.w, IDLE) && Leads(old(s.here), s.here)
    ensures g.Some? ==> g.value.payload.LoginTicket? && Sometime(old(s.here), s.here, Found(g.value, ticket, hash))
    ensures r.Ok? && r.value.Some? ==>
      && r.value.value == secret && g.Some?
      && V.Encrypt(s.cfg.p, s.ring, nonce, secret) == Some(cipher)
      && StartedOn(s.w, ticket, g.value.payload.user, cipher, secret) && s.w.starts[cipher].call == me
  {
    hide Inv, Stands, Leads, At, Reads, Sometime, Is;
    LeadingIsTransitive();
    g, cipher := None, [];
    var found, seen := s.FindForHolder(me, ticket, hash, IDLE);
    if found.Err? { return Err(found.error), g, cipher; }
    if found.value.None? { return Ok(None), g, cipher; }
    var grant := found.value.value;
    g := found.value;
    var methods := ListFactorMethods(s, me, grant.payload.user, IDLE);
    if methods.Err? { return Err(methods.error), g, cipher; }
    if s.w.now >= grant.expires || Totp !in grant.payload.methods { return Ok(None), g, cipher; }
    if methods.value != [] {
      var recovery := IsDisabledPasskeyOnly(s, me, methods.value, IDLE);
      if recovery.Err? { return Err(recovery.error), g, cipher; }
      if !recovery.value { return Ok(None), g, cipher; }
    }
    DeployedRing(s.cfg, s.ring);
    var sealed := V.Encrypt(s.cfg.p, s.ring, nonce, secret);
    if sealed.None? { return Err(SecretUnreadable), g, cipher; }
    SealedReads(s.cfg, s.ring, nonce, secret);
    cipher := sealed.value;
    var won := ReserveSetup(s, me, ticket, grant.payload.user, sealed.value, secret, IDLE);
    if won.Err? { return Err(won.error), g, cipher; }
    return Ok(if won.value then Some(secret) else None), g, cipher;
  }

  // Opens the reserved seed, checks the code and spends it. `at` is the state the claim was made in.
  method CheckPendingSeed(s: Service, me: CallId, user: UserId, cipher: Bytes, code: string, leases: seq<L.Lease>, ghost st: Standing)
    returns (r: Result<Attempt>, ghost v: Verdict, ghost at: Moment)
    requires s.Valid() && Stands(me, s.w, st) && st.leases == leases && cipher in s.w.starts
    modifies s
    ensures s.Valid() && Leads(old(s.here), at) && Leads(at, s.here)
    ensures Stands(me, s.w, if r == Ok(WrongCode) then st else st.(leases := [], until := 0))
    ensures Judged(s.generate, code, v) && (v.Wrong? <==> r == Ok(WrongCode))
    ensures !v.Unchecked? ==> v.seed == old(s.w).starts[cipher].secret
    ensures r.Ok? ==> !r.value.NoFactor?
    ensures r.Err? ==> r.error.RedisUnavailable? || r.error.SecretUnreadable?
    ensures r == Ok(KeyRetired) ==> v.Unchecked? && V.Decrypt(s.cfg.p, s.ring, cipher).UnknownKeyId?
    ensures r == Ok(Replayed) ==> v.Right? && C.Claimed(At(at).claims, At(at).now, user, v.step)
    ensures r.Ok? && r.value.Pass? ==> v.Right? && v.seed == r.value.plain && ClaimedBy(s.w.claims.log, me, user, v.step)
  {
    hide Stands, Leads, At, Sometime, Charges, Inv, Deployable, Check, Reads, V.Decrypt;
    LeadingIsTransitive();
    v, at := Unchecked, s.here;
    LeadsItself(s.here);
    var opening := V.DecryptWithRing(s.cfg.p, s.ring, cipher);
    StartedSeedOpens(s.cfg, s.w, s.ring, cipher);
    if !opening.Plain? {
      s.Release(me, leases, st);
      return if opening.UnknownKeyId? then Ok(KeyRetired) else Err(SecretUnreadable), v, at;
    }
    var now := s.w.now;
    var step := Check(s.generate, opening.secret, code, now);
    s.Pause(me, st);
    TimeMoves(at, s.here);
    LeadsItself(s.here);
    at := s.here;
    if step.None? {
      v := Wrong(opening.secret, now);
      return Ok(WrongCode), v, at;
    }
    v := Right(opening.secret, step.value, now);
    var claimed := s.ClaimTotpTimestep(me, user, step.value, now, leases, st);
    if claimed.Err? {
      return Err(claimed.error), v, at;
    }
    return Ok(if claimed.value then Pass(cipher, opening.secret, opening.needsReencryption) else Replayed), v, at;
  }

  // Whoever can open the ciphertext of a winning start finds the seed that start returned.
  lemma StartedSeedOpens(cfg: Config, w: World, ring: V.KeyRing, cipher: Bytes)
    requires Inv(cfg, w) && ring in cfg.rings && cipher in w.starts
    ensures var o := V.Decrypt(cfg.p, ring, cipher); o.Plain? ==> o.secret == w.starts[cipher].secret
  {
    assert Reads(cfg, cipher, w.starts[cipher].secret);
  }

  // The committed enrolment: the code had been spent, the account was active at the ticket's epoch,
  // and the stored secret is the one the winning start on this ticket returned and the code was
  // checked against.
  ghost predicate Enrolled(a: World, b: World, me: CallId, ticket: nat, user: UserId, epoch: int, cipher: Bytes, v: Verdict) {
    && v.Right? && ClaimedBy(a.claims.log, me, user, v.step)
    && StartedOn(a, ticket, user, cipher, v.seed)
    && F.ActiveUserEpochMatches(a.db, user, epoch) && user !in a.db.totp
    && b.db == a.db.(totp := a.db.totp[user := F.TotpRow(cipher, epoch, v.seed)])
  }

  lemma PersistedIsEnrolled(a: World, b: World, me: CallId, ticket: nat, job: Job, v: Verdict)
    requires job.StoreTotp? && Persisted(a.db, b.db, job) && v.Right? && v.seed == job.seed
    requires ClaimedBy(a.claims.log, me, job.user, v.step) && StartedOn(a, ticket, job.user, job.cipher, job.seed)
    ensures Enrolled(a, b, me, ticket, job.user, job.stamp, job.cipher, v)
  {
  }

  // Clear the ticket's failures, take the ticket, insert the row. A conflict that cannot go away
  // ends the ticket as well. `done` is the ticket if the row was committed; the call may then still
  // fail on removing the setup.
  method StoreEnrollment(s: Service, me: CallId, g: S.Grant, hash: string, cipher: Bytes, plain: Bytes, recovery: bool, ghost v: Verdict)
    returns (r: Result<TotpConfirmation>, ghost done: set<nat>, ghost seen: Moment, ghost at: Moment)
    requires s.Valid() && Stands(me, s.w, IDLE) && g.payload.LoginTicket? && IsTicket(s.w, g, g.id, hash)
    requires v.Right? && v.seed == plain && StartedOn(s.w, g.id, g.payload.user, cipher, plain)
    requires ClaimedBy(s.w.claims.log, me, g.payload.user, v.step)
    modifies s
    ensures s.Valid() && Leads(old(s.here), seen) && Leads(seen, at) && Leads(at, s.here)
    ensures Stands(me, s.w, IDLE.(done := done)) && done <= {g.id}
    ensures r.Ok? ==> r.value == if done == {g.id} then Completed(g.payload.user, g.payload.epoch) else InvalidTicket
    ensures Sometime(old(s.here), s.here, NoFailures(L.Counter(L.Ticket, s.uuid(g.id))))
    ensures r.Ok? ==> Sometime(old(s.here), s.here, NoPending(SetupKey(g.id)))
    ensures r.Ok? && r.value.InvalidTicket? ==> Sometime(old(s.here), s.here, NotTakeable(g.key, S.Holder(hash)))
    ensures r == Err(DatabaseUnavailable) ==> Sometime(old(s.here), s.here, Stored(g))
    ensures done == {g.id} ==> Sometime(old(s.here), seen, Taken(me, g))
    ensures done == {g.id} ==> Enrolled(At(seen), At(at), me, g.id, g.payload.user, g.payload.epoch, cipher, v)
  {
    hide Inv, Stands, Leads, At, ClaimedBy, Refused, Persisted, Enrolled, IsTicket, StartedOn, Sometime, Is;
    LeadingIsTransitive();
    ghost var before := s.here;
    done := {};
    var job := StoreTotp(recovery, g.payload.user, g.payload.epoch, cipher, plain);
    s.ClearFailures(me, L.Counter(L.Ticket, s.uuid(g.id)), IDLE);
    TicketRemains(before, s.here, g, g.id, hash);
    StartRemains(before, s.here, g.id, g.payload.user, cipher, plain);
    var persisted;
    persisted, seen, at := ConsumeThenPersist(s, me, g, hash, job, IDLE);
    assert IDLE.done + {g.id} == {g.id} && IDLE.(done := {}) == IDLE;
    if persisted.Ok? {
      if persisted.value {
        done := {g.id};
        ClaimRemains(before, seen, me, g.payload.user, v.step);
        StartRemains(before, seen, g.id, g.payload.user, cipher, plain);
        PersistedIsEnrolled(At(seen), At(at), me, g.id, job, v);
      }
      var dropped := s.DropPending(me, SetupKey(g.id), IDLE.(done := done));
      if dropped.Err? { return Err(dropped.error), done, seen, at; }
      return Ok(if persisted.value then Completed(g.payload.user, g.payload.epoch) else InvalidTicket), done, seen, at;
    }
    if !persisted.error.FirstFactorAlreadyExists? && !persisted.error.AuthenticationEpochChanged? {
      return Err(persisted.error), done, seen, at;
    }
    var ended := s.InvalidateTicket(me, g.id, hash, IDLE);
    if ended.Err? { return Err(ended.error), done, seen, at; }
    return Ok(InvalidTicket), done, seen, at;
  }

  // The ticket and the setup a confirmation works on.
  datatype Opening = TicketInvalid | SetupMissing | Opened(grant: S.Grant, cipher: Bytes)

  // Both were found in the stores; a setup of another user ends the ticket.
  method OpenSetup(s: Service, me: CallId, ticket: nat, hash: string)
    returns (r: Result<Opening>, ghost g: Option<S.Grant>, ghost secret: Bytes)
    requires s.Valid() && Stands(me, s.w, IDLE)
    modifies s
    ensures s.Valid() && Stands(me, s.w, IDLE) && Leads(old(s.here), s.here)
    ensures g.Some? ==> g.value.payload.LoginTicket? && Sometime(old(s.here), s.here, Found(g.value, ticket, hash))
    ensures r.Ok? && r.value.Opened? ==>
      var Opened(grant, cipher) := r.value;
      && g == Some(grant) && grant.id == ticket && IsTicket(s.w, grant, ticket, hash)
      && Sometime(old(s.here), s.here, Pended(SetupKey(ticket), TotpSetup(grant.payload.user, cipher)))
      && StartedOn(s.w, ticket, grant.payload.user, cipher, secret)
  {
    hide Inv, Stands, Leads, At, Sometime, Is, IsTicket, CurrentEpoch;
    LeadingIsTransitive();
    g, secret := None, [];
    var found, first := s.FindForHolder(me, ticket, hash, IDLE);
    if found.Err? { return Err(found.error), g, secret; }
    if found.value.None? { return Ok(TicketInvalid), g, secret; }
    var grant := found.value.value;
    TicketIsLogin(At(first), grant, ticket, hash);
    g := found.value;
    if s.w.now >= grant.expires || Totp !in grant.payload.methods { return Ok(TicketInvalid), g, secret; }
    var setup, second := s.FindPending(me, SetupKey(ticket), IDLE);
    if setup.Err? { return Err(setup.error), g, secret; }
    if setup.value.None? { return Ok(SetupMissing), g, secret; }
    var pending := setup.value.value;
    SometimeAt(first, second, s.here, Pended(SetupKey(ticket), pending));
    if pending.user != grant.payload.user {
      var ended := s.InvalidateTicket(me, ticket, hash, IDLE);
      if ended.Err? { return Err(ended.error), g, secret; }
      return Ok(TicketInvalid), g, secret;
    }
    secret := At(second).starts[pending.cipher].secret;
    StartRemains(second, s.here, ticket, pending.user, pending.cipher, secret);
    TicketRemains(first, s.here, grant, ticket, hash);
    return Ok(Opened(grant, pending.cipher)), g, secret;
  }

  // Completed at most once per ticket, by the request that had taken it: `g` is the holder's ticket,
  // the code was right and spent by this request, and it was checked against the very seed that was
  // stored, under the ticket's user and epoch.
  method ConfirmTotpEnrollment(s: Service, me: CallId, ticket: nat, hash: string, ip: Option<string>, code: string)
    returns (r: Result<TotpConfirmation>, ghost v: Verdict, ghost g: Option<S.Grant>, ghost cipher: Bytes, ghost done: set<nat>,
             ghost seen: Moment, ghost at: Moment)
    requires s.Valid() && Stands(me, s.w, IDLE)
    modifies s
    ensures s.Valid() && Leads(old(s.here), seen) && Leads(seen, at) && Leads(at, s.here)
    ensures Stands(me, s.w, IDLE.(charged := v.Wrong?, done := done)) && done <= {ticket}
    ensures Judged(s.generate, code, v)
    ensures g.Some? ==> g.value.payload.LoginTicket? && Sometime(old(s.here), s.here, Found(g.value, ticket, hash))
    ensures !v.Unchecked? ==>
      && g.Some?
      && Sometime(old(s.here), s.here, Pended(SetupKey(ticket), TotpSetup(g.value.payload.user, cipher)))
      && Sometime(old(s.here), s.here, Started(ticket, g.value.payload.user, cipher, v.seed))
    ensures v.Wrong? ==> r.Err? || r.value.InvalidCode? || r.value.RateLimited?
    ensures v.Wrong? ==> Charges(old(s.here), s.here, s.Attempt(me, g.value.payload.user, Some(ticket), ip), s.limits, L.LeaseEnd(old(s.w).now))
    ensures r == Ok(NoPendingEnrollment) ==> v.Unchecked?
    ensures r == Ok(KeyUnavailable) ==> v.Unchecked? && V.Decrypt(s.cfg.p, s.ring, cipher).UnknownKeyId?
    ensures r == Ok(InvalidCode) ==> !v.Unchecked?
    ensures r == Ok(InvalidCode) && v.Right? ==> C.Claimed(At(at).claims, At(at).now, g.value.payload.user, v.step)
    ensures r.Ok? ==> (r.value.Completed? <==> done == {ticket})
    ensures done == {ticket} ==> Sometime(old(s.here), s.here, NoFailures(L.Counter(L.Ticket, s.uuid(ticket))))
    ensures r.Ok? && (r.value.Completed? || r.value.KeyUnavailable?) ==> Sometime(old(s.here), s.here, NoPending(SetupKey(ticket)))
    ensures v.Right? && r == Err(DatabaseUnavailable) ==> Sometime(old(s.here), s.here, Stored(g.value))
    ensures done == {ticket} ==>
      && g.Some? && Sometime(old(s.here), seen, Taken(me, g.value))
      && Enrolled(At(seen), At(at), me, ticket, g.value.payload.user, g.value.payload.epoch, cipher, v)
      && (r.Ok? ==> r.value == Completed(g.value.payload.user, g.value.payload.epoch))
  {
    hide Inv, Stands, Leads, At, Charges, ClaimedBy, Check, Judged, Enrolled, Sometime, Is, IsTicket, V.Decrypt, C.Claimed;
    hide FactorMethods, L.FailureDimensions, L.Distinct;
    LeadingIsTransitive();
    v, cipher, done, seen, at := Unchecked, [], {}, s.here, s.here;
    ghost var before := s.here;
    ghost var until := L.LeaseEnd(s.w.now);
    NothingJudged(s.generate, code);
    LeadsItself(s.here);
    assert IDLE.(charged := false, done := {}) == IDLE;
    var opening;
    ghost var secret;
    opening, g, secret := OpenSetup(s, me, ticket, hash);
    ghost var established := s.here;
    if opening.Err? { return Err(opening.error), v, g, cipher, done, seen, at; }
    if opening.value.TicketInvalid? { return Ok(InvalidTicket), v, g, cipher, done, seen, at; }
    if opening.value.SetupMissing? { return Ok(NoPendingEnrollment), v, g, cipher, done, seen, at; }
    var Opened(grant, sealed) := opening.value;
    var user := grant.payload.user;
    cipher := sealed;
    var recovery := IsRecoveryRequired(s, me, user, IDLE);
    if recovery.Err? { return Err(recovery.error), v, g, cipher, done, seen, at; }
    TimeMoves(before, s.here);
    var allowed := s.ReserveAttempt(me, user, Some(ticket), ip, until, IDLE);
    if allowed.Err? { return Err(allowed.error), v, g, cipher, done, seen, at; }
    if allowed.value.None? { return Ok(TotpConfirmation.RateLimited), v, g, cipher, done, seen, at; }
    StartRemains(established, s.here, ticket, user, cipher, secret);
    StartedAt(before, established, s.here, ticket, user, cipher, secret);
    TicketRemains(established, s.here, grant, ticket, hash);
    r, v, done, seen, at := ConfirmReserved(s, me, grant, hash, sealed, code, recovery.value, allowed.value.value.leases, until, secret);
  }

  // The same from the reservation on: the ticket and the setup have been found to belong together.
  method ConfirmReserved(s: Service, me: CallId, g: S.Grant, hash: string, cipher: Bytes, code: string, recovery: bool,
                         leases: seq<L.Lease>, ghost until: int, ghost secret: Bytes)
    returns (r: Result<TotpConfirmation>, ghost v: Verdict, ghost done: set<nat>, ghost seen: Moment, ghost at: Moment)
    requires s.Valid() && Stands(me, s.w, IDLE.(leases := leases, until := until))
    requires g.payload.LoginTicket? && IsTicket(s.w, g, g.id, hash)
    requires StartedOn(s.w, g.id, g.payload.user, cipher, secret)
    requires |leases| == 1 && L.Distinct(leases[0].dimensions)
    modifies s
    ensures s.Valid() && Leads(old(s.here), seen) && Leads(seen, at) && Leads(at, s.here)
    ensures Stands(me, s.w, IDLE.(charged := v.Wrong?, done := done)) && done <= {g.id}
    ensures Judged(s.generate, code, v) && (!v.Unchecked? ==> v.seed == secret)
    ensures v.Wrong? ==> Charges(old(s.here), s.here, leases[0], s.limits, until) && (r.Err? || r.value.InvalidCode? || r.value.RateLimited?)
    ensures r.Ok? ==> !r.value.NoPendingEnrollment?
    ensures r == Ok(KeyUnavailable) ==>
      && v.Unchecked? && V.Decrypt(s.cfg.p, s.ring, cipher).UnknownKeyId?
      && Sometime(old(s.here), s.here, NoPending(SetupKey(g.id)))
    ensures r == Ok(InvalidCode) ==> !v.Unchecked?
    ensures r == Ok(InvalidCode) && v.Right? ==> C.Claimed(At(at).claims, At(at).now, g.payload.user, v.step)
    ensures r.Ok? ==> (r.value.Completed? <==> done == {g.id})
    ensures r.Ok? && r.value.Completed? ==> Sometime(old(s.here), s.here, NoPending(SetupKey(g.id)))
    ensures v.Right? && r == Err(DatabaseUnavailable) ==> Sometime(old(s.here), s.here, Stored(g))
    ensures done == {g.id} ==>
      && Sometime(old(s.here), s.here, NoFailures(L.Counter(L.Ticket, s.uuid(g.id))))
      && Sometime(old(s.here), seen, Taken(me, g))
      && Enrolled(At(seen), At(at), me, g.id, g.payload.user, g.payload.epoch, cipher, v)
      && (r.Ok? ==> r.value == Completed(g.payload.user, g.payload.epoch))
  {
    hide Inv, Stands, Leads, At, Charges, ClaimedBy, Check, Judged, Enrolled, Sometime, Is, IsTicket, V.Decrypt;
    LeadingIsTransitive();
    ghost var before := s.here;
    done := {};
    ghost var st := IDLE.(leases := leases, until := until);
    assert st.(leases := [], until := 0) == IDLE == IDLE.(charged := false, done := {});
    assert st.(leases := [], until := 0, charged := true) == IDLE.(charged := true, done := {});
    var attempt;
    attempt, v, at := CheckPendingSeed(s, me, g.payload.user, cipher, code, leases, st);
    seen := at;
    LeadsItself(at);
    if attempt.Err? { return Err(attempt.error), v, done, seen, at; }
    if attempt.value.KeyRetired? {
      var dropped := s.DropPending(me, SetupKey(g.id), IDLE);
      if dropped.Err? { return Err(dropped.error), v, done, seen, at; }
      return Ok(KeyUnavailable), v, done, seen, at;
    }
    if attempt.value.WrongCode? {
      r := RejectCode(s, me, g.id, hash, leases, st);
      return;
    }
    if attempt.value.Replayed? {
      return Ok(InvalidCode), v, done, seen, at;
    }
    TicketRemains(before, s.here, g, g.id, hash);
    StartRemains(before, s.here, g.id, g.payload.user, cipher, secret);
    r, done, seen, at := StoreEnrollment(s, me, g, hash, cipher, attempt.value.plain, recovery, v);
  }

  lemma StartedAt(a: Moment, m: Moment, b: Moment, ticket: nat, user: UserId, cipher: Bytes, seed: Bytes)
    requires Leads(a, m) && Leads(m, b) && StartedOn(At(m), ticket, user, cipher, seed)
    ensures Sometime(a, b, Started(ticket, user, cipher, seed))
  {
  }
}

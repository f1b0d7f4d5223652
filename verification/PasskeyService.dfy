// Finishing a passkey registration and a passkey authentication on a login ticket
// (src/auth_factors/passkey.rs, passkey_core.rs:64-72).

module PasskeyService {
  import opened Prelude
  import opened World
  import opened Runs
  import opened Moments
  import opened AuthFactorService
  import opened Persistence
  import S = OneTimeStore
  import L = AttemptLimiter
  import F = FactorDatabase

  datatype PasskeyConfirmation =
    | Completed(user: UserId, epoch: int)
    | InvalidTicket
    | InvalidCredential(user: UserId)
    | RateLimited(user: UserId)

  // What webauthn-rs says about one response to a pending challenge. `Misconfigured` stands for
  // settings it cannot be built from and for credentials that cannot be converted.
  datatype Attested = Registered(credential: F.Credential) | RegistrationRefused | RegistrationMisconfigured
  datatype Asserted = Verified(result: F.AuthenticationResult) | AssertionRefused | AssertionMisconfigured

  // How far the ceremony got, and with which ticket and pending challenge.
  datatype Ceremony = NotReached | Failed(grant: S.Grant, pending: Pending) | Passed(grant: S.Grant, pending: Pending)

  // The ticket was the holder's and the challenge was the one stored for it.
  ghost predicate Genuine(a: Moment, b: Moment, ticket: nat, hash: string, slot: PendingKey, v: Ceremony) {
    !v.NotReached? ==>
      && v.grant.payload.LoginTicket? && v.pending.user == v.grant.payload.user
      && Sometime(a, b, Found(v.grant, ticket, hash))
      && Sometime(a, b, Pended(slot, v.pending))
  }

  // The row a credential had when the challenge was issued.
  function RowIdFor(rows: seq<(Bytes, nat)>, id: Bytes): (r: Option<nat>)
    ensures r.Some? ==> exists i :: 0 <= i < |rows| && rows[i] == (id, r.value) && forall j :: 0 <= j < i ==> rows[j].0 != id
    ensures r.None? ==> forall i :: 0 <= i < |rows| ==> rows[i].0 != id
  {
    if rows == [] then None
    else if rows[0].0 == id then assert rows[0] == (id, rows[0].1); Some(rows[0].1)
    else
      var rest := RowIdFor(rows[1..], id);
      assert rest.Some? ==> exists i :: 0 < i < |rows| && rows[i] == (id, rest.value) && forall j :: 0 <= j < i ==> rows[j].0 != id by {
        if rest.Some? {
          var i :| 0 <= i < |rows[1..]| && rows[1..][i] == (id, rest.value) && forall j :: 0 <= j < i ==> rows[1..][j].0 != id;
          assert rows[i + 1] == (id, rest.value);
          forall j | 0 <= j < i + 1 ensures rows[j].0 != id {
            if j > 0 { assert rows[j] == rows[1..][j - 1]; }
          }
        }
      }
      rest
  }

  // The policy must be readable and enabled; the generation is this process's issuer snapshot.
  method EnabledPasskeyGeneration(s: Service, me: CallId, snapshot: int, ghost st: Standing) returns (r: Result<int>)
    requires s.Valid() && Stands(me, s.w, st)
    modifies s
    ensures s.Valid() && Stands(me, s.w, st) && Leads(old(s.here), s.here)
    ensures r.Ok? ==> r.value == snapshot && F.PolicyEnabled(old(s.w).db.policy)
    ensures r == Err(PasskeyDisabled) ==> old(s.w).db.policy == F.Policy(false)
  {
    var policy := s.w.db.policy;
    var unavailable: bool := *;
    s.Pause(me, st);
    if unavailable || policy.PolicyUnreadable? {
      return Err(DatabaseUnavailable);
    }
    return if F.PolicyEnabled(policy) then Ok(snapshot) else Err(PasskeyDisabled);
  }

  // A refused credential: one failure in every dimension; the ticket and its challenge go once the
  // ticket's own limit is reached.
  method RecordPasskeyFailure(s: Service, me: CallId, ticket: nat, hash: string, user: UserId, slot: PendingKey, leases: seq<L.Lease>, ghost st: Standing)
    returns (r: Result<PasskeyConfirmation>)
    requires s.Valid() && Stands(me, s.w, st) && st.held.None? && st.leases == leases
    modifies s
    ensures s.Valid() && Stands(me, s.w, st.(leases := [], until := 0, charged := true)) && Leads(old(s.here), s.here)
    ensures var reached := L.RecordAll(old(s.w).limiter, leases, s.limits, old(s.w).now).1;
            r.Ok? ==> r.value == if reached == [] then InvalidCredential(user) else PasskeyConfirmation.RateLimited(user)
    ensures |leases| == 1 && L.Distinct(leases[0].dimensions) ==> Charges(old(s.here), s.here, leases[0], s.limits, st.until)
    ensures L.Ticket in L.RecordAll(old(s.w).limiter, leases, s.limits, old(s.w).now).1 && r.Ok? ==>
      && Sometime(old(s.here), s.here, NotTakeable(S.TicketKey(ticket), S.Holder(hash)))
      && Sometime(old(s.here), s.here, NoPending(slot))
  {
    hide Inv, Stands, Leads, At, Sometime, Charges, L.RecordAll;
    LeadingIsTransitive();
    ghost var charged := st.(leases := [], until := 0, charged := true);
    var reached := s.RecordFailure(me, leases, st);
    if L.Ticket in reached {
      var invalidated := s.InvalidateTicket(me, ticket, hash, charged);
      if invalidated.Err? { return Err(invalidated.error); }
      var dropped := s.DropPending(me, slot, charged);
      if dropped.Err? { return Err(dropped.error); }
      return Ok(PasskeyConfirmation.RateLimited(user));
    }
    return Ok(if reached != [] then PasskeyConfirmation.RateLimited(user) else InvalidCredential(user));
  }

  // The ticket and the pending ceremony that a finish call works on. None: the ticket is invalid.
  method FindCeremony(s: Service, me: CallId, ticket: nat, hash: string, slot: PendingKey, generation: int)
    returns (r: Result<Option<(S.Grant, Pending)>>, ghost first: Moment, ghost second: Moment)
    requires s.Valid() && Stands(me, s.w, IDLE) && !slot.SetupKey?
    modifies s
    ensures s.Valid() && Stands(me, s.w, IDLE)
    ensures Leads(old(s.here), first) && Leads(first, second) && Leads(second, s.here)
    ensures Sound(first) && Sound(second)
    ensures r.Ok? && r.value.Some? ==>
      var (g, pending) := r.value.value;
      && IsTicket(At(first), g, ticket, hash) && CurrentEpoch(At(first).db, g)
      && SoundPending(s.cfg, slot, pending, At(second).starts, At(second).db)
      && GenerationOf(pending) == generation
      && Genuine(old(s.here), s.here, ticket, hash, slot, Passed(g, pending))
  {
    hide Inv, Stands, Leads, At, Sometime, Is, CurrentEpoch;
    LeadingIsTransitive();
    var found;
    found, first := s.FindForHolder(me, ticket, hash, IDLE);
    second := s.here;
    LeadsItself(s.here);
    if found.Err? { return Err(found.error), first, second; }
    if found.value.None? { return Ok(None), first, second; }
    var g := found.value.value;
    if s.w.now >= g.expires || Passkey !in g.payload.methods { return Ok(None), first, second; }
    var stored;
    stored, second := s.FindPending(me, slot, IDLE);
    if stored.Err? { return Err(stored.error), first, second; }
    if stored.value.None? { return Ok(None), first, second; }
    var pending := stored.value.value;
    SometimeAt(first, second, s.here, Pended(slot, pending));
    if pending.user != g.payload.user { return Ok(None), first, second; }
    if GenerationOf(pending) != generation {
      var dropped := s.DropPending(me, slot, IDLE);
      if dropped.Err? { return Err(dropped.error), first, second; }
      return Ok(None), first, second;
    }
    return Ok(Some((g, pending))), first, second;
  }

  function GenerationOf(p: Pending): int
    requires !p.TotpSetup?
  {
    match p
    case PasskeyRegistration(_, challenge) => challenge.generation
    case PasskeyAuthentication(_, generation, _) => generation
  }

  lemma ChallengeRemains(a: Moment, b: Moment, slot: PendingKey, pending: Pending)
    requires Sound(a) && Leads(a, b)
    requires pending.PasskeyRegistration? && SoundPending(a.cfg, slot, pending, At(a).starts, At(a).db)
    ensures F.Captured(At(b).db.published, b.cfg.bootstrap, pending.challenge)
  {
    LaterHasAdvanced(a, b);
  }

  lemma SlotDecides(cfg: Config, b: World, slot: PendingKey, pending: Pending)
    requires SoundPending(cfg, slot, pending, b.starts, b.db) && !slot.SetupKey?
    ensures slot.RegistrationKey? <==> pending.PasskeyRegistration?
    ensures slot.AuthenticationKey? <==> pending.PasskeyAuthentication?
  {
  }

  // How a finish call starts: no ceremony to finish, no room for another attempt, or a ceremony with
  // a place reserved for it.
  datatype Opening = NoCeremony | NoRoom(user: UserId) | Ready(grant: S.Grant, pending: Pending, leases: seq<L.Lease>)

  method OpenCeremony(s: Service, me: CallId, ticket: nat, hash: string, slot: PendingKey, ip: Option<string>, snapshot: int, ghost until: int)
    returns (r: Result<Opening>)
    requires s.Valid() && Stands(me, s.w, IDLE) && !slot.SetupKey? && until <= L.LeaseEnd(s.w.now)
    modifies s
    ensures s.Valid() && Leads(old(s.here), s.here)
    ensures Stands(me, s.w, if r.Ok? && r.value.Ready? then IDLE.(leases := r.value.leases, until := until) else IDLE)
    ensures r.Ok? && r.value.Ready? ==>
      var Ready(g, pending, leases) := r.value;
      && Genuine(old(s.here), s.here, ticket, hash, slot, Passed(g, pending))
      && IsTicket(s.w, g, ticket, hash)
      && (slot.RegistrationKey? <==> pending.PasskeyRegistration?) && (slot.AuthenticationKey? <==> pending.PasskeyAuthentication?)
      && GenerationOf(pending) == snapshot
      && (pending.PasskeyRegistration? ==> F.Captured(s.w.db.published, s.cfg.bootstrap, pending.challenge))
      && leases == [s.Attempt(me, g.payload.user, Some(ticket), ip)] && L.Distinct(leases[0].dimensions)
  {
    hide Inv, Stands, Leads, At, Sometime, Is, CurrentEpoch, IsTicket, SoundPending, F.Captured;
    LeadingIsTransitive();
    ghost var before := s.here;
    var generation := EnabledPasskeyGeneration(s, me, snapshot, IDLE);
    if generation.Err? { return Err(generation.error); }
    var ceremony, first, second := FindCeremony(s, me, ticket, hash, slot, generation.value);
    if ceremony.Err? { return Err(ceremony.error); }
    if ceremony.value.None? { return Ok(NoCeremony); }
    var (g, pending) := ceremony.value.value;
    TicketIsLogin(At(first), g, ticket, hash);
    SlotDecides(s.cfg, At(second), slot, pending);
    TimeMoves(before, s.here);
    var allowed := s.ReserveAttempt(me, g.payload.user, Some(ticket), ip, until, IDLE);
    if allowed.Err? { return Err(allowed.error); }
    if allowed.value.None? { return Ok(NoRoom(g.payload.user)); }
    TicketRemains(first, s.here, g, ticket, hash);
    if pending.PasskeyRegistration? { ChallengeRemains(second, s.here, slot, pending); }
    return Ok(Ready(g, pending, allowed.value.value.leases));
  }

  lemma CapturedFits(cfg: Config, w: World, g: S.Grant, credential: F.Credential, challenge: Challenge)
    requires g.payload.LoginTicket? && F.Captured(w.db.published, cfg.bootstrap, challenge)
    ensures Fits(cfg, w, g, StorePasskey(g.payload.user, g.payload.epoch, credential, challenge))
  {
  }

  // The first passkey of an account. Completed: the ticket was taken by this request, which held it
  // while the row was inserted under an enabled policy, the challenge's own issuer generation, and
  // the ticket's epoch.
  method FinishPasskeyRegistration(s: Service, me: CallId, ticket: nat, hash: string, ip: Option<string>, snapshot: int, attest: Pending -> Attested)
    returns (r: Result<PasskeyConfirmation>, ghost v: Ceremony, ghost done: set<nat>, ghost seen: Moment, ghost at: Moment)
    requires s.Valid() && Stands(me, s.w, IDLE)
    modifies s
    ensures s.Valid() && Leads(old(s.here), seen) && Leads(seen, at) && Leads(at, s.here)
    ensures Stands(me, s.w, IDLE.(charged := v.Failed?, done := done)) && done <= {ticket}
    ensures Genuine(old(s.here), s.here, ticket, hash, RegistrationKey(ticket), v)
    ensures v.Failed? ==> Charges(old(s.here), s.here, s.Attempt(me, v.grant.payload.user, Some(ticket), ip), s.limits, L.LeaseEnd(old(s.w).now))
    ensures v.Failed? ==> attest(v.pending).RegistrationRefused? && (r.Err? || r.value.InvalidCredential? || r.value.RateLimited?)
    ensures r.Ok? && r.value.InvalidCredential? ==> v.Failed?
    ensures r.Ok? ==> (r.value.Completed? <==> done == {ticket})
    ensures done == {ticket} ==> Sometime(old(s.here), s.here, NoFailures(L.Counter(L.Ticket, s.uuid(ticket))))
    ensures r.Ok? && r.value.Completed? ==> Sometime(old(s.here), s.here, NoPending(RegistrationKey(ticket)))
    ensures v.Passed? && done == {} && r.Err? && !r.error.RedisUnavailable? ==> Sometime(old(s.here), s.here, Stored(v.grant))
    ensures done == {ticket} ==>
      && v.Passed? && v.pending.PasskeyRegistration? && attest(v.pending).Registered?
      && v.pending.challenge.generation == snapshot
      && Sometime(old(s.here), seen, Taken(me, v.grant))
      && Persisted(At(seen).db, At(at).db, StorePasskey(v.pending.user, v.grant.payload.epoch, attest(v.pending).credential, v.pending.challenge))
      && (r.Ok? ==> r.value == Completed(v.pending.user, v.grant.payload.epoch))
  {
    hide Inv, Stands, Leads, At, Refused, Persisted, Fits, IsTicket, Sometime, Is, Charges, F.Captured, L.Distinct, L.RecordAll;
    LeadingIsTransitive();
    v, done, seen, at := NotReached, {}, s.here, s.here;
    LeadsItself(s.here);
    assert IDLE.(charged := false, done := {}) == IDLE.(leases := [], until := 0) == IDLE;
    ghost var until := L.LeaseEnd(s.w.now);
    var slot := RegistrationKey(ticket);
    var ceremony := OpenCeremony(s, me, ticket, hash, slot, ip, snapshot, until);
    if ceremony.Err? { return Err(ceremony.error), v, done, seen, at; }
    if ceremony.value.NoCeremony? { return Ok(InvalidTicket), v, done, seen, at; }
    if ceremony.value.NoRoom? { return Ok(PasskeyConfirmation.RateLimited(ceremony.value.user)), v, done, seen, at; }
    var Ready(g, pending, leases) := ceremony.value;
    TicketIsLogin(s.w, g, ticket, hash);
    ghost var reserved := s.here;
    ghost var st := IDLE.(leases := leases, until := until);
    assert st.(leases := [], until := 0) == IDLE && st.(leases := [], until := 0, charged := true) == IDLE.(charged := true, done := {});
    var attested := attest(pending);
    if attested.RegistrationRefused? {
      v := Failed(g, pending);
      r := RecordPasskeyFailure(s, me, ticket, hash, g.payload.user, slot, leases, st);
      return;
    }
    if attested.RegistrationMisconfigured? {
      s.Release(me, leases, st);
      return Err(CredentialRejected), v, done, seen, at;
    }
    CapturedFits(s.cfg, s.w, g, attested.credential, pending.challenge);
    s.Release(me, leases, st);
    v := Passed(g, pending);
    TicketRemains(reserved, s.here, g, ticket, hash);
    FitsLater(reserved, s.here, g, StorePasskey(g.payload.user, g.payload.epoch, attested.credential, pending.challenge));
    r, done, seen, at := StoreRegistration(s, me, g, hash, attested.credential, pending.challenge);
  }

  // Clear the ticket's failures, take the ticket, insert the row. A conflict ends the ticket and the
  // challenge as well.
  method StoreRegistration(s: Service, me: CallId, g: S.Grant, hash: string, credential: F.Credential, challenge: Challenge)
    returns (r: Result<PasskeyConfirmation>, ghost done: set<nat>, ghost seen: Moment, ghost at: Moment)
    requires s.Valid() && Stands(me, s.w, IDLE) && g.payload.LoginTicket? && IsTicket(s.w, g, g.id, hash)
    requires Fits(s.cfg, s.w, g, StorePasskey(g.payload.user, g.payload.epoch, credential, challenge))
    modifies s
    ensures s.Valid() && Leads(old(s.here), seen) && Leads(seen, at) && Leads(at, s.here)
    ensures Stands(me, s.w, IDLE.(done := done)) && done <= {g.id}
    ensures r.Ok? ==> r.value == if done == {g.id} then Completed(g.payload.user, g.payload.epoch) else InvalidTicket
    ensures Sometime(old(s.here), s.here, NoFailures(L.Counter(L.Ticket, s.uuid(g.id))))
    ensures r.Ok? && r.value.Completed? ==> Sometime(old(s.here), s.here, NoPending(RegistrationKey(g.id)))
    ensures done == {} && r.Err? && !r.error.RedisUnavailable? ==> Sometime(old(s.here), s.here, Stored(g))
    ensures done == {g.id} ==>
      && Sometime(old(s.here), seen, Taken(me, g))
      && Persisted(At(seen).db, At(at).db, StorePasskey(g.payload.user, g.payload.epoch, credential, challenge))
  {
    hide Inv, Stands, Leads, At, Refused, Persisted, Fits, IsTicket, Sometime, Is;
    LeadingIsTransitive();
    ghost var before := s.here;
    done := {};
    assert IDLE.(done := {}) == IDLE;
    var job := StorePasskey(g.payload.user, g.payload.epoch, credential, challenge);
    s.ClearFailures(me, L.Counter(L.Ticket, s.uuid(g.id)), IDLE);
    TicketRemains(before, s.here, g, g.id, hash);
    FitsLater(before, s.here, g, job);
    var persisted;
    persisted, seen, at := ConsumeThenPersist(s, me, g, hash, job, IDLE);
    assert IDLE.done + {g.id} == {g.id};
    if persisted.Ok? && !persisted.value { return Ok(InvalidTicket), done, seen, at; }
    if persisted.Ok? { done := {g.id}; }
    if persisted.Err? && !persisted.error.FirstFactorAlreadyExists? && !persisted.error.AuthenticationEpochChanged? {
      return Err(persisted.error), done, seen, at;
    }
    if persisted.Err? {
      var taken, _ := s.TakeForHolder(me, g.id, hash, IDLE);
      if taken.Err? { return Err(taken.error), done, seen, at; }
      if taken.value.Some? {
        s.Forget(me, IDLE.(held := taken.value));
        assert IDLE.(held := taken.value).(held := None) == IDLE;
      }
    }
    var dropped := s.DropPending(me, RegistrationKey(g.id), IDLE.(done := done));
    if dropped.Err? { return Err(dropped.error), done, seen, at; }
    return Ok(if persisted.Ok? then Completed(g.payload.user, g.payload.epoch) else InvalidTicket), done, seen, at;
  }

  // The row that may be written was fixed when the challenge was issued.
  function WriteBack(p: Pending, result: F.AuthenticationResult): Job
    requires p.PasskeyAuthentication? && RowIdFor(p.rows, result.id).Some?
  {
    Assertion(p.user, RowIdFor(p.rows, result.id).value, result.id, result)
  }

  // A login with a passkey. The only row written is the one the credential had when the challenge
  // was issued; a credential the challenge did not name counts as a failed attempt.
  method FinishPasskeyAuthentication(s: Service, me: CallId, ticket: nat, hash: string, ip: Option<string>, snapshot: int, verify: Pending -> Asserted)
    returns (r: Result<PasskeyConfirmation>, ghost v: Ceremony, ghost done: set<nat>, ghost seen: Moment, ghost at: Moment)
    requires s.Valid() && Stands(me, s.w, IDLE)
    modifies s
    ensures s.Valid() && Leads(old(s.here), seen) && Leads(seen, at) && Leads(at, s.here)
    ensures Stands(me, s.w, IDLE.(charged := v.Failed?, done := done)) && done <= {ticket}
    ensures Genuine(old(s.here), s.here, ticket, hash, AuthenticationKey(ticket), v)
    ensures v.Failed? ==> Charges(old(s.here), s.here, s.Attempt(me, v.grant.payload.user, Some(ticket), ip), s.limits, L.LeaseEnd(old(s.w).now))
    ensures v.Failed? ==> !Recognised(verify, v.pending) && (r.Err? || r.value.InvalidCredential? || r.value.RateLimited?)
    ensures r.Ok? && r.value.InvalidCredential? ==> v.Failed?
    ensures r.Ok? ==> (r.value.Completed? <==> done == {ticket})
    ensures done == {ticket} ==> Sometime(old(s.here), s.here, NoFailures(L.Counter(L.Ticket, s.uuid(ticket))))
    ensures r.Ok? && r.value.Completed? ==> Sometime(old(s.here), s.here, NoPending(AuthenticationKey(ticket)))
    ensures v.Passed? && done == {} && r.Err? && !r.error.RedisUnavailable? ==> Sometime(old(s.here), s.here, Stored(v.grant))
    ensures done == {ticket} ==>
      && v.Passed? && Recognised(verify, v.pending)
      && Persisted(At(seen).db, At(at).db, WriteBack(v.pending, verify(v.pending).result))
      && Sometime(old(s.here), seen, Taken(me, v.grant))
      && (r.Ok? ==> r.value == Completed(v.pending.user, v.grant.payload.epoch))
  {
    hide Inv, Stands, Leads, At, Refused, Persisted, RowIdFor, IsTicket, Sometime, Is, Charges, F.Captured, L.Distinct, L.RecordAll;
    LeadingIsTransitive();
    v, done, seen, at := NotReached, {}, s.here, s.here;
    LeadsItself(s.here);
    assert IDLE.(charged := false, done := {}) == IDLE.(leases := [], until := 0) == IDLE;
    ghost var until := L.LeaseEnd(s.w.now);
    var slot := AuthenticationKey(ticket);
    var ceremony := OpenCeremony(s, me, ticket, hash, slot, ip, snapshot, until);
    if ceremony.Err? { return Err(ceremony.error), v, done, seen, at; }
    if ceremony.value.NoCeremony? { return Ok(InvalidTicket), v, done, seen, at; }
    if ceremony.value.NoRoom? { return Ok(PasskeyConfirmation.RateLimited(ceremony.value.user)), v, done, seen, at; }
    var Ready(g, pending, leases) := ceremony.value;
    TicketIsLogin(s.w, g, ticket, hash);
    ghost var reserved := s.here;
    ghost var st := IDLE.(leases := leases, until := until);
    assert st.(leases := [], until := 0) == IDLE && st.(leases := [], until := 0, charged := true) == IDLE.(charged := true, done := {});
    var asserted := verify(pending);
    if asserted.AssertionMisconfigured? {
      s.Release(me, leases, st);
      return Err(CredentialRejected), v, done, seen, at;
    }
    if asserted.AssertionRefused? || RowIdFor(pending.rows, asserted.result.id).None? {
      v := Failed(g, pending);
      r := RecordPasskeyFailure(s, me, ticket, hash, g.payload.user, slot, leases, st);
      return;
    }
    var result := asserted.result;
    s.Release(me, leases, st);
    v := Passed(g, pending);
    TicketRemains(reserved, s.here, g, ticket, hash);
    r, done, seen, at := StoreAssertion(s, me, g, hash, WriteBack(pending, result));
  }

  // Clear the ticket's failures, take the ticket, write the assertion back.
  method StoreAssertion(s: Service, me: CallId, g: S.Grant, hash: string, job: Job)
    returns (r: Result<PasskeyConfirmation>, ghost done: set<nat>, ghost seen: Moment, ghost at: Moment)
    requires s.Valid() && Stands(me, s.w, IDLE) && g.payload.LoginTicket? && IsTicket(s.w, g, g.id, hash) && job.Assertion?
    modifies s
    ensures s.Valid() && Leads(old(s.here), seen) && Leads(seen, at) && Leads(at, s.here)
    ensures Stands(me, s.w, IDLE.(done := done)) && done <= {g.id}
    ensures r.Ok? ==> r.value == if done == {g.id} then Completed(g.payload.user, g.payload.epoch) else InvalidTicket
    ensures Sometime(old(s.here), s.here, NoFailures(L.Counter(L.Ticket, s.uuid(g.id))))
    ensures r.Ok? && r.value.Completed? ==> Sometime(old(s.here), s.here, NoPending(AuthenticationKey(g.id)))
    ensures done == {} && r.Err? && !r.error.RedisUnavailable? ==> Sometime(old(s.here), s.here, Stored(g))
    ensures done == {g.id} ==> Sometime(old(s.here), seen, Taken(me, g)) && Persisted(At(seen).db, At(at).db, job)
  {
    hide Inv, Stands, Leads, At, Refused, Persisted, IsTicket, Sometime, Is;
    LeadingIsTransitive();
    ghost var before := s.here;
    done := {};
    assert IDLE.(done := {}) == IDLE;
    s.ClearFailures(me, L.Counter(L.Ticket, s.uuid(g.id)), IDLE);
    TicketRemains(before, s.here, g, g.id, hash);
    var persisted;
    persisted, seen, at := ConsumeThenPersist(s, me, g, hash, job, IDLE);
    assert IDLE.done + {g.id} == {g.id};
    if persisted.Err? { return Err(persisted.error), done, seen, at; }
    if !persisted.value { return Ok(InvalidTicket), done, seen, at; }
    done := {g.id};
    var dropped := s.DropPending(me, AuthenticationKey(g.id), IDLE.(done := done));
    if dropped.Err? { return Err(dropped.error), done, seen, at; }
    return Ok(Completed(g.payload.user, g.payload.epoch)), done, seen, at;
  }

  // The assertion verifies, and its credential is one the challenge was issued for.
  predicate Recognised(verify: Pending -> Asserted, p: Pending) {
    p.PasskeyAuthentication? && verify(p).Verified? && RowIdFor(p.rows, verify(p).result.id).Some?
  }
}

// Issuing and dropping login tickets, and cancelling a session enrolment
// (src/auth_factors/service.rs:337-405, store.rs:131-165, authenticated_enrollment.rs:89-110).

module LoginTickets {
  import opened Prelude
  import opened World
  import opened Runs
  import opened Moments
  import opened AuthFactorService
  import S = OneTimeStore
  import E = SessionEnrolment

  // The ticket carries the epoch of the password check it stands for, never the current one, and
  // is refused when the two already differ.
  method CreateLoginTicket(s: Service, me: CallId, id: nat, user: UserId, epoch: int, methods: seq<FactorMethod>, hash: string)
    returns (r: Result<S.Grant>, ghost seen: Moment)
    requires s.Valid() && Stands(me, s.w, IDLE)
    modifies s
    ensures s.Valid() && Stands(me, s.w, IDLE) && Leads(old(s.here), seen) && Leads(seen, s.here)
    ensures r.Ok? ==>
      && IsTicket(s.w, r.value, id, hash) && r.value.payload == S.LoginTicket(user, methods, Some(hash), epoch)
      && CurrentEpoch(At(seen).db, r.value)
    ensures r == Err(AuthenticationEpochChanged) ==> user in At(seen).db.users && At(seen).db.users[user].epoch != epoch
    ensures r == Err(ServiceError.UserNotFound) ==> user !in At(seen).db.users
  {
    hide Inv, Stands, Leads, At;
    LeadingIsTransitive();
    seen := s.here;
    LeadsItself(s.here);
    var current := if user in s.w.db.users then Some(s.w.db.users[user].epoch) else None;
    var unavailable: bool := *;
    s.Pause(me, IDLE);
    if unavailable { return Err(DatabaseUnavailable), seen; }
    if current.None? { return Err(ServiceError.UserNotFound), seen; }
    if current.value != epoch { return Err(AuthenticationEpochChanged), seen; }
    var issuedAt := s.w.now;
    var g := S.Grant(id, S.TicketKey(id), issuedAt + S.TTL * SECOND, S.LoginTicket(user, methods, Some(hash), epoch));
    ghost var clock := s.here;
    s.Pause(me, IDLE);
    TimeMoves(clock, s.here);
    var refused: bool := *;
    // The id is a fresh UUID.
    if refused || id in s.w.store.minted { return Err(RedisUnavailable), seen; }
    s.IssueFresh(me, g, issuedAt, IDLE);
    return Ok(g), seen;
  }

  // A taken enrolment is gone; nobody else's enrolment is touched.
  method CancelSessionEnrolment(s: Service, me: CallId, c: E.Claim, epoch: int, factor: FactorMethod) returns (r: Result<bool>)
    requires s.Valid() && Stands(me, s.w, IDLE)
    modifies s
    ensures s.Valid() && Stands(me, s.w, IDLE) && Leads(old(s.here), s.here)
    ensures r == Ok(true) ==> c.enrolment in s.w.store.spent
  {
    hide Inv, Stands, Leads, At;
    LeadingIsTransitive();
    var taken := s.TakeStored(me, S.EnrolmentKey(c.user, factor), E.Claimant(c, epoch, factor), IDLE);
    if taken.Err? { return Err(taken.error); }
    if taken.value.None? { return Ok(false); }
    ghost var holding := IDLE.(held := taken.value);
    assert holding.(held := None) == IDLE;
    s.Forget(me, holding);
    return Ok(true);
  }
}

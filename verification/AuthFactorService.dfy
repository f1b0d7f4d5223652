// The shared service: one request's atomic steps on the two stores, with every other request free
// to act between any two of them (src/auth_factors/store.rs, attempt_limiter.rs, persistence.rs,
// totp_service.rs:247-272).

module AuthFactorService {
  import opened Prelude
  import opened World
  import opened Runs
  import opened Moments
  import S = OneTimeStore
  import C = ReplayClaims
  import L = AttemptLimiter
  import F = FactorDatabase
  import V = SecretEnvelope
  import TotpCode

  // Where a request stands: the value it has taken, the places it may still occupy in the limiter and
  // does occupy before `until`, whether it reported a failed attempt, and the ids it completed on.
  datatype Standing = Standing(held: Option<S.Grant>, leases: seq<L.Lease>, until: int, charged: bool, done: set<nat>)

  const IDLE: Standing := Standing(None, [], 0, false, {})

  ghost predicate Stands(me: CallId, w: World, s: Standing) {
    && (me in w.store.held <==> s.held.Some?)
    && (s.held.Some? ==> w.store.held[me] == s.held.value)
    && OwnTokens(s.leases, me) && L.ConfinedToLeases(w.limiter, s.leases, me)
    && (w.now < s.until ==> L.HoldsPlaces(w.limiter, s.leases, me, s.until))
    && (me in w.charged <==> s.charged)
    && (forall id :: id in w.store.completed && w.store.completed[id] == me ==> id in s.done)
    && (forall id :: id in s.done ==> id in w.store.completed && w.store.completed[id] == me)
  }

  // At most one request ever reports success on a given ticket, challenge or enrolment, whatever ran
  // between the two reports.
  lemma OneCompletionPerId(a: Moment, b: Moment, first: CallId, s: Standing, second: CallId, t: Standing, id: nat)
    requires Sound(a) && Leads(a, b)
    requires Stands(first, At(a), s) && id in s.done && Stands(second, At(b), t) && id in t.done
    ensures first == second
  {
    LaterHasAdvanced(a, b);
  }

  // The others cannot move a request from where it stands.
  lemma RelyKeepsStanding(me: CallId, a: World, b: World, s: Standing)
    requires Stands(me, a, s) && Rely(me, a, b)
    ensures Stands(me, b, s)
  {
  }

  lemma TakingStands(cfg: Config, w: World, me: CallId, key: S.Key, who: S.Claimant, st: Standing)
    requires Stands(me, w, st) && st.held.None?
    ensures MayAct(cfg, w, me, Take(key, who))
    ensures Stands(me, Apply(cfg, w, me, Take(key, who)), st.(held := Takeable(w.store, key, who)))
  {
  }

  lemma TakenIsGone(cfg: Config, w: World, me: CallId, key: S.Key, who: S.Claimant)
    requires MayAct(cfg, w, me, Take(key, who))
    ensures Is(Apply(cfg, w, me, Take(key, who)), NotTakeable(key, who))
  {
  }

  lemma HoldingCurrent(me: CallId, w: World, st: Standing, g: S.Grant)
    requires Stands(me, w, st) && st.held == Some(g) && g.payload.LoginTicket? && CurrentEpoch(w.db, g)
    ensures Is(w, Taken(me, g))
  {
  }

  lemma RestoringStands(cfg: Config, w: World, me: CallId, readAt: int, st: Standing)
    requires Stands(me, w, st) && st.held.Some? && readAt <= w.now
    ensures MayAct(cfg, w, me, Action.Restore(readAt))
    ensures Stands(me, Apply(cfg, w, me, Action.Restore(readAt)), st.(held := None))
    ensures Is(Apply(cfg, w, me, Action.Restore(readAt)), Stored(st.held.value))
  {
  }

  lemma IssuingStands(cfg: Config, w: World, me: CallId, g: S.Grant, issuedAt: int, st: Standing)
    requires MayAct(cfg, w, me, Issue(g, issuedAt)) && Stands(me, w, st)
    ensures Stands(me, Apply(cfg, w, me, Issue(g, issuedAt)), st)
    ensures S.Minted(Apply(cfg, w, me, Issue(g, issuedAt)).store.minted, g)
  {
  }

  lemma AdmittingStands(cfg: Config, w: World, me: CallId, dims: seq<L.Counter>, limits: L.Limits, until: int, st: Standing)
    requires Stands(me, w, st) && st.leases == [] && until <= L.LeaseEnd(w.now) && L.NoLooser(limits, cfg.cap)
    ensures MayAct(cfg, w, me, Admit(dims, limits))
    ensures var reservation := L.Reserve(w.limiter, dims, me, limits, w.now).1;
            && Stands(me, Apply(cfg, w, me, Admit(dims, limits)),
                      if reservation.denied then st else st.(leases := reservation.leases, until := until))
            && OwnTokens(reservation.leases, me) && (!reservation.denied ==> reservation == L.Single(dims, me))
  {
    assert L.Settled(w.limiter, me);
    hide L.ConfinedToLeases, L.HoldsPlaces, L.Reserve, L.NoLooser;
    L.ReserveConfines(w.limiter, dims, me, limits, w.now);
    L.ReserveHoldsPlaces(w.limiter, dims, me, limits, w.now);
  }

  ghost predicate ClaimedBy(log: seq<C.Event>, me: CallId, user: UserId, step: nat) {
    exists i :: 0 <= i < |log| && log[i].Granted? && log[i].call == me && log[i].user == user && log[i].step == step
  }

  // A time step of a user serves one request only, whatever use cases the requests belong to, as long
  // as claims follow their verification within 30 s and no reset cleared the user's claims.
  lemma OneRequestPerStep(cfg: Config, w: World, a: CallId, b: CallId, user: UserId, step: nat)
    requires Inv(cfg, w) && Punctual(w.claims.log) && C.Cleared(user) !in w.claims.log
    requires ClaimedBy(w.claims.log, a, user, step) && ClaimedBy(w.claims.log, b, user, step)
    ensures a == b
  {
    var log := w.claims.log;
    var i :| 0 <= i < |log| && log[i].Granted? && log[i].call == a && log[i].user == user && log[i].step == step;
    var j :| 0 <= j < |log| && log[j].Granted? && log[j].call == b && log[j].user == user && log[j].step == step;
    if i < j { C.StepGrantedOnce(w.claims, w.now, i, j); }
    if j < i { C.StepGrantedOnce(w.claims, w.now, j, i); }
  }

  // Checking a code against a seed at a clock reading.
  function Check(generate: (Bytes, nat) -> string, seed: Bytes, code: string, now: int): (r: Option<nat>)
    ensures r.Some? ==> C.InWindow(r.value, now)
  {
    if now < 0 then None else TotpCode.Accepted((t: nat) => generate(seed, t), code, now / SECOND)
  }

  // What came of checking a code: not reached, wrong, or right for a time step.
  datatype Verdict =
    | Unchecked
    | Wrong(seed: Bytes, at: int)
    | Right(seed: Bytes, step: nat, at: int)

  ghost predicate Judged(generate: (Bytes, nat) -> string, code: string, v: Verdict) {
    match v
    case Unchecked => true
    case Wrong(seed, at) => Check(generate, seed, code, at) == None
    case Right(seed, step, at) => Check(generate, seed, code, at) == Some(step)
  }

  lemma NothingJudged(generate: (Bytes, nat) -> string, code: string)
    ensures Judged(generate, code, Unchecked)
  {
  }

  lemma ClaimRemains(a: Moment, b: Moment, me: CallId, user: UserId, step: nat)
    requires Sound(a) && Leads(a, b) && ClaimedBy(At(a).claims.log, me, user, step)
    ensures ClaimedBy(At(b).claims.log, me, user, step)
  {
    LaterHasAdvanced(a, b);
    var log := At(a).claims.log;
    var i :| 0 <= i < |log| && log[i].Granted? && log[i].call == me && log[i].user == user && log[i].step == step;
    assert At(b).claims.log[i] == log[i];
  }

  lemma TicketIsLogin(w: World, g: S.Grant, ticket: nat, hash: string)
    requires IsTicket(w, g, ticket, hash)
    ensures g.payload.LoginTicket? && g.id == ticket
  {
  }

  lemma TicketRemains(a: Moment, b: Moment, g: S.Grant, ticket: nat, hash: string)
    requires Sound(a) && Leads(a, b) && IsTicket(At(a), g, ticket, hash)
    ensures IsTicket(At(b), g, ticket, hash)
  {
    LaterHasAdvanced(a, b);
  }

  // A ticket id stands for one value for ever.
  lemma TakenIsFound(a: Moment, b: Moment, g: S.Grant, taken: S.Grant, ticket: nat, hash: string)
    requires Sound(a) && Leads(a, b) && IsTicket(At(a), g, ticket, hash) && IsTicket(At(b), taken, ticket, hash)
    ensures taken == g
  {
    LaterHasAdvanced(a, b);
  }

  lemma StartRemains(a: Moment, b: Moment, ticket: nat, user: UserId, cipher: Bytes, seed: Bytes)
    requires Sound(a) && Leads(a, b) && StartedOn(At(a), ticket, user, cipher, seed)
    ensures StartedOn(At(b), ticket, user, cipher, seed)
  {
    LaterHasAdvanced(a, b);
  }

  lemma DeployedRing(cfg: Config, r: V.KeyRing)
    requires Deployable(cfg) && r in cfg.rings
    ensures V.ValidRing(r)
  {
  }

  // What one process seals, every process reads back or cannot read at all.
  lemma SealedReads(cfg: Config, r: V.KeyRing, nonce: Bytes, plain: Bytes)
    requires Deployable(cfg) && r in cfg.rings && |nonce| == V.NONCE_LENGTH
    ensures V.Encrypt(cfg.p, r, nonce, plain).Some? ==> Reads(cfg, V.Encrypt(cfg.p, r, nonce, plain).value, plain)
  {
    if V.Encrypt(cfg.p, r, nonce, plain).Some? {
      forall q | q in cfg.rings
        ensures V.Decrypt(cfg.p, q, V.Encrypt(cfg.p, r, nonce, plain).value).Plain? ==>
                  V.Decrypt(cfg.p, q, V.Encrypt(cfg.p, r, nonce, plain).value).secret == plain
      {
        if V.Find(q.keys, r.active).Some? {
          V.RotationPreservesSecret(cfg.p, r, q, nonce, plain);
        } else {
          V.RetiredKeyIsNeverRetried(cfg.p, r, q, nonce, plain);
        }
      }
    }
  }

  class Service {
    const cfg: Config
    const ring: V.KeyRing
    const limits: L.Limits
    const rejectMissingIp: bool
    // The address of an account and the text of a ticket id, as the limiter's keys spell them.
    const email: UserId -> string
    const uuid: nat -> string
    const generate: (Bytes, nat) -> string
    var w: World
    // The run so far.
    ghost var here: Moment

    ghost predicate Valid()
      reads this
    {
      && Deployable(cfg) && ring in cfg.rings && L.NoLooser(limits, cfg.cap)
      && here.cfg == cfg && At(here) == w && Inv(cfg, w)
    }

    constructor (cfg: Config, ring: V.KeyRing, limits: L.Limits, rejectMissingIp: bool, email: UserId -> string, uuid: nat -> string,
                 generate: (Bytes, nat) -> string, w: World)
      requires Deployable(cfg) && ring in cfg.rings && L.NoLooser(limits, cfg.cap) && Inv(cfg, w)
      ensures Valid() && this.w == w && here == Moment(cfg, w, [])
    {
      this.cfg, this.ring, this.limits, this.rejectMissingIp, this.email, this.uuid, this.generate, this.w :=
        cfg, ring, limits, rejectMissingIp, email, uuid, generate, w;
      here := Moment(cfg, w, []);
    }

    // -- atomic steps ------------------------------------------------------------------------------

    // Any number of steps by any other requests.
    method Yield(me: CallId)
      requires Valid()
      modifies this
      ensures Valid() && Rely(me, old(w), w) && Leads(old(here), here)
    {
      var steps: seq<Step> := *;
      if !Others(steps, me) {
        steps := [];
      }
      RunIsRely(cfg, w, steps, me);
      RunKeepsInv(cfg, w, steps);
      OnwardsRuns(here, steps);
      here := Onwards(here, steps);
      w := Run(cfg, w, steps);
    }

    // One step of this request, then the others'.
    method Act(me: CallId, a: Action)
      requires Valid() && MayAct(cfg, w, me, a)
      modifies this
      ensures Valid() && Rely(me, Apply(cfg, old(w), me, a), w)
      ensures Leads(old(here), Next(old(here), me, a)) && Leads(Next(old(here), me, a), here) && Leads(old(here), here)
      ensures At(Next(old(here), me, a)) == Apply(cfg, old(w), me, a)
    {
      StepKeepsInv(cfg, w, Step(me, a));
      NextApplies(here, me, a);
      here := Next(here, me, a);
      w := Apply(cfg, w, me, a);
      Yield(me);
    }

    method Pause(me: CallId, ghost st: Standing)
      requires Valid() && Stands(me, w, st)
      modifies this
      ensures Valid() && Stands(me, w, st) && Leads(old(here), here)
    {
      ghost var before := w;
      Yield(me);
      RelyKeepsStanding(me, before, w, st);
    }

    // -- one-time values -----------------------------------------------------------------------

    method FindForHolder(me: CallId, ticket: nat, hash: string, ghost st: Standing)
      returns (r: Result<Option<S.Grant>>, ghost seen: Moment)
      requires Valid() && Stands(me, w, st)
      modifies this
      ensures Valid() && Stands(me, w, st)
      ensures Leads(old(here), seen) && Leads(seen, here) && Sound(seen)
      ensures r.Ok? && r.value.Some? ==> IsTicket(At(seen), r.value.value, ticket, hash) && CurrentEpoch(At(seen).db, r.value.value)
      ensures r.Ok? && r.value.Some? ==>
        && S.TicketKey(ticket) in old(w).store.stored && old(w).store.stored[S.TicketKey(ticket)].grant == r.value.value
        && Sometime(old(here), here, Found(r.value.value, ticket, hash))
    {
      hide Rely, Stands, Leads, At, Sometime, Deployable, SoundMinted, SoundStarts, SoundSlots, Faithful, F.Advances;
      hide C.Valid, L.WithinCapacity, L.OnlyCharged, F.Valid, F.IdentityTraced;
      ghost var before := here;
      var stored := if S.TicketKey(ticket) in w.store.stored then Some(w.store.stored[S.TicketKey(ticket)].grant) else None;
      var unavailable: bool := *;
      Pause(me, st);
      LaterHasAdvanced(before, here);
      seen := here;
      LeadsItself(here);
      if unavailable {
        return Err(if stored.None? then RedisUnavailable else DatabaseUnavailable), seen;
      }
      if stored.None? || !CurrentEpoch(w.db, stored.value) || !S.Matches(stored.value, S.Holder(hash)) {
        return Ok(None), seen;
      }
      Pause(me, st);
      SometimeAt(before, seen, here, Found(stored.value, ticket, hash));
      return Ok(stored), seen;
    }

    // Put back what this request holds, for what is left of its lifetime. When Redis does not
    // answer, the value is lost.
    method Restore(me: CallId, ghost st: Standing) returns (r: Result<()>)
      requires Valid() && Stands(me, w, st) && st.held.Some?
      modifies this
      ensures Valid() && Stands(me, w, st.(held := None)) && Leads(old(here), here)
      ensures r.Ok? ==> Sometime(old(here), here, Stored(st.held.value))
      ensures r.Err? ==> r.error.RedisUnavailable?
    {
      hide Inv, Stands, Rely, Leads, At, Sometime, Is;
      LeadingIsTransitive();
      ghost var before := here;
      var readAt := w.now;
      Pause(me, st);
      TimeMoves(before, here);
      ghost var middle := here;
      var unavailable: bool := *;
      if unavailable {
        Forget(me, st);
        return Err(RedisUnavailable);
      }
      RestoringStands(cfg, w, me, readAt, st);
      Act(me, Action.Restore(readAt));
      ghost var restored := Next(middle, me, Action.Restore(readAt));
      RelyKeepsStanding(me, At(restored), w, st.(held := None));
      SometimeAt(middle, restored, here, Stored(st.held.value));
      return Ok(());
    }

    // GETDEL under a compare; the epoch lookup follows the deletion. A lookup that fails puts the
    // ticket back, a stale epoch does not.
    method TakeForHolder(me: CallId, ticket: nat, hash: string, ghost st: Standing)
      returns (r: Result<Option<S.Grant>>, ghost seen: Moment)
      requires Valid() && Stands(me, w, st) && st.held.None?
      modifies this
      ensures Valid() && Leads(old(here), seen) && Leads(seen, here) && Sound(seen)
      ensures r.Ok? && r.value.Some? ==>
        && Stands(me, w, st.(held := r.value))
        && IsTicket(At(seen), r.value.value, ticket, hash)
        && CurrentEpoch(At(seen).db, r.value.value)
        && Is(At(seen), Taken(me, r.value.value))
      ensures r.Err? || r.value.None? ==> Stands(me, w, st)
      ensures r.Ok? ==> Sometime(old(here), here, NotTakeable(S.TicketKey(ticket), S.Holder(hash)))
      ensures r.Err? ==> r.error.RedisUnavailable? || r.error.DatabaseUnavailable?
      ensures r == Err(DatabaseUnavailable) ==>
        exists g :: IsTicket(At(seen), g, ticket, hash) && Sometime(old(here), here, Stored(g))
    {
      hide Stands, Rely, Leads, At, Sometime, Is, Deployable, SoundMinted, SoundStarts, SoundSlots, Faithful, F.Advances;
      LeadingIsTransitive();
      ghost var before := here;
      seen := here;
      LeadsItself(here);
      var unavailable: bool := *;
      if unavailable {
        return Err(RedisUnavailable), seen;
      }
      var key := S.TicketKey(ticket);
      var taken := Takeable(w.store, key, S.Holder(hash));
      TakingStands(cfg, w, me, key, S.Holder(hash), st);
      Act(me, Take(key, S.Holder(hash)));
      ghost var after := Next(before, me, Take(key, S.Holder(hash)));
      RelyKeepsStanding(me, At(after), w, st.(held := taken));
      TakenIsGone(cfg, At(before), me, key, S.Holder(hash));
      SometimeAt(before, after, here, NotTakeable(key, S.Holder(hash)));
      LaterHasAdvanced(before, here);
      seen := here;
      LeadsItself(here);
      if taken.None? {
        assert st.(held := None) == st;
        return Ok(None), seen;
      }
      var lookupFails: bool := *;
      if lookupFails {
        var restored := Restore(me, st.(held := taken));
        assert IsTicket(At(seen), taken.value, ticket, hash) && st.(held := taken).(held := None) == st;
        return Err(if restored.Ok? then DatabaseUnavailable else RedisUnavailable), seen;
      }
      if !CurrentEpoch(w.db, taken.value) {
        Forget(me, st.(held := taken));
        assert st.(held := taken).(held := None) == st;
        return Ok(None), seen;
      }
      HoldingCurrent(me, w, st.(held := taken), taken.value);
      Pause(me, st.(held := taken));
      return Ok(taken), seen;
    }

    method IssueFresh(me: CallId, g: S.Grant, issuedAt: int, ghost st: Standing)
      requires Valid() && Stands(me, w, st) && MayAct(cfg, w, me, Issue(g, issuedAt))
      modifies this
      ensures Valid() && Stands(me, w, st) && Leads(old(here), here)
      ensures S.Minted(w.store.minted, g)
    {
      hide Inv, Stands, Leads, At, F.Advances, L.SparesToken;
      ghost var before := here;
      IssuingStands(cfg, w, me, g, issuedAt, st);
      Act(me, Issue(g, issuedAt));
      RelyKeepsStanding(me, At(Next(before, me, Issue(g, issuedAt))), w, st);
    }

    // A plain GET, and a take, of a session enrolment or a discoverable challenge.
    method FindStored(me: CallId, key: S.Key, ghost st: Standing) returns (r: Result<Option<S.Grant>>, ghost seen: Moment)
      requires Valid() && Stands(me, w, st)
      modifies this
      ensures Valid() && Stands(me, w, st) && seen == old(here) && Leads(seen, here)
      ensures r.Ok? && r.value.Some? ==>
        && S.Minted(At(seen).store.minted, r.value.value) && r.value.value.key == key && S.WellKeyed(r.value.value)
        && Is(At(seen), Present(r.value.value))
    {
      hide Stands, Leads, At, Rely, Sometime, Deployable, SoundMinted, SoundStarts, SoundSlots, Faithful;
      hide C.Valid, L.WithinCapacity, L.OnlyCharged, F.Valid, F.IdentityTraced;
      seen := here;
      var stored := if key in w.store.stored then Some(w.store.stored[key].grant) else None;
      var unavailable: bool := *;
      Pause(me, st);
      return if unavailable then Err(RedisUnavailable) else Ok(stored), seen;
    }

    method TakeStored(me: CallId, key: S.Key, who: S.Claimant, ghost st: Standing) returns (r: Result<Option<S.Grant>>)
      requires Valid() && Stands(me, w, st) && st.held.None?
      modifies this
      ensures Valid() && Leads(old(here), here)
      ensures Stands(me, w, if r.Ok? then st.(held := r.value) else st)
      ensures r.Ok? && r.value.Some? ==> S.Minted(w.store.minted, r.value.value) && r.value.value.key == key && S.Matches(r.value.value, who)
      ensures r.Err? ==> r.error.RedisUnavailable?
    {
      hide Stands, Rely, Leads, At, Deployable, SoundMinted, SoundStarts, SoundSlots, Faithful, F.Advances;
      ghost var before := here;
      LeadsItself(here);
      var unavailable: bool := *;
      if unavailable {
        return Err(RedisUnavailable);
      }
      var taken := Takeable(w.store, key, who);
      TakingStands(cfg, w, me, key, who, st);
      Act(me, Take(key, who));
      RelyKeepsStanding(me, At(Next(before, me, Take(key, who))), w, st.(held := taken));
      LaterHasAdvanced(before, here);
      return Ok(taken);
    }

    method DiscardStored(me: CallId, key: S.Key, ghost st: Standing) returns (r: Result<()>)
      requires Valid() && Stands(me, w, st)
      modifies this
      ensures Valid() && Stands(me, w, st) && Leads(old(here), here)
    {
      hide Inv, Rely, Leads, At;
      ghost var before := here;
      LeadsItself(here);
      var unavailable: bool := *;
      if unavailable {
        return Err(RedisUnavailable);
      }
      Act(me, Discard(key));
      RelyKeepsStanding(me, At(Next(before, me, Discard(key))), w, st);
      return Ok(());
    }

    // Report success on what this request holds.
    method Complete(me: CallId, ghost st: Standing)
      requires Valid() && Stands(me, w, st) && st.held.Some? && st.held.value.id !in st.done
      modifies this
      ensures Valid() && Stands(me, w, st.(held := None, done := st.done + {st.held.value.id})) && Leads(old(here), here)
    {
      hide Inv, Rely, Leads, At;
      ghost var before := here;
      Act(me, Action.Complete);
      RelyKeepsStanding(me, At(Next(before, me, Action.Complete)), w, st.(held := None, done := st.done + {st.held.value.id}));
    }

    method Forget(me: CallId, ghost st: Standing)
      requires Valid() && Stands(me, w, st) && st.held.Some?
      modifies this
      ensures Valid() && Stands(me, w, st.(held := None)) && Leads(old(here), here)
      ensures st.held.value.id in w.store.spent
    {
      hide Inv, Leads, At;
      ghost var before := here;
      Act(me, Action.Forget);
      RelyKeepsStanding(me, At(Next(before, me, Action.Forget)), w, st.(held := None));
    }

    // -- pending setups and challenges -------------------------------------------------------------

    method FindPending(me: CallId, slot: PendingKey, ghost st: Standing) returns (r: Result<Option<Pending>>, ghost seen: Moment)
      requires Valid() && Stands(me, w, st)
      modifies this
      ensures Valid() && Stands(me, w, st) && seen == old(here) && Leads(seen, here)
      ensures r.Ok? && r.value.Some? ==> SoundPending(cfg, slot, r.value.value, At(seen).starts, At(seen).db) && Is(At(seen), Pended(slot, r.value.value))
    {
      seen := here;
      var found := if slot in w.pending then Some(w.pending[slot].value) else None;
      var unavailable: bool := *;
      Pause(me, st);
      return if unavailable then Err(RedisUnavailable) else Ok(found), seen;
    }

    method DropPending(me: CallId, slot: PendingKey, ghost st: Standing) returns (r: Result<()>)
      requires Valid() && Stands(me, w, st)
      modifies this
      ensures Valid() && Stands(me, w, st) && Leads(old(here), here)
      ensures r.Ok? ==> Sometime(old(here), here, NoPending(slot))
      ensures r.Err? ==> r.error.RedisUnavailable?
    {
      hide Inv, Rely, Leads, At;
      ghost var before := here;
      LeadsItself(here);
      var unavailable: bool := *;
      if unavailable {
        return Err(RedisUnavailable);
      }
      Act(me, Drop(slot));
      ghost var after := Next(before, me, Drop(slot));
      RelyKeepsStanding(me, At(after), w, st);
      SometimeAt(before, after, here, NoPending(slot));
      return Ok(());
    }

    // Drops the ticket for good, and the pending setup that hangs on it.
    method InvalidateTicket(me: CallId, ticket: nat, hash: string, ghost st: Standing) returns (r: Result<()>)
      requires Valid() && Stands(me, w, st) && st.held.None?
      modifies this
      ensures Valid() && Stands(me, w, st) && Leads(old(here), here)
      ensures r.Ok? ==> Sometime(old(here), here, NotTakeable(S.TicketKey(ticket), S.Holder(hash)))
      ensures r.Ok? ==> Sometime(old(here), here, NoPending(SetupKey(ticket)))
    {
      hide Inv, Stands, Leads, At, Sometime, Is;
      LeadingIsTransitive();
      var taken, seen := TakeForHolder(me, ticket, hash, st);
      if taken.Err? {
        return Err(taken.error);
      }
      if taken.value.Some? {
        Forget(me, st.(held := taken.value));
        assert st.(held := taken.value).(held := None) == st;
      }
      r := DropPending(me, SetupKey(ticket), st);
    }

    // -- the limiter ----------------------------------------------------------------------------

    method AccountKey(me: CallId, user: UserId, ghost st: Standing) returns (r: Result<string>)
      requires Valid() && Stands(me, w, st)
      modifies this
      ensures Valid() && Stands(me, w, st) && Leads(old(here), here)
      ensures r == Err(ServiceError.UserNotFound) ==> user !in old(w).db.users
      ensures r.Ok? ==> r.value == email(user)
    {
      var known := user in w.db.users;
      var unavailable: bool := *;
      Pause(me, st);
      return if unavailable then Err(DatabaseUnavailable) else if known then Ok(email(user)) else Err(ServiceError.UserNotFound);
    }

    // A reservation, or None when a dimension is full. Its places last for a lease from now on.
    method EnsureDimensionsAllowed(me: CallId, dims: seq<L.Counter>, ghost until: int, ghost st: Standing) returns (r: Option<L.Reservation>)
      requires Valid() && Stands(me, w, st) && st.leases == [] && until <= L.LeaseEnd(w.now)
      modifies this
      ensures Valid() && Leads(old(here), here)
      ensures Stands(me, w, if r.Some? then st.(leases := r.value.leases, until := until) else st)
      ensures r.Some? ==> r.value == L.Single(dims, me)
    {
      hide Inv, Stands, Rely, Leads, At, L.Reserve;
      ghost var before := here;
      var (_, reservation) := L.Reserve(w.limiter, dims, me, limits, w.now);
      AdmittingStands(cfg, w, me, dims, limits, until, st);
      Act(me, Admit(dims, limits));
      ghost var after := if reservation.denied then st else st.(leases := reservation.leases, until := until);
      RelyKeepsStanding(me, At(Next(before, me, Admit(dims, limits))), w, after);
      return if reservation.denied then None else Some(reservation);
    }

    // The dimensions of one attempt on an account.
    function Dimensions(user: UserId, ticket: Option<nat>, ip: Option<string>): Result<seq<L.Counter>> {
      L.FailureDimensions(email(user), if ticket.Some? then Some(uuid(ticket.value)) else None, ip, rejectMissingIp)
    }

    // The lease of that attempt by request `me`.
    function Attempt(me: CallId, user: UserId, ticket: Option<nat>, ip: Option<string>): L.Lease {
      var dims := Dimensions(user, ticket, ip);
      L.Lease(me, if dims.Ok? then dims.value else [])
    }

    // The account's address, the dimensions of the attempt, and a place in each of them.
    method ReserveAttempt(me: CallId, user: UserId, ticket: Option<nat>, ip: Option<string>, ghost until: int, ghost st: Standing)
      returns (r: Result<Option<L.Reservation>>)
      requires Valid() && Stands(me, w, st) && st.leases == [] && until <= L.LeaseEnd(w.now)
      modifies this
      ensures Valid() && Leads(old(here), here)
      ensures Stands(me, w, if r.Ok? && r.value.Some? then st.(leases := r.value.value.leases, until := until) else st)
      ensures r == Err(ServiceError.UserNotFound) ==> Sometime(old(here), here, NoAccount(user))
      ensures r.Ok? && r.value.Some? ==>
        && r.value.value.leases == [Attempt(me, user, ticket, ip)] && L.Distinct(Attempt(me, user, ticket, ip).dimensions)
    {
      hide Inv, Stands, Leads, At, Sometime;
      LeadingIsTransitive();
      ghost var before := here;
      var account := AccountKey(me, user, st);
      LeadsItself(before);
      TimeMoves(before, here);
      if account == Err(ServiceError.UserNotFound) { SometimeAt(before, before, here, NoAccount(user)); }
      if account.Err? {
        return Err(account.error);
      }
      var dims := Dimensions(user, ticket, ip);
      if dims.Err? {
        return Err(dims.error);
      }
      var allowed := EnsureDimensionsAllowed(me, dims.value, until, st);
      return Ok(allowed);
    }

    // The attempt failed: every place the request still owns becomes a failure, and before `until` it
    // owns them all.
    method RecordFailure(me: CallId, leases: seq<L.Lease>, ghost st: Standing) returns (reached: seq<L.Dimension>)
      requires Valid() && Stands(me, w, st) && st.leases == leases
      modifies this
      ensures Valid() && Stands(me, w, st.(leases := [], until := 0, charged := true)) && Leads(old(here), here)
      ensures reached == L.RecordAll(old(w).limiter, leases, limits, old(w).now).1
      ensures |leases| == 1 && L.Distinct(leases[0].dimensions) ==> Charges(old(here), here, leases[0], limits, st.until)
    {
      hide Inv, Rely, Leads, At, Charges, L.AttemptRecorded;
      ghost var before := here;
      reached := L.RecordAll(w.limiter, leases, limits, w.now).1;
      L.CommitSettlesEveryLease(w.limiter, leases, limits, w.now, me);
      Act(me, Charge(leases, limits));
      ghost var after := Next(before, me, Charge(leases, limits));
      RelyKeepsStanding(me, At(after), w, st.(leases := [], until := 0, charged := true));
      LeadsItself(before);
      if |leases| == 1 && L.Distinct(leases[0].dimensions) {
        assert leases == [leases[0]] && leases[0].token == me;
        L.HeldPlacesAreRecorded(At(before).limiter, leases[0], limits, At(before).now, st.until);
        ChargesAt(before, before, here, leases[0], limits, st.until);
      }
    }

    // The attempt does not count: the places are given back.
    method Release(me: CallId, leases: seq<L.Lease>, ghost st: Standing)
      requires Valid() && Stands(me, w, st) && st.leases == leases
      modifies this
      ensures Valid() && Stands(me, w, st.(leases := [], until := 0)) && Leads(old(here), here)
    {
      hide Inv, Rely, Leads, At;
      ghost var before := here;
      L.ReleaseSettlesEveryLease(w.limiter, leases, me);
      Act(me, Refund(leases));
      RelyKeepsStanding(me, At(Next(before, me, Refund(leases))), w, st.(leases := [], until := 0));
    }

    method ClearFailures(me: CallId, counter: L.Counter, ghost st: Standing)
      requires Valid() && Stands(me, w, st)
      modifies this
      ensures Valid() && Stands(me, w, st) && Leads(old(here), here)
      ensures Sometime(old(here), here, NoFailures(counter))
    {
      hide Inv, Rely, Leads, At;
      ghost var before := here;
      L.ClearingKeepsPlaces(w.limiter, counter);
      Act(me, Action.ClearFailures(counter));
      ghost var after := Next(before, me, Action.ClearFailures(counter));
      RelyKeepsStanding(me, At(after), w, st);
      SometimeAt(before, after, here, NoFailures(counter));
    }

    // -- one-time codes ------------------------------------------------------------------------------

    method ClaimStep(me: CallId, user: UserId, step: nat, verifiedAt: int, ghost st: Standing) returns (r: Result<bool>)
      requires Valid() && Stands(me, w, st) && verifiedAt <= w.now && C.InWindow(step, verifiedAt)
      modifies this
      ensures Valid() && Stands(me, w, st) && Leads(old(here), here)
      ensures r == Ok(true) ==> ClaimedBy(w.claims.log, me, user, step)
      ensures r == Ok(false) ==> C.Claimed(old(w).claims, old(w).now, user, step)
      ensures r.Err? ==> r.error.RedisUnavailable?
    {
      hide Inv, Leads, At, F.Advances, L.SparesToken, S.Follows;
      ghost var before := here;
      LeadsItself(here);
      var unavailable: bool := *;
      if unavailable {
        return Err(RedisUnavailable);
      }
      var (claims, granted) := C.Claim(w.claims, w.now, me, user, step, verifiedAt);
      Act(me, Claim(user, step, verifiedAt));
      RelyKeepsStanding(me, At(Next(before, me, Claim(user, step, verifiedAt))), w, st);
      if granted {
        var event := C.Granted(me, user, step, verifiedAt, At(before).now);
        assert claims.log[|At(before).claims.log|] == event;
        assert w.claims.log[|At(before).claims.log|] == event;
      }
      return Ok(granted);
    }

    // The one place where a code is spent; the reservation is given back whether or not the claim
    // wins, since losing the race is not a wrong code.
    method ClaimTotpTimestep(me: CallId, user: UserId, step: nat, verifiedAt: int, leases: seq<L.Lease>, ghost st: Standing)
      returns (r: Result<bool>)
      requires Valid() && Stands(me, w, st) && st.leases == leases && verifiedAt <= w.now && C.InWindow(step, verifiedAt)
      modifies this
      ensures Valid() && Stands(me, w, st.(leases := [], until := 0)) && Leads(old(here), here)
      ensures r == Ok(true) ==> ClaimedBy(w.claims.log, me, user, step)
      ensures r == Ok(false) ==> C.Claimed(old(w).claims, old(w).now, user, step)
      ensures r.Err? ==> r.error.RedisUnavailable?
    {
      hide Inv, Stands, Leads, At, ClaimedBy;
      LeadingIsTransitive();
      r := ClaimStep(me, user, step, verifiedAt, st);
      ghost var middle := here;
      Release(me, leases, st);
      if r == Ok(true) { ClaimRemains(middle, here, me, user, step); }
    }
  }
}

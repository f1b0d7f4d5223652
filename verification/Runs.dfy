// What holds over whole runs: for every request while the others interleave, and for every ticket,
// code, factor row and passkey from any reachable state onwards.

module Runs {
  import opened Prelude
  import opened World
  import S = OneTimeStore
  import C = ReplayClaims
  import L = AttemptLimiter
  import F = FactorDatabase

  // -- what the others may do to me -----------------------------------------------------------

  ghost predicate StartsKept(a: map<Bytes, Start>, b: map<Bytes, Start>) {
    forall c :: c in a ==> c in b && b[c] == a[c]
  }

  ghost predicate NothingInMyName(a: S.Store, b: S.Store, me: CallId) {
    forall id :: id in b.completed && b.completed[id] == me ==> id in a.completed
  }

  // From `a` to `b` by steps of other requests only.
  ghost predicate Rely(me: CallId, a: World, b: World) {
    && a.now <= b.now
    && S.SparesCall(a.store, b.store, me)
    && S.Follows(a.store, b.store)
    && NothingInMyName(a.store, b.store, me)
    && StartsKept(a.starts, b.starts)
    && a.claims.log <= b.claims.log
    && L.SparesToken(a.limiter, b.limiter, me) && L.KeepsPlaces(a.limiter, b.limiter, me, b.now)
    && (me in a.charged <==> me in b.charged)
    && F.Advances(a.db, b.db)
  }

  lemma AdvancesIsReflexive(db: F.Db)
    ensures F.Advances(db, db)
  {
  }

  lemma StoreStepSpares(cfg: Config, w: World, call: CallId, a: Action, me: CallId)
    requires S.Conserved(w.store) && MayAct(cfg, w, call, a) && OnStore(a) && call != me
    ensures var r := Apply(cfg, w, call, a).store;
            S.SparesCall(w.store, r, me) && S.Follows(w.store, r) && NothingInMyName(w.store, r, me)
  {
  }

  lemma StoreStepIsRely(cfg: Config, w: World, call: CallId, a: Action, me: CallId)
    requires Inv(cfg, w) && MayAct(cfg, w, call, a) && OnStore(a) && call != me
    ensures Rely(me, w, Apply(cfg, w, call, a))
  {
    StoreStepSpares(cfg, w, call, a, me);
    AdvancesIsReflexive(w.db);
  }

  lemma LimiterStepIsRely(cfg: Config, w: World, call: CallId, a: Action, me: CallId)
    requires MayAct(cfg, w, call, a) && OnLimiter(a) && call != me
    ensures Rely(me, w, Apply(cfg, w, call, a))
  {
    hide L.Reserve, L.RecordAll, L.ReleaseAll, L.Pending;
    AdvancesIsReflexive(w.db);
    match a
    case Admit(dims, limits) =>
      L.ReservePlaces(w.limiter, dims, call, limits, w.now, me);
      L.ReserveKeepsPlaces(w.limiter, dims, call, limits, w.now, me);
    case Charge(leases, limits) =>
      assert L.OwnsNone(leases, me);
      L.CommitSettlesEveryLease(w.limiter, leases, limits, w.now, me);
      L.CommitKeepsPlaces(w.limiter, leases, limits, w.now, me, w.now);
    case Refund(leases) =>
      assert L.OwnsNone(leases, me);
      L.ReleaseSettlesEveryLease(w.limiter, leases, me);
      L.ReleaseKeepsPlaces(w.limiter, leases, me, w.now);
    case ClearFailures(d) => L.ClearingKeepsPlaces(w.limiter, d); L.ClearingChargesNobody(w.limiter, d);
  }

  lemma PlainStepIsRely(cfg: Config, w: World, call: CallId, a: Action, me: CallId)
    requires MayAct(cfg, w, call, a) && (a.Tick? || a.Reserve? || a.Drop? || a.Claim? || a.ClearReplay?)
    ensures Rely(me, w, Apply(cfg, w, call, a))
  {
    AdvancesIsReflexive(w.db);
  }

  lemma StepIsRely(cfg: Config, w: World, s: Step, me: CallId)
    requires Inv(cfg, w) && s.call != me
    ensures Rely(me, w, Execute(cfg, w, s))
  {
    var a := s.action;
    AdvancesIsReflexive(w.db);
    if MayAct(cfg, w, s.call, a) {
      if OnStore(a) { StoreStepIsRely(cfg, w, s.call, a, me); }
      else if OnLimiter(a) { LimiterStepIsRely(cfg, w, s.call, a, me); }
      else if a.Write? { WriteKeepsInv(cfg, w, s.call, a.op); }
      else { PlainStepIsRely(cfg, w, s.call, a, me); }
    }
  }

  lemma RelyIsTransitive(me: CallId, a: World, b: World, c: World)
    requires Rely(me, a, b) && Rely(me, b, c)
    ensures Rely(me, a, c)
  {
    F.AdvancesIsTransitive(a.db, b.db, c.db);
    L.SparesIsTransitive(a.limiter, b.limiter, c.limiter, me);
  }

  predicate Others(steps: seq<Step>, me: CallId) {
    forall i :: 0 <= i < |steps| ==> steps[i].call != me
  }

  // However the other requests interleave, they cannot touch what this one holds, act in its name,
  // or move the database against its direction.
  lemma {:induction false} RunIsRely(cfg: Config, w: World, steps: seq<Step>, me: CallId)
    requires Inv(cfg, w) && Others(steps, me)
    ensures Rely(me, w, Run(cfg, w, steps))
    decreases |steps|
  {
    if steps != [] {
      var next := Execute(cfg, w, steps[0]);
      StepKeepsInv(cfg, w, steps[0]);
      StepIsRely(cfg, w, steps[0], me);
      RunIsRely(cfg, next, steps[1..], me);
      RelyIsTransitive(me, w, next, Run(cfg, w, steps));
    }
  }

  // -- direction of a run --------------------------------------------------------------------

  lemma StepAdvances(cfg: Config, w: World, s: Step)
    requires Inv(cfg, w)
    ensures w.now <= Execute(cfg, w, s).now
    ensures S.Follows(w.store, Execute(cfg, w, s).store)
    ensures StartsKept(w.starts, Execute(cfg, w, s).starts)
    ensures w.claims.log <= Execute(cfg, w, s).claims.log
    ensures F.Advances(w.db, Execute(cfg, w, s).db)
  {
    StepIsRely(cfg, w, s, s.call + 1);
  }

  lemma {:induction false} RunAdvances(cfg: Config, w: World, steps: seq<Step>)
    requires Inv(cfg, w)
    ensures w.now <= Run(cfg, w, steps).now
    ensures S.Follows(w.store, Run(cfg, w, steps).store)
    ensures StartsKept(w.starts, Run(cfg, w, steps).starts)
    ensures w.claims.log <= Run(cfg, w, steps).claims.log
    ensures F.Advances(w.db, Run(cfg, w, steps).db)
    decreases |steps|
  {
    if steps != [] {
      var next := Execute(cfg, w, steps[0]);
      StepKeepsInv(cfg, w, steps[0]);
      StepAdvances(cfg, w, steps[0]);
      RunAdvances(cfg, next, steps[1..]);
      F.AdvancesIsTransitive(w.db, next.db, Run(cfg, w, steps).db);
    }
  }

  // A passkey row that survives a run has never gone back, in counter or in version, and a version
  // that did not move means the row was not written at all. Row ids are not reused, so a captured
  // id never comes to mean another row.
  lemma PasskeyNeverGoesBack(cfg: Config, w: World, steps: seq<Step>, row: nat)
    requires Inv(cfg, w) && row < w.db.nextRow && row in Run(cfg, w, steps).db.passkeys
    ensures row in w.db.passkeys && F.Evolves(w.db.passkeys[row], Run(cfg, w, steps).db.passkeys[row])
  {
    RunAdvances(cfg, w, steps);
  }

  // A completion is final: at any later time it still belongs to the same request, and the ticket
  // is neither in Redis nor in anybody's hands.
  lemma CompletionIsFinal(cfg: Config, w: World, steps: seq<Step>, id: nat)
    requires Inv(cfg, w) && id in w.store.completed
    ensures var s := Run(cfg, w, steps).store;
            && id in s.completed && s.completed[id] == w.store.completed[id]
            && (forall k :: k in s.stored ==> s.stored[k].grant.id != id)
            && (forall c :: c in s.held ==> s.held[c].id != id)
  {
    RunAdvances(cfg, w, steps);
    RunKeepsInv(cfg, w, steps);
  }

  // -- staleness ------------------------------------------------------------------------------

  // The epoch lookup inside find and take.
  predicate CurrentEpoch(db: F.Db, g: S.Grant)
    requires g.payload.LoginTicket?
  {
    g.payload.user in db.users && db.users[g.payload.user].epoch == g.payload.epoch
  }

  ghost predicate Stale(db: F.Db, user: UserId, stamp: int) {
    user in db.users ==> db.users[user].epoch > stamp
  }

  // Once the epoch has passed a stamp, no later lookup accepts it, restored or not, and no enrolment
  // carrying it writes a row.
  lemma StaleForever(cfg: Config, w: World, steps: seq<Step>, user: UserId, stamp: int)
    requires Inv(cfg, w) && Stale(w.db, user, stamp)
    ensures var later := Run(cfg, w, steps).db;
            && Stale(later, user, stamp)
            && !F.ActiveUserEpochMatches(later, user, stamp)
            && (forall g: S.Grant :: g.payload.LoginTicket? && g.payload.user == user && g.payload.epoch == stamp ==> !CurrentEpoch(later, g))
  {
    RunAdvances(cfg, w, steps);
  }

  // -- reset fencing ---------------------------------------------------------------------------

  lemma {:induction false} RunKeepsFence(cfg: Config, w: World, steps: seq<Step>, user: UserId, factor: FactorMethod, epoch: int)
    requires F.Fenced(w.db, user, factor, epoch)
    ensures F.Fenced(Run(cfg, w, steps).db, user, factor, epoch)
    decreases |steps|
  {
    if steps != [] {
      var s := steps[0];
      if MayAct(cfg, w, s.call, s.action) && s.action.Write? {
        F.ApplyKeepsFence(w.db, s.action.op, user, factor, epoch);
      }
      RunKeepsFence(cfg, Execute(cfg, w, s), steps[1..], user, factor, epoch);
    }
  }

  // An enrolment of this factor stamped with `epoch` or a later one.
  predicate Enrols(op: F.Op, user: UserId, factor: FactorMethod, epoch: int) {
    match op
    case InsertTotpIfEmpty(u, stamp, _, _) => factor.Totp? && u == user && stamp >= epoch
    case InsertTotpForPasskeyRecovery(u, stamp, _, _) => factor.Totp? && u == user && stamp >= epoch
    case InsertAuthenticatedTotp(u, stamp, _, _) => factor.Totp? && u == user && stamp >= epoch
    case InsertPasskeyIfEmpty(u, stamp, _, _) => factor.Passkey? && u == user && stamp >= epoch
    case InsertAuthenticatedPasskey(u, stamp, _, _) => factor.Passkey? && u == user && stamp >= epoch
    case _ => false
  }

  lemma RowNeedsEnrolment(db: F.Db, op: F.Op, user: UserId, factor: FactorMethod, epoch: int)
    requires F.NoRow(db, user, factor) && (user in db.users ==> db.users[user].epoch >= epoch)
    ensures F.NoRow(F.Apply(db, op).0, user, factor) || Enrols(op, user, factor, epoch)
  {
  }

  predicate NeverEnrols(steps: seq<Step>, user: UserId, factor: FactorMethod, epoch: int) {
    forall i :: 0 <= i < |steps| && steps[i].action.Write? ==> !Enrols(steps[i].action.op, user, factor, epoch)
  }

  lemma {:induction false} NoRowUntilLaterEnrolment(cfg: Config, w: World, steps: seq<Step>, user: UserId, factor: FactorMethod, epoch: int)
    requires F.Fenced(w.db, user, factor, epoch) && F.NoRow(w.db, user, factor)
    requires NeverEnrols(steps, user, factor, epoch)
    ensures F.NoRow(Run(cfg, w, steps).db, user, factor)
    decreases |steps|
  {
    if steps != [] {
      var s := steps[0];
      if MayAct(cfg, w, s.call, s.action) && s.action.Write? {
        F.ApplyKeepsFence(w.db, s.action.op, user, factor, epoch);
        RowNeedsEnrolment(w.db, s.action.op, user, factor, epoch);
      }
      NoRowUntilLaterEnrolment(cfg, Execute(cfg, w, s), steps[1..], user, factor, epoch);
    }
  }

  // The reset that commits fences the factor for good: whatever runs afterwards, any row of it was
  // enrolled under the advanced epoch, and there is none until such an enrolment commits.
  lemma ResetFencesForEver(cfg: Config, w: World, call: CallId, op: F.Op, steps: seq<Step>)
    requires Inv(cfg, w) && (op.ResetFactor? || op.RemoveOwn?) && F.Apply(w.db, op).1.Removed?
    ensures var epoch := w.db.users[op.user].epoch + 1;
            var later := Run(cfg, Execute(cfg, w, Step(call, Write(op))), steps).db;
            && F.Fenced(later, op.user, op.factor, epoch)
            && (NeverEnrols(steps, op.user, op.factor, epoch) ==> F.NoRow(later, op.user, op.factor))
  {
    var next := Execute(cfg, w, Step(call, Write(op)));
    var epoch := w.db.users[op.user].epoch + 1;
    F.RemovalIsAtomic(w.db, op);
    assert next.db == F.Apply(w.db, op).0;
    RunKeepsFence(cfg, next, steps, op.user, op.factor, epoch);
    if NeverEnrols(steps, op.user, op.factor, epoch) {
      NoRowUntilLaterEnrolment(cfg, next, steps, op.user, op.factor, epoch);
    }
  }

  // -- re-enrolment -----------------------------------------------------------------------------

  predicate StoresTotp(db: F.Db, op: F.Op, user: UserId) {
    && (op.InsertTotpIfEmpty? || op.InsertTotpForPasskeyRecovery? || op.InsertAuthenticatedTotp?)
    && op.user == user && F.Apply(db, op).1 == F.Stored
  }

  predicate CommitsTotp(cfg: Config, w: World, s: Step, user: UserId) {
    MayAct(cfg, w, s.call, s.action) && s.action.Write? && StoresTotp(w.db, s.action.op, user)
  }

  // Some TOTP enrolment of the user commits in the run.
  predicate TotpEnrolledIn(cfg: Config, w: World, steps: seq<Step>, user: UserId)
    decreases |steps|
  {
    steps != [] && (CommitsTotp(cfg, w, steps[0], user) || TotpEnrolledIn(cfg, Execute(cfg, w, steps[0]), steps[1..], user))
  }

  lemma EnrolmentWasAbsent(db: F.Db, op: F.Op, user: UserId)
    ensures var after := F.Apply(db, op).0;
            if StoresTotp(db, op, user) then
              user in db.users && user !in db.totp && user in after.totp && after.totp[user].stamp == db.users[user].epoch
            else
              user in after.totp ==> user in db.totp && F.SameEnrolment(db.totp[user], after.totp[user])
  {
    hide F.HasPasskey, F.CredentialTaken, F.PolicyEnabled, F.IssuerGenerationMatches, F.Baseline, F.PasskeyOnlyAccount;
  }

  lemma CommitWasAbsent(cfg: Config, w: World, s: Step, user: UserId)
    ensures var after := Execute(cfg, w, s).db;
            if CommitsTotp(cfg, w, s, user) then
              user in w.db.users && user !in w.db.totp && user in after.totp && after.totp[user].stamp == w.db.users[user].epoch
            else
              user in after.totp ==> user in w.db.totp && F.SameEnrolment(w.db.totp[user], after.totp[user])
  {
    hide MayAct, F.Apply, StoresTotp;
    if s.action.Write? { EnrolmentWasAbsent(w.db, s.action.op, user); }
  }

  lemma {:induction false} NoEnrolmentKeepsRow(cfg: Config, w: World, steps: seq<Step>, user: UserId)
    requires !TotpEnrolledIn(cfg, w, steps, user) && user in Run(cfg, w, steps).db.totp
    ensures user in w.db.totp && F.SameEnrolment(w.db.totp[user], Run(cfg, w, steps).db.totp[user])
    decreases |steps|
  {
    if steps != [] {
      NoEnrolmentKeepsRow(cfg, Execute(cfg, w, steps[0]), steps[1..], user);
      CommitWasAbsent(cfg, w, steps[0], user);
    }
  }

  lemma StampMovesOn(a: F.Db, before: F.Db, after: F.Db, last: F.Db, user: UserId)
    requires F.Valid(a) && F.Valid(before) && F.Valid(last) && F.Advances(a, before) && F.Advances(before, after) && F.Advances(after, last)
    requires user in a.totp && user in before.users && user !in before.totp
    requires user in after.totp && after.totp[user].stamp == before.users[user].epoch && user in last.totp
    ensures last.totp[user].stamp > a.users[user].epoch
  {
    hide F.PasskeysEvolve, F.PublishedKept, F.ValidPasskeys;
    assert user in last.users && user in after.users && user in a.users;
  }

  lemma {:induction false} EnrolmentReplacesRow(cfg: Config, a: World, w: World, steps: seq<Step>, user: UserId)
    requires Inv(cfg, a) && Inv(cfg, w) && F.Advances(a.db, w.db) && user in a.db.totp
    requires TotpEnrolledIn(cfg, w, steps, user) && user in Run(cfg, w, steps).db.totp
    ensures Run(cfg, w, steps).db.totp[user].stamp > a.db.users[user].epoch
    decreases |steps|
  {
    hide MayAct, CommitsTotp, F.Advances, F.IdentityTraced, SoundMinted, SoundStarts, SoundSlots, Faithful;
    var next := Execute(cfg, w, steps[0]);
    StepKeepsInv(cfg, w, steps[0]);
    StepAdvances(cfg, w, steps[0]);
    if CommitsTotp(cfg, w, steps[0], user) {
      CommitWasAbsent(cfg, w, steps[0], user);
      RunAdvances(cfg, next, steps[1..]);
      RunKeepsInv(cfg, next, steps[1..]);
      StampMovesOn(a.db, w.db, next.db, Run(cfg, w, steps).db, user);
    } else {
      F.AdvancesIsTransitive(a.db, w.db, next.db);
      EnrolmentReplacesRow(cfg, a, next, steps[1..], user);
    }
  }

  // A TOTP row found later is the enrolment that was read exactly when no enrolment of the user has
  // committed in between; and as long as the account's epoch, which can be read again, is still the
  // one at the first reading, the row is there and is that enrolment.
  lemma SameEnrolmentIffNoneCommitted(cfg: Config, w: World, steps: seq<Step>, user: UserId)
    requires Inv(cfg, w) && user in w.db.totp
    ensures var later := Run(cfg, w, steps).db;
            && (user in later.totp ==> (F.SameEnrolment(w.db.totp[user], later.totp[user]) <==> !TotpEnrolledIn(cfg, w, steps, user)))
            && (user in later.users && later.users[user].epoch == w.db.users[user].epoch ==>
                  user in later.totp && F.SameEnrolment(w.db.totp[user], later.totp[user]))
  {
    hide MayAct;
    var later := Run(cfg, w, steps);
    RunAdvances(cfg, w, steps);
    RunKeepsInv(cfg, w, steps);
    if user in later.db.totp {
      if TotpEnrolledIn(cfg, w, steps, user) {
        AdvancesIsReflexive(w.db);
        EnrolmentReplacesRow(cfg, w, w, steps, user);
      } else {
        NoEnrolmentKeepsRow(cfg, w, steps, user);
      }
    }
  }

  // -- lifetime -----------------------------------------------------------------------------------

  // Every write of a one-time value follows the clock reading its lifetime was computed from by at
  // most `lag`.
  predicate Prompt(w: World, a: Action, lag: nat) {
    (a.Issue? ==> w.now - a.issuedAt <= lag) && (a.Restore? ==> w.now - a.readAt <= lag)
  }

  predicate PromptRun(cfg: Config, w: World, steps: seq<Step>, lag: nat)
    decreases |steps|
  {
    steps == [] || (Prompt(w, steps[0].action, lag) && PromptRun(cfg, Execute(cfg, w, steps[0]), steps[1..], lag))
  }

  lemma StepKeepsBounded(cfg: Config, w: World, s: Step, lag: nat)
    requires S.Bounded(w.store, lag) && Prompt(w, s.action, lag)
    ensures S.Bounded(Execute(cfg, w, s).store, lag)
  {
    if MayAct(cfg, w, s.call, s.action) {
      match s.action
      case Issue(g, issuedAt) => S.IssueStaysBounded(w.store, w.now, issuedAt, g, lag);
      case Restore(readAt) => S.RestoreStaysBounded(w.store, w.now, s.call, readAt, lag);
      case _ =>
    }
  }

  // No number of restores keeps a ticket, session enrolment or discoverable challenge alive for
  // longer than its original lifetime and one write delay.
  lemma {:induction false} LifetimeIsBounded(cfg: Config, w: World, steps: seq<Step>, lag: nat)
    requires S.Bounded(w.store, lag) && PromptRun(cfg, w, steps, lag)
    ensures S.Bounded(Run(cfg, w, steps).store, lag)
    decreases |steps|
  {
    if steps != [] {
      StepKeepsBounded(cfg, w, steps[0], lag);
      LifetimeIsBounded(cfg, Execute(cfg, w, steps[0]), steps[1..], lag);
    }
  }

  // -- one-time codes ----------------------------------------------------------------------------

  ghost predicate Punctual(log: seq<C.Event>) {
    forall i :: 0 <= i < |log| && log[i].Granted? ==> log[i].at - log[i].verifiedAt <= C.SAFE_DELAY
  }

  // In any run whose claims follow their verification within 30 s, a (user, step) pair is accepted
  // at most once between two replay clears, whichever use cases the requests belong to.
  lemma CodesAreAcceptedOnce(cfg: Config, w: World, steps: seq<Step>, i: nat, j: nat)
    requires Inv(cfg, w) && Punctual(Run(cfg, w, steps).claims.log)
    requires i < j < |Run(cfg, w, steps).claims.log|
    requires C.SameStep(Run(cfg, w, steps).claims.log[i], Run(cfg, w, steps).claims.log[j])
    ensures C.ClearedAfter(Run(cfg, w, steps).claims.log, Run(cfg, w, steps).claims.log[i].user, i, j)
  {
    RunKeepsInv(cfg, w, steps);
    var last := Run(cfg, w, steps);
    if !C.ClearedAfter(last.claims.log, last.claims.log[i].user, i, j) {
      C.StepGrantedOnce(last.claims, last.now, i, j);
    }
  }

  // -- places in the limiter -------------------------------------------------------------------------

  predicate NeverAdmits(steps: seq<Step>, call: CallId) {
    forall i :: 0 <= i < |steps| && steps[i].call == call ==> !steps[i].action.Admit?
  }

  lemma LimiterStepShrinks(cfg: Config, w: World, s: Step, token: CallId)
    requires s.call == token ==> !s.action.Admit?
    ensures L.TokenShrinks(w.limiter, Execute(cfg, w, s).limiter, token)
  {
    hide MayAct, L.Reserve, L.RecordAll, L.ReleaseAll, L.Pending;
    if MayAct(cfg, w, s.call, s.action) {
      match s.action
      case Admit(dims, limits) => L.ReserveShrinksOthers(w.limiter, dims, s.call, limits, w.now, token);
      case Charge(leases, limits) => L.CommitShrinks(w.limiter, leases, limits, w.now);
      case Refund(leases) => L.ReleaseShrinks(w.limiter, leases);
      case ClearFailures(d) => L.ClearingKeepsPlaces(w.limiter, d);
      case _ =>
    }
  }

  lemma {:induction false} PlacesEndOverRuns(cfg: Config, w: World, steps: seq<Step>, token: CallId, end: int)
    requires NeverAdmits(steps, token) && L.EndsBy(w.limiter, token, end)
    ensures L.EndsBy(Run(cfg, w, steps).limiter, token, end)
    decreases |steps|
  {
    if steps != [] {
      LimiterStepShrinks(cfg, w, steps[0], token);
      PlacesEndOverRuns(cfg, Execute(cfg, w, steps[0]), steps[1..], token, end);
    }
  }

  // A reservation that is never settled, whatever runs on, takes up capacity for the length of a lease
  // and no longer: from then on, whoever looks at a dimension drops the place before counting.
  lemma UnsettledPlacesLapse(cfg: Config, w: World, call: CallId, dims: seq<L.Counter>, limits: L.Limits, steps: seq<Step>, d: L.Counter, others: L.Limits)
    requires L.Settled(w.limiter, call) && MayAct(cfg, w, call, Admit(dims, limits)) && NeverAdmits(steps, call)
    ensures var later := Run(cfg, Execute(cfg, w, Step(call, Admit(dims, limits))), steps);
            later.now >= L.LeaseEnd(w.now) ==> call !in L.Pending(L.PurgeCounter(later.limiter, d, others, later.now), d)
  {
    var reserved := Execute(cfg, w, Step(call, Admit(dims, limits)));
    L.ReserveEndsWithLease(w.limiter, dims, call, limits, w.now);
    PlacesEndOverRuns(cfg, reserved, steps, call, L.LeaseEnd(w.now));
  }

  // -- winning starts ------------------------------------------------------------------------------

  // A pending setup or challenge is never overwritten: while the slot is occupied it keeps both its
  // value and its deadline, and the record of who won it never changes.
  lemma PendingIsNeverOverwritten(cfg: Config, w: World, s: Step, slot: PendingKey)
    requires slot in w.pending && slot in Execute(cfg, w, s).pending
    ensures Execute(cfg, w, s).pending[slot] == w.pending[slot]
    ensures StartsKept(w.starts, Execute(cfg, w, s).starts)
  {
    hide F.Apply, C.Claim, L.Reserve, L.RecordAll, L.ReleaseAll, S.Take, S.Issue, S.Restore;
  }

  // -- settings ------------------------------------------------------------------------------------

  // A passkey row appears only under an enabled policy, with the generation its challenge captured
  // still current, for an active account at the stamped epoch, by the request holding the ticket or
  // enrolment. It has the deployment's identity if and only if there is no persisted issuer yet, its
  // challenge was backed by one, or the first persisted one has the identity of the challenge.
  lemma PasskeyAppearsGuarded(cfg: Config, w: World, call: CallId, op: F.Op, row: nat)
    requires Inv(cfg, w) && MayWrite(cfg, w, call, op)
    requires row !in w.db.passkeys && row in F.Apply(w.db, op).0.passkeys
    ensures var p := F.Apply(w.db, op).0.passkeys[row];
            && F.PolicyEnabled(w.db.policy)
            && F.ActiveUserEpochMatches(w.db, p.user, p.stamp)
            && call in w.store.held
            && (op.InsertPasskeyIfEmpty? || op.InsertAuthenticatedPasskey?)
            && p.challenge == op.challenge && F.IssuerGenerationMatches(w.db.issuer, p.challenge.generation)
            && (F.CurrentIdentity(w.db.issuer, cfg.bootstrap) == Some(p.challenge.identity) <==>
                  || w.db.issuer.None? || !p.challenge.unbacked
                  || w.db.published[F.INITIAL_ISSUER_GENERATION] == Some(p.challenge.identity))
  {
    F.RowsNeedCurrentStamp(w.db, op);
    WriteIsHonest(cfg, w, call, op);
    F.InsertBindsIdentityIff(w.db, cfg.bootstrap, op);
  }

  // Over every run: a passkey that is there under a persisted issuer has its identity if and only if
  // the challenge was made under a persisted issuer, or the first issuer ever written chose the
  // identity of the challenge.
  lemma PasskeyBoundIff(cfg: Config, w: World, steps: seq<Step>, row: nat)
    requires Inv(cfg, w) && row in Run(cfg, w, steps).db.passkeys && Run(cfg, w, steps).db.issuer.Some?
    ensures var db := Run(cfg, w, steps).db; var c := db.passkeys[row].challenge;
            && F.INITIAL_ISSUER_GENERATION in db.published
            && (db.issuer.value.identity == Some(c.identity) <==>
                  !c.unbacked || db.published[F.INITIAL_ISSUER_GENERATION] == Some(c.identity))
  {
    RunKeepsInv(cfg, w, steps);
    F.PasskeyBoundIff(Run(cfg, w, steps).db, cfg.bootstrap, row);
  }
}

// One run as it happened, and what is said of it. A moment is the run up to some step, so that of two
// moments of one run the earlier leads to the later, and whatever lies between them did happen.

module Moments {
  import opened Prelude
  import opened World
  import opened Runs
  import S = OneTimeStore
  import L = AttemptLimiter
  import F = FactorDatabase

  datatype Moment = Moment(cfg: Config, start: World, steps: seq<Step>)

  // The shared state at a moment.
  ghost function At(m: Moment): World {
    Run(m.cfg, m.start, m.steps)
  }

  ghost predicate Sound(m: Moment) {
    Inv(m.cfg, At(m))
  }

  // `b` is `a`, or a later moment of the same run.
  ghost predicate Leads(a: Moment, b: Moment) {
    a.cfg == b.cfg && a.start == b.start && a.steps <= b.steps
  }

  ghost function Onwards(m: Moment, steps: seq<Step>): Moment {
    m.(steps := m.steps + steps)
  }

  ghost function Next(m: Moment, call: CallId, a: Action): Moment {
    Onwards(m, [Step(call, a)])
  }

  lemma OnwardsRuns(m: Moment, steps: seq<Step>)
    ensures Leads(m, Onwards(m, steps)) && At(Onwards(m, steps)) == Run(m.cfg, At(m), steps)
  {
    RunConcat(m.cfg, m.start, m.steps, steps);
  }

  lemma NextApplies(m: Moment, call: CallId, a: Action)
    requires MayAct(m.cfg, At(m), call, a)
    ensures Leads(m, Next(m, call, a)) && At(Next(m, call, a)) == Apply(m.cfg, At(m), call, a)
  {
    var w := At(m);
    OnwardsRuns(m, [Step(call, a)]);
    assert Run(m.cfg, Execute(m.cfg, w, Step(call, a)), []) == Execute(m.cfg, w, Step(call, a));
  }

  lemma LeadsItself(m: Moment)
    ensures Leads(m, m)
  {
  }

  lemma LaterIsRun(a: Moment, b: Moment)
    requires Leads(a, b)
    ensures b == Onwards(a, b.steps[|a.steps|..]) && At(b) == Run(a.cfg, At(a), b.steps[|a.steps|..])
  {
    OnwardsRuns(a, b.steps[|a.steps|..]);
  }

  // What a later moment has kept of an earlier one.
  lemma LaterHasAdvanced(a: Moment, b: Moment)
    requires Sound(a) && Leads(a, b)
    ensures Sound(b) && At(a).now <= At(b).now && S.Follows(At(a).store, At(b).store) && StartsKept(At(a).starts, At(b).starts)
    ensures At(a).claims.log <= At(b).claims.log && F.Advances(At(a).db, At(b).db) && F.Valid(At(b).db)
  {
    LaterIsRun(a, b);
    RunAdvances(a.cfg, At(a), b.steps[|a.steps|..]);
    RunKeepsInv(a.cfg, At(a), b.steps[|a.steps|..]);
  }

  lemma TimeMoves(a: Moment, b: Moment)
    requires Sound(a) && Leads(a, b)
    ensures At(a).now <= At(b).now
  {
    LaterHasAdvanced(a, b);
  }

  // -- what was so at some moment ----------------------------------------------------------------

  // Something that a step has brought about or found, whatever the others do afterwards.
  datatype Fact =
    | NoPending(slot: PendingKey)
    | NotTakeable(key: S.Key, who: S.Claimant)
    | NoFailures(counter: L.Counter)
    | SecretReplaced(user: UserId, cipher: Bytes)
    | Stored(grant: S.Grant)
    | Present(grant: S.Grant)
    | Found(grant: S.Grant, ticket: nat, hash: string)
    | Taken(call: CallId, grant: S.Grant)
    | Pended(slot: PendingKey, value: Pending)
    | Started(ticket: nat, user: UserId, cipher: Bytes, seed: Bytes)
    | NoAccount(user: UserId)
    | Epoch(user: UserId, epoch: int)
    | Active(user: UserId, epoch: int)
    | DatabaseWas(db: F.Db)

  predicate Is(w: World, f: Fact) {
    match f
    case NoPending(slot) => slot !in w.pending
    case NotTakeable(key, who) => Takeable(w.store, key, who).None?
    case NoFailures(counter) => L.Failures(w.limiter, counter) == map[]
    case SecretReplaced(user, cipher) => !(user in w.db.totp && w.db.totp[user].secret == cipher)
    case Stored(g) => PutBack(w, g)
    case Present(g) => g.key in w.store.stored && w.store.stored[g.key].grant == g
    case Found(g, ticket, hash) => IsTicket(w, g, ticket, hash) && CurrentEpoch(w.db, g)
    case Taken(call, g) => call in w.store.held && w.store.held[call] == g && g.payload.LoginTicket? && CurrentEpoch(w.db, g)
    case Pended(slot, value) => slot in w.pending && w.pending[slot].value == value
    case Started(ticket, user, cipher, seed) => StartedOn(w, ticket, user, cipher, seed)
    case NoAccount(user) => user !in w.db.users
    case Epoch(user, epoch) => user in w.db.users && w.db.users[user].epoch == epoch
    case Active(user, epoch) => F.ActiveUserEpochMatches(w.db, user, epoch)
    case DatabaseWas(db) => w.db == db
  }

  // What a compare-and-delete would hand out.
  function Takeable(s: S.Store, key: S.Key, who: S.Claimant): Option<S.Grant> {
    if key in s.stored && S.Matches(s.stored[key].grant, who) then Some(s.stored[key].grant) else None
  }

  predicate IsTicket(w: World, g: S.Grant, ticket: nat, hash: string) {
    && S.Minted(w.store.minted, g)
    && g.payload.LoginTicket? && g.id == ticket && g.key == S.TicketKey(ticket)
    && S.Matches(g, S.Holder(hash))
  }

  // Back under its key, unless less than a second of its lifetime was left, or its key has been
  // given to a newer enrolment.
  predicate PutBack(w: World, g: S.Grant) {
    g.expires - w.now >= SECOND ==> g.key in w.store.stored && (g.key.TicketKey? ==> w.store.stored[g.key].grant == g)
  }

  // It was so at some moment between the two.
  ghost predicate Sometime(a: Moment, b: Moment, f: Fact) {
    exists m :: Leads(a, m) && Leads(m, b) && Is(At(m), f)
  }

  lemma SometimeAt(a: Moment, m: Moment, b: Moment, f: Fact)
    requires Leads(a, m) && Leads(m, b) && Is(At(m), f)
    ensures Sometime(a, b, f)
  {
  }

  // Between the two, the request of this lease recorded its attempt, and nothing but that, in the
  // limiter; and unless `until` had passed by then, it still had all its places.
  ghost predicate Charges(a: Moment, b: Moment, lease: L.Lease, limits: L.Limits, until: int) {
    exists m :: Leads(a, m) && Leads(Next(m, lease.token, Charge([lease], limits)), b) && Recorded(m, lease, limits, until)
  }

  ghost predicate Recorded(m: Moment, lease: L.Lease, limits: L.Limits, until: int) {
    L.AttemptRecorded(At(m).limiter, At(Next(m, lease.token, Charge([lease], limits))).limiter, lease, limits, At(m).now, until)
  }

  lemma ChargesAt(a: Moment, m: Moment, b: Moment, lease: L.Lease, limits: L.Limits, until: int)
    requires Leads(a, m) && Leads(Next(m, lease.token, Charge([lease], limits)), b) && Recorded(m, lease, limits, until)
    ensures Charges(a, b, lease, limits, until)
  {
  }

  // With the limits every process uses, the attempt is a failure in every one of its dimensions.
  lemma EveryCounterRises(a: Moment, b: Moment, lease: L.Lease, until: int)
    requires Sound(a) && Charges(a, b, lease, a.cfg.cap, until)
    ensures exists m ::
      && Leads(a, m) && Leads(Next(m, lease.token, Charge([lease], a.cfg.cap)), b)
      && (At(m).now < until ==> forall i :: 0 <= i < |lease.dimensions| ==>
            L.Place(lease.token, i + 1) in L.Failures(At(Next(m, lease.token, Charge([lease], a.cfg.cap))).limiter, lease.dimensions[i]))
  {
    hide At;
    var m :| Leads(a, m) && Leads(Next(m, lease.token, Charge([lease], a.cfg.cap)), b) && Recorded(m, lease, a.cfg.cap, until);
    LaterHasAdvanced(a, m);
  }

  lemma LeadingIsTransitive()
    ensures forall a, b :: Leads(a, b) ==> a.cfg == b.cfg
    ensures forall a, b :: Leads(a, b) && Sound(a) ==> Sound(b)
    ensures forall a, b, c :: Leads(a, b) && Leads(b, c) ==> Leads(a, c)
    ensures forall a, b, c, f :: Leads(a, b) && Sometime(b, c, f) ==> Sometime(a, c, f)
    ensures forall a, b, c, f :: Sometime(a, b, f) && Leads(b, c) ==> Sometime(a, c, f)
    ensures forall a, b, c, l, m, u :: Leads(a, b) && Charges(b, c, l, m, u) ==> Charges(a, c, l, m, u)
    ensures forall a, b, c, l, m, u :: Charges(a, b, l, m, u) && Leads(b, c) ==> Charges(a, c, l, m, u)
  {
    forall a, b | Leads(a, b) && Sound(a) ensures Sound(b) {
      LaterHasAdvanced(a, b);
    }
  }
}

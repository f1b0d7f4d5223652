// The two stores and the limiter as one shared state, and every atomic step a request can take on
// it. A run is any interleaving of any number of requests; each Redis command or script, and each
// PostgreSQL transaction, is one step.

module World {
  import opened Prelude
  import S = OneTimeStore
  import C = ReplayClaims
  import L = AttemptLimiter
  import F = FactorDatabase
  import V = SecretEnvelope

  // Key rings of all processes that share the stores, the loosest limits an operator may set, and
  // the WebAuthn identity the processes are configured with while no issuer has been persisted.
  datatype Config = Config(p: V.Primitives, rings: set<V.KeyRing>, cap: L.Limits, bootstrap: nat)

  ghost predicate Deployable(cfg: Config) {
    && (forall r :: r in cfg.rings ==> V.ValidRing(r) && V.Lawful(cfg.p, V.KeysOf(r)))
    && (forall r, q, kid :: r in cfg.rings && q in cfg.rings && V.Find(r.keys, kid).Some? && V.Find(q.keys, kid).Some? ==>
          V.Find(r.keys, kid) == V.Find(q.keys, kid))
  }

  // Whichever process opens `cipher`, it finds `plain`.
  predicate Reads(cfg: Config, cipher: Bytes, plain: Bytes) {
    forall r :: r in cfg.rings ==>
      var o := V.Decrypt(cfg.p, r, cipher);
      o.Plain? ==> o.secret == plain
  }

  datatype PendingKey = SetupKey(ticket: nat) | RegistrationKey(ticket: nat) | AuthenticationKey(ticket: nat)

  datatype Pending =
    | TotpSetup(user: UserId, cipher: Bytes)
    | PasskeyRegistration(user: UserId, challenge: Challenge)
    | PasskeyAuthentication(user: UserId, generation: int, rows: seq<(Bytes, nat)>)

  datatype PendingSlot = PendingSlot(value: Pending, deadline: int)

  // A winning `start_totp_enrollment`: the request, and the seed it returned.
  datatype Start = Start(ticket: nat, user: UserId, secret: Bytes, call: CallId)

  // `starts` and `charged` (requests that reported a failed attempt) are history.
  datatype World = World(
    now: int,
    store: S.Store,
    pending: map<PendingKey, PendingSlot>,
    starts: map<Bytes, Start>,
    claims: C.Claims,
    limiter: L.Limiter,
    charged: set<CallId>,
    db: F.Db)

  datatype Action =
    | Tick(later: int)
    | Issue(grant: S.Grant, issuedAt: int)
    | Take(key: S.Key, who: S.Claimant)
    | Forget
    | Complete
    | Restore(readAt: int)
    | Discard(discarded: S.Key)
    | Reserve(slot: PendingKey, value: Pending, secret: Bytes)
    | Drop(dropped: PendingKey)
    | Claim(user: UserId, step: nat, verifiedAt: int)
    | ClearReplay(user: UserId, steps: set<nat>)
    | Admit(dims: seq<L.Counter>, limits: L.Limits)
    | Charge(leases: seq<L.Lease>, limits: L.Limits)
    | Refund(leases: seq<L.Lease>)
    | ClearFailures(counter: L.Counter)
    | Write(op: F.Op)

  datatype Step = Step(call: CallId, action: Action)

  // -- what a request may do ------------------------------------------------------------------

  predicate SoundPayload(cfg: Config, published: map<int, Option<nat>>, p: S.Payload) {
    p.SessionEnrolment? ==>
      match p.material
      case Seed(cipher, plain) => Reads(cfg, cipher, plain)
      case Registration(challenge) => F.Captured(published, cfg.bootstrap, challenge)
  }

  predicate Reservable(cfg: Config, w: World, slot: PendingKey, value: Pending, secret: Bytes) {
    match value
    case TotpSetup(_, cipher) => slot.SetupKey? && cipher !in w.starts && Reads(cfg, cipher, secret)
    case PasskeyRegistration(_, challenge) => slot.RegistrationKey? && F.Captured(w.db.published, cfg.bootstrap, challenge)
    case PasskeyAuthentication(user, _, rows) =>
      slot.AuthenticationKey? && forall i :: 0 <= i < |rows| ==> BoundRow(w.db, user, rows[i].0, rows[i].1)
  }

  // Factor rows are only inserted by the request that took the ticket or enrolment they belong to,
  // with its user, its epoch and its secret.
  predicate MayWrite(cfg: Config, w: World, call: CallId, op: F.Op) {
    match op
    case InsertTotpIfEmpty(user, stamp, secret, seed) => HoldsTicket(w, call, user, stamp) && StartedOn(w, w.store.held[call].id, user, secret, seed)
    case InsertTotpForPasskeyRecovery(user, stamp, secret, seed) => HoldsTicket(w, call, user, stamp) && StartedOn(w, w.store.held[call].id, user, secret, seed)
    case InsertAuthenticatedTotp(user, stamp, secret, seed) => HoldsEnrolment(w, call, user, stamp, S.Seed(secret, seed))
    case UpdateTotpIfCurrent(user, current, replacement) =>
      user in w.db.totp && w.db.totp[user].secret == current ==> Reads(cfg, replacement, w.db.totp[user].seed)
    case InsertPasskeyIfEmpty(user, stamp, _, challenge) =>
      HoldsTicket(w, call, user, stamp) && F.Captured(w.db.published, cfg.bootstrap, challenge)
    case InsertAuthenticatedPasskey(user, stamp, _, challenge) =>
      HoldsEnrolment(w, call, user, stamp, S.Registration(challenge))
    case UpdatePasskey(_, _, _, _, _, _) => call in w.store.held && F.FreshMerge(w.db, op)
    case SetPolicy(_, readable) => exists r :: r in cfg.rings && readable == F.Readable(cfg.p, r, w.db)
    case SetIssuer(_, _, _, runtime, bootstrap) => w.db.issuer.None? ==> F.Baseline(w.db, runtime, bootstrap) == Some(cfg.bootstrap)
    case _ => true
  }

  predicate HoldsTicket(w: World, call: CallId, user: UserId, stamp: int) {
    call in w.store.held && w.store.held[call].payload.LoginTicket?
    && w.store.held[call].payload.user == user && w.store.held[call].payload.epoch == stamp
  }

  predicate HoldsEnrolment(w: World, call: CallId, user: UserId, stamp: int, material: S.Material) {
    call in w.store.held && w.store.held[call].payload.SessionEnrolment?
    && w.store.held[call].payload.owner == user && w.store.held[call].payload.stamp == stamp
    && w.store.held[call].payload.material == material
  }

  predicate StartedOn(w: World, ticket: nat, user: UserId, cipher: Bytes, seed: Bytes) {
    cipher in w.starts && w.starts[cipher].ticket == ticket && w.starts[cipher].user == user && w.starts[cipher].secret == seed
  }

  predicate OwnTokens(leases: seq<L.Lease>, call: CallId) {
    forall i :: 0 <= i < |leases| ==> leases[i].token == call
  }

  predicate MayAct(cfg: Config, w: World, call: CallId, a: Action) {
    match a
    case Tick(later) => w.now <= later
    case Issue(g, issuedAt) =>
      && g.id !in w.store.minted && S.WellKeyed(g)
      && issuedAt <= w.now && g.expires == issuedAt + S.TTL * SECOND
      && SoundPayload(cfg, w.db.published, g.payload)
    case Take(_, _) => call !in w.store.held
    case Forget => call in w.store.held
    case Complete => call in w.store.held
    case Restore(readAt) => call in w.store.held && readAt <= w.now
    case Discard(_) => true
    case Reserve(slot, value, secret) => Reservable(cfg, w, slot, value, secret)
    case Drop(_) => true
    case Claim(_, step, verifiedAt) => verifiedAt <= w.now && C.InWindow(step, verifiedAt)
    case ClearReplay(_, _) => true
    case Admit(_, limits) => L.NoLooser(limits, cfg.cap)
    case Charge(leases, _) => OwnTokens(leases, call)
    case Refund(leases) => OwnTokens(leases, call)
    case ClearFailures(_) => true
    case Write(op) => MayWrite(cfg, w, call, op)
  }

  // -- one step -----------------------------------------------------------------------------------

  // SET NX EX: the first writer's value stays until it is deleted or expires.
  function ReservePending(w: World, call: CallId, slot: PendingKey, value: Pending, secret: Bytes): (r: World)
    ensures slot in w.pending ==> r == w
    ensures slot !in w.pending ==> slot in r.pending && r.pending[slot].value == value
    ensures slot !in w.pending && value.TotpSetup? ==> StartedOn(r, slot.ticket, value.user, value.cipher, secret)
  {
    if slot in w.pending then w
    else
      w.(pending := w.pending[slot := PendingSlot(value, w.now + S.TTL * SECOND)],
         starts := if value.TotpSetup? then w.starts[value.cipher := Start(slot.ticket, value.user, secret, call)] else w.starts)
  }

  function Advance(w: World, later: int): World {
    w.(now := later,
       store := S.Expire(w.store, later),
       pending := map k | k in w.pending && w.pending[k].deadline > later :: w.pending[k])
  }

  function Apply(cfg: Config, w: World, call: CallId, a: Action): World
    requires MayAct(cfg, w, call, a)
  {
    match a
    case Tick(later) => Advance(w, later)
    case Issue(g, _) => w.(store := S.Issue(w.store, w.now, g))
    case Take(key, who) => w.(store := S.Take(w.store, call, key, who))
    case Forget => w.(store := S.Forget(w.store, call))
    case Complete => w.(store := S.Complete(w.store, call))
    case Restore(readAt) => w.(store := S.Restore(w.store, w.now, call, readAt))
    case Discard(key) => w.(store := S.Discard(w.store, key))
    case Reserve(slot, value, secret) => ReservePending(w, call, slot, value, secret)
    case Drop(slot) => w.(pending := w.pending - {slot})
    case Claim(user, step, verifiedAt) => w.(claims := C.Claim(w.claims, w.now, call, user, step, verifiedAt).0)
    case ClearReplay(user, steps) => w.(claims := C.Clear(w.claims, user, steps))
    case Admit(dims, limits) => w.(limiter := L.Reserve(w.limiter, dims, call, limits, w.now).0)
    case Charge(leases, limits) => w.(limiter := L.RecordAll(w.limiter, leases, limits, w.now).0, charged := w.charged + {call})
    case Refund(leases) => w.(limiter := L.ReleaseAll(w.limiter, leases))
    case ClearFailures(d) => w.(limiter := L.ClearFailures(w.limiter, d))
    case Write(op) => w.(db := F.Apply(w.db, op).0)
  }

  // A step a request is not entitled to does not happen.
  function Execute(cfg: Config, w: World, s: Step): World {
    if MayAct(cfg, w, s.call, s.action) then Apply(cfg, w, s.call, s.action) else w
  }

  function Run(cfg: Config, w: World, steps: seq<Step>): World
    decreases |steps|
  {
    if steps == [] then w else Run(cfg, Execute(cfg, w, steps[0]), steps[1..])
  }

  lemma {:induction false} RunConcat(cfg: Config, w: World, a: seq<Step>, b: seq<Step>)
    ensures Run(cfg, w, a + b) == Run(cfg, Run(cfg, w, a), b)
    decreases |a|
  {
    if a == [] {
      assert a + b == b;
    } else {
      RunConcat(cfg, Execute(cfg, w, a[0]), a[1..], b);
      assert (a + b)[0] == a[0] && (a + b)[1..] == a[1..] + b;
    }
  }

  // -- invariant ------------------------------------------------------------------------------

  ghost predicate SoundMinted(cfg: Config, minted: map<nat, S.Grant>, published: map<int, Option<nat>>) {
    forall id :: id in minted ==> SoundPayload(cfg, published, minted[id].payload)
  }

  ghost predicate SoundStarts(cfg: Config, starts: map<Bytes, Start>) {
    forall c :: c in starts ==> Reads(cfg, c, starts[c].secret)
  }

  predicate SoundPending(cfg: Config, slot: PendingKey, value: Pending, starts: map<Bytes, Start>, db: F.Db) {
    match value
    case TotpSetup(user, cipher) => slot.SetupKey? && cipher in starts && starts[cipher].ticket == slot.ticket && starts[cipher].user == user
    case PasskeyRegistration(_, challenge) => slot.RegistrationKey? && F.Captured(db.published, cfg.bootstrap, challenge)
    case PasskeyAuthentication(user, _, rows) =>
      slot.AuthenticationKey? && forall i :: 0 <= i < |rows| ==> BoundRow(db, user, rows[i].0, rows[i].1)
  }

  // A captured row id means that row, or no row at all, for ever.
  predicate BoundRow(db: F.Db, user: UserId, credentialId: Bytes, row: nat) {
    row < db.nextRow && (row in db.passkeys ==> db.passkeys[row].user == user && db.passkeys[row].credentialId == credentialId)
  }

  ghost predicate SoundSlots(cfg: Config, pending: map<PendingKey, PendingSlot>, starts: map<Bytes, Start>, db: F.Db) {
    forall k :: k in pending ==> SoundPending(cfg, k, pending[k].value, starts, db)
  }

  // Every stored TOTP secret opens to the seed it was confirmed with.
  ghost predicate Faithful(cfg: Config, totp: map<UserId, F.TotpRow>) {
    forall u :: u in totp ==> Reads(cfg, totp[u].secret, totp[u].seed)
  }

  ghost predicate Inv(cfg: Config, w: World) {
    && S.Conserved(w.store)
    && SoundMinted(cfg, w.store.minted, w.db.published)
    && SoundStarts(cfg, w.starts)
    && SoundSlots(cfg, w.pending, w.starts, w.db)
    && C.Valid(w.claims, w.now)
    && L.WithinCapacity(w.limiter, cfg.cap)
    && L.OnlyCharged(w.limiter, w.charged)
    && F.Valid(w.db) && F.IdentityTraced(w.db, cfg.bootstrap)
    && Faithful(cfg, w.db.totp)
  }

  // Nothing issued, nothing enrolled: where every run starts.
  function Fresh(now: int, users: map<UserId, F.User>): World {
    World(now, S.Store(map[], map[], map[], {}, map[]), map[], map[], C.Claims(map[], []), L.Limiter(map[], map[]), {},
          F.Db(users, map[], map[], 0, F.PolicyAbsent, None, map[]))
  }

  lemma FreshIsSound(cfg: Config, now: int, users: map<UserId, F.User>)
    ensures Inv(cfg, Fresh(now, users))
  {
    var l := Fresh(now, users).limiter;
    forall d: L.Counter ensures L.Load(l, d) <= L.LimitFor(cfg.cap, d.dimension) {
      assert L.Failures(l, d) == map[] && L.Pending(l, d) == map[];
    }
  }

  // Switching passkeys off locks nobody out: when it commits, every active account with a passkey
  // has a TOTP secret that the process classifies as available, that it opens, and that opens to the
  // seed the account was enrolled with.
  lemma DisablingLeavesNobodyLockedOut(cfg: Config, w: World, call: CallId, op: F.Op)
    requires Inv(cfg, w) && MayWrite(cfg, w, call, op)
    requires op.SetPolicy? && !op.enabled && F.Apply(w.db, op).1 == F.Stored
    ensures exists r :: r in cfg.rings && forall u :: F.ReliesOnPasskey(w.db, u) ==>
      && F.RecoverableWithout(cfg.p, r, w.db, u)
      && V.Classify(cfg.p, r, w.db.totp[u].secret) != V.Unavailable
      && V.Decrypt(cfg.p, r, w.db.totp[u].secret).secret == w.db.totp[u].seed
  {
    var r :| r in cfg.rings && op.readable == F.Readable(cfg.p, r, w.db);
    F.PasskeyOnlyIff(cfg.p, r, w.db);
    forall u | F.ReliesOnPasskey(w.db, u)
      ensures F.RecoverableWithout(cfg.p, r, w.db, u)
      ensures V.Classify(cfg.p, r, w.db.totp[u].secret) != V.Unavailable
      ensures V.Decrypt(cfg.p, r, w.db.totp[u].secret).secret == w.db.totp[u].seed
    {
      assert Reads(cfg, w.db.totp[u].secret, w.db.totp[u].seed);
      V.ClassifierAgrees(cfg.p, r, w.db.totp[u].secret);
    }
  }

  lemma WriteIsHonest(cfg: Config, w: World, call: CallId, op: F.Op)
    requires Inv(cfg, w) && MayWrite(cfg, w, call, op)
    ensures F.Honest(w.db, cfg.bootstrap, op)
  {
    if op.InsertAuthenticatedPasskey? {
      assert S.Minted(w.store.minted, w.store.held[call]);
      assert SoundPayload(cfg, w.db.published, w.store.minted[w.store.held[call].id].payload);
    }
  }

  lemma WriteKeepsFaithful(cfg: Config, w: World, call: CallId, op: F.Op)
    requires Inv(cfg, w) && MayWrite(cfg, w, call, op)
    ensures Faithful(cfg, F.Apply(w.db, op).0.totp)
  {
    hide Reads, C.Valid, L.WithinCapacity, L.OnlyCharged, F.Valid, F.IdentityTraced, SoundSlots;
    hide F.HasPasskey, F.CredentialTaken, F.Baseline, F.PasskeyOnlyAccount;
    if op.InsertAuthenticatedTotp? {
      assert S.Minted(w.store.minted, w.store.held[call]);
      assert SoundPayload(cfg, w.db.published, w.store.minted[w.store.held[call].id].payload);
    }
  }

  lemma AdvancingKeepsSound(cfg: Config, w: World, db: F.Db)
    requires SoundMinted(cfg, w.store.minted, w.db.published) && SoundSlots(cfg, w.pending, w.starts, w.db)
    requires F.Advances(w.db, db)
    ensures SoundMinted(cfg, w.store.minted, db.published) && SoundSlots(cfg, w.pending, w.starts, db)
  {
    forall k | k in w.pending ensures SoundPending(cfg, k, w.pending[k].value, w.starts, db) {
      assert SoundPending(cfg, k, w.pending[k].value, w.starts, w.db);
    }
  }

  lemma WriteKeepsInv(cfg: Config, w: World, call: CallId, op: F.Op)
    requires Inv(cfg, w) && MayWrite(cfg, w, call, op)
    ensures Inv(cfg, w.(db := F.Apply(w.db, op).0)) && F.Advances(w.db, F.Apply(w.db, op).0)
  {
    WriteIsHonest(cfg, w, call, op);
    F.ApplyKeepsValid(w.db, op);
    F.ApplyKeepsIdentityTraced(w.db, cfg.bootstrap, op);
    F.ApplyAdvances(w.db, op);
    AdvancingKeepsSound(cfg, w, F.Apply(w.db, op).0);
    WriteKeepsFaithful(cfg, w, call, op);
  }

  predicate OnStore(a: Action) {
    a.Issue? || a.Take? || a.Forget? || a.Complete? || a.Restore? || a.Discard?
  }

  predicate OnLimiter(a: Action) {
    a.Admit? || a.Charge? || a.Refund? || a.ClearFailures?
  }

  lemma StoreStepKeepsInv(cfg: Config, w: World, call: CallId, a: Action)
    requires Inv(cfg, w) && MayAct(cfg, w, call, a) && OnStore(a)
    ensures Inv(cfg, Apply(cfg, w, call, a))
  {
    var r := Apply(cfg, w, call, a);
    if a.Issue? { S.IssueConserves(w.store, w.now, a.grant); }
    assert S.Conserved(r.store);
    assert SoundMinted(cfg, r.store.minted, w.db.published);
  }

  lemma LimiterStepKeepsCapacity(cfg: Config, w: World, call: CallId, a: Action)
    requires MayAct(cfg, w, call, a) && OnLimiter(a) && L.WithinCapacity(w.limiter, cfg.cap)
    ensures L.WithinCapacity(Apply(cfg, w, call, a).limiter, cfg.cap)
  {
    match a
    case Admit(dims, limits) => L.ReserveKeepsCapacity(w.limiter, dims, call, limits, w.now, cfg.cap);
    case Charge(leases, limits) => L.CommitLightens(w.limiter, leases, limits, w.now);
    case Refund(leases) => L.ReleaseLightens(w.limiter, leases);
    case ClearFailures(d) => L.ClearingLightens(w.limiter, d);
  }

  // A failure on record was reported by the request it is named after.
  lemma LimiterStepKeepsCharged(cfg: Config, w: World, call: CallId, a: Action)
    requires MayAct(cfg, w, call, a) && OnLimiter(a) && L.OnlyCharged(w.limiter, w.charged)
    ensures L.OnlyCharged(Apply(cfg, w, call, a).limiter, Apply(cfg, w, call, a).charged)
  {
    match a
    case Admit(dims, limits) => L.ReserveChargesNobody(w.limiter, dims, call, limits, w.now);
    case Charge(leases, limits) =>
      var r := Apply(cfg, w, call, a);
      L.CommitChargesItsTokens(w.limiter, leases, limits, w.now);
      forall d, p | p in L.Failures(r.limiter, d) ensures p.token in r.charged {
        if p.token != call { assert L.OwnsNone(leases, p.token); }
      }
    case Refund(leases) => L.ReleaseChargesNobody(w.limiter, leases);
    case ClearFailures(d) => L.ClearingChargesNobody(w.limiter, d);
  }

  lemma LimiterStepKeepsInv(cfg: Config, w: World, call: CallId, a: Action)
    requires Inv(cfg, w) && MayAct(cfg, w, call, a) && OnLimiter(a)
    ensures Inv(cfg, Apply(cfg, w, call, a))
  {
    hide L.WithinCapacity, L.OnlyCharged, SoundMinted, SoundStarts, SoundSlots, Faithful;
    LimiterStepKeepsCapacity(cfg, w, call, a);
    LimiterStepKeepsCharged(cfg, w, call, a);
  }

  lemma PendingStepKeepsInv(cfg: Config, w: World, call: CallId, a: Action)
    requires Inv(cfg, w) && MayAct(cfg, w, call, a) && (a.Reserve? || a.Drop?)
    ensures Inv(cfg, Apply(cfg, w, call, a))
  {
    var r := Apply(cfg, w, call, a);
    forall k | k in r.pending ensures SoundPending(cfg, k, r.pending[k].value, r.starts, r.db) {
      if a.Reserve? && k == a.slot && k !in w.pending {
        assert r.pending[k].value == a.value;
      } else {
        assert SoundPending(cfg, k, w.pending[k].value, w.starts, w.db);
      }
    }
  }

  lemma TickKeepsInv(cfg: Config, w: World, call: CallId, a: Action)
    requires Inv(cfg, w) && MayAct(cfg, w, call, a) && a.Tick?
    ensures Inv(cfg, Apply(cfg, w, call, a))
  {
    C.TimeKeepsValid(w.claims, w.now, a.later);
  }

  lemma ClaimStepKeepsInv(cfg: Config, w: World, call: CallId, a: Action)
    requires Inv(cfg, w) && MayAct(cfg, w, call, a) && (a.Claim? || a.ClearReplay?)
    ensures Inv(cfg, Apply(cfg, w, call, a))
  {
    match a
    case Claim(user, step, verifiedAt) => C.ClaimKeepsValid(w.claims, w.now, call, user, step, verifiedAt);
    case ClearReplay(user, steps) => C.ClearKeepsValid(w.claims, w.now, user, steps);
  }

  lemma StepKeepsInv(cfg: Config, w: World, s: Step)
    requires Inv(cfg, w)
    ensures Inv(cfg, Execute(cfg, w, s))
  {
    var a := s.action;
    if MayAct(cfg, w, s.call, a) {
      if OnStore(a) { StoreStepKeepsInv(cfg, w, s.call, a); }
      else if OnLimiter(a) { LimiterStepKeepsInv(cfg, w, s.call, a); }
      else if a.Reserve? || a.Drop? { PendingStepKeepsInv(cfg, w, s.call, a); }
      else if a.Tick? { TickKeepsInv(cfg, w, s.call, a); }
      else if a.Claim? || a.ClearReplay? { ClaimStepKeepsInv(cfg, w, s.call, a); }
      else { WriteKeepsInv(cfg, w, s.call, a.op); }
    }
  }

  // Every run, of any requests in any order, keeps the whole invariant.
  lemma {:induction false} RunKeepsInv(cfg: Config, w: World, steps: seq<Step>)
    requires Inv(cfg, w)
    ensures Inv(cfg, Run(cfg, w, steps))
    decreases |steps|
  {
    if steps != [] {
      StepKeepsInv(cfg, w, steps[0]);
      RunKeepsInv(cfg, Execute(cfg, w, steps[0]), steps[1..]);
    }
  }
}

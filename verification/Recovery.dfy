// Removing a factor, by its owner or by an administrator, and the key health of the stored seeds
// (src/auth_factors/recovery.rs).

module Recovery {
  import opened Prelude
  import opened World
  import opened Runs
  import opened Moments
  import opened AuthFactorService
  import L = AttemptLimiter
  import F = FactorDatabase
  import Transactions
  import V = SecretEnvelope

  // The transaction of a reset as one step among others. Removed: at the moment of the commit the
  // factor is gone and fenced behind the next epoch.
  method CommitReset(s: Service, me: CallId, user: UserId, factor: FactorMethod)
    returns (r: Result<F.Outcome>, ghost seen: Moment, ghost at: Moment)
    requires s.Valid() && Stands(me, s.w, IDLE)
    modifies s
    ensures s.Valid() && Stands(me, s.w, IDLE) && seen == old(s.here)
    ensures Leads(seen, at) && Leads(at, s.here)
    ensures r.Ok? && r.value.Removed? ==> Reset(At(seen).db, At(at).db, user, factor)
    ensures r.Ok? && !r.value.Removed? ==> At(at).db == At(seen).db
    ensures r.Err? ==> at == seen
  {
    hide Inv, Stands, Leads, At, Rely, Reset;
    seen, at := s.here, s.here;
    LeadsItself(s.here);
    var unavailable: bool := *;
    if unavailable {
      return Err(DatabaseUnavailable), seen, at;
    }
    var op := F.ResetFactor(user, factor);
    var transaction := new Transactions.Transaction(s.w.db);
    var outcome := transaction.ResetFactor(user, factor);
    s.Act(me, Write(op));
    at := Next(seen, me, Write(op));
    ResettingStands(s.cfg, At(seen), me, op);
    ResettingResets(At(seen).db, user, factor);
    RelyKeepsStanding(me, At(at), s.w, IDLE);
    return Ok(outcome), seen, at;
  }

  // Gone, fenced behind the next epoch, and every other account and factor as it was.
  ghost predicate Reset(a: F.Db, b: F.Db, user: UserId, factor: FactorMethod) {
    && user in a.users
    && F.NoRow(b, user, factor) && F.Fenced(b, user, factor, a.users[user].epoch + 1)
    && F.OthersKept(a, b, user, factor)
    && b.users == a.users[user := a.users[user].(epoch := a.users[user].epoch + 1)]
  }

  lemma ResettingResets(db: F.Db, user: UserId, factor: FactorMethod)
    ensures var (after, o) := F.Apply(db, F.ResetFactor(user, factor));
            if o.Removed? then Reset(db, after, user, factor) else after == db
  {
    F.RemovalIsAtomic(db, F.ResetFactor(user, factor));
  }

  // The whole reset: the clean-up of counters and replay claims follows the commit. Either may fail,
  // and the answer is the commit's all the same.
  method ResetFactorOf(s: Service, me: CallId, user: UserId, factor: FactorMethod)
    returns (r: Result<F.Outcome>, ghost cleared: Result<()>, ghost seen: Moment, ghost at: Moment)
    requires s.Valid() && Stands(me, s.w, IDLE)
    modifies s
    ensures s.Valid() && Stands(me, s.w, IDLE) && seen == old(s.here)
    ensures Leads(seen, at) && Leads(at, s.here)
    ensures r.Ok? && r.value.Removed? ==>
      && Reset(At(seen).db, At(at).db, user, factor)
      && (cleared.Ok? ==> Sometime(at, s.here, NoFailures(L.Counter(L.Account, s.email(user)))))
      && (cleared == Err(ServiceError.UserNotFound) ==> Sometime(at, s.here, NoAccount(user)))
    ensures r.Ok? && !r.value.Removed? ==> At(at).db == At(seen).db
    ensures r.Err? ==> at == seen
  {
    hide Inv, Stands, Leads, Sometime, Reset;
    LeadingIsTransitive();
    cleared := Ok(());
    r, seen, at := CommitReset(s, me, user, factor);
    if r.Ok? && r.value.Removed? {
      cleared := ClearAccountFailures(s, me, user);
      if factor.Totp? {
        var _, _, _ := ClearReplayClaims(s, me, user);
      }
    }
  }

  // The counter is named after the account's address, so the account must still be there.
  method ClearAccountFailures(s: Service, me: CallId, user: UserId) returns (r: Result<()>)
    requires s.Valid() && Stands(me, s.w, IDLE)
    modifies s
    ensures s.Valid() && Stands(me, s.w, IDLE) && Leads(old(s.here), s.here)
    ensures r.Ok? ==> Sometime(old(s.here), s.here, NoFailures(L.Counter(L.Account, s.email(user))))
    ensures r == Err(ServiceError.UserNotFound) ==> Sometime(old(s.here), s.here, NoAccount(user))
  {
    hide Inv, Stands, Leads, Sometime;
    LeadingIsTransitive();
    ghost var before := s.here;
    LeadsItself(before);
    var account := s.AccountKey(me, user, IDLE);
    if account == Err(ServiceError.UserNotFound) { SometimeAt(before, before, s.here, NoAccount(user)); }
    if account.Err? { return Err(account.error); }
    var unavailable: bool := *;
    if unavailable { return Err(RedisUnavailable); }
    s.ClearFailures(me, L.Counter(L.Account, account.value), IDLE);
    return Ok(());
  }

  lemma ResettingStands(cfg: Config, w: World, me: CallId, op: F.Op)
    requires MayAct(cfg, w, me, Write(op)) && Stands(me, w, IDLE)
    ensures Stands(me, Apply(cfg, w, me, Write(op)), IDLE)
    ensures Apply(cfg, w, me, Write(op)).db == F.Apply(w.db, op).0
  {
  }

  // SCAN in pages, then one DEL: whatever the user had claimed before the call is gone after it, and
  // the deletion leaves the claims of other users alone. Claims made between two pages may survive.
  // When a page or the deletion fails, nothing has been deleted.
  method ClearReplayClaims(s: Service, me: CallId, user: UserId) returns (r: Result<()>, ghost before: Moment, ghost after: Moment)
    requires s.Valid() && Stands(me, s.w, IDLE)
    modifies s
    ensures s.Valid() && Stands(me, s.w, IDLE)
    ensures Leads(old(s.here), before) && Leads(before, after) && Leads(after, s.here)
    ensures r.Ok? ==> forall k :: k in old(s.w).claims.deadlines && k.0 == user ==> k !in At(after).claims.deadlines
    ensures forall k :: k in At(before).claims.deadlines && k.0 != user ==>
      k in At(after).claims.deadlines && At(after).claims.deadlines[k] == At(before).claims.deadlines[k]
    ensures r.Err? ==> after == before
  {
    hide Inv, Stands, Leads, Rely;
    LeadingIsTransitive();
    ghost var start := s.here;
    var steps := StepsOf(s.w, user);
    s.Pause(me, IDLE);
    var pages: nat := *;
    var unavailable: bool := *;
    while pages > 0 && !unavailable
      invariant s.Valid() && Stands(me, s.w, IDLE) && Leads(start, s.here) && StepsOf(At(start), user) <= steps
    {
      steps := steps + StepsOf(s.w, user);
      s.Pause(me, IDLE);
      pages := pages - 1;
      unavailable := *;
    }
    before, after := s.here, s.here;
    LeadsItself(s.here);
    if unavailable {
      return Err(RedisUnavailable), before, after;
    }
    if steps != {} {
      s.Act(me, ClearReplay(user, steps));
      after := Next(before, me, ClearReplay(user, steps));
      ClearingStands(s.cfg, At(before), me, user, steps);
      RelyKeepsStanding(me, At(after), s.w, IDLE);
    }
    forall k | k in At(start).claims.deadlines && k.0 == user ensures k !in At(after).claims.deadlines {
      assert k.1 in StepsOf(At(start), user);
    }
    return Ok(()), before, after;
  }

  // The steps a user has claimed.
  function StepsOf(w: World, user: UserId): set<nat> {
    set k | k in w.claims.deadlines && k.0 == user :: k.1
  }

  lemma ClearingStands(cfg: Config, w: World, me: CallId, user: UserId, steps: set<nat>)
    requires Stands(me, w, IDLE)
    ensures Stands(me, Apply(cfg, w, me, ClearReplay(user, steps)), IDLE)
  {
  }

  // -- key health --------------------------------------------------------------------------------

  datatype KeyHealth = KeyHealth(total: int, scanned: nat, current: nat, rotatable: nat, legacy: nat, unavailable: nat, truncated: bool)

  function Count(states: seq<V.KeyState>, k: V.KeyState): nat {
    if states == [] then 0 else Count(states[..|states| - 1], k) + if states[|states| - 1] == k then 1 else 0
  }

  lemma {:induction false} CountsAddUp(states: seq<V.KeyState>)
    ensures Count(states, V.Current) + Count(states, V.Rotatable) + Count(states, V.Legacy) + Count(states, V.Unavailable) == |states|
  {
    if states != [] { CountsAddUp(states[..|states| - 1]); }
  }

  // `from_states`: every state is counted once, and the result says whether any were left out.
  method FromStates(total: int, states: seq<V.KeyState>) returns (h: KeyHealth)
    ensures h.current == Count(states, V.Current) && h.rotatable == Count(states, V.Rotatable)
    ensures h.legacy == Count(states, V.Legacy) && h.unavailable == Count(states, V.Unavailable)
    ensures h.scanned == h.current + h.rotatable + h.legacy + h.unavailable == |states|
    ensures h.total == total && (h.truncated <==> total > |states|)
  {
    h := KeyHealth(total, 0, 0, 0, 0, 0, false);
    var i := 0;
    while i < |states|
      invariant 0 <= i <= |states| && h.total == total && h.scanned == i
      invariant h.current == Count(states[..i], V.Current) && h.rotatable == Count(states[..i], V.Rotatable)
      invariant h.legacy == Count(states[..i], V.Legacy) && h.unavailable == Count(states[..i], V.Unavailable)
    {
      assert states[..i + 1][..i] == states[..i];
      h := h.(scanned := h.scanned + 1);
      match states[i] {
        case Current => h := h.(current := h.current + 1);
        case Rotatable => h := h.(rotatable := h.rotatable + 1);
        case Legacy => h := h.(legacy := h.legacy + 1);
        case Unavailable => h := h.(unavailable := h.unavailable + 1);
      }
      i := i + 1;
    }
    assert states[..i] == states;
    CountsAddUp(states);
    h := h.(truncated := total > h.scanned);
  }
}

// Writing back the result of a verified assertion: a bounded compare-and-swap that re-reads and
// re-merges after every conflict (src/auth_factors/repository_passkey.rs:9, 233-324).

module PasskeyRepository {
  import opened Prelude
  import opened World
  import opened Moments
  import opened AuthFactorService
  import F = FactorDatabase

  const CAS_ATTEMPTS: nat := 8

  datatype PersistOutcome = Applied | AlreadyCurrent | RowMissing | Exhausted

  // The row is gone, or is not that credential's, or the result is another credential's.
  predicate NotThatCredential(db: F.Db, user: UserId, row: nat, credentialId: Bytes, result: F.AuthenticationResult) {
    || row !in db.passkeys
    || db.passkeys[row].user != user
    || db.passkeys[row].credentialId != credentialId
    || result.id != credentialId
  }

  // One write: the merge of the current credential, and nothing else in the database.
  ghost predicate AtomicMerge(a: F.Db, b: F.Db, row: nat, result: F.AuthenticationResult) {
    && row in a.passkeys && row in b.passkeys
    && F.Merge(a.passkeys[row].credential, result) == Some((b.passkeys[row].credential, true))
    && b.passkeys[row].version == a.passkeys[row].version + 1
    && b.passkeys[row].credential.counter >= result.counter
    && b.passkeys[row].credential.counter >= a.passkeys[row].credential.counter
    && b == a.(passkeys := a.passkeys[row := b.passkeys[row]])
  }

  // Nothing left to write: the authenticator asked for no update, or the row already shows it.
  predicate Current(db: F.Db, user: UserId, row: nat, result: F.AuthenticationResult) {
    && row in db.passkeys && db.passkeys[row].user == user
    && (result.needsUpdate ==> F.Merge(db.passkeys[row].credential, result) == Some((db.passkeys[row].credential, false)))
  }

  // What each outcome says about the row; `seen` and `at` are two moments of the call.
  ghost predicate Justified(o: PersistOutcome, seen: F.Db, at: F.Db, user: UserId, row: nat, credentialId: Bytes, result: F.AuthenticationResult) {
    match o
    case Applied => AtomicMerge(seen, at, row, result) && at.passkeys[row].user == user && at.passkeys[row].credentialId == credentialId
    case AlreadyCurrent => Current(at, user, row, result)
    case RowMissing => NotThatCredential(at, user, row, credentialId, result)
    case Exhausted => Advanced(seen, at, row, CAS_ATTEMPTS)
  }

  // A row that was read and later still carries the version that was read is unchanged, so the
  // merge computed from the reading is the merge of the current row.
  lemma UnchangedVersionIsFresh(a: F.Db, b: F.Db, op: F.Op)
    requires F.Valid(a) && F.Advances(a, b) && op.UpdatePasskey?
    requires op.row in a.passkeys && a.passkeys[op.row].version == op.version
    requires F.Merge(a.passkeys[op.row].credential, op.result) == Some((op.credential, true))
    ensures F.FreshMerge(b, op)
  {
    if op.row in b.passkeys {
      assert F.Evolves(a.passkeys[op.row], b.passkeys[op.row]);
    }
  }

  // A swap that missed a row which still exists was beaten by another writer.
  lemma MissedSwapWasBeaten(read: F.Db, swap: F.Db, check: F.Db, op: F.Op)
    requires F.Valid(read) && F.Advances(read, swap) && F.Advances(swap, check) && op.UpdatePasskey?
    requires op.row in read.passkeys && op.row in check.passkeys
    requires read.passkeys[op.row].user == op.user && read.passkeys[op.row].credentialId == op.credentialId
    requires read.passkeys[op.row].version == op.version
    requires F.Apply(swap, op).1 == F.Untouched
    ensures check.passkeys[op.row].version >= op.version + 1
  {
    assert op.row in swap.passkeys && F.Evolves(read.passkeys[op.row], swap.passkeys[op.row]);
    assert F.Evolves(swap.passkeys[op.row], check.passkeys[op.row]);
  }

  lemma HitSwapIsMerge(db: F.Db, op: F.Op)
    requires op.UpdatePasskey? && F.FreshMerge(db, op) && F.Apply(db, op).1 == F.Updated
    ensures Justified(Applied, db, F.Apply(db, op).0, op.user, op.row, op.credentialId, op.result)
  {
    F.SwapIsAtomicMerge(db, op);
  }

  ghost predicate Advanced(a: F.Db, b: F.Db, row: nat, writes: nat) {
    row in a.passkeys && row in b.passkeys && b.passkeys[row].version >= a.passkeys[row].version + writes
  }

  lemma AdvancedFurther(a: F.Db, b: F.Db, c: F.Db, d: F.Db, row: nat, writes: nat)
    requires F.Valid(b) && Advanced(a, b, row, writes) && F.Advances(b, c) && Advanced(c, d, row, 1)
    ensures Advanced(a, d, row, writes + 1)
  {
    assert F.Evolves(b.passkeys[row], c.passkeys[row]);
  }

  method UpdatePasskey(s: Service, me: CallId, op: F.Op, ghost st: Standing) returns (r: Result<F.Outcome>, ghost seen: Moment, ghost at: Moment)
    requires s.Valid() && Stands(me, s.w, st) && st.held.Some?
    requires op.UpdatePasskey? && F.FreshMerge(s.w.db, op)
    modifies s
    ensures s.Valid() && Stands(me, s.w, st)
    ensures seen == old(s.here) && Leads(seen, at) && Leads(at, s.here)
    ensures r.Ok? ==> r.value in {F.Updated, F.Untouched, F.Missing}
    ensures r == Ok(F.Updated) ==> F.Apply(At(seen).db, op) == (At(at).db, F.Updated)
    ensures r == Ok(F.Missing) ==> op.row !in At(at).db.passkeys || At(at).db.passkeys[op.row].user != op.user
    ensures r == Ok(F.Untouched) ==> op.row in At(at).db.passkeys && F.Apply(At(seen).db, op).1 == F.Untouched
  {
    hide At, Leads;
    seen, at := s.here, s.here;
    LeadsItself(s.here);
    var unavailable: bool := *;
    if unavailable {
      return Err(DatabaseUnavailable), seen, at;
    }
    var outcome := F.Apply(s.w.db, op).1;
    s.Act(me, Write(op));
    at := Next(seen, me, Write(op));
    RelyKeepsStanding(me, At(at), s.w, st);
    if outcome == F.Updated {
      return Ok(F.Updated), seen, at;
    }
    at := s.here;
    LeadsItself(s.here);
    var present := op.row in s.w.db.passkeys && s.w.db.passkeys[op.row].user == op.user;
    s.Pause(me, st);
    return Ok(if present then F.Untouched else F.Missing), seen, at;
  }

  // One round: read the row, merge, swap. None is a conflict, to be retried.
  method AttemptUpdate(s: Service, me: CallId, user: UserId, row: nat, credentialId: Bytes, result: F.AuthenticationResult, ghost st: Standing)
    returns (r: Result<Option<PersistOutcome>>, ghost seen: Moment, ghost at: Moment)
    requires s.Valid() && Stands(me, s.w, st) && st.held.Some?
    modifies s
    ensures s.Valid() && Stands(me, s.w, st)
    ensures Leads(old(s.here), seen) && Leads(seen, at) && Leads(at, s.here)
    ensures r.Ok? && r.value.Some? ==> !r.value.value.Exhausted? && Justified(r.value.value, At(seen).db, At(at).db, user, row, credentialId, result)
    ensures r == Ok(None) ==> row in At(seen).db.passkeys && row in At(at).db.passkeys && At(at).db.passkeys[row].version > At(seen).db.passkeys[row].version
  {
    hide Stands, Leads, At, Deployable, SoundMinted, SoundStarts, SoundSlots, Faithful;
    hide F.Apply, F.FreshMerge, F.Advances, F.IdentityTraced, AtomicMerge, Sometime, Charges, SoundPending, At;
    LeadingIsTransitive();
    ghost var read := s.here;
    LeadsItself(s.here);
    var stored := if row in s.w.db.passkeys && s.w.db.passkeys[row].user == user then Some(s.w.db.passkeys[row]) else None;
    var unavailable: bool := *;
    s.Pause(me, st);
    if unavailable {
      return Err(DatabaseUnavailable), read, read;
    }
    if stored.None? || stored.value.credentialId != credentialId {
      return Ok(Some(RowMissing)), read, read;
    }
    if !result.needsUpdate {
      return Ok(Some(AlreadyCurrent)), read, read;
    }
    var merged := F.Merge(stored.value.credential, result);
    if merged.None? {
      assert result.id != credentialId;
      return Ok(Some(RowMissing)), read, read;
    }
    if !merged.value.1 {
      return Ok(Some(AlreadyCurrent)), read, read;
    }
    var op := F.UpdatePasskey(user, row, credentialId, stored.value.version, merged.value.0, result);
    ghost var swap := s.here;
    LaterHasAdvanced(read, swap);
    UnchangedVersionIsFresh(At(read).db, At(swap).db, op);
    var outcome;
    outcome, seen, at := UpdatePasskey(s, me, op, st);
    if outcome.Ok? && outcome.value == F.Untouched {
      LaterHasAdvanced(swap, at);
      MissedSwapWasBeaten(At(read).db, At(swap).db, At(at).db, op);
      return Ok(None), read, at;
    }
    if outcome.Ok? && outcome.value == F.Updated {
      HitSwapIsMerge(At(swap).db, op);
      return Ok(Some(Applied)), seen, at;
    }
    return if outcome.Err? then Err(outcome.error) else Ok(Some(RowMissing)), seen, at;
  }

  // `Exhausted` only after other writers advanced the row at least eight times since it was first
  // read; `RowMissing` only when there is no such row of that credential.
  method PersistPasskeyAuthentication(s: Service, me: CallId, user: UserId, row: nat, credentialId: Bytes, result: F.AuthenticationResult, ghost st: Standing)
    returns (r: Result<PersistOutcome>, ghost seen: Moment, ghost at: Moment)
    requires s.Valid() && Stands(me, s.w, st) && st.held.Some?
    modifies s
    ensures s.Valid() && Stands(me, s.w, st)
    ensures Leads(old(s.here), seen) && Leads(seen, at) && Leads(at, s.here)
    ensures r.Ok? ==> Justified(r.value, At(seen).db, At(at).db, user, row, credentialId, result)
  {
    hide Inv, Stands, Leads, AtomicMerge, Current, At, Sometime, Charges;
    LeadingIsTransitive();
    ghost var before := s.here;
    seen, at := s.here, s.here;
    LeadsItself(s.here);
    var attempt := 0;
    while attempt < CAS_ATTEMPTS
      invariant attempt <= CAS_ATTEMPTS
      invariant s.Valid() && Stands(me, s.w, st) && Sound(seen)
      invariant Leads(before, seen) && Leads(seen, at) && Leads(at, s.here)
      invariant attempt > 0 ==> Advanced(At(seen).db, At(at).db, row, attempt)
    {
      ghost var entry := s.here;
      var outcome, read, last := AttemptUpdate(s, me, user, row, credentialId, result, st);
      if outcome.Err? {
        return Err(outcome.error), read, last;
      }
      if outcome.value.Some? {
        return Ok(outcome.value.value), read, last;
      }
      LaterHasAdvanced(seen, at);
      LaterHasAdvanced(at, read);
      if attempt == 0 {
        seen := read;
        at := last;
        LaterHasAdvanced(entry, read);
      } else {
        AdvancedFurther(At(seen).db, At(at).db, At(read).db, At(last).db, row, attempt);
        at := last;
      }
      attempt := attempt + 1;
    }
    return Ok(Exhausted), seen, at;
  }
}

// One-time use of a TOTP step (section 5.2 of RFC 6238): whichever request first sets the claim
// key of a (user, step) pair owns that step, and the key expires two minutes later.
// (src/auth_factors/store.rs:14-16, 386-434)

module ReplayClaims {
  import opened Prelude
  import TotpCode

  const CLAIM_TTL: int := 120 * SECOND
  const STEP: int := TotpCode.STEP_SECONDS * SECOND
  // The longest verify-to-claim delay under which a claim still outlives its code.
  const SAFE_DELAY: int := 30 * SECOND

  datatype Event =
    | Granted(call: CallId, user: UserId, step: nat, verifiedAt: int, at: int)
    | Cleared(who: UserId)

  // `log` is history: every granted claim and every replay clear, oldest first.
  datatype Claims = Claims(deadlines: map<(UserId, nat), int>, log: seq<Event>)

  // The instants at which a code for `step` is accepted.
  predicate InWindow(step: nat, t: int) {
    t >= 0 && step - TotpCode.SKEW <= t / STEP <= step + TotpCode.SKEW
  }

  predicate Claimed(c: Claims, now: int, user: UserId, step: nat) {
    (user, step) in c.deadlines && c.deadlines[(user, step)] > now
  }

  // SET NX EX 120.
  function Claim(c: Claims, now: int, call: CallId, user: UserId, step: nat, verifiedAt: int): (Claims, bool) {
    if Claimed(c, now, user, step) then (c, false)
    else (Claims(c.deadlines[(user, step) := now + CLAIM_TTL], c.log + [Granted(call, user, step, verifiedAt, now)]), true)
  }

  // SCAN, then DEL of whatever keys of the user the scan returned.
  function Clear(c: Claims, user: UserId, steps: set<nat>): Claims {
    Claims(c.deadlines - (set k | k in c.deadlines && k.0 == user && k.1 in steps), c.log + [Cleared(user)])
  }

  ghost predicate ClearedAfter(log: seq<Event>, user: UserId, from: nat, to: nat)
    requires to <= |log|
  {
    exists k :: from < k < to && log[k] == Cleared(user)
  }

  predicate SameStep(a: Event, b: Event) {
    a.Granted? && b.Granted? && a.user == b.user && a.step == b.step
  }

  ghost predicate WellTimed(log: seq<Event>, now: int) {
    forall i :: 0 <= i < |log| && log[i].Granted? ==>
      log[i].verifiedAt <= log[i].at <= now && InWindow(log[i].step, log[i].verifiedAt)
  }

  // A grant that was not cleared is still covered by its key, or is already 120 s old.
  ghost predicate Covered(c: Claims, now: int) {
    forall i :: 0 <= i < |c.log| && c.log[i].Granted? && !ClearedAfter(c.log, c.log[i].user, i, |c.log|) ==>
      || c.log[i].at + CLAIM_TTL <= now
      || ((c.log[i].user, c.log[i].step) in c.deadlines && c.deadlines[(c.log[i].user, c.log[i].step)] >= c.log[i].at + CLAIM_TTL)
  }

  // Two grants of one step with no clear between them are a full claim lifetime apart.
  ghost predicate Spaced(log: seq<Event>) {
    forall i, j :: 0 <= i < j < |log| && SameStep(log[i], log[j]) && !ClearedAfter(log, log[i].user, i, j) ==>
      log[i].at + CLAIM_TTL <= log[j].at
  }

  ghost predicate Valid(c: Claims, now: int) {
    WellTimed(c.log, now) && Covered(c, now) && Spaced(c.log)
  }

  lemma ClearedAfterExtends(log: seq<Event>, e: Event, user: UserId, i: nat, j: nat)
    requires i <= j <= |log|
    ensures ClearedAfter(log, user, i, j) <==> ClearedAfter(log + [e], user, i, j)
    ensures i < |log| ==> (ClearedAfter(log + [e], user, i, |log| + 1) <==> ClearedAfter(log, user, i, |log|) || e == Cleared(user))
  {
    var next := log + [e];
    assert forall k :: 0 <= k < |log| ==> next[k] == log[k];
    assert next[|log|] == e;
  }

  lemma ClaimKeepsValid(c: Claims, now: int, call: CallId, user: UserId, step: nat, verifiedAt: int)
    requires Valid(c, now) && verifiedAt <= now && InWindow(step, verifiedAt)
    ensures Valid(Claim(c, now, call, user, step, verifiedAt).0, now)
  {
    var r := Claim(c, now, call, user, step, verifiedAt).0;
    if !Claimed(c, now, user, step) {
      var e := Granted(call, user, step, verifiedAt, now);
      forall i, j | 0 <= i < j < |r.log| && SameStep(r.log[i], r.log[j]) && !ClearedAfter(r.log, r.log[i].user, i, j)
        ensures r.log[i].at + CLAIM_TTL <= r.log[j].at
      {
        ClearedAfterExtends(c.log, e, r.log[i].user, i, j);
      }
      forall i | 0 <= i < |c.log| && c.log[i].Granted? && !ClearedAfter(r.log, c.log[i].user, i, |r.log|)
        ensures !ClearedAfter(c.log, c.log[i].user, i, |c.log|)
      {
        ClearedAfterExtends(c.log, e, c.log[i].user, i, |c.log|);
      }
    }
  }

  lemma ClearKeepsValid(c: Claims, now: int, user: UserId, steps: set<nat>)
    requires Valid(c, now)
    ensures Valid(Clear(c, user, steps), now)
  {
    var r := Clear(c, user, steps);
    forall i, j | 0 <= i < j < |r.log| && SameStep(r.log[i], r.log[j]) && !ClearedAfter(r.log, r.log[i].user, i, j)
      ensures r.log[i].at + CLAIM_TTL <= r.log[j].at
    {
      ClearedAfterExtends(c.log, Cleared(user), r.log[i].user, i, j);
    }
    forall i | 0 <= i < |c.log| && c.log[i].Granted? && !ClearedAfter(r.log, c.log[i].user, i, |r.log|)
      ensures !ClearedAfter(c.log, c.log[i].user, i, |c.log|) && c.log[i].user != user
    {
      ClearedAfterExtends(c.log, Cleared(user), c.log[i].user, i, |c.log|);
    }
  }

  lemma TimeKeepsValid(c: Claims, now: int, later: int)
    requires Valid(c, now) && now <= later
    ensures Valid(c, later)
  {
  }

  // No step is granted twice while every claim follows its verification within 30 s and no replay
  // clear intervenes: the 120 s key outlives the 90 s acceptance window.
  lemma StepGrantedOnce(c: Claims, now: int, i: nat, j: nat)
    requires Valid(c, now) && i < j < |c.log| && SameStep(c.log[i], c.log[j])
    requires !ClearedAfter(c.log, c.log[i].user, i, j)
    ensures c.log[j].at - c.log[j].verifiedAt > SAFE_DELAY
  {
    var s := c.log[i].step;
    assert c.log[i].verifiedAt >= (s - 1) * STEP;
    assert c.log[j].verifiedAt < (s + 2) * STEP;
  }

  // One millisecond more is too much.
  lemma SafeDelayIsTight(user: UserId, a: CallId, b: CallId)
    ensures exists c1, c2 ::
      && c1 == Claim(Claims(map[], []), 0, a, user, 1, 0)
      && c2 == Claim(c1.0, CLAIM_TTL, b, user, 1, CLAIM_TTL - SAFE_DELAY - 1)
      && InWindow(1, 0) && InWindow(1, CLAIM_TTL - SAFE_DELAY - 1)
      && c1.1 && c2.1
  {
    var c1 := Claim(Claims(map[], []), 0, a, user, 1, 0);
    var c2 := Claim(c1.0, CLAIM_TTL, b, user, 1, CLAIM_TTL - SAFE_DELAY - 1);
    assert c1.1 && c2.1;
  }

  // Whatever claims and clears came before, a second grant of a step takes a delay above `bound`.
  ghost predicate RepeatsTakeLongerThan(bound: int) {
    forall c: Claims, now: int, i: nat, j: nat ::
      Valid(c, now) && i < j < |c.log| && SameStep(c.log[i], c.log[j]) && !ClearedAfter(c.log, c.log[i].user, i, j) ==>
        c.log[j].at - c.log[j].verifiedAt > bound
  }

  // Codes are one-time under a bound on the verify-to-claim delay exactly when it is at most 30 s.
  lemma DelayBoundIff(bound: int)
    ensures RepeatsTakeLongerThan(bound) <==> bound <= SAFE_DELAY
  {
    if bound <= SAFE_DELAY {
      forall c: Claims, now: int, i: nat, j: nat |
        Valid(c, now) && i < j < |c.log| && SameStep(c.log[i], c.log[j]) && !ClearedAfter(c.log, c.log[i].user, i, j)
        ensures c.log[j].at - c.log[j].verifiedAt > bound
      {
        StepGrantedOnce(c, now, i, j);
      }
    } else {
      var empty := Claims(map[], []);
      var late := CLAIM_TTL - SAFE_DELAY - 1;
      var c1 := Claim(empty, 0, 0, 0, 1, 0).0;
      var c2 := Claim(c1, CLAIM_TTL, 1, 0, 1, late).0;
      ClaimKeepsValid(empty, 0, 0, 0, 1, 0);
      TimeKeepsValid(c1, 0, CLAIM_TTL);
      ClaimKeepsValid(c1, CLAIM_TTL, 1, 0, 1, late);
      assert c2.log == [Granted(0, 0, 1, 0, 0), Granted(1, 0, 1, late, CLAIM_TTL)];
      assert Valid(c2, CLAIM_TTL) && SameStep(c2.log[0], c2.log[1]) && !ClearedAfter(c2.log, 0, 0, 1);
    }
  }
}

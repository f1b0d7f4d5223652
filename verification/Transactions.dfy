// The PostgreSQL transactions statement by statement, each shown to be the atomic step of
// FactorDatabase (src/auth_factors/repository.rs:58-122, repository_passkey.rs:161-226,
// repository_authenticated.rs:20-152, recovery.rs:144-349, service.rs:272-305,
// src/admin/issuer_settings_handlers.rs:146-196). The advisory locks keep other transactions out.

module Transactions {
  import opened Prelude
  import F = FactorDatabase
  import V = SecretEnvelope

  // One PostgreSQL transaction on a working copy: commit publishes it, anything else drops it.
  class Transaction {
    var committed: F.Db
    var working: F.Db

    constructor (db: F.Db)
      ensures committed == db && working == db
    {
      committed, working := db, db;
    }

    method Commit()
      modifies this
      ensures committed == old(working) == working
    {
      committed := working;
    }

    // `revoke_all_for_user_in_transaction`: the new epoch, or None for an unknown account.
    method RevokeAll(user: UserId) returns (epoch: Option<int>)
      modifies this
      ensures committed == old(committed)
      ensures user !in old(working).users ==> epoch == None && working == old(working)
      ensures user in old(working).users ==>
        epoch == Some(old(working).users[user].epoch + 1) && working == F.AdvanceEpoch(old(working), user)
    {
      if user !in working.users {
        return None;
      }
      var account := working.users[user].(epoch := working.users[user].epoch + 1);
      working := working.(users := working.users[user := account]);
      return Some(account.epoch);
    }

    method DeleteRows(user: UserId, factor: FactorMethod) returns (count: nat)
      modifies this
      ensures committed == old(committed) && (working, count) == F.DeleteFactor(old(working), user, factor)
    {
      match factor
      case Totp =>
        count := if user in working.totp then 1 else 0;
        working := working.(totp := working.totp - {user});
      case Passkey =>
        var rows := F.PasskeysOf(working, user);
        count := |rows|;
        working := working.(passkeys := working.passkeys - rows);
    }

    // `remove_own_factor`: the epoch moves first, and moves back with everything else when there was
    // nothing to delete.
    method RemoveOwnFactor(user: UserId, authenticated: int, factor: FactorMethod) returns (outcome: F.Outcome)
      requires working == committed
      modifies this
      ensures (committed, outcome) == F.Apply(old(committed), F.RemoveOwn(user, authenticated, factor))
    {
      if user !in working.users || working.users[user].epoch != authenticated {
        return F.AuthenticationChanged;
      }
      var epoch := RevokeAll(user);
      var count := DeleteRows(user, factor);
      if count == 0 {
        working := committed;
        return F.Missing;
      }
      Commit();
      return F.Removed(count);
    }

    // `reset_totp_factor` and `reset_passkey_factor`.
    method ResetFactor(user: UserId, factor: FactorMethod) returns (outcome: F.Outcome)
      requires working == committed
      modifies this
      ensures (committed, outcome) == F.Apply(old(committed), F.ResetFactor(user, factor))
    {
      var epoch := RevokeAll(user);
      if epoch.None? {
        return F.UnknownUser;
      }
      var count := DeleteRows(user, factor);
      if count == 0 {
        working := committed;
        return F.Missing;
      }
      Commit();
      return F.Removed(count);
    }

    // `insert_totp_factor_if_empty`, `insert_totp_factor_for_passkey_recovery`,
    // `insert_authenticated_totp_factor`: the epoch is read again under the account lock.
    method InsertTotp(op: F.Op) returns (outcome: F.Outcome)
      requires working == committed
      requires op.InsertTotpIfEmpty? || op.InsertTotpForPasskeyRecovery? || op.InsertAuthenticatedTotp?
      modifies this
      ensures (committed, outcome) == F.Apply(old(committed), op)
    {
      if !F.ActiveUserEpochMatches(working, op.user, op.stamp) {
        return F.AuthenticationChanged;
      }
      var blocked :=
        if op.InsertTotpIfEmpty? then F.AccountHasFactor(working, op.user)
        else if op.InsertTotpForPasskeyRecovery? then !(F.HasPasskey(working, op.user) && op.user !in working.totp)
        else op.user in working.totp;
      if blocked {
        return F.AlreadyExists;
      }
      working := working.(totp := working.totp[op.user := F.TotpRow(op.secret, op.stamp, op.seed)]);
      Commit();
      return F.Stored;
    }

    // `insert_passkey_if_empty` and `insert_authenticated_passkey`: generation, policy, epoch, then
    // the row, unless its credential is already somebody's.
    method InsertPasskey(op: F.Op) returns (outcome: F.Outcome)
      requires working == committed
      requires op.InsertPasskeyIfEmpty? || op.InsertAuthenticatedPasskey?
      modifies this
      ensures (committed, outcome) == F.Apply(old(committed), op)
    {
      var generation := if working.issuer.Some? then working.issuer.value.generation else F.INITIAL_ISSUER_GENERATION;
      if generation != op.challenge.generation {
        return F.IssuerChanged;
      }
      if !F.PolicyEnabled(working.policy) {
        return if op.InsertPasskeyIfEmpty? then F.Conflict else F.AuthenticationChanged;
      }
      if !F.ActiveUserEpochMatches(working, op.user, op.stamp) {
        return F.AuthenticationChanged;
      }
      if op.InsertPasskeyIfEmpty? && F.AccountHasFactor(working, op.user) {
        return F.Conflict;
      }
      var inserted := !F.CredentialTaken(working, op.credential.id);
      if inserted {
        var row := F.PasskeyRow(op.user, op.credential.id, op.credential, 1, op.stamp, op.challenge);
        working := working.(passkeys := working.passkeys[working.nextRow := row], nextRow := working.nextRow + 1);
      }
      Commit();
      return if inserted then F.Stored else F.Conflict;
    }

    // `set_passkey_policy_audited`: passkeys are switched off unless that locks out an active account,
    // one with a passkey and no TOTP secret that this process's ring decrypts. After a committed
    // switch every such account has a secret that the ring classifies as available.
    method SetPasskeyPolicy(enabled: bool, p: V.Primitives, ring: V.KeyRing) returns (outcome: F.Outcome)
      requires working == committed
      modifies this
      ensures outcome == F.Blocked <==> !enabled && exists u :: F.ReliesOnPasskey(old(committed), u) && !F.RecoverableWithout(p, ring, old(committed), u)
      ensures outcome != F.Blocked ==> outcome == F.Stored && committed == old(committed).(policy := F.Policy(enabled))
      ensures outcome == F.Stored && !enabled ==> forall u :: F.ReliesOnPasskey(committed, u) ==>
        u in committed.totp && V.Classify(p, ring, committed.totp[u].secret) != V.Unavailable
      ensures (committed, outcome) == F.Apply(old(committed), F.SetPolicy(enabled, F.Readable(p, ring, old(committed))))
    {
      F.PasskeyOnlyIff(p, ring, working);
      if !enabled {
        var accounts := set r | r in working.passkeys && F.ReliesOnPasskey(working, working.passkeys[r].user) :: working.passkeys[r].user;
        ghost var all := accounts;
        assert forall u :: F.ReliesOnPasskey(working, u) <==> u in all;
        while accounts != {}
          invariant accounts <= all && working == committed == old(committed)
          invariant forall u :: u in all - accounts ==> F.RecoverableWithout(p, ring, working, u)
        {
          var u :| u in accounts;
          if u !in working.totp {
            return F.Blocked;
          }
          var opening := V.DecryptWithRing(p, ring, working.totp[u].secret);
          if !opening.Plain? {
            return F.Blocked;
          }
          accounts := accounts - {u};
        }
        forall u | F.ReliesOnPasskey(working, u) ensures u in working.totp && V.Classify(p, ring, working.totp[u].secret) != V.Unavailable {
          V.ClassifierAgrees(p, ring, working.totp[u].secret);
        }
      }
      working := working.(policy := F.Policy(enabled));
      Commit();
      return F.Stored;
    }

    // `update_issuer_setting`: the passkey guard first, the generation check second.
    method UpdateIssuer(value: string, identity: nat, expected: int, runtime: Option<nat>, bootstrap: nat) returns (outcome: F.Outcome)
      requires working == committed
      modifies this
      ensures (committed, outcome) == F.Apply(old(committed), F.SetIssuer(value, identity, expected, runtime, bootstrap))
    {
      if F.Baseline(working, runtime, bootstrap) != Some(identity) && working.passkeys != map[] {
        return F.Blocked;
      }
      var current := working.issuer;
      if (if current.Some? then current.value.generation else 0) != expected {
        return F.Conflict;
      }
      if current.Some? && current.value.value == value {
        return F.Untouched;
      }
      var next := expected + 1;
      working := working.(issuer := Some(F.IssuerRow(value, Some(identity), next)), published := working.published[next := Some(identity)]);
      Commit();
      return F.Stored;
    }
  }
}

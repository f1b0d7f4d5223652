// The PostgreSQL side of the factor lifecycle: accounts, TOTP rows, passkey rows, the passkey
// policy and the issuer row. Every function below is one committed transaction (or one statement
// outside a transaction); they are serialised by the account and policy advisory locks.
// (src/auth_factors/repository*.rs, recovery.rs, service.rs, src/admin/issuer_*.rs)

module FactorDatabase {
  import opened Prelude
  import V = SecretEnvelope

  datatype User = User(epoch: int, active: bool)

  // `stamp` and `seed` are history, not columns: the epoch the enrolment carried, and the plaintext
  // seed it was confirmed with.
  datatype TotpRow = TotpRow(secret: Bytes, stamp: int, seed: Bytes)

  datatype Credential = Credential(id: Bytes, counter: nat, backupEligible: bool, backupState: bool)

  // `stamp` as above; `challenge` is history too: the one the credential was registered with.
  datatype PasskeyRow = PasskeyRow(user: UserId, credentialId: Bytes, credential: Credential, version: nat, stamp: int, challenge: Challenge)

  datatype AuthenticationResult = AuthenticationResult(id: Bytes, counter: nat, backupEligible: bool, backupState: bool, needsUpdate: bool)

  datatype PolicyRow = PolicyAbsent | PolicyUnreadable | Policy(enabled: bool)

  // `identity` is None when the stored value cannot be turned into an RP id and origin.
  datatype IssuerRow = IssuerRow(value: string, identity: Option<nat>, generation: int)

  // `published` is history: the identity each persisted generation stood for.
  datatype Db = Db(
    users: map<UserId, User>,
    totp: map<UserId, TotpRow>,
    passkeys: map<nat, PasskeyRow>,
    nextRow: nat,
    policy: PolicyRow,
    issuer: Option<IssuerRow>,
    published: map<int, Option<nat>>)

  datatype Outcome =
    | Stored
    | AlreadyExists
    | AuthenticationChanged
    | Conflict
    | IssuerChanged
    | Updated
    | Untouched
    | Removed(count: nat)
    | Missing
    | UnknownUser
    | Blocked

  datatype Op =
    | InsertTotpIfEmpty(user: UserId, stamp: int, secret: Bytes, seed: Bytes)
    | InsertTotpForPasskeyRecovery(user: UserId, stamp: int, secret: Bytes, seed: Bytes)
    | InsertAuthenticatedTotp(user: UserId, stamp: int, secret: Bytes, seed: Bytes)
    | UpdateTotpIfCurrent(user: UserId, current: Bytes, replacement: Bytes)
    | InsertPasskeyIfEmpty(user: UserId, stamp: int, credential: Credential, challenge: Challenge)
    | InsertAuthenticatedPasskey(user: UserId, stamp: int, credential: Credential, challenge: Challenge)
    | UpdatePasskey(user: UserId, row: nat, credentialId: Bytes, version: nat, credential: Credential, result: AuthenticationResult)
    | RemoveOwn(user: UserId, stamp: int, factor: FactorMethod)
    | ResetFactor(user: UserId, factor: FactorMethod)
    | SetPolicy(enabled: bool, readable: set<Bytes>)
    | SetIssuer(value: string, identity: nat, expected: int, runtime: Option<nat>, bootstrap: nat)
    | ConfigureIssuer(value: string, identity: nat)
    | RevokeSessions(user: UserId)
    | SetActive(user: UserId, active: bool)
    | DeleteUser(user: UserId)

  // webauthn-rs `update_credential`: None for another credential, otherwise the merged credential
  // and whether anything changed. The counter never goes back (section 6.1.1 of WebAuthn Level 2).
  function Merge(c: Credential, r: AuthenticationResult): Option<(Credential, bool)> {
    if r.id != c.id then None
    else
      var merged := c.(
        counter := if r.counter > c.counter then r.counter else c.counter,
        backupEligible := c.backupEligible || r.backupEligible,
        backupState := r.backupState);
      Some((merged, merged != c))
  }

  const INITIAL_ISSUER_GENERATION: int := 1

  // Writes of factor rows on behalf of a user, as opposed to removals, settings and account changes.
  predicate IsEnrolment(op: Op) {
    || op.InsertTotpIfEmpty? || op.InsertTotpForPasskeyRecovery? || op.InsertAuthenticatedTotp?
    || op.UpdateTotpIfCurrent? || op.InsertPasskeyIfEmpty? || op.InsertAuthenticatedPasskey? || op.UpdatePasskey?
  }

  // -- guards read inside the transactions ---------------------------------------------------

  predicate ActiveUserEpochMatches(db: Db, user: UserId, stamp: int) {
    user in db.users && db.users[user].epoch == stamp && db.users[user].active
  }

  predicate HasPasskey(db: Db, user: UserId) {
    exists r :: r in db.passkeys && db.passkeys[r].user == user
  }

  predicate AccountHasFactor(db: Db, user: UserId) {
    user in db.totp || HasPasskey(db, user)
  }

  predicate IssuerGenerationMatches(issuer: Option<IssuerRow>, expected: int) {
    (if issuer.Some? then issuer.value.generation else INITIAL_ISSUER_GENERATION) == expected
  }

  predicate PolicyEnabled(p: PolicyRow) {
    p.PolicyAbsent? || (p.Policy? && p.enabled)
  }

  predicate CredentialTaken(db: Db, id: Bytes) {
    exists r :: r in db.passkeys && db.passkeys[r].credentialId == id
  }

  // Identity the existing passkeys are bound to; None when it cannot be proved.
  function Baseline(db: Db, runtime: Option<nat>, bootstrap: nat): Option<nat> {
    match db.issuer
    case Some(row) => if row.identity.Some? then row.identity else runtime
    case None => if runtime.Some? then runtime else Some(bootstrap)
  }

  // -- transactions ----------------------------------------------------------------------------

  function WithTotp(db: Db, user: UserId, row: TotpRow): Db {
    db.(totp := db.totp[user := row])
  }

  function WithPasskey(db: Db, row: PasskeyRow): Db {
    db.(passkeys := db.passkeys[db.nextRow := row], nextRow := db.nextRow + 1)
  }

  // `revoke_all_for_user_in_transaction`
  function AdvanceEpoch(db: Db, user: UserId): Db
    requires user in db.users
  {
    db.(users := db.users[user := db.users[user].(epoch := db.users[user].epoch + 1)])
  }

  function PasskeysOf(db: Db, user: UserId): set<nat> {
    set r | r in db.passkeys && db.passkeys[r].user == user
  }

  function DeleteFactor(db: Db, user: UserId, factor: FactorMethod): (Db, nat) {
    match factor
    case Totp => (db.(totp := db.totp - {user}), if user in db.totp then 1 else 0)
    case Passkey => (db.(passkeys := db.passkeys - PasskeysOf(db, user)), |PasskeysOf(db, user)|)
  }

  // Epoch first, rows second, and nothing at all when there was no row to delete.
  function RemoveFactor(db: Db, user: UserId, factor: FactorMethod): (Db, Outcome)
    requires user in db.users
  {
    var (deleted, count) := DeleteFactor(AdvanceEpoch(db, user), user, factor);
    if count == 0 then (db, Missing) else (deleted, Removed(count))
  }

  function InsertPasskey(db: Db, op: Op, empty: bool, refusal: Outcome): (Db, Outcome)
    requires op.InsertPasskeyIfEmpty? || op.InsertAuthenticatedPasskey?
  {
    if !IssuerGenerationMatches(db.issuer, op.challenge.generation) then (db, IssuerChanged)
    else if !PolicyEnabled(db.policy) then (db, refusal)
    else if !ActiveUserEpochMatches(db, op.user, op.stamp) then (db, AuthenticationChanged)
    else if empty && AccountHasFactor(db, op.user) then (db, Conflict)
    else if CredentialTaken(db, op.credential.id) then (db, Conflict)
    else (WithPasskey(db, PasskeyRow(op.user, op.credential.id, op.credential, 1, op.stamp, op.challenge)), Stored)
  }

  // `set_app_issuer`: a compare-and-swap on the generation.
  function WriteIssuer(db: Db, value: string, identity: nat, expected: int): (Db, Outcome) {
    match db.issuer
    case None =>
      if expected != 0 then (db, Conflict)
      else (db.(issuer := Some(IssuerRow(value, Some(identity), 1)), published := db.published[1 := Some(identity)]), Stored)
    case Some(row) =>
      if row.generation != expected then (db, Conflict)
      else if row.value == value then (db, Untouched)
      else (db.(issuer := Some(IssuerRow(value, Some(identity), row.generation + 1)),
                published := db.published[row.generation + 1 := Some(identity)]), Stored)
  }

  // The stored TOTP secrets that a process with this ring can decrypt.
  function Readable(p: V.Primitives, ring: V.KeyRing, db: Db): set<Bytes> {
    set u | u in db.totp && V.Decrypt(p, ring, db.totp[u].secret).Plain? :: db.totp[u].secret
  }

  // Switched to TOTP alone, the account could still be used.
  predicate RecoverableWithout(p: V.Primitives, ring: V.KeyRing, db: Db, user: UserId) {
    user in db.totp && V.Decrypt(p, ring, db.totp[user].secret).Plain?
  }

  predicate ReliesOnPasskey(db: Db, user: UserId) {
    user in db.users && db.users[user].active && HasPasskey(db, user)
  }

  lemma PasskeyOnlyIff(p: V.Primitives, ring: V.KeyRing, db: Db)
    ensures PasskeyOnlyAccount(db, Readable(p, ring, db))
      <==> (exists u :: ReliesOnPasskey(db, u) && !RecoverableWithout(p, ring, db, u))
  {
    var readable := Readable(p, ring, db);
    if r :| r in db.passkeys && ReliesOnPasskey(db, db.passkeys[r].user) && !HasSecretIn(db, db.passkeys[r].user, readable) {
      assert ReliesOnPasskey(db, db.passkeys[r].user) && !RecoverableWithout(p, ring, db, db.passkeys[r].user);
    }
    if u :| ReliesOnPasskey(db, u) && !RecoverableWithout(p, ring, db, u) {
      var r :| r in db.passkeys && db.passkeys[r].user == u;
      assert PasskeyOnlyAccount(db, Readable(p, ring, db));
    }
  }

  predicate HasSecretIn(db: Db, user: UserId, readable: set<Bytes>) {
    user in db.totp && db.totp[user].secret in readable
  }

  // Some active account has a passkey but no TOTP secret that can still be read.
  predicate PasskeyOnlyAccount(db: Db, readable: set<Bytes>) {
    exists r :: r in db.passkeys && ReliesOnPasskey(db, db.passkeys[r].user) && !HasSecretIn(db, db.passkeys[r].user, readable)
  }

  function Apply(db: Db, op: Op): (Db, Outcome) {
    match op
    case InsertTotpIfEmpty(user, stamp, secret, seed) =>
      if !ActiveUserEpochMatches(db, user, stamp) then (db, AuthenticationChanged)
      else if AccountHasFactor(db, user) then (db, AlreadyExists)
      else (WithTotp(db, user, TotpRow(secret, stamp, seed)), Stored)
    case InsertTotpForPasskeyRecovery(user, stamp, secret, seed) =>
      if !ActiveUserEpochMatches(db, user, stamp) then (db, AuthenticationChanged)
      else if !(HasPasskey(db, user) && user !in db.totp) then (db, AlreadyExists)
      else (WithTotp(db, user, TotpRow(secret, stamp, seed)), Stored)
    case InsertAuthenticatedTotp(user, stamp, secret, seed) =>
      if !ActiveUserEpochMatches(db, user, stamp) then (db, AuthenticationChanged)
      else if user in db.totp then (db, AlreadyExists)
      else (WithTotp(db, user, TotpRow(secret, stamp, seed)), Stored)
    case UpdateTotpIfCurrent(user, current, replacement) =>
      if user in db.totp && db.totp[user].secret == current
      then (WithTotp(db, user, db.totp[user].(secret := replacement)), Updated)
      else (db, Untouched)
    case InsertPasskeyIfEmpty(_, _, _, _) => InsertPasskey(db, op, true, Conflict)
    case InsertAuthenticatedPasskey(_, _, _, _) => InsertPasskey(db, op, false, AuthenticationChanged)
    case UpdatePasskey(user, row, credentialId, version, credential, _) =>
      if row in db.passkeys && db.passkeys[row].user == user && db.passkeys[row].credentialId == credentialId
         && db.passkeys[row].version == version
      then (db.(passkeys := db.passkeys[row := db.passkeys[row].(credential := credential, version := version + 1)]), Updated)
      else (db, Untouched)
    case RemoveOwn(user, stamp, factor) =>
      if user !in db.users || db.users[user].epoch != stamp then (db, AuthenticationChanged)
      else RemoveFactor(db, user, factor)
    case ResetFactor(user, factor) =>
      if user !in db.users then (db, UnknownUser) else RemoveFactor(db, user, factor)
    case SetPolicy(enabled, readable) =>
      if !enabled && PasskeyOnlyAccount(db, readable) then (db, Blocked)
      else (db.(policy := Policy(enabled)), Stored)
    case SetIssuer(value, identity, expected, runtime, bootstrap) =>
      if Baseline(db, runtime, bootstrap) != Some(identity) && db.passkeys != map[] then (db, Blocked)
      else WriteIssuer(db, value, identity, expected)
    case ConfigureIssuer(value, identity) =>
      if db.issuer.Some? then (db, if db.issuer.value.value == value then Untouched else Conflict)
      else WriteIssuer(db, value, identity, 0)
    case RevokeSessions(user) =>
      if user !in db.users then (db, UnknownUser) else (AdvanceEpoch(db, user), Updated)
    case SetActive(user, active) =>
      if user !in db.users then (db, UnknownUser)
      else (db.(users := db.users[user := db.users[user].(active := active)]), Updated)
    case DeleteUser(user) =>
      (db.(users := db.users - {user}, totp := db.totp - {user}, passkeys := db.passkeys - PasskeysOf(db, user)), Updated)
  }

  // -- invariant -------------------------------------------------------------------------------

  ghost predicate ValidTotp(users: map<UserId, User>, totp: map<UserId, TotpRow>) {
    forall u :: u in totp ==> u in users && totp[u].stamp <= users[u].epoch
  }

  ghost predicate ValidRow(users: map<UserId, User>, row: PasskeyRow) {
    && row.user in users
    && row.stamp <= users[row.user].epoch
    && row.version >= 1
    && row.credential.id == row.credentialId
  }

  ghost predicate ValidPasskeys(users: map<UserId, User>, passkeys: map<nat, PasskeyRow>, nextRow: nat) {
    && (forall r :: r in passkeys ==> r < nextRow && ValidRow(users, passkeys[r]))
    && (forall r, q :: r in passkeys && q in passkeys && passkeys[r].credentialId == passkeys[q].credentialId ==> r == q)
  }

  ghost predicate Valid(db: Db) {
    ValidTotp(db.users, db.totp) && ValidPasskeys(db.users, db.passkeys, db.nextRow)
  }

  // A snapshot that a persisted row stands behind has that row's identity. Without a row, a process
  // has no snapshot and presents generation 0, or presents its configured issuer as generation 1;
  // `bootstrap` is the identity that configuration stands for.
  predicate Captured(published: map<int, Option<nat>>, bootstrap: nat, c: Challenge) {
    if c.unbacked then (c.generation == 0 || c.generation == INITIAL_ISSUER_GENERATION) && c.identity == bootstrap
    else c.generation in published && published[c.generation] == Some(c.identity)
  }

  // The WebAuthn identity the deployment stands for: the persisted one, or the configured one.
  function CurrentIdentity(issuer: Option<IssuerRow>, bootstrap: nat): Option<nat> {
    if issuer.Some? then issuer.value.identity else Some(bootstrap)
  }

  ghost predicate IssuerTraced(issuer: Option<IssuerRow>, published: map<int, Option<nat>>) {
    if issuer.None? then published == map[]
    else
      && INITIAL_ISSUER_GENERATION in published && issuer.value.generation in published
      && issuer.value.identity.Some? && published[issuer.value.generation] == issuer.value.identity
      && (forall g :: g in published ==> INITIAL_ISSUER_GENERATION <= g <= issuer.value.generation)
  }

  // Where the identity of each passkey stands to the issuer's: the same, unless the challenge was
  // unbacked, and then the issuer's is still the one that was published first.
  ghost predicate IdentityTraced(db: Db, bootstrap: nat) {
    && IssuerTraced(db.issuer, db.published)
    && (forall r :: r in db.passkeys ==>
          var c := db.passkeys[r].challenge;
          if db.issuer.None? then c.unbacked && c.identity == bootstrap
          else if c.unbacked then db.issuer.value.identity == db.published[INITIAL_ISSUER_GENERATION]
          else db.issuer.value.identity == Some(c.identity))
  }

  // The row a passkey write would hit still holds what the write was computed from.
  predicate FreshMerge(db: Db, op: Op)
    requires op.UpdatePasskey?
  {
    op.row in db.passkeys && db.passkeys[op.row].user == op.user && db.passkeys[op.row].credentialId == op.credentialId
    && db.passkeys[op.row].version == op.version
    ==> Merge(db.passkeys[op.row].credential, op.result) == Some((op.credential, true))
  }

  // What a request must be able to show before it runs `op`: a compare-and-swap that hits writes
  // the merge of the current credential, a challenge was captured from some snapshot, and whoever
  // writes the first issuer row knows the identity the deployment has been configured with.
  predicate Honest(db: Db, bootstrap: nat, op: Op) {
    && (op.UpdatePasskey? ==> FreshMerge(db, op))
    && (op.InsertPasskeyIfEmpty? || op.InsertAuthenticatedPasskey? ==> Captured(db.published, bootstrap, op.challenge))
    && (op.SetIssuer? && db.issuer.None? ==> Baseline(db, op.runtime, op.bootstrap) == Some(bootstrap))
  }

  lemma EnrolmentKeepsValid(db: Db, op: Op)
    requires Valid(db) && IsEnrolment(op) && (op.UpdatePasskey? ==> FreshMerge(db, op))
    ensures Valid(Apply(db, op).0)
  {
    hide HasPasskey, PolicyEnabled, IssuerGenerationMatches;
  }

  lemma AdministrationKeepsTotpValid(db: Db, op: Op)
    requires ValidTotp(db.users, db.totp) && !IsEnrolment(op)
    ensures ValidTotp(Apply(db, op).0.users, Apply(db, op).0.totp)
  {
    hide HasPasskey, CredentialTaken, Baseline, PasskeyOnlyAccount;
  }

  lemma RemovingKeepsPasskeysValid(db: Db, user: UserId, factor: FactorMethod)
    requires ValidPasskeys(db.users, db.passkeys, db.nextRow) && user in db.users
    ensures var after := RemoveFactor(db, user, factor).0; ValidPasskeys(after.users, after.passkeys, after.nextRow)
  {
  }

  lemma RemovalKeepsPasskeysValid(db: Db, op: Op)
    requires ValidPasskeys(db.users, db.passkeys, db.nextRow) && (op.RemoveOwn? || op.ResetFactor?)
    ensures var after := Apply(db, op).0; ValidPasskeys(after.users, after.passkeys, after.nextRow)
  {
    hide RemoveFactor, ValidPasskeys;
    if op.user in db.users { RemovingKeepsPasskeysValid(db, op.user, op.factor); }
  }

  lemma AdministrationKeepsPasskeysValid(db: Db, op: Op)
    requires ValidPasskeys(db.users, db.passkeys, db.nextRow) && !IsEnrolment(op)
    ensures var after := Apply(db, op).0; ValidPasskeys(after.users, after.passkeys, after.nextRow)
  {
    if op.RemoveOwn? || op.ResetFactor? {
      RemovalKeepsPasskeysValid(db, op);
    } else {
      hide HasPasskey, CredentialTaken, Baseline, PasskeyOnlyAccount, RemoveFactor;
    }
  }

  lemma AdministrationKeepsValid(db: Db, op: Op)
    requires Valid(db) && !IsEnrolment(op)
    ensures Valid(Apply(db, op).0)
  {
    hide Apply, ValidTotp, ValidPasskeys;
    AdministrationKeepsTotpValid(db, op);
    AdministrationKeepsPasskeysValid(db, op);
  }

  lemma ApplyKeepsValid(db: Db, op: Op)
    requires Valid(db) && (op.UpdatePasskey? ==> FreshMerge(db, op))
    ensures Valid(Apply(db, op).0)
  {
    if IsEnrolment(op) { EnrolmentKeepsValid(db, op); } else { AdministrationKeepsValid(db, op); }
  }

  lemma InsertKeepsIdentityTraced(db: Db, bootstrap: nat, op: Op)
    requires IdentityTraced(db, bootstrap) && Honest(db, bootstrap, op)
    requires op.InsertPasskeyIfEmpty? || op.InsertAuthenticatedPasskey?
    ensures IdentityTraced(Apply(db, op).0, bootstrap)
  {
    hide HasPasskey, CredentialTaken, PolicyEnabled, ActiveUserEpochMatches, AccountHasFactor;
  }

  lemma ApplyKeepsIdentityTraced(db: Db, bootstrap: nat, op: Op)
    requires IdentityTraced(db, bootstrap) && Honest(db, bootstrap, op)
    ensures IdentityTraced(Apply(db, op).0, bootstrap)
  {
    if op.InsertPasskeyIfEmpty? || op.InsertAuthenticatedPasskey? {
      InsertKeepsIdentityTraced(db, bootstrap, op);
    } else {
      hide HasPasskey, CredentialTaken, ActiveUserEpochMatches, AccountHasFactor, InsertPasskey;
    }
  }

  // -- how the database may move ---------------------------------------------------------------

  // One passkey row later in its life: same identity, newer version, and never a smaller counter.
  ghost predicate Evolves(p: PasskeyRow, q: PasskeyRow) {
    && q.user == p.user && q.credentialId == p.credentialId && q.stamp == p.stamp && q.challenge == p.challenge
    && p.version <= q.version
    && (p.version == q.version ==> p == q)
    && p.credential.counter <= q.credential.counter
    && (p.credential.backupEligible ==> q.credential.backupEligible)
  }

  ghost predicate AccountsAdvance(a: Db, b: Db) {
    && b.users.Keys <= a.users.Keys
    && (forall u :: u in b.users ==> a.users[u].epoch <= b.users[u].epoch)
  }

  predicate SameEnrolment(r: TotpRow, q: TotpRow) {
    r.stamp == q.stamp && r.seed == q.seed
  }

  // A TOTP row that disappears takes the epoch with it, and every later enrolment carries an epoch
  // that was current after the row was gone.
  ghost predicate TotpKept(a: Db, b: Db) {
    forall u :: u in b.users && u in a.users ==>
      && (u in a.totp && u !in b.totp ==> a.users[u].epoch < b.users[u].epoch)
      && (u in a.totp && u in b.totp ==> SameEnrolment(a.totp[u], b.totp[u]) || a.users[u].epoch < b.totp[u].stamp)
      && (u !in a.totp && u in b.totp ==> a.users[u].epoch <= b.totp[u].stamp)
  }

  // Row ids are never reused.
  ghost predicate PasskeysEvolve(a: Db, b: Db) {
    && a.nextRow <= b.nextRow
    && (forall r :: r in b.passkeys && r < a.nextRow ==> r in a.passkeys && Evolves(a.passkeys[r], b.passkeys[r]))
  }

  ghost predicate PublishedKept(a: Db, b: Db) {
    forall g :: g in a.published ==> g in b.published && b.published[g] == a.published[g]
  }

  ghost predicate Advances(a: Db, b: Db) {
    AccountsAdvance(a, b) && TotpKept(a, b) && PasskeysEvolve(a, b) && PublishedKept(a, b)
  }

  lemma AdvancesIsTransitive(a: Db, b: Db, c: Db)
    requires Advances(a, b) && Advances(b, c)
    ensures Advances(a, c)
  {
    forall r | r in c.passkeys && r < a.nextRow
      ensures r in a.passkeys && Evolves(a.passkeys[r], c.passkeys[r])
    {
      assert r in b.passkeys && Evolves(b.passkeys[r], c.passkeys[r]);
    }
  }

  lemma AccountsAdvancing(db: Db, op: Op)
    ensures AccountsAdvance(db, Apply(db, op).0)
  {
  }

  // Since versions only grow, a version that still matches means the row was not written in
  // between, and the compare-and-swap is an atomic merge.
  lemma SwapIsAtomicMerge(db: Db, op: Op)
    requires op.UpdatePasskey? && FreshMerge(db, op) && Apply(db, op).1 == Updated
    ensures var before := db.passkeys[op.row]; var after := Apply(db, op).0.passkeys[op.row];
            && Merge(before.credential, op.result) == Some((after.credential, true))
            && after.version == before.version + 1
            && after.credential.counter >= before.credential.counter
            && after.credential.counter >= op.result.counter
            && Evolves(before, after)
    ensures Apply(db, op).0 == db.(passkeys := db.passkeys[op.row := Apply(db, op).0.passkeys[op.row]])
  {
  }

  lemma EnrolmentKeepsTotp(db: Db, op: Op)
    requires IsEnrolment(op)
    ensures TotpKept(db, Apply(db, op).0)
  {
    hide HasPasskey, CredentialTaken, PolicyEnabled, IssuerGenerationMatches;
  }

  lemma InsertEvolvesPasskeys(db: Db, op: Op)
    requires Valid(db) && (op.InsertPasskeyIfEmpty? || op.InsertAuthenticatedPasskey?)
    ensures PasskeysEvolve(db, Apply(db, op).0)
  {
    hide HasPasskey, PolicyEnabled, IssuerGenerationMatches, ActiveUserEpochMatches, CredentialTaken;
  }

  lemma EnrolmentEvolvesPasskeys(db: Db, op: Op)
    requires Valid(db) && IsEnrolment(op) && (op.UpdatePasskey? ==> FreshMerge(db, op))
    ensures PasskeysEvolve(db, Apply(db, op).0)
  {
    if op.UpdatePasskey? {
      if Apply(db, op).1 == Updated { SwapIsAtomicMerge(db, op); }
    } else if op.InsertPasskeyIfEmpty? || op.InsertAuthenticatedPasskey? {
      InsertEvolvesPasskeys(db, op);
    } else {
      assert Apply(db, op).0.passkeys == db.passkeys;
    }
  }

  lemma AdministrationKeepsRows(db: Db, op: Op)
    requires !IsEnrolment(op)
    ensures TotpKept(db, Apply(db, op).0) && PasskeysEvolve(db, Apply(db, op).0)
  {
  }

  lemma PublishedAdvances(db: Db, op: Op)
    requires IssuerTraced(db.issuer, db.published)
    ensures PublishedKept(db, Apply(db, op).0)
  {
  }

  lemma ApplyAdvances(db: Db, op: Op)
    requires Valid(db) && IssuerTraced(db.issuer, db.published) && (op.UpdatePasskey? ==> FreshMerge(db, op))
    ensures Advances(db, Apply(db, op).0)
  {
    AccountsAdvancing(db, op);
    if IsEnrolment(op) { EnrolmentKeepsTotp(db, op); EnrolmentEvolvesPasskeys(db, op); } else { AdministrationKeepsRows(db, op); }
    PublishedAdvances(db, op);
  }
  // -- reset fencing -----------------------------------------------------------------------------

  // Every row of this factor was enrolled at `epoch` or later, and so will every later one.
  ghost predicate Fenced(db: Db, user: UserId, factor: FactorMethod, epoch: int) {
    && (user in db.users ==> db.users[user].epoch >= epoch)
    && match factor
       case Totp => user in db.totp ==> db.totp[user].stamp >= epoch
       case Passkey => forall r :: r in db.passkeys && db.passkeys[r].user == user ==> db.passkeys[r].stamp >= epoch
  }

  ghost predicate NoRow(db: Db, user: UserId, factor: FactorMethod) {
    match factor
    case Totp => user !in db.totp
    case Passkey => !HasPasskey(db, user)
  }

  lemma ApplyKeepsFence(db: Db, op: Op, user: UserId, factor: FactorMethod, epoch: int)
    requires Fenced(db, user, factor, epoch)
    ensures Fenced(Apply(db, op).0, user, factor, epoch)
  {
    AccountsAdvancing(db, op);
  }

  // The rows of every other account, and those of the other factor, are as they were.
  ghost predicate OthersKept(a: Db, b: Db, user: UserId, factor: FactorMethod) {
    && (forall u :: u != user || factor.Passkey? ==> (u in a.totp <==> u in b.totp) && (u in b.totp ==> a.totp[u] == b.totp[u]))
    && (forall r :: r in b.passkeys ==> r in a.passkeys && a.passkeys[r] == b.passkeys[r])
    && (forall r :: r in a.passkeys && (a.passkeys[r].user != user || factor.Totp?) ==> r in b.passkeys)
    && a.policy == b.policy && a.issuer == b.issuer
  }

  // A reset or self-removal advances the epoch and deletes the rows, or does neither.
  lemma RemovalIsAtomic(db: Db, op: Op)
    requires op.ResetFactor? || op.RemoveOwn?
    ensures var after := Apply(db, op).0;
            if Apply(db, op).1.Removed? then
              && after.users == db.users[op.user := db.users[op.user].(epoch := db.users[op.user].epoch + 1)]
              && !NoRow(db, op.user, op.factor)
              && NoRow(after, op.user, op.factor) && OthersKept(db, after, op.user, op.factor)
              && Fenced(after, op.user, op.factor, db.users[op.user].epoch + 1)
            else after == db
  {
    if op.factor.Passkey? && op.user in db.users && Apply(db, op).1.Removed? {
      var r :| r in PasskeysOf(db, op.user);
    }
  }

  // The only way a row comes into being: an enrolment whose stamp is the current epoch of an
  // active account, and for a passkey under an enabled policy and the captured generation.
  lemma RowsNeedCurrentStamp(db: Db, op: Op)
    ensures var after := Apply(db, op).0;
            && (forall u :: u in after.totp ==>
                  || (u in db.totp && after.totp[u].stamp == db.totp[u].stamp && after.totp[u].seed == db.totp[u].seed)
                  || (IsEnrolment(op) && op.user == u && ActiveUserEpochMatches(db, u, after.totp[u].stamp)))
            && (forall r :: r in after.passkeys ==>
                  || r in db.passkeys
                  || (&& (op.InsertPasskeyIfEmpty? || op.InsertAuthenticatedPasskey?)
                      && ActiveUserEpochMatches(db, after.passkeys[r].user, after.passkeys[r].stamp)
                      && PolicyEnabled(db.policy)
                      && IssuerGenerationMatches(db.issuer, op.challenge.generation)))
  {
  }

  // Exactly when a passkey has the identity of the persisted issuer: its challenge was made under a
  // persisted issuer, or the first issuer that was written chose the identity of the challenge.
  lemma PasskeyBoundIff(db: Db, bootstrap: nat, r: nat)
    requires IdentityTraced(db, bootstrap) && r in db.passkeys && db.issuer.Some?
    ensures var c := db.passkeys[r].challenge;
            db.issuer.value.identity == Some(c.identity) <==> !c.unbacked || db.published[INITIAL_ISSUER_GENERATION] == Some(c.identity)
  {
  }

  // The same at the insert, over what was known at the capture: a row inserted before there is an
  // issuer has the deployment's identity, and afterwards the condition decides.
  lemma InsertBindsIdentityIff(db: Db, bootstrap: nat, op: Op)
    requires IdentityTraced(db, bootstrap) && Honest(db, bootstrap, op)
    requires (op.InsertPasskeyIfEmpty? || op.InsertAuthenticatedPasskey?) && Apply(db, op).1 == Stored
    ensures CurrentIdentity(db.issuer, bootstrap) == Some(op.challenge.identity) <==>
              db.issuer.None? || !op.challenge.unbacked || db.published[INITIAL_ISSUER_GENERATION] == Some(op.challenge.identity)
  {
    hide HasPasskey, CredentialTaken, PolicyEnabled, ActiveUserEpochMatches, AccountHasFactor;
  }

  // While any passkey row exists, an issuer write that commits keeps the deployment's identity, and
  // no challenge of the replaced generation can still be enrolled.
  lemma IssuerWriteSparesPasskeys(db: Db, bootstrap: nat, op: Op)
    requires op.SetIssuer? && IdentityTraced(db, bootstrap) && Honest(db, bootstrap, op)
    requires db.passkeys != map[] && Apply(db, op).1 == Stored
    ensures var after := Apply(db, op).0;
            && CurrentIdentity(after.issuer, bootstrap) == CurrentIdentity(db.issuer, bootstrap)
            && (db.issuer.Some? ==>
                  && after.issuer.value.generation == db.issuer.value.generation + 1
                  && !IssuerGenerationMatches(after.issuer, db.issuer.value.generation))
  {
  }

  // The first issuer row may also come from the command line or from the import at startup, which
  // look at no passkeys: those that are there stay bound exactly when it has the identity the
  // deployment was configured with.
  lemma ConfiguringSparesPasskeysIff(db: Db, bootstrap: nat, op: Op)
    requires op.ConfigureIssuer? && IdentityTraced(db, bootstrap) && db.issuer.None? && db.passkeys != map[]
    ensures var after := Apply(db, op).0;
            && after.passkeys == db.passkeys && after.issuer.Some?
            && ((forall r :: r in after.passkeys ==> after.issuer.value.identity == Some(after.passkeys[r].challenge.identity))
                  <==> op.identity == bootstrap)
  {
    var r :| r in db.passkeys;
    assert db.passkeys[r].challenge.identity == bootstrap;
  }

  // One such write, with a passkey of the configured identity already there.
  lemma ConfiguringUnbindsPasskeys()
    ensures var challenge := Challenge(INITIAL_ISSUER_GENERATION, 7, true);
            var key := PasskeyRow(1, [1], Credential([1], 0, false, false), 1, 0, challenge);
            var db := Db(map[1 := User(0, true)], map[], map[0 := key], 1, PolicyAbsent, None, map[]);
            var after := Apply(db, ConfigureIssuer("https://b.example", 8)).0;
            && Valid(db) && IdentityTraced(db, 7) && after.passkeys == db.passkeys
            && after.issuer.Some? && after.issuer.value.identity != Some(challenge.identity)
  {
  }

  // Generation 1 stands for the configured issuer of a process without a persisted row as well as
  // for the first persisted issuer, so a challenge made before the first write passes the generation
  // check after it, whatever identity was written.
  lemma FirstGenerationIsAmbiguous()
    ensures var db := Db(map[1 := User(0, true)], map[], map[], 0, PolicyAbsent, None, map[]);
            var write := SetIssuer("https://b.example", 8, 0, Some(7), 7);
            var challenge := Challenge(INITIAL_ISSUER_GENERATION, 7, true);
            var insert := InsertPasskeyIfEmpty(1, 0, Credential([1], 0, false, false), challenge);
            var written := Apply(db, write).0;
            && IdentityTraced(db, 7) && Honest(db, 7, write) && Apply(db, write).1 == Stored
            && Honest(written, 7, insert) && Apply(written, insert).1 == Stored
            && CurrentIdentity(written.issuer, 7) != Some(challenge.identity)
  {
    var db := Db(map[1 := User(0, true)], map[], map[], 0, PolicyAbsent, None, map[]);
    var written := Apply(db, SetIssuer("https://b.example", 8, 0, Some(7), 7)).0;
    assert written.issuer == Some(IssuerRow("https://b.example", Some(8), 1)) && written.passkeys == map[] && written.totp == map[];
    assert !AccountHasFactor(written, 1) && !CredentialTaken(written, [1]);
  }

  // A process without a snapshot presents generation 0, which no issuer ever has.
  lemma NoSnapshotNeverEnrols(db: Db, bootstrap: nat, op: Op)
    requires IssuerTraced(db.issuer, db.published) && (op.InsertPasskeyIfEmpty? || op.InsertAuthenticatedPasskey?)
    requires op.challenge.generation == 0
    ensures Apply(db, op) == (db, IssuerChanged)
  {
  }
}

// Redis keys that may be consumed once: login tickets, session enrolments and discoverable
// challenges (src/auth_factors/store.rs). A consumed key travels through a request: it is stored,
// then held by the one request that took it, then either put back or spent.

module OneTimeStore {
  import opened Prelude

  datatype Key =
    | TicketKey(ticket: nat)
    | EnrolmentKey(user: UserId, factor: FactorMethod)
    | ChallengeKey(challenge: nat)

  // What a session enrolment will store. `plain` is history: the seed shown to the user.
  datatype Material = Seed(cipher: Bytes, plain: Bytes) | Registration(challenge: Challenge)

  datatype Payload =
    | LoginTicket(user: UserId, methods: seq<FactorMethod>, holder: Option<string>, epoch: int)
    | SessionEnrolment(owner: UserId, session: int, stamp: int, material: Material)
    | DiscoverableChallenge(generation: Option<int>)

  // `id` is the UUID minted when the value was issued; `key` is the Redis key it lives under.
  datatype Grant = Grant(id: nat, key: Key, expires: int, payload: Payload)

  // What the atomic take script compares before it deletes the key.
  datatype Claimant =
    | Holder(hash: string)
    | Owner(user: UserId, session: int, epoch: int, factor: FactorMethod, enrolment: nat)
    | Anyone

  datatype Slot = Slot(grant: Grant, deadline: int)

  // Redis itself only has `stored`. The rest is history: every value ever issued, the value each
  // request has taken out and not yet disposed of, the ids that are gone for good, and the request
  // that completed on an id.
  datatype Store = Store(
    stored: map<Key, Slot>,
    minted: map<nat, Grant>,
    held: map<CallId, Grant>,
    spent: set<nat>,
    completed: map<nat, CallId>)

  const TTL: int := 300

  function FactorOf(m: Material): FactorMethod {
    if m.Seed? then Totp else Passkey
  }

  predicate WellKeyed(g: Grant) {
    match g.payload
    case LoginTicket(_, _, _, _) => g.key == TicketKey(g.id)
    case SessionEnrolment(owner, _, _, material) => g.key == EnrolmentKey(owner, FactorOf(material))
    case DiscoverableChallenge(_) => g.key == ChallengeKey(g.id)
  }

  predicate Matches(g: Grant, who: Claimant) {
    match who
    case Anyone => true
    case Holder(hash) => g.payload.LoginTicket? && g.payload.holder == Some(hash)
    case Owner(user, session, epoch, factor, enrolment) =>
      && g.payload.SessionEnrolment?
      && g.payload.owner == user
      && g.payload.session == session
      && g.payload.stamp == epoch
      && FactorOf(g.payload.material) == factor
      && g.id == enrolment
  }

  // `(expires_at - now).whole_seconds()`, with every non-positive outcome read as "do not restore".
  function WholeSecondsLeft(expires: int, readAt: int): nat {
    if expires - readAt >= SECOND then (expires - readAt) / SECOND else 0
  }

  predicate Minted(minted: map<nat, Grant>, g: Grant) {
    g.id in minted && minted[g.id] == g
  }

  ghost predicate Traceable(minted: map<nat, Grant>, stored: map<Key, Slot>, held: map<CallId, Grant>) {
    && (forall id :: id in minted ==> minted[id].id == id && WellKeyed(minted[id]))
    && (forall k :: k in stored ==> stored[k].grant.key == k && Minted(minted, stored[k].grant))
    && (forall c :: c in held ==> Minted(minted, held[c]))
  }

  ghost predicate StoredOnce(stored: map<Key, Slot>, spent: set<nat>) {
    && (forall k1, k2 :: k1 in stored && k2 in stored && stored[k1].grant.id == stored[k2].grant.id ==> k1 == k2)
    && (forall k :: k in stored ==> stored[k].grant.id !in spent)
  }

  ghost predicate HeldOnce(stored: map<Key, Slot>, held: map<CallId, Grant>, spent: set<nat>) {
    && (forall c1, c2 :: c1 in held && c2 in held && held[c1].id == held[c2].id ==> c1 == c2)
    && (forall k, c :: k in stored && c in held ==> stored[k].grant.id != held[c].id)
    && (forall c :: c in held ==> held[c].id !in spent)
  }

  // Every id is in at most one place: under one key, with one request, or spent.
  ghost predicate Conserved(s: Store) {
    && Traceable(s.minted, s.stored, s.held)
    && StoredOnce(s.stored, s.spent)
    && HeldOnce(s.stored, s.held, s.spent)
    && s.completed.Keys <= s.spent <= s.minted.Keys
  }

  // Nothing spent comes back and a completion is never re-attributed.
  ghost predicate Follows(a: Store, b: Store) {
    && a.spent <= b.spent
    && (forall id :: id in a.minted ==> id in b.minted && b.minted[id] == a.minted[id])
    && (forall id :: id in a.completed ==> id in b.completed && b.completed[id] == a.completed[id])
  }

  // What another request's step leaves alone for `me`.
  ghost predicate SparesCall(a: Store, b: Store, me: CallId) {
    && (me in a.held <==> me in b.held)
    && (me in a.held ==> a.held[me] == b.held[me])
  }

  // No key outlives its own `expires` by more than `lag`.
  ghost predicate Bounded(s: Store, lag: int) {
    forall k :: k in s.stored ==> s.stored[k].deadline <= s.stored[k].grant.expires + lag
  }

  // Redis drops every key whose deadline has passed.
  function Expire(s: Store, now: int): (r: Store)
    ensures Conserved(s) ==> Conserved(r)
    ensures Follows(s, r) && r.held == s.held && r.completed == s.completed
    ensures forall k :: k in r.stored <==> k in s.stored && s.stored[k].deadline > now
    ensures forall k :: k in r.stored ==> r.stored[k] == s.stored[k]
  {
    s.(stored := map k | k in s.stored && s.stored[k].deadline > now :: s.stored[k],
       spent := s.spent + set k | k in s.stored && s.stored[k].deadline <= now :: s.stored[k].grant.id)
  }

  // `save` and `save_json_if_absent` for a freshly minted id. The refused writer keeps nothing.
  function Issue(s: Store, now: int, g: Grant): (r: Store)
    requires g.id !in s.minted && WellKeyed(g)
    ensures Follows(s, r) && r.held == s.held && r.completed == s.completed
    ensures g.key !in s.stored ==> r.stored == s.stored[g.key := Slot(g, now + TTL * SECOND)]
    ensures g.key in s.stored ==> r.stored == s.stored
  {
    var known := s.(minted := s.minted[g.id := g]);
    if g.key in s.stored then known.(spent := s.spent + {g.id})
    else known.(stored := s.stored[g.key := Slot(g, now + TTL * SECOND)])
  }

  lemma IssueConserves(s: Store, now: int, g: Grant)
    requires g.id !in s.minted && WellKeyed(g) && Conserved(s)
    ensures Conserved(Issue(s, now, g))
  {
    if g.key in s.stored { SpendingFresh(s, g.id); } else { PlacingFresh(s, Slot(g, now + TTL * SECOND)); }
    TracingFresh(s, Slot(g, now + TTL * SECOND));
  }

  lemma TracingFresh(s: Store, slot: Slot)
    requires Conserved(s) && slot.grant.id !in s.minted && WellKeyed(slot.grant)
    ensures var minted := s.minted[slot.grant.id := slot.grant];
            && Traceable(minted, s.stored, s.held)
            && Traceable(minted, s.stored[slot.grant.key := slot], s.held)
  {
  }

  lemma SpendingFresh(s: Store, id: nat)
    requires Conserved(s) && id !in s.minted
    ensures StoredOnce(s.stored, s.spent + {id}) && HeldOnce(s.stored, s.held, s.spent + {id})
  {
  }

  lemma PlacingFresh(s: Store, slot: Slot)
    requires Conserved(s) && slot.grant.id !in s.minted
    ensures var stored := s.stored[slot.grant.key := slot];
            StoredOnce(stored, s.spent) && HeldOnce(stored, s.held, s.spent)
  {
  }

  // GET, compare, DEL in one script.
  function Take(s: Store, call: CallId, key: Key, who: Claimant): (r: Store)
    requires call !in s.held
    ensures Conserved(s) ==> Conserved(r)
    ensures Follows(s, r) && r.completed == s.completed
    ensures call in r.held <==> key in s.stored && Matches(s.stored[key].grant, who)
    ensures call in r.held ==> r.held == s.held[call := s.stored[key].grant] && key !in r.stored
    ensures call !in r.held ==> r == s
  {
    if key in s.stored && Matches(s.stored[key].grant, who)
    then s.(stored := s.stored - {key}, held := s.held[call := s.stored[key].grant])
    else s
  }

  // The holder gives the value up for good.
  function Forget(s: Store, call: CallId): (r: Store)
    requires call in s.held
    ensures Conserved(s) ==> Conserved(r)
    ensures Follows(s, r) && r.held == s.held - {call} && s.held[call].id in r.spent
  {
    s.(held := s.held - {call}, spent := s.spent + {s.held[call].id})
  }

  // The holder reports success on it.
  function Complete(s: Store, call: CallId): (r: Store)
    requires call in s.held
    ensures Conserved(s) ==> Conserved(r) && Follows(s, r)
    ensures r.held == s.held - {call}
    ensures s.held[call].id in r.completed && r.completed[s.held[call].id] == call
  {
    s.(held := s.held - {call},
       spent := s.spent + {s.held[call].id},
       completed := s.completed[s.held[call].id := call])
  }

  // `restore`: SETEX for a ticket, SET NX EX for the other two, and nothing when no whole second
  // of the original lifetime is left. `readAt` is the clock reading the TTL was computed from.
  function Restore(s: Store, now: int, call: CallId, readAt: int): (r: Store)
    requires call in s.held
    ensures Conserved(s) ==> Conserved(r)
    ensures Follows(s, r) && r.held == s.held - {call} && r.completed == s.completed
    ensures var g, left := s.held[call], WholeSecondsLeft(s.held[call].expires, readAt);
            if left > 0 && (g.key.TicketKey? || g.key !in s.stored)
            then r.stored == s.stored[g.key := Slot(g, now + left * SECOND)] && r.spent == s.spent
            else r.stored == s.stored && g.id in r.spent
  {
    var g := s.held[call];
    var left := WholeSecondsLeft(g.expires, readAt);
    if left == 0 || (g.key in s.stored && !g.key.TicketKey?) then Forget(s, call)
    else s.(held := s.held - {call}, stored := s.stored[g.key := Slot(g, now + left * SECOND)])
  }

  // Unconditional DEL.
  function Discard(s: Store, key: Key): (r: Store)
    ensures Conserved(s) ==> Conserved(r)
    ensures Follows(s, r) && r.held == s.held && r.completed == s.completed
    ensures r.stored == s.stored - {key}
  {
    if key in s.stored
    then s.(stored := s.stored - {key}, spent := s.spent + {s.stored[key].grant.id})
    else s
  }

  // -- lifetime ----------------------------------------------------------------------------------

  // A restore writes a whole number of seconds from the moment of writing, computed from an earlier
  // clock reading: the new deadline stays within the original lifetime exactly when the write
  // follows the reading by no more than the fraction of a second that was rounded off.
  lemma RestoreStaysInLifetimeIff(s: Store, now: int, call: CallId, readAt: int)
    requires call in s.held && Conserved(s) && readAt <= now
    requires s.held[call].expires - readAt >= SECOND && s.held[call].key !in s.stored
    ensures var g := s.held[call]; var r := Restore(s, now, call, readAt);
            && g.key in r.stored && r.stored[g.key].grant == g
            && (r.stored[g.key].deadline <= g.expires <==> now - readAt <= (g.expires - readAt) % SECOND)
  {
  }

  // Half a second between reading the clock and writing, and a ticket outlives its expiry.
  lemma RestoreMayOutliveExpiry()
    ensures var g := Grant(1, TicketKey(1), 2500, LoginTicket(1, [Totp], None, 0));
            var r := Restore(Store(map[], map[1 := g], map[7 := g], {}, map[]), 1999, 7, 1000);
            g.key in r.stored && r.stored[g.key].deadline > g.expires
  {
  }

  // The same of the issue itself: its lifetime counts from the write, its expiry from the reading.
  lemma IssueStaysInLifetimeIff(s: Store, now: int, issuedAt: int, g: Grant)
    requires g.id !in s.minted && WellKeyed(g) && g.key !in s.stored
    requires issuedAt <= now && g.expires == issuedAt + TTL * SECOND
    ensures var r := Issue(s, now, g);
            && g.key in r.stored && r.stored[g.key].grant == g
            && (r.stored[g.key].deadline <= g.expires <==> now == issuedAt)
  {
  }

  lemma IssueStaysBounded(s: Store, now: int, issuedAt: int, g: Grant, lag: nat)
    requires Bounded(s, lag) && now - issuedAt <= lag
    requires g.id !in s.minted && WellKeyed(g) && g.expires == issuedAt + TTL * SECOND
    ensures Bounded(Issue(s, now, g), lag)
  {
  }

  // The lag of one restore does not add to that of the one before.
  lemma RestoreStaysBounded(s: Store, now: int, call: CallId, readAt: int, lag: nat)
    requires Bounded(s, lag) && now - readAt <= lag && call in s.held
    ensures Bounded(Restore(s, now, call, readAt), lag)
  {
  }
}

// Failure counters and reservations of the authentication limiter (src/auth_limiter/domain.rs,
// redis.rs, redis_scripts.rs; src/auth_factors/attempt_limiter.rs).
//
// A reservation holds one place in the `pending` set of every dimension of an attempt. Committing
// it turns each place it still owns into a failure; releasing it gives the places back.

module AttemptLimiter {
  import opened Prelude

  datatype Dimension = Account | SourceIp | Ticket

  datatype Counter = Counter(dimension: Dimension, value: string)

  // A failure entry is named after the token and its position in the lease.
  datatype Place = Place(token: nat, index: nat)

  // One `reserve()`: a single token for all dimensions of that call.
  datatype Lease = Lease(token: nat, dimensions: seq<Counter>)

  datatype Reservation = Reservation(leases: seq<Lease>, denied: bool)

  datatype Limits = Limits(window: int, account: int, ip: int, ticket: int)

  // `failures` members are token and position, scored by time; `pending` members are tokens,
  // scored by the end of their lease.
  datatype Limiter = Limiter(
    failures: map<Counter, map<Place, int>>,
    pending: map<Counter, map<nat, int>>)

  datatype FailureRecord = FailureRecord(reached: seq<Dimension>, recorded: bool)

  const LEASE_SECONDS: int := 15 * 60
  const WINDOW_SECONDS: int := 15 * 60
  const ACCOUNT_LIMIT: int := 10
  const IP_LIMIT: int := 30
  const TICKET_LIMIT: int := 5

  // Settings of zero or less fall back to the defaults.
  function LimitFor(l: Limits, d: Dimension): (r: int)
    ensures r > 0
  {
    match d
    case Account => if l.account > 0 then l.account else ACCOUNT_LIMIT
    case SourceIp => if l.ip > 0 then l.ip else IP_LIMIT
    case Ticket => if l.ticket > 0 then l.ticket else TICKET_LIMIT
  }

  function Window(l: Limits): (r: int)
    ensures r > 0
  {
    (if l.window > 0 then l.window else WINDOW_SECONDS) * SECOND
  }

  // -- reservations --------------------------------------------------------------------------

  // No dimension, no lease: an empty reservation is a vacuous allow, not a denial.
  function Single(dimensions: seq<Counter>, token: nat): Reservation {
    Reservation(if dimensions == [] then [] else [Lease(token, dimensions)], false)
  }

  function Denied(): Reservation {
    Reservation([], true)
  }

  function Merge(a: Reservation, b: Reservation): Reservation {
    Reservation(a.leases + b.leases, a.denied || b.denied)
  }

  // The dimensions of one attempt. Without a source IP the policy decides between skipping the
  // dimension and refusing the attempt.
  function FailureDimensions(account: string, ticket: Option<string>, ip: Option<string>, rejectMissingIp: bool): (r: Result<seq<Counter>>)
    ensures r.Ok? ==> Distinct(r.value) && Counter(Account, account) in r.value
    ensures r.Ok? && ticket.Some? ==> Counter(Ticket, ticket.value) in r.value
    ensures r.Ok? && ip.Some? ==> Counter(SourceIp, ip.value) in r.value
    ensures r.Err? <==> ip.None? && rejectMissingIp
  {
    var base := [Counter(Account, account)] + if ticket.Some? then [Counter(Ticket, ticket.value)] else [];
    match ip
    case Some(address) => Ok(base + [Counter(SourceIp, address)])
    case None => if rejectMissingIp then Err(ServiceError.SourceIpUnavailable) else Ok(base)
  }

  predicate Distinct(dims: seq<Counter>) {
    forall i, j :: 0 <= i < j < |dims| ==> dims[i] != dims[j]
  }

  // -- the three scripts -----------------------------------------------------------------------

  function Failures(l: Limiter, d: Counter): map<Place, int> {
    if d in l.failures then l.failures[d] else map[]
  }

  function Pending(l: Limiter, d: Counter): map<nat, int> {
    if d in l.pending then l.pending[d] else map[]
  }

  function Purged<K(!new)>(z: map<K, int>, cutoff: int): (r: map<K, int>)
    ensures r.Keys <= z.Keys
    ensures forall k :: k in r <==> k in z && z[k] > cutoff
    ensures forall k :: k in r ==> r[k] == z[k]
  {
    map k | k in z && z[k] > cutoff :: z[k]
  }

  function PurgeCounter(l: Limiter, d: Counter, limits: Limits, now: int): Limiter {
    l.(failures := l.failures[d := Purged(Failures(l, d), now - Window(limits))],
       pending := l.pending[d := Purged(Pending(l, d), now)])
  }

  // First loop of the reserve script: purge and check in order, stop at the first full dimension.
  function CheckFrom(l: Limiter, dims: seq<Counter>, limits: Limits, now: int): (Limiter, bool)
    decreases |dims|
  {
    if dims == [] then (l, true)
    else
      var purged := PurgeCounter(l, dims[0], limits, now);
      if |Failures(purged, dims[0])| + |Pending(purged, dims[0])| >= LimitFor(limits, dims[0].dimension) then (purged, false)
      else CheckFrom(purged, dims[1..], limits, now)
  }

  // Second loop: one place per dimension.
  function AddPlaces(l: Limiter, dims: seq<Counter>, token: nat, until: int): Limiter
    decreases |dims|
  {
    if dims == [] then l
    else AddPlaces(l.(pending := l.pending[dims[0] := Pending(l, dims[0])[token := until]]), dims[1..], token, until)
  }

  function LeaseEnd(now: int): int {
    now + LEASE_SECONDS * SECOND
  }

  function Reserve(l: Limiter, dims: seq<Counter>, token: nat, limits: Limits, now: int): (Limiter, Reservation) {
    var (checked, allowed) := CheckFrom(l, dims, limits, now);
    if allowed then (AddPlaces(checked, dims, token, LeaseEnd(now)), Single(dims, token))
    else (checked, Denied())
  }

  // The failures of a dimension after one round of the record script. Only a place the token still
  // owns becomes a failure, and the failure set saturates at the limit.
  function Counted(l: Limiter, d: Counter, token: nat, index: nat, limits: Limits, now: int): map<Place, int> {
    var live := Purged(Failures(l, d), now - Window(limits));
    if token in Pending(l, d) && |live| < LimitFor(limits, d.dimension) then live[Place(token, index) := now] else live
  }

  function RecordPlace(l: Limiter, d: Counter, token: nat, index: nat, limits: Limits, now: int): (Limiter, bool) {
    var counted := Counted(l, d, token, index, limits, now);
    (Limiter(l.failures[d := counted], l.pending[d := Pending(l, d) - {token}]), |counted| >= LimitFor(limits, d.dimension))
  }

  function RecordFrom(l: Limiter, lease: Lease, index: nat, limits: Limits, now: int): (Limiter, seq<Dimension>)
    requires index <= |lease.dimensions|
    decreases |lease.dimensions| - index
  {
    if index == |lease.dimensions| then (l, [])
    else
      var d := lease.dimensions[index];
      var (next, full) := RecordPlace(l, d, lease.token, index + 1, limits, now);
      var (rest, reached) := RecordFrom(next, lease, index + 1, limits, now);
      (rest, (if full then [d.dimension] else []) + reached)
  }

  function ReleaseFrom(l: Limiter, dims: seq<Counter>, token: nat): Limiter
    decreases |dims|
  {
    if dims == [] then l
    else ReleaseFrom(l.(pending := l.pending[dims[0] := Pending(l, dims[0]) - {token}]), dims[1..], token)
  }

  // A reservation is settled lease by lease, each token against its own dimensions only.
  function RecordAll(l: Limiter, leases: seq<Lease>, limits: Limits, now: int): (Limiter, seq<Dimension>)
    decreases |leases|
  {
    if leases == [] then (l, [])
    else
      var (next, reached) := RecordFrom(l, leases[0], 0, limits, now);
      var (last, more) := RecordAll(next, leases[1..], limits, now);
      (last, reached + more)
  }

  function ReleaseAll(l: Limiter, leases: seq<Lease>): Limiter
    decreases |leases|
  {
    if leases == [] then l
    else ReleaseAll(ReleaseFrom(l, leases[0].dimensions, leases[0].token), leases[1..])
  }

  function ClearFailures(l: Limiter, d: Counter): Limiter {
    l.(failures := l.failures - {d})
  }

  // -- what one token owns -------------------------------------------------------------------

  ghost predicate Settled(l: Limiter, token: nat) {
    forall d :: token !in Pending(l, d)
  }

  // A step on behalf of other tokens: it may let `token` lapse, but never adds a place or a failure.
  ghost predicate SparesToken(a: Limiter, b: Limiter, token: nat) {
    forall d :: (token in Pending(b, d) ==> token in Pending(a, d))
      && (forall i :: Place(token, i) in Failures(b, d) ==> Place(token, i) in Failures(a, d))
  }

  lemma {:induction false} CheckingSpares(l: Limiter, dims: seq<Counter>, limits: Limits, now: int, token: nat)
    ensures SparesToken(l, CheckFrom(l, dims, limits, now).0, token)
    decreases |dims|
  {
    if dims != [] {
      CheckingSpares(PurgeCounter(l, dims[0], limits, now), dims[1..], limits, now, token);
    }
  }

  lemma {:induction false} AddingPlaces(l: Limiter, dims: seq<Counter>, token: nat, until: int, other: nat)
    ensures var r := AddPlaces(l, dims, token, until);
            && r.failures == l.failures
            && (other != token ==> SparesToken(l, r, other))
            && (forall d :: token in Pending(r, d) <==> token in Pending(l, d) || d in dims)
    decreases |dims|
  {
    if dims != [] {
      var next := l.(pending := l.pending[dims[0] := Pending(l, dims[0])[token := until]]);
      AddingPlaces(next, dims[1..], token, until, other);
      assert forall d :: d in dims <==> d == dims[0] || d in dims[1..];
    }
  }

  // A grant holds exactly one place in each dimension of the attempt; a denial holds none.
  lemma ReservePlaces(l: Limiter, dims: seq<Counter>, token: nat, limits: Limits, now: int, other: nat)
    ensures var (r, reservation) := Reserve(l, dims, token, limits, now);
            && (Settled(l, token) && !reservation.denied ==> forall d :: token in Pending(r, d) <==> d in dims)
            && (Settled(l, token) && reservation.denied ==> Settled(r, token))
            && (other != token ==> SparesToken(l, r, other))
  {
    CheckingSpares(l, dims, limits, now, token);
    CheckingSpares(l, dims, limits, now, other);
    AddingPlaces(CheckFrom(l, dims, limits, now).0, dims, token, LeaseEnd(now), other);
  }

  // What one round of the record script comes to: one failure exactly when the token still owned its
  // place and the live failures were below the limit; old failures lapse with the window.
  ghost predicate PlaceRecorded(a: Limiter, b: Limiter, d: Counter, token: nat, index: nat, limits: Limits, now: int) {
    Failures(b, d) == Counted(a, d, token, index, limits, now) && Pending(b, d) == Pending(a, d) - {token}
  }

  ghost predicate Same(a: Limiter, b: Limiter, d: Counter) {
    Failures(a, d) == Failures(b, d) && Pending(a, d) == Pending(b, d)
  }

  lemma RecordingPlace(l: Limiter, d: Counter, token: nat, index: nat, limits: Limits, now: int)
    ensures PlaceRecorded(l, RecordPlace(l, d, token, index, limits, now).0, d, token, index, limits, now)
    ensures forall e :: e != d ==> Same(l, RecordPlace(l, d, token, index, limits, now).0, e)
  {
    hide Counted, LimitFor;
  }

  lemma {:induction false} RecordingIsLocal(l: Limiter, lease: Lease, index: nat, limits: Limits, now: int)
    requires index <= |lease.dimensions|
    ensures forall d :: d !in lease.dimensions[index..] ==> Same(l, RecordFrom(l, lease, index, limits, now).0, d)
    decreases |lease.dimensions| - index
  {
    hide Failures, Pending, Purged, LimitFor, Window, RecordPlace;
    if index < |lease.dimensions| {
      var d := lease.dimensions[index];
      var next := RecordPlace(l, d, lease.token, index + 1, limits, now).0;
      RecordingPlace(l, d, lease.token, index + 1, limits, now);
      RecordingIsLocal(next, lease, index + 1, limits, now);
      assert lease.dimensions[index..] == [d] + lease.dimensions[index + 1..];
      forall e | e !in lease.dimensions[index..] ensures Same(l, RecordFrom(l, lease, index, limits, now).0, e) {
        assert Same(l, next, e) && Same(next, RecordFrom(next, lease, index + 1, limits, now).0, e);
      }
    }
  }

  lemma SparesItself(l: Limiter, token: nat)
    ensures SparesToken(l, l, token)
  {
  }

  lemma SparesIsTransitive(a: Limiter, b: Limiter, c: Limiter, token: nat)
    requires SparesToken(a, b, token) && SparesToken(b, c, token)
    ensures SparesToken(a, c, token)
  {
  }

  lemma RecordingPlaceSpares(l: Limiter, d: Counter, token: nat, index: nat, limits: Limits, now: int, other: nat)
    requires other != token
    ensures SparesToken(l, RecordPlace(l, d, token, index, limits, now).0, other)
  {
    hide Failures, Pending, LimitFor, Window, RecordPlace;
    var next := RecordPlace(l, d, token, index, limits, now).0;
    RecordingPlace(l, d, token, index, limits, now);
    forall e ensures (other in Pending(next, e) ==> other in Pending(l, e))
      && forall i :: Place(other, i) in Failures(next, e) ==> Place(other, i) in Failures(l, e)
    {
      assert e != d ==> Same(l, next, e);
    }
  }

  lemma {:induction false} RecordingSpares(l: Limiter, lease: Lease, index: nat, limits: Limits, now: int, other: nat)
    requires index <= |lease.dimensions| && other != lease.token
    ensures SparesToken(l, RecordFrom(l, lease, index, limits, now).0, other)
    decreases |lease.dimensions| - index
  {
    hide SparesToken, RecordPlace;
    if index < |lease.dimensions| {
      var d := lease.dimensions[index];
      var next := RecordPlace(l, d, lease.token, index + 1, limits, now).0;
      RecordingPlaceSpares(l, d, lease.token, index + 1, limits, now, other);
      RecordingSpares(next, lease, index + 1, limits, now, other);
      SparesIsTransitive(l, next, RecordFrom(next, lease, index + 1, limits, now).0, other);
    } else {
      SparesItself(l, other);
    }
  }

  lemma {:induction false} RecordingSettles(l: Limiter, lease: Lease, index: nat, limits: Limits, now: int)
    requires index <= |lease.dimensions|
    ensures forall d :: lease.token in Pending(RecordFrom(l, lease, index, limits, now).0, d) ==>
              lease.token in Pending(l, d) && d !in lease.dimensions[index..]
    decreases |lease.dimensions| - index
  {
    hide Failures, Pending, Purged, LimitFor, Window, RecordPlace;
    if index < |lease.dimensions| {
      var d := lease.dimensions[index];
      var next := RecordPlace(l, d, lease.token, index + 1, limits, now).0;
      RecordingPlace(l, d, lease.token, index + 1, limits, now);
      RecordingSettles(next, lease, index + 1, limits, now);
      assert lease.dimensions[index..] == [d] + lease.dimensions[index + 1..];
      forall e | lease.token in Pending(RecordFrom(next, lease, index + 1, limits, now).0, e)
        ensures lease.token in Pending(l, e) && e != d
      {
        assert e != d ==> Same(l, next, e);
      }
    }
  }

  lemma {:induction false} ReleasingSettles(l: Limiter, dims: seq<Counter>, token: nat, other: nat)
    ensures var r := ReleaseFrom(l, dims, token);
            && r.failures == l.failures
            && (other != token ==> SparesToken(l, r, other) && SparesToken(r, l, other))
            && (forall d :: token in Pending(r, d) <==> token in Pending(l, d) && d !in dims)
    decreases |dims|
  {
    if dims != [] {
      ReleasingSettles(l.(pending := l.pending[dims[0] := Pending(l, dims[0]) - {token}]), dims[1..], token, other);
      assert forall d :: d in dims <==> d == dims[0] || d in dims[1..];
    }
  }

  ghost predicate OwnsNone(leases: seq<Lease>, token: nat) {
    forall i :: 0 <= i < |leases| ==> leases[i].token != token
  }

  ghost predicate ConfinedToLeases(l: Limiter, leases: seq<Lease>, token: nat) {
    forall d :: token in Pending(l, d) ==> exists i :: 0 <= i < |leases| && leases[i].token == token && d in leases[i].dimensions
  }

  lemma ReserveConfines(l: Limiter, dims: seq<Counter>, token: nat, limits: Limits, now: int)
    requires ConfinedToLeases(l, [], token)
    ensures var (r, reservation) := Reserve(l, dims, token, limits, now);
            ConfinedToLeases(r, reservation.leases, token)
  {
    var (r, reservation) := Reserve(l, dims, token, limits, now);
    ReservePlaces(l, dims, token, limits, now, token);
    forall d | token in Pending(r, d)
      ensures exists i :: 0 <= i < |reservation.leases| && reservation.leases[i].token == token && d in reservation.leases[i].dimensions
    {
      assert reservation.leases[0] == Lease(token, dims);
    }
  }

  lemma ClearingKeepsPlaces(l: Limiter, c: Counter)
    ensures forall d :: Pending(ClearFailures(l, c), d) == Pending(l, d)
  {
  }

  // However many leases were merged, committing the reservation leaves none of its tokens pending
  // and touches no other token.
  lemma {:induction false} CommitSettlesEveryLease(l: Limiter, leases: seq<Lease>, limits: Limits, now: int, token: nat)
    ensures var r := RecordAll(l, leases, limits, now).0;
            && (OwnsNone(leases, token) ==> SparesToken(l, r, token))
            && (ConfinedToLeases(l, leases, token) ==> Settled(r, token))
    decreases |leases|
  {
    hide Failures, Pending, RecordFrom;
    if leases != [] {
      var next := RecordFrom(l, leases[0], 0, limits, now).0;
      RecordingSettles(l, leases[0], 0, limits, now);
      if token != leases[0].token { RecordingSpares(l, leases[0], 0, limits, now, token); }
      CommitSettlesEveryLease(next, leases[1..], limits, now, token);
      assert leases[0].dimensions[0..] == leases[0].dimensions;
      if ConfinedToLeases(l, leases, token) {
        forall d | token in Pending(next, d)
          ensures exists i :: 0 <= i < |leases[1..]| && leases[1..][i].token == token && d in leases[1..][i].dimensions
        {
          assert token in Pending(l, d);
          var i :| 0 <= i < |leases| && leases[i].token == token && d in leases[i].dimensions;
          assert leases[1..][i - 1] == leases[i];
        }
      }
      if OwnsNone(leases, token) {
        assert leases[0].token != token && OwnsNone(leases[1..], token);
      }
    }
  }

  lemma {:induction false} RecordAllConcat(l: Limiter, a: seq<Lease>, b: seq<Lease>, limits: Limits, now: int)
    ensures var (first, x) := RecordAll(l, a, limits, now);
            var (second, y) := RecordAll(first, b, limits, now);
            RecordAll(l, a + b, limits, now) == (second, x + y)
    decreases |a|
  {
    hide RecordFrom;
    var all := a + b;
    var (first, x) := RecordAll(l, a, limits, now);
    var (second, y) := RecordAll(first, b, limits, now);
    if a == [] {
      assert all == b && x == [] && [] + y == y;
    } else {
      var (next, full) := RecordFrom(l, a[0], 0, limits, now);
      var (_, rest) := RecordAll(next, a[1..], limits, now);
      RecordAllConcat(next, a[1..], b, limits, now);
      assert all[0] == a[0] && all[1..] == a[1..] + b;
      assert RecordAll(l, all, limits, now) == (second, full + (rest + y));
      assert full + (rest + y) == (full + rest) + y;
    }
  }

  // Merging keeps every token with its own dimensions: committing a merged reservation is
  // committing its parts one after the other.
  lemma MergedCommitsInTurn(l: Limiter, a: Reservation, b: Reservation, limits: Limits, now: int)
    ensures var (first, x) := RecordAll(l, a.leases, limits, now);
            var (second, y) := RecordAll(first, b.leases, limits, now);
            RecordAll(l, Merge(a, b).leases, limits, now) == (second, x + y)
  {
    RecordAllConcat(l, a.leases, b.leases, limits, now);
  }

  lemma {:induction false} ReleaseSettlesEveryLease(l: Limiter, leases: seq<Lease>, token: nat)
    ensures var r := ReleaseAll(l, leases);
            && r.failures == l.failures
            && (OwnsNone(leases, token) ==> SparesToken(l, r, token) && SparesToken(r, l, token))
            && (ConfinedToLeases(l, leases, token) ==> Settled(r, token))
    decreases |leases|
  {
    hide Failures, Pending, ReleaseFrom;
    if leases != [] {
      var next := ReleaseFrom(l, leases[0].dimensions, leases[0].token);
      ReleasingSettles(l, leases[0].dimensions, leases[0].token, token);
      ReleaseSettlesEveryLease(next, leases[1..], token);
      if ConfinedToLeases(l, leases, token) {
        forall d | token in Pending(next, d)
          ensures exists i :: 0 <= i < |leases[1..]| && leases[1..][i].token == token && d in leases[1..][i].dimensions
        {
          assert token in Pending(l, d);
          var i :| 0 <= i < |leases| && leases[i].token == token && d in leases[i].dimensions;
          assert leases[1..][i - 1] == leases[i];
        }
      }
      if OwnsNone(leases, token) {
        assert leases[0].token != token && OwnsNone(leases[1..], token);
      }
    }
  }

  // -- capacity --------------------------------------------------------------------------------

  // Failures and outstanding attempts together never exceed the capacity of a dimension.
  ghost predicate WithinCapacity(l: Limiter, cap: Limits) {
    forall d: Counter :: Load(l, d) <= LimitFor(cap, d.dimension)
  }

  function Load(l: Limiter, d: Counter): nat {
    |Failures(l, d)| + |Pending(l, d)|
  }

  predicate NoLooser(limits: Limits, cap: Limits) {
    && LimitFor(limits, Account) <= LimitFor(cap, Account)
    && LimitFor(limits, SourceIp) <= LimitFor(cap, SourceIp)
    && LimitFor(limits, Ticket) <= LimitFor(cap, Ticket)
  }

  lemma SubsetIsSmaller<K>(a: set<K>, b: set<K>)
    requires a <= b
    ensures |a| <= |b|
  {
    assert b == a + (b - a);
  }

  lemma PurgedIsSmaller<K(!new)>(z: map<K, int>, cutoff: int)
    ensures |Purged(z, cutoff)| <= |z|
  {
    SubsetIsSmaller(Purged(z, cutoff).Keys, z.Keys);
    assert |z| == |z.Keys| && |Purged(z, cutoff)| == |Purged(z, cutoff).Keys|;
  }

  // Only `d` changes, and not upwards.
  ghost predicate Lightens(a: Limiter, b: Limiter, d: Counter) {
    Load(b, d) <= Load(a, d) && forall e :: e != d ==> Load(b, e) == Load(a, e)
  }

  lemma PurgingLightens(l: Limiter, d: Counter, limits: Limits, now: int)
    ensures Lightens(l, PurgeCounter(l, d, limits, now), d)
  {
    PurgedIsSmaller(Failures(l, d), now - Window(limits));
    PurgedIsSmaller(Pending(l, d), now);
  }

  lemma {:induction false} CheckingLightens(l: Limiter, dims: seq<Counter>, limits: Limits, now: int)
    ensures var (r, allowed) := CheckFrom(l, dims, limits, now);
            && (forall d :: Load(r, d) <= Load(l, d))
            && (allowed ==> forall d :: d in dims ==> Load(r, d) < LimitFor(limits, d.dimension))
    decreases |dims|
  {
    if dims != [] {
      PurgingLightens(l, dims[0], limits, now);
      CheckingLightens(PurgeCounter(l, dims[0], limits, now), dims[1..], limits, now);
    }
  }

  lemma {:induction false} AddingKeepsCapacity(l: Limiter, dims: seq<Counter>, token: nat, until: int, cap: Limits)
    requires WithinCapacity(l, cap)
    requires forall d :: d in dims ==> token in Pending(l, d) || Load(l, d) < LimitFor(cap, d.dimension)
    ensures WithinCapacity(AddPlaces(l, dims, token, until), cap)
    decreases |dims|
  {
    if dims != [] {
      var next := l.(pending := l.pending[dims[0] := Pending(l, dims[0])[token := until]]);
      forall d: Counter ensures d != dims[0] ==> Load(next, d) == Load(l, d) {}
      assert Load(next, dims[0]) <= LimitFor(cap, dims[0].dimension);
      AddingKeepsCapacity(next, dims[1..], token, until, cap);
    }
  }

  lemma NoLooserAnywhere(limits: Limits, cap: Limits)
    requires NoLooser(limits, cap)
    ensures forall d :: LimitFor(limits, d) <= LimitFor(cap, d)
  {
  }

  // However many requests reserve at once, a dimension never admits more than its limit.
  lemma ReserveKeepsCapacity(l: Limiter, dims: seq<Counter>, token: nat, limits: Limits, now: int, cap: Limits)
    requires WithinCapacity(l, cap) && NoLooser(limits, cap)
    ensures WithinCapacity(Reserve(l, dims, token, limits, now).0, cap)
  {
    hide CheckFrom, AddPlaces, LimitFor, NoLooser;
    NoLooserAnywhere(limits, cap);
    CheckingLightens(l, dims, limits, now);
    var (checked, allowed) := CheckFrom(l, dims, limits, now);
    if allowed { AddingKeepsCapacity(checked, dims, token, LeaseEnd(now), cap); }
  }

  lemma WithoutIsSmaller(p: map<nat, int>, token: nat)
    ensures |p - {token}| == if token in p then |p| - 1 else |p|
  {
    assert (p - {token}).Keys == p.Keys - {token};
    assert |p - {token}| == |(p - {token}).Keys| && |p| == |p.Keys|;
  }

  lemma CountedIsSmaller(l: Limiter, d: Counter, token: nat, index: nat, limits: Limits, now: int)
    ensures |Counted(l, d, token, index, limits, now)| <= |Failures(l, d)| + if token in Pending(l, d) then 1 else 0
  {
    PurgedIsSmaller(Failures(l, d), now - Window(limits));
  }

  lemma RecordingPlaceLightens(l: Limiter, d: Counter, token: nat, index: nat, limits: Limits, now: int)
    ensures Lightens(l, RecordPlace(l, d, token, index, limits, now).0, d)
  {
    hide Failures, Pending, Counted, RecordPlace;
    var next := RecordPlace(l, d, token, index, limits, now).0;
    CountedIsSmaller(l, d, token, index, limits, now);
    WithoutIsSmaller(Pending(l, d), token);
    RecordingPlace(l, d, token, index, limits, now);
    forall e | e != d ensures Load(next, e) == Load(l, e) { assert Same(l, next, e); }
  }

  lemma {:induction false} RecordingLightens(l: Limiter, lease: Lease, index: nat, limits: Limits, now: int)
    requires index <= |lease.dimensions|
    ensures forall d :: Load(RecordFrom(l, lease, index, limits, now).0, d) <= Load(l, d)
    decreases |lease.dimensions| - index
  {
    if index < |lease.dimensions| {
      var d := lease.dimensions[index];
      RecordingPlaceLightens(l, d, lease.token, index + 1, limits, now);
      RecordingLightens(RecordPlace(l, d, lease.token, index + 1, limits, now).0, lease, index + 1, limits, now);
    }
  }

  lemma {:induction false} CommitLightens(l: Limiter, leases: seq<Lease>, limits: Limits, now: int)
    ensures forall d :: Load(RecordAll(l, leases, limits, now).0, d) <= Load(l, d)
    decreases |leases|
  {
    if leases != [] {
      RecordingLightens(l, leases[0], 0, limits, now);
      CommitLightens(RecordFrom(l, leases[0], 0, limits, now).0, leases[1..], limits, now);
    }
  }

  lemma {:induction false} ReleasingLightens(l: Limiter, dims: seq<Counter>, token: nat)
    ensures forall d :: Load(ReleaseFrom(l, dims, token), d) <= Load(l, d)
    decreases |dims|
  {
    if dims != [] {
      WithoutIsSmaller(Pending(l, dims[0]), token);
      ReleasingLightens(l.(pending := l.pending[dims[0] := Pending(l, dims[0]) - {token}]), dims[1..], token);
    }
  }

  lemma {:induction false} ReleaseLightens(l: Limiter, leases: seq<Lease>)
    ensures forall d :: Load(ReleaseAll(l, leases), d) <= Load(l, d)
    decreases |leases|
  {
    if leases != [] {
      ReleasingLightens(l, leases[0].dimensions, leases[0].token);
      ReleaseLightens(ReleaseFrom(l, leases[0].dimensions, leases[0].token), leases[1..]);
    }
  }

  lemma ClearingLightens(l: Limiter, d: Counter)
    ensures forall e :: Load(ClearFailures(l, d), e) <= Load(l, e)
  {
  }

  // -- how long a place lasts ----------------------------------------------------------------------

  // Every place of `token` whose lease has not ended at `now` is still there.
  ghost predicate KeepsPlaces(a: Limiter, b: Limiter, token: nat, now: int) {
    forall d :: token in Pending(a, d) && Pending(a, d)[token] > now ==> token in Pending(b, d) && Pending(b, d)[token] == Pending(a, d)[token]
  }

  lemma {:induction false} CheckingKeepsPlaces(l: Limiter, dims: seq<Counter>, limits: Limits, now: int, token: nat)
    ensures KeepsPlaces(l, CheckFrom(l, dims, limits, now).0, token, now)
    decreases |dims|
  {
    if dims != [] {
      CheckingKeepsPlaces(PurgeCounter(l, dims[0], limits, now), dims[1..], limits, now, token);
    }
  }

  lemma {:induction false} AddingKeepsPlaces(l: Limiter, dims: seq<Counter>, token: nat, until: int, other: nat, now: int)
    requires other != token
    ensures KeepsPlaces(l, AddPlaces(l, dims, token, until), other, now)
    decreases |dims|
  {
    if dims != [] {
      AddingKeepsPlaces(l.(pending := l.pending[dims[0] := Pending(l, dims[0])[token := until]]), dims[1..], token, until, other, now);
    }
  }

  lemma ReserveKeepsPlaces(l: Limiter, dims: seq<Counter>, token: nat, limits: Limits, now: int, other: nat)
    requires other != token
    ensures KeepsPlaces(l, Reserve(l, dims, token, limits, now).0, other, now)
  {
    CheckingKeepsPlaces(l, dims, limits, now, other);
    AddingKeepsPlaces(CheckFrom(l, dims, limits, now).0, dims, token, LeaseEnd(now), other, now);
  }

  lemma RecordingPlaceKeeps(l: Limiter, d: Counter, token: nat, index: nat, limits: Limits, at: int, other: nat, now: int)
    requires other != token
    ensures KeepsPlaces(l, RecordPlace(l, d, token, index, limits, at).0, other, now)
  {
    hide Failures, Pending, LimitFor, Window, RecordPlace;
    var next := RecordPlace(l, d, token, index, limits, at).0;
    RecordingPlace(l, d, token, index, limits, at);
    forall e | other in Pending(l, e) ensures other in Pending(next, e) && Pending(next, e)[other] == Pending(l, e)[other] {
      assert e != d ==> Same(l, next, e);
    }
  }

  lemma {:induction false} RecordingKeepsPlaces(l: Limiter, lease: Lease, index: nat, limits: Limits, at: int, other: nat, now: int)
    requires index <= |lease.dimensions| && other != lease.token
    ensures KeepsPlaces(l, RecordFrom(l, lease, index, limits, at).0, other, now)
    decreases |lease.dimensions| - index
  {
    hide RecordPlace, Pending;
    if index < |lease.dimensions| {
      var d := lease.dimensions[index];
      RecordingPlaceKeeps(l, d, lease.token, index + 1, limits, at, other, now);
      RecordingKeepsPlaces(RecordPlace(l, d, lease.token, index + 1, limits, at).0, lease, index + 1, limits, at, other, now);
    }
  }

  lemma {:induction false} CommitKeepsPlaces(l: Limiter, leases: seq<Lease>, limits: Limits, at: int, other: nat, now: int)
    requires OwnsNone(leases, other)
    ensures KeepsPlaces(l, RecordAll(l, leases, limits, at).0, other, now)
    decreases |leases|
  {
    hide RecordFrom, Pending;
    if leases != [] {
      RecordingKeepsPlaces(l, leases[0], 0, limits, at, other, now);
      CommitKeepsPlaces(RecordFrom(l, leases[0], 0, limits, at).0, leases[1..], limits, at, other, now);
    }
  }

  lemma {:induction false} ReleasingKeepsPlaces(l: Limiter, dims: seq<Counter>, token: nat, other: nat, now: int)
    requires other != token
    ensures KeepsPlaces(l, ReleaseFrom(l, dims, token), other, now)
    decreases |dims|
  {
    if dims != [] {
      ReleasingKeepsPlaces(l.(pending := l.pending[dims[0] := Pending(l, dims[0]) - {token}]), dims[1..], token, other, now);
    }
  }

  lemma {:induction false} ReleaseKeepsPlaces(l: Limiter, leases: seq<Lease>, other: nat, now: int)
    requires OwnsNone(leases, other)
    ensures KeepsPlaces(l, ReleaseAll(l, leases), other, now)
    decreases |leases|
  {
    hide ReleaseFrom, Pending;
    if leases != [] {
      ReleasingKeepsPlaces(l, leases[0].dimensions, leases[0].token, other, now);
      ReleaseKeepsPlaces(ReleaseFrom(l, leases[0].dimensions, leases[0].token), leases[1..], other, now);
    }
  }

  // The token has a place in every dimension of its leases, until then at least.
  ghost predicate HoldsPlaces(l: Limiter, leases: seq<Lease>, token: nat, until: int) {
    forall i, d :: 0 <= i < |leases| && d in leases[i].dimensions ==> token in Pending(l, d) && Pending(l, d)[token] >= until
  }

  // A grant holds its places for the length of a lease.
  lemma ReserveHoldsPlaces(l: Limiter, dims: seq<Counter>, token: nat, limits: Limits, now: int)
    requires Settled(l, token)
    ensures var (r, reservation) := Reserve(l, dims, token, limits, now); HoldsPlaces(r, reservation.leases, token, LeaseEnd(now))
  {
    hide CheckFrom, AddPlaces, Pending;
    var checked := CheckFrom(l, dims, limits, now).0;
    CheckingSpares(l, dims, limits, now, token);
    AddingPlaces(checked, dims, token, LeaseEnd(now), token);
    PlacesEndWithLease(checked, dims, token, LeaseEnd(now));
  }

  // -- exact accounting ------------------------------------------------------------------------

  // A whole attempt: each of its dimensions is counted, and nothing else is touched.
  ghost predicate AttemptCounted(a: Limiter, b: Limiter, lease: Lease, limits: Limits, now: int) {
    && (forall i :: 0 <= i < |lease.dimensions| ==> PlaceRecorded(a, b, lease.dimensions[i], lease.token, i + 1, limits, now))
    && (forall d :: d !in lease.dimensions ==> Same(a, b, d))
  }

  lemma {:induction false} FailureRises(l: Limiter, lease: Lease, index: nat, i: nat, limits: Limits, now: int)
    requires index <= i < |lease.dimensions| && Distinct(lease.dimensions)
    ensures PlaceRecorded(l, RecordFrom(l, lease, index, limits, now).0, lease.dimensions[i], lease.token, i + 1, limits, now)
    decreases i - index
  {
    hide Failures, Pending, Purged, LimitFor, Window, RecordPlace;
    var d := lease.dimensions[index];
    var next := RecordPlace(l, d, lease.token, index + 1, limits, now).0;
    RecordingPlace(l, d, lease.token, index + 1, limits, now);
    if i == index {
      RecordingIsLocal(next, lease, index + 1, limits, now);
      assert d !in lease.dimensions[index + 1..];
    } else {
      assert Same(l, next, lease.dimensions[i]);
      FailureRises(next, lease, index + 1, i, limits, now);
    }
  }

  // Committing a lease adds one failure to each dimension whose place it still owns, as far as the
  // limit at the commit allows, and changes nothing else but the passage of time.
  lemma FailuresRiseExactly(l: Limiter, lease: Lease, limits: Limits, now: int)
    requires Distinct(lease.dimensions)
    ensures AttemptCounted(l, RecordFrom(l, lease, 0, limits, now).0, lease, limits, now)
  {
    hide Failures, Pending, RecordFrom, PlaceRecorded;
    RecordingIsLocal(l, lease, 0, limits, now);
    assert lease.dimensions[0..] == lease.dimensions;
    forall i | 0 <= i < |lease.dimensions|
      ensures PlaceRecorded(l, RecordFrom(l, lease, 0, limits, now).0, lease.dimensions[i], lease.token, i + 1, limits, now)
    {
      FailureRises(l, lease, 0, i, limits, now);
    }
  }

  lemma SingleLeaseCounted(l: Limiter, leases: seq<Lease>, limits: Limits, now: int)
    requires |leases| == 1 && Distinct(leases[0].dimensions)
    ensures AttemptCounted(l, RecordAll(l, leases, limits, now).0, leases[0], limits, now)
  {
    hide RecordFrom, AttemptCounted;
    assert leases[1..] == [];
    NothingToSettle(RecordFrom(l, leases[0], 0, limits, now).0, limits, now);
    FailuresRiseExactly(l, leases[0], limits, now);
  }

  // The limit swallows the failure of an owned place only if it was lowered after the reservation:
  // within the capacity of the limits in force, the place is itself part of that capacity.
  lemma OwnedPlaceIsCounted(a: Limiter, b: Limiter, lease: Lease, limits: Limits, now: int, i: nat)
    requires AttemptCounted(a, b, lease, limits, now) && i < |lease.dimensions|
    requires lease.token in Pending(a, lease.dimensions[i])
    requires Load(a, lease.dimensions[i]) <= LimitFor(limits, lease.dimensions[i].dimension)
    ensures Place(lease.token, i + 1) in Failures(b, lease.dimensions[i])
  {
    var d := lease.dimensions[i];
    PurgedIsSmaller(Failures(a, d), now - Window(limits));
    assert |Pending(a, d)| >= 1;
  }

  // An attempt whose places are held until `until`: as long as that has not passed, every place is
  // still there, and becomes a failure unless its counter is over the limit in force.
  ghost predicate AttemptRecorded(a: Limiter, b: Limiter, lease: Lease, limits: Limits, now: int, until: int) {
    && AttemptCounted(a, b, lease, limits, now)
    && (now < until ==> forall i :: 0 <= i < |lease.dimensions| ==>
          var d := lease.dimensions[i];
          lease.token in Pending(a, d) && (Load(a, d) <= LimitFor(limits, d.dimension) ==> Place(lease.token, i + 1) in Failures(b, d)))
  }

  lemma HeldPlacesAreRecorded(l: Limiter, lease: Lease, limits: Limits, now: int, until: int)
    requires Distinct(lease.dimensions) && (now < until ==> HoldsPlaces(l, [lease], lease.token, until))
    ensures AttemptRecorded(l, RecordAll(l, [lease], limits, now).0, lease, limits, now, until)
  {
    hide RecordAll, AttemptCounted, Pending, Failures;
    SingleLeaseCounted(l, [lease], limits, now);
    if now < until {
      forall i | 0 <= i < |lease.dimensions|
        ensures lease.token in Pending(l, lease.dimensions[i])
        ensures Load(l, lease.dimensions[i]) <= LimitFor(limits, lease.dimensions[i].dimension) ==>
                  Place(lease.token, i + 1) in Failures(RecordAll(l, [lease], limits, now).0, lease.dimensions[i])
      {
        assert lease.dimensions[i] in [lease][0].dimensions;
        if Load(l, lease.dimensions[i]) <= LimitFor(limits, lease.dimensions[i].dimension) {
          OwnedPlaceIsCounted(l, RecordAll(l, [lease], limits, now).0, lease, limits, now, i);
        }
      }
    }
  }

  // -- who is charged --------------------------------------------------------------------------

  // Every failure on record belongs to a token in `charged`.
  ghost predicate OnlyCharged(l: Limiter, charged: set<nat>) {
    forall d, p :: p in Failures(l, d) ==> p.token in charged
  }

  lemma ReserveChargesNobody(l: Limiter, dims: seq<Counter>, token: nat, limits: Limits, now: int)
    ensures forall d, p :: p in Failures(Reserve(l, dims, token, limits, now).0, d) ==> p in Failures(l, d)
  {
    var checked := CheckFrom(l, dims, limits, now).0;
    forall d, p | p in Failures(checked, d) ensures p in Failures(l, d) {
      CheckingSpares(l, dims, limits, now, p.token);
      assert p == Place(p.token, p.index);
    }
    AddingPlaces(checked, dims, token, LeaseEnd(now), token);
  }

  lemma CommitChargesItsTokens(l: Limiter, leases: seq<Lease>, limits: Limits, now: int)
    ensures forall d, p :: p in Failures(RecordAll(l, leases, limits, now).0, d) ==> p in Failures(l, d) || !OwnsNone(leases, p.token)
  {
    forall d, p | p in Failures(RecordAll(l, leases, limits, now).0, d) && OwnsNone(leases, p.token) ensures p in Failures(l, d) {
      CommitSettlesEveryLease(l, leases, limits, now, p.token);
      assert p == Place(p.token, p.index);
    }
  }

  lemma ReleaseChargesNobody(l: Limiter, leases: seq<Lease>)
    ensures forall d :: Failures(ReleaseAll(l, leases), d) == Failures(l, d)
  {
    ReleaseSettlesEveryLease(l, leases, 0);
  }

  lemma ClearingChargesNobody(l: Limiter, c: Counter)
    ensures forall d, p :: p in Failures(ClearFailures(l, c), d) ==> p in Failures(l, d)
  {
  }

  // -- what an unsettled place comes to ------------------------------------------------------

  // Places only go, and keep the end of their lease while they stay.
  ghost predicate PlacesShrink(a: Limiter, b: Limiter) {
    forall d, t :: t in Pending(b, d) ==> t in Pending(a, d) && Pending(b, d)[t] == Pending(a, d)[t]
  }

  lemma {:induction false} RecordingShrinks(l: Limiter, lease: Lease, index: nat, limits: Limits, now: int)
    requires index <= |lease.dimensions|
    ensures PlacesShrink(l, RecordFrom(l, lease, index, limits, now).0)
    decreases |lease.dimensions| - index
  {
    hide Failures, Pending, LimitFor, Window, RecordPlace;
    if index < |lease.dimensions| {
      var d := lease.dimensions[index];
      var next := RecordPlace(l, d, lease.token, index + 1, limits, now).0;
      RecordingPlace(l, d, lease.token, index + 1, limits, now);
      assert PlacesShrink(l, next) by {
        forall e, t | t in Pending(next, e) ensures t in Pending(l, e) && Pending(next, e)[t] == Pending(l, e)[t] {
          assert e != d ==> Same(l, next, e);
        }
      }
      RecordingShrinks(next, lease, index + 1, limits, now);
    }
  }

  lemma {:induction false} CommitShrinks(l: Limiter, leases: seq<Lease>, limits: Limits, now: int)
    ensures PlacesShrink(l, RecordAll(l, leases, limits, now).0)
    decreases |leases|
  {
    if leases != [] {
      hide RecordFrom, Pending;
      RecordingShrinks(l, leases[0], 0, limits, now);
      CommitShrinks(RecordFrom(l, leases[0], 0, limits, now).0, leases[1..], limits, now);
    }
  }

  lemma {:induction false} ReleasingShrinks(l: Limiter, dims: seq<Counter>, token: nat)
    ensures PlacesShrink(l, ReleaseFrom(l, dims, token))
    decreases |dims|
  {
    if dims != [] {
      var next := l.(pending := l.pending[dims[0] := Pending(l, dims[0]) - {token}]);
      assert PlacesShrink(l, next);
      ReleasingShrinks(next, dims[1..], token);
    }
  }

  lemma {:induction false} ReleaseShrinks(l: Limiter, leases: seq<Lease>)
    ensures PlacesShrink(l, ReleaseAll(l, leases))
    decreases |leases|
  {
    if leases != [] {
      hide ReleaseFrom, Pending;
      ReleasingShrinks(l, leases[0].dimensions, leases[0].token);
      ReleaseShrinks(ReleaseFrom(l, leases[0].dimensions, leases[0].token), leases[1..]);
    }
  }

  lemma {:induction false} PlacesEndWithLease(l: Limiter, dims: seq<Counter>, token: nat, until: int)
    requires forall d :: token in Pending(l, d) ==> Pending(l, d)[token] == until
    ensures forall d :: token in Pending(AddPlaces(l, dims, token, until), d) ==> Pending(AddPlaces(l, dims, token, until), d)[token] == until
    decreases |dims|
  {
    if dims != [] {
      var next := l.(pending := l.pending[dims[0] := Pending(l, dims[0])[token := until]]);
      forall d | token in Pending(next, d) ensures Pending(next, d)[token] == until {
        assert d != dims[0] ==> Pending(next, d) == Pending(l, d);
      }
      PlacesEndWithLease(next, dims[1..], token, until);
    }
  }

  // The same for one token.
  ghost predicate TokenShrinks(a: Limiter, b: Limiter, token: nat) {
    forall d :: token in Pending(b, d) ==> token in Pending(a, d) && Pending(b, d)[token] == Pending(a, d)[token]
  }

  lemma {:induction false} CheckingShrinks(l: Limiter, dims: seq<Counter>, limits: Limits, now: int, token: nat)
    ensures TokenShrinks(l, CheckFrom(l, dims, limits, now).0, token)
    decreases |dims|
  {
    if dims != [] {
      CheckingShrinks(PurgeCounter(l, dims[0], limits, now), dims[1..], limits, now, token);
    }
  }

  lemma {:induction false} AddingShrinksOthers(l: Limiter, dims: seq<Counter>, token: nat, until: int, other: nat)
    requires other != token
    ensures TokenShrinks(l, AddPlaces(l, dims, token, until), other)
    decreases |dims|
  {
    if dims != [] {
      AddingShrinksOthers(l.(pending := l.pending[dims[0] := Pending(l, dims[0])[token := until]]), dims[1..], token, until, other);
    }
  }

  lemma ReserveShrinksOthers(l: Limiter, dims: seq<Counter>, token: nat, limits: Limits, now: int, other: nat)
    requires other != token
    ensures TokenShrinks(l, Reserve(l, dims, token, limits, now).0, other)
  {
    CheckingShrinks(l, dims, limits, now, other);
    AddingShrinksOthers(CheckFrom(l, dims, limits, now).0, dims, token, LeaseEnd(now), other);
  }

  // No place of the token outlasts `end`.
  ghost predicate EndsBy(l: Limiter, token: nat, end: int) {
    forall d :: token in Pending(l, d) ==> Pending(l, d)[token] <= end
  }

  lemma ReserveEndsWithLease(l: Limiter, dims: seq<Counter>, token: nat, limits: Limits, now: int)
    requires Settled(l, token)
    ensures EndsBy(Reserve(l, dims, token, limits, now).0, token, LeaseEnd(now))
  {
    var checked := CheckFrom(l, dims, limits, now).0;
    CheckingSpares(l, dims, limits, now, token);
    PlacesEndWithLease(checked, dims, token, LeaseEnd(now));
  }

  // -- committing a reserved failure -------------------------------------------------------------

  // The limiter's storage as one request sees it.
  class LimiterStore {
    var state: Limiter

    constructor (state: Limiter)
      ensures this.state == state
    {
      this.state := state;
    }

    // One script run per lease, until the storage gives out after `reach` of them.
    method RecordLeases(reservation: Reservation, limits: Limits, now: int, reach: nat) returns (record: Option<FailureRecord>)
      modifies this
      ensures record.None? <==> reach < |reservation.leases|
      ensures record.None? ==> state == RecordAll(old(state), reservation.leases[..reach], limits, now).0
      ensures record.Some? ==>
        && state == RecordAll(old(state), reservation.leases, limits, now).0
        && record.value == FailureRecord(RecordAll(old(state), reservation.leases, limits, now).1, reservation.leases != [])
    {
      if reservation.leases == [] {
        return Some(FailureRecord([], false));
      }
      var leases := reservation.leases;
      var reached := [];
      var i := 0;
      while i < |leases|
        invariant 0 <= i <= |leases| && i <= reach
        invariant RecordAll(old(state), leases[..i], limits, now) == (state, reached)
      {
        if i == reach {
          return None;
        }
        RecordAllSnoc(old(state), leases[..i], leases[i], limits, now);
        assert leases[..i] + [leases[i]] == leases[..i + 1];
        var (next, full) := RecordFrom(state, leases[i], 0, limits, now);
        state, reached := next, reached + full;
        i := i + 1;
      }
      assert leases[..i] == leases;
      return Some(FailureRecord(reached, true));
    }

    // One script per lease as well, as far as the storage goes along.
    method Release(reservation: Reservation, reach: nat) returns (released: bool)
      modifies this
      ensures released <==> reach >= |reservation.leases|
      ensures state == ReleaseAll(old(state), reservation.leases[..Least(reach, |reservation.leases|)])
    {
      ghost var start := state;
      var leases := reservation.leases[..Least(reach, |reservation.leases|)];
      var i := 0;
      while i < |leases|
        invariant 0 <= i <= |leases|
        invariant ReleaseAll(state, leases[i..]) == ReleaseAll(start, leases)
      {
        state := ReleaseFrom(state, leases[i].dimensions, leases[i].token);
        assert leases[i..][0] == leases[i] && leases[i..][1..] == leases[i + 1..];
        i := i + 1;
      }
      return reach >= |reservation.leases|;
    }

    // `commit_reserved_failure`: whatever was not recorded is given back, also when recording broke
    // off half way or the fail-open policy answered "not recorded". A release that breaks off too is
    // only logged; what it leaves behind stays with the reservation's own leases and lapses with them.
    method CommitReservedFailure(reservation: Reservation, limits: Limits, now: int, reach: nat, failOpen: bool, releaseReach: nat)
      returns (record: Result<FailureRecord>)
      modifies this
      ensures reach >= |reservation.leases| || releaseReach >= |reservation.leases| ==>
        forall token :: ConfinedToLeases(old(state), reservation.leases, token) ==> Settled(state, token)
      ensures forall token :: ConfinedToLeases(old(state), reservation.leases, token) ==> ConfinedToLeases(state, reservation.leases, token)
      ensures PlacesShrink(old(state), state)
      ensures forall token :: OwnsNone(reservation.leases, token) ==> SparesToken(old(state), state, token)
      ensures forall d :: Load(state, d) <= Load(old(state), d)
      ensures reach >= |reservation.leases| ==> state == RecordAll(old(state), reservation.leases, limits, now).0
      ensures reach < |reservation.leases| ==>
        && state.failures == RecordAll(old(state), reservation.leases[..reach], limits, now).0.failures
        && (record.Err? <==> !failOpen)
        && (record.Ok? ==> !record.value.recorded)
    {
      hide RecordAll, ReleaseAll, Load, Settled, SparesToken, PlacesShrink, ConfinedToLeases, OwnsNone;
      ghost var start, leases := state, reservation.leases;
      var outcome := RecordLeases(reservation, limits, now, reach);
      if outcome.Some? && outcome.value.recorded {
        SettledByCommit(start, leases, limits, now);
        return Ok(outcome.value);
      }
      ghost var recorded := if reach < |leases| then reach else 0;
      assert outcome.Some? ==> leases == [] && leases[..recorded] == leases;
      var released := Release(reservation, releaseReach);
      SettledByRelease(start, leases, limits, now, recorded, Least(releaseReach, |leases|));
      assert outcome.Some? ==> state == RecordAll(start, leases, limits, now).0 by {
        if outcome.Some? { NothingToSettle(start, limits, now); }
      }
      if outcome.Some? { return Ok(outcome.value); }
      if failOpen { return Ok(FailureRecord([], false)); }
      return Err(RedisUnavailable);
    }
  }

  function Least(a: nat, b: nat): (r: nat)
    ensures r <= a && r <= b && (r == a || r == b)
  {
    if a < b then a else b
  }

  lemma NothingToSettle(l: Limiter, limits: Limits, now: int)
    ensures RecordAll(l, [], limits, now) == (l, []) && ReleaseAll(l, []) == l
  {
  }

  lemma RecordAllSnoc(l: Limiter, leases: seq<Lease>, last: Lease, limits: Limits, now: int)
    ensures var (a, reached) := RecordAll(l, leases, limits, now);
            var (b, more) := RecordFrom(a, last, 0, limits, now);
            RecordAll(l, leases + [last], limits, now) == (b, reached + more)
  {
    var (a, _) := RecordAll(l, leases, limits, now);
    var (b, more) := RecordFrom(a, last, 0, limits, now);
    RecordAllConcat(l, leases, [last], limits, now);
    assert [last][1..] == [] && RecordAll(b, [], limits, now) == (b, []) && more + [] == more;
  }

  lemma ShrunkStaysConfined(a: Limiter, b: Limiter, leases: seq<Lease>)
    requires PlacesShrink(a, b)
    ensures forall token :: ConfinedToLeases(a, leases, token) ==> ConfinedToLeases(b, leases, token)
  {
  }

  lemma SettledByCommit(l: Limiter, leases: seq<Lease>, limits: Limits, now: int)
    ensures var r := RecordAll(l, leases, limits, now).0;
            && (forall token :: ConfinedToLeases(l, leases, token) ==> Settled(r, token) && ConfinedToLeases(r, leases, token))
            && (forall token :: OwnsNone(leases, token) ==> SparesToken(l, r, token))
            && (forall d :: Load(r, d) <= Load(l, d))
            && PlacesShrink(l, r)
  {
    hide RecordAll, Load;
    var r := RecordAll(l, leases, limits, now).0;
    forall token: nat ensures
      (ConfinedToLeases(l, leases, token) ==> Settled(r, token)) && (OwnsNone(leases, token) ==> SparesToken(l, r, token))
    {
      CommitSettlesEveryLease(l, leases, limits, now, token);
    }
    CommitLightens(l, leases, limits, now);
    CommitShrinks(l, leases, limits, now);
    ShrunkStaysConfined(l, r, leases);
  }

  lemma ReleaseSpares(l: Limiter, m: Limiter, leases: seq<Lease>, part: seq<Lease>, token: nat)
    requires SparesToken(l, m, token) && OwnsNone(leases, token) && part <= leases
    ensures SparesToken(l, ReleaseAll(m, part), token)
  {
    hide ReleaseAll;
    assert OwnsNone(part, token);
    ReleaseSettlesEveryLease(m, part, token);
    SparesIsTransitive(l, m, ReleaseAll(m, part), token);
  }

  lemma SettledByRelease(l: Limiter, leases: seq<Lease>, limits: Limits, now: int, recorded: nat, released: nat)
    requires recorded <= |leases| && released <= |leases|
    ensures var m := RecordAll(l, leases[..recorded], limits, now).0;
            var r := ReleaseAll(m, leases[..released]);
            && (released == |leases| ==> forall token :: ConfinedToLeases(l, leases, token) ==> Settled(r, token))
            && (forall token :: ConfinedToLeases(l, leases, token) ==> ConfinedToLeases(r, leases, token))
            && (forall token :: OwnsNone(leases, token) ==> SparesToken(l, r, token))
            && (forall d :: Load(r, d) <= Load(l, d))
            && PlacesShrink(l, r)
            && r.failures == m.failures
  {
    hide RecordAll, ReleaseAll, Load;
    var m := RecordAll(l, leases[..recorded], limits, now).0;
    var r := ReleaseAll(m, leases[..released]);
    CommitShrinks(l, leases[..recorded], limits, now);
    ShrunkStaysConfined(l, m, leases);
    ReleaseShrinks(m, leases[..released]);
    assert leases[..|leases|] == leases;
    forall token: nat ensures
      && (released == |leases| && ConfinedToLeases(l, leases, token) ==> Settled(r, token))
      && (OwnsNone(leases, token) ==> SparesToken(l, r, token))
    {
      ReleaseSettlesEveryLease(m, leases[..released], token);
      if OwnsNone(leases, token) {
        assert OwnsNone(leases[..recorded], token);
        CommitSettlesEveryLease(l, leases[..recorded], limits, now, token);
        ReleaseSpares(l, m, leases, leases[..released], token);
      }
    }
    ShrunkStaysConfined(l, r, leases);
    CommitLightens(l, leases[..recorded], limits, now);
    ReleaseLightens(m, leases[..released]);
    ReleaseSettlesEveryLease(m, leases[..released], 0);
  }
}

// The directory lease that guards key storage: a directory is the lock, an owner file inside it says
// whose it is, and its modification time is the heartbeat (src/key_lock_directory.rs).
//
// Every file-system call is one step, and the steps of any number of leases interleave. Files are
// inodes: an open handle keeps its inode after the path has come to mean another one. A record is
// kept decoded here; LeaseRecord says which records survive their text form.

module DirectoryLease {
  import opened Prelude
  import opened LeaseRecord

  const STALE_LOCK_AGE: int := 60 * SECOND

  // `creator` and `author` are history: whose `create_dir`, and whose `write`, made the directory and
  // the file.
  datatype Dir = Dir(creator: Identity, mtime: int, owner: Option<nat>)
  datatype Inode = Inode(author: Identity, record: Option<Record>, mtime: int)

  // One lease, from `create_dir` to the end of its release. The inode of a phase is an open handle,
  // except in Live, where it is the file the lease was written to.
  datatype Phase =
    | Creating
    | Writing(inode: nat)
    | Failed
    | Abandoning
    | Live(inode: nat)
    | ReleaseOpened(inode: nat)
    | ReleaseChecked(inode: nat)
    | ReleaseTruncated(inode: nat)
    | Ended

  // The heartbeat thread of a lease.
  datatype Beat = Waiting | Opened(inode: nat) | Checked(inode: nat) | Stopped

  datatype Lease = Lease(phase: Phase, beat: Beat)

  datatype State = State(now: int, dir: Option<Dir>, inodes: map<nat, Inode>, next: nat, leases: map<Identity, Lease>)

  datatype Step =
    | Tick(later: int)
    | CreateDir(id: Identity)
    | OpenOwner(id: Identity)
    | WriteRecord(id: Identity)
    | FailWrite(id: Identity)
    | UnlinkOwner(id: Identity)
    | RemoveOwnDir(id: Identity)
    | BeatOpen(id: Identity)
    | BeatCheck(id: Identity)
    | BeatTouch(id: Identity)
    | ReleaseOpen(id: Identity)
    | ReleaseCheck(id: Identity)
    | ReleaseTruncate(id: Identity)
    | ReleaseWrite(id: Identity)
    | Crash(id: Identity)
    | Reclaim(process: Identity, at: int)

  // -- observation --------------------------------------------------------------------------------

  datatype Observed = Observed(record: Option<Record>, lastHeartbeat: Option<int>)

  function Observe(s: State): Observed {
    match s.dir
    case None => Observed(None, None)
    case Some(d) =>
      if d.owner.Some? && d.owner.value in s.inodes
      then Observed(s.inodes[d.owner.value].record, Some(s.inodes[d.owner.value].mtime))
      else Observed(None, Some(d.mtime))
  }

  predicate IsStale(o: Observed, current: Identity, now: int) {
    if o.lastHeartbeat.None? then false
    else if o.record.Some? && (o.record.value.released || SameProcess(o.record.value.identity, current)) then o.record.value.released
    else now - o.lastHeartbeat.value >= STALE_LOCK_AGE
  }

  // -- steps ------------------------------------------------------------------------------------

  predicate In(s: State, id: Identity, p: Phase) {
    id in s.leases && s.leases[id].phase == p
  }

  function Enter(s: State, id: Identity, p: Phase): State
    requires id in s.leases
  {
    s.(leases := s.leases[id := s.leases[id].(phase := p)])
  }

  function Beating(s: State, id: Identity, b: Beat): State
    requires id in s.leases
  {
    s.(leases := s.leases[id := s.leases[id].(beat := b)])
  }

  function Put(s: State, i: nat, record: Option<Record>): State
    requires i in s.inodes
  {
    s.(inodes := s.inodes[i := s.inodes[i].(record := record, mtime := s.now)])
  }

  function OwnerOf(s: State): Option<nat> {
    if s.dir.Some? && s.dir.value.owner.Some? && s.dir.value.owner.value in s.inodes then s.dir.value.owner else None
  }

  // `fs::write` opens by path: it creates the owner file, or truncates whichever one is there. When
  // the directory has gone it fails.
  function OpenForWrite(s: State, id: Identity): State
    requires id in s.leases
  {
    if s.dir.None? then Enter(s, id, Failed)
    else if OwnerOf(s).Some? then Enter(Put(s, OwnerOf(s).value, None), id, Writing(OwnerOf(s).value))
    else
      Enter(s.(inodes := s.inodes[s.next := Inode(id, None, s.now)], next := s.next + 1,
               dir := Some(s.dir.value.(owner := Some(s.next), mtime := s.now))), id, Writing(s.next))
  }

  function Unlink(s: State): State {
    if s.dir.Some? && s.dir.value.owner.Some? then s.(dir := Some(s.dir.value.(owner := None, mtime := s.now))) else s
  }

  // `remove_dir` refuses a directory that still holds a file.
  function RemoveDir(s: State): State {
    if s.dir.Some? && s.dir.value.owner.None? then s.(dir := None) else s
  }

  predicate Owned(s: State, i: nat, id: Identity) {
    i in s.inodes && s.inodes[i].record == Some(Record(id, false))
  }

  // A step that does not apply changes nothing.
  function Execute(s: State, a: Step): State {
    match a
    case Tick(later) => if later >= s.now then s.(now := later) else s
    case CreateDir(id) =>
      if id !in s.leases && s.dir.None?
      then s.(dir := Some(Dir(id, s.now, None)), leases := s.leases[id := Lease(Creating, Waiting)])
      else s
    case OpenOwner(id) => if In(s, id, Creating) then OpenForWrite(s, id) else s
    case WriteRecord(id) =>
      if id in s.leases && s.leases[id].phase.Writing? && s.leases[id].phase.inode in s.inodes
      then Enter(Put(s, s.leases[id].phase.inode, Some(Record(id, false))), id, Live(s.leases[id].phase.inode))
      else s
    case FailWrite(id) =>
      if id in s.leases && (s.leases[id].phase.Creating? || s.leases[id].phase.Writing?)
      then Enter(s, id, Failed)
      else s
    case UnlinkOwner(id) => if In(s, id, Failed) then Enter(Unlink(s), id, Abandoning) else s
    case RemoveOwnDir(id) => if In(s, id, Abandoning) then Enter(RemoveDir(s), id, Ended) else s
    case BeatOpen(id) =>
      if id in s.leases && s.leases[id].phase.Live? && s.leases[id].beat.Waiting?
      then Beating(s, id, if OwnerOf(s).Some? then Opened(OwnerOf(s).value) else Stopped)
      else s
    case BeatCheck(id) =>
      if id in s.leases && s.leases[id].beat.Opened?
      then Beating(s, id, if Owned(s, s.leases[id].beat.inode, id) then Checked(s.leases[id].beat.inode) else Stopped)
      else s
    case BeatTouch(id) =>
      if id in s.leases && s.leases[id].beat.Checked? && s.leases[id].beat.inode in s.inodes
      then Beating(Put(s, s.leases[id].beat.inode, s.inodes[s.leases[id].beat.inode].record), id, Waiting)
      else s
    case ReleaseOpen(id) =>
      // The heartbeat thread has been joined.
      if id in s.leases && s.leases[id].phase.Live? && (s.leases[id].beat.Waiting? || s.leases[id].beat.Stopped?)
      then Beating(Enter(s, id, if OwnerOf(s).Some? then ReleaseOpened(OwnerOf(s).value) else Ended), id, Stopped)
      else s
    case ReleaseCheck(id) =>
      if id in s.leases && s.leases[id].phase.ReleaseOpened?
      then Enter(s, id, if Owned(s, s.leases[id].phase.inode, id) then ReleaseChecked(s.leases[id].phase.inode) else Ended)
      else s
    case ReleaseTruncate(id) =>
      if id in s.leases && s.leases[id].phase.ReleaseChecked? && s.leases[id].phase.inode in s.inodes
      then Enter(Put(s, s.leases[id].phase.inode, None), id, ReleaseTruncated(s.leases[id].phase.inode))
      else s
    case ReleaseWrite(id) =>
      if id in s.leases && s.leases[id].phase.ReleaseTruncated? && s.leases[id].phase.inode in s.inodes
      then Enter(Put(s, s.leases[id].phase.inode, Some(Record(id, true))), id, Ended)
      else s
    case Crash(id) =>
      if id in s.leases then s.(leases := s.leases[id := Lease(Ended, Stopped)]) else s
    case Reclaim(process, at) =>
      if at <= s.now && IsStale(Observe(s), process, at) then s.(dir := None) else s
  }

  function Run(s: State, steps: seq<Step>): State
    decreases |steps|
  {
    if steps == [] then s else Run(Execute(s, steps[0]), steps[1..])
  }

  // -- who writes which file -----------------------------------------------------------------------

  // Handles that have passed their check, and handles a file was created through.
  predicate Bound(inodes: map<nat, Inode>, i: nat, id: Identity) {
    i in inodes && inodes[i].author == id
  }

  predicate LeaseBound(inodes: map<nat, Inode>, id: Identity, l: Lease) {
    && (l.beat.Checked? ==> Bound(inodes, l.beat.inode, id))
    && (l.phase.Writing? || l.phase.Live? || l.phase.ReleaseChecked? || l.phase.ReleaseTruncated? ==> Bound(inodes, l.phase.inode, id))
  }

  ghost predicate HandlesBound(s: State) {
    && (forall i :: i in s.inodes ==> i < s.next && (s.inodes[i].record.Some? ==> s.inodes[i].record.value.identity == s.inodes[i].author))
    && (forall id :: id in s.leases ==> LeaseBound(s.inodes, id, s.leases[id]))
    && (s.dir.Some? ==> s.dir.value.creator in s.leases)
    && (s.dir.Some? && s.dir.value.owner.Some? ==>
          && Bound(s.inodes, s.dir.value.owner.value, s.dir.value.creator)
          && !s.leases[s.dir.value.creator].phase.Creating?)
  }

  // The directory a lease is about to write its record into is its own or nobody's. The only thing
  // that can spoil this is a reclaim, followed by another lease, between the two calls.
  predicate Prompt(s: State, a: Step) {
    a.OpenOwner? && In(s, a.id, Creating) ==> s.dir.None? || s.dir.value.creator == a.id
  }

  // Opening the owner file by path keeps every file with its author exactly under that condition.
  lemma OpenKeepsHandlesIff(s: State, id: Identity)
    requires HandlesBound(s) && In(s, id, Creating)
    ensures HandlesBound(Execute(s, OpenOwner(id))) <==> s.dir.None? || s.dir.value.creator == id
  {
    var r := Execute(s, OpenOwner(id));
    if s.dir.Some? && s.dir.value.creator != id {
      if OwnerOf(s).Some? {
        assert !LeaseBound(r.inodes, id, r.leases[id]);
      } else {
        assert !Bound(r.inodes, s.next, s.dir.value.creator);
      }
    }
  }

  predicate Acquiring(a: Step) {
    a.CreateDir? || a.OpenOwner? || a.WriteRecord? || a.FailWrite? || a.UnlinkOwner? || a.RemoveOwnDir?
  }

  lemma AcquiringKeepsHandles(s: State, a: Step)
    requires HandlesBound(s) && Prompt(s, a) && Acquiring(a)
    ensures HandlesBound(Execute(s, a))
  {
  }

  predicate Releasing(a: Step) {
    a.ReleaseOpen? || a.ReleaseCheck? || a.ReleaseTruncate? || a.ReleaseWrite?
  }

  lemma ReleasingKeepsHandles(s: State, a: Step)
    requires HandlesBound(s) && Releasing(a)
    ensures HandlesBound(Execute(s, a))
  {
  }

  lemma HoldingKeepsHandles(s: State, a: Step)
    requires HandlesBound(s) && !Acquiring(a) && !Releasing(a)
    ensures HandlesBound(Execute(s, a))
  {
  }

  lemma StepKeepsHandles(s: State, a: Step)
    requires HandlesBound(s) && Prompt(s, a)
    ensures HandlesBound(Execute(s, a))
  {
    if Acquiring(a) { AcquiringKeepsHandles(s, a); }
    else if Releasing(a) { ReleasingKeepsHandles(s, a); }
    else { HoldingKeepsHandles(s, a); }
  }

  // Steps that lease `id` takes through a path or a handle.
  predicate By(a: Step, id: Identity) {
    !a.Tick? && !a.Reclaim? && a.id == id
  }

  // Nothing has changed for the lease that has the directory: the directory, the owner file in it,
  // its record and its heartbeat are as they were.
  predicate Spares(s: State, r: State) {
    && r.dir == s.dir
    && (OwnerOf(s).Some? ==> OwnerOf(s).value in r.inodes && r.inodes[OwnerOf(s).value] == s.inodes[OwnerOf(s).value])
  }

  // The steps that go by path and find something to act on: a creator opens the owner file, unless
  // that is an empty file touched at this very instant; a creator whose write failed unlinks the owner
  // file, or removes the empty directory.
  predicate Hits(s: State, a: Step) {
    || (a.OpenOwner? && In(s, a.id, Creating)
        && !(OwnerOf(s).Some? && s.inodes[OwnerOf(s).value].record.None? && s.inodes[OwnerOf(s).value].mtime == s.now))
    || (a.UnlinkOwner? && In(s, a.id, Failed) && s.dir.Some? && s.dir.value.owner.Some?)
    || (a.RemoveOwnDir? && In(s, a.id, Abandoning) && s.dir.Some? && s.dir.value.owner.None?)
  }

  // However late it runs, a step of a lease that has lost the directory spares the lease that has it
  // now exactly when it is not such a step.
  lemma LateStepSparesIff(s: State, a: Step, id: Identity)
    requires HandlesBound(s) && By(a, id) && s.dir.Some? && s.dir.value.creator != id
    ensures Spares(s, Execute(s, a)) <==> !Hits(s, a)
  {
    assert id in s.leases ==> LeaseBound(s.inodes, id, s.leases[id]);
  }

  predicate PromptRun(s: State, steps: seq<Step>)
    decreases |steps|
  {
    steps == [] || (Prompt(s, steps[0]) && PromptRun(Execute(s, steps[0]), steps[1..]))
  }

  lemma {:induction false} PromptRunKeepsHandles(s: State, steps: seq<Step>)
    requires HandlesBound(s) && PromptRun(s, steps)
    ensures HandlesBound(Run(s, steps))
    decreases |steps|
  {
    if steps != [] {
      StepKeepsHandles(s, steps[0]);
      PromptRunKeepsHandles(Execute(s, steps[0]), steps[1..]);
    }
  }

  // After any interleaving of any leases in which no creator opened another's owner file: a step of a
  // lease that has lost the directory spares the lease that has it now, except for those three steps.
  lemma LateLeaseSparesSuccessorIff(s: State, steps: seq<Step>, a: Step, id: Identity)
    requires HandlesBound(s) && PromptRun(s, steps) && By(a, id)
    requires var now := Run(s, steps); now.dir.Some? && now.dir.value.creator != id
    ensures var now := Run(s, steps); Spares(now, Execute(now, a)) <==> !Hits(now, a)
  {
    PromptRunKeepsHandles(s, steps);
    LateStepSparesIff(Run(s, steps), a, id);
  }

  // -- exclusion -----------------------------------------------------------------------------------

  // A lease that has not ended has the directory, and the file in it says what its phase says.
  predicate Holds(s: State, id: Identity, p: Phase) {
    p.Ended? || (
      && s.dir.Some? && s.dir.value.creator == id
      && match p
         case Creating => s.dir.value.owner.None?
         case Abandoning => s.dir.value.owner.None?
         case Failed => s.dir.value.owner.Some? ==> s.dir.value.owner.value in s.inodes && s.inodes[s.dir.value.owner.value].record.None?
         case Writing(i) => s.dir.value.owner == Some(i) && i in s.inodes && s.inodes[i].record.None?
         case ReleaseTruncated(i) => s.dir.value.owner == Some(i) && i in s.inodes && s.inodes[i].record.None?
         case Live(i) => s.dir.value.owner == Some(i) && Owned(s, i, id)
         case ReleaseOpened(i) => s.dir.value.owner == Some(i) && Owned(s, i, id)
         case ReleaseChecked(i) => s.dir.value.owner == Some(i) && Owned(s, i, id))
  }

  ghost predicate Exclusive(s: State) {
    HandlesBound(s) && forall id :: id in s.leases ==> Holds(s, id, s.leases[id].phase)
  }

  predicate Occupied(s: State) {
    s.dir.Some? && s.dir.value.creator in s.leases && !s.leases[s.dir.value.creator].phase.Ended?
  }

  // When a process tries to reclaim, the lease in possession is recorded as one of its own, or was
  // touched less than 60 s ago.
  predicate Timely(s: State, a: Step) {
    a.Reclaim? && Occupied(s) ==>
      var o := Observe(s);
      || (o.record.Some? && !o.record.value.released && SameProcess(o.record.value.identity, a.process))
      || (o.lastHeartbeat.Some? && s.now - o.lastHeartbeat.value < STALE_LOCK_AGE)
  }

  lemma AcquiringKeepsExclusive(s: State, a: Step)
    requires Exclusive(s) && Acquiring(a)
    ensures Exclusive(Execute(s, a))
  {
    assert Prompt(s, a);
    StepKeepsHandles(s, a);
    var r := Execute(s, a);
    forall id | id in r.leases ensures Holds(r, id, r.leases[id].phase) {
      assert id in s.leases ==> Holds(s, id, s.leases[id].phase);
      assert a.id in s.leases ==> Holds(s, a.id, s.leases[a.id].phase);
    }
  }

  lemma HoldingKeepsExclusive(s: State, a: Step)
    requires Exclusive(s) && !Acquiring(a) && !a.Reclaim? && !a.Tick?
    ensures Exclusive(Execute(s, a))
  {
    StepKeepsHandles(s, a);
    var r := Execute(s, a);
    forall id | id in r.leases ensures Holds(r, id, r.leases[id].phase) {
      assert id in s.leases ==> Holds(s, id, s.leases[id].phase) && LeaseBound(s.inodes, id, s.leases[id]);
      assert a.id in s.leases ==> Holds(s, a.id, s.leases[a.id].phase) && LeaseBound(s.inodes, a.id, s.leases[a.id]);
    }
  }

  lemma ReclaimKeepsExclusive(s: State, a: Step)
    requires Exclusive(s) && Timely(s, a) && a.Reclaim?
    ensures Exclusive(Execute(s, a))
  {
    StepKeepsHandles(s, a);
    if Occupied(s) {
      var id := s.dir.value.creator;
      assert Holds(s, id, s.leases[id].phase);
      assert Execute(s, a) == s;
    }
  }

  lemma StepKeepsExclusive(s: State, a: Step)
    requires Exclusive(s) && Timely(s, a)
    ensures Exclusive(Execute(s, a))
  {
    if Acquiring(a) { AcquiringKeepsExclusive(s, a); }
    else if a.Reclaim? { ReclaimKeepsExclusive(s, a); }
    else if a.Tick? { StepKeepsHandles(s, a); }
    else { HoldingKeepsExclusive(s, a); }
  }

  predicate TimelyRun(s: State, steps: seq<Step>)
    decreases |steps|
  {
    steps == [] || (Timely(s, steps[0]) && TimelyRun(Execute(s, steps[0]), steps[1..]))
  }

  // Exclusion over every run of any leases in any order: at most one lease at a time is between its
  // `create_dir` and its release marker.
  lemma {:induction false} AtMostOneLease(s: State, steps: seq<Step>)
    requires Exclusive(s) && TimelyRun(s, steps)
    ensures var r := Run(s, steps);
            && Exclusive(r)
            && (forall a, b :: a in r.leases && b in r.leases && !r.leases[a].phase.Ended? && !r.leases[b].phase.Ended? ==> a == b)
    decreases |steps|
  {
    if steps != [] {
      StepKeepsExclusive(s, steps[0]);
      AtMostOneLease(Execute(s, steps[0]), steps[1..]);
    } else {
      forall a, b | a in s.leases && b in s.leases && !s.leases[a].phase.Ended? && !s.leases[b].phase.Ended? ensures a == b {
        assert Holds(s, a, s.leases[a].phase) && Holds(s, b, s.leases[b].phase);
      }
    }
  }

  lemma ReclaimsExactly(s: State, process: Identity, at: int)
    requires at <= s.now && s.dir.Some?
    ensures var o := Observe(s);
            Execute(s, Reclaim(process, at)).dir.None? <==>
              if o.record.Some? && o.record.value.released then true
              else if o.record.Some? && SameProcess(o.record.value.identity, process) then false
              else at - o.lastHeartbeat.value >= STALE_LOCK_AGE
  {
  }

  // The steps of others, of the clock, and the heartbeats of `id`; reclaims only by its own process.
  predicate LeavesAlone(a: Step, id: Identity) {
    if a.Tick? then true
    else if a.Reclaim? then SameProcess(id, a.process)
    else a.id == id ==> !a.ReleaseOpen? && !a.Crash?
  }

  lemma OwnLeaseSurvivesStep(s: State, a: Step, id: Identity, i: nat)
    requires Exclusive(s) && In(s, id, Live(i)) && LeavesAlone(a, id)
    ensures Exclusive(Execute(s, a)) && In(Execute(s, a), id, Live(i))
  {
    assert Holds(s, id, s.leases[id].phase);
    if a.Reclaim? && a.at <= s.now { ReclaimsExactly(s, a.process, a.at); }
    assert Timely(s, a);
    StepKeepsExclusive(s, a);
  }

  // A process never takes an unreleased lease away from itself: whatever else runs, however long
  // the heartbeats stay away, the lease keeps the directory and its record through every run whose
  // reclaims are all by its own process.
  lemma {:induction false} OwnLeaseSurvivesRun(s: State, steps: seq<Step>, id: Identity, i: nat)
    requires Exclusive(s) && In(s, id, Live(i))
    requires forall k :: 0 <= k < |steps| ==> LeavesAlone(steps[k], id)
    ensures var r := Run(s, steps);
            && Exclusive(r) && In(r, id, Live(i))
            && r.dir.Some? && r.dir.value.creator == id && r.dir.value.owner == Some(i) && Owned(r, i, id)
    decreases |steps|
  {
    assert Holds(s, id, s.leases[id].phase);
    if steps != [] {
      assert LeavesAlone(steps[0], id);
      OwnLeaseSurvivesStep(s, steps[0], id, i);
      OwnLeaseSurvivesRun(Execute(s, steps[0]), steps[1..], id, i);
    }
  }

  // -- without the atomic second look ------------------------------------------------------------

  // Removal by path, as a step of its own after the second observation.
  function RemoveByPath(s: State): State {
    RemoveDir(Unlink(s))
  }

  // Such a removal keeps exclusion exactly when, at that moment, nobody is in possession.
  lemma SeparateRemovalIsSafeIff(s: State)
    requires Exclusive(s)
    ensures Exclusive(RemoveByPath(s)) <==> !Occupied(s)
  {
    var r := RemoveByPath(s);
    if Occupied(s) {
      assert !Holds(r, s.dir.value.creator, r.leases[s.dir.value.creator].phase);
    } else {
      forall id | id in r.leases ensures Holds(r, id, r.leases[id].phase) {
        assert Holds(s, id, s.leases[id].phase);
      }
    }
  }

  const EMPTY: State := State(0, None, map[], 0, map[])

  function Process(nonce: string): Identity {
    Identity("host", 1, 1, nonce)
  }

  function Taking(id: Identity): seq<Step> {
    [CreateDir(id), OpenOwner(id), WriteRecord(id)]
  }

  lemma OneThenMore(s: State, x: Step, more: seq<Step>)
    ensures Run(s, [x] + more) == Run(Execute(s, x), more)
    ensures PromptRun(s, [x] + more) <==> Prompt(s, x) && PromptRun(Execute(s, x), more)
  {
    hide Execute, Prompt;
    assert ([x] + more)[1..] == more;
  }

  lemma ThreeThenMore(s: State, x: Step, y: Step, z: Step, more: seq<Step>)
    ensures var r := Execute(Execute(Execute(s, x), y), z);
            && Run(s, [x, y, z] + more) == Run(r, more)
            && (PromptRun(s, [x, y, z] + more) <==>
                  Prompt(s, x) && Prompt(Execute(s, x), y) && Prompt(Execute(Execute(s, x), y), z) && PromptRun(r, more))
  {
    hide Execute, Prompt, Run, PromptRun;
    assert [x, y, z] + more == [x] + ([y] + ([z] + more));
    OneThenMore(s, x, [y] + ([z] + more));
    OneThenMore(Execute(s, x), y, [z] + more);
    OneThenMore(Execute(Execute(s, x), y), z, more);
  }

  // What taking a free directory comes to.
  function Taken(s: State, id: Identity): State {
    State(s.now, Some(Dir(id, s.now, Some(s.next))), s.inodes[s.next := Inode(id, Some(Record(id, false)), s.now)],
          s.next + 1, s.leases[id := Lease(Live(s.next), Waiting)])
  }

  lemma TakingSteps(s: State, id: Identity)
    requires s.dir.None? && id !in s.leases && s.next !in s.inodes
    ensures Execute(Execute(Execute(s, CreateDir(id)), OpenOwner(id)), WriteRecord(id)) == Taken(s, id)
  {
    var r := Execute(Execute(Execute(s, CreateDir(id)), OpenOwner(id)), WriteRecord(id));
    assert r.leases == Taken(s, id).leases && r.inodes == Taken(s, id).inodes;
  }

  lemma TakingFreeDirectory(s: State, id: Identity)
    requires s.dir.None? && id !in s.leases && s.next !in s.inodes
    ensures Run(s, Taking(id)) == Taken(s, id)
  {
    hide Execute;
    TakingSteps(s, id);
    ThreeThenMore(s, CreateDir(id), OpenOwner(id), WriteRecord(id), []);
    assert Taking(id) + [] == Taking(id);
  }

  // Two reclaimers look at one released directory. The first removes it and a lease is taken; the
  // second, which looked before, removes that lease's directory, and another lease is taken: two
  // live leases, no time having passed at all.
  lemma SeparateRemovalBreaksExclusion(process: Identity)
    ensures var first, second := Process("c"), Process("d");
            var released := State(0, Some(Dir(Process("a"), 0, Some(0))), map[0 := Inode(Process("a"), Some(Record(Process("a"), true)), 0)],
                                  1, map[Process("a") := Lease(Ended, Stopped)]);
            && Exclusive(released) && IsStale(Observe(released), process, 0)
            && var last := Run(RemoveByPath(Run(RemoveByPath(released), Taking(first))), Taking(second));
               first in last.leases && last.leases[first].phase.Live? && second in last.leases && last.leases[second].phase.Live?
  {
    var first, second := Process("c"), Process("d");
    var released := State(0, Some(Dir(Process("a"), 0, Some(0))), map[0 := Inode(Process("a"), Some(Record(Process("a"), true)), 0)],
                          1, map[Process("a") := Lease(Ended, Stopped)]);
    assert Process("a").nonce != first.nonce && first.nonce != second.nonce && Process("a").nonce != second.nonce;
    TakingFreeDirectory(RemoveByPath(released), first);
    TakingFreeDirectory(RemoveByPath(Run(RemoveByPath(released), Taking(first))), second);
  }

  // A creator that stalls for a minute, and the lease that takes over meanwhile.
  function Overtaking(a: Identity, b: Identity): seq<Step> {
    [CreateDir(a), Tick(STALE_LOCK_AGE), Reclaim(b, STALE_LOCK_AGE)] + Taking(b)
  }

  function Overtaken(a: Identity, b: Identity): State {
    State(STALE_LOCK_AGE, Some(Dir(b, STALE_LOCK_AGE, Some(0))), map[0 := Inode(b, Some(Record(b, false)), STALE_LOCK_AGE)], 1,
          map[a := Lease(Creating, Waiting), b := Lease(Live(0), Waiting)])
  }

  lemma OvertakingIsPrompt(a: Identity, b: Identity)
    requires a != b
    ensures PromptRun(EMPTY, Overtaking(a, b)) && Run(EMPTY, Overtaking(a, b)) == Overtaken(a, b)
  {
    var free := State(STALE_LOCK_AGE, None, map[], 0, map[a := Lease(Creating, Waiting)]);
    assert Execute(Execute(Execute(EMPTY, CreateDir(a)), Tick(STALE_LOCK_AGE)), Reclaim(b, STALE_LOCK_AGE)) == free;
    ThreeThenMore(EMPTY, CreateDir(a), Tick(STALE_LOCK_AGE), Reclaim(b, STALE_LOCK_AGE), Taking(b));
    TakingFreeDirectory(free, b);
    assert Overtaken(a, b).leases == free.leases[b := Lease(Live(0), Waiting)];
    ThreeThenMore(free, CreateDir(b), OpenOwner(b), WriteRecord(b), []);
    assert Taking(b) + [] == Taking(b);
  }

  // A creator that stalls for a minute between its two calls truncates its successor's owner file.
  lemma StalledCreatorOverwrites()
    ensures var a, b := Process("a"), Process("b");
            var taken := Run(EMPTY, Overtaking(a, b));
            && PromptRun(EMPTY, Overtaking(a, b)) && Owned(taken, 0, b) && !Prompt(taken, OpenOwner(a))
            && !Owned(Execute(taken, OpenOwner(a)), 0, b)
  {
    var a, b := Process("a"), Process("b");
    assert a.nonce != b.nonce;
    OvertakingIsPrompt(a, b);
  }

  lemma OvertakenCleansUp(a: Identity, b: Identity)
    requires a != b
    ensures var s := Overtaken(a, b); var unlinked := Execute(Execute(s, FailWrite(a)), UnlinkOwner(a));
            && OwnerOf(unlinked).None? && HasStopped(Execute(unlinked, BeatOpen(b)), b)
            && Execute(unlinked, RemoveOwnDir(a)) == s.(dir := None, leases := s.leases[a := Lease(Ended, Waiting)])
  {
    hide Run, PromptRun;
    var s := Overtaken(a, b);
    assert Execute(s, FailWrite(a)) == s.(leases := s.leases[a := Lease(Failed, Waiting)]);
    var unlinked := Execute(Execute(s, FailWrite(a)), UnlinkOwner(a));
    assert unlinked.leases == s.leases[a := Lease(Abandoning, Waiting)];
  }

  predicate HasStopped(s: State, id: Identity) {
    id in s.leases && s.leases[id].beat.Stopped?
  }

  // The same creator, if its write fails instead: it unlinks its successor's owner file, whose next
  // heartbeat stops, and removes its successor's directory. A third lease is taken: two live leases,
  // though no creator ever opened another's file.
  lemma FailedCreatorEvictsSuccessor()
    ensures var a, b, c := Process("a"), Process("b"), Process("c");
            var taken := Run(EMPTY, Overtaking(a, b));
            var unlinked := Execute(Execute(taken, FailWrite(a)), UnlinkOwner(a));
            var last := Run(Execute(unlinked, RemoveOwnDir(a)), Taking(c));
            && PromptRun(EMPTY, Overtaking(a, b)) && OwnerOf(taken) == Some(0) && Owned(taken, 0, b)
            && OwnerOf(unlinked).None? && HasStopped(Execute(unlinked, BeatOpen(b)), b)
            && In(last, b, Live(0)) && In(last, c, Live(1))
  {
    var a, b, c := Process("a"), Process("b"), Process("c");
    hide Execute, Run, PromptRun;
    assert a.nonce != b.nonce && b.nonce != c.nonce && a.nonce != c.nonce;
    OvertakingIsPrompt(a, b);
    OvertakenCleansUp(a, b);
    var s := Overtaken(a, b);
    TakingFreeDirectory(s.(dir := None, leases := s.leases[a := Lease(Ended, Waiting)]), c);
  }
}

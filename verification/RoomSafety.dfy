/** What every run of packets, disconnects and interleaved jobs keeps. */
module RoomSafety {
  import opened Basics
  import opened Grid
  import opened GameRoom
  import opened Membership

  type Movers = map<Idx, Mover>
  type Leaving = Option<Leaver>
  type Sessions = map<nat, Session>

  // ---- Who is known, and the login count -------------------------------------------------------------

  ghost predicate KnownRoom(r: State) {
    && WellFormed(r) && r.members <= r.table.Keys
    && (forall pid <- r.table :: pid <= r.sessionCnt)
    && (forall pid <- r.jobs :: pid in r.table)
    && (forall z <- r.zones :: forall pid <- r.zones[z] :: pid in r.table)
    && (forall i :: OnGrid(i) ==> At(r.sectors, i) <= r.table.Keys)
  }

  ghost predicate KnownTasks(r: State, movers: Movers, leaver: Leaving) {
    && (forall z <- movers :: movers[z].pid in r.table && OnGrid(movers[z].target))
    && (leaver.Some? ==> leaver.value.pid in r.table)
    && (Uncounted(leaver) ==> leaver.value.pid !in r.members)
  }

  ghost predicate KnownOwners(r: State, sessions: Sessions) {
    forall s <- sessions :: sessions[s].own.Some? ==> sessions[s].own.value in r.table
  }

  /** The Logout job under way has taken its player out of m_players and not yet counted it. */
  predicate Uncounted(l: Leaving) {
    l.Some? && (l.value.pc.FromState? || l.value.pc.FromCount?)
  }

  predicate Counted(r: State, leaver: Leaving, redundant: nat) {
    r.loginCnt == |r.members| - redundant + if Uncounted(leaver) then 1 else 0
  }

  predicate LeaverIs(leaver: Leaving, pid: nat) {
    leaver.Some? && leaver.value.pid == pid
  }

  /** The Logout job under way is before this operation on this player. */
  predicate Before(l: Leaving, pid: nat, pc: LeavePc) {
    l == Some(Leaver(pid, pc))
  }

  /** A connected player is a member, up to one step of its Logout job; a member that is not has such a job coming. */
  predicate Accounted(r: State, leaver: Leaving, pid: nat)
    requires pid in r.table
  {
    && (r.table[pid].connected ==> pid in r.members || Before(leaver, pid, FromState))
    && (pid in r.members ==>
          || r.table[pid].connected || pid in r.jobs
          || Before(leaver, pid, FromSector) || Before(leaver, pid, FromMembers))
  }

  // ---- Where one player is ---------------------------------------------------------------------------

  ghost predicate Nowhere(r: State, pid: nat)
    requires WellFormed(r)
  {
    forall i :: OnGrid(i) ==> pid !in At(r.sectors, i)
  }

  ghost predicate OnlyAt(r: State, pid: nat, k: Idx)
    requires WellFormed(r)
  {
    forall i :: OnGrid(i) ==> (pid in At(r.sectors, i) <==> i == k)
  }

  /** In its stored sector exactly if it is a member. */
  ghost predicate Resting(r: State, pid: nat)
    requires WellFormed(r) && pid in r.table
  {
    if pid in r.members then OnlyAt(r, pid, r.table[pid].sector) else Nowhere(r, pid)
  }

  ghost predicate MoverFits(r: State, m: Mover)
    requires WellFormed(r) && m.pid in r.table
  {
    m.pid in r.members &&
    match m.pc
    case Erasing => OnlyAt(r, m.pid, r.table[m.pid].sector)
    case Inserting => Nowhere(r, m.pid)
    case Storing => OnlyAt(r, m.pid, m.target)
  }

  ghost predicate LeaverFits(r: State, l: Leaver)
    requires WellFormed(r) && l.pid in r.table
  {
    match l.pc
    case FromSector => Resting(r, l.pid)
    case FromMembers => Nowhere(r, l.pid)
    case FromState => Nowhere(r, l.pid) && l.pid !in r.members
    case FromCount => Nowhere(r, l.pid) && l.pid !in r.members && !r.table[l.pid].connected
  }

  ghost predicate MovePending(r: State, pid: nat) {
    exists z <- r.zones :: pid in r.zones[z]
  }

  ghost predicate NoMover(movers: Movers, pid: nat) {
    forall z <- movers :: movers[z].pid != pid
  }

  /** A connected player with no move coming is, or is about to be, stored where it is. */
  ghost predicate Current(r: State, movers: Movers, pid: nat)
    requires pid in r.table
  {
    r.table[pid].connected && pid in r.members && !MovePending(r, pid) ==>
      && (forall z <- movers :: movers[z].pid == pid ==> movers[z].target == SectorIdx(r.table[pid].pos))
      && (NoMover(movers, pid) ==> r.table[pid].sector == SectorIdx(r.table[pid].pos))
  }

  /** What holds of a player whose jobs have never overlapped. */
  ghost predicate Orderly(r: State, movers: Movers, leaver: Leaving, pid: nat)
    requires WellFormed(r) && pid in r.table
  {
    && (forall z <- movers :: movers[z].pid == pid ==> MoverFits(r, movers[z]))
    && (forall y, z :: y in movers && z in movers && movers[y].pid == pid == movers[z].pid ==> y == z)
    && (LeaverIs(leaver, pid) ==> LeaverFits(r, leaver.value) && NoMover(movers, pid))
    && (NoMover(movers, pid) && !LeaverIs(leaver, pid) ==> Resting(r, pid))
    && Current(r, movers, pid)
  }

  /** What holds of the room whatever jobs overlap. */
  ghost predicate Sound(r: State, sessions: Sessions, movers: Movers, leaver: Leaving, redundant: nat) {
    && KnownRoom(r) && KnownTasks(r, movers, leaver) && KnownOwners(r, sessions)
    && Counted(r, leaver, redundant)
    && forall pid <- r.table :: Accounted(r, leaver, pid)
  }

  ghost predicate AllOrderly(r: State, movers: Movers, leaver: Leaving, clashed: set<nat>)
    requires WellFormed(r)
  {
    forall pid <- r.table :: pid !in clashed ==> Orderly(r, movers, leaver, pid)
  }

  ghost predicate Inv(sys: System) {
    && Sound(sys.room, sys.sessions, sys.movers, sys.leaver, sys.redundant)
    && AllOrderly(sys.room, sys.movers, sys.leaver, sys.clashed)
  }

  lemma InitialInv(sys: System)
    requires Initial(sys)
    ensures Inv(sys)
  {
  }

  // ---- Players a step has nothing to do with -----------------------------------------------------------

  ghost predicate SameFor(r: State, r': State, q: nat)
    requires WellFormed(r) && WellFormed(r')
  {
    && q in r.table && q in r'.table && r'.table[q] == r.table[q]
    && (q in r.members <==> q in r'.members)
    && (MovePending(r, q) <==> MovePending(r', q))
    && forall i :: OnGrid(i) ==> (q in At(r.sectors, i) <==> q in At(r'.sectors, i))
  }

  ghost predicate SameMovers(movers: Movers, movers': Movers, q: nat) {
    && (forall z <- movers :: movers[z].pid == q ==> z in movers' && movers'[z] == movers[z])
    && (forall z <- movers' :: movers'[z].pid == q ==> z in movers && movers[z] == movers'[z])
  }

  predicate SameLeaver(leaver: Leaving, leaver': Leaving, q: nat) {
    && (leaver.Some? && leaver.value.pid == q ==> leaver' == leaver)
    && (leaver'.Some? && leaver'.value.pid == q ==> leaver == leaver')
  }

  lemma StaysCurrent(r: State, movers: Movers, r': State, movers': Movers, q: nat)
    requires WellFormed(r) && WellFormed(r') && SameFor(r, r', q) && SameMovers(movers, movers', q)
    requires Current(r, movers, q)
    ensures Current(r', movers', q)
  {
    assert NoMover(movers, q) <==> NoMover(movers', q);
  }

  lemma StaysOrderly(r: State, movers: Movers, leaver: Leaving, r': State, movers': Movers, leaver': Leaving, q: nat)
    requires WellFormed(r) && WellFormed(r') && SameFor(r, r', q)
    requires SameMovers(movers, movers', q) && SameLeaver(leaver, leaver', q)
    requires Orderly(r, movers, leaver, q)
    ensures Orderly(r', movers', leaver', q)
  {
    StaysCurrent(r, movers, r', movers', q);
    assert NoMover(movers, q) <==> NoMover(movers', q);
  }

  lemma AddAtFor(r: State, i: Idx, pid: nat, q: nat)
    requires WellFormed(r) && OnGrid(i) && q in r.table && q != pid
    ensures SameFor(r, AddAt(r, i, pid), q)
  {
  }

  lemma RemoveAtFor(r: State, i: Idx, pid: nat, q: nat)
    requires WellFormed(r) && OnGrid(i) && q in r.table && q != pid
    ensures SameFor(r, RemoveAt(r, i, pid), q)
  {
  }

  lemma MoverLeavesOthers(r: State, m: Mover, q: nat)
    requires WellFormed(r) && m.pid in r.table && OnGrid(m.target) && q in r.table && q != m.pid
    ensures SameFor(r, MoverRoom(r, m), q)
  {
    if m.pc.Erasing? { RemoveAtFor(r, r.table[m.pid].sector, m.pid, q); }
    if m.pc.Inserting? { AddAtFor(r, m.target, m.pid, q); }
  }

  lemma LeaverLeavesOthers(r: State, l: Leaver, q: nat)
    requires WellFormed(r) && l.pid in r.table && q in r.table && q != l.pid
    ensures SameFor(r, LeaverRoom(r, l), q)
  {
    if l.pc.FromSector? { RemoveAtFor(r, r.table[l.pid].sector, l.pid, q); }
  }

  /** Steps that change neither m_players nor the count: queues may grow, and a player that leaves the connected state
      has its Logout job queued. */
  ghost predicate Similar(r: State, r': State)
    requires WellFormed(r)
  {
    && WellFormed(r')
    && r'.table.Keys == r.table.Keys && r'.members == r.members
    && r'.loginCnt == r.loginCnt && r'.sessionCnt == r.sessionCnt
    && (forall pid <- r.jobs :: pid in r'.jobs) && (forall pid <- r'.jobs :: pid in r.table)
    && (forall z <- r'.zones :: forall pid <- r'.zones[z] :: pid in r.table)
    && (forall i :: OnGrid(i) ==> At(r'.sectors, i) <= r.table.Keys)
    && (forall pid <- r.table :: r'.table[pid].connected ==> r.table[pid].connected)
    && (forall pid <- r.table :: r.table[pid].connected ==> r'.table[pid].connected || pid in r'.jobs)
  }

  lemma SoundAfter(r: State, sessions: Sessions, movers: Movers, leaver: Leaving, redundant: nat, r': State,
                   movers': Movers)
    requires Sound(r, sessions, movers, leaver, redundant) && Similar(r, r') && KnownTasks(r, movers', leaver)
    ensures Sound(r', sessions, movers', leaver, redundant)
  {
    forall pid | pid in r'.table ensures Accounted(r', leaver, pid) {
      assert Accounted(r, leaver, pid);
    }
  }

  // ---- The next operation of a move --------------------------------------------------------------------

  function MoversStep(movers: Movers, z: Idx): Movers
    requires z in movers
  {
    if NextMover(movers[z]).Some? then movers[z := NextMover(movers[z]).value] else movers - {z}
  }

  lemma MoverAdvances(r: State, m: Mover)
    requires WellFormed(r) && m.pid in r.table && OnGrid(m.target) && MoverFits(r, m)
    ensures m.pc.Storing? ==> Resting(MoverRoom(r, m), m.pid) && MoverRoom(r, m).table[m.pid].sector == m.target
    ensures !m.pc.Storing? ==> MoverFits(MoverRoom(r, m), NextMover(m).value)
  {
  }

  lemma MoverStaysCurrent(r: State, movers: Movers, z: Idx)
    requires WellFormed(r) && z in movers && movers[z].pid in r.table && OnGrid(movers[z].target)
    requires forall y <- movers :: movers[y].pid == movers[z].pid ==> y == z
    requires Current(r, movers, movers[z].pid)
    ensures Current(MoverRoom(r, movers[z]), MoversStep(movers, z), movers[z].pid)
  {
    var r', m, movers' := MoverRoom(r, movers[z]), movers[z], MoversStep(movers, z);
    assert MovePending(r, m.pid) <==> MovePending(r', m.pid);
    assert r'.table[m.pid].pos == r.table[m.pid].pos && r'.table[m.pid].connected == r.table[m.pid].connected;
    if !m.pc.Storing? {
      assert movers'[z].pid == m.pid && !NoMover(movers', m.pid);
    } else {
      assert r'.table[m.pid].sector == m.target;
      assert forall y <- movers' :: movers'[y] == movers[y];
    }
  }

  lemma StepMoveOrderly(r: State, movers: Movers, leaver: Leaving, z: Idx, q: nat)
    requires WellFormed(r) && z in movers && movers[z].pid in r.table && OnGrid(movers[z].target) && q in r.table
    requires Orderly(r, movers, leaver, q)
    ensures Orderly(MoverRoom(r, movers[z]), MoversStep(movers, z), leaver, q)
  {
    var m := movers[z];
    if q == m.pid {
      MoverAdvances(r, m);
      MoverStaysCurrent(r, movers, z);
      var movers' := MoversStep(movers, z);
      assert forall y <- movers' :: movers'[y].pid == q ==> y == z;
      assert !m.pc.Storing? ==> movers'[z].pid == q && !NoMover(movers', q);
    } else {
      MoverLeavesOthers(r, m, q);
      StaysOrderly(r, movers, leaver, MoverRoom(r, m), MoversStep(movers, z), leaver, q);
    }
  }

  lemma MoverKeepsShape(r: State, m: Mover)
    requires CanMove(r, m)
    ensures var r' := MoverRoom(r, m);
            && r'.table.Keys == r.table.Keys && r'.members == r.members && r'.jobs == r.jobs && r'.zones == r.zones
            && r'.loginCnt == r.loginCnt && r'.sessionCnt == r.sessionCnt
  {
  }

  lemma MoverKeepsConnected(r: State, m: Mover)
    requires CanMove(r, m)
    ensures forall pid <- r.table ::
              pid in MoverRoom(r, m).table && MoverRoom(r, m).table[pid].connected == r.table[pid].connected
  {
  }

  lemma StepMoveSimilar(r: State, m: Mover)
    requires KnownRoom(r) && m.pid in r.table && OnGrid(m.target)
    ensures Similar(r, MoverRoom(r, m))
  {
    MoverKeepsShape(r, m);
    MoverKeepsConnected(r, m);
    MoverKeepsContents(r, m);
  }

  lemma StepMoveSound(r: State, sessions: Sessions, movers: Movers, leaver: Leaving, redundant: nat, z: Idx)
    requires Sound(r, sessions, movers, leaver, redundant) && z in movers
    ensures Sound(MoverRoom(r, movers[z]), sessions, MoversStep(movers, z), leaver, redundant)
  {
    StepMoveSimilar(r, movers[z]);
    MoversStayKnown(r, movers, leaver, z);
    SoundAfter(r, sessions, movers, leaver, redundant, MoverRoom(r, movers[z]), MoversStep(movers, z));
  }

  lemma MoversStayKnown(r: State, movers: Movers, leaver: Leaving, z: Idx)
    requires KnownTasks(r, movers, leaver) && z in movers
    ensures KnownTasks(r, MoversStep(movers, z), leaver)
  {
  }

  lemma MoverKeepsContents(r: State, m: Mover)
    requires KnownRoom(r) && m.pid in r.table && OnGrid(m.target)
    ensures forall i :: OnGrid(i) ==> At(MoverRoom(r, m).sectors, i) <= r.table.Keys
  {
  }

  lemma StepMoveAllOrderly(r: State, movers: Movers, leaver: Leaving, clashed: set<nat>, z: Idx)
    requires WellFormed(r) && z in movers && movers[z].pid in r.table && OnGrid(movers[z].target)
    requires AllOrderly(r, movers, leaver, clashed)
    ensures AllOrderly(MoverRoom(r, movers[z]), MoversStep(movers, z), leaver, clashed)
  {
    MoverKeepsShape(r, movers[z]);
    forall pid | pid in r.table && pid !in clashed
      ensures Orderly(MoverRoom(r, movers[z]), MoversStep(movers, z), leaver, pid)
    {
      StepMoveOrderly(r, movers, leaver, z, pid);
    }
  }

  lemma StepMoveIs(sys: System, z: Idx)
    requires Enabled(sys, StepMove(z))
    ensures Next(sys, StepMove(z)) ==
            sys.(room := MoverRoom(sys.room, sys.movers[z]), movers := MoversStep(sys.movers, z))
  {
  }

  lemma StepMoveKeeps(sys: System, z: Idx)
    requires Inv(sys) && Enabled(sys, StepMove(z))
    ensures Inv(Next(sys, StepMove(z)))
  {
    StepMoveIs(sys, z);
    StepMoveSound(sys.room, sys.sessions, sys.movers, sys.leaver, sys.redundant, z);
    StepMoveAllOrderly(sys.room, sys.movers, sys.leaver, sys.clashed, z);
  }

  // ---- The next operation of a Logout job ----------------------------------------------------------------

  lemma LeaverAdvances(r: State, l: Leaver)
    requires WellFormed(r) && l.pid in r.table && LeaverFits(r, l)
    ensures NextLeaver(l).Some? ==> LeaverFits(LeaverRoom(r, l), NextLeaver(l).value)
    ensures NextLeaver(l).None? ==> Resting(LeaverRoom(r, l), l.pid)
  {
  }

  lemma LeaverStaysCurrent(r: State, movers: Movers, l: Leaver)
    requires WellFormed(r) && l.pid in r.table && Current(r, movers, l.pid)
    ensures Current(LeaverRoom(r, l), movers, l.pid)
  {
    var r' := LeaverRoom(r, l);
    assert MovePending(r, l.pid) <==> MovePending(r', l.pid);
    assert r'.table[l.pid].pos == r.table[l.pid].pos && r'.table[l.pid].sector == r.table[l.pid].sector;
  }

  lemma StepJobOrderly(r: State, movers: Movers, l: Leaver, q: nat)
    requires WellFormed(r) && l.pid in r.table && q in r.table && Orderly(r, movers, Some(l), q)
    ensures Orderly(LeaverRoom(r, l), movers, NextLeaver(l), q)
  {
    if q == l.pid {
      LeaverAdvances(r, l);
      LeaverStaysCurrent(r, movers, l);
    } else {
      LeaverLeavesOthers(r, l, q);
      StaysOrderly(r, movers, Some(l), LeaverRoom(r, l), movers, NextLeaver(l), q);
    }
  }

  lemma LeaverKeepsShape(r: State, l: Leaver)
    requires WellFormed(r) && l.pid in r.table
    ensures var r' := LeaverRoom(r, l);
            && r'.table.Keys == r.table.Keys && r'.jobs == r.jobs && r'.zones == r.zones
            && r'.sessionCnt == r.sessionCnt
            && r'.members == (if l.pc.FromMembers? then r.members - {l.pid} else r.members)
            && r'.loginCnt == r.loginCnt - (if l.pc.FromCount? then 1 else 0)
    ensures forall pid <- r.table ::
              LeaverRoom(r, l).table[pid].connected == (r.table[pid].connected && !(l.pc.FromState? && pid == l.pid))
  {
  }

  function JobRedundant(r: State, l: Leaver): nat {
    if l.pc.FromMembers? && l.pid !in r.members then 1 else 0
  }

  lemma StepJobCounted(r: State, l: Leaver, redundant: nat)
    requires WellFormed(r) && l.pid in r.table && Counted(r, Some(l), redundant)
    ensures Counted(LeaverRoom(r, l), NextLeaver(l), redundant + JobRedundant(r, l))
  {
    LeaverKeepsShape(r, l);
  }

  lemma StepJobAccounted(r: State, l: Leaver, pid: nat)
    requires WellFormed(r) && l.pid in r.table && pid in r.table && Accounted(r, Some(l), pid)
    requires Uncounted(Some(l)) ==> l.pid !in r.members
    ensures Accounted(LeaverRoom(r, l), NextLeaver(l), pid)
  {
    LeaverKeepsShape(r, l);
  }

  lemma LeaverKeepsContents(r: State, l: Leaver)
    requires KnownRoom(r) && l.pid in r.table
    ensures forall i :: OnGrid(i) ==> At(LeaverRoom(r, l).sectors, i) <= r.table.Keys
  {
  }

  lemma StepJobKnown(r: State, sessions: Sessions, movers: Movers, l: Leaver)
    requires KnownRoom(r) && KnownTasks(r, movers, Some(l)) && KnownOwners(r, sessions)
    ensures var r' := LeaverRoom(r, l);
            KnownRoom(r') && KnownTasks(r', movers, NextLeaver(l)) && KnownOwners(r', sessions)
  {
    LeaverKeepsShape(r, l);
    LeaverKeepsContents(r, l);
  }

  lemma StepJobSound(r: State, sessions: Sessions, movers: Movers, l: Leaver, redundant: nat)
    requires Sound(r, sessions, movers, Some(l), redundant)
    ensures Sound(LeaverRoom(r, l), sessions, movers, NextLeaver(l), redundant + JobRedundant(r, l))
  {
    LeaverKeepsShape(r, l);
    StepJobKnown(r, sessions, movers, l);
    StepJobCounted(r, l, redundant);
    forall pid | pid in r.table ensures Accounted(LeaverRoom(r, l), NextLeaver(l), pid) {
      StepJobAccounted(r, l, pid);
    }
  }

  lemma StepJobAllOrderly(r: State, movers: Movers, l: Leaver, clashed: set<nat>)
    requires WellFormed(r) && l.pid in r.table && AllOrderly(r, movers, Some(l), clashed)
    ensures AllOrderly(LeaverRoom(r, l), movers, NextLeaver(l), clashed)
  {
    LeaverKeepsShape(r, l);
    forall pid | pid in r.table && pid !in clashed ensures Orderly(LeaverRoom(r, l), movers, NextLeaver(l), pid) {
      StepJobOrderly(r, movers, l, pid);
    }
  }

  lemma StepJobIs(sys: System)
    requires Enabled(sys, StepJob)
    ensures var l := sys.leaver.value;
            Next(sys, StepJob) == sys.(room := LeaverRoom(sys.room, l), leaver := NextLeaver(l),
                                       redundant := sys.redundant + JobRedundant(sys.room, l))
  {
  }

  lemma StepJobKeeps(sys: System)
    requires Inv(sys) && Enabled(sys, StepJob)
    ensures Inv(Next(sys, StepJob))
  {
    StepJobIs(sys);
    StepJobSound(sys.room, sys.sessions, sys.movers, sys.leaver.value, sys.redundant);
    StepJobAllOrderly(sys.room, sys.movers, sys.leaver.value, sys.clashed);
  }

  // ---- Taking a job ----------------------------------------------------------------------------------------

  /** A zone's queue without its first job. */
  function Popped(r: State, z: Idx): (r': State)
    requires WellFormed(r) && z in r.zones && r.zones[z] != []
    ensures WellFormed(r')
  {
    r.(zones := r.zones[z := r.zones[z][1..]])
  }

  lemma PoppedPending(r: State, z: Idx, q: nat)
    requires WellFormed(r) && z in r.zones && r.zones[z] != []
    ensures MovePending(r, q) <==> MovePending(Popped(r, z), q) || q == r.zones[z][0]
  {
    var r' := Popped(r, z);
    assert r.zones[z] == [r.zones[z][0]] + r'.zones[z];
    if MovePending(r, q) {
      var y :| y in r.zones && q in r.zones[y];
      assert q == r.zones[z][0] || q in r'.zones[y];
    }
    if MovePending(r', q) {
      var y :| y in r'.zones && q in r'.zones[y];
      assert y in r.zones && q in r.zones[y];
    }
    if q == r.zones[z][0] { assert q in r.zones[z]; }
  }

  function MoversRun(r: State, movers: Movers, z: Idx): Movers
    requires z in r.zones && r.zones[z] != [] && r.zones[z][0] in r.table
  {
    var pid := r.zones[z][0];
    if Moves(r, pid) then movers[z := Mover(pid, Erasing, SectorIdx(r.table[pid].pos))] else movers
  }

  /** A zone takes a job of a player none of whose jobs is under way. */
  lemma RunMoveStarts(r: State, movers: Movers, leaver: Leaving, z: Idx)
    requires HasMove(r, z) && z !in movers
    requires var pid := r.zones[z][0];
             NoMover(movers, pid) && !LeaverIs(leaver, pid) && Accounted(r, leaver, pid) &&
             Orderly(r, movers, leaver, pid)
    ensures Orderly(Popped(r, z), MoversRun(r, movers, z), leaver, r.zones[z][0])
  {
    var pid, r', movers' := r.zones[z][0], Popped(r, z), MoversRun(r, movers, z);
    PoppedPending(r, z, pid);
    if Moves(r, pid) {
      assert pid in r.members;
      assert forall y <- movers' :: movers'[y].pid == pid ==> y == z;
      assert movers'[z].pid == pid && !NoMover(movers', pid);
    } else {
      assert NoMover(movers', pid);
    }
  }

  lemma RunMoveOrderly(r: State, movers: Movers, leaver: Leaving, z: Idx, q: nat)
    requires HasMove(r, z) && z !in movers
    requires q in r.table && Accounted(r, leaver, q) && Orderly(r, movers, leaver, q)
    requires q == r.zones[z][0] ==> NoMover(movers, q) && !LeaverIs(leaver, q)
    ensures Orderly(Popped(r, z), MoversRun(r, movers, z), leaver, q)
  {
    if q == r.zones[z][0] {
      RunMoveStarts(r, movers, leaver, z);
    } else {
      PoppedPending(r, z, q);
      StaysOrderly(r, movers, leaver, Popped(r, z), MoversRun(r, movers, z), leaver, q);
    }
  }

  lemma RunMoveIs(sys: System, z: Idx)
    requires Enabled(sys, RunMove(z))
    ensures var pid := sys.room.zones[z][0];
            Next(sys, RunMove(z)) == sys.(room := Popped(sys.room, z), movers := MoversRun(sys.room, sys.movers, z),
                                          clashed := if Busy(sys, pid) then sys.clashed + {pid} else sys.clashed)
  {
  }

  lemma PoppedSimilar(r: State, z: Idx)
    requires KnownRoom(r) && z in r.zones && r.zones[z] != []
    ensures Similar(r, Popped(r, z))
  {
  }

  lemma RunMoveSound(r: State, sessions: Sessions, movers: Movers, leaver: Leaving, redundant: nat, z: Idx)
    requires Sound(r, sessions, movers, leaver, redundant)
    requires z in r.zones && r.zones[z] != [] && r.zones[z][0] in r.table
    ensures Sound(Popped(r, z), sessions, MoversRun(r, movers, z), leaver, redundant)
  {
    PoppedSimilar(r, z);
    SoundAfter(r, sessions, movers, leaver, redundant, Popped(r, z), MoversRun(r, movers, z));
  }

  lemma RunMoveKeeps(sys: System, z: Idx)
    requires Inv(sys) && Enabled(sys, RunMove(z))
    ensures Inv(Next(sys, RunMove(z)))
  {
    var r, sys' := sys.room, Next(sys, RunMove(z));
    RunMoveIs(sys, z);
    RunMoveSound(r, sys.sessions, sys.movers, sys.leaver, sys.redundant, z);
    forall q | q in r.table && q !in sys'.clashed
      ensures Orderly(Popped(r, z), MoversRun(r, sys.movers, z), sys.leaver, q)
    {
      RunMoveOrderly(r, sys.movers, sys.leaver, z, q);
    }
  }

  lemma RunJobOrderly(r: State, movers: Movers, q: nat)
    requires WellFormed(r) && r.jobs != [] && q in r.table && Orderly(r, movers, None, q)
    requires q == r.jobs[0] ==> NoMover(movers, q)
    ensures Orderly(r.(jobs := r.jobs[1..]), movers, Some(Leaver(r.jobs[0], FromSector)), q)
  {
    var r' := r.(jobs := r.jobs[1..]);
    assert MovePending(r, q) <==> MovePending(r', q);
  }

  lemma RunJobIs(sys: System)
    requires Enabled(sys, RunJob)
    ensures var r, pid := sys.room, sys.room.jobs[0];
            Next(sys, RunJob) == sys.(room := r.(jobs := r.jobs[1..]), leaver := Some(Leaver(pid, FromSector)),
                                      clashed := if Busy(sys, pid) then sys.clashed + {pid} else sys.clashed)
  {
  }

  lemma RunJobAccounted(r: State, pid: nat)
    requires r.jobs != [] && pid in r.table && Accounted(r, None, pid)
    ensures Accounted(r.(jobs := r.jobs[1..]), Some(Leaver(r.jobs[0], FromSector)), pid)
  {
    assert r.jobs == [r.jobs[0]] + r.jobs[1..];
  }

  lemma RunJobKnown(r: State, movers: Movers)
    requires KnownRoom(r) && KnownTasks(r, movers, None) && r.jobs != []
    ensures KnownRoom(r.(jobs := r.jobs[1..]))
    ensures KnownTasks(r.(jobs := r.jobs[1..]), movers, Some(Leaver(r.jobs[0], FromSector)))
  {
    assert r.jobs[0] in r.jobs;
  }

  lemma RunJobSound(r: State, sessions: Sessions, movers: Movers, redundant: nat)
    requires Sound(r, sessions, movers, None, redundant) && r.jobs != []
    ensures Sound(r.(jobs := r.jobs[1..]), sessions, movers, Some(Leaver(r.jobs[0], FromSector)), redundant)
  {
    RunJobKnown(r, movers);
    forall pid | pid in r.table ensures Accounted(r.(jobs := r.jobs[1..]), Some(Leaver(r.jobs[0], FromSector)), pid) {
      RunJobAccounted(r, pid);
    }
  }

  lemma RunJobKeeps(sys: System)
    requires Inv(sys) && Enabled(sys, RunJob)
    ensures Inv(Next(sys, RunJob))
  {
    var r, sys' := sys.room, Next(sys, RunJob);
    RunJobIs(sys);
    RunJobSound(r, sys.sessions, sys.movers, sys.redundant);
    forall q | q in r.table && q !in sys'.clashed
      ensures Orderly(r.(jobs := r.jobs[1..]), sys.movers, Some(Leaver(r.jobs[0], FromSector)), q)
    {
      RunJobOrderly(r, sys.movers, q);
    }
  }

  // ---- Packets and disconnects -----------------------------------------------------------------------------

  lemma LoginLeavesOthers(r: State, pos: Position, q: nat)
    requires WellFormed(r) && q in r.table && q <= r.sessionCnt
    ensures SameFor(r, LoggedIn(r, pos), q)
  {
    var r', pid := LoggedIn(r, pos), r.sessionCnt + 1;
    assert r'.table[q] == r.table[q] && r'.zones == r.zones;
    assert MovePending(r, q) <==> MovePending(r', q);
  }

  lemma LoginShape(r: State, pos: Position)
    requires WellFormed(r)
    ensures var r', pid := LoggedIn(r, pos), r.sessionCnt + 1;
            && r'.table.Keys == r.table.Keys + {pid} && r'.members == r.members + {pid}
            && r'.jobs == r.jobs && r'.zones == r.zones && r'.loginCnt == r.loginCnt + 1 && r'.sessionCnt == pid
  {
  }

  lemma LoginPlaces(r: State, pos: Position)
    requires KnownRoom(r)
    ensures var r', pid := LoggedIn(r, pos), r.sessionCnt + 1;
            pid in r'.table && r'.table[pid] == Player(pos, true, SectorIdx(pos)) && OnlyAt(r', pid, SectorIdx(pos))
  {
    assert r.sessionCnt + 1 !in r.table;
  }

  lemma LoginKeepsContents(r: State, pos: Position)
    requires KnownRoom(r)
    ensures forall i :: OnGrid(i) ==> At(LoggedIn(r, pos).sectors, i) <= r.table.Keys + {r.sessionCnt + 1}
  {
  }

  lemma LoginKeepsRoom(r: State, pos: Position)
    requires KnownRoom(r)
    ensures KnownRoom(LoggedIn(r, pos))
  {
    LoginShape(r, pos);
    LoginKeepsContents(r, pos);
  }

  lemma LoginAccounted(r: State, leaver: Leaving, pos: Position)
    requires KnownRoom(r) && forall q <- r.table :: Accounted(r, leaver, q)
    ensures forall q <- LoggedIn(r, pos).table :: Accounted(LoggedIn(r, pos), leaver, q)
  {
    var r', pid := LoggedIn(r, pos), r.sessionCnt + 1;
    LoginShape(r, pos);
    LoginPlaces(r, pos);
    forall q | q in r.table ensures Accounted(r', leaver, q) {
      LoginLeavesOthers(r, pos, q);
      assert Accounted(r, leaver, q);
    }
    assert Accounted(r', leaver, pid);
  }

  lemma LoginCounted(r: State, leaver: Leaving, redundant: nat, pos: Position)
    requires KnownRoom(r) && Counted(r, leaver, redundant)
    ensures Counted(LoggedIn(r, pos), leaver, redundant)
  {
    LoginShape(r, pos);
    NewcomerIsNew(r);
    OneMore(r.members, r.sessionCnt + 1);
  }

  lemma NewcomerIsNew(r: State)
    requires KnownRoom(r)
    ensures r.sessionCnt + 1 !in r.members && r.sessionCnt + 1 !in r.table
  {
  }

  lemma OneMore(s: set<nat>, x: nat)
    requires x !in s
    ensures |s + {x}| == |s| + 1
  {
  }

  lemma LoginTasks(r: State, movers: Movers, leaver: Leaving, pos: Position)
    requires KnownRoom(r) && KnownTasks(r, movers, leaver)
    ensures KnownTasks(LoggedIn(r, pos), movers, leaver)
  {
    LoginShape(r, pos);
    assert r.sessionCnt + 1 !in r.table;
  }

  lemma LoginOwners(r: State, sessions: Sessions, s: nat, pos: Position)
    requires KnownRoom(r) && KnownOwners(r, sessions) && s in sessions
    ensures KnownOwners(LoggedIn(r, pos), WithOwner(sessions, s, r.sessionCnt + 1))
  {
    LoginShape(r, pos);
  }

  lemma LoginSound(r: State, sessions: Sessions, movers: Movers, leaver: Leaving, redundant: nat, s: nat, pos: Position)
    requires Sound(r, sessions, movers, leaver, redundant) && s in sessions
    ensures Sound(LoggedIn(r, pos), WithOwner(sessions, s, r.sessionCnt + 1), movers, leaver, redundant)
  {
    LoginKeepsRoom(r, pos);
    LoginCounted(r, leaver, redundant, pos);
    LoginTasks(r, movers, leaver, pos);
    LoginOwners(r, sessions, s, pos);
    LoginAccounted(r, leaver, pos);
  }

  lemma SittingOrderly(r: State, movers: Movers, leaver: Leaving, pid: nat)
    requires WellFormed(r) && pid in r.table && pid in r.members && NoMover(movers, pid) && !LeaverIs(leaver, pid)
    requires OnlyAt(r, pid, r.table[pid].sector) && r.table[pid].sector == SectorIdx(r.table[pid].pos)
    ensures Orderly(r, movers, leaver, pid)
  {
  }

  lemma NewcomerOrderly(r: State, movers: Movers, leaver: Leaving, pos: Position)
    requires KnownRoom(r) && KnownTasks(r, movers, leaver)
    ensures r.sessionCnt + 1 in LoggedIn(r, pos).table && Orderly(LoggedIn(r, pos), movers, leaver, r.sessionCnt + 1)
  {
    LoginShape(r, pos);
    LoginPlaces(r, pos);
    NobodysJobs(r, movers, leaver);
    SittingOrderly(LoggedIn(r, pos), movers, leaver, r.sessionCnt + 1);
  }

  lemma NobodysJobs(r: State, movers: Movers, leaver: Leaving)
    requires KnownRoom(r) && KnownTasks(r, movers, leaver)
    ensures NoMover(movers, r.sessionCnt + 1) && !LeaverIs(leaver, r.sessionCnt + 1)
  {
    assert r.sessionCnt + 1 !in r.table;
  }

  lemma GrownAllOrderly(r: State, r': State, movers: Movers, leaver: Leaving, clashed: set<nat>, pid: nat)
    requires WellFormed(r) && WellFormed(r') && r'.table.Keys == r.table.Keys + {pid}
    requires (forall q <- r.table :: SameFor(r, r', q)) && Orderly(r', movers, leaver, pid)
    requires AllOrderly(r, movers, leaver, clashed)
    ensures AllOrderly(r', movers, leaver, clashed)
  {
    forall q | q in r.table && q !in clashed ensures Orderly(r', movers, leaver, q) {
      StaysOrderly(r, movers, leaver, r', movers, leaver, q);
    }
  }

  lemma LoginLeavesAll(r: State, pos: Position)
    requires KnownRoom(r)
    ensures forall q <- r.table :: SameFor(r, LoggedIn(r, pos), q)
  {
    forall q | q in r.table ensures SameFor(r, LoggedIn(r, pos), q) { LoginLeavesOthers(r, pos, q); }
  }

  lemma LoginAllOrderly(r: State, movers: Movers, leaver: Leaving, clashed: set<nat>, pos: Position)
    requires KnownRoom(r) && KnownTasks(r, movers, leaver) && AllOrderly(r, movers, leaver, clashed)
    ensures AllOrderly(LoggedIn(r, pos), movers, leaver, clashed)
  {
    LoginShape(r, pos);
    NewcomerOrderly(r, movers, leaver, pos);
    LoginLeavesAll(r, pos);
    GrownAllOrderly(r, LoggedIn(r, pos), movers, leaver, clashed, r.sessionCnt + 1);
  }

  lemma MovedPending(r: State, pid: nat, pos: Position, q: nat)
    requires WellFormed(r) && pid in r.table
    ensures MovePending(Moved(r, pid, pos), q) <==> MovePending(r, q) || q == pid
  {
    var r', z := Moved(r, pid, pos), ZoneIdx(pos);
    assert r'.zones == r.zones[z := r.zones[z] + [pid]];
    if MovePending(r, q) {
      var y :| y in r.zones && q in r.zones[y];
      assert q in r'.zones[y];
    }
    if q == pid { assert pid in r'.zones[z]; }
    if MovePending(r', q) {
      var y :| y in r'.zones && q in r'.zones[y];
      assert q in r.zones[y] || q == pid;
    }
  }

  lemma MovedOrderly(r: State, movers: Movers, leaver: Leaving, pid: nat, pos: Position, q: nat)
    requires WellFormed(r) && pid in r.table && q in r.table && Orderly(r, movers, leaver, q)
    ensures Orderly(Moved(r, pid, pos), movers, leaver, q)
  {
    MovedPending(r, pid, pos, q);
    if q != pid { StaysOrderly(r, movers, leaver, Moved(r, pid, pos), movers, leaver, q); }
  }

  lemma MovedSimilar(r: State, pid: nat, pos: Position)
    requires KnownRoom(r) && pid in r.table
    ensures Similar(r, Moved(r, pid, pos))
  {
  }

  lemma MovedSound(r: State, sessions: Sessions, movers: Movers, leaver: Leaving, redundant: nat, pid: nat,
                   pos: Position)
    requires Sound(r, sessions, movers, leaver, redundant) && pid in r.table
    ensures Sound(Moved(r, pid, pos), sessions, movers, leaver, redundant)
  {
    MovedSimilar(r, pid, pos);
    SoundAfter(r, sessions, movers, leaver, redundant, Moved(r, pid, pos), movers);
  }

  lemma PostOrderly(r: State, movers: Movers, leaver: Leaving, pid: nat, q: nat)
    requires WellFormed(r) && q in r.table && Orderly(r, movers, leaver, q)
    ensures Orderly(PostStep(r, pid), movers, leaver, q)
  {
    assert MovePending(r, q) <==> MovePending(PostStep(r, pid), q);
    StaysOrderly(r, movers, leaver, PostStep(r, pid), movers, leaver, q);
  }

  lemma PostSimilar(r: State, pid: nat)
    requires KnownRoom(r) && pid in r.table
    ensures Similar(r, PostStep(r, pid))
  {
  }

  lemma PostSound(r: State, sessions: Sessions, movers: Movers, leaver: Leaving, redundant: nat, pid: nat)
    requires Sound(r, sessions, movers, leaver, redundant) && pid in r.table
    ensures Sound(PostStep(r, pid), sessions, movers, leaver, redundant)
  {
    PostSimilar(r, pid);
    SoundAfter(r, sessions, movers, leaver, redundant, PostStep(r, pid), movers);
  }

  lemma UnsetOrderly(r: State, movers: Movers, leaver: Leaving, pid: nat, q: nat)
    requires WellFormed(r) && pid in r.table && q in r.table && Orderly(r, movers, leaver, q)
    ensures Orderly(SetConnected(r, pid, false), movers, leaver, q)
  {
    var r' := SetConnected(r, pid, false);
    assert MovePending(r, q) <==> MovePending(r', q);
    if q != pid { StaysOrderly(r, movers, leaver, r', movers, leaver, q); }
  }

  lemma GuardedPostOrderly(r: State, movers: Movers, leaver: Leaving, own: Option<nat>, q: nat)
    requires WellFormed(r) && q in r.table && Orderly(r, movers, leaver, q)
    ensures Orderly(GuardedPost(r, own), movers, leaver, q)
  {
    if Posts(r, own) {
      UnsetOrderly(r, movers, leaver, own.value, q);
      PostOrderly(SetConnected(r, own.value, false), movers, leaver, own.value, q);
    }
  }

  lemma GuardedPostSimilar(r: State, own: Option<nat>)
    requires KnownRoom(r)
    ensures Similar(r, GuardedPost(r, own))
  {
  }

  lemma GuardedPostSound(r: State, sessions: Sessions, movers: Movers, leaver: Leaving, redundant: nat,
                         own: Option<nat>)
    requires Sound(r, sessions, movers, leaver, redundant)
    ensures Sound(GuardedPost(r, own), sessions, movers, leaver, redundant)
  {
    GuardedPostSimilar(r, own);
    SoundAfter(r, sessions, movers, leaver, redundant, GuardedPost(r, own), movers);
  }

  /** Sessions may go, and give their players up. */
  lemma FewerOwners(r: State, sessions: Sessions, sessions': Sessions, movers: Movers, leaver: Leaving, redundant: nat)
    requires Sound(r, sessions, movers, leaver, redundant)
    requires forall s <- sessions' :: sessions'[s].own == None || (s in sessions && sessions'[s].own == sessions[s].own)
    ensures Sound(r, sessions', movers, leaver, redundant)
  {
  }

  predicate IsJobStep(a: Action) {
    a.RunMove? || a.StepMove? || a.RunJob? || a.StepJob?
  }

  lemma PacketIs(sys: System, a: Action)
    requires Enabled(sys, a) && !IsJobStep(a)
    ensures Next(sys, a) == sys.(room := RoomAfter(sys, a), sessions := SessionsAfter(sys, a),
                                 posts := sys.posts + multiset(PostedBy(sys, a)))
  {
  }

  lemma LoginPacketIs(sys: System, s: nat, pos: Position)
    requires Enabled(sys, LoginPacket(s, pos))
    ensures RoomAfter(sys, LoginPacket(s, pos)) == LoggedIn(sys.room, pos)
    ensures SessionsAfter(sys, LoginPacket(s, pos)) == WithOwner(sys.sessions, s, sys.room.sessionCnt + 1)
  {
  }

  lemma LoginPacketNext(sys: System, s: nat, pos: Position)
    requires Enabled(sys, LoginPacket(s, pos))
    ensures Next(sys, LoginPacket(s, pos)) ==
            sys.(room := LoggedIn(sys.room, pos),
                 sessions := WithOwner(sys.sessions, s, sys.room.sessionCnt + 1),
                 posts := Next(sys, LoginPacket(s, pos)).posts)
  {
    LoginPacketIs(sys, s, pos);
    PacketIs(sys, LoginPacket(s, pos));
  }

  lemma Rebuilt(sys: System, r: State, sessions: Sessions, posts: multiset<nat>)
    requires Sound(r, sessions, sys.movers, sys.leaver, sys.redundant)
    requires AllOrderly(r, sys.movers, sys.leaver, sys.clashed)
    ensures Inv(sys.(room := r, sessions := sessions, posts := posts))
  {
  }

  lemma LoginParts(sys: System, s: nat, pos: Position, r': State, sessions': Sessions)
    requires Inv(sys) && s in sys.sessions && r' == LoggedIn(sys.room, pos)
    requires sessions' == WithOwner(sys.sessions, s, sys.room.sessionCnt + 1)
    ensures forall posts :: Inv(sys.(room := r', sessions := sessions', posts := posts))
  {
    LoginSound(sys.room, sys.sessions, sys.movers, sys.leaver, sys.redundant, s, pos);
    LoginAllOrderly(sys.room, sys.movers, sys.leaver, sys.clashed, pos);
    forall posts ensures Inv(sys.(room := r', sessions := sessions', posts := posts)) {
      Rebuilt(sys, r', sessions', posts);
    }
  }

  lemma LoginPacketKeeps(sys: System, s: nat, pos: Position)
    requires Inv(sys) && Enabled(sys, LoginPacket(s, pos))
    ensures Inv(Next(sys, LoginPacket(s, pos)))
  {
    LoginParts(sys, s, pos, LoggedIn(sys.room, pos), WithOwner(sys.sessions, s, sys.room.sessionCnt + 1));
    LoginPacketNext(sys, s, pos);
  }

  lemma MovePacketKeeps(sys: System, s: nat, pos: Position)
    requires Inv(sys) && Enabled(sys, MovePacket(s, pos))
    ensures Inv(Next(sys, MovePacket(s, pos)))
  {
    var pid := sys.sessions[s].own.value;
    PacketIs(sys, MovePacket(s, pos));
    MovedSound(sys.room, sys.sessions, sys.movers, sys.leaver, sys.redundant, pid, pos);
    forall q | q in sys.room.table && q !in sys.clashed
      ensures Orderly(Moved(sys.room, pid, pos), sys.movers, sys.leaver, q)
    {
      MovedOrderly(sys.room, sys.movers, sys.leaver, pid, pos, q);
    }
  }

  lemma LogoutPacketKeeps(sys: System, s: nat)
    requires Inv(sys) && Enabled(sys, LogoutPacket(s))
    ensures Inv(Next(sys, LogoutPacket(s)))
  {
    var pid := sys.sessions[s].own.value;
    PacketIs(sys, LogoutPacket(s));
    PostSound(sys.room, sys.sessions, sys.movers, sys.leaver, sys.redundant, pid);
    forall q | q in sys.room.table && q !in sys.clashed
      ensures Orderly(PostStep(sys.room, pid), sys.movers, sys.leaver, q)
    {
      PostOrderly(sys.room, sys.movers, sys.leaver, pid, q);
    }
  }

  /** The guarded post, with any change of the sessions that gives players up. */
  lemma GuardedPostKeeps(sys: System, own: Option<nat>, sessions': Sessions)
    requires Inv(sys)
    requires forall s <- sessions' ::
               sessions'[s].own == None || (s in sys.sessions && sessions'[s].own == sys.sessions[s].own)
    ensures Sound(GuardedPost(sys.room, own), sessions', sys.movers, sys.leaver, sys.redundant)
    ensures AllOrderly(GuardedPost(sys.room, own), sys.movers, sys.leaver, sys.clashed)
  {
    GuardedPostSound(sys.room, sys.sessions, sys.movers, sys.leaver, sys.redundant, own);
    FewerOwners(GuardedPost(sys.room, own), sys.sessions, sessions', sys.movers, sys.leaver, sys.redundant);
    forall q | q in sys.room.table && q !in sys.clashed
      ensures Orderly(GuardedPost(sys.room, own), sys.movers, sys.leaver, q)
    {
      GuardedPostOrderly(sys.room, sys.movers, sys.leaver, own, q);
    }
  }

  lemma SessionStepKeeps(sys: System, a: Action)
    requires Inv(sys) && Enabled(sys, a) && (a.Open? || a.Disconnect? || a.Destroy?)
    ensures Inv(Next(sys, a))
  {
    PacketIs(sys, a);
    var sessions' := SessionsAfter(sys, a);
    if a.Destroy? || (a.Disconnect? && sys.sessions[a.s].connected && a.lingers) {
      GuardedPostKeeps(sys, sys.sessions[a.s].own, sessions');
    } else {
      FewerOwners(sys.room, sys.sessions, sessions', sys.movers, sys.leaver, sys.redundant);
    }
  }

  lemma StepKeepsInv(sys: System, a: Action)
    requires Inv(sys) && Enabled(sys, a)
    ensures Inv(Next(sys, a))
  {
    match a
    case LoginPacket(s, pos) => LoginPacketKeeps(sys, s, pos);
    case MovePacket(s, pos) => MovePacketKeeps(sys, s, pos);
    case LogoutPacket(s) => LogoutPacketKeeps(sys, s);
    case RunMove(z) => RunMoveKeeps(sys, z);
    case StepMove(z) => StepMoveKeeps(sys, z);
    case RunJob => RunJobKeeps(sys);
    case StepJob => StepJobKeeps(sys);
    case _ => SessionStepKeeps(sys, a);
  }

  // ---- Whole runs --------------------------------------------------------------------------------------------

  lemma {:induction false} RunKeepsInv(sys: System, acts: seq<Action>)
    requires Inv(sys)
    ensures Inv(Run(sys, acts))
    decreases |acts|
  {
    if acts != [] {
      if Enabled(sys, acts[0]) {
        StepKeepsInv(sys, acts[0]);
        RunKeepsInv(Next(sys, acts[0]), acts[1..]);
      } else {
        RunKeepsInv(sys, acts[1..]);
      }
    }
  }

  /** No job is under way. */
  predicate AtRest(sys: System) {
    sys.movers == map[] && sys.leaver == None
  }

  lemma RestingIsPartition(sys: System)
    requires Inv(sys) && AtRest(sys) && sys.clashed == {}
    ensures Partition(sys.room)
    ensures (forall z <- sys.room.zones :: sys.room.zones[z] == []) ==> Synced(sys.room)
  {
    var r := sys.room;
    forall pid | pid in r.table
      ensures Accounted(r, sys.leaver, pid) && Resting(r, pid) && Current(r, sys.movers, pid)
    {
      assert Orderly(r, sys.movers, sys.leaver, pid) && NoMover(sys.movers, pid);
    }
    forall i, pid | OnGrid(i) ensures pid in At(r.sectors, i) <==> pid in r.members && r.table[pid].sector == i {
      if pid in r.table { assert Resting(r, pid); }
    }
  }

  /** In every reachable state at rest, a player is where it is stored exactly if it is a member, provided no two of its
      jobs have ever overlapped; if that is so for all players, sectors and members agree, and once all moves have been
      handled every player sees exactly the connected players near it. */
  lemma ReachableStates(init: System, acts: seq<Action>)
    requires Initial(init)
    ensures var sys := Run(init, acts);
            && Sound(sys.room, sys.sessions, sys.movers, sys.leaver, sys.redundant)
            && (AtRest(sys) ==> forall pid <- sys.room.table :: pid !in sys.clashed ==> Resting(sys.room, pid))
            && (AtRest(sys) && sys.clashed == {} ==> Partition(sys.room))
  {
    InitialInv(init);
    RunKeepsInv(init, acts);
    var sys := Run(init, acts);
    if AtRest(sys) {
      forall pid | pid in sys.room.table && pid !in sys.clashed ensures Resting(sys.room, pid) {
        assert NoMover(sys.movers, pid);
      }
      if sys.clashed == {} { RestingIsPartition(sys); }
    }
  }

  lemma QuietViewsAgree(init: System, acts: seq<Action>, pid: nat)
    requires Initial(init)
    requires var sys := Run(init, acts);
             && AtRest(sys) && sys.clashed == {} && pid in sys.room.table
             && forall z <- sys.room.zones :: sys.room.zones[z] == []
    ensures var r := Run(init, acts).room;
            && Partition(r) && Populated(r)
            && Scanned(r, pid, 2, VIEW_DISTANCE) == Seen(r, pid, 2, VIEW_DISTANCE) == Near(r, pid, VIEW_DISTANCE)
            && Scanned(r, pid, 1, VIEW_DISTANCE_NARROW) == Seen(r, pid, 1, VIEW_DISTANCE_NARROW)
            && Seen(r, pid, 1, VIEW_DISTANCE_NARROW) == Near(r, pid, VIEW_DISTANCE_NARROW)
  {
    InitialInv(init);
    RunKeepsInv(init, acts);
    RestingIsPartition(Run(init, acts));
    SeenIsNear(Run(init, acts).room, pid);
    ScannedIsSeen(Run(init, acts).room, pid, 2, VIEW_DISTANCE);
    ScannedIsSeen(Run(init, acts).room, pid, 1, VIEW_DISTANCE_NARROW);
  }
}

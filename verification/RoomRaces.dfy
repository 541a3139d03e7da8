/** One player whose jobs overlap: what each step does to it, and what keeps it in its place. */
module RoomRaces {
  import opened Basics
  import opened Grid
  import opened GameRoom
  import opened Membership
  import opened RoomSafety

  predicate Known(sys: System, pid: nat) {
    WellFormed(sys.room) && pid in sys.room.table && pid <= sys.room.sessionCnt
  }

  /** Once none of its jobs is under way, the player is in its stored sector exactly if it is a member. */
  ghost predicate Settles(sys: System, pid: nat) {
    Known(sys, pid) && (NoMover(sys.movers, pid) && !LeaverIs(sys.leaver, pid) ==> Resting(sys.room, pid))
  }

  // ---- Who acts for the player -----------------------------------------------------------------------

  predicate Own(sys: System, s: nat, pid: nat) {
    s in sys.sessions && sys.sessions[s].own == Some(pid)
  }

  /** A C2S_MOVE of the player. */
  predicate MovesIt(sys: System, a: Action, pid: nat) {
    a.MovePacket? && Own(sys, a.s, pid)
  }

  /** A logout packet, a disconnect or the end of the session that owns the player. */
  predicate Leaves(sys: System, a: Action, pid: nat) {
    (a.LogoutPacket? || a.Disconnect? || a.Destroy?) && Own(sys, a.s, pid)
  }

  /** A step of one of the player's jobs. */
  predicate Works(sys: System, a: Action, pid: nat)
    requires Enabled(sys, a)
  {
    match a
    case RunMove(z) => sys.room.zones[z][0] == pid
    case StepMove(z) => sys.movers[z].pid == pid
    case RunJob => sys.room.jobs[0] == pid
    case StepJob => sys.leaver.value.pid == pid
    case _ => false
  }

  // ---- Steps of others -------------------------------------------------------------------------------

  /** How often the player waits in a zone's queue. */
  function Queued(r: State, z: Idx, pid: nat): nat {
    if z in r.zones then multiset(r.zones[z])[pid] else 0
  }

  ghost predicate SameQueues(r: State, r': State, pid: nat) {
    (pid in r.jobs <==> pid in r'.jobs) && forall z :: Queued(r, z, pid) == Queued(r', z, pid)
  }

  /** Nothing about the player has changed. */
  ghost predicate Unconcerned(sys: System, sys': System, pid: nat) {
    && Known(sys, pid) && Known(sys', pid)
    && SameFor(sys.room, sys'.room, pid) && SameQueues(sys.room, sys'.room, pid)
    && SameMovers(sys.movers, sys'.movers, pid) && SameLeaver(sys.leaver, sys'.leaver, pid)
  }

  lemma PendingIsQueued(r: State, pid: nat)
    ensures MovePending(r, pid) <==> exists z :: Queued(r, z, pid) > 0
  {
    if MovePending(r, pid) {
      var z :| z in r.zones && pid in r.zones[z];
      assert Queued(r, z, pid) > 0;
    }
    if z :| Queued(r, z, pid) > 0 {
      assert pid in multiset(r.zones[z]);
    }
  }

  lemma QueuedPopped(r: State, z: Idx, pid: nat, y: Idx)
    requires WellFormed(r) && z in r.zones && r.zones[z] != []
    ensures Queued(Popped(r, z), y, pid) == Queued(r, y, pid) - if y == z && r.zones[z][0] == pid then 1 else 0
  {
    assert r.zones[z] == [r.zones[z][0]] + r.zones[z][1..];
  }

  lemma QueuedMoved(r: State, q: nat, pos: Position, pid: nat, y: Idx)
    requires WellFormed(r) && q in r.table
    ensures Queued(Moved(r, q, pos), y, pid) == Queued(r, y, pid) + if y == ZoneIdx(pos) && q == pid then 1 else 0
  {
  }

  lemma SameZones(r: State, r': State, pid: nat)
    requires r'.zones == r.zones
    ensures forall z :: Queued(r', z, pid) == Queued(r, z, pid)
  {
  }

  lemma OtherRunMove(sys: System, sys': System, z: Idx, pid: nat)
    requires Known(sys, pid) && HasMove(sys.room, z) && z !in sys.movers && sys.room.zones[z][0] != pid
    requires sys'.room == Popped(sys.room, z) && sys'.movers == MoversRun(sys.room, sys.movers, z)
    requires sys'.leaver == sys.leaver
    ensures Unconcerned(sys, sys', pid)
  {
    PoppedPending(sys.room, z, pid);
    forall y ensures Queued(sys.room, y, pid) == Queued(sys'.room, y, pid) { QueuedPopped(sys.room, z, pid, y); }
  }

  lemma OtherMovers(movers: Movers, z: Idx, pid: nat)
    requires z in movers && movers[z].pid != pid
    ensures SameMovers(movers, MoversStep(movers, z), pid)
  {
  }

  lemma OtherStepMove(sys: System, sys': System, z: Idx, pid: nat)
    requires Known(sys, pid) && z in sys.movers && CanMove(sys.room, sys.movers[z]) && sys.movers[z].pid != pid
    requires sys'.room == MoverRoom(sys.room, sys.movers[z])
    requires sys'.movers == MoversStep(sys.movers, z) && sys'.leaver == sys.leaver
    ensures Unconcerned(sys, sys', pid)
  {
    MoverLeavesOthers(sys.room, sys.movers[z], pid);
    MoverKeepsShape(sys.room, sys.movers[z]);
    OtherMovers(sys.movers, z, pid);
    SameZones(sys.room, sys'.room, pid);
  }

  lemma OtherRunJob(sys: System, sys': System, pid: nat)
    requires Known(sys, pid) && sys.leaver == None && sys.room.jobs != [] && sys.room.jobs[0] != pid
    requires sys'.room == sys.room.(jobs := sys.room.jobs[1..]) && sys'.movers == sys.movers
    requires sys'.leaver == Some(Leaver(sys.room.jobs[0], FromSector))
    ensures Unconcerned(sys, sys', pid)
  {
    assert sys.room.jobs == [sys.room.jobs[0]] + sys'.room.jobs;
    assert MovePending(sys.room, pid) <==> MovePending(sys'.room, pid);
  }

  lemma OtherStepJob(sys: System, sys': System, l: Leaver, pid: nat)
    requires Known(sys, pid) && sys.leaver == Some(l) && l.pid in sys.room.table && l.pid != pid
    requires sys'.room == LeaverRoom(sys.room, l) && sys'.movers == sys.movers && sys'.leaver == NextLeaver(l)
    ensures Unconcerned(sys, sys', pid)
  {
    LeaverLeavesOthers(sys.room, l, pid);
    LeaverKeepsShape(sys.room, l);
    SameZones(sys.room, sys'.room, pid);
  }

  lemma OtherLogin(sys: System, sys': System, pos: Position, pid: nat)
    requires Known(sys, pid) && sys'.room == LoggedIn(sys.room, pos)
    requires sys'.movers == sys.movers && sys'.leaver == sys.leaver
    ensures Unconcerned(sys, sys', pid)
  {
    LoginLeavesOthers(sys.room, pos, pid);
    LoginShape(sys.room, pos);
  }

  lemma OtherMoved(sys: System, sys': System, q: nat, pos: Position, pid: nat)
    requires Known(sys, pid) && q in sys.room.table && q != pid && sys'.room == Moved(sys.room, q, pos)
    requires sys'.movers == sys.movers && sys'.leaver == sys.leaver
    ensures Unconcerned(sys, sys', pid)
  {
    MovedPending(sys.room, q, pos, pid);
    forall y ensures Queued(sys.room, y, pid) == Queued(sys'.room, y, pid) { QueuedMoved(sys.room, q, pos, pid, y); }
  }

  lemma OtherPost(sys: System, sys': System, own: Option<nat>, pid: nat)
    requires Known(sys, pid) && own != Some(pid)
    requires sys'.room == GuardedPost(sys.room, own) || (own.Some? && sys'.room == PostStep(sys.room, own.value))
    requires sys'.movers == sys.movers && sys'.leaver == sys.leaver
    ensures Unconcerned(sys, sys', pid)
  {
    assert MovePending(sys.room, pid) <==> MovePending(sys'.room, pid);
  }

  lemma OtherPacket(sys: System, a: Action, pid: nat)
    requires Known(sys, pid) && Enabled(sys, a) && !IsJobStep(a) && !MovesIt(sys, a, pid) && !Leaves(sys, a, pid)
    ensures Unconcerned(sys, Next(sys, a), pid)
  {
    var sys' := Next(sys, a);
    PacketIs(sys, a);
    match a {
      case LoginPacket(s, pos) => OtherLogin(sys, sys', pos, pid);
      case MovePacket(s, pos) => OtherMoved(sys, sys', sys.sessions[s].own.value, pos, pid);
      case Open(s) => OtherPost(sys, sys', None, pid);
      case Disconnect(s, lingers) =>
        OtherPost(sys, sys', if sys.sessions[s].connected && lingers then sys.sessions[s].own else None, pid);
      case LogoutPacket(s) => OtherPost(sys, sys', sys.sessions[s].own, pid);
      case Destroy(s) => OtherPost(sys, sys', sys.sessions[s].own, pid);
    }
  }

  lemma OtherStep(sys: System, a: Action, pid: nat)
    requires Known(sys, pid) && Enabled(sys, a)
    requires !MovesIt(sys, a, pid) && !Leaves(sys, a, pid) && !Works(sys, a, pid)
    ensures Unconcerned(sys, Next(sys, a), pid)
  {
    match a {
      case RunMove(z) =>
        RunMoveIs(sys, z);
        OtherRunMove(sys, Next(sys, a), z, pid);
      case StepMove(z) =>
        StepMoveIs(sys, z);
        OtherStepMove(sys, Next(sys, a), z, pid);
      case RunJob =>
        RunJobIs(sys);
        OtherRunJob(sys, Next(sys, a), pid);
      case StepJob =>
        StepJobIs(sys);
        OtherStepJob(sys, Next(sys, a), sys.leaver.value, pid);
      case _ => OtherPacket(sys, a, pid);
    }
  }

  // ---- Still: no move of the player will start -------------------------------------------------------------

  /** No move is under way, and those pending will find nothing to do; its Logout jobs run alone. */
  ghost predicate Still(sys: System, pid: nat) {
    && Known(sys, pid) && NoMover(sys.movers, pid) && (!Moves(sys.room, pid) || !MovePending(sys.room, pid))
    && if LeaverIs(sys.leaver, pid) then LeaverFits(sys.room, sys.leaver.value) else Resting(sys.room, pid)
  }

  lemma StaysStill(sys: System, sys': System, pid: nat)
    requires Unconcerned(sys, sys', pid) && Still(sys, pid)
    ensures Still(sys', pid)
  {
  }

  lemma StillRunMove(sys: System, sys': System, z: Idx, pid: nat)
    requires Still(sys, pid) && HasMove(sys.room, z) && sys.room.zones[z][0] == pid
    requires sys'.room == Popped(sys.room, z) && sys'.movers == MoversRun(sys.room, sys.movers, z)
    requires sys'.leaver == sys.leaver
    ensures Still(sys', pid) && !Moves(sys.room, pid)
  {
    assert pid in sys.room.zones[z];
  }

  lemma StillRunJob(sys: System, sys': System, pid: nat)
    requires Still(sys, pid) && sys.leaver == None && sys.room.jobs != [] && sys.room.jobs[0] == pid
    requires sys'.room == sys.room.(jobs := sys.room.jobs[1..]) && sys'.movers == sys.movers
    requires sys'.leaver == Some(Leaver(pid, FromSector))
    ensures Still(sys', pid)
  {
    assert MovePending(sys.room, pid) <==> MovePending(sys'.room, pid);
  }

  lemma StillStepJob(sys: System, sys': System, l: Leaver, pid: nat)
    requires Still(sys, pid) && sys.leaver == Some(l) && l.pid == pid
    requires sys'.room == LeaverRoom(sys.room, l) && sys'.movers == sys.movers && sys'.leaver == NextLeaver(l)
    ensures Still(sys', pid)
  {
    LeaverAdvances(sys.room, l);
    LeaverKeepsShape(sys.room, l);
    assert MovePending(sys.room, pid) <==> MovePending(sys'.room, pid);
    assert sys'.room.table[pid].pos == sys.room.table[pid].pos;
    assert sys'.room.table[pid].sector == sys.room.table[pid].sector;
  }

  lemma StillLeaves(sys: System, a: Action, pid: nat)
    requires Still(sys, pid) && Enabled(sys, a) && Leaves(sys, a, pid)
    ensures Still(Next(sys, a), pid)
  {
    PacketIs(sys, a);
    assert MovePending(sys.room, pid) <==> MovePending(Next(sys, a).room, pid);
  }

  /** Only a move of the player itself ends it. */
  lemma StillStep(sys: System, a: Action, pid: nat)
    requires Still(sys, pid) && Enabled(sys, a) && !MovesIt(sys, a, pid)
    ensures Still(Next(sys, a), pid)
  {
    if Leaves(sys, a, pid) {
      StillLeaves(sys, a, pid);
    } else if !Works(sys, a, pid) {
      OtherStep(sys, a, pid);
      StaysStill(sys, Next(sys, a), pid);
    } else if a.RunMove? {
      RunMoveIs(sys, a.z);
      StillRunMove(sys, Next(sys, a), a.z, pid);
    } else if a.RunJob? {
      RunJobIs(sys);
      StillRunJob(sys, Next(sys, a), pid);
    } else {
      StepJobIs(sys);
      StillStepJob(sys, Next(sys, a), sys.leaver.value, pid);
    }
  }

  // ---- Sitting: still, and no Logout job ---------------------------------------------------------------------

  /** A member with no Logout job. */
  predicate Member(sys: System, pid: nat) {
    pid in sys.room.members && pid !in sys.room.jobs && !LeaverIs(sys.leaver, pid)
  }

  ghost predicate Sitting(sys: System, pid: nat, s0: Idx) {
    Still(sys, pid) && Member(sys, pid) && sys.room.table[pid].sector == s0
  }

  lemma SittingStep(sys: System, a: Action, pid: nat, s0: Idx)
    requires Sitting(sys, pid, s0) && Enabled(sys, a) && !MovesIt(sys, a, pid) && !Leaves(sys, a, pid)
    ensures Sitting(Next(sys, a), pid, s0)
  {
    if Works(sys, a, pid) {
      assert a.RunMove?;
      RunMoveIs(sys, a.z);
      StillRunMove(sys, Next(sys, a), a.z, pid);
    } else {
      OtherStep(sys, a, pid);
      StaysStill(sys, Next(sys, a), pid);
    }
  }

  // ---- Moving: any number of moves to the same sector at once ------------------------------------------------

  predicate SomeMover(movers: Movers, pid: nat, pc: MovePc) {
    exists z <- movers :: movers[z].pid == pid && movers[z].pc == pc
  }

  /** A move to `i1` has taken the player out of `s0`. */
  predicate Begun(sys: System, pid: nat, i1: Idx)
    requires pid in sys.room.table
  {
    sys.room.table[pid].sector == i1 || SomeMover(sys.movers, pid, Inserting) || SomeMover(sys.movers, pid, Storing)
  }

  ghost predicate Between(sys: System, pid: nat, s0: Idx, i1: Idx)
    requires Known(sys, pid) && OnGrid(s0) && OnGrid(i1)
  {
    && (forall i :: OnGrid(i) && i != s0 && i != i1 ==> pid !in At(sys.room.sectors, i))
    && (pid in At(sys.room.sectors, s0) <==> !Begun(sys, pid, i1))
    && (!Begun(sys, pid, i1) ==> pid !in At(sys.room.sectors, i1))
    && (Begun(sys, pid, i1) && !SomeMover(sys.movers, pid, Inserting) ==> pid in At(sys.room.sectors, i1))
  }

  /** All moves of the player lead from `s0` to `i1`: the first erase empties `s0`, and whatever is erased from `i1` is
      inserted there again by the same job. */
  ghost predicate Moving(sys: System, pid: nat, s0: Idx, i1: Idx) {
    && Known(sys, pid) && Member(sys, pid) && s0 != i1 && OnGrid(s0) && OnGrid(i1)
    && SectorIdx(sys.room.table[pid].pos) == i1 && sys.room.table[pid].sector in {s0, i1}
    && (forall z <- sys.movers :: sys.movers[z].pid == pid ==> sys.movers[z].target == i1)
    && Between(sys, pid, s0, i1)
  }

  lemma StaysMoving(sys: System, sys': System, pid: nat, s0: Idx, i1: Idx)
    requires Unconcerned(sys, sys', pid) && Moving(sys, pid, s0, i1)
    ensures Moving(sys', pid, s0, i1)
  {
    assert forall pc :: SomeMover(sys.movers, pid, pc) <==> SomeMover(sys'.movers, pid, pc);
  }

  lemma MovingRunMove(sys: System, sys': System, z: Idx, pid: nat, s0: Idx, i1: Idx)
    requires Moving(sys, pid, s0, i1) && HasMove(sys.room, z) && z !in sys.movers
    requires sys'.room == Popped(sys.room, z) && sys'.movers == MoversRun(sys.room, sys.movers, z)
    requires sys'.leaver == sys.leaver
    ensures Moving(sys', pid, s0, i1)
  {
    forall pc | pc != Erasing ensures SomeMover(sys.movers, pid, pc) <==> SomeMover(sys'.movers, pid, pc) {
      if SomeMover(sys.movers, pid, pc) {
        var y :| y in sys.movers && sys.movers[y].pid == pid && sys.movers[y].pc == pc;
        assert y in sys'.movers && sys'.movers[y] == sys.movers[y];
      }
    }
  }

  lemma MoversAfterStep(movers: Movers, z: Idx, pid: nat)
    requires z in movers && movers[z].pid == pid
    ensures var movers', m := MoversStep(movers, z), movers[z];
            && SomeMover(movers, pid, m.pc)
            && (m.pc.Storing? ==> (SomeMover(movers', pid, Inserting) <==> SomeMover(movers, pid, Inserting)))
            && (!m.pc.Storing? ==> SomeMover(movers', pid, NextMover(m).value.pc))
  {
    var movers', m := MoversStep(movers, z), movers[z];
    if m.pc.Storing? {
      if SomeMover(movers, pid, Inserting) {
        var y :| y in movers && movers[y].pid == pid && movers[y].pc == Inserting;
        assert y != z && y in movers' && movers'[y] == movers[y];
      }
    } else {
      assert z in movers' && movers'[z].pid == pid;
    }
  }

  lemma MovingStepMove(sys: System, sys': System, z: Idx, pid: nat, s0: Idx, i1: Idx)
    requires Moving(sys, pid, s0, i1) && z in sys.movers && sys.movers[z].pid == pid
    requires sys'.room == MoverRoom(sys.room, sys.movers[z])
    requires sys'.movers == MoversStep(sys.movers, z) && sys'.leaver == sys.leaver
    ensures Moving(sys', pid, s0, i1)
  {
    MoversAfterStep(sys.movers, z, pid);
    MoverKeepsShape(sys.room, sys.movers[z]);
  }

  lemma MovingStep(sys: System, a: Action, pid: nat, s0: Idx, i1: Idx)
    requires Moving(sys, pid, s0, i1) && Enabled(sys, a) && !MovesIt(sys, a, pid) && !Leaves(sys, a, pid)
    ensures Moving(Next(sys, a), pid, s0, i1)
  {
    if !Works(sys, a, pid) {
      OtherStep(sys, a, pid);
      StaysMoving(sys, Next(sys, a), pid, s0, i1);
    } else if a.RunMove? {
      RunMoveIs(sys, a.z);
      MovingRunMove(sys, Next(sys, a), a.z, pid, s0, i1);
    } else {
      assert a.StepMove? || a.RunJob?;
      if a.StepMove? {
        StepMoveIs(sys, a.z);
        MovingStepMove(sys, Next(sys, a), a.z, pid, s0, i1);
      }
    }
  }

  // ---- Alone: one move at a time -------------------------------------------------------------------------------

  /** Moves of the player wait in zone `z` only, and one at most is under way; while that one is not in `z`, those in
      `z` have nothing to do. */
  ghost predicate Alone(sys: System, pid: nat, z: Idx) {
    && Known(sys, pid) && Member(sys, pid)
    && (forall y :: y != z ==> Queued(sys.room, y, pid) == 0)
    && (forall y <- sys.movers :: sys.movers[y].pid == pid ==>
          MoverFits(sys.room, sys.movers[y]) && (y == z || !Moves(sys.room, pid)))
    && (forall x, y :: x in sys.movers && y in sys.movers && sys.movers[x].pid == pid == sys.movers[y].pid ==> x == y)
    && (NoMover(sys.movers, pid) ==> Resting(sys.room, pid))
  }

  lemma StaysAlone(sys: System, sys': System, pid: nat, z: Idx)
    requires Unconcerned(sys, sys', pid) && Alone(sys, pid, z)
    ensures Alone(sys', pid, z)
  {
    assert NoMover(sys.movers, pid) <==> NoMover(sys'.movers, pid);
  }

  lemma AloneRunMove(sys: System, sys': System, y: Idx, pid: nat, z: Idx)
    requires Alone(sys, pid, z) && HasMove(sys.room, y) && y !in sys.movers && sys.room.zones[y][0] == pid
    requires sys'.room == Popped(sys.room, y) && sys'.movers == MoversRun(sys.room, sys.movers, y)
    requires sys'.leaver == sys.leaver
    ensures y == z && Alone(sys', pid, z)
  {
    assert pid in multiset(sys.room.zones[y]) && Queued(sys.room, y, pid) > 0;
    forall x ensures Queued(sys'.room, x, pid) <= Queued(sys.room, x, pid) { QueuedPopped(sys.room, y, pid, x); }
    if Moves(sys.room, pid) {
      assert NoMover(sys.movers, pid);
      assert sys'.movers[y].pid == pid;
    } else {
      assert sys'.movers == sys.movers;
    }
  }

  lemma AloneStepMove(sys: System, sys': System, y: Idx, pid: nat, z: Idx)
    requires Alone(sys, pid, z) && y in sys.movers && sys.movers[y].pid == pid && CanMove(sys.room, sys.movers[y])
    requires sys'.room == MoverRoom(sys.room, sys.movers[y])
    requires sys'.movers == MoversStep(sys.movers, y) && sys'.leaver == sys.leaver
    ensures Alone(sys', pid, z) && (sys.movers[y].pc.Storing? <==> NoMover(sys'.movers, pid))
    ensures !sys.movers[y].pc.Storing? ==> sys'.room.table[pid] == sys.room.table[pid]
  {
    var m := sys.movers[y];
    MoverAdvances(sys.room, m);
    MoverKeepsShape(sys.room, m);
    SameZones(sys.room, sys'.room, pid);
    if m.pc.Storing? {
      assert NoMover(sys'.movers, pid);
    } else {
      assert y in sys'.movers && sys'.movers[y] == NextMover(m).value;
    }
  }

  lemma AloneStep(sys: System, a: Action, pid: nat, z: Idx)
    requires Alone(sys, pid, z) && Enabled(sys, a) && !MovesIt(sys, a, pid) && !Leaves(sys, a, pid)
    ensures Alone(Next(sys, a), pid, z)
  {
    if !Works(sys, a, pid) {
      OtherStep(sys, a, pid);
      StaysAlone(sys, Next(sys, a), pid, z);
    } else if a.RunMove? {
      RunMoveIs(sys, a.z);
      AloneRunMove(sys, Next(sys, a), a.z, pid, z);
    } else {
      assert a.StepMove? || a.RunJob?;
      if a.StepMove? {
        StepMoveIs(sys, a.z);
        AloneStepMove(sys, Next(sys, a), a.z, pid, z);
      }
    }
  }

  /** Alone, with the move under way in `z` as well. */
  ghost predicate Within(sys: System, pid: nat, z: Idx) {
    Alone(sys, pid, z) && forall y <- sys.movers :: sys.movers[y].pid == pid ==> y == z
  }

  lemma WithinStep(sys: System, a: Action, pid: nat, z: Idx)
    requires Within(sys, pid, z) && Enabled(sys, a) && !MovesIt(sys, a, pid) && !Leaves(sys, a, pid)
    ensures Within(Next(sys, a), pid, z)
  {
    AloneStep(sys, a, pid, z);
    if !Works(sys, a, pid) {
      OtherStep(sys, a, pid);
    } else if a.RunMove? {
      RunMoveIs(sys, a.z);
      AloneRunMove(sys, Next(sys, a), a.z, pid, z);
    } else if a.StepMove? {
      StepMoveIs(sys, a.z);
    }
  }

  // ---- Started: the first move after a rest -----------------------------------------------------------------------

  /** Alone, with one move in all; until that is over the player is stored in `s0`. */
  ghost predicate Started(sys: System, pid: nat, z: Idx, s0: Idx) {
    && Alone(sys, pid, z) && Queued(sys.room, z, pid) <= 1
    && (Queued(sys.room, z, pid) == 1 ==> NoMover(sys.movers, pid))
    && (Queued(sys.room, z, pid) == 1 || !NoMover(sys.movers, pid) ==> sys.room.table[pid].sector == s0)
  }

  lemma StaysStarted(sys: System, sys': System, pid: nat, z: Idx, s0: Idx)
    requires Unconcerned(sys, sys', pid) && Started(sys, pid, z, s0)
    ensures Started(sys', pid, z, s0)
  {
    StaysAlone(sys, sys', pid, z);
    assert NoMover(sys.movers, pid) <==> NoMover(sys'.movers, pid);
  }

  lemma StartedRunMove(sys: System, sys': System, y: Idx, pid: nat, z: Idx, s0: Idx)
    requires Started(sys, pid, z, s0) && HasMove(sys.room, y) && y !in sys.movers && sys.room.zones[y][0] == pid
    requires sys'.room == Popped(sys.room, y) && sys'.movers == MoversRun(sys.room, sys.movers, y)
    requires sys'.leaver == sys.leaver
    ensures Started(sys', pid, z, s0)
  {
    AloneRunMove(sys, sys', y, pid, z);
    QueuedPopped(sys.room, z, pid, z);
  }

  lemma StartedStepMove(sys: System, sys': System, y: Idx, pid: nat, z: Idx, s0: Idx)
    requires Started(sys, pid, z, s0) && y in sys.movers && sys.movers[y].pid == pid && CanMove(sys.room, sys.movers[y])
    requires sys'.room == MoverRoom(sys.room, sys.movers[y])
    requires sys'.movers == MoversStep(sys.movers, y) && sys'.leaver == sys.leaver
    ensures Started(sys', pid, z, s0)
  {
    AloneStepMove(sys, sys', y, pid, z);
    MoverKeepsShape(sys.room, sys.movers[y]);
  }

  lemma StartedStep(sys: System, a: Action, pid: nat, z: Idx, s0: Idx)
    requires Started(sys, pid, z, s0) && Enabled(sys, a) && !MovesIt(sys, a, pid) && !Leaves(sys, a, pid)
    ensures Started(Next(sys, a), pid, z, s0)
  {
    if !Works(sys, a, pid) {
      OtherStep(sys, a, pid);
      StaysStarted(sys, Next(sys, a), pid, z, s0);
    } else if a.RunMove? {
      RunMoveIs(sys, a.z);
      StartedRunMove(sys, Next(sys, a), a.z, pid, z, s0);
    } else {
      assert a.StepMove? || a.RunJob?;
      if a.StepMove? {
        StepMoveIs(sys, a.z);
        StartedStepMove(sys, Next(sys, a), a.z, pid, z, s0);
      }
    }
  }

  // ---- The player's own C2S_MOVE ------------------------------------------------------------------------------------

  lemma MovedIs(sys: System, a: Action, pid: nat)
    requires Known(sys, pid) && Enabled(sys, a) && MovesIt(sys, a, pid)
    ensures var sys' := Next(sys, a);
            && sys'.room == Moved(sys.room, pid, a.pos) && sys'.sessions == sys.sessions
            && sys'.movers == sys.movers && sys'.leaver == sys.leaver
  {
    PacketIs(sys, a);
  }

  lemma StillMoved(sys: System, sys': System, pid: nat, pos: Position)
    requires Still(sys, pid) && sys'.room == Moved(sys.room, pid, pos) && SectorIdx(pos) == sys.room.table[pid].sector
    requires sys'.movers == sys.movers && sys'.leaver == sys.leaver
    ensures Still(sys', pid) && sys'.room.table[pid].sector == sys.room.table[pid].sector
  {
  }

  /** From a rest, the position decides whether there is anything to do. */
  lemma SittingMoved(sys: System, sys': System, pid: nat, pos: Position, s0: Idx)
    requires Sitting(sys, pid, s0) && sys'.room == Moved(sys.room, pid, pos)
    requires sys'.movers == sys.movers && sys'.leaver == sys.leaver
    ensures if SectorIdx(pos) == s0 then Sitting(sys', pid, s0) else Moving(sys', pid, s0, SectorIdx(pos))
  {
    assert OnlyAt(sys.room, pid, s0) && OnGrid(s0);
    forall pc ensures !SomeMover(sys'.movers, pid, pc) {}
  }

  lemma AloneMoved(sys: System, sys': System, pid: nat, pos: Position, z: Idx)
    requires Alone(sys, pid, z) && sys'.room == Moved(sys.room, pid, pos)
    requires sys'.movers == sys.movers && sys'.leaver == sys.leaver
    requires ZoneIdx(pos) == z || Queued(sys.room, z, pid) == 0
    requires forall y <- sys.movers :: sys.movers[y].pid == pid ==>
               SectorIdx(pos) == sys.room.table[pid].sector || y == ZoneIdx(pos)
    ensures Alone(sys', pid, ZoneIdx(pos))
  {
    forall y | y != ZoneIdx(pos) ensures Queued(sys'.room, y, pid) == 0 { QueuedMoved(sys.room, pid, pos, pid, y); }
  }

  lemma SittingStarts(sys: System, sys': System, pid: nat, pos: Position, s0: Idx)
    requires Sitting(sys, pid, s0) && !MovePending(sys.room, pid) && sys'.room == Moved(sys.room, pid, pos)
    requires sys'.movers == sys.movers && sys'.leaver == sys.leaver
    ensures Started(sys', pid, ZoneIdx(pos), s0)
  {
    PendingIsQueued(sys.room, pid);
    forall y ensures Queued(sys'.room, y, pid) == if y == ZoneIdx(pos) then 1 else 0 {
      QueuedMoved(sys.room, pid, pos, pid, y);
    }
  }

  /** The second move leads back: the first has either not looked, and finds nothing to do, or goes on alone. */
  lemma StartedMovedBack(sys: System, sys': System, pid: nat, pos: Position, z: Idx, s0: Idx)
    requires Started(sys, pid, z, s0) && sys'.room == Moved(sys.room, pid, pos) && SectorIdx(pos) == s0
    requires sys'.movers == sys.movers && sys'.leaver == sys.leaver
    ensures Sitting(sys', pid, s0) || Alone(sys', pid, ZoneIdx(pos))
  {
    if Queued(sys.room, z, pid) == 1 {
      assert Resting(sys.room, pid);
    } else {
      AloneMoved(sys, sys', pid, pos, z);
    }
  }
}

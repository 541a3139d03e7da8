/** When a player stays where it belongs under every schedule of packets, disconnects and jobs: exact conditions that
    can be checked before. */
module RoomConditions {
  import opened Basics
  import opened Grid
  import opened GameRoom
  import opened Membership
  import opened RoomSafety
  import opened RoomRaces
  import opened RoomSchedules

  // ---- Runs without a move of the player ---------------------------------------------------------------

  /** What is known of the player. */
  datatype Posture =
    | IsStill(s0: Idx)
    | IsSitting(s0: Idx)
    | IsQuiet(s0: Idx)
    | IsMoving(s0: Idx, i1: Idx)
    | IsAlone(z: Idx)
    | IsWithin(z: Idx)
    | IsStarted(z: Idx, s0: Idx)

  /** Sitting, with no move waiting. */
  ghost predicate Quiet(sys: System, pid: nat, s0: Idx) {
    Sitting(sys, pid, s0) && !MovePending(sys.room, pid)
  }

  ghost predicate In(sys: System, pid: nat, p: Posture) {
    match p
    case IsStill(s0) => Still(sys, pid) && sys.room.table[pid].sector == s0
    case IsSitting(s0) => Sitting(sys, pid, s0)
    case IsQuiet(s0) => Quiet(sys, pid, s0)
    case IsMoving(s0, i1) => Moving(sys, pid, s0, i1)
    case IsAlone(z) => Alone(sys, pid, z)
    case IsWithin(z) => Within(sys, pid, z)
    case IsStarted(z, s0) => Started(sys, pid, z, s0)
  }

  lemma StillKeepsSector(sys: System, a: Action, pid: nat)
    requires Still(sys, pid) && Enabled(sys, a) && !MovesIt(sys, a, pid)
    ensures pid in Next(sys, a).room.table && Next(sys, a).room.table[pid].sector == sys.room.table[pid].sector
  {
    if Leaves(sys, a, pid) {
      PacketIs(sys, a);
    } else if !Works(sys, a, pid) {
      OtherStep(sys, a, pid);
    } else if a.RunMove? {
      RunMoveIs(sys, a.z);
    } else if a.RunJob? {
      RunJobIs(sys);
    } else {
      StepJobIs(sys);
    }
  }

  lemma QuietStep(sys: System, a: Action, pid: nat, s0: Idx)
    requires Quiet(sys, pid, s0) && Enabled(sys, a) && !MovesIt(sys, a, pid) && !Leaves(sys, a, pid)
    ensures Quiet(Next(sys, a), pid, s0)
  {
    SittingStep(sys, a, pid, s0);
    assert forall z <- sys.room.zones :: pid !in sys.room.zones[z];
    OtherStep(sys, a, pid);
  }

  lemma PostureStep(sys: System, a: Action, pid: nat, p: Posture)
    requires In(sys, pid, p) && Enabled(sys, a) && !MovesIt(sys, a, pid) && (p.IsStill? || !Leaves(sys, a, pid))
    ensures In(Next(sys, a), pid, p)
  {
    match p
    case IsStill(s0) => StillStep(sys, a, pid); StillKeepsSector(sys, a, pid);
    case IsSitting(s0) => SittingStep(sys, a, pid, s0);
    case IsQuiet(s0) => QuietStep(sys, a, pid, s0);
    case IsMoving(s0, i1) => MovingStep(sys, a, pid, s0, i1);
    case IsAlone(z) => AloneStep(sys, a, pid, z);
    case IsWithin(z) => WithinStep(sys, a, pid, z);
    case IsStarted(z, s0) => StartedStep(sys, a, pid, z, s0);
  }

  lemma {:induction false} PostureRun(sys: System, acts: seq<Action>, pid: nat, p: Posture)
    requires In(sys, pid, p) && MovesOf(sys, acts, pid) == [] && (p.IsStill? || Stays(sys, acts, pid))
    ensures In(Run(sys, acts), pid, p)
    decreases |acts|
  {
    if acts != [] {
      if Enabled(sys, acts[0]) { PostureStep(sys, acts[0], pid, p); }
      PostureRun(After(sys, acts[0]), acts[1..], pid, p);
    }
  }

  lemma PostureSettles(sys: System, pid: nat, p: Posture)
    requires In(sys, pid, p)
    ensures Settles(sys, pid)
  {
  }

  // ---- Runs with moves of the player -------------------------------------------------------------------

  lemma RunCut(sys: System, acts: seq<Action>, pid: nat, pre: seq<Action>, a: Action, rest: seq<Action>)
    requires CutAt(sys, acts, pid, pre, a, rest)
    ensures Run(sys, acts) == Run(Next(Run(sys, pre), a), rest)
  {
    RunAppend(sys, pre, [a] + rest);
    RunStep(Run(sys, pre), a, rest);
  }

  /** Up to and over the first move: the postures before it and the packet. */
  lemma ToFirstMove(sys: System, acts: seq<Action>, pid: nat, p: Posture)
    returns (before: System, after: System, pos: Position, rest: seq<Action>)
    requires In(sys, pid, p) && MovesOf(sys, acts, pid) != [] && (p.IsStill? || Stays(sys, acts, pid))
    ensures In(before, pid, p) && pos == MovesOf(sys, acts, pid)[0] && |rest| < |acts|
    ensures after.room == Moved(before.room, pid, pos) && after.movers == before.movers && after.leaver == before.leaver
    ensures Run(sys, acts) == Run(after, rest) && MovesOf(after, rest, pid) == MovesOf(sys, acts, pid)[1..]
    ensures Stays(sys, acts, pid) ==> Stays(after, rest, pid)
  {
    var pre, a;
    pre, a, rest := FirstMove(sys, acts, pid);
    before, after, pos := Run(sys, pre), Next(Run(sys, pre), a), a.pos;
    PostureRun(sys, pre, pid, p);
    RunCut(sys, acts, pid, pre, a, rest);
    PostureSettles(before, pid, p);
    MovedIs(before, a, pid);
  }

  /** Any number of moves within one zone. */
  lemma {:induction false} OneZoneRun(sys: System, acts: seq<Action>, pid: nat, z: Idx)
    requires Within(sys, pid, z) && Stays(sys, acts, pid) && forall p <- MovesOf(sys, acts, pid) :: ZoneIdx(p) == z
    ensures Settles(Run(sys, acts), pid)
    decreases |acts|
  {
    if MovesOf(sys, acts, pid) == [] {
      PostureRun(sys, acts, pid, IsWithin(z));
      PostureSettles(Run(sys, acts), pid, IsWithin(z));
    } else {
      var before, after, pos, rest := ToFirstMove(sys, acts, pid, IsWithin(z));
      AloneMoved(before, after, pid, pos, z);
      OneZoneRun(after, rest, pid, z);
    }
  }

  /** At most one more move, from a rest. */
  lemma OneMoveRun(sys: System, acts: seq<Action>, pid: nat, s0: Idx, p: Position)
    requires Sitting(sys, pid, s0) && Stays(sys, acts, pid) && MovesOf(sys, acts, pid) <= [p]
    ensures Settles(Run(sys, acts), pid)
  {
    if MovesOf(sys, acts, pid) == [] {
      PostureRun(sys, acts, pid, IsSitting(s0));
      PostureSettles(Run(sys, acts), pid, IsSitting(s0));
    } else {
      var before, after, pos, rest := ToFirstMove(sys, acts, pid, IsSitting(s0));
      SittingMoved(before, after, pid, pos, s0);
      var last := if SectorIdx(pos) == s0 then IsSitting(s0) else IsMoving(s0, SectorIdx(pos));
      PostureRun(after, rest, pid, last);
      PostureSettles(Run(sys, acts), pid, last);
    }
  }

  lemma Shorter(moves: seq<Position>, p1: Position, p2: Position)
    requires moves != [] && moves <= [p1, p2]
    ensures moves[0] == p1 && moves[1..] <= [p2]
  {
  }

  /** The first move stays in the stored sector. */
  lemma ThereRun(sys: System, acts: seq<Action>, pid: nat, s0: Idx, p1: Position, p2: Position)
    requires Sitting(sys, pid, s0) && Stays(sys, acts, pid) && MovesOf(sys, acts, pid) <= [p1, p2]
    requires SectorIdx(p1) == s0
    ensures Settles(Run(sys, acts), pid)
  {
    if MovesOf(sys, acts, pid) == [] {
      OneMoveRun(sys, acts, pid, s0, p1);
    } else {
      var before, after, pos, rest := ToFirstMove(sys, acts, pid, IsSitting(s0));
      SittingMoved(before, after, pid, pos, s0);
      Shorter(MovesOf(sys, acts, pid), p1, p2);
      OneMoveRun(after, rest, pid, s0, p2);
    }
  }

  /** After a first move, one back to the stored sector. */
  lemma BackRun(sys: System, acts: seq<Action>, pid: nat, z: Idx, s0: Idx, p: Position)
    requires Started(sys, pid, z, s0) && Stays(sys, acts, pid) && MovesOf(sys, acts, pid) <= [p] && SectorIdx(p) == s0
    ensures Settles(Run(sys, acts), pid)
  {
    if MovesOf(sys, acts, pid) == [] {
      PostureRun(sys, acts, pid, IsStarted(z, s0));
      PostureSettles(Run(sys, acts), pid, IsStarted(z, s0));
    } else {
      var before, after, pos, rest := ToFirstMove(sys, acts, pid, IsStarted(z, s0));
      StartedMovedBack(before, after, pid, pos, z, s0);
      var last := if Sitting(after, pid, s0) then IsSitting(s0) else IsAlone(ZoneIdx(pos));
      PostureRun(after, rest, pid, last);
      PostureSettles(Run(sys, acts), pid, last);
    }
  }

  lemma ThereAndBackRun(sys: System, acts: seq<Action>, pid: nat, s0: Idx, p1: Position, p2: Position)
    requires Quiet(sys, pid, s0) && Stays(sys, acts, pid) && MovesOf(sys, acts, pid) <= [p1, p2] && SectorIdx(p2) == s0
    ensures Settles(Run(sys, acts), pid)
  {
    if MovesOf(sys, acts, pid) == [] {
      OneMoveRun(sys, acts, pid, s0, p1);
    } else {
      var before, after, pos, rest := ToFirstMove(sys, acts, pid, IsQuiet(s0));
      SittingStarts(before, after, pid, pos, s0);
      Shorter(MovesOf(sys, acts, pid), p1, p2);
      BackRun(after, rest, pid, ZoneIdx(pos), s0, p2);
    }
  }

  /** Moves within the stored sector, whatever becomes of the session. */
  lemma {:induction false} SameSectorRun(sys: System, acts: seq<Action>, pid: nat, s0: Idx)
    requires In(sys, pid, IsStill(s0)) && forall p <- MovesOf(sys, acts, pid) :: SectorIdx(p) == s0
    ensures Settles(Run(sys, acts), pid)
    decreases |acts|
  {
    if MovesOf(sys, acts, pid) == [] {
      PostureRun(sys, acts, pid, IsStill(s0));
      PostureSettles(Run(sys, acts), pid, IsStill(s0));
    } else {
      var before, after, pos, rest := ToFirstMove(sys, acts, pid, IsStill(s0));
      StillMoved(before, after, pid, pos);
      SameSectorRun(after, rest, pid, s0);
    }
  }

  // ---- Where the runs start ------------------------------------------------------------------------------

  /** At rest, the player where it belongs. */
  ghost predicate AtHome(sys: System, pid: nat) {
    Inv(sys) && AtRest(sys) && pid in sys.room.table && Resting(sys.room, pid)
  }

  lemma HomeFacts(sys: System, pid: nat)
    requires AtHome(sys, pid)
    ensures Known(sys, pid) && QueuesKnown(sys.room)
    ensures sys.room.table[pid].connected ==> pid in sys.room.members
  {
    assert Accounted(sys.room, sys.leaver, pid);
  }

  lemma MisplacedDoesNotSettle(sys: System, pid: nat)
    requires Misplaced(sys, pid)
    ensures !Settles(sys, pid)
  {
    assert NoMover(sys.movers, pid);
  }

  lemma DoubledDoesNotSettle(sys: System, pid: nat, t1: Idx, t2: Idx)
    requires Doubled(sys, pid, t1, t2) && t1 != t2
    ensures !Settles(sys, pid)
  {
    MisplacedDoesNotSettle(sys, pid);
  }

  // ---- The player does not move: logging out and disconnecting -------------------------------------------

  /** A session owns the player. */
  predicate Owned(sys: System, pid: nat) {
    exists s <- sys.sessions :: Own(sys, s, pid)
  }

  lemma StaysUnowned(sys: System, a: Action, pid: nat)
    requires Known(sys, pid) && !Owned(sys, pid) && Enabled(sys, a)
    ensures !Owned(Next(sys, a), pid)
  {
  }

  lemma {:induction false} UnownedRun(sys: System, acts: seq<Action>, pid: nat)
    requires Known(sys, pid) && !Owned(sys, pid)
    ensures Stays(sys, acts, pid)
    decreases |acts|
  {
    if acts != [] {
      var a := acts[0];
      if Enabled(sys, a) {
        StaysUnowned(sys, a, pid);
        KnownStep(sys, a, pid);
      }
      UnownedRun(After(sys, a), acts[1..], pid);
    }
  }

  lemma KnownStep(sys: System, a: Action, pid: nat)
    requires Known(sys, pid) && Enabled(sys, a)
    ensures Known(Next(sys, a), pid)
  {
    if IsJobStep(a) {
      if a.StepMove? { StepMoveIs(sys, a.z); MoverKeepsShape(sys.room, sys.movers[a.z]); }
      if a.StepJob? { StepJobIs(sys); LeaverKeepsShape(sys.room, sys.leaver.value); }
    } else if a.LoginPacket? {
      LoginPacketNext(sys, a.s, a.pos);
      LoginShape(sys.room, a.pos);
    } else {
      PacketIs(sys, a);
    }
  }

  /** A move with something to do waits. */
  ghost predicate MoveWaits(sys: System, pid: nat)
    requires pid in sys.room.table
  {
    Moves(sys.room, pid) && MovePending(sys.room, pid)
  }

  lemma WaitingIsMoving(sys: System, pid: nat)
    requires AtHome(sys, pid) && MoveWaits(sys, pid) && pid !in sys.room.jobs
    ensures Moving(sys, pid, sys.room.table[pid].sector, SectorIdx(sys.room.table[pid].pos))
  {
    HomeFacts(sys, pid);
    assert forall pc :: !SomeMover(sys.movers, pid, pc);
  }

  lemma LeavingIsSafe(sys: System, acts: seq<Action>, pid: nat)
    requires AtHome(sys, pid) && MovesOf(sys, acts, pid) == []
    requires !(MoveWaits(sys, pid) && (pid in sys.room.jobs || Owned(sys, pid)))
    ensures Settles(Run(sys, acts), pid)
  {
    var s0, i1 := sys.room.table[pid].sector, SectorIdx(sys.room.table[pid].pos);
    HomeFacts(sys, pid);
    if MoveWaits(sys, pid) {
      WaitingIsMoving(sys, pid);
      UnownedRun(sys, acts, pid);
      PostureRun(sys, acts, pid, IsMoving(s0, i1));
      PostureSettles(Run(sys, acts), pid, IsMoving(s0, i1));
    } else {
      PostureRun(sys, acts, pid, IsStill(s0));
      PostureSettles(Run(sys, acts), pid, IsStill(s0));
    }
  }

  /** A disconnect, or the end of a session that has been disconnected. */
  lemma EndHarms(sys: System, s: nat, pid: nat) returns (acts: seq<Action>)
    requires QueuesKnown(sys.room) && AtRest(sys) && pid in sys.room.table && Own(sys, s, pid) && MoveWaits(sys, pid)
    ensures (forall a <- acts :: !a.MovePacket?) && Misplaced(Run(sys, acts), pid)
  {
    acts := EndUnsettles(sys, if sys.sessions[s].connected then Disconnect(s, true) else Destroy(s), pid);
  }

  lemma LeavingDoesHarm(sys: System, pid: nat) returns (acts: seq<Action>)
    requires AtHome(sys, pid) && MoveWaits(sys, pid) && (pid in sys.room.jobs || Owned(sys, pid))
    ensures MovesOf(sys, acts, pid) == [] && !Settles(Run(sys, acts), pid)
  {
    HomeFacts(sys, pid);
    if pid in sys.room.jobs {
      acts := OverlapUnsettles(sys, pid);
    } else {
      var s :| s in sys.sessions && Own(sys, s, pid);
      acts := EndHarms(sys, s, pid);
    }
    NoMovePackets(sys, acts, pid);
    MisplacedDoesNotSettle(Run(sys, acts), pid);
  }

  /** As long as no C2S_MOVE of the player arrives: over all runs of packets, logouts, disconnects and jobs, it stays
      where it belongs if and only if no move with something to do waits together with a Logout job or an owner, who
      can always cause one. */
  lemma LeavingKeepsExactly(sys: System, pid: nat)
    requires AtHome(sys, pid)
    ensures (forall acts :: MovesOf(sys, acts, pid) == [] ==> Settles(Run(sys, acts), pid))
            <==> !(MoveWaits(sys, pid) && (pid in sys.room.jobs || Owned(sys, pid)))
  {
    if MoveWaits(sys, pid) && (pid in sys.room.jobs || Owned(sys, pid)) {
      var acts := LeavingDoesHarm(sys, pid);
    } else {
      forall acts | MovesOf(sys, acts, pid) == [] ensures Settles(Run(sys, acts), pid) {
        LeavingIsSafe(sys, acts, pid);
      }
    }
  }

  /** The jobs alone, while no packet arrives and no session ends. */
  lemma JobsKeepExactly(sys: System, pid: nat)
    requires AtHome(sys, pid)
    ensures (forall acts :: JobsOnly(acts) ==> Settles(Run(sys, acts), pid))
            <==> !(MoveWaits(sys, pid) && pid in sys.room.jobs)
  {
    HomeFacts(sys, pid);
    if MoveWaits(sys, pid) && pid in sys.room.jobs {
      var acts := OverlapUnsettles(sys, pid);
      MisplacedDoesNotSettle(Run(sys, acts), pid);
    } else {
      forall acts | JobsOnly(acts) ensures Settles(Run(sys, acts), pid) {
        NoMovePackets(sys, acts, pid);
        NobodyLeaves(sys, acts, pid);
        if MoveWaits(sys, pid) {
          var p := IsMoving(sys.room.table[pid].sector, SectorIdx(sys.room.table[pid].pos));
          WaitingIsMoving(sys, pid);
          PostureRun(sys, acts, pid, p);
          PostureSettles(Run(sys, acts), pid, p);
        } else {
          LeavingIsSafe(sys, acts, pid);
        }
      }
    }
  }

  // ---- The player moves ----------------------------------------------------------------------------------

  /** At home, connected, with no job waiting. */
  ghost predicate Ready(sys: System, s: nat, pid: nat) {
    AtHome(sys, pid) && Owns(sys, s, pid) && !MovePending(sys.room, pid) && pid !in sys.room.jobs
  }

  lemma ReadyIsQuiet(sys: System, s: nat, pid: nat)
    requires Ready(sys, s, pid)
    ensures Quiet(sys, pid, sys.room.table[pid].sector)
    ensures forall z :: Within(sys, pid, z)
  {
    HomeFacts(sys, pid);
    PendingIsQueued(sys.room, pid);
  }

  /** The moves of others that wait in two zones are handled. */
  lemma ClearBoth(sys: System, s: nat, pid: nat, z1: Idx, z2: Idx) returns (acts: seq<Action>)
    requires Ready(sys, s, pid) && z1 in sys.room.zones && z2 in sys.room.zones && z1 != z2
    ensures JobsOnly(acts)
    ensures Idle(Run(sys, acts), s, pid, z1, z2) && Run(sys, acts).room.table[pid] == sys.room.table[pid]
  {
    HomeFacts(sys, pid);
    var first := ClearZone(sys, z1, pid);
    var once := Run(sys, first);
    var second := ClearZone(once, z2, pid);
    RunAppend(sys, first, second);
    JobsJoin(first, second);
    acts := first + second;
  }

  /** Two moves to different zones, neither to the stored sector. */
  lemma TwoMovesDoHarm(sys: System, s: nat, pid: nat, p1: Position, p2: Position, positions: set<Position>)
    returns (acts: seq<Action>)
    requires Ready(sys, s, pid) && ZoneIdx(p1) != ZoneIdx(p2) && p1 in positions && p2 in positions
    requires sys.room.table[pid].sector !in {SectorIdx(p1), SectorIdx(p2)}
    ensures JobsAndMoves(acts, positions) && MovesOf(sys, acts, pid) == [p1, p2] && !Settles(Run(sys, acts), pid)
  {
    GridsNest(p1);
    GridsNest(p2);
    var clear := ClearBoth(sys, s, pid, ZoneIdx(p1), ZoneIdx(p2));
    var cleared := Run(sys, clear);
    var moves := MovesInTwoZones(cleared, s, pid, p1, p2, positions);
    RunAppend(sys, clear, moves);
    MovesOfAppend(sys, clear, moves, pid);
    JobsDoNotMove(sys, clear, positions, pid);
    MovesJoin(clear, moves, positions);
    acts := clear + moves;
    DoubledDoesNotSettle(Run(sys, acts), pid, SectorIdx(p1), SectorIdx(p2));
  }

  /** Two moves to different zones, one of them within the stored sector: sent twice each, they do harm too. */
  lemma ToAndFroDoesHarm(sys: System, s: nat, pid: nat, p: Position, q: Position, positions: set<Position>)
    returns (acts: seq<Action>)
    requires Ready(sys, s, pid) && ZoneIdx(p) != ZoneIdx(q) && p in positions && q in positions
    requires sys.room.table[pid].sector == SectorIdx(p)
    ensures JobsAndMoves(acts, positions) && !Settles(Run(sys, acts), pid)
  {
    GridsNest(p);
    GridsNest(q);
    var clear := ClearBoth(sys, s, pid, ZoneIdx(p), ZoneIdx(q));
    var cleared := Run(sys, clear);
    var moves := ToAndFro(cleared, s, pid, p, q, positions);
    RunAppend(sys, clear, moves);
    JobsDoNotMove(sys, clear, positions, pid);
    MovesJoin(clear, moves, positions);
    acts := clear + moves;
    DoubledDoesNotSettle(Run(sys, acts), pid, SectorIdx(q), SectorIdx(p));
  }

  lemma TwoMovesAreSafe(sys: System, s: nat, pid: nat, p1: Position, p2: Position, acts: seq<Action>)
    requires Ready(sys, s, pid) && Stays(sys, acts, pid) && MovesOf(sys, acts, pid) <= [p1, p2]
    requires ZoneIdx(p1) == ZoneIdx(p2) || sys.room.table[pid].sector in {SectorIdx(p1), SectorIdx(p2)}
    ensures Settles(Run(sys, acts), pid)
  {
    var s0 := sys.room.table[pid].sector;
    ReadyIsQuiet(sys, s, pid);
    if ZoneIdx(p1) == ZoneIdx(p2) {
      assert forall p <- MovesOf(sys, acts, pid) :: p in [p1, p2];
      OneZoneRun(sys, acts, pid, ZoneIdx(p1));
    } else if SectorIdx(p1) == s0 {
      ThereRun(sys, acts, pid, s0, p1, p2);
    } else {
      ThereAndBackRun(sys, acts, pid, s0, p1, p2);
    }
  }

  /** Over all runs in which the player stays and at most two C2S_MOVE packets of it arrive, first `p1` and then `p2`:
      it stays where it belongs if and only if both lead to one zone or one of them to the sector it is stored in. */
  lemma TwoMovesKeepExactly(sys: System, s: nat, pid: nat, p1: Position, p2: Position)
    requires Ready(sys, s, pid)
    ensures (forall acts :: Stays(sys, acts, pid) && MovesOf(sys, acts, pid) <= [p1, p2] ==>
               Settles(Run(sys, acts), pid))
            <==> ZoneIdx(p1) == ZoneIdx(p2) || sys.room.table[pid].sector in {SectorIdx(p1), SectorIdx(p2)}
  {
    if ZoneIdx(p1) == ZoneIdx(p2) || sys.room.table[pid].sector in {SectorIdx(p1), SectorIdx(p2)} {
      forall acts | Stays(sys, acts, pid) && MovesOf(sys, acts, pid) <= [p1, p2] ensures Settles(Run(sys, acts), pid) {
        TwoMovesAreSafe(sys, s, pid, p1, p2, acts);
      }
    } else {
      var acts := TwoMovesDoHarm(sys, s, pid, p1, p2, {p1, p2});
      JobsNeitherMoveNorLeave(sys, acts, {p1, p2}, pid);
    }
  }

  predicate MovesWithin(sys: System, acts: seq<Action>, pid: nat, positions: set<Position>) {
    forall p <- MovesOf(sys, acts, pid) :: p in positions
  }

  /** Over all runs in which the player stays and any number of its C2S_MOVE packets arrive with any of the given
      positions: it stays where it belongs if and only if these all lie in one zone. */
  lemma AnyMovesKeepExactly(sys: System, s: nat, pid: nat, positions: set<Position>)
    requires Ready(sys, s, pid)
    ensures (forall acts :: Stays(sys, acts, pid) && MovesWithin(sys, acts, pid, positions) ==>
               Settles(Run(sys, acts), pid))
            <==> forall p, q :: p in positions && q in positions ==> ZoneIdx(p) == ZoneIdx(q)
  {
    if p, q :| p in positions && q in positions && ZoneIdx(p) != ZoneIdx(q) {
      var acts;
      if sys.room.table[pid].sector == SectorIdx(p) {
        acts := ToAndFroDoesHarm(sys, s, pid, p, q, positions);
      } else if sys.room.table[pid].sector == SectorIdx(q) {
        acts := ToAndFroDoesHarm(sys, s, pid, q, p, positions);
      } else {
        acts := TwoMovesDoHarm(sys, s, pid, p, q, positions);
      }
      JobsNeitherMoveNorLeave(sys, acts, positions, pid);
    } else {
      ReadyIsQuiet(sys, s, pid);
      forall acts | Stays(sys, acts, pid) && MovesWithin(sys, acts, pid, positions)
        ensures Settles(Run(sys, acts), pid)
      {
        var z := if positions == {} then Idx(0, 0) else var p :| p in positions; ZoneIdx(p);
        OneZoneRun(sys, acts, pid, z);
      }
    }
  }

  lemma MovedWaits(sys: System, sys': System, pid: nat, p: Position)
    requires QueuesKnown(sys.room) && pid in sys.room.table && sys.room.table[pid].connected
    requires SectorIdx(p) != sys.room.table[pid].sector && sys'.room == Moved(sys.room, pid, p)
    ensures QueuesKnown(sys'.room) && MoveWaits(sys', pid)
  {
    MovedPending(sys.room, pid, p, pid);
  }

  lemma MoveThenEnd(sys: System, s: nat, pid: nat, p: Position) returns (acts: seq<Action>)
    requires QueuesKnown(sys.room) && AtRest(sys) && Owns(sys, s, pid) && SectorIdx(p) != sys.room.table[pid].sector
    ensures MovesOf(sys, acts, pid) == [p] && Misplaced(Run(sys, acts), pid)
  {
    MoveQueued(sys, s, pid, p, []);
    var queued := Next(sys, MovePacket(s, p));
    MovedWaits(sys, queued, pid, p);
    var rest := EndHarms(queued, s, pid);
    NoMovePackets(queued, rest, pid);
    MoveQueued(sys, s, pid, p, rest);
    acts := [MovePacket(s, p)] + rest;
  }

  /** A single move to another sector, and the session ends while it waits. */
  lemma MoveAndEndDoHarm(sys: System, s: nat, pid: nat, p: Position, positions: set<Position>)
    returns (acts: seq<Action>)
    requires Ready(sys, s, pid) && SectorIdx(p) != sys.room.table[pid].sector && p in positions
    ensures MovesWithin(sys, acts, pid, positions) && !Settles(Run(sys, acts), pid)
  {
    HomeFacts(sys, pid);
    acts := MoveThenEnd(sys, s, pid, p);
    MisplacedDoesNotSettle(Run(sys, acts), pid);
  }

  /** The same over all runs, in which the session may end as well: exactly if all positions lie in the stored
      sector. */
  lemma MovesAndLeavingKeepExactly(sys: System, s: nat, pid: nat, positions: set<Position>)
    requires Ready(sys, s, pid)
    ensures (forall acts :: MovesWithin(sys, acts, pid, positions) ==> Settles(Run(sys, acts), pid))
            <==> forall p <- positions :: SectorIdx(p) == sys.room.table[pid].sector
  {
    if p :| p in positions && SectorIdx(p) != sys.room.table[pid].sector {
      var acts := MoveAndEndDoHarm(sys, s, pid, p, positions);
    } else {
      ReadyIsQuiet(sys, s, pid);
      forall acts | MovesWithin(sys, acts, pid, positions) ensures Settles(Run(sys, acts), pid) {
        SameSectorRun(sys, acts, pid, sys.room.table[pid].sector);
      }
    }
  }

  // ---- From start-up -------------------------------------------------------------------------------------

  lemma FirstLogin(init: System, joined: System, pos: Position)
    requires Initial(init) && joined == init.(sessions := init.sessions[0 := Session(true, None)])
    ensures Enabled(joined, LoginPacket(0, pos))
    ensures var sys := Next(joined, LoginPacket(0, pos));
            && Owns(sys, 0, 1) && AtRest(sys) && sys.room.zones == init.room.zones
            && sys.room.table[1].sector == SectorIdx(pos)
  {
    LoginPlaces(joined.room, pos);
    LoginShape(joined.room, pos);
    LoginPacketNext(joined, 0, pos);
  }

  lemma LoggedInAlone(init: System, pos: Position)
    requires Initial(init)
    ensures var sys := Run(init, [Open(0), LoginPacket(0, pos)]);
            && Owns(sys, 0, 1) && AtRest(sys) && sys.room.zones == init.room.zones
            && sys.room.table[1].sector == SectorIdx(pos)
  {
    var joined := Next(init, Open(0));
    FirstLogin(init, joined, pos);
    RunStep(init, Open(0), [LoginPacket(0, pos)]);
    RunStep(joined, LoginPacket(0, pos), []);
    assert [Open(0)] + [LoginPacket(0, pos)] == [Open(0), LoginPacket(0, pos)];
    assert [LoginPacket(0, pos)] + [] == [LoginPacket(0, pos)];
  }

  lemma OneSector(r: State, pid: nat, i: Idx, j: Idx)
    requires WellFormed(r) && OnGrid(i) && OnGrid(j) && pid in At(r.sectors, i) && pid in At(r.sectors, j)
    ensures Partition(r) ==> i == j
  {
    if Partition(r) {
      assert r.table[pid].sector == i;
      assert r.table[pid].sector == j;
    }
  }

  lemma Corners(p0: Position, p1: Position, p2: Position)
    requires p0 == Position(-19900.0, -19900.0) && p1 == Position(-9900.0, -19900.0) && p2 == Position(100.0, -19900.0)
    ensures SectorIdx(p0) == Idx(0, 0) && SectorIdx(p1) == Idx(0, 8) && SectorIdx(p2) == Idx(0, 16)
    ensures ZoneIdx(p1) == Idx(0, 1) && ZoneIdx(p2) == Idx(0, 2)
  {
  }

  /** A reachable state at rest in which sectors and members disagree. */
  lemma PartitionCanBreak(init: System) returns (acts: seq<Action>)
    requires Initial(init)
    ensures AtRest(Run(init, acts)) && !Partition(Run(init, acts).room)
  {
    var p0, p1, p2 := Position(-19900.0, -19900.0), Position(-9900.0, -19900.0), Position(100.0, -19900.0);
    Corners(p0, p1, p2);
    var login := [Open(0), LoginPacket(0, p0)];
    LoggedInAlone(init, p0);
    var moves := MovesInTwoZones(Run(init, login), 0, 1, p1, p2, {p1, p2});
    RunAppend(init, login, moves);
    acts := login + moves;
    OneSector(Run(init, acts).room, 1, SectorIdx(p1), SectorIdx(p2));
  }
}

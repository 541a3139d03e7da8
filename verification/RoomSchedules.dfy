/** Schedules of the room's jobs: running one to its end, bringing one forward, and the orders that do harm. */
module RoomSchedules {
  import opened Basics
  import opened Grid
  import opened GameRoom
  import opened Membership
  import opened RoomSafety
  import opened RoomRaces

  predicate JobsOnly(acts: seq<Action>) {
    forall a <- acts :: IsJobStep(a)
  }

  function After(sys: System, a: Action): System {
    if Enabled(sys, a) then Next(sys, a) else sys
  }

  // ---- What a run brings for one player ---------------------------------------------------------------

  /** The positions in the C2S_MOVE packets of the player, in order. */
  function MovesOf(sys: System, acts: seq<Action>, pid: nat): seq<Position>
    decreases |acts|
  {
    if acts == [] then [] else MoveOf(sys, acts[0], pid) + MovesOf(After(sys, acts[0]), acts[1..], pid)
  }

  function MoveOf(sys: System, a: Action, pid: nat): seq<Position> {
    if Enabled(sys, a) && MovesIt(sys, a, pid) then [a.pos] else []
  }

  /** No session that owns the player logs out, is disconnected or goes. */
  predicate Stays(sys: System, acts: seq<Action>, pid: nat)
    decreases |acts|
  {
    acts == [] ||
    (!(Enabled(sys, acts[0]) && Leaves(sys, acts[0], pid)) && Stays(After(sys, acts[0]), acts[1..], pid))
  }

  lemma RunStep(sys: System, a: Action, rest: seq<Action>)
    ensures Run(sys, [a] + rest) == Run(After(sys, a), rest)
  {
    assert ([a] + rest)[1..] == rest;
  }

  lemma StepFor(sys: System, a: Action, rest: seq<Action>, pid: nat)
    ensures Stays(sys, [a] + rest, pid) <==>
            !(Enabled(sys, a) && Leaves(sys, a, pid)) && Stays(After(sys, a), rest, pid)
    ensures MovesOf(sys, [a] + rest, pid) == MoveOf(sys, a, pid) + MovesOf(After(sys, a), rest, pid)
  {
    assert ([a] + rest)[1..] == rest;
  }

  lemma {:induction false} RunAppend(sys: System, acts: seq<Action>, rest: seq<Action>)
    ensures Run(sys, acts + rest) == Run(Run(sys, acts), rest)
    decreases |acts|
  {
    if acts == [] {
      assert acts + rest == rest;
    } else {
      assert (acts + rest)[1..] == acts[1..] + rest && (acts + rest)[0] == acts[0];
      RunAppend(After(sys, acts[0]), acts[1..], rest);
    }
  }

  lemma Regrouped(a: seq<Position>, b: seq<Position>, c: seq<Position>)
    ensures a + (b + c) == (a + b) + c
  {
  }

  lemma {:induction false} MovesOfAppend(sys: System, acts: seq<Action>, rest: seq<Action>, pid: nat)
    ensures MovesOf(sys, acts + rest, pid) == MovesOf(sys, acts, pid) + MovesOf(Run(sys, acts), rest, pid)
    decreases |acts|
  {
    if acts == [] {
      assert acts + rest == rest;
    } else {
      var next, later := After(sys, acts[0]), acts[1..];
      assert acts + rest == [acts[0]] + (later + rest);
      StepFor(sys, acts[0], later + rest, pid);
      MovesOfAppend(next, later, rest, pid);
      Regrouped(MoveOf(sys, acts[0], pid), MovesOf(next, later, pid), MovesOf(Run(next, later), rest, pid));
    }
  }

  lemma {:induction false} MovesAreInPackets(sys: System, acts: seq<Action>, pid: nat)
    ensures forall p <- MovesOf(sys, acts, pid) :: exists a <- acts :: a.MovePacket? && a.pos == p
    decreases |acts|
  {
    if acts != [] {
      MovesAreInPackets(After(sys, acts[0]), acts[1..], pid);
      forall p | p in MovesOf(sys, acts, pid) ensures exists a <- acts :: a.MovePacket? && a.pos == p {
        if p in MovesOf(After(sys, acts[0]), acts[1..], pid) {
          var a :| a in acts[1..] && a.MovePacket? && a.pos == p;
          assert a in acts;
        }
      }
    }
  }

  /** Without packets that could move it, the player is not moved. */
  lemma {:induction false} NoMovePackets(sys: System, acts: seq<Action>, pid: nat)
    requires forall a <- acts :: !a.MovePacket?
    ensures MovesOf(sys, acts, pid) == []
    decreases |acts|
  {
    if acts != [] { NoMovePackets(After(sys, acts[0]), acts[1..], pid); }
  }

  lemma {:induction false} NobodyLeaves(sys: System, acts: seq<Action>, pid: nat)
    requires forall a <- acts :: !a.LogoutPacket? && !a.Disconnect? && !a.Destroy?
    ensures Stays(sys, acts, pid)
    decreases |acts|
  {
    if acts != [] { NobodyLeaves(After(sys, acts[0]), acts[1..], pid); }
  }

  lemma JobKeepsSessions(sys: System, a: Action)
    requires IsJobStep(a)
    ensures After(sys, a).sessions == sys.sessions
  {
  }

  lemma {:induction false} JobsKeepSessions(sys: System, acts: seq<Action>)
    requires JobsOnly(acts)
    ensures Run(sys, acts).sessions == sys.sessions
    decreases |acts|
  {
    if acts != [] {
      JobKeepsSessions(sys, acts[0]);
      JobsKeepSessions(After(sys, acts[0]), acts[1..]);
    }
  }

  /** Action `a` is the first C2S_MOVE of the player in a run. */
  predicate CutAt(sys: System, acts: seq<Action>, pid: nat, pre: seq<Action>, a: Action, rest: seq<Action>) {
    && acts == pre + ([a] + rest) && MovesOf(sys, pre, pid) == []
    && Enabled(Run(sys, pre), a) && MovesIt(Run(sys, pre), a, pid)
    && MovesOf(sys, acts, pid) == [a.pos] + MovesOf(Next(Run(sys, pre), a), rest, pid)
    && (Stays(sys, acts, pid) ==> Stays(sys, pre, pid) && Stays(Next(Run(sys, pre), a), rest, pid))
  }

  lemma CutLater(sys: System, b: Action, acts: seq<Action>, pid: nat, pre: seq<Action>, a: Action, rest: seq<Action>)
    requires !(Enabled(sys, b) && MovesIt(sys, b, pid)) && CutAt(After(sys, b), acts, pid, pre, a, rest)
    ensures CutAt(sys, [b] + acts, pid, [b] + pre, a, rest)
  {
    assert [b] + acts == ([b] + pre) + ([a] + rest);
    assert MoveOf(sys, b, pid) == [];
    RunStep(sys, b, pre);
    StepFor(sys, b, pre, pid);
    StepFor(sys, b, acts, pid);
  }

  lemma {:induction false} FirstMove(sys: System, acts: seq<Action>, pid: nat)
    returns (pre: seq<Action>, a: Action, rest: seq<Action>)
    requires MovesOf(sys, acts, pid) != []
    ensures CutAt(sys, acts, pid, pre, a, rest)
    decreases |acts|
  {
    if Enabled(sys, acts[0]) && MovesIt(sys, acts[0], pid) {
      pre, a, rest := [], acts[0], acts[1..];
    } else {
      pre, a, rest := FirstMove(After(sys, acts[0]), acts[1..], pid);
      CutLater(sys, acts[0], acts[1..], pid, pre, a, rest);
      assert acts == [acts[0]] + acts[1..];
      pre := [acts[0]] + pre;
    }
  }

  // ---- Jobs run one after the other ------------------------------------------------------------------

  function Repeat(a: Action, n: nat): (acts: seq<Action>)
    ensures forall b <- acts :: b == a
  {
    if n == 0 then [] else [a] + Repeat(a, n - 1)
  }

  lemma OnlyJobs(a: Action, k: nat, b: Action, n: nat)
    requires IsJobStep(a) && IsJobStep(b)
    ensures JobsOnly(Repeat(a, k) + Repeat(b, n)) && JobsOnly([a] + Repeat(b, n))
  {
  }

  lemma JobsJoin(first: seq<Action>, second: seq<Action>)
    requires JobsOnly(first) && JobsOnly(second)
    ensures JobsOnly(first + second)
  {
  }

  function MovesLeft(pc: MovePc): nat {
    match pc case Erasing => 3 case Inserting => 2 case Storing => 1
  }

  /** What a job run on its own leaves, apart from its own player. */
  ghost predicate Unaffected(sys: System, sys': System, q: nat) {
    && WellFormed(sys.room) && WellFormed(sys'.room) && SameFor(sys.room, sys'.room, q)
    && sys'.room.table.Keys == sys.room.table.Keys && sys'.sessions == sys.sessions
  }

  lemma StepJobRuns(sys: System, rest: seq<Action>)
    requires WellFormed(sys.room) && sys.leaver.Some? && sys.leaver.value.pid in sys.room.table
    ensures var l := sys.leaver.value;
            var sys' := Next(sys, StepJob);
            && Run(sys, [StepJob] + rest) == Run(sys', rest)
            && sys'.room == LeaverRoom(sys.room, l) && sys'.leaver == NextLeaver(l) && sys'.movers == sys.movers
  {
    StepJobIs(sys);
    RunStep(sys, StepJob, rest);
  }

  lemma StepMoveRuns(sys: System, z: Idx, rest: seq<Action>)
    requires z in sys.movers && CanMove(sys.room, sys.movers[z])
    ensures var sys' := Next(sys, StepMove(z));
            && Run(sys, [StepMove(z)] + rest) == Run(sys', rest)
            && sys'.room == MoverRoom(sys.room, sys.movers[z]) && sys'.movers == MoversStep(sys.movers, z)
            && sys'.leaver == sys.leaver && sys'.sessions == sys.sessions
  {
    StepMoveIs(sys, z);
    RunStep(sys, StepMove(z), rest);
  }

  lemma RunMoveRuns(sys: System, z: Idx, rest: seq<Action>)
    requires HasMove(sys.room, z) && z !in sys.movers
    ensures var sys' := Next(sys, RunMove(z));
            && Run(sys, [RunMove(z)] + rest) == Run(sys', rest)
            && sys'.room == Popped(sys.room, z) && sys'.movers == MoversRun(sys.room, sys.movers, z)
            && sys'.leaver == sys.leaver && sys'.sessions == sys.sessions
  {
    RunMoveIs(sys, z);
    RunStep(sys, RunMove(z), rest);
  }

  lemma RunJobRuns(sys: System, rest: seq<Action>)
    requires HasJob(sys.room) && sys.leaver.None?
    ensures var sys' := Next(sys, RunJob);
            && Run(sys, [RunJob] + rest) == Run(sys', rest)
            && sys'.room == sys.room.(jobs := sys.room.jobs[1..]) && sys'.movers == sys.movers
            && sys'.leaver == Some(Leaver(sys.room.jobs[0], FromSector))
  {
    RunJobIs(sys);
    RunStep(sys, RunJob, rest);
  }

  lemma SameForTrans(r0: State, r1: State, r2: State, q: nat)
    requires WellFormed(r0) && WellFormed(r1) && WellFormed(r2) && SameFor(r0, r1, q) && SameFor(r1, r2, q)
    ensures SameFor(r0, r2, q)
  {
  }

  /** The room after the rest of a Logout job. */
  function Left(r: State, l: Leaver): (r': State)
    requires WellFormed(r) && l.pid in r.table
    ensures WellFormed(r') && r'.zones == r.zones && r'.jobs == r.jobs && r'.table.Keys == r.table.Keys
    ensures StepsLeft(l.pc) >= 3 || l.pid !in r.members ==> l.pid !in r'.members
    decreases StepsLeft(l.pc)
  {
    if l.pc.FromCount? then LeaverRoom(r, l) else Left(LeaverRoom(r, l), NextLeaver(l).value)
  }

  lemma {:induction false} LeftLeavesOthers(r: State, l: Leaver, q: nat)
    requires WellFormed(r) && l.pid in r.table && q in r.table && q != l.pid
    ensures SameFor(r, Left(r, l), q)
    decreases StepsLeft(l.pc)
  {
    LeaverLeavesOthers(r, l, q);
    if !l.pc.FromCount? {
      LeftLeavesOthers(LeaverRoom(r, l), NextLeaver(l).value, q);
      SameForTrans(r, LeaverRoom(r, l), Left(r, l), q);
    }
  }

  /** The Logout job under way, run to its end while other jobs wait. */
  lemma {:induction false} FinishJob(sys: System)
    requires WellFormed(sys.room) && sys.leaver.Some? && sys.leaver.value.pid in sys.room.table
    ensures var sys' := Run(sys, Repeat(StepJob, StepsLeft(sys.leaver.value.pc)));
            sys'.room == Left(sys.room, sys.leaver.value) && sys'.leaver == None && sys'.movers == sys.movers
    decreases StepsLeft(sys.leaver.value.pc)
  {
    var l := sys.leaver.value;
    StepJobRuns(sys, Repeat(StepJob, StepsLeft(l.pc) - 1));
    if !l.pc.FromCount? { FinishJob(Next(sys, StepJob)); }
  }

  /** The room after the rest of a move. */
  function Placed(r: State, m: Mover): (r': State)
    requires CanMove(r, m)
    ensures WellFormed(r') && r'.zones == r.zones && r'.jobs == r.jobs && r'.members == r.members
    ensures r'.table == r.table[m.pid := r.table[m.pid].(sector := m.target)]
    ensures !m.pc.Storing? || m.pid in At(r.sectors, m.target) ==> m.pid in At(r'.sectors, m.target)
    decreases MovesLeft(m.pc)
  {
    if m.pc.Storing? then MoverRoom(r, m) else Placed(MoverRoom(r, m), NextMover(m).value)
  }

  lemma {:induction false} PlacedLeavesOthers(r: State, m: Mover, q: nat)
    requires CanMove(r, m) && q in r.table && q != m.pid
    ensures SameFor(r, Placed(r, m), q)
    decreases MovesLeft(m.pc)
  {
    MoverLeavesOthers(r, m, q);
    if !m.pc.Storing? {
      MoverKeepsShape(r, m);
      PlacedLeavesOthers(MoverRoom(r, m), NextMover(m).value, q);
      SameForTrans(r, MoverRoom(r, m), Placed(r, m), q);
    }
  }

  lemma StepThenGone(movers: Movers, z: Idx)
    requires z in movers
    ensures MoversStep(movers, z) - {z} == movers - {z}
  {
  }

  /** The move under way in a zone, run to its end while other jobs wait. */
  lemma {:induction false} FinishMove(sys: System, z: Idx)
    requires z in sys.movers && CanMove(sys.room, sys.movers[z])
    ensures var sys' := Run(sys, Repeat(StepMove(z), MovesLeft(sys.movers[z].pc)));
            && sys'.room == Placed(sys.room, sys.movers[z]) && sys'.leaver == sys.leaver
            && sys'.movers == sys.movers - {z} && sys'.sessions == sys.sessions
    decreases MovesLeft(sys.movers[z].pc)
  {
    var m := sys.movers[z];
    StepMoveRuns(sys, z, Repeat(StepMove(z), MovesLeft(m.pc) - 1));
    if !m.pc.Storing? {
      MoverKeepsShape(sys.room, m);
      FinishMove(Next(sys, StepMove(z)), z);
      StepThenGone(sys.movers, z);
    }
  }

  lemma PoppedFor(r: State, z: Idx, q: nat)
    requires HasMove(r, z) && r.zones[z][0] != q && q in r.table
    ensures SameFor(r, Popped(r, z), q)
  {
    PoppedPending(r, z, q);
  }

  /** The room after the first job of a zone's queue. */
  function MoveHandled(r: State, z: Idx): (r': State)
    requires HasMove(r, z)
    ensures WellFormed(r') && r'.zones == r.zones[z := r.zones[z][1..]] && r'.jobs == r.jobs
    ensures r'.table.Keys == r.table.Keys
  {
    var pid := r.zones[z][0];
    if Moves(r, pid) then Placed(Popped(r, z), Mover(pid, Erasing, SectorIdx(r.table[pid].pos))) else Popped(r, z)
  }

  lemma MoveHandledFor(r: State, z: Idx, q: nat)
    requires HasMove(r, z) && q != r.zones[z][0] && q in r.table
    ensures SameFor(r, MoveHandled(r, z), q)
  {
    PoppedFor(r, z, q);
    var pid := r.zones[z][0];
    if Moves(r, pid) {
      PlacedLeavesOthers(Popped(r, z), Mover(pid, Erasing, SectorIdx(r.table[pid].pos)), q);
      SameForTrans(r, Popped(r, z), MoveHandled(r, z), q);
    }
  }

  lemma HandleMove(sys: System, z: Idx) returns (acts: seq<Action>)
    requires AtRest(sys) && HasMove(sys.room, z)
    ensures JobsOnly(acts)
    ensures Run(sys, acts).room == MoveHandled(sys.room, z) && AtRest(Run(sys, acts))
  {
    if Moves(sys.room, sys.room.zones[z][0]) {
      acts := [RunMove(z)] + Repeat(StepMove(z), MovesLeft(Erasing));
      OnlyJobs(RunMove(z), 1, StepMove(z), MovesLeft(Erasing));
      RunMoveRuns(sys, z, Repeat(StepMove(z), MovesLeft(Erasing)));
      FinishMove(Next(sys, RunMove(z)), z);
    } else {
      acts := [RunMove(z)] + [];
      RunMoveRuns(sys, z, []);
    }
  }

  lemma SkipMove(sys: System, z: Idx, pid: nat) returns (acts: seq<Action>)
    requires AtRest(sys) && pid in sys.room.table && HasMove(sys.room, z) && sys.room.zones[z][0] != pid
    ensures JobsOnly(acts)
    ensures var sys' := Run(sys, acts);
            && AtRest(sys') && Unaffected(sys, sys', pid) && sys'.room.jobs == sys.room.jobs
            && sys'.room.zones == sys.room.zones[z := sys.room.zones[z][1..]]
  {
    acts := HandleMove(sys, z);
    MoveHandledFor(sys.room, z, pid);
    JobsKeepSessions(sys, acts);
  }

  lemma JobTakenFor(r: State, q: nat)
    requires WellFormed(r) && r.jobs != [] && q in r.table
    ensures SameFor(r, r.(jobs := r.jobs[1..]), q)
  {
    assert MovePending(r, q) <==> MovePending(r.(jobs := r.jobs[1..]), q);
  }

  predicate HasJob(r: State) {
    WellFormed(r) && r.jobs != [] && r.jobs[0] in r.table
  }

  /** The room after the first queued Logout job. */
  function JobHandled(r: State): (r': State)
    requires HasJob(r)
    ensures WellFormed(r') && r'.zones == r.zones && r'.jobs == r.jobs[1..] && r'.table.Keys == r.table.Keys
    ensures r.jobs[0] !in r'.members
  {
    Left(r.(jobs := r.jobs[1..]), Leaver(r.jobs[0], FromSector))
  }

  lemma JobHandledFor(r: State, q: nat)
    requires HasJob(r) && q != r.jobs[0] && q in r.table
    ensures SameFor(r, JobHandled(r), q)
  {
    JobTakenFor(r, q);
    LeftLeavesOthers(r.(jobs := r.jobs[1..]), Leaver(r.jobs[0], FromSector), q);
    SameForTrans(r, r.(jobs := r.jobs[1..]), JobHandled(r), q);
  }

  lemma FinishFirst(sys: System, pid: nat)
    requires WellFormed(sys.room) && sys.leaver == Some(Leaver(pid, FromSector)) && pid in sys.room.table
    ensures var sys' := Run(sys, Repeat(StepJob, StepsLeft(FromSector)));
            && sys'.room == Left(sys.room, Leaver(pid, FromSector)) && sys'.leaver == None
            && sys'.movers == sys.movers
  {
    FinishJob(sys);
  }

  lemma HandleJob(sys: System) returns (acts: seq<Action>)
    requires HasJob(sys.room) && sys.leaver == None
    ensures JobsOnly(acts)
    ensures var sys' := Run(sys, acts);
            sys'.room == JobHandled(sys.room) && sys'.leaver == None && sys'.movers == sys.movers
  {
    var rest, pid := Repeat(StepJob, StepsLeft(FromSector)), sys.room.jobs[0];
    acts := [RunJob] + rest;
    OnlyJobs(RunJob, 1, StepJob, StepsLeft(FromSector));
    RunJobRuns(sys, rest);
    var next := Next(sys, RunJob);
    assert next.room == sys.room.(jobs := sys.room.jobs[1..]) && next.leaver == Some(Leaver(pid, FromSector));
    FinishFirst(next, pid);
    assert JobHandled(sys.room) == Left(next.room, Leaver(pid, FromSector));
  }

  lemma SkipJob(sys: System, pid: nat) returns (acts: seq<Action>)
    requires sys.leaver == None && pid in sys.room.table && HasJob(sys.room) && sys.room.jobs[0] != pid
    ensures JobsOnly(acts)
    ensures var sys' := Run(sys, acts);
            && sys'.leaver == None && sys'.movers == sys.movers && Unaffected(sys, sys', pid)
            && sys'.room.zones == sys.room.zones && sys'.room.jobs == sys.room.jobs[1..]
  {
    acts := HandleJob(sys);
    JobHandledFor(sys.room, pid);
    JobsKeepSessions(sys, acts);
  }

  lemma {:induction false} FrontMove(sys: System, z: Idx, pid: nat) returns (acts: seq<Action>)
    requires WellFormed(sys.room) && AtRest(sys) && pid in sys.room.table
    requires z in sys.room.zones && pid in sys.room.zones[z] && forall q <- sys.room.zones[z] :: q in sys.room.table
    ensures JobsOnly(acts)
    ensures var sys' := Run(sys, acts);
            && AtRest(sys') && Unaffected(sys, sys', pid) && sys'.room.jobs == sys.room.jobs
            && HasMove(sys'.room, z) && sys'.room.zones[z][0] == pid
    decreases |sys.room.zones[z]|
  {
    if sys.room.zones[z][0] == pid {
      acts := [];
    } else {
      var skip := SkipMove(sys, z, pid);
      var rest := FrontMove(Run(sys, skip), z, pid);
      acts := skip + rest;
      RunAppend(sys, skip, rest);
      UnaffectedTrans(sys, Run(sys, skip), Run(sys, acts), pid);
    }
  }

  lemma {:induction false} FrontJob(sys: System, pid: nat) returns (acts: seq<Action>)
    requires WellFormed(sys.room) && sys.leaver == None && pid in sys.room.table
    requires pid in sys.room.jobs && forall q <- sys.room.jobs :: q in sys.room.table
    ensures JobsOnly(acts)
    ensures var sys' := Run(sys, acts);
            && sys'.leaver == None && sys'.movers == sys.movers && Unaffected(sys, sys', pid)
            && HasJob(sys'.room) && sys'.room.jobs[0] == pid
    decreases |sys.room.jobs|
  {
    if sys.room.jobs[0] == pid {
      acts := [];
    } else {
      var skip := SkipJob(sys, pid);
      var rest := FrontJob(Run(sys, skip), pid);
      acts := skip + rest;
      RunAppend(sys, skip, rest);
      UnaffectedTrans(sys, Run(sys, skip), Run(sys, acts), pid);
    }
  }

  /** The waiting jobs are for players the room knows. */
  ghost predicate QueuesKnown(r: State) {
    && WellFormed(r) && (forall q <- r.jobs :: q in r.table)
    && forall z <- r.zones :: forall q <- r.zones[z] :: q in r.table
  }

  ghost predicate Cleared(r: State, r': State, z: Idx) {
    && z in r'.zones && r'.zones[z] == []
    && forall y <- r.zones :: y != z ==> y in r'.zones && r'.zones[y] == r.zones[y]
  }

  lemma ClearedLater(r0: State, r1: State, r2: State, z: Idx)
    requires z in r0.zones && r0.zones[z] != [] && r1.zones == r0.zones[z := r0.zones[z][1..]] && Cleared(r1, r2, z)
    ensures Cleared(r0, r2, z)
  {
  }

  lemma UnaffectedTrans(sys0: System, sys1: System, sys2: System, q: nat)
    requires Unaffected(sys0, sys1, q) && Unaffected(sys1, sys2, q)
    ensures Unaffected(sys0, sys2, q)
  {
    SameForTrans(sys0.room, sys1.room, sys2.room, q);
  }

  /** Handles all moves of others that wait in a zone. */
  lemma {:induction false} ClearZone(sys: System, z: Idx, pid: nat) returns (acts: seq<Action>)
    requires WellFormed(sys.room) && AtRest(sys) && pid in sys.room.table
    requires z in sys.room.zones && pid !in sys.room.zones[z] && forall q <- sys.room.zones[z] :: q in sys.room.table
    ensures JobsOnly(acts)
    ensures var sys' := Run(sys, acts);
            AtRest(sys') && Unaffected(sys, sys', pid) && Cleared(sys.room, sys'.room, z)
    decreases |sys.room.zones[z]|
  {
    if sys.room.zones[z] == [] {
      acts := [];
    } else {
      var skip := SkipMove(sys, z, pid);
      var rest := ClearZone(Run(sys, skip), z, pid);
      acts := skip + rest;
      JobsJoin(skip, rest);
      RunAppend(sys, skip, rest);
      UnaffectedTrans(sys, Run(sys, skip), Run(sys, acts), pid);
      ClearedLater(sys.room, Run(sys, skip).room, Run(sys, acts).room, z);
    }
  }

  // ---- A logout between the look and the insert ------------------------------------------------------

  /** At rest, and not where it belongs. */
  ghost predicate Misplaced(sys: System, pid: nat) {
    AtRest(sys) && WellFormed(sys.room) && pid in sys.room.table && !Resting(sys.room, pid)
  }

  lemma OutsideIsMisplaced(sys: System, pid: nat, i: Idx)
    requires AtRest(sys) && WellFormed(sys.room) && pid in sys.room.table && pid !in sys.room.members
    requires OnGrid(i) && pid in At(sys.room.sectors, i)
    ensures Misplaced(sys, pid)
  {
  }

  /** The room logs the player out, and then the zone goes on with the move it has begun. */
  lemma LogoutOvertakes(sys: System, z: Idx, m: Mover) returns (acts: seq<Action>)
    requires CanMove(sys.room, m) && m.pc == Erasing && sys.movers == map[z := m] && sys.leaver == None
    requires m.pid in sys.room.jobs && forall q <- sys.room.jobs :: q in sys.room.table
    ensures JobsOnly(acts)
    ensures Misplaced(Run(sys, acts), m.pid)
  {
    var front := FrontJob(sys, m.pid);
    var rest := LogoutBetween(Run(sys, front), z, m);
    RunAppend(sys, front, rest);
    acts := front + rest;
  }

  lemma LogoutBetween(sys: System, z: Idx, m: Mover) returns (acts: seq<Action>)
    requires CanMove(sys.room, m) && m.pc == Erasing && sys.movers == map[z := m] && sys.leaver == None
    requires HasJob(sys.room) && sys.room.jobs[0] == m.pid
    ensures JobsOnly(acts)
    ensures Misplaced(Run(sys, acts), m.pid)
  {
    var job := HandleJob(sys);
    var steps := Repeat(StepMove(z), 3);
    acts := job + steps;
    RunAppend(sys, job, steps);
    FinishMove(Run(sys, job), z);
    OutsideIsMisplaced(Run(sys, acts), m.pid, m.target);
  }

  /** A waiting move is taken and finds something to do. */
  lemma MoveBegins(sys: System, pid: nat, z: Idx)
    requires HasMove(sys.room, z) && z !in sys.movers && sys.room.zones[z][0] == pid && Moves(sys.room, pid)
    ensures var sys' := Run(sys, [RunMove(z)]);
            && sys'.room == Popped(sys.room, z) && sys'.leaver == sys.leaver && sys'.sessions == sys.sessions
            && sys'.movers == sys.movers[z := Mover(pid, Erasing, SectorIdx(sys.room.table[pid].pos))]
  {
    RunMoveRuns(sys, z, []);
    assert [RunMove(z)] + [] == [RunMove(z)];
  }

  /** Brings the player's move forward and lets the zone look at it. */
  lemma ZoneLooks(sys: System, pid: nat) returns (acts: seq<Action>, z: Idx, m: Mover)
    requires QueuesKnown(sys.room) && AtRest(sys) && pid in sys.room.table
    requires Moves(sys.room, pid) && MovePending(sys.room, pid)
    ensures JobsOnly(acts) && m.pid == pid && m.pc == Erasing
    ensures var sys' := Run(sys, acts);
            && CanMove(sys'.room, m) && sys'.movers == map[z := m] && sys'.leaver == None
            && sys'.room.jobs == sys.room.jobs && sys'.room.table.Keys == sys.room.table.Keys
            && sys'.room.table[pid].connected && sys'.sessions == sys.sessions
  {
    z :| z in sys.room.zones && pid in sys.room.zones[z];
    var front := FrontMove(sys, z, pid);
    m := Mover(pid, Erasing, SectorIdx(sys.room.table[pid].pos));
    MoveBegins(Run(sys, front), pid, z);
    RunAppend(sys, front, [RunMove(z)]);
    JobsJoin(front, [RunMove(z)]);
    acts := front + [RunMove(z)];
    assert Run(sys, acts).movers == map[z := m];
  }

  /** With a Logout job pending: schedules of jobs alone do harm. */
  lemma OverlapUnsettles(sys: System, pid: nat) returns (acts: seq<Action>)
    requires QueuesKnown(sys.room) && AtRest(sys) && Known(sys, pid)
    requires Moves(sys.room, pid) && MovePending(sys.room, pid) && pid in sys.room.jobs
    ensures JobsOnly(acts) && Misplaced(Run(sys, acts), pid)
  {
    var first, z, m := ZoneLooks(sys, pid);
    var rest := LogoutOvertakes(Run(sys, first), z, m);
    RunAppend(sys, first, rest);
    acts := first + rest;
  }

  /** A session of a connected player that is disconnected, or goes. */
  predicate EndsSession(sys: System, a: Action, pid: nat) {
    && (a.Destroy? || (a.Disconnect? && a.lingers && a.s in sys.sessions && sys.sessions[a.s].connected))
    && Own(sys, a.s, pid)
  }

  lemma EndPosts(sys: System, a: Action, pid: nat, rest: seq<Action>)
    requires WellFormed(sys.room) && EndsSession(sys, a, pid) && pid in sys.room.table && sys.room.table[pid].connected
    ensures var sys' := After(sys, a);
            && Run(sys, [a] + rest) == Run(sys', rest)
            && sys'.movers == sys.movers && sys'.leaver == sys.leaver && WellFormed(sys'.room)
            && sys'.room.jobs == sys.room.jobs + [pid] && sys'.room.table.Keys == sys.room.table.Keys
  {
    PacketIs(sys, a);
    RunStep(sys, a, rest);
  }

  lemma EndOvertakes(sys: System, a: Action, z: Idx, m: Mover) returns (acts: seq<Action>)
    requires CanMove(sys.room, m) && m.pc == Erasing && sys.movers == map[z := m] && sys.leaver == None
    requires EndsSession(sys, a, m.pid) && sys.room.table[m.pid].connected
    requires forall q <- sys.room.jobs :: q in sys.room.table
    ensures (forall b <- acts :: IsJobStep(b) || b == a) && Misplaced(Run(sys, acts), m.pid)
  {
    EndPosts(sys, a, m.pid, []);
    var rest := LogoutOvertakes(After(sys, a), z, m);
    EndPosts(sys, a, m.pid, rest);
    acts := [a] + rest;
  }

  /** Without one: the zone looks, the session ends, the room logs the player out, the zone inserts it. */
  lemma EndUnsettles(sys: System, a: Action, pid: nat) returns (acts: seq<Action>)
    requires QueuesKnown(sys.room) && AtRest(sys) && pid in sys.room.table && EndsSession(sys, a, pid)
    requires Moves(sys.room, pid) && MovePending(sys.room, pid)
    ensures (forall b <- acts :: IsJobStep(b) || b == a) && Misplaced(Run(sys, acts), pid)
  {
    var first, z, m := ZoneLooks(sys, pid);
    var rest := EndOvertakes(Run(sys, first), a, z, m);
    RunAppend(sys, first, rest);
    acts := first + rest;
  }

  // ---- Moves in two zones at once --------------------------------------------------------------------

  /** Steps of jobs, and C2S_MOVE packets with these positions. */
  predicate JobsAndMoves(acts: seq<Action>, positions: set<Position>) {
    forall a <- acts :: IsJobStep(a) || (a.MovePacket? && a.pos in positions)
  }

  lemma MovesJoin(first: seq<Action>, second: seq<Action>, positions: set<Position>)
    requires JobsAndMoves(first, positions) && JobsAndMoves(second, positions)
    ensures JobsAndMoves(first + second, positions)
  {
  }

  lemma JobsNeitherMoveNorLeave(sys: System, acts: seq<Action>, positions: set<Position>, pid: nat)
    requires JobsAndMoves(acts, positions)
    ensures Stays(sys, acts, pid) && forall p <- MovesOf(sys, acts, pid) :: p in positions
  {
    NobodyLeaves(sys, acts, pid);
    MovesAreInPackets(sys, acts, pid);
  }

  lemma JobsDoNotMove(sys: System, acts: seq<Action>, positions: set<Position>, pid: nat)
    requires JobsOnly(acts)
    ensures JobsAndMoves(acts, positions) && MovesOf(sys, acts, pid) == []
  {
    NoMovePackets(sys, acts, pid);
  }

  ghost predicate Owns(sys: System, s: nat, pid: nat) {
    WellFormed(sys.room) && Own(sys, s, pid) && pid in sys.room.table && sys.room.table[pid].connected
  }

  /** A C2S_MOVE whose job waits. */
  lemma MoveQueued(sys: System, s: nat, pid: nat, pos: Position, rest: seq<Action>)
    requires Owns(sys, s, pid)
    ensures var sys' := Next(sys, MovePacket(s, pos));
            && Run(sys, [MovePacket(s, pos)] + rest) == Run(sys', rest)
            && MovesOf(sys, [MovePacket(s, pos)] + rest, pid) == [pos] + MovesOf(sys', rest, pid)
            && sys'.room == Moved(sys.room, pid, pos) && sys'.movers == sys.movers && sys'.leaver == sys.leaver
            && sys'.sessions == sys.sessions && Owns(sys', s, pid)
  {
    PacketIs(sys, MovePacket(s, pos));
    RunStep(sys, MovePacket(s, pos), rest);
    StepFor(sys, MovePacket(s, pos), rest, pid);
  }


  /** A C2S_MOVE whose job is taken at once. */
  lemma MoveTaken(sys: System, s: nat, pid: nat, pos: Position, z: Idx, positions: set<Position>)
    returns (acts: seq<Action>)
    requires pos in positions && Owns(sys, s, pid) && z == ZoneIdx(pos) && sys.room.zones[z] == [] && z !in sys.movers
    requires sys.room.table[pid].sector != SectorIdx(pos)
    ensures JobsAndMoves(acts, positions) && MovesOf(sys, acts, pid) == [pos]
    ensures var sys' := Run(sys, acts);
            && Owns(sys', s, pid) && sys'.leaver == sys.leaver && sys'.room.zones == sys.room.zones
            && sys'.movers == sys.movers[z := Mover(pid, Erasing, SectorIdx(pos))]
            && sys'.room.table[pid] == sys.room.table[pid].(pos := pos)
  {
    acts := [MovePacket(s, pos)] + [RunMove(z)];
    MoveQueued(sys, s, pid, pos, [RunMove(z)]);
    var posted := Next(sys, MovePacket(s, pos));
    MoveBegins(posted, pid, z);
    JobsDoNotMove(posted, [RunMove(z)], positions, pid);
    assert posted.room.zones[z := []] == sys.room.zones;
  }

  lemma InsertingOnlyAdds(r: State, m: Mover, i: Idx)
    requires CanMove(r, m) && m.pc == Inserting && OnGrid(i)
    ensures m.pid in At(r.sectors, i) || i == m.target ==> m.pid in At(Placed(r, m).sectors, i)
  {
  }

  /** At rest, in two sectors. */
  ghost predicate Doubled(sys: System, pid: nat, t1: Idx, t2: Idx) {
    && AtRest(sys) && WellFormed(sys.room) && pid in sys.room.table && OnGrid(t1) && OnGrid(t2)
    && pid in At(sys.room.sectors, t1) && pid in At(sys.room.sectors, t2)
  }

  lemma InsertSecond(sys: System, z: Idx, pid: nat, t1: Idx, t2: Idx)
    requires WellFormed(sys.room) && pid in sys.room.table && OnGrid(t1) && OnGrid(t2) && sys.leaver == None
    requires sys.movers == map[z := Mover(pid, Inserting, t2)] && pid in At(sys.room.sectors, t1)
    ensures Doubled(Run(sys, Repeat(StepMove(z), MovesLeft(Inserting))), pid, t1, t2)
  {
    FinishMove(sys, z);
    InsertingOnlyAdds(sys.room, Mover(pid, Inserting, t2), t1);
    InsertingOnlyAdds(sys.room, Mover(pid, Inserting, t2), t2);
  }

  lemma InsertFirst(sys: System, z1: Idx, z2: Idx, m1: Mover, m2: Mover)
    requires CanMove(sys.room, m1) && !m1.pc.Storing? && z1 != z2
    requires sys.leaver == None && sys.movers == map[z1 := m1, z2 := m2]
    ensures var sys' := Run(sys, Repeat(StepMove(z1), MovesLeft(m1.pc)));
            && WellFormed(sys'.room) && m1.pid in sys'.room.table && sys'.leaver == None
            && sys'.movers == map[z2 := m2] && m1.pid in At(sys'.room.sectors, m1.target)
  {
    assert sys.movers - {z1} == map[z2 := m2];
    FinishMove(sys, z1);
  }

  /** One move from its start, and then the rest of another that has already erased the player. */
  lemma InsertTwice(sys: System, z1: Idx, z2: Idx, pid: nat, t1: Idx, t2: Idx) returns (acts: seq<Action>)
    requires WellFormed(sys.room) && pid in sys.room.table && OnGrid(t1) && OnGrid(t2) && z1 != z2
    requires sys.leaver == None && sys.movers == map[z1 := Mover(pid, Erasing, t1), z2 := Mover(pid, Inserting, t2)]
    ensures JobsOnly(acts) && Doubled(Run(sys, acts), pid, t1, t2)
  {
    var first, second := Repeat(StepMove(z1), MovesLeft(Erasing)), Repeat(StepMove(z2), MovesLeft(Inserting));
    OnlyJobs(StepMove(z1), MovesLeft(Erasing), StepMove(z2), MovesLeft(Inserting));
    InsertFirst(sys, z1, z2, Mover(pid, Erasing, t1), Mover(pid, Inserting, t2));
    InsertSecond(Run(sys, first), z2, pid, t1, t2);
    RunAppend(sys, first, second);
    acts := first + second;
  }

  /** Both have looked; each then erases the old index and inserts at its own. */
  lemma BothInsert(sys: System, z1: Idx, z2: Idx, pid: nat, t1: Idx, t2: Idx) returns (acts: seq<Action>)
    requires WellFormed(sys.room) && pid in sys.room.table && OnGrid(t1) && OnGrid(t2) && z1 != z2
    requires sys.leaver == None && sys.movers == map[z1 := Mover(pid, Erasing, t1), z2 := Mover(pid, Erasing, t2)]
    ensures JobsOnly(acts) && Doubled(Run(sys, acts), pid, t1, t2)
  {
    StepMoveRuns(sys, z2, []);
    var rest := InsertTwice(Next(sys, StepMove(z2)), z1, z2, pid, t1, t2);
    StepMoveRuns(sys, z2, rest);
    acts := [StepMove(z2)] + rest;
  }

  /** At rest, no zone of these has anything to do. */
  ghost predicate Idle(sys: System, s: nat, pid: nat, z1: Idx, z2: Idx) {
    && Owns(sys, s, pid) && AtRest(sys) && z1 in sys.room.zones && z2 in sys.room.zones
    && sys.room.zones[z1] == [] && sys.room.zones[z2] == []
  }

  lemma BothTaken(sys: System, s: nat, pid: nat, p1: Position, p2: Position, z1: Idx, z2: Idx, positions: set<Position>)
    returns (acts: seq<Action>)
    requires p1 in positions && p2 in positions
    requires z1 == ZoneIdx(p1) && z2 == ZoneIdx(p2) && z1 != z2 && Idle(sys, s, pid, z1, z2)
    requires sys.room.table[pid].sector !in {SectorIdx(p1), SectorIdx(p2)}
    ensures JobsAndMoves(acts, positions) && MovesOf(sys, acts, pid) == [p1, p2]
    ensures var sys' := Run(sys, acts);
            && Owns(sys', s, pid) && sys'.leaver == None
            && sys'.movers == map[z1 := Mover(pid, Erasing, SectorIdx(p1)), z2 := Mover(pid, Erasing, SectorIdx(p2))]
  {
    var first := MoveTaken(sys, s, pid, p1, z1, positions);
    var second := MoveTaken(Run(sys, first), s, pid, p2, z2, positions);
    MovesJoin(first, second, positions);
    RunAppend(sys, first, second);
    MovesOfAppend(sys, first, second, pid);
    acts := first + second;
  }

  /** Two C2S_MOVE packets to two zones, neither to the sector the player is stored in, can leave it in two sectors. */
  lemma MovesInTwoZones(sys: System, s: nat, pid: nat, p1: Position, p2: Position, positions: set<Position>)
    returns (acts: seq<Action>)
    requires p1 in positions && p2 in positions
    requires ZoneIdx(p1) != ZoneIdx(p2) && Idle(sys, s, pid, ZoneIdx(p1), ZoneIdx(p2))
    requires sys.room.table[pid].sector !in {SectorIdx(p1), SectorIdx(p2)}
    ensures JobsAndMoves(acts, positions) && MovesOf(sys, acts, pid) == [p1, p2]
    ensures Doubled(Run(sys, acts), pid, SectorIdx(p1), SectorIdx(p2))
  {
    var z1, z2 := ZoneIdx(p1), ZoneIdx(p2);
    var taken := BothTaken(sys, s, pid, p1, p2, z1, z2, positions);
    var rest := BothInsert(Run(sys, taken), z1, z2, pid, SectorIdx(p1), SectorIdx(p2));
    RunAppend(sys, taken, rest);
    MovesOfAppend(sys, taken, rest, pid);
    JobsDoNotMove(Run(sys, taken), rest, positions, pid);
    MovesJoin(taken, rest, positions);
    acts := taken + rest;
  }

  lemma FirstQueued(sys: System, s: nat, pid: nat, p: Position, z1: Idx)
    requires Owns(sys, s, pid) && z1 == ZoneIdx(p) && sys.room.zones[z1] == []
    ensures var sys' := Next(sys, MovePacket(s, p));
            && Run(sys, [MovePacket(s, p)]) == sys' && Owns(sys', s, pid)
            && sys'.movers == sys.movers && sys'.leaver == sys.leaver
            && sys'.room.zones == sys.room.zones[z1 := [pid]]
            && sys'.room.table[pid].sector == sys.room.table[pid].sector
  {
    MoveQueued(sys, s, pid, p, []);
    assert [MovePacket(s, p)] + [] == [MovePacket(s, p)];
    assert sys.room.zones[z1] + [pid] == [pid];
  }

  /** From the sector of `p`: a C2S_MOVE to `p`, whose job waits, and one to `q`, whose job is taken at once. */
  lemma OneLooks(sys: System, s: nat, pid: nat, p: Position, q: Position, z1: Idx, z2: Idx, positions: set<Position>)
    returns (acts: seq<Action>)
    requires p in positions && q in positions
    requires z1 == ZoneIdx(p) && z2 == ZoneIdx(q) && z1 != z2 && Idle(sys, s, pid, z1, z2)
    requires sys.room.table[pid].sector == SectorIdx(p) != SectorIdx(q)
    ensures JobsAndMoves(acts, positions)
    ensures var sys' := Run(sys, acts);
            && Owns(sys', s, pid) && sys'.leaver == None && sys'.movers == map[z2 := Mover(pid, Erasing, SectorIdx(q))]
            && sys'.room.zones == sys.room.zones[z1 := [pid]] && sys'.room.table[pid].sector == SectorIdx(p)
  {
    var first := [MovePacket(s, p)];
    FirstQueued(sys, s, pid, p, z1);
    var taken := MoveTaken(Run(sys, first), s, pid, q, z2, positions);
    RunAppend(sys, first, taken);
    MovesJoin(first, taken, positions);
    acts := first + taken;
  }

  /** Another C2S_MOVE to `q`, and the waiting job looks as well. */
  lemma OtherLooks(sys: System, s: nat, pid: nat, q: Position, z1: Idx, z2: Idx, positions: set<Position>)
    returns (acts: seq<Action>)
    requires q in positions && Owns(sys, s, pid) && sys.leaver == None && z1 != z2 && z2 == ZoneIdx(q)
    requires sys.movers == map[z2 := Mover(pid, Erasing, SectorIdx(q))] && sys.room.table[pid].sector != SectorIdx(q)
    requires z1 in sys.room.zones && sys.room.zones[z1] == [pid] && sys.room.zones[z2] == []
    ensures JobsAndMoves(acts, positions)
    ensures var sys', m := Run(sys, acts), Mover(pid, Erasing, SectorIdx(q));
            && Owns(sys', s, pid) && sys'.leaver == None && sys'.movers == map[z1 := m, z2 := m]
            && z2 in sys'.room.zones && sys'.room.zones[z2] == [pid]
  {
    MoveQueued(sys, s, pid, q, [RunMove(z1)]);
    MoveBegins(Next(sys, MovePacket(s, q)), pid, z1);
    acts := [MovePacket(s, q)] + [RunMove(z1)];
  }

  lemma BothLook(sys: System, s: nat, pid: nat, p: Position, q: Position, z1: Idx, z2: Idx, positions: set<Position>)
    returns (acts: seq<Action>)
    requires p in positions && q in positions
    requires z1 == ZoneIdx(p) && z2 == ZoneIdx(q) && z1 != z2 && Idle(sys, s, pid, z1, z2)
    requires sys.room.table[pid].sector == SectorIdx(p) != SectorIdx(q)
    ensures JobsAndMoves(acts, positions)
    ensures var sys', m := Run(sys, acts), Mover(pid, Erasing, SectorIdx(q));
            && Owns(sys', s, pid) && sys'.leaver == None && sys'.movers == map[z1 := m, z2 := m]
            && z2 in sys'.room.zones && sys'.room.zones[z2] == [pid]
  {
    var first := OneLooks(sys, s, pid, p, q, z1, z2, positions);
    var second := OtherLooks(Run(sys, first), s, pid, q, z1, z2, positions);
    RunAppend(sys, first, second);
    MovesJoin(first, second, positions);
    acts := first + second;
  }

  lemma OneStores(sys: System, s: nat, pid: nat, z1: Idx, z2: Idx, t: Idx) returns (acts: seq<Action>)
    requires Owns(sys, s, pid) && sys.leaver == None && z1 != z2 && OnGrid(t)
    requires sys.movers == map[z1 := Mover(pid, Erasing, t), z2 := Mover(pid, Erasing, t)]
    ensures JobsOnly(acts)
    ensures var sys' := Run(sys, acts);
            && Owns(sys', s, pid) && sys'.leaver == None && sys'.movers == map[z1 := Mover(pid, Erasing, t)]
            && sys'.room.zones == sys.room.zones && sys'.room.table[pid].sector == t
  {
    acts := Repeat(StepMove(z2), MovesLeft(sys.movers[z2].pc));
    assert sys.movers - {z2} == map[z1 := Mover(pid, Erasing, t)];
    FinishMove(sys, z2);
  }

  /** Another C2S_MOVE to `p`; the job that waits in the other zone looks. */
  lemma LooksBack(sys: System, s: nat, pid: nat, p: Position, z1: Idx, z2: Idx, t: Idx, positions: set<Position>)
    returns (acts: seq<Action>)
    requires p in positions && Owns(sys, s, pid) && sys.leaver == None && z1 != z2 && z1 == ZoneIdx(p)
    requires sys.movers == map[z1 := Mover(pid, Erasing, t)] && sys.room.table[pid].sector == t != SectorIdx(p)
    requires z2 in sys.room.zones && sys.room.zones[z2] == [pid]
    ensures JobsAndMoves(acts, positions)
    ensures var sys' := Run(sys, acts);
            && Owns(sys', s, pid) && sys'.leaver == None
            && sys'.movers == map[z1 := Mover(pid, Erasing, t), z2 := Mover(pid, Erasing, SectorIdx(p))]
  {
    MoveQueued(sys, s, pid, p, [RunMove(z2)]);
    MoveBegins(Next(sys, MovePacket(s, p)), pid, z2);
    acts := [MovePacket(s, p)] + [RunMove(z2)];
  }

  /** Four C2S_MOVE packets to and fro between two zones can do the same from one of the two sectors. */
  lemma ToAndFro(sys: System, s: nat, pid: nat, p: Position, q: Position, positions: set<Position>)
    returns (acts: seq<Action>)
    requires p in positions && q in positions
    requires ZoneIdx(p) != ZoneIdx(q) && Idle(sys, s, pid, ZoneIdx(p), ZoneIdx(q))
    requires sys.room.table[pid].sector == SectorIdx(p) != SectorIdx(q)
    ensures JobsAndMoves(acts, positions) && Doubled(Run(sys, acts), pid, SectorIdx(q), SectorIdx(p))
  {
    var z1, z2, t := ZoneIdx(p), ZoneIdx(q), SectorIdx(q);
    var first := BothLook(sys, s, pid, p, q, z1, z2, positions);
    var looked := Run(sys, first);
    var second := OneStores(looked, s, pid, z1, z2, t);
    var stored := Run(looked, second);
    var third := LooksBack(stored, s, pid, p, z1, z2, t, positions);
    var fourth := BothInsert(Run(stored, third), z1, z2, pid, t, SectorIdx(p));
    acts := JoinFour(sys, first, second, third, fourth, positions);
  }

  lemma JoinFour(sys: System, first: seq<Action>, second: seq<Action>, third: seq<Action>, fourth: seq<Action>,
                 positions: set<Position>) returns (acts: seq<Action>)
    requires JobsAndMoves(first, positions) && JobsOnly(second) && JobsAndMoves(third, positions) && JobsOnly(fourth)
    ensures JobsAndMoves(acts, positions)
    ensures Run(sys, acts) == Run(Run(Run(Run(sys, first), second), third), fourth)
  {
    RunAppend(sys, first, second);
    MovesJoin(first, second, positions);
    RunAppend(sys, first + second, third);
    MovesJoin(first + second, third, positions);
    RunAppend(sys, first + second + third, fourth);
    MovesJoin(first + second + third, fourth, positions);
    acts := first + second + third + fourth;
  }

  // ---- The queues of the zones and of the room ---------------------------------------------------------

  /** The players whose moves a zone takes during a run, in order. */
  function TakenMoves(sys: System, acts: seq<Action>, z: Idx): seq<nat>
    decreases |acts|
  {
    if acts == [] then []
    else (if acts[0] == RunMove(z) && Enabled(sys, acts[0]) then [sys.room.zones[z][0]] else []) +
         TakenMoves(After(sys, acts[0]), acts[1..], z)
  }

  /** The players whose C2S_MOVE packets lead to the zone. */
  function PostedMoves(sys: System, acts: seq<Action>, z: Idx): seq<nat>
    decreases |acts|
  {
    if acts == [] then [] else PostedMove(sys, acts[0], z) + PostedMoves(After(sys, acts[0]), acts[1..], z)
  }

  function PostedMove(sys: System, a: Action, z: Idx): seq<nat> {
    if a.MovePacket? && Enabled(sys, a) && ZoneIdx(a.pos) == z then [sys.sessions[a.s].own.value] else []
  }

  function ZoneQueue(sys: System, z: Idx): seq<nat> {
    if z in sys.room.zones then sys.room.zones[z] else []
  }

  lemma PacketQueues(sys: System, a: Action, z: Idx)
    requires Enabled(sys, a) && !a.RunMove? && !a.StepMove? && !a.StepJob?
    ensures ZoneQueue(Next(sys, a), z) == ZoneQueue(sys, z) + PostedMove(sys, a, z)
  {
    if a.LoginPacket? { LoginShape(sys.room, a.pos); }
  }

  lemma StepQueues(sys: System, a: Action, z: Idx)
    ensures (if a == RunMove(z) && Enabled(sys, a) then [sys.room.zones[z][0]] else []) + ZoneQueue(After(sys, a), z) ==
            ZoneQueue(sys, z) + PostedMove(sys, a, z)
  {
    if Enabled(sys, a) {
      if a.RunMove? {
        RunMoveIs(sys, a.z);
      } else if a.StepMove? {
        StepMoveIs(sys, a.z);
        MoverKeepsShape(sys.room, sys.movers[a.z]);
      } else if a.StepJob? {
        StepJobIs(sys);
        LeaverKeepsShape(sys.room, sys.leaver.value);
      } else {
        PacketQueues(sys, a, z);
      }
    }
  }

  lemma Chained(a: seq<nat>, b: seq<nat>, c: seq<nat>)
    ensures a + (b + c) == (a + b) + c
  {
  }

  /** A zone takes the moves in the order in which their packets came. */
  lemma {:induction false} ZonesAreFair(sys: System, acts: seq<Action>, z: Idx)
    ensures TakenMoves(sys, acts, z) + ZoneQueue(Run(sys, acts), z) == ZoneQueue(sys, z) + PostedMoves(sys, acts, z)
    decreases |acts|
  {
    if acts != [] {
      var a, sys', rest := acts[0], After(sys, acts[0]), acts[1..];
      var taken := if a == RunMove(z) && Enabled(sys, a) then [sys.room.zones[z][0]] else [];
      StepQueues(sys, a, z);
      ZonesAreFair(sys', rest, z);
      Chained(taken, TakenMoves(sys', rest, z), ZoneQueue(Run(sys, acts), z));
      Chained(taken, ZoneQueue(sys', z), PostedMoves(sys', rest, z));
      Chained(ZoneQueue(sys, z), PostedMove(sys, a, z), PostedMoves(sys', rest, z));
    }
  }

  /** The Logout jobs the room takes during a run, and those posted to it. */
  function TakenJobs(sys: System, acts: seq<Action>): seq<nat>
    decreases |acts|
  {
    if acts == [] then []
    else (if acts[0].RunJob? && Enabled(sys, acts[0]) then [sys.room.jobs[0]] else []) +
         TakenJobs(After(sys, acts[0]), acts[1..])
  }

  function PostedJobs(sys: System, acts: seq<Action>): seq<nat>
    decreases |acts|
  {
    if acts == [] then []
    else (if Enabled(sys, acts[0]) then PostedBy(sys, acts[0]) else []) + PostedJobs(After(sys, acts[0]), acts[1..])
  }

  /** The room runs them in the order in which they were posted. */
  lemma {:induction false} RoomIsFair(sys: System, acts: seq<Action>)
    ensures TakenJobs(sys, acts) + Run(sys, acts).room.jobs == sys.room.jobs + PostedJobs(sys, acts)
    decreases |acts|
  {
    if acts != [] {
      var a, sys', rest := acts[0], After(sys, acts[0]), acts[1..];
      var taken := if a.RunJob? && Enabled(sys, a) then [sys.room.jobs[0]] else [];
      var posted := if Enabled(sys, a) then PostedBy(sys, a) else [];
      assert taken + sys'.room.jobs == sys.room.jobs + posted;
      RoomIsFair(sys', rest);
      Chained(taken, TakenJobs(sys', rest), Run(sys, acts).room.jobs);
      Chained(taken, sys'.room.jobs, PostedJobs(sys', rest));
      Chained(sys.room.jobs, posted, PostedJobs(sys', rest));
    }
  }
}

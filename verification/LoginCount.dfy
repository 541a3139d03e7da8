/** When the login count is right, and which players are never logged out. */
module LoginCount {
  import opened Basics
  import opened Grid
  import opened GameRoom
  import opened Membership
  import opened RoomSafety

  // ---- Pending Logout jobs ---------------------------------------------------------------------------

  /** The player that the job under way has not yet taken out of m_players, and those of the queued jobs. */
  function Pending(r: State, leaver: Leaving): seq<nat> {
    (if leaver.Some? && !Uncounted(leaver) then [leaver.value.pid] else []) + r.jobs
  }

  /** Every pending Logout job is for another member of the room. */
  predicate Clean(pending: seq<nat>, members: set<nat>) {
    NoDuplicates(pending) && forall pid <- pending :: pid in members
  }

  predicate CleanSystem(sys: System) {
    Clean(Pending(sys.room, sys.leaver), sys.room.members)
  }

  lemma FirstPending(pending: seq<nat>, members: set<nat>)
    requires pending != []
    ensures Clean(pending, members) <==> pending[0] in members && Clean(pending[1..], members - {pending[0]})
  {
    var pid, rest := pending[0], pending[1..];
    assert pending == [pid] + rest;
    assert NoDuplicates(pending) <==> pid !in rest && NoDuplicates(rest);
  }

  lemma AppendedClean(pending: seq<nat>, members: set<nat>, pid: nat)
    requires Clean(pending, members)
    ensures Clean(pending + [pid], members) <==> pid !in pending && pid in members
  {
    AppendedIsNew(pending, pid);
    assert pid in pending + [pid];
  }

  /** Runs the queued jobs. */
  function Drain(r: State): State
    requires WellFormed(r) && forall pid <- r.jobs :: pid in r.table
    decreases |r.jobs|
  {
    if r.jobs == [] then r else assert r.jobs[0] in r.jobs; Drain(JobStep(r))
  }

  lemma JobStepCounts(r: State)
    requires WellFormed(r) && r.jobs != [] && r.jobs[0] in r.table
    ensures var r', pid := JobStep(r), r.jobs[0];
            && r'.jobs == r.jobs[1..] && r'.members == r.members - {pid}
            && r'.loginCnt == r.loginCnt - 1 && r'.table.Keys == r.table.Keys
  {
  }

  /** The count is right after the queued jobs exactly when these are for different members. */
  lemma {:induction false} DrainCounts(r: State)
    requires WellFormed(r) && forall pid <- r.jobs :: pid in r.table
    ensures |Drain(r).members| - Drain(r).loginCnt >= |r.members| - r.loginCnt
    ensures |Drain(r).members| - Drain(r).loginCnt == |r.members| - r.loginCnt <==> Clean(r.jobs, r.members)
    decreases |r.jobs|
  {
    if r.jobs != [] {
      assert r.jobs[0] in r.jobs;
      JobStepCounts(r);
      DrainCounts(JobStep(r));
      FirstPending(r.jobs, r.members);
    }
  }

  /** Finishes the job under way. */
  function Finish(r: State, leaver: Leaving): (r': State)
    requires WellFormed(r) && (leaver.Some? ==> leaver.value.pid in r.table)
    ensures WellFormed(r')
    decreases if leaver.Some? then StepsLeft(leaver.value.pc) else 0
  {
    if leaver.None? then r
    else
      assert leaver.value.pid in LeaverRoom(r, leaver.value).table;
      Finish(LeaverRoom(r, leaver.value), NextLeaver(leaver.value))
  }

  lemma {:induction false} FinishCounts(r: State, leaver: Leaving, redundant: nat)
    requires WellFormed(r) && (leaver.Some? ==> leaver.value.pid in r.table) && Counted(r, leaver, redundant)
    ensures var r' := Finish(r, leaver);
            r'.jobs == r.jobs && r'.table.Keys == r.table.Keys && |r'.members| - r'.loginCnt >= redundant
    decreases if leaver.Some? then StepsLeft(leaver.value.pc) else 0
  {
    if leaver.Some? {
      StepJobCounted(r, leaver.value, redundant);
      LeaverKeepsShape(r, leaver.value);
      FinishCounts(LeaverRoom(r, leaver.value), NextLeaver(leaver.value), redundant + JobRedundant(r, leaver.value));
    }
  }

  // ---- Steps that double a job -------------------------------------------------------------------------

  /** A step posts a Logout job for a player that has one pending, or that is not in the room any more. */
  predicate Doubles(sys: System, a: Action)
    requires Enabled(sys, a)
  {
    exists pid <- PostedBy(sys, a) :: pid in Pending(sys.room, sys.leaver) || pid !in sys.room.members
  }

  lemma StepJobClean(r: State, l: Leaver)
    requires WellFormed(r) && l.pid in r.table && Clean(Pending(r, Some(l)), r.members)
    ensures Clean(Pending(LeaverRoom(r, l), NextLeaver(l)), LeaverRoom(r, l).members)
  {
    LeaverKeepsShape(r, l);
    if l.pc.FromMembers? {
      var pending := Pending(r, Some(l));
      assert pending[0] == l.pid && pending[1..] == r.jobs;
      FirstPending(pending, r.members);
      assert Pending(LeaverRoom(r, l), NextLeaver(l)) == r.jobs;
    }
  }

  lemma RunJobPending(sys: System)
    requires Enabled(sys, RunJob)
    ensures Pending(RoomAfter(sys, RunJob), LeaverAfter(sys, RunJob)) == Pending(sys.room, sys.leaver)
    ensures RoomAfter(sys, RunJob).members == sys.room.members
  {
    assert sys.room.jobs == [sys.room.jobs[0]] + sys.room.jobs[1..];
  }

  /** Steps other than those of jobs leave the members, but for a new one, and append what they post. */
  lemma PacketPending(sys: System, a: Action)
    requires Enabled(sys, a) && !a.RunJob? && !a.StepJob?
    ensures LeaverAfter(sys, a) == sys.leaver
    ensures Pending(RoomAfter(sys, a), sys.leaver) == Pending(sys.room, sys.leaver) + PostedBy(sys, a)
    ensures RoomAfter(sys, a).members == sys.room.members + if a.LoginPacket? then {sys.room.sessionCnt + 1} else {}
    ensures |PostedBy(sys, a)| <= 1 && (a.LoginPacket? ==> PostedBy(sys, a) == [])
  {
  }

  lemma PacketKeepsClean(sys: System, a: Action)
    requires Inv(sys) && Enabled(sys, a) && CleanSystem(sys) && !a.RunJob? && !a.StepJob?
    ensures CleanSystem(Next(sys, a)) <==> !Doubles(sys, a)
  {
    var pending, posted := Pending(sys.room, sys.leaver), PostedBy(sys, a);
    PacketPending(sys, a);
    if posted == [] {
      assert pending + posted == pending;
    } else {
      assert posted == [posted[0]];
      AppendedClean(pending, sys.room.members, posted[0]);
      assert Doubles(sys, a) <==> posted[0] in pending || posted[0] !in sys.room.members;
    }
  }

  lemma StepKeepsClean(sys: System, a: Action)
    requires Inv(sys) && Enabled(sys, a) && CleanSystem(sys)
    ensures CleanSystem(Next(sys, a)) <==> !Doubles(sys, a)
  {
    if a.RunJob? {
      RunJobPending(sys);
    } else if a.StepJob? {
      StepJobClean(sys.room, sys.leaver.value);
    } else {
      PacketKeepsClean(sys, a);
    }
  }

  lemma RunTwo(sys: System, a: Action, b: Action)
    requires Enabled(sys, a) && Enabled(Next(sys, a), b)
    ensures Run(sys, [a, b]) == Next(Next(sys, a), b)
  {
    assert Run(Next(sys, a), [b]) == Run(Next(Next(sys, a), b), []);
    assert [a, b][1..] == [b];
  }

  /** The two posts of a C2S_LOGOUT and the disconnect behind it. */
  lemma TwoPosts(sys: System, s: nat)
    requires Inv(sys) && s in sys.sessions && sys.sessions[s].connected && sys.sessions[s].own.Some?
    requires sys.room.table[sys.sessions[s].own.value].connected
    ensures var after, pid := Run(sys, [LogoutPacket(s), Disconnect(s, true)]), sys.sessions[s].own.value;
            Inv(after) && after.room.jobs == sys.room.jobs + [pid] + [pid] && after.redundant == sys.redundant
  {
    var a, b := LogoutPacket(s), Disconnect(s, true);
    StepKeepsInv(sys, a);
    StepKeepsInv(Next(sys, a), b);
    RunTwo(sys, a, b);
    PacketPending(sys, a);
    assert PostedBy(sys, a) == [sys.sessions[s].own.value] == PostedBy(Next(sys, a), b);
  }

  /** C2S_LOGOUT from a connected player posts its job unguarded; if the session is then disconnected before that
      job has run, the guard there posts the job again and the count ends up wrong. */
  lemma LogoutThenDisconnect(sys: System, s: nat)
    requires Inv(sys) && s in sys.sessions && sys.sessions[s].connected && sys.sessions[s].own.Some?
    requires sys.room.table[sys.sessions[s].own.value].connected
    ensures var after := Run(sys, [LogoutPacket(s), Disconnect(s, true)]);
            Inv(after) &&
            var r := Finish(after.room, after.leaver);
            (forall pid <- r.jobs :: pid in r.table) && |Drain(r).members| - Drain(r).loginCnt > sys.redundant
  {
    TwoPosts(sys, s);
    var after := Run(sys, [LogoutPacket(s), Disconnect(s, true)]);
    FinishCounts(after.room, after.leaver, after.redundant);
    var r, n := Finish(after.room, after.leaver), |sys.room.jobs|;
    assert r.jobs[n] == r.jobs[n + 1];
    DrainCounts(r);
  }

  // ---- Without C2S_LOGOUT --------------------------------------------------------------------------------

  /** What the guards alone keep: one Logout job per player, posted when it leaves the connected state. */
  ghost predicate Guarded(sys: System) {
    && sys.redundant == 0 && CleanSystem(sys)
    && (forall pid <- Pending(sys.room, sys.leaver) :: pid in sys.room.table && !sys.room.table[pid].connected)
    && (sys.leaver.Some? ==> sys.leaver.value.pid in sys.room.table && !sys.room.table[sys.leaver.value.pid].connected)
    && (forall pid: nat :: sys.posts[pid] <= 1)
    && (forall pid <- sys.posts :: pid in sys.room.table && !sys.room.table[pid].connected)
  }

  lemma PacketConnected(sys: System, a: Action, pid: nat)
    requires Enabled(sys, a) && !IsJobStep(a) && !a.LogoutPacket? && !a.LoginPacket? && pid in sys.room.table
    ensures pid in RoomAfter(sys, a).table
    ensures RoomAfter(sys, a).table[pid].connected <==> sys.room.table[pid].connected && pid !in PostedBy(sys, a)
  {
  }

  lemma JobConnected(sys: System, a: Action, pid: nat)
    requires Enabled(sys, a) && IsJobStep(a) && pid in sys.room.table
    ensures pid in RoomAfter(sys, a).table && PostedBy(sys, a) == []
    ensures RoomAfter(sys, a).table[pid].connected <==>
            sys.room.table[pid].connected && !(a.StepJob? && Before(sys.leaver, pid, FromState))
  {
    if a.StepMove? { MoverKeepsConnected(sys.room, sys.movers[a.z]); }
    if a.StepJob? { LeaverKeepsShape(sys.room, sys.leaver.value); }
  }

  /** Players leave the connected state by the guarded posts and by Logout jobs only. */
  lemma ConnectedAfter(sys: System, a: Action, pid: nat)
    requires Inv(sys) && Enabled(sys, a) && !a.LogoutPacket? && pid in sys.room.table
    ensures pid in RoomAfter(sys, a).table
    ensures RoomAfter(sys, a).table[pid].connected <==>
            && sys.room.table[pid].connected && pid !in PostedBy(sys, a)
            && !(a.StepJob? && Before(sys.leaver, pid, FromState))
  {
    if IsJobStep(a) {
      JobConnected(sys, a, pid);
    } else if a.LoginPacket? {
      LoginLeavesOthers(sys.room, a.pos, pid);
      LoginPacketIs(sys, a.s, a.pos);
    } else {
      PacketConnected(sys, a, pid);
    }
  }

  lemma PostedAreMembers(sys: System, a: Action)
    requires Inv(sys) && Enabled(sys, a) && !a.LogoutPacket?
    ensures forall pid <- PostedBy(sys, a) ::
              pid in sys.room.table && sys.room.table[pid].connected && PostedBy(sys, a) == [pid]
  {
  }

  lemma GuardsDoNotDouble(sys: System, a: Action)
    requires Inv(sys) && Guarded(sys) && Enabled(sys, a) && !a.LogoutPacket?
    ensures !Doubles(sys, a) && !Redundant(sys, a)
  {
    PostedAreMembers(sys, a);
    forall pid | pid in PostedBy(sys, a) ensures pid !in Pending(sys.room, sys.leaver) && pid in sys.room.members {
      assert Accounted(sys.room, sys.leaver, pid);
    }
    if a.StepJob? && sys.leaver.value.pc.FromMembers? {
      assert Pending(sys.room, sys.leaver)[0] == sys.leaver.value.pid;
    }
  }

  lemma PendingAfter(sys: System, a: Action, pid: nat)
    requires Enabled(sys, a) && pid in Pending(RoomAfter(sys, a), LeaverAfter(sys, a))
    ensures pid in Pending(sys.room, sys.leaver) || pid in PostedBy(sys, a)
  {
    if a.RunJob? {
      RunJobPending(sys);
    } else if a.StepJob? {
      LeaverKeepsShape(sys.room, sys.leaver.value);
    } else {
      PacketPending(sys, a);
    }
  }

  /** A player that is not connected, or is being posted, is not connected afterwards. */
  lemma OutAfter(sys: System, a: Action, pid: nat)
    requires Inv(sys) && Enabled(sys, a) && !a.LogoutPacket? && pid in sys.room.table
    requires pid in PostedBy(sys, a) || !sys.room.table[pid].connected
    ensures pid in RoomAfter(sys, a).table && !RoomAfter(sys, a).table[pid].connected
  {
    ConnectedAfter(sys, a, pid);
  }

  lemma PendingStayOut(sys: System, a: Action, pid: nat)
    requires Inv(sys) && Guarded(sys) && Enabled(sys, a) && !a.LogoutPacket?
    requires pid in Pending(RoomAfter(sys, a), LeaverAfter(sys, a))
    ensures pid in RoomAfter(sys, a).table && !RoomAfter(sys, a).table[pid].connected
  {
    PendingAfter(sys, a, pid);
    PostedAreMembers(sys, a);
    OutAfter(sys, a, pid);
  }

  lemma LeaverStaysOut(sys: System, a: Action)
    requires Inv(sys) && Guarded(sys) && Enabled(sys, a) && !a.LogoutPacket? && LeaverAfter(sys, a).Some?
    ensures var pid := LeaverAfter(sys, a).value.pid;
            pid in RoomAfter(sys, a).table && !RoomAfter(sys, a).table[pid].connected
  {
    if a.RunJob? {
      assert sys.room.jobs[0] in Pending(sys.room, sys.leaver);
      OutAfter(sys, a, sys.room.jobs[0]);
    } else {
      OutAfter(sys, a, sys.leaver.value.pid);
    }
  }

  lemma PostsStayFew(sys: System, a: Action, pid: nat)
    requires Inv(sys) && Guarded(sys) && Enabled(sys, a) && !a.LogoutPacket?
    ensures var posts' := sys.posts + multiset(PostedBy(sys, a));
            && posts'[pid] <= 1
            && (pid in posts' ==> pid in RoomAfter(sys, a).table && !RoomAfter(sys, a).table[pid].connected)
  {
    var posted := PostedBy(sys, a);
    PostedAreMembers(sys, a);
    if pid in posted {
      assert posted == [pid] && sys.posts[pid] == 0;
      OutAfter(sys, a, pid);
    } else if pid in sys.posts {
      OutAfter(sys, a, pid);
    }
  }

  lemma StepKeepsGuarded(sys: System, a: Action)
    requires Inv(sys) && Guarded(sys) && Enabled(sys, a) && !a.LogoutPacket?
    ensures Guarded(Next(sys, a))
  {
    GuardsDoNotDouble(sys, a);
    StepKeepsClean(sys, a);
    var sys' := Next(sys, a);
    forall pid | pid in Pending(sys'.room, sys'.leaver)
      ensures pid in sys'.room.table && !sys'.room.table[pid].connected
    {
      PendingStayOut(sys, a, pid);
    }
    if sys'.leaver.Some? { LeaverStaysOut(sys, a); }
    forall pid: nat
      ensures sys'.posts[pid] <= 1
      ensures pid in sys'.posts ==> pid in sys'.room.table && !sys'.room.table[pid].connected
    {
      PostsStayFew(sys, a, pid);
    }
  }

  lemma {:induction false} RunKeepsGuarded(sys: System, acts: seq<Action>)
    requires Inv(sys) && Guarded(sys) && forall a <- acts :: !a.LogoutPacket?
    ensures Guarded(Run(sys, acts))
    decreases |acts|
  {
    if acts != [] {
      if Enabled(sys, acts[0]) {
        StepKeepsInv(sys, acts[0]);
        StepKeepsGuarded(sys, acts[0]);
        RunKeepsGuarded(Next(sys, acts[0]), acts[1..]);
      } else {
        RunKeepsGuarded(sys, acts[1..]);
      }
    }
  }

  /** Without C2S_LOGOUT the login count is the number of members, up to one operation of the job under way, and no
      player is logged out twice: whatever jobs overlap. */
  lemma DisconnectsCountRight(init: System, acts: seq<Action>)
    requires Initial(init) && forall a <- acts :: !a.LogoutPacket?
    ensures var sys := Run(init, acts);
            && (forall pid: nat :: sys.posts[pid] <= 1)
            && sys.room.loginCnt == |sys.room.members| + if Uncounted(sys.leaver) then 1 else 0
  {
    InitialInv(init);
    RunKeepsInv(init, acts);
    RunKeepsGuarded(init, acts);
  }

  // ---- Sessions that are gone ------------------------------------------------------------------------------

  /** The packets, disconnects and the destructor of session `s`. */
  predicate Of(a: Action, s: nat) {
    match a
    case LoginPacket(t, _) => t == s
    case MovePacket(t, _) => t == s
    case LogoutPacket(t) => t == s
    case Disconnect(t, _) => t == s
    case Destroy(t) => t == s
    case _ => false
  }

  predicate Begins(a: Action, s: nat) {
    a == Open(s) || (a.LoginPacket? && a.s == s)
  }

  /** Session `s` has been destroyed, or neither is connected nor owns a player. */
  predicate Gone(sys: System, s: nat) {
    s in sys.sessions ==> sys.sessions[s] == Session(false, None)
  }

  lemma DisconnectEnds(sys: System, s: nat)
    requires Enabled(sys, Disconnect(s, true)) && sys.sessions[s].connected
    ensures Gone(Next(sys, Disconnect(s, true)), s)
  {
  }

  lemma StepKeepsGone(sys: System, a: Action, s: nat)
    requires Gone(sys, s) && Enabled(sys, a) && !Begins(a, s)
    ensures Gone(Next(sys, a), s) && (Of(a, s) ==> Next(sys, a).room == sys.room)
  {
  }

  /** Once its disconnect has been handled, a session has no effect on the room: over any run in which it sends no new
      C2S_LOGIN. */
  lemma {:induction false} DisconnectSilences(sys: System, acts: seq<Action>, s: nat)
    requires Gone(sys, s) && forall a <- acts :: !Begins(a, s)
    ensures Gone(Run(sys, acts), s)
    ensures forall a: Action :: Of(a, s) && !a.LoginPacket? && Enabled(Run(sys, acts), a) ==>
              Next(Run(sys, acts), a).room == Run(sys, acts).room
    decreases |acts|
  {
    if acts != [] {
      if Enabled(sys, acts[0]) {
        StepKeepsGone(sys, acts[0], s);
        DisconnectSilences(Next(sys, acts[0]), acts[1..], s);
      } else {
        DisconnectSilences(sys, acts[1..], s);
      }
    } else {
      forall a: Action | Of(a, s) && !a.LoginPacket? && Enabled(sys, a) ensures Next(sys, a).room == sys.room {
        StepKeepsGone(sys, a, s);
      }
    }
  }

  // ---- Players no session will ever log out ----------------------------------------------------------------

  /** A member that no session owns and no job will remove. */
  ghost predicate Stranded(sys: System, pid: nat) {
    && pid in sys.room.table && sys.room.table[pid].connected && pid in sys.room.members && pid !in sys.room.jobs
    && !LeaverIs(sys.leaver, pid)
    && forall s <- sys.sessions :: sys.sessions[s].own != Some(pid)
  }

  lemma StrandedStays(sys: System, a: Action, pid: nat)
    requires Inv(sys) && Enabled(sys, a) && Stranded(sys, pid)
    ensures var r' := RoomAfter(sys, a);
            pid in r'.table && r'.table[pid].connected && pid in r'.members && pid !in r'.jobs
  {
    assert pid !in PostedBy(sys, a);
    if a.LogoutPacket? {
      assert RoomAfter(sys, a).table == sys.room.table && RoomAfter(sys, a).members == sys.room.members;
    } else {
      ConnectedAfter(sys, a, pid);
      if a.StepJob? { LeaverKeepsShape(sys.room, sys.leaver.value); }
      if !a.StepJob? && !a.RunJob? { PacketPending(sys, a); }
    }
  }

  lemma StrandedUnowned(sys: System, a: Action, pid: nat)
    requires Inv(sys) && Enabled(sys, a) && Stranded(sys, pid)
    ensures forall s <- SessionsAfter(sys, a) :: SessionsAfter(sys, a)[s].own != Some(pid)
  {
    assert pid <= sys.room.sessionCnt;
  }

  /** Nothing ever removes it. */
  lemma StrandedForever(sys: System, a: Action, pid: nat)
    requires Inv(sys) && Enabled(sys, a) && Stranded(sys, pid)
    ensures Stranded(Next(sys, a), pid)
  {
    StrandedStays(sys, a, pid);
    StrandedUnowned(sys, a, pid);
  }

  lemma OwnedIsKnown(sys: System, s: nat)
    requires Inv(sys) && s in sys.sessions && sys.sessions[s].own.Some?
    ensures var pid := sys.sessions[s].own.value;
            pid in sys.room.table && pid <= sys.room.sessionCnt && Accounted(sys.room, sys.leaver, pid)
  {
  }

  lemma LoginPacketFor(sys: System, s: nat, pos: Position, q: nat)
    requires Enabled(sys, LoginPacket(s, pos)) && q in sys.room.table && q <= sys.room.sessionCnt
    ensures var r' := Next(sys, LoginPacket(s, pos)).room;
            && q in r'.table && r'.table[q] == sys.room.table[q] && (q in r'.members <==> q in sys.room.members)
            && r'.jobs == sys.room.jobs
    ensures Next(sys, LoginPacket(s, pos)).leaver == sys.leaver
    ensures Next(sys, LoginPacket(s, pos)).sessions == WithOwner(sys.sessions, s, sys.room.sessionCnt + 1)
  {
    LoginLeavesOthers(sys.room, pos, q);
    LoginShape(sys.room, pos);
    LoginPacketIs(sys, s, pos);
  }

  lemma Disowned(sys: System, sys': System, s: nat, pid: nat, newPid: nat)
    requires s in sys.sessions && sys.sessions[s].own == Some(pid) && pid != newPid
    requires forall t <- sys.sessions :: t != s ==> sys.sessions[t].own != Some(pid)
    requires sys'.sessions == WithOwner(sys.sessions, s, newPid) && sys'.leaver == sys.leaver
    requires pid in sys.room.table && pid in sys'.room.table && sys'.room.table[pid] == sys.room.table[pid]
    requires (pid in sys'.room.members <==> pid in sys.room.members) && sys'.room.jobs == sys.room.jobs
    requires Accounted(sys.room, sys.leaver, pid)
    ensures Stranded(sys', pid) <==>
              sys.room.table[pid].connected && pid !in sys.room.jobs && !LeaverIs(sys.leaver, pid)
  {
  }

  lemma SecondLogin(sys: System, s: nat, pos: Position, pid: nat)
    requires Enabled(sys, LoginPacket(s, pos)) && pid in sys.room.table && pid <= sys.room.sessionCnt
    requires sys.sessions[s].own == Some(pid) && forall t <- sys.sessions :: t != s ==> sys.sessions[t].own != Some(pid)
    requires Accounted(sys.room, sys.leaver, pid)
    ensures Stranded(Next(sys, LoginPacket(s, pos)), pid) <==>
              sys.room.table[pid].connected && pid !in sys.room.jobs && !LeaverIs(sys.leaver, pid)
  {
    LoginPacketFor(sys, s, pos, pid);
    Disowned(sys, Next(sys, LoginPacket(s, pos)), s, pid, sys.room.sessionCnt + 1);
  }

  /** A second C2S_LOGIN on a session strands its first player, unless that one is already on its way out. */
  lemma SecondLoginStrands(sys: System, s: nat, pos: Position)
    requires Inv(sys) && s in sys.sessions && sys.sessions[s].own.Some?
    requires forall t <- sys.sessions :: t != s ==> sys.sessions[t].own != sys.sessions[s].own
    ensures var pid := sys.sessions[s].own.value;
            Stranded(Next(sys, LoginPacket(s, pos)), pid) <==>
              sys.room.table[pid].connected && pid !in sys.room.jobs && !LeaverIs(sys.leaver, pid)
  {
    var pid := sys.sessions[s].own.value;
    OwnedIsKnown(sys, s);
    SecondLogin(sys, s, pos, pid);
  }
}

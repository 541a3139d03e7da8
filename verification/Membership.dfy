/** Sessions and the room together: packets, disconnects and jobs in any order. Jobs of different queues run side by
    side; every operation on a sector, on m_players or on a player is one step. */
module Membership {
  import opened Basics
  import opened Grid
  import opened GameRoom

  /** `own` is m_ownPlayer. */
  datatype Session = Session(connected: bool, own: Option<nat>)

  /** A MovePlayer job that has found its player connected and in another sector: before which operation it is. */
  datatype Mover = Mover(pid: nat, pc: MovePc, target: Idx)

  datatype MovePc = Erasing | Inserting | Storing

  /** A Logout job under way. */
  datatype Leaver = Leaver(pid: nat, pc: LeavePc)

  datatype LeavePc = FromSector | FromMembers | FromState | FromCount

  /** Each zone runs one job at a time, and so does the room. The last three components are history: players with two
      jobs under way at once, Logout jobs run for players no longer in the room, and Logout jobs posted so far. */
  datatype System = System(room: State, sessions: map<nat, Session>, movers: map<Idx, Mover>, leaver: Option<Leaver>,
                           clashed: set<nat>, redundant: nat, posts: multiset<nat>)

  datatype Action =
    | Open(s: nat)                          // a client connects
    | LoginPacket(s: nat, pos: Position)    // C2S_LOGIN, with the random initial position
    | MovePacket(s: nat, pos: Position)     // C2S_MOVE
    | LogoutPacket(s: nat)                  // C2S_LOGOUT, up to posting its job
    | Disconnect(s: nat, lingers: bool)     // SetLinger may fail
    | Destroy(s: nat)                       // the last reference to a session goes
    | RunMove(z: Idx)                       // a zone takes its next job and looks at the player
    | StepMove(z: Idx)                      // the next operation of that job
    | RunJob                                // the room takes its next Logout job
    | StepJob                               // the next operation of that job

  // ---- Steps ---------------------------------------------------------------------------------------

  function Create(r: State, pos: Position): (r': State)
    requires WellFormed(r)
    ensures WellFormed(r')
  {
    r.(sessionCnt := r.sessionCnt + 1, table := r.table[r.sessionCnt + 1 := Player(pos, false, Idx(0, 0))])
  }

  function LoggedIn(r: State, pos: Position): (r': State)
    requires WellFormed(r)
    ensures WellFormed(r')
  {
    LoginStep(Create(r, pos), r.sessionCnt + 1)
  }

  function Moved(r: State, pid: nat, pos: Position): (r': State)
    requires WellFormed(r) && pid in r.table
    ensures WellFormed(r')
  {
    PostMove(r.(table := r.table[pid := r.table[pid].(pos := pos)]), pid)
  }

  /** The guard the destructor and OnDisconnected share. */
  predicate Posts(r: State, own: Option<nat>) {
    own.Some? && own.value in r.table && r.table[own.value].connected
  }

  function GuardedPost(r: State, own: Option<nat>): (r': State)
    requires WellFormed(r)
    ensures WellFormed(r')
  {
    if Posts(r, own) then PostStep(SetConnected(r, own.value, false), own.value) else r
  }

  /** A move the room can carry on. */
  predicate CanMove(r: State, m: Mover) {
    WellFormed(r) && m.pid in r.table && OnGrid(m.target)
  }

  /** RioSession::Disconnect: only the first call has an effect; when SetLinger fails the player stays with the
      session. */
  function Disconnected(session: Session, lingers: bool): Session {
    if !session.connected then session else Session(false, if lingers then None else session.own)
  }

  function RoomDisconnected(r: State, session: Session, lingers: bool): (r': State)
    requires WellFormed(r)
    ensures WellFormed(r')
  {
    if session.connected && lingers then GuardedPost(r, session.own) else r
  }

  function Owning(session: Session, pid: nat): Session { session.(own := Some(pid)) }

  function MoverRoom(r: State, m: Mover): (r': State)
    requires CanMove(r, m)
    ensures WellFormed(r')
  {
    match m.pc
    case Erasing => LeaveSector(r, m.pid)
    case Inserting => AddAt(r, m.target, m.pid)
    case Storing => StoreSector(r, m.pid, m.target)
  }

  function NextMover(m: Mover): Option<Mover> {
    match m.pc
    case Erasing => Some(m.(pc := Inserting))
    case Inserting => Some(m.(pc := Storing))
    case Storing => None
  }

  function LeaverRoom(r: State, l: Leaver): (r': State)
    requires WellFormed(r) && l.pid in r.table
    ensures WellFormed(r')
  {
    match l.pc
    case FromSector => LeaveSector(r, l.pid)
    case FromMembers => LeaveMembers(r, l.pid)
    case FromState => SetConnected(r, l.pid, false)
    case FromCount => r.(loginCnt := r.loginCnt - 1)
  }

  function NextLeaver(l: Leaver): Option<Leaver> {
    match l.pc
    case FromSector => Some(l.(pc := FromMembers))
    case FromMembers => Some(l.(pc := FromState))
    case FromState => Some(l.(pc := FromCount))
    case FromCount => None
  }

  function StepsLeft(pc: LeavePc): nat {
    match pc case FromSector => 4 case FromMembers => 3 case FromState => 2 case FromCount => 1
  }

  /** A zone has a job for a player the room knows. */
  predicate HasMove(r: State, z: Idx) {
    WellFormed(r) && z in r.zones && r.zones[z] != [] && r.zones[z][0] in r.table
  }

  function WithOwner(sessions: map<nat, Session>, s: nat, pid: nat): map<nat, Session>
    requires s in sessions
  {
    sessions[s := Owning(sessions[s], pid)]
  }

  predicate Enabled(sys: System, a: Action) {
    WellFormed(sys.room) &&
    match a
    case Open(s) => s !in sys.sessions
    case MovePacket(s, _) =>
      s in sys.sessions && sys.sessions[s].own.Some? && sys.sessions[s].own.value in sys.room.table
    case LogoutPacket(s) => s in sys.sessions && sys.sessions[s].own.Some?
    case RunMove(z) => HasMove(sys.room, z) && z !in sys.movers
    case StepMove(z) => z in sys.movers && CanMove(sys.room, sys.movers[z])
    case RunJob => sys.leaver.None? && sys.room.jobs != [] && sys.room.jobs[0] in sys.room.table
    case StepJob => sys.leaver.Some? && sys.leaver.value.pid in sys.room.table
    case _ => a.s in sys.sessions
  }

  function Next(sys: System, a: Action): System
    requires Enabled(sys, a)
  {
    System(RoomAfter(sys, a), SessionsAfter(sys, a), MoversAfter(sys, a), LeaverAfter(sys, a), ClashedAfter(sys, a),
           sys.redundant + (if Redundant(sys, a) then 1 else 0), sys.posts + multiset(PostedBy(sys, a)))
  }

  function RoomAfter(sys: System, a: Action): (r': State)
    requires Enabled(sys, a)
    ensures WellFormed(r')
  {
    var r := sys.room;
    match a
    case Open(_) => r
    case LoginPacket(_, pos) => LoggedIn(r, pos)
    case MovePacket(s, pos) => Moved(r, sys.sessions[s].own.value, pos)
    case LogoutPacket(s) => PostStep(r, sys.sessions[s].own.value)
    case Disconnect(s, lingers) => RoomDisconnected(r, sys.sessions[s], lingers)
    case Destroy(s) => GuardedPost(r, sys.sessions[s].own)
    case RunMove(z) => r.(zones := r.zones[z := r.zones[z][1..]])
    case StepMove(z) => MoverRoom(r, sys.movers[z])
    case RunJob => r.(jobs := r.jobs[1..])
    case StepJob => LeaverRoom(r, sys.leaver.value)
  }

  function SessionsAfter(sys: System, a: Action): map<nat, Session>
    requires Enabled(sys, a)
  {
    match a
    case Open(s) => sys.sessions[s := Session(true, None)]
    case LoginPacket(s, _) => WithOwner(sys.sessions, s, sys.room.sessionCnt + 1)
    case Disconnect(s, lingers) => sys.sessions[s := Disconnected(sys.sessions[s], lingers)]
    case Destroy(s) => sys.sessions - {s}
    case _ => sys.sessions
  }

  /** The tests of MovePlayer: a connected player whose position is in another sector. */
  predicate Moves(r: State, pid: nat)
    requires pid in r.table
  {
    r.table[pid].connected && SectorIdx(r.table[pid].pos) != r.table[pid].sector
  }

  function MoversAfter(sys: System, a: Action): map<Idx, Mover>
    requires Enabled(sys, a)
  {
    match a
    case RunMove(z) =>
      var pid := sys.room.zones[z][0];
      if Moves(sys.room, pid) then sys.movers[z := Mover(pid, Erasing, SectorIdx(sys.room.table[pid].pos))]
      else sys.movers
    case StepMove(z) =>
      var next := NextMover(sys.movers[z]);
      if next.Some? then sys.movers[z := next.value] else sys.movers - {z}
    case _ => sys.movers
  }

  function LeaverAfter(sys: System, a: Action): Option<Leaver>
    requires Enabled(sys, a)
  {
    match a
    case RunJob => Some(Leaver(sys.room.jobs[0], FromSector))
    case StepJob => NextLeaver(sys.leaver.value)
    case _ => sys.leaver
  }

  /** A job of this player is under way. */
  predicate Busy(sys: System, pid: nat) {
    (exists z <- sys.movers :: sys.movers[z].pid == pid) || (sys.leaver.Some? && sys.leaver.value.pid == pid)
  }

  function ClashedAfter(sys: System, a: Action): set<nat>
    requires Enabled(sys, a)
  {
    match a
    case RunMove(z) => if Busy(sys, sys.room.zones[z][0]) then sys.clashed + {sys.room.zones[z][0]} else sys.clashed
    case RunJob => if Busy(sys, sys.room.jobs[0]) then sys.clashed + {sys.room.jobs[0]} else sys.clashed
    case _ => sys.clashed
  }

  predicate Redundant(sys: System, a: Action)
    requires Enabled(sys, a)
  {
    a.StepJob? && sys.leaver.value.pc == FromMembers && sys.leaver.value.pid !in sys.room.members
  }

  /** The Logout jobs a step posts. */
  function PostedBy(sys: System, a: Action): (posted: seq<nat>)
    requires Enabled(sys, a)
    ensures RoomAfter(sys, a).jobs == (if a.RunJob? then sys.room.jobs[1..] else sys.room.jobs) + posted
  {
    match a
    case LogoutPacket(s) => [sys.sessions[s].own.value]
    case Disconnect(s, lingers) =>
      if sys.sessions[s].connected && lingers && Posts(sys.room, sys.sessions[s].own) then [sys.sessions[s].own.value]
      else []
    case Destroy(s) => if Posts(sys.room, sys.sessions[s].own) then [sys.sessions[s].own.value] else []
    case _ => []
  }

  ghost predicate Initial(sys: System) {
    && WellFormed(sys.room) && (forall i :: OnGrid(i) ==> At(sys.room.sectors, i) == {})
    && (forall z <- sys.room.zones :: sys.room.zones[z] == [])
    && sys.room == State(0, {}, sys.room.sectors, sys.room.zones, map[], [], 0)
    && sys == System(sys.room, map[], map[], None, {}, 0, multiset{})
  }

  function Run(sys: System, acts: seq<Action>): System
    decreases |acts|
  {
    if acts == [] then sys else Run(if Enabled(sys, acts[0]) then Next(sys, acts[0]) else sys, acts[1..])
  }

  // ---- A job run without interruption is the job as a whole ------------------------------------------

  lemma MoverIsSync(r: State, pid: nat)
    requires WellFormed(r) && pid in r.table && Moves(r, pid)
    ensures var m := Mover(pid, Erasing, SectorIdx(r.table[pid].pos));
            MoverRoom(MoverRoom(MoverRoom(r, m), m.(pc := Inserting)), m.(pc := Storing)) == SyncStep(r, pid)
  {
  }

  lemma LeaverIsLogout(r: State, pid: nat)
    requires WellFormed(r) && pid in r.table
    ensures var l := Leaver(pid, FromSector);
            var out := LeaverRoom(LeaverRoom(r, l), l.(pc := FromMembers));
            LeaverRoom(LeaverRoom(out, l.(pc := FromState)), l.(pc := FromCount)) == LogoutStep(r, pid)
  {
  }
}

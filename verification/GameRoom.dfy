/** The game room: who is logged in and in which sector. The room is a job queue; logging out is a job. */
module GameRoom {
  import opened Grid

  /** A player object: `sector` is the stored index. */
  datatype Player = Player(pos: Position, connected: bool, sector: Idx)

  type Sectors = seq<seq<set<nat>>>

  /** `table` holds the player objects by id, `jobs` the room's pending Logout jobs and `zones` each zone's pending
      MovePlayer jobs; `sessionCnt` numbers players. */
  datatype State = State(loginCnt: int, members: set<nat>, sectors: Sectors, zones: map<Idx, seq<nat>>,
                         table: map<nat, Player>, jobs: seq<nat>, sessionCnt: nat)

  predicate Shaped(sectors: Sectors) {
    |sectors| == SECTORS && forall y :: 0 <= y < SECTORS ==> |sectors[y]| == SECTORS
  }

  function At(sectors: Sectors, i: Idx): set<nat>
    requires Shaped(sectors) && OnGrid(i)
  {
    sectors[i.y][i.x]
  }

  function With(sectors: Sectors, i: Idx, content: set<nat>): (sectors': Sectors)
    requires Shaped(sectors) && OnGrid(i)
    ensures Shaped(sectors') && At(sectors', i) == content
    ensures forall j :: OnGrid(j) && j != i ==> At(sectors', j) == At(sectors, j)
  {
    sectors[i.y := sectors[i.y][i.x := content]]
  }

  /** Grids of the right shape, and stored indices that exist. */
  predicate WellFormed(s: State) {
    && Shaped(s.sectors)
    && (forall y, x :: 0 <= y < ZONES && 0 <= x < ZONES ==> Idx(y, x) in s.zones)
    && forall pid <- s.table :: OnGrid(s.table[pid].sector)
  }

  // ---- Single operations -----------------------------------------------------------------------

  function RemoveAt(s: State, i: Idx, pid: nat): (s': State)
    requires WellFormed(s) && OnGrid(i)
    ensures WellFormed(s')
  {
    s.(sectors := With(s.sectors, i, At(s.sectors, i) - {pid}))
  }

  function AddAt(s: State, i: Idx, pid: nat): (s': State)
    requires WellFormed(s) && OnGrid(i)
    ensures WellFormed(s')
  {
    s.(sectors := With(s.sectors, i, At(s.sectors, i) + {pid}))
  }

  function StoreSector(s: State, pid: nat, i: Idx): (s': State)
    requires WellFormed(s) && pid in s.table && OnGrid(i)
    ensures WellFormed(s')
  {
    s.(table := s.table[pid := s.table[pid].(sector := i)])
  }

  function SetConnected(s: State, pid: nat, connected: bool): (s': State)
    requires WellFormed(s) && pid in s.table
    ensures WellFormed(s')
  {
    s.(table := s.table[pid := s.table[pid].(connected := connected)])
  }

  /** `m_sectors[...]->m_players.Erase(player)` at the stored index. */
  function LeaveSector(s: State, pid: nat): (s': State)
    requires WellFormed(s) && pid in s.table
    ensures WellFormed(s')
  {
    RemoveAt(s, s.table[pid].sector, pid)
  }

  function LeaveMembers(s: State, pid: nat): State { s.(members := s.members - {pid}) }

  // ---- Whole jobs, run without interruption ----------------------------------------------------

  function LoginStep(s: State, pid: nat): (s': State)
    requires WellFormed(s) && pid in s.table
    ensures WellFormed(s')
  {
    var i := SectorIdx(s.table[pid].pos);
    var inserted := AddAt(s.(loginCnt := s.loginCnt + 1), i, pid).(members := s.members + {pid});
    StoreSector(SetConnected(inserted, pid, true), pid, i)
  }

  function LogoutStep(s: State, pid: nat): (s': State)
    requires WellFormed(s) && pid in s.table
    ensures WellFormed(s')
  {
    var gone := SetConnected(LeaveMembers(LeaveSector(s, pid), pid), pid, false);
    gone.(loginCnt := s.loginCnt - 1)
  }

  function PostStep(s: State, pid: nat): State {
    s.(jobs := s.jobs + [pid])
  }

  function JobStep(s: State): (s': State)
    requires WellFormed(s) && s.jobs != [] && s.jobs[0] in s.table
    ensures WellFormed(s')
  {
    LogoutStep(s.(jobs := s.jobs[1..]), s.jobs[0])
  }

  /** Room::MovePlayer: a job for the zone of the player's position. */
  function PostMove(s: State, pid: nat): (s': State)
    requires WellFormed(s) && pid in s.table
    ensures WellFormed(s')
  {
    var z := ZoneIdx(s.table[pid].pos);
    s.(zones := s.zones[z := s.zones[z] + [pid]])
  }

  /** The sector part of Zone::MovePlayer. */
  function SyncStep(s: State, pid: nat): (s': State)
    requires WellFormed(s) && pid in s.table
    ensures WellFormed(s')
  {
    var i := SectorIdx(s.table[pid].pos);
    if !s.table[pid].connected || i == s.table[pid].sector then s
    else StoreSector(AddAt(LeaveSector(s, pid), i, pid), pid, i)
  }

  // ---- Membership is a partition over sectors ----------------------------------------------------

  /** A player is in a sector exactly when it is a member and the sector is its stored one. */
  ghost predicate Partition(s: State) {
    && WellFormed(s) && s.members <= s.table.Keys
    && (forall pid <- s.table :: s.table[pid].connected ==> pid in s.members)
    && forall i, pid :: OnGrid(i) ==> (pid in At(s.sectors, i) <==> pid in s.members && s.table[pid].sector == i)
  }

  lemma JoinKeeps(s: State, s': State, pid: nat, i: Idx)
    requires Partition(s) && pid in s.table && pid !in s.members && OnGrid(i) && WellFormed(s')
    requires s'.members == s.members + {pid} && s'.table.Keys == s.table.Keys && s'.table[pid].sector == i
    requires forall q <- s.table :: q != pid ==> s'.table[q] == s.table[q]
    requires forall j, q :: OnGrid(j) ==> (q in At(s'.sectors, j) <==> q in At(s.sectors, j) || (q == pid && j == i))
    ensures Partition(s')
  {
  }

  lemma AddAtContents(s: State, i: Idx, pid: nat)
    requires WellFormed(s) && OnGrid(i)
    ensures forall j, q :: OnGrid(j) ==>
              (q in At(AddAt(s, i, pid).sectors, j) <==> q in At(s.sectors, j) || (q == pid && j == i))
  {
  }

  lemma LoginContents(s: State, pid: nat, i: Idx)
    requires WellFormed(s) && pid in s.table && i == SectorIdx(s.table[pid].pos)
    ensures LoginStep(s, pid).sectors == AddAt(s, i, pid).sectors
  {
  }

  lemma LoginEffect(s: State, pid: nat, i: Idx)
    requires WellFormed(s) && pid in s.table && i == SectorIdx(s.table[pid].pos)
    ensures var s' := LoginStep(s, pid);
            && s'.members == s.members + {pid} && s'.table.Keys == s.table.Keys && s'.table[pid].sector == i
            && forall q <- s.table :: q != pid ==> s'.table[q] == s.table[q]
  {
  }

  lemma LoginKeeps(s: State, pid: nat)
    requires Partition(s) && pid in s.table && pid !in s.members
    ensures Partition(LoginStep(s, pid))
  {
    var i := SectorIdx(s.table[pid].pos);
    LoginEffect(s, pid, i);
    LoginContents(s, pid, i);
    AddAtContents(s, i, pid);
    JoinKeeps(s, LoginStep(s, pid), pid, i);
  }

  /** Logging out twice is harmless for the partition. */
  lemma LogoutKeeps(s: State, pid: nat)
    requires Partition(s) && pid in s.table
    ensures Partition(LogoutStep(s, pid))
  {
  }

  lemma SyncKeeps(s: State, pid: nat)
    requires Partition(s) && pid in s.table
    ensures Partition(SyncStep(s, pid))
  {
  }

  // ---- Who sees whom -------------------------------------------------------------------------

  /** What scanning all members finds. */
  function Near(s: State, pid: nat, viewDist: int): set<nat>
    requires pid in s.table && s.members <= s.table.Keys
  {
    set t | t in s.members && s.table[t].connected && IsNear(s.table[pid].pos, s.table[t].pos, viewDist)
  }

  /** What scanning the sectors around the player finds. */
  function Seen(s: State, pid: nat, reach: int, viewDist: int): set<nat>
    requires pid in s.table && s.members <= s.table.Keys
  {
    set t | t in Near(s, pid, viewDist) && Adjacent(SectorIdx(s.table[pid].pos), s.table[t].sector, reach)
  }

  /** The sectors hold players the room knows. */
  ghost predicate Populated(s: State) {
    WellFormed(s) && forall i :: OnGrid(i) ==> At(s.sectors, i) <= s.table.Keys
  }

  predicate Seeable(s: State, pid: nat, t: nat, viewDist: int)
    requires pid in s.table
  {
    t in s.table && s.table[t].connected && IsNear(s.table[pid].pos, s.table[t].pos, viewDist)
  }

  /** What the scan finds, wherever players are stored: connected players near enough that are in some sector around. */
  ghost function Scanned(s: State, pid: nat, reach: int, viewDist: int): set<nat>
    requires Populated(s) && pid in s.table
  {
    set t | t in s.table && Seeable(s, pid, t, viewDist) &&
            exists i :: Adjacent(SectorIdx(s.table[pid].pos), i, reach) && t in At(s.sectors, i)
  }

  function Spotted(s: State, pid: nat, i: Idx, viewDist: int): set<nat>
    requires WellFormed(s) && pid in s.table && OnGrid(i)
  {
    set t | t in At(s.sectors, i) && Seeable(s, pid, t, viewDist)
  }

  function SpottedIn(s: State, pid: nat, view: seq<Idx>, viewDist: int): set<nat>
    requires WellFormed(s) && pid in s.table && forall i <- view :: OnGrid(i)
  {
    if view == [] then {}
    else SpottedIn(s, pid, view[..|view| - 1], viewDist) + Spotted(s, pid, view[|view| - 1], viewDist)
  }

  lemma {:induction false} InSomeSector(s: State, pid: nat, view: seq<Idx>, viewDist: int, t: nat)
    requires WellFormed(s) && pid in s.table && forall i <- view :: OnGrid(i)
    ensures t in SpottedIn(s, pid, view, viewDist) <==> exists i <- view :: t in Spotted(s, pid, i, viewDist)
  {
    if view != [] {
      var rest, last := view[..|view| - 1], view[|view| - 1];
      assert view == rest + [last];
      InSomeSector(s, pid, rest, viewDist, t);
    }
  }

  lemma OneSectorMore(s: State, pid: nat, view: seq<Idx>, k: nat, viewDist: int)
    requires WellFormed(s) && pid in s.table && k < |view| && forall i <- view :: OnGrid(i)
    ensures (forall i <- view[..k + 1] :: OnGrid(i)) && (forall i <- view[..k] :: OnGrid(i)) && OnGrid(view[k])
    ensures SpottedIn(s, pid, view[..k + 1], viewDist) ==
            SpottedIn(s, pid, view[..k], viewDist) + Spotted(s, pid, view[k], viewDist)
  {
    assert view[..k + 1][..k] == view[..k];
  }

  lemma SpottedIsScanned(s: State, pid: nat, view: seq<Idx>, reach: int, viewDist: int)
    requires Populated(s) && pid in s.table && forall i <- view :: OnGrid(i)
    requires forall i :: i in view <==> Adjacent(SectorIdx(s.table[pid].pos), i, reach)
    ensures SpottedIn(s, pid, view, viewDist) == Scanned(s, pid, reach, viewDist)
  {
    forall t ensures t in SpottedIn(s, pid, view, viewDist) <==> t in Scanned(s, pid, reach, viewDist) {
      InSomeSector(s, pid, view, viewDist, t);
      if t in Scanned(s, pid, reach, viewDist) {
        var i :| Adjacent(SectorIdx(s.table[pid].pos), i, reach) && t in At(s.sectors, i);
        assert i in view && t in Spotted(s, pid, i, viewDist);
      }
    }
  }

  /** As long as sectors and members agree, that is what the stored indices say. */
  lemma ScannedIsSeen(s: State, pid: nat, reach: int, viewDist: int)
    requires Partition(s) && pid in s.table
    ensures Populated(s) && Scanned(s, pid, reach, viewDist) == Seen(s, pid, reach, viewDist)
  {
    assert forall i, t :: OnGrid(i) ==> (t in At(s.sectors, i) <==> t in s.members && s.table[t].sector == i);
  }

  /** A player that is marked as no longer connected drops out of everyone's view at once, wherever it is stored, and
      nobody else does. */
  lemma DisconnectedVanishes(s: State, pid: nat, t: nat, reach: int, viewDist: int)
    requires Populated(s) && pid in s.table && t in s.table
    ensures var s' := SetConnected(s, t, false);
            Populated(s') && Scanned(s', pid, reach, viewDist) == Scanned(s, pid, reach, viewDist) - {t}
    ensures s.members <= s.table.Keys ==>
              Near(SetConnected(s, t, false), pid, viewDist) == Near(s, pid, viewDist) - {t}
  {
  }

  lemma SyncKeepsPopulated(s: State, pid: nat)
    requires Populated(s) && pid in s.table
    ensures Populated(SyncStep(s, pid))
  {
  }

  /** Every connected player is stored in the sector of its position. */
  ghost predicate Synced(s: State) {
    s.members <= s.table.Keys &&
    forall t <- s.members :: s.table[t].connected ==> s.table[t].sector == SectorIdx(s.table[t].pos)
  }

  /** With the stored sectors up to date, looking around is looking everywhere: for moving and for chatting. */
  lemma SeenIsNear(s: State, pid: nat)
    requires pid in s.table && Synced(s)
    ensures Seen(s, pid, 2, VIEW_DISTANCE) == Near(s, pid, VIEW_DISTANCE)
    ensures Seen(s, pid, 1, VIEW_DISTANCE_NARROW) == Near(s, pid, VIEW_DISTANCE_NARROW)
  {
    forall t | t in Near(s, pid, VIEW_DISTANCE) ensures t in Seen(s, pid, 2, VIEW_DISTANCE) {
      NearIsAdjacent(s.table[pid].pos, s.table[t].pos, 2);
    }
    forall t | t in Near(s, pid, VIEW_DISTANCE_NARROW) ensures t in Seen(s, pid, 1, VIEW_DISTANCE_NARROW) {
      NearIsAdjacent(s.table[pid].pos, s.table[t].pos, 1);
    }
  }

  // ---- The class -----------------------------------------------------------------------------

  class Room {
    var loginCnt: int
    var members: set<nat>            // keys of m_players
    var sectors: Sectors             // m_sectors[y][x]->m_players
    var table: map<nat, Player>
    var zones: map<Idx, seq<nat>>    // the job queue of m_zones[y][x]
    var jobs: seq<nat>
    var sessionCnt: nat

    function View(): State
      reads this
    {
      State(loginCnt, members, sectors, zones, table, jobs, sessionCnt)
    }

    constructor ()
      ensures WellFormed(View()) && View() == State(0, {}, sectors, zones, map[], [], 0)
      ensures (forall i :: OnGrid(i) ==> At(sectors, i) == {}) && forall z <- zones :: zones[z] == []
    {
      loginCnt, members, table, jobs, sessionCnt := 0, {}, map[], [], 0;
      var zoneGrid: map<Idx, seq<nat>> := map[];
      for i := 0 to ZONES
        invariant forall y, x :: 0 <= y < i && 0 <= x < ZONES ==> Idx(y, x) in zoneGrid
        invariant forall z <- zoneGrid :: zoneGrid[z] == []
      {
        for j := 0 to ZONES
          invariant forall y, x :: 0 <= y < i && 0 <= x < ZONES ==> Idx(y, x) in zoneGrid
          invariant forall x :: 0 <= x < j ==> Idx(i, x) in zoneGrid
          invariant forall z <- zoneGrid :: zoneGrid[z] == []
        {
          zoneGrid := zoneGrid[Idx(i, j) := []];
        }
      }
      var grid: Sectors := [];
      for i := 0 to SECTORS
        invariant |grid| == i
        invariant forall y :: 0 <= y < i ==> |grid[y]| == SECTORS
        invariant forall y, x :: 0 <= y < i && 0 <= x < SECTORS ==> grid[y][x] == {}
      {
        var v: seq<set<nat>> := [];
        for j := 0 to SECTORS
          invariant |v| == j
          invariant forall x :: 0 <= x < j ==> v[x] == {}
        {
          v := v + [{}];
        }
        grid := grid + [v];
      }
      zones, sectors := zoneGrid, grid;
    }

    /** Room::MovePlayer. */
    method QueueMove(pid: nat)
      requires WellFormed(View()) && pid in table
      modifies this`zones
      ensures View() == PostMove(old(View()), pid)
    {
      var z := ZoneIdx(table[pid].pos);
      zones := zones[z := zones[z] + [pid]];
    }

    /** Posting a Logout job. */
    method DoAsync(pid: nat)
      modifies this
      ensures View() == PostStep(old(View()), pid)
    {
      jobs := jobs + [pid];
    }

    /** Running the next job. */
    method RunJob()
      requires WellFormed(View()) && jobs != [] && jobs[0] in table
      modifies this
      ensures View() == JobStep(old(View()))
    {
      var pid := jobs[0];
      jobs := jobs[1..];
      Logout(pid);
    }

    method Login(pid: nat)
      requires WellFormed(View()) && pid in table
      modifies this
      ensures View() == LoginStep(old(View()), pid)
    {
      var i := SectorIdx(table[pid].pos);
      loginCnt := loginCnt + 1;
      sectors := With(sectors, i, At(sectors, i) + {pid});
      members := members + {pid};
      table := table[pid := table[pid].(connected := true)];
      table := table[pid := table[pid].(sector := i)];
    }

    method Logout(pid: nat)
      requires WellFormed(View()) && pid in table
      modifies this
      ensures View() == LogoutStep(old(View()), pid)
    {
      var i := table[pid].sector;
      sectors := With(sectors, i, At(sectors, i) - {pid});
      members := members - {pid};
      table := table[pid := table[pid].(connected := false)];
      loginCnt := loginCnt - 1;
    }

    /** Zone::MovePlayer up to the new view list, which is empty for a player no longer connected. */
    method MovePlayer(pid: nat) returns (viewList: set<nat>)
      requires Populated(View()) && pid in table
      modifies this
      ensures View() == SyncStep(old(View()), pid) && Populated(View())
      ensures viewList == if table[pid].connected then Scanned(View(), pid, 2, VIEW_DISTANCE) - {pid} else {}
    {
      if !table[pid].connected { return {}; }
      SyncKeepsPopulated(View(), pid);
      var i := SectorIdx(table[pid].pos);
      if i != table[pid].sector {
        var from := table[pid].sector;
        sectors := With(sectors, from, At(sectors, from) - {pid});
        sectors := With(sectors, i, At(sectors, i) + {pid});
        table := table[pid := table[pid].(sector := i)];
      }
      viewList := Scan(pid, 2, VIEW_DISTANCE);
      viewList := viewList - {pid};
    }

    /** Zone::Chat up to the sending. */
    method Chat(pid: nat) returns (hearers: set<nat>)
      requires Populated(View()) && pid in table
      ensures hearers == if table[pid].connected then Scanned(View(), pid, 1, VIEW_DISTANCE_NARROW) else {}
    {
      if !table[pid].connected { return {}; }
      hearers := Scan(pid, 1, VIEW_DISTANCE_NARROW);
    }

    /** The loops over the adjacent sectors and the players in them. */
    method Scan(pid: nat, reach: int, viewDist: int) returns (found: set<nat>)
      requires Populated(View()) && pid in table && reach >= 0
      ensures found == Scanned(View(), pid, reach, viewDist)
    {
      var view := Neighbourhood(SectorIdx(table[pid].pos), reach);
      assert forall i <- view :: Adjacent(SectorIdx(table[pid].pos), i, reach);
      found := {};
      for k := 0 to |view|
        invariant forall i <- view[..k] :: OnGrid(i)
        invariant found == SpottedIn(View(), pid, view[..k], viewDist)
      {
        assert view[k] in view;
        var more := ScanSector(pid, view[k], viewDist);
        OneSectorMore(View(), pid, view, k, viewDist);
        found := found + more;
      }
      assert view[..|view|] == view;
      SpottedIsScanned(View(), pid, view, reach, viewDist);
    }

    /** The loop over one sector. */
    method ScanSector(pid: nat, i: Idx, viewDist: int) returns (found: set<nat>)
      requires Populated(View()) && pid in table && OnGrid(i)
      ensures found == Spotted(View(), pid, i, viewDist)
    {
      found := {};
      var todo := At(sectors, i);
      while todo != {}
        invariant todo <= At(sectors, i)
        invariant found == Spotted(View(), pid, i, viewDist) - todo
      {
        var target :| target in todo;
        todo := todo - {target};
        if !table[target].connected { continue; }
        if !IsNear(table[pid].pos, table[target].pos, viewDist) { continue; }
        found := found + {target};
      }
    }
  }
}

/** The server's session object: it creates its player on login and asks the room to log it out. */
module ServerSession {
  import opened Basics
  import opened Grid
  import opened GameRoom
  import opened Membership

  class RioServerSession {
    var connected: bool              // m_bConnected
    var ownPlayer: Option<nat>

    function View(): Session
      reads this
    {
      Session(connected, ownPlayer)
    }

    constructor ()
      ensures View() == Session(true, None)
    {
      connected, ownPlayer := true, None;
    }

    /** The guard and the two statements behind it. */
    method PostLogout(room: Room)
      requires WellFormed(room.View())
      modifies room
      ensures room.View() == GuardedPost(old(room.View()), ownPlayer)
    {
      if ownPlayer == None { return; }
      var pid := ownPlayer.value;
      if pid in room.table && room.table[pid].connected {
        room.table := room.table[pid := room.table[pid].(connected := false)];
        room.DoAsync(pid);
      }
    }

    method OnDisconnected(room: Room)
      requires WellFormed(room.View())
      modifies this`ownPlayer, room
      ensures room.View() == GuardedPost(old(room.View()), old(ownPlayer)) && ownPlayer == None
    {
      PostLogout(room);
      ownPlayer := None;
    }

    /** Only the first call has an effect. When SetLinger fails it is the last one all the same, but the player
        stays. */
    method Disconnect(room: Room, lingers: bool)
      requires WellFormed(room.View())
      modifies this, room
      ensures View() == Disconnected(old(View()), lingers) && !connected
      ensures room.View() == RoomDisconnected(old(room.View()), old(View()), lingers)
    {
      if !connected { return; }
      connected := false;
      if !lingers { return; }
      OnDisconnected(room);
    }

    /** The destructor. */
    method Destroy(room: Room)
      requires WellFormed(room.View())
      modifies room
      ensures room.View() == GuardedPost(old(room.View()), ownPlayer)
    {
      PostLogout(room);
    }

    /** Handle_LOGIN after the packet has been read; `pos` is the random initial position. */
    method HandleLogin(room: Room, pos: Position)
      requires WellFormed(room.View())
      modifies this, room
      ensures room.View() == LoggedIn(old(room.View()), pos)
      ensures View() == Owning(old(View()), old(room.sessionCnt) + 1)
    {
      room.sessionCnt := room.sessionCnt + 1;
      var pid := room.sessionCnt;
      room.table := room.table[pid := Player(pos, false, Idx(0, 0))];
      assert room.View() == Create(old(room.View()), pos);
      ownPlayer := Some(pid);
      room.Login(pid);
    }

    /** Handle_C2S_MOVE: only the position changes here; the zone is to look at it. */
    method HandleMove(room: Room, pos: Position)
      requires WellFormed(room.View()) && ownPlayer.Some? && ownPlayer.value in room.table
      modifies room
      ensures room.View() == Moved(old(room.View()), ownPlayer.value, pos)
    {
      var pid := ownPlayer.value;
      room.table := room.table[pid := room.table[pid].(pos := pos)];
      room.QueueMove(pid);
    }

    /** Handle_LOGOUT: the first job is posted without looking at the player's state. */
    method HandleLogout(room: Room, lingers: bool)
      requires WellFormed(room.View()) && ownPlayer.Some?
      modifies this, room
      ensures var posted := PostStep(old(room.View()), old(ownPlayer.value));
              WellFormed(posted) && room.View() == RoomDisconnected(posted, old(View()), lingers)
      ensures View() == Disconnected(old(View()), lingers)
    {
      room.DoAsync(ownPlayer.value);
      Disconnect(room, lingers);
    }
  }
}

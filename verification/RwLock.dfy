/** The recursive-writer spin lock: one 32-bit word (writer id in the high half, reader count in the
    low half) and a plain write counter. Every load, compare-exchange, add and store is one step. */
module RwLock {

  const HALF := 0x1_0000        // the masks split the word into two 16-bit halves
  const WORD := 0x1_0000_0000
  const EMPTY_FLAG := 0

  datatype Pc =
    | Idle
    | ReadRetry               // ReadLock: exchange failed, before the next load
    | ReadCas(expected: nat)  // ReadLock: before the compare-exchange
    | WriteReenter            // WriteLock: own id seen, before `m_writeCnt++`
    | WriteCas                // WriteLock: before the compare-exchange
    | WriteEnter              // WriteLock: word taken, before `m_writeCnt++`
    | UnlockDec               // WriteUnlock: own id seen, before `--m_writeCnt`
    | UnlockStore             // WriteUnlock: count reached zero, before the store

  /** `shares` and `depth` count the read and write locks the thread holds. */
  datatype Thread = Thread(id: int, pc: Pc, shares: int, depth: int)

  datatype State = State(flag: nat, writeCnt: int, threads: seq<Thread>)

  datatype Action =
    | ReadLock(t: nat)                    // the load of ReadLock
    | ReadUnlock(t: nat)                  // fetch_sub(1)
    | WriteLock(t: nat)                   // the load and comparison of WriteLock
    | WriteUnlock(t: nat)                 // the load and comparison of WriteUnlock
    | Advance(t: nat, spurious: bool)     // the thread's next step; a weak exchange may fail spuriously

  function WriterHalf(flag: nat): nat { flag / HALF }

  function ReaderHalf(flag: nat): nat { flag % HALF }

  /** `LThreadId == lockThreadId`: the signed id is converted to unsigned. */
  predicate SeesOwnId(s: State, th: Thread) {
    th.id % WORD == WriterHalf(s.flag)
  }

  /** `(LThreadId << 16) & WRITE_LOCK_MASK` */
  function WriterFlag(id: int): nat { id % HALF * HALF }

  function SetThread(s: State, t: nat, th: Thread): State
    requires t < |s.threads|
  {
    s.(threads := s.threads[t := th])
  }

  /** Callers release only read locks they hold, as the lock guards do; WriteUnlock needs no such rule. */
  predicate Enabled(s: State, a: Action) {
    a.t < |s.threads| &&
    match a
    case Advance(t, _) => !s.threads[t].pc.Idle?
    case ReadUnlock(t) => s.threads[t].pc.Idle? && s.threads[t].shares > 0
    case _ => s.threads[a.t].pc.Idle?
  }

  function AdvanceStep(s: State, t: nat, spurious: bool): State
    requires Enabled(s, Advance(t, spurious))
  {
    var th := s.threads[t];
    match th.pc
    case ReadRetry => SetThread(s, t, th.(pc := ReadCas(ReaderHalf(s.flag))))
    case ReadCas(expected) =>
      if s.flag == expected && !spurious then
        SetThread(s.(flag := (expected + 1) % WORD), t, th.(pc := Idle, shares := th.shares + 1))
      else
        SetThread(s, t, th.(pc := ReadRetry))
    case WriteReenter =>
      SetThread(s.(writeCnt := s.writeCnt + 1), t, th.(pc := Idle, depth := th.depth + 1))
    case WriteCas =>
      if s.flag == EMPTY_FLAG && !spurious then
        SetThread(s.(flag := WriterFlag(th.id)), t, th.(pc := WriteEnter))
      else s
    case WriteEnter =>
      SetThread(s.(writeCnt := s.writeCnt + 1), t, th.(pc := Idle, depth := th.depth + 1))
    case UnlockDec =>
      SetThread(s.(writeCnt := s.writeCnt - 1), t,
                th.(pc := if s.writeCnt == 1 then UnlockStore else Idle, depth := th.depth - 1))
    case UnlockStore =>
      SetThread(s.(flag := EMPTY_FLAG), t, th.(pc := Idle))
    case Idle => s
  }

  function Next(s: State, a: Action): State
    requires Enabled(s, a)
  {
    var th := s.threads[a.t];
    match a
    case ReadLock(t) => SetThread(s, t, th.(pc := ReadCas(ReaderHalf(s.flag))))
    case ReadUnlock(t) =>
      SetThread(s.(flag := if s.flag == 0 then WORD - 1 else s.flag - 1), t, th.(shares := th.shares - 1))
    case WriteLock(t) => SetThread(s, t, th.(pc := if SeesOwnId(s, th) then WriteReenter else WriteCas))
    case WriteUnlock(t) => if SeesOwnId(s, th) then SetThread(s, t, th.(pc := UnlockDec)) else s
    case Advance(t, spurious) => AdvanceStep(s, t, spurious)
  }

  predicate Initial(s: State) {
    && s.flag == EMPTY_FLAG && s.writeCnt == 0
    && forall th <- s.threads :: th.pc.Idle? && th.shares == 0 && th.depth == 0
  }
}

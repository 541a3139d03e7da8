/** The lock as it is written: one word and one plain counter updated in place,
    one atomic operation per call, by whichever thread the schedule names. */
module SpinLock {
  import opened RwLock
  import RwLockSafety

  class Lock {
    var lockFlag: nat
    var writeCnt: int
    var threads: seq<Thread>

    ghost function View(): State
      reads this
    {
      State(lockFlag, writeCnt, threads)
    }

    constructor (ids: seq<int>)
      ensures Initial(View()) && (RwLockSafety.SafeIds(threads) ==> RwLockSafety.Inv(View()))
      ensures |threads| == |ids| && forall t :: 0 <= t < |ids| ==> threads[t].id == ids[t]
    {
      lockFlag, writeCnt := EMPTY_FLAG, 0;
      threads := seq(|ids|, t requires 0 <= t < |ids| => Thread(ids[t], Idle, 0, 0));
      new;
      if RwLockSafety.SafeIds(threads) { RwLockSafety.InitialInv(View()); }
    }

    method SetThread(t: nat, th: Thread)
      requires t < |threads|
      modifies this`threads
      ensures threads == old(threads)[t := th]
    {
      threads := threads[t := th];
    }

    /** `compare_exchange_weak`. */
    method CompareExchange(expected: nat, desired: nat, spurious: bool) returns (ok: bool)
      modifies this`lockFlag
      ensures ok == (old(lockFlag) == expected && !spurious)
      ensures lockFlag == if ok then desired else old(lockFlag)
    {
      ok := lockFlag == expected && !spurious;
      if ok { lockFlag := desired; }
    }

    /** The load of ReadLock. */
    method ReadLock(t: nat)
      requires Enabled(View(), Action.ReadLock(t))
      modifies this
      ensures View() == Next(old(View()), Action.ReadLock(t))
    {
      SetThread(t, threads[t].(pc := ReadCas(ReaderHalf(lockFlag))));
    }

    method ReadUnlock(t: nat)
      requires Enabled(View(), Action.ReadUnlock(t))
      modifies this
      ensures View() == Next(old(View()), Action.ReadUnlock(t))
    {
      lockFlag := if lockFlag == 0 then WORD - 1 else lockFlag - 1;
      SetThread(t, threads[t].(shares := threads[t].shares - 1));
    }

    /** The load and the reentrancy test of WriteLock. */
    method WriteLock(t: nat)
      requires Enabled(View(), Action.WriteLock(t))
      modifies this
      ensures View() == Next(old(View()), Action.WriteLock(t))
    {
      var lockThreadId := WriterHalf(lockFlag);
      if threads[t].id % WORD == lockThreadId {
        SetThread(t, threads[t].(pc := WriteReenter));
      } else {
        SetThread(t, threads[t].(pc := WriteCas));
      }
    }

    /** The load and the id test of WriteUnlock. */
    method WriteUnlock(t: nat)
      requires Enabled(View(), Action.WriteUnlock(t))
      modifies this
      ensures View() == Next(old(View()), Action.WriteUnlock(t))
    {
      var lockThreadId := WriterHalf(lockFlag);
      if threads[t].id % WORD == lockThreadId {
        SetThread(t, threads[t].(pc := UnlockDec));
      }
    }

    /** The next atomic step of the operation the thread is in. */
    method Advance(t: nat, spurious: bool)
      requires Enabled(View(), Action.Advance(t, spurious))
      modifies this
      ensures View() == AdvanceStep(old(View()), t, spurious)
    {
      var th := threads[t];
      match th.pc {
        case ReadRetry => SetThread(t, th.(pc := ReadCas(ReaderHalf(lockFlag))));
        case ReadCas(expected) =>
          var ok := CompareExchange(expected, (expected + 1) % WORD, spurious);
          SetThread(t, if ok then th.(pc := Idle, shares := th.shares + 1) else th.(pc := ReadRetry));
        case WriteCas =>
          var ok := CompareExchange(EMPTY_FLAG, WriterFlag(th.id), spurious);
          if ok { SetThread(t, th.(pc := WriteEnter)); }
        case UnlockDec =>
          writeCnt := writeCnt - 1;
          SetThread(t, th.(pc := if writeCnt == 0 then UnlockStore else Idle, depth := th.depth - 1));
        case UnlockStore =>
          lockFlag := EMPTY_FLAG;
          SetThread(t, th.(pc := Idle));
        case WriteReenter =>
          writeCnt := writeCnt + 1;
          SetThread(t, th.(pc := Idle, depth := th.depth + 1));
        case WriteEnter =>
          writeCnt := writeCnt + 1;
          SetThread(t, th.(pc := Idle, depth := th.depth + 1));
        case Idle => assert false;
      }
    }

    /** Runs any schedule that never has more than 65535 readers: exclusion holds at every return. */
    method RunSchedule(acts: seq<Action>)
      requires RwLockSafety.Inv(View()) && RwLockSafety.Bounded(View(), acts)
      modifies this
      ensures View() == RwLockSafety.Run(old(View()), acts)
      ensures RwLockSafety.Inv(View()) && RwLockSafety.Exclusive(View())
    {
      var i := 0;
      while i < |acts|
        invariant 0 <= i <= |acts|
        invariant RwLockSafety.Inv(View()) && RwLockSafety.Bounded(View(), acts[i..])
        invariant RwLockSafety.Run(View(), acts[i..]) == RwLockSafety.Run(old(View()), acts)
      {
        var a := acts[i];
        ghost var before := View();
        if Enabled(State(lockFlag, writeCnt, threads), a) {
          match a {
            case ReadLock(t) => ReadLock(t);
            case ReadUnlock(t) => ReadUnlock(t);
            case WriteLock(t) => WriteLock(t);
            case WriteUnlock(t) => WriteUnlock(t);
            case Advance(t, spurious) => Advance(t, spurious);
          }
          RwLockSafety.StepKeepsInv(before, a);
        }
        i := i + 1;
      }
      RwLockSafety.InvIsExclusive(View());
    }
  }
}

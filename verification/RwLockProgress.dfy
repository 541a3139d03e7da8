/** What a thread in the middle of a lock operation reaches by its own steps while the others stand still. */
module RwLockProgress {
  import opened RwLock
  import opened RwLockSafety

  /** Steps of thread `t` inside its operation only. */
  predicate Solo(acts: seq<Action>, t: nat) {
    forall a <- acts :: a.Advance? && a.t == t
  }

  /** Its exchanges all fail spuriously. */
  predicate Unlucky(acts: seq<Action>, t: nat) {
    Solo(acts, t) && forall a <- acts :: a.spurious
  }

  /** `n` steps without a spurious failure. */
  function Steps(t: nat, n: nat): seq<Action> {
    if n == 0 then [] else [Advance(t, false)] + Steps(t, n - 1)
  }

  function After(s: State, a: Action): State {
    if Enabled(s, a) then Next(s, a) else s
  }

  lemma RunFirst(s: State, a: Action, rest: seq<Action>)
    ensures Run(s, [a] + rest) == Run(After(s, a), rest)
  {
    assert ([a] + rest)[1..] == rest;
  }

  lemma {:induction false} RunAppend(s: State, acts: seq<Action>, rest: seq<Action>)
    ensures Run(s, acts + rest) == Run(Run(s, acts), rest)
    decreases |acts|
  {
    if acts == [] {
      assert acts + rest == rest;
    } else {
      assert (acts + rest)[1..] == acts[1..] + rest && (acts + rest)[0] == acts[0];
      RunAppend(After(s, acts[0]), acts[1..], rest);
    }
  }

  lemma {:induction false} IdleStays(s: State, t: nat, n: nat)
    requires t < |s.threads| && s.threads[t].pc.Idle?
    ensures Run(s, Steps(t, n)) == s
  {
    if n > 0 {
      RunFirst(s, Advance(t, false), Steps(t, n - 1));
      IdleStays(s, t, n - 1);
    }
  }

  // ---- Reading ---------------------------------------------------------------------------------------------

  predicate Reading(th: Thread) {
    th.pc.ReadCas? || th.pc.ReadRetry?
  }

  /** Thread `t` with another share, out of its operation. */
  function ReadDone(s: State, t: nat): State
    requires t < |s.threads|
  {
    State(s.flag + 1, s.writeCnt, s.threads[t := s.threads[t].(pc := Idle, shares := s.threads[t].shares + 1)])
  }

  /** A step of ReadLock that does not enter leaves everything but the program counter. */
  ghost predicate StillReading(s: State, s': State, t: nat) {
    && t < |s.threads| && s'.flag == s.flag && s'.writeCnt == s.writeCnt
    && exists pc: Pc :: (pc.ReadCas? || pc.ReadRetry?) && s'.threads == s.threads[t := s.threads[t].(pc := pc)]
  }

  lemma UnluckyStep(s: State, a: Action, t: nat)
    requires t < |s.threads| && Reading(s.threads[t]) && a == Advance(t, true)
    ensures StillReading(s, After(s, a), t)
  {
    assert After(s, a).threads == s.threads[t := s.threads[t].(pc := After(s, a).threads[t].pc)];
  }

  lemma StillReadingTrans(s: State, s1: State, s2: State, t: nat)
    requires StillReading(s, s1, t) && StillReading(s1, s2, t)
    ensures StillReading(s, s2, t)
  {
    var pc: Pc :| (pc.ReadCas? || pc.ReadRetry?) && s2.threads == s1.threads[t := s1.threads[t].(pc := pc)];
    assert s2.threads == s.threads[t := s.threads[t].(pc := pc)];
  }

  lemma {:induction false} UnluckyRun(s: State, acts: seq<Action>, t: nat)
    requires t < |s.threads| && Reading(s.threads[t]) && Unlucky(acts, t)
    ensures StillReading(s, Run(s, acts), t) && Reading(Run(s, acts).threads[t])
    decreases |acts|
  {
    if acts == [] {
      assert s.threads == s.threads[t := s.threads[t].(pc := s.threads[t].pc)];
    } else {
      UnluckyStep(s, acts[0], t);
      UnluckyRun(After(s, acts[0]), acts[1..], t);
      StillReadingTrans(s, After(s, acts[0]), Run(s, acts), t);
    }
  }

  lemma CasEnters(s: State, t: nat)
    requires t < |s.threads| && s.flag < HALF && s.threads[t].pc == ReadCas(s.flag)
    ensures After(s, Advance(t, false)) == ReadDone(s, t)
  {
  }

  lemma RetryLoads(s: State, t: nat)
    requires t < |s.threads| && s.flag < HALF && s.threads[t].pc.ReadRetry?
    ensures After(s, Advance(t, false)) == s.(threads := s.threads[t := s.threads[t].(pc := ReadCas(s.flag))])
  {
  }

  lemma LoadedEnters(s: State, s1: State, t: nat)
    requires t < |s.threads| && s.flag < HALF
    requires s1 == s.(threads := s.threads[t := s.threads[t].(pc := ReadCas(s.flag))])
    ensures After(s1, Advance(t, false)) == ReadDone(s, t)
  {
    CasEnters(s1, t);
    assert ReadDone(s1, t).threads == ReadDone(s, t).threads;
  }

  /** With no writer in the word, three steps suffice, from wherever ReadLock stands. */
  lemma ThreeStepsRead(s: State, t: nat)
    requires t < |s.threads| && s.flag < HALF && Reading(s.threads[t])
    ensures Run(s, Steps(t, 3)) == ReadDone(s, t)
  {
    var a := Advance(t, false);
    var s1 := After(s, a);
    RunFirst(s, a, Steps(t, 2));
    RunFirst(s1, a, Steps(t, 1));
    RunFirst(After(s1, a), a, Steps(t, 0));
    if s.threads[t].pc == ReadCas(s.flag) {
      CasEnters(s, t);
      IdleStays(s1, t, 2);
    } else if s.threads[t].pc.ReadRetry? {
      RetryLoads(s, t);
      LoadedEnters(s, s1, t);
      IdleStays(After(s1, a), t, 1);
    } else {
      assert s1 == s.(threads := s.threads[t := s.threads[t].(pc := ReadRetry)]);
      RetryLoads(s1, t);
      assert After(s1, a) == s.(threads := s.threads[t := s.threads[t].(pc := ReadCas(s.flag))]);
      LoadedEnters(s, After(s1, a), t);
      IdleStays(After(After(s1, a), a), t, 0);
    }
  }

  /** While no writer is in the word, ReadLock enters beside any number of readers: after whatever spurious failures,
      three more steps give the thread its share. */
  lemma ReadersEnter(s: State, acts: seq<Action>, t: nat)
    requires t < |s.threads| && Reading(s.threads[t]) && WriterHalf(s.flag) == 0 && Unlucky(acts, t)
    ensures Run(s, acts + Steps(t, 3)) == ReadDone(s, t)
  {
    var s1 := Run(s, acts);
    UnluckyRun(s, acts, t);
    RunAppend(s, acts, Steps(t, 3));
    ThreeStepsRead(s1, t);
    assert ReadDone(s1, t).threads == ReadDone(s, t).threads;
  }

  lemma BlockedStep(s: State, a: Action, t: nat)
    requires t < |s.threads| && Reading(s.threads[t]) && WriterHalf(s.flag) != 0 && a.Advance? && a.t == t
    requires s.threads[t].pc.ReadCas? ==> s.threads[t].pc.expected < HALF
    ensures var s' := After(s, a);
            && s'.flag == s.flag && |s'.threads| == |s.threads| && Reading(s'.threads[t])
            && (s'.threads[t].pc.ReadCas? ==> s'.threads[t].pc.expected < HALF)
  {
  }

  lemma {:induction false} BlockedRun(s: State, acts: seq<Action>, t: nat)
    requires t < |s.threads| && Reading(s.threads[t]) && WriterHalf(s.flag) != 0 && Solo(acts, t)
    requires s.threads[t].pc.ReadCas? ==> s.threads[t].pc.expected < HALF
    ensures t < |Run(s, acts).threads| && Reading(Run(s, acts).threads[t])
    decreases |acts|
  {
    if acts != [] {
      BlockedStep(s, acts[0], t);
      BlockedRun(After(s, acts[0]), acts[1..], t);
    }
  }

  /** By its own steps a reader gets in exactly if no writer is in the word. */
  lemma ReaderEntersExactly(s: State, t: nat)
    requires Inv(s) && t < |s.threads| && Reading(s.threads[t])
    ensures (exists acts :: Solo(acts, t) && Run(s, acts) == ReadDone(s, t)) <==> WriterHalf(s.flag) == 0
  {
    assert ThreadInv(s, s.threads[t]);
    if WriterHalf(s.flag) == 0 {
      ThreeStepsRead(s, t);
      StepsAreSolo(t, 3);
    } else {
      forall acts | Solo(acts, t) ensures Run(s, acts) != ReadDone(s, t) { BlockedRun(s, acts, t); }
    }
  }

  lemma {:induction false} StepsAreSolo(t: nat, n: nat)
    ensures Solo(Steps(t, n), t)
  {
    if n > 0 { StepsAreSolo(t, n - 1); }
  }

  // ---- Writing -----------------------------------------------------------------------------------------------

  /** Thread `t` out of its operation, with the word, the counter and its depth as given. */
  function Settled(s: State, t: nat, flag: nat, writeCnt: int, depth: int): State
    requires t < |s.threads|
  {
    State(flag, writeCnt, s.threads[t := s.threads[t].(pc := Idle, depth := depth)])
  }

  lemma TwoSteps(s: State, t: nat)
    requires t < |s.threads|
    ensures Run(s, Steps(t, 2)) == After(After(s, Advance(t, false)), Advance(t, false))
  {
    var a := Advance(t, false);
    RunFirst(s, a, Steps(t, 1));
    RunFirst(After(s, a), a, Steps(t, 0));
    assert Steps(t, 0) == [];
  }

  /** On a free word a writer is in after two steps: the exchange and the counter. */
  lemma WriterEnters(s: State, t: nat)
    requires t < |s.threads| && s.threads[t].pc.WriteCas? && s.flag == EMPTY_FLAG
    ensures Run(s, Steps(t, 2)) ==
            Settled(s, t, WriterFlag(s.threads[t].id), s.writeCnt + 1, s.threads[t].depth + 1)
  {
    var th, s1 := s.threads[t], After(s, Advance(t, false));
    TwoSteps(s, t);
    assert s1.threads == s.threads[t := th.(pc := WriteEnter)];
    assert s1.threads[t := th.(pc := Idle, depth := th.depth + 1)] ==
           s.threads[t := th.(pc := Idle, depth := th.depth + 1)];
  }

  lemma WriterWaitsStep(s: State, a: Action, t: nat)
    requires t < |s.threads| && s.threads[t].pc.WriteCas? && s.flag != EMPTY_FLAG && a.Advance? && a.t == t
    ensures After(s, a) == s
  {
  }

  lemma {:induction false} WriterWaits(s: State, acts: seq<Action>, t: nat)
    requires t < |s.threads| && s.threads[t].pc.WriteCas? && s.flag != EMPTY_FLAG && Solo(acts, t)
    ensures Run(s, acts) == s
    decreases |acts|
  {
    if acts != [] {
      WriterWaitsStep(s, acts[0], t);
      WriterWaits(s, acts[1..], t);
    }
  }

  /** By its own steps a writer gets in exactly if the word is free. */
  lemma WriterEntersExactly(s: State, t: nat)
    requires t < |s.threads| && s.threads[t].pc.WriteCas?
    ensures (exists acts :: Solo(acts, t) && t < |Run(s, acts).threads| && Run(s, acts).threads[t].pc.Idle?) <==>
            s.flag == EMPTY_FLAG
  {
    if s.flag == EMPTY_FLAG {
      WriterEnters(s, t);
      StepsAreSolo(t, 2);
    } else {
      forall acts | Solo(acts, t) ensures Run(s, acts) == s { WriterWaits(s, acts, t); }
    }
  }

  lemma ReentersAtOnce(s: State, t: nat)
    requires t < |s.threads| && s.threads[t].pc.WriteReenter?
    ensures Run(s, Steps(t, 2)) == Settled(s, t, s.flag, s.writeCnt + 1, s.threads[t].depth + 1)
  {
    RunFirst(s, Advance(t, false), Steps(t, 1));
    IdleStays(After(s, Advance(t, false)), t, 1);
  }

  lemma UnlocksAtOnce(s: State, t: nat)
    requires t < |s.threads| && s.threads[t].pc.UnlockDec?
    ensures Run(s, Steps(t, 2)) ==
            Settled(s, t, if s.writeCnt == 1 then EMPTY_FLAG else s.flag, s.writeCnt - 1, s.threads[t].depth - 1)
  {
    var th, s1 := s.threads[t], After(s, Advance(t, false));
    RunFirst(s, Advance(t, false), Steps(t, 1));
    if s.writeCnt == 1 {
      TwoSteps(s, t);
      assert s1.threads == s.threads[t := th.(pc := UnlockStore, depth := th.depth - 1)];
      assert s1.threads[t := th.(pc := Idle, depth := th.depth - 1)] ==
             s.threads[t := th.(pc := Idle, depth := th.depth - 1)];
    } else {
      IdleStays(s1, t, 1);
    }
  }

  /** A reentrant lock and an unlock never wait: the counter and the depth move by one, and the outermost unlock frees
      the word. */
  lemma OwnerNeverWaits(s: State, t: nat)
    requires Inv(s) && t < |s.threads| && (s.threads[t].pc.WriteReenter? || s.threads[t].pc.UnlockDec?)
    ensures var depth := s.threads[t].depth + (if s.threads[t].pc.WriteReenter? then 1 else -1);
            Run(s, Steps(t, 2)) == Settled(s, t, if depth == 0 then EMPTY_FLAG else s.flag, depth, depth)
  {
    OwnerDepth(s, t);
    OwnerFinishes(s, t);
  }

  lemma OwnerDepth(s: State, t: nat)
    requires Inv(s) && t < |s.threads| && (s.threads[t].pc.WriteReenter? || s.threads[t].pc.UnlockDec?)
    ensures s.writeCnt == s.threads[t].depth > 0
  {
    assert ThreadInv(s, s.threads[t]);
  }

  lemma OwnerFinishes(s: State, t: nat)
    requires t < |s.threads| && (s.threads[t].pc.WriteReenter? || s.threads[t].pc.UnlockDec?)
    requires s.writeCnt == s.threads[t].depth > 0
    ensures var depth := s.threads[t].depth + (if s.threads[t].pc.WriteReenter? then 1 else -1);
            Run(s, Steps(t, 2)) == Settled(s, t, if depth == 0 then EMPTY_FLAG else s.flag, depth, depth)
  {
    if s.threads[t].pc.WriteReenter? { ReentersAtOnce(s, t); } else { UnlocksAtOnce(s, t); }
  }

  // ---- Whole operations --------------------------------------------------------------------------------------

  /** ReadLock and WriteLock, from the call on, on a word that lets them in. */
  lemma LocksComplete(s: State, t: nat)
    requires Inv(s) && t < |s.threads| && s.threads[t].pc.Idle?
    ensures WriterHalf(s.flag) == 0 ==> Run(s, [ReadLock(t)] + Steps(t, 3)) == ReadDone(s, t)
    ensures s.flag == EMPTY_FLAG ==>
              Run(s, [WriteLock(t)] + Steps(t, 2)) ==
              Settled(s, t, WriterFlag(s.threads[t].id), s.writeCnt + 1, s.threads[t].depth + 1)
  {
    assert ThreadInv(s, s.threads[t]);
    RunFirst(s, ReadLock(t), Steps(t, 3));
    RunFirst(s, WriteLock(t), Steps(t, 2));
    if WriterHalf(s.flag) == 0 {
      var s1 := After(s, ReadLock(t));
      ThreeStepsRead(s1, t);
      assert ReadDone(s1, t).threads == ReadDone(s, t).threads;
    }
    if s.flag == EMPTY_FLAG {
      var s1 := After(s, WriteLock(t));
      OwnIdMeansOwner(s, t);
      WriterEnters(s1, t);
      assert s1.threads[t := s.threads[t].(depth := s.threads[t].depth + 1)] ==
             s.threads[t := s.threads[t].(depth := s.threads[t].depth + 1)];
    }
  }

  /** And on a word that does not, they wait: no steps of their own get them in. */
  lemma LocksWait(s: State, t: nat, acts: seq<Action>)
    requires Inv(s) && t < |s.threads| && s.threads[t].pc.Idle? && Solo(acts, t)
    ensures var asReader, asWriter := Run(s, [ReadLock(t)] + acts), Run(s, [WriteLock(t)] + acts);
            && (WriterHalf(s.flag) != 0 ==> t < |asReader.threads| && Reading(asReader.threads[t]))
            && (s.flag != EMPTY_FLAG && !SeesOwnId(s, s.threads[t]) ==>
                  t < |asWriter.threads| && asWriter.threads[t].pc.WriteCas?)
  {
    RunFirst(s, ReadLock(t), acts);
    RunFirst(s, WriteLock(t), acts);
    if WriterHalf(s.flag) != 0 { BlockedRun(After(s, ReadLock(t)), acts, t); }
    if s.flag != EMPTY_FLAG && !SeesOwnId(s, s.threads[t]) { WriterWaits(After(s, WriteLock(t)), acts, t); }
  }

  // ---- Luck and wrap-around ----------------------------------------------------------------------------------

  lemma {:induction false} UnluckyWriter(s: State, acts: seq<Action>, t: nat)
    requires t < |s.threads| && s.threads[t].pc.WriteCas? && Unlucky(acts, t)
    ensures Run(s, acts) == s
    decreases |acts|
  {
    if acts != [] {
      assert After(s, acts[0]) == s;
      UnluckyWriter(s, acts[1..], t);
    }
  }

  /** On a free word a writer gets in after whatever spurious failures. */
  lemma WritersEnter(s: State, acts: seq<Action>, t: nat)
    requires t < |s.threads| && s.threads[t].pc.WriteCas? && s.flag == EMPTY_FLAG && Unlucky(acts, t)
    ensures Run(s, acts) == s
    ensures Run(s, acts + Steps(t, 2)) ==
            Settled(s, t, WriterFlag(s.threads[t].id), s.writeCnt + 1, s.threads[t].depth + 1)
  {
    UnluckyWriter(s, acts, t);
    RunAppend(s, acts, Steps(t, 2));
    WriterEnters(s, t);
  }

  /** ReadUnlock takes one off the 32-bit word, whatever is in it. */
  lemma ReadUnlockIsModular(s: State, t: nat)
    requires Enabled(s, ReadUnlock(t)) && s.flag < WORD
    ensures var s' := Next(s, ReadUnlock(t));
            s'.flag < WORD && (s'.flag + 1) % WORD == s.flag && s'.threads[t].shares == s.threads[t].shares - 1
  {
  }
}

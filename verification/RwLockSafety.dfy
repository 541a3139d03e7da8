/** Exclusion over all runs of the lock, its refinement of an abstract lock, and the exact
    conditions on thread ids and reader counts under which it holds. */
module RwLockSafety {
  import opened RwLock

  // ---- The invariant -------------------------------------------------------------------------

  /** What the lock asks of its threads: no id writes an empty half into the word, and none is taken for the half
      that another one writes. */
  predicate SafeIds(ths: seq<Thread>) {
    && (forall i :: 0 <= i < |ths| ==> ths[i].id % HALF != 0)
    && (forall i, j :: 0 <= i < |ths| && 0 <= j < |ths| && i != j ==> ths[j].id % WORD != ths[i].id % HALF)
  }

  /** Ids that fit the upper half of the word, as the thread manager hands them out. */
  predicate GoodIds(ths: seq<Thread>) {
    && (forall i :: 0 <= i < |ths| ==> 0 < ths[i].id < HALF)
    && (forall i, j :: 0 <= i < j < |ths| ==> ths[i].id != ths[j].id)
  }

  lemma GoodIdsAreSafe(ths: seq<Thread>)
    requires GoodIds(ths)
    ensures SafeIds(ths)
  {
  }

  lemma LowHalf(id: int)
    ensures id % WORD % HALF == id % HALF
  {
    assert id == HALF * (HALF * (id / WORD)) + id % WORD;
  }

  function Shares(ths: seq<Thread>): int {
    if ths == [] then 0 else ths[0].shares + Shares(ths[1..])
  }

  /** The thread whose id stands in the word: from its successful exchange to its store. */
  predicate Owns(th: Thread) {
    th.depth > 0 || th.pc.WriteEnter? || th.pc.UnlockStore?
  }

  predicate ThreadInv(s: State, th: Thread) {
    && th.shares >= 0 && th.depth >= 0
    && (Owns(th) ==> WriterHalf(s.flag) == th.id % HALF && s.writeCnt == th.depth)
    && (SeesOwnId(s, th) ==> Owns(th))
    && (th.pc.WriteEnter? || th.pc.UnlockStore? ==> th.depth == 0)
    && (th.pc.WriteReenter? || th.pc.UnlockDec? ==> th.depth > 0)
    && (th.pc.ReadCas? ==> th.pc.expected < HALF)
  }

  predicate OneOwner(ths: seq<Thread>) {
    forall i, j :: 0 <= i < j < |ths| ==> !Owns(ths[i]) || !Owns(ths[j])
  }

  ghost predicate Inv(s: State) {
    && SafeIds(s.threads) && OneOwner(s.threads)
    && s.flag < WORD
    && ReaderHalf(s.flag) == Shares(s.threads)
    && (WriterHalf(s.flag) != 0 ==> ReaderHalf(s.flag) == 0)
    && (WriterHalf(s.flag) == 0 ==> s.writeCnt == 0)
    && forall i :: 0 <= i < |s.threads| ==> ThreadInv(s, s.threads[i])
  }

  lemma {:induction false} SharesUpdate(ths: seq<Thread>, i: nat, th: Thread)
    requires i < |ths|
    ensures Shares(ths[i := th]) == Shares(ths) - ths[i].shares + th.shares
  {
    if i > 0 {
      assert ths[i := th][1..] == ths[1..][i - 1 := th];
      SharesUpdate(ths[1..], i - 1, th);
    }
  }

  /** Steps never change ids. */
  lemma SameIds(ths: seq<Thread>, i: nat, th: Thread)
    requires i < |ths| && th.id == ths[i].id && SafeIds(ths)
    ensures SafeIds(ths[i := th])
  {
    assert forall k :: 0 <= k < |ths| ==> ths[i := th][k].id == ths[k].id;
  }

  lemma {:induction false} SharesAtLeast(ths: seq<Thread>, i: nat)
    requires i < |ths| && forall th <- ths :: th.shares >= 0
    ensures Shares(ths) >= ths[i].shares && Shares(ths) >= 0
  {
    SharesNonNegative(ths[1..]);
    if i > 0 { SharesAtLeast(ths[1..], i - 1); }
  }

  lemma {:induction false} SharesNonNegative(ths: seq<Thread>)
    requires forall th <- ths :: th.shares >= 0
    ensures Shares(ths) >= 0
  {
    if ths != [] { SharesNonNegative(ths[1..]); }
  }

  lemma {:induction false} NoShares(ths: seq<Thread>)
    requires forall th <- ths :: th.shares == 0
    ensures Shares(ths) == 0
  {
    if ths != [] { NoShares(ths[1..]); }
  }

  lemma InitialInv(s: State)
    requires Initial(s) && SafeIds(s.threads)
    ensures Inv(s)
  {
    NoShares(s.threads);
    forall i | 0 <= i < |s.threads| ensures ThreadInv(s, s.threads[i]) {
      LowHalf(s.threads[i].id);
    }
  }

  // ---- Preservation --------------------------------------------------------------------------

  /** The one step the 16-bit reader count cannot take: a successful exchange from 65535 readers. */
  predicate Overflows(s: State, a: Action) {
    && a.Advance? && Enabled(s, a) && !a.spurious
    && s.threads[a.t].pc == ReadCas(HALF - 1) && s.flag == HALF - 1
  }

  /** What a step of thread `t` has to establish: the word and counter fit its own new state, and the other
      threads do not notice. */
  lemma InvAfter(s: State, s': State, t: nat)
    requires Inv(s) && t < |s.threads| == |s'.threads| && s'.threads == s.threads[t := s'.threads[t]]
    requires s'.threads[t].id == s.threads[t].id && ThreadInv(s', s'.threads[t]) && s'.flag < WORD
    requires ReaderHalf(s'.flag) == ReaderHalf(s.flag) - s.threads[t].shares + s'.threads[t].shares
    requires WriterHalf(s'.flag) == 0 ==> s'.writeCnt == 0
    requires WriterHalf(s'.flag) != 0 ==> ReaderHalf(s'.flag) == 0
    requires WriterHalf(s'.flag) != WriterHalf(s.flag) ==>
               (WriterHalf(s.flag) == 0 && WriterHalf(s'.flag) == s.threads[t].id % HALF) ||
               (WriterHalf(s'.flag) == 0 && Owns(s.threads[t]))
    requires s'.writeCnt != s.writeCnt ==> Owns(s.threads[t])
    requires Owns(s'.threads[t]) ==> Owns(s.threads[t]) || WriterHalf(s.flag) == 0
    ensures Inv(s')
  {
    SameIds(s.threads, t, s'.threads[t]);
    SharesUpdate(s.threads, t, s'.threads[t]);
    forall i | 0 <= i < |s.threads| && i != t
      ensures ThreadInv(s', s'.threads[i]) && (Owns(s'.threads[t]) ==> !Owns(s'.threads[i]))
    {
      assert ThreadInv(s, s.threads[i]);
      LowHalf(s.threads[i].id);
    }
  }

  lemma ReadStepKeeps(s: State, t: nat, spurious: bool)
    requires Inv(s) && Enabled(s, Advance(t, spurious)) && !Overflows(s, Advance(t, spurious))
    requires s.threads[t].pc.ReadCas? || s.threads[t].pc.ReadRetry?
    ensures Inv(AdvanceStep(s, t, spurious))
  {
    assert ThreadInv(s, s.threads[t]);
    InvAfter(s, AdvanceStep(s, t, spurious), t);
  }

  lemma ReadUnlockKeeps(s: State, t: nat)
    requires Inv(s) && Enabled(s, ReadUnlock(t))
    ensures Inv(Next(s, ReadUnlock(t)))
  {
    assert ThreadInv(s, s.threads[t]);
    SharesAtLeast(s.threads, t);
    assert WriterHalf(s.flag) == 0 && Next(s, ReadUnlock(t)).flag == s.flag - 1;
    InvAfter(s, Next(s, ReadUnlock(t)), t);
  }

  lemma FlagParts(id: int)
    ensures WriterFlag(id) < WORD && WriterHalf(WriterFlag(id)) == id % HALF && ReaderHalf(WriterFlag(id)) == 0
  {
  }

  lemma EnterStepKeeps(s: State, t: nat, spurious: bool)
    requires Inv(s) && Enabled(s, Advance(t, spurious))
    requires s.threads[t].pc.WriteReenter? || s.threads[t].pc.WriteCas? || s.threads[t].pc.WriteEnter?
    ensures Inv(AdvanceStep(s, t, spurious))
  {
    assert ThreadInv(s, s.threads[t]);
    FlagParts(s.threads[t].id);
    if !s.threads[t].pc.WriteCas? || (s.flag == EMPTY_FLAG && !spurious) {
      InvAfter(s, AdvanceStep(s, t, spurious), t);
    }
  }

  lemma UnlockStepKeeps(s: State, t: nat, spurious: bool)
    requires Inv(s) && Enabled(s, Advance(t, spurious)) && (s.threads[t].pc.UnlockDec? || s.threads[t].pc.UnlockStore?)
    ensures Inv(AdvanceStep(s, t, spurious))
  {
    assert ThreadInv(s, s.threads[t]);
    LowHalf(s.threads[t].id);
    InvAfter(s, AdvanceStep(s, t, spurious), t);
  }

  /** The reentrancy test reads the writer half once: only an owner sees its id there, and an owner does exactly
      when its id fits that half. */
  lemma OwnIdMeansOwner(s: State, t: nat)
    requires Inv(s) && t < |s.threads|
    ensures SeesOwnId(s, s.threads[t]) <==> Owns(s.threads[t]) && s.threads[t].id % WORD < HALF
  {
    assert ThreadInv(s, s.threads[t]);
    LowHalf(s.threads[t].id);
  }

  lemma CallKeeps(s: State, a: Action)
    requires Inv(s) && Enabled(s, a) && !a.Advance? && !a.ReadUnlock?
    ensures Inv(Next(s, a))
  {
    assert ThreadInv(s, s.threads[a.t]);
    OwnIdMeansOwner(s, a.t);
    InvAfter(s, Next(s, a), a.t);
  }

  /** A step keeps the lock sound exactly when it is not the 65536th simultaneous reader. */
  lemma StepKeepsInv(s: State, a: Action)
    requires Inv(s) && Enabled(s, a)
    ensures Inv(Next(s, a)) <==> !Overflows(s, a)
  {
    if Overflows(s, a) {
      assert WriterHalf(Next(s, a).flag) == 1;
      SharesUpdate(s.threads, a.t, Next(s, a).threads[a.t]);
    } else if a.ReadUnlock? {
      ReadUnlockKeeps(s, a.t);
    } else if a.Advance? {
      if s.threads[a.t].pc.ReadCas? || s.threads[a.t].pc.ReadRetry? {
        ReadStepKeeps(s, a.t, a.spurious);
      } else if s.threads[a.t].pc.UnlockDec? || s.threads[a.t].pc.UnlockStore? {
        UnlockStepKeeps(s, a.t, a.spurious);
      } else {
        EnterStepKeeps(s, a.t, a.spurious);
      }
    } else {
      CallKeeps(s, a);
    }
  }

  // ---- Whole runs ----------------------------------------------------------------------------

  function Run(s: State, acts: seq<Action>): State
    decreases |acts|
  {
    if acts == [] then s else Run(if Enabled(s, acts[0]) then Next(s, acts[0]) else s, acts[1..])
  }

  /** No more than 65535 readers at once, along the whole run. */
  predicate Bounded(s: State, acts: seq<Action>)
    decreases |acts|
  {
    acts == [] ||
    (!Overflows(s, acts[0]) && Bounded(if Enabled(s, acts[0]) then Next(s, acts[0]) else s, acts[1..]))
  }

  lemma {:induction false} RunKeepsInv(s: State, acts: seq<Action>)
    requires Inv(s) && Bounded(s, acts)
    ensures Inv(Run(s, acts))
    decreases |acts|
  {
    if acts != [] {
      if Enabled(s, acts[0]) {
        StepKeepsInv(s, acts[0]);
        RunKeepsInv(Next(s, acts[0]), acts[1..]);
      } else {
        RunKeepsInv(s, acts[1..]);
      }
    }
  }

  /** Readers and a writer never overlap, and no two writers do. */
  predicate Exclusive(s: State) {
    forall i, j :: 0 <= i < |s.threads| && 0 <= j < |s.threads| && s.threads[i].depth > 0 ==>
      s.threads[j].shares == 0 && (i != j ==> s.threads[j].depth == 0)
  }

  lemma InvIsExclusive(s: State)
    requires Inv(s)
    ensures Exclusive(s)
  {
    forall i, j | 0 <= i < |s.threads| && 0 <= j < |s.threads| && s.threads[i].depth > 0
      ensures s.threads[j].shares == 0 && (i != j ==> s.threads[j].depth == 0)
    {
      assert ThreadInv(s, s.threads[i]) && ThreadInv(s, s.threads[j]);
      assert WriterHalf(s.flag) == s.threads[i].id % HALF != 0;
      SharesAtLeast(s.threads, j);
    }
  }

  lemma ReachableIsExclusive(s: State, acts: seq<Action>)
    requires Initial(s) && SafeIds(s.threads) && Bounded(s, acts)
    ensures Exclusive(Run(s, acts))
    ensures ReaderHalf(Run(s, acts).flag) == Shares(Run(s, acts).threads)
  {
    InitialInv(s);
    RunKeepsInv(s, acts);
    InvIsExclusive(Run(s, acts));
  }

  // ---- What each operation relies on ---------------------------------------------------------

  /** What a thread learnt from the reentrancy test stays true whatever the others do. */
  lemma OwnershipIsStable(s: State, a: Action, t: nat)
    requires Inv(s) && Enabled(s, a) && !Overflows(s, a) && t < |s.threads| && t != a.t
    ensures SeesOwnId(Next(s, a), s.threads[t]) <==> SeesOwnId(s, s.threads[t])
  {
    StepKeepsInv(s, a);
    OwnIdMeansOwner(s, t);
    OwnIdMeansOwner(Next(s, a), t);
  }

  /** The plain counter is touched only by the thread whose id is in the word. */
  lemma CounterIsOwners(s: State, a: Action)
    requires Inv(s) && Enabled(s, a) && Next(s, a).writeCnt != s.writeCnt
    ensures Owns(s.threads[a.t]) && WriterHalf(s.flag) == s.threads[a.t].id % HALF
  {
    assert ThreadInv(s, s.threads[a.t]);
  }

  /** The word leaves its owner only by the owner's store after its outermost unlock, never over a reader. */
  lemma ReleasedByOutermostUnlock(s: State, a: Action, t: nat)
    requires Inv(s) && Enabled(s, a) && !Overflows(s, a) && t < |s.threads|
    requires Owns(s.threads[t])
    ensures Owns(Next(s, a).threads[t]) <==> !(a.Advance? && a.t == t && s.threads[t].pc.UnlockStore?)
    ensures s.threads[t].pc.UnlockStore? ==> s.threads[t].depth == 0 && ReaderHalf(s.flag) == 0
  {
    assert ThreadInv(s, s.threads[t]);
    OwnIdMeansOwner(s, a.t);
  }

  /** WriteUnlock changes nothing exactly for a thread that does not hold the lock, or whose id is too wide. */
  lemma ForeignUnlockIsNoop(s: State, t: nat)
    requires Inv(s) && Enabled(s, WriteUnlock(t))
    ensures Next(s, WriteUnlock(t)) == s <==> s.threads[t].depth == 0 || s.threads[t].id % WORD >= HALF
  {
    assert ThreadInv(s, s.threads[t]);
    OwnIdMeansOwner(s, t);
    assert SeesOwnId(s, s.threads[t]) ==> Next(s, WriteUnlock(t)).threads[t].pc != s.threads[t].pc;
  }

  // ---- Refinement of an abstract lock --------------------------------------------------------

  /** Per thread: read holds and recursive write depth. */
  datatype AbstractLock = AbstractLock(shares: seq<int>, depths: seq<int>)

  datatype Operation = Nothing | AcquireShared | ReleaseShared | Acquire | Reenter | Release

  function Abs(s: State): AbstractLock {
    AbstractLock(seq(|s.threads|, i requires 0 <= i < |s.threads| => s.threads[i].shares),
                 seq(|s.threads|, i requires 0 <= i < |s.threads| => s.threads[i].depth))
  }

  /** Thread `t` performs `op` on the abstract lock: the guards are the whole synchronization. */
  predicate Performs(l: AbstractLock, l': AbstractLock, t: nat, op: Operation) {
    |l.shares| == |l.depths| && t < |l.shares| &&
    match op
    case Nothing => l' == l
    case AcquireShared =>
      (forall d <- l.depths :: d == 0) && l' == l.(shares := l.shares[t := l.shares[t] + 1])
    case ReleaseShared => l.shares[t] > 0 && l' == l.(shares := l.shares[t := l.shares[t] - 1])
    case Acquire =>
      (forall d <- l.depths :: d == 0) && (forall r <- l.shares :: r == 0) && l' == l.(depths := l.depths[t := 1])
    case Reenter => l.depths[t] > 0 && l' == l.(depths := l.depths[t := l.depths[t] + 1])
    case Release => l.depths[t] > 0 && l' == l.(depths := l.depths[t := l.depths[t] - 1])
  }

  /** The abstract operation a concrete step completes. */
  function Completes(s: State, a: Action): Operation
    requires Enabled(s, a)
  {
    if a.ReadUnlock? then ReleaseShared
    else if !a.Advance? then Nothing
    else match s.threads[a.t].pc
      case ReadCas(expected) => if s.flag == expected && !a.spurious then AcquireShared else Nothing
      case WriteEnter => Acquire
      case WriteReenter => Reenter
      case UnlockDec => Release
      case _ => Nothing
  }

  lemma NobodyWrites(s: State)
    requires Inv(s) && WriterHalf(s.flag) == 0
    ensures forall d <- Abs(s).depths :: d == 0
  {
    forall i | 0 <= i < |s.threads| ensures s.threads[i].depth == 0 {
      assert ThreadInv(s, s.threads[i]);
    }
  }

  lemma NobodyElseHolds(s: State, t: nat)
    requires Inv(s) && t < |s.threads| && s.threads[t].pc.WriteEnter?
    ensures (forall d <- Abs(s).depths :: d == 0) && (forall r <- Abs(s).shares :: r == 0)
  {
    assert ThreadInv(s, s.threads[t]);
    forall i | 0 <= i < |s.threads| ensures s.threads[i].depth == 0 && s.threads[i].shares == 0 {
      assert ThreadInv(s, s.threads[i]);
      SharesAtLeast(s.threads, i);
    }
  }

  /** A step that completes no operation leaves this thread's holds alone; the others change them by one. */
  lemma HoldsOfStep(s: State, a: Action)
    requires Inv(s) && Enabled(s, a)
    ensures var th, th', op := s.threads[a.t], Next(s, a).threads[a.t], Completes(s, a);
            && Next(s, a).threads == s.threads[a.t := th']
            && th'.shares == th.shares + (if op.AcquireShared? then 1 else if op.ReleaseShared? then -1 else 0)
            && th'.depth == th.depth + (if op.Acquire? || op.Reenter? then 1 else if op.Release? then -1 else 0)
  {
  }

  lemma AbsOfUpdate(s: State, s': State, t: nat)
    requires t < |s.threads| && |s'.threads| == |s.threads| && s'.threads == s.threads[t := s'.threads[t]]
    ensures Abs(s').shares == Abs(s).shares[t := s'.threads[t].shares]
    ensures Abs(s').depths == Abs(s).depths[t := s'.threads[t].depth]
  {
  }

  /** Every concrete step is one operation of the abstract lock by the same thread, or invisible. */
  lemma Refines(s: State, a: Action)
    requires Inv(s) && Enabled(s, a)
    ensures Performs(Abs(s), Abs(Next(s, a)), a.t, Completes(s, a))
  {
    var op, th := Completes(s, a), s.threads[a.t];
    assert ThreadInv(s, th);
    HoldsOfStep(s, a);
    AbsOfUpdate(s, Next(s, a), a.t);
    assert op.Nothing? ==> Abs(Next(s, a)) == Abs(s);
    if op.AcquireShared? { NobodyWrites(s); }
    if op.Acquire? { NobodyElseHolds(s, a.t); }
  }

  // ---- Where the assumptions come from -------------------------------------------------------

  /** On a free lock, WriteLock returns without taking it exactly when the caller's id is zero. */
  lemma ZeroIdSkipsTheLock(s: State, t: nat)
    requires Enabled(s, WriteLock(t)) && s.flag == EMPTY_FLAG && 0 <= s.threads[t].id < WORD
    ensures Next(s, WriteLock(t)).threads[t].pc == WriteReenter <==> s.threads[t].id == 0
  {
  }

  /** An id is recognised by its own unlock exactly when it fits the upper half of the word. */
  lemma WideIdNeverUnlocks(s: State, t: nat)
    requires Enabled(s, WriteUnlock(t)) && 0 <= s.threads[t].id < WORD
    requires s.flag == WriterFlag(s.threads[t].id)
    ensures Next(s, WriteUnlock(t)) != s <==> s.threads[t].id < HALF
  {
    var th := s.threads[t];
    assert WriterHalf(s.flag) == th.id % HALF;
    assert Next(s, WriteUnlock(t)) != s ==> SeesOwnId(s, th);
    if th.id < HALF {
      assert Next(s, WriteUnlock(t)).threads[t].pc == UnlockDec;
    }
  }

  lemma RunOne(s: State, a: Action, acts: seq<Action>)
    requires Enabled(s, a)
    ensures Run(s, [a] + acts) == Run(Next(s, a), acts)
    ensures Bounded(s, [a] + acts) <==> !Overflows(s, a) && Bounded(Next(s, a), acts)
  {
    assert ([a] + acts)[1..] == acts;
  }

  /** Thread `t` takes the free lock for writing; an id of zero takes the early return. */
  function WriteActs(s: State, t: nat): seq<Action>
    requires t < |s.threads|
  {
    if s.threads[t].id % WORD == 0 then [WriteLock(t), Advance(t, false)]
    else [WriteLock(t), Advance(t, false), Advance(t, false)]
  }

  lemma TakesTheLock(s: State, t: nat, acts: seq<Action>)
    requires t < |s.threads| && s.threads[t].pc.Idle? && s.threads[t].depth == 0 && s.flag == EMPTY_FLAG
    ensures var th := s.threads[t];
            var s' := State(WriterFlag(th.id), s.writeCnt + 1, s.threads[t := th.(depth := 1)]);
            && Run(s, WriteActs(s, t) + acts) == Run(s', acts)
            && (Bounded(s, WriteActs(s, t) + acts) <==> Bounded(s', acts))
  {
    var th := s.threads[t];
    LowHalf(th.id);
    var s1 := Next(s, WriteLock(t));
    var s2 := Next(s1, Advance(t, false));
    if th.id % WORD == 0 {
      assert WriteActs(s, t) + acts == [WriteLock(t)] + ([Advance(t, false)] + acts);
      RunOne(s, WriteLock(t), [Advance(t, false)] + acts);
      RunOne(s1, Advance(t, false), acts);
      assert s2.threads == s.threads[t := th.(depth := 1)];
    } else {
      var s3 := Next(s2, Advance(t, false));
      assert WriteActs(s, t) + acts == [WriteLock(t)] + ([Advance(t, false)] + ([Advance(t, false)] + acts));
      RunOne(s, WriteLock(t), [Advance(t, false)] + ([Advance(t, false)] + acts));
      RunOne(s1, Advance(t, false), [Advance(t, false)] + acts);
      RunOne(s2, Advance(t, false), acts);
      assert s3.threads == s.threads[t := th.(depth := 1)];
    }
  }

  /** An id with an empty low half leaves the word empty: its thread reads beside its own write lock. */
  lemma EmptyHalfBreaks(s: State, t: nat)
    requires Initial(s) && t < |s.threads| && s.threads[t].id % HALF == 0
    ensures exists acts :: Bounded(s, acts) && !Exclusive(Run(s, acts))
  {
    var th, enters := s.threads[t], [ReadLock(t), Advance(t, false)];
    TakesTheLock(s, t, enters);
    var s1 := State(WriterFlag(th.id), s.writeCnt + 1, s.threads[t := th.(depth := 1)]);
    var s2 := Next(s1, ReadLock(t));
    var s3 := Next(s2, Advance(t, false));
    RunOne(s1, ReadLock(t), [Advance(t, false)]);
    RunOne(s2, Advance(t, false), []);
    assert enters == [ReadLock(t)] + [Advance(t, false)] && [Advance(t, false)] + [] == [Advance(t, false)];
    assert s3.threads[t].depth == 1 && s3.threads[t].shares == 1;
    assert Bounded(s, WriteActs(s, t) + enters) && !Exclusive(Run(s, WriteActs(s, t) + enters));
  }

  /** A thread whose id is the half another one writes enters as if it were the owner. */
  lemma CollisionBreaks(s: State, t: nat, u: nat)
    requires Initial(s) && t < |s.threads| && u < |s.threads| && t != u
    requires s.threads[u].id % WORD == s.threads[t].id % HALF
    ensures exists acts :: Bounded(s, acts) && !Exclusive(Run(s, acts))
  {
    var th, enters := s.threads[t], [WriteLock(u), Advance(u, false)];
    TakesTheLock(s, t, enters);
    var s1 := State(WriterFlag(th.id), s.writeCnt + 1, s.threads[t := th.(depth := 1)]);
    assert SeesOwnId(s1, s1.threads[u]);
    var s2 := Next(s1, WriteLock(u));
    var s3 := Next(s2, Advance(u, false));
    RunOne(s1, WriteLock(u), [Advance(u, false)]);
    RunOne(s2, Advance(u, false), []);
    assert enters == [WriteLock(u)] + [Advance(u, false)] && [Advance(u, false)] + [] == [Advance(u, false)];
    assert s3.threads[t].depth == 1 && s3.threads[u].depth == 1;
    assert Bounded(s, WriteActs(s, t) + enters) && !Exclusive(Run(s, WriteActs(s, t) + enters));
  }

  /** Over all runs with at most 65535 read holds, the lock excludes exactly for safe ids. */
  lemma ExcludesExactlyForSafeIds(s: State)
    requires Initial(s)
    ensures (forall acts :: Bounded(s, acts) ==> Exclusive(Run(s, acts))) <==> SafeIds(s.threads)
  {
    if SafeIds(s.threads) {
      forall acts | Bounded(s, acts) ensures Exclusive(Run(s, acts)) {
        ReachableIsExclusive(s, acts);
      }
    } else if t :| 0 <= t < |s.threads| && s.threads[t].id % HALF == 0 {
      EmptyHalfBreaks(s, t);
    } else {
      var t, u :|
        0 <= t < |s.threads| && 0 <= u < |s.threads| && t != u && s.threads[u].id % WORD == s.threads[t].id % HALF;
      CollisionBreaks(s, t, u);
    }
  }

  // ---- More than 65535 read holds ------------------------------------------------------------

  /** The 65536th reader spills into the writer half; a thread with id 1 then write-locks beside the readers. */
  lemma OverflowBreaksExclusion(s: State, a: Action, u: nat)
    requires Inv(s) && Overflows(s, a) && u < |s.threads|
    requires s.threads[u].id % WORD == 1 && (u == a.t || s.threads[u].pc.Idle?)
    ensures !Exclusive(Run(Next(s, a), [WriteLock(u), Advance(u, false)]))
  {
    assert ThreadInv(s, s.threads[u]) && ThreadInv(s, s.threads[a.t]);
    var s1 := Next(s, a);
    assert SeesOwnId(s1, s1.threads[u]);
    var s2 := Next(s1, WriteLock(u));
    var s3 := Next(s2, Advance(u, false));
    RunOne(s1, WriteLock(u), [Advance(u, false)]);
    RunOne(s2, Advance(u, false), []);
    assert [WriteLock(u), Advance(u, false)] == [WriteLock(u)] + [Advance(u, false)];
    assert [Advance(u, false)] + [] == [Advance(u, false)];
    assert s3.threads[u].depth > 0 && s3.threads[a.t].shares > 0;
  }

  /** With 65536 read holds the word names writer 1, although nobody owns it. */
  ghost predicate Spilled(s: State) {
    && SafeIds(s.threads)
    && s.flag == HALF == Shares(s.threads) && s.writeCnt == 0
    && forall th <- s.threads ::
         && th.shares >= 0 && th.depth == 0 && !Owns(th) && !th.pc.WriteReenter? && !th.pc.UnlockDec?
         && (th.pc.ReadCas? ==> th.pc.expected < HALF)
  }

  predicate NoIdOne(ths: seq<Thread>) {
    forall th <- ths :: th.id % WORD != 1
  }

  lemma OverflowSpills(s: State, a: Action)
    requires Inv(s) && Overflows(s, a)
    ensures Spilled(Next(s, a))
  {
    var s' := Next(s, a);
    SameIds(s.threads, a.t, s'.threads[a.t]);
    SharesUpdate(s.threads, a.t, s'.threads[a.t]);
    forall th | th in s'.threads
      ensures th.shares >= 0 && th.depth == 0 && !Owns(th) && !th.pc.WriteReenter? && !th.pc.UnlockDec?
      ensures th.pc.ReadCas? ==> th.pc.expected < HALF
    {
      var i :| 0 <= i < |s'.threads| && s'.threads[i] == th;
      assert ThreadInv(s, s.threads[i]);
    }
  }

  /** The next ReadUnlock mends the word. */
  lemma SpillMends(s: State, t: nat)
    requires Spilled(s) && Enabled(s, ReadUnlock(t))
    ensures Inv(Next(s, ReadUnlock(t)))
  {
    var s' := Next(s, ReadUnlock(t));
    SameIds(s.threads, t, s'.threads[t]);
    SharesUpdate(s.threads, t, s'.threads[t]);
    forall i | 0 <= i < |s.threads| ensures ThreadInv(s', s'.threads[i]) && !Owns(s'.threads[i]) {
      assert s.threads[i] in s.threads;
      LowHalf(s.threads[i].id);
    }
  }

  /** Without id 1 nobody gets in before that. */
  lemma SpillStays(s: State, a: Action)
    requires Spilled(s) && NoIdOne(s.threads) && Enabled(s, a) && !a.ReadUnlock?
    ensures Spilled(Next(s, a))
  {
    var th, s' := s.threads[a.t], Next(s, a);
    assert th in s.threads && s'.flag == s.flag && s'.writeCnt == s.writeCnt;
    SameIds(s.threads, a.t, s'.threads[a.t]);
    SharesUpdate(s.threads, a.t, s'.threads[a.t]);
    forall o | o in s'.threads ensures o in s.threads || o == s'.threads[a.t] {
      var i :| 0 <= i < |s'.threads| && s'.threads[i] == o;
      assert i != a.t ==> s.threads[i] in s.threads;
    }
  }

  lemma SameIdOne(s: State, a: Action)
    requires Enabled(s, a) && NoIdOne(s.threads)
    ensures NoIdOne(Next(s, a).threads)
  {
    forall th | th in Next(s, a).threads ensures th.id % WORD != 1 {
      var i :| 0 <= i < |Next(s, a).threads| && Next(s, a).threads[i] == th;
      assert s.threads[i] in s.threads && s.threads[i].id == th.id;
    }
  }

  lemma {:induction false} UnboundedRun(s: State, acts: seq<Action>)
    requires (Inv(s) || Spilled(s)) && NoIdOne(s.threads)
    ensures Inv(Run(s, acts)) || Spilled(Run(s, acts))
    decreases |acts|
  {
    if acts != [] {
      var a := acts[0];
      if !Enabled(s, a) {
        UnboundedRun(s, acts[1..]);
      } else {
        SameIdOne(s, a);
        if Spilled(s) {
          if a.ReadUnlock? { SpillMends(s, a.t); } else { SpillStays(s, a); }
        } else {
          StepKeepsInv(s, a);
          if Overflows(s, a) { OverflowSpills(s, a); }
        }
        UnboundedRun(Next(s, a), acts[1..]);
      }
    }
  }

  /** `n` read locks by thread `t`. */
  function Reads(t: nat, n: nat): seq<Action> {
    if n == 0 then [] else [ReadLock(t), Advance(t, false)] + Reads(t, n - 1)
  }

  function WithReads(s: State, t: nat, n: nat): State
    requires t < |s.threads|
  {
    State(s.flag + n, s.writeCnt, s.threads[t := s.threads[t].(shares := s.threads[t].shares + n)])
  }

  lemma OneRead(s: State, t: nat, acts: seq<Action>)
    requires t < |s.threads| && s.threads[t].pc.Idle? && s.flag < HALF
    ensures Run(s, [ReadLock(t), Advance(t, false)] + acts) == Run(WithReads(s, t, 1), acts)
  {
    assert [ReadLock(t), Advance(t, false)] + acts == [ReadLock(t)] + ([Advance(t, false)] + acts);
    ReadTaken(s, t);
    RunOne(s, ReadLock(t), [Advance(t, false)] + acts);
    RunOne(Next(s, ReadLock(t)), Advance(t, false), acts);
  }

  lemma ReadTaken(s: State, t: nat)
    requires t < |s.threads| && s.threads[t].pc.Idle? && s.flag < HALF
    ensures Enabled(s, ReadLock(t)) && Enabled(Next(s, ReadLock(t)), Advance(t, false))
    ensures Next(Next(s, ReadLock(t)), Advance(t, false)) == WithReads(s, t, 1)
  {
    var th, s1 := s.threads[t], Next(s, ReadLock(t));
    assert s1.threads == s.threads[t := th.(pc := ReadCas(s.flag))];
    assert s1.threads[t := th.(shares := th.shares + 1)] == s.threads[t := th.(shares := th.shares + 1)];
  }

  lemma {:induction false} ReadsFill(s: State, t: nat, n: nat, acts: seq<Action>)
    requires t < |s.threads| && s.threads[t].pc.Idle? && s.flag + n <= HALF
    ensures Run(s, Reads(t, n) + acts) == Run(WithReads(s, t, n), acts)
    decreases n
  {
    if n == 0 {
      assert Reads(t, n) + acts == acts;
      assert WithReads(s, t, 0) == s;
    } else {
      assert Reads(t, n) + acts == [ReadLock(t), Advance(t, false)] + (Reads(t, n - 1) + acts);
      OneRead(s, t, Reads(t, n - 1) + acts);
      ReadsFill(WithReads(s, t, 1), t, n - 1, acts);
      assert WithReads(WithReads(s, t, 1), t, n - 1) == WithReads(s, t, n);
    }
  }

  lemma IdOneBreaks(s: State, t: nat)
    requires Initial(s) && t < |s.threads| && s.threads[t].id % WORD == 1
    ensures exists acts :: !Exclusive(Run(s, acts))
  {
    var th, enters := s.threads[t], [WriteLock(t), Advance(t, false)];
    ReadsFill(s, t, HALF, enters);
    var s1 := WithReads(s, t, HALF);
    var s2 := Next(s1, WriteLock(t));
    var s3 := Next(s2, Advance(t, false));
    RunOne(s1, WriteLock(t), [Advance(t, false)]);
    RunOne(s2, Advance(t, false), []);
    assert enters == [WriteLock(t)] + [Advance(t, false)] && [Advance(t, false)] + [] == [Advance(t, false)];
    assert s3.threads[t].depth == 1 && s3.threads[t].shares == HALF;
    assert !Exclusive(Run(s, Reads(t, HALF) + enters));
  }

  /** Over all runs whatsoever, the lock excludes exactly for safe ids none of which is 1. */
  lemma ExcludesWithoutBoundExactly(s: State)
    requires Initial(s)
    ensures (forall acts :: Exclusive(Run(s, acts))) <==> SafeIds(s.threads) && NoIdOne(s.threads)
  {
    if SafeIds(s.threads) && NoIdOne(s.threads) {
      InitialInv(s);
      forall acts ensures Exclusive(Run(s, acts)) {
        UnboundedRun(s, acts);
        if Inv(Run(s, acts)) { InvIsExclusive(Run(s, acts)); }
      }
    } else if SafeIds(s.threads) {
      var th :| th in s.threads && th.id % WORD == 1;
      var t :| 0 <= t < |s.threads| && s.threads[t] == th;
      IdOneBreaks(s, t);
    } else {
      ExcludesExactlyForSafeIds(s);
    }
  }

  /** Ids that are distinct, nonzero and fit 16 bits are safe; id 1 is harmless up to 65535 read holds. */
  lemma GoodIdsExclude(s: State)
    requires Initial(s) && GoodIds(s.threads)
    ensures forall acts :: Bounded(s, acts) ==> Exclusive(Run(s, acts))
    ensures (forall acts :: Exclusive(Run(s, acts))) <==> NoIdOne(s.threads)
  {
    GoodIdsAreSafe(s.threads);
    ExcludesExactlyForSafeIds(s);
    ExcludesWithoutBoundExactly(s);
  }
}

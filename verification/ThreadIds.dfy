/** How threads get their ids: each new thread increments a plain counter and reads it back, without a lock. */
module ThreadIds {
  import RwLock
  import RwLockSafety

  /** Before its load, its store or its second load, or past all three. */
  datatype Starting = Fresh | Loaded(cnt: int) | Stored | Running(id: int)

  /** `threadCnt` is m_threadCnt. */
  datatype State = State(threadCnt: int, threads: seq<Starting>)

  function Initial(n: nat): State {
    State(0, seq(n, _ => Fresh))
  }

  /** The next operation of thread `t`. */
  function Next(s: State, t: nat): State
    requires t < |s.threads|
  {
    match s.threads[t]
    case Fresh => s.(threads := s.threads[t := Loaded(s.threadCnt)])
    case Loaded(cnt) => State(cnt + 1, s.threads[t := Stored])
    case Stored => s.(threads := s.threads[t := Running(s.threadCnt)])
    case Running(_) => s
  }

  function Run(s: State, ts: seq<nat>): State
    decreases |ts|
  {
    if ts == [] then s else Run(if ts[0] < |s.threads| then Next(s, ts[0]) else s, ts[1..])
  }

  predicate Distinct(s: State) {
    forall i, j :: 0 <= i < j < |s.threads| && s.threads[i].Running? && s.threads[j].Running? ==>
      s.threads[i].id != s.threads[j].id
  }

  predicate Busy(th: Starting) {
    th.Loaded? || th.Stored?
  }

  /** No thread starts while another one is between its load and its last one. */
  predicate OneByOne(s: State, ts: seq<nat>)
    decreases |ts|
  {
    ts == [] ||
    if ts[0] >= |s.threads| then OneByOne(s, ts[1..])
    else
      (s.threads[ts[0]].Fresh? ==> forall th <- s.threads :: !Busy(th)) && OneByOne(Next(s, ts[0]), ts[1..])
  }

  // ---- One by one ------------------------------------------------------------------------------------

  predicate HasStored(th: Starting) {
    th.Stored? || th.Running?
  }

  function Begun(ths: seq<Starting>): nat {
    if ths == [] then 0 else (if HasStored(ths[0]) then 1 else 0) + Begun(ths[1..])
  }

  lemma {:induction false} BegunUpdate(ths: seq<Starting>, i: nat, th: Starting)
    requires i < |ths|
    ensures Begun(ths[i := th]) ==
            Begun(ths) + (if HasStored(th) then 1 else 0) - (if HasStored(ths[i]) then 1 else 0)
  {
    if i == 0 {
      assert ths[i := th][1..] == ths[1..];
    } else {
      assert ths[i := th][1..] == ths[1..][i - 1 := th];
      BegunUpdate(ths[1..], i - 1, th);
    }
  }

  predicate OneBusy(ths: seq<Starting>) {
    forall i, j :: 0 <= i < j < |ths| ==> !Busy(ths[i]) || !Busy(ths[j])
  }

  predicate Fits(s: State, th: Starting) {
    && (th.Loaded? ==> th.cnt == s.threadCnt)
    && (th.Running? ==> 0 < th.id <= s.threadCnt)
  }

  /** The id that a thread has stored is not taken yet. */
  predicate LastIsFree(s: State) {
    forall i, j :: 0 <= i < |s.threads| && 0 <= j < |s.threads| && s.threads[i].Stored? && s.threads[j].Running? ==>
      s.threads[j].id < s.threadCnt
  }

  /** The counter is the number of threads that have stored; ids up to it are taken once each. */
  ghost predicate Inv(s: State) {
    && s.threadCnt == Begun(s.threads) && Distinct(s) && OneBusy(s.threads) && LastIsFree(s)
    && forall i :: 0 <= i < |s.threads| ==> Fits(s, s.threads[i])
  }

  predicate MayStep(s: State, t: nat)
    requires t < |s.threads|
  {
    s.threads[t].Fresh? ==> forall th <- s.threads :: !Busy(th)
  }

  lemma StepKeepsBusy(s: State, t: nat)
    requires OneBusy(s.threads) && t < |s.threads| && MayStep(s, t)
    ensures OneBusy(Next(s, t).threads)
  {
    assert forall i :: 0 <= i < |s.threads| ==> s.threads[i] in s.threads;
  }

  lemma {:induction false} BegunPositive(ths: seq<Starting>, i: nat)
    requires i < |ths| && ths[i].Stored?
    ensures Begun(ths) > 0
  {
    if i > 0 { BegunPositive(ths[1..], i - 1); }
  }

  lemma StepKeepsFits(s: State, t: nat, i: nat)
    requires Inv(s) && t < |s.threads| && i < |s.threads|
    ensures Fits(Next(s, t), Next(s, t).threads[i])
  {
    assert Fits(s, s.threads[i]) && Fits(s, s.threads[t]);
    assert i != t && s.threads[i].Loaded? ==> !s.threads[t].Loaded?;
    if s.threads[t].Stored? { BegunPositive(s.threads, t); }
  }

  lemma StepKeepsLast(s: State, t: nat)
    requires Inv(s) && t < |s.threads| && MayStep(s, t)
    ensures LastIsFree(Next(s, t))
  {
    var s' := Next(s, t);
    forall i, j | 0 <= i < |s.threads| && 0 <= j < |s.threads| && s'.threads[i].Stored? && s'.threads[j].Running?
      ensures s'.threads[j].id < s'.threadCnt
    {
      assert Fits(s, s.threads[j]) && Fits(s, s.threads[t]);
    }
  }

  lemma StepKeepsInv(s: State, t: nat)
    requires Inv(s) && t < |s.threads| && MayStep(s, t)
    ensures Inv(Next(s, t))
  {
    BegunUpdate(s.threads, t, Next(s, t).threads[t]);
    assert Fits(s, s.threads[t]);
    StepKeepsBusy(s, t);
    StepKeepsLast(s, t);
    forall i | 0 <= i < |s.threads| ensures Fits(Next(s, t), Next(s, t).threads[i]) { StepKeepsFits(s, t, i); }
  }

  lemma {:induction false} RunKeepsInv(s: State, ts: seq<nat>)
    requires Inv(s) && OneByOne(s, ts)
    ensures Inv(Run(s, ts)) && |Run(s, ts).threads| == |s.threads|
    decreases |ts|
  {
    if ts != [] {
      if ts[0] < |s.threads| {
        StepKeepsInv(s, ts[0]);
        RunKeepsInv(Next(s, ts[0]), ts[1..]);
      } else {
        RunKeepsInv(s, ts[1..]);
      }
    }
  }

  lemma {:induction false} BegunAtMost(ths: seq<Starting>)
    ensures Begun(ths) <= |ths|
  {
    if ths != [] { BegunAtMost(ths[1..]); }
  }

  lemma {:induction false} NoneBegun(ths: seq<Starting>)
    requires forall th <- ths :: th.Fresh?
    ensures Begun(ths) == 0
  {
    if ths != [] {
      assert ths[0] in ths;
      NoneBegun(ths[1..]);
    }
  }

  /** Threads started one by one get distinct ids from 1 to their number; fewer than 65536 of them are good for the
      lock. */
  lemma OneByOneIsGood(n: nat, ts: seq<nat>, workers: seq<RwLock.Thread>)
    requires OneByOne(Initial(n), ts)
    requires var s := Run(Initial(n), ts);
             |workers| == |s.threads| < RwLock.HALF &&
             forall i :: 0 <= i < |workers| ==> s.threads[i] == Running(workers[i].id)
    ensures RwLockSafety.GoodIds(workers)
  {
    var s := Run(Initial(n), ts);
    NoneBegun(Initial(n).threads);
    RunKeepsInv(Initial(n), ts);
    BegunAtMost(s.threads);
    assert forall i :: 0 <= i < |workers| ==> Fits(s, s.threads[i]);
  }

  // ---- At once -----------------------------------------------------------------------------------------

  /** Two threads load and store together. */
  lemma TwoAtOnce(n: nat)
    requires n > 1
    ensures !Distinct(Run(Initial(n), [0, 1, 0, 1, 0, 1]))
  {
    var s0 := Initial(n);
    var s1 := Next(s0, 0);
    var s2 := Next(s1, 1);
    var s3 := Next(s2, 0);
    var s4 := Next(s3, 1);
    var s5 := Next(s4, 0);
    var s6 := Next(s5, 1);
    assert s6.threads[0] == Running(1) == s6.threads[1];
    assert Run(s4, [0, 1]) == Run(s5, [1]) == Run(s6, []) == s6;
    assert Run(s2, [0, 1, 0, 1]) == Run(s3, [1, 0, 1]) == Run(s4, [0, 1]);
    assert Run(s0, [0, 1, 0, 1, 0, 1]) == Run(s1, [1, 0, 1, 0, 1]) == Run(s2, [0, 1, 0, 1]);
  }

  lemma {:induction false} OneThread(s: State, ts: seq<nat>)
    requires |s.threads| <= 1
    ensures |Run(s, ts).threads| <= 1
    decreases |ts|
  {
    if ts != [] { OneThread(if ts[0] < |s.threads| then Next(s, ts[0]) else s, ts[1..]); }
  }

  /** Under every schedule the ids are distinct exactly for a single thread. */
  lemma DistinctExactlyAlone(n: nat)
    ensures (forall ts :: Distinct(Run(Initial(n), ts))) <==> n <= 1
  {
    if n > 1 {
      TwoAtOnce(n);
    } else {
      forall ts ensures Distinct(Run(Initial(n), ts)) { OneThread(Initial(n), ts); }
    }
  }
}

/** What every interleaving of pushers and workers keeps: one token per busy queue,
    an exact counter, and first-in-first-out execution. */
module JobSafety {
  import opened JobProtocol

  // ---- Shares of one thread, and their totals -------------------------------------------

  /** Units of the counter of `q` that this thread accounts for: a counted job not yet inserted,
      or a popped batch not yet subtracted. */
  function OwedBy(th: Thread, q: nat): int {
    (if th.push.Counted? && th.push.queue == q then 1 else 0) +
    (if th.run.Batch? && th.run.queue == q then th.run.size else 0)
  }

  /** Tokens of `q` held by this thread: the duty to publish it, or being inside Execute on it. */
  function HeldBy(th: Thread, q: nat): nat {
    (if (th.push.Counted? && th.push.queue == q && th.push.prev == 0) ||
        (th.push.Publishing? && th.push.queue == q) then 1 else 0) +
    (if !th.run.Outside? && th.run.queue == q then 1 else 0)
  }

  /** Jobs of `q` popped by this thread and not yet started. */
  function InHand(th: Thread, q: nat): seq<Job> {
    if th.run.Batch? && th.run.queue == q then th.run.rest else []
  }

  function Owed(ths: seq<Thread>, q: nat): int {
    if ths == [] then 0 else OwedBy(ths[0], q) + Owed(ths[1..], q)
  }

  function Held(ths: seq<Thread>, q: nat): nat {
    if ths == [] then 0 else HeldBy(ths[0], q) + Held(ths[1..], q)
  }

  function InFlight(ths: seq<Thread>, q: nat): seq<Job> {
    if ths == [] then [] else InHand(ths[0], q) + InFlight(ths[1..], q)
  }

  lemma {:induction false} Update(ths: seq<Thread>, i: nat, th: Thread, q: nat)
    requires i < |ths|
    ensures Owed(ths[i := th], q) == Owed(ths, q) - OwedBy(ths[i], q) + OwedBy(th, q)
    ensures Held(ths[i := th], q) == Held(ths, q) - HeldBy(ths[i], q) + HeldBy(th, q)
  {
    if i > 0 {
      assert ths[i := th][1..] == ths[1..][i - 1 := th];
      Update(ths[1..], i - 1, th, q);
    }
  }

  lemma {:induction false} SameInHand(ths: seq<Thread>, i: nat, th: Thread, q: nat)
    requires i < |ths| && InHand(ths[i], q) == InHand(th, q)
    ensures InFlight(ths[i := th], q) == InFlight(ths, q)
  {
    if i > 0 {
      assert ths[i := th][1..] == ths[1..][i - 1 := th];
      SameInHand(ths[1..], i - 1, th, q);
    }
  }

  lemma {:induction false} NoneInFlight(ths: seq<Thread>, q: nat)
    requires Held(ths, q) == 0
    ensures InFlight(ths, q) == []
  {
    if ths != [] { NoneInFlight(ths[1..], q); }
  }

  /** A thread that holds the only token is the only one with a batch. */
  lemma {:induction false} OnlyHolder(ths: seq<Thread>, i: nat, q: nat)
    requires i < |ths| && Held(ths, q) == HeldBy(ths[i], q)
    ensures InFlight(ths, q) == InHand(ths[i], q)
  {
    if i == 0 {
      NoneInFlight(ths[1..], q);
    } else {
      HeldAtLeast(ths[1..], i - 1, q);
      OnlyHolder(ths[1..], i - 1, q);
    }
  }

  lemma {:induction false} HeldAtLeast(ths: seq<Thread>, i: nat, q: nat)
    requires i < |ths|
    ensures Held(ths, q) >= HeldBy(ths[i], q)
  {
    if i > 0 { HeldAtLeast(ths[1..], i - 1, q); }
  }

  lemma {:induction false} HeldByTwo(ths: seq<Thread>, i: nat, j: nat, q: nat)
    requires i < j < |ths|
    ensures Held(ths, q) >= HeldBy(ths[i], q) + HeldBy(ths[j], q)
  {
    if i == 0 { HeldAtLeast(ths[1..], j - 1, q); } else { HeldByTwo(ths[1..], i - 1, j - 1, q); }
  }

  lemma {:induction false} OwedAtLeast(ths: seq<Thread>, i: nat, q: nat)
    requires i < |ths|
    ensures Owed(ths, q) >= OwedBy(ths[i], q) && Owed(ths, q) >= 0
  {
    if i > 0 { OwedAtLeast(ths[1..], i - 1, q); } else { OwedNonNegative(ths[1..], q); }
  }

  lemma {:induction false} OwedNonNegative(ths: seq<Thread>, q: nat)
    ensures Owed(ths, q) >= 0
  {
    if ths != [] { OwedNonNegative(ths[1..], q); }
  }

  // ---- The invariant ---------------------------------------------------------------------

  function Tokens(s: State, q: nat): nat {
    Held(s.threads, q) + multiset(s.global)[q]
  }

  /** The counter is exact: half-done pushes, plus queued jobs, plus popped and unsubtracted ones. */
  predicate Conserved(s: State, q: nat) {
    QueueAt(s, q).count == Owed(s.threads, q) + |QueueAt(s, q).jobs|
  }

  /** A busy queue has exactly one token, an idle one none. */
  predicate SingleToken(s: State, q: nat) {
    Tokens(s, q) == if QueueAt(s, q).count > 0 then 1 else 0
  }

  /** Execution order is insertion order. */
  predicate Fifo(s: State, q: nat) {
    QueueAt(s, q).executed + InFlight(s.threads, q) + QueueAt(s, q).jobs == QueueAt(s, q).pushed
  }

  predicate QueueInv(s: State, q: nat) {
    Conserved(s, q) && SingleToken(s, q) && Fifo(s, q)
  }

  ghost predicate Inv(s: State) {
    forall q: nat :: QueueInv(s, q)
  }

  lemma {:induction false} InitialThreads(ths: seq<Thread>, q: nat)
    requires forall th <- ths :: th.run.Outside? && Settled(th)
    ensures Owed(ths, q) == 0 && Held(ths, q) == 0 && InFlight(ths, q) == []
  {
    if ths != [] { InitialThreads(ths[1..], q); }
  }

  lemma InitialInv(s: State)
    requires Initial(s)
    ensures Inv(s)
  {
    forall q: nat ensures QueueInv(s, q) { InitialThreads(s.threads, q); }
  }

  // ---- Preservation, one kind of step at a time -------------------------------------------

  /** What a step of thread `t` that starts no job has to establish for a queue. */
  lemma InvAfter(s: State, s': State, t: nat, q: nat, inserted: seq<Job>)
    requires t < |s.threads| == |s'.threads| && s'.threads == s.threads[t := s'.threads[t]] && QueueInv(s, q)
    requires InHand(s.threads[t], q) == InHand(s'.threads[t], q) && QueueAt(s', q).executed == QueueAt(s, q).executed
    requires QueueAt(s', q).jobs == QueueAt(s, q).jobs + inserted
    requires QueueAt(s', q).pushed == QueueAt(s, q).pushed + inserted
    requires QueueAt(s', q).count - OwedBy(s'.threads[t], q) ==
             QueueAt(s, q).count - OwedBy(s.threads[t], q) + |inserted|
    requires HeldBy(s'.threads[t], q) + multiset(s'.global)[q] - (if QueueAt(s', q).count > 0 then 1 else 0) ==
             HeldBy(s.threads[t], q) + multiset(s.global)[q] - (if QueueAt(s, q).count > 0 then 1 else 0)
    ensures QueueInv(s', q)
  {
    Update(s.threads, t, s'.threads[t], q);
    SameInHand(s.threads, t, s'.threads[t], q);
    AppendJobs(QueueAt(s, q).executed + InFlight(s.threads, q), QueueAt(s, q).jobs, inserted);
  }

  lemma AppendJobs(started: seq<Job>, jobs: seq<Job>, inserted: seq<Job>)
    ensures started + (jobs + inserted) == started + jobs + inserted
  {
  }

  /** A step that touches neither the queue nor this thread's shares of it. */
  lemma Untouched(s: State, s': State, t: nat, q: nat)
    requires t < |s.threads| == |s'.threads| && s'.threads == s.threads[t := s'.threads[t]]
    requires OwedBy(s.threads[t], q) == OwedBy(s'.threads[t], q)
    requires HeldBy(s.threads[t], q) == HeldBy(s'.threads[t], q)
    requires InHand(s.threads[t], q) == InHand(s'.threads[t], q)
    requires QueueAt(s, q) == QueueAt(s', q) && multiset(s.global)[q] == multiset(s'.global)[q]
    requires QueueInv(s, q)
    ensures QueueInv(s', q)
  {
    InvAfter(s, s', t, q, []);
  }

  lemma CountEffect(s: State, t: nat, q: nat)
    requires Enabled(s, Push(t)) && s.threads[t].push.NotPushing?
    ensures var s' := PushStep(s, t);
            var th, th', queue := s.threads[t], s'.threads[t], QueueAt(s, q);
            var mine := th.todo[0].queue == q;
            && |s'.threads| == |s.threads| && s'.threads == s.threads[t := th'] && s'.global == s.global
            && QueueAt(s', q) == (if mine then queue.(count := queue.count + 1) else queue)
            && OwedBy(th', q) == OwedBy(th, q) + (if mine then 1 else 0)
            && HeldBy(th', q) == HeldBy(th, q) + (if mine && queue.count == 0 then 1 else 0)
            && InHand(th', q) == InHand(th, q)
  {
  }

  lemma CountKeeps(s: State, t: nat, q: nat)
    requires Enabled(s, Push(t)) && s.threads[t].push.NotPushing? && QueueInv(s, q)
    ensures QueueInv(PushStep(s, t), q)
  {
    CountEffect(s, t, q);
    OwedNonNegative(s.threads, q);
    InvAfter(s, PushStep(s, t), t, q, []);
  }

  lemma InsertEffect(s: State, t: nat, q: nat)
    requires Enabled(s, Push(t)) && s.threads[t].push.Counted?
    ensures var s' := PushStep(s, t);
            var th, th', queue, job := s.threads[t], s'.threads[t], QueueAt(s, q), s.threads[t].push.job;
            var mine := th.push.queue == q;
            && |s'.threads| == |s.threads| && s'.threads == s.threads[t := th'] && s'.global == s.global
            && QueueAt(s', q) ==
                 (if mine then queue.(jobs := queue.jobs + [job], pushed := queue.pushed + [job]) else queue)
            && OwedBy(th', q) == OwedBy(th, q) - (if mine then 1 else 0)
            && HeldBy(th', q) == HeldBy(th, q) && InHand(th', q) == InHand(th, q)
  {
  }

  lemma InsertKeeps(s: State, t: nat, q: nat)
    requires Enabled(s, Push(t)) && s.threads[t].push.Counted? && QueueInv(s, q)
    ensures QueueInv(PushStep(s, t), q)
  {
    InsertEffect(s, t, q);
    if s.threads[t].push.queue == q {
      InvAfter(s, PushStep(s, t), t, q, [s.threads[t].push.job]);
    } else {
      Untouched(s, PushStep(s, t), t, q);
    }
  }

  lemma PublishKeeps(s: State, t: nat, q: nat)
    requires Enabled(s, Push(t)) && s.threads[t].push.Publishing? && QueueInv(s, q)
    ensures QueueInv(PushStep(s, t), q)
  {
    assert multiset(PushStep(s, t).global) == multiset(s.global) + multiset{s.threads[t].push.queue};
    InvAfter(s, PushStep(s, t), t, q, []);
  }

  lemma PopKeeps(s: State, t: nat, q: nat)
    requires Enabled(s, Pop(t)) && QueueInv(s, q)
    ensures QueueInv(PopStep(s, t), q)
  {
    assert s.global == [s.global[0]] + PopStep(s, t).global;
    InvAfter(s, PopStep(s, t), t, q, []);
  }

  lemma ExecuteElsewhere(s: State, t: nat, expired: bool, q: nat)
    requires Enabled(s, Execute(t, expired)) && s.threads[t].run.queue != q
    ensures var s' := ExecuteStep(s, t, expired);
            && |s'.threads| == |s.threads| && s'.threads == s.threads[t := s'.threads[t]]
            && QueueAt(s, q) == QueueAt(s', q) && multiset(s.global)[q] == multiset(s'.global)[q]
  {
    var run := s.threads[t].run;
    if run.Requeueing? {
      assert multiset(ExecuteStep(s, t, expired).global) == multiset(s.global) + multiset{run.queue};
    }
  }

  lemma NoShareElsewhere(s: State, t: nat, expired: bool, q: nat)
    requires Enabled(s, Execute(t, expired)) && s.threads[t].run.queue != q
    ensures var th, th' := s.threads[t], ExecuteStep(s, t, expired).threads[t];
            OwedBy(th, q) == OwedBy(th', q) && HeldBy(th, q) == HeldBy(th', q) && InHand(th, q) == InHand(th', q)
  {
  }

  lemma OtherQueueKeeps(s: State, t: nat, expired: bool, q: nat)
    requires Enabled(s, Execute(t, expired)) && s.threads[t].run.queue != q && QueueInv(s, q)
    ensures QueueInv(ExecuteStep(s, t, expired), q)
  {
    ExecuteElsewhere(s, t, expired, q);
    NoShareElsewhere(s, t, expired, q);
    Untouched(s, ExecuteStep(s, t, expired), t, q);
  }

  /** A step of the thread that drains the queue only moves jobs along. */
  lemma HolderAfter(s: State, s': State, t: nat, q: nat)
    requires t < |s.threads| == |s'.threads| && s'.threads == s.threads[t := s'.threads[t]] && QueueInv(s, q)
    requires s'.global == s.global && HeldBy(s'.threads[t], q) == HeldBy(s.threads[t], q) >= 1
    requires QueueAt(s', q).count == QueueAt(s, q).count && QueueAt(s', q).pushed == QueueAt(s, q).pushed
    requires OwedBy(s'.threads[t], q) + |QueueAt(s', q).jobs| == OwedBy(s.threads[t], q) + |QueueAt(s, q).jobs|
    requires QueueAt(s', q).executed + InHand(s'.threads[t], q) + QueueAt(s', q).jobs ==
             QueueAt(s, q).executed + InHand(s.threads[t], q) + QueueAt(s, q).jobs
    ensures QueueInv(s', q)
  {
    Update(s.threads, t, s'.threads[t], q);
    HeldAtLeast(s.threads, t, q);
    OnlyHolder(s.threads, t, q);
    OnlyHolder(s'.threads, t, q);
  }

  lemma PopAllEffect(s: State, t: nat, expired: bool, q: nat)
    requires Enabled(s, Execute(t, expired)) && s.threads[t].run == Entered(q)
    ensures var s' := ExecuteStep(s, t, expired);
            var th, th', queue := s.threads[t], s'.threads[t], QueueAt(s, q);
            && |s'.threads| == |s.threads| && s'.threads == s.threads[t := th'] && s'.global == s.global
            && QueueAt(s', q) == queue.(jobs := [])
            && OwedBy(th', q) == OwedBy(th, q) + |queue.jobs| && HeldBy(th', q) == HeldBy(th, q) >= 1
            && InHand(th, q) == [] && InHand(th', q) == queue.jobs
  {
  }

  lemma PopAllKeeps(s: State, t: nat, expired: bool, q: nat)
    requires Enabled(s, Execute(t, expired)) && s.threads[t].run == Entered(q) && QueueInv(s, q)
    ensures QueueInv(ExecuteStep(s, t, expired), q)
  {
    var s' := ExecuteStep(s, t, expired);
    PopAllEffect(s, t, expired, q);
    var queue := QueueAt(s, q);
    assert queue.executed + [] + queue.jobs == queue.executed + queue.jobs + [];
    HolderAfter(s, s', t, q);
  }

  lemma StartJobEffect(s: State, t: nat, expired: bool, q: nat)
    requires Enabled(s, Execute(t, expired))
    requires s.threads[t].run.Batch? && s.threads[t].run.queue == q && s.threads[t].run.rest != []
    ensures var s' := ExecuteStep(s, t, expired);
            var th, th', rest, queue := s.threads[t], s'.threads[t], s.threads[t].run.rest, QueueAt(s, q);
            && |s'.threads| == |s.threads| && s'.threads == s.threads[t := th'] && s'.global == s.global
            && QueueAt(s', q) == queue.(executed := queue.executed + [rest[0]])
            && OwedBy(th', q) == OwedBy(th, q) && HeldBy(th', q) == HeldBy(th, q) >= 1
            && InHand(th, q) == rest && InHand(th', q) == rest[1..]
  {
  }

  lemma StartFirst(executed: seq<Job>, rest: seq<Job>, jobs: seq<Job>)
    requires rest != []
    ensures executed + [rest[0]] + rest[1..] + jobs == executed + rest + jobs
  {
    assert [rest[0]] + rest[1..] == rest;
  }

  lemma StartJobKeeps(s: State, t: nat, expired: bool, q: nat)
    requires Enabled(s, Execute(t, expired)) && QueueInv(s, q)
    requires s.threads[t].run.Batch? && s.threads[t].run.queue == q && s.threads[t].run.rest != []
    ensures QueueInv(ExecuteStep(s, t, expired), q)
  {
    var s' := ExecuteStep(s, t, expired);
    var rest, queue := s.threads[t].run.rest, QueueAt(s, q);
    StartJobEffect(s, t, expired, q);
    StartFirst(queue.executed, rest, queue.jobs);
    HolderAfter(s, s', t, q);
  }

  /** The fetch_sub at the end of a batch: retiring happens only with nothing queued and no push half done. */
  lemma SubtractKeeps(s: State, t: nat, expired: bool, q: nat)
    requires Enabled(s, Execute(t, expired)) && QueueInv(s, q)
    requires s.threads[t].run.Batch? && s.threads[t].run.queue == q && s.threads[t].run.rest == []
    ensures QueueInv(ExecuteStep(s, t, expired), q)
  {
    var th' := ExecuteStep(s, t, expired).threads[t];
    Update(s.threads, t, th', q);
    HeldAtLeast(s.threads, t, q);
    OwedAtLeast(s.threads, t, q);
    SameInHand(s.threads, t, th', q);
  }

  lemma TickKeeps(s: State, t: nat, expired: bool, q: nat)
    requires Enabled(s, Execute(t, expired)) && QueueInv(s, q) && s.threads[t].run == Checking(q)
    ensures QueueInv(ExecuteStep(s, t, expired), q)
  {
    Untouched(s, ExecuteStep(s, t, expired), t, q);
  }

  lemma RequeueKeeps(s: State, t: nat, expired: bool, q: nat)
    requires Enabled(s, Execute(t, expired)) && QueueInv(s, q) && s.threads[t].run == Requeueing(q)
    ensures QueueInv(ExecuteStep(s, t, expired), q)
  {
    assert multiset(ExecuteStep(s, t, expired).global) == multiset(s.global) + multiset{q};
    InvAfter(s, ExecuteStep(s, t, expired), t, q, []);
  }

  lemma DispatchKeeps(s: State, t: nat, posts: seq<Post>, q: nat)
    requires Enabled(s, Dispatch(t, posts)) && QueueInv(s, q)
    ensures QueueInv(Next(s, Dispatch(t, posts)), q)
  {
    Untouched(s, Next(s, Dispatch(t, posts)), t, q);
  }

  lemma StepKeepsInv(s: State, a: Action)
    requires Inv(s) && Enabled(s, a)
    ensures Inv(Next(s, a))
  {
    forall q: nat ensures QueueInv(Next(s, a), q) {
      assert QueueInv(s, q);
      match a
      case Push(t) =>
        match s.threads[t].push {
          case NotPushing => CountKeeps(s, t, q);
          case Counted(_, _, _) => InsertKeeps(s, t, q);
          case Publishing(_) => PublishKeeps(s, t, q);
        }
      case Pop(t) => PopKeeps(s, t, q);
      case Execute(t, expired) =>
        match s.threads[t].run {
          case Entered(p) => if p == q { PopAllKeeps(s, t, expired, q); } else { OtherQueueKeeps(s, t, expired, q); }
          case Batch(p, rest, _) =>
            if p != q { OtherQueueKeeps(s, t, expired, q); }
            else if rest != [] { StartJobKeeps(s, t, expired, q); }
            else { SubtractKeeps(s, t, expired, q); }
          case Checking(p) => if p == q { TickKeeps(s, t, expired, q); } else { OtherQueueKeeps(s, t, expired, q); }
          case Requeueing(p) =>
            if p == q { RequeueKeeps(s, t, expired, q); } else { OtherQueueKeeps(s, t, expired, q); }
        }
      case Dispatch(t, posts) => DispatchKeeps(s, t, posts, q);
    }
  }

  /** Every run of any number of pushers and workers, under any schedule. */
  lemma {:induction false} RunKeepsInv(s: State, acts: seq<Action>)
    requires Inv(s)
    ensures Inv(Run(s, acts))
    decreases |acts|
  {
    if acts != [] {
      if Enabled(s, acts[0]) {
        StepKeepsInv(s, acts[0]);
        RunKeepsInv(Next(s, acts[0]), acts[1..]);
      } else {
        RunKeepsInv(s, acts[1..]);
      }
    }
  }

  // ---- What the invariant means ------------------------------------------------------------

  predicate Inside(th: Thread, q: nat) {
    !th.run.Outside? && th.run.queue == q
  }

  predicate AboutToPublish(th: Thread, q: nat) {
    || (th.push.Counted? && th.push.queue == q && th.push.prev == 0)
    || (th.push.Publishing? && th.push.queue == q)
  }

  /** At most one worker is draining `q`, and then `q` is neither in the global queue nor about to enter it;
      it is never in the global queue twice, and never published by two pushers. */
  predicate SingleRunner(s: State, q: nat) {
    && (forall i, j :: 0 <= i < j < |s.threads| ==> !(Inside(s.threads[i], q) && Inside(s.threads[j], q)))
    && (forall i, j :: 0 <= i < j < |s.threads| ==>
          !(AboutToPublish(s.threads[i], q) && AboutToPublish(s.threads[j], q)))
    && (forall i, j :: 0 <= i < |s.threads| && 0 <= j < |s.threads| ==>
          !(Inside(s.threads[i], q) && AboutToPublish(s.threads[j], q)))
    && (forall i :: 0 <= i < |s.threads| && (Inside(s.threads[i], q) || AboutToPublish(s.threads[i], q)) ==>
          q !in s.global)
    && multiset(s.global)[q] <= 1
  }

  /** Work is never orphaned: somebody is responsible for the queue exactly while its counter is positive. */
  predicate Owned(s: State, q: nat) {
    QueueAt(s, q).count > 0 <==>
      q in s.global || exists i :: 0 <= i < |s.threads| && (Inside(s.threads[i], q) || AboutToPublish(s.threads[i], q))
  }

  lemma {:induction false} HeldWitness(ths: seq<Thread>, q: nat)
    requires Held(ths, q) > 0
    ensures exists i :: 0 <= i < |ths| && (Inside(ths[i], q) || AboutToPublish(ths[i], q))
  {
    if HeldBy(ths[0], q) > 0 {
      assert Inside(ths[0], q) || AboutToPublish(ths[0], q);
    } else {
      HeldWitness(ths[1..], q);
      var i :| 0 <= i < |ths[1..]| && (Inside(ths[1..][i], q) || AboutToPublish(ths[1..][i], q));
      assert ths[i + 1] == ths[1..][i];
    }
  }

  lemma TokenIsSingle(s: State, q: nat)
    requires QueueInv(s, q)
    ensures SingleRunner(s, q)
  {
    forall i, j | 0 <= i < j < |s.threads| ensures HeldBy(s.threads[i], q) + HeldBy(s.threads[j], q) <= 1 {
      HeldByTwo(s.threads, i, j, q);
    }
    forall i | 0 <= i < |s.threads| ensures HeldBy(s.threads[i], q) + multiset(s.global)[q] <= 1 {
      HeldAtLeast(s.threads, i, q);
    }
  }

  lemma BusyIsOwned(s: State, q: nat)
    requires QueueInv(s, q)
    ensures Owned(s, q)
  {
    if i :| 0 <= i < |s.threads| && (Inside(s.threads[i], q) || AboutToPublish(s.threads[i], q)) {
      HeldAtLeast(s.threads, i, q);
      assert QueueAt(s, q).count > 0;
    } else if QueueAt(s, q).count > 0 && q !in s.global {
      HeldWitness(s.threads, q);
    } else if q in s.global {
      assert multiset(s.global)[q] > 0;
    }
  }

  /** Over all runs from start-up: single runner, exact counter, FIFO, no orphaned work. */
  lemma ReachableStates(s0: State, acts: seq<Action>, q: nat)
    requires Initial(s0)
    ensures var s := Run(s0, acts);
            SingleRunner(s, q) && Owned(s, q) && Conserved(s, q) && Fifo(s, q)
  {
    InitialInv(s0);
    RunKeepsInv(s0, acts);
    TokenIsSingle(Run(s0, acts), q);
    BusyIsOwned(Run(s0, acts), q);
  }

  /** Execute retires exactly when nothing is queued and no push is half done. */
  lemma RetiresOnlyWhenEmpty(s: State, t: nat, expired: bool)
    requires Enabled(s, Execute(t, expired)) && s.threads[t].run.Batch? && s.threads[t].run.rest == []
    requires QueueInv(s, s.threads[t].run.queue)
    ensures var q := s.threads[t].run.queue;
            ExecuteStep(s, t, expired).threads[t].run.Outside? <==>
              QueueAt(s, q).jobs == [] &&
              forall u :: 0 <= u < |s.threads| ==> !(s.threads[u].push.Counted? && s.threads[u].push.queue == q)
  {
    var th, q := s.threads[t], s.threads[t].run.queue;
    var th' := th.(run := Outside);
    Update(s.threads, t, th', q);
    assert Owed(s.threads[t := th'], q) + |QueueAt(s, q).jobs| == QueueAt(s, q).count - th.run.size;
    OwedNonNegative(s.threads[t := th'], q);
    if Owed(s.threads[t := th'], q) == 0 {
      forall u | 0 <= u < |s.threads|
        ensures !(s.threads[u].push.Counted? && s.threads[u].push.queue == q)
      {
        OwedAtLeast(s.threads[t := th'], u, q);
      }
    } else {
      OnlyBatch(s, t, q);
      PendingPusher(s.threads[t := th'], q);
    }
  }

  /** The counter owes something although no batch is out: some push is half done. */
  lemma {:induction false} PendingPusher(ths: seq<Thread>, q: nat)
    requires Owed(ths, q) > 0
    requires forall th <- ths :: !(th.run.Batch? && th.run.queue == q)
    ensures exists u :: 0 <= u < |ths| && ths[u].push.Counted? && ths[u].push.queue == q
  {
    if !(ths[0].push.Counted? && ths[0].push.queue == q) {
      PendingPusher(ths[1..], q);
      var u :| 0 <= u < |ths[1..]| && ths[1..][u].push.Counted? && ths[1..][u].push.queue == q;
      assert ths[u + 1] == ths[1..][u];
    }
  }

  lemma OnlyBatch(s: State, t: nat, q: nat)
    requires QueueInv(s, q) && t < |s.threads| && Inside(s.threads[t], q)
    ensures forall u :: 0 <= u < |s.threads| && u != t ==> !Inside(s.threads[u], q)
  {
    TokenIsSingle(s, q);
  }

  /** A push to a queue that is being drained (in particular by the draining job itself) never publishes it. */
  lemma PushWhileDrainingIsQuiet(s: State, t: nat, u: nat)
    requires Enabled(s, Push(t)) && s.threads[t].push.NotPushing? && u < |s.threads|
    requires Inside(s.threads[u], s.threads[t].todo[0].queue)
    requires QueueInv(s, s.threads[t].todo[0].queue)
    ensures !AboutToPublish(PushStep(s, t).threads[t], s.threads[t].todo[0].queue)
  {
    HeldAtLeast(s.threads, u, s.threads[t].todo[0].queue);
  }
}

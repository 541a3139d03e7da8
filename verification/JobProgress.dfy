/** Termination of the scheduler: a measure that every step but an empty drain decreases,
    and what a state without enabled steps looks like. */
module JobProgress {
  import opened JobProtocol
  import opened JobSafety

  // ---- Work still to be done ---------------------------------------------------------------

  /** Steps that running a job can still cause, spawned jobs included. */
  function JobWork(job: Job): nat
    decreases job
  {
    1 + PostsWork(job.posts)
  }

  function PostsWork(posts: seq<Post>): nat
    decreases posts
  {
    if posts == [] then 0 else PostWork(posts[0]) + PostsWork(posts[1..])
  }

  function PostWork(post: Post): nat
    decreases post
  {
    JobWork(post.job) + 10
  }

  function JobsWork(jobs: seq<Job>, each: nat): nat {
    if jobs == [] then 0 else JobWork(jobs[0]) + each + JobsWork(jobs[1..], each)
  }

  /** Distance from the next PopAll, counted along Batch, Checking, Requeueing, global queue, Entered. */
  function ThreadWork(th: Thread): nat {
    PostsWork(th.todo)
    + (match th.push
       case NotPushing => 0
       case Counted(_, job, _) => JobWork(job) + 9
       case Publishing(_) => 3)
    + (match th.run
       case Outside => 0
       case Entered(_) => 1
       case Batch(_, rest, _) => 5 + JobsWork(rest, 0)
       case Checking(_) => 4
       case Requeueing(_) => 3)
  }

  function ThreadsWork(ths: seq<Thread>): nat {
    if ths == [] then 0 else ThreadWork(ths[0]) + ThreadsWork(ths[1..])
  }

  ghost function QueuesWork(queues: map<nat, Queue>): nat
    decreases |queues|
  {
    if queues == map[] then 0
    else var q :| q in queues; JobsWork(queues[q].jobs, 5) + QueuesWork(queues - {q})
  }

  ghost function Work(s: State): nat {
    ThreadsWork(s.threads) + QueuesWork(s.queues) + 2 * |s.global|
  }

  // ---- Sums under updates -------------------------------------------------------------------

  lemma {:induction false} JobsWorkAppend(jobs: seq<Job>, job: Job, each: nat)
    ensures JobsWork(jobs + [job], each) == JobsWork(jobs, each) + JobWork(job) + each
  {
    if jobs != [] {
      assert (jobs + [job])[1..] == jobs[1..] + [job];
      JobsWorkAppend(jobs[1..], job, each);
    }
  }

  lemma {:induction false} JobsWorkEach(jobs: seq<Job>, each: nat)
    ensures JobsWork(jobs, each) == JobsWork(jobs, 0) + each * |jobs|
  {
    if jobs != [] { JobsWorkEach(jobs[1..], each); }
  }

  lemma {:induction false} ThreadsWorkUpdate(ths: seq<Thread>, i: nat, th: Thread)
    requires i < |ths|
    ensures ThreadsWork(ths[i := th]) == ThreadsWork(ths) - ThreadWork(ths[i]) + ThreadWork(th)
  {
    if i > 0 {
      assert ths[i := th][1..] == ths[1..][i - 1 := th];
      ThreadsWorkUpdate(ths[1..], i - 1, th);
    }
  }

  lemma {:induction false} QueuesWorkTake(queues: map<nat, Queue>, q: nat)
    requires q in queues
    ensures QueuesWork(queues) == JobsWork(queues[q].jobs, 5) + QueuesWork(queues - {q})
    decreases |queues|
  {
    var p :| p in queues && QueuesWork(queues) == JobsWork(queues[p].jobs, 5) + QueuesWork(queues - {p});
    if p != q {
      QueuesWorkTake(queues - {p}, q);
      QueuesWorkTake(queues - {q}, p);
      assert queues - {p} - {q} == queues - {q} - {p};
    }
  }

  lemma QueuesWorkUpdate(s: State, q: nat, queue: Queue)
    ensures QueuesWork(SetQueue(s, q, queue).queues) ==
            QueuesWork(s.queues) - JobsWork(QueueAt(s, q).jobs, 5) + JobsWork(queue.jobs, 5)
  {
    var queues' := s.queues[q := queue];
    QueuesWorkTake(queues', q);
    assert queues' - {q} == s.queues - {q};
    if q in s.queues {
      QueuesWorkTake(s.queues, q);
    } else {
      assert s.queues - {q} == s.queues;
    }
  }

  // ---- The measure --------------------------------------------------------------------------

  /** PopAll on a queue whose every counted job is still on its way. */
  predicate EmptyDrain(s: State, a: Action) {
    a.Execute? && Enabled(s, a) && s.threads[a.t].run.Entered? && QueueAt(s, s.threads[a.t].run.queue).jobs == []
  }

  lemma CountDecreases(s: State, t: nat)
    requires Enabled(s, Push(t)) && s.threads[t].push.NotPushing?
    ensures Work(PushStep(s, t)) < Work(s)
  {
    var th, s' := s.threads[t], PushStep(s, t);
    var post := th.todo[0];
    ThreadsWorkUpdate(s.threads, t, s'.threads[t]);
    QueuesWorkUpdate(s, post.queue, QueueAt(s', post.queue));
    assert PostsWork(th.todo) == PostWork(post) + PostsWork(th.todo[1..]);
  }

  lemma InsertDecreases(s: State, t: nat)
    requires Enabled(s, Push(t)) && s.threads[t].push.Counted?
    ensures Work(PushStep(s, t)) < Work(s)
  {
    var push, s' := s.threads[t].push, PushStep(s, t);
    ThreadsWorkUpdate(s.threads, t, s'.threads[t]);
    QueuesWorkUpdate(s, push.queue, QueueAt(s', push.queue));
    JobsWorkAppend(QueueAt(s, push.queue).jobs, push.job, 5);
  }

  lemma PopAllWork(s: State, t: nat, expired: bool)
    requires Enabled(s, Execute(t, expired)) && s.threads[t].run.Entered?
    ensures EmptyDrain(s, Execute(t, expired)) ==> Work(ExecuteStep(s, t, expired)) == Work(s) + 4
    ensures !EmptyDrain(s, Execute(t, expired)) ==> Work(ExecuteStep(s, t, expired)) < Work(s)
  {
    var q, s' := s.threads[t].run.queue, ExecuteStep(s, t, expired);
    ThreadsWorkUpdate(s.threads, t, s'.threads[t]);
    QueuesWorkUpdate(s, q, QueueAt(s', q));
    JobsWorkEach(QueueAt(s, q).jobs, 5);
  }

  lemma BatchDecreases(s: State, t: nat, expired: bool)
    requires Enabled(s, Execute(t, expired)) && s.threads[t].run.Batch?
    ensures Work(ExecuteStep(s, t, expired)) < Work(s)
  {
    var q, s' := s.threads[t].run.queue, ExecuteStep(s, t, expired);
    ThreadsWorkUpdate(s.threads, t, s'.threads[t]);
    QueuesWorkUpdate(s, q, QueueAt(s', q));
  }

  lemma ControlDecreases(s: State, a: Action)
    requires Enabled(s, a)
    requires a.Pop? || (a.Push? && s.threads[a.t].push.Publishing?)
          || (a.Execute? && (s.threads[a.t].run.Checking? || s.threads[a.t].run.Requeueing?))
    ensures Work(Next(s, a)) < Work(s)
  {
    ThreadsWorkUpdate(s.threads, a.t, Next(s, a).threads[a.t]);
  }

  /** Every step of the scheduler brings the end nearer, except a drain that finds nothing,
      and that happens only while some pusher stands between its fetch_add and its m_jobs.Push. */
  lemma StepDecreases(s: State, a: Action)
    requires Enabled(s, a) && !a.Dispatch? && Inv(s)
    ensures !EmptyDrain(s, a) ==> Work(Next(s, a)) < Work(s)
    ensures EmptyDrain(s, a) ==> Work(Next(s, a)) == Work(s) + 4
    ensures EmptyDrain(s, a) ==>
              exists u :: 0 <= u < |s.threads| && s.threads[u].push.Counted? &&
                          s.threads[u].push.queue == s.threads[a.t].run.queue
  {
    match a
    case Push(t) =>
      match s.threads[t].push {
        case NotPushing => CountDecreases(s, t);
        case Counted(_, _, _) => InsertDecreases(s, t);
        case Publishing(_) => ControlDecreases(s, a);
      }
    case Pop(_) => ControlDecreases(s, a);
    case Execute(t, expired) =>
      match s.threads[t].run {
        case Entered(q) =>
          PopAllWork(s, t, expired);
          if QueueAt(s, q).jobs == [] { DrainsEmptyOnlyWhilePushing(s, t, q); }
        case Batch(_, _, _) => BatchDecreases(s, t, expired);
        case Checking(_) => ControlDecreases(s, a);
        case Requeueing(_) => ControlDecreases(s, a);
      }
  }

  lemma DrainsEmptyOnlyWhilePushing(s: State, t: nat, q: nat)
    requires QueueInv(s, q) && t < |s.threads| && s.threads[t].run == Entered(q) && QueueAt(s, q).jobs == []
    ensures exists u :: 0 <= u < |s.threads| && s.threads[u].push.Counted? && s.threads[u].push.queue == q
  {
    HeldAtLeast(s.threads, t, q);
    OnlyBatch(s, t, q);
    PendingPusher(s.threads, q);
  }

  // ---- Whole runs ---------------------------------------------------------------------------

  /** Steps performed and empty drains met by a run without new outside pushes. */
  function Performed(s: State, acts: seq<Action>): nat
    decreases |acts|
  {
    if acts == [] then 0
    else if Enabled(s, acts[0]) then 1 + Performed(Next(s, acts[0]), acts[1..])
    else Performed(s, acts[1..])
  }

  function EmptyDrains(s: State, acts: seq<Action>): nat
    decreases |acts|
  {
    if acts == [] then 0
    else (if EmptyDrain(s, acts[0]) then 1 else 0) +
         EmptyDrains(if Enabled(s, acts[0]) then Next(s, acts[0]) else s, acts[1..])
  }

  /** Any schedule performs at most `Work(s)` steps, plus five for each drain that found nothing. */
  lemma {:induction false} RunsAreBounded(s: State, acts: seq<Action>)
    requires Inv(s) && forall a <- acts :: !a.Dispatch?
    ensures Performed(s, acts) + Work(Run(s, acts)) <= Work(s) + 5 * EmptyDrains(s, acts)
    decreases |acts|
  {
    if acts != [] {
      if Enabled(s, acts[0]) {
        StepDecreases(s, acts[0]);
        StepKeepsInv(s, acts[0]);
        RunsAreBounded(Next(s, acts[0]), acts[1..]);
      } else {
        RunsAreBounded(s, acts[1..]);
      }
    }
  }

  /** No thread can move any more, other than to bring new work from outside. */
  predicate Quiescent(s: State) {
    forall t :: 0 <= t < |s.threads| ==>
      !Enabled(s, Push(t)) && !Enabled(s, Pop(t)) && !Enabled(s, Execute(t, false))
  }

  lemma QuiescentThreads(s: State)
    requires Quiescent(s) && exists th <- s.threads :: th.worker
    ensures s.global == [] && forall th <- s.threads :: th.run.Outside? && Settled(th)
  {
    forall th | th in s.threads ensures th.run.Outside? && Settled(th) {
      var t :| 0 <= t < |s.threads| && s.threads[t] == th;
      assert !Enabled(s, Push(t)) && !Enabled(s, Execute(t, false));
    }
    var w :| 0 <= w < |s.threads| && s.threads[w].worker;
    assert !Enabled(s, Pop(w));
  }

  lemma IdleQueue(s: State, q: nat)
    requires QueueInv(s, q) && s.global == [] && Owed(s.threads, q) == 0 && Held(s.threads, q) == 0
    requires InFlight(s.threads, q) == []
    ensures QueueAt(s, q).count == 0 && QueueAt(s, q).jobs == [] && QueueAt(s, q).executed == QueueAt(s, q).pushed
  {
  }

  /** When nothing can move, everything is done: no queue is busy or published,
      and each queue has executed exactly the jobs pushed to it, once each and in order. */
  lemma QuiescentIsDone(s: State, q: nat)
    requires QueueInv(s, q) && Quiescent(s) && exists th <- s.threads :: th.worker
    ensures s.global == []
    ensures QueueAt(s, q).count == 0 && QueueAt(s, q).jobs == []
    ensures QueueAt(s, q).executed == QueueAt(s, q).pushed
    ensures forall th <- s.threads :: th.run.Outside? && Settled(th)
  {
    QuiescentThreads(s);
    InitialThreads(s.threads, q);
    IdleQueue(s, q);
  }
}

/** No push is lost: how often each job is pushed, and in the end executed, is how often outside code and the executed
    jobs asked for it. */
module JobPosts {
  import opened JobProtocol
  import opened JobSafety
  import opened JobProgress

  // ---- How often a job is posted -----------------------------------------------------------------------

  /** How often these posts push `job` to queue `q`. */
  function Times(posts: seq<Post>, q: nat, job: Job): nat {
    if posts == [] then 0 else (if posts[0] == Post(q, job) then 1 else 0) + Times(posts[1..], q, job)
  }

  /** How often running these jobs does. */
  function TimesBy(jobs: seq<Job>, q: nat, job: Job): nat {
    if jobs == [] then 0 else Times(jobs[0].posts, q, job) + TimesBy(jobs[1..], q, job)
  }

  lemma {:induction false} TimesByAppend(jobs: seq<Job>, last: Job, q: nat, job: Job)
    ensures TimesBy(jobs + [last], q, job) == TimesBy(jobs, q, job) + Times(last.posts, q, job)
  {
    if jobs != [] {
      assert (jobs + [last])[1..] == jobs[1..] + [last];
      TimesByAppend(jobs[1..], last, q, job);
    }
  }

  /** How often a thread has still to push it: counted and not inserted, or not yet begun. */
  function Coming(th: Thread, q: nat, job: Job): nat {
    (if th.push.Counted? && th.push.queue == q && th.push.job == job then 1 else 0) + Times(th.todo, q, job)
  }

  function AllComing(ths: seq<Thread>, q: nat, job: Job): nat {
    if ths == [] then 0 else Coming(ths[0], q, job) + AllComing(ths[1..], q, job)
  }

  lemma {:induction false} ComingUpdate(ths: seq<Thread>, i: nat, th: Thread, q: nat, job: Job)
    requires i < |ths|
    ensures AllComing(ths[i := th], q, job) + Coming(ths[i], q, job) == AllComing(ths, q, job) + Coming(th, q, job)
  {
    if i > 0 {
      assert ths[i := th][1..] == ths[1..][i - 1 := th];
      ComingUpdate(ths[1..], i - 1, th, q, job);
    }
  }

  lemma {:induction false} NothingComing(ths: seq<Thread>, q: nat, job: Job)
    requires forall th <- ths :: Settled(th)
    ensures AllComing(ths, q, job) == 0
  {
    if ths != [] {
      assert ths[0] in ths;
      NothingComing(ths[1..], q, job);
    }
  }

  // ---- Sums over all queues ----------------------------------------------------------------------------

  ghost function Total(queues: map<nat, Queue>, f: (nat, Queue) -> nat): nat
    decreases |queues|
  {
    if queues == map[] then 0 else var p :| p in queues; f(p, queues[p]) + Total(queues - {p}, f)
  }

  lemma {:induction false} TotalTake(queues: map<nat, Queue>, q: nat, f: (nat, Queue) -> nat)
    requires q in queues
    ensures Total(queues, f) == f(q, queues[q]) + Total(queues - {q}, f)
    decreases |queues|
  {
    var p :| p in queues && Total(queues, f) == f(p, queues[p]) + Total(queues - {p}, f);
    if p != q {
      TotalTake(queues - {p}, q, f);
      TotalTake(queues - {q}, p, f);
      assert queues - {p} - {q} == queues - {q} - {p};
    }
  }

  lemma TotalUpdate(s: State, q: nat, queue: Queue, f: (nat, Queue) -> nat)
    requires f(q, NEW_QUEUE) == 0
    ensures Total(SetQueue(s, q, queue).queues, f) + f(q, QueueAt(s, q)) == Total(s.queues, f) + f(q, queue)
  {
    var queues' := s.queues[q := queue];
    TotalTake(queues', q, f);
    assert queues' - {q} == s.queues - {q};
    if q in s.queues {
      TotalTake(s.queues, q, f);
    } else {
      assert s.queues - {q} == s.queues;
    }
  }

  lemma {:induction false} TotalNothing(queues: map<nat, Queue>, f: (nat, Queue) -> nat)
    requires forall p <- queues :: f(p, queues[p]) == 0
    ensures Total(queues, f) == 0
    decreases |queues|
  {
    if queues != map[] {
      var p :| p in queues && Total(queues, f) == f(p, queues[p]) + Total(queues - {p}, f);
      TotalNothing(queues - {p}, f);
    }
  }

  // ---- Every push asked for is made ----------------------------------------------------------------------

  function PostsExecuted(q: nat, job: Job): (nat, Queue) -> nat {
    (p: nat, queue: Queue) => TimesBy(queue.executed, q, job)
  }

  /** Pushed to `q`, or on the way there. */
  function Answered(s: State, q: nat, job: Job): nat {
    multiset(QueueAt(s, q).pushed)[job] + AllComing(s.threads, q, job)
  }

  /** Asked for by the jobs executed so far. */
  ghost function AskedByJobs(s: State, q: nat, job: Job): nat {
    Total(s.queues, PostsExecuted(q, job))
  }

  function AskedOutside(a: Action, q: nat, job: Job): nat {
    if a.Dispatch? then Times(a.posts, q, job) else 0
  }

  /** By the Dispatch actions a run performs. */
  function Dispatched(s: State, acts: seq<Action>, q: nat, job: Job): nat
    decreases |acts|
  {
    if acts == [] then 0
    else if Enabled(s, acts[0]) then AskedOutside(acts[0], q, job) + Dispatched(Next(s, acts[0]), acts[1..], q, job)
    else Dispatched(s, acts[1..], q, job)
  }

  lemma PushAnswers(s: State, t: nat, q: nat, job: Job)
    requires Enabled(s, Push(t))
    ensures Answered(PushStep(s, t), q, job) == Answered(s, q, job)
  {
    ComingUpdate(s.threads, t, PushStep(s, t).threads[t], q, job);
  }

  lemma PushAsksNothing(s: State, t: nat, q: nat, job: Job)
    requires Enabled(s, Push(t))
    ensures AskedByJobs(PushStep(s, t), q, job) == AskedByJobs(s, q, job)
  {
    var th, s' := s.threads[t], PushStep(s, t);
    match th.push
    case NotPushing =>
      var p := th.todo[0].queue;
      TotalUpdate(s, p, QueueAt(s', p), PostsExecuted(q, job));
    case Counted(p, _, _) =>
      TotalUpdate(s, p, QueueAt(s', p), PostsExecuted(q, job));
    case Publishing(_) =>
  }

  lemma StartJobAsks(s: State, t: nat, expired: bool, q: nat, job: Job)
    requires Enabled(s, Execute(t, expired)) && s.threads[t].run.Batch? && s.threads[t].run.rest != []
    ensures var s', posts := ExecuteStep(s, t, expired), s.threads[t].run.rest[0].posts;
            && Answered(s', q, job) == Answered(s, q, job) + Times(posts, q, job)
            && AskedByJobs(s', q, job) == AskedByJobs(s, q, job) + Times(posts, q, job)
  {
    var p, s' := s.threads[t].run.queue, ExecuteStep(s, t, expired);
    ComingUpdate(s.threads, t, s'.threads[t], q, job);
    TimesByAppend(QueueAt(s, p).executed, s.threads[t].run.rest[0], q, job);
    TotalUpdate(s, p, QueueAt(s', p), PostsExecuted(q, job));
  }

  lemma ExecuteAsksNothingElse(s: State, t: nat, expired: bool, q: nat, job: Job)
    requires Enabled(s, Execute(t, expired)) && !(s.threads[t].run.Batch? && s.threads[t].run.rest != [])
    ensures var s' := ExecuteStep(s, t, expired);
            Answered(s', q, job) == Answered(s, q, job) && AskedByJobs(s', q, job) == AskedByJobs(s, q, job)
  {
    var run, s' := s.threads[t].run, ExecuteStep(s, t, expired);
    ComingUpdate(s.threads, t, s'.threads[t], q, job);
    if run.Entered? || run.Batch? { TotalUpdate(s, run.queue, QueueAt(s', run.queue), PostsExecuted(q, job)); }
  }

  /** A step asks for exactly as much as it adds to what is pushed or about to be. */
  lemma StepAnswers(s: State, a: Action, q: nat, job: Job)
    requires Enabled(s, a)
    ensures Answered(Next(s, a), q, job) + AskedByJobs(s, q, job) ==
            Answered(s, q, job) + AskedByJobs(Next(s, a), q, job) + AskedOutside(a, q, job)
  {
    match a
    case Push(t) =>
      PushAnswers(s, t, q, job);
      PushAsksNothing(s, t, q, job);
    case Pop(t) => ComingUpdate(s.threads, t, Next(s, a).threads[t], q, job);
    case Execute(t, expired) =>
      if s.threads[t].run.Batch? && s.threads[t].run.rest != [] { StartJobAsks(s, t, expired, q, job); }
      else { ExecuteAsksNothingElse(s, t, expired, q, job); }
    case Dispatch(t, posts) => ComingUpdate(s.threads, t, Next(s, a).threads[t], q, job);
  }

  lemma {:induction false} RunAnswers(s: State, acts: seq<Action>, q: nat, job: Job)
    ensures Answered(Run(s, acts), q, job) + AskedByJobs(s, q, job) ==
            Answered(s, q, job) + AskedByJobs(Run(s, acts), q, job) + Dispatched(s, acts, q, job)
    decreases |acts|
  {
    if acts != [] {
      if Enabled(s, acts[0]) {
        StepAnswers(s, acts[0], q, job);
        RunAnswers(Next(s, acts[0]), acts[1..], q, job);
      } else {
        RunAnswers(s, acts[1..], q, job);
      }
    }
  }

  /** In every reachable state, for every queue and job: pushed to the queue, counted and not yet inserted or still to
      be pushed, it is there as often as performed dispatches and executed jobs asked for it. */
  lemma NoPushIsLost(init: State, acts: seq<Action>, q: nat, job: Job)
    requires Initial(init)
    ensures var s := Run(init, acts);
            multiset(QueueAt(s, q).pushed)[job] + AllComing(s.threads, q, job) ==
            Dispatched(init, acts, q, job) + AskedByJobs(s, q, job)
  {
    NothingComing(init.threads, q, job);
    RunAnswers(init, acts, q, job);
  }

  /** When nothing can move, it has been executed exactly as often. */
  lemma QuiescentHasExecutedAll(init: State, acts: seq<Action>, q: nat, job: Job)
    requires Initial(init)
    requires Quiescent(Run(init, acts)) && exists th <- Run(init, acts).threads :: th.worker
    ensures var s := Run(init, acts);
            multiset(QueueAt(s, q).executed)[job] == Dispatched(init, acts, q, job) + AskedByJobs(s, q, job)
  {
    var s := Run(init, acts);
    InitialInv(init);
    RunKeepsInv(init, acts);
    assert QueueInv(s, q);
    QuiescentIsDone(s, q);
    NothingComing(s.threads, q, job);
    NoPushIsLost(init, acts, q, job);
  }

  // ---- The outcome does not depend on the schedule -------------------------------------------------------

  /** How often `job` runs on `q` because of these posts, through any number of jobs that push jobs. */
  function Spawned(posts: seq<Post>, q: nat, job: Job): nat
    decreases posts
  {
    if posts == [] then 0 else SpawnedBy(posts[0], q, job) + Spawned(posts[1..], q, job)
  }

  function SpawnedBy(post: Post, q: nat, job: Job): nat
    decreases post
  {
    (if post == Post(q, job) then 1 else 0) + Spawned(post.job.posts, q, job)
  }

  /** Because of jobs waiting in queue `p`. */
  function SpawnedFrom(p: nat, jobs: seq<Job>, q: nat, job: Job): nat {
    if jobs == [] then 0 else SpawnedBy(Post(p, jobs[0]), q, job) + SpawnedFrom(p, jobs[1..], q, job)
  }

  lemma {:induction false} SpawnedFromAppend(p: nat, jobs: seq<Job>, last: Job, q: nat, job: Job)
    ensures SpawnedFrom(p, jobs + [last], q, job) == SpawnedFrom(p, jobs, q, job) + SpawnedBy(Post(p, last), q, job)
  {
    if jobs != [] {
      assert (jobs + [last])[1..] == jobs[1..] + [last];
      SpawnedFromAppend(p, jobs[1..], last, q, job);
    }
  }

  function ThreadSpawns(th: Thread, q: nat, job: Job): nat {
    Spawned(th.todo, q, job)
    + (if th.push.Counted? then SpawnedBy(Post(th.push.queue, th.push.job), q, job) else 0)
    + (if th.run.Batch? then SpawnedFrom(th.run.queue, th.run.rest, q, job) else 0)
  }

  function ThreadsSpawn(ths: seq<Thread>, q: nat, job: Job): nat {
    if ths == [] then 0 else ThreadSpawns(ths[0], q, job) + ThreadsSpawn(ths[1..], q, job)
  }

  lemma {:induction false} ThreadsSpawnUpdate(ths: seq<Thread>, i: nat, th: Thread, q: nat, job: Job)
    requires i < |ths|
    ensures ThreadsSpawn(ths[i := th], q, job) + ThreadSpawns(ths[i], q, job) ==
            ThreadsSpawn(ths, q, job) + ThreadSpawns(th, q, job)
  {
    if i > 0 {
      assert ths[i := th][1..] == ths[1..][i - 1 := th];
      ThreadsSpawnUpdate(ths[1..], i - 1, th, q, job);
    }
  }

  lemma {:induction false} IdleSpawnNothing(ths: seq<Thread>, q: nat, job: Job)
    requires forall th <- ths :: th.run.Outside? && Settled(th)
    ensures ThreadsSpawn(ths, q, job) == 0
  {
    if ths != [] {
      assert ths[0] in ths;
      IdleSpawnNothing(ths[1..], q, job);
    }
  }

  function WaitingSpawns(q: nat, job: Job): (nat, Queue) -> nat {
    (p: nat, queue: Queue) => SpawnedFrom(p, queue.jobs, q, job)
  }

  /** Executed, or bound to be. */
  ghost function Bound(s: State, q: nat, job: Job): nat {
    multiset(QueueAt(s, q).executed)[job] + ThreadsSpawn(s.threads, q, job) + Total(s.queues, WaitingSpawns(q, job))
  }

  function SpawnedOutside(a: Action, q: nat, job: Job): nat {
    if a.Dispatch? then Spawned(a.posts, q, job) else 0
  }

  function DispatchSpawns(s: State, acts: seq<Action>, q: nat, job: Job): nat
    decreases |acts|
  {
    if acts == [] then 0
    else if Enabled(s, acts[0]) then
      SpawnedOutside(acts[0], q, job) + DispatchSpawns(Next(s, acts[0]), acts[1..], q, job)
    else DispatchSpawns(s, acts[1..], q, job)
  }

  lemma PushKeepsBound(s: State, t: nat, q: nat, job: Job)
    requires Enabled(s, Push(t))
    ensures Bound(PushStep(s, t), q, job) == Bound(s, q, job)
  {
    var th, s' := s.threads[t], PushStep(s, t);
    ThreadsSpawnUpdate(s.threads, t, s'.threads[t], q, job);
    match th.push
    case NotPushing =>
      var p := th.todo[0].queue;
      TotalUpdate(s, p, QueueAt(s', p), WaitingSpawns(q, job));
    case Counted(p, last, _) =>
      SpawnedFromAppend(p, QueueAt(s, p).jobs, last, q, job);
      TotalUpdate(s, p, QueueAt(s', p), WaitingSpawns(q, job));
    case Publishing(_) =>
  }

  lemma DrainKeepsBound(s: State, t: nat, expired: bool, q: nat, job: Job)
    requires Enabled(s, Execute(t, expired)) && s.threads[t].run.Entered?
    ensures Bound(ExecuteStep(s, t, expired), q, job) == Bound(s, q, job)
  {
    var p, s' := s.threads[t].run.queue, ExecuteStep(s, t, expired);
    ThreadsSpawnUpdate(s.threads, t, s'.threads[t], q, job);
    TotalUpdate(s, p, QueueAt(s', p), WaitingSpawns(q, job));
  }

  lemma StartKeepsBound(s: State, t: nat, expired: bool, q: nat, job: Job)
    requires Enabled(s, Execute(t, expired)) && s.threads[t].run.Batch? && s.threads[t].run.rest != []
    ensures Bound(ExecuteStep(s, t, expired), q, job) == Bound(s, q, job)
  {
    var p, rest, s' := s.threads[t].run.queue, s.threads[t].run.rest, ExecuteStep(s, t, expired);
    ThreadsSpawnUpdate(s.threads, t, s'.threads[t], q, job);
    TotalUpdate(s, p, QueueAt(s', p), WaitingSpawns(q, job));
    assert SpawnedFrom(p, rest, q, job) == SpawnedBy(Post(p, rest[0]), q, job) + SpawnedFrom(p, rest[1..], q, job);
  }

  lemma OtherExecuteKeepsBound(s: State, t: nat, expired: bool, q: nat, job: Job)
    requires Enabled(s, Execute(t, expired)) && !s.threads[t].run.Entered?
    requires s.threads[t].run.Batch? ==> s.threads[t].run.rest == []
    ensures Bound(ExecuteStep(s, t, expired), q, job) == Bound(s, q, job)
  {
    var run, s' := s.threads[t].run, ExecuteStep(s, t, expired);
    ThreadsSpawnUpdate(s.threads, t, s'.threads[t], q, job);
    if run.Batch? { TotalUpdate(s, run.queue, QueueAt(s', run.queue), WaitingSpawns(q, job)); }
  }

  lemma ExecuteKeepsBound(s: State, t: nat, expired: bool, q: nat, job: Job)
    requires Enabled(s, Execute(t, expired))
    ensures Bound(ExecuteStep(s, t, expired), q, job) == Bound(s, q, job)
  {
    if s.threads[t].run.Entered? {
      DrainKeepsBound(s, t, expired, q, job);
    } else if s.threads[t].run.Batch? && s.threads[t].run.rest != [] {
      StartKeepsBound(s, t, expired, q, job);
    } else {
      OtherExecuteKeepsBound(s, t, expired, q, job);
    }
  }

  lemma StepKeepsBound(s: State, a: Action, q: nat, job: Job)
    requires Enabled(s, a)
    ensures Bound(Next(s, a), q, job) == Bound(s, q, job) + SpawnedOutside(a, q, job)
  {
    match a
    case Push(t) => PushKeepsBound(s, t, q, job);
    case Execute(t, expired) => ExecuteKeepsBound(s, t, expired, q, job);
    case _ => ThreadsSpawnUpdate(s.threads, a.t, Next(s, a).threads[a.t], q, job);
  }

  lemma {:induction false} RunKeepsBound(s: State, acts: seq<Action>, q: nat, job: Job)
    ensures Bound(Run(s, acts), q, job) == Bound(s, q, job) + DispatchSpawns(s, acts, q, job)
    decreases |acts|
  {
    if acts != [] {
      if Enabled(s, acts[0]) {
        StepKeepsBound(s, acts[0], q, job);
        RunKeepsBound(Next(s, acts[0]), acts[1..], q, job);
      } else {
        RunKeepsBound(s, acts[1..], q, job);
      }
    }
  }

  /** When nothing can move, what was bound to run has run. */
  lemma QuiescentIsBound(s: State, q: nat, job: Job)
    requires Inv(s) && Quiescent(s) && exists th <- s.threads :: th.worker
    ensures multiset(QueueAt(s, q).executed)[job] == Bound(s, q, job)
  {
    assert QueueInv(s, q);
    QuiescentIsDone(s, q);
    IdleSpawnNothing(s.threads, q, job);
    forall p | p in s.queues ensures WaitingSpawns(q, job)(p, s.queues[p]) == 0 {
      assert QueueInv(s, p);
      QuiescentIsDone(s, p);
    }
    TotalNothing(s.queues, WaitingSpawns(q, job));
  }

  /** Whatever the schedule: when nothing can move, each job has run on each queue exactly as often as the dispatched
      posts lead to, directly or through jobs that push jobs. */
  lemma OutcomeIsDispatched(init: State, acts: seq<Action>, q: nat, job: Job)
    requires Initial(init)
    requires Quiescent(Run(init, acts)) && exists th <- Run(init, acts).threads :: th.worker
    ensures multiset(QueueAt(Run(init, acts), q).executed)[job] == DispatchSpawns(init, acts, q, job)
  {
    InitialInv(init);
    RunKeepsInv(init, acts);
    RunKeepsBound(init, acts, q, job);
    IdleSpawnNothing(init.threads, q, job);
    QuiescentIsBound(Run(init, acts), q, job);
  }
}

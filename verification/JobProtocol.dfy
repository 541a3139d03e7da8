/** The job scheduler as a step relation: every atomic counter operation and every
    queue operation of JobQueue, GlobalQueue and the worker loops is one step of one thread. */
module JobProtocol {

  /** A job is known by what running it does to the scheduler: the pushes its callback makes, in order. */
  datatype Job = Job(id: nat, posts: seq<Post>)

  datatype Post = Post(queue: nat, job: Job)

  /** One JobQueue: `m_jobCount` and `m_jobs`, with the histories of `m_jobs.Push` and of started jobs. */
  datatype Queue = Queue(count: int, jobs: seq<Job>, pushed: seq<Job>, executed: seq<Job>)

  /** Where a thread stands inside JobQueue::Push. */
  datatype PushPc =
    | NotPushing
    | Counted(queue: nat, job: Job, prev: int)  // after fetch_add, before m_jobs.Push
    | Publishing(queue: nat)                    // prevCount was 0: about to push to the global queue

  /** Where a thread stands inside JobQueue::Execute. */
  datatype RunPc =
    | Outside
    | Entered(queue: nat)                             // before m_jobs.PopAll
    | Batch(queue: nat, rest: seq<Job>, size: nat)    // jobs of the batch still to start; its full size
    | Checking(queue: nat)                            // fetch_sub left work: before the tick test
    | Requeueing(queue: nat)                          // deadline passed: about to push to the global queue

  /** `todo` holds the pushes still to be made by the code this thread is in: a job body, or the
      dispatcher when the thread is outside Execute. */
  datatype Thread = Thread(worker: bool, run: RunPc, push: PushPc, todo: seq<Post>)

  datatype State = State(queues: map<nat, Queue>, global: seq<nat>, threads: seq<Thread>)

  datatype Action =
    | Push(t: nat)                      // the next atomic step of a JobQueue::Push
    | Pop(t: nat)                       // a worker takes a queue from the global queue
    | Execute(t: nat, expired: bool)    // the next atomic step of JobQueue::Execute
    | Dispatch(t: nat, posts: seq<Post>)// outside code decides to push

  const NEW_QUEUE := Queue(0, [], [], [])

  /** Queues come into being on first use, with a zero counter. */
  function QueueAt(s: State, q: nat): Queue {
    if q in s.queues then s.queues[q] else NEW_QUEUE
  }

  function SetQueue(s: State, q: nat, queue: Queue): State {
    s.(queues := s.queues[q := queue])
  }

  function SetThread(s: State, t: nat, th: Thread): State
    requires t < |s.threads|
  {
    s.(threads := s.threads[t := th])
  }

  /** Nothing left to push: the thread is between two jobs or back in its loop. */
  predicate Settled(th: Thread) {
    th.push.NotPushing? && th.todo == []
  }

  predicate Enabled(s: State, a: Action) {
    a.t < |s.threads| &&
    var th := s.threads[a.t];
    match a
    case Push(_) => !Settled(th)
    case Pop(_) => th.worker && th.run.Outside? && Settled(th) && s.global != []
    case Execute(_, _) => !th.run.Outside? && Settled(th)
    case Dispatch(_, _) => th.run.Outside? && Settled(th)
  }

  function PushStep(s: State, t: nat): State
    requires Enabled(s, Push(t))
  {
    var th := s.threads[t];
    match th.push
    case NotPushing =>
      var post := th.todo[0];
      var queue := QueueAt(s, post.queue);
      SetThread(SetQueue(s, post.queue, queue.(count := queue.count + 1)), t,
                th.(push := Counted(post.queue, post.job, queue.count), todo := th.todo[1..]))
    case Counted(q, job, prev) =>
      var queue := QueueAt(s, q);
      SetThread(SetQueue(s, q, queue.(jobs := queue.jobs + [job], pushed := queue.pushed + [job])), t,
                th.(push := if prev == 0 then Publishing(q) else NotPushing))
    case Publishing(q) =>
      SetThread(s.(global := s.global + [q]), t, th.(push := NotPushing))
  }

  function PopStep(s: State, t: nat): State
    requires Enabled(s, Pop(t))
  {
    SetThread(s.(global := s.global[1..]), t, s.threads[t].(run := Entered(s.global[0])))
  }

  function ExecuteStep(s: State, t: nat, expired: bool): State
    requires Enabled(s, Execute(t, expired))
  {
    var th := s.threads[t];
    var q := th.run.queue;
    var queue := QueueAt(s, q);
    match th.run
    case Entered(_) =>
      SetThread(SetQueue(s, q, queue.(jobs := [])), t, th.(run := Batch(q, queue.jobs, |queue.jobs|)))
    case Batch(_, rest, size) =>
      if rest != [] then
        SetThread(SetQueue(s, q, queue.(executed := queue.executed + [rest[0]])), t,
                  th.(run := Batch(q, rest[1..], size), todo := rest[0].posts))
      else
        SetThread(SetQueue(s, q, queue.(count := queue.count - size)), t,
                  th.(run := if queue.count == size then Outside else Checking(q)))
    case Checking(_) =>
      SetThread(s, t, th.(run := if expired then Requeueing(q) else Entered(q)))
    case Requeueing(_) =>
      SetThread(s.(global := s.global + [q]), t, th.(run := Outside))
  }

  function Next(s: State, a: Action): State
    requires Enabled(s, a)
  {
    match a
    case Push(t) => PushStep(s, t)
    case Pop(t) => PopStep(s, t)
    case Execute(t, expired) => ExecuteStep(s, t, expired)
    case Dispatch(t, posts) => SetThread(s, t, s.threads[t].(todo := posts))
  }

  /** At start-up no queue exists and every thread is in its loop. */
  predicate Initial(s: State) {
    && s.queues == map[] && s.global == []
    && forall th <- s.threads :: th.run.Outside? && Settled(th)
  }

  /** The states of a run: it performs the actions that are enabled, in order. */
  function Run(s: State, acts: seq<Action>): State
    decreases |acts|
  {
    if acts == [] then s
    else Run(if Enabled(s, acts[0]) then Next(s, acts[0]) else s, acts[1..])
  }
}

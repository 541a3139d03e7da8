/** The scheduler as it is written: shared counters and queues updated in place, one atomic
    operation per call, by whichever thread the schedule names. */
module JobScheduler {
  import opened JobProtocol
  import JobSafety

  class Scheduler {
    var queues: map<nat, Queue>   // every JobQueue touched so far
    var global: seq<nat>          // gGlobalQueue
    var threads: seq<Thread>

    ghost function View(): State
      reads this
    {
      State(queues, global, threads)
    }

    constructor (workers: seq<bool>)
      ensures Initial(View()) && JobSafety.Inv(View())
      ensures |threads| == |workers| && forall t :: 0 <= t < |workers| ==> threads[t].worker == workers[t]
    {
      queues, global := map[], [];
      threads := seq(|workers|, t requires 0 <= t < |workers| => Thread(workers[t], Outside, NotPushing, []));
      new;
      JobSafety.InitialInv(View());
    }

    function Lookup(q: nat): (queue: Queue)
      reads this
      ensures queue == QueueAt(View(), q)
    {
      if q in queues then queues[q] else NEW_QUEUE
    }

    /** `m_jobCount.fetch_add(delta)`, returning the previous value. */
    method FetchAdd(q: nat, delta: int) returns (prev: int)
      modifies this`queues
      ensures prev == QueueAt(old(View()), q).count
      ensures View() == SetQueue(old(View()), q, QueueAt(old(View()), q).(count := prev + delta))
    {
      var queue := Lookup(q);
      prev := queue.count;
      queues := queues[q := queue.(count := prev + delta)];
    }

    /** `m_jobs.PopAll`. */
    method PopAll(q: nat) returns (jobs: seq<Job>)
      modifies this`queues
      ensures jobs == QueueAt(old(View()), q).jobs
      ensures View() == SetQueue(old(View()), q, QueueAt(old(View()), q).(jobs := []))
    {
      var queue := Lookup(q);
      jobs := queue.jobs;
      queues := queues[q := queue.(jobs := [])];
    }

    /** JobQueue::Push, one atomic operation at a time. */
    method Push(t: nat)
      requires Enabled(View(), Action.Push(t))
      modifies this
      ensures View() == PushStep(old(View()), t)
    {
      var th := threads[t];
      match th.push {
        case NotPushing =>
          var post := th.todo[0];
          var prev := FetchAdd(post.queue, 1);
          threads := threads[t := th.(push := Counted(post.queue, post.job, prev), todo := th.todo[1..])];
        case Counted(q, job, prev) =>
          var queue := Lookup(q);
          queues := queues[q := queue.(jobs := queue.jobs + [job], pushed := queue.pushed + [job])];
          threads := threads[t := th.(push := if prev == 0 then Publishing(q) else NotPushing)];
        case Publishing(q) =>
          global := global + [q];
          threads := threads[t := th.(push := NotPushing)];
      }
    }

    /** `gGlobalQueue->Pop()` in a worker loop, followed by the call of Execute. */
    method Pop(t: nat)
      requires Enabled(View(), Action.Pop(t))
      modifies this
      ensures View() == PopStep(old(View()), t)
    {
      var q := global[0];
      global := global[1..];
      threads := threads[t := threads[t].(run := Entered(q))];
    }

    /** JobQueue::Execute, one atomic operation at a time; `expired` is the outcome of the tick test. */
    method Execute(t: nat, expired: bool)
      requires Enabled(View(), Action.Execute(t, expired))
      modifies this
      ensures View() == ExecuteStep(old(View()), t, expired)
    {
      var th := threads[t];
      match th.run {
        case Entered(q) =>
          var jobs := PopAll(q);
          threads := threads[t := th.(run := Batch(q, jobs, |jobs|))];
        case Batch(q, rest, size) =>
          if rest != [] {
            var queue := Lookup(q);
            queues := queues[q := queue.(executed := queue.executed + [rest[0]])];
            threads := threads[t := th.(run := Batch(q, rest[1..], size), todo := rest[0].posts)];
          } else {
            var prev := FetchAdd(q, 0 - size);
            threads := threads[t := th.(run := if prev == size then Outside else Checking(q))];
          }
        case Checking(q) =>
          threads := threads[t := th.(run := if expired then Requeueing(q) else Entered(q))];
        case Requeueing(q) =>
          global := global + [q];
          threads := threads[t := th.(run := Outside)];
      }
    }

    /** Runs any schedule; actions that are not enabled when their turn comes are passed over. */
    method RunSchedule(acts: seq<Action>)
      requires JobSafety.Inv(View())
      modifies this
      ensures View() == JobProtocol.Run(old(View()), acts)
      ensures JobSafety.Inv(View())
    {
      var i := 0;
      while i < |acts|
        invariant 0 <= i <= |acts|
        invariant JobProtocol.Run(View(), acts[i..]) == JobProtocol.Run(old(View()), acts)
        invariant JobSafety.Inv(View())
      {
        var a := acts[i];
        ghost var before := View();
        if Enabled(State(queues, global, threads), a) {
          match a {
            case Push(t) => Push(t);
            case Pop(t) => Pop(t);
            case Execute(t, expired) => Execute(t, expired);
            case Dispatch(t, posts) => threads := threads[t := threads[t].(todo := posts)];
          }
          JobSafety.StepKeepsInv(before, a);
        }
        i := i + 1;
      }
    }
  }
}

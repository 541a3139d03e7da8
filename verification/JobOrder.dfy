/** In which order things happen: each thread's pushes, the global queue, and a worker whose time is up; and that work
    can always be brought to its end. */
module JobOrder {
  import opened JobProtocol
  import opened JobSafety
  import opened JobProgress
  import opened JobPosts

  function After(s: State, a: Action): State {
    if Enabled(s, a) then Next(s, a) else s
  }

  // ---- Pushes of one thread ------------------------------------------------------------------------------

  /** A job enters a queue. */
  datatype Insertion = Insertion(t: nat, post: Post)

  function InsertedBy(s: State, a: Action): seq<Insertion> {
    if a.Push? && Enabled(s, a) && s.threads[a.t].push.Counted?
    then [Insertion(a.t, Post(s.threads[a.t].push.queue, s.threads[a.t].push.job))]
    else []
  }

  /** The insertions of a run, in order. */
  function Insertions(s: State, acts: seq<Action>): seq<Insertion>
    decreases |acts|
  {
    if acts == [] then [] else InsertedBy(s, acts[0]) + Insertions(After(s, acts[0]), acts[1..])
  }

  function ByThread(insertions: seq<Insertion>, t: nat): seq<Post> {
    if insertions == [] then []
    else (if insertions[0].t == t then [insertions[0].post] else []) + ByThread(insertions[1..], t)
  }

  function IntoQueue(insertions: seq<Insertion>, q: nat): seq<Job> {
    if insertions == [] then []
    else (if insertions[0].post.queue == q then [insertions[0].post.job] else []) + IntoQueue(insertions[1..], q)
  }

  lemma {:induction false} ByThreadAppend(a: seq<Insertion>, b: seq<Insertion>, t: nat)
    ensures ByThread(a + b, t) == ByThread(a, t) + ByThread(b, t)
  {
    if a == [] {
      assert a + b == b;
    } else {
      assert (a + b)[1..] == a[1..] + b;
      ByThreadAppend(a[1..], b, t);
      Regroup(if a[0].t == t then [a[0].post] else [], ByThread(a[1..], t), ByThread(b, t));
    }
  }

  lemma {:induction false} IntoQueueAppend(a: seq<Insertion>, b: seq<Insertion>, q: nat)
    ensures IntoQueue(a + b, q) == IntoQueue(a, q) + IntoQueue(b, q)
  {
    if a == [] {
      assert a + b == b;
    } else {
      assert (a + b)[1..] == a[1..] + b;
      IntoQueueAppend(a[1..], b, q);
      Regroup(if a[0].post.queue == q then [a[0].post.job] else [], IntoQueue(a[1..], q), IntoQueue(b, q));
    }
  }

  /** The history of a queue is what the run inserted. */
  lemma {:induction false} PushedIsInserted(s: State, acts: seq<Action>, q: nat)
    ensures QueueAt(Run(s, acts), q).pushed == QueueAt(s, q).pushed + IntoQueue(Insertions(s, acts), q)
    decreases |acts|
  {
    if acts != [] {
      var a, s' := acts[0], After(s, acts[0]);
      PushedIsInserted(s', acts[1..], q);
      IntoQueueAppend(InsertedBy(s, a), Insertions(s', acts[1..]), q);
      StepInserts(s, a, q);
      Regroup(QueueAt(s, q).pushed, IntoQueue(InsertedBy(s, a), q), IntoQueue(Insertions(s', acts[1..]), q));
    }
  }

  lemma StepInserts(s: State, a: Action, q: nat)
    ensures QueueAt(After(s, a), q).pushed == QueueAt(s, q).pushed + IntoQueue(InsertedBy(s, a), q)
  {
    if InsertedBy(s, a) != [] {
      assert InsertedBy(s, a)[1..] == [];
    }
  }

  lemma Regroup<T>(a: seq<T>, b: seq<T>, c: seq<T>)
    ensures a + b + c == a + (b + c)
  {
  }

  /** What a thread has begun to push and what it has still to push, in order. */
  function Backlog(th: Thread): seq<Post> {
    (if th.push.Counted? then [Post(th.push.queue, th.push.job)] else []) + th.todo
  }

  /** What a step asks thread `t` to push: a dispatch, or the start of a job. */
  function Asked(s: State, a: Action, t: nat): seq<Post> {
    if a.t != t || !Enabled(s, a) then []
    else if a.Dispatch? then a.posts
    else if a.Execute? && s.threads[t].run.Batch? && s.threads[t].run.rest != [] then s.threads[t].run.rest[0].posts
    else []
  }

  function AskedOf(s: State, acts: seq<Action>, t: nat): seq<Post>
    decreases |acts|
  {
    if acts == [] then [] else Asked(s, acts[0], t) + AskedOf(After(s, acts[0]), acts[1..], t)
  }

  lemma StepKeepsOrder(s: State, a: Action, t: nat)
    requires t < |s.threads|
    ensures |After(s, a).threads| == |s.threads|
    ensures ByThread(InsertedBy(s, a), t) + Backlog(After(s, a).threads[t]) == Backlog(s.threads[t]) + Asked(s, a, t)
  {
    if a.t == t && InsertedBy(s, a) != [] { assert ByThread(InsertedBy(s, a), t) == [InsertedBy(s, a)[0].post]; }
  }

  /** A thread's pushes enter the queues in the order in which its code makes them. */
  lemma {:induction false} PushesKeepOrder(s: State, acts: seq<Action>, t: nat)
    requires t < |s.threads|
    ensures |Run(s, acts).threads| == |s.threads|
    ensures ByThread(Insertions(s, acts), t) + Backlog(Run(s, acts).threads[t]) ==
            Backlog(s.threads[t]) + AskedOf(s, acts, t)
    decreases |acts|
  {
    if acts != [] {
      var a, s', rest := acts[0], After(s, acts[0]), acts[1..];
      StepKeepsOrder(s, a, t);
      PushesKeepOrder(s', rest, t);
      ByThreadAppend(InsertedBy(s, a), Insertions(s', rest), t);
      Regroup(ByThread(InsertedBy(s, a), t), ByThread(Insertions(s', rest), t), Backlog(Run(s, acts).threads[t]));
      Regroup(ByThread(InsertedBy(s, a), t), Backlog(s'.threads[t]), AskedOf(s', rest, t));
      Regroup(Backlog(s.threads[t]), Asked(s, a, t), AskedOf(s', rest, t));
    }
  }

  // ---- The global queue -----------------------------------------------------------------------------------

  /** The queue a step publishes: after the first push to an idle queue, or when a worker's time is up. */
  function PublishedBy(s: State, a: Action): seq<nat> {
    if !Enabled(s, a) then []
    else if a.Push? && s.threads[a.t].push.Publishing? then [s.threads[a.t].push.queue]
    else if a.Execute? && s.threads[a.t].run.Requeueing? then [s.threads[a.t].run.queue]
    else []
  }

  /** The queue a worker enters by popping it. */
  function TakenBy(s: State, a: Action): seq<nat> {
    if a.Pop? && Enabled(s, a) && Next(s, a).threads[a.t].run.Entered? then [Next(s, a).threads[a.t].run.queue] else []
  }

  function Published(s: State, acts: seq<Action>): seq<nat>
    decreases |acts|
  {
    if acts == [] then [] else PublishedBy(s, acts[0]) + Published(After(s, acts[0]), acts[1..])
  }

  function Taken(s: State, acts: seq<Action>): seq<nat>
    decreases |acts|
  {
    if acts == [] then [] else TakenBy(s, acts[0]) + Taken(After(s, acts[0]), acts[1..])
  }

  lemma StepIsFair(s: State, a: Action)
    ensures TakenBy(s, a) + After(s, a).global == s.global + PublishedBy(s, a)
  {
  }

  /** Workers take the published queues in the order of their publication. */
  lemma {:induction false} GlobalQueueIsFair(s: State, acts: seq<Action>)
    ensures Taken(s, acts) + Run(s, acts).global == s.global + Published(s, acts)
    decreases |acts|
  {
    if acts != [] {
      var a, s', rest := acts[0], After(s, acts[0]), acts[1..];
      StepIsFair(s, a);
      GlobalQueueIsFair(s', rest);
      Regroup(TakenBy(s, a), Taken(s', rest), Run(s, acts).global);
      Regroup(TakenBy(s, a), s'.global, Published(s', rest));
      Regroup(s.global, PublishedBy(s, a), Published(s', rest));
    }
  }

  // ---- The deadline -----------------------------------------------------------------------------------------

  /** Nobody else moves a thread. */
  lemma {:induction false} OthersLeaveThread(s: State, acts: seq<Action>, t: nat)
    requires t < |s.threads| && forall a <- acts :: a.t != t
    ensures |Run(s, acts).threads| == |s.threads| && Run(s, acts).threads[t] == s.threads[t]
    decreases |acts|
  {
    if acts != [] { OthersLeaveThread(After(s, acts[0]), acts[1..], t); }
  }

  /** A worker whose time is up starts no other job: whatever the others do, its next step publishes the queue behind
      all others and takes it out of Execute. Before that it drains the queue again. */
  lemma ExpiredYields(s: State, t: nat, expired: bool, acts: seq<Action>, later: bool)
    requires Enabled(s, Execute(t, expired)) && s.threads[t].run.Checking? && forall a <- acts :: a.t != t
    ensures var q, s1 := s.threads[t].run.queue, Run(Next(s, Execute(t, expired)), acts);
            && t < |s1.threads| && Enabled(s1, Execute(t, later))
            && if expired
               then Next(s1, Execute(t, later)).global == s1.global + [q] &&
                    Next(s1, Execute(t, later)).threads[t].run.Outside?
               else s1.threads[t].run == Entered(q)
  {
    OthersLeaveThread(Next(s, Execute(t, expired)), acts, t);
  }

  // ---- Completion -------------------------------------------------------------------------------------------

  lemma WorkersStay(s: State, a: Action)
    requires Enabled(s, a) && exists th <- s.threads :: th.worker
    ensures exists th <- Next(s, a).threads :: th.worker
  {
    var th :| th in s.threads && th.worker;
    var t :| 0 <= t < |s.threads| && s.threads[t] == th;
    assert Next(s, a).threads[t].worker && Next(s, a).threads[t] in Next(s, a).threads;
  }

  /** Without a push under way, a drain finds something. */
  lemma NobodyPushing(s: State, a: Action)
    requires Inv(s) && Enabled(s, a) && !a.Dispatch?
    requires forall u: nat :: u < |s.threads| ==> !Enabled(s, Push(u))
    ensures !EmptyDrain(s, a)
  {
    StepDecreases(s, a);
    if u :| 0 <= u < |s.threads| && s.threads[u].push.Counted? {
      assert Enabled(s, Push(u));
      assert false;
    }
  }

  /** A step that brings the end nearer: a push if one is under way or asked for, or else any. */
  lemma SomeStep(s: State) returns (a: Action)
    requires Inv(s) && !Quiescent(s)
    ensures Enabled(s, a) && !a.Dispatch? && Work(Next(s, a)) < Work(s)
  {
    if t: nat :| t < |s.threads| && Enabled(s, Push(t)) {
      a := Push(t);
    } else {
      var t: nat :| t < |s.threads| && (Enabled(s, Pop(t)) || Enabled(s, Execute(t, false)));
      a := if Enabled(s, Pop(t)) then Pop(t) else Execute(t, false);
      NobodyPushing(s, a);
    }
    StepDecreases(s, a);
  }

  /** From every reachable state, all work can be brought to its end without any new from outside. */
  lemma {:induction false} CanFinish(s: State) returns (acts: seq<Action>)
    requires Inv(s) && exists th <- s.threads :: th.worker
    ensures (forall a <- acts :: !a.Dispatch?) && Quiescent(Run(s, acts))
    ensures Inv(Run(s, acts)) && exists th <- Run(s, acts).threads :: th.worker
    decreases Work(s)
  {
    if Quiescent(s) {
      acts := [];
    } else {
      var a := SomeStep(s);
      StepKeepsInv(s, a);
      WorkersStay(s, a);
      var rest := CanFinish(Next(s, a));
      acts := [a] + rest;
      assert acts[1..] == rest;
    }
  }

  lemma {:induction false} NothingDispatched(s: State, acts: seq<Action>, q: nat, job: Job)
    requires forall a <- acts :: !a.Dispatch?
    ensures DispatchSpawns(s, acts, q, job) == 0
    decreases |acts|
  {
    if acts != [] { NothingDispatched(After(s, acts[0]), acts[1..], q, job); }
  }

  /** Outside code can always have its pushes done: there is a schedule from its dispatch to the end of all work, and at
      the end every job has run as often as was bound to be before, plus what the new posts lead to. */
  lemma DispatchIsServed(s: State, t: nat, posts: seq<Post>) returns (acts: seq<Action>)
    requires Inv(s) && (exists th <- s.threads :: th.worker) && t < |s.threads|
    requires s.threads[t].run.Outside? && s.threads[t].push.NotPushing? && s.threads[t].todo == []
    ensures var s' := Run(s, [Dispatch(t, posts)] + acts);
            && Quiescent(s')
            && forall q: nat, job: Job ::
                 multiset(QueueAt(s', q).executed)[job] == Bound(s, q, job) + Spawned(posts, q, job)
  {
    var a := Dispatch(t, posts);
    StepKeepsInv(s, a);
    WorkersStay(s, a);
    acts := CanFinish(Next(s, a));
    var s' := Run(s, [a] + acts);
    assert ([a] + acts)[1..] == acts;
    forall q: nat, job: Job
      ensures multiset(QueueAt(s', q).executed)[job] == Bound(s, q, job) + Spawned(posts, q, job)
    {
      StepKeepsBound(s, a, q, job);
      RunKeepsBound(Next(s, a), acts, q, job);
      NothingDispatched(Next(s, a), acts, q, job);
      QuiescentIsBound(s', q, job);
    }
  }

  // ---- Who drains ---------------------------------------------------------------------------------------------

  /** Only worker loops enter Execute. */
  predicate WorkersOnly(s: State) {
    forall th <- s.threads :: th.worker || th.run.Outside?
  }

  lemma StepKeepsWorkers(s: State, a: Action)
    requires WorkersOnly(s) && Enabled(s, a)
    ensures WorkersOnly(Next(s, a))
  {
    forall th | th in Next(s, a).threads ensures th.worker || th.run.Outside? {
      var t :| 0 <= t < |s.threads| && Next(s, a).threads[t] == th;
      assert s.threads[t] in s.threads;
    }
  }

  /** In every reachable state. */
  lemma {:induction false} OnlyWorkersDrain(s: State, acts: seq<Action>)
    requires WorkersOnly(s)
    ensures WorkersOnly(Run(s, acts))
    decreases |acts|
  {
    if acts != [] {
      if Enabled(s, acts[0]) { StepKeepsWorkers(s, acts[0]); }
      OnlyWorkersDrain(After(s, acts[0]), acts[1..]);
    }
  }
}

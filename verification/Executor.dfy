/** SampleExecutor (src/sample_executor.cpp): how a call is cut into ranges, and
    the shared queue as a state machine over the workers' critical sections,
    with any number of concurrent callers. */
module Executor {
  import opened Options
  import opened Modular

  datatype Task = Task(job: nat, begin: nat, end: nat) {
    predicate Covers(j: nat, n: nat) { job == j && begin <= n < end }
  }

  /** What a worker is doing: nothing, about to call the function, or holding
      its outcome until it has the job's lock. */
  datatype Hand = Idle | Holding(task: Task) | Ran(done: Task, failure: Option<int>)

  /** `hits[n]` counts the finished calls whose range held index n, `settled`
      lists the calls' outcomes in the order they were recorded, and `thrown` is
      what the caller was given. */
  datatype Job = Job(count: nat, remaining: int, error: Option<int>, hits: seq<int>, settled: seq<Option<int>>,
                     returned: bool, thrown: Option<int>)

  datatype State = State(threads: nat, queue: seq<Task>, hands: seq<Hand>, jobs: seq<Job>)

  // ------------------------------------------------------------------------
  // Cutting a call into ranges
  // ------------------------------------------------------------------------

  /** Where range i begins when `extra` ranges are one sample longer. */
  function Boundary(chunk: nat, extra: nat, i: nat): nat
  {
    i * chunk + (if i < extra then i else extra)
  }

  /** The tasks tile [0, end), in order, without an empty one. */
  ghost predicate Tiles(tasks: seq<Task>, job: nat, end: nat)
  {
    (forall i: nat :: i < |tasks| ==> tasks[i].job == job && tasks[i].begin < tasks[i].end) &&
    (forall i: nat :: i + 1 < |tasks| ==> tasks[i].end == tasks[i + 1].begin) &&
    (if tasks == [] then end == 0 else tasks[0].begin == 0 && tasks[|tasks| - 1].end == end)
  }

  /** Lengths differ by at most one, the longer ones first. */
  ghost predicate Balanced(tasks: seq<Task>)
  {
    forall i: nat, k: nat :: i < k < |tasks| ==>
      0 <= (tasks[i].end - tasks[i].begin) - (tasks[k].end - tasks[k].begin) <= 1
  }

  lemma {:induction false} BoundaryStep(chunk: nat, extra: nat, i: nat)
    ensures Boundary(chunk, extra, i + 1) == Boundary(chunk, extra, i) + chunk + (if i < extra then 1 else 0)
  {
    assert (i + 1) * chunk == i * chunk + chunk;
  }

  lemma {:induction false} BoundaryEnds(chunk: nat, extra: nat, n: nat)
    requires extra <= n
    ensures Boundary(chunk, extra, 0) == 0 && Boundary(chunk, extra, n) == chunk * n + extra
  {
    assert n * chunk == chunk * n;
  }

  method SplitRanges(job: nat, count: nat, threads: nat) returns (tasks: seq<Task>)
    requires count > 0 && threads > 0
    ensures |tasks| == (if count < threads then count else threads)
    ensures Tiles(tasks, job, count) && Balanced(tasks)
  {
    var ranges := if count < threads then count else threads;
    var chunk, extra := DivMod(count, ranges);
    QuotWrap(count, ranges);
    assert chunk == 0 ==> chunk * ranges == 0;
    BoundaryEnds(chunk, extra, ranges);
    hide Boundary, Quot, Wrap;
    tasks := [];
    var begin := 0;
    for i := 0 to ranges
      invariant |tasks| == i && begin == Boundary(chunk, extra, i) && Tiles(tasks, job, begin)
      invariant forall k: nat :: k < i ==> tasks[k].end - tasks[k].begin == chunk + (if k < extra then 1 else 0)
    {
      var end := begin + chunk + (if i < extra then 1 else 0);
      BoundaryStep(chunk, extra, i);
      tasks := tasks + [Task(job, begin, end)];
      begin := end;
    }
  }

  // ------------------------------------------------------------------------
  // Counting tasks
  // ------------------------------------------------------------------------

  function One(b: bool): nat { if b then 1 else 0 }

  /** How many queued tasks belong to job j. */
  function Queued(queue: seq<Task>, j: nat): nat
  {
    if queue == [] then 0 else One(queue[0].job == j) + Queued(queue[1..], j)
  }

  /** How many queued tasks of job j hold index n. */
  function QueuedAt(queue: seq<Task>, j: nat, n: nat): nat
  {
    if queue == [] then 0 else One(queue[0].Covers(j, n)) + QueuedAt(queue[1..], j, n)
  }

  predicate HeldBy(hand: Hand, j: nat)
  {
    (hand.Holding? && hand.task.job == j) || (hand.Ran? && hand.done.job == j)
  }

  predicate PendingBy(hand: Hand, j: nat, n: nat) { hand.Holding? && hand.task.Covers(j, n) }

  /** How many workers have a task of job j in hand, finished or not. */
  function Held(hands: seq<Hand>, j: nat): nat
  {
    if hands == [] then 0 else One(HeldBy(hands[0], j)) + Held(hands[1..], j)
  }

  /** How many workers are about to process index n of job j. */
  function PendingAt(hands: seq<Hand>, j: nat, n: nat): nat
  {
    if hands == [] then 0 else One(PendingBy(hands[0], j, n)) + PendingAt(hands[1..], j, n)
  }

  lemma {:induction false} QueuedAppend(a: seq<Task>, b: seq<Task>, j: nat, n: nat)
    ensures Queued(a + b, j) == Queued(a, j) + Queued(b, j)
    ensures QueuedAt(a + b, j, n) == QueuedAt(a, j, n) + QueuedAt(b, j, n)
  {
    if a == [] {
      assert a + b == b;
    } else {
      assert (a + b)[1..] == a[1..] + b;
      QueuedAppend(a[1..], b, j, n);
    }
  }

  lemma {:induction false} HandChange(hands: seq<Hand>, w: nat, hand: Hand, j: nat, n: nat)
    requires w < |hands|
    ensures Held(hands[w := hand], j) == Held(hands, j) - One(HeldBy(hands[w], j)) + One(HeldBy(hand, j))
    ensures PendingAt(hands[w := hand], j, n) ==
            PendingAt(hands, j, n) - One(PendingBy(hands[w], j, n)) + One(PendingBy(hand, j, n))
  {
    if w == 0 {
      assert hands[w := hand][1..] == hands[1..];
    } else {
      HandChange(hands[1..], w - 1, hand, j, n);
      assert hands[w := hand][1..] == hands[1..][w - 1 := hand];
    }
  }

  /** Nothing counted means nothing there. */
  lemma {:induction false} NoneQueued(queue: seq<Task>, j: nat)
    ensures Queued(queue, j) == 0 <==> forall i: nat :: i < |queue| ==> queue[i].job != j
    ensures Queued(queue, j) == 0 ==> forall n: nat :: QueuedAt(queue, j, n) == 0
  {
    if queue != [] {
      NoneQueued(queue[1..], j);
      assert forall i: nat :: 1 <= i < |queue| ==> queue[i] == queue[1..][i - 1];
    }
  }

  lemma {:induction false} NoneHeld(hands: seq<Hand>, j: nat)
    ensures Held(hands, j) == 0 <==> forall w: nat :: w < |hands| ==> !HeldBy(hands[w], j)
    ensures Held(hands, j) == 0 ==> forall n: nat :: PendingAt(hands, j, n) == 0
  {
    if hands != [] {
      NoneHeld(hands[1..], j);
      assert forall w: nat :: 1 <= w < |hands| ==> hands[w] == hands[1..][w - 1];
    }
  }

  /** A tiling counts each index once and only for its job. */
  lemma {:induction false} TilesCount(tasks: seq<Task>, job: nat, end: nat, j: nat, n: nat)
    requires Tiles(tasks, job, end)
    ensures Queued(tasks, j) == if j == job then |tasks| else 0
    ensures QueuedAt(tasks, j, n) == One(j == job && n < end)
  {
    if tasks != [] {
      var front, last := tasks[..|tasks| - 1], tasks[|tasks| - 1];
      TilesCount(front, job, last.begin, j, n);
      QueuedAppend(front, [last], j, n);
      assert tasks == front + [last];
    }
  }

  // ------------------------------------------------------------------------
  // Steps
  // ------------------------------------------------------------------------

  datatype Action =
    | Submit(count: nat, tasks: seq<Task>, inlineError: Option<int>)
    | Take(w: nat)
    | Call(w: nat, failure: Option<int>)
    | Settle(w: nat)
    | Return(j: nat)

  function Init(threads: nat): State
  {
    State(threads, [], if threads == 1 then [] else seq(threads, (_: nat) => Idle), [])
  }

  function Zeros(n: nat): seq<int> { seq(n, (_: nat) => 0) }

  function Ones(n: nat): seq<int> { seq(n, (_: nat) => 1) }

  /** The calls of a task finished: its indices are hit once more. */
  function Hit(hits: seq<int>, task: Task): (r: seq<int>)
    ensures |r| == |hits|
  {
    seq(|hits|, (n: nat) requires n < |hits| => hits[n] + One(task.begin <= n < task.end))
  }

  ghost predicate Enabled(s: State, a: Action)
  {
    match a
    case Submit(count, tasks, inlineError) =>
      (count > 0 && s.threads > 1 ==>
         |tasks| == (if count < s.threads then count else s.threads) && Tiles(tasks, |s.jobs|, count))
    case Take(w) => w < |s.hands| && s.hands[w].Idle? && s.queue != []
    case Call(w, failure) => w < |s.hands| && s.hands[w].Holding? && s.hands[w].task.job < |s.jobs|
    case Settle(w) => w < |s.hands| && s.hands[w].Ran? && s.hands[w].done.job < |s.jobs|
    case Return(j) => j < |s.jobs| && !s.jobs[j].returned && s.jobs[j].remaining == 0
  }

  function Next(s: State, a: Action): State
    requires Enabled(s, a)
  {
    match a
    case Submit(count, tasks, inlineError) =>
      if count == 0 then s.(jobs := s.jobs + [Job(0, 0, None, [], [], true, None)])
      else if s.threads == 1 then
        s.(jobs := s.jobs + [Job(count, 0, inlineError, Ones(count), [inlineError], true, inlineError)])
      else s.(jobs := s.jobs + [Job(count, |tasks|, None, Zeros(count), [], false, None)], queue := s.queue + tasks)
    case Take(w) => s.(hands := s.hands[w := Holding(s.queue[0])], queue := s.queue[1..])
    case Call(w, failure) =>
      var task := s.hands[w].task;
      var job := s.jobs[task.job];
      s.(hands := s.hands[w := Ran(task, failure)],
         jobs := s.jobs[task.job := job.(hits := Hit(job.hits, task))])
    case Settle(w) =>
      var task := s.hands[w].done;
      var job := s.jobs[task.job];
      s.(hands := s.hands[w := Idle],
         jobs := s.jobs[task.job := job.(error := if job.error.None? then s.hands[w].failure else job.error,
                                         settled := job.settled + [s.hands[w].failure],
                                         remaining := job.remaining - 1)])
    case Return(j) => s.(jobs := s.jobs[j := s.jobs[j].(returned := true, thrown := s.jobs[j].error)])
  }

  ghost predicate Steps(s: State, a: Action, r: State) { Enabled(s, a) && r == Next(s, a) }

  ghost predicate Reaches(threads: nat, actions: seq<Action>, s: State)
  {
    if actions == [] then threads > 0 && s == Init(threads)
    else
      var last := actions[|actions| - 1];
      exists p: State :: Reaches(threads, actions[..|actions| - 1], p) && Steps(p, last, s)
  }

  // ------------------------------------------------------------------------
  // The invariant
  // ------------------------------------------------------------------------

  /** Remaining is what is queued or in hand, and every index is either hit once
      or still to come once. */
  ghost predicate JobOk(s: State, j: nat)
    requires j < |s.jobs|
  {
    var job := s.jobs[j];
    |job.hits| == job.count &&
    job.remaining == Queued(s.queue, j) + Held(s.hands, j) &&
    (job.returned ==> job.remaining == 0) &&
    forall n: nat :: n < job.count ==>
      job.hits[n] + QueuedAt(s.queue, j, n) + PendingAt(s.hands, j, n) == 1
  }

  ghost predicate Inv(s: State)
  {
    s.threads > 0 &&
    |s.hands| == (if s.threads == 1 then 0 else s.threads) &&
    (forall i: nat :: i < |s.queue| ==> s.queue[i].job < |s.jobs|) &&
    (forall w: nat, j: nat :: w < |s.hands| && HeldBy(s.hands[w], j) ==> j < |s.jobs|) &&
    (forall j: nat :: j < |s.jobs| ==> JobOk(s, j))
  }

  lemma {:induction false} SubmitKeeps(s: State, count: nat, tasks: seq<Task>, e: Option<int>)
    requires Inv(s) && Enabled(s, Submit(count, tasks, e))
    ensures Inv(Next(s, Submit(count, tasks, e)))
  {
    var r := Next(s, Submit(count, tasks, e));
    var added := |s.jobs|;
    NoneQueued(s.queue, added);
    NoneHeld(s.hands, added);
    forall j: nat | j < |r.jobs|
      ensures JobOk(r, j)
    {
      assert j < added ==> JobOk(s, j) && r.jobs[j] == s.jobs[j];
      QueuedAppend(s.queue, tasks, j, 0);
      if count > 0 && s.threads > 1 {
        TilesCount(tasks, added, count, j, 0);
        forall n: nat
          ensures QueuedAt(r.queue, j, n) == QueuedAt(s.queue, j, n) + One(j == added && n < count)
        {
          QueuedAppend(s.queue, tasks, j, n);
          TilesCount(tasks, added, count, j, n);
        }
      }
    }
  }

  lemma {:induction false} TakeKeeps(s: State, w: nat)
    requires Inv(s) && Enabled(s, Take(w))
    ensures Inv(Next(s, Take(w)))
  {
    var r := Next(s, Take(w));
    forall j: nat | j < |r.jobs|
      ensures JobOk(r, j)
    {
      assert JobOk(s, j);
      HandChange(s.hands, w, Holding(s.queue[0]), j, 0);
      forall n: nat | n < s.jobs[j].count
        ensures r.jobs[j].hits[n] + QueuedAt(r.queue, j, n) + PendingAt(r.hands, j, n) == 1
      {
        HandChange(s.hands, w, Holding(s.queue[0]), j, n);
      }
    }
  }

  lemma {:induction false} CallKeeps(s: State, w: nat, failure: Option<int>)
    requires Inv(s) && Enabled(s, Call(w, failure))
    ensures Inv(Next(s, Call(w, failure)))
  {
    var r, task := Next(s, Call(w, failure)), s.hands[w].task;
    forall v: nat, j: nat | v < |r.hands| && HeldBy(r.hands[v], j)
      ensures j < |r.jobs|
    {
      assert HeldBy(s.hands[v], j);
    }
    forall j: nat | j < |r.jobs|
      ensures JobOk(r, j)
    {
      assert JobOk(s, j);
      HandChange(s.hands, w, Ran(task, failure), j, 0);
      forall n: nat | n < s.jobs[j].count
        ensures r.jobs[j].hits[n] + QueuedAt(r.queue, j, n) + PendingAt(r.hands, j, n) == 1
      {
        HandChange(s.hands, w, Ran(task, failure), j, n);
      }
    }
  }

  lemma {:induction false} HeldAtLeastOne(hands: seq<Hand>, w: nat, j: nat)
    requires w < |hands| && HeldBy(hands[w], j)
    ensures Held(hands, j) >= 1
  {
    NoneHeld(hands, j);
  }

  lemma {:induction false} SettleKeeps(s: State, w: nat)
    requires Inv(s) && Enabled(s, Settle(w))
    ensures Inv(Next(s, Settle(w)))
  {
    var r, task := Next(s, Settle(w)), s.hands[w].done;
    assert HeldBy(s.hands[w], task.job);
    HeldAtLeastOne(s.hands, w, task.job);
    forall v: nat, j: nat | v < |r.hands| && HeldBy(r.hands[v], j)
      ensures j < |r.jobs|
    {
      assert HeldBy(s.hands[v], j);
    }
    forall j: nat | j < |r.jobs|
      ensures JobOk(r, j)
    {
      assert JobOk(s, j);
      HandChange(s.hands, w, Idle, j, 0);
      forall n: nat | n < s.jobs[j].count
        ensures r.jobs[j].hits[n] + QueuedAt(r.queue, j, n) + PendingAt(r.hands, j, n) == 1
      {
        HandChange(s.hands, w, Idle, j, n);
      }
    }
  }

  lemma {:induction false} ReturnKeeps(s: State, j: nat)
    requires Inv(s) && Enabled(s, Return(j))
    ensures Inv(Next(s, Return(j)))
  {
    var r := Next(s, Return(j));
    forall i: nat | i < |r.jobs|
      ensures JobOk(r, i)
    {
      assert JobOk(s, i);
    }
  }

  lemma {:induction false} NextKeeps(s: State, a: Action)
    requires Inv(s) && Enabled(s, a)
    ensures Inv(Next(s, a))
  {
    match a
    case Submit(count, tasks, e) => SubmitKeeps(s, count, tasks, e);
    case Take(w) => TakeKeeps(s, w);
    case Call(w, failure) => CallKeeps(s, w, failure);
    case Settle(w) => SettleKeeps(s, w);
    case Return(j) => ReturnKeeps(s, j);
  }

  lemma {:induction false} ReachableInv(threads: nat, actions: seq<Action>, s: State)
    requires Reaches(threads, actions, s)
    ensures Inv(s)
  {
    if actions != [] {
      var last := actions[|actions| - 1];
      var p :| Reaches(threads, actions[..|actions| - 1], p) && Steps(p, last, s);
      ReachableInv(threads, actions[..|actions| - 1], p);
      NextKeeps(p, last);
    }
  }

  // ------------------------------------------------------------------------
  // What a caller gets
  // ------------------------------------------------------------------------

  /** When a call has returned, with or without an error, its function was called
      and finished, by returning or by throwing, exactly once for the range of
      each index, and no worker will touch it again. */
  lemma {:induction false} ReturnedMeansDone(threads: nat, actions: seq<Action>, s: State, j: nat)
    requires Reaches(threads, actions, s) && j < |s.jobs| && s.jobs[j].returned
    ensures |s.jobs[j].hits| == s.jobs[j].count
    ensures forall n: nat :: n < s.jobs[j].count ==> s.jobs[j].hits[n] == 1
    ensures forall i: nat :: i < |s.queue| ==> s.queue[i].job != j
    ensures forall w: nat :: w < |s.hands| ==> !HeldBy(s.hands[w], j)
  {
    ReachableInv(threads, actions, s);
    assert JobOk(s, j);
    NoneQueued(s.queue, j);
    NoneHeld(s.hands, j);
  }

  /** Throughout, remaining is the number of the job's ranges queued or in hand. */
  lemma {:induction false} RemainingIsPending(threads: nat, actions: seq<Action>, s: State, j: nat)
    requires Reaches(threads, actions, s) && j < |s.jobs|
    ensures s.jobs[j].remaining == Queued(s.queue, j) + Held(s.hands, j)
    ensures |s.jobs[j].hits| == s.jobs[j].count
    ensures forall n: nat :: n < s.jobs[j].count ==> s.jobs[j].hits[n] <= 1
  {
    ReachableInv(threads, actions, s);
    assert JobOk(s, j);
  }

  /** The first failure among the outcomes. */
  function FirstFailure(outcomes: seq<Option<int>>): (r: Option<int>)
    ensures r.None? <==> forall k: nat :: k < |outcomes| ==> outcomes[k].None?
    ensures r.Some? ==> exists k: nat :: k < |outcomes| && outcomes[k] == r && forall i: nat :: i < k ==> outcomes[i].None?
  {
    if outcomes == [] then None
    else
      var front := FirstFailure(outcomes[..|outcomes| - 1]);
      assert outcomes == outcomes[..|outcomes| - 1] + [outcomes[|outcomes| - 1]];
      if front.Some? then front else outcomes[|outcomes| - 1]
  }

  /** How many calls of the function a job makes. */
  function Ranges(count: nat, threads: nat): nat { if count < threads then count else threads }

  ghost predicate OutcomesOk(s: State, j: nat)
    requires j < |s.jobs|
  {
    var job := s.jobs[j];
    |job.settled| + job.remaining == Ranges(job.count, s.threads) &&
    job.error == FirstFailure(job.settled) &&
    (job.returned ==> job.remaining == 0 && job.thrown == job.error)
  }

  lemma {:induction false} OutcomesStep(s: State, a: Action, j: nat)
    requires Inv(s) && Enabled(s, a) && j < |Next(s, a).jobs| && (j < |s.jobs| ==> OutcomesOk(s, j))
    ensures OutcomesOk(Next(s, a), j)
  {
    if a.Settle? && s.hands[a.w].done.job == j {
      assert JobOk(s, j);
      assert HeldBy(s.hands[a.w], j);
      HeldAtLeastOne(s.hands, a.w, j);
      var settled := Next(s, a).jobs[j].settled;
      assert settled[..|settled| - 1] == s.jobs[j].settled;
    }
    if a.Submit? && j == |s.jobs| {
      OneOutcome(a.inlineError);
    }
  }

  lemma {:induction false} OneOutcome(e: Option<int>)
    ensures FirstFailure([e]) == e && FirstFailure([]) == None
  {
    assert [e][..0] == [];
  }

  lemma {:induction false} ReachableOutcomes(threads: nat, actions: seq<Action>, s: State, j: nat)
    requires Reaches(threads, actions, s) && j < |s.jobs|
    ensures OutcomesOk(s, j)
    decreases |actions|
  {
    hide OutcomesOk;
    if actions != [] {
      var m := |actions| - 1;
      var p :| Reaches(threads, actions[..m], p) && Steps(p, actions[m], s);
      ReachableInv(threads, actions[..m], p);
      if j < |p.jobs| {
        ReachableOutcomes(threads, actions[..m], p, j);
      }
      OutcomesStep(p, actions[m], j);
    }
  }

  /** A returned call has recorded the outcome of each of its ranges, and throws
      exactly when one of them failed: the failure recorded first. */
  lemma {:induction false} FirstFailureIsThrown(threads: nat, actions: seq<Action>, s: State, j: nat)
    requires Reaches(threads, actions, s) && j < |s.jobs| && s.jobs[j].returned
    ensures var job := s.jobs[j];
            |job.settled| == Ranges(job.count, threads) &&
            (job.thrown.None? <==> forall k: nat :: k < |job.settled| ==> job.settled[k].None?) &&
            (job.thrown.Some? ==> exists k: nat :: k < |job.settled| && job.settled[k] == job.thrown &&
                                                   forall i: nat :: i < k ==> job.settled[i].None?)
  {
    ReachableOutcomes(threads, actions, s, j);
    OnlyPoolsQueue(threads, actions, s);
  }

  /** A caller never waits for nothing: it can return, or a worker can move. */
  lemma {:induction false} CallersAreServed(threads: nat, actions: seq<Action>, s: State, j: nat) returns (a: Action)
    requires Reaches(threads, actions, s) && j < |s.jobs| && !s.jobs[j].returned
    ensures Enabled(s, a) && !a.Submit?
  {
    ReachableInv(threads, actions, s);
    assert JobOk(s, j);
    if s.jobs[j].remaining == 0 {
      return Return(j);
    }
    NoneQueued(s.queue, j);
    NoneHeld(s.hands, j);
    if w: nat :| w < |s.hands| && !s.hands[w].Idle? {
      if s.hands[w].Holding? {
        assert HeldBy(s.hands[w], s.hands[w].task.job);
        a := Call(w, None);
      } else {
        assert HeldBy(s.hands[w], s.hands[w].done.job);
        a := Settle(w);
      }
    } else {
      assert forall w: nat :: w < |s.hands| ==> !HeldBy(s.hands[w], j);
      assert s.queue != [];
      OnlyPoolsQueue(threads, actions, s);
      a := Take(0);
    }
  }

  /** With a single thread nothing is ever queued. */
  lemma {:induction false} OnlyPoolsQueue(threads: nat, actions: seq<Action>, s: State)
    requires Reaches(threads, actions, s)
    ensures s.threads == threads && (threads == 1 ==> s.queue == [])
  {
    if actions != [] {
      var last := actions[|actions| - 1];
      var p :| Reaches(threads, actions[..|actions| - 1], p) && Steps(p, last, s);
      OnlyPoolsQueue(threads, actions[..|actions| - 1], p);
    }
  }

  // ------------------------------------------------------------------------
  // Every call returns
  // ------------------------------------------------------------------------

  function HandWork(hand: Hand): nat { if hand.Holding? then 2 else if hand.Ran? then 1 else 0 }

  function HandsWork(hands: seq<Hand>): nat
  {
    if hands == [] then 0 else HandWork(hands[0]) + HandsWork(hands[1..])
  }

  /** Calls that have not returned. */
  function Waiting(jobs: seq<Job>): nat
  {
    if jobs == [] then 0 else One(!jobs[0].returned) + Waiting(jobs[1..])
  }

  /** The steps left: three for a queued range, two for one in hand, one for one
      that ran, and one for each waiting caller. */
  function Work(s: State): nat { 3 * |s.queue| + HandsWork(s.hands) + Waiting(s.jobs) }

  lemma {:induction false} HandWorkChange(hands: seq<Hand>, w: nat, hand: Hand)
    requires w < |hands|
    ensures HandsWork(hands[w := hand]) == HandsWork(hands) - HandWork(hands[w]) + HandWork(hand)
  {
    if w == 0 {
      assert hands[w := hand][1..] == hands[1..];
    } else {
      HandWorkChange(hands[1..], w - 1, hand);
      assert hands[w := hand][1..] == hands[1..][w - 1 := hand];
    }
  }

  lemma {:induction false} WaitingChange(jobs: seq<Job>, j: nat, job: Job)
    requires j < |jobs|
    ensures Waiting(jobs[j := job]) == Waiting(jobs) - One(!jobs[j].returned) + One(!job.returned)
  {
    if j == 0 {
      assert jobs[j := job][1..] == jobs[1..];
    } else {
      WaitingChange(jobs[1..], j - 1, job);
      assert jobs[j := job][1..] == jobs[1..][j - 1 := job];
    }
  }

  lemma {:induction false} StepsLeft(s: State, a: Action)
    requires Enabled(s, a) && !a.Submit?
    ensures Work(Next(s, a)) + 1 == Work(s)
  {
    hide HandsWork, Waiting;
    var r := Next(s, a);
    match a {
      case Take(w) => HandWorkChange(s.hands, w, r.hands[w]);
      case Call(w, _) =>
        HandWorkChange(s.hands, w, r.hands[w]);
        WaitingChange(s.jobs, s.hands[w].task.job, r.jobs[s.hands[w].task.job]);
      case Settle(w) =>
        HandWorkChange(s.hands, w, r.hands[w]);
        WaitingChange(s.jobs, s.hands[w].done.job, r.jobs[s.hands[w].done.job]);
      case Return(j) => WaitingChange(s.jobs, j, r.jobs[j]);
    }
  }

  /** Steps from s to r in which no new call is made. */
  ghost predicate Finishing(s: State, own: seq<Action>, r: State)
  {
    if own == [] then r == s
    else
      var last := own[|own| - 1];
      !last.Submit? && exists p: State :: Finishing(s, own[..|own| - 1], p) && Steps(p, last, r)
  }

  lemma {:induction false} Then(threads: nat, actions: seq<Action>, p: State, a: Action, r: State)
    requires Reaches(threads, actions, p) && Steps(p, a, r)
    ensures Reaches(threads, actions + [a], r)
  {
    var longer := actions + [a];
    assert longer[..|longer| - 1] == actions && longer[|longer| - 1] == a;
  }

  lemma {:induction false} FinishingReaches(threads: nat, actions: seq<Action>, s: State, own: seq<Action>, r: State)
    requires Reaches(threads, actions, s) && Finishing(s, own, r)
    ensures Reaches(threads, actions + own, r)
    decreases |own|
  {
    hide Steps, Init;
    if own == [] {
      assert actions + own == actions;
    } else {
      var last := own[|own| - 1];
      var p :| Finishing(s, own[..|own| - 1], p) && Steps(p, last, r);
      FinishingReaches(threads, actions, s, own[..|own| - 1], p);
      Then(threads, actions + own[..|own| - 1], p, last, r);
      assert actions + own == actions + own[..|own| - 1] + [last];
    }
  }

  /** Once no new call is made, the workers and callers take exactly the steps
      left, in whatever order: if they can take no more, every call has returned. */
  lemma {:induction false} EveryCallReturns(threads: nat, actions: seq<Action>, s: State, own: seq<Action>, r: State)
    requires Reaches(threads, actions, s) && Finishing(s, own, r)
    ensures |own| + Work(r) == Work(s)
    ensures (forall a: Action :: Enabled(r, a) ==> a.Submit?) ==> forall j: nat :: j < |r.jobs| ==> r.jobs[j].returned
    decreases |own|
  {
    hide Work, Enabled;
    if own != [] {
      var last := own[|own| - 1];
      var p :| Finishing(s, own[..|own| - 1], p) && Steps(p, last, r);
      EveryCallReturns(threads, actions, s, own[..|own| - 1], p);
      StepsLeft(p, last);
    }
    FinishingReaches(threads, actions, s, own, r);
    forall j: nat | j < |r.jobs| && !r.jobs[j].returned
      ensures exists a: Action :: Enabled(r, a) && !a.Submit?
    {
      var a := CallersAreServed(threads, actions + own, r, j);
    }
  }
}

/** The preemptive priority executor (mqtt/mqtt_executor.c): any number of threads post tasks, one worker
    takes a whole batch of the highest priority and parks the rest of it when a task of higher priority
    arrives.

    The worker's loop is cut at the points where another thread can act: the critical sections under
    the lock, the atomic read of `preempt`, and the execution of a task. */
module Executor {

  type Task = int

  datatype Level = Level(mainBuf: seq<Task>, auxBuf: seq<Task>, breakPoint: nat) {
    predicate Ok() {
      auxBuf != [] ==> breakPoint < |auxBuf|
    }

    /** The tasks waiting at this priority, in the order in which they will run. */
    function Queued(): seq<Task> {
      (if breakPoint < |auxBuf| then auxBuf[breakPoint..] else []) + mainBuf
    }
  }

  datatype Worker =
    | Idle                                           // about to take the lock and select
    | Running(pri: nat, tasks: seq<Task>, next: nat)   // about to read `preempt`
    | Executing(pri: nat, tasks: seq<Task>, next: nat) // has passed the check
    | Parking(pri: nat, tasks: seq<Task>, next: nat)   // has seen `preempt`, about to take the lock

  datatype State = State(
    exec: seq<Level>, executingPri: int, preempt: bool, taskTotal: int, worker: Worker,
    posted: seq<seq<Task>>, executed: seq<seq<Task>>)   // histories, one list a priority

  function Init(priorities: nat): State {
    State(seq(priorities, _ => Level([], [], 0)), -1, false, 0, Idle,
          seq(priorities, _ => []), seq(priorities, _ => []))
  }

  datatype Event = Post(task: Task, pri: nat) | Select | Check | Execute | Park

  function Posting(s: State, task: Task, pri: nat): State
    requires pri < |s.exec| == |s.posted|
  {
    var c := s.exec[pri];
    s.(exec := s.exec[pri := c.(mainBuf := c.mainBuf + [task])],
       taskTotal := s.taskTotal + 1,
       preempt := s.preempt || s.executingPri < pri,
       posted := s.posted[pri := s.posted[pri] + [task]])
  }

  /** The selection loop: the highest priority with a non-empty buffer, or -1. */
  function Highest(exec: seq<Level>): (i: int)
    ensures -1 <= i < |exec|
    ensures 0 <= i ==> exec[i].mainBuf != [] || exec[i].auxBuf != []
    ensures forall p :: i < p < |exec| ==> exec[p].mainBuf == [] && exec[p].auxBuf == []
  {
    if exec == [] then -1
    else
      var last := exec[|exec| - 1];
      if last.mainBuf != [] || last.auxBuf != [] then |exec| - 1 else Highest(exec[..|exec| - 1])
  }

  /** Taking a batch of priority i: the parked one from its break point, or everything posted. */
  function Selecting(s: State, i: nat): State
    requires i < |s.exec|
  {
    var c := s.exec[i];
    var parked := c.auxBuf != [];
    var tasks, start := if parked then c.auxBuf else c.mainBuf, if parked then c.breakPoint else 0;
    s.(exec := s.exec[i := if parked then c.(auxBuf := []) else c.(mainBuf := [])],
       executingPri := i, preempt := false,
       taskTotal := s.taskTotal - (|tasks| - start),
       worker := Running(i, tasks, start))
  }

  /** Events that are not possible leave the state as it is. */
  function Step(s: State, e: Event): State
    requires |s.exec| == |s.posted| == |s.executed|
  {
    var w := s.worker;
    match e
    case Post(task, pri) => if pri < |s.exec| then Posting(s, task, pri) else s
    case Select => if w.Idle? && s.taskTotal > 0 && Highest(s.exec) >= 0 then Selecting(s, Highest(s.exec)) else s
    case Check =>
      if !w.Running? then s
      else if w.next >= |w.tasks| then s.(worker := Idle)
      else if s.preempt then s.(worker := Parking(w.pri, w.tasks, w.next))
      else s.(worker := Executing(w.pri, w.tasks, w.next))
    case Execute =>
      if w.Executing? && w.next < |w.tasks| && w.pri < |s.executed| then
        s.(worker := Running(w.pri, w.tasks, w.next + 1),
           executed := s.executed[w.pri := s.executed[w.pri] + [w.tasks[w.next]]])
      else s
    case Park =>
      if w.Parking? && w.pri < |s.exec| then
        s.(exec := s.exec[w.pri := s.exec[w.pri].(auxBuf := w.tasks, breakPoint := w.next)],
           taskTotal := s.taskTotal + (|w.tasks| - w.next), worker := Idle)
      else s
  }

  // ---------- the invariant ----------

  /** The tasks of priority p that the worker holds and has not run. */
  function Hand(w: Worker, p: nat): seq<Task> {
    if w.Idle? || w.pri != p || w.next > |w.tasks| then [] else w.tasks[w.next..]
  }

  function Total(exec: seq<Level>): nat {
    if exec == [] then 0 else Total(exec[..|exec| - 1]) + |exec[|exec| - 1].Queued()|
  }

  /** Buffers, counters and the worker's batch fit together. */
  ghost predicate Sound(s: State) {
    && |s.exec| == |s.posted| == |s.executed|
    && (forall p :: 0 <= p < |s.exec| ==> s.exec[p].Ok())
    && s.taskTotal == Total(s.exec)
    && (!s.worker.Idle? ==>
          && s.worker.pri < |s.exec| && s.executingPri == s.worker.pri
          && s.exec[s.worker.pri].auxBuf == [] && s.worker.next <= |s.worker.tasks|)
    && (s.worker.Executing? || s.worker.Parking? ==> s.worker.next < |s.worker.tasks|)
  }

  /** Nothing posted is lost, repeated or reordered. */
  ghost predicate Conserved(s: State)
    requires Sound(s)
  {
    forall p :: 0 <= p < |s.exec| ==> s.posted[p] == s.executed[p] + Hand(s.worker, p) + s.exec[p].Queued()
  }

  /** Unless `preempt` is set, nothing waits above the priority that is being executed. */
  ghost predicate Ordered(s: State)
    requires Sound(s)
  {
    !s.worker.Idle? && !s.preempt ==> forall p :: s.worker.pri < p < |s.exec| ==> s.exec[p].Queued() == []
  }

  /** Something waits above priority pri. */
  ghost predicate MoreUrgent(exec: seq<Level>, pri: nat) {
    exists p :: pri < p < |exec| && exec[p].Queued() != []
  }

  /** `preempt` is set during a batch only because something waits above it. */
  ghost predicate Justified(s: State)
    requires Sound(s)
  {
    && (!s.worker.Idle? && s.preempt ==> MoreUrgent(s.exec, s.worker.pri))
    && (s.worker.Parking? ==> s.preempt)
  }

  ghost predicate Inv(s: State) {
    Sound(s) && Conserved(s) && Ordered(s) && Justified(s)
  }

  lemma {:induction false} TotalUpdate(exec: seq<Level>, i: nat, c: Level)
    requires i < |exec|
    ensures Total(exec[i := c]) == Total(exec) - |exec[i].Queued()| + |c.Queued()|
    decreases |exec|
  {
    var n, exec' := |exec| - 1, exec[i := c];
    if i == n {
      assert exec'[..n] == exec[..n];
    } else {
      assert exec'[..n] == exec[..n][i := c] && exec'[n] == exec[n];
      TotalUpdate(exec[..n], i, c);
    }
  }

  /** A positive count means that the selection loop finds something. */
  lemma {:induction false} TotalPositive(exec: seq<Level>)
    requires forall p :: 0 <= p < |exec| ==> exec[p].Ok()
    ensures Total(exec) > 0 <==> Highest(exec) >= 0
    decreases |exec|
  {
    if exec != [] {
      TotalPositive(exec[..|exec| - 1]);
    }
  }

  lemma PostedQueue(c: Level, task: Task)
    ensures c.(mainBuf := c.mainBuf + [task]).Queued() == c.Queued() + [task]
  {
  }

  lemma PostSound(s: State, task: Task, pri: nat)
    requires Sound(s) && pri < |s.exec|
    ensures Sound(Posting(s, task, pri))
  {
    PostedQueue(s.exec[pri], task);
    TotalUpdate(s.exec, pri, Posting(s, task, pri).exec[pri]);
  }

  lemma Assoc3(a: seq<Task>, b: seq<Task>, c: seq<Task>)
    ensures a + b + c == a + (b + c)
  {
  }

  lemma PostConserved(s: State, task: Task, pri: nat)
    requires Sound(s) && Conserved(s) && pri < |s.exec| && Sound(Posting(s, task, pri))
    ensures Conserved(Posting(s, task, pri))
  {
    var t := Posting(s, task, pri);
    PostedQueue(s.exec[pri], task);
    Assoc3(s.executed[pri] + Hand(s.worker, pri), s.exec[pri].Queued(), [task]);
    forall p | 0 <= p < |t.exec| ensures t.posted[p] == t.executed[p] + Hand(t.worker, p) + t.exec[p].Queued() {
      assert s.posted[p] == s.executed[p] + Hand(s.worker, p) + s.exec[p].Queued();
    }
  }

  lemma PostKeeps(s: State, task: Task, pri: nat)
    requires Inv(s) && pri < |s.exec|
    ensures Inv(Posting(s, task, pri))
  {
    PostSound(s, task, pri);
    PostConserved(s, task, pri);
    PostJustified(s, task, pri);
  }

  lemma PostJustified(s: State, task: Task, pri: nat)
    requires Sound(s) && Justified(s) && pri < |s.exec| && Sound(Posting(s, task, pri))
    ensures Justified(Posting(s, task, pri))
  {
    var t := Posting(s, task, pri);
    PostedQueue(s.exec[pri], task);
    if !s.worker.Idle? && t.preempt {
      if s.preempt {
        var p :| s.worker.pri < p < |s.exec| && s.exec[p].Queued() != [];
        assert t.exec[p].Queued() != [];
      } else {
        assert t.exec[pri].Queued() != [];
      }
    }
  }

  lemma SelectSound(s: State, i: nat)
    requires Sound(s) && s.worker.Idle? && i < |s.exec|
    ensures Sound(Selecting(s, i))
    ensures s.exec[i].Queued() == Hand(Selecting(s, i).worker, i) + Selecting(s, i).exec[i].Queued()
  {
    TotalUpdate(s.exec, i, Selecting(s, i).exec[i]);
  }

  lemma SelectConserved(s: State, i: nat)
    requires Sound(s) && Conserved(s) && s.worker.Idle? && i < |s.exec| && Sound(Selecting(s, i))
    requires s.exec[i].Queued() == Hand(Selecting(s, i).worker, i) + Selecting(s, i).exec[i].Queued()
    ensures Conserved(Selecting(s, i))
  {
    var t := Selecting(s, i);
    Assoc3(s.executed[i], Hand(t.worker, i), t.exec[i].Queued());
    forall p | 0 <= p < |t.exec| ensures t.posted[p] == t.executed[p] + Hand(t.worker, p) + t.exec[p].Queued() {
      assert s.posted[p] == s.executed[p] + Hand(s.worker, p) + s.exec[p].Queued();
      assert s.executed[p] + [] == s.executed[p];
    }
  }

  lemma SelectKeeps(s: State)
    requires Inv(s) && s.worker.Idle? && s.taskTotal > 0
    ensures Highest(s.exec) >= 0 && Inv(Selecting(s, Highest(s.exec)))
  {
    TotalPositive(s.exec);
    var i := Highest(s.exec);
    SelectSound(s, i);
    SelectConserved(s, i);
  }

  lemma SelectStep(s: State, i: nat, t: State)
    requires Inv(s) && s.worker.Idle? && s.taskTotal > 0 && i < |s.exec| && i == Highest(s.exec) && t == Selecting(s, i)
    ensures t == Step(s, Select) && Inv(t)
  {
    SelectKeeps(s);
  }

  lemma ExecuteKeeps(s: State)
    requires Inv(s) && s.worker.Executing?
    ensures Inv(Step(s, Execute))
  {
    var t, w := Step(s, Execute), s.worker;
    forall p | 0 <= p < |t.exec| ensures t.posted[p] == t.executed[p] + Hand(t.worker, p) + t.exec[p].Queued() {
      if p == w.pri {
        assert Hand(w, p) == [w.tasks[w.next]] + Hand(t.worker, p);
        assert s.executed[p] + ([w.tasks[w.next]] + Hand(t.worker, p)) == t.executed[p] + Hand(t.worker, p);
      }
    }
  }

  lemma ParkKeeps(s: State)
    requires Inv(s) && s.worker.Parking?
    ensures Inv(Step(s, Park))
  {
    var t, w := Step(s, Park), s.worker;
    TotalUpdate(s.exec, w.pri, t.exec[w.pri]);
    assert t.exec[w.pri].Queued() == Hand(w, w.pri) + s.exec[w.pri].Queued();
    forall p | 0 <= p < |t.exec| ensures t.posted[p] == t.executed[p] + Hand(t.worker, p) + t.exec[p].Queued() {
      if p == w.pri {
        assert s.executed[p] + Hand(w, p) + s.exec[p].Queued() == s.executed[p] + [] + (Hand(w, p) + s.exec[p].Queued());
      }
    }
  }

  lemma StepKeeps(s: State, e: Event)
    requires Inv(s)
    ensures Inv(Step(s, e))
  {
    match e
    case Post(task, pri) => if pri < |s.exec| { PostKeeps(s, task, pri); }
    case Select => if s.worker.Idle? && s.taskTotal > 0 { SelectKeeps(s); }
    case Check => CheckKeeps(s);
    case Execute => if s.worker.Executing? { ExecuteKeeps(s); }
    case Park => if s.worker.Parking? { ParkKeeps(s); }
  }

  lemma CheckKeeps(s: State)
    requires Inv(s)
    ensures Inv(Step(s, Check))
  {
    var t := Step(s, Check);
    assert forall p :: 0 <= p < |t.exec| ==> Hand(t.worker, p) == Hand(s.worker, p);
  }

  // ---------- runs ----------

  function Run(s: State, es: seq<Event>): State
    requires |s.exec| == |s.posted| == |s.executed|
    decreases |es|
  {
    if es == [] then s else Run(Step(s, es[0]), es[1..])
  }

  lemma {:induction false} RunKeeps(s: State, es: seq<Event>)
    requires Inv(s)
    ensures Inv(Run(s, es))
    decreases |es|
  {
    if es != [] {
      StepKeeps(s, es[0]);
      RunKeeps(Step(s, es[0]), es[1..]);
    }
  }

  lemma {:induction false} InitInv(priorities: nat)
    ensures Inv(Init(priorities))
  {
    var s := Init(priorities);
    InitTotal(s.exec);
    assert forall p :: 0 <= p < |s.exec| ==> s.exec[p].Queued() == [];
  }

  lemma {:induction false} InitTotal(exec: seq<Level>)
    requires forall p :: 0 <= p < |exec| ==> exec[p] == Level([], [], 0)
    ensures Total(exec) == 0
    decreases |exec|
  {
    if exec != [] {
      InitTotal(exec[..|exec| - 1]);
    }
  }

  /** Conservation and order, for every interleaving of posts and worker steps: at each priority the tasks
      posted are those executed, then those in the worker's hand, then the parked and the new ones;
      and the counter is the number of queued tasks. */
  lemma RunsInPostOrder(priorities: nat, es: seq<Event>)
    ensures var s := Run(Init(priorities), es);
            && |s.exec| == |s.posted| == |s.executed|
            && s.taskTotal == Total(s.exec)
            && forall p :: 0 <= p < |s.exec| ==>
                 && s.posted[p] == s.executed[p] + Hand(s.worker, p) + s.exec[p].Queued()
                 && s.executed[p] <= s.posted[p]
  {
    InitInv(priorities);
    RunKeeps(Init(priorities), es);
  }

  /** Priority safety: a task passes the check only while nothing of higher priority is queued, and whenever
      the counter is positive the selection finds a task of the highest queued priority. */
  lemma PrioritySafety(priorities: nat, es: seq<Event>)
    ensures var s := Run(Init(priorities), es);
            && |s.exec| == |s.posted| == |s.executed|
            && (s.worker.Running? && Step(s, Check).worker.Executing? ==>
                  forall p :: s.worker.pri < p < |s.exec| ==> s.exec[p].Queued() == [])
            && (s.taskTotal > 0 ==>
                  var i := Highest(s.exec);
                  0 <= i && s.exec[i].Queued() != [] && forall p :: i < p < |s.exec| ==> s.exec[p].Queued() == [])
  {
    InitInv(priorities);
    RunKeeps(Init(priorities), es);
    TotalPositive(Run(Init(priorities), es).exec);
  }

  /** A batch is parked only for something more urgent: in every run, when the worker is about to park its batch, a task
      of higher priority is queued. */
  lemma ParksForMoreUrgent(priorities: nat, es: seq<Event>)
    ensures var s := Run(Init(priorities), es);
            s.worker.Parking? ==> MoreUrgent(s.exec, s.worker.pri)
  {
    InitInv(priorities);
    RunKeeps(Init(priorities), es);
  }

  // ---------- progress ----------

  function Remaining(s: State): nat {
    Total(s.exec) + if s.worker.Idle? then 0 else |Hand(s.worker, s.worker.pri)|
  }

  /** How far the worker is from running its next task. */
  function Phase(s: State): nat {
    match s.worker
    case Idle => 3
    case Running(_, tasks, next) => if next >= |tasks| then 4 else if s.preempt then 5 else 2
    case Executing(_, _, _) => 1
    case Parking(_, _, _) => 4
  }

  function Work(s: State): nat {
    6 * Remaining(s) + Phase(s)
  }

  predicate WorkerEvent(s: State, e: Event) {
    match e
    case Post(_, _) => false
    case Select => s.worker.Idle? && s.taskTotal > 0
    case Check => s.worker.Running?
    case Execute => s.worker.Executing?
    case Park => s.worker.Parking?
  }

  lemma WorkerProgress(s: State, e: Event)
    requires Inv(s) && WorkerEvent(s, e)
    ensures Inv(Step(s, e)) && Work(Step(s, e)) < Work(s)
  {
    StepKeeps(s, e);
    var t := Step(s, e);
    match e
    case Select =>
      TotalPositive(s.exec);
      SelectSound(s, Highest(s.exec));
    case Check =>
    case Execute =>
    case Park =>
      TotalUpdate(s.exec, s.worker.pri, t.exec[s.worker.pri]);
  }

  predicate OnlyWorker(s: State, es: seq<Event>)
    requires |s.exec| == |s.posted| == |s.executed|
    decreases |es|
  {
    es == [] || (WorkerEvent(s, es[0]) && OnlyWorker(Step(s, es[0]), es[1..]))
  }

  /** When no more tasks are posted the worker comes to rest, and then every posted task has been
      executed exactly once. */
  lemma {:induction false} EverythingRuns(s: State, es: seq<Event>)
    requires Inv(s) && OnlyWorker(s, es)
    ensures |es| <= Work(s)
    ensures var t := Run(s, es);
            t.posted == s.posted && ((forall e :: !WorkerEvent(t, e)) ==> t.executed == t.posted)
    decreases |es|
  {
    if es != [] {
      WorkerProgress(s, es[0]);
      EverythingRuns(Step(s, es[0]), es[1..]);
    } else if forall e :: !WorkerEvent(s, e) {
      AtRest(s);
    }
  }

  lemma AtRest(s: State)
    requires Inv(s) && forall e :: !WorkerEvent(s, e)
    ensures s.executed == s.posted
  {
    assert !WorkerEvent(s, Select) && !WorkerEvent(s, Check) && !WorkerEvent(s, Execute) && !WorkerEvent(s, Park);
    TotalPositive(s.exec);
    forall p | 0 <= p < |s.exec| ensures s.executed[p] == s.posted[p] {
      assert s.posted[p] == s.executed[p] + Hand(s.worker, p) + s.exec[p].Queued();
    }
  }

  // ---------- the executor and its worker thread ----------

  /** Each method is one atomic step of a thread; `worker` holds the local variables of the worker's loop. */
  class PriorityExecutor {
    const exec: array<Level>
    var executingPri: int
    var preempt: bool
    var taskTotal: int
    var worker: Worker
    ghost var posted: seq<seq<Task>>
    ghost var executed: seq<seq<Task>>

    ghost function View(): State
      reads this, exec
    {
      State(exec[..], executingPri, preempt, taskTotal, worker, posted, executed)
    }

    ghost predicate Valid()
      reads this, exec
    {
      Inv(View())
    }

    constructor (priorities: nat)
      ensures Valid() && fresh(exec) && View() == Init(priorities)
    {
      exec := new Level[priorities](_ => Level([], [], 0));
      executingPri, preempt, taskTotal, worker := -1, false, 0, Idle;
      posted, executed := seq(priorities, _ => []), seq(priorities, _ => []);
      new;
      assert exec[..] == Init(priorities).exec;
      InitInv(priorities);
    }

    method PostTask(task: Task, pri: nat)
      requires Valid() && pri < exec.Length
      modifies this, exec
      ensures Valid() && View() == Step(old(View()), Post(task, pri))
    {
      ghost var s := View();
      exec[pri] := exec[pri].(mainBuf := exec[pri].mainBuf + [task]);
      taskTotal := taskTotal + 1;
      if executingPri < pri {
        preempt := true;
      }
      posted := posted[pri := posted[pri] + [task]];
      assert View().exec == Posting(s, task, pri).exec;
      StepKeeps(s, Post(task, pri));
    }

    /** The downward scan for the highest priority that has work. */
    method FindWork() returns (i: int)
      requires Valid() && taskTotal > 0
      ensures 0 <= i < exec.Length && i == Highest(exec[..])
    {
      i := exec.Length - 1;
      while i >= 0 && exec[i].mainBuf == [] && exec[i].auxBuf == []
        invariant -1 <= i < exec.Length
        invariant Highest(exec[..]) <= i
      {
        i := i - 1;
      }
      TotalPositive(exec[..]);
    }

    method SelectBatch()
      requires Valid() && worker.Idle? && taskTotal > 0
      modifies this, exec
      ensures Valid() && View() == Step(old(View()), Select)
      ensures worker.Running? && posted == old(posted) && executed == old(executed)
    {
      ghost var s := View();
      var i := FindWork();
      executingPri, preempt := i, false;
      var tasks, start := TakeTasks(i);
      taskTotal := taskTotal - (|tasks| - start);
      worker := Running(i, tasks, start);
      SelectStep(s, i, View());
    }

    method TakeTasks(i: nat) returns (tasks: seq<Task>, start: nat)
      requires i < exec.Length
      modifies exec
      ensures var c := old(exec[i]); var parked := c.auxBuf != [];
              && tasks == (if parked then c.auxBuf else c.mainBuf) && start == (if parked then c.breakPoint else 0)
              && exec[..] == old(exec[..])[i := if parked then c.(auxBuf := []) else c.(mainBuf := [])]
    {
      var c := exec[i];
      if c.auxBuf != [] {
        tasks, start := c.auxBuf, c.breakPoint;
        exec[i] := c.(auxBuf := []);
      } else {
        tasks, start := c.mainBuf, 0;
        exec[i] := c.(mainBuf := []);
      }
    }

    method CheckPreempt()
      requires Valid() && worker.Running?
      modifies this`worker
      ensures Valid() && View() == Step(old(View()), Check)
      ensures worker.Executing? ==> forall p :: worker.pri < p < exec.Length ==> exec[p].Queued() == []
    {
      ghost var s := View();
      if worker.next >= |worker.tasks| {
        worker := Idle;
      } else if preempt {
        worker := Parking(worker.pri, worker.tasks, worker.next);
      } else {
        worker := Executing(worker.pri, worker.tasks, worker.next);
      }
      StepKeeps(s, Check);
      assert worker.Executing? ==> forall p :: worker.pri < p < exec.Length ==> View().exec[p].Queued() == [];
    }

    method ExecuteTask()
      requires Valid() && worker.Executing?
      modifies this
      ensures Valid() && View() == Step(old(View()), Execute)
    {
      ghost var s := View();
      executed := executed[worker.pri := executed[worker.pri] + [worker.tasks[worker.next]]];
      worker := Running(worker.pri, worker.tasks, worker.next + 1);
      StepKeeps(s, Execute);
    }

    method ParkBatch()
      requires Valid() && worker.Parking?
      modifies this, exec
      ensures Valid() && View() == Step(old(View()), Park)
    {
      ghost var s := View();
      var pri := worker.pri;
      taskTotal := taskTotal + (|worker.tasks| - worker.next);
      exec[pri] := exec[pri].(auxBuf := worker.tasks, breakPoint := worker.next);
      worker := Idle;
      assert View().exec == Step(s, Park).exec;
      StepKeeps(s, Park);
    }

    /** The worker's loop from one wait for work to the next, when no task is posted meanwhile. */
    method DrainBatch()
      requires Valid() && worker.Running?
      modifies this, exec
      ensures Valid() && worker.Idle? && posted == old(posted) && Work(View()) < old(Work(View()))
    {
      while !worker.Idle?
        invariant Valid() && posted == old(posted)
        invariant Work(View()) < old(Work(View())) || (worker.Running? && Work(View()) == old(Work(View())))
        decreases Work(View())
      {
        ghost var s := View();
        if worker.Running? {
          WorkerProgress(s, Check);
          CheckPreempt();
        } else if worker.Executing? {
          WorkerProgress(s, Execute);
          ExecuteTask();
        } else {
          WorkerProgress(s, Park);
          ParkBatch();
        }
      }
    }

    /** With no more posts, the worker's loop runs everything, each task once and in post order. */
    method DrainAll()
      requires Valid() && worker.Idle?
      modifies this, exec
      ensures Valid() && worker.Idle? && taskTotal == 0
      ensures posted == old(posted) && executed == posted
    {
      while taskTotal > 0
        invariant Valid() && worker.Idle? && posted == old(posted)
        decreases Work(View())
      {
        WorkerProgress(View(), Select);
        SelectBatch();
        DrainBatch();
      }
      AtRest(View());
    }
  }
}

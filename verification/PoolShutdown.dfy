/** When the destructor of the pool ends: exactly when it can hang, for a free admission test
    and for the test of thread_pool.h. */
module PoolShutdown {
  import opened WaitLists
  import opened Pool
  import opened PoolRuns

  predicate Waits(w: Worker) {
    w.phase.Waiting?
  }

  /** Some task that would be put back is queued, on its way or in hand. */
  predicate PutBackLeft(s: State, p: Policy) {
    || (exists t :: t in s.list.nodes && p(t))
    || (exists t :: t in s.flight && p(t))
    || (exists w :: 0 <= w < |s.workers| && !CanAdmit(s.workers[w], p))
  }

  /** More workers wait than there are tasks to wake them, and no task serves twice. */
  predicate Hung(s: State, p: Policy) {
    Count(s.workers, Waits) > |s.list.nodes| + |s.flight| && !PutBackLeft(s, p)
  }

  // ------------------------------------------------------------ a hung pool stays hung

  lemma WorkerStepHung(s: State, s': State, w: nat, p: Policy)
    requires Hung(s, p) && w < |s.workers| == |s'.workers|
    requires s'.workers == s.workers[w := s'.workers[w]] && CanAdmit(s'.workers[w], p)
    requires s'.flight == s.flight && forall t :: t in s'.list.nodes ==> t in s.list.nodes
    requires |s'.list.nodes| + (if Waits(s.workers[w]) then 1 else 0)
             <= |s.list.nodes| + if Waits(s'.workers[w]) then 1 else 0
    ensures Hung(s', p)
  {
    CountUpdate(s.workers, Waits, w, s'.workers[w]);
    assert forall v :: 0 <= v < |s.workers| && v != w ==> s'.workers[v] == s.workers[v];
  }

  lemma PutHung(s: State, k: nat, p: Policy)
    requires Hung(s, p) && k < |s.flight|
    ensures Hung(DoPut(s, k), p)
  {
    var s', t := DoPut(s, k), s.flight[k];
    assert t in s.flight;
    forall u | u in s'.flight ensures u in s.flight {}
    forall u | u in s'.list.nodes ensures u in s.list.nodes || u == t {}
  }

  lemma HungFacts(s: State, p: Policy)
    requires Hung(s, p)
    ensures !AllExited(s.workers)
    ensures forall w :: 0 <= w < |s.workers| ==> CanAdmit(s.workers[w], p)
    ensures forall t :: t in s.list.nodes ==> !p(t)
  {
    CountFinds(s.workers, Waits);
  }

  lemma OthersHung(s: State, s': State, p: Policy)
    requires Hung(s, p) && s'.workers == s.workers && s'.list == s.list && s'.flight == s.flight
    ensures Hung(s', p)
  {}

  lemma StepHung(s: State, a: Action, p: Policy)
    requires Hung(s, p) && s.life.Closing? && s.list.alive && StepObeys(s, a, p)
    ensures Hung(Apply(s, a), p) && Apply(s, a).life.Closing? && Apply(s, a).list.alive
  {
    hide Hung;
    HungFacts(s, p);
    var s' := Apply(s, a);
    match a
    case PutPending(k) => if k < |s.flight| { PutHung(s, k, p); }
    case Loop(w) => if In(s, w, Top) { WorkerStepHung(s, s', w, p); }
    case KeepOpen(w) => if In(s, w, Gathering) { WorkerStepHung(s, s', w, p); }
    case Close(w) => if In(s, w, Gathering) { WorkerStepHung(s, s', w, p); }
    case TakeHead(w) =>
      if In(s, w, Waiting) && Consistent(s.list) && s.list.num > 0 {
        WorkerStepHung(s, s', w, p);
      }
    case Admit(w) => if w < |s.workers| && s.workers[w].phase.Holding? { WorkerStepHung(s, s', w, p); }
    case Reply(w) => if In(s, w, Replying) { WorkerStepHung(s, s', w, p); }
    case AddTask(_) => OthersHung(s, s', p);
    case _ =>
  }

  lemma {:induction false} HungForever(s: State, acts: seq<Action>, p: Policy)
    requires Hung(s, p) && s.life.Closing? && s.list.alive && RunObeys(s, acts, p)
    ensures Hung(Exec(s, acts), p) && Exec(s, acts).life.Closing? && Exec(s, acts).list.alive
  {
    if acts != [] {
      hide Hung, Apply, StepObeys;
      HungForever(s, acts[..|acts| - 1], p);
      StepHung(Exec(s, acts[..|acts| - 1]), acts[|acts| - 1], p);
    }
  }

  // ------------------------------------------------------------ any other pool can end

  /** A worker of a closing pool that does not wait answers what it has and exits; a task in its
      hand is admitted or put back as the test says. */
  lemma Leave(s: State, n: nat, w: nat, p: Policy) returns (s': State)
    requires Inv(s, n) && s.life.Closing? && w < n && !Waits(s.workers[w])
    ensures Leads(s, s', p) && s'.life == s.life && s'.flight == s.flight
    ensures |s'.workers| == n && s'.workers == s.workers[w := Worker(Exited, s'.workers[w].batch)]
    ensures s'.list == if CanAdmit(s.workers[w], p) then s.list else PutFront(s.list, s.workers[w].phase.task)
  {
    hide Leads, ListShape, Conserved, PutFront;
    Stay(s, p);
    if s.workers[w].phase.Exited? {
      s' := s;
    } else if s.workers[w].phase.Top? {
      s' := Apply(s, Loop(w));
      AndThen(s, s, Loop(w), p);
    } else {
      var mid := ToReplying(s, w, p);
      var top := Answered(mid, w);
      ReplyAll(mid, w, p);
      Join(s, mid, top, p);
      s' := Apply(top, Loop(w));
      AndThen(s, top, Loop(w), p);
    }
  }

  lemma ToReplying(s: State, w: nat, p: Policy) returns (s': State)
    requires w < |s.workers|
    requires s.workers[w].phase.Gathering? || s.workers[w].phase.Holding? || s.workers[w].phase.Replying?
    ensures Leads(s, s', p) && s'.life == s.life && s'.flight == s.flight
    ensures |s'.workers| == |s.workers| && s'.workers[w].phase == Replying
    ensures s'.workers == s.workers[w := s'.workers[w]]
    ensures s'.list == if CanAdmit(s.workers[w], p) then s.list else PutFront(s.list, s.workers[w].phase.task)
  {
    hide Leads, PutFront;
    Stay(s, p);
    if s.workers[w].phase.Replying? {
      s' := s;
    } else if !CanAdmit(s.workers[w], p) {
      s' := Apply(s, Return(w));
      AndThen(s, s, Return(w), p);
    } else {
      var mid := s;
      if s.workers[w].phase.Holding? {
        mid := Apply(s, Admit(w));
        AndThen(s, s, Admit(w), p);
      }
      s' := Apply(mid, Close(w));
      AndThen(s, mid, Close(w), p);
    }
  }

  lemma HeadTaken(s: State, n: nat, w: nat)
    requires Inv(s, n) && s.list.alive && w < n && Waits(s.workers[w]) && s.list.nodes != []
    ensures var s', t := Apply(s, TakeHead(w)), s.list.nodes[0];
            && |s.workers| == |s'.workers| == n && s'.workers[w].phase == Holding(t)
            && s'.workers == s.workers[w := s'.workers[w]]
            && s'.flight == s.flight && s'.life == s.life && s'.list.alive && s'.list.nodes == s.list.nodes[1..]
            && PutFront(s'.list, t).nodes == s.list.nodes
  {
    hide Conserved, Control;
    PutFrontUndoesTake(s.list);
  }

  /** The head of the queue wakes a waiting worker, which exits; a task that is put back is the
      head again. */
  lemma WakeOne(s: State, n: nat, w: nat, p: Policy) returns (s': State)
    requires Inv(s, n) && s.life.Closing? && s.list.alive && w < n && Waits(s.workers[w]) && s.list.nodes != []
    ensures Leads(s, s', p) && s'.life == s.life && s'.flight == s.flight && Inv(s', n) && s'.list.alive
    ensures s'.workers == s.workers[w := Worker(Exited, s'.workers[w].batch)]
    ensures s'.list.nodes == if p(s.list.nodes[0]) then s.list.nodes else s.list.nodes[1..]
  {
    hide Leads, Inv, Apply;
    OneStep(s, TakeHead(w), p);
    var mid := Apply(s, TakeHead(w));
    HeadTaken(s, n, w);
    LeadsKeeps(s, mid, p, n);
    s' := Leave(mid, n, w, p);
    Join(s, mid, s', p);
    LeadsKeeps(s, s', p, n);
  }

  lemma WakeKeepsHope(s: State, s': State, w: nat, p: Policy)
    requires w < |s.workers| && Waits(s.workers[w]) && s.list.nodes != [] && !Hung(s, p)
    requires |s'.workers| == |s.workers| && s'.workers == s.workers[w := Worker(Exited, s'.workers[w].batch)]
    requires s'.flight == s.flight
    requires s'.list.nodes == if p(s.list.nodes[0]) then s.list.nodes else s.list.nodes[1..]
    ensures !Hung(s', p) && Count(s'.workers, Waits) == Count(s.workers, Waits) - 1
  {
    CountUpdate(s.workers, Waits, w, s'.workers[w]);
    if PutBackLeft(s, p) {
      assert forall t :: t in s.list.nodes && p(t) ==> t in s'.list.nodes;
      assert forall v :: 0 <= v < |s.workers| && v != w ==> s'.workers[v] == s.workers[v];
    } else {
      assert s.list.nodes[0] in s.list.nodes;
    }
  }

  /** If the queue is empty, a task on its way or one to be put back refills it. */
  lemma Feed(s: State, n: nat, p: Policy) returns (s': State)
    requires Inv(s, n) && s.life.Closing? && s.list.alive && !Hung(s, p) && Count(s.workers, Waits) > 0
    ensures Leads(s, s', p) && Inv(s', n) && s'.life.Closing? && s'.list.alive && s'.list.nodes != []
    ensures !Hung(s', p) && Count(s'.workers, Waits) == Count(s.workers, Waits)
  {
    hide Leads, Conserved, Control;
    Stay(s, p);
    s' := s;
    if s.list.nodes == [] {
      if s.flight != [] {
        s' := Apply(s, PutPending(0));
        AndThen(s, s, PutPending(0), p);
        FeedFromFlight(s, p);
      } else {
        var h :| 0 <= h < |s.workers| && !CanAdmit(s.workers[h], p);
        s' := Apply(s, Return(h));
        AndThen(s, s, Return(h), p);
        FeedFromHand(s, h, p);
      }
      LeadsKeeps(s, s', p, n);
    }
  }

  lemma FeedFromFlight(s: State, p: Policy)
    requires Consistent(s.list) && s.list.alive && s.list.nodes == [] && s.flight != [] && !Hung(s, p)
    ensures var s' := Apply(s, PutPending(0));
            s'.list.nodes != [] && s'.list.alive && s'.life == s.life && s'.workers == s.workers && !Hung(s', p)
  {
    var s', t := Apply(s, PutPending(0)), s.flight[0];
    assert s'.list.nodes == [t] && s'.flight == s.flight[1..];
    assert s.flight == [t] + s.flight[1..];
    assert forall u :: u in s.flight ==> u in s'.list.nodes || u in s'.flight;
  }

  lemma FeedFromHand(s: State, h: nat, p: Policy)
    requires Consistent(s.list) && s.list.alive && s.list.nodes == []
    requires h < |s.workers| && !CanAdmit(s.workers[h], p)
    ensures var s' := Apply(s, Return(h));
            && s'.list.nodes != [] && s'.list.alive && s'.life == s.life && !Hung(s', p)
            && Count(s'.workers, Waits) == Count(s.workers, Waits)
  {
    var s', t := Apply(s, Return(h)), s.workers[h].phase.task;
    assert s'.list.nodes == [t] && p(t) && t in s'.list.nodes;
    CountUpdate(s.workers, Waits, h, s'.workers[h]);
  }

  lemma {:induction false} Drain(s: State, n: nat, p: Policy) returns (s': State)
    requires Inv(s, n) && s.life.Closing? && s.list.alive && !Hung(s, p)
    ensures Leads(s, s', p) && Inv(s', n) && s'.life.Closing? && s'.list.alive && Count(s'.workers, Waits) == 0
    decreases Count(s.workers, Waits)
  {
    hide Leads, Hung, ListShape, Conserved, Control;
    if Count(s.workers, Waits) == 0 {
      s' := s;
      Stay(s, p);
    } else {
      var fed := Feed(s, n, p);
      CountFinds(fed.workers, Waits);
      var w :| 0 <= w < |fed.workers| && Waits(fed.workers[w]);
      var mid := WakeOne(fed, n, w, p);
      WakeKeepsHope(fed, mid, w, p);
      s' := Drain(mid, n, p);
      Join(s, fed, mid, p);
      Join(s, mid, s', p);
    }
  }

  /** Workers k, k + 1, ... leave one after the other. */
  lemma {:induction false} LeaveAll(s: State, n: nat, k: nat, p: Policy) returns (s': State)
    requires Inv(s, n) && s.life.Closing? && k <= n
    requires forall w :: 0 <= w < n ==> !Waits(s.workers[w])
    requires forall w :: 0 <= w < k ==> s.workers[w].phase.Exited?
    ensures Leads(s, s', p) && s'.life.Closing? && AllExited(s'.workers)
    decreases n - k
  {
    hide Leads, ListShape, Conserved, Control;
    if k == n {
      s' := s;
      Stay(s, p);
    } else {
      var mid := Leave(s, n, k, p);
      LeadsKeeps(s, mid, p, n);
      s' := LeaveAll(mid, n, k + 1, p);
      Join(s, mid, s', p);
    }
  }

  /** A closing pool that is not hung has a schedule that reaches the flush. */
  lemma FlushReached(s: State, n: nat, p: Policy) returns (s': State)
    requires Inv(s, n) && s.life.Closing? && s.list.alive && !Hung(s, p)
    ensures Leads(s, s', p) && !s'.list.alive
  {
    hide Leads, Hung, ListShape, Conserved, Control;
    var mid := Drain(s, n, p);
    CountFinds(mid.workers, Waits);
    var done := LeaveAll(mid, n, 0, p);
    Join(s, mid, done, p);
    s' := Apply(done, Flush);
    AndThen(s, done, Flush, p);
  }

  // ------------------------------------------------------------ the exact conditions

  /** Under a test `p` a closing pool can never reach its flush if and only if more workers wait
      than tasks are queued or on their way, and no task that `p` puts back is left. */
  lemma ShutdownHangsIff(s: State, n: nat, p: Policy)
    requires Inv(s, n) && s.life.Closing? && s.list.alive
    ensures (forall acts :: RunObeys(s, acts, p) ==> Exec(s, acts).list.alive) <==> Hung(s, p)
  {
    hide Hung, Inv, Apply, StepObeys;
    if Hung(s, p) {
      forall acts | RunObeys(s, acts, p) ensures Exec(s, acts).list.alive {
        HungForever(s, acts, p);
      }
    } else {
      var s' := FlushReached(s, n, p);
      var acts :| RunObeys(s, acts, p) && Exec(s, acts) == s';
      assert !Exec(s, acts).list.alive;
    }
  }

  /** The destructor has begun, nothing is queued, on its way or in hand, and a worker waits. */
  predicate Stuck(s: State) {
    && s.list.nodes == [] && s.flight == []
    && (forall w :: 0 <= w < |s.workers| ==> !s.workers[w].phase.Holding?)
    && exists w :: 0 <= w < |s.workers| && s.workers[w].phase.Waiting?
  }

  function PutAllBack(): Policy {
    t => true
  }

  lemma StuckIsHung(s: State)
    ensures Stuck(s) <==> Hung(s, PutAllBack())
  {
    CountFinds(s.workers, Waits);
    assert s.list.nodes != [] ==> s.list.nodes[0] in s.list.nodes;
    assert s.flight != [] ==> s.flight[0] in s.flight;
  }

  lemma StuckStays(s: State, a: Action)
    requires Stuck(s) && s.life.Closing? && s.list.alive
    ensures Stuck(Apply(s, a)) && Apply(s, a).life.Closing? && Apply(s, a).list.alive
  {
    var w :| 0 <= w < |s.workers| && s.workers[w].phase.Waiting?;
    assert Apply(s, a).workers[w].phase.Waiting?;
  }

  lemma {:induction false} StuckForever(s: State, acts: seq<Action>)
    requires Stuck(s) && s.life.Closing? && s.list.alive
    ensures Stuck(Exec(s, acts)) && Exec(s, acts).life.Closing? && Exec(s, acts).list.alive
  {
    if acts != [] {
      StuckForever(s, acts[..|acts| - 1]);
      hide Stuck, Apply;
      StuckStays(Exec(s, acts[..|acts| - 1]), acts[|acts| - 1]);
    }
  }

  /** With a free test: no run whatever reaches the flush if and only if the pool is stuck. */
  lemma FreeShutdownHangsIff(s: State, n: nat)
    requires Inv(s, n) && s.life.Closing? && s.list.alive
    ensures (forall acts :: Exec(s, acts).list.alive) <==> Stuck(s)
  {
    hide Stuck, Hung, Inv, Apply, StepObeys;
    if Stuck(s) {
      forall acts ensures Exec(s, acts).list.alive {
        StuckForever(s, acts);
      }
    } else {
      StuckIsHung(s);
      var s' := FlushReached(s, n, PutAllBack());
      var acts :| RunObeys(s, acts, PutAllBack()) && Exec(s, acts) == s';
      assert !Exec(s, acts).list.alive;
    }
  }

  // ------------------------------------------------------------ both hangs are reached

  /** A pool of n workers just started, with workers 0 and 1 waiting if there are two. */
  lemma Idle(n: nat) returns (s: State)
    requires n > 0
    ensures Leads(Init(n), s, Wide) && s.life.Running? && s.list == List([], 0, true) && s.flight == []
    ensures |s.workers| == n && In(s, 0, Waiting) && (n > 1 ==> In(s, 1, Waiting))
    ensures forall w :: 0 <= w < n ==> !s.workers[w].phase.Holding?
  {
    hide Leads;
    var s0 := Apply(Init(n), FinishStart);
    OneStep(Init(n), FinishStart, Wide);
    s := ToWaiting(s0, 0, Wide);
    Join(Init(n), s0, s, Wide);
    if n > 1 {
      var s1 := s;
      s := ToWaiting(s1, 1, Wide);
      Join(Init(n), s1, s, Wide);
    }
  }

  /** Every pool gets stuck when its destructor begins while a worker waits and nothing is left
      to do. */
  lemma StuckReached(n: nat) returns (s: State)
    requires n > 0
    ensures RealState(s, n) && s.life.Closing? && s.list.alive && Stuck(s)
  {
    var idle := Idle(n);
    s := Apply(idle, Stop);
    AndThen(Init(n), idle, Stop, Wide);
  }

  /** Under the real test a pool of two or more workers also hangs with a task still queued. */
  lemma HungWithATaskReached(n: nat) returns (s: State)
    requires n > 1
    ensures RealState(s, n) && s.life.Closing? && s.list.alive
    ensures |s.list.nodes| == 1 && Hung(s, Wide) && !Stuck(s)
  {
    hide Leads;
    var idle := Idle(n);
    var queued := Enqueue(idle, 0, Wide);
    Join(Init(n), idle, queued, Wide);
    s := Apply(queued, Stop);
    AndThen(Init(n), queued, Stop, Wide);
    TwoWait(s.workers);
    assert s.list.nodes == [Task(|idle.submitted|, 0)];
  }

  lemma TwoWait(ws: seq<Worker>)
    requires |ws| > 1 && Waits(ws[0]) && Waits(ws[1])
    ensures Count(ws, Waits) > 1
  {
    assert Count(ws[1..], Waits) == 1 + Count(ws[1..][1..], Waits);
  }
}

/** What the pool can still do: exactly when it can answer a task at all, and how wide a batch
    may grow. */
module PoolProgress {
  import opened WaitLists
  import opened Pool
  import opened PoolRuns

  // ------------------------------------------------------------ answering

  function AdmitAll(): Policy {
    t => false
  }

  lemma ExitedStays(s: State, a: Action)
    requires AllExited(s.workers)
    ensures var s' := Apply(s, a);
            AllExited(s'.workers) && s'.answered == s.answered && s'.committed == s.committed
  {}

  /** Once every worker has left `run`, nothing is ever batched or answered. */
  lemma {:induction false} NoWorkerNoAnswer(s: State, acts: seq<Action>)
    requires AllExited(s.workers)
    ensures var s' := Exec(s, acts);
            AllExited(s'.workers) && s'.answered == s.answered && s'.committed == s.committed
  {
    if acts != [] {
      NoWorkerNoAnswer(s, acts[..|acts| - 1]);
      hide Apply;
      ExitedStays(Exec(s, acts[..|acts| - 1]), acts[|acts| - 1]);
    }
  }

  /** A waiting worker takes the head and admits it. */
  lemma TakeAndAdmit(s: State, w: nat, p: Policy) returns (s': State)
    requires Consistent(s.list) && s.list.alive && s.list.nodes != [] && In(s, w, Waiting) && !p(s.list.nodes[0])
    ensures Leads(s, s', p) && s'.lost == s.lost && s'.accepted == s.accepted && s'.life == s.life
    ensures s'.list == Take(s.list).1 && s'.answered == s.answered
    ensures s'.committed == s.committed + [s.list.nodes[0]]
    ensures s'.workers == s.workers[w := Worker(Gathering, s.workers[w].batch + [s.list.nodes[0]])]
  {
    hide Leads;
    var mid := Apply(s, TakeHead(w));
    OneStep(s, TakeHead(w), p);
    s' := Apply(mid, Admit(w));
    AndThen(s, mid, Admit(w), p);
  }

  /** A worker of a running pool that has not exited can answer one more task. */
  lemma AnswerOne(s: State, n: nat, w: nat) returns (s': State)
    requires Inv(s, n) && s.life.Running? && w < n && Active(s.workers[w])
    ensures Leads(s, s', AdmitAll()) && s.answered < s'.answered
  {
    hide Leads, ListShape, Conserved;
    var p := AdmitAll();
    ListIsConsistent(s);
    var s1 := ToWaiting(s, w, p);
    var s2 := s1;
    Stay(s1, p);
    if s1.list.nodes == [] {
      s2 := Enqueue(s1, 0, p);
    }
    Join(s, s1, s2, p);
    var s3 := TakeAndAdmit(s2, w, p);
    Join(s, s2, s3, p);
    var s4 := Apply(s3, Close(w));
    AndThen(s, s3, Close(w), p);
    s' := Answered(s4, w);
    ReplyAll(s4, w, p);
    Join(s, s4, s', p);
  }

  lemma ListIsConsistent(s: State)
    requires ListShape(s)
    ensures Consistent(s.list)
  {}

  /** A running pool can never answer anything again if and only if all its workers have left. */
  lemma SilentIff(s: State, n: nat)
    requires Inv(s, n) && s.life.Running?
    ensures (forall acts :: Exec(s, acts).answered == s.answered) <==> AllExited(s.workers)
  {
    if AllExited(s.workers) {
      forall acts ensures Exec(s, acts).answered == s.answered {
        NoWorkerNoAnswer(s, acts);
      }
    } else {
      hide Inv, Apply, StepObeys;
      SizeIs(s, n);
      var w :| 0 <= w < n && !s.workers[w].phase.Exited?;
      var s' := AnswerOne(s, n, w);
      var acts :| RunObeys(s, acts, AdmitAll()) && Exec(s, acts) == s';
      assert Exec(s, acts).answered != s.answered;
    }
  }

  lemma SizeIs(s: State, n: nat)
    requires Inv(s, n)
    ensures |s.workers| == n
  {}

  function EarlyExits(n: nat, k: nat): State {
    Init(n).(workers := seq(n, i => if i < k then Worker(Exited, []) else Worker(Top, [])))
  }

  lemma {:induction false} ExitBeforeStart(n: nat, k: nat)
    requires k <= n
    ensures Leads(Init(n), EarlyExits(n, k), Wide)
  {
    hide Leads;
    if k == 0 {
      assert EarlyExits(n, 0).workers == Init(n).workers;
      Stay(Init(n), Wide);
    } else {
      ExitBeforeStart(n, k - 1);
      AndThen(Init(n), EarlyExits(n, k - 1), Loop(k - 1), Wide);
      assert Apply(EarlyExits(n, k - 1), Loop(k - 1)).workers == EarlyExits(n, k).workers;
    }
  }

  /** The constructor clears is_stop_ only after it has started the threads: any number k of the
      n workers may test it first and leave; if all do, the pool runs and answers nothing. */
  lemma StartupRace(n: nat, k: nat) returns (s: State)
    requires k <= n
    ensures RealState(s, n) && s.life.Running? && |s.workers| == n
    ensures forall w :: 0 <= w < n ==> (s.workers[w].phase.Exited? <==> w < k)
  {
    ExitBeforeStart(n, k);
    s := EarlyExits(n, k).(life := Running);
    AndThen(Init(n), EarlyExits(n, k), FinishStart, Wide);
    assert Apply(EarlyExits(n, k), FinishStart) == s;
  }

  // ------------------------------------------------------------ the width of a batch

  function WidthOf(ts: seq<Task>): int {
    if ts == [] then 0 else WidthOf(ts[..|ts| - 1]) + ts[|ts| - 1].width
  }

  lemma {:induction false} GrowBatch(n: nat, k: nat) returns (s: State)
    requires n > 0
    ensures Leads(Init(n), s, Wide) && s.life.Running? && s.list == List([], 0, true)
    ensures In(s, 0, Gathering) && WidthOf(s.workers[0].batch) == k * MAX_WIDTH
  {
    hide Leads, WidthOf;
    if k == 0 {
      var started := Apply(Init(n), FinishStart);
      OneStep(Init(n), FinishStart, Wide);
      s := Apply(started, Loop(0));
      AndThen(Init(n), started, Loop(0), Wide);
      NoWidth();
    } else {
      var s0 := GrowBatch(n, k - 1);
      var s1 := Apply(s0, KeepOpen(0));
      AndThen(Init(n), s0, KeepOpen(0), Wide);
      var t := Task(|s1.submitted|, MAX_WIDTH);
      var s2 := Enqueue(s1, MAX_WIDTH, Wide);
      Join(Init(n), s1, s2, Wide);
      s := TakeAndAdmit(s2, 0, Wide);
      Join(Init(n), s2, s, Wide);
      assert s2.list.nodes == [t];
      OneWider(s0.workers[0].batch, t);
    }
  }

  lemma NoWidth()
    ensures WidthOf([]) == 0
  {}

  lemma OneWider(ts: seq<Task>, t: Task)
    ensures WidthOf(ts + [t]) == WidthOf(ts) + t.width
  {
    assert (ts + [t])[..|ts|] == ts;
  }

  /** The admission test puts no bound on the total width of a batch. */
  lemma BatchWidthUnbounded(n: nat, bound: int) returns (s: State)
    requires n > 0
    ensures RealState(s, n) && s.workers != [] && WidthOf(s.workers[0].batch) > bound
  {
    s := GrowBatch(n, if bound < 0 then 1 else bound + 1);
  }
}

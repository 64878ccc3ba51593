/** How far the order guarantees of the pool reach: the reordering bound is attained, and wide
    tasks hold back those behind them. */
module PoolBounds {
  import opened WaitLists
  import opened Pool
  import opened PoolInvariant
  import opened PoolOrder
  import opened PoolRuns
  import opened PoolProgress

  // ------------------------------------------------------------ the bound is sharp

  function Numbered(n: nat, width: int): seq<Task> {
    seq(n, i requires 0 <= i < n => Task(i, width))
  }

  /** Workers 0..k hold tasks 0..k, one each; nothing is queued. */
  function Grabbed(n: nat, k: nat, width: int): State {
    Init(n).(
      life := Running, popped := k, submitted := Numbered(k, width), accepted := Numbered(k, width),
      workers := seq(n, i requires 0 <= i < n =>
        if i < k then Worker(Holding(Task(i, width)), []) else Worker(Top, [])))
  }

  lemma NoneGrabbed(n: nat, width: int)
    ensures Grabbed(n, 0, width) == Apply(Init(n), FinishStart)
  {
    assert Grabbed(n, 0, width).workers == Init(n).workers;
    assert Numbered(0, width) == [];
  }

  lemma GrabOne(s: State, t: Task, w: nat)
    requires In(s, w, Waiting) && s.list == List([t], 1, true)
    ensures Apply(s, TakeHead(w)) ==
            var s' := s.(workers := s.workers[w := Worker(Holding(t), s.workers[w].batch)], list := List([], 0, true));
            if s.front > 0 then s'.(front := s.front - 1) else s'.(popped := s.popped + 1)
  {
    assert [t][1..] == [];
  }

  /** A task is added and the next worker takes it. */
  lemma Grab(n: nat, k: nat, width: int)
    requires k < n
    ensures Leads(Grabbed(n, k, width), Grabbed(n, k + 1, width), Wide)
  {
    hide Leads, Take;
    var s, t := Grabbed(n, k, width), Task(k, width);
    var s1 := Enqueue(s, width, Wide);
    var s2 := Apply(s1, Loop(k));
    AndThen(s, s1, Loop(k), Wide);
    var s3 := Apply(s2, KeepOpen(k));
    AndThen(s, s2, KeepOpen(k), Wide);
    var s4 := Apply(s3, TakeHead(k));
    AndThen(s, s3, TakeHead(k), Wide);
    GrabOne(s3, t, k);
    assert Numbered(k + 1, width) == Numbered(k, width) + [t];
    assert s4.workers == Grabbed(n, k + 1, width).workers;
  }

  lemma {:induction false} GrabAll(n: nat, k: nat, width: int)
    requires k <= n
    ensures Leads(Init(n), Grabbed(n, k, width), Wide)
  {
    hide Leads, Grabbed, Apply, Init;
    if k == 0 {
      NoneGrabbed(n, width);
      OneStep(Init(n), FinishStart, Wide);
    } else {
      GrabAll(n, k - 1, width);
      Grab(n, k - 1, width);
      Join(Init(n), Grabbed(n, k - 1, width), Grabbed(n, k, width), Wide);
    }
  }

  lemma {:induction false} HandsFull(ws: seq<Worker>, tasks: seq<Task>)
    requires |ws| == |tasks|
    requires forall i :: 0 <= i < |ws| ==> ws[i].phase == Holding(tasks[i])
    ensures Sum(ws, Hand) == multiset(tasks)
  {
    if ws != [] {
      HandsFull(ws[1..], tasks[1..]);
      assert tasks == [tasks[0]] + tasks[1..];
    }
  }

  /** The bound is reached for every n: each worker takes a task and the last one admits first,
      so the task that joins a batch overtakes exactly n - 1 that were accepted before it. */
  lemma BoundIsSharp(n: nat) returns (s: State)
    requires n > 0
    ensures RealState(s, n) && n == |s.workers| == |s.accepted|
    ensures s.workers[n - 1].phase == Holding(s.accepted[n - 1]) && !Wide(s.accepted[n - 1])
    ensures |multiset(s.accepted[..n - 1]) * Outstanding(s)| == n - 1
  {
    s := Grabbed(n, n, 0);
    GrabAll(n, n, 0);
    AllOutstanding(n, s);
  }

  lemma AllOutstanding(n: nat, s: State)
    requires n > 0 && s == Grabbed(n, n, 0)
    ensures |multiset(s.accepted[..n - 1]) * Outstanding(s)| == n - 1
  {
    HandsFull(s.workers, Numbered(n, 0));
    hide Sum;
    assert Numbered(n, 0) == Numbered(n, 0)[..n - 1] + [Task(n - 1, 0)];
    assert multiset(s.accepted[..n - 1]) * Outstanding(s) == multiset(s.accepted[..n - 1]);
  }

  /** A task that joined a batch overtook one that still waits. */
  lemma Overtakes(s: State, i: nat, j: nat)
    requires i < j < |s.accepted| && s.accepted[j] in s.committed && s.accepted[i] in Outstanding(s)
    ensures !Fifo(s)
  {
    hide Outstanding, InOrder;
  }

  lemma FirstStillHeld(n: nat)
    requires n > 1
    ensures Task(0, 0) in Held(DoAdmit(Grabbed(n, n, 0), n - 1))
  {
    var s := Grabbed(n, n, 0);
    var s' := DoAdmit(s, n - 1);
    HandsFull(s.workers, Numbered(n, 0));
    HeldUpdate(s, s', n - 1, s'.workers[n - 1]);
    hide Sum;
    assert Numbered(n, 0)[0] == Task(0, 0) && Task(0, 0) in multiset(Numbered(n, 0));
  }

  /** The last worker admits its task: the first one, accepted earlier, still waits. */
  lemma LastAdmitsFirst(n: nat)
    requires n > 1
    ensures !Fifo(Apply(Grabbed(n, n, 0), Admit(n - 1)))
  {
    hide Sum, Held, Fifo;
    FirstStillHeld(n);
    var s' := DoAdmit(Grabbed(n, n, 0), n - 1);
    assert s'.committed == [Task(n - 1, 0)];
    Overtakes(s', 0, n - 1);
  }

  lemma NoWorkerFifo(acts: seq<Action>)
    ensures Fifo(Exec(Init(0), acts))
  {
    NoWorkerNoAnswer(Init(0), acts);
    assert Init(0).committed == [];
  }

  /** First in, first out: every run batches in the order of acceptance. */
  ghost predicate AlwaysFifo(n: nat) {
    forall acts :: Fifo(Exec(Init(n), acts))
  }

  /** The same for the runs under the real test. */
  ghost predicate ReallyFifo(n: nat) {
    forall s :: RealState(s, n) ==> Fifo(s)
  }

  /** The pool is FIFO, under a free test or under the real one, if and only if it has at most
      one worker. */
  lemma FifoIff(n: nat)
    ensures AlwaysFifo(n) <==> n <= 1
    ensures ReallyFifo(n) <==> n <= 1
  {
    hide Fifo, Grabbed, Apply, Init;
    if n <= 1 {
      forall acts ensures Fifo(Exec(Init(n), acts)) {
        if n == 0 {
          NoWorkerFifo(acts);
        } else {
          SingleWorkerFifo(acts);
        }
      }
    } else {
      OvertakingRun(n);
      LastAdmitsFirst(n);
      var acts :| RunObeys(Init(n), acts, Wide) && Exec(Init(n), acts) == Apply(Grabbed(n, n, 0), Admit(n - 1));
      assert !Fifo(Exec(Init(n), acts));
    }
  }

  lemma OvertakingRun(n: nat)
    requires n > 0
    ensures RealState(Apply(Grabbed(n, n, 0), Admit(n - 1)), n)
  {
    hide Leads;
    GrabAll(n, n, 0);
    AndThen(Init(n), Grabbed(n, n, 0), Admit(n - 1), Wide);
  }

  // ------------------------------------------------------------ the real admission test

  predicate Fitting(s: State) {
    forall t :: t in s.committed ==> !Wide(t)
  }

  /** Tasks of `ts` that the test never admits. */
  function Oversize(ts: seq<Task>): multiset<Task> {
    if ts == [] then multiset{} else (if Wide(ts[0]) then multiset{ts[0]} else multiset{}) + Oversize(ts[1..])
  }

  lemma {:induction false} OversizeIs(ts: seq<Task>, x: Task)
    ensures Oversize(ts)[x] == if Wide(x) then multiset(ts)[x] else 0
  {
    if ts != [] {
      OversizeIs(ts[1..], x);
      assert ts == [ts[0]] + ts[1..];
    }
  }

  /** The oversize tasks that were accepted before the j-th task and not dropped. */
  function WideBefore(s: State, j: nat): nat
    requires j <= |s.accepted|
  {
    |Oversize(s.accepted[..j]) - multiset(s.lost)|
  }

  lemma {:induction false} HandsActive(ws: seq<Worker>)
    ensures |Sum(ws, Hand)| <= Count(ws, Active) <= |ws|
  {
    if ws != [] {
      HandsActive(ws[1..]);
    }
  }

  /** At most `cap` workers have not exited, and so many tasks at most were put back or are in
      hand. */
  predicate Capped(s: State, cap: nat) {
    s.front + |Held(s)| <= cap && Count(s.workers, Active) <= cap
  }

  lemma WorkerCapped(s: State, s': State, w: nat, cap: nat)
    requires Capped(s, cap) && w < |s.workers| == |s'.workers| && Active(s.workers[w])
    requires s'.workers == s.workers[w := s'.workers[w]]
    requires s'.front + |Hand(s'.workers[w])| <= s.front + |Hand(s.workers[w])| || s'.front == 0
    ensures Capped(s', cap)
  {
    hide Sum, Hand;
    HeldUpdate(s, s', w, s'.workers[w]);
    CountUpdate(s.workers, Active, w, s'.workers[w]);
    HandsActive(s'.workers);
    HeldIs(s');
  }

  lemma HeldIs(s: State)
    ensures Held(s) == Sum(s.workers, Hand)
  {}

  lemma SameCapped(s: State, s': State, cap: nat)
    requires Capped(s, cap) && s'.workers == s.workers && s'.front == s.front
    ensures Capped(s', cap)
  {}

  lemma StepCapped(s: State, n: nat, a: Action, cap: nat)
    requires Inv(s, n) && Capped(s, cap)
    ensures Capped(Apply(s, a), cap)
  {
    hide Capped, ListShape, Conserved, Control, Take, Put, PutFront, Sum, Held, Batched;
    var s' := Apply(s, a);
    var w := Mover(a, n);
    OneMoves(s, n, a);
    if s'.workers == s.workers && s'.front == s.front {
      SameCapped(s, s', cap);
    } else {
      WorkerCapped(s, s', w, cap);
    }
  }

  /** Every task batched since `base` had fewer than `cap` oversize tasks, still in the pool,
      before it. */
  predicate NotJammed(s: State, base: seq<Task>, cap: nat) {
    forall j :: 0 <= j < |s.accepted| && s.accepted[j] in s.committed && s.accepted[j] !in base ==>
      WideBefore(s, j) < cap
  }

  lemma AdmitNotJammed(s: State, n: nat, w: nat, j: nat, cap: nat)
    requires Inv(s, n) && Fitting(s) && w < n && s.workers[w].phase.Holding? && s.front + |Held(s)| <= cap
    requires j < |s.accepted| && s.accepted[j] == s.workers[w].phase.task
    ensures WideBefore(s, j) < cap
  {
    hide Sum, Held, Batched, ListShape, Control, Outstanding, Oversize;
    ReorderingBound(s, n, w, j, cap);
    InHand(s, n, w, j);
    var big, waits := Oversize(s.accepted[..j]) - multiset(s.lost), multiset(s.accepted[..j]) * Outstanding(s);
    forall x ensures big[x] <= waits[x] {
      OversizeIs(s.accepted[..j], x);
      if x in Oversize(s.accepted[..j]) {
        EarlierOutstanding(s, n, j, x);
        OversizeUncommitted(s, x);
      }
    }
    SmallerBag(big, waits);
  }

  lemma OversizeUncommitted(s: State, x: Task)
    requires Conserved(s) && Fitting(s) && Wide(x)
    ensures Batched(s)[x] == 0 && multiset(s.answered)[x] == 0
  {
    hide Sum, Batched, Held;
    assert x !in s.committed;
    assert multiset(s.committed)[x] == 0;
  }

  lemma LostOnlyGrows(s: State, n: nat, a: Action)
    requires Inv(s, n)
    ensures multiset(s.lost) <= multiset(Apply(s, a).lost)
  {
    StepLoses(s, n, a);
    var l, l' := s.lost, Apply(s, a).lost;
    assert l' == l + l'[|l|..];
  }

  lemma StepNotJammed(s: State, n: nat, a: Action, base: seq<Task>, cap: nat)
    requires Inv(s, n) && Fitting(s) && NotJammed(s, base, cap) && StepObeys(s, a, Wide)
    requires s.front + |Held(s)| <= cap
    ensures NotJammed(Apply(s, a), base, cap)
  {
    hide Apply, Inv, Oversize, StepObeys, Fitting, Held;
    var s' := Apply(s, a);
    LostOnlyGrows(s, n, a);
    StepHistories(s, n, a);
    HeldInAccepted(s, n, 0);
    forall j | 0 <= j < |s'.accepted| && s'.accepted[j] in s'.committed && s'.accepted[j] !in base
      ensures WideBefore(s', j) < cap
    {
      assert s'.accepted[..j] == s.accepted[..j];
      if s'.accepted[j] !in s.committed {
        AdmitNotJammed(s, n, a.w, j, cap);
      }
      SmallerBag(Oversize(s.accepted[..j]) - multiset(s'.lost), Oversize(s.accepted[..j]) - multiset(s.lost));
    }
  }

  /** How a step changes the histories of accepted and committed tasks. */
  lemma StepHistories(s: State, n: nat, a: Action)
    requires Inv(s, n)
    ensures var s' := Apply(s, a);
            && s.accepted <= s'.accepted
            && (s'.committed != s.committed ==>
                  a.Admit? && a.w < n && s.workers[a.w].phase.Holding? && s'.accepted == s.accepted
                  && s'.committed == s.committed + [s.workers[a.w].phase.task])
            && forall j :: |s.accepted| <= j < |s'.accepted| ==> s'.accepted[j] !in s'.committed
  {
    if a.PutPending? && a.k < |s.flight| {
      hide Sum, ListShape, Conserved, Put;
      FlightIsNew(s, n, a.k);
    } else {
      hide Sum, ListShape, Conserved, Control, Take, Put, PutFront, AllExited;
    }
  }

  /** Only ordinary tasks batched, few workers left, no batched task jammed. */
  predicate Flowing(s: State, n: nat, base: seq<Task>, cap: nat) {
    Inv(s, n) && Fitting(s) && Capped(s, cap) && NotJammed(s, base, cap)
  }

  /** Histories only grow. */
  predicate Later(s: State, s': State) {
    s.accepted <= s'.accepted && s.committed <= s'.committed && multiset(s.lost) <= multiset(s'.lost)
  }

  lemma StepFlowing(s: State, n: nat, a: Action, base: seq<Task>, cap: nat)
    requires Flowing(s, n, base, cap) && StepObeys(s, a, Wide)
    ensures Flowing(Apply(s, a), n, base, cap) && Later(s, Apply(s, a))
  {
    hide Apply, Inv, NotJammed, Held;
    StepKeeps(s, n, a);
    StepCapped(s, n, a, cap);
    StepNotJammed(s, n, a, base, cap);
    StepHistories(s, n, a);
    LostOnlyGrows(s, n, a);
    HeldInAccepted(s, n, 0);
  }

  /** From any state, at most `cap` of whose workers are left, a run under the real test batches
      only tasks behind fewer than `cap` oversize ones. */
  lemma {:induction false} RunNotJammed(s: State, n: nat, acts: seq<Action>, cap: nat)
    requires Inv(s, n) && Fitting(s) && Capped(s, cap) && RunObeys(s, acts, Wide)
    ensures Flowing(Exec(s, acts), n, s.committed, cap) && Later(s, Exec(s, acts))
  {
    hide Inv, Fitting, Capped, Apply, StepObeys, Oversize;
    if acts != [] {
      RunNotJammed(s, n, acts[..|acts| - 1], cap);
      hide Flowing;
      StepFlowing(Exec(s, acts[..|acts| - 1]), n, acts[|acts| - 1], s.committed, cap);
    }
  }

  lemma StartCapped(n: nat)
    ensures Inv(Init(n), n) && Fitting(Init(n)) && Capped(Init(n), n)
  {
    assert Exec(Init(n), []) == Init(n);
    Reachable(n, []);
    HandsActive(Init(n).workers);
  }

  /** Under the real test only tasks of width at most 3600 are ever batched, and fewer than n
      wider ones, accepted earlier and not dropped, stand behind any that is. */
  lemma RealAdmission(s: State, n: nat)
    requires RealState(s, n)
    ensures Inv(s, n) && Fitting(s) && NotJammed(s, [], n)
    ensures forall t :: t in s.committed ==> t.width <= 3600
  {
    StartCapped(n);
    hide Inv, Fitting, Capped, NotJammed, Exec, RunObeys, Init;
    var acts :| RunObeys(Init(n), acts, Wide) && Exec(Init(n), acts) == s;
    NothingCommitted(n);
    RunNotJammed(Init(n), n, acts, n);
    FittingWidths(s);
  }

  lemma FittingWidths(s: State)
    requires Fitting(s)
    ensures forall t :: t in s.committed ==> t.width <= 3600
  {}

  lemma NothingCommitted(n: nat)
    ensures Init(n).committed == []
  {}

  /** n oversize tasks jam a pool of n workers: until put_front drops one of them, no task
      accepted after them is batched or answered. */
  lemma OversizeTasksJam(s: State, n: nat, j: nat)
    requires RealState(s, n) && j < |s.accepted| && WideBefore(s, j) >= n
    ensures s.accepted[j] !in s.committed && s.accepted[j] !in s.answered
  {
    hide RealState, Inv, Oversize;
    RealAdmission(s, n);
    AnsweredCommitted(s, n, s.accepted[j]);
  }

  lemma AnsweredCommitted(s: State, n: nat, t: Task)
    requires Inv(s, n)
    ensures t in s.answered ==> t in s.committed
  {
    hide Sum, ListShape, Control;
    assert t in s.answered <==> t in multiset(s.answered);
    assert t in s.committed <==> t in multiset(s.committed);
  }
}

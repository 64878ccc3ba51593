/** Runs of the pool under an admission test, and the schedules that move single workers. */
module PoolRuns {
  import opened WaitLists
  import opened Pool
  import opened PoolInvariant

  /** An admission test: the tasks it holds of are put back, the others join the batch. */
  type Policy = Task -> bool

  const MAX_WIDTH := 3600

  /** The test of thread_pool.h: it never adds to `width_sum`, so only the task's own width
      counts. */
  predicate Wide(t: Task) {
    t.width > MAX_WIDTH
  }

  predicate StepObeys(s: State, a: Action, p: Policy) {
    match a
    case Admit(w) => w < |s.workers| && s.workers[w].phase.Holding? ==> !p(s.workers[w].phase.task)
    case Return(w) => w < |s.workers| && s.workers[w].phase.Holding? ==> p(s.workers[w].phase.task)
    case _ => true
  }

  predicate RunObeys(s: State, acts: seq<Action>, p: Policy) {
    acts != [] ==>
      RunObeys(s, acts[..|acts| - 1], p) && StepObeys(Exec(s, acts[..|acts| - 1]), acts[|acts| - 1], p)
  }

  /** Some run under the test `p` leads from `s` to `s'`. */
  ghost predicate Leads(s: State, s': State, p: Policy) {
    exists acts :: RunObeys(s, acts, p) && Exec(s, acts) == s'
  }

  /** A pool of n workers under the real test reaches the state. */
  ghost predicate RealState(s: State, n: nat) {
    Leads(Init(n), s, Wide)
  }

  lemma {:induction false} ExecAppend(s: State, a: seq<Action>, b: seq<Action>, p: Policy)
    ensures Exec(s, a + b) == Exec(Exec(s, a), b)
    ensures RunObeys(s, a + b, p) <==> RunObeys(s, a, p) && RunObeys(Exec(s, a), b, p)
  {
    hide Apply, StepObeys;
    if b == [] {
      assert a + b == a;
    } else {
      assert (a + b)[..|a + b| - 1] == a + b[..|b| - 1];
      ExecAppend(s, a, b[..|b| - 1], p);
    }
  }

  lemma Stay(s: State, p: Policy)
    ensures Leads(s, s, p)
  {
    assert RunObeys(s, [], p) && Exec(s, []) == s;
  }

  lemma OneStep(s: State, a: Action, p: Policy)
    requires StepObeys(s, a, p)
    ensures Leads(s, Apply(s, a), p)
  {
    hide Apply, StepObeys;
    assert [a][..0] == [];
    assert Exec(s, []) == s && RunObeys(s, [], p);
    assert RunObeys(s, [a], p) && Exec(s, [a]) == Apply(s, a);
  }

  lemma Join(s: State, mid: State, s': State, p: Policy)
    requires Leads(s, mid, p) && Leads(mid, s', p)
    ensures Leads(s, s', p)
  {
    hide Exec, RunObeys;
    var a :| RunObeys(s, a, p) && Exec(s, a) == mid;
    var b :| RunObeys(mid, b, p) && Exec(mid, b) == s';
    ExecAppend(s, a, b, p);
    assert RunObeys(s, a + b, p) && Exec(s, a + b) == s';
  }

  /** One more step at the end of a schedule. */
  lemma AndThen(s: State, mid: State, a: Action, p: Policy)
    requires Leads(s, mid, p) && StepObeys(mid, a, p)
    ensures Leads(s, Apply(mid, a), p)
  {
    hide Leads, Apply, StepObeys;
    OneStep(mid, a, p);
    Join(s, mid, Apply(mid, a), p);
  }

  lemma {:induction false} ExecKeeps(s: State, acts: seq<Action>, n: nat)
    requires Inv(s, n)
    ensures Inv(Exec(s, acts), n)
  {
    if acts != [] {
      hide Inv, Apply;
      ExecKeeps(s, acts[..|acts| - 1], n);
      StepKeeps(Exec(s, acts[..|acts| - 1]), n, acts[|acts| - 1]);
    }
  }

  lemma LeadsKeeps(s: State, s': State, p: Policy, n: nat)
    requires Inv(s, n) && Leads(s, s', p)
    ensures Inv(s', n)
  {
    hide Inv, Exec, RunObeys;
    var acts :| RunObeys(s, acts, p) && Exec(s, acts) == s';
    ExecKeeps(s, acts, n);
  }

  // ------------------------------------------------------------ counting workers

  function Count(ws: seq<Worker>, p: Worker -> bool): nat {
    if ws == [] then 0 else (if p(ws[0]) then 1 else 0) + Count(ws[1..], p)
  }

  lemma {:induction false} CountUpdate(ws: seq<Worker>, p: Worker -> bool, i: nat, w: Worker)
    requires i < |ws|
    ensures Count(ws[i := w], p) + (if p(ws[i]) then 1 else 0) == Count(ws, p) + if p(w) then 1 else 0
  {
    if i == 0 {
      assert ws[0 := w][1..] == ws[1..];
    } else {
      assert ws[i := w][1..] == ws[1..][i - 1 := w];
      CountUpdate(ws[1..], p, i - 1, w);
    }
  }

  lemma {:induction false} CountFinds(ws: seq<Worker>, p: Worker -> bool)
    ensures Count(ws, p) > 0 <==> exists i :: 0 <= i < |ws| && p(ws[i])
  {
    if ws != [] {
      CountFinds(ws[1..], p);
      if Count(ws[1..], p) > 0 {
        var i :| 0 <= i < |ws[1..]| && p(ws[1..][i]);
        assert p(ws[i + 1]);
      }
      if i :| 0 <= i < |ws| && p(ws[i]) {
        assert i > 0 ==> p(ws[1..][i - 1]);
      }
    }
  }

  /** The worker that takes the step; n when none does. */
  function Mover(a: Action, n: nat): nat {
    match a
    case Loop(w) => w
    case KeepOpen(w) => w
    case Close(w) => w
    case TakeHead(w) => w
    case Admit(w) => w
    case Return(w) => w
    case Reply(w) => w
    case _ => n
  }

  lemma OneMoves(s: State, n: nat, a: Action)
    requires |s.workers| == n
    ensures var s', w := Apply(s, a), Mover(a, n);
            && |s'.workers| == n
            && (s'.workers == s.workers || (w < n && s'.workers == s.workers[w := s'.workers[w]]))
  {
    hide Take, Put, PutFront;
  }

  // ------------------------------------------------------------ moving one worker

  predicate Active(w: Worker) {
    !w.phase.Exited?
  }

  function Answered(s: State, w: nat): State
    requires w < |s.workers|
  {
    s.(workers := s.workers[w := Worker(Top, [])], answered := s.answered + s.workers[w].batch)
  }

  /** A worker sends its replies and is back at the outer loop. */
  lemma {:induction false} ReplyAll(s: State, w: nat, p: Policy)
    requires In(s, w, Replying)
    ensures Leads(s, Answered(s, w), p)
    decreases |s.workers[w].batch|
  {
    hide Leads;
    var batch, s' := s.workers[w].batch, Apply(s, Reply(w));
    OneStep(s, Reply(w), p);
    if batch == [] {
      assert s' == Answered(s, w);
    } else {
      assert In(s', w, Replying) && s'.workers[w].batch == batch[1..];
      ReplyAll(s', w, p);
      assert s.answered + [batch[0]] + batch[1..] == s.answered + batch;
      assert Answered(s', w) == Answered(s, w);
      Join(s, s', Answered(s, w), p);
    }
  }

  /** The queue is untouched, and only answers and batches have grown. */
  predicate SameQueue(s: State, s': State) {
    && s'.list == s.list && s'.flight == s.flight && s'.life == s.life && s'.front == s.front && s'.popped == s.popped
    && s'.submitted == s.submitted && s'.accepted == s.accepted && s'.refused == s.refused && s'.lost == s.lost
    && s.committed <= s'.committed && s.answered <= s'.answered
  }

  predicate CanAdmit(w: Worker, p: Policy) {
    w.phase.Holding? ==> !p(w.phase.task)
  }

  /** From wherever it is in its loop, a worker of a running pool that holds no task to be put
      back gets to the test of its batch window, and nothing else changes. */
  lemma ToGathering(s: State, w: nat, p: Policy) returns (s': State)
    requires s.life.Running? && w < |s.workers| && Active(s.workers[w]) && CanAdmit(s.workers[w], p)
    requires !s.workers[w].phase.Waiting?
    ensures Leads(s, s', p) && SameQueue(s, s')
    ensures |s'.workers| == |s.workers| && s'.workers[w].phase == Gathering
    ensures s'.workers == s.workers[w := s'.workers[w]]
  {
    hide Leads;
    Stay(s, p);
    match s.workers[w].phase
    case Top =>
      s' := Apply(s, Loop(w));
      AndThen(s, s, Loop(w), p);
    case Gathering =>
      s' := s;
    case Holding(t) =>
      s' := Apply(s, Admit(w));
      AndThen(s, s, Admit(w), p);
    case Replying =>
      var mid := Answered(s, w);
      ReplyAll(s, w, p);
      s' := Apply(mid, Loop(w));
      AndThen(s, mid, Loop(w), p);
  }

  lemma ToWaiting(s: State, w: nat, p: Policy) returns (s': State)
    requires s.life.Running? && w < |s.workers| && Active(s.workers[w]) && CanAdmit(s.workers[w], p)
    ensures Leads(s, s', p) && SameQueue(s, s')
    ensures |s'.workers| == |s.workers| && s'.workers[w].phase == Waiting
    ensures s'.workers == s.workers[w := s'.workers[w]]
  {
    hide Leads;
    if s.workers[w].phase.Waiting? {
      s' := s;
      Stay(s, p);
    } else {
      var mid := ToGathering(s, w, p);
      s' := Apply(mid, KeepOpen(w));
      AndThen(s, mid, KeepOpen(w), p);
    }
  }

  /** A new task joins the end of the queue. */
  lemma Enqueue(s: State, width: int, p: Policy) returns (s': State)
    requires s.life.Running? && HasRoom(s.list)
    ensures Leads(s, s', p)
    ensures var t := Task(|s.submitted|, width);
            s' == s.(submitted := s.submitted + [t], accepted := s.accepted + [t], list := Put(s.list, t))
  {
    hide Leads;
    var t := Task(|s.submitted|, width);
    var mid := Apply(s, AddTask(width));
    OneStep(s, AddTask(width), p);
    var k := |s.flight|;
    s' := Apply(mid, PutPending(k));
    AndThen(s, mid, PutPending(k), p);
    assert mid.flight[k] == t;
    assert mid.flight[..k] + mid.flight[k + 1..] == s.flight;
  }
}

/** The life of one batch: once a worker closes its window or puts a task back, nothing joins the
    batch until it is answered, task by task and in order, and tasks enter only a running pool. */
module PoolBatches {
  import opened WaitLists
  import opened Pool
  import opened PoolInvariant
  import opened PoolRuns

  predicate IsSuffix<T(==)>(a: seq<T>, b: seq<T>) {
    |a| <= |b| && b[|b| - |a|..] == a
  }

  /** The worker is past its window: it answers, tests `is_stop_`, or has left. */
  predicate Past(w: Worker) {
    w.phase.Replying? || w.phase.Top? || w.phase.Exited?
  }

  lemma StepPast(s: State, a: Action, w: nat)
    requires w < |s.workers| && Past(s.workers[w]) && a != Loop(w)
    ensures var s' := Apply(s, a);
            && |s'.workers| == |s.workers| && Past(s'.workers[w])
            && IsSuffix(s'.workers[w].batch, s.workers[w].batch)
  {
    hide Take, Put, PutFront;
  }

  lemma SuffixOfSuffix<T>(a: seq<T>, b: seq<T>, c: seq<T>)
    requires IsSuffix(a, b) && IsSuffix(b, c)
    ensures IsSuffix(a, c)
  {
    assert c[|c| - |a|..] == b[|b| - |a|..];
  }

  lemma {:induction false} StaysPast(s: State, acts: seq<Action>, w: nat)
    requires w < |s.workers| && Past(s.workers[w]) && Loop(w) !in acts
    ensures var s' := Exec(s, acts);
            && |s'.workers| == |s.workers| && Past(s'.workers[w])
            && IsSuffix(s'.workers[w].batch, s.workers[w].batch)
  {
    if acts != [] {
      var n := |acts| - 1;
      hide Apply;
      StaysPast(s, acts[..n], w);
      StepPast(Exec(s, acts[..n]), acts[n], w);
      SuffixOfSuffix(Exec(s, acts).workers[w].batch, Exec(s, acts[..n]).workers[w].batch, s.workers[w].batch);
    }
  }

  /** The step ends worker w's window: it puts the task in its hand back, or the time is up. */
  predicate EndsWindow(s: State, a: Action, w: nat) {
    && w < |s.workers|
    && ((a == Return(w) && s.workers[w].phase.Holding?) || (a == Close(w) && s.workers[w].phase.Gathering?))
  }

  /** From any state: after the end of its window no task joins the batch of w before w is at the
      head of its outer loop again; the batch only loses tasks, from the front. */
  lemma WindowEnds(s: State, a: Action, w: nat, acts: seq<Action>)
    requires EndsWindow(s, a, w) && Loop(w) !in acts
    ensures var s' := Exec(Apply(s, a), acts);
            w < |s'.workers| && IsSuffix(s'.workers[w].batch, s.workers[w].batch)
  {
    StaysPast(Apply(s, a), acts, w);
  }

  /** The same within a run from the start: between step i, which ends a window of w, and the next
      Loop(w) no step adds to the batch of w. */
  lemma NothingJoins(n: nat, acts: seq<Action>, i: nat, j: nat, w: nat)
    requires i < j <= |acts| && EndsWindow(Exec(Init(n), acts[..i]), acts[i], w) && Loop(w) !in acts[i + 1..j]
    ensures var s, s' := Exec(Init(n), acts[..i]), Exec(Init(n), acts[..j]);
            w < |s'.workers| && IsSuffix(s'.workers[w].batch, s.workers[w].batch)
  {
    hide Apply, IsSuffix, EndsWindow;
    assert acts[..i + 1][..i] == acts[..i];
    assert acts[..j] == acts[..i + 1] + acts[i + 1..j];
    ExecAppend(Init(n), acts[..i + 1], acts[i + 1..j], Wide);
    WindowEnds(Exec(Init(n), acts[..i]), acts[i], w, acts[i + 1..j]);
  }

  function Times(k: nat, a: Action): seq<Action> {
    seq(k, _ => a)
  }

  lemma OneReply(s: State, w: nat)
    requires In(s, w, Replying) && s.workers[w].batch != []
    ensures var s' := Apply(s, Reply(w));
            && In(s', w, Replying) && s'.workers[w].batch == s.workers[w].batch[1..]
            && s'.answered == s.answered + [s.workers[w].batch[0]]
  {}

  lemma LastReply(s: State, w: nat)
    requires In(s, w, Replying) && s.workers[w].batch == []
    ensures In(Apply(s, Reply(w)), w, Top)
  {}

  lemma WindowEnded(s: State, a: Action, w: nat)
    requires EndsWindow(s, a, w)
    ensures In(Apply(s, a), w, Replying)
    ensures Apply(s, a).workers[w].batch == s.workers[w].batch && Apply(s, a).answered == s.answered
  {
    hide Take, Put, PutFront;
  }

  lemma OneMoreTime(s: State, a: Action, k: nat)
    ensures Exec(s, Times(k + 1, a)) == Apply(Exec(s, Times(k, a)), a)
    ensures Exec(s, Times(0, a)) == s
  {
    hide Apply;
    assert Times(k + 1, a)[..k] == Times(k, a);
  }

  /** In s' the first k tasks of the batch that w has in s are answered. */
  predicate HasAnswered(s: State, s': State, w: nat, k: nat)
    requires w < |s.workers| && k <= |s.workers[w].batch|
  {
    var batch := s.workers[w].batch;
    In(s', w, Replying) && s'.workers[w].batch == batch[k..] && s'.answered == s.answered + batch[..k]
  }

  lemma AnswersOne(s: State, s': State, w: nat, k: nat)
    requires w < |s.workers| && k < |s.workers[w].batch| && HasAnswered(s, s', w, k)
    ensures HasAnswered(s, Apply(s', Reply(w)), w, k + 1)
  {
    OneReply(s', w);
    hide Apply;
    var batch := s.workers[w].batch;
    assert batch[..k + 1] == batch[..k] + [batch[k]];
  }

  lemma {:induction false} AnswersSome(s: State, a: Action, w: nat, k: nat)
    requires EndsWindow(s, a, w) && k <= |s.workers[w].batch|
    ensures HasAnswered(s, Exec(Apply(s, a), Times(k, Reply(w))), w, k)
  {
    if k == 0 {
      WindowEnded(s, a, w);
      OneMoreTime(Apply(s, a), Reply(w), 0);
      hide Apply;
      assert s.answered + s.workers[w].batch[..0] == s.answered;
    } else {
      hide Apply, HasAnswered;
      AnswersSome(s, a, w, k - 1);
      OneMoreTime(Apply(s, a), Reply(w), k - 1);
      AnswersOne(s, Exec(Apply(s, a), Times(k - 1, Reply(w))), w, k - 1);
    }
  }

  /** A batch whose window has ended is answered in its own order, one task a step, and one more
      step brings the worker back to its outer loop. */
  lemma BatchAnswered(s: State, a: Action, w: nat, k: nat)
    requires EndsWindow(s, a, w) && k <= |s.workers[w].batch|
    ensures HasAnswered(s, Exec(Apply(s, a), Times(k, Reply(w))), w, k)
    ensures k == |s.workers[w].batch| ==> In(Exec(Apply(s, a), Times(k + 1, Reply(w))), w, Top)
  {
    AnswersSome(s, a, w, k);
    hide Apply, Exec;
    OneMoreTime(Apply(s, a), Reply(w), k);
    if k == |s.workers[w].batch| {
      LastReply(Exec(Apply(s, a), Times(k, Reply(w))), w);
    }
  }

  // ------------------------------------------------------------ who gets in

  /** Tasks that add_task let in: on their way to the list or past it. */
  function LetIn(s: State): multiset<Task> {
    multiset(s.flight) + multiset(s.accepted)
  }

  lemma PutLetsIn(s: State, k: nat)
    requires k < |s.flight|
    ensures LetIn(DoPut(s, k)) <= LetIn(s) && DoPut(s, k).life == s.life
  {
    hide Put, HasRoom;
    RemoveAt(s.flight, k);
    AppendOne(s.accepted, s.flight[k]);
  }

  lemma OthersLetNoneIn(s: State, a: Action)
    requires !a.AddTask? && !a.PutPending?
    ensures var s' := Apply(s, a);
            s'.flight == s.flight && s'.accepted == s.accepted && (a != FinishStart && a != Stop ==> s'.life == s.life)
  {
    hide Take, PutFront, HasRoom;
  }

  lemma StepDoor(s: State, a: Action)
    requires !s.life.Running? && (s.life.Closing? || a != FinishStart)
    ensures var s' := Apply(s, a);
            !s'.life.Running? && (s.life.Closing? ==> s'.life.Closing?) && LetIn(s') <= LetIn(s)
  {
    hide DoPut, DoTake, DoAdmit, DoReturn, DoReply;
    if a.PutPending? {
      if a.k < |s.flight| {
        PutLetsIn(s, a.k);
      }
    } else if !a.AddTask? {
      OthersLetNoneIn(s, a);
    }
  }

  /** While the pool does not run, before the constructor is done or once the destructor has
      begun, every new task is refused, whatever else happens. */
  lemma {:induction false} ClosedDoor(s: State, acts: seq<Action>)
    requires !s.life.Running? && (s.life.Closing? || FinishStart !in acts)
    ensures var s' := Exec(s, acts);
            !s'.life.Running? && (s.life.Closing? ==> s'.life.Closing?) && LetIn(s') <= LetIn(s)
  {
    if acts != [] {
      var n := |acts| - 1;
      hide Apply, LetIn;
      ClosedDoor(s, acts[..n]);
      StepDoor(Exec(s, acts[..n]), acts[n]);
    }
  }
}

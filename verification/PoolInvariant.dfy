/** Every reachable state of the pool keeps the list shape and loses no task silently. */
module PoolInvariant {
  import opened WaitLists
  import opened Pool

  lemma HeldUpdate(s: State, s': State, i: nat, w: Worker)
    requires i < |s.workers| && s'.workers == s.workers[i := w]
    ensures Held(s') == Held(s) - Hand(s.workers[i]) + Hand(w)
    ensures Hand(s.workers[i]) <= Held(s)
    ensures |Held(s')| <= |s'.workers|
  {
    SumUpdate(s.workers, Hand, i, w);
    HandsBound(s'.workers);
  }

  lemma BatchedUpdate(s: State, s': State, i: nat, w: Worker)
    requires i < |s.workers| && s'.workers == s.workers[i := w]
    ensures Batched(s') == Batched(s) - BatchOf(s.workers[i]) + BatchOf(w)
    ensures BatchOf(s.workers[i]) <= Batched(s)
  {
    SumUpdate(s.workers, BatchOf, i, w);
  }

  lemma ControlUpdate(s: State, s': State, i: nat, w: Worker)
    requires Control(s) && i < |s.workers| && !s.workers[i].phase.Exited?
    requires s'.workers == s.workers[i := w] && s'.submitted == s.submitted && s'.list.alive == s.list.alive
    requires w.phase.Top? ==> w.batch == []
    ensures s.list.alive && Control(s')
  {}

  /** Changing a worker's phase between two that hold nothing moves no task. */
  lemma MoveKeeps(s: State, n: nat, w: nat, p: Phase)
    requires Inv(s, n) && w < n && !s.workers[w].phase.Holding? && !p.Holding? && !s.workers[w].phase.Exited?
    requires p.Top? ==> s.workers[w].batch == []
    ensures Inv(Move(s, w, p), n)
  {
    hide Held, Batched, Control, ListShape, Conserved;
    var s', w' := Move(s, w, p), Worker(p, s.workers[w].batch);
    ControlUpdate(s, s', w, w');
    HeldUpdate(s, s', w, w');
    BatchedUpdate(s, s', w, w');
    SameTasks(s, s');
  }

  lemma SameTasks(s: State, s': State)
    requires ListShape(s) && Conserved(s)
    requires |s'.workers| == |s.workers| && s'.(workers := s.workers) == s
    requires Held(s') == Held(s) && Batched(s') == Batched(s)
    ensures ListShape(s') && Conserved(s')
  {
    hide Held, Batched, Consistent;
  }

  lemma AddTaskKeeps(s: State, n: nat, width: int)
    requires Inv(s, n)
    ensures Inv(DoAddTask(s, width), n)
  {
    hide ListShape, Conserved;
    AddTaskKeepsTasks(s, width);
  }

  lemma SameWorkers(s: State, s': State)
    requires s'.workers == s.workers
    ensures Held(s') == Held(s) && Batched(s') == Batched(s)
  {}

  lemma AddTaskKeepsTasks(s: State, width: int)
    requires ListShape(s) && Conserved(s)
    ensures ListShape(DoAddTask(s, width)) && Conserved(DoAddTask(s, width))
  {
    hide Held, Batched, Consistent;
    var t := Task(|s.submitted|, width);
    SameWorkers(s, DoAddTask(s, width));
    AppendOne(s.submitted, t);
    AppendOne(s.flight, t);
    AppendOne(s.refused, t);
  }

  lemma RemoveAt(q: seq<Task>, k: nat)
    requires k < |q|
    ensures multiset(q) == multiset(q[..k] + q[k + 1..]) + multiset{q[k]}
  {
    assert q == q[..k] + [q[k]] + q[k + 1..];
  }

  lemma AppendOne(q: seq<Task>, t: Task)
    ensures multiset(q + [t]) == multiset(q) + multiset{t}
  {}

  lemma PrependOne(q: seq<Task>, t: Task)
    ensures multiset([t] + q) == multiset(q) + multiset{t}
  {}

  lemma PutKeeps(s: State, n: nat, k: nat)
    requires Inv(s, n) && k < |s.flight|
    ensures Inv(DoPut(s, k), n)
  {
    hide ListShape, Conserved;
    PutKeepsShape(s, k);
    PutKeepsTasks(s, k);
  }

  lemma PutKeepsShape(s: State, k: nat)
    requires ListShape(s) && k < |s.flight|
    ensures ListShape(DoPut(s, k))
    ensures DoPut(s, k).accepted[..s.popped] == s.accepted[..s.popped]
    ensures DoPut(s, k).list.nodes[..s.front] == s.list.nodes[..s.front]
  {
    hide Sum;
    var s' := DoPut(s, k);
    if HasRoom(s.list) {
      assert s'.list.nodes[s.front..] == s.list.nodes[s.front..] + [s.flight[k]];
    }
  }

  lemma PutKeepsTasks(s: State, k: nat)
    requires ListShape(s) && Conserved(s) && k < |s.flight|
    ensures Conserved(DoPut(s, k))
  {
    hide Sum, ListShape;
    PutKeepsShape(s, k);
    RemoveAt(s.flight, k);
    AppendOne(s.accepted, s.flight[k]);
    AppendOne(s.refused, s.flight[k]);
    assert ListShape(s) && ListShape(DoPut(s, k));
    var s' := DoPut(s, k);
    assert s'.front <= |s'.list.nodes| && s'.popped <= |s'.accepted|;
    assert Held(s') == Held(s) && Batched(s') == Batched(s);
  }

  lemma TakeKeeps(s: State, n: nat, w: nat)
    requires Inv(s, n) && In(s, w, Waiting)
    ensures Inv(DoTake(s, w), n)
  {
    hide Sum, Held, Batched, Conserved, Control;
    ControlUpdate(s, s, w, s.workers[w]);
    if s.list.num > 0 {
      var s', w' := DoTake(s, w), Worker(Holding(s.list.nodes[0]), s.workers[w].batch);
      ControlUpdate(s, s', w, w');
      HeldUpdate(s, s', w, w');
      BatchedUpdate(s, s', w, w');
      TakeKeepsShape(s, w);
      if s.front > 0 {
        TakeKeepsTasksReturned(s, w);
      } else {
        TakeKeepsTasksFresh(s, w);
      }
    }
  }

  lemma TakeKeepsShape(s: State, w: nat)
    requires ListShape(s) && In(s, w, Waiting) && s.list.alive && s.list.num > 0
    requires Held(DoTake(s, w)) == Held(s) + multiset{s.list.nodes[0]}
    requires |Held(DoTake(s, w))| <= |s.workers|
    ensures ListShape(DoTake(s, w))
  {
    hide Held, Batched;
    var s' := DoTake(s, w);
    if s.front > 0 {
      assert s'.list.nodes[s'.front..] == s.list.nodes[s.front..];
    } else {
      assert s'.list.nodes[0..] == s.list.nodes[0..][1..] == s.accepted[s'.popped..];
    }
  }

  lemma TakeKeepsTasksReturned(s: State, w: nat)
    requires ListShape(s) && Conserved(s) && In(s, w, Waiting) && s.list.alive && s.list.num > 0 && s.front > 0
    requires Held(DoTake(s, w)) == Held(s) + multiset{s.list.nodes[0]} && Batched(DoTake(s, w)) == Batched(s)
    ensures Conserved(DoTake(s, w))
  {
    hide Held, Batched;
    var s', t := DoTake(s, w), s.list.nodes[0];
    assert s.list.nodes[..s.front] == [t] + s'.list.nodes[..s'.front];
    PrependOne(s'.list.nodes[..s'.front], t);
  }

  lemma TakeKeepsTasksFresh(s: State, w: nat)
    requires ListShape(s) && Conserved(s) && In(s, w, Waiting) && s.list.alive && s.list.num > 0 && s.front == 0
    requires Held(DoTake(s, w)) == Held(s) + multiset{s.list.nodes[0]} && Batched(DoTake(s, w)) == Batched(s)
    ensures Conserved(DoTake(s, w))
  {
    hide Held, Batched;
    var s', t := DoTake(s, w), s.list.nodes[0];
    assert t == s.list.nodes[s.front..][0] == s.accepted[s.popped];
    assert s.accepted[..s'.popped] == s.accepted[..s.popped] + [t];
    AppendOne(s.accepted[..s.popped], t);
  }

  lemma AdmitKeeps(s: State, n: nat, w: nat)
    requires Inv(s, n) && w < n && s.workers[w].phase.Holding?
    ensures Inv(DoAdmit(s, w), n)
  {
    hide Held, Batched, Control, ListShape, Conserved;
    var t := s.workers[w].phase.task;
    var s', w' := DoAdmit(s, w), Worker(Gathering, s.workers[w].batch + [t]);
    ControlUpdate(s, s', w, w');
    HeldUpdate(s, s', w, w');
    BatchedUpdate(s, s', w, w');
    AppendOne(s.workers[w].batch, t);
    assert Held(s) == Held(s') + multiset{t};
    assert Batched(s') == Batched(s) + multiset{t};
    AdmitKeepsTasks(s, s', t);
  }

  lemma AdmitKeepsTasks(s: State, s': State, t: Task)
    requires ListShape(s) && Conserved(s)
    requires |s'.workers| == |s.workers| && s'.(workers := s.workers, committed := s.committed) == s
    requires s'.committed == s.committed + [t]
    requires Held(s) == Held(s') + multiset{t} && Batched(s') == Batched(s) + multiset{t}
    ensures ListShape(s') && Conserved(s')
  {
    hide Held, Batched, Consistent;
    AppendOne(s.committed, t);
  }

  lemma ReturnKeeps(s: State, n: nat, w: nat)
    requires Inv(s, n) && w < n && s.workers[w].phase.Holding?
    ensures Inv(DoReturn(s, w), n)
  {
    hide Sum, Held, Batched, Control, ListShape, Conserved;
    var t := s.workers[w].phase.task;
    var s', w' := DoReturn(s, w), Worker(Replying, s.workers[w].batch);
    ControlUpdate(s, s', w, w');
    HeldUpdate(s, s', w, w');
    BatchedUpdate(s, s', w, w');
    assert Held(s) == Held(s') + multiset{t};
    ReturnKeepsShape(s, w);
    ReturnKeepsTasks(s, w);
  }

  lemma ReturnKeepsShape(s: State, w: nat)
    requires ListShape(s) && w < |s.workers| && s.workers[w].phase.Holding?
    requires Held(s) == Held(DoReturn(s, w)) + multiset{s.workers[w].phase.task}
    ensures ListShape(DoReturn(s, w))
  {
    hide Held, Batched;
    var s' := DoReturn(s, w);
    if HasRoom(s.list) {
      assert s'.list.nodes[s'.front..] == s.list.nodes[s.front..];
    }
  }

  lemma ReturnKeepsTasks(s: State, w: nat)
    requires Conserved(s) && w < |s.workers| && s.workers[w].phase.Holding?
    requires Held(s) == Held(DoReturn(s, w)) + multiset{s.workers[w].phase.task}
    requires Batched(DoReturn(s, w)) == Batched(s)
    ensures Conserved(DoReturn(s, w))
  {
    hide Held, Batched;
    var s', t := DoReturn(s, w), s.workers[w].phase.task;
    if HasRoom(s.list) {
      assert s'.list.nodes[..s'.front] == [t] + s.list.nodes[..s.front];
      PrependOne(s.list.nodes[..s.front], t);
    } else {
      AppendOne(s.lost, t);
    }
  }

  lemma ReplyKeeps(s: State, n: nat, w: nat)
    requires Inv(s, n) && In(s, w, Replying)
    ensures Inv(DoReply(s, w), n)
  {
    hide Held, Batched, Control, ListShape, Conserved;
    var batch := s.workers[w].batch;
    if batch == [] {
      MoveKeeps(s, n, w, Top);
    } else {
      var s', w' := DoReply(s, w), Worker(Replying, batch[1..]);
      ControlUpdate(s, s', w, w');
      HeldUpdate(s, s', w, w');
      BatchedUpdate(s, s', w, w');
      assert batch == [batch[0]] + batch[1..];
      PrependOne(batch[1..], batch[0]);
      assert Batched(s) == Batched(s') + multiset{batch[0]};
      ReplyKeepsTasks(s, s', batch[0]);
    }
  }

  lemma ReplyKeepsTasks(s: State, s': State, t: Task)
    requires ListShape(s) && Conserved(s)
    requires |s'.workers| == |s.workers| && s'.(workers := s.workers, answered := s.answered) == s
    requires s'.answered == s.answered + [t]
    requires Held(s') == Held(s) && Batched(s) == Batched(s') + multiset{t}
    ensures ListShape(s') && Conserved(s')
  {
    hide Held, Batched, Consistent;
    AppendOne(s.answered, t);
  }

  lemma StepKeeps(s: State, n: nat, a: Action)
    requires Inv(s, n)
    ensures Inv(Apply(s, a), n)
  {
    hide ListShape, Conserved, DoAddTask, DoPut, DoTake, DoAdmit, DoReturn, DoReply;
    match a
    case AddTask(width) => AddTaskKeeps(s, n, width);
    case PutPending(k) => if k < |s.flight| { PutKeeps(s, n, k); }
    case Loop(w) => if In(s, w, Top) { MoveKeeps(s, n, w, if !s.life.Running? then Exited else Gathering); }
    case KeepOpen(w) => if In(s, w, Gathering) { MoveKeeps(s, n, w, Waiting); }
    case Close(w) => if In(s, w, Gathering) { MoveKeeps(s, n, w, Replying); }
    case TakeHead(w) => if In(s, w, Waiting) { TakeKeeps(s, n, w); }
    case Admit(w) => if w < n && s.workers[w].phase.Holding? { AdmitKeeps(s, n, w); }
    case Return(w) => if w < n && s.workers[w].phase.Holding? { ReturnKeeps(s, n, w); }
    case Reply(w) => if In(s, w, Replying) { ReplyKeeps(s, n, w); }
    case FinishStart => LifeKeeps(s, n, Running);
    case Stop => LifeKeeps(s, n, Closing);
    case Flush => if s.life.Closing? && AllExited(s.workers) { FlushKeeps(s, n); }
  }

  lemma LifeKeeps(s: State, n: nat, life: Life)
    requires Inv(s, n)
    ensures Inv(s.(life := life), n)
  {}

  lemma FlushKeeps(s: State, n: nat)
    requires Inv(s, n) && AllExited(s.workers)
    ensures Inv(s.(list := s.list.(alive := false)), n)
  {}

  lemma {:induction false} NothingOwned(n: nat, own: Worker -> multiset<Task>)
    requires own(Worker(Top, [])) == multiset{}
    ensures Sum(seq(n, _ => Worker(Top, [])), own) == multiset{}
  {
    if n > 0 {
      assert seq(n, _ => Worker(Top, []))[1..] == seq(n - 1, _ => Worker(Top, []));
      NothingOwned(n - 1, own);
    }
  }

  /** The invariant holds in every state any interleaving reaches. */
  lemma {:induction false} Reachable(n: nat, acts: seq<Action>)
    ensures Inv(Exec(Init(n), acts), n)
  {
    if acts == [] {
      NothingOwned(n, Hand);
      NothingOwned(n, BatchOf);
    } else {
      hide Inv, Apply;
      Reachable(n, acts[..|acts| - 1]);
      StepKeeps(Exec(Init(n), acts[..|acts| - 1]), n, acts[|acts| - 1]);
    }
  }

  /** Conservation: whatever the interleaving, the tasks passed to add_task are those queued,
      on their way, in hand, batched, answered or dropped, each once. */
  lemma TaskConservation(n: nat, acts: seq<Action>)
    ensures var s := Exec(Init(n), acts);
            && multiset(s.submitted) ==
               multiset(s.flight) + multiset(s.list.nodes) + Held(s) + Batched(s) + multiset(s.answered)
               + multiset(s.refused) + multiset(s.lost)
            && s.list.num == |s.list.nodes| <= MAX_LIST_OBJECT
  {
    Reachable(n, acts);
    var s := Exec(Init(n), acts);
    hide Exec, Sum;
    assert s.list.nodes == s.list.nodes[..s.front] + s.list.nodes[s.front..];
    assert s.accepted == s.accepted[..s.popped] + s.accepted[s.popped..];
  }

  lemma {:induction false} NumberedOnce(ts: seq<Task>, t: Task)
    requires forall i :: 0 <= i < |ts| ==> ts[i].id == i
    ensures multiset(ts)[t] <= 1
  {
    if ts != [] {
      var n := |ts| - 1;
      assert ts == ts[..n] + [ts[n]];
      NumberedOnce(ts[..n], t);
      assert t == ts[n] ==> t !in ts[..n];
    }
  }

  /** No task is answered twice, nor both answered and dropped. */
  lemma AnsweredOnce(n: nat, acts: seq<Action>, t: Task)
    ensures var s := Exec(Init(n), acts);
            multiset(s.answered)[t] + multiset(s.refused)[t] + multiset(s.lost)[t] <= 1
  {
    TaskConservation(n, acts);
    Reachable(n, acts);
    NumberedOnce(Exec(Init(n), acts).submitted, t);
  }

  /** In every reachable state put_front drops its task exactly when the list is full. */
  lemma PutFrontDropsIffFull(n: nat, acts: seq<Action>, w: nat)
    requires var s := Exec(Init(n), acts); w < |s.workers| && s.workers[w].phase.Holding?
    ensures var s := Exec(Init(n), acts);
            DoReturn(s, w).lost != s.lost <==> |s.list.nodes| == MAX_LIST_OBJECT
  {
    Reachable(n, acts);
    hide Exec, ListShape, Conserved;
    var s := Exec(Init(n), acts);
    assert s.list.alive;
    assert Consistent(s.list) by {
      ShapeIsConsistent(s);
    }
  }

  lemma ShapeIsConsistent(s: State)
    requires ListShape(s)
    ensures Consistent(s.list)
  {}

  /** So a run in which queued and in-hand tasks never exceed 5000 loses nothing to put_front. */
  lemma {:induction false} NothingLost(n: nat, acts: seq<Action>)
    requires forall k :: 0 <= k <= |acts| ==>
               var s := Exec(Init(n), acts[..k]);
               |s.list.nodes| + |Held(s)| <= MAX_LIST_OBJECT
    ensures Exec(Init(n), acts).lost == []
  {
    if acts != [] {
      var m := |acts| - 1;
      var init := acts[..m];
      forall k | 0 <= k <= m ensures init[..k] == acts[..k] {}
      NothingLost(n, init);
      assert init[..m] == init;
      Reachable(n, init);
      StepLoses(Exec(Init(n), init), n, acts[m]);
    }
  }

  lemma StepLoses(s: State, n: nat, a: Action)
    requires Inv(s, n)
    ensures Apply(s, a).lost != s.lost ==> |s.list.nodes| + |Held(s)| > MAX_LIST_OBJECT
    ensures s.lost <= Apply(s, a).lost
  {
    hide Sum, Conserved;
    if a.Return? && a.w < n && s.workers[a.w].phase.Holding? {
      HeldUpdate(s, s, a.w, s.workers[a.w]);
      assert s.workers[a.w].phase.task in Held(s);
    }
  }
}

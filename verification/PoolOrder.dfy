/** In which order the pool serves its tasks. */
module PoolOrder {
  import opened WaitLists
  import opened Pool
  import opened PoolInvariant

  /** Accepted tasks that still wait: queued, or in some worker's hand. */
  function Outstanding(s: State): multiset<Task> {
    multiset(s.list.nodes) + Held(s)
  }

  lemma SmallerBag<T>(a: multiset<T>, b: multiset<T>)
    requires a <= b
    ensures |a| <= |b|
  {
    assert b == a + (b - a);
  }

  lemma SplitCounts(q: seq<Task>, k: nat, t: Task)
    requires k <= |q|
    ensures multiset(q)[t] == multiset(q[..k])[t] + multiset(q[k..])[t]
  {
    assert q == q[..k] + q[k..];
  }

  lemma CountedFrom(q: seq<Task>, k: nat, j: nat)
    requires k <= |q| && j < |q|
    ensures k <= j ==> multiset(q[k..])[q[j]] >= 1
    ensures j < k ==> multiset(q[..k])[q[j]] >= 1
  {
    assert k <= j ==> q[k..][j - k] == q[j];
    assert j < k ==> q[..k][j] == q[j];
  }

  /** Tasks are accepted at most once. */
  lemma AcceptedOnce(s: State, n: nat, t: Task)
    requires Inv(s, n)
    ensures multiset(s.accepted)[t] <= 1
  {
    hide Sum, ListShape;
    NumberedOnce(s.submitted, t);
  }

  /** A task in hand has been popped, so everything queued that was never popped was accepted
      after it. */
  lemma InHand(s: State, n: nat, w: nat, j: nat)
    requires Inv(s, n) && w < n && s.workers[w].phase.Holding?
    requires j < |s.accepted| && s.accepted[j] == s.workers[w].phase.task
    ensures j < s.popped
    ensures multiset(s.accepted[..j])[s.accepted[j]] == 0
    ensures s.accepted[j] in Held(s)
  {
    hide Sum, Held, Batched;
    var t := s.accepted[j];
    HeldUpdate(s, s.(workers := s.workers[w := s.workers[w]]), w, s.workers[w]);
    assert t in Held(s);
    AcceptedOnce(s, n, t);
    SplitCounts(s.accepted, s.popped, t);
    SplitCounts(s.accepted, j, t);
    CountedFrom(s.accepted, j, j);
    CountedFrom(s.accepted, s.popped, j);
  }

  /** Of a prefix of popped tasks, those that still wait stand in P or in some hand. */
  lemma EarlierOutstanding(s: State, n: nat, j: nat, x: Task)
    requires Inv(s, n) && j <= s.popped && x in multiset(s.accepted[..j])
    ensures multiset(s.accepted[..j])[x] == multiset(s.accepted[..s.popped])[x] == 1
    ensures Outstanding(s)[x] == multiset(s.list.nodes[..s.front])[x] + Held(s)[x]
  {
    hide Sum, Held, Batched;
    AcceptedOnce(s, n, x);
    SplitCounts(s.accepted, s.popped, x);
    SplitCounts(s.accepted[..s.popped], j, x);
    assert s.accepted[..s.popped][..j] == s.accepted[..j];
    SplitCounts(s.list.nodes, s.front, x);
  }

  /** Bounded reordering, from the invariant: P and the hands hold at most `cap` tasks, one of
      them t. */
  lemma ReorderingBound(s: State, n: nat, w: nat, j: nat, cap: nat)
    requires Inv(s, n) && w < n && s.workers[w].phase.Holding? && s.front + |Held(s)| <= cap
    requires j < |s.accepted| && s.accepted[j] == s.workers[w].phase.task
    ensures |multiset(s.accepted[..j]) * Outstanding(s)| < cap
  {
    hide Sum, Held, Conserved, Outstanding, Control;
    var t := s.accepted[j];
    InHand(s, n, w, j);
    var room := multiset(s.list.nodes[..s.front]) + Held(s) - multiset{t};
    forall x ensures (multiset(s.accepted[..j]) * Outstanding(s))[x] <= room[x] {
      if x in multiset(s.accepted[..j]) {
        EarlierOutstanding(s, n, j, x);
      }
    }
    SmallerBag(multiset(s.accepted[..j]) * Outstanding(s), room);
  }

  /** With any number of producers and n workers, in every reachable state: when a worker is
      about to admit a task to its batch, fewer than n tasks accepted earlier still wait. */
  lemma BoundedReordering(n: nat, acts: seq<Action>, w: nat)
    requires var s := Exec(Init(n), acts); w < |s.workers| && s.workers[w].phase.Holding?
    ensures var s := Exec(Init(n), acts);
            var t := s.workers[w].phase.task;
            && t in s.accepted
            && forall j :: 0 <= j < |s.accepted| && s.accepted[j] == t ==>
                 |multiset(s.accepted[..j]) * Outstanding(s)| < n
  {
    var s := Exec(Init(n), acts);
    Reachable(n, acts);
    hide Exec, Inv, Sum, Held, Outstanding;
    HeldInAccepted(s, n, w);
    forall j | 0 <= j < |s.accepted| && s.accepted[j] == s.workers[w].phase.task
      ensures |multiset(s.accepted[..j]) * Outstanding(s)| < n
    {
      HeldBound(s, n);
      ReorderingBound(s, n, w, j, n);
    }
  }

  lemma HeldBound(s: State, n: nat)
    requires Inv(s, n)
    ensures s.front + |Held(s)| <= n
  {
    hide Held;
  }

  lemma HeldInAccepted(s: State, n: nat, w: nat)
    requires Inv(s, n)
    ensures |s.workers| == n
    ensures w < n && s.workers[w].phase.Holding? ==> s.workers[w].phase.task in s.accepted
  {
    if w < n && s.workers[w].phase.Holding? {
      hide Sum, Held, Batched;
      HeldUpdate(s, s.(workers := s.workers[w := s.workers[w]]), w, s.workers[w]);
      var t := s.workers[w].phase.task;
      assert t in multiset(s.accepted[..s.popped]);
      assert t in s.accepted[..s.popped];
    }
  }

  // ------------------------------------------------------------ one worker: strict FIFO

  /** Batches are filled, and answers given, in the order of acceptance. */
  predicate InOrder(s: State, served: seq<Task>) {
    forall a, b, i, j | 0 <= a < b < |served| && 0 <= i < |s.accepted| && 0 <= j < |s.accepted|
                        && s.accepted[i] == served[a] && s.accepted[j] == served[b] ::
      i < j
  }

  /** What has joined a batch was accepted before whatever still waits. */
  predicate ServedFirst(s: State) {
    forall i, j | 0 <= i < |s.accepted| && 0 <= j < |s.accepted|
                  && s.accepted[i] in s.committed && s.accepted[j] in Outstanding(s) ::
      i < j
  }

  predicate Fifo(s: State) {
    InOrder(s, s.committed) && ServedFirst(s)
  }

  lemma CommittedAccepted(s: State, n: nat, t: Task)
    requires Inv(s, n) && t in s.committed
    ensures t in s.accepted
  {
    hide Sum, Held, Batched;
    assert t in multiset(s.committed);
    assert t in multiset(s.accepted[..s.popped]);
    assert t in s.accepted[..s.popped];
  }

  /** A task on its way to put has not been seen before. */
  lemma FlightIsNew(s: State, n: nat, k: nat)
    requires Inv(s, n) && k < |s.flight|
    ensures s.flight[k] !in s.accepted && s.flight[k] !in s.committed
  {
    hide Sum, Held, Batched, ListShape;
    var t := s.flight[k];
    NumberedOnce(s.submitted, t);
    assert t in multiset(s.flight);
    assert t !in multiset(s.accepted);
    if t in s.committed {
      CommittedAccepted(s, n, t);
    }
  }

  lemma PutFifo(s: State, k: nat)
    requires Inv(s, 1) && Fifo(s) && k < |s.flight|
    ensures Fifo(DoPut(s, k))
  {
    hide Sum, Held, Batched, Fifo, Inv;
    if HasRoom(s.list) {
      var s', t := DoPut(s, k), s.flight[k];
      FlightIsNew(s, 1, k);
      SameHeld(s, s');
      AppendOne(s.list.nodes, t);
      PutServed(s, s', t);
    } else {
      SameOutstanding(s, DoPut(s, k));
      QuietFifo(s, DoPut(s, k));
    }
  }

  lemma PutServed(s: State, s': State, t: Task)
    requires Fifo(s) && t !in s.committed && t !in s.accepted
    requires s'.accepted == s.accepted + [t] && s'.committed == s.committed
    requires Outstanding(s') == Outstanding(s) + multiset{t}
    ensures Fifo(s')
  {
    hide Outstanding;
    forall i, j | 0 <= i < |s'.accepted| && 0 <= j < |s'.accepted|
                  && s'.accepted[i] in s'.committed && s'.accepted[j] in Outstanding(s')
      ensures i < j
    {
      if j < |s.accepted| {
        assert s.accepted[j] in Outstanding(s);
      }
    }
  }

  lemma AdmitFifo(s: State, w: nat)
    requires Inv(s, 1) && Fifo(s) && w < 1 && s.workers[w].phase.Holding?
    ensures Fifo(DoAdmit(s, w))
  {
    hide Sum, Held, Batched;
    var s', t := DoAdmit(s, w), s.workers[w].phase.task;
    HeldUpdate(s, s', w, s'.workers[w]);
    assert Outstanding(s') == Outstanding(s) - multiset{t} && t in Outstanding(s);
    forall i | 0 <= i < |s.accepted| && s.accepted[i] == t
      ensures forall j :: 0 <= j < |s.accepted| && s.accepted[j] in Outstanding(s') ==> i < j
    {
      AdmitOldest(s, w, i);
    }
    AdmitServed(s, s', t);
  }

  /** With one worker the task in hand is the oldest that waits. */
  lemma AdmitOldest(s: State, w: nat, i: nat)
    requires Inv(s, 1) && w < 1 && s.workers[w].phase.Holding?
    requires i < |s.accepted| && s.accepted[i] == s.workers[w].phase.task
    ensures forall j :: 0 <= j < |s.accepted| && s.accepted[j] in Outstanding(s) - multiset{s.accepted[i]} ==> i < j
  {
    hide Sum, Held, Batched, Conserved, Control, Outstanding;
    ReorderingBound(s, 1, w, i, 1);
    InHand(s, 1, w, i);
    OutstandingOnce(s, w, i);
    assert multiset(s.accepted[..i]) * Outstanding(s) == multiset{};
    forall j | 0 <= j < |s.accepted| && s.accepted[j] in Outstanding(s) - multiset{s.accepted[i]}
      ensures i < j
    {
      CountedFrom(s.accepted, i, j);
    }
  }

  lemma OutstandingOnce(s: State, w: nat, i: nat)
    requires Inv(s, 1) && w < 1 && s.workers[w].phase.Holding?
    requires i < |s.accepted| && s.accepted[i] == s.workers[w].phase.task
    ensures Outstanding(s)[s.accepted[i]] <= 1
  {
    hide Sum, Held, Batched;
    var t := s.accepted[i];
    InHand(s, 1, w, i);
    AcceptedOnce(s, 1, t);
    SplitCounts(s.accepted, s.popped, t);
    SplitCounts(s.list.nodes, s.front, t);
  }

  lemma AdmitServed(s: State, s': State, t: Task)
    requires Fifo(s) && t in Outstanding(s)
    requires s'.accepted == s.accepted && s'.committed == s.committed + [t]
    requires Outstanding(s') <= Outstanding(s)
    requires forall i, j | 0 <= i < |s.accepted| && s.accepted[i] == t
                           && 0 <= j < |s.accepted| && s.accepted[j] in Outstanding(s') :: i < j
    ensures Fifo(s')
  {
    hide Outstanding;
    forall a, b, i, j | 0 <= a < b < |s'.committed| && 0 <= i < |s.accepted| && 0 <= j < |s.accepted|
                        && s.accepted[i] == s'.committed[a] && s.accepted[j] == s'.committed[b]
      ensures i < j
    {
      if b == |s.committed| {
        assert s.accepted[i] in s.committed;
      }
    }
    forall i, j | 0 <= i < |s.accepted| && 0 <= j < |s.accepted|
                  && s.accepted[i] in s'.committed && s.accepted[j] in Outstanding(s')
      ensures i < j
    {
      assert s.accepted[j] in Outstanding(s);
    }
  }

  lemma QuietFifo(s: State, s': State)
    requires Fifo(s) && s'.accepted == s.accepted && s'.committed == s.committed
    requires Outstanding(s') <= Outstanding(s)
    ensures Fifo(s')
  {
    hide Outstanding;
    forall i, j | 0 <= i < |s.accepted| && 0 <= j < |s.accepted|
                  && s.accepted[i] in s'.committed && s.accepted[j] in Outstanding(s')
      ensures i < j
    {
      assert s.accepted[j] in Outstanding(s);
    }
  }

  lemma WorkerQuiet(s: State, s': State, w: nat)
    requires w < |s.workers| && |s'.workers| == |s.workers| && s'.workers == s.workers[w := s'.workers[w]]
    requires Hand(s'.workers[w]) <= Hand(s.workers[w]) && s'.list == s.list
    ensures Outstanding(s') <= Outstanding(s)
  {
    hide Sum, Held;
    HeldUpdate(s, s', w, s'.workers[w]);
  }

  lemma TakeQuiet(s: State, w: nat)
    requires Consistent(s.list) && In(s, w, Waiting)
    ensures Outstanding(DoTake(s, w)) <= Outstanding(s)
  {
    hide Sum, Held;
    if s.list.alive && s.list.num > 0 {
      var s', t := DoTake(s, w), s.list.nodes[0];
      assert s'.workers == s.workers[w := Worker(Holding(t), s.workers[w].batch)];
      HeldUpdate(s, s', w, Worker(Holding(t), s.workers[w].batch));
      assert Held(s') == Held(s) + multiset{t};
      assert s.list.nodes == [t] + s'.list.nodes;
      PrependOne(s'.list.nodes, t);
    } else if !s.list.alive {
      WorkerQuiet(s, DoTake(s, w), w);
    }
  }

  lemma ReturnQuiet(s: State, w: nat)
    requires w < |s.workers| && s.workers[w].phase.Holding?
    ensures Outstanding(DoReturn(s, w)) <= Outstanding(s)
  {
    hide Sum, Held;
    var s' := DoReturn(s, w);
    HeldUpdate(s, s', w, s'.workers[w]);
    PrependOne(s.list.nodes, s.workers[w].phase.task);
  }

  /** No other step makes a task wait. */
  lemma OthersQuiet(s: State, n: nat, a: Action)
    requires Inv(s, n) && !a.PutPending? && !a.Admit?
    ensures var s' := Apply(s, a);
            s'.accepted == s.accepted && s'.committed == s.committed && Outstanding(s') <= Outstanding(s)
  {
    hide Sum, Held, Conserved, Control, Outstanding, PutFront, Take;
    var s' := Apply(s, a);
    match a
    case Loop(w) => if In(s, w, Top) { WorkerQuiet(s, s', w); }
    case KeepOpen(w) => if In(s, w, Gathering) { WorkerQuiet(s, s', w); }
    case Close(w) => if In(s, w, Gathering) { WorkerQuiet(s, s', w); }
    case TakeHead(w) => if In(s, w, Waiting) { TakeQuiet(s, w); }
    case Return(w) => if w < n && s.workers[w].phase.Holding? { ReturnQuiet(s, w); }
    case Reply(w) => if In(s, w, Replying) { WorkerQuiet(s, s', w); }
    case _ => SameOutstanding(s, s');
  }

  lemma SameOutstanding(s: State, s': State)
    requires s'.workers == s.workers && s'.list.nodes == s.list.nodes
    ensures Outstanding(s') == Outstanding(s)
  {}

  lemma SameHeld(s: State, s': State)
    requires s'.workers == s.workers
    ensures Held(s') == Held(s)
  {}

  lemma StepFifo(s: State, a: Action)
    requires Inv(s, 1) && Fifo(s)
    ensures Fifo(Apply(s, a))
  {
    hide Fifo, DoPut, DoAdmit, ListShape, Conserved, Control;
    if a.PutPending? {
      if a.k < |s.flight| {
        PutFifo(s, a.k);
      }
    } else if a.Admit? {
      if a.w < |s.workers| && s.workers[a.w].phase.Holding? {
        AdmitFifo(s, a.w);
      }
    } else {
      OthersQuiet(s, 1, a);
      QuietFifo(s, Apply(s, a));
    }
  }

  lemma NothingServed()
    ensures Fifo(Init(1))
  {}

  /** One worker: tasks join batches strictly in the order of acceptance. */
  lemma {:induction false} SingleWorkerFifo(acts: seq<Action>)
    ensures Fifo(Exec(Init(1), acts))
  {
    hide Fifo, Inv, Apply, Init;
    if acts == [] {
      NothingServed();
    } else {
      SingleWorkerFifo(acts[..|acts| - 1]);
      Reachable(1, acts[..|acts| - 1]);
      StepFifo(Exec(Init(1), acts[..|acts| - 1]), acts[|acts| - 1]);
    }
  }

  predicate Answering(s: State) {
    && |s.workers| == 1
    && s.answered + s.workers[0].batch == s.committed
    && (s.workers[0].phase.Top? ==> s.workers[0].batch == [])
  }

  lemma AnsweringKeeps(s: State, a: Action)
    requires Answering(s)
    ensures Answering(Apply(s, a))
  {
    hide Take, Put, PutFront, AllExited;
    if a.Admit? && a.w == 0 && s.workers[0].phase.Holding? {
      var t := s.workers[0].phase.task;
      assert s.answered + (s.workers[0].batch + [t]) == s.committed + [t];
    } else if a.Reply? && In(s, a.w, Replying) && s.workers[0].batch != [] {
      var batch := s.workers[0].batch;
      assert (s.answered + [batch[0]]) + batch[1..] == s.answered + batch;
    }
  }

  /** One worker: what is answered, then what its batch still holds, is what was batched. */
  lemma {:induction false} SingleWorkerAnswers(acts: seq<Action>)
    ensures Answering(Exec(Init(1), acts))
  {
    if acts != [] {
      SingleWorkerAnswers(acts[..|acts| - 1]);
      AnsweringKeeps(Exec(Init(1), acts[..|acts| - 1]), acts[|acts| - 1]);
    }
  }

  /** One worker: replies are sent strictly in the order of acceptance. */
  lemma SingleWorkerReplies(acts: seq<Action>)
    ensures var s := Exec(Init(1), acts);
            s.answered <= s.committed && InOrder(s, s.answered)
  {
    SingleWorkerFifo(acts);
    SingleWorkerAnswers(acts);
    hide Exec;
    var s := Exec(Init(1), acts);
    assert s.answered <= s.committed;
  }
}

/** Ordinary tasks behind wide ones.  The test puts a wide task back for ever, so it keeps a
    worker busy; these are the exact conditions under which an ordinary task still gets through,
    without and with put_front dropping wide tasks from a full list. */
module PoolJam {
  import opened WaitLists
  import opened Pool
  import opened PoolInvariant
  import opened PoolOrder
  import opened PoolRuns
  import opened PoolBounds
  import opened PoolProgress

  // ------------------------------------------------------------ reachable states of real runs

  /** Only wide tasks are ever put back. */
  predicate BackIsWide(s: State) {
    s.front <= |s.list.nodes| && forall t :: t in s.list.nodes[..s.front] ==> Wide(t)
  }

  /** Nothing is queued or in hand before the pool runs, and while it runs no worker leaves. */
  predicate Settled(s: State) {
    && (s.life.Starting? ==> Untouched(s))
    && (s.life.Running? ==> Capped(s, Count(s.workers, Active)))
  }

  predicate Untouched(s: State) {
    && s.list.nodes == [] && s.flight == [] && s.front == 0
    && forall w :: 0 <= w < |s.workers| ==> !s.workers[w].phase.Holding?
  }

  lemma StepBackIsWide(s: State, n: nat, a: Action)
    requires Inv(s, n) && BackIsWide(s) && StepObeys(s, a, Wide)
    ensures BackIsWide(Apply(s, a))
  {
    hide Conserved, Held, Wide;
    var s' := Apply(s, a);
    if s'.list != s.list {
      forall t | t in s'.list.nodes[..s'.front] ensures Wide(t) {
        if t !in s.list.nodes[..s.front] {
          assert a.Return? && t == s.workers[a.w].phase.task;
        }
      }
    }
  }

  lemma ActiveKept(s: State, n: nat, a: Action)
    requires Inv(s, n) && s.life.Running?
    ensures Count(Apply(s, a).workers, Active) == Count(s.workers, Active)
  {
    hide ListShape, Conserved, Control, Take, Put, PutFront, Count;
    var s', w := Apply(s, a), Mover(a, n);
    OneMoves(s, n, a);
    if s'.workers != s.workers {
      CountUpdate(s.workers, Active, w, s'.workers[w]);
    }
  }

  lemma StartUntouched(s: State, n: nat, a: Action)
    requires Consistent(s.list) && s.life.Starting? && Untouched(s)
    ensures Untouched(Apply(s, a)) && !Apply(s, a).life.Closing?
  {
    hide AllExited;
  }

  lemma {:induction false} NoHands(ws: seq<Worker>)
    requires forall w :: 0 <= w < |ws| ==> !ws[w].phase.Holding?
    ensures Sum(ws, Hand) == multiset{}
  {
    if ws != [] {
      NoHands(ws[1..]);
    }
  }

  lemma UntouchedCapped(s: State)
    requires Untouched(s)
    ensures Capped(s, Count(s.workers, Active))
  {
    NoHands(s.workers);
  }

  lemma StepSettled(s: State, n: nat, a: Action)
    requires Inv(s, n) && Settled(s)
    ensures Settled(Apply(s, a))
  {
    hide Untouched, Capped, Conserved, Control, Take, Put, PutFront;
    if s.life.Starting? {
      StartUntouched(s, n, a);
      UntouchedCapped(Apply(s, a));
    } else if s.life.Running? {
      StepCapped(s, n, a, Count(s.workers, Active));
      ActiveKept(s, n, a);
    }
  }

  /** What every state of a real run keeps. */
  predicate Real(s: State, n: nat) {
    Inv(s, n) && Fitting(s) && Settled(s) && BackIsWide(s)
  }

  lemma {:induction false} RealKeeps(n: nat, acts: seq<Action>)
    requires RunObeys(Init(n), acts, Wide)
    ensures Real(Exec(Init(n), acts), n)
  {
    if acts == [] {
      StartCapped(n);
    } else {
      hide Real, Apply, StepObeys, Init;
      var s, a := Exec(Init(n), acts[..|acts| - 1]), acts[|acts| - 1];
      RealKeeps(n, acts[..|acts| - 1]);
      StepReal(s, n, a);
    }
  }

  lemma RealStateKeeps(s: State, n: nat)
    requires RealState(s, n)
    ensures Real(s, n)
  {
    hide Real, Exec, RunObeys;
    var acts :| RunObeys(Init(n), acts, Wide) && Exec(Init(n), acts) == s;
    RealKeeps(n, acts);
  }

  lemma StepReal(s: State, n: nat, a: Action)
    requires Real(s, n) && StepObeys(s, a, Wide)
    ensures Real(Apply(s, a), n)
  {
    hide Inv, Settled, BackIsWide, Apply;
    StepKeeps(s, n, a);
    StepSettled(s, n, a);
    StepBackIsWide(s, n, a);
    StepHistories(s, n, a);
    HeldInAccepted(s, n, 0);
  }

  // ------------------------------------------------------------ where an outstanding task is

  lemma {:induction false} HandFound(ws: seq<Worker>, t: Task)
    requires t in Sum(ws, Hand)
    ensures exists w :: 0 <= w < |ws| && ws[w].phase == Holding(t)
  {
    if t in Hand(ws[0]) {
      assert ws[0].phase == Holding(t);
    } else {
      HandFound(ws[1..], t);
      var w :| 0 <= w < |ws[1..]| && ws[1..][w].phase == Holding(t);
      assert ws[w + 1].phase == Holding(t);
    }
  }

  /** An outstanding task has not been batched. */
  lemma OutstandingUncommitted(s: State, n: nat, t: Task)
    requires Inv(s, n) && t in Outstanding(s)
    ensures t !in s.committed
  {
    hide Sum, Held, Batched;
    AcceptedOnce(s, n, t);
    SplitCounts(s.accepted, s.popped, t);
    SplitCounts(s.list.nodes, s.front, t);
    assert multiset(s.committed)[t] == 0;
  }

  /** An ordinary outstanding task was never popped, and then its place in the queue is known,
      or it is in some hand. */
  lemma NarrowPlace(s: State, n: nat, j: nat)
    requires Real(s, n) && j < |s.accepted| && !Wide(s.accepted[j]) && s.accepted[j] in Outstanding(s)
    ensures s.popped <= j ==>
              var i := s.front + (j - s.popped);
              i < |s.list.nodes| && s.list.nodes[i] == s.accepted[j]
    ensures j < s.popped ==> exists w :: 0 <= w < |s.workers| && s.workers[w].phase == Holding(s.accepted[j])
  {
    hide Sum, Batched, Wide, Settled, Control;
    var t := s.accepted[j];
    if s.popped <= j {
      assert s.list.nodes[s.front..][j - s.popped] == s.accepted[s.popped..][j - s.popped];
    } else {
      AcceptedOnce(s, n, t);
      SplitCounts(s.accepted, s.popped, t);
      CountedFrom(s.accepted, s.popped, j);
      SplitCounts(s.list.nodes, s.front, t);
      assert multiset(s.list.nodes[..s.front])[t] == 0;
      HandFound(s.workers, t);
    }
  }

  // ------------------------------------------------------------ letting an ordinary task through

  predicate FreeHand(w: Worker) {
    Active(w) && CanAdmit(w, Wide)
  }

  function WideHand(w: Worker): multiset<Task> {
    if CanAdmit(w, Wide) then multiset{} else multiset{w.phase.task}
  }

  lemma {:induction false} FreeAndWide(ws: seq<Worker>)
    ensures Count(ws, FreeHand) + |Sum(ws, WideHand)| == Count(ws, Active)
  {
    if ws != [] {
      FreeAndWide(ws[1..]);
    }
  }

  lemma {:induction false} WideHandIs(ws: seq<Worker>, x: Task)
    ensures Sum(ws, WideHand)[x] == if Wide(x) then Sum(ws, Hand)[x] else 0
  {
    if ws != [] {
      WideHandIs(ws[1..], x);
    }
  }

  /** A free worker takes the head: it admits an ordinary task and keeps a wide one in hand. */
  lemma PickUp(s: State, n: nat) returns (s': State)
    requires Inv(s, n) && s.life.Running? && s.list.nodes != [] && Count(s.workers, FreeHand) > 0
    ensures Leads(s, s', Wide) && Inv(s', n) && s'.life.Running? && s'.lost == s.lost
    ensures s'.list.nodes == s.list.nodes[1..]
    ensures var h := s.list.nodes[0];
            && (!Wide(h) ==> h in s'.committed)
            && Count(s'.workers, FreeHand) == Count(s.workers, FreeHand) - if Wide(h) then 1 else 0
  {
    hide Leads, Conserved, Wide, Count;
    CountFinds(s.workers, FreeHand);
    var w :| 0 <= w < |s.workers| && FreeHand(s.workers[w]);
    var mid := ToWaiting(s, w, Wide);
    CountUpdate(s.workers, FreeHand, w, mid.workers[w]);
    if Wide(s.list.nodes[0]) {
      s' := Apply(mid, TakeHead(w));
      AndThen(s, mid, TakeHead(w), Wide);
    } else {
      s' := TakeAndAdmit(mid, w, Wide);
      Join(s, mid, s', Wide);
    }
    CountUpdate(mid.workers, FreeHand, w, s'.workers[w]);
    LeadsKeeps(s, s', Wide, n);
  }

  /** With more free hands than wide tasks in front of it, the i-th queued task gets batched:
      free workers pick up the wide ones and hold them, the ordinary ones are admitted. */
  lemma {:induction false} LetThrough(s: State, n: nat, i: nat) returns (s': State)
    requires Inv(s, n) && s.life.Running? && i < |s.list.nodes| && !Wide(s.list.nodes[i])
    requires Count(s.workers, FreeHand) > |Oversize(s.list.nodes[..i])|
    ensures Leads(s, s', Wide) && s.list.nodes[i] in s'.committed && s'.lost == s.lost
    decreases i
  {
    hide Leads, Inv, Wide, Count;
    var mid := PickUp(s, n);
    if i == 0 {
      s' := mid;
    } else {
      assert s.list.nodes[..i][1..] == mid.list.nodes[..i - 1];
      s' := LetThrough(mid, n, i - 1);
      Join(s, mid, s', Wide);
    }
  }

  /** The wide tasks in front of the j-th accepted one are those in hand and those queued before
      it, or more. */
  lemma WideAhead(s: State, n: nat, j: nat)
    requires Inv(s, n) && s.popped <= j < |s.accepted|
    ensures var i := s.front + (j - s.popped);
            i <= |s.list.nodes| &&
            |Sum(s.workers, WideHand)| + |Oversize(s.list.nodes[..i])| <= |Oversize(s.accepted[..j]) - multiset(s.lost)|
  {
    hide Sum, Held, Batched, Control, Oversize, Wide;
    var i := s.front + (j - s.popped);
    SplitAhead(s, n, j);
    var queued, held, ahead := Oversize(s.list.nodes[..i]), Sum(s.workers, WideHand), Oversize(s.accepted[..j]);
    forall x ensures (held + queued)[x] <= (ahead - multiset(s.lost))[x] {
      OversizeIs(s.list.nodes[..i], x);
      OversizeIs(s.accepted[..j], x);
      WideHandIs(s.workers, x);
      HeldIs(s);
    }
    SmallerBag(held + queued, ahead - multiset(s.lost));
  }

  lemma SplitAhead(s: State, n: nat, j: nat)
    requires Inv(s, n) && s.popped <= j < |s.accepted|
    ensures var i := s.front + (j - s.popped);
            && i <= |s.list.nodes|
            && multiset(s.list.nodes[..i]) + Held(s) + multiset(s.lost) <= multiset(s.accepted[..j])
  {
    hide Sum, Held, Batched, Control;
    var i := s.front + (j - s.popped);
    assert |s.list.nodes[s.front..]| == |s.accepted[s.popped..]|;
    var unpopped := s.accepted[s.popped..][..j - s.popped];
    assert s.list.nodes[..i] == s.list.nodes[..s.front] + unpopped;
    assert s.accepted[..j] == s.accepted[..s.popped] + unpopped;
  }

  lemma AdmitHeld(s: State, w: nat, t: Task)
    requires w < |s.workers| && s.workers[w].phase == Holding(t) && !Wide(t)
    ensures exists acts :: RunObeys(s, acts, Wide) && t in Exec(s, acts).committed && Exec(s, acts).lost == s.lost
  {
    hide Exec, RunObeys, Wide;
    var s' := Apply(s, Admit(w));
    OneStep(s, Admit(w), Wide);
    var acts :| RunObeys(s, acts, Wide) && Exec(s, acts) == s';
  }

  /** Some run under the real test batches the task. */
  ghost predicate CanBatch(s: State, t: Task) {
    exists acts :: RunObeys(s, acts, Wide) && t in Exec(s, acts).committed
  }

  /** Some run under the real test batches the task, and put_front drops nothing on the way. */
  ghost predicate CanBatchLosslessly(s: State, t: Task) {
    exists acts :: RunObeys(s, acts, Wide) && t in Exec(s, acts).committed && Exec(s, acts).lost == s.lost
  }

  lemma LetThroughIfFew(s: State, n: nat, j: nat)
    requires Real(s, n) && s.life.Running? && j < |s.accepted|
    requires !Wide(s.accepted[j]) && s.accepted[j] in Outstanding(s)
    requires WideBefore(s, j) < Count(s.workers, Active)
    ensures CanBatchLosslessly(s, s.accepted[j])
  {
    hide Exec, RunObeys, Wide, Oversize, Inv, Settled, BackIsWide, Fitting;
    NarrowPlace(s, n, j);
    if s.popped <= j {
      WideAhead(s, n, j);
      FreeAndWide(s.workers);
      var s' := LetThrough(s, n, s.front + (j - s.popped));
      var acts :| RunObeys(s, acts, Wide) && Exec(s, acts) == s';
    } else {
      var w :| 0 <= w < |s.workers| && s.workers[w].phase == Holding(s.accepted[j]);
      AdmitHeld(s, w, s.accepted[j]);
    }
  }

  lemma FewIfLetThrough(s: State, n: nat, j: nat)
    requires Real(s, n) && s.life.Running? && j < |s.accepted| && s.accepted[j] in Outstanding(s)
    requires CanBatchLosslessly(s, s.accepted[j])
    ensures WideBefore(s, j) < Count(s.workers, Active)
  {
    hide Exec, RunObeys, Inv, BackIsWide, Fitting, Oversize, Capped, Outstanding;
    var t := s.accepted[j];
    var acts :| RunObeys(s, acts, Wide) && t in Exec(s, acts).committed && Exec(s, acts).lost == s.lost;
    OutstandingUncommitted(s, n, t);
    RunNotJammed(s, n, acts, Count(s.workers, Active));
    var s' := Exec(s, acts);
    assert s'.accepted[j] == t && s'.accepted[..j] == s.accepted[..j];
  }

  /** The jam, exactly.  In a running pool, under the real test and as long as put_front drops
      nothing, an ordinary task that waits can still be batched if and only if the wide tasks
      accepted before it are fewer than the workers that have not left. */
  lemma JamIff(s: State, n: nat, j: nat)
    requires RealState(s, n) && s.life.Running?
    requires j < |s.accepted| && !Wide(s.accepted[j]) && s.accepted[j] in Outstanding(s)
    ensures CanBatchLosslessly(s, s.accepted[j]) <==> WideBefore(s, j) < Count(s.workers, Active)
  {
    hide Real, RealState, WideBefore, CanBatchLosslessly, Outstanding, Wide;
    RealStateKeeps(s, n);
    if CanBatchLosslessly(s, s.accepted[j]) {
      FewIfLetThrough(s, n, j);
    }
    if WideBefore(s, j) < Count(s.workers, Active) {
      LetThroughIfFew(s, n, j);
    }
  }

  // ------------------------------------------------------------ overflow ends a jam

  /** Producers fill the list. */
  lemma {:induction false} FillUp(s: State) returns (s': State)
    requires Consistent(s.list) && s.list.alive && s.life.Running?
    ensures Leads(s, s', Wide) && s'.workers == s.workers && s'.life == s.life && s'.committed == s.committed
    ensures |s'.list.nodes| == MAX_LIST_OBJECT && s.list.nodes <= s'.list.nodes
    decreases MAX_LIST_OBJECT - |s.list.nodes|
  {
    hide Leads;
    if |s.list.nodes| == MAX_LIST_OBJECT {
      s' := s;
      Stay(s, Wide);
    } else {
      var mid := Enqueue(s, 0, Wide);
      s' := FillUp(mid);
      Join(s, mid, s', Wide);
    }
  }

  /** A worker with a wide task in hand loses it to a full list and waits again. */
  lemma FreeWorker(s: State, n: nat, w: nat) returns (s': State)
    requires Inv(s, n) && s.life.Running? && w < n && Active(s.workers[w])
    ensures Leads(s, s', Wide) && Inv(s', n) && s'.life.Running? && In(s', w, Waiting)
    ensures s.list.nodes <= s'.list.nodes && s.committed <= s'.committed
  {
    hide Leads, Conserved, Wide;
    if CanAdmit(s.workers[w], Wide) {
      s' := ToWaiting(s, w, Wide);
    } else {
      var full := FillUp(s);
      LeadsKeeps(s, full, Wide, n);
      var mid := Apply(full, Return(w));
      AndThen(s, full, Return(w), Wide);
      assert mid.list == full.list;
      s' := ToWaiting(mid, w, Wide);
      Join(s, mid, s', Wide);
    }
    LeadsKeeps(s, s', Wide, n);
  }

  /** One worker takes everything in front of the task, wide tasks being dropped. */
  lemma {:induction false} DropThrough(s: State, n: nat, w: nat, i: nat) returns (s': State)
    requires Inv(s, n) && s.life.Running? && w < n && Active(s.workers[w])
    requires i < |s.list.nodes| && !Wide(s.list.nodes[i])
    ensures Leads(s, s', Wide) && s.list.nodes[i] in s'.committed
    decreases i
  {
    hide Leads, Conserved, Wide;
    var mid := FreeWorker(s, n, w);
    if i == 0 {
      s' := TakeAndAdmit(mid, w, Wide);
      Join(s, mid, s', Wide);
    } else {
      var next := Apply(mid, TakeHead(w));
      AndThen(s, mid, TakeHead(w), Wide);
      LeadsKeeps(s, next, Wide, n);
      s' := DropThrough(next, n, w, i - 1);
      Join(s, next, s', Wide);
    }
  }

  lemma DropsLetThrough(s: State, n: nat, j: nat)
    requires Real(s, n) && s.life.Running? && j < |s.accepted|
    requires !Wide(s.accepted[j]) && s.accepted[j] in Outstanding(s) && Count(s.workers, Active) > 0
    ensures CanBatch(s, s.accepted[j])
  {
    hide Exec, RunObeys, Wide, Inv, Settled, BackIsWide, Fitting;
    NarrowPlace(s, n, j);
    if s.popped <= j {
      SizeIs(s, n);
      CountFinds(s.workers, Active);
      var w :| 0 <= w < |s.workers| && Active(s.workers[w]);
      var s' := DropThrough(s, n, w, s.front + (j - s.popped));
      var acts :| RunObeys(s, acts, Wide) && Exec(s, acts) == s';
    } else {
      var w :| 0 <= w < |s.workers| && s.workers[w].phase == Holding(s.accepted[j]);
      AdmitHeld(s, w, s.accepted[j]);
    }
  }

  /** What ends a jam: producers that fill the list make put_front drop the wide tasks, so with
      drops allowed an ordinary task can still be batched if and only if some worker is left. */
  lemma OverflowIff(s: State, n: nat, j: nat)
    requires RealState(s, n) && s.life.Running?
    requires j < |s.accepted| && !Wide(s.accepted[j]) && s.accepted[j] in Outstanding(s)
    ensures CanBatch(s, s.accepted[j]) <==> exists w :: 0 <= w < |s.workers| && Active(s.workers[w])
  {
    hide Exec, RunObeys, Inv, Settled, BackIsWide, Fitting, Outstanding, Wide, RealState;
    RealStateKeeps(s, n);
    CountFinds(s.workers, Active);
    if Count(s.workers, Active) > 0 {
      DropsLetThrough(s, n, j);
    } else if CanBatch(s, s.accepted[j]) {
      OutstandingUncommitted(s, n, s.accepted[j]);
      var more :| RunObeys(s, more, Wide) && s.accepted[j] in Exec(s, more).committed;
      NoWorkerNoAnswer(s, more);
    }
  }

  // ------------------------------------------------------------ a jam is reached

  /** n wide tasks, one in the hand of each of n workers, and an ordinary task behind them:
      nothing gets through without a drop, and something does with one. */
  lemma JamReached(n: nat) returns (s: State)
    requires n > 0
    ensures RealState(s, n) && s.life.Running? && |s.accepted| == n + 1
    ensures s.accepted[n] in Outstanding(s) && !Wide(s.accepted[n]) && s.accepted[n].width == 3600
    ensures forall i :: 0 <= i < n ==> s.accepted[i].width == 3601
    ensures WideBefore(s, n) == Count(s.workers, Active) == n
    ensures !CanBatchLosslessly(s, s.accepted[n]) && CanBatch(s, s.accepted[n])
  {
    s := FullHands(n);
    hide RealState, CanBatch, CanBatchLosslessly, Outstanding, WideBefore, Wide;
    JamIff(s, n, n);
    CountFinds(s.workers, Active);
    OverflowIff(s, n, n);
  }

  lemma FullHands(n: nat) returns (s: State)
    requires n > 0
    ensures RealState(s, n) && s.life.Running? && |s.accepted| == n + 1
    ensures s.accepted[n] in Outstanding(s) && !Wide(s.accepted[n]) && s.accepted[n].width == 3600
    ensures forall i :: 0 <= i < n ==> s.accepted[i].width == 3601
    ensures WideBefore(s, n) == Count(s.workers, Active) == n
  {
    hide Leads;
    var mid := Grabbed(n, n, MAX_WIDTH + 1);
    GrabAll(n, n, MAX_WIDTH + 1);
    s := Enqueue(mid, MAX_WIDTH, Wide);
    Join(Init(n), mid, s, Wide);
    AllActive(s.workers);
    assert s.list.nodes == [s.accepted[n]];
    assert s.accepted[..n] == Numbered(n, MAX_WIDTH + 1);
    AllWide(s.accepted[..n]);
    assert Oversize(s.accepted[..n]) - multiset([]) == multiset(s.accepted[..n]);
  }

  lemma {:induction false} AllActive(ws: seq<Worker>)
    requires forall i :: 0 <= i < |ws| ==> Active(ws[i])
    ensures Count(ws, Active) == |ws|
  {
    if ws != [] {
      AllActive(ws[1..]);
    }
  }

  lemma AllWide(ts: seq<Task>)
    requires forall i :: 0 <= i < |ts| ==> Wide(ts[i])
    ensures Oversize(ts) == multiset(ts)
  {
    forall x ensures Oversize(ts)[x] == multiset(ts)[x] {
      OversizeIs(ts, x);
      if x in ts {
        assert Wide(x);
      }
    }
  }
}

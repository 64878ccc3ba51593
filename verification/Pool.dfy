/** The batching worker pool of thread_pool.h as a protocol: any number of producers and W
    workers take interleaved atomic steps over one wait list.

    A step that is not enabled leaves the state as it is, so every sequence of actions is a
    run.  `accepted`, `committed`, `answered`, `refused` and `lost` are histories; `front` and
    `popped` describe the list: its first `front` tasks were put back by a worker, the others
    are the accepted tasks that no worker has popped yet. */
module Pool {
  import opened WaitLists

  /** Tasks are numbered in the order their add_task calls start. */
  datatype Task = Task(id: nat, width: int)

  datatype Phase =
    | Top                   // at `while(!is_stop_)`
    | Gathering             // at the test of the batch window
    | Waiting               // in get_from_head
    | Holding(task: Task)   // popped, not yet admitted or put back
    | Replying              // handled; `batch` is what is still to be answered
    | Exited

  datatype Worker = Worker(phase: Phase, batch: seq<Task>)

  /** `is_stop_` is true while the constructor starts the threads and again in the destructor. */
  datatype Life = Starting | Running | Closing

  datatype State = State(
    list: List<Task>,
    life: Life,
    flight: seq<Task>,      // add_task calls between the is_stop_ test and put
    workers: seq<Worker>,
    front: nat,
    popped: nat,
    submitted: seq<Task>,
    accepted: seq<Task>,    // in the order put appended them
    committed: seq<Task>,   // in the order they joined a batch
    answered: seq<Task>,    // in the order send_data ran
    refused: seq<Task>,     // dropped by add_task or put
    lost: seq<Task>)        // dropped by put_front

  datatype Action =
    | AddTask(width: int)
    | PutPending(k: nat)
    | Loop(w: nat)
    | KeepOpen(w: nat)
    | Close(w: nat)
    | TakeHead(w: nat)
    | Admit(w: nat)
    | Return(w: nat)
    | Reply(w: nat)
    | FinishStart   // the constructor clears is_stop_, after it has started the threads
    | Stop          // the destructor sets it
    | Flush         // and flushes the list once it has joined every worker

  function Init(n: nat): State {
    State(List([], 0, true), Starting, [], seq(n, _ => Worker(Top, [])), 0, 0, [], [], [], [], [], [])
  }

  predicate AllExited(ws: seq<Worker>) {
    forall i :: 0 <= i < |ws| ==> ws[i].phase.Exited?
  }

  predicate In(s: State, w: nat, p: Phase) {
    w < |s.workers| && s.workers[w].phase == p
  }

  function Move(s: State, w: nat, p: Phase): State
    requires w < |s.workers|
  {
    s.(workers := s.workers[w := Worker(p, s.workers[w].batch)])
  }

  function DoAddTask(s: State, width: int): State {
    var t := Task(|s.submitted|, width);
    if !s.life.Running? then s.(submitted := s.submitted + [t], refused := s.refused + [t])
    else s.(submitted := s.submitted + [t], flight := s.flight + [t])
  }

  function DoPut(s: State, k: nat): State
    requires k < |s.flight|
  {
    var t := s.flight[k];
    var rest := s.flight[..k] + s.flight[k + 1..];
    var s' := s.(flight := rest, list := Put(s.list, t));
    if HasRoom(s.list) then s'.(accepted := s.accepted + [t]) else s'.(refused := s.refused + [t])
  }

  function DoTake(s: State, w: nat): State
    requires w < |s.workers| && Consistent(s.list)
  {
    match Take(s.list)
    case (Blocked, _) => s
    case (Null, _) => Move(s, w, Gathering)
    case (Got(t), l) =>
      var s' := Move(s, w, Holding(t)).(list := l);
      if s.front > 0 then s'.(front := s.front - 1) else s'.(popped := s.popped + 1)
  }

  function DoAdmit(s: State, w: nat): State
    requires w < |s.workers| && s.workers[w].phase.Holding?
  {
    var t := s.workers[w].phase.task;
    s.(workers := s.workers[w := Worker(Gathering, s.workers[w].batch + [t])], committed := s.committed + [t])
  }

  function DoReturn(s: State, w: nat): State
    requires w < |s.workers| && s.workers[w].phase.Holding?
  {
    var t := s.workers[w].phase.task;
    var s' := Move(s, w, Replying).(list := PutFront(s.list, t));
    if HasRoom(s.list) then s'.(front := s.front + 1) else s'.(lost := s.lost + [t])
  }

  function DoReply(s: State, w: nat): State
    requires w < |s.workers|
  {
    var batch := s.workers[w].batch;
    if batch == [] then Move(s, w, Top)
    else s.(workers := s.workers[w := Worker(Replying, batch[1..])], answered := s.answered + [batch[0]])
  }

  function Apply(s: State, a: Action): State {
    match a
    case AddTask(width) => DoAddTask(s, width)
    case PutPending(k) => if k < |s.flight| then DoPut(s, k) else s
    case Loop(w) => if In(s, w, Top) then Move(s, w, if !s.life.Running? then Exited else Gathering) else s
    case KeepOpen(w) => if In(s, w, Gathering) then Move(s, w, Waiting) else s
    case Close(w) => if In(s, w, Gathering) then Move(s, w, Replying) else s
    case TakeHead(w) => if In(s, w, Waiting) && Consistent(s.list) then DoTake(s, w) else s
    case Admit(w) => if w < |s.workers| && s.workers[w].phase.Holding? then DoAdmit(s, w) else s
    case Return(w) => if w < |s.workers| && s.workers[w].phase.Holding? then DoReturn(s, w) else s
    case Reply(w) => if In(s, w, Replying) then DoReply(s, w) else s
    case FinishStart => if s.life.Starting? then s.(life := Running) else s
    case Stop => if s.life.Running? then s.(life := Closing) else s
    case Flush => if s.life.Closing? && AllExited(s.workers) then s.(list := s.list.(alive := false)) else s
  }

  function Exec(s: State, acts: seq<Action>): State {
    if acts == [] then s else Apply(Exec(s, acts[..|acts| - 1]), acts[|acts| - 1])
  }

  // ------------------------------------------------------------ what the workers own

  function Hand(w: Worker): multiset<Task> {
    if w.phase.Holding? then multiset{w.phase.task} else multiset{}
  }

  function BatchOf(w: Worker): multiset<Task> {
    multiset(w.batch)
  }

  function Sum(ws: seq<Worker>, own: Worker -> multiset<Task>): multiset<Task> {
    if ws == [] then multiset{} else own(ws[0]) + Sum(ws[1..], own)
  }

  function Held(s: State): multiset<Task> {
    Sum(s.workers, Hand)
  }

  function Batched(s: State): multiset<Task> {
    Sum(s.workers, BatchOf)
  }

  lemma {:induction false} SumUpdate(ws: seq<Worker>, own: Worker -> multiset<Task>, i: nat, w: Worker)
    requires i < |ws|
    ensures own(ws[i]) <= Sum(ws, own)
    ensures Sum(ws[i := w], own) == Sum(ws, own) - own(ws[i]) + own(w)
  {
    if i == 0 {
      assert ws[0 := w][1..] == ws[1..];
    } else {
      assert ws[i := w][1..] == ws[1..][i - 1 := w];
      SumUpdate(ws[1..], own, i - 1, w);
    }
  }

  /** A worker holds at most one task. */
  lemma {:induction false} HandsBound(ws: seq<Worker>)
    ensures |Sum(ws, Hand)| <= |ws|
  {
    if ws != [] {
      HandsBound(ws[1..]);
    }
  }

  // ------------------------------------------------------------ the invariant

  /** The list is P ++ S: S is the accepted tasks never popped, in acceptance order, and P
      together with the tasks in hand never exceeds the number of workers. */
  predicate ListShape(s: State) {
    && Consistent(s.list)
    && s.front <= |s.list.nodes| && s.popped <= |s.accepted|
    && s.list.nodes[s.front..] == s.accepted[s.popped..]
    && s.front + |Held(s)| <= |s.workers|
  }

  /** Every task passed to add_task is in exactly one place. */
  predicate Conserved(s: State) {
    && multiset(s.submitted) == multiset(s.flight) + multiset(s.accepted) + multiset(s.refused)
    && s.front <= |s.list.nodes| && s.popped <= |s.accepted|
    && multiset(s.accepted[..s.popped]) ==
       multiset(s.list.nodes[..s.front]) + Held(s) + Batched(s) + multiset(s.answered) + multiset(s.lost)
    && multiset(s.committed) == Batched(s) + multiset(s.answered)
  }

  predicate Control(s: State) {
    && (forall i :: 0 <= i < |s.submitted| ==> s.submitted[i].id == i)
    && (forall i :: 0 <= i < |s.workers| && s.workers[i].phase.Top? ==> s.workers[i].batch == [])
    && (s.list.alive || AllExited(s.workers))
  }

  predicate Inv(s: State, n: nat) {
    |s.workers| == n && ListShape(s) && Conserved(s) && Control(s)
  }
}

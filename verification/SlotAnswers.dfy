/** Where answers go.  A task keeps the address of the slot it was read from, not the
    connection; a worker stores the answer in that slot, and the event loop writes it to
    whatever connection the slot then holds. */
module SlotAnswers {
  import opened SlotTables
  import opened SlotRuns

  /** The slot it was read from and the number of the step that read it. */
  datatype Task = Task(offset: nat, asked: nat)

  /** What a slot holds for its connection: the answer to a task and the step that stored it. */
  datatype Stored = Stored(task: Task, replied: nat)

  /** The steps that stored it and wrote it, and the connection it was written to; a connection
      is the number of the step that accepted it. */
  datatype Answer = Answer(task: Task, replied: nat, sent: nat, receiver: nat)

  /** Loop: accept, failed read, release or timeout check.  Ask: a request is read and becomes
      a task.  Reply: a worker runs `send_data` of a task.  Send: the answer is written out. */
  datatype Step =
    | Loop(op: Op)
    | Ask(offset: nat, now: int)
    | Reply(task: nat)
    | Send(offset: nat, now: int)

  /** `owner`: the connection in each live slot.  `pending`: the tasks not yet replied to.
      `data`: the answer last stored in each slot.  `armed`: the slots whose connection waits to
      be written to.  `asked` and `sent` are histories. */
  datatype Hub = Hub(world: World, owner: map<nat, nat>, pending: seq<Task>, data: map<nat, Stored>, armed: set<nat>,
                     asked: seq<Task>, sent: seq<Answer>)

  /** What an operation on the table does to the connections in it. */
  function Turn(h: Hub, op: Op, n: nat, tm: Timeouts): Hub
    requires Fits(h.world.table) && Allowed(h.world, op)
  {
    var (r, t) := Do(h.world.table, op, tm);
    var kept := map i | i in h.owner && Live(t, i) :: h.owner[i];
    h.(world := World(t, op.now),
       owner := if op.Accept? && r >= 0 then kept[r := n] else kept,
       armed := set i | i in h.armed && Live(t, i))
  }

  function DoAsk(h: Hub, offset: nat, now: int, n: nat, tm: Timeouts): Hub
    requires Fits(h.world.table) && Allowed(h.world, ReadEvent(offset, now))
  {
    var h' := Turn(h, ReadEvent(offset, now), n, tm);
    h'.(pending := h'.pending + [Task(offset, n)], asked := h'.asked + [Task(offset, n)])
  }

  /** The answer goes into the slot; arming fails if the slot's descriptor is closed. */
  function DoReply(h: Hub, k: nat, n: nat): Hub
    requires k < |h.pending|
  {
    var t := h.pending[k];
    h.(pending := h.pending[..k] + h.pending[k + 1..],
       data := h.data[t.offset := Stored(t, n)],
       armed := if Live(h.world.table, t.offset) then h.armed + {t.offset} else h.armed)
  }

  function DoSend(h: Hub, offset: nat, now: int, n: nat, tm: Timeouts): Hub
    requires Fits(h.world.table) && Allowed(h.world, WriteEvent(offset, now))
    requires offset in h.data && offset in h.owner
  {
    var h' := Turn(h, WriteEvent(offset, now), n, tm);
    var d := h.data[offset];
    h'.(armed := h'.armed - {offset}, sent := h'.sent + [Answer(d.task, d.replied, n, h.owner[offset])])
  }

  /** Step n of a run, ignored where the environment does not allow it.  A connection that waits
      to be written to is not read from. */
  function Enact(h: Hub, step: Step, n: nat, tm: Timeouts): Hub {
    if !Fits(h.world.table) then h
    else
      match step
      case Loop(op) => if Allowed(h.world, op) && !op.WriteEvent? then Turn(h, op, n, tm) else h
      case Ask(offset, now) =>
        if Allowed(h.world, ReadEvent(offset, now)) && offset !in h.armed then DoAsk(h, offset, now, n, tm) else h
      case Reply(k) => if k < |h.pending| then DoReply(h, k, n) else h
      case Send(offset, now) =>
        if Allowed(h.world, WriteEvent(offset, now)) && offset in h.armed && offset in h.data && offset in h.owner
        then DoSend(h, offset, now, n, tm) else h
  }

  function Play(items: seq<Slot>, steps: seq<Step>, tm: Timeouts): Hub {
    if steps == [] then Hub(Start(items), map[], [], map[], {}, [], [])
    else Enact(Play(items, steps[..|steps| - 1], tm), steps[|steps| - 1], |steps| - 1, tm)
  }

  // ------------------------------------------------------------ the table behind the answers

  /** The table operation of a step: reading and writing are the events of their kind. */
  function Operation(step: Step): seq<Op> {
    match step
    case Loop(op) => [op]
    case Ask(offset, now) => [ReadEvent(offset, now)]
    case Reply(_) => []
    case Send(offset, now) => [WriteEvent(offset, now)]
  }

  /** The operations of the steps that change something. */
  function Operations(items: seq<Slot>, steps: seq<Step>, tm: Timeouts): seq<Op> {
    if steps == [] then []
    else
      var n := |steps| - 1;
      var h := Play(items, steps[..n], tm);
      Operations(items, steps[..n], tm) + if Enact(h, steps[n], n, tm) == h then [] else Operation(steps[n])
  }

  lemma RunNext(items: seq<Slot>, ops: seq<Op>, op: Op, tm: Timeouts)
    ensures var w := Run(items, ops, tm);
            Run(items, ops + [op], tm) ==
            if Fits(w.table) && Allowed(w, op) then World(Do(w.table, op, tm).1, op.now) else w
  {
    hide Do, Allowed, Start;
    assert (ops + [op])[..|ops|] == ops;
  }

  lemma EnactWorld(h: Hub, step: Step, n: nat, tm: Timeouts)
    requires Enact(h, step, n, tm) != h
    ensures Fits(h.world.table)
    ensures step.Reply? ==> Enact(h, step, n, tm).world == h.world
    ensures !step.Reply? ==>
              var op := Operation(step)[0];
              Allowed(h.world, op) && Enact(h, step, n, tm).world == World(Do(h.world.table, op, tm).1, op.now)
  {
    hide Do, Allowed, Live;
  }

  /** A run with tasks is a run of the table: a request is a read event, a written answer a write
      event, so all that is proved of those runs holds here. */
  lemma {:induction false} PlayIsRun(items: seq<Slot>, steps: seq<Step>, tm: Timeouts)
    ensures Play(items, steps, tm).world == Run(items, Operations(items, steps, tm), tm)
  {
    if steps != [] {
      var n := |steps| - 1;
      var h, ops := Play(items, steps[..n], tm), Operations(items, steps[..n], tm);
      PlayIsRun(items, steps[..n], tm);
      if Enact(h, steps[n], n, tm) == h {
        assert ops + [] == ops;
      } else {
        EnactWorld(h, steps[n], n, tm);
        if steps[n].Reply? {
          assert ops + [] == ops;
        } else {
          RunNext(items, ops, Operation(steps[n])[0], tm);
        }
      }
    }
  }

  // ------------------------------------------------------------ connections

  /** Every live slot has its connection, accepted by an earlier step. */
  ghost predicate Owned(h: Hub, num: nat, n: nat) {
    && WorldInv(h.world, num)
    && (forall i: nat :: i in h.owner <==> Live(h.world.table, i))
    && forall i :: i in h.owner ==> h.owner[i] < n
  }

  /** A slot that stays live keeps its connection, and a new one bears the step's number. */
  predicate OwnerMoves(h: Hub, h': Hub, n: nat) {
    forall i :: i in h'.owner ==> h'.owner[i] == if i in h.owner then h.owner[i] else n
  }

  lemma AcceptTakesFree(t: Table, sock: int, now: int)
    requires Fits(t)
    ensures var (r, t') := Insert(t, sock, now);
            && (r >= 0 ==> !Live(t, r) && Live(t', r))
            && forall i: nat :: i != r ==> (Live(t', i) <==> Live(t, i))
  {
    hide FirstFree;
  }

  lemma OthersOpenNone(w: World, op: Op, num: nat, tm: Timeouts)
    requires WorldInv(w, num) && Allowed(w, op) && !op.Accept?
    ensures forall i: nat :: Live(Do(w.table, op, tm).1, i) ==> Live(w.table, i)
  {
    hide GoodSlot, Distinct, SweptItems, LeastAfter, Mark, Expired;
    var t, t' := w.table, Do(w.table, op, tm).1;
    forall i: nat | Live(t', i) ensures Live(t, i) {
      if op.Check? && i < t.len && !Skips(t, op.now, tm) {
        assert t'.items[i] == SweptSlot(t.items[i], op.now, tm, AllClose());
      }
    }
  }

  lemma TurnKeeps(w: World, op: Op, num: nat, tm: Timeouts)
    requires WorldInv(w, num) && Fits(w.table) && Allowed(w, op)
    ensures WorldInv(World(Do(w.table, op, tm).1, op.now), num)
  {
    TimePasses(w, num, op.now);
    StepKeeps(w.(clock := op.now), num, op, tm);
  }

  /** Which slots are live after an operation. */
  lemma TurnOpens(w: World, op: Op, num: nat, tm: Timeouts)
    requires WorldInv(w, num) && Fits(w.table) && Allowed(w, op)
    ensures var (r, t') := Do(w.table, op, tm);
            && (op.Accept? && r >= 0 ==> !Live(w.table, r) && Live(t', r))
            && forall i: nat :: Live(t', i) && !(op.Accept? && r == i) ==> Live(w.table, i)
  {
    hide WorldInv, Live, Insert, Reset, Touch, CheckTimeout;
    if op.Accept? {
      AcceptTakesFree(w.table, op.sock, op.now);
    } else {
      OthersOpenNone(w, op, num, tm);
    }
  }

  lemma TurnOwners(h: Hub, op: Op, num: nat, n: nat, tm: Timeouts)
    requires Owned(h, num, n) && Fits(h.world.table) && Allowed(h.world, op)
    ensures var h' := Turn(h, op, n, tm);
            && (forall i: nat :: i in h'.owner <==> Live(h'.world.table, i))
            && OwnerMoves(h, h', n)
  {
    TurnOpens(h.world, op, num, tm);
    hide WorldInv, Live, Do, Allowed, Fits;
  }

  lemma TurnOwned(h: Hub, op: Op, num: nat, n: nat, tm: Timeouts)
    requires Owned(h, num, n) && Fits(h.world.table) && Allowed(h.world, op)
    ensures var h' := Turn(h, op, n, tm);
            Owned(h', num, n + 1) && OwnerMoves(h, h', n)
  {
    TurnKeeps(h.world, op, num, tm);
    TurnOwners(h, op, num, n, tm);
    hide WorldInv, Live, Do, Allowed, Fits;
    assert Turn(h, op, n, tm).world == World(Do(h.world.table, op, tm).1, op.now);
    hide Turn;
  }

  lemma EnactOwned(h: Hub, step: Step, num: nat, n: nat, tm: Timeouts)
    requires Owned(h, num, n)
    ensures var h' := Enact(h, step, n, tm);
            Owned(h', num, n + 1) && OwnerMoves(h, h', n)
  {
    hide Turn, WorldInv, Allowed;
    assert Fits(h.world.table) by {
      InvFits(h.world, num);
    }
    match step
    case Loop(op) => if Allowed(h.world, op) { TurnOwned(h, op, num, n, tm); }
    case Ask(offset, now) =>
      if Allowed(h.world, ReadEvent(offset, now)) { TurnOwned(h, ReadEvent(offset, now), num, n, tm); }
    case Reply(_) =>
    case Send(offset, now) =>
      if Allowed(h.world, WriteEvent(offset, now)) { TurnOwned(h, WriteEvent(offset, now), num, n, tm); }
  }

  lemma InvFits(w: World, num: nat)
    requires WorldInv(w, num)
    ensures Fits(w.table)
  {}

  lemma {:induction false} PlayOwned(items: seq<Slot>, steps: seq<Step>, tm: Timeouts)
    ensures Owned(Play(items, steps, tm), |items|, |steps|)
  {
    if steps != [] {
      hide Owned, Enact;
      PlayOwned(items, steps[..|steps| - 1], tm);
      EnactOwned(Play(items, steps[..|steps| - 1], tm), steps[|steps| - 1], |items|, |steps| - 1, tm);
    }
  }

  /** The state before step k of a run. */
  function Before(items: seq<Slot>, steps: seq<Step>, k: nat, tm: Timeouts): Hub
    requires k <= |steps|
  {
    Play(items, steps[..k], tm)
  }

  lemma BeforeNext(items: seq<Slot>, steps: seq<Step>, k: nat, tm: Timeouts)
    requires k < |steps|
    ensures Before(items, steps, k + 1, tm) == Enact(Before(items, steps, k, tm), steps[k], k, tm)
    ensures Owned(Before(items, steps, k, tm), |items|, k)
    ensures OwnerMoves(Before(items, steps, k, tm), Before(items, steps, k + 1, tm), k)
  {
    hide Enact, Owned, OwnerMoves;
    assert steps[..k + 1][..k] == steps[..k];
    PlayOwned(items, steps[..k], tm);
    EnactOwned(Play(items, steps[..k], tm), steps[k], |items|, k, tm);
  }

  lemma {:induction false} SteadyOwner(items: seq<Slot>, steps: seq<Step>, a: nat, b: nat, i: nat, tm: Timeouts)
    requires a <= b <= |steps|
    requires forall k :: a <= k <= b ==> i in Before(items, steps, k, tm).owner
    ensures Before(items, steps, a, tm).owner[i] == Before(items, steps, b, tm).owner[i]
    decreases b
  {
    hide Before, Owned, Enact;
    if a < b {
      SteadyOwner(items, steps, a, b - 1, i, tm);
      BeforeNext(items, steps, b - 1, tm);
    }
  }

  lemma {:induction false} NewerOwner(items: seq<Slot>, steps: seq<Step>, a: nat, b: nat, i: nat, tm: Timeouts)
    requires a <= b <= |steps| && i !in Before(items, steps, a, tm).owner && i in Before(items, steps, b, tm).owner
    ensures Before(items, steps, b, tm).owner[i] >= a
    decreases b
  {
    hide Before, Owned, Enact;
    BeforeNext(items, steps, b - 1, tm);
    if i in Before(items, steps, b - 1, tm).owner {
      NewerOwner(items, steps, a, b - 1, i, tm);
    }
  }

  /** A slot holds the same connection at two times if and only if it was live all between. */
  lemma SameOwnerIff(items: seq<Slot>, steps: seq<Step>, a: nat, b: nat, i: nat, tm: Timeouts)
    requires a <= b <= |steps| && i in Before(items, steps, a, tm).owner && i in Before(items, steps, b, tm).owner
    ensures Before(items, steps, a, tm).owner[i] == Before(items, steps, b, tm).owner[i]
            <==> forall k :: a <= k <= b ==> i in Before(items, steps, k, tm).owner
  {
    PlayOwned(items, steps[..a], tm);
    if k: nat :| a <= k <= b && i !in Before(items, steps, k, tm).owner {
      NewerOwner(items, steps, k, b, i, tm);
    } else {
      SteadyOwner(items, steps, a, b, i, tm);
    }
  }

  // ------------------------------------------------------------ answers

  /** The task was read from its slot by the step it names. */
  predicate Asked(items: seq<Slot>, steps: seq<Step>, t: Task, tm: Timeouts) {
    && t.asked < |steps| && steps[t.asked].Ask? && steps[t.asked].offset == t.offset
    && t.offset in Before(items, steps, t.asked, tm).owner
  }

  /** The answer was written by the step it names, to the connection its slot then held. */
  predicate Sent(items: seq<Slot>, steps: seq<Step>, d: Answer, tm: Timeouts) {
    && Asked(items, steps, d.task, tm)
    && d.task.asked < d.sent < |steps| && steps[d.sent].Send? && steps[d.sent].offset == d.task.offset
    && d.task.offset in Before(items, steps, d.sent, tm).owner
    && d.receiver == Before(items, steps, d.sent, tm).owner[d.task.offset]
  }

  predicate Traced(items: seq<Slot>, steps: seq<Step>, h: Hub, tm: Timeouts) {
    && (forall t :: t in h.pending ==> Asked(items, steps, t, tm))
    && (forall i :: i in h.data ==> h.data[i].task.offset == i && Asked(items, steps, h.data[i].task, tm))
    && forall d :: d in h.sent ==> Sent(items, steps, d, tm)
  }

  lemma StillTraced(items: seq<Slot>, steps: seq<Step>, h: Hub, tm: Timeouts)
    requires steps != [] && Traced(items, steps[..|steps| - 1], h, tm)
    ensures Traced(items, steps, h, tm)
    ensures forall t: Task :: Asked(items, steps[..|steps| - 1], t, tm) ==> t.asked < |steps| - 1
  {
    var init := steps[..|steps| - 1];
    assert forall k :: 0 <= k <= |init| ==> init[..k] == steps[..k];
    forall t: Task | Asked(items, init, t, tm) ensures Asked(items, steps, t, tm) {}
    forall d: Answer | Sent(items, init, d, tm) ensures Sent(items, steps, d, tm) {}
  }

  lemma {:induction false} PlayTraced(items: seq<Slot>, steps: seq<Step>, tm: Timeouts)
    ensures Traced(items, steps, Play(items, steps, tm), tm)
  {
    if steps != [] {
      var n := |steps| - 1;
      var h := Play(items, steps[..n], tm);
      PlayTraced(items, steps[..n], tm);
      PlayOwned(items, steps[..n], tm);
      StillTraced(items, steps, h, tm);
      hide Play, Traced;
      EnactTraced(items, steps, h, tm);
      PlayNext(items, steps, tm);
    }
  }

  lemma PlayNext(items: seq<Slot>, steps: seq<Step>, tm: Timeouts)
    requires steps != []
    ensures Play(items, steps, tm) ==
            Enact(Play(items, steps[..|steps| - 1], tm), steps[|steps| - 1], |steps| - 1, tm)
  {
    hide Enact;
  }

  lemma EnactTraced(items: seq<Slot>, steps: seq<Step>, h: Hub, tm: Timeouts)
    requires steps != [] && h == Before(items, steps, |steps| - 1, tm)
    requires Owned(h, |items|, |steps| - 1) && Traced(items, steps, h, tm)
    requires forall i :: i in h.data ==> h.data[i].task.asked < |steps| - 1
    ensures Traced(items, steps, Enact(h, steps[|steps| - 1], |steps| - 1, tm), tm)
  {
    hide Play, Turn;
    var n := |steps| - 1;
    TurnKeepsTasks(h, n, tm);
    match steps[n]
    case Loop(op) =>
    case Ask(offset, now) =>
      if Fits(h.world.table) && Allowed(h.world, ReadEvent(offset, now)) {
        assert Asked(items, steps, Task(offset, n), tm);
      }
    case Reply(k) =>
    case Send(offset, now) =>
      if offset in h.data && offset in h.owner {
        assert Sent(items, steps, Answer(h.data[offset].task, h.data[offset].replied, n, h.owner[offset]), tm);
      }
  }

  lemma TurnKeepsTasks(h: Hub, n: nat, tm: Timeouts)
    ensures forall op :: Fits(h.world.table) && Allowed(h.world, op) ==>
              var h' := Turn(h, op, n, tm);
              h'.pending == h.pending && h'.data == h.data && h'.asked == h.asked && h'.sent == h.sent
  {
    hide Do, Allowed;
  }

  /** Over every run an answer reaches the connection that asked if and only if the slot was
      not freed between the request and the answer: by a timeout, a failed read or a hang-up. */
  lemma AnswerReachesIff(items: seq<Slot>, steps: seq<Step>, tm: Timeouts, d: Answer)
    requires d in Play(items, steps, tm).sent
    ensures Sent(items, steps, d, tm)
    ensures d.receiver == Before(items, steps, d.task.asked, tm).owner[d.task.offset]
            <==> forall k :: d.task.asked <= k <= d.sent ==>
                   Live(Before(items, steps, k, tm).world.table, d.task.offset)
  {
    PlayTraced(items, steps, tm);
    hide Play;
    assert Sent(items, steps, d, tm);
    SameOwnerIff(items, steps, d.task.asked, d.sent, d.task.offset, tm);
    hide Before;
    forall k | d.task.asked <= k <= d.sent
      ensures d.task.offset in Before(items, steps, k, tm).owner
              <==> Live(Before(items, steps, k, tm).world.table, d.task.offset)
    {
      OwnerIffLive(items, steps, k, d.task.offset, tm);
    }
  }

  lemma OwnerIffLive(items: seq<Slot>, steps: seq<Step>, k: nat, i: nat, tm: Timeouts)
    requires k <= |steps|
    ensures i in Before(items, steps, k, tm).owner <==> Live(Before(items, steps, k, tm).world.table, i)
  {
    PlayOwned(items, steps[..k], tm);
    hide Play;
  }

  // ------------------------------------------------------------ an answer that goes astray

  lemma PlayOne(items: seq<Slot>, steps: seq<Step>, step: Step, tm: Timeouts)
    ensures Play(items, steps + [step], tm) == Enact(Play(items, steps, tm), step, |steps|, tm)
  {
    hide Enact;
    assert (steps + [step])[..|steps|] == steps;
  }

  /** One connection, accepted by step n at `now` into the first slot of an empty table. */
  function Joined(items: seq<Slot>, sock: int, status: Status, now: int, n: nat): Hub
    requires items != []
  {
    Hub(World(Table(items[0 := Slot(sock, now, status)], 1, INT_MAX), now), map[0 := n], [], map[], {}, [], [])
  }

  /** With the task that step 1 read from the first slot. */
  function OneTask(h: Hub): Hub {
    h.(pending := [Task(0, 1)], asked := [Task(0, 1)])
  }

  function Empty(items: seq<Slot>, now: int): Hub {
    Hub(World(Table(items, 0, INT_MAX), now), map[], [], map[], {}, [], [])
  }

  lemma Joins(h: Hub, items: seq<Slot>, sock: int, now: int, n: nat, tm: Timeouts)
    requires items != [] && sock >= 0 && 0 <= h.world.clock <= now < INT_MAX
    requires h.world.table == Table(items, 0, INT_MAX) && h.owner == map[] && h.armed == {}
    ensures Enact(h, Loop(Accept(sock, now)), n, tm)
         == Joined(items, sock, Ready, now, n)
              .(pending := h.pending, data := h.data, asked := h.asked, sent := h.sent)
  {
    var t := Insert(h.world.table, sock, now).1;
    assert t == Joined(items, sock, Ready, now, n).world.table;
  }

  lemma Asks(items: seq<Slot>, sock: int, tm: Timeouts)
    requires items != []
    ensures Enact(Joined(items, sock, Ready, 0, 0), Ask(0, 0), 1, tm)
         == OneTask(Joined(items, sock, ReadBusy, 0, 0))
  {
    assert items[0 := Slot(sock, 0, Ready)][0 := Slot(sock, 0, ReadBusy)] == items[0 := Slot(sock, 0, ReadBusy)];
  }

  lemma TimesOut(items: seq<Slot>, sock: int, tm: Timeouts)
    requires items != [] && sock >= 0 && 0 <= tm.read < INT_MAX
    ensures Enact(OneTask(Joined(items, sock, ReadBusy, 0, 0)), Loop(Check(tm.read)), 2, tm)
         == OneTask(Empty(items[0 := Slot(-1, 0, NotUsed)], tm.read))
  {
    var busy := items[0 := Slot(sock, 0, ReadBusy)];
    var t := Table(busy, 1, INT_MAX);
    assert !Kept(busy[0], tm.read, tm);
    assert Mark(busy, 0, tm.read, tm) == 0 && Mark(busy, 1, tm.read, tm) == 0;
    assert LeastAfter(INT_MAX, busy, 0, tm.read, tm) == INT_MAX;
    assert SweptItems(busy, 1, tm.read, tm, AllClose()) == items[0 := Slot(-1, 0, NotUsed)];
  }

  /** The second connection is written the answer that the first one asked for. */
  lemma Strays(items: seq<Slot>, sock: int, now: int, tm: Timeouts)
    requires items != [] && 0 <= now < INT_MAX
    ensures var h := OneTask(Joined(items, sock, Ready, now, 3));
            Enact(Enact(h, Reply(0), 4, tm), Send(0, now), 5, tm).sent == [Answer(Task(0, 1), 4, 5, 3)]
  {
    var h := OneTask(Joined(items, sock, Ready, now, 3));
    assert Live(h.world.table, 0);
    var r := Enact(h, Reply(0), 4, tm);
    assert r == h.(pending := [], data := map[0 := Stored(Task(0, 1), 4)], armed := {0});
  }

  /** A request whose computation outlasts the read timeout: its slot goes to a second
      connection, which gets the answer.  No slot is ever marked BUSY, so the timeout runs on. */
  lemma AnswerGoesAstray(items: seq<Slot>, tm: Timeouts) returns (steps: seq<Step>, d: Answer)
    requires items != [] && 0 <= tm.read < INT_MAX
    ensures Play(items, steps, tm).sent == [d] && d.task.asked <= |steps|
    ensures var asker := Before(items, steps, d.task.asked, tm).owner;
            d.task.offset in asker && d.receiver != asker[d.task.offset]
  {
    hide Enact, Joined, Empty;
    var s1 := [Loop(Accept(5, 0))];
    var s2 := s1 + [Ask(0, 0)];
    var s3 := s2 + [Loop(Check(tm.read))];
    var s4 := s3 + [Loop(Accept(6, tm.read))];
    var s5 := s4 + [Reply(0)];
    steps, d := s5 + [Send(0, tm.read)], Answer(Task(0, 1), 4, 5, 3);
    FirstJoins(items, tm);
    PlayOne(items, s1, Ask(0, 0), tm);
    Asks(items, 5, tm);
    PlayOne(items, s2, Loop(Check(tm.read)), tm);
    TimesOut(items, 5, tm);
    PlayOne(items, s3, Loop(Accept(6, tm.read)), tm);
    SecondJoins(items, tm);
    PlayOne(items, s4, Reply(0), tm);
    PlayOne(items, s5, Send(0, tm.read), tm);
    Strays(items[0 := Slot(-1, 0, NotUsed)], 6, tm.read, tm);
    assert steps[..1] == s1;
    FirstOwner(items);
  }

  lemma FirstJoins(items: seq<Slot>, tm: Timeouts)
    requires items != []
    ensures Play(items, [Loop(Accept(5, 0))], tm) == Joined(items, 5, Ready, 0, 0)
  {
    hide Enact;
    assert [] + [Loop(Accept(5, 0))] == [Loop(Accept(5, 0))];
    PlayOne(items, [], Loop(Accept(5, 0)), tm);
    Joins(Empty(items, 0), items, 5, 0, 0, tm);
  }

  lemma SecondJoins(items: seq<Slot>, tm: Timeouts)
    requires items != [] && 0 <= tm.read < INT_MAX
    ensures var freed := items[0 := Slot(-1, 0, NotUsed)];
            Enact(OneTask(Empty(freed, tm.read)), Loop(Accept(6, tm.read)), 3, tm)
            == OneTask(Joined(freed, 6, Ready, tm.read, 3))
  {
    hide Enact;
    var freed := items[0 := Slot(-1, 0, NotUsed)];
    Joins(OneTask(Empty(freed, tm.read)), freed, 6, tm.read, 3, tm);
  }

  lemma FirstOwner(items: seq<Slot>)
    requires items != []
    ensures Joined(items, 5, Ready, 0, 0).owner == map[0 := 0]
  {}
}

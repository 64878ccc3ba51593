/** Which answer a connection gets: the latest one stored in its slot, each at most once, and,
    where requests wait for answers, the k-th answer for the k-th request. */
module SlotReplies {
  import opened SlotTables
  import opened SlotRuns
  import opened SlotAnswers

  /** Step i is the reply of a worker to this task. */
  predicate RepliesTo(items: seq<Slot>, steps: seq<Step>, i: nat, t: Task, tm: Timeouts)
    requires i < |steps|
  {
    && steps[i].Reply? && steps[i].task < |Before(items, steps, i, tm).pending|
    && Before(items, steps, i, tm).pending[steps[i].task] == t
  }

  /** No reply to a task of this slot after step i and before step n. */
  ghost predicate NoReplyBetween(items: seq<Slot>, steps: seq<Step>, i: nat, n: nat, offset: nat, tm: Timeouts)
    requires n <= |steps|
  {
    forall j, t: Task :: i < j < n && RepliesTo(items, steps, j, t, tm) ==> t.offset != offset
  }

  /** The slot is live after step i and up to step n. */
  predicate LiveAfter(items: seq<Slot>, steps: seq<Step>, i: nat, n: nat, offset: nat, tm: Timeouts)
    requires n <= |steps|
  {
    forall k :: i < k <= n ==> Live(Before(items, steps, k, tm).world.table, offset)
  }

  /** What is stored in a slot before step n is the answer of the latest reply; if its connection
      waits to be written to, the slot has been live since and nothing was written from it. */
  ghost predicate StoredLatest(items: seq<Slot>, steps: seq<Step>, n: nat, offset: nat, tm: Timeouts)
    requires n <= |steps|
  {
    var h := Before(items, steps, n, tm);
    offset in h.data ==>
      var d := h.data[offset];
      && d.task.offset == offset && d.replied < n && RepliesTo(items, steps, d.replied, d.task, tm)
      && NoReplyBetween(items, steps, d.replied, n, offset, tm)
      && (offset in h.armed ==>
            && LiveAfter(items, steps, d.replied, n, offset, tm)
            && forall e :: e in h.sent && e.task.offset == offset ==> e.sent < d.replied)
  }

  /** An answer is written as the latest reply to its slot stored it, to the connection that was
      in the slot then and has been in it since, and once. */
  ghost predicate SentLatest(items: seq<Slot>, steps: seq<Step>, n: nat, d: Answer, tm: Timeouts)
    requires n <= |steps|
  {
    && d.replied < d.sent < n && RepliesTo(items, steps, d.replied, d.task, tm)
    && NoReplyBetween(items, steps, d.replied, d.sent, d.task.offset, tm)
    && LiveAfter(items, steps, d.replied, d.sent, d.task.offset, tm)
    && forall e :: e in Before(items, steps, n, tm).sent && e.task.offset == d.task.offset && e.sent < d.sent
         ==> e.sent < d.replied
  }

  // ------------------------------------------------------------ one step

  lemma TurnShows(h: Hub, op: Op, n: nat, tm: Timeouts)
    requires Fits(h.world.table) && Allowed(h.world, op)
    ensures var h' := Turn(h, op, n, tm);
            && h'.(world := h.world, owner := h.owner, armed := h.armed) == h
            && h'.world.table == Do(h.world.table, op, tm).1
            && (forall i :: i in h'.armed <==> i in h.armed && Live(h'.world.table, i))
  {
    hide Do, Allowed, Live;
  }

  /** What each step does to answers: at most one task is asked, stored or written. */
  predicate Effect(h: Hub, h': Hub, step: Step, n: nat) {
    match step
    case Loop(_) => h'.pending == h.pending && h'.data == h.data && h'.asked == h.asked && h'.sent == h.sent
    case Ask(offset, _) =>
      && h'.data == h.data && h'.sent == h.sent
      && ((h'.pending == h.pending && h'.asked == h.asked)
          || (h'.pending == h.pending + [Task(offset, n)] && h'.asked == h.asked + [Task(offset, n)]
              && offset !in h.armed && Live(h.world.table, offset) && Live(h'.world.table, offset)))
    case Reply(k) =>
      && h'.world == h.world && h'.asked == h.asked && h'.sent == h.sent
      && (if k < |h.pending| then
            && h'.pending == h.pending[..k] + h.pending[k + 1..]
            && h'.data == h.data[h.pending[k].offset := Stored(h.pending[k], n)]
          else h' == h)
    case Send(offset, _) =>
      && h'.pending == h.pending && h'.data == h.data && h'.asked == h.asked
      && (h' == h || (offset in h.armed && offset in h.data && offset in h.owner && offset !in h'.armed
                      && h'.sent == h.sent + [Answer(h.data[offset].task, h.data[offset].replied, n, h.owner[offset])]))
  }

  predicate Stores(h: Hub, step: Step, offset: nat) {
    step.Reply? && step.task < |h.pending| && h.pending[step.task].offset == offset
  }

  /** Nothing is armed but by a reply, and only while its slot is live. */
  predicate ArmedEffect(h: Hub, h': Hub, step: Step) {
    forall i :: i in h'.armed ==> Live(h'.world.table, i) && (i in h.armed || Stores(h, step, i))
  }

  /** A slot that a reply arms stays armed until it is freed or written from. */
  ghost predicate StaysArmed(h: Hub, h': Hub, step: Step) {
    forall i: nat :: Live(h'.world.table, i) && (i in h.armed || Stores(h, step, i)) ==>
      i in h'.armed || (step.Send? && step.offset == i)
  }

  lemma EventKeepsLive(t: Table, op: Op, offset: nat, tm: Timeouts)
    requires Fits(t) && Live(t, offset) && op.ReadEvent? && op.offset == offset
    ensures Live(Do(t, op, tm).1, offset)
  {}

  lemma StepEffect(h: Hub, step: Step, n: nat, tm: Timeouts)
    requires Fits(h.world.table) && forall i :: i in h.armed ==> Live(h.world.table, i)
    ensures var h' := Enact(h, step, n, tm);
            Effect(h, h', step, n) && ArmedEffect(h, h', step) && StaysArmed(h, h', step)
  {
    hide Turn, Live;
    match step
    case Loop(op) => if Allowed(h.world, op) { TurnShows(h, op, n, tm); }
    case Ask(offset, now) =>
      if Allowed(h.world, ReadEvent(offset, now)) {
        TurnShows(h, ReadEvent(offset, now), n, tm);
        EventKeepsLive(h.world.table, ReadEvent(offset, now), offset, tm);
      }
    case Reply(_) =>
    case Send(offset, now) =>
      if Allowed(h.world, WriteEvent(offset, now)) { TurnShows(h, WriteEvent(offset, now), n, tm); }
  }

  // ------------------------------------------------------------ the latest answer, once

  /** The invariant before step n. */
  ghost predicate Latest(items: seq<Slot>, steps: seq<Step>, n: nat, tm: Timeouts)
    requires n <= |steps|
  {
    var h := Before(items, steps, n, tm);
    && (forall i :: i in h.armed ==> Live(h.world.table, i))
    && (forall offset :: offset in h.data ==> StoredLatest(items, steps, n, offset, tm))
    && (forall d :: d in h.sent ==> d.sent < n && SentLatest(items, steps, n, d, tm))
  }

  /** Step n taken apart: its effect on the state before it. */
  lemma NextEffect(items: seq<Slot>, steps: seq<Step>, n: nat, tm: Timeouts)
    requires n < |steps| && forall i :: i in Before(items, steps, n, tm).armed ==>
               Live(Before(items, steps, n, tm).world.table, i)
    ensures var h, h' := Before(items, steps, n, tm), Before(items, steps, n + 1, tm);
            Effect(h, h', steps[n], n) && ArmedEffect(h, h', steps[n]) && StaysArmed(h, h', steps[n])
            && OwnerMoves(h, h', n)
  {
    hide Before, Enact, Effect, ArmedEffect, StaysArmed, OwnerMoves, WorldInv;
    BeforeNext(items, steps, n, tm);
    var h := Before(items, steps, n, tm);
    InvFits(h.world, |items|);
    StepEffect(h, steps[n], n, tm);
  }

  lemma StepStored(items: seq<Slot>, steps: seq<Step>, n: nat, offset: nat, tm: Timeouts)
    requires n < |steps| && Latest(items, steps, n, tm)
    requires var h, h' := Before(items, steps, n, tm), Before(items, steps, n + 1, tm);
             Effect(h, h', steps[n], n) && ArmedEffect(h, h', steps[n])
    ensures StoredLatest(items, steps, n + 1, offset, tm)
  {
    hide Before, SentLatest;
    var h, h' := Before(items, steps, n, tm), Before(items, steps, n + 1, tm);
    if offset in h'.data && offset in h.data {
      assert StoredLatest(items, steps, n, offset, tm);
    }
    if steps[n].Send? && steps[n].offset in h.data {
      assert StoredLatest(items, steps, n, steps[n].offset, tm);
    }
  }

  lemma StepSent(items: seq<Slot>, steps: seq<Step>, n: nat, d: Answer, tm: Timeouts)
    requires n < |steps| && Latest(items, steps, n, tm)
    requires var h, h' := Before(items, steps, n, tm), Before(items, steps, n + 1, tm);
             Effect(h, h', steps[n], n) && ArmedEffect(h, h', steps[n]) && d in h'.sent
    ensures d.sent < n + 1 && SentLatest(items, steps, n + 1, d, tm)
  {
    hide Before, RepliesTo, NoReplyBetween, LiveAfter;
    var h, h' := Before(items, steps, n, tm), Before(items, steps, n + 1, tm);
    if d in h.sent {
      assert SentLatest(items, steps, n, d, tm);
    } else {
      assert StoredLatest(items, steps, n, steps[n].offset, tm);
    }
  }

  lemma {:induction false} AlwaysLatest(items: seq<Slot>, steps: seq<Step>, n: nat, tm: Timeouts)
    requires n <= |steps|
    ensures Latest(items, steps, n, tm)
  {
    hide Effect, StoredLatest, SentLatest, OwnerMoves, StaysArmed;
    if n == 0 {
      assert steps[..0] == [];
    } else {
      hide Before;
      AlwaysLatest(items, steps, n - 1, tm);
      NextEffect(items, steps, n - 1, tm);
      var h' := Before(items, steps, n, tm);
      forall offset | offset in h'.data ensures StoredLatest(items, steps, n, offset, tm) {
        StepStored(items, steps, n - 1, offset, tm);
      }
      forall d | d in h'.sent ensures d.sent < n && SentLatest(items, steps, n, d, tm) {
        StepSent(items, steps, n - 1, d, tm);
      }
    }
  }

  /** Over every run: a written answer is that of the latest reply to its slot before the write;
      the slot has been live from that reply on, and no other answer was written from it. */
  lemma AnswerIsLatest(items: seq<Slot>, steps: seq<Step>, tm: Timeouts, d: Answer)
    requires d in Play(items, steps, tm).sent
    ensures SentLatest(items, steps, |steps|, d, tm)
  {
    hide SentLatest, StoredLatest, Play;
    assert steps[..|steps|] == steps;
    AlwaysLatest(items, steps, |steps|, tm);
  }

  // ------------------------------------------------------------ each task once

  /** The tasks still to be answered and those answered are all different. */
  predicate Once(h: Hub, n: nat) {
    && (forall i, j :: 0 <= i < j < |h.pending| ==> h.pending[i] != h.pending[j])
    && (forall i, j :: 0 <= i < j < |h.sent| ==> h.sent[i].task != h.sent[j].task)
    && (forall i, j :: 0 <= i < |h.pending| && 0 <= j < |h.sent| ==> h.pending[i] != h.sent[j].task)
    && (forall i :: 0 <= i < |h.pending| ==> h.pending[i].asked < n)
    && (forall j :: 0 <= j < |h.sent| ==> h.sent[j].task.asked < n)
    && (forall o :: o in h.data ==> h.data[o].task.offset == o && h.data[o].task.asked < n)
    && (forall o, i :: o in h.armed && o in h.data && 0 <= i < |h.pending| ==> h.pending[i] != h.data[o].task)
    && (forall o, j :: o in h.armed && o in h.data && 0 <= j < |h.sent| ==> h.sent[j].task != h.data[o].task)
  }

  lemma StepOnce(h: Hub, h': Hub, step: Step, n: nat)
    requires Once(h, n) && Effect(h, h', step, n) && ArmedEffect(h, h', step)
    ensures Once(h', n + 1)
  {
    hide Once, Effect, ArmedEffect;
    match step
    case Loop(_) => QuietOnce(h, h', step, n);
    case Ask(_, _) => QuietOnce(h, h', step, n);
    case Reply(_) => ReplyOnce(h, h', step, n);
    case Send(_, _) => SendOnce(h, h', step, n);
  }

  lemma QuietOnce(h: Hub, h': Hub, step: Step, n: nat)
    requires Once(h, n) && Effect(h, h', step, n) && ArmedEffect(h, h', step) && (step.Loop? || step.Ask?)
    ensures Once(h', n + 1)
  {
    hide Live;
  }

  lemma ReplyOnce(h: Hub, h': Hub, step: Step, n: nat)
    requires Once(h, n) && Effect(h, h', step, n) && ArmedEffect(h, h', step) && step.Reply?
    ensures Once(h', n + 1)
  {
    hide Live;
    var k := step.task;
    if k < |h.pending| {
      assert forall i :: 0 <= i < |h'.pending| ==> h'.pending[i] == h.pending[if i < k then i else i + 1];
    }
  }

  lemma SendOnce(h: Hub, h': Hub, step: Step, n: nat)
    requires Once(h, n) && Effect(h, h', step, n) && ArmedEffect(h, h', step) && step.Send?
    ensures Once(h', n + 1)
  {
    hide Live;
  }

  lemma {:induction false} AlwaysOnce(items: seq<Slot>, steps: seq<Step>, n: nat, tm: Timeouts)
    requires n <= |steps|
    ensures Once(Before(items, steps, n, tm), n)
  {
    if n == 0 {
      assert steps[..0] == [];
    } else {
      hide Before, Effect, ArmedEffect, StaysArmed, OwnerMoves, Once, SentLatest, StoredLatest;
      AlwaysOnce(items, steps, n - 1, tm);
      AlwaysLatest(items, steps, n - 1, tm);
      NextEffect(items, steps, n - 1, tm);
      StepOnce(Before(items, steps, n - 1, tm), Before(items, steps, n, tm), steps[n - 1], n - 1);
    }
  }

  /** No task is answered twice. */
  lemma AnsweredOnce(items: seq<Slot>, steps: seq<Step>, tm: Timeouts, i: nat, j: nat)
    requires i < j < |Play(items, steps, tm).sent|
    ensures Play(items, steps, tm).sent[i].task != Play(items, steps, tm).sent[j].task
  {
    hide Play;
    assert steps[..|steps|] == steps;
    AlwaysOnce(items, steps, |steps|, tm);
  }

  // ------------------------------------------------------------ requests that wait for answers

  /** The tasks of one slot, in order. */
  function TasksOf(ts: seq<Task>, offset: nat): seq<Task> {
    if ts == [] then []
    else
      var n := |ts| - 1;
      TasksOf(ts[..n], offset) + if ts[n].offset == offset then [ts[n]] else []
  }

  lemma OneMoreTask(ts: seq<Task>, t: Task, offset: nat)
    ensures TasksOf(ts + [t], offset) == TasksOf(ts, offset) + if t.offset == offset then [t] else []
  {
    assert (ts + [t])[..|ts|] == ts;
  }

  function Answered(sent: seq<Answer>): (r: seq<Task>)
    ensures |r| == |sent|
  {
    seq(|sent|, i requires 0 <= i < |sent| => sent[i].task)
  }

  lemma OneMoreAnswer(sent: seq<Answer>, d: Answer)
    ensures Answered(sent + [d]) == Answered(sent) + [d.task]
  {}

  predicate PendingIn(h: Hub, offset: nat) {
    exists i :: 0 <= i < |h.pending| && h.pending[i].offset == offset
  }

  /** A request from the slot is being computed or its answer waits to be written. */
  predicate WaitsIn(h: Hub, offset: nat) {
    PendingIn(h, offset) || offset in h.armed
  }

  /** The step neither reads a request from the slot nor frees it while it waits for an answer. */
  predicate Patient(h: Hub, h': Hub, step: Step, offset: nat) {
    WaitsIn(h, offset) ==>
      && (step.Ask? && step.offset == offset ==> h'.asked == h.asked)
      && (Live(h.world.table, offset) ==> Live(h'.world.table, offset))
  }

  ghost predicate Polite(items: seq<Slot>, steps: seq<Step>, offset: nat, tm: Timeouts) {
    forall k: nat :: k < |steps| ==>
      Patient(Before(items, steps, k, tm), Before(items, steps, k + 1, tm), steps[k], offset)
  }

  /** All requests from the slot are answered but the last one, which waits. */
  predicate OneWaits(h: Hub, offset: nat) {
    var asked, answered := TasksOf(h.asked, offset), TasksOf(Answered(h.sent), offset);
    if !WaitsIn(h, offset) then asked == answered
    else
      && Live(h.world.table, offset)
      && asked != [] && asked == answered + [asked[|asked| - 1]] && asked[|asked| - 1].offset == offset
      && (forall i :: 0 <= i < |h.pending| && h.pending[i].offset == offset ==> h.pending[i] == asked[|asked| - 1])
      && (offset in h.armed ==>
            offset in h.data && h.data[offset].task == asked[|asked| - 1] && !PendingIn(h, offset))
  }

  lemma LoopWaits(h: Hub, h': Hub, step: Step, n: nat, offset: nat)
    requires OneWaits(h, offset) && Patient(h, h', step, offset) && Once(h, n)
    requires Effect(h, h', step, n) && ArmedEffect(h, h', step) && StaysArmed(h, h', step) && step.Loop?
    ensures OneWaits(h', offset)
  {
    hide Live, Once, TasksOf, Answered;
    assert PendingIn(h', offset) <==> PendingIn(h, offset);
  }

  lemma AskWaits(h: Hub, h': Hub, step: Step, n: nat, offset: nat)
    requires OneWaits(h, offset) && Patient(h, h', step, offset) && Once(h, n)
    requires Effect(h, h', step, n) && ArmedEffect(h, h', step) && StaysArmed(h, h', step) && step.Ask?
    ensures OneWaits(h', offset)
  {
    hide Live, Once, TasksOf, Answered;
    if h'.asked == h.asked {
      assert PendingIn(h', offset) <==> PendingIn(h, offset);
    } else {
      var t := Task(step.offset, n);
      OneMoreTask(h.asked, t, offset);
      assert forall i :: 0 <= i < |h.pending| ==> h'.pending[i] == h.pending[i];
      assert h'.pending[|h.pending|] == t;
      if offset == step.offset {
        assert PendingIn(h', offset);
      } else {
        assert PendingIn(h', offset) <==> PendingIn(h, offset);
      }
    }
  }

  lemma ReplyWaits(h: Hub, h': Hub, step: Step, n: nat, offset: nat)
    requires OneWaits(h, offset) && Patient(h, h', step, offset) && Once(h, n)
    requires Effect(h, h', step, n) && ArmedEffect(h, h', step) && StaysArmed(h, h', step) && step.Reply?
    ensures OneWaits(h', offset)
  {
    hide Live, TasksOf, Answered, ArmedEffect, StaysArmed;
    var k := step.task;
    if k < |h.pending| {
      ArmedAfterReply(h, h', step, offset);
      assert forall i :: 0 <= i < |h'.pending| ==> h'.pending[i] == h.pending[if i < k then i else i + 1];
      if h.pending[k].offset == offset {
        assert !PendingIn(h', offset);
      } else {
        OtherPending(h, h', k, offset);
      }
    }
  }

  lemma ArmedAfterReply(h: Hub, h': Hub, step: Step, offset: nat)
    requires ArmedEffect(h, h', step) && StaysArmed(h, h', step) && step.Reply? && step.task < |h.pending|
    requires h'.world == h.world && (offset in h.armed ==> Live(h.world.table, offset))
    ensures offset in h'.armed
            <==> offset in h.armed || (h.pending[step.task].offset == offset && Live(h.world.table, offset))
  {}

  lemma OtherPending(h: Hub, h': Hub, k: nat, offset: nat)
    requires k < |h.pending| && h'.pending == h.pending[..k] + h.pending[k + 1..] && h.pending[k].offset != offset
    ensures PendingIn(h', offset) <==> PendingIn(h, offset)
  {
    if PendingIn(h, offset) {
      var i :| 0 <= i < |h.pending| && h.pending[i].offset == offset;
      assert h'.pending[if i < k then i else i - 1] == h.pending[i];
    }
    if PendingIn(h', offset) {
      var i :| 0 <= i < |h'.pending| && h'.pending[i].offset == offset;
      assert h'.pending[i] == h.pending[if i < k then i else i + 1];
    }
  }

  lemma SendWaits(h: Hub, h': Hub, step: Step, n: nat, offset: nat)
    requires OneWaits(h, offset) && Patient(h, h', step, offset) && Once(h, n)
    requires Effect(h, h', step, n) && ArmedEffect(h, h', step) && StaysArmed(h, h', step) && step.Send?
    ensures OneWaits(h', offset)
  {
    hide Live, TasksOf, Answered;
    assert PendingIn(h', offset) <==> PendingIn(h, offset);
    if h' != h {
      var d := h.data[step.offset];
      var e := Answer(d.task, d.replied, n, h.owner[step.offset]);
      assert d.task.offset == step.offset;
      OneMoreAnswer(h.sent, e);
      OneMoreTask(Answered(h.sent), d.task, offset);
    }
  }

  lemma StepWaits(h: Hub, h': Hub, step: Step, n: nat, offset: nat)
    requires OneWaits(h, offset) && Patient(h, h', step, offset) && Once(h, n)
    requires Effect(h, h', step, n) && ArmedEffect(h, h', step) && StaysArmed(h, h', step)
    ensures OneWaits(h', offset)
  {
    hide Effect, ArmedEffect, StaysArmed, OneWaits, Patient, Once;
    match step
    case Loop(_) => LoopWaits(h, h', step, n, offset);
    case Ask(_, _) => AskWaits(h, h', step, n, offset);
    case Reply(_) => ReplyWaits(h, h', step, n, offset);
    case Send(_, _) => SendWaits(h, h', step, n, offset);
  }

  lemma {:induction false} AlwaysOneWaits(items: seq<Slot>, steps: seq<Step>, n: nat, offset: nat, tm: Timeouts)
    requires n <= |steps| && Polite(items, steps, offset, tm)
    ensures OneWaits(Before(items, steps, n, tm), offset)
  {
    if n == 0 {
      assert steps[..0] == [];
    } else {
      hide Before, Effect, ArmedEffect, StaysArmed, OwnerMoves, Once, SentLatest, StoredLatest, OneWaits, Patient;
      AlwaysOneWaits(items, steps, n - 1, offset, tm);
      AlwaysOnce(items, steps, n - 1, tm);
      AlwaysLatest(items, steps, n - 1, tm);
      NextEffect(items, steps, n - 1, tm);
      assert Patient(Before(items, steps, n - 1, tm), Before(items, steps, n - 1 + 1, tm), steps[n - 1], offset);
      StepWaits(Before(items, steps, n - 1, tm), Before(items, steps, n, tm), steps[n - 1], n - 1, offset);
    }
  }

  predicate LiveSince(items: seq<Slot>, steps: seq<Step>, i: nat, n: nat, offset: nat, tm: Timeouts)
    requires n <= |steps|
  {
    forall k :: i <= k <= n ==> Live(Before(items, steps, k, tm).world.table, offset)
  }

  /** The slot is live from each request to its answer. */
  ghost predicate HeldSince(items: seq<Slot>, steps: seq<Step>, n: nat, offset: nat, tm: Timeouts)
    requires n <= |steps|
  {
    var h := Before(items, steps, n, tm);
    var asked := TasksOf(h.asked, offset);
    && (WaitsIn(h, offset) ==> asked != [] && LiveSince(items, steps, asked[|asked| - 1].asked, n, offset, tm))
    && forall d :: d in h.sent && d.task.offset == offset ==>
         d.sent < n && LiveSince(items, steps, d.task.asked, d.sent, offset, tm)
  }

  /** A patient step asks for nothing more while a request waits, and only asking makes it wait. */
  lemma AskedNext(h: Hub, h': Hub, step: Step, n: nat, offset: nat)
    requires OneWaits(h, offset) && OneWaits(h', offset) && Effect(h, h', step, n) && ArmedEffect(h, h', step)
    requires Patient(h, h', step, offset)
    ensures WaitsIn(h', offset) && WaitsIn(h, offset) ==>
              TasksOf(h'.asked, offset) == TasksOf(h.asked, offset) && Live(h'.world.table, offset)
    ensures WaitsIn(h', offset) && !WaitsIn(h, offset) ==>
              && TasksOf(h'.asked, offset) == TasksOf(h.asked, offset) + [Task(offset, n)]
              && Live(h.world.table, offset) && Live(h'.world.table, offset)
  {
    hide TasksOf, Answered, Live;
    if step.Ask? {
      OneMoreTask(h.asked, Task(step.offset, n), offset);
    }
    if PendingIn(h', offset) && !step.Reply? {
      var i :| 0 <= i < |h'.pending| && h'.pending[i].offset == offset;
      assert i < |h.pending| ==> h'.pending[i] == h.pending[i];
    }
    if step.Reply? && step.task < |h.pending| {
      if h.pending[step.task].offset != offset {
        OtherPending(h, h', step.task, offset);
      }
    }
  }

  /** Whether a written answer is that of the request that waited. */
  lemma SentNext(h: Hub, h': Hub, step: Step, n: nat, offset: nat, d: Answer)
    requires OneWaits(h, offset) && Once(h, n) && Effect(h, h', step, n)
    requires d in h'.sent && d !in h.sent && d.task.offset == offset
    ensures d.sent == n && WaitsIn(h, offset)
    ensures var asked := TasksOf(h.asked, offset);
            asked != [] && d.task == asked[|asked| - 1]
  {
    hide TasksOf, Answered, Live;
  }

  lemma StepHeld(items: seq<Slot>, steps: seq<Step>, n: nat, offset: nat, tm: Timeouts)
    requires n < |steps| && HeldSince(items, steps, n, offset, tm) && Once(Before(items, steps, n, tm), n)
    requires var h, h' := Before(items, steps, n, tm), Before(items, steps, n + 1, tm);
             && OneWaits(h, offset) && OneWaits(h', offset) && Patient(h, h', steps[n], offset)
             && Effect(h, h', steps[n], n) && ArmedEffect(h, h', steps[n])
    ensures HeldSince(items, steps, n + 1, offset, tm)
  {
    hide Before, TasksOf, OneWaits, Patient, Effect, ArmedEffect, Once, WaitsIn, Live;
    var h, h' := Before(items, steps, n, tm), Before(items, steps, n + 1, tm);
    AskedNext(h, h', steps[n], n, offset);
    forall d | d in h'.sent && d.task.offset == offset
      ensures d.sent < n + 1 && LiveSince(items, steps, d.task.asked, d.sent, offset, tm)
    {
      if d !in h.sent {
        SentNext(h, h', steps[n], n, offset, d);
      }
    }
  }

  lemma {:induction false} AlwaysHeld(items: seq<Slot>, steps: seq<Step>, n: nat, offset: nat, tm: Timeouts)
    requires n <= |steps| && Polite(items, steps, offset, tm)
    ensures HeldSince(items, steps, n, offset, tm)
  {
    if n == 0 {
      assert steps[..0] == [];
    } else {
      hide Before, Effect, ArmedEffect, StaysArmed, OwnerMoves, Once, SentLatest, StoredLatest, OneWaits, Patient,
        HeldSince;
      AlwaysHeld(items, steps, n - 1, offset, tm);
      AlwaysOneWaits(items, steps, n - 1, offset, tm);
      AlwaysOneWaits(items, steps, n, offset, tm);
      AlwaysOnce(items, steps, n - 1, tm);
      AlwaysLatest(items, steps, n - 1, tm);
      NextEffect(items, steps, n - 1, tm);
      assert Patient(Before(items, steps, n - 1, tm), Before(items, steps, n - 1 + 1, tm), steps[n - 1], offset);
      StepHeld(items, steps, n - 1, offset, tm);
    }
  }

  /** Over every run in which a slot's requests wait for their answers and the slot is not freed
      meanwhile: the k-th answer written from it is the answer to the k-th request read from it,
      at most one request is unanswered, and each answer reaches the connection that asked. */
  lemma AnswersInOrder(items: seq<Slot>, steps: seq<Step>, offset: nat, tm: Timeouts)
    requires Polite(items, steps, offset, tm)
    ensures var h := Play(items, steps, tm);
            var asked, answered := TasksOf(h.asked, offset), TasksOf(Answered(h.sent), offset);
            answered <= asked && |asked| <= |answered| + 1 && (!WaitsIn(h, offset) ==> answered == asked)
    ensures forall d :: d in Play(items, steps, tm).sent && d.task.offset == offset ==>
              Sent(items, steps, d, tm) && d.receiver == Before(items, steps, d.task.asked, tm).owner[offset]
  {
    hide Play, Polite, HeldSince;
    assert steps[..|steps|] == steps;
    AlwaysOneWaits(items, steps, |steps|, offset, tm);
    AlwaysHeld(items, steps, |steps|, offset, tm);
    forall d | d in Play(items, steps, tm).sent && d.task.offset == offset
      ensures Sent(items, steps, d, tm) && d.receiver == Before(items, steps, d.task.asked, tm).owner[offset]
    {
      PoliteReaches(items, steps, tm, d);
    }
  }

  lemma PoliteReaches(items: seq<Slot>, steps: seq<Step>, tm: Timeouts, d: Answer)
    requires d in Play(items, steps, tm).sent && HeldSince(items, steps, |steps|, d.task.offset, tm)
    ensures Sent(items, steps, d, tm) && d.receiver == Before(items, steps, d.task.asked, tm).owner[d.task.offset]
  {
    assert steps[..|steps|] == steps;
    hide Play, WaitsIn, TasksOf;
    AnswerReachesIff(items, steps, tm, d);
    assert d in Before(items, steps, |steps|, tm).sent;
  }

  // ------------------------------------------------------------ a request is served

  lemma AskServed(h: Hub, offset: nat, now: int, num: nat, n: nat, tm: Timeouts)
    requires Owned(h, num, n) && Allowed(h.world, ReadEvent(offset, now)) && offset !in h.armed
    ensures var h' := Enact(h, Ask(offset, now), n, tm);
            && h'.pending == h.pending + [Task(offset, n)] && h'.sent == h.sent && h'.world.clock == now
            && Live(h'.world.table, offset) && Fits(h'.world.table)
            && offset in h.owner && offset in h'.owner && h'.owner[offset] == h.owner[offset]
  {
    InvFits(h.world, num);
    TurnOwned(h, ReadEvent(offset, now), num, n, tm);
    TurnShows(h, ReadEvent(offset, now), n, tm);
    EventKeepsLive(h.world.table, ReadEvent(offset, now), offset, tm);
    InvFits(Turn(h, ReadEvent(offset, now), n, tm).world, num);
    hide WorldInv, Do, Live, Fits;
  }

  lemma ReplyServed(h: Hub, k: nat, n: nat, tm: Timeouts)
    requires Fits(h.world.table) && k < |h.pending| && Live(h.world.table, h.pending[k].offset)
    ensures var h', t := Enact(h, Reply(k), n, tm), h.pending[k];
            && h'.world == h.world && h'.owner == h.owner && h'.sent == h.sent
            && t.offset in h'.armed && t.offset in h'.data && h'.data[t.offset] == Stored(t, n)
  {}

  lemma SendServed(h: Hub, offset: nat, now: int, n: nat, tm: Timeouts)
    requires Fits(h.world.table) && Allowed(h.world, WriteEvent(offset, now))
    requires offset in h.armed && offset in h.data && offset in h.owner
    ensures var d := h.data[offset];
            Enact(h, Send(offset, now), n, tm).sent == h.sent + [Answer(d.task, d.replied, n, h.owner[offset])]
  {
    TurnShows(h, WriteEvent(offset, now), n, tm);
    hide Turn, Live, Allowed;
  }

  /** From every reachable state: a request on a live slot that is not about to be written to is
      read, and if its worker replies at once the answer is written to the connection that asked. */
  lemma RequestServed(items: seq<Slot>, steps: seq<Step>, offset: nat, now: int, tm: Timeouts)
    requires var h := Play(items, steps, tm);
             Allowed(h.world, ReadEvent(offset, now)) && offset !in h.armed
    ensures var h, n := Play(items, steps, tm), |steps|;
            && offset in h.owner
            && Play(items, steps + [Ask(offset, now)] + [Reply(|h.pending|)] + [Send(offset, now)], tm).sent
               == h.sent + [Answer(Task(offset, n), n + 1, n + 2, h.owner[offset])]
  {
    hide Enact, Live, WorldInv;
    var h, n := Play(items, steps, tm), |steps|;
    var ask, reply := steps + [Ask(offset, now)], steps + [Ask(offset, now)] + [Reply(|h.pending|)];
    PlayOwned(items, steps, tm);
    AskServed(h, offset, now, |items|, n, tm);
    PlayOne(items, steps, Ask(offset, now), tm);
    var h1 := Play(items, ask, tm);
    assert h1.pending[|h.pending|] == Task(offset, n);
    ReplyServed(h1, |h.pending|, n + 1, tm);
    PlayOne(items, ask, Reply(|h.pending|), tm);
    SendServed(Play(items, reply, tm), offset, now, n + 2, tm);
    PlayOne(items, reply, Send(offset, now), tm);
  }
}

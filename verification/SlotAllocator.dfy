/** The table behind its array: an allocator that hands out the least free offset and closes
    what is due at every check, with no mark, no cache and no stale slots. */
module SlotAllocators {
  import opened SlotTables
  import opened SlotRuns
  import opened SlotProperties

  /** The connections by offset. */
  type Conns = map<nat, Slot>

  function View(t: Table): Conns {
    map i: nat | i < |t.items| && Live(t, i) :: t.items[i]
  }

  datatype Server = Server(conns: Conns, clock: int)

  /** The least offset below `num` that has no connection, `num` if there is none. */
  function LeastFree(conns: Conns, num: nat, from: nat): (r: nat)
    requires from <= num
    ensures from <= r <= num && (r !in conns || r == num)
    ensures forall i: nat :: from <= i < r ==> i in conns
    decreases num - from
  {
    if from == num || from !in conns then from else LeastFree(conns, num, from + 1)
  }

  function Admit(conns: Conns, num: nat, sock: int, now: int): (int, Conns) {
    var r := LeastFree(conns, num, 0);
    if sock < 0 || r == num then (-1, conns) else (r, conns[r := Slot(sock, now, Ready)])
  }

  function Enter(conns: Conns, offset: nat, status: Status, now: int): Conns {
    if offset !in conns || conns[offset].status == status then conns
    else conns[offset := conns[offset].(status := status, time := now)]
  }

  function Leave(conns: Conns, offset: int, keepalive: bool, now: int): Conns {
    if offset < 0 || offset !in conns then conns
    else if keepalive then conns[offset := conns[offset].(status := Ready, time := now)]
    else conns - {offset as nat}
  }

  /** Connections past their timeout are closed; one whose task is being computed is not timed. */
  function CloseDue(conns: Conns, now: int, tm: Timeouts): Conns {
    map i: nat | i in conns && !Expired(conns[i], now, tm) ::
      if conns[i].status == Busy then conns[i].(time := now) else conns[i]
  }

  function Serve(conns: Conns, num: nat, op: Op, tm: Timeouts): Conns {
    match op
    case Accept(sock, now) => Admit(conns, num, sock, now).1
    case ReadEvent(offset, now) => Enter(conns, offset, ReadBusy, now)
    case WriteEvent(offset, now) => Enter(conns, offset, WriteBusy, now)
    case Release(offset, keepalive, now) => Leave(conns, offset, keepalive, now)
    case Check(now) => CloseDue(conns, now, tm)
  }

  predicate MayServe(s: Server, op: Op) {
    && s.clock <= op.now < INT_MAX
    && match op
       case Accept(sock, _) => forall i :: i in s.conns ==> s.conns[i].sock != sock
       case ReadEvent(offset, _) => offset in s.conns
       case WriteEvent(offset, _) => offset in s.conns
       case _ => true
  }

  function RunServer(num: nat, ops: seq<Op>, tm: Timeouts): Server {
    if ops == [] then Server(map[], 0)
    else
      var s, op := RunServer(num, ops[..|ops| - 1], tm), ops[|ops| - 1];
      if MayServe(s, op) then Server(Serve(s.conns, num, op, tm), op.now) else s
  }

  // ------------------------------------------------------------ one operation

  lemma SameLeast(t: Table)
    requires Fits(t)
    ensures FirstFree(t.items, t.len, 0) == LeastFree(View(t), |t.items|, 0)
  {
    var free, least := FirstFree(t.items, t.len, 0), LeastFree(View(t), |t.items|, 0);
    assert forall i: nat :: i < free ==> i in View(t);
    assert free < |t.items| ==> free !in View(t);
    assert least < free ==> least in View(t);
    assert free < least ==> free in View(t);
  }

  /** Inserting takes the least offset that is not live, and fails exactly when all are. */
  lemma InsertTakesLeast(t: Table, sock: int, now: int)
    requires Fits(t)
    ensures var (r, t') := Insert(t, sock, now);
            (r, View(t')) == Admit(View(t), |t.items|, sock, now)
  {
    SameLeast(t);
    hide FirstFree, LeastFree;
    var (r, t') := Insert(t, sock, now);
    if r != -1 {
      assert forall i: nat | i < |t.items| && i != r :: t'.items[i] == t.items[i] && (Live(t', i) <==> Live(t, i));
      assert Live(t', r);
      assert View(t') == View(t)[r := Slot(sock, now, Ready)];
    }
  }

  /** Releasing a connection frees its offset or restarts it, and touches no other. */
  lemma ReleaseFrees(w: World, num: nat, offset: int, keepalive: bool)
    requires WorldInv(w, num)
    ensures View(Reset(w.table, offset, keepalive, w.clock, AllClose()).1)
         == Leave(View(w.table), offset, keepalive, w.clock)
  {
    var t := w.table;
    var t' := Reset(t, offset, keepalive, w.clock, AllClose()).1;
    if 0 <= offset < t.len {
      assert GoodSlot(t.items[offset], t.least, w.clock);
      var i: nat := offset;
      assert i in View(t) <==> Live(t, i);
    }
    hide GoodSlot, Distinct;
    assert forall i: nat | i < |t.items| && i != offset :: t'.items[i] == t.items[i] && (Live(t', i) <==> Live(t, i));
  }

  /** A sweep keeps exactly the connections that are not past their timeout; no open socket
      lies at or beyond the mark. */
  lemma SweepFrees(w: World, num: nat, tm: Timeouts)
    requires WorldInv(w, num)
    ensures var t' := Sweep(w.table, w.clock, tm, AllClose());
            && View(t') == CloseDue(View(w.table), w.clock, tm)
            && forall i: nat :: i < w.table.len && Open(t', i) ==> i < t'.len
  {
    hide SweptItems, LeastAfter, Mark, Distinct;
    var t, t' := w.table, Sweep(w.table, w.clock, tm, AllClose());
    forall i: nat | i < t.len
      ensures Live(t', i) <==> Live(t, i) && !Expired(t.items[i], w.clock, tm)
      ensures Open(t', i) ==> i < t'.len
      ensures Live(t', i) ==>
                t'.items[i] == if t.items[i].status == Busy then t.items[i].(time := w.clock) else t.items[i]
    {
      assert GoodSlot(t.items[i], t.least, w.clock);
      assert t'.items[i] == SweptSlot(t.items[i], w.clock, tm, AllClose());
      assert Kept(t.items[i], w.clock, tm) ==> i < t'.len;
    }
  }

  lemma TouchEnters(t: Table, offset: nat, status: Status, now: int)
    requires Live(t, offset) && status != NotUsed
    ensures View(Touch(t, offset, status, now)) == Enter(View(t), offset, status, now)
  {
    var t' := Touch(t, offset, status, now);
    assert forall i: nat | i < |t.items| && i != offset :: t'.items[i] == t.items[i] && (Live(t', i) <==> Live(t, i));
  }

  /** No operation of the loop puts a slot into the state BUSY. */
  predicate NoneBusy(t: Table) {
    forall i :: 0 <= i < |t.items| && Live(t, i) ==> t.items[i].status != Busy
  }

  lemma SkipFrees(t: Table, now: int, tm: Timeouts)
    requires NoneExpired(t, now, tm) && NoneBusy(t)
    ensures CloseDue(View(t), now, tm) == View(t)
  {
    hide Expired;
  }

  lemma NothingToSweep(t: Table, now: int, tm: Timeouts)
    requires t.len == 0
    ensures NoneExpired(t, now, tm)
  {}

  lemma StepFollows(w: World, num: nat, op: Op, tm: Timeouts)
    requires WorldInv(w, num) && NoneBusy(w.table) && Allowed(w, op) && w.clock == op.now
    requires op.Check? && Skips(w.table, op.now, tm) ==> NoneExpired(w.table, op.now, tm)
    ensures View(Do(w.table, op, tm).1) == Serve(View(w.table), num, op, tm)
    ensures NoneBusy(Do(w.table, op, tm).1)
  {
    hide View, Admit, Enter, Leave, CloseDue, Insert, Reset, Touch, Sweep, NoneExpired, AllClose;
    StepNoneBusy(w, num, op, tm);
    match op
    case Accept(sock, now) => InsertTakesLeast(w.table, sock, now);
    case ReadEvent(offset, now) => TouchEnters(w.table, offset, ReadBusy, now);
    case WriteEvent(offset, now) => TouchEnters(w.table, offset, WriteBusy, now);
    case Release(offset, keepalive, now) => ReleaseFrees(w, num, offset, keepalive);
    case Check(now) =>
      if Skips(w.table, now, tm) {
        SkipFrees(w.table, now, tm);
      } else if w.table.len == 0 {
        NothingToSweep(w.table, now, tm);
        SkipFrees(w.table, now, tm);
      } else {
        SweepFrees(w, num, tm);
      }
  }

  lemma StepNoneBusy(w: World, num: nat, op: Op, tm: Timeouts)
    requires WorldInv(w, num) && NoneBusy(w.table) && Allowed(w, op)
    ensures NoneBusy(Do(w.table, op, tm).1)
  {
    hide GoodSlot, Distinct, SweptItems, LeastAfter, Mark, Expired;
    var t' := Do(w.table, op, tm).1;
    forall i | 0 <= i < |t'.items| && Live(t', i) ensures t'.items[i].status != Busy {
      if op.Check? && i < w.table.len && !Skips(w.table, op.now, tm) {
        assert t'.items[i] == SweptSlot(w.table.items[i], op.now, tm, AllClose());
      }
    }
  }

  lemma MayServeIff(w: World, op: Op)
    requires Fits(w.table)
    ensures Allowed(w, op) <==> MayServe(Server(View(w.table), w.clock), op)
  {
    var conns := View(w.table);
    if op.Accept? {
      assert forall i: nat :: i in conns <==> Live(w.table, i);
      assert forall i :: 0 <= i < |w.table.items| && Live(w.table, i) ==> (i as nat) in conns;
    }
  }

  // ------------------------------------------------------------ runs

  /** The table shows what the allocator holds, and admits the same operations. */
  ghost predicate Follows(w: World, s: Server, num: nat) {
    && View(w.table) == s.conns && w.clock == s.clock && |w.table.items| == num
  }

  /** With `min_timeout` below all three timeouts the server is the least-offset allocator:
      over every run it holds the same connections in the same slots, allows the same
      operations, and gives the same offset, or refusal, to the next connection. */
  lemma {:induction false} FollowsAllocator(items: seq<Slot>, ops: seq<Op>, tm: Timeouts)
    requires MinBelowAll(tm)
    ensures var w, s := Run(items, ops, tm), RunServer(|items|, ops, tm);
            && Follows(w, s, |items|) && NoneBusy(w.table) && Fits(w.table)
            && (forall op :: Allowed(w, op) <==> MayServe(s, op))
            && (forall sock, now :: Insert(w.table, sock, now).0 == Admit(s.conns, |items|, sock, now).0)
  {
    var w, s := Run(items, ops, tm), RunServer(|items|, ops, tm);
    RunKeeps(items, ops, tm);
    if ops != [] {
      var init, op := ops[..|ops| - 1], ops[|ops| - 1];
      FollowsAllocator(items, init, tm);
      RunKeeps(items, init, tm);
      NextWorld(items, ops, tm);
      NextServer(|items|, ops, tm);
      var v := Run(items, init, tm);
      hide Run, RunServer, WorldInv, Do, Serve, View, NoneBusy;
      if Allowed(v, op) {
        FollowsOne(items, init, op, tm);
      }
    } else {
      assert w.table.len == 0;
    }
    hide Run, RunServer, WorldInv, Allowed, MayServe, Insert, Admit;
    SameNext(w, s, |items|);
  }

  lemma NextServer(num: nat, ops: seq<Op>, tm: Timeouts)
    requires ops != []
    ensures var s, op := RunServer(num, ops[..|ops| - 1], tm), ops[|ops| - 1];
            RunServer(num, ops, tm) == if MayServe(s, op) then Server(Serve(s.conns, num, op, tm), op.now) else s
  {
    hide Serve, MayServe;
  }

  lemma FollowsOne(items: seq<Slot>, ops: seq<Op>, op: Op, tm: Timeouts)
    requires MinBelowAll(tm) && WorldInv(Run(items, ops, tm), |items|)
    requires NoneBusy(Run(items, ops, tm).table) && Allowed(Run(items, ops, tm), op)
    ensures var t := Run(items, ops, tm).table;
            View(Do(t, op, tm).1) == Serve(View(t), |items|, op, tm) && NoneBusy(Do(t, op, tm).1)
  {
    hide Run, WorldInv, Do, Serve, View, NoneBusy, NoneExpired;
    var w := Run(items, ops, tm);
    TimePasses(w, |items|, op.now);
    if op.Check? && Skips(w.table, op.now, tm) {
      SkipSound(items, ops, tm, op.now);
    }
    StepFollows(w.(clock := op.now), |items|, op, tm);
  }

  lemma SameNext(w: World, s: Server, num: nat)
    requires Follows(w, s, num) && Fits(w.table)
    ensures forall op :: Allowed(w, op) <==> MayServe(s, op)
    ensures forall sock, now :: Insert(w.table, sock, now).0 == Admit(s.conns, num, sock, now).0
  {
    hide Allowed, MayServe, Insert, Admit, View;
    forall op ensures Allowed(w, op) <==> MayServe(s, op) {
      MayServeIff(w, op);
    }
    forall sock, now ensures Insert(w.table, sock, now).0 == Admit(s.conns, num, sock, now).0 {
      InsertTakesLeast(w.table, sock, now);
    }
  }

  /** Every run of every server of `num` slots shows what the allocator holds. */
  ghost predicate IsAllocator(num: nat, tm: Timeouts) {
    forall items, ops :: |items| == num ==> Follows(Run(items, ops, tm), RunServer(num, ops, tm), num)
  }

  /** With positive timeouts that condition is exact. */
  lemma IsAllocatorIff(num: nat, tm: Timeouts)
    requires num > 0 && 0 < tm.conn < INT_MAX && 0 < tm.read < INT_MAX && 0 < tm.write < INT_MAX
    ensures IsAllocator(num, tm) <==> MinBelowAll(tm)
  {
    hide Run, RunServer, Follows;
    if MinBelowAll(tm) {
      forall items, ops | |items| == num
        ensures Follows(Run(items, ops, tm), RunServer(num, ops, tm), num)
      {
        FollowsAllocator(items, ops, tm);
      }
    } else {
      var items := seq(num, _ => Slot(0, 0, NotUsed));
      var (status, timeout) :=
        if tm.min >= tm.conn then (Ready, tm.conn)
        else if tm.min >= tm.read then (ReadBusy, tm.read) else (WriteBusy, tm.write);
      MissedCheck(items, tm, status, timeout);
    }
  }

  /** A check that is skipped although a connection is due shows the difference. */
  lemma MissedCheck(items: seq<Slot>, tm: Timeouts, status: Status, timeout: int)
    requires items != [] && 0 < timeout <= tm.min && timeout < INT_MAX && Governs(status, timeout, tm)
    ensures var ops := OneConnection(status);
            var later := ops + [Check(timeout)];
            !(Follows(Run(items, ops, tm), RunServer(|items|, ops, tm), |items|)
              && Follows(Run(items, later, tm), RunServer(|items|, later, tm), |items|))
  {
    var ops, op := OneConnection(status), Check(timeout);
    UnsoundSkip(items, tm, status, timeout);
    RunOne(items, ops, op, tm);
    assert (ops + [op])[..|ops|] == ops;
    NextServer(|items|, ops + [op], tm);
    RunKeeps(items, ops, tm);
    hide Run, RunServer, Expired, OneConnection, Skips;
    var w, s := Run(items, ops, tm), RunServer(|items|, ops, tm);
    var i :| 0 <= i < |w.table.items| && Live(w.table, i) && Expired(w.table.items[i], timeout, tm);
    var k: nat := i;
    assert k in View(w.table) && k !in CloseDue(View(w.table), timeout, tm);
    assert RunServer(|items|, ops + [op], tm).conns == CloseDue(s.conns, timeout, tm)
      || s.clock != w.clock;
  }
}

/** What the slot table guarantees over every run of the event loop. */
module SlotRuns {
  import opened SlotTables

  /** The operations of the event loop; each carries the clock reading it uses. */
  datatype Op =
    | Accept(sock: int, now: int)
    | ReadEvent(offset: nat, now: int)
    | WriteEvent(offset: nat, now: int)
    | Release(slot: int, keepalive: bool, now: int)
    | Check(now: int)

  datatype World = World(table: Table, clock: int)

  function Start(items: seq<Slot>): World {
    World(Table(items, 0, INT_MAX), 0)
  }

  function AllClose(): Closer {
    sock => true
  }

  /** The environment: the clock is monotone and below INT_MAX, `accept` returns descriptors
      that are not open, epoll names live offsets. */
  predicate Allowed(w: World, op: Op) {
    && w.clock <= op.now < INT_MAX
    && match op
       case Accept(sock, _) =>
         forall i :: 0 <= i < |w.table.items| && Live(w.table, i) ==> w.table.items[i].sock != sock
       case ReadEvent(offset, _) => Live(w.table, offset)
       case WriteEvent(offset, _) => Live(w.table, offset)
       case _ => true
  }

  /** An event on a slot restarts its clock when the slot enters the busy state. */
  function Touch(t: Table, offset: nat, status: Status, now: int): Table
    requires offset < |t.items|
  {
    if t.items[offset].status == status then t
    else t.(items := t.items[offset := t.items[offset].(status := status, time := now)])
  }

  /** The return value, where the operation has one, and the table after it. */
  function DoWith(t: Table, op: Op, tm: Timeouts, closes: Closer): (int, Table)
    requires Fits(t) && (op.ReadEvent? || op.WriteEvent? ==> op.offset < |t.items|)
  {
    match op
    case Accept(sock, now) => Insert(t, sock, now)
    case ReadEvent(offset, now) => (0, Touch(t, offset, ReadBusy, now))
    case WriteEvent(offset, now) => (0, Touch(t, offset, WriteBusy, now))
    case Release(offset, keepalive, now) => Reset(t, offset, keepalive, now, closes)
    case Check(now) => CheckTimeout(t, now, tm, closes)
  }

  /** The same where every `close` succeeds. */
  function Do(t: Table, op: Op, tm: Timeouts): (int, Table)
    requires Fits(t) && (op.ReadEvent? || op.WriteEvent? ==> op.offset < |t.items|)
  {
    DoWith(t, op, tm, AllClose())
  }

  /** A run takes the allowed operations and ignores the others. */
  function Run(items: seq<Slot>, ops: seq<Op>, tm: Timeouts): World {
    if ops == [] then Start(items)
    else
      var w, op := Run(items, ops[..|ops| - 1], tm), ops[|ops| - 1];
      if Fits(w.table) && Allowed(w, op) then World(Do(w.table, op, tm).1, op.now) else w
  }

  // ------------------------------------------------------------ the invariant

  predicate GoodSlot(s: Slot, least: int, clock: int) {
    s.status != NotUsed ==> s.sock >= 0 && s.time <= clock && (least == INT_MAX || least <= s.time)
  }

  predicate Distinct(t: Table) {
    forall i, j :: 0 <= i < j < |t.items| && Live(t, i) && Live(t, j) ==> t.items[i].sock != t.items[j].sock
  }

  /** The cached bound is INT_MAX or at most the time of every live slot. */
  predicate WorldInv(w: World, num: nat) {
    && |w.table.items| == num && Fits(w.table)
    && (forall i :: 0 <= i < w.table.len ==> GoodSlot(w.table.items[i], w.table.least, w.clock))
    && Distinct(w.table)
    && (w.table.least == INT_MAX || w.table.least <= w.clock)
    && w.clock < INT_MAX
  }

  lemma TimePasses(w: World, num: nat, now: int)
    requires WorldInv(w, num) && w.clock <= now < INT_MAX
    ensures WorldInv(w.(clock := now), num)
  {}

  /** Replacing one slot below the mark by a good one with a descriptor of its own. */
  lemma PutSlot(w: World, num: nat, i: nat, s: Slot, len: nat)
    requires WorldInv(w, num) && i < len <= num && (len == w.table.len || i == w.table.len == len - 1)
    requires GoodSlot(s, w.table.least, w.clock)
    requires s.status != NotUsed ==>
               forall k :: 0 <= k < num && k != i && Live(w.table, k) ==> w.table.items[k].sock != s.sock
    ensures WorldInv(w.(table := w.table.(items := w.table.items[i := s], len := len)), num)
  {
    hide GoodSlot;
    var t, t' := w.table, w.table.(items := w.table.items[i := s], len := len);
    forall a, b | 0 <= a < b < num && Live(t', a) && Live(t', b)
      ensures t'.items[a].sock != t'.items[b].sock
    {
      assert a != i ==> Live(t, a);
      assert b != i ==> Live(t, b);
    }
  }

  lemma AcceptKeeps(w: World, num: nat, sock: int, tm: Timeouts)
    requires WorldInv(w, num) && Allowed(w, Accept(sock, w.clock))
    ensures WorldInv(w.(table := Insert(w.table, sock, w.clock).1), num)
  {
    hide GoodSlot, Distinct;
    var (r, t') := Insert(w.table, sock, w.clock);
    if r != -1 {
      NewSlotIsGood(sock, w.table.least, w.clock);
      PutSlot(w, num, r, Slot(sock, w.clock, Ready), t'.len);
    }
  }

  lemma NewSlotIsGood(sock: int, least: int, clock: int)
    requires sock >= 0 && (least == INT_MAX || least <= clock)
    ensures GoodSlot(Slot(sock, clock, Ready), least, clock)
  {}

  lemma TouchKeeps(w: World, num: nat, offset: nat, status: Status)
    requires WorldInv(w, num) && Live(w.table, offset) && status != NotUsed
    ensures WorldInv(w.(table := Touch(w.table, offset, status, w.clock)), num)
  {
    var s := w.table.items[offset];
    assert GoodSlot(s, w.table.least, w.clock);
    PutSlot(w, num, offset, s.(status := status, time := w.clock), w.table.len);
  }

  lemma ReleaseKeeps(w: World, num: nat, offset: int, keepalive: bool)
    requires WorldInv(w, num)
    ensures WorldInv(w.(table := Reset(w.table, offset, keepalive, w.clock, AllClose()).1), num)
  {
    if 0 <= offset < w.table.len && w.table.items[offset].status != NotUsed {
      var s := w.table.items[offset];
      assert GoodSlot(s, w.table.least, w.clock);
      PutSlot(w, num, offset,
              if keepalive then s.(status := Ready, time := w.clock) else s.(status := NotUsed, sock := -1),
              w.table.len);
    }
  }

  lemma SweepKeeps(w: World, num: nat, tm: Timeouts)
    requires WorldInv(w, num)
    ensures WorldInv(w.(table := Sweep(w.table, w.clock, tm, AllClose())), num)
  {
    hide SweptItems, LeastAfter, Mark, Distinct, Expired;
    var t, t' := w.table, Sweep(w.table, w.clock, tm, AllClose());
    LeastIs(t.least, t.items, t.len, w.clock, tm);
    forall i | 0 <= i < t'.len
      ensures GoodSlot(t'.items[i], t'.least, w.clock)
    {
      assert GoodSlot(t.items[i], t.least, w.clock);
      assert t'.items[i] == SweptSlot(t.items[i], w.clock, tm, AllClose());
    }
    SweepDistinct(t, w.clock, tm, AllClose());
  }

  lemma SweepDistinct(t: Table, now: int, tm: Timeouts, closes: Closer)
    requires Fits(t) && Distinct(t)
    ensures Distinct(Sweep(t, now, tm, closes))
  {
    hide SweptItems, LeastAfter, Mark, Expired;
    var t' := Sweep(t, now, tm, closes);
    forall i | 0 <= i < |t'.items| && Live(t', i)
      ensures Live(t, i) && t'.items[i].sock == t.items[i].sock
    {
      assert t'.items[i] == SweptSlot(t.items[i], now, tm, closes);
    }
  }

  /** Over every run: the mark stays within the array, live descriptors are pairwise
      distinct, and the cached bound never passes the time of a live slot. */
  lemma {:induction false} RunKeeps(items: seq<Slot>, ops: seq<Op>, tm: Timeouts)
    ensures WorldInv(Run(items, ops, tm), |items|)
  {
    if ops != [] {
      var w, op := Run(items, ops[..|ops| - 1], tm), ops[|ops| - 1];
      RunKeeps(items, ops[..|ops| - 1], tm);
      hide Run, WorldInv, Insert, Reset, Touch, Sweep;
      if Fits(w.table) && Allowed(w, op) {
        var v := w.(clock := op.now);
        TimePasses(w, |items|, op.now);
        StepKeeps(v, |items|, op, tm);
      }
      NextWorld(items, ops, tm);
    }
  }

  lemma NextWorld(items: seq<Slot>, ops: seq<Op>, tm: Timeouts)
    requires ops != []
    ensures var w, op := Run(items, ops[..|ops| - 1], tm), ops[|ops| - 1];
            Run(items, ops, tm) == if Fits(w.table) && Allowed(w, op) then World(Do(w.table, op, tm).1, op.now) else w
  {
    hide Do, Allowed, Start;
  }

  lemma StepKeeps(w: World, num: nat, op: Op, tm: Timeouts)
    requires WorldInv(w, num) && Fits(w.table) && Allowed(w, op) && op.now == w.clock
    ensures WorldInv(w.(table := Do(w.table, op, tm).1), num)
  {
    hide WorldInv, Insert, Reset, Touch, Sweep, AllClose;
    match op
    case Accept(sock, now) => AcceptKeeps(w, num, sock, tm);
    case ReadEvent(offset, now) => TouchKeeps(w, num, offset, ReadBusy);
    case WriteEvent(offset, now) => TouchKeeps(w, num, offset, WriteBusy);
    case Release(offset, keepalive, now) => ReleaseKeeps(w, num, offset, keepalive);
    case Check(now) => SweepKeeps(w, num, tm);
  }
}

/** Skipping a sweep, sweeping exactly, and why the array's first contents do not matter. */
module SlotProperties {
  import opened SlotTables
  import opened SlotRuns

  // ------------------------------------------------------------ skipping the sweep

  predicate NoneExpired(t: Table, now: int, tm: Timeouts) {
    forall i :: 0 <= i < |t.items| && Live(t, i) ==> !Expired(t.items[i], now, tm)
  }

  predicate MinBelowAll(tm: Timeouts) {
    tm.min < tm.conn && tm.min < tm.read && tm.min < tm.write
  }

  /** In every reachable state, an early return with `min_timeout` below all three timeouts
      happens only when a full sweep would close no connection. */
  lemma SkipSound(items: seq<Slot>, ops: seq<Op>, tm: Timeouts, now: int)
    requires MinBelowAll(tm)
    requires var w := Run(items, ops, tm); w.clock <= now < INT_MAX && Skips(w.table, now, tm)
    ensures NoneExpired(Run(items, ops, tm).table, now, tm)
  {
    RunKeeps(items, ops, tm);
    hide Run, Distinct;
    var w := Run(items, ops, tm);
    forall i | 0 <= i < |w.table.items| && Live(w.table, i)
      ensures !Expired(w.table.items[i], now, tm)
    {
      assert GoodSlot(w.table.items[i], w.table.least, w.clock);
    }
  }

  /** Skipping is safe for a server of `num` slots: no reachable state ever skips a sweep that
      would have closed a connection. */
  ghost predicate SkippingIsSafe(num: nat, tm: Timeouts) {
    forall items, ops, now ::
      |items| == num && Run(items, ops, tm).clock <= now < INT_MAX && Skips(Run(items, ops, tm).table, now, tm)
      ==> NoneExpired(Run(items, ops, tm).table, now, tm)
  }

  /** The exact condition: with positive timeouts skipping is safe if and only if
      `min_timeout` is below each of them. */
  lemma SkipSoundIff(num: nat, tm: Timeouts)
    requires num > 0 && 0 < tm.conn < INT_MAX && 0 < tm.read < INT_MAX && 0 < tm.write < INT_MAX
    ensures SkippingIsSafe(num, tm) <==> MinBelowAll(tm)
  {
    if MinBelowAll(tm) {
      forall items, ops, now | |items| == num && Run(items, ops, tm).clock <= now < INT_MAX
                               && Skips(Run(items, ops, tm).table, now, tm)
        ensures NoneExpired(Run(items, ops, tm).table, now, tm)
      {
        SkipSound(items, ops, tm, now);
      }
    } else {
      hide Run, NoneExpired, Skips;
      var items := seq(num, _ => Slot(0, 0, NotUsed));
      var (status, timeout) :=
        if tm.min >= tm.conn then (Ready, tm.conn)
        else if tm.min >= tm.read then (ReadBusy, tm.read) else (WriteBusy, tm.write);
      var ops := OneConnection(status);
      UnsoundSkip(items, tm, status, timeout);
      assert Run(items, ops, tm).clock <= timeout < INT_MAX && Skips(Run(items, ops, tm).table, timeout, tm);
    }
  }

  function OneConnection(status: Status): seq<Op> {
    [Accept(5, 0)]
    + (if status == ReadBusy then [ReadEvent(0, 0)] else if status == WriteBusy then [WriteEvent(0, 0)] else [])
    + [Check(0)]
  }

  /** `timeout` is the one that applies to a slot of this status. */
  predicate Governs(status: Status, timeout: int, tm: Timeouts) {
    match status
    case Ready => timeout == tm.conn
    case ReadBusy => timeout == tm.read
    case WriteBusy => timeout == tm.write
    case _ => false
  }

  /** One connection, swept once at time 0 and then idle for exactly its timeout. */
  lemma UnsoundSkip(items: seq<Slot>, tm: Timeouts, status: Status, timeout: int)
    requires items != [] && 0 < timeout <= tm.min
    requires Governs(status, timeout, tm)
    ensures var w := Run(items, OneConnection(status), tm);
            w.clock == 0 && Skips(w.table, timeout, tm) && !NoneExpired(w.table, timeout, tm)
  {
    AfterOneConnection(items, tm, status, timeout);
    hide Run;
    var w := Run(items, OneConnection(status), tm);
    assert Live(w.table, 0) && Expired(w.table.items[0], timeout, tm);
  }

  lemma RunOne(items: seq<Slot>, ops: seq<Op>, op: Op, tm: Timeouts)
    ensures var w := Run(items, ops, tm);
            Run(items, ops + [op], tm) ==
            if Fits(w.table) && Allowed(w, op) then World(Do(w.table, op, tm).1, op.now) else w
  {
    hide Do, Allowed, Start;
    assert (ops + [op])[..|ops|] == ops;
  }

  lemma AfterOneConnection(items: seq<Slot>, tm: Timeouts, status: Status, timeout: int)
    requires items != [] && 0 < timeout
    requires Governs(status, timeout, tm)
    ensures Run(items, OneConnection(status), tm) == World(Table(items[0 := Slot(5, 0, status)], 1, 0), 0)
  {
    var first := items[0 := Slot(5, 0, Ready)];
    var touched := items[0 := Slot(5, 0, status)];
    Accepted(items, tm);
    RunOne(items, [], Accept(5, 0), tm);
    assert [] + [Accept(5, 0)] == [Accept(5, 0)];
    var before := OneConnection(status)[..|OneConnection(status)| - 1];
    hide Run;
    assert Run(items, before, tm) == World(Table(touched, 1, INT_MAX), 0) by {
      if status == Ready {
        assert before == [Accept(5, 0)];
      } else {
        var op := if status == ReadBusy then ReadEvent(0, 0) else WriteEvent(0, 0);
        assert before == [Accept(5, 0)] + [op];
        RunOne(items, [Accept(5, 0)], op, tm);
        assert first[0 := Slot(5, 0, status)] == touched;
      }
    }
    assert OneConnection(status) == before + [Check(0)];
    RunOne(items, before, Check(0), tm);
    Checked(touched, tm, status, timeout);
  }

  lemma Accepted(items: seq<Slot>, tm: Timeouts)
    requires items != []
    ensures Run(items, [], tm) == World(Table(items, 0, INT_MAX), 0)
    ensures Allowed(Run(items, [], tm), Accept(5, 0))
    ensures Insert(Table(items, 0, INT_MAX), 5, 0).1 == Table(items[0 := Slot(5, 0, Ready)], 1, INT_MAX)
  {}

  lemma Checked(items: seq<Slot>, tm: Timeouts, status: Status, timeout: int)
    requires items != [] && items[0] == Slot(5, 0, status) && 0 < timeout
    requires Governs(status, timeout, tm)
    ensures CheckTimeout(Table(items, 1, INT_MAX), 0, tm, AllClose()).1 == Table(items, 1, 0)
  {
    var swept := SweptItems(items, 1, 0, tm, AllClose());
    assert swept == items;
    assert Kept(items[0], 0, tm);
    assert LeastAfter(INT_MAX, items, 0, 0, tm) == INT_MAX;
  }

  /** The cached bound never rises again once it is set. */
  lemma {:induction false} BoundOnlyFalls(items: seq<Slot>, ops: seq<Op>, more: seq<Op>, tm: Timeouts)
    ensures Run(items, ops + more, tm).table.least <= Run(items, ops, tm).table.least
  {
    if more == [] {
      assert ops + more == ops;
    } else {
      var init, op := more[..|more| - 1], more[|more| - 1];
      BoundOnlyFalls(items, ops, init, tm);
      assert ops + more == (ops + init) + [op];
      RunOne(items, ops + init, op, tm);
      var w := Run(items, ops + init, tm);
      hide Run;
      if Fits(w.table) && Allowed(w, op) {
        StepBound(w.table, op, tm);
      }
    }
  }

  lemma StepBound(t: Table, op: Op, tm: Timeouts)
    requires Fits(t) && (op.ReadEvent? || op.WriteEvent? ==> op.offset < |t.items|)
    ensures Do(t, op, tm).1.least <= t.least
  {
    hide SweptItems, Mark, LeastAfter;
    LeastIs(t.least, t.items, t.len, op.now, tm);
  }

  /** So the saving is lost for good: once the bound is older than `min_timeout`, no later
      call of check_timeout returns early. */
  lemma SkipsNoMore(items: seq<Slot>, ops: seq<Op>, more: seq<Op>, tm: Timeouts, now: int, later: int)
    requires var t := Run(items, ops, tm).table; t.least != INT_MAX && now - t.least > tm.min
    requires now <= later
    ensures !Skips(Run(items, ops + more, tm).table, later, tm)
  {
    hide Run;
    BoundOnlyFalls(items, ops, more, tm);
  }

  // ------------------------------------------------------------ what a sweep does

  predicate Closed(s: Slot, now: int, tm: Timeouts, closes: Closer) {
    Expired(s, now, tm) && s.sock >= 0 && closes(s.sock)
  }

  predicate Open(t: Table, i: nat) {
    i < |t.items| && t.items[i].status != NotUsed
  }

  /** An expired slot whose descriptor does not close, with no slot kept behind it. */
  predicate Stranded(t: Table, i: nat, now: int, tm: Timeouts, closes: Closer)
    requires Fits(t)
  {
    && i < t.len && Expired(t.items[i], now, tm) && !Closed(t.items[i], now, tm, closes)
    && forall j :: i < j < t.len ==> !Kept(t.items[j], now, tm)
  }

  /** Whatever `close` does: a sweep frees exactly the expired slots whose descriptor closes,
      keeps every other connection, and leaves the mark one past the last slot that is live
      and not expired.  The open slots it leaves at or beyond the mark are the stranded ones. */
  lemma SweepExact(t: Table, now: int, tm: Timeouts, closes: Closer)
    requires Fits(t)
    ensures var t' := Sweep(t, now, tm, closes);
            && |t'.items| == |t.items| && t'.len <= t.len
            && (forall i :: 0 <= i < t.len && Closed(t.items[i], now, tm, closes) ==> !Open(t', i))
            && (forall i :: 0 <= i < |t.items| && (i >= t.len || !Closed(t.items[i], now, tm, closes)) ==>
                  t'.items[i].sock == t.items[i].sock && t'.items[i].status == t.items[i].status)
            && (forall i :: 0 <= i < t.len && t.items[i].status != Busy ==> t'.items[i].time == t.items[i].time)
            && (t'.len > 0 ==> Live(t', t'.len - 1))
            && (forall i :: 0 <= i < t.len ==> (t'.len <= i && Open(t', i) <==> Stranded(t, i, now, tm, closes)))
  {
    hide SweptItems, LeastAfter, Mark;
    var t' := Sweep(t, now, tm, closes);
    forall i | 0 <= i < t.len
      ensures t'.len <= i && Open(t', i) <==> Stranded(t, i, now, tm, closes)
    {
      assert t'.items[i] == SweptSlot(t.items[i], now, tm, closes);
      assert t'.len <= i ==> !Kept(t.items[i], now, tm);
      assert i < t'.len ==> Kept(t.items[t'.len - 1], now, tm) && (i < t'.len - 1 || Kept(t.items[i], now, tm));
    }
  }

  // ------------------------------------------------------------ the array's first contents

  /** Same size, mark and bound, and the same slots below the mark. */
  predicate Agree(t: Table, u: Table) {
    && |t.items| == |u.items| && t.len == u.len && t.least == u.least && Fits(t)
    && forall i :: 0 <= i < t.len ==> t.items[i] == u.items[i]
  }

  lemma {:induction false} SweepAgrees(t: Table, u: Table, n: nat, now: int, tm: Timeouts)
    requires Agree(t, u) && n <= t.len
    ensures LeastAfter(t.least, t.items, n, now, tm) == LeastAfter(u.least, u.items, n, now, tm)
    ensures Mark(t.items, n, now, tm) == Mark(u.items, n, now, tm)
  {
    if n > 0 {
      hide Kept;
      SweepAgrees(t, u, n - 1, now, tm);
    }
  }

  lemma {:induction false} FreeAgrees(t: Table, u: Table, from: nat)
    requires Agree(t, u) && from <= t.len
    ensures FirstFree(t.items, t.len, from) == FirstFree(u.items, u.len, from)
    decreases t.len - from
  {
    if from < t.len && t.items[from].status != NotUsed {
      FreeAgrees(t, u, from + 1);
    }
  }

  lemma DoAgrees(t: Table, u: Table, op: Op, tm: Timeouts)
    requires Agree(t, u) && (op.ReadEvent? || op.WriteEvent? ==> op.offset < t.len)
    ensures Do(t, op, tm).0 == Do(u, op, tm).0 && Agree(Do(t, op, tm).1, Do(u, op, tm).1)
  {
    assert Fits(t) && Fits(u);
    hide Agree, CheckTimeout, Insert, Reset, Touch;
    match op
    case Accept(sock, now) => InsertAgrees(t, u, sock, now);
    case Check(now) => CheckAgrees(t, u, now, tm);
    case _ => OthersAgree(t, u, op, tm);
  }

  lemma InsertAgrees(t: Table, u: Table, sock: int, now: int)
    requires Agree(t, u) && Fits(t) && Fits(u)
    ensures Insert(t, sock, now).0 == Insert(u, sock, now).0 && Agree(Insert(t, sock, now).1, Insert(u, sock, now).1)
  {
    FreeAgrees(t, u, 0);
    hide FirstFree;
  }

  lemma CheckAgrees(t: Table, u: Table, now: int, tm: Timeouts)
    requires Agree(t, u) && Fits(t) && Fits(u)
    ensures var (r, t') := CheckTimeout(t, now, tm, AllClose());
            var (q, u') := CheckTimeout(u, now, tm, AllClose());
            r == q && Agree(t', u')
  {
    SweepAgrees(t, u, t.len, now, tm);
    hide LeastAfter, Mark, SweptSlot;
  }

  lemma OthersAgree(t: Table, u: Table, op: Op, tm: Timeouts)
    requires Agree(t, u) && Fits(t) && Fits(u) && !op.Accept? && !op.Check?
    requires op.ReadEvent? || op.WriteEvent? ==> op.offset < t.len
    ensures Do(t, op, tm).0 == Do(u, op, tm).0 && Agree(Do(t, op, tm).1, Do(u, op, tm).1)
  {
    hide CheckTimeout, Insert;
  }

  /** What the array held when it was allocated never matters: two servers of the same size
      go through the same states below the mark and return the same values. */
  lemma {:induction false} FirstContentsIrrelevant(items: seq<Slot>, items': seq<Slot>, ops: seq<Op>, tm: Timeouts)
    requires |items| == |items'|
    ensures var w, w' := Run(items, ops, tm), Run(items', ops, tm);
            && w.clock == w'.clock && Agree(w.table, w'.table)
            && forall op :: Allowed(w, op) ==> Allowed(w', op) && Do(w.table, op, tm).0 == Do(w'.table, op, tm).0
    decreases |ops|
  {
    var w, w' := Run(items, ops, tm), Run(items', ops, tm);
    if ops != [] {
      var init, op := ops[..|ops| - 1], ops[|ops| - 1];
      FirstContentsIrrelevant(items, items', init, tm);
      FirstContentsIrrelevant(items', items, init, tm);
      assert ops == init + [op];
      RunOne(items, init, op, tm);
      RunOne(items', init, op, tm);
      var v, v' := Run(items, init, tm), Run(items', init, tm);
      hide Run, Do;
      if Allowed(v, op) {
        DoAgrees(v.table, v'.table, op, tm);
      }
    }
    hide Run, Do, Agree;
    forall op | Allowed(w, op)
      ensures Allowed(w', op) && Do(w.table, op, tm).0 == Do(w'.table, op, tm).0
    {
      AllowedAgrees(w, w', op);
      DoAgrees(w.table, w'.table, op, tm);
    }
  }

  lemma AllowedAgrees(w: World, w': World, op: Op)
    requires w.clock == w'.clock && Agree(w.table, w'.table) && Allowed(w, op)
    ensures Allowed(w', op)
    ensures Fits(w.table) && (op.ReadEvent? || op.WriteEvent? ==> op.offset < w.table.len)
  {}
}

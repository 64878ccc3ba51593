/** When a connection is closed: over every run, it lives until the first full sweep at or after
    the time it entered its state plus the state's timeout. */
module SlotDeadlines {
  import opened SlotTables
  import opened SlotRuns
  import opened SlotProperties

  /** The operation may concern the slot only as an event of the state the slot is in. */
  predicate Quiet(op: Op, i: nat, status: Status) {
    match op
    case ReadEvent(offset, _) => offset == i ==> status == ReadBusy
    case WriteEvent(offset, _) => offset == i ==> status == WriteBusy
    case Release(offset, _, _) => offset != i
    case _ => true
  }

  predicate Holds(t: Table, i: nat, s: Slot) {
    Live(t, i) && t.items[i] == s
  }

  /** A call of check_timeout that does not return early. */
  predicate FullSweep(w: World, op: Op, tm: Timeouts) {
    Allowed(w, op) && op.Check? && !Skips(w.table, op.now, tm)
  }

  /** One operation: only a full sweep past the deadline ends the connection. */
  lemma StepHolds(w: World, num: nat, op: Op, i: nat, s: Slot, tm: Timeouts)
    requires WorldInv(w, num) && Allowed(w, op) && Holds(w.table, i, s) && Quiet(op, i, s.status)
    requires s.status != Busy
    ensures Holds(Do(w.table, op, tm).1, i, s) <==> !(FullSweep(w, op, tm) && Expired(s, op.now, tm))
  {
    hide Distinct, SweptItems, LeastAfter, Mark, Expired;
    assert GoodSlot(s, w.table.least, w.clock);
    match op
    case Check(now) =>
      if !Skips(w.table, now, tm) {
        assert Sweep(w.table, now, tm, AllClose()).items[i] == SweptSlot(s, now, tm, AllClose());
        assert !Expired(s, now, tm) ==> Kept(w.table.items[i], now, tm);
      }
    case _ =>
  }

  /** The connection in slot i is what it was after each of the operations in `more`. */
  ghost predicate HeldThrough(items: seq<Slot>, ops: seq<Op>, more: seq<Op>, tm: Timeouts, i: nat, s: Slot) {
    forall k :: 0 <= k <= |more| ==> Holds(Run(items, ops + more[..k], tm).table, i, s)
  }

  /** None of the operations in `more` is a full sweep at or after `due`. */
  ghost predicate NoSweepSince(items: seq<Slot>, ops: seq<Op>, more: seq<Op>, tm: Timeouts, due: int) {
    forall k :: 0 <= k < |more| ==>
      !(FullSweep(Run(items, ops + more[..k], tm), more[k], tm) && more[k].now >= due)
  }

  /** The last operation of `more`, taken apart from the others. */
  lemma LastOperation(items: seq<Slot>, ops: seq<Op>, more: seq<Op>, tm: Timeouts, i: nat, s: Slot, due: int)
    requires more != []
    ensures var n := |more| - 1;
            var w := Run(items, ops + more[..n], tm);
            && (HeldThrough(items, ops, more, tm, i, s) <==>
                  HeldThrough(items, ops, more[..n], tm, i, s) && Holds(Run(items, ops + more, tm).table, i, s))
            && (NoSweepSince(items, ops, more, tm, due) <==>
                  NoSweepSince(items, ops, more[..n], tm, due)
                  && !(FullSweep(w, more[n], tm) && more[n].now >= due))
  {
    hide Run, Holds, FullSweep;
    var n := |more| - 1;
    assert more[..|more|] == more && more[..n][..n] == more[..n];
    assert forall k :: 0 <= k <= n ==> more[..n][..k] == more[..k];
    assert forall k :: 0 <= k < n ==> more[..n][k] == more[k];
    if NoSweepSince(items, ops, more, tm, due) {
      forall k | 0 <= k < n
        ensures !(FullSweep(Run(items, ops + more[..n][..k], tm), more[..n][k], tm) && more[..n][k].now >= due)
      {
        assert !(FullSweep(Run(items, ops + more[..k], tm), more[k], tm) && more[k].now >= due);
      }
    }
    if HeldThrough(items, ops, more, tm, i, s) {
      forall k | 0 <= k <= n ensures Holds(Run(items, ops + more[..n][..k], tm).table, i, s) {
        assert Holds(Run(items, ops + more[..k], tm).table, i, s);
      }
    }
  }

  lemma {:induction false} HeldUntilSwept(items: seq<Slot>, ops: seq<Op>, more: seq<Op>, tm: Timeouts, i: nat, s: Slot,
                                          timeout: int)
    requires Holds(Run(items, ops, tm).table, i, s) && Governs(s.status, timeout, tm)
    requires forall op :: op in more ==> Quiet(op, i, s.status)
    ensures HeldThrough(items, ops, more, tm, i, s) <==> NoSweepSince(items, ops, more, tm, s.time + timeout)
  {
    hide Run, Holds, FullSweep, Quiet, Allowed, Do;
    if more == [] {
      assert ops + more[..0] == ops;
    } else {
      var n := |more| - 1;
      var due := s.time + timeout;
      HeldUntilSwept(items, ops, more[..n], tm, i, s, timeout);
      LastOperation(items, ops, more, tm, i, s, due);
      assert ops + more == (ops + more[..n]) + [more[n]];
      RunOne(items, ops + more[..n], more[n], tm);
      if HeldThrough(items, ops, more[..n], tm, i, s) {
        var w := Run(items, ops + more[..n], tm);
        assert more[..n][..n] == more[..n] && Holds(w.table, i, s);
        RunKeeps(items, ops + more[..n], tm);
        HeldStep(w, |items|, more[n], i, s, tm, timeout);
      }
    }
  }

  lemma HeldStep(w: World, num: nat, op: Op, i: nat, s: Slot, tm: Timeouts, timeout: int)
    requires WorldInv(w, num) && Holds(w.table, i, s) && Quiet(op, i, s.status) && Governs(s.status, timeout, tm)
    ensures Fits(w.table)
    ensures Holds(if Allowed(w, op) then Do(w.table, op, tm).1 else w.table, i, s)
            <==> !(FullSweep(w, op, tm) && op.now >= s.time + timeout)
  {
    hide Do, Holds, Allowed, Skips;
    if Allowed(w, op) {
      StepHolds(w, num, op, i, s, tm);
      assert Expired(s, op.now, tm) <==> op.now >= s.time + timeout;
    }
  }

  /** The operation brings a connection into slot i, or into another state there, or keeps it
      alive by a release. */
  predicate Enters(t: Table, op: Op, t': Table, i: nat) {
    && Live(t', i)
    && (Live(t, i) && t.items[i].status == t'.items[i].status ==> op.Release? && op.slot == i)
  }

  /** A slot that is entered has the operation's time. */
  lemma EntryTime(w: World, num: nat, op: Op, i: nat, tm: Timeouts)
    requires WorldInv(w, num) && Allowed(w, op)
    ensures var t' := Do(w.table, op, tm).1;
            Enters(w.table, op, t', i) ==> t'.items[i].time == op.now
  {
    hide Distinct, SweptItems, LeastAfter, Mark, Expired;
    if op.Check? && i < w.table.len {
      assert Sweep(w.table, op.now, tm, AllClose()).items[i] == SweptSlot(w.table.items[i], op.now, tm, AllClose());
    }
  }

  /** Over every run: from the operation by which a connection enters a state, and as long as
      nothing but events of that same state concern it, it stays as it is if and only if no
      full sweep comes at or after the time of entry plus the timeout of the state.  So events
      in the busy state it is already in never extend it. */
  lemma Deadline(items: seq<Slot>, ops: seq<Op>, enter: Op, more: seq<Op>, tm: Timeouts, i: nat, timeout: int)
    requires var t, w' := Run(items, ops, tm).table, Run(items, ops + [enter], tm);
             && Allowed(Run(items, ops, tm), enter)
             && Enters(t, enter, w'.table, i)
             && Governs(w'.table.items[i].status, timeout, tm)
             && forall op :: op in more ==> Quiet(op, i, w'.table.items[i].status)
    ensures var s := Run(items, ops + [enter], tm).table.items[i];
            HeldThrough(items, ops + [enter], more, tm, i, s)
            <==> NoSweepSince(items, ops + [enter], more, tm, enter.now + timeout)
  {
    hide Run, Do, Allowed, Quiet, HeldThrough, NoSweepSince, Governs;
    RunKeeps(items, ops, tm);
    RunOne(items, ops, enter, tm);
    EntryTime(Run(items, ops, tm), |items|, enter, i, tm);
    HeldUntilSwept(items, ops + [enter], more, tm, i, Run(items, ops + [enter], tm).table.items[i], timeout);
  }
}

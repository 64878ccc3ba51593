/** What becomes of a slot that a sweep leaves open beyond the mark, whatever `close` does
    before and after: no release reaches it until a new connection overwrites it. */
module SlotLeaks {
  import opened SlotTables
  import opened SlotRuns
  import opened SlotProperties

  /** An operation with the outcomes of `close` during it. */
  datatype Call = Call(op: Op, closes: Closer)

  /** As `Allowed`, but an event may also name an open slot that the mark has left behind. */
  predicate Possible(w: World, op: Op) {
    && w.clock <= op.now < INT_MAX
    && match op
       case Accept(sock, _) =>
         forall i :: 0 <= i < |w.table.items| && Live(w.table, i) ==> w.table.items[i].sock != sock
       case ReadEvent(offset, _) => Open(w.table, offset)
       case WriteEvent(offset, _) => Open(w.table, offset)
       case _ => true
  }

  function RunFrom(w: World, calls: seq<Call>, tm: Timeouts): World {
    if calls == [] then w
    else
      var v, call := RunFrom(w, calls[..|calls| - 1], tm), calls[|calls| - 1];
      if Fits(v.table) && Possible(v, call.op) then World(DoWith(v.table, call.op, tm, call.closes).1, call.op.now)
      else v
  }

  lemma NextFrom(w: World, calls: seq<Call>, tm: Timeouts)
    requires calls != []
    ensures var v, call := RunFrom(w, calls[..|calls| - 1], tm), calls[|calls| - 1];
            RunFrom(w, calls, tm) == if Fits(v.table) && Possible(v, call.op)
                                     then World(DoWith(v.table, call.op, tm, call.closes).1, call.op.now) else v
  {
    hide DoWith, Possible;
  }

  // ------------------------------------------------------------ the slot

  /** The slot is open, at or beyond the mark, with this descriptor. */
  predicate Lost(t: Table, i: nat, sock: int) {
    t.len <= i && Open(t, i) && t.items[i].sock == sock
  }

  /** The call gives slot i to a new connection. */
  predicate Overwrites(w: World, call: Call, i: nat, tm: Timeouts) {
    && Fits(w.table) && Possible(w, call.op) && call.op.Accept?
    && DoWith(w.table, call.op, tm, call.closes).0 == i
  }

  lemma StepLost(w: World, call: Call, tm: Timeouts, i: nat, sock: int)
    requires Fits(w.table) && Possible(w, call.op) && Lost(w.table, i, sock)
    ensures var t' := DoWith(w.table, call.op, tm, call.closes).1;
            Fits(t') && (Lost(t', i, sock) <==> !Overwrites(w, call, i, tm))
  {
    hide SweptItems, LeastAfter, Mark, FirstFree;
  }

  /** The slot is lost, with its descriptor, after each of the calls. */
  ghost predicate LostThrough(w: World, calls: seq<Call>, tm: Timeouts, i: nat, sock: int) {
    forall k :: 0 <= k <= |calls| ==> Lost(RunFrom(w, calls[..k], tm).table, i, sock)
  }

  ghost predicate NeverOverwritten(w: World, calls: seq<Call>, tm: Timeouts, i: nat) {
    forall k :: 0 <= k < |calls| ==> !Overwrites(RunFrom(w, calls[..k], tm), calls[k], i, tm)
  }

  lemma LastLost(w: World, calls: seq<Call>, tm: Timeouts, i: nat, sock: int)
    requires calls != []
    ensures LostThrough(w, calls, tm, i, sock) <==>
              LostThrough(w, calls[..|calls| - 1], tm, i, sock) && Lost(RunFrom(w, calls, tm).table, i, sock)
  {
    hide RunFrom, Lost;
    var n := |calls| - 1;
    assert calls[..|calls|] == calls;
    assert forall k :: 0 <= k <= n ==> calls[..n][..k] == calls[..k];
  }

  lemma LastOverwrite(w: World, calls: seq<Call>, tm: Timeouts, i: nat)
    requires calls != []
    ensures var n := |calls| - 1;
            NeverOverwritten(w, calls, tm, i) <==>
              NeverOverwritten(w, calls[..n], tm, i) && !Overwrites(RunFrom(w, calls[..n], tm), calls[n], i, tm)
  {
    hide RunFrom, Overwrites;
    var n := |calls| - 1;
    assert forall k :: 0 <= k < n ==> calls[..n][..k] == calls[..k] && calls[..n][k] == calls[k];
    if NeverOverwritten(w, calls, tm, i) {
      forall k | 0 <= k < n ensures !Overwrites(RunFrom(w, calls[..n][..k], tm), calls[..n][k], i, tm) {
        assert !Overwrites(RunFrom(w, calls[..k], tm), calls[k], i, tm);
      }
    }
  }

  /** From any table, over every run and for every outcome of `close`: an open slot at or beyond
      the mark stays so, with its descriptor, if and only if no new connection is given it.
      Meanwhile every release of it is refused. */
  lemma {:induction false} LostUntilOverwritten(w: World, calls: seq<Call>, tm: Timeouts, i: nat, sock: int)
    requires Fits(w.table) && Lost(w.table, i, sock)
    ensures LostThrough(w, calls, tm, i, sock) <==> NeverOverwritten(w, calls, tm, i)
    ensures LostThrough(w, calls, tm, i, sock) ==>
              var t := RunFrom(w, calls, tm).table;
              Fits(t) && forall keepalive, now, closes :: Reset(t, i, keepalive, now, closes) == (-1, t)
  {
    hide RunFrom, Overwrites, Possible;
    if calls == [] {
      assert calls[..0] == [] && RunFrom(w, [], tm) == w by {
        NoCalls(w, tm);
      }
    } else {
      var n := |calls| - 1;
      LostUntilOverwritten(w, calls[..n], tm, i, sock);
      LastLost(w, calls, tm, i, sock);
      LastOverwrite(w, calls, tm, i);
      NextFrom(w, calls, tm);
      var v := RunFrom(w, calls[..n], tm);
      if LostThrough(w, calls[..n], tm, i, sock) {
        assert calls[..n][..n] == calls[..n] && Lost(v.table, i, sock);
        if Possible(v, calls[n].op) {
          StepLost(v, calls[n], tm, i, sock);
        } else {
          NotPossible(v, calls[n], tm, i);
        }
      }
    }
  }

  lemma NoCalls(w: World, tm: Timeouts)
    ensures RunFrom(w, [], tm) == w
  {}

  lemma NotPossible(w: World, call: Call, tm: Timeouts, i: nat)
    requires !Possible(w, call.op)
    ensures !Overwrites(w, call, i, tm)
  {}

  // ------------------------------------------------------------ its descriptor

  /** No live slot below the mark holds the descriptor. */
  predicate Unheld(t: Table, sock: int) {
    forall i :: 0 <= i < |t.items| && Live(t, i) ==> t.items[i].sock != sock
  }

  /** The operation calls `close` on the descriptor. */
  predicate Closes(t: Table, op: Op, tm: Timeouts, sock: int)
    requires Fits(t)
  {
    match op
    case Release(offset, keepalive, _) =>
      0 <= offset < t.len && t.items[offset].status != NotUsed && !keepalive && 0 <= sock == t.items[offset].sock
    case Check(now) =>
      !Skips(t, now, tm)
      && exists i :: 0 <= i < t.len && Expired(t.items[i], now, tm) && 0 <= sock == t.items[i].sock
    case _ => false
  }

  lemma StepUnheld(w: World, call: Call, tm: Timeouts, sock: int)
    requires Fits(w.table) && Possible(w, call.op) && Unheld(w.table, sock)
    requires call.op.Accept? ==> call.op.sock != sock
    ensures var t' := DoWith(w.table, call.op, tm, call.closes).1;
            Fits(t') && Unheld(t', sock)
  {
    hide SweptItems, LeastAfter, Mark, Expired;
    var t, t' := w.table, DoWith(w.table, call.op, tm, call.closes).1;
    forall i | 0 <= i < |t'.items| && Live(t', i) ensures t'.items[i].sock != sock {
      if call.op.Check? && i < t.len && !Skips(t, call.op.now, tm) {
        assert t'.items[i] == SweptSlot(t.items[i], call.op.now, tm, call.closes);
      }
    }
  }

  lemma UnheldIsOpen(t: Table, tm: Timeouts, sock: int)
    requires Fits(t) && Unheld(t, sock)
    ensures forall op :: !Closes(t, op, tm, sock)
  {
    hide Skips;
    forall op ensures !Closes(t, op, tm, sock) {
      if op.Check? {
        assert forall i :: 0 <= i < t.len && Expired(t.items[i], op.now, tm) ==> Live(t, i);
      } else if op.Release? && 0 <= op.slot < t.len {
        assert t.items[op.slot].status != NotUsed ==> Live(t, op.slot);
      }
    }
  }

  /** An open descriptor that no live slot holds is never closed: `accept` does not return it,
      so no slot ever holds it again. */
  lemma {:induction false} NeverClosed(w: World, calls: seq<Call>, tm: Timeouts, sock: int)
    requires Fits(w.table) && Unheld(w.table, sock)
    requires forall call :: call in calls && call.op.Accept? ==> call.op.sock != sock
    ensures var t := RunFrom(w, calls, tm).table;
            Fits(t) && Unheld(t, sock) && forall op :: !Closes(t, op, tm, sock)
  {
    hide RunFrom, Possible, DoWith, Closes;
    if calls == [] {
      NoCalls(w, tm);
    } else {
      var n := |calls| - 1;
      NeverClosed(w, calls[..n], tm, sock);
      NextFrom(w, calls, tm);
      var v := RunFrom(w, calls[..n], tm);
      if Possible(v, calls[n].op) {
        StepUnheld(v, calls[n], tm, sock);
      }
    }
    UnheldIsOpen(RunFrom(w, calls, tm).table, tm, sock);
  }

  // ------------------------------------------------------------ stranded slots

  lemma StepDistinct(w: World, call: Call, tm: Timeouts)
    requires Fits(w.table) && Possible(w, call.op) && Distinct(w.table)
    ensures var t' := DoWith(w.table, call.op, tm, call.closes).1;
            Fits(t') && Distinct(t')
  {
    hide SweptItems, LeastAfter, Mark, Expired, Distinct, Sweep;
    var t, t' := w.table, DoWith(w.table, call.op, tm, call.closes).1;
    if call.op.Check? {
      SweepDistinct(t, call.op.now, tm, call.closes);
      SweepFits(t, call.op.now, tm, call.closes);
    } else {
      OtherDistinct(w, call, tm);
    }
  }

  lemma SweepFits(t: Table, now: int, tm: Timeouts, closes: Closer)
    requires Fits(t)
    ensures Fits(Sweep(t, now, tm, closes))
  {}

  lemma OtherDistinct(w: World, call: Call, tm: Timeouts)
    requires Fits(w.table) && Possible(w, call.op) && Distinct(w.table) && !call.op.Check?
    ensures var t' := DoWith(w.table, call.op, tm, call.closes).1;
            Fits(t') && Distinct(t')
  {
    hide CheckTimeout;
    var t, t' := w.table, DoWith(w.table, call.op, tm, call.closes).1;
    forall i | 0 <= i < |t'.items| && Live(t', i)
      ensures if Live(t, i) then t'.items[i].sock == t.items[i].sock
              else call.op.Accept? && t'.items[i].sock == call.op.sock && DoWith(t, call.op, tm, call.closes).0 == i
    {}
  }

  /** Live descriptors stay distinct over every run from the start, even where `close` fails. */
  lemma {:induction false} RunDistinct(items: seq<Slot>, calls: seq<Call>, tm: Timeouts)
    ensures var t := RunFrom(Start(items), calls, tm).table;
            Fits(t) && Distinct(t)
  {
    if calls == [] {
      NoCalls(Start(items), tm);
    } else {
      hide RunFrom, Possible, DoWith, Distinct, Start;
      var n := |calls| - 1;
      RunDistinct(items, calls[..n], tm);
      NextFrom(Start(items), calls, tm);
      var v := RunFrom(Start(items), calls[..n], tm);
      if Possible(v, calls[n].op) {
        StepDistinct(v, calls[n], tm);
      }
    }
  }

  /** A slot that a sweep strands, in any run and whatever `close` did in it: over every
      continuation it keeps its descriptor beyond the mark, and refuses release, until a new
      connection is given it; and no operation ever calls `close` on that descriptor again. */
  lemma StrandedIsLost(items: seq<Slot>, before: seq<Call>, now: int, closes: Closer, after: seq<Call>, tm: Timeouts,
                       i: nat)
    requires var w := RunFrom(Start(items), before, tm);
             Fits(w.table) && Stranded(w.table, i, now, tm, closes)
    requires var sock := RunFrom(Start(items), before, tm).table.items[i].sock;
             forall call :: call in after && call.op.Accept? ==> call.op.sock != sock
    ensures var t := RunFrom(Start(items), before, tm).table;
            var sock := t.items[i].sock;
            var v := World(Sweep(t, now, tm, closes), now);
            && (LostThrough(v, after, tm, i, sock) <==> NeverOverwritten(v, after, tm, i))
            && (LostThrough(v, after, tm, i, sock) ==>
                  var t' := RunFrom(v, after, tm).table;
                  Fits(t') && forall keepalive, later, c :: Reset(t', i, keepalive, later, c) == (-1, t'))
            && Fits(RunFrom(v, after, tm).table)
            && forall op :: !Closes(RunFrom(v, after, tm).table, op, tm, sock)
  {
    hide RunFrom, LostThrough, NeverOverwritten, Start, Closes;
    var t := RunFrom(Start(items), before, tm).table;
    var v := World(Sweep(t, now, tm, closes), now);
    RunDistinct(items, before, tm);
    StrandedSlot(t, now, tm, closes, i);
    LostUntilOverwritten(v, after, tm, i, t.items[i].sock);
    NeverClosed(v, after, tm, t.items[i].sock);
  }

  lemma StrandedSlot(t: Table, now: int, tm: Timeouts, closes: Closer, i: nat)
    requires Fits(t) && Distinct(t) && Stranded(t, i, now, tm, closes)
    ensures var t' := Sweep(t, now, tm, closes);
            Fits(t') && Lost(t', i, t.items[i].sock) && Unheld(t', t.items[i].sock)
  {
    hide SweptItems, LeastAfter, Mark;
    var t' := Sweep(t, now, tm, closes);
    SweepExact(t, now, tm, closes);
    assert t'.items[i] == SweptSlot(t.items[i], now, tm, closes);
    forall k | 0 <= k < |t'.items| && Live(t', k) ensures t'.items[k].sock != t.items[i].sock {
      assert t'.items[k] == SweptSlot(t.items[k], now, tm, closes);
      assert Live(t, k) && Live(t, i) && k != i;
    }
  }

  /** A server with one connection whose `close` fails when it is due: the next connection gets
      its slot, and its descriptor is nowhere in the table any more. */
  lemma OneSlotLost(sock: int, sock': int, now: int, tm: Timeouts)
    requires sock >= 0 && sock' >= 0 && now >= tm.conn
    ensures var t := Table([Slot(sock, 0, Ready)], 1, INT_MAX);
            var t' := Sweep(t, now, tm, _ => false);
            && Stranded(t, 0, now, tm, _ => false) && Lost(t', 0, sock)
            && Insert(t', sock', now) == (0, Table([Slot(sock', now, Ready)], 1, t'.least))
  {
    var t := Table([Slot(sock, 0, Ready)], 1, INT_MAX);
    assert !Kept(t.items[0], now, tm);
    assert Mark(t.items, 0, now, tm) == 0 && Mark(t.items, 1, now, tm) == 0;
    assert Sweep(t, now, tm, _ => false).items == t.items;
    assert t.items[0 := Slot(sock', now, Ready)] == [Slot(sock', now, Ready)];
  }
}

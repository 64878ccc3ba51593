/** The connection slots of base_server_impl.h: a first-fit allocator with a high-water mark,
    a timeout sweep that lowers the mark, and a cached time bound that lets the sweep be
    skipped.  The functions say what each operation does to the table; the class does it. */
module SlotTables {

  const INT_MAX := 0x7fff_ffff

  datatype Status = NotUsed | Ready | ReadBusy | Busy | WriteBusy

  datatype Slot = Slot(sock: int, time: int, status: Status)

  /** `min` is `min_timeout`, which Init never assigns. */
  datatype Timeouts = Timeouts(conn: int, read: int, write: int, min: int)

  datatype Table = Table(items: seq<Slot>, len: nat, least: int)

  /** Which descriptors `close` manages to close, EINTR retries included. */
  type Closer = int -> bool

  predicate Fits(t: Table) {
    t.len <= |t.items|
  }

  predicate Live(t: Table, i: nat) {
    i < t.len && i < |t.items| && t.items[i].status != NotUsed
  }

  // ------------------------------------------------------------ allocation

  /** First unused slot below the mark, the mark itself when there is none. */
  function FirstFree(items: seq<Slot>, len: nat, from: nat): (r: nat)
    requires from <= len <= |items|
    ensures from <= r <= len
    ensures r < len ==> items[r].status == NotUsed
    ensures forall k :: from <= k < r ==> items[k].status != NotUsed
    decreases len - from
  {
    if from == len || items[from].status == NotUsed then from else FirstFree(items, len, from + 1)
  }

  function GetOffset(t: Table): (int, Table)
    requires Fits(t)
  {
    var r: int := FirstFree(t.items, t.len, 0);
    if r < t.len then (r, t) else if t.len == |t.items| then (-1, t) else (r, t.(len := t.len + 1))
  }

  function Insert(t: Table, sock: int, now: int): (int, Table)
    requires Fits(t)
  {
    if sock < 0 then (-1, t)
    else
      var (r, t') := GetOffset(t);
      if r == -1 then (-1, t') else (r, t'.(items := t'.items[r := Slot(sock, now, Ready)]))
  }

  function Reset(t: Table, offset: int, keepalive: bool, now: int, closes: Closer): (int, Table)
    requires Fits(t)
  {
    if offset < 0 || offset >= t.len then (-1, t)
    else
      var s := t.items[offset];
      if s.status == NotUsed then (0, t)
      else if s.sock < 0 then (-1, t)
      else if keepalive then (0, t.(items := t.items[offset := s.(status := Ready, time := now)]))
      else if !closes(s.sock) then (-1, t)
      else (0, t.(items := t.items[offset := s.(status := NotUsed, sock := -1)]))
  }

  // ------------------------------------------------------------ the sweep

  predicate Expired(s: Slot, now: int, tm: Timeouts) {
    match s.status
    case Ready => now >= s.time + tm.conn
    case ReadBusy => now >= s.time + tm.read
    case WriteBusy => now >= s.time + tm.write
    case _ => false
  }

  predicate Kept(s: Slot, now: int, tm: Timeouts) {
    s.status != NotUsed && !Expired(s, now, tm)
  }

  /** What a sweep makes of one slot. */
  function SweptSlot(s: Slot, now: int, tm: Timeouts, closes: Closer): Slot {
    if s.status == Busy then s.(time := now)
    else if Expired(s, now, tm) && s.sock >= 0 && closes(s.sock) then s.(status := NotUsed, sock := -1)
    else s
  }

  function SweptItems(items: seq<Slot>, n: nat, now: int, tm: Timeouts, closes: Closer): (r: seq<Slot>)
    requires n <= |items|
    ensures |r| == |items|
    ensures forall k :: 0 <= k < n ==> r[k] == SweptSlot(items[k], now, tm, closes)
    ensures forall k :: n <= k < |items| ==> r[k] == items[k]
  {
    seq(|items|, k requires 0 <= k < |items| => if k < n then SweptSlot(items[k], now, tm, closes) else items[k])
  }

  /** The cached bound after the first n slots: the timed slots that stay pull it down. */
  function LeastAfter(least: int, items: seq<Slot>, n: nat, now: int, tm: Timeouts): int
    requires n <= |items|
  {
    if n == 0 then least
    else
      var r := LeastAfter(least, items, n - 1, now, tm);
      var s := items[n - 1];
      if Kept(s, now, tm) && s.status != Busy && r > s.time then s.time else r
  }

  lemma {:induction false} LeastIs(least: int, items: seq<Slot>, n: nat, now: int, tm: Timeouts)
    requires n <= |items|
    ensures var r := LeastAfter(least, items, n, now, tm);
            && r <= least
            && (r == least || exists k :: 0 <= k < n && items[k].time == r && Kept(items[k], now, tm))
            && forall k :: 0 <= k < n && Kept(items[k], now, tm) && items[k].status != Busy ==> r <= items[k].time
  {
    if n > 0 {
      hide Kept;
      LeastIs(least, items, n - 1, now, tm);
    }
  }

  /** One past the last kept slot among the first n. */
  function Mark(items: seq<Slot>, n: nat, now: int, tm: Timeouts): (r: nat)
    requires n <= |items|
    ensures r <= n
    ensures r > 0 ==> Kept(items[r - 1], now, tm)
    ensures forall k :: r <= k < n ==> !Kept(items[k], now, tm)
  {
    if n == 0 then 0 else if Kept(items[n - 1], now, tm) then n else Mark(items, n - 1, now, tm)
  }

  function Sweep(t: Table, now: int, tm: Timeouts, closes: Closer): Table
    requires Fits(t)
  {
    Table(SweptItems(t.items, t.len, now, tm, closes),
          Mark(t.items, t.len, now, tm),
          LeastAfter(t.least, t.items, t.len, now, tm))
  }

  lemma SweepUnfolds(t: Table, i: nat, now: int, tm: Timeouts, closes: Closer)
    requires Fits(t) && i < t.len
    ensures SweptItems(t.items, i + 1, now, tm, closes) ==
            SweptItems(t.items, i, now, tm, closes)[i := SweptSlot(t.items[i], now, tm, closes)]
    ensures SweptItems(t.items, i, now, tm, closes)[i] == t.items[i]
    ensures SweptItems(t.items, 0, now, tm, closes) == t.items
  {
    hide SweptSlot;
  }

  lemma SweptNothing(items: seq<Slot>, now: int, tm: Timeouts, closes: Closer)
    ensures SweptItems(items, 0, now, tm, closes) == items
  {
    hide SweptSlot;
  }

  predicate Skips(t: Table, now: int, tm: Timeouts) {
    t.least != INT_MAX && now - t.least <= tm.min
  }

  function CheckTimeout(t: Table, now: int, tm: Timeouts, closes: Closer): (int, Table)
    requires Fits(t)
  {
    if Skips(t, now, tm) then (0, t)
    else if t.len == 0 then (-1, t)
    else (0, Sweep(t, now, tm, closes))
  }

  // ------------------------------------------------------------ the class

  class SlotTable {
    const items: array<Slot>
    const tm: Timeouts
    var len: nat
    var least: int

    ghost function Contents(): Table
      reads this, items
    {
      Table(items[..], len, least)
    }

    /** Init: the contents of the array are whatever the allocation left there. */
    constructor (items: array<Slot>, tm: Timeouts)
      ensures this.items == items && this.tm == tm
      ensures Contents() == Table(items[..], 0, INT_MAX)
    {
      this.items, this.tm, len, least := items, tm, 0, INT_MAX;
    }

    method GetFreeOffset() returns (r: int)
      requires Fits(Contents())
      modifies this`len
      ensures (r, Contents()) == GetOffset(old(Contents()))
    {
      var i := 0;
      while i < len
        invariant i <= len <= items.Length
        invariant FirstFree(items[..], len, 0) == FirstFree(items[..], len, i)
      {
        if items[i].status == NotUsed {
          return i;
        }
        i := i + 1;
      }
      if len >= items.Length {
        return -1;
      }
      r := len;
      len := len + 1;
    }

    method InsertItem(sock: int, now: int) returns (r: int)
      requires Fits(Contents())
      modifies this`len, items
      ensures (r, Contents()) == Insert(old(Contents()), sock, now)
    {
      if sock < 0 {
        return -1;
      }
      r := GetFreeOffset();
      if r == -1 {
        return -1;
      }
      items[r] := Slot(sock, now, Ready);
    }

    method ResetItem(offset: int, keepalive: bool, now: int, closes: Closer) returns (r: int)
      requires Fits(Contents())
      modifies items
      ensures (r, Contents()) == Reset(old(Contents()), offset, keepalive, now, closes)
      ensures r == 0 || r == -1
      ensures r == 0 <==>
                && 0 <= offset < len
                && var s := old(items[..])[offset];
                   s.status == NotUsed || (s.sock >= 0 && (keepalive || closes(s.sock)))
      ensures r == -1 ==> items[..] == old(items[..])
    {
      if offset < 0 || offset >= len {
        return -1;
      }
      if items[offset].status == NotUsed {
        return 0;
      }
      if items[offset].sock < 0 {
        return -1;
      }
      if !keepalive {
        if !closes(items[offset].sock) {
          return -1;
        }
        items[offset] := items[offset].(status := NotUsed, sock := -1);
      } else {
        items[offset] := items[offset].(status := Ready, time := now);
      }
      r := 0;
    }

    /** One iteration of the sweep; `last` is `last_active_offset`. */
    method SweepOne(i: nat, last: int, now: int, closes: Closer) returns (next: int)
      requires Fits(Contents()) && i < len
      modifies this`least, items
      ensures var s := old(items[i]);
              && items[..] == old(items[..])[i := SweptSlot(s, now, tm, closes)]
              && least == (if Kept(s, now, tm) && s.status != Busy && old(least) > s.time then s.time else old(least))
              && next == if Kept(s, now, tm) then i else last
    {
      next := last;
      if items[i].status == Busy {
        items[i] := items[i].(time := now);
        next := i;
      } else if items[i].status != NotUsed {
        var timeout := match items[i].status
          case ReadBusy => tm.read
          case WriteBusy => tm.write
          case _ => tm.conn;
        if now >= items[i].time + timeout {
          var _ := ResetItem(i, false, now, closes);
        } else {
          if least > items[i].time {
            least := items[i].time;
          }
          next := i;
        }
      }
    }

    /** The loop of check_timeout over all slots below the mark. */
    method SweepAll(now: int, closes: Closer) returns (last: int)
      requires Fits(Contents())
      modifies this`least, items
      ensures var t := old(Contents());
              && items[..] == SweptItems(t.items, t.len, now, tm, closes)
              && least == LeastAfter(t.least, t.items, t.len, now, tm)
              && last + 1 == Mark(t.items, t.len, now, tm)
    {
      hide Kept, SweptSlot, SweptItems, Expired;
      ghost var t := Contents();
      var i := 0;
      last := -1;
      if len > 0 {
        SweepUnfolds(t, 0, now, tm, closes);
      } else {
        SweptNothing(t.items, now, tm, closes);
      }
      while i < len
        invariant i <= len == t.len <= items.Length
        invariant items[..] == SweptItems(t.items, i, now, tm, closes)
        invariant least == LeastAfter(t.least, t.items, i, now, tm)
        invariant last + 1 == Mark(t.items, i, now, tm)
      {
        SweepUnfolds(t, i, now, tm, closes);
        assert items[i] == items[..][i];
        last := SweepOne(i, last, now, closes);
        i := i + 1;
      }
    }

    method CheckTimeouts(now: int, closes: Closer) returns (r: int)
      requires Fits(Contents())
      modifies this`len, this`least, items
      ensures (r, Contents()) == CheckTimeout(old(Contents()), now, tm, closes)
      ensures r == 0 || r == -1
      ensures r == -1 <==> old(len) == 0 && !(old(least) != INT_MAX && now - old(least) <= tm.min)
    {
      hide SweptItems, LeastAfter, Mark;
      if least != INT_MAX && now - least <= tm.min {
        return 0;
      }
      if len <= 0 {
        return -1;
      }
      var last := SweepAll(now, closes);
      len := last + 1;
      r := 0;
    }
  }
}

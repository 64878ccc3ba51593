/** SimpleQueue of simple_queue.h: a ring of `queue_size_` cells that holds one element less.
    `get_` and `put_` are int and `queue_size_` is unsigned, so the index expressions are
    computed modulo 2^32. */
module RingQueues {

  const INT_MAX := 0x7fff_ffff
  const TWO32 := 0x1_0000_0000

  /** Conversion to a 32-bit unsigned value. */
  function Unsigned(x: int): (u: nat)
    ensures u < TWO32
  {
    x % TWO32
  }

  /** `(put_ - get_ + queue_size_) % queue_size_` with its conversions. */
  function LenExpr(get: int, put: int, size: nat): int
    requires size > 0
  {
    Unsigned(Unsigned(put - get) + size) % size
  }

  /** `(i + 1 + queue_size_) % queue_size_` with its conversions. */
  function NextExpr(i: int, size: nat): int
    requires size > 0
  {
    Unsigned(Unsigned(i + 1) + size) % size
  }

  lemma ModOnce(a: nat, m: nat)
    requires a < m
    ensures a % m == a && (a + m) % m == a
  {
    var q, r := (a + m) / m, (a + m) % m;
    assert m * q + r == a + m && 0 <= r < m;
    assert q <= 0 ==> m * q <= 0;
    assert q >= 2 ==> m * q >= 2 * m;
    assert q == 1;
  }

  /** The wrap-around of a negative difference cancels when the size is added. */
  lemma LenExprIsDistance(get: int, put: int, size: nat)
    requires 0 <= get < size <= INT_MAX && 0 <= put < size
    ensures LenExpr(get, put, size) == if get <= put then put - get else put - get + size
  {
    if get <= put {
      assert Unsigned(Unsigned(put - get) + size) == put - get + size;
      ModOnce(put - get, size);
    } else {
      assert Unsigned(Unsigned(put - get) + size) == put - get + size;
      ModOnce(put - get + size, size);
    }
  }

  lemma NextExprIsSuccessor(i: int, size: nat)
    requires 0 <= i < size <= INT_MAX
    ensures NextExpr(i, size) == (if i + 1 == size then 0 else i + 1)
    ensures Unsigned(i + 1) % size == (if i + 1 == size then 0 else i + 1)
  {
    assert Unsigned(i + 1) == i + 1 && Unsigned(i + 1 + size) == i + 1 + size;
    if i + 1 == size {
      ModOnce(0, size);
      ModTwice(size);
    } else {
      ModOnce(i + 1, size);
    }
  }

  lemma ModTwice(m: nat)
    requires m > 0
    ensures (m + m) % m == 0
  {
    var q, r := (m + m) / m, (m + m) % m;
    assert m * q + r == m + m && 0 <= r < m;
    assert q <= 1 ==> m * q <= m;
    assert q >= 3 ==> m * q >= 3 * m;
    assert q == 2;
  }

  /** The elements of a ring, oldest first. */
  function Ring(cells: seq<int>, get: int, put: int): seq<int>
    requires 0 <= get < |cells| && 0 <= put < |cells|
  {
    if get <= put then cells[get..put] else cells[get..] + cells[..put]
  }

  lemma PushRing(cells: seq<int>, get: int, put: int, val: int)
    requires 0 <= get < |cells| && 0 <= put < |cells|
    requires |Ring(cells, get, put)| < |cells| - 1
    ensures Ring(cells[put := val], get, if put + 1 == |cells| then 0 else put + 1) == Ring(cells, get, put) + [val]
  {}

  lemma PopRing(cells: seq<int>, get: int, put: int)
    requires 0 <= get < |cells| && 0 <= put < |cells| && get != put
    ensures Ring(cells, get, put) == [cells[get]] + Ring(cells, if get + 1 == |cells| then 0 else get + 1, put)
  {}

  class SimpleQueue {
    var data: array<int>
    var get: int
    var put: int
    const size: nat

    ghost predicate Valid()
      reads this
    {
      0 < size <= INT_MAX && data.Length == size && 0 <= get < size && 0 <= put < size
    }

    /** The elements, oldest first. */
    ghost function Contents(): seq<int>
      reads this, data
      requires Valid()
    {
      Ring(data[..], get, put)
    }

    /** SimpleQueue(size) followed by a successful Init. */
    constructor (size: nat)
      requires 0 < size <= INT_MAX
      ensures Valid() && fresh(data) && Contents() == [] && this.size == size
    {
      this.size, get, put := size, 0, 0;
      data := new int[size];
    }

    method Len() returns (n: int)
      requires Valid()
      ensures n == |Contents()|
    {
      LenExprIsDistance(get, put, size);
      n := LenExpr(get, put, size);
    }

    method Full() returns (b: bool)
      requires Valid()
      ensures b <==> |Contents()| == size - 1
    {
      NextExprIsSuccessor(put, size);
      var nextPut := Unsigned(put + 1) % size;
      b := nextPut == get;
    }

    method Empty() returns (b: bool)
      requires Valid()
      ensures b <==> Contents() == []
    {
      b := get == put;
    }

    /** Appends unless size - 1 elements are stored; then nothing changes. */
    method Push(val: int) returns (ok: bool)
      requires Valid()
      modifies this`put, data
      ensures Valid() && ok == (|old(Contents())| < size - 1)
      ensures Contents() == if ok then old(Contents()) + [val] else old(Contents())
    {
      var full := Full();
      if full {
        return false;
      }
      PushRing(data[..], get, put, val);
      NextExprIsSuccessor(put, size);
      data[put] := val;
      put := NextExpr(put, size);
      ok := true;
    }

    /** Removes and returns the oldest element, if there is one. */
    method Pop() returns (ok: bool, val: int)
      requires Valid()
      modifies this`get
      ensures Valid() && ok == (old(Contents()) != [])
      ensures ok ==> val == old(Contents())[0] && Contents() == old(Contents())[1..]
      ensures !ok ==> Contents() == old(Contents())
    {
      val := 0;
      if get == put {
        return false, val;
      }
      PopRing(data[..], get, put);
      val := data[get];
      NextExprIsSuccessor(get, size);
      get := NextExpr(get, size);
      ok := true;
    }
  }
}

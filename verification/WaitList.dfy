/** wait_list.hpp: the bounded list that producers and workers share.  Each operation runs
    under one mutex, so it is one atomic step; the functions say what the step does. */
module WaitLists {

  const MAX_LIST_OBJECT := 5000

  datatype List<T> = List(nodes: seq<T>, num: int, alive: bool)

  /** What `get_from_head` does: it stays in its wait loop, returns NULL, or pops the head. */
  datatype Taken<T> = Blocked | Null | Got(node: T)

  predicate Consistent<T>(l: List<T>) {
    l.num == |l.nodes| <= MAX_LIST_OBJECT
  }

  predicate HasRoom<T>(l: List<T>) {
    l.alive && l.num < MAX_LIST_OBJECT
  }

  function Put<T>(l: List<T>, t: T): List<T> {
    if HasRoom(l) then l.(nodes := l.nodes + [t], num := l.num + 1) else l
  }

  function PutFront<T>(l: List<T>, t: T): List<T> {
    if HasRoom(l) then l.(nodes := [t] + l.nodes, num := l.num + 1) else l
  }

  function Take<T>(l: List<T>): (Taken<T>, List<T>)
    requires Consistent(l)
  {
    if !l.alive then (Null, l)
    else if l.num == 0 then (Blocked, l)
    else (Got(l.nodes[0]), l.(nodes := l.nodes[1..], num := l.num - 1))
  }

  /** Putting back the task just taken restores the list. */
  lemma PutFrontUndoesTake<T>(l: List<T>)
    requires Consistent(l) && l.alive && l.num > 0
    ensures var (r, rest) := Take(l);
            r.Got? && PutFront(rest, r.node) == l
  {
    assert [l.nodes[0]] + l.nodes[1..] == l.nodes;
  }

  class WaitList<T> {
    var nodes: seq<T>
    var num: int
    var alive: bool

    ghost function Contents(): List<T>
      reads this
    {
      List(nodes, num, alive)
    }

    constructor ()
      ensures Contents() == List([], 0, true)
    {
      nodes, num, alive := [], 0, true;
    }

    method PutNode(node: T)
      requires Consistent(Contents())
      modifies this
      ensures Consistent(Contents())
      ensures Contents() == Put(old(Contents()), node)
      ensures nodes == if old(alive) && |old(nodes)| < 5000 then old(nodes) + [node] else old(nodes)
    {
      if alive && num < MAX_LIST_OBJECT {
        nodes := nodes + [node];
        num := num + 1;
      }
    }

    method PutNodeFront(node: T)
      requires Consistent(Contents())
      modifies this
      ensures Consistent(Contents())
      ensures Contents() == PutFront(old(Contents()), node)
      ensures nodes == if old(alive) && |old(nodes)| < 5000 then [node] + old(nodes) else old(nodes)
    {
      if alive && num < MAX_LIST_OBJECT {
        nodes := [node] + nodes;
        num := num + 1;
      }
    }

    /** One pass of the monitor: `Blocked` is the condition wait. */
    method GetFromHead() returns (r: Taken<T>)
      requires Consistent(Contents())
      modifies this
      ensures Consistent(Contents())
      ensures (r, Contents()) == Take(old(Contents()))
      ensures alive == old(alive) && (r.Null? <==> !alive) && (r.Blocked? <==> alive && old(nodes) == [])
      ensures if r.Got? then old(nodes) == [r.node] + nodes else nodes == old(nodes)
    {
      if alive && num == 0 {
        return Blocked;
      }
      if alive {
        r := Got(nodes[0]);
        nodes := nodes[1..];
        num := num - 1;
      } else {
        r := Null;
      }
    }

    method Flush()
      modifies this
      ensures Contents() == old(Contents()).(alive := false)
    {
      alive := false;
    }
  }
}

/** The single-producer single-consumer ring (inc/SpscQueue.hpp), one operation at a time. */
module SpscQueue {
  import opened Shared

  class Queue<T(0)> {
    const slots: array<T>
    var head: nat
    var tail: nat

    ghost predicate Valid()
      reads this
    {
      slots.Length >= 2 && head < slots.Length && tail < slots.Length
    }

    /** One slot stays empty, so that equal indices mean empty. */
    ghost function Capacity(): nat
      reads this
      requires Valid()
    {
      slots.Length - 1
    }

    ghost function Contents(): (s: seq<T>)
      reads this, slots
      requires Valid()
      ensures |s| <= Capacity()
    {
      if tail <= head then slots[tail..head] else slots[tail..] + slots[..head]
    }

    function Next(i: nat): nat
      reads this
    {
      if i + 1 == slots.Length then 0 else i + 1
    }

    constructor Sized(n: nat)
      requires n >= 2
      ensures Valid() && fresh(slots) && slots.Length == n && Contents() == []
    {
      slots := new T[n];
      head := 0;
      tail := 0;
    }

    /** The constructor; null where it throws on a capacity of zero or the largest size. */
    static method Make(capacity: word64) returns (q: Queue?<T>)
      ensures q == null <==> capacity == 0 || capacity as int == TWO_64 - 1
      ensures q != null ==>
                fresh(q) && q.Valid() && fresh(q.slots) && q.Capacity() == capacity && q.Contents() == []
    {
      if capacity == 0 || capacity as int == TWO_64 - 1 { return null; }
      q := new Queue<T>.Sized(capacity as int + 1);
    }

    method TryPush(value: T) returns (ok: bool)
      requires Valid()
      modifies this`head, slots
      ensures Valid()
      ensures ok <==> |old(Contents())| < Capacity()
      ensures Contents() == if ok then old(Contents()) + [value] else old(Contents())
    {
      var h := head;
      var next := Next(h);
      if next == tail { return false; }
      slots[h] := value;
      head := next;
      return true;
    }

    method TryPop() returns (r: Option<T>)
      requires Valid()
      modifies this`tail
      ensures Valid()
      ensures r.None? <==> old(Contents()) == []
      ensures if r.Some? then old(Contents()) == [r.value] + Contents() else Contents() == old(Contents())
    {
      var t := tail;
      if t == head { return None; }
      r := Some(slots[t]);
      tail := Next(t);
    }
  }
}

/** The ring queues of AnchorCom: sixteen slots, a head and a tail index, refining a FIFO of at most fifteen entries. */
module AnchorComRing {
  import opened Bytes

  const SIZE: nat := 16

  /** Contents of the ring between head and tail. */
  ghost function Between<T>(slots: seq<T>, head: nat, tail: nat): seq<T>
    requires |slots| == SIZE && head < SIZE && tail < SIZE
  {
    if head <= tail then slots[head..tail] else slots[head..] + slots[..tail]
  }

  class Ring<T> {
    const slots: array<T>
    var head: nat
    var tail: nat

    ghost predicate Valid()
      reads this
    {
      slots.Length == SIZE && head < SIZE && tail < SIZE
    }

    ghost function Contents(): (q: seq<T>)
      requires Valid()
      reads this, slots
      ensures |q| < SIZE
    {
      Between(slots[..], head, tail)
    }

    constructor (filler: T)
      ensures Valid() && Contents() == [] && fresh(slots)
    {
      slots := new T[SIZE](_ => filler);
      head, tail := 0, 0;
    }

    /** rbdAnchorComTp_GetTxQueueHead and rbdAnchorComTp_GetRxQueueHead */
    method Head() returns (x: Option<T>)
      requires Valid()
      ensures x == if Contents() == [] then None else Some(Contents()[0])
    {
      x := if tail == head then None else Some(slots[head]);
    }

    /** rbdAnchorComTp_RemoveTxQueueHead and rbdAnchorComTp_RemoveRxQueueHead */
    method RemoveHead() returns (ret: Result)
      requires Valid()
      modifies this
      ensures Valid() && ret == if old(Contents()) == [] then NotOk else Ok
      ensures Contents() == if old(Contents()) == [] then [] else old(Contents())[1..]
    {
      ret := Ok;
      if tail == head {
        ret := NotOk;
      } else {
        head := (head + 1) % SIZE;
      }
    }

    /** rbdAnchorComTp_AddTxQueue and rbdAnchorComTp_AddRxQueue: one slot always stays free. */
    method Add(x: T) returns (ret: Result)
      requires Valid()
      modifies this, slots
      ensures Valid() && ret == if |old(Contents())| == SIZE - 1 then NotOk else Ok
      ensures Contents() == if ret == NotOk then old(Contents()) else old(Contents()) + [x]
    {
      ret := Ok;
      if (tail + 1) % SIZE == head {
        ret := NotOk;
      } else {
        slots[tail] := x;
        tail := (tail + 1) % SIZE;
      }
    }
  }
}

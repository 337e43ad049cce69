/** The double-buffered queue called by one thread at a time, so that its flags, words and
    swaps come down to a bounded FIFO (core/block/DBQueue.hpp).  DBQueueProtocol has the same queue
    under concurrency. */
module DBQueue {
  import opened Wrappers
  import Protocol = DBQueueProtocol

  /** A moved-from payload is None, as a moved-from shared_ptr is null. */
  class Queue<T> {
    const qlen: nat
    const valid: array2<bool>
    const payload: array2<Option<T>>
    var pointer: nat
    var full: bool
    var read: nat
    var consumerQ: nat
    var fullSlots: nat
    ghost var batch: seq<T>     // taken over by the consumer and not read yet
    ghost var waiting: seq<T>   // pushed since the last swap

    /** The part of the invariant in which no slot plays a role. */
    ghost predicate Shaped()
      reads this
    {
      && 1 <= qlen < Protocol.SLOT_LIMIT
      && valid.Length0 == payload.Length0 == 2 && valid.Length1 == payload.Length1 == qlen
      && consumerQ < 2 && read <= fullSlots <= qlen
      && (1 - consumerQ) * Protocol.SLOT_LIMIT <= pointer <= (1 - consumerQ) * Protocol.SLOT_LIMIT + qlen
      && (full <==> Taken() == qlen)
    }

    /** Slots handed out on the producers' side. */
    function Taken(): int
      reads this
    {
      pointer - (1 - consumerQ) * Protocol.SLOT_LIMIT
    }

    /** The slots of buffer q from `from` on are published and hold s; those after them are free. */
    ghost predicate Side(q: nat, from: nat, s: seq<T>)
      requires q < 2 && from + |s| <= qlen
      requires valid.Length0 == payload.Length0 == 2 && valid.Length1 == payload.Length1 == qlen
      reads valid, payload
    {
      && (forall i :: from <= i < from + |s| ==> valid[q, i] && payload[q, i] == Some(s[i - from]))
      && (forall i :: from + |s| <= i < qlen ==> !valid[q, i])
    }

    ghost predicate Valid()
      reads this, valid, payload
    {
      && Shaped()
      && |batch| == fullSlots - read && |waiting| == Taken()
      && Side(consumerQ, read, batch) && Side(1 - consumerQ, 0, waiting)
    }

    /** The queue as its clients see it. */
    ghost function Contents(): seq<T>
      reads this`batch, this`waiting
    {
      batch + waiting
    }

    constructor (qlen: nat)
      requires 1 <= qlen < Protocol.SLOT_LIMIT
      ensures Valid() && fresh(valid) && fresh(payload)
      ensures this.qlen == qlen && Contents() == []
    {
      this.qlen := qlen;
      valid := new bool[2, qlen]((_, _) => false);
      payload := new Option<T>[2, qlen]((_, _) => None);
      pointer, full, read, consumerQ, fullSlots := 0, false, 0, 1, 0;
      batch, waiting := [], [];
    }

    method Push(x: T) returns (ok: bool)
      requires Valid()
      modifies this, valid, payload
      ensures Valid()
      ensures ok == (old(|waiting|) < qlen)
      ensures batch == old(batch) && waiting == if ok then old(waiting) + [x] else old(waiting)
      ensures Contents() == if ok then old(Contents()) + [x] else old(Contents())
    {
      if full { return false; }
      var q, slot := pointer / Protocol.SLOT_LIMIT, pointer % Protocol.SLOT_LIMIT;
      pointer := pointer + 1;
      if slot >= qlen - 1 {
        if slot == qlen - 1 { full := true; } else { return false; }
      }
      payload[q, slot] := Some(x);
      valid[q, slot] := true;
      waiting := waiting + [x];
      return true;
    }

    /** The slots of the batch become free again; the other buffer is not touched. */
    method ClearFlags()
      requires Shaped()
      modifies valid
      ensures forall k :: 0 <= k < fullSlots ==> !valid[consumerQ, k]
      ensures forall k :: fullSlots <= k < qlen ==> valid[consumerQ, k] == old(valid[consumerQ, k])
      ensures var other := 1 - consumerQ; forall k :: 0 <= k < qlen ==> valid[other, k] == old(valid[other, k])
    {
      var i, q, other := 0, consumerQ, 1 - consumerQ;
      while i < fullSlots
        invariant 0 <= i <= fullSlots
        invariant forall k :: 0 <= k < i ==> !valid[q, k]
        invariant forall k :: i <= k < qlen ==> valid[q, k] == old(valid[q, k])
        invariant forall k :: 0 <= k < qlen ==> valid[other, k] == old(valid[other, k])
      {
        valid[q, i] := false;
        i := i + 1;
      }
    }

    method SwapQueues()
      requires Valid() && read == fullSlots
      modifies this, valid
      ensures Valid() && read == 0
      ensures batch == old(waiting) && waiting == []
    {
      ClearFlags();
      assert Side(1 - consumerQ, 0, waiting) && Side(consumerQ, 0, []);
      var newPointer, oldPointer := consumerQ * Protocol.SLOT_LIMIT, pointer;
      assert oldPointer % Protocol.SLOT_LIMIT == Taken();
      consumerQ := if consumerQ == 0 then 1 else 0;
      pointer := newPointer;
      full := false;
      fullSlots := if oldPointer % Protocol.SLOT_LIMIT < qlen then oldPointer % Protocol.SLOT_LIMIT else qlen;
      read := 0;
      batch, waiting := waiting, [];
    }

    method Consume() returns (x: Option<T>)
      requires Valid()
      modifies this, payload
      ensures Valid() && waiting == old(waiting)
      ensures x.Some? == (old(batch) != [])
      ensures x.None? ==> read == fullSlots && batch == []
      ensures x.Some? ==> x.value == old(batch)[0] && batch == old(batch)[1..]
    {
      if read < fullSlots {
        // one look is enough: every slot of the batch is published
        assert valid[consumerQ, read];
        var index := read;
        read := read + 1;
        x := payload[consumerQ, index];
        payload[consumerQ, index] := None;
        batch := batch[1..];
      } else {
        x := None;
      }
    }

    method Pop() returns (x: Option<T>)
      requires Valid()
      modifies this, valid, payload
      ensures Valid()
      ensures x.Some? == (old(Contents()) != [])
      ensures x.Some? ==> x.value == old(Contents())[0] && Contents() == old(Contents())[1..]
      ensures x.None? ==> Contents() == []
    {
      x := Consume();
      if x.None? {
        SwapQueues();
        x := Consume();
      }
    }

    /** Not to be called beside push or pop: everything is dropped. */
    method Reset()
      requires Valid()
      modifies this, valid, payload
      ensures Valid() && Contents() == []
      ensures pointer == 0 && consumerQ == 1 && read == 0 && fullSlots == 0 && !full
    {
      var q := 0;
      while q < 2
        modifies valid, payload
        invariant 0 <= q <= 2
        invariant forall p, k :: 0 <= p < q && 0 <= k < qlen ==> !valid[p, k]
      {
        var i := 0;
        while i < qlen
          modifies valid, payload
          invariant 0 <= i <= qlen
          invariant forall k :: 0 <= k < i ==> !valid[q, k]
          invariant forall p, k :: 0 <= p < q && 0 <= k < qlen ==> !valid[p, k]
        {
          if valid[q, i] {
            payload[q, i] := None;
            valid[q, i] := false;
          }
          i := i + 1;
        }
        q := q + 1;
      }
      full, pointer, consumerQ, read, fullSlots := false, 0, 1, 0, 0;
      batch, waiting := [], [];
    }

    /** This queue has a flag set on a slot that is free in the other. */
    ghost predicate Stale(other: Queue<T>)
      requires Shaped() && other.Shaped() && other.qlen == qlen
      reads this, valid, other
    {
      exists q: nat, i: nat :: q < 2 && other.Used(q) <= i < qlen && valid[q, i]
    }

    function Used(q: nat): int
      reads this
    {
      if q == consumerQ then fullSlots else Taken()
    }

    /** Move assignment copies the set flags and clears none of its own: the target is a sound queue
        exactly when it had no flag set on a slot free in the source. */
    method Assign(other: Queue<T>)
      requires Shaped() && other.Valid() && other != this && other.qlen == qlen
      requires other.valid != valid && other.payload != payload
      modifies this, valid, payload, other.payload
      ensures Contents() == old(other.Contents())
      ensures Valid() <==> !old(Stale(other))
    {
      pointer, read, consumerQ, fullSlots, full :=
        other.pointer, other.read, other.consumerQ, other.fullSlots, other.full;
      batch, waiting := other.batch, other.waiting;
      MoveBuffer(other, 0);
      MoveBuffer(other, 1);
      SoundUnlessStale(other);
    }

    /** The state right after the two buffers were moved over. */
    twostate predicate TookOver(other: Queue<T>)
      reads this, valid, payload, other, other.valid
    {
      && old(Shaped()) && old(other.Valid()) && other.qlen == qlen && unchanged(other) && unchanged(other.valid)
      && (pointer, read, consumerQ) == (other.pointer, other.read, other.consumerQ)
      && (fullSlots, full, batch, waiting) == (other.fullSlots, other.full, other.batch, other.waiting)
      && (forall q, k :: 0 <= q < 2 && 0 <= k < qlen ==> valid[q, k] == (old(valid[q, k]) || other.valid[q, k]))
      && (forall q, k :: 0 <= q < 2 && 0 <= k < qlen && other.valid[q, k] ==> payload[q, k] == old(other.payload[q, k]))
    }

    twostate lemma SoundUnlessStale(other: Queue<T>)
      requires TookOver(other)
      ensures Valid() <==> !old(Stale(other))
    {
    }

    method MoveBuffer(other: Queue<T>, q: nat)
      requires q < 2 && Shaped() && other.Shaped() && other != this && other.qlen == qlen
      requires other.valid != valid && other.payload != payload
      modifies valid, payload, other.payload
      ensures forall k :: 0 <= k < qlen ==> valid[q, k] == (old(valid[q, k]) || other.valid[q, k])
      ensures forall k :: 0 <= k < qlen && other.valid[q, k] ==> payload[q, k] == old(other.payload[q, k])
      ensures forall p, k :: 0 <= p < 2 && p != q && 0 <= k < qlen ==>
                && valid[p, k] == old(valid[p, k]) && payload[p, k] == old(payload[p, k])
                && other.payload[p, k] == old(other.payload[p, k])
    {
      var i := 0;
      while i < qlen
        modifies valid, payload, other.payload
        invariant 0 <= i <= qlen
        invariant forall k :: 0 <= k < i ==> valid[q, k] == (old(valid[q, k]) || other.valid[q, k])
        invariant forall k :: 0 <= k < i && other.valid[q, k] ==> payload[q, k] == old(other.payload[q, k])
        invariant forall k :: i <= k < qlen ==>
                    valid[q, k] == old(valid[q, k]) && other.payload[q, k] == old(other.payload[q, k])
        invariant forall p, k :: 0 <= p < 2 && p != q && 0 <= k < qlen ==>
                    && valid[p, k] == old(valid[p, k]) && payload[p, k] == old(payload[p, k])
                    && other.payload[p, k] == old(other.payload[p, k])
      {
        if other.valid[q, i] {
          payload[q, i] := other.payload[q, i];
          other.payload[q, i] := None;
          valid[q, i] := true;
        }
        i := i + 1;
      }
    }
  }
}

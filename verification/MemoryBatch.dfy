/** Messages built in place in big buffers (core/message/MemoryBatch.hpp): a bump allocator whose buffers
    are shared by their messages, and given up when full. */
module MemoryBatch {
  import opened Wrappers

  type Octet = bv8

  const BATCH_SIZE: nat := 4096 * 256
  const SIZE_LIMIT: nat := 0x1_0000_0000_0000_0000   // of a size_t

  /** The buffer, and the number of shared pointers to it. */
  class Batch {
    const buff: array<Octet>
    var curr: nat
    var refs: nat
    var freed: bool

    constructor (size: nat)
      ensures buff.Length == size && curr == 0 && refs == 1 && !freed && fresh(buff)
    {
      buff := new Octet[size](_ => 0);
      curr, refs, freed := 0, 1, false;
    }

    /** NULL when the sum, which may wrap around, exceeds the size. */
    method Reserve(size: nat) returns (at: Option<nat>)
      requires size < SIZE_LIMIT && curr <= buff.Length < SIZE_LIMIT
      modifies this`curr
      ensures at.Some? <==> (old(curr) + size) % 0x1_0000_0000_0000_0000 <= buff.Length
      ensures at == None ==> curr == old(curr)
      ensures at.Some? ==> at.value == old(curr) && curr == (old(curr) + size) % SIZE_LIMIT
    {
      if (curr + size) % SIZE_LIMIT > buff.Length { return None; }
      at := Some(curr);
      curr := (curr + size) % SIZE_LIMIT;
    }

    /** A shared pointer goes away; with the last one the buffer does. */
    method Release()
      requires refs > 0 && !freed
      modifies this`refs, this`freed
      ensures refs == old(refs) - 1 && freed == (refs == 0)
    {
      refs := refs - 1;
      freed := refs == 0;
    }
  }

  /** A pointer into a batch, sharing its ownership. */
  class Message {
    const batch: Batch
    const start: nat
    const content: seq<Octet>

    constructor (batch: Batch, start: nat, content: seq<Octet>)
      ensures this.batch == batch && this.start == start && this.content == content
    {
      this.batch, this.start, this.content := batch, start, content;
    }

    ghost function End(): nat { start + |content| }
  }

  ghost function Sharing(live: set<Message>, b: Batch): set<Message> {
    set m | m in live && m.batch == b
  }

  ghost predicate Beside(m: Message, n: Message) {
    m.batch == n.batch ==> m.End() <= n.start || n.End() <= m.start
  }

  /** No two messages of one batch overlap. */
  ghost predicate Apart(live: set<Message>) {
    forall m, n {:trigger Beside(m, n)} :: m in live && n in live && m != n ==> Beside(m, n)
  }

  lemma OneMoreApart(live: set<Message>, m: Message)
    requires Apart(live) && forall n :: n in live && n.batch == m.batch ==> n.End() <= m.start
    ensures Apart(live + {m})
  {
    forall k, n | k in live + {m} && n in live + {m} && k != n ensures Beside(k, n) {
      if k != m && n != m { assert Beside(k, n); }
    }
  }

  lemma OneMoreSharing(live: set<Message>, m: Message, b: Batch)
    requires m !in live
    ensures |Sharing(live + {m}, b)| == |Sharing(live, b)| + if m.batch == b then 1 else 0
  {
    var held := Sharing(live, b);
    assert Sharing(live + {m}, b) == if m.batch == b then held + {m} else held;
  }

  /** What an allocation comes to: a message in a batch, or one constructed at a null address. */
  datatype Allocation = Built(message: Message) | BuiltAtNull

  /** A block that allocates messages; block is its own shared pointer. */
  class Source {
    var block: Batch
    ghost var holding: bool          // the source has not let go of its batch
    ghost var live: set<Message>     // the messages not yet dropped
    ghost var batches: set<Batch>    // all there ever were

    ghost function HeldIn(b: Batch): set<Message>
      reads this
    {
      Sharing(live, b)
    }

    ghost function Owners(b: Batch): nat
      reads this
    {
      |HeldIn(b)| + if holding && b == block then 1 else 0
    }

    ghost predicate Tallied(b: Batch)
      reads this, b
    {
      b.refs == Owners(b) && b.freed == (b.refs == 0)
    }

    /** Every batch counts its owners and is freed when there are none, */
    ghost predicate Counted()
      reads this, batches
    {
      forall b {:trigger Tallied(b)} :: b in batches ==> Tallied(b)
    }

    ghost predicate Separate()
      reads this, batches
    {
      && (forall b :: b in batches ==> b.curr <= b.buff.Length <= BATCH_SIZE)
      && (forall b, c :: b in batches && c in batches && b != c ==> b.buff != c.buff)
      && block in batches
    }

    /** the messages lie in its used part without overlapping, */
    ghost predicate Placed()
      reads this, batches
    {
      && (forall m :: m in live ==> m.batch in batches && m.content != [] && m.End() <= m.batch.curr)
      && Apart(live)
    }

    /** and each still holds what was put into it. */
    ghost predicate Intact()
      reads this, batches, set b | b in batches :: b.buff
    {
      forall m :: m in live ==>
        m.batch in batches && m.End() <= m.batch.buff.Length && m.batch.buff[m.start..m.End()] == m.content
    }

    ghost predicate Valid()
      reads this, batches, set b | b in batches :: b.buff
    {
      Separate() && Placed() && Counted() && Intact()
    }

    constructor ()
      ensures Valid() && holding && live == {} && batches == {block} && fresh(block) && fresh(block.buff)
    {
      block := new Batch(BATCH_SIZE);
      holding, live, batches := true, {}, {block};
    }

    /** The message's last pointer is dropped, and with it a share of the batch. */
    method Drop(m: Message)
      requires Valid() && m in live
      modifies this`live, m.batch
      ensures Valid() && live == old(live) - {m}
    {
      ghost var rest := live - {m};
      assert live == rest + {m} && Tallied(m.batch);
      OneMoreSharing(rest, m, m.batch);
      live := rest;
      m.batch.Release();
      forall b | b in batches ensures Tallied(b) {
        assert old(Tallied(b));
        OneMoreSharing(rest, m, b);
      }
    }

    /** The source lets go of its batch. */
    method LetGo()
      requires Valid() && holding
      modifies this`holding, block
      ensures Valid() && !holding
    {
      assert Tallied(block);
      holding := false;
      block.Release();
      forall b | b in batches ensures Tallied(b) { assert old(Tallied(b)); }
    }

    /** A batch is freed exactly when the source has let go of it and its last message is gone. */
    lemma FreedWhenUnowned(b: Batch)
      requires Valid() && b in batches
      ensures b.freed <==> HeldIn(b) == {} && !(holding && b == block)
    {
      assert Tallied(b);
      if HeldIn(b) != {} {
        var m :| m in HeldIn(b);
        assert HeldIn(b) == HeldIn(b) - {m} + {m};
      }
    }

    /** It gets a new, empty one. */
    method TakeNew()
      requires Valid() && !holding
      modifies this`block, this`batches, this`holding
      ensures Valid() && holding && fresh(block) && fresh(block.buff)
      ensures block.curr == 0 && block.buff.Length == BATCH_SIZE
      ensures batches == old(batches) + {block}
    {
      ghost var before := batches;
      block := new Batch(BATCH_SIZE);
      assert Sharing(live, block) == {};
      batches := batches + {block};
      holding := true;
      forall b | b in before ensures Tallied(b) { assert old(Tallied(b)); }
      assert Tallied(block);
    }

    /** The batch is full: the source gives it up for a new one. */
    method RollOver()
      requires Valid() && holding
      modifies this`block, this`batches, this`holding, block
      ensures Valid() && holding && fresh(block) && fresh(block.buff)
      ensures block.curr == 0 && block.buff.Length == BATCH_SIZE
      ensures batches == old(batches) + {block}
    {
      LetGo();
      TakeNew();
    }

    /** All messages lie in the used parts, those of the present batch below `at`. */
    ghost predicate Below(at: nat)
      reads this, batches
    {
      && (forall m :: m in live ==>
            m.batch in batches && m.content != [] && m.End() <= if m.batch == block then at else m.batch.curr)
      && Apart(live)
    }

    /** What is written behind the others leaves them intact. */
    method Write(at: nat, content: seq<Octet>)
      requires at + |content| <= block.buff.Length && Separate() && Below(at) && Intact()
      modifies block.buff
      ensures Intact() && block.buff[at..at + |content|] == content
    {
      var buff := block.buff;
      ghost var was := buff[..];
      forall i | 0 <= i < |content| { buff[at + i] := content[i]; }
      assert buff[at..at + |content|] == content;
      forall m | m in live ensures m.batch.buff[m.start..m.End()] == m.content {
        if m.batch == block {
          assert buff[m.start..m.End()] == was[m.start..m.End()];
        } else {
          assert m.batch.buff != buff;
          assert m.batch.buff[m.start..m.End()] == old(m.batch.buff[m.start..m.End()]);
        }
      }
    }

    /** One more message shares the present batch. */
    method Own(msg: Message)
      requires msg.content != [] && holding && msg.batch == block
      requires msg.End() == block.curr <= block.buff.Length && msg !in live
      requires Separate() && Below(msg.start) && Counted() && Intact()
      requires block.buff[msg.start..msg.End()] == msg.content
      modifies this`live, block`refs
      ensures Valid() && live == old(live) + {msg}
    {
      OneMoreApart(live, msg);
      live := live + {msg};
      block.refs := block.refs + 1;
      forall b | b in batches ensures Tallied(b) {
        assert old(Tallied(b));
        OneMoreSharing(old(live), msg, b);
      }
    }

    /** Reserving touches no count of owners. */
    twostate lemma Reserved()
      requires old(Counted()) && batches == old(batches) && live == old(live)
      requires holding == old(holding) && block == old(block)
      requires forall b :: b in batches ==> b.refs == old(b.refs) && b.freed == old(b.freed)
      ensures Counted()
    {
      forall b | b in batches ensures Tallied(b) { assert old(Tallied(b)); }
    }

    /** Reserve, and build the message in place if there is room. */
    method Build(content: seq<Octet>) returns (msg: Option<Message>)
      requires Valid() && holding && content != [] && |content| + BATCH_SIZE < SIZE_LIMIT
      modifies this`live, block, block.buff
      ensures Valid() && (msg.Some? <==> old(block.curr) + |content| <= block.buff.Length)
      ensures msg.Some? ==>
                var m := msg.value;
                fresh(m) && m.batch == block && m.start == old(block.curr) && m.content == content
      ensures live == if msg.Some? then old(live) + {msg.value} else old(live)
      ensures msg == None ==> block.curr == old(block.curr)
    {
      var at := block.Reserve(|content|);
      Reserved();
      if at == None { return None; }
      Write(at.value, content);
      var m := new Message(block, at.value, content);
      Own(m);
      return Some(m);
    }

    /** When there is none, roll over and try again.  The second attempt is not checked: a message that fits
        into no batch is constructed at the null address reserve returned. */
    method AllocMessage(content: seq<Octet>) returns (r: Allocation)
      requires Valid() && holding && content != [] && |content| + BATCH_SIZE < SIZE_LIMIT
      modifies this`block, this`batches, this`holding, this`live, block, block.buff
      ensures Valid() && holding && (r.BuiltAtNull? <==> |content| > 1048576)
      ensures r.Built? ==> var m := r.message; fresh(m) && m.batch == block && m.content == content
      ensures live == if r.Built? then old(live) + {r.message} else old(live)
      ensures old(block.curr) + |content| <= old(block.buff.Length) ==>
                r.Built? && block == old(block) && r.message.start == old(block.curr) && batches == old(batches)
      ensures old(block.curr) + |content| > old(block.buff.Length) ==> fresh(block) && batches == old(batches) + {block}
    {
      var msg := Build(content);
      if msg == None {
        RollOver();
        msg := Build(content);
      }
      r := if msg.Some? then Built(msg.value) else BuiltAtNull;
    }
  }

  /** reserve is right exactly as long as the sum does not wrap around. */
  lemma ReserveWraps(curr: nat, size: nat, length: nat)
    requires curr <= length < SIZE_LIMIT && size < SIZE_LIMIT
    ensures ((curr + size) % SIZE_LIMIT <= length <==> curr + size <= length) <==> curr + size < 0x1_0000_0000_0000_0000
  {
    if curr + size >= SIZE_LIMIT { assert (curr + size) % SIZE_LIMIT == curr + size - SIZE_LIMIT; }
  }
}

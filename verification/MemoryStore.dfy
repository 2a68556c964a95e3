/** The in-memory message store: one fixed-size ring per network and entity. */
module MemoryStore {
  import opened Seqs
  import opened Text
  import Ring
  import opened ZncLog

  const RING_CAPACITY: nat := 4096

  datatype Loaded<+M> = Messages(messages: seq<M>) | FutureSequence | EventsUnsupported

  /** The unbounded log a ring stands for: the message with sequence number `s` is `log[s - 1]`. Loading after `s`
      gives the newest messages after it, as many as the ring keeps and the caller wants. */
  function LoadAfter<M>(log: seq<M>, capacity: nat, s: nat, limit: nat): Loaded<M> {
    if s > |log| + 1 then FutureSequence
    else if s == |log| + 1 then Messages([])
    else Messages(LastN(log[s..], Kept(capacity, limit)))
  }

  function Kept(capacity: nat, limit: nat): nat {
    if capacity < limit then capacity else limit
  }

  class MessageRingBuffer<M(0)> {
    const buf: array<M>
    var cur: nat
    ghost var log: seq<M>

    ghost predicate Valid()
      reads this, buf
    {
      buf.Length > 0 && cur == |log| + 1 && Ring.Holds(buf[..], log, 1)
    }

    constructor (capacity: nat)
      requires capacity > 0
      ensures Valid() && fresh(buf) && buf.Length == capacity && log == []
    {
      buf := new M[capacity];
      cur, log := 1, [];
    }

    method Append(msg: M) returns (s: nat)
      requires Valid()
      modifies this, buf
      ensures Valid() && log == old(log) + [msg]
      ensures s == |log| && log[s - 1] == msg
    {
      s := cur;
      var i := s % buf.Length;
      Ring.Put(buf[..], log, 1, msg);
      buf[i] := msg;
      cur := cur + 1;
      log := log + [msg];
    }

    method LoadLatestSeq(s: nat, limit: nat) returns (r: Loaded<M>)
      requires Valid()
      ensures r == LoadAfter(log, buf.Length, s, limit)
    {
      if s > cur {
        return FutureSequence;
      } else if s == cur {
        return Messages([]);
      }
      var diff := cur - s - 1;
      if diff > buf.Length {
        diff := buf.Length;
      }
      if diff > limit {
        diff := limit;
      }
      var l := new M[diff];
      var i := 0;
      while i < diff
        invariant 0 <= i <= diff
        invariant forall k :: 0 <= k < i ==> l[k] == log[|log| - diff + k]
      {
        var j := (cur - diff + i) % buf.Length;
        assert j == Ring.Slot(|log| - diff + i, 1, buf.Length);
        l[i] := buf[..][j];
        i := i + 1;
      }
      assert l[..] == log[|log| - diff..];
      assert log[s..][|log| - s - diff..] == log[|log| - diff..];
      r := Messages(l[..]);
    }
  }

  // ---- Resuming

  /** After an ID that `Append` returned, loading gives the last messages appended since, and misses none while the
      ring and the limit have room for them. */
  lemma {:induction false} ResumeAfterAppend<M>(before: seq<M>, msg: M, after: seq<M>, capacity: nat, limit: nat)
    ensures LoadAfter(before + [msg] + after, capacity, |before| + 1, limit)
        == Messages(LastN(after, Kept(capacity, limit)))
  {
    var log := before + [msg] + after;
    if after != [] {
      assert log[|before| + 1..] == after;
    } else {
      assert log[|before| + 1..] == [];
    }
  }

  /** `LastMsgID` for an existing buffer returns the number the next message will get, so resuming from it skips that
      message: the result is right exactly when nothing was appended since or the skipped message is too old to be
      returned anyway. */
  lemma {:induction false} ResumeAfterLast<M>(before: seq<M>, after: seq<M>, capacity: nat, limit: nat)
    ensures LoadAfter(before + after, capacity, |before| + 1, limit) == Messages(LastN(after, Kept(capacity, limit)))
            <==> after == [] || |after| > Kept(capacity, limit)
  {
    var log, n := before + after, Kept(capacity, limit);
    if after != [] {
      assert log[|before| + 1..] == after[1..];
      assert LoadAfter(log, capacity, |before| + 1, limit) == Messages(LastN(after[1..], n));
      if |after| > n {
        assert LastN(after[1..], n) == LastN(after, n);
      }
    }
  }

  /** For a missing buffer `LastMsgID` returns 0, and resuming is exact. */
  lemma {:induction false} ResumeFromNothing<M>(after: seq<M>, capacity: nat, limit: nat)
    ensures LoadAfter(after, capacity, 0, limit) == Messages(LastN(after, Kept(capacity, limit)))
  {
    assert after[0..] == after;
  }

  /** The ID `LastMsgID` gives out for an entity with this log. */
  function LastID<M>(log: seq<M>): nat {
    if log == [] then 0 else |log| + 1
  }

  /** Resuming from the ID of the last message, taken at any point, gives the last messages appended since exactly when
      nothing had been appended before, nothing was appended since, or more was than is kept. */
  lemma {:induction false} ResumeFromLast<M>(before: seq<M>, after: seq<M>, capacity: nat, limit: nat)
    ensures LoadAfter(before + after, capacity, LastID(before), limit) == Messages(LastN(after, Kept(capacity, limit)))
            <==> before == [] || after == [] || |after| > Kept(capacity, limit)
  {
    if before == [] {
      assert before + after == after;
      ResumeFromNothing(after, capacity, limit);
    } else {
      ResumeAfterLast(before, after, capacity, limit);
    }
  }

  /** After `a`, the ID of the last message is 2; the message `b` that comes next is not loaded from it. */
  lemma {:induction false} LastSkips<M>(a: M, b: M)
    ensures LastID([a]) == 2 && LoadAfter([a, b], RING_CAPACITY, 2, 1) == Messages([])
  {
    assert [a, b][2..] == [];
  }

  // ---- The store

  datatype Key = Key(netId: int, entity: string)

  predicate IsStored(msg: Message) {
    msg.command == "PRIVMSG" || msg.command == "NOTICE"
  }

  class MemoryMessageStore {
    var buffers: map<Key, MessageRingBuffer<Message>>
    ghost var Repr: set<object>

    /** There are buffers only for entities with messages. */
    ghost predicate Valid()
      reads this, Repr
    {
      Separate() && forall k :: k in buffers ==> buffers[k].log != []
    }

    /** The buffers are valid and share nothing. */
    ghost predicate Separate()
      reads this, Repr
    {
      && this !in Repr
      && (forall k :: k in buffers ==> buffers[k] in Repr && buffers[k].buf in Repr)
      && (forall k :: k in buffers ==> buffers[k].Valid() && buffers[k].buf.Length == RING_CAPACITY)
      && (forall j, k :: j in buffers && k in buffers && j != k ==>
          buffers[j] != buffers[k] && buffers[j].buf != buffers[k].buf)
    }

    ghost function Log(k: Key): seq<Message>
      requires Separate()
      reads this, Repr
    {
      if k in buffers then buffers[k].log else []
    }

    constructor ()
      ensures Valid() && buffers == map[] && Repr == {}
    {
      buffers, Repr := map[], {};
    }

    method LastMsgID(k: Key) returns (s: nat)
      requires Valid()
      ensures s == LastID(Log(k))
    {
      s := 0;
      if k in buffers {
        s := buffers[k].cur;
      }
    }

    /** Only what can be loaded again is kept; it gets its place in the log of its own entity as ID. */
    method Append(k: Key, msg: Message) returns (s: Option<nat>)
      requires Valid()
      modifies this, Repr
      ensures Valid() && fresh(Repr - old(Repr))
      ensures if IsStored(msg) then Log(k) == old(Log(k)) + [msg] && s == Some(|Log(k)|)
              else s == None && buffers == old(buffers) && Log(k) == old(Log(k))
      ensures forall j :: j != k ==> Log(j) == old(Log(j))
    {
      if !IsStored(msg) {
        return None;
      }
      EnsureBuffer(k);
      var n := AppendTo(k, msg);
      s := Some(n);
    }

    /** Makes the buffer of `k` on first use. */
    method EnsureBuffer(k: Key)
      requires Valid()
      modifies this
      ensures Separate() && fresh(Repr - old(Repr)) && k in buffers
      ensures forall j :: j in buffers && j != k ==> buffers[j].log != []
      ensures forall j :: Log(j) == old(Log(j))
    {
      if k !in buffers {
        var rb := new MessageRingBuffer<Message>(RING_CAPACITY);
        buffers := buffers[k := rb];
        Repr := Repr + {rb, rb.buf};
      }
    }

    method AppendTo(k: Key, msg: Message) returns (n: nat)
      requires Separate() && k in buffers && forall j :: j in buffers && j != k ==> buffers[j].log != []
      modifies buffers[k], buffers[k].buf
      ensures Valid() && Log(k) == old(Log(k)) + [msg] && n == |Log(k)|
      ensures forall j :: j != k ==> Log(j) == old(Log(j))
    {
      n := buffers[k].Append(msg);
    }

    method LoadLatestID(s: nat, k: Key, limit: nat, events: bool) returns (r: Loaded<Message>)
      requires Valid()
      ensures events ==> r == EventsUnsupported
      ensures !events ==>
        r == if Log(k) == [] then Messages([]) else LoadAfter(Log(k), RING_CAPACITY, s, limit)
    {
      if events {
        return EventsUnsupported;
      }
      if k !in buffers {
        return Messages([]);
      }
      r := buffers[k].LoadLatestSeq(s, limit);
    }
  }
}

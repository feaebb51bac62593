/**
 * The Paxos-based atomic broadcast's delivery buffer: learned values arrive tagged with their Paxos
 * instance number, in any order; the buffer hands them on in instance order without gaps, drops
 * empty values (no-ops), and numbers the delivered messages 1, 2, 3, ….
 *
 * The priority queue is the multiset of its entries; `peek` and `poll` return an entry with the least
 * instance number (which of several such entries is unspecified, so the model chooses any). The
 * output channel is the sequence of messages sent to it, and the deserializer is the parameter
 * `decode`. Two ghost fields record every entry ever buffered and every entry polled, so that the
 * class invariant can say what has been delivered.
 */
module Reorder {

  /** A protobuf `ByteString`. */
  type Bytes = seq<bv8>

  /** A buffer entry: (Paxos instance number, serialized value). */
  type Entry = (int, Bytes)

  datatype TotallyOrderedMessage<T> = TotallyOrderedMessage(sequenceNo: int, message: T)

  /** `e` has the least instance number in `m`: what `peek` and `poll` return. */
  predicate IsMin(e: Entry, m: multiset<Entry>)
  {
    e in m && forall f :: f in m ==> e.0 <= f.0
  }

  lemma {:induction false} MinExists(m: multiset<Entry>)
    requires m != multiset{}
    ensures exists e :: IsMin(e, m)
    decreases |m|
  {
    var x :| x in m;
    var rest := m - multiset{x};
    assert forall f :: f in m && f != x ==> f in rest;
    if rest == multiset{} {
      assert IsMin(x, m);
    } else {
      MinExists(rest);
      var p :| IsMin(p, rest);
      if p.0 <= x.0 {
        assert IsMin(p, m);
      } else {
        assert IsMin(x, m);
      }
    }
  }

  /** The least instance number in a non-empty buffer. */
  ghost function MinKey(m: multiset<Entry>): (k: int)
    requires m != multiset{}
    ensures exists e :: IsMin(e, m) && e.0 == k
  {
    MinExists(m);
    var e :| IsMin(e, m);
    e.0
  }

  lemma MinKeyOf(e: Entry, m: multiset<Entry>)
    requires IsMin(e, m)
    ensures e.0 == MinKey(m)
  {
  }

  /**
   * The messages delivered for a run of polled entries: one per non-empty value, numbered
   * consecutively from 1, each the value deserialized.
   */
  function Emitted<T>(log: seq<Entry>, decode: Bytes -> T): (r: seq<TotallyOrderedMessage<T>>)
    ensures |r| <= |log|
    ensures forall j :: 0 <= j < |r| ==> r[j].sequenceNo == j + 1
  {
    if log == [] then []
    else
      var prev := Emitted(log[..|log| - 1], decode);
      var e := log[|log| - 1];
      assert log[..|log| - 1] + [e] == log;
      prev + (if |e.1| == 0 then [] else [TotallyOrderedMessage(|prev| + 1, decode(e.1))])
  }

  lemma EmittedSnoc<T>(log: seq<Entry>, e: Entry, decode: Bytes -> T)
    ensures Emitted(log + [e], decode) ==
            Emitted(log, decode) + (if |e.1| == 0 then [] else [TotallyOrderedMessage(|Emitted(log, decode)| + 1, decode(e.1))])
  {
    assert (log + [e])[..|log|] == log;
  }

  /** The polled entries are instances 1, 2, 3, … in order. */
  predicate GapFree(log: seq<Entry>)
  {
    forall i :: 0 <= i < |log| ==> log[i].0 == i + 1
  }

  lemma GapFreeSnoc(log: seq<Entry>, e: Entry)
    requires GapFree(log) && e.0 == |log| + 1
    ensures GapFree(log + [e])
  {
    forall i | 0 <= i < |log| + 1 ensures (log + [e])[i].0 == i + 1 {
      if i < |log| { assert (log + [e])[i] == log[i]; }
    }
  }

  /**
   * Polling the next instance keeps the polled log gap-free, every received entry accounted for, and
   * the output equal to the messages of the polled entries.
   */
  lemma PollKeepsLog<T>(polled: seq<Entry>, buffer: multiset<Entry>, received: multiset<Entry>, out: seq<TotallyOrderedMessage<T>>,
                        decode: Bytes -> T, head: Entry)
    requires GapFree(polled)
    requires received == multiset(polled) + buffer && out == Emitted(polled, decode)
    requires head in buffer && head.0 == |polled| + 1
    ensures GapFree(polled + [head])
    ensures received == multiset(polled + [head]) + (buffer - multiset{head})
    ensures Emitted(polled + [head], decode) ==
            out + (if |head.1| == 0 then [] else [TotallyOrderedMessage(|out| + 1, decode(head.1))])
  {
    GapFreeSnoc(polled, head);
    MoveToLog(polled, buffer, head);
    EmittedSnoc(polled, head, decode);
  }

  lemma MoveToLog(polled: seq<Entry>, buffer: multiset<Entry>, head: Entry)
    requires head in buffer
    ensures multiset(polled) + buffer == multiset(polled + [head]) + (buffer - multiset{head})
  {
    assert buffer == (buffer - multiset{head}) + multiset{head};
    assert multiset(polled + [head]) == multiset(polled) + multiset{head};
  }

  /** The delivery buffer of one server, with the delivered-message counter and output channel. */
  class MessageBuffer<T> {
    var buffer: multiset<Entry>
    var lastDelivered: int
    /** `sequence#`: the number of messages delivered so far. */
    var sequenceNo: int
    /** The messages sent on the output channel, oldest first. */
    var out: seq<TotallyOrderedMessage<T>>
    const decode: Bytes -> T
    ghost var received: multiset<Entry>
    ghost var polled: seq<Entry>

    /**
     * The polled entries are instances 1, 2, …, `lastDelivered` in order; every entry ever buffered is
     * either polled or still buffered; the output is the messages of the polled entries.
     */
    ghost predicate Valid()
      reads this
    {
      lastDelivered == |polled| && GapFree(polled) &&
      received == multiset(polled) + buffer &&
      out == Emitted(polled, decode) && sequenceNo == |out|
    }

    constructor(decode: Bytes -> T)
      ensures Valid()
      ensures this.decode == decode && buffer == multiset{} && lastDelivered == 0 && sequenceNo == 0 && out == []
    {
      this.decode := decode;
      buffer := multiset{};
      lastDelivered := 0;
      sequenceNo := 0;
      out := [];
      received := multiset{};
      polled := [];
    }

    /** `buffer`: adds the entry; nothing is removed or delivered. */
    method Buffer(seqNo: int, serialized: Bytes)
      requires Valid()
      modifies this
      ensures Valid()
      ensures buffer == old(buffer) + multiset{(seqNo, serialized)}
      ensures received == old(received) + multiset{(seqNo, serialized)}
      ensures lastDelivered == old(lastDelivered) && sequenceNo == old(sequenceNo) && out == old(out) && polled == old(polled)
    {
      buffer := buffer + multiset{(seqNo, serialized)};
      received := received + multiset{(seqNo, serialized)};
    }

    /** `isLatestMessageDeliverable`: the head of the non-empty queue is the next instance. */
    method IsLatestMessageDeliverable() returns (r: bool)
      requires buffer != multiset{}
      ensures r <==> MinKey(buffer) == lastDelivered + 1
    {
      MinExists(buffer);
      var head :| IsMin(head, buffer);
      MinKeyOf(head, buffer);
      r := head.0 == lastDelivered + 1;
    }

    /**
     * `deliverLatestMessage`: polls a head entry and makes its instance the last delivered; a
     * non-empty value is deserialized and sent under the next sequence number.
     */
    method DeliverLatestMessage() returns (ghost e: Entry)
      requires buffer != multiset{}
      modifies this
      ensures IsMin(e, old(buffer)) && lastDelivered == e.0
      ensures buffer == old(buffer) - multiset{e} && polled == old(polled) + [e] && received == old(received)
      ensures |e.1| == 0 ==> out == old(out) && sequenceNo == old(sequenceNo)
      ensures |e.1| > 0 ==> out == old(out) + [TotallyOrderedMessage(old(sequenceNo) + 1, decode(e.1))] && sequenceNo == old(sequenceNo) + 1
    {
      MinExists(buffer);
      var head :| IsMin(head, buffer);
      e := head;
      buffer := buffer - multiset{head};
      lastDelivered := head.0;
      polled := polled + [head];
      if |head.1| == 0 {
        return;
      }
      sequenceNo := sequenceNo + 1;
      out := out + [TotallyOrderedMessage(sequenceNo, decode(head.1))];
    }

  /**
     * `deliverAll`: delivers while the head is the next instance. Afterwards the buffer is empty or
     * its head is not the next instance; entries at or below the last delivered instance stay; and a
     * head at or below it blocks everything.
     */
    method DeliverAll()
      requires Valid()
      modifies this
      ensures Valid()
      ensures buffer == multiset{} || MinKey(buffer) != lastDelivered + 1
      ensures old(polled) <= polled && received == old(received)
    {
      while buffer != multiset{}
        invariant Valid()
        invariant old(polled) <= polled && received == old(received)
        decreases |buffer|
      {
        var deliverable := IsLatestMessageDeliverable();
        if !deliverable {
          break;
        }
        ghost var polled0, buffer0, out0 := polled, buffer, out;
        ghost var e := DeliverLatestMessage();
        MinKeyOf(e, buffer0);
        PollKeepsLog(polled0, buffer0, received, out0, decode, e);
      }
    }

    /** The learner's callback: buffer the learned value, then deliver what has become deliverable. */
    method OnLearned(seqNo: int, serialized: Bytes)
      requires Valid()
      modifies this
      ensures Valid()
      ensures received == old(received) + multiset{(seqNo, serialized)}
      ensures old(polled) <= polled && (buffer == multiset{} || MinKey(buffer) != lastDelivered + 1)
    {
      Buffer(seqNo, serialized);
      DeliverAll();
    }
  }

  /**
   * Every delivered message is the deserialized value of a polled non-empty entry, and the messages
   * keep the polling order: message `j` comes from an entry polled no later than message `j + 1`'s.
   */
  lemma {:induction false} EmittedFromPolled<T>(polled: seq<Entry>, decode: Bytes -> T, j: int)
    requires 0 <= j < |Emitted(polled, decode)|
    ensures exists i :: 0 <= i < |polled| && |polled[i].1| > 0 && Emitted(polled, decode)[j].message == decode(polled[i].1)
    decreases |polled|
  {
    var n := |polled|;
    var prefix := polled[..n - 1];
    var e := polled[n - 1];
    EmittedSnoc(prefix, e, decode);
    assert prefix + [e] == polled;
    if j < |Emitted(prefix, decode)| {
      EmittedFromPolled(prefix, decode, j);
      var i :| 0 <= i < |prefix| && |prefix[i].1| > 0 && Emitted(prefix, decode)[j].message == decode(prefix[i].1);
      assert polled[i] == prefix[i];
    } else {
      assert Emitted(polled, decode)[j].message == decode(polled[n - 1].1);
    }
  }

  /** Polling more entries only appends messages: what was delivered stays delivered, unchanged. */
  lemma {:induction false} EmittedPrefix<T>(polled: seq<Entry>, later: seq<Entry>, decode: Bytes -> T)
    ensures Emitted(polled, decode) <= Emitted(polled + later, decode)
    decreases |later|
  {
    if later == [] {
      assert polled + later == polled;
    } else {
      var init := later[..|later| - 1];
      var last := later[|later| - 1];
      assert polled + later == (polled + init) + [last];
      EmittedPrefix(polled, init, decode);
      EmittedSnoc(polled + init, last, decode);
    }
  }

  /** A gap-free log polls no instance at or below `|polled|` after its first `|polled|` entries. */
  lemma StaleNeverPolledAgain(polled: seq<Entry>, later: seq<Entry>, e: Entry)
    requires GapFree(polled + later)
    requires e.0 <= |polled|
    ensures forall i :: 0 <= i < |later| ==> later[i].0 != e.0
  {
    forall i | 0 <= i < |later| ensures later[i].0 != e.0 {
      assert (polled + later)[|polled| + i] == later[i];
    }
  }

  /**
   * An entry at or below the last delivered instance is never delivered: however many entries are
   * polled later, its count in the buffer stays the same.
   */
  lemma StaleEntryStays(polled: seq<Entry>, later: seq<Entry>, buffer: multiset<Entry>, buffer': multiset<Entry>,
                        received: multiset<Entry>, e: Entry)
    requires GapFree(polled + later)
    requires received == multiset(polled) + buffer && received == multiset(polled + later) + buffer'
    requires e.0 <= |polled|
    ensures buffer'[e] == buffer[e]
  {
    StaleNeverPolledAgain(polled, later, e);
    assert multiset(polled + later) == multiset(polled) + multiset(later);
    assert e !in multiset(later);
    assert received[e] == multiset(polled)[e] + buffer[e];
    assert received[e] == multiset(polled)[e] + multiset(later)[e] + buffer'[e];
  }

  /** A buffered entry at or below the last delivered instance makes the head undeliverable. */
  lemma StaleEntryBlocks(buffer: multiset<Entry>, lastDelivered: int, e: Entry)
    requires e in buffer && e.0 <= lastDelivered
    ensures MinKey(buffer) != lastDelivered + 1
  {
    var k := MinKey(buffer);
    var m :| IsMin(m, buffer) && m.0 == k;
    assert m.0 <= e.0;
  }
}

/**
 * Intra-shard atomic broadcast through a sequencer: a requester proposes a message to the sequencer
 * of every target shard (in sorted shard order); each sequencer takes its proposals one at a time,
 * signals "scheduled" to the requester, stamps single transactions with a fresh timestamp, sends the
 * message to every other server of its shard and executes it itself. Every server's executor takes
 * the messages from its packets queue in arrival order and hands each to the transaction manager.
 *
 * The two blocking queues are sequences; each thread's `while (true)` loop is a method that runs a
 * given number of iterations, one `Step` at a time. The transaction manager's `process*Locally`
 * handlers are recorded in a log of `Action`s, and the calls to sibling servers in a log of calls.
 */
module Sequencing {
  import opened Wrappers
  import opened Strings
  import opened Model
  import opened Wire

  /**
   * The broadcast record. The three payloads are separate fields, each with its own `has` test; an
   * absent `assignedTimestamp` reads as 0.
   */
  datatype BroadcastMsg = BroadcastMsg(origServerId: string, pendingReqId: int, idempotencyKey: string,
                                       transaction: Option<TransactionMsg>,
                                       transactionsList: Option<seq<TransactionMsg>>,
                                       limit: Option<int>,
                                       assignedTimestamp: Long)

  // ===========================================================================
  // Building the broadcast records
  // ===========================================================================

  /** `broadcastTransaction`'s record: throws when the transaction has no source address. */
  function TransactionBroadcast(t: Transaction, idempotencyKey: string, origServerId: string, pendingReqId: int): (r: Result<BroadcastMsg, Exception>)
    ensures r.Ok? <==> t.sourceAddress.Some?
    ensures r.Ok? ==> r.value.transaction == Some(TransactionMsgOf(t).value) &&
                      r.value.transactionsList.None? && r.value.limit.None?
    ensures r.Ok? ==> r.value.origServerId == origServerId && r.value.pendingReqId == pendingReqId &&
                      r.value.idempotencyKey == idempotencyKey
  {
    match TransactionMsgOf(t)
    case Err(e) => Err(e)
    case Ok(m) => Ok(BroadcastMsg(origServerId, pendingReqId, idempotencyKey, Some(m), None, None, 0))
  }

  /** `broadcastAtomicTxList`'s record: throws at the first transaction without a source address. */
  function AtomicTxListBroadcast(ts: seq<Transaction>, idempotencyKey: string, origServerId: string, pendingReqId: int): (r: Result<BroadcastMsg, Exception>)
    ensures r.Ok? <==> forall i :: 0 <= i < |ts| ==> ts[i].sourceAddress.Some?
    ensures r.Ok? ==> r.value.transaction.None? && r.value.limit.None? &&
                      r.value.transactionsList == Some(TransactionMsgsOf(ts).value) &&
                      |r.value.transactionsList.value| == |ts|
    ensures r.Ok? ==> r.value.origServerId == origServerId && r.value.pendingReqId == pendingReqId &&
                      r.value.idempotencyKey == idempotencyKey
  {
    match TransactionMsgsOf(ts)
    case Err(e) => Err(e)
    case Ok(ms) => Ok(BroadcastMsg(origServerId, pendingReqId, idempotencyKey, None, Some(ms), None, 0))
  }

  /** `broadcastListEntireHistory`'s record: no idempotency key. */
  function ListEntireHistoryBroadcast(limit: int, origServerId: string, pendingReqId: int): (r: BroadcastMsg)
    ensures r.limit == Some(limit) && r.transaction.None? && r.transactionsList.None?
    ensures r.origServerId == origServerId && r.pendingReqId == pendingReqId
  {
    BroadcastMsg(origServerId, pendingReqId, "", None, None, Some(limit), 0)
  }

  // ===========================================================================
  // broadcastToShards
  // ===========================================================================

  /** The message thrown when a sequencer's call fails. */
  function UnavailableReason(id: string, sequencer: string, shard: string): string
  {
    id + ": Sequencer " + sequencer + " of Shard " + shard + " isn't available!!"
  }

  /**
   * Proposing to the sequencers of `shards` in the given order: `sequencers` maps a shard to its
   * sequencer's server id; `reachable[s]` says whether the call to server `s` returns (true) or throws
   * `StatusRuntimeException` (false). A shard without a sequencer, or a sequencer without a stub,
   * makes the call throw `NullPointerException`. Returns the shards proposed to and the failure.
   */
  function ProposeAll(id: string, shards: seq<string>, sequencers: map<string, string>, reachable: map<string, bool>): (r: (seq<string>, Option<Exception>))
    decreases |shards|
  {
    if shards == [] then ([], None)
    else if shards[0] !in sequencers || sequencers[shards[0]] !in reachable then ([], Some(NullPointerException))
    else if !reachable[sequencers[shards[0]]] then ([], Some(RuntimeException(UnavailableReason(id, sequencers[shards[0]], shards[0]))))
    else
      var rest := ProposeAll(id, shards[1..], sequencers, reachable);
      ([shards[0]] + rest.0, rest.1)
  }

  /** A shard can be proposed to when its sequencer is known and answers. */
  predicate Proposable(shard: string, sequencers: map<string, string>, reachable: map<string, bool>)
  {
    shard in sequencers && sequencers[shard] in reachable && reachable[sequencers[shard]]
  }

  /**
   * The proposals reach a prefix of the shards, each of them proposable; without a failure the prefix
   * is all of them, and with one the next shard is the one that failed.
   */
  lemma {:induction false} ProposeAllPrefix(id: string, shards: seq<string>, sequencers: map<string, string>, reachable: map<string, bool>)
    ensures ProposeAll(id, shards, sequencers, reachable).0 <= shards
    ensures var (done, failure) := ProposeAll(id, shards, sequencers, reachable);
            forall i :: 0 <= i < |done| ==> Proposable(shards[i], sequencers, reachable)
    ensures var (done, failure) := ProposeAll(id, shards, sequencers, reachable);
            failure.None? <==> done == shards
    ensures var (done, failure) := ProposeAll(id, shards, sequencers, reachable);
            failure.Some? ==> |done| < |shards| && !Proposable(shards[|done|], sequencers, reachable)
    decreases |shards|
  {
    if shards != [] && Proposable(shards[0], sequencers, reachable) {
      ProposeAllPrefix(id, shards[1..], sequencers, reachable);
      var rest := ProposeAll(id, shards[1..], sequencers, reachable);
      assert forall i :: 1 <= i <= |rest.0| ==> shards[i] == shards[1..][i - 1];
    }
  }

  /** The loop of `broadcastToShards` over the already sorted copy of the list. */
  method ProposeInOrder(id: string, shards: seq<string>, sequencers: map<string, string>, reachable: map<string, bool>)
    returns (proposed: seq<string>, failure: Option<Exception>)
    ensures (proposed, failure) == ProposeAll(id, shards, sequencers, reachable)
  {
    proposed := [];
    assert shards[0..] == shards;
    for i := 0 to |shards|
      invariant proposed == shards[..i]
      invariant ProposeAll(id, shards, sequencers, reachable).0 == proposed + ProposeAll(id, shards[i..], sequencers, reachable).0
      invariant ProposeAll(id, shards, sequencers, reachable).1 == ProposeAll(id, shards[i..], sequencers, reachable).1
    {
      ghost var tail := shards[i..];
      assert tail[1..] == shards[i + 1..] && tail[0] == shards[i];
      var currShard := shards[i];
      if currShard !in sequencers || sequencers[currShard] !in reachable {
        assert proposed + [] == proposed;
        return proposed, Some(NullPointerException);
      }
      var currSequencer := sequencers[currShard];
      if !reachable[currSequencer] {
        assert proposed + [] == proposed;
        return proposed, Some(RuntimeException(UnavailableReason(id, currSequencer, currShard)));
      }
      ghost var rest := ProposeAll(id, shards[i + 1..], sequencers, reachable);
      assert ProposeAll(id, tail, sequencers, reachable) == ([currShard] + rest.0, rest.1);
      assert proposed + ([currShard] + rest.0) == (proposed + [currShard]) + rest.0;
      proposed := proposed + [currShard];
    }
    assert proposed == shards && shards[|shards|..] == [] && proposed + [] == proposed;
    return proposed, None;
  }

  /**
   * `broadcastToShards`: sorts a copy of the shard list and proposes to each shard's sequencer in that
   * order; the first failing call aborts, after the earlier shards have been proposed to.
   */
  method BroadcastToShards(id: string, shardsList: seq<string>, sequencers: map<string, string>, reachable: map<string, bool>)
    returns (proposed: seq<string>, failure: Option<Exception>)
    ensures (proposed, failure) == ProposeAll(id, SortStrings(shardsList), sequencers, reachable)
  {
    proposed, failure := ProposeInOrder(id, SortStrings(shardsList), sequencers, reachable);
  }

  /** The proposals are sent in ascending shard order, whatever the order of the argument. */
  lemma BroadcastOrderIgnoresArgumentOrder(id: string, a: seq<string>, b: seq<string>, sequencers: map<string, string>, reachable: map<string, bool>)
    requires multiset(a) == multiset(b)
    ensures ProposeAll(id, SortStrings(a), sequencers, reachable) == ProposeAll(id, SortStrings(b), sequencers, reachable)
    ensures var p := ProposeAll(id, SortStrings(a), sequencers, reachable).0;
            forall i, j :: 0 <= i < j < |p| ==> LexLe(p[i], p[j])
  {
    SortStringsIgnoresOrder(a, b);
    ProposeAllPrefix(id, SortStrings(a), sequencers, reachable);
  }

  // ===========================================================================
  // Executor
  // ===========================================================================

  /** A call into the transaction manager. */
  datatype Action =
    | ProcessTransactionLocally(trans: TransactionMsg, idempotencyKey: string, origServerId: string, pendingReqId: int)
    | ProcessAtomicTxListLocally(transactions: seq<TransactionMsg>, idempotencyKey: string, origServerId: string, pendingReqId: int)
    | ProcessListEntireHistoryLocally(limit: int, origServerId: string, pendingReqId: int)

  /**
   * `executePacket`'s dispatch: a transaction wins over a transaction list, which wins over a limit;
   * a transaction takes the assigned timestamp.
   */
  function Dispatch(p: BroadcastMsg): (r: Option<Action>)
  {
    if p.transaction.Some? then
      Some(ProcessTransactionLocally(p.transaction.value.(timestamp := p.assignedTimestamp), p.idempotencyKey, p.origServerId, p.pendingReqId))
    else if p.transactionsList.Some? then
      Some(ProcessAtomicTxListLocally(p.transactionsList.value, p.idempotencyKey, p.origServerId, p.pendingReqId))
    else if p.limit.Some? then
      Some(ProcessListEntireHistoryLocally(p.limit.value, p.origServerId, p.pendingReqId))
    else None
  }

  /** The dispatch calls exactly one handler when a payload is present, for the same request. */
  lemma DispatchSpec(p: BroadcastMsg)
    ensures Dispatch(p).None? <==> p.transaction.None? && p.transactionsList.None? && p.limit.None?
    ensures Dispatch(p).Some? ==> Dispatch(p).value.origServerId == p.origServerId && Dispatch(p).value.pendingReqId == p.pendingReqId
    ensures p.transaction.Some? ==>
              (Dispatch(p).value.ProcessTransactionLocally? &&
               Dispatch(p).value.trans.timestamp == p.assignedTimestamp &&
               Dispatch(p).value.trans.(timestamp := p.transaction.value.timestamp) == p.transaction.value)
    ensures p.transaction.None? && p.transactionsList.Some? ==>
              (Dispatch(p).value.ProcessAtomicTxListLocally? && Dispatch(p).value.transactions == p.transactionsList.value)
    ensures p.transaction.None? && p.transactionsList.None? && p.limit.Some? ==> Dispatch(p) == Some(ProcessListEntireHistoryLocally(p.limit.value, p.origServerId, p.pendingReqId))
  {
  }

  /** The handler calls one packet makes: none or one. */
  function ActionsOf(p: BroadcastMsg): (r: seq<Action>)
    ensures |r| <= 1 && (|r| == 1 <==> Dispatch(p).Some?)
  {
    if Dispatch(p).Some? then [Dispatch(p).value] else []
  }

  /** The handler calls a sequence of packets makes, in order. */
  function ActionsOfAll(ps: seq<BroadcastMsg>): (r: seq<Action>)
    ensures |r| <= |ps|
  {
    if ps == [] then [] else ActionsOf(ps[0]) + ActionsOfAll(ps[1..])
  }

  lemma {:induction false} ActionsOfAllAppend(ps: seq<BroadcastMsg>, qs: seq<BroadcastMsg>)
    ensures ActionsOfAll(ps + qs) == ActionsOfAll(ps) + ActionsOfAll(qs)
    decreases |ps|
  {
    if ps == [] {
      assert ps + qs == qs;
    } else {
      assert (ps + qs)[0] == ps[0] && (ps + qs)[1..] == ps[1..] + qs;
      ActionsOfAllAppend(ps[1..], qs);
      calc {
        ActionsOfAll(ps + qs);
        ActionsOf(ps[0]) + ActionsOfAll(ps[1..] + qs);
        ActionsOf(ps[0]) + (ActionsOfAll(ps[1..]) + ActionsOfAll(qs));
        (ActionsOf(ps[0]) + ActionsOfAll(ps[1..])) + ActionsOfAll(qs);
      }
    }
  }

  /** The executor: its packets queue and the handler calls it has made. */
  class Executor {
    var packets: seq<BroadcastMsg>
    var processed: seq<Action>

    constructor()
      ensures packets == [] && processed == []
    {
      packets := [];
      processed := [];
    }

    /** `executePacket`: hands the packet to the handler its payload selects. */
    method ExecutePacket(packet: BroadcastMsg)
      modifies this
      ensures processed == old(processed) + ActionsOf(packet)
      ensures packets == old(packets)
    {
      if packet.transaction.Some? {
        var trans := packet.transaction.value.(timestamp := packet.assignedTimestamp);
        processed := processed + [ProcessTransactionLocally(trans, packet.idempotencyKey, packet.origServerId, packet.pendingReqId)];
      } else if packet.transactionsList.Some? {
        processed := processed + [ProcessAtomicTxListLocally(packet.transactionsList.value, packet.idempotencyKey, packet.origServerId, packet.pendingReqId)];
      } else if packet.limit.Some? {
        processed := processed + [ProcessListEntireHistoryLocally(packet.limit.value, packet.origServerId, packet.pendingReqId)];
      }
    }

    /** `executeMsg`: a packet from the sequencer joins the back of the queue. */
    method ExecuteMsg(request: BroadcastMsg)
      modifies this
      ensures packets == old(packets) + [request]
      ensures processed == old(processed)
    {
      packets := packets + [request];
    }

    /**
     * `run`, for `steps` iterations: each takes the oldest packet and executes it; once the queue is
     * empty the thread blocks, which changes nothing.
     */
    method Run(steps: nat)
      modifies this
      ensures var n := if steps < |old(packets)| then steps else |old(packets)|;
              packets == old(packets)[n..] && processed == old(processed) + ActionsOfAll(old(packets)[..n])
    {
      var n := if steps < |packets| then steps else |packets|;
      for k := 0 to n
        invariant packets == old(packets)[k..]
        invariant processed == old(processed) + ActionsOfAll(old(packets)[..k])
      {
        var currReq := packets[0];
        packets := packets[1..];
        ExecutePacket(currReq);
        assert old(packets)[..k + 1] == old(packets)[..k] + [currReq];
        ActionsOfAllAppend(old(packets)[..k], [currReq]);
      }
    }
  }

  // ===========================================================================
  // Sequencer
  // ===========================================================================

  /** A queued proposal and the flag its requester waits on. */
  class Proposal {
    const msg: BroadcastMsg
    var scheduledSignal: bool

    constructor(msg: BroadcastMsg)
      ensures this.msg == msg && !scheduledSignal
    {
      this.msg := msg;
      scheduledSignal := false;
    }

    /** `finish`: signals the requester that the proposal is scheduled. */
    method Finish()
      modifies this
      ensures scheduledSignal
    {
      scheduledSignal := true;
    }
  }

  /** The message a sequencer sends out: a single transaction carries the timestamp it took. */
  function Stamped(m: BroadcastMsg, timestamp: Long): (r: BroadcastMsg)
    ensures r.(assignedTimestamp := m.assignedTimestamp) == m
    ensures m.transaction.None? ==> r == m
    ensures m.transaction.Some? ==> r.assignedTimestamp == timestamp
  {
    if m.transaction.Some? then m.(assignedTimestamp := timestamp) else m
  }

  /** A proposal is skipped when its (origin server, pending request) pair is in `done`. */
  predicate Suppressed(done: set<(string, int)>, m: BroadcastMsg)
  {
    (m.origServerId, m.pendingReqId) in done
  }

  /** One call per sibling, in the stub map's iteration order, each with the same message. */
  function FanOut(siblings: seq<string>, m: BroadcastMsg): (r: seq<(string, BroadcastMsg)>)
    ensures |r| == |siblings| && forall i :: 0 <= i < |r| ==> r[i] == (siblings[i], m)
  {
    seq(|siblings|, i requires 0 <= i < |siblings| => (siblings[i], m))
  }

  /** What one step does with one proposal: the calls to siblings and the local handler calls. */
  function Handle(done: set<(string, int)>, siblings: seq<string>, m: BroadcastMsg, timestamp: Long): (seq<(string, BroadcastMsg)>, seq<Action>)
  {
    if Suppressed(done, m) then ([], []) else (FanOut(siblings, Stamped(m, timestamp)), ActionsOf(Stamped(m, timestamp)))
  }

  /** The messages of a run of proposals, in queue order. */
  function Msgs(ps: seq<Proposal>): (r: seq<BroadcastMsg>)
    ensures |r| == |ps| && forall i :: 0 <= i < |ps| ==> r[i] == ps[i].msg
  {
    seq(|ps|, i requires 0 <= i < |ps| => ps[i].msg)
  }

  /** The clock values handling `m` draws: one for a single transaction, none otherwise. */
  function Draws(m: BroadcastMsg): nat
  {
    if m.transaction.Some? then 1 else 0
  }

  /** The clock values handling all of `ms` draws: the number of single transactions among them. */
  function TxCount(ms: seq<BroadcastMsg>): (r: nat)
    ensures r <= |ms|
  {
    if ms == [] then 0 else TxCount(ms[..|ms| - 1]) + Draws(ms[|ms| - 1])
  }

  /**
   * The messages `ms` as the sequencer sends them out, in order, when the clock returns `clock(d)`,
   * `clock(d + 1)`, … on successive draws: each single transaction takes the next value.
   */
  function StampInOrder(ms: seq<BroadcastMsg>, clock: nat -> Long, d: nat): (r: seq<BroadcastMsg>)
    ensures |r| == |ms|
  {
    if ms == [] then []
    else StampInOrder(ms[..|ms| - 1], clock, d) + [Stamped(ms[|ms| - 1], clock(d + TxCount(ms[..|ms| - 1])))]
  }

  /** The `i`-th message is stamped with the clock value drawn after the transactions before it. */
  lemma {:induction false} StampInOrderAt(ms: seq<BroadcastMsg>, clock: nat -> Long, d: nat, i: nat)
    requires i < |ms|
    ensures StampInOrder(ms, clock, d)[i] == Stamped(ms[i], clock(d + TxCount(ms[..i])))
    decreases |ms|
  {
    var n := |ms| - 1;
    if i < n {
      StampInOrderAt(ms[..n], clock, d, i);
      assert ms[..n][..i] == ms[..i];
    } else {
      assert ms[..n] == ms[..i];
    }
  }

  /** Every single transaction before position `j` adds one to the count of draws before `j`. */
  lemma {:induction false} TxCountGrows(ms: seq<BroadcastMsg>, i: nat, j: nat)
    requires i < j <= |ms|
    ensures TxCount(ms[..i]) + Draws(ms[i]) <= TxCount(ms[..j])
    decreases j - i
  {
    assert ms[..j][..j - 1] == ms[..j - 1];
    if j > i + 1 {
      TxCountGrows(ms, i, j - 1);
    }
  }

  /**
   * When the clock strictly increases over the draws the run makes (the ZooKeeper counter does),
   * a later single transaction is sent out with a strictly later timestamp than an earlier one,
   * whatever other messages come between them.
   */
  lemma TransactionsStampedInClockOrder(ms: seq<BroadcastMsg>, clock: nat -> Long, d: nat, i: nat, j: nat)
    requires i < j < |ms| && ms[i].transaction.Some? && ms[j].transaction.Some?
    requires forall x: nat, y: nat :: d <= x < y < d + TxCount(ms) ==> clock(x) < clock(y)
    ensures StampInOrder(ms, clock, d)[i].assignedTimestamp < StampInOrder(ms, clock, d)[j].assignedTimestamp
  {
    StampInOrderAt(ms, clock, d, i);
    StampInOrderAt(ms, clock, d, j);
    TxCountGrows(ms, i, j);
    TxCountGrows(ms, j, |ms|);
    assert ms[..|ms|] == ms;
  }

  function FanOutAll(siblings: seq<string>, ms: seq<BroadcastMsg>): seq<(string, BroadcastMsg)>
  {
    if ms == [] then [] else FanOut(siblings, ms[0]) + FanOutAll(siblings, ms[1..])
  }

  lemma {:induction false} FanOutAllAppend(siblings: seq<string>, ms: seq<BroadcastMsg>, ns: seq<BroadcastMsg>)
    ensures FanOutAll(siblings, ms + ns) == FanOutAll(siblings, ms) + FanOutAll(siblings, ns)
    decreases |ms|
  {
    if ms == [] {
      assert ms + ns == ns;
    } else {
      assert (ms + ns)[0] == ms[0] && (ms + ns)[1..] == ms[1..] + ns;
      FanOutAllAppend(siblings, ms[1..], ns);
      calc {
        FanOutAll(siblings, ms + ns);
        FanOut(siblings, ms[0]) + FanOutAll(siblings, ms[1..] + ns);
        FanOut(siblings, ms[0]) + (FanOutAll(siblings, ms[1..]) + FanOutAll(siblings, ns));
        (FanOut(siblings, ms[0]) + FanOutAll(siblings, ms[1..])) + FanOutAll(siblings, ns);
      }
    }
  }

  /**
   * A sequencer: its proposals queue, the `done` set of its run loop, its siblings (the servers of its
   * shard other than itself, in the stub map's iteration order), the calls it has made to them, the
   * executor it runs messages on, and the transaction manager's clock: `getNewTimestamp` returns
   * `clock(drawn)` and advances `drawn`.
   */
  class Sequencer {
    var proposals: seq<Proposal>
    var done: set<(string, int)>
    const siblings: seq<string>
    var calls: seq<(string, BroadcastMsg)>
    const executor: Executor
    const clock: nat -> Long
    var drawn: nat

    constructor(siblings: seq<string>, executor: Executor, clock: nat -> Long)
      ensures this.siblings == siblings && this.executor == executor && this.clock == clock
      ensures proposals == [] && done == {} && calls == [] && drawn == 0
    {
      this.siblings := siblings;
      this.executor := executor;
      this.clock := clock;
      proposals := [];
      done := {};
      calls := [];
      drawn := 0;
    }

    /** `broadcastToShard`: a proposal joins the back of the queue, not yet scheduled. */
    method BroadcastToShard(request: BroadcastMsg) returns (p: Proposal)
      modifies this
      ensures fresh(p) && p.msg == request && !p.scheduledSignal
      ensures proposals == old(proposals) + [p]
      ensures done == old(done) && calls == old(calls) && drawn == old(drawn)
    {
      p := new Proposal(request);
      proposals := proposals + [p];
    }

    /**
     * One iteration of `run`: takes the oldest proposal and signals it scheduled; unless suppressed
     * by `done`, stamps it (only a single transaction draws a clock value), sends it to every
     * sibling, whose failures are ignored, and executes it locally. An empty queue blocks, which
     * changes nothing.
     */
    method Step()
      modifies this, executor, if |proposals| > 0 then {proposals[0]} else {}
      ensures |old(proposals)| == 0 ==> proposals == old(proposals) && calls == old(calls) &&
                                        drawn == old(drawn) && executor.processed == old(executor.processed)
      ensures |old(proposals)| > 0 ==>
        proposals == old(proposals)[1..] && old(proposals)[0].scheduledSignal &&
        calls == old(calls) + Handle(done, siblings, old(proposals)[0].msg, clock(old(drawn))).0 &&
        executor.processed == old(executor.processed) + Handle(done, siblings, old(proposals)[0].msg, clock(old(drawn))).1 &&
        drawn == old(drawn) + (if Suppressed(done, old(proposals)[0].msg) then 0 else Draws(old(proposals)[0].msg))
      ensures done == old(done) && executor.packets == old(executor.packets)
    {
      if |proposals| == 0 {
        return;
      }
      var currReq := proposals[0];
      proposals := proposals[1..];
      currReq.Finish();
      var currId := (currReq.msg.origServerId, currReq.msg.pendingReqId);
      if currId !in done {
        ghost var timestamp := clock(drawn);
        var msgToExecute := currReq.msg;
        if currReq.msg.transaction.Some? {
          var currTimestamp := clock(drawn);
          drawn := drawn + 1;
          msgToExecute := currReq.msg.(assignedTimestamp := currTimestamp);
        }
        var sent: seq<(string, BroadcastMsg)> := [];
        for i := 0 to |siblings|
          invariant sent == FanOut(siblings[..i], msgToExecute)
        {
          sent := sent + [(siblings[i], msgToExecute)];
        }
        assert siblings[..|siblings|] == siblings;
        assert msgToExecute == Stamped(currReq.msg, timestamp);
        calls := calls + sent;
        executor.ExecutePacket(msgToExecute);
      } else {
        assert calls + [] == calls && executor.processed + [] == executor.processed;
      }
    }

    /**
     * `run`, for `steps` iterations (or until the queue is empty, where the thread blocks): `done`
     * starts empty and nothing ever adds to it, so the proposals are handled in queue order, each
     * marked scheduled, none skipped, and the single transactions take successive clock values.
     */
    method Run(steps: nat)
      modifies this, executor, set i | 0 <= i < steps && i < |proposals| :: proposals[i]
      ensures var n := if steps < |old(proposals)| then steps else |old(proposals)|;
              var ms := StampInOrder(Msgs(old(proposals)[..n]), clock, old(drawn));
              proposals == old(proposals)[n..] &&
              (forall i :: 0 <= i < n ==> old(proposals)[i].scheduledSignal) &&
              calls == old(calls) + FanOutAll(siblings, ms) &&
              executor.processed == old(executor.processed) + ActionsOfAll(ms) &&
              drawn == old(drawn) + TxCount(Msgs(old(proposals)[..n])) &&
              forall i :: n <= i < |old(proposals)| && old(proposals)[i] !in old(proposals)[..n] ==>
                old(proposals)[i].scheduledSignal == old(proposals[i].scheduledSignal)
      ensures done == {} && executor.packets == old(executor.packets)
    {
      var n := if steps < |proposals| then steps else |proposals|;
      done := {};
      ghost var ps, c0, e0, d0 := proposals, calls, executor.processed, drawn;
      for k := 0 to n
        invariant proposals == ps[k..] && done == {}
        invariant forall i :: 0 <= i < k ==> ps[i].scheduledSignal
        invariant executor.packets == old(executor.packets)
        invariant drawn == d0 + TxCount(Msgs(ps[..k]))
        invariant calls == c0 + RunCalls(siblings, ps, k, clock, d0)
        invariant executor.processed == e0 + RunActions(ps, k, clock, d0)
      {
        ghost var sent, acted, dk := calls, executor.processed, drawn;
        assert proposals[0] == ps[k];
        Step();
        RunStepAdvances(siblings, ps, k, clock, d0, c0, e0, sent, acted, dk, calls, executor.processed, drawn);
      }
    }
  }

  /** The calls to siblings for the first `k` proposals of `ps`, the clock starting at draw `d`. */
  function RunCalls(siblings: seq<string>, ps: seq<Proposal>, k: nat, clock: nat -> Long, d: nat): seq<(string, BroadcastMsg)>
    requires k <= |ps|
  {
    FanOutAll(siblings, StampInOrder(Msgs(ps[..k]), clock, d))
  }

  /** The local handler calls for the first `k` proposals of `ps`, the clock starting at draw `d`. */
  function RunActions(ps: seq<Proposal>, k: nat, clock: nat -> Long, d: nat): seq<Action>
    requires k <= |ps|
  {
    ActionsOfAll(StampInOrder(Msgs(ps[..k]), clock, d))
  }

  /** Handling one more proposal appends its calls and its local actions, and draws its clock values. */
  lemma RunAdvances(siblings: seq<string>, ps: seq<Proposal>, k: nat, clock: nat -> Long, d: nat)
    requires k < |ps|
    ensures TxCount(Msgs(ps[..k + 1])) == TxCount(Msgs(ps[..k])) + Draws(ps[k].msg)
    ensures var m := Stamped(ps[k].msg, clock(d + TxCount(Msgs(ps[..k]))));
            RunCalls(siblings, ps, k + 1, clock, d) == RunCalls(siblings, ps, k, clock, d) + FanOut(siblings, m) &&
            RunActions(ps, k + 1, clock, d) == RunActions(ps, k, clock, d) + ActionsOf(m)
  {
    var before, after := Msgs(ps[..k]), Msgs(ps[..k + 1]);
    assert after[..k] == before && after[k] == ps[k].msg;
    var m := Stamped(ps[k].msg, clock(d + TxCount(before)));
    assert StampInOrder(after, clock, d) == StampInOrder(before, clock, d) + [m];
    FanOutAllAppend(siblings, StampInOrder(before, clock, d), [m]);
    ActionsOfAllAppend(StampInOrder(before, clock, d), [m]);
    assert [m][1..] == [];
  }

  /**
   * One iteration of the run loop keeps the loop's account of the calls made, the actions executed
   * and the clock values drawn, given what `Step` does with an empty `done` set.
   */
  lemma RunStepAdvances(siblings: seq<string>, ps: seq<Proposal>, k: nat, clock: nat -> Long, d0: nat,
                        c0: seq<(string, BroadcastMsg)>, e0: seq<Action>,
                        calls: seq<(string, BroadcastMsg)>, acts: seq<Action>, drawn: nat,
                        calls': seq<(string, BroadcastMsg)>, acts': seq<Action>, drawn': nat)
    requires k < |ps|
    requires calls == c0 + RunCalls(siblings, ps, k, clock, d0) && acts == e0 + RunActions(ps, k, clock, d0)
    requires drawn == d0 + TxCount(Msgs(ps[..k]))
    requires calls' == calls + Handle({}, siblings, ps[k].msg, clock(drawn)).0
    requires acts' == acts + Handle({}, siblings, ps[k].msg, clock(drawn)).1
    requires drawn' == drawn + (if Suppressed({}, ps[k].msg) then 0 else Draws(ps[k].msg))
    ensures calls' == c0 + RunCalls(siblings, ps, k + 1, clock, d0) && acts' == e0 + RunActions(ps, k + 1, clock, d0)
    ensures drawn' == d0 + TxCount(Msgs(ps[..k + 1]))
  {
    var m := Stamped(ps[k].msg, clock(drawn));
    NothingSuppressed(siblings, ps[k].msg, clock(drawn));
    RunAdvances(siblings, ps, k, clock, d0);
    assert calls' == c0 + (RunCalls(siblings, ps, k, clock, d0) + FanOut(siblings, m));
    assert acts' == e0 + (RunActions(ps, k, clock, d0) + ActionsOf(m));
  }

  /** Because `done` is never added to, no proposal is ever suppressed as a duplicate. */
  lemma NothingSuppressed(siblings: seq<string>, m: BroadcastMsg, timestamp: Long)
    ensures Handle({}, siblings, m, timestamp) == (FanOut(siblings, Stamped(m, timestamp)), ActionsOf(Stamped(m, timestamp)))
    ensures |Handle({}, siblings, m, timestamp).0| == |siblings|
  {
  }

  /**
   * Two proposals with the same (origin server, pending request) pair are both executed: the
   * duplicate check never fires.
   */
  lemma DuplicatesBothExecuted(m1: BroadcastMsg, m2: BroadcastMsg, clock: nat -> Long, d: nat)
    requires m1.origServerId == m2.origServerId && m1.pendingReqId == m2.pendingReqId
    requires Dispatch(m1).Some? && Dispatch(m2).Some?
    ensures |ActionsOfAll(StampInOrder([m1, m2], clock, d))| == 2
  {
    var ms := StampInOrder([m1, m2], clock, d);
    StampInOrderAt([m1, m2], clock, d, 0);
    StampInOrderAt([m1, m2], clock, d, 1);
    assert ms[1..][1..] == [];
  }
}

// Multi-Paxos proposer: the choice among promised values, one instance's
// rounds, the adoption/re-queue rule and the YES/NO replies to requesters.
// Quorum outcomes and the leader oracle are inputs: the RPCs behind them
// are not modelled.
module Proposing {
  import Reorder

  type Bytes = Reorder.Bytes

  /** The empty byte string, which a promise uses to say "nothing accepted yet". */
  const EMPTY: Bytes := []

  /**
   * A round number: a round counter and the proposer's id. Round numbers
   * are ordered by counter first and by proposer id second.
   */
  datatype RoundNo = RoundNo(round: int, proposer: int)

  /** The smallest round number a promise can be compared against. */
  const ZERO := RoundNo(0, 0)

  predicate Below(a: RoundNo, b: RoundNo) {
    a.round < b.round || (a.round == b.round && a.proposer < b.proposer)
  }

  predicate AtMost(a: RoundNo, b: RoundNo) {
    !Below(b, a)
  }

  /** `roundNo++`: the next round of the same proposer, strictly later. */
  function Next(r: RoundNo): (s: RoundNo)
    ensures Below(r, s) && s.proposer == r.proposer
  {
    RoundNo(r.round + 1, r.proposer)
  }

  /** An acceptor's promise: the round of the value it last accepted, and that value. */
  datatype Promise = Promise(roundNo: RoundNo, value: Bytes)

  /**
   * The left-to-right scan of `maxByRoundNo`: `best` and `v` are the
   * running maximum and its value; only a strictly larger round replaces them.
   */
  function Scan(ps: seq<Promise>, best: RoundNo, v: Bytes): Bytes
    decreases |ps|
  {
    if ps == [] then v
    else if Below(best, ps[0].roundNo) then Scan(ps[1..], ps[0].roundNo, ps[0].value)
    else Scan(ps[1..], best, v)
  }

  /** The value `maxByRoundNo` picks from a list of promises. */
  function MaxByRoundNoOf(ps: seq<Promise>): Bytes {
    Scan(ps, ZERO, EMPTY)
  }

  /**
   * Promise `i` is the one a scan starting from `best` ends on: it is above
   * `best`, every earlier promise is strictly below it, and no later one is above it.
   */
  ghost predicate IsChosen(ps: seq<Promise>, best: RoundNo, i: int) {
    0 <= i < |ps| &&
    Below(best, ps[i].roundNo) &&
    (forall j :: 0 <= j < i ==> Below(ps[j].roundNo, ps[i].roundNo)) &&
    (forall j :: i < j < |ps| ==> AtMost(ps[j].roundNo, ps[i].roundNo))
  }

  lemma {:induction false} ScanChoice(ps: seq<Promise>, best: RoundNo, v: Bytes)
    ensures (forall j :: 0 <= j < |ps| ==> AtMost(ps[j].roundNo, best)) ==> Scan(ps, best, v) == v
    ensures (exists j :: 0 <= j < |ps| && Below(best, ps[j].roundNo)) ==>
              exists i :: IsChosen(ps, best, i) && Scan(ps, best, v) == ps[i].value
    decreases |ps|
  {
    if ps != [] {
      var t := ps[1..];
      if Below(best, ps[0].roundNo) {
        ScanChoice(t, ps[0].roundNo, ps[0].value);
        if exists j :: 0 <= j < |t| && Below(ps[0].roundNo, t[j].roundNo) {
          var i :| IsChosen(t, ps[0].roundNo, i) && Scan(t, ps[0].roundNo, ps[0].value) == t[i].value;
          assert IsChosen(ps, best, i + 1);
        } else {
          assert IsChosen(ps, best, 0);
        }
      } else {
        ScanChoice(t, best, v);
        if exists j :: 0 <= j < |t| && Below(best, t[j].roundNo) {
          var i :| IsChosen(t, best, i) && Scan(t, best, v) == t[i].value;
          assert IsChosen(ps, best, i + 1);
        } else {
          assert forall j :: 0 <= j < |ps| ==> AtMost(ps[j].roundNo, best) by {
            forall j | 0 <= j < |ps| ensures AtMost(ps[j].roundNo, best) {
              if j > 0 { assert ps[j] == t[j - 1]; }
            }
          }
        }
      }
    }
  }

  /**
   * `maxByRoundNo` returns EMPTY when no promise is above round (0,0) (in
   * particular for no promises at all); otherwise the value of the first
   * promise with the strictly greatest round number, later ties not replacing it.
   */
  lemma MaxByRoundNoChoice(ps: seq<Promise>)
    ensures ps == [] ==> MaxByRoundNoOf(ps) == EMPTY
    ensures (forall j :: 0 <= j < |ps| ==> AtMost(ps[j].roundNo, ZERO)) ==> MaxByRoundNoOf(ps) == EMPTY
    ensures (exists j :: 0 <= j < |ps| && Below(ZERO, ps[j].roundNo)) ==>
              exists i :: IsChosen(ps, ZERO, i) && MaxByRoundNoOf(ps) == ps[i].value
  {
    ScanChoice(ps, ZERO, EMPTY);
  }

  /** At most one promise is the chosen one, so the choice is well defined. */
  lemma ChosenUnique(ps: seq<Promise>, best: RoundNo, i: int, k: int)
    requires IsChosen(ps, best, i) && IsChosen(ps, best, k)
    ensures i == k
  {
  }

  /** The loop of `maxByRoundNo`, keeping the running maximum and its value. */
  method MaxByRoundNo(promises: seq<Promise>) returns (v: Bytes)
    ensures v == MaxByRoundNoOf(promises)
  {
    var maxRoundNo := ZERO;
    v := EMPTY;
    assert promises[0..] == promises;
    for i := 0 to |promises|
      invariant Scan(promises[i..], maxRoundNo, v) == MaxByRoundNoOf(promises)
    {
      assert promises[i..][1..] == promises[i + 1..];
      var roundNo := promises[i].roundNo;
      if Below(maxRoundNo, roundNo) {
        maxRoundNo := roundNo;
        v := promises[i].value;
      }
    }
  }

  /** The acknowledgement sent back to a requester. */
  datatype Ack = YES | NO

  /** The reply channel a requester waits on; `sent` is what was sent into it. */
  class ReplyChannel {
    var sent: seq<Ack>

    constructor()
      ensures sent == []
    {
      sent := [];
    }

    method Send(a: Ack)
      modifies this
      ensures sent == old(sent) + [a]
    {
      sent := sent + [a];
    }
  }

  /** A queued proposal: the value and the channel its requester waits on. */
  datatype Pending = Pending(value: Bytes, chan: ReplyChannel)

  /** A commit handed to the local learner. */
  datatype Commit = Commit(instanceNo: int, value: Bytes)

  /** What the quorum exchanges of one round returned. */
  datatype Quorums = Quorums(prepareOk: bool, promises: seq<Promise>, acceptOk: bool)

  /** One pass of an instance's loop: whether this proposer is leader, and the round's quorums. */
  datatype Turn = Turn(leader: bool, quorums: Quorums)

  /** The value an instance proposes after a successful prepare that returned `adopted`. */
  function Adopt(current: Bytes, adopted: Bytes): (r: Bytes)
    ensures adopted != EMPTY ==> r == adopted
    ensures adopted == EMPTY ==> r == current
  {
    if adopted != EMPTY then adopted else current
  }

  /** The proposals re-queued after a prepare that returned `adopted`. */
  function Requeued(adopted: Bytes, origValue: Bytes, chan: ReplyChannel): (r: seq<Pending>)
    ensures |r| <= 1
    ensures r != [] <==> adopted != EMPTY && adopted != origValue
    ensures forall p :: p in r ==> p == Pending(origValue, chan)
  {
    if adopted != EMPTY && adopted != origValue then [Pending(origValue, chan)] else []
  }

  /**
   * How an instance ended, seen from its requester and the learner: either
   * it committed `value` (and replied YES iff that is the original value),
   * or it gave up as a non-leader (and replied NO iff its value is still the
   * original one).
   */
  ghost predicate Settled(sent0: seq<Ack>, sent: seq<Ack>, commits0: seq<Commit>, commits: seq<Commit>,
                          instanceNo: int, value: Bytes, origValue: Bytes)
  {
    (commits == commits0 + [Commit(instanceNo, value)] &&
     sent == sent0 + (if value == origValue then [YES] else [])) ||
    (commits == commits0 &&
     sent == sent0 + (if value == origValue then [NO] else []))
  }

  /** A requester hears YES only once its own value is committed in this instance. */
  lemma YesOnlyAfterOwnCommit(sent0: seq<Ack>, commits0: seq<Commit>, commits: seq<Commit>,
                              instanceNo: int, value: Bytes, origValue: Bytes)
    requires Settled(sent0, sent0 + [YES], commits0, commits, instanceNo, value, origValue)
    ensures value == origValue && commits == commits0 + [Commit(instanceNo, origValue)]
  {
    assert (sent0 + [YES])[|sent0|] == YES;
  }

  /** A requester hears NO only when nothing was committed and its value was never replaced. */
  lemma NoOnlyWithoutCommit(sent0: seq<Ack>, commits0: seq<Commit>, commits: seq<Commit>,
                            instanceNo: int, value: Bytes, origValue: Bytes)
    requires Settled(sent0, sent0 + [NO], commits0, commits, instanceNo, value, origValue)
    ensures value == origValue && commits == commits0
  {
    assert (sent0 + [NO])[|sent0|] == NO;
  }

  class Proposer {
    const id: int
    /** The proposal stream, in arrival order. */
    var proposals: seq<Pending>
    /** The commits handed to the local learner, in order. */
    var commits: seq<Commit>

    constructor(id: int)
      ensures this.id == id && proposals == [] && commits == []
    {
      this.id := id;
      proposals := [];
      commits := [];
    }

    method AddProposal(p: Pending)
      modifies this
      ensures proposals == old(proposals) + [p]
      ensures commits == old(commits)
    {
      proposals := proposals + [p];
    }

    /** `doPropose`: queue the value with a fresh reply channel (the wait for the reply is not modelled). */
    method DoPropose(value: Bytes) returns (chan: ReplyChannel)
      modifies this
      ensures fresh(chan) && chan.sent == []
      ensures proposals == old(proposals) + [Pending(value, chan)]
      ensures commits == old(commits)
    {
      chan := new ReplyChannel();
      AddProposal(Pending(value, chan));
    }

    /**
     * One pass of `start`: take the oldest proposal, run it as instance
     * `lastInstance + 1` (the learner's last instance is an input), with
     * both the instance's value and its original value set to the proposal.
     */
    method StartNext(lastInstance: int, schedule: seq<Turn>) returns (inst: Instance, finished: bool)
      requires proposals != []
      modifies this, proposals[0].chan
      ensures fresh(inst) && inst.owner == this
      ensures inst.instanceNo == lastInstance + 1
      ensures inst.origValue == old(proposals[0].value) && inst.origChannel == old(proposals[0].chan)
      ensures |proposals| >= |old(proposals)| - 1 && proposals[..|old(proposals)| - 1] == old(proposals[1..])
      ensures forall j :: |old(proposals)| - 1 <= j < |proposals| ==> proposals[j] == Pending(inst.origValue, inst.origChannel)
      ensures finished ==> Settled(old(proposals[0].chan.sent), inst.origChannel.sent, old(commits), commits,
                                   inst.instanceNo, inst.value, inst.origValue)
      ensures !finished ==> inst.origChannel.sent == old(proposals[0].chan.sent) && commits == old(commits)
    {
      var p := proposals[0];
      proposals := proposals[1..];
      inst := new Instance(this, lastInstance + 1, p.value, p.chan);
      finished := inst.Run(schedule);
    }
  }

  class Instance {
    const owner: Proposer
    const instanceNo: int
    const origValue: Bytes
    const origChannel: ReplyChannel
    /** The value this instance currently proposes. */
    var value: Bytes
    var roundNo: RoundNo

    constructor(owner: Proposer, instanceNo: int, proposal: Bytes, chan: ReplyChannel)
      ensures this.owner == owner && this.instanceNo == instanceNo
      ensures value == proposal && origValue == proposal && origChannel == chan
      ensures roundNo == RoundNo(1, owner.id)
    {
      this.owner := owner;
      this.instanceNo := instanceNo;
      value := proposal;
      origValue := proposal;
      origChannel := chan;
      roundNo := RoundNo(1, owner.id);
    }

    /**
     * `doRound`: move to the next round number; a failed prepare ends the
     * round; otherwise adopt the promised value (re-queueing the original
     * proposal when it was displaced), and if the accept quorum succeeds
     * commit and reply YES when the committed value is the original.
     */
    method DoRound(q: Quorums) returns (success: bool)
      modifies this, owner, origChannel
      ensures roundNo == Next(old(roundNo))
      ensures success <==> q.prepareOk && q.acceptOk
      ensures !q.prepareOk ==> value == old(value) && owner.proposals == old(owner.proposals)
      ensures q.prepareOk ==> value == Adopt(old(value), MaxByRoundNoOf(q.promises))
      ensures q.prepareOk ==>
                owner.proposals == old(owner.proposals) + Requeued(MaxByRoundNoOf(q.promises), origValue, origChannel)
      ensures success ==> owner.commits == old(owner.commits) + [Commit(instanceNo, value)]
      ensures success ==> origChannel.sent == old(origChannel.sent) + (if value == origValue then [YES] else [])
      ensures !success ==> owner.commits == old(owner.commits) && origChannel.sent == old(origChannel.sent)
    {
      roundNo := Next(roundNo);
      if !q.prepareOk {
        return false;
      }
      var v := MaxByRoundNo(q.promises);
      if v != EMPTY {
        value := v;
        if v != origValue {
          owner.AddProposal(Pending(origValue, origChannel));
        }
      }
      if !q.acceptOk {
        return false;
      }
      owner.commits := owner.commits + [Commit(instanceNo, value)];
      if value == origValue {
        origChannel.Send(YES);
      }
      return true;
    }

    /**
     * `run`: while leader, do rounds until one succeeds; on losing
     * leadership reply NO if the value is still the original, and stop.
     * `finished` is false when the schedule ran out first.
     */
    method Run(schedule: seq<Turn>) returns (finished: bool)
      modifies this, owner, origChannel
      ensures finished ==> Settled(old(origChannel.sent), origChannel.sent, old(owner.commits), owner.commits,
                                   instanceNo, value, origValue)
      ensures !finished ==> origChannel.sent == old(origChannel.sent) && owner.commits == old(owner.commits)
      ensures |owner.proposals| >= |old(owner.proposals)| && owner.proposals[..|old(owner.proposals)|] == old(owner.proposals)
      ensures forall j :: |old(owner.proposals)| <= j < |owner.proposals| ==> owner.proposals[j] == Pending(origValue, origChannel)
      ensures AtMost(old(roundNo), roundNo) && roundNo.proposer == old(roundNo).proposer
    {
      finished := false;
      var i := 0;
      while i < |schedule| && !finished
        invariant 0 <= i <= |schedule|
        invariant finished ==> Settled(old(origChannel.sent), origChannel.sent, old(owner.commits), owner.commits,
                                       instanceNo, value, origValue)
        invariant !finished ==> origChannel.sent == old(origChannel.sent) && owner.commits == old(owner.commits)
        invariant |owner.proposals| >= |old(owner.proposals)| && owner.proposals[..|old(owner.proposals)|] == old(owner.proposals)
        invariant forall j :: |old(owner.proposals)| <= j < |owner.proposals| ==> owner.proposals[j] == Pending(origValue, origChannel)
        invariant AtMost(old(roundNo), roundNo) && roundNo.proposer == old(roundNo).proposer
        decreases |schedule| - i, !finished
      {
        var turn := schedule[i];
        i := i + 1;
        if turn.leader {
          finished := DoRound(turn.quorums);
        } else {
          if value == origValue {
            origChannel.Send(NO);
          }
          finished := true;
        }
      }
    }
  }
}

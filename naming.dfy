// Naming and leader helpers of the coordination client: which shard a
// server belongs to, the nodes created at start-up, sorted listings, the
// leader rule, shard routing and the counter-based timestamps.
// ZooKeeper itself is not modelled: what its calls return is an input.
module Naming {
  import opened Wrappers
  import opened Strings
  import opened Model

  /** A Java `int`. */
  type Int32 = x: int | INT_MIN <= x <= INT_MAX

  /** Java's `a / b` on `int`: truncates toward zero, and `MIN_VALUE / -1` wraps to `MIN_VALUE`. */
  function JavaIntDiv(a: Int32, b: Int32): (q: Int32)
    requires b != 0
    ensures a >= 0 && b > 0 ==> q == a / b
  {
    if a == INT_MIN && b == -1 then INT_MIN
    else
      var n: nat := if a < 0 then -(a as int) else a as int;
      var d: nat := if b < 0 then -(b as int) else b as int;
      if (a < 0) != (b < 0) then -(n / d) else n / d
  }

  const SERVER_MARKER := "server-"
  const COUNTER_MARKER := "child-"
  const SHARD_PREFIX := "shard-"
  const SHARDS_PATH := "/shards"
  const SERVERS_PATH := "/servers"
  const BARRIERS_PATH := "/barriers"
  const COUNTER_PATH := "/counter"

  /** The two markers contain no line terminator and do not end in a digit. */
  lemma MarkersArePlain()
    ensures NoLineTerminator(SERVER_MARKER) && !IsDigit(SERVER_MARKER[|SERVER_MARKER| - 1])
    ensures NoLineTerminator(COUNTER_MARKER) && !IsDigit(COUNTER_MARKER[|COUNTER_MARKER| - 1])
  {
    forall i | 0 <= i < |SERVER_MARKER| ensures !IsLineTerminator(SERVER_MARKER[i]) {
      assert 'a' <= SERVER_MARKER[i] <= 'z' || SERVER_MARKER[i] == '-';
    }
    forall i | 0 <= i < |COUNTER_MARKER| ensures !IsLineTerminator(COUNTER_MARKER[i]) {
      assert 'a' <= COUNTER_MARKER[i] <= 'z' || COUNTER_MARKER[i] == '-';
    }
  }

  /** The name of the shard with index `i`. */
  function ShardName(i: int): string { SHARD_PREFIX + IntToDecimal(i) }

  /**
   * `getShardForServer`: drop everything up to the last "server-", parse
   * the rest as an `int` and name shard `index / numShards`.
   */
  function ShardForServer(serverId: string, numShards: Int32): (r: Result<string, Exception>)
    ensures r.Err? ==> r.error == NumberFormatException || (r.error == ArithmeticException && numShards == 0)
  {
    match ParseInt(ReplaceThroughLast(serverId, SERVER_MARKER, ""))
    case None => Err(NumberFormatException)
    case Some(index) =>
      if numShards == 0 then Err(ArithmeticException)
      else Ok(ShardName(JavaIntDiv(index, numShards)))
  }

  /** A sequential id ending in "server-" and a run of digits belongs to shard `digits / numShards`. */
  lemma ShardForServerOfSequentialId(id: string, prefix: string, digits: string, numShards: Int32)
    requires id == prefix + SERVER_MARKER + digits
    requires NoLineTerminator(prefix) && |digits| > 0 && AllDigits(digits) && DigitsValue(digits) <= INT_MAX
    requires numShards > 0
    ensures ShardForServer(id, numShards) == Ok(ShardName(DigitsValue(digits) / numShards))
  {
    MarkersArePlain();
    ReplaceThroughLastDigits(prefix, SERVER_MARKER, digits, "");
    assert "" + digits == digits;
    var rest := ReplaceThroughLast(id, SERVER_MARKER, "");
    assert rest == digits;
    ParseDigits(digits, INT_MIN, INT_MAX);
    assert ParseInt(rest) == Some(DigitsValue(digits));
  }

  /** The names of the shard nodes that start-up creates. */
  ghost function InitialShardNames(numShards: int): set<string>
  {
    set i | 0 <= i < numShards :: ShardName(i)
  }

  lemma ShardNameInjective(a: nat, b: nat)
    requires ShardName(a) == ShardName(b)
    ensures a == b
  {
    assert ShardName(a)[|SHARD_PREFIX|..] == NatToBase(a, 10);
    assert ShardName(b)[|SHARD_PREFIX|..] == NatToBase(b, 10);
    DecimalInjective(a, b);
  }

  /** Shard `k` is among the shards created at start-up exactly when `k < numShards`. */
  lemma ShardNameCreatedIff(k: nat, numShards: int)
    ensures ShardName(k) in InitialShardNames(numShards) <==> k < numShards
  {
    if ShardName(k) in InitialShardNames(numShards) {
      var i :| 0 <= i < numShards && ShardName(i) == ShardName(k);
      ShardNameInjective(i, k);
    }
    if k < numShards {
      assert ShardName(k) in InitialShardNames(numShards);
    }
  }

  lemma ShardNameTwo()
    ensures ShardName(2) == "shard-2"
  {
    assert NatToBase(2, 10) == "2";
  }

  /**
   * With two shards, the server with index 4 (the fifth to register) is
   * assigned "shard-2", which start-up never creates.
   */
  lemma ShardForServerBeyondInitialShards(id: string, prefix: string, digits: string)
    requires id == prefix + SERVER_MARKER + digits
    requires NoLineTerminator(prefix) && |digits| > 0 && AllDigits(digits) && DigitsValue(digits) == 4
    ensures ShardForServer(id, 2) == Ok("shard-2")
    ensures "shard-2" !in InitialShardNames(2)
  {
    ShardNameTwo();
    ShardForServerOfSequentialId(id, prefix, digits, 2);
    ShardNameCreatedIff(2, 2);
  }

  /**
   * With two shards, start-up creates no node for the shard of the server
   * with index 4, so that server's registration fails with `NoNodeException`.
   */
  lemma NoShardNodeBeyondInitialShards(id: string, prefix: string, digits: string, created: string)
    requires id == prefix + SERVER_MARKER + digits
    requires NoLineTerminator(prefix) && |digits| > 0 && AllDigits(digits) && DigitsValue(digits) == 4
    requires |created| > |SERVERS_PATH| && created[..|SERVERS_PATH| + 1] == SERVERS_PATH + "/"
    ensures ShardForServer(id, 2) == Ok("shard-2")
    ensures SHARDS_PATH + "/" + "shard-2" !in BASE_PATHS + ShardPaths(2) + {created}
  {
    ShardForServerBeyondInitialShards(id, prefix, digits);
    ShardTwoHasNoNode(created);
  }

  /** No node named by start-up with two shards, nor a server node, is "/shards/shard-2". */
  lemma ShardTwoHasNoNode(created: string)
    requires |created| > |SERVERS_PATH| && created[..|SERVERS_PATH| + 1] == SERVERS_PATH + "/"
    ensures SHARDS_PATH + "/" + "shard-2" !in BASE_PATHS + ShardPaths(2) + {created}
  {
    var parent := SHARDS_PATH + "/" + "shard-2";
    assert |parent| == 15;
    if parent in ShardPaths(2) {
      var i :| 0 <= i < 2 && parent == SHARDS_PATH + "/" + ShardName(i);
      ShardPathSuffix(ShardName(i));
      ShardPathSuffix("shard-2");
      ShardNameCreatedIff(2, 2);
      ShardNameTwo();
    }
    assert created[..9][2] == created[2] && parent[2] == 'h';
  }

  lemma ShardPathSuffix(name: string)
    ensures (SHARDS_PATH + "/" + name)[|SHARDS_PATH| + 1..] == name
  {
  }

  /** `registerServer`'s normalisation of the created path to "server-" plus its suffix. */
  function NormaliseServerId(created: string): string
  {
    ReplaceThroughLast(created, SERVER_MARKER, SERVER_MARKER)
  }

  /** A created sequential node "…server-<digits>" is normalised to "server-<digits>". */
  lemma NormaliseServerIdOfSequentialId(prefix: string, digits: string)
    requires NoLineTerminator(prefix) && AllDigits(digits)
    ensures NormaliseServerId(prefix + SERVER_MARKER + digits) == SERVER_MARKER + digits
  {
    MarkersArePlain();
    ReplaceThroughLastDigits(prefix, SERVER_MARKER, digits, SERVER_MARKER);
  }

  /** Normalising a created sequential id does not change the shard it belongs to. */
  lemma NormalisingKeepsShard(prefix: string, digits: string, numShards: Int32)
    requires NoLineTerminator(prefix) && |digits| > 0 && AllDigits(digits) && DigitsValue(digits) <= INT_MAX
    requires numShards > 0
    ensures ShardForServer(NormaliseServerId(prefix + SERVER_MARKER + digits), numShards) ==
            ShardForServer(prefix + SERVER_MARKER + digits, numShards)
  {
    var created := prefix + SERVER_MARKER + digits;
    var normalised := SERVER_MARKER + digits;
    NormaliseServerIdOfSequentialId(prefix, digits);
    assert normalised == "" + SERVER_MARKER + digits by { assert "" + SERVER_MARKER == SERVER_MARKER; }
    ShardForServerOfSequentialId(created, prefix, digits, numShards);
    ShardForServerOfSequentialId(normalised, "", digits, numShards);
  }

  /** `getAllShards` / `getServersInShard`: the listed children, sorted ascending. */
  function SortedChildren(children: seq<string>): (r: seq<string>)
    ensures Ascending(r) && multiset(r) == multiset(children)
  {
    SortStrings(children)
  }

  /** The listing does not depend on the order in which ZooKeeper returns the children. */
  lemma SortedChildrenIgnoresOrder(a: seq<string>, b: seq<string>)
    requires multiset(a) == multiset(b)
    ensures SortedChildren(a) == SortedChildren(b)
  {
    AscendingUnique(SortedChildren(a), SortedChildren(b));
  }

  /** `getShardLeader`: the least server id of the shard; `Collections.min` of no servers throws. */
  function GetShardLeader(servers: seq<string>): (r: Result<string, Exception>)
    ensures r.Ok? <==> servers != []
    ensures r.Ok? ==> r.value in servers && forall x :: x in servers ==> LexLe(r.value, x)
    ensures r.Err? ==> r.error == NoSuchElementException
  {
    if servers == [] then Err(NoSuchElementException) else Ok(MinString(servers))
  }

  /**
   * `watchLeader`: the same rule on the children read while setting the
   * watch; a failed read (`None`) gives null.
   */
  function WatchLeader(servers: Option<seq<string>>): (r: Result<Option<string>, Exception>)
    ensures servers.None? ==> r == Ok(None)
    ensures servers.Some? ==> (r.Ok? <==> GetShardLeader(servers.value).Ok?)
    ensures servers.Some? && r.Ok? ==> r.value == Some(GetShardLeader(servers.value).value)
  {
    match servers
    case None => Ok(None)
    case Some(s) =>
      match GetShardLeader(s)
      case Ok(leader) => Ok(Some(leader))
      case Err(e) => Err(e)
  }

  /** The leader is the first server of the sorted listing, whatever order the servers are listed in. */
  lemma LeaderIsFirstSorted(servers: seq<string>)
    requires servers != []
    ensures GetShardLeader(servers) == Ok(SortedChildren(servers)[0])
  {
    var sorted := SortedChildren(servers);
    var m := GetShardLeader(servers).value;
    assert sorted[0] in multiset(servers);
    assert m in multiset(sorted);
    AscendingHeadIsLeast(sorted, m);
    LexLeAntisym(m, sorted[0]);
  }

  /** Any two listings of the same servers agree on the leader. */
  lemma LeaderIgnoresOrder(a: seq<string>, b: seq<string>)
    requires multiset(a) == multiset(b)
    ensures GetShardLeader(a) == GetShardLeader(b)
  {
    if a != [] {
      assert b != [] by { assert |b| == |multiset(b)| == |multiset(a)| == |a|; }
      LeaderIsFirstSorted(a);
      LeaderIsFirstSorted(b);
      SortedChildrenIgnoresOrder(a, b);
    } else {
      assert b == [] by { assert |b| == |multiset(b)| == |multiset(a)| == 0; }
    }
  }

  /** `Hashing.consistentHash` applied to an address's hash code: a bucket below any positive count. */
  type Bucketing = f: (string, nat) -> nat | forall a, n :: 0 < n ==> f(a, n) < n
    witness (a: string, n: nat) => 0

  /**
   * `getResponsibleShard`: the sorted shard listing indexed by the
   * address's bucket; with no shards the bucket count is invalid.
   */
  function GetResponsibleShard(shards: seq<string>, address: string, bucket: Bucketing): (r: Result<string, Exception>)
    ensures r.Ok? <==> shards != []
    ensures r.Ok? ==> r.value in shards
    ensures r.Err? ==> r.error == IllegalArgumentException
  {
    var sorted := SortedChildren(shards);
    if |sorted| == 0 then Err(IllegalArgumentException)
    else
      var r := Ok(sorted[bucket(address, |sorted|)]);
      assert r.value in multiset(shards);
      r
  }

  /** Every server, whatever order its ZooKeeper listing has, routes an address to the same shard. */
  lemma ResponsibleShardIgnoresOrder(a: seq<string>, b: seq<string>, address: string, bucket: Bucketing)
    requires multiset(a) == multiset(b)
    ensures GetResponsibleShard(a, address, bucket) == GetResponsibleShard(b, address, bucket)
  {
    SortedChildrenIgnoresOrder(a, b);
  }

  /**
   * `getTimestamp`: the numeric suffix after "child-" of the created
   * sequential node, or -1 when the node could not be created (`None`).
   * The node is deleted afterwards, and a failed delete does not change the result.
   */
  function GetTimestamp(created: Option<string>): (r: Result<int, Exception>)
    ensures created.None? ==> r == Ok(-1)
    ensures created.Some? && r.Ok? ==> LONG_MIN <= r.value <= LONG_MAX
    ensures r.Err? ==> r.error == NumberFormatException
  {
    match created
    case None => Ok(-1)
    case Some(id) =>
      match ParseLong(ReplaceThroughLast(id, COUNTER_MARKER, ""))
      case None => Err(NumberFormatException)
      case Some(index) => Ok(index)
  }

  /** A counter node "…child-<digits>" yields the value of its digits. */
  lemma GetTimestampOfCounterNode(prefix: string, digits: string)
    requires NoLineTerminator(prefix) && |digits| > 0 && AllDigits(digits) && DigitsValue(digits) <= LONG_MAX
    ensures GetTimestamp(Some(prefix + COUNTER_MARKER + digits)) == Ok(DigitsValue(digits))
  {
    var id := prefix + COUNTER_MARKER + digits;
    MarkersArePlain();
    ReplaceThroughLastDigits(prefix, COUNTER_MARKER, digits, "");
    assert "" + digits == digits;
    var rest := ReplaceThroughLast(id, COUNTER_MARKER, "");
    assert rest == digits;
    ParseDigits(digits, LONG_MIN, LONG_MAX);
    assert ParseLong(rest) == Some(DigitsValue(digits));
  }

  /** The fixed nodes `setupInitialStructures` creates before the shard nodes. */
  const BASE_PATHS: set<string> := {"/", SERVERS_PATH, SHARDS_PATH, BARRIERS_PATH, COUNTER_PATH}

  /** The paths of the shard nodes "/shards/shard-0" … for `numShards` shards. */
  ghost function ShardPaths(numShards: int): set<string>
  {
    set i | 0 <= i < numShards :: SHARDS_PATH + "/" + ShardName(i)
  }

  lemma ShardPathsStep(i: nat)
    ensures ShardPaths(i + 1) == ShardPaths(i) + {SHARDS_PATH + "/" + ShardName(i)}
  {
  }

  lemma ShardPathsNone(n: int)
    requires n <= 0
    ensures ShardPaths(n) == {}
  {
  }

  /** The coordination client of one server: its identity and the nodes it knows to exist. */
  class ZooKeeperClient {
    const numShards: Int32
    var serverId: Option<string>
    var shardId: Option<string>
    /** The paths of the nodes this client created or found existing. */
    var nodes: set<string>

    constructor(numShards: Int32)
      ensures this.numShards == numShards && serverId == None && shardId == None && nodes == {}
    {
      this.numShards := numShards;
      serverId := None;
      shardId := None;
      nodes := {};
    }

    /** `createNodeIfNotExists`: an existing node is left as it is. */
    method CreateNodeIfNotExists(path: string)
      modifies this
      ensures nodes == old(nodes) + {path}
      ensures serverId == old(serverId) && shardId == old(shardId)
    {
      nodes := nodes + {path};
    }

    /** `setupInitialStructures`: the fixed nodes, then one node per shard. */
    method SetupInitialStructures()
      modifies this
      ensures nodes == old(nodes) + BASE_PATHS + ShardPaths(numShards)
      ensures serverId == old(serverId) && shardId == old(shardId)
    {
      nodes := nodes + BASE_PATHS;
      CreateShardNodes();
    }

    /** The loop of `setupInitialStructures` over the shard indexes. */
    method CreateShardNodes()
      modifies this
      ensures nodes == old(nodes) + ShardPaths(numShards)
      ensures serverId == old(serverId) && shardId == old(shardId)
    {
      var i := 0;
      while i < numShards
        invariant 0 <= i <= if numShards < 0 then 0 else numShards
        invariant nodes == old(nodes) + ShardPaths(i)
        invariant serverId == old(serverId) && shardId == old(shardId)
      {
        CreateNodeIfNotExists(SHARDS_PATH + "/" + ShardName(i));
        ShardPathsStep(i);
        i := i + 1;
      }
      if numShards <= 0 {
        ShardPathsNone(numShards);
      }
    }

    /**
     * `registerServer`: `created` is the path ZooKeeper gave the new
     * sequential server node; the id is normalised and its shard computed
     * and recorded, then an ephemeral node for the server is created under
     * that shard's node. ZooKeeper refuses that create with
     * `NoNodeException` when the shard's node does not exist, and with
     * `NodeExistsException` when the server's node already does.
     */
    method RegisterServer(created: string) returns (err: Option<Exception>)
      modifies this
      ensures serverId == Some(NormaliseServerId(created))
      ensures ShardForServer(NormaliseServerId(created), numShards).Err? ==>
                err == Some(ShardForServer(NormaliseServerId(created), numShards).error) &&
                shardId == old(shardId) && nodes == old(nodes) + {created}
      ensures ShardForServer(NormaliseServerId(created), numShards).Ok? ==>
                var shard := ShardForServer(NormaliseServerId(created), numShards).value;
                var parent := SHARDS_PATH + "/" + shard;
                var member := parent + "/" + NormaliseServerId(created);
                shardId == Some(shard) &&
                (parent !in old(nodes) + {created} ==>
                   err == Some(NoNodeException) && nodes == old(nodes) + {created}) &&
                (parent in old(nodes) + {created} && member in old(nodes) + {created} ==>
                   err == Some(NodeExistsException) && nodes == old(nodes) + {created}) &&
                (parent in old(nodes) + {created} && member !in old(nodes) + {created} ==>
                   err == None && nodes == old(nodes) + {created, member})
    {
      nodes := nodes + {created};
      var id := NormaliseServerId(created);
      serverId := Some(id);
      match ShardForServer(id, numShards)
      case Err(e) =>
        err := Some(e);
      case Ok(shard) =>
        shardId := Some(shard);
        var parent := SHARDS_PATH + "/" + shard;
        var member := parent + "/" + id;
        if parent !in nodes {
          err := Some(NoNodeException);
        } else if member in nodes {
          err := Some(NodeExistsException);
        } else {
          nodes := nodes + {member};
          err := None;
        }
    }
  }
}

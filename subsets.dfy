/**
 * The test driver of the multi-Paxos atomic broadcast: its static
 * configuration (which server ids form which shard, which port each id
 * listens on) and the power-set generator it uses to pick every non-empty
 * group of shards as a broadcast target.
 *
 * A Kotlin `Set` built by `setOf`/`toSet`/`+`/`-` iterates in insertion
 * order, so a set is modelled by the sequence of its elements in that order;
 * `Elems` forgets the order again.
 */
module Subsets {
  import Strings
  import opened Model

  /** The configuration constants of the driver. */
  const NUM_SHARDS: nat := 3
  const NUM_SERVERS_PER_SHARD: nat := 3
  const BASE_PORT: int := 8980

  function Elems<T>(s: seq<T>): set<T> { set x | x in s }

  function Pow2(n: nat): (p: nat)
    ensures p >= 1
  {
    if n == 0 then 1 else 2 * Pow2(n - 1)
  }

  /** Every listing in `ss` with `h` put in front. */
  function Prepend<T>(h: T, ss: seq<seq<T>>): (r: seq<seq<T>>)
    ensures |r| == |ss| && forall i :: 0 <= i < |ss| ==> r[i] == [h] + ss[i]
  {
    seq(|ss|, i requires 0 <= i < |ss| => [h] + ss[i])
  }

  lemma ElemsCons<T>(h: T, u: seq<T>)
    ensures Elems([h] + u) == {h} + Elems(u)
  {
    assert forall x :: x in [h] + u <==> x == h || x in u;
  }

  lemma HeadNotInTail<T>(s: seq<T>)
    requires s != [] && Distinct(s)
    ensures s[0] !in Elems(s[1..])
  {
    forall k | 0 <= k < |s| - 1 ensures s[1..][k] != s[0] {
      assert s[1..][k] == s[k + 1];
    }
  }

  // ---------------------------------------------------------------------
  // Set<T>.subsets()
  // ---------------------------------------------------------------------

  /**
   * `subsets` on the set iterating as `s`: the empty set alone for the
   * empty set; otherwise every subset of the tail, followed by every subset
   * of the tail with the head added in front. Each subset is given in its
   * own iteration order.
   */
  function Subsets<T>(s: seq<T>): (r: seq<seq<T>>)
    ensures |r| == Pow2(|s|)
    ensures r[0] == []
    decreases |s|
  {
    if s == [] then [[]] else Subsets(s[1..]) + Prepend(s[0], Subsets(s[1..]))
  }

  /** Every yielded set draws its elements from the input, without repetition when the input has none. */
  lemma {:induction false} SubsetsWithin<T>(s: seq<T>)
    ensures forall i :: 0 <= i < |Subsets(s)| ==> Elems(Subsets(s)[i]) <= Elems(s)
    ensures Distinct(s) ==> forall i :: 0 <= i < |Subsets(s)| ==> Distinct(Subsets(s)[i])
    decreases |s|
  {
    if s != [] {
      var t := Subsets(s[1..]);
      var r := Subsets(s);
      SubsetsWithin(s[1..]);
      assert r == t + Prepend(s[0], t);
      assert Elems(s) == {s[0]} + Elems(s[1..]) by {
        assert s == [s[0]] + s[1..];
        ElemsCons(s[0], s[1..]);
      }
      forall i | 0 <= i < |r|
        ensures Elems(r[i]) <= Elems(s)
      {
        if i >= |t| {
          ElemsCons(s[0], t[i - |t|]);
        } else {
          assert r[i] == t[i];
        }
      }
      if Distinct(s) {
        HeadNotInTail(s);
        assert Distinct(s[1..]);
        forall i | 0 <= i < |r| ensures Distinct(r[i]) {
          if i >= |t| {
            var u := t[i - |t|];
            assert s[0] !in Elems(u);
            assert r[i] == [s[0]] + u;
          } else {
            assert r[i] == t[i];
          }
        }
      }
    }
  }

  /** Every subset of the input is yielded. */
  lemma {:induction false} SubsetsComplete<T>(s: seq<T>, x: set<T>)
    requires x <= Elems(s)
    ensures exists i :: 0 <= i < |Subsets(s)| && Elems(Subsets(s)[i]) == x
    decreases |s|
  {
    if s == [] {
      assert Elems(Subsets(s)[0]) == x;
    } else {
      var t := Subsets(s[1..]);
      var r := Subsets(s);
      assert r == t + Prepend(s[0], t);
      var y := x - {s[0]};
      assert s == [s[0]] + s[1..];
      ElemsCons(s[0], s[1..]);
      SubsetsComplete(s[1..], y);
      var j :| 0 <= j < |t| && Elems(t[j]) == y;
      if s[0] in x {
        ElemsCons(s[0], t[j]);
        assert r[|t| + j] == [s[0]] + t[j];
        assert Elems(r[|t| + j]) == x;
      } else {
        assert r[j] == t[j];
        assert Elems(r[j]) == x;
      }
    }
  }

  /** Over a set without repetitions, no subset is yielded twice. */
  lemma {:induction false} SubsetsDistinct<T>(s: seq<T>)
    requires Distinct(s)
    ensures forall i, j :: 0 <= i < j < |Subsets(s)| ==> Elems(Subsets(s)[i]) != Elems(Subsets(s)[j])
    decreases |s|
  {
    if s != [] {
      var t := Subsets(s[1..]);
      var r := Subsets(s);
      assert r == t + Prepend(s[0], t);
      assert Distinct(s[1..]);
      SubsetsDistinct(s[1..]);
      SubsetsWithin(s[1..]);
      HeadNotInTail(s);
      forall i, j | 0 <= i < j < |r| ensures Elems(r[i]) != Elems(r[j]) {
        if j < |t| {
          assert r[i] == t[i] && r[j] == t[j];
        } else if i < |t| {
          assert r[i] == t[i] && r[j] == [s[0]] + t[j - |t|];
          PrependSeparates(s[0], t[i], t[j - |t|]);
        } else {
          assert r[i] == [s[0]] + t[i - |t|] && r[j] == [s[0]] + t[j - |t|];
          PrependSeparates(s[0], t[i - |t|], t[j - |t|]);
        }
      }
    }
  }

  /** A set without `h` differs from any set with `h`, and adding `h` keeps two such sets apart. */
  lemma PrependSeparates<T>(h: T, a: seq<T>, b: seq<T>)
    requires h !in Elems(a) && h !in Elems(b)
    ensures Elems(a) != Elems([h] + b)
    ensures Elems(a) != Elems(b) ==> Elems([h] + a) != Elems([h] + b)
  {
    ElemsCons(h, a);
    ElemsCons(h, b);
    assert Elems([h] + a) - {h} == Elems(a);
    assert Elems([h] + b) - {h} == Elems(b);
  }

  /** Only the first yielded set is empty. */
  lemma {:induction false} SubsetsNonEmptyAfterFirst<T>(s: seq<T>)
    ensures forall i :: 1 <= i < |Subsets(s)| ==> Subsets(s)[i] != []
    decreases |s|
  {
    if s != [] {
      var t := Subsets(s[1..]);
      assert Subsets(s) == t + Prepend(s[0], t);
      SubsetsNonEmptyAfterFirst(s[1..]);
    }
  }

  // ---------------------------------------------------------------------
  // startGeneratingMessages: every non-empty set of shards is a target
  // ---------------------------------------------------------------------

  /** The `if (!s.isEmpty())` filter over the yielded sets. */
  function NonEmpty<T>(ss: seq<seq<T>>): (r: seq<seq<T>>)
    ensures forall i :: 0 <= i < |r| ==> r[i] != []
    ensures forall i :: 0 <= i < |r| ==> r[i] in ss
    ensures forall x :: x in ss && x != [] ==> x in r
  {
    if ss == [] then [] else if ss[0] == [] then NonEmpty(ss[1..]) else [ss[0]] + NonEmpty(ss[1..])
  }

  lemma {:induction false} NonEmptyKeepsAll<T>(ss: seq<seq<T>>)
    requires forall i :: 0 <= i < |ss| ==> ss[i] != []
    ensures NonEmpty(ss) == ss
    decreases |ss|
  {
    if ss != [] {
      NonEmptyKeepsAll(ss[1..]);
      assert ss == [ss[0]] + ss[1..];
    }
  }

  /** `(1..n).toSet()` in iteration order. */
  function ShardNumbers(n: nat): (r: seq<int>)
    ensures |r| == n && forall i :: 0 <= i < n ==> r[i] == i + 1
  {
    seq(n, i requires 0 <= i < n => i + 1)
  }

  /** The sets of shard numbers the driver broadcasts to, in the order it launches them. */
  function TargetSets(numShards: nat): seq<seq<int>>
  {
    NonEmpty(Subsets(ShardNumbers(numShards)))
  }

  /** A set of shard numbers among 1..n. */
  predicate ShardSet(x: set<int>, n: nat)
  {
    forall k :: k in x ==> 1 <= k <= n
  }

  /** The targets are exactly the sets yielded after the empty one. */
  lemma TargetSetsSkipEmpty(numShards: nat)
    ensures TargetSets(numShards) == Subsets(ShardNumbers(numShards))[1..]
  {
    var all := Subsets(ShardNumbers(numShards));
    SubsetsNonEmptyAfterFirst(ShardNumbers(numShards));
    NonEmptyKeepsAll(all[1..]);
    assert all == [all[0]] + all[1..];
  }

  /** There are 2^n - 1 targets. */
  lemma TargetSetsCount(numShards: nat)
    ensures |TargetSets(numShards)| == Pow2(numShards) - 1
  {
    TargetSetsSkipEmpty(numShards);
  }

  /** Each target is a non-empty set of distinct shard numbers 1..n. */
  lemma TargetSetsShape(numShards: nat)
    ensures forall i :: 0 <= i < |TargetSets(numShards)| ==>
      TargetSets(numShards)[i] != [] && Distinct(TargetSets(numShards)[i]) &&
      ShardSet(Elems(TargetSets(numShards)[i]), numShards)
  {
    var s := ShardNumbers(numShards);
    var all := Subsets(s);
    TargetSetsSkipEmpty(numShards);
    SubsetsNonEmptyAfterFirst(s);
    SubsetsWithin(s);
    ShardNumbersRange(numShards);
    var r := all[1..];
    forall i | 0 <= i < |r|
      ensures r[i] != [] && Distinct(r[i]) && ShardSet(Elems(r[i]), numShards)
    {
      assert r[i] == all[i + 1];
      assert Elems(r[i]) <= Elems(s);
    }
  }

  lemma ShardNumbersRange(n: nat)
    ensures Distinct(ShardNumbers(n)) && ShardSet(Elems(ShardNumbers(n)), n)
  {
    var s := ShardNumbers(n);
    forall k | k in Elems(s) ensures 1 <= k <= n {
      var i :| 0 <= i < n && s[i] == k;
    }
  }

  /** No two targets name the same set of shards. */
  lemma TargetSetsPairwiseDistinct(numShards: nat)
    ensures forall i, j :: 0 <= i < j < |TargetSets(numShards)| ==>
      Elems(TargetSets(numShards)[i]) != Elems(TargetSets(numShards)[j])
  {
    var s := ShardNumbers(numShards);
    var all := Subsets(s);
    TargetSetsSkipEmpty(numShards);
    SubsetsDistinct(s);
    var r := all[1..];
    forall i, j | 0 <= i < j < |r| ensures Elems(r[i]) != Elems(r[j]) {
      assert r[i] == all[i + 1] && r[j] == all[j + 1];
    }
  }

  /** Every non-empty set of shard numbers 1..n is among the targets. */
  lemma TargetSetsComplete(numShards: nat, x: set<int>)
    requires x != {} && ShardSet(x, numShards)
    ensures exists i :: 0 <= i < |TargetSets(numShards)| && Elems(TargetSets(numShards)[i]) == x
  {
    var s := ShardNumbers(numShards);
    var all := Subsets(s);
    TargetSetsSkipEmpty(numShards);
    assert x <= Elems(s) by {
      forall k | k in x ensures k in Elems(s) {
        assert s[k - 1] == k;
      }
    }
    SubsetsComplete(s, x);
    var i :| 0 <= i < |all| && Elems(all[i]) == x;
    assert i != 0;
    assert TargetSets(numShards)[i - 1] == all[i];
  }

  /** `s.toList().map { it.toString() }`: the shard ids of one target. */
  function TargetIds(t: seq<int>): (r: seq<string>)
    ensures |r| == |t|
  {
    seq(|t|, i requires 0 <= i < |t| => Strings.IntToDecimal(t[i]))
  }

  // ---------------------------------------------------------------------
  // The shard and port maps
  // ---------------------------------------------------------------------

  /** Distinct non-negative numbers have distinct decimal names. */
  lemma DecimalNamesDistinct()
    ensures forall a: nat, b: nat :: a != b ==> Strings.NatToBase(a, 10) != Strings.NatToBase(b, 10)
  {
    forall a: nat, b: nat | Strings.NatToBase(a, 10) == Strings.NatToBase(b, 10) ensures a == b {
      Strings.DecimalInjective(a, b);
    }
  }

  /** The numeric server ids of shard `i`: `(i-1)*numShards+1 .. (i-1)*numShards+perShard`. */
  function ShardMembers(i: nat, numShards: nat, perShard: nat): (r: seq<nat>)
    requires i >= 1
    ensures |r| == perShard
  {
    seq(perShard, k requires 0 <= k < perShard => (i - 1) * numShards + 1 + k)
  }

  /** The `shards` map: shard `"i"` to the decimal ids of its servers. */
  function Shards(numShards: nat, perShard: nat): map<string, seq<string>>
  {
    DecimalNamesDistinct();
    map i: nat | 1 <= i <= numShards :: Strings.NatToBase(i, 10) := Names(ShardMembers(i, numShards, perShard))
  }

  function Names(ns: seq<nat>): (r: seq<string>)
    ensures |r| == |ns|
  {
    seq(|ns|, k requires 0 <= k < |ns| => Strings.NatToBase(ns[k], 10))
  }

  /** The `idToPort` map: server id `"k"` listens on `basePort + k`, for k in 1..total. */
  function IdToPort(total: nat, basePort: int): map<string, int>
  {
    DecimalNamesDistinct();
    map k: nat | 1 <= k <= total :: Strings.NatToBase(k, 10) := basePort + k
  }

  /** The initial leader of each shard's failure detector: `((i-1)*numShards+1).toString()`. */
  function InitialLeaders(numShards: nat): map<string, string>
  {
    DecimalNamesDistinct();
    map i: nat | 1 <= i <= numShards :: Strings.NatToBase(i, 10) := LeaderId(i, numShards)
  }

  function LeaderId(i: nat, numShards: nat): string
    requires i >= 1
  {
    Strings.NatToBase((i - 1) * numShards + 1, 10)
  }

  /** The shards are keyed by the decimal shard numbers 1..n, each listing `perShard` ids. */
  lemma ShardsKeys(numShards: nat, perShard: nat, i: nat)
    ensures Strings.NatToBase(i, 10) in Shards(numShards, perShard) <==> 1 <= i <= numShards
    ensures 1 <= i <= numShards ==> |Shards(numShards, perShard)[Strings.NatToBase(i, 10)]| == perShard
  {
    DecimalNamesDistinct();
  }

  /** Each shard's initial leader is the first server listed for it. */
  lemma InitialLeaderIsFirstMember(numShards: nat, perShard: nat, key: string)
    requires perShard >= 1
    requires key in InitialLeaders(numShards)
    ensures key in Shards(numShards, perShard)
    ensures InitialLeaders(numShards)[key] == Shards(numShards, perShard)[key][0]
  {
    var i: nat :| 1 <= i <= numShards && Strings.NatToBase(i, 10) == key;
    LookupShard(numShards, perShard, i);
    LookupLeader(numShards, i);
    assert ShardMembers(i, numShards, perShard)[0] == (i - 1) * numShards + 1;
  }

  lemma LookupShard(numShards: nat, perShard: nat, i: nat)
    requires 1 <= i <= numShards
    ensures Strings.NatToBase(i, 10) in Shards(numShards, perShard)
    ensures Shards(numShards, perShard)[Strings.NatToBase(i, 10)] == Names(ShardMembers(i, numShards, perShard))
  {
    DecimalNamesDistinct();
  }

  lemma LookupLeader(numShards: nat, i: nat)
    requires 1 <= i <= numShards
    ensures InitialLeaders(numShards)[Strings.NatToBase(i, 10)] == LeaderId(i, numShards)
  {
    DecimalNamesDistinct();
  }

  lemma MulMonotone(a: nat, b: nat, n: nat)
    requires a <= b
    ensures a * n <= b * n
  {
    assert b * n == a * n + (b - a) * n;
  }

  /** With as many servers per shard as shards, the numeric ids partition 1..n*n. */
  lemma SquareMembersPartition(n: nat, i: nat, j: nat, m: nat)
    requires 1 <= i <= n && 1 <= j <= n
    requires m in ShardMembers(i, n, n) && m in ShardMembers(j, n, n)
    ensures i == j
    ensures 1 <= m <= n * n
  {
    var a :| 0 <= a < n && ShardMembers(i, n, n)[a] == m;
    var b :| 0 <= b < n && ShardMembers(j, n, n)[b] == m;
    assert m == (i - 1) * n + 1 + a == (j - 1) * n + 1 + b;
    assert (i - 1) * n + n == i * n;
    assert (j - 1) * n + n == j * n;
    if i < j {
      MulMonotone(i, j - 1, n);
    } else if j < i {
      MulMonotone(j, i - 1, n);
    }
    MulMonotone(i, n, n);
  }

  /**
   * In the driver's configuration (as many servers per shard as shards) every
   * server id listed in a shard has a port, and no id is listed in two shards.
   */
  lemma SquareConfigurationConsistent(n: nat, basePort: int, s1: string, s2: string, id: string)
    requires s1 in Shards(n, n) && s2 in Shards(n, n)
    requires id in Shards(n, n)[s1] && id in Shards(n, n)[s2]
    ensures s1 == s2
    ensures id in IdToPort(n * n, basePort)
  {
    DecimalNamesDistinct();
    var i: nat :| 1 <= i <= n && Strings.NatToBase(i, 10) == s1;
    var j: nat :| 1 <= j <= n && Strings.NatToBase(j, 10) == s2;
    var a :| 0 <= a < n && Shards(n, n)[s1][a] == id;
    var b :| 0 <= b < n && Shards(n, n)[s2][b] == id;
    var m := ShardMembers(i, n, n)[a];
    assert Strings.NatToBase(m, 10) == id;
    assert Strings.NatToBase(ShardMembers(j, n, n)[b], 10) == id;
    assert ShardMembers(j, n, n)[b] == m;
    SquareMembersPartition(n, i, j, m);
  }

  /** The configured driver (3 shards of 3 servers) is such a square configuration. */
  lemma DriverConfigurationConsistent(s1: string, s2: string, id: string)
    requires s1 in Shards(NUM_SHARDS, NUM_SERVERS_PER_SHARD) && s2 in Shards(NUM_SHARDS, NUM_SERVERS_PER_SHARD)
    requires id in Shards(NUM_SHARDS, NUM_SERVERS_PER_SHARD)[s1] && id in Shards(NUM_SHARDS, NUM_SERVERS_PER_SHARD)[s2]
    ensures s1 == s2
    ensures id in IdToPort(NUM_SHARDS * NUM_SERVERS_PER_SHARD, BASE_PORT)
  {
    SquareConfigurationConsistent(NUM_SHARDS, BASE_PORT, s1, s2, id);
  }

  /**
   * The ids of shard i are laid out with a stride of the number of shards,
   * not of the servers per shard: with more servers per shard than shards,
   * shards 1 and 2 share the server numbered n+1.
   */
  lemma WideShardsOverlap(n: nat, perShard: nat)
    requires 2 <= n < perShard
    ensures n + 1 in ShardMembers(1, n, perShard) && n + 1 in ShardMembers(2, n, perShard)
  {
    assert ShardMembers(1, n, perShard)[n] == n + 1;
    assert ShardMembers(2, n, perShard)[0] == n + 1;
  }

  /** With fewer servers per shard than shards, the last shard lists an id beyond the port map. */
  lemma NarrowShardsLackPort(n: nat, perShard: nat)
    requires 1 <= perShard < n
    ensures (n - 1) * n + perShard in ShardMembers(n, n, perShard)
    ensures (n - 1) * n + perShard > n * perShard
  {
    assert ShardMembers(n, n, perShard)[perShard - 1] == (n - 1) * n + perShard;
    var d := n - perShard;
    assert (n - 1) * n == (n - 1) * perShard + (n - 1) * d;
    assert n * perShard == (n - 1) * perShard + perShard;
    MulMonotone(1, n - 1, d);
  }

  /** Every target of the generator names a shard of the `shards` map. */
  lemma TargetsNameShards(numShards: nat, perShard: nat, i: nat, id: string)
    requires i < |TargetSets(numShards)|
    requires id in TargetIds(TargetSets(numShards)[i])
    ensures id in Shards(numShards, perShard)
  {
    TargetSetsShape(numShards);
    var t := TargetSets(numShards)[i];
    var k :| 0 <= k < |t| && TargetIds(t)[k] == id;
    assert t[k] in Elems(t);
    ShardsKeys(numShards, perShard, t[k]);
  }
}

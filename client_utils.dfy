// The client-side test helpers: the unspent outputs a history leaves,
// grouped by address, and the random generators of coin transfers,
// transactions and atomic lists. Every random draw is a nondeterministic
// choice within the range the draw allows.
module ClientUtils {
  import opened Wrappers
  import opened Strings
  import opened Model

  /** An input of a history transaction: the address spending and the transaction it spends. */
  datatype InputRef = InputRef(address: string, transactionId: string)

  /** An output of a history transaction (or of a generated one). */
  datatype OutputRec = OutputRec(address: string, coins: int)

  /** A transaction as the history listing returns it. */
  datatype HistoryTx = HistoryTx(transactionId: string, inputs: seq<InputRef>, outputs: seq<OutputRec>)

  /** An entry of the unspent-output table. */
  datatype UnusedUTxO = UnusedUTxO(transactionId: string, address: string, coins: int)

  /** A generated transaction request. */
  datatype TxRequest = TxRequest(inputs: seq<InputRef>, outputs: seq<OutputRec>)

  /** A generated coin transfer: source, target and amount. */
  datatype CoinTransfer = CoinTransfer(source: string, target: string, coins: int)

  /** The Python exceptions the generators can raise. */
  datatype PyError = IndexError | ValueError | KeyError

  const BASIC_CLIENTS_LIST: seq<string> :=
    ["GenesisAddress", "Sajy", "Rani", "Paxos", "Chord", "Tendermint", "Cassandra", "Redis"]

  function Sum(s: seq<int>): int
  {
    if s == [] then 0 else Sum(s[..|s| - 1]) + s[|s| - 1]
  }

  function SumCoins(us: seq<UnusedUTxO>): int
  {
    if us == [] then 0 else SumCoins(us[..|us| - 1]) + us[|us| - 1].coins
  }

  function SumOutputs(os: seq<OutputRec>): int
  {
    if os == [] then 0 else SumOutputs(os[..|os| - 1]) + os[|os| - 1].coins
  }

  // ---------------------------------------------------------------------------
  // getAllUnusedUTxOsFromHistory
  // ---------------------------------------------------------------------------

  /** Some input of some history transaction spends `transactionId`'s output to `address`. */
  predicate Spent(history: seq<HistoryTx>, address: string, transactionId: string)
  {
    exists i, j :: 0 <= i < |history| && 0 <= j < |history[i].inputs| &&
                   history[i].inputs[j] == InputRef(address, transactionId)
  }

  /** The unspent outputs of `tx`, in output order. */
  function UnusedOutputs(tx: HistoryTx, outs: seq<OutputRec>, history: seq<HistoryTx>): (r: seq<UnusedUTxO>)
    ensures forall u :: u in r <==>
              exists o :: o in outs && u == UnusedUTxO(tx.transactionId, o.address, o.coins) &&
                          !Spent(history, o.address, tx.transactionId)
  {
    if outs == [] then []
    else
      var rest := UnusedOutputs(tx, outs[1..], history);
      assert forall o :: o in outs <==> o == outs[0] || o in outs[1..];
      if Spent(history, outs[0].address, tx.transactionId) then rest
      else [UnusedUTxO(tx.transactionId, outs[0].address, outs[0].coins)] + rest
  }

  /** The list comprehension: for each transaction, for each of its outputs, if unspent. */
  function UnusedFrom(txs: seq<HistoryTx>, history: seq<HistoryTx>): seq<UnusedUTxO>
  {
    if txs == [] then [] else UnusedOutputs(txs[0], txs[0].outputs, history) + UnusedFrom(txs[1..], history)
  }

  function Unused(history: seq<HistoryTx>): seq<UnusedUTxO>
  {
    UnusedFrom(history, history)
  }

  /** An output survives exactly when no input of the history spends it. */
  lemma {:induction false} UnusedFromSpec(txs: seq<HistoryTx>, history: seq<HistoryTx>, u: UnusedUTxO)
    ensures u in UnusedFrom(txs, history) <==>
            exists i, o :: 0 <= i < |txs| && o in txs[i].outputs &&
                           u == UnusedUTxO(txs[i].transactionId, o.address, o.coins) &&
                           !Spent(history, o.address, txs[i].transactionId)
    decreases |txs|
  {
    if txs != [] {
      UnusedFromSpec(txs[1..], history, u);
      if u in UnusedFrom(txs[1..], history) {
        var i, o :| 0 <= i < |txs[1..]| && o in txs[1..][i].outputs &&
                    u == UnusedUTxO(txs[1..][i].transactionId, o.address, o.coins) &&
                    !Spent(history, o.address, txs[1..][i].transactionId);
        assert txs[i + 1] == txs[1..][i];
      }
      if exists i, o :: 0 <= i < |txs| && o in txs[i].outputs &&
                        u == UnusedUTxO(txs[i].transactionId, o.address, o.coins) &&
                        !Spent(history, o.address, txs[i].transactionId) {
        var i, o :| 0 <= i < |txs| && o in txs[i].outputs &&
                    u == UnusedUTxO(txs[i].transactionId, o.address, o.coins) &&
                    !Spent(history, o.address, txs[i].transactionId);
        if i > 0 {
          assert txs[1..][i - 1] == txs[i];
        }
      }
    }
  }

  lemma UnusedSpec(history: seq<HistoryTx>, u: UnusedUTxO)
    ensures u in Unused(history) <==>
            exists i, o :: 0 <= i < |history| && o in history[i].outputs &&
                           u == UnusedUTxO(history[i].transactionId, o.address, o.coins) &&
                           !Spent(history, o.address, history[i].transactionId)
  {
    UnusedFromSpec(history, history, u);
  }

  function AddressOf(u: UnusedUTxO): string { u.address }

  /** A run of consecutive entries sharing an address, as `itertools.groupby` yields it. */
  datatype Group = Group(key: string, members: seq<UnusedUTxO>)

  /** `itertools.groupby(s, address)`: maximal runs of consecutive entries with equal addresses. */
  function Runs(s: seq<UnusedUTxO>): seq<Group>
  {
    if s == [] then []
    else
      var r := Runs(s[1..]);
      if r != [] && r[0].key == s[0].address then [Group(s[0].address, [s[0]] + r[0].members)] + r[1..]
      else [Group(s[0].address, [s[0]])] + r
  }

  /** `{k: list(g) for k, g in groups}`: a later group with the same key replaces an earlier one. */
  function DictOf(groups: seq<Group>): map<string, seq<UnusedUTxO>>
  {
    if groups == [] then map[] else map[groups[0].key := groups[0].members] + DictOf(groups[1..])
  }

  /** `getAllUnusedUTxOsFromHistory`: the unspent outputs, sorted by address and grouped. */
  function GetAllUnusedUTxOsFromHistory(history: seq<HistoryTx>): map<string, seq<UnusedUTxO>>
  {
    DictOf(Runs(SortByKey(Unused(history), AddressOf)))
  }

  /** Some entry of `s` has address `k`. */
  predicate Owns(s: seq<UnusedUTxO>, k: string)
  {
    exists u :: u in s && u.address == k
  }

  lemma OwnsCons(s: seq<UnusedUTxO>, k: string)
    requires s != []
    ensures Owns(s, k) <==> s[0].address == k || Owns(s[1..], k)
  {
    assert forall u :: u in s <==> u == s[0] || u in s[1..];
  }

  lemma {:induction false} WithKeyAbsent(s: seq<UnusedUTxO>, k: string)
    requires !Owns(s, k)
    ensures WithKey(s, AddressOf, k) == []
    decreases |s|
  {
    if s != [] {
      OwnsCons(s, k);
      WithKeyAbsent(s[1..], k);
    }
  }

  /** What grouping a list sorted by address yields, as an induction hypothesis. */
  ghost predicate GroupedWell(s: seq<UnusedUTxO>)
  {
    (forall k :: k in DictOf(Runs(s)) <==> Owns(s, k)) &&
    (forall k :: k in DictOf(Runs(s)) ==> DictOf(Runs(s))[k] == WithKey(s, AddressOf, k)) &&
    (s != [] ==> Runs(s) != [] && Runs(s)[0].key == s[0].address && s[0].address !in DictOf(Runs(s)[1..]))
  }

  /** The first entry joins the first group of the rest, which has its address. */
  lemma GroupExtend(s: seq<UnusedUTxO>)
    requires s != [] && GroupedWell(s[1..])
    requires Runs(s[1..]) != [] && Runs(s[1..])[0].key == s[0].address
    ensures GroupedWell(s)
  {
    var x := s[0];
    var kx := x.address;
    var t := s[1..];
    var r := Runs(t);
    assert t != [];
    assert DictOf(r) == map[kx := r[0].members] + DictOf(r[1..]);
    assert r[0].members == WithKey(t, AddressOf, kx);
    assert Runs(s) == [Group(kx, [x] + r[0].members)] + r[1..];
    assert Runs(s)[1..] == r[1..];
    assert WithKey(s, AddressOf, kx) == [x] + WithKey(t, AddressOf, kx);
    forall k ensures k in DictOf(Runs(s)) <==> Owns(s, k) {
      OwnsCons(s, k);
    }
    forall k | k in DictOf(Runs(s)) && k != kx ensures DictOf(Runs(s))[k] == WithKey(s, AddressOf, k) {
      assert WithKey(s, AddressOf, k) == WithKey(t, AddressOf, k);
    }
  }

  /** In a list sorted by address whose second entry has another address, the first address does not recur. */
  lemma SortedHeadUnique(s: seq<UnusedUTxO>)
    requires s != [] && SortedBy(s, AddressOf)
    requires |s| > 1 ==> s[1].address != s[0].address
    ensures !Owns(s[1..], s[0].address)
  {
    var kx := s[0].address;
    var t := s[1..];
    if Owns(t, kx) {
      var u :| u in t && u.address == kx;
      var m :| 0 <= m < |t| && t[m] == u;
      assert t[0] == s[1] && t[m] == s[m + 1];
      assert LexLe(kx, t[0].address);
      if m > 0 {
        assert LexLe(t[0].address, kx);
      } else {
        LexLeRefl(kx);
      }
      LexLeAntisym(kx, t[0].address);
    }
  }

  /** The first entry starts a group of its own: sortedness keeps its address out of the rest. */
  lemma GroupNew(s: seq<UnusedUTxO>)
    requires s != [] && SortedBy(s, AddressOf) && GroupedWell(s[1..])
    requires !(Runs(s[1..]) != [] && Runs(s[1..])[0].key == s[0].address)
    ensures GroupedWell(s)
  {
    var x := s[0];
    var kx := x.address;
    var t := s[1..];
    var r := Runs(t);
    SortedHeadUnique(s);
    WithKeyAbsent(t, kx);
    assert Runs(s) == [Group(kx, [x])] + r;
    assert Runs(s)[1..] == r;
    forall k ensures k in DictOf(Runs(s)) <==> Owns(s, k) {
      OwnsCons(s, k);
    }
    forall k | k in DictOf(Runs(s)) && k != kx ensures DictOf(Runs(s))[k] == WithKey(s, AddressOf, k) {
      assert WithKey(s, AddressOf, k) == WithKey(t, AddressOf, k);
    }
  }

  /**
   * On a list sorted by address, grouping gives one key per address present,
   * holding exactly that address's entries in order.
   */
  lemma {:induction false} GroupSorted(s: seq<UnusedUTxO>)
    requires SortedBy(s, AddressOf)
    ensures GroupedWell(s)
    decreases |s|
  {
    if s != [] {
      assert SortedBy(s[1..], AddressOf);
      GroupSorted(s[1..]);
      if Runs(s[1..]) != [] && Runs(s[1..])[0].key == s[0].address {
        GroupExtend(s);
      } else {
        GroupNew(s);
      }
    }
  }

  /**
   * The result of `getAllUnusedUTxOsFromHistory` has a key for each address
   * owning an unspent output, and under it exactly that address's unspent
   * outputs in history order.
   */
  lemma UnusedGroupedByAddress(history: seq<HistoryTx>)
    ensures forall k :: k in GetAllUnusedUTxOsFromHistory(history) <==> Owns(Unused(history), k)
    ensures forall k :: k in GetAllUnusedUTxOsFromHistory(history) ==>
              GetAllUnusedUTxOsFromHistory(history)[k] == WithKey(Unused(history), AddressOf, k)
  {
    var flat := Unused(history);
    var sorted := SortByKey(flat, AddressOf);
    GroupSorted(sorted);
    forall k ensures Owns(sorted, k) <==> Owns(flat, k) {
      if Owns(sorted, k) {
        var u :| u in sorted && u.address == k;
        assert u in multiset(flat);
      }
      if Owns(flat, k) {
        var u :| u in flat && u.address == k;
        assert u in multiset(sorted);
      }
    }
    forall k | k in GetAllUnusedUTxOsFromHistory(history)
      ensures GetAllUnusedUTxOsFromHistory(history)[k] == WithKey(flat, AddressOf, k)
    {
      SortByKeyStable(flat, AddressOf, k);
    }
  }

  lemma {:induction false} WithKeyMembers(s: seq<UnusedUTxO>, k: string)
    ensures forall u :: u in WithKey(s, AddressOf, k) <==> u in s && u.address == k
    decreases |s|
  {
    if s != [] {
      WithKeyMembers(s[1..], k);
      assert forall u :: u in s <==> u == s[0] || u in s[1..];
    }
  }

  /** Every entry of the table sits under its own address. */
  ghost predicate WellFormed(pool: map<string, seq<UnusedUTxO>>)
  {
    forall k :: k in pool ==> forall u :: u in pool[k] ==> u.address == k
  }

  /** Every list is non-empty and every entry carries at least one coin. */
  ghost predicate Positive(pool: map<string, seq<UnusedUTxO>>)
  {
    forall k :: k in pool ==> pool[k] != [] && forall u :: u in pool[k] ==> u.coins >= 1
  }

  /** The table computed from a history files every output under its own address, and lists no address without outputs. */
  lemma UnusedTableWellFormed(history: seq<HistoryTx>)
    ensures WellFormed(GetAllUnusedUTxOsFromHistory(history))
    ensures forall k :: k in GetAllUnusedUTxOsFromHistory(history) ==> GetAllUnusedUTxOsFromHistory(history)[k] != []
  {
    var m := GetAllUnusedUTxOsFromHistory(history);
    UnusedGroupedByAddress(history);
    forall k | k in m ensures (forall u: UnusedUTxO :: u in m[k] ==> u.address == k) && m[k] != [] {
      WithKeyMembers(Unused(history), k);
      assert Owns(Unused(history), k);
      var u :| u in Unused(history) && u.address == k;
      assert u in m[k];
    }
  }

  // ---------------------------------------------------------------------------
  // Random generators
  // ---------------------------------------------------------------------------

  lemma SumSnoc(s: seq<int>, x: int)
    ensures Sum(s + [x]) == Sum(s) + x
  {
    assert (s + [x])[..|s|] == s;
  }

  /**
   * `divideNumber(a, n)`: n - 1 random pieces, each leaving at least one for
   * every piece still to come, then the remainder.
   */
  method DivideNumber(a: int, n: int) returns (pieces: seq<int>)
    requires a >= n >= 1
    ensures |pieces| == n
    ensures forall i :: 0 <= i < |pieces| ==> pieces[i] >= 1
    ensures Sum(pieces) == a
  {
    pieces := [];
    for idx := 0 to n - 1
      invariant |pieces| == idx
      invariant forall i :: 0 <= i < idx ==> pieces[i] >= 1
      invariant a - Sum(pieces) >= n - idx
    {
      var piece :| 1 <= piece <= a - Sum(pieces) - n + idx + 1;
      SumSnoc(pieces, piece);
      pieces := pieces + [piece];
    }
    var last := a - Sum(pieces);
    SumSnoc(pieces, last);
    pieces := pieces + [last];
  }

  /** `random.sample(population, k)`: k entries at distinct positions, in random order. */
  method Sample<T(==)>(population: seq<T>, k: nat) returns (chosen: seq<T>)
    requires k <= |population|
    ensures |chosen| == k
    ensures multiset(chosen) <= multiset(population)
  {
    var pool := population;
    chosen := [];
    while |chosen| < k
      invariant multiset(chosen) + multiset(pool) == multiset(population)
      invariant |chosen| + |pool| == |population| && |chosen| <= k
      decreases k - |chosen|
    {
      var j :| 0 <= j < |pool|;
      assert pool == pool[..j] + [pool[j]] + pool[j + 1..];
      chosen := chosen + [pool[j]];
      pool := pool[..j] + pool[j + 1..];
    }
  }

  /** `random.shuffle`: a permutation. */
  method Shuffle<T(==)>(s: seq<T>) returns (r: seq<T>)
    ensures |r| == |s|
    ensures multiset(r) == multiset(s)
  {
    r := Sample(s, |s|);
    assert |multiset(r)| == |multiset(s)|;
    MultisetSubsetSameSize(multiset(r), multiset(s));
  }

  lemma MultisetSubsetSameSize<T>(a: multiset<T>, b: multiset<T>)
    requires a <= b && |a| == |b|
    ensures a == b
  {
    assert |b - a| == |b| - |a|;
    assert b - a == multiset{};
  }

  lemma {:induction false} DistinctCountsOne<T>(s: seq<T>, x: T)
    requires Distinct(s)
    ensures multiset(s)[x] <= 1
    decreases |s|
  {
    if s != [] {
      assert s == [s[0]] + s[1..];
      assert Distinct(s[1..]);
      DistinctCountsOne(s[1..], x);
      if s[0] == x {
        assert x !in s[1..];
      }
    }
  }

  /** A sample of a duplicate-free population has no duplicates. */
  lemma SampleOfDistinct<T>(c: seq<T>, s: seq<T>)
    requires multiset(c) <= multiset(s) && Distinct(s)
    ensures Distinct(c)
  {
    forall i, j | 0 <= i < j < |c| ensures c[i] != c[j] {
      if c[i] == c[j] {
        assert c == c[..j] + [c[j]] + c[j + 1..];
        assert c[i] in c[..j];
        assert multiset(c)[c[j]] >= 2;
        DistinctCountsOne(s, c[j]);
      }
    }
  }

  lemma BasicClientsDistinct()
    ensures Distinct(BASIC_CLIENTS_LIST)
  {
  }

  /**
   * `createRandomCoinTransfer`: a random source with unspent outputs, a
   * different random target among the basic clients, and an amount between
   * one and the source's total.
   */
  method CreateRandomCoinTransfer(unused: map<string, seq<UnusedUTxO>>) returns (r: Result<CoinTransfer, PyError>)
    ensures unused == map[] <==> r == Err(IndexError)
    ensures r.Ok? ==> r.value.source in unused && r.value.target in BASIC_CLIENTS_LIST &&
                      r.value.target != r.value.source && 1 <= r.value.coins <= SumCoins(unused[r.value.source])
    ensures r.Err? && r.error != IndexError ==> r.error == ValueError
    ensures Positive(unused) && unused != map[] ==> r.Ok?
  {
    if unused == map[] {
      return Err(IndexError);
    }
    var source :| source in unused;
    var targets := set t | t in BASIC_CLIENTS_LIST && t != source;
    assert "Sajy" in targets || "Rani" in targets;
    var target :| target in targets;
    var total := SumCoins(unused[source]);
    if total < 1 {
      if Positive(unused) {
        PositiveTotal(unused[source]);
      }
      return Err(ValueError);
    }
    var coins :| 1 <= coins <= total;
    return Ok(CoinTransfer(source, target, coins));
  }

  lemma {:induction false} PositiveTotal(us: seq<UnusedUTxO>)
    requires us != [] && forall u :: u in us ==> u.coins >= 1
    ensures SumCoins(us) >= |us|
    decreases |us|
  {
    if |us| > 1 {
      PositiveTotal(us[..|us| - 1]);
    }
  }

  function InputsOf(us: seq<UnusedUTxO>): (r: seq<InputRef>)
    ensures |r| == |us| && forall i :: 0 <= i < |us| ==> r[i] == InputRef(us[i].address, us[i].transactionId)
  {
    if us == [] then [] else [InputRef(us[0].address, us[0].transactionId)] + InputsOf(us[1..])
  }

  function Zip(targets: seq<string>, pieces: seq<int>): (r: seq<OutputRec>)
    requires |targets| == |pieces|
    ensures |r| == |targets| && forall i :: 0 <= i < |r| ==> r[i] == OutputRec(targets[i], pieces[i])
  {
    if targets == [] then [] else [OutputRec(targets[0], pieces[0])] + Zip(targets[1..], pieces[1..])
  }

  lemma {:induction false} SumZip(targets: seq<string>, pieces: seq<int>)
    requires |targets| == |pieces|
    ensures SumOutputs(Zip(targets, pieces)) == Sum(pieces)
    decreases |targets|
  {
    if targets != [] {
      var n := |targets| - 1;
      SumZip(targets[..n], pieces[..n]);
      assert Zip(targets, pieces)[..n] == Zip(targets[..n], pieces[..n]);
    }
  }

  lemma {:induction false} SumConcat(p: seq<int>, q: seq<int>)
    ensures Sum(p + q) == Sum(p) + Sum(q)
    decreases |q|
  {
    if q == [] {
      assert p + q == p;
    } else {
      var n := |q| - 1;
      assert p + q == (p + q[..n]) + [q[n]];
      SumSnoc(p + q[..n], q[n]);
      SumConcat(p, q[..n]);
    }
  }

  lemma MultisetRemove<T>(b: seq<T>, j: int)
    requires 0 <= j < |b|
    ensures multiset(b[..j] + b[j + 1..]) == multiset(b) - multiset{b[j]}
  {
    assert b == b[..j] + [b[j]] + b[j + 1..];
  }

  lemma SumRemove(b: seq<int>, j: int)
    requires 0 <= j < |b|
    ensures Sum(b) == Sum(b[..j] + b[j + 1..]) + b[j]
  {
    var p, q := b[..j], b[j + 1..];
    var c := p + [b[j]];
    SplitAt(b, j);
    SumConcat(c, q);
    SumSnoc(p, b[j]);
    SumConcat(p, q);
  }

  lemma SplitAt<T>(b: seq<T>, j: int)
    requires 0 <= j < |b|
    ensures b == (b[..j] + [b[j]]) + b[j + 1..]
  {
  }

  lemma {:induction false} SumPermutation(a: seq<int>, b: seq<int>)
    requires multiset(a) == multiset(b)
    ensures Sum(a) == Sum(b)
    decreases |a|
  {
    if a == [] {
      assert |b| == |multiset(b)| == 0;
    } else {
      var n := |a| - 1;
      var x := a[n];
      assert a == a[..n] + [x];
      assert multiset(a[..n]) == multiset(a) - multiset{x};
      assert x in multiset(b);
      var j :| 0 <= j < |b| && b[j] == x;
      MultisetRemove(b, j);
      SumPermutation(a[..n], b[..j] + b[j + 1..]);
      SumRemove(b, j);
    }
  }

  /** Zipping sampled clients with a permutation of positive pieces keeps both facts per output. */
  lemma ZipMembers(targets: seq<string>, shuffled: seq<int>, pieces: seq<int>)
    requires |targets| == |shuffled|
    requires multiset(targets) <= multiset(BASIC_CLIENTS_LIST)
    requires multiset(shuffled) == multiset(pieces)
    requires forall i :: 0 <= i < |pieces| ==> pieces[i] >= 1
    ensures forall o :: o in Zip(targets, shuffled) ==> o.address in BASIC_CLIENTS_LIST && o.coins >= 1
  {
    var outputs := Zip(targets, shuffled);
    forall o | o in outputs ensures o.address in BASIC_CLIENTS_LIST && o.coins >= 1 {
      var i :| 0 <= i < |outputs| && outputs[i] == o;
      assert targets[i] in multiset(BASIC_CLIENTS_LIST);
      assert shuffled[i] in multiset(pieces);
    }
  }

  /** A transaction drawn from `pool[source]` spending `picked`, sending its total to distinct basic clients. */
  ghost predicate DrawnFrom(pool: map<string, seq<UnusedUTxO>>, source: string, picked: seq<UnusedUTxO>, tx: TxRequest)
  {
    source in pool && picked != [] && multiset(picked) <= multiset(pool[source]) &&
    tx.inputs == InputsOf(picked) &&
    tx.outputs != [] &&
    (forall i, j :: 0 <= i < j < |tx.outputs| ==> tx.outputs[i].address != tx.outputs[j].address) &&
    (forall o :: o in tx.outputs ==> o.address in BASIC_CLIENTS_LIST && o.coins >= 1) &&
    SumOutputs(tx.outputs) == SumCoins(picked)
  }

  /**
   * The output half of `createRandomTransaction`: between one and
   * min(8, total) distinct basic clients, and the total divided among them
   * in shuffled order.
   */
  method DrawOutputs(totalCoins: int) returns (outputs: seq<OutputRec>)
    requires totalCoins >= 1
    ensures outputs != []
    ensures forall i, j :: 0 <= i < j < |outputs| ==> outputs[i].address != outputs[j].address
    ensures forall o :: o in outputs ==> o.address in BASIC_CLIENTS_LIST && o.coins >= 1
    ensures SumOutputs(outputs) == totalCoins
  {
    var width := if |BASIC_CLIENTS_LIST| < totalCoins then |BASIC_CLIENTS_LIST| else totalCoins;
    var k :| 1 <= k <= width;
    var targets := Sample(BASIC_CLIENTS_LIST, k);
    BasicClientsDistinct();
    SampleOfDistinct(targets, BASIC_CLIENTS_LIST);
    var pieces := DivideNumber(totalCoins, |targets|);
    var shuffled := Shuffle(pieces);
    SumPermutation(pieces, shuffled);
    outputs := Zip(targets, shuffled);
    SumZip(targets, shuffled);
    ZipMembers(targets, shuffled, pieces);
  }

  /**
   * `createRandomTransaction`: a random non-empty sample of one source's
   * unspent outputs as inputs, and their total divided among a random
   * sample of the basic clients, one piece each, in shuffled order.
   */
  method CreateRandomTransaction(unused: map<string, seq<UnusedUTxO>>)
    returns (r: Result<TxRequest, PyError>, ghost source: string, ghost picked: seq<UnusedUTxO>)
    ensures unused == map[] <==> r == Err(IndexError)
    ensures r.Ok? ==> DrawnFrom(unused, source, picked, r.value)
    ensures r.Err? && r.error != IndexError ==> r.error == ValueError
    ensures Positive(unused) && unused != map[] ==> r.Ok?
  {
    source := "";
    picked := [];
    if unused == map[] {
      return Err(IndexError), source, picked;
    }
    var src :| src in unused;
    source := src;
    var candidates := unused[src];
    if |candidates| < 1 {
      return Err(ValueError), source, picked;
    }
    var count :| 1 <= count <= |candidates|;
    var inputsWithCoins := Sample(candidates, count);
    picked := inputsWithCoins;
    var inputs := InputsOf(inputsWithCoins);
    var totalCoins := SumCoins(inputsWithCoins);
    if totalCoins < 1 {
      if Positive(unused) {
        forall u | u in inputsWithCoins ensures u.coins >= 1 {
          assert u in multiset(candidates);
        }
        PositiveTotal(inputsWithCoins);
      }
      return Err(ValueError), source, picked;
    }
    var outputs := DrawOutputs(totalCoins);
    r := Ok(TxRequest(inputs, outputs));
  }

  // ---------------------------------------------------------------------------
  // createRandomAtomicList
  // ---------------------------------------------------------------------------

  /** The entries of `us` whose transaction id is not `t`. */
  function WithoutTxId(us: seq<UnusedUTxO>, t: string): (r: seq<UnusedUTxO>)
    ensures forall u :: u in r <==> u in us && u.transactionId != t
  {
    if us == [] then []
    else
      assert forall u :: u in us <==> u == us[0] || u in us[1..];
      (if us[0].transactionId != t then [us[0]] else []) + WithoutTxId(us[1..], t)
  }

  /** Filtering out the transaction id of each input in turn. */
  function WithoutInputs(us: seq<UnusedUTxO>, inputs: seq<InputRef>): seq<UnusedUTxO>
    decreases |inputs|
  {
    if inputs == [] then us else WithoutInputs(WithoutTxId(us, inputs[0].transactionId), inputs[1..])
  }

  lemma {:induction false} WithoutInputsSpec(us: seq<UnusedUTxO>, inputs: seq<InputRef>)
    ensures forall u :: u in WithoutInputs(us, inputs) <==>
              u in us && forall i :: 0 <= i < |inputs| ==> u.transactionId != inputs[i].transactionId
    decreases |inputs|
  {
    if inputs != [] {
      WithoutInputsSpec(WithoutTxId(us, inputs[0].transactionId), inputs[1..]);
      forall u: UnusedUTxO ensures (forall i :: 0 <= i < |inputs| ==> u.transactionId != inputs[i].transactionId) <==>
                       (u.transactionId != inputs[0].transactionId &&
                        forall i :: 0 <= i < |inputs[1..]| ==> u.transactionId != inputs[1..][i].transactionId) {
        if forall i :: 0 <= i < |inputs[1..]| ==> u.transactionId != inputs[1..][i].transactionId {
          forall i | 1 <= i < |inputs| ensures u.transactionId != inputs[i].transactionId {
            assert inputs[i] == inputs[1..][i - 1];
          }
        }
      }
    }
  }

  /**
   * The table after one generated transaction: its inputs' transaction ids
   * are removed from the list of the first input's address, and the address
   * is deleted once its list is empty.
   */
  function AfterSpend(pool: map<string, seq<UnusedUTxO>>, inputs: seq<InputRef>): map<string, seq<UnusedUTxO>>
    requires inputs != [] && inputs[0].address in pool
  {
    var a := inputs[0].address;
    var rest := WithoutInputs(pool[a], inputs);
    if rest == [] then pool - {a} else pool[a := rest]
  }

  /** No entry of `pool` is the output that `ref` spends. */
  ghost predicate Consumed(pool: map<string, seq<UnusedUTxO>>, ref: InputRef)
  {
    ref.address in pool ==> forall u :: u in pool[ref.address] ==> u.transactionId != ref.transactionId
  }

  /** Every input in `used` is consumed in `pool`. */
  ghost predicate AllConsumed(pool: map<string, seq<UnusedUTxO>>, used: set<InputRef>)
  {
    forall ref :: ref in used ==> Consumed(pool, ref)
  }

  /** Every input of every transaction in `list` is in `used`. */
  ghost predicate InputsUsed(list: seq<TxRequest>, used: set<InputRef>)
  {
    forall j, x :: 0 <= j < |list| && x in list[j].inputs ==> x in used
  }

  /**
   * Spending keeps the table well formed and positive, removes at most one
   * address, keeps what was already consumed consumed, and consumes every
   * input it spends.
   */
  lemma AfterSpendSpec(pool: map<string, seq<UnusedUTxO>>, inputs: seq<InputRef>, used: set<InputRef>)
    requires inputs != [] && inputs[0].address in pool
    requires WellFormed(pool) && forall i :: 0 <= i < |inputs| ==> inputs[i].address == inputs[0].address
    requires AllConsumed(pool, used)
    ensures WellFormed(AfterSpend(pool, inputs))
    ensures Positive(pool) ==> Positive(AfterSpend(pool, inputs))
    ensures AfterSpend(pool, inputs).Keys <= pool.Keys && |AfterSpend(pool, inputs)| >= |pool| - 1
    ensures AllConsumed(AfterSpend(pool, inputs), used)
    ensures forall i :: 0 <= i < |inputs| ==> Consumed(AfterSpend(pool, inputs), inputs[i])
  {
    var a := inputs[0].address;
    var rest := WithoutInputs(pool[a], inputs);
    WithoutInputsSpec(pool[a], inputs);
    var after := AfterSpend(pool, inputs);
    if rest == [] {
      assert after == pool - {a};
      assert pool.Keys == after.Keys + {a};
      assert |pool.Keys| == |after.Keys| + 1;
    } else {
      assert after.Keys == pool.Keys;
    }
    forall ref | ref in used ensures Consumed(after, ref) {
      assert Consumed(pool, ref);
    }
  }

  /** No two transactions of the list share an input. */
  ghost predicate NoInputReused(list: seq<TxRequest>)
  {
    forall i, j, x :: 0 <= i < j < |list| && x in list[i].inputs ==> x !in list[j].inputs
  }

  /**
   * Under a well-formed table, a drawn transaction's inputs all name its
   * source address, and none of them was consumed before; so appending it
   * keeps the list free of reused inputs.
   */
  lemma NewInputsFresh(pool: map<string, seq<UnusedUTxO>>, source: string, picked: seq<UnusedUTxO>, tx: TxRequest,
                       used: set<InputRef>, list: seq<TxRequest>)
    requires WellFormed(pool) && DrawnFrom(pool, source, picked, tx)
    requires AllConsumed(pool, used)
    requires InputsUsed(list, used)
    requires NoInputReused(list)
    ensures tx.inputs != [] && tx.inputs[0].address == source
    ensures forall i :: 0 <= i < |tx.inputs| ==> tx.inputs[i].address == tx.inputs[0].address
    ensures forall x :: x in tx.inputs ==> x !in used
    ensures NoInputReused(list + [tx])
  {
    forall i | 0 <= i < |tx.inputs|
      ensures tx.inputs[i] == InputRef(source, picked[i].transactionId) && picked[i] in pool[source]
    {
      assert picked[i] in multiset(pool[source]);
    }
    forall x | x in tx.inputs ensures x !in used {
      var i :| 0 <= i < |tx.inputs| && tx.inputs[i] == x;
      assert picked[i] in pool[source] && x == InputRef(source, picked[i].transactionId);
    }
    var l := list + [tx];
    forall i, j, x | 0 <= i < j < |l| && x in l[i].inputs ensures x !in l[j].inputs {
      if j < |list| {
        assert l[i] == list[i] && l[j] == list[j];
      } else {
        assert l[i] == list[i];
        assert x in used;
      }
    }
  }

  /** Adding a spent transaction's inputs to `used` keeps both bookkeeping facts. */
  lemma UsedGrows(pool: map<string, seq<UnusedUTxO>>, list: seq<TxRequest>, tx: TxRequest, used: set<InputRef>)
    requires |list| > 0 && list[|list| - 1] == tx
    requires InputsUsed(list[..|list| - 1], used) && AllConsumed(pool, used)
    requires forall i :: 0 <= i < |tx.inputs| ==> Consumed(pool, tx.inputs[i])
    ensures InputsUsed(list, used + set x | x in tx.inputs)
    ensures AllConsumed(pool, used + set x | x in tx.inputs)
  {
    var n := |list| - 1;
    forall j, x | 0 <= j < |list| && x in list[j].inputs ensures x in used + set x | x in tx.inputs {
      if j < n { assert list[j] == list[..n][j]; }
    }
    forall ref | ref in used + set x | x in tx.inputs ensures Consumed(pool, ref) {
      if ref !in used {
        var i :| 0 <= i < |tx.inputs| && tx.inputs[i] == ref;
      }
    }
  }

  /**
   * The generator's bookkeeping: the table is well formed, every input in
   * `used` is consumed from it, every input of the list is in `used`, and
   * no two transactions of the list share an input.
   */
  ghost predicate Bookkept(pool: map<string, seq<UnusedUTxO>>, used: set<InputRef>, list: seq<TxRequest>)
  {
    WellFormed(pool) && AllConsumed(pool, used) && InputsUsed(list, used) && NoInputReused(list)
  }

  /** Drawing one transaction and spending its inputs keeps the bookkeeping. */
  lemma BookkeptStep(pool: map<string, seq<UnusedUTxO>>, source: string, picked: seq<UnusedUTxO>, tx: TxRequest,
                     used: set<InputRef>, list: seq<TxRequest>)
    requires Bookkept(pool, used, list) && DrawnFrom(pool, source, picked, tx)
    ensures tx.inputs != [] && tx.inputs[0].address in pool
    ensures Bookkept(AfterSpend(pool, tx.inputs), used + (set x | x in tx.inputs), list + [tx])
    ensures Positive(pool) ==> Positive(AfterSpend(pool, tx.inputs)) && |AfterSpend(pool, tx.inputs)| >= |pool| - 1
  {
    NewInputsFresh(pool, source, picked, tx, used, list);
    AfterSpendSpec(pool, tx.inputs, used);
    assert (list + [tx])[..|list|] == list;
    UsedGrows(AfterSpend(pool, tx.inputs), list + [tx], tx, used);
  }

  /**
   * `tx` was drawn from the table `before` and spending its inputs from
   * `before` leaves `after`.
   */
  ghost predicate DrawnAndSpent(before: map<string, seq<UnusedUTxO>>, tx: TxRequest, after: map<string, seq<UnusedUTxO>>)
  {
    (exists source, picked :: DrawnFrom(before, source, picked, tx)) &&
    tx.inputs != [] && tx.inputs[0].address in before && after == AfterSpend(before, tx.inputs)
  }

  /**
   * The tables `tables[0]`, `tables[1]`, … are those the list's
   * transactions met in turn: each was drawn from the table as it stood
   * and its inputs were spent from it before the next was drawn.
   */
  ghost predicate DrawnInTurn(tables: seq<map<string, seq<UnusedUTxO>>>, list: seq<TxRequest>)
  {
    |tables| == |list| + 1 &&
    forall j :: 0 <= j < |list| ==> DrawnAndSpent(tables[j], list[j], tables[j + 1])
  }

  /** Drawing and spending one more transaction extends the account by one table. */
  lemma DrawnInTurnSnoc(tables: seq<map<string, seq<UnusedUTxO>>>, list: seq<TxRequest>, tx: TxRequest,
                        after: map<string, seq<UnusedUTxO>>)
    requires DrawnInTurn(tables, list) && DrawnAndSpent(tables[|tables| - 1], tx, after)
    ensures DrawnInTurn(tables + [after], list + [tx])
    ensures (tables + [after])[0] == tables[0]
  {
    var ts, l := tables + [after], list + [tx];
    forall j | 0 <= j < |l| ensures DrawnAndSpent(ts[j], l[j], ts[j + 1]) {
      if j < |list| {
        assert ts[j] == tables[j] && ts[j + 1] == tables[j + 1] && l[j] == list[j];
      }
    }
  }

  /**
   * From a well-formed table, the table left after a list drawn in turn is
   * well formed and holds none of the outputs any transaction of the list
   * spends.
   */
  lemma {:induction false} DrawnInTurnConsumes(tables: seq<map<string, seq<UnusedUTxO>>>, list: seq<TxRequest>)
    requires DrawnInTurn(tables, list) && WellFormed(tables[0])
    ensures WellFormed(tables[|list|])
    ensures forall j, x :: 0 <= j < |list| && x in list[j].inputs ==> Consumed(tables[|list|], x)
    decreases |list|
  {
    if list != [] {
      var n := |list| - 1;
      var ts, prefix := tables[..n + 1], list[..n];
      forall j | 0 <= j < n ensures DrawnAndSpent(ts[j], prefix[j], ts[j + 1]) {
        assert ts[j] == tables[j] && ts[j + 1] == tables[j + 1] && prefix[j] == list[j];
      }
      DrawnInTurnConsumes(ts, prefix);
      ConsumesOneMore(tables[n], list[..n], list[n], tables[n + 1]);
      assert list[..n] + [list[n]] == list;
    }
  }

  /**
   * If a well-formed table consumes every input of `prefix`, then after
   * drawing and spending `tx` from it, the next table consumes every input
   * of `prefix + [tx]`.
   */
  lemma ConsumesOneMore(before: map<string, seq<UnusedUTxO>>, prefix: seq<TxRequest>, tx: TxRequest,
                        after: map<string, seq<UnusedUTxO>>)
    requires WellFormed(before) && DrawnAndSpent(before, tx, after)
    requires forall j, x :: 0 <= j < |prefix| && x in prefix[j].inputs ==> Consumed(before, x)
    ensures WellFormed(after)
    ensures forall j, x :: 0 <= j < |prefix + [tx]| && x in (prefix + [tx])[j].inputs ==> Consumed(after, x)
  {
    var source, picked :| DrawnFrom(before, source, picked, tx);
    NewInputsFresh(before, source, picked, tx, {}, []);
    var used := set j, x | 0 <= j < |prefix| && x in prefix[j].inputs :: x;
    forall ref | ref in used ensures Consumed(before, ref) {
      var j :| 0 <= j < |prefix| && ref in prefix[j].inputs;
    }
    AfterSpendSpec(before, tx.inputs, used);
    var l := prefix + [tx];
    forall j, x | 0 <= j < |l| && x in l[j].inputs ensures Consumed(after, x) {
      if j == |prefix| {
        var i :| 0 <= i < |tx.inputs| && tx.inputs[i] == x;
      } else {
        assert l[j] == prefix[j] && x in used;
      }
    }
  }

  /** The generator's unspent-output table, which `createRandomAtomicList` rewrites in place. */
  class UnusedUTxOs {
    var table: map<string, seq<UnusedUTxO>>

    constructor(table: map<string, seq<UnusedUTxO>>)
      ensures this.table == table
    {
      this.table := table;
    }

    /**
     * The bookkeeping after one transaction: remove its inputs' transaction
     * ids from the first input's address (a `KeyError` if that address is
     * gone) and delete the address once its list is empty.
     */
    method Spend(inputs: seq<InputRef>) returns (err: Option<PyError>)
      requires inputs != []
      modifies this
      ensures inputs[0].address !in old(table) ==> err == Some(KeyError) && table == old(table)
      ensures inputs[0].address in old(table) ==> err == None && table == AfterSpend(old(table), inputs)
    {
      var sourceAddress := inputs[0].address;
      if sourceAddress !in table {
        return Some(KeyError);
      }
      var remaining := table[sourceAddress];
      for k := 0 to |inputs|
        invariant WithoutInputs(remaining, inputs[k..]) == WithoutInputs(table[sourceAddress], inputs)
      {
        assert inputs[k..][1..] == inputs[k + 1..];
        remaining := WithoutTxId(remaining, inputs[k].transactionId);
      }
      assert inputs[|inputs|..] == [];
      if remaining == [] {
        table := table - {sourceAddress};
      } else {
        table := table[sourceAddress := remaining];
      }
      return None;
    }

    /**
     * `createRandomAtomicList`: between min(2, n) and n transactions (n the
     * number of addresses), each drawn from the current table and then spent
     * from it. From a well-formed, positive table it never fails, and no two
     * transactions of the list share an input.
     */
    method CreateRandomAtomicList() returns (r: Result<seq<TxRequest>, PyError>, ghost tables: seq<map<string, seq<UnusedUTxO>>>)
      modifies this
      ensures |tables| >= 1 && tables[0] == old(table) && table == tables[|tables| - 1]
      ensures r.Ok? ==> DrawnInTurn(tables, r.value)
      ensures WellFormed(old(table)) ==> WellFormed(table)
      ensures WellFormed(old(table)) && r.Ok? ==> NoInputReused(r.value)
      ensures WellFormed(old(table)) && Positive(old(table)) ==> r.Ok? && Positive(table)
      ensures r.Ok? ==> |r.value| <= |old(table)| && (|old(table)| >= 2 ==> |r.value| >= 2)
    {
      var n0 := |table|;
      var lo := if n0 < 2 then n0 else 2;
      var numTransactions :| lo <= numTransactions <= n0;
      var list: seq<TxRequest> := [];
      ghost var used: set<InputRef> := {};
      ghost var wf := WellFormed(table);
      ghost var pos := Positive(table);
      tables := [table];
      for i := 0 to numTransactions
        invariant |list| == i
        invariant DrawnInTurn(tables, list) && tables[0] == old(table) && table == tables[i]
        invariant wf ==> Bookkept(table, used, list)
        invariant wf && pos ==> Positive(table) && |table| >= n0 - i
      {
        var t, source, picked := CreateRandomTransaction(table);
        if t.Err? {
          return Err(t.error), tables;
        }
        var tx := t.value;
        ghost var before, prev := table, list;
        if wf {
          BookkeptStep(table, source, picked, tx, used, list);
        }
        list := list + [tx];
        var err := Spend(tx.inputs);
        if err.Some? {
          return Err(err.value), tables;
        }
        assert DrawnAndSpent(before, tx, table) by {
          assert DrawnFrom(before, source, picked, tx);
        }
        DrawnInTurnSnoc(tables, prev, tx, table);
        tables := tables + [table];
        used := used + set x | x in tx.inputs;
      }
      return Ok(list), tables;
    }
  }
}

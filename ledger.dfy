/**
 * The per-shard UTXO ledger: `history` maps transaction ids to transactions and `balances` maps an
 * address to the set of unspent outputs it may spend.
 *
 * Sets of UTxOs compare objects by identity (UTxO has no `equals`), which is how Dafny compares objects.
 * The genesis balance is built with `Set.of`, an immutable set: removing from it or adding to it throws
 * `UnsupportedOperationException`. A balance therefore carries an `unmodifiable` flag.
 */
module Ledger {
  import opened Wrappers
  import opened Strings
  import opened Model

  const GENESIS_TX: string := "GenesisTx"
  const GENESIS_ADDRESS: string := "Genesis"

  datatype Balance = Balance(utxos: set<UTxO>, unmodifiable: bool)

  /** The UTxOs of `us` that carry `address`. */
  ghost function UTxOsAt(us: seq<UTxO>, address: string): set<UTxO>
  {
    set u | u in us && u.address == address
  }

  /** The addresses the UTxOs of `us` carry. */
  ghost function AddressesOf(us: seq<UTxO>): set<string>
  {
    set u | u in us :: u.address
  }

  // ===========================================================================
  // registerTransaction
  // ===========================================================================

  const BAD_INPUTS_REASON: string := "Bad transaction inputs. We might have a problem."

  /** The balances after (part of) an update and the exception that stopped it, if any. */
  datatype Step = Step(balances: map<string, Balance>, failure: Option<Exception>)

  /** What removing input `u` from its address's balance throws: a missing balance, or the immutable genesis set. */
  function Blocked(b: map<string, Balance>, u: UTxO): Option<Exception>
  {
    if u.address !in b then Some(RuntimeException(BAD_INPUTS_REASON))
    else if b[u.address].unmodifiable then Some(UnsupportedOperationException)
    else None
  }

  /** The balances after removing `u` from the balance of its address. */
  function Remove(b: map<string, Balance>, u: UTxO): map<string, Balance>
    requires u.address in b
  {
    b[u.address := Balance(b[u.address].utxos - {u}, false)]
  }

  /**
   * The input loop: each input is removed from the balance of its own address, in order; the first
   * input that cannot be removed stops the loop with the removals before it already done.
   */
  function SpendInputs(b: map<string, Balance>, ins: seq<UTxO>): (r: Step)
    ensures r.balances.Keys == b.Keys
    decreases |ins|
  {
    if ins == [] then Step(b, None)
    else match Blocked(b, ins[0])
      case Some(e) => Step(b, Some(e))
      case None => SpendInputs(Remove(b, ins[0]), ins[1..])
  }

  /** Adding to the balance of `address` throws only when it is the immutable genesis set. */
  predicate CreditBlocked(b: map<string, Balance>, address: string)
  {
    address in b && b[address].unmodifiable
  }

  /** The balances after adding `u` to the balance of its address, created empty when absent. */
  function Add(b: map<string, Balance>, u: UTxO): map<string, Balance>
  {
    b[u.address := Balance((if u.address in b then b[u.address].utxos else {}) + {u}, false)]
  }

  /** The output loop: each new UTxO joins its address's balance. */
  function CreditOutputs(b: map<string, Balance>, minted: seq<UTxO>): (r: Step)
    ensures b.Keys <= r.balances.Keys
    decreases |minted|
  {
    if minted == [] then Step(b, None)
    else if CreditBlocked(b, minted[0].address) then Step(b, Some(UnsupportedOperationException))
    else CreditOutputs(Add(b, minted[0]), minted[1..])
  }

  /** `minted` are the UTxOs `registerTransaction` builds for the outputs of `tx`, one per output, in order. */
  ghost predicate MintedFor(minted: seq<UTxO>, tx: Transaction)
  {
    |minted| == |tx.outputs| &&
    forall i :: 0 <= i < |minted| ==>
      minted[i].address == tx.outputs[i].address && minted[i].transactionId == tx.transactionId
  }

  datatype Outcome = Outcome(history: map<string, Transaction>, balances: map<string, Balance>, failure: Option<Exception>)

  /** The whole of `registerTransaction` on the two maps. */
  function Register(h: map<string, Transaction>, b: map<string, Balance>, tx: Transaction, minted: seq<UTxO>): (r: Outcome)
    ensures h.Keys <= r.history.Keys && b.Keys <= r.balances.Keys
  {
    if tx.transactionId in h then Outcome(h, b, None)
    else
      var spent := SpendInputs(b, tx.inputs);
      if spent.failure.Some? then Outcome(h, spent.balances, spent.failure)
      else
        var credited := CreditOutputs(spent.balances, minted);
        if credited.failure.Some? then Outcome(h, credited.balances, credited.failure)
        else Outcome(h[tx.transactionId := tx], credited.balances, None)
  }

  /** Spending succeeds exactly when no input is blocked. */
  lemma {:induction false} SpendInputsSucceeds(b: map<string, Balance>, ins: seq<UTxO>)
    ensures SpendInputs(b, ins).failure.None? <==> forall i :: 0 <= i < |ins| ==> Blocked(b, ins[i]).None?
    decreases |ins|
  {
    if ins != [] && Blocked(b, ins[0]).None? {
      var b' := Remove(b, ins[0]);
      assert forall v :: Blocked(b', v) == Blocked(b, v);
      SpendInputsSucceeds(b', ins[1..]);
      assert forall i :: 1 <= i < |ins| ==> ins[i] == ins[1..][i - 1];
    }
  }

  /** Spending without a blocked input takes from the balance of `a` exactly the inputs carrying `a`. */
  lemma {:induction false} SpendInputsAt(b: map<string, Balance>, ins: seq<UTxO>, a: string)
    requires forall i :: 0 <= i < |ins| ==> Blocked(b, ins[i]).None?
    requires a in b
    ensures SpendInputs(b, ins).balances[a] ==
      Balance(b[a].utxos - UTxOsAt(ins, a), b[a].unmodifiable && UTxOsAt(ins, a) == {})
    decreases |ins|
  {
    if ins != [] {
      var b' := Remove(b, ins[0]);
      assert forall v :: Blocked(b', v) == Blocked(b, v);
      assert forall i :: 1 <= i < |ins| ==> ins[i] == ins[1..][i - 1];
      SpendInputsAt(b', ins[1..], a);
      assert UTxOsAt(ins, a) == UTxOsAt(ins[1..], a) + (if ins[0].address == a then {ins[0]} else {});
    }
  }

  /**
   * The update is not atomic: when input `k` is the first that cannot be removed, the result is its
   * exception together with the balances after removing the inputs before `k`.
   */
  lemma {:induction false} SpendInputsStopsAtFirstBlocked(b: map<string, Balance>, ins: seq<UTxO>, k: nat)
    requires k < |ins| && Blocked(b, ins[k]).Some?
    requires forall i :: 0 <= i < k ==> Blocked(b, ins[i]).None?
    ensures SpendInputs(b, ins) == Step(SpendInputs(b, ins[..k]).balances, Blocked(b, ins[k]))
    decreases k
  {
    if k > 0 {
      var b' := Remove(b, ins[0]);
      assert forall v :: Blocked(b', v) == Blocked(b, v);
      assert ins[..k][1..] == ins[1..][..k - 1];
      SpendInputsStopsAtFirstBlocked(b', ins[1..], k - 1);
    }
  }

  /** Crediting succeeds exactly when no new UTxO goes to an immutable balance. */
  lemma {:induction false} CreditOutputsSucceeds(b: map<string, Balance>, minted: seq<UTxO>)
    ensures CreditOutputs(b, minted).failure.None? <==> forall i :: 0 <= i < |minted| ==> !CreditBlocked(b, minted[i].address)
    decreases |minted|
  {
    if minted != [] && !CreditBlocked(b, minted[0].address) {
      var b' := Add(b, minted[0]);
      assert forall a :: CreditBlocked(b', a) <==> CreditBlocked(b, a);
      CreditOutputsSucceeds(b', minted[1..]);
      assert forall i :: 1 <= i < |minted| ==> minted[i] == minted[1..][i - 1];
    }
  }

  /** A successful credit gives `a` a balance when it had one or receives a new UTxO, holding the old UTxOs and the new ones of `a`. */
  lemma {:induction false} CreditOutputsAt(b: map<string, Balance>, minted: seq<UTxO>, a: string)
    requires CreditOutputs(b, minted).failure.None?
    ensures a in CreditOutputs(b, minted).balances <==> a in b || a in AddressesOf(minted)
    ensures a in CreditOutputs(b, minted).balances ==>
      CreditOutputs(b, minted).balances[a].utxos == (if a in b then b[a].utxos else {}) + UTxOsAt(minted, a)
    decreases |minted|
  {
    if minted != [] {
      CreditOutputsAt(Add(b, minted[0]), minted[1..], a);
      assert UTxOsAt(minted, a) == UTxOsAt(minted[1..], a) + (if minted[0].address == a then {minted[0]} else {});
      assert AddressesOf(minted) == {minted[0].address} + AddressesOf(minted[1..]);
    }
  }

  /** Some input or output of `tx` carries address `a`. */
  ghost predicate Touches(tx: Transaction, a: string)
  {
    (exists u :: u in tx.inputs && u.address == a) || (exists t :: t in tx.outputs && t.address == a)
  }

  /**
   * A successful registration: it records the transaction under its id, and the balance of `a` loses
   * the inputs carrying `a` and gains the new UTxOs carrying `a`.
   */
  lemma RegisterEffect(h: map<string, Transaction>, b: map<string, Balance>, tx: Transaction, minted: seq<UTxO>, a: string)
    requires tx.transactionId !in h
    requires forall u :: u in tx.inputs ==> Blocked(b, u).None?
    requires forall u :: u in minted ==> !CreditBlocked(b, u.address)
    ensures Register(h, b, tx, minted).failure.None? && Register(h, b, tx, minted).history == h[tx.transactionId := tx]
    ensures a in Register(h, b, tx, minted).balances <==> a in b || a in AddressesOf(minted)
    ensures a in Register(h, b, tx, minted).balances ==>
      Register(h, b, tx, minted).balances[a].utxos == (if a in b then b[a].utxos else {}) - UTxOsAt(tx.inputs, a) + UTxOsAt(minted, a)
  {
    assert forall i :: 0 <= i < |tx.inputs| ==> tx.inputs[i] in tx.inputs;
    SpendInputsSucceeds(b, tx.inputs);
    var spent := SpendInputs(b, tx.inputs).balances;
    forall i | 0 <= i < |minted| ensures !CreditBlocked(spent, minted[i].address) {
      assert minted[i] in minted;
      if minted[i].address in b { SpendInputsAt(b, tx.inputs, minted[i].address); }
    }
    CreditOutputsSucceeds(spent, minted);
    CreditOutputsAt(spent, minted, a);
    if a in b { SpendInputsAt(b, tx.inputs, a); }
  }

  /**
   * After a successful registration each output's address holds the new UTxO, each input is gone from
   * its address's balance, and the balances of all other addresses are as before.
   */
  lemma RegisterMovesUTxOs(h: map<string, Transaction>, b: map<string, Balance>, tx: Transaction, minted: seq<UTxO>)
    requires MintedFor(minted, tx)
    requires tx.transactionId !in h
    requires forall u :: u in tx.inputs ==> Blocked(b, u).None?
    requires forall t :: t in tx.outputs ==> !CreditBlocked(b, t.address)
    requires forall u :: u in tx.inputs ==> u !in minted
    ensures Register(h, b, tx, minted).failure.None?
    ensures forall i :: 0 <= i < |minted| ==>
      tx.outputs[i].address in Register(h, b, tx, minted).balances &&
      minted[i] in Register(h, b, tx, minted).balances[tx.outputs[i].address].utxos
    ensures forall u :: u in tx.inputs ==>
      u.address in Register(h, b, tx, minted).balances && u !in Register(h, b, tx, minted).balances[u.address].utxos
    ensures forall a :: !Touches(tx, a) ==>
      (a in Register(h, b, tx, minted).balances <==> a in b) && (a in b ==> Register(h, b, tx, minted).balances[a] == b[a])
  {
    forall u | u in minted ensures !CreditBlocked(b, u.address) {
      var i :| 0 <= i < |minted| && minted[i] == u;
      assert tx.outputs[i] in tx.outputs;
    }
    var r := Register(h, b, tx, minted).balances;
    forall i | 0 <= i < |minted| ensures tx.outputs[i].address in r && minted[i] in r[tx.outputs[i].address].utxos {
      assert minted[i] in minted;
      RegisterEffect(h, b, tx, minted, minted[i].address);
    }
    forall u | u in tx.inputs ensures u.address in r && u !in r[u.address].utxos {
      RegisterEffect(h, b, tx, minted, u.address);
    }
    forall a | !Touches(tx, a) ensures (a in r <==> a in b) && (a in b ==> r[a] == b[a]) {
      RegisterEffect(h, b, tx, minted, a);
      forall u | u in minted ensures u.address != a {
        var i :| 0 <= i < |minted| && minted[i] == u;
        assert tx.outputs[i] in tx.outputs;
      }
      assert UTxOsAt(tx.inputs, a) == {} && UTxOsAt(minted, a) == {} && a !in AddressesOf(minted);
      if a in b {
        SpendInputsAt(b, tx.inputs, a);
        CreditOutputsSucceeds(SpendInputs(b, tx.inputs).balances, minted);
        assert r[a].unmodifiable == b[a].unmodifiable by {
          CreditOutputsKeepsFlag(SpendInputs(b, tx.inputs).balances, minted, a);
        }
      }
    }
    RegisterEffect(h, b, tx, minted, "");
  }

  /** Crediting never changes whether an existing balance is immutable. */
  lemma {:induction false} CreditOutputsKeepsFlag(b: map<string, Balance>, minted: seq<UTxO>, a: string)
    requires a in b
    ensures CreditOutputs(b, minted).balances[a].unmodifiable == b[a].unmodifiable
    decreases |minted|
  {
    if minted != [] && !CreditBlocked(b, minted[0].address) {
      CreditOutputsKeepsFlag(Add(b, minted[0]), minted[1..], a);
    }
  }

  /**
   * A registration whose input `k` is the first that cannot be removed throws that input's exception,
   * leaves the history alone and keeps the removals of the inputs before `k`.
   */
  lemma RegisterIsNotAtomic(h: map<string, Transaction>, b: map<string, Balance>, tx: Transaction, minted: seq<UTxO>, k: nat)
    requires tx.transactionId !in h
    requires k < |tx.inputs| && Blocked(b, tx.inputs[k]).Some?
    requires forall i :: 0 <= i < k ==> Blocked(b, tx.inputs[i]).None?
    ensures Register(h, b, tx, minted).failure == Blocked(b, tx.inputs[k])
    ensures Register(h, b, tx, minted).history == h
    ensures forall a :: a in b ==> Register(h, b, tx, minted).balances[a].utxos == b[a].utxos - UTxOsAt(tx.inputs[..k], a)
  {
    SpendInputsStopsAtFirstBlocked(b, tx.inputs, k);
    forall a | a in b ensures Register(h, b, tx, minted).balances[a].utxos == b[a].utxos - UTxOsAt(tx.inputs[..k], a) {
      SpendInputsAt(b, tx.inputs[..k], a);
    }
  }

  /** Every balance that is not immutable holds only UTxOs of its own address. */
  ghost predicate Keyed(b: map<string, Balance>)
  {
    forall a :: a in b && !b[a].unmodifiable ==> forall u :: u in b[a].utxos ==> u.address == a
  }

  /** The history is keyed by transaction id; the immutable balance's key is a recorded id; the other balances are keyed by address. */
  ghost predicate LedgerInvariant(h: map<string, Transaction>, b: map<string, Balance>)
  {
    (forall id :: id in h ==> h[id].transactionId == id) &&
    ImmutableIn(b, h.Keys) &&
    Keyed(b)
  }

  /** Every immutable balance is keyed by one of `ids`. */
  ghost predicate ImmutableIn(b: map<string, Balance>, ids: set<string>)
  {
    forall a :: a in b && b[a].unmodifiable ==> a in ids
  }

  lemma {:induction false} SpendInputsKeepsInvariant(b: map<string, Balance>, ins: seq<UTxO>, h: set<string>)
    requires Keyed(b) && ImmutableIn(b, h)
    ensures Keyed(SpendInputs(b, ins).balances) && ImmutableIn(SpendInputs(b, ins).balances, h)
    decreases |ins|
  {
    if ins != [] && Blocked(b, ins[0]).None? {
      SpendInputsKeepsInvariant(Remove(b, ins[0]), ins[1..], h);
    }
  }

  lemma {:induction false} CreditOutputsKeepsInvariant(b: map<string, Balance>, minted: seq<UTxO>, h: set<string>)
    requires Keyed(b) && ImmutableIn(b, h)
    ensures Keyed(CreditOutputs(b, minted).balances) && ImmutableIn(CreditOutputs(b, minted).balances, h)
    decreases |minted|
  {
    if minted != [] && !CreditBlocked(b, minted[0].address) {
      var b' := Add(b, minted[0]);
      assert Keyed(b') && ImmutableIn(b', h);
      CreditOutputsKeepsInvariant(b', minted[1..], h);
    }
  }

  /** Every outcome of `registerTransaction`, failed ones included, keeps the ledger invariant. */
  lemma RegisterPreservesInvariant(h: map<string, Transaction>, b: map<string, Balance>, tx: Transaction, minted: seq<UTxO>)
    requires LedgerInvariant(h, b)
    ensures LedgerInvariant(Register(h, b, tx, minted).history, Register(h, b, tx, minted).balances)
  {
    if tx.transactionId !in h {
      var spent := SpendInputs(b, tx.inputs);
      SpendInputsKeepsInvariant(b, tx.inputs, h.Keys);
      if spent.failure.None? {
        var credited := CreditOutputs(spent.balances, minted);
        CreditOutputsKeepsInvariant(spent.balances, minted, h.Keys);
        if credited.failure.None? {
          var h' := h[tx.transactionId := tx];
          assert ImmutableIn(credited.balances, h'.Keys);
        }
      }
    }
  }

  // ===========================================================================
  // canProcessTransaction
  // ===========================================================================

  const R_EXISTS: string := "Transaction already exists."
  const R_NO_SOURCE: string := "Can't resolve sourceAddress."
  const R_DUPLICATE_INPUTS: string := "Input UTxOs aren't unique."
  const R_DUPLICATE_OUTPUTS: string := "Output transfers aren't unique."
  const R_MISSING_INPUTS: string := "Don't have all transactions used in inputs."
  const R_DUPLICATE_DESTINATIONS: string := "Transfers are not to unique destinations."
  const R_UNPROCESSED: string := "Invalid UTxO in inputs: UTxO belongs to a transaction that wasn't processed."
  const R_LATER: string := "Invalid UTxO in inputs: UTxO belongs to a transaction with a later timestamp."
  const R_NOT_AN_OUTPUT: string := "Invalid UTxO in inputs. Isn't an output of the given transaction."
  const R_APPROVED: string := "Transaction can be processed"

  const APPROVED: Response := Response(Some(OK), R_APPROVED)

  function BadRequest(reason: string): Response { Response(Some(BAD_REQUEST), reason) }

  /** The reason given when the coin totals differ, both written with `%x`. */
  function MismatchReason(inputCoins: int, outputCoins: int): string
  {
    "Input coins (" + IntToHex(inputCoins) + ") are not equal to Output coins (" + IntToHex(outputCoins) + ")."
  }

  /** The output addresses, in order. */
  function Destinations(outs: seq<Transfer>): (r: seq<string>)
    ensures |r| == |outs| && forall i :: 0 <= i < |outs| ==> r[i] == outs[i].address
  {
    seq(|outs|, i requires 0 <= i < |outs| => outs[i].address)
  }

  /** The coins of the first transfer to `address`, if any. */
  function FirstTransferTo(outs: seq<Transfer>, address: string): (r: Option<Long>)
    ensures r.None? <==> forall i :: 0 <= i < |outs| ==> outs[i].address != address
    ensures r.Some? ==> exists i :: 0 <= i < |outs| && outs[i].address == address && outs[i].coins == r.value &&
                                    forall j :: 0 <= j < i ==> outs[j].address != address
  {
    if outs == [] then None
    else if outs[0].address == address then Some(outs[0].coins)
    else
      var r := FirstTransferTo(outs[1..], address);
      assert forall i :: 1 <= i < |outs| ==> outs[i] == outs[1..][i - 1];
      if r.Some? then
        var i :| 0 <= i < |outs[1..]| && outs[1..][i].address == address && outs[1..][i].coins == r.value &&
                 forall j :: 0 <= j < i ==> outs[1..][j].address != address;
        assert outs[i + 1].address == address && outs[i + 1].coins == r.value;
        r
      else r
  }

  /** What is wrong with spending `u` in a transaction stamped `ts`, checked in the source's order. */
  function InputProblem(h: map<string, Transaction>, ts: Long, u: UTxO): Option<string>
  {
    if u.transactionId !in h then Some(R_UNPROCESSED)
    else if h[u.transactionId].timestamp >= ts then Some(R_LATER)
    else if FirstTransferTo(h[u.transactionId].outputs, u.address).None? then Some(R_NOT_AN_OUTPUT)
    else None
  }

  /** The coins an input brings: those of the first transfer to its address in the producing transaction. */
  function InputCoins(h: map<string, Transaction>, u: UTxO): int
  {
    if u.transactionId in h then
      match FirstTransferTo(h[u.transactionId].outputs, u.address)
      case Some(c) => c
      case None => 0
    else 0
  }

  /** The per-input loop: the first problem in input order, or the total of the inputs' coins. */
  function ScanInputs(h: map<string, Transaction>, ts: Long, ins: seq<UTxO>): Result<int, string>
    decreases |ins|
  {
    if ins == [] then Ok(0)
    else match InputProblem(h, ts, ins[0])
      case Some(reason) => Err(reason)
      case None =>
        match ScanInputs(h, ts, ins[1..])
        case Err(reason) => Err(reason)
        case Ok(rest) => Ok(InputCoins(h, ins[0]) + rest)
  }

  /** The coins of the inputs, added up independently of any check. */
  ghost function InputTotal(h: map<string, Transaction>, ins: seq<UTxO>): int
  {
    if ins == [] then 0 else InputTotal(h, ins[..|ins| - 1]) + InputCoins(h, ins[|ins| - 1])
  }

  /** The sum of the outputs' coins. */
  function SumCoins(outs: seq<Transfer>): int
  {
    if outs == [] then 0 else SumCoins(outs[..|outs| - 1]) + outs[|outs| - 1].coins
  }

  /** `canProcessTransaction`, check by check in the source's order; a missing source balance throws. */
  function CheckTransaction(h: map<string, Transaction>, b: map<string, Balance>, tx: Transaction): (r: Result<Response, Exception>)
    ensures r.Err? <==> tx.sourceAddress.Some? && tx.sourceAddress.value !in h && tx.sourceAddress.value !in b
                        && Distinct(tx.inputs) && Distinct(tx.outputs)
    ensures r.Err? ==> r.error == NullPointerException
    ensures r.Ok? ==> r.value.statusCode.Some? && r.value.statusCode.value in {OK, BAD_REQUEST, CONFLICT}
    ensures r.Ok? && r.value.statusCode == Some(CONFLICT) <==> tx.sourceAddress.Some? && tx.sourceAddress.value in h
  {
    if tx.sourceAddress.Some? && tx.sourceAddress.value in h then Ok(Response(Some(CONFLICT), R_EXISTS))
    else if tx.sourceAddress.None? then Ok(BadRequest(R_NO_SOURCE))
    else if !Distinct(tx.inputs) then Ok(BadRequest(R_DUPLICATE_INPUTS))
    else if !Distinct(tx.outputs) then Ok(BadRequest(R_DUPLICATE_OUTPUTS))
    else if tx.sourceAddress.value !in b then Err(NullPointerException)
    else if !(forall u :: u in tx.inputs ==> u in b[tx.sourceAddress.value].utxos) then Ok(BadRequest(R_MISSING_INPUTS))
    else if !Distinct(Destinations(tx.outputs)) then Ok(BadRequest(R_DUPLICATE_DESTINATIONS))
    else match ScanInputs(h, tx.timestamp, tx.inputs)
      case Err(reason) => Ok(BadRequest(reason))
      case Ok(inputCoins) =>
        var outputCoins := 1 + SumCoins(tx.outputs);
        if outputCoins != inputCoins then Ok(BadRequest(MismatchReason(inputCoins, outputCoins)))
        else Ok(APPROVED)
  }

  /** The input loop passes exactly when every input passes, and then yields the inputs' total coins. */
  lemma {:induction false} ScanInputsSucceeds(h: map<string, Transaction>, ts: Long, ins: seq<UTxO>)
    ensures ScanInputs(h, ts, ins).Ok? <==> forall i :: 0 <= i < |ins| ==> InputProblem(h, ts, ins[i]).None?
    ensures ScanInputs(h, ts, ins).Ok? ==> ScanInputs(h, ts, ins).value == InputTotal(h, ins)
    decreases |ins|
  {
    if ins != [] {
      ScanInputsSucceeds(h, ts, ins[1..]);
      assert forall i :: 1 <= i < |ins| ==> ins[i] == ins[1..][i - 1];
      InputTotalFront(h, ins);
    }
  }

  lemma {:induction false} InputTotalFront(h: map<string, Transaction>, ins: seq<UTxO>)
    requires ins != []
    ensures InputTotal(h, ins) == InputCoins(h, ins[0]) + InputTotal(h, ins[1..])
    decreases |ins|
  {
    if |ins| > 1 {
      var init := ins[..|ins| - 1];
      InputTotalFront(h, init);
      assert init[1..] == ins[1..][..|ins[1..]| - 1];
    }
  }

  /** The input loop reports the problem of the first input that has one. */
  lemma {:induction false} ScanInputsFirstProblem(h: map<string, Transaction>, ts: Long, ins: seq<UTxO>, k: nat)
    requires k < |ins| && InputProblem(h, ts, ins[k]).Some?
    requires forall i :: 0 <= i < k ==> InputProblem(h, ts, ins[i]).None?
    ensures ScanInputs(h, ts, ins) == Err(InputProblem(h, ts, ins[k]).value)
    decreases k
  {
    if k > 0 {
      ScanInputsFirstProblem(h, ts, ins[1..], k - 1);
    }
  }

  /** Every check that approval needs, without the order in which the source applies them. */
  ghost predicate Approvable(h: map<string, Transaction>, b: map<string, Balance>, tx: Transaction)
  {
    tx.sourceAddress.Some? && tx.sourceAddress.value !in h && tx.sourceAddress.value in b &&
    Distinct(tx.inputs) && Distinct(tx.outputs) && Distinct(Destinations(tx.outputs)) &&
    (forall u :: u in tx.inputs ==> u in b[tx.sourceAddress.value].utxos) &&
    (forall u :: u in tx.inputs ==> InputProblem(h, tx.timestamp, u).None?) &&
    InputTotal(h, tx.inputs) == 1 + SumCoins(tx.outputs)
  }

  /** `canProcessTransaction` answers OK exactly when every check passes; the inputs must bring one coin more than the outputs. */
  lemma CheckApprovesIff(h: map<string, Transaction>, b: map<string, Balance>, tx: Transaction)
    ensures CheckTransaction(h, b, tx) == Ok(APPROVED) <==> Approvable(h, b, tx)
  {
    ScanInputsSucceeds(h, tx.timestamp, tx.inputs);
    if Approvable(h, b, tx) {
      assert forall i :: 0 <= i < |tx.inputs| ==> tx.inputs[i] in tx.inputs;
    }
  }

  /**
   * With only the genesis block recorded, nothing is approved: a source with a balance must be the
   * genesis key, which is also a recorded transaction id.
   */
  lemma GenesisLedgerApprovesNothing(g: Transaction, utxos: set<UTxO>, tx: Transaction)
    ensures CheckTransaction(map[GENESIS_TX := g], map[GENESIS_TX := Balance(utxos, true)], tx) != Ok(APPROVED)
  {
    CheckApprovesIff(map[GENESIS_TX := g], map[GENESIS_TX := Balance(utxos, true)], tx);
  }

  /**
   * On a ledger that keeps the invariant, an approved transaction registers without an exception unless
   * it pays to the genesis key, and its inputs leave the source's balance.
   */
  lemma ApprovedTransactionRegisters(h: map<string, Transaction>, b: map<string, Balance>, tx: Transaction, minted: seq<UTxO>)
    requires LedgerInvariant(h, b)
    requires CheckTransaction(h, b, tx) == Ok(APPROVED)
    requires tx.transactionId !in h
    requires MintedFor(minted, tx) && forall u :: u in tx.inputs ==> u !in minted
    requires forall t :: t in tx.outputs ==> !CreditBlocked(b, t.address)
    ensures Register(h, b, tx, minted).failure.None?
    ensures forall u :: u in tx.inputs ==> u.address == tx.sourceAddress.value &&
                                           u !in Register(h, b, tx, minted).balances[tx.sourceAddress.value].utxos
  {
    CheckApprovesIff(h, b, tx);
    RegisterMovesUTxOs(h, b, tx, minted);
  }

  // ===========================================================================
  // listTransactionsForAddress
  // ===========================================================================

  /** `order` is an iteration order of the history map: each key exactly once. */
  ghost predicate IterationOrder(h: map<string, Transaction>, order: seq<string>)
  {
    Distinct(order) && forall k :: k in order <==> k in h
  }

  /** The transaction's source is `address` or one of its outputs goes to `address`. */
  predicate Involves(t: Transaction, address: string)
  {
    (t.sourceAddress.Some? && t.sourceAddress.value == address) || exists i :: 0 <= i < |t.outputs| && t.outputs[i].address == address
  }

  /** The filter over the history's values; a transaction with a null source makes it throw. */
  function SelectInvolving(h: map<string, Transaction>, order: seq<string>, address: string): Result<seq<Transaction>, Exception>
    requires forall k :: k in order ==> k in h
  {
    if order == [] then Ok([])
    else
      var t := h[order[0]];
      if t.sourceAddress.None? then Err(NullPointerException)
      else match SelectInvolving(h, order[1..], address)
        case Err(e) => Err(e)
        case Ok(rest) => Ok((if Involves(t, address) then [t] else []) + rest)
  }

  /** The filter throws exactly when some recorded transaction has no source, and otherwise keeps exactly the transactions involving `address`. */
  lemma {:induction false} SelectInvolvingSpec(h: map<string, Transaction>, order: seq<string>, address: string)
    requires forall k :: k in order ==> k in h
    ensures SelectInvolving(h, order, address).Err? <==> exists k :: k in order && h[k].sourceAddress.None?
    ensures SelectInvolving(h, order, address).Ok? ==>
      forall t :: t in SelectInvolving(h, order, address).value <==> exists k :: k in order && h[k] == t && Involves(t, address)
    decreases |order|
  {
    if order != [] {
      SelectInvolvingSpec(h, order[1..], address);
      assert forall k :: k in order <==> k == order[0] || k in order[1..];
    }
  }

  /** Java's wrapping `long` arithmetic, for a value at most one wrap away from the `long` range (a sum or difference of two `long`s). */
  function WrapLong(x: int): Long
    requires LONG_MIN - LONG_MAX <= x <= LONG_MAX - LONG_MIN
  {
    if x > LONG_MAX then x - 0x1_0000_0000_0000_0000
    else if x < LONG_MIN then x + 0x1_0000_0000_0000_0000
    else x
  }

  /** Java's `(int)` cast of a `long`: it keeps the low 32 bits. */
  function WrapInt(x: Long): int
  {
    if INT_MIN <= x <= INT_MAX then x else (x - INT_MIN) % 0x1_0000_0000 + INT_MIN
  }

  /** The comparator `(int) (t1.getTimestamp() - t2.getTimestamp())`. */
  function CompareByTimestamp(t1: Transaction, t2: Transaction): int
  {
    WrapInt(WrapLong(t1.timestamp - t2.timestamp))
  }

  /** Timestamps that differ by no more than an `int` can hold, for which the comparator is exact. */
  ghost predicate TimestampsFitComparator(s: seq<Transaction>)
  {
    forall t1, t2 :: t1 in s && t2 in s ==> INT_MIN <= t1.timestamp - t2.timestamp <= INT_MAX
  }

  lemma CompareByTimestampExact(t1: Transaction, t2: Transaction)
    requires INT_MIN <= t1.timestamp - t2.timestamp <= INT_MAX
    ensures CompareByTimestamp(t1, t2) == t1.timestamp - t2.timestamp
  {
  }

  /** One insertion step of a stable sort by the comparator: `x` goes before the first element it does not exceed. */
  function InsertByTimestamp(x: Transaction, s: seq<Transaction>): (r: seq<Transaction>)
    ensures multiset(r) == multiset(s) + multiset{x} && |r| == |s| + 1
  {
    if s == [] || CompareByTimestamp(x, s[0]) <= 0 then [x] + s
    else
      assert s == [s[0]] + s[1..];
      [s[0]] + InsertByTimestamp(x, s[1..])
  }

  /**
   * Insertion sort with the timestamp comparator; it equals the stable `List.sort` when the comparator is
   * a total preorder.
   */
  function SortByTimestamp(s: seq<Transaction>): (r: seq<Transaction>)
    ensures multiset(r) == multiset(s) && |r| == |s|
  {
    if s == [] then []
    else
      assert s == [s[0]] + s[1..];
      InsertByTimestamp(s[0], SortByTimestamp(s[1..]))
  }

  ghost predicate AscendingTimestamps(s: seq<Transaction>)
  {
    forall i, j :: 0 <= i < j < |s| ==> s[i].timestamp <= s[j].timestamp
  }

  lemma {:induction false} InsertByTimestampSorted(x: Transaction, s: seq<Transaction>)
    requires AscendingTimestamps(s)
    requires forall y :: y in s ==> INT_MIN <= x.timestamp - y.timestamp <= INT_MAX
    ensures AscendingTimestamps(InsertByTimestamp(x, s))
    decreases |s|
  {
    if s != [] {
      CompareByTimestampExact(x, s[0]);
      var r := InsertByTimestamp(x, s);
      if x.timestamp <= s[0].timestamp {
        assert r == [x] + s;
        PrependAscending(x, s);
      } else {
        var t := InsertByTimestamp(x, s[1..]);
        assert r == [s[0]] + t;
        InsertByTimestampSorted(x, s[1..]);
        forall k | 0 <= k < |t| ensures s[0].timestamp <= t[k].timestamp {
          assert t[k] in multiset(t);
          if t[k] != x {
            assert t[k] in multiset(s[1..]);
            var m :| 0 <= m < |s[1..]| && s[1..][m] == t[k];
            assert s[m + 1] == t[k];
          }
        }
        PrependAscending(s[0], t);
      }
    }
  }

  lemma PrependAscending(y: Transaction, t: seq<Transaction>)
    requires AscendingTimestamps(t) && forall k :: 0 <= k < |t| ==> y.timestamp <= t[k].timestamp
    ensures AscendingTimestamps([y] + t)
  {
    var r := [y] + t;
    forall i, j | 0 <= i < j < |r| ensures r[i].timestamp <= r[j].timestamp {
      if i > 0 { assert r[i] == t[i - 1] && r[j] == t[j - 1]; }
      else { assert r[j] == t[j - 1]; }
    }
  }

  /** When the comparator is exact, the sort orders by ascending timestamp. */
  lemma {:induction false} SortByTimestampSorted(s: seq<Transaction>)
    requires TimestampsFitComparator(s)
    ensures AscendingTimestamps(SortByTimestamp(s))
    decreases |s|
  {
    if s != [] {
      assert forall y :: y in s[1..] ==> y in s;
      SortByTimestampSorted(s[1..]);
      var rest := SortByTimestamp(s[1..]);
      forall y | y in rest ensures INT_MIN <= s[0].timestamp - y.timestamp <= INT_MAX {
        assert y in multiset(s[1..]);
        assert y in s;
      }
      InsertByTimestampSorted(s[0], rest);
    }
  }

  /**
   * `listTransactionsForAddress`: filter the history values (in the map's iteration order `order`),
   * sort them with the timestamp comparator and cut the list at `limit`, which `subList` rejects when
   * negative or beyond the number of matches.
   */
  function ListTransactionsForAddress(h: map<string, Transaction>, order: seq<string>, address: string, limit: int): (r: Result<seq<Transaction>, Exception>)
    requires IterationOrder(h, order)
    ensures r.Ok? <==> SelectInvolving(h, order, address).Ok? && 0 <= limit <= |SelectInvolving(h, order, address).value|
    ensures r.Ok? ==> |r.value| == limit
    ensures r.Err? && SelectInvolving(h, order, address).Ok? ==>
      r.error == (if limit < 0 then IllegalArgumentException else IndexOutOfBoundsException)
  {
    match SelectInvolving(h, order, address)
    case Err(e) => Err(e)
    case Ok(found) =>
      var sorted := SortByTimestamp(found);
      if limit > |sorted| then Err(IndexOutOfBoundsException)
      else if limit < 0 then Err(IllegalArgumentException)
      else Ok(sorted[..limit])
  }

  /** Every listed transaction is recorded and involves the address. */
  lemma ListedTransactionsInvolveAddress(h: map<string, Transaction>, order: seq<string>, address: string, limit: int)
    requires IterationOrder(h, order)
    requires ListTransactionsForAddress(h, order, address, limit).Ok?
    ensures forall t :: t in ListTransactionsForAddress(h, order, address, limit).value ==> t in h.Values && Involves(t, address)
  {
    SelectInvolvingSpec(h, order, address);
    var found := SelectInvolving(h, order, address).value;
    var r := ListTransactionsForAddress(h, order, address, limit).value;
    forall t | t in r ensures t in h.Values && Involves(t, address) {
      assert t in multiset(SortByTimestamp(found));
      assert t in found;
      var k :| k in order && h[k] == t && Involves(t, address);
      assert k in h;
    }
  }

  /** In an ascending sequence, an element outside the first `n` is no earlier than any of them. */
  lemma AscendingPrefixEarliest(sorted: seq<Transaction>, n: nat, x: Transaction)
    requires AscendingTimestamps(sorted) && n <= |sorted|
    requires x in sorted && x !in sorted[..n]
    ensures forall t :: t in sorted[..n] ==> t.timestamp <= x.timestamp
  {
    var j :| 0 <= j < |sorted| && sorted[j] == x;
    assert forall m :: 0 <= m < n ==> sorted[m] in sorted[..n];
    forall t | t in sorted[..n] ensures t.timestamp <= x.timestamp {
      var i :| 0 <= i < n && sorted[..n][i] == t;
    }
  }

  /**
   * When timestamps are close enough for the comparator, the answer is in ascending timestamp order and
   * holds the `limit` earliest involving transactions: any involving transaction left out is no earlier
   * than every listed one.
   */
  lemma ListTransactionsEarliestFirst(h: map<string, Transaction>, order: seq<string>, address: string, limit: int)
    requires IterationOrder(h, order)
    requires forall k1, k2 :: k1 in h && k2 in h ==> INT_MIN <= h[k1].timestamp - h[k2].timestamp <= INT_MAX
    requires ListTransactionsForAddress(h, order, address, limit).Ok?
    ensures AscendingTimestamps(ListTransactionsForAddress(h, order, address, limit).value)
    ensures forall k :: k in h && Involves(h[k], address) && h[k] !in ListTransactionsForAddress(h, order, address, limit).value ==>
      forall t :: t in ListTransactionsForAddress(h, order, address, limit).value ==> t.timestamp <= h[k].timestamp
  {
    SelectInvolvingSpec(h, order, address);
    var found := SelectInvolving(h, order, address).value;
    var sorted := SortByTimestamp(found);
    var r := ListTransactionsForAddress(h, order, address, limit).value;
    assert r == sorted[..limit];
    assert TimestampsFitComparator(found) by {
      forall t1, t2 | t1 in found && t2 in found ensures INT_MIN <= t1.timestamp - t2.timestamp <= INT_MAX {
        var k1 :| k1 in order && h[k1] == t1 && Involves(t1, address);
        var k2 :| k2 in order && h[k2] == t2 && Involves(t2, address);
      }
    }
    SortByTimestampSorted(found);
    forall k | k in h && Involves(h[k], address) && h[k] !in r
      ensures forall t :: t in r ==> t.timestamp <= h[k].timestamp
    {
      assert h[k] in multiset(sorted);
      AscendingPrefixEarliest(sorted, limit, h[k]);
    }
  }

  /** Asking for as many transactions as there are involving ones lists every one of them. */
  lemma ListTransactionsComplete(h: map<string, Transaction>, order: seq<string>, address: string)
    requires IterationOrder(h, order)
    requires SelectInvolving(h, order, address).Ok?
    ensures var n := |SelectInvolving(h, order, address).value|;
      ListTransactionsForAddress(h, order, address, n).Ok? &&
      forall k :: k in h && Involves(h[k], address) ==> h[k] in ListTransactionsForAddress(h, order, address, n).value
  {
    SelectInvolvingSpec(h, order, address);
    var found := SelectInvolving(h, order, address).value;
    var sorted := SortByTimestamp(found);
    assert sorted[..|found|] == sorted;
    forall k | k in h && Involves(h[k], address) ensures h[k] in sorted {
      assert h[k] in found;
      assert h[k] in multiset(sorted);
    }
  }

  // ===========================================================================
  // The ledger object
  // ===========================================================================

  class TransactionLedger {
    var history: map<string, Transaction>
    var balances: map<string, Balance>

    ghost predicate Valid()
      reads this
    {
      LedgerInvariant(history, balances)
    }

    constructor ()
      ensures history == map[] && balances == map[]
      ensures Valid()
    {
      history := map[];
      balances := map[];
    }

    /**
     * `addGenesisBlockToLedger`: records transaction "GenesisTx" (timestamp 0, source "", no inputs, one
     * output of -1 coins to "Genesis") and gives key "GenesisTx" the immutable set holding one new UTxO
     * of address "Genesis" from transaction "GenesisTx".
     */
    method AddGenesisBlockToLedger()
      modifies this
      ensures GENESIS_TX in history && GENESIS_TX in balances
      ensures var g := history[GENESIS_TX];
        g.transactionId == GENESIS_TX && g.timestamp == 0 && g.sourceAddress == Some("") && g.inputs == [] &&
        |g.outputs| == 1 && g.outputs[0].address == GENESIS_ADDRESS && g.outputs[0].coins == -1 && fresh(g.outputs[0])
      ensures history == old(history)[GENESIS_TX := history[GENESIS_TX]]
      ensures balances == old(balances)[GENESIS_TX := balances[GENESIS_TX]]
      ensures balances[GENESIS_TX].unmodifiable && |balances[GENESIS_TX].utxos| == 1
      ensures forall u :: u in balances[GENESIS_TX].utxos ==>
        fresh(u) && u.address == GENESIS_ADDRESS && u.transactionId == GENESIS_TX
      ensures old(Valid()) ==> Valid()
    {
      var out := new Transfer(GENESIS_ADDRESS, -1);
      var genesis := Transaction(GENESIS_TX, 0, Some(""), [], [out]);
      history := history[genesis.transactionId := genesis];
      var u := new UTxO(GENESIS_ADDRESS, GENESIS_TX);
      balances := balances[genesis.transactionId := Balance({u}, true)];
    }

    /**
     * `registerTransaction`. `minted` are the UTxOs it creates for the outputs; they exist only when the
     * transaction is new and its inputs were all removed.
     */
    method RegisterTransaction(tx: Transaction) returns (failure: Option<Exception>, ghost minted: seq<UTxO>)
      modifies this
      ensures tx.transactionId !in old(history) && SpendInputs(old(balances), tx.inputs).failure.None? ==>
        MintedFor(minted, tx) && forall u :: u in minted ==> fresh(u)
      ensures Outcome(history, balances, failure) == Register(old(history), old(balances), tx, minted)
      ensures old(Valid()) ==> Valid()
    {
      minted := [];
      failure := None;
      if tx.transactionId in history {
        return;
      }
      failure := SpendAll(tx.inputs);
      if failure.None? {
        var newUTxOs := MintOutputs(tx);
        minted := newUTxOs;
        failure := CreditAll(newUTxOs);
        if failure.None? {
          history := history[tx.transactionId := tx];
        }
      }
      if old(Valid()) { RegisterPreservesInvariant(old(history), old(balances), tx, minted); }
    }

    /** The input loop of `registerTransaction`: removes each input from its address's balance until one is blocked. */
    method SpendAll(ins: seq<UTxO>) returns (failure: Option<Exception>)
      modifies this
      ensures history == old(history)
      ensures Step(balances, failure) == SpendInputs(old(balances), ins)
    {
      failure := None;
      var i := 0;
      while i < |ins|
        invariant 0 <= i <= |ins|
        invariant history == old(history)
        invariant SpendInputs(old(balances), ins) == SpendInputs(balances, ins[i..])
      {
        var u := ins[i];
        assert ins[i..][1..] == ins[i + 1..];
        if u.address !in balances {
          failure := Some(RuntimeException(BAD_INPUTS_REASON));
          return;
        }
        var balance := balances[u.address];
        if balance.unmodifiable {
          failure := Some(UnsupportedOperationException);
          return;
        }
        balances := balances[u.address := Balance(balance.utxos - {u}, false)];
        i := i + 1;
      }
    }

    /** One new UTxO per output of `tx`, carrying the output's address and the transaction's id. */
    method MintOutputs(tx: Transaction) returns (minted: seq<UTxO>)
      ensures MintedFor(minted, tx) && forall u :: u in minted ==> fresh(u)
    {
      minted := [];
      for j := 0 to |tx.outputs|
        invariant |minted| == j
        invariant forall k :: 0 <= k < j ==>
          minted[k].address == tx.outputs[k].address && minted[k].transactionId == tx.transactionId && fresh(minted[k])
      {
        var u := new UTxO(tx.outputs[j].address, tx.transactionId);
        minted := minted + [u];
      }
    }

    /** The output loop of `registerTransaction`: adds each new UTxO to its address's balance. */
    method CreditAll(minted: seq<UTxO>) returns (failure: Option<Exception>)
      modifies this
      ensures history == old(history)
      ensures Step(balances, failure) == CreditOutputs(old(balances), minted)
    {
      failure := None;
      for j := 0 to |minted|
        invariant history == old(history)
        invariant CreditOutputs(old(balances), minted) == CreditOutputs(balances, minted[j..])
      {
        var u := minted[j];
        assert minted[j..][1..] == minted[j + 1..];
        if u.address in balances && balances[u.address].unmodifiable {
          failure := Some(UnsupportedOperationException);
          return;
        }
        var before := if u.address in balances then balances[u.address].utxos else {};
        balances := balances[u.address := Balance(before + {u}, false)];
      }
    }

    /** `listUTxOsForAddress`: the address's balance, or null when it has none. */
    function ListUTxOsForAddress(address: string): (r: Option<set<UTxO>>)
      reads this
      ensures r.Some? <==> address in balances
      ensures r.Some? ==> r.value == balances[address].utxos
    {
      if address in balances then Some(balances[address].utxos) else None
    }

    /** The loop over the inputs in `canProcessTransaction`: the first problem, or the inputs' coins. */
    method ScanInputCoins(tx: Transaction) returns (scan: Result<int, string>)
      ensures scan == ScanInputs(history, tx.timestamp, tx.inputs)
    {
      var inputCoins := 0;
      for i := 0 to |tx.inputs|
        invariant ScanInputs(history, tx.timestamp, tx.inputs) ==
                  match ScanInputs(history, tx.timestamp, tx.inputs[i..])
                  case Err(reason) => Err(reason)
                  case Ok(rest) => Ok(inputCoins + rest)
      {
        var u := tx.inputs[i];
        assert tx.inputs[i..][1..] == tx.inputs[i + 1..];
        if u.transactionId !in history {
          return Err(R_UNPROCESSED);
        }
        var producer := history[u.transactionId];
        if producer.timestamp >= tx.timestamp {
          return Err(R_LATER);
        }
        var transfer := FirstTransferTo(producer.outputs, u.address);
        if transfer.None? {
          return Err(R_NOT_AN_OUTPUT);
        }
        inputCoins := inputCoins + transfer.value;
      }
      return Ok(inputCoins);
    }

    /** `canProcessTransaction`: reads the ledger and changes nothing. */
    method CanProcessTransaction(tx: Transaction) returns (r: Result<Response, Exception>)
      ensures r == CheckTransaction(history, balances, tx)
    {
      if tx.sourceAddress.Some? && tx.sourceAddress.value in history {
        return Ok(Response(Some(CONFLICT), R_EXISTS));
      }
      if tx.sourceAddress.None? {
        return Ok(BadRequest(R_NO_SOURCE));
      }
      var src := tx.sourceAddress.value;
      var dupInputs := HasDuplicates(tx.inputs);
      if dupInputs {
        return Ok(BadRequest(R_DUPLICATE_INPUTS));
      }
      var dupOutputs := HasDuplicates(tx.outputs);
      if dupOutputs {
        return Ok(BadRequest(R_DUPLICATE_OUTPUTS));
      }
      if src !in balances {
        return Err(NullPointerException);
      }
      if !(forall u :: u in tx.inputs ==> u in balances[src].utxos) {
        return Ok(BadRequest(R_MISSING_INPUTS));
      }
      var dupDestinations := HasDuplicates(Destinations(tx.outputs));
      if dupDestinations {
        return Ok(BadRequest(R_DUPLICATE_DESTINATIONS));
      }
      var scan := ScanInputCoins(tx);
      if scan.Err? {
        return Ok(BadRequest(scan.error));
      }
      var inputCoins := scan.value;
      var outputCoins := OutputCoins(tx.outputs);
      if outputCoins != inputCoins {
        return Ok(BadRequest(MismatchReason(inputCoins, outputCoins)));
      }
      return Ok(APPROVED);
    }
  }

  /** The `reduce` over the outputs, which starts from one rather than zero. */
  method OutputCoins(outs: seq<Transfer>) returns (outputCoins: int)
    ensures outputCoins == 1 + SumCoins(outs)
  {
    outputCoins := 1;
    for i := 0 to |outs|
      invariant outputCoins == 1 + SumCoins(outs[..i])
    {
      assert outs[..i + 1][..i] == outs[..i];
      outputCoins := outputCoins + outs[i].coins;
    }
    assert outs[..|outs|] == outs;
  }

  /** `new HashSet<>(list).size() != list.size()`: the list holds some element twice. */
  method HasDuplicates<T(==)>(s: seq<T>) returns (dup: bool)
    ensures dup <==> !Distinct(s)
  {
    var seen: set<T> := {};
    for i := 0 to |s|
      invariant seen == set k | 0 <= k < i :: s[k]
      invariant |seen| <= i
      invariant Distinct(s[..i]) <==> |seen| == i
    {
      if s[i] !in seen {
        assert forall k :: 0 <= k < i ==> s[k] != s[i];
      }
      seen := seen + {s[i]};
    }
    assert s[..|s|] == s;
    dup := |seen| != |s|;
  }
}

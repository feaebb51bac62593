/**
 * The value types of the ledger: UTxO, Transfer, Transaction and Response, and the exceptions the
 * modelled code can throw.
 *
 * UTxO and Transfer do not override `equals`/`hashCode`, so every collection of them compares by object
 * identity. They are classes here for the same reason: two Dafny objects are equal only when they are
 * the same object, which is Java's reference equality. Their setters are never called by the modelled
 * code, so their fields are `const`.
 */
module Model {
  import opened Wrappers
  import opened Strings

  /** A Java `long`. */
  type Long = x: int | LONG_MIN <= x <= LONG_MAX

  /** The exceptions the modelled code lets escape. */
  datatype Exception =
    | NullPointerException
    | IndexOutOfBoundsException
    | IllegalArgumentException
    | UnsupportedOperationException
    | NumberFormatException
    | NoSuchElementException
    | ArithmeticException
    | NoNodeException
    | NodeExistsException
    | RuntimeException(message: string)

  /** A reference to the output of transaction `transactionId` that `address` may spend. */
  class UTxO {
    const address: string
    const transactionId: string

    constructor (address: string, transactionId: string)
      ensures this.address == address && this.transactionId == transactionId
    {
      this.address := address;
      this.transactionId := transactionId;
    }
  }

  /** An output of a transaction: `coins` go to `address`. */
  class Transfer {
    const address: string
    const coins: Long

    constructor (address: string, coins: Long)
      ensures this.address == address && this.coins == coins
    {
      this.address := address;
      this.coins := coins;
    }
  }

  /**
   * A transaction. Its `equals` compares all five fields, with the input and output lists compared
   * element by element by identity, which is exactly Dafny's equality on this datatype.
   */
  datatype Transaction = Transaction(
    transactionId: string,
    timestamp: Long,
    sourceAddress: Option<string>,
    inputs: seq<UTxO>,
    outputs: seq<Transfer>)

  /** No element occurs twice; for objects, no object occurs twice. */
  predicate Distinct<T(==)>(s: seq<T>)
  {
    forall i, j :: 0 <= i < j < |s| ==> s[i] != s[j]
  }

  // ---------------------------------------------------------------------------
  // computeSourceAddress
  // ---------------------------------------------------------------------------

  /** The address every input carries, if the inputs are non-empty and agree on one. */
  function CommonAddress(inputs: seq<UTxO>): Option<string>
  {
    if |inputs| > 0 && forall i :: 0 <= i < |inputs| ==> inputs[i].address == inputs[0].address
    then Some(inputs[0].address)
    else None
  }

  /**
   * `computeSourceAddress`: remembers the first input's address and gives up (null) at the first input
   * whose address differs; an empty list gives null.
   */
  method ComputeSourceAddress(inputs: seq<UTxO>) returns (r: Option<string>)
    ensures r == CommonAddress(inputs)
    ensures r.Some? <==> |inputs| > 0 && forall i, j :: 0 <= i < j < |inputs| ==> inputs[i].address == inputs[j].address
  {
    var temp: Option<string> := None;
    for i := 0 to |inputs|
      invariant i == 0 <==> temp.None?
      invariant i > 0 ==> temp == Some(inputs[0].address)
      invariant forall k :: 0 <= k < i ==> inputs[k].address == inputs[0].address
    {
      if temp.None? {
        temp := Some(inputs[i].address);
      } else if temp.value != inputs[i].address {
        return None;
      }
    }
    return temp;
  }

  // ---------------------------------------------------------------------------
  // computeTransactionId
  // ---------------------------------------------------------------------------

  /** `Long.toUnsignedString`: a negative `long` reads as its two's-complement value plus 2^64. */
  function UnsignedDecimal(c: Long): string
  {
    NatToBase(if c < 0 then c + 0x1_0000_0000_0000_0000 else c, 10)
  }

  function InputsDigestText(inputs: seq<UTxO>): string
  {
    if inputs == [] then ""
    else inputs[0].address + inputs[0].transactionId + InputsDigestText(inputs[1..])
  }

  function OutputsDigestText(outputs: seq<Transfer>): string
  {
    if outputs == [] then ""
    else outputs[0].address + UnsignedDecimal(outputs[0].coins) + OutputsDigestText(outputs[1..])
  }

  /**
   * `computeTransactionId`: the text fed to the digest, one `md.update` after another, is the source
   * address, then each input's address and transaction id, then each output's address and coins.
   * The digest itself (MD5 rendered in upper-case hex) is the parameter `digest`. A null source address
   * makes `sourceAddress.getBytes()` throw.
   */
  function ComputeTransactionId(digest: string -> string, sourceAddress: Option<string>,
                                inputs: seq<UTxO>, outputs: seq<Transfer>): Result<string, Exception>
  {
    match sourceAddress
    case None => Err(NullPointerException)
    case Some(src) => Ok(digest(src + InputsDigestText(inputs) + OutputsDigestText(outputs)))
  }

  /** Two lists of UTxOs that carry the same addresses and transaction ids, object by object. */
  ghost predicate SameUTxOContent(a: seq<UTxO>, b: seq<UTxO>)
  {
    |a| == |b| && forall i :: 0 <= i < |a| ==> a[i].address == b[i].address && a[i].transactionId == b[i].transactionId
  }

  ghost predicate SameTransferContent(a: seq<Transfer>, b: seq<Transfer>)
  {
    |a| == |b| && forall i :: 0 <= i < |a| ==> a[i].address == b[i].address && a[i].coins == b[i].coins
  }

  /** The id is determined by the content of the fields, not by which objects carry it. */
  lemma {:induction false} TransactionIdIgnoresIdentity(digest: string -> string, src: Option<string>,
      ins1: seq<UTxO>, outs1: seq<Transfer>, ins2: seq<UTxO>, outs2: seq<Transfer>)
    requires SameUTxOContent(ins1, ins2) && SameTransferContent(outs1, outs2)
    ensures ComputeTransactionId(digest, src, ins1, outs1) == ComputeTransactionId(digest, src, ins2, outs2)
  {
    InputsTextByContent(ins1, ins2);
    OutputsTextByContent(outs1, outs2);
  }

  lemma {:induction false} InputsTextByContent(a: seq<UTxO>, b: seq<UTxO>)
    requires SameUTxOContent(a, b)
    ensures InputsDigestText(a) == InputsDigestText(b)
    decreases |a|
  {
    if a != [] { InputsTextByContent(a[1..], b[1..]); }
  }

  lemma {:induction false} OutputsTextByContent(a: seq<Transfer>, b: seq<Transfer>)
    requires SameTransferContent(a, b)
    ensures OutputsDigestText(a) == OutputsDigestText(b)
    decreases |a|
  {
    if a != [] { OutputsTextByContent(a[1..], b[1..]); }
  }

  // ---------------------------------------------------------------------------
  // Constructors
  // ---------------------------------------------------------------------------

  /** A null list is replaced by the empty list. */
  function OrEmpty<T>(xs: Option<seq<T>>): seq<T>
  {
    if xs.Some? then xs.value else []
  }

  /**
   * The five-argument constructor. Null lists become empty lists; a null source address is derived
   * from the inputs; a null id is computed from (source, inputs, outputs), which throws when the source
   * is still null.
   */
  function NewTransaction(digest: string -> string, transactionId: Option<string>, timestamp: Long,
                          sourceAddress: Option<string>, inputs: Option<seq<UTxO>>,
                          outputs: Option<seq<Transfer>>): (r: Result<Transaction, Exception>)
    ensures r.Ok? ==> r.value.timestamp == timestamp
    ensures r.Ok? ==> r.value.inputs == OrEmpty(inputs) && r.value.outputs == OrEmpty(outputs)
    ensures sourceAddress.Some? && r.Ok? ==> r.value.sourceAddress == sourceAddress
    ensures sourceAddress.None? && r.Ok? ==> r.value.sourceAddress == CommonAddress(r.value.inputs)
    ensures transactionId.Some? ==> r.Ok? && r.value.transactionId == transactionId.value
    ensures transactionId.None? ==> (r.Ok? <==> sourceAddress.Some? || CommonAddress(OrEmpty(inputs)).Some?)
    ensures transactionId.None? && r.Ok? ==>
      Ok(r.value.transactionId) == ComputeTransactionId(digest, r.value.sourceAddress, r.value.inputs, r.value.outputs)
    ensures r.Err? ==> r.error == NullPointerException
  {
    var ins := OrEmpty(inputs);
    var outs := OrEmpty(outputs);
    var src := if sourceAddress.Some? then sourceAddress else CommonAddress(ins);
    if transactionId.Some? then Ok(Transaction(transactionId.value, timestamp, src, ins, outs))
    else match ComputeTransactionId(digest, src, ins, outs)
      case Err(e) => Err(e)
      case Ok(id) => Ok(Transaction(id, timestamp, src, ins, outs))
  }

  /** `Transaction(transactionId, inputs, outputs)`: timestamp -1 and a derived source address. */
  function NewTransactionWithId(digest: string -> string, transactionId: Option<string>,
                                inputs: Option<seq<UTxO>>, outputs: Option<seq<Transfer>>): (r: Result<Transaction, Exception>)
    ensures r.Ok? ==> r.value.timestamp == -1 && r.value.sourceAddress == CommonAddress(r.value.inputs)
  {
    NewTransaction(digest, transactionId, -1, None, inputs, outputs)
  }

  /** `Transaction(inputs, outputs)`: as above with a computed id. */
  function NewTransactionFromParts(digest: string -> string, inputs: Option<seq<UTxO>>,
                                   outputs: Option<seq<Transfer>>): (r: Result<Transaction, Exception>)
    ensures r.Ok? ==> r.value.timestamp == -1 && r.value.sourceAddress == CommonAddress(r.value.inputs)
    ensures r.Ok? <==> CommonAddress(OrEmpty(inputs)).Some?
  {
    NewTransactionWithId(digest, None, inputs, outputs)
  }

  // ---------------------------------------------------------------------------
  // equals and the setters
  // ---------------------------------------------------------------------------

  /** `Transaction.equals`: all five fields equal, lists element by element. */
  function Equals(a: Transaction, b: Transaction): (r: bool)
    ensures r <==> a == b
  {
    a.timestamp == b.timestamp && a.transactionId == b.transactionId && a.sourceAddress == b.sourceAddress
    && a.inputs == b.inputs && a.outputs == b.outputs
  }

  function SetSourceAddress(t: Transaction, v: Option<string>): Transaction { t.(sourceAddress := v) }
  function SetInputs(t: Transaction, v: seq<UTxO>): Transaction { t.(inputs := v) }
  function SetOutputs(t: Transaction, v: seq<Transfer>): Transaction { t.(outputs := v) }
  function SetTimestamp(t: Transaction, v: Long): Transaction { t.(timestamp := v) }
  function SetTransactionId(t: Transaction, v: string): Transaction { t.(transactionId := v) }

  /**
   * Each setter touches one field only: it stores the new value in its field and keeps the other four,
   * so the result equals the original exactly when the new value is the field's old value, and setting
   * a field back restores the original.
   */
  lemma SettersChangeOneField(t: Transaction, src: Option<string>, ins: seq<UTxO>, outs: seq<Transfer>, ts: Long, id: string)
    ensures Equals(SetSourceAddress(t, src), t) <==> src == t.sourceAddress
    ensures Equals(SetInputs(t, ins), t) <==> ins == t.inputs
    ensures Equals(SetOutputs(t, outs), t) <==> outs == t.outputs
    ensures Equals(SetTimestamp(t, ts), t) <==> ts == t.timestamp
    ensures Equals(SetTransactionId(t, id), t) <==> id == t.transactionId
    ensures SetTimestamp(SetTimestamp(t, ts), t.timestamp) == t
    ensures SetSourceAddress(t, src).sourceAddress == src && SetSourceAddress(t, src).transactionId == t.transactionId &&
            SetSourceAddress(t, src).timestamp == t.timestamp && SetSourceAddress(t, src).inputs == t.inputs &&
            SetSourceAddress(t, src).outputs == t.outputs
    ensures SetInputs(t, ins).inputs == ins && SetInputs(t, ins).transactionId == t.transactionId &&
            SetInputs(t, ins).timestamp == t.timestamp && SetInputs(t, ins).sourceAddress == t.sourceAddress &&
            SetInputs(t, ins).outputs == t.outputs
    ensures SetOutputs(t, outs).outputs == outs && SetOutputs(t, outs).transactionId == t.transactionId &&
            SetOutputs(t, outs).timestamp == t.timestamp && SetOutputs(t, outs).sourceAddress == t.sourceAddress &&
            SetOutputs(t, outs).inputs == t.inputs
    ensures SetTimestamp(t, ts).timestamp == ts && SetTimestamp(t, ts).transactionId == t.transactionId &&
            SetTimestamp(t, ts).sourceAddress == t.sourceAddress && SetTimestamp(t, ts).inputs == t.inputs &&
            SetTimestamp(t, ts).outputs == t.outputs
    ensures SetTransactionId(t, id).transactionId == id && SetTransactionId(t, id).timestamp == t.timestamp &&
            SetTransactionId(t, id).sourceAddress == t.sourceAddress && SetTransactionId(t, id).inputs == t.inputs &&
            SetTransactionId(t, id).outputs == t.outputs
  {
  }

  // ---------------------------------------------------------------------------
  // Response
  // ---------------------------------------------------------------------------

  /** The Spring `HttpStatus` values the system uses. */
  datatype HttpStatus = OK | BAD_REQUEST | NOT_FOUND | CONFLICT

  /** `HttpStatus.value()`. */
  function StatusValue(s: HttpStatus): int
  {
    match s
    case OK => 200
    case BAD_REQUEST => 400
    case NOT_FOUND => 404
    case CONFLICT => 409
  }

  /** `HttpStatus.resolve(code)`: null for a code that names no status. */
  function ResolveStatus(code: int): (r: Option<HttpStatus>)
    ensures r.Some? ==> StatusValue(r.value) == code
  {
    if code == 200 then Some(OK)
    else if code == 400 then Some(BAD_REQUEST)
    else if code == 404 then Some(NOT_FOUND)
    else if code == 409 then Some(CONFLICT)
    else None
  }

  /** Resolving a status's own code gives the status back. */
  lemma ResolveStatusValue(s: HttpStatus)
    ensures ResolveStatus(StatusValue(s)) == Some(s)
  {
  }

  /** `Response`: a status (null after resolving an unknown code) and a reason. */
  datatype Response = Response(statusCode: Option<HttpStatus>, reason: string)
}

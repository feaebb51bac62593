/**
 * The gRPC side of the servers: failover over a list of servers, and the conversions between the
 * domain objects and the wire records.
 *
 * Wire records are values (protobuf messages): their strings are never null, and a builder setter
 * handed a null throws `NullPointerException`. Converting a record to a domain object allocates new
 * `UTxO`/`Transfer` objects, so those conversions are methods; the opposite direction is a function.
 */
module Wire {
  import opened Wrappers
  import opened Model

  // ===========================================================================
  // tryCallServer
  // ===========================================================================

  /**
   * The first answer in list order: `calls[s]` is `Some(resp)` when the call to `s` returns and `None`
   * when it throws `StatusRuntimeException`; a server without a stub throws `NullPointerException`.
   */
  function FirstSuccess<R>(servers: seq<string>, calls: map<string, Option<R>>): Result<Option<R>, Exception>
    decreases |servers|
  {
    if servers == [] then Ok(None)
    else if servers[0] !in calls then Err(NullPointerException)
    else if calls[servers[0]].Some? then Ok(calls[servers[0]])
    else FirstSuccess(servers[1..], calls)
  }

  /**
   * `tryCallServer`: tries the servers in order and returns the first response; null when the list is
   * empty or every call fails. `contacted` are the servers called, a prefix of the list.
   */
  method TryCallServer<R>(servers: seq<string>, calls: map<string, Option<R>>) returns (r: Result<Option<R>, Exception>, ghost contacted: seq<string>)
    ensures r == FirstSuccess(servers, calls)
    ensures contacted <= servers
    ensures r == Ok(None) ==> contacted == servers
  {
    contacted := [];
    for i := 0 to |servers|
      invariant contacted == servers[..i]
      invariant FirstSuccess(servers, calls) == FirstSuccess(servers[i..], calls)
    {
      assert servers[i..][1..] == servers[i + 1..];
      contacted := contacted + [servers[i]];
      if servers[i] !in calls {
        return Err(NullPointerException), contacted;
      }
      var resp := calls[servers[i]];
      if resp.Some? {
        return Ok(resp), contacted;
      }
    }
    return Ok(None), contacted;
  }

  /**
   * The answer is the response of the first server whose call returns, every server before it having
   * failed; it is null exactly when every server fails.
   */
  lemma {:induction false} FirstSuccessSpec<R>(servers: seq<string>, calls: map<string, Option<R>>)
    requires forall s :: s in servers ==> s in calls
    ensures FirstSuccess(servers, calls).Ok?
    ensures FirstSuccess(servers, calls) == Ok(None) <==> forall i :: 0 <= i < |servers| ==> calls[servers[i]].None?
    ensures FirstSuccess(servers, calls).value.Some? ==>
      exists i :: 0 <= i < |servers| && FirstSuccess(servers, calls).value == calls[servers[i]] &&
                  forall j :: 0 <= j < i ==> calls[servers[j]].None?
    decreases |servers|
  {
    if servers != [] && calls[servers[0]].None? {
      FirstSuccessSpec(servers[1..], calls);
      assert forall i :: 1 <= i < |servers| ==> servers[i] == servers[1..][i - 1];
      if FirstSuccess(servers, calls).value.Some? {
        var i :| 0 <= i < |servers[1..]| && FirstSuccess(servers, calls).value == calls[servers[1..][i]] &&
                 forall j :: 0 <= j < i ==> calls[servers[1..][j]].None?;
        assert FirstSuccess(servers, calls).value == calls[servers[i + 1]];
      }
    }
  }

  // ===========================================================================
  // Wire records
  // ===========================================================================

  datatype UTxOMsg = UTxOMsg(address: string, transactionId: string)
  datatype TransferMsg = TransferMsg(address: string, coins: Long)
  datatype TransactionMsg = TransactionMsg(transactionId: string, timestamp: Long, sourceAddress: string,
                                           inputs: seq<UTxOMsg>, outputs: seq<TransferMsg>)
  datatype HttpResponse = HttpResponse(statusCode: int, reason: string)
  /** `transaction` is a repeated field. */
  datatype RespTransactionMsg = RespTransactionMsg(httpResp: HttpResponse, transaction: seq<TransactionMsg>)
  datatype RespTransactionListMsg = RespTransactionListMsg(httpResp: HttpResponse, transactions: seq<TransactionMsg>)
  datatype RespUnusedUTxOListMsg = RespUnusedUTxOListMsg(httpResp: HttpResponse, utxos: seq<UTxOMsg>)

  datatype ReqTransactionMsg = ReqTransactionMsg(inputs: seq<UTxOMsg>, outputs: seq<TransferMsg>)
  datatype ReqAtomicTxListMsg = ReqAtomicTxListMsg(transactions: seq<ReqTransactionMsg>)

  /** The responses of the domain side. */
  datatype TransactionResp = TransactionResp(statusCode: Option<HttpStatus>, reason: string, transaction: Option<Transaction>)
  datatype TransactionListResp = TransactionListResp(statusCode: Option<HttpStatus>, reason: string, transactionsList: Option<seq<Transaction>>)
  datatype UnusedUTxOListResp = UnusedUTxOListResp(statusCode: Option<HttpStatus>, reason: string,
                                                   unusedUtxoList: Option<seq<UTxO>>, transactionsList: Option<seq<Transaction>>)

  /** `Request.TransactionRequest`. */
  datatype TransactionRequest = TransactionRequest(inputs: seq<UTxO>, outputs: seq<Transfer>)

  // ===========================================================================
  // Domain object to record
  // ===========================================================================

  /** `createUTxOMsg`. */
  function UTxOMsgOf(u: UTxO): UTxOMsg { UTxOMsg(u.address, u.transactionId) }

  /** `createTransferMsg`. */
  function TransferMsgOf(t: Transfer): TransferMsg { TransferMsg(t.address, t.coins) }

  function UTxOMsgsOf(us: seq<UTxO>): (r: seq<UTxOMsg>)
    ensures |r| == |us| && forall i :: 0 <= i < |us| ==> r[i] == UTxOMsgOf(us[i])
  {
    seq(|us|, i requires 0 <= i < |us| => UTxOMsgOf(us[i]))
  }

  function TransferMsgsOf(ts: seq<Transfer>): (r: seq<TransferMsg>)
    ensures |r| == |ts| && forall i :: 0 <= i < |ts| ==> r[i] == TransferMsgOf(ts[i])
  {
    seq(|ts|, i requires 0 <= i < |ts| => TransferMsgOf(ts[i]))
  }

  /** `createTransactionMsg`: a null source address makes the builder throw. */
  function TransactionMsgOf(t: Transaction): (r: Result<TransactionMsg, Exception>)
    ensures r.Err? <==> t.sourceAddress.None?
    ensures r.Err? ==> r.error == NullPointerException
  {
    match t.sourceAddress
    case None => Err(NullPointerException)
    case Some(src) => Ok(TransactionMsg(t.transactionId, t.timestamp, src, UTxOMsgsOf(t.inputs), TransferMsgsOf(t.outputs)))
  }

  /** The messages of a list of transactions, throwing at the first without a source. */
  function TransactionMsgsOf(ts: seq<Transaction>): (r: Result<seq<TransactionMsg>, Exception>)
    ensures r.Ok? ==> |r.value| == |ts| && forall i :: 0 <= i < |ts| ==> TransactionMsgOf(ts[i]) == Ok(r.value[i])
    ensures r.Err? <==> exists i :: 0 <= i < |ts| && ts[i].sourceAddress.None?
    decreases |ts|
  {
    if ts == [] then Ok([])
    else match TransactionMsgOf(ts[0])
      case Err(e) => Err(e)
      case Ok(m) =>
        assert forall i :: 1 <= i < |ts| ==> ts[i] == ts[1..][i - 1];
        match TransactionMsgsOf(ts[1..])
        case Err(e) => Err(e)
        case Ok(ms) => Ok([m] + ms)
  }

  /** `createHttpResponse`: a null status (an unresolved code) throws on `value()`. */
  function HttpResponseOf(statusCode: Option<HttpStatus>, reason: string): (r: Result<HttpResponse, Exception>)
    ensures r.Ok? <==> statusCode.Some?
    ensures r.Ok? ==> ResolveStatus(r.value.statusCode) == statusCode && r.value.reason == reason
  {
    match statusCode
    case None => Err(NullPointerException)
    case Some(s) => (ResolveStatusValue(s); Ok(HttpResponse(StatusValue(s), reason)))
  }

  /** `createRespTransactionMsg`: the transaction, when present, becomes the one element of the repeated field. */
  function RespTransactionMsgOf(resp: TransactionResp): Result<RespTransactionMsg, Exception>
  {
    match HttpResponseOf(resp.statusCode, resp.reason)
    case Err(e) => Err(e)
    case Ok(http) =>
      match resp.transaction
      case None => Ok(RespTransactionMsg(http, []))
      case Some(t) =>
        match TransactionMsgOf(t)
        case Err(e) => Err(e)
        case Ok(m) => Ok(RespTransactionMsg(http, [m]))
  }

  /** `createRespTransactionListMsg`: a null list adds nothing. */
  function RespTransactionListMsgOf(resp: TransactionListResp): Result<RespTransactionListMsg, Exception>
  {
    match HttpResponseOf(resp.statusCode, resp.reason)
    case Err(e) => Err(e)
    case Ok(http) =>
      match resp.transactionsList
      case None => Ok(RespTransactionListMsg(http, []))
      case Some(ts) =>
        match TransactionMsgsOf(ts)
        case Err(e) => Err(e)
        case Ok(ms) => Ok(RespTransactionListMsg(http, ms))
  }

  /** `createUnusedUTxOListResp` towards the wire: only the UTxO list is sent. */
  function RespUnusedUTxOListMsgOf(resp: UnusedUTxOListResp): Result<RespUnusedUTxOListMsg, Exception>
  {
    match HttpResponseOf(resp.statusCode, resp.reason)
    case Err(e) => Err(e)
    case Ok(http) =>
      Ok(RespUnusedUTxOListMsg(http, if resp.unusedUtxoList.Some? then UTxOMsgsOf(resp.unusedUtxoList.value) else []))
  }

  // ===========================================================================
  // Record to domain object
  // ===========================================================================

  /** `t` is what `createTransaction` builds from `m`: the same fields, and objects carrying the same content. */
  ghost predicate Represents(t: Transaction, m: TransactionMsg)
  {
    t.transactionId == m.transactionId && t.timestamp == m.timestamp && t.sourceAddress == Some(m.sourceAddress) &&
    |t.inputs| == |m.inputs| && (forall i :: 0 <= i < |m.inputs| ==> UTxOMsgOf(t.inputs[i]) == m.inputs[i]) &&
    |t.outputs| == |m.outputs| && (forall i :: 0 <= i < |m.outputs| ==> TransferMsgOf(t.outputs[i]) == m.outputs[i])
  }

  /** `createUTxO`. */
  method CreateUTxO(m: UTxOMsg) returns (u: UTxO)
    ensures fresh(u) && UTxOMsgOf(u) == m
  {
    u := new UTxO(m.address, m.transactionId);
  }

  /** `createTransfer`. */
  method CreateTransfer(m: TransferMsg) returns (t: Transfer)
    ensures fresh(t) && TransferMsgOf(t) == m
  {
    t := new Transfer(m.address, m.coins);
  }

  /**
   * `createTransaction`: the five-argument constructor with every field given, so neither the id nor
   * the source address is recomputed. Every input and output is a new object.
   */
  method CreateTransaction(m: TransactionMsg) returns (t: Transaction)
    ensures Represents(t, m)
    ensures forall u :: u in t.inputs ==> fresh(u)
    ensures forall o :: o in t.outputs ==> fresh(o)
    ensures Distinct(t.inputs) && Distinct(t.outputs)
  {
    var ins: seq<UTxO> := [];
    for i := 0 to |m.inputs|
      invariant |ins| == i && forall k :: 0 <= k < i ==> UTxOMsgOf(ins[k]) == m.inputs[k] && fresh(ins[k])
      invariant Distinct(ins)
    {
      var u := CreateUTxO(m.inputs[i]);
      ins := ins + [u];
    }
    var outs: seq<Transfer> := [];
    for i := 0 to |m.outputs|
      invariant |outs| == i && forall k :: 0 <= k < i ==> TransferMsgOf(outs[k]) == m.outputs[k] && fresh(outs[k])
      invariant Distinct(outs)
    {
      var o := CreateTransfer(m.outputs[i]);
      outs := outs + [o];
    }
    t := Transaction(m.transactionId, m.timestamp, Some(m.sourceAddress), ins, outs);
  }

  /** `TransactionResp` is what `createTransactionResp` builds from `m`. */
  ghost predicate RepresentsTransactionResp(resp: TransactionResp, m: RespTransactionMsg)
  {
    resp.statusCode == ResolveStatus(m.httpResp.statusCode) && resp.reason == m.httpResp.reason &&
    (resp.transaction.Some? <==> |m.transaction| != 0) &&
    (resp.transaction.Some? ==> Represents(resp.transaction.value, m.transaction[0]))
  }

  /** `createTransactionResp`: keeps only the first transaction of the repeated field, or null. */
  method CreateTransactionResp(m: RespTransactionMsg) returns (resp: TransactionResp)
    ensures RepresentsTransactionResp(resp, m)
  {
    var t: Option<Transaction> := None;
    if |m.transaction| != 0 {
      var first := CreateTransaction(m.transaction[0]);
      t := Some(first);
    }
    resp := TransactionResp(ResolveStatus(m.httpResp.statusCode), m.httpResp.reason, t);
  }

  ghost predicate RepresentsTransactionListResp(resp: TransactionListResp, m: RespTransactionListMsg)
  {
    resp.statusCode == ResolveStatus(m.httpResp.statusCode) && resp.reason == m.httpResp.reason &&
    (resp.transactionsList.Some? <==> |m.transactions| != 0) &&
    (resp.transactionsList.Some? ==>
      |resp.transactionsList.value| == |m.transactions| &&
      forall i :: 0 <= i < |m.transactions| ==> Represents(resp.transactionsList.value[i], m.transactions[i]))
  }

  /** `createTransactionListResp`: an empty repeated field becomes a null list. */
  method CreateTransactionListResp(m: RespTransactionListMsg) returns (resp: TransactionListResp)
    ensures RepresentsTransactionListResp(resp, m)
  {
    var list: Option<seq<Transaction>> := None;
    if |m.transactions| != 0 {
      var ts: seq<Transaction> := [];
      for i := 0 to |m.transactions|
        invariant |ts| == i && forall k :: 0 <= k < i ==> Represents(ts[k], m.transactions[k])
      {
        var t := CreateTransaction(m.transactions[i]);
        ts := ts + [t];
      }
      list := Some(ts);
    }
    resp := TransactionListResp(ResolveStatus(m.httpResp.statusCode), m.httpResp.reason, list);
  }

  ghost predicate RepresentsUnusedUTxOListResp(resp: UnusedUTxOListResp, m: RespUnusedUTxOListMsg)
  {
    resp.statusCode == ResolveStatus(m.httpResp.statusCode) && resp.reason == m.httpResp.reason &&
    resp.transactionsList.None? &&
    (resp.unusedUtxoList.Some? <==> |m.utxos| != 0) &&
    (resp.unusedUtxoList.Some? ==> UTxOMsgsOf(resp.unusedUtxoList.value) == m.utxos)
  }

  /** `createUnusedUTxOListResp` from the wire: an empty UTxO list becomes null; no transaction list is read. */
  method CreateUnusedUTxOListResp(m: RespUnusedUTxOListMsg) returns (resp: UnusedUTxOListResp)
    ensures RepresentsUnusedUTxOListResp(resp, m)
  {
    var list: Option<seq<UTxO>> := None;
    if |m.utxos| != 0 {
      var us: seq<UTxO> := [];
      for i := 0 to |m.utxos|
        invariant |us| == i && forall k :: 0 <= k < i ==> UTxOMsgOf(us[k]) == m.utxos[k]
      {
        var u := CreateUTxO(m.utxos[i]);
        us := us + [u];
      }
      list := Some(us);
    }
    resp := UnusedUTxOListResp(ResolveStatus(m.httpResp.statusCode), m.httpResp.reason, list, None);
  }

  // ===========================================================================
  // Round trips
  // ===========================================================================

  /** A record survives the trip to a domain object and back unchanged. */
  lemma TransactionMsgRoundTrip(t: Transaction, m: TransactionMsg)
    requires Represents(t, m)
    ensures TransactionMsgOf(t) == Ok(m)
  {
    assert UTxOMsgsOf(t.inputs) == m.inputs;
    assert TransferMsgsOf(t.outputs) == m.outputs;
  }

  /**
   * A transaction with a source survives the trip to a record and back up to object identity: the
   * rebuilt transaction has the same id, timestamp and source, and inputs and outputs with the same
   * content in the same order.
   */
  lemma TransactionObjectRoundTrip(t: Transaction, t': Transaction)
    requires t.sourceAddress.Some?
    requires Represents(t', TransactionMsgOf(t).value)
    ensures t'.transactionId == t.transactionId && t'.timestamp == t.timestamp && t'.sourceAddress == t.sourceAddress
    ensures SameUTxOContent(t'.inputs, t.inputs) && SameTransferContent(t'.outputs, t.outputs)
  {
  }

  /**
   * A status survives the trip to a code and back, and the reason is copied; a code that names no
   * status comes back null, and sending it again throws.
   */
  lemma HttpResponseRoundTrip(h: HttpResponse)
    ensures ResolveStatus(h.statusCode).Some? ==> HttpResponseOf(ResolveStatus(h.statusCode), h.reason) == Ok(h)
    ensures ResolveStatus(h.statusCode).None? ==> HttpResponseOf(ResolveStatus(h.statusCode), h.reason) == Err(NullPointerException)
  {
  }

  /**
   * `createRespTransactionMsg(createTransactionResp(m))` gives back `m` with its repeated field cut to
   * the first transaction, when the status code is known.
   */
  lemma RespTransactionRoundTrip(resp: TransactionResp, m: RespTransactionMsg)
    requires RepresentsTransactionResp(resp, m)
    requires ResolveStatus(m.httpResp.statusCode).Some?
    ensures RespTransactionMsgOf(resp) == Ok(m.(transaction := if |m.transaction| == 0 then [] else [m.transaction[0]]))
  {
    if |m.transaction| != 0 {
      TransactionMsgRoundTrip(resp.transaction.value, m.transaction[0]);
    }
  }

  /** A record with at most one transaction survives the trip exactly. */
  lemma RespTransactionExactRoundTrip(resp: TransactionResp, m: RespTransactionMsg)
    requires RepresentsTransactionResp(resp, m)
    requires ResolveStatus(m.httpResp.statusCode).Some? && |m.transaction| <= 1
    ensures RespTransactionMsgOf(resp) == Ok(m)
  {
    RespTransactionRoundTrip(resp, m);
    assert |m.transaction| == 1 ==> m.transaction == [m.transaction[0]];
  }

  /** A list record survives the trip to a domain response and back, an empty list included. */
  lemma RespTransactionListRoundTrip(resp: TransactionListResp, m: RespTransactionListMsg)
    requires RepresentsTransactionListResp(resp, m)
    requires ResolveStatus(m.httpResp.statusCode).Some?
    ensures RespTransactionListMsgOf(resp) == Ok(m)
  {
    if resp.transactionsList.Some? {
      var ts := resp.transactionsList.value;
      forall i | 0 <= i < |ts| ensures TransactionMsgOf(ts[i]) == Ok(m.transactions[i]) {
        TransactionMsgRoundTrip(ts[i], m.transactions[i]);
      }
      assert TransactionMsgsOf(ts).Ok?;
      assert TransactionMsgsOf(ts).value == m.transactions;
    }
  }

  /** An empty domain list does not survive: it is sent as an empty field and comes back null. */
  lemma EmptyTransactionListBecomesNull(s: HttpStatus, reason: string, back: TransactionListResp)
    requires RespTransactionListMsgOf(TransactionListResp(Some(s), reason, Some([]))).Ok?
    requires RepresentsTransactionListResp(back, RespTransactionListMsgOf(TransactionListResp(Some(s), reason, Some([]))).value)
    ensures back.transactionsList == None
    ensures back.statusCode == Some(s) && back.reason == reason
  {
    ResolveStatusValue(s);
  }

  /** The UTxO list record survives the trip to a domain response and back. */
  lemma RespUnusedUTxOListRoundTrip(resp: UnusedUTxOListResp, m: RespUnusedUTxOListMsg)
    requires RepresentsUnusedUTxOListResp(resp, m)
    requires ResolveStatus(m.httpResp.statusCode).Some?
    ensures RespUnusedUTxOListMsgOf(resp) == Ok(m)
  {
  }

  // ===========================================================================
  // Requests towards the wire
  // ===========================================================================

  /** `createReqTransactionMsg`. */
  function ReqTransactionMsgOf(req: TransactionRequest): (r: ReqTransactionMsg)
    ensures |r.inputs| == |req.inputs| && |r.outputs| == |req.outputs|
  {
    ReqTransactionMsg(UTxOMsgsOf(req.inputs), TransferMsgsOf(req.outputs))
  }

  /** `createReqAtomicTxListMsg`: one record per request, in order. */
  function ReqAtomicTxListMsgOf(reqs: seq<TransactionRequest>): (r: ReqAtomicTxListMsg)
    ensures |r.transactions| == |reqs|
    ensures forall i :: 0 <= i < |reqs| ==> r.transactions[i] == ReqTransactionMsgOf(reqs[i])
  {
    ReqAtomicTxListMsg(seq(|reqs|, i requires 0 <= i < |reqs| => ReqTransactionMsgOf(reqs[i])))
  }

  /**
   * A transaction request's record carries the content of its inputs and outputs in order, so that
   * decoding it rebuilds objects with the same content.
   */
  lemma ReqTransactionMsgCarriesContent(req: TransactionRequest, ins: seq<UTxO>, outs: seq<Transfer>)
    requires |ins| == |req.inputs| && forall i :: 0 <= i < |ins| ==> UTxOMsgOf(ins[i]) == ReqTransactionMsgOf(req).inputs[i]
    requires |outs| == |req.outputs| && forall i :: 0 <= i < |outs| ==> TransferMsgOf(outs[i]) == ReqTransactionMsgOf(req).outputs[i]
    ensures SameUTxOContent(ins, req.inputs) && SameTransferContent(outs, req.outputs)
  {
  }
}

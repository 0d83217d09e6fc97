// The request path: the application's duplicate gate and the JSON-RPC handlers
// (src/application/transaction.rs, src/server/rpc_server.rs). Decoding is an
// arbitrary partial function of the text and its encoding.
module Requests {
  import opened Wrappers
  import opened Transactions
  import opened BlockhashWindow
  import opened Bundles
  import opened RpcSubmission
  import opened Sends
  import opened TxnSenders

  datatype UiEncoding = Binary | Base64 | Base58 | Json | JsonParsed

  datatype BinaryEncoding = AsBase58 | AsBase64

  function IntoBinaryEncoding(e: UiEncoding): Option<BinaryEncoding> {
    match e
    case Binary => Some(AsBase58)
    case Base58 => Some(AsBase58)
    case Base64 => Some(AsBase64)
    case _ => None
  }

  datatype Params = Params(skipPreflight: bool, encoding: Option<UiEncoding>, maxRetries: Option<nat>)

  datatype RequestError = PreflightNotSupported | UnsupportedEncoding(e: UiEncoding) | Undecodable(text: string)

  datatype Decoded = Decoded(wire: seq<bv8>, txn: VersionedTransaction)

  type Decoder = (string, BinaryEncoding) -> Option<Decoded>

  datatype BundleResponse = BundleResponse(signatures: seq<string>, errors: seq<string>)

  /** The checks made before any string is decoded. */
  function EncodingOf(params: Params): Result<BinaryEncoding, RequestError> {
    var wanted := match params.encoding case None => Base58 case Some(e) => e;
    if !params.skipPreflight then Err(PreflightNotSupported)
    else match IntoBinaryEncoding(wanted)
      case None => Err(UnsupportedEncoding(wanted))
      case Some(b) => Ok(b)
  }

  /** Which requests are accepted, and how their texts are then decoded. */
  ghost predicate AcceptedAs(params: Params, encoding: BinaryEncoding) {
    && params.skipPreflight
    && match encoding
       case AsBase58 => params.encoding in {None, Some(Base58), Some(Binary)}
       case AsBase64 => params.encoding == Some(Base64)
  }

  ghost predicate RefusedWith(params: Params, error: RequestError) {
    if !params.skipPreflight then error == PreflightNotSupported
    else params.encoding in {Some(Json), Some(JsonParsed)} && error == UnsupportedEncoding(params.encoding.value)
  }

  /** Preflight must be skipped; base58, which is the default, and binary mean base58,
      base64 means base64, and the JSON encodings are refused. */
  lemma EncodingAccepted(params: Params, encoding: BinaryEncoding, error: RequestError)
    ensures EncodingOf(params) == Ok(encoding) <==> AcceptedAs(params, encoding)
    ensures EncodingOf(params) == Err(error) <==> RefusedWith(params, error)
  {
  }

  lemma OneEncoding(params: Params, encoding: BinaryEncoding)
    requires EncodingOf(params) == Ok(encoding)
    ensures AcceptedAs(params, encoding) && forall e :: AcceptedAs(params, e) ==> e == encoding
  {
  }

  function CreateTransactionData(cap: nat, params: Params, encoding: BinaryEncoding, decode: Decoder, text: string)
    : Result<TransactionData, RequestError>
  {
    match decode(text, encoding)
    case None => Err(Undecodable(text))
    case Some(d) => Ok(NewTransaction(cap, params.maxRetries, d.wire, d.txn))
  }

  /** A record made from a text: decoded from it, never retried, allowed the smaller of
      the server's cap and the requested number of retries, or the cap if none. */
  ghost predicate MadeFrom(
      t: TransactionData, cap: nat, params: Params, encoding: BinaryEncoding, decode: Decoder, text: string)
  {
    && decode(text, encoding) == Some(Decoded(t.wire, t.txn))
    && t.retryCount == 0
    && t.maxRetries == (match params.maxRetries case None => cap case Some(n) => if n < cap then n else cap)
  }

  lemma CreatedAsPromised(cap: nat, params: Params, encoding: BinaryEncoding, decode: Decoder, text: string)
    ensures CreateTransactionData(cap, params, encoding, decode, text).Ok? <==> decode(text, encoding).Some?
    ensures CreateTransactionData(cap, params, encoding, decode, text).Ok? ==>
      MadeFrom(CreateTransactionData(cap, params, encoding, decode, text).value, cap, params, encoding, decode, text)
  {
  }

  ghost predicate FirstFailure(texts: seq<string>, encoding: BinaryEncoding, decode: Decoder, i: nat)
    requires i < |texts|
  {
    decode(texts[i], encoding) == None && forall j :: 0 <= j < i ==> decode(texts[j], encoding).Some?
  }

  ghost predicate AllDecode(texts: seq<string>, encoding: BinaryEncoding, decode: Decoder) {
    forall i :: 0 <= i < |texts| ==> decode(texts[i], encoding).Some?
  }

  /** The error names the first text that does not decode. */
  ghost predicate FailedToDecode(texts: seq<string>, params: Params, decode: Decoder, error: RequestError) {
    exists e, i: nat ::
      AcceptedAs(params, e) && i < |texts| && error == Undecodable(texts[i]) && FirstFailure(texts, e, decode, i)
  }

  class AtlasTransactionApp {
    const sender: TxnSender

    constructor (sender: TxnSender)
      ensures this.sender == sender
    {
      this.sender := sender;
    }

    /** A stored signature is a duplicate: it is answered, and no entry, confirm task or
        send changes. Anything else is tracked and sent. */
    method SendTransaction(t: TransactionData) returns (signature: string)
      requires sender.Valid() && t.txn.signatures != []
      modifies sender, sender.store
      ensures sender.Valid()
      ensures signature == t.txn.signatures[0]
      ensures sender.submitted == old(sender.submitted)
      ensures signature in old(sender.store.transactions) ==>
        && sender.store.transactions == old(sender.store.transactions)
        && sender.confirming == old(sender.confirming)
        && sender.outbox == old(sender.outbox)
      ensures signature !in old(sender.store.transactions) ==>
        && sender.store.transactions == old(sender.store.transactions)[signature := t]
        && sender.confirming == old(sender.confirming) + [signature]
        && old(sender.outbox) <= sender.outbox
        && SentToAll(sender.outbox[|old(sender.outbox)|..], t.wire, sender.Leaders())
    {
      signature := t.txn.signatures[0];
      var stored := sender.store.HasSignature(signature);
      if stored {
        return;
      }
      sender.SendTransaction(t);
    }

    method SendTransactionBundle(transactions: seq<TransactionData>, caches: seq<Hashes>, rpc: seq<Outcome>)
      returns (response: BundleResponse)
      requires |transactions| == |caches| == |rpc| && AllSigned(transactions)
      modifies sender`submitted
      ensures response.signatures == Values(OutcomesOf(transactions, caches, rpc))
      ensures response.errors == Errors(OutcomesOf(transactions, caches, rpc))
      ensures Listed(response.signatures, response.errors, transactions, caches, rpc)
      ensures sender.submitted == old(sender.submitted) + Admitted(transactions, caches)
    {
      var signatures, errors := sender.SendTransactionBundle(transactions, caches, rpc);
      response := BundleResponse(signatures, errors);
    }
  }

  class AtlasTxnSender {
    const app: AtlasTransactionApp
    const maxTxnSendRetries: nat

    constructor (app: AtlasTransactionApp, maxTxnSendRetries: nat)
      ensures this.app == app && this.maxTxnSendRetries == maxTxnSendRetries
    {
      this.app, this.maxTxnSendRetries := app, maxTxnSendRetries;
    }

    /** On success the answer is the decoded transaction's signature. If that is stored
        nothing else happens; otherwise the record is stored, its confirm task started,
        and its decoded bytes sent once to every scanned leader with an address. */
    method SendTransaction(text: string, params: Params, decode: Decoder) returns (r: Result<string, RequestError>)
      requires app.sender.Valid()
      requires forall e, d :: AcceptedAs(params, e) && decode(text, e) == Some(d) ==> d.txn.signatures != []
      modifies app.sender, app.sender.store
      ensures app.sender.Valid() && app.sender.submitted == old(app.sender.submitted)
      ensures r.Ok? <==> exists e :: AcceptedAs(params, e) && decode(text, e).Some?
      ensures r.Err? ==> RefusedWith(params, r.error) || (r.error == Undecodable(text) && exists e :: AcceptedAs(params, e))
      ensures r.Err? ==>
        && app.sender.store.transactions == old(app.sender.store.transactions)
        && app.sender.confirming == old(app.sender.confirming)
        && app.sender.outbox == old(app.sender.outbox)
      ensures forall e :: r.Ok? && AcceptedAs(params, e) ==>
        decode(text, e).Some? && decode(text, e).value.txn.signatures != []
        && r.value == decode(text, e).value.txn.signatures[0]
      ensures r.Ok? && r.value in old(app.sender.store.transactions) ==>
        && app.sender.store.transactions == old(app.sender.store.transactions)
        && app.sender.confirming == old(app.sender.confirming)
        && app.sender.outbox == old(app.sender.outbox)
      ensures r.Ok? && r.value !in old(app.sender.store.transactions) ==>
        && r.value in app.sender.store.transactions
        && app.sender.store.transactions
           == old(app.sender.store.transactions)[r.value := app.sender.store.transactions[r.value]]
        && app.sender.confirming == old(app.sender.confirming) + [r.value]
        && old(app.sender.outbox) <= app.sender.outbox
        && forall e :: AcceptedAs(params, e) ==>
             && MadeFrom(app.sender.store.transactions[r.value], maxTxnSendRetries, params, e, decode, text)
             && SentToAll(app.sender.outbox[|old(app.sender.outbox)|..], decode(text, e).value.wire, app.sender.Leaders())
    {
      var encoding := EncodingOf(params);
      if encoding.Err? {
        EncodingAccepted(params, AsBase58, encoding.error);
        EncodingAccepted(params, AsBase64, encoding.error);
        return Err(encoding.error);
      }
      OneEncoding(params, encoding.value);
      var created := CreateTransactionData(maxTxnSendRetries, params, encoding.value, decode, text);
      if created.Err? {
        return Err(created.error);
      }
      CreatedAsPromised(maxTxnSendRetries, params, encoding.value, decode, text);
      var signature := app.SendTransaction(created.value);
      r := Ok(signature);
    }

    /** Decodes everything first: unless every string decodes, nothing is handed on. */
    method DecodeBundle(texts: seq<string>, params: Params, encoding: BinaryEncoding, decode: Decoder)
      returns (r: Result<seq<TransactionData>, RequestError>)
      ensures r.Ok? <==> AllDecode(texts, encoding, decode)
      ensures r.Ok? ==> |r.value| == |texts| && forall i :: 0 <= i < |texts| ==>
        MadeFrom(r.value[i], maxTxnSendRetries, params, encoding, decode, texts[i])
      ensures r.Err? ==>
        exists i :: 0 <= i < |texts| && r.error == Undecodable(texts[i]) && FirstFailure(texts, encoding, decode, i)
    {
      var transactions := [];
      for i := 0 to |texts|
        invariant |transactions| == i
        invariant forall j :: 0 <= j < i ==>
          decode(texts[j], encoding).Some?
          && MadeFrom(transactions[j], maxTxnSendRetries, params, encoding, decode, texts[j])
      {
        var created := CreateTransactionData(maxTxnSendRetries, params, encoding, decode, texts[i]);
        if created.Err? {
          return Err(created.error);
        }
        CreatedAsPromised(maxTxnSendRetries, params, encoding, decode, texts[i]);
        transactions := transactions + [created.value];
      }
      r := Ok(transactions);
    }

    /** Decode-all-or-send-nothing, then the bundle: on any error no transaction reaches
        the RPC client; otherwise exactly the admitted records do, one record having
        been made from each string in order. */
    method SendTransactionBundle(texts: seq<string>, params: Params, decode: Decoder, caches: seq<Hashes>, rpc: seq<Outcome>)
      returns (r: Result<BundleResponse, RequestError>, ghost made: seq<TransactionData>)
      requires |caches| == |rpc| == |texts|
      requires forall text, e, d :: decode(text, e) == Some(d) ==> d.txn.signatures != []
      modifies app.sender`submitted
      ensures r.Ok? <==> exists e :: AcceptedAs(params, e) && AllDecode(texts, e, decode)
      ensures r.Err? ==> RefusedWith(params, r.error) || FailedToDecode(texts, params, decode, r.error)
      ensures r.Err? ==> app.sender.submitted == old(app.sender.submitted)
      ensures r.Ok? ==>
        && |made| == |texts|
        && (forall e, i :: AcceptedAs(params, e) && 0 <= i < |texts| ==>
              MadeFrom(made[i], maxTxnSendRetries, params, e, decode, texts[i]))
        && AllSigned(made)
        && app.sender.submitted == old(app.sender.submitted) + Admitted(made, caches)
        && r.value.signatures == Values(OutcomesOf(made, caches, rpc))
        && r.value.errors == Errors(OutcomesOf(made, caches, rpc))
        && |r.value.signatures| + |r.value.errors| == |texts|
        && Listed(r.value.signatures, r.value.errors, made, caches, rpc)
    {
      made := [];
      var encoding := EncodingOf(params);
      if encoding.Err? {
        EncodingAccepted(params, AsBase58, encoding.error);
        EncodingAccepted(params, AsBase64, encoding.error);
        return Err(encoding.error), made;
      }
      OneEncoding(params, encoding.value);
      var decoded := DecodeBundle(texts, params, encoding.value, decode);
      if decoded.Err? {
        return Err(decoded.error), made;
      }
      made := decoded.value;
      forall t | t in made ensures t.txn.signatures != [] {
        var i :| 0 <= i < |made| && made[i] == t;
        assert MadeFrom(made[i], maxTxnSendRetries, params, encoding.value, decode, texts[i]);
      }
      var response := app.SendTransactionBundle(decoded.value, caches, rpc);
      SplitWeavesBack(OutcomesOf(made, caches, rpc));
      r := Ok(response);
    }
  }
}

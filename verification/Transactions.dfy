// The records that travel through the service, and the request clamp that fixes
// their retry counters (src/storage/transaction_store.rs, src/server/rpc_server.rs).
module Transactions {
  import opened Wrappers

  datatype VersionedTransaction = VersionedTransaction(signatures: seq<string>, recentBlockhash: string)

  datatype TransactionData = TransactionData(
    wire: seq<bv8>,
    txn: VersionedTransaction,
    retryCount: nat,
    maxRetries: nat)

  function GetSignature(t: TransactionData): Option<string> {
    if t.txn.signatures == [] then None else Some(t.txn.signatures[0])
  }

  function Min(a: nat, b: nat): nat {
    if a <= b then a else b
  }

  /** A freshly decoded request: never retried, at most `cap` retries allowed. */
  function NewTransaction(cap: nat, requested: Option<nat>, wire: seq<bv8>, txn: VersionedTransaction): (t: TransactionData)
    ensures t.retryCount == 0 && t.maxRetries <= cap
    ensures requested.Some? && requested.value <= cap ==> t.maxRetries == requested.value
    ensures requested == None || cap <= requested.value ==> t.maxRetries == cap
  {
    var wanted := match requested case Some(n) => n case None => cap;
    TransactionData(wire, txn, 0, Min(cap, wanted))
  }
}

// The transaction store (src/storage/transaction_store.rs). The retry loop edits
// the very same map, so `transactions` is a public field.
module TransactionStores {
  import opened Wrappers
  import opened Transactions

  type Contents = map<string, TransactionData>

  ghost predicate KeyedBySignature(m: Contents) {
    forall s :: s in m ==> GetSignature(m[s]) == Some(s)
  }

  function Added(m: Contents, t: TransactionData): Contents {
    match GetSignature(t)
    case None => m
    case Some(s) => if s in m then m else m[s := t]
  }

  ghost predicate IsOrderOf(order: seq<string>, keys: set<string>) {
    && (forall i, j :: 0 <= i < j < |order| ==> order[i] != order[j])
    && (forall s :: s in order <==> s in keys)
  }

  class TransactionStore {
    var transactions: Contents

    ghost predicate Valid() reads this {
      KeyedBySignature(transactions)
    }

    constructor ()
      ensures Valid() && transactions == map[]
    {
      transactions := map[];
    }

    method HasSignature(signature: string) returns (found: bool)
      ensures found <==> signature in transactions
    {
      found := signature in transactions;
    }

    method AddTransaction(t: TransactionData)
      requires Valid()
      modifies this
      ensures Valid()
      ensures transactions == Added(old(transactions), t)
      ensures t.txn.signatures == [] ==> transactions == old(transactions)
      ensures t.txn.signatures != [] && t.txn.signatures[0] in old(transactions) ==> transactions == old(transactions)
      ensures t.txn.signatures != [] && t.txn.signatures[0] !in old(transactions) ==>
        transactions == old(transactions)[t.txn.signatures[0] := t]
    {
      match GetSignature(t) {
        case Some(signature) =>
          if signature in transactions {
            return;
          }
          transactions := transactions[signature := t];
        case None =>
      }
    }

    method RemoveTransaction(signature: string) returns (removed: Option<TransactionData>)
      modifies this
      ensures transactions == old(transactions) - {signature}
      ensures removed == if signature in old(transactions) then Some(old(transactions)[signature]) else None
      ensures old(Valid()) ==> Valid()
    {
      removed := if signature in transactions then Some(transactions[signature]) else None;
      transactions := transactions - {signature};
    }

    /** Reads the signature out of every record, in the map's own order. The
        unwrap cannot fail, and what comes out is the key set, once each. */
    method GetSignatures() returns (signatures: seq<string>)
      requires Valid()
      ensures IsOrderOf(signatures, transactions.Keys)
    {
      signatures := [];
      var todo := transactions.Keys;
      while todo != {}
        invariant todo <= transactions.Keys
        invariant IsOrderOf(signatures, transactions.Keys - todo)
      {
        var key :| key in todo;
        var signature := GetSignature(transactions[key]);
        assert signature == Some(key);
        signatures := signatures + [signature.value];
        todo := todo - {key};
      }
    }
  }

  // ---- Conservation over any history of atomic operations ----

  datatype History = Fresh | Adding(before: History, t: TransactionData) | Removing(before: History, s: string)

  function ContentsAfter(h: History): Contents {
    match h
    case Fresh => map[]
    case Adding(b, t) => Added(ContentsAfter(b), t)
    case Removing(b, s) => ContentsAfter(b) - {s}
  }

  function Insertions(h: History, s: string): nat {
    match h
    case Fresh => 0
    case Adding(b, t) => Insertions(b, s) + if GetSignature(t) == Some(s) && s !in ContentsAfter(b) then 1 else 0
    case Removing(b, _) => Insertions(b, s)
  }

  function Removals(h: History, s: string): nat {
    match h
    case Fresh => 0
    case Adding(b, _) => Removals(b, s)
    case Removing(b, x) => Removals(b, s) + if x == s && s in ContentsAfter(b) then 1 else 0
  }

  /** With check-and-insert atomic, insertions minus effective removals of a
      signature is 1 while it is stored and 0 otherwise, and every key is the
      signature of its record. */
  lemma {:induction false} InsertionsBalanceRemovals(h: History, s: string)
    ensures Insertions(h, s) == Removals(h, s) + if s in ContentsAfter(h) then 1 else 0
    ensures KeyedBySignature(ContentsAfter(h))
  {
    match h
    case Fresh =>
    case Adding(b, _) => InsertionsBalanceRemovals(b, s);
    case Removing(b, _) => InsertionsBalanceRemovals(b, s);
  }
}

// The transaction sender: tracking and sending a transaction, one turn of the retry
// loop, and bundle submission (src/infrastructure/txn_sender.rs). Spawned work is
// recorded in order: confirm tasks by signature, sends by wire bytes and leader.
module TxnSenders {
  import opened Wrappers
  import opened Sums
  import opened Transactions
  import opened TransactionStores
  import opened RetryQueue
  import opened LeaderScan
  import opened LeaderTrackers
  import opened Sends
  import opened BlockhashWindow
  import opened Bundles
  import opened RpcSubmission
  import opened MetricBins

  const RETRY_COUNT_BINS: seq<int> := [0, 1, 2, 5, 10, 25]
  const MAX_RETRIES_BINS: seq<int> := [0, 1, 5, 10, 30]

  datatype Reply = Delivered | Refused | TimedOut

  /** A turn of the loop spawns at most one send per pushed wire and leader found at
      that wire's scan. */
  lemma {:induction false} SendsAreBounded(wires: seq<seq<bv8>>, scans: seq<seq<ContactInfo>>, numLeaders: nat)
    requires |wires| == |scans| && forall scan :: scan in scans ==> |scan| <= numLeaders
    ensures |SendsOfAll(wires, scans)| <= numLeaders * |wires|
  {
    if wires != [] {
      var n := |wires| - 1;
      SendsAreBounded(wires[..n], scans[..n], numLeaders);
      SendCount(wires[n], scans[n]);
      OneMoreShare(numLeaders, n, |SendsOfAll(wires[..n], scans[..n])|, |SendsOfAll(wires, scans)|);
    }
  }

  lemma AppendsAssociate<T>(a: seq<T>, b: seq<T>, c: seq<T>)
    ensures a + b + c == a + (b + c)
  {
  }

  lemma AppendedTail<T>(before: seq<T>, more: seq<T>)
    ensures before <= before + more && (before + more)[|before|..] == more
  {
  }

  /** The attempts one send task makes: up to and including the first delivery, ten at
      the most. A timeout is retried like any other failure. */
  method SendWithRetries(replies: seq<Reply>) returns (attempts: nat, delivered: bool)
    requires |replies| == SEND_TXN_RETRIES
    ensures 1 <= attempts <= SEND_TXN_RETRIES
    ensures delivered <==> Delivered in replies
    ensures forall i :: 0 <= i < attempts - 1 ==> replies[i] != Delivered
    ensures if delivered then replies[attempts - 1] == Delivered else attempts == SEND_TXN_RETRIES
  {
    attempts, delivered := 0, false;
    for i := 0 to SEND_TXN_RETRIES
      invariant attempts == i
      invariant Delivered !in replies[..i]
    {
      attempts := attempts + 1;
      if replies[i] == Delivered {
        return attempts, true;
      }
    }
    assert replies[..SEND_TXN_RETRIES] == replies;
  }

  class TxnSender {
    const store: TransactionStore
    const tracker: LeaderTracker
    const maxQueue: Option<nat>
    var confirming: seq<string>
    var outbox: seq<Send>
    var submitted: seq<TransactionData>

    ghost predicate Valid() reads store {
      store.Valid()
    }

    ghost function Leaders(): seq<ContactInfo> reads tracker {
      ValuesOf(Scan(View(tracker.curLeaders, tracker.curSlot, WindowSize(tracker.curSlot, tracker.numLeaders)),
                    tracker.numLeaders))
    }

    /** What a number of scans find while the tracker does not change. */
    ghost function Scans(n: nat): (scans: seq<seq<ContactInfo>>) reads tracker
      ensures |scans| == n
    {
      var leaders := Leaders();
      seq(n, _ => leaders)
    }

    constructor (store: TransactionStore, tracker: LeaderTracker, maxQueue: Option<nat>)
      ensures this.store == store && this.tracker == tracker && this.maxQueue == maxQueue
      ensures confirming == [] && outbox == [] && submitted == []
    {
      this.store, this.tracker, this.maxQueue := store, tracker, maxQueue;
      confirming, outbox, submitted := [], [], [];
    }

    /** Stores the transaction unless its signature is stored already, and in either
        case starts a confirm task; an unsigned one is ignored. */
    method TrackTransaction(t: TransactionData)
      requires Valid()
      modifies store, this`confirming
      ensures Valid()
      ensures store.transactions == Added(old(store.transactions), t)
      ensures t.txn.signatures == [] ==> store.transactions == old(store.transactions) && confirming == old(confirming)
      ensures t.txn.signatures != [] ==> confirming == old(confirming) + [t.txn.signatures[0]]
      ensures t.txn.signatures != [] ==>
        store.transactions == if t.txn.signatures[0] in old(store.transactions) then old(store.transactions)
                              else old(store.transactions)[t.txn.signatures[0] := t]
    {
      var signature := GetSignature(t);
      if signature == None {
        return;
      }
      store.AddTransaction(t);
      confirming := confirming + [signature.value];
    }

    method SendTransaction(t: TransactionData)
      requires Valid()
      modifies store, this`confirming, this`outbox
      ensures Valid()
      ensures store.transactions == Added(old(store.transactions), t)
      ensures t.txn.signatures == [] ==> store.transactions == old(store.transactions) && confirming == old(confirming)
      ensures t.txn.signatures != [] ==> confirming == old(confirming) + [t.txn.signatures[0]]
      ensures t.txn.signatures != [] ==>
        store.transactions == if t.txn.signatures[0] in old(store.transactions) then old(store.transactions)
                              else old(store.transactions)[t.txn.signatures[0] := t]
      ensures old(outbox) <= outbox && SentToAll(outbox[|old(outbox)|..], t.wire, Leaders())
    {
      TrackTransaction(t);
      SendToLeaders(t.wire);
      SendsOfReachAll(t.wire, Leaders());
      AppendedTail(old(outbox), SendsOf(t.wire, Leaders()));
    }

    method SendToLeaders(wire: seq<bv8>)
      modifies this`outbox
      ensures outbox == old(outbox) + SendsOf(wire, Leaders())
    {
      var leaders := tracker.GetLeaders();
      for i := 0 to |leaders|
        invariant outbox == old(outbox) + SendsOf(wire, leaders[..i])
      {
        assert leaders[..i + 1][..i] == leaders[..i];
        if leaders[i].tpuQuic == None {
          continue;
        }
        outbox := outbox + [Send(wire, leaders[i])];
      }
      assert leaders[..|leaders|] == leaders;
    }

    /** The end of a confirm task: removes by signature and tags what it removed. */
    method EndConfirmation(signature: string) returns (retriesTag: string, maxRetriesTag: string)
      requires Valid()
      modifies store
      ensures Valid()
      ensures store.transactions == old(store.transactions) - {signature}
      ensures signature !in old(store.transactions) <==> retriesTag == "none"
      ensures signature !in old(store.transactions) <==> maxRetriesTag == "none"
      ensures signature in old(store.transactions) ==>
        exists i :: 0 <= i <= |RETRY_COUNT_BINS|
          && InCell(RETRY_COUNT_BINS, i, old(store.transactions)[signature].retryCount)
          && retriesTag == TagText(LowerEdge(RETRY_COUNT_BINS, i), UpperEdge(RETRY_COUNT_BINS, i))
      ensures signature in old(store.transactions) ==>
        exists i :: 0 <= i <= |MAX_RETRIES_BINS|
          && InCell(MAX_RETRIES_BINS, i, old(store.transactions)[signature].maxRetries)
          && maxRetriesTag == TagText(LowerEdge(MAX_RETRIES_BINS, i), UpperEdge(MAX_RETRIES_BINS, i))
    {
      var removed := store.RemoveTransaction(signature);
      var retries, maxRetries: Option<int> := None, None;
      if removed.Some? {
        retries, maxRetries := Some(removed.value.retryCount), Some(removed.value.maxRetries);
      }
      retriesTag := BinCounterToTag(retries, RETRY_COUNT_BINS);
      maxRetriesTag := BinCounterToTag(maxRetries, MAX_RETRIES_BINS);
      if removed.Some? {
        var i :| 0 <= i <= |RETRY_COUNT_BINS| && InCell(RETRY_COUNT_BINS, i, retries.value)
          && retriesTag == TagText(LowerEdge(RETRY_COUNT_BINS, i), UpperEdge(RETRY_COUNT_BINS, i));
        TagsPartition(RETRY_COUNT_BINS, retries.value, retries.value, i, i);
        var j :| 0 <= j <= |MAX_RETRIES_BINS| && InCell(MAX_RETRIES_BINS, j, maxRetries.value)
          && maxRetriesTag == TagText(LowerEdge(MAX_RETRIES_BINS, j), UpperEdge(MAX_RETRIES_BINS, j));
        TagsPartition(MAX_RETRIES_BINS, maxRetries.value, maxRetries.value, j, j);
      }
    }

    // ---- The retry loop ----

    /** Sheds load if the queue is over its limit: snapshot in the map's own order,
        stable sort by retry count, and removal of the tail, each entry twice over. */
    method Shed()
      requires Valid()
      modifies store
      ensures Valid()
      ensures ShedTo(old(store.transactions), maxQueue, store.transactions)
    {
      var queueLength := |store.transactions|;
      if maxQueue == None || queueLength <= maxQueue.value {
        return;
      }
      var rows := Snapshot();
      SnapshotSize(rows, store.transactions);
      var victims := Victims(rows, maxQueue.value).value;
      VictimsShed(rows, store.transactions, maxQueue.value, victims);
      RemoveTwice(SignaturesOf(victims));
    }

    /** The store and the shared map are the same map, so the second removal of each
        signature finds nothing. */
    method RemoveTwice(signatures: seq<string>)
      requires Valid()
      modifies store
      ensures Valid()
      ensures store.transactions == old(store.transactions) - Elements(signatures)
    {
      for i := 0 to |signatures|
        invariant Valid()
        invariant store.transactions == old(store.transactions) - Elements(signatures[..i])
      {
        var _ := store.RemoveTransaction(signatures[i]);
        store.transactions := store.transactions - {signatures[i]};
        assert Elements(signatures[..i + 1]) == Elements(signatures[..i]) + {signatures[i]};
      }
      assert signatures[..|signatures|] == signatures;
    }

    method Snapshot() returns (rows: seq<Row>)
      ensures IsSnapshot(rows, store.transactions)
    {
      rows := [];
      var todo := store.transactions.Keys;
      while todo != {}
        invariant todo <= store.transactions.Keys
        invariant DistinctRows(rows)
        invariant forall r :: r in rows ==>
          r.signature in store.transactions && r.signature !in todo && r.data == store.transactions[r.signature]
        invariant forall s :: s in store.transactions && s !in todo ==> Row(s, store.transactions[s]) in rows
      {
        var key :| key in todo;
        rows := rows + [Row(key, store.transactions[key])];
        todo := todo - {key};
      }
    }

    /** The iteration: pushes every wire, lists exhausted entries by their signature and
        counts the others up in place. */
    method CountUp() returns (order: seq<string>, wires: seq<seq<bv8>>, reached: seq<string>)
      requires Valid()
      modifies store
      ensures Valid()
      ensures IsOrderOf(order, old(store.transactions).Keys)
      ensures wires == WiresOf(old(store.transactions), order)
      ensures forall s :: s in reached <==> s in old(store.transactions) && Exhausted(old(store.transactions)[s])
      ensures store.transactions == CountedUp(old(store.transactions), old(store.transactions).Keys)
    {
      order, wires, reached := [], [], [];
      ghost var before := store.transactions;
      var todo := store.transactions.Keys;
      while todo != {}
        invariant todo <= before.Keys && IsOrderOf(order, before.Keys - todo)
        invariant wires == WiresOf(before, order)
        invariant forall s :: s in reached <==> s in before && s !in todo && Exhausted(before[s])
        invariant store.transactions == CountedUp(before, before.Keys - todo)
      {
        var key :| key in todo;
        var data := store.transactions[key];
        CountOneMore(before, before.Keys - todo, key);
        OrderOneMore(order, before.Keys - todo, key);
        WiresOneMore(before, order, key);
        assert before.Keys - (todo - {key}) == before.Keys - todo + {key};
        wires := wires + [data.wire];
        if data.retryCount >= data.maxRetries {
          assert GetSignature(before[key]) == Some(key);
          reached := reached + [GetSignature(data).value];
        } else {
          store.transactions := store.transactions[key := Bumped(data)];
        }
        order, todo := order + [key], todo - {key};
      }
      CountedUpKeyed(before, before.Keys);
    }

    method SendAll(wires: seq<seq<bv8>>)
      modifies this`outbox
      ensures outbox == old(outbox) + SendsOfAll(wires, Scans(|wires|))
    {
      for i := 0 to |wires|
        invariant outbox == old(outbox) + SendsOfAll(wires[..i], Scans(i))
      {
        assert wires[..i + 1][..i] == wires[..i] && Scans(i + 1)[..i] == Scans(i);
        SendToLeaders(wires[i]);
      }
      assert wires[..|wires|] == wires;
    }

    method RemoveReached(reached: seq<string>)
      requires Valid()
      modifies store
      ensures Valid()
      ensures store.transactions == old(store.transactions) - Elements(reached)
    {
      for i := 0 to |reached|
        invariant Valid()
        invariant store.transactions == old(store.transactions) - Elements(reached[..i])
      {
        var _ := store.RemoveTransaction(reached[i]);
        assert Elements(reached[..i + 1]) == Elements(reached[..i]) + {reached[i]};
      }
      assert reached[..|reached|] == reached;
    }

    /** One whole turn: shed, push and count up, send every pushed wire, then remove
        what was exhausted. `kept` is the queue after shedding. */
    method RetryPass() returns (kept: Contents, order: seq<string>)
      requires Valid()
      modifies store, this`outbox
      ensures Valid()
      ensures ShedTo(old(store.transactions), maxQueue, kept)
      ensures IsOrderOf(order, kept.Keys)
      ensures store.transactions == AfterPass(kept)
      ensures old(outbox) <= outbox && AllSent(outbox[|old(outbox)|..], WiresOf(kept, order), Scans(|order|))
    {
      Shed();
      kept := store.transactions;
      var wires, reached;
      order, wires, reached := CountUp();
      SendAll(wires);
      RemoveReached(reached);
      CountedUpIsPass(kept, Elements(reached));
      SendsOfAllReachAll(wires, Scans(|wires|));
      AppendedTail(old(outbox), SendsOfAll(wires, Scans(|wires|)));
    }

    // ---- Bundles ----

    /** One transaction of a bundle: checked against the cache as it stands at its turn
        and, if admitted, submitted. */
    method SubmitOne(t: TransactionData, cache: Hashes, rpc: Outcome) returns (o: Outcome)
      requires t.txn.signatures != []
      modifies this`submitted
      ensures o == OutcomeOf(t, cache, rpc)
      ensures submitted == old(submitted) + if Admits(cache, t) then [t] else []
    {
      if t.txn.recentBlockhash !in cache {
        return Err("Transaction has expired blockhash: " + t.txn.recentBlockhash);
      }
      var signature := t.txn.signatures[0];
      submitted := submitted + [t];
      match rpc {
        case Ok(encoded) => o := Ok(encoded);
        case Err(_) => o := Err("Error processing transaction \"" + signature + "\"");
      }
    }

    /** Results are pushed in order. */
    method SubmitEach(transactions: seq<TransactionData>, caches: seq<Hashes>, rpc: seq<Outcome>)
      returns (signatures: seq<string>, errors: seq<string>)
      requires |transactions| == |caches| == |rpc| && AllSigned(transactions)
      modifies this`submitted
      ensures signatures == Values(OutcomesOf(transactions, caches, rpc))
      ensures errors == Errors(OutcomesOf(transactions, caches, rpc))
      ensures submitted == old(submitted) + Admitted(transactions, caches)
    {
      signatures, errors := [], [];
      ghost var outcomes := OutcomesOf(transactions, caches, rpc);
      for i := 0 to |transactions|
        invariant signatures == Values(outcomes[..i]) && errors == Errors(outcomes[..i])
        invariant submitted == old(submitted) + Admitted(transactions[..i], caches[..i])
      {
        BundleStep(transactions, caches, rpc, i, outcomes[i]);
        AppendsAssociate(old(submitted), Admitted(transactions[..i], caches[..i]),
                         if Admits(caches[i], transactions[i]) then [transactions[i]] else []);
        var outcome := SubmitOne(transactions[i], caches[i], rpc[i]);
        if outcome.Ok? {
          signatures := signatures + [outcome.value];
        } else {
          errors := errors + [outcome.error];
        }
      }
      assert transactions[..|transactions|] == transactions && caches[..|transactions|] == caches;
      assert outcomes[..|transactions|] == outcomes;
    }

    /** The two lists are the RPC answers of the transactions that landed and the
        complaints about the others. */
    method SendTransactionBundle(transactions: seq<TransactionData>, caches: seq<Hashes>, rpc: seq<Outcome>)
      returns (signatures: seq<string>, errors: seq<string>)
      requires |transactions| == |caches| == |rpc| && AllSigned(transactions)
      modifies this`submitted
      ensures signatures == Values(OutcomesOf(transactions, caches, rpc))
      ensures errors == Errors(OutcomesOf(transactions, caches, rpc))
      ensures |signatures| + |errors| == |transactions|
      ensures Listed(signatures, errors, transactions, caches, rpc)
      ensures submitted == old(submitted) + Admitted(transactions, caches)
    {
      signatures, errors := SubmitEach(transactions, caches, rpc);
      SplitWeavesBack(OutcomesOf(transactions, caches, rpc));
      SplitIsListed(transactions, caches, rpc);
    }
  }
}

// Bundle submission on values: which transactions are admitted by the blockhash
// check, and how the outcomes split into signatures and errors
// (src/infrastructure/txn_sender.rs, send_transaction_bundle).
module Bundles {
  import opened Wrappers
  import opened Sums
  import opened Transactions
  import opened BlockhashWindow
  import opened RpcSubmission

  /** Whether the cache seen at a transaction's check holds its blockhash. */
  predicate Admits(cache: Hashes, t: TransactionData) {
    t.txn.recentBlockhash in cache
  }

  /** What one transaction contributes; `rpc` is what the RPC call answers if made. */
  function OutcomeOf(t: TransactionData, cache: Hashes, rpc: Outcome): Outcome
    requires t.txn.signatures != []
  {
    if !Admits(cache, t) then Err("Transaction has expired blockhash: " + t.txn.recentBlockhash)
    else if rpc.Ok? then rpc
    else Err("Error processing transaction \"" + t.txn.signatures[0] + "\"")
  }

  predicate AllSigned(ts: seq<TransactionData>) {
    forall t :: t in ts ==> t.txn.signatures != []
  }

  function OutcomesOf(ts: seq<TransactionData>, caches: seq<Hashes>, rpc: seq<Outcome>): (os: seq<Outcome>)
    requires |ts| == |caches| == |rpc| && AllSigned(ts)
    ensures |os| == |ts| && forall i :: 0 <= i < |ts| ==> os[i] == OutcomeOf(ts[i], caches[i], rpc[i])
  {
    seq(|ts|, i requires 0 <= i < |ts| => OutcomeOf(ts[i], caches[i], rpc[i]))
  }

  function Values(os: seq<Outcome>): seq<string> {
    if os == [] then []
    else Values(os[..|os| - 1]) + match os[|os| - 1] { case Ok(v) => [v] case Err(_) => [] }
  }

  function Errors(os: seq<Outcome>): seq<string> {
    if os == [] then []
    else Errors(os[..|os| - 1]) + match os[|os| - 1] { case Ok(_) => [] case Err(e) => [e] }
  }

  function Admitted(ts: seq<TransactionData>, caches: seq<Hashes>): seq<TransactionData>
    requires |ts| == |caches|
  {
    if ts == [] then []
    else
      var n := |ts| - 1;
      Admitted(ts[..n], caches[..n]) + if Admits(caches[n], ts[n]) then [ts[n]] else []
  }

  /** Deals the two lists back out in the order given by the tags. */
  function Woven(tags: seq<bool>, values: seq<string>, errors: seq<string>): Option<seq<Outcome>> {
    if tags == [] then
      if values == [] && errors == [] then Some([]) else None
    else
      var n := |tags| - 1;
      if tags[n] then
        if values == [] then None
        else match Woven(tags[..n], values[..|values| - 1], errors)
          case None => None
          case Some(os) => Some(os + [Ok(values[|values| - 1])])
      else
        if errors == [] then None
        else match Woven(tags[..n], values, errors[..|errors| - 1])
          case None => None
          case Some(os) => Some(os + [Err(errors[|errors| - 1])])
  }

  function Tags(os: seq<Outcome>): (tags: seq<bool>)
    ensures |tags| == |os| && forall i :: 0 <= i < |os| ==> tags[i] == os[i].Ok?
  {
    seq(|os|, i requires 0 <= i < |os| => os[i].Ok?)
  }

  lemma SplitAppend(os: seq<Outcome>, o: Outcome)
    ensures Values(os + [o]) == if o.Ok? then Values(os) + [o.value] else Values(os)
    ensures Errors(os + [o]) == if o.Ok? then Errors(os) else Errors(os) + [o.error]
    ensures Tags(os + [o]) == Tags(os) + [o.Ok?]
  {
    assert (os + [o])[..|os|] == os;
  }

  lemma SplitStep(os: seq<Outcome>, i: nat)
    requires i < |os|
    ensures Values(os[..i + 1]) == Values(os[..i]) + match os[i] { case Ok(v) => [v] case Err(_) => [] }
    ensures Errors(os[..i + 1]) == Errors(os[..i]) + match os[i] { case Ok(_) => [] case Err(e) => [e] }
  {
    assert os[..i + 1][..i] == os[..i];
  }

  lemma WovenAppend(tags: seq<bool>, values: seq<string>, errors: seq<string>, os: seq<Outcome>, o: Outcome)
    requires Woven(tags, values, errors) == Some(os)
    ensures Woven(tags + [o.Ok?], if o.Ok? then values + [o.value] else values, if o.Ok? then errors else errors + [o.error])
         == Some(os + [o])
  {
    assert (tags + [o.Ok?])[..|tags|] == tags;
    if o.Ok? {
      assert (values + [o.value])[..|values|] == values;
    } else {
      assert (errors + [o.error])[..|errors|] == errors;
    }
  }

  /** The two lists are an order-preserving split: together with which position went
      where they give back the outcomes, and nothing is lost or added. */
  lemma {:induction false} SplitWeavesBack(os: seq<Outcome>)
    ensures Woven(Tags(os), Values(os), Errors(os)) == Some(os)
    ensures |Values(os)| + |Errors(os)| == |os|
  {
    if os != [] {
      var front, last := os[..|os| - 1], os[|os| - 1];
      SplitWeavesBack(front);
      assert os == front + [last];
      SplitAppend(front, last);
      WovenAppend(Tags(front), Values(front), Errors(front), front, last);
    }
  }

  /** The i-th transaction is submitted iff it is admitted, right after the admitted
      ones before it. */
  lemma {:induction false} SubmittedInOrder(ts: seq<TransactionData>, caches: seq<Hashes>, i: nat)
    requires |ts| == |caches| && i < |ts|
    ensures Admitted(ts[..i + 1], caches[..i + 1])
         == Admitted(ts[..i], caches[..i]) + if Admits(caches[i], ts[i]) then [ts[i]] else []
    ensures Admitted(ts[..i], caches[..i]) <= Admitted(ts[..i + 1], caches[..i + 1]) <= Admitted(ts, caches)
    decreases |ts| - i
  {
    assert ts[..i + 1][..i] == ts[..i] && caches[..i + 1][..i] == caches[..i];
    if i + 1 < |ts| {
      SubmittedInOrder(ts, caches, i + 1);
    } else {
      assert ts[..i + 1] == ts && caches[..i + 1] == caches;
    }
  }

  /** What the i-th transaction adds to the two lists and to what is submitted. */
  lemma BundleStep(ts: seq<TransactionData>, caches: seq<Hashes>, rpc: seq<Outcome>, i: nat, o: Outcome)
    requires |ts| == |caches| == |rpc| && AllSigned(ts) && i < |ts| && o == OutcomesOf(ts, caches, rpc)[i]
    ensures var os := OutcomesOf(ts, caches, rpc);
      && Values(os[..i + 1]) == (if o.Ok? then Values(os[..i]) + [o.value] else Values(os[..i]))
      && Errors(os[..i + 1]) == (if o.Ok? then Errors(os[..i]) else Errors(os[..i]) + [o.error])
    ensures Admitted(ts[..i + 1], caches[..i + 1])
         == Admitted(ts[..i], caches[..i]) + if Admits(caches[i], ts[i]) then [ts[i]] else []
  {
    SplitStep(OutcomesOf(ts, caches, rpc), i);
    SubmittedInOrder(ts, caches, i);
  }

  /** End to end: if the cache at each check is what the block history up to then left,
      then a transaction's outcome is anything but the expiry error exactly when its
      blockhash was last inserted at some slot and every block since was within 150
      slots of it; and only such transactions can yield a signature. */
  lemma {:induction false} AdmissionByHistory(
      ts: seq<TransactionData>, histories: seq<seq<Message>>, caches: seq<Hashes>, i: nat)
    requires |ts| == |histories| == |caches| && i < |ts|
    requires caches[i] == HashesAfter(histories[i])
    ensures (Admitted(ts[..i + 1], caches[..i + 1]) == Admitted(ts[..i], caches[..i]) + [ts[i]])
       <==> exists slot, k :: LastInsertion(histories[i], ts[i].txn.recentBlockhash, slot, k)
                           && FreshSince(histories[i], slot, k)
  {
    var hash := ts[i].txn.recentBlockhash;
    SubmittedInOrder(ts, caches, i);
    if Admits(caches[i], ts[i]) {
      WindowExact(histories[i], hash, caches[i][hash]);
    }
    if slot, k :| LastInsertion(histories[i], hash, slot, k) && FreshSince(histories[i], slot, k) {
      WindowExact(histories[i], hash, slot);
    }
  }

  // ---- What the two lists hold ----

  ghost predicate HasLanded(t: TransactionData, cache: Hashes, rpc: Outcome) {
    t.txn.recentBlockhash in cache && rpc.Ok?
  }

  ghost function LandedPlaces(ts: seq<TransactionData>, caches: seq<Hashes>, rpc: seq<Outcome>): nat -> bool
    requires |ts| == |caches| == |rpc|
  {
    (i: nat) => i < |ts| && HasLanded(ts[i], caches[i], rpc[i])
  }

  ghost function LostPlaces(ts: seq<TransactionData>, caches: seq<Hashes>, rpc: seq<Outcome>): nat -> bool
    requires |ts| == |caches| == |rpc|
  {
    (i: nat) => i < |ts| && !HasLanded(ts[i], caches[i], rpc[i])
  }

  /** The text that answers a transaction that did not land. */
  ghost predicate Complains(text: string, t: TransactionData, cache: Hashes)
    requires t.txn.signatures != []
  {
    text == if t.txn.recentBlockhash in cache then "Error processing transaction \"" + t.txn.signatures[0] + "\""
            else "Transaction has expired blockhash: " + t.txn.recentBlockhash
  }

  /** The values are the RPC answers of those of the first n transactions that landed. */
  ghost predicate ValuesAt(
      values: seq<string>, ts: seq<TransactionData>, caches: seq<Hashes>, rpc: seq<Outcome>, n: nat, at: seq<nat>)
    requires |ts| == |caches| == |rpc| && n <= |ts|
  {
    && Picks(at, n, LandedPlaces(ts, caches, rpc)) && |values| == |at|
    && forall k :: 0 <= k < |at| ==> values[k] == rpc[at[k]].value
  }

  /** The errors are the complaints about those of the first n that did not. */
  ghost predicate ErrorsAt(
      errors: seq<string>, ts: seq<TransactionData>, caches: seq<Hashes>, rpc: seq<Outcome>, n: nat, at: seq<nat>)
    requires |ts| == |caches| == |rpc| && AllSigned(ts) && n <= |ts|
  {
    && Picks(at, n, LostPlaces(ts, caches, rpc)) && |errors| == |at|
    && forall k :: 0 <= k < |at| ==> Complains(errors[k], ts[at[k]], caches[at[k]])
  }

  ghost predicate Listed(
      values: seq<string>, errors: seq<string>, ts: seq<TransactionData>, caches: seq<Hashes>, rpc: seq<Outcome>)
    requires |ts| == |caches| == |rpc| && AllSigned(ts)
  {
    && (exists landed :: ValuesAt(values, ts, caches, rpc, |ts|, landed))
    && (exists lost :: ErrorsAt(errors, ts, caches, rpc, |ts|, lost))
  }

  lemma ValuesOneMore(
      values: seq<string>, ts: seq<TransactionData>, caches: seq<Hashes>, rpc: seq<Outcome>, n: nat, at: seq<nat>)
    requires |ts| == |caches| == |rpc| && n < |ts| && ValuesAt(values, ts, caches, rpc, n, at)
    requires HasLanded(ts[n], caches[n], rpc[n])
    ensures ValuesAt(values + [rpc[n].value], ts, caches, rpc, n + 1, at + [n])
  {
    PicksOneMore(at, n, LandedPlaces(ts, caches, rpc));
  }

  lemma ErrorsOneMore(
      errors: seq<string>, ts: seq<TransactionData>, caches: seq<Hashes>, rpc: seq<Outcome>, n: nat, at: seq<nat>,
      text: string)
    requires |ts| == |caches| == |rpc| && AllSigned(ts) && n < |ts| && ErrorsAt(errors, ts, caches, rpc, n, at)
    requires !HasLanded(ts[n], caches[n], rpc[n]) && Complains(text, ts[n], caches[n])
    ensures ErrorsAt(errors + [text], ts, caches, rpc, n + 1, at + [n])
  {
    PicksOneMore(at, n, LostPlaces(ts, caches, rpc));
    forall k | 0 <= k < |at + [n]| ensures Complains((errors + [text])[k], ts[(at + [n])[k]], caches[(at + [n])[k]]) {
      if k < |at| {
        assert Complains(errors[k], ts[at[k]], caches[at[k]]);
      }
    }
  }

  lemma {:induction false} ValuesSoFar(ts: seq<TransactionData>, caches: seq<Hashes>, rpc: seq<Outcome>, n: nat)
    returns (at: seq<nat>)
    requires |ts| == |caches| == |rpc| && AllSigned(ts) && n <= |ts|
    ensures ValuesAt(Values(OutcomesOf(ts, caches, rpc)[..n]), ts, caches, rpc, n, at)
  {
    at := [];
    if n > 0 {
      var i, os := n - 1, OutcomesOf(ts, caches, rpc);
      at := ValuesSoFar(ts, caches, rpc, i);
      SplitStep(os, i);
      if HasLanded(ts[i], caches[i], rpc[i]) {
        ValuesOneMore(Values(os[..i]), ts, caches, rpc, i, at);
        at := at + [i];
      } else {
        PicksSkipOne(at, i, LandedPlaces(ts, caches, rpc));
      }
    }
  }

  lemma {:induction false} ErrorsSoFar(ts: seq<TransactionData>, caches: seq<Hashes>, rpc: seq<Outcome>, n: nat)
    returns (at: seq<nat>)
    requires |ts| == |caches| == |rpc| && AllSigned(ts) && n <= |ts|
    ensures ErrorsAt(Errors(OutcomesOf(ts, caches, rpc)[..n]), ts, caches, rpc, n, at)
  {
    at := [];
    if n > 0 {
      var i, os := n - 1, OutcomesOf(ts, caches, rpc);
      at := ErrorsSoFar(ts, caches, rpc, i);
      SplitStep(os, i);
      if HasLanded(ts[i], caches[i], rpc[i]) {
        PicksSkipOne(at, i, LostPlaces(ts, caches, rpc));
      } else {
        ErrorsOneMore(Errors(os[..i]), ts, caches, rpc, i, at, os[i].error);
        at := at + [i];
      }
    }
  }

  /** The two lists of a bundle's answer, whatever the caches and the RPC node did. */
  lemma {:induction false} SplitIsListed(ts: seq<TransactionData>, caches: seq<Hashes>, rpc: seq<Outcome>)
    requires |ts| == |caches| == |rpc| && AllSigned(ts)
    ensures Listed(Values(OutcomesOf(ts, caches, rpc)), Errors(OutcomesOf(ts, caches, rpc)), ts, caches, rpc)
  {
    var landed := ValuesSoFar(ts, caches, rpc, |ts|);
    var lost := ErrorsSoFar(ts, caches, rpc, |ts|);
    var os := OutcomesOf(ts, caches, rpc);
    assert os[..|ts|] == os;
  }

  // ---- What the list of signatures holds ----

  /** The transactions whose submission succeeded, in order. */
  function Landed(ts: seq<TransactionData>, caches: seq<Hashes>, rpc: seq<Outcome>): seq<TransactionData>
    requires |ts| == |caches| == |rpc|
  {
    if ts == [] then []
    else
      var n := |ts| - 1;
      Landed(ts[..n], caches[..n], rpc[..n]) + if Admits(caches[n], ts[n]) && rpc[n].Ok? then [ts[n]] else []
  }

  type Serializer = VersionedTransaction -> Option<seq<bv8>>

  /** Every RPC outcome answers the submission of its transaction. */
  ghost predicate AllAnswered(
      ts: seq<TransactionData>, rpc: seq<Outcome>, serialize: Serializer, encode: seq<bv8> -> string,
      sends: seq<seq<Submission>>)
    requires |ts| == |rpc| == |sends|
  {
    forall i :: 0 <= i < |ts| ==> Answers(rpc[i], serialize(ts[i].txn), encode, sends[i])
  }

  ghost predicate EncodingsOf(
      values: seq<string>, ts: seq<TransactionData>, serialize: Serializer, encode: seq<bv8> -> string)
  {
    |values| == |ts| && forall i :: 0 <= i < |ts| ==>
      serialize(ts[i].txn).Some? && values[i] == encode(serialize(ts[i].txn).value)
  }

  /** The i-th entry of the signatures list is the encoding of the bytes of the i-th
      transaction that was admitted and confirmed. */
  lemma {:induction false} SignaturesAreEncodings(
      ts: seq<TransactionData>, caches: seq<Hashes>, rpc: seq<Outcome>, serialize: Serializer,
      encode: seq<bv8> -> string, sends: seq<seq<Submission>>)
    requires |ts| == |caches| == |rpc| == |sends| && AllSigned(ts)
    requires AllAnswered(ts, rpc, serialize, encode, sends)
    ensures EncodingsOf(Values(OutcomesOf(ts, caches, rpc)), Landed(ts, caches, rpc), serialize, encode)
  {
    if ts != [] {
      var n := |ts| - 1;
      SignaturesAreEncodings(ts[..n], caches[..n], rpc[..n], serialize, encode, sends[..n]);
      var os := OutcomesOf(ts, caches, rpc);
      assert os[..n] == OutcomesOf(ts[..n], caches[..n], rpc[..n]);
      assert Answers(rpc[n], serialize(ts[n].txn), encode, sends[n]);
    }
  }

  /** The entry promised for a transaction: its own first signature. */
  ghost predicate SignaturesThemselves(values: seq<string>, ts: seq<TransactionData>)
    requires AllSigned(ts)
  {
    |values| == |ts| && forall i :: 0 <= i < |ts| ==> values[i] == ts[i].txn.signatures[0]
  }

  lemma {:induction false} LandedAreSigned(ts: seq<TransactionData>, caches: seq<Hashes>, rpc: seq<Outcome>)
    requires |ts| == |caches| == |rpc| && AllSigned(ts)
    ensures AllSigned(Landed(ts, caches, rpc))
  {
    if ts != [] {
      var n := |ts| - 1;
      LandedAreSigned(ts[..n], caches[..n], rpc[..n]);
    }
  }

  // ---- No encoding is a signature ----

  const SIGNATURE_BYTES: nat := 64
  const BLOCKHASH_BYTES: nat := 32

  /** What counts of the base58 encoding: it tells byte sequences apart, and 64 bytes take
      at most 88 characters. */
  ghost predicate IsBase58(base58: seq<bv8> -> string) {
    && (forall a, b :: base58(a) == base58(b) ==> a == b)
    && (forall b :: |b| == SIGNATURE_BYTES ==> |base58(b)| <= 88)
  }

  /** What counts of the base64 encoding: four characters for every started three bytes. */
  ghost predicate IsBase64(base64: seq<bv8> -> string) {
    forall b :: |base64(b)| == 4 * ((|b| + 2) / 3)
  }

  ghost predicate IsEncoder(encode: seq<bv8> -> string, base58: seq<bv8> -> string) {
    IsBase64(encode) || forall b :: encode(b) == base58(b)
  }

  /** A signature is printed as the base58 encoding of its 64 bytes. */
  ghost predicate IsSignatureText(text: string, base58: seq<bv8> -> string) {
    exists b: seq<bv8> :: |b| == SIGNATURE_BYTES && base58(b) == text
  }

  /** Serialised transactions carry each signature and the blockhash in full. */
  ghost predicate CarriesSignatures(serialize: Serializer) {
    forall t :: serialize(t).Some? ==> |serialize(t).value| >= SIGNATURE_BYTES * |t.signatures| + BLOCKHASH_BYTES
  }

  lemma {:induction false} EncodingIsNoSignature(
      wire: seq<bv8>, text: string, encode: seq<bv8> -> string, base58: seq<bv8> -> string)
    requires IsBase58(base58) && IsEncoder(encode, base58) && IsSignatureText(text, base58)
    requires |wire| >= SIGNATURE_BYTES + BLOCKHASH_BYTES
    ensures encode(wire) != text
  {
    var b: seq<bv8> :| |b| == SIGNATURE_BYTES && base58(b) == text;
    if IsBase64(encode) {
      assert |encode(wire)| == 4 * ((|wire| + 2) / 3) > 88;
    } else {
      assert encode(wire) == base58(wire);
    }
  }

  lemma {:induction false} LandedAreGiven(ts: seq<TransactionData>, caches: seq<Hashes>, rpc: seq<Outcome>)
    requires |ts| == |caches| == |rpc|
    ensures forall t :: t in Landed(ts, caches, rpc) ==> t in ts
  {
    if ts != [] {
      var n := |ts| - 1;
      LandedAreGiven(ts[..n], caches[..n], rpc[..n]);
    }
  }

  /** So no entry of the list is the signature of the transaction it stands for: the
      response lists the signatures of the landed transactions iff nothing landed. */
  lemma {:induction false} SignaturesAreNeverListed(
      ts: seq<TransactionData>, caches: seq<Hashes>, rpc: seq<Outcome>, serialize: Serializer,
      encode: seq<bv8> -> string, base58: seq<bv8> -> string, sends: seq<seq<Submission>>)
    requires |ts| == |caches| == |rpc| == |sends| && AllSigned(ts)
    requires AllAnswered(ts, rpc, serialize, encode, sends)
    requires IsBase58(base58) && IsEncoder(encode, base58) && CarriesSignatures(serialize)
    requires forall t :: t in ts ==> IsSignatureText(t.txn.signatures[0], base58)
    ensures AllSigned(Landed(ts, caches, rpc))
    ensures forall i :: 0 <= i < |Landed(ts, caches, rpc)| ==>
      i < |Values(OutcomesOf(ts, caches, rpc))|
      && Values(OutcomesOf(ts, caches, rpc))[i] != Landed(ts, caches, rpc)[i].txn.signatures[0]
    ensures SignaturesThemselves(Values(OutcomesOf(ts, caches, rpc)), Landed(ts, caches, rpc))
       <==> Landed(ts, caches, rpc) == []
  {
    LandedAreSigned(ts, caches, rpc);
    LandedAreGiven(ts, caches, rpc);
    SignaturesAreEncodings(ts, caches, rpc, serialize, encode, sends);
    var values, landed := Values(OutcomesOf(ts, caches, rpc)), Landed(ts, caches, rpc);
    forall i | 0 <= i < |landed| ensures values[i] != landed[i].txn.signatures[0] {
      assert landed[i] in landed;
      EncodingIsNoSignature(serialize(landed[i].txn).value, landed[i].txn.signatures[0], encode, base58);
    }
    if landed != [] {
      assert values[0] != landed[0].txn.signatures[0];
    }
  }
}

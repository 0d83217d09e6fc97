// Submission of one bundle transaction through the RPC node: send, retry refused sends,
// then poll for its status until the confirmation timeout
// (src/vendor/solana_rpc.rs, send_and_encode_transaction).
module RpcSubmission {
  import opened Wrappers

  type Outcome = Result<string, string>

  /** Further sends made after a refused one. */
  const DEFAULT_RETRY_COUNT: nat := 3

  /** What one status query finds: confirmed, failed on chain, nothing yet, or an error
      of the query itself. */
  datatype Status = Confirmed | Failed | Pending | Unanswered

  /** How the node answers one send; if it accepts, the statuses found at the queries
      that fit into the timeout. */
  datatype Submission = Refused | Accepted(statuses: seq<Status>)

  ghost predicate Lands(statuses: seq<Status>) {
    exists k :: 0 <= k < |statuses| && FirstNews(statuses, k) && statuses[k] == Confirmed
  }

  ghost predicate FirstNews(statuses: seq<Status>, k: nat)
    requires k < |statuses|
  {
    statuses[k] != Pending && forall j :: 0 <= j < k ==> statuses[j] == Pending
  }

  ghost predicate FirstAccepted(sends: seq<Submission>, a: nat) {
    a < |sends| && sends[a].Accepted? && forall j :: 0 <= j < a ==> sends[j].Refused?
  }

  /** `r` answers a submission: it succeeds iff the transaction serialises, some send is
      accepted, and the first news of the first accepted one is its confirmation. What
      it then returns is the encoding of the serialised bytes. */
  ghost predicate Answers(r: Outcome, wire: Option<seq<bv8>>, encode: seq<bv8> -> string, sends: seq<Submission>) {
    && (r.Ok? <==> wire.Some? && exists a: nat :: FirstAccepted(sends, a) && Lands(sends[a].statuses))
    && (r.Ok? ==> r.value == encode(wire.value))
  }

  /** `wire` is None where serialisation fails, which it does beyond the packet size. */
  method SendAndEncode(wire: Option<seq<bv8>>, encode: seq<bv8> -> string, sends: seq<Submission>)
    returns (r: Outcome, attempts: nat)
    requires |sends| == DEFAULT_RETRY_COUNT + 1
    ensures Answers(r, wire, encode, sends)
    ensures attempts == 0 <==> wire == None
    ensures attempts <= DEFAULT_RETRY_COUNT + 1
    ensures forall j :: 0 <= j < attempts - 1 ==> sends[j].Refused?
    ensures 0 < attempts <= DEFAULT_RETRY_COUNT ==> sends[attempts - 1].Accepted?
  {
    attempts := 0;
    if wire == None {
      return Err("failed to serialize"), attempts;
    }
    while attempts <= DEFAULT_RETRY_COUNT
      invariant attempts <= DEFAULT_RETRY_COUNT + 1
      invariant forall j :: 0 <= j < attempts ==> sends[j].Refused?
    {
      attempts := attempts + 1;
      if sends[attempts - 1].Accepted? {
        var confirmed := AwaitConfirmation(sends[attempts - 1].statuses);
        assert forall a: nat :: FirstAccepted(sends, a) <==> a == attempts - 1;
        r := if confirmed then Ok(encode(wire.value)) else Err("Transaction not confirmed");
        return;
      }
    }
    r := Err("Failed to send transaction");
  }

  /** The polling loop: a failed transaction, a failed query and running out of time are
      all the same to the caller. */
  method AwaitConfirmation(statuses: seq<Status>) returns (confirmed: bool)
    ensures confirmed <==> Lands(statuses)
  {
    for k := 0 to |statuses|
      invariant forall j :: 0 <= j < k ==> statuses[j] == Pending
    {
      match statuses[k] {
        case Pending =>
        case Confirmed =>
          assert FirstNews(statuses, k);
          return true;
        case _ =>
          assert FirstNews(statuses, k);
          return false;
      }
    }
    confirmed := false;
  }
}

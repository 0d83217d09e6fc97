// What is sent to whom: the bytes of a transaction go to every scanned leader that has a
// QUIC address (src/infrastructure/txn_sender.rs, the loops over get_leaders).
module Sends {
  import opened Wrappers
  import opened Sums
  import opened LeaderScan

  datatype Send = Send(wire: seq<bv8>, leader: ContactInfo)

  /** The sends of one wire, in leader order. */
  function SendsOf(wire: seq<bv8>, leaders: seq<ContactInfo>): seq<Send> {
    if leaders == [] then []
    else
      var n := |leaders| - 1;
      SendsOf(wire, leaders[..n]) + if leaders[n].tpuQuic.Some? then [Send(wire, leaders[n])] else []
  }

  /** The k-th send takes the wire to the leader in place at[k], and these places are
      those of all leaders with an address, in order. */
  ghost predicate SentAt(sends: seq<Send>, wire: seq<bv8>, leaders: seq<ContactInfo>, at: seq<nat>) {
    && |at| == |sends| && StrictlyIncreasing(at)
    && (forall k :: 0 <= k < |at| ==>
          at[k] < |leaders| && leaders[at[k]].tpuQuic.Some? && sends[k] == Send(wire, leaders[at[k]]))
    && (forall i: nat :: i < |leaders| && leaders[i].tpuQuic.Some? ==> i in at)
  }

  /** One send of the wire to every leader with an address, in order, and no other. */
  ghost predicate SentToAll(sends: seq<Send>, wire: seq<bv8>, leaders: seq<ContactInfo>) {
    exists at :: SentAt(sends, wire, leaders, at)
  }

  lemma PlacesOneMore(sends: seq<Send>, wire: seq<bv8>, leaders: seq<ContactInfo>, leader: ContactInfo, at: seq<nat>)
    requires SentAt(sends, wire, leaders, at) && leader.tpuQuic.Some?
    ensures SentAt(sends + [Send(wire, leader)], wire, leaders + [leader], at + [|leaders|])
  {
    forall i: nat | i < |leaders + [leader]| && (leaders + [leader])[i].tpuQuic.Some? ensures i in at + [|leaders|] {
      if i < |leaders| {
        assert leaders[i].tpuQuic.Some? && i in at;
      } else {
        assert (at + [|leaders|])[|at|] == i;
      }
    }
  }

  lemma PlacesSkipOne(sends: seq<Send>, wire: seq<bv8>, leaders: seq<ContactInfo>, leader: ContactInfo, at: seq<nat>)
    requires SentAt(sends, wire, leaders, at) && leader.tpuQuic == None
    ensures SentAt(sends, wire, leaders + [leader], at)
  {
    forall i: nat | i < |leaders + [leader]| && (leaders + [leader])[i].tpuQuic.Some? ensures i in at {
      assert leaders[i].tpuQuic.Some?;
    }
  }

  lemma {:induction false} SendsOfPlaces(wire: seq<bv8>, leaders: seq<ContactInfo>) returns (at: seq<nat>)
    ensures SentAt(SendsOf(wire, leaders), wire, leaders, at)
  {
    at := [];
    if leaders != [] {
      var n := |leaders| - 1;
      at := SendsOfPlaces(wire, leaders[..n]);
      assert leaders == leaders[..n] + [leaders[n]];
      if leaders[n].tpuQuic.Some? {
        PlacesOneMore(SendsOf(wire, leaders[..n]), wire, leaders[..n], leaders[n], at);
        at := at + [n];
      } else {
        PlacesSkipOne(SendsOf(wire, leaders[..n]), wire, leaders[..n], leaders[n], at);
      }
    }
  }

  lemma SendsOfReachAll(wire: seq<bv8>, leaders: seq<ContactInfo>)
    ensures SentToAll(SendsOf(wire, leaders), wire, leaders)
  {
    var at := SendsOfPlaces(wire, leaders);
  }

  /** The places of the leaders with an address. */
  ghost function WithAddress(leaders: seq<ContactInfo>): set<nat> {
    set i: nat | i < |leaders| && leaders[i].tpuQuic.Some?
  }

  /** As many sends as leaders with an address. */
  lemma {:induction false} SendCount(wire: seq<bv8>, leaders: seq<ContactInfo>)
    ensures |SendsOf(wire, leaders)| == |WithAddress(leaders)| <= |leaders|
  {
    if leaders == [] {
      assert WithAddress(leaders) == {};
    } else {
      var n := |leaders| - 1;
      SendCount(wire, leaders[..n]);
      assert WithAddress(leaders) == WithAddress(leaders[..n]) + if leaders[n].tpuQuic.Some? then {n} else {};
    }
  }

  lemma {:induction false} AllHaveAddress(wire: seq<bv8>, leaders: seq<ContactInfo>)
    requires forall leader :: leader in leaders ==> leader.tpuQuic.Some?
    ensures |SendsOf(wire, leaders)| == |leaders|
  {
    if leaders != [] {
      AllHaveAddress(wire, leaders[..|leaders| - 1]);
    }
  }

  // ---- Several wires ----

  /** The sends of a turn; the leaders are scanned anew for every wire. */
  function SendsOfAll(wires: seq<seq<bv8>>, scans: seq<seq<ContactInfo>>): seq<Send>
    requires |wires| == |scans|
  {
    if wires == [] then []
    else
      var n := |wires| - 1;
      SendsOfAll(wires[..n], scans[..n]) + SendsOf(wires[n], scans[n])
  }

  function Concat(blocks: seq<seq<Send>>): seq<Send> {
    if blocks == [] then [] else Concat(blocks[..|blocks| - 1]) + blocks[|blocks| - 1]
  }

  ghost predicate SentInBlocks(
      sends: seq<Send>, wires: seq<seq<bv8>>, scans: seq<seq<ContactInfo>>, blocks: seq<seq<Send>>)
  {
    && |blocks| == |scans| == |wires| && sends == Concat(blocks)
    && forall k :: 0 <= k < |wires| ==> SentToAll(blocks[k], wires[k], scans[k])
  }

  /** The sends are one block after the other, and block k takes wire k to all leaders
      of scan k that have an address. */
  ghost predicate AllSent(sends: seq<Send>, wires: seq<seq<bv8>>, scans: seq<seq<ContactInfo>>) {
    exists blocks :: SentInBlocks(sends, wires, scans, blocks)
  }

  lemma OneMoreBlock(
      sends: seq<Send>, wires: seq<seq<bv8>>, scans: seq<seq<ContactInfo>>,
      more: seq<Send>, wire: seq<bv8>, scan: seq<ContactInfo>)
    requires AllSent(sends, wires, scans) && SentToAll(more, wire, scan)
    ensures AllSent(sends + more, wires + [wire], scans + [scan])
  {
    var blocks :| SentInBlocks(sends, wires, scans, blocks);
    assert (blocks + [more])[..|blocks|] == blocks;
    assert SentInBlocks(sends + more, wires + [wire], scans + [scan], blocks + [more]);
  }

  lemma {:induction false} SendsOfAllReachAll(wires: seq<seq<bv8>>, scans: seq<seq<ContactInfo>>)
    requires |wires| == |scans|
    ensures AllSent(SendsOfAll(wires, scans), wires, scans)
  {
    if wires == [] {
      assert SentInBlocks([], wires, scans, []);
    } else {
      var n := |wires| - 1;
      SendsOfAllReachAll(wires[..n], scans[..n]);
      SendsOfReachAll(wires[n], scans[n]);
      OneMoreBlock(SendsOfAll(wires[..n], scans[..n]), wires[..n], scans[..n],
                   SendsOf(wires[n], scans[n]), wires[n], scans[n]);
      assert wires == wires[..n] + [wires[n]] && scans == scans[..n] + [scans[n]];
    }
  }
}

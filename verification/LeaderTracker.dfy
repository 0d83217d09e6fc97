// The leader tracker: a running-maximum slot counter, a slot-to-contact cache that a
// poller refills and prunes, and the scan that picks the next leaders
// (src/infrastructure/leader_tracker.rs).
module LeaderTrackers {
  import opened Wrappers
  import opened MachineWords
  import opened LeaderScan

  const NUM_LEADERS_PER_SLOT: nat := 4

  type Cache = map<U64, ContactInfo>

  /** Both multiplication and addition wrap in 64 bits; a nonpositive buffer is
      subtracted as an unsigned magnitude. */
  function GetStartSlot(nextSlot: U64, leaderOffset: int): U64 {
    var buffer := WrappedSigned(leaderOffset * NUM_LEADERS_PER_SLOT);
    if buffer > 0 then Wrapped(nextSlot + buffer) else Wrapped(nextSlot - Abs(buffer))
  }

  /** For every offset the start slot is nextSlot + 4 * offset modulo 2^64; it is the
      sum itself exactly when the sum is a 64-bit slot. */
  lemma {:induction false} StartSlotIsWrappedSum(nextSlot: U64, leaderOffset: int)
    ensures GetStartSlot(nextSlot, leaderOffset) == Wrapped(nextSlot + 4 * leaderOffset)
    ensures GetStartSlot(nextSlot, leaderOffset) == nextSlot + 4 * leaderOffset
       <==> 0 <= nextSlot + 4 * leaderOffset < TWO_64
  {
    var buffer := WrappedSigned(leaderOffset * NUM_LEADERS_PER_SLOT);
    assert GetStartSlot(nextSlot, leaderOffset) == Wrapped(nextSlot + buffer);
    WrappedIsCongruent(nextSlot + buffer, nextSlot + 4 * leaderOffset);
  }

  /** With offset -1 a slot below 4 lands just under 2^64 instead of behind the slot. */
  lemma EarlySlotUnderflows()
    ensures GetStartSlot(1, -1) == TWO_64 - 3
    ensures forall next: U64 :: GetStartSlot(next, -1) <= next <==> next >= 4
  {
    forall next: U64 ensures GetStartSlot(next, -1) <= next <==> next >= 4 {
      StartSlotIsWrappedSum(next, -1);
    }
  }

  function Advanced(curSlot: U64, sample: Option<U64>, leaderOffset: int): U64 {
    match sample
    case None => curSlot
    case Some(slot) =>
      var start := GetStartSlot(slot, leaderOffset);
      if start > curSlot then start else curSlot
  }

  /** Cluster nodes by public key; a later duplicate wins. */
  function NodeMap(nodes: seq<ContactInfo>): map<string, ContactInfo> {
    if nodes == [] then map[]
    else NodeMap(nodes[..|nodes| - 1])[nodes[|nodes| - 1].pubkey := nodes[|nodes| - 1]]
  }

  /** The i-th node is the last of the list with this public key. */
  ghost predicate LastNode(nodes: seq<ContactInfo>, pubkey: string, i: nat) {
    && i < |nodes| && nodes[i].pubkey == pubkey
    && forall j :: i < j < |nodes| ==> nodes[j].pubkey != pubkey
  }

  /** A key is in the map iff some listed node has it, and stands for the last such node. */
  lemma {:induction false} NodeMapMeaning(nodes: seq<ContactInfo>, pubkey: string)
    ensures pubkey in NodeMap(nodes) <==> exists i :: 0 <= i < |nodes| && nodes[i].pubkey == pubkey
    ensures pubkey in NodeMap(nodes) ==> exists i: nat :: LastNode(nodes, pubkey, i) && NodeMap(nodes)[pubkey] == nodes[i]
  {
    if nodes != [] {
      var n := |nodes| - 1;
      NodeMapMeaning(nodes[..n], pubkey);
      if nodes[n].pubkey == pubkey {
        assert LastNode(nodes, pubkey, n);
      } else if pubkey in NodeMap(nodes[..n]) {
        var i: nat :| LastNode(nodes[..n], pubkey, i) && NodeMap(nodes[..n])[pubkey] == nodes[..n][i];
        assert LastNode(nodes, pubkey, i) && nodes[i] == nodes[..n][i];
      }
    }
  }

  lemma {:induction false} NodeMapKeyed(nodes: seq<ContactInfo>)
    ensures forall k :: k in NodeMap(nodes) ==> NodeMap(nodes)[k].pubkey == k
  {
    if nodes != [] {
      NodeMapKeyed(nodes[..|nodes| - 1]);
    }
  }

  /** Caches one leader of the reply, if its contact is known. */
  function Filled(cache: Cache, slot: U64, leader: string, nodes: map<string, ContactInfo>): Cache {
    if leader in nodes then cache[slot := nodes[leader]] else cache
  }

  function FilledUpTo(cache: Cache, next: U64, leaders: seq<string>, nodes: map<string, ContactInfo>): Cache {
    if leaders == [] then cache
    else
      var i := |leaders| - 1;
      Filled(FilledUpTo(cache, next, leaders[..i], nodes), Wrapped(next + i), leaders[i], nodes)
  }

  function Pruned(cache: Cache, cut: U64): Cache {
    map k | k in cache && cut <= k :: cache[k]
  }

  lemma {:induction false} FilledSlot(
      cache: Cache, next: U64, leaders: seq<string>, nodes: map<string, ContactInfo>, slot: U64)
    requires next + |leaders| <= TWO_64
    ensures Read(FilledUpTo(cache, next, leaders, nodes), slot)
         == if next <= slot < next + |leaders| && leaders[slot - next] in nodes then Some(nodes[leaders[slot - next]])
            else Read(cache, slot)
  {
    if leaders != [] {
      var i := |leaders| - 1;
      FilledSlot(cache, next, leaders[..i], nodes, slot);
      assert Wrapped(next + i) == next + i;
    }
  }

  /** What a successful poll leaves at every slot: nothing below the clean-up slot;
      above it the replied leader's contact where known, and otherwise what was there. */
  lemma {:induction false} PollOutcome(
      cache: Cache, next: U64, leaders: seq<string>, nodes: map<string, ContactInfo>, cut: U64, slot: U64)
    requires next + |leaders| <= TWO_64
    ensures Read(Pruned(FilledUpTo(cache, next, leaders, nodes), cut), slot)
         == if slot < cut then None
            else if next <= slot < next + |leaders| && leaders[slot - next] in nodes then Some(nodes[leaders[slot - next]])
            else Read(cache, slot)
  {
    FilledSlot(cache, next, leaders, nodes, slot);
  }

  ghost predicate IsListed(nodes: seq<ContactInfo>, pubkey: string) {
    exists i :: 0 <= i < |nodes| && nodes[i].pubkey == pubkey
  }

  /** What a successful poll leaves at a slot, told on the two replies: nothing below the
      clean-up slot; at a replied slot, if its leader is listed, the last listed node of
      that leader; and otherwise what was there. */
  ghost predicate PolledSlot(
      now: Cache, was: Cache, next: U64, leaders: seq<string>, nodes: seq<ContactInfo>, cut: U64, slot: U64)
  {
    if slot < cut then slot !in now
    else if next <= slot < next + |leaders| && IsListed(nodes, leaders[slot - next]) then
      slot in now && exists i: nat :: LastNode(nodes, leaders[slot - next], i) && now[slot] == nodes[i]
    else Read(now, slot) == Read(was, slot)
  }

  lemma {:induction false} PollOnReplies(
      cache: Cache, next: U64, leaders: seq<string>, nodes: seq<ContactInfo>, cut: U64, slot: U64)
    requires next + |leaders| <= TWO_64
    ensures PolledSlot(Pruned(FilledUpTo(cache, next, leaders, NodeMap(nodes)), cut), cache, next, leaders, nodes, cut, slot)
  {
    PollOutcome(cache, next, leaders, NodeMap(nodes), cut, slot);
    if next <= slot < next + |leaders| {
      NodeMapMeaning(nodes, leaders[slot - next]);
    }
  }

  /** The half-open slot range start..end computed by get_leaders; empty when the end
      wraps around. */
  function WindowEnd(start: U64, numLeaders: nat): U64 {
    Wrapped(start + Wrapped(numLeaders * NUM_LEADERS_PER_SLOT))
  }

  function WindowSize(start: U64, numLeaders: nat): nat {
    var end := WindowEnd(start, numLeaders);
    if start < end then end - start else 0
  }

  lemma {:induction false} WindowSizeExact(start: U64, numLeaders: nat)
    ensures WindowSize(start, numLeaders) <= 4 * numLeaders
    ensures WindowSize(start, numLeaders) == 4 * numLeaders <==> start + 4 * numLeaders < TWO_64 || numLeaders == 0
  {
    var wide := numLeaders * NUM_LEADERS_PER_SLOT;
    assert wide % TWO_64 <= wide;
  }

  function Read(cache: Cache, slot: int): Reading {
    if slot in cache then Some(cache[slot]) else None
  }

  function View(cache: Cache, start: U64, size: nat): (view: seq<Reading>)
    ensures |view| == size && forall i :: 0 <= i < size ==> view[i] == Read(cache, start + i)
  {
    seq(size, i requires 0 <= i < size => Read(cache, start + i))
  }

  /** With the whole window cached and the next numLeaders groups led by different
      leaders, get_leaders returns exactly those leaders in group order, from any
      start slot whose window does not wrap. */
  lemma {:induction false} FullCacheGivesGroups(cache: Cache, start: U64, numLeaders: nat, leaderOf: nat -> string)
    requires start + 4 * numLeaders < TWO_64
    requires forall slot: nat :: start <= slot < start + 4 * numLeaders ==>
      ReadsLeader(Read(cache, slot), leaderOf(slot / 4))
    requires Repeatless(Groups(leaderOf, start / 4, numLeaders))
    ensures KeysOf(Scan(View(cache, start, WindowSize(start, numLeaders)), numLeaders))
         == Groups(leaderOf, start / 4, numLeaders)
  {
    WindowSizeExact(start, numLeaders);
    var view := View(cache, start, 4 * numLeaders);
    forall j | 0 <= j < |view| ensures ReadsLeader(view[j], leaderOf((start + j) / 4)) {
      assert view[j] == Read(cache, start + j);
    }
    WindowCoversGroups(view, start, numLeaders, leaderOf);
  }

  class LeaderTracker {
    var curSlot: U64
    var curLeaders: Cache
    const numLeaders: nat
    const leaderOffset: int

    constructor (numLeaders: nat, leaderOffset: int)
      ensures curSlot == 0 && curLeaders == map[]
      ensures this.numLeaders == numLeaders && this.leaderOffset == leaderOffset
    {
      this.numLeaders, this.leaderOffset := numLeaders, leaderOffset;
      curSlot, curLeaders := 0, map[];
    }

    /** One turn of poll_slot with the slot sampled from the geyser stream. */
    method PollSlot(nextSlot: Option<U64>)
      modifies this`curSlot
      ensures curSlot == Advanced(old(curSlot), nextSlot, leaderOffset)
      ensures old(curSlot) <= curSlot
    {
      if nextSlot.Some? {
        var startSlot := GetStartSlot(nextSlot.value, leaderOffset);
        if startSlot > curSlot {
          curSlot := startSlot;
        }
      }
    }

    method CleanUpSlotLeaders()
      modifies this`curLeaders
      ensures curLeaders == Pruned(old(curLeaders), curSlot)
    {
      var slotsToRemove: seq<U64> := [];
      var todo := curLeaders.Keys;
      while todo != {}
        invariant todo <= curLeaders.Keys
        invariant forall s :: s in slotsToRemove <==> s in curLeaders.Keys - todo && s < curSlot
      {
        var slot :| slot in todo;
        if slot < curSlot {
          slotsToRemove := slotsToRemove + [slot];
        }
        todo := todo - {slot};
      }
      for i := 0 to |slotsToRemove|
        invariant curLeaders == old(curLeaders) - set s | s in slotsToRemove[..i]
      {
        curLeaders := curLeaders - {slotsToRemove[i]};
      }
      assert slotsToRemove[..|slotsToRemove|] == slotsToRemove;
    }

    /** One poll, given what the two RPC calls returned. A failed call leaves the
        cache alone, otherwise the reply is cached and passed slots are dropped. */
    method PollSlotLeadersOnce(slotLeaders: Result<seq<string>, string>, clusterNodes: Result<seq<ContactInfo>, string>)
      returns (result: Result<(), string>)
      modifies this`curLeaders
      ensures result.Ok? <==> slotLeaders.Ok? && clusterNodes.Ok?
      ensures result.Err? ==> curLeaders == old(curLeaders)
      ensures result.Ok? ==>
        curLeaders == Pruned(FilledUpTo(old(curLeaders), curSlot, slotLeaders.value, NodeMap(clusterNodes.value)), curSlot)
      ensures result.Ok? && curSlot + |slotLeaders.value| <= TWO_64 ==> forall slot: U64 ::
        PolledSlot(curLeaders, old(curLeaders), curSlot, slotLeaders.value, clusterNodes.value, curSlot, slot)
    {
      var nextSlot := curSlot;
      if slotLeaders.Err? {
        return Err("Error getting slot leaders: " + slotLeaders.error);
      }
      if clusterNodes.Err? {
        return Err("Error getting cluster nodes: " + clusterNodes.error);
      }
      var leaders, nodes := slotLeaders.value, clusterNodes.value;
      var nodeMap: map<string, ContactInfo> := map[];
      for i := 0 to |nodes|
        invariant nodeMap == NodeMap(nodes[..i])
      {
        nodeMap := nodeMap[nodes[i].pubkey := nodes[i]];
        assert nodes[..i + 1][..i] == nodes[..i];
      }
      assert nodes[..|nodes|] == nodes;
      for i := 0 to |leaders|
        invariant curLeaders == FilledUpTo(old(curLeaders), nextSlot, leaders[..i], nodeMap)
      {
        if leaders[i] in nodeMap {
          curLeaders := curLeaders[Wrapped(nextSlot + i) := nodeMap[leaders[i]]];
        }
        assert leaders[..i + 1][..i] == leaders[..i];
      }
      assert leaders[..|leaders|] == leaders;
      CleanUpSlotLeaders();
      result := Ok(());
      forall slot: U64 | curSlot + |leaders| <= TWO_64
        ensures PolledSlot(curLeaders, old(curLeaders), curSlot, leaders, nodes, curSlot, slot)
      {
        PollOnReplies(old(curLeaders), curSlot, leaders, nodes, curSlot, slot);
      }
    }

    /** Scans the window from the current slot; refines the pure scan. */
    method GetLeaders() returns (leaders: seq<ContactInfo>)
      ensures leaders == ValuesOf(Scan(View(curLeaders, curSlot, WindowSize(curSlot, numLeaders)), numLeaders))
      ensures |leaders| <= numLeaders
    {
      var start := curSlot;
      var end := WindowEnd(start, numLeaders);
      var size := if start < end then end - start else 0;
      WindowSizeExact(start, numLeaders);
      var found := ScanSlots(start, size);
      leaders := ValuesOf(found);
      ScanRefines(View(curLeaders, start, size), numLeaders);
    }

    method ScanSlots(start: U64, size: nat) returns (found: IndexMap)
      ensures found == Scan(View(curLeaders, start, size), numLeaders)
    {
      ghost var view := View(curLeaders, start, size);
      found := [];
      var i := 0;
      while i < size
        invariant i <= size
        invariant ScanFrom(found, view[i..], numLeaders) == Scan(view, numLeaders)
      {
        ghost var rest := view[i..];
        assert rest[1..] == view[i + 1..] && rest[0] == view[i];
        if start + i in curLeaders {
          var leader := curLeaders[start + i];
          found := Upsert(found, leader.pubkey, leader);
        }
        if |found| >= numLeaders {
          return;
        }
        i := i + 1;
      }
    }
  }
}

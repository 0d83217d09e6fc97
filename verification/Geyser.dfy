// The recent-blockhash cache: insert, then drop everything whose wrapped distance to
// the block's slot exceeds 150 (src/infrastructure/grpc_geyser.rs, poll_blocks).
module BlockhashWindow {
  import opened MachineWords
  import opened Sums

  const MAX_SLOT_AGE: nat := 150

  type Hashes = map<string, U64>

  /** What reaches the cache: the hash seeded at start-up, a block, or a block whose
      hash does not parse and is skipped. */
  datatype Message = Seed(hash: string, slot: U64) | Block(hash: string, slot: U64) | Malformed

  predicate Fresh(current: U64, slot: U64) {
    Wrapped(current - slot) <= MAX_SLOT_AGE
  }

  function Retained(m: Hashes, current: U64): Hashes {
    map h | h in m && Fresh(current, m[h]) :: m[h]
  }

  function Handled(m: Hashes, msg: Message): Hashes {
    match msg
    case Seed(hash, slot) => m[hash := slot]
    case Block(hash, slot) => Retained(m[hash := slot], slot)
    case Malformed => m
  }

  function HashesAfter(history: seq<Message>): Hashes {
    if history == [] then map[] else Handled(HashesAfter(history[..|history| - 1]), history[|history| - 1])
  }

  ghost predicate LastInsertion(history: seq<Message>, hash: string, slot: U64, i: nat) {
    && i < |history| && !history[i].Malformed? && history[i].hash == hash && history[i].slot == slot
    && (forall j :: i < j < |history| ==> history[j].Malformed? || history[j].hash != hash)
  }

  ghost predicate FreshSince(history: seq<Message>, slot: U64, i: nat) {
    forall j :: i <= j < |history| && history[j].Block? ==> Fresh(history[j].slot, slot)
  }

  /** For any two 64-bit slots: fresh means at most 150 behind the current slot, or,
      across the wrap-around, at most 150 behind it modulo 2^64. */
  lemma FreshMeans(current: U64, slot: U64)
    ensures Fresh(current, slot) <==> slot <= current <= slot + MAX_SLOT_AGE || current + TWO_64 <= slot + MAX_SLOT_AGE
  {
    if current < slot {
      assert Wrapped(current - slot) == current - slot + TWO_64;
    }
  }

  /** The exact window, over every history including out-of-order slots: a hash is
      cached with a slot iff its last insertion carried that slot and every block
      handled from then on was fresh for it. */
  lemma {:induction false} WindowExact(history: seq<Message>, hash: string, slot: U64)
    ensures hash in HashesAfter(history) && HashesAfter(history)[hash] == slot
       <==> exists i :: LastInsertion(history, hash, slot, i) && FreshSince(history, slot, i)
  {
    if history != [] {
      var n := |history| - 1;
      var front, last := history[..n], history[n];
      WindowExact(front, hash, slot);
      if last.Malformed? || last.hash != hash {
        forall i: nat ensures LastInsertion(history, hash, slot, i) <==> LastInsertion(front, hash, slot, i) {
        }
        forall i: nat | LastInsertion(front, hash, slot, i)
          ensures FreshSince(history, slot, i) <==> FreshSince(front, slot, i) && (last.Block? ==> Fresh(last.slot, slot))
        {
          FreshSinceAppend(history, slot, i);
        }
      } else {
        forall i: nat | LastInsertion(history, hash, slot, i) ensures i == n {
        }
        if last.slot == slot {
          assert LastInsertion(history, hash, slot, n) && FreshSince(history, slot, n);
        }
      }
    }
  }

  lemma {:induction false} FreshSinceAppend(history: seq<Message>, slot: U64, i: nat)
    requires i < |history|
    ensures FreshSince(history, slot, i)
       <==> FreshSince(history[..|history| - 1], slot, i)
            && (history[|history| - 1].Block? ==> Fresh(history[|history| - 1].slot, slot))
  {
    var front := history[..|history| - 1];
    if FreshSince(history, slot, i) {
      forall j | i <= j < |front| && front[j].Block? ensures Fresh(front[j].slot, slot) {
        assert history[j] == front[j];
      }
    }
    if FreshSince(front, slot, i) && (history[|history| - 1].Block? ==> Fresh(history[|history| - 1].slot, slot)) {
      forall j | i <= j < |history| && history[j].Block? ensures Fresh(history[j].slot, slot) {
        assert j < |front| ==> history[j] == front[j];
      }
    }
  }

  ghost predicate SlotsInOrder(history: seq<Message>) {
    forall i, j :: 0 <= i < j < |history| && !history[i].Malformed? && !history[j].Malformed? ==>
      history[i].slot <= history[j].slot
  }

  /** When slots never go backwards, the cache after a block holds exactly the hashes
      last inserted within 150 slots of it. */
  lemma {:induction false} WindowInOrder(history: seq<Message>, hash: string, slot: U64)
    requires SlotsInOrder(history) && history != [] && history[|history| - 1].Block?
    ensures hash in HashesAfter(history) && HashesAfter(history)[hash] == slot
       <==> exists i :: LastInsertion(history, hash, slot, i) && history[|history| - 1].slot <= slot + MAX_SLOT_AGE
  {
    var newest := history[|history| - 1].slot;
    WindowExact(history, hash, slot);
    forall i: nat | LastInsertion(history, hash, slot, i)
      ensures FreshSince(history, slot, i) <==> newest <= slot + MAX_SLOT_AGE
    {
      FreshMeans(newest, slot);
      if newest <= slot + MAX_SLOT_AGE {
        forall j | i <= j < |history| && history[j].Block? ensures Fresh(history[j].slot, slot) {
          FreshMeans(history[j].slot, slot);
        }
      }
    }
  }

  ghost predicate DistinctSlots(m: Hashes) {
    forall g, h :: g in m && h in m && m[g] == m[h] ==> g == h
  }

  lemma {:induction false} AgeTellsSlots(current: U64, s: U64, t: U64)
    requires Wrapped(current - s) == Wrapped(current - t)
    ensures s == t
  {
    var p, q := (current - s) / TWO_64, (current - t) / TWO_64;
    assert t - s == (p - q) * TWO_64;
  }

  ghost function AgeAt(current: U64): U64 -> int {
    slot => Wrapped(current - slot)
  }

  lemma {:induction false} RetainedAges(m: Hashes, current: U64)
    ensures forall age :: age in Image(Retained(m, current), AgeAt(current)) ==> 0 <= age < MAX_SLOT_AGE + 1
  {
  }

  lemma {:induction false} AgesTellHashes(m: Hashes, current: U64)
    requires DistinctSlots(m)
    ensures |Image(m, AgeAt(current))| == |m|
  {
    forall g, h | g in m && h in m && AgeAt(current)(m[g]) == AgeAt(current)(m[h]) ensures g == h {
      AgeTellsSlots(current, m[g], m[h]);
    }
    ImageSize(m, AgeAt(current));
  }

  /** Right after any block, whatever came before, at most 151 hashes are cached if no
      two of them share a slot. */
  lemma {:induction false} AtMost151(history: seq<Message>)
    requires history != [] && history[|history| - 1].Block?
    requires DistinctSlots(HashesAfter(history))
    ensures |HashesAfter(history)| <= MAX_SLOT_AGE + 1
  {
    var front, last := HashesAfter(history[..|history| - 1]), history[|history| - 1];
    var m := Retained(front[last.hash := last.slot], last.slot);
    RetainedAges(front[last.hash := last.slot], last.slot);
    AgesTellHashes(m, last.slot);
    IntervalSize(Image(m, AgeAt(last.slot)), 0, MAX_SLOT_AGE + 1);
  }
}

// The signature cache and the waiters that poll it, on an explicit millisecond clock
// (src/infrastructure/grpc_geyser.rs, clean_signature_cache and confirm_transaction).
module SignatureCache {
  import opened Wrappers

  const RETENTION_SECS: nat := 90
  const RETENTION_MS: nat := 90_000
  const DEADLINE_MS: nat := 60_000
  const POLL_MS: nat := 10

  datatype Sighting = Sighting(blockTime: int, insertedAt: nat)

  type Sightings = map<string, Sighting>

  datatype What = Deliver(signature: string, blockTime: int) | Clean | Wake

  /** One moment of the timeline: a confirmed block is delivered, the cleaner runs, or
      some waiter wakes up and looks. */
  datatype Moment = Moment(at: nat, what: What)

  /** Whole elapsed seconds below the retention. */
  predicate Young(now: nat, s: Sighting) {
    now < s.insertedAt || (now - s.insertedAt) / 1000 < RETENTION_SECS
  }

  function Advanced(m: Sightings, e: Moment): Sightings {
    match e.what
    case Deliver(signature, blockTime) => m[signature := Sighting(blockTime, e.at)]
    case Clean => map s | s in m && Young(e.at, m[s]) :: m[s]
    case Wake => m
  }

  function AdvancedAll(m: Sightings, es: seq<Moment>): Sightings {
    if es == [] then m else Advanced(AdvancedAll(m, es[..|es| - 1]), es[|es| - 1])
  }

  function CacheAfter(timeline: seq<Moment>): Sightings {
    AdvancedAll(map[], timeline)
  }

  predicate InOrder(timeline: seq<Moment>) {
    forall i, j :: 0 <= i <= j < |timeline| ==> timeline[i].at <= timeline[j].at
  }

  predicate Delivers(e: Moment, signature: string) {
    e.what.Deliver? && e.what.signature == signature
  }

  ghost predicate LastDelivery(timeline: seq<Moment>, signature: string, i: nat) {
    && i < |timeline| && Delivers(timeline[i], signature)
    && (forall j :: i < j < |timeline| ==> !Delivers(timeline[j], signature))
  }

  ghost predicate Unswept(timeline: seq<Moment>, i: nat)
    requires i < |timeline|
  {
    forall j :: i < j < |timeline| && timeline[j].what.Clean? ==> timeline[j].at < timeline[i].at + RETENTION_MS
  }

  ghost predicate CachedFrom(timeline: seq<Moment>, signature: string, s: Sighting, i: nat) {
    LastDelivery(timeline, signature, i) && Unswept(timeline, i)
    && s == Sighting(timeline[i].what.blockTime, timeline[i].at)
  }

  /** A sighting is cached iff it is the signature's last delivery and every later
      cleaner run came less than 90 s after it. */
  lemma {:induction false} CachedExactly(timeline: seq<Moment>, signature: string, s: Sighting)
    requires InOrder(timeline)
    ensures signature in CacheAfter(timeline) && CacheAfter(timeline)[signature] == s
       <==> exists i :: CachedFrom(timeline, signature, s, i)
  {
    if timeline != [] {
      var n := |timeline| - 1;
      var front, last := timeline[..n], timeline[n];
      CachedExactly(front, signature, s);
      if Delivers(last, signature) {
        forall i: nat | CachedFrom(timeline, signature, s, i) ensures i == n {
        }
        if s == Sighting(last.what.blockTime, last.at) {
          assert CachedFrom(timeline, signature, s, n);
        }
      } else {
        forall i: nat | i < n
          ensures CachedFrom(timeline, signature, s, i)
             <==> CachedFrom(front, signature, s, i) && (last.what.Clean? ==> Young(last.at, s))
        {
          CachedFromAppend(timeline, signature, s, i);
        }
        assert !CachedFrom(timeline, signature, s, n);
      }
    }
  }

  lemma {:induction false} CachedFromAppend(timeline: seq<Moment>, signature: string, s: Sighting, i: nat)
    requires InOrder(timeline) && i < |timeline| - 1 && !Delivers(timeline[|timeline| - 1], signature)
    ensures CachedFrom(timeline, signature, s, i)
       <==> CachedFrom(timeline[..|timeline| - 1], signature, s, i)
            && (timeline[|timeline| - 1].what.Clean? ==> Young(timeline[|timeline| - 1].at, s))
  {
    var front, last := timeline[..|timeline| - 1], timeline[|timeline| - 1];
    assert front[i] == timeline[i] && timeline[i].at <= last.at;
    assert LastDelivery(timeline, signature, i) <==> LastDelivery(front, signature, i) by {
      forall j | i < j < |front| ensures timeline[j] == front[j] {
      }
    }
    if Unswept(front, i) && (last.what.Clean? ==> last.at < timeline[i].at + RETENTION_MS) {
      forall j | i < j < |timeline| && timeline[j].what.Clean? ensures timeline[j].at < timeline[i].at + RETENTION_MS {
        assert j < |front| ==> timeline[j] == front[j];
      }
    }
    if Unswept(timeline, i) {
      forall j | i < j < |front| && front[j].what.Clean? ensures front[j].at < front[i].at + RETENTION_MS {
        assert timeline[j] == front[j];
      }
    }
  }

  // ---- The waiter ----

  /** The moments of the timeline at which one waiter wakes, at least a poll interval
      apart. */
  predicate WaiterSchedule(timeline: seq<Moment>, start: nat, wakes: seq<nat>) {
    && InOrder(timeline)
    && (forall k :: 0 <= k < |wakes| ==>
          wakes[k] < |timeline| && timeline[wakes[k]].what.Wake? && start <= timeline[wakes[k]].at)
    && (forall k, l :: 0 <= k < l < |wakes| ==>
          wakes[k] < wakes[l] && timeline[wakes[k]].at + POLL_MS <= timeline[wakes[l]].at)
  }

  ghost predicate Missed(timeline: seq<Moment>, wakes: seq<nat>, signature: string, looks: nat)
    requires looks <= |wakes| && forall k :: 0 <= k < |wakes| ==> wakes[k] < |timeline|
  {
    forall k :: 0 <= k < looks ==> signature !in CacheAfter(timeline[..wakes[k]])
  }

  /** The polling loop of one waiter, on a timeline that reaches its deadline. */
  method ConfirmTransaction(signature: string, timeline: seq<Moment>, start: nat, wakes: seq<nat>)
    returns (confirmed: Option<int>, looks: nat)
    requires WaiterSchedule(timeline, start, wakes)
    requires wakes != [] && timeline[wakes[|wakes| - 1]].at >= start + DEADLINE_MS
    ensures looks < |wakes|
    ensures forall k :: 0 <= k < looks ==> timeline[wakes[k]].at < start + DEADLINE_MS
    ensures confirmed == None ==>
      timeline[wakes[looks]].at >= start + DEADLINE_MS && Missed(timeline, wakes, signature, looks)
    ensures confirmed == None && looks > 0 ==> forall i :: 0 <= i < wakes[looks - 1] && Delivers(timeline[i], signature) ==>
      timeline[i].at + RETENTION_MS <= timeline[wakes[0]].at
    ensures confirmed.Some? ==>
      && 0 < looks && Missed(timeline, wakes, signature, looks - 1)
      && signature in CacheAfter(timeline[..wakes[looks - 1]])
      && CacheAfter(timeline[..wakes[looks - 1]])[signature].blockTime == confirmed.value
  {
    looks := 0;
    while timeline[wakes[looks]].at - start < DEADLINE_MS
      invariant looks < |wakes|
      invariant forall k :: 0 <= k < looks ==> timeline[wakes[k]].at < start + DEADLINE_MS
      invariant Missed(timeline, wakes, signature, looks)
      decreases |wakes| - looks
    {
      var cache := CacheAfter(timeline[..wakes[looks]]);
      looks := looks + 1;
      if signature in cache {
        return Some(cache[signature].blockTime), looks;
      }
    }
    confirmed := None;
    forall i | looks > 0 && 0 <= i < wakes[looks - 1] && Delivers(timeline[i], signature)
      ensures timeline[i].at + RETENTION_MS <= timeline[wakes[0]].at
    {
      GivingUpIsJustified(signature, timeline, start, wakes, looks, i);
    }
  }

  /** A delivery less than 90 s old is still cached, whatever the cleaner did. */
  lemma {:induction false} RecentIsCached(timeline: seq<Moment>, signature: string, i: nat)
    requires InOrder(timeline) && i < |timeline| && Delivers(timeline[i], signature)
    requires timeline[|timeline| - 1].at < timeline[i].at + RETENTION_MS
    ensures signature in CacheAfter(timeline) && CacheAfter(timeline)[signature].insertedAt >= timeline[i].at
  {
    var front := timeline[..|timeline| - 1];
    if i < |front| {
      assert front[i] == timeline[i];
      assert front[|front| - 1].at <= timeline[|timeline| - 1].at;
      RecentIsCached(front, signature, i);
    }
  }

  /** Completeness: a waiter that gave up missed nothing. No block with its signature
      was delivered between 90 s before its first look and its last look. The 60 s
      deadline lying inside the 90 s retention is what makes this hold. */
  lemma {:induction false} GivingUpIsJustified(
      signature: string, timeline: seq<Moment>, start: nat, wakes: seq<nat>, looks: nat, i: nat)
    requires WaiterSchedule(timeline, start, wakes) && 0 < looks <= |wakes|
    requires forall k :: 0 <= k < looks ==> timeline[wakes[k]].at < start + DEADLINE_MS
    requires Missed(timeline, wakes, signature, looks)
    requires i < wakes[looks - 1] && Delivers(timeline[i], signature)
    ensures timeline[i].at + RETENTION_MS <= timeline[wakes[0]].at
  {
    var k := 0;
    while wakes[k] <= i
      invariant 0 <= k < looks
      invariant k > 0 ==> wakes[k - 1] <= i
      decreases looks - k
    {
      k := k + 1;
    }
    var seen := timeline[..wakes[k]];
    assert seen[i] == timeline[i];
    assert seen[|seen| - 1].at <= timeline[wakes[k]].at;
    if timeline[wakes[0]].at < timeline[i].at + RETENTION_MS {
      RecentIsCached(seen, signature, i);
    }
  }

  /** Every moment comes at most `gap` after some cleaner run. */
  ghost predicate CleanedEvery(timeline: seq<Moment>, gap: nat) {
    forall k :: 0 <= k < |timeline| ==> CleanedWithin(timeline, gap, k)
  }

  ghost predicate CleanedWithin(timeline: seq<Moment>, gap: nat, k: nat)
    requires k < |timeline|
  {
    exists j :: 0 <= j <= k && timeline[j].what.Clean? && timeline[k].at <= timeline[j].at + gap
  }

  /** Soundness: a confirmation reports the block time of a delivery of that signature
      that is younger than 90 s plus the largest cleaner gap. */
  lemma {:induction false} ConfirmationIsGenuine(
      signature: string, timeline: seq<Moment>, gap: nat, look: nat, blockTime: int) returns (i: nat)
    requires InOrder(timeline) && CleanedEvery(timeline, gap)
    requires look < |timeline| && timeline[look].what.Wake?
    requires signature in CacheAfter(timeline[..look]) && CacheAfter(timeline[..look])[signature].blockTime == blockTime
    ensures i < look && timeline[i].what == Deliver(signature, blockTime)
    ensures timeline[look].at < timeline[i].at + RETENTION_MS + gap
  {
    var seen := timeline[..look];
    var s := CacheAfter(seen)[signature];
    CachedExactly(seen, signature, s);
    i :| CachedFrom(seen, signature, s, i);
    assert timeline[i] == seen[i];
    CleanedSoonEnough(timeline, gap, look, i);
  }

  lemma {:induction false} CleanedSoonEnough(timeline: seq<Moment>, gap: nat, look: nat, i: nat)
    requires InOrder(timeline) && CleanedEvery(timeline, gap)
    requires i < look < |timeline| && timeline[look].what.Wake? && Unswept(timeline[..look], i)
    ensures timeline[look].at < timeline[i].at + RETENTION_MS + gap
  {
    assert CleanedWithin(timeline, gap, look);
    var j :| 0 <= j <= look && timeline[j].what.Clean? && timeline[look].at <= timeline[j].at + gap;
    assert timeline[j] == timeline[..look][j];
    if j <= i {
      assert timeline[j].at <= timeline[i].at;
    }
  }

  /** Polls at least 10 ms apart inside the deadline: at most 6000 looks. */
  lemma {:induction false} LooksAreBounded(timeline: seq<Moment>, start: nat, wakes: seq<nat>, looks: nat)
    requires WaiterSchedule(timeline, start, wakes) && 0 < looks <= |wakes|
    requires timeline[wakes[looks - 1]].at < start + DEADLINE_MS
    ensures looks <= DEADLINE_MS / POLL_MS
  {
    LooksTakeTime(timeline, start, wakes, looks);
  }

  lemma {:induction false} LooksTakeTime(timeline: seq<Moment>, start: nat, wakes: seq<nat>, looks: nat)
    requires WaiterSchedule(timeline, start, wakes) && 0 < looks <= |wakes|
    ensures start + POLL_MS * (looks - 1) <= timeline[wakes[looks - 1]].at
  {
    if looks > 1 {
      LooksTakeTime(timeline, start, wakes, looks - 1);
    }
  }
}

// The geyser client's state and the message handlers that edit it in place.
module GeyserClient {
  import opened Wrappers
  import opened MachineWords
  import opened BlockhashWindow
  import SignatureCache

  /** A confirmed block: hash and signatures are None where they do not parse. */
  datatype BlockUpdate = BlockUpdate(
    blockTime: Option<int>,
    hash: Option<string>,
    slot: U64,
    transactions: seq<Option<string>>)

  function MessageOf(block: BlockUpdate): Message {
    match block.hash
    case None => Malformed
    case Some(hash) => Block(hash, block.slot)
  }

  function BlockTimeOf(block: BlockUpdate): int {
    match block.blockTime
    case None => 0
    case Some(t) => t
  }

  /** The deliveries a block makes, one per parsable signature, in block order. */
  function Deliveries(transactions: seq<Option<string>>, blockTime: int, times: seq<nat>): seq<SignatureCache.Moment>
    requires |times| == |transactions|
  {
    if transactions == [] then []
    else
      var n := |transactions| - 1;
      Deliveries(transactions[..n], blockTime, times[..n]) +
      match transactions[n] {
        case None => []
        case Some(s) => [SignatureCache.Moment(times[n], SignatureCache.Deliver(s, blockTime))]
      }
  }

  lemma DeliverOneMore(
      was: SignatureCache.Sightings, transactions: seq<Option<string>>, blockTime: int, times: seq<nat>, i: nat)
    requires i < |transactions| == |times|
    ensures var before := SignatureCache.AdvancedAll(was, Deliveries(transactions[..i], blockTime, times[..i]));
      SignatureCache.AdvancedAll(was, Deliveries(transactions[..i + 1], blockTime, times[..i + 1]))
      == if transactions[i] == None then before
         else before[transactions[i].value := SignatureCache.Sighting(blockTime, times[i])]
  {
    assert transactions[..i + 1][..i] == transactions[..i] && times[..i + 1][..i] == times[..i];
    var front := Deliveries(transactions[..i], blockTime, times[..i]);
    if transactions[i] == None {
      assert front + [] == front;
    } else {
      var last := SignatureCache.Moment(times[i], SignatureCache.Deliver(transactions[i].value, blockTime));
      assert (front + [last])[..|front|] == front;
    }
  }

  /** The i-th transaction of a block is the last one with this signature. */
  ghost predicate LastOccurrence(transactions: seq<Option<string>>, signature: string, i: nat) {
    && i < |transactions| && transactions[i] == Some(signature)
    && forall j :: i < j < |transactions| ==> transactions[j] != Some(signature)
  }

  /** What a block's transactions leave cached for one signature: the block's time and
      the clock reading of its last occurrence, or what was there if it does not occur. */
  ghost predicate Recorded(
      now: SignatureCache.Sightings, was: SignatureCache.Sightings, transactions: seq<Option<string>>,
      blockTime: int, times: seq<nat>, signature: string)
    requires |times| == |transactions|
  {
    if Some(signature) in transactions then
      exists i: nat :: LastOccurrence(transactions, signature, i)
        && signature in now && now[signature] == SignatureCache.Sighting(blockTime, times[i])
    else (signature in now <==> signature in was) && (signature in was ==> now[signature] == was[signature])
  }

  /** A block without a time counts as being of time 0. */
  ghost predicate BlockRecorded(
      now: SignatureCache.Sightings, was: SignatureCache.Sightings, block: BlockUpdate, times: seq<nat>, signature: string)
    requires |times| == |block.transactions|
  {
    var blockTime := if block.blockTime.Some? then block.blockTime.value else 0;
    Recorded(now, was, block.transactions, blockTime, times, signature)
  }

  lemma {:induction false} DeliveriesAreRecorded(
      was: SignatureCache.Sightings, transactions: seq<Option<string>>, blockTime: int, times: seq<nat>, signature: string)
    requires |times| == |transactions|
    ensures Recorded(SignatureCache.AdvancedAll(was, Deliveries(transactions, blockTime, times)),
                     was, transactions, blockTime, times, signature)
  {
    if transactions != [] {
      var n := |transactions| - 1;
      var front := Deliveries(transactions[..n], blockTime, times[..n]);
      DeliveriesAreRecorded(was, transactions[..n], blockTime, times[..n], signature);
      DeliverOneMore(was, transactions, blockTime, times, n);
      assert transactions == transactions[..n] + [transactions[n]];
      assert transactions[..n + 1] == transactions && times[..n + 1] == times;
      if transactions[n] == Some(signature) {
        assert LastOccurrence(transactions, signature, n);
      } else if Some(signature) in transactions[..n] {
        var i: nat :| LastOccurrence(transactions[..n], signature, i)
          && SignatureCache.AdvancedAll(was, front)[signature] == SignatureCache.Sighting(blockTime, times[..n][i]);
        assert LastOccurrence(transactions, signature, i);
      }
    }
  }

  /** What a block leaves in the hash cache: its own hash at its slot, and another hash
      iff it was there and is at most 150 slots behind, modulo 2^64. */
  ghost predicate HashKept(now: Hashes, was: Hashes, hash: string, slot: U64, other: string) {
    if other == hash then other in now && now[other] == slot
    else
      && (other in now <==> other in was && (slot - was[other]) % TWO_64 <= 150)
      && (other in now ==> now[other] == was[other])
  }

  /** Slot 0 doubles as "nothing received yet". */
  function NextSlot(curSlot: U64): Option<U64> {
    if curSlot == 0 then None else Some(curSlot)
  }

  class GrpcGeyser {
    var curSlot: U64
    var signatureCache: SignatureCache.Sightings
    var recentBlockhashes: Option<Hashes>

    constructor (recentBlockhashes: Option<Hashes>)
      ensures curSlot == 0 && signatureCache == map[] && this.recentBlockhashes == recentBlockhashes
    {
      curSlot, signatureCache := 0, map[];
      this.recentBlockhashes := recentBlockhashes;
    }

    /** Seeds the hash cache from two RPC replies, or fails and leaves it alone. */
    method InitializeBlockhashCache(slot: Option<U64>, hash: Option<string>) returns (ok: bool)
      requires recentBlockhashes.Some?
      modifies this`recentBlockhashes
      ensures ok <==> slot.Some? && hash.Some?
      ensures recentBlockhashes == Some(
        if ok then Handled(old(recentBlockhashes).value, Seed(hash.value, slot.value)) else old(recentBlockhashes).value)
    {
      if slot == None || hash == None {
        return false;
      }
      recentBlockhashes := Some(recentBlockhashes.value[hash.value := slot.value]);
      ok := true;
    }

    /** One block message; `times` are the clock readings at the insertions. A block
        whose hash does not parse changes neither cache. */
    method HandleBlock(block: BlockUpdate, times: seq<nat>)
      requires |times| == |block.transactions|
      modifies this`signatureCache, this`recentBlockhashes
      ensures recentBlockhashes == match old(recentBlockhashes) {
        case None => None
        case Some(m) => Some(Handled(m, MessageOf(block)))
      }
      ensures block.hash == None ==> signatureCache == old(signatureCache)
      ensures block.hash.Some? ==>
        signatureCache
        == SignatureCache.AdvancedAll(old(signatureCache), Deliveries(block.transactions, BlockTimeOf(block), times))
      ensures block.hash.Some? ==> forall signature ::
        BlockRecorded(signatureCache, old(signatureCache), block, times, signature)
      ensures recentBlockhashes.Some? <==> old(recentBlockhashes).Some?
      ensures block.hash == None ==> recentBlockhashes == old(recentBlockhashes)
      ensures block.hash.Some? && recentBlockhashes.Some? ==> forall other ::
        HashKept(recentBlockhashes.value, old(recentBlockhashes).value, block.hash.value, block.slot, other)
    {
      var blockTime := BlockTimeOf(block);
      if block.hash == None {
        return;
      }
      if recentBlockhashes.Some? {
        var hashes := recentBlockhashes.value[block.hash.value := block.slot];
        recentBlockhashes := Some(Retained(hashes, block.slot));
      }
      RecordSignatures(block.transactions, blockTime, times);
      forall signature
        ensures BlockRecorded(signatureCache, old(signatureCache), block, times, signature)
      {
        DeliveriesAreRecorded(old(signatureCache), block.transactions, blockTime, times, signature);
      }
    }

    method RecordSignatures(transactions: seq<Option<string>>, blockTime: int, times: seq<nat>)
      requires |times| == |transactions|
      modifies this`signatureCache
      ensures signatureCache == SignatureCache.AdvancedAll(old(signatureCache), Deliveries(transactions, blockTime, times))
    {
      for i := 0 to |transactions|
        invariant signatureCache
          == SignatureCache.AdvancedAll(old(signatureCache), Deliveries(transactions[..i], blockTime, times[..i]))
      {
        DeliverOneMore(old(signatureCache), transactions, blockTime, times, i);
        if transactions[i] == None {
          continue;
        }
        var signature := transactions[i].value;
        signatureCache := signatureCache[signature := SignatureCache.Sighting(blockTime, times[i])];
      }
      assert transactions[..|transactions|] == transactions && times[..|transactions|] == times;
    }

    method CleanSignatureCache(now: nat)
      modifies this`signatureCache
      ensures signatureCache
        == SignatureCache.Advanced(old(signatureCache), SignatureCache.Moment(now, SignatureCache.Clean))
    {
      signatureCache := map s | s in signatureCache && SignatureCache.Young(now, signatureCache[s]) :: signatureCache[s];
    }

    /** Stores every slot update, also a smaller one; SlotFeed says what comes of it. */
    method StoreSlot(slot: U64)
      modifies this`curSlot
      ensures curSlot == slot
    {
      curSlot := slot;
    }

    method GetNextSlot() returns (slot: Option<U64>)
      ensures slot == NextSlot(curSlot)
      ensures slot == None <==> curSlot == 0
      ensures slot.Some? ==> slot.value == curSlot
    {
      slot := if curSlot == 0 then None else Some(curSlot);
    }
  }
}

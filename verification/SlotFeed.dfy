// The slot stream end to end: geyser updates overwrite one stored slot, and the leader
// tracker samples it whenever it polls (src/infrastructure/grpc_geyser.rs, poll_slots
// and get_next_slot; src/infrastructure/leader_tracker.rs, poll_slot).
module SlotFeed {
  import opened Traces
  import opened Wrappers
  import opened MachineWords
  import opened LeaderTrackers
  import opened GeyserClient
  import LeaderRuns

  datatype Tick = Update(slot: U64) | Poll

  function StoredSlot(ticks: seq<Tick>): U64 {
    if ticks == [] then 0
    else match ticks[|ticks| - 1] { case Update(slot) => slot case Poll => StoredSlot(ticks[..|ticks| - 1]) }
  }

  /** The tracker's run: one sample per poll, of what is stored then. */
  function SamplesOf(ticks: seq<Tick>): LeaderRuns.Run {
    if ticks == [] then Start
    else
      var front := ticks[..|ticks| - 1];
      match ticks[|ticks| - 1]
      case Update(_) => SamplesOf(front)
      case Poll => Then(SamplesOf(front), LeaderRuns.Sample(NextSlot(StoredSlot(front))))
  }

  lemma {:induction false} SamplesAreLegal(ticks: seq<Tick>, leaderOffset: int)
    ensures LeaderRuns.Legal(SamplesOf(ticks), leaderOffset)
  {
    if ticks != [] {
      SamplesAreLegal(ticks[..|ticks| - 1], leaderOffset);
    }
  }

  ghost function Counter(ticks: seq<Tick>, leaderOffset: int): U64 {
    SamplesAreLegal(ticks, leaderOffset);
    LeaderRuns.Final(SamplesOf(ticks), leaderOffset).curSlot
  }

  lemma CounterAfter(ticks: seq<Tick>, tick: Tick, leaderOffset: int)
    ensures Counter(ticks + [tick], leaderOffset)
         == if tick.Poll? then Advanced(Counter(ticks, leaderOffset), NextSlot(StoredSlot(ticks)), leaderOffset)
            else Counter(ticks, leaderOffset)
    ensures StoredSlot(ticks + [tick]) == if tick.Update? then tick.slot else StoredSlot(ticks)
  {
    assert (ticks + [tick])[..|ticks|] == ticks;
    SamplesAreLegal(ticks, leaderOffset);
    SamplesAreLegal(ticks + [tick], leaderOffset);
  }

  /** The geyser client and the tracker, driven by the ticks, hold just these two slots. */
  method Feed(geyser: GrpcGeyser, tracker: LeaderTracker, ticks: seq<Tick>)
    requires geyser.curSlot == 0 && tracker.curSlot == 0
    modifies geyser`curSlot, tracker`curSlot
    ensures geyser.curSlot == StoredSlot(ticks)
    ensures tracker.curSlot == Counter(ticks, tracker.leaderOffset)
  {
    for i := 0 to |ticks|
      invariant geyser.curSlot == StoredSlot(ticks[..i])
      invariant tracker.curSlot == Counter(ticks[..i], tracker.leaderOffset)
    {
      assert ticks[..i + 1] == ticks[..i] + [ticks[i]];
      CounterAfter(ticks[..i], ticks[i], tracker.leaderOffset);
      match ticks[i] {
        case Update(slot) => geyser.StoreSlot(slot);
        case Poll =>
          var nextSlot := geyser.GetNextSlot();
          tracker.PollSlot(nextSlot);
      }
    }
    assert ticks[..|ticks|] == ticks;
  }

  /** Poll j sees update i: nothing overwrote it in between, and it is not the slot 0 that
      stands for nothing. */
  ghost predicate Seen(ticks: seq<Tick>, i: nat, j: nat) {
    && i < j < |ticks| && ticks[i].Update? && ticks[i].slot != 0 && ticks[j].Poll?
    && forall k :: i < k < j ==> ticks[k].Poll?
  }

  ghost predicate SeenUpdate(ticks: seq<Tick>, slot: U64) {
    exists i: nat, j: nat :: Seen(ticks, i, j) && ticks[i].slot == slot
  }

  lemma {:induction false} StoredAt(ticks: seq<Tick>) returns (i: nat)
    requires StoredSlot(ticks) != 0
    ensures i < |ticks| && ticks[i] == Update(StoredSlot(ticks)) && forall k :: i < k < |ticks| ==> ticks[k].Poll?
  {
    var n := |ticks| - 1;
    if ticks[n].Update? {
      return n;
    }
    i := StoredAt(ticks[..n]);
    assert forall k :: i < k < n ==> ticks[k] == ticks[..n][k];
  }

  lemma {:induction false} StoredSince(ticks: seq<Tick>, i: nat)
    requires i < |ticks| && ticks[i].Update? && forall k :: i < k < |ticks| ==> ticks[k].Poll?
    ensures StoredSlot(ticks) == ticks[i].slot
  {
    if i < |ticks| - 1 {
      StoredSince(ticks[..|ticks| - 1], i);
    }
  }

  lemma SeenLonger(ticks: seq<Tick>, slot: U64)
    requires ticks != [] && SeenUpdate(ticks[..|ticks| - 1], slot)
    ensures SeenUpdate(ticks, slot)
  {
    var front := ticks[..|ticks| - 1];
    var i: nat, j: nat :| Seen(front, i, j) && front[i].slot == slot;
    assert forall k :: i <= k <= j ==> ticks[k] == front[k];
    assert Seen(ticks, i, j);
  }

  lemma SeenShorter(ticks: seq<Tick>, slot: U64, i: nat, j: nat)
    requires Seen(ticks, i, j) && ticks[i].slot == slot && j < |ticks| - 1
    ensures SeenUpdate(ticks[..|ticks| - 1], slot)
  {
    var front := ticks[..|ticks| - 1];
    assert forall k :: i <= k <= j ==> ticks[k] == front[k];
    assert Seen(front, i, j);
  }

  lemma {:induction false} LastPollSees(ticks: seq<Tick>, slot: U64)
    requires ticks != [] && ticks[|ticks| - 1].Poll? && NextSlot(StoredSlot(ticks[..|ticks| - 1])) == Some(slot)
    ensures SeenUpdate(ticks, slot)
  {
    var n := |ticks| - 1;
    var i := StoredAt(ticks[..n]);
    assert forall k :: 0 <= k < n ==> ticks[..n][k] == ticks[k];
    assert Seen(ticks, i, n) && ticks[i].slot == slot;
  }

  /** What the tracker samples is what its polls see. */
  lemma {:induction false} SampledIffSeen(ticks: seq<Tick>, slot: U64)
    ensures LeaderRuns.Sampled(SamplesOf(ticks), slot) <==> SeenUpdate(ticks, slot)
  {
    if ticks != [] {
      var n := |ticks| - 1;
      var front := ticks[..n];
      SampledIffSeen(front, slot);
      if SeenUpdate(front, slot) {
        SeenLonger(ticks, slot);
      } else if ticks[n].Poll? && NextSlot(StoredSlot(front)) == Some(slot) {
        LastPollSees(ticks, slot);
      } else if SeenUpdate(ticks, slot) {
        var i: nat, j: nat :| Seen(ticks, i, j) && ticks[i].slot == slot;
        if j < n {
          SeenShorter(ticks, slot, i, j);
        } else {
          assert forall k :: 0 <= k < n ==> front[k] == ticks[k];
          StoredSince(front, i);
        }
      }
    }
  }

  /** In whatever order updates arrive, the tracker's counter is the maximum of 0 and the
      start slots of exactly those updates that some poll saw before the next update. */
  lemma {:induction false} CounterIsMaximumSeen(ticks: seq<Tick>, leaderOffset: int)
    ensures forall slot :: SeenUpdate(ticks, slot) ==> GetStartSlot(slot, leaderOffset) <= Counter(ticks, leaderOffset)
    ensures Counter(ticks, leaderOffset) == 0
         || exists slot :: SeenUpdate(ticks, slot) && GetStartSlot(slot, leaderOffset) == Counter(ticks, leaderOffset)
  {
    SamplesAreLegal(ticks, leaderOffset);
    LeaderRuns.SlotIsRunningMaximum(SamplesOf(ticks), leaderOffset);
    forall slot ensures LeaderRuns.Sampled(SamplesOf(ticks), slot) <==> SeenUpdate(ticks, slot) {
      SampledIffSeen(ticks, slot);
    }
  }

  /** An update overwritten before any poll leaves no trace, then or later. */
  lemma {:induction false} OverwrittenLeavesNoTrace(
      before: seq<Tick>, lost: U64, next: U64, after: seq<Tick>, leaderOffset: int)
    ensures var with, without := before + [Update(lost), Update(next)] + after, before + [Update(next)] + after;
      Counter(with, leaderOffset) == Counter(without, leaderOffset) && StoredSlot(with) == StoredSlot(without)
  {
    var with, without := before + [Update(lost), Update(next)] + after, before + [Update(next)] + after;
    if after == [] {
      CounterAfter(before, Update(lost), leaderOffset);
      CounterAfter(before + [Update(lost)], Update(next), leaderOffset);
      CounterAfter(before, Update(next), leaderOffset);
      assert with == before + [Update(lost)] + [Update(next)] && without == before + [Update(next)];
    } else {
      var n := |after| - 1;
      OverwrittenLeavesNoTrace(before, lost, next, after[..n], leaderOffset);
      CounterAfter(before + [Update(lost), Update(next)] + after[..n], after[n], leaderOffset);
      CounterAfter(before + [Update(next)] + after[..n], after[n], leaderOffset);
      assert with == before + [Update(lost), Update(next)] + after[..n] + [after[n]];
      assert without == before + [Update(next)] + after[..n] + [after[n]];
    }
  }

  /** A backward update is what the client reports next, but it does not move the
      tracker once a later slot was seen, as long as neither start slot wraps. */
  lemma {:induction false} BackwardUpdate(ticks: seq<Tick>, back: U64, leaderOffset: int, seen: U64)
    requires SeenUpdate(ticks, seen) && 0 < back <= seen
    requires 0 <= back + 4 * leaderOffset && seen + 4 * leaderOffset < TWO_64
    ensures NextSlot(StoredSlot(ticks + [Update(back)])) == Some(back)
    ensures Counter(ticks + [Update(back), Poll], leaderOffset) == Counter(ticks, leaderOffset)
  {
    CounterIsMaximumSeen(ticks, leaderOffset);
    StartSlotIsWrappedSum(back, leaderOffset);
    StartSlotIsWrappedSum(seen, leaderOffset);
    CounterAfter(ticks, Update(back), leaderOffset);
    CounterAfter(ticks + [Update(back)], Poll, leaderOffset);
    assert ticks + [Update(back), Poll] == ticks + [Update(back)] + [Poll];
  }
}

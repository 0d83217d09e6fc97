// The confirm tasks of the state machine joined to the waiting loop they run on the
// signature cache's timeline: how long an entry can outlive the start of its own task
// (src/infrastructure/txn_sender.rs, track_transaction; src/infrastructure/grpc_geyser.rs,
// confirm_transaction).
module ConfirmDeadlines {
  import opened Traces
  import opened Wrappers
  import opened SignatureCache
  import Retransmission
  import RetransmissionTheorems

  /** One run of the waiting loop: its timeline, its wake-ups, and the look it returns at. */
  datatype Wait = Wait(timeline: seq<Moment>, wakes: seq<nat>, last: nat)

  /** The loop began at `start`, wakes at most `gap` after its start and after each look,
      and every look before the last was in time and found nothing. */
  ghost predicate WaitsFor(w: Wait, signature: string, start: nat, gap: nat) {
    && WaiterSchedule(w.timeline, start, w.wakes) && w.last < |w.wakes|
    && w.timeline[w.wakes[0]].at <= start + gap
    && (forall k :: 0 < k < |w.wakes| ==> w.timeline[w.wakes[k]].at <= w.timeline[w.wakes[k - 1]].at + gap)
    && (forall k :: 0 <= k < w.last ==> w.timeline[w.wakes[k]].at < start + DEADLINE_MS)
    && Missed(w.timeline, w.wakes, signature, w.last)
  }

  function EndOf(w: Wait): nat
    requires w.last < |w.wakes| && w.wakes[w.last] < |w.timeline|
  {
    w.timeline[w.wakes[w.last]].at
  }

  /** What the waiting loop promises makes it such a wait, whichever way it returns. */
  method WaitForSignature(signature: string, timeline: seq<Moment>, start: nat, wakes: seq<nat>, gap: nat)
    returns (w: Wait)
    requires WaiterSchedule(timeline, start, wakes)
    requires wakes != [] && timeline[wakes[|wakes| - 1]].at >= start + DEADLINE_MS
    requires timeline[wakes[0]].at <= start + gap
    requires forall k :: 0 < k < |wakes| ==> timeline[wakes[k]].at <= timeline[wakes[k - 1]].at + gap
    ensures WaitsFor(w, signature, start, gap) && w.timeline == timeline && w.wakes == wakes
    ensures EndOf(w) >= start + DEADLINE_MS || signature in CacheAfter(timeline[..wakes[w.last]])
    ensures EndOf(w) <= start + DEADLINE_MS + gap
  {
    var confirmed, looks := ConfirmTransaction(signature, timeline, start, wakes);
    w := Wait(timeline, wakes, if confirmed == None then looks else looks - 1);
    WaitEndsInTime(w, signature, start, gap);
  }

  lemma {:induction false} WaitEndsInTime(w: Wait, signature: string, start: nat, gap: nat)
    requires WaitsFor(w, signature, start, gap)
    ensures EndOf(w) <= start + DEADLINE_MS + gap
  {
    if w.last > 0 {
      assert w.timeline[w.wakes[w.last - 1]].at < start + DEADLINE_MS;
    }
  }

  // ---- Entries of the state machine ----

  ghost predicate Spawns(p: Retransmission.Run, c: nat) {
    p.Then? && p.event == Retransmission.SpawnConfirm(c)
  }

  lemma RunningOnlyBySpawn(cfg: Retransmission.Config, s: Retransmission.State, e: Retransmission.Event, c: nat)
    requires Retransmission.Enabled(cfg, s, e) && c < |Retransmission.Apply(cfg, s, e).calls|
    requires Retransmission.Apply(cfg, s, e).calls[c].confirm == Retransmission.Running
    ensures e == Retransmission.SpawnConfirm(c) || (c < |s.calls| && s.calls[c].confirm == Retransmission.Running)
  {
  }

  /** A running confirm task was spawned somewhere in the run. */
  lemma {:induction false} SpawnOf(cfg: Retransmission.Config, r: Retransmission.Run, c: nat)
    returns (p: Retransmission.Run)
    requires Retransmission.Legal(cfg, r) && c < |Retransmission.Final(cfg, r).calls|
    requires Retransmission.Final(cfg, r).calls[c].confirm == Retransmission.Running
    ensures Extends(r, p) && Spawns(p, c)
  {
    p := r;
    if r.event != Retransmission.SpawnConfirm(c) {
      RunningOnlyBySpawn(cfg, Retransmission.Final(cfg, r.before), r.event, c);
      p := SpawnOf(cfg, r.before, c);
    }
  }

  /** The confirm task of the call is not running after the end of its wait. */
  ghost predicate RunsUntilEnd(s: Retransmission.State, c: nat, now: nat, w: Wait) {
    && w.last < |w.wakes| && w.wakes[w.last] < |w.timeline|
    && (c < |s.calls| && s.calls[c].confirm == Retransmission.Running ==> now <= EndOf(w))
  }

  /** While an entry is stored, its own call is about to spawn its confirm task or spawned
      it no longer ago than the deadline and one wake-up: on any clock, as long as that
      task ends when its wait does. */
  lemma {:induction false} EntryLeavesInTime(
      cfg: Retransmission.Config, r: Retransmission.Run, key: string, owner: nat,
      clock: Retransmission.Run -> nat, w: Wait, gap: nat)
    returns (p: Retransmission.Run)
    requires Retransmission.Legal(cfg, r) && key in Retransmission.Final(cfg, r).store
    requires Retransmission.Final(cfg, r).store[key].owner == owner
    requires forall q :: Extends(r, q) && Spawns(q, owner) ==> WaitsFor(w, key, clock(q), gap)
    requires RunsUntilEnd(Retransmission.Final(cfg, r), owner, clock(r), w)
    ensures owner < |Retransmission.Final(cfg, r).calls|
    ensures Retransmission.Final(cfg, r).calls[owner].stage != Retransmission.AtSpawn ==>
      Extends(r, p) && Spawns(p, owner) && clock(r) <= clock(p) + DEADLINE_MS + gap
  {
    p := r;
    RetransmissionTheorems.NoLeakedEntries(cfg, r, key);
    if Retransmission.Final(cfg, r).calls[owner].stage != Retransmission.AtSpawn {
      p := SpawnOf(cfg, r, owner);
      WaitEndsInTime(w, key, clock(p), gap);
    }
  }
}

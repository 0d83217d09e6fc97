// The send tasks over whole runs: which sends are spawned, and how often each is tried
// (src/infrastructure/txn_sender.rs, the spawned tasks of send_transaction and of the
// retry loop).
module RetransmissionSends {
  import opened Traces
  import opened LeaderScan
  import opened Sends
  import opened RetryQueue
  import opened Retransmission
  import opened RetransmissionProofs
  import opened RetransmissionProgress
  import TxnSenders

  // ---- Attempts ----

  /** How the attempts of a task went so far, in order: delivered or not. */
  function Replies(r: Run, t: nat): seq<bool> {
    if r.Start? then []
    else Replies(r.before, t) + if r.event.Attempt? && r.event.task == t then [r.event.delivered] else []
  }

  /** A task has made as many attempts as it had replies, none after a delivery and ten
      at most, and is done iff one was delivered or ten were made. */
  ghost predicate TriedAs(task: SendTask, replies: seq<bool>) {
    && task.attempts == |replies| <= SEND_TXN_RETRIES
    && (task.done <==> true in replies || |replies| == SEND_TXN_RETRIES)
    && (forall i :: 0 <= i < |replies| - 1 ==> !replies[i])
  }

  lemma TasksElsewhere(cfg: Config, s: State, e: Event, t: nat)
    requires Enabled(cfg, s, e) && !e.Attempt?
    ensures s.tasks <= Apply(cfg, s, e).tasks
    ensures |s.tasks| <= t < |Apply(cfg, s, e).tasks| ==>
      Apply(cfg, s, e).tasks[t].attempts == 0 && !Apply(cfg, s, e).tasks[t].done
  {
    if !e.SendDirect? && !e.SendWire? {
      TasksKept(cfg, s, e);
    }
  }

  lemma AttemptStep(cfg: Config, s: State, t: nat, delivered: bool, replies: seq<bool>)
    requires Enabled(cfg, s, Attempt(t, delivered)) && TriedAs(s.tasks[t], replies)
    ensures TriedAs(Apply(cfg, s, Attempt(t, delivered)).tasks[t], replies + [delivered])
    ensures Apply(cfg, s, Attempt(t, delivered)).tasks[t].send == s.tasks[t].send
  {
    assert forall i :: 0 <= i < |replies| ==> !replies[i];
    assert (replies + [delivered])[|replies|] == delivered;
  }

  lemma OtherAttempts(cfg: Config, s: State, e: Event, t: nat)
    requires Enabled(cfg, s, e) && e.Attempt? && e.task != t
    ensures |Apply(cfg, s, e).tasks| == |s.tasks|
    ensures t < |s.tasks| ==> Apply(cfg, s, e).tasks[t] == s.tasks[t]
  {
  }

  /** Over every run, counting events only: a refused attempt is followed by another one
      unless it was the tenth, and no attempt follows a delivery. */
  lemma {:induction false} AttemptsAsReplied(cfg: Config, r: Run, t: nat)
    requires Legal(cfg, r)
    ensures if t < |Final(cfg, r).tasks| then TriedAs(Final(cfg, r).tasks[t], Replies(r, t)) else Replies(r, t) == []
  {
    if r.Then? {
      AttemptsAsReplied(cfg, r.before, t);
      var s := Final(cfg, r.before);
      if !r.event.Attempt? {
        TasksElsewhere(cfg, s, r.event, t);
      } else if r.event.task == t {
        AttemptStep(cfg, s, t, r.event.delivered, Replies(r.before, t));
      } else {
        OtherAttempts(cfg, s, r.event, t);
      }
    }
  }

  /** The sending loop ends in just such a task. */
  lemma SendLoopEndsTask(send: Send, replies: seq<TxnSenders.Reply>, attempts: nat, delivered: bool)
    requires |replies| == SEND_TXN_RETRIES && 1 <= attempts <= SEND_TXN_RETRIES
    requires delivered <==> TxnSenders.Delivered in replies
    requires forall i :: 0 <= i < attempts - 1 ==> replies[i] != TxnSenders.Delivered
    requires if delivered then replies[attempts - 1] == TxnSenders.Delivered else attempts == SEND_TXN_RETRIES
    ensures TriedAs(SendTask(send, attempts, true),
                    seq(attempts, i requires 0 <= i < attempts => replies[i] == TxnSenders.Delivered))
  {
    var flags := seq(attempts, i requires 0 <= i < attempts => replies[i] == TxnSenders.Delivered);
    if delivered {
      assert flags[attempts - 1];
    }
  }

  /** An unfinished task can be refused until its tenth attempt. */
  lemma {:induction false} RefusedToTheEnd(cfg: Config, r: Run, s: State, t: nat) returns (q: Run)
    requires Legal(cfg, r) && Final(cfg, r) == s && t < |s.tasks| && !s.tasks[t].done
    ensures Legal(cfg, q) && Extends(q, r) && t < |Final(cfg, q).tasks|
    ensures Final(cfg, q).tasks[t].done && Final(cfg, q).tasks[t].attempts == SEND_TXN_RETRIES
    ensures true !in Replies(q, t)
    decreases SEND_TXN_RETRIES - s.tasks[t].attempts
  {
    AttemptsAsReplied(cfg, r, t);
    var next, u := Extend(cfg, r, s, Attempt(t, false));
    AttemptStep(cfg, s, t, false, Replies(r, t));
    q := next;
    if !u.tasks[t].done {
      q := RefusedToTheEnd(cfg, next, u, t);
      ExtendsFurther(q, next, r);
    }
  }

  lemma {:induction false} ExtendsFurther(later: Run, mid: Run, from: Run)
    requires Extends(later, mid) && Extends(mid, from)
    ensures Extends(later, from)
  {
    if later != mid {
      ExtendsFurther(later.before, mid, from);
    }
  }

  // ---- What is sent to whom ----

  function SendsIn(tasks: seq<SendTask>): (sends: seq<Send>)
    ensures |sends| == |tasks| && forall i :: 0 <= i < |sends| ==> sends[i] == tasks[i].send
  {
    seq(|tasks|, i requires 0 <= i < |tasks| => tasks[i].send)
  }

  /** The wires of the sending steps of a run, in order: a call's own, or the first of
      those waiting in the loop. */
  ghost function WiresSpawned(cfg: Config, r: Run): seq<seq<bv8>>
    requires Legal(cfg, r)
  {
    if r.Start? then []
    else WiresSpawned(cfg, r.before) + match r.event {
      case SendDirect(c, _) => [Final(cfg, r.before).calls[c].data.wire]
      case SendWire(_) => [Final(cfg, r.before).loop.wires[0]]
      case _ => []
    }
  }

  /** The leaders found by their scans. */
  function ScansMade(cfg: Config, r: Run): seq<seq<ContactInfo>> {
    if r.Start? then []
    else ScansMade(cfg, r.before) + match r.event {
      case SendDirect(_, view) => [ValuesOf(Scan(view, cfg.numLeaders))]
      case SendWire(view) => [ValuesOf(Scan(view, cfg.numLeaders))]
      case _ => []
    }
  }

  lemma SpawnStep(cfg: Config, s: State, e: Event)
    requires Enabled(cfg, s, e) && (e.SendDirect? || e.SendWire?)
    ensures SendsIn(Apply(cfg, s, e).tasks)
         == SendsIn(s.tasks) + SendsOf(WireOf(s, e), ValuesOf(Scan(e.view, cfg.numLeaders)))
  {
    assert Apply(cfg, s, e).tasks == WithSends(s, WireOf(s, e), e.view, cfg.numLeaders).tasks;
  }

  lemma SpawnBlock(cfg: Config, s: State, e: Event, wires: seq<seq<bv8>>, scans: seq<seq<ContactInfo>>)
    requires Enabled(cfg, s, e) && (e.SendDirect? || e.SendWire?) && AllSent(SendsIn(s.tasks), wires, scans)
    ensures AllSent(SendsIn(Apply(cfg, s, e).tasks),
                    wires + [WireOf(s, e)], scans + [ValuesOf(Scan(e.view, cfg.numLeaders))])
  {
    var wire, leaders := WireOf(s, e), ValuesOf(Scan(e.view, cfg.numLeaders));
    SpawnStep(cfg, s, e);
    SendsOfReachAll(wire, leaders);
    OneMoreBlock(SendsIn(s.tasks), wires, scans, SendsOf(wire, leaders), wire, leaders);
  }

  lemma NoSpawnStep(cfg: Config, s: State, e: Event)
    requires Enabled(cfg, s, e) && !e.SendDirect? && !e.SendWire?
    ensures SendsIn(Apply(cfg, s, e).tasks) == SendsIn(s.tasks)
  {
    if !e.Attempt? {
      TasksKept(cfg, s, e);
    }
  }

  /** Over every run, whatever the scans found: the tasks are, one block after another,
      each sending step's own wire to every scanned leader with an address, in order. */
  lemma {:induction false} TasksAreSends(cfg: Config, r: Run)
    requires Legal(cfg, r)
    ensures AllSent(SendsIn(Final(cfg, r).tasks), WiresSpawned(cfg, r), ScansMade(cfg, r))
  {
    if r.Start? {
      assert SentInBlocks(SendsIn(INITIAL.tasks), [], [], []);
    } else {
      TasksAreSends(cfg, r.before);
      var s, e := Final(cfg, r.before), r.event;
      if e.SendDirect? || e.SendWire? {
        SpawnBlock(cfg, s, e, WiresSpawned(cfg, r.before), ScansMade(cfg, r.before));
      } else {
        NoSpawnStep(cfg, s, e);
        assert WiresSpawned(cfg, r) == WiresSpawned(cfg, r.before) && ScansMade(cfg, r) == ScansMade(cfg, r.before);
      }
    }
  }
}

// What holds over every run of the interleaved system.
module RetransmissionTheorems {
  import opened Traces
  import opened Wrappers
  import opened Sums
  import opened Transactions
  import opened LeaderScan
  import opened Sends
  import opened RetryQueue
  import opened Retransmission
  import opened RetransmissionProofs

  lemma {:induction false} InvariantHolds(cfg: Config, r: Run)
    requires Legal(cfg, r)
    ensures Shape(cfg, Final(cfg, r)) && Ledger(Final(cfg, r)) && SendsOk(cfg, Final(cfg, r))
  {
    if r.Then? {
      InvariantHolds(cfg, r.before);
      var s := Final(cfg, r.before);
      ShapeStep(cfg, s, r.event);
      LedgerStep(cfg, s, r.event);
      SendsStep(cfg, s, r.event);
    }
  }

  lemma NeverUnwrapsNone(cfg: Config, r: Run)
    requires Legal(cfg, r)
    ensures Final(cfg, r).loop != Dead(UnwrapOnNone)
  {
    InvariantHolds(cfg, r);
  }

  // ---- The retransmission ledger ----

  /** In every reachable state, mid-pass and under racing adds and stale removals:
      pushes made, pushes owed to what is stored and pushes forfeited add up to the
      budgets of all insertions. */
  lemma RetransmissionLedger(cfg: Config, r: Run)
    requires Legal(cfg, r)
    ensures Ledger(Final(cfg, r))
  {
    InvariantHolds(cfg, r);
  }

  /** No residency is ever pushed more than its maximum plus one times, and only
      residencies are pushed. */
  lemma PushesWithinBudget(cfg: Config, r: Run, i: nat)
    requires Legal(cfg, r) && i < |Final(cfg, r).calls|
    ensures var c := Final(cfg, r).calls[i];
      c.pushes <= if c.inserted then c.data.maxRetries + 1 else 0
  {
    InvariantHolds(cfg, r);
    assert CallOk(cfg, Final(cfg, r).calls[i]);
  }

  /** A stored count never passes its maximum and is the number of pushes of that very
      residency, less the last one once the loop has listed it as exhausted. */
  lemma CountsArePushes(cfg: Config, r: Run, key: string)
    requires Legal(cfg, r) && key in Final(cfg, r).store
    ensures var s := Final(cfg, r);
      var e := s.store[key];
      && e.owner < |s.calls|
      && e.data.retryCount <= e.data.maxRetries <= cfg.retryCap
      && s.calls[e.owner].pushes == e.data.retryCount + if e.spent then 1 else 0
  {
    InvariantHolds(cfg, r);
    var s := Final(cfg, r);
    assert EntryOk(s.calls, key, s.store[key]);
    assert CallOk(cfg, s.calls[s.store[key].owner]);
  }

  /** No entry left the store in this step before the loop had listed it. */
  ghost predicate LosesNothing(s: State, t: State) {
    forall key :: key in s.store && !s.store[key].spent ==>
      key in t.store && t.store[key].owner == s.store[key].owner
  }

  ghost predicate Undisturbed(cfg: Config, r: Run)
    requires Legal(cfg, r)
  {
    r.Then? ==> Undisturbed(cfg, r.before) && LosesNothing(Final(cfg, r.before), Final(cfg, r))
  }

  lemma {:induction false} WithoutForfeits(s: State, key: string)
    ensures Without(s, key).forfeited >= s.forfeited
    ensures Without(s, key).forfeited == s.forfeited <==> (key in s.store ==> s.store[key].spent)
  {
  }

  lemma RemovalForfeits(cfg: Config, s: State, e: Event)
    requires Enabled(cfg, s, e) && Removes(e)
    ensures Apply(cfg, s, e).forfeited >= s.forfeited
    ensures Apply(cfg, s, e).forfeited == s.forfeited <==> LosesNothing(s, Apply(cfg, s, e))
  {
    var key :=
      if e.EndConfirm? then KeyOf(s, e.call)
      else if e.RemoveReached? then s.loop.reached[0]
      else s.loop.victims[0].signature;
    WithoutForfeits(s, key);
    assert Apply(cfg, s, e).store == s.store - {key} && Apply(cfg, s, e).forfeited == Without(s, key).forfeited;
  }

  lemma InsertForfeits(cfg: Config, s: State, c: nat)
    requires Enabled(cfg, s, Insert(c)) && !s.calls[c].inserted
    requires KeyOf(s, c) in s.store ==> EntryOk(s.calls, KeyOf(s, c), s.store[KeyOf(s, c)])
    ensures Apply(cfg, s, Insert(c)).forfeited >= s.forfeited
    ensures Apply(cfg, s, Insert(c)).forfeited == s.forfeited <==> LosesNothing(s, Apply(cfg, s, Insert(c)))
  {
    var key, t := KeyOf(s, c), Apply(cfg, s, Insert(c));
    WithoutForfeits(s, key);
    assert t.forfeited == Without(s, key).forfeited;
    assert key in s.store ==> t.store[key].owner != s.store[key].owner;
    assert forall k :: k in s.store && k != key ==> k in t.store && t.store[k] == s.store[k];
  }

  lemma VisitForfeits(cfg: Config, s: State, key: string)
    requires Enabled(cfg, s, Visit(key))
    ensures Apply(cfg, s, Visit(key)).forfeited == s.forfeited
    ensures LosesNothing(s, Apply(cfg, s, Visit(key)))
  {
  }

  lemma QuietForfeits(cfg: Config, s: State, e: Event)
    requires Enabled(cfg, s, e) && !Removes(e) && !e.Insert? && !e.Visit?
    ensures Apply(cfg, s, e).forfeited == s.forfeited
    ensures LosesNothing(s, Apply(cfg, s, e))
  {
    StoreChange(cfg, s, e);
  }

  lemma ForfeitStep(cfg: Config, s: State, e: Event)
    requires Shape(cfg, s) && Enabled(cfg, s, e)
    ensures Apply(cfg, s, e).forfeited >= s.forfeited
    ensures Apply(cfg, s, e).forfeited == s.forfeited <==> LosesNothing(s, Apply(cfg, s, e))
  {
    if Removes(e) {
      RemovalForfeits(cfg, s, e);
    } else if e.Insert? {
      assert CallOk(cfg, s.calls[e.call]);
      InsertForfeits(cfg, s, e.call);
    } else if e.Visit? {
      VisitForfeits(cfg, s, e.key);
    } else {
      QuietForfeits(cfg, s, e);
    }
  }

  lemma {:induction false} UndisturbedForfeits(cfg: Config, r: Run)
    requires Legal(cfg, r)
    ensures Undisturbed(cfg, r) <==> Final(cfg, r).forfeited == 0
  {
    if r.Then? {
      InvariantHolds(cfg, r.before);
      UndisturbedForfeits(cfg, r.before);
      ForfeitStep(cfg, Final(cfg, r.before), r.event);
    }
  }

  /** Every push budgeted for has been made or is still owed to a stored entry. */
  ghost predicate NothingWasted(s: State) {
    SeqSum(s.calls, PushesOf) + MapSum(s.store, OwedBy) == SeqSum(s.calls, BudgetOf)
  }

  lemma WastedIffForfeited(s: State)
    requires Ledger(s)
    ensures NothingWasted(s) <==> s.forfeited == 0
  {
  }

  /** The push budget is used in full, or still owed, exactly in the runs in which no
      entry was shed, confirmed, overwritten or removed by a stale task before the
      loop had exhausted it. */
  lemma {:induction false} LedgerIsTight(cfg: Config, r: Run)
    requires Legal(cfg, r)
    ensures Undisturbed(cfg, r) <==> NothingWasted(Final(cfg, r))
  {
    UndisturbedForfeits(cfg, r);
    RetransmissionLedger(cfg, r);
    WastedIffForfeited(Final(cfg, r));
  }

  // ---- Bounds on sending ----

  lemma {:induction false} AttemptsPerTask(tasks: seq<SendTask>)
    requires forall t :: 0 <= t < |tasks| ==> tasks[t].attempts <= SEND_TXN_RETRIES
    ensures SeqSum(tasks, AttemptsOf) <= SEND_TXN_RETRIES * |tasks|
  {
    if tasks != [] {
      AttemptsPerTask(tasks[..|tasks| - 1]);
    }
  }

  lemma ProductBound(leaders: nat, senders: nat, cap: nat, direct: nat, wires: nat, tasks: nat)
    requires direct <= senders && wires <= (cap + 1) * senders && tasks <= leaders * (direct + wires)
    ensures tasks <= leaders * (senders * (cap + 2))
  {
    assert direct + wires <= senders * (cap + 2);
    assert leaders * (direct + wires) <= leaders * (senders * (cap + 2));
  }

  lemma {:induction false} SendBound(cfg: Config, s: State)
    requires Shape(cfg, s) && Ledger(s) && SendsOk(cfg, s)
    ensures SeqSum(s.tasks, AttemptsOf)
         <= SEND_TXN_RETRIES * (cfg.numLeaders * (SeqSum(s.calls, ReachedSender) * (cfg.retryCap + 2)))
  {
    AttemptsPerTask(s.tasks);
    forall c | c in s.calls
      ensures SentDirectly(c) <= 1 * ReachedSender(c) && BudgetOf(c) <= (cfg.retryCap + 1) * ReachedSender(c)
    {
      var i :| 0 <= i < |s.calls| && s.calls[i] == c;
      assert CallOk(cfg, s.calls[i]);
    }
    SeqSumScaled(s.calls, SentDirectly, ReachedSender, 1);
    SeqSumScaled(s.calls, BudgetOf, ReachedSender, cfg.retryCap + 1);
    ProductBound(cfg.numLeaders, SeqSum(s.calls, ReachedSender), cfg.retryCap,
                 SeqSum(s.calls, SentDirectly), |s.sent|, |s.tasks|);
  }

  /** Over any run with A calls let through to the sender, at most
      10 * leaders * A * (cap + 2) connection sends are attempted. */
  lemma WholeRunSendBound(cfg: Config, r: Run)
    requires Legal(cfg, r)
    ensures SeqSum(Final(cfg, r).tasks, AttemptsOf)
         <= SEND_TXN_RETRIES * (cfg.numLeaders * (SeqSum(Final(cfg, r).calls, ReachedSender) * (cfg.retryCap + 2)))
  {
    InvariantHolds(cfg, r);
    SendBound(cfg, Final(cfg, r));
  }

  /** The scan found its full number of leaders, all with an address. */
  ghost predicate FullScan(cfg: Config, view: seq<Reading>) {
    && |Scan(view, cfg.numLeaders)| == cfg.numLeaders
    && forall leader :: leader in ValuesOf(Scan(view, cfg.numLeaders)) ==> leader.tpuQuic.Some?
  }

  lemma {:induction false} FullScanSends(cfg: Config, view: seq<Reading>, wire: seq<bv8>)
    requires FullScan(cfg, view)
    ensures |SendsOf(wire, ValuesOf(Scan(view, cfg.numLeaders)))| == cfg.numLeaders
  {
    AllHaveAddress(wire, ValuesOf(Scan(view, cfg.numLeaders)));
  }

  /** Every scan of the run found its full number of reachable leaders. */
  ghost predicate FullViews(cfg: Config, r: Run) {
    r.Then? ==>
      && FullViews(cfg, r.before)
      && (r.event.SendDirect? || r.event.SendWire? ==> FullScan(cfg, r.event.view))
  }

  ghost predicate FullySent(cfg: Config, s: State) {
    |s.tasks| == cfg.numLeaders * (SeqSum(s.calls, SentDirectly) + |s.sent|)
  }

  lemma ExactShare(share: nat, shares: nat, total: nat)
    requires total == share * shares
    ensures total + share == share * (shares + 1)
  {
  }

  lemma {:induction false} FullySentStep(cfg: Config, s: State, e: Event)
    requires Shape(cfg, s) && Enabled(cfg, s, e) && FullySent(cfg, s)
    requires e.SendDirect? || e.SendWire? ==> FullScan(cfg, e.view)
    ensures FullySent(cfg, Apply(cfg, s, e))
  {
    SentDirectlyStep(cfg, s, e);
    if e.SendDirect? || e.SendWire? {
      SharesGrow(cfg, s, e);
      FullScanSends(cfg, e.view, WireOf(s, e));
    } else {
      SharesStay(cfg, s, e);
    }
    StillFullySent(cfg, s, Apply(cfg, s, e), e.SendDirect? || e.SendWire?);
  }

  lemma StillFullySent(cfg: Config, s: State, t: State, grown: bool)
    requires FullySent(cfg, s)
    requires SeqSum(t.calls, SentDirectly) + |t.sent|
          == SeqSum(s.calls, SentDirectly) + |s.sent| + if grown then 1 else 0
    requires |t.tasks| == |s.tasks| + if grown then cfg.numLeaders else 0
    ensures FullySent(cfg, t)
  {
    ExactShare(cfg.numLeaders, SeqSum(s.calls, SentDirectly) + |s.sent|, |s.tasks|);
  }

  lemma SharesStay(cfg: Config, s: State, e: Event)
    requires Enabled(cfg, s, e) && !e.SendDirect? && !e.SendWire?
    ensures |Apply(cfg, s, e).tasks| == |s.tasks| && Apply(cfg, s, e).sent == s.sent
  {
    if !e.Attempt? {
      TasksKept(cfg, s, e);
    }
  }

  lemma SharesGrow(cfg: Config, s: State, e: Event)
    requires Enabled(cfg, s, e) && (e.SendDirect? || e.SendWire?)
    ensures |Apply(cfg, s, e).tasks| == |s.tasks| + |SendsOf(WireOf(s, e), ValuesOf(Scan(e.view, cfg.numLeaders)))|
    ensures |Apply(cfg, s, e).sent| == |s.sent| + if e.SendWire? then 1 else 0
  {
  }

  /** The number of send tasks is exact: if every scan finds all its leaders reachable,
      each direct send and each pushed wire spawns exactly one per leader. */
  lemma {:induction false} SendsAreExact(cfg: Config, r: Run)
    requires Legal(cfg, r) && FullViews(cfg, r)
    ensures FullySent(cfg, Final(cfg, r))
  {
    if r.Then? {
      SendsAreExact(cfg, r.before);
      InvariantHolds(cfg, r.before);
      FullySentStep(cfg, Final(cfg, r.before), r.event);
    }
  }

  // ---- No leaked entries ----

  /** Every stored entry is under its own signature, belongs to exactly the call that
      inserted it, and that call has its confirm task running or is about to spawn it. */
  ghost predicate Guarded(s: State, key: string)
    requires key in s.store
  {
    var e := s.store[key];
    && e.owner < |s.calls|
    && GetSignature(e.data) == Some(key) == GetSignature(s.calls[e.owner].data)
    && e.data.wire == s.calls[e.owner].data.wire
    && (s.calls[e.owner].confirm == Running || s.calls[e.owner].stage == AtSpawn)
  }

  /** In every reachable state, whatever stale tasks removed and racing adds overwrote,
      each stored entry is guarded. */
  lemma NoLeakedEntries(cfg: Config, r: Run, key: string)
    requires Legal(cfg, r) && key in Final(cfg, r).store
    ensures Guarded(Final(cfg, r), key)
  {
    InvariantHolds(cfg, r);
    var s := Final(cfg, r);
    assert EntryOk(s.calls, key, s.store[key]);
  }

  /** No call is in progress and no confirm task is outstanding. */
  ghost predicate Quiescent(s: State) {
    forall i :: 0 <= i < |s.calls| ==>
      s.calls[i].stage in {Finished, Duplicate, Panicked} && s.calls[i].confirm != Running
  }

  /** So once all calls and all confirm tasks are done, the store is empty. */
  lemma QuiescentIsEmpty(cfg: Config, r: Run)
    requires Legal(cfg, r) && Quiescent(Final(cfg, r))
    ensures Final(cfg, r).store == map[]
  {
    var s := Final(cfg, r);
    forall key ensures key !in s.store {
      if key in s.store {
        NoLeakedEntries(cfg, r, key);
        assert false;
      }
    }
    assert s.store.Keys == {};
  }

  /** Even with confirm tasks that never end, the loop itself removes every entry:
      whenever the loop is idle, an entry has seen no more passes than its count, and
      so no more than its maximum; and its count is at most one ahead. */
  lemma BoundedStay(cfg: Config, r: Run, key: string)
    requires Legal(cfg, r) && Final(cfg, r).loop.Idle? && key in Final(cfg, r).store
    ensures var s := Final(cfg, r);
      var e := s.store[key];
      && s.passes - e.bornPass <= e.data.retryCount <= s.passes - e.bornPass + 1
      && e.data.retryCount <= e.data.maxRetries <= cfg.retryCap
  {
    InvariantHolds(cfg, r);
    var s := Final(cfg, r);
    assert EntryOk(s.calls, key, s.store[key]);
    assert CallOk(cfg, s.calls[s.store[key].owner]);
  }

  // ---- Duplicates ----

  /** A request whose signature is stored changes nothing but its own fate: no entry,
      task or send ... */
  lemma {:induction false} DuplicateIsInert(cfg: Config, s: State, c: nat)
    requires Shape(cfg, s) && Enabled(cfg, s, PassGate(c)) && HasKey(s, c) && KeyOf(s, c) in s.store
    ensures var t := Apply(cfg, s, PassGate(c));
      && t == s.(calls := t.calls) && |t.calls| == |s.calls|
      && t.calls[c] == s.calls[c].(stage := Duplicate)
      && (forall i :: 0 <= i < |s.calls| && i != c ==> t.calls[i] == s.calls[i])
      && SeqSum(t.calls, ReachedSender) == SeqSum(s.calls, ReachedSender)
      && (forall e :: Enabled(cfg, t, e) && OfCall(e) ==> e.call != c)
  {
    var t := Apply(cfg, s, PassGate(c));
    SeqSumUpdate(s.calls, c, t.calls[c], ReachedSender);
    assert CallOk(cfg, s.calls[c]);
  }

  /** No step from one run to another is taken by call `c`. */
  ghost predicate NeverActs(later: Run, from: Run, c: nat) {
    later == from
    || (later.Then? && !(OfCall(later.event) && later.event.call == c) && NeverActs(later.before, from, c))
  }

  lemma DuplicateStep(cfg: Config, s: State, e: Event, c: nat)
    requires Shape(cfg, s) && Enabled(cfg, s, e) && c < |s.calls| && s.calls[c].stage == Duplicate
    ensures c < |Apply(cfg, s, e).calls| && Apply(cfg, s, e).calls[c] == s.calls[c]
    ensures !(OfCall(e) && e.call == c)
  {
    assert CallOk(cfg, s.calls[c]);
    if e.Visit? {
      assert EntryOk(s.calls, e.key, s.store[e.key]);
    } else if !OfCall(e) {
      OtherCalls(cfg, s, e);
    }
  }

  /** ... and once answered as a duplicate, it takes no step in any later run: it never
      inserts, spawns a confirm task or sends. */
  lemma {:induction false} DuplicateNeverActs(cfg: Config, from: Run, later: Run, c: nat)
    requires Legal(cfg, from) && Legal(cfg, later) && Extends(later, from)
    requires c < |Final(cfg, from).calls| && Final(cfg, from).calls[c].stage == Duplicate
    ensures NeverActs(later, from, c)
    ensures c < |Final(cfg, later).calls| && Final(cfg, later).calls[c] == Final(cfg, from).calls[c]
  {
    if later != from {
      DuplicateNeverActs(cfg, from, later.before, c);
      InvariantHolds(cfg, later.before);
      DuplicateStep(cfg, Final(cfg, later.before), later.event, c);
    }
  }

  // ---- How the loop can die ----

  /** The loop dies only on the slice of a snapshot no longer than the limit, and
      then for good. */
  lemma {:induction false} OnlyShortSnapshotsKill(cfg: Config, r: Run)
    requires Legal(cfg, r) && r.Then?
    ensures Final(cfg, r).loop.Dead? <==>
      Final(cfg, r.before).loop.Dead?
      || (r.event.CutTail? && |Final(cfg, r.before).loop.rows| <= cfg.maxQueue.value)
  {
    NeverUnwrapsNone(cfg, r.before);
    NeverUnwrapsNone(cfg, r);
    DeathStep(cfg, Final(cfg, r.before), r.event);
  }

  lemma DeathStep(cfg: Config, s: State, e: Event)
    requires Enabled(cfg, s, e)
    ensures Apply(cfg, s, e).loop == Dead(SliceOutOfRange) <==>
      s.loop == Dead(SliceOutOfRange) || (e.CutTail? && |s.loop.rows| <= cfg.maxQueue.value)
  {
  }
}

// Every step of the interleaved system keeps its invariant: the shape of calls and
// entries, the push ledger, and the count of send tasks.
module RetransmissionProofs {
  import opened Sums
  import opened LeaderScan
  import opened Sends
  import opened RetryQueue
  import opened Retransmission

  // ---- Which steps touch what ----

  /** Steps of request handlers and confirm tasks. */
  predicate OfCall(e: Event) {
    e.PassGate? || e.TestStored? || e.Insert? || e.SpawnConfirm? || e.SendDirect? || e.EndConfirm?
  }

  predicate Removes(e: Event) {
    e.EndConfirm? || e.ShedOnce? || e.ShedAgain? || e.RemoveReached?
  }

  // ---- Calls ----

  lemma HandlerCall(cfg: Config, s: State, e: Event, i: nat)
    requires Enabled(cfg, s, e) && OfCall(e) && i < |s.calls| && CallOk(cfg, s.calls[i])
    ensures CallOk(cfg, Apply(cfg, s, e).calls[i])
  {
  }

  lemma VisitCall(cfg: Config, s: State, key: string, i: nat)
    requires Enabled(cfg, s, Visit(key)) && i < |s.calls| && CallOk(cfg, s.calls[i])
    requires EntryOk(s.calls, key, s.store[key]) && !s.store[key].spent
    ensures CallOk(cfg, Apply(cfg, s, Visit(key)).calls[i])
  {
  }

  lemma OtherCalls(cfg: Config, s: State, e: Event)
    requires Enabled(cfg, s, e) && !OfCall(e) && !e.Visit?
    ensures s.calls <= Apply(cfg, s, e).calls
    ensures e.Arrive? ==> |Apply(cfg, s, e).calls| == |s.calls| + 1 && CallOk(cfg, Apply(cfg, s, e).calls[|s.calls|])
    ensures !e.Arrive? ==> Apply(cfg, s, e).calls == s.calls
  {
  }

  lemma CallsStep(cfg: Config, s: State, e: Event, i: nat)
    requires Shape(cfg, s) && Enabled(cfg, s, e) && i < |Apply(cfg, s, e).calls|
    ensures CallOk(cfg, Apply(cfg, s, e).calls[i])
  {
    if OfCall(e) {
      HandlerCall(cfg, s, e, i);
    } else if e.Visit? {
      NotYetSpent(cfg, s, e.key);
      VisitCall(cfg, s, e.key, i);
    } else {
      OtherCalls(cfg, s, e);
    }
  }

  /** Nothing is visited again once it is listed as exhausted. */
  lemma NotYetSpent(cfg: Config, s: State, key: string)
    requires Shape(cfg, s) && Enabled(cfg, s, Visit(key))
    ensures !s.store[key].spent && EntryOk(s.calls, key, s.store[key])
  {
  }

  // ---- Entries ----

  lemma QuietEntry(cfg: Config, s: State, e: Event, key: string)
    requires Enabled(cfg, s, e) && !Removes(e) && !e.Insert? && !e.Visit?
    requires key in s.store && EntryOk(s.calls, key, s.store[key])
    ensures EntryOk(Apply(cfg, s, e).calls, key, s.store[key])
  {
  }

  lemma RemovedEntry(cfg: Config, s: State, e: Event, key: string)
    requires Enabled(cfg, s, e) && Removes(e)
    requires key in s.store && EntryOk(s.calls, key, s.store[key])
    requires key in Apply(cfg, s, e).store
    ensures EntryOk(Apply(cfg, s, e).calls, key, s.store[key])
  {
  }

  lemma StoreChange(cfg: Config, s: State, e: Event)
    requires Enabled(cfg, s, e) && !e.Insert? && !e.Visit?
    ensures Removes(e) ==> forall key :: key in Apply(cfg, s, e).store ==>
      key in s.store && Apply(cfg, s, e).store[key] == s.store[key]
    ensures !Removes(e) ==> Apply(cfg, s, e).store == s.store
    ensures Apply(cfg, s, e).ticks == s.ticks
  {
  }

  lemma InsertEntry(cfg: Config, s: State, c: nat, key: string)
    requires Enabled(cfg, s, Insert(c)) && CallOk(cfg, s.calls[c])
    requires key in Apply(cfg, s, Insert(c)).store
    requires key in s.store ==> EntryOk(s.calls, key, s.store[key])
    ensures EntryOk(Apply(cfg, s, Insert(c)).calls, key, Apply(cfg, s, Insert(c)).store[key])
  {
  }

  lemma VisitEntry(cfg: Config, s: State, at: string, key: string)
    requires Enabled(cfg, s, Visit(at)) && key in s.store
    requires !s.store[at].spent && EntryOk(s.calls, at, s.store[at]) && EntryOk(s.calls, key, s.store[key])
    ensures key in Apply(cfg, s, Visit(at)).store
    ensures EntryOk(Apply(cfg, s, Visit(at)).calls, key, Apply(cfg, s, Visit(at)).store[key])
  {
  }

  lemma OtherEntry(cfg: Config, s: State, e: Event, key: string)
    requires Shape(cfg, s) && Enabled(cfg, s, e) && !e.Insert? && !e.Visit? && key in Apply(cfg, s, e).store
    ensures EntryOk(Apply(cfg, s, e).calls, key, Apply(cfg, s, e).store[key])
  {
    StoreChange(cfg, s, e);
    assert key in s.store && EntryOk(s.calls, key, s.store[key]);
    if Removes(e) {
      RemovedEntry(cfg, s, e, key);
    } else {
      QuietEntry(cfg, s, e, key);
    }
  }

  lemma EntriesStep(cfg: Config, s: State, e: Event, key: string)
    requires Shape(cfg, s) && Enabled(cfg, s, e) && key in Apply(cfg, s, e).store
    ensures EntryOk(Apply(cfg, s, e).calls, key, Apply(cfg, s, e).store[key])
  {
    if e.Insert? {
      InsertEntry(cfg, s, e.call, key);
    } else if e.Visit? {
      NotYetSpent(cfg, s, e.key);
      VisitEntry(cfg, s, e.key, key);
    } else {
      OtherEntry(cfg, s, e, key);
    }
  }

  // ---- The loop ----

  lemma ListedKept(cfg: Config, s: State, e: Event)
    requires Enabled(cfg, s, e) && !e.Visit? && !e.RemoveReached?
    ensures Listed(Apply(cfg, s, e).loop) == Listed(s.loop)
    ensures Apply(cfg, s, e).loop == Dead(UnwrapOnNone) ==> s.loop == Dead(UnwrapOnNone)
    ensures Apply(cfg, s, e).loop.Iterating? ==> Apply(cfg, s, e).loop == s.loop || e.BeginPass?
    ensures e.BeginPass? ==> Apply(cfg, s, e).loop.reached == []
  {
  }

  lemma VisitLoop(cfg: Config, s: State, key: string)
    requires Enabled(cfg, s, Visit(key)) && LoopOk(cfg, s) && !s.store[key].spent
    requires EntryOk(s.calls, key, s.store[key])
    ensures LoopOk(cfg, Apply(cfg, s, Visit(key)))
  {
  }

  lemma RemoveReachedLoop(cfg: Config, s: State)
    requires Enabled(cfg, s, RemoveReached) && LoopOk(cfg, s)
    ensures LoopOk(cfg, Apply(cfg, s, RemoveReached))
  {
  }

  lemma RowsDistinct(cfg: Config, s: State, e: Event)
    requires Enabled(cfg, s, e) && LoopOk(cfg, s) && Apply(cfg, s, e).loop.Snapshotting?
    ensures cfg.maxQueue.Some? && DistinctRows(Apply(cfg, s, e).loop.rows)
  {
    if e.Observe? {
      var rows := s.loop.rows;
      forall i | 0 <= i < |rows| ensures rows[i].signature != e.key {
        assert SignaturesOf(rows)[i] == rows[i].signature;
      }
    }
  }

  lemma LoopStep(cfg: Config, s: State, e: Event)
    requires Shape(cfg, s) && Enabled(cfg, s, e)
    ensures LoopOk(cfg, Apply(cfg, s, e))
  {
    if e.Visit? {
      NotYetSpent(cfg, s, e.key);
      VisitLoop(cfg, s, e.key);
    } else if e.RemoveReached? {
      RemoveReachedLoop(cfg, s);
    } else {
      ListedKept(cfg, s, e);
      if Apply(cfg, s, e).loop.Snapshotting? {
        RowsDistinct(cfg, s, e);
      }
      if !e.Insert? {
        StoreChange(cfg, s, e);
      }
    }
  }

  // ---- Ages ----

  lemma PushesKept(cfg: Config, s: State, e: Event, i: nat)
    requires Enabled(cfg, s, e) && !e.Visit? && i < |s.calls|
    ensures i < |Apply(cfg, s, e).calls| && Apply(cfg, s, e).calls[i].pushes == s.calls[i].pushes
  {
  }

  lemma DueKept(cfg: Config, s: State, e: Event, key: string)
    requires Enabled(cfg, s, e) && !e.Visit? && !e.BeginPass? && !e.EndVisits?
    ensures Due(Apply(cfg, s, e), key) == Due(s, key)
    ensures Apply(cfg, s, e).passes == s.passes
  {
  }

  ghost predicate AgeHolds(s: State, key: string)
    requires key in s.store
  {
    && s.store[key].owner < |s.calls|
    && s.store[key].bornTick < s.ticks
    && AgeOk(s.store[key], s.calls[s.store[key].owner].pushes, s.passes, Due(s, key))
  }

  lemma InsertAge(cfg: Config, s: State, c: nat, key: string)
    requires Enabled(cfg, s, Insert(c)) && CallOk(cfg, s.calls[c])
    requires key in Apply(cfg, s, Insert(c)).store
    requires key in s.store ==> AgeHolds(s, key)
    ensures AgeHolds(Apply(cfg, s, Insert(c)), key)
  {
  }

  lemma VisitAge(cfg: Config, s: State, at: string, key: string)
    requires Enabled(cfg, s, Visit(at)) && key in s.store && AgeHolds(s, at) && AgeHolds(s, key)
    requires !s.store[at].spent && EntryOk(s.calls, at, s.store[at]) && EntryOk(s.calls, key, s.store[key])
    ensures key in Apply(cfg, s, Visit(at)).store && AgeHolds(Apply(cfg, s, Visit(at)), key)
  {
  }

  lemma OtherAge(cfg: Config, s: State, e: Event, key: string)
    requires Enabled(cfg, s, e) && !e.Visit? && !e.Insert?
    requires key in s.store && AgeHolds(s, key) && key in Apply(cfg, s, e).store
    ensures AgeHolds(Apply(cfg, s, e), key)
  {
    StoreChange(cfg, s, e);
    PushesKept(cfg, s, e, s.store[key].owner);
    if !e.BeginPass? && !e.EndVisits? {
      DueKept(cfg, s, e, key);
    }
  }

  lemma AgesStep(cfg: Config, s: State, e: Event, key: string)
    requires Shape(cfg, s) && Enabled(cfg, s, e) && key in Apply(cfg, s, e).store
    ensures AgeHolds(Apply(cfg, s, e), key)
  {
    assert key in s.store ==> EntryOk(s.calls, key, s.store[key]) && AgeHolds(s, key);
    if e.Insert? {
      InsertAge(cfg, s, e.call, key);
    } else if e.Visit? {
      NotYetSpent(cfg, s, e.key);
      VisitAge(cfg, s, e.key, key);
    } else {
      StoreChange(cfg, s, e);
      OtherAge(cfg, s, e, key);
    }
  }

  lemma ShapeStep(cfg: Config, s: State, e: Event)
    requires Shape(cfg, s) && Enabled(cfg, s, e)
    ensures Shape(cfg, Apply(cfg, s, e))
  {
    var t := Apply(cfg, s, e);
    forall i | 0 <= i < |t.calls| ensures CallOk(cfg, t.calls[i]) {
      CallsStep(cfg, s, e, i);
    }
    forall key | key in t.store
      ensures EntryOk(t.calls, key, t.store[key]) && AgeHolds(t, key)
    {
      EntriesStep(cfg, s, e, key);
      AgesStep(cfg, s, e, key);
    }
    LoopStep(cfg, s, e);
  }

  // ---- The ledger ----

  lemma {:induction false} RemovalBalances(s: State, key: string)
    ensures MapSum(Without(s, key).store, OwedBy) + Without(s, key).forfeited
         == MapSum(s.store, OwedBy) + s.forfeited
  {
    if key in s.store {
      MapSumRemove(s.store, key, OwedBy);
    }
  }

  /** A call that changes neither its push count nor whether it inserted moves no sum. */
  lemma {:induction false} StageMovesNoSum(calls: seq<Call>, i: nat, c: Call)
    requires i < |calls| && c.pushes == calls[i].pushes && c.inserted == calls[i].inserted && c.data == calls[i].data
    ensures SeqSum(calls[i := c], PushesOf) == SeqSum(calls, PushesOf)
    ensures SeqSum(calls[i := c], BudgetOf) == SeqSum(calls, BudgetOf)
  {
    SeqSumUpdate(calls, i, c, PushesOf);
    SeqSumUpdate(calls, i, c, BudgetOf);
  }

  lemma {:induction false} InsertBalances(cfg: Config, s: State, c: nat)
    requires Enabled(cfg, s, Insert(c)) && CallOk(cfg, s.calls[c]) && Ledger(s)
    ensures Ledger(Apply(cfg, s, Insert(c)))
  {
    var key := KeyOf(s, c);
    var call := s.calls[c].(stage := AtSpawn, inserted := true);
    var entry := Entry(s.calls[c].data, c, s.passes, s.ticks, false);
    RemovalBalances(s, key);
    MapSumUpdate(Without(s, key).store, key, entry, OwedBy);
    assert Without(s, key).store - {key} == Without(s, key).store;
    SeqSumUpdate(s.calls, c, call, PushesOf);
    SeqSumUpdate(s.calls, c, call, BudgetOf);
  }

  /** A visit spends one owed push of the visited entry. */
  lemma {:induction false} VisitSpendsOne(cfg: Config, s: State, key: string)
    requires Enabled(cfg, s, Visit(key)) && !s.store[key].spent && EntryOk(s.calls, key, s.store[key])
    ensures MapSum(Apply(cfg, s, Visit(key)).store, OwedBy) + 1 == MapSum(s.store, OwedBy)
  {
    MapSumRemove(s.store, key, OwedBy);
    MapSumUpdate(s.store, key, Apply(cfg, s, Visit(key)).store[key], OwedBy);
  }

  lemma {:induction false} VisitCounts(cfg: Config, s: State, key: string)
    requires Enabled(cfg, s, Visit(key))
    ensures SeqSum(Apply(cfg, s, Visit(key)).calls, PushesOf) == SeqSum(s.calls, PushesOf) + 1
    ensures SeqSum(Apply(cfg, s, Visit(key)).calls, BudgetOf) == SeqSum(s.calls, BudgetOf)
    ensures SeqSum(Apply(cfg, s, Visit(key)).calls, SentDirectly) == SeqSum(s.calls, SentDirectly)
  {
    var owner := s.store[key].owner;
    var counted := s.calls[owner].(pushes := s.calls[owner].pushes + 1);
    SeqSumUpdate(s.calls, owner, counted, PushesOf);
    SeqSumUpdate(s.calls, owner, counted, BudgetOf);
    SeqSumUpdate(s.calls, owner, counted, SentDirectly);
  }

  lemma {:induction false} VisitBalances(cfg: Config, s: State, key: string)
    requires Enabled(cfg, s, Visit(key)) && Ledger(s)
    requires !s.store[key].spent && EntryOk(s.calls, key, s.store[key])
    ensures Ledger(Apply(cfg, s, Visit(key)))
  {
    VisitSpendsOne(cfg, s, key);
    VisitCounts(cfg, s, key);
  }

  lemma {:induction false} CallBalances(cfg: Config, s: State, e: Event)
    requires Enabled(cfg, s, e) && OfCall(e) && !e.Insert? && Ledger(s)
    ensures Ledger(Apply(cfg, s, e))
  {
    StageMovesNoSum(s.calls, e.call, Apply(cfg, s, e).calls[e.call]);
    if e.EndConfirm? {
      RemovalBalances(s, KeyOf(s, e.call));
    }
  }

  lemma {:induction false} LoopRemovalBalances(cfg: Config, s: State, e: Event)
    requires Enabled(cfg, s, e) && (e.ShedOnce? || e.ShedAgain? || e.RemoveReached?) && Ledger(s)
    ensures Ledger(Apply(cfg, s, e))
  {
    RemovalBalances(s, if e.RemoveReached? then s.loop.reached[0] else s.loop.victims[0].signature);
  }

  lemma {:induction false} LoopBalances(cfg: Config, s: State, e: Event)
    requires Enabled(cfg, s, e) && !OfCall(e) && !e.Visit? && !e.Arrive? && !Removes(e) && Ledger(s)
    ensures Ledger(Apply(cfg, s, e))
  {
  }

  lemma {:induction false} LedgerStep(cfg: Config, s: State, e: Event)
    requires Shape(cfg, s) && Ledger(s) && Enabled(cfg, s, e)
    ensures Ledger(Apply(cfg, s, e))
  {
    if e.Insert? {
      InsertBalances(cfg, s, e.call);
    } else if e.Visit? {
      NotYetSpent(cfg, s, e.key);
      VisitBalances(cfg, s, e.key);
    } else if e.Arrive? {
      var c := Apply(cfg, s, e).calls[|s.calls|];
      SeqSumAppend(s.calls, c, PushesOf);
      SeqSumAppend(s.calls, c, BudgetOf);
    } else if OfCall(e) {
      CallBalances(cfg, s, e);
    } else if Removes(e) {
      LoopRemovalBalances(cfg, s, e);
    } else {
      LoopBalances(cfg, s, e);
    }
  }

  // ---- Send tasks ----

  lemma {:induction false} FewNewTasks(s: State, wire: seq<bv8>, view: seq<Reading>, numLeaders: nat)
    requires |view| <= 4 * numLeaders
    ensures |WithSends(s, wire, view, numLeaders).tasks| <= |s.tasks| + numLeaders
    ensures forall t :: t in WithSends(s, wire, view, numLeaders).tasks ==> t in s.tasks || (t.attempts == 0 && !t.done)
  {
    ScanRefines(view, numLeaders);
    SendCount(wire, ValuesOf(Scan(view, numLeaders)));
  }

  /** The wire a sending step sends. */
  function WireOf(s: State, e: Event): seq<bv8>
    requires if e.SendDirect? then e.call < |s.calls| else s.loop.Sending? && s.loop.wires != []
  {
    if e.SendDirect? then s.calls[e.call].data.wire else s.loop.wires[0]
  }

  lemma {:induction false} CallSends(cfg: Config, s: State, e: Event)
    requires Enabled(cfg, s, e) && OfCall(e)
    requires e.call < |s.calls| && CallOk(cfg, s.calls[e.call])
    ensures SeqSum(Apply(cfg, s, e).calls, SentDirectly)
         == SeqSum(s.calls, SentDirectly) + if e.SendDirect? then 1 else 0
  {
    SeqSumUpdate(s.calls, e.call, Apply(cfg, s, e).calls[e.call], SentDirectly);
  }

  lemma {:induction false} SentDirectlyStep(cfg: Config, s: State, e: Event)
    requires Shape(cfg, s) && Enabled(cfg, s, e)
    ensures SeqSum(Apply(cfg, s, e).calls, SentDirectly)
         == SeqSum(s.calls, SentDirectly) + if e.SendDirect? then 1 else 0
  {
    if OfCall(e) {
      CallSends(cfg, s, e);
    } else if e.Visit? {
      VisitCounts(cfg, s, e.key);
    } else {
      OtherCalls(cfg, s, e);
      if e.Arrive? {
        SeqSumAppend(s.calls, Apply(cfg, s, e).calls[|s.calls|], SentDirectly);
      }
    }
  }

  lemma TasksKept(cfg: Config, s: State, e: Event)
    requires Enabled(cfg, s, e) && !e.SendDirect? && !e.SendWire? && !e.Attempt?
    ensures Apply(cfg, s, e).tasks == s.tasks && Apply(cfg, s, e).sent == s.sent
  {
  }

  lemma {:induction false} NewTasksOk(cfg: Config, s: State, e: Event)
    requires Enabled(cfg, s, e) && (e.SendDirect? || e.SendWire?) && SendsOk(cfg, s)
    requires SeqSum(Apply(cfg, s, e).calls, SentDirectly)
          == SeqSum(s.calls, SentDirectly) + if e.SendDirect? then 1 else 0
    ensures SendsOk(cfg, Apply(cfg, s, e))
  {
    var tasks := Apply(cfg, s, e).tasks;
    assert tasks == WithSends(s, WireOf(s, e), e.view, cfg.numLeaders).tasks;
    FewNewTasks(s, WireOf(s, e), e.view, cfg.numLeaders);
    OneMoreShare(cfg.numLeaders, SeqSum(s.calls, SentDirectly) + |s.sent|, |s.tasks|, |tasks|);
    forall t | 0 <= t < |tasks|
      ensures tasks[t].attempts <= SEND_TXN_RETRIES && (!tasks[t].done ==> tasks[t].attempts < SEND_TXN_RETRIES)
    {
      assert tasks[t] in tasks;
    }
  }

  lemma {:induction false} SendsStep(cfg: Config, s: State, e: Event)
    requires Shape(cfg, s) && SendsOk(cfg, s) && Enabled(cfg, s, e)
    ensures SendsOk(cfg, Apply(cfg, s, e))
  {
    SentDirectlyStep(cfg, s, e);
    if e.SendDirect? || e.SendWire? {
      NewTasksOk(cfg, s, e);
    } else if e.Attempt? {
    } else {
      TasksKept(cfg, s, e);
    }
  }
}

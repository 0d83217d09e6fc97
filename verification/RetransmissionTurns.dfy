// A turn of the retry loop that nobody disturbs, taken step by step in the
// interleaved system, does what the sequential specification says: it sheds, then
// pushes every entry once and counts up or drops it. In particular it never dies.
module RetransmissionTurns {
  import opened Traces
  import opened Wrappers
  import opened Sums
  import opened Transactions
  import opened TransactionStores
  import opened RetryQueue
  import opened Retransmission
  import opened RetransmissionTheorems
  import opened RetransmissionProgress

  function DataOf(store: map<string, Entry>): Contents {
    map key | key in store :: store[key].data
  }

  predicate Quietly(later: Run, from: Run) {
    later == from || (later.Then? && OfLoop(later.event) && Quietly(later.before, from))
  }

  /** Where the turn started: the queue, the passes begun, the insertions made and the
      wires sent until then. */
  datatype Outset = Outset(queue: Contents, passes: nat, ticks: nat, sent: seq<seq<bv8>>)

  ghost predicate Untouched(o: Outset, s: State) {
    && s.ticks == o.ticks
    && (forall key :: key in s.store ==> s.store[key].bornPass <= o.passes && s.store[key].bornTick < o.ticks)
    && (forall key :: key in s.store ==> GetSignature(s.store[key].data) == Some(key) && s.store[key].owner < |s.calls|)
  }

  ghost predicate BeforePass(cfg: Config, o: Outset, s: State) {
    && s.sent == o.sent
    && match s.loop
       case Idle => DataOf(s.store) == o.queue
       case Snapshotting(since, rows) =>
         && DataOf(s.store) == o.queue && since == o.ticks
         && cfg.maxQueue.Some? && |o.queue| > cfg.maxQueue.value
         && DistinctRows(rows)
         && (forall r :: r in rows ==> r.signature in o.queue && r.data == o.queue[r.signature])
       case Shedding(victims, _) =>
         ShedTo(o.queue, cfg.maxQueue, DataOf(s.store) - Elements(SignaturesOf(victims)))
       case _ => false
  }

  ghost predicate ListsExhausted(reached: seq<string>, kept: Contents, done: set<string>) {
    forall key :: key in reached <==> key in done && key in kept && Exhausted(kept[key])
  }

  /** The wires of all kept entries, once each, are sent or about to be. */
  ghost predicate AllPushed(o: Outset, sent: seq<seq<bv8>>, kept: Contents, order: seq<string>) {
    IsOrderOf(order, kept.Keys) && sent == o.sent + WiresOf(kept, order)
  }

  /** `kept` is what shedding left, and `order` how the pass traverses it. */
  ghost predicate DuringPass(cfg: Config, o: Outset, s: State, kept: Contents, order: seq<string>) {
    && ShedTo(o.queue, cfg.maxQueue, kept)
    && match s.loop
       case Iterating(visited, wires, reached) =>
         && visited <= kept.Keys && DataOf(s.store) == CountedUp(kept, visited)
         && ListsExhausted(reached, kept, visited)
         && IsOrderOf(order, visited) && wires == WiresOf(kept, order) && s.sent == o.sent
       case Sending(wires, reached) =>
         && DataOf(s.store) == CountedUp(kept, kept.Keys)
         && ListsExhausted(reached, kept, kept.Keys)
         && AllPushed(o, s.sent + wires, kept, order)
       case Removing(reached) =>
         DataOf(s.store) - Elements(reached) == AfterPass(kept) && AllPushed(o, s.sent, kept, order)
       case Idle => DataOf(s.store) == AfterPass(kept) && AllPushed(o, s.sent, kept, order)
       case _ => true
  }

  ghost predicate TurnInv(cfg: Config, o: Outset, s: State) {
    && Untouched(o, s)
    && o.passes <= s.passes
    && (s.passes == o.passes ==> BeforePass(cfg, o, s))
    && (s.passes == o.passes + 1 ==> exists kept, order :: DuringPass(cfg, o, s, kept, order))
  }

  lemma LoopKeeps(cfg: Config, s: State, e: Event)
    requires Enabled(cfg, s, e) && OfLoop(e) && !e.Visit?
    ensures Apply(cfg, s, e).ticks == s.ticks && Apply(cfg, s, e).calls == s.calls
    ensures forall key :: key in Apply(cfg, s, e).store ==> key in s.store && Apply(cfg, s, e).store[key] == s.store[key]
  {
  }

  lemma {:induction false} UntouchedStep(cfg: Config, o: Outset, s: State, e: Event)
    requires Enabled(cfg, s, e) && OfLoop(e) && Untouched(o, s)
    ensures Untouched(o, Apply(cfg, s, e))
  {
    if !e.Visit? {
      LoopKeeps(cfg, s, e);
    }
  }

  lemma MeasureStep(cfg: Config, o: Outset, s: State)
    requires Enabled(cfg, s, Measure) && Untouched(o, s) && BeforePass(cfg, o, s)
    ensures BeforePass(cfg, o, Apply(cfg, s, Measure))
  {
    assert DataOf(s.store).Keys == s.store.Keys;
    assert |DataOf(s.store)| == |s.store|;
    assert DataOf(s.store) - Elements(SignaturesOf([])) == DataOf(s.store);
  }

  lemma ObserveStep(cfg: Config, o: Outset, s: State, key: string)
    requires Enabled(cfg, s, Observe(key)) && BeforePass(cfg, o, s)
    ensures BeforePass(cfg, o, Apply(cfg, s, Observe(key)))
  {
    var rows := s.loop.rows;
    forall i | 0 <= i < |rows| ensures rows[i].signature != key {
      assert SignaturesOf(rows)[i] == rows[i].signature;
    }
  }

  lemma CompleteSnapshot(rows: seq<Row>, queue: Contents)
    requires DistinctRows(rows)
    requires forall r :: r in rows ==> r.signature in queue && r.data == queue[r.signature]
    requires forall key :: key in queue ==> key in SignaturesOf(rows)
    ensures IsSnapshot(rows, queue) && |rows| == |queue|
  {
    forall key | key in queue ensures Row(key, queue[key]) in rows {
      var i :| 0 <= i < |rows| && SignaturesOf(rows)[i] == key;
      assert rows[i] in rows;
    }
    SnapshotSize(rows, queue);
  }

  /** The completed snapshot is long enough to be cut. */
  lemma CutTailStep(cfg: Config, o: Outset, s: State)
    requires Enabled(cfg, s, CutTail) && Untouched(o, s) && BeforePass(cfg, o, s)
    ensures BeforePass(cfg, o, Apply(cfg, s, CutTail))
  {
    var rows := s.loop.rows;
    forall key | key in o.queue ensures key in SignaturesOf(rows) {
      assert key in DataOf(s.store);
    }
    CompleteSnapshot(rows, o.queue);
    VictimsShed(rows, o.queue, cfg.maxQueue.value, Victims(rows, cfg.maxQueue.value).value);
  }

  lemma VictimsSplit(victims: seq<Row>, m: Contents)
    requires victims != []
    ensures m - {victims[0].signature} - Elements(SignaturesOf(victims[1..])) == m - Elements(SignaturesOf(victims))
    ensures m - {victims[0].signature} - Elements(SignaturesOf(victims)) == m - Elements(SignaturesOf(victims))
  {
    assert SignaturesOf(victims) == [victims[0].signature] + SignaturesOf(victims[1..]);
    assert Elements(SignaturesOf(victims)) == {victims[0].signature} + Elements(SignaturesOf(victims[1..]));
  }

  lemma DataWithout(s: State, key: string)
    ensures DataOf(Without(s, key).store) == DataOf(s.store) - {key}
  {
  }

  lemma ShedOnceStep(cfg: Config, o: Outset, s: State)
    requires Enabled(cfg, s, ShedOnce) && BeforePass(cfg, o, s)
    ensures BeforePass(cfg, o, Apply(cfg, s, ShedOnce))
  {
    DataWithout(s, s.loop.victims[0].signature);
    VictimsSplit(s.loop.victims, DataOf(s.store));
  }

  lemma ShedAgainStep(cfg: Config, o: Outset, s: State)
    requires Enabled(cfg, s, ShedAgain) && BeforePass(cfg, o, s)
    ensures BeforePass(cfg, o, Apply(cfg, s, ShedAgain))
  {
    DataWithout(s, s.loop.victims[0].signature);
    VictimsSplit(s.loop.victims, DataOf(s.store));
  }

  lemma BeginStep(cfg: Config, o: Outset, s: State)
    requires Enabled(cfg, s, BeginPass) && BeforePass(cfg, o, s)
    ensures DuringPass(cfg, o, Apply(cfg, s, BeginPass), DataOf(s.store), [])
  {
    NothingLeftToShed(DataOf(s.store));
  }

  lemma NothingLeftToShed(m: Contents)
    ensures m - Elements(SignaturesOf([])) == m && CountedUp(m, {}) == m
  {
  }

  lemma VisitedData(cfg: Config, s: State, key: string, kept: Contents)
    requires Enabled(cfg, s, Visit(key)) && DataOf(s.store) == CountedUp(kept, s.loop.visited)
    requires GetSignature(s.store[key].data) == Some(key)
    ensures key in kept && s.store[key].data == kept[key]
    ensures DataOf(Apply(cfg, s, Visit(key)).store) == CountedUp(kept, s.loop.visited + {key})
  {
    assert key in DataOf(s.store) && DataOf(s.store)[key] == s.store[key].data;
    CountOneMore(kept, s.loop.visited, key);
  }

  lemma VisitedLoop(cfg: Config, s: State, key: string)
    requires Enabled(cfg, s, Visit(key)) && GetSignature(s.store[key].data) == Some(key)
    ensures Apply(cfg, s, Visit(key)).sent == s.sent
    ensures var d := s.store[key].data;
      Apply(cfg, s, Visit(key)).loop
      == Iterating(s.loop.visited + {key}, s.loop.wires + [d.wire],
                   if Exhausted(d) then s.loop.reached + [key] else s.loop.reached)
  {
  }

  lemma VisitStep(cfg: Config, o: Outset, s: State, key: string, kept: Contents, order: seq<string>)
    requires Enabled(cfg, s, Visit(key)) && Untouched(o, s) && DuringPass(cfg, o, s, kept, order)
    ensures DuringPass(cfg, o, Apply(cfg, s, Visit(key)), kept, order + [key])
  {
    VisitedData(cfg, s, key, kept);
    VisitedLoop(cfg, s, key);
    WiresOneMore(kept, order, key);
    OrderOneMore(order, s.loop.visited, key);
  }

  /** Everything was stored before the pass began, so everything has been visited. */
  lemma EndVisitsStep(cfg: Config, o: Outset, s: State, kept: Contents, order: seq<string>)
    requires Enabled(cfg, s, EndVisits) && Untouched(o, s) && s.passes == o.passes + 1
    requires DuringPass(cfg, o, s, kept, order)
    ensures DuringPass(cfg, o, Apply(cfg, s, EndVisits), kept, order)
  {
    forall key | key in kept ensures key in s.loop.visited {
      assert key in DataOf(s.store);
    }
    assert s.loop.visited == kept.Keys;
  }

  lemma SendWireStep(cfg: Config, o: Outset, s: State, e: Event, kept: Contents, order: seq<string>)
    requires Enabled(cfg, s, e) && e.SendWire? && DuringPass(cfg, o, s, kept, order)
    ensures DuringPass(cfg, o, Apply(cfg, s, e), kept, order)
  {
    var wires := s.loop.wires;
    assert s.sent + [wires[0]] + wires[1..] == s.sent + wires;
  }

  lemma EndSendsStep(cfg: Config, o: Outset, s: State, kept: Contents, order: seq<string>)
    requires Enabled(cfg, s, EndSends) && DuringPass(cfg, o, s, kept, order)
    ensures DuringPass(cfg, o, Apply(cfg, s, EndSends), kept, order)
  {
    CountedUpIsPass(kept, Elements(s.loop.reached));
    assert s.sent + [] == s.sent;
  }

  lemma ReachedSplit(reached: seq<string>, m: Contents)
    requires reached != []
    ensures m - {reached[0]} - Elements(reached[1..]) == m - Elements(reached)
  {
    assert reached == [reached[0]] + reached[1..];
    assert Elements(reached) == {reached[0]} + Elements(reached[1..]);
  }

  lemma RemoveReachedStep(cfg: Config, o: Outset, s: State, kept: Contents, order: seq<string>)
    requires Enabled(cfg, s, RemoveReached) && DuringPass(cfg, o, s, kept, order)
    ensures DuringPass(cfg, o, Apply(cfg, s, RemoveReached), kept, order)
  {
    DataWithout(s, s.loop.reached[0]);
    ReachedSplit(s.loop.reached, DataOf(s.store));
  }

  lemma SleepStep(cfg: Config, o: Outset, s: State, kept: Contents, order: seq<string>)
    requires Enabled(cfg, s, Sleep) && DuringPass(cfg, o, s, kept, order)
    ensures DuringPass(cfg, o, Apply(cfg, s, Sleep), kept, order)
  {
    assert DataOf(s.store) - Elements([]) == DataOf(s.store);
  }

  /** Send attempts touch nothing else; and past the turn the claim says nothing until
      the next pass begins. */
  lemma OtherDuring(cfg: Config, o: Outset, s: State, e: Event, kept: Contents, order: seq<string>)
    requires Enabled(cfg, s, e) && DuringPass(cfg, o, s, kept, order)
    requires e.Attempt? || e.Measure? || e.Observe? || e.CutTail? || e.ShedOnce? || e.ShedAgain?
    ensures DuringPass(cfg, o, Apply(cfg, s, e), kept, order)
  {
  }

  lemma DuringStep(cfg: Config, o: Outset, s: State, e: Event, kept: Contents, order: seq<string>)
    requires Enabled(cfg, s, e) && OfLoop(e) && !e.BeginPass?
    requires Untouched(o, s) && s.passes == o.passes + 1 && DuringPass(cfg, o, s, kept, order)
    ensures DuringPass(cfg, o, Apply(cfg, s, e), kept, if e.Visit? then order + [e.key] else order)
  {
    match e
    case Visit(key) => VisitStep(cfg, o, s, key, kept, order);
    case EndVisits => EndVisitsStep(cfg, o, s, kept, order);
    case SendWire(_) => SendWireStep(cfg, o, s, e, kept, order);
    case EndSends => EndSendsStep(cfg, o, s, kept, order);
    case RemoveReached => RemoveReachedStep(cfg, o, s, kept, order);
    case Sleep => SleepStep(cfg, o, s, kept, order);
    case _ => OtherDuring(cfg, o, s, e, kept, order);
  }

  lemma BeforeStep(cfg: Config, o: Outset, s: State, e: Event)
    requires Enabled(cfg, s, e) && OfLoop(e) && !e.BeginPass?
    requires Untouched(o, s) && BeforePass(cfg, o, s)
    ensures BeforePass(cfg, o, Apply(cfg, s, e))
  {
    match e
    case Measure => MeasureStep(cfg, o, s);
    case Observe(key) => ObserveStep(cfg, o, s, key);
    case CutTail => CutTailStep(cfg, o, s);
    case ShedOnce => ShedOnceStep(cfg, o, s);
    case ShedAgain => ShedAgainStep(cfg, o, s);
    case _ =>
  }

  lemma PassCount(cfg: Config, s: State, e: Event)
    requires Enabled(cfg, s, e)
    ensures Apply(cfg, s, e).passes == s.passes + if e.BeginPass? then 1 else 0
  {
  }

  lemma TurnStep(cfg: Config, o: Outset, s: State, e: Event)
    requires TurnInv(cfg, o, s) && Enabled(cfg, s, e) && OfLoop(e)
    ensures TurnInv(cfg, o, Apply(cfg, s, e))
  {
    UntouchedStep(cfg, o, s, e);
    PassCount(cfg, s, e);
    if e.BeginPass? {
      if s.passes == o.passes {
        BeginStep(cfg, o, s);
      }
    } else if s.passes == o.passes {
      BeforeStep(cfg, o, s, e);
    } else if s.passes == o.passes + 1 {
      var kept, order :| DuringPass(cfg, o, s, kept, order);
      DuringStep(cfg, o, s, e, kept, order);
    }
  }

  ghost function OutsetOf(s: State): Outset {
    Outset(DataOf(s.store), s.passes, s.ticks, s.sent)
  }

  lemma ReadyToTurn(cfg: Config, s: State)
    requires Shape(cfg, s) && s.loop.Idle?
    ensures TurnInv(cfg, OutsetOf(s), s)
  {
    forall key | key in s.store
      ensures s.store[key].bornPass <= s.passes && s.store[key].owner < |s.calls|
      ensures GetSignature(s.store[key].data) == Some(key)
    {
      assert EntryOk(s.calls, key, s.store[key]);
    }
  }

  lemma {:induction false} TurnHolds(cfg: Config, from: Run, later: Run)
    requires Legal(cfg, later) && Quietly(later, from)
    requires Legal(cfg, from) && Final(cfg, from).loop.Idle?
    ensures TurnInv(cfg, OutsetOf(Final(cfg, from)), Final(cfg, later))
  {
    if later == from {
      InvariantHolds(cfg, from);
      ReadyToTurn(cfg, Final(cfg, from));
    } else {
      TurnHolds(cfg, from, later.before);
      TurnStep(cfg, OutsetOf(Final(cfg, from)), Final(cfg, later.before), later.event);
    }
  }

  /** One turn from `s` to `t`: shedding leaves `kept`, the pass sends each kept wire
      once, in the order `order`, and then counts up or drops. */
  ghost predicate TurnDone(cfg: Config, s: State, t: State, kept: Contents, order: seq<string>) {
    && ShedTo(DataOf(s.store), cfg.maxQueue, kept)
    && DataOf(t.store) == AfterPass(kept)
    && IsOrderOf(order, kept.Keys) && t.sent == s.sent + WiresOf(kept, order)
  }

  /** From any reachable idle state, however the loop's own steps are ordered: once it
      has begun one more pass and is idle again, the queue is what shedding and one
      push-and-count pass make of it, and every kept entry's wire was sent once. */
  lemma {:induction false} UndisturbedTurn(cfg: Config, from: Run, later: Run)
    returns (kept: Contents, order: seq<string>)
    requires Legal(cfg, later) && Quietly(later, from)
    requires Legal(cfg, from) && Final(cfg, from).loop.Idle? && Final(cfg, later).loop.Idle?
    requires Final(cfg, later).passes == Final(cfg, from).passes + 1
    ensures TurnDone(cfg, Final(cfg, from), Final(cfg, later), kept, order)
  {
    var s, t := Final(cfg, from), Final(cfg, later);
    TurnHolds(cfg, from, later);
    kept, order :| DuringPass(cfg, OutsetOf(s), t, kept, order);
  }

  // ---- Many turns ----

  ghost predicate AtTop(s: State) {
    s.loop.Idle? || s.loop.Snapshotting? || s.loop.Shedding?
  }

  ghost predicate InPass(s: State) {
    s.loop.Iterating? || s.loop.Sending? || s.loop.Removing?
  }

  /** `m` is the last completed turn before `t`. */
  ghost predicate Pace(m: State, t: State) {
    m.loop.Idle? && if AtTop(t) then t.passes == m.passes else InPass(t) && t.passes == m.passes + 1
  }

  lemma PaceStep(cfg: Config, m: State, s: State, e: Event)
    requires Pace(m, s) && Enabled(cfg, s, e) && OfLoop(e) && !Apply(cfg, s, e).loop.Dead?
    ensures if InPass(s) && e.Sleep? then Apply(cfg, s, e).loop.Idle? && Apply(cfg, s, e).passes == m.passes + 1
            else Pace(m, Apply(cfg, s, e))
  {
  }

  /** At the top of a turn the snapshot is long enough, and in a pass nothing but a
      failed unwrap could end the loop. */
  lemma StaysAlive(cfg: Config, m: State, s: State, e: Event)
    requires Pace(m, s) && Enabled(cfg, s, e) && OfLoop(e)
    requires Apply(cfg, s, e).loop != Dead(UnwrapOnNone) && TurnInv(cfg, OutsetOf(m), Apply(cfg, s, e))
    ensures !Apply(cfg, s, e).loop.Dead?
  {
  }

  /** What shedding before the first of k turns may leave of the queue. */
  ghost predicate ShedFirst(cfg: Config, queue: Contents, k: nat, kept: Contents) {
    if k == 0 then kept == queue else ShedTo(queue, cfg.maxQueue, kept)
  }

  /** `rest` is what one shedding and k passes make of the queue. */
  ghost predicate Reduced(cfg: Config, queue: Contents, k: nat, kept: Contents, rest: Contents) {
    ShedFirst(cfg, queue, k, kept) && rest == AfterPasses(kept, k)
  }

  /** After the first turn the queue is at most one over its limit, so nothing more is
      shed. */
  lemma {:induction false} ShedOnlyFirst(cfg: Config, queue: Contents, kept: Contents, k: nat, again: Contents)
    requires ShedTo(queue, cfg.maxQueue, kept) && ShedTo(AfterPasses(kept, k), cfg.maxQueue, again)
    ensures again == AfterPasses(kept, k)
  {
    PassesShrink(kept, k);
    ShedNothing(AfterPasses(kept, k), cfg.maxQueue, again);
  }

  lemma {:induction false} OneMoreTurn(
      cfg: Config, queue: Contents, k: nat, kept: Contents, rest: Contents, again: Contents) returns (all: Contents)
    requires Reduced(cfg, queue, k, kept, rest) && ShedTo(rest, cfg.maxQueue, again)
    ensures Reduced(cfg, queue, k + 1, all, AfterPass(again))
    ensures if k == 0 then all == again && kept == rest else all == kept && again == rest
  {
    if k == 0 {
      all := again;
      assert AfterPasses(again, 1) == AfterPass(AfterPasses(again, 0));
    } else {
      all := kept;
      ShedOnlyFirst(cfg, queue, kept, k, again);
    }
  }

  /** Every push the kept entries were owed has been sent or is still owed to the rest. */
  ghost predicate PushesPaid(before: seq<seq<bv8>>, after: seq<seq<bv8>>, kept: Contents, rest: Contents) {
    |after| + MapSum(rest, Owed) == |before| + MapSum(kept, Owed)
  }

  /** `m` is `k` completed turns after `s`. */
  ghost predicate TurnsLater(cfg: Config, s: State, m: State, k: nat, kept: Contents) {
    && m.passes == s.passes + k
    && Reduced(cfg, DataOf(s.store), k, kept, DataOf(m.store))
    && PushesPaid(s.sent, m.sent, kept, DataOf(m.store))
  }

  lemma {:induction false} TurnPays(cfg: Config, m: State, t: State, again: Contents, order: seq<string>)
    requires TurnDone(cfg, m, t, again, order)
    ensures PushesPaid(m.sent, t.sent, again, DataOf(t.store))
  {
    PassSpendsOnePushEach(again);
    DistinctSize(order);
    assert Elements(order) == again.Keys && |again.Keys| == |again|;
  }

  lemma {:induction false} JoinTurn(
      cfg: Config, s: State, m: State, t: State, k: nat, kept: Contents, again: Contents, order: seq<string>)
    returns (all: Contents)
    requires TurnsLater(cfg, s, m, k, kept) && TurnDone(cfg, m, t, again, order) && t.passes == m.passes + 1
    ensures TurnsLater(cfg, s, t, k + 1, all)
  {
    TurnPays(cfg, m, t, again, order);
    all := OneMoreTurn(cfg, DataOf(s.store), k, kept, DataOf(m.store), again);
  }

  /** `m` is some completed turns after `s`. */
  ghost predicate SomeTurnsLater(cfg: Config, s: State, m: State) {
    exists k, kept :: TurnsLater(cfg, s, m, k, kept)
  }

  lemma {:induction false} JoinSomeTurn(cfg: Config, s: State, m: State, t: State, again: Contents, order: seq<string>)
    requires SomeTurnsLater(cfg, s, m) && TurnDone(cfg, m, t, again, order) && t.passes == m.passes + 1
    ensures SomeTurnsLater(cfg, s, t)
  {
    var k, kept :| TurnsLater(cfg, s, m, k, kept);
    var all := JoinTurn(cfg, s, m, t, k, kept, again, order);
  }

  lemma {:induction false} EndOfTurn(cfg: Config, s: State, mid: Run, later: Run)
    requires Legal(cfg, later) && Quietly(later, mid)
    requires Legal(cfg, mid) && Final(cfg, mid).loop.Idle? && Final(cfg, later).loop.Idle?
    requires Final(cfg, later).passes == Final(cfg, mid).passes + 1
    requires SomeTurnsLater(cfg, s, Final(cfg, mid))
    ensures SomeTurnsLater(cfg, s, Final(cfg, later))
  {
    var again, order := UndisturbedTurn(cfg, mid, later);
    JoinSomeTurn(cfg, s, Final(cfg, mid), Final(cfg, later), again, order);
  }

  lemma NoTurnYet(cfg: Config, s: State)
    ensures SomeTurnsLater(cfg, s, s)
  {
    assert TurnsLater(cfg, s, s, 0, DataOf(s.store));
  }

  /** Right at the end of a turn, or where the stretch began. */
  ghost predicate TurnEnd(cfg: Config, from: Run, mid: Run)
    requires Legal(cfg, mid)
  {
    mid == from || (mid.Then? && InPass(Final(cfg, mid.before)) && mid.event.Sleep?)
  }

  /** Finds the last completed turn of a quiet stretch. */
  lemma {:induction false} LastTurn(cfg: Config, from: Run, later: Run) returns (mid: Run)
    requires Legal(cfg, later) && Quietly(later, from)
    requires Legal(cfg, from) && Final(cfg, from).loop.Idle?
    ensures Legal(cfg, mid) && Quietly(later, mid) && Quietly(mid, from) && TurnEnd(cfg, from, mid)
    ensures Pace(Final(cfg, mid), Final(cfg, later))
  {
    mid := from;
    if later != from {
      mid := LastTurn(cfg, from, later.before);
      var ended := NextInTurn(cfg, mid, later);
      if ended {
        mid := later;
      }
    }
  }

  /** What the completed turns of a quiet stretch left. */
  lemma {:induction false} TurnsAddUp(cfg: Config, from: Run, mid: Run)
    requires Legal(cfg, mid) && Quietly(mid, from) && TurnEnd(cfg, from, mid)
    requires Legal(cfg, from) && Final(cfg, from).loop.Idle?
    ensures SomeTurnsLater(cfg, Final(cfg, from), Final(cfg, mid))
    decreases mid
  {
    if mid == from {
      NoTurnYet(cfg, Final(cfg, from));
    } else {
      var last := PriorTurn(cfg, from, mid);
      TurnsAddUp(cfg, from, last);
      EndOfTurn(cfg, Final(cfg, from), last, mid);
    }
  }

  /** Before a completed turn there was the one before, or where the stretch began. */
  lemma {:induction false} PriorTurn(cfg: Config, from: Run, mid: Run) returns (last: Run)
    requires Legal(cfg, mid) && Quietly(mid, from) && TurnEnd(cfg, from, mid) && mid != from
    requires Legal(cfg, from) && Final(cfg, from).loop.Idle?
    ensures Legal(cfg, last) && Quietly(mid, last) && Quietly(last, from) && TurnEnd(cfg, from, last) && last < mid
    ensures Final(cfg, last).loop.Idle? && Final(cfg, mid).loop.Idle?
    ensures Final(cfg, mid).passes == Final(cfg, last).passes + 1
  {
    last := LastTurn(cfg, from, mid.before);
    var ended := NextInTurn(cfg, last, mid);
    QuietlyShrinks(mid.before, last);
  }

  lemma {:induction false} QuietlyShrinks(later: Run, from: Run)
    requires Quietly(later, from)
    ensures later == from || from < later
  {
    if later != from {
      QuietlyShrinks(later.before, from);
    }
  }

  lemma {:induction false} NextInTurn(cfg: Config, mid: Run, later: Run) returns (ended: bool)
    requires Legal(cfg, later) && later.Then? && Quietly(later.before, mid) && OfLoop(later.event)
    requires Legal(cfg, mid) && Pace(Final(cfg, mid), Final(cfg, later.before))
    ensures ended == (InPass(Final(cfg, later.before)) && later.event.Sleep?)
    ensures ended ==> Final(cfg, later).loop.Idle? && Final(cfg, later).passes == Final(cfg, mid).passes + 1
    ensures !ended ==> Pace(Final(cfg, mid), Final(cfg, later))
  {
    var m, s := Final(cfg, mid), Final(cfg, later.before);
    TurnHolds(cfg, mid, later);
    NeverUnwrapsNone(cfg, later);
    StaysAlive(cfg, m, s, later.event);
    PaceStep(cfg, m, s, later.event);
    ended := InPass(s) && later.event.Sleep?;
  }

  /** As long as only the loop runs, it never dies: its snapshots are complete and so
      never too short to be cut. */
  lemma {:induction false} UndisturbedLoopLives(cfg: Config, from: Run, later: Run)
    requires Legal(cfg, later) && Quietly(later, from)
    requires Legal(cfg, from) && Final(cfg, from).loop.Idle?
    ensures !Final(cfg, later).loop.Dead?
  {
    var mid := LastTurn(cfg, from, later);
  }

  lemma {:induction false} IdleHoldsQueue(cfg: Config, mid: Run, later: Run)
    requires Legal(cfg, later) && Quietly(later, mid)
    requires Legal(cfg, mid) && Final(cfg, later).loop.Idle? && Pace(Final(cfg, mid), Final(cfg, later))
    ensures Final(cfg, later).passes == Final(cfg, mid).passes
    ensures DataOf(Final(cfg, later).store) == DataOf(Final(cfg, mid).store)
    ensures Final(cfg, later).sent == Final(cfg, mid).sent
  {
    TurnHolds(cfg, mid, later);
  }

  /** The closed form holds of the running system, for every configuration: as long as
      only the loop runs, after k more passes the queue is the k-fold pass of what the
      first shedding left, nothing is shed later, and the wires sent in between are the
      pushes spent. By PassesClosedForm each kept entry then has its count up by k or
      has left. */
  lemma {:induction false} UndisturbedTurns(cfg: Config, from: Run, later: Run, k: nat) returns (kept: Contents)
    requires Legal(cfg, later) && Quietly(later, from)
    requires Legal(cfg, from) && Final(cfg, from).loop.Idle? && Final(cfg, later).loop.Idle?
    requires Final(cfg, later).passes == Final(cfg, from).passes + k
    ensures Reduced(cfg, DataOf(Final(cfg, from).store), k, kept, DataOf(Final(cfg, later).store))
    ensures PushesPaid(Final(cfg, from).sent, Final(cfg, later).sent, kept, DataOf(Final(cfg, later).store))
  {
    var mid := LastTurn(cfg, from, later);
    TurnsAddUp(cfg, from, mid);
    IdleHoldsQueue(cfg, mid, later);
    kept := SameQueue(cfg, Final(cfg, from), Final(cfg, mid), Final(cfg, later), k);
  }

  lemma SameQueue(cfg: Config, s: State, m: State, t: State, k: nat) returns (kept: Contents)
    requires SomeTurnsLater(cfg, s, m)
    requires t.passes == m.passes == s.passes + k && DataOf(t.store) == DataOf(m.store) && t.sent == m.sent
    ensures Reduced(cfg, DataOf(s.store), k, kept, DataOf(t.store))
    ensures PushesPaid(s.sent, t.sent, kept, DataOf(t.store))
  {
    var turns;
    turns, kept :| TurnsLater(cfg, s, m, turns, kept);
  }

  lemma EmptyData(store: map<string, Entry>)
    ensures store == map[] <==> DataOf(store) == map[]
  {
    assert DataOf(store).Keys == store.Keys;
    assert store == map[] <==> store.Keys == {};
    assert DataOf(store) == map[] <==> DataOf(store).Keys == {};
  }

  /** So the store runs empty after exactly as many passes as the neediest entry that
      was not shed is owed. */
  lemma {:induction false} UndisturbedQueueDrains(cfg: Config, from: Run, later: Run, k: nat) returns (kept: Contents)
    requires Legal(cfg, later) && Quietly(later, from)
    requires Legal(cfg, from) && Final(cfg, from).loop.Idle? && Final(cfg, later).loop.Idle?
    requires Final(cfg, later).passes == Final(cfg, from).passes + k
    ensures ShedFirst(cfg, DataOf(Final(cfg, from).store), k, kept)
    ensures Final(cfg, later).store == map[] <==> forall key :: key in kept ==> Owed(kept[key]) <= k
  {
    kept := UndisturbedTurns(cfg, from, later, k);
    QueueDrains(kept, k);
    EmptyData(Final(cfg, later).store);
  }

  // ---- Turns can always be completed ----

  lemma {:induction false} QuietlyOn(later: Run, mid: Run, from: Run)
    requires Quietly(later, mid) && Quietly(mid, from)
    ensures Quietly(later, from)
  {
    if later != mid {
      QuietlyOn(later.before, mid, from);
    }
  }

  /** A turn under way can be carried through by the loop alone. */
  lemma {:induction false} FinishTurn(cfg: Config, from: Run, r: Run, s: State) returns (q: Run)
    requires Legal(cfg, from) && Final(cfg, from).loop.Idle?
    requires Legal(cfg, r) && Quietly(r, from) && Final(cfg, r) == s
    requires Pace(Final(cfg, from), s) && UnderWay(s)
    ensures Legal(cfg, q) && Quietly(q, from) && Final(cfg, q).loop.Idle?
    ensures Final(cfg, q).passes == Final(cfg, from).passes + 1
    decreases Phases(s), Remaining(s)
  {
    var t;
    q, t := Advance(cfg, r, s);
    var ended := NextInTurn(cfg, from, q);
    if !ended {
      q := FinishTurn(cfg, from, q, t);
    }
  }

  lemma {:induction false} Advance(cfg: Config, r: Run, s: State) returns (q: Run, t: State)
    requires Legal(cfg, r) && Final(cfg, r) == s && UnderWay(s)
    ensures q == Then(r, NextStep(s)) && Legal(cfg, q) && Final(cfg, q) == t && Ranked(t, s)
    ensures t.loop.Idle? ==> NextStep(s).Sleep?
  {
    InvariantHolds(cfg, r);
    NextStepEnabled(cfg, s);
    NextStepAdvances(cfg, s);
    if Apply(cfg, s, NextStep(s)).loop.Idle? {
      OnlySleepEnds(cfg, s, NextStep(s));
    }
    q, t := Then(r, NextStep(s)), Apply(cfg, s, NextStep(s));
  }

  /** From every reachable idle state the loop alone can complete k more turns, so the
      undisturbed runs the theorems above speak about always exist. */
  lemma {:induction false} TurnsComplete(cfg: Config, from: Run, k: nat) returns (later: Run)
    requires Legal(cfg, from) && Final(cfg, from).loop.Idle?
    ensures Legal(cfg, later) && Quietly(later, from) && Final(cfg, later).loop.Idle?
    ensures Final(cfg, later).passes == Final(cfg, from).passes + k
  {
    if k == 0 {
      later := from;
    } else {
      var mid := TurnsComplete(cfg, from, k - 1);
      var q, t := Extend(cfg, mid, Final(cfg, mid), Measure);
      later := FinishTurn(cfg, mid, q, t);
      QuietlyOn(later, mid, from);
    }
  }
}

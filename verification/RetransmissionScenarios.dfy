// Things one might expect of the retry loop that do not hold, each with a run that
// shows it, and the exact condition under which a snapshot can kill the loop. The exact
// conditions under which a stay is lost are in RetransmissionStays and RetransmissionDrops.
module RetransmissionScenarios {
  import opened Traces
  import opened Wrappers
  import opened Sums
  import opened Transactions
  import opened LeaderScan
  import opened Sends
  import opened RetryQueue
  import opened Retransmission
  import opened RetransmissionTheorems
  import opened RetransmissionProgress

  function Tracked(cfg: Config, s: State, wire: seq<bv8>, txn: VersionedTransaction, requested: Option<nat>): State
    requires txn.signatures != []
  {
    var data := NewTransaction(cfg.retryCap, requested, wire, txn);
    s.(store := s.store[txn.signatures[0] := Entry(data, |s.calls|, s.passes, s.ticks, false)],
       calls := s.calls + [Call(data, AtSend, Running, true, 0)],
       ticks := s.ticks + 1)
  }

  /** From any reachable state any request with an unstored signature can be carried
      through to its confirm task. */
  lemma Track(cfg: Config, r: Run, s: State, wire: seq<bv8>, txn: VersionedTransaction, requested: Option<nat>)
    returns (q: Run)
    requires Legal(cfg, r) && Final(cfg, r) == s
    requires txn.signatures != [] && txn.signatures[0] !in s.store
    ensures Legal(cfg, q) && Final(cfg, q) == Tracked(cfg, s, wire, txn, requested)
  {
    var t;
    q, t := ReachInsert(cfg, r, s, wire, txn, requested);
    q, t := Extend(cfg, q, t, Insert(|s.calls|));
    q, t := Extend(cfg, q, t, SpawnConfirm(|s.calls|));
    assert t.calls == Tracked(cfg, s, wire, txn, requested).calls;
  }

  lemma ReachInsert(cfg: Config, r: Run, s: State, wire: seq<bv8>, txn: VersionedTransaction, requested: Option<nat>)
    returns (q: Run, t: State)
    requires Legal(cfg, r) && Final(cfg, r) == s
    requires txn.signatures != [] && txn.signatures[0] !in s.store
    ensures Legal(cfg, q) && Final(cfg, q) == t
    ensures t == s.(calls := s.calls + [
      Call(NewTransaction(cfg.retryCap, requested, wire, txn), AtInsert, NotSpawned, false, 0)])
  {
    q, t := Extend(cfg, r, s, Arrive(wire, txn, requested));
    q, t := Extend(cfg, q, t, PassGate(|s.calls|));
    q, t := Extend(cfg, q, t, TestStored(|s.calls|));
  }

  /** A tracked call can go on to send, whatever its scan reads, and is finished then. */
  lemma SendFollows(cfg: Config, r: Run, s: State, c: nat, view: seq<Reading>) returns (q: Run, t: State)
    requires Legal(cfg, r) && Final(cfg, r) == s && c < |s.calls| && s.calls[c].stage == AtSend
    requires |view| <= 4 * cfg.numLeaders
    ensures Legal(cfg, q) && Final(cfg, q) == t && |t.calls| == |s.calls| && t.calls[c] == s.calls[c].(stage := Finished)
    ensures t.store == s.store && t.loop == s.loop && s.tasks <= t.tasks
    ensures |t.tasks| == |s.tasks| + |WithAddress(ValuesOf(Scan(view, cfg.numLeaders)))|
  {
    SendCount(s.calls[c].data.wire, ValuesOf(Scan(view, cfg.numLeaders)));
    q, t := Extend(cfg, r, s, SendDirect(c, view));
  }

  // ---- The length and the snapshot are read separately ----

  const TIGHT: Config := Config(Some(0), 0, 0)

  const SIGNED: VersionedTransaction := VersionedTransaction(["a"], "")

  /** One transaction confirmed between the length check and the snapshot leaves the
      slice out of range, and the retry loop is gone. */
  lemma ConfirmBeforeSnapshotKills() returns (r: Run)
    ensures Legal(TIGHT, r) && Final(TIGHT, r).loop == Dead(SliceOutOfRange)
  {
    var s := INITIAL;
    r := Track(TIGHT, Start, s, [], SIGNED, None);
    s := Tracked(TIGHT, s, [], SIGNED, None);
    assert s.store.Keys == {"a"};
    assert |s.store.Keys| == |s.store|;
    r, s := Extend(TIGHT, r, s, Measure);
    r, s := Extend(TIGHT, r, s, EndConfirm(0));
    assert s.store.Keys == {};
    r, s := Extend(TIGHT, r, s, CutTail);
  }

  /** Entries the length check counted that are still stored. */
  ghost function StillStored(s: State): set<string>
    requires s.loop.Snapshotting?
  {
    set key | key in s.store && s.store[key].bornTick < s.loop.since
  }

  /** The cut succeeds whenever more than the limit of the counted entries are still
      stored. */
  lemma {:induction false} CutSurvives(cfg: Config, s: State)
    requires s.loop.Snapshotting? && Enabled(cfg, s, CutTail) && |StillStored(s)| > cfg.maxQueue.value
    ensures Apply(cfg, s, CutTail).loop.Shedding?
  {
    FewElements(SignaturesOf(s.loop.rows));
    SubsetSize(StillStored(s), Elements(SignaturesOf(s.loop.rows)));
  }

  /** The entries of `s` are all still there in `t`, the same stays as before. */
  ghost predicate NoneLeft(s: State, t: State) {
    forall key :: key in s.store ==> key in t.store && t.store[key].bornTick == s.store[key].bornTick
  }

  lemma {:induction false} CountedStay(cfg: Config, s: State, t: State)
    requires s.loop.Idle? && Apply(cfg, s, Measure).loop.Snapshotting?
    requires t.loop.Snapshotting? && t.loop.since == s.ticks && NoneLeft(s, t)
    requires forall key :: key in s.store ==> s.store[key].bornTick < s.ticks
    ensures |StillStored(t)| > cfg.maxQueue.value
  {
    assert |s.store.Keys| == |s.store|;
    SubsetSize(s.store.Keys, StillStored(t));
  }

  lemma BornBefore(cfg: Config, r: Run)
    requires Legal(cfg, r)
    ensures forall key :: key in Final(cfg, r).store ==> Final(cfg, r).store[key].bornTick < Final(cfg, r).ticks
  {
    InvariantHolds(cfg, r);
  }

  /** So if no entry present at the length check leaves before the snapshot is cut,
      whatever else is added meanwhile, the loop survives. */
  lemma {:induction false} CutSurvivesIfNoneLeft(cfg: Config, measured: Run, s: State, t: State)
    requires Legal(cfg, measured) && Final(cfg, measured) == s
    requires s.loop.Idle? && Apply(cfg, s, Measure).loop.Snapshotting?
    requires t.loop.Snapshotting? && Enabled(cfg, t, CutTail) && t.loop.since == s.ticks
    requires NoneLeft(s, t)
    ensures Apply(cfg, t, CutTail).loop.Shedding?
  {
    BornBefore(cfg, measured);
    CountedStay(cfg, s, t);
    CutSurvives(cfg, t);
  }

  // ---- Exactly when a snapshot can kill ----

  /** The loop is at the same snapshot from one run to another. */
  ghost predicate SameSnapshot(cfg: Config, later: Run, from: Run)
    requires Legal(cfg, later)
  {
    && Final(cfg, later).loop.Snapshotting?
    && (later == from || (later.Then? && SameSnapshot(cfg, later.before, from)))
  }

  /** The cut of this snapshot ends `later`, and with it the loop. */
  ghost predicate DiesOf(cfg: Config, later: Run, from: Run) {
    && Legal(cfg, later) && later.Then? && later.event.CutTail?
    && SameSnapshot(cfg, later.before, from) && Final(cfg, later).loop.Dead?
  }

  lemma RowsStay(cfg: Config, s: State, e: Event)
    requires Enabled(cfg, s, e) && s.loop.Snapshotting? && Apply(cfg, s, e).loop.Snapshotting?
    ensures s.loop.rows <= Apply(cfg, s, e).loop.rows
  {
  }

  lemma {:induction false} RowsGrow(cfg: Config, later: Run, from: Run)
    requires Legal(cfg, from) && Legal(cfg, later) && SameSnapshot(cfg, later, from)
    ensures Final(cfg, from).loop.Snapshotting? && Final(cfg, from).loop.rows <= Final(cfg, later).loop.rows
  {
    if later != from {
      RowsGrow(cfg, later.before, from);
      RowsStay(cfg, Final(cfg, later.before), later.event);
    }
  }

  /** The confirm task that guards an entry can end. */
  lemma {:induction false} ConfirmEntry(cfg: Config, r: Run, s: State, key: string) returns (q: Run, t: State)
    requires Legal(cfg, r) && Final(cfg, r) == s && key in s.store
    ensures Legal(cfg, q) && Final(cfg, q) == t && t.store == s.store - {key} && t.loop == s.loop
    ensures forall from :: SameSnapshot(cfg, r, from) ==> SameSnapshot(cfg, q, from)
  {
    NoLeakedEntries(cfg, r, key);
    var c := s.store[key].owner;
    q, t := r, s;
    if t.calls[c].confirm != Running {
      q, t := Extend(cfg, q, t, SpawnConfirm(c));
    }
    q, t := Extend(cfg, q, t, EndConfirm(c));
  }

  /** Every entry may be confirmed before the snapshot gets any further. */
  lemma {:induction false} ConfirmAll(cfg: Config, r: Run, s: State) returns (q: Run, t: State)
    requires Legal(cfg, r) && Final(cfg, r) == s
    ensures Legal(cfg, q) && Final(cfg, q) == t && t.store == map[] && t.loop == s.loop
    ensures forall from :: SameSnapshot(cfg, r, from) ==> SameSnapshot(cfg, q, from)
    decreases |s.store|
  {
    q, t := r, s;
    if s.store != map[] {
      q, t := ConfirmEntry(cfg, r, s, Pick(s.store.Keys));
      q, t := ConfirmAll(cfg, q, t);
    }
  }

  ghost predicate CanDieOf(cfg: Config, r: Run) {
    exists later :: DiesOf(cfg, later, r)
  }

  /** In every reachable state with a snapshot under way, over all continuations: this
      snapshot can kill the loop iff it has not yet got past the limit, however many
      entries are stored. */
  lemma {:induction false} SnapshotCanKill(cfg: Config, r: Run)
    requires Legal(cfg, r) && Final(cfg, r).loop.Snapshotting? && cfg.maxQueue.Some?
    ensures CanDieOf(cfg, r) <==> |Final(cfg, r).loop.rows| <= cfg.maxQueue.value
  {
    if CanDieOf(cfg, r) {
      var later :| DiesOf(cfg, later, r);
      RowsGrow(cfg, later.before, r);
      OnlyShortSnapshotsKill(cfg, later);
    }
    if |Final(cfg, r).loop.rows| <= cfg.maxQueue.value {
      var q, t := ConfirmAll(cfg, r, Final(cfg, r));
      q, t := Extend(cfg, q, t, CutTail);
      assert DiesOf(cfg, q, r);
    }
  }

  // ---- A confirm task removes by signature ----

  const UNLIMITED: Config := Config(None, 0, 0)

  /** The second stay of the signature is stored, unpushed and guarded by call 1, and
      the end of call 0's confirm task removes it. */
  ghost predicate EvictsLaterStay(s: State)
    requires Enabled(UNLIMITED, s, EndConfirm(0))
  {
    var t := Apply(UNLIMITED, s, EndConfirm(0));
    && |s.calls| == 2 && s.store.Keys == {"a"} && s.store["a"].owner == 1
    && s.calls[1].pushes == 0 && s.calls[1].confirm == Running
    && t.store.Keys == {} && t.calls[1] == s.calls[1] && t.forfeited == s.forfeited + 1
  }

  /** A transaction exhausted and dropped by the loop, then submitted again: when the
      first confirm task ends it removes the second stay, which was never pushed. */
  lemma StaleConfirmEvictsLaterStay() returns (r: Run, s: State)
    ensures Legal(UNLIMITED, r) && Final(UNLIMITED, r) == s
    ensures Enabled(UNLIMITED, s, EndConfirm(0)) && EvictsLaterStay(s)
  {
    r, s := FirstStayPushed();
    r, s := FirstStayEnds(r, s);
    r := Track(UNLIMITED, r, s, [], SIGNED, None);
    s := Tracked(UNLIMITED, s, [], SIGNED, None);
  }

  lemma FirstStayPushed() returns (r: Run, s: State)
    ensures Legal(UNLIMITED, r) && Final(UNLIMITED, r) == s
    ensures s.store.Keys == {"a"} && s.loop == Iterating({"a"}, [[]], ["a"])
    ensures |s.calls| == 1 && s.calls[0].confirm == Running && s.calls[0].data.txn == SIGNED
  {
    r, s := FirstPassBegun();
    r, s := Extend(UNLIMITED, r, s, Visit("a"));
  }

  lemma FirstPassBegun() returns (r: Run, s: State)
    ensures Legal(UNLIMITED, r) && Final(UNLIMITED, r) == s
    ensures s.store == Tracked(UNLIMITED, INITIAL, [], SIGNED, None).store && s.loop == Iterating({}, [], [])
    ensures s.calls == Tracked(UNLIMITED, INITIAL, [], SIGNED, None).calls
  {
    s := INITIAL;
    r := Track(UNLIMITED, Start, s, [], SIGNED, None);
    s := Tracked(UNLIMITED, s, [], SIGNED, None);
    r, s := Extend(UNLIMITED, r, s, Measure);
    r, s := Extend(UNLIMITED, r, s, BeginPass);
  }

  lemma FirstStayEnds(q: Run, p: State) returns (r: Run, s: State)
    requires Legal(UNLIMITED, q) && Final(UNLIMITED, q) == p
    requires p.store.Keys == {"a"} && p.loop == Iterating({"a"}, [[]], ["a"])
    requires |p.calls| == 1 && p.calls[0].confirm == Running && p.calls[0].data.txn == SIGNED
    ensures Legal(UNLIMITED, r) && Final(UNLIMITED, r) == s
    ensures s.store.Keys == {} && s.calls == p.calls
  {
    r, s := ListedStaySent(q, p);
    r, s := Extend(UNLIMITED, r, s, EndSends);
    r, s := Extend(UNLIMITED, r, s, RemoveReached);
  }

  lemma ListedStaySent(q: Run, p: State) returns (r: Run, s: State)
    requires Legal(UNLIMITED, q) && Final(UNLIMITED, q) == p
    requires p.store.Keys == {"a"} && p.loop == Iterating({"a"}, [[]], ["a"])
    ensures Legal(UNLIMITED, r) && Final(UNLIMITED, r) == s
    ensures s.store == p.store && s.calls == p.calls && s.loop == Sending([], ["a"])
  {
    r, s := Extend(UNLIMITED, q, p, EndVisits);
    r, s := Extend(UNLIMITED, r, s, SendWire([]));
  }

  // ---- The loop removes by signature ----

  /** The second stay of the signature is stored, unpushed and guarded by call 1, and
      the loop's next removal drops it. */
  ghost predicate DropsLaterStay(s: State)
    requires Enabled(UNLIMITED, s, RemoveReached)
  {
    var t := Apply(UNLIMITED, s, RemoveReached);
    && |s.calls| == 2 && s.store.Keys == {"a"} && s.store["a"].owner == 1
    && s.calls[1].pushes == 0 && s.calls[1].confirm == Running
    && t.store.Keys == {} && t.calls == s.calls && t.forfeited == s.forfeited + 1
  }

  /** A transaction listed as exhausted, confirmed, and submitted again before the loop
      gets to its removals: the loop drops the second stay, which was never pushed. */
  lemma StaleListingDropsLaterStay() returns (r: Run, s: State)
    ensures Legal(UNLIMITED, r) && Final(UNLIMITED, r) == s
    ensures Enabled(UNLIMITED, s, RemoveReached) && DropsLaterStay(s)
  {
    r, s := ResubmittedInPass();
    r, s := ListedStaySent(r, s);
    r, s := Extend(UNLIMITED, r, s, EndSends);
  }

  lemma ResubmittedInPass() returns (r: Run, s: State)
    ensures Legal(UNLIMITED, r) && Final(UNLIMITED, r) == s
    ensures s.loop == Iterating({"a"}, [[]], ["a"]) && s.store.Keys == {"a"} && s.store["a"].owner == 1
    ensures |s.calls| == 2 && s.calls[1].pushes == 0 && s.calls[1].confirm == Running
    ensures OwedBy(s.store["a"]) == 1
  {
    r, s := FirstStayPushed();
    r, s := Extend(UNLIMITED, r, s, EndConfirm(0));
    r := Track(UNLIMITED, r, s, [], SIGNED, None);
    s := Tracked(UNLIMITED, s, [], SIGNED, None);
  }

  // ---- The loop sheds by signature ----

  const SHEDDING: Config := Config(Some(0), 3, 0)

  const OTHER: VersionedTransaction := VersionedTransaction(["b"], "")

  /** The second stay of "a" is stored, unpushed and guarded by call 2, and the loop's
      next removal sheds it. */
  ghost predicate ShedsLaterStay(s: State)
    requires Enabled(SHEDDING, s, ShedOnce)
  {
    var t := Apply(SHEDDING, s, ShedOnce);
    && |s.calls| == 3 && s.store.Keys == {"a", "b"} && s.store["a"].owner == 2
    && s.calls[2].pushes == 0 && s.calls[2].confirm == Running
    && t.store.Keys == {"b"} && t.calls == s.calls && t.forfeited == s.forfeited + 4
  }

  /** A transaction observed for shedding, confirmed, and submitted again before the
      snapshot is cut: the loop sheds the second stay, on the row of the first. */
  lemma StaleRowShedsLaterStay() returns (r: Run, s: State)
    ensures Legal(SHEDDING, r) && Final(SHEDDING, r) == s
    ensures Enabled(SHEDDING, s, ShedOnce) && ShedsLaterStay(s)
  {
    r, s := ResubmittedInSnapshot();
    SortTwo(s.loop.rows[0], s.loop.rows[1]);
    r, s := Extend(SHEDDING, r, s, CutTail);
  }

  lemma SortTwo(x: Row, y: Row)
    requires x.data.retryCount <= y.data.retryCount
    ensures Victims([x, y], 0) == Some([y])
  {
    assert [x, y][..1] == [x] && [x][..0] == [];
    assert SortRows([x]) == [x];
  }

  lemma ResubmittedInSnapshot() returns (r: Run, s: State)
    ensures Legal(SHEDDING, r) && Final(SHEDDING, r) == s
    ensures s.loop.Snapshotting? && s.store.Keys == {"a", "b"} && s.store["a"].owner == 2
    ensures |s.calls| == 3 && s.calls[2].pushes == 0 && s.calls[2].confirm == Running
    ensures OwedBy(s.store["a"]) == 4 && s.loop.since <= s.store["a"].bornTick
    ensures |s.loop.rows| == 2 && s.loop.rows == [s.loop.rows[0], s.loop.rows[1]]
    ensures s.loop.rows[0].signature == "b" && s.loop.rows[1].signature == "a"
    ensures s.loop.rows[0].data.retryCount == s.loop.rows[1].data.retryCount == 0
  {
    r, s := BothObserved();
    r, s := Extend(SHEDDING, r, s, EndConfirm(0));
    r := Track(SHEDDING, r, s, [], SIGNED, None);
    s := Tracked(SHEDDING, s, [], SIGNED, None);
  }

  ghost predicate TwoStored(s: State) {
    && s.store.Keys == {"a", "b"} && s.store["a"].data.retryCount == s.store["b"].data.retryCount == 0
    && |s.calls| == 2 && s.calls[0].confirm == Running && s.calls[0].data.txn == SIGNED
  }

  lemma BothTracked() returns (r: Run, s: State)
    ensures Legal(SHEDDING, r) && Final(SHEDDING, r) == s && s.loop == Idle && TwoStored(s)
  {
    s := INITIAL;
    r := Track(SHEDDING, Start, s, [], SIGNED, None);
    s := Tracked(SHEDDING, s, [], SIGNED, None);
    r := Track(SHEDDING, r, s, [], OTHER, None);
    s := Tracked(SHEDDING, s, [], OTHER, None);
  }

  lemma BothObserved() returns (r: Run, s: State)
    ensures Legal(SHEDDING, r) && Final(SHEDDING, r) == s && TwoStored(s)
    ensures s.loop == Snapshotting(s.ticks, [Row("b", s.store["b"].data), Row("a", s.store["a"].data)])
  {
    r, s := BothTracked();
    assert |s.store.Keys| == |s.store| && "a" in s.store;
    r, s := Extend(SHEDDING, r, s, Measure);
    r, s := Extend(SHEDDING, r, s, Observe("b"));
    r, s := Extend(SHEDDING, r, s, Observe("a"));
  }

  // ---- The store's membership test and insert are separate ----

  /** Two requests with one signature that both pass the gate and the test before
      either inserts: the second insert overwrites the first stay. */
  lemma RacingAddsOverwrite() returns (r: Run, s: State)
    ensures Legal(UNLIMITED, r) && Final(UNLIMITED, r) == s
    ensures |s.calls| == 2 && s.calls[0].inserted && s.calls[1].inserted
    ensures s.store.Keys == {"a"} && s.store["a"].owner == 1 && s.forfeited == 1
  {
    r, s := BothTested();
    r, s := Extend(UNLIMITED, r, s, Insert(0));
    r, s := Extend(UNLIMITED, r, s, Insert(1));
  }

  lemma BothTested() returns (r: Run, s: State)
    ensures Legal(UNLIMITED, r) && Final(UNLIMITED, r) == s
    ensures s.store == map[] && s.forfeited == 0 && |s.calls| == 2
    ensures forall c :: 0 <= c < 2 ==>
      s.calls[c] == Call(NewTransaction(0, None, [], SIGNED), AtInsert, NotSpawned, false, 0)
  {
    r, s := Start, INITIAL;
    r, s := Extend(UNLIMITED, r, s, Arrive([], SIGNED, None));
    r, s := Extend(UNLIMITED, r, s, Arrive([], SIGNED, None));
    r, s := Extend(UNLIMITED, r, s, PassGate(0));
    r, s := Extend(UNLIMITED, r, s, PassGate(1));
    r, s := Extend(UNLIMITED, r, s, TestStored(0));
    r, s := Extend(UNLIMITED, r, s, TestStored(1));
  }
}

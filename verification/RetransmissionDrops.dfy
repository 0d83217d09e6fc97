// When a stored stay can be lost to the retry loop on account of an earlier stay. The
// loop sheds and removes by signature what it observed or visited before, so it may hit
// a stay it has never looked at (src/infrastructure/txn_sender.rs, retry_transactions).
// There is an exact condition on the present state.
module RetransmissionDrops {
  import opened Traces
  import opened Wrappers
  import opened Sums
  import opened Transactions
  import opened RetryQueue
  import opened Retransmission
  import opened RetransmissionProofs
  import opened RetransmissionTheorems
  import opened RetransmissionProgress
  import opened RetransmissionStays

  /** The signatures the loop is already bound to remove. */
  function Doomed(loop: Loop): seq<string> {
    match loop
    case Shedding(victims, _) => SignaturesOf(victims)
    case _ => Listed(loop)
  }

  /** The steps at which the loop looks at what is stored under a signature. */
  predicate LooksAt(e: Event, key: string) {
    e == Observe(key) || e == Visit(key)
  }

  predicate LoopRemoves(e: Event) {
    e.ShedOnce? || e.ShedAgain? || e.RemoveReached?
  }

  /** The stay is stored, and the loop does not look at it, from one run to another. */
  ghost predicate HeldBlind(cfg: Config, later: Run, from: Run, key: string, owner: nat)
    requires Legal(cfg, later)
  {
    && Stay(Final(cfg, later), key, owner)
    && (later == from
        || (later.Then? && !LooksAt(later.event, key) && HeldBlind(cfg, later.before, from, key, owner)))
  }

  /** The loop removes the stay in the last step of `later` without having looked at it. */
  ghost predicate DroppedBlind(cfg: Config, later: Run, from: Run, key: string, owner: nat) {
    && Legal(cfg, later) && later.Then?
    && HeldBlind(cfg, later.before, from, key, owner)
    && LoopRemoves(later.event) && !Stay(Final(cfg, later), key, owner)
  }

  /** The row in place p, read from the stay of this signature then stored, may get it
      shed: a retried row always, by newcomers that push it back in the sort; a row never
      retried only if too many of its kind precede it already. */
  ghost predicate MayBeShed(rows: seq<Row>, maxSize: nat, key: string, p: nat) {
    && p < |rows| && rows[p].signature == key
    && (rows[p].data.retryCount > 0 || FreshBefore(rows, p) > maxSize)
  }

  /** The loop may remove the signature without another look at what is stored under it:
      it is bound to, or has read a row that may still get it shed. */
  ghost predicate MayDoom(cfg: Config, s: State, key: string) {
    match s.loop
    case Snapshotting(_, rows) => cfg.maxQueue.Some? && exists p: nat :: MayBeShed(rows, cfg.maxQueue.value, key, p)
    case _ => key in Doomed(s.loop)
  }

  // ---- Only what may be doomed is dropped ----

  lemma DoomOfVisit(cfg: Config, s: State, at: string, key: string)
    requires Enabled(cfg, s, Visit(at)) && EntryOk(s.calls, at, s.store[at]) && at != key
    ensures key in Doomed(Apply(cfg, s, Visit(at)).loop) <==> key in Doomed(s.loop)
  {
  }

  lemma DoomElsewhere(cfg: Config, s: State, e: Event, key: string)
    requires Enabled(cfg, s, e) && !e.CutTail? && !e.Visit?
    requires key in Doomed(Apply(cfg, s, e).loop)
    ensures key in Doomed(s.loop)
  {
    if e.ShedAgain? {
      assert SignaturesOf(s.loop.victims) == [s.loop.victims[0].signature] + SignaturesOf(s.loop.victims[1..]);
    }
  }

  lemma RowsElsewhere(cfg: Config, s: State, e: Event)
    requires Enabled(cfg, s, e) && Apply(cfg, s, e).loop.Snapshotting? && !e.Observe?
    ensures e.Measure? ==> Apply(cfg, s, e).loop.rows == []
    ensures !e.Measure? ==> Apply(cfg, s, e).loop == s.loop
  {
  }

  lemma MoreRows(rows: seq<Row>, row: Row, maxSize: nat, key: string, p: nat)
    requires row.signature != key
    ensures MayBeShed(rows + [row], maxSize, key, p) <==> MayBeShed(rows, maxSize, key, p)
  {
    if p < |rows| {
      assert (rows + [row])[..p] == rows[..p];
    }
  }

  /** While the snapshot is taken, only a look at a signature puts it at risk. */
  lemma NoNewRisk(cfg: Config, s: State, e: Event, key: string)
    requires Enabled(cfg, s, e) && !LooksAt(e, key)
    requires Apply(cfg, s, e).loop.Snapshotting? && MayDoom(cfg, Apply(cfg, s, e), key)
    ensures MayDoom(cfg, s, key)
  {
    var p: nat :| MayBeShed(Apply(cfg, s, e).loop.rows, cfg.maxQueue.value, key, p);
    if e.Observe? {
      MoreRows(s.loop.rows, Row(e.key, s.store[e.key].data), cfg.maxQueue.value, key, p);
    } else {
      RowsElsewhere(cfg, s, e);
    }
    assert MayBeShed(s.loop.rows, cfg.maxQueue.value, key, p);
  }

  /** The cut dooms only signatures whose row put them at risk. */
  lemma CutDoomsRows(cfg: Config, s: State, key: string)
    requires Enabled(cfg, s, CutTail) && DistinctRows(s.loop.rows)
    requires key in Doomed(Apply(cfg, s, CutTail).loop)
    ensures MayDoom(cfg, s, key)
  {
    var rows, maxSize := s.loop.rows, cfg.maxQueue.value;
    var victims := Victims(rows, maxSize).value;
    var p := VictimsAreRows(rows, maxSize, victims, key);
    if rows[p].data.retryCount == 0 {
      FreshRowShed(rows, maxSize, victims, p);
    }
    assert MayBeShed(rows, maxSize, key, p);
  }

  /** No step newly puts a signature at risk but a look at it. */
  lemma NoNewDoom(cfg: Config, s: State, e: Event, key: string)
    requires Shape(cfg, s) && Enabled(cfg, s, e) && !LooksAt(e, key)
    requires MayDoom(cfg, Apply(cfg, s, e), key)
    ensures MayDoom(cfg, s, key)
  {
    if Apply(cfg, s, e).loop.Snapshotting? {
      NoNewRisk(cfg, s, e, key);
    } else if e.CutTail? {
      CutDoomsRows(cfg, s, key);
    } else {
      DoomOnlyByLooks(cfg, s, e, key);
    }
  }

  lemma DoomOnlyByLooks(cfg: Config, s: State, e: Event, key: string)
    requires Shape(cfg, s) && Enabled(cfg, s, e) && !LooksAt(e, key) && !e.CutTail?
    requires key in Doomed(Apply(cfg, s, e).loop)
    ensures key in Doomed(s.loop) && MayDoom(cfg, s, key)
  {
    if e.Visit? {
      assert EntryOk(s.calls, e.key, s.store[e.key]);
      DoomOfVisit(cfg, s, e.key, key);
    } else {
      DoomElsewhere(cfg, s, e, key);
    }
  }

  lemma OnlyDoomedAreDropped(cfg: Config, s: State, e: Event, key: string, owner: nat)
    requires Enabled(cfg, s, e) && LoopRemoves(e)
    requires Stay(s, key, owner) && !Stay(Apply(cfg, s, e), key, owner)
    ensures key in Doomed(s.loop) && !s.loop.Snapshotting?
  {
    if !e.RemoveReached? {
      assert SignaturesOf(s.loop.victims)[0] == s.loop.victims[0].signature;
    }
  }

  lemma {:induction false} DoomPersists(cfg: Config, later: Run, from: Run, key: string, owner: nat)
    requires Legal(cfg, from) && Legal(cfg, later) && HeldBlind(cfg, later, from, key, owner)
    requires MayDoom(cfg, Final(cfg, later), key)
    ensures MayDoom(cfg, Final(cfg, from), key)
  {
    if later != from {
      InvariantHolds(cfg, later.before);
      NoNewDoom(cfg, Final(cfg, later.before), later.event, key);
      DoomPersists(cfg, later.before, from, key, owner);
    }
  }

  // ---- What may be doomed can be dropped ----

  /** The cut will shed the row in place p, whatever else is observed until then. */
  ghost predicate WillBeShed(rows: seq<Row>, maxSize: nat, key: string, p: nat) {
    && MayBeShed(rows, maxSize, key, p)
    && (rows[p].data.retryCount > 0 ==> |RetriedExactly(rows, 0)| > maxSize)
  }

  /** The loop, left to itself, will remove the signature without another look. */
  ghost predicate WillDoom(cfg: Config, s: State, key: string) {
    match s.loop
    case Snapshotting(_, rows) => cfg.maxQueue.Some? && exists p: nat :: WillBeShed(rows, cfg.maxQueue.value, key, p)
    case _ => key in Doomed(s.loop)
  }

  ghost predicate DoomGoesOn(cfg: Config, s: State, e: Event, t: State, key: string, owner: nat) {
    if LoopRemoves(e) && !Stay(t, key, owner) then true
    else Stay(t, key, owner) && WillDoom(cfg, t, key) && !LooksAt(e, key)
  }

  lemma ObserveGoesOn(cfg: Config, s: State, at: string, key: string, owner: nat)
    requires Enabled(cfg, s, Observe(at)) && Stay(s, key, owner) && WillDoom(cfg, s, key)
    ensures DoomGoesOn(cfg, s, Observe(at), Apply(cfg, s, Observe(at)), key, owner)
  {
    var rows, row := s.loop.rows, Row(at, s.store[at].data);
    var p: nat :| WillBeShed(rows, cfg.maxQueue.value, key, p);
    assert SignaturesOf(rows)[p] == key;
    MoreRows(rows, row, cfg.maxQueue.value, key, p);
    RetriedExactlyAppend(rows, row, 0);
    assert WillBeShed(rows + [row], cfg.maxQueue.value, key, p);
  }

  lemma CutGoesOn(cfg: Config, s: State, key: string, owner: nat)
    requires Enabled(cfg, s, CutTail) && DistinctRows(s.loop.rows)
    requires Stay(s, key, owner) && WillDoom(cfg, s, key)
    ensures DoomGoesOn(cfg, s, CutTail, Apply(cfg, s, CutTail), key, owner)
  {
    var rows, maxSize := s.loop.rows, cfg.maxQueue.value;
    var p: nat :| WillBeShed(rows, maxSize, key, p);
    LongEnough(rows, maxSize, key, p);
    var victims := Victims(rows, maxSize).value;
    if rows[p].data.retryCount == 0 {
      FreshRowShed(rows, maxSize, victims, p);
    } else {
      RetriedRowShed(rows, maxSize, victims, p);
    }
  }

  lemma LongEnough(rows: seq<Row>, maxSize: nat, key: string, p: nat)
    requires WillBeShed(rows, maxSize, key, p)
    ensures Victims(rows, maxSize).Some?
  {
    ExactlyAtMost(rows, 0);
    ExactlyAtMost(rows[..p], 0);
  }

  lemma {:induction false} ExactlyAtMost(rows: seq<Row>, count: nat)
    ensures |RetriedExactly(rows, count)| <= |rows|
  {
    if rows != [] {
      ExactlyAtMost(rows[..|rows| - 1], count);
    }
  }

  lemma ShedGoesOn(cfg: Config, s: State, e: Event, key: string, owner: nat)
    requires Stay(s, key, owner) && key in Doomed(s.loop) && (e == ShedOnce || e == ShedAgain) && Enabled(cfg, s, e)
    ensures DoomGoesOn(cfg, s, e, Apply(cfg, s, e), key, owner)
  {
    var victims := s.loop.victims;
    assert SignaturesOf(victims) == [victims[0].signature] + SignaturesOf(victims[1..]);
  }

  lemma VisitGoesOn(cfg: Config, s: State, at: string, key: string, owner: nat)
    requires Shape(cfg, s) && Enabled(cfg, s, Visit(at))
    requires Stay(s, key, owner) && key in Doomed(s.loop)
    ensures DoomGoesOn(cfg, s, Visit(at), Apply(cfg, s, Visit(at)), key, owner)
  {
    assert key in s.loop.visited && EntryOk(s.calls, at, s.store[at]);
    DoomOfVisit(cfg, s, at, key);
  }

  lemma PassGoesOn(cfg: Config, s: State, e: Event, key: string, owner: nat)
    requires Enabled(cfg, s, e) && Stay(s, key, owner) && key in Doomed(s.loop)
    requires e.EndVisits? || e.SendWire? || e.EndSends? || e.RemoveReached?
    ensures DoomGoesOn(cfg, s, e, Apply(cfg, s, e), key, owner)
  {
  }

  lemma DoomAdvances(cfg: Config, s: State, key: string, owner: nat)
    requires Shape(cfg, s) && Stay(s, key, owner) && WillDoom(cfg, s, key)
    ensures UnderWay(s) && Enabled(cfg, s, NextStep(s))
    ensures DoomGoesOn(cfg, s, NextStep(s), Apply(cfg, s, NextStep(s)), key, owner)
  {
    NextStepEnabled(cfg, s);
    var e := NextStep(s);
    if e.Observe? {
      ObserveGoesOn(cfg, s, e.key, key, owner);
    } else if e.CutTail? {
      CutGoesOn(cfg, s, key, owner);
    } else {
      DoomedAdvances(cfg, s, e, key, owner);
    }
  }

  lemma DoomedAdvances(cfg: Config, s: State, e: Event, key: string, owner: nat)
    requires Shape(cfg, s) && Stay(s, key, owner) && UnderWay(s) && Enabled(cfg, s, e) && e == NextStep(s)
    requires !s.loop.Snapshotting? && key in Doomed(s.loop)
    ensures DoomGoesOn(cfg, s, e, Apply(cfg, s, e), key, owner)
  {
    if s.loop.Shedding? {
      ShedGoesOn(cfg, s, e, key, owner);
    } else if e.Visit? {
      VisitGoesOn(cfg, s, e.key, key, owner);
    } else {
      PassGoesOn(cfg, s, e, key, owner);
    }
  }

  lemma {:induction false} WillBeDropped(cfg: Config, r: Run, from: Run, s: State, key: string, owner: nat)
    returns (q: Run)
    requires Legal(cfg, r) && Final(cfg, r) == s && HeldBlind(cfg, r, from, key, owner)
    requires WillDoom(cfg, s, key)
    ensures DroppedBlind(cfg, q, from, key, owner)
    decreases Phases(s), Remaining(s)
  {
    InvariantHolds(cfg, r);
    DoomAdvances(cfg, s, key, owner);
    NextStepAdvances(cfg, s);
    var t;
    q, t := Extend(cfg, r, s, NextStep(s));
    if !LoopRemoves(NextStep(s)) || Stay(t, key, owner) {
      q := WillBeDropped(cfg, q, from, t, key, owner);
    }
  }

  // ---- Newcomers push a retried row back ----

  lemma {:induction false} LongerThanAll(keys: set<string>) returns (n: nat)
    ensures forall key :: key in keys ==> |key| < n
  {
    n := 0;
    if keys != {} {
      var key := Pick(keys);
      n := LongerThanAll(keys - {key});
      n := if |key| < n then n else |key| + 1;
    }
  }

  lemma {:induction false} NewSignature(keys: set<string>) returns (key: string)
    ensures key !in keys
  {
    var n := LongerThanAll(keys);
    key := seq(n, _ => 'a');
  }

  lemma {:induction false} HoldBlind(cfg: Config, r: Run, from: Run, s: State, e: Event, key: string, owner: nat)
    returns (q: Run, t: State)
    requires Legal(cfg, r) && Final(cfg, r) == s && HeldBlind(cfg, r, from, key, owner)
    requires Enabled(cfg, s, e) && !LooksAt(e, key) && Stay(Apply(cfg, s, e), key, owner)
    ensures q == Then(r, e) && Legal(cfg, q) && t == Final(cfg, q) == Apply(cfg, s, e)
    ensures HeldBlind(cfg, q, from, key, owner)
  {
    q, t := Extend(cfg, r, s, e);
  }

  /** A call with a new signature gets as far as its insert. */
  lemma {:induction false} NewcomerTested(
      cfg: Config, r: Run, from: Run, s: State, key: string, owner: nat, txn: VersionedTransaction)
    returns (q: Run, t: State)
    requires Legal(cfg, r) && Final(cfg, r) == s && HeldBlind(cfg, r, from, key, owner)
    requires txn.signatures != [] && txn.signatures[0] !in s.store
    ensures Legal(cfg, q) && Final(cfg, q) == t && HeldBlind(cfg, q, from, key, owner)
    ensures t.store == s.store && t.loop == s.loop && |t.calls| == |s.calls| + 1
    ensures t.calls[|s.calls|] == Call(NewTransaction(cfg.retryCap, None, [], txn), AtInsert, NotSpawned, false, 0)
  {
    q, t := HoldBlind(cfg, r, from, s, Arrive([], txn, None), key, owner);
    q, t := HoldBlind(cfg, q, from, t, PassGate(|s.calls|), key, owner);
    q, t := HoldBlind(cfg, q, from, t, TestStored(|s.calls|), key, owner);
  }

  /** One newcomer inserted and observed: one more row never retried. */
  lemma {:induction false} NewcomerObserved(cfg: Config, r: Run, from: Run, s: State, key: string, owner: nat)
    returns (q: Run, t: State)
    requires Legal(cfg, r) && Final(cfg, r) == s && HeldBlind(cfg, r, from, key, owner) && s.loop.Snapshotting?
    ensures Legal(cfg, q) && Final(cfg, q) == t && HeldBlind(cfg, q, from, key, owner)
    ensures t.loop.Snapshotting? && |t.loop.rows| == |s.loop.rows| + 1 && s.loop.rows <= t.loop.rows
    ensures t.loop.rows[|s.loop.rows|].data.retryCount == 0 && t.loop.rows[|s.loop.rows|].signature != key
  {
    var rows := s.loop.rows;
    var newcomer := NewSignature(s.store.Keys + Elements(SignaturesOf(rows)));
    q, t := NewcomerTested(cfg, r, from, s, key, owner, VersionedTransaction([newcomer], ""));
    q, t := HoldBlind(cfg, q, from, t, Insert(|s.calls|), key, owner);
    q, t := HoldBlind(cfg, q, from, t, Observe(newcomer), key, owner);
  }

  lemma OneMoreFresh(rows: seq<Row>, more: seq<Row>, maxSize: nat, key: string, p: nat)
    requires MayBeShed(rows, maxSize, key, p) && rows <= more && |more| == |rows| + 1
    requires more[|rows|].data.retryCount == 0 && more[|rows|].signature != key
    ensures MayBeShed(more, maxSize, key, p)
    ensures |RetriedExactly(more, 0)| == |RetriedExactly(rows, 0)| + 1
  {
    assert more == rows + [more[|rows|]];
    MoreRows(rows, more[|rows|], maxSize, key, p);
    RetriedExactlyAppend(rows, more[|rows|], 0);
  }

  /** Enough newcomers turn the risk into a certainty. */
  lemma {:induction false} RiskGrows(cfg: Config, r: Run, from: Run, s: State, key: string, owner: nat, p: nat)
    returns (q: Run)
    requires Legal(cfg, r) && Final(cfg, r) == s && HeldBlind(cfg, r, from, key, owner)
    requires s.loop.Snapshotting? && cfg.maxQueue.Some? && MayBeShed(s.loop.rows, cfg.maxQueue.value, key, p)
    ensures DroppedBlind(cfg, q, from, key, owner)
    decreases cfg.maxQueue.value + 1 - |RetriedExactly(s.loop.rows, 0)|
  {
    if WillBeShed(s.loop.rows, cfg.maxQueue.value, key, p) {
      q := WillBeDropped(cfg, r, from, s, key, owner);
    } else {
      var t;
      q, t := NewcomerObserved(cfg, r, from, s, key, owner);
      OneMoreFresh(s.loop.rows, t.loop.rows, cfg.maxQueue.value, key, p);
      q := RiskGrows(cfg, q, from, t, key, owner, p);
    }
  }

  lemma {:induction false} AtRiskCanBeDropped(cfg: Config, r: Run, s: State, key: string, owner: nat) returns (q: Run)
    requires Legal(cfg, r) && Final(cfg, r) == s && Stay(s, key, owner) && MayDoom(cfg, s, key)
    ensures DroppedBlind(cfg, q, r, key, owner)
  {
    if s.loop.Snapshotting? {
      var p: nat :| MayBeShed(s.loop.rows, cfg.maxQueue.value, key, p);
      q := RiskGrows(cfg, r, r, s, key, owner, p);
    } else {
      q := WillBeDropped(cfg, r, r, s, key, owner);
    }
  }

  ghost predicate CanBeDroppedBlind(cfg: Config, r: Run, key: string, owner: nat) {
    exists later :: DroppedBlind(cfg, later, r, key, owner)
  }

  /** In every reachable state, over all continuations: the loop can remove a stored stay
      without another look at it, by observing or visiting it, iff its signature is
      listed as exhausted or shed, or a snapshot is under way that has read a row of it
      which was retried or which more than max_size rows never retried precede. */
  lemma {:induction false} DroppedIffDoomed(cfg: Config, r: Run, key: string, owner: nat)
    requires Legal(cfg, r) && Stay(Final(cfg, r), key, owner)
    ensures CanBeDroppedBlind(cfg, r, key, owner) <==> MayDoom(cfg, Final(cfg, r), key)
  {
    if CanBeDroppedBlind(cfg, r, key, owner) {
      var later :| DroppedBlind(cfg, later, r, key, owner);
      OnlyDoomedAreDropped(cfg, Final(cfg, later.before), later.event, key, owner);
      DoomPersists(cfg, later.before, r, key, owner);
    }
    if MayDoom(cfg, Final(cfg, r), key) {
      var q := AtRiskCanBeDropped(cfg, r, Final(cfg, r), key, owner);
    }
  }

  /** Nothing else ends a stay: its own confirm task, a rival one way or the other, or
      the loop carrying out a removal it was bound to. */
  lemma HowStaysEnd(cfg: Config, s: State, e: Event, key: string, owner: nat)
    requires Shape(cfg, s) && Enabled(cfg, s, e)
    requires Stay(s, key, owner) && !Stay(Apply(cfg, s, e), key, owner)
    ensures
      || e == EndConfirm(owner)
      || (Takes(e, owner, Evict) && Rivalled(s, key, owner, Evict))
      || (Takes(e, owner, Overwrite) && Rivalled(s, key, owner, Overwrite))
      || (LoopRemoves(e) && key in Doomed(s.loop))
  {
    if e.EndConfirm? && e.call != owner {
      OnlyRivalsTake(cfg, s, e, key, owner, Evict);
    } else if e.Insert? {
      assert EntryOk(s.calls, key, s.store[key]) && CallOk(cfg, s.calls[e.call]);
      OnlyRivalsTake(cfg, s, e, key, owner, Overwrite);
    } else if LoopRemoves(e) {
      OnlyDoomedAreDropped(cfg, s, e, key, owner);
    } else if !e.EndConfirm? && !e.Visit? {
      StoreChange(cfg, s, e);
    }
  }

  // ---- Stays listed by mistake ----

  /** A stay that is listed as exhausted without having been visited as such. */
  ghost predicate Mistaken(s: State, key: string) {
    key in s.store && !s.store[key].spent && key in Listed(s.loop)
  }

  ghost predicate MistakenAreNew(s: State) {
    forall key :: Mistaken(s, key) && s.store[key].owner < |s.calls| ==> s.calls[s.store[key].owner].pushes == 0
  }

  lemma MistakenVisit(cfg: Config, s: State, at: string, key: string)
    requires Shape(cfg, s) && Enabled(cfg, s, Visit(at)) && Mistaken(Apply(cfg, s, Visit(at)), key)
    ensures Mistaken(s, key)
    ensures var owner := s.store[key].owner;
      owner < |s.calls| && Apply(cfg, s, Visit(at)).calls[owner].pushes == s.calls[owner].pushes
  {
    NotYetSpent(cfg, s, at);
    assert key in s.store && EntryOk(s.calls, key, s.store[key]);
    if key != at {
      DoomOfVisit(cfg, s, at, key);
    }
  }

  lemma MistakenInsert(cfg: Config, s: State, c: nat, key: string)
    requires Enabled(cfg, s, Insert(c)) && CallOk(cfg, s.calls[c]) && Mistaken(Apply(cfg, s, Insert(c)), key)
    requires key in s.store ==> s.store[key].owner < |s.calls| && s.store[key].owner != c
    ensures var t := Apply(cfg, s, Insert(c));
      if key == KeyOf(s, c) then t.calls[t.store[key].owner].pushes == 0
      else Mistaken(s, key) && t.store[key] == s.store[key]
           && t.calls[s.store[key].owner].pushes == s.calls[s.store[key].owner].pushes
  {
  }

  lemma MistakenElsewhere(cfg: Config, s: State, e: Event, key: string)
    requires Enabled(cfg, s, e) && !e.Visit? && !e.Insert? && Mistaken(Apply(cfg, s, e), key)
    ensures Mistaken(s, key) && Apply(cfg, s, e).store[key] == s.store[key]
  {
    StoreChange(cfg, s, e);
    if !e.RemoveReached? {
      ListedKept(cfg, s, e);
    }
  }

  lemma {:induction false} MistakenStep(cfg: Config, s: State, e: Event, key: string)
    requires Shape(cfg, s) && Enabled(cfg, s, e) && MistakenAreNew(s)
    requires Mistaken(Apply(cfg, s, e), key) && Apply(cfg, s, e).store[key].owner < |Apply(cfg, s, e).calls|
    ensures Apply(cfg, s, e).calls[Apply(cfg, s, e).store[key].owner].pushes == 0
  {
    if key in s.store {
      assert EntryOk(s.calls, key, s.store[key]);
    }
    if e.Insert? {
      assert CallOk(cfg, s.calls[e.call]);
      MistakenInsert(cfg, s, e.call, key);
    } else if e.Visit? {
      MistakenVisit(cfg, s, e.key, key);
    } else {
      MistakenElsewhere(cfg, s, e, key);
      PushesKept(cfg, s, e, s.store[key].owner);
    }
  }

  lemma {:induction false} MistakenHolds(cfg: Config, r: Run)
    requires Legal(cfg, r)
    ensures MistakenAreNew(Final(cfg, r))
  {
    if r.Then? {
      MistakenHolds(cfg, r.before);
      InvariantHolds(cfg, r.before);
      var s, t := Final(cfg, r.before), Final(cfg, r);
      forall key | Mistaken(t, key) && t.store[key].owner < |t.calls|
        ensures t.calls[t.store[key].owner].pushes == 0
      {
        MistakenStep(cfg, s, r.event, key);
      }
    }
  }

  /** Whatever the loop has listed without visiting the stay has never been pushed: it
      came after the listing, and unless something else ends it first it goes unpushed. */
  lemma MistakenStaysAreUnpushed(cfg: Config, r: Run, key: string)
    requires Legal(cfg, r) && Mistaken(Final(cfg, r), key)
    ensures var s := Final(cfg, r);
      s.store[key].owner < |s.calls| && s.calls[s.store[key].owner].pushes == 0
  {
    MistakenHolds(cfg, r);
    NoLeakedEntries(cfg, r, key);
  }

  // ---- Stays the loop never looked at ----

  lemma UnseenStep(cfg: Config, s: State, e: Event, key: string, owner: nat)
    requires Shape(cfg, s) && Enabled(cfg, s, e) && Stay(s, key, owner) && !LooksAt(e, key)
    ensures owner < |s.calls| && owner < |Apply(cfg, s, e).calls|
    ensures Apply(cfg, s, e).calls[owner].pushes == s.calls[owner].pushes
  {
    assert EntryOk(s.calls, key, s.store[key]);
    if e.Visit? {
      assert EntryOk(s.calls, e.key, s.store[e.key]);
    } else {
      PushesKept(cfg, s, e, owner);
    }
  }

  lemma {:induction false} UnseenIsUnpushed(cfg: Config, later: Run, from: Run, key: string, owner: nat)
    requires Legal(cfg, from) && Legal(cfg, later) && HeldBlind(cfg, later, from, key, owner)
    ensures owner < |Final(cfg, from).calls| && owner < |Final(cfg, later).calls|
    ensures Final(cfg, later).calls[owner].pushes == Final(cfg, from).calls[owner].pushes
  {
    if later == from {
      NoLeakedEntries(cfg, from, key);
    } else {
      UnseenIsUnpushed(cfg, later.before, from, key, owner);
      InvariantHolds(cfg, later.before);
      UnseenStep(cfg, Final(cfg, later.before), later.event, key, owner);
    }
  }

  lemma InsertedUnpushed(cfg: Config, s: State, c: nat)
    requires Shape(cfg, s) && Enabled(cfg, s, Insert(c))
    ensures Apply(cfg, s, Insert(c)).calls[c].pushes == 0
  {
    assert CallOk(cfg, s.calls[c]);
  }

  lemma RemovalKeepsCalls(cfg: Config, s: State, e: Event)
    requires Enabled(cfg, s, e) && LoopRemoves(e)
    ensures Apply(cfg, s, e).calls == s.calls
  {
  }

  /** A new stay that the loop drops without ever having looked at it, be it listed as
      exhausted, as shed, or shed on an old row, was never pushed. */
  lemma {:induction false} NewStayDroppedUnpushed(cfg: Config, later: Run, from: Run, key: string, owner: nat)
    requires Legal(cfg, from) && from.Then? && from.event == Insert(owner)
    requires DroppedBlind(cfg, later, from, key, owner)
    ensures owner < |Final(cfg, later).calls| && Final(cfg, later).calls[owner].pushes == 0
  {
    InvariantHolds(cfg, from.before);
    InsertedUnpushed(cfg, Final(cfg, from.before), owner);
    UnseenIsUnpushed(cfg, later.before, from, key, owner);
    RemovalKeepsCalls(cfg, Final(cfg, later.before), later.event);
  }
}

// The retransmission service as one interleaved system: request handlers, the retry
// loop with its phases, one confirm task per tracked call, and the send tasks
// (src/application/transaction.rs, src/infrastructure/txn_sender.rs,
// src/storage/transaction_store.rs). All of them edit the same map, one key at a
// time, and every removal is by signature, so it may hit a later stay of that
// signature than the one it was meant for.
//
// A call inserts at most once, so the number of the call also names the residency
// it creates and the confirm task it spawns. Fields marked "history" are never read
// by a step's effect on the service; they record what happened.
module Retransmission {
  import opened Wrappers
  import opened Traces
  import opened Sums
  import opened Transactions
  import opened LeaderScan
  import opened Sends
  import opened RetryQueue

  datatype Config = Config(maxQueue: Option<nat>, retryCap: nat, numLeaders: nat)

  /** A stored transaction. History: the call that inserted it, the traversal and
      insertion counts at that time, and whether the loop has listed it as exhausted. */
  datatype Entry = Entry(data: TransactionData, owner: nat, bornPass: nat, bornTick: nat, spent: bool)

  /** Where a request handler stands: at the duplicate gate of the application, at the
      store's own membership test, at its insert, before spawning the confirm task,
      before sending, or finished in one of three ways. */
  datatype Stage = AtGate | AtTest | AtInsert | AtSpawn | AtSend | Finished | Duplicate | Panicked

  datatype Confirm = NotSpawned | Running | Ended

  /** History: whether the call inserted its transaction, and how often the loop has
      pushed that residency. */
  datatype Call = Call(data: TransactionData, stage: Stage, confirm: Confirm, inserted: bool, pushes: nat)

  /** One send to one leader, with the attempts made so far. */
  datatype SendTask = SendTask(send: Send, attempts: nat, done: bool)

  datatype Death = SliceOutOfRange | UnwrapOnNone

  /** The retry loop's program counter with its locals. */
  datatype Loop =
    | Idle
    | Snapshotting(since: nat, rows: seq<Row>)
    | Shedding(victims: seq<Row>, removedOnce: bool)
    | Iterating(visited: set<string>, wires: seq<seq<bv8>>, reached: seq<string>)
    | Sending(wires: seq<seq<bv8>>, reached: seq<string>)
    | Removing(reached: seq<string>)
    | Dead(death: Death)

  /** History: passes and insertions so far, the wires handed to senders by the loop, and
      the owed pushes lost with entries that left the store before being exhausted. */
  datatype State = State(
    store: map<string, Entry>,
    calls: seq<Call>,
    loop: Loop,
    tasks: seq<SendTask>,
    passes: nat,
    ticks: nat,
    sent: seq<seq<bv8>>,
    forfeited: nat)

  const INITIAL: State := State(map[], [], Idle, [], 0, 0, [], 0)

  datatype Event =
    | Arrive(wire: seq<bv8>, txn: VersionedTransaction, requested: Option<nat>)
    | PassGate(call: nat)
    | TestStored(call: nat)
    | Insert(call: nat)
    | SpawnConfirm(call: nat)
    | SendDirect(call: nat, view: seq<Reading>)
    | EndConfirm(call: nat)
    | Measure
    | Observe(key: string)
    | CutTail
    | ShedOnce
    | ShedAgain
    | BeginPass
    | Visit(key: string)
    | EndVisits
    | SendWire(view: seq<Reading>)
    | EndSends
    | RemoveReached
    | Sleep
    | Attempt(task: nat, delivered: bool)

  // ---- Effects ----

  function OwedBy(e: Entry): nat {
    if e.spent then 0 else Owed(e.data)
  }

  /** Removal by signature, whoever stored it. */
  function Without(s: State, key: string): State {
    if key in s.store then s.(store := s.store - {key}, forfeited := s.forfeited + OwedBy(s.store[key])) else s
  }

  function AtStage(s: State, call: nat, stage: Stage): State
    requires call < |s.calls|
  {
    s.(calls := s.calls[call := s.calls[call].(stage := stage)])
  }

  function TasksFor(sends: seq<Send>): (tasks: seq<SendTask>)
    ensures |tasks| == |sends| && forall i :: 0 <= i < |tasks| ==> tasks[i] == SendTask(sends[i], 0, false)
  {
    seq(|sends|, i requires 0 <= i < |sends| => SendTask(sends[i], 0, false))
  }

  /** One task per scanned leader that has a QUIC address. */
  function WithSends(s: State, wire: seq<bv8>, view: seq<Reading>, numLeaders: nat): State {
    s.(tasks := s.tasks + TasksFor(SendsOf(wire, ValuesOf(Scan(view, numLeaders)))))
  }

  function Inserted(s: State, call: nat, key: string): State
    requires call < |s.calls|
  {
    var c := s.calls[call];
    var without := Without(s, key);
    without.(store := without.store[key := Entry(c.data, call, s.passes, s.ticks, false)],
             ticks := s.ticks + 1,
             calls := s.calls[call := c.(stage := AtSpawn, inserted := true)])
  }

  /** The body of the iteration: push, then either list as exhausted or count up. */
  function Visited(s: State, key: string): State
    requires s.loop.Iterating? && key in s.store && s.store[key].owner < |s.calls|
  {
    var e := s.store[key];
    var c := s.calls[e.owner];
    var wires := s.loop.wires + [e.data.wire];
    var counted := s.(calls := s.calls[e.owner := c.(pushes := c.pushes + 1)]);
    if Exhausted(e.data) then
      match GetSignature(e.data)
      case None => counted.(loop := Dead(UnwrapOnNone))
      case Some(signature) =>
        counted.(loop := Iterating(s.loop.visited + {key}, wires, s.loop.reached + [signature]),
                 store := s.store[key := e.(spent := true)])
    else
      counted.(loop := Iterating(s.loop.visited + {key}, wires, s.loop.reached),
               store := s.store[key := e.(data := Bumped(e.data))])
  }

  // ---- Steps ----

  predicate At(s: State, call: nat, stage: Stage) {
    call < |s.calls| && s.calls[call].stage == stage
  }

  function KeyOf(s: State, call: nat): string
    requires call < |s.calls| && s.calls[call].data.txn.signatures != []
  {
    s.calls[call].data.txn.signatures[0]
  }

  predicate HasKey(s: State, call: nat)
    requires call < |s.calls|
  {
    s.calls[call].data.txn.signatures != []
  }

  /** A traversal visits each key at most once, in any order, and does not end before
      every entry stored since it began has been visited. */
  predicate Enabled(cfg: Config, s: State, e: Event) {
    match e
    case Arrive(_, _, _) => true
    case PassGate(c) => At(s, c, AtGate)
    case TestStored(c) => At(s, c, AtTest) && HasKey(s, c)
    case Insert(c) => At(s, c, AtInsert) && HasKey(s, c)
    case SpawnConfirm(c) => At(s, c, AtSpawn)
    case SendDirect(c, view) => At(s, c, AtSend) && |view| <= 4 * cfg.numLeaders
    case EndConfirm(c) => c < |s.calls| && s.calls[c].confirm == Running && HasKey(s, c)
    case Measure => s.loop.Idle?
    case Observe(key) => s.loop.Snapshotting? && key in s.store && key !in SignaturesOf(s.loop.rows)
    case CutTail =>
      && s.loop.Snapshotting?
      && cfg.maxQueue.Some?
      && forall key :: key in s.store && s.store[key].bornTick < s.loop.since ==> key in SignaturesOf(s.loop.rows)
    case ShedOnce => s.loop.Shedding? && s.loop.victims != [] && !s.loop.removedOnce
    case ShedAgain => s.loop.Shedding? && s.loop.victims != [] && s.loop.removedOnce
    case BeginPass => s.loop.Shedding? && s.loop.victims == []
    case Visit(key) =>
      s.loop.Iterating? && key in s.store && key !in s.loop.visited && s.store[key].owner < |s.calls|
    case EndVisits =>
      && s.loop.Iterating?
      && forall key :: key in s.store && s.store[key].bornPass < s.passes ==> key in s.loop.visited
    case SendWire(view) => s.loop.Sending? && s.loop.wires != [] && |view| <= 4 * cfg.numLeaders
    case EndSends => s.loop.Sending? && s.loop.wires == []
    case RemoveReached => s.loop.Removing? && s.loop.reached != []
    case Sleep => s.loop.Removing? && s.loop.reached == []
    case Attempt(t, _) => t < |s.tasks| && !s.tasks[t].done
  }

  function Apply(cfg: Config, s: State, e: Event): State
    requires Enabled(cfg, s, e)
  {
    match e
    case Arrive(wire, txn, requested) =>
      var data := NewTransaction(cfg.retryCap, requested, wire, txn);
      s.(calls := s.calls + [Call(data, AtGate, NotSpawned, false, 0)])
    case PassGate(c) =>
      if !HasKey(s, c) then AtStage(s, c, Panicked)
      else if KeyOf(s, c) in s.store then AtStage(s, c, Duplicate)
      else AtStage(s, c, AtTest)
    case TestStored(c) =>
      if KeyOf(s, c) in s.store then AtStage(s, c, AtSpawn) else AtStage(s, c, AtInsert)
    case Insert(c) => Inserted(s, c, KeyOf(s, c))
    case SpawnConfirm(c) =>
      s.(calls := s.calls[c := s.calls[c].(stage := AtSend, confirm := Running)])
    case SendDirect(c, view) => AtStage(WithSends(s, s.calls[c].data.wire, view, cfg.numLeaders), c, Finished)
    case EndConfirm(c) =>
      Without(s, KeyOf(s, c)).(calls := s.calls[c := s.calls[c].(confirm := Ended)])
    case Measure =>
      if cfg.maxQueue.Some? && |s.store| > cfg.maxQueue.value then s.(loop := Snapshotting(s.ticks, []))
      else s.(loop := Shedding([], false))
    case Observe(key) =>
      s.(loop := s.loop.(rows := s.loop.rows + [Row(key, s.store[key].data)]))
    case CutTail =>
      (match Victims(s.loop.rows, cfg.maxQueue.value)
       case None => s.(loop := Dead(SliceOutOfRange))
       case Some(victims) => s.(loop := Shedding(victims, false)))
    case ShedOnce =>
      Without(s, s.loop.victims[0].signature).(loop := s.loop.(removedOnce := true))
    case ShedAgain =>
      Without(s, s.loop.victims[0].signature).(loop := Shedding(s.loop.victims[1..], false))
    case BeginPass => s.(loop := Iterating({}, [], []), passes := s.passes + 1)
    case Visit(key) => Visited(s, key)
    case EndVisits => s.(loop := Sending(s.loop.wires, s.loop.reached))
    case SendWire(view) =>
      WithSends(s, s.loop.wires[0], view, cfg.numLeaders).(
        loop := s.loop.(wires := s.loop.wires[1..]), sent := s.sent + [s.loop.wires[0]])
    case EndSends => s.(loop := Removing(s.loop.reached))
    case RemoveReached =>
      Without(s, s.loop.reached[0]).(loop := Removing(s.loop.reached[1..]))
    case Sleep => s.(loop := Idle)
    case Attempt(t, delivered) =>
      var n := s.tasks[t].attempts + 1;
      s.(tasks := s.tasks[t := s.tasks[t].(attempts := n, done := delivered || n >= SEND_TXN_RETRIES)])
  }

  type Run = Trace<Event>

  ghost predicate Legal(cfg: Config, r: Run)
    decreases r, 0
  {
    r.Then? ==> Legal(cfg, r.before) && Enabled(cfg, Final(cfg, r.before), r.event)
  }

  ghost function Final(cfg: Config, r: Run): State
    requires Legal(cfg, r)
    decreases r, 1
  {
    match r
    case Start => INITIAL
    case Then(before, event) => Apply(cfg, Final(cfg, before), event)
  }

  // ---- The inductive invariant ----

  ghost predicate CallOk(cfg: Config, c: Call) {
    && c.data.retryCount == 0 && c.data.maxRetries <= cfg.retryCap
    && (c.stage in {AtGate, AtTest, AtInsert, Duplicate, Panicked} ==> !c.inserted)
    && (c.confirm == NotSpawned <==> c.stage !in {AtSend, Finished})
    && (c.stage !in {AtGate, Panicked} ==> c.data.txn.signatures != [])
    && (!c.inserted ==> c.pushes == 0)
    && c.pushes <= c.data.maxRetries + 1
  }

  /** An entry is its owner's transaction, counted up, under its own signature; its
      owner has a confirm task running or is about to spawn it; and its count is the
      number of times this residency was pushed. */
  ghost predicate EntryOk(calls: seq<Call>, key: string, e: Entry) {
    && e.owner < |calls|
    && var c := calls[e.owner];
    && c.inserted
    && c.data.txn.signatures != [] && c.data.txn.signatures[0] == key
    && e.data == c.data.(retryCount := e.data.retryCount)
    && (c.stage == AtSpawn || c.confirm == Running)
    && e.data.retryCount <= e.data.maxRetries
    && (e.spent ==> Exhausted(e.data))
    && c.pushes == e.data.retryCount + if e.spent then 1 else 0
  }

  function Listed(loop: Loop): seq<string> {
    match loop
    case Iterating(_, _, reached) => reached
    case Sending(_, reached) => reached
    case Removing(reached) => reached
    case _ => []
  }

  function Pending(loop: Loop): nat {
    match loop
    case Iterating(_, wires, _) => |wires|
    case Sending(wires, _) => |wires|
    case _ => 0
  }

  /** Still due in the traversal under way. */
  predicate Due(s: State, key: string) {
    s.loop.Iterating? && key !in s.loop.visited
  }

  /** An entry has been pushed once per pass begun since it was stored, give or take
      the pass it was stored in and the pass under way. */
  ghost predicate AgeOk(e: Entry, pushes: nat, passes: nat, due: bool) {
    var age := passes - e.bornPass;
    && 0 <= age
    && (if due then age - 1 <= pushes <= age else age <= pushes <= age + 1)
  }

  ghost predicate LoopOk(cfg: Config, s: State) {
    && s.loop != Dead(UnwrapOnNone)
    && (s.loop.Snapshotting? ==> cfg.maxQueue.Some? && DistinctRows(s.loop.rows))
    && (s.loop.Iterating? ==> forall key :: key in s.loop.reached ==> key in s.loop.visited)
    && (forall key :: key in s.store && s.store[key].spent ==> key in Listed(s.loop))
  }

  ghost predicate Shape(cfg: Config, s: State) {
    && (forall i :: 0 <= i < |s.calls| ==> CallOk(cfg, s.calls[i]))
    && (forall key :: key in s.store ==> EntryOk(s.calls, key, s.store[key]))
    && (forall key :: key in s.store ==> s.store[key].bornTick < s.ticks)
    && (forall key :: key in s.store ==>
          AgeOk(s.store[key], s.calls[s.store[key].owner].pushes, s.passes, Due(s, key)))
    && LoopOk(cfg, s)
  }

  function PushesOf(c: Call): nat { c.pushes }

  function BudgetOf(c: Call): nat { if c.inserted then c.data.maxRetries + 1 else 0 }

  function SentDirectly(c: Call): nat { if c.stage == Finished then 1 else 0 }

  /** A call the application let through to the sender. */
  function ReachedSender(c: Call): nat {
    if c.stage in {AtGate, Duplicate, Panicked} then 0 else 1
  }

  function AttemptsOf(t: SendTask): nat { t.attempts }

  /** The ledger: pushes made, pushes still owed to stored entries and pushes lost add
      up to the budgets of everything ever inserted. */
  ghost predicate Ledger(s: State) {
    && SeqSum(s.calls, PushesOf) + MapSum(s.store, OwedBy) + s.forfeited == SeqSum(s.calls, BudgetOf)
    && |s.sent| + Pending(s.loop) == SeqSum(s.calls, PushesOf)
  }

  ghost predicate SendsOk(cfg: Config, s: State) {
    && (forall t :: 0 <= t < |s.tasks| ==>
          s.tasks[t].attempts <= SEND_TXN_RETRIES && (!s.tasks[t].done ==> s.tasks[t].attempts < SEND_TXN_RETRIES))
    && |s.tasks| <= cfg.numLeaders * (SeqSum(s.calls, SentDirectly) + |s.sent|)
  }
}

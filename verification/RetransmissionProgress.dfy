// The retry loop always has a next step of its own while it is under way, and its own
// steps alone bring it back to idle: a rank that each of them lowers.
module RetransmissionProgress {
  import opened Traces
  import opened Sums
  import opened RetryQueue
  import opened Retransmission

  /** Steps of the retry loop, and send attempts, which touch nothing else. */
  predicate OfLoop(e: Event) {
    match e
    case Measure | Observe(_) | CutTail | ShedOnce | ShedAgain | BeginPass | Visit(_)
       | EndVisits | SendWire(_) | EndSends | RemoveReached | Sleep | Attempt(_, _) => true
    case _ => false
  }

  predicate UnderWay(s: State) {
    !s.loop.Idle? && !s.loop.Dead?
  }

  /** Phases left in the turn. */
  function Phases(s: State): nat {
    match s.loop
    case Snapshotting(_, _) => 5
    case Shedding(_, _) => 4
    case Iterating(_, _, _) => 3
    case Sending(_, _) => 2
    case Removing(_) => 1
    case _ => 0
  }

  /** Steps left in the phase, not counting the one that ends it. */
  ghost function Remaining(s: State): nat {
    match s.loop
    case Snapshotting(_, rows) => |s.store.Keys - Elements(SignaturesOf(rows))|
    case Shedding(victims, removedOnce) => 2 * |victims| + if removedOnce then 0 else 1
    case Iterating(visited, _, _) => |s.store.Keys - visited|
    case Sending(wires, _) => |wires|
    case Removing(reached) => |reached|
    case _ => 0
  }

  ghost function NextStep(s: State): (e: Event)
    requires UnderWay(s)
    ensures OfLoop(e)
  {
    match s.loop
    case Snapshotting(_, rows) =>
      var unseen := s.store.Keys - Elements(SignaturesOf(rows));
      if unseen == {} then CutTail else Observe(Pick(unseen))
    case Shedding(victims, removedOnce) =>
      if victims == [] then BeginPass else if removedOnce then ShedAgain else ShedOnce
    case Iterating(visited, _, _) =>
      var unvisited := s.store.Keys - visited;
      if unvisited == {} then EndVisits else Visit(Pick(unvisited))
    case Sending(wires, _) => if wires == [] then EndSends else SendWire([])
    case Removing(reached) => if reached == [] then Sleep else RemoveReached
  }

  lemma NextStepEnabled(cfg: Config, s: State)
    requires Shape(cfg, s) && UnderWay(s)
    ensures Enabled(cfg, s, NextStep(s))
  {
    match s.loop
    case Snapshotting(_, rows) =>
      var unseen := s.store.Keys - Elements(SignaturesOf(rows));
      if unseen == {} {
        forall key | key in s.store ensures key in SignaturesOf(rows) {
          assert key !in unseen;
        }
      } else {
        assert Pick(unseen) in unseen;
      }
    case Iterating(visited, _, _) =>
      var unvisited := s.store.Keys - visited;
      if unvisited == {} {
        forall key | key in s.store ensures key in visited {
          assert key !in unvisited;
        }
      } else {
        assert Pick(unvisited) in unvisited;
        assert EntryOk(s.calls, Pick(unvisited), s.store[Pick(unvisited)]);
      }
    case _ =>
  }

  lemma ObserveAdvances(cfg: Config, s: State, key: string)
    requires Enabled(cfg, s, Observe(key))
    ensures Remaining(Apply(cfg, s, Observe(key))) < Remaining(s)
  {
    var rows := s.loop.rows;
    var more := rows + [Row(key, s.store[key].data)];
    assert SignaturesOf(more) == SignaturesOf(rows) + [key];
    assert Elements(SignaturesOf(more)) == Elements(SignaturesOf(rows)) + {key};
    var unseen := s.store.Keys - Elements(SignaturesOf(rows));
    assert key in unseen && s.store.Keys - Elements(SignaturesOf(more)) == unseen - {key};
  }

  lemma VisitAdvances(cfg: Config, s: State, key: string)
    requires Enabled(cfg, s, Visit(key)) && Apply(cfg, s, Visit(key)).loop.Iterating?
    ensures Remaining(Apply(cfg, s, Visit(key))) < Remaining(s)
  {
    var t := Apply(cfg, s, Visit(key));
    assert t.store.Keys == s.store.Keys && t.loop.visited == s.loop.visited + {key};
    var unvisited := s.store.Keys - s.loop.visited;
    assert key in unvisited && t.store.Keys - t.loop.visited == unvisited - {key};
  }

  ghost predicate Ranked(t: State, s: State) {
    Phases(t) < Phases(s) || (Phases(t) == Phases(s) && Remaining(t) < Remaining(s))
  }

  lemma NextStepAdvances(cfg: Config, s: State)
    requires UnderWay(s) && Enabled(cfg, s, NextStep(s))
    ensures Ranked(Apply(cfg, s, NextStep(s)), s)
  {
    match NextStep(s)
    case Observe(key) => ObserveAdvances(cfg, s, key);
    case Visit(key) =>
      if Apply(cfg, s, Visit(key)).loop.Iterating? {
        VisitAdvances(cfg, s, key);
      }
    case _ =>
  }

  lemma OnlySleepEnds(cfg: Config, s: State, e: Event)
    requires UnderWay(s) && Enabled(cfg, s, e) && Apply(cfg, s, e).loop.Idle?
    ensures e.Sleep?
  {
  }

  lemma Extend(cfg: Config, r: Run, s: State, e: Event) returns (q: Run, t: State)
    requires Legal(cfg, r) && Final(cfg, r) == s && Enabled(cfg, s, e)
    ensures q == Then(r, e) && Legal(cfg, q) && t == Final(cfg, q) == Apply(cfg, s, e)
  {
    q, t := Then(r, e), Apply(cfg, s, e);
  }
}

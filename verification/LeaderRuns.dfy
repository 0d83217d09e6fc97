// Every interleaving of the slot poller, the leader poller and the readers of the
// leader cache (src/infrastructure/leader_tracker.rs). The leader poller reads the
// slot counter twice, at the start of a poll and again for the clean-up, and inserts
// and removes one slot at a time; slot updates may fall anywhere in between.
module LeaderRuns {
  import opened Wrappers
  import opened Traces
  import opened MachineWords
  import opened Sums
  import opened LeaderScan
  import opened LeaderTrackers
  import Retransmission

  /** How many slots ahead one poll asks for. */
  const POLLED_SLOTS: nat := 1000

  datatype Poll =
    | Resting
    | Asking(next: U64)
    | Filling(next: U64, leaders: seq<string>, nodes: map<string, ContactInfo>, done: nat)
    | Pruning(next: U64, until: U64, doomed: set<U64>)

  /** `asked` and `cut` record the two slots read by the last poll that succeeded. */
  datatype State = State(curSlot: U64, cache: Cache, poll: Poll, asked: U64, cut: U64)

  datatype Event =
    | Sample(nextSlot: Option<U64>)
    | Ask
    | Fail
    | Reply(leaders: seq<string>, contacts: seq<ContactInfo>)
    | Fill
    | ReadCut
    | Prune(slot: U64)
    | Rest

  const INITIAL: State := State(0, map[], Resting, 0, 0)

  /** A reply names at most the requested number of existing slots' leaders. */
  predicate Enabled(s: State, e: Event) {
    match e
    case Sample(_) => true
    case Ask => s.poll.Resting?
    case Fail => s.poll.Asking?
    case Reply(leaders, _) =>
      s.poll.Asking? && |leaders| <= POLLED_SLOTS && s.poll.next + |leaders| <= TWO_64
    case Fill => s.poll.Filling? && s.poll.done < |s.poll.leaders|
    case ReadCut => s.poll.Filling? && s.poll.done == |s.poll.leaders|
    case Prune(slot) => s.poll.Pruning? && slot in s.poll.doomed
    case Rest => s.poll.Pruning? && s.poll.doomed == {}
  }

  function Apply(s: State, e: Event, leaderOffset: int): State
    requires Enabled(s, e)
  {
    match e
    case Sample(slot) => s.(curSlot := Advanced(s.curSlot, slot, leaderOffset))
    case Ask => s.(poll := Asking(s.curSlot))
    case Fail => s.(poll := Resting)
    case Reply(leaders, contacts) => s.(poll := Filling(s.poll.next, leaders, NodeMap(contacts), 0))
    case Fill =>
      var Filling(next, leaders, nodes, done) := s.poll;
      s.(cache := Filled(s.cache, Wrapped(next + done), leaders[done], nodes),
         poll := Filling(next, leaders, nodes, done + 1))
    case ReadCut =>
      s.(poll := Pruning(s.poll.next, s.curSlot, set k | k in s.cache && k < s.curSlot))
    case Prune(slot) =>
      s.(cache := s.cache - {slot}, poll := s.poll.(doomed := s.poll.doomed - {slot}))
    case Rest => s.(poll := Resting, asked := s.poll.next, cut := s.poll.until)
  }

  type Run = Trace<Event>

  ghost predicate Legal(r: Run, leaderOffset: int)
    decreases r, 0
  {
    r.Then? ==> Legal(r.before, leaderOffset) && Enabled(Final(r.before, leaderOffset), r.event)
  }

  ghost function Final(r: Run, leaderOffset: int): State
    requires Legal(r, leaderOffset)
    decreases r, 1
  {
    match r
    case Start => INITIAL
    case Then(before, event) => Apply(Final(before, leaderOffset), event, leaderOffset)
  }

  // ---- The slot counter ----

  predicate Sampled(r: Run, slot: U64) {
    r.Then? && (r.event == Sample(Some(slot)) || Sampled(r.before, slot))
  }

  /** Whatever order slots arrive in, the counter is the maximum of 0 and the start
      slots of everything sampled so far. */
  lemma {:induction false} SlotIsRunningMaximum(r: Run, leaderOffset: int)
    requires Legal(r, leaderOffset)
    ensures forall slot :: Sampled(r, slot) ==> GetStartSlot(slot, leaderOffset) <= Final(r, leaderOffset).curSlot
    ensures Final(r, leaderOffset).curSlot == 0
         || exists slot :: Sampled(r, slot) && GetStartSlot(slot, leaderOffset) == Final(r, leaderOffset).curSlot
  {
    if r.Then? {
      SlotIsRunningMaximum(r.before, leaderOffset);
      var was, now := Final(r.before, leaderOffset).curSlot, Final(r, leaderOffset).curSlot;
      if now != was {
        assert Sampled(r, r.event.nextSlot.value);
      } else if was != 0 {
        var slot :| Sampled(r.before, slot) && GetStartSlot(slot, leaderOffset) == was;
        assert Sampled(r, slot);
      }
    }
  }

  lemma {:induction false} SlotNeverDecreases(later: Run, earlier: Run, leaderOffset: int)
    requires Legal(later, leaderOffset) && Extends(later, earlier)
    ensures Legal(earlier, leaderOffset)
    ensures Final(earlier, leaderOffset).curSlot <= Final(later, leaderOffset).curSlot
  {
    if later != earlier {
      SlotNeverDecreases(later.before, earlier, leaderOffset);
    }
  }

  /** With a negative offset a slot sampled too early underflows, and the maximum
      then sticks: no later slot within the offset's reach moves the counter again. */
  lemma UnderflowSticks(r: Run, slot: U64, leaderOffset: int, next: U64)
    requires Legal(r, leaderOffset) && Sampled(r, slot)
    requires -TWO_64 < 4 * leaderOffset < 0 && slot < -4 * leaderOffset
    requires -4 * leaderOffset <= next
    ensures Advanced(Final(r, leaderOffset).curSlot, Some(next), leaderOffset) == Final(r, leaderOffset).curSlot
  {
    SlotIsRunningMaximum(r, leaderOffset);
    StartSlotIsWrappedSum(slot, leaderOffset);
    StartSlotIsWrappedSum(next, leaderOffset);
    assert Wrapped(slot + 4 * leaderOffset) == TWO_64 + slot + 4 * leaderOffset;
  }

  /** The counter is what it is meant to be: the maximum of 0 and the plain sums. */
  ghost predicate MaxOfSums(r: Run, leaderOffset: int, counter: int) {
    && (forall slot: U64 :: Sampled(r, slot) ==> slot + 4 * leaderOffset <= counter)
    && (counter == 0 || exists slot: U64 :: Sampled(r, slot) && slot + 4 * leaderOffset == counter)
  }

  /** A sum the machine gets right, or gets to 0, which is as good as a negative one. */
  predicate Harmless(sum: int) {
    sum < TWO_64 && (0 <= sum || Wrapped(sum) == 0)
  }

  lemma HarmlessStart(slot: U64, leaderOffset: int)
    ensures var sum := slot + 4 * leaderOffset;
      Harmless(sum) ==> GetStartSlot(slot, leaderOffset) == if 0 <= sum then sum else 0
  {
    StartSlotIsWrappedSum(slot, leaderOffset);
  }

  /** A sum that wraps below 0 starts past every sum that does not wrap. */
  lemma UnderflowIsPastAll(slot: U64, other: U64, leaderOffset: int)
    requires slot + 4 * leaderOffset < 0 && Wrapped(slot + 4 * leaderOffset) != 0
    ensures GetStartSlot(slot, leaderOffset) > other + 4 * leaderOffset
  {
    StartSlotIsWrappedSum(slot, leaderOffset);
    var sum := slot + 4 * leaderOffset;
    if -TWO_64 <= sum {
      assert Wrapped(sum) == sum + TWO_64;
    }
  }

  ghost predicate AllHarmless(r: Run, leaderOffset: int) {
    forall slot: U64 :: Sampled(r, slot) ==> Harmless(slot + 4 * leaderOffset)
  }

  lemma MaxNeedsHarmless(r: Run, leaderOffset: int, counter: U64, slot: U64)
    requires MaxOfSums(r, leaderOffset, counter) && Sampled(r, slot) && GetStartSlot(slot, leaderOffset) <= counter
    ensures Harmless(slot + 4 * leaderOffset)
  {
    StartSlotIsWrappedSum(slot, leaderOffset);
    if counter != 0 {
      var other: U64 :| Sampled(r, other) && other + 4 * leaderOffset == counter;
      if slot + 4 * leaderOffset < 0 && Wrapped(slot + 4 * leaderOffset) != 0 {
        UnderflowIsPastAll(slot, other, leaderOffset);
      }
    }
  }

  lemma HarmlessSumsCount(r: Run, leaderOffset: int, counter: U64)
    requires AllHarmless(r, leaderOffset)
    requires forall slot: U64 :: Sampled(r, slot) ==> GetStartSlot(slot, leaderOffset) <= counter
    requires counter == 0 || exists slot: U64 :: Sampled(r, slot) && GetStartSlot(slot, leaderOffset) == counter
    ensures MaxOfSums(r, leaderOffset, counter)
  {
    forall slot: U64 | Sampled(r, slot) ensures slot + 4 * leaderOffset <= counter {
      HarmlessStart(slot, leaderOffset);
    }
    if counter != 0 {
      var slot: U64 :| Sampled(r, slot) && GetStartSlot(slot, leaderOffset) == counter;
      HarmlessStart(slot, leaderOffset);
      assert slot + 4 * leaderOffset == counter;
    }
  }

  /** Over every run and for every offset, the counter is the maximum of 0 and all
      sampled slots plus four times the offset iff no sum wrapped to anything but 0. */
  lemma {:induction false} CounterIsMaxOfSums(r: Run, leaderOffset: int)
    requires Legal(r, leaderOffset)
    ensures MaxOfSums(r, leaderOffset, Final(r, leaderOffset).curSlot) <==> AllHarmless(r, leaderOffset)
  {
    SlotIsRunningMaximum(r, leaderOffset);
    var counter := Final(r, leaderOffset).curSlot;
    if AllHarmless(r, leaderOffset) {
      HarmlessSumsCount(r, leaderOffset, counter);
    } else {
      var slot: U64 :| Sampled(r, slot) && !Harmless(slot + 4 * leaderOffset);
      if MaxOfSums(r, leaderOffset, counter) {
        MaxNeedsHarmless(r, leaderOffset, counter, slot);
      }
    }
  }

  // ---- What an underflow leads to ----

  /** No reply of the run named a leader for the slot `horizon` or a later one. */
  ghost predicate RepliesBelow(r: Run, leaderOffset: int, horizon: int)
    requires Legal(r, leaderOffset)
  {
    r.Then? ==>
      && RepliesBelow(r.before, leaderOffset, horizon)
      && (r.event.Reply? && r.event.leaders != [] ==>
            Final(r.before, leaderOffset).poll.next + |r.event.leaders| <= horizon)
  }

  ghost predicate CachedBelow(s: State, horizon: int) {
    && (forall k :: k in s.cache ==> k < horizon)
    && (s.poll.Filling? && s.poll.leaders != [] ==> s.poll.next + |s.poll.leaders| <= horizon)
  }

  lemma CachedBelowStep(s: State, e: Event, leaderOffset: int, horizon: int)
    requires WindowInv(s) && CachedBelow(s, horizon) && Enabled(s, e)
    requires e.Reply? && e.leaders != [] ==> s.poll.next + |e.leaders| <= horizon
    ensures CachedBelow(Apply(s, e, leaderOffset), horizon)
  {
    if e.Fill? {
      assert Wrapped(s.poll.next + s.poll.done) == s.poll.next + s.poll.done;
    }
  }

  lemma {:induction false} CacheStaysBelow(r: Run, leaderOffset: int, horizon: int)
    requires Legal(r, leaderOffset) && RepliesBelow(r, leaderOffset, horizon)
    ensures CachedBelow(Final(r, leaderOffset), horizon)
  {
    if r.Then? {
      CacheStaysBelow(r.before, leaderOffset, horizon);
      WindowHolds(r.before, leaderOffset);
      CachedBelowStep(Final(r.before, leaderOffset), r.event, leaderOffset, horizon);
    }
  }

  lemma {:induction false} NothingRead(view: seq<Reading>, n: nat)
    requires forall j :: 0 <= j < |view| ==> view[j] == None
    ensures Scan(view, n) == []
  {
    if view != [] {
      NothingRead(view[1..], n);
    }
  }

  /** Once a sampled slot has underflowed, it is over: in every later run, and at
      whatever moments the window is read, as long as no reply names a slot as high as
      the underflowed start slot, get_leaders finds nobody and not one send is spawned. */
  lemma {:induction false} UnderflowSilences(
      r: Run, slot: U64, leaderOffset: int, at: Run, runs: seq<Run>, view: seq<Reading>, n: nat, horizon: int,
      s: Retransmission.State, wire: seq<bv8>)
    requires Legal(r, leaderOffset) && Sampled(r, slot) && -TWO_64 <= slot + 4 * leaderOffset < 0
    requires Legal(at, leaderOffset) && Extends(at, r)
    requires horizon <= TWO_64 + slot + 4 * leaderOffset
    requires |view| == |runs| == WindowSize(Final(at, leaderOffset).curSlot, n)
    requires forall j :: 0 <= j < |runs| ==>
      Legal(runs[j], leaderOffset) && RepliesBelow(runs[j], leaderOffset, horizon)
      && view[j] == Read(Final(runs[j], leaderOffset).cache, Final(at, leaderOffset).curSlot + j)
    ensures Scan(view, n) == [] && Retransmission.WithSends(s, wire, view, n) == s
  {
    SlotIsRunningMaximum(r, leaderOffset);
    StartSlotIsWrappedSum(slot, leaderOffset);
    assert Wrapped(slot + 4 * leaderOffset) == TWO_64 + slot + 4 * leaderOffset;
    SlotNeverDecreases(at, r, leaderOffset);
    forall j | 0 <= j < |view| ensures view[j] == None {
      CacheStaysBelow(runs[j], leaderOffset, horizon);
    }
    NothingRead(view, n);
  }

  // ---- The cache window ----

  ghost predicate KeysWithin(cache: Cache, lo: int, hi: int) {
    forall k :: k in cache ==> lo <= k < hi
  }

  ghost predicate WindowInv(s: State) {
    && s.asked <= s.cut <= s.curSlot
    && match s.poll
       case Resting => KeysWithin(s.cache, s.cut, s.asked + POLLED_SLOTS)
       case Asking(next) =>
         KeysWithin(s.cache, s.cut, s.asked + POLLED_SLOTS) && s.cut <= next <= s.curSlot
       case Filling(next, leaders, _, done) =>
         && done <= |leaders| <= POLLED_SLOTS && next + |leaders| <= TWO_64
         && s.cut <= next <= s.curSlot
         && (forall k :: k in s.cache ==> s.cut <= k < s.asked + POLLED_SLOTS || next <= k < next + done)
       case Pruning(next, until, doomed) =>
         && s.cut <= next <= until <= s.curSlot
         && (forall k :: k in s.cache ==> s.cut <= k < s.asked + POLLED_SLOTS || next <= k < next + POLLED_SLOTS)
         && (forall k :: k in s.cache && k < until ==> k in doomed)
  }

  lemma {:induction false} WindowHolds(r: Run, leaderOffset: int)
    requires Legal(r, leaderOffset)
    ensures WindowInv(Final(r, leaderOffset))
  {
    if r.Then? {
      WindowHolds(r.before, leaderOffset);
      WindowStep(Final(r.before, leaderOffset), r.event, leaderOffset);
    }
  }

  lemma WindowStep(s: State, e: Event, leaderOffset: int)
    requires WindowInv(s) && Enabled(s, e)
    ensures WindowInv(Apply(s, e, leaderOffset))
  {
    match e
    case Fill => assert Wrapped(s.poll.next + s.poll.done) == s.poll.next + s.poll.done;
    case _ =>
  }

  /** Between polls every cached slot lies between the slot read at the last
      successful clean-up and 1000 past the one that poll asked from, so at most 1000
      slots are cached; while a poll is under way there are at most twice as many. */
  lemma {:induction false} CacheStaysInWindow(r: Run, leaderOffset: int)
    requires Legal(r, leaderOffset)
    ensures var s := Final(r, leaderOffset);
      && s.asked <= s.cut <= s.curSlot
      && (s.poll.Resting? || s.poll.Asking? ==>
            KeysWithin(s.cache, s.cut, s.asked + POLLED_SLOTS) && |s.cache| <= POLLED_SLOTS)
      && |s.cache| <= 2 * POLLED_SLOTS
  {
    WindowHolds(r, leaderOffset);
    FewCached(Final(r, leaderOffset));
  }

  lemma {:induction false} FewCached(s: State)
    requires WindowInv(s)
    ensures s.poll.Resting? || s.poll.Asking? ==> |s.cache| <= POLLED_SLOTS
    ensures |s.cache| <= 2 * POLLED_SLOTS
  {
    assert |s.cache.Keys| == |s.cache|;
    if s.poll.Resting? || s.poll.Asking? {
      IntervalSize(s.cache.Keys, s.asked, s.asked + POLLED_SLOTS);
    } else {
      TwoIntervals(s.cache.Keys, s.asked, s.poll.next);
    }
  }

  lemma {:induction false} TwoIntervals(slots: set<U64>, a: int, b: int)
    requires forall k :: k in slots ==> a <= k < a + POLLED_SLOTS || b <= k < b + POLLED_SLOTS
    ensures |slots| <= 2 * POLLED_SLOTS
  {
    var first := set k | k in slots && a <= k < a + POLLED_SLOTS;
    IntervalSize(first, a, a + POLLED_SLOTS);
    IntervalSize(slots - first, b, b + POLLED_SLOTS);
    assert slots == first + (slots - first);
  }

  // ---- What a poll leaves, in any interleaving ----

  /** No further poll has begun since `asked`. */
  ghost predicate SamePoll(later: Run, asked: Run) {
    later == asked || (later.Then? && !later.event.Ask? && SamePoll(later.before, asked))
  }

  datatype LeaderReply = LeaderReply(leaders: seq<string>, contacts: seq<ContactInfo>)

  /** What the poll was answered, if anything. */
  function ReplyOf(later: Run, asked: Run): Option<LeaderReply> {
    if later == asked || later.Start? then None
    else if later.event.Reply? then Some(LeaderReply(later.event.leaders, later.event.contacts))
    else ReplyOf(later.before, asked)
  }

  ghost predicate PollInv(s: State, was: Cache, next: U64, reply: Option<LeaderReply>) {
    match s.poll
    case Asking(asked) => reply == None && asked == next && s.cache == was
    case Filling(asked, leaders, nodes, done) =>
      && reply.Some? && asked == next && leaders == reply.value.leaders && nodes == NodeMap(reply.value.contacts)
      && next + |leaders| <= TWO_64 && done <= |leaders|
      && s.cache == FilledUpTo(was, next, leaders[..done], nodes)
    case Pruning(asked, until, doomed) =>
      && reply.Some? && asked == next && next + |reply.value.leaders| <= TWO_64
      && s.cache - doomed
         == Pruned(FilledUpTo(was, next, reply.value.leaders, NodeMap(reply.value.contacts)), until)
    case Resting =>
      if reply == None then s.cache == was
      else
        && next + |reply.value.leaders| <= TWO_64
        && s.cache == Pruned(FilledUpTo(was, next, reply.value.leaders, NodeMap(reply.value.contacts)), s.cut)
  }

  lemma FillKeepsPoll(s: State, leaderOffset: int, was: Cache, next: U64, reply: Option<LeaderReply>)
    requires Enabled(s, Fill) && PollInv(s, was, next, reply)
    ensures PollInv(Apply(s, Fill, leaderOffset), was, next, reply)
  {
    var leaders, done := s.poll.leaders, s.poll.done;
    assert leaders[..done + 1][..done] == leaders[..done];
  }

  lemma CutKeepsPoll(s: State, leaderOffset: int, was: Cache, next: U64, reply: Option<LeaderReply>)
    requires Enabled(s, ReadCut) && PollInv(s, was, next, reply)
    ensures PollInv(Apply(s, ReadCut, leaderOffset), was, next, reply)
  {
    assert s.poll.leaders[..|s.poll.leaders|] == s.poll.leaders;
  }

  lemma PruneKeepsPoll(s: State, slot: U64, leaderOffset: int, was: Cache, next: U64, reply: Option<LeaderReply>)
    requires Enabled(s, Prune(slot)) && PollInv(s, was, next, reply)
    ensures PollInv(Apply(s, Prune(slot), leaderOffset), was, next, reply)
  {
    assert s.cache - {slot} - (s.poll.doomed - {slot}) == s.cache - s.poll.doomed;
  }

  lemma PollStep(s: State, e: Event, leaderOffset: int, was: Cache, next: U64, reply: Option<LeaderReply>)
    requires Enabled(s, e) && !e.Ask? && PollInv(s, was, next, reply)
    ensures PollInv(Apply(s, e, leaderOffset), was, next,
                    if e.Reply? then Some(LeaderReply(e.leaders, e.contacts)) else reply)
  {
    match e
    case Fill => FillKeepsPoll(s, leaderOffset, was, next, reply);
    case ReadCut => CutKeepsPoll(s, leaderOffset, was, next, reply);
    case Prune(slot) => PruneKeepsPoll(s, slot, leaderOffset, was, next, reply);
    case Rest => assert s.cache - {} == s.cache;
    case _ =>
  }

  lemma {:induction false} PollHolds(later: Run, asked: Run, leaderOffset: int)
    requires Legal(asked, leaderOffset) && Legal(later, leaderOffset) && SamePoll(later, asked)
    requires asked.Then? && asked.event.Ask?
    ensures PollInv(Final(later, leaderOffset), Final(asked, leaderOffset).cache, Final(asked, leaderOffset).curSlot,
                    ReplyOf(later, asked))
  {
    if later != asked {
      PollHolds(later.before, asked, leaderOffset);
      PollStep(Final(later.before, leaderOffset), later.event, leaderOffset, Final(asked, leaderOffset).cache,
               Final(asked, leaderOffset).curSlot, ReplyOf(later.before, asked));
    }
  }

  /** However slot updates fall into it, a poll that was answered and is over leaves at
      every slot what the two replies say, and a poll that failed leaves the cache. */
  lemma {:induction false} PollLeavesReplies(later: Run, asked: Run, leaderOffset: int, slot: U64)
    requires Legal(asked, leaderOffset) && Legal(later, leaderOffset) && SamePoll(later, asked)
    requires asked.Then? && asked.event.Ask? && Final(later, leaderOffset).poll.Resting?
    ensures var s, t := Final(asked, leaderOffset), Final(later, leaderOffset);
      match ReplyOf(later, asked)
      case None => t.cache == s.cache
      case Some(reply) => PolledSlot(t.cache, s.cache, s.curSlot, reply.leaders, reply.contacts, t.cut, slot)
  {
    PollHolds(later, asked, leaderOffset);
    if ReplyOf(later, asked).Some? {
      var reply := ReplyOf(later, asked).value;
      PollOnReplies(Final(asked, leaderOffset).cache, Final(asked, leaderOffset).curSlot,
                    reply.leaders, reply.contacts, Final(later, leaderOffset).cut, slot);
    }
  }

  // ---- Polls can always be completed ----

  /** Steps left in a poll that was answered. */
  function Left(s: State): nat {
    match s.poll
    case Filling(_, leaders, _, done) => if done <= |leaders| then 2 + |s.cache| + 2 * (|leaders| - done) else 0
    case Pruning(_, _, doomed) => 1 + |doomed|
    case _ => 0
  }

  ghost function NextPollStep(s: State): Event
    requires s.poll.Filling? || s.poll.Pruning?
  {
    match s.poll
    case Filling(_, leaders, _, done) => if done < |leaders| then Fill else ReadCut
    case Pruning(_, _, doomed) => if doomed == {} then Rest else Prune(Pick(doomed))
  }

  lemma {:induction false} FewDoomed(s: State)
    ensures |set k | k in s.cache && k < s.curSlot| <= |s.cache|
  {
    assert |s.cache.Keys| == |s.cache|;
    var passed := set k | k in s.cache && k < s.curSlot;
    SubsetSize(passed, s.cache.Keys);
  }

  lemma PollAdvances(s: State, leaderOffset: int)
    requires WindowInv(s) && (s.poll.Filling? || s.poll.Pruning?)
    ensures Enabled(s, NextPollStep(s))
    ensures var t := Apply(s, NextPollStep(s), leaderOffset);
      (t.poll.Filling? || t.poll.Pruning? || t.poll.Resting?) && Left(t) < Left(s)
  {
    if s.poll.Filling? && s.poll.done < |s.poll.leaders| {
      var cache := Filled(s.cache, Wrapped(s.poll.next + s.poll.done), s.poll.leaders[s.poll.done], s.poll.nodes);
      assert |cache| <= |s.cache| + 1;
    } else if s.poll.Filling? {
      FewDoomed(s);
    }
  }

  lemma {:induction false} AnsweredPollEnds(r: Run, asked: Run, leaderOffset: int, s: State) returns (later: Run)
    requires Legal(r, leaderOffset) && Final(r, leaderOffset) == s && SamePoll(r, asked) && r != asked
    requires s.poll.Filling? || s.poll.Pruning?
    ensures Legal(later, leaderOffset) && SamePoll(later, asked) && Final(later, leaderOffset).poll.Resting?
    ensures ReplyOf(later, asked) == ReplyOf(r, asked)
    ensures later != asked
    decreases Left(s)
  {
    WindowHolds(r, leaderOffset);
    PollAdvances(s, leaderOffset);
    later := Then(r, NextPollStep(s));
    NotBefore(later, r, asked);
    var t := Apply(s, NextPollStep(s), leaderOffset);
    if !t.poll.Resting? {
      later := AnsweredPollEnds(later, asked, leaderOffset, t);
    }
  }

  lemma {:induction false} NotBefore(later: Run, r: Run, asked: Run)
    requires SamePoll(r, asked) && later.Then? && later.before == r
    ensures later != asked
  {
    NoShorter(r, asked);
  }

  lemma {:induction false} NoShorter(r: Run, asked: Run)
    requires SamePoll(r, asked)
    ensures r == asked || asked < r
  {
    if r != asked {
      NoShorter(r.before, asked);
    }
  }

  /** From every reachable state between polls, a poll can be begun, answered with any
      leaders of existing slots and any nodes, and completed. */
  lemma {:induction false} PollCanComplete(r: Run, leaderOffset: int, reply: LeaderReply) returns (later: Run)
    requires Legal(r, leaderOffset) && Final(r, leaderOffset).poll.Resting?
    requires |reply.leaders| <= POLLED_SLOTS && Final(r, leaderOffset).curSlot + |reply.leaders| <= TWO_64
    ensures Legal(later, leaderOffset) && SamePoll(later, Then(r, Ask)) && Final(later, leaderOffset).poll.Resting?
    ensures ReplyOf(later, Then(r, Ask)) == Some(reply)
  {
    var asked := Then(r, Ask);
    assert Final(asked, leaderOffset).poll == Asking(Final(r, leaderOffset).curSlot);
    var answered := Then(asked, Reply(reply.leaders, reply.contacts));
    assert Final(answered, leaderOffset).poll.Filling?;
    later := AnsweredPollEnds(answered, asked, leaderOffset, Final(answered, leaderOffset));
  }

  /** Or it can fail. */
  lemma PollCanFail(r: Run, leaderOffset: int)
    requires Legal(r, leaderOffset) && Final(r, leaderOffset).poll.Resting?
    ensures Legal(Then(Then(r, Ask), Fail), leaderOffset)
    ensures Final(Then(Then(r, Ask), Fail), leaderOffset) == Final(r, leaderOffset)
  {
  }

  // ---- Agreement with the leader schedule ----

  /** Every reply of the run agrees with one slot-to-leader schedule. */
  ghost predicate Truthful(r: Run, leaderOffset: int, schedule: int -> string)
    requires Legal(r, leaderOffset)
  {
    r.Then? ==>
      && Truthful(r.before, leaderOffset, schedule)
      && (r.event.Reply? ==>
            var next := Final(r.before, leaderOffset).poll.next;
            forall i :: 0 <= i < |r.event.leaders| ==> r.event.leaders[i] == schedule(next + i))
  }

  ghost predicate ScheduleInv(s: State, schedule: int -> string) {
    && (forall k :: k in s.cache ==> s.cache[k].pubkey == schedule(k))
    && (s.poll.Filling? ==>
          && (forall i :: 0 <= i < |s.poll.leaders| ==> s.poll.leaders[i] == schedule(s.poll.next + i))
          && (forall n :: n in s.poll.nodes ==> s.poll.nodes[n].pubkey == n))
  }

  /** In every reachable state each cached slot names that slot's scheduled leader. */
  lemma {:induction false} CacheAgreesWithSchedule(r: Run, leaderOffset: int, schedule: int -> string)
    requires Legal(r, leaderOffset) && Truthful(r, leaderOffset, schedule)
    ensures ScheduleInv(Final(r, leaderOffset), schedule)
  {
    if r.Then? {
      CacheAgreesWithSchedule(r.before, leaderOffset, schedule);
      WindowHolds(r.before, leaderOffset);
      ScheduleStep(Final(r.before, leaderOffset), r.event, leaderOffset, schedule);
    }
  }

  lemma ScheduleStep(s: State, e: Event, leaderOffset: int, schedule: int -> string)
    requires ScheduleInv(s, schedule) && WindowInv(s) && Enabled(s, e)
    requires e.Reply? ==> forall i :: 0 <= i < |e.leaders| ==> e.leaders[i] == schedule(s.poll.next + i)
    ensures ScheduleInv(Apply(s, e, leaderOffset), schedule)
  {
    match e
    case Reply(_, contacts) => NodeMapKeyed(contacts);
    case Fill => assert Wrapped(s.poll.next + s.poll.done) == s.poll.next + s.poll.done;
    case _ =>
  }

  ghost predicate SelectedInOrder(keys: seq<string>, view: seq<Reading>, i: nat, j: nat)
    requires i < |keys| && j < |view|
  {
    && ReadsLeader(view[j], keys[i])
    && (forall i', k :: i < i' < |keys| && 0 <= k <= j ==> !ReadsLeader(view[k], keys[i']))
  }

  /** The i-th key was read at some slot of the window before any later key, and is
      that slot's scheduled leader. */
  ghost predicate ScheduledKey(keys: seq<string>, view: seq<Reading>, start: int, schedule: int -> string, i: nat)
    requires i < |keys|
  {
    exists j :: 0 <= j < |view| && SelectedInOrder(keys, view, i, j) && keys[i] == schedule(start + j)
  }

  lemma {:induction false} ReadIsCollected(view: seq<Reading>, k: nat, pubkey: string)
    requires k < |view| && ReadsLeader(view[k], pubkey)
    ensures pubkey in Distinct(Pubkeys(view))
  {
    if k < |view| - 1 {
      ReadIsCollected(view[..|view| - 1], k, pubkey);
      LongerViewExtends(view, |view| - 1);
    } else {
      LastPubkey(view, pubkey);
      DistinctMeaning(Pubkeys(view));
    }
  }

  lemma {:induction false} CollectedInOrder(view: seq<Reading>, i: nat)
    requires i < |Distinct(Pubkeys(view))|
    ensures exists j :: 0 <= j < |view| && SelectedInOrder(Distinct(Pubkeys(view)), view, i, j)
  {
    var front := view[..|view| - 1];
    var keys, before := Distinct(Pubkeys(view)), Distinct(Pubkeys(front));
    DistinctMeaning(Pubkeys(view));
    if view[|view| - 1].Some? {
      LastPubkey(view, view[|view| - 1].value.pubkey);
      DistinctAppend(Pubkeys(front), view[|view| - 1].value.pubkey);
    } else {
      assert Pubkeys(view) == Pubkeys(front);
    }
    if i < |before| {
      CollectedInOrder(front, i);
      var j :| 0 <= j < |front| && SelectedInOrder(before, front, i, j);
      AllCollected(front);
      LongerViewExtends(view, |front|);
      StillInOrder(before, front, keys, view, i, j);
    } else {
      assert SelectedInOrder(keys, view, i, |view| - 1);
    }
  }

  lemma {:induction false} AllCollected(view: seq<Reading>)
    ensures forall k, p :: 0 <= k < |view| && ReadsLeader(view[k], p) ==> p in Distinct(Pubkeys(view))
  {
    forall k, p | 0 <= k < |view| && ReadsLeader(view[k], p) ensures p in Distinct(Pubkeys(view)) {
      ReadIsCollected(view, k, p);
    }
  }

  /** A reading that put one key before the later ones still does once more keys
      from later readings are appended. */
  lemma {:induction false} StillInOrder(
      before: seq<string>, front: seq<Reading>, keys: seq<string>, view: seq<Reading>, i: nat, j: nat)
    requires before <= keys && front <= view && Repeatless(keys)
    requires forall k, p :: 0 <= k < |front| && ReadsLeader(front[k], p) ==> p in before
    requires i < |before| && j < |front| && SelectedInOrder(before, front, i, j)
    ensures SelectedInOrder(keys, view, i, j)
  {
    forall i', k | i < i' < |keys| && 0 <= k <= j ensures !ReadsLeader(view[k], keys[i']) {
      assert view[k] == front[k];
      if i' < |before| {
        assert keys[i'] == before[i'];
      } else {
        assert forall h :: 0 <= h < |before| ==> before[h] == keys[h];
        assert keys[i'] !in before;
      }
    }
  }

  lemma FewerKeysInOrder(all: seq<string>, keys: seq<string>, view: seq<Reading>, i: nat, j: nat)
    requires keys <= all && i < |keys| && j < |view| && SelectedInOrder(all, view, i, j)
    ensures keys[i] == all[i] && SelectedInOrder(keys, view, i, j)
  {
    forall i', k | i < i' < |keys| && 0 <= k <= j ensures !ReadsLeader(view[k], keys[i']) {
      assert keys[i'] == all[i'];
    }
  }

  /** Readings taken at any moments of truthful runs: the leaders returned are
      scheduled leaders of slots of the window, in the order in which those leaders
      first appear among the readings, and never more than asked for. */
  lemma {:induction false} LeadersFollowSchedule(
      runs: seq<Run>, leaderOffset: int, schedule: int -> string, view: seq<Reading>, start: U64, n: nat)
    requires |view| == |runs| == WindowSize(start, n)
    requires forall j :: 0 <= j < |runs| ==>
      Legal(runs[j], leaderOffset) && Truthful(runs[j], leaderOffset, schedule)
      && view[j] == Read(Final(runs[j], leaderOffset).cache, start + j)
    ensures |Scan(view, n)| <= n
    ensures forall i :: 0 <= i < |Scan(view, n)| ==> ScheduledKey(KeysOf(Scan(view, n)), view, start, schedule, i)
  {
    WindowSizeExact(start, n);
    ScanRefines(view, n);
    var keys, all := KeysOf(Scan(view, n)), Distinct(Pubkeys(view));
    forall i | 0 <= i < |keys|
      ensures ScheduledKey(keys, view, start, schedule, i)
    {
      CollectedInOrder(view, i);
      var j :| 0 <= j < |view| && SelectedInOrder(all, view, i, j);
      CacheAgreesWithSchedule(runs[j], leaderOffset, schedule);
      assert keys <= all;
      FewerKeysInOrder(all, keys, view, i, j);
    }
  }
}

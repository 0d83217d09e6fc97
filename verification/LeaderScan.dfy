// The scan behind get_leaders: it reads one slot after another and collects
// leaders in an insertion-ordered map until it has enough
// (src/infrastructure/leader_tracker.rs, get_leaders). A `view` is the sequence of
// readings, one per slot of the window; since the cache may change during a scan,
// nothing here assumes that the readings come from one moment.
module LeaderScan {
  import opened Wrappers

  datatype ContactInfo = ContactInfo(pubkey: string, tpuQuic: Option<string>)

  type Reading = Option<ContactInfo>

  type IndexMap = seq<(string, ContactInfo)>

  function KeysOf(m: IndexMap): (ks: seq<string>)
    ensures |ks| == |m| && forall i :: 0 <= i < |m| ==> ks[i] == m[i].0
  {
    seq(|m|, i requires 0 <= i < |m| => m[i].0)
  }

  function ValuesOf(m: IndexMap): (vs: seq<ContactInfo>)
    ensures |vs| == |m| && forall i :: 0 <= i < |m| ==> vs[i] == m[i].1
  {
    seq(|m|, i requires 0 <= i < |m| => m[i].1)
  }

  /** Insertion-ordered map update: a known key keeps its place. */
  function Upsert(m: IndexMap, key: string, value: ContactInfo): IndexMap {
    if m == [] then [(key, value)]
    else if m[0].0 == key then [(key, value)] + m[1..]
    else [m[0]] + Upsert(m[1..], key, value)
  }

  function Noted(m: IndexMap, reading: Reading): IndexMap {
    match reading
    case None => m
    case Some(leader) => Upsert(m, leader.pubkey, leader)
  }

  /** The loop: note a reading, leave once there are n leaders. */
  function ScanFrom(m: IndexMap, view: seq<Reading>, n: nat): IndexMap
    decreases |view|
  {
    if view == [] then m
    else
      var m' := Noted(m, view[0]);
      if |m'| >= n then m' else ScanFrom(m', view[1..], n)
  }

  function Scan(view: seq<Reading>, n: nat): IndexMap {
    ScanFrom([], view, n)
  }

  // ---- Reference definitions ----

  function Pubkeys(view: seq<Reading>): seq<string> {
    if view == [] then []
    else
      Pubkeys(view[..|view| - 1]) +
      match view[|view| - 1] { case None => [] case Some(leader) => [leader.pubkey] }
  }

  /** The elements of xs, each once, in order of first occurrence. */
  function Distinct(xs: seq<string>): seq<string> {
    if xs == [] then []
    else
      var front, last := Distinct(xs[..|xs| - 1]), xs[|xs| - 1];
      if last in front then front else front + [last]
  }

  predicate Repeatless(xs: seq<string>) {
    forall i, j :: 0 <= i < j < |xs| ==> xs[i] != xs[j]
  }

  function Prefix(xs: seq<string>, n: nat): seq<string> {
    if n <= |xs| then xs[..n] else xs
  }

  /** Noting every reading, without leaving early. */
  function NoteAll(view: seq<Reading>): IndexMap {
    if view == [] then [] else Noted(NoteAll(view[..|view| - 1]), view[|view| - 1])
  }

  /** How many readings the loop looks at. */
  function Scanned(view: seq<Reading>, n: nat, from: nat := 0): nat
    requires from <= |view|
    decreases |view| - from
  {
    if from == |view| || |NoteAll(view[..from])| >= n then from else Scanned(view, n, from + 1)
  }

  lemma {:induction false} UpsertMeaning(m: IndexMap, key: string, value: ContactInfo)
    ensures key in KeysOf(m) ==> KeysOf(Upsert(m, key, value)) == KeysOf(m)
    ensures key !in KeysOf(m) ==> Upsert(m, key, value) == m + [(key, value)]
  {
    if m != [] && m[0].0 == key {
      assert KeysOf(m)[0] == key && KeysOf(Upsert(m, key, value)) == KeysOf(m);
    } else if m != [] {
      var rest := Upsert(m[1..], key, value);
      UpsertMeaning(m[1..], key, value);
      assert KeysOf(m) == [m[0].0] + KeysOf(m[1..]);
      assert KeysOf([m[0]] + rest) == [m[0].0] + KeysOf(rest);
    }
  }

  lemma {:induction false} UpsertValues(m: IndexMap, key: string, value: ContactInfo)
    ensures forall i :: 0 <= i < |m| && m[i].0 != key ==> i < |Upsert(m, key, value)| && Upsert(m, key, value)[i] == m[i]
    ensures (key, value) in Upsert(m, key, value)
  {
    if m != [] && m[0].0 != key {
      UpsertValues(m[1..], key, value);
    }
  }

  /** Distinct has no repetitions and the same elements ... */
  lemma {:induction false} DistinctMeaning(xs: seq<string>)
    ensures Repeatless(Distinct(xs))
    ensures forall x :: x in Distinct(xs) <==> x in xs
  {
    if xs != [] {
      DistinctMeaning(xs[..|xs| - 1]);
      assert xs == xs[..|xs| - 1] + [xs[|xs| - 1]];
    }
  }

  /** ... and is ordered by first occurrence: wherever its i-th element occurs, all
      the elements before it have occurred already. */
  lemma {:induction false} DistinctOrder(xs: seq<string>, i: nat, j: nat, a: nat)
    requires j < i < |Distinct(xs)| && a < |xs| && xs[a] == Distinct(xs)[i]
    ensures Distinct(xs)[j] in xs[..a]
  {
    var front := xs[..|xs| - 1];
    DistinctMeaning(front);
    if a == |front| {
      assert xs[..a] == front;
      assert Distinct(front)[j] in front;
    } else {
      assert xs[a] == front[a] && front[a] in Distinct(front);
      assert xs[..a] == front[..a];
      DistinctMeaning(xs);
      DistinctOrder(front, i, j, a);
    }
  }

  lemma {:induction false} NoteAllKeys(view: seq<Reading>)
    ensures KeysOf(NoteAll(view)) == Distinct(Pubkeys(view))
  {
    if view != [] {
      var front, last := view[..|view| - 1], view[|view| - 1];
      NoteAllKeys(front);
      match last {
        case None =>
          assert Pubkeys(view) == Pubkeys(front);
        case Some(leader) =>
          UpsertMeaning(NoteAll(front), leader.pubkey, leader);
          assert Pubkeys(view)[..|Pubkeys(view)| - 1] == Pubkeys(front);
      }
    }
  }

  ghost predicate ReadsLeader(reading: Reading, pubkey: string) {
    reading.Some? && reading.value.pubkey == pubkey
  }

  ghost predicate LastReadingOf(view: seq<Reading>, leader: ContactInfo) {
    exists j :: 0 <= j < |view| && view[j] == Some(leader)
             && forall k :: j < k < |view| ==> !ReadsLeader(view[k], leader.pubkey)
  }

  /** Every collected value is the last reading of its key. */
  lemma {:induction false} NoteAllValues(view: seq<Reading>, i: nat)
    requires i < |NoteAll(view)|
    ensures NoteAll(view)[i].0 == NoteAll(view)[i].1.pubkey
    ensures LastReadingOf(view, NoteAll(view)[i].1)
    decreases |view|, 1
  {
    var front, last := view[..|view| - 1], view[|view| - 1];
    var m := NoteAll(front);
    if last.Some? {
      var leader := last.value;
      UpsertMeaning(m, leader.pubkey, leader);
      UpsertValues(m, leader.pubkey, leader);
      NoteAllKeys(front);
      NoteAllKeys(view);
      DistinctMeaning(Pubkeys(view));
      if KeysOf(NoteAll(view))[i] == leader.pubkey {
        var k :| 0 <= k < |NoteAll(view)| && NoteAll(view)[k] == (leader.pubkey, leader);
        assert KeysOf(NoteAll(view))[k] == leader.pubkey;
        assert k == i;
        assert view[|view| - 1] == Some(leader);
      } else {
        assert i < |m|;
        assert KeysOf(NoteAll(view))[i] == KeysOf(m)[i];
        KeptReading(view, i);
      }
    } else {
      KeptReading(view, i);
    }
  }

  lemma {:induction false} KeptReading(view: seq<Reading>, i: nat)
    requires view != [] && i < |NoteAll(view)| && i < |NoteAll(view[..|view| - 1])|
    requires NoteAll(view)[i] == NoteAll(view[..|view| - 1])[i]
    requires !ReadsLeader(view[|view| - 1], NoteAll(view)[i].0)
    ensures NoteAll(view)[i].0 == NoteAll(view)[i].1.pubkey
    ensures LastReadingOf(view, NoteAll(view)[i].1)
    decreases |view|, 0
  {
    var front := view[..|view| - 1];
    NoteAllValues(front, i);
    var leader := NoteAll(view)[i].1;
    var j :| 0 <= j < |front| && front[j] == Some(leader)
      && forall k :: j < k < |front| ==> !ReadsLeader(front[k], leader.pubkey);
    assert view[j] == Some(leader);
    forall k | j < k < |view| ensures !ReadsLeader(view[k], leader.pubkey) {
      if k < |front| {
        assert view[k] == front[k];
      }
    }
  }

  /** Leaving early is the same as noting the readings up to that point. */
  lemma {:induction false} ScanNotesPrefix(view: seq<Reading>, n: nat, i: nat)
    requires i <= |view|
    requires |NoteAll(view[..i])| < n || i == |view|
    ensures i <= Scanned(view, n, i) <= |view|
    ensures ScanFrom(NoteAll(view[..i]), view[i..], n) == NoteAll(view[..Scanned(view, n, i)])
    ensures Scanned(view, n, i) < |view| ==> |NoteAll(view[..Scanned(view, n, i)])| >= n
    ensures |NoteAll(view[..i])| <= n ==> |NoteAll(view[..Scanned(view, n, i)])| <= n
    decreases |view| - i
  {
    if i < |view| {
      assert view[..i + 1][..i] == view[..i];
      assert view[i..][1..] == view[i + 1..];
      if view[i].Some? {
        UpsertMeaning(NoteAll(view[..i]), view[i].value.pubkey, view[i].value);
        assert |KeysOf(NoteAll(view[..i + 1]))| <= |NoteAll(view[..i])| + 1;
      }
      if |NoteAll(view[..i + 1])| >= n {
        assert Scanned(view, n, i) == Scanned(view, n, i + 1) == i + 1;
      } else {
        ScanNotesPrefix(view, n, i + 1);
      }
    }
  }

  lemma {:induction false} LongerViewExtends(view: seq<Reading>, k: nat)
    requires k <= |view|
    ensures Distinct(Pubkeys(view[..k])) <= Distinct(Pubkeys(view))
  {
    if k == |view| {
      assert view[..k] == view;
    } else {
      var front, last := view[..|view| - 1], view[|view| - 1];
      assert view[..k] == front[..k];
      LongerViewExtends(front, k);
      if last.Some? {
        assert Pubkeys(view)[..|Pubkeys(view)| - 1] == Pubkeys(front);
      } else {
        assert Pubkeys(view) == Pubkeys(front);
      }
    }
  }

  /** The scan's keys are the first n distinct leaders of the whole window: leaving
      early never changes the list, and there are never more than n. Each value is
      the contact read last among the readings actually looked at. */
  lemma {:induction false} ScanRefines(view: seq<Reading>, n: nat)
    requires |view| <= 4 * n
    ensures KeysOf(Scan(view, n)) == Prefix(Distinct(Pubkeys(view)), n)
    ensures |Scan(view, n)| <= n
    ensures 0 <= Scanned(view, n) <= |view|
    ensures forall i :: 0 <= i < |Scan(view, n)| ==>
              Scan(view, n)[i].0 == Scan(view, n)[i].1.pubkey
              && LastReadingOf(view[..Scanned(view, n)], Scan(view, n)[i].1)
  {
    assert view[..0] == [] && view[0..] == view;
    ScanNotesPrefix(view, n, 0);
    var k := Scanned(view, n);
    NoteAllKeys(view[..k]);
    LongerViewExtends(view, k);
    assert k == |view| ==> view[..k] == view;
    forall i | 0 <= i < |Scan(view, n)|
      ensures Scan(view, n)[i].0 == Scan(view, n)[i].1.pubkey && LastReadingOf(view[..k], Scan(view, n)[i].1)
    {
      NoteAllValues(view[..k], i);
    }
  }

  // ---- Window coverage ----

  function Groups(leaderOf: nat -> string, first: nat, count: nat): seq<string> {
    seq(count, i requires 0 <= i < count => leaderOf(first + i))
  }

  ghost predicate ReadsSchedule(view: seq<Reading>, start: nat, leaderOf: nat -> string) {
    forall j :: 0 <= j < |view| ==> ReadsLeader(view[j], leaderOf((start + j) / 4))
  }

  lemma {:induction false} DistinctAppend(xs: seq<string>, x: string)
    ensures Distinct(xs + [x]) == if x in Distinct(xs) then Distinct(xs) else Distinct(xs) + [x]
  {
    assert (xs + [x])[..|xs|] == xs;
  }

  /** Reading one more slot adds its group's leader exactly when the group is new. */
  lemma {:induction false} AppendGroup(xs: seq<string>, leaderOf: nat -> string, first: nat, before: nat, group: nat, n: nat)
    requires first <= before <= group <= before + 1 && group < first + n
    requires Repeatless(Groups(leaderOf, first, n))
    requires Distinct(xs) == Groups(leaderOf, first, before - first + 1)
    ensures Distinct(xs + [leaderOf(group)]) == Groups(leaderOf, first, group - first + 1)
  {
    var all, seen := Groups(leaderOf, first, n), Groups(leaderOf, first, before - first + 1);
    DistinctAppend(xs, leaderOf(group));
    assert seen == all[..before - first + 1] && all[group - first] == leaderOf(group);
    if group == before {
      assert seen[group - first] == leaderOf(group);
    }
  }

  lemma {:induction false} CoverageByGroups(view: seq<Reading>, start: nat, n: nat, leaderOf: nat -> string)
    requires ReadsSchedule(view, start, leaderOf) && view != []
    requires (start + |view| - 1) / 4 < start / 4 + n
    requires Repeatless(Groups(leaderOf, start / 4, n))
    ensures Distinct(Pubkeys(view)) == Groups(leaderOf, start / 4, (start + |view| - 1) / 4 - start / 4 + 1)
  {
    var front := view[..|view| - 1];
    var group := (start + |view| - 1) / 4;
    LastPubkey(view, leaderOf(group));
    if front == [] {
      DistinctAppend([], leaderOf(group));
    } else {
      var before := (start + |front| - 1) / 4;
      assert start / 4 <= before <= group <= before + 1;
      CoverageByGroups(front, start, n, leaderOf);
      AppendGroup(Pubkeys(front), leaderOf, start / 4, before, group, n);
    }
  }

  lemma LastPubkey(view: seq<Reading>, pubkey: string)
    requires view != [] && ReadsLeader(view[|view| - 1], pubkey)
    ensures Pubkeys(view) == Pubkeys(view[..|view| - 1]) + [pubkey]
  {
  }

  /** For any start slot, aligned or not: if the window is fully cached, leaders hold
      aligned groups of four slots, and the n groups from start / 4 on have different
      leaders, the scan returns exactly those n leaders in group order. */
  lemma {:induction false} WindowCoversGroups(view: seq<Reading>, start: nat, n: nat, leaderOf: nat -> string)
    requires |view| == 4 * n && ReadsSchedule(view, start, leaderOf)
    requires Repeatless(Groups(leaderOf, start / 4, n))
    ensures KeysOf(Scan(view, n)) == Groups(leaderOf, start / 4, n)
  {
    ScanRefines(view, n);
    if n > 0 {
      var k := 4 * n - start % 4;
      CoverageByGroups(view[..k], start, n, leaderOf);
      LongerViewExtends(view, k);
    }
  }
}

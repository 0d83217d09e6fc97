// What one turn of the retry loop does to the queue, on values: which entries the
// load shedder drops, and what a push-and-count pass leaves behind
// (src/infrastructure/txn_sender.rs, retry_transactions).
module RetryQueue {
  import opened Sums
  import opened Wrappers
  import opened Transactions
  import opened TransactionStores

  datatype Row = Row(signature: string, data: TransactionData)

  // ---- Load shedding ----

  predicate SortedRows(rows: seq<Row>) {
    forall i, j :: 0 <= i < j < |rows| ==> rows[i].data.retryCount <= rows[j].data.retryCount
  }

  predicate DistinctRows(rows: seq<Row>) {
    forall i, j :: 0 <= i < j < |rows| ==> rows[i].signature != rows[j].signature
  }

  /** Places a row behind every row that was retried no more often. */
  function InsertRow(rows: seq<Row>, row: Row): seq<Row> {
    if rows == [] then [row]
    else
      var front, last := rows[..|rows| - 1], rows[|rows| - 1];
      if last.data.retryCount <= row.data.retryCount then rows + [row]
      else InsertRow(front, row) + [last]
  }

  /** The stable sort by retry count. */
  function SortRows(rows: seq<Row>): seq<Row> {
    if rows == [] then [] else InsertRow(SortRows(rows[..|rows| - 1]), rows[|rows| - 1])
  }

  function RetriedExactly(rows: seq<Row>, count: nat): seq<Row> {
    if rows == [] then []
    else
      var last := rows[|rows| - 1];
      RetriedExactly(rows[..|rows| - 1], count) + if last.data.retryCount == count then [last] else []
  }

  lemma {:induction false} RetriedExactlyAppend(rows: seq<Row>, row: Row, count: nat)
    ensures RetriedExactly(rows + [row], count)
         == RetriedExactly(rows, count) + if row.data.retryCount == count then [row] else []
  {
    assert (rows + [row])[..|rows|] == rows;
  }

  lemma {:induction false} InsertRowPermutes(rows: seq<Row>, row: Row)
    ensures multiset(InsertRow(rows, row)) == multiset(rows) + multiset{row}
    ensures forall r :: r in InsertRow(rows, row) <==> r in rows || r == row
  {
    if rows != [] {
      var front, last := rows[..|rows| - 1], rows[|rows| - 1];
      assert rows == front + [last];
      InsertRowPermutes(front, row);
    }
  }

  lemma {:induction false} InsertRowSorts(rows: seq<Row>, row: Row)
    requires SortedRows(rows)
    ensures SortedRows(InsertRow(rows, row))
  {
    if rows != [] {
      var front, last := rows[..|rows| - 1], rows[|rows| - 1];
      if row.data.retryCount < last.data.retryCount {
        InsertRowSorts(front, row);
        InsertRowPermutes(front, row);
        assert forall r :: r in front ==> r.data.retryCount <= last.data.retryCount;
      }
    }
  }

  lemma {:induction false} InsertRowStable(rows: seq<Row>, row: Row, count: nat)
    ensures RetriedExactly(InsertRow(rows, row), count)
         == RetriedExactly(rows, count) + if row.data.retryCount == count then [row] else []
  {
    if rows != [] {
      var front, last := rows[..|rows| - 1], rows[|rows| - 1];
      if row.data.retryCount < last.data.retryCount {
        InsertRowStable(front, row, count);
        RetriedExactlyAppend(InsertRow(front, row), last, count);
      } else {
        RetriedExactlyAppend(rows, row, count);
      }
    }
  }

  /** Sorting yields a sorted permutation that keeps equally retried rows in their
      original order. */
  lemma {:induction false} SortRowsCorrect(rows: seq<Row>, count: nat)
    ensures SortedRows(SortRows(rows))
    ensures multiset(SortRows(rows)) == multiset(rows)
    ensures RetriedExactly(SortRows(rows), count) == RetriedExactly(rows, count)
  {
    if rows != [] {
      var front, last := rows[..|rows| - 1], rows[|rows| - 1];
      assert rows == front + [last];
      SortRowsCorrect(front, count);
      InsertRowSorts(SortRows(front), last);
      InsertRowPermutes(SortRows(front), last);
      InsertRowStable(SortRows(front), last, count);
    }
  }

  lemma {:induction false} InsertRowDistinct(rows: seq<Row>, row: Row)
    requires SortedRows(rows) && DistinctRows(rows)
    requires forall r :: r in rows ==> r.signature != row.signature
    ensures DistinctRows(InsertRow(rows, row))
  {
    if rows != [] {
      var front, last := rows[..|rows| - 1], rows[|rows| - 1];
      if row.data.retryCount < last.data.retryCount {
        InsertRowDistinct(front, row);
        InsertRowPermutes(front, row);
        forall r | r in front ensures r.signature != last.signature {
          var i :| 0 <= i < |front| && front[i] == r;
          assert rows[i] == r;
        }
      }
    }
  }

  lemma {:induction false} SortRowsDistinct(rows: seq<Row>)
    requires DistinctRows(rows)
    ensures DistinctRows(SortRows(rows))
  {
    if rows != [] {
      var front, last := rows[..|rows| - 1], rows[|rows| - 1];
      SortRowsDistinct(front);
      SortRowsCorrect(front, 0);
      forall r | r in SortRows(front) ensures r.signature != last.signature {
        assert r in multiset(SortRows(front));
      }
      InsertRowDistinct(SortRows(front), last);
    }
  }

  /** The tail slice that is shed: it starts one past the limit, and a snapshot
      shorter than that makes the slice expression panic. */
  function Victims(snapshot: seq<Row>, maxSize: nat): Option<seq<Row>> {
    if |snapshot| < maxSize + 1 then None else Some(SortRows(snapshot)[Clipped(snapshot, maxSize)..])
  }

  function Clipped(snapshot: seq<Row>, maxSize: nat): (n: nat)
    requires |snapshot| >= maxSize + 1
    ensures n == maxSize + 1 <= |SortRows(snapshot)|
  {
    SortRowsCorrect(snapshot, 0);
    assert |multiset(SortRows(snapshot))| == |multiset(snapshot)|;
    maxSize + 1
  }

  function SignaturesOf(rows: seq<Row>): (s: seq<string>)
    ensures |s| == |rows|
    ensures forall i :: 0 <= i < |s| ==> s[i] == rows[i].signature
  {
    seq(|rows|, i requires 0 <= i < |rows| => rows[i].signature)
  }

  ghost predicate IsSnapshot(rows: seq<Row>, m: Contents) {
    && DistinctRows(rows)
    && (forall r :: r in rows ==> r.signature in m && r.data == m[r.signature])
    && (forall s :: s in m ==> Row(s, m[s]) in rows)
  }

  /** `kept` is what shedding may leave of `m`: everything while the queue is within
      its limit, otherwise exactly maxSize + 1 untouched entries, none retried more
      often than a dropped one. */
  ghost predicate ShedTo(m: Contents, maxSize: Option<nat>, kept: Contents) {
    if maxSize == None || |m| <= maxSize.value then kept == m
    else
      && |kept| == maxSize.value + 1
      && (forall s :: s in kept ==> s in m && kept[s] == m[s])
      && (forall s, t :: s in kept && t in m && t !in kept ==> m[s].retryCount <= m[t].retryCount)
  }

  lemma {:induction false} SortedSnapshot(rows: seq<Row>, m: Contents)
    requires IsSnapshot(rows, m)
    ensures IsSnapshot(SortRows(rows), m) && SortedRows(SortRows(rows)) && |SortRows(rows)| == |rows|
  {
    SortRowsCorrect(rows, 0);
    SortRowsDistinct(rows);
    assert |multiset(SortRows(rows))| == |multiset(rows)|;
    forall r ensures r in SortRows(rows) <==> r in rows {
      assert r in multiset(SortRows(rows)) <==> r in multiset(rows);
    }
  }

  lemma {:induction false} SnapshotOrder(rows: seq<Row>, m: Contents)
    requires IsSnapshot(rows, m)
    ensures IsOrderOf(SignaturesOf(rows), m.Keys)
  {
    var order := SignaturesOf(rows);
    forall s | s in m ensures s in order {
      var i :| 0 <= i < |rows| && rows[i] == Row(s, m[s]);
      assert order[i] == s;
    }
    forall s | s in order ensures s in m {
      var i :| 0 <= i < |order| && order[i] == s;
      assert rows[i] in rows;
    }
  }

  lemma {:induction false} SnapshotSize(rows: seq<Row>, m: Contents)
    requires IsSnapshot(rows, m)
    ensures |rows| == |m|
  {
    SnapshotOrder(rows, m);
    DistinctSize(SignaturesOf(rows));
    assert Elements(SignaturesOf(rows)) == m.Keys;
    assert |m.Keys| == |m|;
  }

  /** Dropping the tail of an ordering of a set leaves the head. */
  lemma {:induction false} CutOrder(order: seq<string>, keys: set<string>, n: nat)
    requires IsOrderOf(order, keys) && n <= |order|
    ensures keys - Elements(order[n..]) == Elements(order[..n])
    ensures |Elements(order[..n])| == n
  {
    assert order == order[..n] + order[n..];
    DistinctSize(order[..n]);
  }

  lemma {:induction false} CutKeys(order: seq<string>, m: Contents, n: nat)
    requires IsOrderOf(order, m.Keys) && n <= |order|
    ensures var kept := m - Elements(order[n..]);
      |kept| == n && kept.Keys == Elements(order[..n])
  {
    CutOrder(order, m.Keys, n);
    var kept := m - Elements(order[n..]);
    assert kept.Keys == m.Keys - Elements(order[n..]);
    assert |kept.Keys| == |kept|;
  }

  lemma SignaturesOfTail(rows: seq<Row>, n: nat)
    requires n <= |rows|
    ensures SignaturesOf(rows[n..]) == SignaturesOf(rows)[n..]
  {
  }

  lemma {:induction false} CutSnapshot(rows: seq<Row>, m: Contents, n: nat, kept: Contents)
    requires IsSnapshot(rows, m) && n <= |rows|
    requires kept == m - Elements(SignaturesOf(rows[n..]))
    ensures |kept| == n && kept.Keys == Elements(SignaturesOf(rows)[..n])
  {
    SnapshotOrder(rows, m);
    SignaturesOfTail(rows, n);
    CutKeys(SignaturesOf(rows), m, n);
  }

  /** Cutting the tail off a sorted snapshot leaves the n least retried entries. */
  lemma {:induction false} CutSorted(rows: seq<Row>, m: Contents, n: nat, kept: Contents)
    requires IsSnapshot(rows, m) && SortedRows(rows) && n <= |rows|
    requires kept == m - Elements(SignaturesOf(rows[n..]))
    ensures |kept| == n
    ensures forall s, t :: s in kept && t in m && t !in kept ==> m[s].retryCount <= m[t].retryCount
  {
    CutSnapshot(rows, m, n, kept);
    forall s, t | s in kept && t in m && t !in kept ensures m[s].retryCount <= m[t].retryCount {
      assert s in kept.Keys && t !in kept.Keys;
      KeptBeforeDropped(rows, m, n, s, t);
    }
  }

  /** Removing the victims of any snapshot order sheds as promised; one entry fewer
      goes than the dropped-records gauge reports. */
  lemma {:induction false} VictimsShed(rows: seq<Row>, m: Contents, maxSize: nat, victims: seq<Row>)
    requires IsSnapshot(rows, m) && |m| > maxSize
    requires Victims(rows, maxSize) == Some(victims)
    ensures ShedTo(m, Some(maxSize), m - Elements(SignaturesOf(victims)))
    ensures |m| - |m - Elements(SignaturesOf(victims))| == (|m| - maxSize) - 1
  {
    SortedSnapshot(rows, m);
    CutSorted(SortRows(rows), m, maxSize + 1, m - Elements(SignaturesOf(victims)));
  }

  lemma {:induction false} KeptBeforeDropped(rows: seq<Row>, m: Contents, n: nat, s: string, t: string)
    requires IsSnapshot(rows, m) && SortedRows(rows) && n <= |rows|
    requires s in SignaturesOf(rows)[..n] && t in m && t !in SignaturesOf(rows)[..n]
    ensures s in m && m[s].retryCount <= m[t].retryCount
  {
    var i :| 0 <= i < n && SignaturesOf(rows)[i] == s;
    var j :| 0 <= j < |rows| && rows[j] == Row(t, m[t]);
    assert SignaturesOf(rows)[j] == t && rows[i] in rows;
    assert n <= j;
  }

  // ---- Where a row ends up ----

  lemma {:induction false} ExactlyAt(rows: seq<Row>, p: nat, count: nat)
    requires p < |rows| && rows[p].data.retryCount == count
    ensures |RetriedExactly(rows[..p], count)| < |RetriedExactly(rows, count)|
    ensures RetriedExactly(rows, count)[|RetriedExactly(rows[..p], count)|] == rows[p]
  {
    var front := rows[..|rows| - 1];
    if p < |front| {
      assert front[..p] == rows[..p];
      ExactlyAt(front, p, count);
    }
  }

  lemma {:induction false} ExactlyMeaning(rows: seq<Row>, count: nat)
    ensures forall r :: r in RetriedExactly(rows, count) ==> r.data.retryCount == count
  {
    if rows != [] {
      ExactlyMeaning(rows[..|rows| - 1], count);
    }
  }

  /** In a sorted sequence the rows never retried come first. */
  lemma {:induction false} FreshFirst(rows: seq<Row>)
    requires SortedRows(rows)
    ensures RetriedExactly(rows, 0) <= rows
  {
    if rows != [] {
      FreshFirst(rows[..|rows| - 1]);
      if rows[|rows| - 1].data.retryCount == 0 {
        AllFresh(rows);
      }
    }
  }

  lemma {:induction false} AllFresh(rows: seq<Row>)
    requires forall i :: 0 <= i < |rows| ==> rows[i].data.retryCount == 0
    ensures RetriedExactly(rows, 0) == rows
  {
    if rows != [] {
      AllFresh(rows[..|rows| - 1]);
    }
  }

  /** Rows never retried that precede row p. */
  function FreshBefore(rows: seq<Row>, p: nat): nat
    requires p <= |rows|
  {
    |RetriedExactly(rows[..p], 0)|
  }

  /** Where the stable sort puts a row never retried. */
  lemma {:induction false} FreshRowPlace(rows: seq<Row>, p: nat)
    requires p < |rows| && rows[p].data.retryCount == 0
    ensures FreshBefore(rows, p) < |SortRows(rows)| && SortRows(rows)[FreshBefore(rows, p)] == rows[p]
  {
    SortRowsCorrect(rows, 0);
    FreshFirst(SortRows(rows));
    ExactlyAt(rows, p, 0);
  }

  lemma {:induction false} InTail(rows: seq<Row>, n: nat, at: nat)
    requires DistinctRows(rows) && n <= |rows| && at < |rows|
    ensures rows[at].signature in SignaturesOf(rows[n..]) <==> at >= n
  {
    if at >= n {
      assert SignaturesOf(rows[n..])[at - n] == rows[at].signature;
    }
    if rows[at].signature in SignaturesOf(rows[n..]) {
      var j :| 0 <= j < |rows[n..]| && SignaturesOf(rows[n..])[j] == rows[at].signature;
      assert rows[j + n].signature == rows[at].signature;
    }
  }

  /** A row never retried is shed iff more than maxSize such rows precede it, whatever
      else the snapshot holds ... */
  lemma {:induction false} FreshRowShed(rows: seq<Row>, maxSize: nat, victims: seq<Row>, p: nat)
    requires DistinctRows(rows) && Victims(rows, maxSize) == Some(victims)
    requires p < |rows| && rows[p].data.retryCount == 0
    ensures rows[p].signature in SignaturesOf(victims) <==> FreshBefore(rows, p) > maxSize
  {
    SortRowsDistinct(rows);
    FreshRowPlace(rows, p);
    InTail(SortRows(rows), maxSize + 1, FreshBefore(rows, p));
  }

  lemma {:induction false} RetriedRowPlace(rows: seq<Row>, p: nat) returns (at: nat)
    requires p < |rows| && rows[p].data.retryCount > 0
    ensures |RetriedExactly(rows, 0)| <= at < |SortRows(rows)| && SortRows(rows)[at] == rows[p]
  {
    var sorted, first := SortRows(rows), RetriedExactly(rows, 0);
    SortRowsCorrect(rows, 0);
    FreshFirst(sorted);
    ExactlyMeaning(rows, 0);
    assert rows[p] in multiset(sorted);
    at :| 0 <= at < |sorted| && sorted[at] == rows[p];
    forall i | 0 <= i < |first| ensures sorted[i].data.retryCount == 0 {
      assert first[i] in first;
    }
  }

  /** ... and a retried row is shed if more than maxSize rows of the snapshot were never
      retried. */
  lemma {:induction false} RetriedRowShed(rows: seq<Row>, maxSize: nat, victims: seq<Row>, p: nat)
    requires DistinctRows(rows) && Victims(rows, maxSize) == Some(victims)
    requires p < |rows| && rows[p].data.retryCount > 0 && |RetriedExactly(rows, 0)| > maxSize
    ensures rows[p].signature in SignaturesOf(victims)
  {
    SortRowsDistinct(rows);
    var at := RetriedRowPlace(rows, p);
    InTail(SortRows(rows), maxSize + 1, at);
  }

  lemma {:induction false} VictimsAreRows(rows: seq<Row>, maxSize: nat, victims: seq<Row>, key: string) returns (p: nat)
    requires Victims(rows, maxSize) == Some(victims) && key in SignaturesOf(victims)
    ensures p < |rows| && rows[p].signature == key
  {
    var j :| 0 <= j < |victims| && SignaturesOf(victims)[j] == key;
    SortRowsCorrect(rows, 0);
    assert victims[j] in multiset(SortRows(rows));
    p :| 0 <= p < |rows| && rows[p] == victims[j];
  }

  ghost function RetriesIn(m: Contents): string -> nat {
    s => if s in m then m[s].retryCount else 0
  }

  /** Among all subsets of the queue of its size, the kept one carries the least
      total retry count. */
  lemma {:induction false} ShedKeepsLeastRetried(m: Contents, maxSize: Option<nat>, kept: Contents, other: set<string>)
    requires ShedTo(m, maxSize, kept)
    requires other <= m.Keys && |other| == |kept|
    ensures SetSum(kept.Keys, RetriesIn(m)) <= SetSum(other, RetriesIn(m))
  {
    assert |kept.Keys| == |kept|;
    if maxSize == None || |m| <= maxSize.value {
      assert |m.Keys| == |m|;
      SubsetSize(other, m.Keys);
    } else {
      LightestSet(kept.Keys, other, RetriesIn(m));
    }
  }

  /** The queue meets its configured limit after shedding exactly when it met it
      before: an oversized queue always keeps one entry too many. */
  lemma ShedMissesLimitByOne(m: Contents, maxSize: nat, kept: Contents)
    requires ShedTo(m, Some(maxSize), kept)
    ensures |kept| <= maxSize <==> |m| <= maxSize
    ensures |kept| <= maxSize + 1
  {
  }

  /** A queue at most one over its limit is left alone. */
  lemma {:induction false} ShedNothing(m: Contents, maxSize: Option<nat>, kept: Contents)
    requires ShedTo(m, maxSize, kept) && (maxSize.Some? ==> |m| <= maxSize.value + 1)
    ensures kept == m
  {
    if maxSize.Some? && |m| == maxSize.value + 1 {
      assert |kept.Keys| == |kept| && |m.Keys| == |m|;
      SubsetSize(kept.Keys, m.Keys);
    }
  }

  // ---- Push-and-count passes ----

  /** Attempts one send task makes at most. */
  const SEND_TXN_RETRIES: nat := 10

  predicate Exhausted(d: TransactionData) {
    d.retryCount >= d.maxRetries
  }

  function Bumped(d: TransactionData): TransactionData {
    d.(retryCount := d.retryCount + 1)
  }

  /** Pushes the loop still owes this entry if nothing removes it first. */
  function Owed(d: TransactionData): nat {
    if d.retryCount < d.maxRetries then d.maxRetries - d.retryCount + 1 else 1
  }

  /** One undisturbed pass: everything is pushed, exhausted entries then leave and
      the others are counted up. */
  function AfterPass(m: Contents): Contents {
    map s | s in m && !Exhausted(m[s]) :: Bumped(m[s])
  }

  /** The wire bytes a pass pushes when it visits the entries in this order. */
  function WiresOf(m: Contents, order: seq<string>): seq<seq<bv8>>
    requires forall s :: s in order ==> s in m
  {
    seq(|order|, i requires 0 <= i < |order| => assert order[i] in order; m[order[i]].wire)
  }

  lemma WiresOneMore(m: Contents, order: seq<string>, key: string)
    requires (forall s :: s in order ==> s in m) && key in m
    ensures WiresOf(m, order + [key]) == WiresOf(m, order) + [m[key].wire]
  {
  }

  lemma OrderOneMore(order: seq<string>, keys: set<string>, key: string)
    requires IsOrderOf(order, keys) && key !in keys
    ensures IsOrderOf(order + [key], keys + {key})
  {
  }

  /** The map after the entries in `done` have been visited. */
  function CountedUp(m: Contents, done: set<string>): Contents {
    map s | s in m :: if s in done && !Exhausted(m[s]) then Bumped(m[s]) else m[s]
  }

  lemma CountOneMore(m: Contents, done: set<string>, key: string)
    requires key in m && key !in done
    ensures CountedUp(m, done)[key] == m[key]
    ensures CountedUp(m, done + {key})
         == if Exhausted(m[key]) then CountedUp(m, done) else CountedUp(m, done)[key := Bumped(m[key])]
  {
  }

  lemma CountedUpKeyed(m: Contents, done: set<string>)
    requires KeyedBySignature(m)
    ensures KeyedBySignature(CountedUp(m, done))
  {
  }

  lemma CountedUpIsPass(m: Contents, reached: set<string>)
    requires forall s :: s in reached <==> s in m && Exhausted(m[s])
    ensures CountedUp(m, m.Keys) - reached == AfterPass(m)
  {
  }

  function AfterPasses(m: Contents, k: nat): Contents {
    if k == 0 then m else AfterPass(AfterPasses(m, k - 1))
  }

  function PushesIn(m: Contents, s: string, k: nat): nat {
    if k == 0 then 0 else PushesIn(m, s, k - 1) + if s in AfterPasses(m, k - 1) then 1 else 0
  }

  /** After k undisturbed passes an entry is left iff its count plus k is within its
      maximum, with its count up by k, and it was pushed min(k, owed) times. */
  lemma {:induction false} PassesClosedForm(m: Contents, s: string, k: nat)
    ensures s in AfterPasses(m, k) <==> s in m && (k == 0 || m[s].retryCount + k <= m[s].maxRetries)
    ensures s in AfterPasses(m, k) ==> AfterPasses(m, k)[s] == m[s].(retryCount := m[s].retryCount + k)
    ensures s in m ==> PushesIn(m, s, k) == Min(k, Owed(m[s]))
    ensures s !in m ==> PushesIn(m, s, k) == 0
  {
    if k > 0 {
      PassesClosedForm(m, s, k - 1);
    }
  }

  /** The queue runs empty after exactly as many passes as its neediest entry is owed. */
  lemma {:induction false} QueueDrains(m: Contents, k: nat)
    ensures AfterPasses(m, k) == map[] <==> forall s :: s in m ==> Owed(m[s]) <= k
  {
    forall s ensures s in AfterPasses(m, k) <==> s in m && k < Owed(m[s]) {
      PassesClosedForm(m, s, k);
    }
    if AfterPasses(m, k) == map[] {
      forall s | s in m ensures Owed(m[s]) <= k {
        assert s !in AfterPasses(m, k);
      }
    }
    if forall s :: s in m ==> Owed(m[s]) <= k {
      assert AfterPasses(m, k).Keys == {};
    }
  }

  /** Passes add no entries. */
  lemma {:induction false} PassesShrink(m: Contents, k: nat)
    ensures AfterPasses(m, k).Keys <= m.Keys && |AfterPasses(m, k)| <= |m|
  {
    forall s | s in AfterPasses(m, k) ensures s in m {
      PassesClosedForm(m, s, k);
    }
    assert |AfterPasses(m, k).Keys| == |AfterPasses(m, k)| && |m.Keys| == |m|;
    SubsetSize(AfterPasses(m, k).Keys, m.Keys);
  }

  /** A pass spends exactly one owed push per queued entry. */
  lemma {:induction false} PassSpendsOnePushEach(m: Contents)
    ensures MapSum(AfterPass(m), Owed) + |m| == MapSum(m, Owed)
    decreases |m|
  {
    if m != map[] {
      var s := Pick(m.Keys);
      PassSpendsOnePushEach(m - {s});
      assert (m - {s}).Keys == m.Keys - {s};
      MapSumRemove(m, s, Owed);
      assert AfterPass(m) - {s} == AfterPass(m - {s});
      if s in AfterPass(m) {
        MapSumRemove(AfterPass(m), s, Owed);
      } else {
        assert AfterPass(m) == AfterPass(m) - {s};
      }
    }
  }
}

// The metric tag of a counter: the pair of neighbouring bins it falls between
// (src/infrastructure/txn_sender.rs, bin_counter_to_tag).
module MetricBins {
  import opened Wrappers

  function Digits(n: nat): string {
    if n < 10 then ["0123456789"[n]] else Digits(n / 10) + ["0123456789"[n % 10]]
  }

  function Decimal(n: int): string {
    if n < 0 then "-" + Digits(-n) else Digits(n)
  }

  function DigitValue(c: char): int {
    c as int - '0' as int
  }

  function NumberOf(s: string): int {
    if s == [] then 0 else 10 * NumberOf(s[..|s| - 1]) + DigitValue(s[|s| - 1])
  }

  predicate AllDigits(s: string) {
    s != [] && forall i :: 0 <= i < |s| ==> '0' <= s[i] <= '9'
  }

  lemma {:induction false} DigitsReadBack(n: nat)
    ensures AllDigits(Digits(n)) && NumberOf(Digits(n)) == n
  {
    if n >= 10 {
      DigitsReadBack(n / 10);
      assert Digits(n)[..|Digits(n)| - 1] == Digits(n / 10);
    }
  }

  /** A bin edge: below all, a bin, or above all. */
  datatype Edge = Below | Bin(value: int) | Above

  function EdgeText(e: Edge): string {
    match e
    case Below => "-inf"
    case Bin(v) => Decimal(v)
    case Above => "inf"
  }

  function TagText(lo: Edge, hi: Edge): string {
    EdgeText(lo) + "_" + EdgeText(hi)
  }

  function EdgeNamed(text: string): Edge {
    if text == "-inf" then Below
    else if text == "inf" then Above
    else if text != [] && text[0] == '-' then Bin(-NumberOf(text[1..]))
    else Bin(NumberOf(text))
  }

  lemma {:induction false} EdgeTextReadsBack(e: Edge)
    ensures EdgeNamed(EdgeText(e)) == e
  {
    if e.Bin? {
      var size := if e.value < 0 then -e.value else e.value;
      DigitsReadBack(size);
      if e.value < 0 {
        assert EdgeText(e)[1..] == Digits(size);
        assert EdgeText(e)[1] != "-inf"[1];
      } else {
        assert EdgeText(e)[0] != "inf"[0] && EdgeText(e)[0] != "-inf"[0];
      }
    }
  }

  lemma {:induction false} EdgeTextHasNoBar(e: Edge)
    ensures '_' !in EdgeText(e)
  {
    if e.Bin? {
      DigitsReadBack(if e.value < 0 then -e.value else e.value);
    }
  }

  lemma {:induction false} BarSplits(a: string, b: string, c: string, d: string)
    requires '_' !in a && '_' !in c && a + "_" + b == c + "_" + d
    ensures a == c && b == d
  {
    var whole := a + "_" + b;
    assert whole == c + "_" + d;
    assert whole[|a|] == '_' && whole[|c|] == '_';
    assert forall k :: 0 <= k < |a| ==> whole[k] == a[k];
    assert forall k :: 0 <= k < |c| ==> whole[k] == c[k];
    assert |a| == |c|;
    assert a == whole[..|a|] == c;
    assert b == whole[|a| + 1..] == d;
  }

  /** The text names the pair of edges unambiguously. */
  lemma {:induction false} TagTextTellsBins(lo: Edge, hi: Edge, lo': Edge, hi': Edge)
    requires TagText(lo, hi) == TagText(lo', hi')
    ensures lo == lo' && hi == hi'
  {
    EdgeTextHasNoBar(lo);
    EdgeTextHasNoBar(lo');
    BarSplits(EdgeText(lo), EdgeText(hi), EdgeText(lo'), EdgeText(hi'));
    EdgeTextReadsBack(lo);
    EdgeTextReadsBack(lo');
    EdgeTextReadsBack(hi);
    EdgeTextReadsBack(hi');
  }

  /** The lower edge is what stands before the first bar, the upper edge what follows. */
  lemma {:induction false} TagReadsBack(lo: Edge, hi: Edge) returns (bar: nat)
    ensures bar < |TagText(lo, hi)| && TagText(lo, hi)[bar] == '_' && '_' !in TagText(lo, hi)[..bar]
    ensures EdgeNamed(TagText(lo, hi)[..bar]) == lo && EdgeNamed(TagText(lo, hi)[bar + 1..]) == hi
  {
    bar := |EdgeText(lo)|;
    EdgeTextHasNoBar(lo);
    EdgeTextReadsBack(lo);
    EdgeTextReadsBack(hi);
    assert TagText(lo, hi)[..bar] == EdgeText(lo) && TagText(lo, hi)[bar + 1..] == EdgeText(hi);
  }

  ghost predicate Increasing(bins: seq<int>) {
    forall i, j :: 0 <= i < j < |bins| ==> bins[i] < bins[j]
  }

  /** The i-th cell of the partition: from edge i - 1 up to edge i. */
  function LowerEdge(bins: seq<int>, i: nat): Edge
    requires i <= |bins|
  {
    if i == 0 then Below else Bin(bins[i - 1])
  }

  function UpperEdge(bins: seq<int>, i: nat): Edge
    requires i <= |bins|
  {
    if i == |bins| then Above else Bin(bins[i])
  }

  predicate InCell(bins: seq<int>, i: nat, counter: int)
    requires i <= |bins|
  {
    (i == 0 || bins[i - 1] <= counter) && (i == |bins| || counter < bins[i])
  }

  /** Walks the bins from the top, as the source does. For increasing bins the tag
      names the neighbours around the counter. */
  method BinCounterToTag(counter: Option<int>, bins: seq<int>) returns (tag: string)
    requires Increasing(bins)
    ensures counter == None ==> tag == "none"
    ensures counter.Some? ==>
      exists i :: 0 <= i <= |bins| && InCell(bins, i, counter.value)
               && tag == TagText(LowerEdge(bins, i), UpperEdge(bins, i))
  {
    if counter == None {
      return "none";
    }
    var binStart, binEnd := "-inf", "inf";
    var i := |bins|;
    while i > 0
      invariant 0 <= i <= |bins|
      invariant i < |bins| ==> counter.value < bins[i]
      invariant binStart == EdgeText(Below) && binEnd == EdgeText(UpperEdge(bins, i))
    {
      if counter.value >= bins[i - 1] {
        binStart := Decimal(bins[i - 1]);
        break;
      }
      binEnd := Decimal(bins[i - 1]);
      i := i - 1;
    }
    tag := binStart + "_" + binEnd;
    assert InCell(bins, i, counter.value) && tag == TagText(LowerEdge(bins, i), UpperEdge(bins, i));
  }

  lemma {:induction false} SameCell(bins: seq<int>, x: int, y: int, i: nat, j: nat)
    requires Increasing(bins) && i <= |bins| && j <= |bins|
    requires InCell(bins, i, x) && InCell(bins, j, y)
    ensures i == j <==> forall k :: 0 <= k < |bins| ==> (bins[k] <= x <==> bins[k] <= y)
    ensures i == j <==> LowerEdge(bins, i) == LowerEdge(bins, j)
  {
    if i < j {
      assert bins[j - 1] <= y && x < bins[i];
      assert i > 0 ==> bins[i - 1] < bins[j - 1];
    } else if j < i {
      assert bins[i - 1] <= x && y < bins[j];
      assert j > 0 ==> bins[j - 1] < bins[i - 1];
    }
  }

  /** The cells partition the integers, so two counters share a tag iff they fall in
      the same cell, and no counter's tag is that of a missing one. */
  lemma {:induction false} TagsPartition(bins: seq<int>, x: int, y: int, i: nat, j: nat)
    requires Increasing(bins) && i <= |bins| && j <= |bins|
    requires InCell(bins, i, x) && InCell(bins, j, y)
    ensures TagText(LowerEdge(bins, i), UpperEdge(bins, i)) == TagText(LowerEdge(bins, j), UpperEdge(bins, j))
       <==> forall k :: 0 <= k < |bins| ==> (bins[k] <= x <==> bins[k] <= y)
    ensures TagText(LowerEdge(bins, i), UpperEdge(bins, i)) != "none"
  {
    var tag := TagText(LowerEdge(bins, i), UpperEdge(bins, i));
    assert tag[|EdgeText(LowerEdge(bins, i))|] == '_';
    assert '_' !in "none";
    if tag == TagText(LowerEdge(bins, j), UpperEdge(bins, j)) {
      TagTextTellsBins(LowerEdge(bins, i), UpperEdge(bins, i), LowerEdge(bins, j), UpperEdge(bins, j));
    }
    SameCell(bins, x, y, i, j);
  }
}

/**
 The scrollback of a command console: trimming after every batch of output keeps what one
 trim of the whole stream would keep.
 */
module Scrollback {
  import opened Text
  import opened CodeUnits

  const MAX_OUTPUT := 160000
  const MAX_ENTRIES := 600

  datatype Entry = Entry(kind: string, text: JsText)

  // ---------------------------------------------------------- the list expression of the source

  function Reversed<T>(s: seq<T>): seq<T> {
    if s == [] then [] else Reversed(s[1..]) + [s[0]]
  }

  /** Every text cut to its last `MAX_OUTPUT` units. */
  function Clipped(entries: seq<Entry>): seq<Entry> {
    seq(|entries|, i requires 0 <= i < |entries| => Entry(entries[i].kind, Last(entries[i].text, MAX_OUTPUT)))
  }

  /** The filter with its running size. */
  function Filtered(entries: seq<Entry>, size: nat): seq<Entry> {
    if entries == [] then []
    else
      var total := size + |entries[0].text|;
      (if total <= MAX_OUTPUT then [entries[0]] else []) + Filtered(entries[1..], total)
  }

  /** `slice(-n)` */
  function LastEntries(entries: seq<Entry>, n: nat): seq<Entry> {
    if |entries| <= n then entries else entries[|entries| - n..]
  }

  function AppendOutput(previous: seq<Entry>, entries: seq<Entry>): seq<Entry> {
    LastEntries(Reversed(Filtered(Reversed(previous + Clipped(entries)), 0)), MAX_ENTRIES)
  }

  // ---------------------------------------------------------- what it means

  function Size(entries: seq<Entry>): nat {
    if entries == [] then 0 else |entries[0].text| + Size(entries[1..])
  }

  predicate Fits(entries: seq<Entry>) {
    |entries| <= MAX_ENTRIES && Size(entries) <= MAX_OUTPUT
  }

  function Tail(entries: seq<Entry>, k: nat): seq<Entry>
    requires k <= |entries|
  {
    entries[|entries| - k..]
  }

  /** How many entries at the end of `entries` stay within `budget` units. */
  function FitCount(entries: seq<Entry>, budget: int): (k: nat)
    ensures k <= |entries|
    decreases |entries|
  {
    if entries == [] then 0
    else
      var n := |entries| - 1;
      if |entries[n].text| > budget then 0 else 1 + FitCount(entries[..n], budget - |entries[n].text|)
  }

  lemma {:induction false} SizeConcat(a: seq<Entry>, b: seq<Entry>)
    ensures Size(a + b) == Size(a) + Size(b)
  {
    if a == [] {
      assert a + b == b;
    } else {
      SizeConcat(a[1..], b);
      assert (a + b)[0] == a[0] && (a + b)[1..] == a[1..] + b;
    }
  }

  lemma SizeOfOne(entry: Entry)
    ensures Size([entry]) == |entry.text|
  {
    assert [entry][1..] == [];
  }

  /** The tails within the budget are those up to the counted length. */
  lemma {:induction false} FitCountIff(entries: seq<Entry>, budget: nat, k: nat)
    requires k <= |entries|
    ensures Size(Tail(entries, k)) <= budget <==> k <= FitCount(entries, budget)
    decreases |entries|
  {
    if k > 0 {
      var n := |entries| - 1;
      var init, last := entries[..n], entries[n];
      assert Tail(entries, k) == Tail(init, k - 1) + [last];
      SizeConcat(Tail(init, k - 1), [last]);
      SizeOfOne(last);
      if |last.text| <= budget {
        FitCountIff(init, budget - |last.text|, k - 1);
      }
    }
  }

  lemma {:induction false} ReversedConcat<T>(a: seq<T>, b: seq<T>)
    ensures Reversed(a + b) == Reversed(b) + Reversed(a)
  {
    if a == [] {
      assert a + b == b;
      assert Reversed(b) + [] == Reversed(b);
    } else {
      ReversedConcat(a[1..], b);
      assert (a + b)[0] == a[0] && (a + b)[1..] == a[1..] + b;
      Associative(Reversed(b), Reversed(a[1..]), [a[0]]);
    }
  }

  lemma ReversedOne<T>(x: T)
    ensures Reversed([x]) == [x]
  {
    assert [x][1..] == [] && Reversed([x][1..]) == [];
  }

  /** Once over the limit the filter passes nothing. */
  lemma {:induction false} FilteredOver(entries: seq<Entry>, size: nat)
    requires size > MAX_OUTPUT
    ensures Filtered(entries, size) == []
  {
    if entries != [] {
      FilteredOver(entries[1..], size + |entries[0].text|);
    }
  }

  lemma FilteredStep(last: Entry, rest: seq<Entry>, size: nat)
    ensures Filtered([last] + rest, size)
            == (if size + |last.text| <= MAX_OUTPUT then [last] else []) + Filtered(rest, size + |last.text|)
  {
    assert ([last] + rest)[0] == last && ([last] + rest)[1..] == rest;
  }

  lemma TailStep(init: seq<Entry>, last: Entry, k: nat)
    requires k <= |init|
    ensures Tail(init + [last], k + 1) == Tail(init, k) + [last]
  {
  }

  /** Reversed twice, the filter keeps a tail of the list. */
  lemma {:induction false} FilteredIsTail(entries: seq<Entry>, size: nat)
    requires size <= MAX_OUTPUT
    ensures Reversed(Filtered(Reversed(entries), size)) == Tail(entries, FitCount(entries, MAX_OUTPUT - size))
    decreases |entries|
  {
    if entries != [] {
      var n := |entries| - 1;
      var init, last := entries[..n], entries[n];
      assert entries == init + [last];
      ReversedConcat(init, [last]);
      ReversedOne(last);
      FilteredStep(last, Reversed(init), size);
      var total := size + |last.text|;
      if total <= MAX_OUTPUT {
        FilteredIsTail(init, total);
        ReversedConcat([last], Filtered(Reversed(init), total));
        TailStep(init, last, FitCount(init, MAX_OUTPUT - total));
      } else {
        FilteredOver(Reversed(init), total);
      }
      hide Filtered, Reversed, Tail;
    }
  }

  /** How much of a list is kept. */
  function KeptCount(entries: seq<Entry>): (k: nat)
    ensures k <= |entries|
  {
    var k := FitCount(entries, MAX_OUTPUT);
    if k <= MAX_ENTRIES then k else MAX_ENTRIES
  }

  function Kept(entries: seq<Entry>): seq<Entry> {
    Tail(entries, KeptCount(entries))
  }

  lemma AppendOutputIsKept(previous: seq<Entry>, entries: seq<Entry>)
    ensures AppendOutput(previous, entries) == Kept(previous + Clipped(entries))
  {
    var all := previous + Clipped(entries);
    FilteredIsTail(all, 0);
  }

  /** What is kept is the longest tail with at most 160000 units and 600 entries. */
  lemma KeptIsLongest(previous: seq<Entry>, entries: seq<Entry>, k: nat)
    requires k <= |previous| + |entries|
    ensures var all := previous + Clipped(entries);
            && AppendOutput(previous, entries) == Tail(all, KeptCount(all))
            && (Fits(Tail(all, k)) <==> k <= KeptCount(all))
  {
    var all := previous + Clipped(entries);
    AppendOutputIsKept(previous, entries);
    FitCountIff(all, MAX_OUTPUT, k);
  }

  // ---------------------------------------------------------- online equals offline

  lemma FitCountOfTail(entries: seq<Entry>, n: nat, budget: nat)
    requires n <= |entries|
    ensures FitCount(Tail(entries, n), budget) == if FitCount(entries, budget) <= n then FitCount(entries, budget) else n
  {
    var short := Tail(entries, n);
    var j, k := FitCount(short, budget), FitCount(entries, budget);
    var least := if k <= n then k else n;
    hide FitCount;
    FitCountIff(short, budget, j);
    FitCountIff(entries, budget, j);
    TailOfTail(entries, n, j);
    FitCountIff(short, budget, least);
    FitCountIff(entries, budget, least);
    TailOfTail(entries, n, least);
  }

  lemma FitCountConcat(a: seq<Entry>, b: seq<Entry>, budget: nat)
    ensures FitCount(a + b, budget) <= FitCount(a, budget) + |b|
  {
    var k := FitCount(a + b, budget);
    hide FitCount;
    FitCountIff(a + b, budget, k);
    if k > |b| {
      assert Tail(a + b, k) == Tail(a, k - |b|) + b;
      SizeConcat(Tail(a, k - |b|), b);
      FitCountIff(a, budget, k - |b|);
    }
  }

  /** Dropping what would be dropped anyway changes nothing later. */
  lemma KeptOfKept(a: seq<Entry>, b: seq<Entry>)
    ensures Kept(Kept(a) + b) == Kept(a + b)
  {
    var n := KeptCount(a) + |b|;
    assert Kept(a) + b == Tail(a + b, n);
    FitCountOfTail(a + b, n, MAX_OUTPUT);
    FitCountConcat(a, b, MAX_OUTPUT);
    TailOfTail(a + b, n, KeptCount(Tail(a + b, n)));
    hide FitCount, Tail;
  }

  lemma TailOfTail(entries: seq<Entry>, n: nat, k: nat)
    requires k <= n <= |entries|
    ensures Tail(Tail(entries, n), k) == Tail(entries, k)
  {
  }

  lemma ClippedConcat(a: seq<Entry>, b: seq<Entry>)
    ensures Clipped(a + b) == Clipped(a) + Clipped(b)
  {
  }

  /** Appending in two batches is appending in one. */
  lemma TwoBatches(previous: seq<Entry>, a: seq<Entry>, b: seq<Entry>)
    ensures AppendOutput(AppendOutput(previous, a), b) == AppendOutput(previous, a + b)
  {
    AppendOutputIsKept(previous, a);
    AppendOutputIsKept(AppendOutput(previous, a), b);
    AppendOutputIsKept(previous, a + b);
    ClippedConcat(a, b);
    hide AppendOutput, Clipped, Kept;
    KeptOfKept(previous + Clipped(a), Clipped(b));
    Associative(previous, Clipped(a), Clipped(b));
  }

  function AppendBatches(previous: seq<Entry>, batches: seq<seq<Entry>>): seq<Entry>
    decreases |batches|
  {
    if batches == [] then previous else AppendBatches(AppendOutput(previous, batches[0]), batches[1..])
  }

  function Concat(batches: seq<seq<Entry>>): seq<Entry> {
    if batches == [] then [] else batches[0] + Concat(batches[1..])
  }

  /** However the stream is cut into batches, the console shows what trimming it once would leave. */
  lemma {:induction false} OnlineIsOffline(previous: seq<Entry>, batches: seq<seq<Entry>>)
    requires batches != []
    ensures AppendBatches(previous, batches) == AppendOutput(previous, Concat(batches))
    decreases |batches|
  {
    hide AppendOutput;
    if |batches| == 1 {
      assert batches[1..] == [];
      assert Concat(batches[1..]) == [];
      assert batches[0] + [] == batches[0];
    } else {
      OnlineIsOffline(AppendOutput(previous, batches[0]), batches[1..]);
      TwoBatches(previous, batches[0], Concat(batches[1..]));
    }
  }
}

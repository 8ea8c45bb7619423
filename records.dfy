/**
 * One year of a name's history as the data source returns it, and the pure
 * parts of the page's view of a list of such records: the order they are
 * drawn in, the geometry and styling of each bar, and the meaning text.
 */
module Records {
  import opened Wrappers
  import opened Trimming
  import opened Sorting

  /**
   * A record with its year and rank already read as integers. An absent rank
   * and an empty rank string are both None; an absent or null meaning is None.
   */
  datatype Record = Record(name: string, year: int, rank: Option<int>, meaning: Option<string>)

  /** parseInt(entry.rank || "0"): a missing rank reads as 0, the "no data" sentinel. */
  function RankOf(entry: Record): (rank: int)
    ensures rank == 0 <==> entry.rank == None || entry.rank == Some(0)
    ensures rank != 0 ==> entry.rank == Some(rank)
  {
    match entry.rank
    case None => 0
    case Some(k) => k
  }

  /** The comparator of sortByYear, as a "may come first" relation. */
  predicate ByYear(a: Record, b: Record) {
    a.year <= b.year
  }

  predicate YearOrdered(entries: seq<Record>) {
    forall i, j :: 0 <= i < j < |entries| ==> entries[i].year <= entries[j].year
  }

  lemma ByYearIsTotalPreorder()
    ensures TotalPreorder(ByYear)
  {
  }

  /**
   * After sorting, the first record is one of the input's and has the
   * earliest year among them.
   */
  lemma EarliestFirst(sorted: seq<Record>, entries: seq<Record>)
    requires YearOrdered(sorted) && multiset(sorted) == multiset(entries) && |sorted| > 0
    ensures sorted[0] in entries
    ensures forall e :: e in entries ==> sorted[0].year <= e.year
  {
    assert sorted[0] in multiset(sorted);
    forall e | e in entries ensures sorted[0].year <= e.year {
      assert e in multiset(sorted);
      var k :| 0 <= k < |sorted| && sorted[k] == e;
    }
  }

  /** Two records of different years sort one way only: the earlier one first. */
  lemma TwoYearsOrdered(sorted: seq<Record>, early: Record, late: Record)
    requires early.year < late.year
    requires YearOrdered(sorted) && multiset(sorted) == multiset([early, late])
    ensures sorted == [early, late]
  {
    assert |sorted| == |multiset(sorted)| == 2;
    assert sorted[0] in multiset(sorted) && sorted[1] in multiset(sorted);
    assert sorted[0] == early;
    assert multiset(sorted) == multiset{early, sorted[1]};
    assert sorted == [sorted[0], sorted[1]];
  }

  /** Left offset, in pixels, of the label and bar drawn for the i-th record. */
  function Left(i: nat): (left: int)
    ensures left >= 10 && left % 60 == 10
    ensures left / 60 == i
  {
    10 + 60 * i
  }

  /** Height of a bar in pixels: 0 for "no data", else floor((1000 - rank) / 4). */
  function BarHeight(rank: int): (height: int)
    ensures rank == 0 ==> height == 0
    ensures rank != 0 ==> 4 * height <= 1000 - rank < 4 * height + 4
  {
    if rank == 0 then 0 else (1000 - rank) / 4
  }

  /** Over the ranks 1 to 1000 a bar is between 0 and 249 pixels high. */
  lemma BarHeightRange(rank: int)
    requires 1 <= rank <= 1000
    ensures 0 <= BarHeight(rank) <= 249
  {
  }

  /** A better (smaller) rank never gets a shorter bar. */
  lemma BarHeightNonIncreasing(better: int, worse: int)
    requires 1 <= better <= worse
    ensures BarHeight(worse) <= BarHeight(better)
  {
  }

  datatype BarText = NoData | RankNumber(rank: int)

  datatype Colour = Red | Black

  /** The bar's text: "(no data)" for the sentinel rank 0, the rank itself otherwise. */
  function BarLabel(rank: int): (text: BarText)
    ensures text == NoData <==> rank == 0
    ensures text.RankNumber? ==> text.rank == rank
  {
    if rank == 0 then NoData else RankNumber(rank)
  }

  /** The top ten are drawn in red. */
  function BarColour(rank: int): (colour: Colour)
    ensures colour == Red <==> 1 <= rank <= 10
  {
    if 0 < rank <= 10 then Red else Black
  }

  /** What the graph area holds: year labels and ranking bars, positioned by their left offset. */
  datatype Item =
    | YearLabel(left: int, year: int)
    | RankingBar(left: int, height: int, text: BarText, colour: Colour)

  /** The label and the bar drawn for the record at position i. */
  function EntryItems(entry: Record, i: nat): seq<Item> {
    var rank := RankOf(entry);
    [YearLabel(Left(i), entry.year), RankingBar(Left(i), BarHeight(rank), BarLabel(rank), BarColour(rank))]
  }

  /** The items drawGraph appends for entries, record after record. */
  function GraphOf(entries: seq<Record>): (graph: seq<Item>)
    ensures |graph| == 2 * |entries|
    ensures forall k :: 0 <= k < |graph| ==> (graph[k].YearLabel? <==> k % 2 == 0)
  {
    if entries == [] then []
    else GraphOf(entries[..|entries| - 1]) + EntryItems(entries[|entries| - 1], |entries| - 1)
  }

  /**
   * The i-th pair of items is the i-th record's: a label with its year and a
   * bar, both at 10 + 60 * i; the bar is flat for "no data" and otherwise
   * floor((1000 - rank) / 4) high, reads "(no data)" exactly for rank 0 and
   * the rank otherwise, and is red exactly for the ranks 1 to 10.
   */
  lemma {:induction false} GraphOfAt(entries: seq<Record>, i: nat)
    requires i < |entries|
    ensures |GraphOf(entries)| == 2 * |entries|
    ensures GraphOf(entries)[2 * i] == YearLabel(10 + 60 * i, entries[i].year)
    ensures var bar, rank := GraphOf(entries)[2 * i + 1], RankOf(entries[i]);
      && bar.RankingBar?
      && bar.left == 10 + 60 * i
      && (rank == 0 ==> bar.height == 0)
      && (rank != 0 ==> bar.height == (1000 - rank) / 4)
      && (bar.text == NoData <==> rank == 0)
      && (bar.text.RankNumber? ==> bar.text.rank == rank)
      && (bar.colour == Red <==> 0 < rank <= 10)
  {
    var n := |entries| - 1;
    if i < n {
      GraphOfAt(entries[..n], i);
      assert GraphOf(entries)[2 * i] == GraphOf(entries[..n])[2 * i];
      assert GraphOf(entries)[2 * i + 1] == GraphOf(entries[..n])[2 * i + 1];
    }
  }

  /**
   * Drawn from year-ordered records, the labels read in ascending year and
   * run strictly left to right.
   */
  lemma LabelsAscend(entries: seq<Record>, i: nat, j: nat)
    requires YearOrdered(entries) && i < j < |entries|
    ensures |GraphOf(entries)| == 2 * |entries|
    ensures var first, second := GraphOf(entries)[2 * i], GraphOf(entries)[2 * j];
      first.YearLabel? && second.YearLabel? && first.year <= second.year && first.left < second.left
  {
    GraphOfAt(entries, i);
    GraphOfAt(entries, j);
  }

  /**
   * The meaning shown for a record: its meaning trimmed, or "" when it has
   * none or it is blank.
   */
  function MeaningText(entry: Record): (text: string)
    ensures text == "" <==> (entry.meaning == None || AllSpace(entry.meaning.value))
    ensures text == [] || (!IsSpace(text[0]) && !IsSpace(text[|text| - 1]))
    ensures entry.meaning.Some? ==> exists i :: Framed(entry.meaning.value, i, text)
  {
    match entry.meaning
    case None => ""
    case Some(m) =>
      TrimEmptyIffBlank(m);
      Trim(m)
  }

  /** data.map(entry => entry.name) */
  function NamesOf(data: seq<Record>): seq<string> {
    seq(|data|, i requires 0 <= i < |data| => data[i].name)
  }
}

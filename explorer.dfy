/**
 * The page: a name selector, a graph area, a meaning paragraph and an error
 * paragraph, and the handlers that fill them. The two HTTP requests are not
 * performed here; their outcome is an argument of the handler that receives it.
 */
module NameExplorer {
  import opened Wrappers
  import opened Sorting
  import opened Collation
  import opened Distinct
  import opened Http
  import opened Records

  /** An option element: the value it selects and the text it shows. */
  datatype SelectOption = SelectOption(value: string, text: string)

  /** The first option, which selects nothing. */
  const Placeholder := SelectOption("", "Select a name...")

  /** A request the page has issued: the full list, or the records of one name. */
  datatype Request = AllNames | ByName(name: string)

  /** Everything the page shows, plus the requests it has issued so far. */
  datatype PageState = PageState(
    options: seq<SelectOption>,
    disabled: bool,
    graph: seq<Item>,
    meaning: string,
    error: string,
    requests: seq<Request>)

  /** One option per name, showing the name it selects. */
  function NameOptions(names: seq<string>): seq<SelectOption> {
    seq(|names|, i requires 0 <= i < |names| => SelectOption(names[i], names[i]))
  }

  function Values(options: seq<SelectOption>): seq<string> {
    seq(|options|, i requires 0 <= i < |options| => options[i].value)
  }

  /**
   * The options of a populated selector: the placeholder, then one option per
   * distinct name of data, in ascending order, each showing its own name.
   */
  ghost predicate ListsNamesOf(options: seq<SelectOption>, data: seq<Record>) {
    && |options| > 0
    && options[0] == Placeholder
    && options[1..] == NameOptions(Values(options[1..]))
    && StrictlyAscending(Values(options[1..]))
    && (forall n :: n in Values(options[1..]) <==> n in NamesOf(data))
  }

  /** The records alone decide the populated options. */
  lemma ListsNamesOfUnique(options: seq<SelectOption>, others: seq<SelectOption>, data: seq<Record>)
    requires ListsNamesOf(options, data) && ListsNamesOf(others, data)
    ensures options == others
  {
    AscendingUnique(Values(options[1..]), Values(others[1..]));
    assert options == [options[0]] + options[1..];
    assert others == [others[0]] + others[1..];
  }

  /** The message shown when the records of a name cannot be fetched. */
  function FetchFailure(name: string, message: string): (msg: string)
    ensures |msg| == 28 + |name| + |message|
    ensures msg[25..25 + |name|] == name && msg[28 + |name|..] == message
  {
    "Error fetching data for '" + name + "': " + message
  }

  /** The message shown when a name has no records. */
  function NoDataMessage(name: string): (msg: string)
    ensures |msg| == 25 + |name| && msg[23..23 + |name|] == name
  {
    "No data available for '" + name + "'."
  }

  /** The message shown when the list of names cannot be fetched. */
  function LoadFailure(message: string): (msg: string)
    ensures |msg| == 22 + |message| && msg[22..] == message
  {
    "Failed to load names: " + message
  }

  /** sortByYear: orders the records by ascending year, in place, keeping every record. */
  method SortByYear(entries: array<Record>)
    modifies entries
    ensures YearOrdered(entries[..])
    ensures multiset(entries[..]) == multiset(old(entries[..]))
  {
    ByYearIsTotalPreorder();
    SortInPlace(entries, ByYear);
  }

  /**
   * Array.from(new Set(data.map(entry => entry.name))).sort(): every name of
   * data exactly once, in ascending order.
   */
  method UniqueSortedNames(data: seq<Record>) returns (names: seq<string>)
    ensures StrictlyAscending(names)
    ensures forall n :: n in names <==> n in NamesOf(data)
  {
    var unique := Dedup(NamesOf(data));
    var sorted := new string[|unique|](i requires 0 <= i < |unique| => unique[i]);
    assert sorted[..] == unique;
    NotAfterIsTotalPreorder();
    SortInPlace(sorted, NotAfter);
    names := sorted[..];
    assert forall x :: multiset(names)[x] <= 1 by {
      forall x ensures multiset(names)[x] <= 1 {
        assert multiset(names)[x] == multiset(unique)[x];
      }
    }
    CountedOnceDistinct(names);
    forall n ensures n in names <==> n in NamesOf(data) {
      assert n in names <==> n in multiset(names);
      assert n in unique <==> n in multiset(unique);
    }
  }

  class Page {
    var options: seq<SelectOption>
    var disabled: bool
    var graph: seq<Item>
    var meaning: string
    var error: string
    var requests: seq<Request>

    function State(): PageState
      reads this
    {
      PageState(options, disabled, graph, meaning, error, requests)
    }

    /** The page as it loads: an empty, disabled selector and empty display regions. */
    constructor ()
      ensures State() == PageState([], true, [], "", "", [])
    {
      options, disabled := [], true;
      graph, meaning, error := [], "", "";
      requests := [];
    }

    /** showError */
    method ShowError(message: string)
      modifies this
      ensures State() == old(State()).(error := message)
    {
      error := message;
    }

    /** clearGraph */
    method ClearGraph()
      modifies this
      ensures State() == old(State()).(graph := [])
    {
      graph := [];
    }

    /** clearMeaning */
    method ClearMeaning()
      modifies this
      ensures State() == old(State()).(meaning := "")
    {
      meaning := "";
    }

    /** clearError */
    method ClearError()
      modifies this
      ensures State() == old(State()).(error := "")
    {
      error := "";
    }

    /** createYearLabel: appends a label with the year at offset x. */
    method CreateYearLabel(year: int, x: int)
      modifies this
      ensures State() == old(State()).(graph := old(graph) + [YearLabel(x, year)])
    {
      graph := graph + [YearLabel(x, year)];
    }

    /**
     * createRankingBar: appends a bar at offset x with the given height,
     * labelled "(no data)" for rank 0 and the rank otherwise, red for the top ten.
     */
    method CreateRankingBar(rank: int, x: int, height: int)
      modifies this
      ensures State() == old(State()).(graph := old(graph) + [RankingBar(x, height, BarLabel(rank), BarColour(rank))])
    {
      var text := if rank == 0 then NoData else RankNumber(rank);
      var colour := if rank > 0 && rank <= 10 then Red else Black;
      graph := graph + [RankingBar(x, height, text, colour)];
    }

    /** drawGraph: appends a year label and a ranking bar for each record, in order. */
    method DrawGraph(entries: array<Record>)
      modifies this
      ensures State() == old(State()).(graph := old(graph) + GraphOf(entries[..]))
    {
      for i := 0 to entries.Length
        invariant State() == old(State()).(graph := old(graph) + GraphOf(entries[..i]))
      {
        var entry := entries[i];
        var rank := RankOf(entry);
        var x := 10 + i * 60;
        var height := if rank == 0 then 0 else (1000 - rank) / 4;
        CreateYearLabel(entry.year, x);
        CreateRankingBar(rank, x, height);
        assert entries[..i + 1][..i] == entries[..i];
      }
      assert entries[..entries.Length] == entries[..];
    }

    /** displayMeaning: shows the trimmed meaning of the first record, or "". */
    method DisplayMeaning(entries: array<Record>)
      requires entries.Length > 0
      modifies this
      ensures State() == old(State()).(meaning := MeaningText(entries[0]))
    {
      meaning := MeaningText(entries[0]);
    }

    /**
     * populateSelect: replaces the options with the placeholder followed by
     * the distinct names of data in ascending order, and enables the selector.
     */
    method PopulateSelect(data: seq<Record>)
      modifies this
      ensures ListsNamesOf(options, data)
      ensures State() == old(State()).(options := options, disabled := false)
    {
      options := [];
      options := options + [Placeholder];
      var names := UniqueSortedNames(data);
      for i := 0 to |names|
        invariant State() == old(State()).(options := [Placeholder] + NameOptions(names[..i]))
      {
        options := options + [SelectOption(names[i], names[i])];
      }
      disabled := false;
      assert names[..|names|] == names;
      assert options[1..] == NameOptions(names);
      assert Values(options[1..]) == names;
    }

    /**
     * onNameChange: clears the three display regions; for a real name, issues
     * one request and shows what it yields: a failure message, the no-data
     * message, or the records sorted by year, drawn, and the earliest one's meaning.
     */
    method OnNameChange(name: string, outcome: Result<Response<seq<Record>>, string>)
      returns (ghost drawn: seq<Record>)
      modifies this
      ensures name == "" ==>
        State() == old(State()).(graph := [], meaning := "", error := "")
      ensures name != "" && Body(outcome).Err? ==>
        State() == old(State()).(
          graph := [], meaning := "", error := FetchFailure(name, Body(outcome).error),
          requests := old(requests) + [ByName(name)])
      ensures name != "" && Body(outcome) == Ok([]) ==>
        State() == old(State()).(
          graph := [], meaning := "", error := NoDataMessage(name),
          requests := old(requests) + [ByName(name)])
      ensures name != "" && Body(outcome).Ok? && Body(outcome).value != [] ==>
        && YearOrdered(drawn)
        && multiset(drawn) == multiset(Body(outcome).value)
        && State() == old(State()).(
             graph := GraphOf(drawn), meaning := MeaningText(drawn[0]), error := "",
             requests := old(requests) + [ByName(name)])
    {
      ClearGraph();
      ClearMeaning();
      ClearError();
      drawn := [];
      if name == "" {
        return;
      }
      requests := requests + [ByName(name)];
      match Body(outcome)
      case Err(message) =>
        ShowError(FetchFailure(name, message));
      case Ok(entries) =>
        drawn := ShowEntries(name, entries);
    }

    /**
     * The callback that receives a name's records: with none, it shows the
     * no-data message; otherwise it sorts them by year, draws them and shows
     * the earliest one's meaning.
     */
    method ShowEntries(name: string, entries: seq<Record>) returns (ghost drawn: seq<Record>)
      modifies this
      ensures entries == [] ==> State() == old(State()).(error := NoDataMessage(name))
      ensures entries != [] ==>
        && YearOrdered(drawn)
        && multiset(drawn) == multiset(entries)
        && State() == old(State()).(graph := old(graph) + GraphOf(drawn), meaning := MeaningText(drawn[0]))
    {
      drawn := [];
      if |entries| == 0 {
        ShowError(NoDataMessage(name));
      } else {
        var sorted := new Record[|entries|](i requires 0 <= i < |entries| => entries[i]);
        assert sorted[..] == entries;
        SortByYear(sorted);
        DrawGraph(sorted);
        DisplayMeaning(sorted);
        drawn := sorted[..];
      }
    }

    /**
     * The load-time request: on success the selector lists the names and is
     * enabled; on any failure the error region says why and the selector is
     * left as it was.
     */
    method LoadNames(outcome: Result<Response<seq<Record>>, string>)
      modifies this
      ensures requests == old(requests) + [AllNames]
      ensures graph == old(graph) && meaning == old(meaning)
      ensures Body(outcome).Ok? ==>
        && ListsNamesOf(options, Body(outcome).value)
        && !disabled
        && error == old(error)
      ensures Body(outcome).Err? ==>
        && options == old(options) && disabled == old(disabled)
        && error == LoadFailure(Body(outcome).error)
    {
      requests := requests + [AllNames];
      match Body(outcome)
      case Err(message) =>
        ShowError(LoadFailure(message));
      case Ok(data) =>
        PopulateSelect(data);
    }
  }

  /**
   * Selecting "Ava" with two records, 2020 ranked 5 with meaning " life " and
   * 2019 with rank 0 and no meaning: 2019 is drawn first, flat, reading
   * "(no data)" in black; 2020 second, 248 pixels high, reading 5 in red. The
   * meaning is that of the 2019 record, which has none.
   */
  method AvaExample() returns (graph: seq<Item>, meaning: string, error: string)
    ensures graph == [
      YearLabel(10, 2019), RankingBar(10, 0, NoData, Black),
      YearLabel(70, 2020), RankingBar(70, 248, RankNumber(5), Red)]
    ensures meaning == "" && error == ""
  {
    var late := Record("Ava", 2020, Some(5), Some(" life "));
    var early := Record("Ava", 2019, Some(0), None);
    var page := new Page();
    var outcome := Ok(Response(200, "OK", Ok([late, early])));
    assert Body(outcome) == Ok([late, early]);
    ghost var drawn := page.OnNameChange("Ava", outcome);
    assert multiset([late, early]) == multiset([early, late]);
    TwoYearsOrdered(drawn, early, late);
    assert [early, late][..1] == [early] && [early][..0] == [];
    assert GraphOf([early]) == [YearLabel(10, 2019), RankingBar(10, 0, NoData, Black)];
    assert BarHeight(5) == 248;
    graph, meaning, error := page.graph, page.meaning, page.error;
  }
}

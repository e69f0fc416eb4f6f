/** The main window of the first, single-file version of the tool (root.py,
    class DiskSpaceAnalyzer): how a directory result is ordered, charted and
    totalled, and the history stack behind the back and home buttons. Unlike
    the later NavigationService, this history stores the root marker (None)
    when leaving the disk list, and a finished disk scan clears it. */
module LegacyWindow {
  import opened Wrappers
  import opened LegacyAnalyzer
  import StableSort
  import ChartHelpers
  import opened Navigation

  // ---------------------------------------------------------------------------
  // display_directory_data
  // ---------------------------------------------------------------------------

  function RecordSize(r: Record): nat {
    r.size
  }

  /** At most this many directories get a wedge of the pie chart. */
  const MaxWedges: nat := 10

  /** A row of the list: the record and its share of the total, in percent. */
  datatype Row = Row(record: Record, percent: real)

  /** What is shown: the charted records and their colours, the list rows,
      and the total they are measured against. */
  datatype Display = Display(chart: seq<Record>, colors: seq<string>, rows: seq<Row>, total: nat)

  function Percent(size: nat, total: nat): real {
    if total > 0 then (size as real / total as real) * 100.0 else 0.0
  }

  /** The colours get_color gives the first k wedges, picked by how many
      colours were picked before (root.py's palette is the same twenty colours,
      in the same order, as the chart widget's). */
  function WedgeColors(k: nat): (r: seq<string>)
    ensures |r| == k
  {
    if k == 0 then [] else WedgeColors(k - 1) + [ChartHelpers.GetColor(k - 1)]
  }

  function Wedges(n: nat): nat {
    if n < MaxWedges then n else MaxWedges
  }

  /** Every record with its share of `total`. */
  function Rows(sorted: seq<Record>, total: nat): (r: seq<Row>)
    ensures |r| == |sorted|
  {
    seq(|sorted|, k requires 0 <= k < |sorted| => Row(sorted[k], Percent(sorted[k].size, total)))
  }

  /** An empty result shows a message and nothing else (None). Otherwise the
      records are sorted by size, largest first, the first ten are charted
      with the palette in order, and every record is listed with its share of
      the sum of all sizes. */
  function DirectoryDisplay(data: seq<Record>): Option<Display> {
    if data == [] then None
    else
      var sorted := StableSort.SortDesc(data, RecordSize);
      var total := StableSort.SumKeys(sorted, RecordSize);
      var chart := sorted[..Wedges(|sorted|)];
      Some(Display(chart, WedgeColors(|chart|), Rows(sorted, total), total))
  }

  /** display_directory_data, with its two loops below. */
  method DisplayDirectoryData(data: seq<Record>) returns (d: Option<Display>)
    ensures d == DirectoryDisplay(data)
  {
    if data == [] {
      return None;
    }
    var sorted := StableSort.SortDesc(data, RecordSize);
    var chart, colors := ChartLoop(sorted);
    var total := StableSort.SumKeys(sorted, RecordSize);
    var rows := ListLoop(sorted, total);
    d := Some(Display(chart, colors, rows, total));
  }

  /** The chart loop over the first ten sorted records, picking each colour
      by how many were picked before. */
  method ChartLoop(sorted: seq<Record>) returns (chart: seq<Record>, colors: seq<string>)
    ensures chart == sorted[..Wedges(|sorted|)] && colors == WedgeColors(Wedges(|sorted|))
  {
    chart, colors := [], [];
    for k := 0 to Wedges(|sorted|)
      invariant chart == sorted[..k]
      invariant colors == WedgeColors(k)
    {
      assert sorted[..k + 1] == sorted[..k] + [sorted[k]];
      var c := ChartHelpers.GetColor(|colors|);
      assert WedgeColors(k + 1) == colors + [c];
      colors := colors + [c];
      chart := chart + [sorted[k]];
    }
  }

  /** The list loop: one row per record with its share of the total. */
  method ListLoop(sorted: seq<Record>, total: nat) returns (rows: seq<Row>)
    ensures rows == Rows(sorted, total)
  {
    rows := [];
    for k := 0 to |sorted|
      invariant |rows| == k && forall i :: 0 <= i < k ==> rows[i] == Row(sorted[i], Percent(sorted[i].size, total))
    {
      rows := rows + [Row(sorted[k], Percent(sorted[k].size, total))];
    }
  }

  function RowRecords(rows: seq<Row>): seq<Record> {
    seq(|rows|, k requires 0 <= k < |rows| => rows[k].record)
  }

  /** For a non-empty result: the rows list every record once, largest first,
      records of equal size in their listing order; at most ten records are
      charted, they are the first rows, and none of the rows left out of the
      chart is larger than one charted; the total is the sum of all sizes,
      whatever their order; each row's share is size / total * 100, or 0 for a
      zero total. */
  lemma DirectoryDisplayCorrect(data: seq<Record>)
    requires data != []
    ensures var d := DirectoryDisplay(data).value;
            var listed := RowRecords(d.rows);
            && StableSort.SortedDesc(listed, RecordSize)
            && multiset(listed) == multiset(data)
            && (forall v :: StableSort.WithKey(listed, RecordSize, v) == StableSort.WithKey(data, RecordSize, v))
            && |d.chart| == Wedges(|data|) && d.chart == listed[..|d.chart|]
            && (forall i, j :: 0 <= i < |d.chart| <= j < |listed| ==> d.chart[i].size >= listed[j].size)
            && d.total == StableSort.SumKeys(data, RecordSize)
            && (forall k :: 0 <= k < |d.rows| ==> d.rows[k].percent == Percent(d.rows[k].record.size, d.total))
  {
    var sorted := StableSort.SortDesc(data, RecordSize);
    StableSort.SortDescCorrect(data, RecordSize);
    StableSort.SortKeepsSum(data, RecordSize);
    var d := DirectoryDisplay(data).value;
    assert |sorted| == |data| by {
      assert |multiset(sorted)| == |multiset(data)|;
    }
    assert RowRecords(d.rows) == sorted;
  }

  /** The chart's colours are the palette's first entries, in order. */
  lemma {:induction false} WedgeColorsInOrder(k: nat)
    requires k <= MaxWedges
    ensures forall i :: 0 <= i < k ==> WedgeColors(k)[i] == ChartHelpers.ChartColors[i]
  {
    if k > 0 {
      WedgeColorsInOrder(k - 1);
      var w := WedgeColors(k - 1);
      ChartHelpers.ColorsCycle(k - 1);
      var c := ChartHelpers.GetColor(k - 1);
      assert WedgeColors(k) == w + [c];
      forall i | 0 <= i < k ensures WedgeColors(k)[i] == ChartHelpers.ChartColors[i] {
        if i < k - 1 {
          assert WedgeColors(k)[i] == w[i];
        }
      }
    }
  }

  // ---------------------------------------------------------------------------
  // The history stack
  // ---------------------------------------------------------------------------

  /** What the window starts: a disk scan or a directory scan. */
  datatype LegacyRequest = DiskScan | DirectoryScan(path: string)

  /** What a list row carries when clicked: its path and its type. */
  datatype ItemData = ItemData(path: string, itemType: string)

  /** The current path (None for the disk list), the history stack (top last,
      None standing for the disk list), whether back and home are enabled, the
      path label and the scans started so far. */
  datatype LegacyState = LegacyState(current: Option<string>, history: seq<Option<string>>,
                                     navEnabled: bool, pathText: string, requests: seq<LegacyRequest>)

  /** Only disk and directory rows can be entered. */
  predicate Enterable(d: ItemData) {
    d.itemType == "disk" || d.itemType == "directory"
  }

  function LabelFor(p: Option<string>): string {
    if p.None? then RootDisplay else PathPrefix + p.value
  }

  /** on_item_clicked: push the current path, None included, and enter the
      row; entering a disk also enables back and home. Other rows do nothing. */
  function Clicked(s: LegacyState, d: ItemData): LegacyState {
    if !Enterable(d) then s
    else
      s.(history := s.history + [s.current], current := Some(d.path), pathText := PathPrefix + d.path,
         requests := s.requests + [DirectoryScan(d.path)],
         navEnabled := if d.itemType == "disk" then true else s.navEnabled)
  }

  /** go_back: nothing on an empty history. A popped None returns to the disk
      list (and disables back and home if the history is now empty); any other
      popped path becomes current and is scanned. */
  function Back(s: LegacyState): LegacyState {
    if s.history == [] then s
    else
      var prev := s.history[|s.history| - 1];
      var rest := s.history[..|s.history| - 1];
      if prev.None? then
        s.(history := rest, current := None, pathText := RootDisplay, requests := s.requests + [DiskScan],
           navEnabled := if rest == [] then false else s.navEnabled)
      else
        s.(history := rest, current := prev, pathText := PathPrefix + prev.value,
           requests := s.requests + [DirectoryScan(prev.value)])
  }

  /** go_home: clear the history, return to the disk list and scan it. */
  function HomeClicked(s: LegacyState): LegacyState {
    LegacyState(None, [], false, RootDisplay, s.requests + [DiskScan])
  }

  /** on_disk_analysis_finished: the same reset, without a new scan. */
  function DiskFinished(s: LegacyState): LegacyState {
    s.(current := None, history := [], navEnabled := false, pathText := RootDisplay)
  }

  /** Going back right after entering a row returns to where the click was
      made: the same current path and history, that place's label, and a
      scan of it (the disk list for None). */
  lemma BackUndoesClick(s: LegacyState, d: ItemData)
    requires Enterable(d)
    ensures var r := Back(Clicked(s, d));
            && r.current == s.current && r.history == s.history && r.pathText == LabelFor(s.current)
            && r.requests == s.requests + [DirectoryScan(d.path), if s.current.None? then DiskScan else DirectoryScan(s.current.value)]
  {
    assert (s.history + [s.current])[..|s.history|] == s.history;
  }

  /** Back on an empty history does nothing at all. */
  lemma BackOnEmptyHistory(s: LegacyState)
    requires s.history == []
    ensures Back(s) == s
  {
  }

  /** Entering rows one after the other. */
  function ClickAll(s: LegacyState, ds: seq<ItemData>): LegacyState
    decreases |ds|
  {
    if ds == [] then s else Clicked(ClickAll(s, ds[..|ds| - 1]), ds[|ds| - 1])
  }

  function BackTimes(s: LegacyState, n: nat): LegacyState
    decreases n
  {
    if n == 0 then s else BackTimes(Back(s), n - 1)
  }

  /** Where back goes depends on the current path and the history only. */
  lemma {:induction false} BackTimesStackOnly(s: LegacyState, t: LegacyState, n: nat)
    requires s.current == t.current && s.history == t.history
    ensures BackTimes(s, n).current == BackTimes(t, n).current
    ensures BackTimes(s, n).history == BackTimes(t, n).history
    decreases n
  {
    if n > 0 {
      BackTimesStackOnly(Back(s), Back(t), n - 1);
    }
  }

  /** The history is a stack: after entering any number of rows, going back
      as many times returns to the same current path and history. */
  lemma {:induction false} BackRetracesClicks(s: LegacyState, ds: seq<ItemData>)
    requires forall i :: 0 <= i < |ds| ==> Enterable(ds[i])
    ensures BackTimes(ClickAll(s, ds), |ds|).current == s.current
    ensures BackTimes(ClickAll(s, ds), |ds|).history == s.history
    decreases |ds|
  {
    if ds != [] {
      var init := ds[..|ds| - 1];
      var x := ClickAll(s, init);
      BackUndoesClick(x, ds[|ds| - 1]);
      BackTimesStackOnly(Back(Clicked(x, ds[|ds| - 1])), x, |init|);
      BackRetracesClicks(s, init);
    }
  }

  /** The legacy history as the later NavigationService would hold it: with
      the root marker at its bottom, and only while away from the disk list. */
  function Marked(h: seq<string>): seq<Option<string>>
    ensures |Marked(h)| == |h| + 1
  {
    [None] + seq(|h|, k requires 0 <= k < |h| => Some(h[k]))
  }

  predicate Corresponds(l: LegacyState, n: NavState) {
    && l.current == n.current
    && (n.current.None? ==> l.history == [] && n.history == [])
    && (n.current.Some? ==> l.history == Marked(n.history))
  }

  /** The two navigation stacks agree: from corresponding states, entering a
      row and navigating to its path, going back in both, and going home in
      both lead to corresponding states, and a non-empty back scans the disk
      list exactly when the service returns no previous path. */
  lemma LegacyAgreesWithService(l: LegacyState, n: NavState, d: ItemData)
    requires Corresponds(l, n) && Enterable(d)
    ensures Corresponds(Clicked(l, d), AfterNavigate(n, d.path))
    ensures Corresponds(Back(l), AfterBack(n).0)
    ensures l.history != [] ==>
              Back(l).requests == l.requests + [if AfterBack(n).1.None? then DiskScan else DirectoryScan(AfterBack(n).1.value)]
    ensures Corresponds(HomeClicked(l), AfterHome(n))
  {
    if n.current.Some? {
      var h := n.history;
      assert Marked(h + [n.current.value]) == Marked(h) + [n.current];
      if h != [] {
        assert Marked(h)[..|Marked(h)| - 1] == Marked(h[..|h| - 1]);
      }
    }
  }

  /** The window object: its handlers reassign these fields. */
  class DiskSpaceAnalyzer {
    var currentPath: Option<string>
    var history: seq<Option<string>>
    var navEnabled: bool
    var pathText: string
    var requests: seq<LegacyRequest>

    function State(): LegacyState
      reads this
    {
      LegacyState(currentPath, history, navEnabled, pathText, requests)
    }

    /** A new window starts at the disk list and scans the disks at once. */
    constructor()
      ensures State() == LegacyState(None, [], false, RootDisplay, [DiskScan])
    {
      currentPath := None;
      history := [];
      navEnabled := false;
      pathText := RootDisplay;
      requests := [DiskScan];
    }

    method OnItemClicked(d: ItemData)
      modifies this
      ensures State() == Clicked(old(State()), d)
    {
      if d.itemType == "disk" {
        history := history + [currentPath];
        currentPath := Some(d.path);
        pathText := PathPrefix + d.path;
        requests := requests + [DirectoryScan(d.path)];
        navEnabled := true;
      } else if d.itemType == "directory" {
        history := history + [currentPath];
        currentPath := Some(d.path);
        pathText := PathPrefix + d.path;
        requests := requests + [DirectoryScan(d.path)];
      }
    }

    method GoBack()
      modifies this
      ensures State() == Back(old(State()))
    {
      if history != [] {
        var prev := history[|history| - 1];
        history := history[..|history| - 1];
        if prev.None? {
          currentPath := None;
          pathText := RootDisplay;
          requests := requests + [DiskScan];
          if history == [] {
            navEnabled := false;
          }
        } else {
          currentPath := prev;
          pathText := PathPrefix + prev.value;
          requests := requests + [DirectoryScan(prev.value)];
        }
      }
    }

    method GoHome()
      modifies this
      ensures State() == HomeClicked(old(State()))
    {
      history := [];
      currentPath := None;
      pathText := RootDisplay;
      requests := requests + [DiskScan];
      navEnabled := false;
    }

    method OnDiskAnalysisFinished()
      modifies this
      ensures State() == DiskFinished(old(State()))
    {
      currentPath := None;
      history := [];
      navEnabled := false;
      pathText := RootDisplay;
    }
  }
}

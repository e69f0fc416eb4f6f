/** MainWindow (src/gui/main_window.py): the controller that turns clicks on
    the list, the chart and the navigation bar into navigation steps and scan
    requests, gated by its `is_analyzing` flag. The analysis service is
    modelled as a recorder of the requests it receives; it announces every
    scan synchronously (analysis_started), so a request and the window's
    reaction to that announcement happen in one step. */
module MainWindowModel {
  import opened Wrappers
  import opened DiskItems
  import opened Navigation

  /** What the window asks of the analysis service. */
  datatype Request = ScanDisks | ScanDirectory(path: string) | StopScan

  /** The part of the window its handlers read and write: the analysing flag,
      the progress bar's and the stop button's visibility, whether back and
      home are enabled, the path label, the status bar text, the navigation
      state and the requests sent so far. */
  datatype Ui = Ui(analyzing: bool, progressVisible: bool, stopVisible: bool, navEnabled: bool,
                   pathText: string, status: string, nav: NavState, requests: seq<Request>)

  const ReadyStatus: string := "准备就绪"
  const AnalyzingStatus: string := "正在分析..."
  const FinishedStatus: string := "分析完成"
  const StoppedStatus: string := "分析已停止"
  const ErrorStatus: string := "分析出错"

  /** A new window: nothing analysed, back and home disabled, the root label. */
  const Initial: Ui := Ui(false, false, false, false, RootDisplay, ReadyStatus, Home, [])

  /** The progress bar is shown exactly while analysing, the stop button is
      shown while analysing, and the navigation state is consistent. */
  predicate Valid(s: Ui) {
    && s.progressVisible == s.analyzing
    && (s.analyzing ==> s.stopVisible)
    && Consistent(s.nav)
  }

  /** on_analysis_started. */
  function Started(s: Ui): Ui {
    s.(analyzing := true, progressVisible := true, stopVisible := true, status := AnalyzingStatus)
  }

  /** A scan request: the service records it and announces it at once. */
  function Issue(s: Ui, r: Request): Ui {
    Started(s.(requests := s.requests + [r]))
  }

  /** start_initial_analysis: a disk scan unless one is already running. */
  function InitialAnalysis(s: Ui): Ui {
    if s.analyzing then s else Issue(s, ScanDisks)
  }

  /** on_analysis_finished: back and home are enabled exactly when the
      navigation is away from the root; the path label shows the current
      path. */
  function Finished(s: Ui): Ui {
    s.(analyzing := false, progressVisible := false, stopVisible := false,
       pathText := PathDisplay(s.nav), navEnabled := s.nav.current.Some?, status := FinishedStatus)
  }

  /** on_error_occurred: the stop button is left as it was. */
  function Errored(s: Ui): Ui {
    s.(analyzing := false, progressVisible := false, status := ErrorStatus)
  }

  /** stop_analysis: nothing happens unless a scan is running. */
  function Stopped(s: Ui): Ui {
    if !s.analyzing then s
    else s.(requests := s.requests + [StopScan], analyzing := false, progressVisible := false,
            stopVisible := false, status := StoppedStatus)
  }

  /** on_item_clicked: with an item and no scan running, navigate to its path
      and scan it. */
  function Clicked(s: Ui, item: Option<DiskItem>): Ui {
    if item.None? || s.analyzing then s
    else Issue(s.(nav := AfterNavigate(s.nav, item.value.path)), ScanDirectory(item.value.path))
  }

  /** go_back: with no scan running, pop the history; no previous path means
      the disk list. */
  function Back(s: Ui): Ui {
    if s.analyzing then s
    else
      var (n, previous) := AfterBack(s.nav);
      Issue(s.(nav := n), if previous.None? then ScanDisks else ScanDirectory(previous.value))
  }

  /** go_home: with no scan running, reset the navigation and scan the disks. */
  function HomeClicked(s: Ui): Ui {
    if s.analyzing then s else Issue(s.(nav := AfterHome(s.nav)), ScanDisks)
  }

  /** What reaches the window: the user's gestures, the start-up timer, and
      the service's end-of-scan signals. */
  datatype Signal =
    | ItemClicked(item: Option<DiskItem>)
    | BackClicked
    | HomeButton
    | StopClicked
    | StartupTimer
    | AnalysisFinished
    | ErrorOccurred

  function Apply(s: Ui, g: Signal): Ui {
    match g
    case ItemClicked(item) => Clicked(s, item)
    case BackClicked => Back(s)
    case HomeButton => HomeClicked(s)
    case StopClicked => Stopped(s)
    case StartupTimer => InitialAnalysis(s)
    case AnalysisFinished => Finished(s)
    case ErrorOccurred => Errored(s)
  }

  function RunSignals(s: Ui, gs: seq<Signal>): Ui
    decreases |gs|
  {
    if gs == [] then s else RunSignals(Apply(s, gs[0]), gs[1..])
  }

  /** The scan requests (not stop requests) among `rs`. */
  function Scans(rs: seq<Request>): nat {
    if rs == [] then 0
    else Scans(rs[..|rs| - 1]) + (if rs[|rs| - 1].StopScan? then 0 else 1)
  }

  /** The signals that can end a running scan. */
  function Ends(gs: seq<Signal>): nat {
    if gs == [] then 0
    else (if gs[0].AnalysisFinished? || gs[0].ErrorOccurred? || gs[0].StopClicked? then 1 else 0) + Ends(gs[1..])
  }

  function Pending(s: Ui): nat {
    if s.analyzing then 1 else 0
  }

  lemma ScansAppend(rs: seq<Request>, r: Request)
    ensures Scans(rs + [r]) == Scans(rs) + (if r.StopScan? then 0 else 1)
  {
    assert (rs + [r])[..|rs|] == rs;
  }

  /** While a scan is running, clicks, back, home and the start-up timer
      change nothing at all: no navigation step and no request. */
  lemma GesturesIgnoredWhileAnalyzing(s: Ui, g: Signal)
    requires s.analyzing
    requires g.ItemClicked? || g.BackClicked? || g.HomeButton? || g.StartupTimer?
    ensures Apply(s, g) == s
  {
  }

  /** A signal issues at most one scan request, and only when no scan was
      running; the window is then analysing. The signals that end a scan never
      issue one. */
  lemma {:induction false} SignalScans(s: Ui, g: Signal)
    ensures Scans(Apply(s, g).requests) <= Scans(s.requests) + 1
    ensures Scans(Apply(s, g).requests) == Scans(s.requests) + 1 ==> !s.analyzing && Apply(s, g).analyzing
    ensures Scans(Apply(s, g).requests) != Scans(s.requests) + 1 ==> Scans(Apply(s, g).requests) == Scans(s.requests)
    ensures g.AnalysisFinished? || g.ErrorOccurred? || g.StopClicked? ==> Scans(Apply(s, g).requests) == Scans(s.requests)
    ensures s.analyzing && !Apply(s, g).analyzing ==> g.AnalysisFinished? || g.ErrorOccurred? || g.StopClicked?
  {
    match g
    case ItemClicked(item) =>
      if item.Some? && !s.analyzing { ScansAppend(s.requests, ScanDirectory(item.value.path)); }
    case BackClicked =>
      if !s.analyzing {
        var (n, previous) := AfterBack(s.nav);
        ScansAppend(s.requests, if previous.None? then ScanDisks else ScanDirectory(previous.value));
      }
    case HomeButton =>
      if !s.analyzing { ScansAppend(s.requests, ScanDisks); }
    case StartupTimer =>
      if !s.analyzing { ScansAppend(s.requests, ScanDisks); }
    case StopClicked =>
      if s.analyzing { ScansAppend(s.requests, StopScan); }
    case AnalysisFinished =>
    case ErrorOccurred =>
  }

  /** The window issues a scan only when idle, so over any run of signals
      every scan request beyond the first follows an end signal (finish, error
      or stop): the requests issued are at most the end signals seen, plus one
      for a scan still running at the end, less one for a scan already running
      at the start. Signals carry no scan identity, so an end signal is not
      matched to the scan it belongs to. */
  lemma {:induction false} OneScanAtATime(s: Ui, gs: seq<Signal>)
    ensures Scans(RunSignals(s, gs).requests) + Pending(s)
            <= Scans(s.requests) + Ends(gs) + Pending(RunSignals(s, gs))
    decreases |gs|
  {
    if gs != [] {
      SignalScans(s, gs[0]);
      OneScanAtATime(Apply(s, gs[0]), gs[1..]);
    }
  }

  /** Every signal keeps the window valid. */
  lemma {:induction false} SignalsKeepValid(s: Ui, gs: seq<Signal>)
    requires Valid(s)
    ensures Valid(RunSignals(s, gs))
    decreases |gs|
  {
    if gs != [] {
      SignalsKeepValid(Apply(s, gs[0]), gs[1..]);
    }
  }

  /** Clicking an item from an idle window and letting the scan finish shows
      its path and enables back and home; going back from there requests the
      place the click left. */
  lemma ClickThenFinish(s: Ui, item: DiskItem)
    requires Valid(s) && !s.analyzing
    ensures var r := Finished(Clicked(s, Some(item)));
            && r.navEnabled && r.pathText == PathPrefix + item.path
            && r.requests == s.requests + [ScanDirectory(item.path)]
            && Back(r).requests == r.requests + [if s.nav.current.None? then ScanDisks else ScanDirectory(s.nav.current.value)]
            && (s.nav.current.Some? ==> Back(r).nav == s.nav)
  {
    if s.nav.current.Some? {
      BackUndoesNavigate(s.nav, item.path);
    } else {
      BackToRoot(s.nav, item.path);
    }
  }

  /** Going home from an idle window and letting the disk scan finish leaves
      back and home disabled and the root label shown. */
  lemma HomeThenFinish(s: Ui)
    requires !s.analyzing
    ensures var r := Finished(HomeClicked(s));
            && !r.navEnabled && r.pathText == RootDisplay && r.nav == Home
            && r.requests == s.requests + [ScanDisks]
  {
  }

  /** The window object: the handlers reassign its fields and drive its
      navigation service. */
  class MainWindow {
    var analyzing: bool
    var progressVisible: bool
    var stopVisible: bool
    var navEnabled: bool
    var pathText: string
    var status: string
    var requests: seq<Request>
    const navigation: NavigationService

    function Snapshot(): Ui
      reads this, navigation
    {
      Ui(analyzing, progressVisible, stopVisible, navEnabled, pathText, status, navigation.State(), requests)
    }

    constructor()
      ensures Snapshot() == Initial && fresh(navigation)
    {
      analyzing := false;
      progressVisible := false;
      stopVisible := false;
      navEnabled := false;
      pathText := RootDisplay;
      status := ReadyStatus;
      requests := [];
      navigation := new NavigationService();
    }

    method OnAnalysisStarted()
      modifies this
      ensures Snapshot() == Started(old(Snapshot()))
    {
      analyzing := true;
      progressVisible := true;
      stopVisible := true;
      status := AnalyzingStatus;
    }

    /** The service records the request and emits analysis_started before
        the worker runs. */
    method Send(r: Request)
      modifies this
      ensures Snapshot() == Issue(old(Snapshot()), r)
    {
      requests := requests + [r];
      OnAnalysisStarted();
    }

    method StartInitialAnalysis()
      modifies this
      ensures Snapshot() == InitialAnalysis(old(Snapshot()))
    {
      if !analyzing {
        Send(ScanDisks);
      }
    }

    method OnAnalysisFinished()
      modifies this
      ensures Snapshot() == Finished(old(Snapshot()))
    {
      analyzing := false;
      progressVisible := false;
      stopVisible := false;
      pathText := navigation.CurrentPathDisplay();
      navEnabled := navigation.currentPath.Some?;
      status := FinishedStatus;
    }

    method OnErrorOccurred()
      modifies this
      ensures Snapshot() == Errored(old(Snapshot()))
    {
      analyzing := false;
      progressVisible := false;
      status := ErrorStatus;
    }

    method StopAnalysis()
      modifies this
      ensures Snapshot() == Stopped(old(Snapshot()))
    {
      if analyzing {
        requests := requests + [StopScan];
        analyzing := false;
        progressVisible := false;
        stopVisible := false;
        status := StoppedStatus;
      }
    }

    method OnItemClicked(item: Option<DiskItem>)
      modifies this, navigation
      ensures Snapshot() == Clicked(old(Snapshot()), item)
    {
      if item.Some? && !analyzing {
        navigation.NavigateTo(item.value.path);
        Send(ScanDirectory(item.value.path));
      }
    }

    method GoBack()
      modifies this, navigation
      ensures Snapshot() == Back(old(Snapshot()))
    {
      if !analyzing {
        var previous := navigation.GoBack();
        if previous.None? {
          Send(ScanDisks);
        } else {
          Send(ScanDirectory(previous.value));
        }
      }
    }

    method GoHome()
      modifies this, navigation
      ensures Snapshot() == HomeClicked(old(Snapshot()))
    {
      if !analyzing {
        navigation.GoHome();
        Send(ScanDisks);
      }
    }
  }
}

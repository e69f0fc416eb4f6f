# NotosDiskSpaceAnalyzer — a verified Dafny model of its core

NotosDiskSpaceAnalyzer is a desktop tool that shows where disk space goes.
Its home view lists the disks with their used space. Clicking a disk or a
directory scans that directory's immediate children. Each child is sized, the
children are sorted largest first and each gets its share of the total. A pie
chart and a list show the result, and back and home buttons walk a history of
visited paths.

This project models the core of that tool in Dafny and proves what the code
promises:

- `FsTree` is the filesystem as the size computations see it: a finite tree
  of entries. An entry can fail in three ways: its listing, its type check or
  its stat.
- `SizeCalculator` models the two subtree sizes. The iterative one is proved
  equal to a recursive specification. The depth-capped recursive one is
  related to it.
- `StableSort` models Python's stable `sort(reverse=True)` on an integer key,
  proved sorted, a permutation and stable.
- `DiskItems` and `AnalysisResults` model the record types. They include
  `to_dict`/`from_dict` over a dynamically typed dictionary value, proved to
  round-trip.
- `Analyzer` models the analysis worker:
  - the run guarded by the stop flag;
  - the directory scan with its per-entry failures;
  - totals and percentages;
  - the POSIX partition filter;
  - the Windows drive-bitmask loop, both as written and corrected.
- `Navigation` models the navigation service as functions, plus a class whose
  methods are proved against them.
- `ChartHelpers` models the pure helpers of the pie-chart widget: label
  shortening, directory names, the chart title, the unit of the short size
  text, the colour cycle and the slices drawn.
- `MainWindowModel` models the main window's handlers, gated by its
  "analysing" flag, as functions and as a class. Over any sequence of signals
  it proves that the window issues a scan only when idle, so every scan after
  the first follows an end signal, and that the window stays consistent.
- `LegacyAnalyzer` and `LegacyWindow` model the first, single-file version
  of the tool (`root.py`):
  - its unbounded recursive folder size;
  - its directory scan, which records directories only;
  - its drive-letter loop;
  - the ordering, charting and totals of its directory display;
  - its history stack, proved to agree with the later navigation service.

Threads and signals are made explicit. The stop flag is a value saying at
which poll it is first seen lowered. Emitted signals become an event log. The
analysis service becomes a recorder of the requests it receives.

## Model

| member | source | states |
|---|---|---|
| `DiskItems.NewItem` | src/models/disk_item.py:5-16 | A new item keeps its four required fields; percentage 0.0, no parent path and zero capacities are the defaults |
| `DiskItems.IsClickable` | src/models/disk_item.py:34-37 | An item can be entered exactly when it is a disk or a directory |
| `DiskItems.UsedPercent` | src/models/disk_item.py:27 | A disk that reports no capacity has used share 0 (no division by zero); otherwise the share lies between 0 and 100 whenever used does not exceed total |
| `DiskItems.FormatSize` | src/models/disk_item.py:39-51 | Size 0 is rendered exactly as "0 B" |
| `DiskItems.DisplayName` | src/models/disk_item.py:23-32 | A disk's label starts with its name and the used-space text; a file's label starts with the file icon; anything else starts with the folder icon |
| `AnalysisResults.ItemToDict` | src/models/disk_item.py:5-16 | An item's attribute dictionary has exactly the nine keyword names the record accepts |
| `AnalysisResults.ToDict` | src/models/analysis_result.py:15-22 | The dictionary has exactly the four result keys; the items appear in order, each as its attribute dictionary; total, path and type are copied unchanged |
| `AnalysisResults.ItemFromDict` | src/models/analysis_result.py:27 | Rebuilding an item succeeds exactly when the dictionary passes only accepted keyword names, includes the four required ones, and gives each the field's type |
| `AnalysisResults.FromDict` | src/models/analysis_result.py:24-33 | A successful rebuild needs all four result keys and returns their total, path and type |
| `AnalysisResults.ItemRoundTrip` | src/models/analysis_result.py:18-27 | Every item comes back unchanged from its attribute dictionary |
| `AnalysisResults.RoundTrip` | src/models/analysis_result.py:15-33 | from_dict(to_dict(r)) rebuilds r field for field and item for item |
| `StableSort.SortDescCorrect` | src/core/analyzer.py:130 | The sorted list is ordered largest size first and is a permutation of the input; items of equal size keep their relative order |
| `StableSort.SortKeepsSum` | src/core/analyzer.py:129-130 | Sorting does not change the sum of the sizes |
| `SizeCalculator.DirectorySizeIterative` | src/core/size_calculator.py:38-58 | The loop with its explicit stack returns the sum of all file sizes reachable through non-hidden directories, hidden files included; the root is listed first and every other directory it lists is a non-hidden directory |
| `SizeCalculator.InsertedEntry` | src/core/size_calculator.py:47-56 | In the iterative total, an entry whose type check or stat fails, or a hidden directory, adds nothing and does not lose the entries listed after it; a file (hidden or not) adds exactly its size |
| `SizeCalculator.RecursiveSkipsHidden` | src/core/size_calculator.py:17-20 | The recursive variant ignores every entry whose name starts with '.', file or directory |
| `SizeCalculator.RecursiveMatchesIterative` | src/core/size_calculator.py:11-58 | On a tree with no hidden entry and no failing type check, nested within the depth cap, the recursive and the iterative sizes agree |
| `SizeCalculator.DepthCapTruncates` | src/core/size_calculator.py:13-14 | The recursive variant counts only the levels down to depth 100 of a deep chain of directories, while the iterative one counts every level |
| `Analyzer.AssignPercentages` | src/core/analyzer.py:132-134 | The loop gives each item the share size / total * 100 when the total is positive; with a zero total every item keeps its percentage |
| `Analyzer.PercentagesAddUp` | src/core/analyzer.py:129-134 | With a positive total the shares add up to exactly 100 (real arithmetic); with a zero total nothing changes |
| `Analyzer.Processed` | src/core/analyzer.py:93-95 | The loop handles entries while every poll of the running flag before them saw it raised, and stops at the first entry whose poll sees it lowered |
| `Analyzer.ScanEntries` | src/core/analyzer.py:93-123 | The loop handles exactly the entries before the stop; the items it keeps and the progress events it emits are those of the handled entries, in listing order |
| `Analyzer.HandleEntry` | src/core/analyzer.py:97-118 | A directory, listable or not, is kept with its iterative size and a file with its size, both under the joined path with the scanned directory as parent; an entry whose type check or size lookup fails is dropped |
| `Analyzer.Summarise` | src/core/analyzer.py:128-141 | The result holds the kept items sorted and annotated with their shares, their total, the path and the type "directory" |
| `Analyzer.AnalyzeDirectory` | src/core/analyzer.py:82-141 | Stopped on entry gives an empty result and no event. Otherwise it reports a listing failure as one error event, keeps only the entries handled before the stop, and returns their result with one progress event per kept item. It reports whether the flag is still raised at the worker's final poll |
| `Analyzer.OneProgressPerItem` | src/core/analyzer.py:117-123 | There is exactly one progress event per kept item, carrying the listing length and that item's label; a dropped entry emits none |
| `Analyzer.CollectedShape` | src/core/analyzer.py:108-114 | Every kept item is a directory or a file, has the scanned directory as parent and starts with percentage 0 |
| `Analyzer.DirectoryResultTotal` | src/core/analyzer.py:129-141 | A directory result's total is the sum of the sizes of its items |
| `Analyzer.DirectoryResultOrder` | src/core/analyzer.py:130 | A directory result's items are sorted largest first; they are the kept items rearranged, with equal sizes in listing order |
| `Analyzer.DirectoryResultShares` | src/core/analyzer.py:129-134 | Each item's percentage is size / total * 100, or 0 when the total is 0 |
| `Analyzer.PosixDisks` | src/core/analyzer.py:173-199 | The loop lists the disks of the partitions in table order, skipping pseudo-filesystems and partitions whose capacity query fails |
| `Analyzer.PosixDisksDropOnly` | src/core/analyzer.py:180-197 | A partition contributes its own disk or nothing; a pseudo-filesystem or a failing query is dropped without affecting the other partitions |
| `Analyzer.PosixDisksShape` | src/core/analyzer.py:186-194 | Every listed disk is a "disk" item whose size is its used space |
| `Analyzer.WindowsDisksAsWritten` | src/core/analyzer.py:143-171 | The loop as written: after a failing capacity query, `continue` skips the bitmask shift, so the loop tests the next letter against the failed drive's bit |
| `Analyzer.WindowsDisks` | src/core/analyzer.py:151-169 | The loop with the bitmask shifted for every letter |
| `Analyzer.WindowsDisksExact` | src/core/analyzer.py:151-169 | With the shift made for every letter, drive letter j is listed as "X:\" exactly when bit j of the bitmask is set and its capacity query succeeds; each disk carries that query's capacity, in ascending letter order |
| `Analyzer.LaggingBitLosesDrive` | src/core/analyzer.py:167-169 | With drives D:, F: and G: in the bitmask and D: failing its query, the loop as written lists only F:, while the corrected loop lists F: and G: |
| `Analyzer.AnalyzeDisks` | src/core/analyzer.py:60-80 | The disk result lists the platform's disks in enumeration order (unsorted), totals their used space, and gives each its share; its path is "" and its type "disk". On Windows the disks are those of the drive loop as written |
| `Analyzer.DisksResultCorrect` | src/core/analyzer.py:69-80 | The disk result keeps the disks in order with their names and sizes; its total is the sum of its items' sizes, and with a positive total the shares add up to 100 |
| `Analyzer.DiskScanLosesDrive` | src/core/analyzer.py:64-65 | The disk scan uses the drive loop as written, so on the machine of the finding it lists F:\ alone |
| `Analyzer.Run` | src/core/analyzer.py:35-51 | A run stopped before it starts emits nothing. A disk run emits its result exactly when the flag is still up at the final check. A directory run emits the listing error (if any), then one progress event per kept entry handled before the stop, then the directory result of those entries exactly when the flag survives every poll; a result is always the last event |
| `Navigation.AfterNavigate` | src/services/navigation_service.py:11-15 | Navigating makes the path current and pushes the old current path only when there was one |
| `Navigation.AfterBack` | src/services/navigation_service.py:17-24 | Going back pops the top of the history and returns it as the new current path; with an empty history it returns None and resets to the root |
| `Navigation.AfterHome` | src/services/navigation_service.py:26-29 | Going home empties the history and clears the current path |
| `Navigation.PathDisplay` | src/services/navigation_service.py:31-35 | The root text appears exactly when there is no current path; otherwise the text is the prefix followed by the path |
| `Navigation.BackUndoesNavigate` | src/services/navigation_service.py:11-24 | Going back right after navigating away from a path restores the previous state exactly and returns that path |
| `Navigation.BackToRoot` | src/services/navigation_service.py:11-24 | Navigating from the root and going back returns None and lands at the root |
| `Navigation.NavigateAllHistory` | src/services/navigation_service.py:11-15 | After a series of navigations from a path, the history holds the old history, the starting path and every path but the last, in order |
| `Navigation.BackRetracesNavigation` | src/services/navigation_service.py:11-24 | Going back as many times as one navigated returns to the starting state: the history is a stack |
| `Navigation.NavigationService.constructor` | src/services/navigation_service.py:7-9 | A new service is at the root with an empty history |
| `Navigation.NavigationService.NavigateTo` | src/services/navigation_service.py:11-15 | The fields change as AfterNavigate says |
| `Navigation.NavigationService.GoBack` | src/services/navigation_service.py:17-24 | The fields and the returned path are those of AfterBack |
| `Navigation.NavigationService.GoHome` | src/services/navigation_service.py:26-29 | The fields change as AfterHome says |
| `Navigation.NavigationService.CurrentPathDisplay` | src/services/navigation_service.py:31-35 | Returns the path text of the current state |
| `ChartHelpers.PrefixPy` | src/gui/components/chart_widget.py:237 | Python's `s[:n]`: the first n characters when n is in range, the whole text when n is beyond it |
| `ChartHelpers.ShortenText` | src/gui/components/chart_widget.py:234-238 | A text within the limit is kept; a longer one ends in "..." after a prefix of the text, and with a limit of at least 3 it is exactly the limit long |
| `ChartHelpers.StripTrailing` | src/gui/components/chart_widget.py:135 | `rstrip('\\/')`: the result is a prefix that ends in no separator, and only separators were removed |
| `ChartHelpers.Split` | src/gui/components/chart_widget.py:139-141 | Splitting gives at least one piece; no piece contains the separator and none contains a character absent from the text |
| `ChartHelpers.SplitJoins` | src/gui/components/chart_widget.py:139-141 | Joining the pieces of a split with the separator gives back the text |
| `ChartHelpers.LastNonEmpty` | src/gui/components/chart_widget.py:146-148 | The piece found is the last one that is neither empty nor a lone separator; None exactly when every piece is empty or a lone separator |
| `ChartHelpers.ExtractDirectoryName` | src/gui/components/chart_widget.py:129-151 | The empty path gives the unknown-directory text, a path of separators only gives the root text, and no result contains a backslash |
| `ChartHelpers.LastComponent` | src/gui/components/chart_widget.py:135-148 | Once trailing separators are removed, the name is the non-empty text after the last backslash, or after the last '/' when there is no backslash |
| `ChartHelpers.UsersExample` | src/gui/components/chart_widget.py:129-151 | "C:\Users\" gives "Users" |
| `ChartHelpers.SeparatorsOnly` | src/gui/components/chart_widget.py:150-151 | "/" gives the root-directory text |
| `ChartHelpers.DiskRootLabel` | src/gui/components/chart_widget.py:112-118 | The POSIX root is labelled "/"; a drive root by its letter |
| `ChartHelpers.Shown` | src/gui/components/chart_widget.py:63 | At most the first eight items are drawn |
| `ChartHelpers.ChartTitle` | src/gui/components/chart_widget.py:45-127 | An empty result gets the no-data title; drawn items of total size 0 get the nothing-available title; otherwise a disk list gets the disks title, and a disk root gets the title naming its drive |
| `ChartHelpers.RootTitles` | src/gui/components/chart_widget.py:102-118 | "C:\" and "/" are disk roots labelled "C" and "/"; "/home" is not a disk root |
| `ChartHelpers.UnitIndex` | src/gui/components/chart_widget.py:245-247 | The unit index always names one of the five units |
| `ChartHelpers.UnitIndexRange` | src/gui/components/chart_widget.py:245-247 | For k below 4, a positive size uses unit k exactly when it has 3k+1 to 3k+3 decimal digits |
| `ChartHelpers.UnitIndexCap` | src/gui/components/chart_widget.py:246-247 | A positive size uses the last unit exactly when it is at least 10^12 |
| `ChartHelpers.FormatSizeShort` | src/gui/components/chart_widget.py:240-251 | Zero is "0B"; any other size ends in the letter of its unit |
| `ChartHelpers.GetColor` | src/gui/components/chart_widget.py:253-256 | Every colour handed out is one of the configured chart colours |
| `ChartHelpers.ColorsCycle` | src/gui/components/chart_widget.py:253-256 | The colours repeat with the palette's length as period, and the first twenty indices give the palette in order |
| `ChartHelpers.Slices` | src/gui/components/chart_widget.py:57-70 | The pie has min(8, n) slices; slice k has item k's size, colour k and the shortened name over the short size text |
| `MainWindowModel.GesturesIgnoredWhileAnalyzing` | src/gui/main_window.py:107-181 | While a scan runs, clicks, back, home and the start-up timer change nothing: no navigation and no request |
| `MainWindowModel.SignalScans` | src/gui/main_window.py:107-181 | One signal issues at most one scan, and only from an idle window, which it leaves analysing; the finish, error and stop signals never issue one; only they end a running scan |
| `MainWindowModel.OneScanAtATime` | src/gui/main_window.py:107-181 | The window issues a scan only when idle, so over any run of signals the scans requested are at most the end signals (finish, error, stop) seen, plus one for a scan still running at the end, less one for a scan running at the start |
| `MainWindowModel.SignalsKeepValid` | src/gui/main_window.py:112-150 | Every signal keeps the window valid: the progress bar is shown exactly while analysing, stop is visible while analysing, and at the root the history is empty |
| `MainWindowModel.ClickThenFinish` | src/gui/main_window.py:120-170 | Clicking an item in an idle window and letting the scan finish shows its path, enables back and home and records one directory scan; going back then requests the place the click left (the disk list from the root) |
| `MainWindowModel.HomeThenFinish` | src/gui/main_window.py:120-181 | Going home and letting the disk scan finish disables back and home, shows the root label and leaves the navigation at the root |
| `MainWindowModel.MainWindow.constructor` | src/gui/main_window.py:19-29 | A new window is idle at the root with back and home disabled, the root label, the ready status and no requests |
| `MainWindowModel.MainWindow.OnAnalysisStarted` | src/gui/main_window.py:112-118 | Analysing, with progress bar and stop button shown |
| `MainWindowModel.MainWindow.Send` | src/services/analysis_service.py:17-31 | The service records the request and announces the start before returning |
| `MainWindowModel.MainWindow.StartInitialAnalysis` | src/gui/main_window.py:107-110 | A disk scan starts unless one is running |
| `MainWindowModel.MainWindow.OnAnalysisFinished` | src/gui/main_window.py:120-138 | Idle again; back and home are enabled exactly away from the root, and the path label is the navigation's path text |
| `MainWindowModel.MainWindow.OnErrorOccurred` | src/gui/main_window.py:145-150 | Idle again with the error status; the stop button is left as it was |
| `MainWindowModel.MainWindow.StopAnalysis` | src/gui/main_window.py:78-86 | Only a running scan is stopped: one stop request, idle, progress and stop hidden |
| `MainWindowModel.MainWindow.OnItemClicked` | src/gui/main_window.py:152-160 | With an item and no scan running, the window navigates to the item's path and requests its scan; otherwise nothing changes |
| `MainWindowModel.MainWindow.GoBack` | src/gui/main_window.py:162-172 | With no scan running, it pops the navigation and scans the previous path, or the disks when there is none |
| `MainWindowModel.MainWindow.GoHome` | src/gui/main_window.py:174-181 | With no scan running, it resets the navigation and scans the disks |
| `LegacyAnalyzer.FaultAbandonsRest` | root.py:134-141 | In get_folder_size, an entry whose type check or stat raises abandons every entry after it in that listing and keeps the total so far |
| `LegacyAnalyzer.FolderScanInsert` | root.py:135-139 | Before any failure, each entry adds its own size (a file its size, a directory its folder size), hidden or not |
| `LegacyAnalyzer.FolderSizeMatchesIterative` | root.py:131-142 | On a tree with no failing entry and no hidden directory, the legacy folder size equals the iterative calculation |
| `LegacyAnalyzer.FolderSizeUncapped` | root.py:138-139 | There is no depth limit: every level of a chain of nested directories is counted |
| `LegacyAnalyzer.LegacyProcessed` | root.py:103-105 | The loop handles entries while the flag is raised and stops at the first entry at which it is lowered |
| `LegacyAnalyzer.AnalyzeDirectory` | root.py:96-123 | The result holds one record per directory among the entries handled before the stop, in listing order, each with its path and folder size; entry i of those handled reports progress i + 1 |
| `LegacyAnalyzer.OnlyDirectoriesRecorded` | root.py:107-117 | A file or an entry that is not a directory gets no record and does not disturb the others; a directory gets exactly its own |
| `LegacyAnalyzer.DriveLetters` | root.py:53-57 | The loop lists the drive roots the bitmask names, one bit per letter |
| `LegacyAnalyzer.DriveLettersExact` | root.py:53-57 | Drive letter j is listed as "X:\" exactly when bit j is set, in ascending letter order |
| `LegacyWindow.DisplayDirectoryData` | root.py:377-428 | An empty result shows nothing; otherwise the display holds the sorted records, the first ten charted in palette order, and every record listed with its share |
| `LegacyWindow.ChartLoop` | root.py:391-394 | The chart loop takes the first ten sorted records and picks each colour by how many were picked before |
| `LegacyWindow.ListLoop` | root.py:420-428 | Each record gets one row with its share: size / total * 100, or 0 for a zero total |
| `LegacyWindow.DirectoryDisplayCorrect` | root.py:384-424 | The rows list every record once, largest first, equal sizes in listing order. At most ten records are charted: the first rows, none smaller than an uncharted one. The total is the sum of all sizes, and each share is size / total * 100 |
| `LegacyWindow.WedgeColorsInOrder` | root.py:479-487 | The charted wedges take the palette's colours in order |
| `LegacyWindow.BackUndoesClick` | root.py:430-468 | Going back right after entering a row restores the current path and history, that place's label, and scans it (the disk list from the root) |
| `LegacyWindow.BackOnEmptyHistory` | root.py:448-450 | Back on an empty history does nothing |
| `LegacyWindow.BackRetracesClicks` | root.py:430-468 | After entering any number of rows, going back as many times restores the current path and the history |
| `LegacyWindow.LegacyAgreesWithService` | root.py:430-477 | The legacy history, with its root marker, follows the navigation service step for step through clicks, back and home; a non-empty back scans the disk list exactly when the service returns no previous path |
| `LegacyWindow.DiskSpaceAnalyzer.constructor` | root.py:148-153 | A new window is at the disk list with an empty history, back and home disabled, and a disk scan started |
| `LegacyWindow.DiskSpaceAnalyzer.OnItemClicked` | root.py:430-446 | Entering a disk or a directory pushes the current path (None at the disk list) and scans the row; a disk also enables back and home; other rows change nothing |
| `LegacyWindow.DiskSpaceAnalyzer.GoBack` | root.py:448-468 | Back pops the history: a popped root marker returns to the disk list (disabling back and home if the history is empty); any other path is scanned |
| `LegacyWindow.DiskSpaceAnalyzer.GoHome` | root.py:470-477 | Home clears the history, returns to the disk list and scans it |
| `LegacyWindow.DiskSpaceAnalyzer.OnDiskAnalysisFinished` | root.py:312-321 | A finished disk scan clears the current path and history, disables back and home, and shows the root label |

## Left out

- Threads, Qt signals, QTimer delays and `wait` calls are not modelled. The
  stop flag is an input naming the first poll that sees it lowered. Emitted
  signals are an event log. The analysis service records requests and
  announces each start synchronously.
- The analysis service's previous-run cleanup and its start failures are left
  out. So is the analyzer's `stop_analysis`, whose only effect here is the
  lowered flag. The close-event wait is left out too.
- The filesystem is a finite acyclic tree. Symbolic links, cycles, files
  changing during a scan, `RecursionError` and `MemoryError` are not modelled.
- `os.path.join` is modelled on POSIX separators only. The Windows path forms
  appear only in the chart helpers and the drive roots.
- Operating-system queries are inputs: the listing, partitions, drive bitmask
  and capacity queries. `FileUtils.list_directory` is not part of this model.
  Its outcome is a `Listing`: a listing refused for permission or a vanished
  directory is empty, and any other failure is `ListFailed`.
- `run`'s handler for an unexpected exception is left out. No operation of
  the model raises.
- A child directory that cannot be listed appears in a directory result with
  size 0. The code does this because its type check still succeeds; the
  written description says such children are absent, and the model follows
  the code.
- Floating-point arithmetic is replaced by real arithmetic, for example in
  percentages.
- Progress percentages `int((i + 1) / n * 100)` are left as the pair
  (i + 1, n). The legacy progress is i + 1.
- DiskItems.FormatSize: only the exact zero case is stated. The
  logarithm-based scaling and rounding are floating point, given as the
  parameter `scaled`.
- DiskItems.DisplayName: only the label's type-dependent prefix is stated.
  The number formatting (`:.1f`) is the parameter `percent`.
- ChartHelpers.FormatSizeShort: only the unit letter and the zero case are
  stated. The mantissa `round(n / 1024**i, 1)` is the parameter `mantissa`.
- ChartHelpers.ChartTitle: an ordinary directory's title uses
  `os.path.basename`, modelled as the text after the last '/'. Its exact text
  is not stated.
- AnalysisResults.FromDict: a Python dictionary is a `Value` with strings,
  integers, reals, None, lists and nested dictionaries. Python's looser typing
  is not modelled; an ill-typed field is refused rather than stored. Keys
  other than the four a result reads are ignored, as in the code.
- Drawing is not modelled: matplotlib pies, fonts, message boxes, status-bar
  texts beyond the window's status field, and the context menu and clicks on
  the chart. Neither is the navigation bar widget or the list widget's
  rendering.
- MainWindowModel.OneScanAtATime: signals carry no scan identity, so an end
  signal is not matched to its scan. A directory scan whose listing fails
  sends an error and then a finish, and the two count as two end signals; a
  late finish of an earlier scan can therefore arrive while a later one runs,
  and the model does not exclude it.
- `on_progress_updated` only sets the progress bar and status text, and is
  not modelled.
- The exception handler in `on_analysis_finished` is not modelled. Updating
  the chart and the list cannot fail in the model.
- Legacy `analyze_disks` is modelled only as far as its drive-bitmask loop.
  The capacity queries, the Linux partition branch and `display_disk_data` are
  left out, as they repeat the newer analyzer's disk scan.
- Legacy `analyze_directory`: the result dictionary is keyed by name. The
  model keeps a sequence of records in listing order, since a listing has
  unique names.
- Legacy `analyze_directory`: a listing failure other than `PermissionError`
  would propagate out of the thread. The model gives it the same empty result.
- Legacy `display_directory_data`: the chart title, which uses
  `os.path.basename`, and the row texts are not modelled.
- Legacy `on_directory_analysis_finished`, `update_progress` and
  `format_size` are display-only and not modelled.
- `SizeCalculator.format_size` duplicates `DiskItem._format_size` in floating
  point and is not modelled.

## Findings

| source | as written | input that shows it | evidently intended | confidence | as-written member | corrected member |
|---|---|---|---|---|---|---|
| src/core/analyzer.py:151-169 | When a drive's capacity query fails, the `continue` in the exception handler skips `bitmask >>= 1`, so every later letter is tested against the bit of the letter before it | Bitmask 104 (D:, F:, G:), with D: not ready and only F: and G: answering: E: and then F: are tested against D:'s set bit (E: fails, F: is listed), and G: against E:'s clear bit, so the loop lists only F:\ | Every letter is tested against its own bit, so F:\ and G:\ are listed | not executed | `Analyzer.LaggingBitLosesDrive` | `Analyzer.WindowsDisksExact` |

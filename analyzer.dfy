/** The analysis worker (DiskAnalyzer in src/core/analyzer.py): one run lists
    either the disks or the immediate children of one directory, sizes them,
    sorts directory entries by size and annotates every item with its share of
    the total. The worker thread, its signals and the OS queries are inputs
    here: the stop flag is a `Stop`, the emitted signals an event log, the
    directory listing a `Listing` of tree nodes, and the partitions, the drive
    bitmask and the usage queries plain values. */
module Analyzer {
  import opened Wrappers
  import opened FsTree
  import opened DiskItems
  import opened AnalysisResults
  import StableSort
  import SizeCalculator

  // ---------------------------------------------------------------------------
  // Inputs and outputs
  // ---------------------------------------------------------------------------

  /** The running flag as the worker sees it. Its polls are numbered in the
      order the worker makes them; once another thread lowers the flag, every
      later read sees it lowered. */
  datatype Stop = NeverStopped | StoppedAt(poll: nat)

  predicate Running(stop: Stop, poll: nat) {
    stop.NeverStopped? || poll < stop.poll
  }

  /** The signals the worker emits. A progress event carries how many listing
      entries have been handled out of how many, and the label. */
  datatype Event =
    | Progress(done: nat, count: nat, text: string)
    | Error(message: string)
    | Finished(result: AnalysisResult)

  /** The listing of the target directory. A listing refused for lack of
      permission or because the directory vanished is `Entries([])`; any other
      operating-system error is `ListFailed`. */
  datatype Listing = Entries(entries: seq<Node>) | ListFailed(reason: string)

  function ListedEntries(listing: Listing): seq<Node> {
    if listing.Entries? then listing.entries else []
  }

  /** What a capacity query returns. */
  datatype Usage = Usage(total: nat, used: nat, free: nat)

  /** A mounted partition and the outcome of its capacity query. */
  datatype Partition = Partition(mountpoint: string, fstype: string, usage: Option<Usage>)

  /** The operating system's view of the disks: on Windows the logical-drive
      bitmask and the capacity of every drive whose query succeeds (keyed by
      its letter); elsewhere the partition table. */
  datatype Platform = Windows(bitmask: nat, usage: map<char, Usage>) | Posix(partitions: seq<Partition>)

  /** os.path.join for a name taken from a listing (POSIX separators). */
  function Join(dir: string, name: string): string {
    if dir == "" || dir[|dir| - 1] == '/' then dir + name else dir + "/" + name
  }

  // ---------------------------------------------------------------------------
  // Totals and percentages
  // ---------------------------------------------------------------------------

  function SizeKey(d: DiskItem): nat {
    d.size
  }

  /** `sum(item.size for item in items)`. */
  function SumSizes(items: seq<DiskItem>): nat {
    StableSort.SumKeys(items, SizeKey)
  }

  function SumPercentages(items: seq<DiskItem>): real {
    if items == [] then 0.0 else items[0].percentage + SumPercentages(items[1..])
  }

  /** One item's share of `total`, in percent; with a zero total the item keeps
      the percentage it had. */
  function WithPercentage(d: DiskItem, total: nat): DiskItem {
    if total > 0 then d.(percentage := (d.size as real / total as real) * 100.0) else d
  }

  function WithPercentages(items: seq<DiskItem>, total: nat): (r: seq<DiskItem>)
    ensures |r| == |items|
    ensures forall k :: 0 <= k < |r| ==> r[k] == WithPercentage(items[k], total)
  {
    if items == [] then [] else [WithPercentage(items[0], total)] + WithPercentages(items[1..], total)
  }

  /** The loop that sets `item.percentage` on every item in place. */
  method AssignPercentages(items: seq<DiskItem>, total: nat) returns (r: seq<DiskItem>)
    ensures r == WithPercentages(items, total)
  {
    r := items;
    var k := 0;
    while k < |r|
      invariant 0 <= k <= |r| == |items|
      invariant forall j :: 0 <= j < k ==> r[j] == WithPercentage(items[j], total)
      invariant forall j :: k <= j < |r| ==> r[j] == items[j]
    {
      if total > 0 {
        r := r[k := r[k].(percentage := (r[k].size as real / total as real) * 100.0)];
      }
      k := k + 1;
    }
  }

  // ---------------------------------------------------------------------------
  // Directory scan
  // ---------------------------------------------------------------------------

  function DirectoryItem(dir: string, name: string, size: nat, itemType: string): DiskItem {
    NewItem(name, Join(dir, name), size, itemType).(parentPath := Some(dir))
  }

  /** What the loop keeps for one child of `dir`: a directory (listable or not)
      with the iterative size of its subtree, a file with its size; a child
      whose type check or size lookup fails is dropped. */
  function EntryItem(dir: string, e: Node): Option<DiskItem> {
    match e
    case Dir(name, _) => Some(DirectoryItem(dir, name, SizeCalculator.VisibleTotal(e), "directory"))
    case Unlistable(name) => Some(DirectoryItem(dir, name, 0, "directory"))
    case File(name, size) => Some(DirectoryItem(dir, name, size, "file"))
    case _ => None
  }

  /** The items the loop appends for `entries`, in listing order. */
  function Collected(dir: string, entries: seq<Node>): seq<DiskItem> {
    if entries == [] then []
    else
      var e := EntryItem(dir, entries[|entries| - 1]);
      Collected(dir, entries[..|entries| - 1]) + (if e.Some? then [e.value] else [])
  }

  function ProgressLabel(name: string): string {
    "正在分析: " + name
  }

  /** One progress event per kept child, none for a dropped one; `count` is
      the length of the whole listing. */
  function ProgressEvents(dir: string, entries: seq<Node>, count: nat): seq<Event> {
    if entries == [] then []
    else
      var e := entries[|entries| - 1];
      ProgressEvents(dir, entries[..|entries| - 1], count)
        + (if EntryItem(dir, e).Some? then [Progress(|entries|, count, ProgressLabel(e.name))] else [])
  }

  /** How many entries the loop handles before it polls a lowered flag. The
      flag is read once on entry (read 1) and once before entry i (read 2 + i). */
  function Processed(stop: Stop, n: nat): (m: nat)
    ensures m <= n
    ensures forall p :: 2 <= p < 2 + m ==> Running(stop, p)
    ensures m < n ==> !Running(stop, 2 + m)
  {
    match stop
    case NeverStopped => n
    case StoppedAt(p) => if p <= 2 then 0 else if p - 2 < n then p - 2 else n
  }

  /** The result the worker builds from the kept items: the total is their
      sum, the items are sorted by size, largest first (stable), and each one
      carries its share of the total. */
  function DirectoryResult(dir: string, kept: seq<DiskItem>): AnalysisResult {
    var total := SumSizes(kept);
    AnalysisResult(WithPercentages(StableSort.SortDesc(kept, SizeKey), total), total, dir, "directory")
  }

  function ListErrorMessage(dir: string, reason: string): string {
    "无法访问目录: " + dir + " - " + reason
  }

  /** _analyze_directory. Returns the result, the events emitted so far, and
      how many times the running flag was read. Stopped on entry, the result is
      empty with total 0; stopped in the loop, only the entries already handled
      are kept. */
  method AnalyzeDirectory(dir: string, listing: Listing, stop: Stop)
    returns (result: AnalysisResult, events: seq<Event>, polls: nat)
    ensures !Running(stop, 1) ==> result == AnalysisResult([], 0, dir, "directory") && events == []
    ensures Running(stop, 1) ==>
      var entries := ListedEntries(listing);
      var handled := entries[..Processed(stop, |entries|)];
      && result == DirectoryResult(dir, Collected(dir, handled))
      && events == (if listing.ListFailed? then [Error(ListErrorMessage(dir, listing.reason))] else [])
                    + ProgressEvents(dir, handled, |entries|)
    ensures Running(stop, 1 + polls) <==> Running(stop, |ListedEntries(listing)| + 2)
  {
    polls := 1;
    if !Running(stop, 1) {
      return AnalysisResult([], 0, dir, "directory"), [], polls;
    }
    var entries: seq<Node> := [];
    events := [];
    match listing {
      case Entries(es) => entries := es;
      case ListFailed(reason) => events := [Error(ListErrorMessage(dir, reason))];
    }
    var items, progress, handled := ScanEntries(dir, entries, stop);
    events := events + progress;
    polls := polls + handled + (if handled < |entries| then 1 else 0);
    result := Summarise(dir, items);
  }

  /** The loop of _analyze_directory over the listed children: before each
      child it reads the running flag (read 2 + i) and leaves when it is
      lowered; it returns the kept items, their progress events and how many
      children it handled. */
  method ScanEntries(dir: string, entries: seq<Node>, stop: Stop)
    returns (items: seq<DiskItem>, events: seq<Event>, handled: nat)
    ensures handled == Processed(stop, |entries|)
    ensures items == Collected(dir, entries[..handled])
    ensures events == ProgressEvents(dir, entries[..handled], |entries|)
  {
    items, events := [], [];
    var i := 0;
    while i < |entries|
      invariant 0 <= i <= |entries|
      invariant forall p :: 2 <= p < 2 + i ==> Running(stop, p)
      invariant items == Collected(dir, entries[..i])
      invariant events == ProgressEvents(dir, entries[..i], |entries|)
    {
      if !Running(stop, 2 + i) {
        break;
      }
      var entry := entries[i];
      assert entries[..i + 1][..i] == entries[..i];
      var kept := HandleEntry(dir, entry);
      if kept.Some? {
        items := items + [kept.value];
        events := events + [Progress(i + 1, |entries|, ProgressLabel(entry.name))];
      }
      i := i + 1;
    }
    handled := i;
  }

  /** The body of the loop for one child: a directory is measured with the
      iterative size calculation, a file keeps its size. */
  method HandleEntry(dir: string, entry: Node) returns (kept: Option<DiskItem>)
    ensures kept == EntryItem(dir, entry)
  {
    kept := None;
    match entry {
      case Dir(name, _) =>
        var size, _ := SizeCalculator.DirectorySizeIterative(entry);
        kept := Some(DirectoryItem(dir, name, size, "directory"));
      case Unlistable(name) =>
        var size, _ := SizeCalculator.DirectorySizeIterative(entry);
        kept := Some(DirectoryItem(dir, name, size, "directory"));
      case File(name, size) =>
        kept := Some(DirectoryItem(dir, name, size, "file"));
      case BadType(_) =>
      case BadStat(_) =>
    }
  }

  /** After the loop: total the kept items, sort them and assign the shares. */
  method Summarise(dir: string, items: seq<DiskItem>) returns (result: AnalysisResult)
    ensures result == DirectoryResult(dir, items)
  {
    var total := SumSizes(items);
    var sorted := StableSort.SortDesc(items, SizeKey);
    var withShares := AssignPercentages(sorted, total);
    result := AnalysisResult(withShares, total, dir, "directory");
  }

  // ---------------------------------------------------------------------------
  // Disk scan
  // ---------------------------------------------------------------------------

  function DiskItemFor(name: string, u: Usage): DiskItem {
    NewItem(name, name, u.used, "disk").(totalSize := u.total, usedSize := u.used, freeSize := u.free)
  }

  const PseudoFsTypes: seq<string> := ["squashfs", "tmpfs", "devtmpfs"]

  /** The disk one partition contributes: none for a pseudo-filesystem or for
      a failing capacity query. */
  function PartitionDisk(p: Partition): Option<DiskItem> {
    if p.fstype in PseudoFsTypes || p.usage.None? then None
    else Some(DiskItemFor(p.mountpoint, p.usage.value))
  }

  function PosixDisksSpec(ps: seq<Partition>): seq<DiskItem> {
    if ps == [] then []
    else
      var d := PartitionDisk(ps[|ps| - 1]);
      PosixDisksSpec(ps[..|ps| - 1]) + (if d.Some? then [d.value] else [])
  }

  /** _get_linux_disks. */
  method PosixDisks(partitions: seq<Partition>) returns (disks: seq<DiskItem>)
    ensures disks == PosixDisksSpec(partitions)
  {
    disks := [];
    for i := 0 to |partitions|
      invariant disks == PosixDisksSpec(partitions[..i])
    {
      assert partitions[..i + 1][..i] == partitions[..i];
      var p := partitions[i];
      if p.fstype in PseudoFsTypes {
        continue;
      }
      match p.usage {
        case None =>
        case Some(u) => disks := disks + [DiskItemFor(p.mountpoint, u)];
      }
    }
    assert partitions[..|partitions|] == partitions;
  }

  /** Letter number k, 'A' + k. */
  function Letter(k: nat): char
    requires k < 26
  {
    (65 + k) as char
  }

  function DriveRoot(c: char): string {
    [c, ':', '\\']
  }

  /** The disk for drive letter k when its query succeeds. */
  function DriveDisk(k: nat, usage: map<char, Usage>): Option<DiskItem>
    requires k < 26
  {
    if Letter(k) in usage then Some(DiskItemFor(DriveRoot(Letter(k)), usage[Letter(k)])) else None
  }

  /** The letters from k on, as the loop of _get_windows_disks is written:
      when a drive's query fails, `continue` skips the shift of the bitmask,
      so every later letter is tested against a bit that lags behind it. */
  function WindowsScanAsWritten(mask: nat, k: nat, usage: map<char, Usage>): seq<DiskItem>
    requires k <= 26
    decreases 26 - k
  {
    if k == 26 then []
    else if mask % 2 == 1 then
      match DriveDisk(k, usage)
      case Some(d) => [d] + WindowsScanAsWritten(mask / 2, k + 1, usage)
      case None => WindowsScanAsWritten(mask, k + 1, usage)
    else WindowsScanAsWritten(mask / 2, k + 1, usage)
  }

  /** The same loop with the shift made for every letter. */
  function WindowsScan(mask: nat, k: nat, usage: map<char, Usage>): seq<DiskItem>
    requires k <= 26
    decreases 26 - k
  {
    if k == 26 then []
    else if mask % 2 == 1 && DriveDisk(k, usage).Some? then [DriveDisk(k, usage).value] + WindowsScan(mask / 2, k + 1, usage)
    else WindowsScan(mask / 2, k + 1, usage)
  }

  /** _get_windows_disks as written. */
  method WindowsDisksAsWritten(bitmask: nat, usage: map<char, Usage>) returns (disks: seq<DiskItem>)
    ensures disks == WindowsScanAsWritten(bitmask, 0, usage)
  {
    disks := [];
    var mask := bitmask;
    var k := 0;
    while k < 26
      invariant 0 <= k <= 26
      invariant disks + WindowsScanAsWritten(mask, k, usage) == WindowsScanAsWritten(bitmask, 0, usage)
    {
      if mask % 2 == 1 {
        var c := Letter(k);
        if c in usage {
          disks := disks + [DiskItemFor(DriveRoot(c), usage[c])];
        } else {
          k := k + 1;
          continue;
        }
      }
      mask := mask / 2;
      k := k + 1;
    }
  }

  /** _get_windows_disks with the bitmask shifted for every letter. */
  method WindowsDisks(bitmask: nat, usage: map<char, Usage>) returns (disks: seq<DiskItem>)
    ensures disks == WindowsScan(bitmask, 0, usage)
  {
    disks := [];
    var mask := bitmask;
    var k := 0;
    while k < 26
      invariant 0 <= k <= 26
      invariant disks + WindowsScan(mask, k, usage) == WindowsScan(bitmask, 0, usage)
    {
      var here := if mask % 2 == 1 then DriveDisk(k, usage) else None;
      if here.Some? {
        disks := disks + [here.value];
      }
      mask := mask / 2;
      k := k + 1;
    }
  }

  /** The disks _analyze_disks lists: on Windows by the drive loop as it is
      written, elsewhere from the partition table. */
  function Disks(platform: Platform): seq<DiskItem> {
    match platform
    case Windows(bitmask, usage) => WindowsScanAsWritten(bitmask, 0, usage)
    case Posix(ps) => PosixDisksSpec(ps)
  }

  /** The disk result: disks in enumeration order (not sorted), total the sum
      of their used sizes, path "" and type "disk". */
  function DisksResult(disks: seq<DiskItem>): AnalysisResult {
    var total := SumSizes(disks);
    AnalysisResult(WithPercentages(disks, total), total, "", "disk")
  }

  /** _analyze_disks. */
  method AnalyzeDisks(platform: Platform) returns (result: AnalysisResult)
    ensures result == DisksResult(Disks(platform))
  {
    var disks: seq<DiskItem>;
    match platform {
      case Windows(bitmask, usage) => disks := WindowsDisksAsWritten(bitmask, usage);
      case Posix(ps) => disks := PosixDisks(ps);
    }
    var total := SumSizes(disks);
    var withShares := AssignPercentages(disks, total);
    result := AnalysisResult(withShares, total, "", "disk");
  }

  /** The disk result keeps the disks in order with their sizes, its total is
      the sum of its items' sizes, and with a positive total the shares add up
      to 100. */
  lemma DisksResultCorrect(disks: seq<DiskItem>)
    ensures var r := DisksResult(disks);
            && |r.items| == |disks|
            && (forall k :: 0 <= k < |disks| ==> r.items[k].name == disks[k].name && r.items[k].size == disks[k].size)
            && r.totalSize == SumSizes(r.items)
            && (r.totalSize > 0 ==> SumPercentages(r.items) == 100.0)
  {
    SharesKeepSizes(disks, SumSizes(disks));
    PercentagesAddUp(disks);
  }

  // ---------------------------------------------------------------------------
  // One run of the worker
  // ---------------------------------------------------------------------------

  predicate HasFinished(events: seq<Event>) {
    exists k :: 0 <= k < |events| && events[k].Finished?
  }

  /** run: polls the flag (read 0), scans the disks when there is no target
      path and the directory otherwise, and emits the result only if the flag
      is still up when it is read once more. A run stopped at any point before
      that last read emits no result; a finished result is the last event. */
  method Run(target: Option<string>, listing: Listing, platform: Platform, stop: Stop)
    returns (events: seq<Event>)
    ensures !Running(stop, 0) ==> events == []
    ensures target.None? ==> events == (if Running(stop, 1) then [Finished(DisksResult(Disks(platform)))] else [])
    ensures target.Some? ==> (HasFinished(events) <==> Running(stop, |ListedEntries(listing)| + 2))
    ensures target.Some? && !Running(stop, 1) ==> events == []
    ensures target.Some? && Running(stop, 1) ==>
      var dir := target.value;
      var entries := ListedEntries(listing);
      var handled := entries[..Processed(stop, |entries|)];
      events == (if listing.ListFailed? then [Error(ListErrorMessage(dir, listing.reason))] else [])
                + ProgressEvents(dir, handled, |entries|)
                + (if Running(stop, |entries| + 2) then [Finished(DirectoryResult(dir, Collected(dir, handled)))] else [])
    ensures forall k :: 0 <= k < |events| - 1 ==> !events[k].Finished?
  {
    if !Running(stop, 0) {
      return [];
    }
    var result: AnalysisResult;
    var guard: nat;
    match target {
      case None =>
        result := AnalyzeDisks(platform);
        events := [];
        guard := 1;
      case Some(dir) =>
        var polls;
        result, events, polls := AnalyzeDirectory(dir, listing, stop);
        guard := 1 + polls;
        assert forall k :: 0 <= k < |events| ==> !events[k].Finished?
          by { ProgressEventsAreProgress(dir, ListedEntries(listing)[..Processed(stop, |ListedEntries(listing)|)],
                                         |ListedEntries(listing)|); }
    }
    if Running(stop, guard) {
      events := events + [Finished(result)];
      assert events[|events| - 1].Finished?;
    }
  }

  // ---------------------------------------------------------------------------
  // Lemmas
  // ---------------------------------------------------------------------------

  lemma {:induction false} ProgressEventsAreProgress(dir: string, entries: seq<Node>, count: nat)
    ensures forall k :: 0 <= k < |ProgressEvents(dir, entries, count)| ==> ProgressEvents(dir, entries, count)[k].Progress?
    decreases |entries|
  {
    if entries != [] {
      ProgressEventsAreProgress(dir, entries[..|entries| - 1], count);
    }
  }

  /** A child dropped for a failing check emits no progress: there is exactly
      one progress event per kept item, naming it. */
  lemma {:induction false} OneProgressPerItem(dir: string, entries: seq<Node>, count: nat)
    ensures |ProgressEvents(dir, entries, count)| == |Collected(dir, entries)|
    ensures forall k :: 0 <= k < |Collected(dir, entries)| ==>
              && ProgressEvents(dir, entries, count)[k].Progress?
              && ProgressEvents(dir, entries, count)[k].count == count
              && ProgressEvents(dir, entries, count)[k].text == ProgressLabel(Collected(dir, entries)[k].name)
    decreases |entries|
  {
    if entries != [] {
      OneProgressPerItem(dir, entries[..|entries| - 1], count);
    }
  }

  lemma {:induction false} SharesScale(items: seq<DiskItem>, total: nat)
    requires total > 0
    ensures SumPercentages(WithPercentages(items, total)) == (SumSizes(items) as real / total as real) * 100.0
    decreases |items|
  {
    if items != [] {
      SharesScale(items[1..], total);
      assert WithPercentages(items, total)[1..] == WithPercentages(items[1..], total);
      var t := total as real;
      var a, b := items[0].size as real, SumSizes(items[1..]) as real;
      SharesAdd(a, b, t);
    }
  }

  lemma SharesAdd(a: real, b: real, t: real)
    requires t > 0.0
    ensures (a / t) * 100.0 + (b / t) * 100.0 == ((a + b) / t) * 100.0
  {
    var x, y, z := a / t, b / t, (a + b) / t;
    assert x * t == a && y * t == b && z * t == a + b;
    assert (x + y) * t == z * t;
    assert x + y == z;
  }

  /** When the total is positive the shares add up to exactly 100 (real
      arithmetic); when it is 0 every item keeps its default 0. */
  lemma PercentagesAddUp(items: seq<DiskItem>)
    ensures SumSizes(items) > 0 ==> SumPercentages(WithPercentages(items, SumSizes(items))) == 100.0
    ensures SumSizes(items) == 0 ==> WithPercentages(items, 0) == items
  {
    var total := SumSizes(items);
    if total > 0 {
      SharesScale(items, total);
      var t := total as real;
      assert t / t == 1.0;
    } else {
      assert forall k :: 0 <= k < |items| ==> WithPercentages(items, 0)[k] == items[k];
    }
  }

  lemma {:induction false} CollectedShape(dir: string, entries: seq<Node>)
    ensures forall k :: 0 <= k < |Collected(dir, entries)| ==>
              var d := Collected(dir, entries)[k];
              && d.percentage == 0.0 && d.parentPath == Some(dir)
              && (d.itemType == "directory" || d.itemType == "file")
    decreases |entries|
  {
    if entries != [] {
      CollectedShape(dir, entries[..|entries| - 1]);
    }
  }

  /** A directory result's total is the sum of its items' sizes. */
  lemma DirectoryResultTotal(dir: string, kept: seq<DiskItem>)
    ensures DirectoryResult(dir, kept).totalSize == SumSizes(DirectoryResult(dir, kept).items)
  {
    StableSort.SortKeepsSum(kept, SizeKey);
    SharesKeepSizes(StableSort.SortDesc(kept, SizeKey), SumSizes(kept));
  }

  /** The items are sorted by size, largest first; they are the kept items
      rearranged, and items of equal size keep their listing order. */
  lemma DirectoryResultOrder(dir: string, kept: seq<DiskItem>)
    ensures StableSort.SortedDesc(DirectoryResult(dir, kept).items, SizeKey)
    ensures multiset(StableSort.SortDesc(kept, SizeKey)) == multiset(kept)
    ensures forall v :: StableSort.WithKey(StableSort.SortDesc(kept, SizeKey), SizeKey, v)
                        == StableSort.WithKey(kept, SizeKey, v)
  {
    StableSort.SortDescCorrect(kept, SizeKey);
  }

  /** Each item's share is size / total * 100, or 0 when the total is 0. */
  lemma DirectoryResultShares(dir: string, entries: seq<Node>)
    ensures var r := DirectoryResult(dir, Collected(dir, entries));
            forall k :: 0 <= k < |r.items| ==>
              r.items[k].percentage ==
                if r.totalSize > 0 then (r.items[k].size as real / r.totalSize as real) * 100.0 else 0.0
  {
    var kept := Collected(dir, entries);
    var sorted := StableSort.SortDesc(kept, SizeKey);
    StableSort.SortDescCorrect(kept, SizeKey);
    CollectedShape(dir, entries);
    forall k | 0 <= k < |sorted| ensures sorted[k].percentage == 0.0 {
      assert sorted[k] in multiset(kept);
    }
  }

  lemma {:induction false} SharesKeepSizes(items: seq<DiskItem>, total: nat)
    ensures SumSizes(WithPercentages(items, total)) == SumSizes(items)
    decreases |items|
  {
    if items != [] {
      SharesKeepSizes(items[1..], total);
      assert WithPercentages(items, total)[1..] == WithPercentages(items[1..], total);
    }
  }

  /** Every disk is a 'disk' item whose size is its used space; disks keep
      the order of the partition table; a pseudo-filesystem or a partition
      whose capacity query fails is dropped without affecting the others. */
  lemma PosixDisksDropOnly(a: seq<Partition>, p: Partition, b: seq<Partition>)
    ensures PosixDisksSpec(a + [p] + b)
            == PosixDisksSpec(a) + (if PartitionDisk(p).Some? then [PartitionDisk(p).value] else []) + PosixDisksSpec(b)
    ensures p.fstype in PseudoFsTypes || p.usage.None? ==> PosixDisksSpec(a + [p] + b) == PosixDisksSpec(a + b)
  {
    PosixAppend(a + [p], b);
    PosixAppend(a, [p]);
    PosixAppend(a, b);
    assert [p][..0] == [];
  }

  lemma {:induction false} PosixAppend(a: seq<Partition>, b: seq<Partition>)
    ensures PosixDisksSpec(a + b) == PosixDisksSpec(a) + PosixDisksSpec(b)
    decreases |b|
  {
    if b == [] {
      assert a + b == a;
    } else {
      assert (a + b)[..|a + b| - 1] == a + b[..|b| - 1];
      PosixAppend(a, b[..|b| - 1]);
    }
  }

  lemma {:induction false} PosixDisksShape(ps: seq<Partition>)
    ensures forall k :: 0 <= k < |PosixDisksSpec(ps)| ==>
              var d := PosixDisksSpec(ps)[k];
              d.itemType == "disk" && d.size == d.usedSize
    decreases |ps|
  {
    if ps != [] {
      PosixDisksShape(ps[..|ps| - 1]);
    }
  }

  /** The mask shifted right k times, `mask >> k`. */
  function Shift(mask: nat, k: nat): nat {
    if k == 0 then mask else Shift(mask / 2, k - 1)
  }

  /** Bit k of the mask. */
  predicate Bit(mask: nat, k: nat) {
    Shift(mask, k) % 2 == 1
  }

  lemma {:induction false} ShiftStep(mask: nat, k: nat)
    ensures Shift(mask, k + 1) == Shift(mask, k) / 2
    decreases k
  {
    if k > 0 {
      ShiftStep(mask / 2, k - 1);
    }
  }

  /** Some disk of `r` is the drive with root `root`. */
  predicate Lists(r: seq<DiskItem>, root: string) {
    exists i :: 0 <= i < |r| && r[i].name == root
  }

  /** Every disk of `r` is the root of a drive from letter k on whose query
      succeeded, with that query's capacity. */
  predicate DrivesFrom(r: seq<DiskItem>, k: nat, usage: map<char, Usage>) {
    forall i :: 0 <= i < |r| ==>
      && |r[i].name| == 3 && 65 + k <= r[i].name[0] as int < 91
      && r[i].name[0] in usage && r[i] == DiskItemFor(r[i].name, usage[r[i].name[0]])
  }

  predicate LettersAscend(r: seq<DiskItem>) {
    forall i, i' :: 0 <= i < i' < |r| && |r[i].name| > 0 && |r[i'].name| > 0 ==> r[i].name[0] < r[i'].name[0]
  }

  /** With the shift made for every letter, the drive of letter j appears
      exactly when bit j of the bitmask is set and the drive's query succeeds
      (stated from letter k on, for the mask shifted k times). */
  lemma {:induction false} WindowsScanExact(bitmask: nat, k: nat, usage: map<char, Usage>)
    requires k <= 26
    ensures forall j :: k <= j < 26 ==>
              (Lists(WindowsScan(Shift(bitmask, k), k, usage), DriveRoot(Letter(j))) <==>
               Bit(bitmask, j) && Letter(j) in usage)
    decreases 26 - k
  {
    if k < 26 {
      var mask := Shift(bitmask, k);
      ShiftStep(bitmask, k);
      var rest := WindowsScan(mask / 2, k + 1, usage);
      var r := WindowsScan(mask, k, usage);
      WindowsScanExact(bitmask, k + 1, usage);
      WindowsScanShape(mask / 2, k + 1, usage);
      var head := mask % 2 == 1 && DriveDisk(k, usage).Some?;
      if head {
        assert r == [DriveDisk(k, usage).value] + rest;
        assert r[0].name == DriveRoot(Letter(k));
      } else {
        assert r == rest;
      }
      forall j | k <= j < 26
        ensures Lists(r, DriveRoot(Letter(j))) <==> Bit(bitmask, j) && Letter(j) in usage
      {
        var name := DriveRoot(Letter(j));
        if j == k {
          if !head {
            forall i | 0 <= i < |r| ensures r[i].name != name {
              assert rest[i].name[0] as int > 65 + k;
            }
          } else {
            assert r[0].name == name;
          }
        } else {
          assert Lists(rest, name) <==> Bit(bitmask, j) && Letter(j) in usage;
          if head {
            assert r[0].name != name by {
              assert r[0].name[0] == Letter(k) != Letter(j);
            }
            if Lists(r, name) {
              var i :| 0 <= i < |r| && r[i].name == name;
              assert rest[i - 1].name == name;
            }
            if Lists(rest, name) {
              var i :| 0 <= i < |rest| && rest[i].name == name;
              assert r[i + 1].name == name;
            }
          }
        }
      }
    }
  }

  /** Every disk of the scan from letter k is the root of a drive at or after
      k whose query succeeded, and the letters ascend. */
  lemma {:induction false} WindowsScanShape(mask: nat, k: nat, usage: map<char, Usage>)
    requires k <= 26
    ensures DrivesFrom(WindowsScan(mask, k, usage), k, usage)
    ensures LettersAscend(WindowsScan(mask, k, usage))
    decreases 26 - k
  {
    if k < 26 {
      WindowsScanShape(mask / 2, k + 1, usage);
      var rest := WindowsScan(mask / 2, k + 1, usage);
      var r := WindowsScan(mask, k, usage);
      if mask % 2 == 1 && DriveDisk(k, usage).Some? {
        assert r == [DriveDisk(k, usage).value] + rest;
        assert r[0].name == DriveRoot(Letter(k));
        forall i | 0 < i < |r| ensures r[i] == rest[i - 1] { }
      } else {
        assert r == rest;
      }
    }
  }

  /** The corrected decoding: drive letter j (A = 0, ..., Z = 25) is listed,
      as "X:\\", exactly when bit j of the bitmask is set and its capacity query
      succeeds; the disks carry that capacity and ascend by letter. */
  lemma WindowsDisksExact(bitmask: nat, usage: map<char, Usage>)
    ensures forall j :: 0 <= j < 26 ==>
              (Lists(WindowsScan(bitmask, 0, usage), DriveRoot(Letter(j))) <==> Bit(bitmask, j) && Letter(j) in usage)
    ensures DrivesFrom(WindowsScan(bitmask, 0, usage), 0, usage)
    ensures LettersAscend(WindowsScan(bitmask, 0, usage))
  {
    WindowsScanExact(bitmask, 0, usage);
    WindowsScanShape(bitmask, 0, usage);
  }

  /** No drive from letter k on answers: both loops list nothing more. */
  lemma {:induction false} NoDrivesLeft(mask: nat, k: nat, usage: map<char, Usage>)
    requires k <= 26
    requires forall j :: k <= j < 26 ==> Letter(j) !in usage
    ensures WindowsScanAsWritten(mask, k, usage) == []
    ensures WindowsScan(mask, k, usage) == []
    decreases 26 - k
  {
    if k < 26 {
      NoDrivesLeft(mask, k + 1, usage);
      NoDrivesLeft(mask / 2, k + 1, usage);
    }
  }

  /** Drives F: and G: answer their capacity query; every other letter fails. */
  function ExampleUsage(u: Usage): map<char, Usage> {
    map['F' := u, 'G' := u]
  }

  /** The loop as written loses a drive: with drives D:, F: and G: present in
      the bitmask (104), D: not ready (its query fails) and E: absent, the
      lagging bit makes the loop test G: against a clear bit, so G: is never
      listed; the corrected loop lists F: and G:. */
  lemma LaggingBitLosesDrive(u: Usage)
    ensures Bit(104, 3) && !Bit(104, 4) && Bit(104, 5) && Bit(104, 6)
    ensures WindowsScanAsWritten(104, 0, ExampleUsage(u)) == [DiskItemFor("F:\\", u)]
    ensures WindowsScan(104, 0, ExampleUsage(u)) == [DiskItemFor("F:\\", u), DiskItemFor("G:\\", u)]
  {
    AsWrittenExample(u);
    CorrectedExample(u);
  }

  /** The disk scan inherits the lost drive: on that machine it lists F:
      alone. */
  lemma DiskScanLosesDrive(u: Usage)
    ensures Disks(Windows(104, ExampleUsage(u))) == [DiskItemFor("F:\\", u)]
  {
    AsWrittenExample(u);
  }

  lemma ExampleLetters(u: Usage)
    ensures Letter(3) == 'D' && Letter(4) == 'E' && Letter(5) == 'F' && Letter(6) == 'G'
    ensures forall j :: 7 <= j < 26 ==> Letter(j) !in ExampleUsage(u)
  {
    forall j | 7 <= j < 26 ensures Letter(j) !in ExampleUsage(u) {
      assert Letter(j) != 'F' && Letter(j) != 'G';
    }
  }

  lemma AsWrittenExample(u: Usage)
    ensures WindowsScanAsWritten(104, 0, ExampleUsage(u)) == [DiskItemFor("F:\\", u)]
  {
    var usage := ExampleUsage(u);
    ExampleLetters(u);
    NoDrivesLeft(3, 7, usage);
    assert WindowsScanAsWritten(104, 0, usage) == WindowsScanAsWritten(13, 3, usage);
    assert WindowsScanAsWritten(13, 3, usage) == WindowsScanAsWritten(13, 5, usage);
    assert WindowsScanAsWritten(13, 5, usage) == [DiskItemFor("F:\\", u)] + WindowsScanAsWritten(6, 6, usage);
    assert WindowsScanAsWritten(6, 6, usage) == WindowsScanAsWritten(3, 7, usage);
  }

  lemma CorrectedExample(u: Usage)
    ensures WindowsScan(104, 0, ExampleUsage(u)) == [DiskItemFor("F:\\", u), DiskItemFor("G:\\", u)]
  {
    var usage := ExampleUsage(u);
    ExampleLetters(u);
    NoDrivesLeft(0, 7, usage);
    assert WindowsScan(104, 0, usage) == WindowsScan(13, 3, usage);
    assert WindowsScan(13, 3, usage) == WindowsScan(3, 5, usage);
    assert WindowsScan(3, 5, usage) == [DiskItemFor("F:\\", u), DiskItemFor("G:\\", u)] + WindowsScan(0, 7, usage);
  }
}

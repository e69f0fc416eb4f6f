/** The analysis thread of the first, single-file version of the tool
    (root.py, class DiskAnalyzer): the recursive folder size, the directory
    scan that records subdirectories only, and the decoding of the Windows
    logical-drive bitmask. */
module LegacyAnalyzer {
  import opened FsTree
  import SizeCalculator
  import opened Analyzer

  // ---------------------------------------------------------------------------
  // get_folder_size
  // ---------------------------------------------------------------------------

  /** get_folder_size on a directory: the sizes of the files at every depth,
      hidden or not, with no depth limit. A directory that cannot be listed,
      or an entry that is not a directory, gives 0. */
  function FolderSize(n: Node): nat {
    match n
    case Dir(_, cs) => FolderScan(cs)
    case _ => 0
  }

  /** The loop over one listing. A file adds its size and a directory its
      folder size; a failing type check or stat is caught only by the handler
      around the whole listing, so the rest of the listing is abandoned and
      the total so far is kept. A subdirectory that cannot be listed adds 0
      (its own call catches the failure). */
  function FolderScan(cs: seq<Node>): nat {
    if cs == [] then 0
    else match cs[0]
      case File(_, size) => size + FolderScan(cs[1..])
      case Dir(_, _) => FolderSize(cs[0]) + FolderScan(cs[1..])
      case Unlistable(_) => FolderScan(cs[1..])
      case BadType(_) => 0
      case BadStat(_) => 0
  }

  /** The entries whose inspection raises inside get_folder_size's loop. */
  predicate Fault(e: Node) {
    e.BadType? || e.BadStat?
  }

  /** What one entry that does not fault adds to the folder size. */
  function EntrySize(e: Node): nat {
    match e
    case File(_, size) => size
    case _ => FolderSize(e)
  }

  /** An entry that faults abandons everything listed after it, whatever it
      is; what was listed before it is kept. */
  lemma {:induction false} FaultAbandonsRest(a: seq<Node>, f: Node, b: seq<Node>)
    requires Fault(f)
    requires forall i :: 0 <= i < |a| ==> !Fault(a[i])
    ensures FolderScan(a + [f] + b) == FolderScan(a)
    decreases |a|
  {
    if a == [] {
      assert a + [f] + b == [f] + b;
    } else {
      assert (a + [f] + b)[0] == a[0];
      assert (a + [f] + b)[1..] == a[1..] + [f] + b;
      FaultAbandonsRest(a[1..], f, b);
    }
  }

  /** Before any fault, the total is additive: an entry that does not fault
      adds its own size, hidden or not, between what comes before and after. */
  lemma {:induction false} FolderScanInsert(a: seq<Node>, e: Node, b: seq<Node>)
    requires !Fault(e)
    requires forall i :: 0 <= i < |a| ==> !Fault(a[i])
    ensures FolderScan(a + [e] + b) == FolderScan(a) + EntrySize(e) + FolderScan(b)
    decreases |a|
  {
    if a == [] {
      assert a + [e] + b == [e] + b;
      assert ([e] + b)[1..] == b;
    } else {
      assert (a + [e] + b)[0] == a[0];
      assert (a + [e] + b)[1..] == a[1..] + [e] + b;
      FolderScanInsert(a[1..], e, b);
    }
  }

  /** No entry below `n` faults and no directory below `n` is hidden. */
  predicate Clean(n: Node) {
    match n
    case Dir(_, cs) =>
      forall i :: 0 <= i < |cs| ==> !Fault(cs[i]) && !(cs[i].Dir? && Hidden(cs[i].name)) && Clean(cs[i])
    case _ => true
  }

  /** On a tree where nothing faults and no directory is hidden, the legacy
      folder size equals the iterative calculation. */
  lemma {:induction false} FolderSizeMatchesIterative(n: Node)
    requires Clean(n)
    ensures FolderSize(n) == SizeCalculator.VisibleTotal(n)
    decreases n, 1
  {
    match n {
      case Dir(_, cs) => FolderScanMatches(cs);
      case _ =>
    }
  }

  lemma {:induction false} FolderScanMatches(cs: seq<Node>)
    requires forall i :: 0 <= i < |cs| ==> !Fault(cs[i]) && !(cs[i].Dir? && Hidden(cs[i].name)) && Clean(cs[i])
    ensures FolderScan(cs) == SizeCalculator.ContributionAll(cs)
    decreases cs, 0
  {
    if cs != [] {
      SizeCalculator.ContributionAllFront(cs);
      assert forall i :: 0 <= i < |cs[1..]| ==> cs[1..][i] == cs[i + 1];
      FolderScanMatches(cs[1..]);
      var e := cs[0];
      assert Clean(e);
      match e {
        case Dir(_, _) => FolderSizeMatchesIterative(e);
        case _ =>
      }
    }
  }

  /** There is no depth limit: every level of a chain of nested directories
      is counted, where the depth-capped calculation stops after 101 levels. */
  lemma {:induction false} FolderSizeUncapped(k: nat)
    ensures FolderSize(SizeCalculator.Chain(k)) == k + 1
  {
    var cs := SizeCalculator.Chain(k).children;
    if k > 0 {
      FolderSizeUncapped(k - 1);
      assert cs[1..][1..] == [];
      assert FolderScan(cs[1..]) == FolderSize(SizeCalculator.Chain(k - 1)) + FolderScan(cs[1..][1..]);
    }
  }

  // ---------------------------------------------------------------------------
  // analyze_directory
  // ---------------------------------------------------------------------------

  /** One entry of the result dictionary: the key (the child's name), its path
      and its folder size. */
  datatype Record = Record(name: string, path: string, size: nat)

  function RecordFor(dir: string, e: Node): Record {
    Record(e.name, Join(dir, e.name), FolderSize(e))
  }

  /** The records for `entries`, in listing order: one per directory (listable
      or not), none for anything else. */
  function Recorded(dir: string, entries: seq<Node>): seq<Record> {
    if entries == [] then []
    else
      var e := entries[|entries| - 1];
      Recorded(dir, entries[..|entries| - 1]) + (if IsDirectory(e) then [RecordFor(dir, e)] else [])
  }

  /** How many entries the loop handles: the running flag is read before
      entry i (read i). */
  function LegacyProcessed(stop: Stop, n: nat): (m: nat)
    ensures m <= n
    ensures forall p :: 0 <= p < m ==> Running(stop, p)
    ensures m < n ==> !Running(stop, m)
  {
    match stop
    case NeverStopped => n
    case StoppedAt(p) => if p < n then p else n
  }

  /** analyze_directory: the records of the directories among the entries
      handled before the flag was lowered, and one progress step per handled
      entry, file or directory (entry i reports i + 1 of the listing's
      length). A listing that fails gives an empty result. */
  method AnalyzeDirectory(dir: string, listing: Listing, stop: Stop)
    returns (result: seq<Record>, progress: seq<nat>)
    ensures var es := ListedEntries(listing);
            var m := LegacyProcessed(stop, |es|);
            && result == Recorded(dir, es[..m])
            && |progress| == m
            && forall k :: 0 <= k < m ==> progress[k] == k + 1
  {
    result, progress := [], [];
    var items := ListedEntries(listing);
    var i := 0;
    while i < |items|
      invariant 0 <= i <= |items|
      invariant forall p :: 0 <= p < i ==> Running(stop, p)
      invariant result == Recorded(dir, items[..i])
      invariant |progress| == i && forall k :: 0 <= k < i ==> progress[k] == k + 1
    {
      if !Running(stop, i) {
        break;
      }
      var item := items[i];
      assert items[..i + 1][..i] == items[..i];
      if IsDirectory(item) {
        result := result + [RecordFor(dir, item)];
      }
      progress := progress + [i + 1];
      i := i + 1;
    }
  }

  /** Recording is additive over a listing split in two. */
  lemma {:induction false} RecordedAppend(dir: string, a: seq<Node>, b: seq<Node>)
    ensures Recorded(dir, a + b) == Recorded(dir, a) + Recorded(dir, b)
    decreases |b|
  {
    if b == [] {
      assert a + b == a;
    } else {
      var b' := b[..|b| - 1];
      assert (a + b)[..|a + b| - 1] == a + b';
      RecordedAppend(dir, a, b');
    }
  }

  /** A file, or an entry whose type check fails, never gets a record and
      does not disturb the others; a directory gets exactly its own. */
  lemma OnlyDirectoriesRecorded(dir: string, a: seq<Node>, e: Node, b: seq<Node>)
    ensures !IsDirectory(e) ==> Recorded(dir, a + [e] + b) == Recorded(dir, a + b)
    ensures IsDirectory(e) ==> Recorded(dir, a + [e] + b) == Recorded(dir, a) + [RecordFor(dir, e)] + Recorded(dir, b)
  {
    RecordedAppend(dir, a + [e], b);
    RecordedAppend(dir, a, [e]);
    RecordedAppend(dir, a, b);
    assert [e][..0] == [];
  }

  // ---------------------------------------------------------------------------
  // The drive-letter loop of analyze_disks
  // ---------------------------------------------------------------------------

  /** The drive roots for letters k..Z, reading the mask one bit per letter. */
  function DriveScan(mask: nat, k: nat): seq<string>
    requires k <= 26
    decreases 26 - k
  {
    if k == 26 then []
    else if mask % 2 == 1 then [DriveRoot(Letter(k))] + DriveScan(mask / 2, k + 1)
    else DriveScan(mask / 2, k + 1)
  }

  /** The loop over string.ascii_uppercase: the low bit decides whether the
      letter's root is listed, and the mask is shifted for every letter. */
  method DriveLetters(bitmask: nat) returns (drives: seq<string>)
    ensures drives == DriveScan(bitmask, 0)
  {
    drives := [];
    var mask := bitmask;
    for k := 0 to 26
      invariant drives + DriveScan(mask, k) == DriveScan(bitmask, 0)
    {
      if mask % 2 == 1 {
        drives := drives + [DriveRoot(Letter(k))];
      }
      mask := mask / 2;
    }
  }

  /** Every root listed from letter k on is "X:\\" for a letter at or after
      k, and the letters ascend. */
  predicate RootsFrom(r: seq<string>, k: nat) {
    forall i :: 0 <= i < |r| ==>
      |r[i]| == 3 && 65 + k <= r[i][0] as int < 91 && r[i] == DriveRoot(r[i][0])
  }

  predicate RootsAscend(r: seq<string>) {
    forall i, i' :: 0 <= i < i' < |r| && |r[i]| > 0 && |r[i']| > 0 ==> r[i][0] < r[i'][0]
  }

  lemma {:induction false} DriveScanShape(mask: nat, k: nat)
    requires k <= 26
    ensures RootsFrom(DriveScan(mask, k), k)
    ensures RootsAscend(DriveScan(mask, k))
    decreases 26 - k
  {
    if k < 26 {
      DriveScanShape(mask / 2, k + 1);
      var rest := DriveScan(mask / 2, k + 1);
      var r := DriveScan(mask, k);
      if mask % 2 == 1 {
        assert r == [DriveRoot(Letter(k))] + rest;
        forall i | 0 < i < |r| ensures r[i] == rest[i - 1] { }
      } else {
        assert r == rest;
      }
    }
  }

  /** Letter j's root is listed exactly when bit j of the bitmask is set
      (stated from letter k on, for the mask shifted k times). */
  lemma {:induction false} DriveScanExact(bitmask: nat, k: nat)
    requires k <= 26
    ensures forall j :: k <= j < 26 ==> (DriveRoot(Letter(j)) in DriveScan(Shift(bitmask, k), k) <==> Bit(bitmask, j))
    decreases 26 - k
  {
    if k < 26 {
      var mask := Shift(bitmask, k);
      ShiftStep(bitmask, k);
      var rest := DriveScan(mask / 2, k + 1);
      var r := DriveScan(mask, k);
      DriveScanExact(bitmask, k + 1);
      DriveScanShape(mask / 2, k + 1);
      assert r == (if mask % 2 == 1 then [DriveRoot(Letter(k))] else []) + rest;
      forall j | k <= j < 26 ensures DriveRoot(Letter(j)) in r <==> Bit(bitmask, j) {
        if j != k {
          assert DriveRoot(Letter(j)) != DriveRoot(Letter(k)) by {
            assert DriveRoot(Letter(j))[0] != DriveRoot(Letter(k))[0];
          }
        }
      }
    }
  }

  /** Drive letter j (A = 0, ..., Z = 25) is listed, as "X:\\", exactly when
      bit j of the bitmask is set, in ascending letter order. */
  lemma DriveLettersExact(bitmask: nat)
    ensures forall j :: 0 <= j < 26 ==> (DriveRoot(Letter(j)) in DriveScan(bitmask, 0) <==> Bit(bitmask, j))
    ensures RootsFrom(DriveScan(bitmask, 0), 0) && RootsAscend(DriveScan(bitmask, 0))
  {
    DriveScanExact(bitmask, 0);
    DriveScanShape(bitmask, 0);
  }
}

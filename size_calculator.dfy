/** SizeCalculator: the two ways the analyzer sizes a directory subtree.
    The iterative traversal keeps an explicit stack of directories still to
    list; the older recursive one descends into children up to a fixed depth. */
module SizeCalculator {
  import opened FsTree

  /** Deepest directory level the recursive variant still lists. */
  const MAX_RECURSION_DEPTH: nat := 100

  // ---------------------------------------------------------------------------
  // Specification of the iterative traversal
  // ---------------------------------------------------------------------------

  /** What one entry met inside a listed directory adds to the iterative total:
      a file its size, hidden or not; a directory whose name does not start
      with '.' everything beneath it; a hidden directory, an unreadable entry or
      a failing stat nothing. */
  function Contribution(e: Node): nat
    decreases e, 1
  {
    match e
    case File(_, size) => size
    case Dir(name, _) => if Hidden(name) then 0 else VisibleTotal(e)
    case _ => 0
  }

  /** Sum of the file sizes reachable from `n` through directories whose names
      do not start with '.', `n` itself being listed whatever its name. A root
      that cannot be listed, or is not a directory at all, gives 0. */
  function VisibleTotal(n: Node): nat
    decreases n, 0
  {
    match n
    case Dir(_, cs) => ContributionAll(cs)
    case _ => 0
  }

  function ContributionAll(cs: seq<Node>): nat {
    if cs == [] then 0 else ContributionAll(cs[..|cs| - 1]) + Contribution(cs[|cs| - 1])
  }

  /** What the directories still on the stack have left to add. */
  function StackTotal(stack: seq<Node>): nat {
    if stack == [] then 0 else StackTotal(stack[..|stack| - 1]) + VisibleTotal(stack[|stack| - 1])
  }

  /** The iterative traversal (calculate_directory_size_iterative). Pops a
      directory, lists it, adds the size of every file and pushes every
      subdirectory whose name does not start with '.'; a directory whose
      listing fails adds nothing and the loop goes on with the rest of the
      stack; an entry whose type check or stat fails is skipped.
      `scanned` records the directories popped, in order. */
  method DirectorySizeIterative(root: Node) returns (total: nat, ghost scanned: seq<Node>)
    ensures total == VisibleTotal(root)
    ensures |scanned| > 0 && scanned[0] == root
    ensures forall k :: 0 < k < |scanned| ==> IsDirectory(scanned[k]) && !Hidden(scanned[k].name)
  {
    total := 0;
    var stack := [root];
    scanned := [];
    while stack != []
      invariant total + StackTotal(stack) == VisibleTotal(root)
      invariant scanned == [] ==> stack == [root]
      invariant scanned != [] ==> scanned[0] == root
      invariant forall k :: 0 < k < |scanned| ==> IsDirectory(scanned[k]) && !Hidden(scanned[k].name)
      invariant scanned != [] ==> forall k :: 0 <= k < |stack| ==> IsDirectory(stack[k]) && !Hidden(stack[k].name)
      decreases SizeAll(stack)
    {
      ghost var measure := SizeAll(stack);
      var current := stack[|stack| - 1];
      stack := stack[..|stack| - 1];
      assert measure == SizeAll(stack) + Size(current);
      scanned := scanned + [current];
      if current.Dir? {
        var children := current.children;
        ghost var rest := stack;
        ghost var base := total + StackTotal(stack);
        var i := 0;
        while i < |children|
          invariant 0 <= i <= |children|
          invariant total + StackTotal(stack) == base + ContributionAll(children[..i])
          invariant SizeAll(stack) <= SizeAll(rest) + SizeAll(children[..i])
          invariant forall k :: 0 <= k < |stack| ==> IsDirectory(stack[k]) && !Hidden(stack[k].name)
        {
          var entry := children[i];
          assert children[..i + 1][..i] == children[..i];
          match entry {
            case File(_, size) =>
              total := total + size;
            case Dir(name, _) =>
              if !Hidden(name) {
                stack := stack + [entry];
              }
            case Unlistable(name) =>
              if !Hidden(name) {
                stack := stack + [entry];
              }
            case BadType(_) =>
            case BadStat(_) =>
          }
          i := i + 1;
        }
        assert children[..i] == children;
        assert Size(current) == 1 + SizeAll(children);
      }
    }
  }

  // ---------------------------------------------------------------------------
  // The recursive variant
  // ---------------------------------------------------------------------------

  /** calculate_directory_size: a directory listed at `depth`; a directory
      deeper than MAX_RECURSION_DEPTH, or one that cannot be listed, gives 0. */
  function RecursiveSize(n: Node, depth: nat): nat {
    if depth > MAX_RECURSION_DEPTH then 0
    else match n
      case Dir(_, cs) => RecursiveScan(cs, depth)
      case _ => 0
  }

  /** The loop over one listing of the recursive variant. Every entry whose
      name starts with '.' is skipped, file or directory. A failing stat skips
      the file; a failing type check is caught only by the handler around the
      whole listing, so the rest of that directory is abandoned and the total
      so far is kept. */
  function RecursiveScan(cs: seq<Node>, depth: nat): nat {
    if cs == [] then 0
    else
      var e := cs[0];
      if Hidden(e.name) then RecursiveScan(cs[1..], depth)
      else match e
        case File(_, size) => size + RecursiveScan(cs[1..], depth)
        case BadStat(_) => RecursiveScan(cs[1..], depth)
        case BadType(_) => 0
        case Dir(_, _) => RecursiveSize(e, depth + 1) + RecursiveScan(cs[1..], depth)
        case Unlistable(_) => RecursiveSize(e, depth + 1) + RecursiveScan(cs[1..], depth)
  }

  /** Every directory below `n` sits at a depth the recursive variant still
      lists, and no entry below `n` is hidden or fails its type check. */
  predicate Plain(n: Node, depth: nat) {
    match n
    case Dir(_, cs) =>
      depth <= MAX_RECURSION_DEPTH &&
      forall i :: 0 <= i < |cs| ==> !Hidden(cs[i].name) && !cs[i].BadType? && Plain(cs[i], depth + 1)
    case _ => true
  }

  // ---------------------------------------------------------------------------
  // Lemmas
  // ---------------------------------------------------------------------------

  /** The iterative sum is additive over a listing split in two. */
  lemma {:induction false} ContributionAllAppend(a: seq<Node>, b: seq<Node>)
    ensures ContributionAll(a + b) == ContributionAll(a) + ContributionAll(b)
    decreases |b|
  {
    if b == [] {
      assert a + b == a;
    } else {
      var b' := b[..|b| - 1];
      assert (a + b)[..|a + b| - 1] == a + b';
      ContributionAllAppend(a, b');
      assert ContributionAll(b) == ContributionAll(b') + Contribution(b[|b| - 1]);
    }
  }

  /** The same sum, taken from the front of the listing. */
  lemma ContributionAllFront(cs: seq<Node>)
    requires cs != []
    ensures ContributionAll(cs) == Contribution(cs[0]) + ContributionAll(cs[1..])
  {
    assert cs == [cs[0]] + cs[1..];
    ContributionAllAppend([cs[0]], cs[1..]);
    assert [cs[0]][..0] == [];
  }

  /** An entry whose check or stat fails is skipped without losing the
      entries listed after it; a hidden file is counted; a hidden directory
      adds nothing. */
  lemma InsertedEntry(a: seq<Node>, e: Node, b: seq<Node>)
    ensures ContributionAll(a + [e] + b) == ContributionAll(a) + Contribution(e) + ContributionAll(b)
    ensures (e.BadType? || e.BadStat? || (e.Dir? && Hidden(e.name)))
              ==> ContributionAll(a + [e] + b) == ContributionAll(a + b)
    ensures e.File? ==> ContributionAll(a + [e] + b) == ContributionAll(a + b) + e.size
  {
    ContributionAllAppend(a + [e], b);
    ContributionAllAppend(a, [e]);
    ContributionAllAppend(a, b);
    assert [e][..0] == [];
  }

  /** The recursive variant skips every hidden entry, file or directory: a
      hidden entry inserted anywhere in a listing changes nothing. */
  lemma {:induction false} RecursiveSkipsHidden(a: seq<Node>, h: Node, b: seq<Node>, depth: nat)
    requires Hidden(h.name)
    ensures RecursiveScan(a + [h] + b, depth) == RecursiveScan(a + b, depth)
    decreases |a|
  {
    if a == [] {
      assert a + [h] + b == [h] + b;
      assert ([h] + b)[1..] == b;
      assert a + b == b;
    } else {
      assert (a + [h] + b)[0] == a[0];
      assert (a + [h] + b)[1..] == a[1..] + [h] + b;
      assert (a + b)[0] == a[0];
      assert (a + b)[1..] == a[1..] + b;
      RecursiveSkipsHidden(a[1..], h, b, depth);
    }
  }

  /** On a tree with no hidden entry and no failing type check, nested no
      deeper than MAX_RECURSION_DEPTH, the recursive and the iterative
      traversal return the same total. */
  lemma {:induction false} RecursiveMatchesIterative(n: Node, depth: nat)
    requires Plain(n, depth)
    ensures RecursiveSize(n, depth) == VisibleTotal(n)
    decreases n, 1
  {
    match n {
      case Dir(_, cs) =>
        RecursiveScanMatches(cs, depth);
      case _ =>
    }
  }

  lemma {:induction false} RecursiveScanMatches(cs: seq<Node>, depth: nat)
    requires depth <= MAX_RECURSION_DEPTH
    requires forall i :: 0 <= i < |cs| ==> !Hidden(cs[i].name) && !cs[i].BadType? && Plain(cs[i], depth + 1)
    ensures RecursiveScan(cs, depth) == ContributionAll(cs)
    decreases cs, 0
  {
    if cs != [] {
      ContributionAllFront(cs);
      assert forall i :: 0 <= i < |cs[1..]| ==> cs[1..][i] == cs[i + 1];
      RecursiveScanMatches(cs[1..], depth);
      var e := cs[0];
      assert Plain(e, depth + 1);
      match e {
        case Dir(_, _) =>
          RecursiveMatchesIterative(e, depth + 1);
        case _ =>
      }
    }
  }

  /** A chain of k + 1 nested directories, each holding one 1-byte file. */
  function Chain(k: nat): Node {
    if k == 0 then Dir("d", [File("f", 1)]) else Dir("d", [File("f", 1), Chain(k - 1)])
  }

  /** The depth cap silently truncates: the recursive variant counts only the
      directories of a chain down to depth MAX_RECURSION_DEPTH, while the
      iterative traversal counts them all. */
  lemma {:induction false} DepthCapTruncates(k: nat, depth: nat)
    requires depth <= MAX_RECURSION_DEPTH + 1
    ensures VisibleTotal(Chain(k)) == k + 1
    ensures RecursiveSize(Chain(k), depth) == Min(k + 1, MAX_RECURSION_DEPTH + 1 - depth)
  {
    var cs := Chain(k).children;
    ContributionAllFront(cs);
    if k > 0 {
      assert cs[1..][1..] == [];
      assert cs[1..] == [Chain(k - 1)];
      assert ContributionAll(cs[1..]) == ContributionAll(cs[1..][..0]) + Contribution(Chain(k - 1));
      if depth <= MAX_RECURSION_DEPTH {
        DepthCapTruncates(k - 1, depth + 1);
        assert RecursiveScan(cs, depth) == 1 + RecursiveScan(cs[1..], depth);
        assert RecursiveScan(cs[1..], depth)
            == RecursiveSize(Chain(k - 1), depth + 1) + RecursiveScan(cs[1..][1..], depth);
      } else {
        DepthCapTruncates(k - 1, depth);
      }
    }
  }

  function Min(a: nat, b: nat): nat {
    if a <= b then a else b
  }
}

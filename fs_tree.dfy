/** The filesystem as the size computations see it: a finite, acyclic tree of
    directory entries.  Each entry carries the name the directory listing gave
    it, and the way the operating system answers when it is inspected. */
module FsTree {

  /** One directory entry.
      - File: a regular file whose stat succeeds with the given byte size.
      - Dir: a directory that can be listed; its children in listing order.
      - Unlistable: a directory whose own listing fails (permission denied,
        vanished); asking whether it is a directory still succeeds.
      - BadType: an entry for which the "is it a file / a directory" check
        itself raises.
      - BadStat: a file whose type check succeeds but whose stat raises. */
  datatype Node =
    | File(name: string, size: nat)
    | Dir(name: string, children: seq<Node>)
    | Unlistable(name: string)
    | BadType(name: string)
    | BadStat(name: string)

  /** A name that starts with '.' is hidden. */
  predicate Hidden(name: string) {
    |name| > 0 && name[0] == '.'
  }

  /** The entry answers "is a directory" (os.path.isdir / DirEntry.is_dir). */
  predicate IsDirectory(n: Node) {
    n.Dir? || n.Unlistable?
  }

  /** Number of constructors in the tree: the termination measure of the
      explicit-stack traversal. */
  function Size(n: Node): nat {
    match n
    case Dir(_, cs) => 1 + SizeAll(cs)
    case _ => 1
  }

  function SizeAll(cs: seq<Node>): nat {
    if cs == [] then 0 else SizeAll(cs[..|cs| - 1]) + Size(cs[|cs| - 1])
  }
}

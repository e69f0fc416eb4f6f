/** DiskItem: one row of an analysis result (a disk, a directory or a file). */
module DiskItems {
  import opened Wrappers

  /** The record's fields. `itemType` is the string 'disk', 'directory' or
      'file'; `percentage` is the share of the result's total, a real number
      here; the three capacity fields are set for disks only. */
  datatype DiskItem = DiskItem(
    name: string,
    path: string,
    size: nat,
    itemType: string,
    percentage: real,
    parentPath: Option<string>,
    totalSize: nat,
    usedSize: nat,
    freeSize: nat)

  /** The item types a user can drill into. */
  const ClickableTypes: seq<string> := ["disk", "directory"]

  /** A new item built from its four required fields; every other field takes
      its default. */
  function NewItem(name: string, path: string, size: nat, itemType: string): (d: DiskItem)
    ensures d.name == name && d.path == path && d.size == size && d.itemType == itemType
    ensures d.percentage == 0.0 && d.parentPath == None
    ensures d.totalSize == 0 && d.usedSize == 0 && d.freeSize == 0
  {
    DiskItem(name, path, size, itemType, 0.0, None, 0, 0, 0)
  }

  /** The item can be entered: it is a disk or a directory, never a file. */
  function IsClickable(d: DiskItem): (r: bool)
    ensures r <==> d.itemType == "disk" || d.itemType == "directory"
  {
    d.itemType in ClickableTypes
  }

  /** The used share of a disk, in percent; 0 when the disk reports no
      capacity, so nothing is ever divided by zero. */
  function UsedPercent(d: DiskItem): (r: real)
    ensures d.totalSize == 0 ==> r == 0.0
    ensures d.usedSize <= d.totalSize ==> 0.0 <= r <= 100.0
  {
    if d.totalSize > 0 then (d.usedSize as real / d.totalSize as real) * 100.0 else 0.0
  }

  /** The size text, whose zero case is exact; any other size is rendered by
      `scaled`, the floating-point formatting. */
  function FormatSize(n: nat, scaled: nat -> string): (r: string)
    ensures n == 0 ==> r == "0 B"
  {
    if n == 0 then "0 B" else scaled(n)
  }

  /** The label of an item in the list. The floating-point renderings of sizes
      and percentages are the parameters `scaled` and `percent`. */
  function DisplayName(d: DiskItem, scaled: nat -> string, percent: real -> string): (r: string)
    ensures d.itemType == "file" ==> "📄 " <= r
    ensures d.itemType == "disk" ==> d.name + " - 已用: " <= r
    ensures d.itemType != "disk" && d.itemType != "file" ==> "📁 " <= r
  {
    if d.itemType == "disk" then
      d.name + " - 已用: " + FormatSize(d.usedSize, scaled) + " / " + FormatSize(d.totalSize, scaled)
        + " (" + percent(UsedPercent(d)) + "%)"
    else if d.itemType == "file" then
      "📄 " + d.name + " - " + FormatSize(d.size, scaled) + " (" + percent(d.percentage) + "%)"
    else
      "📁 " + d.name + " - " + FormatSize(d.size, scaled) + " (" + percent(d.percentage) + "%)"
  }
}

/** The pure helpers of the pie-chart widget
    (src/gui/components/chart_widget.py): label shortening, the directory name
    and disk-root label of a path, the unit of the short size text and the
    colour cycle. */
module ChartHelpers {
  import opened Wrappers
  import opened DiskItems
  import opened AnalysisResults
  import StableSort

  // ---------------------------------------------------------------------------
  // shorten_text
  // ---------------------------------------------------------------------------

  /** Python's `s[:n]`: a negative `n` counts from the end; both ends clamp. */
  function PrefixPy(s: string, n: int): (r: string)
    ensures 0 <= n <= |s| ==> r == s[..n]
    ensures n > |s| ==> r == s
    ensures |r| <= |s|
  {
    if n >= |s| then s
    else if n >= 0 then s[..n]
    else if |s| + n >= 0 then s[..|s| + n]
    else []
  }

  /** shorten_text: a text no longer than `maxLength` is kept; a longer one is
      cut and ends in "...". */
  function ShortenText(text: string, maxLength: int): (r: string)
    ensures |text| <= maxLength ==> r == text
    ensures |text| > maxLength ==> |r| >= 3 && r[|r| - 3..] == "..." && r[..|r| - 3] <= text
    ensures |text| > maxLength >= 3 ==> |r| == maxLength && r == text[..maxLength - 3] + "..."
  {
    if |text| > maxLength then PrefixPy(text, maxLength - 3) + "..." else text
  }

  // ---------------------------------------------------------------------------
  // Paths
  // ---------------------------------------------------------------------------

  predicate IsSeparator(c: char) {
    c == '\\' || c == '/'
  }

  /** `path.rstrip('\\/')`. */
  function StripTrailing(s: string): (r: string)
    ensures r <= s
    ensures r == [] || !IsSeparator(r[|r| - 1])
    ensures forall k :: |r| <= k < |s| ==> IsSeparator(s[k])
  {
    if s == [] || !IsSeparator(s[|s| - 1]) then s else StripTrailing(s[..|s| - 1])
  }

  /** `c.join(parts)`. */
  function JoinWith(parts: seq<string>, c: char): string {
    if parts == [] then []
    else if |parts| == 1 then parts[0]
    else JoinWith(parts[..|parts| - 1], c) + [c] + parts[|parts| - 1]
  }

  /** `s.split(c)`: the pieces between occurrences of `c`, empty ones
      included; joined back with `c` they give `s`. */
  function Split(s: string, c: char): (parts: seq<string>)
    ensures |parts| >= 1
    ensures forall k :: 0 <= k < |parts| ==> c !in parts[k]
    ensures forall k, d :: 0 <= k < |parts| && d in parts[k] ==> d in s
  {
    if s == [] then [[]]
    else
      assert forall d :: d in s[..|s| - 1] ==> d in s;
      var init := Split(s[..|s| - 1], c);
      if s[|s| - 1] == c then init + [[]]
      else init[..|init| - 1] + [init[|init| - 1] + [s[|s| - 1]]]
  }

  /** Joining the pieces of a split with the separator gives back the text. */
  lemma {:induction false} SplitJoins(s: string, c: char)
    ensures JoinWith(Split(s, c), c) == s
    decreases |s|
  {
    if s != [] {
      var s', x := s[..|s| - 1], s[|s| - 1];
      var init := Split(s', c);
      var parts := Split(s, c);
      SplitJoins(s', c);
      assert s == s' + [x];
      if x == c {
        assert parts == init + [[]];
        assert parts[..|parts| - 1] == init;
      } else {
        var n := |init|;
        var last := init[n - 1];
        assert parts == init[..n - 1] + [last + [x]];
        if n > 1 {
          assert parts[..|parts| - 1] == init[..n - 1];
          assert JoinWith(init, c) == JoinWith(init[..n - 1], c) + [c] + last;
        }
      }
    }
  }

  /** The characters after the last `c` in `s` (all of `s` when it has none). */
  function AfterLast(s: string, c: char): (r: string)
    ensures |r| <= |s| && r == s[|s| - |r|..]
    ensures c !in r
    ensures |r| < |s| ==> s[|s| - |r| - 1] == c
    ensures s != [] && s[|s| - 1] != c ==> |r| > 0 && r[|r| - 1] == s[|s| - 1]
  {
    if s == [] || s[|s| - 1] == c then [] else AfterLast(s[..|s| - 1], c) + [s[|s| - 1]]
  }

  /** The last piece of a split is the text after the last separator. */
  lemma {:induction false} LastPieceIsAfterLast(s: string, c: char)
    ensures Split(s, c)[|Split(s, c)| - 1] == AfterLast(s, c)
    decreases |s|
  {
    if s != [] && s[|s| - 1] != c {
      LastPieceIsAfterLast(s[..|s| - 1], c);
    }
  }

  /** A piece extract_directory_name passes over: empty or a lone separator. */
  predicate Blank(part: string) {
    part == [] || part == "\\" || part == "/"
  }

  /** The search of the pieces from the last one back: the last piece that is
      not blank, or None when every piece is blank. */
  function LastNonEmpty(parts: seq<string>): (r: Option<string>)
    ensures r.Some? ==> r.value in parts && r.value != []
    ensures r.Some? ==> exists k :: 0 <= k < |parts| && parts[k] == r.value && !Blank(parts[k])
                                    && forall j :: k < j < |parts| ==> Blank(parts[j])
    ensures r.None? ==> forall j :: 0 <= j < |parts| ==> Blank(parts[j])
  {
    if parts == [] then None
    else
      var last := parts[|parts| - 1];
      if !Blank(last) then Some(last) else LastNonEmpty(parts[..|parts| - 1])
  }

  const UnknownDirectory: string := "未知目录"
  const RootDirectory: string := "根目录"

  /** The pieces extract_directory_name searches: split on '\\' when the
      stripped path has one, else on '/' when it has one, else the path
      itself. */
  function PathParts(p: string): seq<string> {
    if '\\' in p then Split(p, '\\') else if '/' in p then Split(p, '/') else [p]
  }

  /** extract_directory_name. */
  function ExtractDirectoryName(path: string): (r: string)
    ensures path == [] ==> r == UnknownDirectory
    ensures path != [] && StripTrailing(path) == [] ==> r == RootDirectory
    ensures '\\' !in r
  {
    if path == [] then UnknownDirectory
    else
      var p := StripTrailing(path);
      match LastNonEmpty(PathParts(p))
      case Some(part) => part
      case None => RootDirectory
  }

  /** Trailing separators are ignored and the last component is returned:
      the text after the last separator of the stripped path (after the last
      '\\' when it has one, else after the last '/'). */
  lemma LastComponent(path: string)
    requires StripTrailing(path) != []
    ensures var p := StripTrailing(path);
            var sep := if '\\' in p then '\\' else '/';
            && ExtractDirectoryName(path) == AfterLast(p, sep)
            && ExtractDirectoryName(path) != []
            && !IsSeparator(ExtractDirectoryName(path)[|ExtractDirectoryName(path)| - 1])
  {
    var p := StripTrailing(path);
    var sep := if '\\' in p then '\\' else '/';
    var last := AfterLast(p, sep);
    assert last != [] && last[|last| - 1] == p[|p| - 1];
    assert last != "\\" && last != "/";
    if '\\' in p || '/' in p {
      LastPieceIsAfterLast(p, sep);
      var parts := Split(p, sep);
      assert parts == PathParts(p);
      assert LastNonEmpty(parts) == Some(last);
    } else {
      NoSeparatorAfterLast(p, '/');
      assert PathParts(p) == [p];
      assert LastNonEmpty([p]) == Some(p);
    }
  }

  lemma {:induction false} NoSeparatorAfterLast(s: string, c: char)
    requires c !in s
    ensures AfterLast(s, c) == s
    decreases |s|
  {
    if s != [] {
      NoSeparatorAfterLast(s[..|s| - 1], c);
    }
  }

  lemma UsersExample()
    ensures ExtractDirectoryName("C:\\Users\\") == "Users"
  {
    StripUsers();
    LastComponent("C:\\Users\\");
    AfterLastUsers();
  }

  lemma StripUsers()
    ensures StripTrailing("C:\\Users\\") == "C:\\Users"
  {
    var path := "C:\\Users\\";
    assert path[..|path| - 1] == "C:\\Users";
  }

  lemma AfterLastUsers()
    ensures AfterLast("C:\\Users", '\\') == "Users"
  {
    var p := "C:\\Users";
    assert p[..2] == "C:";
    assert p[..3] == "C:\\";
  }

  lemma SeparatorsOnly()
    ensures ExtractDirectoryName("/") == RootDirectory
  {
    assert "/"[..0] == [];
  }

  // ---------------------------------------------------------------------------
  // Chart title
  // ---------------------------------------------------------------------------

  /** The disk-root test of update_chart, on the path with its trailing
      separators removed: the empty path (the POSIX root) or a drive letter
      followed by ':'. */
  predicate IsDiskRoot(path: string) {
    var p := StripTrailing(path);
    p == [] || (|p| == 2 && p[1] == ':')
  }

  /** "/" for the POSIX root, the drive letter otherwise. */
  function DiskRootLabel(path: string): (r: string)
    requires IsDiskRoot(path)
    ensures StripTrailing(path) == [] ==> r == "/"
    ensures StripTrailing(path) != [] ==> |r| == 1 && r[0] == path[0]
  {
    var p := StripTrailing(path);
    if p == [] then "/" else [p[0]]
  }

  function SizeOf(d: DiskItem): nat {
    d.size
  }

  /** The items update_chart draws: the first eight. */
  function Shown(items: seq<DiskItem>): (r: seq<DiskItem>)
    ensures |r| <= MaxSlices && r <= items
  {
    if |items| < MaxSlices then items else items[..MaxSlices]
  }

  /** The chart title update_chart sets. No pie is drawn when the drawn items
      have no size at all. The last component of an ordinary directory is
      os.path.basename, the text after the last '/'. */
  function ChartTitle(result: AnalysisResult): (r: string)
    ensures result.items == [] ==> r == "磁盘使用情况 - 无数据"
    ensures result.items != [] && StableSort.SumKeys(Shown(result.items), SizeOf) == 0 ==> r == "无数据可用"
    ensures result.items != [] && StableSort.SumKeys(Shown(result.items), SizeOf) > 0 ==>
              (result.resultType == "disk" ==> r == "🖥️磁盘使用情况")
              && (result.resultType != "disk" && IsDiskRoot(result.path) ==>
                    r == "磁盘 " + DiskRootLabel(result.path) + " 使用情况")
  {
    if result.items == [] then "磁盘使用情况 - 无数据"
    else if StableSort.SumKeys(Shown(result.items), SizeOf) == 0 then "无数据可用"
    else if result.resultType == "disk" then "🖥️磁盘使用情况"
    else if IsDiskRoot(result.path) then "磁盘 " + DiskRootLabel(result.path) + " 使用情况"
    else "目录使用情况: " + AfterLast(StripTrailing(result.path), '/')
  }

  lemma RootTitles()
    ensures IsDiskRoot("C:\\") && DiskRootLabel("C:\\") == "C"
    ensures IsDiskRoot("/") && DiskRootLabel("/") == "/"
    ensures !IsDiskRoot("/home")
  {
    assert StripTrailing("C:\\") == "C:";
    assert StripTrailing("/") == "";
    assert StripTrailing("/home") == "/home";
  }

  // ---------------------------------------------------------------------------
  // format_size_short
  // ---------------------------------------------------------------------------

  /** `len(str(n))`. */
  function Digits(n: nat): (d: nat)
    ensures d >= 1
  {
    if n < 10 then 1 else 1 + Digits(n / 10)
  }

  function Pow10(e: nat): (r: nat)
    ensures r >= 1
  {
    if e == 0 then 1 else 10 * Pow10(e - 1)
  }

  const SizeLetters: seq<string> := ["B", "K", "M", "G", "T"]

  /** The unit the short size text uses: one step per three decimal digits,
      capped at the last unit. */
  function UnitIndex(n: nat): (i: nat)
    ensures i < |SizeLetters|
  {
    var k := (Digits(n) - 1) / 3;
    if k < |SizeLetters| - 1 then k else |SizeLetters| - 1
  }

  lemma {:induction false} DigitsBounds(n: nat)
    ensures Pow10(Digits(n) - 1) <= n < Pow10(Digits(n)) || n == 0
    decreases n
  {
    if n >= 10 {
      DigitsBounds(n / 10);
    }
  }

  lemma {:induction false} Pow10Monotone(a: nat, b: nat)
    requires a <= b
    ensures Pow10(a) <= Pow10(b)
    decreases b
  {
    if a < b {
      Pow10Monotone(a, b - 1);
    }
  }

  /** The unit index is k < 4 exactly when 10^(3k) <= n < 10^(3k+3). */
  lemma UnitIndexRange(n: nat, k: nat)
    requires n > 0 && k < 4
    ensures UnitIndex(n) == k <==> Pow10(3 * k) <= n < Pow10(3 * k + 3)
  {
    DigitsBounds(n);
    var d := Digits(n);
    if Pow10(3 * k) <= n < Pow10(3 * k + 3) {
      if d - 1 < 3 * k {
        Pow10Monotone(d, 3 * k);
      }
      if d - 1 >= 3 * k + 3 {
        Pow10Monotone(3 * k + 3, d - 1);
      }
    }
    if UnitIndex(n) == k {
      Pow10Monotone(3 * k, d - 1);
      Pow10Monotone(d, 3 * k + 3);
    }
  }

  /** Every size from 10^12 on uses the last unit. */
  lemma UnitIndexCap(n: nat)
    requires n > 0
    ensures UnitIndex(n) == 4 <==> n >= Pow10(12)
  {
    DigitsBounds(n);
    var d := Digits(n);
    if n >= Pow10(12) && d - 1 < 12 {
      Pow10Monotone(d, 12);
    }
    if UnitIndex(n) == 4 {
      Pow10Monotone(12, d - 1);
    }
  }

  /** format_size_short: "0B" for zero; otherwise the scaled number (the
      floating-point rounding of n / 1024^i is the parameter `mantissa`)
      followed by the unit letter. */
  function FormatSizeShort(n: nat, mantissa: (nat, nat) -> string): (r: string)
    ensures n == 0 ==> r == "0B"
    ensures n > 0 ==> |r| >= 1 && [r[|r| - 1]] == SizeLetters[UnitIndex(n)]
  {
    if n == 0 then "0B" else mantissa(n, UnitIndex(n)) + SizeLetters[UnitIndex(n)]
  }

  // ---------------------------------------------------------------------------
  // Colours
  // ---------------------------------------------------------------------------

  /** Settings.CHART_COLORS. */
  const ChartColors: seq<string> := [
    "#FF6B6B", "#4ECDC4", "#45B7D1", "#96CEB4", "#FFEAA7",
    "#DDA0DD", "#98D8C8", "#F7DC6F", "#BB8FCE", "#85C1E9",
    "#F8C471", "#82E0AA", "#F1948A", "#85C1E9", "#D7BDE2",
    "#F9E79F", "#A9DFBF", "#F5B7B1", "#AED6F1", "#D2B4DE"]

  /** get_color: the list read cyclically. Python's `%` with a positive
      divisor never gives a negative remainder, like Dafny's. */
  function GetColor(index: int): (r: string)
    ensures r in ChartColors
  {
    ChartColors[index % |ChartColors|]
  }

  /** The colours repeat with a period of the list's length. */
  lemma ColorsCycle(i: int)
    ensures GetColor(i + |ChartColors|) == GetColor(i)
    ensures 0 <= i < |ChartColors| ==> GetColor(i) == ChartColors[i]
  {
    assert |ChartColors| == 20;
    ShiftKeepsRemainder(i);
  }

  lemma ShiftKeepsRemainder(i: int)
    ensures (i + 20) % 20 == i % 20
    ensures 0 <= i < 20 ==> i % 20 == i
  {
  }

  // ---------------------------------------------------------------------------
  // Pie slices
  // ---------------------------------------------------------------------------

  datatype Slice = Slice(text: string, size: nat, color: string)

  const MaxSlices: nat := 8

  /** The slices update_chart draws: the first eight items of the result, each
      labelled with its shortened name and short size, coloured by position. */
  function Slices(items: seq<DiskItem>, mantissa: (nat, nat) -> string): (r: seq<Slice>)
    ensures |r| == if |items| < MaxSlices then |items| else MaxSlices
    ensures forall k :: 0 <= k < |r| ==>
              r[k].size == items[k].size && r[k].color == GetColor(k)
              && r[k].text == ShortenText(items[k].name, 10) + "\n" + FormatSizeShort(items[k].size, mantissa)
  {
    var shown := Shown(items);
    seq(|shown|, k requires 0 <= k < |shown| =>
      Slice(ShortenText(shown[k].name, 10) + "\n" + FormatSizeShort(shown[k].size, mantissa),
            shown[k].size, GetColor(k)))
  }
}

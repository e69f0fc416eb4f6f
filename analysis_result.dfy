/** AnalysisResult: the snapshot one scan produces, and its conversion to and
    from a plain dictionary (to_dict / from_dict). */
module AnalysisResults {
  import opened Wrappers
  import opened DiskItems

  /** The items, their total size, the scanned path ("" for the disk list) and
      the result type, 'disk' or 'directory'. */
  datatype AnalysisResult = AnalysisResult(
    items: seq<DiskItem>,
    totalSize: nat,
    path: string,
    resultType: string)

  /** The dynamically typed values a dictionary holds. */
  datatype Value =
    | Str(s: string)
    | Int(i: int)
    | Real(r: real)
    | NoneValue
    | List(elems: seq<Value>)
    | Dict(fields: map<string, Value>)

  /** The keyword arguments the item record accepts. */
  const ItemKeys: set<string> :=
    {"name", "path", "size", "item_type", "percentage", "parent_path", "total_size", "used_size", "free_size"}

  /** The keys of a serialised result. */
  const ResultKeys: set<string> := {"items", "total_size", "path", "result_type"}

  function OptionToValue(o: Option<string>): Value {
    match o
    case None => NoneValue
    case Some(s) => Str(s)
  }

  /** The item's attribute dictionary (`item.__dict__`). */
  function ItemToDict(d: DiskItem): (v: Value)
    ensures v.Dict? && v.fields.Keys == ItemKeys
  {
    Dict(map[
      "name" := Str(d.name), "path" := Str(d.path), "size" := Int(d.size),
      "item_type" := Str(d.itemType), "percentage" := Real(d.percentage),
      "parent_path" := OptionToValue(d.parentPath), "total_size" := Int(d.totalSize),
      "used_size" := Int(d.usedSize), "free_size" := Int(d.freeSize)])
  }

  /** `[f(x) for x in xs]`. */
  function MapAll<A, B>(f: A -> B, xs: seq<A>): (ys: seq<B>)
    ensures |ys| == |xs|
    ensures forall k :: 0 <= k < |xs| ==> ys[k] == f(xs[k])
  {
    if xs == [] then [] else MapAll(f, xs[..|xs| - 1]) + [f(xs[|xs| - 1])]
  }

  /** `[g(x) for x in xs]` where any failing `g` fails the whole list. */
  function TryAll<A, B>(g: A -> Option<B>, xs: seq<A>): Option<seq<B>> {
    if xs == [] then Some([])
    else
      match TryAll(g, xs[..|xs| - 1])
      case None => None
      case Some(init) =>
        match g(xs[|xs| - 1])
        case None => None
        case Some(y) => Some(init + [y])
  }

  /** Decoding inverts encoding list-wide when it does element-wise. */
  lemma {:induction false} TryAllInverts<A, B>(f: A -> B, g: B -> Option<A>, xs: seq<A>)
    requires forall x :: g(f(x)) == Some(x)
    ensures TryAll(g, MapAll(f, xs)) == Some(xs)
    decreases |xs|
  {
    if xs != [] {
      var init, last := xs[..|xs| - 1], xs[|xs| - 1];
      assert MapAll(f, xs)[..|xs| - 1] == MapAll(f, init);
      TryAllInverts(f, g, init);
      assert init + [last] == xs;
    }
  }

  /** to_dict: the items as dictionaries, in order, and the three other fields
      as they are. */
  function ToDict(r: AnalysisResult): (v: Value)
    ensures v.Dict? && v.fields.Keys == ResultKeys
    ensures v.fields["items"].List? && |v.fields["items"].elems| == |r.items|
    ensures forall k :: 0 <= k < |r.items| ==> v.fields["items"].elems[k] == ItemToDict(r.items[k])
    ensures v.fields["total_size"] == Int(r.totalSize)
    ensures v.fields["path"] == Str(r.path) && v.fields["result_type"] == Str(r.resultType)
  {
    Dict(map[
      "items" := List(MapAll(ItemToDict, r.items)),
      "total_size" := Int(r.totalSize),
      "path" := Str(r.path),
      "result_type" := Str(r.resultType)])
  }

  // Reading typed fields back; a missing key or a value of the wrong type
  // gives None.

  function GetString(m: map<string, Value>, k: string): Option<string> {
    if k in m && m[k].Str? then Some(m[k].s) else None
  }

  function GetNat(m: map<string, Value>, k: string): Option<nat> {
    if k in m && m[k].Int? && m[k].i >= 0 then Some(m[k].i) else None
  }

  /** An optional keyword: absent gives the default. */
  function GetNatOr(m: map<string, Value>, k: string, default: nat): Option<nat> {
    if k !in m then Some(default) else GetNat(m, k)
  }

  function GetRealOr(m: map<string, Value>, k: string, default: real): Option<real> {
    if k !in m then Some(default) else if m[k].Real? then Some(m[k].r) else None
  }

  function GetOptionalString(m: map<string, Value>, k: string): Option<Option<string>> {
    if k !in m || m[k].NoneValue? then Some(None)
    else if m[k].Str? then Some(Some(m[k].s))
    else None
  }

  /** The dictionary has only keyword arguments the item record accepts, the
      four required ones among them, and every value has the field's type. */
  predicate IsItemDict(v: Value) {
    && v.Dict? && v.fields.Keys <= ItemKeys
    && GetString(v.fields, "name").Some? && GetString(v.fields, "path").Some?
    && GetNat(v.fields, "size").Some? && GetString(v.fields, "item_type").Some?
    && GetRealOr(v.fields, "percentage", 0.0).Some? && GetOptionalString(v.fields, "parent_path").Some?
    && GetNatOr(v.fields, "total_size", 0).Some? && GetNatOr(v.fields, "used_size", 0).Some?
    && GetNatOr(v.fields, "free_size", 0).Some?
  }

  /** `DiskItem(**item_data)`: an unknown key, a missing required one or a
      value of the wrong type is refused; optional keys take their defaults. */
  function ItemFromDict(v: Value): (r: Option<DiskItem>)
    ensures r.Some? <==> IsItemDict(v)
    ensures r.Some? ==> {"name", "path", "size", "item_type"} <= v.fields.Keys
  {
    if !IsItemDict(v) then None
    else
      var m := v.fields;
      Some(DiskItem(GetString(m, "name").value, GetString(m, "path").value, GetNat(m, "size").value,
                    GetString(m, "item_type").value, GetRealOr(m, "percentage", 0.0).value,
                    GetOptionalString(m, "parent_path").value, GetNatOr(m, "total_size", 0).value,
                    GetNatOr(m, "used_size", 0).value, GetNatOr(m, "free_size", 0).value))
  }

  /** from_dict: reads only the four keys of a result (other keys are ignored)
      and rebuilds every item. */
  function FromDict(v: Value): (r: Option<AnalysisResult>)
    ensures r.Some? ==> v.Dict? && ResultKeys <= v.fields.Keys
    ensures r.Some? ==> v.fields["total_size"] == Int(r.value.totalSize)
    ensures r.Some? ==> v.fields["path"] == Str(r.value.path)
    ensures r.Some? ==> v.fields["result_type"] == Str(r.value.resultType)
  {
    if !v.Dict? then None
    else
      var m := v.fields;
      if !("items" in m && m["items"].List?) then None
      else
        var items := TryAll(ItemFromDict, m["items"].elems);
        var total := GetNat(m, "total_size");
        var path := GetString(m, "path");
        var resultType := GetString(m, "result_type");
        if items.None? || total.None? || path.None? || resultType.None? then None
        else Some(AnalysisResult(items.value, total.value, path.value, resultType.value))
  }

  /** Every item comes back from its dictionary unchanged. */
  lemma ItemRoundTrip(d: DiskItem)
    ensures ItemFromDict(ItemToDict(d)) == Some(d)
  {
  }

  /** from_dict(to_dict(r)) rebuilds r field for field and item for item. */
  lemma RoundTrip(r: AnalysisResult)
    ensures FromDict(ToDict(r)) == Some(r)
  {
    forall d ensures ItemFromDict(ItemToDict(d)) == Some(d) {
      ItemRoundTrip(d);
    }
    TryAllInverts(ItemToDict, ItemFromDict, r.items);
  }
}

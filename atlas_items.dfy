/**
 * The items of the atlas pack pipeline: the image name of each group, the
 * packable record of each group (`AutoConversionToPackableData`), the
 * measured item handed to the bin packer, and the check that no packed
 * rectangle was flagged as oversized (`CheckOversizedImages`).
 */
module AtlasItems {
  import opened Results
  import opened Text
  import opened JsonValue
  import opened AtlasTypes
  import opened AtlasValidation

  // ---------------------------------------------------------------
  // Image names
  // ---------------------------------------------------------------

  /**
   * `v.at(-1)`: the last element of an array or the last character of a
   * string, None (undefined) when it is empty; every other value (null,
   * undefined, numbers, booleans, objects) has no callable `at`, so the call
   * throws a TypeError.
   */
  function LastOf(v: Option<Json>): (r: Option<Option<Json>>)
    ensures r.Some? <==> IsArray(v) || IsString(v)
    ensures IsArray(v) && |v.value.items| > 0 ==> r == Some(Some(v.value.items[|v.value.items| - 1]))
    ensures IsString(v) && |v.value.s| > 0 ==> r == Some(Some(Str([v.value.s[|v.value.s| - 1]])))
    ensures (IsArray(v) && |v.value.items| == 0) || (IsString(v) && |v.value.s| == 0) ==> r == Some(None)
  {
    match v
    case Some(Arr(items)) => Some(if |items| == 0 then None else Some(items[|items| - 1]))
    case Some(Str(s)) => Some(if |s| == 0 then None else Some(Str([s[|s| - 1]])))
    case _ => None
  }

  /** `group.path.at(-1)` in a template literal, before the group has been validated. */
  function ImageName(group: Json): (r: Result<string, PackError>)
    ensures r.Success? <==> IsArray(GroupValue(group, PathField)) || IsString(GroupValue(group, PathField))
    ensures r.Failure? ==> r.error == RuntimeTypeError(PathField)
    ensures r.Success? ==> r.value == TemplateText(LastOf(GroupValue(group, PathField)).value)
  {
    match LastOf(Field(group, "path"))
    case None => Failure(RuntimeTypeError(PathField))
    case Some(last) => Success(TemplateText(last))
  }

  /**
   * The image names of the groups (`pack.ts` lines 504-508): the last path
   * segment of each group when the method is "path", the group key
   * otherwise. `map` stops at the first group whose name throws.
   */
  function ImageNames(isPath: bool, entries: seq<(string, Json)>): (r: Result<seq<string>, PackError>)
    ensures r.Success? ==> |r.value| == |entries|
    ensures r.Success? <==> !isPath || forall i :: 0 <= i < |entries| ==> ImageName(entries[i].1).Success?
    ensures r.Success? && !isPath ==> forall i :: 0 <= i < |entries| ==> r.value[i] == entries[i].0
    ensures r.Success? && isPath ==> forall i :: 0 <= i < |entries| ==> Success(r.value[i]) == ImageName(entries[i].1)
    ensures r.Failure? ==> r.error == RuntimeTypeError(PathField)
  {
    if |entries| == 0 then Success([])
    else
      var here := if isPath then ImageName(entries[0].1) else Success(entries[0].0);
      match here
      case Failure(e) => Failure(e)
      case Success(name) =>
        match ImageNames(isPath, entries[1..])
        case Failure(e) => Failure(e)
        case Success(rest) =>
          assert forall i :: 1 <= i < |entries| ==> entries[i] == entries[1..][i - 1];
          Success([name] + rest)
  }

  // ---------------------------------------------------------------
  // Packable records
  // ---------------------------------------------------------------

  /**
   * The record of one validated group: `id` = the group key, its path, its
   * default x and y, and `cols` when `default.cols` is neither undefined
   * nor null and `"cols" in default`.
   */
  function ToPackable(key: string, group: Json): (d: PackableData)
    requires GroupValid(group)
    ensures d.id == key && d.path == GroupValue(group, PathField).value.items
    ensures d.infoX == GroupValue(group, X).value.i && d.infoY == GroupValue(group, Y).value.i
    ensures d.cols.Some? <==> GroupValue(group, Cols).Some?
    ensures d.cols.Some? ==> d.cols.value == GroupValue(group, Cols).value.i
  {
    var def := Field(group, "default").value;
    var cols := Field(def, "cols");
    PackableData(
      key,
      Field(group, "path").value.items,
      Field(def, "x").value.i,
      Field(def, "y").value.i,
      if cols.Some? && !cols.value.Null? && HasKey(def, "cols") then Some(cols.value.i) else None)
  }

  /** The records of validated groups, one per group and in the same order. */
  function ToPackables(entries: seq<(string, Json)>): (r: seq<PackableData>)
    requires forall i :: 0 <= i < |entries| ==> GroupValid(entries[i].1)
    ensures |r| == |entries|
    ensures forall i :: 0 <= i < |entries| ==> r[i] == ToPackable(entries[i].0, entries[i].1)
  {
    if |entries| == 0 then []
    else ToPackables(entries[..|entries| - 1]) + [ToPackable(entries[|entries| - 1].0, entries[|entries| - 1].1)]
  }

  /**
   * What `AutoConversionToPackableData` returns: the error of
   * `CheckWholeAtlasJson`, or one record per group in key order.
   */
  function PackableDatas(doc: Json): (r: Result<seq<PackableData>, PackError>)
    ensures r.Failure? <==> CheckGroups(doc).Fail?
    ensures r.Failure? ==> r.error == CheckGroups(doc).error
    ensures r.Success? ==> GroupEntries(doc).Some? && |r.value| == |GroupEntries(doc).value|
    ensures r.Success? ==> forall i :: 0 <= i < |r.value| ==>
              GroupValid(GroupEntries(doc).value[i].1) &&
              r.value[i] == ToPackable(GroupEntries(doc).value[i].0, GroupEntries(doc).value[i].1)
  {
    match CheckGroups(doc)
    case Fail(e) => Failure(e)
    case Pass => Success(ToPackables(GroupEntries(doc).value))
  }

  /** `AutoConversionToPackableData`: validate, then push one record per group. */
  method AutoConversionToPackableData(doc: Json) returns (r: Result<seq<PackableData>, PackError>)
    ensures r == PackableDatas(doc)
  {
    var checked := CheckWholeAtlasJson(doc);
    if checked.Fail? {
      return Failure(checked.error);
    }
    var es := GroupEntries(doc).value;
    var datas: seq<PackableData> := [];
    var i := 0;
    while i < |es|
      invariant 0 <= i <= |es|
      invariant datas == ToPackables(es[..i])
    {
      assert es[..i + 1][..i] == es[..i];
      datas := datas + [ToPackable(es[i].0, es[i].1)];
      i := i + 1;
    }
    assert es[..i] == es;
    return Success(datas);
  }

  // ---------------------------------------------------------------
  // Measuring
  // ---------------------------------------------------------------

  /** The image file of a record: named after its last path segment when the method is "path", after its id otherwise. */
  function ImageFile(media: string, isPath: bool, data: PackableData): string {
    if isPath then MemberFile(media, TemplateText(LastOf(Some(Arr(data.path))).value))
    else MemberFile(media, data.id)
  }

  /** A record with the width, height and file path the image probe reports for its image. */
  function Measure(media: string, isPath: bool, dimensionOf: string -> ImageInfo, data: PackableData): (m: MeasuredItem)
    ensures m.data == data
    ensures m.width == dimensionOf(ImageFile(media, isPath, data)).width
    ensures m.height == dimensionOf(ImageFile(media, isPath, data)).height
    ensures m.filePath == dimensionOf(ImageFile(media, isPath, data)).filePath
  {
    var info := dimensionOf(ImageFile(media, isPath, data));
    MeasuredItem(data, info.width, info.height, info.filePath)
  }

  /** The dimension loop (`pack.ts` lines 511-527), with the probe as a parameter. */
  method MeasureAll(media: string, isPath: bool, dimensionOf: string -> ImageInfo, datas: seq<PackableData>)
    returns (items: seq<MeasuredItem>)
    ensures |items| == |datas|
    ensures forall k :: 0 <= k < |datas| ==> items[k] == Measure(media, isPath, dimensionOf, datas[k])
  {
    items := [];
    var i := 0;
    while i < |datas|
      invariant 0 <= i <= |datas|
      invariant |items| == i
      invariant forall k :: 0 <= k < i ==> items[k] == Measure(media, isPath, dimensionOf, datas[k])
    {
      items := items + [Measure(media, isPath, dimensionOf, datas[i])];
      i := i + 1;
    }
  }

  // ---------------------------------------------------------------
  // The oversize gate
  // ---------------------------------------------------------------

  /** The DimensionError of a flagged rectangle: about its width when that exceeds the bin width, else about its height. */
  function OversizeError(p: PlacedItem, width: int, height: int): PackError {
    if p.item.width > width then DimensionError(p.item.filePath, Width, p.item.width, width)
    else DimensionError(p.item.filePath, Height, p.item.height, height)
  }

  predicate Unflagged(bin: Bin) {
    forall j :: 0 <= j < |bin| ==> !bin[j].oversized
  }

  /** Rectangle `j` of bin `i` is flagged, and no rectangle before it in bin order is. */
  predicate FirstFlagged(bins: seq<Bin>, i: int, j: int) {
    0 <= i < |bins| && 0 <= j < |bins[i]| && bins[i][j].oversized &&
    (forall k :: 0 <= k < i ==> Unflagged(bins[k])) &&
    (forall l :: 0 <= l < j ==> !bins[i][l].oversized)
  }

  /** One bin checked rectangle by rectangle. */
  function CheckBin(bin: Bin, width: int, height: int): (r: Outcome<PackError>)
    ensures r.Pass? <==> Unflagged(bin)
    ensures r.Fail? ==> exists j :: FirstFlagged([bin], 0, j) && r.error == OversizeError(bin[j], width, height)
  {
    if |bin| == 0 then Pass
    else if bin[0].oversized then
      assert FirstFlagged([bin], 0, 0);
      Fail(OversizeError(bin[0], width, height))
    else
      var rest := CheckBin(bin[1..], width, height);
      assert rest.Fail? ==> exists j :: FirstFlagged([bin], 0, j) && rest.error == OversizeError(bin[j], width, height) by {
        if rest.Fail? {
          var j :| FirstFlagged([bin[1..]], 0, j) && rest.error == OversizeError(bin[1..][j], width, height);
          assert bin[j + 1] == bin[1..][j];
          assert forall l :: 1 <= l < j + 1 ==> bin[l] == bin[1..][l - 1];
          assert FirstFlagged([bin], 0, j + 1);
        }
      }
      assert forall j :: 1 <= j < |bin| ==> bin[j] == bin[1..][j - 1];
      rest
  }

  /** A first flagged rectangle after an unflagged first bin stays first when that bin is put back in front. */
  lemma FirstFlaggedShift(bins: seq<Bin>, i: int, j: int)
    requires |bins| > 0 && Unflagged(bins[0]) && FirstFlagged(bins[1..], i, j)
    ensures FirstFlagged(bins, i + 1, j)
  {
    assert bins[i + 1] == bins[1..][i];
    forall k | 0 <= k < i + 1 ensures Unflagged(bins[k]) {
      if k > 0 { assert bins[k] == bins[1..][k - 1]; }
    }
  }

  /**
   * What `CheckOversizedImages` does: Pass when no rectangle is flagged,
   * otherwise the DimensionError of the first flagged rectangle in bin order.
   */
  function CheckBins(bins: seq<Bin>, width: int, height: int): (r: Outcome<PackError>)
    ensures r.Pass? <==> forall i :: 0 <= i < |bins| ==> Unflagged(bins[i])
    ensures r.Fail? ==> exists i, j :: FirstFlagged(bins, i, j) && r.error == OversizeError(bins[i][j], width, height)
  {
    if |bins| == 0 then Pass
    else match CheckBin(bins[0], width, height)
      case Fail(e) =>
        var j :| FirstFlagged([bins[0]], 0, j) && e == OversizeError(bins[0][j], width, height);
        assert FirstFlagged(bins, 0, j);
        Fail(e)
      case Pass =>
        var rest := CheckBins(bins[1..], width, height);
        assert rest.Fail? ==> exists i, j :: FirstFlagged(bins, i, j) && rest.error == OversizeError(bins[i][j], width, height) by {
          if rest.Fail? {
            var i, j :| FirstFlagged(bins[1..], i, j) && rest.error == OversizeError(bins[1..][i][j], width, height);
            FirstFlaggedShift(bins, i, j);
            assert bins[i + 1] == bins[1..][i];
          }
        }
        assert forall i :: 1 <= i < |bins| ==> bins[i] == bins[1..][i - 1];
        rest
  }

  /** `CheckOversizedImages`: the nested loop over bins and their rectangles. */
  method CheckOversizedImages(bins: seq<Bin>, width: int, height: int) returns (r: Outcome<PackError>)
    ensures r == CheckBins(bins, width, height)
  {
    var i := 0;
    while i < |bins|
      invariant 0 <= i <= |bins|
      invariant CheckBins(bins, width, height) == CheckBins(bins[i..], width, height)
    {
      var bin := bins[i];
      var j := 0;
      while j < |bin|
        invariant 0 <= j <= |bin|
        invariant CheckBin(bin, width, height) == CheckBin(bin[j..], width, height)
      {
        if bin[j].oversized {
          return Fail(OversizeError(bin[j], width, height));
        }
        assert bin[j..][1..] == bin[j + 1..];
        j := j + 1;
      }
      assert bins[i..][1..] == bins[i + 1..];
      i := i + 1;
    }
    return Pass;
  }
}

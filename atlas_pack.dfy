/**
 * The atlas pack pipeline of `PackForOfficialSubgroupStructure` and
 * `PackForUnofficialSubgroupStructure`, whose bodies are the same: validate
 * the header, name the member images and check they exist, convert and
 * validate the groups, measure the images, pack them, reject oversized
 * rectangles, then assemble the manifest and the atlas images. The file
 * probe, the image probe and the bin packer come in through an
 * `Environment`.
 */
module AtlasPack {
  import opened Results
  import opened JsonValue
  import opened AtlasTypes
  import opened AtlasValidation
  import opened AtlasItems
  import opened AtlasManifest

  /** `atlas_json.method === "path"`. */
  predicate IsPathMethod(doc: Json) {
    Field(doc, "method") == Some(Str("path"))
  }

  /** The measured records handed to the packer, in group order. */
  function MeasuredItems(media: string, isPath: bool, dimensionOf: string -> ImageInfo, datas: seq<PackableData>)
    : (r: seq<MeasuredItem>)
    ensures |r| == |datas|
    ensures forall k :: 0 <= k < |datas| ==> r[k] == Measure(media, isPath, dimensionOf, datas[k])
  {
    seq(|datas|, k requires 0 <= k < |datas| => Measure(media, isPath, dimensionOf, datas[k]))
  }

  /** The manifest and atlas images of a packed, accepted atlas description. */
  function Output(doc: Json, bins: seq<Bin>): (o: PackOutput)
    requires HeaderValid(doc)
  {
    var subgroup := Field(doc, "subgroup").value.s;
    var trim := Field(doc, "trim").value.b;
    PackOutput(
      BuildManifest(subgroup, Field(doc, "res"), PathTypeOf(doc), trim, bins),
      subgroup + ".json",
      Composites(subgroup, trim, bins))
  }

  /**
   * The whole pipeline on a parsed atlas description, the media directory
   * and the bin size: the first exception thrown, or what is written.
   */
  function Pack(doc: Json, media: string, width: int, height: int, env: Environment): Result<PackOutput, PackError> {
    match CheckAtlasJsonStructure(doc)
    case Fail(e) => Failure(e)
    case Pass =>
      var isPath := IsPathMethod(doc);
      match GroupEntries(doc)
      case None => Failure(RuntimeTypeError(Groups))
      case Some(entries) =>
        match ImageNames(isPath, entries)
        case Failure(e) => Failure(e)
        case Success(names) =>
          match CheckMembers(media, names, env.fileExists)
          case Fail(e) => Failure(e)
          case Pass =>
            match PackableDatas(doc)
            case Failure(e) => Failure(e)
            case Success(datas) =>
              var bins := env.packer(width, height, MeasuredItems(media, isPath, env.dimensionOf, datas));
              match CheckBins(bins, width, height)
              case Fail(e) => Failure(e)
              case Pass => Success(Output(doc, bins))
  }

  /** The image name of a validated group: its last path segment in "path" mode, its key otherwise. */
  function MemberName(isPath: bool, entry: (string, Json)): string
    requires GroupValid(entry.1)
  {
    if isPath then TemplateText(LastOf(GroupValue(entry.1, PathField)).value) else entry.0
  }

  /** The bins the packer returns for an accepted atlas description. */
  function PackedBins(doc: Json, media: string, width: int, height: int, env: Environment): seq<Bin>
    requires CheckGroups(doc).Pass?
  {
    env.packer(width, height, MeasuredItems(media, IsPathMethod(doc), env.dimensionOf, ToPackables(GroupEntries(doc).value)))
  }

  /** Every validated group has an image name, and the names are the `MemberName`s of the groups. */
  lemma ValidGroupsNamed(isPath: bool, entries: seq<(string, Json)>)
    requires forall i :: 0 <= i < |entries| ==> GroupValid(entries[i].1)
    ensures ImageNames(isPath, entries).Success?
    ensures forall i :: 0 <= i < |entries| ==> ImageNames(isPath, entries).value[i] == MemberName(isPath, entries[i])
  {
    forall i | 0 <= i < |entries| ensures ImageName(entries[i].1).Success? {
      assert GroupFieldOk(entries[i].1, PathField);
    }
  }

  /**
   * The pipeline succeeds exactly when the header is acceptable, the groups
   * can be listed and are all acceptable, every member image exists, and the
   * packer flags no rectangle as oversized.
   */
  lemma PackSucceedsIff(doc: Json, media: string, width: int, height: int, env: Environment)
    ensures Pack(doc, media, width, height, env).Success? <==>
      HeaderValid(doc) && CheckGroups(doc).Pass? &&
      (forall i :: 0 <= i < |GroupEntries(doc).value| ==>
         env.fileExists(MemberFile(media, MemberName(IsPathMethod(doc), GroupEntries(doc).value[i])))) &&
      (forall i :: 0 <= i < |PackedBins(doc, media, width, height, env)| ==>
         Unflagged(PackedBins(doc, media, width, height, env)[i]))
  {
    if HeaderValid(doc) && CheckGroups(doc).Pass? {
      var entries := GroupEntries(doc).value;
      var isPath := IsPathMethod(doc);
      ValidGroupsNamed(isPath, entries);
      var names := ImageNames(isPath, entries).value;
      var members := CheckMembers(media, names, env.fileExists);
      assert members.Pass? <==> forall i :: 0 <= i < |entries| ==>
               env.fileExists(MemberFile(media, MemberName(isPath, entries[i])));
      var bins := PackedBins(doc, media, width, height, env);
      if members.Pass? {
        assert Pack(doc, media, width, height, env) ==
               if CheckBins(bins, width, height).Pass? then Success(Output(doc, bins))
               else Failure(CheckBins(bins, width, height).error);
      }
    }
  }

  /**
   * A group whose member image is missing is reported as a missing file even
   * when its own fields are wrong: the image names are checked before the
   * groups are validated.
   */
  lemma MissingImageBeforeGroupErrors(doc: Json, media: string, width: int, height: int, env: Environment)
    requires HeaderValid(doc) && !IsPathMethod(doc) && GroupEntries(doc).Some?
    requires exists i :: 0 <= i < |GroupEntries(doc).value| && !env.fileExists(MemberFile(media, GroupEntries(doc).value[i].0))
    ensures Pack(doc, media, width, height, env).Failure?
    ensures Pack(doc, media, width, height, env).error.MissingFile?
  {
    var entries := GroupEntries(doc).value;
    var names := ImageNames(false, entries);
    var i :| 0 <= i < |entries| && !env.fileExists(MemberFile(media, entries[i].0));
    assert names.value[i] == entries[i].0;
  }

  /** The image a group's record is measured from is the member file whose existence was checked. */
  lemma MeasuredFileIsCheckedFile(media: string, isPath: bool, entry: (string, Json))
    requires GroupValid(entry.1)
    ensures ImageFile(media, isPath, ToPackable(entry.0, entry.1)) == MemberFile(media, MemberName(isPath, entry))
  {
  }

  /** In a successful run the image probe is only ever asked about files that exist. */
  lemma PackMeasuresExistingFiles(doc: Json, media: string, width: int, height: int, env: Environment)
    requires Pack(doc, media, width, height, env).Success?
    ensures HeaderValid(doc) && CheckGroups(doc).Pass?
    ensures forall k :: 0 <= k < |GroupEntries(doc).value| ==>
              env.fileExists(ImageFile(media, IsPathMethod(doc), ToPackables(GroupEntries(doc).value)[k]))
  {
    PackSucceedsIff(doc, media, width, height, env);
    var entries := GroupEntries(doc).value;
    forall k | 0 <= k < |entries|
      ensures env.fileExists(ImageFile(media, IsPathMethod(doc), ToPackables(entries)[k]))
    {
      MeasuredFileIsCheckedFile(media, IsPathMethod(doc), entries[k]);
    }
  }

  /** The rectangles the packer returns are among the items it was given. */
  predicate PlacesOnlyItems(items: seq<MeasuredItem>, bins: seq<Bin>) {
    forall i, j :: 0 <= i < |bins| && 0 <= j < |bins[i]| ==> bins[i][j].item in items
  }

  /** What a successful run writes is the output of the bins the packer returned. */
  lemma PackSuccessOutput(doc: Json, media: string, width: int, height: int, env: Environment)
    requires Pack(doc, media, width, height, env).Success?
    ensures HeaderValid(doc) && CheckGroups(doc).Pass?
    ensures Pack(doc, media, width, height, env).value == Output(doc, PackedBins(doc, media, width, height, env))
  {
  }

  /**
   * The manifest of a successful run: id = subgroup, parent = subgroup
   * without the first "_<res>", type "simple"; one atlas descriptor per bin
   * and one sprite per packed rectangle; one atlas image per bin; the file
   * `<subgroup>.json`.
   */
  lemma PackOutputShape(doc: Json, media: string, width: int, height: int, env: Environment)
    requires Pack(doc, media, width, height, env).Success?
    ensures HeaderValid(doc) && CheckGroups(doc).Pass?
    ensures var o := Pack(doc, media, width, height, env).value;
            var subgroup := Field(doc, "subgroup").value.s;
            var bins := PackedBins(doc, media, width, height, env);
            o.manifest.id == subgroup && o.manifest.kind == "simple" && o.manifest.res == Field(doc, "res") &&
            o.manifest.parent == ParentOf(subgroup, Field(doc, "res")) &&
            o.manifestFile == subgroup + ".json" &&
            |o.manifest.resources| == |bins| + TotalLength(bins) &&
            |o.images| == |bins|
  {
    PackSuccessOutput(doc, media, width, height, env);
  }

  /**
   * When the packer returns only the items measured from the groups, every
   * sprite of the resource list describes one group: its id is the group
   * key, its x and y are the group's default x and y, and it has `cols`
   * exactly when the group's default has. (`PackSuccessOutput` says a
   * successful run writes the resource list of the bins the packer
   * returned for the groups' records.)
   */
  lemma SpritesDescribeGroups(subgroup: string, pathType: PathType, trim: bool, bins: seq<Bin>,
                              media: string, isPath: bool, dimensionOf: string -> ImageInfo,
                              entries: seq<(string, Json)>, q: nat)
    returns (k: nat)
    requires forall i :: 0 <= i < |entries| ==> GroupValid(entries[i].1)
    requires PlacesOnlyItems(MeasuredItems(media, isPath, dimensionOf, ToPackables(entries)), bins)
    requires q < |Resources(subgroup, pathType, trim, bins)|
    requires Resources(subgroup, pathType, trim, bins)[q].Sprite?
    ensures k < |entries|
    ensures var s := Resources(subgroup, pathType, trim, bins)[q];
            s.id == entries[k].0 &&
            s.x == GroupValue(entries[k].1, X).value.i && s.y == GroupValue(entries[k].1, Y).value.i &&
            (s.cols.Some? <==> GroupValue(entries[k].1, Cols).Some?)
  {
    var items := MeasuredItems(media, isPath, dimensionOf, ToPackables(entries));
    k := SpriteOfItem(subgroup, pathType, trim, bins, items, q);
    assert items[k].data == ToPackable(entries[k].0, entries[k].1);
  }

  /** When the bins hold only given items, every sprite carries the id, default x and y, and cols of one of them. */
  lemma SpriteOfItem(subgroup: string, pathType: PathType, trim: bool, bins: seq<Bin>, items: seq<MeasuredItem>, q: nat)
    returns (k: nat)
    requires PlacesOnlyItems(items, bins)
    requires q < |Resources(subgroup, pathType, trim, bins)|
    requires Resources(subgroup, pathType, trim, bins)[q].Sprite?
    ensures k < |items|
    ensures var s := Resources(subgroup, pathType, trim, bins)[q];
            s.id == items[k].data.id && s.x == items[k].data.infoX && s.y == items[k].data.infoY &&
            s.cols == items[k].data.cols
  {
    var i, j := SpriteSource(subgroup, pathType, trim, bins, q);
    k :| 0 <= k < |items| && items[k] == bins[i][j].item;
  }
}

/**
 * The records the atlas pack pipeline passes between its stages: the error
 * it throws, the packable items it builds from the atlas description, the
 * rectangles a bin packer places, and the resource manifest it writes.
 */
module AtlasTypes {
  import opened Results
  import opened JsonValue

  /** What a WrongDataType error says the field should have been. */
  datatype Expected = StringType | BooleanType | ArrayType | IntegerType | OneOf(choices: seq<string>)

  datatype Axis = Width | Height

  /** The fields of the atlas description that the checks name. */
  datatype FieldName = Subgroup | Method | Trim | Groups | ExpandPath | PathField | X | Y | Cols {
    /** The JSON key of the field (`path`, `x`, `y` and `cols` belong to a group or to its `default`). */
    function Key(): string {
      match this
      case Subgroup => "subgroup"
      case Method => "method"
      case Trim => "trim"
      case Groups => "groups"
      case ExpandPath => "expand_path"
      case PathField => "path"
      case X => "x"
      case Y => "y"
      case Cols => "cols"
    }
  }

  /**
   * The exceptions the pipeline throws. Each names the one field (or file)
   * it is about; the localized message text is not modelled.
   * `RuntimeTypeError` is the TypeError JavaScript itself throws while a
   * check on `field` is being evaluated (an `in` on a primitive, a property
   * read or method call on null or undefined).
   */
  datatype PackError =
    | MissingProperty(field: FieldName)
    | WrongDataType(field: FieldName, expected: Expected)
    | RuntimeTypeError(field: FieldName)
    | MissingFile(path: string)
    | DimensionError(file: string, axis: Axis, actual: int, limit: int)

  /** One group of the atlas description, ready for packing. */
  datatype PackableData = PackableData(id: string, path: seq<Json>, infoX: int, infoY: int, cols: Option<int>)

  /** A packable item once its image has been measured. */
  datatype MeasuredItem = MeasuredItem(data: PackableData, width: int, height: int, filePath: string)

  /** What an image probe reports for a file. */
  datatype ImageInfo = ImageInfo(width: int, height: int, filePath: string)

  /** A rectangle as the bin packer returns it: the item, its position, and whether it did not fit. */
  datatype PlacedItem = PlacedItem(item: MeasuredItem, x: int, y: int, oversized: bool) {
    function Right(): int { x + item.width }
    function Bottom(): int { y + item.height }
  }

  type Bin = seq<PlacedItem>

  datatype Dimension = Dimension(width: int, height: int)

  /** A resource path: one backslash-joined string, or the list of segments. */
  datatype PathValue = PathText(text: string) | PathSegments(segments: seq<Json>)

  datatype PathType = StringPaths | ArrayPaths

  datatype Resource =
    | AtlasImage(slot: int, id: string, path: PathValue, kind: string, atlas: bool,
                 width: int, height: int, runtime: bool)
    | Sprite(slot: int, id: string, path: PathValue, kind: string, parent: string,
             ax: int, ay: int, aw: int, ah: int, x: int, y: int, cols: Option<int>)

  /** The subgroup resource file; `res` is None when the atlas description has no `res`. */
  datatype Manifest = Manifest(id: string, parent: string, res: Option<Json>, resources: seq<Resource>, kind: string)

  /** The arguments of one image-compositing call: the rectangles of a bin, the file name and the canvas size. */
  datatype CompositeRequest = CompositeRequest(placements: Bin, fileName: string, width: int, height: int)

  /** Everything the pipeline writes: the manifest (under `manifestFile`) and one atlas image per bin. */
  datatype PackOutput = PackOutput(manifest: Manifest, manifestFile: string, images: seq<CompositeRequest>)

  /**
   * The pipeline's view of the outside world: whether a file exists, what an
   * image probe says about a file, and the bin packer, which receives the bin
   * width, the bin height and the measured items, and returns the bins.
   */
  datatype Environment = Environment(
    fileExists: string -> bool,
    dimensionOf: string -> ImageInfo,
    packer: (int, int, seq<MeasuredItem>) -> seq<Bin>)

  /** The summed length of a list of lists (for bins: the number of packed rectangles). */
  function TotalLength<T>(blocks: seq<seq<T>>): nat {
    if |blocks| == 0 then 0 else TotalLength(blocks[..|blocks| - 1]) + |blocks[|blocks| - 1]|
  }

  /** `[f(0, xs[0]), f(1, xs[1]), ...]`, built front to back as a loop pushing one result per element would. */
  function MapIndexed<T, U>(f: (nat, T) -> U, xs: seq<T>): (r: seq<U>)
    ensures |r| == |xs|
  {
    if |xs| == 0 then [] else MapIndexed(f, xs[..|xs| - 1]) + [f(|xs| - 1, xs[|xs| - 1])]
  }

  lemma {:induction false} MapIndexedAt<T, U>(f: (nat, T) -> U, xs: seq<T>, i: nat)
    requires i < |xs|
    ensures MapIndexed(f, xs)[i] == f(i, xs[i])
  {
    var n := |xs| - 1;
    if i < n {
      MapIndexedAt(f, xs[..n], i);
    }
  }

  /**
   * When every list `k` is one longer than `others[k]`, the lists before `i`
   * hold `i` more elements than the `others` before `i`.
   */
  lemma {:induction false} TotalLengthOneLonger<T, U>(blocks: seq<seq<T>>, others: seq<seq<U>>, i: nat)
    requires |blocks| == |others| && i <= |blocks|
    requires forall k :: 0 <= k < |blocks| ==> |blocks[k]| == 1 + |others[k]|
    ensures TotalLength(blocks[..i]) == i + TotalLength(others[..i])
  {
    if i > 0 {
      TotalLengthOneLonger(blocks, others, i - 1);
      assert blocks[..i][..i - 1] == blocks[..i - 1];
      assert others[..i][..i - 1] == others[..i - 1];
    }
  }

  /** Element `k` of `[x] + s`, for `k >= 1`, is element `k - 1` of `s`. */
  lemma ConsAt<T>(x: T, s: seq<T>, k: nat)
    requires 1 <= k <= |s|
    ensures ([x] + s)[k] == s[k - 1]
  {
  }

  /** The lists one after the other (for bins: all rectangles in bin order). */
  function Concat<T>(blocks: seq<seq<T>>): (r: seq<T>)
    ensures |r| == TotalLength(blocks)
  {
    if |blocks| == 0 then [] else Concat(blocks[..|blocks| - 1]) + blocks[|blocks| - 1]
  }

  /** List `i` sits in the concatenation right after the lists before it. */
  lemma {:induction false} ConcatBlock<T>(blocks: seq<seq<T>>, i: nat)
    requires i < |blocks|
    ensures TotalLength(blocks[..i]) + |blocks[i]| <= |Concat(blocks)|
    ensures Concat(blocks)[TotalLength(blocks[..i])..TotalLength(blocks[..i]) + |blocks[i]|] == blocks[i]
  {
    var n := |blocks| - 1;
    var front := blocks[..n];
    assert Concat(blocks) == Concat(front) + blocks[n];
    if i < n {
      ConcatBlock(front, i);
      assert front[..i] == blocks[..i];
    } else {
      assert blocks[..i] == front;
    }
  }

  /** Element `k` of list `i` sits at offset `k` past the lists before it. */
  lemma ConcatAt<T>(blocks: seq<seq<T>>, i: nat, k: nat)
    requires i < |blocks| && k < |blocks[i]|
    ensures TotalLength(blocks[..i]) + k < |Concat(blocks)|
    ensures Concat(blocks)[TotalLength(blocks[..i]) + k] == blocks[i][k]
  {
    ConcatBlock(blocks, i);
    var t := TotalLength(blocks[..i]);
    assert Concat(blocks)[t + k] == Concat(blocks)[t..t + |blocks[i]|][k];
  }

  /** Element `k` of list `i` sits at offset `s + k`, `s` being the summed length of the lists before it. */
  lemma ConcatAtOffset<T>(blocks: seq<seq<T>>, i: nat, k: nat, s: nat)
    requires i < |blocks| && k < |blocks[i]| && s == TotalLength(blocks[..i])
    ensures s + |blocks[i]| <= |Concat(blocks)|
    ensures Concat(blocks)[s + k] == blocks[i][k]
  {
    ConcatAt(blocks, i, k);
    ConcatBlock(blocks, i);
  }

  lemma ConcatSnoc<T>(blocks: seq<seq<T>>, i: nat)
    requires i < |blocks|
    ensures Concat(blocks[..i + 1]) == Concat(blocks[..i]) + blocks[i]
  {
    assert blocks[..i + 1][..i] == blocks[..i];
  }

  /** Position `q` of the concatenation is position `k` of list `b`. */
  lemma {:induction false} BlockOf<T>(blocks: seq<seq<T>>, q: nat) returns (b: nat, k: nat)
    requires q < |Concat(blocks)|
    ensures b < |blocks| && k < |blocks[b]|
    ensures Concat(blocks)[q] == blocks[b][k]
  {
    var n := |blocks| - 1;
    var head := Concat(blocks[..n]);
    assert Concat(blocks) == head + blocks[n];
    if q < |head| {
      b, k := BlockOf(blocks[..n], q);
    } else {
      b, k := n, q - |head|;
    }
  }

}

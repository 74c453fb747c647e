/**
 * Assembly of the subgroup resource manifest from the packed bins
 * (`pack.ts` lines 540-605): the header, then for every bin its atlas image
 * descriptor followed by one sprite descriptor per packed rectangle, and the
 * compositing request of every bin's atlas image.
 */
module AtlasManifest {
  import opened Results
  import opened Text
  import opened JsonValue
  import opened AtlasTypes
  import opened AtlasTrim

  const AtlasIdPrefix: string := "ATLASIMAGE_ATLAS_"

  /** `i < 10 ? "0" + i : i`: the decimal bin number, zero-padded to two digits. */
  function BinLabel(i: nat): (s: string)
    ensures |s| >= 2
  {
    if i < 10 then "0" + NatText(i) else NatText(i)
  }

  /** The bin number can be read back from its label, so different bins get different labels. */
  lemma BinLabelValue(i: nat)
    ensures DecimalValue(BinLabel(i)) == i
  {
    DecimalValueOfNatText(i);
    if i < 10 {
      DecimalValueLeadingZero(NatText(i));
    }
  }

  /** `<SUBGROUP>_<NN>`: the name of bin `i`'s atlas image. */
  function ParentName(subgroup: string, i: nat): string {
    ToUpper(subgroup) + "_" + BinLabel(i)
  }

  function AtlasId(subgroup: string, i: nat): string {
    AtlasIdPrefix + ParentName(subgroup, i)
  }

  /** Different bins of one subgroup get different atlas ids. */
  lemma AtlasIdsDistinct(subgroup: string, i: nat, k: nat)
    requires i != k
    ensures AtlasId(subgroup, i) != AtlasId(subgroup, k)
  {
    var p := AtlasIdPrefix + ToUpper(subgroup) + "_";
    assert AtlasId(subgroup, i) == p + BinLabel(i);
    assert AtlasId(subgroup, k) == p + BinLabel(k);
    BinLabelValue(i);
    BinLabelValue(k);
    DistinctSuffixes(p, BinLabel(i), BinLabel(k));
  }

  lemma DistinctSuffixes<T>(p: seq<T>, a: seq<T>, b: seq<T>)
    requires a != b
    ensures p + a != p + b
  {
    assert (p + a)[|p|..] == a && (p + b)[|p|..] == b;
  }

  /** `subgroup.replace("_" + res, "")`: an absent `res` is spelled "undefined". */
  function ParentOf(subgroup: string, res: Option<Json>): string {
    RemoveFirst(subgroup, "_" + TemplateText(res))
  }

  /** The canvas of a bin: the tight box when trimming, the power-of-two box otherwise. */
  function BinCanvas(trim: bool, bin: Bin): Dimension {
    if trim then ReducerTrim(bin) else SquareTrim(bin)
  }

  function AtlasDescriptor(subgroup: string, pathType: PathType, i: nat, canvas: Dimension): Resource {
    var name := ParentName(subgroup, i);
    AtlasImage(
      0, AtlasId(subgroup, i),
      if pathType == StringPaths then PathText("atlases\\" + name) else PathSegments([Str("atlases"), Str(name)]),
      "Image", true, canvas.width, canvas.height, true)
  }

  function SpriteDescriptor(subgroup: string, pathType: PathType, i: nat, p: PlacedItem): Resource {
    var d := p.item.data;
    Sprite(
      0, d.id,
      if pathType == StringPaths then PathText(JoinJson(d.path, "\\")) else PathSegments(d.path),
      "Image", AtlasId(subgroup, i),
      p.x, p.y, p.item.width, p.item.height, d.infoX, d.infoY, d.cols)
  }

  /** The sprite descriptors of the rectangles of bin `i`, in bin order. */
  function Sprites(subgroup: string, pathType: PathType, i: nat, bin: Bin): (r: seq<Resource>)
    ensures |r| == |bin|
  {
    MapIndexed((j: nat, p: PlacedItem) => SpriteDescriptor(subgroup, pathType, i, p), bin)
  }

  /** An atlas image of the given canvas, then the sprites of bin `i` in bin order. */
  function Block(subgroup: string, pathType: PathType, i: nat, canvas: Dimension, bin: Bin): (r: seq<Resource>)
    ensures |r| == 1 + |bin|
  {
    [AtlasDescriptor(subgroup, pathType, i, canvas)] + Sprites(subgroup, pathType, i, bin)
  }

  /** The resources bin `i` contributes: its atlas image, sized by the trim rule, then its sprites in bin order. */
  function BinResources(subgroup: string, pathType: PathType, trim: bool, i: nat, bin: Bin): (r: seq<Resource>)
    ensures |r| == 1 + |bin|
  {
    Block(subgroup, pathType, i, BinCanvas(trim, bin), bin)
  }

  /** Entry `1 + j` of a block is the sprite descriptor of rectangle `j`. */
  lemma BlockSpriteAt(subgroup: string, pathType: PathType, i: nat, canvas: Dimension, bin: Bin, j: nat)
    requires j < |bin|
    ensures Block(subgroup, pathType, i, canvas, bin)[1 + j] == SpriteDescriptor(subgroup, pathType, i, bin[j])
  {
    ConsAt(AtlasDescriptor(subgroup, pathType, i, canvas), Sprites(subgroup, pathType, i, bin), 1 + j);
    SpritesAt(subgroup, pathType, i, bin, j);
  }

  /** A sprite in a block is the descriptor of one of the bin's rectangles. */
  lemma BlockSprite(subgroup: string, pathType: PathType, i: nat, canvas: Dimension, bin: Bin, k: nat)
    returns (j: nat)
    requires k < |Block(subgroup, pathType, i, canvas, bin)|
    requires Block(subgroup, pathType, i, canvas, bin)[k].Sprite?
    ensures j < |bin| && k == 1 + j
    ensures Block(subgroup, pathType, i, canvas, bin)[k] == SpriteDescriptor(subgroup, pathType, i, bin[j])
  {
    assert Block(subgroup, pathType, i, canvas, bin)[0] == AtlasDescriptor(subgroup, pathType, i, canvas);
    j := k - 1;
    BlockSpriteAt(subgroup, pathType, i, canvas, bin, j);
  }

  /** Entry `1 + j` of a bin's contribution is the sprite descriptor of its rectangle `j`. */
  lemma BinResourcesAt(subgroup: string, pathType: PathType, trim: bool, i: nat, bin: Bin, j: nat)
    requires j < |bin|
    ensures BinResources(subgroup, pathType, trim, i, bin)[1 + j] == SpriteDescriptor(subgroup, pathType, i, bin[j])
  {
    BlockSpriteAt(subgroup, pathType, i, BinCanvas(trim, bin), bin, j);
  }

  /** The contribution of every bin, in bin order. */
  function Blocks(subgroup: string, pathType: PathType, trim: bool, bins: seq<Bin>): (r: seq<seq<Resource>>)
    ensures |r| == |bins|
  {
    MapIndexed((i: nat, bin: Bin) => BinResources(subgroup, pathType, trim, i, bin), bins)
  }

  /** Block `i` is what bin `i` contributes. */
  lemma BlocksAt(subgroup: string, pathType: PathType, trim: bool, bins: seq<Bin>, i: nat)
    requires i < |bins|
    ensures Blocks(subgroup, pathType, trim, bins)[i] == BinResources(subgroup, pathType, trim, i, bins[i])
  {
    MapIndexedAt((i: nat, bin: Bin) => BinResources(subgroup, pathType, trim, i, bin), bins, i);
  }

  /** The resource list: the bins' contributions, bin after bin. */
  function Resources(subgroup: string, pathType: PathType, trim: bool, bins: seq<Bin>): seq<Resource> {
    Concat(Blocks(subgroup, pathType, trim, bins))
  }

  /** Every sprite of the resource list is the descriptor of some packed rectangle. */
  lemma SpriteSource(subgroup: string, pathType: PathType, trim: bool, bins: seq<Bin>, q: nat)
    returns (i: nat, j: nat)
    requires q < |Resources(subgroup, pathType, trim, bins)|
    requires Resources(subgroup, pathType, trim, bins)[q].Sprite?
    ensures i < |bins| && j < |bins[i]|
    ensures Resources(subgroup, pathType, trim, bins)[q] == SpriteDescriptor(subgroup, pathType, i, bins[i][j])
  {
    var k;
    i, k := ResourceInBlock(subgroup, pathType, trim, bins, q);
    j := SpriteInBlocks(subgroup, pathType, trim, bins, i, k);
  }

  /** Entry `q` of the resource list is entry `k` of the contribution of some bin `b`. */
  lemma ResourceInBlock(subgroup: string, pathType: PathType, trim: bool, bins: seq<Bin>, q: nat)
    returns (b: nat, k: nat)
    requires q < |Resources(subgroup, pathType, trim, bins)|
    ensures b < |bins| && k < |Blocks(subgroup, pathType, trim, bins)[b]|
    ensures Resources(subgroup, pathType, trim, bins)[q] == Blocks(subgroup, pathType, trim, bins)[b][k]
  {
    b, k := BlockOf(Blocks(subgroup, pathType, trim, bins), q);
  }

  /** A sprite in the contribution of bin `b` is the descriptor of one of its rectangles. */
  lemma SpriteInBlocks(subgroup: string, pathType: PathType, trim: bool, bins: seq<Bin>, b: nat, k: nat)
    returns (j: nat)
    requires b < |bins| && k < |Blocks(subgroup, pathType, trim, bins)[b]|
    requires Blocks(subgroup, pathType, trim, bins)[b][k].Sprite?
    ensures j < |bins[b]| && k == 1 + j
    ensures Blocks(subgroup, pathType, trim, bins)[b][k] == SpriteDescriptor(subgroup, pathType, b, bins[b][j])
  {
    BlocksAt(subgroup, pathType, trim, bins, b);
    j := BlockSprite(subgroup, pathType, b, BinCanvas(trim, bins[b]), bins[b], k);
  }

  /** Sprite `j` of a bin is the descriptor of its rectangle `j`. */
  lemma SpritesAt(subgroup: string, pathType: PathType, i: nat, bin: Bin, j: nat)
    requires j < |bin|
    ensures Sprites(subgroup, pathType, i, bin)[j] == SpriteDescriptor(subgroup, pathType, i, bin[j])
  {
    MapIndexedAt((j: nat, p: PlacedItem) => SpriteDescriptor(subgroup, pathType, i, p), bin, j);
  }

  /** `Resources` holds one atlas descriptor per bin and one sprite per packed rectangle. */
  lemma {:induction false} ResourcesCount(subgroup: string, pathType: PathType, trim: bool, bins: seq<Bin>)
    ensures |Resources(subgroup, pathType, trim, bins)| == |bins| + TotalLength(bins)
  {
    StartIsOffset(subgroup, pathType, trim, bins, |bins|);
    assert Blocks(subgroup, pathType, trim, bins)[..|bins|] == Blocks(subgroup, pathType, trim, bins);
    assert bins[..|bins|] == bins;
  }

  /** Where bin `i`'s atlas descriptor sits: after `i` atlas descriptors and the rectangles of the bins before it. */
  function Start(bins: seq<Bin>, i: nat): nat
    requires i <= |bins|
  {
    i + TotalLength(bins[..i])
  }

  lemma StartIsOffset(subgroup: string, pathType: PathType, trim: bool, bins: seq<Bin>, i: nat)
    requires i <= |bins|
    ensures TotalLength(Blocks(subgroup, pathType, trim, bins)[..i]) == Start(bins, i)
  {
    var blocks := Blocks(subgroup, pathType, trim, bins);
    forall k | 0 <= k < |blocks| ensures |blocks[k]| == 1 + |bins[k]| {
      BlockLength(subgroup, pathType, trim, bins, k);
    }
    TotalLengthOneLonger(blocks, bins, i);
  }

  lemma BlockLength(subgroup: string, pathType: PathType, trim: bool, bins: seq<Bin>, i: nat)
    requires i < |bins|
    ensures |Blocks(subgroup, pathType, trim, bins)[i]| == 1 + |bins[i]|
  {
    BlocksAt(subgroup, pathType, trim, bins, i);
  }

  /** Bin `i`'s block sits in the resource list from `Start(bins, i)` on. */
  lemma BlockInResources(subgroup: string, pathType: PathType, trim: bool, bins: seq<Bin>, i: nat, k: nat)
    requires i < |bins| && k <= |bins[i]|
    ensures |Blocks(subgroup, pathType, trim, bins)[i]| == 1 + |bins[i]|
    ensures Start(bins, i) + |bins[i]| < |Resources(subgroup, pathType, trim, bins)|
    ensures Resources(subgroup, pathType, trim, bins)[Start(bins, i) + k] == Blocks(subgroup, pathType, trim, bins)[i][k]
  {
    BlockLength(subgroup, pathType, trim, bins, i);
    StartIsOffset(subgroup, pathType, trim, bins, i);
    ConcatAtOffset(Blocks(subgroup, pathType, trim, bins), i, k, Start(bins, i));
  }

  /** The atlas descriptor of bin `i` is at `Start(bins, i)`. */
  lemma AtlasInResources(subgroup: string, pathType: PathType, trim: bool, bins: seq<Bin>, i: nat)
    requires i < |bins|
    ensures Start(bins, i) + |bins[i]| < |Resources(subgroup, pathType, trim, bins)|
    ensures Resources(subgroup, pathType, trim, bins)[Start(bins, i)] ==
            AtlasDescriptor(subgroup, pathType, i, BinCanvas(trim, bins[i]))
  {
    BlockInResources(subgroup, pathType, trim, bins, i, 0);
    BlocksAt(subgroup, pathType, trim, bins, i);
  }

  /** The sprite descriptor of rectangle `j` of bin `i` is `1 + j` places after that bin's atlas descriptor. */
  lemma SpriteInResources(subgroup: string, pathType: PathType, trim: bool, bins: seq<Bin>, i: nat, j: nat)
    requires i < |bins| && j < |bins[i]|
    ensures Start(bins, i) + |bins[i]| < |Resources(subgroup, pathType, trim, bins)|
    ensures Resources(subgroup, pathType, trim, bins)[Start(bins, i) + 1 + j] ==
            SpriteDescriptor(subgroup, pathType, i, bins[i][j])
  {
    var s := Start(bins, i);
    BlockInResources(subgroup, pathType, trim, bins, i, 1 + j);
    SpriteInBlocksAt(subgroup, pathType, trim, bins, i, j);
    assert s + 1 + j == s + (1 + j);
  }

  /** Entry `1 + j` of bin `i`'s block is the sprite descriptor of its rectangle `j`. */
  lemma SpriteInBlocksAt(subgroup: string, pathType: PathType, trim: bool, bins: seq<Bin>, i: nat, j: nat)
    requires i < |bins| && j < |bins[i]|
    ensures 1 + j < |Blocks(subgroup, pathType, trim, bins)[i]|
    ensures Blocks(subgroup, pathType, trim, bins)[i][1 + j] == SpriteDescriptor(subgroup, pathType, i, bins[i][j])
  {
    BlocksAt(subgroup, pathType, trim, bins, i);
    BinResourcesAt(subgroup, pathType, trim, i, bins[i], j);
  }

  /**
   * The layout of the resource list: from `Start(bins, i)` on, bin `i`'s
   * atlas descriptor with id `ATLASIMAGE_ATLAS_<SUBGROUP>_<NN>` and the
   * bin's canvas as its size, followed by the sprite descriptors of its
   * rectangles in bin order, each with that atlas id as parent.
   */
  lemma ResourcesLayout(subgroup: string, pathType: PathType, trim: bool, bins: seq<Bin>, i: nat)
    requires i < |bins|
    ensures Start(bins, i) + |bins[i]| < |Resources(subgroup, pathType, trim, bins)|
    ensures Resources(subgroup, pathType, trim, bins)[Start(bins, i)] ==
            AtlasDescriptor(subgroup, pathType, i, BinCanvas(trim, bins[i]))
    ensures forall j :: 0 <= j < |bins[i]| ==>
              Resources(subgroup, pathType, trim, bins)[Start(bins, i) + 1 + j] ==
              SpriteDescriptor(subgroup, pathType, i, bins[i][j])
  {
    AtlasInResources(subgroup, pathType, trim, bins, i);
    forall j | 0 <= j < |bins[i]|
      ensures Resources(subgroup, pathType, trim, bins)[Start(bins, i) + 1 + j] ==
              SpriteDescriptor(subgroup, pathType, i, bins[i][j])
    {
      SpriteInResources(subgroup, pathType, trim, bins, i, j);
    }
  }

  /** A bin's block: an atlas image first, then only sprites whose parent is that image. */
  predicate WellFormedBlock(block: seq<Resource>) {
    |block| >= 1 && block[0].AtlasImage? &&
    forall k :: 1 <= k < |block| ==> block[k].Sprite? && block[k].parent == block[0].id
  }

  lemma BinResourcesWellFormed(subgroup: string, pathType: PathType, trim: bool, i: nat, bin: Bin)
    ensures WellFormedBlock(BinResources(subgroup, pathType, trim, i, bin))
  {
    var block := BinResources(subgroup, pathType, trim, i, bin);
    forall k | 1 <= k < |block|
      ensures block[k].Sprite? && block[k].parent == block[0].id
    {
      BinResourcesAt(subgroup, pathType, trim, i, bin, k - 1);
    }
  }

  /** In a concatenation of well-formed blocks every sprite has its parent image before it, with only sprites in between. */
  lemma {:induction false} SpriteAfterParent(blocks: seq<seq<Resource>>, q: nat)
    requires forall i :: 0 <= i < |blocks| ==> WellFormedBlock(blocks[i])
    requires q < |Concat(blocks)| && Concat(blocks)[q].Sprite?
    ensures exists a :: 0 <= a < q && Concat(blocks)[a].AtlasImage? && Concat(blocks)[a].id == Concat(blocks)[q].parent &&
                        forall b :: a < b < q ==> Concat(blocks)[b].Sprite?
  {
    var n := |blocks| - 1;
    var head := Concat(blocks[..n]);
    var last := blocks[n];
    var all := Concat(blocks);
    assert all == head + last;
    if q < |head| {
      SpriteAfterParent(blocks[..n], q);
      var a :| 0 <= a < q && head[a].AtlasImage? && head[a].id == head[q].parent &&
               forall b :: a < b < q ==> head[b].Sprite?;
      assert all[a] == head[a] && all[q] == head[q];
      assert forall b :: a < b < q ==> all[b] == head[b];
    } else {
      var a := |head|;
      assert WellFormedBlock(last);
      assert all[a] == last[0];
      assert all[q] == last[q - a];
      assert forall b :: a < b < q ==> all[b] == last[b - a];
    }
  }

  /**
   * Every sprite's parent is the id of the nearest atlas descriptor before
   * it: the sprites of a bin follow their own atlas image, with no other
   * atlas image in between.
   */
  lemma SpritesFollowTheirAtlas(subgroup: string, pathType: PathType, trim: bool, bins: seq<Bin>, q: nat)
    requires q < |Resources(subgroup, pathType, trim, bins)|
    requires Resources(subgroup, pathType, trim, bins)[q].Sprite?
    ensures exists a :: 0 <= a < q &&
              Resources(subgroup, pathType, trim, bins)[a].AtlasImage? &&
              Resources(subgroup, pathType, trim, bins)[a].id == Resources(subgroup, pathType, trim, bins)[q].parent &&
              forall b :: a < b < q ==> Resources(subgroup, pathType, trim, bins)[b].Sprite?
  {
    var blocks := Blocks(subgroup, pathType, trim, bins);
    forall i | 0 <= i < |blocks| ensures WellFormedBlock(blocks[i]) {
      BlocksAt(subgroup, pathType, trim, bins, i);
      BinResourcesWellFormed(subgroup, pathType, trim, i, bins[i]);
    }
    SpriteAfterParent(blocks, q);
  }

  /** The path kind of the manifest: strings only when `expand_path` is "string". */
  function PathTypeOf(doc: Json): PathType {
    if HasKey(doc, "expand_path") && Field(doc, "expand_path") == Some(Str("string")) then StringPaths else ArrayPaths
  }

  /** The subgroup manifest; `res` is passed through as read. */
  function BuildManifest(subgroup: string, res: Option<Json>, pathType: PathType, trim: bool, bins: seq<Bin>): (m: Manifest)
    ensures m.id == subgroup && m.kind == "simple" && m.res == res
    ensures m.parent == ParentOf(subgroup, res)
    ensures |m.resources| == |bins| + TotalLength(bins)
  {
    ResourcesCount(subgroup, pathType, trim, bins);
    Manifest(subgroup, ParentOf(subgroup, res), res, Resources(subgroup, pathType, trim, bins), "simple")
  }

  /** The atlas images to composite: one per bin, named `<SUBGROUP>_<NN>.png`, on the bin's canvas. */
  function Composites(subgroup: string, trim: bool, bins: seq<Bin>): (r: seq<CompositeRequest>)
    ensures |r| == |bins|
    ensures forall i :: 0 <= i < |bins| ==>
              r[i].placements == bins[i] && r[i].fileName == ParentName(subgroup, i) + ".png" &&
              r[i].width == BinCanvas(trim, bins[i]).width && r[i].height == BinCanvas(trim, bins[i]).height
  {
    seq(|bins|, i requires 0 <= i < |bins| =>
      var canvas := BinCanvas(trim, bins[i]);
      CompositeRequest(bins[i], ParentName(subgroup, i) + ".png", canvas.width, canvas.height))
  }

  /** The canvas requested for each bin holds every rectangle placed in it, under either trim rule. */
  lemma CompositesEnclose(subgroup: string, trim: bool, bins: seq<Bin>, i: nat)
    requires i < |bins|
    ensures var r := Composites(subgroup, trim, bins)[i];
            r.placements == bins[i] && Encloses(r.placements, Dimension(r.width, r.height))
  {
    if trim {
      ReducerTrimIsTight(bins[i]);
    } else {
      SquareTrimRoundsUp(bins[i]);
    }
  }

  /** Different bins are composited into differently named image files. */
  lemma CompositeNamesDistinct(subgroup: string, trim: bool, bins: seq<Bin>, i: nat, k: nat)
    requires i < |bins| && k < |bins| && i != k
    ensures Composites(subgroup, trim, bins)[i].fileName != Composites(subgroup, trim, bins)[k].fileName
  {
    var p := ToUpper(subgroup) + "_";
    assert ParentName(subgroup, i) == p + BinLabel(i);
    assert ParentName(subgroup, k) == p + BinLabel(k);
    BinLabelValue(i);
    BinLabelValue(k);
    DistinctSuffixes(p, BinLabel(i), BinLabel(k));
    DistinctPrefixes(ParentName(subgroup, i), ParentName(subgroup, k), ".png");
  }

  lemma DistinctPrefixes<T>(a: seq<T>, b: seq<T>, q: seq<T>)
    requires a != b
    ensures a + q != b + q
  {
    if |a| == |b| {
      assert (a + q)[..|a|] == a && (b + q)[..|b|] == b;
    } else {
      assert |a + q| != |b + q|;
    }
  }

  lemma CompositesSnoc(subgroup: string, trim: bool, bins: seq<Bin>, i: nat)
    requires i < |bins|
    ensures Composites(subgroup, trim, bins[..i + 1]) ==
            Composites(subgroup, trim, bins[..i]) +
            [CompositeRequest(bins[i], ParentName(subgroup, i) + ".png", BinCanvas(trim, bins[i]).width, BinCanvas(trim, bins[i]).height)]
  {
  }

  lemma SpritesSnoc(subgroup: string, pathType: PathType, i: nat, bin: Bin, j: nat)
    requires j < |bin|
    ensures Sprites(subgroup, pathType, i, bin[..j + 1]) ==
            Sprites(subgroup, pathType, i, bin[..j]) + [SpriteDescriptor(subgroup, pathType, i, bin[j])]
  {
    assert bin[..j + 1][..j] == bin[..j];
  }

  /** The inner loop (`pack.ts` lines 568-605): push one sprite descriptor per rectangle of bin `i`. */
  method PushSprites(subgroup: string, pathType: PathType, i: nat, bin: Bin, resources: seq<Resource>)
    returns (out: seq<Resource>)
    ensures out == resources + Sprites(subgroup, pathType, i, bin)
  {
    out := resources;
    var j := 0;
    while j < |bin|
      invariant 0 <= j <= |bin|
      invariant out == resources + Sprites(subgroup, pathType, i, bin[..j])
    {
      SpritesSnoc(subgroup, pathType, i, bin, j);
      out := out + [SpriteDescriptor(subgroup, pathType, i, bin[j])];
      j := j + 1;
    }
    assert bin[..j] == bin;
  }

  /**
   * The loop over the bins (`pack.ts` lines 553-613): push the atlas
   * descriptor, then push the sprite descriptors in rectangle order, then
   * request the atlas image.
   */
  method AssembleBins(subgroup: string, pathType: PathType, trim: bool, bins: seq<Bin>)
    returns (resources: seq<Resource>, images: seq<CompositeRequest>)
    ensures resources == Resources(subgroup, pathType, trim, bins)
    ensures images == Composites(subgroup, trim, bins)
  {
    ghost var blocks := Blocks(subgroup, pathType, trim, bins);
    resources := [];
    images := [];
    var i := 0;
    while i < |bins|
      invariant 0 <= i <= |bins|
      invariant resources == Concat(blocks[..i])
      invariant images == Composites(subgroup, trim, bins[..i])
    {
      var bin := bins[i];
      var canvas := BinCanvas(trim, bin);
      var atlas := AtlasDescriptor(subgroup, pathType, i, canvas);
      var block := PushSprites(subgroup, pathType, i, bin, [atlas]);
      BlocksAt(subgroup, pathType, trim, bins, i);
      ConcatSnoc(blocks, i);
      resources := resources + block;
      CompositesSnoc(subgroup, trim, bins, i);
      images := images + [CompositeRequest(bin, ParentName(subgroup, i) + ".png", canvas.width, canvas.height)];
      i := i + 1;
    }
    assert blocks[..i] == blocks;
    assert bins[..i] == bins;
  }
}

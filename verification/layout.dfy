/** Sprite layout: the running offset of every flag, the per-scale image
    records, and the composite operations handed to the image library. */
module Layout {
  import opened FlagNames

  const TargetWidth := 20
  const TargetHeight := 15
  const FlagMargin := 2

  /** The sprite's height: every flag has the same height. */
  const MaxHeight := TargetHeight

  /** A scaled flag image as the generator records it: the flag's identifier
      and its horizontal position in the sprite of its scale. The raster
      buffer the record also carries is not part of this model. */
  datatype ScaledImage = ScaledImage(name: string, offset: int)

  /** `svgFiles.length * (TARGET_WIDTH + FLAG_MARGIN) - FLAG_MARGIN`; not
      clamped, so it is negative when there are no flags. */
  function TotalWidth(count: nat): int
  {
    count * (TargetWidth + FlagMargin) - FlagMargin
  }

  /** Directory entries never contain a path separator. */
  predicate EntryNames(files: seq<string>) {
    forall k :: 0 <= k < |files| ==> '/' !in files[k]
  }

  /** The records of one scale: the k-th flag of `svgFiles` is recorded
      where the running offset stands after k steps of one flag width and
      one margin, times the scale. */
  function ScaledImages(svgFiles: seq<string>, scale: int): (r: seq<ScaledImage>)
    requires EntryNames(svgFiles)
    ensures |r| == |svgFiles|
  {
    seq(|svgFiles|, k requires 0 <= k < |svgFiles| =>
          ScaledImage(FlagName(svgFiles[k]), k * (TargetWidth + FlagMargin) * scale))
  }

  lemma TakeSnoc<T>(s: seq<T>, k: nat)
    requires k < |s|
    ensures s[..k + 1] == s[..k] + [s[k]]
  {
  }

  /** The records of the first k + 1 flags are those of the first k and the
      record of flag k. */
  lemma ScaledPrefix(svgFiles: seq<string>, scale: int, k: nat)
    requires EntryNames(svgFiles) && k < |svgFiles|
    ensures ScaledImages(svgFiles, scale)[..k + 1]
         == ScaledImages(svgFiles, scale)[..k]
              + [ScaledImage(FlagName(svgFiles[k]), k * (TargetWidth + FlagMargin) * scale)]
  {
    TakeSnoc(ScaledImages(svgFiles, scale), k);
  }

  /** Offsets form an arithmetic progression from 0 with step 22 in sorted
      order, strictly increasing; every 2x record names the same flag as the
      1x record at its position, at twice its offset. */
  lemma Offsets(svgFiles: seq<string>)
    requires EntryNames(svgFiles)
    ensures forall k :: 0 <= k < |svgFiles| ==>
              ScaledImages(svgFiles, 1)[k] == ScaledImage(FlagName(svgFiles[k]), 22 * k)
    ensures forall k :: 0 <= k < |svgFiles| ==>
              ScaledImages(svgFiles, 2)[k].name == ScaledImages(svgFiles, 1)[k].name
              && ScaledImages(svgFiles, 2)[k].offset == 2 * ScaledImages(svgFiles, 1)[k].offset
    ensures forall i, j :: 0 <= i < j < |svgFiles| ==>
              ScaledImages(svgFiles, 1)[i].offset < ScaledImages(svgFiles, 1)[j].offset
  {
  }

  // ---------------------------------------------------------------------
  // Sprites (`createSprite`)
  // ---------------------------------------------------------------------

  datatype ImageFormat = WebP | Png

  /** One composite operation: the raster of flag `input` drawn with its
      top-left corner at (`left`, `top`). */
  datatype CompositeOp = CompositeOp(input: string, left: int, top: int)

  /** A sprite file as `createSprite` is asked to produce it: a transparent
      canvas of `width` x `height` with every operation applied, encoded in
      `format` and written to `outputFile`. */
  datatype Sprite = Sprite(outputFile: string, format: ImageFormat, width: int, height: int, ops: seq<CompositeOp>)

  /** `images.map(img => ({ input: img.buffer, left: img.offset, top: 0 }))` */
  function CompositeOps(images: seq<ScaledImage>): seq<CompositeOp>
  {
    seq(|images|, k requires 0 <= k < |images| => CompositeOp(images[k].name, images[k].offset, 0))
  }

  function CreateSprite(images: seq<ScaledImage>, width: int, height: int, outputFile: string, format: ImageFormat): Sprite
  {
    Sprite(outputFile, format, width, height, CompositeOps(images))
  }

  /** The cells of `cellWidth` x `cellHeight` fill the canvas in one row:
      every cell is on the top edge and inside the canvas, the canvas is
      exactly one cell high, the first cell starts at the left edge, the last
      ends at the right edge, and neighbours are `gap` pixels apart. */
  predicate Tiled(s: Sprite, cellWidth: int, cellHeight: int, gap: int) {
    && s.height == cellHeight
    && (forall k :: 0 <= k < |s.ops| ==>
          s.ops[k].top == 0 && 0 <= s.ops[k].left && s.ops[k].left + cellWidth <= s.width)
    && (forall k :: 0 < k < |s.ops| ==> s.ops[k].left == s.ops[k - 1].left + cellWidth + gap)
    && (|s.ops| > 0 ==> s.ops[0].left == 0 && s.ops[|s.ops| - 1].left + cellWidth == s.width)
  }

  /** In a tiled sprite no two cells overlap: any earlier cell ends at least
      `gap` pixels before a later one starts. */
  lemma {:induction false} TiledDisjoint(s: Sprite, cellWidth: int, cellHeight: int, gap: int, i: nat, j: nat)
    requires Tiled(s, cellWidth, cellHeight, gap) && 0 <= gap && 0 <= cellWidth
    requires i < j < |s.ops|
    ensures s.ops[i].left + cellWidth + gap <= s.ops[j].left
    decreases j - i
  {
    if i + 1 < j {
      TiledDisjoint(s, cellWidth, cellHeight, gap, i, j - 1);
    }
  }

  /** A row of cells that starts at the left edge, steps by one cell and one
      gap, and ends at the right edge lies inside the canvas: it is tiled. */
  lemma TiledByStep(s: Sprite, cellWidth: int, cellHeight: int, gap: int)
    requires s.height == cellHeight && 0 <= cellWidth && 0 <= gap
    requires forall k :: 0 <= k < |s.ops| ==> s.ops[k].top == 0
    requires forall k :: 0 < k < |s.ops| ==> s.ops[k].left == s.ops[k - 1].left + cellWidth + gap
    requires |s.ops| > 0 ==> s.ops[0].left == 0 && s.ops[|s.ops| - 1].left + cellWidth == s.width
    ensures Tiled(s, cellWidth, cellHeight, gap)
  {
    forall k | 0 <= k < |s.ops| ensures 0 <= s.ops[k].left && s.ops[k].left + cellWidth <= s.width {
      StepsFromStart(s, cellWidth, gap, k);
      StepsToEnd(s, cellWidth, gap, k);
    }
  }

  lemma {:induction false} StepsFromStart(s: Sprite, cellWidth: int, gap: int, k: nat)
    requires 0 <= cellWidth && 0 <= gap && k < |s.ops| && s.ops[0].left == 0
    requires forall k :: 0 < k < |s.ops| ==> s.ops[k].left == s.ops[k - 1].left + cellWidth + gap
    ensures 0 <= s.ops[k].left
  {
    if k > 0 { StepsFromStart(s, cellWidth, gap, k - 1); }
  }

  lemma {:induction false} StepsToEnd(s: Sprite, cellWidth: int, gap: int, k: nat)
    requires 0 <= cellWidth && 0 <= gap && k < |s.ops| && s.ops[|s.ops| - 1].left + cellWidth == s.width
    requires forall k :: 0 < k < |s.ops| ==> s.ops[k].left == s.ops[k - 1].left + cellWidth + gap
    ensures s.ops[k].left + cellWidth <= s.width
    decreases |s.ops| - k
  {
    if k < |s.ops| - 1 { StepsToEnd(s, cellWidth, gap, k + 1); }
  }

  /** Images in a row: the first at offset 0, each next one a cell and a gap
      further on, the last ending at `width`. */
  predicate InRow(images: seq<ScaledImage>, width: int, cellWidth: int, gap: int) {
    && (forall k :: 0 < k < |images| ==> images[k].offset == images[k - 1].offset + cellWidth + gap)
    && (|images| > 0 ==> images[0].offset == 0 && images[|images| - 1].offset + cellWidth == width)
  }

  /** A sprite made from images in a row is tiled by them. */
  lemma SpriteOfRow(images: seq<ScaledImage>, width: int, height: int, outputFile: string, format: ImageFormat,
                    cellWidth: int, gap: int)
    requires InRow(images, width, cellWidth, gap) && 0 <= cellWidth && 0 <= gap
    ensures Tiled(CreateSprite(images, width, height, outputFile, format), cellWidth, height, gap)
  {
    TiledByStep(CreateSprite(images, width, height, outputFile, format), cellWidth, height, gap);
  }

  /** The 1x records lie in a row of 20 pixel cells with a 2 pixel margin,
      as wide as the 1x sprite. */
  lemma Records1xInRow(svgFiles: seq<string>)
    requires EntryNames(svgFiles)
    ensures InRow(ScaledImages(svgFiles, 1), TotalWidth(|svgFiles|), TargetWidth, FlagMargin)
  {
    var n := |svgFiles|;
    assert TotalWidth(n) == 22 * n - 2;
  }

  /** The 2x records lie in a row of 40 pixel cells with a 4 pixel margin,
      as wide as the 2x sprite. */
  lemma Records2xInRow(svgFiles: seq<string>)
    requires EntryNames(svgFiles)
    ensures InRow(ScaledImages(svgFiles, 2), TotalWidth(|svgFiles|) * 2, TargetWidth * 2, FlagMargin * 2)
  {
    var n := |svgFiles|;
    assert TotalWidth(n) * 2 == 44 * n - 4;
  }

  /** The 1x sprite is tiled by 20 x 15 cells with a 2 pixel margin, the
      k-th cell holding the k-th flag. */
  lemma Sprite1xTiled(svgFiles: seq<string>, outputFile: string, format: ImageFormat)
    requires EntryNames(svgFiles)
    ensures Tiled(CreateSprite(ScaledImages(svgFiles, 1), TotalWidth(|svgFiles|), MaxHeight, outputFile, format),
                  TargetWidth, TargetHeight, FlagMargin)
    ensures forall k :: 0 <= k < |svgFiles| ==>
              CreateSprite(ScaledImages(svgFiles, 1), TotalWidth(|svgFiles|), MaxHeight, outputFile, format).ops[k].input
                == FlagName(svgFiles[k])
  {
    Records1xInRow(svgFiles);
    SpriteOfRow(ScaledImages(svgFiles, 1), TotalWidth(|svgFiles|), MaxHeight, outputFile, format, TargetWidth, FlagMargin);
  }

  /** The 2x sprite is tiled by 40 x 30 cells with a 4 pixel margin, the
      k-th cell holding the k-th flag. */
  lemma Sprite2xTiled(svgFiles: seq<string>, outputFile: string, format: ImageFormat)
    requires EntryNames(svgFiles)
    ensures Tiled(CreateSprite(ScaledImages(svgFiles, 2), TotalWidth(|svgFiles|) * 2, MaxHeight * 2, outputFile, format),
                  TargetWidth * 2, TargetHeight * 2, FlagMargin * 2)
    ensures forall k :: 0 <= k < |svgFiles| ==>
              CreateSprite(ScaledImages(svgFiles, 2), TotalWidth(|svgFiles|) * 2, MaxHeight * 2, outputFile, format).ops[k].input
                == FlagName(svgFiles[k])
  {
    Records2xInRow(svgFiles);
    SpriteOfRow(ScaledImages(svgFiles, 2), TotalWidth(|svgFiles|) * 2, MaxHeight * 2, outputFile, format,
                TargetWidth * 2, FlagMargin * 2);
  }
}

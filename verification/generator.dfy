/** The generator task as a whole (`generateFlagMetadataAndSprite`): from the
    entries of the flag directory to the four sprite files and the
    stylesheet-data file it writes. */
module Generator {
  import opened Text
  import opened FlagNames
  import opened Selection
  import opened Layout
  import opened Scss

  function OutputFile(): string { "src/css/_metadata.scss" }
  function SpriteFile1xWebP(): string { "build/img/flags.webp" }
  function SpriteFile2xWebP(): string { "build/img/flags@2x.webp" }
  function SpriteFile1xPng(): string { "build/img/flags.png" }
  function SpriteFile2xPng(): string { "build/img/flags@2x.png" }

  /** Everything one run produces: the sprites in the order they are created,
      and the stylesheet-data file's path and text. */
  datatype Assets = Assets(sprites: seq<Sprite>, scssFile: string, scss: string)

  /** The selected flag files carry no path separator either. */
  lemma SvgEntryNames(files: seq<string>)
    requires EntryNames(files)
    ensures EntryNames(SvgFiles(files))
  {
    SvgFilesSpec(files, SvgFiles(files));
    var svg := SvgFiles(files);
    forall k | 0 <= k < |svg| ensures '/' !in svg[k] {
      assert svg[k] in svg;
      var j :| 0 <= j < |files| && files[j] == svg[k];
    }
  }

  /** What a run produces for the directory entries `files`: the 1x records
      drawn into a WebP and a PNG sprite one sprite width wide, the 2x records
      into twice as large ones, and the stylesheet describing the 1x layout. */
  function Generated(files: seq<string>): Assets
    requires EntryNames(files)
  {
    SvgEntryNames(files);
    var svgFiles := SvgFiles(files);
    var totalWidth := TotalWidth(|svgFiles|);
    Assets(Sprites(svgFiles), OutputFile(), Document(totalWidth, FlagsMap(ScaledImages(svgFiles, 1))))
  }

  /** The four sprites of the selected flag files, in the order they are
      created: the 1x records into a WebP and a PNG sprite one sprite width
      wide, the 2x records into twice as large ones. */
  function Sprites(svgFiles: seq<string>): seq<Sprite>
    requires EntryNames(svgFiles)
  {
    var totalWidth := TotalWidth(|svgFiles|);
    var images1x := ScaledImages(svgFiles, 1);
    var images2x := ScaledImages(svgFiles, 2);
    [CreateSprite(images1x, totalWidth, MaxHeight, SpriteFile1xWebP(), WebP),
     CreateSprite(images1x, totalWidth, MaxHeight, SpriteFile1xPng(), Png),
     CreateSprite(images2x, totalWidth * 2, MaxHeight * 2, SpriteFile2xWebP(), WebP),
     CreateSprite(images2x, totalWidth * 2, MaxHeight * 2, SpriteFile2xPng(), Png)]
  }

  /** One turn of the walk keeps its invariant: the records and the map text
      so far are those of the first i flags. */
  lemma ScaleStep(svgFiles: seq<string>, i: nat, offset: int, images1x: seq<ScaledImage>,
                  images2x: seq<ScaledImage>, flags: string)
    requires EntryNames(svgFiles) && i < |svgFiles| && offset == 22 * i
    requires images1x == ScaledImages(svgFiles, 1)[..i] && images2x == ScaledImages(svgFiles, 2)[..i]
    requires flags == Ln("$flags: (") + FlagEntries(images1x)
    ensures images1x + [ScaledImage(FlagName(svgFiles[i]), offset)] == ScaledImages(svgFiles, 1)[..i + 1]
    ensures images2x + [ScaledImage(FlagName(svgFiles[i]), offset * 2)] == ScaledImages(svgFiles, 2)[..i + 1]
    ensures flags + Ln("  " + FlagName(svgFiles[i]) + ": (")
              + Ln("    offset: " + IntToString(-offset) + "px,") + Ln("  ),")
         == Ln("$flags: (") + FlagEntries(images1x + [ScaledImage(FlagName(svgFiles[i]), offset)])
  {
    ScaledPrefix(svgFiles, 1, i);
    ScaledPrefix(svgFiles, 2, i);
    assert offset == i * (TargetWidth + FlagMargin) * 1;
    assert offset * 2 == i * (TargetWidth + FlagMargin) * 2;
    AppendFlagEntry(Ln("$flags: ("), images1x, ScaledImage(FlagName(svgFiles[i]), offset));
  }

  /** The walk over the sorted flag files (the `for` loop of the generator):
      each flag gets a 1x record at the running offset, a 2x record at twice
      it and three lines in the flags map, then the offset moves on by one
      flag width and one margin; the map is closed after the last flag. */
  method ScaleFlags(svgFiles: seq<string>) returns (scaledImages1x: seq<ScaledImage>,
                                                    scaledImages2x: seq<ScaledImage>,
                                                    flagsMetadata: string)
    requires EntryNames(svgFiles)
    ensures scaledImages1x == ScaledImages(svgFiles, 1)
    ensures scaledImages2x == ScaledImages(svgFiles, 2)
    ensures flagsMetadata == FlagsMap(scaledImages1x)
  {
    flagsMetadata := Ln("$flags: (");
    var currentOffset := 0;
    scaledImages1x := [];
    scaledImages2x := [];

    for i := 0 to |svgFiles|
      invariant currentOffset == 22 * i
      invariant scaledImages1x == ScaledImages(svgFiles, 1)[..i]
      invariant scaledImages2x == ScaledImages(svgFiles, 2)[..i]
      invariant flagsMetadata == Ln("$flags: (") + FlagEntries(scaledImages1x)
    {
      var name := FlagName(svgFiles[i]);
      var record := ScaledImage(name, currentOffset);
      ScaleStep(svgFiles, i, currentOffset, scaledImages1x, scaledImages2x, flagsMetadata);

      flagsMetadata := flagsMetadata + Ln("  " + name + ": (");
      flagsMetadata := flagsMetadata + Ln("    offset: " + IntToString(-currentOffset) + "px,");
      flagsMetadata := flagsMetadata + Ln("  ),");

      scaledImages1x := scaledImages1x + [record];
      scaledImages2x := scaledImages2x + [ScaledImage(name, currentOffset * 2)];
      currentOffset := currentOffset + TargetWidth + FlagMargin;
    }
    assert scaledImages1x == ScaledImages(svgFiles, 1);
    assert scaledImages2x == ScaledImages(svgFiles, 2);
    flagsMetadata := flagsMetadata + ");";
  }

  /** The assembly of the stylesheet text, one append at a time. */
  method AssembleScss(totalWidth: int, flagsMetadata: string) returns (outputFileContent: string)
    ensures outputFileContent == Document(totalWidth, flagsMetadata)
  {
    Appended(totalWidth, flagsMetadata);
    outputFileContent := "";
    outputFileContent := outputFileContent + (Ln(FileWarning()) + Ln(""));
    outputFileContent := outputFileContent + Ln("$flags-sprite-1x: (");
    outputFileContent := outputFileContent + Ln("  height: " + IntToString(MaxHeight) + "px,");
    outputFileContent := outputFileContent + Ln("  width: " + IntToString(totalWidth) + "px,");
    outputFileContent := outputFileContent + (Ln(");") + Ln(""));
    outputFileContent := outputFileContent + (Ln("$flag-width: " + IntToString(TargetWidth) + "px;") + Ln(""));
    outputFileContent := outputFileContent + (Ln("$flag-height: " + IntToString(TargetHeight) + "px;") + Ln(""));
    outputFileContent := outputFileContent + (Ln(flagsMetadata) + Ln(""));
    outputFileContent := outputFileContent + Ln(FileWarning());
  }

  /** The appends of the assembly, each adding a two-line piece at once, give
      the document text line by line. */
  lemma Appended(totalWidth: int, flagsMetadata: string)
    ensures "" + (Ln(FileWarning()) + Ln(""))
              + Ln("$flags-sprite-1x: (")
              + Ln("  height: " + IntToString(MaxHeight) + "px,")
              + Ln("  width: " + IntToString(totalWidth) + "px,")
              + (Ln(");") + Ln(""))
              + (Ln("$flag-width: " + IntToString(TargetWidth) + "px;") + Ln(""))
              + (Ln("$flag-height: " + IntToString(TargetHeight) + "px;") + Ln(""))
              + (Ln(flagsMetadata) + Ln(""))
              + Ln(FileWarning())
         == Document(totalWidth, flagsMetadata)
  {
    var head := Ln(FileWarning()) + Ln("");
    assert "" + head == head;
    var sprite := head + Ln("$flags-sprite-1x: (")
                  + Ln("  height: " + IntToString(MaxHeight) + "px,")
                  + Ln("  width: " + IntToString(totalWidth) + "px,");
    var flagWidth := Ln("$flag-width: " + IntToString(TargetWidth) + "px;");
    var flagHeight := Ln("$flag-height: " + IntToString(TargetHeight) + "px;");
    AppendAssoc(sprite, Ln(");"), Ln(""));
    var closed := sprite + Ln(");") + Ln("");
    AppendAssoc(closed, flagWidth, Ln(""));
    var widthDone := closed + flagWidth + Ln("");
    AppendAssoc(widthDone, flagHeight, Ln(""));
    var heightDone := widthDone + flagHeight + Ln("");
    AppendAssoc(heightDone, Ln(flagsMetadata), Ln(""));
  }

  /** One run: select and sort the flag files, walk them, create the four
      sprites (1x WebP, 1x PNG, 2x WebP, 2x PNG) and assemble the
      stylesheet. */
  method GenerateFlagMetadataAndSprite(files: seq<string>) returns (assets: Assets)
    requires EntryNames(files)
    ensures assets == Generated(files)
  {
    var svgFiles := SvgFiles(files);
    SvgEntryNames(files);

    var totalWidth := |svgFiles| * (TargetWidth + FlagMargin) - FlagMargin;
    var maxHeight := TargetHeight;

    var scaledImages1x, scaledImages2x, flagsMetadata := ScaleFlags(svgFiles);

    var sprites := [CreateSprite(scaledImages1x, totalWidth, maxHeight, SpriteFile1xWebP(), WebP),
                    CreateSprite(scaledImages1x, totalWidth, maxHeight, SpriteFile1xPng(), Png),
                    CreateSprite(scaledImages2x, totalWidth * 2, maxHeight * 2, SpriteFile2xWebP(), WebP),
                    CreateSprite(scaledImages2x, totalWidth * 2, maxHeight * 2, SpriteFile2xPng(), Png)];

    var outputFileContent := AssembleScss(totalWidth, flagsMetadata);
    assets := Assets(sprites, OutputFile(), outputFileContent);
    assert totalWidth == TotalWidth(|svgFiles|);
    assert sprites == Generated(files).sprites;
    assert outputFileContent == Generated(files).scss;

  }

  // ---------------------------------------------------------------------
  // What a run promises
  // ---------------------------------------------------------------------

  /** No `.svg` directory entry holds a line terminator; the other entries
      are dropped by the filter and may hold anything. */
  predicate SingleLineEntries(files: seq<string>) {
    forall k :: 0 <= k < |files| && IsSvg(files[k]) ==> '\n' !in files[k]
  }

  lemma SvgSingleLineNames(files: seq<string>)
    requires EntryNames(files) && SingleLineEntries(files)
    ensures EntryNames(SvgFiles(files))
    ensures SingleLineNames(ScaledImages(SvgFiles(files), 1))
  {
    SvgEntryNames(files);
    SvgFilesSpec(files, SvgFiles(files));
    var svg := SvgFiles(files);
    var images := ScaledImages(svg, 1);
    forall k | 0 <= k < |images| ensures '\n' !in images[k].name {
      assert svg[k] in svg;
      var j :| 0 <= j < |files| && files[j] == svg[k];
      assert IsSvg(svg[k]);
      FlagNameSingleLine(svg[k]);
    }
  }

  /** The stylesheet a run writes reads back as: a 1x sprite 15 pixels high
      and as wide as the 1x sprite, 20 x 15 flag cells, and one flag per selected
      file, in sorted order, the k-th named by its identifier at offset
      `22 * k`. */
  lemma GeneratedStylesheet(files: seq<string>)
    requires EntryNames(files) && SingleLineEntries(files)
    ensures EntryNames(SvgFiles(files))
    ensures ReadDocument(Generated(files).scss)
         == Some(Metadata(MaxHeight, TotalWidth(|SvgFiles(files)|), TargetWidth, TargetHeight,
                          ScaledImages(SvgFiles(files), 1)))
    ensures var svg := SvgFiles(files);
            forall k :: 0 <= k < |svg| ==> ScaledImages(svg, 1)[k] == ScaledImage(FlagName(svg[k]), 22 * k)
  {
    var svg := SvgFiles(files);
    SvgSingleLineNames(files);
    var width := TotalWidth(|svg|);
    var images := ScaledImages(svg, 1);
    assert Generated(files).scss == Document(width, FlagsMap(images));
    ReadDocumentOf(width, images);
    Offsets(svg);
  }

  /** The four sprites a run creates: the 1x WebP and PNG sprites and the 2x
      WebP and PNG sprites, in that order, at their output paths; the 1x
      ones tiled by 20 x 15 cells 2 pixels apart, the 2x ones by 40 x 30
      cells 4 pixels apart; the k-th cell of each holds the k-th selected
      flag, at the offset the stylesheet gives it at 1x and at twice that
      at 2x. */
  lemma GeneratedSprites(files: seq<string>)
    requires EntryNames(files)
    ensures EntryNames(SvgFiles(files))
    ensures var a := Generated(files);
            |a.sprites| == 4
            && a.sprites[0].outputFile == SpriteFile1xWebP() && a.sprites[0].format == WebP
            && a.sprites[1].outputFile == SpriteFile1xPng() && a.sprites[1].format == Png
            && a.sprites[2].outputFile == SpriteFile2xWebP() && a.sprites[2].format == WebP
            && a.sprites[3].outputFile == SpriteFile2xPng() && a.sprites[3].format == Png
    ensures var a := Generated(files);
            && a.sprites[0].width == TotalWidth(|SvgFiles(files)|) && a.sprites[0].height == MaxHeight
            && a.sprites[1].width == a.sprites[0].width && a.sprites[1].height == a.sprites[0].height
            && a.sprites[2].width == 2 * a.sprites[0].width && a.sprites[2].height == 2 * a.sprites[0].height
            && a.sprites[3].width == 2 * a.sprites[0].width && a.sprites[3].height == 2 * a.sprites[0].height
    ensures var a := Generated(files);
            && Tiled(a.sprites[0], TargetWidth, TargetHeight, FlagMargin)
            && Tiled(a.sprites[1], TargetWidth, TargetHeight, FlagMargin)
            && Tiled(a.sprites[2], 2 * TargetWidth, 2 * TargetHeight, 2 * FlagMargin)
            && Tiled(a.sprites[3], 2 * TargetWidth, 2 * TargetHeight, 2 * FlagMargin)
    ensures var a := Generated(files); var svg := SvgFiles(files);
            forall s :: 0 <= s < 4 ==> |a.sprites[s].ops| == |svg|
    ensures var a := Generated(files); var svg := SvgFiles(files); var images := ScaledImages(svg, 1);
            forall k :: 0 <= k < |svg| ==>
              && a.sprites[0].ops[k] == CompositeOp(images[k].name, images[k].offset, 0)
              && a.sprites[1].ops[k] == CompositeOp(images[k].name, images[k].offset, 0)
              && a.sprites[2].ops[k] == CompositeOp(images[k].name, 2 * images[k].offset, 0)
              && a.sprites[3].ops[k] == CompositeOp(images[k].name, 2 * images[k].offset, 0)
  {
    SvgEntryNames(files);
    var svg := SvgFiles(files);
    assert Generated(files).sprites == Sprites(svg);
    SpritesLayout(svg);
    SpritesOps(svg);
  }

  /** Paths, formats, canvas sizes and tiling of the four sprites. */
  lemma SpritesLayout(svg: seq<string>)
    requires EntryNames(svg)
    ensures var s := Sprites(svg);
            |s| == 4
            && s[0].outputFile == SpriteFile1xWebP() && s[0].format == WebP
            && s[1].outputFile == SpriteFile1xPng() && s[1].format == Png
            && s[2].outputFile == SpriteFile2xWebP() && s[2].format == WebP
            && s[3].outputFile == SpriteFile2xPng() && s[3].format == Png
            && s[0].width == TotalWidth(|svg|) && s[0].height == MaxHeight
            && s[1].width == s[0].width && s[1].height == s[0].height
            && s[2].width == 2 * s[0].width && s[2].height == 2 * s[0].height
            && s[3].width == 2 * s[0].width && s[3].height == 2 * s[0].height
            && Tiled(s[0], TargetWidth, TargetHeight, FlagMargin)
            && Tiled(s[1], TargetWidth, TargetHeight, FlagMargin)
            && Tiled(s[2], 2 * TargetWidth, 2 * TargetHeight, 2 * FlagMargin)
            && Tiled(s[3], 2 * TargetWidth, 2 * TargetHeight, 2 * FlagMargin)
  {
    Sprite1xTiled(svg, SpriteFile1xWebP(), WebP);
    Sprite1xTiled(svg, SpriteFile1xPng(), Png);
    Sprite2xTiled(svg, SpriteFile2xWebP(), WebP);
    Sprite2xTiled(svg, SpriteFile2xPng(), Png);
  }

  /** The k-th operation of every sprite draws the k-th flag, at its 1x
      offset in the 1x sprites and at twice it in the 2x ones. */
  lemma SpritesOps(svg: seq<string>)
    requires EntryNames(svg)
    ensures var s := Sprites(svg);
            |s| == 4 && forall t :: 0 <= t < 4 ==> |s[t].ops| == |svg|
    ensures var s := Sprites(svg); var images := ScaledImages(svg, 1);
            forall k :: 0 <= k < |svg| ==>
              && s[0].ops[k] == CompositeOp(images[k].name, images[k].offset, 0)
              && s[1].ops[k] == CompositeOp(images[k].name, images[k].offset, 0)
              && s[2].ops[k] == CompositeOp(images[k].name, 2 * images[k].offset, 0)
              && s[3].ops[k] == CompositeOp(images[k].name, 2 * images[k].offset, 0)
  {
    Offsets(svg);
  }

  /** With no `.svg` entry the model's run, in which every library call
      returns, asks for sprites with no flag on a canvas -2 pixels wide (-4
      at 2x) and a stylesheet with that width and an empty flags map. The
      image library refuses such a canvas, so the real run fails at the
      first `createSprite` and writes no stylesheet. */
  lemma GeneratedNoFlags(files: seq<string>)
    requires EntryNames(files) && forall k :: 0 <= k < |files| ==> !IsSvg(files[k])
    ensures var a := Generated(files);
            && a.sprites[0].width == -2 && a.sprites[1].width == -2
            && a.sprites[2].width == -4 && a.sprites[3].width == -4
            && (forall s :: 0 <= s < 4 ==> a.sprites[s].ops == [])
            && a.scss == Document(-2, Ln("$flags: (") + ");")
  {
    NoSvgSelected(files);
    var images := ScaledImages(SvgFiles(files), 1);
    assert images == [] && ScaledImages(SvgFiles(files), 2) == [];
    assert TotalWidth(0) == -2;
    assert Ln("$flags: (") + FlagEntries([]) + ");" == Ln("$flags: (") + ");";
  }

  /** A directory without `.svg` entries selects nothing. */
  lemma NoSvgSelected(files: seq<string>)
    requires forall k :: 0 <= k < |files| ==> !IsSvg(files[k])
    ensures SvgFiles(files) == []
  {
    var svg := SvgFiles(files);
    SvgFilesSpec(files, svg);
    forall f | IsSvg(f) ensures f !in files { }
    assert multiset(svg) == multiset{};
    assert |svg| == |multiset(svg)|;
  }
}

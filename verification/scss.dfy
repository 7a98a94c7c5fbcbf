/** The generated stylesheet-data file: its text, built from the flag
    records and the sprite width exactly as the generator appends it, and a
    reader for that text which recovers what was written into it. */
module Scss {
  import opened Text
  import opened Layout

  /** The comment line that opens and closes the file. */
  function FileWarning(): string { "//* THIS FILE " + "IS AUTO-GENERATED. " + "DO NOT EDIT." }

  /** The three lines describing one flag: its identifier, and its 1x offset
      negated (a background position moves the sprite left). */
  function FlagEntry(image: ScaledImage): string
  {
    Ln("  " + image.name + ": (")
      + Ln("    offset: " + IntToString(-image.offset) + "px,")
      + Ln("  ),")
  }

  /** The entries of the `$flags` map, one per record, in record order. */
  function FlagEntries(images: seq<ScaledImage>): string
  {
    if images == [] then "" else FlagEntry(images[0]) + FlagEntries(images[1..])
  }

  /** Appending a record appends its entry. */
  lemma {:induction false} FlagEntriesSnoc(images: seq<ScaledImage>, image: ScaledImage)
    ensures FlagEntries(images + [image]) == FlagEntries(images) + FlagEntry(image)
    decreases |images|
  {
    if images == [] {
      assert [image][1..] == [];
    } else {
      assert (images + [image])[1..] == images[1..] + [image];
      FlagEntriesSnoc(images[1..], image);
    }
  }

  /** Appending the three lines of a record's entry, one at a time, to the
      text of the entries before it gives the entries with that record. */
  lemma AppendFlagEntry(open: string, images: seq<ScaledImage>, image: ScaledImage)
    ensures open + FlagEntries(images)
              + Ln("  " + image.name + ": (")
              + Ln("    offset: " + IntToString(-image.offset) + "px,")
              + Ln("  ),")
         == open + FlagEntries(images + [image])
  {
    var entries := FlagEntries(images);
    var a, b, c := Ln("  " + image.name + ": ("), Ln("    offset: " + IntToString(-image.offset) + "px,"), Ln("  ),");
    assert FlagEntry(image) == a + b + c;
    FlagEntriesSnoc(images, image);
    AppendEntry(open, entries, a, b, c, FlagEntries(images + [image]));
  }

  /** Three appends to a text extend its tail by their concatenation. */
  lemma AppendEntry(open: string, entries: string, a: string, b: string, c: string, more: string)
    requires more == entries + (a + b + c)
    ensures open + entries + a + b + c == open + more
  {
    AppendThree(open + entries, a, b, c);
    AppendAssoc(open, entries, a + b + c);
  }

  lemma AppendThree(x: string, a: string, b: string, c: string)
    ensures x + a + b + c == x + (a + b + c)
  {
  }

  lemma AppendAssoc(x: string, y: string, z: string)
    ensures x + y + z == x + (y + z)
  {
  }

  /** The `$flags: ( ... );` map. */
  function FlagsMap(images: seq<ScaledImage>): string
  {
    Ln("$flags: (") + FlagEntries(images) + ");"
  }

  /** The whole file, in the order the generator appends it: the warning, the
      1x sprite's height and width, the fixed flag cell width and height, the
      flags map and the warning again. */
  function Document(totalWidth: int, flagsMap: string): string
  {
    Ln(FileWarning()) + Ln("")
      + Ln("$flags-sprite-1x: (")
      + Ln("  height: " + IntToString(MaxHeight) + "px,")
      + Ln("  width: " + IntToString(totalWidth) + "px,")
      + Ln(");") + Ln("")
      + Ln("$flag-width: " + IntToString(TargetWidth) + "px;") + Ln("")
      + Ln("$flag-height: " + IntToString(TargetHeight) + "px;") + Ln("")
      + Ln(flagsMap) + Ln("")
      + Ln(FileWarning())
  }

  // ---------------------------------------------------------------------
  // The file as a sequence of lines
  // ---------------------------------------------------------------------

  function EntryLines(image: ScaledImage): seq<string>
  {
    ["  " + image.name + ": (", "    offset: " + IntToString(-image.offset) + "px,", "  ),"]
  }

  function EntriesLines(images: seq<ScaledImage>): seq<string>
  {
    if images == [] then [] else EntryLines(images[0]) + EntriesLines(images[1..])
  }

  /** The header lines, up to and including the line opening the map, in
      three groups of four. */
  function HeaderLines(totalWidth: int): seq<string>
  {
    [FileWarning(), "", "$flags-sprite-1x: (", "  height: " + IntToString(MaxHeight) + "px,"]
      + ["  width: " + IntToString(totalWidth) + "px,", ");", "", "$flag-width: " + IntToString(TargetWidth) + "px;"]
      + ["", "$flag-height: " + IntToString(TargetHeight) + "px;", "", "$flags: ("]
  }

  function DocumentLines(totalWidth: int, images: seq<ScaledImage>): seq<string>
  {
    HeaderLines(totalWidth) + EntriesLines(images) + [");", "", FileWarning()]
  }

  lemma FlagEntryText(image: ScaledImage)
    ensures FlagEntry(image) == JoinLines(EntryLines(image))
  {
    JoinThreeLines("  " + image.name + ": (", "    offset: " + IntToString(-image.offset) + "px,", "  ),");
  }

  lemma {:induction false} FlagEntriesText(images: seq<ScaledImage>)
    ensures FlagEntries(images) == JoinLines(EntriesLines(images))
    decreases |images|
  {
    if images != [] {
      FlagEntryText(images[0]);
      FlagEntriesText(images[1..]);
      JoinLinesAppend(EntryLines(images[0]), EntriesLines(images[1..]));
    }
  }

  lemma AppendFour(x: string, a: string, b: string, c: string, d: string)
    ensures x + (a + b + c + d) == x + a + b + c + d
  {
  }

  /** The header text, up to and including the line opening the map. */
  lemma HeaderText(totalWidth: int)
    ensures JoinLines(HeaderLines(totalWidth))
         == Ln(FileWarning()) + Ln("")
              + Ln("$flags-sprite-1x: (")
              + Ln("  height: " + IntToString(MaxHeight) + "px,")
              + Ln("  width: " + IntToString(totalWidth) + "px,")
              + Ln(");") + Ln("")
              + Ln("$flag-width: " + IntToString(TargetWidth) + "px;") + Ln("")
              + Ln("$flag-height: " + IntToString(TargetHeight) + "px;") + Ln("")
              + Ln("$flags: (")
  {
    var height := "  height: " + IntToString(MaxHeight) + "px,";
    var width := "  width: " + IntToString(totalWidth) + "px,";
    var flagWidth := "$flag-width: " + IntToString(TargetWidth) + "px;";
    var flagHeight := "$flag-height: " + IntToString(TargetHeight) + "px;";
    var a := [FileWarning(), "", "$flags-sprite-1x: (", height];
    var b := [width, ");", "", flagWidth];
    var c := ["", flagHeight, "", "$flags: ("];
    JoinLinesAppend(a + b, c);
    JoinLinesAppend(a, b);
    JoinFourLines(FileWarning(), "", "$flags-sprite-1x: (", height);
    JoinFourLines(width, ");", "", flagWidth);
    JoinFourLines("", flagHeight, "", "$flags: (");
    AppendFour(JoinLines(a), Ln(width), Ln(");"), Ln(""), Ln(flagWidth));
    AppendFour(JoinLines(a + b), Ln(""), Ln(flagHeight), Ln(""), Ln("$flags: ("));
  }

  /** The flags map closes with `);` on its own line; the file ends with an
      empty line and the warning. */
  lemma MapAndTrailer(header: string, open: string, entries: string, warning: string)
    ensures header + Ln(Ln(open) + entries + ");") + Ln("") + Ln(warning)
         == header + Ln(open) + entries + (Ln(");") + Ln("") + Ln(warning))
  {
  }

  /** The generated text is exactly the document's lines, each terminated. */
  lemma DocumentText(totalWidth: int, images: seq<ScaledImage>)
    ensures Document(totalWidth, FlagsMap(images)) == JoinLines(DocumentLines(totalWidth, images))
  {
    var h := HeaderLines(totalWidth);
    var e := EntriesLines(images);
    JoinLinesAppend(h + e, [");", "", FileWarning()]);
    JoinLinesAppend(h, e);
    HeaderText(totalWidth);
    FlagEntriesText(images);
    JoinThreeLines(");", "", FileWarning());
    MapAndTrailer(Ln(FileWarning()) + Ln("")
                    + Ln("$flags-sprite-1x: (")
                    + Ln("  height: " + IntToString(MaxHeight) + "px,")
                    + Ln("  width: " + IntToString(totalWidth) + "px,")
                    + Ln(");") + Ln("")
                    + Ln("$flag-width: " + IntToString(TargetWidth) + "px;") + Ln("")
                    + Ln("$flag-height: " + IntToString(TargetHeight) + "px;") + Ln(""),
                  "$flags: (", FlagEntries(images), FileWarning());
  }

  // ---------------------------------------------------------------------
  // Reading the file back
  // ---------------------------------------------------------------------

  /** What a stylesheet-data file declares. */
  datatype Metadata = Metadata(spriteHeight: int, spriteWidth: int, flagWidth: int, flagHeight: int,
                               flags: seq<ScaledImage>)

  /** What the header declares: the 1x sprite's height and width and the flag
      cell width and height. */
  datatype HeaderValues = HeaderValues(spriteHeight: int, spriteWidth: int, flagWidth: int, flagHeight: int)

  /** Reads the twelve header lines. */
  function ParseHeader(h: seq<string>): (r: Option<HeaderValues>)
    ensures r.Some? ==> |h| == 12 && h[0] == FileWarning() && h[11] == "$flags: ("
  {
    if |h| != 12 || h[0] != FileWarning() || h[1] != "" || h[2] != "$flags-sprite-1x: ("
       || h[5] != ");" || h[6] != "" || h[8] != "" || h[10] != "" || h[11] != "$flags: ("
    then None
    else
      var height :- IntBetween(h[3], "  height: ", "px,");
      var width :- IntBetween(h[4], "  width: ", "px,");
      var flagWidth :- IntBetween(h[7], "$flag-width: ", "px;");
      var flagHeight :- IntBetween(h[9], "$flag-height: ", "px;");
      Some(HeaderValues(height, width, flagWidth, flagHeight))
  }

  /** Reads the three lines of one entry; the offset is turned back into a
      sprite position. */
  function ParseEntry(nameLine: string, offsetLine: string, closeLine: string): (r: Option<ScaledImage>)
    ensures r.Some? ==> nameLine == "  " + r.value.name + ": (" && closeLine == "  ),"
  {
    if closeLine != "  )," then None
    else
      var name :- Between(nameLine, "  ", ": (");
      var offset :- IntBetween(offsetLine, "    offset: ", "px,");
      Some(ScaledImage(name, -offset))
  }

  /** Reads flag entries up to the line closing the map; gives the flags and
      the lines after the closing line. */
  function ParseEntries(lines: seq<string>): (r: Option<(seq<ScaledImage>, seq<string>)>)
    ensures r.Some? ==> |r.value.1| < |lines|
    decreases |lines|
  {
    if lines == [] then None
    else if lines[0] == ");" then Some(([], lines[1..]))
    else if |lines| < 3 then None
    else
      var image :- ParseEntry(lines[0], lines[1], lines[2]);
      var more :- ParseEntries(lines[3..]);
      Some(([image] + more.0, more.1))
  }

  /** Reads the lines of a whole file: the header, the flag entries, an empty
      line and the warning, and nothing after it. */
  function ParseDocument(lines: seq<string>): (r: Option<Metadata>)
  {
    if |lines| < 12 then None
    else
      var header :- ParseHeader(lines[..12]);
      var flags :- ParseEntries(lines[12..]);
      if flags.1 != ["", FileWarning()] then None
      else Some(Metadata(header.spriteHeight, header.spriteWidth, header.flagWidth, header.flagHeight, flags.0))
  }

  /** Reads a whole stylesheet-data file. */
  function ReadDocument(doc: string): (r: Option<Metadata>)
  {
    var lines :- SplitLines(doc);
    ParseDocument(lines)
  }

  lemma ParseHeaderOf(totalWidth: int)
    ensures ParseHeader(HeaderLines(totalWidth)) == Some(HeaderValues(MaxHeight, totalWidth, TargetWidth, TargetHeight))
  {
    IntBetweenOf("  height: ", MaxHeight, "px,");
    IntBetweenOf("  width: ", totalWidth, "px,");
    IntBetweenOf("$flag-width: ", TargetWidth, "px;");
    IntBetweenOf("$flag-height: ", TargetHeight, "px;");
  }

  lemma ThreeLinesThen(a: string, b: string, c: string, rest: seq<string>)
    ensures var lines := [a, b, c] + rest;
            |lines| >= 3 && lines[0] == a && lines[1] == b && lines[2] == c && lines[3..] == rest
  {
  }

  lemma ParseEntryOfParts(name: string, offset: int)
    ensures ParseEntry("  " + name + ": (", "    offset: " + IntToString(offset) + "px,", "  ),")
         == Some(ScaledImage(name, -offset))
  {
    BetweenOf("  ", name, ": (");
    IntBetweenOf("    offset: ", offset, "px,");
  }

  /** The three lines of one entry are read back as its record. */
  lemma ParseEntryOf(image: ScaledImage)
    ensures ParseEntry("  " + image.name + ": (", "    offset: " + IntToString(-image.offset) + "px,", "  ),")
         == Some(image)
  {
    var offset := -image.offset;
    ParseEntryOfParts(image.name, offset);
    assert ScaledImage(image.name, -offset) == image;
  }

  /** One step of the entry reader: an entry that reads as a record, then
      entries that read as `more`. */
  lemma ParseEntriesStep(a: string, b: string, c: string, rest: seq<string>,
                         image: ScaledImage, more: (seq<ScaledImage>, seq<string>))
    requires a != ");" && ParseEntry(a, b, c) == Some(image) && ParseEntries(rest) == Some(more)
    ensures ParseEntries([a, b, c] + rest) == Some(([image] + more.0, more.1))
  {
    ThreeLinesThen(a, b, c, rest);
  }

  /** Reading the entries back gives exactly the records they were written
      from, in order, whatever follows the closing line. */
  lemma {:induction false} ParseEntriesOf(images: seq<ScaledImage>, tail: seq<string>)
    ensures ParseEntries(EntriesLines(images) + [");"] + tail) == Some((images, tail))
    decreases |images|
  {
    if images == [] {
      assert EntriesLines(images) + [");"] + tail == [");"] + tail;
    } else {
      var image := images[0];
      var rest := EntriesLines(images[1..]) + [");"] + tail;
      var nameLine := "  " + image.name + ": (";
      var offsetLine := "    offset: " + IntToString(-image.offset) + "px,";
      assert EntriesLines(images) + [");"] + tail == [nameLine, offsetLine, "  ),"] + rest;
      assert nameLine != ");" by { assert |nameLine| > 2; }
      ParseEntryOf(image);
      ParseEntriesOf(images[1..], tail);
      ParseEntriesStep(nameLine, offsetLine, "  ),", rest, image, (images[1..], tail));
      assert [image] + images[1..] == images;
    }
  }

  /** A file's lines are read back as the values they were written with. */
  lemma ParseDocumentOf(totalWidth: int, images: seq<ScaledImage>)
    ensures ParseDocument(DocumentLines(totalWidth, images))
         == Some(Metadata(MaxHeight, totalWidth, TargetWidth, TargetHeight, images))
  {
    var h := HeaderLines(totalWidth);
    var rest := EntriesLines(images) + [");"] + ["", FileWarning()];
    assert DocumentLines(totalWidth, images) == h + rest;
    PrefixThen(h, rest);
    ParseHeaderOf(totalWidth);
    ParseEntriesOf(images, ["", FileWarning()]);
  }

  lemma PrefixThen(h: seq<string>, rest: seq<string>)
    ensures (h + rest)[..|h|] == h && (h + rest)[|h|..] == rest
  {
  }

  lemma FileWarningSingleLine()
    ensures '\n' !in FileWarning()
  {
  }

  lemma EntrySingleLines(image: ScaledImage)
    requires '\n' !in image.name
    ensures SingleLines(EntryLines(image))
  {
    NumberLineSingle("    offset: ", -image.offset, "px,");
    JoinSingle("  ", image.name, ": (");
    ThreeSingleLines("  " + image.name + ": (", "    offset: " + IntToString(-image.offset) + "px,", "  ),");
  }

  lemma JoinSingle(a: string, b: string, c: string)
    requires '\n' !in a && '\n' !in b && '\n' !in c
    ensures '\n' !in a + b + c
  {
  }

  lemma ThreeSingleLines(a: string, b: string, c: string)
    requires '\n' !in a && '\n' !in b && '\n' !in c
    ensures SingleLines([a, b, c])
  {
  }

  lemma {:induction false} EntriesSingleLines(images: seq<ScaledImage>)
    requires SingleLineNames(images)
    ensures SingleLines(EntriesLines(images))
    decreases |images|
  {
    if images != [] {
      EntrySingleLines(images[0]);
      EntriesSingleLines(images[1..]);
      SingleLinesAppend(EntryLines(images[0]), EntriesLines(images[1..]));
    }
  }

  lemma SingleLinesAppend(a: seq<string>, b: seq<string>)
    requires SingleLines(a) && SingleLines(b)
    ensures SingleLines(a + b)
  {
    forall k | 0 <= k < |a + b| ensures '\n' !in (a + b)[k] {
      if k < |a| { assert (a + b)[k] == a[k]; } else { assert (a + b)[k] == b[k - |a|]; }
    }
  }

  lemma FourSingleLines(a: string, b: string, c: string, d: string)
    requires '\n' !in a && '\n' !in b && '\n' !in c && '\n' !in d
    ensures SingleLines([a, b, c, d])
  {
  }

  /** A line made of a fixed text, a number and a fixed text. */
  lemma NumberLineSingle(prefix: string, value: int, suffix: string)
    requires '\n' !in prefix && '\n' !in suffix
    ensures '\n' !in prefix + IntToString(value) + suffix
  {
    IntToStringRoundTrip(value);
    JoinSingle(prefix, IntToString(value), suffix);
  }

  lemma HeaderSingleLines(totalWidth: int)
    ensures SingleLines(HeaderLines(totalWidth))
  {
    var height := "  height: " + IntToString(MaxHeight) + "px,";
    var width := "  width: " + IntToString(totalWidth) + "px,";
    var flagWidth := "$flag-width: " + IntToString(TargetWidth) + "px;";
    var flagHeight := "$flag-height: " + IntToString(TargetHeight) + "px;";
    FileWarningSingleLine();
    NumberLineSingle("  height: ", MaxHeight, "px,");
    NumberLineSingle("  width: ", totalWidth, "px,");
    NumberLineSingle("$flag-width: ", TargetWidth, "px;");
    NumberLineSingle("$flag-height: ", TargetHeight, "px;");
    var a := [FileWarning(), "", "$flags-sprite-1x: (", height];
    var b := [width, ");", "", flagWidth];
    var c := ["", flagHeight, "", "$flags: ("];
    FourSingleLines(FileWarning(), "", "$flags-sprite-1x: (", height);
    FourSingleLines(width, ");", "", flagWidth);
    FourSingleLines("", flagHeight, "", "$flags: (");
    SingleLinesAppend(a, b);
    SingleLinesAppend(a + b, c);
  }

  /** Every line of a file is a single line when every flag identifier is. */
  lemma DocumentSingleLines(totalWidth: int, images: seq<ScaledImage>)
    requires SingleLineNames(images)
    ensures SingleLines(DocumentLines(totalWidth, images))
  {
    HeaderSingleLines(totalWidth);
    EntriesSingleLines(images);
    FileWarningSingleLine();
    ThreeSingleLines(");", "", FileWarning());
    SingleLinesAppend(HeaderLines(totalWidth), EntriesLines(images));
    SingleLinesAppend(HeaderLines(totalWidth) + EntriesLines(images), [");", "", FileWarning()]);
  }

  predicate SingleLineNames(images: seq<ScaledImage>) {
    forall k :: 0 <= k < |images| ==> '\n' !in images[k].name
  }

  /** Reading a generated file back gives the sprite height, the sprite width
      it was written with, the flag cell size and exactly the flag records,
      in order: every record has one entry and nothing else is in the map. */
  lemma ReadDocumentOf(totalWidth: int, images: seq<ScaledImage>)
    requires SingleLineNames(images)
    ensures ReadDocument(Document(totalWidth, FlagsMap(images)))
         == Some(Metadata(MaxHeight, totalWidth, TargetWidth, TargetHeight, images))
  {
    DocumentText(totalWidth, images);
    DocumentSingleLines(totalWidth, images);
    SplitLinesOf(DocumentLines(totalWidth, images));
    ParseDocumentOf(totalWidth, images);
  }
}

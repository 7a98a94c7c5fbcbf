# Flag sprite metadata generator, modelled in Dafny

The `generate-scss-metadata` build task of intl-tel-input does several things:

- It lists the flag directory and keeps the `.svg` files in sorted order.
- It gives every flag an identifier (`handleSpecialCases`).
- It lays the flags out in one row of 20 x 15 pixel cells, 2 pixels apart, with a 2x variant at twice the size.
- It asks the image library for four sprites: 1x and 2x, each as WebP and PNG.
- It writes a stylesheet-data file describing the 1x layout.

This project models the layout arithmetic and the text serialisation. Every file and image operation is left out. The input is the list of directory entry names. The output is:

- the four sprites, each given as its canvas size, output path, format and composite operations;
- the path and text of the stylesheet-data file.

Modules:

- `Text` (`text.dfy`) holds the text primitives:
  - ASCII lower-casing and `endsWith`;
  - decimal rendering of integers, as `${n}` prints an integer-valued number (a negative zero prints as `0`);
  - splitting a text into lines.
- `FlagNames` (`flag_names.dfy`) covers `path.parse` of a directory entry and `handleSpecialCases`.
- `Selection` (`selection.dfy`) covers `files.filter(f => f.endsWith('.svg')).sort()`.
  - The filter keeps the order of its input.
  - The sort is an insertion sort over the default comparison of `Array.prototype.sort`: character by character, with a proper prefix first.
  - Sorted output is unique, so the sorting algorithm does not matter.
- `Layout` (`layout.dfy`) holds the constants, the 1x and 2x image records, the sprite width, the composite operations of `createSprite`, and what it means for a sprite to be tiled.
- `Scss` (`scss.dfy`) models the stylesheet-data text and a reader for it.
  - The reader exists only to state what the text says. Reading a generated file back yields exactly the values it was written from.
- `Generator` (`generator.dfy`) is the task itself, written as the source is written:
  - a `for` loop that moves a running offset, pushes records and appends to the map text;
  - `+=` appends that assemble the file.

  Each method is proved equal to a specification function. The properties of the whole run are proved about that function.

## Model

| member | source | states |
|---|---|---|
| Text.Lower | grunt/generate-scss-metadata.js:19 | `toLowerCase` on ASCII text: same length, no capital left, every other character unchanged, every capital moved to its small letter |
| Text.IntToString | grunt/generate-scss-metadata.js:85 | `${n}` of an integer-valued number: non-empty, with a leading `-` exactly when the number is negative (a negative zero prints without one); Text.IntToStringCanonical states its digits and Text.IntToStringRoundTrip that it reads back as the number |
| Text.IntToStringCanonical | grunt/generate-scss-metadata.js:85 | the rendering is the canonical numeral: after the optional `-` come decimal digits whose value is the magnitude, with no leading zero, and zero is the single digit `0` |
| Text.IntToStringRoundTrip | grunt/generate-scss-metadata.js:85 | the decimal rendering of any integer (negative ones with a leading `-`) reads back as that integer and is a single line |
| FlagNames.ParseEntryName | grunt/generate-scss-metadata.js:19 | `path.parse` of an entry: name followed by extension is the whole entry; the extension is empty or starts at the last dot; it is non-empty exactly when the entry is not `..` and has a dot after its first character; a non-empty entry has a non-empty name |
| FlagNames.LastIndexOfAt | grunt/generate-scss-metadata.js:19 | the extension's dot is the occurrence of `.` with no other `.` after it |
| FlagNames.FlagName | grunt/generate-scss-metadata.js:13-20 | an identifier never contains a capital letter |
| FlagNames.FlagNameOfSvg | grunt/generate-scss-metadata.js:13-19 | `sh-ac.svg` resolves to `ac`; the entry `.svg` keeps its whole name; every other `.svg` entry resolves to its name without `.svg`, lower-cased |
| FlagNames.FlagNameSingleLine | grunt/generate-scss-metadata.js:19 | the identifier of a single-line entry is a single line |
| Selection.NameLeTotal | grunt/generate-scss-metadata.js:34 | the default sort order relates any two names |
| Selection.NameLeTransitive | grunt/generate-scss-metadata.js:34 | the default sort order is transitive |
| Selection.NameLeAntisymmetric | grunt/generate-scss-metadata.js:34 | two names each ordered before the other are equal |
| Selection.FilterSvg | grunt/generate-scss-metadata.js:34 | the filter keeps every `.svg` name exactly as often as the input has it, and nothing else |
| Selection.Insert | grunt/generate-scss-metadata.js:34 | inserting into a sorted sequence keeps it sorted and adds exactly the one name |
| Selection.SortNames | grunt/generate-scss-metadata.js:34 | the sort's result is sorted and a permutation of its input |
| Selection.SortedUnique | grunt/generate-scss-metadata.js:34 | two sorted permutations of the same names are equal |
| Selection.SvgFiles | grunt/generate-scss-metadata.js:34 | `files.filter(...).sort()`: the sort of the filtered names; what the selection holds is stated by Selection.SvgFilesSpec |
| Selection.SvgFilesSpec | grunt/generate-scss-metadata.js:34 | the selection is sorted; it holds every `.svg` entry as often as the directory does and nothing else; it is the only sequence that does |
| Layout.TotalWidth | grunt/generate-scss-metadata.js:36 | `svgFiles.length * (TARGET_WIDTH + FLAG_MARGIN) - FLAG_MARGIN`, not clamped, so -2 with no flags; Layout.Records1xInRow states that it is where the last 1x cell ends |
| Layout.ScaledImages | grunt/generate-scss-metadata.js:72-82 | one record per selected file |
| Layout.ScaledPrefix | grunt/generate-scss-metadata.js:72-82 | the records of the first k + 1 flags extend those of the first k by flag k at k steps of 22 pixels, times the scale |
| Layout.Offsets | grunt/generate-scss-metadata.js:40 | the k-th 1x record is the k-th flag at offset 22 * k; the 2x record at each position names the same flag at twice the 1x offset; 1x offsets strictly increase |
| Layout.Records1xInRow | grunt/generate-scss-metadata.js:36 | the 1x records start at 0 and step by 20 + 2; the last one ends exactly at `totalWidth` |
| Layout.Records2xInRow | grunt/generate-scss-metadata.js:78-82 | the 2x records start at 0 and step by 40 + 4; the last one ends exactly at `totalWidth * 2` |
| Layout.TiledDisjoint | grunt/generate-scss-metadata.js:135-139 | in a tiled sprite every cell ends at least one margin before any later cell starts |
| Layout.TiledByStep | grunt/generate-scss-metadata.js:135-139 | cells that start at the left edge, step by one cell and one margin, and end at the right edge all lie inside the canvas |
| Layout.CompositeOps | grunt/generate-scss-metadata.js:135-139 | `images.map` to `{input, left: offset, top: 0}`, one operation per image in order; Layout.SpriteOfRow states that they tile the canvas |
| Layout.CreateSprite | grunt/generate-scss-metadata.js:125-157 | the request `createSprite` makes: canvas size, the composite operations, format and output path; Layout.Sprite1xTiled and Layout.Sprite2xTiled state its layout |
| Layout.SpriteOfRow | grunt/generate-scss-metadata.js:135-139 | composite operations built from images in a row tile the canvas, all at `top` 0 |
| Layout.Sprite1xTiled | grunt/generate-scss-metadata.js:93-94 | the 1x sprite is tiled by 20 x 15 cells 2 pixels apart; its k-th cell holds the k-th flag |
| Layout.Sprite2xTiled | grunt/generate-scss-metadata.js:98-99 | the 2x sprite is tiled by 40 x 30 cells 4 pixels apart; its k-th cell holds the k-th flag |
| Scss.FlagEntry | grunt/generate-scss-metadata.js:84-86 | the three lines one loop turn appends for a record; Scss.ParseEntryOf states that they read back as that record |
| Scss.FlagEntries | grunt/generate-scss-metadata.js:84-86 | the entries of all records, in record order; Scss.FlagEntriesSnoc and Scss.FlagEntriesText state their shape |
| Scss.FlagsMap | grunt/generate-scss-metadata.js:39-90 | the `$flags` map: its opening line, the entries and `);`; Generator.ScaleFlags states that the loop builds it |
| Scss.FlagEntriesSnoc | grunt/generate-scss-metadata.js:84-86 | one more record adds exactly its entry at the end of the map entries |
| Scss.AppendFlagEntry | grunt/generate-scss-metadata.js:84-86 | the three appends of one loop turn add that flag's entry |
| Scss.FlagEntriesText | grunt/generate-scss-metadata.js:84-86 | the map entries are three newline-terminated lines per record, in record order |
| Scss.Document | grunt/generate-scss-metadata.js:103-114 | the stylesheet text in the order of its appends; Scss.DocumentText and Scss.ReadDocumentOf state what it holds |
| Scss.DocumentText | grunt/generate-scss-metadata.js:103-114 | the file is exactly the header lines, three lines per flag, `);`, an empty line and the warning, each newline-terminated |
| Scss.ParseHeaderOf | grunt/generate-scss-metadata.js:103-111 | the header declares height 15, the given width, flag width 20 and flag height 15 |
| Scss.ParseEntryOf | grunt/generate-scss-metadata.js:84-86 | one entry reads back as its record; the `offset: -Xpx` line gives back the offset |
| Scss.ParseEntriesOf | grunt/generate-scss-metadata.js:84-90 | the entries read back as exactly the records, in order, up to the closing `);` |
| Scss.ParseDocumentOf | grunt/generate-scss-metadata.js:103-114 | the lines of a file read back as its header values and records |
| Scss.ReadDocumentOf | grunt/generate-scss-metadata.js:103-114 | a generated file reads back as sprite height, sprite width, flag cell size and exactly the flag records, in order |
| Generator.Generated | grunt/generate-scss-metadata.js:33-114 | what one run produces from the directory entries; Generator.GeneratedStylesheet, Generator.GeneratedSprites and Generator.GeneratedNoFlags state its properties |
| Generator.Sprites | grunt/generate-scss-metadata.js:93-99 | the four `createSprite` requests in call order; Generator.SpritesLayout and Generator.SpritesOps state their properties |
| Generator.ScaleFlags | grunt/generate-scss-metadata.js:39-90 | the loop produces exactly the 1x and 2x records and the closed `$flags` map of the selection |
| Generator.AssembleScss | grunt/generate-scss-metadata.js:103-114 | the `+=` appends produce exactly the file text |
| Generator.GenerateFlagMetadataAndSprite | grunt/generate-scss-metadata.js:33-114 | a run produces exactly the four sprites and the stylesheet that the specification function gives for the directory |
| Generator.GeneratedStylesheet | grunt/generate-scss-metadata.js:34-114 | the written stylesheet declares height 15, the 1x sprite's width, cells of 20 x 15, and one flag per selected file in sorted order, the k-th at offset 22 * k |
| Generator.GeneratedSprites | grunt/generate-scss-metadata.js:93-99 | four sprites with the right paths and formats; the 1x canvas is `totalWidth` x 15, and the 2x canvases are twice its width and height; the 1x ones are tiled by 20 x 15 cells and the 2x ones by 40 x 30; every sprite's k-th operation is the k-th flag, at the stylesheet's offset at 1x and twice it at 2x |
| Generator.SpritesLayout | grunt/generate-scss-metadata.js:93-99 | the four sprites have the source's paths and formats; the 1x canvases are `totalWidth` x 15 and the 2x ones twice that in both directions; 1x is tiled by 20 x 15 cells 2 apart, 2x by 40 x 30 cells 4 apart |
| Generator.SpritesOps | grunt/generate-scss-metadata.js:93-99 | every sprite has one operation per flag; the k-th draws flag k at its 1x offset in the 1x sprites and at twice it in the 2x ones |
| Generator.GeneratedNoFlags | grunt/generate-scss-metadata.js:36-39 | with no `.svg` entry the canvases are -2 (1x) and -4 (2x) wide with no operations, and the stylesheet has width -2 and the empty map `$flags: (\n);` |
| Generator.NoSvgSelected | grunt/generate-scss-metadata.js:34 | a directory without `.svg` entries selects nothing |

## Left out

- Directory listing, file reads and the file write: the directory's entry names are the input, and the file text and path are part of the output.
- The image library:
  - rasterisation, resizing and alpha handling;
  - PNG and WebP encoding with their options;
  - canvas creation and compositing.

  A sprite is modelled as the request made to the library: canvas size, composite operations, format and path.
- The raster buffer each record holds: a composite operation names its flag by identifier. Two files that resolve to the same identifier (`sh-ac.svg` and `ac.svg`) therefore give operations that the model cannot tell apart, although the source draws two different rasters read from the two files.
- Failures of the library are not modelled. For example, a canvas -2 pixels wide is refused, and a run with no flags would end in the `catch`. The model describes a run in which every call returns.
- Grunt task registration, `this.async()`/`done`, `async`/`await` sequencing, the `try`/`catch` and console logging: these are plumbing.
- The text primitives are limited to ASCII and code points:
  - Lower-casing is ASCII only.
  - The sort compares characters by code point, which equals UTF-16 order for names without surrogate pairs.
  - `path.parse` is modelled for one directory entry, which contains no `/`.
- FlagNames.FlagName: directory entries are assumed not to be `__proto__`-like keys. The lookup in the special-case object could otherwise return an inherited property. No `.svg` entry names one.
- JavaScript numbers are modelled as unbounded integers; offsets stay far below 2^53 for any real directory.
- Scss.ReadDocumentOf: the reader is part of the model, not of the source. It states what the text says. It assumes identifiers contain no line terminator, and Generator.GeneratedStylesheet requires the same of the `.svg` entries of the directory, because the format is line-based. Other entries are dropped by the filter and may hold anything.
- Two files can resolve to the same identifier: `sh-ac.svg` and `ac.svg` both give `ac`. The code emits both entries, and the model claims no uniqueness of identifiers.

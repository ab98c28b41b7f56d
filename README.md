# ImageService request handling, modelled in Dafny

`MetaFrm.Service.ImageService` answers one kind of request. Every row of every command names
keywords in its `Command` column. A row with an `Image` is read for barcodes and, through OCR,
for text. A row without one asks for a barcode image to be generated. The answer holds up to
three tables: `Barcode`, `Text` and `BarcodeImage`.

This project models the request handler `IService.Request` and its helper `BitmapSeperate`,
both in `src/ImageService.cs`. The imperative parts are methods with loops:

- the row and command loops;
- the barcode de-duplication over a shared `strings` list;
- the four margin scans;
- the band-cutting loops.

Each method is proved equal to a specification function. The properties the source promises
are proved as lemmas about those functions.

Modules, one per file:

- `Wrappers`: `Option`, `Result` and `Fault`, with one fault per kind of exception the handler can meet.
- `Int32`: 32-bit wrap-around for the unchecked `seperateCount * 20`, and C#'s truncating division.
- `Imaging`: bitmaps as pixel grids (`pixel(x, y)`, x a column), and the one-to-one copy that `new Bitmap(w, h)` plus `DrawImage` performs.
- `Tiling`: `BitmapSeperate`, which cuts row bands first and then column bands.
- `Decoding`: reading one row's barcodes. The whole image is decoded first, and the tiles only when that finds nothing. Each text is kept once, first occurrence first.
- `Trimming`: the NoSpace trim. Four nested scans compare pixels with the top-left pixel, and the box they find is copied out.
- `Keywords`: the command list, which is `ToLower().Split(",")` followed by exact membership.
- `TextCleanup`: `Trim()` and `ReplaceLineEndings()` applied to the OCR text.
- `Dispatch`: the request data, the library calls (passed in as a `Codecs` value), routing, the output tables and the request loop.

The model follows the code as written, including these behaviours:

- OCR runs for the keyword `barcode`; there is no separate keyword for it.
- A missing `Command` or `Image` column throws through the dictionary indexer, so the whole request fails. Only a null `Command` value skips the row.
- The trim compares pixels exactly with the top-left pixel.
- The trimmed size is end minus start, so the last content column and row are left out.
- Every `x` loop of the trim is bounded by the bitmap's height and every `y` loop by its width. Out-of-range `GetPixel` is modelled as the exception it throws. So NoSpace on a bitmap that is not square always fails.
- Column bands are built with width and height swapped, as written.

## Model

| member | source | states |
|---|---|---|
| Int32.Wrap32 | src/ImageService.cs:434 | the guard product is reduced to 32 bits: unchanged in range, otherwise congruent modulo 2^32 |
| Int32.TruncDiv | src/ImageService.cs:436 | C# integer division: the quotient has the sign of the exact quotient and equals Euclidean division on non-negative operands |
| Int32.TruncDivBounds | src/ImageService.cs:436 | the quotient's magnitude is the whole number of times the divisor fits in the dividend, so it rounds toward zero |
| Int32.TruncDivTowardZero | src/ImageService.cs:436 | -7 / 2 is -3 in C#, where Euclidean division gives -4 |
| Imaging.CopyRegion | src/ImageService.cs:376-379 | `new Bitmap(w, h)` succeeds exactly when both sides are positive, otherwise it throws; on success the copy has the rectangle's size |
| Imaging.CopyRegionPixel | src/ImageService.cs:379 | the copy is one-to-one: target pixel (i, j) is source pixel (x + i, y + j), transparent outside the source |
| Tiling.Guard | src/ImageService.cs:434 | the guard `seperateCount * 20` is the true product for every count from 0 to 107374182, and below it for larger counts, where it wraps |
| Tiling.RowBands | src/ImageService.cs:434-450 | every row band it produces has positive width and height |
| Tiling.ColumnBands | src/ImageService.cs:452-467 | every column band it produces has positive width and height |
| Tiling.Tiles | src/ImageService.cs:428-470 | every tile rectangle has positive size |
| Tiling.BitmapSeperate | src/ImageService.cs:428-470 | the bitmaps returned are the copies of the row bands followed by the column bands, or the exception cutting them throws |
| Tiling.CutRowBands | src/ImageService.cs:434-450 | the loop returns exactly one copy of each row band, in order |
| Tiling.CutColumnBands | src/ImageService.cs:452-467 | the loop returns exactly one copy of each column band, in order |
| Tiling.RowBandsShape | src/ImageService.cs:434-450 | for 0 < n with no overflow: no row bands when height < 20n; otherwise exactly n bands, band k = (0, k*(H/n), W, H/n), each at least 20 rows high |
| Tiling.RowBandsDisjoint | src/ImageService.cs:436-441 | row bands follow one another without overlap and end at row n*(H/n) |
| Tiling.RowBandsCover | src/ImageService.cs:436-441 | a row lies in some band exactly when it is below n*(H/n); the remainder rows are dropped |
| Tiling.ColumnBandsShape | src/ImageService.cs:452-458 | no column bands when width < 20n; otherwise exactly n, band k = (k*(W/n), 0, Height, W/n), with width and height swapped |
| Tiling.ColumnBandsOverlap | src/ImageService.cs:457 | because of the swap, neighbouring column bands overlap and cover only the top W/n rows when the bitmap is taller than a band is wide |
| Tiling.TilesShape | src/ImageService.cs:428-470 | the tiles are the row bands then the column bands: 0, n or 2n of them |
| Tiling.NoTilesForNegativeCount | src/ImageService.cs:438-467 | a negative count produces no tiles |
| Tiling.ZeroCountDividesByZero | src/ImageService.cs:434-436 | a count of 0 always passes the guard and divides by zero |
| Tiling.WrappedGuardFails | src/ImageService.cs:434-443 | at n = 107374183 the guard wraps negative, admits a low bitmap, and creating the 0-row band throws |
| Tiling.RowTilePixels | src/ImageService.cs:440-446 | pixel (i, j) of row tile k is source pixel (i, k*(H/n) + j) |
| Decoding.AddUnseen | src/ImageService.cs:175-188 | the loop adds exactly the symbols whose text is not yet listed, and it extends the list with their texts |
| Decoding.ReadBarcodes | src/ImageService.cs:169-219 | reading one row gives the distinct symbols of the whole image, or of all tiles when the whole image yields none |
| Decoding.ReadTiles | src/ImageService.cs:196-217 | decoding the tiles in turn against one shared list equals de-duplicating all their symbols together |
| Decoding.FreshAppend | src/ImageService.cs:171-218 | de-duplicating a concatenation is de-duplicating each part against everything seen before it |
| Decoding.FreshTexts | src/ImageService.cs:177-179 | a text is reported exactly when some symbol carries it and it was not seen already |
| Decoding.FreshDistinct | src/ImageService.cs:177-179 | no text is reported twice, and no text seen already is reported |
| Decoding.FreshFirstOccurrence | src/ImageService.cs:175-188 | every reported symbol is the first symbol in the reader's output with that text, so it carries that symbol's format and NumBits |
| Decoding.FreshInOrder | src/ImageService.cs:175-188 | reported symbols keep the reader's order |
| Decoding.ReadBarcodesReports | src/ImageService.cs:173-218 | reported texts are distinct and are exactly the whole image's texts, or when it has none exactly the tiles' texts |
| Decoding.ReadBarcodesFails | src/ImageService.cs:173-194 | reading fails only when the whole image yields nothing and cutting the tiles throws, and then with that exception |
| Decoding.WholeImageHitSkipsTiles | src/ImageService.cs:173-191 | once the whole image yields a symbol, the result depends neither on the tile count nor on how any other image decodes |
| Trimming.Scan | src/ImageService.cs:301-372 | the scan stops only inside the loop bounds, at a step whose pixel throws or differs, and never before its start |
| Trimming.ScanPass | src/ImageService.cs:301-372 | each nested scan returns the coordinate of its first differing pixel, or throws where GetPixel is out of range, or keeps the previous value |
| Trimming.TrimMargins | src/ImageService.cs:293-381 | the trim runs the four scans with shared result variables and copies end minus start from start |
| Trimming.ScanFirstHit | src/ImageService.cs:301-316 | a scan stops at the first stopping step in loop order |
| Trimming.PassOnSquare | src/ImageService.cs:295-374 | on a square bitmap each scan stays in range and yields the least or greatest column or row holding a pixel unlike the corner, or keeps the previous value if there is none |
| Trimming.TrimSquare | src/ImageService.cs:293-381 | on a square bitmap: a blank image cannot be trimmed; otherwise the result is the copy of the tight content box minus its last column and row |
| Trimming.TrimFailsUnlessSquare | src/ImageService.cs:340-345 | on a bitmap that is not square the first backward scan reads outside it, so NoSpace always fails |
| Keywords.Lower | src/ImageService.cs:148 | `ToLower()` keeps the length and lower-cases each character in place |
| Keywords.Split | src/ImageService.cs:148 | `Split(",")` always yields at least one entry |
| Keywords.SplitCount | src/ImageService.cs:148 | there is one entry more than there are commas, so empty entries are kept |
| Keywords.Commands | src/ImageService.cs:148 | the command list has one entry per comma-separated piece of the original, each lower-cased |
| Keywords.SplitCommaFree | src/ImageService.cs:148 | no command entry contains a comma |
| Keywords.JoinSplit | src/ImageService.cs:148 | splitting loses nothing: the entries joined with commas give back the string |
| Keywords.SplitJoin | src/ImageService.cs:148 | comma-free entries are recovered unchanged from their join |
| Keywords.SplitLower | src/ImageService.cs:148 | lower-casing then splitting equals splitting then lower-casing each entry |
| Keywords.BlankAfterCommaHidesKeyword | src/ImageService.cs:148 | entries are not trimmed: "Barcode, Text" names "barcode" but not "text" |
| TextCleanup.TrimStart | src/ImageService.cs:233 | removes exactly the leading white space |
| TextCleanup.TrimEnd | src/ImageService.cs:233 | removes exactly the trailing white space |
| TextCleanup.Trim | src/ImageService.cs:233 | `Trim()` keeps one contiguous run of the text; everything dropped before and after it is white space, and the run neither starts nor ends with white space |
| TextCleanup.TrimKeeps | src/ImageService.cs:233 | text with no white space at either end is unchanged |
| TextCleanup.TrimIdempotent | src/ImageService.cs:233 | trimming twice is trimming once |
| TextCleanup.ReplaceLineEndings | src/ImageService.cs:233 | text without line breaks is unchanged, and a newline without line breaks leaves none in the result |
| TextCleanup.CleanText | src/ImageService.cs:233 | the stored text is the trimmed text when that has no line breaks; a newline without line breaks leaves none in it |
| TextCleanup.ReplaceLineEndingsOnlyLf | src/ImageService.cs:233 | with "\n" as newline only "\n" remains as a line break, and a second pass changes nothing |
| TextCleanup.ReplaceLineEndingsOnlyCrLf | src/ImageService.cs:233 | with Windows' "\r\n" as newline every remaining line break is the CR or the LF of a CR LF pair |
| TextCleanup.ReplaceLineEndingsCrLfIdempotent | src/ImageService.cs:233 | with "\r\n" as newline a second pass changes nothing |
| Dispatch.Index | src/ImageService.cs:148-149 | the row indexer succeeds exactly when the column is present, giving its value, and otherwise throws KeyNotFound for that column |
| Dispatch.SeperateCount | src/ImageService.cs:150 | the count is the row's Seperate integer when present and non-null, and otherwise 4 |
| Dispatch.Language | src/ImageService.cs:151 | the language is the row's Language string when present and non-null, and otherwise "kor" |
| Dispatch.Flag | src/ImageService.cs:247-249 | a flag is set exactly when its column is present with the boolean true |
| Dispatch.Options | src/ImageService.cs:254-281 | DATA_MATRIX gets DataMatrix options, failing if DatamatrixSymbolShape is absent or does not parse; every other format gets QR code options with DisableECI; both carry the row's character set, size and PureBarcode |
| Dispatch.BarcodeRows | src/ImageService.cs:181-187 | one Barcode row per reported symbol, carrying its text, format and NumBits |
| Dispatch.Recognize | src/ImageService.cs:158-236 | a row with an image appends exactly the Barcode rows and the Text row its recognition yields, or fails |
| Dispatch.Generate | src/ImageService.cs:240-393 | a generation row appends exactly its BarcodeImage row, skips, or fails |
| Dispatch.ProcessRow | src/ImageService.cs:148-394 | the loop body appends exactly the rows this input row yields, or fails |
| Dispatch.ProcessRows | src/ImageService.cs:146-396 | the row loop of one command yields the rows of every input row in order, or the fault of the first row that fails |
| Dispatch.Request | src/ImageService.cs:107-425 | the response is the specification's: wrong service, the first exception, or the assembled tables |
| Dispatch.RowFailureSticks | src/ImageService.cs:146-396 | once a row throws, the later rows of its command are not run and the fault is kept |
| Dispatch.CommandFailureSticks | src/ImageService.cs:144-397 | once a command throws, the request keeps that fault |
| Dispatch.RowOutputShape | src/ImageService.cs:148-394 | a row adds only rows naming it: at most one Text row, Barcode rows only with it, at most one BarcodeImage row and that only alone |
| Dispatch.RunCommandsTraced | src/ImageService.cs:144-397 | every row the loops add is of its table's kind and names an existing command and row index |
| Dispatch.RequestTraced | src/ImageService.cs:107-425 | every row of a successful response is of its table's kind and names an existing command and row index |
| Dispatch.AssembleTables | src/ImageService.cs:400-405 | only tables with rows appear, each with its own name and columns, in the order Barcode, Text, BarcodeImage |
| Dispatch.RequestRejectsOtherServices | src/ImageService.cs:117-118 | any other or null service name yields a Failed response |
| Dispatch.RowFailureFailsRequest | src/ImageService.cs:410-420 | an exception in any row makes the whole response Failed with that fault |
| Dispatch.MissingColumnFailsRow | src/ImageService.cs:148-149 | a row without a Command column, or without an Image column, throws KeyNotFound |
| Dispatch.NullCommandSkipsRow | src/ImageService.cs:155-156 | a null Command adds nothing |
| Dispatch.RecognitionRouting | src/ImageService.cs:158-236 | a row with an image never generates; it adds a Text row exactly when the entry "barcode" is present, and otherwise nothing |
| Dispatch.BadImageFailsRow | src/ImageService.cs:160 | an image that is not valid base64 fails the row whatever its keywords |
| Dispatch.GenerationRouting | src/ImageService.cs:237-252 | a row without an image never reads; it adds a BarcodeImage row exactly when "barcodeimage" is present and all five generation columns are non-null |
| Dispatch.NoSpaceTrimsGenerated | src/ImageService.cs:290-382 | NoSpace only trims the image that would otherwise be returned unchanged |
| Dispatch.OptionsSame | src/ImageService.cs:254-281 | the encoding options depend only on the values read from the row |
| Dispatch.SameReadsSameOutput | src/ImageService.cs:148-394 | rows from which the same values are read add the same rows |
| Dispatch.AbsentSeperateIsFour | src/ImageService.cs:150 | a missing or null Seperate acts as 4 |
| Dispatch.AbsentLanguageIsKorean | src/ImageService.cs:151 | a missing or null Language acts as "kor" |
| Dispatch.AbsentFlagIsFalse | src/ImageService.cs:247-249 | a missing or null DisableECI, PureBarcode or NoSpace acts as false |
| Dispatch.NullShapeIsSquare | src/ImageService.cs:260-268 | a null DatamatrixSymbolShape acts as FORCE_SQUARE |
| Dispatch.RowBarcodesDistinct | src/ImageService.cs:171-218 | the Barcode rows one input row adds carry distinct texts |
| Dispatch.ZeroSeperateFailsRow | src/ImageService.cs:434-436 | a Seperate of 0 fails the row once the whole image yields no barcode |

## Left out

- `InitAsync` (downloading the OCR language files) and all file and network I/O are not modelled.
- The ZXing reader and writer, the Tesseract engine, base64 conversion, image loading and PNG encoding are parameters (`Codecs`). Their internals are not modelled.
- `Codecs.decodeMultiple`: a null result and an empty one are both "nothing found", as the source treats them. The model does not capture an exception thrown from inside the reader.
- Dispatch.BarcodeImage: the format name is parsed once. The source parses it a second time for the writer, and both parses give the same value.
- The `StringBuilder` trace and its text in the failure message are not modelled. Neither are `DiagnosticsTool.MyTrace` and the difference between `MetaFrmException` and other exceptions. Every exception gives `Failed` with the fault that caused it.
- Keywords.Lower: only ASCII letters are lower-cased. Culture-specific case mapping is not modelled.
- TextCleanup.ReplaceLineEndings: `Environment.NewLine` is a parameter (`Codecs.newLine`); its properties are proved for "\n" and for "\r\n".
- Codecs.toPngBase64: saving the PNG is assumed never to throw.
- Imaging.CopyRegion: GDI+ interpolation at band edges, pixel formats, and allocation failure for very large bitmaps are not modelled. The copy is exact, pixel for pixel.
- Dictionary enumeration order of `ServiceData.Commands` is taken as the order of the `commands` sequence.

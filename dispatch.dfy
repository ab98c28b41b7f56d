/** IService.Request (lines 107-425): every row of every command is routed by the keywords
    of its Command value, rows are appended to three output tables, and any exception turns
    the whole response into a failure. The image, barcode and OCR libraries are parameters. */
module Dispatch {
  import opened Wrappers
  import opened Int32
  import opened Imaging
  import opened Tiling
  import opened Decoding
  import opened Trimming
  import opened Keywords
  import opened TextCleanup

  const ServiceName: string := "MetaFrm.Service.ImageService"
  const DefaultSeperate: int32 := 4
  const DefaultLanguage: string := "kor"
  const DefaultSymbolShape: string := "FORCE_SQUARE"

  /** A MetaFrm Data.DataValue: each typed view may be null. */
  datatype DataValue = DataValue(stringValue: Option<string>, intValue: Option<int32>, booleanValue: Option<bool>)

  /** One input row: column name to value. */
  type Row = map<string, DataValue>

  /** One entry of ServiceData.Commands: its key and its rows, in order. */
  datatype Command = Command(key: string, rows: seq<Row>)

  /** The request; `commands` lists the dictionary's entries in enumeration order. */
  datatype ServiceData = ServiceData(serviceName: Option<string>, commands: seq<Command>)

  /** The three kinds of output row, one per table. */
  datatype DataRow =
    | BarcodeRow(commandName: string, rowIndex: int, barcode: string, barcodeFormat: string, numBits: int)
    | TextRow(commandName: string, rowIndex: int, text: string)
    | ImageRow(commandName: string, rowIndex: int, barcodeImage: string)

  datatype DataTable = DataTable(name: string, columns: seq<string>, rows: seq<DataRow>)

  /** Status OK with its data set, or Status Failed with the exception that ended the request. */
  datatype Response = Ok(dataSet: seq<DataTable>) | Failed(fault: Fault)

  /** ZXing's BarcodeFormat; only DATA_MATRIX is told apart by the service. */
  datatype BarcodeFormat = DataMatrix | OtherFormat(name: string)

  datatype SymbolShapeHint = ForceNone | ForceSquare | ForceRectangle

  datatype EncodingOptions =
    | DatamatrixOptions(characterSet: string, width: int32, height: int32, pureBarcode: bool, symbolShape: SymbolShapeHint)
    | QrCodeOptions(disableEci: bool, characterSet: string, width: int32, height: int32, pureBarcode: bool)

  /** The library calls the service makes, as functions. None means the call threw, except for
      `decodeMultiple`, where None is the null result ZXing returns when it finds nothing.
      `newLine` is the platform's Environment.NewLine. */
  datatype Codecs = Codecs(
    fromBase64: string -> Option<seq<bv8>>,
    loadBitmap: seq<bv8> -> Option<Bitmap>,
    decodeMultiple: Bitmap -> Option<seq<Symbol>>,
    recognize: (string, seq<bv8>) -> Option<string>,
    parseFormat: string -> Option<BarcodeFormat>,
    parseShape: string -> Option<SymbolShapeHint>,
    write: (BarcodeFormat, EncodingOptions, string) -> Option<Bitmap>,
    toPngBase64: Bitmap -> string,
    newLine: string)

  /** The rows gathered so far for the Barcode, Text and BarcodeImage tables. */
  datatype Tables = Tables(barcodes: seq<DataRow>, texts: seq<DataRow>, images: seq<DataRow>)

  const NoRows := Tables([], [], [])

  const BarcodeColumns: seq<string> := ["CommandName", "RowIndex", "Barcode", "BarcodeFormat", "NumBits"]
  const TextColumns: seq<string> := ["CommandName", "RowIndex", "Text"]
  const ImageColumns: seq<string> := ["CommandName", "RowIndex", "BarcodeImage"]

  /** `row[name]`: the indexer throws when the row has no such column. */
  function Index(row: Row, name: string): (r: Result<DataValue>)
    ensures r.Success? <==> name in row
    ensures r.Success? ==> r.value == row[name]
    ensures r.Failure? ==> r.error == KeyNotFound(name)
  {
    if name in row then Success(row[name]) else Failure(KeyNotFound(name))
  }

  /** Line 150: `Seperate` when present with an int value, else 4. */
  function SeperateCount(row: Row): (n: int32)
    ensures "Seperate" in row && row["Seperate"].intValue.Some? ==> n == row["Seperate"].intValue.value
    ensures n == DefaultSeperate || ("Seperate" in row && row["Seperate"].intValue == Some(n))
  {
    if "Seperate" in row then row["Seperate"].intValue.GetOr(DefaultSeperate) else DefaultSeperate
  }

  /** Lines 151 and 225: `Language` when present with a string value, else "kor". */
  function Language(row: Row): (language: string)
    ensures "Language" in row && row["Language"].stringValue.Some? ==> language == row["Language"].stringValue.value
    ensures language == DefaultLanguage || ("Language" in row && row["Language"].stringValue == Some(language))
  {
    if "Language" in row then row["Language"].stringValue.GetOr(DefaultLanguage) else DefaultLanguage
  }

  /** Lines 247-249 and their `?? false`: a flag is set only by a present, true boolean. */
  function Flag(row: Row, name: string): (on: bool)
    ensures on <==> name in row && row[name].booleanValue == Some(true)
  {
    if name in row then row[name].booleanValue.GetOr(false) else false
  }

  /** The Barcode rows for the symbols one row reports. */
  function BarcodeRows(key: string, i: int, symbols: seq<Symbol>): (rows: seq<DataRow>)
    ensures |rows| == |symbols|
    ensures forall k :: 0 <= k < |rows| ==>
      rows[k] == BarcodeRow(key, i, symbols[k].text, symbols[k].format, symbols[k].numBits)
  {
    seq(|symbols|, k requires 0 <= k < |symbols| => BarcodeRow(key, i, symbols[k].text, symbols[k].format, symbols[k].numBits))
  }

  /** Lines 160-235: the rows a row with an image adds. The image is always base64-decoded;
      only the keyword "barcode" reads barcodes and then runs OCR on the same bytes. */
  function RecognitionOutput(codecs: Codecs, key: string, i: int, command: seq<string>, image: string,
                             n: int32, language: string): Result<Tables>
  {
    var buffer :- Call(codecs.fromBase64(image), "Convert.FromBase64String");
    if "barcode" !in command then Success(NoRows)
    else
      var bitmap :- Call(codecs.loadBitmap(buffer), "Image.FromStream");
      var symbols :- BarcodeSpec(bitmap, n, codecs.decodeMultiple);
      var text :- Call(codecs.recognize(language, buffer), "TesseractEngine.Process");
      Success(Tables(BarcodeRows(key, i, symbols), [TextRow(key, i, CleanText(text, codecs.newLine))], []))
  }

  /** Lines 254-281: the encoding options; DATA_MATRIX reads its own DatamatrixSymbolShape
      column, every other format gets QR code options. */
  function Options(codecs: Codecs, row: Row, format: BarcodeFormat, characterSet: string,
                   width: int32, height: int32): (r: Result<EncodingOptions>)
    ensures r.Success? ==>
      && r.value.characterSet == characterSet && r.value.width == width && r.value.height == height
      && r.value.pureBarcode == Flag(row, "PureBarcode")
    ensures r.Success? ==> (r.value.DatamatrixOptions? <==> format == DataMatrix)
    ensures format != DataMatrix ==> r.Success? && r.value.disableEci == Flag(row, "DisableECI")
    ensures format == DataMatrix && "DatamatrixSymbolShape" !in row ==> r == Failure(KeyNotFound("DatamatrixSymbolShape"))
    ensures format == DataMatrix && "DatamatrixSymbolShape" in row ==>
      var shape := codecs.parseShape(row["DatamatrixSymbolShape"].stringValue.GetOr(DefaultSymbolShape));
      (r.Success? <==> shape.Some?) && (r.Success? ==> r.value.symbolShape == shape.value)
  {
    if format == DataMatrix then
      var shapeValue :- Index(row, "DatamatrixSymbolShape");
      var shape :- Call(codecs.parseShape(shapeValue.stringValue.GetOr(DefaultSymbolShape)), "EnumParse<SymbolShapeHint>");
      Success(DatamatrixOptions(characterSet, width, height, Flag(row, "PureBarcode"), shape))
    else
      Success(QrCodeOptions(Flag(row, "DisableECI"), characterSet, width, height, Flag(row, "PureBarcode")))
  }

  /** Lines 254-382: the generated bitmap, margin-trimmed when NoSpace is set. */
  function BarcodeImage(codecs: Codecs, row: Row, text: string, characterSet: string, formatName: string,
                        width: int32, height: int32): Result<Bitmap>
  {
    var format :- Call(codecs.parseFormat(formatName), "EnumParse<BarcodeFormat>");
    var options :- Options(codecs, row, format, characterSet, width, height);
    var written :- Call(codecs.write(format, options, text), "BarcodeWriter.Write");
    if Flag(row, "NoSpace") then TrimSpec(written) else Success(written)
  }

  /** Lines 240-393: the rows a row without an image adds when its keywords name
      "barcodeimage". The five columns must exist; a null value in any of them skips the row. */
  function GenerationOutput(codecs: Codecs, key: string, i: int, row: Row): Result<Tables> {
    var text :- Index(row, "Text");
    var characterSet :- Index(row, "CharacterSet");
    var format :- Index(row, "BarcodeFormat");
    var width :- Index(row, "Width");
    var height :- Index(row, "Height");
    if text.stringValue.None? || characterSet.stringValue.None? || format.stringValue.None? ||
       width.intValue.None? || height.intValue.None?
    then Success(NoRows)
    else
      var image :- BarcodeImage(codecs, row, text.stringValue.value, characterSet.stringValue.value,
                                format.stringValue.value, width.intValue.value, height.intValue.value);
      Success(Tables([], [], [ImageRow(key, i, codecs.toPngBase64(image))]))
  }

  /** Lines 148-394: the rows one input row adds. Both Command and Image are read through the
      indexer first; a null Command skips the row; an image selects recognition, its absence
      generation. */
  function RowOutput(codecs: Codecs, key: string, i: int, row: Row): Result<Tables> {
    var commandValue :- Index(row, "Command");
    var imageValue :- Index(row, "Image");
    if commandValue.stringValue.None? then Success(NoRows)
    else
      var command := Commands(commandValue.stringValue.value);
      if imageValue.stringValue.Some? then
        RecognitionOutput(codecs, key, i, command, imageValue.stringValue.value, SeperateCount(row), Language(row))
      else if "barcodeimage" in command then GenerationOutput(codecs, key, i, row)
      else Success(NoRows)
  }

  /** The tables `t` with the rows `added` appended, table by table. */
  function Append(t: Tables, added: Tables): Tables {
    Tables(t.barcodes + added.barcodes, t.texts + added.texts, t.images + added.images)
  }

  /** The tables after an outcome: its rows appended, or its fault. */
  function Extend(t: Tables, outcome: Result<Tables>): Result<Tables> {
    if outcome.Success? then Success(Append(t, outcome.value)) else Failure(outcome.error)
  }

  function RowStep(codecs: Codecs, key: string, i: int, row: Row, t: Tables): Result<Tables> {
    Extend(t, RowOutput(codecs, key, i, row))
  }

  /** The rows of one command, in order, starting from the tables `t`. */
  function RunRows(codecs: Codecs, key: string, rows: seq<Row>, t: Tables): Result<Tables>
    decreases |rows|
  {
    if rows == [] then Success(t)
    else
      var before :- RunRows(codecs, key, rows[..|rows| - 1], t);
      RowStep(codecs, key, |rows| - 1, rows[|rows| - 1], before)
  }

  /** All commands, in order, starting from empty tables. */
  function RunCommands(codecs: Codecs, commands: seq<Command>): Result<Tables>
    decreases |commands|
  {
    if commands == [] then Success(NoRows)
    else
      var before :- RunCommands(codecs, commands[..|commands| - 1]);
      var last := commands[|commands| - 1];
      RunRows(codecs, last.key, last.rows, before)
  }

  /** Lines 400-405: the tables that received rows, in the order Barcode, Text, BarcodeImage. */
  function Assemble(t: Tables): seq<DataTable> {
    (if |t.barcodes| > 0 then [DataTable("Barcode", BarcodeColumns, t.barcodes)] else []) +
    (if |t.texts| > 0 then [DataTable("Text", TextColumns, t.texts)] else []) +
    (if |t.images| > 0 then [DataTable("BarcodeImage", ImageColumns, t.images)] else [])
  }

  function RequestSpec(codecs: Codecs, data: ServiceData): Response {
    if data.serviceName != Some(ServiceName) then Failed(WrongService)
    else
      match RunCommands(codecs, data.commands)
      case Failure(fault) => Failed(fault)
      case Success(t) => Ok(Assemble(t))
  }

  /** Lines 158-236: decode the image, then read barcodes and text into the tables when asked to. */
  method Recognize(codecs: Codecs, key: string, i: int, command: seq<string>, image: string,
                   n: int32, language: string, t: Tables) returns (r: Result<Tables>)
    ensures r == Extend(t, RecognitionOutput(codecs, key, i, command, image, n, language))
  {
    var buffer :- Call(codecs.fromBase64(image), "Convert.FromBase64String");
    if "barcode" !in command {
      assert Append(t, NoRows) == t;
      return Success(t);
    }
    var bitmap :- Call(codecs.loadBitmap(buffer), "Image.FromStream");
    var symbols :- ReadBarcodes(bitmap, n, codecs.decodeMultiple);
    var barcodes := t.barcodes;
    for k := 0 to |symbols|
      invariant barcodes == t.barcodes + BarcodeRows(key, i, symbols[..k])
    {
      assert BarcodeRows(key, i, symbols[..k + 1]) == BarcodeRows(key, i, symbols[..k]) + [BarcodeRow(key, i, symbols[k].text, symbols[k].format, symbols[k].numBits)];
      barcodes := barcodes + [BarcodeRow(key, i, symbols[k].text, symbols[k].format, symbols[k].numBits)];
    }
    assert symbols[..|symbols|] == symbols;
    var text :- Call(codecs.recognize(language, buffer), "TesseractEngine.Process");
    assert t.images + [] == t.images;
    return Success(Tables(barcodes, t.texts + [TextRow(key, i, CleanText(text, codecs.newLine))], t.images));
  }

  /** Lines 240-393: read the generation columns, write the barcode, trim it when asked. */
  method Generate(codecs: Codecs, key: string, i: int, row: Row, t: Tables) returns (r: Result<Tables>)
    ensures r == Extend(t, GenerationOutput(codecs, key, i, row))
  {
    var text :- Index(row, "Text");
    var characterSet :- Index(row, "CharacterSet");
    var format :- Index(row, "BarcodeFormat");
    var width :- Index(row, "Width");
    var height :- Index(row, "Height");
    if text.stringValue.None? || characterSet.stringValue.None? || format.stringValue.None? ||
       width.intValue.None? || height.intValue.None? {
      assert Append(t, NoRows) == t;
      return Success(t);
    }
    var barcodeFormat :- Call(codecs.parseFormat(format.stringValue.value), "EnumParse<BarcodeFormat>");
    var options :- Options(codecs, row, barcodeFormat, characterSet.stringValue.value, width.intValue.value, height.intValue.value);
    var image :- Call(codecs.write(barcodeFormat, options, text.stringValue.value), "BarcodeWriter.Write");
    if Flag(row, "NoSpace") {
      image :- TrimMargins(image);
    }
    assert t.barcodes + [] == t.barcodes && t.texts + [] == t.texts;
    return Success(t.(images := t.images + [ImageRow(key, i, codecs.toPngBase64(image))]));
  }

  /** The body of the row loop (lines 148-394). */
  method ProcessRow(codecs: Codecs, key: string, i: int, row: Row, t: Tables) returns (r: Result<Tables>)
    ensures r == RowStep(codecs, key, i, row, t)
  {
    var commandValue :- Index(row, "Command");
    var imageValue :- Index(row, "Image");
    if commandValue.stringValue.None? {
      assert Append(t, NoRows) == t;
      return Success(t);
    }
    var command := Commands(commandValue.stringValue.value);
    if imageValue.stringValue.Some? {
      r := Recognize(codecs, key, i, command, imageValue.stringValue.value, SeperateCount(row), Language(row), t);
    } else if "barcodeimage" in command {
      r := Generate(codecs, key, i, row, t);
    } else {
      assert Append(t, NoRows) == t;
      r := Success(t);
    }
  }

  /** Lines 146-396: the rows of one command, in order; the first exception ends the loop. */
  method ProcessRows(codecs: Codecs, key: string, rows: seq<Row>, before: Tables) returns (r: Result<Tables>)
    ensures r == RunRows(codecs, key, rows, before)
  {
    var t := before;
    for i := 0 to |rows|
      invariant RunRows(codecs, key, rows[..i], before) == Success(t)
    {
      assert rows[..i + 1][..i] == rows[..i];
      var step := ProcessRow(codecs, key, i, rows[i], t);
      if step.Failure? {
        RowFailureSticks(codecs, key, rows, i + 1, before);
        return Failure(step.error);
      }
      t := step.value;
    }
    assert rows[..|rows|] == rows;
    return Success(t);
  }

  /** Lines 107-425: the whole request. The first exception ends it with a Failed response. */
  method Request(codecs: Codecs, data: ServiceData) returns (response: Response)
    ensures response == RequestSpec(codecs, data)
  {
    if data.serviceName.None? || data.serviceName.value != ServiceName {
      return Failed(WrongService);
    }
    var t := NoRows;
    for k := 0 to |data.commands|
      invariant RunCommands(codecs, data.commands[..k]) == Success(t)
    {
      assert data.commands[..k + 1][..k] == data.commands[..k];
      var r := ProcessRows(codecs, data.commands[k].key, data.commands[k].rows, t);
      if r.Failure? {
        CommandFailureSticks(codecs, data.commands, k + 1);
        return Failed(r.error);
      }
      t := r.value;
    }
    assert data.commands[..|data.commands|] == data.commands;
    return Ok(Assemble(t));
  }

  /** Once a row has failed, the rows after it are never run: the command fails with that fault. */
  lemma {:induction false} RowFailureSticks(codecs: Codecs, key: string, rows: seq<Row>, m: int, t: Tables)
    requires 0 <= m <= |rows|
    requires RunRows(codecs, key, rows[..m], t).Failure?
    ensures RunRows(codecs, key, rows, t) == RunRows(codecs, key, rows[..m], t)
    decreases |rows|
  {
    if m < |rows| {
      var front := rows[..|rows| - 1];
      assert front[..m] == rows[..m];
      RowFailureSticks(codecs, key, front, m, t);
    } else {
      assert rows[..m] == rows;
    }
  }

  /** Once a command has failed, the request fails with that fault. */
  lemma {:induction false} CommandFailureSticks(codecs: Codecs, commands: seq<Command>, m: int)
    requires 0 <= m <= |commands|
    requires RunCommands(codecs, commands[..m]).Failure?
    ensures RunCommands(codecs, commands) == RunCommands(codecs, commands[..m])
    decreases |commands|
  {
    if m < |commands| {
      var front := commands[..|commands| - 1];
      assert front[..m] == commands[..m];
      CommandFailureSticks(codecs, front, m);
    } else {
      assert commands[..m] == commands;
    }
  }

  /** Every row carries CommandName `key` and RowIndex `i`. */
  predicate Named(rows: seq<DataRow>, key: string, i: int) {
    forall k :: 0 <= k < |rows| ==> rows[k].commandName == key && rows[k].rowIndex == i
  }

  /** Every row a table holds is of that table's kind. */
  predicate Kinds(t: Tables) {
    (forall k :: 0 <= k < |t.barcodes| ==> t.barcodes[k].BarcodeRow?) &&
    (forall k :: 0 <= k < |t.texts| ==> t.texts[k].TextRow?) &&
    (forall k :: 0 <= k < |t.images| ==> t.images[k].ImageRow?)
  }

  /** What one input row may add: rows of the right kinds that name it; at most one Text
      row, and Barcode rows only together with it; at most one BarcodeImage row, and that
      only alone. */
  predicate OutputShape(added: Tables, key: string, i: int) {
    Kinds(added) &&
    Named(added.barcodes, key, i) && Named(added.texts, key, i) && Named(added.images, key, i) &&
    |added.texts| <= 1 && |added.images| <= 1 &&
    (added.barcodes != [] ==> |added.texts| == 1) &&
    (added.images != [] ==> added.barcodes == [] && added.texts == [])
  }

  lemma RecognitionOutputShape(codecs: Codecs, key: string, i: int, command: seq<string>, image: string,
                               n: int32, language: string)
    requires RecognitionOutput(codecs, key, i, command, image, n, language).Success?
    ensures OutputShape(RecognitionOutput(codecs, key, i, command, image, n, language).value, key, i)
  {
  }

  lemma GenerationOutputShape(codecs: Codecs, key: string, i: int, row: Row)
    requires GenerationOutput(codecs, key, i, row).Success?
    ensures OutputShape(GenerationOutput(codecs, key, i, row).value, key, i)
  {
  }

  /** The rows any input row adds have the shape above. */
  lemma RowOutputShape(codecs: Codecs, key: string, i: int, row: Row)
    requires RowOutput(codecs, key, i, row).Success?
    ensures OutputShape(RowOutput(codecs, key, i, row).value, key, i)
  {
    var commandValue := row["Command"];
    var imageValue := row["Image"];
    if commandValue.stringValue.Some? {
      var command := Commands(commandValue.stringValue.value);
      if imageValue.stringValue.Some? {
        RecognitionOutputShape(codecs, key, i, command, imageValue.stringValue.value, SeperateCount(row), Language(row));
      } else if "barcodeimage" in command {
        GenerationOutputShape(codecs, key, i, row);
      }
    }
  }

  /** Row `rowIndex` of some command with key `commandName` exists in the request. */
  predicate FromCommand(commands: seq<Command>, r: DataRow) {
    exists k :: 0 <= k < |commands| && commands[k].key == r.commandName && 0 <= r.rowIndex < |commands[k].rows|
  }

  predicate AllFrom(commands: seq<Command>, rows: seq<DataRow>) {
    forall k :: 0 <= k < |rows| ==> FromCommand(commands, rows[k])
  }

  predicate Traced(commands: seq<Command>, t: Tables) {
    Kinds(t) && AllFrom(commands, t.barcodes) && AllFrom(commands, t.texts) && AllFrom(commands, t.images)
  }

  lemma AppendTraced(commands: seq<Command>, c: int, i: int, t: Tables, added: Tables)
    requires 0 <= c < |commands| && 0 <= i < |commands[c].rows|
    requires Traced(commands, t) && OutputShape(added, commands[c].key, i)
    ensures Traced(commands, Append(t, added))
  {
    var t' := Append(t, added);
    forall k | |t.barcodes| <= k < |t'.barcodes|
      ensures FromCommand(commands, t'.barcodes[k])
    {
      assert t'.barcodes[k] == added.barcodes[k - |t.barcodes|];
    }
    forall k | |t.texts| <= k < |t'.texts|
      ensures FromCommand(commands, t'.texts[k])
    {
      assert t'.texts[k] == added.texts[k - |t.texts|];
    }
    forall k | |t.images| <= k < |t'.images|
      ensures FromCommand(commands, t'.images[k])
    {
      assert t'.images[k] == added.images[k - |t.images|];
    }
  }

  lemma {:induction false} RunRowsTraced(codecs: Codecs, commands: seq<Command>, c: int, rows: seq<Row>, t: Tables)
    requires 0 <= c < |commands| && |rows| <= |commands[c].rows|
    requires Traced(commands, t)
    requires RunRows(codecs, commands[c].key, rows, t).Success?
    ensures Traced(commands, RunRows(codecs, commands[c].key, rows, t).value)
    decreases |rows|
  {
    if rows != [] {
      var key := commands[c].key;
      var front := rows[..|rows| - 1];
      RunRowsTraced(codecs, commands, c, front, t);
      var before := RunRows(codecs, key, front, t).value;
      RowOutputShape(codecs, key, |rows| - 1, rows[|rows| - 1]);
      AppendTraced(commands, c, |rows| - 1, before, RowOutput(codecs, key, |rows| - 1, rows[|rows| - 1]).value);
    }
  }

  lemma TracedGrows(front: seq<Command>, commands: seq<Command>, t: Tables)
    requires front <= commands
    requires Traced(front, t)
    ensures Traced(commands, t)
  {
    forall r | FromCommand(front, r)
      ensures FromCommand(commands, r)
    {
      var k :| 0 <= k < |front| && front[k].key == r.commandName && 0 <= r.rowIndex < |front[k].rows|;
      assert commands[k] == front[k];
    }
  }

  lemma {:induction false} RunCommandsTraced(codecs: Codecs, commands: seq<Command>)
    requires RunCommands(codecs, commands).Success?
    ensures Traced(commands, RunCommands(codecs, commands).value)
    decreases |commands|
  {
    if commands != [] {
      var front := commands[..|commands| - 1];
      RunCommandsTraced(codecs, front);
      var before := RunCommands(codecs, front).value;
      TracedGrows(front, commands, before);
      RunRowsTraced(codecs, commands, |commands| - 1, commands[|commands| - 1].rows, before);
    }
  }

  function TableRank(name: string): int {
    if name == "Barcode" then 0 else if name == "Text" then 1 else 2
  }

  /** Lines 400-407: the response lists only tables with rows, each under its own name and
      columns, in the order Barcode, Text, BarcodeImage. */
  lemma AssembleTables(t: Tables)
    ensures forall k :: 0 <= k < |Assemble(t)| ==> |Assemble(t)[k].rows| > 0
    ensures DataTable("Barcode", BarcodeColumns, t.barcodes) in Assemble(t) <==> |t.barcodes| > 0
    ensures DataTable("Text", TextColumns, t.texts) in Assemble(t) <==> |t.texts| > 0
    ensures DataTable("BarcodeImage", ImageColumns, t.images) in Assemble(t) <==> |t.images| > 0
    ensures |Assemble(t)| == (if |t.barcodes| > 0 then 1 else 0) + (if |t.texts| > 0 then 1 else 0) + (if |t.images| > 0 then 1 else 0)
    ensures forall j, k :: 0 <= j < k < |Assemble(t)| ==> TableRank(Assemble(t)[j].name) < TableRank(Assemble(t)[k].name)
  {
  }

  /** Every row of a successful response belongs to its table's kind and comes from a row of
      the request: its CommandName is a command key and its RowIndex a row of that command. */
  lemma RequestTraced(codecs: Codecs, data: ServiceData)
    requires RequestSpec(codecs, data).Ok?
    ensures forall k :: 0 <= k < |RequestSpec(codecs, data).dataSet| ==>
      AllFrom(data.commands, RequestSpec(codecs, data).dataSet[k].rows)
    ensures forall k :: 0 <= k < |RequestSpec(codecs, data).dataSet| ==>
      var table := RequestSpec(codecs, data).dataSet[k];
      forall j :: 0 <= j < |table.rows| ==>
        (table.name == "Barcode" ==> table.rows[j].BarcodeRow?) &&
        (table.name == "Text" ==> table.rows[j].TextRow?) &&
        (table.name == "BarcodeImage" ==> table.rows[j].ImageRow?)
  {
    RunCommandsTraced(codecs, data.commands);
  }

  /** Lines 117-118: any other service name, or none, is refused before any row is read. */
  lemma RequestRejectsOtherServices(codecs: Codecs, data: ServiceData)
    requires data.serviceName != Some(ServiceName)
    ensures RequestSpec(codecs, data) == Failed(WrongService)
  {
  }

  /** Lines 410-420: an exception in any row fails the whole request with it, whatever the
      rows after it hold. */
  lemma RowFailureFailsRequest(codecs: Codecs, data: ServiceData, k: int, i: int)
    requires data.serviceName == Some(ServiceName)
    requires 0 <= k < |data.commands| && 0 <= i < |data.commands[k].rows|
    requires RunCommands(codecs, data.commands[..k]).Success?
    requires RunRows(codecs, data.commands[k].key, data.commands[k].rows[..i], RunCommands(codecs, data.commands[..k]).value).Success?
    requires RowOutput(codecs, data.commands[k].key, i, data.commands[k].rows[i]).Failure?
    ensures RequestSpec(codecs, data) == Failed(RowOutput(codecs, data.commands[k].key, i, data.commands[k].rows[i]).error)
  {
    var command := data.commands[k];
    var start := RunCommands(codecs, data.commands[..k]).value;
    assert command.rows[..i + 1][..i] == command.rows[..i];
    RowFailureSticks(codecs, command.key, command.rows, i + 1, start);
    assert data.commands[..k + 1][..k] == data.commands[..k];
    CommandFailureSticks(codecs, data.commands, k + 1);
  }

  /** Lines 148-149: both the Command and the Image column must exist, even in a row that a
      null Command then skips. */
  lemma MissingColumnFailsRow(codecs: Codecs, key: string, i: int, row: Row)
    ensures "Command" !in row ==> RowOutput(codecs, key, i, row) == Failure(KeyNotFound("Command"))
    ensures "Command" in row && "Image" !in row ==> RowOutput(codecs, key, i, row) == Failure(KeyNotFound("Image"))
  {
  }

  /** Lines 155-156: a null Command adds nothing. */
  lemma NullCommandSkipsRow(codecs: Codecs, key: string, i: int, row: Row)
    requires "Command" in row && "Image" in row && row["Command"].stringValue.None?
    ensures RowOutput(codecs, key, i, row) == Success(NoRows)
  {
  }

  /** Lines 158-236: a row with an image never generates; it adds a Text row exactly when its
      keyword list holds "barcode" itself, and otherwise adds nothing. */
  lemma RecognitionRouting(codecs: Codecs, key: string, i: int, row: Row)
    requires "Command" in row && "Image" in row
    requires row["Command"].stringValue.Some? && row["Image"].stringValue.Some?
    requires RowOutput(codecs, key, i, row).Success?
    ensures RowOutput(codecs, key, i, row).value.images == []
    ensures |RowOutput(codecs, key, i, row).value.texts| == 1 <==> "barcode" in Commands(row["Command"].stringValue.value)
    ensures "barcode" !in Commands(row["Command"].stringValue.value) ==> RowOutput(codecs, key, i, row).value == NoRows
  {
  }

  /** Line 160: an image that is not valid base64 fails the row whatever its keywords. */
  lemma BadImageFailsRow(codecs: Codecs, key: string, i: int, row: Row)
    requires "Command" in row && "Image" in row
    requires row["Command"].stringValue.Some? && row["Image"].stringValue.Some?
    requires codecs.fromBase64(row["Image"].stringValue.value).None?
    ensures RowOutput(codecs, key, i, row) == Failure(CodecFault("Convert.FromBase64String"))
  {
  }

  /** The five columns generation needs, all present and non-null. */
  predicate Complete(row: Row) {
    "Text" in row && row["Text"].stringValue.Some? &&
    "CharacterSet" in row && row["CharacterSet"].stringValue.Some? &&
    "BarcodeFormat" in row && row["BarcodeFormat"].stringValue.Some? &&
    "Width" in row && row["Width"].intValue.Some? &&
    "Height" in row && row["Height"].intValue.Some?
  }

  /** Lines 237-252: a row without an image never reads barcodes or text; it adds a
      BarcodeImage row exactly when its keyword list holds "barcodeimage" and the five
      generation columns are all non-null. */
  lemma GenerationRouting(codecs: Codecs, key: string, i: int, row: Row)
    requires "Command" in row && "Image" in row
    requires row["Command"].stringValue.Some? && row["Image"].stringValue.None?
    requires RowOutput(codecs, key, i, row).Success?
    ensures RowOutput(codecs, key, i, row).value.barcodes == []
    ensures RowOutput(codecs, key, i, row).value.texts == []
    ensures |RowOutput(codecs, key, i, row).value.images| == 1 <==>
      "barcodeimage" in Commands(row["Command"].stringValue.value) && Complete(row)
  {
  }

  /** Line 293: NoSpace only adds the margin trim after an otherwise identical generation. */
  lemma NoSpaceTrimsGenerated(codecs: Codecs, row: Row, text: string, characterSet: string, formatName: string,
                              width: int32, height: int32)
    ensures var trimmed := BarcodeImage(codecs, row["NoSpace" := DataValue(None, None, Some(true))],
                                        text, characterSet, formatName, width, height);
      var plain := BarcodeImage(codecs, row["NoSpace" := DataValue(None, None, Some(false))],
                                text, characterSet, formatName, width, height);
      trimmed == (if plain.Success? then TrimSpec(plain.value) else plain)
  {
    var on := row["NoSpace" := DataValue(None, None, Some(true))];
    var off := row["NoSpace" := DataValue(None, None, Some(false))];
    assert SameReads(on, off);
    var format := Call(codecs.parseFormat(formatName), "EnumParse<BarcodeFormat>");
    if format.Success? {
      OptionsSame(codecs, on, off, format.value, characterSet, width, height);
    }
  }

  /** Two rows from which the service reads the same values, apart from NoSpace. */
  predicate SameReads(row: Row, other: Row) {
    Index(row, "Command") == Index(other, "Command") && Index(row, "Image") == Index(other, "Image") &&
    Index(row, "Text") == Index(other, "Text") && Index(row, "CharacterSet") == Index(other, "CharacterSet") &&
    Index(row, "BarcodeFormat") == Index(other, "BarcodeFormat") &&
    Index(row, "Width") == Index(other, "Width") && Index(row, "Height") == Index(other, "Height") &&
    SeperateCount(row) == SeperateCount(other) && Language(row) == Language(other) &&
    Flag(row, "DisableECI") == Flag(other, "DisableECI") && Flag(row, "PureBarcode") == Flag(other, "PureBarcode") &&
    ("DatamatrixSymbolShape" in row <==> "DatamatrixSymbolShape" in other) &&
    ("DatamatrixSymbolShape" in row ==>
      row["DatamatrixSymbolShape"].stringValue.GetOr(DefaultSymbolShape) ==
      other["DatamatrixSymbolShape"].stringValue.GetOr(DefaultSymbolShape))
  }

  lemma OptionsSame(codecs: Codecs, row: Row, other: Row, format: BarcodeFormat, characterSet: string,
                    width: int32, height: int32)
    requires SameReads(row, other)
    ensures Options(codecs, row, format, characterSet, width, height) == Options(codecs, other, format, characterSet, width, height)
  {
  }

  /** Rows that read the same, NoSpace included, add the same rows. */
  lemma SameReadsSameOutput(codecs: Codecs, key: string, i: int, row: Row, other: Row)
    requires SameReads(row, other) && Flag(row, "NoSpace") == Flag(other, "NoSpace")
    ensures RowOutput(codecs, key, i, row) == RowOutput(codecs, key, i, other)
  {
    forall format: BarcodeFormat, characterSet: string, width: int32, height: int32 {
      OptionsSame(codecs, row, other, format, characterSet, width, height);
    }
    assert GenerationOutput(codecs, key, i, row) == GenerationOutput(codecs, key, i, other);
  }

  /** Line 150: a row without Seperate, or with a null int in it, cuts four tiles per direction. */
  lemma AbsentSeperateIsFour(codecs: Codecs, key: string, i: int, row: Row)
    requires "Seperate" !in row || row["Seperate"].intValue.None?
    ensures RowOutput(codecs, key, i, row) == RowOutput(codecs, key, i, row["Seperate" := DataValue(None, Some(4), None)])
  {
    SameReadsSameOutput(codecs, key, i, row, row["Seperate" := DataValue(None, Some(4), None)]);
  }

  /** Lines 151 and 225: a row without Language, or with a null one, is read as Korean. */
  lemma AbsentLanguageIsKorean(codecs: Codecs, key: string, i: int, row: Row)
    requires "Language" !in row || row["Language"].stringValue.None?
    ensures RowOutput(codecs, key, i, row) == RowOutput(codecs, key, i, row["Language" := DataValue(Some("kor"), None, None)])
  {
    SameReadsSameOutput(codecs, key, i, row, row["Language" := DataValue(Some("kor"), None, None)]);
  }

  /** Lines 247-249: an absent or null DisableECI, PureBarcode or NoSpace flag acts as false. */
  lemma AbsentFlagIsFalse(codecs: Codecs, key: string, i: int, row: Row, flag: string)
    requires flag == "DisableECI" || flag == "PureBarcode" || flag == "NoSpace"
    requires flag !in row || row[flag].booleanValue.None?
    ensures RowOutput(codecs, key, i, row) == RowOutput(codecs, key, i, row[flag := DataValue(None, None, Some(false))])
  {
    SameReadsSameOutput(codecs, key, i, row, row[flag := DataValue(None, None, Some(false))]);
  }

  /** Lines 259-268: a null DatamatrixSymbolShape is read as FORCE_SQUARE. */
  lemma NullShapeIsSquare(codecs: Codecs, key: string, i: int, row: Row)
    requires "DatamatrixSymbolShape" in row && row["DatamatrixSymbolShape"].stringValue.None?
    ensures RowOutput(codecs, key, i, row) ==
            RowOutput(codecs, key, i, row["DatamatrixSymbolShape" := DataValue(Some(DefaultSymbolShape), None, None)])
  {
    SameReadsSameOutput(codecs, key, i, row, row["DatamatrixSymbolShape" := DataValue(Some(DefaultSymbolShape), None, None)]);
  }

  /** Lines 171-218: the Barcode rows one input row adds carry distinct texts. The seen-texts
      list is made afresh for every row, so nothing stops two rows from adding the same text. */
  lemma RowBarcodesDistinct(codecs: Codecs, key: string, i: int, row: Row)
    requires RowOutput(codecs, key, i, row).Success?
    ensures var added := RowOutput(codecs, key, i, row).value.barcodes;
      forall j, k :: 0 <= j < k < |added| ==> added[j].barcode != added[k].barcode
  {
    var commandValue := row["Command"];
    var imageValue := row["Image"];
    if commandValue.stringValue.Some? && imageValue.stringValue.Some? {
      var command := Commands(commandValue.stringValue.value);
      var buffer := codecs.fromBase64(imageValue.stringValue.value).value;
      if "barcode" in command {
        var bitmap := codecs.loadBitmap(buffer).value;
        var symbols := BarcodeSpec(bitmap, SeperateCount(row), codecs.decodeMultiple).value;
        ReadBarcodesReports(bitmap, SeperateCount(row), codecs.decodeMultiple, "");
        assert forall k :: 0 <= k < |symbols| ==> Texts(symbols)[k] == symbols[k].text;
      }
    }
  }

  /** Line 436: a Seperate of 0 reaches `Height / 0` once the whole image shows no barcode. */
  lemma ZeroSeperateFailsRow(codecs: Codecs, key: string, i: int, row: Row)
    requires "Command" in row && "Image" in row
    requires row["Command"].stringValue.Some? && row["Image"].stringValue.Some?
    requires "barcode" in Commands(row["Command"].stringValue.value)
    requires SeperateCount(row) == 0
    requires codecs.fromBase64(row["Image"].stringValue.value).Some?
    requires codecs.loadBitmap(codecs.fromBase64(row["Image"].stringValue.value).value).Some?
    requires Found(codecs.decodeMultiple(codecs.loadBitmap(codecs.fromBase64(row["Image"].stringValue.value).value).value)) == []
    ensures RowOutput(codecs, key, i, row) == Failure(DivideByZero)
  {
    var bitmap := codecs.loadBitmap(codecs.fromBase64(row["Image"].stringValue.value).value).value;
    ZeroCountDividesByZero(bitmap);
  }
}

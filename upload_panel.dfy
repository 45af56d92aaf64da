/**
 * The state of the upload panel: the selected file's name, the preview
 * table, the summary of the last successful parse and the error text. A
 * drop records the file name and clears the error, the file's content is
 * parsed as JSON or CSV by its extension, and a reset restores the initial
 * state.
 */
module UploadPanel {
  import opened Wrappers
  import opened Strings
  import opened CsvPreview
  import opened ColumnTypes
  import opened JsonPreview

  /** A file as the browser hands it over: its name and its content read as text. */
  datatype File = File(name: string, content: string)

  /**
   * The JavaScript runtime behaviour the panel calls into: `JSON.parse`
   * (a failure carries the SyntaxError's message), and whether `Number(v)`
   * and `Date.parse(v)` are not NaN.
   */
  datatype Host = Host(parseJson: string -> Result<Json, string>, isNumber: string -> bool, isDate: string -> bool)

  /** The summary shown beside the preview. */
  datatype Meta = Meta(rowsCount: nat, colsCount: nat, types: seq<ColumnType>)

  /** What a successful parse puts on screen. */
  datatype Loaded = Loaded(preview: Preview, meta: Meta)

  /** The summary agrees with the table: one label per column, at most 100 rows shown, no more than counted. */
  predicate Consistent(l: Loaded)
  {
    && l.meta.colsCount == |l.preview.header|
    && |l.meta.types| == |l.preview.header|
    && |l.preview.rows| <= l.meta.rowsCount
    && |l.preview.rows| <= PreviewLimit
  }

  /** `file.name.toLowerCase().endsWith('.json')`. */
  predicate IsJsonName(name: string)
  {
    EndsWith(Lower(name), ".json")
  }

  /** The JSON test is a case-insensitive `.json` suffix. */
  lemma JsonNameIgnoresCase(name: string)
    ensures IsJsonName(name) <==>
      && |name| >= 5
      && name[|name| - 5] == '.'
      && name[|name| - 4] in {'j', 'J'}
      && name[|name| - 3] in {'s', 'S'}
      && name[|name| - 2] in {'o', 'O'}
      && name[|name| - 1] in {'n', 'N'}
  {
    var low := Lower(name);
    var n := |name|;
    if n >= 5 {
      var tail := low[n - 5..];
      assert tail == ".json" <==>
        tail[0] == '.' && tail[1] == 'j' && tail[2] == 's' && tail[3] == 'o' && tail[4] == 'n';
      assert tail[0] == LowerChar(name[n - 5]) && tail[1] == LowerChar(name[n - 4]);
      assert tail[2] == LowerChar(name[n - 3]) && tail[3] == LowerChar(name[n - 2]);
      assert tail[4] == LowerChar(name[n - 1]);
    }
  }

  /** The summary and table of a parsed preview; `rowsCount` is supplied by the branch. */
  function Summarize(p: Preview, rowsCount: nat, host: Host): Loaded
  {
    Loaded(p, Meta(rowsCount, |p.header|, DetectTypes(p.rows, p.header, host.isNumber, host.isDate)))
  }

  /**
   * The body of `reader.onload`: a `.json` file goes through `JSON.parse`
   * and the JSON branch, and its row count is the full record count; any
   * other file goes through `quickCsvParse` with a limit of 100, and its row
   * count is the number of rows previewed.
   */
  function Load(file: File, host: Host): (r: Result<Loaded, ParseError>)
    ensures r.Ok? ==> Consistent(r.value)
    ensures r.Ok? ==>
      r.value.meta.types == DetectTypes(r.value.preview.rows, r.value.preview.header, host.isNumber, host.isDate)
    ensures !IsJsonName(file.name) ==>
      && r.Ok?
      && r.value.preview == QuickCsvParse(file.content, PreviewLimit)
      && r.value.meta.rowsCount == |r.value.preview.rows|
    ensures IsJsonName(file.name) && host.parseJson(file.content).Err? ==>
      r == Err(SyntaxError(host.parseJson(file.content).error))
    ensures IsJsonName(file.name) && host.parseJson(file.content).Ok? ==>
      var table := JsonTableOf(host.parseJson(file.content).value);
      && (r.Ok? <==> table.Ok?)
      && (r.Err? ==> r.error == table.error)
      && (r.Ok? ==> r.value.preview == table.value.preview && r.value.meta.rowsCount == table.value.recordCount)
  {
    if IsJsonName(file.name) then
      match host.parseJson(file.content)
      case Err(message) => Err(SyntaxError(message))
      case Ok(doc) =>
        var table :- JsonTableOf(doc);
        Ok(Summarize(table.preview, table.recordCount, host))
    else
      var p := QuickCsvParse(file.content, PreviewLimit);
      Ok(Summarize(p, |p.rows|, host))
  }

  /** A `.json` file's row count is every record, while the preview holds at most 100 of them. */
  lemma JsonCountsAllRecords(file: File, host: Host)
    requires IsJsonName(file.name) && host.parseJson(file.content).Ok?
    requires Load(file, host).Ok?
    ensures Load(file, host).value.meta.rowsCount == |RecordCandidates(host.parseJson(file.content).value)|
    ensures |Load(file, host).value.preview.rows| == Min(Load(file, host).value.meta.rowsCount, PreviewLimit)
  {
  }

  /** A three-row CSV upload is previewed whole, its number column numeric and its letter column categorical. */
  lemma CsvUploadExample(host: Host)
    requires host.isNumber("1") && host.isNumber("2") && host.isNumber("3")
    requires !host.isNumber("x") && !host.isDate("x")
    ensures Load(File("data.csv", "a,b\n1,x\n2,y\n3,z"), host) ==
      Ok(Loaded(Preview(["a", "b"], [["1", "x"], ["2", "y"], ["3", "z"]]), Meta(3, 2, [Numeric, Categorical])))
  {
    ExampleParse();
    ExampleIsCsv();
    ExampleTypes(host);
  }

  lemma ExampleParse()
    ensures QuickCsvParse("a,b\n1,x\n2,y\n3,z", PreviewLimit) == Preview(["a", "b"], [["1", "x"], ["2", "y"], ["3", "z"]])
  {
    var header := ["a", "b"];
    var rows := [["1", "x"], ["2", "y"], ["3", "z"]];
    assert Join(header, ',') == "a,b";
    assert Join(rows[0], ',') == "1,x" && Join(rows[1], ',') == "2,y" && Join(rows[2], ',') == "3,z";
    assert CsvLines(header, rows) == ["a,b", "1,x", "2,y", "3,z"];
    assert Join(["a,b", "1,x", "2,y", "3,z"], '\n') == "a,b\n1,x\n2,y\n3,z";
    LfTableRoundTrip(header, rows, PreviewLimit);
  }

  lemma ExampleIsCsv()
    ensures !IsJsonName("data.csv")
  {
    JsonNameIgnoresCase("data.csv");
  }

  lemma ExampleTypes(host: Host)
    requires host.isNumber("1") && host.isNumber("2") && host.isNumber("3")
    requires !host.isNumber("x") && !host.isDate("x")
    ensures DetectTypes([["1", "x"], ["2", "y"], ["3", "z"]], ["a", "b"], host.isNumber, host.isDate) == [Numeric, Categorical]
  {
    var rows := [["1", "x"], ["2", "y"], ["3", "z"]];
    assert CellsOf(rows, 0) == ["1", "2", "3"];
    assert CellsOf(rows, 1) == ["x", "y", "z"];
    assert Sample(rows, 0) == ["1", "2", "3"];
    assert Sample(rows, 1) == ["x", "y", "z"];
    assert "x" in Sample(rows, 1);
  }

  /**
   * The panel. `selection` stands for the files held by the page's file
   * input control, which `reset` empties by assigning `''` to its value.
   */
  class Panel {
    var fileName: string
    var preview: Preview
    var meta: Option<Meta>
    var error: string
    var selection: seq<File>

    /** A summary is shown only with the table it describes; without one the table is empty. */
    ghost predicate Valid()
      reads this
    {
      && (meta.None? ==> preview == EmptyPreview)
      && (meta.Some? ==> Consistent(Loaded(preview, meta.value)))
    }

    /** The state the component starts in, and the one `reset` restores. */
    predicate IsInitial()
      reads this
    {
      fileName == "" && preview == EmptyPreview && meta == None && error == "" && selection == []
    }

    constructor ()
      ensures Valid() && IsInitial()
    {
      fileName := "";
      preview := EmptyPreview;
      meta := None;
      error := "";
      selection := [];
    }

    /** The synchronous start of `onDrop`: clear the error and show the new file's name. */
    method Select(file: File)
      requires Valid()
      modifies this
      ensures Valid()
      ensures error == "" && fileName == file.name
      ensures preview == old(preview) && meta == old(meta) && selection == old(selection)
    {
      error := "";
      fileName := file.name;
    }

    /**
     * `reader.onload`: a successful parse replaces the table and the summary;
     * a failure sets only the error text and leaves the previous table and
     * summary on screen.
     */
    method FinishLoad(file: File, host: Host)
      requires Valid()
      modifies this
      ensures Valid()
      ensures fileName == old(fileName) && selection == old(selection)
      ensures Load(file, host).Ok? ==>
        preview == Load(file, host).value.preview && meta == Some(Load(file, host).value.meta) && error == old(error)
      ensures Load(file, host).Err? ==>
        preview == old(preview) && meta == old(meta) && error == ErrorMessage(Load(file, host).error) && error != ""
    {
      match Load(file, host)
      case Ok(loaded) =>
        preview := loaded.preview;
        meta := Some(loaded.meta);
      case Err(e) =>
        error := ErrorMessage(e);
    }

    /** `onDrop(file)` when the read completes before anything else happens. */
    method OnDrop(file: File, host: Host)
      requires Valid()
      modifies this
      ensures Valid()
      ensures fileName == file.name && selection == old(selection)
      ensures Load(file, host).Ok? ==>
        preview == Load(file, host).value.preview && meta == Some(Load(file, host).value.meta) && error == ""
      ensures Load(file, host).Err? ==>
        preview == old(preview) && meta == old(meta) && error == ErrorMessage(Load(file, host).error)
    {
      Select(file);
      FinishLoad(file, host);
    }

    /** `handleFile`: the control now holds `files`, and the first of them, if any, is dropped. */
    method HandleFile(files: seq<File>, host: Host)
      requires Valid()
      modifies this
      ensures Valid() && selection == files
      ensures |files| == 0 ==>
        fileName == old(fileName) && preview == old(preview) && meta == old(meta) && error == old(error)
      ensures |files| > 0 ==> fileName == files[0].name
      ensures |files| > 0 && Load(files[0], host).Ok? ==>
        preview == Load(files[0], host).value.preview && meta == Some(Load(files[0], host).value.meta) && error == ""
      ensures |files| > 0 && Load(files[0], host).Err? ==>
        preview == old(preview) && meta == old(meta) && error == ErrorMessage(Load(files[0], host).error)
    {
      selection := files;
      if |files| > 0 {
        OnDrop(files[0], host);
      }
    }

    /** `reset`: every field back to its initial value, and the file control emptied. */
    method Reset()
      modifies this
      ensures Valid() && IsInitial()
    {
      fileName := "";
      preview := EmptyPreview;
      meta := None;
      error := "";
      selection := [];
    }
  }

  /** Dropping a `.json` file whose text is not JSON on a fresh panel shows an error and leaves the preview empty. */
  method MalformedJsonExample(name: string, content: string, host: Host) returns (panel: Panel)
    requires IsJsonName(name) && host.parseJson(content).Err?
    ensures panel.fileName == name && panel.error != ""
    ensures panel.preview == EmptyPreview && panel.meta == None
  {
    panel := new Panel();
    panel.OnDrop(File(name, content), host);
  }
}

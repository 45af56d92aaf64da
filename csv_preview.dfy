/**
 * `quickCsvParse`: the naive CSV splitter behind the upload preview. No
 * quoting or escaping: lines are split on line breaks, cells on commas.
 */
module CsvPreview {
  import opened Wrappers
  import opened Strings

  /** The number of data rows the panel previews. */
  const PreviewLimit: nat := 100

  /** A preview table: a header and data rows of string cells, aligned by position. */
  datatype Preview = Preview(header: seq<string>, rows: seq<seq<string>>)

  const EmptyPreview := Preview([], [])

  /** Removes one trailing carriage return, if there is one. */
  function DropCr(s: string): string
  {
    if |s| > 0 && s[|s| - 1] == '\r' then s[..|s| - 1] else s
  }

  /**
   * `text.split(/\r?\n/)`: every line break is a `\n` together with at most one
   * `\r` right before it, so the pieces between `\n`s lose one trailing `\r`,
   * except the last piece, which no line break follows.
   */
  function Lines(text: string): (lines: seq<string>)
    ensures |lines| == |Split(text, '\n')| >= 1
    ensures forall l :: l in lines ==> '\n' !in l
  {
    var pieces := Split(text, '\n');
    seq(|pieces|, i requires 0 <= i < |pieces| =>
      if i < |pieces| - 1 then DropCr(pieces[i]) else pieces[i])
  }

  /** The line ends in a carriage return. */
  predicate EndsInCr(s: string)
  {
    |s| > 0 && s[|s| - 1] == '\r'
  }

  /**
   * Puts back the `\r` of each CRLF break: line `i` is followed by `\r\n`
   * when `cr[i]` holds and by a bare `\n` otherwise; the last line is
   * followed by no break.
   */
  function WithBreaks(lines: seq<string>, cr: seq<bool>): (pieces: seq<string>)
    requires |cr| == |lines|
    ensures |pieces| == |lines|
  {
    seq(|lines|, i requires 0 <= i < |lines| =>
      if i < |lines| - 1 && cr[i] then lines[i] + ['\r'] else lines[i])
  }

  /** The CRLF form of a text: every line but the last followed by `\r`. */
  function WithCr(lines: seq<string>): seq<string>
  {
    WithBreaks(lines, seq(|lines|, i => true))
  }

  /**
   * Lines undoes joining with line breaks chosen freely between CRLF and
   * LF, provided a line followed by a bare `\n` does not itself end in
   * `\r` (that `\r` would be read as part of the break).
   */
  lemma LinesOfMixedText(lines: seq<string>, cr: seq<bool>)
    requires |lines| >= 1 && |cr| == |lines|
    requires forall i :: 0 <= i < |lines| ==> '\n' !in lines[i]
    requires forall i :: 0 <= i < |lines| - 1 && !cr[i] ==> !EndsInCr(lines[i])
    ensures Lines(Join(WithBreaks(lines, cr), '\n')) == lines
  {
    var pieces := WithBreaks(lines, cr);
    forall i | 0 <= i < |pieces| ensures '\n' !in pieces[i] {
      assert i < |lines| - 1 && cr[i] ==> pieces[i] == lines[i] + ['\r'];
    }
    SplitJoin(pieces, '\n');
    forall i | 0 <= i < |lines| - 1 ensures DropCr(pieces[i]) == lines[i] {
      if cr[i] {
        assert pieces[i][..|pieces[i]| - 1] == lines[i];
      }
    }
  }

  /**
   * Every text is its lines joined with some choice of CRLF and LF breaks:
   * together with LinesOfMixedText this determines the lines of a text.
   */
  lemma LinesRejoin(text: string)
    ensures exists cr :: |cr| == |Lines(text)| && Join(WithBreaks(Lines(text), cr), '\n') == text &&
                         (forall i :: 0 <= i < |Lines(text)| - 1 && !cr[i] ==> !EndsInCr(Lines(text)[i]))
  {
    var pieces := Split(text, '\n');
    var lines := Lines(text);
    var n := |pieces|;
    var cr := seq(n, i requires 0 <= i < n => i < n - 1 && EndsInCr(pieces[i]));
    forall i | 0 <= i < n ensures WithBreaks(lines, cr)[i] == pieces[i] {
      if i < n - 1 && EndsInCr(pieces[i]) {
        assert lines[i] == pieces[i][..|pieces[i]| - 1];
        assert lines[i] + ['\r'] == pieces[i];
      }
    }
    assert WithBreaks(lines, cr) == pieces;
  }

  /** Lines undoes joining with CRLF line breaks. */
  lemma LinesOfCrlfText(lines: seq<string>)
    requires |lines| >= 1
    requires forall i :: 0 <= i < |lines| ==> '\n' !in lines[i]
    ensures Lines(Join(WithCr(lines), '\n')) == lines
  {
    LinesOfMixedText(lines, seq(|lines|, i => true));
  }

  /** Lines undoes joining with bare `\n` line breaks, when no line but the last ends in `\r`. */
  lemma LinesOfLfText(lines: seq<string>)
    requires |lines| >= 1
    requires forall i :: 0 <= i < |lines| ==> '\n' !in lines[i]
    requires forall i :: 0 <= i < |lines| - 1 ==> !EndsInCr(lines[i])
    ensures Lines(Join(lines, '\n')) == lines
  {
    var cr := seq(|lines|, i => false);
    assert WithBreaks(lines, cr) == lines;
    LinesOfMixedText(lines, cr);
  }

  /** `.filter(Boolean)` on strings: keeps the non-empty ones, in order. */
  function NonEmpty(ss: seq<string>): (r: seq<string>)
    ensures |r| <= |ss|
    ensures forall i :: 0 <= i < |r| ==> r[i] != ""
    ensures forall s :: s in r <==> s in ss && s != ""
  {
    if |ss| == 0 then []
    else (if ss[0] == "" then [] else [ss[0]]) + NonEmpty(ss[1..])
  }

  /** Filtering distributes over concatenation: order is kept and nothing moves across. */
  lemma {:induction false} NonEmptyAppend(a: seq<string>, b: seq<string>)
    ensures NonEmpty(a + b) == NonEmpty(a) + NonEmpty(b)
    decreases |a|
  {
    if |a| > 0 {
      assert (a + b)[1..] == a[1..] + b;
      NonEmptyAppend(a[1..], b);
    } else {
      assert a + b == b;
    }
  }

  /** Filtering a sequence without empty strings keeps it whole. */
  lemma {:induction false} NonEmptyKeepsFullLines(ss: seq<string>)
    requires forall i :: 0 <= i < |ss| ==> ss[i] != ""
    ensures NonEmpty(ss) == ss
    decreases |ss|
  {
    if |ss| > 0 {
      NonEmptyKeepsFullLines(ss[1..]);
      assert [ss[0]] + ss[1..] == ss;
    }
  }

  /** The non-empty lines of a text, in source order. */
  function NonEmptyLines(text: string): (lines: seq<string>)
    ensures forall i :: 0 <= i < |lines| ==> lines[i] != "" && '\n' !in lines[i]
  {
    NonEmpty(Lines(text))
  }

  /**
   * `quickCsvParse(text, limit)`: the header is the first non-empty line cut
   * at commas (no header when there is no such line), and the data rows are
   * the next non-empty lines, at most `limit` of them, cut the same way.
   */
  function QuickCsvParse(text: string, limit: nat): (p: Preview)
    ensures var lines := NonEmptyLines(text);
      && (|lines| == 0 ==> p == EmptyPreview)
      && (|lines| > 0 ==>
            && |p.header| >= 1
            && Join(p.header, ',') == lines[0]
            && |p.rows| == Min(|lines| - 1, limit))
      && (forall i :: 0 <= i < |p.rows| ==> |p.rows[i]| >= 1 && Join(p.rows[i], ',') == lines[i + 1])
    ensures forall j :: 0 <= j < |p.header| ==> ',' !in p.header[j]
    ensures forall i, j :: 0 <= i < |p.rows| && 0 <= j < |p.rows[i]| ==> ',' !in p.rows[i][j]
  {
    var lines := NonEmptyLines(text);
    if |lines| == 0 then EmptyPreview
    else
      var n := Min(|lines| - 1, limit);
      Preview(Split(lines[0], ','), SplitAll(lines[1..n + 1]))
  }

  /** `.map((r) => r.split(','))`. */
  function SplitAll(lines: seq<string>): (rows: seq<seq<string>>)
    ensures |rows| == |lines|
    ensures forall i :: 0 <= i < |rows| ==> |rows[i]| >= 1 && Join(rows[i], ',') == lines[i]
    ensures forall i, j :: 0 <= i < |rows| && 0 <= j < |rows[i]| ==> ',' !in rows[i][j]
  {
    seq(|lines|, i requires 0 <= i < |lines| => Split(lines[i], ','))
  }

  /**
   * The cells are exactly the comma-split lines: any header and rows with
   * comma-free cells that join back to the lines are the parse's own.
   */
  lemma ParseIsUnique(text: string, limit: nat, header: seq<string>, rows: seq<seq<string>>)
    requires |NonEmptyLines(text)| > 0
    requires |header| >= 1 && (forall j :: 0 <= j < |header| ==> ',' !in header[j])
    requires Join(header, ',') == NonEmptyLines(text)[0]
    requires |rows| == Min(|NonEmptyLines(text)| - 1, limit)
    requires forall i :: 0 <= i < |rows| ==> |rows[i]| >= 1 && Join(rows[i], ',') == NonEmptyLines(text)[i + 1]
    requires forall i, j :: 0 <= i < |rows| && 0 <= j < |rows[i]| ==> ',' !in rows[i][j]
    ensures QuickCsvParse(text, limit) == Preview(header, rows)
  {
    var p := QuickCsvParse(text, limit);
    SplitJoin(header, ',');
    SplitJoin(p.header, ',');
    forall i | 0 <= i < |rows| ensures p.rows[i] == rows[i] {
      SplitJoin(rows[i], ',');
      SplitJoin(p.rows[i], ',');
    }
  }

  /** With no more non-empty lines than the limit allows, every line after the header becomes a row. */
  lemma AllRowsWithinLimit(text: string, limit: nat)
    requires 0 < |NonEmptyLines(text)| <= limit + 1
    ensures |QuickCsvParse(text, limit).rows| == |NonEmptyLines(text)| - 1
  {
  }

  /**
   * The cells of a row whose line is not empty: more than one cell (the
   * line then holds a comma), or a single non-empty one.
   */
  predicate NonBlankRow(row: seq<string>)
  {
    |row| >= 2 || (|row| == 1 && row[0] != "")
  }

  /**
   * A CSV text written with any mix of CRLF and LF breaks parses back to
   * its cells, empty cells included, provided no line followed by a bare
   * `\n` ends in `\r`.
   */
  lemma {:induction false} TableRoundTrip(header: seq<string>, rows: seq<seq<string>>, cr: seq<bool>, limit: nat)
    requires NonBlankRow(header) && |rows| <= limit && |cr| == |rows| + 1
    requires forall j :: 0 <= j < |header| ==> ',' !in header[j] && '\n' !in header[j]
    requires forall i :: 0 <= i < |rows| ==> NonBlankRow(rows[i])
    requires forall i, j :: 0 <= i < |rows| && 0 <= j < |rows[i]| ==> ',' !in rows[i][j] && '\n' !in rows[i][j]
    requires forall i :: 0 <= i < |rows| && !cr[i] ==> !EndsInCr(CsvLines(header, rows)[i])
    ensures QuickCsvParse(Join(WithBreaks(CsvLines(header, rows), cr), '\n'), limit) == Preview(header, rows)
  {
    var lines := CsvLines(header, rows);
    JoinHasNoSeparatorFree(header, ',', '\n');
    assert lines[0] == Join(header, ',');
    JoinNonEmpty(header, ',');
    forall i | 0 <= i < |rows| ensures lines[i + 1] == Join(rows[i], ',') && '\n' !in lines[i + 1] && lines[i + 1] != "" {
      JoinHasNoSeparatorFree(rows[i], ',', '\n');
      JoinNonEmpty(rows[i], ',');
    }
    LinesOfMixedText(lines, cr);
    var text := Join(WithBreaks(lines, cr), '\n');
    NonEmptyKeepsFullLines(lines);
    assert NonEmptyLines(text) == lines;
    ParseIsUnique(text, limit, header, rows);
  }

  /** A CSV text written with CRLF line breaks parses back to its cells, empty cells included. */
  lemma CrlfTableRoundTrip(header: seq<string>, rows: seq<seq<string>>, limit: nat)
    requires NonBlankRow(header) && |rows| <= limit
    requires forall j :: 0 <= j < |header| ==> ',' !in header[j] && '\n' !in header[j]
    requires forall i :: 0 <= i < |rows| ==> NonBlankRow(rows[i])
    requires forall i, j :: 0 <= i < |rows| && 0 <= j < |rows[i]| ==> ',' !in rows[i][j] && '\n' !in rows[i][j]
    ensures QuickCsvParse(Join(WithCr(CsvLines(header, rows)), '\n'), limit) == Preview(header, rows)
  {
    TableRoundTrip(header, rows, seq(|rows| + 1, i => true), limit);
  }

  /**
   * A CSV text written with bare `\n` line breaks parses back to its cells,
   * empty cells included, when no line but the last ends in `\r`.
   */
  lemma LfTableRoundTrip(header: seq<string>, rows: seq<seq<string>>, limit: nat)
    requires NonBlankRow(header) && |rows| <= limit
    requires forall j :: 0 <= j < |header| ==> ',' !in header[j] && '\n' !in header[j]
    requires forall i :: 0 <= i < |rows| ==> NonBlankRow(rows[i])
    requires forall i, j :: 0 <= i < |rows| && 0 <= j < |rows[i]| ==> ',' !in rows[i][j] && '\n' !in rows[i][j]
    requires forall i :: 0 <= i < |rows| ==> !EndsInCr(CsvLines(header, rows)[i])
    ensures QuickCsvParse(Join(CsvLines(header, rows), '\n'), limit) == Preview(header, rows)
  {
    var cr := seq(|rows| + 1, i => false);
    assert WithBreaks(CsvLines(header, rows), cr) == CsvLines(header, rows);
    TableRoundTrip(header, rows, cr, limit);
  }

  /** A trailing comma gives an empty last cell: `a,b` then `1,` is the row `1` and `''`. */
  lemma EmptyCellExample()
    ensures QuickCsvParse("a,b\n1,", PreviewLimit) == Preview(["a", "b"], [["1", ""]])
  {
    var header := ["a", "b"];
    var rows := [["1", ""]];
    assert Join(header, ',') == "a,b" && Join(rows[0], ',') == "1,";
    assert CsvLines(header, rows) == ["a,b", "1,"];
    assert Join(["a,b", "1,"], '\n') == "a,b\n1,";
    LfTableRoundTrip(header, rows, PreviewLimit);
  }

  /** The lines of a CSV text: the header line, then one line per row. */
  function CsvLines(header: seq<string>, rows: seq<seq<string>>): (lines: seq<string>)
    ensures |lines| == |rows| + 1
  {
    [Join(header, ',')] + seq(|rows|, i requires 0 <= i < |rows| => Join(rows[i], ','))
  }

  lemma {:induction false} JoinHasNoSeparatorFree(parts: seq<string>, sep: char, c: char)
    requires c != sep
    requires forall j :: 0 <= j < |parts| ==> c !in parts[j]
    ensures c !in Join(parts, sep)
    decreases |parts|
  {
    if |parts| > 1 {
      JoinHasNoSeparatorFree(parts[1..], sep, c);
    }
  }

  lemma {:induction false} JoinNonEmpty(parts: seq<string>, sep: char)
    requires NonBlankRow(parts)
    ensures Join(parts, sep) != ""
  {
    if |parts| >= 2 {
      assert Join(parts, sep)[|parts[0]|] == sep;
    }
  }
}

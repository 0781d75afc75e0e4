/** The CSV pattern builder: the first row is the header, matched literally;
    each column of the data rows is classified as integer, decimal or free
    text, and the row pattern repeats those column patterns. */
module CsvRegex {
  import opened PyStr

  /** What `csv.reader` yields for a text: the rows it produces, then whether
      the following read raises `csv.Error` instead of ending. */
  datatype RowStream = RowStream(rows: seq<seq<string>>, fails: bool)

  const IntPattern: string := "\\d+"
  const DecimalPattern: string := "\\d+(\\.\\d+)?"

  /** What `csv.reader` raises for a delimiter that is not one character. */
  const DelimiterError: Error := TypeError("\"delimiter\" must be a 1-character string")

  predicate IsDigit(c: char)
  {
    '0' <= c <= '9'
  }

  /** `re.fullmatch(r'\d+', s)` for ASCII digits. */
  predicate IsDigits(s: string)
  {
    |s| > 0 && forall i :: 0 <= i < |s| ==> IsDigit(s[i])
  }

  /** `re.fullmatch(r'\d+(\.\d+)?', s)` for ASCII digits. */
  predicate IsDecimal(s: string)
  {
    IsDigits(s) || exists k :: 0 < k < |s| - 1 && s[k] == '.' && IsDigits(s[..k]) && IsDigits(s[k + 1..])
  }

  /** Every non-empty cell is an integer (vacuously so for no such cell). */
  predicate AllIntegers(column: seq<string>)
  {
    forall i :: 0 <= i < |column| && column[i] != [] ==> IsDigits(column[i])
  }

  /** Every non-empty cell is an integer or a decimal. */
  predicate AllDecimals(column: seq<string>)
  {
    forall i :: 0 <= i < |column| && column[i] != [] ==> IsDecimal(column[i])
  }

  /** The rows with exactly `n` fields, in order. */
  function Kept(rows: seq<seq<string>>, n: nat): (r: seq<seq<string>>)
    ensures |r| <= |rows|
    ensures forall k :: 0 <= k < |r| ==> |r[k]| == n
  {
    if rows == [] then []
    else
      var last := rows[|rows| - 1];
      Kept(rows[..|rows| - 1], n) + (if |last| == n then [last] else [])
  }

  /** Column `i` of the data: the `i`-th cell of each row with `n` fields, in row order. */
  function Column(rows: seq<seq<string>>, n: nat, i: nat): seq<string>
    requires i < n
  {
    if rows == [] then []
    else
      var last := rows[|rows| - 1];
      Column(rows[..|rows| - 1], n, i) + (if |last| == n then [last[i]] else [])
  }

  /** The escaped header fields. */
  function EscapeAll(fields: seq<string>): (r: seq<string>)
    ensures |r| == |fields|
    ensures forall i :: 0 <= i < |fields| ==> r[i] == Escape(fields[i])
  {
    seq(|fields|, i requires 0 <= i < |fields| => Escape(fields[i]))
  }

  /** Free text: anything but the delimiter, which goes in unescaped. */
  function TextPattern(delimiter: string): string
  {
    "[^" + delimiter + "]*"
  }

  /** `_infer_column_pattern` of a generator with this delimiter. */
  function InferColumnPattern(delimiter: string, column: seq<string>): (r: string)
    ensures r == IntPattern || r == DecimalPattern || r == TextPattern(delimiter)
    ensures r == IntPattern <==> AllIntegers(column)
    ensures r == TextPattern(delimiter) <==> !AllDecimals(column)
  {
    IntegersAreDecimals(column);
    assert TextPattern(delimiter)[0] == '[';
    if AllIntegers(column) then IntPattern
    else if AllDecimals(column) then DecimalPattern
    else TextPattern(delimiter)
  }

  /** The header matched literally: escaped fields joined by the delimiter. */
  function HeaderPattern(delimiter: string, header: seq<string>): string
  {
    Join(delimiter, EscapeAll(header))
  }

  /** Cell `i` of each row with `n` fields, in row order, read off the kept rows. */
  function KeptColumn(rows: seq<seq<string>>, n: nat, i: nat): seq<string>
    requires i < n
  {
    var kept := Kept(rows, n);
    seq(|kept|, k requires 0 <= k < |kept| => kept[k][i])
  }

  /** One pattern per header field, inferred from the cells the matching
      rows have in that field. */
  function ColumnPatterns(delimiter: string, data: seq<seq<string>>, n: nat): (r: seq<string>)
    ensures |r| == n
    ensures forall i :: 0 <= i < n ==> r[i] == InferColumnPattern(delimiter, KeptColumn(data, n, i))
  {
    ColumnsAreKeptColumns(data, n);
    seq(n, i requires 0 <= i < n => InferColumnPattern(delimiter, Column(data, n, i)))
  }

  /** The pattern for a header and at least one data row: the header, then
      any number of terminated rows, then a last row whose terminator is
      optional. `\r` and `\n` here are the control characters themselves. */
  function TablePattern(delimiter: string, header: seq<string>, data: seq<seq<string>>): string
  {
    var h := HeaderPattern(delimiter, header);
    var row := Join(delimiter, ColumnPatterns(delimiter, data, |header|));
    "^" + h + "\r?\n(" + row + "\r?\n)*" + row + "?$"
  }

  /** What `generate_regex` of a generator with this delimiter returns for a
      text the reader splits into `stream`. */
  function RegexFor(delimiter: string, content: string, stream: RowStream): (r: Result<string>)
    ensures content == [] ==> r == Ok("")
    ensures r.Err? <==> content != [] && (|delimiter| != 1 || stream.fails)
    ensures r.Err? ==> r.error == (if |delimiter| != 1 then DelimiterError else CsvError)
    ensures r.Ok? && r.value != [] ==> |stream.rows| >= 1 && r.value[0] == '^' && r.value[|r.value| - 1] == '$'
  {
    if content == [] then Ok("")
    else if |delimiter| != 1 then Err(DelimiterError)
    else if stream.fails then Err(CsvError)
    else if stream.rows == [] then Ok("")
    else if |stream.rows| == 1 then Ok("^" + HeaderPattern(delimiter, stream.rows[0]) + "\r?\n?$")
    else Ok(TablePattern(delimiter, stream.rows[0], stream.rows[1..]))
  }

  /** `CsvRegexGenerator`: the delimiter is fixed when the generator is made. */
  class CsvRegexGenerator {
    const delimiter: string

    constructor(delimiter: string)
      ensures this.delimiter == delimiter
    {
      this.delimiter := delimiter;
    }

    /** `generate_regex`: reads the rows, gathers the cells of each column in
        place, classifies each column and assembles the pattern. */
    method GenerateRegex(content: string, read: (string, string) -> RowStream) returns (r: Result<string>)
      ensures r == RegexFor(delimiter, content, read(content, delimiter))
    {
      if |content| == 0 {
        return Ok("");
      }
      if |delimiter| != 1 {
        return Err(DelimiterError);
      }
      var stream := read(content, delimiter);
      if stream.fails {
        return Err(CsvError);
      }
      if |stream.rows| == 0 {
        return Ok("");
      }
      var header := stream.rows[0];
      var dataRows := stream.rows[1..];
      if |dataRows| == 0 {
        return Ok("^" + HeaderPattern(delimiter, header) + "\r?\n?$");
      }
      var n := |header|;
      var columns := new seq<string>[n](_ => []);
      for k := 0 to |dataRows|
        invariant forall j :: 0 <= j < n ==> columns[j] == Column(dataRows[..k], n, j)
      {
        var row := dataRows[k];
        assert dataRows[..k + 1][..k] == dataRows[..k];
        if |row| == n {
          for i := 0 to n
            invariant forall j :: 0 <= j < i ==> columns[j] == Column(dataRows[..k + 1], n, j)
            invariant forall j :: i <= j < n ==> columns[j] == Column(dataRows[..k], n, j)
          {
            columns[i] := columns[i] + [row[i]];
          }
        }
      }
      assert dataRows[..|dataRows|] == dataRows;
      var cells := columns[..];
      var patterns := seq(n, i requires 0 <= i < n => InferColumnPattern(delimiter, cells[i]));
      assert patterns == ColumnPatterns(delimiter, dataRows, n);
      var rowPattern := Join(delimiter, patterns);
      var headerPattern := HeaderPattern(delimiter, header);
      return Ok("^" + headerPattern + "\r?\n(" + rowPattern + "\r?\n)*" + rowPattern + "?$");
    }
  }

  /** The name `csv` as `generate_regex` looks it up when it runs: the
      standard module, or the module-level function `csv(string)` that the
      file defines after the class. That definition rebinds the name as soon
      as the file has been imported; only the file's own `__main__` demo runs
      before it and sees the module. */
  datatype CsvBinding = StandardModule | ShadowingFunction

  /** What looking up `reader` on the function raises. */
  const ReaderMissing: Error := AttributeError("'function' object has no attribute 'reader'")

  /** `generate_regex` as written, with `csv` bound as given: the empty-content
      test comes first, then `csv.reader` is looked up. */
  function RegexForAsWritten(binding: CsvBinding, delimiter: string, content: string, stream: RowStream): (r: Result<string>)
    ensures binding == StandardModule ==> r == RegexFor(delimiter, content, stream)
  {
    if content == [] then Ok("")
    else if binding == ShadowingFunction then Err(ReaderMissing)
    else RegexFor(delimiter, content, stream)
  }

  /** Once the file has been imported, the builder fails on every non-empty
      content with the AttributeError, before the delimiter is checked or a
      row is read; the corrected builder never raises it. */
  lemma ImportedBuilderAlwaysFails(delimiter: string, content: string, stream: RowStream)
    ensures RegexForAsWritten(ShadowingFunction, delimiter, content, stream).Ok? <==> content == []
    ensures content != [] ==> RegexForAsWritten(ShadowingFunction, delimiter, content, stream) == Err(ReaderMissing)
    ensures RegexFor(delimiter, content, stream) != Err(ReaderMissing)
  {
  }

  /** A blank cell never changes a column's classification. */
  lemma EmptyCellsIgnored(delimiter: string, column: seq<string>)
    ensures InferColumnPattern(delimiter, column + [""]) == InferColumnPattern(delimiter, column)
  {
    var c := column + [""];
    assert AllIntegers(c) == AllIntegers(column) by {
      assert forall i :: 0 <= i < |column| ==> c[i] == column[i];
    }
    assert AllDecimals(c) == AllDecimals(column) by {
      assert forall i :: 0 <= i < |column| ==> c[i] == column[i];
    }
  }

  /** When every data row has the wrong field count, every column is empty
      and so classified as an integer column. */
  lemma NoKeptRowsGivesIntegers(delimiter: string, data: seq<seq<string>>, n: nat)
    requires Kept(data, n) == []
    ensures forall i :: 0 <= i < n ==> ColumnPatterns(delimiter, data, n)[i] == IntPattern
  {
    forall i | 0 <= i < n
      ensures ColumnPatterns(delimiter, data, n)[i] == IntPattern
    {
      ColumnOfKept(data, n, i);
    }
  }

  /** Rows with the wrong field count contribute nothing: the table pattern
      is the one the matching rows alone give. */
  lemma MismatchedRowsIgnored(delimiter: string, header: seq<string>, data: seq<seq<string>>)
    ensures TablePattern(delimiter, header, data) == TablePattern(delimiter, header, Kept(data, |header|))
  {
    SameColumnPatterns(delimiter, data, |header|);
  }

  lemma SameColumnPatterns(delimiter: string, data: seq<seq<string>>, n: nat)
    ensures ColumnPatterns(delimiter, data, n) == ColumnPatterns(delimiter, Kept(data, n), n)
  {
    forall i | 0 <= i < n
      ensures ColumnPatterns(delimiter, data, n)[i] == ColumnPatterns(delimiter, Kept(data, n), n)[i]
    {
      ColumnOnlySeesKept(data, n, i);
    }
  }

  /** Column `i` holds exactly the `i`-th cell of each kept row, in row order. */
  lemma {:induction false} ColumnOfKept(rows: seq<seq<string>>, n: nat, i: nat)
    requires i < n
    ensures |Column(rows, n, i)| == |Kept(rows, n)|
    ensures forall k :: 0 <= k < |Kept(rows, n)| ==> Column(rows, n, i)[k] == Kept(rows, n)[k][i]
  {
    if rows != [] {
      ColumnOfKept(rows[..|rows| - 1], n, i);
    }
  }

  lemma ColumnsAreKeptColumns(rows: seq<seq<string>>, n: nat)
    ensures forall i :: 0 <= i < n ==> Column(rows, n, i) == KeptColumn(rows, n, i)
  {
    forall i | 0 <= i < n
      ensures Column(rows, n, i) == KeptColumn(rows, n, i)
    {
      ColumnOfKept(rows, n, i);
    }
  }

  /** A column is the same whether or not the mismatched rows are dropped first. */
  lemma ColumnOnlySeesKept(rows: seq<seq<string>>, n: nat, i: nat)
    requires i < n
    ensures Column(rows, n, i) == Column(Kept(rows, n), n, i)
  {
    var kept := Kept(rows, n);
    ColumnOfKept(rows, n, i);
    ColumnOfKept(kept, n, i);
    KeptIsStable(rows, n);
    var a := Column(rows, n, i);
    var b := Column(kept, n, i);
    assert |a| == |b|;
    forall k | 0 <= k < |a|
      ensures a[k] == b[k]
    {
      assert a[k] == kept[k][i];
      assert b[k] == Kept(kept, n)[k][i];
    }
  }

  /** Filtering twice keeps the same rows. */
  lemma {:induction false} KeptIsStable(rows: seq<seq<string>>, n: nat)
    ensures Kept(Kept(rows, n), n) == Kept(rows, n)
  {
    if rows != [] {
      var front := rows[..|rows| - 1];
      var last := rows[|rows| - 1];
      KeptIsStable(front, n);
      var tail := if |last| == n then [last] else [];
      KeptAppend(Kept(front, n), tail, n);
    }
  }

  /** Filtering distributes over concatenation. */
  lemma {:induction false} KeptAppend(a: seq<seq<string>>, b: seq<seq<string>>, n: nat)
    ensures Kept(a + b, n) == Kept(a, n) + Kept(b, n)
    decreases |b|
  {
    if b == [] {
      assert a + b == a;
    } else {
      var front := b[..|b| - 1];
      assert (a + b)[..|a + b| - 1] == a + front;
      assert (a + b)[|a + b| - 1] == b[|b| - 1];
      KeptAppend(a, front, n);
    }
  }

  /** A row with the wrong field count leaves every column as it was. */
  lemma MismatchedRowAddsNothing(rows: seq<seq<string>>, row: seq<string>, n: nat, i: nat)
    requires i < n && |row| != n
    ensures Column(rows + [row], n, i) == Column(rows, n, i)
  {
    assert (rows + [row])[..|rows|] == rows;
  }

  /** An integer cell is also a decimal one, so the text pattern is chosen
      exactly when some non-empty cell is not a number. */
  lemma IntegersAreDecimals(column: seq<string>)
    ensures AllIntegers(column) ==> AllDecimals(column)
  {
  }
}

/** The terrain text format: a 32×32 grid as 32 lines of 32 comma-separated
    numbers. Number formatting and parsing are parameters (`fmt`, `parse`);
    fetching the text and downloading it are not modelled. */
module TerrainCsv {
  import opened Wrappers

  const SIDE: nat := 32
  const CELLS: nat := 1024

  datatype CsvError =
    | WrongLength(length: nat)   // save: "Array length must be 1024 (32x32)"
    | MissingRow(row: nat)       // load: `rows[row]` is undefined, so `.split` throws

  /** `String.prototype.split(sep)` for a one-character separator:
      k separators give k + 1 pieces. */
  function Split(s: string, sep: char): (parts: seq<string>)
    ensures |parts| >= 1
    decreases |s|
  {
    if |s| == 0 then [""]
    else
      var rest := Split(s[1..], sep);
      if s[0] == sep then [""] + rest else [[s[0]] + rest[0]] + rest[1..]
  }

  /** `Array.prototype.join(sep)` on a non-empty array of strings. */
  function Join(parts: seq<string>, sep: char): string
    requires |parts| >= 1
  {
    if |parts| == 1 then parts[0] else parts[0] + [sep] + Join(parts[1..], sep)
  }

  /** ECMAScript WhiteSpace and LineTerminator code points: what `trim` removes. */
  predicate IsWhiteSpace(c: char)
  {
    var n := c as int;
    n == 0x09 || n == 0x0A || n == 0x0B || n == 0x0C || n == 0x0D || n == 0x20 ||
    n == 0xA0 || n == 0x1680 || (0x2000 <= n <= 0x200A) || n == 0x2028 || n == 0x2029 ||
    n == 0x202F || n == 0x205F || n == 0x3000 || n == 0xFEFF
  }

  function TrimStart(s: string): (t: string)
    ensures |t| == 0 || !IsWhiteSpace(t[0])
  {
    if |s| > 0 && IsWhiteSpace(s[0]) then TrimStart(s[1..]) else s
  }

  function TrimEnd(s: string): string
  {
    if |s| > 0 && IsWhiteSpace(s[|s| - 1]) then TrimEnd(s[..|s| - 1]) else s
  }

  /** `String.prototype.trim`. */
  function Trim(s: string): (t: string)
    ensures |t| == 0 || (!IsWhiteSpace(t[0]) && !IsWhiteSpace(t[|t| - 1]))
  {
    TrimEndKeepsStart(TrimStart(s));
    TrimEnd(TrimStart(s))
  }

  lemma {:induction false} TrimEndKeepsStart(s: string)
    requires |s| == 0 || !IsWhiteSpace(s[0])
    ensures var t := TrimEnd(s); |t| == 0 || (!IsWhiteSpace(t[0]) && !IsWhiteSpace(t[|t| - 1]))
    decreases |s|
  {
    if |s| > 0 && IsWhiteSpace(s[|s| - 1]) {
      TrimEndKeepsStart(s[..|s| - 1]);
    }
  }

  /** A token a number formatter may produce: non-empty, no comma, no white space. */
  predicate IsFieldToken(f: string)
  {
    |f| > 0 && forall k :: 0 <= k < |f| ==> f[k] != ',' && !IsWhiteSpace(f[k])
  }

  // ---------------------------------------------------------------- save

  /** The fields of line `y`: elements y·32 .. y·32+31, formatted. */
  function RowFields<T>(a: seq<T>, y: nat, fmt: T -> string): (fields: seq<string>)
    requires |a| == CELLS && y < SIDE
    ensures |fields| == SIDE
  {
    seq(SIDE, x requires 0 <= x < SIDE => fmt(a[y * SIDE + x]))
  }

  function RowText<T>(a: seq<T>, y: nat, fmt: T -> string): string
    requires |a| == CELLS && y < SIDE
  {
    Join(RowFields(a, y, fmt), ',')
  }

  /** The first `n` lines of the saved text, each terminated by a newline. */
  function SavedLines<T>(a: seq<T>, fmt: T -> string, n: nat): string
    requires |a| == CELLS && n <= SIDE
  {
    if n == 0 then "" else SavedLines(a, fmt, n - 1) + RowText(a, n - 1, fmt) + "\n"
  }

  /** What `saveFloat32ArrayAsCSV` puts in the file, or the error it throws. */
  function SavedText<T>(a: seq<T>, fmt: T -> string): Result<string, CsvError>
  {
    if |a| != CELLS then Failure(WrongLength(|a|)) else Success(SavedLines(a, fmt, SIDE))
  }

  /** `saveFloat32ArrayAsCSV` up to the download: a length check, then each
      line built field by field and appended. */
  method SaveFloat32ArrayAsCsv<T>(floatArray: seq<T>, fmt: T -> string) returns (r: Result<string, CsvError>)
    ensures r == SavedText(floatArray, fmt)
    ensures r.Failure? <==> |floatArray| != CELLS
  {
    if |floatArray| != CELLS {
      return Failure(WrongLength(|floatArray|));
    }
    var csvContent := "";
    for y := 0 to SIDE
      invariant csvContent == SavedLines(floatArray, fmt, y)
    {
      var row: seq<string> := [];
      for x := 0 to SIDE
        invariant row == RowFields(floatArray, y, fmt)[..x]
      {
        row := row + [fmt(floatArray[y * SIDE + x])];
      }
      assert row == RowFields(floatArray, y, fmt);
      csvContent := csvContent + Join(row, ',') + "\n";
    }
    r := Success(csvContent);
  }

  // ---------------------------------------------------------------- load

  /** `values[x]`, where a missing field reads as `undefined` and
      `parseFloat(undefined)` parses the text "undefined" (giving NaN). */
  function Field(values: seq<string>, x: nat): string
  {
    if x < |values| then values[x] else "undefined"
  }

  /** The lines `loadCSVToFloat32Array` splits the trimmed text into. */
  function Rows(csvText: string): seq<string>
  {
    Split(Trim(csvText), '\n')
  }

  /** Element `i` of the loaded array: line i div 32, field i mod 32. */
  function LoadedValue<T>(rows: seq<string>, i: nat, parse: string -> T): T
    requires i < CELLS && i / SIDE < |rows|
  {
    parse(Field(Split(rows[i / SIDE], ','), i % SIDE))
  }

  /** What `loadCSVToFloat32Array` returns for a text, or the error it rethrows. */
  function LoadedArray<T>(csvText: string, parse: string -> T): Result<seq<T>, CsvError>
  {
    var rows := Rows(csvText);
    if |rows| < SIDE then Failure(MissingRow(|rows|))
    else Success(seq(CELLS, i requires 0 <= i < CELLS => LoadedValue(rows, i, parse)))
  }

  lemma CellIndex(y: nat, x: nat)
    requires y < SIDE && x < SIDE
    ensures y * SIDE + x < CELLS && (y * SIDE + x) / SIDE == y && (y * SIDE + x) % SIDE == x
  {
  }

  /** `loadCSVToFloat32Array` after the fetch: trim, split into lines, and
      fill a 1024-element array line by line, field by field. */
  method LoadCsvToFloat32Array<T(0)>(csvText: string, parse: string -> T) returns (r: Result<seq<T>, CsvError>)
    ensures r == LoadedArray(csvText, parse)
    ensures r.Failure? <==> |Rows(csvText)| < SIDE
    ensures r.Success? ==> |r.value| == CELLS
    ensures r.Success? ==> forall y, x :: 0 <= y < SIDE && 0 <= x < SIDE ==>
      r.value[y * SIDE + x] == parse(Field(Split(Rows(csvText)[y], ','), x))
  {
    var rows := Split(Trim(csvText), '\n');
    var floatArray := new T[CELLS];
    for y := 0 to SIDE
      invariant y <= |rows|
      invariant forall i :: 0 <= i < y * SIDE ==> floatArray[i] == LoadedValue(rows, i, parse)
    {
      if y >= |rows| {
        return Failure(MissingRow(|rows|));
      }
      LoadRow(floatArray, rows, y, parse);
    }
    r := Success(floatArray[..]);
    assert |rows| >= SIDE;
    assert floatArray[..] == seq(CELLS, i requires 0 <= i < CELLS => LoadedValue(rows, i, parse));
    forall y, x | 0 <= y < SIDE && 0 <= x < SIDE
      ensures r.value[y * SIDE + x] == parse(Field(Split(rows[y], ','), x))
    {
      CellIndex(y, x);
    }
  }

  /** The inner loop of the loader: line `y`, field by field. */
  method LoadRow<T>(floatArray: array<T>, rows: seq<string>, y: nat, parse: string -> T)
    requires floatArray.Length == CELLS && y < SIDE && y < |rows|
    requires forall i :: 0 <= i < y * SIDE ==> floatArray[i] == LoadedValue(rows, i, parse)
    modifies floatArray
    ensures forall i :: 0 <= i < (y + 1) * SIDE ==> floatArray[i] == LoadedValue(rows, i, parse)
  {
    var values := Split(rows[y], ',');
    for x := 0 to SIDE
      invariant forall i :: 0 <= i < y * SIDE + x ==> floatArray[i] == LoadedValue(rows, i, parse)
    {
      CellIndex(y, x);
      floatArray[y * SIDE + x] := parse(Field(values, x));
    }
  }

  // ---------------------------------------------------------------- round trip

  lemma {:induction false} SplitNoSeparator(s: string, sep: char)
    requires sep !in s
    ensures Split(s, sep) == [s]
    decreases |s|
  {
    if |s| > 0 {
      assert sep !in s[1..];
      SplitNoSeparator(s[1..], sep);
      assert [s[0]] + s[1..] == s;
    }
  }

  lemma {:induction false} SplitAfterPiece(a: string, b: string, sep: char)
    requires sep !in a
    ensures Split(a + [sep] + b, sep) == [a] + Split(b, sep)
    decreases |a|
  {
    if |a| == 0 {
      assert a + [sep] + b == [sep] + b;
      assert ([sep] + b)[1..] == b;
    } else {
      assert (a + [sep] + b)[1..] == a[1..] + [sep] + b;
      SplitAfterPiece(a[1..], b, sep);
      assert [a[0]] + a[1..] == a;
    }
  }

  /** Splitting a join gives the pieces back when no piece holds the separator. */
  lemma {:induction false} SplitJoin(parts: seq<string>, sep: char)
    requires |parts| >= 1
    requires forall k :: 0 <= k < |parts| ==> sep !in parts[k]
    ensures Split(Join(parts, sep), sep) == parts
    decreases |parts|
  {
    if |parts| == 1 {
      SplitNoSeparator(parts[0], sep);
    } else {
      SplitJoin(parts[1..], sep);
      SplitAfterPiece(parts[0], Join(parts[1..], sep), sep);
      assert [parts[0]] + parts[1..] == parts;
    }
  }

  /** A join holds only the separator and characters of its pieces. */
  lemma {:induction false} JoinChars(parts: seq<string>, sep: char, c: char)
    requires |parts| >= 1
    requires c != sep && forall k :: 0 <= k < |parts| ==> c !in parts[k]
    ensures c !in Join(parts, sep)
    decreases |parts|
  {
    if |parts| > 1 {
      JoinChars(parts[1..], sep, c);
    }
  }

  /** The lines of the saved text, without their newlines. */
  function SavedRows<T>(a: seq<T>, fmt: T -> string, n: nat): (rows: seq<string>)
    requires |a| == CELLS && n <= SIDE
    ensures |rows| == n
  {
    seq(n, y requires 0 <= y < n => RowText(a, y, fmt))
  }

  lemma {:induction false} SavedLinesAreJoin<T>(a: seq<T>, fmt: T -> string, n: nat)
    requires |a| == CELLS && 1 <= n <= SIDE
    ensures SavedLines(a, fmt, n) == Join(SavedRows(a, fmt, n), '\n') + "\n"
  {
    var rows := SavedRows(a, fmt, n);
    if n > 1 {
      var prev := SavedRows(a, fmt, n - 1);
      var row := RowText(a, n - 1, fmt);
      SavedLinesAreJoin(a, fmt, n - 1);
      assert prev + [row] == rows;
      JoinSnoc(prev, row, '\n');
      calc {
        SavedLines(a, fmt, n);
        SavedLines(a, fmt, n - 1) + row + "\n";
        (Join(prev, '\n') + "\n") + row + "\n";
        { assert (Join(prev, '\n') + "\n") + row == Join(prev, '\n') + ['\n'] + row; }
        Join(rows, '\n') + "\n";
      }
    } else {
      assert rows == [RowText(a, 0, fmt)];
      assert SavedLines(a, fmt, 0) == "";
    }
  }

  /** The first character of a join is that of its first piece. */
  lemma {:induction false} JoinFirst(parts: seq<string>, sep: char)
    requires |parts| >= 1 && |parts[0]| > 0
    ensures |Join(parts, sep)| > 0 && Join(parts, sep)[0] == parts[0][0]
  {
  }

  /** The last character of a join is that of its last piece. */
  lemma {:induction false} JoinLast(parts: seq<string>, sep: char)
    requires |parts| >= 1 && |parts[|parts| - 1]| > 0
    ensures var s := Join(parts, sep); |s| > 0 && s[|s| - 1] == parts[|parts| - 1][|parts[|parts| - 1]| - 1]
    decreases |parts|
  {
    if |parts| > 1 {
      JoinLast(parts[1..], sep);
    }
  }

  lemma {:induction false} JoinSnoc(parts: seq<string>, last: string, sep: char)
    requires |parts| >= 1
    ensures Join(parts + [last], sep) == Join(parts, sep) + [sep] + last
    decreases |parts|
  {
    if |parts| == 1 {
      assert (parts + [last])[1..] == [last];
    } else {
      assert (parts + [last])[1..] == parts[1..] + [last];
      JoinSnoc(parts[1..], last, sep);
    }
  }

  lemma {:induction false} TrimmedBody(body: string)
    requires |body| > 0 && !IsWhiteSpace(body[0]) && !IsWhiteSpace(body[|body| - 1])
    ensures Trim(body + "\n") == body
  {
    var s := body + "\n";
    assert TrimStart(s) == s;
    assert s[..|s| - 1] == body;
    assert TrimEnd(s) == TrimEnd(body);
  }

  /** Every saved line is exactly the 32 formatted fields joined by commas. */
  lemma RowRoundTrip<T>(a: seq<T>, y: nat, fmt: T -> string)
    requires |a| == CELLS && y < SIDE
    requires forall i :: 0 <= i < CELLS ==> IsFieldToken(fmt(a[i]))
    ensures Split(RowText(a, y, fmt), ',') == RowFields(a, y, fmt)
    ensures '\n' !in RowText(a, y, fmt)
  {
    var fields := RowFields(a, y, fmt);
    forall k | 0 <= k < |fields|
      ensures ',' !in fields[k] && '\n' !in fields[k]
    {
      CellIndex(y, k);
      assert fields[k] == fmt(a[y * SIDE + k]);
      assert IsWhiteSpace('\n');
    }
    SplitJoin(fields, ',');
    JoinChars(fields, ',', '\n');
  }

  /** The saved text has 32 newline-terminated lines of 32 comma-separated fields. */
  lemma SavedShape<T>(a: seq<T>, fmt: T -> string)
    requires |a| == CELLS
    requires forall i :: 0 <= i < CELLS ==> IsFieldToken(fmt(a[i]))
    ensures SavedText(a, fmt).Success?
    ensures var text := SavedText(a, fmt).value;
      |text| > 0 && text[|text| - 1] == '\n' &&
      Split(text, '\n') == SavedRows(a, fmt, SIDE) + [""]
    ensures forall y :: 0 <= y < SIDE ==> Split(SavedRows(a, fmt, SIDE)[y], ',') == RowFields(a, y, fmt)
  {
    var rows := SavedRows(a, fmt, SIDE);
    SavedLinesAreJoin(a, fmt, SIDE);
    JoinSnoc(rows, "", '\n');
    assert SavedLines(a, fmt, SIDE) == Join(rows + [""], '\n');
    forall k | 0 <= k < |rows + [""]|
      ensures '\n' !in (rows + [""])[k]
    {
      if k < SIDE {
        RowRoundTrip(a, k, fmt);
      }
    }
    SplitJoin(rows + [""], '\n');
    forall y | 0 <= y < SIDE
      ensures Split(rows[y], ',') == RowFields(a, y, fmt)
    {
      RowRoundTrip(a, y, fmt);
    }
  }

  /** Trimming the saved text leaves the 32 lines joined by newlines. */
  lemma {:induction false} TrimSaved<T>(a: seq<T>, fmt: T -> string)
    requires |a| == CELLS
    requires forall i :: 0 <= i < CELLS ==> IsFieldToken(fmt(a[i]))
    ensures Trim(SavedLines(a, fmt, SIDE)) == Join(SavedRows(a, fmt, SIDE), '\n')
  {
    var rows := SavedRows(a, fmt, SIDE);
    var body := Join(rows, '\n');
    SavedLinesAreJoin(a, fmt, SIDE);
    var first := RowFields(a, 0, fmt);
    var last := RowFields(a, SIDE - 1, fmt);
    CellIndex(0, 0);
    CellIndex(SIDE - 1, SIDE - 1);
    assert first[0] == fmt(a[0]);
    assert last[SIDE - 1] == fmt(a[CELLS - 1]);
    JoinFirst(first, ',');
    JoinLast(last, ',');
    assert rows[0] == Join(first, ',');
    assert rows[SIDE - 1] == Join(last, ',');
    JoinFirst(rows, '\n');
    JoinLast(rows, '\n');
    TrimmedBody(body);
  }

  /** One cell of the round trip: line i div 32, field i mod 32 of the saved
      rows parses back to element i. */
  lemma LoadedCell<T>(a: seq<T>, fmt: T -> string, parse: string -> T, rows: seq<string>, i: nat)
    requires |a| == CELLS && i < CELLS && |rows| == SIDE
    requires forall i :: 0 <= i < CELLS ==> parse(fmt(a[i])) == a[i]
    requires forall y :: 0 <= y < SIDE ==> Split(rows[y], ',') == RowFields(a, y, fmt)
    ensures LoadedValue(rows, i, parse) == a[i]
  {
    var y, x := i / SIDE, i % SIDE;
    CellIndex(y, x);
    assert Field(RowFields(a, y, fmt), x) == fmt(a[y * SIDE + x]);
  }

  /** Loading a saved grid gives the grid back, whenever parsing undoes formatting. */
  lemma LoadAfterSave<T>(a: seq<T>, fmt: T -> string, parse: string -> T)
    requires |a| == CELLS
    requires forall i :: 0 <= i < CELLS ==> IsFieldToken(fmt(a[i]))
    requires forall i :: 0 <= i < CELLS ==> parse(fmt(a[i])) == a[i]
    ensures SavedText(a, fmt).Success?
    ensures LoadedArray(SavedText(a, fmt).value, parse) == Success(a)
  {
    var text := SavedLines(a, fmt, SIDE);
    var rows := SavedRows(a, fmt, SIDE);
    TrimSaved(a, fmt);
    forall y | 0 <= y < SIDE
      ensures '\n' !in rows[y] && Split(rows[y], ',') == RowFields(a, y, fmt)
    {
      RowRoundTrip(a, y, fmt);
    }
    SplitJoin(rows, '\n');
    assert Rows(text) == rows;
    forall i | 0 <= i < CELLS
      ensures LoadedValue(rows, i, parse) == a[i]
    {
      LoadedCell(a, fmt, parse, rows, i);
    }
    assert LoadedArray(text, parse).value == a;
  }
}

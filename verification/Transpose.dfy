/** Byte transposition of a columnar block: the writer's `transpose` (src/write.rs) and the reader's banded
    `un_transpose` (src/file.rs). */
module Transpose {
  import opened Arithmetic
  import opened Bytes
  import opened Options

  datatype TransposeError = InvalidParameter

  /** Where row `row`, column `col` sits in a table stored row after row. */
  function Cell(row: nat, col: nat, rows: nat, cols: nat): (at: nat)
    requires row < rows && col < cols
    ensures at < rows * cols && at / cols == row && at % cols == col
  {
    DivUnique(row * cols + col, cols, row, col);
    CellBound(row, col, rows, cols);
    row * cols + col
  }

  lemma {:induction false} CellBound(row: nat, col: nat, rows: nat, cols: nat)
    requires row < rows && col < cols
    ensures row * cols + col < rows * cols
  {
    assert (row + 1) * cols == row * cols + cols;
    if row + 1 < rows { MulLess(row + 1, rows, cols); }
  }

  lemma {:induction false} NonZeroFactor(at: nat, rows: nat, cols: nat)
    requires at < rows * cols
    ensures cols > 0
  {
  }

  lemma {:induction false} CellOf(at: nat, rows: nat, cols: nat)
    requires at < rows * cols
    ensures cols > 0 && at / cols < rows && at % cols < cols
    ensures Cell(at / cols, at % cols, rows, cols) == at
  {
    NonZeroFactor(at, rows, cols);
    var q := at / cols;
    assert at == q * cols + at % cols;
    if q >= rows {
      if q > rows { MulLess(rows, q, cols); }
    }
  }

  /** The cell of the transposed table that byte `at` of a table of `rows` rows comes from. */
  function Mirror(at: nat, rows: nat, cols: nat): (from: nat)
    requires at < rows * cols
    ensures from < cols * rows
  {
    CellOf(at, rows, cols);
    Cell(at % cols, at / cols, cols, rows)
  }

  /** Mirroring twice is staying put. */
  lemma {:induction false} MirrorBack(at: nat, rows: nat, cols: nat)
    requires at < rows * cols
    ensures Mirror(Mirror(at, rows, cols), cols, rows) == at
  {
    CellOf(at, rows, cols);
  }

  /** A table of `rows` rows of `cols` bytes at the front of `data`, turned on its side; what is behind it stays. */
  function Turned(data: seq<byte>, rows: nat, cols: nat): (r: seq<byte>)
    requires rows * cols <= |data|
    ensures |r| == |data|
  {
    assert rows * cols == cols * rows;
    seq(|data|, at requires 0 <= at < |data| =>
      if at < cols * rows then data[Mirror(at, cols, rows)] else data[at])
  }

  /** Turning a table and turning the result back changes nothing. */
  lemma {:induction false} TurnedBack(data: seq<byte>, rows: nat, cols: nat)
    requires rows * cols <= |data| && cols * rows <= |data|
    ensures Turned(Turned(data, rows, cols), cols, rows) == data
  {
    var back := Turned(Turned(data, rows, cols), cols, rows);
    forall at | 0 <= at < |data| ensures back[at] == data[at] {
      if at < rows * cols { MirrorBack(at, rows, cols); }
    }
  }

  /** Whole rows in `length` bytes. */
  function Rows(length: nat, cols: nat): (rows: nat)
    ensures rows * cols <= length && cols * rows <= length
  {
    if cols == 0 then 0 else
      assert length == length / cols * cols + length % cols;
      length / cols
  }

  /** What `transpose` returns. */
  function Transposed(raw: seq<byte>, cols: nat): (r: seq<byte>)
    ensures |r| == |raw|
  {
    Turned(raw, Rows(|raw|, cols), cols)
  }

  /** What `un_transpose` returns for a column size that is not zero. */
  function UnTransposed(data: seq<byte>, cols: nat): (r: seq<byte>)
    ensures |r| == |data|
  {
    Turned(data, cols, Rows(|data|, cols))
  }

  /** The byte in row `row`, column `col` of the records is found in row `col`, column `row` of the transposed block. */
  lemma {:induction false} TransposedCell(x: seq<byte>, cols: nat, row: nat, col: nat)
    requires row < Rows(|x|, cols) && col < cols
    ensures Transposed(x, cols)[Cell(col, row, cols, Rows(|x|, cols))] == x[Cell(row, col, Rows(|x|, cols), cols)]
  {
    var at := Cell(col, row, cols, Rows(|x|, cols));
    assert Mirror(at, cols, Rows(|x|, cols)) == Cell(row, col, Rows(|x|, cols), cols);
  }

  lemma {:induction false} UnTransposeUndoesTranspose(x: seq<byte>, cols: nat)
    ensures UnTransposed(Transposed(x, cols), cols) == x
  {
    TurnedBack(x, Rows(|x|, cols), cols);
  }

  lemma {:induction false} TransposeUndoesUnTranspose(x: seq<byte>, cols: nat)
    ensures Transposed(UnTransposed(x, cols), cols) == x
  {
    TurnedBack(x, cols, Rows(|x|, cols));
  }

  // ---------------------------------------------------------------- the two loops

  /** Rows before `line` have been copied out, and the first `col` bytes of row `line`. */
  ghost predicate CopiedRows(result: seq<byte>, raw: seq<byte>, lines: nat, cols: nat, line: nat, col: nat)
    requires |result| == |raw| && cols * lines <= |raw| && lines * cols <= |raw|
  {
    forall at :: 0 <= at < cols * lines && (at % lines < line || (at % lines == line && at / lines < col))
      ==> result[at] == raw[Mirror(at, cols, lines)]
  }

  lemma {:induction false} CopyStep(result: seq<byte>, raw: seq<byte>, lines: nat, cols: nat, line: nat, col: nat, dst: nat)
    requires |result| == |raw| && cols * lines <= |raw| && lines * cols <= |raw| && line < lines && col < cols
    requires CopiedRows(result, raw, lines, cols, line, col) && dst == line + col * lines
    ensures dst < |raw| && line * cols + col < |raw| && dst + lines == line + (col + 1) * lines
    ensures CopiedRows(result[dst := raw[line * cols + col]], raw, lines, cols, line, col + 1)
  {
    assert dst == Cell(col, line, cols, lines) && line * cols + col == Cell(line, col, lines, cols);
    OnlyCell(col, line, cols, lines);
  }

  method TransposeRow(result: array<byte>, raw: seq<byte>, lines: nat, cols: nat, line: nat)
    requires result.Length == |raw| && cols * lines <= |raw| && lines * cols <= |raw| && line < lines
    requires CopiedRows(result[..], raw, lines, cols, line, 0)
    modifies result
    ensures CopiedRows(result[..], raw, lines, cols, line + 1, 0)
  {
    hide CopiedRows;
    var dst := line;
    for col := 0 to cols
      invariant dst == line + col * lines
      invariant CopiedRows(result[..], raw, lines, cols, line, col)
    {
      ghost var before := result[..];
      CopyStep(before, raw, lines, cols, line, col, dst);
      result[dst] := raw[line * cols + col];
      assert result[..] == before[dst := raw[line * cols + col]];
      dst := dst + lines;
    }
    RowDone(result[..], raw, lines, cols, line);
  }

  lemma {:induction false} OnlyCell(row: nat, col: nat, rows: nat, cols: nat)
    requires row < rows && col < cols
    ensures forall at :: 0 <= at < rows * cols && at / cols == row && at % cols == col ==> at == Cell(row, col, rows, cols)
  {
    forall at | 0 <= at < rows * cols && at / cols == row && at % cols == col
      ensures at == Cell(row, col, rows, cols)
    {
      CellOf(at, rows, cols);
    }
  }

  lemma {:induction false} RowDone(result: seq<byte>, raw: seq<byte>, lines: nat, cols: nat, line: nat)
    requires |result| == |raw| && cols * lines <= |raw| && lines * cols <= |raw| && line < lines
    requires CopiedRows(result, raw, lines, cols, line, cols)
    ensures CopiedRows(result, raw, lines, cols, line + 1, 0)
  {
    forall at | 0 <= at < cols * lines && at % lines < line + 1
      ensures result[at] == raw[Mirror(at, cols, lines)]
    {
      CellOf(at, cols, lines);
    }
  }

  /** `transpose`. */
  method TransposeBytes(raw: seq<byte>, cols: nat) returns (out: seq<byte>)
    ensures out == Transposed(raw, cols)
  {
    if cols == 0 { return raw; }
    var lines := |raw| / cols;
    assert lines == Rows(|raw|, cols);
    if lines == 0 { return raw; }
    var prefix := lines * cols;
    var result := new byte[|raw|](_ => 0);
    for line := 0 to lines
      invariant CopiedRows(result[..], raw, lines, cols, line, 0)
    {
      TransposeRow(result, raw, lines, cols, line);
    }
    forall at | prefix <= at < |raw| {
      result[at] := raw[at];
    }
    out := result[..];
  }

  const TILE_BYTES: nat := 16384

  /** The cells of output rows `first` to `end` that are done after `col` whole columns and the rows before `row`
      of column `col`, with all the rows before `first`. */
  predicate InBand(at: nat, cols: nat, first: nat, end: nat, col: nat, row: nat)
    requires cols > 0
  {
    at / cols < first || (at / cols < end && (at % cols < col || (at % cols == col && at / cols < row)))
  }

  /** The cells done hold their bytes and were written once; no other cell was written. */
  ghost predicate Banded(result: seq<byte>, writes: seq<nat>, data: seq<byte>, lines: nat, cols: nat,
                         first: nat, end: nat, col: nat, row: nat)
    requires |result| == |writes| == |data| && lines * cols <= |data| && cols * lines <= |data|
  {
    && (forall at :: 0 <= at < lines * cols && (NonZeroFactor(at, lines, cols); InBand(at, cols, first, end, col, row))
          ==> result[at] == data[Mirror(at, lines, cols)] && writes[at] == 1)
    && (forall at :: 0 <= at < |writes| && !(at < lines * cols && (NonZeroFactor(at, lines, cols); InBand(at, cols, first, end, col, row)))
          ==> writes[at] == 0)
  }

  lemma {:induction false} Places(lines: nat, cols: nat, first: nat, col: nat, row: nat, at: nat, dst: nat)
    requires first <= row < lines && col < cols && at == Cell(row, col, lines, cols)
    requires dst + first * cols == row * cols + col
    ensures first * cols + dst == at && col * lines + first + (row - first) == Cell(col, row, cols, lines)
    ensures dst + cols + first * cols == (row + 1) * cols + col
  {
  }

  lemma {:induction false} BandStep(result: seq<byte>, writes: seq<nat>, data: seq<byte>, lines: nat, cols: nat,
                                    first: nat, end: nat, col: nat, row: nat) returns (at: nat)
    requires |result| == |writes| == |data| && lines * cols <= |data| && cols * lines <= |data|
    requires first <= row < end <= lines && col < cols
    requires Banded(result, writes, data, lines, cols, first, end, col, row)
    ensures at == Cell(row, col, lines, cols)
    ensures Mirror(at, lines, cols) == Cell(col, row, cols, lines) == col * lines + row
    ensures writes[at] == 0
    ensures Banded(result[at := data[Cell(col, row, cols, lines)]], writes[at := 1], data, lines, cols, first, end, col, row + 1)
  {
    at := Cell(row, col, lines, cols);
    OnlyCell(row, col, lines, cols);
    assert !InBand(at, cols, first, end, col, row);
    forall other | 0 <= other < lines * cols && other != at ensures cols > 0
      && (InBand(other, cols, first, end, col, row) <==> InBand(other, cols, first, end, col, row + 1))
    {
      CellOf(other, lines, cols);
    }
  }

  /** One column of a band. */
  method BandColumn(result: array<byte>, ghost writes: seq<nat>, data: seq<byte>, lines: nat, cols: nat,
                    first: nat, end: nat, col: nat) returns (ghost writes': seq<nat>)
    requires result.Length == |data| == |writes| && cols * lines <= |data| && lines * cols <= |data|
    requires first < end <= lines && col < cols
    requires Banded(result[..], writes, data, lines, cols, first, end, col, first)
    modifies result
    ensures |writes'| == |data| && Banded(result[..], writes', data, lines, cols, first, end, col + 1, first)
  {
    hide Banded, Mirror;
    var dst := col;
    writes' := writes;
    for row := first to end
      invariant |writes'| == |data| && dst + first * cols == row * cols + col
      invariant Banded(result[..], writes', data, lines, cols, first, end, col, row)
    {
      ghost var at := BandStep(result[..], writes', data, lines, cols, first, end, col, row);
      Places(lines, cols, first, col, row, at, dst);
      ghost var before := result[..];
      result[first * cols + dst] := data[col * lines + first + (row - first)];
      assert result[..] == before[at := data[col * lines + row]];
      writes' := writes'[at := writes'[at] + 1];
      dst := dst + cols;
    }
    ColumnDone(result[..], writes', data, lines, cols, first, end, col);
  }

  lemma {:induction false} ColumnDone(result: seq<byte>, writes: seq<nat>, data: seq<byte>, lines: nat, cols: nat,
                                      first: nat, end: nat, col: nat)
    requires |result| == |writes| == |data| && lines * cols <= |data| && cols * lines <= |data| && col < cols
    requires Banded(result, writes, data, lines, cols, first, end, col, end)
    ensures Banded(result, writes, data, lines, cols, first, end, col + 1, first)
  {
    forall at | 0 <= at < lines * cols ensures cols > 0
      && (InBand(at, cols, first, end, col, end) <==> InBand(at, cols, first, end, col + 1, first))
    {
      CellOf(at, lines, cols);
    }
  }

  method Band(result: array<byte>, ghost writes: seq<nat>, data: seq<byte>, lines: nat, cols: nat, first: nat, end: nat)
    returns (ghost writes': seq<nat>)
    requires result.Length == |data| == |writes| && cols * lines <= |data| && lines * cols <= |data|
    requires first < end <= lines && cols > 0
    requires Banded(result[..], writes, data, lines, cols, first, end, 0, first)
    modifies result
    ensures |writes'| == |data| && Banded(result[..], writes', data, lines, cols, end, lines, 0, end)
  {
    writes' := writes;
    for col := 0 to cols
      invariant |writes'| == |data| && Banded(result[..], writes', data, lines, cols, first, end, col, first)
    {
      writes' := BandColumn(result, writes', data, lines, cols, first, end, col);
    }
    forall at | 0 <= at < lines * cols ensures cols > 0
      && (InBand(at, cols, first, end, cols, first) <==> InBand(at, cols, end, lines, 0, end))
    {
      CellOf(at, lines, cols);
    }
  }

  /** Nothing is done before the first band. */
  lemma {:induction false} NoBandYet(result: seq<byte>, writes: seq<nat>, data: seq<byte>, lines: nat, cols: nat)
    requires |result| == |writes| == |data| && lines * cols <= |data| && cols * lines <= |data|
    requires forall at :: 0 <= at < |writes| ==> writes[at] == 0
    ensures Banded(result, writes, data, lines, cols, 0, lines, 0, 0)
  {
  }

  /** Behind the last band the whole table is done. */
  lemma {:induction false} BandsDone(result: seq<byte>, writes: seq<nat>, data: seq<byte>, lines: nat, cols: nat)
    requires |result| == |writes| == |data| && lines * cols <= |data| && cols * lines <= |data|
    requires Banded(result, writes, data, lines, cols, lines, lines, 0, lines)
    ensures forall at :: 0 <= at < |data| ==> writes[at] == if at < lines * cols then 1 else 0
    ensures forall at :: 0 <= at < lines * cols ==> result[at] == data[Mirror(at, lines, cols)]
  {
    forall at | 0 <= at < lines * cols ensures cols > 0 && at / cols < lines {
      CellOf(at, lines, cols);
    }
  }

  method AllBands(result: array<byte>, data: seq<byte>, lines: nat, cols: nat) returns (ghost writes: seq<nat>)
    requires result.Length == |data| && cols * lines <= |data| && lines * cols <= |data| && cols > 0
    modifies result
    ensures |writes| == |data|
    ensures forall at :: 0 <= at < |data| ==> writes[at] == if at < lines * cols then 1 else 0
    ensures forall at :: 0 <= at < lines * cols ==> result[at] == data[Mirror(at, lines, cols)]
  {
    hide Banded;
    writes := seq(|data|, _ => 0);
    var rowsPerTile := if TILE_BYTES / cols > 1 then TILE_BYTES / cols else 1;
    var first := 0;
    NoBandYet(result[..], writes, data, lines, cols);
    while first < lines
      invariant first <= lines && |writes| == |data|
      invariant Banded(result[..], writes, data, lines, cols, first, lines, 0, first)
    {
      var end := if first + rowsPerTile < lines then first + rowsPerTile else lines;
      ShorterBand(result[..], writes, data, lines, cols, first, end);
      writes := Band(result, writes, data, lines, cols, first, end);
      first := end;
    }
    BandsDone(result[..], writes, data, lines, cols);
  }

  lemma {:induction false} ShorterBand(result: seq<byte>, writes: seq<nat>, data: seq<byte>, lines: nat, cols: nat,
                                       first: nat, end: nat)
    requires |result| == |writes| == |data| && lines * cols <= |data| && cols * lines <= |data| && first < end <= lines
    requires Banded(result, writes, data, lines, cols, first, lines, 0, first)
    ensures Banded(result, writes, data, lines, cols, first, end, 0, first)
  {
    forall at | 0 <= at < lines * cols ensures cols > 0
      && (InBand(at, cols, first, lines, 0, first) <==> InBand(at, cols, first, end, 0, first))
    {
      CellOf(at, lines, cols);
    }
  }

  /** `un_transpose`: a band of output rows at a time, each byte of the table written once. */
  method UnTransposeBytes(data: seq<byte>, cols: nat) returns (r: Result<seq<byte>, TransposeError>, ghost writes: seq<nat>)
    ensures cols == 0 ==> r == Err(InvalidParameter)
    ensures cols > 0 ==> r == Ok(UnTransposed(data, cols))
    ensures cols > 0 && Rows(|data|, cols) > 0 ==>
        && |writes| == |data|
        && forall at :: 0 <= at < |data| ==> writes[at] == if at < Rows(|data|, cols) * cols then 1 else 0
  {
    writes := [];
    if cols == 0 { return Err(InvalidParameter), []; }
    var lines := |data| / cols;
    assert lines == Rows(|data|, cols);
    if lines == 0 {
      assert UnTransposed(data, cols) == data;
      return Ok(data), [];
    }
    var prefix := lines * cols;
    var result := new byte[|data|](_ => 0);
    writes := AllBands(result, data, lines, cols);
    forall at | prefix <= at < |data| {
      result[at] := data[at];
    }
    ghost var whole := UnTransposed(data, cols);
    forall at | 0 <= at < |data| ensures result[at] == whole[at] {
    }
    assert result[..] == whole;
    r := Ok(result[..]);
  }
}

/** Cutting metadata rows into Arrow batches whose string columns stay within signed 32-bit offsets. */
module MetadataBatches {
  import opened Common
  import opened PrefixOffsets

  const MAX_ROWS: nat := 65_536
  const MAX_STRING_BYTES: nat := 8 * 1024 * 1024

  /** Only the byte length of a string matters here. */
  datatype Cell = Text(bytes: nat) | Other

  type Row = seq<Cell>

  function CellBytes(cell: Cell): nat { if cell.Text? then cell.bytes else 0 }

  function RowBytes(row: Row): nat {
    if row == [] then 0 else RowBytes(row[..|row| - 1]) + CellBytes(row[|row| - 1])
  }

  function BatchBytes(rows: seq<Row>): nat {
    if rows == [] then 0 else BatchBytes(rows[..|rows| - 1]) + RowBytes(rows[|rows| - 1])
  }

  /** What one column of a batch needs for its string data. */
  function ColumnBytes(rows: seq<Row>, column: nat): nat {
    if rows == [] then 0
    else
      var last := rows[|rows| - 1];
      ColumnBytes(rows[..|rows| - 1], column) + if column < |last| then CellBytes(last[column]) else 0
  }

  /** A row Arrow can hold: every string fits a 32-bit offset and the total fits a machine word. */
  ghost predicate Storable(row: Row) {
    && (forall c :: 0 <= c < |row| ==> CellBytes(row[c]) <= I32_MAX)
    && RowBytes(row) <= U64_MAX
  }

  /** At most `limit` string bytes, or none beyond the first row. */
  ghost predicate WithinBytes(rows: seq<Row>, limit: nat) {
    BatchBytes(rows) <= limit || (rows != [] && BatchBytes(rows) == RowBytes(rows[0]))
  }

  lemma {:induction false} RowBytesGrows(row: Row, k: nat)
    requires k <= |row|
    ensures RowBytes(row[..k]) <= RowBytes(row)
    decreases |row|
  {
    if k < |row| {
      RowBytesGrows(row[..|row| - 1], k);
      assert row[..|row| - 1][..k] == row[..k];
    } else {
      assert row[..k] == row;
    }
  }

  lemma {:induction false} CellWithinRow(row: Row, c: nat)
    requires c < |row|
    ensures CellBytes(row[c]) <= RowBytes(row)
    decreases |row|
  {
    if c < |row| - 1 {
      CellWithinRow(row[..|row| - 1], c);
    }
  }

  lemma {:induction false} ColumnWithinBatch(rows: seq<Row>, column: nat)
    ensures ColumnBytes(rows, column) <= BatchBytes(rows)
    decreases |rows|
  {
    if rows != [] {
      ColumnWithinBatch(rows[..|rows| - 1], column);
      if column < |rows[|rows| - 1]| {
        CellWithinRow(rows[|rows| - 1], column);
      }
    }
  }

  lemma {:induction false} FirstRowWithinBatch(rows: seq<Row>)
    requires rows != []
    ensures RowBytes(rows[0]) <= BatchBytes(rows)
    decreases |rows|
  {
    if |rows| > 1 {
      FirstRowWithinBatch(rows[..|rows| - 1]);
    } else {
      assert rows[..0] == [];
    }
  }

  /** If the first row has all the bytes of a batch, a column has no more than that row gives it. */
  lemma {:induction false} ColumnOfFirstRow(rows: seq<Row>, column: nat)
    requires rows != [] && BatchBytes(rows) == RowBytes(rows[0])
    ensures ColumnBytes(rows, column) == if column < |rows[0]| then CellBytes(rows[0][column]) else 0
    decreases |rows|
  {
    var last := |rows| - 1;
    if last > 0 {
      FirstRowWithinBatch(rows[..last]);
      ColumnOfFirstRow(rows[..last], column);
      if column < |rows[last]| {
        CellWithinRow(rows[last], column);
      }
    } else {
      assert rows[..0] == [];
    }
  }

  /** Hence no column of an accepted batch overflows its 32-bit offsets. */
  lemma ColumnFits(rows: seq<Row>, column: nat, limit: nat)
    requires rows != [] && Storable(rows[0]) && WithinBytes(rows, limit) && limit <= I32_MAX
    ensures ColumnBytes(rows, column) <= I32_MAX
  {
    if BatchBytes(rows) <= limit {
      ColumnWithinBatch(rows, column);
    } else {
      ColumnOfFirstRow(rows, column);
    }
  }

  /** The string bytes of one row, cell by cell. */
  method MeasureRow(row: Row) returns (r: Result<nat>)
    ensures r.Ok? <==> Storable(row)
    ensures r.Ok? ==> r.value == RowBytes(row)
    ensures r.Err? ==> r.error == InvalidInput
  {
    var bytes := 0;
    for c := 0 to |row|
      invariant bytes == RowBytes(row[..c]) <= U64_MAX
      invariant forall k :: 0 <= k < c ==> CellBytes(row[k]) <= I32_MAX
    {
      assert row[..c + 1][..c] == row[..c];
      match row[c]
      case Other =>
      case Text(length) =>
        if length > I32_MAX {
          assert CellBytes(row[c]) > I32_MAX;
          return Err(InvalidInput);
        }
        if bytes + length > U64_MAX {
          RowBytesGrows(row, c + 1);
          return Err(InvalidInput);
        }
        bytes := bytes + length;
    }
    assert row[..|row|] == row;
    r := Ok(bytes);
  }

  /**
   `metadata_batch_len`: as many rows as the limits allow, and at least one. The batch's own byte total
   never overflows. An error means that one of the rows looked at cannot be stored.
   */
  method MetadataBatchLen(rows: seq<Row>, maxRows: nat, maxBytes: nat) returns (r: Result<nat>)
    requires maxBytes <= U64_MAX
    ensures r.Ok? ==> r.value <= |rows| && r.value <= maxRows
    ensures r.Ok? && rows != [] && maxRows > 0 ==> r.value > 0
    ensures r.Ok? ==> WithinBytes(rows[..r.value], maxBytes) && forall k :: 0 <= k < r.value ==> Storable(rows[k])
    ensures r.Ok? && r.value < |rows| && r.value < maxRows ==>
      BatchBytes(rows[..r.value]) + RowBytes(rows[r.value]) > maxBytes && RowBytes(rows[r.value]) > 0
    ensures r.Err? ==> r.error == InvalidInput && exists k :: 0 <= k < |rows| && k < maxRows && !Storable(rows[k])
  {
    var bytes, count := 0, 0;
    while count < |rows| && count < maxRows
      invariant count <= |rows| && count <= maxRows && bytes == BatchBytes(rows[..count]) <= U64_MAX
      invariant count > 0 ==> WithinBytes(rows[..count], maxBytes)
      invariant forall k :: 0 <= k < count ==> Storable(rows[k])
    {
      var measured := MeasureRow(rows[count]);
      if measured.Err? {
        return Err(InvalidInput);
      }
      assert rows[..count + 1][..count] == rows[..count];
      var room := if bytes < maxBytes then maxBytes - bytes else 0;
      if count > 0 && measured.value > room {
        break;
      }
      if bytes + measured.value > U64_MAX {
        return Err(InvalidInput);
      }
      bytes := bytes + measured.value;
      count := count + 1;
    }
    r := Ok(count);
  }

  /** One batch as it is handed to the Arrow writer. */
  ghost predicate GoodBatch(batch: seq<Row>) {
    && 0 < |batch| <= 65_536
    && WithinBytes(batch, 8_388_608)
    && forall column: nat :: ColumnBytes(batch, column) <= I32_MAX
  }

  /** A batch ends before the next row only at the row limit, or because that row's bytes do not fit any more. */
  ghost predicate CutNeeded(batch: seq<Row>, next: Row) {
    |batch| == 65_536 || (BatchBytes(batch) + RowBytes(next) > 8_388_608 && RowBytes(next) > 0)
  }

  ghost predicate CutAt(out: seq<seq<Row>>, b: nat)
    requires b + 1 < |out|
  {
    out[b + 1] != [] && CutNeeded(out[b], out[b + 1][0])
  }

  ghost predicate CutsNeeded(out: seq<seq<Row>>) { forall b :: 0 <= b < |out| - 1 ==> CutAt(out, b) }

  lemma CutsMore(out: seq<seq<Row>>, batch: seq<Row>)
    requires CutsNeeded(out) && batch != [] && (out != [] ==> CutNeeded(out[|out| - 1], batch[0]))
    ensures CutsNeeded(out + [batch])
  {
    forall b | 0 <= b < |out|
      ensures CutAt(out + [batch], b)
    {
      if b < |out| - 1 {
        assert CutAt(out, b);
      }
    }
  }

  ghost predicate AllStorable(rows: seq<Row>) {
    forall k :: 0 <= k < |rows| ==> Storable(rows[k])
  }

  lemma CutIsGood(batch: seq<Row>)
    requires 0 < |batch| <= MAX_ROWS && AllStorable(batch) && WithinBytes(batch, MAX_STRING_BYTES)
    ensures GoodBatch(batch)
  {
    forall column: nat
      ensures ColumnBytes(batch, column) <= I32_MAX
    {
      ColumnFits(batch, column, MAX_STRING_BYTES);
    }
  }

  lemma CutMoves(out: seq<seq<Row>>, remaining: seq<Row>, n: nat, rows: seq<Row>)
    requires Flat(out) + remaining == rows && n <= |remaining|
    ensures Flat(out + [remaining[..n]]) + remaining[n..] == rows
    ensures AllStorable(Flat(out)) && AllStorable(remaining[..n]) ==> AllStorable(Flat(out + [remaining[..n]]))
  {
    FlatAppend(out, remaining[..n]);
    assert remaining == remaining[..n] + remaining[n..];
  }

  lemma UnstorableRow(done: seq<Row>, remaining: seq<Row>, k: nat)
    requires k < |remaining| && !Storable(remaining[k])
    ensures !AllStorable(done + remaining)
  {
    assert (done + remaining)[|done| + k] == remaining[k];
  }

  /** Cut one batch off the front. */
  method TakeBatch(remaining: seq<Row>) returns (r: Result<nat>)
    requires remaining != []
    ensures r.Ok? ==> 0 < r.value <= |remaining| && AllStorable(remaining[..r.value]) && GoodBatch(remaining[..r.value])
    ensures r.Ok? && r.value < |remaining| ==> CutNeeded(remaining[..r.value], remaining[r.value])
    ensures r.Err? ==> exists k :: 0 <= k < |remaining| && !Storable(remaining[k])
  {
    r := MetadataBatchLen(remaining, MAX_ROWS, MAX_STRING_BYTES);
    if r.Ok? {
      CutIsGood(remaining[..r.value]);
    }
  }

  /** The write loop: it fails exactly when some row cannot be stored, and otherwise loses and reorders nothing. */
  method WriteBatches(rows: seq<Row>) returns (r: Result<seq<seq<Row>>>)
    ensures r.Ok? <==> AllStorable(rows)
    ensures r.Ok? ==> Flat(r.value) == rows && forall b :: 0 <= b < |r.value| ==> GoodBatch(r.value[b])
    ensures r.Ok? ==> CutsNeeded(r.value)
  {
    var remaining, out := rows, [];
    while remaining != []
      invariant Flat(out) + remaining == rows && AllStorable(Flat(out))
      invariant forall b :: 0 <= b < |out| ==> GoodBatch(out[b])
      invariant CutsNeeded(out)
      invariant out != [] && remaining != [] ==> CutNeeded(out[|out| - 1], remaining[0])
      decreases |remaining|
    {
      var len := TakeBatch(remaining);
      if len.Err? {
        ghost var k :| 0 <= k < |remaining| && !Storable(remaining[k]);
        UnstorableRow(Flat(out), remaining, k);
        return Err(InvalidInput);
      }
      CutMoves(out, remaining, len.value, rows);
      CutsMore(out, remaining[..len.value]);
      out, remaining := out + [remaining[..len.value]], remaining[len.value..];
    }
    assert Flat(out) + [] == Flat(out);
    r := Ok(out);
  }
}

/**
 Schemas, columns and record batches. A vector column follows section "Fixed-Size List Layout"
 of the Apache Arrow Columnar Format: one flat child buffer, `size` slots a row, null rows included.
 */
module Columnar {
  import opened Prelude
  import opened JsonValues

  datatype DataType =
    | Utf8 | LargeUtf8
    | Int64 | Int32 | UInt64 | UInt32
    | Float64 | Float32
    | Boolean
    | FixedSizeList(ofFloat32: bool, size: int)
    | OtherType(tag: nat)

  datatype Field = Field(name: string, dataType: DataType, nullable: bool)

  type Schema = seq<Field>

  datatype Cell = Text(s: string) | Integer(i: Whole) | Floating(f: Float) | Flag(b: bool)

  /** What one row holds in one column when it is not null. */
  datatype Item = Scalar(cell: Cell) | List(floats: seq<Option<Float>>)

  datatype Column =
    | Scalars(dataType: DataType, slots: seq<Option<Cell>>)
    | Vectors(size: int, valid: seq<bool>, child: seq<Option<Float>>)

  datatype Batch = Batch(schema: Schema, columns: seq<Column>, rows: nat)

  predicate IsVector(dt: DataType) {
    dt.FixedSizeList? && dt.ofFloat32
  }

  /** The types the JSON reader has a builder for. */
  predicate Supported(dt: DataType) {
    !dt.OtherType? && (dt.FixedSizeList? ==> dt.ofFloat32)
  }

  function ColumnLength(col: Column): nat {
    match col
    case Scalars(_, slots) => |slots|
    case Vectors(_, valid, _) => |valid|
  }

  function ColumnType(col: Column): DataType {
    match col
    case Scalars(dt, _) => dt
    case Vectors(size, _, _) => FixedSizeList(true, size)
  }

  predicate WellFormed(col: Column) {
    col.Vectors? ==> col.size >= 0 && |col.child| == |col.valid| * col.size
  }

  predicate WellFormedBatch(b: Batch) {
    && |b.columns| == |b.schema|
    && forall c :: 0 <= c < |b.columns| ==> WellFormed(b.columns[c]) && ColumnLength(b.columns[c]) == b.rows
  }

  /** The slots of row `i` lie inside a buffer of `n` rows. */
  lemma {:induction false} RowFits(i: nat, n: nat, size: nat)
    requires i < n
    ensures 0 <= i * size <= (i + 1) * size <= n * size
    ensures (i + 1) * size == i * size + size
    decreases n
  {
    if i + 1 < n {
      RowFits(i, n - 1, size);
      assert n * size == (n - 1) * size + size;
    }
  }

  /** Reads row `i` of a column; for a vector column, the slice of the child buffer that belongs to it. */
  function ReadBack(col: Column, i: nat): (item: Option<Item>)
    requires WellFormed(col) && i < ColumnLength(col)
  {
    match col
    case Scalars(_, slots) => if slots[i].None? then None else Some(Scalar(slots[i].value))
    case Vectors(size, valid, child) =>
      RowFits(i, |valid|, size);
      if valid[i] then Some(List(child[i * size..(i + 1) * size])) else None
  }

  predicate IsNull(col: Column, i: nat)
    requires i < ColumnLength(col)
  {
    match col
    case Scalars(_, slots) => slots[i].None?
    case Vectors(_, valid, _) => !valid[i]
  }

  /** Total number of rows of a list of batches. */
  function CountRows(batches: seq<Batch>): nat {
    if |batches| == 0 then 0 else CountRows(batches[..|batches| - 1]) + batches[|batches| - 1].rows
  }
}

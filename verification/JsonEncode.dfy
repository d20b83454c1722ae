/** From record batches back to JSON rows. */
module JsonEncode {
  import opened Prelude
  import opened JsonValues
  import opened Columnar

  datatype EncodeError = UnsupportedOutput(dataType: DataType)

  function RenderCell(cell: Cell): Value {
    match cell
    case Text(s) => Str(s)
    case Integer(i) => FromWhole(i)
    case Floating(f) => FromFloat(f)
    case Flag(b) => Bool(b)
  }

  function RenderFloat(f: Option<Float>): Value {
    match f
    case None => Null
    case Some(x) => FromFloat(x)
  }

  function RenderFloats(floats: seq<Option<Float>>): seq<Value> {
    seq(|floats|, i requires 0 <= i < |floats| => RenderFloat(floats[i]))
  }

  function ValueAt(col: Column, i: nat): Result<Value, EncodeError>
    requires WellFormed(col) && i < ColumnLength(col)
  {
    if IsNull(col, i) then Ok(Null)
    else
      match col
      case Scalars(dt, slots) =>
        if Supported(dt) && !dt.FixedSizeList? then Ok(RenderCell(slots[i].value)) else Err(UnsupportedOutput(dt))
      case Vectors(size, valid, child) =>
        RowFits(i, |valid|, size);
        Ok(Arr(RenderFloats(child[i * size..(i + 1) * size])))
  }

  method JsonValueFromArray(col: Column, i: nat) returns (r: Result<Value, EncodeError>)
    requires WellFormed(col) && i < ColumnLength(col)
    ensures r == ValueAt(col, i)
  {
    if IsNull(col, i) {
      return Ok(Null);
    }
    match col {
      case Scalars(dt, slots) =>
        if Supported(dt) && !dt.FixedSizeList? {
          r := Ok(RenderCell(slots[i].value));
        } else {
          r := Err(UnsupportedOutput(dt));
        }
      case Vectors(size, valid, child) =>
        RowFits(i, |valid|, size);
        var floats := child[i * size..(i + 1) * size];
        var items: seq<Value> := [];
        for k := 0 to |floats|
          invariant items == RenderFloats(floats)[..k]
        {
          items := items + [RenderFloat(floats[k])];
        }
        assert items == RenderFloats(floats);
        r := Ok(Arr(items));
    }
  }

  /** The columns are as long as the batch, and one is there for each output field the row loop asks for. */
  predicate Encodable(schema: Schema, batch: Batch) {
    && (batch.rows > 0 ==> |schema| <= |batch.columns|)
    && forall c :: 0 <= c < |batch.columns| ==>
         WellFormed(batch.columns[c]) && ColumnLength(batch.columns[c]) == batch.rows
  }

  /** The first `k` members of the object of row `r`; a later field of the same name replaces an earlier one. */
  function Members(schema: Schema, batch: Batch, r: nat, k: nat): Result<map<string, Value>, EncodeError>
    requires Encodable(schema, batch) && r < batch.rows && k <= |schema|
  {
    if k == 0 then Ok(map[])
    else
      var front :- Members(schema, batch, r, k - 1);
      var value :- ValueAt(batch.columns[k - 1], r);
      Ok(front[schema[k - 1].name := value])
  }

  function RowsUpTo(schema: Schema, batch: Batch, n: nat): (res: Result<seq<Value>, EncodeError>)
    requires Encodable(schema, batch) && n <= batch.rows
    ensures res.Ok? ==> |res.value| == n
  {
    if n == 0 then Ok([])
    else
      var front :- RowsUpTo(schema, batch, n - 1);
      var members :- Members(schema, batch, n - 1, |schema|);
      Ok(front + [Obj(members)])
  }

  predicate AllEncodable(schema: Schema, batches: seq<Batch>) {
    forall b :: 0 <= b < |batches| ==> Encodable(schema, batches[b])
  }

  function BatchesUpTo(schema: Schema, batches: seq<Batch>, n: nat): Result<seq<Value>, EncodeError>
    requires AllEncodable(schema, batches) && n <= |batches|
  {
    if n == 0 then Ok([])
    else
      var front :- BatchesUpTo(schema, batches, n - 1);
      var rows :- RowsUpTo(schema, batches[n - 1], batches[n - 1].rows);
      Ok(front + rows)
  }

  /** The rows of all batches in order, or the first error met. */
  function EncodeRows(schema: Schema, batches: seq<Batch>): Result<seq<Value>, EncodeError>
    requires AllEncodable(schema, batches)
  {
    BatchesUpTo(schema, batches, |batches|)
  }

  lemma {:induction false} MembersErr(schema: Schema, batch: Batch, r: nat, k: nat, n: nat)
    requires Encodable(schema, batch) && r < batch.rows && k <= n <= |schema|
    requires Members(schema, batch, r, k).Err?
    ensures Members(schema, batch, r, n) == Members(schema, batch, r, k)
    decreases n
  {
    if k < n { MembersErr(schema, batch, r, k, n - 1); }
  }

  lemma {:induction false} RowsErr(schema: Schema, batch: Batch, k: nat, n: nat)
    requires Encodable(schema, batch) && k <= n <= batch.rows
    requires RowsUpTo(schema, batch, k).Err?
    ensures RowsUpTo(schema, batch, n) == RowsUpTo(schema, batch, k)
    decreases n
  {
    if k < n { RowsErr(schema, batch, k, n - 1); }
  }

  lemma {:induction false} BatchesErr(schema: Schema, batches: seq<Batch>, k: nat, n: nat)
    requires AllEncodable(schema, batches) && k <= n <= |batches|
    requires BatchesUpTo(schema, batches, k).Err?
    ensures BatchesUpTo(schema, batches, n) == BatchesUpTo(schema, batches, k)
    decreases n
  {
    if k < n { BatchesErr(schema, batches, k, n - 1); }
  }

  method EncodeRow(schema: Schema, batch: Batch, r: nat) returns (res: Result<Value, EncodeError>)
    requires Encodable(schema, batch) && r < batch.rows
    ensures var members := Members(schema, batch, r, |schema|);
            res == if members.Ok? then Ok(Obj(members.value)) else Err(members.error)
  {
    var members: map<string, Value> := map[];
    for k := 0 to |schema|
      invariant Members(schema, batch, r, k) == Ok(members)
    {
      var value := JsonValueFromArray(batch.columns[k], r);
      if value.Err? {
        MembersErr(schema, batch, r, k + 1, |schema|);
        return Err(value.error);
      }
      members := members[schema[k].name := value.value];
    }
    res := Ok(Obj(members));
  }

  method EncodeBatchesAsJson(schema: Schema, batches: seq<Batch>) returns (res: Result<seq<Value>, EncodeError>)
    requires AllEncodable(schema, batches)
    ensures res == EncodeRows(schema, batches)
  {
    var rows: seq<Value> := [];
    for b := 0 to |batches|
      invariant BatchesUpTo(schema, batches, b) == Ok(rows)
    {
      ghost var before := rows;
      ghost var added: seq<Value> := [];
      for r := 0 to batches[b].rows
        invariant RowsUpTo(schema, batches[b], r) == Ok(added)
        invariant rows == before + added
      {
        var row := EncodeRow(schema, batches[b], r);
        if row.Err? {
          RowsErr(schema, batches[b], r + 1, batches[b].rows);
          BatchesErr(schema, batches, b + 1, |batches|);
          return Err(row.error);
        }
        rows := rows + [row.value];
        added := added + [row.value];
      }
    }
    res := Ok(rows);
  }

  lemma {:induction false} RowsCounted(schema: Schema, batches: seq<Batch>, n: nat)
    requires AllEncodable(schema, batches) && n <= |batches|
    requires BatchesUpTo(schema, batches, n).Ok?
    ensures |BatchesUpTo(schema, batches, n).value| == CountRows(batches[..n])
  {
    if n > 0 {
      RowsCounted(schema, batches, n - 1);
      assert batches[..n][..n - 1] == batches[..n - 1];
    }
  }

  /** The row count a search reports is the number of JSON rows it returns. */
  lemma CountMatchesRows(schema: Schema, batches: seq<Batch>)
    requires AllEncodable(schema, batches) && EncodeRows(schema, batches).Ok?
    ensures |EncodeRows(schema, batches).value| == CountRows(batches)
  {
    RowsCounted(schema, batches, |batches|);
    assert batches[..|batches|] == batches;
  }

  // ---------------------------------------------------------------- what is printed, and where

  /** How a stored float prints: a number if it is finite, null otherwise, and null where there is none. */
  ghost predicate PrintsFloat(f: Option<Float>, v: Value) {
    v == if f.Some? && f.value.Finite? then Num(Decimal(f.value.r)) else Null
  }

  /** How a cell that is not null prints. */
  ghost predicate PrintsCell(cell: Cell, v: Value) {
    match cell
    case Text(s) => v == Str(s)
    case Integer(i) => v.Num? && if i < 0 then v.n.NegInt? && v.n.i == i else v.n.PosInt? && v.n.u == i
    case Floating(f) => PrintsFloat(Some(f), v)
    case Flag(b) => v == Bool(b)
  }

  /** The value of each kind of cell; row `i` of a vector column prints its own stretch of the child buffer. */
  lemma CellPrints(col: Column, i: nat)
    requires WellFormed(col) && i < ColumnLength(col)
    ensures match col
            case Scalars(dt, slots) =>
              if slots[i].None? then ValueAt(col, i) == Ok(Null)
              else if !Supported(dt) || dt.FixedSizeList? then ValueAt(col, i) == Err(UnsupportedOutput(dt))
              else ValueAt(col, i).Ok? && PrintsCell(slots[i].value, ValueAt(col, i).value)
            case Vectors(size, valid, child) =>
              && ValueAt(col, i).Ok?
              && var v := ValueAt(col, i).value;
                 if !valid[i] then v == Null
                 else
                   && v.Arr? && |v.items| == size && 0 <= i * size && (i + 1) * size <= |child|
                   && forall k :: 0 <= k < size ==> PrintsFloat(child[i * size..(i + 1) * size][k], v.items[k])
  {
    if col.Vectors? { RowFits(i, |col.valid|, col.size); }
  }

  function NamesUpTo(schema: Schema, k: nat): set<string>
    requires k <= |schema|
  {
    set f | 0 <= f < k :: schema[f].name
  }

  ghost predicate LastOfItsName(schema: Schema, f: nat, k: nat) {
    f < k <= |schema| && forall g :: f < g < k ==> schema[g].name != schema[f].name
  }

  /** The members are the first `k` fields, each name with the value of the last field that has it. */
  ghost predicate MembersPrinted(schema: Schema, batch: Batch, r: nat, k: nat, members: map<string, Value>)
    requires Encodable(schema, batch) && r < batch.rows && k <= |schema|
  {
    && members.Keys == NamesUpTo(schema, k)
    && (forall f :: 0 <= f < k ==> ValueAt(batch.columns[f], r).Ok?)
    && forall f: nat :: LastOfItsName(schema, f, k) ==>
         schema[f].name in members && ValueAt(batch.columns[f], r) == Ok(members[schema[f].name])
  }

  lemma OneMoreName(schema: Schema, k: nat)
    requires k < |schema|
    ensures NamesUpTo(schema, k + 1) == NamesUpTo(schema, k) + {schema[k].name}
  {
  }

  lemma OneMoreMember(schema: Schema, batch: Batch, r: nat, k: nat, front: map<string, Value>, v: Value)
    requires Encodable(schema, batch) && r < batch.rows && k < |schema|
    requires MembersPrinted(schema, batch, r, k, front) && ValueAt(batch.columns[k], r) == Ok(v)
    ensures MembersPrinted(schema, batch, r, k + 1, front[schema[k].name := v])
  {
    var members := front[schema[k].name := v];
    OneMoreName(schema, k);
    forall f: nat | LastOfItsName(schema, f, k + 1)
      ensures schema[f].name in members && ValueAt(batch.columns[f], r) == Ok(members[schema[f].name])
    {
      if f < k { assert LastOfItsName(schema, f, k) && schema[k].name != schema[f].name; }
    }
  }

  lemma {:induction false} MembersOk(schema: Schema, batch: Batch, r: nat, k: nat)
    requires Encodable(schema, batch) && r < batch.rows && k <= |schema|
    requires Members(schema, batch, r, k).Ok?
    ensures MembersPrinted(schema, batch, r, k, Members(schema, batch, r, k).value)
  {
    if k == 0 {
      assert NamesUpTo(schema, 0) == {};
      return;
    }
    MembersOk(schema, batch, r, k - 1);
    var front, v := Members(schema, batch, r, k - 1).value, ValueAt(batch.columns[k - 1], r).value;
    assert Members(schema, batch, r, k).value == front[schema[k - 1].name := v];
    OneMoreMember(schema, batch, r, k - 1, front, v);
  }

  lemma {:induction false} MembersFault(schema: Schema, batch: Batch, r: nat, k: nat) returns (f: nat)
    requires Encodable(schema, batch) && r < batch.rows && k <= |schema|
    requires Members(schema, batch, r, k).Err?
    ensures f < k && ValueAt(batch.columns[f], r).Err?
    ensures Members(schema, batch, r, k) == Err(ValueAt(batch.columns[f], r).error)
    ensures forall g :: 0 <= g < f ==> ValueAt(batch.columns[g], r).Ok?
  {
    if Members(schema, batch, r, k - 1).Err? {
      f := MembersFault(schema, batch, r, k - 1);
    } else {
      f := k - 1;
      MembersOk(schema, batch, r, k - 1);
    }
  }

  ghost predicate RowPrinted(schema: Schema, batch: Batch, r: nat, printed: Value)
    requires Encodable(schema, batch) && r < batch.rows
  {
    printed.Obj? && MembersPrinted(schema, batch, r, |schema|, printed.members)
  }

  lemma {:induction false} RowsOk(schema: Schema, batch: Batch, n: nat)
    requires Encodable(schema, batch) && n <= batch.rows && RowsUpTo(schema, batch, n).Ok?
    ensures forall r :: 0 <= r < n ==> RowPrinted(schema, batch, r, RowsUpTo(schema, batch, n).value[r])
  {
    if n > 0 {
      RowsOk(schema, batch, n - 1);
      MembersOk(schema, batch, n - 1, |schema|);
    }
  }

  /** No cell of the batch before field `f` of row `r` lacks a rendering. */
  ghost predicate FineUntil(schema: Schema, batch: Batch, r: nat, f: nat)
    requires Encodable(schema, batch) && r <= batch.rows && f <= |schema|
  {
    && (forall r', f' :: 0 <= r' < r && 0 <= f' < |schema| ==> ValueAt(batch.columns[f'], r').Ok?)
    && (r < batch.rows ==> forall f' :: 0 <= f' < f ==> ValueAt(batch.columns[f'], r).Ok?)
  }

  lemma {:induction false} RowsFault(schema: Schema, batch: Batch, n: nat) returns (r: nat, f: nat)
    requires Encodable(schema, batch) && n <= batch.rows && RowsUpTo(schema, batch, n).Err?
    ensures r < n && f < |schema| && ValueAt(batch.columns[f], r).Err? && FineUntil(schema, batch, r, f)
    ensures RowsUpTo(schema, batch, n) == Err(ValueAt(batch.columns[f], r).error)
  {
    if RowsUpTo(schema, batch, n - 1).Err? {
      r, f := RowsFault(schema, batch, n - 1);
    } else {
      r := n - 1;
      f := MembersFault(schema, batch, r, |schema|);
      RowsOk(schema, batch, r);
      forall r', f' | 0 <= r' < r && 0 <= f' < |schema|
        ensures ValueAt(batch.columns[f'], r').Ok?
      {
        assert RowPrinted(schema, batch, r', RowsUpTo(schema, batch, r).value[r']);
      }
    }
  }

  /** Row `r` of batch `b` stands after the rows of the batches before it, and says what the batch says. */
  ghost predicate PrintedAt(schema: Schema, batches: seq<Batch>, rows: seq<Value>, b: nat, r: nat)
    requires AllEncodable(schema, batches) && b < |batches| && r < batches[b].rows
  {
    && CountRows(batches[..b]) + r < |rows|
    && RowPrinted(schema, batches[b], r, rows[CountRows(batches[..b]) + r])
  }

  lemma FrontStaysPrinted(
      schema: Schema, batches: seq<Batch>, front: seq<Value>, more: seq<Value>, b: nat, r: nat)
    requires AllEncodable(schema, batches) && b < |batches| && r < batches[b].rows
    requires PrintedAt(schema, batches, front, b, r)
    ensures PrintedAt(schema, batches, front + more, b, r)
  {
    var k := CountRows(batches[..b]) + r;
    assert (front + more)[k] == front[k];
  }

  lemma BatchPrinted(schema: Schema, batches: seq<Batch>, front: seq<Value>, b: nat, r: nat)
    requires AllEncodable(schema, batches) && b < |batches| && r < batches[b].rows
    requires |front| == CountRows(batches[..b])
    requires RowsUpTo(schema, batches[b], batches[b].rows).Ok?
    ensures PrintedAt(schema, batches, front + RowsUpTo(schema, batches[b], batches[b].rows).value, b, r)
  {
    RowsOk(schema, batches[b], batches[b].rows);
    var more := RowsUpTo(schema, batches[b], batches[b].rows).value;
    assert (front + more)[|front| + r] == more[r];
  }

  lemma {:induction false} BatchesOk(schema: Schema, batches: seq<Batch>, n: nat)
    requires AllEncodable(schema, batches) && n <= |batches| && BatchesUpTo(schema, batches, n).Ok?
    ensures forall b, r :: 0 <= b < n && 0 <= r < batches[b].rows ==>
              PrintedAt(schema, batches, BatchesUpTo(schema, batches, n).value, b, r)
  {
    if n == 0 {
      return;
    }
    var front := BatchesUpTo(schema, batches, n - 1).value;
    var more := RowsUpTo(schema, batches[n - 1], batches[n - 1].rows).value;
    BatchesOk(schema, batches, n - 1);
    RowsCounted(schema, batches, n - 1);
    assert BatchesUpTo(schema, batches, n) == Ok(front + more);
    forall b, r | 0 <= b < n && 0 <= r < batches[b].rows
      ensures PrintedAt(schema, batches, front + more, b, r)
    {
      if b < n - 1 {
        FrontStaysPrinted(schema, batches, front, more, b, r);
      } else {
        BatchPrinted(schema, batches, front, b, r);
      }
    }
  }

  /** The first cell without a rendering, in the order of batches, rows and fields. */
  ghost predicate FirstUnprintable(schema: Schema, batches: seq<Batch>, b: nat, r: nat, f: nat)
    requires AllEncodable(schema, batches)
  {
    && b < |batches| && r < batches[b].rows && f < |schema|
    && ValueAt(batches[b].columns[f], r).Err? && FineUntil(schema, batches[b], r, f)
    && forall b' :: 0 <= b' < b ==> FineUntil(schema, batches[b'], batches[b'].rows, 0)
  }

  lemma {:induction false} BatchesFault(schema: Schema, batches: seq<Batch>, n: nat)
    returns (b: nat, r: nat, f: nat)
    requires AllEncodable(schema, batches) && n <= |batches| && BatchesUpTo(schema, batches, n).Err?
    ensures b < n && FirstUnprintable(schema, batches, b, r, f)
    ensures BatchesUpTo(schema, batches, n) == Err(ValueAt(batches[b].columns[f], r).error)
  {
    if BatchesUpTo(schema, batches, n - 1).Err? {
      b, r, f := BatchesFault(schema, batches, n - 1);
    } else {
      b := n - 1;
      r, f := RowsFault(schema, batches[b], batches[b].rows);
      BatchesOk(schema, batches, b);
      forall b' | 0 <= b' < b
        ensures FineUntil(schema, batches[b'], batches[b'].rows, 0)
      {
        forall r', f' | 0 <= r' < batches[b'].rows && 0 <= f' < |schema|
          ensures ValueAt(batches[b'].columns[f'], r').Ok?
        {
          assert PrintedAt(schema, batches, BatchesUpTo(schema, batches, b).value, b', r');
        }
      }
    }
  }

  /** All rows of all batches print in order, each name with its last field; or the first bad cell is the error. */
  lemma RowsPrintInOrder(schema: Schema, batches: seq<Batch>)
    requires AllEncodable(schema, batches)
    ensures match EncodeRows(schema, batches)
            case Ok(rows) =>
              && |rows| == CountRows(batches)
              && forall b, r :: 0 <= b < |batches| && 0 <= r < batches[b].rows ==>
                   PrintedAt(schema, batches, rows, b, r)
            case Err(e) =>
              exists b: nat, r: nat, f: nat ::
                FirstUnprintable(schema, batches, b, r, f) && ValueAt(batches[b].columns[f], r) == Err(e)
  {
    if EncodeRows(schema, batches).Ok? {
      BatchesOk(schema, batches, |batches|);
      CountMatchesRows(schema, batches);
    } else {
      var b, r, f := BatchesFault(schema, batches, |batches|);
    }
  }
}

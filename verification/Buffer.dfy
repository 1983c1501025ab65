/** `Buffer`: rows turned into columns and back. */
module Buffers {
  import opened Prelude
  import opened PyDicts

  const META := "$meta"

  datatype DType = Float16Vector | BFloat16Vector | Json | StructArray | OtherType(code: int)

  predicate IsHalf(t: DType) { t.Float16Vector? || t.BFloat16Vector? }

  /** A cell: None, a dict, a byte string, a numpy value with its memory, half-precision bytes read as a
      list of floats, or any other native value. */
  datatype Value =
    | Null | Dict(d: PyDict<string, Value>) | Bytes(b: seq<nat>) | Numpy(n: int, memory: seq<nat>)
    | Halves(t: DType, b: seq<nat>) | Plain(n: int)

  /** `_raw_obj`: `tolist` or `item` of a numpy value. */
  function RawObj(v: Value): Value { if v.Numpy? then Plain(v.n) else v }

  type Row = PyDict<string, Value>

  datatype Field = Field(
    name: string, isPrimary: bool, autoId: bool, isFunctionOutput: bool, nullable: bool,
    default: Option<Value>, dtype: DType) {

    /** Filled in by the server. */
    predicate Skipped() { (isPrimary && autoId) || isFunctionOutput }
  }

  datatype Schema = Schema(fields: seq<Field>, structFields: seq<string>, dynamic: bool)

  // ---- The columns of a schema.

  type Fields = PyDict<string, DType>

  function NormalColumns(fields: seq<Field>): (c: Fields)
    ensures c.Valid()
  {
    if fields == [] then Empty()
    else
      var front, f := NormalColumns(fields[..|fields| - 1]), fields[|fields| - 1];
      if f.Skipped() then front else front.Set(f.name, f.dtype)
  }

  /** Every column comes from a field that the server does not fill in. */
  lemma {:induction false} NormalColumn(fields: seq<Field>, k: string)
    ensures k in NormalColumns(fields).data <==> exists f :: f in fields && !f.Skipped() && f.name == k
  {
    if fields != [] {
      NormalColumn(fields[..|fields| - 1], k);
      assert fields == fields[..|fields| - 1] + [fields[|fields| - 1]];
    }
  }

  function WithStructs(c: Fields, names: seq<string>): (d: Fields)
    ensures c.Valid() ==> d.Valid()
    ensures forall k :: k in d.data <==> k in c.data || k in names
  {
    if names == [] then c
    else
      assert names == names[..|names| - 1] + [names[|names| - 1]];
      WithStructs(c, names[..|names| - 1]).Set(names[|names| - 1], StructArray)
  }

  function DataColumns(schema: Schema): Fields
  {
    WithStructs(NormalColumns(schema.fields), schema.structFields)
  }

  function AllColumns(schema: Schema): (c: Fields)
    ensures c.Valid()
  {
    if schema.dynamic then DataColumns(schema).Set(META, Json) else DataColumns(schema)
  }

  // ---- What a row puts into the columns.

  /** `d.update(e)`, the first `n` keys. */
  function Update(d: Row, e: Row, n: nat): (r: Row)
    requires e.Valid() && n <= |e.order|
    ensures d.Valid() ==> r.Valid()
  {
    if n == 0 then d else Update(d, e, n - 1).Set(e.order[n - 1], e.data[e.order[n - 1]])
  }

  /** A Python dict, and so is its `$meta` if that is a dict. */
  ghost predicate IsRow(row: Row)
  {
    row.Valid() && (META in row.data && row.data[META].Dict? ==> row.data[META].d.Valid())
  }

  predicate Appendable(row: Row)
  {
    META in row.data ==> row.data[META].Dict?
  }

  /** The dynamic values collected from the first `n` keys of a row. */
  function Gathered(columns: Fields, row: Row, n: nat): (r: Row)
    requires IsRow(row) && Appendable(row) && n <= |row.order|
    ensures r.Valid()
  {
    if n == 0 then Empty()
    else
      GatherCell(columns, row, Gathered(columns, row, n - 1), row.order[n - 1])
  }

  function GatherCell(columns: Fields, row: Row, before: Row, k: string): (r: Row)
    requires IsRow(row) && Appendable(row) && k in row.data
    ensures before.Valid() ==> r.Valid()
  {
    if k == META then Update(before, row.data[k].d, |row.data[k].d.order|)
    else if k in columns.data then before
    else before.Set(k, RawObj(row.data[k]))
  }

  ghost predicate Accepted(row: Row) { IsRow(row) && Appendable(row) }

  predicate Has(row: Row, k: string) { k == META || k in row.data }

  /** The cell of a row in a column. */
  function CellOf(columns: Fields, row: Row, k: string): Value
    requires Accepted(row) && Has(row, k)
  {
    if k == META then Dict(Gathered(columns, row, |row.order|)) else row.data[k]
  }

  /** What one row appends to column `k`. */
  function CellsFor(columns: Fields, row: Row, k: string): seq<Value>
    requires Accepted(row)
  {
    if Has(row, k) then [CellOf(columns, row, k)] else []
  }

  function ColumnOf(columns: Fields, rows: seq<Row>, k: string): seq<Value>
    requires forall r | r in rows :: Accepted(r)
  {
    if rows == [] then [] else ColumnOf(columns, rows[..|rows| - 1], k) + CellsFor(columns, rows[|rows| - 1], k)
  }

  lemma ColumnOfNext(columns: Fields, rows: seq<Row>, row: Row, k: string)
    requires (forall r | r in rows :: Accepted(r)) && Accepted(row)
    ensures ColumnOf(columns, rows + [row], k) == ColumnOf(columns, rows, k) + CellsFor(columns, row, k)
  {
    assert (rows + [row])[..|rows|] == rows;
  }

  datatype PersistError = LengthMismatch | NotBytes

  type Columns = PyDict<string, seq<Value>>

  ghost predicate HoldRows(fields: Fields, columns: Columns, rows: seq<Row>)
  {
    && columns.order == fields.order && columns.data.Keys == fields.data.Keys
    && (forall r | r in rows :: Accepted(r))
    && forall k | k in columns.data :: columns.data[k] == ColumnOf(fields, rows, k)
  }

  /** What the first `i` keys of the row have appended to column `k`. */
  function Partial(row: Row, i: nat, k: string): seq<Value>
    requires i <= |row.order|
  {
    if k != META && k in row.data && k in row.order[..i] then [row.data[k]] else []
  }

  /** The columns after the first `i` keys of the loop of `append_row`. */
  function ColumnsAfter(before: Columns, row: Row, i: nat): Columns
    requires i <= |row.order|
  {
    PyDict(before.order, map k | k in before.data :: before.data[k] + Partial(row, i, k))
  }

  /** What the loop body does with one key. */
  function PutCell(columns: Columns, row: Row, k: string): Columns
    requires k in row.data
  {
    if k != META && k in columns.data then columns.Set(k, columns.data[k] + [row.data[k]]) else columns
  }

  lemma PartialNext(row: Row, i: nat, k: string)
    requires row.Valid() && i < |row.order|
    ensures Partial(row, i + 1, k) == Partial(row, i, k) + if k == row.order[i] && k != META then [row.data[k]] else []
  {
    assert row.order[..i + 1] == row.order[..i] + [row.order[i]];
    assert row.order[i] !in row.order[..i];
  }

  /** `m` has at every key of `before` what the first `i` keys of the row leave there. */
  ghost predicate IsAfter(before: Columns, row: Row, i: nat, m: map<string, seq<Value>>)
    requires i <= |row.order|
  {
    m.Keys == before.data.Keys && forall k | k in before.data :: m[k] == before.data[k] + Partial(row, i, k)
  }

  lemma AfterIs(before: Columns, row: Row, i: nat, m: map<string, seq<Value>>)
    requires i <= |row.order| && IsAfter(before, row, i, m)
    ensures PyDict(before.order, m) == ColumnsAfter(before, row, i)
  {
    assert m == ColumnsAfter(before, row, i).data;
  }

  lemma CellAfter(before: seq<Value>, row: Row, i: nat, k: string)
    requires row.Valid() && i < |row.order|
    ensures before + Partial(row, i + 1, k) ==
            before + Partial(row, i, k) + if k == row.order[i] && k != META then [row.data[k]] else []
  {
    PartialNext(row, i, k);
  }

  lemma PutNext(before: Columns, row: Row, i: nat)
    requires row.Valid() && i < |row.order|
    ensures PutCell(ColumnsAfter(before, row, i), row, row.order[i]) == ColumnsAfter(before, row, i + 1)
  {
    var x, columns := row.order[i], ColumnsAfter(before, row, i);
    var m := if x != META && x in before.data then columns.data[x := columns.data[x] + [row.data[x]]] else columns.data;
    forall k | k in before.data ensures m[k] == before.data[k] + Partial(row, i + 1, k) {
      CellAfter(before.data[k], row, i, k);
    }
    AfterIs(before, row, i + 1, m);
  }

  lemma PutNothing(before: Columns, row: Row)
    ensures ColumnsAfter(before, row, 0) == before
  {
    AfterIs(before, row, 0, before.data);
  }

  lemma DoneAt(fields: Fields, rows: seq<Row>, row: Row, k: string, cells: seq<Value>)
    requires (forall r | r in rows :: Accepted(r)) && Accepted(row)
    requires cells == ColumnOf(fields, rows, k) + Partial(row, |row.order|, k)
    ensures cells + (if k == META then [Dict(Gathered(fields, row, |row.order|))] else []) == ColumnOf(fields, rows + [row], k)
  {
    ColumnOfNext(fields, rows, row, k);
    assert row.order[..|row.order|] == row.order;
  }

  /** What the code appends to the `$meta` column, if there is one, after its loop. */
  function WithMeta(columns: Columns, dynamicValues: Row): Columns
  {
    if META in columns.data then columns.Set(META, columns.data[META] + [Dict(dynamicValues)]) else columns
  }

  lemma PutAll(fields: Fields, before: Columns, rows: seq<Row>, row: Row)
    requires HoldRows(fields, before, rows) && Accepted(row)
    ensures HoldRows(fields, WithMeta(ColumnsAfter(before, row, |row.order|), Gathered(fields, row, |row.order|)), rows + [row])
  {
    var columns := ColumnsAfter(before, row, |row.order|);
    var dynamicValues := Gathered(fields, row, |row.order|);
    var next := WithMeta(columns, dynamicValues);
    forall k | k in next.data ensures next.data[k] == ColumnOf(fields, rows + [row], k) {
      DoneAt(fields, rows, row, k, columns.data[k]);
      MetaAt(columns, dynamicValues, k);
    }
  }

  lemma MetaAt(columns: Columns, dynamicValues: Row, k: string)
    requires k in columns.data
    ensures WithMeta(columns, dynamicValues).order == columns.order
    ensures WithMeta(columns, dynamicValues).data.Keys == columns.data.Keys
    ensures WithMeta(columns, dynamicValues).data[k] == columns.data[k] + if k == META then [Dict(dynamicValues)] else []
  {
  }

  class Buffer {
    var columns: Columns
    const fields: Fields
    ghost var rows: seq<Row>

    ghost predicate Valid()
      reads this
    {
      fields.Valid() && fields.order != [] && HoldRows(fields, columns, rows)
    }

    constructor (fields: Fields)
      requires fields.Valid() && fields.order != []
      ensures Valid() && this.fields == fields && rows == []
    {
      this.fields := fields;
      columns := PyDict(fields.order, map k | k in fields.data :: []);
      rows := [];
    }

    /** The body of the loop of `append_row`. */
    method AppendOne(row: Row, k: string, dynamicValues: Row) returns (dynamicValues': Row)
      requires Accepted(row) && k in row.data && columns.data.Keys == fields.data.Keys
      modifies this`columns
      ensures columns == PutCell(old(columns), row, k) && columns.data.Keys == fields.data.Keys
      ensures dynamicValues' == GatherCell(fields, row, dynamicValues, k)
    {
      var v := row.data[k];
      dynamicValues' := dynamicValues;
      if k == META {
        dynamicValues' := Update(dynamicValues, v.d, |v.d.order|);
      } else if k !in columns.data {
        dynamicValues' := dynamicValues.Set(k, RawObj(v));
      } else {
        columns := columns.Set(k, columns.data[k] + [v]);
      }
    }

    /** The loop of `append_row`. */
    method AppendCells(row: Row) returns (dynamicValues: Row)
      requires Accepted(row) && columns.data.Keys == fields.data.Keys
      modifies this`columns
      ensures columns == ColumnsAfter(old(columns), row, |row.order|)
      ensures dynamicValues == Gathered(fields, row, |row.order|)
    {
      dynamicValues := Empty();
      PutNothing(columns, row);
      for i := 0 to |row.order|
        invariant columns == ColumnsAfter(old(columns), row, i) && columns.data.Keys == fields.data.Keys
        invariant dynamicValues == Gathered(fields, row, i)
      {
        PutNext(old(columns), row, i);
        dynamicValues := AppendOne(row, row.order[i], dynamicValues);
      }
    }

    /** A rejected row changes nothing; an accepted one adds its cells to every column. */
    method AppendRow(row: Row) returns (ok: bool)
      requires Valid() && IsRow(row)
      modifies this
      ensures Valid() && ok == Appendable(row)
      ensures rows == old(rows) + if ok then [row] else []
      ensures !ok ==> columns == old(columns)
    {
      if META in row.data && !row.data[META].Dict? {
        return false;
      }
      var dynamicValues := AppendCells(row);
      PutAll(fields, old(columns), rows, row);
      ghost var next := WithMeta(columns, dynamicValues);
      if META in columns.data {
        columns := columns.Set(META, columns.data[META] + [Dict(dynamicValues)]);
      }
      assert columns == next && HoldRows(fields, next, old(rows) + [row]);
      rows := rows + [row];
      ok := true;
    }

    /** `row_count`: the length of the first column. */
    method RowCount() returns (n: nat)
      requires Valid()
      ensures n == |columns.data[fields.order[0]]|
    {
      n := |columns.data[columns.order[0]]|;
    }

    /** The length check of `persist`. */
    method LengthsAgree() returns (ok: bool)
      requires Valid()
      ensures ok <==> Rectangular(columns)
    {
      var rowCount: int := -1;
      for i := 0 to |columns.order|
        invariant rowCount < 0 <==> i == 0
        invariant forall j | 0 <= j < i :: |columns.data[columns.order[j]]| == rowCount
      {
        var n := |columns.data[columns.order[i]]|;
        if rowCount < 0 {
          rowCount := n;
        } else if rowCount != n {
          assert columns.order[0] in columns.data && columns.order[i] in columns.data;
          return false;
        }
      }
      forall k | k in columns.data ensures |columns.data[k]| == rowCount {
        var j :| 0 <= j < |columns.order| && columns.order[j] == k;
      }
      ok := true;
    }

    /** One turn of the loop of `_persist_json_rows`; `None` for the exception of a half-precision cell that
        is not a byte string. */
    method JsonRowAt(i: nat) returns (r: Option<Row>)
      requires columns.Valid() && columns.data.Keys == fields.data.Keys && HasRow(columns, i)
      ensures r.Some? <==> RowRenders(fields, columns, i)
      ensures r.Some? ==> IsJsonRow(fields, columns, i, r.value)
    {
      var row: Row := Empty();
      for j := 0 to |columns.order|
        invariant JsonPrefix(fields, columns, i, row, j)
      {
        var k := columns.order[j];
        var cell := Rendered(fields.data[k], columns.data[k][i]);
        RenderedReads(fields.data[k], columns.data[k][i]);
        if cell.None? {
          assert k in columns.data;
          return None;
        }
        JsonNext(fields, columns, i, row, j, cell.value);
        row := row.Set(k, cell.value);
      }
      JsonDone(fields, columns, i, row);
      r := Some(row);
    }

    /** `_persist_json_rows`: the rows handed to the JSON encoder. */
    method PersistJsonRows() returns (r: Result<seq<Row>, PersistError>)
      requires columns.Valid() && columns.order != [] && columns.data.Keys == fields.data.Keys && Rectangular(columns)
      ensures r == Err(NotBytes) || r.Ok?
      ensures r.Ok? <==> AllRender(fields, columns)
      ensures r.Ok? ==> AreJsonRows(fields, columns, r.value)
    {
      var rows: seq<Row> := [];
      var rowCount := |columns.data[columns.order[0]]|;
      var rowIndex := 0;
      while rowIndex < rowCount
        invariant 0 <= rowIndex <= rowCount && |rows| == rowIndex
        invariant forall i | 0 <= i < rowIndex :: IsJsonRow(fields, columns, i, rows[i])
      {
        RowInRange(columns, rowIndex);
        var one := JsonRowAt(rowIndex);
        if one.None? {
          UnreadableRow(fields, columns, rowIndex);
          return Err(NotBytes);
        }
        rows := rows + [one.value];
        rowIndex := rowIndex + 1;
      }
      JsonAll(fields, columns, rows);
      r := Ok(rows);
    }

    /** `persist` to a JSON file. */
    method PersistJson() returns (r: Result<seq<Row>, PersistError>)
      requires Valid()
      ensures r == Err(LengthMismatch) <==> !Rectangular(columns)
      ensures Rectangular(columns) ==> (r.Ok? <==> AllRender(fields, columns))
      ensures r.Ok? ==> AreJsonRows(fields, columns, r.value)
    {
      var ok := LengthsAgree();
      if !ok {
        return Err(LengthMismatch);
      }
      r := PersistJsonRows();
    }
  }

  ghost predicate Rectangular(columns: Columns)
  {
    forall j, k | j in columns.data && k in columns.data :: |columns.data[j]| == |columns.data[k]|
  }

  /** What supports the buffer protocol: None, lists and numbers do not. */
  function Memory(v: Value): Option<seq<nat>>
  {
    match v
    case Bytes(b) => Some(b)
    case Numpy(_, memory) => Some(memory)
    case _ => None
  }

  /** Readable as 16-bit words. */
  predicate IsHalfBytes(v: Value) { Memory(v).Some? && |Memory(v).value| % 2 == 0 }

  /** The JSON cell; `None` for the exception of `np.frombuffer` on a half-precision column. */
  function Rendered(t: DType, v: Value): Option<Value>
  {
    if !IsHalf(t) then Some(v) else if IsHalfBytes(v) then Some(Halves(t, Memory(v).value)) else None
  }

  /** A half-precision cell is read from bytes of 16-bit words; any other cell is taken as it is. */
  predicate Readable(t: DType, v: Value)
  {
    t.Float16Vector? || t.BFloat16Vector? ==> (v.Bytes? && |v.b| % 2 == 0) || (v.Numpy? && |v.memory| % 2 == 0)
  }

  /** `cell` is what the JSON row says for a stored value: the words of its own bytes in a half-precision column,
      and the value itself in any other. */
  predicate Reads(t: DType, v: Value, cell: Value)
  {
    && Readable(t, v)
    && if t.Float16Vector? || t.BFloat16Vector? then cell == Halves(t, if v.Bytes? then v.b else if v.Numpy? then v.memory else [])
       else cell == v
  }

  lemma RenderedReads(t: DType, v: Value)
    ensures Rendered(t, v).Some? <==> Readable(t, v)
    ensures Rendered(t, v).Some? ==> Reads(t, v, Rendered(t, v).value)
  {
  }

  ghost predicate AllRender(fields: Fields, columns: Columns)
    requires columns.data.Keys == fields.data.Keys
  {
    forall k, i | k in columns.data && 0 <= i < |columns.data[k]| ::
      Readable(fields.data[k], columns.data[k][i])
  }

  ghost predicate HasRow(columns: Columns, i: nat)
  {
    forall k | k in columns.data :: i < |columns.data[k]|
  }

  /** Row `i` has no half-precision cell that cannot be read. */
  ghost predicate RowRenders(fields: Fields, columns: Columns, i: nat)
    requires columns.data.Keys == fields.data.Keys && HasRow(columns, i)
  {
    forall k | k in columns.data :: Readable(fields.data[k], columns.data[k][i])
  }

  ghost predicate IsJsonRow(fields: Fields, columns: Columns, i: nat, row: Row)
    requires columns.data.Keys == fields.data.Keys
  {
    && row.order == columns.order && row.data.Keys == columns.data.Keys
    && forall k | k in columns.data :: ReadsAt(fields, columns, i, k, row.data[k])
  }

  /** One JSON row for each row of the columns, in order. */
  ghost predicate AreJsonRows(fields: Fields, columns: Columns, rows: seq<Row>)
    requires columns.data.Keys == fields.data.Keys
  {
    && (forall k | k in columns.data :: |columns.data[k]| == |rows|)
    && forall i | 0 <= i < |rows| :: IsJsonRow(fields, columns, i, rows[i])
  }

  /** The cells of the first `j` columns. */
  ghost predicate JsonPrefix(fields: Fields, columns: Columns, i: nat, row: Row, j: nat)
    requires columns.data.Keys == fields.data.Keys && j <= |columns.order|
  {
    && row.order == columns.order[..j] && (forall k :: k in row.data <==> k in columns.order[..j])
    && forall k | k in row.data :: ReadsAt(fields, columns, i, k, row.data[k])
  }

  ghost predicate ReadsAt(fields: Fields, columns: Columns, i: nat, k: string, cell: Value)
    requires columns.data.Keys == fields.data.Keys
  {
    k in columns.data && i < |columns.data[k]| && Reads(fields.data[k], columns.data[k][i], cell)
  }

  lemma JsonNext(fields: Fields, columns: Columns, i: nat, row: Row, j: nat, cell: Value)
    requires columns.Valid() && columns.data.Keys == fields.data.Keys && j < |columns.order|
    requires JsonPrefix(fields, columns, i, row, j) && ReadsAt(fields, columns, i, columns.order[j], cell)
    ensures JsonPrefix(fields, columns, i, row.Set(columns.order[j], cell), j + 1)
  {
    var key := columns.order[j];
    assert columns.order[..j + 1] == columns.order[..j] + [key];
    assert key !in columns.order[..j];
    forall k | k in row.Set(key, cell).data ensures ReadsAt(fields, columns, i, k, row.Set(key, cell).data[k]) {
      assert k == key || ReadsAt(fields, columns, i, k, row.data[k]);
    }
  }

  lemma JsonDone(fields: Fields, columns: Columns, i: nat, row: Row)
    requires columns.Valid() && columns.data.Keys == fields.data.Keys
    requires JsonPrefix(fields, columns, i, row, |columns.order|)
    ensures IsJsonRow(fields, columns, i, row)
    ensures HasRow(columns, i) && RowRenders(fields, columns, i)
  {
    assert columns.order[..|columns.order|] == columns.order;
    assert forall k :: k in row.data <==> k in columns.data;
    forall k | k in columns.data ensures i < |columns.data[k]| && Readable(fields.data[k], columns.data[k][i]) {
      assert ReadsAt(fields, columns, i, k, row.data[k]);
    }
  }

  lemma JsonAll(fields: Fields, columns: Columns, rows: seq<Row>)
    requires columns.data.Keys == fields.data.Keys
    requires forall k | k in columns.data :: |columns.data[k]| == |rows|
    requires forall i | 0 <= i < |rows| :: IsJsonRow(fields, columns, i, rows[i])
    ensures AllRender(fields, columns)
  {
    forall k, i | k in columns.data && 0 <= i < |columns.data[k]|
      ensures Readable(fields.data[k], columns.data[k][i])
    {
      assert IsJsonRow(fields, columns, i, rows[i]) && ReadsAt(fields, columns, i, k, rows[i].data[k]);
    }
  }

  lemma RowInRange(columns: Columns, i: nat)
    requires columns.Valid() && columns.order != [] && Rectangular(columns) && i < |columns.data[columns.order[0]]|
    ensures HasRow(columns, i)
  {
    assert columns.order[0] in columns.data;
  }

  lemma UnreadableRow(fields: Fields, columns: Columns, i: nat)
    requires columns.data.Keys == fields.data.Keys && HasRow(columns, i) && !RowRenders(fields, columns, i)
    ensures !AllRender(fields, columns)
  {
    var k :| k in columns.data && !Readable(fields.data[k], columns.data[k][i]);
    assert i < |columns.data[k]|;
  }

  // ---- Rectangles.

  function CountHaving(rows: seq<Row>, k: string): nat
  {
    if rows == [] then 0 else CountHaving(rows[..|rows| - 1], k) + if Has(rows[|rows| - 1], k) then 1 else 0
  }

  /** A column is as long as there are rows with its key. */
  lemma {:induction false} ColumnLength(fields: Fields, rows: seq<Row>, k: string)
    requires forall r | r in rows :: Accepted(r)
    ensures |ColumnOf(fields, rows, k)| == CountHaving(rows, k) <= |rows|
  {
    if rows != [] {
      ColumnLength(fields, rows[..|rows| - 1], k);
    }
  }

  /** The length check passes exactly when every column's key occurs in the same number of rows. */
  lemma RectangularIff(fields: Fields, columns: Columns, rows: seq<Row>)
    requires HoldRows(fields, columns, rows)
    ensures Rectangular(columns) <==>
            forall j, k | j in fields.data && k in fields.data :: CountHaving(rows, j) == CountHaving(rows, k)
  {
    forall k | k in columns.data ensures |columns.data[k]| == CountHaving(rows, k) {
      ColumnLength(fields, rows, k);
    }
    assert forall k :: k in columns.data <==> k in fields.data;
  }

  lemma {:induction false} ColumnAt(fields: Fields, rows: seq<Row>, k: string, i: nat)
    requires forall r | r in rows :: Accepted(r) && Has(r, k)
    requires i < |rows|
    ensures |ColumnOf(fields, rows, k)| == |rows| && ColumnOf(fields, rows, k)[i] == CellOf(fields, rows[i], k)
  {
    var front := rows[..|rows| - 1];
    assert rows == front + [rows[|rows| - 1]];
    assert Accepted(rows[|rows| - 1]) && Has(rows[|rows| - 1], k);
    if i < |front| {
      ColumnAt(fields, front, k, i);
    } else {
      AllHave(fields, front, k);
    }
  }

  lemma {:induction false} AllHave(fields: Fields, rows: seq<Row>, k: string)
    requires forall r | r in rows :: Accepted(r) && Has(r, k)
    ensures |ColumnOf(fields, rows, k)| == |rows|
  {
    if rows != [] {
      assert Accepted(rows[|rows| - 1]) && Has(rows[|rows| - 1], k);
      AllHave(fields, rows[..|rows| - 1], k);
    }
  }

  // ---- Dynamic values.

  lemma {:induction false} UpdateFacts(d: Row, e: Row, n: nat, x: string)
    requires e.Valid() && n <= |e.order|
    ensures x in Update(d, e, n).data <==> x in d.data || x in e.order[..n]
    ensures x in Update(d, e, n).data ==> Update(d, e, n).data[x] == if x in e.order[..n] then e.data[x] else d.data[x]
  {
    if n > 0 {
      UpdateFacts(d, e, n - 1, x);
      assert e.order[..n] == e.order[..n - 1] + [e.order[n - 1]];
    }
  }

  /** `x` is a key of the `$meta` dict of the row. */
  predicate InMeta(row: Row, x: string)
  {
    META in row.data && row.data[META].Dict? && x in row.data[META].d.data
  }

  /** `x` is a key of the row that names no column. */
  predicate IsExtra(columns: Fields, row: Row, x: string)
  {
    x in row.data && x != META && x !in columns.data
  }

  /** Gathered after seeing `x` or `$meta` in the row or not: the extra keys and those of `$meta`, and of the
      two places the later one in the row decides. */
  ghost predicate GatheredRight(columns: Fields, row: Row, seenKey: bool, seenMeta: bool, keyFirst: bool, x: string, g: Row)
  {
    var extra := seenKey && IsExtra(columns, row, x);
    var meta := seenMeta && InMeta(row, x);
    && (x in g.data <==> extra || meta)
    && (extra && !meta ==> g.data[x] == RawObj(row.data[x]))
    && (meta && !extra ==> g.data[x] == row.data[META].d.data[x])
    && (meta && extra ==> g.data[x] == if keyFirst then row.data[META].d.data[x] else RawObj(row.data[x]))
  }

  ghost predicate ComesFirst(row: Row, a: string, b: string)
  {
    exists i, j | 0 <= i < j < |row.order| :: row.order[i] == a && row.order[j] == b
  }

  predicate Seen(row: Row, n: nat, k: string)
    requires n <= |row.order|
  {
    k in row.order[..n]
  }

  /** The last of the first `n` keys was not seen before it, and decides which of two keys comes first. */
  lemma LastSeen(row: Row, n: nat, x: string)
    requires row.Valid() && 0 < n <= |row.order|
    ensures var k := row.order[n - 1];
            && !Seen(row, n - 1, k)
            && (Seen(row, n, x) <==> Seen(row, n - 1, x) || x == k)
            && (Seen(row, n, META) <==> Seen(row, n - 1, META) || k == META)
            && (k == META && Seen(row, n - 1, x) ==> ComesFirst(row, x, META))
            && (k == x && Seen(row, n - 1, META) ==> !ComesFirst(row, x, META))
  {
    assert row.order[..n] == row.order[..n - 1] + [row.order[n - 1]];
  }

  lemma KeyStep(columns: Fields, row: Row, seenKey: bool, seenMeta: bool, keyFirst: bool, x: string, g: Row, k: string)
    requires GatheredRight(columns, row, seenKey, seenMeta, keyFirst, x, g) && k in row.data && k != META
    requires k == x ==> !seenKey && (seenMeta ==> !keyFirst)
    ensures GatheredRight(columns, row, seenKey || k == x, seenMeta, keyFirst, x,
                          if k in columns.data then g else g.Set(k, RawObj(row.data[k])))
  {
  }

  lemma MetaStep(columns: Fields, row: Row, seenKey: bool, keyFirst: bool, x: string, g: Row)
    requires GatheredRight(columns, row, seenKey, false, keyFirst, x, g) && Accepted(row) && META in row.data
    requires seenKey ==> keyFirst
    ensures GatheredRight(columns, row, seenKey, true, keyFirst, x, Update(g, row.data[META].d, |row.data[META].d.order|))
  {
    var meta := row.data[META].d;
    UpdateFacts(g, meta, |meta.order|, x);
    assert meta.order[..|meta.order|] == meta.order;
  }

  /** `GatheredRight` after the first `n` keys. */
  ghost predicate RightAfter(columns: Fields, row: Row, n: nat, x: string, g: Row)
    requires n <= |row.order|
  {
    GatheredRight(columns, row, Seen(row, n, x), Seen(row, n, META), ComesFirst(row, x, META), x, g)
  }

  lemma RightNext(columns: Fields, row: Row, n: nat, x: string, g: Row)
    requires Accepted(row) && 0 < n <= |row.order| && RightAfter(columns, row, n - 1, x, g)
    ensures var k := row.order[n - 1];
            RightAfter(columns, row, n, x, GatherCell(columns, row, g, k))
  {
    LastSeen(row, n, x);
    var first := ComesFirst(row, x, META);
    if row.order[n - 1] == META {
      MetaStep(columns, row, Seen(row, n - 1, x), first, x, g);
    } else {
      KeyStep(columns, row, Seen(row, n - 1, x), Seen(row, n - 1, META), first, x, g, row.order[n - 1]);
    }
  }

  lemma {:induction false} GatheredIs(columns: Fields, row: Row, n: nat, x: string)
    requires Accepted(row) && n <= |row.order|
    ensures RightAfter(columns, row, n, x, Gathered(columns, row, n))
  {
    if n > 0 {
      GatheredIs(columns, row, n - 1, x);
      RightNext(columns, row, n, x, Gathered(columns, row, n - 1));
    }
  }

  ghost function DynamicValue(columns: Fields, row: Row, x: string): Value
    requires IsExtra(columns, row, x) || InMeta(row, x)
  {
    if InMeta(row, x) && (IsExtra(columns, row, x) ==> ComesFirst(row, x, META)) then row.data[META].d.data[x]
    else if row.data[x].Numpy? then Plain(row.data[x].n)
    else row.data[x]
  }

  /** The `$meta` cell of a row: exactly its extra keys and the keys of its `$meta` dict; a key in both
      places keeps the value that comes later in the row. */
  lemma DynamicCell(columns: Fields, row: Row, x: string)
    requires Accepted(row)
    ensures var g := Gathered(columns, row, |row.order|);
            && CellOf(columns, row, META) == Dict(g)
            && (x in g.data <==> IsExtra(columns, row, x) || InMeta(row, x))
            && (x in g.data ==> g.data[x] == DynamicValue(columns, row, x))
  {
    GatheredIs(columns, row, |row.order|, x);
    assert row.order[..|row.order|] == row.order;
  }
}

/** The JSON file of a bulk writer, told from the rows its callers gave. */
module BulkJson {
  import opened Buffers
  import opened BulkWriters
  import opened Prelude
  import opened PyDicts

  /** `out` is the rows, restricted to the schema one by one. */
  ghost predicate WrittenAs(schema: Schema, rows: seq<Row>, out: seq<Row>)
  {
    |out| == |rows| && forall i | 0 <= i < |rows| :: IsRestriction(schema, rows[i], out[i])
  }

  /** What a buffer writes is its rows. */
  lemma BufferWritesRows(schema: Schema, rows: seq<Row>, columns: Columns, out: seq<Row>)
    requires HoldRows(AllColumns(schema), columns, rows) && (forall r | r in rows :: Complete(schema, r))
    requires columns.order != [] && columns.Valid() && AreJsonRows(AllColumns(schema), columns, out)
    ensures WrittenAs(schema, rows, out)
  {
    var k := columns.order[0];
    forall r | r in rows ensures Accepted(r) && Has(r, k) {
      assert Complete(schema, r) && k in columns.data;
    }
    AllHave(AllColumns(schema), rows, k);
    forall i | 0 <= i < |rows| ensures IsRestriction(schema, rows[i], out[i]) {
      RowWritten(schema, rows, columns, out, i);
    }
  }

  lemma RowWritten(schema: Schema, rows: seq<Row>, columns: Columns, out: seq<Row>, i: nat)
    requires HoldRows(AllColumns(schema), columns, rows) && (forall r | r in rows :: Complete(schema, r))
    requires AreJsonRows(AllColumns(schema), columns, out) && i < |rows| == |out|
    ensures IsRestriction(schema, rows[i], out[i])
  {
    assert Complete(schema, rows[i]) && IsJsonRow(AllColumns(schema), columns, i, out[i]);
    forall k | k in AllColumns(schema).data ensures CellSays(AllColumns(schema), rows[i], k, out[i].data[k]) {
      assert k in columns.data && ReadsAt(AllColumns(schema), columns, i, k, out[i].data[k]);
      CompleteColumnAt(schema, rows, k, i);
      ReadsCell(AllColumns(schema), rows[i], k, out[i].data[k]);
    }
  }

  /** JSON row `i` is verified row `i` restricted to the columns, in column order, with its extra keys
      gathered under `$meta` when dynamic fields are enabled (see `Buffers.DynamicCell`). */
  lemma JsonRowsAreRows(ch: Checks, schema: Schema, inputs: seq<Row>, columns: Columns, out: seq<Row>)
    requires GoodChecks(ch, schema) && forall r | r in inputs :: IsRow(r)
    requires HoldRows(AllColumns(schema), columns, AppendAll(ch, schema, inputs).rows)
    requires columns.order != [] && columns.Valid() && AreJsonRows(AllColumns(schema), columns, out)
    ensures WrittenAs(schema, AppendAll(ch, schema, inputs).rows, out)
  {
    AllComplete(ch, schema, inputs);
    BufferWritesRows(schema, AppendAll(ch, schema, inputs).rows, columns, out);
  }

  /** The JSON row has the columns as keys, in order. A half-precision column holds the words of the row's own
      bytes, `$meta` the extra keys and those of the row's `$meta` (see `Buffers.DynamicCell`), and any other
      column the row's own value. */
  ghost predicate IsRestriction(schema: Schema, row: Row, out: Row)
  {
    var fields := AllColumns(schema);
    && Complete(schema, row) && out.order == fields.order && out.data.Keys == fields.data.Keys
    && forall k | k in fields.data :: CellSays(fields, row, k, out.data[k])
  }

  ghost predicate CellSays(fields: Fields, row: Row, k: string, cell: Value)
    requires k in fields.data
  {
    if k == META then cell.Dict? && forall x :: SaysDynamic(fields, row, x, cell.d)
    else k in row.data && Reads(fields.data[k], row.data[k], cell)
  }

  ghost predicate SaysDynamic(fields: Fields, row: Row, x: string, d: Row)
  {
    && (x in d.data <==> IsExtra(fields, row, x) || InMeta(row, x))
    && (x in d.data ==> d.data[x] == DynamicValue(fields, row, x))
  }

  lemma ReadsCell(fields: Fields, row: Row, k: string, cell: Value)
    requires Accepted(row) && Has(row, k) && k in fields.data && Reads(fields.data[k], CellOf(fields, row, k), cell)
    ensures CellSays(fields, row, k, cell)
  {
    if k == META {
      forall x ensures SaysDynamic(fields, row, x, cell.d) {
        DynamicCell(fields, row, x);
      }
    }
  }

  lemma CompleteColumnAt(schema: Schema, rows: seq<Row>, k: string, i: nat)
    requires (forall r | r in rows :: Complete(schema, r)) && k in AllColumns(schema).data && i < |rows|
    ensures forall r | r in rows :: Accepted(r)
    ensures |ColumnOf(AllColumns(schema), rows, k)| == |rows| && Complete(schema, rows[i])
    ensures ColumnOf(AllColumns(schema), rows, k)[i] == CellOf(AllColumns(schema), rows[i], k)
  {
    forall r | r in rows ensures Accepted(r) && Has(r, k) {
      assert Complete(schema, r);
    }
    ColumnAt(AllColumns(schema), rows, k, i);
  }

  /** A half-precision cell of an accepted row cannot be read as 16-bit words. */
  ghost predicate Unwritable(schema: Schema, row: Row, k: string)
  {
    var fields := AllColumns(schema);
    && Complete(schema, row) && k in fields.data && IsHalf(fields.data[k]) && !IsHalfBytes(CellOf(fields, row, k))
  }

  ghost predicate AllWritable(schema: Schema, rows: seq<Row>)
  {
    forall r, k | r in rows :: !Unwritable(schema, r, k)
  }

  lemma WritableCell(schema: Schema, columns: Columns, rows: seq<Row>, k: string, i: nat)
    requires HoldRows(AllColumns(schema), columns, rows) && (forall r | r in rows :: Complete(schema, r))
    requires k in columns.data && i < |rows|
    ensures |columns.data[k]| == |rows|
    ensures !Readable(AllColumns(schema).data[k], columns.data[k][i]) <==> Unwritable(schema, rows[i], k)
  {
    CompleteColumnAt(schema, rows, k, i);
    UnwritableIff(schema, rows[i], k);
  }

  lemma UnwritableIff(schema: Schema, row: Row, k: string)
    requires Complete(schema, row) && k in AllColumns(schema).data
    ensures Unwritable(schema, row, k) <==> !Readable(AllColumns(schema).data[k], CellOf(AllColumns(schema), row, k))
  {
    RenderedReads(AllColumns(schema).data[k], CellOf(AllColumns(schema), row, k));
  }

  lemma RendersWritable(schema: Schema, columns: Columns, rows: seq<Row>, r: Row, k: string)
    requires HoldRows(AllColumns(schema), columns, rows) && (forall r | r in rows :: Complete(schema, r))
    requires AllRender(AllColumns(schema), columns) && r in rows
    ensures !Unwritable(schema, r, k)
  {
    var i :| 0 <= i < |rows| && rows[i] == r;
    if k in columns.data {
      WritableCell(schema, columns, rows, k, i);
    }
  }

  lemma WritableRenders(schema: Schema, columns: Columns, rows: seq<Row>, k: string, i: nat)
    requires HoldRows(AllColumns(schema), columns, rows) && (forall r | r in rows :: Complete(schema, r))
    requires AllWritable(schema, rows) && k in columns.data && i < |columns.data[k]|
    ensures Readable(AllColumns(schema).data[k], columns.data[k][i])
  {
    forall r | r in rows ensures Accepted(r) {
      assert Complete(schema, r);
    }
    ColumnLength(AllColumns(schema), rows, k);
    WritableCell(schema, columns, rows, k, i);
  }

  lemma CellsWrittenIff(schema: Schema, columns: Columns, rows: seq<Row>)
    requires HoldRows(AllColumns(schema), columns, rows) && (forall r | r in rows :: Complete(schema, r))
    ensures AllRender(AllColumns(schema), columns) <==> AllWritable(schema, rows)
  {
    if AllRender(AllColumns(schema), columns) {
      forall r, k | r in rows ensures !Unwritable(schema, r, k) {
        RendersWritable(schema, columns, rows, r, k);
      }
    }
    if AllWritable(schema, rows) {
      forall k, i | k in columns.data && 0 <= i < |columns.data[k]|
        ensures Readable(AllColumns(schema).data[k], columns.data[k][i])
      {
        WritableRenders(schema, columns, rows, k, i);
      }
    }
  }

  /** The half-precision validators turn what they accept into the bytes of 16-bit words. */
  ghost predicate HalfChecks(ch: Checks, schema: Schema)
  {
    forall f, v | f in schema.fields && IsHalf(f.dtype) && ch.field(f, v).ok :: IsHalfBytes(ch.field(f, v).value)
  }

  predicate NeedsBytes(f: Field) { !f.Skipped() && IsHalf(f.dtype) }

  /** The caller gives the field no vector, and there is no default made of bytes. (A field named `$meta` is
      hidden by the dynamic values; without a dynamic column these are what cannot be read.) */
  predicate LeavesNoBytes(schema: Schema, f: Field, row: Row)
  {
    if f.name == META then !schema.dynamic
    else IsNull(row, f.name) && !(f.default.Some? && IsHalfBytes(f.default.value))
  }

  lemma {:induction false} NormalDType(fields: seq<Field>, i: nat)
    requires DistinctFields(fields) && i < |fields| && !fields[i].Skipped()
    ensures fields[i].name in NormalColumns(fields).data && NormalColumns(fields).data[fields[i].name] == fields[i].dtype
  {
    if i < |fields| - 1 {
      NormalDType(fields[..|fields| - 1], i);
    }
  }

  lemma {:induction false} StructsOver(c: Fields, names: seq<string>, k: string)
    ensures var d := WithStructs(c, names);
            if k in names then k in d.data && d.data[k] == StructArray
            else (k in d.data <==> k in c.data) && (k in d.data ==> d.data[k] == c.data[k])
  {
    if names != [] {
      assert names == names[..|names| - 1] + [names[|names| - 1]];
      StructsOver(c, names[..|names| - 1], k);
    }
  }

  /** The half-precision columns are those of the half-precision fields, but for a dynamic `$meta`. */
  lemma HalfColumn(schema: Schema, i: nat)
    requires DistinctNames(schema) && i < |schema.fields| && NeedsBytes(schema.fields[i])
    ensures var f := schema.fields[i];
            f.name in AllColumns(schema).data &&
            AllColumns(schema).data[f.name] == if schema.dynamic && f.name == META then Json else f.dtype
  {
    NormalDType(schema.fields, i);
    StructsOver(NormalColumns(schema.fields), schema.structFields, schema.fields[i].name);
  }

  lemma HalfColumnHasField(schema: Schema, k: string) returns (i: nat)
    requires DistinctNames(schema) && k in AllColumns(schema).data && IsHalf(AllColumns(schema).data[k])
    ensures i < |schema.fields| && NeedsBytes(schema.fields[i]) && schema.fields[i].name == k
    ensures !(schema.dynamic && k == META)
  {
    StructsOver(NormalColumns(schema.fields), schema.structFields, k);
    NormalColumn(schema.fields, k);
    var f :| f in schema.fields && !f.Skipped() && f.name == k;
    i :| 0 <= i < |schema.fields| && schema.fields[i] == f;
    NormalDType(schema.fields, i);
  }

  /** One field of one accepted row. */
  lemma FieldWritable(ch: Checks, schema: Schema, row: Row, i: nat)
    requires GoodChecks(ch, schema) && HalfChecks(ch, schema) && DistinctNames(schema) && IsRow(row)
    requires Passes(ch, schema, row) && !BadMeta(ch, schema, row)
    requires i < |schema.fields| && NeedsBytes(schema.fields[i])
    ensures Unwritable(schema, Verify(ch, schema, row).0, schema.fields[i].name) <==>
            LeavesNoBytes(schema, schema.fields[i], row)
  {
    var f, r := schema.fields[i], Verify(ch, schema, row).0;
    TakenIsComplete(ch, schema, row);
    HalfColumn(schema, i);
    assert Unwritable(schema, r, f.name) <==> !(schema.dynamic && f.name == META) && !IsHalfBytes(CellOf(AllColumns(schema), r, f.name));
    if f.name != META {
      HalfValue(ch, schema, row, i);
    }
  }

  lemma TakenIsComplete(ch: Checks, schema: Schema, row: Row)
    requires GoodChecks(ch, schema) && DistinctNames(schema) && IsRow(row)
    requires Passes(ch, schema, row) && !BadMeta(ch, schema, row)
    ensures Verify(ch, schema, row).1 && Complete(schema, Verify(ch, schema, row).0)
  {
    TakenIff(ch, schema, row);
    VerifiedIsComplete(ch, schema, row);
  }

  lemma HalfValue(ch: Checks, schema: Schema, row: Row, i: nat)
    requires HalfChecks(ch, schema) && DistinctNames(schema) && Verify(ch, schema, row).1 && Passes(ch, schema, row)
    requires i < |schema.fields| && NeedsBytes(schema.fields[i])
    ensures var f := schema.fields[i];
            f.name in Verify(ch, schema, row).0.data &&
            (IsHalfBytes(Verify(ch, schema, row).0.data[f.name]) <==>
             !IsNull(row, f.name) || (f.default.Some? && IsHalfBytes(f.default.value)))
  {
    VerifiedValues(ch, schema, row);
    assert FieldOk(ch, schema.fields[i], row);
  }

  lemma {:induction false} RowsFrom(ch: Checks, schema: Schema, inputs: seq<Row>, row: Row) returns (r: Row)
    requires row in AppendAll(ch, schema, inputs).rows
    ensures r in inputs && Verify(ch, schema, r) == (row, true) && Appendable(row)
  {
    var front, last := inputs[..|inputs| - 1], inputs[|inputs| - 1];
    if row in AppendAll(ch, schema, front).rows {
      r := RowsFrom(ch, schema, front, row);
    } else {
      r := last;
    }
  }

  lemma {:induction false} RowsOf(ch: Checks, schema: Schema, inputs: seq<Row>, r: Row)
    requires r in inputs && Verify(ch, schema, r).1 && Appendable(Verify(ch, schema, r).0)
    ensures Verify(ch, schema, r).0 in AppendAll(ch, schema, inputs).rows
  {
    var front, last := inputs[..|inputs| - 1], inputs[|inputs| - 1];
    assert inputs == front + [last];
    if r != last {
      RowsOf(ch, schema, front, r);
    }
  }

  /** A row that reaches the buffer and has a half-precision field without bytes. */
  ghost predicate Spoils(ch: Checks, schema: Schema, r: Row, i: int)
  {
    && Passes(ch, schema, r) && !BadMeta(ch, schema, r)
    && 0 <= i < |schema.fields| && NeedsBytes(schema.fields[i]) && LeavesNoBytes(schema, schema.fields[i], r)
  }

  lemma SpoilsBuffer(ch: Checks, schema: Schema, inputs: seq<Row>, r: Row, i: int)
    requires GoodChecks(ch, schema) && HalfChecks(ch, schema) && DistinctNames(schema) && IsRow(r)
    requires r in inputs && Spoils(ch, schema, r, i)
    ensures !AllWritable(schema, AppendAll(ch, schema, inputs).rows)
  {
    TakenIff(ch, schema, r);
    RowsOf(ch, schema, inputs, r);
    FieldWritable(ch, schema, r, i);
  }

  lemma SpoiledBy(ch: Checks, schema: Schema, inputs: seq<Row>, row: Row, k: string) returns (r: Row, i: int)
    requires GoodChecks(ch, schema) && HalfChecks(ch, schema) && DistinctNames(schema)
    requires (forall r | r in inputs :: IsRow(r)) && row in AppendAll(ch, schema, inputs).rows
    requires Unwritable(schema, row, k)
    ensures r in inputs && Spoils(ch, schema, r, i)
  {
    r := RowsFrom(ch, schema, inputs, row);
    i := HalfColumnHasField(schema, k);
    TakenIff(ch, schema, r);
    FieldWritable(ch, schema, r, i);
  }

  /** The JSON rows can be built if and only if no row that reaches the buffer leaves a half-precision field
      absent or None. */
  lemma JsonWrittenIff(ch: Checks, schema: Schema, inputs: seq<Row>, columns: Columns)
    requires GoodChecks(ch, schema) && HalfChecks(ch, schema) && DistinctNames(schema)
    requires forall r | r in inputs :: IsRow(r)
    requires HoldRows(AllColumns(schema), columns, AppendAll(ch, schema, inputs).rows)
    ensures AllRender(AllColumns(schema), columns) <==> forall r, i | r in inputs :: !Spoils(ch, schema, r, i)
  {
    var rows := AppendAll(ch, schema, inputs).rows;
    AllComplete(ch, schema, inputs);
    CellsWrittenIff(schema, columns, rows);
    if r, i :| r in inputs && Spoils(ch, schema, r, i) {
      SpoilsBuffer(ch, schema, inputs, r, i);
    } else if row, k :| row in rows && Unwritable(schema, row, k) {
      var r, i := SpoiledBy(ch, schema, inputs, row, k);
      assert false;
    }
  }

  /** The columns a buffer has after these rows. */
  function Stored(fields: Fields, rows: seq<Row>): Columns
    requires forall r | r in rows :: Accepted(r)
  {
    PyDict(fields.order, map k | k in fields.data :: ColumnOf(fields, rows, k))
  }

  // ---- A row that spoils the file.

  const HALF := Field("vec", false, false, false, true, None, Float16Vector)
  const NULLABLE := Schema([ID, HALF], [], false)
  const GIVEN: Row := PyDict(["id"], map["id" := Plain(7)])

  lemma LenientIsGood(schema: Schema)
    requires forall f | f in schema.fields && f.default.Some? :: IsValue(f.default.value)
    ensures GoodChecks(LENIENT, schema) && HalfChecks(LENIENT, schema)
  {
  }

  lemma NullableIsGood()
    ensures DistinctNames(NULLABLE) && GoodChecks(LENIENT, NULLABLE) && HalfChecks(LENIENT, NULLABLE)
  {
    assert |HALF.name| != |ID.name|;
    LenientIsGood(NULLABLE);
  }

  lemma GivenSpoils()
    ensures IsRow(GIVEN) && Spoils(LENIENT, NULLABLE, GIVEN, 1)
  {
    var row := GIVEN;
    assert |META| != |ID.name| && |META| != |HALF.name| && |HALF.name| != |ID.name|;
    NoSuchField(LENIENT, NULLABLE.fields, row, META);
    assert FieldOk(LENIENT, NULLABLE.fields[0], row) by {
      assert !IsNull(row, ID.name) && LenientField(ID, row.data[ID.name]).ok;
      assert LENIENT.field(ID, row.data[ID.name]) == LenientField(ID, row.data[ID.name]);
    }
    assert FieldOk(LENIENT, NULLABLE.fields[1], row) by {
      assert IsNull(row, HALF.name);
    }
  }

  /** `{"id": 7}` is accepted when the vector is nullable, and then no JSON file can be written. */
  lemma NullVectorSpoilsJson()
    ensures var rows := AppendAll(LENIENT, NULLABLE, [GIVEN]).rows;
            && |rows| == 1 && (forall r | r in rows :: Accepted(r))
            && !AllRender(AllColumns(NULLABLE), Stored(AllColumns(NULLABLE), rows))
  {
    var fields, rows := AllColumns(NULLABLE), AppendAll(LENIENT, NULLABLE, [GIVEN]).rows;
    NullableIsGood();
    GivenSpoils();
    AllComplete(LENIENT, NULLABLE, [GIVEN]);
    forall r | r in rows ensures Accepted(r) {
      assert Complete(NULLABLE, r);
    }
    assert GIVEN in [GIVEN];
    JsonWrittenIff(LENIENT, NULLABLE, [GIVEN], Stored(fields, rows));
    TakenIff(LENIENT, NULLABLE, GIVEN);
    assert [GIVEN][..0] == [];
  }

  // ---- The columns of a file, in order.

  function FieldNames(fields: seq<Field>): seq<string>
  {
    if fields == [] then []
    else FieldNames(fields[..|fields| - 1]) + if fields[|fields| - 1].Skipped() then [] else [fields[|fields| - 1].name]
  }

  lemma {:induction false} FieldNameIn(fields: seq<Field>, k: string)
    ensures k in FieldNames(fields) <==> exists f :: f in fields && !f.Skipped() && f.name == k
  {
    if fields != [] {
      FieldNameIn(fields[..|fields| - 1], k);
      assert fields == fields[..|fields| - 1] + [fields[|fields| - 1]];
    }
  }

  lemma {:induction false} NormalOrder(fields: seq<Field>)
    requires DistinctFields(fields)
    ensures NormalColumns(fields).order == FieldNames(fields)
  {
    if fields != [] {
      var m := |fields| - 1;
      NormalOrder(fields[..m]);
      NormalColumn(fields[..m], fields[m].name);
      assert forall f | f in fields[..m] :: f.name != fields[m].name;
    }
  }

  lemma {:induction false} StructOrder(c: Fields, names: seq<string>)
    requires c.Valid() && (forall i, j | 0 <= i < j < |names| :: names[i] != names[j])
    requires forall k | k in names :: k !in c.data
    ensures WithStructs(c, names).order == c.order + names
  {
    if names == [] {
      assert c.order + names == c.order;
    } else {
      var m := |names| - 1;
      assert names == names[..m] + [names[m]];
      StructOrder(c, names[..m]);
      StructsOver(c, names[..m], names[m]);
      assert WithStructs(c, names).order == WithStructs(c, names[..m]).order + [names[m]];
      assert c.order + names == (c.order + names[..m]) + [names[m]];
    }
  }

  /** The keys of every JSON row, in order: the fields the caller gives, the struct fields, and `$meta` last when
      dynamic fields are enabled. */
  lemma ColumnOrder(schema: Schema)
    requires DistinctNames(schema)
    requires META !in schema.structFields && forall f | f in schema.fields :: f.name != META
    ensures AllColumns(schema).order == FieldNames(schema.fields) + schema.structFields + if schema.dynamic then [META] else []
  {
    NormalOrder(schema.fields);
    forall k | k in schema.structFields || k == META ensures k !in NormalColumns(schema.fields).data {
      NormalColumn(schema.fields, k);
    }
    StructOrder(NormalColumns(schema.fields), schema.structFields);
    StructsOver(NormalColumns(schema.fields), schema.structFields, META);
    assert DataColumns(schema).order + [] == DataColumns(schema).order;
  }

  /** A field the caller gives has a column of its own type, and a struct field one of structs. */
  lemma ColumnTypes(schema: Schema, k: string)
    requires DistinctNames(schema) && k in AllColumns(schema).data && k != META
    ensures if k in schema.structFields then AllColumns(schema).data[k] == StructArray
            else exists f :: f in schema.fields && f.name == k && !f.isFunctionOutput && !(f.isPrimary && f.autoId)
                             && AllColumns(schema).data[k] == f.dtype
  {
    StructsOver(NormalColumns(schema.fields), schema.structFields, k);
    if k !in schema.structFields {
      NormalColumn(schema.fields, k);
      var i :| 0 <= i < |schema.fields| && !schema.fields[i].Skipped() && schema.fields[i].name == k;
      NormalDType(schema.fields, i);
      assert schema.fields[i] in schema.fields;
    }
  }
}

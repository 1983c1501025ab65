/** `BulkWriter`: rows are verified, and rewritten in place, before they reach the buffer. */
module BulkWriters {
  import opened Buffers
  import opened Prelude
  import opened PyDicts

  /** What a type validator leaves in the row, and whether it accepts it. */
  datatype Checked = Checked(value: Value, ok: bool)

  datatype Checks = Checks(field: (Field, Value) -> Checked, struct: (string, Value) -> Checked)

  /** The row dict of the caller. */
  class RowDict {
    var items: Row

    constructor (items: Row)
      ensures this.items == items
    {
      this.items := items;
    }
  }

  // ---- Verification of one row.

  /** The null and default rules. */
  function VerifyField(ch: Checks, f: Field, row: Row): (Row, bool)
  {
    if f.Skipped() then (row, f.name !in row.data)
    else if f.name in row.data && !row.data[f.name].Null? then
      var c := ch.field(f, row.data[f.name]);
      (row.Set(f.name, c.value), c.ok)
    else if f.default.Some? then (row.Set(f.name, f.default.value), true)
    else if f.nullable then (row.Set(f.name, Null), true)
    else (row, false)
  }

  function VerifyFields(ch: Checks, fields: seq<Field>, row: Row): (Row, bool)
  {
    if fields == [] then (row, true)
    else
      var front := VerifyFields(ch, fields[..|fields| - 1], row);
      if front.1 then VerifyField(ch, fields[|fields| - 1], front.0) else front
  }

  function VerifyStruct(ch: Checks, name: string, row: Row): (Row, bool)
  {
    if name !in row.data then (row, false)
    else
      var c := ch.struct(name, row.data[name]);
      (row.Set(name, c.value), c.ok)
  }

  function VerifyStructs(ch: Checks, names: seq<string>, row: Row): (Row, bool)
  {
    if names == [] then (row, true)
    else
      var front := VerifyStructs(ch, names[..|names| - 1], row);
      if front.1 then VerifyStruct(ch, names[|names| - 1], front.0) else front
  }

  function Verify(ch: Checks, schema: Schema, row: Row): (Row, bool)
  {
    var normal := VerifyFields(ch, schema.fields, row);
    if normal.1 then VerifyStructs(ch, schema.structFields, normal.0) else normal
  }

  lemma {:induction false} FieldsStop(ch: Checks, fields: seq<Field>, row: Row, n: nat)
    requires n <= |fields| && !VerifyFields(ch, fields[..n], row).1
    ensures VerifyFields(ch, fields, row) == VerifyFields(ch, fields[..n], row)
  {
    if n < |fields| {
      assert fields[..|fields| - 1][..n] == fields[..n];
      FieldsStop(ch, fields[..|fields| - 1], row, n);
    } else {
      assert fields[..n] == fields;
    }
  }

  lemma {:induction false} StructsStop(ch: Checks, names: seq<string>, row: Row, n: nat)
    requires n <= |names| && !VerifyStructs(ch, names[..n], row).1
    ensures VerifyStructs(ch, names, row) == VerifyStructs(ch, names[..n], row)
  {
    if n < |names| {
      assert names[..|names| - 1][..n] == names[..n];
      StructsStop(ch, names[..|names| - 1], row, n);
    } else {
      assert names[..n] == names;
    }
  }

  method VerifyNormalField(ch: Checks, schema: Schema, row: RowDict) returns (ok: bool)
    modifies row
    ensures (row.items, ok) == VerifyFields(ch, schema.fields, old(row.items))
  {
    for i := 0 to |schema.fields|
      invariant (row.items, true) == VerifyFields(ch, schema.fields[..i], old(row.items))
    {
      var field := schema.fields[i];
      assert schema.fields[..i + 1][..i] == schema.fields[..i];
      ok := VerifyOne(ch, field, row);
      if !ok {
        FieldsStop(ch, schema.fields, old(row.items), i + 1);
        return;
      }
    }
    assert schema.fields[..|schema.fields|] == schema.fields;
    ok := true;
  }

  /** The body of that loop, with the rules numbered as in the code. */
  method VerifyOne(ch: Checks, field: Field, row: RowDict) returns (ok: bool)
    modifies row
    ensures (row.items, ok) == VerifyField(ch, field, old(row.items))
  {
    if field.isPrimary && field.autoId {
      return field.name !in row.items.data;
    }
    if field.isFunctionOutput {
      return field.name !in row.items.data;
    }
    var isNull := field.name !in row.items.data || row.items.data[field.name].Null?;
    if field.nullable {
      if field.default.Some? {
        if isNull {
          // 1
          row.items := row.items.Set(field.name, field.default.value);
          return true;
        }
        // 2
      } else if isNull {
        // 3
        row.items := row.items.Set(field.name, Null);
        return true;
        // 4
      }
    } else if field.default.Some? {
      if isNull {
        // 5
        row.items := row.items.Set(field.name, field.default.value);
        return true;
      }
      // 6
    } else if isNull {
      // 7
      return false;
      // 8
    }
    var c := ch.field(field, row.items.data[field.name]);
    row.items := row.items.Set(field.name, c.value);
    ok := c.ok;
  }

  method VerifyStructField(ch: Checks, schema: Schema, row: RowDict) returns (ok: bool)
    modifies row
    ensures (row.items, ok) == VerifyStructs(ch, schema.structFields, old(row.items))
  {
    for i := 0 to |schema.structFields|
      invariant (row.items, true) == VerifyStructs(ch, schema.structFields[..i], old(row.items))
    {
      var name := schema.structFields[i];
      assert schema.structFields[..i + 1][..i] == schema.structFields[..i];
      ok := name in row.items.data;
      if ok {
        var c := ch.struct(name, row.items.data[name]);
        row.items := row.items.Set(name, c.value);
        ok := c.ok;
      }
      if !ok {
        StructsStop(ch, schema.structFields, old(row.items), i + 1);
        return;
      }
    }
    assert schema.structFields[..|schema.structFields|] == schema.structFields;
    ok := true;
  }

  // ---- The buffer of a schema.

  /** `Buffer.__init__`: null for a schema without columns, even if dynamic fields are enabled. */
  method CreateBuffer(schema: Schema) returns (b: Buffer?)
    ensures b == null <==> DataColumns(schema).order == []
    ensures b != null ==> fresh(b) && b.Valid() && b.fields == AllColumns(schema) && b.rows == []
  {
    var fields: Fields := Empty();
    for i := 0 to |schema.fields|
      invariant fields == NormalColumns(schema.fields[..i])
    {
      var field := schema.fields[i];
      assert schema.fields[..i + 1][..i] == schema.fields[..i];
      if field.isPrimary && field.autoId {
        continue;
      }
      if field.isFunctionOutput {
        continue;
      }
      fields := fields.Set(field.name, field.dtype);
    }
    assert schema.fields[..|schema.fields|] == schema.fields;
    for i := 0 to |schema.structFields|
      invariant fields == WithStructs(NormalColumns(schema.fields), schema.structFields[..i])
    {
      assert schema.structFields[..i + 1][..i] == schema.structFields[..i];
      fields := fields.Set(schema.structFields[i], StructArray);
    }
    assert schema.structFields[..|schema.structFields|] == schema.structFields;
    if |fields.order| == 0 {
      return null;
    }
    if schema.dynamic {
      fields := fields.Set(META, Json);
    }
    b := new Buffer(fields);
  }

  // ---- Verified rows fill every column.

  /** Python dicts stay Python dicts. */
  ghost predicate IsValue(v: Value) { v.Dict? ==> v.d.Valid() }

  ghost predicate GoodChecks(ch: Checks, schema: Schema)
  {
    && (forall f, v | IsValue(v) :: IsValue(ch.field(f, v).value))
    && (forall name, v | IsValue(v) :: IsValue(ch.struct(name, v).value))
    && forall f | f in schema.fields && f.default.Some? :: IsValue(f.default.value)
  }

  lemma {:induction false} FieldsKeep(ch: Checks, schema: Schema, fields: seq<Field>, row: Row)
    requires GoodChecks(ch, schema) && IsRow(row) && forall f | f in fields :: f in schema.fields
    ensures IsRow(VerifyFields(ch, fields, row).0)
    ensures forall k | k in row.data :: k in VerifyFields(ch, fields, row).0.data
    ensures VerifyFields(ch, fields, row).1 ==>
              forall f | f in fields && !f.Skipped() :: f.name in VerifyFields(ch, fields, row).0.data
  {
    if fields != [] {
      assert fields == fields[..|fields| - 1] + [fields[|fields| - 1]];
      FieldsKeep(ch, schema, fields[..|fields| - 1], row);
    }
  }

  lemma {:induction false} StructsKeep(ch: Checks, schema: Schema, names: seq<string>, row: Row)
    requires GoodChecks(ch, schema) && IsRow(row)
    ensures IsRow(VerifyStructs(ch, names, row).0)
    ensures forall k | k in row.data :: k in VerifyStructs(ch, names, row).0.data
    ensures VerifyStructs(ch, names, row).1 ==> forall k | k in names :: k in VerifyStructs(ch, names, row).0.data
  {
    if names != [] {
      assert names == names[..|names| - 1] + [names[|names| - 1]];
      StructsKeep(ch, schema, names[..|names| - 1], row);
    }
  }

  /** The row has a cell for every column. */
  ghost predicate Complete(schema: Schema, row: Row)
  {
    Accepted(row) && forall k | k in AllColumns(schema).data :: Has(row, k)
  }

  /** A row that passes verification has every column of the schema, whatever the nulls and defaults. */
  lemma VerifiedIsComplete(ch: Checks, schema: Schema, row: Row)
    requires GoodChecks(ch, schema) && IsRow(row)
    ensures IsRow(Verify(ch, schema, row).0)
    ensures Verify(ch, schema, row).1 && Appendable(Verify(ch, schema, row).0) ==> Complete(schema, Verify(ch, schema, row).0)
  {
    forall k | k in NormalColumns(schema.fields).data ensures exists f :: f in schema.fields && !f.Skipped() && f.name == k {
      NormalColumn(schema.fields, k);
    }
    FieldsKeep(ch, schema, schema.fields, row);
    StructsKeep(ch, schema, schema.structFields, VerifyFields(ch, schema.fields, row).0);
  }

  class BulkWriter {
    const schema: Schema
    const checks: Checks
    var buffer: Buffer
    var bufferRowCount: nat
    var totalRowCount: nat
    ghost var handedOver: nat
    ghost var dropped: nat

    /** `dropped` counts the rows that passed verification and were then refused by the buffer. */
    ghost predicate Valid()
      reads this, buffer
    {
      && GoodChecks(checks, schema) && DataColumns(schema).order != []
      && buffer.Valid() && buffer.fields == AllColumns(schema)
      && (forall r | r in buffer.rows :: Complete(schema, r))
      && totalRowCount == handedOver + |buffer.rows| + dropped
    }

    constructor (schema: Schema, checks: Checks, buffer: Buffer)
      requires GoodChecks(checks, schema) && DataColumns(schema).order != []
      requires buffer.Valid() && buffer.fields == AllColumns(schema) && buffer.rows == []
      ensures Valid() && this.schema == schema && this.checks == checks && this.buffer == buffer
      ensures totalRowCount == 0 && bufferRowCount == 0 && dropped == 0
    {
      this.schema, this.checks, this.buffer := schema, checks, buffer;
      bufferRowCount, totalRowCount, handedOver, dropped := 0, 0, 0, 0;
    }

    /** A row that fails verification is rewritten up to the failing field, and nothing else changes. One
        that passes is counted, even when the buffer then refuses its `$meta` value. */
    method AppendRow(row: RowDict) returns (ok: bool)
      requires Valid() && IsRow(row.items)
      modifies this, buffer, row
      ensures Valid() && buffer == old(buffer)
      ensures row.items == Verify(checks, schema, old(row.items)).0
      ensures var passed := Verify(checks, schema, old(row.items)).1;
              && ok == (passed && Appendable(row.items))
              && buffer.rows == old(buffer.rows) + (if ok then [row.items] else [])
              && totalRowCount == old(totalRowCount) + (if passed then 1 else 0)
              && bufferRowCount == old(bufferRowCount) + (if passed then 1 else 0)
              && dropped == old(dropped) + (if passed && !ok then 1 else 0)
      ensures !ok ==> buffer.columns == old(buffer.columns)
    {
      VerifiedIsComplete(checks, schema, row.items);
      ok := VerifyRow(row);
      if !ok {
        return;
      }
      ok := buffer.AppendRow(row.items);
      if !ok {
        dropped := dropped + 1;
      }
    }

    /** `_verify_row`, with its counters. */
    method VerifyRow(row: RowDict) returns (ok: bool)
      modifies this`bufferRowCount, this`totalRowCount, row
      ensures (row.items, ok) == Verify(checks, schema, old(row.items))
      ensures totalRowCount == old(totalRowCount) + if ok then 1 else 0
      ensures bufferRowCount == old(bufferRowCount) + if ok then 1 else 0
    {
      ok := VerifyNormalField(checks, schema, row);
      if !ok {
        return;
      }
      ok := VerifyStructField(checks, schema, row);
      if !ok {
        return;
      }
      bufferRowCount := bufferRowCount + 1;
      totalRowCount := totalRowCount + 1;
    }

    /** `_new_buffer`: the old buffer is handed over with all its rows, and an empty one takes its place. */
    method NewBuffer() returns (oldBuffer: Buffer)
      requires Valid()
      modifies this
      ensures Valid() && oldBuffer == old(buffer) && fresh(buffer) && buffer.rows == []
      ensures handedOver == old(handedOver) + |oldBuffer.rows|
      ensures totalRowCount == old(totalRowCount) && bufferRowCount == old(bufferRowCount) && dropped == old(dropped)
    {
      oldBuffer := buffer;
      var b := CreateBuffer(schema);
      buffer := b;
      handedOver := handedOver + |oldBuffer.rows|;
    }

    method Commit()
      requires Valid()
      modifies this
      ensures Valid() && buffer == old(buffer) && bufferRowCount == 0 && totalRowCount == old(totalRowCount)
    {
      bufferRowCount := 0;
    }
  }

  /** `BulkWriter.__init__`: null for an exception. */
  method StartWriter(schema: Schema, checks: Checks) returns (w: BulkWriter?)
    requires GoodChecks(checks, schema)
    ensures w == null <==>
            schema.fields == [] || (forall f | f in schema.fields :: !f.isPrimary) || DataColumns(schema).order == []
    ensures w != null ==> fresh(w) && w.Valid() && w.schema == schema && w.buffer.rows == [] && w.totalRowCount == 0
  {
    w := null;
    if |schema.fields| == 0 {
      return;
    }
    var primary := exists f :: f in schema.fields && f.isPrimary;
    if !primary {
      return;
    }
    var b := CreateBuffer(schema);
    if b != null {
      w := new BulkWriter(schema, checks, b);
    }
  }

  // ---- Every sequence of rows.

  /** The rows in the buffer and the row counter after appending `inputs`. */
  datatype Writer = Writer(rows: seq<Row>, total: nat)

  ghost function AppendAll(ch: Checks, schema: Schema, inputs: seq<Row>): Writer
  {
    if inputs == [] then Writer([], 0)
    else
      var front := AppendAll(ch, schema, inputs[..|inputs| - 1]);
      var v := Verify(ch, schema, inputs[|inputs| - 1]);
      Writer(front.rows + (if v.1 && Appendable(v.0) then [v.0] else []), front.total + if v.1 then 1 else 0)
  }

  lemma {:induction false} AllComplete(ch: Checks, schema: Schema, inputs: seq<Row>)
    requires GoodChecks(ch, schema) && forall r | r in inputs :: IsRow(r)
    ensures forall r | r in AppendAll(ch, schema, inputs).rows :: Complete(schema, r)
  {
    if inputs != [] {
      var last := inputs[|inputs| - 1];
      assert inputs == inputs[..|inputs| - 1] + [last];
      AllComplete(ch, schema, inputs[..|inputs| - 1]);
      VerifiedIsComplete(ch, schema, last);
    }
  }

  /** All columns always have the same length, the number of accepted rows, so the mismatch error of
      `persist` cannot happen. */
  lemma AlwaysRectangular(ch: Checks, schema: Schema, inputs: seq<Row>, columns: Columns)
    requires GoodChecks(ch, schema) && forall r | r in inputs :: IsRow(r)
    requires HoldRows(AllColumns(schema), columns, AppendAll(ch, schema, inputs).rows)
    ensures Rectangular(columns)
    ensures forall k | k in columns.data :: |columns.data[k]| == |AppendAll(ch, schema, inputs).rows|
  {
    var rows := AppendAll(ch, schema, inputs).rows;
    AllComplete(ch, schema, inputs);
    forall k | k in columns.data ensures |columns.data[k]| == |rows| {
      forall r | r in rows ensures Accepted(r) && Has(r, k) {
        assert Complete(schema, r);
      }
      AllHave(AllColumns(schema), rows, k);
    }
  }

  // ---- What verification does to a row, field by field.

  ghost predicate DistinctFields(fields: seq<Field>)
  {
    forall i, j | 0 <= i < j < |fields| :: fields[i].name != fields[j].name
  }

  ghost predicate DistinctNames(schema: Schema)
  {
    && DistinctFields(schema.fields)
    && (forall i, j | 0 <= i < j < |schema.structFields| :: schema.structFields[i] != schema.structFields[j])
    && forall i | 0 <= i < |schema.fields| :: schema.fields[i].name !in schema.structFields
  }

  ghost predicate SameAt(a: Row, b: Row, k: string)
  {
    (k in a.data <==> k in b.data) && (k in a.data ==> a.data[k] == b.data[k])
  }

  predicate IsNull(row: Row, k: string) { k !in row.data || row.data[k].Null? }

  /** The field's rule accepts the row: absent if the server fills it in; else a valid value, or no value
      and a default or a nullable field. */
  predicate FieldOk(ch: Checks, f: Field, row: Row)
  {
    if (f.isPrimary && f.autoId) || f.isFunctionOutput then f.name !in row.data
    else if IsNull(row, f.name) then f.default.Some? || f.nullable
    else ch.field(f, row.data[f.name]).ok
  }

  /** The value the row ends up with: the default before None. */
  function Resolved(ch: Checks, f: Field, row: Row): Value
  {
    if !IsNull(row, f.name) then ch.field(f, row.data[f.name]).value
    else if f.default.Some? then f.default.value
    else Null
  }

  predicate StructOk(ch: Checks, name: string, row: Row)
  {
    name in row.data && ch.struct(name, row.data[name]).ok
  }

  lemma {:induction false} FieldsLeave(ch: Checks, fields: seq<Field>, row: Row, k: string)
    requires forall i | 0 <= i < |fields| :: fields[i].Skipped() || fields[i].name != k
    ensures SameAt(VerifyFields(ch, fields, row).0, row, k)
  {
    if fields != [] {
      FieldsLeave(ch, fields[..|fields| - 1], row, k);
    }
  }

  lemma {:induction false} StructsLeave(ch: Checks, names: seq<string>, row: Row, k: string)
    requires k !in names
    ensures SameAt(VerifyStructs(ch, names, row).0, row, k)
  {
    if names != [] {
      assert names[|names| - 1] in names;
      StructsLeave(ch, names[..|names| - 1], row, k);
    }
  }

  lemma {:induction false} FieldsIff(ch: Checks, fields: seq<Field>, row: Row)
    requires DistinctFields(fields)
    ensures VerifyFields(ch, fields, row).1 <==> forall i | 0 <= i < |fields| :: FieldOk(ch, fields[i], row)
  {
    if fields != [] {
      var n := |fields| - 1;
      FieldsIff(ch, fields[..n], row);
      FieldsLeave(ch, fields[..n], row, fields[n].name);
      assert forall i | 0 <= i < n :: fields[..n][i] == fields[i];
    }
  }

  lemma {:induction false} FieldsValue(ch: Checks, fields: seq<Field>, row: Row, i: nat)
    requires DistinctFields(fields) && i < |fields| && !fields[i].Skipped() && VerifyFields(ch, fields, row).1
    ensures fields[i].name in VerifyFields(ch, fields, row).0.data
    ensures VerifyFields(ch, fields, row).0.data[fields[i].name] == Resolved(ch, fields[i], row)
  {
    var n := |fields| - 1;
    if i < n {
      FieldsValue(ch, fields[..n], row, i);
    } else {
      FieldsLeave(ch, fields[..n], row, fields[n].name);
    }
  }

  lemma {:induction false} StructsIff(ch: Checks, names: seq<string>, row: Row)
    requires forall i, j | 0 <= i < j < |names| :: names[i] != names[j]
    ensures VerifyStructs(ch, names, row).1 <==> forall i | 0 <= i < |names| :: StructOk(ch, names[i], row)
  {
    if names != [] {
      var n := |names| - 1;
      StructsIff(ch, names[..n], row);
      StructsLeave(ch, names[..n], row, names[n]);
      assert forall i | 0 <= i < n :: names[..n][i] == names[i];
    }
  }

  /** A row passes exactly when every field's and every struct field's own rule accepts what the caller put
      there: no field's rewriting influences another's verdict. */
  lemma VerifyIff(ch: Checks, schema: Schema, row: Row)
    requires DistinctNames(schema)
    ensures Verify(ch, schema, row).1 <==>
            && (forall i | 0 <= i < |schema.fields| :: FieldOk(ch, schema.fields[i], row))
            && (forall i | 0 <= i < |schema.structFields| :: StructOk(ch, schema.structFields[i], row))
  {
    var normal := VerifyFields(ch, schema.fields, row);
    FieldsIff(ch, schema.fields, row);
    StructsIff(ch, schema.structFields, normal.0);
    forall i | 0 <= i < |schema.structFields|
      ensures StructOk(ch, schema.structFields[i], normal.0) <==> StructOk(ch, schema.structFields[i], row)
    {
      FieldsLeave(ch, schema.fields, row, schema.structFields[i]);
    }
  }

  /** A row that passes carries, for every field, the checked value, the default or None by the rules, and
      keeps every key that names no field. */
  lemma VerifiedValues(ch: Checks, schema: Schema, row: Row)
    requires DistinctNames(schema) && Verify(ch, schema, row).1
    ensures forall i | 0 <= i < |schema.fields| && !schema.fields[i].Skipped() ::
              var r := Verify(ch, schema, row).0; var f := schema.fields[i];
              f.name in r.data && r.data[f.name] == Resolved(ch, f, row)
    ensures forall k | k !in schema.structFields && (forall i | 0 <= i < |schema.fields| :: schema.fields[i].name != k) ::
              SameAt(Verify(ch, schema, row).0, row, k)
  {
    var normal := VerifyFields(ch, schema.fields, row);
    var r := Verify(ch, schema, row).0;
    forall i | 0 <= i < |schema.fields| && !schema.fields[i].Skipped()
      ensures schema.fields[i].name in r.data && r.data[schema.fields[i].name] == Resolved(ch, schema.fields[i], row)
    {
      FieldsValue(ch, schema.fields, row, i);
      StructsLeave(ch, schema.structFields, normal.0, schema.fields[i].name);
    }
    forall k | k !in schema.structFields && (forall i | 0 <= i < |schema.fields| :: schema.fields[i].name != k)
      ensures SameAt(r, row, k)
    {
      FieldsLeave(ch, schema.fields, row, k);
      StructsLeave(ch, schema.structFields, normal.0, k);
    }
  }

  /** The value that verification leaves under `k`, if any, from the row the caller gave. */
  function NormalValue(ch: Checks, fields: seq<Field>, row: Row, k: string): Option<Value>
  {
    if fields == [] then if k in row.data then Some(row.data[k]) else None
    else
      var last := fields[|fields| - 1];
      if !last.Skipped() && last.name == k then Some(Resolved(ch, last, row))
      else NormalValue(ch, fields[..|fields| - 1], row, k)
  }

  function FinalValue(ch: Checks, schema: Schema, row: Row, k: string): Option<Value>
  {
    if k in schema.structFields && k in row.data then Some(ch.struct(k, row.data[k]).value)
    else NormalValue(ch, schema.fields, row, k)
  }

  function Lookup(row: Row, k: string): Option<Value> { if k in row.data then Some(row.data[k]) else None }

  lemma {:induction false} NormalValueIs(ch: Checks, fields: seq<Field>, row: Row, k: string)
    requires DistinctFields(fields) && VerifyFields(ch, fields, row).1
    ensures Lookup(VerifyFields(ch, fields, row).0, k) == NormalValue(ch, fields, row, k)
  {
    if fields != [] {
      var n := |fields| - 1;
      NormalValueIs(ch, fields[..n], row, k);
      FieldsLeave(ch, fields[..n], row, fields[n].name);
    }
  }

  lemma {:induction false} StructValueIs(ch: Checks, names: seq<string>, row: Row, k: string)
    requires forall i, j | 0 <= i < j < |names| :: names[i] != names[j]
    requires VerifyStructs(ch, names, row).1 && k in names
    ensures k in row.data && Lookup(VerifyStructs(ch, names, row).0, k) == Some(ch.struct(k, row.data[k]).value)
  {
    var n := |names| - 1;
    if k == names[n] {
      StructsLeave(ch, names[..n], row, k);
    } else {
      assert names == names[..n] + [names[n]];
      StructValueIs(ch, names[..n], row, k);
    }
  }

  lemma FinalValueIs(ch: Checks, schema: Schema, row: Row, k: string)
    requires DistinctNames(schema) && Verify(ch, schema, row).1
    ensures Lookup(Verify(ch, schema, row).0, k) == FinalValue(ch, schema, row, k)
  {
    var normal := VerifyFields(ch, schema.fields, row);
    NormalValueIs(ch, schema.fields, row, k);
    if k in schema.structFields {
      StructValueIs(ch, schema.structFields, normal.0, k);
      FieldsLeave(ch, schema.fields, row, k);
    } else {
      StructsLeave(ch, schema.structFields, normal.0, k);
    }
  }

  // ---- Counted and accepted rows.

  /** Every field's rule accepts what the caller gave. */
  ghost predicate Passes(ch: Checks, schema: Schema, row: Row)
  {
    && (forall i | 0 <= i < |schema.fields| :: FieldOk(ch, schema.fields[i], row))
    && (forall i | 0 <= i < |schema.structFields| :: StructOk(ch, schema.structFields[i], row))
  }

  /** The `$meta` value will not be a dict. */
  predicate BadMeta(ch: Checks, schema: Schema, row: Row)
  {
    var v := FinalValue(ch, schema, row, META);
    v.Some? && !v.value.Dict?
  }

  lemma {:induction false} NoSuchField(ch: Checks, fields: seq<Field>, row: Row, k: string)
    requires forall i | 0 <= i < |fields| :: fields[i].name != k
    ensures NormalValue(ch, fields, row, k) == Lookup(row, k)
  {
    if fields != [] {
      NoSuchField(ch, fields[..|fields| - 1], row, k);
    }
  }

  /** Unless the schema has a field of that name, it is the caller's `$meta` that counts. */
  lemma BadMetaIsTheCallers(ch: Checks, schema: Schema, row: Row)
    requires META !in schema.structFields && forall i | 0 <= i < |schema.fields| :: schema.fields[i].name != META
    ensures BadMeta(ch, schema, row) <==> META in row.data && !row.data[META].Dict?
  {
    NoSuchField(ch, schema.fields, row, META);
  }

  lemma TakenIff(ch: Checks, schema: Schema, row: Row)
    requires DistinctNames(schema)
    ensures var v := Verify(ch, schema, row);
            (v.1 <==> Passes(ch, schema, row)) && (v.1 ==> (Appendable(v.0) <==> !BadMeta(ch, schema, row)))
  {
    VerifyIff(ch, schema, row);
    if Verify(ch, schema, row).1 {
      FinalValueIs(ch, schema, row, META);
    }
  }

  /** A row that is counted and then refused, by what the caller gave. */
  ghost predicate Miscounted(ch: Checks, schema: Schema, row: Row)
  {
    Passes(ch, schema, row) && BadMeta(ch, schema, row)
  }

  /** The row counter equals the number of accepted rows exactly when no row that passes has a `$meta` value
      that is not a dict; otherwise it is too large. */
  lemma {:induction false} CounterIff(ch: Checks, schema: Schema, inputs: seq<Row>)
    requires DistinctNames(schema)
    ensures AppendAll(ch, schema, inputs).total >= |AppendAll(ch, schema, inputs).rows|
    ensures AppendAll(ch, schema, inputs).total == |AppendAll(ch, schema, inputs).rows| <==>
            forall r | r in inputs :: !Miscounted(ch, schema, r)
  {
    if inputs != [] {
      var front, last := inputs[..|inputs| - 1], inputs[|inputs| - 1];
      assert inputs == front + [last];
      CounterIff(ch, schema, front);
      TakenIff(ch, schema, last);
      assert last in inputs && forall r | r in front :: r in inputs;
    }
  }

  // ---- A row that is counted and refused.

  const ID := Field("id", true, false, false, false, None, OtherType(5))

  /** Validators that take any bytes of 16-bit words for a half-precision field, and anything else as it is. */
  function LenientField(f: Field, v: Value): Checked { Checked(v, IsHalf(f.dtype) ==> IsHalfBytes(v)) }

  const LENIENT := Checks((f, v) => LenientField(f, v), (name, v) => Checked(v, true))

  /** `{"id": 7, "$meta": 1}` is counted and refused. */
  lemma CountedThenRefused()
    ensures var row := PyDict(["id", META], map["id" := Plain(7), META := Plain(1)]);
            IsRow(row) && AppendAll(LENIENT, Schema([ID], [], true), [row]) == Writer([], 1)
  {
    var row := PyDict(["id", META], map["id" := Plain(7), META := Plain(1)]);
    var schema := Schema([ID], [], true);
    assert VerifyFields(LENIENT, [ID], row) == VerifyField(LENIENT, ID, row) by {
      assert [ID][..0] == [];
    }
    assert Verify(LENIENT, schema, row).1 && Verify(LENIENT, schema, row).0.data[META] == Plain(1);
    assert AppendAll(LENIENT, schema, [row][..0]) == Writer([], 0);
  }
}

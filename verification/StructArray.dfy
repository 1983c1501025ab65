/** Arrays of structs: split into one flat column per sub-field (`convert_to_array`,
    `convert_to_array_of_vector`) and rebuilt row by row (`extract_struct_array_from_column_data`). */
module StructArrays {
  import opened Columns
  import opened Prelude
  import opened PyDicts

  datatype ElementType =
    | BoolElement | Int8Element | Int16Element | Int32Element | Int64Element | FloatElement | DoubleElement
    | VarCharElement | StringElement | OtherElement

  datatype Scalar = Truth(b: bool) | Number(n: int) | Floating(bits: nat) | Text(s: string)

  datatype Slot = StringData | IntData | LongData | FloatData | DoubleData | BoolData

  /** A ScalarField message: one list of its oneof, or none. */
  datatype ScalarField = Vacant | Filled(slot: Slot, data: seq<Scalar>) {

    /** `getattr(self, slot).data`. */
    function In(slot: Slot): seq<Scalar> { if Filled? && this.slot == slot then data else [] }

    function All(): seq<Scalar> { if Filled? then data else [] }
  }

  /** A VectorField message with all vectors of one row, one after another. */
  datatype VectorField = VectorField(dim: nat, slot: VectorType, cells: seq<nat>) {

    function In(slot: VectorType): seq<nat> { if this.slot == slot then cells else [] }
  }

  /** The data of one sub-field for all rows. `element` is absent when its code is none of the known ones. */
  datatype SubField =
    | ArrayField(name: string, scalars: seq<ScalarField>)
    | VectorArrayField(name: string, element: Option<VectorType>, vectors: seq<VectorField>)
    | OtherField(name: string)

  // ---- Splitting.

  datatype NumpyType = Float32 | Float64 | Float16 | BFloat16 | Int8 | UInt8
  datatype Form = Listed | RawBytes | NdArray(dtype: NumpyType)

  /** An input value; `cells` are float words for float vectors and bytes for the others. */
  datatype Value = ScalarValue(v: Scalar) | VectorValue(form: Form, cells: seq<nat>)

  type Struct = map<string, Value>

  datatype SubType = OfScalars(element: ElementType) | OfVectors(vtype: VectorType, dim: nat)

  datatype SubInfo = SubInfo(name: string, kind: SubType)

  function SlotOf(e: ElementType): Option<Slot>
  {
    match e
    case BoolElement => Some(BoolData)
    case Int8Element | Int16Element | Int32Element => Some(IntData)
    case Int64Element => Some(LongData)
    case FloatElement => Some(FloatData)
    case DoubleElement => Some(DoubleData)
    case VarCharElement | StringElement => Some(StringData)
    case OtherElement => None
  }

  function EncodeScalars(values: seq<Scalar>, e: ElementType): Result<ScalarField, Error>
  {
    if SlotOf(e).Some? then Ok(Filled(SlotOf(e).value, values)) else Err(ParamError)
  }

  method ConvertToArray(values: seq<Scalar>, e: ElementType) returns (r: Result<ScalarField, Error>)
    ensures r == EncodeScalars(values, e)
    ensures e.BoolElement? ==> r == Ok(Filled(BoolData, values))
    ensures e.Int8Element? || e.Int16Element? || e.Int32Element? ==> r == Ok(Filled(IntData, values))
    ensures e.Int64Element? ==> r == Ok(Filled(LongData, values))
    ensures e.FloatElement? ==> r == Ok(Filled(FloatData, values))
    ensures e.DoubleElement? ==> r == Ok(Filled(DoubleData, values))
    ensures e.VarCharElement? || e.StringElement? ==> r == Ok(Filled(StringData, values))
    ensures e.OtherElement? ==> r == Err(ParamError)
  {
    if e.BoolElement? {
      return Ok(Filled(BoolData, values));
    }
    if e in {Int8Element, Int16Element, Int32Element} {
      return Ok(Filled(IntData, values));
    }
    if e.Int64Element? {
      return Ok(Filled(LongData, values));
    }
    if e.FloatElement? {
      return Ok(Filled(FloatData, values));
    }
    if e.DoubleElement? {
      return Ok(Filled(DoubleData, values));
    }
    if e in {VarCharElement, StringElement} {
      return Ok(Filled(StringData, values));
    }
    r := Err(ParamError);
  }

  /** The type checks of `convert_to_array_of_vector` and `_convert_to_vector_bytes`. */
  predicate Accepted(t: VectorType, form: Form)
  {
    match t
    case FloatVector => form.NdArray? ==> form.dtype.Float32? || form.dtype.Float64?
    case Float16Vector => form.RawBytes? || (form.NdArray? && form.dtype.Float16?)
    case BFloat16Vector => form.RawBytes? || (form.NdArray? && form.dtype.BFloat16?)
    case Int8Vector => form.RawBytes? || (form.NdArray? && form.dtype.Int8?)
    case BinaryVector => true
    case SparseFloatVector => false
  }

  function AsVectors(values: seq<Value>): seq<Vector>
    requires forall i | 0 <= i < |values| :: values[i].VectorValue?
  {
    seq(|values|, i requires 0 <= i < |values| => Vector.Dense(values[i].cells))
  }

  function EncodeVectors(values: seq<Value>, t: VectorType, dim: nat): Result<VectorField, Error>
    requires forall i | 0 <= i < |values| :: values[i].VectorValue?
  {
    if t.SparseFloatVector? || exists i :: 0 <= i < |values| && !Accepted(t, values[i].form) then Err(ParamError)
    else Ok(VectorField(dim, t, Flatten(AsVectors(values))))
  }

  /** Float vectors are refused as arrays of other dtypes than float32 and float64; 16-bit and int8 ones as
      anything but bytes and arrays of their own dtype. */
  predicate WrongForm(t: VectorType, form: Form)
  {
    || (t.FloatVector? && form.NdArray? && form.dtype != Float32 && form.dtype != Float64)
    || (t.Float16Vector? && form != RawBytes && form != NdArray(Float16))
    || (t.BFloat16Vector? && form != RawBytes && form != NdArray(BFloat16))
    || (t.Int8Vector? && form != RawBytes && form != NdArray(Int8))
  }

  lemma VectorsRefusedIff(values: seq<Value>, t: VectorType, dim: nat)
    requires forall i | 0 <= i < |values| :: values[i].VectorValue?
    ensures EncodeVectors(values, t, dim) == Err(ParamError) <==>
            t.SparseFloatVector? || exists i | 0 <= i < |values| :: WrongForm(t, values[i].form)
    ensures EncodeVectors(values, t, dim).Ok? ==>
              EncodeVectors(values, t, dim).value.dim == dim && EncodeVectors(values, t, dim).value.slot == t
  {
    assert forall i | 0 <= i < |values| && !t.SparseFloatVector? :: Accepted(t, values[i].form) <==> !WrongForm(t, values[i].form);
  }

  method ConvertToArrayOfVector(values: seq<Value>, t: VectorType, dim: nat) returns (r: Result<VectorField, Error>)
    requires forall i | 0 <= i < |values| :: values[i].VectorValue?
    ensures r == EncodeVectors(values, t, dim)
  {
    if t.SparseFloatVector? {
      return Err(ParamError);
    }
    var all: seq<nat> := [];
    var i := 0;
    while i < |values|
      invariant 0 <= i <= |values|
      invariant forall j | 0 <= j < i :: Accepted(t, values[j].form)
      invariant all == Flatten(AsVectors(values)[..i])
    {
      if !Accepted(t, values[i].form) {
        return Err(ParamError);
      }
      assert AsVectors(values)[..i + 1][..i] == AsVectors(values)[..i];
      all := all + values[i].cells;
      i := i + 1;
    }
    assert AsVectors(values)[..i] == AsVectors(values);
    r := Ok(VectorField(dim, t, all));
  }

  // ---- Rebuilding.

  /** What the user gets back: None, a scalar, or the list shape of each vector type. */
  datatype Decoded =
    | NoValue | Plain(v: Scalar) | Floats(words: seq<nat>) | Halves(pairs: seq<(nat, nat)>) | Bytes(bytes: seq<nat>)
    | OneBytes(bytes: seq<nat>)

  function Pairs(bytes: seq<nat>): seq<(nat, nat)>
    requires |bytes| % 2 == 0
  {
    seq(|bytes| / 2, i requires 0 <= i < |bytes| / 2 => (bytes[2 * i], bytes[2 * i + 1]))
  }

  function Shape(t: VectorType, cells: seq<nat>): Decoded
    requires IsHalf(t) ==> |cells| % 2 == 0
  {
    match t
    case FloatVector => Floats(cells)
    case Float16Vector | BFloat16Vector => Halves(Pairs(cells))
    case Int8Vector => Bytes(cells)
    case BinaryVector => OneBytes(cells)
    case SparseFloatVector => NoValue
  }

  /** The shape determines the vector. */
  lemma ShapeInjective(t: VectorType, a: seq<nat>, b: seq<nat>)
    requires !t.SparseFloatVector? && (IsHalf(t) ==> |a| % 2 == 0 && |b| % 2 == 0)
    ensures Shape(t, a) == Shape(t, b) <==> a == b
  {
    if IsHalf(t) && Pairs(a) == Pairs(b) {
      assert |Pairs(a)| == |a| / 2 && |Pairs(b)| == |b| / 2;
      forall i | 0 <= i < |a| ensures a[i] == b[i] {
        assert Pairs(a)[i / 2] == Pairs(b)[i / 2];
      }
    }
  }

  const SLOTS := [StringData, IntData, LongData, FloatData, DoubleData, BoolData]

  method GetArrayLength(item: ScalarField) returns (n: nat)
    ensures n == |item.All()|
  {
    for i := 0 to |SLOTS|
      invariant forall j | 0 <= j < i :: item.In(SLOTS[j]) == []
    {
      if |item.In(SLOTS[i])| > 0 {
        return |item.In(SLOTS[i])|;
      }
    }
    if item.Filled? {
      assert item.In(SLOTS[Rank(item.slot)]) == [];
    }
    n := 0;
  }

  /** The place of a slot in the order the code looks at them. */
  function Rank(slot: Slot): (r: nat)
    ensures r < |SLOTS| && SLOTS[r] == slot
  {
    match slot
    case StringData => 0
    case IntData => 1
    case LongData => 2
    case FloatData => 3
    case DoubleData => 4
    case BoolData => 5
  }

  function ValueAt(item: ScalarField, idx: nat): Decoded
  {
    if idx < |item.All()| then Plain(item.All()[idx]) else NoValue
  }

  method GetArrayValueAtIndex(item: ScalarField, idx: nat) returns (v: Decoded)
    ensures v == ValueAt(item, idx)
  {
    for i := 0 to |SLOTS|
      invariant forall j | 0 <= j < i :: |item.In(SLOTS[j])| <= idx
    {
      if |item.In(SLOTS[i])| > idx {
        return Plain(item.In(SLOTS[i])[idx]);
      }
    }
    if item.Filled? {
      assert |item.In(SLOTS[Rank(item.slot)])| <= idx;
    }
    v := NoValue;
  }

  predicate Known(element: Option<VectorType>) { element.Some? && !element.value.SparseFloatVector? }

  function Quotient(a: nat, b: nat): nat
    requires b > 0
  {
    a / b
  }

  function VectorCount(vf: VectorField, element: Option<VectorType>): Result<nat, Error>
  {
    if !Known(element) then Ok(0)
    else if Width(element.value, vf.dim) == 0 then Err(ZeroDivision)
    else Ok(Quotient(|vf.In(element.value)|, Width(element.value, vf.dim)))
  }

  function VectorAt(vf: VectorField, element: Option<VectorType>, idx: nat): Decoded
  {
    if !Known(element) then NoValue
    else
      var w := Width(element.value, vf.dim);
      var data := vf.In(element.value);
      if idx * w + w <= |data| then Shape(element.value, data[idx * w..idx * w + w]) else NoValue
  }

  /** How many structs a sub-field holds in this row. */
  function FieldCount(f: SubField, row: nat): Result<nat, Error>
  {
    match f
    case ArrayField(_, scalars) => Ok(if row < |scalars| then |scalars[row].All()| else 0)
    case VectorArrayField(_, element, vectors) => if row < |vectors| then VectorCount(vectors[row], element) else Ok(0)
    case OtherField(_) => Ok(0)
  }

  /** The first positive count. */
  function Count(fields: seq<SubField>, row: nat): Result<nat, Error>
  {
    if fields == [] then Ok(0)
    else
      var n := FieldCount(fields[0], row);
      if n.Err? || n.value > 0 then n else Count(fields[1..], row)
  }

  /** A sub-field of one struct; `None` when the row is missing from the column. */
  function FieldAt(f: SubField, row: nat, idx: nat): Result<Option<Decoded>, Error>
  {
    match f
    case ArrayField(_, scalars) => Ok(if row < |scalars| then Some(ValueAt(scalars[row], idx)) else None)
    case VectorArrayField(_, element, vectors) => Ok(if row < |vectors| then Some(VectorAt(vectors[row], element, idx)) else None)
    case OtherField(_) => Err(ParamError)
  }

  type Rebuilt = PyDict<string, Decoded>

  function StructAt(fields: seq<SubField>, row: nat, idx: nat): Result<Rebuilt, Error>
  {
    if fields == [] then Ok(Empty())
    else
      var front := StructAt(fields[..|fields| - 1], row, idx);
      var last := FieldAt(fields[|fields| - 1], row, idx);
      if front.Err? then front
      else if last.Err? then Err(last.error)
      else if last.value.None? then front
      else Ok(front.value.Set(fields[|fields| - 1].name, last.value.value))
  }

  function Structs(fields: seq<SubField>, row: nat, n: nat): Result<seq<Rebuilt>, Error>
  {
    if n == 0 then Ok([])
    else
      var front, last := Structs(fields, row, n - 1), StructAt(fields, row, n - 1);
      if front.Err? then front else if last.Err? then Err(last.error) else Ok(front.value + [last.value])
  }

  function Extract(fields: seq<SubField>, row: nat): Result<seq<Rebuilt>, Error>
  {
    var n := Count(fields, row);
    if n.Err? then Err(n.error) else Structs(fields, row, n.value)
  }

  /** The number of structs is the first count that is not zero, unless counting fails before. */
  lemma {:induction false} CountIsFirst(fields: seq<SubField>, row: nat, k: nat)
    requires k <= |fields| && forall j | 0 <= j < k :: FieldCount(fields[j], row) == Ok(0)
    ensures k == |fields| ==> Count(fields, row) == Ok(0)
    ensures k < |fields| && FieldCount(fields[k], row) != Ok(0) ==> Count(fields, row) == FieldCount(fields[k], row)
  {
    if k > 0 {
      CountIsFirst(fields[1..], row, k - 1);
    }
  }

  /** What a vector sub-field of any message counts and holds: a width of zero cannot be counted by, other
      fields of the message are not looked at, and past the end of the cells there is no value. */
  lemma VectorFieldIs(f: SubField, row: nat, idx: nat, t: VectorType, w: nat)
    requires f.VectorArrayField? && row < |f.vectors| && f.element == Some(t) && !t.SparseFloatVector?
    requires w == if t.BinaryVector? then f.vectors[row].dim / 8
                  else if t.Float16Vector? || t.BFloat16Vector? then 2 * f.vectors[row].dim else f.vectors[row].dim
    ensures var n := if f.vectors[row].slot == t then |f.vectors[row].cells| else 0;
            && (w == 0 ==> FieldCount(f, row) == Err(ZeroDivision))
            && (w > 0 ==> FieldCount(f, row) == Ok(Quotient(n, w)))
            && (idx * w + w > n ==> FieldAt(f, row, idx) == Ok(Some(NoValue)))
  {
    assert w == Width(t, f.vectors[row].dim);
  }

  /** And what the other kinds of sub-field do; rows past the end of a column count nothing and give no key. */
  lemma OtherFieldIs(f: SubField, row: nat, idx: nat)
    ensures f.ArrayField? ==> FieldCount(f, row) == Ok(if row < |f.scalars| && f.scalars[row].Filled? then |f.scalars[row].data| else 0)
    ensures f.ArrayField? && row < |f.scalars| && (f.scalars[row].Vacant? || idx >= |f.scalars[row].data|) ==>
              FieldAt(f, row, idx) == Ok(Some(NoValue))
    ensures (f.ArrayField? && row >= |f.scalars|) || (f.VectorArrayField? && row >= |f.vectors|) ==>
              FieldAt(f, row, idx) == Ok(None) && FieldCount(f, row) == Ok(0)
    ensures f.VectorArrayField? && row < |f.vectors| && f.element in {None, Some(SparseFloatVector)} ==>
              FieldAt(f, row, idx) == Ok(Some(NoValue)) && FieldCount(f, row) == Ok(0)
    ensures f.OtherField? ==> FieldAt(f, row, idx) == Err(ParamError) && FieldCount(f, row) == Ok(0)
  {
  }

  lemma {:induction false} StructStops(fields: seq<SubField>, row: nat, idx: nat, i: nat)
    requires i < |fields| && FieldAt(fields[i], row, idx).Err?
    requires StructAt(fields[..i], row, idx).Ok?
    ensures StructAt(fields, row, idx) == Err(FieldAt(fields[i], row, idx).error)
  {
    if i == |fields| - 1 {
      assert fields[..i] == fields[..|fields| - 1];
    } else {
      assert fields[..|fields| - 1][..i] == fields[..i];
      StructStops(fields[..|fields| - 1], row, idx, i);
    }
  }

  lemma {:induction false} StructsStop(fields: seq<SubField>, row: nat, n: nat, i: nat)
    requires i < n && StructAt(fields, row, i).Err? && Structs(fields, row, i).Ok?
    ensures Structs(fields, row, n) == Err(StructAt(fields, row, i).error)
  {
    if i < n - 1 {
      StructsStop(fields, row, n - 1, i);
    }
  }

  /** The first loop: the number of structs in the row. */
  method NumStructs(fields: seq<SubField>, row: nat) returns (r: Result<nat, Error>)
    ensures r == Count(fields, row)
  {
    for i := 0 to |fields|
      invariant Count(fields, row) == Count(fields[i..], row)
    {
      assert fields[i..][1..] == fields[i + 1..];
      var n := 0;
      var f := fields[i];
      if f.ArrayField? && row < |f.scalars| {
        n := GetArrayLength(f.scalars[row]);
      } else if f.VectorArrayField? && row < |f.vectors| {
        var w := if Known(f.element) then Width(f.element.value, f.vectors[row].dim) else 1;
        if w == 0 {
          return Err(ZeroDivision);
        }
        n := if Known(f.element) then Quotient(|f.vectors[row].In(f.element.value)|, w) else 0;
      }
      if n > 0 {
        return Ok(n);
      }
    }
    r := Ok(0);
  }

  /** The inner loop of the second: one struct. */
  method BuildStruct(fields: seq<SubField>, row: nat, idx: nat) returns (r: Result<Rebuilt, Error>)
    ensures r == StructAt(fields, row, idx)
  {
    var built: Rebuilt := Empty();
    for i := 0 to |fields|
      invariant StructAt(fields[..i], row, idx) == Ok(built)
    {
      var f := fields[i];
      assert fields[..i + 1][..i] == fields[..i];
      if f.OtherField? {
        StructStops(fields, row, idx, i);
        return Err(ParamError);
      }
      if f.ArrayField? {
        if row < |f.scalars| {
          var v := GetArrayValueAtIndex(f.scalars[row], idx);
          built := built.Set(f.name, v);
        }
      } else if row < |f.vectors| {
        built := built.Set(f.name, VectorAt(f.vectors[row], f.element, idx));
      }
    }
    assert fields[..|fields|] == fields;
    r := Ok(built);
  }

  /** `extract_struct_array_from_column_data`; `None` for a missing message. */
  method ExtractStructArray(message: Option<seq<SubField>>, row: nat) returns (r: Result<seq<Rebuilt>, Error>)
    ensures r == if message.None? then Ok([]) else Extract(message.value, row)
  {
    if message.None? {
      return Ok([]);
    }
    var n := NumStructs(message.value, row);
    if n.Err? {
      return Err(n.error);
    }
    var all: seq<Rebuilt> := [];
    for i := 0 to n.value
      invariant Structs(message.value, row, i) == Ok(all)
    {
      var one := BuildStruct(message.value, row, i);
      if one.Err? {
        StructsStop(message.value, row, n.value, i);
        return Err(one.error);
      }
      all := all + [one.value];
    }
    r := Ok(all);
  }

  // ---- The round trip.

  /** The element types the converters know. */
  predicate Supported(info: SubInfo)
  {
    match info.kind
    case OfScalars(e) => SlotOf(e).Some?
    case OfVectors(t, _) => !t.SparseFloatVector?
  }

  /** A value the sub-field takes: of its kind, and for a vector an accepted form of the field's width. */
  predicate Takes(info: SubInfo, v: Value)
  {
    match info.kind
    case OfScalars(_) => v.ScalarValue?
    case OfVectors(t, dim) => v.VectorValue? && Accepted(t, v.form) && |v.cells| == Width(t, dim)
  }

  ghost predicate RowTakes(info: SubInfo, structs: seq<Struct>)
  {
    Supported(info) && forall j | 0 <= j < |structs| :: info.name in structs[j] && Takes(info, structs[j][info.name])
  }

  ghost predicate RowsTake(info: SubInfo, rows: seq<seq<Struct>>)
  {
    Supported(info) && forall r | 0 <= r < |rows| :: RowTakes(info, rows[r])
  }

  /** The values of one sub-field in the structs of one row, in order. */
  ghost function Gather(info: SubInfo, structs: seq<Struct>): (vs: seq<Value>)
    requires RowTakes(info, structs)
    ensures |vs| == |structs| && forall j | 0 <= j < |vs| :: vs[j] == structs[j][info.name]
  {
    seq(|structs|, j requires 0 <= j < |structs| => structs[j][info.name])
  }

  function Scalars(values: seq<Value>): seq<Scalar>
    requires forall j | 0 <= j < |values| :: values[j].ScalarValue?
  {
    seq(|values|, j requires 0 <= j < |values| => values[j].v)
  }

  ghost function ScalarRow(info: SubInfo, structs: seq<Struct>): ScalarField
    requires RowTakes(info, structs) && info.kind.OfScalars?
  {
    EncodeScalars(Scalars(Gather(info, structs)), info.kind.element).value
  }

  ghost function VectorRow(info: SubInfo, structs: seq<Struct>): VectorField
    requires RowTakes(info, structs) && info.kind.OfVectors?
  {
    EncodeVectors(Gather(info, structs), info.kind.vtype, info.kind.dim).value
  }

  /** The sub-field's column: every row converted in turn. The element type is the server's to fill in. */
  ghost function Split(info: SubInfo, rows: seq<seq<Struct>>): SubField
    requires RowsTake(info, rows)
  {
    match info.kind
    case OfScalars(_) => ArrayField(info.name, seq(|rows|, r requires 0 <= r < |rows| => ScalarRow(info, rows[r])))
    case OfVectors(t, _) =>
      VectorArrayField(info.name, Some(t), seq(|rows|, r requires 0 <= r < |rows| => VectorRow(info, rows[r])))
  }

  ghost predicate AllTake(infos: seq<SubInfo>, rows: seq<seq<Struct>>)
  {
    && (forall k | 0 <= k < |infos| :: RowsTake(infos[k], rows))
    && (forall i, k | 0 <= i < k < |infos| :: infos[i].name != infos[k].name)
  }

  ghost function SplitAll(infos: seq<SubInfo>, rows: seq<seq<Struct>>): seq<SubField>
    requires AllTake(infos, rows)
  {
    seq(|infos|, k requires 0 <= k < |infos| => Split(infos[k], rows))
  }

  /** The user gets the value back: a scalar itself, a float vector as the list of its words, an int8 one as
      the list of its bytes, a binary one as a list of one byte string, a 16-bit one as the list of its words. */
  ghost predicate ComesBackAs(info: SubInfo, v: Value, d: Decoded)
    requires Takes(info, v)
  {
    if info.kind.OfScalars? then d == Plain(v.v)
    else
      var t := info.kind.vtype;
      && (t.FloatVector? ==> d == Floats(v.cells))
      && (t.Int8Vector? ==> d == Bytes(v.cells))
      && (t.BinaryVector? ==> d == OneBytes(v.cells))
      && (t.Float16Vector? || t.BFloat16Vector? ==>
            && d.Halves? && |d.pairs| == |v.cells| / 2 && |v.cells| % 2 == 0
            && forall i | 0 <= i < |d.pairs| :: d.pairs[i] == (v.cells[2 * i], v.cells[2 * i + 1]))
  }

  /** What comes back determines the value, but for the form it was given in. */
  lemma ComesBackOnce(info: SubInfo, v: Value, u: Value, d: Decoded)
    requires Takes(info, v) && Takes(info, u) && Supported(info) && ComesBackAs(info, v, d) && ComesBackAs(info, u, d)
    ensures if info.kind.OfScalars? then v == u else v.cells == u.cells
  {
    if info.kind.OfVectors? && d.Halves? {
      forall i | 0 <= i < |v.cells| ensures v.cells[i] == u.cells[i] {
        assert d.pairs[i / 2] == (v.cells[2 * (i / 2)], v.cells[2 * (i / 2) + 1]);
      }
    }
  }

  ghost function CountOf(info: SubInfo, n: nat): Result<nat, Error>
  {
    if ZeroWidth(info) then Err(ZeroDivision) else Ok(n)
  }

  predicate ZeroWidth(info: SubInfo)
  {
    info.kind.OfVectors? && Width(info.kind.vtype, info.kind.dim) == 0
  }

  lemma SplitCount(info: SubInfo, rows: seq<seq<Struct>>, r: nat)
    requires RowsTake(info, rows) && r < |rows|
    ensures FieldCount(Split(info, rows), r) == CountOf(info, |rows[r]|)
  {
    if info.kind.OfVectors? && !ZeroWidth(info) {
      var vs := AsVectors(Gather(info, rows[r]));
      var w := Width(info.kind.vtype, info.kind.dim);
      FlattenLength(vs, w);
      MulDiv(|vs|, w);
    }
  }

  lemma ShapeComesBack(info: SubInfo, v: Value)
    requires Takes(info, v) && info.kind.OfVectors? && Supported(info)
    ensures IsHalf(info.kind.vtype) ==> |v.cells| % 2 == 0
    ensures ComesBackAs(info, v, Shape(info.kind.vtype, v.cells))
  {
  }

  /** The slice of vector `j` in the flat row. */
  lemma SliceAt(info: SubInfo, structs: seq<Struct>, j: nat)
    requires RowTakes(info, structs) && info.kind.OfVectors? && j < |structs|
    ensures var w, data := Width(info.kind.vtype, info.kind.dim), VectorRow(info, structs).cells;
            j * w + w <= |data| && data[j * w..j * w + w] == structs[j][info.name].cells
  {
    var vs := AsVectors(Gather(info, structs));
    var w := Width(info.kind.vtype, info.kind.dim);
    FlattenAt(vs, w, j);
    assert (j + 1) * w == j * w + w;
  }

  lemma VectorGives(info: SubInfo, structs: seq<Struct>, j: nat)
    requires RowTakes(info, structs) && info.kind.OfVectors? && j < |structs|
    ensures IsHalf(info.kind.vtype) ==> |structs[j][info.name].cells| % 2 == 0
    ensures VectorAt(VectorRow(info, structs), Some(info.kind.vtype), j) == Shape(info.kind.vtype, structs[j][info.name].cells)
  {
    SliceAt(info, structs, j);
    assert RowTakes(info, structs) && Takes(info, structs[j][info.name]);
    SlicedOut(VectorRow(info, structs), info.kind.vtype, j, structs[j][info.name].cells);
  }

  lemma SlicedOut(vf: VectorField, t: VectorType, idx: nat, cells: seq<nat>)
    requires vf.slot == t && !t.SparseFloatVector?
    requires var w := Width(t, vf.dim); idx * w + w <= |vf.cells| && vf.cells[idx * w..idx * w + w] == cells
    ensures IsHalf(t) ==> |cells| % 2 == 0
    ensures VectorAt(vf, Some(t), idx) == Shape(t, cells)
  {
  }

  lemma ScalarGives(info: SubInfo, structs: seq<Struct>, j: nat)
    requires RowTakes(info, structs) && info.kind.OfScalars? && j < |structs|
    ensures ValueAt(ScalarRow(info, structs), j) == Plain(structs[j][info.name].v)
  {
  }

  lemma SplitAt(info: SubInfo, rows: seq<seq<Struct>>, r: nat, j: nat)
    requires RowsTake(info, rows) && r < |rows| && j < |rows[r]|
    ensures FieldGives(info, Split(info, rows), rows[r][j], r, j)
  {
    assert RowTakes(info, rows[r]);
    if info.kind.OfVectors? {
      VectorGives(info, rows[r], j);
      ShapeComesBack(info, rows[r][j][info.name]);
    } else {
      ScalarGives(info, rows[r], j);
    }
  }

  /** The sub-field's cell for this row and struct is the value of the struct. */
  ghost predicate FieldGives(info: SubInfo, f: SubField, s: Struct, row: nat, idx: nat)
  {
    var d := FieldAt(f, row, idx);
    && f.name == info.name && info.name in s && Takes(info, s[info.name])
    && d.Ok? && d.value.Some? && ComesBackAs(info, s[info.name], d.value.value)
  }

  /** Splitting, with the converters. */
  method SplitSubField(info: SubInfo, rows: seq<seq<Struct>>) returns (f: SubField)
    requires RowsTake(info, rows)
    ensures f == Split(info, rows)
  {
    var scalars: seq<ScalarField> := [];
    var vectors: seq<VectorField> := [];
    for r := 0 to |rows|
      invariant info.kind.OfScalars? ==> ArrayField(info.name, scalars) == Split(info, rows[..r])
      invariant info.kind.OfVectors? ==> VectorArrayField(info.name, Some(info.kind.vtype), vectors) == Split(info, rows[..r])
    {
      var structs := rows[r];
      assert RowTakes(info, structs);
      var values := seq(|structs|, j requires 0 <= j < |structs| && RowTakes(info, structs) => structs[j][info.name]);
      assert values == Gather(info, structs);
      if info.kind.OfScalars? {
        var one := ConvertToArray(Scalars(values), info.kind.element);
        scalars := scalars + [one.value];
      } else {
        var one := ConvertToArrayOfVector(values, info.kind.vtype, info.kind.dim);
        vectors := vectors + [one.value];
      }
    }
    assert rows[..|rows|] == rows;
    f := if info.kind.OfScalars? then ArrayField(info.name, scalars) else VectorArrayField(info.name, Some(info.kind.vtype), vectors);
  }

  function CountOfAll(infos: seq<SubInfo>, n: nat): Result<nat, Error>
  {
    if infos == [] then Ok(0)
    else if ZeroWidth(infos[0]) then Err(ZeroDivision)
    else if n > 0 then Ok(n)
    else CountOfAll(infos[1..], n)
  }

  lemma {:induction false} SplitCounts(infos: seq<SubInfo>, rows: seq<seq<Struct>>, r: nat)
    requires AllTake(infos, rows) && r < |rows|
    ensures Count(SplitAll(infos, rows), r) == CountOfAll(infos, |rows[r]|)
  {
    if infos != [] {
      SplitCount(infos[0], rows, r);
      assert SplitAll(infos, rows)[1..] == SplitAll(infos[1..], rows);
      SplitCounts(infos[1..], rows, r);
    }
  }

  function Names(infos: seq<SubInfo>): seq<string>
  {
    seq(|infos|, k requires 0 <= k < |infos| => infos[k].name)
  }

  /** `d` has the sub-fields as keys, in order, and the values of `s`. */
  ghost predicate IsRebuilt(infos: seq<SubInfo>, s: Struct, d: Rebuilt)
  {
    && d.order == Names(infos)
    && (forall x :: x in d.data <==> x in Names(infos))
    && forall k | 0 <= k < |infos| :: IsShown(infos[k], s, d)
  }

  ghost predicate IsShown(info: SubInfo, s: Struct, d: Rebuilt)
  {
    info.name in s && Takes(info, s[info.name]) && info.name in d.data && ComesBackAs(info, s[info.name], d.data[info.name])
  }

  lemma StructAtLast(fields: seq<SubField>, row: nat, idx: nat)
    requires fields != []
    requires var last := FieldAt(fields[|fields| - 1], row, idx); last.Ok? && last.value.Some?
    ensures var m := |fields| - 1;
            var front := StructAt(fields[..m], row, idx);
            front.Ok? ==>
              StructAt(fields, row, idx) == Ok(front.value.Set(fields[m].name, FieldAt(fields[m], row, idx).value.value))
  {
  }

  lemma {:induction false} StructGives(infos: seq<SubInfo>, fields: seq<SubField>, s: Struct, row: nat, idx: nat)
    requires |fields| == |infos| && forall i, k | 0 <= i < k < |infos| :: infos[i].name != infos[k].name
    requires forall k | 0 <= k < |infos| :: FieldGives(infos[k], fields[k], s, row, idx)
    ensures Yields(infos, s, StructAt(fields, row, idx))
  {
    if infos != [] {
      var n := |infos| - 1;
      forall k | 0 <= k < n ensures FieldGives(infos[..n][k], fields[..n][k], s, row, idx) {
        assert FieldGives(infos[k], fields[k], s, row, idx);
      }
      StructGives(infos[..n], fields[..n], s, row, idx);
      assert FieldGives(infos[n], fields[n], s, row, idx);
      StructAtLast(fields, row, idx);
      SetRebuilt(infos, s, StructAt(fields[..n], row, idx).value, FieldAt(fields[n], row, idx).value.value);
    }
  }

  lemma StructRebuilt(infos: seq<SubInfo>, rows: seq<seq<Struct>>, r: nat, j: nat)
    requires AllTake(infos, rows) && r < |rows| && j < |rows[r]|
    ensures StructAt(SplitAll(infos, rows), r, j).Ok?
    ensures IsRebuilt(infos, rows[r][j], StructAt(SplitAll(infos, rows), r, j).value)
  {
    var fields := SplitAll(infos, rows);
    forall k | 0 <= k < |infos| ensures FieldGives(infos[k], fields[k], rows[r][j], r, j) {
      SplitAt(infos[k], rows, r, j);
    }
    StructGives(infos, fields, rows[r][j], r, j);
  }

  lemma SetRebuilt(infos: seq<SubInfo>, s: Struct, front: Rebuilt, d: Decoded)
    requires infos != [] && (forall i, k | 0 <= i < k < |infos| :: infos[i].name != infos[k].name)
    requires var last := infos[|infos| - 1]; last.name in s && Takes(last, s[last.name]) && ComesBackAs(last, s[last.name], d)
    requires IsRebuilt(infos[..|infos| - 1], s, front)
    ensures var last := infos[|infos| - 1]; IsRebuilt(infos, s, front.Set(last.name, d))
  {
    var n, last := |infos| - 1, infos[|infos| - 1];
    assert Names(infos) == Names(infos[..n]) + [last.name];
    assert last.name !in Names(infos[..n]);
    forall k | 0 <= k < n ensures IsShown(infos[k], s, front.Set(last.name, d)) {
      assert IsShown(infos[..n][k], s, front);
    }
  }

  /** The result is the list of structs. */
  ghost predicate Rebuilds(infos: seq<SubInfo>, structs: seq<Struct>, r: Result<seq<Rebuilt>, Error>)
  {
    r.Ok? && |r.value| == |structs| && forall j | 0 <= j < |structs| :: IsRebuilt(infos, structs[j], r.value[j])
  }

  lemma OneMoreRebuilt(infos: seq<SubInfo>, structs: seq<Struct>, ds: seq<Rebuilt>, s: Struct, d: Rebuilt)
    requires Rebuilds(infos, structs, Ok(ds)) && IsRebuilt(infos, s, d)
    ensures Rebuilds(infos, structs + [s], Ok(ds + [d]))
  {
  }

  ghost predicate Yields(infos: seq<SubInfo>, s: Struct, r: Result<Rebuilt, Error>)
  {
    r.Ok? && IsRebuilt(infos, s, r.value)
  }

  lemma StructsNext(infos: seq<SubInfo>, fields: seq<SubField>, row: nat, structs: seq<Struct>, j: nat)
    requires j < |structs| && Rebuilds(infos, structs[..j], Structs(fields, row, j))
    requires Yields(infos, structs[j], StructAt(fields, row, j))
    ensures Rebuilds(infos, structs[..j + 1], Structs(fields, row, j + 1))
  {
    OneMoreRebuilt(infos, structs[..j], Structs(fields, row, j).value, structs[j], StructAt(fields, row, j).value);
    assert structs[..j + 1] == structs[..j] + [structs[j]];
  }

  lemma {:induction false} StructsRebuilt(infos: seq<SubInfo>, fields: seq<SubField>, row: nat, structs: seq<Struct>, n: nat)
    requires n <= |structs|
    requires forall j: nat {:trigger Yields(infos, structs[j], StructAt(fields, row, j))} | j < n ::
               Yields(infos, structs[j], StructAt(fields, row, j))
    ensures Rebuilds(infos, structs[..n], Structs(fields, row, n))
  {
    if n > 0 {
      var j: nat := n - 1;
      StructsRebuilt(infos, fields, row, structs, j);
      assert Yields(infos, structs[j], StructAt(fields, row, j));
      StructsNext(infos, fields, row, structs, j);
    }
  }

  /** When a row of `n` structs can be rebuilt: an empty row if no vector sub-field has width zero, another
      one if there is a sub-field and the first has a width. */
  predicate Decodable(infos: seq<SubInfo>, n: nat)
  {
    if n == 0 then forall k | 0 <= k < |infos| :: !ZeroWidth(infos[k])
    else infos != [] && !ZeroWidth(infos[0])
  }

  lemma {:induction false} DecodableIff(infos: seq<SubInfo>, n: nat)
    ensures CountOfAll(infos, n) == Ok(n) <==> Decodable(infos, n)
    ensures CountOfAll(infos, n) in {Ok(n), Ok(0), Err(ZeroDivision)}
  {
    if infos != [] {
      DecodableIff(infos[1..], n);
      if n == 0 && !ZeroWidth(infos[0]) && Decodable(infos[1..], 0) {
        assert forall k | 0 <= k < |infos| :: k == 0 || infos[k] == infos[1..][k - 1];
      }
    }
  }

  /** Splitting lists of structs into columns and rebuilding any row returns that row, the empty list
      included, if and only if the row is decodable. */
  lemma RoundTripIff(infos: seq<SubInfo>, rows: seq<seq<Struct>>, r: nat)
    requires AllTake(infos, rows) && r < |rows|
    ensures Rebuilds(infos, rows[r], Extract(SplitAll(infos, rows), r)) <==> Decodable(infos, |rows[r]|)
  {
    var n := |rows[r]|;
    SplitCounts(infos, rows, r);
    DecodableIff(infos, n);
    var fields := SplitAll(infos, rows);
    forall j: nat | j < n ensures Yields(infos, rows[r][j], StructAt(fields, r, j)) {
      StructRebuilt(infos, rows, r, j);
    }
    StructsRebuilt(infos, fields, r, rows[r], n);
    assert rows[r][..n] == rows[r];
    if CountOfAll(infos, n) == Ok(0) && n > 0 {
      assert Extract(SplitAll(infos, rows), r) == Ok([]);
    }
  }

  /** With at least one sub-field and no zero width every row comes back. */
  lemma RoundTrip(infos: seq<SubInfo>, rows: seq<seq<Struct>>, r: nat)
    requires AllTake(infos, rows) && r < |rows| && infos != []
    requires forall k | 0 <= k < |infos| :: !ZeroWidth(infos[k])
    ensures Rebuilds(infos, rows[r], Extract(SplitAll(infos, rows), r))
  {
    RoundTripIff(infos, rows, r);
  }

  // ---- Other columns.

  lemma {:induction false} OtherFieldStops(fields: seq<SubField>, row: nat, idx: nat)
    requires exists k :: 0 <= k < |fields| && fields[k].OtherField?
    ensures StructAt(fields, row, idx) == Err(ParamError)
  {
    var m := |fields| - 1;
    if k :| 0 <= k < m && fields[k].OtherField? {
      assert fields[..m][k].OtherField?;
      OtherFieldStops(fields[..m], row, idx);
    } else {
      OnlyParamError(fields[..m], row, idx);
    }
  }

  lemma {:induction false} OnlyParamError(fields: seq<SubField>, row: nat, idx: nat)
    ensures StructAt(fields, row, idx).Err? ==> StructAt(fields, row, idx).error == ParamError
  {
    if fields != [] {
      OnlyParamError(fields[..|fields| - 1], row, idx);
    }
  }

  /** A sub-field of another type is an error as soon as there is a struct to build. */
  lemma {:induction false} OtherFieldRaises(fields: seq<SubField>, row: nat, n: nat)
    requires (exists k :: 0 <= k < |fields| && fields[k].OtherField?) && n > 0
    ensures Structs(fields, row, n) == Err(ParamError)
  {
    OtherFieldStops(fields, row, 0);
    if n > 1 {
      OtherFieldRaises(fields, row, n - 1);
    }
  }
}

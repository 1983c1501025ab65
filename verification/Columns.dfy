/** Vector columns: `entity_to_field_data` (column-wise encoder), `extract_row_data_from_fields_data`
    (row decoder over compacted nullable columns) and `len_of`.
    A cell is a float32 bit pattern for float vectors and a byte for the byte-based types. */
module Columns {
  import opened Prelude
  import opened PyDicts
  import Sparse

  datatype VectorType =
    | FloatVector | BinaryVector | Float16Vector | BFloat16Vector | Int8Vector | SparseFloatVector

  datatype Vector = Dense(cells: seq<nat>) | SparseRow(pairs: seq<Sparse.Pair>)

  /** The `data` oneof of a vector field. */
  datatype Payload = Unset | Cells(cells: seq<nat>) | Contents(rows: seq<seq<Sparse.Byte>>)

  /** `present` says that the `vectors` member of the field oneof is set. */
  datatype Column = Column(vtype: VectorType, validData: seq<bool>, present: bool, dim: int, payload: Payload)

  datatype FieldInfo = FieldInfo(nullable: bool, hasDefault: bool, dim: nat) {
    predicate Masked() { nullable || hasDefault }
  }

  datatype Error = DataNotMatch | ParamError | IndexError | ZeroDivision | InvalidLength | UnknownType | Overflow

  predicate IsHalf(t: VectorType) { t.Float16Vector? || t.BFloat16Vector? }

  predicate Typed(t: VectorType, v: Vector) { v.SparseRow? <==> t.SparseFloatVector? }

  predicate AllTyped(t: VectorType, values: seq<Option<Vector>>)
  {
    forall i | 0 <= i < |values| && values[i].Some? :: Typed(t, values[i].value)
  }

  /** The `dim` the encoders derive from a vector of `n` cells. */
  function DimOf(t: VectorType, n: nat): nat
  {
    match t
    case BinaryVector => n * 8
    case Float16Vector | BFloat16Vector => n / 2
    case _ => n
  }

  /** The number of cells the decoder takes for one row. */
  function Width(t: VectorType, dim: nat): nat
  {
    match t
    case BinaryVector => dim / 8
    case Float16Vector | BFloat16Vector => dim * 2
    case _ => dim
  }

  // ---- Encoding.

  function Compact(values: seq<Option<Vector>>): seq<Vector>
  {
    if values == [] then []
    else
      var front, last := Compact(values[..|values| - 1]), values[|values| - 1];
      if last.Some? then front + [last.value] else front
  }

  function Flatten(vs: seq<Vector>): seq<nat>
    requires forall i | 0 <= i < |vs| :: vs[i].Dense?
  {
    if vs == [] then [] else Flatten(vs[..|vs| - 1]) + vs[|vs| - 1].cells
  }

  predicate HasNull(values: seq<Option<Vector>>) { exists i :: 0 <= i < |values| && values[i].None? }

  function ValidMask(info: FieldInfo, values: seq<Option<Vector>>, numRows: nat): seq<bool>
  {
    if !info.Masked() then []
    else if values == [] then seq(numRows, _ => false)
    else seq(|values|, i requires 0 <= i < |values| => values[i].Some?)
  }

  /** The exception that a refused sparse row raises. */
  function RowError(e: Sparse.Error): Error { if e.Overflow? then Overflow else ParamError }

  /** The contents of a sparse column, or a refusal if some row is refused. */
  function EncodeRows(vs: seq<Vector>): Result<seq<seq<Sparse.Byte>>, Error>
    requires forall i | 0 <= i < |vs| :: vs[i].SparseRow?
  {
    if vs == [] then Ok([])
    else
      var front, last := EncodeRows(vs[..|vs| - 1]), Sparse.Encode(vs[|vs| - 1].pairs);
      if front.Err? then front
      else if last.Err? then Err(RowError(last.error))
      else Ok(front.value + [last.value])
  }

  /** `dim` of a sparse column: one more than the largest last-given index. */
  function SparseDim(vs: seq<Vector>): int
    requires forall i | 0 <= i < |vs| :: vs[i].SparseRow?
  {
    if vs == [] then 0
    else
      var pairs := vs[|vs| - 1].pairs;
      Max(SparseDim(vs[..|vs| - 1]), if pairs == [] then 0 else pairs[|pairs| - 1].index + 1)
  }

  lemma {:induction false} CompactTyped(t: VectorType, values: seq<Option<Vector>>)
    requires AllTyped(t, values)
    ensures forall i | 0 <= i < |Compact(values)| :: Typed(t, Compact(values)[i])
  {
    if values != [] {
      CompactTyped(t, values[..|values| - 1]);
    }
  }

  function Encode(t: VectorType, info: FieldInfo, values: seq<Option<Vector>>, numRows: nat): Result<Column, Error>
    requires AllTyped(t, values)
  {
    CompactTyped(t, values);
    var valid, kept := ValidMask(info, values, numRows), Compact(values);
    if !info.Masked() && HasNull(values) then Err(if t.SparseFloatVector? then ParamError else DataNotMatch)
    else if !t.SparseFloatVector? then
      var dim := if kept != [] then DimOf(t, |kept[0].cells|) else info.dim;
      Ok(Column(t, valid, true, dim, Cells(Flatten(kept))))
    else if kept == [] then Ok(Column(t, valid, false, 0, Unset))
    else
      var rows := EncodeRows(kept);
      if rows.Err? then Err(rows.error) else Ok(Column(t, valid, true, SparseDim(kept), Contents(rows.value)))
  }

  /** `entity_to_field_data` on a vector field. */
  method EntityToFieldData(t: VectorType, info: FieldInfo, values: seq<Option<Vector>>, numRows: nat)
    returns (r: Result<Column, Error>)
    requires AllTyped(t, values)
    ensures r == Encode(t, info, values, numRows)
  {
    CompactTyped(t, values);
    var valid: seq<bool> := [];
    var kept: seq<Vector> := [];
    if info.Masked() && |values| == 0 {
      valid := seq(numRows, _ => false);
    } else {
      var i := 0;
      while i < |values|
        invariant 0 <= i <= |values|
        invariant info.Masked() || !HasNull(values[..i])
        invariant info.Masked() ==> valid == seq(i, j requires 0 <= j < i => values[j].Some?)
        invariant !info.Masked() ==> valid == []
        invariant kept == Compact(values[..i])
      {
        assert values[..i + 1][..i] == values[..i];
        if info.Masked() {
          valid := valid + [values[i].Some?];
        } else if values[i].None? {
          return Err(if t.SparseFloatVector? then ParamError else DataNotMatch);
        }
        if values[i].Some? {
          kept := kept + [values[i].value];
        }
        i := i + 1;
      }
      assert values[..i] == values;
    }
    assert kept == Compact(values) && valid == ValidMask(info, values, numRows);
    if !t.SparseFloatVector? {
      var cells := Join(kept);
      var dim := if |kept| > 0 then DimOf(t, |kept[0].cells|) else info.dim;
      r := Ok(Column(t, valid, true, dim, Cells(cells)));
    } else if |kept| == 0 {
      r := Ok(Column(t, valid, false, 0, Unset));
    } else {
      var rows := SparseRowsToProto(kept);
      r := if rows.Err? then Err(rows.error) else Ok(Column(t, valid, true, rows.value.1, Contents(rows.value.0)));
    }
  }

  /** The flattening comprehension, and `b"".join`. */
  method Join(vs: seq<Vector>) returns (cells: seq<nat>)
    requires forall i | 0 <= i < |vs| :: vs[i].Dense?
    ensures cells == Flatten(vs)
  {
    cells := [];
    var i := 0;
    while i < |vs|
      invariant 0 <= i <= |vs|
      invariant cells == Flatten(vs[..i])
    {
      assert vs[..i + 1][..i] == vs[..i];
      cells := cells + vs[i].cells;
      i := i + 1;
    }
    assert vs[..i] == vs;
  }

  /** The row loop of `sparse_rows_to_proto`: contents and `dim`. */
  method SparseRowsToProto(vs: seq<Vector>) returns (r: Result<(seq<seq<Sparse.Byte>>, int), Error>)
    requires forall i | 0 <= i < |vs| :: vs[i].SparseRow?
    ensures r.Ok? <==> EncodeRows(vs).Ok?
    ensures r.Ok? ==> r.value.0 == EncodeRows(vs).value && r.value.1 == SparseDim(vs)
    ensures r.Err? ==> r.error == EncodeRows(vs).error
  {
    var rows, dim, i := [], 0, 0;
    while i < |vs|
      invariant 0 <= i <= |vs|
      invariant EncodeRows(vs[..i]) == Ok(rows) && dim == SparseDim(vs[..i])
    {
      assert vs[..i + 1][..i] == vs[..i];
      var bytes := Sparse.SparseFloatRowToBytes(vs[i].pairs);
      if bytes.Err? {
        EncodeRowsStops(vs, i + 1);
        return Err(RowError(bytes.error));
      }
      rows := rows + [bytes.value];
      var pairs := vs[i].pairs;
      dim := Max(dim, if |pairs| > 0 then pairs[|pairs| - 1].index + 1 else 0);
      i := i + 1;
    }
    assert vs[..i] == vs;
    r := Ok((rows, dim));
  }

  lemma {:induction false} EncodeRowsStops(vs: seq<Vector>, n: nat)
    requires n <= |vs| && forall i | 0 <= i < |vs| :: vs[i].SparseRow?
    requires EncodeRows(vs[..n]).Err?
    ensures EncodeRows(vs) == EncodeRows(vs[..n])
    decreases |vs|
  {
    if n == |vs| {
      assert vs[..n] == vs;
    } else {
      assert vs[..|vs| - 1][..n] == vs[..n];
      EncodeRowsStops(vs[..|vs| - 1], n);
    }
  }

  // ---- Row decoding.

  /** A decoded cell of the result row. `Absent` means that the key is not set. */
  datatype Decoded = Null | FloatList(cells: seq<nat>) | BytesList(bytes: seq<nat>) | SparseMap(m: PyDict<int, Sparse.U32>) | Absent

  function CountValid(valid: seq<bool>): nat
  {
    if valid == [] then 0 else CountValid(valid[..|valid| - 1]) + if valid[|valid| - 1] then 1 else 0
  }

  /** Where the vector of row `i` is stored: one place per valid row before it. */
  function PhysicalIndex(valid: seq<bool>, i: nat): nat
    requires valid == [] || i <= |valid|
  {
    if valid == [] then i else CountValid(valid[..i])
  }

  function CellsOf(c: Column): seq<nat> { if c.payload.Cells? then c.payload.cells else [] }

  function Rendered(t: VectorType, cells: seq<nat>): Decoded
  {
    if t.FloatVector? then FloatList(cells) else BytesList(cells)
  }

  /** The value stored at place `p`. */
  function DecodeStored(c: Column, p: nat): Result<Decoded, Error>
    requires c.dim >= 0
  {
    if c.vtype.SparseFloatVector? then
      if c.payload.Contents? && p < |c.payload.rows| then
        var d := Sparse.Decode(c.payload.rows[p]);
        if d.Ok? then Ok(SparseMap(d.value)) else Err(ParamError)
      else Err(IndexError)
    else
      var w := Width(c.vtype, c.dim);
      if |CellsOf(c)| >= (p + 1) * w then
        SliceInRange(p, w, |CellsOf(c)|);
        Ok(Rendered(c.vtype, CellsOf(c)[p * w..(p + 1) * w]))
      else Ok(Absent)
  }

  function DecodeRow(c: Column, i: nat): Result<Decoded, Error>
    requires c.dim >= 0
  {
    if c.validData != [] && i >= |c.validData| then Err(IndexError)
    else if c.validData != [] && !c.validData[i] then Ok(Null)
    else DecodeStored(c, PhysicalIndex(c.validData, i))
  }

  lemma SliceInRange(p: nat, w: nat, n: nat)
    requires n >= (p + 1) * w
    ensures 0 <= p * w <= (p + 1) * w <= n
  {
    assert (p + 1) * w == p * w + w;
  }

  function PrefixSums(valid: seq<bool>): (sums: seq<nat>)
    ensures |sums| == |valid| + 1
    ensures forall i | 0 <= i <= |valid| :: sums[i] == CountValid(valid[..i])
  {
    if valid == [] then [0]
    else
      var n := |valid| - 1;
      var front := PrefixSums(valid[..n]);
      assert forall i | 0 <= i <= n :: valid[..n][..i] == valid[..i];
      assert valid[..|valid|] == valid;
      front + [front[n] + if valid[n] then 1 else 0]
  }

  /** The protobuf message, with an identity. */
  class FieldData {
    const vtype: VectorType
    var validData: seq<bool>
    var present: bool
    var dim: nat
    var payload: Payload

    constructor (t: VectorType)
      ensures View() == Column(t, [], false, 0, Unset)
    {
      vtype, validData, present, dim, payload := t, [], false, 0, Unset;
    }

    function View(): Column
      reads this
    {
      Column(vtype, validData, present, dim, payload)
    }
  }

  /** One call of `extract_row_data_from_fields_data`: it caches one prefix sum per message. */
  class RowExtractor {
    var prefixSumCache: map<FieldData, Option<seq<nat>>>

    constructor ()
      ensures Valid() && prefixSumCache == map[]
    {
      prefixSumCache := map[];
    }

    ghost predicate Valid()
      reads this, prefixSumCache.Keys
    {
      forall fd | fd in prefixSumCache ::
        prefixSumCache[fd] == if fd.validData == [] then None else Some(PrefixSums(fd.validData))
    }

    method GetPhysicalIndex(fd: FieldData, i: nat) returns (p: nat)
      requires Valid() && (fd.validData == [] || i <= |fd.validData|)
      modifies this
      ensures Valid() && prefixSumCache.Keys == old(prefixSumCache.Keys) + {fd}
      ensures p == PhysicalIndex(fd.validData, i)
    {
      if fd !in prefixSumCache {
        if |fd.validData| == 0 {
          prefixSumCache := prefixSumCache[fd := None];
        } else {
          var sums := CumulativeSum(fd.validData);
          prefixSumCache := prefixSumCache[fd := Some(sums)];
        }
      }
      match prefixSumCache[fd]
      case None => p := i;
      case Some(sums) => p := sums[i];
    }

    method ReadStored(fd: FieldData, phys: nat) returns (r: Result<Decoded, Error>)
      ensures r == DecodeStored(fd.View(), phys)
    {
      if fd.vtype.SparseFloatVector? {
        var contents := if fd.payload.Contents? then fd.payload.rows else [];
        if phys >= |contents| {
          return Err(IndexError);
        }
        var d := Sparse.SparseParseSingleRow(contents[phys]);
        r := if d.Ok? then Ok(SparseMap(d.value)) else Err(ParamError);
      } else {
        var perRow, data := Width(fd.vtype, fd.dim), CellsOf(fd.View());
        if |data| >= (phys + 1) * perRow {
          SliceInRange(phys, perRow, |data|);
          r := Ok(Rendered(fd.vtype, data[phys * perRow..(phys + 1) * perRow]));
        } else {
          r := Ok(Absent);
        }
      }
    }

    /** The vector branches of `check_append`. */
    method CheckAppend(fd: FieldData, index: nat) returns (r: Result<Decoded, Error>)
      requires Valid()
      modifies this
      ensures Valid()
      ensures r == DecodeRow(fd.View(), index)
    {
      if |fd.validData| > 0 {
        if index >= |fd.validData| {
          return Err(IndexError);
        }
        if !fd.validData[index] {
          return Ok(Null);
        }
      }
      var phys := GetPhysicalIndex(fd, index);
      r := ReadStored(fd, phys);
    }
  }

  /** `np.cumsum` of the flags, after a leading zero. */
  method CumulativeSum(valid: seq<bool>) returns (sums: seq<nat>)
    ensures sums == PrefixSums(valid)
  {
    sums := [0];
    for j := 0 to |valid|
      invariant sums == PrefixSums(valid[..j])
    {
      assert valid[..j + 1][..j] == valid[..j];
      sums := sums + [sums[j] + if valid[j] then 1 else 0];
    }
    assert valid[..|valid|] == valid;
  }

  /** Any dense column, however long its buffer is: row `i` is the slice that its place and the row width say,
      or is left unset when the buffer ends before. */
  lemma DenseRowIs(c: Column, i: nat, cells: seq<nat>, p: nat, w: nat)
    requires c.dim >= 0 && !c.vtype.SparseFloatVector? && c.payload == Cells(cells)
    requires c.validData != [] ==> i < |c.validData| && c.validData[i]
    requires p == PhysicalIndex(c.validData, i)
    requires w == if c.vtype.BinaryVector? then c.dim / 8
                  else if c.vtype.Float16Vector? || c.vtype.BFloat16Vector? then 2 * c.dim else c.dim
    ensures if |cells| < (p + 1) * w then DecodeRow(c, i) == Ok(Absent)
            else 0 <= p * w <= (p + 1) * w <= |cells| &&
                 DecodeRow(c, i) ==
                   Ok(if c.vtype.FloatVector? then FloatList(cells[p * w..(p + 1) * w]) else BytesList(cells[p * w..(p + 1) * w]))
  {
    assert w == Width(c.vtype, c.dim);
    if |cells| >= (p + 1) * w {
      SliceInRange(p, w, |cells|);
    }
  }

  /** The errors of the decoder: a row past a mask, a sparse row that is not stored, and one that is no list of
      records. A null row is None. */
  lemma RowErrors(c: Column, i: nat)
    requires c.dim >= 0
    ensures DecodeRow(c, i) == Ok(Null) <==> c.validData != [] && i < |c.validData| && !c.validData[i]
    ensures DecodeRow(c, i) == Err(IndexError) <==>
            || (c.validData != [] && i >= |c.validData|)
            || (c.vtype.SparseFloatVector? && (c.validData == [] || c.validData[i])
                && (!c.payload.Contents? || PhysicalIndex(c.validData, i) >= |c.payload.rows|))
    ensures DecodeRow(c, i) == Err(ParamError) <==>
            && c.vtype.SparseFloatVector? && (c.validData == [] || (i < |c.validData| && c.validData[i]))
            && c.payload.Contents? && PhysicalIndex(c.validData, i) < |c.payload.rows|
            && |c.payload.rows[PhysicalIndex(c.validData, i)]| % 8 != 0
    ensures DecodeRow(c, i).Err? ==> DecodeRow(c, i).error in {IndexError, ParamError}
  {
  }

  // ---- Round trip.

  /** Every vector of the column has `n` cells. */
  predicate Uniform(values: seq<Option<Vector>>, n: nat)
  {
    forall i | 0 <= i < |values| && values[i].Some? :: values[i].value.Dense? && |values[i].value.cells| == n
  }

  /** The valid rows before row `i` are exactly the vectors stored before its own. */
  lemma {:induction false} CompactAt(values: seq<Option<Vector>>, i: nat)
    requires i < |values| && values[i].Some?
    ensures |Compact(values[..i])| < |Compact(values)|
    ensures Compact(values)[|Compact(values[..i])|] == values[i].value
    decreases |values|
  {
    var n := |values| - 1;
    if i < n {
      assert values[..n][..i] == values[..i];
      CompactAt(values[..n], i);
    }
  }

  lemma {:induction false} CountMask(values: seq<Option<Vector>>, mask: seq<bool>, i: nat)
    requires i <= |values| == |mask| && forall j | 0 <= j < |mask| :: mask[j] == values[j].Some?
    ensures CountValid(mask[..i]) == |Compact(values[..i])|
  {
    if i > 0 {
      CountMask(values, mask, i - 1);
      assert mask[..i][..i - 1] == mask[..i - 1] && values[..i][..i - 1] == values[..i - 1];
    }
  }

  lemma {:induction false} CompactUniform(values: seq<Option<Vector>>, n: nat)
    requires Uniform(values, n)
    ensures forall i | 0 <= i < |Compact(values)| :: Compact(values)[i].Dense? && |Compact(values)[i].cells| == n
  {
    if values != [] {
      CompactUniform(values[..|values| - 1], n);
    }
  }

  lemma {:induction false} CompactNoNull(values: seq<Option<Vector>>)
    requires !HasNull(values)
    ensures |Compact(values)| == |values|
  {
    if values != [] {
      assert forall i | 0 <= i < |values| :: values[i].Some?;
      CompactNoNull(values[..|values| - 1]);
    }
  }

  /** Slice `p` of a flat buffer of equal-length vectors is vector `p`. */
  lemma {:induction false} FlattenAt(vs: seq<Vector>, n: nat, p: nat)
    requires forall i | 0 <= i < |vs| :: vs[i].Dense? && |vs[i].cells| == n
    requires p < |vs|
    ensures |Flatten(vs)| == |vs| * n && (p + 1) * n <= |vs| * n && p * n <= (p + 1) * n
    ensures Flatten(vs)[p * n..(p + 1) * n] == vs[p].cells
    decreases |vs|
  {
    var m := |vs| - 1;
    FlattenLength(vs, n);
    FlattenLength(vs[..m], n);
    assert (p + 1) * n == p * n + n && |vs| * n == m * n + n;
    if p < m {
      FlattenAt(vs[..m], n, p);
    }
  }

  lemma {:induction false} FlattenLength(vs: seq<Vector>, n: nat)
    requires forall i | 0 <= i < |vs| :: vs[i].Dense? && |vs[i].cells| == n
    ensures |Flatten(vs)| == |vs| * n
  {
    if vs != [] {
      FlattenLength(vs[..|vs| - 1], n);
      assert |vs| * n == (|vs| - 1) * n + n;
    }
  }

  /** Where row `i` of an encoded column is stored. */
  lemma StoredAt(t: VectorType, info: FieldInfo, values: seq<Option<Vector>>, numRows: nat, i: nat)
    requires AllTyped(t, values) && Encode(t, info, values, numRows).Ok?
    requires i < |values|
    ensures var c := Encode(t, info, values, numRows).value;
            && (c.validData == [] || |c.validData| == |values|)
            && (c.validData != [] && !c.validData[i] <==> values[i].None?)
            && (values[i].Some? ==> PhysicalIndex(c.validData, i) == |Compact(values[..i])|)
  {
    if info.Masked() {
      CountMask(values, ValidMask(info, values, numRows), i);
    } else {
      CompactNoNull(values[..i]);
    }
  }

  /** Nullable and plain dense columns: decoding row `i` gives the value that was encoded, or null.
      For the 16-bit types this holds for a non-null row exactly when vectors have an even byte length. */
  lemma DenseRoundTrip(t: VectorType, info: FieldInfo, values: seq<Option<Vector>>, numRows: nat, n: nat, i: nat)
    requires !t.SparseFloatVector? && Uniform(values, n) && i < |values|
    requires Encode(t, info, values, numRows).Ok?
    ensures values[i].None? ==> DecodeRow(Encode(t, info, values, numRows).value, i) == Ok(Null)
    ensures values[i].Some? && t.FloatVector? ==>
              DecodeRow(Encode(t, info, values, numRows).value, i) == Ok(FloatList(values[i].value.cells))
    ensures values[i].Some? && !t.FloatVector? ==>
              (DecodeRow(Encode(t, info, values, numRows).value, i) == Ok(BytesList(values[i].value.cells))
               <==> !IsHalf(t) || n % 2 == 0)
  {
    var c := Encode(t, info, values, numRows).value;
    StoredAt(t, info, values, numRows, i);
    if values[i].Some? {
      CompactAt(values, i);
      CompactUniform(values, n);
      StoredRoundTrip(t, c, Compact(values), n, |Compact(values[..i])|);
    }
  }

  // ---- The message itself, as the server reads it.

  /** One flag a row in a masked column, `numRows` nulls when it is omitted, and no flags otherwise. `dim`
      counts elements: bits of a binary vector, pairs of bytes of a 16-bit one; with no vector it is the
      schema's. */
  lemma EncodedHeader(t: VectorType, info: FieldInfo, values: seq<Option<Vector>>, numRows: nat, n: nat)
    requires !t.SparseFloatVector? && Uniform(values, n) && Encode(t, info, values, numRows).Ok?
    ensures var c := Encode(t, info, values, numRows).value;
            && c.vtype == t && c.present
            && |c.validData| == (if !info.nullable && !info.hasDefault then 0 else if values == [] then numRows else |values|)
            && (forall i | 0 <= i < |c.validData| :: c.validData[i] <==> i < |values| && values[i].Some?)
            && ((forall i | 0 <= i < |values| :: values[i].None?) ==> c.dim == info.dim)
            && ((exists i :: 0 <= i < |values| && values[i].Some?) ==>
                  && (t.BinaryVector? ==> c.dim == 8 * n)
                  && (t.FloatVector? || t.Int8Vector? ==> c.dim == n)
                  && (t.Float16Vector? || t.BFloat16Vector? ==> 2 * c.dim == n - n % 2))
  {
    CompactUniform(values, n);
    CompactEmptyIff(values);
  }

  lemma {:induction false} CompactEmptyIff(values: seq<Option<Vector>>)
    ensures Compact(values) == [] <==> forall i | 0 <= i < |values| :: values[i].None?
  {
    if values != [] {
      var m := |values| - 1;
      CompactEmptyIff(values[..m]);
      assert (forall i | 0 <= i < |values| :: values[i].None?) ==> forall i | 0 <= i < m :: values[..m][i].None?;
      assert forall i | 0 <= i < m :: values[..m][i] == values[i];
    }
  }

  /** A dense column is refused exactly for a null without a mask. */
  lemma DenseRefusedIff(t: VectorType, info: FieldInfo, values: seq<Option<Vector>>, numRows: nat)
    requires !t.SparseFloatVector? && AllTyped(t, values)
    ensures Encode(t, info, values, numRows).Err? <==>
            !info.nullable && !info.hasDefault && exists i :: 0 <= i < |values| && values[i].None?
    ensures Encode(t, info, values, numRows).Err? ==> Encode(t, info, values, numRows).error == DataNotMatch
  {
  }

  /** A sparse column is refused exactly for a null without a mask, or a row that the row encoder refuses. */
  lemma SparseRefusedIff(info: FieldInfo, values: seq<Option<Vector>>, numRows: nat)
    requires AllTyped(SparseFloatVector, values)
    ensures Encode(SparseFloatVector, info, values, numRows).Err? <==>
            || (!info.nullable && !info.hasDefault && exists i :: 0 <= i < |values| && values[i].None?)
            || exists i :: 0 <= i < |values| && values[i].Some? && !Sparse.AllAcceptable(values[i].value.pairs)
    ensures Encode(SparseFloatVector, info, values, numRows).Err? ==>
              Encode(SparseFloatVector, info, values, numRows).error in {ParamError, Overflow}
  {
    CompactTyped(SparseFloatVector, values);
    RowsRefusedIff(Compact(values));
    forall v ensures v in Compact(values) <==> Some(v) in values {
      CompactMember(values, v);
    }
    if i :| 0 <= i < |Compact(values)| && !Sparse.AllAcceptable(Compact(values)[i].pairs) {
      assert Compact(values)[i] in Compact(values);
      var j :| 0 <= j < |values| && values[j] == Some(Compact(values)[i]);
    }
    if i :| 0 <= i < |values| && values[i].Some? && !Sparse.AllAcceptable(values[i].value.pairs) {
      assert values[i].value in Compact(values);
    }
  }

  lemma {:induction false} CompactMember(values: seq<Option<Vector>>, v: Vector)
    ensures v in Compact(values) <==> Some(v) in values
  {
    if values != [] {
      CompactMember(values[..|values| - 1], v);
      assert values == values[..|values| - 1] + [values[|values| - 1]];
    }
  }

  lemma {:induction false} RowsRefusedIff(vs: seq<Vector>)
    requires forall i | 0 <= i < |vs| :: vs[i].SparseRow?
    ensures EncodeRows(vs).Err? <==> exists i :: 0 <= i < |vs| && !Sparse.AllAcceptable(vs[i].pairs)
    ensures EncodeRows(vs).Err? ==> EncodeRows(vs).error in {ParamError, Overflow}
  {
    if vs != [] {
      var m := |vs| - 1;
      RowsRefusedIff(vs[..m]);
      Sparse.EncodeAccepts(vs[m].pairs);
      assert forall i | 0 <= i < m :: vs[..m][i] == vs[i];
    }
  }

  /** The first refused row decides: what it raises is an overflow when every pair passes the two checks. */
  lemma {:induction false} FirstRefusedRow(vs: seq<Vector>, i: nat)
    requires (forall j | 0 <= j < |vs| :: vs[j].SparseRow?) && i < |vs|
    requires !Sparse.AllAcceptable(vs[i].pairs) && forall j | 0 <= j < i :: Sparse.AllAcceptable(vs[j].pairs)
    ensures EncodeRows(vs) ==
            Err(if forall p | p in vs[i].pairs :: 0 <= p.index < 0xFFFF_FFFF && !p.value.NaN? then Overflow else ParamError)
  {
    var m := |vs| - 1;
    if i < m {
      FirstRefusedRow(vs[..m], i);
    } else {
      RowsRefusedIff(vs[..m]);
      WhichError(vs[m].pairs);
    }
  }

  lemma WhichError(row: seq<Sparse.Pair>)
    requires !Sparse.AllAcceptable(row)
    ensures Sparse.Encode(row).Err?
    ensures Sparse.Encode(row).error.Overflow? <==> forall p | p in row :: 0 <= p.index < 0xFFFF_FFFF && !p.value.NaN?
  {
    Sparse.EncodeAccepts(row);
    assert Sparse.AllPass(row) <==> forall p | p in row :: Sparse.Passes(p);
  }

  /** `dim` of a sparse column covers the last-given index of every row, and is no larger than that needs. */
  lemma {:induction false} SparseDimIsMax(vs: seq<Vector>)
    requires forall i | 0 <= i < |vs| :: vs[i].SparseRow?
    ensures SparseDim(vs) >= 0
    ensures forall i | 0 <= i < |vs| && vs[i].pairs != [] :: vs[i].pairs[|vs[i].pairs| - 1].index < SparseDim(vs)
    ensures SparseDim(vs) == 0 ||
            exists i :: 0 <= i < |vs| && vs[i].pairs != [] && vs[i].pairs[|vs[i].pairs| - 1].index == SparseDim(vs) - 1
  {
    if vs != [] {
      var m := |vs| - 1;
      SparseDimIsMax(vs[..m]);
      assert forall i | 0 <= i < m :: vs[..m][i] == vs[i];
    }
  }

  lemma StoredRoundTrip(t: VectorType, c: Column, kept: seq<Vector>, n: nat, p: nat)
    requires !t.SparseFloatVector? && c.vtype == t && c.dim == DimOf(t, n)
    requires forall i | 0 <= i < |kept| :: kept[i].Dense? && |kept[i].cells| == n
    requires c.payload == Cells(Flatten(kept)) && p < |kept|
    ensures DecodeStored(c, p) == Ok(Rendered(t, kept[p].cells)) <==> !IsHalf(t) || n % 2 == 0
  {
    var w := Width(t, c.dim);
    FlattenAt(kept, n, p);
    if !IsHalf(t) || n % 2 == 0 {
      assert w == n;
    } else {
      assert w == n - 1;
      ShortSlice(c, n, p);
    }
  }

  /** A row read with too small a width is not the stored row. */
  lemma ShortSlice(c: Column, n: nat, p: nat)
    requires !c.vtype.SparseFloatVector? && c.dim >= 0 && Width(c.vtype, c.dim) == n - 1
    requires |CellsOf(c)| >= (p + 1) * n
    ensures forall cells: seq<nat> | |cells| == n :: DecodeStored(c, p) != Ok(Rendered(c.vtype, cells))
  {
    var w := n - 1;
    assert (p + 1) * n == (p + 1) * w + (p + 1);
    SliceInRange(p, w, |CellsOf(c)|);
    assert (p + 1) * w == p * w + w;
  }

  lemma EncodeRowsLast(vs: seq<Vector>, rows: seq<seq<Sparse.Byte>>)
    requires (forall i | 0 <= i < |vs| :: vs[i].SparseRow?) && vs != [] && EncodeRows(vs) == Ok(rows)
    ensures rows != [] && EncodeRows(vs[..|vs| - 1]) == Ok(rows[..|rows| - 1])
    ensures Sparse.Encode(vs[|vs| - 1].pairs) == Ok(rows[|rows| - 1])
  {
  }

  lemma {:induction false} EncodeRowsAt(vs: seq<Vector>, rows: seq<seq<Sparse.Byte>>, p: nat)
    requires forall i | 0 <= i < |vs| :: vs[i].SparseRow?
    requires EncodeRows(vs) == Ok(rows) && p < |vs| == |rows|
    ensures Sparse.Encode(vs[p].pairs) == Ok(rows[p])
    decreases |vs|
  {
    var m := |vs| - 1;
    EncodeRowsLast(vs, rows);
    if p < m {
      EncodeRowsAt(vs[..m], rows[..m], p);
    }
  }

  lemma {:induction false} EncodeRowsLength(vs: seq<Vector>)
    requires forall i | 0 <= i < |vs| :: vs[i].SparseRow?
    ensures EncodeRows(vs).Ok? ==> |EncodeRows(vs).value| == |vs|
  {
    if vs != [] {
      EncodeRowsLength(vs[..|vs| - 1]);
    }
  }

  /** Nullable and plain sparse columns: decoding row `i` gives the last-value-wins map of that row. */
  lemma SparseRoundTrip(info: FieldInfo, values: seq<Option<Vector>>, numRows: nat, i: nat)
    requires AllTyped(SparseFloatVector, values) && i < |values|
    requires Encode(SparseFloatVector, info, values, numRows).Ok?
    ensures Encode(SparseFloatVector, info, values, numRows).value.dim >= 0
    ensures var r := DecodeRow(Encode(SparseFloatVector, info, values, numRows).value, i);
            if values[i].None? then r == Ok(Null)
            else r.Ok? && r.value.SparseMap? && Sparse.IsLastWinsMap(r.value.m, values[i].value.pairs)
  {
    var t := SparseFloatVector;
    CompactTyped(t, values);
    SparseDimIsMax(Compact(values));
    StoredAt(t, info, values, numRows, i);
    if values[i].Some? {
      CompactAt(values, i);
      EncodeRowsLength(Compact(values));
      EncodeRowsAt(Compact(values), EncodeRows(Compact(values)).value, |Compact(values[..i])|);
      Sparse.RoundTrip(values[i].value.pairs);
    }
  }

  // ---- `len_of`.

  function LenOf(c: Column): Result<int, Error>
  {
    if !c.present then Err(UnknownType)
    else if c.validData != [] then Ok(|c.validData|)
    else
      match c.payload
      case Contents(rows) => Ok(|rows|)
      case Cells(cells) => DenseLen(c.vtype, |cells|, c.dim)
      case Unset => DenseLen(BinaryVector, 0, c.dim)
  }

  function DenseLen(t: VectorType, total: nat, dim: int): Result<int, Error>
  {
    if dim == 0 then Err(ZeroDivision)
    else
      match t
      case FloatVector => if total % dim != 0 then Err(InvalidLength) else Ok(total / dim)
      case Float16Vector | BFloat16Vector => if total % (dim * 2) != 0 then Err(InvalidLength) else Ok(total / (dim * 2))
      case Int8Vector => Ok(total / dim)
      case _ => Ok((total as real / (dim as real / 8.0)).Floor)
  }

  /** The rows an encoded column stands for: an omitted nullable column counts as `numRows` nulls. */
  function RowsOf(info: FieldInfo, values: seq<Option<Vector>>, numRows: nat): nat
  {
    if info.Masked() && values == [] then numRows else |values|
  }

  lemma MulDiv(n: nat, k: nat)
    requires k > 0
    ensures (n * k) / k == n && (n * k) % k == 0
  {
    var q, r := (n * k) / k, (n * k) % k;
    assert n * k == k * q + r;
    assert k * (n - q) == r;
    Multiple(k, n - q);
  }

  lemma Multiple(k: int, a: int)
    requires k > 0
    ensures a >= 1 ==> k * a >= k
    ensures a <= -1 ==> k * a <= -k
  {
  }

  lemma OddWidth(m: nat, n: nat)
    requires m > 0 && n > 1
    ensures !((m * n) % (n - 1) == 0 && (m * n) / (n - 1) == m)
  {
    var q, r := (m * n) / (n - 1), (m * n) % (n - 1);
    assert m * n == (n - 1) * q + r;
    assert m * n == (n - 1) * m + m;
  }

  /** `len_of` is the number of rows exactly when the column is masked and not empty, or the vector
      width is a whole number of elements: only 16-bit columns of odd byte length get it wrong. */
  lemma DenseLenAgrees(t: VectorType, info: FieldInfo, values: seq<Option<Vector>>, numRows: nat, n: nat)
    requires !t.SparseFloatVector? && Uniform(values, n) && n > 0 && info.dim > 0
    requires Encode(t, info, values, numRows).Ok?
    ensures var rows := RowsOf(info, values, numRows);
            LenOf(Encode(t, info, values, numRows).value) == Ok(rows)
            <==> rows == 0 || info.Masked() || !IsHalf(t) || n % 2 == 0
  {
    var c := Encode(t, info, values, numRows).value;
    CompactUniform(values, n);
    FlattenLength(Compact(values), n);
    if c.validData == [] {
      if values == [] {
        assert |CellsOf(c)| == 0;
      } else {
        CompactNoNull(values);
        PlainLen(t, |values|, n);
      }
    }
  }

  lemma RealLen(m: nat, n: nat)
    requires n > 0
    ensures (m * n) as real / ((n * 8) as real / 8.0) == m as real
  {
    assert (n * 8) as real / 8.0 == n as real;
    assert (m * n) as real == m as real * n as real;
  }

  lemma PlainLen(t: VectorType, m: nat, n: nat)
    requires !t.SparseFloatVector? && m > 0 && n > 0
    ensures DenseLen(t, m * n, DimOf(t, n)) == Ok(m) <==> !IsHalf(t) || n % 2 == 0
  {
    MulDiv(m, n);
    if t.BinaryVector? {
      RealLen(m, n);
    } else if IsHalf(t) && n % 2 == 1 {
      assert DimOf(t, n) * 2 == n - 1;
      if n > 1 {
        OddWidth(m, n);
      }
    } else if IsHalf(t) {
      assert DimOf(t, n) * 2 == n;
    }
  }

  /** A sparse column has a length only when some row of it is not null: with none, the column-wise
      encoder never sets the `vectors` member, and `len_of` reports an unknown data type. */
  lemma SparseLenAgrees(info: FieldInfo, values: seq<Option<Vector>>, numRows: nat)
    requires AllTyped(SparseFloatVector, values)
    requires Encode(SparseFloatVector, info, values, numRows).Ok?
    ensures LenOf(Encode(SparseFloatVector, info, values, numRows).value)
            == if Compact(values) == [] then Err(UnknownType) else Ok(RowsOf(info, values, numRows))
  {
    CompactTyped(SparseFloatVector, values);
    if Compact(values) != [] {
      EncodeRowsLength(Compact(values));
      if !info.Masked() {
        CompactNoNull(values);
      }
    }
  }
}

/** Row-wise packing of byte-vector fields: `pack_field_value_to_field_data` collects chunks in a cache
    keyed by the identity of the message, and `flush_vector_bytes` joins them at the end. */
module RowPacking {
  import opened Prelude
  import opened Columns

  datatype DType = Float16 | BFloat16 | Int8 | UInt8
  type Bytes = seq<nat>

  /** A byte-vector value of an input row. */
  datatype PyVector = PyBytes(raw: Bytes) | NdArray(dtype: DType, raw: Bytes) {
    /** Python's `len`. */
    function Len(): nat { if NdArray? && (dtype.Float16? || dtype.BFloat16?) then |raw| / 2 else |raw| }
  }

  predicate IsByteVector(t: VectorType) { !t.FloatVector? && !t.SparseFloatVector? }

  /** The type checks in front of packing. */
  predicate Accepted(t: VectorType, v: PyVector)
  {
    match t
    case BinaryVector => true
    case Float16Vector => v.PyBytes? || v.dtype.Float16?
    case BFloat16Vector => v.PyBytes? || v.dtype.BFloat16?
    case _ => v.NdArray? && v.dtype.Int8?
  }

  function PackedDim(t: VectorType, v: PyVector): nat
  {
    match t
    case BinaryVector => v.Len() * 8
    case Float16Vector | BFloat16Vector => |v.raw| / 2
    case _ => |v.raw|
  }

  // ---- What the values of one field amount to, whatever was packed in between.

  function Chunks(values: seq<Option<PyVector>>): seq<Bytes>
  {
    if values == [] then []
    else
      var front, last := Chunks(values[..|values| - 1]), values[|values| - 1];
      if last.Some? then front + [last.value.raw] else front
  }

  function Concat(chunks: seq<Bytes>): Bytes
  {
    if chunks == [] then [] else Concat(chunks[..|chunks| - 1]) + chunks[|chunks| - 1]
  }

  function RowDim(t: VectorType, schemaDim: nat, values: seq<Option<PyVector>>): nat
  {
    if values == [] then 0
    else
      var front, last := RowDim(t, schemaDim, values[..|values| - 1]), values[|values| - 1];
      if last.Some? then PackedDim(t, last.value) else if front == 0 then schemaDim else front
  }

  function Mask(info: FieldInfo, values: seq<Option<PyVector>>): seq<bool>
  {
    if info.Masked() then seq(|values|, i requires 0 <= i < |values| => values[i].Some?) else []
  }

  /** The message before and after the flush. */
  function Unflushed(t: VectorType, info: FieldInfo, values: seq<Option<PyVector>>): Column
  {
    Column(t, Mask(info, values), values != [], RowDim(t, info.dim, values), Unset)
  }

  function RowWise(t: VectorType, info: FieldInfo, values: seq<Option<PyVector>>): Column
  {
    var chunks := Chunks(values);
    Unflushed(t, info, values).(payload := if chunks == [] then Unset else Cells(Concat(chunks)))
  }

  // ---- The cache and the two operations on it.

  class VectorBytesCache {
    var lists: map<FieldData, seq<Bytes>>

    constructor ()
      ensures lists == map[]
    {
      lists := map[];
    }

    /** What the cache holds for a field with these chunks: nothing at all if there are none. */
    ghost predicate Holds(fd: FieldData, chunks: seq<Bytes>)
      reads this
    {
      if chunks == [] then fd !in lists else fd in lists && lists[fd] == chunks
    }
  }

  /** Bytes go anywhere but into an int8 field; an array must have the field's element type, unless the field
      is binary. */
  predicate IllTyped(t: VectorType, v: PyVector)
  {
    || (t.Float16Vector? && v.NdArray? && !v.dtype.Float16?)
    || (t.BFloat16Vector? && v.NdArray? && !v.dtype.BFloat16?)
    || (t.Int8Vector? && (v.PyBytes? || !v.dtype.Int8?))
  }

  /** Eight bits an element of a binary vector, the elements of an array of 16-bit floats having two bytes;
      two bytes an element of a 16-bit float vector; one of an int8 vector. */
  function ValueDim(t: VectorType, v: PyVector): nat
    requires IsByteVector(t)
  {
    if t.BinaryVector? && v.NdArray? && v.dtype in {Float16, BFloat16} then 8 * (|v.raw| / 2)
    else if t.BinaryVector? then 8 * |v.raw|
    else if t.Int8Vector? then |v.raw|
    else |v.raw| / 2
  }

  /** `pack_field_value_to_field_data` on a byte-vector field, after the mask was extended by its caller. */
  method PackFieldValue(value: Option<PyVector>, fd: FieldData, info: FieldInfo, cache: VectorBytesCache,
                        ghost values: seq<Option<PyVector>>)
    returns (err: Option<Error>)
    requires IsByteVector(fd.vtype)
    requires fd.View() == Unflushed(fd.vtype, info, values).(validData := Mask(info, values + [value]))
    requires cache.Holds(fd, Chunks(values))
    modifies fd, cache
    ensures err.Some? <==> value.Some? && IllTyped(fd.vtype, value.value)
    ensures err.Some? ==> fd.View() == old(fd.View()) && cache.lists == old(cache.lists)
    ensures err.None? ==> fd.dim == if value.Some? then ValueDim(fd.vtype, value.value) else if old(fd.dim) == 0 then info.dim else old(fd.dim)
    ensures err.None? ==> fd.View() == Unflushed(fd.vtype, info, values + [value])
    ensures err.None? ==> cache.Holds(fd, Chunks(values + [value]))
    ensures forall f | f in cache.lists && f != fd :: f in old(cache.lists) && cache.lists[f] == old(cache.lists)[f]
    ensures forall f | f in old(cache.lists) && f != fd :: f in cache.lists
  {
    err := None;
    assert (values + [value])[..|values|] == values;
    if value.None? {
      if fd.dim == 0 {
        fd.dim := info.dim;
        fd.present := true;
      }
    } else {
      if !Accepted(fd.vtype, value.value) {
        return Some(ParamError);
      }
      fd.dim := PackedDim(fd.vtype, value.value);
      fd.present := true;
      if fd !in cache.lists {
        cache.lists := cache.lists[fd := []];
      }
      cache.lists := cache.lists[fd := cache.lists[fd] + [value.value.raw]];
    }
  }

  /** `b"".join`. */
  method JoinChunks(chunks: seq<Bytes>) returns (all: Bytes)
    ensures all == Concat(chunks)
  {
    all := [];
    var i := 0;
    while i < |chunks|
      invariant 0 <= i <= |chunks|
      invariant all == Concat(chunks[..i])
    {
      assert chunks[..i + 1][..i] == chunks[..i];
      all := all + chunks[i];
      i := i + 1;
    }
    assert chunks[..i] == chunks;
  }

  /** `flush_vector_bytes`. */
  method FlushVectorBytes(fd: FieldData, cache: VectorBytesCache, ghost chunks: seq<Bytes>)
    requires IsByteVector(fd.vtype) && cache.Holds(fd, chunks)
    modifies fd, cache
    ensures cache.lists == old(cache.lists) - {fd}
    ensures fd.View() == if chunks == [] then old(fd.View()) else old(fd.View()).(present := true, payload := Cells(Concat(chunks)))
  {
    if fd !in cache.lists {
      assert cache.lists == cache.lists - {fd};
      return;
    }
    var bytesList := cache.lists[fd];
    cache.lists := cache.lists - {fd};
    if |bytesList| == 0 {
      return;
    }
    var all := JoinChunks(bytesList);
    fd.payload := Cells(all);
    fd.present := true;
  }

  // ---- The two loops over a request.

  datatype Cell = Cell(fd: FieldData, value: Option<PyVector>)

  /** The values given to one field, in order. */
  function ValuesOf(cells: seq<Cell>, fd: FieldData): seq<Option<PyVector>>
  {
    if cells == [] then []
    else
      var front, last := ValuesOf(cells[..|cells| - 1], fd), cells[|cells| - 1];
      if last.fd == fd then front + [last.value] else front
  }

  /** These fields hold what they were given so far, and the cache holds nothing else. */
  ghost predicate Packed(fields: set<FieldData>, infos: map<FieldData, FieldInfo>, cache: VectorBytesCache, cells: seq<Cell>)
    requires fields <= infos.Keys
    reads fields, cache
  {
    && cache.lists.Keys <= fields
    && forall fd | fd in fields ::
         && IsByteVector(fd.vtype)
         && fd.View() == Unflushed(fd.vtype, infos[fd], ValuesOf(cells, fd))
         && cache.Holds(fd, Chunks(ValuesOf(cells, fd)))
  }

  /** A cell whose value fails the type check of its field. */
  predicate Refused(c: Cell)
  {
    c.value.Some? && IllTyped(c.fd.vtype, c.value.value)
  }

  lemma ValuesOfNext(done: seq<Cell>, c: Cell, fd: FieldData)
    ensures ValuesOf(done + [c], fd) == if c.fd == fd then ValuesOf(done, fd) + [c.value] else ValuesOf(done, fd)
  {
    assert (done + [c])[..|done|] == done;
  }

  predicate NoneRefused(cells: seq<Cell>)
  {
    forall i | 0 <= i < |cells| :: !Refused(cells[i])
  }

  lemma NoneRefusedNext(cells: seq<Cell>, i: nat)
    requires i < |cells| && NoneRefused(cells[..i])
    ensures NoneRefused(cells[..i] + [cells[i]]) <==> !Refused(cells[i])
    ensures Refused(cells[i]) ==> !NoneRefused(cells)
  {
    assert (cells[..i] + [cells[i]])[i] == cells[i];
  }

  /** One cell: the caller's mask update, then the packing. */
  method PackCell(ghost fields: set<FieldData>, infos: map<FieldData, FieldInfo>, ghost done: seq<Cell>, c: Cell, cache: VectorBytesCache)
    returns (err: Option<Error>)
    requires c.fd in fields && fields <= infos.Keys && Packed(fields, infos, cache, done)
    modifies c.fd, cache
    ensures err.Some? <==> Refused(c)
    ensures err.None? ==> Packed(fields, infos, cache, done + [c])
  {
    var fd, value := c.fd, c.value;
    if infos[fd].Masked() {
      fd.validData := fd.validData + [value.Some?];
    }
    err := PackFieldValue(value, fd, infos[fd], cache, ValuesOf(done, fd));
    forall f | f in fields ensures ValuesOf(done + [c], f) == if fd == f then ValuesOf(done, f) + [value] else ValuesOf(done, f) {
      ValuesOfNext(done, c, f);
    }
  }

  /** Packs the cells of a request, whatever the interleaving of their fields. */
  method PackCells(ghost fields: set<FieldData>, infos: map<FieldData, FieldInfo>, cells: seq<Cell>, cache: VectorBytesCache)
    returns (err: Option<Error>)
    requires fields <= infos.Keys && Packed(fields, infos, cache, [])
    requires forall i | 0 <= i < |cells| :: cells[i].fd in fields
    modifies fields, cache
    ensures err.None? <==> NoneRefused(cells)
    ensures err.None? ==> Packed(fields, infos, cache, cells)
  {
    err := None;
    var i := 0;
    assert cells[..0] == [];
    while i < |cells|
      invariant 0 <= i <= |cells| && err.None?
      invariant Packed(fields, infos, cache, cells[..i])
      invariant NoneRefused(cells[..i])
    {
      err := PackCell(fields, infos, cells[..i], cells[i], cache);
      TakeNext(cells, i);
      NoneRefusedNext(cells, i);
      if err.Some? {
        return;
      }
      i := i + 1;
    }
    assert cells[..i] == cells;
  }

  lemma TakeNext<T>(s: seq<T>, i: nat)
    requires i < |s|
    ensures s[..i + 1] == s[..i] + [s[i]]
  {
  }

  ghost predicate Flushed(fd: FieldData, infos: map<FieldData, FieldInfo>, cells: seq<Cell>)
    requires fd in infos
    reads fd
  {
    fd.View() == RowWise(fd.vtype, infos[fd], ValuesOf(cells, fd))
  }

  method FlushOne(ghost left: set<FieldData>, fd: FieldData, ghost infos: map<FieldData, FieldInfo>, ghost cells: seq<Cell>,
                  cache: VectorBytesCache)
    requires fd in left && left <= infos.Keys && Packed(left, infos, cache, cells)
    modifies fd, cache
    ensures Packed(left - {fd}, infos, cache, cells) && Flushed(fd, infos, cells)
  {
    FlushVectorBytes(fd, cache, Chunks(ValuesOf(cells, fd)));
  }

  /** The flush loop: every field ends with exactly its own values, and the cache is empty again. */
  method FlushAll(fields: seq<FieldData>, ghost infos: map<FieldData, FieldInfo>, ghost cells: seq<Cell>, cache: VectorBytesCache)
    requires Distinct(fields) && (set fd | fd in fields) <= infos.Keys
    requires Packed((set fd | fd in fields), infos, cache, cells)
    modifies fields, cache
    ensures forall fd | fd in fields :: Flushed(fd, infos, cells)
    ensures cache.lists == map[]
  {
    ghost var left := set fd | fd in fields;
    var i := 0;
    while i < |fields|
      invariant 0 <= i <= |fields|
      invariant left <= infos.Keys && Packed(left, infos, cache, cells)
      invariant forall fd :: fd in left <==> fd in fields[i..]
      invariant forall j | 0 <= j < i :: Flushed(fields[j], infos, cells)
    {
      FlushOne(left, fields[i], infos, cells, cache);
      left := left - {fields[i]};
      i := i + 1;
    }
  }

  /** A whole request: pack all cells, then flush. On success every field holds exactly its own values,
      in order, and the cache is empty; it fails exactly when some value fails its type check. */
  method PackAndFlush(fields: seq<FieldData>, infos: map<FieldData, FieldInfo>, cells: seq<Cell>, cache: VectorBytesCache)
    returns (err: Option<Error>)
    requires Distinct(fields) && (set fd | fd in fields) <= infos.Keys
    requires Packed((set fd | fd in fields), infos, cache, [])
    requires forall i | 0 <= i < |cells| :: cells[i].fd in fields
    modifies fields, cache
    ensures err.None? <==> NoneRefused(cells)
    ensures err.None? ==> cache.lists == map[] && forall fd | fd in fields :: Flushed(fd, infos, cells)
  {
    err := PackCells((set fd | fd in fields), infos, cells, cache);
    if err.None? {
      FlushAll(fields, infos, cells, cache);
    }
  }

  // ---- Row-wise and column-wise encodings agree.

  /** The same column as the column-wise encoder takes it. */
  function AsVectors(values: seq<Option<PyVector>>): (vs: seq<Option<Vector>>)
    ensures |vs| == |values|
    ensures forall i | 0 <= i < |vs| :: vs[i] == if values[i].Some? then Some(Dense(values[i].value.raw)) else None
  {
    seq(|values|, i requires 0 <= i < |values| => if values[i].Some? then Some(Dense(values[i].value.raw)) else None)
  }

  lemma {:induction false} SameCells(values: seq<Option<PyVector>>)
    ensures |Compact(AsVectors(values))| == |Chunks(values)|
    ensures forall i | 0 <= i < |Chunks(values)| :: Compact(AsVectors(values))[i] == Dense(Chunks(values)[i])
  {
    if values != [] {
      var n := |values| - 1;
      assert AsVectors(values)[..n] == AsVectors(values[..n]);
      SameCells(values[..n]);
    }
  }

  lemma {:induction false} SameFlattening(vs: seq<Vector>, chunks: seq<Bytes>)
    requires |vs| == |chunks| && forall i | 0 <= i < |vs| :: vs[i] == Dense(chunks[i])
    ensures Flatten(vs) == Concat(chunks)
  {
    if vs != [] {
      SameFlattening(vs[..|vs| - 1], chunks[..|chunks| - 1]);
    }
  }

  /** Every non-null value has `n` bytes; in a binary field, one byte an element. */
  predicate UniformBytes(t: VectorType, values: seq<Option<PyVector>>, n: nat)
  {
    forall i | 0 <= i < |values| && values[i].Some? ::
      |values[i].value.raw| == n && (t.BinaryVector? && values[i].value.NdArray? ==> values[i].value.dtype in {Int8, UInt8})
  }

  /** The number of elements in `n` bytes is not zero. */
  predicate HasWidth(t: VectorType, n: nat) { n >= if t.Float16Vector? || t.BFloat16Vector? then 2 else 1 }

  lemma UniformDim(t: VectorType, v: PyVector, n: nat)
    requires IsByteVector(t) && |v.raw| == n && (t.BinaryVector? && v.NdArray? ==> v.dtype in {Int8, UInt8})
    ensures PackedDim(t, v) == DimOf(t, n) && (DimOf(t, n) > 0 <==> HasWidth(t, n))
  {
  }

  /** `dim` after row-wise packing, in closed form. */
  lemma {:induction false} RowDimClosed(t: VectorType, schemaDim: nat, values: seq<Option<PyVector>>, n: nat)
    requires IsByteVector(t) && UniformBytes(t, values, n)
    ensures RowDim(t, schemaDim, values) ==
            if values == [] then 0
            else if Chunks(values) == [] then schemaDim
            else if DimOf(t, n) == 0 && values[|values| - 1].None? then schemaDim
            else DimOf(t, n)
  {
    if values != [] {
      var front := values[..|values| - 1];
      RowDimClosed(t, schemaDim, front, n);
      if values[|values| - 1].Some? {
        UniformDim(t, values[|values| - 1].value, n);
      }
      if front != [] && values[|values| - 1].None? && Chunks(front) != [] && DimOf(t, n) == 0 && front[|front| - 1].None? {
        assert RowDim(t, schemaDim, front) == schemaDim;
      }
    }
  }

  /** Row-wise packing and the column-wise encoder give the same mask and the same bytes; with no
      value at all the row-wise message leaves the payload unset. */
  lemma RowBytesAgree(t: VectorType, info: FieldInfo, values: seq<Option<PyVector>>)
    requires IsByteVector(t)
    requires Encode(t, info, AsVectors(values), |values|).Ok?
    ensures var row, col := RowWise(t, info, values), Encode(t, info, AsVectors(values), |values|).value;
            && row.validData == col.validData
            && CellsOf(row) == CellsOf(col)
            && (row.payload == col.payload <==> exists i :: 0 <= i < |values| && values[i].Some?)
  {
    SameCells(values);
    SameFlattening(Compact(AsVectors(values)), Chunks(values));
    ChunksNonempty(values);
  }

  /** For vectors of one length, both give the same `dim` except in these cases: no rows at all, or
      vectors of zero width followed by a null, when the schema's `dim` is not zero. */
  lemma RowDimAgrees(t: VectorType, info: FieldInfo, values: seq<Option<PyVector>>, n: nat)
    requires IsByteVector(t) && UniformBytes(t, values, n)
    requires Encode(t, info, AsVectors(values), |values|).Ok?
    ensures RowWise(t, info, values).dim == Encode(t, info, AsVectors(values), |values|).value.dim
            <==>
            || info.dim == 0
            || (values != [] && ((forall i | 0 <= i < |values| :: values[i].None?) || HasWidth(t, n) || values[|values| - 1].Some?))
  {
    SameCells(values);
    ChunksNonempty(values);
    UniformDim(t, PyBytes(seq(n, _ => 0)), n);
    RowDimClosed(t, info.dim, values, n);
    ChunkLengths(t, values, n);
  }

  lemma {:induction false} ChunksNonempty(values: seq<Option<PyVector>>)
    ensures Chunks(values) != [] <==> exists i :: 0 <= i < |values| && values[i].Some?
  {
    if values != [] {
      ChunksNonempty(values[..|values| - 1]);
    }
  }

  lemma {:induction false} ChunkLengths(t: VectorType, values: seq<Option<PyVector>>, n: nat)
    requires UniformBytes(t, values, n)
    ensures forall i | 0 <= i < |Chunks(values)| :: |Chunks(values)[i]| == n
  {
    if values != [] {
      ChunkLengths(t, values[..|values| - 1], n);
    }
  }
}

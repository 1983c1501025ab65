/** Sparse float vectors: `sparse_rows_to_proto.sparse_float_row_to_bytes` sorts the pairs of a row by
    index and packs them as little-endian (uint32 index, float32 value); `sparse_parse_single_row` is
    its reader. A float32 value is its 32-bit pattern, as the C conversion leaves it; `TooLarge` stands for
    a finite Python float beyond the float32 range, which the checks let pass and `struct.pack` refuses. */
module Sparse {
  import opened Prelude
  import opened PyDicts

  type Byte = x: int | 0 <= x < 256
  type U32 = x: int | 0 <= x < 0x1_0000_0000

  datatype Float = NaN | TooLarge | Num(bits: U32)
  datatype Pair = Pair(index: int, value: Float)
  datatype Error = BadIndex(index: int) | NotANumber | Overflow | BadLength(n: nat)

  const MAX_INDEX := 0xFFFF_FFFF

  // ---- Python's `sorted(key=index)`: stable.

  ghost predicate Sorted(s: seq<Pair>)
  {
    forall i, j | 0 <= i < j < |s| :: s[i].index <= s[j].index
  }

  /** The pairs of one index, in order. */
  function Select(s: seq<Pair>, k: int): seq<Pair>
  {
    if s == [] then []
    else Select(s[..|s| - 1], k) + if s[|s| - 1].index == k then [s[|s| - 1]] else []
  }

  /** Both hold the same pairs for every index, in the same order. */
  ghost predicate SameSelections(a: seq<Pair>, b: seq<Pair>)
  {
    forall k {:trigger SelectedAlike(a, b, k)} :: SelectedAlike(a, b, k)
  }

  ghost predicate SelectedAlike(a: seq<Pair>, b: seq<Pair>, k: int) { Select(a, k) == Select(b, k) }

  lemma SelectLast(s: seq<Pair>, k: int)
    requires s != []
    ensures var front, last := Select(s[..|s| - 1], k), s[|s| - 1];
            Select(s, k) == if last.index == k then front + [last] else front
  {
  }

  function Insert(s: seq<Pair>, p: Pair): seq<Pair>
  {
    if s == [] || s[|s| - 1].index <= p.index then s + [p]
    else Insert(s[..|s| - 1], p) + [s[|s| - 1]]
  }

  function Sort(s: seq<Pair>): seq<Pair>
  {
    if s == [] then [] else Insert(Sort(s[..|s| - 1]), s[|s| - 1])
  }

  lemma {:induction false} InsertSorted(s: seq<Pair>, p: Pair)
    requires Sorted(s)
    ensures Sorted(Insert(s, p))
  {
    if s != [] && s[|s| - 1].index > p.index {
      var front, last := s[..|s| - 1], s[|s| - 1];
      InsertSorted(front, p);
      InsertMembers(front, p);
      assert s == front + [last];
      assert forall q | q in Insert(front, p) :: q.index <= last.index;
    }
  }

  lemma {:induction false} SelectInsert(s: seq<Pair>, p: Pair, k: int)
    ensures Select(Insert(s, p), k) == Select(s, k) + if p.index == k then [p] else []
  {
    if s == [] || s[|s| - 1].index <= p.index {
      assert (s + [p])[..|s|] == s;
    } else {
      var front, last := s[..|s| - 1], s[|s| - 1];
      SelectInsert(front, p, k);
      assert (Insert(front, p) + [last])[..|Insert(front, p)|] == Insert(front, p);
    }
  }

  /** The sort is ordered, and stable: equal indices keep their input order. */
  lemma {:induction false} SortContract(s: seq<Pair>)
    ensures Sorted(Sort(s))
    ensures SameSelections(Sort(s), s)
  {
    if s != [] {
      SortContract(s[..|s| - 1]);
      InsertSorted(Sort(s[..|s| - 1]), s[|s| - 1]);
      forall k ensures SelectedAlike(Sort(s), s, k) {
        assert SelectedAlike(Sort(s[..|s| - 1]), s[..|s| - 1], k);
        SelectInsert(Sort(s[..|s| - 1]), s[|s| - 1], k);
      }
    }
  }

  lemma {:induction false} SelectMember(s: seq<Pair>, k: int)
    ensures forall q :: q in Select(s, k) <==> q in s && q.index == k
  {
    if s != [] {
      SelectMember(s[..|s| - 1], k);
      assert s == s[..|s| - 1] + [s[|s| - 1]];
    }
  }

  /** The largest index of `a` occurs in `b`. */
  lemma LastOccurs(a: seq<Pair>, b: seq<Pair>)
    requires a != [] && Sorted(b) && SameSelections(a, b)
    ensures b != [] && a[|a| - 1].index <= b[|b| - 1].index
  {
    var la := a[|a| - 1];
    assert SelectedAlike(a, b, la.index);
    SelectMember(a, la.index);
    SelectMember(b, la.index);
    assert la in Select(b, la.index);
  }

  /** Dropping the last pair on both sides. */
  lemma SameFronts(a: seq<Pair>, b: seq<Pair>)
    requires a != [] && b != [] && a[|a| - 1].index == b[|b| - 1].index && SameSelections(a, b)
    ensures a[|a| - 1] == b[|b| - 1] && SameSelections(a[..|a| - 1], b[..|b| - 1])
  {
    var fa, fb, la, lb := a[..|a| - 1], b[..|b| - 1], a[|a| - 1], b[|b| - 1];
    SelectLast(a, la.index);
    SelectLast(b, la.index);
    assert SelectedAlike(a, b, la.index);
    var sa, sb := Select(fa, la.index), Select(fb, la.index);
    assert sa + [la] == sb + [lb];
    assert (sa + [la])[|sa|] == la && (sb + [lb])[|sb|] == lb;
    assert sa == (sa + [la])[..|sa|] && sb == (sb + [lb])[..|sb|];
    assert sa == sb;
    forall k ensures SelectedAlike(fa, fb, k) {
      if k != la.index {
        assert SelectedAlike(a, b, k);
        SelectLast(a, k);
        SelectLast(b, k);
      }
    }
  }

  /** Order and stability leave only one result, so any stable sort agrees with `Sort`. */
  lemma {:induction false} StableSortUnique(a: seq<Pair>, b: seq<Pair>)
    requires Sorted(a) && Sorted(b) && SameSelections(a, b)
    ensures a == b
  {
    if a != [] { LastOccurs(a, b); }
    if b != [] { LastOccurs(b, a) by { assert forall k :: SelectedAlike(a, b, k) ==> SelectedAlike(b, a, k); } }
    if a != [] {
      SameFronts(a, b);
      StableSortUnique(a[..|a| - 1], b[..|b| - 1]);
      assert a == a[..|a| - 1] + [a[|a| - 1]] && b == b[..|b| - 1] + [b[|b| - 1]];
    }
  }

  // ---- Packing.

  predicate Acceptable(p: Pair) { 0 <= p.index < MAX_INDEX && p.value.Num? }

  ghost predicate AllAcceptable(s: seq<Pair>) { forall i | 0 <= i < |s| :: Acceptable(s[i]) }

  /** The range check and the NaN check pass. */
  predicate Passes(p: Pair) { 0 <= p.index < MAX_INDEX && !p.value.NaN? }

  ghost predicate AllPass(s: seq<Pair>) { forall i | 0 <= i < |s| :: Passes(s[i]) }

  predicate SomeTooLarge(s: seq<Pair>) { exists i :: 0 <= i < |s| && s[i].value.TooLarge? }

  /** The first pair that the range check or the NaN check refuses. */
  function FirstError(s: seq<Pair>): Option<Error>
  {
    if s == [] then None
    else if !(0 <= s[0].index < MAX_INDEX) then Some(BadIndex(s[0].index))
    else if s[0].value.NaN? then Some(NotANumber)
    else FirstError(s[1..])
  }

  lemma {:induction false} FirstErrorExact(s: seq<Pair>)
    ensures FirstError(s).None? <==> AllPass(s)
  {
    if s != [] {
      FirstErrorExact(s[1..]);
      assert AllPass(s) <==> Passes(s[0]) && AllPass(s[1..]) by {
        assert s == [s[0]] + s[1..];
      }
    }
  }

  function LittleEndian(x: U32): (b: seq<Byte>)
    ensures |b| == 4
  {
    [x % 256, x / 256 % 256, x / 0x1_0000 % 256, x / 0x100_0000]
  }

  function FromLittleEndian(b: seq<Byte>): U32
    requires |b| == 4
  {
    (b[0] as int) + 256 * (b[1] as int) + 0x1_0000 * (b[2] as int) + 0x100_0000 * (b[3] as int)
  }

  lemma LittleEndianRoundTrip(x: U32)
    ensures FromLittleEndian(LittleEndian(x)) == x
  {
    assert x / 0x1_0000 == x / 256 / 256;
    assert x / 0x100_0000 == x / 256 / 256 / 256;
  }

  function PackPair(p: Pair): (b: seq<Byte>)
    requires Acceptable(p)
    ensures |b| == 8
  {
    LittleEndian(p.index) + LittleEndian(p.value.bits)
  }

  function Pack(s: seq<Pair>): (b: seq<Byte>)
    requires AllAcceptable(s)
    ensures |b| == 8 * |s|
  {
    if s == [] then [] else Pack(s[..|s| - 1]) + PackPair(s[|s| - 1])
  }

  /** What the encoder returns for a row. */
  function Encode(row: seq<Pair>): Result<seq<Byte>, Error>
  {
    var s := Sort(row);
    FirstErrorExact(s);
    if FirstError(s).Some? then Err(FirstError(s).value)
    else if SomeTooLarge(s) then Err(Overflow)
    else Ok(Pack(s))
  }

  /** The one `struct.pack` of a row. */
  method PackPairs(sorted: seq<Pair>) returns (r: Result<seq<Byte>, Error>)
    requires AllPass(sorted)
    ensures SomeTooLarge(sorted) ==> r == Err(Overflow)
    ensures !SomeTooLarge(sorted) ==> AllAcceptable(sorted) && r == Ok(Pack(sorted))
  {
    var bytes: seq<Byte> := [];
    var i := 0;
    while i < |sorted|
      invariant 0 <= i <= |sorted|
      invariant AllAcceptable(sorted[..i]) && bytes == Pack(sorted[..i])
    {
      assert sorted[..i + 1][..i] == sorted[..i];
      if sorted[i].value.TooLarge? {
        return Err(Overflow);
      }
      bytes := bytes + PackPair(sorted[i]);
      i := i + 1;
    }
    assert sorted[..i] == sorted;
    r := Ok(bytes);
  }

  /** `sparse_float_row_to_bytes`: the check loop over the sorted pairs, then one pack. */
  method SparseFloatRowToBytes(row: seq<Pair>) returns (r: Result<seq<Byte>, Error>)
    ensures r == Encode(row)
  {
    var sorted := Sort(row);
    FirstErrorExact(sorted);
    var i := 0;
    while i < |sorted|
      invariant 0 <= i <= |sorted|
      invariant FirstError(sorted) == FirstError(sorted[i..])
      invariant AllPass(sorted[..i])
    {
      if !(0 <= sorted[i].index < MAX_INDEX) {
        return Err(BadIndex(sorted[i].index));
      }
      if sorted[i].value.NaN? {
        return Err(NotANumber);
      }
      i := i + 1;
    }
    assert sorted[..i] == sorted;
    r := PackPairs(sorted);
  }

  // ---- Parsing.

  /** The dict comprehension over 8-byte records. */
  function ParseRecords(data: seq<Byte>): PyDict<int, U32>
    requires |data| % 8 == 0
  {
    if data == [] then Empty()
    else AddRecord(ParseRecords(data[..|data| - 8]), data[|data| - 8..])
  }

  function AddRecord(d: PyDict<int, U32>, record: seq<Byte>): PyDict<int, U32>
    requires |record| == 8
  {
    d.Set(FromLittleEndian(record[..4]), FromLittleEndian(record[4..]))
  }

  lemma ParseOne(prefix: seq<Byte>, record: seq<Byte>)
    requires |prefix| % 8 == 0 && |record| == 8
    ensures |prefix + record| % 8 == 0
    ensures ParseRecords(prefix + record) == AddRecord(ParseRecords(prefix), record)
  {
    var data := prefix + record;
    assert data[..|data| - 8] == prefix && data[|data| - 8..] == record;
  }

  function Decode(data: seq<Byte>): Result<PyDict<int, U32>, Error>
  {
    if |data| % 8 != 0 then Err(BadLength(|data|)) else Ok(ParseRecords(data))
  }

  /** `sparse_parse_single_row`. */
  method SparseParseSingleRow(data: seq<Byte>) returns (r: Result<PyDict<int, U32>, Error>)
    ensures r == Decode(data)
  {
    if |data| % 8 != 0 {
      return Err(BadLength(|data|));
    }
    var d := Empty();
    var i := 0;
    while i < |data|
      invariant 0 <= i <= |data| && i % 8 == 0
      invariant d == ParseRecords(data[..i])
    {
      ParseOne(data[..i], data[i..i + 8]);
      assert data[..i + 8] == data[..i] + data[i..i + 8];
      d := AddRecord(d, data[i..i + 8]);
      i := i + 8;
    }
    assert data[..i] == data;
    r := Ok(d);
  }

  // ---- Round trip.

  /** Later pairs win. */
  function LastWins(s: seq<Pair>): PyDict<int, U32>
    requires AllAcceptable(s)
  {
    if s == [] then Empty()
    else LastWins(s[..|s| - 1]).Set(s[|s| - 1].index, s[|s| - 1].value.bits)
  }

  lemma {:induction false} ParsePacked(s: seq<Pair>)
    requires AllAcceptable(s)
    ensures ParseRecords(Pack(s)) == LastWins(s)
  {
    if s != [] {
      var front, last := s[..|s| - 1], s[|s| - 1];
      ParsePacked(front);
      assert Pack(s) == Pack(front) + PackPair(last);
      ParseOne(Pack(front), PackPair(last));
      RecordRoundTrip(last, LastWins(front));
    }
  }

  lemma RecordRoundTrip(p: Pair, d: PyDict<int, U32>)
    requires Acceptable(p)
    ensures AddRecord(d, PackPair(p)) == d.Set(p.index, p.value.bits)
  {
    assert PackPair(p)[..4] == LittleEndian(p.index) && PackPair(p)[4..] == LittleEndian(p.value.bits);
    LittleEndianRoundTrip(p.index);
    LittleEndianRoundTrip(p.value.bits);
  }

  /** `d` holds, with ascending keys, the last value given to each index of `row`. */
  ghost predicate IsLastWinsMap(d: PyDict<int, U32>, row: seq<Pair>)
  {
    && Ascending(d.order)
    && (forall k :: k in d.order <==> k in d.data)
    && (forall k :: HoldsLast(d, row, k))
  }

  ghost predicate HoldsLast(d: PyDict<int, U32>, row: seq<Pair>, k: int)
  {
    var given := Select(row, k);
    && (k in d.data <==> given != [])
    && (k in d.data ==> given[|given| - 1].value == Num(d.data[k]))
  }

  ghost predicate EndsAt(d: PyDict<int, U32>, k: int)
  {
    d.order != [] && d.order[|d.order| - 1] == k
  }

  ghost predicate Ascending(ks: seq<int>) { forall i, j | 0 <= i < j < |ks| :: ks[i] < ks[j] }

  /** Setting an index no smaller than all the keys overwrites the last key or appends a new one. */
  lemma AscendingStep(d: PyDict<int, U32>, k: int, v: U32)
    requires Ascending(d.order) && (forall x :: x in d.order <==> x in d.data)
    requires d.order == [] || d.order[|d.order| - 1] <= k
    ensures Ascending(d.Set(k, v).order) && EndsAt(d.Set(k, v), k)
    ensures forall x :: x in d.Set(k, v).order <==> x in d.Set(k, v).data
  {
    if k in d.order {
      var i :| 0 <= i < |d.order| && d.order[i] == k;
      assert i == |d.order| - 1;
    }
  }

  lemma LastWinsStep(d: PyDict<int, U32>, front: seq<Pair>, last: Pair, k: int)
    requires Acceptable(last) && HoldsLast(d, front, k)
    ensures HoldsLast(d.Set(last.index, last.value.bits), front + [last], k)
  {
    assert (front + [last])[..|front|] == front;
    SelectLast(front + [last], k);
  }

  lemma MapStep(d: PyDict<int, U32>, front: seq<Pair>, last: Pair)
    requires Acceptable(last) && IsLastWinsMap(d, front)
    requires d.order == [] || d.order[|d.order| - 1] <= last.index
    ensures IsLastWinsMap(d.Set(last.index, last.value.bits), front + [last])
    ensures EndsAt(d.Set(last.index, last.value.bits), last.index)
  {
    AscendingStep(d, last.index, last.value.bits);
    forall k ensures HoldsLast(d.Set(last.index, last.value.bits), front + [last], k) {
      LastWinsStep(d, front, last, k);
    }
  }

  lemma {:induction false} LastWinsOfSorted(s: seq<Pair>)
    requires Sorted(s) && AllAcceptable(s)
    ensures IsLastWinsMap(LastWins(s), s)
    ensures s != [] ==> EndsAt(LastWins(s), s[|s| - 1].index)
    ensures s == [] ==> LastWins(s).order == []
  {
    if s != [] {
      var front, last := s[..|s| - 1], s[|s| - 1];
      LastWinsOfSorted(front);
      MapStep(LastWins(front), front, last);
      assert s == front + [last];
    }
  }

  /** The encoder succeeds exactly on rows whose indices are in range and whose values are float32 numbers;
      what passes the checks and is refused is a number beyond that range. */
  lemma EncodeAccepts(row: seq<Pair>)
    ensures Encode(row).Ok? <==> AllAcceptable(row)
    ensures Encode(row) == Err(Overflow) <==> AllPass(row) && SomeTooLarge(row)
    ensures Encode(row).Ok? ==> AllAcceptable(Sort(row)) && Encode(row).value == Pack(Sort(row))
  {
    var s := Sort(row);
    FirstErrorExact(s);
    FirstErrorKind(s);
    SameMembers(row);
    SameVerdicts(s, row);
    assert AllAcceptable(s) <==> AllPass(s) && !SomeTooLarge(s);
  }

  lemma EncodeRange(row: seq<Pair>)
    ensures Encode(row).Ok? <==> forall i | 0 <= i < |row| :: 0 <= row[i].index < 0xFFFF_FFFF && row[i].value.Num?
  {
    EncodeAccepts(row);
  }

  lemma {:induction false} FirstErrorKind(s: seq<Pair>)
    ensures FirstError(s) != Some(Overflow)
  {
    if s != [] {
      FirstErrorKind(s[1..]);
    }
  }

  lemma SameVerdicts(a: seq<Pair>, b: seq<Pair>)
    requires forall p :: p in a <==> p in b
    ensures AllAcceptable(a) <==> AllAcceptable(b)
    ensures AllPass(a) <==> AllPass(b)
    ensures SomeTooLarge(a) <==> SomeTooLarge(b)
  {
    assert forall i | 0 <= i < |a| :: a[i] in b;
    assert forall i | 0 <= i < |b| :: b[i] in a;
  }

  /** The first pair in sorted order that a check refuses decides the error, its index before its value. */
  lemma {:induction false} FirstErrorIs(s: seq<Pair>, i: nat)
    requires i < |s| && !Passes(s[i]) && forall j | 0 <= j < i :: Passes(s[j])
    ensures FirstError(s) == Some(if 0 <= s[i].index < 0xFFFF_FFFF then NotANumber else BadIndex(s[i].index))
  {
    if i > 0 {
      assert Passes(s[0]);
      FirstErrorIs(s[1..], i - 1);
    }
  }

  // ---- The format.

  /** Four bytes, least significant first. */
  predicate IsWord(bytes: seq<Byte>, at: nat, x: int)
    requires at + 4 <= |bytes|
  {
    x == (bytes[at] as int) + 0x100 * (bytes[at + 1] as int) + 0x1_0000 * (bytes[at + 2] as int) + 0x100_0000 * (bytes[at + 3] as int)
  }

  /** Bytes 8j to 8j + 3 of an encoded row are the index of pair j in sorted order, the next four its value. */
  lemma {:induction false} PackedRecord(s: seq<Pair>, j: nat)
    requires AllAcceptable(s) && j < |s|
    ensures IsWord(Pack(s), 8 * j, s[j].index) && IsWord(Pack(s), 8 * j + 4, s[j].value.bits)
    decreases |s|
  {
    var m := |s| - 1;
    if j < m {
      PackedRecord(s[..m], j);
    } else {
      LittleEndianRoundTrip(s[m].index);
      LittleEndianRoundTrip(s[m].value.bits);
    }
  }

  lemma EncodedRecord(row: seq<Pair>, j: nat)
    requires Encode(row).Ok? && j < |row|
    ensures |Sort(row)| == |row| && |Encode(row).value| == 8 * |row| && Sort(row)[j].value.Num?
    ensures IsWord(Encode(row).value, 8 * j, Sort(row)[j].index)
    ensures IsWord(Encode(row).value, 8 * j + 4, Sort(row)[j].value.bits)
  {
    EncodeAccepts(row);
    SameMembers(row);
    PackedRecord(Sort(row), j);
  }

  /** The two words of a record, as the parser reads them. */
  lemma RecordKey(front: seq<Byte>, record: seq<Byte>, x: U32)
    requires |record| == 8
    ensures IsWord(front + record, |front|, x) <==> FromLittleEndian(record[..4]) == x
    ensures IsWord(front + record, |front| + 4, x) <==> FromLittleEndian(record[4..]) == x
  {
  }

  lemma WordStays(front: seq<Byte>, record: seq<Byte>, at: nat, x: int)
    requires at + 4 <= |front|
    ensures IsWord(front + record, at, x) <==> IsWord(front, at, x)
  {
  }

  /** The record is the last one with index `k` in the data. */
  ghost predicate IsLastRecord(data: seq<Byte>, j: nat, k: U32, x: U32)
  {
    && 8 * j + 8 <= |data| && IsWord(data, 8 * j, k) && IsWord(data, 8 * j + 4, x)
    && forall i: nat | j < i && 8 * i + 8 <= |data| :: !IsWord(data, 8 * i, k)
  }

  lemma LastRecordNext(front: seq<Byte>, record: seq<Byte>, j: nat, k: U32, x: U32)
    requires |front| % 8 == 0 && |record| == 8 && IsLastRecord(front + record, j, k, x)
    ensures if 8 * j == |front| then FromLittleEndian(record[..4]) == k && FromLittleEndian(record[4..]) == x
            else IsLastRecord(front, j, k, x) && FromLittleEndian(record[..4]) != k
  {
    var data := front + record;
    RecordKey(front, record, k);
    RecordKey(front, record, x);
    if 8 * j != |front| {
      assert !IsWord(data, 8 * (|front| / 8), k);
      forall i: nat | j < i && 8 * i + 8 <= |front| ensures !IsWord(front, 8 * i, k) {
        assert !IsWord(data, 8 * i, k);
        WordStays(front, record, 8 * i, k);
      }
      WordStays(front, record, 8 * j, k);
      WordStays(front, record, 8 * j + 4, x);
    }
  }

  /** Any data of whole records is decoded: the value of an index is that of the last record that has it. */
  lemma {:induction false} DecodedRecord(data: seq<Byte>, j: nat, k: U32, x: U32)
    requires |data| % 8 == 0 && IsLastRecord(data, j, k, x)
    ensures k in ParseRecords(data).data && ParseRecords(data).data[k] == x
    decreases |data|
  {
    var front, record := data[..|data| - 8], data[|data| - 8..];
    assert data == front + record;
    LastRecordNext(front, record, j, k, x);
    ParseOne(front, record);
    if 8 * j != |front| {
      DecodedRecord(front, j, k, x);
    }
  }

  /** And only the indices of records are keys. */
  lemma {:induction false} DecodedKey(data: seq<Byte>, k: U32) returns (j: nat)
    requires |data| % 8 == 0 && k in ParseRecords(data).data
    ensures 8 * j + 8 <= |data| && IsWord(data, 8 * j, k)
    decreases |data|
  {
    var m := |data| / 8 - 1;
    var front, record := data[..8 * m], data[8 * m..];
    ParseOne(front, record);
    assert data == front + record;
    if FromLittleEndian(record[..4]) == k {
      RecordKey(front, record, k);
      j := m;
    } else {
      assert k in ParseRecords(front).data;
      j := DecodedKey(front, k);
      WordStays(front, record, 8 * j, k);
    }
  }

  /** Decoding an encoded row gives the last-value-wins map of the input, keys ascending; the encoding
      takes eight bytes a pair. */
  lemma RoundTrip(row: seq<Pair>)
    requires Encode(row).Ok?
    ensures |Encode(row).value| == 8 * |row|
    ensures Decode(Encode(row).value).Ok? && IsLastWinsMap(Decode(Encode(row).value).value, row)
  {
    EncodeAccepts(row);
    SameMembers(row);
    DecodePacked(Sort(row));
    DecodedMap(row);
  }

  lemma DecodePacked(s: seq<Pair>)
    requires AllAcceptable(s)
    ensures Decode(Pack(s)) == Ok(LastWins(s))
  {
    ParsePacked(s);
    DecodeWhole(Pack(s), |s|);
  }

  lemma DecodeWhole(data: seq<Byte>, n: nat)
    requires |data| == 8 * n
    ensures Decode(data) == Ok(ParseRecords(data))
  {
  }

  lemma DecodedMap(row: seq<Pair>)
    requires AllAcceptable(Sort(row))
    ensures IsLastWinsMap(LastWins(Sort(row)), row)
  {
    var s := Sort(row);
    SortContract(row);
    LastWinsOfSorted(s);
    forall k ensures HoldsLast(LastWins(s), row, k) {
      assert SelectedAlike(s, row, k) && HoldsLast(LastWins(s), s, k);
    }
  }

  lemma {:induction false} SameMembers(s: seq<Pair>)
    ensures |Sort(s)| == |s| && forall p :: p in Sort(s) <==> p in s
  {
    if s != [] {
      var front := s[..|s| - 1];
      SameMembers(front);
      InsertMembers(Sort(front), s[|s| - 1]);
      assert s == front + [s[|s| - 1]];
    }
  }

  lemma {:induction false} InsertMembers(s: seq<Pair>, p: Pair)
    ensures |Insert(s, p)| == |s| + 1
    ensures forall q :: q in Insert(s, p) <==> q in s || q == p
  {
    if s != [] && s[|s| - 1].index > p.index {
      InsertMembers(s[..|s| - 1], p);
      assert s == s[..|s| - 1] + [s[|s| - 1]];
    }
  }
}

/** From `append_row` to the files: the buffers of `Buffers`, filled and swapped by the threads of
    `LocalBulkWriter`. */
module BulkEndToEnd {
  import opened BulkJson
  import opened BulkWriters
  import opened Buffers
  import opened LocalBulkWriter
  import opened Prelude

  /** `row` is what verification made of some row that it accepted. */
  ghost predicate IsVerified(ch: Checks, schema: Schema, row: Buffers.Row)
  {
    exists input :: IsRow(input) && Verify(ch, schema, input) == (row, true) && Appendable(row)
  }

  /** Threads append verified rows only. */
  ghost predicate AppendsVerified(ch: Checks, schema: Schema, steps: seq<Step>)
  {
    forall i | 0 <= i < |steps| && steps[i].Append? :: IsVerified(ch, schema, steps[i].row)
  }

  /** The rows appended by these steps, in order. */
  function Appends(steps: seq<Step>): seq<Buffers.Row>
  {
    if steps == [] then []
    else Appends(steps[..|steps| - 1]) + if steps[|steps| - 1].Append? then [steps[|steps| - 1].row] else []
  }

  lemma {:induction false} AcceptedAreAppends(states: seq<State>, steps: seq<Step>, n: nat)
    requires IsRun(states, steps) && Init(states[0]) && n < |states|
    ensures states[n].accepted == Appends(steps[..n])
  {
    if n > 0 {
      AcceptedAreAppends(states, steps, n - 1);
      assert steps[..n][..n - 1] == steps[..n - 1];
    }
  }

  lemma {:induction false} AppendsAreComplete(ch: Checks, schema: Schema, steps: seq<Step>)
    requires GoodChecks(ch, schema) && AppendsVerified(ch, schema, steps)
    ensures forall r | r in Appends(steps) :: Complete(schema, r)
  {
    if steps != [] {
      var front, last := steps[..|steps| - 1], steps[|steps| - 1];
      AppendsAreComplete(ch, schema, front);
      if last.Append? {
        assert IsVerified(ch, schema, last.row);
        var input :| IsRow(input) && Verify(ch, schema, input) == (last.row, true) && Appendable(last.row);
        VerifiedIsComplete(ch, schema, input);
      }
    }
  }

  /** The JSON rows of all files, one file after another. */
  function Flat(files: seq<seq<Buffers.Row>>): seq<Buffers.Row>
  {
    if files == [] then [] else Flat(files[..|files| - 1]) + files[|files| - 1]
  }

  /** File `b` is what `persist` writes for a buffer with the rows of batch `b`. */
  ghost predicate IsFile(schema: Schema, rows: seq<Buffers.Row>, file: seq<Buffers.Row>)
  {
    exists columns: Columns ::
      && HoldRows(AllColumns(schema), columns, rows)
      && columns.order != [] && columns.Valid() && AreJsonRows(AllColumns(schema), columns, file)
  }

  lemma FileIsRows(schema: Schema, rows: seq<Buffers.Row>, file: seq<Buffers.Row>)
    requires IsFile(schema, rows, file) && forall r | r in rows :: Complete(schema, r)
    ensures WrittenAs(schema, rows, file)
  {
    var columns: Columns :|
      && HoldRows(AllColumns(schema), columns, rows)
      && columns.order != [] && columns.Valid() && AreJsonRows(AllColumns(schema), columns, file);
    BufferWritesRows(schema, rows, columns, file);
  }

  lemma SameRestriction(schema: Schema, row: Buffers.Row, out: Buffers.Row, row': Buffers.Row, out': Buffers.Row)
    requires IsRestriction(schema, row, out) && row' == row && out' == out
    ensures IsRestriction(schema, row', out')
  {
  }

  lemma WrittenTogether(schema: Schema, a: seq<Buffers.Row>, x: seq<Buffers.Row>, b: seq<Buffers.Row>, y: seq<Buffers.Row>)
    requires WrittenAs(schema, a, x) && WrittenAs(schema, b, y)
    ensures WrittenAs(schema, a + b, x + y)
  {
    forall i | 0 <= i < |a + b| ensures IsRestriction(schema, (a + b)[i], (x + y)[i]) {
      if i < |a| {
        SameRestriction(schema, a[i], x[i], (a + b)[i], (x + y)[i]);
      } else {
        SameRestriction(schema, b[i - |a|], y[i - |a|], (a + b)[i], (x + y)[i]);
      }
    }
  }

  lemma {:induction false} FilesAreRows(schema: Schema, batches: seq<Batch>, files: seq<seq<Buffers.Row>>)
    requires |files| == |batches|
    requires forall b | 0 <= b < |files| :: IsFile(schema, batches[b].rows, files[b])
    requires forall r | r in Rows(batches) :: Complete(schema, r)
    ensures WrittenAs(schema, Rows(batches), Flat(files))
  {
    if files != [] {
      var n := |files| - 1;
      var front, last := Rows(batches[..n]), batches[n].rows;
      assert Rows(batches) == front + last;
      assert forall r | r in front :: r in Rows(batches);
      assert forall r | r in last :: r in Rows(batches);
      FilesAreRows(schema, batches[..n], files[..n]);
      FileIsRows(schema, last, files[n]);
      WrittenTogether(schema, front, Flat(files[..n]), last, files[n]);
    }
  }

  /** The rows of the flush that has swapped the buffer and not yet persisted it. */
  ghost function InFlight(s: State): seq<Buffers.Row>
    requires Inv(s)
  {
    if t :| t in s.working && s.working[t].Swapped? then s.heap[s.working[t].b] else []
  }

  lemma RestIsBuffered(s: State)
    requires Inv(s)
    ensures s.accepted == Rows(s.batches) + (InFlight(s) + s.heap[s.current])
  {
    if t :| t in s.working && s.working[t].Swapped? {
      assert InFlight(s) == s.heap[s.working[t].b];
    }
  }

  /** Under every interleaving with serialised commits: the JSON rows of all files in order are the first
      verified rows, restricted to the schema one by one; the other verified rows are in the buffer in
      flight and the current one, in order. */
  lemma EveryRowOnce(ch: Checks, schema: Schema, states: seq<State>, steps: seq<Step>, n: nat, files: seq<seq<Buffers.Row>>)
    requires GoodChecks(ch, schema) && AppendsVerified(ch, schema, steps)
    requires IsRun(states, steps) && Init(states[0]) && n < |states|
    requires forall i | 0 <= i < n :: Serialised(states[i])
    requires |files| == |states[n].batches|
    requires forall b | 0 <= b < |files| :: IsFile(schema, states[n].batches[b].rows, files[b])
    ensures Inv(states[n])
    ensures var s := states[n]; var verified := Appends(steps[..n]);
            && |Flat(files)| <= |verified|
            && WrittenAs(schema, verified[..|Flat(files)|], Flat(files))
            && verified[|Flat(files)|..] == InFlight(s) + s.heap[s.current]
  {
    var s := states[n];
    Conservation(states, steps, n);
    AcceptedAreAppends(states, steps, n);
    AppendsAreComplete(ch, schema, steps[..n]);
    RestIsBuffered(s);
    FilesAreRows(schema, s.batches, files);
    Prefix(Rows(s.batches), InFlight(s) + s.heap[s.current]);
  }

  lemma Prefix(a: seq<Buffers.Row>, b: seq<Buffers.Row>)
    ensures (a + b)[..|a|] == a && (a + b)[|a|..] == b
  {
  }
}

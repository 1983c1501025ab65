/** `LocalBulkWriter`: producers append to the current buffer while a flush thread swaps it out and
    persists it. Every lock-protected section, and every unprotected read, is one atomic step. */
module LocalBulkWriter {
  import opened Prelude
  import Buffers

  type Row = Buffers.Row
  type BufferId = nat
  type ThreadId = nat
  type CallerId = nat

  /** Where a flush thread is in `_flush`: started, holding the old buffer it read outside the lock,
      past the swap, or past `persist`. */
  datatype FlushPc = Started | HasOld(b: BufferId) | Swapped(b: BufferId) | Finished

  /** Where a caller is in `commit`: in the wait loop, past it, or past `x.start()`. `mark` is the
      number of rows accepted before the call. */
  datatype CommitPc = Waiting(mark: nat) | Ready(mark: nat) | Launched(mark: nat, t: ThreadId)

  /** A buffer that `persist` was called on, and whether it succeeded. */
  datatype Batch = Batch(rows: seq<Row>, persisted: bool)

  datatype State = State(
    heap: seq<seq<Row>>,              // every Buffer object ever created
    current: BufferId,                // `_buffer`
    working: map<ThreadId, FlushPc>,  // `_working_thread`
    nextThread: ThreadId,
    lock: Option<CallerId>,           // `_working_thread_lock`, held by `append_row` around its commit
    callers: map<CallerId, CommitPc>,
    batches: seq<Batch>,
    accepted: seq<Row>)               // history: the rows in the order the buffer lock was taken

  datatype Step =
    | Append(row: Row)
    | CommitEnter(c: CallerId, fromAppend: bool)
    | CommitSeesIdle(c: CallerId)
    | CommitLaunch(c: CallerId)
    | CommitReturn(c: CallerId, isAsync: bool)
    | FlushRead(t: ThreadId)
    | FlushSwap(t: ThreadId)
    | FlushPersist(t: ThreadId, ok: bool)
    | FlushEnd(t: ThreadId)

  predicate Init(s: State)
  {
    s.heap == [[]] && s.current == 0 && s.working == map[] && s.lock.None? && s.callers == map[]
    && s.batches == [] && s.accepted == []
  }

  /** Buffer references are live. */
  predicate WellFormed(s: State)
  {
    && s.current < |s.heap|
    && forall t | t in s.working :: s.working[t].HasOld? || s.working[t].Swapped? ==> s.working[t].b < |s.heap|
  }

  predicate Enabled(s: State, a: Step)
  {
    && WellFormed(s)
    && match a
       case Append(_) => true
       case CommitEnter(c, fromAppend) => c !in s.callers && (fromAppend ==> s.lock.None?)
       case CommitSeesIdle(c) => c in s.callers && s.callers[c].Waiting? && s.working == map[]
       case CommitLaunch(c) => c in s.callers && s.callers[c].Ready?
       case CommitReturn(c, isAsync) => c in s.callers && s.callers[c].Launched? && (isAsync || s.callers[c].t !in s.working)
       case FlushRead(t) => t in s.working && s.working[t].Started?
       case FlushSwap(t) => t in s.working && s.working[t].HasOld?
       case FlushPersist(t, _) => t in s.working && s.working[t].Swapped?
       case FlushEnd(t) => t in s.working && s.working[t].Finished?
  }

  function Apply(s: State, a: Step): State
    requires Enabled(s, a)
  {
    match a
    case Append(row) =>
      s.(heap := s.heap[s.current := s.heap[s.current] + [row]], accepted := s.accepted + [row])
    case CommitEnter(c, fromAppend) =>
      s.(callers := s.callers[c := Waiting(|s.accepted|)], lock := if fromAppend then Some(c) else s.lock)
    case CommitSeesIdle(c) => s.(callers := s.callers[c := Ready(s.callers[c].mark)])
    case CommitLaunch(c) =>
      s.(callers := s.callers[c := Launched(s.callers[c].mark, s.nextThread)],
         working := s.working[s.nextThread := Started],
         nextThread := s.nextThread + 1)
    case CommitReturn(c, _) => s.(callers := s.callers - {c}, lock := if s.lock == Some(c) then None else s.lock)
    case FlushRead(t) => s.(working := s.working[t := HasOld(s.current)])
    case FlushSwap(t) =>
      s.(heap := s.heap + [[]], current := |s.heap|, working := s.working[t := Swapped(s.working[t].b)])
    case FlushPersist(t, ok) =>
      var rows := s.heap[s.working[t].b];
      s.(batches := if |rows| > 0 then s.batches + [Batch(rows, ok)] else s.batches,
         working := s.working[t := Finished])
    case FlushEnd(t) => s.(working := s.working - {t})
  }

  /** The rows of all batches, in order. */
  function Rows(batches: seq<Batch>): seq<Row>
  {
    if batches == [] then [] else Rows(batches[..|batches| - 1]) + batches[|batches| - 1].rows
  }

  lemma RowsAppend(batches: seq<Batch>, b: Batch)
    ensures Rows(batches + [b]) == Rows(batches) + b.rows
  {
    assert (batches + [b])[..|batches|] == batches;
  }

  lemma PersistAdds(s: State, t: ThreadId, ok: bool)
    requires Enabled(s, FlushPersist(t, ok))
    ensures Rows(Apply(s, FlushPersist(t, ok)).batches) == Rows(s.batches) + s.heap[s.working[t].b]
  {
    var rows := s.heap[s.working[t].b];
    RowsAppend(s.batches, Batch(rows, ok));
    assert rows == [] ==> Rows(s.batches) + rows == Rows(s.batches);
  }

  /** A flush adds one batch, marked by what `persist` made of it, or none for an empty buffer. */
  lemma PersistOnce(s: State, t: ThreadId, ok: bool)
    requires Enabled(s, FlushPersist(t, ok))
    ensures var rows := s.heap[s.working[t].b];
            Apply(s, FlushPersist(t, ok)).batches == s.batches + if rows == [] then [] else [Batch(rows, ok)]
  {
    assert s.batches + [] == s.batches;
  }

  /** `persist` is called on a buffer with rows, and only there. */
  lemma {:induction false} NoEmptyBatch(states: seq<State>, steps: seq<Step>, n: nat)
    requires IsRun(states, steps) && Init(states[0]) && n < |states|
    ensures forall b | b in states[n].batches :: b.rows != []
  {
    if n > 0 {
      NoEmptyBatch(states, steps, n - 1);
    }
  }

  // ---- The invariant.

  /** Flushed batches in order, then the buffer being persisted, then the current one: every accepted
      row once, in order. */
  ghost predicate Conserved(s: State)
    requires WellFormed(s)
  {
    && (forall t | t in s.working && s.working[t].Swapped? ::
          Rows(s.batches) + s.heap[s.working[t].b] + s.heap[s.current] == s.accepted)
    && ((forall t | t in s.working :: !s.working[t].Swapped?) ==>
          Rows(s.batches) + s.heap[s.current] == s.accepted)
  }

  ghost predicate OneFlush(s: State)
  {
    && (forall t, u | t in s.working && u in s.working :: t == u)
    && (forall t | t in s.working :: t < s.nextThread)
    && (forall c | c in s.callers && s.callers[c].Ready? :: s.working == map[])
  }

  /** The old buffer a flush holds is still current until it swaps, and is never current afterwards. */
  ghost predicate BuffersOk(s: State)
  {
    && (forall t | t in s.working && s.working[t].HasOld? :: s.working[t].b == s.current)
    && (forall t | t in s.working && s.working[t].Swapped? :: s.working[t].b != s.current)
  }

  /** The rows a caller waits for are in a batch once its flush is past `persist`. */
  ghost predicate MarkOk(s: State, pc: CommitPc)
    requires WellFormed(s)
  {
    && pc.mark <= |s.accepted|
    && (pc.Launched? ==>
          && pc.t < s.nextThread
          && (pc.t !in s.working || s.working[pc.t].Finished? ==> pc.mark <= |Rows(s.batches)|)
          && (pc.t in s.working && s.working[pc.t].Swapped? ==> pc.mark <= |Rows(s.batches)| + |s.heap[s.working[pc.t].b]|))
  }

  ghost predicate Inv(s: State)
  {
    && WellFormed(s) && Conserved(s) && OneFlush(s) && BuffersOk(s)
    && forall c | c in s.callers :: MarkOk(s, s.callers[c])
  }

  /** Commits are serialised: no two callers are past the wait loop and before `x.start()`. */
  ghost predicate Serialised(s: State)
  {
    forall c, d | c in s.callers && d in s.callers && s.callers[c].Ready? && s.callers[d].Ready? :: c == d
  }

  lemma StepConserved(s: State, a: Step)
    requires Inv(s) && Enabled(s, a)
    ensures WellFormed(Apply(s, a)) && Conserved(Apply(s, a)) && BuffersOk(Apply(s, a))
  {
    var s' := Apply(s, a);
    match a
    case Append(row) =>
      assert s'.heap[s.current] == s.heap[s.current] + [row];
      forall t | t in s.working && s.working[t].Swapped?
        ensures Rows(s'.batches) + s'.heap[s'.working[t].b] + s'.heap[s'.current] == s'.accepted
      {
        var front := Rows(s.batches) + s.heap[s.working[t].b];
        assert front + (s.heap[s.current] + [row]) == (front + s.heap[s.current]) + [row];
      }
      var front := Rows(s.batches);
      assert front + (s.heap[s.current] + [row]) == (front + s.heap[s.current]) + [row];
    case FlushSwap(t) =>
      var front := Rows(s.batches) + s.heap[s.current];
      assert s'.heap[s'.current] == [] && s'.heap[s.working[t].b] == s.heap[s.current];
      assert s'.working[t].Swapped? && front + [] == front;
    case FlushPersist(t, ok) =>
      PersistAdds(s, t, ok);
    case _ =>
  }

  lemma StepOneFlush(s: State, a: Step)
    requires Inv(s) && Enabled(s, a) && Serialised(s)
    ensures OneFlush(Apply(s, a))
  {
  }

  lemma StepMarks(s: State, a: Step, c: CallerId)
    requires Inv(s) && Enabled(s, a) && c in Apply(s, a).callers
    requires WellFormed(Apply(s, a))
    ensures MarkOk(Apply(s, a), Apply(s, a).callers[c])
  {
    var s' := Apply(s, a);
    if c in s.callers {
      assert MarkOk(s, s.callers[c]);
    }
    match a
    case FlushPersist(t, ok) =>
      RowsAppend(s.batches, Batch(s.heap[s.working[t].b], ok));
    case FlushSwap(t) =>
      assert Rows(s.batches) + s.heap[s.current] == s.accepted;
    case _ =>
  }

  /** Every step of every thread keeps the invariant while commits are serialised. */
  lemma StepInv(s: State, a: Step)
    requires Inv(s) && Enabled(s, a) && Serialised(s)
    ensures Inv(Apply(s, a))
  {
    StepConserved(s, a);
    StepOneFlush(s, a);
    forall c | c in Apply(s, a).callers ensures MarkOk(Apply(s, a), Apply(s, a).callers[c]) {
      StepMarks(s, a, c);
    }
  }

  // ---- Whole runs.

  ghost predicate IsRun(states: seq<State>, steps: seq<Step>)
  {
    && |states| == |steps| + 1
    && forall i | 0 <= i < |steps| :: Enabled(states[i], steps[i]) && states[i + 1] == Apply(states[i], steps[i])
  }

  /** Conservation under every interleaving: in a run whose commits are serialised, at most one flush is
      ever live, and batches, in-flight buffer and current buffer hold exactly the accepted rows. */
  lemma {:induction false} Conservation(states: seq<State>, steps: seq<Step>, n: nat)
    requires IsRun(states, steps) && Init(states[0]) && n < |states|
    requires forall i | 0 <= i < n :: Serialised(states[i])
    ensures Inv(states[n])
  {
    if n > 0 {
      Conservation(states, steps, n - 1);
      StepInv(states[n - 1], steps[n - 1]);
    }
  }

  /** The lock holder is the only caller. */
  ghost predicate LockedOut(s: State)
  {
    s.callers.Keys == if s.lock.None? then {} else {s.lock.value}
  }

  /** Commits started by `append_row` alone are serialised by the lock, so such runs need no assumption. */
  lemma {:induction false} AppendOnlyConservation(states: seq<State>, steps: seq<Step>, n: nat)
    requires IsRun(states, steps) && Init(states[0]) && n < |states|
    requires forall i | 0 <= i < |steps| :: steps[i].CommitEnter? ==> steps[i].fromAppend
    ensures Inv(states[n]) && LockedOut(states[n])
  {
    if n > 0 {
      AppendOnlyConservation(states, steps, n - 1);
      StepInv(states[n - 1], steps[n - 1]);
    }
  }

  /** A synchronous commit returns only after every row accepted before the call is in a batch. */
  lemma SyncCommitFlushes(s: State, c: CallerId)
    requires Inv(s) && Enabled(s, CommitReturn(c, false))
    ensures var mark := s.callers[c].mark;
            mark <= |Rows(s.batches)| && mark <= |s.accepted| && Rows(s.batches)[..mark] == s.accepted[..mark]
  {
    assert MarkOk(s, s.callers[c]);
    if t :| t in s.working && s.working[t].Swapped? {
      var rest := s.heap[s.working[t].b] + s.heap[s.current];
      assert Rows(s.batches) + s.heap[s.working[t].b] + s.heap[s.current] == Rows(s.batches) + rest;
    }
  }

  // ---- What happens without serialisation.

  ghost predicate CanRun(s: State, steps: seq<Step>)
    decreases |steps|
  {
    steps == [] || (Enabled(s, steps[0]) && CanRun(Apply(s, steps[0]), steps[1..]))
  }

  ghost function Final(s: State, steps: seq<Step>): State
    requires CanRun(s, steps)
    decreases |steps|
  {
    if steps == [] then s else Final(Apply(s, steps[0]), steps[1..])
  }

  /** Both callers launch a flush, both flushes read the old buffer, and a row arrives between their swaps. */
  function RaceStart(c: CallerId, d: CallerId, t: ThreadId): seq<Step>
  {
    [CommitLaunch(c), CommitLaunch(d), FlushRead(t), FlushRead(t + 1)]
  }

  function RaceMiddle(t: ThreadId, row: Row): seq<Step>
  {
    [FlushSwap(t), Append(row), FlushSwap(t + 1)]
  }

  function RacePersist(t: ThreadId): seq<Step> { [FlushPersist(t, true), FlushPersist(t + 1, true)] }

  function RaceEnd(t: ThreadId): seq<Step> { [FlushEnd(t), FlushEnd(t + 1)] }

  lemma OneStep(s: State, a: Step, rest: seq<Step>)
    requires Enabled(s, a) && CanRun(Apply(s, a), rest)
    ensures CanRun(s, [a] + rest) && Final(s, [a] + rest) == Final(Apply(s, a), rest)
  {
    assert ([a] + rest)[1..] == rest;
  }

  lemma {:induction false} Continue(s: State, a: seq<Step>, b: seq<Step>)
    requires CanRun(s, a) && CanRun(Final(s, a), b)
    ensures CanRun(s, a + b) && Final(s, a + b) == Final(Final(s, a), b)
    decreases |a|
  {
    if a == [] {
      assert a + b == b;
    } else {
      assert (a + b)[1..] == a[1..] + b;
      Continue(Apply(s, a[0]), a[1..], b);
    }
  }

  lemma RaceStarts(s: State, c: CallerId, d: CallerId)
    requires WellFormed(s) && c != d && c in s.callers && d in s.callers && s.callers[c].Ready? && s.callers[d].Ready?
    requires s.working == map[]
    ensures CanRun(s, RaceStart(c, d, s.nextThread))
    ensures var t, s' := s.nextThread, Final(s, RaceStart(c, d, s.nextThread));
            && WellFormed(s') && s'.working == map[t := HasOld(s.current), t + 1 := HasOld(s.current)]
            && s'.heap == s.heap && s'.current == s.current && s'.batches == s.batches && s'.accepted == s.accepted
  {
    var t := s.nextThread;
    var s1 := Apply(s, CommitLaunch(c));
    var s2 := Apply(s1, CommitLaunch(d));
    var s3 := Apply(s2, FlushRead(t));
    var s4 := Apply(s3, FlushRead(t + 1));
    OneStep(s3, FlushRead(t + 1), []);
    OneStep(s2, FlushRead(t), [FlushRead(t + 1)]);
    OneStep(s1, CommitLaunch(d), [FlushRead(t)] + [FlushRead(t + 1)]);
    OneStep(s, CommitLaunch(c), [CommitLaunch(d)] + ([FlushRead(t)] + [FlushRead(t + 1)]));
    assert RaceStart(c, d, t) == [CommitLaunch(c)] + ([CommitLaunch(d)] + ([FlushRead(t)] + [FlushRead(t + 1)]));
  }

  lemma RaceContinues(s: State, t: ThreadId, row: Row)
    requires WellFormed(s) && s.working == map[t := HasOld(s.current), t + 1 := HasOld(s.current)]
    ensures CanRun(s, RaceMiddle(t, row))
    ensures var s' := Final(s, RaceMiddle(t, row));
            && WellFormed(s') && s'.working == map[t := Swapped(s.current), t + 1 := Swapped(s.current)]
            && s'.heap == s.heap + [[row], []] && s'.current == |s.heap| + 1
            && s'.batches == s.batches && s'.accepted == s.accepted + [row]
  {
    var s1 := Apply(s, FlushSwap(t));
    var s2 := Apply(s1, Append(row));
    var s3 := Apply(s2, FlushSwap(t + 1));
    assert s1.working == map[t := Swapped(s.current), t + 1 := HasOld(s.current)];
    assert s2.heap == s.heap + [[row]] by { assert s1.heap[|s.heap|] + [row] == [row]; }
    OneStep(s2, FlushSwap(t + 1), []);
    OneStep(s1, Append(row), [FlushSwap(t + 1)]);
    OneStep(s, FlushSwap(t), [Append(row)] + [FlushSwap(t + 1)]);
    assert RaceMiddle(t, row) == [FlushSwap(t)] + ([Append(row)] + [FlushSwap(t + 1)]);
  }

  /** Flush `t`, then flush `t + 1`, persist buffer `b`. */
  function Twice(s: State, t: ThreadId, b: BufferId): State
    requires WellFormed(s) && b < |s.heap| && s.working == map[t := Swapped(b), t + 1 := Swapped(b)]
  {
    var s1 := Apply(s, FlushPersist(t, true));
    assert s1.working[t + 1] == Swapped(b);
    Apply(s1, FlushPersist(t + 1, true))
  }

  lemma TwiceRows(s: State, t: ThreadId, b: BufferId)
    requires WellFormed(s) && b < |s.heap| && s.working == map[t := Swapped(b), t + 1 := Swapped(b)]
    ensures Rows(Twice(s, t, b).batches) == Rows(s.batches) + s.heap[b] + s.heap[b]
  {
    PersistAdds(s, t, true);
    PersistAdds(Apply(s, FlushPersist(t, true)), t + 1, true);
  }

  lemma TwiceShape(s: State, t: ThreadId, b: BufferId)
    requires WellFormed(s) && b < |s.heap| && s.working == map[t := Swapped(b), t + 1 := Swapped(b)]
    ensures var s' := Twice(s, t, b);
            s'.(batches := s.batches) == s.(working := map[t := Finished, t + 1 := Finished])
  {
  }

  lemma RacePersists(s: State, t: ThreadId, b: BufferId)
    requires WellFormed(s) && b < |s.heap| && s.working == map[t := Swapped(b), t + 1 := Swapped(b)]
    ensures CanRun(s, RacePersist(t)) && Final(s, RacePersist(t)) == Twice(s, t, b)
  {
    var p, q := FlushPersist(t, true), FlushPersist(t + 1, true);
    OneStep(Apply(s, p), q, []);
    OneStep(s, p, [q]);
    assert RacePersist(t) == [p] + [q];
  }

  lemma RaceEnds(s: State, t: ThreadId)
    requires WellFormed(s) && s.working == map[t := Finished, t + 1 := Finished]
    ensures CanRun(s, RaceEnd(t)) && Final(s, RaceEnd(t)) == s.(working := map[])
  {
    var s1 := Apply(s, FlushEnd(t));
    OneStep(s1, FlushEnd(t + 1), []);
    OneStep(s, FlushEnd(t), [FlushEnd(t + 1)]);
    assert RaceEnd(t) == [FlushEnd(t)] + [FlushEnd(t + 1)];
  }

  function RaceTail(t: ThreadId, row: Row): seq<Step>
  {
    RaceMiddle(t, row) + (RacePersist(t) + RaceEnd(t))
  }

  lemma RaceGoesOn(s: State, t: ThreadId, row: Row)
    requires WellFormed(s) && s.working == map[t := HasOld(s.current), t + 1 := HasOld(s.current)]
    ensures CanRun(s, RaceTail(t, row))
    ensures var s' := Final(s, RaceTail(t, row));
            && WellFormed(s') && s'.working == map[] && s'.accepted == s.accepted + [row] && s'.heap[s'.current] == []
            && Rows(s'.batches) == Rows(s.batches) + s.heap[s.current] + s.heap[s.current]
  {
    RaceContinues(s, t, row);
    var s2 := Final(s, RaceMiddle(t, row));
    assert s2.heap[s.current] == s.heap[s.current];
    RacePersists(s2, t, s.current);
    TwiceRows(s2, t, s.current);
    TwiceShape(s2, t, s.current);
    RaceEnds(Final(s2, RacePersist(t)), t);
    Continue(s2, RacePersist(t), RaceEnd(t));
    Continue(s, RaceMiddle(t, row), RacePersist(t) + RaceEnd(t));
  }

  /** As soon as two callers are past the wait loop together, the run can continue to a quiescent state
      in which an accepted row is neither in a batch nor in the current buffer, and every row that was
      in the buffer has been flushed twice. */
  lemma UnserialisedCommitsLoseRows(s: State, c: CallerId, d: CallerId, row: Row) returns (steps: seq<Step>)
    requires Inv(s) && c != d && c in s.callers && d in s.callers && s.callers[c].Ready? && s.callers[d].Ready?
    requires row !in s.accepted
    ensures CanRun(s, steps) && NoEnter(steps)
    ensures var s' := Final(s, steps);
            && WellFormed(s') && s'.working == map[] && s'.accepted == s.accepted + [row]
            && row !in Rows(s'.batches) && row !in s'.heap[s'.current]
            && Rows(s'.batches) == Rows(s.batches) + s.heap[s.current] + s.heap[s.current]
  {
    var t := s.nextThread;
    RaceStarts(s, c, d);
    var s1 := Final(s, RaceStart(c, d, t));
    RaceGoesOn(s1, t, row);
    Continue(s, RaceStart(c, d, t), RaceTail(t, row));
    steps := RaceStart(c, d, t) + RaceTail(t, row);
    AllAccepted(s, row);
  }

  lemma AllAccepted(s: State, row: Row)
    requires Inv(s) && s.working == map[] && row !in s.accepted
    ensures row !in Rows(s.batches) + s.heap[s.current] + s.heap[s.current]
  {
    assert Rows(s.batches) + s.heap[s.current] == s.accepted;
    assert forall r :: r in Rows(s.batches) + s.heap[s.current] <==> r in s.accepted;
  }

  // ---- Exactly when a row can be lost.

  predicate NoEnter(steps: seq<Step>)
  {
    forall i | 0 <= i < |steps| :: !steps[i].CommitEnter?
  }

  /** The caller is inside `commit` and has not launched its flush. */
  predicate Pending(s: State, c: CallerId)
  {
    c in s.callers && !s.callers[c].Launched?
  }

  ghost predicate TwoPending(s: State)
  {
    exists c: CallerId, d: CallerId :: c != d && Pending(s, c) && Pending(s, d)
  }

  /** Nothing is in flight, and an accepted row is neither in a batch nor in the current buffer. */
  ghost predicate Lost(s: State)
  {
    WellFormed(s) && s.working == map[] && exists r | r in s.accepted :: r !in Rows(s.batches) && r !in s.heap[s.current]
  }

  /** The callers now inside `commit` can lose a row, without any other call of it. */
  ghost predicate CanLose(s: State)
  {
    exists steps | CanRun(s, steps) && NoEnter(steps) :: Lost(Final(s, steps))
  }

  lemma InvLosesNothing(s: State)
    requires Inv(s)
    ensures !Lost(s)
  {
    if s.working == map[] {
      assert Rows(s.batches) + s.heap[s.current] == s.accepted;
      assert forall r | r in s.accepted :: r in Rows(s.batches) + s.heap[s.current];
    }
  }

  /** With at most one pending caller and no further call of `commit`, every continuation keeps the
      invariant. */
  lemma {:induction false} OnePendingIsSafe(s: State, steps: seq<Step>)
    requires Inv(s) && !TwoPending(s) && CanRun(s, steps) && NoEnter(steps)
    ensures Inv(Final(s, steps)) && !TwoPending(Final(s, steps))
    decreases |steps|
  {
    if steps != [] {
      var s' := Apply(s, steps[0]);
      forall c, d | c in s.callers && d in s.callers && s.callers[c].Ready? && s.callers[d].Ready? ensures c == d {
        assert Pending(s, c) && Pending(s, d);
      }
      StepInv(s, steps[0]);
      assert forall c: CallerId | Pending(s', c) :: Pending(s, c);
      OnePendingIsSafe(s', steps[1..]);
    }
  }

  function StepsLeft(pc: FlushPc): nat
  {
    match pc case Started => 4 case HasOld(_) => 3 case Swapped(_) => 2 case Finished => 1
  }

  function NextStep(s: State, t: ThreadId): Step
    requires t in s.working
  {
    match s.working[t]
    case Started => FlushRead(t)
    case HasOld(_) => FlushSwap(t)
    case Swapped(_) => FlushPersist(t, true)
    case Finished => FlushEnd(t)
  }

  lemma FlushAdvances(s: State, t: ThreadId)
    requires Inv(s) && t in s.working
    ensures var s' := Apply(s, NextStep(s, t));
            && Inv(s') && s'.callers == s.callers && s'.accepted == s.accepted
            && (s'.working == map[] || (t in s'.working && StepsLeft(s'.working[t]) < StepsLeft(s.working[t])))
  {
    StepInv(s, NextStep(s, t));
    assert s.working.Keys == {t};
  }

  /** These steps end with nothing in flight, and callers and accepted rows as they were. */
  ghost predicate Drains(s: State, steps: seq<Step>)
  {
    && CanRun(s, steps) && NoEnter(steps)
    && Inv(Final(s, steps)) && Final(s, steps).working == map[]
    && Final(s, steps).callers == s.callers && Final(s, steps).accepted == s.accepted
  }

  lemma DrainsNext(s: State, a: Step, rest: seq<Step>)
    requires Enabled(s, a) && !a.CommitEnter? && Drains(Apply(s, a), rest)
    requires Apply(s, a).callers == s.callers && Apply(s, a).accepted == s.accepted
    ensures Drains(s, [a] + rest)
  {
    OneStep(s, a, rest);
  }

  /** The live flush can always run to its end. */
  lemma {:induction false} Drain(s: State, t: ThreadId) returns (steps: seq<Step>)
    requires Inv(s) && t in s.working
    ensures Drains(s, steps)
    decreases StepsLeft(s.working[t])
  {
    var a := NextStep(s, t);
    var s1 := Apply(s, a);
    FlushAdvances(s, t);
    if s1.working == map[] {
      steps := [];
      assert Drains(s1, []);
    } else {
      steps := Drain(s1, t);
    }
    DrainsNext(s, a, steps);
    steps := [a] + steps;
  }

  ghost predicate Loses(s: State, steps: seq<Step>)
  {
    CanRun(s, steps) && NoEnter(steps) && Lost(Final(s, steps))
  }

  lemma LoseAfter(s: State, a: seq<Step>, b: seq<Step>)
    requires CanRun(s, a) && NoEnter(a) && Loses(Final(s, a), b)
    ensures Loses(s, a + b)
  {
    Continue(s, a, b);
  }

  lemma LoseReady(s: State, c: CallerId, d: CallerId, row: Row) returns (steps: seq<Step>)
    requires Inv(s) && c != d && c in s.callers && d in s.callers && s.callers[c].Ready? && s.callers[d].Ready?
    requires row !in s.accepted
    ensures Loses(s, steps)
  {
    steps := UnserialisedCommitsLoseRows(s, c, d, row);
    assert row in Final(s, steps).accepted;
  }

  /** A waiting caller joins the one already past the wait loop. */
  lemma LoseJoining(s: State, c: CallerId, d: CallerId, row: Row) returns (steps: seq<Step>)
    requires Inv(s) && Serialised(s) && c != d && c in s.callers && s.callers[c].Ready? && Pending(s, d)
    requires row !in s.accepted
    ensures Loses(s, steps)
  {
    var a := CommitSeesIdle(d);
    assert s.working == map[] && s.callers[d].Waiting?;
    StepInv(s, a);
    steps := LoseReady(Apply(s, a), c, d, row);
    OneStep(s, a, []);
    LoseAfter(s, [a], steps);
    steps := [a] + steps;
  }

  lemma LoseIdle(s: State, c: CallerId, d: CallerId, row: Row) returns (steps: seq<Step>)
    requires Inv(s) && s.working == map[] && c != d && Pending(s, c) && Pending(s, d)
    requires forall e | e in s.callers :: !s.callers[e].Ready?
    requires row !in s.accepted
    ensures Loses(s, steps)
  {
    var a := CommitSeesIdle(c);
    StepInv(s, a);
    steps := LoseJoining(Apply(s, a), c, d, row);
    OneStep(s, a, []);
    LoseAfter(s, [a], steps);
    steps := [a] + steps;
  }

  lemma LoseWaiting(s: State, c: CallerId, d: CallerId, row: Row) returns (steps: seq<Step>)
    requires Inv(s) && c != d && Pending(s, c) && Pending(s, d)
    requires forall e | e in s.callers :: !s.callers[e].Ready?
    requires row !in s.accepted
    ensures Loses(s, steps)
  {
    if t :| t in s.working {
      var drain := Drain(s, t);
      steps := LoseIdle(Final(s, drain), c, d, row);
      LoseAfter(s, drain, steps);
      steps := drain + steps;
    } else {
      assert s.working == map[];
      steps := LoseIdle(s, c, d, row);
    }
  }

  /** The callers now inside `commit` can lose a row if and only if two of them have not launched their flush:
      whether `append_row` made one of the calls does not matter. */
  lemma RowsCanBeLostIff(s: State, row: Row)
    requires Inv(s) && row !in s.accepted
    ensures CanLose(s) <==> TwoPending(s)
  {
    if TwoPending(s) {
      var c: CallerId, d: CallerId :| c != d && Pending(s, c) && Pending(s, d);
      var steps;
      if e :| e in s.callers && s.callers[e].Ready? {
        if !Serialised(s) {
          var f, g :| f in s.callers && g in s.callers && s.callers[f].Ready? && s.callers[g].Ready? && f != g;
          steps := LoseReady(s, f, g, row);
        } else {
          steps := LoseJoining(s, e, if c == e then d else c, row);
        }
      } else {
        steps := LoseWaiting(s, c, d, row);
      }
      assert Lost(Final(s, steps));
    } else {
      forall steps | CanRun(s, steps) && NoEnter(steps) ensures !Lost(Final(s, steps)) {
        OnePendingIsSafe(s, steps);
        InvLosesNothing(Final(s, steps));
      }
    }
  }

  /** Two calls of `commit` can be pending together as soon as one of them is not `append_row`'s: the lock
      that `append_row` holds around its own call keeps out only other calls of `append_row` (see
      `AppendOnlyConservation`). */
  lemma RaceIsReachable(s: State, c: CallerId, d: CallerId, fromAppend: bool) returns (steps: seq<Step>)
    requires Init(s) && c != d
    ensures steps == [CommitEnter(c, fromAppend), CommitEnter(d, false)] && CanRun(s, steps)
    ensures Inv(Final(s, steps)) && TwoPending(Final(s, steps))
  {
    var a, b := CommitEnter(c, fromAppend), CommitEnter(d, false);
    var s1 := Apply(s, a);
    StepInv(s, a);
    StepInv(s1, b);
    OneStep(s1, b, []);
    OneStep(s, a, [b]);
    steps := [a, b];
    assert [a] + [b] == steps;
    assert Pending(Final(s, steps), c) && Pending(Final(s, steps), d);
  }
}

/** `convert_to_json.preprocess_numpy_types`: an explicit-stack rewrite of a nested
    Python object. Containers are heap objects, so aliasing and mutation are real here:
    the rewrite allocates one new container per visited container and fills it in place. */
module JsonRewrite {
  import opened Prelude

  /** Leaves: native Python values and numpy ones. Float payloads and array contents are opaque. */
  datatype Leaf =
    | PyNone | PyBool(b: bool) | PyInt(n: int) | PyFloat(w: int) | PyStr(s: string)
    | NpBool(b: bool) | NpInteger(n: int) | NpFloating(w: int)
    | NdArray(id: int)
    | NestedList(id: int)  // what `tolist()` returns for array `id`

  function ConvertLeaf(l: Leaf): Leaf
  {
    match l
    case NdArray(id) => NestedList(id)
    case NpInteger(n) => PyInt(n)
    case NpFloating(w) => PyFloat(w)
    case NpBool(b) => PyBool(b)
    case _ => l
  }

  predicate IsNumpy(l: Leaf) { l.NdArray? || l.NpInteger? || l.NpFloating? || l.NpBool? }

  /** A Python object: a leaf, or a reference to a dict or list. */
  datatype PyObj = Prim(leaf: Leaf) | Ref(c: Container)

  /** A dict (`keys[i]` maps to `vals[i]`, in insertion order) or a list (`keys` unused). */
  class Container {
    const isDict: bool
    var keys: seq<string>
    var vals: seq<PyObj>

    constructor EmptyDict()
      ensures isDict && keys == [] && vals == []
    {
      isDict, keys, vals := true, [], [];
    }

    constructor NoneList(n: nat)
      ensures !isDict && keys == [] && |vals| == n && forall i | 0 <= i < n :: vals[i] == Prim(PyNone)
    {
      isDict, keys, vals := false, [], seq(n, _ => Prim(PyNone));
    }

    /** `d[k] = v`: overwrites in place, or inserts at the end. */
    method SetKey(k: string, v: PyObj)
      requires isDict && |keys| == |vals|
      modifies this
      ensures k !in old(keys) ==> keys == old(keys) + [k] && vals == old(vals) + [v]
      ensures k in old(keys) ==> keys == old(keys) && |vals| == |old(vals)|
      ensures forall i | 0 <= i < |old(vals)| :: vals[i] == if old(keys)[i] == k && k !in old(keys)[..i] then v else old(vals)[i]
    {
      var i := 0;
      while i < |keys| && keys[i] != k
        invariant 0 <= i <= |keys|
        invariant k !in keys[..i]
      {
        i := i + 1;
      }
      if i < |keys| {
        vals := vals[i := v];
      } else {
        assert keys[..i] == keys;
        keys, vals := keys + [k], vals + [v];
      }
    }

    /** `l[i] = v`. */
    method SetIndex(i: nat, v: PyObj)
      requires !isDict && i < |vals|
      modifies this
      ensures keys == old(keys) && vals == old(vals)[i := v]
    {
      vals := vals[i := v];
    }
  }

  /** The finite nested value a Python object stands for. */
  datatype Value = Atom(leaf: Leaf) | Dict(keys: seq<string>, items: seq<Value>) | List(items: seq<Value>)

  /** Keys of a dict are distinct and paired with values, at every level. */
  ghost predicate WellKeyed(v: Value)
  {
    match v
    case Atom(_) => true
    case Dict(keys, items) =>
      && |keys| == |items|
      && (forall i, j | 0 <= i < j < |keys| :: keys[i] != keys[j])
      && (forall i | 0 <= i < |items| :: WellKeyed(items[i]))
    case List(items) => forall i | 0 <= i < |items| :: WellKeyed(items[i])
  }

  /** `o` stands for `v`, using only containers of `s`. */
  ghost predicate Denotes(o: PyObj, v: Value, s: set<Container>)
    reads s
    decreases v
  {
    match v
    case Atom(l) => o == Prim(l)
    case Dict(keys, items) =>
      && o.Ref? && o.c in s && o.c.isDict && o.c.keys == keys && |o.c.vals| == |items| == |keys|
      && forall i | 0 <= i < |items| :: Denotes(o.c.vals[i], items[i], s)
    case List(items) =>
      && o.Ref? && o.c in s && !o.c.isDict && |o.c.vals| == |items|
      && forall i | 0 <= i < |items| :: Denotes(o.c.vals[i], items[i], s)
  }

  /** The reference meaning: convert every leaf, keep every shape and every key. */
  function MapLeaves(v: Value): Value
  {
    match v
    case Atom(l) => Atom(ConvertLeaf(l))
    case Dict(keys, items) => Dict(keys, seq(|items|, i requires 0 <= i < |items| => MapLeaves(items[i])))
    case List(items) => List(seq(|items|, i requires 0 <= i < |items| => MapLeaves(items[i])))
  }

  /** No numpy leaf at any depth. */
  predicate Native(v: Value)
  {
    match v
    case Atom(l) => !IsNumpy(l)
    case Dict(_, items) => forall i | 0 <= i < |items| :: Native(items[i])
    case List(items) => forall i | 0 <= i < |items| :: Native(items[i])
  }

  /** The rewrite's meaning removes every numpy leaf and fixes exactly the numpy-free values. */
  lemma {:induction false} MapLeavesIsNative(v: Value)
    ensures Native(MapLeaves(v))
    ensures MapLeaves(v) == v <==> Native(v)
  {
    match v
    case Atom(l) =>
    case Dict(keys, items) =>
      forall i | 0 <= i < |items|
        ensures Native(MapLeaves(items[i])) && (MapLeaves(items[i]) == items[i] <==> Native(items[i]))
      {
        MapLeavesIsNative(items[i]);
      }
      assert MapLeaves(v) == v ==> forall i | 0 <= i < |items| :: MapLeaves(v).items[i] == items[i];
      assert Native(v) ==> MapLeaves(v).items == items;
    case List(items) =>
      forall i | 0 <= i < |items|
        ensures Native(MapLeaves(items[i])) && (MapLeaves(items[i]) == items[i] <==> Native(items[i]))
      {
        MapLeavesIsNative(items[i]);
      }
      assert MapLeaves(v) == v ==> forall i | 0 <= i < |items| :: MapLeaves(v).items[i] == items[i];
      assert Native(v) ==> MapLeaves(v).items == items;
  }

  /** What is found by following child positions from the top. */
  function At(v: Value, path: seq<nat>): Option<Value>
  {
    if path == [] then Some(v)
    else
      match v
      case Atom(_) => None
      case Dict(_, items) => if path[0] < |items| then At(items[path[0]], path[1..]) else None
      case List(items) => if path[0] < |items| then At(items[path[0]], path[1..]) else None
  }

  /** One place of the result against the same place of the input: numpy scalars become the Python scalar with
      the same payload, an array the list of its own elements, any other leaf stays; containers keep
      their kind, size and keys. */
  predicate Corresponds(a: Value, b: Value)
  {
    match a
    case Atom(NpBool(x)) => b == Atom(PyBool(x))
    case Atom(NpInteger(n)) => b == Atom(PyInt(n))
    case Atom(NpFloating(w)) => b == Atom(PyFloat(w))
    case Atom(NdArray(id)) => b == Atom(NestedList(id))
    case Atom(_) => b == a
    case Dict(keys, items) => b.Dict? && b.keys == keys && |b.items| == |items|
    case List(items) => b.List? && |b.items| == |items|
  }

  /** Both values have the same places, and corresponding things in them. */
  lemma {:induction false} MapLeavesAt(v: Value, path: seq<nat>)
    ensures At(MapLeaves(v), path).Some? <==> At(v, path).Some?
    ensures At(v, path).Some? ==> Corresponds(At(v, path).value, At(MapLeaves(v), path).value)
  {
    if path != [] {
      match v
      case Atom(_) =>
      case Dict(_, items) =>
        if path[0] < |items| {
          MapLeavesAt(items[path[0]], path[1..]);
        }
      case List(items) =>
        if path[0] < |items| {
          MapLeavesAt(items[path[0]], path[1..]);
        }
    }
  }

  // ---- Termination measure: total number of nodes still on the stack.

  function Size(v: Value): nat
  {
    match v
    case Atom(_) => 1
    case Dict(_, items) => 1 + Sizes(items)
    case List(items) => 1 + Sizes(items)
  }

  function Sizes(vs: seq<Value>): nat
  {
    if vs == [] then 0 else Size(vs[|vs| - 1]) + Sizes(vs[..|vs| - 1])
  }

  lemma {:induction false} SizesAppend(a: seq<Value>, b: seq<Value>)
    ensures Sizes(a + b) == Sizes(a) + Sizes(b)
  {
    if b == [] {
      assert a + b == a;
    } else {
      assert (a + b)[..|a + b| - 1] == a + b[..|b| - 1];
      SizesAppend(a, b[..|b| - 1]);
    }
  }

  function Reverse(vs: seq<Value>): seq<Value>
  {
    seq(|vs|, i requires 0 <= i < |vs| => vs[|vs| - 1 - i])
  }

  lemma {:induction false} SizesReverse(vs: seq<Value>)
    ensures Sizes(Reverse(vs)) == Sizes(vs)
  {
    if vs != [] {
      var front, last := vs[..|vs| - 1], vs[|vs| - 1];
      SizesReverse(front);
      assert Reverse(vs) == [last] + Reverse(front);
      SizesAppend([last], Reverse(front));
      assert [last][..0] == [];
    }
  }

  // ---- The state of a run.

  /** A stack entry: a value and the slot it must be written to. */
  datatype Slot = Root | Key(parent: Container, k: string) | Index(parent: Container, i: nat)
  datatype Task = Task(value: PyObj, slot: Slot)

  /** What is known of an output container: the value it copies and how many slots are filled. */
  datatype Progress = Progress(source: Value, filled: nat)
  type Book = map<Container, Progress>

  function Items(v: Value): seq<Value>
  {
    match v
    case Atom(_) => []
    case Dict(_, items) => items
    case List(items) => items
  }

  /** The slot of child `i` of container `c`, which copies `v`. */
  function SlotOf(c: Container, v: Value, i: nat): Slot
  {
    if v.Dict? && i < |v.keys| then Key(c, v.keys[i]) else Index(c, i)
  }

  /** `o` is the finished copy of `v`, or a reference to the container that will be. */
  ghost predicate Good(o: PyObj, v: Value, book: Book)
  {
    match v
    case Atom(l) => o == Prim(ConvertLeaf(l))
    case _ => o.Ref? && o.c in book && book[o.c].source == v
  }

  /** These contents hold the first `p.filled` children, each good; a list has its other slots empty. */
  ghost predicate Copying(isDict: bool, keys: seq<string>, vals: seq<PyObj>, p: Progress, book: Book)
  {
    var v, m := p.source, p.filled;
    && !v.Atom? && WellKeyed(v)
    && isDict == v.Dict?
    && m <= |Items(v)|
    && (v.Dict? ==> keys == v.keys[..m] && |vals| == m)
    && (v.List? ==> |vals| == |v.items|)
    && forall i | 0 <= i < m :: Good(vals[i], Items(v)[i], book)
  }

  ghost predicate Consistent(c: Container, book: Book)
    requires c in book
    reads c
  {
    Copying(c.isDict, c.keys, c.vals, book[c], book)
  }

  ghost predicate AllConsistent(book: Book)
    reads book.Keys
  {
    forall c | c in book :: Consistent(c, book)
  }

  /** Ghost companion of a stack entry: the value it stands for and its child index. */
  datatype Note = Note(v: Value, idx: nat)

  ghost predicate TaskOk(t: Task, n: Note, book: Book, s: set<Container>)
    reads s
  {
    && Denotes(t.value, n.v, s) && WellKeyed(n.v)
    && (t.slot.Root? ||
        (&& t.slot.parent in book
         && WellKeyed(book[t.slot.parent].source)
         && book[t.slot.parent].filled <= n.idx < |Items(book[t.slot.parent].source)|
         && Items(book[t.slot.parent].source)[n.idx] == n.v
         && t.slot == SlotOf(t.slot.parent, book[t.slot.parent].source, n.idx)))
  }

  /** Some stack entry will fill slot `i` of container `c`. */
  ghost predicate Waiting(stack: seq<Task>, notes: seq<Note>, c: Container, i: nat)
    requires |stack| == |notes|
  {
    exists j :: 0 <= j < |stack| && IsFor(stack[j], notes[j], c, i)
  }

  predicate IsFor(t: Task, n: Note, c: Container, i: nat)
  {
    !t.slot.Root? && t.slot.parent == c && n.idx == i
  }

  predicate Unfilled(book: Book, c: Container, i: nat)
  {
    c in book && book[c].filled <= i < |Items(book[c].source)|
  }

  /** Every unfilled slot has its entry; entries of one container are stacked last child first;
      the root entry can only be at the bottom. */
  ghost predicate Covered(stack: seq<Task>, notes: seq<Note>, book: Book)
    requires |stack| == |notes|
  {
    && (forall c, i: nat | c in book && Unfilled(book, c, i) :: Waiting(stack, notes, c, i))
    && (forall j, k | 0 <= j < k < |stack| && !stack[j].slot.Root? && !stack[k].slot.Root?
                      && stack[j].slot.parent == stack[k].slot.parent :: notes[j].idx > notes[k].idx)
    && (forall j | 0 < j < |stack| :: !stack[j].slot.Root?)
  }

  /** The stack holds exactly the unfilled slots of the book, well placed. */
  ghost predicate Pending(stack: seq<Task>, notes: seq<Note>, book: Book, s: set<Container>)
    reads s
  {
    && |stack| == |notes|
    && (forall j | 0 <= j < |stack| :: TaskOk(stack[j], notes[j], book, s))
    && Covered(stack, notes, book)
  }

  function Values(notes: seq<Note>): seq<Value>
  {
    seq(|notes|, i requires 0 <= i < |notes| => notes[i].v)
  }

  /** Local consistency with nothing left to fill is global correctness. */
  lemma {:induction false} CompleteDenotes(o: PyObj, v: Value, book: Book)
    requires AllConsistent(book) && Good(o, v, book)
    requires forall c | c in book :: book[c].filled == |Items(book[c].source)|
    ensures Denotes(o, MapLeaves(v), book.Keys)
    decreases v
  {
    match v
    case Atom(l) =>
    case Dict(keys, items) =>
      assert Consistent(o.c, book);
      forall i | 0 <= i < |items| ensures Denotes(o.c.vals[i], MapLeaves(items[i]), book.Keys) {
        CompleteDenotes(o.c.vals[i], items[i], book);
      }
    case List(items) =>
      assert Consistent(o.c, book);
      forall i | 0 <= i < |items| ensures Denotes(o.c.vals[i], MapLeaves(items[i]), book.Keys) {
        CompleteDenotes(o.c.vals[i], items[i], book);
      }
  }

  /** The entry on top fills the first unfilled slot of its container. */
  lemma TopIsNext(stack: seq<Task>, notes: seq<Note>, book: Book, s: set<Container>)
    requires |stack| == |notes| > 0 && Covered(stack, notes, book)
    requires TaskOk(stack[|stack| - 1], notes[|stack| - 1], book, s)
    ensures var slot := stack[|stack| - 1].slot;
            if slot.Root? then |stack| == 1 else notes[|stack| - 1].idx == book[slot.parent].filled
  {
    if !stack[|stack| - 1].slot.Root? {
      var c := stack[|stack| - 1].slot.parent;
      assert Unfilled(book, c, book[c].filled);
      assert Waiting(stack, notes, c, book[c].filled);
    }
  }

  /** The book after a write: one more slot filled, and perhaps one more container. */
  function Filled(book: Book, slot: Slot): Book
    requires !slot.Root? ==> slot.parent in book
  {
    if slot.Root? then book
    else book[slot.parent := Progress(book[slot.parent].source, book[slot.parent].filled + 1)]
  }

  function Opened(book: Book, o: PyObj, v: Value): Book
  {
    if o.Ref? then book[o.c := Progress(v, 0)] else book
  }

  /** The entries for the children of `v`, copied by `c`: last child at the bottom. */
  function ChildNotes(v: Value): seq<Note>
  {
    var n := |Items(v)|;
    seq(n, j requires 0 <= j < n => Note(Items(v)[n - 1 - j], n - 1 - j))
  }

  function ChildTasks(c: Container, v: Value, vals: seq<PyObj>): seq<Task>
  {
    var n := |vals|;
    seq(n, j requires 0 <= j < n => Task(vals[n - 1 - j], SlotOf(c, v, n - 1 - j)))
  }

  /** The stack after a visit of the top entry, which wrote `o`. */
  function NextStack(stack: seq<Task>, notes: seq<Note>, o: PyObj, vals: seq<PyObj>): seq<Task>
    requires |stack| == |notes| > 0
  {
    stack[..|stack| - 1] + if o.Ref? then ChildTasks(o.c, notes[|stack| - 1].v, vals) else []
  }

  function NextNotes(notes: seq<Note>): seq<Note>
    requires |notes| > 0
  {
    notes[..|notes| - 1] + ChildNotes(notes[|notes| - 1].v)
  }

  function NextBook(stack: seq<Task>, notes: seq<Note>, book: Book, o: PyObj): Book
    requires |stack| == |notes| > 0
    requires var slot := stack[|stack| - 1].slot; !slot.Root? ==> slot.parent in book
  {
    Opened(Filled(book, stack[|stack| - 1].slot), o, notes[|stack| - 1].v)
  }

  /** What holds before the top entry is visited. */
  ghost predicate CanVisit(stack: seq<Task>, notes: seq<Note>, book: Book, s: set<Container>, o: PyObj, vals: seq<PyObj>)
    reads s
  {
    && Pending(stack, notes, book, s) && |stack| > 0
    && TaskOk(stack[|stack| - 1], notes[|stack| - 1], book, s)
    && Fits(stack, notes, o, vals)
    && (o.Ref? ==> o.c !in book)
  }

  ghost predicate Fits(stack: seq<Task>, notes: seq<Note>, o: PyObj, vals: seq<PyObj>)
  {
    && |stack| == |notes| > 0
    && (o.Prim? <==> notes[|stack| - 1].v.Atom?)
    && (o.Ref? ==> |vals| == |Items(notes[|stack| - 1].v)|)
  }

  /** An old entry stays where it was; a new one is for child `i` of the new container. */
  lemma NextAt(stack: seq<Task>, notes: seq<Note>, o: PyObj, vals: seq<PyObj>, j: nat)
    requires Fits(stack, notes, o, vals)
    requires j < |NextStack(stack, notes, o, vals)|
    ensures |NextStack(stack, notes, o, vals)| == |NextNotes(notes)|
    ensures j < |stack| - 1 ==> NextStack(stack, notes, o, vals)[j] == stack[j] && NextNotes(notes)[j] == notes[j]
    ensures j >= |stack| - 1 ==>
              var v, i := notes[|stack| - 1].v, |vals| - 1 - (j - (|stack| - 1));
              && o.Ref? && 0 <= i < |vals|
              && NextStack(stack, notes, o, vals)[j] == Task(vals[i], SlotOf(o.c, v, i))
              && NextNotes(notes)[j] == Note(Items(v)[i], i)
  {
  }

  /** The new container's slots have the new entries. */
  lemma NewWaiting(stack: seq<Task>, notes: seq<Note>, o: PyObj, vals: seq<PyObj>, i: nat)
    requires Fits(stack, notes, o, vals) && o.Ref? && i < |vals|
    ensures |NextStack(stack, notes, o, vals)| == |NextNotes(notes)|
    ensures Waiting(NextStack(stack, notes, o, vals), NextNotes(notes), o.c, i)
  {
    var j := |stack| - 1 + (|vals| - 1 - i);
    NextAt(stack, notes, o, vals, j);
    assert IsFor(NextStack(stack, notes, o, vals)[j], NextNotes(notes)[j], o.c, i);
  }

  /** An entry below the top one stays. */
  lemma OldWaiting(stack: seq<Task>, notes: seq<Note>, o: PyObj, vals: seq<PyObj>, c: Container, i: nat)
    requires Fits(stack, notes, o, vals) && Waiting(stack, notes, c, i)
    requires !IsFor(stack[|stack| - 1], notes[|stack| - 1], c, i)
    ensures |NextStack(stack, notes, o, vals)| == |NextNotes(notes)|
    ensures Waiting(NextStack(stack, notes, o, vals), NextNotes(notes), c, i)
  {
    var j :| 0 <= j < |stack| && IsFor(stack[j], notes[j], c, i);
    NextAt(stack, notes, o, vals, j);
    assert IsFor(NextStack(stack, notes, o, vals)[j], NextNotes(notes)[j], c, i);
  }

  /** Every slot left unfilled has its entry in the new stack. */
  lemma NextWaiting(stack: seq<Task>, notes: seq<Note>, book: Book, s: set<Container>,
                    o: PyObj, vals: seq<PyObj>, c: Container, i: nat)
    requires CanVisit(stack, notes, book, s, o, vals)
    requires Unfilled(NextBook(stack, notes, book, o), c, i)
    ensures |NextStack(stack, notes, o, vals)| == |NextNotes(notes)|
    ensures Waiting(NextStack(stack, notes, o, vals), NextNotes(notes), c, i)
  {
    TopIsNext(stack, notes, book, s);
    if o.Ref? && c == o.c {
      NewWaiting(stack, notes, o, vals, i);
    } else {
      assert Unfilled(book, c, i);
      OldWaiting(stack, notes, o, vals, c, i);
    }
  }

  /** Old entries are for slots still unfilled, new ones for the slots of the new container. */
  lemma NextTaskOk(stack: seq<Task>, notes: seq<Note>, book: Book, s: set<Container>,
                   o: PyObj, vals: seq<PyObj>, j: nat)
    requires Fits(stack, notes, o, vals) && (o.Ref? ==> o.c !in book)
    requires TaskOk(stack[|stack| - 1], notes[|stack| - 1], book, s)
    requires j < |stack| - 1 ==> TaskOk(stack[j], notes[j], book, s)
    requires j < |stack| - 1 && !stack[j].slot.Root? && !stack[|stack| - 1].slot.Root?
             && stack[j].slot.parent == stack[|stack| - 1].slot.parent
             ==> book[stack[j].slot.parent].filled < notes[j].idx
    requires o.Ref? ==> stack[|stack| - 1].value.Ref? && stack[|stack| - 1].value.c.vals == vals
    requires j < |NextStack(stack, notes, o, vals)| == |NextNotes(notes)|
    ensures TaskOk(NextStack(stack, notes, o, vals)[j], NextNotes(notes)[j], NextBook(stack, notes, book, o), s)
  {
    NextAt(stack, notes, o, vals, j);
    var m := |stack| - 1;
    if j >= m {
      var i := |vals| - 1 - (j - m);
      assert Denotes(vals[i], Items(notes[m].v)[i], s) && WellKeyed(Items(notes[m].v)[i]);
    }
  }

  /** A visit keeps the stack and the book in step. */
  lemma NextPending(stack: seq<Task>, notes: seq<Note>, book: Book, s: set<Container>, o: PyObj, vals: seq<PyObj>)
    requires CanVisit(stack, notes, book, s, o, vals)
    requires o.Ref? ==> stack[|stack| - 1].value.Ref? && stack[|stack| - 1].value.c.vals == vals
    ensures Pending(NextStack(stack, notes, o, vals), NextNotes(notes), NextBook(stack, notes, book, o), s)
  {
    var stack', notes', book' := NextStack(stack, notes, o, vals), NextNotes(notes), NextBook(stack, notes, book, o);
    var m := |stack| - 1;
    assert |stack'| == |notes'|;
    forall c, i: nat | c in book' && Unfilled(book', c, i) ensures Waiting(stack', notes', c, i) {
      NextWaiting(stack, notes, book, s, o, vals, c, i);
    }
    forall j | 0 <= j < |stack'| ensures TaskOk(stack'[j], notes'[j], book', s) {
      TopIsNext(stack, notes, book, s);
      NextTaskOk(stack, notes, book, s, o, vals, j);
    }
    forall j | 0 <= j < |stack'|
      ensures j < m ==> stack'[j] == stack[j] && notes'[j] == notes[j] && TaskOk(stack[j], notes[j], book, s)
      ensures j >= m ==> !stack'[j].slot.Root? && stack'[j].slot.parent == o.c && o.c !in book && notes'[j].idx == |vals| - 1 - (j - m)
    {
      NextAt(stack, notes, o, vals, j);
    }
  }

  /** `assign_to_parent`. */
  method AssignToParent(slot: Slot, value: PyObj, result: PyObj) returns (result': PyObj)
    requires slot.Key? ==> slot.parent.isDict && |slot.parent.keys| == |slot.parent.vals| && slot.k !in slot.parent.keys
    requires slot.Index? ==> !slot.parent.isDict && slot.i < |slot.parent.vals|
    modifies if slot.Root? then {} else {slot.parent}
    ensures result' == if slot.Root? then value else result
    ensures slot.Key? ==> slot.parent.keys == old(slot.parent.keys) + [slot.k] && slot.parent.vals == old(slot.parent.vals) + [value]
    ensures slot.Index? ==> slot.parent.keys == old(slot.parent.keys) && slot.parent.vals == old(slot.parent.vals)[slot.i := value]
  {
    result' := result;
    match slot
    case Root => result' := value;
    case Key(parent, k) => parent.SetKey(k, value);
    case Index(parent, i) => parent.SetIndex(i, value);
  }

  /** `book'` records everything `book` does about the values being copied. */
  ghost predicate Extends(book': Book, book: Book)
  {
    book.Keys <= book'.Keys && forall c | c in book :: book'[c].source == book[c].source
  }

  lemma CopyingExtends(isDict: bool, keys: seq<string>, vals: seq<PyObj>, p: Progress, book: Book, book': Book)
    requires Copying(isDict, keys, vals, p, book) && Extends(book', book)
    ensures Copying(isDict, keys, vals, p, book')
  {
    forall i | 0 <= i < p.filled ensures Good(vals[i], Items(p.source)[i], book') {
      assert Good(vals[i], Items(p.source)[i], book);
    }
  }

  /** Writing the next child into its slot. */
  lemma CopyingNext(isDict: bool, keys: seq<string>, vals: seq<PyObj>, p: Progress, o: PyObj, book: Book)
    requires Copying(isDict, keys, vals, p, book)
    requires p.filled < |Items(p.source)| && Good(o, Items(p.source)[p.filled], book)
    ensures Copying(isDict,
                    if isDict then keys + [p.source.keys[p.filled]] else keys,
                    if isDict then vals + [o] else vals[p.filled := o],
                    Progress(p.source, p.filled + 1), book)
  {
    if isDict {
      assert p.source.keys[..p.filled + 1] == keys + [p.source.keys[p.filled]];
    }
  }

  /** An empty dict, or a list of placeholders as long as the original. */
  method NewContainer(c: Container) returns (processed: Container)
    ensures fresh(processed) && processed.isDict == c.isDict && processed.keys == []
    ensures |processed.vals| == if c.isDict then 0 else |c.vals|
  {
    if c.isDict {
      processed := new Container.EmptyDict();
    } else {
      processed := new Container.NoneList(|c.vals|);
    }
  }

  /** The new book knows the new object and still knows every old container. */
  lemma BookAfter(slot: Slot, o: PyObj, v: Value, book: Book)
    requires !slot.Root? ==> slot.parent in book
    requires if v.Atom? then o == Prim(ConvertLeaf(v.leaf)) else o.Ref? && o.c !in book
    ensures var book' := Opened(Filled(book, slot), o, v);
            && Extends(book', book) && Good(o, v, book')
            && book'.Keys == book.Keys + (if o.Ref? then {o.c} else {})
            && (o.Ref? ==> book'[o.c] == Progress(v, 0))
            && (forall c | c in book && (slot.Root? || c != slot.parent) :: book'[c] == book[c])
            && (!slot.Root? ==> book'[slot.parent] == Progress(book[slot.parent].source, book[slot.parent].filled + 1))
  {
  }

  /** Writing `o` to its slot keeps every container of the old book consistent with the new one. */
  method Write(t: Task, o: PyObj, result: PyObj, ghost n: Note, ghost book: Book, ghost book': Book, ghost s: set<Container>)
    returns (result': PyObj)
    requires AllConsistent(book) && TaskOk(t, n, book, s)
    requires !t.slot.Root? ==> n.idx == book[t.slot.parent].filled
    requires Extends(book', book) && Good(o, n.v, book')
    requires forall c | c in book && (t.slot.Root? || c != t.slot.parent) :: book'[c] == book[c]
    requires !t.slot.Root? ==> book'[t.slot.parent] == Progress(book[t.slot.parent].source, n.idx + 1)
    modifies if t.slot.Root? then {} else {t.slot.parent}
    ensures result' == if t.slot.Root? then o else result
    ensures forall c | c in book :: Consistent(c, book')
  {
    if !t.slot.Root? {
      var p := t.slot.parent;
      assert Consistent(p, book);
      CopyingExtends(p.isDict, p.keys, p.vals, book[p], book, book');
      CopyingNext(p.isDict, p.keys, p.vals, book[p], o, book');
    }
    result' := AssignToParent(t.slot, o, result);
    forall c | c in book ensures Consistent(c, book') {
      if t.slot.Root? || c != t.slot.parent {
        assert old(Consistent(c, book));
        CopyingExtends(c.isDict, c.keys, c.vals, book[c], book, book');
      }
    }
  }

  /** One visit: the converted leaf, or a new empty copy of the container, is written to its slot. */
  method Visit(t: Task, result: PyObj, ghost n: Note, ghost book: Book, ghost s: set<Container>)
    returns (o: PyObj, result': PyObj, ghost book': Book)
    requires AllConsistent(book) && TaskOk(t, n, book, s) && book.Keys !! s
    requires !t.slot.Root? ==> n.idx == book[t.slot.parent].filled
    modifies if t.slot.Root? then {} else {t.slot.parent}
    ensures o.Prim? <==> n.v.Atom?
    ensures o.Ref? ==> fresh(o.c)
    ensures result' == if t.slot.Root? then o else result
    ensures book' == Opened(Filled(book, t.slot), o, n.v)
    ensures Extends(book', book) && fresh(book'.Keys - book.Keys)
    ensures AllConsistent(book') && Good(o, n.v, book')
  {
    if t.value.Prim? {
      o := Prim(ConvertLeaf(t.value.leaf));
    } else {
      var processed := NewContainer(t.value.c);
      o := Ref(processed);
    }
    BookAfter(t.slot, o, n.v, book);
    book' := Opened(Filled(book, t.slot), o, n.v);
    assert o.Ref? ==> Consistent(o.c, book');
    result' := Write(t, o, result, n, book, book', s);
  }

  lemma TakeOneMore(stack: seq<Task>, tasks: seq<Task>, k: nat)
    requires k < |tasks|
    ensures stack + tasks[..k] + [tasks[k]] == stack + tasks[..k + 1]
  {
  }

  /** Children of a visited container are pushed in reverse, so that the first one is visited first. */
  method PushChildren(stack: seq<Task>, t: Task, o: PyObj, ghost v: Value, ghost s: set<Container>)
    returns (stack': seq<Task>)
    requires Denotes(t.value, v, s) && (o.Ref? <==> t.value.Ref?)
    ensures stack' == stack + if o.Ref? then ChildTasks(o.c, v, t.value.c.vals) else []
  {
    stack' := stack;
    if o.Ref? {
      var c := t.value.c;
      for i := |c.vals| downto 0
        invariant stack' == stack + ChildTasks(o.c, v, c.vals)[..|c.vals| - i]
      {
        ghost var tasks, k := ChildTasks(o.c, v, c.vals), |c.vals| - 1 - i;
        assert tasks[k] == Task(c.vals[i], SlotOf(o.c, v, i));
        TakeOneMore(stack, tasks, k);
        stack' := stack' + [Task(c.vals[i], if c.isDict then Key(o.c, c.keys[i]) else Index(o.c, i))];
      }
    }
  }

  /** Until the root entry is visited it is alone on the stack; from then on `result` is the root object. */
  ghost predicate Rooted(stack: seq<Task>, notes: seq<Note>, result: PyObj, v: Value, book: Book)
  {
    if stack != [] && stack[0].slot.Root? then |stack| == |notes| == 1 && notes[0].v == v
    else Good(result, v, book)
  }

  lemma RootedNext(stack: seq<Task>, notes: seq<Note>, result: PyObj, result': PyObj, v: Value, book: Book,
                   o: PyObj, vals: seq<PyObj>)
    requires |stack| == |notes| > 0 && Rooted(stack, notes, result, v, book)
    requires var t := stack[|stack| - 1];
             && (if t.slot.Root? then |stack| == 1 && result' == o else t.slot.parent in book && result' == result)
             && Extends(NextBook(stack, notes, book, o), book)
             && Good(o, notes[|stack| - 1].v, NextBook(stack, notes, book, o))
    ensures Rooted(NextStack(stack, notes, o, vals), NextNotes(notes), result', v, NextBook(stack, notes, book, o))
  {
    var stack' := NextStack(stack, notes, o, vals);
    assert !stack[0].slot.Root? || |stack| == 1 ==> Good(result', v, NextBook(stack, notes, book, o));
    if |stack| == 1 {
      assert |stack'| > 0 ==> stack'[0].slot == SlotOf(o.c, notes[0].v, |vals| - 1);
    } else {
      assert stack' != [] && stack'[0] == stack[0];
    }
  }

  /** One turn of the loop: pop, visit, push the children. */
  method Turn(stack: seq<Task>, result: PyObj, ghost v: Value, ghost notes: seq<Note>, ghost book: Book, ghost s: set<Container>)
    returns (stack': seq<Task>, result': PyObj, ghost notes': seq<Note>, ghost book': Book)
    requires Pending(stack, notes, book, s) && AllConsistent(book) && stack != [] && book.Keys !! s
    requires Rooted(stack, notes, result, v, book)
    modifies book.Keys
    ensures Pending(stack', notes', book', s) && AllConsistent(book')
    ensures Extends(book', book) && fresh(book'.Keys - book.Keys)
    ensures Rooted(stack', notes', result', v, book')
    ensures Sizes(Values(notes')) < Sizes(Values(notes))
  {
    var m := |stack| - 1;
    var t := stack[m];
    assert TaskOk(t, notes[m], book, s);
    TopIsNext(stack, notes, book, s);
    var o;
    o, result', book' := Visit(t, result, notes[m], book, s);
    ghost var vals := if o.Ref? then t.value.c.vals else [];
    assert Pending(stack, notes, book, s) && TaskOk(t, notes[m], book, s);
    assert Fits(stack, notes, o, vals);
    NextPending(stack, notes, book, s, o, vals);
    stack' := PushChildren(stack[..m], t, o, notes[m].v, s);
    RootedNext(stack, notes, result, result', v, book, o, vals);
    MeasureDrops(notes);
    notes' := NextNotes(notes);
  }

  /** The stack loop. Nothing that existed before is modified; the result is a tree of new
      containers standing for the leaf-by-leaf conversion of the input. */
  method PreprocessNumpyTypes(obj: PyObj, ghost v: Value, ghost s: set<Container>)
    returns (result: PyObj, ghost made: set<Container>)
    requires Denotes(obj, v, s) && WellKeyed(v)
    ensures fresh(made) && Denotes(result, MapLeaves(v), made)
  {
    var stack := [Task(obj, Root)];
    ghost var notes, book: Book := [Note(v, 0)], map[];
    result := Prim(PyNone);
    while stack != []
      invariant Pending(stack, notes, book, s) && AllConsistent(book)
      invariant fresh(book.Keys) && book.Keys !! s
      invariant Rooted(stack, notes, result, v, book)
      decreases Sizes(Values(notes))
    {
      stack, result, notes, book := Turn(stack, result, v, notes, book, s);
    }
    made := book.Keys;
    AllFilled(book);
    CompleteDenotes(result, v, book);
  }

  /** With an empty stack no slot is left. */
  lemma AllFilled(book: Book)
    requires Covered([], [], book) && AllConsistent(book)
    ensures forall c | c in book :: book[c].filled == |Items(book[c].source)|
  {
    forall c | c in book ensures book[c].filled == |Items(book[c].source)| {
      assert Consistent(c, book);
      assert !Unfilled(book, c, book[c].filled);
    }
  }

  /** Replacing an entry by its children's entries makes the stack smaller. */
  lemma MeasureDrops(notes: seq<Note>)
    requires |notes| > 0
    ensures Sizes(Values(NextNotes(notes))) < Sizes(Values(notes))
  {
    var m := |notes| - 1;
    var v := notes[m].v;
    var rest := Values(notes[..m]);
    assert Values(NextNotes(notes)) == rest + Reverse(Items(v));
    SizesAppend(rest, Reverse(Items(v)));
    SizesReverse(Items(v));
    assert Values(notes)[..m] == rest;
  }
}

/** The arena's draw list (painter's algorithm): the drawable objects in the
    order they are painted, kept non-decreasing by layer, together with the
    one-way `exiting` flag that stops further inserts.

    This module holds the value-level specification; the class in module
    Arena updates its fields in place and is proved against it. */
module DrawList {

  /** Inserts are refused once the list holds MORE than this many objects. */
  const MAX_OBJECTS: nat := 100000

  /** A drawable object. `id` stands for the identity of the Java object.
      The four shape classes carry their own layer; any other kind of
      game object is read as layer 0 by the insertion scan. */
  datatype GameObject =
    | Ball(id: nat, layer: int)
    | Rectangle(id: nat, layer: int)
    | Line(id: nat, layer: int)
    | Text(id: nat, layer: int)
    | Other(id: nat)

  /** The layer the insertion scan reads from an element. */
  function LayerOf(o: GameObject): int {
    match o
    case Ball(_, l) => l
    case Rectangle(_, l) => l
    case Line(_, l) => l
    case Text(_, l) => l
    case Other(_) => 0
  }

  /** Non-decreasing by layer: lower layers are painted first. */
  predicate Sorted(s: seq<GameObject>) {
    forall i, j :: 0 <= i < j < |s| ==> LayerOf(s[i]) <= LayerOf(s[j])
  }

  /** Where an object of the given layer is inserted: before the first
      element whose layer is strictly greater, or at the end. */
  function InsertPos(s: seq<GameObject>, layer: int): (p: nat)
    ensures p <= |s|
    ensures forall k :: 0 <= k < p ==> LayerOf(s[k]) <= layer
    ensures p < |s| ==> layer < LayerOf(s[p])
  {
    if s == [] then 0
    else if layer < LayerOf(s[0]) then 0
    else 1 + InsertPos(s[1..], layer)
  }

  /** The draw list after inserting `o` with the given layer. */
  function Insert(s: seq<GameObject>, o: GameObject, layer: int): seq<GameObject> {
    var p := InsertPos(s, layer);
    s[..p] + [o] + s[p..]
  }

  /** Index of the first element equal to `o`, or |s| when there is none. */
  function FirstIndex(s: seq<GameObject>, o: GameObject): (i: nat)
    ensures i <= |s|
    ensures forall k :: 0 <= k < i ==> s[k] != o
    ensures i < |s| ==> s[i] == o
  {
    if s == [] then 0
    else if s[0] == o then 0
    else 1 + FirstIndex(s[1..], o)
  }

  /** The draw list after removing the first element equal to `o`. */
  function RemoveFirst(s: seq<GameObject>, o: GameObject): seq<GameObject> {
    var i := FirstIndex(s, o);
    if i < |s| then s[..i] + s[i + 1..] else s
  }

  /** The elements of `s` on layer `l`, in list order. */
  function OnLayer(s: seq<GameObject>, l: int): seq<GameObject> {
    if s == [] then []
    else (if LayerOf(s[0]) == l then [s[0]] else []) + OnLayer(s[1..], l)
  }

  // ---------------------------------------------------------------------
  // Insertion

  /** Where each element of the list ends up after an insert. */
  lemma InsertAt(s: seq<GameObject>, o: GameObject, layer: int)
    ensures var p := InsertPos(s, layer); var r := Insert(s, o, layer);
      |r| == |s| + 1 && r[p] == o
      && (forall k :: 0 <= k < p ==> r[k] == s[k])
      && (forall k :: p < k < |r| ==> r[k] == s[k - 1])
  {
  }

  /** An insert adds exactly one element, `o`, at the insertion point, and
      the existing elements keep their relative order around it. */
  lemma InsertShape(s: seq<GameObject>, o: GameObject, layer: int)
    ensures var p := InsertPos(s, layer); var r := Insert(s, o, layer);
      |r| == |s| + 1 && r[p] == o && r[..p] + r[p + 1..] == s
  {
    var p := InsertPos(s, layer);
    var r := Insert(s, o, layer);
    assert r[..p] == s[..p];
    assert r[p + 1..] == s[p..];
    assert s[..p] + s[p..] == s;
  }

  /** In a sorted list the new object lands after every element whose layer
      is at most its own and before every element whose layer is greater:
      objects of equal layer keep their insertion order. */
  lemma InsertPosSplits(s: seq<GameObject>, layer: int)
    requires Sorted(s)
    ensures forall k :: 0 <= k < |s| ==> (k < InsertPos(s, layer) <==> LayerOf(s[k]) <= layer)
  {
    var p := InsertPos(s, layer);
    forall k | 0 <= k < |s|
      ensures k < p <==> LayerOf(s[k]) <= layer
    {
      if p <= k {
        assert LayerOf(s[p]) <= LayerOf(s[k]);
      }
    }
  }

  /** Inserting an object with its own layer keeps the list sorted. */
  lemma InsertSorted(s: seq<GameObject>, o: GameObject)
    requires Sorted(s)
    ensures Sorted(Insert(s, o, LayerOf(o)))
  {
    var l := LayerOf(o);
    var p := InsertPos(s, l);
    var r := Insert(s, o, l);
    InsertPosSplits(s, l);
    InsertAt(s, o, l);
    forall i, j | 0 <= i < j < |r|
      ensures LayerOf(r[i]) <= LayerOf(r[j])
    {
      var i' := if i < p then i else i - 1;
      var j' := if j < p then j else j - 1;
      if i == p {
        assert r[j] == s[j'] && p <= j';
      } else if j == p {
        assert r[i] == s[i'] && i' < p;
      } else {
        assert r[i] == s[i'] && r[j] == s[j'] && i' < j';
      }
    }
  }

  /** Concatenation regroups; `InsertAllStable` uses it as one step. */
  lemma ConcatAssoc(a: seq<GameObject>, b: seq<GameObject>, c: seq<GameObject>)
    ensures (a + b) + c == a + (b + c)
  {
  }

  lemma {:induction false} OnLayerAppend(a: seq<GameObject>, b: seq<GameObject>, l: int)
    ensures OnLayer(a + b, l) == OnLayer(a, l) + OnLayer(b, l)
  {
    if a == [] {
      assert a + b == b;
    } else {
      var ab := a + b;
      assert ab != [] && ab[0] == a[0];
      assert ab[1..] == a[1..] + b;
      OnLayerAppend(a[1..], b, l);
      assert OnLayer(ab, l) == (if LayerOf(a[0]) == l then [a[0]] else []) + OnLayer(a[1..] + b, l);
    }
  }

  lemma {:induction false} OnLayerAbove(s: seq<GameObject>, l: int)
    requires forall k :: 0 <= k < |s| ==> l < LayerOf(s[k])
    ensures OnLayer(s, l) == []
  {
    if s != [] {
      OnLayerAbove(s[1..], l);
    }
  }

  lemma OnLayerSingle(o: GameObject, l: int)
    ensures OnLayer([o], l) == if LayerOf(o) == l then [o] else []
  {
    assert [o][1..] == [];
  }

  /** In a sorted list nothing at or after the insertion point for layer
      `l` is on layer `l`. */
  lemma OnLayerAfterInsertPos(s: seq<GameObject>, l: int)
    requires Sorted(s)
    ensures OnLayer(s[InsertPos(s, l)..], l) == []
  {
    var p := InsertPos(s, l);
    var b := s[p..];
    InsertPosSplits(s, l);
    assert forall k :: 0 <= k < |b| ==> b[k] == s[p + k];
    OnLayerAbove(b, l);
  }

  /** Stability of one insert: on the object's own layer it is appended
      after the objects already there; every other layer is untouched. */
  lemma InsertStable(s: seq<GameObject>, o: GameObject, l: int)
    requires Sorted(s)
    ensures OnLayer(Insert(s, o, LayerOf(o)), l)
         == if LayerOf(o) == l then OnLayer(s, l) + [o] else OnLayer(s, l)
  {
    var p := InsertPos(s, LayerOf(o));
    var a, b := s[..p], s[p..];
    var fa, fo, fb := OnLayer(a, l), OnLayer([o], l), OnLayer(b, l);
    assert s == a + b;
    assert Insert(s, o, LayerOf(o)) == (a + [o]) + b;
    OnLayerAppend(a + [o], b, l);
    OnLayerAppend(a, [o], l);
    OnLayerAppend(a, b, l);
    assert OnLayer(Insert(s, o, LayerOf(o)), l) == (fa + fo) + fb;
    assert OnLayer(s, l) == fa + fb;
    OnLayerSingle(o, l);
    if LayerOf(o) == l {
      OnLayerAfterInsertPos(s, l);
      assert fb == [];
      assert (fa + fo) + fb == fa + [o];
      assert fa + fb == fa;
    } else {
      assert fo == [];
      assert (fa + fo) + fb == fa + fb;
    }
  }

  /** The draw list after adding `items` one after another to `s`, each
      with its own layer. */
  function InsertAll(s: seq<GameObject>, items: seq<GameObject>): seq<GameObject>
    decreases |items|
  {
    if items == [] then s
    else InsertAll(Insert(s, items[0], LayerOf(items[0])), items[1..])
  }

  /** Any sequence of inserts into a sorted list yields a sorted list. */
  lemma {:induction false} InsertAllSorted(s: seq<GameObject>, items: seq<GameObject>)
    requires Sorted(s)
    ensures Sorted(InsertAll(s, items))
    decreases |items|
  {
    if items != [] {
      InsertSorted(s, items[0]);
      InsertAllSorted(Insert(s, items[0], LayerOf(items[0])), items[1..]);
    }
  }

  /** Any sequence of inserts into a sorted list keeps, for each layer, the
      old objects first and then the new ones in the order they were
      inserted. */
  lemma {:induction false} InsertAllStable(s: seq<GameObject>, items: seq<GameObject>, l: int)
    requires Sorted(s)
    ensures OnLayer(InsertAll(s, items), l) == OnLayer(s, l) + OnLayer(items, l)
    decreases |items|
  {
    if items == [] {
      assert OnLayer(s, l) + [] == OnLayer(s, l);
    } else {
      var o := items[0];
      var s' := Insert(s, o, LayerOf(o));
      var head := if LayerOf(o) == l then [o] else [];
      var a, b, c := OnLayer(s, l), OnLayer(items[1..], l), InsertAll(s', items[1..]);
      assert InsertAll(s, items) == c;
      assert OnLayer(items, l) == head + b;
      InsertSorted(s, o);
      InsertStable(s, o, l);
      assert OnLayer(s', l) == a + head by {
        if LayerOf(o) != l {
          assert a + head == a;
        }
      }
      InsertAllStable(s', items[1..], l);
      assert OnLayer(c, l) == (a + head) + b;
      ConcatAssoc(a, head, b);
    }
  }

  /** An insert adds one copy of the object and removes nothing. */
  lemma InsertPermutes(s: seq<GameObject>, o: GameObject, layer: int)
    ensures multiset(Insert(s, o, layer)) == multiset(s) + multiset{o}
  {
    var p := InsertPos(s, layer);
    assert s == s[..p] + s[p..];
  }

  /** Any sequence of inserts keeps the old objects and adds exactly the
      inserted ones. */
  lemma {:induction false} InsertAllPermutes(s: seq<GameObject>, items: seq<GameObject>)
    ensures multiset(InsertAll(s, items)) == multiset(s) + multiset(items)
    decreases |items|
  {
    if items != [] {
      InsertPermutes(s, items[0], LayerOf(items[0]));
      InsertAllPermutes(Insert(s, items[0], LayerOf(items[0])), items[1..]);
      assert items == [items[0]] + items[1..];
    }
  }

  /** Inserting layers 3, 1, 2, 1 into an empty list yields layer order
      1, 1, 2, 3, with the two layer-1 objects in the order they were
      inserted. */
  lemma InsertExample()
    ensures InsertAll([], [Ball(0, 3), Ball(1, 1), Ball(2, 2), Ball(3, 1)])
         == [Ball(1, 1), Ball(3, 1), Ball(2, 2), Ball(0, 3)]
  {
    var a, b, c, d := Ball(0, 3), Ball(1, 1), Ball(2, 2), Ball(3, 1);
    assert Insert([], a, 3) == [a];
    assert InsertPos([a], 1) == 0;
    assert Insert([a], b, 1) == [b, a];
    assert InsertPos([a], 2) == 0;
    assert InsertPos([b, a], 2) == 1;
    assert Insert([b, a], c, 2) == [b, c, a];
    assert InsertPos([a], 1) == 0;
    assert InsertPos([c, a], 1) == 0;
    assert InsertPos([b, c, a], 1) == 1;
    assert Insert([b, c, a], d, 1) == [b, d, c, a];
    assert [a, b, c, d][1..] == [b, c, d];
    assert [b, c, d][1..] == [c, d];
    assert [c, d][1..] == [d];
    assert [d][1..] == [];
    assert InsertAll([b, d, c, a], []) == [b, d, c, a];
    assert InsertAll([b, c, a], [d]) == [b, d, c, a];
    assert InsertAll([b, a], [c, d]) == [b, d, c, a];
    assert InsertAll([a], [b, c, d]) == [b, d, c, a];
  }

  // ---------------------------------------------------------------------
  // Removal

  /** Removing an object that is not in the list leaves the list as it is. */
  lemma RemoveAbsent(s: seq<GameObject>, o: GameObject)
    requires o !in s
    ensures RemoveFirst(s, o) == s
  {
  }

  /** Removing a present object drops exactly its first occurrence: the
      elements before it are unchanged, the ones after it close up, and
      one copy of `o` leaves the list's contents. */
  lemma RemovePresent(s: seq<GameObject>, o: GameObject)
    requires o in s
    ensures var i := FirstIndex(s, o); var r := RemoveFirst(s, o);
      i < |s| && o !in s[..i] && |r| == |s| - 1 && r[..i] == s[..i] && r[i..] == s[i + 1..]
      && multiset(r) == multiset(s) - multiset{o}
  {
    var i := FirstIndex(s, o);
    assert s == s[..i] + [s[i]] + s[i + 1..];
  }

  /** Where each remaining element ends up after a removal at index `i`. */
  lemma RemoveAt(s: seq<GameObject>, i: nat)
    requires i < |s|
    ensures var r := s[..i] + s[i + 1..];
      |r| == |s| - 1
      && (forall k :: 0 <= k < i ==> r[k] == s[k])
      && (forall k :: i <= k < |r| ==> r[k] == s[k + 1])
  {
  }

  /** Removal keeps a sorted list sorted. */
  lemma RemoveSorted(s: seq<GameObject>, o: GameObject)
    requires Sorted(s)
    ensures Sorted(RemoveFirst(s, o))
  {
    var i := FirstIndex(s, o);
    if i < |s| {
      var r := s[..i] + s[i + 1..];
      assert RemoveFirst(s, o) == r;
      RemoveAt(s, i);
      forall a, b | 0 <= a < b < |r|
        ensures LayerOf(r[a]) <= LayerOf(r[b])
      {
        var a' := if a < i then a else a + 1;
        var b' := if b < i then b else b + 1;
        assert r[a] == s[a'] && r[b] == s[b'];
        assert a' < b';
        assert LayerOf(s[a']) <= LayerOf(s[b']);
      }
    }
  }

  /** Removing an object right after inserting it (when it was not in the
      list before) gives back the original list. */
  lemma RemoveUndoesInsert(s: seq<GameObject>, o: GameObject, layer: int)
    requires o !in s
    ensures RemoveFirst(Insert(s, o, layer), o) == s
  {
    var p := InsertPos(s, layer);
    var r := Insert(s, o, layer);
    assert r[p] == o;
    forall k | 0 <= k < p
      ensures r[k] != o
    {
      assert r[k] == s[k];
    }
    assert FirstIndex(r, o) == p;
    InsertShape(s, o, layer);
  }

  // ---------------------------------------------------------------------
  // The arena's draw-list state and its transitions

  /** The draw list together with the exiting flag. */
  datatype DrawState = DrawState(things: seq<GameObject>, exiting: bool)

  /** `addThing`: ignored once exiting; if the list already holds more than
      MAX_OBJECTS objects the arena exits instead; otherwise the object is
      inserted at its layer position. */
  function Add(st: DrawState, o: GameObject, layer: int): DrawState {
    if st.exiting then st
    else if |st.things| > MAX_OBJECTS then DrawState(st.things, true)
    else DrawState(Insert(st.things, o, layer), st.exiting)
  }

  /** `removeObject`: not gated by the exiting flag. */
  function Remove(st: DrawState, o: GameObject): DrawState {
    DrawState(RemoveFirst(st.things, o), st.exiting)
  }

  /** `clearGameArena`. */
  function Clear(st: DrawState): DrawState {
    DrawState([], st.exiting)
  }

  /** `exit`. */
  function Exit(st: DrawState): DrawState {
    DrawState(st.things, true)
  }

  /** What the arena keeps true of its draw list between calls. */
  predicate Good(st: DrawState) {
    Sorted(st.things) && |st.things| <= MAX_OBJECTS + 1
  }

  /** One call of the public draw-list interface. The public adders pass
      each object's own layer. */
  datatype Op = AddObject(o: GameObject) | RemoveObject(o: GameObject) | ClearArena | ExitArena

  function Step(st: DrawState, op: Op): DrawState {
    match op
    case AddObject(o) => Add(st, o, LayerOf(o))
    case RemoveObject(o) => Remove(st, o)
    case ClearArena => Clear(st)
    case ExitArena => Exit(st)
  }

  function Run(st: DrawState, ops: seq<Op>): DrawState
    decreases |ops|
  {
    if ops == [] then st else Run(Step(st, ops[0]), ops[1..])
  }

  /** Every call of the public interface keeps the list sorted and within
      one object over MAX_OBJECTS. */
  lemma StepGood(st: DrawState, op: Op)
    requires Good(st)
    ensures Good(Step(st, op))
  {
    match op
    case AddObject(o) =>
      if !st.exiting && |st.things| <= MAX_OBJECTS {
        InsertSorted(st.things, o);
      }
    case RemoveObject(o) =>
      RemoveSorted(st.things, o);
      if o in st.things { RemovePresent(st.things, o); } else { RemoveAbsent(st.things, o); }
    case ClearArena =>
    case ExitArena =>
  }

  lemma {:induction false} RunGood(st: DrawState, ops: seq<Op>)
    requires Good(st)
    ensures Good(Run(st, ops))
    decreases |ops|
  {
    if ops != [] {
      StepGood(st, ops[0]);
      RunGood(Step(st, ops[0]), ops[1..]);
    }
  }

  /** Once set, the exiting flag is never reset by any sequence of calls. */
  lemma {:induction false} RunKeepsExiting(st: DrawState, ops: seq<Op>)
    requires st.exiting
    ensures Run(st, ops).exiting
    decreases |ops|
  {
    if ops != [] {
      RunKeepsExiting(Step(st, ops[0]), ops[1..]);
    }
  }

  /** While exiting, adds change nothing; removes and clears still act on
      the list. */
  lemma ExitingBlocksOnlyAdds(st: DrawState, o: GameObject, layer: int)
    requires st.exiting
    ensures Add(st, o, layer) == st
    ensures Remove(st, o).things == RemoveFirst(st.things, o) && Clear(st).things == []
  {
  }

  /** `exit` is idempotent and leaves the list alone. */
  lemma ExitIdempotent(st: DrawState)
    ensures Exit(Exit(st)) == Exit(st) && Exit(st).exiting && Exit(st).things == st.things
  {
  }

  /** The capacity boundary: a list of exactly MAX_OBJECTS still accepts an
      insert (reaching MAX_OBJECTS + 1 objects); the next insert only sets
      the exiting flag, and every later insert is ignored. */
  lemma CapacityBoundary(s: seq<GameObject>, o1: GameObject, o2: GameObject, o3: GameObject)
    requires |s| == MAX_OBJECTS
    ensures var st1 := Add(DrawState(s, false), o1, LayerOf(o1));
      var st2 := Add(st1, o2, LayerOf(o2));
      !st1.exiting && |st1.things| == MAX_OBJECTS + 1
      && st2 == DrawState(st1.things, true)
      && Add(st2, o3, LayerOf(o3)) == st2
  {
    InsertShape(s, o1, LayerOf(o1));
  }
}

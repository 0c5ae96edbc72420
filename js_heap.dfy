/**
 * The JavaScript object heap, stated explicitly. A value is undefined, a string or a
 * reference to a heap cell; a cell is an object (a map from property names to values)
 * or an array. Two values that hold the same reference denote the SAME object, so an
 * assignment into a nested object through one of them is visible through the other:
 * this is how the admin draft shares nested objects with the store's live settings.
 *
 * References always point to cells allocated earlier (a smaller location), because
 * objects are built bottom-up and assignments only ever store strings; this keeps the
 * object graph acyclic and lets `Snapshot` (what `JSON.stringify` sees) terminate.
 */
module JsHeap {
  import opened Common
  import opened JsonDoc
  import Text

  type Loc = nat

  datatype Val = Undefined | Str(s: string) | Ref(loc: Loc)

  datatype Cell = Record(fields: map<string, Val>) | List(items: seq<Val>)

  type Cells = map<Loc, Cell>

  /** A value that may be stored in a cell at location `bound`: a string or a reference below it. */
  predicate StoredBelow(cells: Cells, v: Val, bound: Loc)
  {
    match v
    case Undefined => false
    case Str(_) => true
    case Ref(l) => l < bound && l in cells
  }

  predicate CellBelow(cells: Cells, c: Cell, bound: Loc)
  {
    match c
    case Record(f) => forall k | k in f :: StoredBelow(cells, f[k], bound)
    case List(xs) => forall i | 0 <= i < |xs| :: StoredBelow(cells, xs[i], bound)
  }

  /** Every cell refers only to earlier cells. */
  predicate WellFormed(cells: Cells)
  {
    forall l | l in cells :: CellBelow(cells, cells[l], l)
  }

  /** A value whose reference, if any, is allocated. */
  predicate Readable(cells: Cells, v: Val)
  {
    v.Ref? ==> v.loc in cells
  }

  /** A defined value: a string or an allocated object. */
  predicate Live(cells: Cells, v: Val)
  {
    !v.Undefined? && Readable(cells, v)
  }

  function Rank(v: Val): nat
  {
    if v.Ref? then v.loc + 1 else 0
  }

  /** The document `JSON.stringify(v)` describes. */
  function Snapshot(cells: Cells, v: Val): Json
    requires WellFormed(cells) && Live(cells, v)
    decreases Rank(v)
  {
    match v
    case Str(s) => JStr(s)
    case Ref(l) =>
      match cells[l]
      case Record(f) => JObject(map k | k in f :: Snapshot(cells, f[k]))
      case List(xs) => JArray(seq(|xs|, i requires 0 <= i < |xs| => Snapshot(cells, xs[i])))
  }

  /** The document a value denotes; undefined denotes none. */
  function Doc(cells: Cells, v: Val): Option<Json>
    requires WellFormed(cells) && Readable(cells, v)
  {
    if v.Undefined? then None else Some(Snapshot(cells, v))
  }

  /** `c[key]` on an object or array cell; a missing property is undefined. */
  function Lookup(c: Cell, key: string): Val
  {
    match c
    case Record(f) => if key in f then f[key] else Undefined
    case List(xs) =>
      match Text.ParseIndex(key)
      case Some(i) => if i < |xs| then xs[i] else Undefined
      case None => Undefined
  }

  /** The property read `v[key]`: throws on undefined; a string has no modelled properties. */
  function Get(cells: Cells, v: Val, key: string): (r: Result<Val, WriteError>)
    requires WellFormed(cells) && Readable(cells, v)
    ensures r.Success? ==> Readable(cells, r.value)
    ensures r.Failure? <==> v.Undefined?
  {
    match v
    case Undefined => Failure(CannotRead(key))
    case Str(_) => Success(Undefined)
    case Ref(l) => Success(Lookup(cells[l], key))
  }

  /** Reading a property commutes with taking the document. */
  lemma GetDoc(cells: Cells, v: Val, key: string)
    requires WellFormed(cells) && Live(cells, v)
    ensures Get(cells, v, key).Success?
    ensures Doc(cells, Get(cells, v, key).value) == Member(Snapshot(cells, v), key)
  {
  }

  /** The reads `cur[k0][k1]…` of the walk; the first read of undefined throws. */
  function Walk(cells: Cells, cur: Val, keys: seq<string>): (r: Result<Val, WriteError>)
    requires WellFormed(cells) && Readable(cells, cur)
    ensures r.Success? ==> Readable(cells, r.value)
    decreases |keys|
  {
    if keys == [] then Success(cur)
    else
      match Get(cells, cur, keys[0])
      case Failure(e) => Failure(e)
      case Success(next) => Walk(cells, next, keys[1..])
  }

  /** `c[key] = value` on a cell. */
  function SetCell(c: Cell, key: string, value: string): Result<Cell, WriteError>
  {
    match c
    case Record(f) => Success(Record(f[key := Str(value)]))
    case List(xs) =>
      match Text.ParseIndex(key)
      case Some(i) => if i < |xs| then Success(List(xs[i := Str(value)])) else Failure(ArrayWriteNotModelled(key))
      case None => Failure(ArrayWriteNotModelled(key))
  }

  /**
   * The dotted-path assignment on the heap: walk every key but the last from `cur`,
   * then assign the last key IN PLACE in the object reached. Only that one cell changes.
   */
  function HeapAssign(cells: Cells, cur: Val, keys: seq<string>, value: string): Result<Cells, WriteError>
    requires WellFormed(cells) && Readable(cells, cur) && |keys| >= 1
  {
    var last := keys[|keys| - 1];
    match Walk(cells, cur, keys[..|keys| - 1])
    case Failure(e) => Failure(e)
    case Success(t) =>
      if !t.Ref? then Failure(CannotSet(last))
      else
        match SetCell(cells[t.loc], last, value)
        case Failure(e) => Failure(e)
        case Success(c) => Success(cells[t.loc := c])
  }

  // ---------------------------------------------------------------------------
  // Reachability and the tree shape of a parsed document
  // ---------------------------------------------------------------------------

  /** The locations of every object reachable from `v`, `v`'s own included. */
  ghost function Locs(cells: Cells, v: Val): set<Loc>
    requires WellFormed(cells) && Readable(cells, v)
    decreases Rank(v)
  {
    match v
    case Undefined => {}
    case Str(_) => {}
    case Ref(l) =>
      {l} +
      match cells[l]
      case Record(f) => (set k, x | k in f && x in Locs(cells, f[k]) :: x)
      case List(xs) => (set i, x | 0 <= i < |xs| && x in Locs(cells, xs[i]) :: x)
  }

  /**
   * No object is reachable from `v` along two different paths: distinct properties of
   * every reachable object lead to disjoint sets of objects. `JSON.parse` and object
   * literals build trees; nothing in the source makes one object a child twice.
   */
  ghost predicate Tree(cells: Cells, v: Val)
    requires WellFormed(cells) && Readable(cells, v)
    decreases Rank(v)
  {
    match v
    case Undefined => true
    case Str(_) => true
    case Ref(l) =>
      match cells[l]
      case Record(f) =>
        && (forall k | k in f :: Tree(cells, f[k]))
        && (forall k1, k2 | k1 in f && k2 in f && k1 != k2 :: Locs(cells, f[k1]) !! Locs(cells, f[k2]))
      case List(xs) =>
        && (forall i | 0 <= i < |xs| :: Tree(cells, xs[i]))
        && (forall i, j | 0 <= i < j < |xs| :: Locs(cells, xs[i]) !! Locs(cells, xs[j]))
  }

  lemma LocsBounded(cells: Cells, v: Val)
    requires WellFormed(cells) && Readable(cells, v)
    ensures forall x | x in Locs(cells, v) :: x in cells && x < Rank(v)
    decreases Rank(v)
  {
    if v.Ref? {
      var l := v.loc;
      match cells[l]
      case Record(f) =>
        forall k | k in f { LocsBounded(cells, f[k]); }
      case List(xs) =>
        forall i | 0 <= i < |xs| { LocsBounded(cells, xs[i]); }
    }
  }

  /** The objects reachable from a property are reachable from its owner. */
  lemma ChildLocs(cells: Cells, l: Loc, key: string)
    requires WellFormed(cells) && l in cells
    ensures Readable(cells, Lookup(cells[l], key))
    ensures Locs(cells, Lookup(cells[l], key)) <= Locs(cells, Ref(l))
  {
    var child := Lookup(cells[l], key);
    forall x | x in Locs(cells, child) ensures x in Locs(cells, Ref(l)) {
      match cells[l]
      case Record(f) => assert key in f && x in Locs(cells, f[key]);
      case List(xs) =>
        var i := Text.ParseIndex(key).value;
        assert 0 <= i < |xs| && x in Locs(cells, xs[i]);
    }
  }

  /** The object a walk reaches is reachable from where it started. */
  lemma {:induction false} WalkReaches(cells: Cells, cur: Val, keys: seq<string>)
    requires WellFormed(cells) && Readable(cells, cur)
    requires Walk(cells, cur, keys).Success? && Walk(cells, cur, keys).value.Ref?
    ensures Walk(cells, cur, keys).value.loc in Locs(cells, cur)
    decreases |keys|
  {
    if keys != [] {
      var next := Get(cells, cur, keys[0]).value;
      WalkReaches(cells, next, keys[1..]);
      if cur.Ref? {
        ChildLocs(cells, cur.loc, keys[0]);
      }
    }
  }

  // ---------------------------------------------------------------------------
  // Frames: what does not reach a changed cell does not change
  // ---------------------------------------------------------------------------

  /** `c2` holds the same cells as `c1` at every location reachable from `v`. */
  ghost predicate AgreeOn(c1: Cells, c2: Cells, v: Val)
    requires WellFormed(c1) && Readable(c1, v)
  {
    forall x | x in Locs(c1, v) :: x in c1 && x in c2 && c2[x] == c1[x]
  }

  lemma AgreeOnField(c1: Cells, c2: Cells, l: Loc, key: string)
    requires WellFormed(c1) && l in c1 && AgreeOn(c1, c2, Ref(l))
    ensures Readable(c1, Lookup(c1[l], key))
    ensures AgreeOn(c1, c2, Lookup(c1[l], key))
  {
    ChildLocs(c1, l, key);
  }

  lemma AgreeOnItem(c1: Cells, c2: Cells, l: Loc, xs: seq<Val>, i: int)
    requires WellFormed(c1) && l in c1 && c1[l] == List(xs) && 0 <= i < |xs|
    requires AgreeOn(c1, c2, Ref(l))
    ensures Readable(c1, xs[i]) && AgreeOn(c1, c2, xs[i])
  {
    forall x | x in Locs(c1, xs[i]) ensures x in Locs(c1, Ref(l)) {
      assert 0 <= i < |xs| && x in Locs(c1, xs[i]);
    }
  }

  lemma {:induction false} FrameLocs(c1: Cells, c2: Cells, v: Val)
    requires WellFormed(c1) && WellFormed(c2) && Readable(c1, v)
    requires AgreeOn(c1, c2, v)
    ensures Readable(c2, v)
    ensures Locs(c2, v) == Locs(c1, v)
    decreases Rank(v)
  {
    if v.Ref? {
      var l := v.loc;
      assert l in Locs(c1, v);
      match c1[l]
      case Record(f) =>
        forall k | k in f ensures Readable(c2, f[k]) && Locs(c2, f[k]) == Locs(c1, f[k]) {
          AgreeOnField(c1, c2, l, k);
          FrameLocs(c1, c2, f[k]);
        }
      case List(xs) =>
        forall i | 0 <= i < |xs| ensures Readable(c2, xs[i]) && Locs(c2, xs[i]) == Locs(c1, xs[i]) {
          AgreeOnItem(c1, c2, l, xs, i);
          FrameLocs(c1, c2, xs[i]);
        }
    }
  }

  lemma {:induction false} FrameSnapshot(c1: Cells, c2: Cells, v: Val)
    requires WellFormed(c1) && WellFormed(c2) && Live(c1, v)
    requires AgreeOn(c1, c2, v)
    ensures Live(c2, v) && Snapshot(c2, v) == Snapshot(c1, v)
    decreases Rank(v)
  {
    if v.Ref? {
      var l := v.loc;
      assert l in Locs(c1, v);
      match c1[l]
      case Record(f) =>
        forall k | k in f ensures Live(c2, f[k]) && Snapshot(c2, f[k]) == Snapshot(c1, f[k]) {
          AgreeOnField(c1, c2, l, k);
          FrameSnapshot(c1, c2, f[k]);
        }
      case List(xs) =>
        forall i | 0 <= i < |xs| ensures Live(c2, xs[i]) && Snapshot(c2, xs[i]) == Snapshot(c1, xs[i]) {
          AgreeOnItem(c1, c2, l, xs, i);
          FrameSnapshot(c1, c2, xs[i]);
        }
        assert Snapshot(c2, v).elems == Snapshot(c1, v).elems;
    }
  }

  lemma {:induction false} FrameTree(c1: Cells, c2: Cells, v: Val)
    requires WellFormed(c1) && WellFormed(c2) && Readable(c1, v)
    requires AgreeOn(c1, c2, v) && Tree(c1, v)
    ensures Readable(c2, v) && Tree(c2, v)
    decreases Rank(v)
  {
    FrameLocs(c1, c2, v);
    if v.Ref? {
      var l := v.loc;
      assert l in Locs(c1, v);
      match c1[l]
      case Record(f) =>
        forall k | k in f ensures Tree(c2, f[k]) && Locs(c2, f[k]) == Locs(c1, f[k]) {
          AgreeOnField(c1, c2, l, k);
          FrameTree(c1, c2, f[k]);
          FrameLocs(c1, c2, f[k]);
        }
      case List(xs) =>
        forall i | 0 <= i < |xs| ensures Tree(c2, xs[i]) && Locs(c2, xs[i]) == Locs(c1, xs[i]) {
          AgreeOnItem(c1, c2, l, xs, i);
          FrameTree(c1, c2, xs[i]);
          FrameLocs(c1, c2, xs[i]);
        }
    }
  }

  /** Cells that agree below `bound` agree on everything a value stored below `bound` reaches. */
  lemma AgreeBelow(c1: Cells, c2: Cells, v: Val, bound: Loc)
    requires WellFormed(c1) && Readable(c1, v) && Rank(v) <= bound
    requires forall x | x in c1 && x < bound :: x in c2 && c2[x] == c1[x]
    ensures AgreeOn(c1, c2, v)
  {
    LocsBounded(c1, v);
  }

  // ---------------------------------------------------------------------------
  // Changing one cell
  // ---------------------------------------------------------------------------

  /** Well-formedness of a cell depends only on which locations are allocated. */
  lemma CellBelowGrow(c1: Cells, c2: Cells, c: Cell, bound: Loc)
    requires c1.Keys <= c2.Keys && CellBelow(c1, c, bound)
    ensures CellBelow(c2, c, bound)
  {
  }

  /** Storing a new cell that refers only to earlier cells keeps the heap well formed. */
  lemma StoreWellFormed(cells: Cells, t: Loc, c: Cell)
    requires WellFormed(cells) && CellBelow(cells, c, t)
    ensures WellFormed(cells[t := c])
  {
    var c2 := cells[t := c];
    forall l | l in c2 ensures CellBelow(c2, c2[l], l) {
      if l == t {
        CellBelowGrow(cells, c2, c, t);
      } else {
        CellBelowGrow(cells, c2, cells[l], l);
      }
    }
  }

  /** `next` cell keeps the properties of `prev`, except that some became strings (or were added as strings). */
  predicate Shrinks(prev: Cell, next: Cell)
  {
    match prev
    case Record(f) =>
      next.Record? && forall k | k in next.fields :: next.fields[k].Str? || (k in f && next.fields[k] == f[k])
    case List(xs) =>
      next.List? && |next.items| == |xs| && forall i | 0 <= i < |xs| :: next.items[i].Str? || next.items[i] == xs[i]
  }

  lemma SetCellShrinks(cells: Cells, t: Loc, key: string, value: string)
    requires WellFormed(cells) && t in cells && SetCell(cells[t], key, value).Success?
    ensures Shrinks(cells[t], SetCell(cells[t], key, value).value)
    ensures CellBelow(cells, SetCell(cells[t], key, value).value, t)
  {
  }

  /** A write of strings only removes reachable objects. */
  lemma {:induction false} ShrinkLocs(cells: Cells, t: Loc, c: Cell, v: Val)
    requires WellFormed(cells) && t in cells && Shrinks(cells[t], c) && CellBelow(cells, c, t)
    requires Readable(cells, v)
    ensures WellFormed(cells[t := c]) && Readable(cells[t := c], v)
    ensures Locs(cells[t := c], v) <= Locs(cells, v)
    decreases Rank(v)
  {
    StoreWellFormed(cells, t, c);
    var c2 := cells[t := c];
    if v.Ref? {
      var l := v.loc;
      match c2[l]
      case Record(g) =>
        forall k | k in g ensures Locs(c2, g[k]) <= Locs(cells, Ref(l)) {
          if !g[k].Str? {
            ChildLocs(cells, l, k);
            assert Lookup(cells[l], k) == g[k];
            ShrinkLocs(cells, t, c, g[k]);
          }
        }
      case List(ys) =>
        forall i | 0 <= i < |ys| ensures Locs(c2, ys[i]) <= Locs(cells, Ref(l)) {
          if !ys[i].Str? {
            var xs := cells[l].items;
            forall x | x in Locs(cells, ys[i]) ensures x in Locs(cells, Ref(l)) {
              assert 0 <= i < |xs| && x in Locs(cells, xs[i]);
            }
            ShrinkLocs(cells, t, c, ys[i]);
          }
        }
    }
  }

  /** A write of strings keeps a tree a tree. */
  lemma {:induction false} ShrinkTree(cells: Cells, t: Loc, c: Cell, v: Val)
    requires WellFormed(cells) && t in cells && Shrinks(cells[t], c) && CellBelow(cells, c, t)
    requires Readable(cells, v) && Tree(cells, v)
    ensures WellFormed(cells[t := c]) && Readable(cells[t := c], v) && Tree(cells[t := c], v)
    decreases Rank(v)
  {
    StoreWellFormed(cells, t, c);
    var c2 := cells[t := c];
    if v.Ref? {
      var l := v.loc;
      match c2[l]
      case Record(g) =>
        var f := cells[l].fields;
        forall k | k in g ensures Tree(c2, g[k]) && Locs(c2, g[k]) <= Locs(cells, Lookup(cells[l], k)) {
          if !g[k].Str? {
            assert k in f && g[k] == f[k];
            ShrinkTree(cells, t, c, g[k]);
            ShrinkLocs(cells, t, c, g[k]);
          }
        }
      case List(ys) =>
        var xs := cells[l].items;
        forall i | 0 <= i < |ys| ensures Tree(c2, ys[i]) && Locs(c2, ys[i]) <= Locs(cells, xs[i]) {
          if !ys[i].Str? {
            ShrinkTree(cells, t, c, ys[i]);
            ShrinkLocs(cells, t, c, ys[i]);
          }
        }
    }
  }

  // ---------------------------------------------------------------------------
  // The heap assignment agrees with the document-level assignment
  // ---------------------------------------------------------------------------

  /** Setting a property of one object is `SetMember` on its document, with the same error when it throws. */
  lemma SetCellDoc(cells: Cells, t: Loc, key: string, value: string)
    requires WellFormed(cells) && t in cells
    ensures SetCell(cells[t], key, value).Failure? ==>
      SetMember(Snapshot(cells, Ref(t)), key, value) == Failure(SetCell(cells[t], key, value).error)
    ensures SetCell(cells[t], key, value).Success? ==>
      var c2 := cells[t := SetCell(cells[t], key, value).value];
      WellFormed(c2) && SetMember(Snapshot(cells, Ref(t)), key, value) == Success(Snapshot(c2, Ref(t)))
  {
    if SetCell(cells[t], key, value).Success? {
      var c := SetCell(cells[t], key, value).value;
      SetCellShrinks(cells, t, key, value);
      StoreWellFormed(cells, t, c);
      var c2 := cells[t := c];
      match cells[t]
      case Record(f) =>
        forall k | k in f && k != key ensures Snapshot(c2, f[k]) == Snapshot(cells, f[k]) {
          AgreeBelow(cells, c2, f[k], t);
          FrameSnapshot(cells, c2, f[k]);
        }
        assert Snapshot(c2, Ref(t)).members == Snapshot(cells, Ref(t)).members[key := JStr(value)];
      case List(xs) =>
        var i := Text.ParseIndex(key).value;
        forall j | 0 <= j < |xs| && j != i ensures Snapshot(c2, xs[j]) == Snapshot(cells, xs[j]) {
          AgreeBelow(cells, c2, xs[j], t);
          FrameSnapshot(cells, c2, xs[j]);
        }
        assert Snapshot(c2, Ref(t)).elems == Snapshot(cells, Ref(t)).elems[i := JStr(value)];
    }
  }

  /**
   * When only objects reachable through the property `key` of object `l` change (and
   * the document below `l` is a tree), `l`'s new document is the old one with that
   * member replaced.
   */
  lemma ReplaceDoc(cells: Cells, c2: Cells, l: Loc, key: string)
    requires WellFormed(cells) && WellFormed(c2) && l in cells && Tree(cells, Ref(l))
    requires Live(cells, Lookup(cells[l], key))
    requires c2.Keys == cells.Keys
    requires forall x | x in cells && x !in Locs(cells, Lookup(cells[l], key)) :: c2[x] == cells[x]
    ensures Snapshot(c2, Ref(l)) ==
      Replace(Snapshot(cells, Ref(l)), key, Snapshot(c2, Lookup(cells[l], key)))
  {
    var child := Lookup(cells[l], key);
    LocsBounded(cells, child);
    assert c2[l] == cells[l];
    match cells[l]
    case Record(f) =>
      forall k | k in f && k != key ensures Snapshot(c2, f[k]) == Snapshot(cells, f[k]) {
        assert Locs(cells, f[k]) !! Locs(cells, f[key]);
        LocsBounded(cells, f[k]);
        FrameSnapshot(cells, c2, f[k]);
      }
      assert Snapshot(c2, Ref(l)).members == Snapshot(cells, Ref(l)).members[key := Snapshot(c2, child)];
    case List(xs) =>
      var i := Text.ParseIndex(key).value;
      forall j | 0 <= j < |xs| && j != i ensures Snapshot(c2, xs[j]) == Snapshot(cells, xs[j]) {
        assert Locs(cells, xs[j]) !! Locs(cells, xs[i]) by {
          if j < i {
            assert Locs(cells, xs[j]) !! Locs(cells, xs[i]);
          } else {
            assert Locs(cells, xs[i]) !! Locs(cells, xs[j]);
          }
        }
        LocsBounded(cells, xs[j]);
        FrameSnapshot(cells, c2, xs[j]);
      }
      assert Snapshot(c2, Ref(l)).elems == Snapshot(cells, Ref(l)).elems[i := Snapshot(c2, child)];
  }

  /** One step of the walk: assigning `keys` from `cur` is assigning `keys[1..]` from `cur[keys[0]]`. */
  lemma HeapAssignStep(cells: Cells, cur: Val, keys: seq<string>, value: string)
    requires WellFormed(cells) && Readable(cells, cur) && |keys| >= 2 && !cur.Undefined?
    ensures HeapAssign(cells, cur, keys, value) ==
      HeapAssign(cells, Get(cells, cur, keys[0]).value, keys[1..], value)
  {
    assert keys[..|keys| - 1][1..] == keys[1..][..|keys[1..]| - 1];
  }

  /** The cell a successful heap assignment changes, reachable from where the walk started. */
  lemma HeapAssignTarget(cells: Cells, cur: Val, keys: seq<string>, value: string) returns (t: Loc)
    requires WellFormed(cells) && Readable(cells, cur) && |keys| >= 1
    requires HeapAssign(cells, cur, keys, value).Success?
    ensures Walk(cells, cur, keys[..|keys| - 1]).Success? && t == Walk(cells, cur, keys[..|keys| - 1]).value.loc
    ensures t in Locs(cells, cur) && t in cells
    ensures SetCell(cells[t], keys[|keys| - 1], value).Success?
    ensures HeapAssign(cells, cur, keys, value).value == cells[t := SetCell(cells[t], keys[|keys| - 1], value).value]
  {
    WalkReaches(cells, cur, keys[..|keys| - 1]);
    t := Walk(cells, cur, keys[..|keys| - 1]).value.loc;
  }

  /**
   * Assigning through a dotted path on the heap, starting from a tree, changes the
   * document of the start exactly as the document-level `Assign` does, and throws
   * exactly when it throws, with the same error.
   */
  lemma {:induction false} HeapAssignDoc(cells: Cells, cur: Val, keys: seq<string>, value: string)
    requires WellFormed(cells) && Readable(cells, cur) && Tree(cells, cur) && |keys| >= 1
    ensures HeapAssign(cells, cur, keys, value).Failure? ==>
      Assign(Doc(cells, cur), keys, value) == Failure(HeapAssign(cells, cur, keys, value).error)
    ensures HeapAssign(cells, cur, keys, value).Success? ==>
      var c2 := HeapAssign(cells, cur, keys, value).value;
      WellFormed(c2) && Live(c2, cur) && Tree(c2, cur) &&
      Assign(Doc(cells, cur), keys, value) == Success(Snapshot(c2, cur))
    decreases |keys|
  {
    var r := HeapAssign(cells, cur, keys, value);
    if |keys| == 1 {
      if cur.Ref? {
        SetCellDoc(cells, cur.loc, keys[0], value);
        if r.Success? {
          SetCellShrinks(cells, cur.loc, keys[0], value);
          ShrinkTree(cells, cur.loc, SetCell(cells[cur.loc], keys[0], value).value, cur);
        }
      }
    } else if !cur.Undefined? {
      var next := Get(cells, cur, keys[0]).value;
      GetDoc(cells, cur, keys[0]);
      HeapAssignStep(cells, cur, keys, value);
      if cur.Ref? {
        TreeChild(cells, cur.loc, keys[0]);
        HeapAssignDoc(cells, next, keys[1..], value);
        if r.Success? {
          var t := HeapAssignTarget(cells, next, keys[1..], value);
          var c := SetCell(cells[t], keys[|keys| - 1], value).value;
          SetCellShrinks(cells, t, keys[|keys| - 1], value);
          ShrinkTree(cells, t, c, cur);
          ReplaceDoc(cells, r.value, cur.loc, keys[0]);
        }
      } else {
        HeapAssignDoc(cells, next, keys[1..], value);
      }
    }
  }

  lemma TreeChild(cells: Cells, l: Loc, key: string)
    requires WellFormed(cells) && l in cells && Tree(cells, Ref(l))
    ensures Readable(cells, Lookup(cells[l], key)) && Tree(cells, Lookup(cells[l], key))
  {
  }
}

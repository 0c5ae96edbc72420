/**
 * The allocating operations of the JavaScript runtime the components rely on:
 * `JSON.parse` (a fresh tree of objects), the object and array spreads `{...x}` and
 * `[...xs]` (a fresh top-level copy whose members are SHARED with the original) and
 * the dotted-path assignment loop of the settings editors.
 */
module JsRuntime {
  import opened Common
  import opened JsonDoc
  import opened JsHeap

  /** `c2` keeps every cell of `c1` (it may hold more). */
  ghost predicate Extends(c1: Cells, c2: Cells)
  {
    forall l | l in c1 :: l in c2 && c2[l] == c1[l]
  }

  /** Allocation does not disturb what existing values denote. */
  lemma ExtendsFrame(c1: Cells, c2: Cells, v: Val)
    requires WellFormed(c1) && WellFormed(c2) && Extends(c1, c2) && Readable(c1, v)
    ensures Readable(c2, v) && Locs(c2, v) == Locs(c1, v)
    ensures Live(c1, v) ==> Live(c2, v) && Snapshot(c2, v) == Snapshot(c1, v)
    ensures Tree(c1, v) ==> Tree(c2, v)
  {
    LocsBounded(c1, v);
    FrameLocs(c1, c2, v);
    if Live(c1, v) {
      FrameSnapshot(c1, c2, v);
    }
    if Tree(c1, v) {
      FrameTree(c1, c2, v);
    }
  }

  class Heap {
    var cells: Cells
    var next: Loc

    ghost predicate Valid()
      reads this
    {
      WellFormed(cells) && forall l | l in cells :: l < next
    }

    constructor ()
      ensures Valid() && cells == map[]
    {
      cells := map[];
      next := 0;
    }

    /** A new object or array holding values that already exist. */
    method Alloc(c: Cell) returns (l: Loc)
      requires Valid() && CellBelow(cells, c, next)
      modifies this
      ensures Valid() && l == old(next) && l !in old(cells) && cells == old(cells)[l := c]
      ensures next == l + 1
    {
      l := next;
      StoreWellFormed(cells, l, c);
      cells := cells[l := c];
      next := next + 1;
    }

    /**
     * Builds a document as a tree of new objects, leaving every existing object as it
     * was: what `JSON.parse` does with serialised text, and what evaluating an object
     * literal of strings and nested literals does.
     */
    method Build(doc: Json) returns (v: Val)
      requires Valid()
      modifies this
      ensures Valid() && Extends(old(cells), cells) && old(next) <= next
      ensures Live(cells, v) && Snapshot(cells, v) == doc && Tree(cells, v)
      ensures forall x | x in Locs(cells, v) :: old(next) <= x
      decreases doc, 1
    {
      match doc
      case JStr(s) =>
        v := Str(s);
      case JObject(m) =>
        v := BuildObject(doc);
      case JArray(xs) =>
        v := BuildArray(doc);
    }

    method BuildObject(doc: Json) returns (v: Val)
      requires Valid() && doc.JObject?
      modifies this
      ensures Valid() && Extends(old(cells), cells) && old(next) <= next
      ensures Live(cells, v) && Snapshot(cells, v) == doc && Tree(cells, v)
      ensures forall x | x in Locs(cells, v) :: old(next) <= x
      decreases doc, 0
    {
      var m := doc.members;
      var start := next;
      var f: map<string, Val> := map[];
      var todo := m.Keys;
      while todo != {}
        invariant Valid() && Extends(old(cells), cells) && start <= next
        invariant todo <= m.Keys && f.Keys == m.Keys - todo
        invariant BuiltMembers(cells, f, m, start)
        invariant CellBelow(cells, Record(f), next)
        decreases todo
      {
        var k :| k in todo;
        ghost var before := cells;
        var child := Build(m[k]);
        BuiltMembersStep(before, cells, f, m, start, k, child);
        CellBelowGrow(before, cells, Record(f), next);
        f := f[k := child];
        todo := todo - {k};
      }
      ghost var before := cells;
      var l := Alloc(Record(f));
      BuiltMembersAlloc(before, l, f, m, start);
      v := Ref(l);
    }

    method BuildArray(doc: Json) returns (v: Val)
      requires Valid() && doc.JArray?
      modifies this
      ensures Valid() && Extends(old(cells), cells) && old(next) <= next
      ensures Live(cells, v) && Snapshot(cells, v) == doc && Tree(cells, v)
      ensures forall x | x in Locs(cells, v) :: old(next) <= x
      decreases doc, 0
    {
      var xs := doc.elems;
      var start := next;
      var items: seq<Val> := [];
      for i := 0 to |xs|
        invariant Valid() && Extends(old(cells), cells) && start <= next
        invariant |items| == i
        invariant BuiltItems(cells, items, xs, start)
        invariant CellBelow(cells, List(items), next)
      {
        ghost var before := cells;
        var child := Build(xs[i]);
        BuiltItemsStep(before, cells, items, xs, start, child);
        CellBelowGrow(before, cells, List(items), next);
        items := items + [child];
      }
      ghost var before := cells;
      var l := Alloc(List(items));
      BuiltItemsAlloc(before, l, items, xs, start);
      v := Ref(l);
    }
    /**
     * The editors' path writer: `current = current[keys[i]]` for every key but the
     * last, then `current[last] = value`, in place. Throws (and changes nothing) when a
     * read hits undefined or the final target cannot hold the property.
     */
    method AssignPath(start: Val, keys: seq<string>, value: string) returns (r: Outcome<WriteError>)
      requires Valid() && Readable(cells, start) && |keys| >= 1
      modifies this
      ensures Valid() && next == old(next)
      ensures HeapAssign(old(cells), start, keys, value).Success? ==>
        r == Pass && cells == HeapAssign(old(cells), start, keys, value).value
      ensures HeapAssign(old(cells), start, keys, value).Failure? ==>
        r == Fail(HeapAssign(old(cells), start, keys, value).error) && cells == old(cells)
    {
      var n := |keys| - 1;
      var current := start;
      var i := 0;
      while i < n
        invariant 0 <= i <= n && Readable(cells, current)
        invariant Walk(cells, start, keys[..n]) == Walk(cells, current, keys[i..n])
      {
        assert keys[i..n][1..] == keys[i + 1..n];
        var step := Get(cells, current, keys[i]);
        if step.Failure? {
          return Fail(step.error);
        }
        current := step.value;
        i := i + 1;
      }
      assert keys[i..n] == [];
      var last := keys[n];
      if !current.Ref? {
        return Fail(CannotSet(last));
      }
      var c := SetCell(cells[current.loc], last, value);
      if c.Failure? {
        return Fail(c.error);
      }
      SetCellShrinks(cells, current.loc, last, value);
      StoreWellFormed(cells, current.loc, c.value);
      cells := cells[current.loc := c.value];
      r := Pass;
    }
  }

  /** Members already parsed: each is its document's tree, built at or above `start`, disjoint from the others. */
  ghost predicate BuiltMembers(cells: Cells, f: map<string, Val>, m: map<string, Json>, start: Loc)
  {
    && WellFormed(cells)
    && f.Keys <= m.Keys
    && (forall k | k in f :: Live(cells, f[k]) && Snapshot(cells, f[k]) == m[k] && Tree(cells, f[k]))
    && (forall k | k in f :: forall x | x in Locs(cells, f[k]) :: start <= x)
    && (forall k1, k2 | k1 in f && k2 in f && k1 != k2 :: Locs(cells, f[k1]) !! Locs(cells, f[k2]))
  }

  ghost predicate BuiltItems(cells: Cells, items: seq<Val>, xs: seq<Json>, start: Loc)
  {
    && WellFormed(cells)
    && |items| <= |xs|
    && (forall j | 0 <= j < |items| :: Live(cells, items[j]) && Snapshot(cells, items[j]) == xs[j] && Tree(cells, items[j]))
    && (forall j | 0 <= j < |items| :: forall x | x in Locs(cells, items[j]) :: start <= x)
    && (forall j1, j2 | 0 <= j1 < j2 < |items| :: Locs(cells, items[j1]) !! Locs(cells, items[j2]))
  }

  lemma BuiltMembersStep(c1: Cells, c2: Cells, f: map<string, Val>, m: map<string, Json>, start: Loc, k: string, child: Val)
    requires BuiltMembers(c1, f, m, start) && WellFormed(c2) && Extends(c1, c2)
    requires k in m && k !in f
    requires Live(c2, child) && Snapshot(c2, child) == m[k] && Tree(c2, child)
    requires forall x | x in Locs(c2, child) :: x !in c1 && start <= x
    ensures BuiltMembers(c2, f[k := child], m, start)
  {
    forall k' | k' in f
      ensures Live(c2, f[k']) && Snapshot(c2, f[k']) == m[k'] && Tree(c2, f[k'])
      ensures Locs(c2, f[k']) == Locs(c1, f[k']) && Locs(c2, f[k']) !! Locs(c2, child)
    {
      ExtendsFrame(c1, c2, f[k']);
      LocsBounded(c1, f[k']);
    }
  }

  lemma BuiltItemsStep(c1: Cells, c2: Cells, items: seq<Val>, xs: seq<Json>, start: Loc, child: Val)
    requires BuiltItems(c1, items, xs, start) && WellFormed(c2) && Extends(c1, c2)
    requires |items| < |xs|
    requires Live(c2, child) && Snapshot(c2, child) == xs[|items|] && Tree(c2, child)
    requires forall x | x in Locs(c2, child) :: x !in c1 && start <= x
    ensures BuiltItems(c2, items + [child], xs, start)
  {
    forall j | 0 <= j < |items|
      ensures Live(c2, items[j]) && Snapshot(c2, items[j]) == xs[j] && Tree(c2, items[j])
      ensures Locs(c2, items[j]) == Locs(c1, items[j]) && Locs(c2, items[j]) !! Locs(c2, child)
    {
      ExtendsFrame(c1, c2, items[j]);
      LocsBounded(c1, items[j]);
    }
  }

  lemma BuiltMembersAlloc(c1: Cells, l: Loc, f: map<string, Val>, m: map<string, Json>, start: Loc)
    requires BuiltMembers(c1, f, m, start) && f.Keys == m.Keys && l !in c1 && start <= l
    requires CellBelow(c1, Record(f), l)
    ensures var c2 := c1[l := Record(f)];
      WellFormed(c2) && Live(c2, Ref(l)) && Snapshot(c2, Ref(l)) == JObject(m) && Tree(c2, Ref(l)) &&
      forall x | x in Locs(c2, Ref(l)) :: start <= x
  {
    StoreWellFormed(c1, l, Record(f));
    var c2 := c1[l := Record(f)];
    forall k | k in f
      ensures Live(c2, f[k]) && Snapshot(c2, f[k]) == m[k] && Tree(c2, f[k])
      ensures Locs(c2, f[k]) == Locs(c1, f[k])
    {
      ExtendsFrame(c1, c2, f[k]);
    }
    assert Snapshot(c2, Ref(l)).members == m;
  }

  lemma BuiltItemsAlloc(c1: Cells, l: Loc, items: seq<Val>, xs: seq<Json>, start: Loc)
    requires BuiltItems(c1, items, xs, start) && |items| == |xs| && l !in c1 && start <= l
    requires CellBelow(c1, List(items), l)
    ensures var c2 := c1[l := List(items)];
      WellFormed(c2) && Live(c2, Ref(l)) && Snapshot(c2, Ref(l)) == JArray(xs) && Tree(c2, Ref(l)) &&
      forall x | x in Locs(c2, Ref(l)) :: start <= x
  {
    StoreWellFormed(c1, l, List(items));
    var c2 := c1[l := List(items)];
    forall j | 0 <= j < |items|
      ensures Live(c2, items[j]) && Snapshot(c2, items[j]) == xs[j] && Tree(c2, items[j])
      ensures Locs(c2, items[j]) == Locs(c1, items[j])
    {
      ExtendsFrame(c1, c2, items[j]);
    }
    assert Snapshot(c2, Ref(l)).elems == xs;
  }

  /** A cell stored at `b1` may also be stored at any later location. */
  lemma CellBelowRaise(cells: Cells, c: Cell, b1: Loc, b2: Loc)
    requires CellBelow(cells, c, b1) && b1 <= b2
    ensures CellBelow(cells, c, b2)
  {
  }

  /** The objects reachable from the elements of an array are reachable from the array. */
  lemma ItemLocs(cells: Cells, l: Loc, i: int)
    requires WellFormed(cells) && l in cells && cells[l].List? && 0 <= i < |cells[l].items|
    ensures Readable(cells, cells[l].items[i]) && Locs(cells, cells[l].items[i]) <= Locs(cells, Ref(l))
  {
    var xs := cells[l].items;
    forall x | x in Locs(cells, xs[i]) ensures x in Locs(cells, Ref(l)) {
      assert 0 <= i < |xs| && x in Locs(cells, xs[i]);
    }
  }

  /** What a new object reaches: itself and what its members reach. */
  lemma FreshLocsWithin(c1: Cells, l: Loc, c: Cell, within: set<Loc>)
    requires WellFormed(c1) && l !in c1 && CellBelow(c1, c, l)
    requires c.Record? ==> forall k | k in c.fields :: Locs(c1, c.fields[k]) <= within
    requires c.List? ==> forall i | 0 <= i < |c.items| :: Locs(c1, c.items[i]) <= within
    ensures WellFormed(c1[l := c]) && Locs(c1[l := c], Ref(l)) <= {l} + within
  {
    StoreWellFormed(c1, l, c);
    var c2 := c1[l := c];
    assert Extends(c1, c2);
    match c
    case Record(f) =>
      forall k | k in f ensures Locs(c2, f[k]) == Locs(c1, f[k]) {
        ExtendsFrame(c1, c2, f[k]);
      }
    case List(xs) =>
      forall i | 0 <= i < |xs| ensures Locs(c2, xs[i]) == Locs(c1, xs[i]) {
        ExtendsFrame(c1, c2, xs[i]);
      }
  }

  /**
   * A new object whose members are existing trees that share nothing is a tree, and
   * its document is made of theirs: the object literal and spread `{...x, k: v}`.
   */
  lemma FreshRecord(c1: Cells, l: Loc, f: map<string, Val>)
    requires WellFormed(c1) && l !in c1 && CellBelow(c1, Record(f), l)
    requires forall k | k in f :: Tree(c1, f[k])
    requires forall k1, k2 | k1 in f && k2 in f && k1 != k2 :: Locs(c1, f[k1]) !! Locs(c1, f[k2])
    ensures var c2 := c1[l := Record(f)];
      WellFormed(c2) && Live(c2, Ref(l)) && Tree(c2, Ref(l)) &&
      Snapshot(c2, Ref(l)) == JObject(map k | k in f :: Snapshot(c1, f[k]))
  {
    StoreWellFormed(c1, l, Record(f));
    var c2 := c1[l := Record(f)];
    assert Extends(c1, c2);
    forall k | k in f
      ensures Live(c2, f[k]) && Snapshot(c2, f[k]) == Snapshot(c1, f[k]) && Tree(c2, f[k])
      ensures Locs(c2, f[k]) == Locs(c1, f[k])
    {
      ExtendsFrame(c1, c2, f[k]);
    }
  }

  /** The array literal and spread `[...xs, v]` and `xs.filter(…)`: a new array of existing, unshared trees. */
  lemma FreshList(c1: Cells, l: Loc, items: seq<Val>)
    requires WellFormed(c1) && l !in c1 && CellBelow(c1, List(items), l)
    requires forall i | 0 <= i < |items| :: Tree(c1, items[i])
    requires forall i, j | 0 <= i < j < |items| :: Locs(c1, items[i]) !! Locs(c1, items[j])
    ensures var c2 := c1[l := List(items)];
      WellFormed(c2) && Live(c2, Ref(l)) && Tree(c2, Ref(l)) &&
      Snapshot(c2, Ref(l)) == JArray(seq(|items|, i requires 0 <= i < |items| => Snapshot(c1, items[i])))
  {
    StoreWellFormed(c1, l, List(items));
    var c2 := c1[l := List(items)];
    assert Extends(c1, c2);
    forall i | 0 <= i < |items|
      ensures Live(c2, items[i]) && Snapshot(c2, items[i]) == Snapshot(c1, items[i]) && Tree(c2, items[i])
      ensures Locs(c2, items[i]) == Locs(c1, items[i])
    {
      ExtendsFrame(c1, c2, items[i]);
    }
  }

  /** Assigning through undefined always throws. */
  lemma HeapAssignUndefined(cells: Cells, keys: seq<string>, value: string)
    requires WellFormed(cells) && |keys| >= 1
    ensures HeapAssign(cells, Undefined, keys, value).Failure?
  {
  }

  /** A successful heap assignment leaves the heap well formed and every tree a tree. */
  lemma HeapAssignKeepsTree(cells: Cells, cur: Val, keys: seq<string>, value: string, v: Val)
    requires WellFormed(cells) && Readable(cells, cur) && |keys| >= 1
    requires HeapAssign(cells, cur, keys, value).Success?
    requires Readable(cells, v) && Tree(cells, v)
    ensures var c2 := HeapAssign(cells, cur, keys, value).value;
      WellFormed(c2) && c2.Keys == cells.Keys && Readable(c2, v) && Tree(c2, v)
  {
    var t := HeapAssignTarget(cells, cur, keys, value);
    SetCellShrinks(cells, t, keys[|keys| - 1], value);
    ShrinkTree(cells, t, SetCell(cells[t], keys[|keys| - 1], value).value, v);
  }

  /** A value that does not reach the assigned object keeps its document. */
  lemma HeapAssignUnreached(cells: Cells, cur: Val, keys: seq<string>, value: string, v: Val, t: Loc)
    requires WellFormed(cells) && Readable(cells, cur) && |keys| >= 1
    requires HeapAssign(cells, cur, keys, value).Success?
    requires t in cells && SetCell(cells[t], keys[|keys| - 1], value).Success?
    requires HeapAssign(cells, cur, keys, value).value == cells[t := SetCell(cells[t], keys[|keys| - 1], value).value]
    requires Live(cells, v) && t !in Locs(cells, v)
    ensures var c2 := HeapAssign(cells, cur, keys, value).value;
      WellFormed(c2) && Live(c2, v) && Snapshot(c2, v) == Snapshot(cells, v)
  {
    var c2 := HeapAssign(cells, cur, keys, value).value;
    SetCellShrinks(cells, t, keys[|keys| - 1], value);
    StoreWellFormed(cells, t, SetCell(cells[t], keys[|keys| - 1], value).value);
    LocsBounded(cells, v);
    FrameSnapshot(cells, c2, v);
  }

  /**
   * Aliasing: when object `a` and tree `b` hold the same object under `keys[0]`, an
   * assignment through `keys` (two or more of them) starting at `a` changes `b`'s
   * document exactly as if it had been made on `b`.
   */
  lemma SharedMemberWrite(cells: Cells, a: Loc, b: Loc, keys: seq<string>, value: string)
    requires WellFormed(cells) && a in cells && b in cells && Tree(cells, Ref(b))
    requires |keys| >= 2 && Lookup(cells[a], keys[0]) == Lookup(cells[b], keys[0])
    requires HeapAssign(cells, Ref(a), keys, value).Success?
    ensures var c2 := HeapAssign(cells, Ref(a), keys, value).value;
      WellFormed(c2) && Live(c2, Ref(b)) &&
      Assign(Some(Snapshot(cells, Ref(b))), keys, value) == Success(Snapshot(c2, Ref(b)))
  {
    var child := Lookup(cells[a], keys[0]);
    ChildLocs(cells, a, keys[0]);
    HeapAssignStep(cells, Ref(a), keys, value);
    HeapAssignUndefined(cells, keys[1..], value);
    TreeChild(cells, b, keys[0]);
    HeapAssignDoc(cells, child, keys[1..], value);
    var t := HeapAssignTarget(cells, child, keys[1..], value);
    var c2 := HeapAssign(cells, Ref(a), keys, value).value;
    SetCellShrinks(cells, t, keys[|keys| - 1], value);
    StoreWellFormed(cells, t, SetCell(cells[t], keys[|keys| - 1], value).value);
    ReplaceDoc(cells, c2, b, keys[0]);
    GetDoc(cells, Ref(b), keys[0]);
  }

  /** Allocation does not change where a walk leads. */
  lemma {:induction false} ExtendsWalk(c1: Cells, c2: Cells, v: Val, keys: seq<string>)
    requires WellFormed(c1) && WellFormed(c2) && Extends(c1, c2) && Readable(c1, v)
    ensures Readable(c2, v) && Walk(c2, v, keys) == Walk(c1, v, keys)
    decreases |keys|
  {
    if keys != [] && !v.Undefined? {
      ExtendsWalk(c1, c2, Get(c1, v, keys[0]).value, keys[1..]);
    }
  }

  /** Two values reach the same object by `path`. */
  ghost predicate ReachSame(cells: Cells, a: Val, b: Val, path: seq<string>)
  {
    && WellFormed(cells) && Readable(cells, a) && Readable(cells, b)
    && Walk(cells, a, path).Success? && Walk(cells, a, path).value.Ref?
    && Walk(cells, b, path) == Walk(cells, a, path)
  }

  /** Assigning through `keys` from where a walk along `prefix` ends is assigning through `prefix + keys`. */
  lemma {:induction false} HeapAssignVia(cells: Cells, cur: Val, prefix: seq<string>, start: Val, keys: seq<string>, value: string)
    requires WellFormed(cells) && Readable(cells, cur) && |keys| >= 1
    requires Walk(cells, cur, prefix) == Success(start)
    ensures Readable(cells, start)
    ensures HeapAssign(cells, cur, prefix + keys, value) == HeapAssign(cells, start, keys, value)
    decreases |prefix|
  {
    if prefix == [] {
      assert prefix + keys == keys;
    } else {
      var next := Get(cells, cur, prefix[0]).value;
      assert (prefix + keys)[0] == prefix[0];
      HeapAssignStep(cells, cur, prefix + keys, value);
      assert (prefix + keys)[1..] == prefix[1..] + keys;
      HeapAssignVia(cells, next, prefix[1..], start, keys, value);
    }
  }

  /**
   * Aliasing in general: an assignment through `keys` made at an object that tree `b`
   * reaches by `prefix`, whoever else holds that object, changes `b`'s document exactly
   * as the document-level assignment through `prefix + keys` does.
   */
  lemma ReachedWrite(cells: Cells, b: Val, prefix: seq<string>, start: Val, keys: seq<string>, value: string)
    requires WellFormed(cells) && Live(cells, b) && Tree(cells, b) && |keys| >= 1
    requires Walk(cells, b, prefix) == Success(start)
    requires HeapAssign(cells, start, keys, value).Success?
    ensures var c2 := HeapAssign(cells, start, keys, value).value;
      WellFormed(c2) && Live(c2, b) && Tree(c2, b) &&
      Assign(Some(Snapshot(cells, b)), prefix + keys, value) == Success(Snapshot(c2, b))
  {
    HeapAssignVia(cells, b, prefix, start, keys, value);
    HeapAssignDoc(cells, b, prefix + keys, value);
  }

  /** The spread `{...x}` of an object tree: a new object tree with the same document. */
  lemma SpreadRecord(c1: Cells, src: Loc, l: Loc)
    requires WellFormed(c1) && src in c1 && c1[src].Record? && Tree(c1, Ref(src))
    requires l !in c1 && forall x | x in c1 :: x < l
    ensures var c2 := c1[l := c1[src]];
      WellFormed(c2) && Extends(c1, c2) && Live(c2, Ref(l)) && Tree(c2, Ref(l)) &&
      Snapshot(c2, Ref(l)) == Snapshot(c1, Ref(src)) &&
      forall k :: Lookup(c2[l], k) == Lookup(c1[src], k)
  {
    var f := c1[src].fields;
    CellBelowRaise(c1, c1[src], src, l);
    FreshRecord(c1, l, f);
    var c2 := c1[l := c1[src]];
    assert Snapshot(c2, Ref(l)).members == Snapshot(c1, Ref(src)).members;
  }

  /** The array document made of the documents of `items`. */
  function ItemsDoc(cells: Cells, items: seq<Val>): Json
    requires WellFormed(cells) && forall i | 0 <= i < |items| :: Live(cells, items[i])
  {
    JArray(seq(|items|, i requires 0 <= i < |items| => Snapshot(cells, items[i])))
  }

  /** Elements of a tree array: trees, disjoint, and within the array's reach. */
  lemma ListParts(c: Cells, s: Loc)
    requires WellFormed(c) && s in c && c[s].List? && Tree(c, Ref(s))
    ensures forall i | 0 <= i < |c[s].items| ::
      Live(c, c[s].items[i]) && Tree(c, c[s].items[i]) && Locs(c, c[s].items[i]) <= Locs(c, Ref(s))
    ensures forall i, j | 0 <= i < j < |c[s].items| :: Locs(c, c[s].items[i]) !! Locs(c, c[s].items[j])
    ensures Snapshot(c, Ref(s)) == ItemsDoc(c, c[s].items)
  {
    forall i | 0 <= i < |c[s].items| ensures Locs(c, c[s].items[i]) <= Locs(c, Ref(s)) {
      ItemLocs(c, s, i);
    }
  }

  /** A new array of some elements of tree array `s`, in order: `[...xs]`, `xs.filter(…)`. */
  lemma FreshSublist(c: Cells, s: Loc, l: Loc, items: seq<Val>, pick: seq<nat>)
    requires WellFormed(c) && s in c && c[s].List? && Tree(c, Ref(s))
    requires l !in c && forall y | y in c :: y < l
    requires |pick| == |items| && forall i | 0 <= i < |pick| :: pick[i] < |c[s].items| && items[i] == c[s].items[pick[i]]
    requires forall i, j | 0 <= i < j < |pick| :: pick[i] < pick[j]
    ensures CellBelow(c, List(items), l)
    ensures var c2 := c[l := List(items)];
      WellFormed(c2) && Live(c2, Ref(l)) && Tree(c2, Ref(l)) && Extends(c, c2) &&
      Snapshot(c2, Ref(l)) == ItemsDoc(c, items) && Locs(c2, Ref(l)) <= {l} + Locs(c, Ref(s))
  {
    ListParts(c, s);
    CellBelowRaise(c, List(items), s, l) by {
      assert forall i | 0 <= i < |items| :: StoredBelow(c, items[i], s);
    }
    FreshList(c, l, items);
    FreshLocsWithin(c, l, List(items), Locs(c, Ref(s)));
  }

  /** `[...xs, x]` for a tree array `s` and a tree `x` built after it. */
  lemma FreshListAppend(c: Cells, s: Loc, x: Val, l: Loc, mark: Loc)
    requires WellFormed(c) && s in c && c[s].List? && Tree(c, Ref(s))
    requires Live(c, x) && Tree(c, x) && Rank(x) <= l
    requires l !in c && forall y | y in c :: y < l
    requires (forall y | y in Locs(c, Ref(s)) :: y < mark) && (forall y | y in Locs(c, x) :: mark <= y)
    ensures CellBelow(c, List(c[s].items + [x]), l)
    ensures var c2 := c[l := List(c[s].items + [x])];
      WellFormed(c2) && Live(c2, Ref(l)) && Tree(c2, Ref(l)) && Extends(c, c2) &&
      Snapshot(c2, Ref(l)) == JArray(Snapshot(c, Ref(s)).elems + [Snapshot(c, x)]) &&
      Locs(c2, Ref(l)) <= {l} + Locs(c, Ref(s)) + Locs(c, x)
  {
    ListParts(c, s);
    var items := c[s].items + [x];
    assert CellBelow(c, List(items), l) by {
      assert CellBelow(c, c[s], s);
      forall i | 0 <= i < |items| ensures StoredBelow(c, items[i], l) {
        if i < |c[s].items| {
          assert StoredBelow(c, c[s].items[i], s);
        }
      }
    }
    forall i, j | 0 <= i < j < |items| ensures Locs(c, items[i]) !! Locs(c, items[j]) {
      if j == |c[s].items| {
        assert Locs(c, items[i]) <= Locs(c, Ref(s));
      }
    }
    FreshList(c, l, items);
    FreshLocsWithin(c, l, List(items), Locs(c, Ref(s)) + Locs(c, x));
    var c2 := c[l := List(items)];
    assert Snapshot(c2, Ref(l)).elems == Snapshot(c, Ref(s)).elems + [Snapshot(c, x)];
  }

  /**
   * `{...src, key: v}` for a tree object `src` and a tree `v` that shares nothing with
   * `src`'s other members: a new tree whose document replaces `key`.
   */
  lemma SpreadWith(c: Cells, src: Loc, key: string, v: Val, l: Loc)
    requires WellFormed(c) && src in c && c[src].Record? && Tree(c, Ref(src))
    requires Live(c, v) && Tree(c, v) && Rank(v) <= l
    requires l !in c && forall y | y in c :: y < l
    requires forall k | k in c[src].fields && k != key :: Locs(c, c[src].fields[k]) !! Locs(c, v)
    ensures CellBelow(c, Record(c[src].fields[key := v]), l)
    ensures var c2 := c[l := Record(c[src].fields[key := v])];
      WellFormed(c2) && Live(c2, Ref(l)) && Tree(c2, Ref(l)) && Extends(c, c2) &&
      Snapshot(c2, Ref(l)) == JObject(Snapshot(c, Ref(src)).members[key := Snapshot(c, v)])
  {
    var f := c[src].fields;
    var g := f[key := v];
    assert CellBelow(c, Record(g), l) by {
      assert CellBelow(c, c[src], src);
      forall k | k in g ensures StoredBelow(c, g[k], l) {
        if k != key {
          assert StoredBelow(c, f[k], src);
        }
      }
    }
    forall k | k in f ensures Tree(c, f[k]) {
      TreeChild(c, src, k);
      assert Lookup(c[src], k) == f[k];
    }
    FreshRecord(c, l, g);
    var c2 := c[l := Record(g)];
    assert Snapshot(c2, Ref(l)).members == Snapshot(c, Ref(src)).members[key := Snapshot(c, v)];
  }

  /** A successful heap assignment only removes reachable objects. */
  lemma HeapAssignLocs(cells: Cells, cur: Val, keys: seq<string>, value: string, v: Val)
    requires WellFormed(cells) && Readable(cells, cur) && |keys| >= 1
    requires HeapAssign(cells, cur, keys, value).Success? && Readable(cells, v)
    ensures var c2 := HeapAssign(cells, cur, keys, value).value;
      WellFormed(c2) && Readable(c2, v) && Locs(c2, v) <= Locs(cells, v)
  {
    var t := HeapAssignTarget(cells, cur, keys, value);
    SetCellShrinks(cells, t, keys[|keys| - 1], value);
    ShrinkLocs(cells, t, SetCell(cells[t], keys[|keys| - 1], value).value, v);
  }

  /** The spread `[...xs]` of an array tree: a new array tree with the same elements. */
  lemma SpreadList(c1: Cells, src: Loc, l: Loc)
    requires WellFormed(c1) && src in c1 && c1[src].List? && Tree(c1, Ref(src))
    requires l !in c1 && forall x | x in c1 :: x < l
    ensures var c2 := c1[l := c1[src]];
      WellFormed(c2) && Extends(c1, c2) && Live(c2, Ref(l)) && Tree(c2, Ref(l)) &&
      Snapshot(c2, Ref(l)) == Snapshot(c1, Ref(src)) &&
      Locs(c2, Ref(l)) <= {l} + Locs(c1, Ref(src)) &&
      forall k :: Lookup(c2[l], k) == Lookup(c1[src], k)
  {
    var xs := c1[src].items;
    FreshSublist(c1, src, l, xs, seq(|xs|, i => i));
    ListParts(c1, src);
  }
}

/**
 * The admin panel's draft of the brand settings. The draft starts as (and is re-synced
 * to) the store's settings object itself; the dotted-path writer copies only its top
 * level and assigns in place below it, so nested objects stay shared with the store's
 * live settings (and, after a reset, with the seed object).
 */
module AdminPanel {
  import opened Common
  import opened JsonDoc
  import opened JsHeap
  import opened JsRuntime
  import opened BrandSettingsContext
  import Text

  /** An allocated plain object: what the draft is while the panel renders. */
  predicate IsObject(cells: Cells, v: Val)
  {
    v.Ref? && v.loc in cells && cells[v.loc].Record?
  }

  class AdminPanel {
    const store: BrandSettingsStore
    /** The draft (`formData`). */
    var formData: Val

    ghost predicate Valid()
      reads this, store, store.heap
    {
      store.Valid() && Live(store.heap.cells, formData) && Tree(store.heap.cells, formData)
    }

    /** The document the draft describes. */
    function Draft(): Json
      reads this, store, store.heap
      requires Valid()
    {
      Snapshot(store.heap.cells, formData)
    }

    /** `useState(settings)`: the draft starts as the store's settings object. */
    constructor (store: BrandSettingsStore)
      requires store.Valid()
      ensures Valid() && this.store == store && formData == store.settings
    {
      this.store := store;
      formData := store.settings;
    }

    /**
     * `handleInputChange(path, value)`: split the path at dots, spread the draft, walk
     * every key but the last from the copy, assign the last, and make the copy the
     * draft. A read of undefined or an assignment onto a primitive throws, and then the
     * draft is not replaced.
     */
    method HandleInputChange(path: string, value: string) returns (outcome: Outcome<WriteError>)
      requires Valid() && IsObject(store.heap.cells, formData)
      modifies this, store.heap
      ensures Valid() && store.settings == old(store.settings) && store.storage == old(store.storage)
      ensures var keys := Text.Split(path, '.');
        var expected := Assign(Some(old(Draft())), keys, value);
        && (outcome.Pass? <==> expected.Success?)
        && (outcome.Fail? ==> expected == Failure(outcome.error) && formData == old(formData) && Draft() == old(Draft()))
        && (outcome.Pass? ==> Draft() == expected.value && IsObject(store.heap.cells, formData))
      ensures |Text.Split(path, '.')| == 1 ==> store.SettingsDoc() == old(store.SettingsDoc())
      ensures var keys := Text.Split(path, '.');
        outcome.Pass? && |keys| >= 2 && old(SharesMember(store.heap.cells, formData, store.settings, keys[0])) ==>
          Assign(Some(old(store.SettingsDoc())), keys, value) == Success(store.SettingsDoc())
    {
      var heap := store.heap;
      var keys := Text.Split(path, '.');
      ghost var c0 := heap.cells;
      var copy := heap.Alloc(heap.cells[formData.loc]);
      InputChangeCopy(c0, heap.cells, formData.loc, copy, store.settings, store.seed);
      InputChangeDoc(c0, heap.cells, formData.loc, copy, keys, value);
      InputChangeKeepsTree(c0, heap.cells, formData.loc, copy, keys, value, store.settings);
      InputChangeKeepsTree(c0, heap.cells, formData.loc, copy, keys, value, store.seed);
      if |keys| == 1 {
        InputChangeSingleKey(c0, heap.cells, formData.loc, copy, keys, value, store.settings);
      } else if SharesMember(c0, formData, store.settings, keys[0]) {
        InputChangeShared(c0, heap.cells, formData.loc, copy, keys, value, store.settings);
      }
      var newData := Ref(copy);
      outcome := heap.AssignPath(newData, keys, value);
      if outcome.Pass? {
        formData := newData;
      }
    }

    /** `handleSave()`: the store's settings become the draft object itself. */
    method HandleSave()
      requires Valid()
      modifies store
      ensures Valid() && formData == old(formData) && store.settings == formData
      ensures store.SettingsDoc() == Draft()
      ensures store.storage == if formData == old(store.settings) then old(store.storage) else Some(Serialized(Draft()))
    {
      store.UpdateSettings(formData);
    }

    /**
     * `handleReset()`: reset the store, set the draft to the settings object the
     * handler's closure captured (the pre-reset one), then let the re-sync effect set
     * the draft to the new settings, which are the seed object.
     */
    method HandleReset() returns (ghost draftBeforeEffects: Val)
      requires Valid()
      modifies this, store
      ensures Valid() && store.settings == store.seed
      ensures draftBeforeEffects == old(store.settings)
      ensures formData == store.seed && Draft() == Snapshot(store.heap.cells, store.seed)
      ensures store.storage == if old(store.settings) == store.seed then None else Some(Serialized(Draft()))
    {
      var captured := store.settings;
      store.ResetSettings();
      formData := captured;
      draftBeforeEffects := formData;
      if store.settings != captured {
        formData := store.settings;
      }
    }
  }

  /** Objects `a` and `b` hold the same object under `key`. */
  ghost predicate SharesMember(cells: Cells, a: Val, b: Val, key: string)
  {
    a.Ref? && b.Ref? && a.loc in cells && b.loc in cells && Lookup(cells[a.loc], key) == Lookup(cells[b.loc], key)
  }

  /** The spread of the draft: a new object tree; nothing that existed changes. */
  lemma InputChangeCopy(c0: Cells, c1: Cells, fd: Loc, copy: Loc, settings: Val, seed: Val)
    requires WellFormed(c0) && fd in c0 && c0[fd].Record? && Tree(c0, Ref(fd))
    requires Live(c0, settings) && Tree(c0, settings) && Live(c0, seed) && Tree(c0, seed)
    requires copy !in c0 && (forall x | x in c0 :: x < copy) && c1 == c0[copy := c0[fd]]
    ensures WellFormed(c1) && IsObject(c1, Ref(copy)) && Tree(c1, Ref(copy))
    ensures Snapshot(c1, Ref(copy)) == Snapshot(c0, Ref(fd))
    ensures Live(c1, settings) && Tree(c1, settings) && Snapshot(c1, settings) == Snapshot(c0, settings)
    ensures Live(c1, seed) && Tree(c1, seed) && Snapshot(c1, seed) == Snapshot(c0, seed)
    ensures Live(c1, Ref(fd)) && Tree(c1, Ref(fd)) && Snapshot(c1, Ref(fd)) == Snapshot(c0, Ref(fd))
  {
    SpreadRecord(c0, fd, copy);
    ExtendsFrame(c0, c1, settings);
    ExtendsFrame(c0, c1, seed);
    ExtendsFrame(c0, c1, Ref(fd));
  }

  /** The walk-and-assign from the copy does to the draft's document what `Assign` does. */
  lemma InputChangeDoc(c0: Cells, c1: Cells, fd: Loc, copy: Loc, keys: seq<string>, value: string)
    requires WellFormed(c0) && fd in c0 && c0[fd].Record? && Tree(c0, Ref(fd))
    requires copy !in c0 && (forall x | x in c0 :: x < copy) && c1 == c0[copy := c0[fd]]
    requires |keys| >= 1
    ensures WellFormed(c1) && Readable(c1, Ref(copy))
    ensures var h := HeapAssign(c1, Ref(copy), keys, value);
      && (h.Failure? ==> Assign(Some(Snapshot(c0, Ref(fd))), keys, value) == Failure(h.error))
      && (h.Success? ==>
          && WellFormed(h.value) && IsObject(h.value, Ref(copy)) && Tree(h.value, Ref(copy))
          && Assign(Some(Snapshot(c0, Ref(fd))), keys, value) == Success(Snapshot(h.value, Ref(copy))))
  {
    SpreadRecord(c0, fd, copy);
    HeapAssignDoc(c1, Ref(copy), keys, value);
    var h := HeapAssign(c1, Ref(copy), keys, value);
    if h.Success? {
      var t := HeapAssignTarget(c1, Ref(copy), keys, value);
    }
  }

  /** Every other tree (the settings, the seed) stays a tree. */
  lemma InputChangeKeepsTree(c0: Cells, c1: Cells, fd: Loc, copy: Loc, keys: seq<string>, value: string, v: Val)
    requires WellFormed(c0) && fd in c0 && c0[fd].Record? && Tree(c0, Ref(fd))
    requires copy !in c0 && (forall x | x in c0 :: x < copy) && c1 == c0[copy := c0[fd]]
    requires |keys| >= 1 && Live(c0, v) && Tree(c0, v)
    ensures WellFormed(c1) && Readable(c1, Ref(copy))
    ensures var h := HeapAssign(c1, Ref(copy), keys, value);
      h.Success? ==> WellFormed(h.value) && Live(h.value, v) && Tree(h.value, v)
  {
    SpreadRecord(c0, fd, copy);
    ExtendsFrame(c0, c1, v);
    var h := HeapAssign(c1, Ref(copy), keys, value);
    if h.Success? {
      HeapAssignKeepsTree(c1, Ref(copy), keys, value, v);
    }
  }

  /** A one-segment path only changes the new top-level copy. */
  lemma InputChangeSingleKey(c0: Cells, c1: Cells, fd: Loc, copy: Loc, keys: seq<string>, value: string, v: Val)
    requires WellFormed(c0) && fd in c0 && c0[fd].Record? && Tree(c0, Ref(fd))
    requires copy !in c0 && (forall x | x in c0 :: x < copy) && c1 == c0[copy := c0[fd]]
    requires |keys| == 1 && Live(c0, v)
    ensures WellFormed(c1) && Readable(c1, Ref(copy))
    ensures var h := HeapAssign(c1, Ref(copy), keys, value);
      h.Success? ==> WellFormed(h.value) && Live(h.value, v) && Snapshot(h.value, v) == Snapshot(c0, v)
  {
    SpreadRecord(c0, fd, copy);
    var h := HeapAssign(c1, Ref(copy), keys, value);
    if h.Success? {
      LocsBounded(c0, v);
      ExtendsFrame(c0, c1, v);
      var t := HeapAssignTarget(c1, Ref(copy), keys, value);
      assert keys[..|keys| - 1] == [];
      HeapAssignUnreached(c1, Ref(copy), keys, value, v, t);
    }
  }

  /** A longer path writes into a nested object the copy shares with the draft, and so with `v` if `v` shares it too. */
  lemma InputChangeShared(c0: Cells, c1: Cells, fd: Loc, copy: Loc, keys: seq<string>, value: string, v: Val)
    requires WellFormed(c0) && fd in c0 && c0[fd].Record? && Tree(c0, Ref(fd))
    requires copy !in c0 && (forall x | x in c0 :: x < copy) && c1 == c0[copy := c0[fd]]
    requires |keys| >= 2 && Live(c0, v) && Tree(c0, v) && SharesMember(c0, Ref(fd), v, keys[0])
    ensures WellFormed(c1) && Readable(c1, Ref(copy))
    ensures var h := HeapAssign(c1, Ref(copy), keys, value);
      h.Success? ==> (WellFormed(h.value) && Live(h.value, v) &&
        Assign(Some(Snapshot(c0, v)), keys, value) == Success(Snapshot(h.value, v)))
  {
    SpreadRecord(c0, fd, copy);
    ExtendsFrame(c0, c1, v);
    var h := HeapAssign(c1, Ref(copy), keys, value);
    if h.Success? {
      SharedMemberWrite(c1, copy, v.loc, keys, value);
    }
  }
}

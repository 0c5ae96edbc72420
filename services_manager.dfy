/**
 * The services editor of the admin draft: append a new service, delete one by index
 * (offered only while more than one remains), and edit a field of one service through
 * a dotted path. Each replaces the draft with `{...formData, services: newList}`.
 */
module ServicesManager {
  import opened Common
  import opened JsonDoc
  import opened JsHeap
  import opened JsRuntime
  import opened BrandSchema
  import AP = AdminPanel
  import Text
  import Lists

  /**
   * The service `addService` creates at time `now` (milliseconds): its id is `service-`
   * followed by the decimal time, which reads back as `now`.
   */
  function NewService(now: nat): (s: Service)
    ensures |s.id| > 8 && s.id[..8] == "service-"
    ensures (forall i | 8 <= i < |s.id| :: Text.IsDigit(s.id[i])) && Text.DigitsValue(s.id[8..]) == now
    ensures s.title.en != "" && s.title.fr != "" && s.description.en != "" && s.description.fr != ""
    ensures s.title == LocaleText("New Service", "Nouveau Service")
    ensures s.description == LocaleText("Service description", "Description du service") && s.icon == "circle"
  {
    assert ("service-" + Text.NatToString(now))[8..] == Text.NatToString(now);
    Text.NatToStringValue(now);
    Service("service-" + Text.NatToString(now),
            LocaleText("New Service", "Nouveau Service"),
            LocaleText("Service description", "Description du service"),
            "circle")
  }

  function NewServiceDoc(now: nat): Json
  {
    EncodeService(NewService(now))
  }

  /** Two new services get the same id exactly when they were created at the same millisecond. */
  lemma NewServiceIds(a: nat, b: nat)
    ensures NewService(a).id == NewService(b).id <==> a == b
  {
    Text.NatToStringInjective(a, b);
    if NewService(a).id == NewService(b).id {
      assert ("service-" + Text.NatToString(a))[8..] == Text.NatToString(a);
      assert ("service-" + Text.NatToString(b))[8..] == Text.NatToString(b);
    }
  }

  /** `formData.services` as an array. */
  function ServicesOf(draft: Json): Option<seq<Json>>
  {
    match Member(draft, "services")
    case Some(JArray(xs)) => Some(xs)
    case _ => None
  }

  predicate HasServices(draft: Json)
  {
    draft.JObject? && ServicesOf(draft).Some?
  }

  /** The draft after `addService` at time `now`. */
  function AddServiceDoc(draft: Json, now: nat): (r: Json)
    requires HasServices(draft)
    ensures HasServices(r) && ServicesOf(r) == Some(ServicesOf(draft).value + [NewServiceDoc(now)])
    ensures forall k | k != "services" :: Member(r, k) == Member(draft, k)
  {
    JObject(draft.members["services" := JArray(ServicesOf(draft).value + [NewServiceDoc(now)])])
  }

  /** The draft after `deleteService(index)`. */
  function DeleteServiceDoc(draft: Json, index: int): (r: Json)
    requires HasServices(draft)
    ensures HasServices(r) && ServicesOf(r) == Some(Lists.RemoveAt(ServicesOf(draft).value, index))
    ensures forall k | k != "services" :: Member(r, k) == Member(draft, k)
  {
    JObject(draft.members["services" := JArray(Lists.RemoveAt(ServicesOf(draft).value, index))])
  }

  /** The delete control is rendered only while there is more than one service. */
  predicate DeleteOffered(draft: Json)
  {
    HasServices(draft) && |ServicesOf(draft).value| > 1
  }

  /** The dotted path `handleServiceChange(index, field, …)` writes, from the draft's root. */
  function ServicePath(index: nat, field: string): (keys: seq<string>)
    ensures |keys| >= 3 && keys[0] == "services" && keys[1] == Text.NatToString(index)
    ensures keys[2..] == Text.Split(field, '.')
  {
    ["services", Text.NatToString(index)] + Text.Split(field, '.')
  }

  /** Deleting the service just added restores the draft exactly. */
  lemma AddThenDelete(draft: Json, now: nat)
    requires HasServices(draft)
    ensures DeleteServiceDoc(AddServiceDoc(draft, now), |ServicesOf(draft).value|) == draft
  {
    var xs := ServicesOf(draft).value;
    Lists.RemoveAppended(xs, NewServiceDoc(now));
    assert draft.members["services" := JArray(xs)] == draft.members;
  }

  /** Deletions made through the control never empty the list. */
  lemma DeleteKeepsOne(draft: Json, index: int)
    requires DeleteOffered(draft)
    ensures |ServicesOf(DeleteServiceDoc(draft, index)).value| >= 1
  {
  }

  /** On a well-typed draft, adding a service appends `NewService(now)` to the typed list. */
  lemma AddServiceTyped(s: BrandSettings, now: nat)
    ensures HasServices(Encode(s))
    ensures AddServiceDoc(Encode(s), now) == Encode(s.(services := s.services + [NewService(now)]))
  {
    var s2 := s.(services := s.services + [NewService(now)]);
    assert Member(Encode(s), "services") == Some(JArray(EncodeServices(s.services)));
    assert EncodeServices(s2.services) == EncodeServices(s.services) + [NewServiceDoc(now)];
    assert Encode(s2).members == Encode(s).members["services" := JArray(EncodeServices(s2.services))];
  }

  /** On a well-typed draft, deleting removes the typed service at the index. */
  lemma DeleteServiceTyped(s: BrandSettings, index: int)
    ensures HasServices(Encode(s))
    ensures DeleteServiceDoc(Encode(s), index) == Encode(s.(services := Lists.RemoveAt(s.services, index)))
  {
    var s2 := s.(services := Lists.RemoveAt(s.services, index));
    assert Member(Encode(s), "services") == Some(JArray(EncodeServices(s.services)));
    assert EncodeServices(s2.services) == Lists.RemoveAt(EncodeServices(s.services), index);
    assert Encode(s2).members == Encode(s).members["services" := JArray(EncodeServices(s2.services))];
  }

  /**
   * Editing one field of service `index` keeps the number of services, every other
   * service and every other member of the draft.
   */
  lemma ServiceChangeKeepsRest(draft: Json, index: nat, field: string, value: string)
    requires HasServices(draft)
    requires Assign(Some(draft), ServicePath(index, field), value).Success?
    ensures var r := Assign(Some(draft), ServicePath(index, field), value).value;
      && HasServices(r) && |ServicesOf(r).value| == |ServicesOf(draft).value|
      && (forall j: nat | j != index :: Read(Some(r), ["services", Text.NatToString(j)]) == Read(Some(draft), ["services", Text.NatToString(j)]))
      && (forall k | k != "services" :: Member(r, k) == Member(draft, k))
  {
    var keys := ServicePath(index, field);
    var r := Assign(Some(draft), keys, value).value;
    var xs := ServicesOf(draft).value;
    var inner := Assign(Some(JArray(xs)), keys[1..], value);
    assert inner.Success?;
    var child := Assign(Member(JArray(xs), keys[1]), keys[2..], value).value;
    assert keys[1..][1..] == keys[2..];
    assert inner.value == Replace(JArray(xs), keys[1], child);
    assert r == Replace(draft, "services", inner.value);
    forall j: nat | j != index
      ensures Read(Some(r), ["services", Text.NatToString(j)]) == Read(Some(draft), ["services", Text.NatToString(j)])
    {
      Text.NatToStringInjective(j, index);
      AssignKeepsOtherPaths(draft, keys, value, ["services", Text.NatToString(j)]);
    }
    forall k | k != "services" ensures Member(r, k) == Member(draft, k) {
      AssignKeepsOtherPaths(draft, keys, value, [k]);
    }
  }

  // ---------------------------------------------------------------------------
  // The handlers, on the draft's objects
  // ---------------------------------------------------------------------------

  /** The draft is an object whose `services` member is an array (the editor maps over it). */
  predicate ServicesArray(cells: Cells, draft: Val)
  {
    && AP.IsObject(cells, draft)
    && Lookup(cells[draft.loc], "services").Ref?
    && Lookup(cells[draft.loc], "services").loc in cells
    && cells[Lookup(cells[draft.loc], "services").loc].List?
  }

  lemma ServicesArrayDoc(cells: Cells, draft: Val)
    requires WellFormed(cells) && ServicesArray(cells, draft) && Tree(cells, draft)
    ensures HasServices(Snapshot(cells, draft))
    ensures var s := Lookup(cells[draft.loc], "services");
      Tree(cells, s) && JArray(ServicesOf(Snapshot(cells, draft)).value) == Snapshot(cells, s)
  {
    GetDoc(cells, draft, "services");
    TreeChild(cells, draft.loc, "services");
  }

  /** Everything reachable from a heap lies below its next free location. */
  lemma LocsBelowNext(heap: Heap, v: Val)
    requires heap.Valid() && Readable(heap.cells, v)
    ensures forall x | x in Locs(heap.cells, v) :: x in heap.cells && x < heap.next
  {
    LocsBounded(heap.cells, v);
  }

  /**
   * A new services array built from the old one's elements and locations at or above
   * `mark` shares nothing with the draft's other members.
   */
  lemma NewArrayDisjoint(c0: Cells, c2: Cells, fd: Loc, s: Loc, extra: set<Loc>, list: Loc, mark: Loc)
    requires WellFormed(c0) && fd in c0 && c0[fd].Record? && Tree(c0, Ref(fd)) && Lookup(c0[fd], "services") == Ref(s)
    requires forall x | x in c0 :: x < mark
    requires WellFormed(c2) && Extends(c0, c2)
    requires forall y | y in extra :: mark <= y
    requires mark <= list && Readable(c2, Ref(list))
    requires Locs(c2, Ref(list)) <= {list} + Locs(c0, Ref(s)) + extra
    ensures forall k | k in c2[fd].fields && k != "services" :: Locs(c2, c2[fd].fields[k]) !! Locs(c2, Ref(list))
  {
    var f := c0[fd].fields;
    forall k | k in f && k != "services" ensures Locs(c2, f[k]) !! Locs(c2, Ref(list)) {
      ChildLocs(c0, fd, k);
      assert Lookup(c0[fd], k) == f[k];
      LocsBounded(c0, f[k]);
      ExtendsFrame(c0, c2, f[k]);
      assert Locs(c0, f[k]) !! Locs(c0, Ref(s));
    }
  }

  /** `[...formData.services, newService]`: a new array tree sharing nothing with the draft's other members. */
  lemma AddServiceList(c0: Cells, c1: Cells, fd: Loc, s: Loc, service: Val, mark: Loc, list: Loc, now: nat)
    requires WellFormed(c0) && ServicesArray(c0, Ref(fd)) && Tree(c0, Ref(fd)) && Lookup(c0[fd], "services") == Ref(s)
    requires forall x | x in c0 :: x < mark
    requires WellFormed(c1) && Extends(c0, c1)
    requires Live(c1, service) && Tree(c1, service) && Snapshot(c1, service) == NewServiceDoc(now)
    requires forall x | x in Locs(c1, service) :: mark <= x
    requires (forall x | x in c1 :: x < list) && mark <= list
    ensures CellBelow(c1, List(c1[s].items + [service]), list)
    ensures var c2 := c1[list := List(c1[s].items + [service])];
      && WellFormed(c2) && Extends(c0, c2) && Live(c2, Ref(list)) && Tree(c2, Ref(list))
      && HasServices(Snapshot(c0, Ref(fd)))
      && Snapshot(c2, Ref(list)) == JArray(ServicesOf(Snapshot(c0, Ref(fd))).value + [NewServiceDoc(now)])
      && Tree(c2, Ref(fd)) && Snapshot(c2, Ref(fd)) == Snapshot(c0, Ref(fd)) && c2[fd] == c0[fd]
      && (forall k | k in c2[fd].fields && k != "services" :: Locs(c2, c2[fd].fields[k]) !! Locs(c2, Ref(list)))
  {
    ServicesArrayDoc(c0, Ref(fd));
    LocsBounded(c0, Ref(s));
    ExtendsFrame(c0, c1, Ref(s));
    LocsBounded(c1, service);
    FreshListAppend(c1, s, service, list, mark);
    var c2 := c1[list := List(c1[s].items + [service])];
    ExtendsFrame(c0, c2, Ref(fd));
    ExtendsFrame(c1, c2, service);
    LocsBounded(c2, service);
    NewArrayDisjoint(c0, c2, fd, s, Locs(c2, service), list, mark);
  }

  /** `{...formData, services: list}`: the new draft, a tree whose document replaces `services`. */
  lemma SpreadServices(c2: Cells, fd: Loc, list: Loc, root: Loc, d0: Json, arr: Json)
    requires WellFormed(c2) && fd in c2 && c2[fd].Record? && Tree(c2, Ref(fd)) && Snapshot(c2, Ref(fd)) == d0
    requires Live(c2, Ref(list)) && Tree(c2, Ref(list)) && Snapshot(c2, Ref(list)) == arr && c2[list].List?
    requires (forall x | x in c2 :: x < root) && list < root
    requires forall k | k in c2[fd].fields && k != "services" :: Locs(c2, c2[fd].fields[k]) !! Locs(c2, Ref(list))
    ensures CellBelow(c2, Record(c2[fd].fields["services" := Ref(list)]), root)
    ensures var c3 := c2[root := Record(c2[fd].fields["services" := Ref(list)])];
      && WellFormed(c3) && Extends(c2, c3) && ServicesArray(c3, Ref(root)) && Tree(c3, Ref(root))
      && Snapshot(c3, Ref(root)) == JObject(d0.members["services" := arr])
  {
    SpreadWith(c2, fd, "services", Ref(list), root);
  }

  /**
   * `setFormData({...formData, services: list})`: a new top-level object holding the
   * draft's members, with `services` replaced by `list`, becomes the draft.
   */
  method SetServices(panel: AP.AdminPanel, list: Loc)
    requires panel.Valid() && AP.IsObject(panel.store.heap.cells, panel.formData)
    requires list in panel.store.heap.cells && panel.store.heap.cells[list].List? && Tree(panel.store.heap.cells, Ref(list))
    requires forall k | k in panel.store.heap.cells[panel.formData.loc].fields && k != "services" ::
      Locs(panel.store.heap.cells, panel.store.heap.cells[panel.formData.loc].fields[k]) !! Locs(panel.store.heap.cells, Ref(list))
    modifies panel, panel.store.heap
    ensures panel.Valid() && ServicesArray(panel.store.heap.cells, panel.formData)
    ensures old(panel.Draft()).JObject?
    ensures panel.Draft() == JObject(old(panel.Draft()).members["services" := old(Snapshot(panel.store.heap.cells, Ref(list)))])
    ensures panel.store.settings == old(panel.store.settings) && panel.store.storage == old(panel.store.storage)
    ensures panel.store.SettingsDoc() == old(panel.store.SettingsDoc())
  {
    var heap := panel.store.heap;
    var fd := panel.formData.loc;
    ghost var c2 := heap.cells;
    SpreadServices(c2, fd, list, heap.next, Snapshot(c2, Ref(fd)), Snapshot(c2, Ref(list)));
    var root := heap.Alloc(Record(heap.cells[fd].fields["services" := Ref(list)]));
    ExtendsFrame(c2, heap.cells, panel.store.settings);
    ExtendsFrame(c2, heap.cells, panel.store.seed);
    panel.formData := Ref(root);
  }

  /**
   * `addService()`: build the new service literal, the array `[...formData.services,
   * newService]`, then `{...formData, services: …}` as the new draft.
   */
  method AddService(panel: AP.AdminPanel, now: nat)
    requires panel.Valid() && ServicesArray(panel.store.heap.cells, panel.formData)
    modifies panel, panel.store.heap
    ensures panel.Valid() && ServicesArray(panel.store.heap.cells, panel.formData)
    ensures HasServices(old(panel.Draft())) && panel.Draft() == AddServiceDoc(old(panel.Draft()), now)
    ensures panel.store.settings == old(panel.store.settings) && panel.store.storage == old(panel.store.storage)
    ensures panel.store.SettingsDoc() == old(panel.store.SettingsDoc())
  {
    var heap := panel.store.heap;
    var fd := panel.formData.loc;
    var s := Lookup(heap.cells[fd], "services").loc;
    ghost var c0 := heap.cells;
    ghost var d0 := Snapshot(c0, Ref(fd));
    var service := heap.Build(NewServiceDoc(now));
    AddServiceList(c0, heap.cells, fd, s, service, old(heap.next), heap.next, now);
    var list := heap.Alloc(List(heap.cells[s].items + [service]));
    ExtendsFrame(c0, heap.cells, panel.store.settings);
    ExtendsFrame(c0, heap.cells, panel.store.seed);
    SetServices(panel, list);
  }

  /** The document of the filtered elements is the filtered document. */
  lemma ItemsDocRemoveAt(c: Cells, xs: seq<Val>, index: int)
    requires WellFormed(c) && forall i | 0 <= i < |xs| :: Live(c, xs[i])
    ensures forall i | 0 <= i < |Lists.RemoveAt(xs, index)| :: Live(c, Lists.RemoveAt(xs, index)[i])
    ensures ItemsDoc(c, Lists.RemoveAt(xs, index)) == JArray(Lists.RemoveAt(ItemsDoc(c, xs).elems, index))
  {
  }

  /** The positions of `xs` that `Lists.RemoveAt(xs, index)` keeps, in order. */
  function Kept(xs: seq<Val>, index: int): (pick: seq<nat>)
    ensures |pick| == |Lists.RemoveAt(xs, index)|
    ensures forall i | 0 <= i < |pick| :: pick[i] < |xs| && Lists.RemoveAt(xs, index)[i] == xs[pick[i]]
    ensures forall i, j | 0 <= i < j < |pick| :: pick[i] < pick[j]
  {
    var items := Lists.RemoveAt(xs, index);
    seq(|items|, i requires 0 <= i < |items| => if 0 <= index <= i then i + 1 else i)
  }

  /** The filtered array only holds values stored below a fresh location. */
  lemma DeleteServiceBelow(c0: Cells, fd: Loc, s: Loc, list: Loc, index: int)
    requires WellFormed(c0) && ServicesArray(c0, Ref(fd)) && Tree(c0, Ref(fd)) && Lookup(c0[fd], "services") == Ref(s)
    requires forall x | x in c0 :: x < list
    ensures CellBelow(c0, List(Lists.RemoveAt(c0[s].items, index)), list)
  {
    TreeChild(c0, fd, "services");
    FreshSublist(c0, s, list, Lists.RemoveAt(c0[s].items, index), Kept(c0[s].items, index));
  }

  /** `formData.services.filter((_, i) => i !== index)`: a new array tree sharing nothing with the draft's other members. */
  lemma DeleteServiceList(c0: Cells, c2: Cells, fd: Loc, s: Loc, list: Loc, index: int)
    requires WellFormed(c0) && ServicesArray(c0, Ref(fd)) && Tree(c0, Ref(fd)) && Lookup(c0[fd], "services") == Ref(s)
    requires forall x | x in c0 :: x < list
    requires c2 == c0[list := List(Lists.RemoveAt(c0[s].items, index))]
    ensures WellFormed(c2) && Extends(c0, c2) && Live(c2, Ref(list)) && Tree(c2, Ref(list)) && c2[list].List?
    ensures HasServices(Snapshot(c0, Ref(fd)))
    ensures Snapshot(c2, Ref(list)) == JArray(Lists.RemoveAt(ServicesOf(Snapshot(c0, Ref(fd))).value, index))
    ensures Tree(c2, Ref(fd)) && Snapshot(c2, Ref(fd)) == Snapshot(c0, Ref(fd)) && c2[fd] == c0[fd]
    ensures forall k | k in c2[fd].fields && k != "services" :: Locs(c2, c2[fd].fields[k]) !! Locs(c2, Ref(list))
  {
    ServicesArrayDoc(c0, Ref(fd));
    ListParts(c0, s);
    var xs := c0[s].items;
    FreshSublist(c0, s, list, Lists.RemoveAt(xs, index), Kept(xs, index));
    ItemsDocRemoveAt(c0, xs, index);
    ExtendsFrame(c0, c2, Ref(fd));
    NewArrayDisjoint(c0, c2, fd, s, {}, list, list);
  }

  /** `deleteService(index)`: the filtered array, then `{...formData, services: …}` as the new draft. */
  method DeleteService(panel: AP.AdminPanel, index: nat)
    requires panel.Valid() && ServicesArray(panel.store.heap.cells, panel.formData)
    modifies panel, panel.store.heap
    ensures panel.Valid() && ServicesArray(panel.store.heap.cells, panel.formData)
    ensures HasServices(old(panel.Draft())) && panel.Draft() == DeleteServiceDoc(old(panel.Draft()), index)
    ensures panel.store.settings == old(panel.store.settings) && panel.store.storage == old(panel.store.storage)
    ensures panel.store.SettingsDoc() == old(panel.store.SettingsDoc())
  {
    var heap := panel.store.heap;
    var fd := panel.formData.loc;
    var s := Lookup(heap.cells[fd], "services").loc;
    ghost var c0 := heap.cells;
    ghost var d0 := Snapshot(c0, Ref(fd));
    DeleteServiceBelow(c0, fd, s, heap.next, index);
    var list := heap.Alloc(List(Lists.RemoveAt(heap.cells[s].items, index)));
    DeleteServiceList(c0, heap.cells, fd, s, list, index);
    ExtendsFrame(c0, heap.cells, panel.store.settings);
    ExtendsFrame(c0, heap.cells, panel.store.seed);
    SetServices(panel, list);
  }

  /** `[...formData.services]`: a new array holding the same elements, sharing nothing with the draft's other members. */
  lemma ServiceChangeCopy(c0: Cells, fd: Loc, s: Loc, list: Loc)
    requires WellFormed(c0) && ServicesArray(c0, Ref(fd)) && Tree(c0, Ref(fd)) && Lookup(c0[fd], "services") == Ref(s)
    requires forall x | x in c0 :: x < list
    ensures var c1 := c0[list := c0[s]];
      && WellFormed(c1) && Extends(c0, c1)
      && Live(c1, Ref(fd)) && Tree(c1, Ref(fd)) && Snapshot(c1, Ref(fd)) == Snapshot(c0, Ref(fd))
      && Live(c1, Ref(list)) && Tree(c1, Ref(list)) && c1[list] == c1[s]
      && (forall k | k in c1[fd].fields && k != "services" :: Locs(c1, c1[fd].fields[k]) !! Locs(c1, Ref(list)))
  {
    TreeChild(c0, fd, "services");
    SpreadList(c0, s, list);
    var c1 := c0[list := c0[s]];
    ExtendsFrame(c0, c1, Ref(fd));
    NewArrayDisjoint(c0, c1, fd, s, {}, list, list);
  }

  /** `newServices[index]` and the walk from it: the walk-and-assign of the whole service path from the draft. */
  lemma ServiceChangeSteps(c1: Cells, fd: Loc, s: Loc, list: Loc, idx: string, keys: seq<string>, value: string)
    requires WellFormed(c1) && fd in c1 && Lookup(c1[fd], "services") == Ref(s) && s in c1
    requires list in c1 && c1[list] == c1[s] && |keys| >= 1
    ensures Readable(c1, Lookup(c1[list], idx))
    ensures HeapAssign(c1, Lookup(c1[list], idx), keys, value) == HeapAssign(c1, Ref(fd), ["services", idx] + keys, value)
  {
    ChildLocs(c1, list, idx);
    var path := ["services", idx] + keys;
    HeapAssignStep(c1, Ref(fd), path, value);
    assert path[1..] == [idx] + keys;
    HeapAssignStep(c1, Ref(s), [idx] + keys, value);
    assert ([idx] + keys)[1..] == keys;
  }

  /**
   * Another tree (the settings, the seed) stays a tree, and one that holds the draft's
   * `services` array sees the edit too.
   */
  lemma ServiceChangeOthers(c0: Cells, c1: Cells, fd: Loc, path: seq<string>, value: string, v: Val)
    requires WellFormed(c0) && WellFormed(c1) && Extends(c0, c1) && fd in c0
    requires |path| >= 2 && path[0] == "services" && Live(c0, v) && Tree(c0, v)
    ensures Readable(c1, Ref(fd)) && Live(c1, v) && Tree(c1, v) && Snapshot(c1, v) == Snapshot(c0, v)
    ensures var h := HeapAssign(c1, Ref(fd), path, value);
      h.Success? ==>
        && WellFormed(h.value) && Live(h.value, v) && Tree(h.value, v)
        && (AP.SharesMember(c0, Ref(fd), v, "services") ==>
              Assign(Some(Snapshot(c0, v)), path, value) == Success(Snapshot(h.value, v)))
  {
    ExtendsFrame(c0, c1, v);
    var h := HeapAssign(c1, Ref(fd), path, value);
    if h.Success? {
      HeapAssignKeepsTree(c1, Ref(fd), path, value, v);
      if AP.SharesMember(c0, Ref(fd), v, "services") {
        SharedMemberWrite(c1, fd, v.loc, path, value);
      }
    }
  }

  /** The in-place assignment writes below the services array: the array, its copy and the draft object keep their cells. */
  lemma ServiceChangeBelow(c1: Cells, c2: Cells, fd: Loc, s: Loc, list: Loc, idx: string, keys: seq<string>, value: string)
    requires WellFormed(c1) && fd in c1 && Lookup(c1[fd], "services") == Ref(s)
    requires list in c1 && c1[list] == c1[s] && c1[s].List? && list != s && |keys| >= 1
    requires Readable(c1, Lookup(c1[list], idx))
    requires HeapAssign(c1, Lookup(c1[list], idx), keys, value) == Success(c2)
    ensures c2.Keys == c1.Keys && c2[fd] == c1[fd] && c2[s] == c1[s] && c2[list] == c1[list]
  {
    var current := Lookup(c1[list], idx);
    var t := HeapAssignTarget(c1, current, keys, value);
    ChildLocs(c1, s, idx);
    LocsBounded(c1, current);
    assert t < s;
  }

  /**
   * The in-place assignment changes one object inside an element of the shared array:
   * the draft and the copy stay trees, and the copy still holds what the old draft's
   * `services` now holds.
   */
  lemma ServiceChangeTrees(c1: Cells, c2: Cells, fd: Loc, s: Loc, list: Loc, idx: string, keys: seq<string>, value: string)
    requires WellFormed(c1) && fd in c1 && c1[fd].Record? && Tree(c1, Ref(fd)) && Lookup(c1[fd], "services") == Ref(s)
    requires list in c1 && Tree(c1, Ref(list)) && c1[list] == c1[s] && c1[s].List? && list != s && |keys| >= 1
    requires Readable(c1, Lookup(c1[list], idx))
    requires HeapAssign(c1, Lookup(c1[list], idx), keys, value) == Success(c2)
    ensures WellFormed(c2) && c2.Keys == c1.Keys && c2[fd] == c1[fd]
    ensures Live(c2, Ref(fd)) && Tree(c2, Ref(fd)) && Live(c2, Ref(list)) && Tree(c2, Ref(list)) && c2[list].List?
    ensures Member(Snapshot(c2, Ref(fd)), "services") == Some(Snapshot(c2, Ref(list)))
  {
    var current := Lookup(c1[list], idx);
    ServiceChangeBelow(c1, c2, fd, s, list, idx, keys, value);
    HeapAssignKeepsTree(c1, current, keys, value, Ref(fd));
    HeapAssignKeepsTree(c1, current, keys, value, Ref(list));
    GetDoc(c2, Ref(fd), "services");
  }

  /** The in-place assignment only shrinks what values reach, so the copied array stays apart from the other members. */
  lemma ServiceChangeDisjoint(c1: Cells, c2: Cells, fd: Loc, list: Loc, cur: Val, keys: seq<string>, value: string)
    requires WellFormed(c1) && fd in c1 && c1[fd].Record? && list in c1 && Readable(c1, cur) && |keys| >= 1
    requires HeapAssign(c1, cur, keys, value) == Success(c2) && fd in c2 && c2[fd] == c1[fd]
    requires forall k | k in c1[fd].fields && k != "services" :: Locs(c1, c1[fd].fields[k]) !! Locs(c1, Ref(list))
    ensures WellFormed(c2) && list in c2
    ensures forall k | k in c2[fd].fields && k != "services" :: Locs(c2, c2[fd].fields[k]) !! Locs(c2, Ref(list))
  {
    HeapAssignLocs(c1, cur, keys, value, Ref(list));
    forall k | k in c1[fd].fields && k != "services"
      ensures Locs(c2, c1[fd].fields[k]) !! Locs(c2, Ref(list))
    {
      ChildLocs(c1, fd, k);
      assert Lookup(c1[fd], k) == c1[fd].fields[k];
      HeapAssignLocs(c1, cur, keys, value, c1[fd].fields[k]);
    }
  }

  /** A thrown edit: the walk-and-assign fails as the document-level assignment does. */
  lemma ServiceChangeFailed(c0: Cells, c1: Cells, fd: Loc, s: Loc, list: Loc, index: nat, field: string, value: string)
    requires WellFormed(c0) && ServicesArray(c0, Ref(fd)) && Tree(c0, Ref(fd)) && Lookup(c0[fd], "services") == Ref(s)
    requires (forall x | x in c0 :: x < list) && c1 == c0[list := c0[s]]
    requires WellFormed(c1) && Readable(c1, Lookup(c1[list], Text.NatToString(index)))
    requires HeapAssign(c1, Lookup(c1[list], Text.NatToString(index)), Text.Split(field, '.'), value).Failure?
    ensures Live(c1, Ref(fd)) && Tree(c1, Ref(fd)) && Snapshot(c1, Ref(fd)) == Snapshot(c0, Ref(fd))
    ensures Assign(Some(Snapshot(c0, Ref(fd))), ServicePath(index, field), value) ==
      Failure(HeapAssign(c1, Lookup(c1[list], Text.NatToString(index)), Text.Split(field, '.'), value).error)
  {
    var idx := Text.NatToString(index);
    var keys := Text.Split(field, '.');
    assert ServicePath(index, field) == ["services", idx] + keys;
    ServiceChangeCopy(c0, fd, s, list);
    ServiceChangeSteps(c1, fd, s, list, idx, keys, value);
    HeapAssignDoc(c1, Ref(fd), ["services", idx] + keys, value);
  }

  /** A successful edit: the old draft's document becomes the assigned one, because its `services` array is the copy's. */
  lemma ServiceChangePassed(c0: Cells, c1: Cells, c2: Cells, fd: Loc, s: Loc, list: Loc, index: nat, field: string, value: string)
    requires WellFormed(c0) && ServicesArray(c0, Ref(fd)) && Tree(c0, Ref(fd)) && Lookup(c0[fd], "services") == Ref(s)
    requires (forall x | x in c0 :: x < list) && c1 == c0[list := c0[s]]
    requires WellFormed(c1) && Readable(c1, Lookup(c1[list], Text.NatToString(index)))
    requires HeapAssign(c1, Lookup(c1[list], Text.NatToString(index)), Text.Split(field, '.'), value) == Success(c2)
    ensures WellFormed(c2) && Live(c2, Ref(fd))
    ensures Assign(Some(Snapshot(c0, Ref(fd))), ServicePath(index, field), value) == Success(Snapshot(c2, Ref(fd)))
  {
    var idx := Text.NatToString(index);
    var keys := Text.Split(field, '.');
    assert ServicePath(index, field) == ["services", idx] + keys;
    ServiceChangeCopy(c0, fd, s, list);
    ServiceChangeSteps(c1, fd, s, list, idx, keys, value);
    HeapAssignDoc(c1, Ref(fd), ["services", idx] + keys, value);
  }

  /** After a successful edit the copy holds the draft's `services`. */
  lemma ServiceChangeShape(c0: Cells, c1: Cells, c2: Cells, fd: Loc, s: Loc, list: Loc, index: nat, field: string, value: string)
    requires WellFormed(c0) && ServicesArray(c0, Ref(fd)) && Tree(c0, Ref(fd)) && Lookup(c0[fd], "services") == Ref(s)
    requires (forall x | x in c0 :: x < list) && c1 == c0[list := c0[s]]
    requires WellFormed(c1) && Readable(c1, Lookup(c1[list], Text.NatToString(index)))
    requires HeapAssign(c1, Lookup(c1[list], Text.NatToString(index)), Text.Split(field, '.'), value) == Success(c2)
    ensures WellFormed(c2) && AP.IsObject(c2, Ref(fd)) && Live(c2, Ref(fd)) && Tree(c2, Ref(fd))
    ensures list in c2 && c2[list].List? && Tree(c2, Ref(list))
    ensures Snapshot(c2, Ref(fd)) == JObject(Snapshot(c2, Ref(fd)).members["services" := Snapshot(c2, Ref(list))])
  {
    ServiceChangeCopy(c0, fd, s, list);
    ServiceChangeTrees(c1, c2, fd, s, list, Text.NatToString(index), Text.Split(field, '.'), value);
    ServicesReplaced(c2, fd, list);
  }

  /** An object whose `services` reads the array `list` is itself with that member set to the array. */
  lemma ServicesReplaced(c2: Cells, fd: Loc, list: Loc)
    requires WellFormed(c2) && Live(c2, Ref(fd)) && Live(c2, Ref(list)) && c2[fd].Record?
    requires Member(Snapshot(c2, Ref(fd)), "services") == Some(Snapshot(c2, Ref(list)))
    ensures Snapshot(c2, Ref(fd)) == JObject(Snapshot(c2, Ref(fd)).members["services" := Snapshot(c2, Ref(list))])
  {
    var d := Snapshot(c2, Ref(fd));
    assert d.members["services" := Snapshot(c2, Ref(list))] == d.members;
  }

  /** After a successful edit the copy still shares nothing with the draft's other members. */
  lemma ServiceChangeApart(c0: Cells, c1: Cells, c2: Cells, fd: Loc, s: Loc, list: Loc, index: nat, field: string, value: string)
    requires WellFormed(c0) && ServicesArray(c0, Ref(fd)) && Tree(c0, Ref(fd)) && Lookup(c0[fd], "services") == Ref(s)
    requires (forall x | x in c0 :: x < list) && c1 == c0[list := c0[s]]
    requires WellFormed(c1) && Readable(c1, Lookup(c1[list], Text.NatToString(index)))
    requires HeapAssign(c1, Lookup(c1[list], Text.NatToString(index)), Text.Split(field, '.'), value) == Success(c2)
    ensures WellFormed(c2) && fd in c2 && c2[fd].Record? && list in c2
    ensures forall k | k in c2[fd].fields && k != "services" :: Locs(c2, c2[fd].fields[k]) !! Locs(c2, Ref(list))
  {
    var idx := Text.NatToString(index);
    var keys := Text.Split(field, '.');
    ServiceChangeCopy(c0, fd, s, list);
    ServiceChangeBelow(c1, c2, fd, s, list, idx, keys, value);
    ServiceChangeDisjoint(c1, c2, fd, list, Lookup(c1[list], idx), keys, value);
  }

  /**
   * After a successful edit another tree `v` (the settings, the seed) stays a tree, and
   * if it shares the draft's `services` array it sees the same assignment.
   */
  lemma ServiceChangeStore(c0: Cells, c1: Cells, c2: Cells, fd: Loc, s: Loc, list: Loc, index: nat, field: string, value: string, v: Val)
    requires WellFormed(c0) && ServicesArray(c0, Ref(fd)) && Tree(c0, Ref(fd)) && Lookup(c0[fd], "services") == Ref(s)
    requires (forall x | x in c0 :: x < list) && c1 == c0[list := c0[s]]
    requires WellFormed(c1) && Readable(c1, Lookup(c1[list], Text.NatToString(index)))
    requires HeapAssign(c1, Lookup(c1[list], Text.NatToString(index)), Text.Split(field, '.'), value) == Success(c2)
    requires Live(c0, v) && Tree(c0, v)
    ensures WellFormed(c2) && Live(c2, v) && Tree(c2, v)
    ensures AP.SharesMember(c0, Ref(fd), v, "services") ==>
      Assign(Some(Snapshot(c0, v)), ServicePath(index, field), value) == Success(Snapshot(c2, v))
  {
    var idx := Text.NatToString(index);
    var keys := Text.Split(field, '.');
    var path := ServicePath(index, field);
    assert path == ["services", idx] + keys;
    ServiceChangeSteps(c1, fd, s, list, idx, keys, value);
    ServiceChangeOthers(c0, c1, fd, path, value, v);
  }

  /**
   * After a successful edit, a tree `v` that reaches the edited service object itself
   * (the settings after any earlier services operation: the array was copied, its
   * elements were not) sees the same assignment.
   */
  lemma ServiceChangeReached(c0: Cells, c1: Cells, c2: Cells, fd: Loc, s: Loc, list: Loc, index: nat, field: string, value: string, v: Val)
    requires WellFormed(c0) && ServicesArray(c0, Ref(fd)) && Tree(c0, Ref(fd)) && Lookup(c0[fd], "services") == Ref(s)
    requires (forall x | x in c0 :: x < list) && c1 == c0[list := c0[s]]
    requires WellFormed(c1) && Readable(c1, Lookup(c1[list], Text.NatToString(index)))
    requires HeapAssign(c1, Lookup(c1[list], Text.NatToString(index)), Text.Split(field, '.'), value) == Success(c2)
    requires Live(c0, v) && Tree(c0, v)
    ensures ReachSame(c0, Ref(fd), v, ["services", Text.NatToString(index)]) ==>
      Assign(Some(Snapshot(c0, v)), ServicePath(index, field), value) == Success(Snapshot(c2, v))
  {
    var idx := Text.NatToString(index);
    var keys := Text.Split(field, '.');
    var path := ["services", idx];
    if ReachSame(c0, Ref(fd), v, path) {
      var current := Lookup(c1[list], idx);
      assert Walk(c0, Ref(s), [idx]) == Success(current);
      assert Walk(c0, Ref(fd), path) == Success(current);
      ExtendsWalk(c0, c1, v, path);
      ExtendsFrame(c0, c1, v);
      ReachedWrite(c1, v, path, current, keys, value);
      assert path + keys == ServicePath(index, field);
    }
  }

  /**
   * `handleServiceChange(index, field, value)`: copy the services array, take element
   * `index`, walk every key of `field` but the last, assign the last in place, then make
   * `{...formData, services: newServices}` the draft. A read of undefined (an index out
   * of range, a missing segment) or an assignment onto a primitive throws, and then the
   * draft is not replaced.
   */
  method HandleServiceChange(panel: AP.AdminPanel, index: nat, field: string, value: string) returns (outcome: Outcome<WriteError>)
    requires panel.Valid() && ServicesArray(panel.store.heap.cells, panel.formData)
    modifies panel, panel.store.heap
    ensures panel.Valid() && panel.store.settings == old(panel.store.settings) && panel.store.storage == old(panel.store.storage)
    ensures var expected := Assign(Some(old(panel.Draft())), ServicePath(index, field), value);
      && (outcome.Pass? <==> expected.Success?)
      && (outcome.Fail? ==> expected == Failure(outcome.error) && panel.formData == old(panel.formData) && panel.Draft() == old(panel.Draft()))
      && (outcome.Pass? ==> panel.Draft() == expected.value && ServicesArray(panel.store.heap.cells, panel.formData))
    ensures outcome.Pass? && old(AP.SharesMember(panel.store.heap.cells, panel.formData, panel.store.settings, "services")) ==>
      Assign(Some(old(panel.store.SettingsDoc())), ServicePath(index, field), value) == Success(panel.store.SettingsDoc())
    ensures outcome.Pass? && old(ReachSame(panel.store.heap.cells, panel.formData, panel.store.settings, ["services", Text.NatToString(index)])) ==>
      Assign(Some(old(panel.store.SettingsDoc())), ServicePath(index, field), value) == Success(panel.store.SettingsDoc())
  {
    var heap := panel.store.heap;
    var fd := panel.formData.loc;
    var s := Lookup(heap.cells[fd], "services").loc;
    var keys := Text.Split(field, '.');
    var idx := Text.NatToString(index);
    ghost var c0 := heap.cells;
    var list := heap.Alloc(heap.cells[s]);
    ghost var c1 := heap.cells;
    ChildLocs(c1, list, idx);
    var current := Lookup(heap.cells[list], idx);
    outcome := heap.AssignPath(current, keys, value);
    if outcome.Pass? {
      ghost var c2 := heap.cells;
      ServiceChangePassed(c0, c1, c2, fd, s, list, index, field, value);
      ServiceChangeShape(c0, c1, c2, fd, s, list, index, field, value);
      ServiceChangeApart(c0, c1, c2, fd, s, list, index, field, value);
      ServiceChangeStore(c0, c1, c2, fd, s, list, index, field, value, panel.store.settings);
      ServiceChangeStore(c0, c1, c2, fd, s, list, index, field, value, panel.store.seed);
      ServiceChangeReached(c0, c1, c2, fd, s, list, index, field, value, panel.store.settings);
      SetServices(panel, list);
    } else {
      ServiceChangeFailed(c0, c1, fd, s, list, index, field, value);
      ExtendsFrame(c0, c1, panel.store.settings);
      ExtendsFrame(c0, c1, panel.store.seed);
    }
  }
}

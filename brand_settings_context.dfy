/**
 * The brand-settings provider: one `settings` cell, initialised from the persisted
 * blob or from the bundled seed, replaced wholesale by `updateSettings`, restored to
 * the seed object by `resetSettings`, and written back to storage by an effect that
 * runs whenever the settings cell holds a different object than at the last render.
 */
module BrandSettingsContext {
  import opened Common
  import opened JsonDoc
  import opened JsHeap
  import opened JsRuntime

  /** The storage key the settings are persisted under. */
  const StorageKey: string := "podoflex-brand-settings"

  /**
   * What storage holds under the key: the text `JSON.stringify` wrote for a document
   * (never the empty string), or some other text that `JSON.parse` rejects.
   */
  datatype StoredValue = Serialized(doc: Json) | Unparseable(text: string)

  /** The initialiser throws: the provider fails to mount. */
  datatype InitError = ParseError(text: string)

  /** `saved ? …`: whether the stored text is a non-empty string. */
  predicate Truthy(saved: Option<StoredValue>)
  {
    saved.Some? && (saved.value.Serialized? || saved.value.text != "")
  }

  /**
   * The initial-state function: the parsed blob when storage holds non-empty text,
   * otherwise the seed. A corrupt blob is not caught, so initialisation throws.
   */
  function InitialDoc(seed: Json, saved: Option<StoredValue>): (r: Result<Json, InitError>)
    ensures r.Failure? <==> Truthy(saved) && saved.value.Unparseable?
    ensures !Truthy(saved) ==> r == Success(seed)
    ensures Truthy(saved) && saved.value.Serialized? ==> r == Success(saved.value.doc)
  {
    if !Truthy(saved) then Success(seed)
    else
      match saved.value
      case Serialized(doc) => Success(doc)
      case Unparseable(text) => Failure(ParseError(text))
  }

  /** Persisting a document and initialising again yields that document, whatever the seed. */
  lemma PersistRoundTrip(seed: Json, doc: Json)
    ensures InitialDoc(seed, Some(Serialized(doc))) == Success(doc)
  {
  }

  class BrandSettingsStore {
    const heap: Heap
    /** The bundled seed file's contents. */
    const bundled: Json
    /** The object the seed module import evaluates to, shared by every reset. */
    const seed: Val
    var settings: Val
    var storage: Option<StoredValue>

    ghost predicate Valid()
      reads this, heap
    {
      && heap.Valid()
      && Live(heap.cells, seed) && Tree(heap.cells, seed)
      && Live(heap.cells, settings) && Tree(heap.cells, settings)
    }

    /** The document the settings currently describe. */
    function SettingsDoc(): Json
      reads this, heap
      requires Valid()
    {
      Snapshot(heap.cells, settings)
    }

    /** What a page reload would initialise the settings to (the seed file is read afresh). */
    function Reload(): Result<Json, InitError>
      reads this
    {
      InitialDoc(bundled, storage)
    }

    /** The seed object still describes the bundled file. */
    predicate SeedIntact()
      reads this, heap
      requires Valid()
    {
      Snapshot(heap.cells, seed) == bundled
    }

    constructor Mounted(heap: Heap, bundled: Json, seed: Val, settings: Val)
      requires heap.Valid() && Live(heap.cells, seed) && Tree(heap.cells, seed)
      requires Live(heap.cells, settings) && Tree(heap.cells, settings)
      ensures Valid() && this.heap == heap && this.bundled == bundled && this.seed == seed
      ensures this.settings == settings
      ensures storage == Some(Serialized(Snapshot(heap.cells, settings)))
    {
      this.heap := heap;
      this.bundled := bundled;
      this.seed := seed;
      this.settings := settings;
      this.storage := Some(Serialized(Snapshot(heap.cells, settings)));
    }

    /** `setSettings(s)` followed by the persistence effect, which runs only when the object changed. */
    method SetSettings(s: Val)
      requires Valid() && Live(heap.cells, s) && Tree(heap.cells, s)
      modifies this
      ensures Valid() && settings == s
      ensures storage == if s == old(settings) then old(storage) else Some(Serialized(Snapshot(heap.cells, s)))
    {
      var previous := settings;
      settings := s;
      if settings != previous {
        storage := Some(Serialized(Snapshot(heap.cells, settings)));
      }
    }

    /** `updateSettings(s)`: the settings become exactly `s`, with no merge and no validation. */
    method UpdateSettings(s: Val)
      requires Valid() && Live(heap.cells, s) && Tree(heap.cells, s)
      modifies this
      ensures Valid() && settings == s && SettingsDoc() == Snapshot(heap.cells, s)
      ensures storage == if s == old(settings) then old(storage) else Some(Serialized(SettingsDoc()))
      ensures s != old(settings) ==> Reload() == Success(SettingsDoc())
    {
      SetSettings(s);
    }

    /**
     * `resetSettings()`: the settings become the seed object and the key is removed;
     * the effect then re-persists the seed if the settings object changed.
     */
    method ResetSettings()
      requires Valid()
      modifies this
      ensures Valid() && settings == seed
      ensures storage == if old(settings) == seed then None else Some(Serialized(Snapshot(heap.cells, seed)))
      ensures SeedIntact() ==> Reload() == Success(bundled)
    {
      var previous := settings;
      settings := seed;
      storage := None;
      if settings != previous {
        storage := Some(Serialized(Snapshot(heap.cells, settings)));
      }
    }
  }

  /**
   * Mounting the provider: the initial-state function, then the persistence effect's
   * first run. `seed` is the seed module's object, still describing the bundled file.
   */
  method Mount(heap: Heap, bundled: Json, seed: Val, saved: Option<StoredValue>)
      returns (r: Result<BrandSettingsStore, InitError>)
    requires heap.Valid() && Live(heap.cells, seed) && Tree(heap.cells, seed) && Snapshot(heap.cells, seed) == bundled
    modifies heap
    ensures r.Failure? ==> InitialDoc(bundled, saved) == Failure(r.error)
    ensures r.Success? ==>
      && InitialDoc(bundled, saved).Success?
      && fresh(r.value) && r.value.Valid() && r.value.heap == heap
      && r.value.bundled == bundled && r.value.seed == seed
      && r.value.SettingsDoc() == InitialDoc(bundled, saved).value
      && r.value.storage == Some(Serialized(r.value.SettingsDoc()))
      && (!Truthy(saved) ==> r.value.settings == seed)
  {
    var initial: Val;
    if !Truthy(saved) {
      initial := seed;
    } else {
      match saved.value
      case Unparseable(text) =>
        return Failure(ParseError(text));
      case Serialized(doc) =>
        ghost var before := heap.cells;
        initial := heap.Build(doc);
        ExtendsFrame(before, heap.cells, seed);
    }
    var store := new BrandSettingsStore.Mounted(heap, bundled, seed, initial);
    r := Success(store);
  }
}

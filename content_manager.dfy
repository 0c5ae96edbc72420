/**
 * The content manager page: one draft per landing section, seeded from the hook's
 * content map, overwritten from it whenever the map changes, edited locally (the
 * services list grows, changes one item, loses one item) and saved section by section
 * through the hook, with a `saving` flag around the call.
 */
module ContentManager {
  import opened Common
  import opened JsonDoc
  import opened LandingContent
  import Lists
  import Text

  datatype Hero = Hero(title: string, subtitle: string, cta: string)
  datatype About = About(title: string, description: string)
  datatype Services = Services(title: string, items: seq<Json>)
  datatype Contact = Contact(title: string, email: string, phone: string, address: string)
  datatype Drafts = Drafts(hero: Hero, about: About, services: Services, contact: Contact)

  /** `content[key]`: a section of the map, undefined when it is missing. */
  function SectionOf(content: map<string, Json>, key: string): Option<Json>
  {
    if key in content then Some(content[key]) else None
  }

  /** `if (content[key])`: the section is present and not the empty string. */
  predicate Present(content: map<string, Json>, key: string)
  {
    key in content && content[key] != JStr("")
  }

  /** `section?.[key] || ''` for a string member. */
  function Field(section: Option<Json>, key: string): string
  {
    if section.Some? && Member(section.value, key).Some? && Member(section.value, key).value.JStr? then
      Member(section.value, key).value.s
    else ""
  }

  /** `section?.services || []` */
  function Items(section: Option<Json>): seq<Json>
  {
    if section.Some? && Member(section.value, "services").Some? && Member(section.value, "services").value.JArray? then
      Member(section.value, "services").value.elems
    else []
  }

  function HeroOf(section: Option<Json>): Hero
  {
    Hero(Field(section, "title"), Field(section, "subtitle"), Field(section, "cta"))
  }

  function AboutOf(section: Option<Json>): About
  {
    About(Field(section, "title"), Field(section, "description"))
  }

  function ServicesOf(section: Option<Json>): Services
  {
    Services(Field(section, "title"), Items(section))
  }

  function ContactOf(section: Option<Json>): Contact
  {
    Contact(Field(section, "title"), Field(section, "email"), Field(section, "phone"), Field(section, "address"))
  }

  /** Every draft field empty and no service item: what the page shows before any content. */
  const Blank := Drafts(Hero("", "", ""), About("", ""), Services("", []), Contact("", "", "", ""))

  /**
   * The four `useState` initialisers, read from the content map of the first render:
   * the same drafts as the re-sync effect makes from blank ones.
   */
  function Defaults(content: map<string, Json>): (d: Drafts)
    ensures d == Resynced(Blank, content)
  {
    Drafts(
      HeroOf(SectionOf(content, "hero")), AboutOf(SectionOf(content, "about")),
      ServicesOf(SectionOf(content, "services")), ContactOf(SectionOf(content, "contact")))
  }

  /** The re-sync effect: every present section overwrites its draft; the others keep theirs. */
  function Resynced(d: Drafts, content: map<string, Json>): (r: Drafts)
    ensures r.hero == (if Present(content, "hero") then HeroOf(SectionOf(content, "hero")) else d.hero)
    ensures r.about == (if Present(content, "about") then AboutOf(SectionOf(content, "about")) else d.about)
    ensures r.services == (if Present(content, "services") then ServicesOf(SectionOf(content, "services")) else d.services)
    ensures r.contact == (if Present(content, "contact") then ContactOf(SectionOf(content, "contact")) else d.contact)
  {
    Drafts(
      if Present(content, "hero") then HeroOf(Some(content["hero"])) else d.hero,
      if Present(content, "about") then AboutOf(Some(content["about"])) else d.about,
      if Present(content, "services") then ServicesOf(Some(content["services"])) else d.services,
      if Present(content, "contact") then ContactOf(Some(content["contact"])) else d.contact)
  }

  // ---------------------------------------------------------------------------
  // The drafts as the objects handed to `handleSaveSection`
  // ---------------------------------------------------------------------------

  function HeroJson(h: Hero): Json
  {
    JObject(map["title" := JStr(h.title), "subtitle" := JStr(h.subtitle), "cta" := JStr(h.cta)])
  }

  function AboutJson(a: About): Json
  {
    JObject(map["title" := JStr(a.title), "description" := JStr(a.description)])
  }

  function ServicesJson(s: Services): Json
  {
    JObject(map["title" := JStr(s.title), "services" := JArray(s.items)])
  }

  function ContactJson(c: Contact): Json
  {
    JObject(map["title" := JStr(c.title), "email" := JStr(c.email), "phone" := JStr(c.phone), "address" := JStr(c.address)])
  }

  // ---------------------------------------------------------------------------
  // The services list
  // ---------------------------------------------------------------------------

  /** The item `addService` appends. */
  const EmptyItem: Json := JObject(map["name" := JStr(""), "description" := JStr("")])

  /** The members `{...x}` copies: an object's own members, or the indexed elements of an array or characters of a string. */
  function SpreadOf(x: Json): map<string, Json>
  {
    IndexKeysDistinct();
    match x
    case JObject(m) => m
    case JArray(xs) => map i | 0 <= i < |xs| :: Text.NatToString(i) := xs[i]
    case JStr(s) => map i | 0 <= i < |s| :: Text.NatToString(i) := JStr([s[i]])
  }

  lemma IndexKeysDistinct()
    ensures forall m: nat, n: nat | Text.NatToString(m) == Text.NatToString(n) :: m == n
  {
    forall m: nat, n: nat | Text.NatToString(m) == Text.NatToString(n) ensures m == n {
      Text.NatToStringInjective(m, n);
    }
  }

  /** `{ ...service, [field]: value }` */
  function WithField(item: Json, field: string, value: string): (r: Json)
    ensures r.JObject? && Member(r, field) == Some(JStr(value))
    ensures forall k | k != field :: k in r.members <==> k in SpreadOf(item)
  {
    JObject(SpreadOf(item)[field := JStr(value)])
  }

  /** `addService` */
  function AddItem(s: Services): (r: Services)
    ensures r.title == s.title
    ensures |r.items| == |s.items| + 1 && r.items[..|s.items|] == s.items && r.items[|s.items|] == EmptyItem
  {
    Services(s.title, s.items + [EmptyItem])
  }

  /** `updateService(index, field, value)`: `map` that rewrites the item at `index` and no other. */
  function UpdateItem(s: Services, index: int, field: string, value: string): (r: Services)
    ensures r.title == s.title && |r.items| == |s.items|
    ensures forall i | 0 <= i < |s.items| && i != index :: r.items[i] == s.items[i]
    ensures 0 <= index < |s.items| ==> Member(r.items[index], field) == Some(JStr(value))
  {
    Services(s.title, seq(|s.items|, i requires 0 <= i < |s.items| => if i == index then WithField(s.items[i], field, value) else s.items[i]))
  }

  /** `removeService(index)` */
  function RemoveItem(s: Services, index: int): (r: Services)
    ensures r.title == s.title
    ensures |r.items| == if 0 <= index < |s.items| then |s.items| - 1 else |s.items|
    ensures forall j | 0 <= j < |r.items| :: r.items[j] == if 0 <= index <= j then s.items[j + 1] else s.items[j]
  {
    Services(s.title, Lists.RemoveAt(s.items, index))
  }

  /** Adding an item and removing the last one gives back the list. */
  lemma AddThenRemove(s: Services)
    ensures RemoveItem(AddItem(s), |s.items|) == s
  {
    Lists.RemoveAppended(s.items, EmptyItem);
  }

  /** Editing one field of an object item keeps its other members. */
  lemma UpdateKeepsOtherMembers(s: Services, index: nat, field: string, value: string, other: string)
    requires index < |s.items| && s.items[index].JObject? && other != field
    ensures Member(UpdateItem(s, index, field, value).items[index], other) == Member(s.items[index], other)
  {
  }

  // ---------------------------------------------------------------------------
  // Drafts against the content map
  // ---------------------------------------------------------------------------

  /** Starting from an empty content map every string field is `''` and the services list is empty. */
  lemma DefaultsOfEmpty()
    ensures Defaults(map[]) == Blank
  {
  }

  /** Re-syncing the drafts a content map seeded changes nothing. */
  lemma ResyncDefaults(content: map<string, Json>)
    ensures Resynced(Defaults(content), content) == Defaults(content)
  {
  }

  /** Reading a draft back from the object it is saved as gives the draft. */
  lemma HeroRoundTrip(h: Hero)
    ensures HeroOf(Some(HeroJson(h))) == h
  {
  }

  lemma AboutRoundTrip(a: About)
    ensures AboutOf(Some(AboutJson(a))) == a
  {
  }

  lemma ServicesRoundTrip(s: Services)
    ensures ServicesOf(Some(ServicesJson(s))) == s
  {
    assert Member(ServicesJson(s), "services") == Some(JArray(s.items));
  }

  lemma ContactRoundTrip(c: Contact)
    ensures ContactOf(Some(ContactJson(c))) == c
  {
  }

  /** A saved section comes back unchanged through the re-sync that follows the save. */
  lemma SaveThenResync(d: Drafts, content: map<string, Json>)
    ensures Resynced(d, content["hero" := HeroJson(d.hero)]).hero == d.hero
    ensures Resynced(d, content["about" := AboutJson(d.about)]).about == d.about
    ensures Resynced(d, content["services" := ServicesJson(d.services)]).services == d.services
    ensures Resynced(d, content["contact" := ContactJson(d.contact)]).contact == d.contact
  {
    HeroRoundTrip(d.hero);
    AboutRoundTrip(d.about);
    ServicesRoundTrip(d.services);
    ContactRoundTrip(d.contact);
  }

  /** The page's own state cells, next to its instance of the landing-content hook. */
  class ContentManagerPage {
    const landing: LandingContentHook
    var drafts: Drafts
    var saving: bool
    /** The value of `saving` while `updateContent` is awaited. */
    ghost var savingDuringUpdate: bool

    /** The first render: the hook has no content yet, so every draft starts empty. */
    constructor ()
      ensures fresh(landing) && landing.content == map[] && landing.loading && landing.error.None?
      ensures drafts == Defaults(map[]) && !saving
    {
      landing := new LandingContentHook();
      drafts := Defaults(map[]);
      saving := false;
      savingDuringUpdate := false;
    }

    /** The hook's fetch on mount; a fetched map is a new object, so the re-sync effect runs. */
    method Load(result: FetchResult)
      modifies this, landing
      ensures !landing.loading && saving == old(saving)
      ensures result.FetchOk? ==> drafts == Resynced(old(drafts), landing.content)
      ensures result.FetchError? ==> drafts == old(drafts) && landing.content == old(landing.content)
    {
      landing.FetchContent(result);
      if result.FetchOk? {
        drafts := Resynced(drafts, landing.content);
      }
    }

    /**
     * `handleSaveSection(section, data)`: `saving` is on while the hook updates the
     * row and off afterwards whatever the outcome; a thrown update is caught here.
     * On success the new content map re-syncs the drafts.
     */
    method HandleSaveSection(section: string, data: Json, result: UpdateResult)
      modifies this, landing
      ensures !saving && savingDuringUpdate
      ensures landing.loading == old(landing.loading)
      ensures result.UpdateOk? ==>
        landing.content == old(landing.content)[section := data] && drafts == Resynced(old(drafts), landing.content)
      ensures result.UpdateError? ==> landing.content == old(landing.content) && drafts == old(drafts)
    {
      saving := true;
      savingDuringUpdate := saving;
      var rethrown := landing.UpdateContent(section, data, result);
      saving := false;
      if rethrown.None? {
        drafts := Resynced(drafts, landing.content);
      }
    }

    method AddService()
      modifies this
      ensures drafts == old(drafts).(services := AddItem(old(drafts.services))) && saving == old(saving)
    {
      drafts := drafts.(services := AddItem(drafts.services));
    }

    method UpdateService(index: int, field: string, value: string)
      requires field in {"name", "description"}
      modifies this
      ensures drafts == old(drafts).(services := UpdateItem(old(drafts.services), index, field, value))
      ensures saving == old(saving)
    {
      drafts := drafts.(services := UpdateItem(drafts.services, index, field, value));
    }

    method RemoveService(index: int)
      modifies this
      ensures drafts == old(drafts).(services := RemoveItem(old(drafts.services), index)) && saving == old(saving)
    {
      drafts := drafts.(services := RemoveItem(drafts.services, index));
    }
  }
}

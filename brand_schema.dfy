/**
 * The brand-settings aggregate as the components read it, and its JSON form. The
 * declared interface has no `contact.tiktok` and no `workingHours`, but the contact
 * section and the working-hours editor read both; here `tiktok` and `workingHours`
 * are optional members.
 */
module BrandSchema {
  import opened Common
  import opened JsonDoc

  datatype LocaleText = LocaleText(en: string, fr: string)

  datatype Brand = Brand(name: string, tagline: LocaleText, description: LocaleText, logo: string, favicon: string)

  datatype Contact = Contact(email: string, whatsapp: string, instagram: string, linktree: string, tiktok: Option<string>)

  datatype Colors = Colors(primary: string, secondary: string, background: string, text: string)

  datatype Theme = Theme(colors: Colors, primaryFont: string)

  datatype Service = Service(id: string, title: LocaleText, description: LocaleText, icon: string)

  /** Locale (`en`, `fr`) to day key to opening hours. */
  type WorkingHoursTable = map<string, map<string, string>>

  datatype BrandSettings = BrandSettings(
    brand: Brand,
    contact: Contact,
    theme: Theme,
    services: seq<Service>,
    workingHours: Option<WorkingHoursTable>)

  /** `tr[lang]` for the two languages the site offers; any other language reads undefined. */
  function Localized(tr: LocaleText, lang: string): Option<string>
  {
    if lang == "en" then Some(tr.en) else if lang == "fr" then Some(tr.fr) else None
  }

  // ---------------------------------------------------------------------------
  // JSON form
  // ---------------------------------------------------------------------------

  function EncodeText(t: LocaleText): Json
  {
    JObject(map["en" := JStr(t.en), "fr" := JStr(t.fr)])
  }

  function EncodeBrand(b: Brand): Json
  {
    JObject(map[
      "name" := JStr(b.name), "tagline" := EncodeText(b.tagline), "description" := EncodeText(b.description),
      "logo" := JStr(b.logo), "favicon" := JStr(b.favicon)])
  }

  function EncodeContact(c: Contact): Json
  {
    var m := map["email" := JStr(c.email), "whatsapp" := JStr(c.whatsapp), "instagram" := JStr(c.instagram), "linktree" := JStr(c.linktree)];
    JObject(if c.tiktok.Some? then m["tiktok" := JStr(c.tiktok.value)] else m)
  }

  function EncodeTheme(t: Theme): Json
  {
    JObject(map[
      "colors" := JObject(map[
        "primary" := JStr(t.colors.primary), "secondary" := JStr(t.colors.secondary),
        "background" := JStr(t.colors.background), "text" := JStr(t.colors.text)]),
      "fonts" := JObject(map["primary" := JStr(t.primaryFont)])])
  }

  function EncodeService(s: Service): Json
  {
    JObject(map[
      "id" := JStr(s.id), "title" := EncodeText(s.title), "description" := EncodeText(s.description), "icon" := JStr(s.icon)])
  }

  function EncodeServices(ss: seq<Service>): (r: seq<Json>)
    ensures |r| == |ss|
    ensures forall i | 0 <= i < |ss| :: r[i] == EncodeService(ss[i])
  {
    seq(|ss|, i requires 0 <= i < |ss| => EncodeService(ss[i]))
  }

  function EncodeHours(h: WorkingHoursTable): Json
  {
    JObject(map lang | lang in h :: JObject(map day | day in h[lang] :: JStr(h[lang][day])))
  }

  function Encode(s: BrandSettings): Json
  {
    var m := map[
      "brand" := EncodeBrand(s.brand), "contact" := EncodeContact(s.contact), "theme" := EncodeTheme(s.theme),
      "services" := JArray(EncodeServices(s.services))];
    JObject(if s.workingHours.Some? then m["workingHours" := EncodeHours(s.workingHours.value)] else m)
  }

  /** The string member `key` of an object. */
  function StrAt(j: Json, key: string): Option<string>
  {
    match Member(j, key)
    case Some(JStr(v)) => Some(v)
    case _ => None
  }

  function DecodeText(j: Json): Option<LocaleText>
  {
    match (StrAt(j, "en"), StrAt(j, "fr"))
    case (Some(en), Some(fr)) => Some(LocaleText(en, fr))
    case _ => None
  }

  function DecodeTextAt(j: Json, key: string): Option<LocaleText>
  {
    match Member(j, key)
    case Some(t) => DecodeText(t)
    case None => None
  }

  function DecodeBrand(j: Json): Option<Brand>
  {
    match (StrAt(j, "name"), DecodeTextAt(j, "tagline"), DecodeTextAt(j, "description"), StrAt(j, "logo"), StrAt(j, "favicon"))
    case (Some(name), Some(tagline), Some(description), Some(logo), Some(favicon)) =>
      Some(Brand(name, tagline, description, logo, favicon))
    case _ => None
  }

  function DecodeContact(j: Json): Option<Contact>
  {
    match (StrAt(j, "email"), StrAt(j, "whatsapp"), StrAt(j, "instagram"), StrAt(j, "linktree"))
    case (Some(email), Some(whatsapp), Some(instagram), Some(linktree)) =>
      Some(Contact(email, whatsapp, instagram, linktree, StrAt(j, "tiktok")))
    case _ => None
  }

  function DecodeTheme(j: Json): Option<Theme>
  {
    match (Member(j, "colors"), Member(j, "fonts"))
    case (Some(c), Some(f)) =>
      (match (StrAt(c, "primary"), StrAt(c, "secondary"), StrAt(c, "background"), StrAt(c, "text"), StrAt(f, "primary"))
       case (Some(p), Some(s), Some(b), Some(t), Some(font)) => Some(Theme(Colors(p, s, b, t), font))
       case _ => None)
    case _ => None
  }

  function DecodeService(j: Json): Option<Service>
  {
    match (StrAt(j, "id"), DecodeTextAt(j, "title"), DecodeTextAt(j, "description"), StrAt(j, "icon"))
    case (Some(id), Some(title), Some(description), Some(icon)) => Some(Service(id, title, description, icon))
    case _ => None
  }

  function DecodeServices(xs: seq<Json>): Option<seq<Service>>
  {
    if xs == [] then Some([])
    else
      match (DecodeService(xs[0]), DecodeServices(xs[1..]))
      case (Some(s), Some(rest)) => Some([s] + rest)
      case _ => None
  }

  /** An object of objects of strings. */
  predicate IsHoursTable(j: Json)
  {
    j.JObject? && forall lang | lang in j.members ::
      j.members[lang].JObject? && forall day | day in j.members[lang].members :: j.members[lang].members[day].JStr?
  }

  function DecodeHours(j: Json): Option<WorkingHoursTable>
  {
    if IsHoursTable(j) then
      Some(map lang | lang in j.members :: map day | day in j.members[lang].members :: j.members[lang].members[day].s)
    else None
  }

  function DecodeServicesAt(j: Json): Option<seq<Service>>
  {
    match Member(j, "services")
    case Some(JArray(xs)) => DecodeServices(xs)
    case _ => None
  }

  function DecodeAt<T>(j: Json, key: string, decode: Json -> Option<T>): Option<T>
  {
    match Member(j, key)
    case Some(m) => decode(m)
    case None => None
  }

  /** The aggregate a settings document describes, if it has every required member. */
  function Decode(j: Json): Option<BrandSettings>
  {
    var brand := DecodeAt(j, "brand", DecodeBrand);
    var contact := DecodeAt(j, "contact", DecodeContact);
    var theme := DecodeAt(j, "theme", DecodeTheme);
    var services := DecodeServicesAt(j);
    var hours := Member(j, "workingHours");
    if brand.None? || contact.None? || theme.None? || services.None? then None
    else if hours.Some? && DecodeHours(hours.value).None? then None
    else Some(BrandSettings(brand.value, contact.value, theme.value, services.value,
                            if hours.Some? then DecodeHours(hours.value) else None))
  }

  lemma DecodeEncodeText(t: LocaleText)
    ensures DecodeText(EncodeText(t)) == Some(t)
  {
    assert StrAt(EncodeText(t), "en") == Some(t.en);
    assert StrAt(EncodeText(t), "fr") == Some(t.fr);
  }

  lemma DecodeEncodeBrand(b: Brand)
    ensures DecodeBrand(EncodeBrand(b)) == Some(b)
  {
    var j := EncodeBrand(b);
    DecodeEncodeText(b.tagline);
    DecodeEncodeText(b.description);
    assert StrAt(j, "name") == Some(b.name) && StrAt(j, "logo") == Some(b.logo) && StrAt(j, "favicon") == Some(b.favicon);
    assert DecodeTextAt(j, "tagline") == Some(b.tagline) && DecodeTextAt(j, "description") == Some(b.description);
  }

  lemma DecodeEncodeContact(c: Contact)
    ensures DecodeContact(EncodeContact(c)) == Some(c)
  {
    var j := EncodeContact(c);
    assert StrAt(j, "email") == Some(c.email) && StrAt(j, "whatsapp") == Some(c.whatsapp);
    assert StrAt(j, "instagram") == Some(c.instagram) && StrAt(j, "linktree") == Some(c.linktree);
    assert StrAt(j, "tiktok") == c.tiktok;
  }

  lemma DecodeEncodeTheme(t: Theme)
    ensures DecodeTheme(EncodeTheme(t)) == Some(t)
  {
    var j := EncodeTheme(t);
    var c := Member(j, "colors").value;
    var f := Member(j, "fonts").value;
    assert StrAt(c, "primary") == Some(t.colors.primary) && StrAt(c, "secondary") == Some(t.colors.secondary);
    assert StrAt(c, "background") == Some(t.colors.background) && StrAt(c, "text") == Some(t.colors.text);
    assert StrAt(f, "primary") == Some(t.primaryFont);
  }

  lemma DecodeEncodeService(s: Service)
    ensures DecodeService(EncodeService(s)) == Some(s)
  {
    var j := EncodeService(s);
    DecodeEncodeText(s.title);
    DecodeEncodeText(s.description);
    assert StrAt(j, "id") == Some(s.id) && StrAt(j, "icon") == Some(s.icon);
    assert DecodeTextAt(j, "title") == Some(s.title) && DecodeTextAt(j, "description") == Some(s.description);
  }

  lemma {:induction false} DecodeEncodeServices(ss: seq<Service>)
    ensures DecodeServices(EncodeServices(ss)) == Some(ss)
  {
    if ss != [] {
      var xs := EncodeServices(ss);
      DecodeEncodeServices(ss[1..]);
      assert xs[1..] == EncodeServices(ss[1..]);
      DecodeEncodeService(ss[0]);
      assert [ss[0]] + ss[1..] == ss;
    }
  }

  lemma DecodeEncodeHours(h: WorkingHoursTable)
    ensures DecodeHours(EncodeHours(h)) == Some(h)
  {
    var j := EncodeHours(h);
    assert IsHoursTable(j);
    var d := map lang | lang in j.members :: map day | day in j.members[lang].members :: j.members[lang].members[day].s;
    assert d.Keys == h.Keys;
    forall lang | lang in h ensures d[lang] == h[lang] {
      var inner := j.members[lang].members;
      assert inner == map day | day in h[lang] :: JStr(h[lang][day]);
      assert d[lang] == map day | day in inner :: inner[day].s;
      assert d[lang].Keys == h[lang].Keys;
    }
    assert d == h;
  }

  /** The members `Encode` writes. */
  lemma EncodeMembers(s: BrandSettings)
    ensures Member(Encode(s), "brand") == Some(EncodeBrand(s.brand))
    ensures Member(Encode(s), "contact") == Some(EncodeContact(s.contact))
    ensures Member(Encode(s), "theme") == Some(EncodeTheme(s.theme))
    ensures Member(Encode(s), "services") == Some(JArray(EncodeServices(s.services)))
    ensures Member(Encode(s), "workingHours") == if s.workingHours.Some? then Some(EncodeHours(s.workingHours.value)) else None
  {
  }

  /** `Decode` rebuilds an aggregate from members that each decode to its part. */
  lemma DecodeParts(j: Json, s: BrandSettings)
    requires DecodeAt(j, "brand", DecodeBrand) == Some(s.brand)
    requires DecodeAt(j, "contact", DecodeContact) == Some(s.contact)
    requires DecodeAt(j, "theme", DecodeTheme) == Some(s.theme)
    requires DecodeServicesAt(j) == Some(s.services)
    requires s.workingHours.None? ==> Member(j, "workingHours") == None
    requires s.workingHours.Some? ==> Member(j, "workingHours").Some? && DecodeHours(Member(j, "workingHours").value) == s.workingHours
    ensures Decode(j) == Some(s)
  {
  }

  /** Every settings value survives a trip through its JSON form unchanged. */
  lemma DecodeEncode(s: BrandSettings)
    ensures Decode(Encode(s)) == Some(s)
  {
    var j := Encode(s);
    EncodeMembers(s);
    DecodeEncodeBrand(s.brand);
    DecodeEncodeContact(s.contact);
    DecodeEncodeTheme(s.theme);
    DecodeEncodeServices(s.services);
    if s.workingHours.Some? {
      DecodeEncodeHours(s.workingHours.value);
    }
    DecodeParts(j, s);
  }
}

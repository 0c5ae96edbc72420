/**
 * The language provider: a closed English/French translation table, the lookup `t`
 * that falls back to the key itself, and the `language` cell that starts from the
 * stored `podoflex-language` value and is written back to storage by an effect.
 */
module LanguageContext {
  import opened Common

  /** The storage key the language is persisted under. */
  const StorageKey: string := "podoflex-language"

  /** The keys of the English table, in the order the source lists them. */
  const EnglishKeys: seq<string> := [
    "nav.language",
    "nav.instagram",
    "nav.linktree",
    "nav.email",
    "hero.tagline",
    "hero.book_whatsapp",
    "hero.email_us",
    "hero.explore_services",
    "whatsapp.message",
    "about.title",
    "about.text",
    "services.title",
    "services.medical_pedicures",
    "services.medical_pedicures_desc",
    "services.reflexotherapy",
    "services.reflexotherapy_desc",
    "services.foot_care",
    "services.foot_care_desc",
    "services.consultancy",
    "services.consultancy_desc",
    "services.book",
    "cta.text",
    "cta.whatsapp",
    "cta.email",
    "contact.title",
    "contact.form_name",
    "contact.form_email",
    "contact.form_message",
    "contact.form_submit",
    "contact.quick_links",
    "footer.slogan",
    "footer.legal"]

  /** The English entries, position by position with `EnglishKeys`. */
  const EnglishText: seq<string> := [
    "Language",
    "Instagram",
    "Linktree",
    "Email",
    "Step into healing, stay in comfort.",
    "Book on WhatsApp",
    "Email Us",
    "Explore Services",
    "Hello Podoflex, I'd like to book an appointment.",
    "About Podoflex",
    "Podoflex by Heidi is dedicated to your foot health and overall holistic well-being. Our services encompass advanced medical pedicures, soothing reflexotherapy treatments, and a curated selection of foot care products. We also provide expert professional consultancy and valuable foot health training and education.",
    "Our Services",
    "Advanced Medical Pedicures",
    "Professional medical-grade pedicure treatments for optimal foot health and care.",
    "Reflexotherapy Treatments",
    "Soothing therapeutic sessions that promote relaxation and holistic wellness.",
    "Foot Care Products",
    "Curated selection of premium products for maintaining healthy, comfortable feet.",
    "Consultancy & Training",
    "Expert professional advice and educational training in foot health and wellness.",
    "Book Now",
    "Appointments by request. Quickest reply on WhatsApp.",
    "WhatsApp",
    "Email",
    "Get in Touch",
    "Full Name",
    "Email Address",
    "Message",
    "Send Message",
    "Quick Links",
    "Step into healing, stay in comfort.",
    "© 2024 Podoflex by Heidi. All rights reserved."]

  /** The keys of the French table, in the order the source lists them. */
  const FrenchKeys: seq<string> := [
    "nav.language",
    "nav.instagram",
    "nav.linktree",
    "nav.email",
    "hero.tagline",
    "hero.book_whatsapp",
    "hero.email_us",
    "hero.explore_services",
    "whatsapp.message",
    "about.title",
    "about.text",
    "services.title",
    "services.medical_pedicures",
    "services.medical_pedicures_desc",
    "services.reflexotherapy",
    "services.reflexotherapy_desc",
    "services.foot_care",
    "services.foot_care_desc",
    "services.consultancy",
    "services.consultancy_desc",
    "services.book",
    "cta.text",
    "cta.whatsapp",
    "cta.email",
    "contact.title",
    "contact.form_name",
    "contact.form_email",
    "contact.form_message",
    "contact.form_submit",
    "contact.quick_links",
    "footer.slogan",
    "footer.legal"]

  /** The French entries, position by position with `FrenchKeys`. */
  const FrenchText: seq<string> := [
    "Langue",
    "Instagram",
    "Linktree",
    "Email",
    "Entrez dans la guérison, restez dans le confort.",
    "Réserver sur WhatsApp",
    "Nous écrire",
    "Découvrir nos services",
    "Bonjour Podoflex, je souhaite prendre rendez-vous.",
    "À propos de Podoflex",
    "Podoflex by Heidi est dédié à la santé de vos pieds et à votre bien-être holistique. Nos services incluent des pédicures médicales avancées, des séances apaisantes de réflexothérapie et une sélection soignée de produits de soins des pieds. Nous proposons également des conseils professionnels et des formations utiles en santé du pied.",
    "Nos Services",
    "Pédicures médicales avancées",
    "Traitements de pédicure de niveau médical pour une santé et des soins optimaux des pieds.",
    "Réflexothérapie",
    "Séances thérapeutiques apaisantes qui favorisent la relaxation et le bien-être holistique.",
    "Produits de soins des pieds",
    "Sélection soignée de produits premium pour maintenir des pieds sains et confortables.",
    "Conseil & Formation",
    "Conseils professionnels experts et formation éducative en santé et bien-être des pieds.",
    "Réserver",
    "Rendez-vous sur demande. Réponse la plus rapide sur WhatsApp.",
    "WhatsApp",
    "Email",
    "Contactez-nous",
    "Nom complet",
    "Adresse email",
    "Message",
    "Envoyer le message",
    "Liens rapides",
    "Entrez dans la guérison, restez dans le confort.",
    "© 2024 Podoflex by Heidi. Tous droits réservés."]

  /** One table of the dictionary: its keys and, at the same positions, their entries. */
  datatype Table = Table(keys: seq<string>, text: seq<string>)

  /** The `translations` object: one table per language. */
  datatype Translations = Translations(en: Table, fr: Table)

  /** The dictionary the site ships. */
  const Site: Translations := Translations(Table(EnglishKeys, EnglishText), Table(FrenchKeys, FrenchText))

  /** A table with an entry for every key. */
  predicate Complete(table: Table)
  {
    |table.keys| == |table.text| && forall i | 0 <= i < |table.text| :: table.text[i] != ""
  }

  /** What the source's dictionary guarantees: full tables over the same keys. */
  predicate Sound(tr: Translations)
  {
    Complete(tr.en) && Complete(tr.fr) && tr.en.keys == tr.fr.keys
  }

  /** `translations[language]`: undefined for anything but the two table names. */
  function TableFor(tr: Translations, language: string): Option<Table>
  {
    if language == "en" then Some(tr.en) else if language == "fr" then Some(tr.fr) else None
  }

  /** `table[key]` on an object literal: the entry of the last occurrence of the key, undefined when there is none. */
  function Lookup(table: Table, key: string): (r: Option<string>)
    requires |table.keys| == |table.text|
    ensures r.Some? <==> key in table.keys
    ensures r.Some? ==> exists i | 0 <= i < |table.keys| ::
      && table.keys[i] == key && table.text[i] == r.value
      && forall j | i < j < |table.keys| :: table.keys[j] != key
    decreases |table.keys|
  {
    var n := |table.keys|;
    if n == 0 then None
    else if table.keys[n - 1] == key then Some(table.text[n - 1])
    else
      var rest := Table(table.keys[..n - 1], table.text[..n - 1]);
      assert table.keys == rest.keys + [table.keys[n - 1]];
      Lookup(rest, key)
  }

  /** `table[key] || key`: a missing entry and an empty one both give the key back. */
  function EntryOrKey(entry: Option<string>, key: string): (r: string)
    ensures entry.Some? && entry.value != "" ==> r == entry.value
    ensures entry.None? || entry.value == "" ==> r == key
  {
    if entry.Some? && entry.value != "" then entry.value else key
  }

  /**
   * `t(key)`. None is the TypeError thrown when the language names no table:
   * reading a key of undefined.
   */
  function Translate(tr: Translations, language: string, key: string): (r: Option<string>)
    requires Sound(tr)
    ensures r.Some? <==> language in {"en", "fr"}
    ensures r.Some? ==> r.value == EntryOrKey(Lookup(TableFor(tr, language).value, key), key)
  {
    match TableFor(tr, language)
    case Some(table) => Some(EntryOrKey(Lookup(table, key), key))
    case None => None
  }

  /** The initial-state function: the stored text when it is non-empty, else `'en'`; not checked against the tables. */
  function InitialLanguage(saved: Option<string>): (language: string)
    ensures language != ""
    ensures saved.Some? && saved.value != "" ==> language == saved.value
    ensures saved.None? || saved.value == "" ==> language == "en"
  {
    if saved.Some? && saved.value != "" then saved.value else "en"
  }

  /** The English table lists 32 keys, each with a non-empty entry. */
  lemma EnglishComplete()
    ensures |EnglishKeys| == 32 && Complete(Table(EnglishKeys, EnglishText))
  {
  }

  /** The French table lists 32 keys, each with a non-empty entry. */
  lemma FrenchComplete()
    ensures |FrenchKeys| == 32 && Complete(Table(FrenchKeys, FrenchText))
  {
  }

  /** The two tables list the same keys, in the same order. */
  lemma SameKeys()
    ensures EnglishKeys == FrenchKeys
  {
  }

  /** The shipped dictionary is sound. */
  lemma SiteSound()
    ensures Sound(Site) && |Site.en.keys| == 32
  {
    EnglishComplete();
    FrenchComplete();
    SameKeys();
  }

  /** A listed key translates to its non-empty entry in both languages: it never falls back. */
  lemma ListedKeysTranslate(tr: Translations, language: string, key: string)
    requires Sound(tr) && language in {"en", "fr"} && key in tr.en.keys
    ensures var table := TableFor(tr, language).value;
      && Lookup(table, key).Some?
      && Translate(tr, language, key) == Some(Lookup(table, key).value)
      && Translate(tr, language, key).value != ""
  {
  }

  /** A key that is not listed comes back unchanged in both languages. */
  lemma UnlistedKeyFallsBack(tr: Translations, language: string, key: string)
    requires Sound(tr) && language in {"en", "fr"} && key !in tr.en.keys
    ensures Translate(tr, language, key) == Some(key)
  {
  }

  /** A stored language outside the tables makes every lookup throw. */
  lemma UnknownLanguageThrows(tr: Translations, saved: string, key: string)
    requires Sound(tr) && saved != "" && saved !in {"en", "fr"}
    ensures Translate(tr, InitialLanguage(Some(saved)), key).None?
  {
  }

  /** The provider's state: the `language` cell and the storage slot under `podoflex-language`. */
  class LanguageProvider {
    var language: string
    var stored: Option<string>

    /** After every effect has run, storage holds the current language. */
    predicate Valid()
      reads this
    {
      language != "" && stored == Some(language)
    }

    /** Mounting: the initial-state function, then the effect writes the language back. */
    constructor (saved: Option<string>)
      ensures Valid()
      ensures language == InitialLanguage(saved)
    {
      language := InitialLanguage(saved);
      stored := Some(language);
    }

    /** `setLanguage(lang)` followed by the persistence effect: a reload starts in `lang`. */
    method SetLanguage(lang: string)
      requires Valid() && lang in {"en", "fr"}
      modifies this
      ensures Valid() && language == lang
      ensures stored.Some? && InitialLanguage(stored) == lang
    {
      language := lang;
      stored := Some(language);
    }
  }
}

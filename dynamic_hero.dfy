/**
 * The hero of the landing page: the brand name on two lines (first word, then the
 * rest), the tagline in the current language, the logo's alternative text and the two
 * call-to-action links.
 */
module DynamicHero {
  import opened Common
  import opened BrandSchema
  import Text
  import Urls
  import LanguageContext
  import ContactSection

  /** The two headline lines: `name.split(' ')[0]` and `name.split(' ').slice(1).join(' ')`. */
  function NameLines(name: string): (lines: (string, string))
    ensures ' ' !in lines.0 && |lines.0| <= |name|
  {
    var parts := Text.Split(name, ' ');
    Text.JoinSplit(name, ' ');
    (parts[0], Text.Join(parts[1..], ' '))
  }

  /** The first line is the name up to its first space and the second line the remainder. */
  lemma NameSplit(name: string)
    ensures ' ' in name ==> NameLines(name).0 + " " + NameLines(name).1 == name
    ensures ' ' !in name ==> NameLines(name) == (name, "")
  {
    var parts := Text.Split(name, ' ');
    Text.JoinSplit(name, ' ');
    Text.SplitCount(name, ' ');
    if ' ' !in name {
      Text.SplitNoSeparator(name, ' ');
    }
  }

  /** `${settings.brand.name} - Professional Foot Care & Wellness` */
  function LogoAlt(brand: Brand): (alt: string)
    ensures brand.name <= alt && alt[|brand.name|..] == " - Professional Foot Care & Wellness"
  {
    brand.name + " - Professional Foot Care & Wellness"
  }

  /** `settings.brand.tagline[language]`: undefined outside the two languages. */
  function Tagline(s: BrandSettings, language: string): (r: Option<string>)
    ensures r.Some? <==> language in {"en", "fr"}
    ensures language == "en" ==> r == Some(s.brand.tagline.en)
    ensures language == "fr" ==> r == Some(s.brand.tagline.fr)
  {
    Localized(s.brand.tagline, language)
  }

  /**
   * `handleWhatsAppClick`: the setting as it is, then the encoded `whatsapp.message`
   * translation. None is the TypeError `t` throws for a language without a table.
   */
  function WhatsAppLink(tr: LanguageContext.Translations, language: string, c: Contact): (r: Option<seq<Urls.Piece>>)
    requires LanguageContext.Sound(tr)
    ensures r.Some? <==> language in {"en", "fr"}
    ensures r.Some? ==> Urls.Encoded(r.value) == [LanguageContext.Translate(tr, language, "whatsapp.message").value]
    ensures r.Some? ==> |r.value| == 2 && r.value[1] == Urls.UriComponent(LanguageContext.Translate(tr, language, "whatsapp.message").value)
    ensures r.Some? ==> r.value[0] == Urls.Lit(ContactSection.WhatsAppPrefix + c.whatsapp + "?text=")
  {
    match LanguageContext.Translate(tr, language, "whatsapp.message")
    case None => None
    case Some(message) =>
      var link := [Urls.Lit(ContactSection.WhatsAppPrefix + c.whatsapp + "?text="), Urls.UriComponent(message)];
      assert Urls.Encoded(link[1..]) == [message] by {
        assert link[1..][1..] == [];
      }
      Some(link)
  }

  /** `handleEmailClick`: the same `mailto:` link as the contact section's Email entry. */
  function EmailLink(c: Contact): (link: seq<Urls.Piece>)
    ensures link == [Urls.Lit(ContactSection.SocialLinks(c)[4].url.value)]
  {
    Urls.Mailto(c.email)
  }

  /**
   * The hero's WhatsApp link does not strip the number: it names the same number as the
   * contact section's link exactly when the setting is all digits.
   */
  lemma WhatsAppNumbersAgree(tr: LanguageContext.Translations, language: string, c: Contact)
    requires LanguageContext.Sound(tr) && language in {"en", "fr"}
    ensures var hero := WhatsAppLink(tr, language, c).value[0].text;
      hero[|ContactSection.WhatsAppPrefix|..|hero| - 6] == c.whatsapp
    ensures ContactSection.SocialLinks(c)[3].url.value == ContactSection.WhatsAppPrefix + c.whatsapp <==>
      forall i | 0 <= i < |c.whatsapp| :: Text.IsDigit(c.whatsapp[i])
  {
    ContactSection.WhatsAppLinkNumber(c);
  }
}

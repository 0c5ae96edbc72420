/**
 * The contact section of the landing page: the five social links (the WhatsApp number
 * reduced to its digits), the contact form whose submission opens a `mailto:` link and
 * clears the form, and the working-hours block for the current language.
 */
module ContactSection {
  import opened Common
  import opened BrandSchema
  import JsonDoc
  import Text
  import Urls
  import WorkingHours

  // ---------------------------------------------------------------------------
  // The WhatsApp digit filter
  // ---------------------------------------------------------------------------

  /** `s.replace(/[^0-9]/g, '')` */
  function KeepDigits(s: string): (r: string)
    ensures |r| <= |s|
    ensures forall i | 0 <= i < |r| :: Text.IsDigit(r[i])
  {
    if s == [] then [] else (if Text.IsDigit(s[0]) then [s[0]] else []) + KeepDigits(s[1..])
  }

  /** The filter works piece by piece: it keeps the digits of each part, in order. */
  lemma {:induction false} KeepDigitsAppend(a: string, b: string)
    ensures KeepDigits(a + b) == KeepDigits(a) + KeepDigits(b)
  {
    if a == [] {
      assert a + b == b;
    } else {
      assert (a + b)[0] == a[0] && (a + b)[1..] == a[1..] + b;
      KeepDigitsAppend(a[1..], b);
    }
  }

  /** Every digit occurs as often after the filter as before it. */
  lemma {:induction false} KeepDigitsCounts(s: string, c: char)
    requires Text.IsDigit(c)
    ensures multiset(KeepDigits(s))[c] == multiset(s)[c]
  {
    if s != [] {
      KeepDigitsCounts(s[1..], c);
      assert s == [s[0]] + s[1..];
    }
  }

  /** The filter changes a string exactly when it holds a non-digit. */
  lemma {:induction false} KeepDigitsIdentity(s: string)
    ensures KeepDigits(s) == s <==> forall i | 0 <= i < |s| :: Text.IsDigit(s[i])
  {
    if s != [] {
      KeepDigitsIdentity(s[1..]);
      if !Text.IsDigit(s[0]) {
        assert |KeepDigits(s)| <= |s[1..]| < |s|;
      } else {
        assert s == [s[0]] + s[1..];
        assert (forall i | 0 <= i < |s| :: Text.IsDigit(s[i])) <==> (forall i | 0 <= i < |s[1..]| :: Text.IsDigit(s[1..][i]));
      }
    }
  }

  /** Filtering twice is filtering once. */
  lemma KeepDigitsIdempotent(s: string)
    ensures KeepDigits(KeepDigits(s)) == KeepDigits(s)
  {
    KeepDigitsIdentity(KeepDigits(s));
  }

  // ---------------------------------------------------------------------------
  // Social links
  // ---------------------------------------------------------------------------

  /** A social link: its name and its URL (None when the setting is undefined). */
  datatype SocialLink = SocialLink(name: string, url: Option<string>)

  const WhatsAppPrefix: string := "https://wa.me/"

  /** The `socialLinks` array. */
  function SocialLinks(c: Contact): (links: seq<SocialLink>)
    ensures |links| == 5
    ensures links[0].name == "Instagram" && links[1].name == "Linktree" && links[2].name == "TikTok"
    ensures links[3].name == "WhatsApp" && links[4].name == "Email"
    ensures links[0].url == Some(c.instagram) && links[1].url == Some(c.linktree)
    ensures links[2].url == c.tiktok
    ensures links[3].url.Some? && WhatsAppPrefix <= links[3].url.value
    ensures forall i | |WhatsAppPrefix| <= i < |links[3].url.value| :: Text.IsDigit(links[3].url.value[i])
    ensures links[4].url == Some(Urls.Mailto(c.email)[0].text)
  {
    [
      SocialLink("Instagram", Some(c.instagram)),
      SocialLink("Linktree", Some(c.linktree)),
      SocialLink("TikTok", c.tiktok),
      SocialLink("WhatsApp", Some(WhatsAppPrefix + KeepDigits(c.whatsapp))),
      SocialLink("Email", Some(Urls.Mailto(c.email)[0].text))
    ]
  }

  /** The WhatsApp link carries the setting's digits, in their order, and nothing else. */
  lemma WhatsAppLinkNumber(c: Contact)
    ensures SocialLinks(c)[3].url.value[|WhatsAppPrefix|..] == KeepDigits(c.whatsapp)
    ensures SocialLinks(c)[3].url.value == WhatsAppPrefix + c.whatsapp <==>
      forall i | 0 <= i < |c.whatsapp| :: Text.IsDigit(c.whatsapp[i])
  {
    KeepDigitsIdentity(c.whatsapp);
    var url := SocialLinks(c)[3].url.value;
    if url == WhatsAppPrefix + c.whatsapp {
      assert url[|WhatsAppPrefix|..] == c.whatsapp;
    }
  }

  // ---------------------------------------------------------------------------
  // The contact form
  // ---------------------------------------------------------------------------

  /** `From: ${name} (${email})\n\n${message}` */
  function MailBody(name: string, email: string, message: string): (body: string)
    ensures |body| == |name| + |email| + |message| + 11
    ensures body[..6] == "From: " && body[6..6 + |name|] == name
    ensures body[8 + |name|..8 + |name| + |email|] == email
    ensures body[6 + |name|..8 + |name|] == " (" && body[8 + |name| + |email|..11 + |name| + |email|] == ")\n\n"
    ensures body[|body| - |message|..] == message
  {
    var head := "From: " + name + " (";
    var body := head + email + ")\n\n" + message;
    assert body[..|head|] == head && head[..6] == "From: " && head[6..] == name + " (";
    assert body[|head|..|head| + |email|] == email;
    body
  }

  /** `mailto:${to}?subject=Contact from ${name}&body=${encodeURIComponent(body)}` */
  function MailLink(to: string, name: string, body: string): (link: seq<Urls.Piece>)
    ensures Urls.Encoded(link) == [body]
    ensures link[0].Lit? && "mailto:" + to <= link[0].text
    ensures |link| == 2 && link[1] == Urls.UriComponent(body)
    ensures link[0] == Urls.Lit("mailto:" + to + "?subject=Contact from " + name + "&body=")
  {
    var link := [Urls.Lit("mailto:" + to + "?subject=Contact from " + name + "&body="), Urls.UriComponent(body)];
    assert Urls.Encoded(link[1..]) == [body] by {
      assert link[1..][1..] == [];
    }
    link
  }

  /** The form's state cell. */
  class ContactForm {
    var name: string
    var email: string
    var message: string

    constructor ()
      ensures name == "" && email == "" && message == ""
    {
      name, email, message := "", "", "";
    }

    /** `handleInputChange`: the input named `field` takes `value`; the other two fields are kept. */
    method HandleInputChange(field: string, value: string)
      requires field in {"name", "email", "message"}
      modifies this
      ensures name == (if field == "name" then value else old(name))
      ensures email == (if field == "email" then value else old(email))
      ensures message == (if field == "message" then value else old(message))
    {
      if field == "name" {
        name := value;
      } else if field == "email" {
        email := value;
      } else {
        message := value;
      }
    }

    /** `handleSubmit`: the link opened for the form's contents; the form is empty afterwards. */
    method HandleSubmit(c: Contact) returns (link: seq<Urls.Piece>)
      modifies this
      ensures link == MailLink(c.email, old(name), MailBody(old(name), old(email), old(message)))
      ensures name == "" && email == "" && message == ""
    {
      var body := MailBody(name, email, message);
      link := MailLink(c.email, name, body);
      name, email, message := "", "", "";
    }
  }

  // ---------------------------------------------------------------------------
  // Working hours
  // ---------------------------------------------------------------------------

  /**
   * The block under the contact details: absent without a working-hours table, else
   * the entries of the current language (none when the table lacks that language).
   */
  function HoursShown(s: BrandSettings, language: string): (r: Option<map<string, string>>)
    ensures r.None? <==> s.workingHours.None?
    ensures r.Some? && language !in s.workingHours.value ==> r.value == map[]
    ensures r.Some? && language in s.workingHours.value ==> r.value == s.workingHours.value[language]
  {
    match s.workingHours
    case None => None
    case Some(h) => Some(if language in h then h[language] else map[])
  }

  /**
   * The block and the admin editor agree: a day is listed with a non-empty value exactly
   * when the editor shows a non-empty value for it, and every listed day, empty or not,
   * carries what the editor shows.
   */
  lemma HoursShownMatchEditor(s: BrandSettings, language: string, day: string)
    requires s.workingHours.Some?
    ensures var shown := HoursShown(s, language).value;
      day in shown && shown[day] != "" <==> WorkingHours.Shown(Encode(s), language, day) != JsonDoc.JStr("")
    ensures var shown := HoursShown(s, language).value;
      day in shown ==> WorkingHours.Shown(Encode(s), language, day) == JsonDoc.JStr(shown[day])
  {
    WorkingHours.ShownFromSettings(s, language, day);
  }
}

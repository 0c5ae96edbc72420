/**
 * The links the site opens. `encodeURIComponent` is not re-implemented: a link is a
 * sequence of literal text and of components whose raw text is passed to it.
 */
module Urls {
  datatype Piece =
    | Lit(text: string)           // text written into the link as it is
    | UriComponent(raw: string)   // `encodeURIComponent(raw)`

  /** `mailto:${address}` */
  function Mailto(address: string): (link: seq<Piece>)
    ensures |link| == 1 && link[0].Lit? && |link[0].text| == 7 + |address|
    ensures "mailto:" <= link[0].text && link[0].text[7..] == address
  {
    [Lit("mailto:" + address)]
  }

  /** The raw texts that a link hands to the encoder, in order. */
  function Encoded(link: seq<Piece>): (raws: seq<string>)
    ensures |raws| <= |link|
  {
    if link == [] then []
    else (if link[0].UriComponent? then [link[0].raw] else []) + Encoded(link[1..])
  }
}

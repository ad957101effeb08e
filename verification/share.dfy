/** `generate_whatsapp_link`: builds a WhatsApp deep link whose text names
    the outfit of a stored try-on result, and marks that result as shared.
    The message is appended to the URL as is, without URL-encoding. */
module Share {
  import opened Wrappers
  import opened Records

  /** The spa's WhatsApp number. */
  const WhatsappNumber := "50664878634"
  const UrlHead := "https://wa.me/" + WhatsappNumber + "?text="
  const MessageHead := "\U{A1}Mira c\U{F3}mo se ve mi perro con este hermoso "
  const MessageTail := " de Gummy Pet Spa! \U{1F415}\U{2728}"
  /** The name used when the result's outfit no longer exists. */
  const DefaultName := "Outfit"
  const ShareFailure := "Error generating WhatsApp link"

  /** The name of outfit `outfitId`, or "Outfit" when there is none. */
  function OutfitName(s: Store, outfitId: string): (name: string)
    ensures outfitId !in s.outfits ==> name == DefaultName
    ensures outfitId in s.outfits ==> name == s.outfits[outfitId].name
  {
    if outfitId in s.outfits then s.outfits[outfitId].name else DefaultName
  }

  /** The share text for an outfit name; the name can be read back out of it. */
  function ShareMessage(name: string): (message: string)
    ensures NameInMessage(message) == Some(name)
  {
    var m := MessageHead + name + MessageTail;
    assert m[..|MessageHead|] == MessageHead;
    assert m[|m| - |MessageTail|..] == MessageTail;
    assert m[|MessageHead|..|m| - |MessageTail|] == name;
    m
  }

  /** The link for a share text: it opens WhatsApp, and the text, appended
      without URL-encoding, can be read back out of it. */
  function ShareUrl(message: string): (url: string)
    ensures StartsWith(url, "https://wa.me/")
    ensures MessageInUrl(url) == Some(message)
  {
    var u := UrlHead + message;
    assert u[..|UrlHead|] == UrlHead;
    assert u[|UrlHead|..] == message;
    assert u[..|"https://wa.me/"|] == "https://wa.me/";
    u
  }

  /** Recovers the outfit name from a share text: the partner of
      `ShareMessage`. Whatever it recovers rebuilds the text. */
  function NameInMessage(message: string): (name: Option<string>)
    ensures name.Some? ==> MessageHead + name.value + MessageTail == message
  {
    if |MessageHead| + |MessageTail| <= |message|
       && message[..|MessageHead|] == MessageHead
       && message[|message| - |MessageTail|..] == MessageTail
    then
      var name := message[|MessageHead|..|message| - |MessageTail|];
      assert message == message[..|MessageHead|] + name + message[|message| - |MessageTail|..];
      Some(name)
    else None
  }

  /** Recovers the share text from a link: the partner of `ShareUrl`.
      Whatever it recovers rebuilds the link. */
  function MessageInUrl(url: string): (message: Option<string>)
    ensures message.Some? ==> UrlHead + message.value == url
  {
    if StartsWith(url, UrlHead) then
      assert url == url[..|UrlHead|] + url[|UrlHead|..];
      Some(url[|UrlHead|..])
    else None
  }

  /** `generate_whatsapp_link(tryon_id)`: an unknown id raises 404 inside
      the `try`, answered as 500; otherwise the result is marked shared and
      the link and text are returned. */
  function GenerateWhatsappLink(s: Store, tryonId: string): (r: Handled)
    ensures WellFormed(s) ==> WellFormed(r.store)
    ensures r.store.outfits == s.outfits
    ensures r.response.Ok? <==> tryonId in s.results
    ensures r.response.Err? ==> r.store == s && r.response == Err(500, ShareFailure)
    ensures r.response.Ok? ==>
      && r.store.results.Keys == s.results.Keys
      && r.store.results[tryonId] == s.results[tryonId].(whatsappShared := true)
      && (forall k | k in s.results && k != tryonId :: r.store.results[k] == s.results[k])
  {
    if tryonId !in s.results then Handled(s, Err(500, ShareFailure))
    else
      var result := s.results[tryonId];
      var message := ShareMessage(OutfitName(s, result.outfitId));
      var url := ShareUrl(message);
      var marked := s.results[tryonId := result.(whatsappShared := true)];
      Handled(Store(s.outfits, marked), Ok(ShareLink(url, message)))
  }

  /** The reply's link opens WhatsApp, carries the reply's text unchanged,
      and that text names the result's outfit, or "Outfit" when the outfit
      is gone. */
  lemma ShareLinkContents(s: Store, tryonId: string)
    requires tryonId in s.results
    ensures var p := GenerateWhatsappLink(s, tryonId).response.payload;
      && p.ShareLink?
      && StartsWith(p.whatsappUrl, "https://wa.me/")
      && MessageInUrl(p.whatsappUrl) == Some(p.message)
      && NameInMessage(p.message) == Some(
           if s.results[tryonId].outfitId in s.outfits
           then s.outfits[s.results[tryonId].outfitId].name
           else "Outfit")
  {
  }

  /** Sharing twice is sharing once: the second call gives the same reply
      and leaves the store as the first call left it. */
  lemma ShareIdempotent(s: Store, tryonId: string)
    ensures var first := GenerateWhatsappLink(s, tryonId);
      GenerateWhatsappLink(first.store, tryonId) == first
  {
  }

  /** An unknown result id is reported as 500, not 404. */
  lemma UnknownResultShareIs500(s: Store, tryonId: string)
    requires tryonId !in s.results
    ensures GenerateWhatsappLink(s, tryonId) == Handled(s, Err(500, "Error generating WhatsApp link"))
  {
  }
}

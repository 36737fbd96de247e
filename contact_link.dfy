/**
  The contact link of the barcode payment page (getWhatsAppLink in
  src/components/BarcodePaymentPage.tsx): a WhatsApp "send" deep link built
  from the merchant's configured WhatsApp URL and the product being paid for.
*/
module ContactLink {
  import opened Wrappers
  import opened UriComponent

  /** A product record as the lookup service returns it. `price` is the text
      JavaScript prints for the number; `barcodeImageUrl` is `None` for a
      null or missing `barcode_image_url`. */
  datatype Product = Product(title: string, price: string, barcodeImageUrl: Option<string>)

  /** The merchant settings the page reads; a missing `whatsapp_url` is "". */
  datatype Settings = Settings(whatsappUrl: string)

  /** `new URL(s).searchParams` as a list of name-value pairs in query order,
      or `None` where `new URL(s)` throws. The WHATWG URL parser and its
      application/x-www-form-urlencoded parser are not part of this model, so
      every operation takes the parser as a parameter and holds for all of them. */
  type QueryParser = string -> Option<seq<(string, string)>>

  const Placeholder: string := "#"
  const SendPrefix: string := "https://api.whatsapp.com/send?phone="
  const TextKey: string := "&text="
  const PhoneKey: string := "phone"

  /** URLSearchParams.get (section 6.2 of the WHATWG URL Standard): the value
      of the first pair whose name is `name`, `None` when there is none. */
  function SearchParamsGet(query: seq<(string, string)>, name: string): (r: Option<string>)
    ensures r.None? <==> forall i :: 0 <= i < |query| ==> query[i].0 != name
    ensures r.Some? ==>
      exists i :: 0 <= i < |query| && query[i] == (name, r.value) &&
        forall j :: 0 <= j < i ==> query[j].0 != name
  {
    if query == [] then None
    else if query[0].0 == name then Some(query[0].1)
    else
      var r := SearchParamsGet(query[1..], name);
      assert forall i :: 1 <= i < |query| ==> query[i] == query[1..][i - 1];
      r
  }

  /** The message the customer sends with the receipt. */
  function PurchaseMessage(p: Product): (m: string)
    ensures |m| == 25 + |p.title| + |p.price| + 60
    ensures m[25..25 + |p.title|] == p.title
    ensures m[25 + |p.title| + 6..25 + |p.title| + 6 + |p.price|] == p.price
  {
    "I would like to purchase " + p.title + " for $" + p.price +
    ". I have completed the payment and this is my receipt."
  }

  /** getWhatsAppLink. "#" when there is no product or no configured URL
      (checked before any parsing), when the URL does not parse, and when its
      first `phone` value is missing or empty; otherwise the send link with
      the phone value as it is and the message percent-encoded. */
  function WhatsAppLink(product: Option<Product>, settings: Settings, parse: QueryParser): (link: string)
    ensures link == Placeholder <==>
      || product.None? || settings.whatsappUrl == ""
      || parse(settings.whatsappUrl).None?
      || SearchParamsGet(parse(settings.whatsappUrl).value, PhoneKey) in {None, Some("")}
    ensures link != Placeholder ==>
      var phone := SearchParamsGet(parse(settings.whatsappUrl).value, PhoneKey).value;
      link == SendPrefix + phone + TextKey + EncodeURIComponent(PurchaseMessage(product.value))
  {
    if product.None? || settings.whatsappUrl == "" then Placeholder
    else match parse(settings.whatsappUrl)
      case None => Placeholder
      case Some(query) =>
        var phone := match SearchParamsGet(query, PhoneKey) case None => "" case Some(v) => v;
        if phone == "" then Placeholder
        else
          var link := SendPrefix + phone + TextKey + EncodeURIComponent(PurchaseMessage(product.value));
          assert link[0] != '#';
          link
  }

  /** The text parameter of a link that is not the placeholder decodes to the
      purchase message exactly, and holds only unreserved characters and
      `%XX` triplets, so no `&` or `#` can end it early. */
  lemma LinkCarriesMessage(p: Product, settings: Settings, parse: QueryParser)
    requires WhatsAppLink(Some(p), settings, parse) != Placeholder
    ensures
      var link := WhatsAppLink(Some(p), settings, parse);
      var phone := SearchParamsGet(parse(settings.whatsappUrl).value, PhoneKey).value;
      var head := SendPrefix + phone + TextKey;
      && |head| <= |link| && link[..|head|] == head
      && DecodeURIComponent(link[|head|..]) == Some(PurchaseMessage(p))
      && IsEscaped(link[|head|..])
      && '&' !in link[|head|..] && '#' !in link[|head|..]
  {
    var link := WhatsAppLink(Some(p), settings, parse);
    var phone := SearchParamsGet(parse(settings.whatsappUrl).value, PhoneKey).value;
    var head := SendPrefix + phone + TextKey;
    var text := EncodeURIComponent(PurchaseMessage(p));
    assert link == head + text;
    assert link[..|head|] == head && link[|head|..] == text;
    EncodedComponent(PurchaseMessage(p));
  }
}

# Barcode payment page and admin auth gate, modelled in Dafny

This project models the two pieces of logic in a storefront's React front end:

- **The barcode payment page** (`BarcodePaymentPage`). It fetches one product by
  the `productId` route parameter into three state cells (`product`, `loading`,
  `error`). It renders a loading screen, an error screen, nothing, or the
  payment details, in that priority order. It builds a WhatsApp "send" deep link
  (`getWhatsAppLink`) from the merchant's configured WhatsApp URL and the product.
- **The admin panel's auth gate** (`AdminPanel`). It holds one boolean cell
  `isAuthenticated`, set by the login-success and logout handlers. It renders
  the dashboard or the login view from that flag.

Files:

- `wrappers.dfy`: the `Option` type (`None` stands for `null`/`undefined` and for a call that threw).
- `uri_component.dfy`: `encodeURIComponent` and its inverse `decodeURIComponent`, as section 19.2.6
  of ECMA-262 (2023 edition) defines them. Both use full UTF-8 over Unicode scalar values.
  Proved: decoding undoes encoding, and the encoded form holds only unreserved characters and
  upper-case `%XX` triplets.
- `contact_link.dfy`: the product record, the settings, `URLSearchParams.get` (first match,
  section 6.2 of the WHATWG URL Standard) and `getWhatsAppLink`.
- `barcode_payment_page.dfy`: the page's state as pure transitions (`AfterEffect`, `AfterFetch`,
  `Run`) with their invariant, the render choice, and a class `PaymentPage` whose methods update
  the three cells step by step, as the component does.
- `admin_panel.dfy`: the auth gate as a class `AdminPanel`, with pure `Step`/`Replay`
  functions that specify it.

Inputs the component gets from outside become parameters:

- the outcome of the product lookup (`FetchOutcome`);
- the settings provider's `loading` flag (`settingsLoading`) and its `whatsapp_url`;
- the URL parser (`QueryParser`), a function that gives the query's name-value pairs or
  `None` where `new URL` throws.

Every property about links holds for every such parser.

JavaScript falsy values are modelled explicitly:

- a missing `whatsapp_url`, a missing `productId` and a thrown value without a `message` are `""`;
- a lookup that rejects with `null` or `undefined` is its own outcome (`RejectedNullish`). Reading
  `err.message` in the catch block then throws, so only the finally block runs;
- `barcode_image_url` is an `Option<string>`, so it is falsy when it is `None` or `Some("")`;
- `if (error)` tests for an error that is present and not empty.

Three behaviours of the code that a reader might not expect. The model keeps each one as written:

- The page does not reach an error or the payment details once and for all. Each new
  `productId` runs the effect again and sets `loading` back to true.
- Nothing ever clears `error` or `product`. So after an error, a later successful fetch still
  leaves the page on the error screen. `StaleErrorOutlivesRefetch` proves this. The comment at
  line 88 ("Should be handled by error state") suggests the authors assumed `error` and
  `product` never hold at the same time.
- An empty WhatsApp URL returns `"#"` before any parsing happens, so the URL parser never
  sees it.

## Model

| member | source | states |
|---|---|---|
| `UriComponent.EncodeURIComponent` | src/components/BarcodePaymentPage.tsx:51 | `encodeURIComponent`, character by character: the output is at least as long as the input and at most twelve times as long (four `%XX` triplets per character); the lemmas below fix its content |
| `UriComponent.DecodeURIComponent` | src/components/BarcodePaymentPage.tsx:51 | the inverse used to state the round trip (ECMA-262 Decode with an empty reserved set); a successful decode is never longer than its input |
| `UriComponent.DecodeEncode` | src/components/BarcodePaymentPage.tsx:51 | decodeURIComponent of encodeURIComponent(s) is exactly s, for every string including non-ASCII text |
| `UriComponent.Utf8RoundTrip` | src/components/BarcodePaymentPage.tsx:51 | the UTF-8 octets written for a non-ASCII character pass the well-formedness checks and decode back to it |
| `UriComponent.EncodedIsEscaped` | src/components/BarcodePaymentPage.tsx:51 | encodeURIComponent output is a run of unreserved characters and `%XX` triplets with upper-case digits |
| `UriComponent.EscapedAlphabet` | src/components/BarcodePaymentPage.tsx:51 | such output contains no character other than `A-Z a-z 0-9 - _ . ! ~ * ' ( )`, `%` and hex digits |
| `UriComponent.UnreservedUnchanged` | src/components/BarcodePaymentPage.tsx:51 | a string of unreserved characters is encoded as itself |
| `UriComponent.EncodedComponent` | src/components/BarcodePaymentPage.tsx:51 | an encoded component decodes back to its input and holds no `&` or `#`, so it cannot end the `text` parameter |
| `UriComponent.EncodeConcat` | src/components/BarcodePaymentPage.tsx:51 | encoding is per character: it distributes over concatenation |
| `ContactLink.SearchParamsGet` | src/components/BarcodePaymentPage.tsx:42 | `searchParams.get('phone')`: None iff no pair has that name; otherwise the value of the first pair with that name |
| `ContactLink.PurchaseMessage` | src/components/BarcodePaymentPage.tsx:50 | the message template: the title at offset 25 and the price 6 characters after it, with 85 fixed characters in all |
| `ContactLink.WhatsAppLink` | src/components/BarcodePaymentPage.tsx:36-52 | "#" iff the product is missing, the URL is empty, the URL does not parse, or its first phone value is missing or empty; otherwise the send link with the phone unencoded and the encoded purchase message |
| `ContactLink.LinkCarriesMessage` | src/components/BarcodePaymentPage.tsx:50-51 | a real link is `https://api.whatsapp.com/send?phone=<phone>&text=` followed by text that decodes to the purchase message, uses only unreserved characters and `%XX`, and contains no `&` or `#` |
| `BarcodePaymentPage.InitialState` | src/components/BarcodePaymentPage.tsx:10-12 | the initial cells: no product, loading, no error; they satisfy the invariant |
| `BarcodePaymentPage.Payable` | src/components/BarcodePaymentPage.tsx:21 | a product is rejected exactly when its `barcode_image_url` is falsy: missing or empty |
| `BarcodePaymentPage.AfterEffect` | src/components/BarcodePaymentPage.tsx:15-19 | starting a fetch sets only `loading`; without a productId nothing changes; the invariant is kept |
| `BarcodePaymentPage.AfterFetch` | src/components/BarcodePaymentPage.tsx:18-29 | settling always ends with `loading` false. Except after a `null`/`undefined` rejection, it also ends with an error or a product set. A product without a barcode sets the fixed "not available" error and keeps `product`. A payable product is stored and `error` is kept. A failure sets its message, or the fallback message when it is empty. A `null`/`undefined` rejection changes nothing else. The invariant is kept |
| `BarcodePaymentPage.Render` | src/components/BarcodePaymentPage.tsx:54-91 | loading screen iff page or settings loading; error screen iff not loading and a non-empty error is set; nothing iff neither and no product; otherwise the product with its contact link |
| `BarcodePaymentPage.RenderPriority` | src/components/BarcodePaymentPage.tsx:54-91 | on consistent state, loading wins over an error and an error wins over a product |
| `BarcodePaymentPage.RunKeepsConsistent` | src/components/BarcodePaymentPage.tsx:21-27 | any sequence of effects and fetch outcomes keeps: a stored product has a non-empty barcode URL, a stored error is non-empty |
| `BarcodePaymentPage.ReadyIsPayable` | src/components/BarcodePaymentPage.tsx:91-105 | in every reachable state, the product on the payment screen has a barcode URL (the `!` at line 105 is sound), and its link is built from it |
| `BarcodePaymentPage.SettledNeverBlank` | src/components/BarcodePaymentPage.tsx:87-88 | after a fetch settles and settings are loaded, the page shows the error or the details. The `null` branch is reached only after a `null`/`undefined` rejection, and then exactly when no product and no error were stored before |
| `BarcodePaymentPage.NullishRejectionRendersNothing` | src/components/BarcodePaymentPage.tsx:26-29 | a first fetch that rejects with `null` or `undefined` stops loading and leaves the page rendering nothing |
| `BarcodePaymentPage.NoProductIdKeepsLoading` | src/components/BarcodePaymentPage.tsx:11-16 | without a productId the cells keep their initial values and the page renders loading forever |
| `BarcodePaymentPage.StaleErrorOutlivesRefetch` | src/components/BarcodePaymentPage.tsx:15-34 | a later successful fetch does not clear an earlier "not available" error: the product is stored but the error screen stays |
| `BarcodePaymentPage.PaymentPage.constructor` | src/components/BarcodePaymentPage.tsx:10-12 | initial cells: no product, loading, no error |
| `BarcodePaymentPage.PaymentPage.RunEffect` | src/components/BarcodePaymentPage.tsx:15-19 | the fetch starts iff a productId is present, and the cells change as `AfterEffect` says |
| `BarcodePaymentPage.PaymentPage.ResolveSuccess` | src/components/BarcodePaymentPage.tsx:20-29 | the cells after a successful lookup are `AfterFetch` of the old cells; the invariant is kept |
| `BarcodePaymentPage.PaymentPage.ResolveFailure` | src/components/BarcodePaymentPage.tsx:26-29 | the cells after a failed lookup are `AfterFetch` of the old cells; the invariant is kept |
| `BarcodePaymentPage.PaymentPage.ResolveNullish` | src/components/BarcodePaymentPage.tsx:26-29 | the cells after a `null`/`undefined` rejection are `AfterFetch` of the old cells: only `loading` becomes false |
| `BarcodePaymentPage.PaymentPage.View` | src/components/BarcodePaymentPage.tsx:54-105 | on a valid page a payment screen only ever shows a payable product |
| `AdminAuth.Step` | src/components/AdminPanel.tsx:8-14 | one handler call: the flag becomes "this call was a login", whatever it was before |
| `AdminAuth.Replay` | src/components/AdminPanel.tsx:8-14 | a sequence of handler calls: with none the flag keeps its value, and a last call that is a login leaves it set |
| `AdminAuth.ViewOf` | src/components/AdminPanel.tsx:16-20 | dashboard iff authenticated, carrying the logout handler; otherwise the login view carrying the login-success handler |
| `AdminAuth.CallbackSwitchesView` | src/components/AdminPanel.tsx:8-20 | calling the handler the current view carries flips the flag, so the panel cycles login, dashboard, login |
| `AdminAuth.ReplayIsLastEvent` | src/components/AdminPanel.tsx:8-14 | after any non-empty sequence of handler calls the flag is "the last call was a login", whatever it was before |
| `AdminAuth.FreshPanelFollowsLastEvent` | src/components/AdminPanel.tsx:6-14 | from a fresh mount, authenticated iff there was a call and the last one was a login |
| `AdminAuth.RepeatedCallIsIdempotent` | src/components/AdminPanel.tsx:8-14 | calling a handler twice in a row has the effect of calling it once |
| `AdminAuth.AdminPanel.constructor` | src/components/AdminPanel.tsx:6 | a fresh panel is not authenticated |
| `AdminAuth.AdminPanel.LoginSuccess` | src/components/AdminPanel.tsx:8-10 | sets the flag to true regardless of its old value |
| `AdminAuth.AdminPanel.Logout` | src/components/AdminPanel.tsx:12-14 | sets the flag to false regardless of its old value |
| `AdminAuth.AdminPanel.View` | src/components/AdminPanel.tsx:16-20 | the dashboard is shown iff the flag is set |

## Left out

- JSX markup, CSS classes, icons, the animated background and the `Link` routing: presentation with no behaviour.
- `productService.getProductById` and its backend: network I/O, modelled only by its outcome (`Fetched` or `Rejected`).
- The settings provider's own loading lifecycle: `settingsLoading` and `whatsapp_url` are inputs.
- WHATWG URL parsing and `application/x-www-form-urlencoded` parsing: a large foreign algorithm, taken as the `QueryParser` parameter; only the first-match lookup of `URLSearchParams.get` is modelled.
- A rejection value that is an object whose `message` is truthy but not a string: the model stores only string messages.
- The unhandled promise rejection that `fetchProduct()` produces after a `null`/`undefined` rejection: the promise is never awaited, so it changes no state.
- The `console.error` diagnostic on an unparsable URL: a side effect only; the model keeps its `"#"` result.
- Formatting `product.price` as text: JavaScript number formatting (floating point); the price is an opaque string.
- The `URIError` of `encodeURIComponent` on a lone surrogate: a Dafny `char` is a Unicode scalar value, so such strings cannot be written.
- Fetches that overlap when `productId` changes mid-fetch, and state updates after unmount: React runtime concurrency and lifecycle. Events are applied one at a time in the order given.
- The internals of the login view and the dashboard, where credentials are checked: not part of this model.

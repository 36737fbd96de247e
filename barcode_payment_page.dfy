/**
  The barcode payment page (src/components/BarcodePaymentPage.tsx): three
  state cells that the product fetch updates step by step, and the choice of
  what the page renders from them.

  The product lookup is a network call; the model receives its outcome as
  an input. The settings provider's own loading is the input `settingsLoading`.
*/
module BarcodePaymentPage {
  import opened Wrappers
  import opened ContactLink

  const NotAvailableMessage: string := "Barcode payment is not available for this product."
  const FetchFailedMessage: string := "Failed to load product details."

  /** How `productService.getProductById` settled: with a product; by
      throwing a value whose `message` is given ("" when it has none or is
      not an object); or by throwing `null` or `undefined`, where reading
      `err.message` in the catch block throws in turn, so only the finally
      block updates the cells. */
  datatype FetchOutcome =
    | Fetched(product: Product)
    | Rejected(message: string)
    | RejectedNullish

  /** The values of the three state cells `product`, `loading` and `error`. */
  datatype PageState = PageState(product: Option<Product>, loading: bool, error: Option<string>)

  /** What the page renders: the loading screen, the error screen, nothing
      (`return null`), or the payment details with their contact link. */
  datatype PageView =
    | LoadingView
    | ErrorView(message: string)
    | NoView
    | ReadyView(product: Product, contactLink: string)

  /** Something that changes the state cells: the effect running for a
      `productId` ("" when the route supplies none), or the fetch settling. */
  datatype PageEvent = EffectRan(productId: string) | FetchSettled(outcome: FetchOutcome)

  /** The cells as the three `useState` calls create them. */
  function InitialState(): (s: PageState)
    ensures s.loading && s.product.None? && s.error.None?
    ensures Consistent(s)
  {
    PageState(None, true, None)
  }

  /** A product the page accepts for payment: its `barcode_image_url` is
      present and not empty. */
  predicate Payable(p: Product)
    ensures !Payable(p) <==> p.barcodeImageUrl in {None, Some("")}
  {
    p.barcodeImageUrl.Some? && p.barcodeImageUrl.value != ""
  }

  /** What the page keeps true of its cells: a stored product is payable
      (the non-null assertion on `barcode_image_url` relies on it) and an
      error message is never empty (so `if (error)` sees every error). */
  predicate Consistent(s: PageState) {
    && (s.product.Some? ==> Payable(s.product.value))
    && (s.error.Some? ==> s.error.value != "")
  }

  /** The effect: with a `productId` the fetch starts and only `loading`
      becomes true; without one nothing happens. */
  function AfterEffect(s: PageState, productId: string): (r: PageState)
    ensures r.product == s.product && r.error == s.error
    ensures r.loading == (productId != "" || s.loading)
    ensures Consistent(s) ==> Consistent(r)
  {
    if productId != "" then s.(loading := true) else s
  }

  /** The fetch settling: the try/catch/finally of `fetchProduct`. */
  function AfterFetch(s: PageState, outcome: FetchOutcome): (r: PageState)
    ensures !r.loading
    ensures !outcome.RejectedNullish? ==> r.product.Some? || r.error.Some?
    ensures Consistent(s) ==> Consistent(r)
    ensures outcome.Fetched? && !Payable(outcome.product) ==>
      r.error == Some(NotAvailableMessage) && r.product == s.product
    ensures outcome.Fetched? && Payable(outcome.product) ==>
      r.product == Some(outcome.product) && r.error == s.error
    ensures outcome.Rejected? ==>
      r.product == s.product &&
      r.error == Some(if outcome.message == "" then FetchFailedMessage else outcome.message)
    ensures outcome.RejectedNullish? ==> r.product == s.product && r.error == s.error
  {
    match outcome
    case Fetched(p) =>
      if p.barcodeImageUrl.None? || p.barcodeImageUrl.value == "" then
        s.(error := Some(NotAvailableMessage), loading := false)
      else
        s.(product := Some(p), loading := false)
    case Rejected(message) =>
      s.(error := Some(if message != "" then message else FetchFailedMessage), loading := false)
    case RejectedNullish =>
      s.(loading := false)
  }

  function Apply(s: PageState, e: PageEvent): PageState {
    match e
    case EffectRan(id) => AfterEffect(s, id)
    case FetchSettled(o) => AfterFetch(s, o)
  }

  /** The cells after a sequence of events, oldest first. */
  function Run(s: PageState, events: seq<PageEvent>): PageState
    decreases |events|
  {
    if events == [] then s else Run(Apply(s, events[0]), events[1..])
  }

  /** The render branches, in the order the component tests them: loading
      (of the page or of the settings) first, then an error, then a missing
      product, then the payment details. */
  function Render(s: PageState, settingsLoading: bool, settings: Settings, parse: QueryParser): (v: PageView)
    ensures v.LoadingView? <==> s.loading || settingsLoading
    ensures v.ErrorView? <==>
      !s.loading && !settingsLoading && s.error.Some? && s.error.value != ""
    ensures v.ErrorView? ==> s.error == Some(v.message)
    ensures v.NoView? <==>
      !s.loading && !settingsLoading && (s.error.None? || s.error.value == "") && s.product.None?
    ensures v.ReadyView? ==>
      s.product == Some(v.product) && v.contactLink == WhatsAppLink(s.product, settings, parse)
  {
    if s.loading || settingsLoading then LoadingView
    else if s.error.Some? && s.error.value != "" then ErrorView(s.error.value)
    else if s.product.None? then NoView
    else ReadyView(s.product.value, WhatsAppLink(s.product, settings, parse))
  }

  // ---------------------------------------------------------------------
  // Properties of the lifecycle

  /** Every state the events can produce from the initial one is consistent. */
  lemma {:induction false} RunKeepsConsistent(s: PageState, events: seq<PageEvent>)
    requires Consistent(s)
    ensures Consistent(Run(s, events))
    decreases |events|
  {
    if events != [] {
      RunKeepsConsistent(Apply(s, events[0]), events[1..]);
    }
  }

  /** The product shown on the payment screen of a reachable state has a
      barcode image, and its contact link is built from that product. */
  lemma ReadyIsPayable(events: seq<PageEvent>, settingsLoading: bool, settings: Settings, parse: QueryParser)
    ensures
      var v := Render(Run(InitialState(), events), settingsLoading, settings, parse);
      v.ReadyView? ==>
        && Payable(v.product)
        && v.contactLink == WhatsAppLink(Some(v.product), settings, parse)
  {
    RunKeepsConsistent(InitialState(), events);
  }

  /** Once a fetch has settled and the settings are loaded, the page shows
      the error or the payment details: the `return null` branch is taken
      only after a `null` or `undefined` rejection, and then exactly when
      the cells held neither a product nor an error before. */
  lemma SettledNeverBlank(s: PageState, outcome: FetchOutcome, settings: Settings, parse: QueryParser)
    ensures
      var v := Render(AfterFetch(s, outcome), false, settings, parse);
      !outcome.RejectedNullish? ==> v.ErrorView? || v.ReadyView?
    ensures
      var v := Render(AfterFetch(s, outcome), false, settings, parse);
      outcome.RejectedNullish? ==>
        (v.NoView? <==> s.product.None? && (s.error.None? || s.error.value == ""))
  {
  }

  /** The first fetch rejecting with `null` or `undefined` leaves the page
      rendering nothing. */
  lemma NullishRejectionRendersNothing(productId: string, settings: Settings, parse: QueryParser)
    requires productId != ""
    ensures
      var s := Run(InitialState(), [EffectRan(productId), FetchSettled(RejectedNullish)]);
      !s.loading && Render(s, false, settings, parse) == NoView
  {
    var events := [EffectRan(productId), FetchSettled(RejectedNullish)];
    var s1 := AfterEffect(InitialState(), productId);
    assert events[1..] == [FetchSettled(RejectedNullish)] && events[1..][1..] == [];
    assert Run(InitialState(), events) == Run(s1, events[1..]);
    assert Run(InitialState(), events) == AfterFetch(AfterEffect(InitialState(), productId), RejectedNullish);
  }

  /** Loading takes priority over an error, and an error over a product. */
  lemma RenderPriority(s: PageState, settingsLoading: bool, settings: Settings, parse: QueryParser)
    requires Consistent(s)
    ensures s.loading || settingsLoading ==> Render(s, settingsLoading, settings, parse) == LoadingView
    ensures !s.loading && !settingsLoading && s.error.Some? ==>
      Render(s, settingsLoading, settings, parse) == ErrorView(s.error.value)
    ensures !s.loading && !settingsLoading && s.error.None? && s.product.Some? ==>
      Render(s, settingsLoading, settings, parse).ReadyView?
  {
  }

  /** Without a `productId` no fetch ever starts: however often the effect
      runs, the cells keep their initial values and the page keeps loading. */
  lemma {:induction false} NoProductIdKeepsLoading(events: seq<PageEvent>, settingsLoading: bool, settings: Settings, parse: QueryParser)
    requires forall i :: 0 <= i < |events| ==> events[i] == EffectRan("")
    ensures Run(InitialState(), events) == InitialState()
    ensures Render(Run(InitialState(), events), settingsLoading, settings, parse) == LoadingView
    decreases |events|
  {
    if events != [] {
      assert Apply(InitialState(), events[0]) == InitialState();
      NoProductIdKeepsLoading(events[1..], settingsLoading, settings, parse);
    }
  }

  /** As written, starting another fetch does not clear an earlier error:
      after a product without a barcode, a later product with one still
      leaves the page on the error screen. */
  lemma StaleErrorOutlivesRefetch(first: Product, second: Product, a: string, b: string, settings: Settings, parse: QueryParser)
    requires a != "" && b != ""
    requires !Payable(first) && Payable(second)
    ensures
      var s := Run(InitialState(), [EffectRan(a), FetchSettled(Fetched(first)), EffectRan(b), FetchSettled(Fetched(second))]);
      && s.product == Some(second)
      && Render(s, false, settings, parse) == ErrorView(NotAvailableMessage)
  {
    var events := [EffectRan(a), FetchSettled(Fetched(first)), EffectRan(b), FetchSettled(Fetched(second))];
    var s1 := AfterFetch(AfterEffect(InitialState(), a), Fetched(first));
    var s2 := AfterFetch(AfterEffect(s1, b), Fetched(second));
    assert Run(InitialState(), events) == Run(s1, events[2..]);
    assert events[2..][1..] == events[3..] && events[3..][1..] == [];
    assert Run(s1, events[2..]) == Run(AfterEffect(s1, b), events[3..]);
    assert Run(AfterEffect(s1, b), events[3..]) == s2;
  }

  // ---------------------------------------------------------------------
  // The component's state cells

  class PaymentPage {
    var product: Option<Product>
    var loading: bool
    var error: Option<string>

    function State(): PageState
      reads this
    {
      PageState(product, loading, error)
    }

    ghost predicate Valid()
      reads this
    {
      Consistent(State())
    }

    /** The cells as `useState` creates them: no product, loading, no error. */
    constructor ()
      ensures Valid()
      ensures State() == InitialState()
    {
      product := None;
      loading := true;
      error := None;
    }

    /** The effect for the current `productId`; `started` tells whether
        `fetchProduct` was called. */
    method RunEffect(productId: string) returns (started: bool)
      requires Valid()
      modifies this
      ensures Valid()
      ensures started == (productId != "")
      ensures State() == AfterEffect(old(State()), productId)
    {
      started := productId != "";
      if started {
        loading := true;
      }
    }

    /** The lookup returned `p`. */
    method ResolveSuccess(p: Product)
      requires Valid()
      modifies this
      ensures Valid()
      ensures State() == AfterFetch(old(State()), Fetched(p))
    {
      if p.barcodeImageUrl.None? || p.barcodeImageUrl.value == "" {
        error := Some(NotAvailableMessage);
      } else {
        product := Some(p);
      }
      loading := false;
    }

    /** The lookup threw an error with this `message`. */
    method ResolveFailure(message: string)
      requires Valid()
      modifies this
      ensures Valid()
      ensures State() == AfterFetch(old(State()), Rejected(message))
    {
      error := Some(if message != "" then message else FetchFailedMessage);
      loading := false;
    }

    /** The lookup threw `null` or `undefined`: the catch block throws while
        reading `err.message`, and only the finally block runs. */
    method ResolveNullish()
      requires Valid()
      modifies this
      ensures Valid()
      ensures State() == AfterFetch(old(State()), RejectedNullish)
    {
      loading := false;
    }

    /** What the component returns for the current cells. */
    function View(settingsLoading: bool, settings: Settings, parse: QueryParser): (v: PageView)
      reads this
      ensures Valid() && v.ReadyView? ==> Payable(v.product)
    {
      Render(State(), settingsLoading, settings, parse)
    }
  }
}

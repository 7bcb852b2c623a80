/** The ticket purchase page: its quote, its retry key and its pending checkout.

    A `Page` holds the fields of the page's state object, the quantity field and the three records
    that the page keeps in session storage.  `Ticketing` is the page itself. */
module TicketingPage {
  import opened Options

  const MAX_SAFE_INTEGER := 9007199254740991

  datatype Money = Money(minorUnits: int, currency: string)

  datatype Offer = Offer(id: string, currency: Option<string>, maxPerReservation: int, availableQuantity: int)

  datatype Quote = Quote(
    inventoryId: string,
    quantity: int,
    pricingVersion: string,
    unitAmount: Option<Money>,
    totalAmount: Option<Money>,
    maxPerReservation: int,
    availableQuantity: int,
    expiresAt: Option<int>)

  /** What two quotes must share to be the same price for the same purchase. */
  datatype PriceIdentity = PriceIdentity(
    inventoryId: string, quantity: int, pricingVersion: string, total: Option<Money>)

  /** The captured locals of one quote request. */
  datatype QuoteRequest = QuoteRequest(id: nat, offer: Offer, quantity: int)

  datatype QuoteAnswer = Quoted(data: Option<Quote>) | NotQuoted

  /** A retry key; every one that is minted is new. */
  type Reference = nat

  datatype Fingerprint = Fingerprint(inventoryId: string, quantity: int)

  /** The stored attempt. `Unusable` stands for text that is no attempt of this page. */
  datatype Attempt = NoAttempt | Unusable | Attempt(fingerprint: Fingerprint, reference: Reference)

  datatype Handoff = Handoff(reservationReference: string, body: string)

  datatype Descriptor = Descriptor(
    path: string,
    idempotencyKey: string,
    handoffToken: string,
    handoff: Option<Handoff>,
    reservationReference: string)

  datatype Reservation = Reservation(reservationId: string, checkout: Descriptor)

  datatype Checkout = Checkout(checkoutId: string, statusToken: string, statusExpiresAt: string, reservationId: string)

  datatype Page = Page(
    selectedOffer: Option<Offer>,
    quantity: Option<real>,
    quantityMax: int,
    quote: Option<Quote>,
    quoteRequest: nat,
    submitting: bool,
    attempt: Attempt,
    pendingCheckout: Option<Reservation>,
    checkout: Option<Checkout>)

  /** What the reference for a reservation comes to: the stored one, a new one, or an error. */
  datatype Reserve = Proceed(reference: Reference, page: Page) | AttemptPending

  const CANONICAL_CHECKOUT_PATH := "/api/payments/v1/checkouts"

  // ---------------------------------------------------------------- quotes

  function Identity(q: Quote): PriceIdentity {
    PriceIdentity(q.inventoryId, q.quantity, q.pricingVersion, q.totalAmount)
  }

  /** The number in the quantity field, when it is one that can be bought. */
  function WholeQuantity(field: Option<real>): Option<int> {
    if field.Some? && field.value.Floor as real == field.value && 1 <= field.value.Floor <= MAX_SAFE_INTEGER
    then Some(field.value.Floor) else None
  }

  function Asked(p: Page): Option<QuoteRequest> {
    if p.selectedOffer.Some? && WholeQuantity(p.quantity).Some?
    then Some(QuoteRequest(p.quoteRequest + 1, p.selectedOffer.value, WholeQuantity(p.quantity).value)) else None
  }

  /** Asking for a quote drops the one that is held; an unusable quantity asks for none. */
  function RefreshQuote(p: Page): Page {
    if p.selectedOffer.None? then p
    else if Asked(p).None? then p.(quote := None)
    else p.(quote := None, quoteRequest := p.quoteRequest + 1)
  }

  predicate Usable(request: QuoteRequest, q: Quote) {
    && q.inventoryId == request.offer.id
    && q.quantity == request.quantity
    && q.unitAmount.Some? && q.totalAmount.Some?
    && q.unitAmount.value.currency == q.totalAmount.value.currency
    && (request.offer.currency.Some? && request.offer.currency.value != ""
        ==> q.unitAmount.value.currency == request.offer.currency.value)
  }

  predicate Latest(p: Page, request: QuoteRequest) {
    request.id == p.quoteRequest
  }

  predicate StillSelected(p: Page, request: QuoteRequest) {
    p.selectedOffer.Some? && p.selectedOffer.value.id == request.offer.id
  }

  /** The quote that an answer brings to a page, if any. */
  function Accepted(p: Page, request: QuoteRequest, answer: QuoteAnswer): Option<Quote> {
    if Latest(p, request) && StillSelected(p, request) && answer.Quoted? && answer.data.Some?
       && Usable(request, answer.data.value)
    then answer.data else None
  }

  function OrOne(n: int): int {
    if n == 0 then 1 else n
  }

  function Min(a: int, b: int): int {
    if a < b then a else b
  }

  function Max(a: int, b: int): int {
    if a < b then b else a
  }

  function QuoteArrived(p: Page, request: QuoteRequest, answer: QuoteAnswer): Page {
    var accepted := Accepted(p, request, answer);
    if accepted.Some? then
      var q := accepted.value;
      p.(quote := accepted, quantityMax := Max(1, Min(OrOne(q.maxPerReservation), OrOne(q.availableQuantity))))
    else if Latest(p, request) && (answer.NotQuoted? || StillSelected(p, request)) then p.(quote := None)
    else p
  }

  function Chosen(p: Page, offer: Offer): Page {
    var most := Min(offer.maxPerReservation, offer.availableQuantity);
    p.(selectedOffer := Some(offer), quote := None, quantityMax := most,
       quantity := if p.quantity.Some? && p.quantity.value > most as real then Some(1.0) else p.quantity)
  }

  function SelectOffer(p: Page, offer: Offer): Page { RefreshQuote(Chosen(p, offer)) }

  function NoOffers(p: Page): Page {
    p.(selectedOffer := None, quote := None)
  }

  function Clamp(low: real, high: real, x: real): real {
    var y := if low < x then x else low;
    if y < high then y else high
  }

  function Stepped(p: Page, delta: int): Page {
    if p.selectedOffer.None? then p else
    var most := Max(1, OrOne(p.quantityMax)) as real;
    var field := if p.quantity.Some? && p.quantity.value != 0.0 then p.quantity.value else 1.0;
    p.(quantity := Some(Clamp(1.0, most, Clamp(1.0, most, field) + delta as real)), quote := None)
  }

  function ChangeQuantity(p: Page, delta: int): Page { RefreshQuote(Stepped(p, delta)) }

  function Typed(p: Page, field: Option<real>): Page {
    p.(quantity := field, quote := None)
  }

  function InputQuantity(p: Page, field: Option<real>): Page { RefreshQuote(Typed(p, field)) }

  // ---------------------------------------------------------------- reservation and checkout

  predicate Resumable(p: Page) {
    && p.pendingCheckout.Some?
    && p.pendingCheckout.value.reservationId != ""
    && p.pendingCheckout.value.checkout.reservationReference == p.pendingCheckout.value.reservationId
  }

  predicate Sendable(d: Descriptor) {
    && d.path == CANONICAL_CHECKOUT_PATH
    && d.idempotencyKey != "" && d.handoffToken != ""
    && d.handoff.Some? && d.handoff.value.reservationReference == d.reservationReference
  }

  /** The key for a reservation of `wanted`: the stored one is reused, and one stored for another
      purchase stands in the way; `minted` is taken only where there is none. */
  function ReserveWith(p: Page, wanted: Fingerprint, minted: Reference): Reserve {
    match p.attempt
    case Attempt(fingerprint, reference) =>
      if fingerprint == wanted then Proceed(reference, p) else AttemptPending
    case _ => Proceed(minted, p.(attempt := Attempt(wanted, minted)))
  }

  /** What pressing the submit button comes to. */
  datatype Submitted =
    | Ignored
    | Resume(reservation: Reservation)
    | Quoting(request: QuoteRequest, held: Option<PriceIdentity>)

  function Held(p: Page): Option<PriceIdentity> {
    if p.quote.Some? then Some(Identity(p.quote.value)) else None
  }

  /** A stored checkout is resumed before anything else; a reservation starts with a new quote. */
  function Submit(p: Page, formValid: bool): (Submitted, Page) {
    if p.submitting then (Ignored, p)
    else if Resumable(p) then (Resume(p.pendingCheckout.value), p.(submitting := true))
    else if p.selectedOffer.None? || !formValid || WholeQuantity(p.quantity).None? then (Ignored, p)
    else (Quoting(Asked(p).value, Held(p)), RefreshQuote(p.(submitting := true)))
  }

  /** What the quote of a submission comes to. */
  datatype Priced = GiveUp | Blocked | Book(reference: Reference, fingerprint: Fingerprint, page: Page)

  function AfterQuote(p: Page, request: QuoteRequest, held: Option<PriceIdentity>, accepted: Option<Quote>,
                      now: int, minted: Reference): Priced
  {
    if accepted.None? || p.selectedOffer.None? then GiveUp
    else if held.Some? && held.value != Identity(accepted.value) then GiveUp
    else if accepted.value.expiresAt.Some? && accepted.value.expiresAt.value <= now then GiveUp
    else
      var wanted := Fingerprint(p.selectedOffer.value.id, request.quantity);
      match ReserveWith(p, wanted, minted)
      case AttemptPending => Blocked
      case Proceed(reference, page) => Book(reference, wanted, page)
  }

  function ClearAttempt(p: Page): Page {
    p.(attempt := NoAttempt)
  }

  /** The server made the reservation: its retry key goes, its checkout is kept for resuming. */
  function Reserved(p: Page, r: Reservation): Page {
    ClearAttempt(p).(pendingCheckout := Some(r))
  }

  function Opened(p: Page, c: Checkout): Page {
    p.(pendingCheckout := None, checkout := Some(c))
  }

  /** A submission is over, after an error with a 4xx status or not. */
  function Ended(p: Page, refused: bool): Page {
    (if refused then ClearAttempt(p) else p).(submitting := false)
  }

  /** A page after a reload: only session storage survives. */
  function Reloaded(p: Page): Page {
    Page(None, Some(1.0), 0, None, 0, false, p.attempt, p.pendingCheckout, p.checkout)
  }

  // ---------------------------------------------------------------- the page object

  class Ticketing {
    var selectedOffer: Option<Offer>
    var quantity: Option<real>
    var quantityMax: int
    var quote: Option<Quote>
    var quoteRequest: nat
    var submitting: bool
    var attempt: Attempt
    var pendingCheckout: Option<Reservation>
    var checkout: Option<Checkout>

    function View(): Page
      reads this
    {
      Page(selectedOffer, quantity, quantityMax, quote, quoteRequest, submitting, attempt, pendingCheckout, checkout)
    }

    /** A page opens on whatever session storage holds. */
    constructor (attempt: Attempt, pendingCheckout: Option<Reservation>, checkout: Option<Checkout>)
      ensures View() == Page(None, Some(1.0), 0, None, 0, false, attempt, pendingCheckout, checkout)
    {
      selectedOffer, quantity, quantityMax, quote, quoteRequest := None, Some(1.0), 0, None, 0;
      submitting := false;
      this.attempt, this.pendingCheckout, this.checkout := attempt, pendingCheckout, checkout;
    }

    method Refresh() returns (request: Option<QuoteRequest>)
      modifies this
      ensures View() == RefreshQuote(old(View())) && request == Asked(old(View()))
    {
      if selectedOffer.None? {
        return None;
      }
      var whole := WholeQuantity(quantity);
      if whole.None? {
        quote := None;
        return None;
      }
      quoteRequest := quoteRequest + 1;
      quote := None;
      return Some(QuoteRequest(quoteRequest, selectedOffer.value, whole.value));
    }

    method Arrive(request: QuoteRequest, answer: QuoteAnswer) returns (accepted: Option<Quote>)
      modifies this
      ensures View() == QuoteArrived(old(View()), request, answer)
      ensures accepted == Accepted(old(View()), request, answer)
    {
      if answer.Quoted? {
        if request.id != quoteRequest || selectedOffer.None? || selectedOffer.value.id != request.offer.id {
          return None;
        }
        if answer.data.Some? && Usable(request, answer.data.value) {
          quote := answer.data;
          quantityMax := Max(1, Min(OrOne(quote.value.maxPerReservation), OrOne(quote.value.availableQuantity)));
          return answer.data;
        }
      }
      if request.id != quoteRequest {
        return None;
      }
      quote := None;
      return None;
    }

    method Select(offer: Offer) returns (request: Option<QuoteRequest>)
      modifies this
      ensures View() == SelectOffer(old(View()), offer)
      ensures request == Asked(Chosen(old(View()), offer))
    {
      selectedOffer := Some(offer);
      quote := None;
      quantityMax := Min(offer.maxPerReservation, offer.availableQuantity);
      if quantity.Some? && quantity.value > quantityMax as real {
        quantity := Some(1.0);
      }
      request := Refresh();
    }

    method Step(delta: int) returns (request: Option<QuoteRequest>)
      modifies this
      ensures View() == ChangeQuantity(old(View()), delta)
      ensures request == Asked(Stepped(old(View()), delta))
    {
      if selectedOffer.None? {
        return None;
      }
      var most := Max(1, OrOne(quantityMax)) as real;
      var field := if quantity.Some? && quantity.value != 0.0 then quantity.value else 1.0;
      var current := Clamp(1.0, most, field);
      quantity := Some(Clamp(1.0, most, current + delta as real));
      quote := None;
      request := Refresh();
    }

    method Input(field: Option<real>) returns (request: Option<QuoteRequest>)
      modifies this
      ensures View() == InputQuantity(old(View()), field)
      ensures request == Asked(Typed(old(View()), field))
    {
      quantity := field;
      quote := None;
      request := Refresh();
    }

    /** No offer is left to choose from. */
    method DropOffers()
      modifies this
      ensures View() == NoOffers(old(View()))
    {
      selectedOffer := None;
      quote := None;
    }

    method ReferenceFor(inventoryId: string, wanted: int, minted: Reference) returns (r: Option<Reference>)
      modifies this
      ensures
        match ReserveWith(old(View()), Fingerprint(inventoryId, wanted), minted)
        case Proceed(reference, page) => r == Some(reference) && View() == page
        case AttemptPending => r == None && View() == old(View())
    {
      var fingerprint := Fingerprint(inventoryId, wanted);
      if attempt.Unusable? {
        attempt := NoAttempt;
      }
      if attempt.Attempt? {
        if attempt.fingerprint != fingerprint {
          return None;
        }
        return Some(attempt.reference);
      }
      attempt := Attempt(fingerprint, minted);
      return Some(minted);
    }

    method BeginSubmit(formValid: bool) returns (submitted: Submitted)
      modifies this
      ensures (submitted, View()) == Submit(old(View()), formValid)
    {
      if submitting {
        return Ignored;
      }
      if pendingCheckout.Some? && pendingCheckout.value.reservationId != ""
         && pendingCheckout.value.checkout.reservationReference == pendingCheckout.value.reservationId {
        submitting := true;
        return Resume(pendingCheckout.value);
      }
      if selectedOffer.None? || !formValid || WholeQuantity(quantity).None? {
        return Ignored;
      }
      submitting := true;
      var held := if quote.Some? then Some(Identity(quote.value)) else None;
      var request := Refresh();
      return Quoting(request.value, held);
    }

    method ContinueSubmit(request: QuoteRequest, held: Option<PriceIdentity>, accepted: Option<Quote>,
                          now: int, minted: Reference)
      returns (priced: Priced)
      modifies this
      ensures priced == AfterQuote(old(View()), request, held, accepted, now, minted)
      ensures View() == if priced.Book? then priced.page else old(View())
    {
      if accepted.None? || selectedOffer.None? {
        return GiveUp;
      }
      if held.Some? && held.value != Identity(accepted.value) {
        return GiveUp;
      }
      if accepted.value.expiresAt.Some? && accepted.value.expiresAt.value <= now {
        return GiveUp;
      }
      var reference := ReferenceFor(selectedOffer.value.id, request.quantity, minted);
      if reference.None? {
        return Blocked;
      }
      return Priced.Book(reference.value, Fingerprint(selectedOffer.value.id, request.quantity), View());
    }

    method Reserve(r: Reservation) returns (sends: bool)
      modifies this
      ensures View() == Reserved(old(View()), r) && sends == Sendable(r.checkout)
    {
      attempt := NoAttempt;
      pendingCheckout := Some(r);
      sends := Sendable(r.checkout);
    }

    /** A request of a new submission was refused with a 4xx status. */
    method Refuse()
      modifies this
      ensures View() == ClearAttempt(old(View()))
    {
      attempt := NoAttempt;
    }

    /** The last part of a submission. */
    method End(refused: bool)
      modifies this
      ensures View() == Ended(old(View()), refused)
    {
      if refused {
        Refuse();
      }
      submitting := false;
    }

    method OpenCheckout(c: Checkout)
      modifies this
      ensures View() == Opened(old(View()), c)
    {
      pendingCheckout := None;
      checkout := Some(c);
    }
  }
}

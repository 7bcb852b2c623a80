/** A ticket purchase as a protocol between the page, a network that loses answers, the ticketing
    server and page reloads.

    The server keeps one reservation for each retry key and may make it at any time after a request
    with that key was sent, whether or not the page still waits for the answer. */
module TicketingProtocol {
  import opened Options
  import opened TicketingPage

  /** Where the one submission that a page can have under way is. `shown` remembers the quote that was
      shown when the user submitted. */
  datatype Flow =
    | Idle
    | AwaitingQuote(request: QuoteRequest, held: Option<PriceIdentity>, shown: Option<Quote>)
    | AwaitingReservation(reference: Reference, fingerprint: Fingerprint)
    | AwaitingCheckout(reservation: Reservation, resumed: bool)
    | Closing(afterCheckout: bool)

  /** A reservation request that was sent, with the quote it rests on and the one that was shown. */
  datatype Purchase = Purchase(
    reference: Reference, fingerprint: Fingerprint, quote: Quote, shown: Option<Quote>)

  datatype State = State(
    page: Page,
    flow: Flow,
    quotes: map<nat, QuoteRequest>,
    minted: set<Reference>,
    sent: map<Reference, Fingerprint>,
    purchases: seq<Purchase>,
    checkouts: seq<Descriptor>,
    reservations: map<Reference, Fingerprint>,
    rejected: set<Reference>,
    answered: set<Reference>)

  datatype ReservationReply = Made(data: Option<Reservation>) | Refused | Lost
  datatype CheckoutReply = Session(checkout: Checkout) | NoSession(refused: bool)

  datatype Event =
    | OfferSelected(offer: Offer)
    | OffersGone
    | QuantityStepped(delta: int)
    | QuantityTyped(field: Option<real>)
    | RefreshPressed
    | QuoteAnswered(id: nat, answer: QuoteAnswer)
    | SubmitPressed(formValid: bool)
    | SubmitQuoteAnswered(answer: QuoteAnswer, now: int, key: Reference)
    | ReservationMade(reference: Reference)
    | ReservationRejected(reference: Reference)
    | ReservationAnswered(reply: ReservationReply)
    | CheckoutAnswered(checkoutReply: CheckoutReply)
    | FlowClosed(refused: bool)
    | PageReloaded

  /** A page that opens for the first time, on a session without a retry key. */
  predicate Init(s: State) {
    && s.page == Page(None, Some(1.0), 0, None, 0, false, s.page.attempt, s.page.pendingCheckout, s.page.checkout)
    && !s.page.attempt.Attempt?
    && s == State(s.page, Idle, map[], {}, map[], [], [], map[], {}, {})
  }

  ghost predicate Possible(s: State, e: Event) {
    match e
    case QuoteAnswered(id, _) => id in s.quotes
    case SubmitQuoteAnswered(_, _, key) => s.flow.AwaitingQuote? && key !in s.minted
    case ReservationMade(r) => r in s.sent && r !in s.rejected && r !in s.reservations
    case ReservationRejected(r) => r in s.sent && r !in s.reservations
    case ReservationAnswered(reply) =>
      s.flow.AwaitingReservation? && (reply.Made? ==> s.flow.reference in s.reservations)
    case CheckoutAnswered(_) => s.flow.AwaitingCheckout?
    case FlowClosed(_) => s.flow.Closing?
    case _ => true
  }

  /** The server refuses, with a 4xx status, only keys that it will never make a reservation for. */
  predicate Honest(s: State, e: Event) {
    e == ReservationAnswered(Refused) && s.flow.AwaitingReservation? ==> s.flow.reference in s.rejected
  }

  // ---------------------------------------------------------------- steps

  /** The page became `p`, by a handler that asks for a quote wherever it can. */
  function Asking(s: State, p: Page): State {
    var t := s.(page := p);
    if p.quoteRequest == s.page.quoteRequest || p.selectedOffer.None? || WholeQuantity(p.quantity).None? then t
    else t.(quotes := t.quotes[p.quoteRequest :=
              QuoteRequest(p.quoteRequest, p.selectedOffer.value, WholeQuantity(p.quantity).value)])
  }

  function AnswerQuote(s: State, id: nat, answer: QuoteAnswer): State
    requires id in s.quotes
  {
    s.(page := QuoteArrived(s.page, s.quotes[id], answer), quotes := s.quotes - {id})
  }

  function PressSubmit(s: State, formValid: bool): State {
    var (submitted, p) := Submit(s.page, formValid);
    match submitted
    case Ignored => s
    case Resume(r) => SendCheckout(s.(page := p), r, true)
    case Quoting(request, held) => s.(page := p, flow := AwaitingQuote(request, held, s.page.quote))
  }

  /** createCheckout, up to its wait: a descriptor that cannot be sent fails at once. */
  function SendCheckout(s: State, r: Reservation, resumed: bool): State {
    if Sendable(r.checkout)
    then s.(flow := AwaitingCheckout(r, resumed), checkouts := s.checkouts + [r.checkout])
    else s.(flow := Closing(false))
  }

  function PriceSubmission(s: State, answer: QuoteAnswer, now: int, key: Reference): State
    requires s.flow.AwaitingQuote?
  {
    var AwaitingQuote(request, held, shown) := s.flow;
    var p := QuoteArrived(s.page, request, answer);
    var accepted := Accepted(s.page, request, answer);
    match AfterQuote(p, request, held, accepted, now, key)
    case GiveUp => s.(page := p, flow := Closing(false))
    case Blocked => s.(page := p, flow := Closing(false))
    case Book(reference, fingerprint, booked) =>
      s.(page := booked,
         flow := AwaitingReservation(reference, fingerprint),
         minted := s.minted + {reference},
         sent := s.sent[reference := fingerprint],
         purchases := s.purchases + if accepted.Some?
                                    then [Purchase(reference, fingerprint, accepted.value, shown)] else [])
  }

  function AnswerReservation(s: State, reply: ReservationReply): State
    requires s.flow.AwaitingReservation?
  {
    match reply
    case Made(None) => s.(flow := Closing(false))
    case Made(Some(r)) =>
      SendCheckout(s.(page := Reserved(s.page, r), answered := s.answered + {s.flow.reference}), r, false)
    case Refused => s.(page := ClearAttempt(s.page), flow := Closing(false))
    case Lost => s.(flow := Closing(false))
  }

  function AnswerCheckout(s: State, reply: CheckoutReply): State
    requires s.flow.AwaitingCheckout?
  {
    match reply
    case Session(checkout) => s.(page := Opened(s.page, checkout), flow := Closing(!s.flow.resumed))
    case NoSession(refused) =>
      s.(page := if refused && !s.flow.resumed then ClearAttempt(s.page) else s.page, flow := Closing(false))
  }

  function Close(s: State, refused: bool): State
    requires s.flow.Closing?
  {
    s.(page := Ended(s.page, refused && s.flow.afterCheckout), flow := Idle)
  }

  ghost function Next(s: State, e: Event): State
    requires Possible(s, e)
  {
    match e
    case OfferSelected(offer) => Asking(s, SelectOffer(s.page, offer))
    case OffersGone => s.(page := NoOffers(s.page))
    case QuantityStepped(delta) => Asking(s, ChangeQuantity(s.page, delta))
    case QuantityTyped(field) => Asking(s, InputQuantity(s.page, field))
    case RefreshPressed => Asking(s, RefreshQuote(s.page))
    case QuoteAnswered(id, answer) => AnswerQuote(s, id, answer)
    case SubmitPressed(formValid) => PressSubmit(s, formValid)
    case SubmitQuoteAnswered(answer, now, key) => PriceSubmission(s, answer, now, key)
    case ReservationMade(r) => s.(reservations := s.reservations[r := s.sent[r]])
    case ReservationRejected(r) => s.(rejected := s.rejected + {r})
    case ReservationAnswered(reply) => AnswerReservation(s, reply)
    case CheckoutAnswered(reply) => AnswerCheckout(s, reply)
    case FlowClosed(refused) => Close(s, refused)
    case PageReloaded => s.(page := Reloaded(s.page), flow := Idle, quotes := map[])
  }

  ghost predicate CanRun(s: State, events: seq<Event>)
    decreases |events|
  {
    events == [] || (Possible(s, events[0]) && CanRun(Next(s, events[0]), events[1..]))
  }

  ghost function After(s: State, events: seq<Event>): State
    requires CanRun(s, events)
    decreases |events|
  {
    if events == [] then s else After(Next(s, events[0]), events[1..])
  }

  /** Every refusal in the run is honest. */
  ghost predicate HonestRun(s: State, events: seq<Event>)
    requires CanRun(s, events)
    decreases |events|
  {
    events == [] || (Honest(s, events[0]) && HonestRun(Next(s, events[0]), events[1..]))
  }

  // ---------------------------------------------------------------- invariants

  predicate FieldAgrees(p: Page, quantity: int) {
    WholeQuantity(p.quantity).None? || WholeQuantity(p.quantity) == Some(quantity)
  }

  /** The request asks what the page shows, unless it was overtaken or no offer is selected. */
  predicate AsksWhatIsShown(p: Page, request: QuoteRequest) {
    Latest(p, request) && p.selectedOffer.Some? ==> FieldAgrees(p, request.quantity)
  }

  predicate QuotesInOrder(s: State) {
    && (forall id :: id in s.quotes ==>
          s.quotes[id].id == id <= s.page.quoteRequest && AsksWhatIsShown(s.page, s.quotes[id]))
    && (s.flow.AwaitingQuote? ==> s.flow.request.id <= s.page.quoteRequest && AsksWhatIsShown(s.page, s.flow.request))
    && (s.page.quote.Some? ==>
          && s.page.selectedOffer.Some?
          && s.page.quote.value.inventoryId == s.page.selectedOffer.value.id
          && FieldAgrees(s.page, s.page.quote.value.quantity))
  }

  predicate KeysInOrder(s: State) {
    && (s.page.attempt.Attempt? ==>
          && s.page.attempt.reference in s.minted
          && s.page.attempt.reference !in s.answered
          && (s.page.attempt.reference in s.sent ==> s.sent[s.page.attempt.reference] == s.page.attempt.fingerprint))
    && s.sent.Keys <= s.minted
    && (forall r :: r in s.reservations ==> r in s.sent && s.reservations[r] == s.sent[r])
    && s.rejected <= s.sent.Keys && s.rejected !! s.reservations.Keys
    && s.answered <= s.reservations.Keys
  }

  predicate FlowInOrder(s: State) {
    && (s.page.submitting <==> !s.flow.Idle?)
    && (s.flow.AwaitingQuote? ==> !Resumable(s.page))
    && (s.flow.AwaitingReservation? ==>
          && !Resumable(s.page)
          && s.page.attempt == Attempt(s.flow.fingerprint, s.flow.reference)
          && s.flow.reference in s.sent)
    && (s.flow.AwaitingCheckout? ==>
          && (Resumable(s.page) ==> s.page.pendingCheckout == Some(s.flow.reservation))
          && (!s.flow.resumed ==> s.page.attempt.NoAttempt?))
    && (s.flow.Closing? && s.flow.afterCheckout ==> s.page.attempt.NoAttempt?)
  }

  /** Both quotes are for as many of the same offer, in the same version, at the same total. */
  predicate SamePrice(a: Quote, b: Quote) {
    && a.inventoryId == b.inventoryId && a.quantity == b.quantity && a.pricingVersion == b.pricingVersion
    && (a.totalAmount.Some? <==> b.totalAmount.Some?)
    && (a.totalAmount.Some? ==>
          && a.totalAmount.value.minorUnits == b.totalAmount.value.minorUnits
          && a.totalAmount.value.currency == b.totalAmount.value.currency)
  }

  predicate RestsOnQuote(p: Purchase) {
    && p.fingerprint == Fingerprint(p.quote.inventoryId, p.quote.quantity)
    && (p.shown.Some? ==> SamePrice(p.shown.value, p.quote))
  }

  /** What a submission remembers tells the price of the quote that was shown. */
  predicate Remembers(held: Option<PriceIdentity>, shown: Option<Quote>) {
    && (held.Some? <==> shown.Some?)
    && (held.Some? ==>
          && held.value.inventoryId == shown.value.inventoryId && held.value.quantity == shown.value.quantity
          && held.value.pricingVersion == shown.value.pricingVersion && held.value.total == shown.value.totalAmount)
  }

  predicate PurchasesQuoted(s: State) {
    && (s.flow.AwaitingQuote? ==> Remembers(s.flow.held, s.flow.shown))
    && forall p :: p in s.purchases ==>
         RestsOnQuote(p) && p.reference in s.sent && s.sent[p.reference] == p.fingerprint
  }

  predicate Inv(s: State) {
    QuotesInOrder(s) && KeysInOrder(s) && FlowInOrder(s) && PurchasesQuoted(s)
  }

  /** Every key but the stored one is settled: its reservation was answered, or will never be made. */
  predicate OneUnsettledKey(s: State) {
    forall r :: r in s.minted ==>
      r in s.answered || r in s.rejected || (s.page.attempt.Attempt? && s.page.attempt.reference == r)
  }

  lemma StartsInOrder(s: State)
    requires Init(s)
    ensures Inv(s) && OneUnsettledKey(s)
  {
  }

  /** A handler that drops the quote, may change the offer and the field, and asks anew where it can. */
  lemma AskingKeeps(s: State, p: Page)
    requires QuotesInOrder(s) && FlowInOrder(s) && p.quote.None?
    requires p.submitting == s.page.submitting && p.attempt == s.page.attempt
    requires p.pendingCheckout == s.page.pendingCheckout
    requires p.quoteRequest == s.page.quoteRequest
    requires p.selectedOffer.None? ==> s.page.selectedOffer.None?
    ensures QuotesInOrder(Asking(s, RefreshQuote(p))) && FlowInOrder(Asking(s, RefreshQuote(p)))
  {
    AskingKeepsQuotes(s, p);
    hide QuotesInOrder;
  }

  lemma AskingKeepsQuotes(s: State, p: Page)
    requires QuotesInOrder(s) && p.quote.None? && p.quoteRequest == s.page.quoteRequest
    ensures QuotesInOrder(Asking(s, RefreshQuote(p)))
  {
    assert p.selectedOffer.Some? && WholeQuantity(p.quantity).Some? ==>
        RefreshQuote(p).quoteRequest == s.page.quoteRequest + 1;
  }

  lemma EditKeeps(s: State, e: Event)
    requires QuotesInOrder(s) && FlowInOrder(s) && Possible(s, e)
    requires e.OfferSelected? || e.QuantityStepped? || e.QuantityTyped? || e.RefreshPressed?
    ensures QuotesInOrder(Next(s, e)) && FlowInOrder(Next(s, e))
  {
    hide QuotesInOrder, FlowInOrder;
    match e
    case OfferSelected(offer) =>
      AskingKeeps(s, Chosen(s.page, offer));
    case QuantityStepped(delta) =>
      if s.page.selectedOffer.Some? {
        AskingKeeps(s, Stepped(s.page, delta));
      }
    case QuantityTyped(field) => AskingKeeps(s, Typed(s.page, field));
    case RefreshPressed =>
      if s.page.selectedOffer.Some? {
        AskingKeeps(s, s.page.(quote := None));
      }
  }

  lemma QuoteKeeps(s: State, id: nat, answer: QuoteAnswer)
    requires QuotesInOrder(s) && FlowInOrder(s) && id in s.quotes
    ensures QuotesInOrder(AnswerQuote(s, id, answer)) && FlowInOrder(AnswerQuote(s, id, answer))
  {
  }

  lemma SubmitKeeps(s: State, formValid: bool)
    requires QuotesInOrder(s) && FlowInOrder(s)
    ensures QuotesInOrder(PressSubmit(s, formValid)) && FlowInOrder(PressSubmit(s, formValid))
  {
  }

  lemma PriceKeeps(s: State, answer: QuoteAnswer, now: int, key: Reference)
    requires QuotesInOrder(s) && FlowInOrder(s) && s.flow.AwaitingQuote?
    ensures QuotesInOrder(PriceSubmission(s, answer, now, key)) && FlowInOrder(PriceSubmission(s, answer, now, key))
  {
  }

  lemma ReservationKeeps(s: State, reply: ReservationReply)
    requires QuotesInOrder(s) && FlowInOrder(s) && s.flow.AwaitingReservation?
    ensures QuotesInOrder(AnswerReservation(s, reply)) && FlowInOrder(AnswerReservation(s, reply))
  {
  }

  lemma CheckoutKeeps(s: State, reply: CheckoutReply)
    requires QuotesInOrder(s) && FlowInOrder(s) && s.flow.AwaitingCheckout?
    ensures QuotesInOrder(AnswerCheckout(s, reply)) && FlowInOrder(AnswerCheckout(s, reply))
  {
  }

  lemma EndKeeps(s: State, e: Event)
    requires QuotesInOrder(s) && FlowInOrder(s) && Possible(s, e) && (e.FlowClosed? || e.PageReloaded?)
    ensures QuotesInOrder(Next(s, e)) && FlowInOrder(Next(s, e))
  {
  }

  lemma StepKeepsQuotesAndFlow(s: State, e: Event)
    requires QuotesInOrder(s) && FlowInOrder(s) && Possible(s, e)
    ensures QuotesInOrder(Next(s, e)) && FlowInOrder(Next(s, e))
  {
    match e
    case QuoteAnswered(id, answer) => QuoteKeeps(s, id, answer);
    case SubmitPressed(formValid) => SubmitKeeps(s, formValid);
    case SubmitQuoteAnswered(answer, now, key) => PriceKeeps(s, answer, now, key);
    case OffersGone =>
    case ReservationMade(_) =>
    case ReservationRejected(_) =>
    case ReservationAnswered(reply) => ReservationKeeps(s, reply);
    case CheckoutAnswered(reply) => CheckoutKeeps(s, reply);
    case FlowClosed(_) => EndKeeps(s, e);
    case PageReloaded => EndKeeps(s, e);
    case _ => EditKeeps(s, e);
  }

  predicate Quiet(e: Event) {
    e.OfferSelected? || e.OffersGone? || e.QuantityStepped? || e.QuantityTyped? || e.RefreshPressed?
    || e.QuoteAnswered? || e.SubmitPressed? || e.PageReloaded?
  }

  predicate SameKeys(s: State, t: State) {
    && t.page.attempt == s.page.attempt && t.minted == s.minted && t.sent == s.sent && t.purchases == s.purchases
    && t.reservations == s.reservations && t.rejected == s.rejected && t.answered == s.answered
  }

  /** What the user does before a submission is priced touches no key. */
  lemma QuietKeepsKeys(s: State, e: Event)
    requires Quiet(e) && Possible(s, e)
    ensures SameKeys(s, Next(s, e)) && Next(s, e).page.pendingCheckout == s.page.pendingCheckout
  {
    EditsKeepStorage(s.page, e);
    match e
    case SubmitPressed(formValid) => SubmitTouchesNoKeys(s, formValid);
    case QuoteAnswered(id, answer) => AnswerTouchesNoKeys(s, id, answer);
    case OfferSelected(offer) => AskingTouchesNoKeys(s, SelectOffer(s.page, offer));
    case QuantityStepped(delta) => AskingTouchesNoKeys(s, ChangeQuantity(s.page, delta));
    case QuantityTyped(field) => AskingTouchesNoKeys(s, InputQuantity(s.page, field));
    case RefreshPressed => AskingTouchesNoKeys(s, RefreshQuote(s.page));
    case _ =>
  }

  lemma SubmitTouchesNoKeys(s: State, formValid: bool)
    ensures
      var t := PressSubmit(s, formValid);
      SameKeys(s, t) && t.page.pendingCheckout == s.page.pendingCheckout
  {
  }

  lemma AnswerTouchesNoKeys(s: State, id: nat, answer: QuoteAnswer)
    requires id in s.quotes
    ensures
      var t := AnswerQuote(s, id, answer);
      SameKeys(s, t) && t.page.pendingCheckout == s.page.pendingCheckout
  {
  }

  lemma AskingTouchesNoKeys(s: State, p: Page)
    requires SameStorage(s.page, p)
    ensures
      var t := Asking(s, p);
      SameKeys(s, t) && t.page.pendingCheckout == s.page.pendingCheckout
  {
  }

  predicate SameStorage(p: Page, q: Page) {
    q.attempt == p.attempt && q.pendingCheckout == p.pendingCheckout && q.checkout == p.checkout
  }

  lemma EditsKeepStorage(p: Page, e: Event)
    ensures e.OfferSelected? ==> SameStorage(p, SelectOffer(p, e.offer))
    ensures e.QuantityStepped? ==> SameStorage(p, ChangeQuantity(p, e.delta))
    ensures e.QuantityTyped? ==> SameStorage(p, InputQuantity(p, e.field))
    ensures SameStorage(p, RefreshQuote(p)) && SameStorage(p, NoOffers(p))
  {
  }

  lemma StepKeepsKeys(s: State, e: Event)
    requires KeysInOrder(s) && FlowInOrder(s) && Possible(s, e)
    ensures KeysInOrder(Next(s, e))
  {
    if Quiet(e) {
      QuietKeepsKeys(s, e);
    } else if e.SubmitQuoteAnswered? {
      PriceKeepsKeys(s, e.answer, e.now, e.key);
    }
  }

  lemma PriceKeepsKeys(s: State, answer: QuoteAnswer, now: int, key: Reference)
    requires KeysInOrder(s) && s.flow.AwaitingQuote? && key !in s.minted
    ensures KeysInOrder(PriceSubmission(s, answer, now, key))
  {
  }

  lemma StepKeepsPurchases(s: State, e: Event)
    requires KeysInOrder(s) && PurchasesQuoted(s) && Possible(s, e)
    ensures PurchasesQuoted(Next(s, e))
  {
    if Quiet(e) {
      QuietKeepsKeys(s, e);
    } else if e.SubmitQuoteAnswered? {
      PriceKeepsPurchases(s, e.answer, e.now, e.key);
    }
  }

  lemma PriceKeepsPurchases(s: State, answer: QuoteAnswer, now: int, key: Reference)
    requires KeysInOrder(s) && PurchasesQuoted(s) && s.flow.AwaitingQuote? && key !in s.minted
    ensures PurchasesQuoted(PriceSubmission(s, answer, now, key))
  {
  }

  lemma StepKeeps(s: State, e: Event)
    requires Inv(s) && Possible(s, e)
    ensures Inv(Next(s, e))
  {
    StepKeepsQuotesAndFlow(s, e);
    StepKeepsKeys(s, e);
    StepKeepsPurchases(s, e);
  }

  lemma {:induction false} RunKeeps(s: State, events: seq<Event>)
    requires Inv(s) && CanRun(s, events)
    ensures Inv(After(s, events))
    decreases |events|
  {
    if events != [] {
      StepKeeps(s, events[0]);
      RunKeeps(Next(s, events[0]), events[1..]);
    }
  }

  lemma StepKeepsOneKey(s: State, e: Event)
    requires KeysInOrder(s) && FlowInOrder(s) && OneUnsettledKey(s) && Possible(s, e) && Honest(s, e)
    ensures OneUnsettledKey(Next(s, e))
  {
    if Quiet(e) {
      QuietKeepsKeys(s, e);
    }
  }
}

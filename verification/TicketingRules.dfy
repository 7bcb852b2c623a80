/** What single steps of a ticket purchase do, field by field. */
module TicketingRules {
  import opened Options
  import opened TicketingPage
  import opened TicketingProtocol

  /** A quantity can be bought exactly if the field holds a whole number from one to the largest safe one. */
  lemma QuantityUsableIff(field: Option<real>, n: int)
    ensures WholeQuantity(field) == Some(n) <==> field == Some(n as real) && 1 <= n <= 9007199254740991
  {
  }

  /** Selecting an offer bounds the field by what one reservation may hold and by what is left, puts a
      larger number in it back to one, drops the quote, and asks for a new one exactly if the field then
      holds a quantity that can be bought. */
  lemma SelectingAsksIff(s: State, offer: Offer)
    ensures
      var t := Next(s, OfferSelected(offer));
      var most := t.page.quantityMax;
      && most <= offer.maxPerReservation && most <= offer.availableQuantity
      && (most == offer.maxPerReservation || most == offer.availableQuantity)
      && t.page.selectedOffer == Some(offer) && t.page.quote.None?
      && t.page.quantity == (if s.page.quantity.Some? && s.page.quantity.value > most as real then Some(1.0)
                             else s.page.quantity)
      && if WholeQuantity(t.page.quantity).Some? then
           && t.page.quoteRequest == s.page.quoteRequest + 1
           && t.quotes == s.quotes[t.page.quoteRequest :=
                QuoteRequest(t.page.quoteRequest, offer, WholeQuantity(t.page.quantity).value)]
         else t.page.quoteRequest == s.page.quoteRequest && t.quotes == s.quotes
  {
  }

  /** Typing a quantity replaces the field and, with an offer selected, drops the quote and asks for a new
      one exactly if the field holds a quantity that can be bought. */
  lemma TypingAsksIff(s: State, field: Option<real>)
    ensures
      var t := Next(s, QuantityTyped(field));
      && t.page.quantity == field && t.page.quote.None? && t.page.selectedOffer == s.page.selectedOffer
      && if s.page.selectedOffer.Some? && WholeQuantity(field).Some? then
           && t.page.quoteRequest == s.page.quoteRequest + 1
           && t.quotes == s.quotes[t.page.quoteRequest :=
                QuoteRequest(t.page.quoteRequest, s.page.selectedOffer.value, WholeQuantity(field).value)]
         else t.page.quoteRequest == s.page.quoteRequest && t.quotes == s.quotes
  {
  }

  /** A stored record can be resumed: its reservation has an id, and its checkout refers to that id. */
  predicate RecordIsValid(stored: Option<Reservation>) {
    stored.Some? && stored.value.reservationId != ""
    && stored.value.reservationId == stored.value.checkout.reservationReference
  }

  /** A checkout can be sent: to the one path, with both keys, and with a hand-off for its reservation. */
  predicate CheckoutIsComplete(d: Descriptor) {
    && d.path == "/api/payments/v1/checkouts" && |d.idempotencyKey| > 0 && |d.handoffToken| > 0
    && d.handoff != None && d.handoff.value.reservationReference == d.reservationReference
  }

  /** A submission does nothing while another one is under way. A valid stored checkout goes before
      everything else: it is sent if it is complete. Otherwise the page asks for a new quote, exactly if
      an offer is selected, the form is valid and the quantity can be bought, and remembers the quote that
      it shows. */
  lemma SubmissionStarts(s: State, formValid: bool)
    ensures
      var t := PressSubmit(s, formValid);
      if s.page.submitting then t == s
      else if RecordIsValid(s.page.pendingCheckout) then
        var r := s.page.pendingCheckout.value;
        && t.page == s.page.(submitting := true)
        && if CheckoutIsComplete(r.checkout)
           then t.flow == AwaitingCheckout(r, true) && t.checkouts == s.checkouts + [r.checkout]
           else t.flow == Closing(false) && t.checkouts == s.checkouts
      else if s.page.selectedOffer.Some? && formValid && WholeQuantity(s.page.quantity).Some? then
        && t.page == s.page.(submitting := true, quote := None, quoteRequest := s.page.quoteRequest + 1)
        && t.flow.AwaitingQuote? && t.flow.shown == s.page.quote
        && t.flow.request == QuoteRequest(s.page.quoteRequest + 1, s.page.selectedOffer.value,
                                          WholeQuantity(s.page.quantity).value)
        && t.checkouts == s.checkouts
      else t == s
  {
  }

  /** A booking goes out under the stored key if one is stored and under the new key otherwise, for the
      offer and the quantity submitted, and that key is stored with them. */
  lemma BookingKey(s: State, answer: QuoteAnswer, now: int, key: Reference)
    requires s.flow.AwaitingQuote?
    ensures
      var t := PriceSubmission(s, answer, now, key);
      var wanted := Fingerprint(s.flow.request.offer.id, s.flow.request.quantity);
      if t.flow.AwaitingReservation? then
        && t.flow.reference == (if s.page.attempt.Attempt? then s.page.attempt.reference else key)
        && t.flow.fingerprint == wanted
        && t.page.attempt == Attempt(wanted, t.flow.reference)
        && t.sent == s.sent[t.flow.reference := wanted] && t.minted == s.minted + {t.flow.reference}
      else
        t.flow == Closing(false) && t.page.attempt == s.page.attempt && t.sent == s.sent && t.minted == s.minted
  {
    hide Usable, Identity;
  }

  /** A reservation that is answered gives up its key and stores its checkout, which is sent if it is
      complete; a refusal gives up the key; any other end leaves the page alone. */
  lemma ReservationEnds(s: State, reply: ReservationReply)
    requires s.flow.AwaitingReservation?
    ensures
      var t := AnswerReservation(s, reply);
      match reply
      case Made(Some(r)) =>
        && t.page == s.page.(attempt := NoAttempt, pendingCheckout := Some(r))
        && t.answered == s.answered + {s.flow.reference}
        && if CheckoutIsComplete(r.checkout)
           then t.flow == AwaitingCheckout(r, false) && t.checkouts == s.checkouts + [r.checkout]
           else t.flow == Closing(false) && t.checkouts == s.checkouts
      case Refused => t == s.(page := s.page.(attempt := NoAttempt), flow := Closing(false))
      case _ => t == s.(flow := Closing(false))
  {
  }

  /** A well-formed checkout takes the place of the stored record; any other answer leaves that record,
      and a refusal of a new submission gives up its key. */
  lemma CheckoutEnds(s: State, reply: CheckoutReply)
    requires s.flow.AwaitingCheckout?
    ensures
      var t := AnswerCheckout(s, reply);
      match reply
      case Session(checkout) =>
        && t.page == s.page.(pendingCheckout := None, checkout := Some(checkout))
        && t.flow == Closing(!s.flow.resumed)
      case NoSession(refused) =>
        && t.page == (if refused && !s.flow.resumed then s.page.(attempt := NoAttempt) else s.page)
        && t.flow == Closing(false)
  {
  }

  /** The page can submit again once a submission is closed; a reload keeps only what session storage
      holds, and begins with one of nothing. */
  lemma PageStartsAnew(s: State, refused: bool)
    ensures
      s.flow.Closing? ==>
        var t := Close(s, refused);
        && t.flow.Idle? && !t.page.submitting
        && t.page == s.page.(submitting := false, attempt := t.page.attempt)
        && t.page.attempt == if refused && s.flow.afterCheckout then NoAttempt else s.page.attempt
    ensures
      var t := Next(s, PageReloaded);
      && t.flow.Idle? && !t.page.submitting && t.page.selectedOffer.None? && t.page.quote.None?
      && t.page.quantity == Some(1.0) && t.quotes == map[]
      && t.page.attempt == s.page.attempt && t.page.pendingCheckout == s.page.pendingCheckout
      && t.page.checkout == s.page.checkout
  {
  }
}

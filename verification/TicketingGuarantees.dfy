/** What holds of a ticket purchase in every run of its protocol. */
module TicketingGuarantees {
  import opened Options
  import opened TicketingPage
  import opened TicketingProtocol

  // ---------------------------------------------------------------- the retry key

  /** The stored key is given up only when its own reservation is answered, well-formed, or refused. */
  lemma KeyKeptUntilAnswered(s: State, e: Event)
    requires Inv(s) && Possible(s, e) && s.page.attempt.Attempt?
    ensures
      || Next(s, e).page.attempt == s.page.attempt
      || (s.flow == AwaitingReservation(s.page.attempt.reference, s.page.attempt.fingerprint)
          && e.ReservationAnswered? && (e.reply == Refused || (e.reply.Made? && e.reply.data.Some?)))
  {
    if Quiet(e) {
      QuietKeepsKeys(s, e);
    }
  }

  /** However often a purchase is retried, over lost answers and reloads, every key it used but the
      stored one is settled, so at most one reservation is unknown to the page, and it has that key. */
  lemma {:induction false} AtMostOneUnknownReservation(s: State, events: seq<Event>)
    requires Inv(s) && OneUnsettledKey(s) && CanRun(s, events) && HonestRun(s, events)
    ensures
      var t := After(s, events);
      && OneUnsettledKey(t)
      && t.reservations.Keys - t.answered <= (if t.page.attempt.Attempt? then {t.page.attempt.reference} else {})
      && |t.reservations| <= |t.answered| + 1
    decreases |events|
  {
    if events == [] {
      UnknownReservations(s);
    } else {
      StepKeepsOneKey(s, events[0]);
      StepKeeps(s, events[0]);
      AtMostOneUnknownReservation(Next(s, events[0]), events[1..]);
    }
  }

  lemma UnknownReservations(s: State)
    requires Inv(s) && OneUnsettledKey(s)
    ensures s.reservations.Keys - s.answered <= (if s.page.attempt.Attempt? then {s.page.attempt.reference} else {})
    ensures |s.reservations| <= |s.answered| + 1
  {
    var unknown := s.reservations.Keys - s.answered;
    assert s.reservations.Keys == unknown + s.answered;
    assert |s.reservations.Keys| == |unknown| + |s.answered|;
    if s.page.attempt.Attempt? {
      Subset(unknown, {s.page.attempt.reference});
    } else {
      Subset(unknown, {});
    }
  }

  lemma {:induction false} Subset(small: set<Reference>, large: set<Reference>)
    requires small <= large
    ensures |small| <= |large|
  {
    if small != {} {
      var x :| x in small;
      Subset(small - {x}, large - {x});
    }
  }

  /** A key stands for one purchase for ever: once it was sent for an offer and a quantity it is
      never sent for others, and the reservation made for it is for those. */
  lemma {:induction false} KeyStandsForOnePurchase(s: State, events: seq<Event>, r: Reference)
    requires Inv(s) && CanRun(s, events) && r in s.sent
    ensures
      var t := After(s, events);
      && r in t.sent && t.sent[r] == s.sent[r]
      && (r in t.reservations ==> t.reservations[r] == s.sent[r])
      && forall p :: p in t.purchases && p.reference == r ==> p.fingerprint == s.sent[r]
    decreases |events|
  {
    if events != [] {
      StepKeeps(s, events[0]);
      SentStays(s, events[0], r);
      KeyStandsForOnePurchase(Next(s, events[0]), events[1..], r);
    }
  }

  lemma SentStays(s: State, e: Event, r: Reference)
    requires Inv(s) && Possible(s, e) && r in s.sent
    ensures r in Next(s, e).sent && Next(s, e).sent[r] == s.sent[r]
  {
  }

  /** From `s` on, against a server whose refusals are all honest, two reservations can come to stand
      that the page does not know of. */
  ghost predicate CanReserveTwice(s: State) {
    exists events :: ReservesTwice(s, events)
  }

  ghost predicate ReservesTwice(s: State, events: seq<Event>) {
    && CanRun(s, events) && HonestRun(s, events)
    && exists r, other :: r != other && {r, other} <= After(s, events).reservations.Keys - After(s, events).answered
  }

  /** Giving up the key on a refusal lets the page reserve twice if and only if the server has not ruled
      out that it will still serve the refused request. */
  lemma RefusalReservesTwiceIff(s: State)
    requires Inv(s) && OneUnsettledKey(s) && s.flow.AwaitingReservation?
    ensures CanReserveTwice(Next(s, ReservationAnswered(Refused))) <==> s.flow.reference !in s.rejected
  {
    var t := Next(s, ReservationAnswered(Refused));
    StepKeeps(s, ReservationAnswered(Refused));
    if s.flow.reference in s.rejected {
      StepKeepsOneKey(s, ReservationAnswered(Refused));
      forall events | CanRun(t, events) && HonestRun(t, events) ensures !ReservesTwice(t, events) {
        AtMostOneUnknownReservation(t, events);
      }
    } else {
      var events := ReserveAgain(s);
      assert ReservesTwice(t, events);
    }
  }

  // ---------------------------------------------------------------- quotes

  /** The page takes a quote only from the latest request and for the offer that is selected. */
  lemma QuoteFromLatestRequest(s: State, e: Event)
    requires Inv(s) && Possible(s, e) && Next(s, e).page.quote.Some? && Next(s, e).page.quote != s.page.quote
    ensures e.QuoteAnswered? || e.SubmitQuoteAnswered?
    ensures
      var request := if e.QuoteAnswered? then s.quotes[e.id] else s.flow.request;
      && Latest(s.page, request) && StillSelected(s.page, request)
      && e.answer == Quoted(Next(s, e).page.quote)
      && Usable(request, Next(s, e).page.quote.value)
  {
    hide QuoteArrived, Accepted, Asking, PressSubmit, SendCheckout, PriceSubmission, Inv;
    match e
    case QuoteAnswered(id, answer) => ArrivedQuote(s.page, s.quotes[id], answer);
    case SubmitQuoteAnswered(answer, now, key) => PricedQuote(s, answer, now, key);
    case ReservationAnswered(reply) => ReservationTakesNoQuote(s, reply);
    case CheckoutAnswered(_) =>
    case FlowClosed(_) =>
    case ReservationMade(_) =>
    case ReservationRejected(_) =>
    case PageReloaded =>
    case SubmitPressed(formValid) => SubmitTakesNoQuote(s, formValid);
    case _ => EditsTakeNoQuote(s, e);
  }

  lemma ArrivedQuote(p: Page, request: QuoteRequest, answer: QuoteAnswer)
    ensures
      var q := QuoteArrived(p, request, answer).quote;
      q.Some? && q != p.quote ==>
        Latest(p, request) && StillSelected(p, request) && answer == Quoted(q) && Usable(request, q.value)
  {
  }

  lemma PricedQuote(s: State, answer: QuoteAnswer, now: int, key: Reference)
    requires s.flow.AwaitingQuote?
    ensures
      var q := PriceSubmission(s, answer, now, key).page.quote;
      q.Some? && q != s.page.quote ==>
        && Latest(s.page, s.flow.request) && StillSelected(s.page, s.flow.request)
        && answer == Quoted(q) && Usable(s.flow.request, q.value)
  {
    hide QuoteArrived;
    ArrivedQuote(s.page, s.flow.request, answer);
  }

  lemma ReservationTakesNoQuote(s: State, reply: ReservationReply)
    requires s.flow.AwaitingReservation?
    ensures AnswerReservation(s, reply).page.quote == s.page.quote
  {
  }

  lemma SubmitTakesNoQuote(s: State, formValid: bool)
    ensures PressSubmit(s, formValid).page.quote == s.page.quote || PressSubmit(s, formValid).page.quote.None?
  {
  }

  lemma EditsTakeNoQuote(s: State, e: Event)
    requires Quiet(e) && !e.QuoteAnswered? && !e.SubmitPressed? && Possible(s, e)
    ensures Next(s, e).page.quote == s.page.quote || Next(s, e).page.quote.None?
  {
    hide Asking, RefreshQuote, WholeQuantity, Clamp, Min, Max, OrOne;
    match e
    case OfferSelected(offer) => AskedPageTakesNoQuote(s, Chosen(s.page, offer));
    case QuantityStepped(delta) => AskedPageTakesNoQuote(s, Stepped(s.page, delta));
    case QuantityTyped(field) => AskedPageTakesNoQuote(s, Typed(s.page, field));
    case RefreshPressed => AskedPageTakesNoQuote(s, s.page);
    case OffersGone =>
    case PageReloaded =>
  }

  lemma AskedPageTakesNoQuote(s: State, p: Page)
    ensures Asking(s, RefreshQuote(p)).page.quote == p.quote || Asking(s, RefreshQuote(p)).page.quote.None?
  {
  }

  /** The quote that is shown is for the selected offer, and for the quantity in the field unless
      the field holds nothing that can be bought. */
  lemma ShownQuoteMatches(s: State, events: seq<Event>)
    requires Inv(s) && CanRun(s, events) && After(s, events).page.quote.Some?
    ensures
      var p := After(s, events).page;
      && p.selectedOffer.Some? && p.quote.value.inventoryId == p.selectedOffer.value.id
      && (WholeQuantity(p.quantity).Some? <==> WholeQuantity(p.quantity) == Some(p.quote.value.quantity))
  {
    RunKeeps(s, events);
  }

  /** Stepping leaves a quantity between one and the field's maximum, and steps by `delta` wherever
      that stays between them; a whole quantity stays whole. */
  lemma SteppedQuantityStaysInBounds(p: Page, delta: int)
    requires p.selectedOffer.Some?
    ensures
      var q := ChangeQuantity(p, delta).quantity;
      var most := Max(1, OrOne(p.quantityMax));
      && q.Some? && 1.0 <= q.value <= most as real
      && (p.quantity.Some? && 1.0 <= p.quantity.value <= most as real
          && 1.0 <= p.quantity.value + delta as real <= most as real
          ==> q.value == p.quantity.value + delta as real)
      && (WholeQuantity(p.quantity).Some? && most <= MAX_SAFE_INTEGER ==> WholeQuantity(q).Some?)
  {
    var q := ChangeQuantity(p, delta).quantity.value;
    if WholeQuantity(p.quantity).Some? {
      var n, most := WholeQuantity(p.quantity).value, Max(1, OrOne(p.quantityMax));
      var from := if n < most then n else most;
      assert Clamp(1.0, most as real, p.quantity.value) == from as real;
      var to := if from + delta < 1 then 1 else if from + delta < most then from + delta else most;
      assert q == to as real && q.Floor == to;
    }
  }

  /** Every reservation that was ever sent is for the offer and the quantity of a new quote, whose
      price is that of the quote which was shown when the user submitted, if one was: it agrees with that
      quote in offer, quantity, version, and in the amount and the currency of the total. */
  lemma ReservationsRestOnQuotes(s: State, events: seq<Event>, p: Purchase)
    requires Inv(s) && CanRun(s, events) && p in After(s, events).purchases
    ensures p.fingerprint == Fingerprint(p.quote.inventoryId, p.quote.quantity)
    ensures p.shown.Some? ==> SamePrice(p.shown.value, p.quote)
    ensures p.reference in After(s, events).sent && After(s, events).sent[p.reference] == p.fingerprint
  {
    RunKeeps(s, events);
  }

  /** A submission that waits for its quote is booked if and only if it gets a usable and unexpired one,
      for the offer still selected and at the price shown, if one was shown, and no stored key for another
      purchase stands in the way. */
  lemma BookedIff(s: State, answer: QuoteAnswer, now: int, key: Reference)
    requires Inv(s) && s.flow.AwaitingQuote?
    ensures
      var request := s.flow.request;
      var wanted := Fingerprint(request.offer.id, request.quantity);
      PriceSubmission(s, answer, now, key).flow.AwaitingReservation? <==>
      && Answers(s.page, request, answer)
      && (s.flow.shown.Some? ==> SamePrice(s.flow.shown.value, answer.data.value))
      && (answer.data.value.expiresAt.Some? ==> now < answer.data.value.expiresAt.value)
      && !(s.page.attempt.Attempt? && s.page.attempt.fingerprint != wanted)
  {
    hide QuotesInOrder, KeysInOrder, FlowInOrder, QuoteArrived, Accepted, Identity, SamePrice;
    AcceptedIff(s.page, s.flow.request, answer);
    QuoteTakenIff(s.page, s.flow.request, answer);
    if answer.Quoted? && answer.data.Some? && s.flow.shown.Some? {
      SamePriceIff(s.flow.held.value, s.flow.shown.value, answer.data.value);
    }
  }

  lemma SamePriceIff(held: PriceIdentity, shown: Quote, q: Quote)
    requires Remembers(Some(held), Some(shown))
    ensures held == Identity(q) <==> SamePrice(shown, q)
  {
    if SamePrice(shown, q) && q.totalAmount.Some? {
      assert shown.totalAmount.value == q.totalAmount.value;
    }
  }

  lemma AcceptedIff(p: Page, request: QuoteRequest, answer: QuoteAnswer)
    ensures Accepted(p, request, answer) == if Answers(p, request, answer) then answer.data else None
  {
  }

  /** The answer is a quote for what the latest request asks and the selected offer is, with both amounts
      in one currency, which is the offer's if the offer names one. */
  predicate Answers(p: Page, request: QuoteRequest, answer: QuoteAnswer) {
    && request.id == p.quoteRequest
    && p.selectedOffer.Some? && p.selectedOffer.value.id == request.offer.id
    && answer.Quoted? && answer.data.Some?
    && answer.data.value.inventoryId == request.offer.id && answer.data.value.quantity == request.quantity
    && answer.data.value.unitAmount.Some? && answer.data.value.totalAmount.Some?
    && answer.data.value.unitAmount.value.currency == answer.data.value.totalAmount.value.currency
    && (request.offer.currency in {None, Some("")}
        || request.offer.currency.value == answer.data.value.unitAmount.value.currency)
  }

  /** A quote request that is answered leaves the page with that quote exactly if the answer is one, and
      bounds the field by it; it leaves the page without a quote if the latest request was not answered so
      for the selected offer, and alone otherwise. */
  lemma QuoteTakenIff(p: Page, request: QuoteRequest, answer: QuoteAnswer)
    ensures
      var q := QuoteArrived(p, request, answer);
      && q == p.(quote := q.quote, quantityMax := q.quantityMax)
      && if Answers(p, request, answer) then
           && q.quote == answer.data
           && var most := AtLeastOne(answer.data.value.maxPerReservation);
              var left := AtLeastOne(answer.data.value.availableQuantity);
              1 <= q.quantityMax <= most && q.quantityMax <= left && (q.quantityMax == most || q.quantityMax == left)
         else
           && q.quantityMax == p.quantityMax
           && q.quote == if request.id == p.quoteRequest
                            && (answer.NotQuoted?
                                || (p.selectedOffer.Some? && p.selectedOffer.value.id == request.offer.id))
                         then None else p.quote
  {
  }

  function AtLeastOne(n: int): int {
    if n < 1 then 1 else n
  }

  /** A reservation goes out only on the answer to a submission, and each one is on record. */
  lemma ReservationSentWithItsQuote(s: State, e: Event)
    requires Inv(s) && Possible(s, e) && Next(s, e).flow.AwaitingReservation? && !s.flow.AwaitingReservation?
    ensures e.SubmitQuoteAnswered? && s.flow.AwaitingQuote?
    ensures
      var t := Next(s, e);
      && t.page.quote.Some?
      && t.purchases == s.purchases + [Purchase(t.flow.reference, t.flow.fingerprint, t.page.quote.value, s.flow.shown)]
      && t.flow.fingerprint == Fingerprint(s.flow.request.offer.id, s.flow.request.quantity)
      && (t.page.quote.value.expiresAt.Some? ==> e.now < t.page.quote.value.expiresAt.value)
  {
    hide PriceSubmission, Inv, Accepted, Asked, WholeQuantity;
    match e
    case SubmitPressed(_) =>
    case SubmitQuoteAnswered(answer, now, key) => BookedWithItsQuote(s, answer, now, key);
    case ReservationAnswered(_) =>
    case CheckoutAnswered(_) =>
    case _ =>
  }

  lemma BookedWithItsQuote(s: State, answer: QuoteAnswer, now: int, key: Reference)
    requires s.flow.AwaitingQuote?
    ensures
      var t := PriceSubmission(s, answer, now, key);
      t.flow.AwaitingReservation? ==>
        && t.page.quote.Some?
        && t.purchases
           == s.purchases + [Purchase(t.flow.reference, t.flow.fingerprint, t.page.quote.value, s.flow.shown)]
        && t.flow.fingerprint == Fingerprint(s.flow.request.offer.id, s.flow.request.quantity)
        && (t.page.quote.value.expiresAt.Some? ==> now < t.page.quote.value.expiresAt.value)
  {
  }

  /** A quote may stay on screen while the field holds nothing that can be bought: the request for
      it was under way when the field was emptied, and emptying it does not overtake the request. */
  lemma QuoteOverUnusableField(offer: Offer, q: Quote) returns (events: seq<Event>)
    requires offer.maxPerReservation >= 1 && offer.availableQuantity >= 1
    requires Usable(QuoteRequest(1, offer, 1), q)
    ensures Init(OPENED) && CanRun(OPENED, events)
    ensures After(OPENED, events).page.quote == Some(q) && After(OPENED, events).page.quantity == None
  {
    var chosen := Next(OPENED, OfferSelected(offer));
    ThenOne(OPENED, [], OfferSelected(offer));
    events := [] + [OfferSelected(offer)];
    ThenOne(OPENED, events, QuantityTyped(None));
    events := events + [QuantityTyped(None)];
    var answer := QuoteAnswered(1, Quoted(Some(q)));
    ThenOne(OPENED, events, answer);
    events := events + [answer];
    assert chosen.quotes == map[1 := QuoteRequest(1, offer, 1)];
  }

  // ---------------------------------------------------------------- the pending checkout

  /** While a valid pending checkout is stored, no reservation is requested and no key is minted,
      and the only checkout that is sent is the stored one, with its hand-off and its key. */
  lemma PendingCheckoutIsResumed(s: State, e: Event)
    requires Inv(s) && Possible(s, e) && Resumable(s.page)
    ensures
      var t := Next(s, e);
      && t.sent == s.sent && t.minted == s.minted && t.purchases == s.purchases
      && (t.checkouts == s.checkouts || t.checkouts == s.checkouts + [s.page.pendingCheckout.value.checkout])
      && (t.page.pendingCheckout == s.page.pendingCheckout
          || (e.CheckoutAnswered? && e.checkoutReply.Session? && t.page.pendingCheckout.None?
              && t.page.checkout == Some(e.checkoutReply.checkout)
              && s.flow.AwaitingCheckout? && s.flow.reservation == s.page.pendingCheckout.value))
    ensures
      e.SubmitPressed? && !s.page.submitting && Sendable(s.page.pendingCheckout.value.checkout) ==>
        Next(s, e).flow == AwaitingCheckout(s.page.pendingCheckout.value, true)
  {
    if Quiet(e) {
      QuietKeepsKeys(s, e);
      if !e.SubmitPressed? { EditsSendNoCheckout(s, e); }
    }
  }

  lemma EditsSendNoCheckout(s: State, e: Event)
    requires Quiet(e) && !e.SubmitPressed? && Possible(s, e)
    ensures Next(s, e).checkouts == s.checkouts
  {
    match e
    case QuoteAnswered(_, _) =>
    case _ =>
  }

  /** The event brings a well-formed checkout. */
  predicate OpensCheckout(e: Event) {
    e.CheckoutAnswered? && e.checkoutReply.Session?
  }

  /** Until a well-formed checkout arrives the pending record stays, through lost answers and
      reloads; nothing new is reserved, and every checkout request repeats the stored one. */
  lemma {:induction false} PendingCheckoutKeptUntilOpened(s: State, events: seq<Event>)
    requires Inv(s) && CanRun(s, events) && Resumable(s.page)
    requires forall e :: e in events ==> !OpensCheckout(e)
    ensures
      var t := After(s, events);
      && t.page.pendingCheckout == s.page.pendingCheckout && t.sent == s.sent && t.purchases == s.purchases
      && s.checkouts <= t.checkouts
      && forall i :: |s.checkouts| <= i < |t.checkouts| ==> t.checkouts[i] == s.page.pendingCheckout.value.checkout
    decreases |events|
  {
    if events != [] {
      var t := Next(s, events[0]);
      assert !OpensCheckout(events[0]);
      PendingCheckoutIsResumed(s, events[0]);
      StepKeeps(s, events[0]);
      PendingCheckoutKeptUntilOpened(t, events[1..]);
    }
  }

  // ---------------------------------------------------------------- whole runs

  lemma EveryRunStartsInOrder(s: State, events: seq<Event>)
    requires Init(s) && CanRun(s, events)
    ensures Inv(After(s, events))
  {
    StartsInOrder(s);
    RunKeeps(s, events);
  }

  /** From the first page on, against a server that refuses only what it will never reserve: one
      reservation at most is unknown to the page, each is for the purchase its key was sent for, and
      each purchase was sent on a new quote, at the price the page held at submission if it held one. */
  lemma PurchasesAreSafe(s: State, events: seq<Event>)
    requires Init(s) && CanRun(s, events) && HonestRun(s, events)
    ensures
      var t := After(s, events);
      && |t.reservations| <= |t.answered| + 1
      && (forall r :: r in t.reservations ==> r in t.sent && t.reservations[r] == t.sent[r])
      && (forall p :: p in t.purchases ==>
            RestsOnQuote(p) && p.reference in t.sent && t.sent[p.reference] == p.fingerprint)
  {
    StartsInOrder(s);
    RunKeeps(s, events);
    AtMostOneUnknownReservation(s, events);
  }

  // ---------------------------------------------------------------- a server that is not honest

  /** A page just opened, with nothing in session storage. */
  const OPENED: State := State(Page(None, Some(1.0), 0, None, 0, false, NoAttempt, None, None),
                               Idle, map[], {}, map[], [], [], map[], {}, {})

  lemma {:induction false} ThenOne(s: State, events: seq<Event>, e: Event)
    requires CanRun(s, events) && Possible(After(s, events), e)
    ensures CanRun(s, events + [e]) && After(s, events + [e]) == Next(After(s, events), e)
    decreases |events|
  {
    if events == [] {
      assert [e][1..] == [] && CanRun(Next(s, e), []);
    } else {
      ThenOne(Next(s, events[0]), events[1..], e);
      assert (events + [e])[1..] == events[1..] + [e];
    }
  }

  /** The page is idle with one of `offer` chosen, `q` prices it, and `key` is new. */
  predicate Buyable(s: State, offer: Offer, q: Quote, key: Reference) {
    && s.flow.Idle? && !s.page.submitting && !Resumable(s.page) && s.page.attempt.NoAttempt?
    && s.page.selectedOffer == Some(offer) && WholeQuantity(s.page.quantity) == Some(1)
    && key !in s.minted && s.sent.Keys <= s.minted && s.rejected <= s.sent.Keys && s.reservations.Keys <= s.sent.Keys
    && Usable(QuoteRequest(s.page.quoteRequest + 1, offer, 1), q) && q.expiresAt.None?
    && (s.page.quote.Some? ==> s.page.quote.value == q)
  }

  /** One purchase of `offer` that is priced, sent and committed under key `key`. */
  lemma BuyOnce(s: State, offer: Offer, q: Quote, key: Reference) returns (events: seq<Event>)
    requires Buyable(s, offer, q, key)
    ensures CanRun(s, events) && NoRefusals(events)
    ensures
      var t := After(s, events);
      && t.flow == AwaitingReservation(key, Fingerprint(offer.id, 1))
      && t.page.attempt == Attempt(Fingerprint(offer.id, 1), key)
      && t.page.selectedOffer == Some(offer) && t.page.quantity == s.page.quantity && t.page.quote == Some(q)
      && t.page.pendingCheckout == s.page.pendingCheckout
      && t.minted == s.minted + {key} && t.sent == s.sent[key := Fingerprint(offer.id, 1)]
      && t.reservations == s.reservations[key := Fingerprint(offer.id, 1)]
      && t.rejected == s.rejected && t.answered == s.answered
  {
    var request := QuoteRequest(s.page.quoteRequest + 1, offer, 1);
    var priced := SubmitQuoteAnswered(Quoted(Some(q)), 0, key);
    SubmitAsks(s, offer, q, key);
    var s1 := Next(s, SubmitPressed(true));
    AnswerBooks(s1, request, Held(s.page), s.page.quote, q, key);
    ThenOne(s, [], SubmitPressed(true));
    events := [] + [SubmitPressed(true)];
    ThenOne(s, events, priced);
    events := events + [priced];
    ThenOne(s, events, ReservationMade(key));
    events := events + [ReservationMade(key)];
  }

  /** A submission asks for the price of one of `offer`. */
  lemma SubmitAsks(s: State, offer: Offer, q: Quote, key: Reference)
    requires Buyable(s, offer, q, key)
    ensures
      var t := Next(s, SubmitPressed(true));
      var request := QuoteRequest(s.page.quoteRequest + 1, offer, 1);
      && t == s.(page := t.page, flow := AwaitingQuote(request, Held(s.page), s.page.quote))
      && Latest(t.page, request) && t.page.attempt.NoAttempt? && t.page.pendingCheckout == s.page.pendingCheckout
      && t.page.selectedOffer == Some(offer) && t.page.quantity == s.page.quantity
  {
  }

  /** The price is the one held, and the reservation goes out under the new key. */
  lemma AnswerBooks(s: State, request: QuoteRequest, held: Option<PriceIdentity>, shown: Option<Quote>, q: Quote,
                    key: Reference)
    requires s.flow == AwaitingQuote(request, held, shown) && Latest(s.page, request) && s.page.attempt.NoAttempt?
    requires s.page.selectedOffer == Some(request.offer) && Usable(request, q) && q.expiresAt.None?
    requires held.Some? ==> held.value == Identity(q)
    ensures
      var t := PriceSubmission(s, Quoted(Some(q)), 0, key);
      var fingerprint := Fingerprint(request.offer.id, request.quantity);
      && t == s.(page := t.page, flow := AwaitingReservation(key, fingerprint), minted := s.minted + {key},
                 sent := s.sent[key := fingerprint], purchases := t.purchases)
      && t.page.attempt == Attempt(fingerprint, key) && t.page.selectedOffer == s.page.selectedOffer
      && t.page.quantity == s.page.quantity && t.page.quote == Some(q)
      && t.page.pendingCheckout == s.page.pendingCheckout
  {
    assert Accepted(s.page, request, Quoted(Some(q))) == Some(q);
  }

  predicate NoRefusals(events: seq<Event>) {
    ReservationAnswered(Refused) !in events
  }

  lemma {:induction false} NoRefusalsIsHonest(s: State, events: seq<Event>)
    requires CanRun(s, events) && NoRefusals(events)
    ensures HonestRun(s, events)
    decreases |events|
  {
    if events != [] {
      assert events[0] in events;
      NoRefusalsIsHonest(Next(s, events[0]), events[1..]);
    }
  }

  /** A key that was never minted. */
  lemma {:induction false} FreshKey(minted: set<Reference>) returns (key: Reference)
    ensures forall r :: r in minted ==> r < key
  {
    if minted == {} {
      key := 0;
    } else {
      var r :| r in minted;
      var above := FreshKey(minted - {r});
      key := if above <= r then r + 1 else above;
      forall x | x in minted ensures x < key {
        assert x == r || x in minted - {r};
      }
    }
  }

  /** After a refusal of a key that was not ruled out: the server serves the refused request, the user
      chooses an offer again, and the purchase goes out under a new key and is served too. */
  lemma ReserveAgain(s: State) returns (events: seq<Event>)
    requires Inv(s) && s.flow.AwaitingReservation? && s.flow.reference !in s.rejected
    ensures
      var t := Next(s, ReservationAnswered(Refused));
      && CanRun(t, events) && HonestRun(t, events)
      && exists r, other :: r != other && {r, other} <= After(t, events).reservations.Keys - After(t, events).answered
  {
    var offer := Offer("offer", None, 1, 1);
    var q := Quote("offer", 1, "", Some(Money(0, "")), Some(Money(0, "")), 1, 1, None);
    var t := Next(s, ReservationAnswered(Refused));
    var key := FreshKey(s.minted);
    events := ServeAndClose(s);
    var chosen := ChooseOne(After(t, events), offer);
    RunsCompose(t, events, chosen);
    events := events + chosen;
    var bought := BuyOnce(After(t, events), offer, q, key);
    RunsCompose(t, events, bought);
    events := events + bought;
    NoRefusalsIsHonest(t, events);
    assert s.flow.reference in s.minted && key !in s.answered && s.flow.reference !in s.answered;
    assert {s.flow.reference, key} <= After(t, events).reservations.Keys - After(t, events).answered;
  }

  /** The page is idle, has no key and nothing to resume. */
  predicate AtRest(s: State) {
    s.flow.Idle? && !s.page.submitting && !Resumable(s.page) && s.page.attempt.NoAttempt?
  }

  predicate SameServer(s: State, t: State) {
    t.minted == s.minted && t.sent == s.sent && t.rejected == s.rejected && t.answered == s.answered
  }

  lemma ServeAndClose(s: State) returns (events: seq<Event>)
    requires Inv(s) && s.flow.AwaitingReservation? && s.flow.reference !in s.rejected
    ensures
      var t := Next(s, ReservationAnswered(Refused));
      && CanRun(t, events) && NoRefusals(events)
      && var u := After(t, events);
         AtRest(u) && SameServer(s, u) && u.reservations.Keys == s.reservations.Keys + {s.flow.reference}
  {
    var t := Next(s, ReservationAnswered(Refused));
    events := [];
    if s.flow.reference !in s.reservations {
      ThenOne(t, [], ReservationMade(s.flow.reference));
      events := [] + [ReservationMade(s.flow.reference)];
    }
    ThenOne(t, events, FlowClosed(false));
    events := events + [FlowClosed(false)];
  }

  lemma ChooseOne(s: State, offer: Offer) returns (events: seq<Event>)
    requires AtRest(s)
    ensures CanRun(s, events) && NoRefusals(events)
    ensures
      var t := After(s, events);
      && AtRest(t) && SameServer(s, t) && t.reservations == s.reservations
      && t.page.selectedOffer == Some(offer) && t.page.quantity == Some(1.0) && t.page.quote.None?
  {
    hide Next, AtRest, SameServer;
    SelectAtRest(s, offer);
    ThenOne(s, [], OfferSelected(offer));
    events := [] + [OfferSelected(offer)];
    TypeAtRest(After(s, events));
    ThenOne(s, events, QuantityTyped(Some(1.0)));
    events := events + [QuantityTyped(Some(1.0))];
    SameServerChains(s, Next(s, OfferSelected(offer)), After(s, events));
  }

  lemma SelectAtRest(s: State, offer: Offer)
    requires AtRest(s)
    ensures
      var t := Next(s, OfferSelected(offer));
      AtRest(t) && SameServer(s, t) && t.reservations == s.reservations && t.page.selectedOffer == Some(offer)
  {
  }

  lemma TypeAtRest(s: State)
    requires AtRest(s)
    ensures
      var t := Next(s, QuantityTyped(Some(1.0)));
      && AtRest(t) && SameServer(s, t) && t.reservations == s.reservations
      && t.page.selectedOffer == s.page.selectedOffer && t.page.quantity == Some(1.0)
      && (s.page.selectedOffer.Some? ==> t.page.quote.None?)
  {
  }

  lemma SameServerChains(s: State, t: State, u: State)
    requires SameServer(s, t) && SameServer(t, u)
    ensures SameServer(s, u)
  {
  }

  /** A purchase that is committed and yet refused, after which the page is idle without a key. */
  lemma BuyAndBeRefused(s: State, offer: Offer, q: Quote, key: Reference) returns (events: seq<Event>)
    requires Buyable(s, offer, q, key)
    ensures CanRun(s, events)
    ensures
      var t := After(s, events);
      && t.flow.Idle? && !t.page.submitting && t.page.attempt.NoAttempt?
      && t.page.selectedOffer == Some(offer) && t.page.quantity == s.page.quantity && t.page.quote == Some(q)
      && t.page.pendingCheckout == s.page.pendingCheckout
      && t.minted == s.minted + {key} && t.sent == s.sent[key := Fingerprint(offer.id, 1)]
      && t.reservations == s.reservations[key := Fingerprint(offer.id, 1)]
      && t.rejected == s.rejected && t.answered == s.answered
  {
    events := BuyOnce(s, offer, q, key);
    ThenOne(s, events, ReservationAnswered(Refused));
    events := events + [ReservationAnswered(Refused)];
    ThenOne(s, events, FlowClosed(false));
    events := events + [FlowClosed(false)];
  }

  /** Without an honest server the page reserves twice: the first reservation was made, its request
      was refused with a 4xx status (say, because the session could not be renewed), and the next
      submission of the same purchase went out under a new key. */
  lemma DishonestRefusalReservesTwice(offer: Offer, q: Quote) returns (events: seq<Event>)
    requires offer.maxPerReservation >= 1 && offer.availableQuantity >= 1
    requires Usable(QuoteRequest(1, offer, 1), q) && q.expiresAt.None?
    ensures Init(OPENED) && CanRun(OPENED, events)
    ensures
      var t := After(OPENED, events);
      && t.reservations == map[0 := Fingerprint(offer.id, 1), 1 := Fingerprint(offer.id, 1)]
      && t.answered == {}
  {
    ThenOne(OPENED, [], OfferSelected(offer));
    events := [] + [OfferSelected(offer)];
    var first := BuyAndBeRefused(After(OPENED, events), offer, q, 0);
    RunsCompose(OPENED, events, first);
    events := events + first;
    var second := BuyOnce(After(OPENED, events), offer, q, 1);
    RunsCompose(OPENED, events, second);
    events := events + second;
  }

  lemma {:induction false} RunsCompose(s: State, first: seq<Event>, second: seq<Event>)
    requires CanRun(s, first) && CanRun(After(s, first), second)
    ensures CanRun(s, first + second) && After(s, first + second) == After(After(s, first), second)
    decreases |first|
  {
    if first == [] {
      assert first + second == second;
    } else {
      RunsCompose(Next(s, first[0]), first[1..], second);
      assert (first + second)[1..] == first[1..] + second;
    }
  }
}

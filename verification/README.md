# Verified models of the platform's browser-side protocols

The pages of this platform are single-threaded programs whose steps run between waits for the
network. Which step comes next is up to the network and to the user. These Dafny modules model the
steps as they are written, let an adversary choose their order and the outcome of every request, and
prove what holds in every run. The pure rules beside them (attribution, sanitising, ranking) are
proved against independent descriptions of what they should do.

| module | what it models |
|---|---|
| `ReferralPage`, `ReferralProtocol`, `ReferralGuarantees`, `ReferralFields` | the referral list of the CRM: overlapping mutations and list reads, pending keys, recovery, lead fields; the server's log of mutations is the version that lists are measured by |
| `TicketingPage`, `TicketingProtocol`, `TicketingGuarantees`, `TicketingRules` | a ticket purchase: the quote, the retry key in session storage and the pending checkout, over a network that loses answers, and over reloads |
| `BusinessContext`, `Dashboard` | the current business, its generations and abort signals, and a dashboard with any number of loads and writes under way while the user switches |
| `RenderGuard`, `RenderContent` | the control center's view functions and handlers as segments between waits, and the guards that make the newest render win |
| `TourSelection` | the tour selector: choices that overtake each other and a queue that runs them one at a time |
| `PaymentPolling` | the bounded wait for the confirmation of a payment, and the authority headers of a checkout |
| `Attribution` | which affiliate attribution is held after a run of offers |
| `TextSanitizer`, `SessionSanitizer`, `SessionContents`, `SessionSettling`, `SessionStore` | what is kept of an onboarding session, and that saving and restoring it settles |
| `Candidates` | deduplication, ranking and cutting of location candidates |
| `Options`, `Whitespace` | values that may be missing; white space |

Each page is a class whose methods follow its handlers between two waits. A method's contract names
the function of the old page that the new page is, the protocol modules run those functions, and what
they compute is stated once more on the fields alone.

## What turned out to be conditional

Some properties fail in corners of the code. For each there is a concrete failing input and the exact
condition under which the property holds.

- A referral list that names a referral twice leaves an enabled button with a pending key
  (`TwiceListedReferralKeepsAFreeButton`); controls are exact if and only if the keys on screen differ
  (`PressKeepsExactIff`, `DistinctReferralsDistinctKeys`).
- A retry key is given up on every 4xx answer. If the server may carry out a request and yet answer it
  with one, the same purchase is reserved twice (`DishonestRefusalReservesTwice`). In every state, whether
  a refusal can lead to two unknown reservations depends exactly on whether the server has ruled out
  serving the refused request (`RefusalReservesTwiceIff`).
- A quote may stay on screen over a quantity field that holds nothing that can be bought
  (`QuoteOverUnusableField`); it always matches a field that does (`ShownQuoteMatches`). No reservation
  rests on it, because a submission asks for a new quote.
- Switching business does not reset the catalogue's edit forms, so an entry can be saved under another
  business (`EntrySavedToAnotherBusiness`); a switch makes that possible exactly if a form holds an entry
  (`SwitchLetsEntriesStrayIff`).
- Disposing of a business context is not final (`SwitchedAfterDisposal`): it lasts exactly until a switch
  takes effect that no further disposal follows (`DisposeIsNotFinal`).
- The text sanitiser is not idempotent, since it cuts after trimming (`OnePassIsNotEnough`,
  `SecondPassChangesAContext`), so the session it keeps settles on the second pass. One pass is enough for
  a text, a value or a context exactly if nothing kept of it is cut after a blank (`TwoPassesSettle`,
  `OnePassSettlesIff`, `ContextSettlesInOneIff`).
- The ranking comparator runs in circles (`ThreeInACircle`), and lists of different places have no sorted
  arrangement, exactly where its tolerance is not transitive (`OrderedIff`, `ArrangeableIff`).
- A lead field whose text is not written as the page writes the number counts as edited after its link
  was confirmed and does not follow the server (`PaddedLeadStays`; `LinkedFieldRun` and
  `LinkedFieldFollowsServer` say exactly when it follows).
- Two records of different providers are taken for one place if a colon in a provider's name makes their
  keys equal (`ColonJoinsTwoRecords`), and not otherwise (`SamePlaceIff`).
- A lock does not keep an attribution over a choice at an invalid time (`LockedYetDropped`; `LockFreezesIff`
  says exactly when it does).
- The control center's newest render owns the content only while every segment of its views that follows
  a wait looks at its guard in time, as those of the users' view do; without one of their checks a newer
  view can be overwritten (`UsersOwnTheirScreen`; `NewestRenderOwnsTheScreenIff` says exactly when).

## Model

| member | source | states |
|---|---|---|
| `ReferralGuarantees.NoLostRefresh` | apps/admin-crm/public/referrals.js:31-40 | in every run from the opening of the page, once start-up is over and the page is not being left, a list that needs a refresh has a current read under way or an enabled recovery button |
| `ReferralGuarantees.ScreenReflectsConfirmations` | apps/admin-crm/public/referrals.js:179-215 | in every run, a list not marked for refresh is on screen and shows every mutation confirmed so far |
| `ReferralGuarantees.EveryRenderIsFresh` | apps/admin-crm/public/referrals.js:179-206 | in every run, a list body reaches the screen only from the current read, and then its version holds every confirmed mutation, and every lead field has the listed lead as its baseline and shows it, unless the last field of that referral was edited or its link is under way and unconfirmed |
| `ReferralFields.UntouchedFieldShowsTheListedLead` | apps/admin-crm/public/referrals.js:112-177 | over every run a lead field that nobody typed into, of a referral that nobody linked, shows the lead that the list on screen names, whatever other mutations do |
| `ReferralPage.RenderedFieldsFollow` | apps/admin-crm/public/referrals.js:112-177 | rendering any list on any page: every field has the listed lead as its baseline, and shows it unless the last old field of that referral was edited or belongs to an unconfirmed link under way, whose text stays |
| `ReferralPage.RenderedActions` | apps/admin-crm/public/referrals.js:90-140 | a rendered list offers a link button exactly for each listed referral, and an action exactly where the status of one allows it |
| `ReferralPage.MessagesStandInTheirPlace` | apps/admin-crm/public/referrals.js:31-40 | a mutation begun owns the message place of the create form or of the list, by what it is about |
| `ReferralPage.ResultsStandInTheirPlace` | apps/admin-crm/public/referrals.js:42-44 | a result is shown in that place exactly if its mutation is the last one begun there |
| `ReferralGuarantees.ControlsFollowKeys` | apps/admin-crm/public/referrals.js:46-58 | in every run a disabled button has a pending key; where no two buttons share a key the converse holds too; the create button is disabled exactly while a creation is pending |
| `ReferralGuarantees.KeysFreedOnlyByTheirOwn` | apps/admin-crm/public/referrals.js:46-58 | in every run and for every next event, a pending key stays with its mutation unless its own request failed, its own creation's read settled, or a list that shows it was rendered: an older operation never releases a newer one |
| `ReferralGuarantees.PendingKeysHaveAWayOut` | apps/admin-crm/public/referrals.js:192-215 | in every run a pending key waits for its own request, or belongs to a confirmed mutation while the list needs a refresh |
| `ReferralGuarantees.ListCanBeRefreshed` | apps/admin-crm/public/referrals.js:60-77 | from every reachable state in which the page is not being left for the login page, at most four events bring a list on screen that shows every confirmed mutation and free the keys of all of them |
| `ReferralGuarantees.ReadCanBeStarted` | apps/admin-crm/public/referrals.js:60-77 | while the list needs a refresh and the page is not being left, a current read is under way or at most two events start one, through the recovery button and, after a session failure, the session check |
| `ReferralGuarantees.EveryControlCanBeFreed` | apps/admin-crm/public/referrals.js:46-58 | from every reachable state in which the page is not being left, some continuation leaves no key pending and no button disabled: no control is locked for ever |
| `ReferralGuarantees.DistinctReferralsDistinctKeys` | apps/admin-crm/public/referrals.js:79-140 | the buttons of a rendered list have distinct keys if and only if the list names no referral twice |
| `ReferralGuarantees.PressKeepsExactIff` | apps/admin-crm/public/referrals.js:265-268 | pressing a button keeps "disabled exactly while its key is pending" if and only if no other button has the same key |
| `ReferralGuarantees.TwiceListedReferralKeepsAFreeButton` | apps/admin-crm/public/referrals.js:142-177 | a concrete run: a list that names a referral twice leaves one of its link buttons enabled while its key is pending |
| `ReferralGuarantees.LinkedFieldFollowsServer` | apps/admin-crm/public/referrals.js:325-333 | after a confirmed link the next list decides a field that still holds the linked number, and any other text in it is kept |
| `ReferralGuarantees.LinkedFieldRun` | apps/admin-crm/public/referrals.js:290-340 | for every text that reads as 7, typed and linked, and every text that the field is changed to while the request is under way: when the next list names lead 8 the field shows it if and only if its text was then "7" |
| `ReferralGuarantees.PaddedLeadStays` | apps/admin-crm/public/referrals.js:290-340 | a concrete run: "007" is typed, linked as 7, and stays in the field when the list names lead 8 |
| `ReferralGuarantees.EditedFieldSurvives` | apps/admin-crm/public/referrals.js:142-177 | an edited field keeps its text over every run in which its referral stays listed without that text and no link to that text is confirmed |
| `ReferralGuarantees.MessagesBelongToTheLatest` | apps/admin-crm/public/referrals.js:42-44 | in every run a message shown about a mutation is by the last mutation begun on its place |
| `ReferralGuarantees.Reachable` | apps/admin-crm/public/referrals.js:20-29 | the invariant of the protocol holds after every run from the opening of the page |
| `ReferralProtocol.StepKeeps` | apps/admin-crm/public/referrals.js:31-288 | every event, in every state of the invariant, keeps it: reads are numbered, keys are held for a reason, buttons follow keys, a refresh is under way or on offer, lists are fresh, messages are owned |
| `ReferralProtocol.CurrentReadReflects` | apps/admin-crm/public/referrals.js:179-195 | the body of a current read shows every confirmed mutation, since beginning or confirming one makes older reads stale |
| `ReferralProtocol.RenderedButtonsExact` | apps/admin-crm/public/referrals.js:79-88 | a rendered button is disabled exactly while its key is pending, for every list and every set of pending keys |
| `ReferralPage.ReferralList.Begin` | apps/admin-crm/public/referrals.js:31-40 | refuses a pending key without a trace; otherwise takes the key and the message place, overtakes every read and offers recovery when a refresh was due |
| `ReferralPage.ReferralList.CreateReferral` | apps/admin-crm/public/referrals.js:230-237 | the page after the create form was submitted, a second submission included |
| `ReferralPage.ReferralList.PressButton` | apps/admin-crm/public/referrals.js:265-269 | the page after a list button was pressed |
| `ReferralPage.ReferralList.SetField` | apps/admin-crm/public/referrals.js:112-140 | typing into a lead field changes its text and not its baseline |
| `ReferralPage.ReferralList.RefuseForm` | apps/admin-crm/public/referrals.js:222-228 | a form sent back shows a message that is about no mutation |
| `ReferralPage.ReferralList.EnableButtons` | apps/admin-crm/public/referrals.js:54-57 | the loop that enables every listed button of a key and no other |
| `ReferralPage.ReferralList.Release` | apps/admin-crm/public/referrals.js:46-58 | releases a key only for the operation that holds it, and enables its buttons only once nobody holds it |
| `ReferralPage.ReferralList.Fail` | apps/admin-crm/public/referrals.js:283-287 | a failed mutation: its message if it still owns the place, then its release |
| `ReferralPage.ReferralList.Rebase` | apps/admin-crm/public/referrals.js:325-333 | the loop that gives every field of a linked referral its new baseline and leaves its text |
| `ReferralPage.ReferralList.Confirm` | apps/admin-crm/public/referrals.js:208-215 | a confirmed mutation: the page up to the read that it issues, with that read's generation |
| `ReferralPage.ReferralList.Load` | apps/admin-crm/public/referrals.js:179-184 | a read is issued: it is the newest and the list needs a refresh |
| `ReferralPage.ReferralList.Respond` | apps/admin-crm/public/referrals.js:186-189 | a response that was overtaken changes nothing; a failed one offers recovery; another goes on to its body |
| `ReferralPage.ReferralList.ReadDrafts` | apps/admin-crm/public/referrals.js:143-151 | the drafts of the listed fields, the last field of a referral counting |
| `ReferralPage.ReferralList.LinkLeadForm` | apps/admin-crm/public/referrals.js:112-140 | a listed item's field has the listed lead as its baseline, and as its text unless the old field differs from its own baseline or its link is under way and unconfirmed |
| `ReferralPage.ReferralList.RenderItems` | apps/admin-crm/public/referrals.js:142-177 | the loop over the items builds all fields from the old drafts and all buttons from the pending keys |
| `ReferralPage.ReferralList.FreeConfirmed` | apps/admin-crm/public/referrals.js:193-197 | the loop over the pending keys frees exactly those of confirmed mutations, whatever the order |
| `ReferralPage.ReferralList.Decode` | apps/admin-crm/public/referrals.js:189-205 | a body that was overtaken changes nothing; a malformed one offers recovery; a list is rendered and ends the refresh, unless rendering it breaks off |
| `ReferralPage.ReferralList.ClickRetry` | apps/admin-crm/public/referrals.js:68-72 | the recovery button checks the session after a session failure and issues a read otherwise |
| `ReferralFields.RecoveryGoesOn` | apps/admin-crm/public/referrals.js:60-77 | recovering reads again, or after a session failure checks the session first, which leads to a read, to the login page, or back to the button |
| `ReferralFields.RejectedFormSpeaksForNobody` | apps/admin-crm/public/referrals.js:217-228 | a form sent back takes the author away from its message and changes nothing else |
| `TicketingGuarantees.KeyKeptUntilAnswered` | apps/morro-digital-platform/public/ticketing.js:1312-1343 | the stored retry key is given up only when its own reservation is answered well-formed or refused with a 4xx status |
| `TicketingGuarantees.AtMostOneUnknownReservation` | apps/morro-digital-platform/public/ticketing.js:1064-1094 | over every run of lost answers, retries and reloads against a server that refuses only what it will never reserve, every key but the stored one is settled and at most one reservation is unknown to the page |
| `TicketingGuarantees.KeyStandsForOnePurchase` | apps/morro-digital-platform/public/ticketing.js:1064-1083 | over every run a key that was sent is never sent for another offer or quantity, and its reservation is for those |
| `TicketingGuarantees.RefusalReservesTwiceIff` | apps/morro-digital-platform/public/ticketing.js:1340-1343 | in every state that waits for a reservation: after a refusal some continuation, in which every later refusal is honest, reaches two reservations that the page does not know of, if and only if the server has not ruled out serving the refused request |
| `TicketingGuarantees.ReserveAgain` | apps/morro-digital-platform/public/ticketing.js:1287-1353 | that continuation: the refused request is served, an offer is chosen again, and the purchase goes out under a new key and is served too |
| `TicketingGuarantees.DishonestRefusalReservesTwice` | apps/morro-digital-platform/public/ticketing.js:1340-1343 | a concrete run: a refusal of a request that was carried out makes the page reserve the same purchase twice |
| `TicketingGuarantees.QuoteFromLatestRequest` | apps/morro-digital-platform/public/ticketing.js:306-349 | the quote shown is only ever taken from the latest request, for the selected offer, and well-formed for it |
| `TicketingGuarantees.ShownQuoteMatches` | apps/morro-digital-platform/public/ticketing.js:306-378 | in every run the quote shown is for the selected offer, and for the quantity in the field whenever the field holds one that can be bought |
| `TicketingGuarantees.SteppedQuantityStaysInBounds` | apps/morro-digital-platform/public/ticketing.js:1396-1411 | stepping leaves a quantity between one and the maximum of the field, exactly one step away where that is possible, and a whole one whole |
| `TicketingGuarantees.QuoteOverUnusableField` | apps/morro-digital-platform/public/ticketing.js:309-315 | a concrete run: a quote arrives and stays although the field holds nothing that can be bought, because an unusable quantity does not overtake the request |
| `TicketingGuarantees.ReservationsRestOnQuotes` | apps/morro-digital-platform/public/ticketing.js:1292-1324 | in every run each reservation sent is for the offer and the quantity of a new quote, which agrees in offer, quantity, version, total amount and currency with the quote shown when the user submitted, if one was shown |
| `TicketingGuarantees.BookedIff` | apps/morro-digital-platform/public/ticketing.js:1292-1311 | a submission is booked if and only if its new quote answers the latest request for the selected offer, has not expired, agrees with the quote shown in offer, quantity, version, total and currency, and no stored key belongs to another purchase |
| `TicketingGuarantees.SamePriceIff` | apps/morro-digital-platform/public/ticketing.js:277-286 | the remembered price equals that of a quote exactly if the quote shown agrees with it in offer, quantity, version, total amount and currency |
| `TicketingGuarantees.QuoteTakenIff` | apps/morro-digital-platform/public/ticketing.js:327-377 | an answered quote request leaves the page with that quote exactly if it is one for the latest request, the selected offer and one currency; otherwise without a quote, or alone if it was overtaken |
| `TicketingRules.SubmissionStarts` | apps/morro-digital-platform/public/ticketing.js:1239-1293 | what a submission does first, in every state: nothing, resume the stored checkout, or ask for a quote and remember the one shown |
| `TicketingRules.BookingKey` | apps/morro-digital-platform/public/ticketing.js:1064-1090 | a booking goes out under the stored key or else the new one, for the offer and quantity submitted, and that key is stored with them |
| `TicketingRules.ReservationEnds` | apps/morro-digital-platform/public/ticketing.js:1312-1353 | what each answer to a reservation leaves of the key, the record and the checkout to send |
| `TicketingRules.CheckoutEnds` | apps/morro-digital-platform/public/ticketing.js:1174-1217 | what each answer to a checkout leaves of the record and the key |
| `TicketingRules.SelectingAsksIff` | apps/morro-digital-platform/public/ticketing.js:568-590 | selecting an offer bounds the field by what one reservation may hold and what is left, and asks exactly if the field then holds a quantity that can be bought |
| `TicketingRules.TypingAsksIff` | apps/morro-digital-platform/public/ticketing.js:1414-1418 | typing asks for a price exactly if an offer is selected and what was typed can be bought |
| `TicketingGuarantees.ReservationSentWithItsQuote` | apps/morro-digital-platform/public/ticketing.js:1292-1324 | a reservation goes out only on the answer to a submission's quote, unexpired, and with the offer and quantity submitted |
| `TicketingGuarantees.PendingCheckoutIsResumed` | apps/morro-digital-platform/public/ticketing.js:1243-1262 | while a valid pending checkout is stored no key is minted and no reservation requested; the only checkout sent is the stored one, and only a well-formed answer to it removes it |
| `TicketingGuarantees.PendingCheckoutKeptUntilOpened` | apps/morro-digital-platform/public/ticketing.js:1174-1217 | over every run without a well-formed checkout answer the pending record stays, and every checkout request repeats its hand-off and idempotency key |
| `TicketingGuarantees.PurchasesAreSafe` | apps/morro-digital-platform/public/ticketing.js:1239-1354 | over every honest run from a first page: at most one reservation unknown, each for the purchase its key was sent for, and each purchase on a new quote with the offer, quantity, version, total and currency of the quote shown at submission, if one was shown |
| `TicketingGuarantees.EveryRunStartsInOrder` | apps/morro-digital-platform/public/ticketing.js:306-378 | the invariant of the purchase protocol holds after every run from a first page |
| `TicketingProtocol.StepKeeps` | apps/morro-digital-platform/public/ticketing.js:1239-1354 | every event keeps the invariant: quotes ask what is shown, keys and reservations agree, the one submission under way agrees with the page, purchases rest on quotes |
| `TicketingProtocol.StepKeepsOneKey` | apps/morro-digital-platform/public/ticketing.js:1064-1094 | every event but a dishonest refusal keeps all keys but the stored one settled |
| `TicketingProtocol.QuietKeepsKeys` | apps/morro-digital-platform/public/ticketing.js:568-596 | choosing, editing, asking for quotes, submitting and reloading touch neither the keys nor the pending checkout |
| `TicketingPage.Ticketing.Refresh` | apps/morro-digital-platform/public/ticketing.js:306-321 | asking for a quote drops the one held; an unusable quantity asks for none |
| `TicketingPage.Ticketing.Arrive` | apps/morro-digital-platform/public/ticketing.js:327-377 | a quote answer is taken, dropped or ignored, by the request's number, the selected offer and the quote's own fields |
| `TicketingPage.Ticketing.Select` | apps/morro-digital-platform/public/ticketing.js:568-590 | selecting an offer drops the quote, bounds the quantity and asks for the price of what is then in the field, exactly if that can be bought |
| `TicketingPage.Ticketing.Step` | apps/morro-digital-platform/public/ticketing.js:1396-1411 | stepping the quantity clamps it and asks for the price of the new quantity |
| `TicketingPage.Ticketing.Input` | apps/morro-digital-platform/public/ticketing.js:1414-1418 | typing a quantity drops the quote and asks for the price of what was typed, exactly if that can be bought |
| `TicketingPage.Ticketing.DropOffers` | apps/morro-digital-platform/public/ticketing.js:824-829 | without offers neither an offer nor a quote is held |
| `TicketingPage.Ticketing.Refuse` | apps/morro-digital-platform/public/ticketing.js:1341-1343 | a 4xx status gives up the retry key and nothing else |
| `TicketingPage.Ticketing.End` | apps/morro-digital-platform/public/ticketing.js:1340-1353 | the end of a submission, which another can follow |
| `TicketingPage.Ticketing.ReferenceFor` | apps/morro-digital-platform/public/ticketing.js:1064-1090 | the stored key is reused for the same purchase, stands in the way of another, and a new one is stored where there is none |
| `TicketingPage.Ticketing.BeginSubmit` | apps/morro-digital-platform/public/ticketing.js:1239-1293 | a submission is ignored, resumes the stored checkout, or asks for a new quote |
| `TicketingPage.Ticketing.ContinueSubmit` | apps/morro-digital-platform/public/ticketing.js:1294-1311 | a submission goes on only with a new, unexpired quote at the price held, and with a key; `BookedIff` says on the fields of both quotes when that is |
| `TicketingPage.Ticketing.Reserve` | apps/morro-digital-platform/public/ticketing.js:1325-1339 | an answered reservation gives up its key and stores its checkout before that is sent |
| `TicketingPage.Ticketing.OpenCheckout` | apps/morro-digital-platform/public/ticketing.js:1199-1217 | a well-formed checkout answer replaces the pending record |
| `BusinessContext.ScopesAreTheIds` | apps/morro-digital-platform/src/morro-pro-business-management.ts:229-237 | the scopes are exactly the ids of the session that are not blank, without repeats |
| `BusinessContext.FirstScope` | apps/morro-digital-platform/src/morro-pro-business-management.ts:229-255 | the first scope, on which a context opens by default, is the first id that is not blank |
| `BusinessContext.ResolvesToAScope` | apps/morro-digital-platform/src/morro-pro-business-management.ts:239-256 | a context is resolved exactly for business roles with the scope asked for, or with any scope if none was asked for, then to the first id that is not blank; and which error otherwise |
| `BusinessContext.CurrentIsTheLastSwitch` | apps/morro-digital-platform/src/morro-pro-business-management.ts:275-305 | over every history the current business is the one last switched to with effect, and without such a switch business and generation stay |
| `BusinessContext.CurrentUntilAborted` | apps/morro-digital-platform/src/morro-pro-business-management.ts:275-319 | over every history of requests, switches and disposals each request ever issued is current exactly while its signal has not fired, never becomes current again, and the current business is in scope |
| `BusinessContext.CurrentUntilAbortedFromStart` | apps/morro-digital-platform/src/morro-pro-business-management.ts:275-319 | the same from a new controller |
| `BusinessContext.DisposeIsNotFinal` | apps/morro-digital-platform/src/morro-pro-business-management.ts:295-318 | after a disposal and any further history: the requests issued before it stay dead, and requests issued at the end are current if and only if some switch took effect after the last disposal |
| `BusinessContext.NewRequestsAreCurrentIff` | apps/morro-digital-platform/src/morro-pro-business-management.ts:295-318 | the same of any history, disposed of or not |
| `BusinessContext.SwitchedAfterDisposal` | apps/morro-digital-platform/src/morro-pro-business-management.ts:295-318 | a concrete history: a controller that was disposed of issues current requests again after a switch |
| `BusinessContext.BusinessContextController.constructor` | apps/morro-digital-platform/src/morro-pro-business-management.ts:275-282 | a new controller is at generation nought with a signal that has not fired |
| `BusinessContext.BusinessContextController.NextRequest` | apps/morro-digital-platform/src/morro-pro-business-management.ts:284-290 | a request carries the current business, the generation and the current signal |
| `BusinessContext.BusinessContextController.Switch` | apps/morro-digital-platform/src/morro-pro-business-management.ts:295-305 | a switch to a scope fires the old signal only, starts a new generation and issues a request; any other is refused without a trace |
| `BusinessContext.BusinessContextController.Current` | apps/morro-digital-platform/src/morro-pro-business-management.ts:307-315 | the check a caller makes is currency of the request's business and generation with an unfired signal |
| `BusinessContext.BusinessContextController.SignalTells` | apps/morro-digital-platform/src/morro-pro-business-management.ts:284-315 | a request of the controller is current exactly while the signal it carries has not fired |
| `BusinessContext.BusinessContextController.DisposeAll` | apps/morro-digital-platform/src/morro-pro-business-management.ts:316-318 | disposal fires the current signal and changes nothing else |
| `Dashboard.NoBusinessSeesAnother` | apps/morro-digital-platform/src/business-dashboard-surface.ts:1703-1757 | in every interleaving of switches, loads and saves, going back to a business included, each panel is empty or shows data of the current business requested since it became current; each write goes to the business that was current when it was submitted, and what it takes from a shown profile, location, candidate or photo list is of that business |
| `Dashboard.RunKeeps` | apps/morro-digital-platform/src/business-dashboard-surface.ts:1011-1130 | the invariant behind that holds over every run of the dashboard |
| `Dashboard.SwitchLetsEntriesStrayIff` | apps/morro-digital-platform/src/business-dashboard-surface.ts:1703-1757 | after a switch to another business some continuation, in which no further switch leaves an entry in a form, saves an entry to a business that it did not come from, if and only if a form held one at the switch |
| `Dashboard.CanStrayIff` | apps/morro-digital-platform/src/business-dashboard-surface.ts:1323-1448 | in every state such a continuation exists if and only if a form holds an entry of another business |
| `Dashboard.NoEntryStrays` | apps/morro-digital-platform/src/business-dashboard-surface.ts:1323-1448 | over every run that begins with the forms at home and leaves no entry in a form when it switches, every entry is saved to the business it came from |
| `Dashboard.EditsStayHome` | apps/morro-digital-platform/src/business-dashboard-surface.ts:1323-1448 | nothing but such a switch sends an edit form away from home, and from home an entry is saved to the business it came from |
| `Dashboard.EntrySavedToAnotherBusiness` | apps/morro-digital-platform/src/business-dashboard-surface.ts:1323-1448 | a concrete run: an entry taken into its form under one business is saved to the next |
| `Dashboard.Move` | apps/morro-digital-platform/src/business-dashboard-surface.ts:1290-1302 | moving a photo swaps it with its neighbour and keeps every photo, and is refused exactly at the end of the list or for an unknown photo |
| `Dashboard.IndexOf` | apps/morro-digital-platform/src/business-dashboard-surface.ts:1296-1299 | the first place of an id, or the length of the list |
| `Dashboard.DashboardSurface.SelectBusiness` | apps/morro-digital-platform/src/business-dashboard-surface.ts:1703-1732 | a switch takes the new context and clears every panel at once |
| `Dashboard.DashboardSurface.Answer` | apps/morro-digital-platform/src/business-dashboard-surface.ts:1500-1522 | an answer fills its panel only while its request is current; `AnswerShows` says what each panel shows then |
| `Dashboard.AnswerShows` | apps/morro-digital-platform/src/business-dashboard-surface.ts:1011-1130 | a call that is no longer current changes nothing shown; a current one puts exactly its data in its panel, a confirmed candidate empties the candidates, a load after a saved entry empties its form, and everything else stays |
| `Dashboard.PanelsShowTheLastAnswers` | apps/morro-digital-platform/src/business-dashboard-surface.ts:1011-1130 | over every run a panel shows the data of the last current answer that filled it if that was requested since the last switch, and is empty otherwise |
| `Dashboard.AnswerGoesOn` | apps/morro-digital-platform/src/business-dashboard-surface.ts:1089-1312 | a prepared upload goes on to change the media of its own business; only a current change of the media or of an entry loads the panel again |
| `Dashboard.SwitchShows` | apps/morro-digital-platform/src/business-dashboard-surface.ts:1703-1732 | a switch to a scope empties every panel and leaves the forms; any other choice changes nothing |
| `Dashboard.SubmissionIsRecorded` | apps/morro-digital-platform/src/business-dashboard-surface.ts:1089-1112 | a write goes to the current business, with the business of what it rests on: the panel it changes or the entry in its form |
| `Dashboard.DashboardSurface.ResetEdit` | apps/morro-digital-platform/src/business-dashboard-surface.ts:1443-1447 | resetting an edit form empties it and no other |
| `Dashboard.SwapKeepsAll` | apps/morro-digital-platform/src/business-dashboard-surface.ts:1296-1300 | swapping two photos exchanges those two, loses none and leaves the others |
| `Dashboard.DashboardSurface.EditEntry` | apps/morro-digital-platform/src/business-dashboard-surface.ts:1323-1448 | taking an entry into its form remembers the business whose catalogue is shown |
| `RenderGuard.NewestRenderOwnsTheScreenIff` | apps/control-center/public/control-center.js:516-521 | for all view functions and handlers, each a set of paths of segments between waits: the content is of the newest render in every interleaving of navigations, controls and answers if and only if every segment that follows a wait looks at its guard before it writes, and before it takes a new guard that anything is written under |
| `RenderGuard.NewestRenderOwnsTheScreen` | apps/control-center/public/control-center.js:4430-4472 | under that discipline every run shows content of the view navigated to last, written by the current generation, and marks it as rendered only when not busy |
| `RenderContent.ContentIsToldByTheEvents` | apps/control-center/public/control-center.js:4430-4472 | over every run of disciplined views the content is what its events say: loading from a navigation on, the module once a segment that writes has run under a current guard, an error exactly when the newest render ends in one |
| `RenderContent.RenderedViewShowsItsModule` | apps/control-center/public/control-center.js:4430-4472 | after every run, a view whose path writes and whose waits are all answered shows its module as soon as the screen is not busy, whatever else goes on until the next navigation |
| `RenderContent.NewestRenderEnds` | apps/control-center/public/control-center.js:4465-4471 | the newest render stays busy exactly while it waits again, and marks its view when it ends |
| `RenderContent.StepWrites` | apps/control-center/public/control-center.js:539-640 | what each event makes of the content |
| `RenderGuard.StaleWrite` | apps/control-center/public/control-center.js:516-521 | for every path without that discipline, a run in which it writes over a newer view |
| `RenderGuard.UsersOwnTheirScreen` | apps/control-center/public/control-center.js:539-987 | the users' view and the handler that blocks a user have the discipline; without the check after the blocking request, which itself precedes no write of its own segment, they would not own their screen |
| `RenderGuard.LatestNavigationWins` | apps/control-center/public/control-center.js:4430-4472 | whatever the views do, when nothing is under way any more the screen is not busy and says that it shows the view navigated to last |
| `RenderGuard.BusyEndedByNewest` | apps/control-center/public/control-center.js:4465-4471 | only the newest render ends the busy state, and it then marks its view as rendered |
| `RenderGuard.RunKeepsTasks` | apps/control-center/public/control-center.js:4430-4472 | over every run tasks are of renders that were begun, and the view is the last one navigated to |
| `RenderGuard.ControlCenter.Render` | apps/control-center/public/control-center.js:4430-4438 | starting a render overtakes every other and clears the screen for its view |
| `RenderGuard.ControlCenter.Continue` | apps/control-center/public/control-center.js:539-640 | what one segment of a view function or handler does once its wait has ended, and what is left of it; `RenderContent.StepWrites` says what the content is then |
| `RenderGuard.ControlCenter.Fail` | apps/control-center/public/control-center.js:4458-4464 | an error of a render that is still current is shown in the content; one of a handler is not |
| `RenderGuard.ControlCenter.Conclude` | apps/control-center/public/control-center.js:4465-4471 | a render that is still current ends the busy state and marks its view as rendered |
| `TourSelection.OneBodyAtATime` | apps/morro-digital-platform/src/browser-entry.ts:1077-1142 | in every run at most one selection body is under way, requests settle in order, and the selector is disabled exactly while the newest request is unsettled |
| `TourSelection.PublishedInOrderOfChoice` | apps/morro-digital-platform/src/browser-entry.ts:1080-1136 | in every run each publication of a tour or an error is by the generation that is the newest at that moment, so a request overtaken by a newer one or by a reset publishes nothing, and none publishes twice |
| `TourSelection.OnlyTheNewestPublishes` | apps/morro-digital-platform/src/browser-entry.ts:1107-1136 | the tour and its state change, other than by a new choice, only by the newest request and on record: with the tour the controller selected for it, or after a failure with the one the controller holds |
| `TourSelection.TheNewestPublishes` | apps/morro-digital-platform/src/browser-entry.ts:1107-1136 | the newest request publishes its tour once it is presented, and every failure of it |
| `TourSelection.ControllerFollows` | apps/morro-digital-platform/src/browser-entry.ts:1053-1091 | the controller holds the tour that it selected last, and none after a reset |
| `TourSelection.LastPublicationIsShown` | apps/morro-digital-platform/src/browser-entry.ts:1063-1141 | in every run the page shows the tour and the ready or error state published last, and says that it is switching exactly while the last choice has published nothing |
| `TourSelection.EnabledByResetOrNewest` | apps/morro-digital-platform/src/browser-entry.ts:1137-1141 | the selector is enabled again only by a reset or by the settling of the newest request |
| `TourSelection.TourSelector.Change` | apps/morro-digital-platform/src/browser-entry.ts:1063-1074 | a choice takes the next generation and disables the selector |
| `TourSelection.TourSelector.ResetSelection` | apps/morro-digital-platform/src/browser-entry.ts:1053-1058 | a reset takes the next generation and enables the selector |
| `TourSelection.TourSelector.Take` | apps/morro-digital-platform/src/browser-entry.ts:1089-1091 | the controller holds the tour selected, even for a request that was overtaken meanwhile |
| `TourSelection.TourSelector.Conclude` | apps/morro-digital-platform/src/browser-entry.ts:1107-1141 | the end of a request: what it publishes, and whether it enables the selector |
| `PaymentPolling.Poll` | apps/morro-digital-platform/src/payments-browser-checkout-client.ts:408-526 | the bounded loop reads up to and including the first decisive answer, or to its bound, and its result and signals are those of that answer, or of a time-out |
| `PaymentPolling.FirstDecisive` | apps/morro-digital-platform/src/payments-browser-checkout-client.ts:427-500 | the first attempt whose answer decides: all before it decide nothing |
| `PaymentPolling.ConfirmedIffFirstEvidenceConfirms` | apps/morro-digital-platform/src/payments-browser-checkout-client.ts:408-526 | a payment is confirmed if and only if some answer within the bound confirms it and all before it carried no evidence |
| `PaymentPolling.Judge` | apps/morro-digital-platform/src/payments-browser-checkout-client.ts:429-502 | one answer is decided as `DecisionRestsOnAnswer` says |
| `PaymentPolling.PaidIffConfirmed` | apps/morro-digital-platform/src/payments-browser-checkout-client.ts:440-466 | an answer counts as payment if and only if, on its fields, it is about this checkout and session, confirmed, with verified evidence of exactly this payment for this session and none of a failure |
| `PaymentPolling.UndecidedIffNoEvidence` | apps/morro-digital-platform/src/payments-browser-checkout-client.ts:430-500 | the loop goes on exactly past well-formed answers about this checkout whose fields hold no verified evidence |
| `PaymentPolling.NotCompletedOnlyOnEvidence` | apps/morro-digital-platform/src/payments-browser-checkout-client.ts:467-494 | a payment is reported as not completed exactly on a failed, cancelled, expired or refunded status with verified evidence of a failure for this session, and none of a payment |
| `PaymentPolling.DecisionRestsOnAnswer` | apps/morro-digital-platform/src/payments-browser-checkout-client.ts:429-502 | one answer confirms the payment, lets the loop go on, or reports a failed payment or a mismatch, each if and only if its fields say so |
| `PaymentPolling.MismatchIffNamesAnother` | apps/morro-digital-platform/src/payments-browser-checkout-client.ts:436-488 | an answer is a mismatch exactly if it names another checkout or session, or the evidence that decides does |
| `PaymentPolling.RejectedForWhatTheyAre` | apps/morro-digital-platform/src/payments-browser-checkout-client.ts:268-303 | the codes of answers that are too large, unreachable or no success |
| `PaymentPolling.IsPaymentIff` | apps/morro-digital-platform/src/payments-browser-checkout-client.ts:334-353 | a value is read as a payment exactly if it is a record with verified true, a usable session id and reference, and its optional fields as they are |
| `PaymentPolling.IsFailureIff` | apps/morro-digital-platform/src/payments-browser-checkout-client.ts:355-364 | a value is read as a failure exactly if it is a record with verified true and a usable session id, reason and result id |
| `Whitespace.TrimIff` | apps/morro-digital-platform/src/payments-browser-checkout-client.ts:125-131 | trimming gives the one text that is left between the first and the last character that is no white space |
| `PaymentPolling.TimesOutIff` | apps/morro-digital-platform/src/payments-browser-checkout-client.ts:427-507 | the poll times out exactly if no answer within the bound carries evidence |
| `PaymentPolling.LastSignalIsTheOutcome` | apps/morro-digital-platform/src/payments-browser-checkout-client.ts:462-525 | the caller sees what was announced last, the payment or the code, unless announcing the failure threw |
| `PaymentPolling.OneSignalUnlessVerifiedThrows` | apps/morro-digital-platform/src/payments-browser-checkout-client.ts:408-526 | one signal is emitted, or two exactly when the signal of a verified payment throws; a verified signal only for a confirmed payment |
| `PaymentPolling.NormalizedAuthorityHeaders` | apps/morro-digital-platform/src/payments-browser-checkout-client.ts:202-266 | from the raw names and values: the headers pass exactly if every name, trimmed and in lower case, is an allowed one with a usable text and together they are a hand-off token alone or a CSRF token with its business; otherwise which error |
| `PaymentPolling.LastSpellingWins` | apps/morro-digital-platform/src/payments-browser-checkout-client.ts:206-229 | a header is set exactly if some entry spells its name, in whatever case and with whatever white space around it, and the last spelling decides its value |
| `PaymentPolling.SpellsIff` | apps/morro-digital-platform/src/payments-browser-checkout-client.ts:206-216 | a name spells a header exactly if within white space it is that header's name in any case |
| `PaymentPolling.HeaderTextIff` | apps/morro-digital-platform/src/payments-browser-checkout-client.ts:206-212 | the value of a header is its trimmed text, of at most 2048 characters for a hand-off token and 512 for any other |
| `PaymentPolling.TwoSpellingsCollide` | apps/morro-digital-platform/src/payments-browser-checkout-client.ts:206-229 | a concrete input: two spellings of one header collide and the earlier value is dropped without an error |
| `Attribution.HeldIsBest` | packages/affiliates/src/attribution.ts:114-137 | over every run, locked offers and invalid times included, the one held is the best by the order of sources, then time of establishment, then order of offer, of the candidates live when offered since the last restart; somebody is held exactly when a candidate was live and no invalid time came after it |
| `Attribution.BestIsUnique` | packages/affiliates/src/attribution.ts:114-137 | that description has one solution |
| `Attribution.HeldBeatsEveryone` | packages/affiliates/src/attribution.ts:114-137 | while nothing expires, nobody offered beats the one held |
| `Attribution.OrderDoesNotMatter` | packages/affiliates/src/attribution.ts:114-137 | while nothing expires, the rank of the winner's source and its time are the same for every order of the same candidates |
| `Attribution.LockFreezesIff` | packages/affiliates/src/attribution.ts:120-121 | while every offer from some point on is locked, the one held stays if and only if no invalid time comes; one that does leaves nobody held in spite of the lock |
| `Attribution.LockedYetDropped` | packages/affiliates/src/attribution.ts:120-121 | a concrete run: a locked choice at an invalid time drops the attribution that was held |
| `Attribution.InvalidTimeHoldsNobody` | packages/affiliates/src/attribution.ts:120 | a choice at an invalid time holds nobody |
| `Attribution.EvidenceTakenIff` | packages/affiliates/src/attribution.ts:41-67 | evidence is taken exactly if the server validated it, its fingerprint is a lower-case SHA-256 and it was received no earlier than observed; then it holds what came in |
| `Attribution.EvidenceMakesALiveCandidate` | packages/affiliates/src/attribution.ts:41-110 | validated evidence makes a candidate exactly for thirty days from its observation, with the evidence's own fields, which then takes over an empty hand |
| `TextSanitizer.SafeTextIsTidy` | apps/morro-digital-platform/src/business-onboarding-session-store.ts:63-75 | one pass leaves text without control characters, brackets or double and leading blanks, within the length |
| `TextSanitizer.NormalIff` | apps/morro-digital-platform/src/business-onboarding-session-store.ts:63-75 | before the cut, a text becomes the one clean text with the same words |
| `TextSanitizer.SafeTextIff` | apps/morro-digital-platform/src/business-onboarding-session-store.ts:63-75 | sanitising gives exactly the first code units of the clean text with the same words, all of it if it is short enough |
| `TextSanitizer.TwoPassesSettle` | apps/morro-digital-platform/src/business-onboarding-session-store.ts:63-75 | two passes settle every text, and one does if and only if the cut does not fall right after a blank |
| `TextSanitizer.OnePassIsNotEnough` | apps/morro-digital-platform/src/business-onboarding-session-store.ts:63-75 | for every limit of at least two a concrete text that the second pass still changes |
| `SessionSanitizer.SanitizeValue` | apps/morro-digital-platform/src/business-onboarding-session-store.ts:77-102 | the recursive sanitiser computes its specification |
| `SessionSanitizer.SanitizeArray` | apps/morro-digital-platform/src/business-onboarding-session-store.ts:83-88 | its array case, as a loop |
| `SessionSanitizer.SanitizeObject` | apps/morro-digital-platform/src/business-onboarding-session-store.ts:91-101 | its object case, as a loop over the first entries |
| `SessionContents.ValuesKeepTheirKind` | apps/morro-digital-platform/src/business-onboarding-session-store.ts:77-102 | what is kept of a value is of its kind, and a value is lost exactly if it has none or lies too deep |
| `SessionContents.ArrayKeepsItsItems` | apps/morro-digital-platform/src/business-onboarding-session-store.ts:83-88 | an array keeps, in order, what is kept of each of its first sixty items |
| `SessionContents.ObjectKeepsItsEntries` | apps/morro-digital-platform/src/business-onboarding-session-store.ts:91-101 | an object keeps, under each key and no other, what the last of its first eighty entries for that key holds |
| `SessionContents.ObjectKeepsOrder` | apps/morro-digital-platform/src/business-onboarding-session-store.ts:91-101 | its keys come in the order in which they were first assigned |
| `SessionContents.ContextKeepsLast` | apps/morro-digital-platform/src/business-onboarding-session-store.ts:104-115 | a context keeps, under each persistent key and no other, what the last entry for it that can be kept holds |
| `SessionContents.CapabilitiesAreTheFirstNames` | apps/morro-digital-platform/src/business-onboarding-session-store.ts:117-124 | of an array the first sixty names are kept, each once and in the order of its first appearance |
| `SessionSanitizer.OnePassKeeps` | apps/morro-digital-platform/src/business-onboarding-session-store.ts:77-102 | what one pass leaves respects the limits on depth, array length, object entries, text and key length, with distinct keys none of which is blocked |
| `SessionSanitizer.SecondPassSettles` | apps/morro-digital-platform/src/business-onboarding-session-store.ts:77-102 | a second pass loses no value and settles texts and keys |
| `SessionSanitizer.SettledStays` | apps/morro-digital-platform/src/business-onboarding-session-store.ts:77-102 | a settled value is a fixed point |
| `SessionSanitizer.ThirdPassChangesNothing` | apps/morro-digital-platform/src/business-onboarding-session-store.ts:77-102 | for every value three passes are two |
| `SessionSanitizer.SanitizeContextOf` | apps/morro-digital-platform/src/business-onboarding-session-store.ts:104-115 | the loop over a context computes its specification |
| `SessionSanitizer.ContextSettlesInTwo` | apps/morro-digital-platform/src/business-onboarding-session-store.ts:104-115 | for every value a context sanitised three times is one sanitised twice, with the keys of the first pass and within the limits |
| `SessionSanitizer.SecondPassChangesAContext` | apps/morro-digital-platform/src/business-onboarding-session-store.ts:104-115 | a concrete context that sanitising once does not settle |
| `SessionSettling.OnePassSettlesIff` | apps/morro-digital-platform/src/business-onboarding-session-store.ts:77-102 | sanitising a value once is enough if and only if no text and no key that is kept of it is cut right after a blank |
| `SessionSettling.ContextSettlesInOneIff` | apps/morro-digital-platform/src/business-onboarding-session-store.ts:104-115 | sanitising a context once is enough if and only if nothing that is kept of it is cut right after a blank; what a later entry of the same kept key replaces does not count |
| `SessionSanitizer.CapabilitiesSettleInTwo` | apps/morro-digital-platform/src/business-onboarding-session-store.ts:117-124 | capabilities sanitised three times are those sanitised twice: at most sixty distinct names |
| `SessionStore.SavedIsRestorableIff` | apps/morro-digital-platform/src/business-onboarding-session-store.ts:143-164 | a saved session can be restored if and only if its times are in order, not in the future, with its own time to live, and not expired |
| `SessionStore.RestorableIff` | apps/morro-digital-platform/src/business-onboarding-session-store.ts:143-164 | for every stored record, well-formed or not: it is restored if and only if it is of version 2, active or paused, names a step, and its times are in order with seven days to live that have not passed |
| `SessionStore.RestoredIsAFixedPoint` | apps/morro-digital-platform/src/business-onboarding-session-store.ts:143-244 | a session that was saved and restored comes back the same from every later saving and restoring until it expires, and its record is the same |
| `SessionStore.TidySessionComesBack` | apps/morro-digital-platform/src/business-onboarding-session-store.ts:143-244 | a session that needs no sanitising comes back as it was saved, but for the exact expiry and, if it is active at its first step, the time of its update |
| `SessionStore.RestoredKeepsWhatWasSaved` | apps/morro-digital-platform/src/business-onboarding-session-store.ts:143-244 | of any session its status, step and creation come back, a language, Portuguese where it names none, and something under exactly the persistent keys that hold something to keep |
| `SessionStore.RestoringExtendsNothing` | apps/morro-digital-platform/src/business-onboarding-session-store.ts:143-194 | a restored session expires seven days after its creation and is within the limits |
| `SessionStore.BusinessOnboardingBrowserSessionStore.Load` | apps/morro-digital-platform/src/business-onboarding-session-store.ts:199-211 | loading restores the record, or clears one that cannot be restored |
| `SessionStore.BusinessOnboardingBrowserSessionStore.Store` | apps/morro-digital-platform/src/business-onboarding-session-store.ts:213-244 | storing keeps a sanitised record of a session that can be resumed and clears the store for any other |
| `Candidates.DedupeCandidates` | apps/morro-digital-platform/src/business-location-discovery-adapter.ts:301-326 | the loop with its two sets of seen keys keeps exactly the candidates that are not the same place as an earlier kept one |
| `Candidates.SamePlaceIff` | apps/morro-digital-platform/src/business-location-discovery-adapter.ts:305-321 | while no provider's name holds a colon, two candidates are one place exactly if they name the same record of the same provider or the same name at the same spot |
| `Candidates.ColonJoinsTwoRecords` | apps/morro-digital-platform/src/business-location-discovery-adapter.ts:309-312 | a concrete input: with a colon in a provider's name two different records are taken for one |
| `Candidates.DedupeKeepsFirsts` | apps/morro-digital-platform/src/business-location-discovery-adapter.ts:301-326 | the result is a subsequence, no two of it share a provider key or a location key, and each dropped candidate shares one with an earlier kept one |
| `Candidates.FirstsAreDetermined` | apps/morro-digital-platform/src/business-location-discovery-adapter.ts:301-326 | only one choice of candidates has those properties |
| `Candidates.UnchangedIff` | apps/morro-digital-platform/src/business-location-discovery-adapter.ts:301-326 | deduplication leaves a list alone if and only if no two of it are the same place |
| `Candidates.DedupingAgainChangesNothing` | apps/morro-digital-platform/src/business-location-discovery-adapter.ts:301-326 | deduplicating twice is deduplicating once |
| `Candidates.ComesFirstIff` | apps/morro-digital-platform/src/business-location-discovery-adapter.ts:332-340 | the comparator on the fields: eligible first, then more certain by over a thousandth, then nearer, then by name; tied exactly if neither comes first |
| `Candidates.OrderedIff` | apps/morro-digital-platform/src/business-location-discovery-adapter.ts:332-340 | the comparator is a strict weak order on candidates at given levels of eligibility and confidence, for all distances and names, if and only if being within the tolerance is transitive among those levels |
| `Candidates.Circle` | apps/morro-digital-platform/src/business-location-discovery-adapter.ts:332-340 | three confidences that chain within the tolerance but not across it give three candidates of different places in a circle |
| `Candidates.ThreeInACircle` | apps/morro-digital-platform/src/business-location-discovery-adapter.ts:332-340 | three concrete candidates, with confidences 0.9, 0.9008 and 0.9016, that no order sorts |
| `Candidates.ArrangeableIff` | apps/morro-digital-platform/src/business-location-discovery-adapter.ts:328-342 | every list of different places at given levels has an arrangement sorted by the comparator if and only if being within the tolerance is transitive among those levels |
| `Candidates.SpreadIsClustered` | apps/morro-digital-platform/src/business-location-discovery-adapter.ts:332-340 | it is transitive where any two confidences are equal or further apart than the tolerance |
| `Candidates.RankPermutes` | apps/morro-digital-platform/src/business-location-discovery-adapter.ts:328-342 | ranking loses and adds nobody |
| `Candidates.NeighboursPutEligibleFirst` | apps/morro-digital-platform/src/business-location-discovery-adapter.ts:328-342 | a list whose neighbours are in the comparator's order has no ineligible candidate before an eligible one, however it was sorted and whatever the confidences |
| `Candidates.RankOrdersNeighbours` | apps/morro-digital-platform/src/business-location-discovery-adapter.ts:328-342 | a merge sort by the comparator leaves neighbours in order even where the comparator runs in circles |
| `Candidates.EligibleAlwaysFirst` | apps/morro-digital-platform/src/business-location-discovery-adapter.ts:328-342 | so its ranking puts no ineligible candidate before an eligible one |
| `Candidates.RankSorts` | apps/morro-digital-platform/src/business-location-discovery-adapter.ts:328-342 | where the tolerance is transitive the ranking is sorted and keeps ties in order |
| `Candidates.StableSortIsUnique` | apps/morro-digital-platform/src/business-location-discovery-adapter.ts:328-342 | there the ranking does not depend on the sorting algorithm |
| `Candidates.AnswerHasNoRepeats` | apps/morro-digital-platform/src/business-location-discovery-adapter.ts:465-470 | an answer names no place twice |
| `Candidates.AnswerLength` | apps/morro-digital-platform/src/business-location-discovery-adapter.ts:470 | an answer is as long as what the caller wants, at least one, at most twenty and eight by default, and the places found allow, and empty only where nothing was found |
| `Candidates.CutSparesEligible` | apps/morro-digital-platform/src/business-location-discovery-adapter.ts:465-470 | the cut never drops an eligible candidate to show an ineligible one |
| `Candidates.AnswerShowsTheBest` | apps/morro-digital-platform/src/business-location-discovery-adapter.ts:465-470 | where the tolerance is transitive nothing left out ranks before anything shown |

## Left out

- Texts, labels, headings, focus, analytics and formatting: of the pages only the fields that the protocols read or write are kept. Of the messages on the referral page only their author is.
- Code between two waits is one step, and so are the return of an awaited helper and what its caller does next.
- Operation objects of the referral page are numbers; whether one is confirmed is a set of numbers, and its button is the buttons with its key and, for creation, the create button.
- Parsing of the numbers in the referral forms: a rejected form is an event, and an accepted link request carries its number as text. The create form's draft, which is reset when unchanged, is not kept.
- The server of the referral list answers success only for what it carried out and lists no version older than the read that asked; it carries out each mutation at most once, at any time.
- Price identities are compared as tuples rather than as joined texts, and a purchase's fingerprint likewise.
- New retry keys are assumed to be unused ones; session storage always works and belongs to one tab.
- What follows an opened checkout in ticketing.js (the status loop, the ticket, the list of reservations) is one closing event, and so is the reload of offers after a failed reservation. Holder details are not modelled.
- The dashboard before its bootstrap, its status messages, its location search form state and device geolocation. Two reads of one panel for the same business are not ordered by the code, so nothing is claimed about which of them is shown.
- Answers about a business are assumed to carry data of that business.
- The control center's views and handlers are paths of segments that say whether they check, take a new guard and write; which path is taken and what is written are left open, and only the users' paths are written out. A handler that renders anew is one path, whose later checks are those of the new guard. Writes to elements inside of the content, and the delegated overview and content pages, are not modelled.
- The boundary of the map that a tour runs in is an oracle asked anew at each step; nothing is assumed of its answers.
- Payment answers are decoded values; the transport, the correlation ids, the scheduler's delays and the creation of a checkout before the poll are not part of this model. Lower case is modelled as far as it can give an allowed header name, lengths are in characters, and values the browser would refuse are not refused here. The code's branch for an incomplete authority cannot be reached and is not modelled.
- Timestamps are integers, and an invalid one is a missing one; the pattern of a fingerprint is checked, the calendar is not.
- JavaScript orders integer-like property names first; objects here keep the order in which keys were assigned. JSON encoding is left out, and values in a session are the ones JSON can carry.
- The onboarding session's draft, steps and transitions are reduced to what the browser's store saves and restores.
- Confidence is a real number and a distance an integer; how they are computed, text similarity, the name's normalisation and the locale's collation are inputs. The location key is one supplied text.
- EligibleAlwaysFirst: speaks of the modelled merge sort, because ECMAScript leaves the result of sorting by an inconsistent comparator to the engine; `NeighboursPutEligibleFirst` covers every result whose neighbours are in order, and `StableSortIsUnique` every stable sort where the comparator is consistent.
- CRUD pages, the business CMS, the home overview, the service worker and the subscription client would add only easy members.

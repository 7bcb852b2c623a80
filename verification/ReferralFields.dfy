/** What the lead fields of listed referrals show over whole runs of the protocol. */
module ReferralFields {
  import opened Options
  import opened ReferralPage
  import opened ReferralProtocol
  import opened ReferralGuarantees

  /** The items that are listed after an event, where `items` were before: those of a body that the page
      takes, whole or cut short. */
  function ItemsAfter(s: State, items: seq<Item>, e: Event): seq<Item> {
    if e.BodyArrived? && ReadCurrent(s, e.read) && e.payload.Items? then e.payload.items else items
  }

  ghost function ItemsShown(s: State, items: seq<Item>, events: seq<Event>): seq<Item>
    requires CanRun(s, events)
    decreases |events|
  {
    if events == [] then items
    else ItemsShown(Next(s, events[0]), ItemsAfter(s, items, events[0]), events[1..])
  }

  /** The event neither types into a field of referral `id` nor presses its link button. */
  predicate LeavesAlone(s: State, e: Event, id: string) {
    match e
    case FieldEdited(i, _) => i < |s.page.forms| ==> s.page.forms[i].referral != id
    case ButtonPressed(i, _) => i < |s.page.buttons| ==> s.page.buttons[i].key != Link(id)
    case _ => true
  }

  ghost predicate AllLeaveAlone(s: State, events: seq<Event>, id: string)
    requires CanRun(s, events)
    decreases |events|
  {
    events == [] || (LeavesAlone(s, events[0], id) && AllLeaveAlone(Next(s, events[0]), events[1..], id))
  }

  /** There is one field for each item listed, and those of referral `id` show the listed lead. */
  predicate ShowsLead(forms: seq<Form>, items: seq<Item>, id: string) {
    && |forms| == |items|
    && forall i :: 0 <= i < |items| ==>
         && forms[i].referral == items[i].id
         && (items[i].id == id ==> forms[i].value == items[i].lead && forms[i].baseline == items[i].lead)
  }

  predicate Untouched(s: State, items: seq<Item>, id: string) {
    ShowsLead(s.page.forms, items, id) && Link(id) !in s.page.pendingControls
  }

  /** A field that was not edited takes the lead of every list that is rendered. */
  lemma RenderShowsLead(p: Page, items: seq<Item>, before: seq<Item>, id: string)
    requires ShowsLead(p.forms, before, id) && Link(id) !in p.pendingControls
    ensures ShowsLead(Render(p, items).forms, items, id)
  {
    hide Render;
    RenderedFieldsFollow(p, items);
    if k :| 0 <= k < |p.forms| && p.forms[k].referral == id {
      var last := LastField(p.forms, id, k);
    }
  }

  lemma {:induction false} LastField(forms: seq<Form>, id: string, k: nat) returns (last: nat)
    requires k < |forms| && forms[k].referral == id
    ensures IsLastField(forms, id, last)
    decreases |forms| - k
  {
    if j :| k < j < |forms| && forms[j].referral == id {
      last := LastField(forms, id, j);
    } else {
      last := k;
    }
  }

  lemma ShowKeepsUntouched(p: Page, payload: Payload, items: seq<Item>, id: string)
    requires ShowsLead(p.forms, items, id) && Link(id) !in p.pendingControls
    ensures ShowsLead(Show(p, payload).forms, if payload.Items? then payload.items else items, id)
    ensures Show(p, payload).pendingControls.Keys <= p.pendingControls.Keys
  {
    hide ShowsLead, FormsOf, DraftsOf, ButtonsOf, Enabled;
    if payload.Items? {
      RenderShowsLead(p, payload.items, items, id);
    }
  }

  lemma SettleKeepsFields(s: State, read: nat)
    requires read in s.pendingReads
    ensures Settle(s, read).page.forms == s.page.forms
    ensures Settle(s, read).page.pendingControls.Keys <= s.page.pendingControls.Keys
  {
    hide ReleaseButton;
    var owner := s.pendingReads[read].owner;
    if owner.Handler? { ReleaseTouchesControls(s.page, owner.op, owner.key); }
  }

  lemma ReleaseTakesKeys(p: Page, op: OperationId, key: Key)
    ensures MutationFailed(p, op, key).pendingControls.Keys <= p.pendingControls.Keys
    ensures MutationFailed(p, op, key).forms == p.forms
  {
    hide Enabled;
  }

  lemma AcceptKeepsUntouched(s: State, op: OperationId, items: seq<Item>, id: string)
    requires op in s.requests && s.requests[op].key != Link(id) && Untouched(s, items, id)
    ensures Untouched(Accept(s, op), items, id)
  {
  }

  lemma BeginKeepsUntouched(s: State, i: nat, lead: string, items: seq<Item>, id: string)
    requires Untouched(s, items, id)
    ensures Untouched(SubmitForm(s), items, id)
    ensures i < |s.page.buttons| && s.page.buttons[i].key != Link(id) ==> Untouched(PressButton(s, i, lead), items, id)
  {
    hide ShowsLead;
  }

  lemma BodyKeepsUntouched(s: State, read: nat, version: nat, payload: Payload, items: seq<Item>, id: string)
    requires read in s.pendingReads && Untouched(s, items, id)
    ensures Untouched(Decode(s, read, version, payload),
                      ItemsAfter(s, items, BodyArrived(read, version, payload)), id)
  {
    hide ShowsLead, Show, Settle;
    ShowKeepsUntouched(s.page, payload, items, id);
    SettleKeepsFields(s, read);
    SettleKeepsFields(Shown(s, version, payload), read);
  }

  lemma ResponseKeepsUntouched(s: State, read: nat, ok: bool, items: seq<Item>, id: string)
    requires read in s.pendingReads && Untouched(s, items, id)
    ensures Untouched(Respond(s, read, ok), items, id)
  {
    hide ShowsLead, Settle;
    SettleKeepsFields(s, read);
    SettleKeepsFields(s.(page := OfferRecovery(s.page, false)), read);
  }

  lemma AnswerKeepsUntouched(s: State, op: OperationId, ok: bool, items: seq<Item>, id: string)
    requires Inv(s) && op in s.requests && Untouched(s, items, id)
    ensures Untouched(if ok then Accept(s, op) else Refuse(s, op), items, id)
  {
    hide MutationFailed, ShowsLead, Accept;
    if ok {
      AcceptKeepsUntouched(s, op, items, id);
    } else {
      ReleaseTakesKeys(s.page, op, s.requests[op].key);
    }
  }

  lemma EditKeepsUntouched(s: State, i: nat, value: string, items: seq<Item>, id: string)
    requires i < |s.page.forms| && s.page.forms[i].referral != id && Untouched(s, items, id)
    ensures Untouched(Edit(s, i, value), items, id)
  {
  }

  lemma RetryKeepsUntouched(s: State, items: seq<Item>, id: string)
    requires Untouched(s, items, id) && s.page.recovery.Offer?
    ensures Untouched(Retry(s), items, id)
  {
    hide ShowsLead;
  }

  lemma CheckKeepsUntouched(s: State, session: Session, items: seq<Item>, id: string)
    requires Untouched(s, items, id) && s.checking > 0
    ensures Untouched(CheckSession(s, session), items, id)
  {
    hide ShowsLead;
  }

  lemma StepKeepsUntouched(s: State, items: seq<Item>, e: Event, id: string)
    requires Inv(s) && Possible(s, e) && LeavesAlone(s, e, id) && Untouched(s, items, id)
    ensures Untouched(Next(s, e), ItemsAfter(s, items, e), id)
  {
    hide Inv, ShowsLead, SubmitForm, PressButton, Edit, Accept, Refuse, Respond, Decode, Retry, CheckSession;
    match e
    case CreateSubmitted => BeginKeepsUntouched(s, 0, "", items, id);
    case ButtonPressed(i, lead) => BeginKeepsUntouched(s, i, lead, items, id);
    case FieldEdited(i, value) => EditKeepsUntouched(s, i, value, items, id);
    case MutationAnswered(op, ok) => AnswerKeepsUntouched(s, op, ok, items, id);
    case ResponseArrived(read, ok) => ResponseKeepsUntouched(s, read, ok, items, id);
    case BodyArrived(read, version, payload) => BodyKeepsUntouched(s, read, version, payload, items, id);
    case RetryClicked => RetryKeepsUntouched(s, items, id);
    case SessionAnswered(session) => CheckKeepsUntouched(s, session, items, id);
    case _ =>
  }

  lemma {:induction false} UntouchedFollows(s: State, items: seq<Item>, events: seq<Event>, id: string)
    requires Inv(s) && CanRun(s, events) && AllLeaveAlone(s, events, id) && Untouched(s, items, id)
    ensures Untouched(After(s, events), ItemsShown(s, items, events), id)
    decreases |events|
  {
    hide Inv, Untouched, LeavesAlone, ItemsAfter;
    if events != [] {
      StepKeeps(s, events[0]);
      StepKeepsUntouched(s, items, events[0], id);
      UntouchedFollows(Next(s, events[0]), ItemsAfter(s, items, events[0]), events[1..], id);
    }
  }

  /** Over every run a lead field that nobody typed into, of a referral that nobody linked, shows the
      lead that the list on screen names. */
  lemma UntouchedFieldShowsTheListedLead(events: seq<Event>, id: string)
    requires CanRun(START, events) && AllLeaveAlone(START, events, id)
    ensures ShowsLead(After(START, events).page.forms, ItemsShown(START, [], events), id)
  {
    StartsInOrder();
    UntouchedFollows(START, [], events, id);
  }

  // ---------------------------------------------------------------- the recovery button

  /** A read that fails while it is current offers a plain recovery. */
  lemma FailedReadOffersRecovery(s: State, read: nat)
    requires read in s.pendingReads
    requires s.pendingReads[read].generation == s.page.mutationGeneration && read == s.page.readGeneration
    ensures Respond(s, read, false).page.recovery == Recovery.Offer(false, false)
  {
  }

  /** Recovering reads the list again, or after a session failure checks the session first, with the
      button disabled. A session that holds leads to the read, one that has ended to the login page, and
      one that could not be checked back to the button. */
  lemma RecoveryGoesOn(s: State, session: Session)
    ensures
      s.page.recovery.Offer? ==>
        var t := Retry(s);
        if s.page.recovery.authFailure then
          t.page == s.page.(recovery := Offer(true, true)) && t.checking == s.checking + 1
          && t.pendingReads == s.pendingReads
        else
          t.page.readGeneration == s.page.readGeneration + 1 && t.page.recovery.Updating?
          && t.page.readGeneration in t.pendingReads
          && t.pendingReads[t.page.readGeneration].generation == s.page.mutationGeneration
          && t.checking == s.checking
    ensures
      s.checking > 0 ==>
        var t := CheckSession(s, session);
        && t.checking == s.checking - 1
        && (session.AuthRequired? ==> t.leaving && t.page == s.page)
        && (session.Unavailable? ==> t.page == s.page.(recovery := Offer(true, false)) && t.leaving == s.leaving)
        && (session.Authenticated? ==>
              && t.page.readGeneration == s.page.readGeneration + 1 && t.page.recovery.Updating?
              && t.page.readGeneration in t.pendingReads
              && t.pendingReads[t.page.readGeneration].generation == s.page.mutationGeneration)
  {
  }

  /** A form that is sent back speaks for no mutation, and nothing else of the page changes. */
  lemma RejectedFormSpeaksForNobody(s: State, target: Target)
    ensures
      var t := Reject(s, target);
      t.page == s.page.(authors := t.page.authors) && target !in t.page.authors
      && forall other :: other != target ==>
           (other in t.page.authors <==> other in s.page.authors)
           && (other in s.page.authors ==> t.page.authors[other] == s.page.authors[other])
  {
  }
}

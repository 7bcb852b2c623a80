/** What holds of the referral list in every run of its protocol. */
module ReferralGuarantees {
  import opened Options
  import opened ReferralPage
  import opened ReferralProtocol

  lemma StartsInOrder()
    ensures Inv(START)
  {
  }

  lemma Reachable(events: seq<Event>)
    requires CanRun(START, events)
    ensures Inv(After(START, events))
  {
    StartsInOrder();
    RunKeeps(START, events);
  }

  // ---------------------------------------------------------------- refresh and freshness

  /** No refresh is lost: once start-up is over, a list that must be refreshed has a current read
      under way or an enabled button that issues one. */
  lemma NoLostRefresh(events: seq<Event>)
    requires CanRun(START, events)
    ensures
      var s := After(START, events);
      s.page.listNeedsRefresh && s.checking == 0 && !s.leaving ==> CurrentReadInFlight(s) || RecoveryOffered(s)
  {
    Reachable(events);
  }

  /** A list that is not marked for refresh is on screen and shows every confirmed mutation. */
  lemma ScreenReflectsConfirmations(events: seq<Event>)
    requires CanRun(START, events)
    ensures
      var s := After(START, events);
      !s.page.listNeedsRefresh ==> s.shown.Some? && Reflects(s.log, s.shown.value, s.page.confirmed)
  {
    Reachable(events);
  }

  lemma SettleTouches(s: State, read: nat)
    requires read in s.pendingReads
    ensures
      var t := Settle(s, read);
      t == s.(page := t.page, pendingReads := t.pendingReads) && SameButControls(s.page, t.page)
  {
    match s.pendingReads[read].owner
    case Nobody =>
    case Handler(op, key) => ReleaseTouchesControls(s.page, op, key);
  }

  lemma ShowTouches(p: Page, payload: Payload)
    ensures
      var q := Show(p, payload);
      && q.confirmed == p.confirmed
      && if payload.Items? then FieldsFollow(p, payload.items, q.forms) else q.forms == p.forms
  {
    hide FormsOf, DraftsOf, ButtonsOf, FreedKeys, Enabled, FieldsFollow;
    if payload.Items? { RenderedFieldsFollow(p, payload.items); }
  }

  /** Whatever list reaches the screen, whole or cut short by an error, shows every mutation
      confirmed so far; a list that does not come from a current read never reaches it. */
  lemma EveryRenderIsFresh(events: seq<Event>, read: nat, version: nat, payload: Payload)
    requires CanRun(START, events) && Possible(After(START, events), BodyArrived(read, version, payload))
    ensures
      var s := After(START, events);
      var t := Decode(s, read, version, payload);
      && t.log == s.log && t.page.confirmed == s.page.confirmed
      && if ReadCurrent(s, read) && payload.Items?
         then t.shown == Some(version) && Reflects(s.log, version, s.page.confirmed)
              && FieldsFollow(s.page, payload.items, t.page.forms)
         else t.shown == s.shown && t.page.forms == s.page.forms
  {
    var s := After(START, events);
    Reachable(events);
    ShowTouches(s.page, payload);
    SettleTouches(s, read);
    SettleTouches(Shown(s, version, payload), read);
    if ReadCurrent(s, read) {
      CurrentReadReflects(s, read, version);
    }
    hide Show, Settle, Inv;
  }

  // ---------------------------------------------------------------- controls

  /** A button is disabled only while its key is pending, and always then where no two buttons
      share a key; the create button is disabled exactly while a creation is pending. */
  lemma ControlsFollowKeys(events: seq<Event>)
    requires CanRun(START, events)
    ensures
      var p := After(START, events).page;
      && (p.createDisabled <==> Create in p.pendingControls)
      && (forall b :: b in p.buttons && b.disabled ==> b.key in p.pendingControls)
      && (NoDuplicateKeys(p.buttons) ==> forall b :: b in p.buttons ==> (b.disabled <==> b.key in p.pendingControls))
  {
    Reachable(events);
  }

  /** Key `key`, held by `op`, is still held by it. */
  predicate StillHeld(s: State, key: Key, op: OperationId) {
    key in s.page.pendingControls && s.page.pendingControls[key] == op
  }

  /** The events that free key `key` of mutation `op`: the failure of its own request, the settling
      of the read of its own creation, or the rendering of a list that shows it. */
  predicate Frees(s: State, e: Event, key: Key, op: OperationId) {
    match e
    case MutationAnswered(answered, ok) => answered == op && !ok && op !in s.page.confirmed
    case ResponseArrived(read, _) =>
      op in s.page.confirmed && key == Create && read in s.pendingReads
      && s.pendingReads[read].owner == Handler(op, Create)
    case BodyArrived(read, version, payload) =>
      op in s.page.confirmed && read in s.pendingReads
      && ((key == Create && s.pendingReads[read].owner == Handler(op, Create))
          || (ReadCurrent(s, read) && payload.Items? && !payload.broken
              && version <= |s.log| && op in s.log[..version]))
    case _ => false
  }

  /** A key is given up only by an event of its own: no older mutation releases a newer one. */
  lemma KeysFreedOnlyByTheirOwn(events: seq<Event>, e: Event, key: Key)
    requires CanRun(START, events) && Possible(After(START, events), e)
    requires key in After(START, events).page.pendingControls
    ensures
      var s := After(START, events);
      var op := s.page.pendingControls[key];
      StillHeld(Next(s, e), key, op) || Frees(s, e, key, op)
  {
    Reachable(events);
    StepFrees(After(START, events), e, key);
  }

  lemma SubmitFreesNothing(s: State, key: Key)
    requires key in s.page.pendingControls
    ensures StillHeld(SubmitForm(s), key, s.page.pendingControls[key])
  {
  }

  lemma PressFreesNothing(s: State, i: nat, lead: string, key: Key)
    requires i < |s.page.buttons| && key in s.page.pendingControls
    ensures StillHeld(PressButton(s, i, lead), key, s.page.pendingControls[key])
  {
  }

  lemma RetryFreesNothing(s: State, key: Key)
    requires s.page.recovery.Offer? && key in s.page.pendingControls
    ensures StillHeld(Retry(s), key, s.page.pendingControls[key])
  {
  }

  lemma SessionFreesNothing(s: State, session: Session, key: Key)
    requires s.checking > 0 && key in s.page.pendingControls
    ensures StillHeld(CheckSession(s, session), key, s.page.pendingControls[key])
  {
  }

  lemma StepFrees(s: State, e: Event, key: Key)
    requires Inv(s) && Possible(s, e) && key in s.page.pendingControls
    ensures StillHeld(Next(s, e), key, s.page.pendingControls[key]) || Frees(s, e, key, s.page.pendingControls[key])
  {
    hide Inv, Frees, SubmitForm, PressButton, Retry, CheckSession, Accept, Refuse, Respond, Decode;
    match e
    case MutationAnswered(op, ok) => AnswerFrees(s, op, ok, key);
    case ResponseArrived(read, ok) => ResponseFrees(s, read, ok, key);
    case BodyArrived(read, version, payload) => BodyFrees(s, read, version, payload, key);
    case CreateSubmitted => SubmitFreesNothing(s, key);
    case ButtonPressed(i, lead) => PressFreesNothing(s, i, lead, key);
    case RetryClicked => RetryFreesNothing(s, key);
    case SessionAnswered(session) => SessionFreesNothing(s, session, key);
    case _ =>
  }

  lemma AnswerFrees(s: State, op: OperationId, ok: bool, key: Key)
    requires Inv(s) && Possible(s, MutationAnswered(op, ok)) && key in s.page.pendingControls
    ensures
      var e := MutationAnswered(op, ok);
      StillHeld(Next(s, e), key, s.page.pendingControls[key]) || Frees(s, e, key, s.page.pendingControls[key])
  {
    var held := s.requests[op].key;
    if ok {
      ConfirmedTouches(s.page, op, held, s.requests[op].lead);
    } else {
      RefusedTouches(s.page, op, held);
    }
    hide MutationConfirmed, MutationFailed;
  }

  lemma SettleFrees(s: State, read: nat, key: Key)
    requires KeysInOrder(s) && read in s.pendingReads && key in s.page.pendingControls
    ensures
      || StillHeld(Settle(s, read), key, s.page.pendingControls[key])
      || (key == Create && s.pendingReads[read].owner == Handler(s.page.pendingControls[key], Create)
          && s.page.pendingControls[key] in s.page.confirmed)
  {
    if s.pendingReads[read].owner.Handler? {
      HandlerReleases(s, read);
    }
    hide ReleaseButton;
  }

  lemma ResponseFrees(s: State, read: nat, ok: bool, key: Key)
    requires Inv(s) && Possible(s, ResponseArrived(read, ok)) && key in s.page.pendingControls
    ensures
      var e := ResponseArrived(read, ok);
      StillHeld(Next(s, e), key, s.page.pendingControls[key]) || Frees(s, e, key, s.page.pendingControls[key])
  {
    SettleFrees(s, read, key);
    OfferKeeps(s, false);
    SettleFrees(s.(page := OfferRecovery(s.page, false)), read, key);
    hide Settle, Inv;
  }

  lemma ShowFrees(s: State, read: nat, version: nat, payload: Payload, key: Key)
    requires Inv(s) && ReadCurrent(s, read) && Possible(s, BodyArrived(read, version, payload))
    requires key in s.page.pendingControls
    ensures
      var op := s.page.pendingControls[key];
      var u := Shown(s, version, payload);
      && KeysInOrder(u) && u.pendingReads == s.pendingReads && u.page.confirmed == s.page.confirmed
      && (StillHeld(u, key, op)
          || (payload.Items? && !payload.broken && op in s.page.confirmed && op in s.log[..version]))
  {
    ShowKeeps(s, read, version, payload);
    CurrentReadReflects(s, read, version);
    ShowTouches(s.page, payload);
    if payload.Items? {
      RenderTouches(s.page, payload.items);
      RenderedTouches(s.page, payload.items);
    }
    hide Render, Rendered;
  }

  lemma BodyFrees(s: State, read: nat, version: nat, payload: Payload, key: Key)
    requires Inv(s) && Possible(s, BodyArrived(read, version, payload)) && key in s.page.pendingControls
    ensures
      var e := BodyArrived(read, version, payload);
      StillHeld(Next(s, e), key, s.page.pendingControls[key]) || Frees(s, e, key, s.page.pendingControls[key])
  {
    if ReadCurrent(s, read) {
      var u := Shown(s, version, payload);
      ShowFrees(s, read, version, payload, key);
      if StillHeld(u, key, s.page.pendingControls[key]) {
        SettleFrees(u, read, key);
      }
    } else {
      SettleFrees(s, read, key);
    }
    hide Settle, Shown, Inv;
  }

  /** No control is locked without a way out: in every run a pending key waits either for its own
      request or for a list that must be refreshed. */
  lemma PendingKeysHaveAWayOut(events: seq<Event>, key: Key)
    requires CanRun(START, events) && key in After(START, events).page.pendingControls
    ensures
      var s := After(START, events);
      var op := s.page.pendingControls[key];
      if op in s.page.confirmed then s.page.listNeedsRefresh else op in s.requests && s.requests[op].key == key
  {
    Reachable(events);
  }

  lemma {:induction false} RunsCompose(s: State, first: seq<Event>, second: seq<Event>)
    requires CanRun(s, first) && CanRun(After(s, first), second)
    ensures CanRun(s, first + second) && After(s, first + second) == After(After(s, first), second)
    decreases |first|
  {
    if first == [] {
      assert first + second == second;
    } else {
      RunsCompose(Next(s, first[0]), first[1..], second);
      assert (first + second)[1..] == first[1..] + second;
    }
  }

  lemma ThenOne(s: State, events: seq<Event>, e: Event)
    requires CanRun(s, events) && Possible(After(s, events), e)
    ensures CanRun(s, events + [e]) && After(s, events + [e]) == Next(After(s, events), e)
  {
    var t := After(s, events);
    assert [e][1..] == [];
    assert CanRun(Next(t, e), []);
    assert CanRun(t, [e]) && After(t, [e]) == Next(t, e);
    RunsCompose(s, events, [e]);
  }

  /** A current read that is answered brings the list up to date. */
  lemma FinishRead(s: State, read: nat) returns (events: seq<Event>)
    requires Inv(s) && ReadCurrent(s, read)
    ensures |events| <= 2 && CanRun(s, events)
    ensures
      var t := After(s, events);
      Inv(t) && !t.page.listNeedsRefresh && t.requests == s.requests
  {
    events := [];
    var t := s;
    if s.pendingReads[read].phase == Fetching {
      RespondKeeps(s, read, true);
      ThenOne(s, events, ResponseArrived(read, true));
      events := events + [ResponseArrived(read, true)];
      t := Respond(s, read, true);
    }
    var e := BodyArrived(read, |t.log|, Items([], false));
    DecodeKeeps(t, read, |t.log|, Items([], false));
    ThenOne(s, events, e);
    events := events + [e];
    ReleasedNeedsNoRefresh(t, read);
  }

  lemma ReleasedNeedsNoRefresh(s: State, read: nat)
    requires ReadCurrent(s, read)
    ensures
      var t := Decode(s, read, |s.log|, Items([], false));
      !t.page.listNeedsRefresh && t.requests == s.requests
  {
    var u := Shown(s, |s.log|, Items([], false));
    match s.pendingReads[read].owner
    case Nobody =>
    case Handler(op, key) => ReleaseTouchesControls(u.page, op, key);
  }

  /** From every state of every run, unless the page is being left for the login page, at most four
      events bring a fresh list and free the key of every confirmed mutation. */
  lemma ListCanBeRefreshed(s: State) returns (events: seq<Event>)
    requires Inv(s) && !s.leaving
    ensures |events| <= 4 && CanRun(s, events)
    ensures
      var t := After(s, events);
      && Inv(t) && !t.page.listNeedsRefresh && t.requests == s.requests
      && t.shown.Some? && Reflects(t.log, t.shown.value, t.page.confirmed)
      && forall key :: key in t.page.pendingControls ==> t.page.pendingControls[key] !in t.page.confirmed
  {
    if !s.page.listNeedsRefresh {
      return [];
    }
    events := ReadCanBeStarted(s);
    var t := After(s, events);
    var more := FinishRead(t, t.page.readGeneration);
    RunsCompose(s, events, more);
    events := events + more;
  }

  /** While the list waits, a current read is under way or two events bring one about. */
  lemma ReadCanBeStarted(s: State) returns (events: seq<Event>)
    requires Inv(s) && !s.leaving && s.page.listNeedsRefresh
    ensures |events| <= 2 && CanRun(s, events)
    ensures
      var t := After(s, events);
      Inv(t) && CurrentReadInFlight(t) && t.requests == s.requests
  {
    hide KeysInOrder, ListFresh, ButtonsFollowKeys, MessagesOwned;
    if CurrentReadInFlight(s) {
      return [];
    }
    if s.checking > 0 {
      events := CheckThenRead(s);
      return;
    }
    RetryKeeps(s);
    ThenOne(s, [], RetryClicked);
    assert [] + [RetryClicked] == [RetryClicked];
    events := [RetryClicked];
    if s.page.recovery.authFailure {
      var more := CheckThenRead(Next(s, RetryClicked));
      RunsCompose(s, events, more);
      events := events + more;
    }
  }

  lemma CheckThenRead(s: State) returns (events: seq<Event>)
    requires Inv(s) && s.checking > 0
    ensures events == [SessionAnswered(Authenticated)] && CanRun(s, events)
    ensures
      var t := After(s, events);
      Inv(t) && CurrentReadInFlight(t) && t.requests == s.requests
  {
    SessionKeeps(s, Authenticated);
    events := [SessionAnswered(Authenticated)];
    ThenOne(s, [], SessionAnswered(Authenticated));
    assert [] + events == events;
  }

  /** Once nothing waits to be shown, a key is pending only for a mutation under way. */
  lemma UnderWayWhileFresh(s: State)
    requires KeysHeldForAReason(s) && !s.page.listNeedsRefresh
    ensures forall key :: key in s.page.pendingControls ==> s.page.pendingControls[key] in s.requests.Keys
  {
  }

  /** From every state of every run, unless the page is being left, there is a continuation after
      which no key is pending and no control is disabled. */
  lemma {:induction false} EveryControlCanBeFreed(s: State) returns (events: seq<Event>)
    requires Inv(s) && !s.leaving
    ensures CanRun(s, events)
    ensures
      var t := After(s, events);
      && Inv(t) && t.page.pendingControls == map[] && !t.page.createDisabled
      && forall b :: b in t.page.buttons ==> !b.disabled
    decreases |s.requests|
  {
    hide MessagesOwned, RequestsHoldKeys, ReadsNumbered, ListInOrder;
    if s.requests == map[] {
      events := ListCanBeRefreshed(s);
      var t := After(s, events);
      UnderWayWhileFresh(t);
      assert t.page.pendingControls == map[];
    } else {
      var op :| op in s.requests;
      var e := MutationAnswered(op, false);
      FailKeeps(s, op);
      ThenOne(s, [], e);
      assert [] + [e] == [e];
      assert Next(s, e).requests.Keys == s.requests.Keys - {op};
      var rest := EveryControlCanBeFreed(Next(s, e));
      RunsCompose(s, [e], rest);
      events := [e] + rest;
    }
  }

  // ---------------------------------------------------------------- lists that name a referral twice

  predicate DistinctReferrals(items: seq<Item>) {
    forall i, j :: 0 <= i < j < |items| ==> items[i].id != items[j].id
  }

  function ReferralOf(key: Key): string
    requires key != Create
  {
    if key.Act? then key.referral else key.referral
  }

  /** The buttons of one listed referral name it; their keys differ, and the last one is its link button. */
  lemma ItemButtonsNameIt(item: Item, pending: map<Key, OperationId>)
    ensures
      var buttons := ItemButtons(item, pending);
      && |buttons| > 0 && buttons[|buttons| - 1].key == Link(item.id)
      && NoDuplicateKeys(buttons)
      && forall b :: b in buttons ==> b.key != Create && ReferralOf(b.key) == item.id
  {
  }

  function Ids(items: seq<Item>): set<string> {
    if items == [] then {} else Ids(items[..|items| - 1]) + {items[|items| - 1].id}
  }

  lemma {:induction false} IdsAre(items: seq<Item>, id: string)
    ensures id in Ids(items) <==> exists i :: 0 <= i < |items| && items[i].id == id
  {
    if items != [] {
      var n := |items| - 1;
      IdsAre(items[..n], id);
      assert forall i :: 0 <= i < n ==> items[..n][i] == items[i];
    }
  }

  function LinkButton(id: string, pending: map<Key, OperationId>): Button {
    Button(Link(id), Link(id) in pending)
  }

  /** The buttons of a rendered list name the referrals that it lists, and each of those has its link button. */
  lemma {:induction false} ButtonsNameReferrals(items: seq<Item>, pending: map<Key, OperationId>)
    ensures forall b :: b in ButtonsOf(items, pending) ==> b.key != Create && ReferralOf(b.key) in Ids(items)
    ensures forall id :: id in Ids(items) ==> LinkButton(id, pending) in ButtonsOf(items, pending)
  {
    if items != [] {
      var n := |items| - 1;
      var last := ItemButtons(items[n], pending);
      ButtonsNameReferrals(items[..n], pending);
      ItemButtonsNameIt(items[n], pending);
      assert last[|last| - 1] == LinkButton(items[n].id, pending);
    }
  }

  /** Joining two lists of buttons. */
  lemma JoinedKeys(first: seq<Button>, second: seq<Button>)
    ensures NoDuplicateKeys(first + second)
        <==> NoDuplicateKeys(first) && NoDuplicateKeys(second)
             && forall a, b :: a in first && b in second ==> a.key != b.key
  {
    var all := first + second;
    assert forall i :: 0 <= i < |first| ==> all[i] == first[i];
    assert forall j :: 0 <= j < |second| ==> all[|first| + j] == second[j];
    if NoDuplicateKeys(all) {
      forall a, b | a in first && b in second ensures a.key != b.key {
        var i :| 0 <= i < |first| && first[i] == a;
        var j :| 0 <= j < |second| && second[j] == b;
        assert all[i].key != all[|first| + j].key;
      }
      assert NoDuplicateKeys(second) by {
        forall i, j | 0 <= i < j < |second| ensures second[i].key != second[j].key {
          assert all[|first| + i].key != all[|first| + j].key;
        }
      }
    }
  }

  /** A rendered list has no two buttons with the same key exactly when it names no referral twice. */
  lemma {:induction false} DistinctReferralsDistinctKeys(items: seq<Item>, pending: map<Key, OperationId>)
    ensures NoDuplicateKeys(ButtonsOf(items, pending)) <==> DistinctReferrals(items)
  {
    if items != [] {
      var n := |items| - 1;
      DistinctReferralsDistinctKeys(items[..n], pending);
      DistinctIds(items);
      KeysClash(items[..n], items[n], pending);
    }
  }

  lemma DistinctIds(items: seq<Item>)
    requires items != []
    ensures DistinctReferrals(items)
        <==> DistinctReferrals(items[..|items| - 1]) && items[|items| - 1].id !in Ids(items[..|items| - 1])
  {
    var n := |items| - 1;
    var init := items[..n];
    IdsAre(init, items[n].id);
    assert forall i :: 0 <= i < n ==> init[i] == items[i];
  }

  lemma KeysClash(init: seq<Item>, last: Item, pending: map<Key, OperationId>)
    ensures NoDuplicateKeys(ButtonsOf(init, pending) + ItemButtons(last, pending))
        <==> NoDuplicateKeys(ButtonsOf(init, pending)) && last.id !in Ids(init)
  {
    var first, second := ButtonsOf(init, pending), ItemButtons(last, pending);
    ButtonsNameReferrals(init, pending);
    ItemButtonsNameIt(last, pending);
    JoinedKeys(first, second);
    if last.id in Ids(init) {
      var a, b := LinkButton(last.id, pending), second[|second| - 1];
      assert a in first && b in second && a.key == b.key;
    }
  }

  ghost predicate ExactControls(p: Page) {
    forall b :: b in p.buttons ==> (b.disabled <==> b.key in p.pendingControls)
  }

  /** Pressing a free button keeps every button exact if and only if no other button shares its key. */
  lemma PressKeepsExactIff(p: Page, i: nat, op: OperationId)
    requires i < |p.buttons| && ExactControls(p) && p.buttons[i].key !in p.pendingControls
    ensures ExactControls(Press(p, i, op))
        <==> forall j :: 0 <= j < |p.buttons| && j != i ==> p.buttons[j].key != p.buttons[i].key
  {
    var q := Press(p, i, op);
    var key := p.buttons[i].key;
    assert q.buttons[i] == Button(key, true);
    assert forall j :: 0 <= j < |p.buttons| && j != i ==> q.buttons[j] == p.buttons[j] && p.buttons[j] in p.buttons;
    if j :| 0 <= j < |p.buttons| && j != i && p.buttons[j].key == key {
      assert q.buttons[j] in q.buttons && !q.buttons[j].disabled;
    }
  }

  /** A list that names a referral twice reaches the screen: one of its two link buttons stays
      enabled while their key is pending. */
  lemma TwiceListedReferralKeepsAFreeButton() returns (events: seq<Event>, b: Button)
    ensures CanRun(START, events)
    ensures
      var p := After(START, events).page;
      b in p.buttons && !b.disabled && b.key in p.pendingControls
  {
    hide Inv, CheckSession, Respond, Decode, PressButton;
    var item := Item("1", Final, "");
    var body := BodyArrived(1, 0, Items([item, item], false));
    var s1 := Next(START, SessionAnswered(Authenticated));
    FirstRead();
    var s2 := Next(s1, ResponseArrived(1, true));
    var s3 := Next(s2, body);
    TwiceListed(s2, item);
    PressedTwin(s3);
    b := Button(Link("1"), false);
    ThenOne(START, [], SessionAnswered(Authenticated));
    events := [] + [SessionAnswered(Authenticated)];
    ThenOne(START, events, ResponseArrived(1, true));
    events := events + [ResponseArrived(1, true)];
    ThenOne(START, events, body);
    events := events + [body];
    ThenOne(START, events, ButtonPressed(0, "7"));
    events := events + [ButtonPressed(0, "7")];
  }

  lemma FirstRead()
    ensures CheckSession(START, Authenticated).pendingReads == map[1 := Read(0, Nobody, Fetching, 0)]
    ensures
      var s := Respond(CheckSession(START, Authenticated), 1, true);
      && s.pendingReads == map[1 := Read(0, Nobody, Decoding, 0)]
      && Current(s.page, 0, 1) && s.page.pendingControls == map[]
  {
  }

  lemma TwiceListed(s: State, item: Item)
    requires s.pendingReads == map[1 := Read(0, Nobody, Decoding, 0)]
    requires Current(s.page, 0, 1) && s.page.pendingControls == map[] && item.status == Final
    ensures
      var p := Decode(s, 1, 0, Items([item, item], false)).page;
      p.pendingControls == map[] && p.buttons == [Button(Link(item.id), false), Button(Link(item.id), false)]
  {
    var link := Button(Link(item.id), false);
    assert ButtonsOf([item, item], map[]) == [link, link] by {
      assert [item, item][..1] == [item] && [item][..0] == [];
      assert ButtonsOf([item], map[]) == [link];
    }
  }

  lemma PressedTwin(s: State)
    requires s.page.pendingControls == map[]
    requires s.page.buttons == [Button(Link("1"), false), Button(Link("1"), false)]
    ensures
      var p := PressButton(s, 0, "7").page;
      Button(Link("1"), false) in p.buttons && Link("1") in p.pendingControls
  {
    assert PressButton(s, 0, "7").page.buttons[1] == Button(Link("1"), false);
  }

  // ---------------------------------------------------------------- the lead fields

  lemma {:induction false} DraftsOfRebased(forms: seq<Form>, id: string, lead: string)
    ensures DraftsOf(Rebased(forms, id, lead)).Keys == DraftsOf(forms).Keys
    ensures forall k :: k in DraftsOf(forms) ==>
              DraftsOf(Rebased(forms, id, lead))[k]
                == if k == id then DraftsOf(forms)[k].(baseline := lead) else DraftsOf(forms)[k]
  {
    DraftsName(forms);
    if forms != [] {
      var n := |forms| - 1;
      DraftsOfRebased(forms[..n], id, lead);
      assert Rebased(forms, id, lead)[..n] == Rebased(forms[..n], id, lead);
    }
  }

  lemma {:induction false} DraftsName(forms: seq<Form>)
    ensures forall k :: k in DraftsOf(forms) ==> DraftsOf(forms)[k].referral == k && DraftsOf(forms)[k] in forms
    ensures forall i :: 0 <= i < |forms| ==> forms[i].referral in DraftsOf(forms)
  {
    if forms != [] {
      DraftsName(forms[..|forms| - 1]);
    }
  }

  /** After a confirmed link the next list decides what the field shows: a field that still holds
      the linked number, written as the page writes it, follows the server; any other text stays. */
  lemma LinkedFieldFollowsServer(p: Page, op: OperationId, id: string, lead: string, items: seq<Item>, i: nat)
    requires Link(id) in p.pendingControls && p.pendingControls[Link(id)] == op
    requires i < |items| && items[i].id == id && id in DraftsOf(p.forms)
    ensures
      var q := IssueRead(MutationConfirmed(p, op, Link(id), lead));
      var text := DraftsOf(p.forms)[id].value;
      Render(q, items).forms[i] == Form(id, if text == lead then items[i].lead else text, items[i].lead)
  {
    DraftsOfRebased(p.forms, id, lead);
  }

  /** A number field reads this text as 7. */
  predicate ReadsAsSeven(text: string) {
    |text| > 0 && text[|text| - 1] == '7' && forall i :: 0 <= i < |text| - 1 ==> text[i] == '0'
  }

  /** Referral 1 is listed, `typed` is typed into its field and linked as lead 7, the field is changed to
      `text` while the request is under way, and the list that follows names lead 8. */
  function LinkRun(typed: string, text: string): seq<Event> {
    [SessionAnswered(Authenticated), ResponseArrived(1, true),
     BodyArrived(1, 0, Items([Item("1", Final, "")], false)),
     FieldEdited(0, typed), ButtonPressed(0, "7"), FieldEdited(0, text),
     MutationCommitted(0), MutationAnswered(0, true), ResponseArrived(3, true),
     BodyArrived(3, 1, Items([Item("1", Final, "8")], false))]
  }

  /** In every such run the field follows the list if and only if the text that it held when the answer
      came is "7", the number as the page writes it. */
  lemma LinkedFieldRun(typed: string, text: string)
    requires ReadsAsSeven(typed)
    ensures CanRun(START, LinkRun(typed, text))
    ensures
      After(START, LinkRun(typed, text)).page.forms == [Form("1", if text == "7" then "8" else text, "8")]
  {
    hide CanRun, After, Next, ListsOne;
    var listed := ListOfOne();
    var edited := Typing(After(START, listed), typed);
    RunsCompose(START, listed, edited);
    var linked := Linking(After(START, listed + edited), typed, text);
    RunsCompose(START, listed + edited, linked);
    assert LinkRun(typed, text) == listed + edited + linked;
  }

  /** A number typed with leading zeros is linked, and yet its field does not follow the server. */
  lemma PaddedLeadStays()
    ensures CanRun(START, LinkRun("007", "007"))
    ensures After(START, LinkRun("007", "007")).page.forms == [Form("1", "007", "8")]
  {
    LinkedFieldRun("007", "007");
  }

  /** The page lists referral 1 without a lead, and nothing is under way. */
  predicate ListsOne(s: State, value: string) {
    && s.page.forms == [Form("1", value, "")] && s.page.buttons == [Button(Link("1"), false)]
    && s.page.pendingControls == map[] && s.page.confirmed == {} && s.page.mutationGeneration == 0
    && s.page.readGeneration == 1 && s.requests == map[] && s.nextOperation == 0 && s.log == []
  }

  lemma ListOfOne() returns (events: seq<Event>)
    ensures CanRun(START, events) && ListsOne(After(START, events), "")
    ensures events == LinkRun("", "")[..3]
  {
    hide CheckSession, Respond, Decode;
    var body := BodyArrived(1, 0, Items([Item("1", Final, "")], false));
    FirstRead();
    var s := Next(Next(START, SessionAnswered(Authenticated)), ResponseArrived(1, true));
    FirstState();
    ShowsOne(s);
    ThenOne(START, [], SessionAnswered(Authenticated));
    events := [] + [SessionAnswered(Authenticated)];
    ThenOne(START, events, ResponseArrived(1, true));
    events := events + [ResponseArrived(1, true)];
    ThenOne(START, events, body);
    events := events + [body];
  }

  lemma FirstState()
    ensures
      var s := Respond(CheckSession(START, Authenticated), 1, true);
      && s.page.forms == [] && s.page.confirmed == {} && s.page.mutationGeneration == 0 && s.page.readGeneration == 1
      && s.requests == map[] && s.nextOperation == 0 && s.log == []
  {
  }

  lemma ShowsOne(s: State)
    requires s.pendingReads == map[1 := Read(0, Nobody, Decoding, 0)]
    requires s.page.mutationGeneration == 0 && s.page.readGeneration == 1 && s.page.pendingControls == map[]
    requires s.page.forms == [] && s.page.confirmed == {} && s.requests == map[] && s.nextOperation == 0 && s.log == []
    ensures ListsOne(Decode(s, 1, 0, Items([Item("1", Final, "")], false)), "")
  {
    var item := Item("1", Final, "");
    assert ButtonsOf([item], map[]) == [Button(Link("1"), false)] by {
      assert [item][..0] == [];
    }
  }

  lemma Typing(s: State, text: string) returns (events: seq<Event>)
    requires ListsOne(s, "")
    ensures CanRun(s, events) && ListsOne(After(s, events), text) && events == [FieldEdited(0, text)]
  {
    ThenOne(s, [], FieldEdited(0, text));
    events := [] + [FieldEdited(0, text)];
  }

  lemma Linking(s: State, typed: string, text: string) returns (events: seq<Event>)
    requires ListsOne(s, typed)
    ensures CanRun(s, events) && events == LinkRun(typed, text)[4..]
    ensures After(s, events).page.forms == [Form("1", if text == "7" then "8" else text, "8")]
  {
    hide CanRun, After, Next, ListsOne, LinkCommitted;
    var sent := Sending(s, typed, text);
    var answered := Answering(After(s, sent), text);
    RunsCompose(s, sent, answered);
    events := sent + answered;
  }

  /** The link of referral 1 to lead 7 was carried out, its answer is awaited, and the field holds `text`. */
  predicate LinkCommitted(s: State, text: string) {
    && s.requests == map[0 := Request(Link("1"), "7")] && s.log == [0]
    && s.page.pendingControls == map[Link("1") := 0] && s.page.confirmed == {}
    && s.page.mutationGeneration == 1 && s.page.readGeneration == 2 && s.page.forms == [Form("1", text, "")]
  }

  lemma Sending(s: State, typed: string, text: string) returns (events: seq<Event>)
    requires ListsOne(s, typed)
    ensures events == [ButtonPressed(0, "7"), FieldEdited(0, text), MutationCommitted(0)]
    ensures CanRun(s, events) && LinkCommitted(After(s, events), text)
  {
    hide PressButton, ListsOne;
    Pressed(s, typed);
    ThenOne(s, [], ButtonPressed(0, "7"));
    events := [] + [ButtonPressed(0, "7")];
    ThenOne(s, events, FieldEdited(0, text));
    events := events + [FieldEdited(0, text)];
    ThenOne(s, events, MutationCommitted(0));
    events := events + [MutationCommitted(0)];
  }

  lemma Answering(s: State, text: string) returns (events: seq<Event>)
    requires LinkCommitted(s, text)
    ensures events == [MutationAnswered(0, true), ResponseArrived(3, true),
                       BodyArrived(3, 1, Items([Item("1", Final, "8")], false))]
    ensures CanRun(s, events)
    ensures After(s, events).page.forms == [Form("1", if text == "7" then "8" else text, "8")]
  {
    hide Accept, Respond, Decode;
    Confirmed(s, text);
    Answered(Accept(s, 0), text);
    var body := BodyArrived(3, 1, Items([Item("1", Final, "8")], false));
    ThenOne(s, [], MutationAnswered(0, true));
    events := [] + [MutationAnswered(0, true)];
    ThenOne(s, events, ResponseArrived(3, true));
    events := events + [ResponseArrived(3, true)];
    ThenOne(s, events, body);
    events := events + [body];
  }

  lemma Pressed(s: State, text: string)
    requires ListsOne(s, text)
    ensures |s.page.buttons| == 1
    ensures
      var t := PressButton(s, 0, "7");
      && t.requests == map[0 := Request(Link("1"), "7")] && t.nextOperation == 1 && t.log == []
      && t.page.pendingControls == map[Link("1") := 0] && t.page.confirmed == {}
      && t.page.mutationGeneration == 1 && t.page.readGeneration == 2 && t.page.forms == [Form("1", text, "")]
  {
  }

  lemma Confirmed(s: State, text: string)
    requires LinkCommitted(s, text)
    ensures
      var t := Accept(s, 0);
      && 3 in t.pendingReads && t.pendingReads[3] == Read(2, Handler(0, Link("1")), Fetching, 1)
      && Current(t.page, 2, 3) && t.page.pendingControls == map[Link("1") := 0] && t.page.confirmed == {0}
      && t.page.forms == [Form("1", text, "7")] && t.log == [0]
  {
  }

  lemma Answered(s: State, text: string)
    requires 3 in s.pendingReads && s.pendingReads[3] == Read(2, Handler(0, Link("1")), Fetching, 1)
    requires Current(s.page, 2, 3) && s.page.pendingControls == map[Link("1") := 0] && s.page.confirmed == {0}
    requires s.page.forms == [Form("1", text, "7")]
    ensures
      var t := Respond(s, 3, true);
      && t == s.(pendingReads := s.pendingReads[3 := Read(2, Handler(0, Link("1")), Decoding, 1)])
      && Decode(t, 3, 1, Items([Item("1", Final, "8")], false)).page.forms
         == [Form("1", if text == "7" then "8" else text, "8")]
  {
    var forms := s.page.forms;
    assert forms[..0] == [];
    assert DraftsOf(forms) == map["1" := Form("1", text, "7")];
  }

  /** The field of referral `id` holds `text`, which the page did not put there. */
  predicate EditedField(p: Page, id: string, text: string) {
    id in DraftsOf(p.forms) && DraftsOf(p.forms)[id].value == text && DraftsOf(p.forms)[id].baseline != text
  }

  /** An event that neither edits the field of `id`, nor confirms a link to the number in it, nor
      lists `id` with that number or drops `id` from the list. */
  predicate Spares(s: State, e: Event, id: string, text: string) {
    match e
    case FieldEdited(i, _) => i < |s.page.forms| ==> s.page.forms[i].referral != id
    case MutationAnswered(op, ok) =>
      ok && op in s.requests && s.requests[op].key == Link(id) ==> s.requests[op].lead != text
    case BodyArrived(_, _, Items(items, _)) =>
      && (exists i :: 0 <= i < |items| && items[i].id == id)
      && (forall i :: 0 <= i < |items| && items[i].id == id ==> items[i].lead != text)
    case _ => true
  }

  ghost predicate AllSpare(s: State, events: seq<Event>, id: string, text: string)
    requires CanRun(s, events)
    decreases |events|
  {
    events == [] || (Spares(s, events[0], id, text) && AllSpare(Next(s, events[0]), events[1..], id, text))
  }

  lemma {:induction false} EditElsewhere(forms: seq<Form>, i: nat, value: string, id: string)
    requires i < |forms| && forms[i].referral != id && id in DraftsOf(forms)
    ensures
      var edited := forms[i := forms[i].(value := value)];
      id in DraftsOf(edited) && DraftsOf(edited)[id] == DraftsOf(forms)[id]
  {
    var n := |forms| - 1;
    var edited := forms[i := forms[i].(value := value)];
    if i == n {
      assert edited[..n] == forms[..n];
    } else {
      assert edited[..n] == forms[..n][i := forms[..n][i].(value := value)];
      if forms[n].referral != id {
        EditElsewhere(forms[..n], i, value, id);
      }
    }
  }

  /** The field that a rendered list gives an edited referral, wherever it is listed. */
  lemma RenderKeepsEdit(p: Page, items: seq<Item>, id: string, text: string)
    requires EditedField(p, id, text)
    requires exists i :: 0 <= i < |items| && items[i].id == id
    requires forall i :: 0 <= i < |items| && items[i].id == id ==> items[i].lead != text
    ensures EditedField(Render(p, items), id, text)
  {
    var q := Render(p, items);
    DraftsName(q.forms);
    var i :| 0 <= i < |items| && items[i].id == id;
    assert q.forms[i].referral == id;
    var form := DraftsOf(q.forms)[id];
    var j :| 0 <= j < |q.forms| && q.forms[j] == form;
    assert q.forms[j] == FormFor(p, items[j], DraftsOf(p.forms));
  }

  lemma AcceptKeepsEdit(s: State, op: OperationId, id: string, text: string)
    requires op in s.requests && EditedField(s.page, id, text)
    requires s.requests[op].key == Link(id) ==> s.requests[op].lead != text
    ensures EditedField(Accept(s, op).page, id, text)
  {
    var key := s.requests[op].key;
    if key.Link? {
      DraftsOfRebased(s.page.forms, key.referral, s.requests[op].lead);
    }
  }

  lemma RefuseKeepsForms(s: State, op: OperationId)
    requires op in s.requests
    ensures Refuse(s, op).page.forms == s.page.forms
  {
  }

  lemma SettleKeepsEdit(s: State, read: nat, id: string, text: string)
    requires read in s.pendingReads && EditedField(s.page, id, text)
    ensures EditedField(Settle(s, read).page, id, text)
  {
    SettleTouches(s, read);
    hide Settle;
  }

  lemma DecodeKeepsEdit(s: State, read: nat, version: nat, payload: Payload, id: string, text: string)
    requires read in s.pendingReads && EditedField(s.page, id, text)
    requires Spares(s, BodyArrived(read, version, payload), id, text)
    ensures EditedField(Decode(s, read, version, payload).page, id, text)
  {
    var u := Shown(s, version, payload);
    assert EditedField(u.page, id, text) by {
      if payload.Items? {
        RenderKeepsEdit(s.page, payload.items, id, text);
      }
    }
    SettleKeepsEdit(s, read, id, text);
    SettleKeepsEdit(u, read, id, text);
    hide Settle, Shown, EditedField;
  }

  lemma RespondKeepsEdit(s: State, read: nat, ok: bool, id: string, text: string)
    requires read in s.pendingReads && EditedField(s.page, id, text)
    ensures EditedField(Respond(s, read, ok).page, id, text)
  {
    SettleKeepsEdit(s, read, id, text);
    SettleKeepsEdit(s.(page := OfferRecovery(s.page, false)), read, id, text);
    hide Settle;
  }

  lemma BeginningKeepsForms(s: State, i: nat, lead: string)
    ensures SubmitForm(s).page.forms == s.page.forms
    ensures i < |s.page.buttons| ==> PressButton(s, i, lead).page.forms == s.page.forms
  {
  }

  lemma AskingKeepsForms(s: State, session: Session)
    ensures s.page.recovery.Offer? ==> Retry(s).page.forms == s.page.forms
    ensures s.checking > 0 ==> CheckSession(s, session).page.forms == s.page.forms
  {
  }

  lemma StepKeepsEdit(s: State, e: Event, id: string, text: string)
    requires Possible(s, e) && Spares(s, e, id, text) && EditedField(s.page, id, text)
    ensures EditedField(Next(s, e).page, id, text)
  {
    hide SubmitForm, PressButton, Retry, CheckSession, Accept, Refuse, Respond, Decode;
    match e
    case FieldEdited(i, value) => EditElsewhere(s.page.forms, i, value, id);
    case MutationAnswered(op, ok) =>
      if ok { AcceptKeepsEdit(s, op, id, text); } else { RefuseKeepsForms(s, op); }
    case ResponseArrived(read, ok) => RespondKeepsEdit(s, read, ok, id, text);
    case BodyArrived(read, version, payload) => DecodeKeepsEdit(s, read, version, payload, id, text);
    case CreateSubmitted => BeginningKeepsForms(s, 0, "");
    case ButtonPressed(i, lead) => BeginningKeepsForms(s, i, lead);
    case RetryClicked => AskingKeepsForms(s, Unavailable);
    case SessionAnswered(session) => AskingKeepsForms(s, session);
    case _ =>
  }

  /** An edited field keeps its text over every run that spares it, through any number of
      re-renders and of mutations that succeed or fail. */
  lemma {:induction false} EditedFieldSurvives(s: State, events: seq<Event>, id: string, text: string)
    requires CanRun(s, events) && AllSpare(s, events, id, text) && EditedField(s.page, id, text)
    ensures EditedField(After(s, events).page, id, text)
    decreases |events|
  {
    if events != [] {
      StepKeepsEdit(s, events[0], id, text);
      EditedFieldSurvives(Next(s, events[0]), events[1..], id, text);
    }
  }

  // ---------------------------------------------------------------- messages

  /** A message that a mutation wrote stays only while no newer mutation was begun on its place. */
  lemma MessagesBelongToTheLatest(events: seq<Event>, target: Target)
    requires CanRun(START, events) && target in After(START, events).page.authors
    ensures
      var p := After(START, events).page;
      target in p.feedbackOwners && p.feedbackOwners[target] == p.authors[target]
  {
    Reachable(events);
  }
}

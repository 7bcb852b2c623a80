/** The referral list as a protocol between the page, the network and the server.

    A `State` is a page together with every request that is under way and with the server's log of
    the mutations it has carried out.  An adversary chooses which event happens next: a user's
    action, a commit at the server, or the outcome of any request.  A list response carries the
    version (the length of the log) that it shows; all that is assumed of it is that it is no older
    than the read that asked for it. */
module ReferralProtocol {
  import opened Options
  import opened ReferralPage

  datatype Phase = Fetching | Decoding

  /** The mutation, if any, whose handler waits for a read to settle. */
  datatype Owner = Nobody | Handler(op: OperationId, key: Key)

  /** A list read under way; `issued` is the server's version when it was issued. */
  datatype Read = Read(generation: nat, owner: Owner, phase: Phase, issued: nat)

  /** A mutation request under way; `lead` is the number that a link request sends, as text. */
  datatype Request = Request(key: Key, lead: string)

  datatype State = State(
    page: Page,
    requests: map<OperationId, Request>,
    pendingReads: map<nat, Read>,
    checking: nat,
    leaving: bool,
    nextOperation: OperationId,
    log: seq<OperationId>,
    shown: Option<nat>)

  datatype Session = Authenticated | AuthRequired | Unavailable

  datatype Event =
    | CreateSubmitted
    | ButtonPressed(i: nat, lead: string)
    | FormRejected(target: Target)
    | FieldEdited(i: nat, value: string)
    | MutationCommitted(op: OperationId)
    | MutationAnswered(op: OperationId, ok: bool)
    | ResponseArrived(read: nat, ok: bool)
    | BodyArrived(read: nat, version: nat, payload: Payload)
    | RetryClicked
    | SessionAnswered(session: Session)

  /** The page has just been opened: its start-up is checking the session. */
  const START := State(FRESH_PAGE, map[], map[], 1, false, 0, [], None)

  // ---------------------------------------------------------------- steps

  /** A mutation is answered with success only after the server carried it out, and it is carried
      out at most once, possibly long after its request was given up. */
  ghost predicate Possible(s: State, e: Event) {
    match e
    case CreateSubmitted => true
    case ButtonPressed(i, _) => i < |s.page.buttons|
    case FormRejected(_) => true
    case FieldEdited(i, _) => i < |s.page.forms|
    case MutationCommitted(op) => op < s.nextOperation && op !in s.log
    case MutationAnswered(op, ok) => op in s.requests && (ok ==> op in s.log)
    case ResponseArrived(read, _) => read in s.pendingReads && s.pendingReads[read].phase == Fetching
    case BodyArrived(read, version, _) =>
      && read in s.pendingReads && s.pendingReads[read].phase == Decoding
      && s.pendingReads[read].issued <= version <= |s.log|
    case RetryClicked => s.page.recovery.Offer? && !s.page.recovery.disabled
    case SessionAnswered(_) => s.checking > 0
  }

  function WithRead(s: State, p: Page, owner: Owner): State {
    var q := IssueRead(p);
    var read := Read(q.mutationGeneration, owner, Fetching, |s.log|);
    s.(page := q, pendingReads := s.pendingReads[q.readGeneration := read])
  }

  /** Read `read` has settled, and the handler that waited for it runs to its end. */
  function Settle(s: State, read: nat): State
    requires read in s.pendingReads
  {
    var t := s.(pendingReads := s.pendingReads - {read});
    match s.pendingReads[read].owner
    case Nobody => t
    case Handler(op, key) => t.(page := ReleaseButton(s.page, op, key))
  }

  function Issued(s: State, p: Page, key: Key, lead: string): State {
    if key in s.page.pendingControls then s.(page := p)
    else s.(page := p, requests := s.requests[s.nextOperation := Request(key, lead)],
            nextOperation := s.nextOperation + 1)
  }

  function SubmitForm(s: State): State {
    Issued(s, SubmitCreate(s.page, s.nextOperation), Create, "")
  }

  function PressButton(s: State, i: nat, lead: string): State
    requires i < |s.page.buttons|
  {
    Issued(s, Press(s.page, i, s.nextOperation), s.page.buttons[i].key, lead)
  }

  function Reject(s: State, target: Target): State {
    s.(page := FormRefused(s.page, target))
  }

  function Edit(s: State, i: nat, value: string): State
    requires i < |s.page.forms|
  {
    s.(page := FieldSet(s.page, i, value))
  }

  function Commit(s: State, op: OperationId): State {
    s.(log := s.log + [op])
  }

  function Refuse(s: State, op: OperationId): State
    requires op in s.requests
  {
    s.(page := MutationFailed(s.page, op, s.requests[op].key), requests := s.requests - {op})
  }

  function Accept(s: State, op: OperationId): State
    requires op in s.requests
  {
    var request := s.requests[op];
    WithRead(s.(requests := s.requests - {op}),
             MutationConfirmed(s.page, op, request.key, request.lead), Handler(op, request.key))
  }

  function Respond(s: State, read: nat, ok: bool): State
    requires read in s.pendingReads
  {
    if !Current(s.page, s.pendingReads[read].generation, read) then Settle(s, read)
    else if !ok then Settle(s.(page := OfferRecovery(s.page, false)), read)
    else s.(pendingReads := s.pendingReads[read := s.pendingReads[read].(phase := Decoding)])
  }

  function Shown(s: State, version: nat, payload: Payload): State {
    s.(page := Show(s.page, payload), shown := if payload.Malformed? then s.shown else Some(version))
  }

  function Decode(s: State, read: nat, version: nat, payload: Payload): State
    requires read in s.pendingReads
  {
    Settle(if Current(s.page, s.pendingReads[read].generation, read) then Shown(s, version, payload) else s, read)
  }

  function Retry(s: State): State
    requires s.page.recovery.Offer?
  {
    if s.page.recovery.authFailure
    then s.(page := s.page.(recovery := Offer(true, true)), checking := s.checking + 1)
    else WithRead(s, s.page, Nobody)
  }

  function CheckSession(s: State, session: Session): State
    requires s.checking > 0
  {
    var t := s.(checking := s.checking - 1);
    match session
    case Authenticated => WithRead(t, s.page, Nobody)
    case AuthRequired => t.(leaving := true)
    case Unavailable => t.(page := OfferRecovery(s.page, true))
  }

  ghost function Next(s: State, e: Event): State
    requires Possible(s, e)
  {
    match e
    case CreateSubmitted => SubmitForm(s)
    case ButtonPressed(i, lead) => PressButton(s, i, lead)
    case FormRejected(target) => Reject(s, target)
    case FieldEdited(i, value) => Edit(s, i, value)
    case MutationCommitted(op) => Commit(s, op)
    case MutationAnswered(op, ok) => if ok then Accept(s, op) else Refuse(s, op)
    case ResponseArrived(read, ok) => Respond(s, read, ok)
    case BodyArrived(read, version, payload) => Decode(s, read, version, payload)
    case RetryClicked => Retry(s)
    case SessionAnswered(session) => CheckSession(s, session)
  }

  ghost predicate CanRun(s: State, events: seq<Event>)
    decreases |events|
  {
    events == [] || (Possible(s, events[0]) && CanRun(Next(s, events[0]), events[1..]))
  }

  ghost function After(s: State, events: seq<Event>): State
    requires CanRun(s, events)
    decreases |events|
  {
    if events == [] then s else After(Next(s, events[0]), events[1..])
  }

  // ---------------------------------------------------------------- invariants

  /** A list of version `v` shows all of `ops`. */
  predicate Reflects(log: seq<OperationId>, v: nat, ops: set<OperationId>) {
    v <= |log| && forall op :: op in ops ==> op in log[..v]
  }

  predicate ReadCurrent(s: State, read: nat) {
    read in s.pendingReads && Current(s.page, s.pendingReads[read].generation, read)
  }

  predicate CurrentReadInFlight(s: State) {
    ReadCurrent(s, s.page.readGeneration)
  }

  predicate RecoveryOffered(s: State) {
    s.page.recovery.Offer? && !s.page.recovery.disabled
  }

  predicate ReadsNumbered(s: State) {
    forall n :: n in s.pendingReads ==>
      n <= s.page.readGeneration && s.pendingReads[n].generation <= s.page.mutationGeneration
  }

  /** Every request under way holds its key, and so no two of them hold the same one. */
  predicate RequestsHoldKeys(s: State) {
    && (forall op :: op in s.requests ==>
          op < s.nextOperation && op !in s.page.confirmed
          && s.requests[op].key in s.page.pendingControls && s.page.pendingControls[s.requests[op].key] == op)
    && (forall n :: n in s.pendingReads && s.pendingReads[n].owner.Handler? ==>
          s.pendingReads[n].owner.op in s.page.confirmed)
    && (forall op :: op in s.page.confirmed ==> op < s.nextOperation && op in s.log)
    && (forall op :: op in s.log ==> op < s.nextOperation)
  }

  predicate CreateReadInFlight(s: State, op: OperationId) {
    exists n :: n in s.pendingReads && s.pendingReads[n].owner == Handler(op, Create)
  }

  /** A key is held by a request under way or by a confirmed mutation that the list must still show. */
  predicate KeysHeldForAReason(s: State) {
    forall key :: key in s.page.pendingControls ==>
      var op := s.page.pendingControls[key];
      if op in s.page.confirmed then s.page.listNeedsRefresh && (key == Create ==> CreateReadInFlight(s, op))
      else op in s.requests && s.requests[op].key == key
  }

  predicate NoDuplicateKeys(buttons: seq<Button>) {
    forall i, j :: 0 <= i < j < |buttons| ==> buttons[i].key != buttons[j].key
  }

  /** A disabled button has a pending key; the converse holds where no two buttons share a key. */
  predicate ButtonsFollowKeys(p: Page) {
    && (p.createDisabled <==> Create in p.pendingControls)
    && (forall b :: b in p.buttons && b.disabled ==> b.key in p.pendingControls)
    && (NoDuplicateKeys(p.buttons) ==> forall b :: b in p.buttons && b.key in p.pendingControls ==> b.disabled)
    && (forall b :: b in p.buttons ==> b.key != Create)
  }

  predicate RefreshUnderWay(s: State) {
    && s.checking <= 1
    && (s.checking == 1 ==> s.page.recovery != Offer(true, false))
    && (s.page.listNeedsRefresh ==> s.leaving || s.checking > 0 || CurrentReadInFlight(s) || RecoveryOffered(s))
  }

  predicate ListFresh(s: State) {
    && (forall n :: n in s.pendingReads ==> s.pendingReads[n].issued <= |s.log|)
    && (forall n :: n in s.pendingReads && s.pendingReads[n].generation == s.page.mutationGeneration ==>
          Reflects(s.log, s.pendingReads[n].issued, s.page.confirmed))
    && (!s.page.listNeedsRefresh ==> s.shown.Some? && Reflects(s.log, s.shown.value, s.page.confirmed))
  }

  /** A message about a mutation is only ever about the last one begun on its place. */
  predicate MessagesOwned(p: Page) {
    forall t :: t in p.authors ==> t in p.feedbackOwners && p.feedbackOwners[t] == p.authors[t]
  }

  predicate KeysInOrder(s: State) {
    ReadsNumbered(s) && RequestsHoldKeys(s) && KeysHeldForAReason(s)
  }

  predicate ListInOrder(s: State) {
    RefreshUnderWay(s) && ListFresh(s)
  }

  predicate Inv(s: State) {
    KeysInOrder(s) && ListInOrder(s) && ButtonsFollowKeys(s.page) && MessagesOwned(s.page)
  }

  // ---------------------------------------------------------------- every step keeps the invariants

  lemma LogGrows(log: seq<OperationId>, op: OperationId, v: nat, ops: set<OperationId>)
    requires Reflects(log, v, ops)
    ensures Reflects(log + [op], v, ops)
  {
    assert (log + [op])[..v] == log[..v];
  }

  lemma WholeLogReflects(log: seq<OperationId>, ops: set<OperationId>)
    requires forall op :: op in ops ==> op in log
    ensures Reflects(log, |log|, ops)
  {
    assert log[..|log|] == log;
  }

  /** Freed keys lose their entry, and every button that has one of them is enabled. */
  lemma FreedButtonsFollow(p: Page, keys: set<Key>)
    requires ButtonsFollowKeys(p)
    ensures ButtonsFollowKeys(EnableKeys(p.(pendingControls := p.pendingControls - keys), keys))
  {
    var q := EnableKeys(p.(pendingControls := p.pendingControls - keys), keys);
    assert forall j :: 0 <= j < |p.buttons| ==> q.buttons[j].key == p.buttons[j].key;
    if NoDuplicateKeys(q.buttons) {
      assert NoDuplicateKeys(p.buttons) by {
        forall i, j | 0 <= i < j < |p.buttons| ensures p.buttons[i].key != p.buttons[j].key {
          assert q.buttons[i].key != q.buttons[j].key;
        }
      }
    }
  }

  lemma ReleasedButtonsFollow(p: Page, op: OperationId, key: Key)
    requires ButtonsFollowKeys(p)
    ensures ButtonsFollowKeys(ReleaseButton(p, op, key))
  {
    FreedButtonsFollow(p, {key});
    if key !in p.pendingControls {
      assert p.pendingControls - {key} == p.pendingControls;
    }
  }

  lemma PressedButtonsFollow(p: Page, i: nat, op: OperationId)
    requires ButtonsFollowKeys(p) && i < |p.buttons|
    ensures ButtonsFollowKeys(Press(p, i, op))
  {
    var key := p.buttons[i].key;
    var q := Press(p, i, op);
    if key !in p.pendingControls && NoDuplicateKeys(q.buttons) {
      assert NoDuplicateKeys(p.buttons) by {
        forall i, j | 0 <= i < j < |p.buttons| ensures p.buttons[i].key != p.buttons[j].key {
          assert q.buttons[i].key != q.buttons[j].key;
        }
      }
      forall j | 0 <= j < |q.buttons| && q.buttons[j].key in q.pendingControls ensures q.buttons[j].disabled {
        if j != i {
          assert q.buttons[i].key == key;
          assert q.buttons[j] == p.buttons[j] && p.buttons[j] in p.buttons;
          assert q.buttons[j].key != key;
        }
      }
    }
  }

  /** The buttons of a list that has just been rendered are disabled exactly when their key is pending. */
  lemma {:induction false} RenderedButtonsExact(items: seq<Item>, pending: map<Key, OperationId>)
    ensures forall b :: b in ButtonsOf(items, pending) ==> (b.disabled <==> b.key in pending) && b.key != Create
  {
    if items != [] {
      RenderedButtonsExact(items[..|items| - 1], pending);
    }
  }

  /** `q` is `p` after mutation `op` was begun, whatever its buttons are now. */
  predicate Begun(p: Page, q: Page, key: Key, op: OperationId) {
    q == Page(p.mutationGeneration + 1, p.readGeneration + 1, p.listNeedsRefresh, p.listHasLoaded,
              p.feedbackOwners[TargetOf(key) := op], p.authors[TargetOf(key) := op],
              p.pendingControls[key := op], p.confirmed,
              if p.listNeedsRefresh then Offer(false, false) else p.recovery,
              q.buttons, p.forms, q.createDisabled)
  }

  lemma BegunKeeps(s: State, q: Page, key: Key, lead: string)
    requires Inv(s) && key !in s.page.pendingControls
    requires ButtonsFollowKeys(q) && Begun(s.page, q, key, s.nextOperation)
    ensures Inv(Issued(s, q, key, lead))
  {
    hide ButtonsFollowKeys, RequestsHoldKeys, KeysHeldForAReason;
    BegunKeepsKeys(s, q, key, lead);
  }

  lemma BegunKeepsKeys(s: State, q: Page, key: Key, lead: string)
    requires KeysInOrder(s) && key !in s.page.pendingControls && Begun(s.page, q, key, s.nextOperation)
    ensures KeysInOrder(Issued(s, q, key, lead))
  {
    var t := Issued(s, q, key, lead);
    assert forall op :: CreateReadInFlight(s, op) ==> CreateReadInFlight(t, op);
  }

  lemma CreateKeeps(s: State)
    requires Inv(s)
    ensures Inv(SubmitForm(s))
  {
    if Create !in s.page.pendingControls {
      var q := SubmitCreate(s.page, s.nextOperation);
      BegunKeeps(s, q, Create, "");
    }
  }

  lemma PressKeeps(s: State, i: nat, lead: string)
    requires Inv(s) && i < |s.page.buttons|
    ensures Inv(PressButton(s, i, lead))
  {
    var key := s.page.buttons[i].key;
    if key !in s.page.pendingControls {
      var q := Press(s.page, i, s.nextOperation);
      PressedButtonsFollow(s.page, i, s.nextOperation);
      BegunKeeps(s, q, key, lead);
    }
  }

  lemma EditKeeps(s: State, i: nat, value: string)
    requires Inv(s) && i < |s.page.forms|
    ensures Inv(Edit(s, i, value))
  {
  }

  lemma RejectKeeps(s: State, target: Target)
    requires Inv(s)
    ensures Inv(Reject(s, target))
  {
  }

  lemma CommitKeeps(s: State, op: OperationId)
    requires Inv(s) && op < s.nextOperation && op !in s.log
    ensures Inv(Commit(s, op))
  {
    forall v: nat | Reflects(s.log, v, s.page.confirmed) ensures Reflects(s.log + [op], v, s.page.confirmed) {
      LogGrows(s.log, op, v, s.page.confirmed);
    }
  }

  /** What releasing a button leaves alone. */
  predicate SameButControls(p: Page, q: Page) {
    q == p.(pendingControls := q.pendingControls, buttons := q.buttons, createDisabled := q.createDisabled)
  }

  lemma ReleaseTouchesControls(p: Page, op: OperationId, key: Key)
    ensures
      var q := ReleaseButton(p, op, key);
      && SameButControls(p, q)
      && (q.pendingControls == p.pendingControls || q.pendingControls == p.pendingControls - {key})
      && (key in p.pendingControls && p.pendingControls[key] == op && (key == Create || op !in p.confirmed)
          ==> q.pendingControls == p.pendingControls - {key})
      && (key in p.pendingControls && (p.pendingControls[key] != op || (key != Create && op in p.confirmed))
          ==> q.pendingControls == p.pendingControls)
  {
    if key !in p.pendingControls {
      assert p.pendingControls - {key} == p.pendingControls;
    }
  }

  lemma OtherRequestsHoldOtherKeys(s: State, op: OperationId)
    requires RequestsHoldKeys(s) && op in s.requests
    ensures forall o :: o in s.requests && o != op ==> s.requests[o].key != s.requests[op].key
  {
  }

  lemma RefusedTouches(p: Page, op: OperationId, key: Key)
    requires op !in p.confirmed && key in p.pendingControls && p.pendingControls[key] == op
    ensures
      var q := MutationFailed(p, op, key);
      && (ButtonsFollowKeys(p) ==> ButtonsFollowKeys(q))
      && (MessagesOwned(p) ==> MessagesOwned(q))
      && q == p.(pendingControls := p.pendingControls - {key}, buttons := q.buttons,
                 createDisabled := q.createDisabled, authors := q.authors)
  {
    hide Report, ReleaseButton, ButtonsFollowKeys;
    ReportTouches(p, op, key);
    var told := Report(p, op, key);
    ReleaseTouchesControls(told, op, key);
    if ButtonsFollowKeys(p) {
      ReleasedButtonsFollow(told, op, key);
    }
  }

  lemma ReportTouches(p: Page, op: OperationId, key: Key)
    ensures
      var told := Report(p, op, key);
      && (ButtonsFollowKeys(p) ==> ButtonsFollowKeys(told))
      && (MessagesOwned(p) ==> MessagesOwned(told))
      && told == p.(authors := told.authors)
  {
  }

  lemma FailKeepsKeys(s: State, op: OperationId)
    requires KeysInOrder(s) && op in s.requests
    ensures KeysInOrder(Refuse(s, op))
  {
    OtherRequestsHoldOtherKeys(s, op);
    RefusedTouches(s.page, op, s.requests[op].key);
    hide MutationFailed, ButtonsFollowKeys, MessagesOwned;
    var t := Refuse(s, op);
    assert forall op :: CreateReadInFlight(s, op) ==> CreateReadInFlight(t, op);
  }

  lemma FailKeeps(s: State, op: OperationId)
    requires Inv(s) && op in s.requests
    ensures Inv(Refuse(s, op))
  {
    FailKeepsKeys(s, op);
    RefusedTouches(s.page, op, s.requests[op].key);
    hide MutationFailed;
  }

  lemma ConfirmedTouches(p: Page, op: OperationId, key: Key, lead: string)
    requires MessagesOwned(p)
    ensures
      var q := MutationConfirmed(p, op, key, lead);
      && MessagesOwned(q)
      && q == p.(mutationGeneration := p.mutationGeneration + 1, listNeedsRefresh := true, authors := q.authors,
                 confirmed := p.confirmed + {op}, forms := q.forms)
  {
  }

  lemma ConfirmKeepsKeys(s: State, op: OperationId)
    requires Inv(s) && op in s.requests && op in s.log
    ensures KeysInOrder(Accept(s, op))
  {
    hide MutationConfirmed, ListInOrder, ButtonsFollowKeys, MessagesOwned;
    var key := s.requests[op].key;
    OtherRequestsHoldOtherKeys(s, op);
    ConfirmedTouches(s.page, op, key, s.requests[op].lead);
    var t := Accept(s, op);
    assert t.pendingReads[t.page.readGeneration].owner == Handler(op, key);
    CreateReadsStay(s, t);
  }

  lemma ConfirmKeepsList(s: State, op: OperationId)
    requires Inv(s) && op in s.requests && op in s.log
    ensures ListInOrder(Accept(s, op))
  {
    hide MutationConfirmed, KeysHeldForAReason, ButtonsFollowKeys, MessagesOwned, Reflects;
    ConfirmedTouches(s.page, op, s.requests[op].key, s.requests[op].lead);
    WholeLogReflects(s.log, s.page.confirmed + {op});
  }

  lemma ConfirmKeeps(s: State, op: OperationId)
    requires Inv(s) && op in s.requests && op in s.log
    ensures Inv(Accept(s, op))
  {
    hide MutationConfirmed, KeysInOrder, ListInOrder;
    ConfirmKeepsKeys(s, op);
    ConfirmKeepsList(s, op);
    ConfirmedTouches(s.page, op, s.requests[op].key, s.requests[op].lead);
  }

  /** Issuing a read does not end another one. */
  lemma CreateReadsStay(s: State, t: State)
    requires ReadsNumbered(s)
    requires forall n :: n in s.pendingReads ==> n in t.pendingReads && t.pendingReads[n] == s.pendingReads[n]
    ensures forall op :: CreateReadInFlight(s, op) ==> CreateReadInFlight(t, op)
  {
  }

  lemma OfferKeeps(s: State, authFailure: bool)
    requires Inv(s) && (authFailure ==> s.checking == 0)
    ensures Inv(s.(page := OfferRecovery(s.page, authFailure)))
  {
  }

  lemma LoadKeeps(s: State, checking: nat)
    requires Inv(s) && checking <= s.checking
    ensures Inv(WithRead(s.(checking := checking), s.page, Nobody))
  {
    var t := WithRead(s.(checking := checking), s.page, Nobody);
    WholeLogReflects(s.log, s.page.confirmed);
    CreateReadsStay(s, t);
  }

  /** The read of a confirmed mutation settles: the handler can free nothing but its own create key. */
  lemma HandlerReleases(s: State, read: nat)
    requires KeysInOrder(s) && read in s.pendingReads && s.pendingReads[read].owner.Handler?
    ensures
      var Handler(op, key) := s.pendingReads[read].owner;
      var q := ReleaseButton(s.page, op, key);
      && SameButControls(s.page, q)
      && q.pendingControls == if key == Create && Create in s.page.pendingControls
                                 && s.page.pendingControls[Create] == op
                              then s.page.pendingControls - {Create} else s.page.pendingControls
  {
    var Handler(op, key) := s.pendingReads[read].owner;
    ReleaseTouchesControls(s.page, op, key);
  }

  lemma SettleKeepsKeys(s: State, read: nat)
    requires KeysInOrder(s) && read in s.pendingReads
    ensures KeysInOrder(Settle(s, read))
  {
    hide ReleaseButton;
    var owner := s.pendingReads[read].owner;
    if owner.Handler? {
      HandlerReleases(s, read);
    }
    var t := Settle(s, read);
    forall op | CreateReadInFlight(s, op) && owner != Handler(op, Create) ensures CreateReadInFlight(t, op) {
      var n :| n in s.pendingReads && s.pendingReads[n].owner == Handler(op, Create);
      assert n in t.pendingReads && t.pendingReads[n].owner == Handler(op, Create);
    }
  }

  lemma SettleKeeps(s: State, read: nat)
    requires Inv(s) && read in s.pendingReads
    requires ReadCurrent(s, read) ==> RecoveryOffered(s) || !s.page.listNeedsRefresh
    ensures Inv(Settle(s, read))
  {
    hide ReleaseButton, KeysInOrder, ButtonsFollowKeys;
    SettleKeepsKeys(s, read);
    var owner := s.pendingReads[read].owner;
    if owner.Handler? {
      HandlerReleases(s, read);
      ReleasedButtonsFollow(s.page, owner.op, owner.key);
    }
  }

  lemma RenderTouches(p: Page, items: seq<Item>)
    requires ButtonsFollowKeys(p)
    ensures
      var q := Render(p, items);
      && ButtonsFollowKeys(q)
      && q == p.(forms := q.forms, buttons := q.buttons)
  {
    RenderedButtonsExact(items, p.pendingControls);
  }

  lemma RenderedTouches(p: Page, items: seq<Item>)
    requires ButtonsFollowKeys(p)
    ensures
      var q := Rendered(p, items);
      && ButtonsFollowKeys(q)
      && q.pendingControls == p.pendingControls - FreedKeys(p, p.pendingControls.Keys)
      && q == Page(p.mutationGeneration, p.readGeneration, false, true, p.feedbackOwners, p.authors, q.pendingControls,
                   p.confirmed, Empty, q.buttons, q.forms, q.createDisabled)
  {
    RenderTouches(p, items);
    FreedButtonsFollow(Render(p, items), FreedKeys(p, p.pendingControls.Keys));
  }

  /** A list no older than a current read shows every confirmed mutation. */
  lemma CurrentReadReflects(s: State, read: nat, version: nat)
    requires ListFresh(s) && ReadCurrent(s, read) && s.pendingReads[read].issued <= version <= |s.log|
    ensures Reflects(s.log, version, s.page.confirmed)
  {
    var issued := s.pendingReads[read].issued;
    assert s.log[..issued] == s.log[..version][..issued];
  }

  lemma PartKeeps(s: State, version: nat, items: seq<Item>)
    requires Inv(s) && Reflects(s.log, version, s.page.confirmed)
    ensures Inv(s.(page := Render(s.page, items), shown := Some(version)))
  {
    hide Render, ButtonsFollowKeys;
    RenderTouches(s.page, items);
    var t := s.(page := Render(s.page, items), shown := Some(version));
    assert forall op :: CreateReadInFlight(s, op) ==> CreateReadInFlight(t, op);
  }

  lemma RenderedKeeps(s: State, version: nat, items: seq<Item>)
    requires Inv(s) && Reflects(s.log, version, s.page.confirmed)
    ensures Inv(s.(page := Rendered(s.page, items), shown := Some(version)))
  {
    hide Rendered, ButtonsFollowKeys;
    RenderedTouches(s.page, items);
    var t := s.(page := Rendered(s.page, items), shown := Some(version));
    assert RequestsHoldKeys(t) by {
      forall op | op in s.requests ensures s.requests[op].key in t.page.pendingControls {}
    }
  }

  lemma ShowKeeps(s: State, read: nat, version: nat, payload: Payload)
    requires Inv(s) && ReadCurrent(s, read) && s.pendingReads[read].issued <= version <= |s.log|
    ensures Inv(Shown(s, version, payload))
  {
    CurrentReadReflects(s, read, version);
    match payload
    case Malformed => OfferKeeps(s, false);
    case Items(items, broken) =>
      if broken {
        PartKeeps(s, version, items);
        OfferKeeps(s.(page := Render(s.page, items), shown := Some(version)), false);
      } else {
        RenderedKeeps(s, version, items);
      }
  }

  lemma RespondKeeps(s: State, read: nat, ok: bool)
    requires Inv(s) && read in s.pendingReads
    ensures Inv(Respond(s, read, ok))
  {
    if !Current(s.page, s.pendingReads[read].generation, read) {
      SettleKeeps(s, read);
    } else if !ok {
      OfferKeeps(s, false);
      SettleKeeps(s.(page := OfferRecovery(s.page, false)), read);
    } else {
      var t := Respond(s, read, ok);
      forall op | CreateReadInFlight(s, op) ensures CreateReadInFlight(t, op) {
        var n :| n in s.pendingReads && s.pendingReads[n].owner == Handler(op, Create);
        assert n in t.pendingReads && t.pendingReads[n].owner == Handler(op, Create);
      }
    }
  }

  lemma DecodeKeeps(s: State, read: nat, version: nat, payload: Payload)
    requires Inv(s) && read in s.pendingReads && s.pendingReads[read].issued <= version <= |s.log|
    ensures Inv(Decode(s, read, version, payload))
  {
    if Current(s.page, s.pendingReads[read].generation, read) {
      ShowKeeps(s, read, version, payload);
      SettleKeeps(Shown(s, version, payload), read);
    } else {
      SettleKeeps(s, read);
    }
  }

  lemma RetryKeeps(s: State)
    requires Inv(s) && RecoveryOffered(s)
    ensures Inv(Retry(s))
  {
    if !s.page.recovery.authFailure {
      LoadKeeps(s, s.checking);
    }
  }

  lemma SessionKeeps(s: State, session: Session)
    requires Inv(s) && s.checking > 0
    ensures Inv(CheckSession(s, session))
  {
    if session == Authenticated {
      LoadKeeps(s, s.checking - 1);
    }
  }

  lemma StepKeeps(s: State, e: Event)
    requires Inv(s) && Possible(s, e)
    ensures Inv(Next(s, e))
  {
    match e
    case CreateSubmitted => CreateKeeps(s);
    case ButtonPressed(i, lead) => PressKeeps(s, i, lead);
    case FormRejected(target) => RejectKeeps(s, target);
    case FieldEdited(i, value) => EditKeeps(s, i, value);
    case MutationCommitted(op) => CommitKeeps(s, op);
    case MutationAnswered(op, ok) => if ok { ConfirmKeeps(s, op); } else { FailKeeps(s, op); }
    case ResponseArrived(read, ok) => RespondKeeps(s, read, ok);
    case BodyArrived(read, version, payload) => DecodeKeeps(s, read, version, payload);
    case RetryClicked => RetryKeeps(s);
    case SessionAnswered(session) => SessionKeeps(s, session);
  }

  lemma {:induction false} RunKeeps(s: State, events: seq<Event>)
    requires Inv(s) && CanRun(s, events)
    ensures Inv(After(s, events))
    decreases |events|
  {
    if events != [] {
      StepKeeps(s, events[0]);
      RunKeeps(Next(s, events[0]), events[1..]);
    }
  }
}

/** The referral page of the CRM: what its event handlers read and write.

    A `Page` is the value of the module variables and of the parts of the document that the
    handlers depend on.  The functions below say what each handler segment (the code between
    two awaits) makes of a page; `ReferralList` is the page itself, whose methods follow the
    handlers statement by statement. */
module ReferralPage {
  /** Every mutation that was begun has its own number. */
  type OperationId = nat

  datatype Action = Contact | Convert | Lose

  /** The key that a mutation holds while it is pending. */
  datatype Key = Create | Act(referral: string, action: Action) | Link(referral: string)

  /** The two places that show messages about mutations. */
  datatype Target = CreateStatus | ListStatus

  datatype ItemStatus = Pending | Contacted | Final

  /** One referral as the server lists it; `lead` is the text of its linked lead, or empty. */
  datatype Item = Item(id: string, status: ItemStatus, lead: string)

  datatype Button = Button(key: Key, disabled: bool)

  /** The lead field of one listed referral: the text it holds and the text it was given. */
  datatype Form = Form(referral: string, value: string, baseline: string)

  datatype Recovery = Empty | Updating | Offer(authFailure: bool, disabled: bool)

  datatype Page = Page(
    mutationGeneration: nat,
    readGeneration: nat,
    listNeedsRefresh: bool,
    listHasLoaded: bool,
    feedbackOwners: map<Target, OperationId>,
    authors: map<Target, OperationId>,
    pendingControls: map<Key, OperationId>,
    confirmed: set<OperationId>,
    recovery: Recovery,
    buttons: seq<Button>,
    forms: seq<Form>,
    createDisabled: bool)

  /** What a list response decodes to. `broken` says that rendering throws after these items. */
  datatype Payload = Malformed | Items(items: seq<Item>, broken: bool)

  const FRESH_PAGE := Page(0, 0, true, false, map[], map[], map[], {}, Empty, [], [], false)

  function TargetOf(key: Key): Target {
    if key == Create then CreateStatus else ListStatus
  }

  // ---------------------------------------------------------------- mutations

  function OfferRecovery(p: Page, authFailure: bool): Page {
    p.(recovery := Offer(authFailure, false))
  }

  function BeginMutation(p: Page, key: Key, op: OperationId): Page {
    var q := p.(pendingControls := p.pendingControls[key := op],
                feedbackOwners := p.feedbackOwners[TargetOf(key) := op],
                mutationGeneration := p.mutationGeneration + 1,
                readGeneration := p.readGeneration + 1);
    if q.listNeedsRefresh then OfferRecovery(q, false) else q
  }

  /** The create form was submitted. */
  function SubmitCreate(p: Page, op: OperationId): Page {
    if Create in p.pendingControls then p else
    var q := BeginMutation(p, Create, op);
    q.(createDisabled := true, authors := q.authors[CreateStatus := op])
  }

  /** Button `i` of the list was pressed. */
  function Press(p: Page, i: nat, op: OperationId): Page
    requires i < |p.buttons|
  {
    var key := p.buttons[i].key;
    if key in p.pendingControls then p else
    var q := BeginMutation(p, key, op);
    q.(buttons := q.buttons[i := q.buttons[i].(disabled := true)],
       authors := q.authors[TargetOf(key) := op])
  }

  function OwnsFeedback(p: Page, op: OperationId, key: Key): bool {
    TargetOf(key) in p.feedbackOwners && p.feedbackOwners[TargetOf(key)] == op
  }

  /** A message of `op` is shown only where `op` is the last mutation begun. */
  function Report(p: Page, op: OperationId, key: Key): Page {
    if OwnsFeedback(p, op, key) then p.(authors := p.authors[TargetOf(key) := op]) else p
  }

  function Enabled(buttons: seq<Button>, keys: set<Key>): (r: seq<Button>)
    ensures |r| == |buttons|
  {
    seq(|buttons|, i requires 0 <= i < |buttons| =>
      if buttons[i].key in keys then buttons[i].(disabled := false) else buttons[i])
  }

  function EnableKeys(p: Page, keys: set<Key>): Page {
    p.(buttons := Enabled(p.buttons, keys), createDisabled := p.createDisabled && Create !in keys)
  }

  function ReleaseButton(p: Page, op: OperationId, key: Key): Page {
    var frees := (op !in p.confirmed || key == Create) && key in p.pendingControls && p.pendingControls[key] == op;
    var q := if frees then p.(pendingControls := p.pendingControls - {key}) else p;
    if key in q.pendingControls then q else EnableKeys(q, {key})
  }

  function MutationFailed(p: Page, op: OperationId, key: Key): Page {
    ReleaseButton(Report(p, op, key), op, key)
  }

  /** The fields of referral `id` take the linked lead as their baseline and keep their text. */
  function Rebased(forms: seq<Form>, id: string, lead: string): (r: seq<Form>)
    ensures |r| == |forms|
  {
    seq(|forms|, i requires 0 <= i < |forms| =>
      if forms[i].referral == id then forms[i].(baseline := lead) else forms[i])
  }

  /** The server accepted `op`; the read that must follow is issued by `IssueRead`. */
  function MutationConfirmed(p: Page, op: OperationId, key: Key, lead: string): Page {
    var q := if key.Link? then p.(forms := Rebased(p.forms, key.referral, lead)) else p;
    Report(q.(confirmed := q.confirmed + {op},
              mutationGeneration := q.mutationGeneration + 1,
              listNeedsRefresh := true), op, key)
  }

  /** A form was sent back with a message that is about no mutation. */
  function FormRefused(p: Page, target: Target): Page {
    p.(authors := p.authors - {target})
  }

  /** The user typed into the lead field of form `i`. */
  function FieldSet(p: Page, i: nat, value: string): Page
    requires i < |p.forms|
  {
    p.(forms := p.forms[i := p.forms[i].(value := value)])
  }

  // ---------------------------------------------------------------- reads

  function IssueRead(p: Page): Page {
    p.(listNeedsRefresh := true, readGeneration := p.readGeneration + 1, recovery := Updating)
  }

  predicate Current(p: Page, generation: nat, read: nat) {
    generation == p.mutationGeneration && read == p.readGeneration
  }

  function ActionButtons(item: Item, pending: map<Key, OperationId>): seq<Button> {
    var contact := Act(item.id, Contact);
    var convert := Act(item.id, Convert);
    var lose := Act(item.id, Lose);
    match item.status
    case Pending =>
      [Button(contact, contact in pending), Button(convert, convert in pending), Button(lose, lose in pending)]
    case Contacted =>
      [Button(convert, convert in pending), Button(lose, lose in pending)]
    case Final => []
  }

  function ItemButtons(item: Item, pending: map<Key, OperationId>): seq<Button> {
    ActionButtons(item, pending) + [Button(Link(item.id), Link(item.id) in pending)]
  }

  function ButtonsOf(items: seq<Item>, pending: map<Key, OperationId>): seq<Button> {
    if items == [] then []
    else ButtonsOf(items[..|items| - 1], pending) + ItemButtons(items[|items| - 1], pending)
  }

  /** The text that each listed referral has in its field; the last field of a referral counts. */
  function DraftsOf(forms: seq<Form>): map<string, Form> {
    if forms == [] then map[]
    else
      var last := forms[|forms| - 1];
      DraftsOf(forms[..|forms| - 1])[last.referral := last]
  }

  predicate LinkUnconfirmed(p: Page, id: string) {
    Link(id) in p.pendingControls && p.pendingControls[Link(id)] !in p.confirmed
  }

  function FormFor(p: Page, item: Item, drafts: map<string, Form>): Form {
    var keeps := item.id in drafts
      && (drafts[item.id].value != drafts[item.id].baseline || LinkUnconfirmed(p, item.id));
    Form(item.id, if keeps then drafts[item.id].value else item.lead, item.lead)
  }

  function FormsOf(p: Page, items: seq<Item>, drafts: map<string, Form>): (r: seq<Form>)
    ensures |r| == |items|
  {
    seq(|items|, i requires 0 <= i < |items| => FormFor(p, items[i], drafts))
  }

  function Render(p: Page, items: seq<Item>): Page {
    p.(forms := FormsOf(p, items, DraftsOf(p.forms)), buttons := ButtonsOf(items, p.pendingControls))
  }

  /** The keys among `keys` that a rendered list sets free. */
  function FreedKeys(p: Page, keys: set<Key>): set<Key> {
    set k | k in p.pendingControls && k in keys && p.pendingControls[k] in p.confirmed
  }

  function ReleaseConfirmed(p: Page, keys: set<Key>): Page {
    EnableKeys(p.(pendingControls := p.pendingControls - FreedKeys(p, keys)), FreedKeys(p, keys))
  }

  function Rendered(p: Page, items: seq<Item>): Page {
    ReleaseConfirmed(Render(p, items), p.pendingControls.Keys).(
      listNeedsRefresh := false, listHasLoaded := true, recovery := Empty)
  }

  /** What a current read makes of the payload it got. */
  function Show(p: Page, payload: Payload): Page {
    match payload
    case Malformed => OfferRecovery(p, false)
    case Items(items, broken) =>
      if broken then OfferRecovery(Render(p, items), false) else Rendered(p, items)
  }

  // ---------------------------------------------------------------- what a rendered list shows

  /** Form `k` is the last one of referral `id`. */
  predicate IsLastField(forms: seq<Form>, id: string, k: nat) {
    && k < |forms| && forms[k].referral == id
    && forall j :: k < j < |forms| ==> forms[j].referral != id
  }

  /** What the lead fields of a page `p` become when `items` are listed. Every field has the listed lead
      as its baseline. It shows that lead too, unless the referral had a field before whose text was
      edited, or which belongs to a link under way that is not confirmed: then that text stays. */
  ghost predicate FieldsFollow(p: Page, items: seq<Item>, forms: seq<Form>) {
    && |forms| == |items|
    && forall i :: 0 <= i < |items| ==>
         && forms[i].referral == items[i].id && forms[i].baseline == items[i].lead
         && ((forall k :: 0 <= k < |p.forms| ==> p.forms[k].referral != items[i].id) ==>
               forms[i].value == items[i].lead)
         && forall k: nat :: IsLastField(p.forms, items[i].id, k) ==>
              forms[i].value ==
              if p.forms[k].value != p.forms[k].baseline
                 || (Link(items[i].id) in p.pendingControls && p.pendingControls[Link(items[i].id)] !in p.confirmed)
              then p.forms[k].value else items[i].lead
  }

  lemma {:induction false} DraftsAreLastFields(forms: seq<Form>, id: string)
    ensures id in DraftsOf(forms) <==> exists k :: IsLastField(forms, id, k)
    ensures forall k: nat :: IsLastField(forms, id, k) ==> id in DraftsOf(forms) && DraftsOf(forms)[id] == forms[k]
    ensures id !in DraftsOf(forms) <==> forall k :: 0 <= k < |forms| ==> forms[k].referral != id
  {
    if forms != [] {
      var n := |forms| - 1;
      var init := forms[..n];
      DraftsAreLastFields(init, id);
      assert forall j :: 0 <= j < n ==> init[j] == forms[j];
      if forms[n].referral == id {
        assert IsLastField(forms, id, n);
        assert forall k: nat :: IsLastField(forms, id, k) ==> k == n;
      } else {
        forall k: nat ensures IsLastField(forms, id, k) == IsLastField(init, id, k) {}
      }
    }
  }

  lemma RenderedFieldsFollow(p: Page, items: seq<Item>)
    ensures FieldsFollow(p, items, Render(p, items).forms)
  {
    hide DraftsOf, ButtonsOf;
    forall i | 0 <= i < |items| ensures
      (items[i].id !in DraftsOf(p.forms) <==> forall k :: 0 <= k < |p.forms| ==> p.forms[k].referral != items[i].id)
      && forall k: nat :: IsLastField(p.forms, items[i].id, k) ==>
           items[i].id in DraftsOf(p.forms) && DraftsOf(p.forms)[items[i].id] == p.forms[k]
    {
      DraftsAreLastFields(p.forms, items[i].id);
    }
  }

  predicate Offers(buttons: seq<Button>, key: Key) {
    exists k :: 0 <= k < |buttons| && buttons[k].key == key
  }

  lemma OffersOfBoth(first: seq<Button>, second: seq<Button>, key: Key)
    ensures Offers(first + second, key) <==> Offers(first, key) || Offers(second, key)
  {
    var both := first + second;
    if k :| 0 <= k < |first| && first[k].key == key { assert both[k].key == key; }
    if k :| 0 <= k < |second| && second[k].key == key { assert both[|first| + k].key == key; }
  }

  /** The keys of the buttons of a rendered list: each listed referral can be linked; a pending one can
      be contacted, and a pending or contacted one converted or lost. */
  lemma {:induction false} RenderedActions(items: seq<Item>, pending: map<Key, OperationId>, id: string, action: Action)
    ensures Offers(ButtonsOf(items, pending), Link(id)) <==> exists i :: 0 <= i < |items| && items[i].id == id
    ensures Offers(ButtonsOf(items, pending), Act(id, action)) <==>
            exists i :: 0 <= i < |items| && Allows(items[i], id, action)
  {
    hide ItemButtons, Offers, Allows;
    if items != [] {
      var n := |items| - 1;
      var init := items[..n];
      RenderedActions(init, pending, id, action);
      ItemActions(items[n], pending, id, action);
      OffersOfBoth(ButtonsOf(init, pending), ItemButtons(items[n], pending), Link(id));
      OffersOfBoth(ButtonsOf(init, pending), ItemButtons(items[n], pending), Act(id, action));
      assert forall i :: 0 <= i < n ==> items[i] == init[i];
    } else {
      NothingOffered();
    }
  }

  lemma NothingOffered()
    ensures forall key :: !Offers([], key)
  {
  }

  /** The status of referral `id` allows the action. */
  predicate Allows(item: Item, id: string, action: Action) {
    item.id == id && (item.status == Pending || (item.status == Contacted && action != Contact))
  }

  lemma ItemActions(item: Item, pending: map<Key, OperationId>, id: string, action: Action)
    ensures Offers(ItemButtons(item, pending), Link(id)) <==> item.id == id
    ensures Offers(ItemButtons(item, pending), Act(id, action)) <==> Allows(item, id, action)
  {
    var buttons := ItemButtons(item, pending);
    assert buttons[|buttons| - 1].key == Link(item.id);
    if item.status == Pending {
      assert buttons[0].key == Act(item.id, Contact) && buttons[1].key == Act(item.id, Convert);
      assert buttons[2].key == Act(item.id, Lose) && |buttons| == 4;
    } else if item.status == Contacted {
      assert buttons[0].key == Act(item.id, Convert) && buttons[1].key == Act(item.id, Lose) && |buttons| == 3;
    }
  }

  /** Messages about creations stand beside the create form, those about listed referrals above the list. */
  lemma MessagesStandInTheirPlace(p: Page, op: OperationId, i: nat)
    ensures
      Create !in p.pendingControls ==>
        SubmitCreate(p, op).authors == p.authors[CreateStatus := op]
        && SubmitCreate(p, op).feedbackOwners == p.feedbackOwners[CreateStatus := op]
    ensures
      i < |p.buttons| && p.buttons[i].key != Create && p.buttons[i].key !in p.pendingControls ==>
        Press(p, i, op).authors == p.authors[ListStatus := op]
        && Press(p, i, op).feedbackOwners == p.feedbackOwners[ListStatus := op]
  {
  }

  /** A result is shown exactly in that place, and only if its mutation is the last one begun there. */
  lemma ResultsStandInTheirPlace(p: Page, key: Key, op: OperationId, lead: string)
    ensures
      var place := if key == Create then CreateStatus else ListStatus;
      var last := place in p.feedbackOwners && p.feedbackOwners[place] == op;
      && MutationFailed(p, op, key).authors == (if last then p.authors[place := op] else p.authors)
      && MutationConfirmed(p, op, key, lead).authors == (if last then p.authors[place := op] else p.authors)
  {
    hide ReleaseButton, Rebased;
    ReleaseLeavesMessages(Report(p, op, key), op, key);
  }

  lemma ReleaseLeavesMessages(p: Page, op: OperationId, key: Key)
    ensures ReleaseButton(p, op, key).authors == p.authors
  {
  }

  // ---------------------------------------------------------------- the page object

  /** The page. `View` is its value; every method says which function of the old value the new
      value is, so what is proved about those functions is proved about the page. */
  class ReferralList {
    var mutationGeneration: nat
    var readGeneration: nat
    var listNeedsRefresh: bool
    var listHasLoaded: bool
    var feedbackOwners: map<Target, OperationId>
    var authors: map<Target, OperationId>
    var pendingControls: map<Key, OperationId>
    var confirmed: set<OperationId>
    var recovery: Recovery
    var buttons: seq<Button>
    var forms: seq<Form>
    var createDisabled: bool

    ghost function View(): Page
      reads this
    {
      Page(mutationGeneration, readGeneration, listNeedsRefresh, listHasLoaded, feedbackOwners, authors,
           pendingControls, confirmed, recovery, buttons, forms, createDisabled)
    }

    constructor ()
      ensures View() == FRESH_PAGE
    {
      mutationGeneration, readGeneration := 0, 0;
      listNeedsRefresh, listHasLoaded := true, false;
      feedbackOwners, authors, pendingControls, confirmed := map[], map[], map[], {};
      recovery, buttons, forms, createDisabled := Empty, [], [], false;
    }

    method Offer(authFailure: bool)
      modifies this
      ensures View() == OfferRecovery(old(View()), authFailure)
    {
      recovery := Recovery.Offer(authFailure, false);
    }

    method Begin(key: Key, op: OperationId) returns (begun: bool)
      modifies this
      ensures begun == (key !in old(pendingControls))
      ensures View() == if begun then BeginMutation(old(View()), key, op) else old(View())
    {
      if key in pendingControls {
        return false;
      }
      pendingControls := pendingControls[key := op];
      feedbackOwners := feedbackOwners[TargetOf(key) := op];
      mutationGeneration := mutationGeneration + 1;
      readGeneration := readGeneration + 1;
      if listNeedsRefresh {
        Offer(false);
      }
      return true;
    }

    method CreateReferral(op: OperationId) returns (begun: bool)
      modifies this
      ensures begun == (Create !in old(pendingControls))
      ensures View() == SubmitCreate(old(View()), op)
    {
      begun := Begin(Create, op);
      if begun {
        createDisabled := true;
        authors := authors[CreateStatus := op];
      }
    }

    /** runAction and linkLead up to their request. */
    method PressButton(i: nat, op: OperationId) returns (begun: bool)
      requires i < |buttons|
      modifies this
      ensures begun == (old(buttons[i].key) !in old(pendingControls))
      ensures View() == Press(old(View()), i, op)
    {
      var key := buttons[i].key;
      begun := Begin(key, op);
      if begun {
        buttons := buttons[i := buttons[i].(disabled := true)];
        authors := authors[TargetOf(key) := op];
      }
    }

    method RefuseForm(target: Target)
      modifies this
      ensures View() == FormRefused(old(View()), target)
    {
      authors := authors - {target};
    }

    method SetField(i: nat, value: string)
      requires i < |forms|
      modifies this
      ensures View() == FieldSet(old(View()), i, value)
    {
      forms := forms[i := forms[i].(value := value)];
    }

    method EnableButtons(key: Key)
      modifies this
      ensures View() == EnableKeys(old(View()), {key})
    {
      if key == Create {
        createDisabled := false;
      }
      var i := 0;
      while i < |buttons|
        invariant 0 <= i <= |buttons| == |old(buttons)|
        invariant forall j :: 0 <= j < i ==> buttons[j] == Enabled(old(buttons), {key})[j]
        invariant forall j :: i <= j < |buttons| ==> buttons[j] == old(buttons)[j]
        invariant View() == old(View()).(buttons := buttons, createDisabled := createDisabled)
        invariant createDisabled == (old(createDisabled) && key != Create)
      {
        if buttons[i].key == key {
          buttons := buttons[i := buttons[i].(disabled := false)];
        }
        i := i + 1;
      }
      assert buttons == Enabled(old(buttons), {key});
    }

    method Release(op: OperationId, key: Key)
      modifies this
      ensures View() == ReleaseButton(old(View()), op, key)
    {
      if (op !in confirmed || key == Create) && key in pendingControls && pendingControls[key] == op {
        pendingControls := pendingControls - {key};
      }
      if key in pendingControls {
        return;
      }
      EnableButtons(key);
    }

    method Tell(op: OperationId, key: Key)
      modifies this
      ensures View() == Report(old(View()), op, key)
    {
      if TargetOf(key) in feedbackOwners && feedbackOwners[TargetOf(key)] == op {
        authors := authors[TargetOf(key) := op];
      }
    }

    method Fail(op: OperationId, key: Key)
      modifies this
      ensures View() == MutationFailed(old(View()), op, key)
    {
      Tell(op, key);
      Release(op, key);
    }

    method Rebase(id: string, lead: string)
      modifies this
      ensures View() == old(View()).(forms := Rebased(old(forms), id, lead))
    {
      var i := 0;
      while i < |forms|
        invariant 0 <= i <= |forms| == |old(forms)|
        invariant forall j :: 0 <= j < i ==> forms[j] == Rebased(old(forms), id, lead)[j]
        invariant forall j :: i <= j < |forms| ==> forms[j] == old(forms)[j]
        invariant View() == old(View()).(forms := forms)
      {
        if forms[i].referral == id {
          var value := forms[i].value;
          forms := forms[i := Form(forms[i].referral, value, lead)];
        }
        i := i + 1;
      }
      assert forms == Rebased(old(forms), id, lead);
    }

    /** refreshAfterMutation, up to its wait for the read it issues. */
    method Confirm(op: OperationId, key: Key, lead: string) returns (generation: nat, read: nat)
      modifies this
      ensures View() == IssueRead(MutationConfirmed(old(View()), op, key, lead))
      ensures generation == mutationGeneration && read == readGeneration
    {
      if key.Link? {
        Rebase(key.referral, lead);
      }
      confirmed := confirmed + {op};
      mutationGeneration := mutationGeneration + 1;
      listNeedsRefresh := true;
      Tell(op, key);
      generation, read := Load();
    }

    /** loadReferrals, up to its wait for the response. */
    method Load() returns (generation: nat, read: nat)
      modifies this
      ensures View() == IssueRead(old(View()))
      ensures generation == mutationGeneration && read == readGeneration
    {
      generation := mutationGeneration;
      listNeedsRefresh := true;
      readGeneration := readGeneration + 1;
      read := readGeneration;
      recovery := Updating;
    }

    /** The response arrived; `decode` says that its body is awaited next. */
    method Respond(generation: nat, read: nat, ok: bool) returns (decode: bool)
      modifies this
      ensures decode == (ok && Current(old(View()), generation, read))
      ensures View() == if Current(old(View()), generation, read) && !ok
                        then OfferRecovery(old(View()), false) else old(View())
    {
      var current := generation == mutationGeneration && read == readGeneration;
      if !current {
        return false;
      }
      if !ok {
        Offer(false);
        return false;
      }
      return true;
    }

    method ReadDrafts() returns (drafts: map<string, Form>)
      ensures drafts == DraftsOf(forms)
    {
      drafts := map[];
      var i := 0;
      while i < |forms|
        invariant 0 <= i <= |forms|
        invariant drafts == DraftsOf(forms[..i])
      {
        drafts := drafts[forms[i].referral := forms[i]];
        assert forms[..i + 1][..i] == forms[..i];
        i := i + 1;
      }
      assert forms[..i] == forms;
    }

    /** The field that a listed item gets. */
    method LinkLeadForm(item: Item, drafts: map<string, Form>) returns (form: Form)
      ensures form == FormFor(View(), item, drafts)
      ensures form.referral == item.id && form.baseline == item.lead
      ensures
        form.value ==
        if item.id in drafts
           && (drafts[item.id].value != drafts[item.id].baseline
               || (Link(item.id) in pendingControls && pendingControls[Link(item.id)] !in confirmed))
        then drafts[item.id].value else item.lead
    {
      var text := item.lead;
      if item.id in drafts {
        var draft := drafts[item.id];
        var linking := Link(item.id) in pendingControls && pendingControls[Link(item.id)] !in confirmed;
        if draft.value != draft.baseline || linking {
          text := draft.value;
        }
      }
      form := Form(item.id, text, item.lead);
    }

    method RenderItems(items: seq<Item>)
      modifies this
      ensures View() == Render(old(View()), items)
    {
      ghost var p := View();
      var drafts := ReadDrafts();
      buttons, forms := [], [];
      var i := 0;
      while i < |items|
        invariant 0 <= i <= |items|
        invariant forms == FormsOf(p, items[..i], drafts)
        invariant buttons == ButtonsOf(items[..i], p.pendingControls)
        invariant View() == p.(forms := forms, buttons := buttons)
      {
        var form := LinkLeadForm(items[i], drafts);
        buttons := buttons + ItemButtons(items[i], pendingControls);
        forms := forms + [form];
        assert form == FormFor(p, items[i], drafts);
        RenderOneMore(p, items, i, drafts);
        i := i + 1;
      }
      assert items[..i] == items;
    }

    /** The loop that frees the keys of confirmed mutations, in whatever order they are held. */
    method FreeConfirmed()
      modifies this
      ensures View() == ReleaseConfirmed(old(View()), old(pendingControls).Keys)
    {
      var rest := pendingControls.Keys;
      ghost var done: set<Key> := {};
      assert View() == ReleaseConfirmed(old(View()), done) by {
        assert FreedKeys(old(View()), done) == {};
        assert Enabled(buttons, {}) == buttons;
      }
      while rest != {}
        invariant done + rest == old(pendingControls).Keys && done !! rest
        invariant View() == ReleaseConfirmed(old(View()), done)
      {
        var key :| key in rest;
        rest := rest - {key};
        ghost var p := old(View());
        assert key in pendingControls && pendingControls[key] == p.pendingControls[key];
        if pendingControls[key] in confirmed {
          var op := pendingControls[key];
          pendingControls := pendingControls - {key};
          Release(op, key);
          FreeOneMore(p, done, key);
        } else {
          assert FreedKeys(p, done + {key}) == FreedKeys(p, done);
        }
        done := done + {key};
      }
      assert done == old(pendingControls).Keys;
    }

    /** The body arrived. */
    method Decode(generation: nat, read: nat, payload: Payload)
      modifies this
      ensures View() == if Current(old(View()), generation, read) then Show(old(View()), payload) else old(View())
    {
      var current := generation == mutationGeneration && read == readGeneration;
      if !current {
        return;
      }
      match payload
      case Malformed =>
        Offer(false);
      case Items(items, broken) =>
        RenderItems(items);
        if broken {
          Offer(false);
        } else {
          FreeConfirmed();
          listNeedsRefresh := false;
          listHasLoaded := true;
          recovery := Empty;
        }
    }

    method ClickRetry() returns (checkSession: bool)
      requires recovery.Offer? && !recovery.disabled
      modifies this
      ensures checkSession == old(recovery).authFailure
      ensures View() == if checkSession then old(View()).(recovery := Recovery.Offer(true, true))
                        else IssueRead(old(View()))
    {
      checkSession := recovery.authFailure;
      recovery := recovery.(disabled := true);
      if !checkSession {
        var _, _ := Load();
      }
    }
  }

  lemma RenderOneMore(p: Page, items: seq<Item>, i: nat, drafts: map<string, Form>)
    requires i < |items|
    ensures FormsOf(p, items[..i + 1], drafts) == FormsOf(p, items[..i], drafts) + [FormFor(p, items[i], drafts)]
    ensures ButtonsOf(items[..i + 1], p.pendingControls)
         == ButtonsOf(items[..i], p.pendingControls) + ItemButtons(items[i], p.pendingControls)
  {
    assert items[..i + 1][..i] == items[..i];
  }

  /** Freeing one more confirmed key after those in `done`. */
  lemma FreeOneMore(p: Page, done: set<Key>, key: Key)
    requires key in p.pendingControls && key !in done && p.pendingControls[key] in p.confirmed
    ensures
      var q := ReleaseConfirmed(p, done);
      ReleaseConfirmed(p, done + {key})
        == ReleaseButton(q.(pendingControls := q.pendingControls - {key}), p.pendingControls[key], key)
  {
    assert FreedKeys(p, done + {key}) == FreedKeys(p, done) + {key};
    var q := ReleaseConfirmed(p, done);
    assert p.pendingControls - FreedKeys(p, done + {key}) == q.pendingControls - {key};
    assert Enabled(p.buttons, FreedKeys(p, done + {key})) == Enabled(q.buttons, {key});
  }
}

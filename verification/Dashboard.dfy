/** The business dashboard: what its panels show and where its writes go while the user switches
    between businesses and any number of requests are under way. */
module Dashboard {
  import opened Options
  import opened BusinessContext

  datatype Panel = Profile | Location | Candidates | Media | Catalog

  datatype EntryKind = Product | Offer | Menu | MenuCategory | MenuItem

  /** Data of one business. The server answers a request about a business with data of that business. */
  datatype Data = Data(business: string, content: int)

  /** What the answer of a request is for. */
  datatype Purpose =
    | Load(panel: Panel, resets: Option<EntryKind>)
    | SaveProfile
    | SaveLocation
    | ConfirmCandidate
    | PrepareUpload
    | ChangeMedia
    | SaveEntry(kind: EntryKind)

  /** The dashboard: its context, its own copy of the business id, what each panel shows, and the
      business whose entry each edit form holds. */
  datatype Surface = Surface(
    context: Context,
    businessId: string,
    shown: map<Panel, Data>,
    editing: map<EntryKind, string>)

  /** A business was chosen in the selector. */
  function Choose(scopes: seq<string>, s: Surface, id: string): Surface {
    if Switches(scopes, id) then Surface(Switched(s.context, id), id, map[], s.editing) else s
  }

  function Showing(s: Surface, panel: Panel, data: Data): Surface {
    s.(shown := s.shown[panel := data])
  }

  function WithoutEdit(s: Surface, kind: Option<EntryKind>): Surface {
    if kind.Some? then s.(editing := s.editing - {kind.value}) else s
  }

  /** A request of a current ticket was answered with `data`. */
  function Answered(s: Surface, ticket: Ticket, purpose: Purpose, data: Data): Surface {
    if !IsCurrent(s.context, ticket) then s
    else match purpose
      case Load(panel, resets) => WithoutEdit(Showing(s, panel, data), resets)
      case SaveProfile => Showing(s, Profile, data)
      case SaveLocation => Showing(s, Location, data)
      case ConfirmCandidate =>
        var t := Showing(s, Location, data);
        t.(shown := t.shown - {Candidates})
      case _ => s
  }

  /** An entry of the shown catalogue was taken into its edit form. */
  function Edit(s: Surface, kind: EntryKind): Surface {
    if Catalog in s.shown then s.(editing := s.editing[kind := s.shown[Catalog].business]) else s
  }

  /** The business that the data of a write came from, if the write rests on shown data. The form of
      the location is filled from the one that is shown. */
  function Basis(s: Surface, purpose: Purpose): Option<string> {
    match purpose
    case SaveProfile => if Profile in s.shown then Some(s.shown[Profile].business) else None
    case SaveLocation => if Location in s.shown then Some(s.shown[Location].business) else None
    case ConfirmCandidate => if Candidates in s.shown then Some(s.shown[Candidates].business) else None
    case ChangeMedia => if Media in s.shown then Some(s.shown[Media].business) else None
    case SaveEntry(kind) => if kind in s.editing then Some(s.editing[kind]) else None
    case _ => None
  }

  // ---------------------------------------------------------------- reordering photos

  /** The first place of an id, or the length of the list. */
  function IndexOf(ids: seq<string>, id: string): (i: nat)
    ensures i <= |ids|
    ensures i < |ids| ==> ids[i] == id
    ensures forall j :: 0 <= j < i ==> ids[j] != id
  {
    if ids == [] then 0 else if ids[0] == id then 0 else 1 + IndexOf(ids[1..], id)
  }

  /** The order that moving a photo up or down asks for, unless it would leave the list. */
  method Move(assets: seq<string>, mediaId: string, up: bool) returns (order: Option<seq<string>>)
    ensures order.None? <==>
      mediaId !in assets || (if up then IndexOf(assets, mediaId) == 0 else IndexOf(assets, mediaId) == |assets| - 1)
    ensures order.Some? ==>
      var i: int := IndexOf(assets, mediaId);
      var j: int := if up then i - 1 else i + 1;
      && multiset(order.value) == multiset(assets) && |order.value| == |assets|
      && order.value[j] == mediaId && order.value[i] == assets[j]
      && forall k :: 0 <= k < |assets| && k != i && k != j ==> order.value[k] == assets[k]
  {
    var ids := assets;
    var index: int := IndexOf(ids, mediaId);
    if index == |ids| {
      return None;
    }
    var target: int := if up then index - 1 else index + 1;
    if target < 0 || target >= |ids| {
      return None;
    }
    SwapKeepsAll(assets, index, target);
    return Some(Swapped(ids, index, target));
  }

  function Swapped(ids: seq<string>, i: nat, j: nat): seq<string>
    requires i < |ids| && j < |ids|
  {
    ids[i := ids[j]][j := ids[i]]
  }

  lemma SwapKeepsAll(ids: seq<string>, i: nat, j: nat)
    requires i < |ids| && j < |ids|
    ensures multiset(Swapped(ids, i, j)) == multiset(ids) && |Swapped(ids, i, j)| == |ids|
    ensures Swapped(ids, i, j)[i] == ids[j] && Swapped(ids, i, j)[j] == ids[i]
    ensures forall k :: 0 <= k < |ids| && k != i && k != j ==> Swapped(ids, i, j)[k] == ids[k]
  {
    assert multiset(ids[i := ids[j]]) == multiset(ids) - multiset{ids[i]} + multiset{ids[j]};
  }

  // ---------------------------------------------------------------- the dashboard object

  class DashboardSurface {
    const contextController: BusinessContextController
    var businessId: string
    var shown: map<Panel, Data>
    var editing: map<EntryKind, string>

    ghost predicate Valid()
      reads this, contextController, contextController.signals
    {
      contextController.Valid()
    }

    ghost function View(): Surface
      reads this, contextController, contextController.signals
    {
      Surface(contextController.View(), businessId, shown, editing)
    }

    /** The dashboard opens on the business and the profile that its bootstrap brought. */
    constructor (contextController: BusinessContextController, profile: Option<Data>)
      requires contextController.Valid()
      ensures Valid() && this.contextController == contextController
      ensures View() == Surface(contextController.View(), contextController.currentBusinessId,
                                if profile.Some? then map[Profile := profile.value] else map[], map[])
    {
      this.contextController := contextController;
      businessId := contextController.currentBusinessId;
      shown := if profile.Some? then map[Profile := profile.value] else map[];
      editing := map[];
    }

    method SelectBusiness(id: string) returns (request: Option<Request>)
      requires Valid()
      modifies this, contextController, contextController.controller
      ensures Valid() && View() == Choose(contextController.scopes, old(View()), id)
    {
      request := contextController.Switch(id);
      if request.None? {
        return;
      }
      businessId := request.value.ticket.businessId;
      shown := map[];
    }

    method Answer(request: Request, purpose: Purpose, data: Data)
      requires Valid()
      modifies this
      ensures Valid() && View() == Answered(old(View()), request.ticket, purpose, data)
    {
      if !contextController.Current(request.ticket) {
        return;
      }
      match purpose
      case Load(panel, resets) =>
        shown := shown[panel := data];
        if resets.Some? {
          editing := editing - {resets.value};
        }
      case SaveProfile => shown := shown[Profile := data];
      case SaveLocation => shown := shown[Location := data];
      case ConfirmCandidate =>
        shown := shown[Location := data];
        shown := shown - {Candidates};
      case _ =>
    }

    /** An edit form was reset. */
    method ResetEdit(kind: EntryKind)
      requires Valid()
      modifies this
      ensures Valid() && View() == WithoutEdit(old(View()), Some(kind))
    {
      editing := editing - {kind};
    }

    method EditEntry(kind: EntryKind)
      requires Valid()
      modifies this
      ensures Valid() && View() == Edit(old(View()), kind)
    {
      if Catalog in shown {
        editing := editing[kind := shown[Catalog].business];
      }
    }
  }

  // ---------------------------------------------------------------- the dashboard and its requests

  /** A request under way, with the business that was current when it was submitted. */
  datatype Call = Call(ticket: Ticket, target: string, purpose: Purpose)

  /** A write that was sent: to which business, submitted while which was current, resting on whose data. */
  datatype Write = Write(target: string, submittedIn: string, basis: Option<string>, purpose: Purpose)

  /** The answer that a panel's data came from. */
  datatype Origin = Origin(ticket: Ticket, content: int)

  /** `origin` remembers the last answer that filled each panel while its request was current; a confirmed
      candidate empties the candidates. */
  datatype State = State(
    surface: Surface,
    calls: map<nat, Call>,
    nextCall: nat,
    writes: seq<Write>,
    origin: map<Panel, Origin>)

  datatype Event =
    | BusinessChosen(id: string)
    | PanelOpened(panel: Panel)
    | Submitted(purpose: Purpose)
    | EntryEdited(kind: EntryKind)
    | FormReset(kind: EntryKind)
    | CallAnswered(call: nat, content: int)
    | CallFailed(call: nat)

  predicate IsWrite(purpose: Purpose) {
    !purpose.Load? && !purpose.PrepareUpload?
  }

  predicate Possible(s: State, e: Event) {
    match e
    case Submitted(purpose) =>
      !purpose.Load? && (purpose.ConfirmCandidate? ==> Candidates in s.surface.shown)
    case CallAnswered(call, _) => call in s.calls
    case CallFailed(call) => call in s.calls
    case _ => true
  }

  function StartCall(s: State, ticket: Ticket, purpose: Purpose): State {
    s.(calls := s.calls[s.nextCall := Call(ticket, ticket.businessId, purpose)], nextCall := s.nextCall + 1)
  }

  function Submit(s: State, purpose: Purpose): State {
    var ticket := Issue(s.surface.context);
    var t := StartCall(s, ticket, purpose);
    if IsWrite(purpose)
    then t.(writes := t.writes + [Write(ticket.businessId, s.surface.businessId, Basis(s.surface, purpose), purpose)])
    else t
  }

  /** The panels that an answer fills. */
  function Filled(purpose: Purpose): Option<Panel> {
    match purpose
    case Load(panel, _) => Some(panel)
    case SaveProfile => Some(Profile)
    case SaveLocation => Some(Location)
    case ConfirmCandidate => Some(Location)
    case _ => None
  }

  /** A prepared upload is sent whatever the context is by then; a write of media or of an entry
      that succeeds in its context is followed by a load of what it changed. */
  function AnswerCall(s: State, call: nat, content: int): State
    requires call in s.calls
  {
    var c := s.calls[call];
    var t := s.(calls := s.calls - {call},
                surface := Answered(s.surface, c.ticket, c.purpose, Data(c.target, content)));
    var current := IsCurrent(s.surface.context, c.ticket);
    if c.purpose.PrepareUpload? then
      StartCall(t, c.ticket, ChangeMedia).(
        writes := t.writes + [Write(c.target, c.ticket.businessId, None, ChangeMedia)])
    else if !current then t
    else if c.purpose.ChangeMedia? then StartCall(t, Issue(s.surface.context), Load(Media, None))
    else if c.purpose.SaveEntry? then StartCall(t, Issue(s.surface.context), Load(Catalog, Some(c.purpose.kind)))
    else if Filled(c.purpose).Some? then
      var kept := if c.purpose.ConfirmCandidate? then t.origin - {Candidates} else t.origin;
      t.(origin := kept[Filled(c.purpose).value := Origin(c.ticket, content)])
    else t
  }

  function Next(scopes: seq<string>, s: State, e: Event): State
    requires Possible(s, e)
  {
    match e
    case BusinessChosen(id) =>
      var t := s.(surface := Choose(scopes, s.surface, id));
      if Switches(scopes, id) then StartCall(t, Issue(t.surface.context), Load(Profile, None)) else t
    case PanelOpened(panel) => StartCall(s, Issue(s.surface.context), Load(panel, None))
    case Submitted(purpose) => Submit(s, purpose)
    case EntryEdited(kind) => s.(surface := Edit(s.surface, kind))
    case FormReset(kind) => s.(surface := WithoutEdit(s.surface, Some(kind)))
    case CallAnswered(call, content) => AnswerCall(s, call, content)
    case CallFailed(call) => s.(calls := s.calls - {call})
  }

  predicate CanRun(scopes: seq<string>, s: State, events: seq<Event>)
    decreases |events|
  {
    events == [] || (Possible(s, events[0]) && CanRun(scopes, Next(scopes, s, events[0]), events[1..]))
  }

  function After(scopes: seq<string>, s: State, events: seq<Event>): State
    requires CanRun(scopes, s, events)
    decreases |events|
  {
    if events == [] then s else After(scopes, Next(scopes, s, events[0]), events[1..])
  }

  /** The dashboard after its bootstrap. */
  function Opened(id: string, content: int): State {
    State(Surface(Begin(id).context, id, map[Profile := Data(id, content)], map[]),
          map[], 0, [], map[Profile := Origin(Ticket(id, 0), content)])
  }

  /** Each panel shows the last answer that filled it, of the current business, if that answer's request
      was issued since the last switch; otherwise it is empty. */
  predicate ShownIsCurrent(s: State) {
    forall panel: Panel ::
      if panel in s.origin && IsCurrent(s.surface.context, s.origin[panel].ticket)
      then panel in s.surface.shown
           && s.surface.shown[panel] == Data(s.surface.context.current, s.origin[panel].content)
      else panel !in s.surface.shown
  }

  predicate ContextInOrder(s: State) {
    && s.surface.businessId == s.surface.context.current
    && (forall g :: g in s.surface.context.aborted ==> g < s.surface.context.generation)
    && (forall panel :: panel in s.origin ==> s.origin[panel].ticket.generation <= s.surface.context.generation)
    && forall c :: c in s.calls ==>
         && s.calls[c].target == s.calls[c].ticket.businessId
         && s.calls[c].ticket.generation <= s.surface.context.generation
  }

  /** Each write goes to the business that was current when it was submitted, and what it takes from
      the shown panels is of that business. */
  predicate WritesStayHome(s: State) {
    forall w :: w in s.writes ==>
      && w.target == w.submittedIn
      && (w.basis.Some? && !w.purpose.SaveEntry? ==> w.basis.value == w.target)
  }

  predicate Inv(s: State) {
    ContextInOrder(s) && ShownIsCurrent(s) && WritesStayHome(s)
  }

  lemma AnswerKeeps(s: State, call: nat, content: int)
    requires Inv(s) && call in s.calls
    ensures Inv(AnswerCall(s, call, content))
  {
    hide ShownIsCurrent, Answered;
    assert s.calls[call].target == s.calls[call].ticket.businessId;
    AnswerShowsCurrent(s, call, content);
    AnswerKeepsOrder(s, call, content);
  }

  lemma AnswerKeepsOrder(s: State, call: nat, content: int)
    requires ContextInOrder(s) && call in s.calls
    ensures ContextInOrder(AnswerCall(s, call, content))
  {
    var c := s.calls[call];
    assert Answered(s.surface, c.ticket, c.purpose, Data(c.target, content)).context == s.surface.context;
  }

  lemma AnswerShowsCurrent(s: State, call: nat, content: int)
    requires ContextInOrder(s) && ShownIsCurrent(s) && call in s.calls
    ensures ShownIsCurrent(AnswerCall(s, call, content))
  {
    var c := s.calls[call];
    match c.purpose
    case Load(panel, resets) =>
    case SaveProfile =>
    case SaveLocation =>
    case ConfirmCandidate =>
    case _ =>
  }

  lemma SubmitKeeps(s: State, purpose: Purpose)
    requires Inv(s) && Possible(s, Submitted(purpose))
    ensures Inv(Submit(s, purpose))
  {
  }

  lemma StepKeeps(scopes: seq<string>, s: State, e: Event)
    requires Inv(s) && Possible(s, e)
    ensures Inv(Next(scopes, s, e))
  {
    match e
    case Submitted(purpose) => SubmitKeeps(s, purpose);
    case CallAnswered(call, content) => AnswerKeeps(s, call, content);
    case _ =>
  }

  lemma {:induction false} RunKeeps(scopes: seq<string>, s: State, events: seq<Event>)
    requires Inv(s) && CanRun(scopes, s, events)
    ensures Inv(After(scopes, s, events))
    decreases |events|
  {
    if events != [] {
      StepKeeps(scopes, s, events[0]);
      RunKeeps(scopes, Next(scopes, s, events[0]), events[1..]);
    }
  }

  /** In every interleaving of switches, loads and saves, going back to a business included, each
      panel is empty or shows data of the current business, requested since it became current; and
      every write went to the business that was current when it was submitted. */
  lemma NoBusinessSeesAnother(scopes: seq<string>, id: string, content: int, events: seq<Event>)
    requires CanRun(scopes, Opened(id, content), events)
    ensures
      var s := After(scopes, Opened(id, content), events);
      && s.surface.businessId == s.surface.context.current
      && (forall panel :: panel in s.surface.shown ==>
            && s.surface.shown[panel].business == s.surface.context.current
            && panel in s.origin && s.origin[panel].ticket.generation == s.surface.context.generation)
      && (forall w :: w in s.writes ==> w.target == w.submittedIn)
      && (forall w :: w in s.writes && w.basis.Some? && !w.purpose.SaveEntry? ==> w.basis.value == w.target)
  {
    RunKeeps(scopes, Opened(id, content), events);
  }

  // ---------------------------------------------------------------- what an answer shows

  /** An answer whose request is no longer current changes nothing that is shown. A current one puts
      exactly its data in the panel that it is for; a confirmed candidate empties the candidates, and a
      load that follows a saved entry its form; everything else stays. */
  lemma AnswerShows(s: State, call: nat, content: int)
    requires call in s.calls
    ensures
      var c, before, after := s.calls[call], s.surface, AnswerCall(s, call, content).surface;
      var current := c.ticket.businessId == before.context.current && c.ticket.generation == before.context.generation
        && before.context.generation !in before.context.aborted;
      if !current then after == before
      else
        && after == before.(shown := after.shown, editing := after.editing)
        && match c.purpose
           case Load(panel, resets) =>
             && after.shown == before.shown[panel := Data(c.target, content)]
             && after.editing == if resets.Some? then before.editing - {resets.value} else before.editing
           case SaveProfile =>
             after.shown == before.shown[Profile := Data(c.target, content)] && after.editing == before.editing
           case SaveLocation =>
             after.shown == before.shown[Location := Data(c.target, content)] && after.editing == before.editing
           case ConfirmCandidate =>
             && after.shown == (before.shown - {Candidates})[Location := Data(c.target, content)]
             && after.editing == before.editing
           case _ => after == before
  {
  }

  /** An answer ends its call. A prepared upload goes on to change the media of its business, current or
      not; a current change of the media loads them again, and a current saved entry the catalogue. */
  lemma AnswerGoesOn(s: State, call: nat, content: int)
    requires call in s.calls
    ensures
      var c, t := s.calls[call], AnswerCall(s, call, content);
      var now := s.surface.context;
      var current := c.ticket.businessId == now.current && c.ticket.generation == now.generation
        && now.generation !in now.aborted;
      t.calls ==
        match c.purpose
        case PrepareUpload => (s.calls - {call})[s.nextCall := Call(c.ticket, c.ticket.businessId, ChangeMedia)]
        case ChangeMedia =>
          if current then (s.calls - {call})[s.nextCall := Call(c.ticket, now.current, Load(Media, None))]
          else s.calls - {call}
        case SaveEntry(kind) =>
          if current then (s.calls - {call})[s.nextCall := Call(c.ticket, now.current, Load(Catalog, Some(kind)))]
          else s.calls - {call}
        case _ => s.calls - {call}
  {
  }

  /** In every run each panel shows the data of the last current answer that filled it, if that was
      requested since the last switch, and nothing otherwise. */
  lemma PanelsShowTheLastAnswers(scopes: seq<string>, id: string, content: int, events: seq<Event>, panel: Panel)
    requires CanRun(scopes, Opened(id, content), events)
    ensures
      var s := After(scopes, Opened(id, content), events);
      var asked := panel in s.origin && s.origin[panel].ticket == Issue(s.surface.context);
      && (panel in s.surface.shown <==> asked)
      && (asked ==> s.surface.shown[panel] == Data(s.surface.context.current, s.origin[panel].content))
  {
    RunKeeps(scopes, Opened(id, content), events);
  }

  /** A switch to a business in scope makes it current, empties every panel and leaves the forms; any
      other choice changes nothing. */
  lemma SwitchShows(scopes: seq<string>, s: State, id: string)
    ensures
      var after := Next(scopes, s, BusinessChosen(id)).surface;
      if id != "" && id in scopes
      then after.context.current == id && after.businessId == id && after.shown == map[]
           && after.editing == s.surface.editing
      else after == s.surface
  {
  }

  /** A write goes to the current business and is on record with the business of what it rests on: the
      panel that it changes, or the entry in its form. */
  lemma SubmissionIsRecorded(s: State, purpose: Purpose)
    requires Possible(s, Submitted(purpose))
    ensures
      var t := Submit(s, purpose);
      var rests := match purpose
        case SaveProfile => if Profile in s.surface.shown then Some(s.surface.shown[Profile].business) else None
        case SaveLocation => if Location in s.surface.shown then Some(s.surface.shown[Location].business) else None
        case ConfirmCandidate => Some(s.surface.shown[Candidates].business)
        case ChangeMedia => if Media in s.surface.shown then Some(s.surface.shown[Media].business) else None
        case SaveEntry(kind) => if kind in s.surface.editing then Some(s.surface.editing[kind]) else None
        case _ => None;
      && t.surface == s.surface
      && t.calls == s.calls[s.nextCall := Call(Issue(s.surface.context), s.surface.context.current, purpose)]
      && t.writes == if purpose.PrepareUpload? then s.writes
                     else s.writes + [Write(s.surface.context.current, s.surface.businessId, rests, purpose)]
  {
  }

  /** An entry taken into its form carries the business of the catalogue that is shown. */
  lemma EditTakesTheShownEntry(scopes: seq<string>, s: State, kind: EntryKind)
    ensures
      var after := Next(scopes, s, EntryEdited(kind)).surface;
      after == if Catalog in s.surface.shown
               then s.surface.(editing := s.surface.editing[kind := s.surface.shown[Catalog].business])
               else s.surface
  {
  }

  // ---------------------------------------------------------------- edit forms

  /** The edit forms hold entries of the current business only. */
  predicate EditsAtHome(s: State) {
    forall kind :: kind in s.surface.editing ==> s.surface.editing[kind] == s.surface.context.current
  }

  /** A switch to another business leaves the edit forms at home if and only if they were all empty. */
  lemma SwitchKeepsEditsAtHomeIff(scopes: seq<string>, s: State, id: string)
    requires Inv(s) && EditsAtHome(s) && Switches(scopes, id) && id != s.surface.context.current
    ensures EditsAtHome(Next(scopes, s, BusinessChosen(id))) <==> s.surface.editing == map[]
  {
    if kind :| kind in s.surface.editing {
      assert kind in Next(scopes, s, BusinessChosen(id)).surface.editing;
    }
  }

  /** The event switches to no other business over a form that holds an entry. */
  predicate LeavesFormsHome(scopes: seq<string>, s: State, e: Event) {
    e.BusinessChosen? && Switches(scopes, e.id) ==> e.id == s.surface.context.current || s.surface.editing == map[]
  }

  predicate AllLeaveFormsHome(scopes: seq<string>, s: State, events: seq<Event>)
    requires CanRun(scopes, s, events)
    decreases |events|
  {
    events == [] || (LeavesFormsHome(scopes, s, events[0])
                     && AllLeaveFormsHome(scopes, Next(scopes, s, events[0]), events[1..]))
  }

  /** The write saves an entry to another business than the one it came from. */
  predicate Strays(w: Write) {
    w.purpose.SaveEntry? && w.basis.Some? && w.basis.value != w.target
  }

  /** No event but such a switch sends an edit form away from home, and with the forms at home every
      entry is saved to the business that it came from. */
  lemma EditsStayHome(scopes: seq<string>, s: State, e: Event)
    requires Inv(s) && EditsAtHome(s) && Possible(s, e) && LeavesFormsHome(scopes, s, e)
    ensures
      var t := Next(scopes, s, e);
      && EditsAtHome(t) && s.writes <= t.writes
      && forall i :: |s.writes| <= i < |t.writes| && t.writes[i].basis.Some? ==>
           t.writes[i].basis.value == t.writes[i].target
  {
    match e
    case Submitted(purpose) =>
    case CallAnswered(call, content) =>
    case _ =>
  }

  lemma {:induction false} NoEntryStrays(scopes: seq<string>, s: State, events: seq<Event>)
    requires Inv(s) && EditsAtHome(s) && CanRun(scopes, s, events) && AllLeaveFormsHome(scopes, s, events)
    ensures
      var t := After(scopes, s, events);
      s.writes <= t.writes && forall i :: |s.writes| <= i < |t.writes| ==> !Strays(t.writes[i])
    decreases |events|
  {
    if events != [] {
      var next := Next(scopes, s, events[0]);
      EditsStayHome(scopes, s, events[0]);
      StepKeeps(scopes, s, events[0]);
      NoEntryStrays(scopes, next, events[1..]);
      var t := After(scopes, next, events[1..]);
      assert forall i :: 0 <= i < |next.writes| ==> t.writes[i] == next.writes[i];
    }
  }

  /** Some continuation, in which no further switch leaves an entry behind in a form, saves an entry to
      another business than the one it came from. */
  ghost predicate CanStray(scopes: seq<string>, s: State) {
    exists events :: StraysIn(scopes, s, events)
  }

  ghost predicate StraysIn(scopes: seq<string>, s: State, events: seq<Event>) {
    && CanRun(scopes, s, events) && AllLeaveFormsHome(scopes, s, events)
    && exists i :: |s.writes| <= i < |After(scopes, s, events).writes| && Strays(After(scopes, s, events).writes[i])
  }

  lemma CanStrayIff(scopes: seq<string>, s: State)
    requires Inv(s)
    ensures CanStray(scopes, s) <==> !EditsAtHome(s)
  {
    if EditsAtHome(s) {
      forall events | CanRun(scopes, s, events) && AllLeaveFormsHome(scopes, s, events)
        ensures !StraysIn(scopes, s, events)
      {
        NoEntryStrays(scopes, s, events);
      }
    } else {
      var kind :| kind in s.surface.editing && s.surface.editing[kind] != s.surface.context.current;
      var save := Submitted(SaveEntry(kind));
      var t := Next(scopes, s, save);
      assert CanRun(scopes, t, []);
      Unroll(scopes, s, save, []);
      assert [save] + [] == [save];
      assert AllLeaveFormsHome(scopes, t, []);
      assert AllLeaveFormsHome(scopes, s, [save]);
      assert Strays(t.writes[|s.writes|]);
      assert StraysIn(scopes, s, [save]);
    }
  }

  /** A switch to another business lets an entry be saved to a business that it did not come from if
      and only if a form holds one: the dashboard does not reset its forms. */
  lemma SwitchLetsEntriesStrayIff(scopes: seq<string>, s: State, id: string)
    requires Inv(s) && EditsAtHome(s) && Switches(scopes, id) && id != s.surface.context.current
    ensures CanStray(scopes, Next(scopes, s, BusinessChosen(id))) <==> s.surface.editing != map[]
  {
    StepKeeps(scopes, s, BusinessChosen(id));
    SwitchKeepsEditsAtHomeIff(scopes, s, id);
    CanStrayIff(scopes, Next(scopes, s, BusinessChosen(id)));
  }

  /** An entry taken into its form under one business and saved under the next. */
  lemma EntrySavedToAnotherBusiness()
    ensures
      var scopes := ["a", "b"];
      var events := [PanelOpened(Catalog), CallAnswered(0, 1), EntryEdited(Product), BusinessChosen("b"),
                     Submitted(SaveEntry(Product))];
      && CanRun(scopes, Opened("a", 0), events)
      && After(scopes, Opened("a", 0), events).writes == [Write("b", "b", Some("a"), SaveEntry(Product))]
  {
    var scopes := ["a", "b"];
    var s0 := Opened("a", 0);
    var s1 := Next(scopes, s0, PanelOpened(Catalog));
    var s2 := Next(scopes, s1, CallAnswered(0, 1));
    var s3 := Next(scopes, s2, EntryEdited(Product));
    var s4 := Next(scopes, s3, BusinessChosen("b"));
    var s5 := Next(scopes, s4, Submitted(SaveEntry(Product)));
    assert s5.writes == [Write("b", "b", Some("a"), SaveEntry(Product))];
    Unroll(scopes, s4, Submitted(SaveEntry(Product)), []);
    Unroll(scopes, s3, BusinessChosen("b"), [Submitted(SaveEntry(Product))]);
    Unroll(scopes, s2, EntryEdited(Product), [BusinessChosen("b"), Submitted(SaveEntry(Product))]);
    Unroll(scopes, s1, CallAnswered(0, 1), [EntryEdited(Product), BusinessChosen("b"), Submitted(SaveEntry(Product))]);
    Unroll(scopes, s0, PanelOpened(Catalog),
      [CallAnswered(0, 1), EntryEdited(Product), BusinessChosen("b"), Submitted(SaveEntry(Product))]);
  }

  lemma Unroll(scopes: seq<string>, s: State, e: Event, rest: seq<Event>)
    requires Possible(s, e) && CanRun(scopes, Next(scopes, s, e), rest)
    ensures CanRun(scopes, s, [e] + rest)
    ensures After(scopes, s, [e] + rest) == After(scopes, Next(scopes, s, e), rest)
  {
    assert ([e] + rest)[1..] == rest;
  }
}

/** The tour selector: choices that overtake each other, and a queue that runs their bodies one at a time. */
module TourSelection {
  import opened Options

  datatype TourState = Idle | Switching | Ready | Error

  /** What the selector, the map's attributes and the tour controller hold. */
  datatype Tours = Tours(
    generation: nat,
    disabled: bool,
    ariaBusy: bool,
    tourState: TourState,
    activeTour: Option<string>,
    controllerTour: Option<string>)

  const READY := Tours(0, false, false, Idle, None, None)

  function Choose(t: Tours): Tours {
    t.(generation := t.generation + 1, disabled := true, ariaBusy := true, tourState := Switching)
  }

  function Reset(t: Tours): Tours {
    t.(generation := t.generation + 1, disabled := false, ariaBusy := false, controllerTour := None)
  }

  /** The last part of every request. */
  function Settle(t: Tours, generation: nat): Tours {
    if generation != t.generation then t else t.(disabled := false, ariaBusy := false)
  }

  function Publish(t: Tours, tour: string): Tours {
    t.(activeTour := Some(tour), tourState := Ready)
  }

  function Fail(t: Tours): Tours {
    t.(activeTour := t.controllerTour, tourState := Error)
  }

  class TourSelector {
    var generation: nat
    var disabled: bool
    var ariaBusy: bool
    var tourState: TourState
    var activeTour: Option<string>
    var controllerTour: Option<string>

    ghost function View(): Tours
      reads this
    {
      Tours(generation, disabled, ariaBusy, tourState, activeTour, controllerTour)
    }

    constructor ()
      ensures View() == READY
    {
      generation, disabled, ariaBusy := 0, false, false;
      tourState, activeTour, controllerTour := Idle, None, None;
    }

    /** The selector changed to a known tour. */
    method Change() returns (selectionGeneration: nat)
      modifies this
      ensures View() == Choose(old(View())) && selectionGeneration == generation
    {
      generation := generation + 1;
      selectionGeneration := generation;
      disabled := true;
      ariaBusy := true;
      tourState := Switching;
    }

    method ResetSelection()
      modifies this
      ensures View() == Reset(old(View()))
    {
      generation := generation + 1;
      controllerTour := None;
      disabled := false;
      ariaBusy := false;
    }

    /** The controller selected a tour, whether or not the request is still the newest. */
    method Take(tour: string)
      modifies this
      ensures View() == old(View()).(controllerTour := Some(tour))
    {
      controllerTour := Some(tour);
    }

    /** What is left of a request once its tour was selected and presented, or was not. */
    method Conclude(selectionGeneration: nat, tour: Option<string>, failed: bool)
      modifies this
      ensures
        var t := old(View());
        View() == Settle(if selectionGeneration != t.generation then t
                         else if failed then Fail(t)
                         else if tour.Some? then Publish(t, tour.value)
                         else t, selectionGeneration)
    {
      if failed {
        if selectionGeneration == generation {
          activeTour := controllerTour;
          tourState := Error;
        }
      } else if tour.Some? && selectionGeneration == generation {
        activeTour := tour;
        tourState := Ready;
      }
      if selectionGeneration != generation {
        return;
      }
      disabled := false;
      ariaBusy := false;
    }
  }

  // ---------------------------------------------------------------- the queue

  datatype Phase = Queued | Preparing | Selecting | Presenting | Settled

  datatype Request = Request(generation: nat, phase: Phase, selected: string)

  /** A tour or an error was published by generation `author`, while `newest` was the newest one. */
  datatype Publication = Publication(author: nat, newest: nat, tour: Option<string>, failed: bool)

  /** `published` remembers every publication, in order. */
  datatype State = State(tours: Tours, queue: seq<Request>, published: seq<Publication>)

  /** `boundary` says whether the map still belongs to the request; it is asked again at each step. */
  datatype Event =
    | TourChosen
    | SelectionReset
    | Started(i: nat)
    | Prepared(i: nat, boundary: bool, failed: bool)
    | Selected(i: nat, boundary: bool, tour: Option<string>, failed: bool)
    | Presented(i: nat, boundary: bool, published: bool, failed: bool)

  predicate InPhase(s: State, i: nat, phase: Phase) {
    i < |s.queue| && s.queue[i].phase == phase
  }

  /** A request starts once the one before it has settled. */
  predicate Possible(s: State, e: Event) {
    match e
    case TourChosen => true
    case SelectionReset => true
    case Started(i) => InPhase(s, i, Queued) && (i > 0 ==> InPhase(s, i - 1, Settled))
    case Prepared(i, _, _) => InPhase(s, i, Preparing)
    case Selected(i, _, _, _) => InPhase(s, i, Selecting)
    case Presented(i, _, _, _) => InPhase(s, i, Presenting)
  }

  function To(s: State, i: nat, phase: Phase): State
    requires i < |s.queue|
  {
    s.(queue := s.queue[i := s.queue[i].(phase := phase)])
  }

  function Newest(s: State, i: nat): bool
    requires i < |s.queue|
  {
    s.queue[i].generation == s.tours.generation
  }

  /** The request ends without a word. */
  function Drop(s: State, i: nat): State
    requires i < |s.queue|
  {
    To(s, i, Settled).(tours := Settle(s.tours, s.queue[i].generation))
  }

  function Break(s: State, i: nat): State
    requires i < |s.queue|
  {
    var g := s.queue[i].generation;
    if g != s.tours.generation then Drop(s, i)
    else To(s, i, Settled).(tours := Settle(Fail(s.tours), g),
                            published := s.published
                                         + [Publication(g, s.tours.generation, s.tours.controllerTour, true)])
  }

  function Show(s: State, i: nat): State
    requires i < |s.queue|
  {
    var g := s.queue[i].generation;
    To(s, i, Settled).(tours := Settle(Publish(s.tours, s.queue[i].selected), g),
                       published := s.published
                                    + [Publication(g, s.tours.generation, Some(s.queue[i].selected), false)])
  }

  /** The controller selected `tour` for request `i`. */
  function Chose(s: State, i: nat, tour: string): State
    requires i < |s.queue|
  {
    s.(tours := s.tours.(controllerTour := Some(tour)), queue := s.queue[i := s.queue[i].(selected := tour)])
  }

  function Next(s: State, e: Event): State
    requires Possible(s, e)
  {
    match e
    case TourChosen =>
      var t := Choose(s.tours);
      s.(tours := t, queue := s.queue + [Request(t.generation, Queued, "")])
    case SelectionReset => s.(tours := Reset(s.tours))
    case Started(i) => To(s, i, Preparing)
    case Prepared(i, boundary, failed) =>
      if failed then Break(s, i) else if !boundary || !Newest(s, i) then Drop(s, i) else To(s, i, Selecting)
    case Selected(i, boundary, tour, failed) =>
      if failed then Break(s, i)
      else if tour.None? then Drop(s, i)
      else
        var t := Chose(s, i, tour.value);
        if !boundary || !Newest(t, i) then Drop(t, i) else To(t, i, Presenting)
    case Presented(i, boundary, published, failed) =>
      if failed then Break(s, i)
      else if !boundary || !Newest(s, i) || !published then Drop(s, i)
      else Show(s, i)
  }

  predicate CanRun(s: State, events: seq<Event>)
    decreases |events|
  {
    events == [] || (Possible(s, events[0]) && CanRun(Next(s, events[0]), events[1..]))
  }

  function After(s: State, events: seq<Event>): State
    requires CanRun(s, events)
    decreases |events|
  {
    if events == [] then s else After(Next(s, events[0]), events[1..])
  }

  const START := State(READY, [], [])

  predicate Running(r: Request) {
    r.phase != Queued && r.phase != Settled
  }

  predicate NewestPending(s: State) {
    |s.queue| > 0 && Newest(s, |s.queue| - 1) && s.queue[|s.queue| - 1].phase != Settled
  }

  predicate QueueInOrder(s: State) {
    && (forall i, j :: 0 <= i < j < |s.queue| ==> s.queue[i].generation < s.queue[j].generation)
    && (forall i :: 0 <= i < |s.queue| ==> 0 < s.queue[i].generation <= s.tours.generation)
    && (forall i, j :: 0 <= i < j < |s.queue| && s.queue[j].phase != Queued ==> s.queue[i].phase == Settled)
  }

  predicate PublishedInOrder(s: State) {
    && (forall i, j :: 0 <= i < j < |s.published| ==> s.published[i].author < s.published[j].author)
    && (forall k :: 0 <= k < |s.published| ==> s.published[k].author == s.published[k].newest <= s.tours.generation)
    && (NewestPending(s) ==> forall k :: 0 <= k < |s.published| ==> s.published[k].author < s.tours.generation)
  }

  predicate Inv(s: State) {
    && QueueInOrder(s)
    && PublishedInOrder(s)
    && (s.tours.disabled <==> NewestPending(s))
    && s.tours.ariaBusy == s.tours.disabled
  }

  lemma ToKeepsOrder(s: State, i: nat, phase: Phase)
    requires QueueInOrder(s) && i < |s.queue|
    requires phase != Queued
    requires forall j :: 0 <= j < i ==> s.queue[j].phase == Settled
    requires phase != Settled ==> forall j :: i < j < |s.queue| ==> s.queue[j].phase == Queued
    ensures QueueInOrder(To(s, i, phase))
  {
  }

  /** Only the last request of the queue can be the newest one. */
  lemma NewestIsLast(s: State, i: nat)
    requires QueueInOrder(s) && i < |s.queue| && Newest(s, i)
    ensures i == |s.queue| - 1
  {
    var last := |s.queue| - 1;
    assert s.queue[last].generation <= s.tours.generation;
    assert forall j :: 0 <= j < last ==> s.queue[j].generation < s.queue[last].generation;
  }

  lemma RunningAlone(s: State, i: nat)
    requires QueueInOrder(s) && i < |s.queue| && Running(s.queue[i])
    ensures forall j :: 0 <= j < i ==> s.queue[j].phase == Settled
    ensures forall j :: i < j < |s.queue| ==> s.queue[j].phase == Queued
  {
  }

  /** Whatever ends a request that runs, with or without a word. */
  lemma DropKeeps(s: State, i: nat)
    requires Inv(s) && i < |s.queue| && Running(s.queue[i])
    ensures Inv(Drop(s, i))
  {
    RunningAlone(s, i);
    ToKeepsOrder(s, i, Settled);
    if Newest(s, i) {
      NewestIsLast(s, i);
    } else if NewestPending(s) {
      assert i != |s.queue| - 1;
    }
  }

  lemma BreakKeeps(s: State, i: nat)
    requires Inv(s) && i < |s.queue| && Running(s.queue[i])
    ensures Inv(Break(s, i))
  {
    RunningAlone(s, i);
    ToKeepsOrder(s, i, Settled);
    if Newest(s, i) {
      NewestIsLast(s, i);
    } else if NewestPending(s) {
      assert i != |s.queue| - 1;
    }
  }

  lemma ShowKeeps(s: State, i: nat)
    requires Inv(s) && i < |s.queue| && Running(s.queue[i]) && Newest(s, i)
    ensures Inv(Show(s, i))
  {
    RunningAlone(s, i);
    ToKeepsOrder(s, i, Settled);
    NewestIsLast(s, i);
  }

  lemma GoOnKeeps(s: State, i: nat, phase: Phase)
    requires Inv(s) && i < |s.queue| && s.queue[i].phase != Settled && phase != Queued && phase != Settled
    requires forall j :: 0 <= j < i ==> s.queue[j].phase == Settled
    requires forall j :: i < j < |s.queue| ==> s.queue[j].phase == Queued
    ensures Inv(To(s, i, phase))
  {
    ToKeepsOrder(s, i, phase);
  }

  lemma SelectedKeeps(s: State, i: nat, tour: string)
    requires Inv(s) && i < |s.queue|
    ensures Inv(Chose(s, i, tour))
  {
  }

  lemma ChooseKeeps(s: State)
    requires Inv(s)
    ensures Inv(Next(s, TourChosen)) && Inv(Next(s, SelectionReset))
  {
  }

  lemma StepKeeps(s: State, e: Event)
    requires Inv(s) && Possible(s, e)
    ensures Inv(Next(s, e))
  {
    match e
    case TourChosen => ChooseKeeps(s);
    case SelectionReset => ChooseKeeps(s);
    case Started(i) => GoOnKeeps(s, i, Preparing);
    case Prepared(i, boundary, failed) =>
      RunningAlone(s, i);
      DropKeeps(s, i);
      BreakKeeps(s, i);
      GoOnKeeps(s, i, Selecting);
    case Selected(i, boundary, tour, failed) =>
      if !failed && tour.Some? {
        SelectionKeeps(s, i, boundary, tour.value);
      } else {
        DropKeeps(s, i);
        BreakKeeps(s, i);
      }
    case Presented(i, boundary, published, failed) =>
      DropKeeps(s, i);
      BreakKeeps(s, i);
      if Newest(s, i) { ShowKeeps(s, i); }
  }

  lemma SelectionKeeps(s: State, i: nat, boundary: bool, tour: string)
    requires Inv(s) && InPhase(s, i, Selecting)
    ensures Inv(Next(s, Selected(i, boundary, Some(tour), false)))
  {
    SelectedKeeps(s, i, tour);
    var t := Chose(s, i, tour);
    RunningAlone(t, i);
    DropKeeps(t, i);
    GoOnKeeps(t, i, Presenting);
  }

  lemma {:induction false} RunKeeps(s: State, events: seq<Event>)
    requires Inv(s) && CanRun(s, events)
    ensures Inv(After(s, events))
    decreases |events|
  {
    if events != [] {
      StepKeeps(s, events[0]);
      RunKeeps(Next(s, events[0]), events[1..]);
    }
  }

  /** In every run at most one selection body is under way, requests settle in the order in which
      they were made, and the selector is disabled exactly while the newest request is unsettled. */
  lemma OneBodyAtATime(events: seq<Event>)
    requires CanRun(START, events)
    ensures
      var s := After(START, events);
      && (forall i, j :: 0 <= i < j < |s.queue| ==> !(Running(s.queue[i]) && Running(s.queue[j])))
      && (forall i, j :: 0 <= i < j < |s.queue| && s.queue[j].phase == Settled ==> s.queue[i].phase == Settled)
      && (s.tours.disabled <==> NewestPending(s))
      && ((forall i :: 0 <= i < |s.queue| ==> s.queue[i].phase == Settled) ==> !s.tours.disabled && !s.tours.ariaBusy)
  {
    RunKeeps(START, events);
  }

  /** A tour or an error is published only by the newest choice: one that was overtaken by a newer one
      or by a reset publishes nothing, and none publishes twice. */
  lemma PublishedInOrderOfChoice(events: seq<Event>)
    requires CanRun(START, events)
    ensures
      var published := After(START, events).published;
      && (forall p :: p in published ==> p.author == p.newest)
      && forall i, j :: 0 <= i < j < |published| ==> published[i].author < published[j].author
  {
    RunKeeps(START, events);
  }

  /** What is shown of a tour changes only by a new choice or by the newest request, which is on record:
      with the tour that the controller selected for it, or after a failure with whatever it has. */
  lemma OnlyTheNewestPublishes(s: State, e: Event)
    requires Inv(s) && Possible(s, e)
    requires Next(s, e).tours.activeTour != s.tours.activeTour
          || (Next(s, e).tours.tourState != s.tours.tourState && !e.TourChosen?)
          || Next(s, e).published != s.published
    ensures !e.TourChosen? && !e.SelectionReset? && !e.Started? && e.i == |s.queue| - 1 && Newest(s, e.i)
    ensures !e.failed ==> e.Presented? && e.published && e.boundary
    ensures
      var said := if e.failed then s.tours.controllerTour else Some(s.queue[e.i].selected);
      Next(s, e).published == s.published + [Publication(s.tours.generation, s.tours.generation, said, e.failed)]
  {
    if !e.TourChosen? && !e.SelectionReset? && Newest(s, e.i) {
      NewestIsLast(s, e.i);
    }
  }

  /** The newest request publishes its tour once it is presented, and every failure of it. */
  lemma TheNewestPublishes(s: State, e: Event)
    requires Inv(s) && Possible(s, e) && !e.TourChosen? && !e.SelectionReset? && !e.Started? && Newest(s, e.i)
    requires e.failed || (e.Presented? && e.published && e.boundary)
    ensures |Next(s, e).published| == |s.published| + 1
  {
  }

  /** The controller holds the tour that it selected last, and none after a reset. */
  lemma ControllerFollows(s: State, e: Event)
    requires Possible(s, e)
    ensures
      Next(s, e).tours.controllerTour ==
        match e
        case Selected(_, _, Some(tour), false) => Some(tour)
        case SelectionReset => None
        case _ => s.tours.controllerTour
    ensures e.Selected? && !e.failed && e.tour.Some? ==> Some(Next(s, e).queue[e.i].selected) == e.tour
    ensures forall i :: 0 <= i < |s.queue| && !(e.Selected? && e.i == i) ==>
              Next(s, e).queue[i].selected == s.queue[i].selected
  {
  }

  /** What the page shows is what was published last; until the newest request has published, it says
      that the tour is being switched. */
  predicate ShowsLast(s: State) {
    var n := |s.published|;
    && s.tours.activeTour == (if n == 0 then None else s.published[n - 1].tour)
    && s.tours.tourState ==
       if s.queue != [] && (n == 0 || s.published[n - 1].author != s.queue[|s.queue| - 1].generation) then Switching
       else if n == 0 then Idle
       else if s.published[n - 1].failed then Error else Ready
  }

  lemma StepShowsLast(s: State, e: Event)
    requires Inv(s) && Possible(s, e) && ShowsLast(s)
    ensures ShowsLast(Next(s, e))
  {
    if e.TourChosen? {
      assert s.published != [] ==> s.published[|s.published| - 1].author <= s.tours.generation;
    } else if !e.SelectionReset? && Newest(s, e.i) {
      NewestIsLast(s, e.i);
    }
  }

  lemma {:induction false} RunShowsLast(s: State, events: seq<Event>)
    requires Inv(s) && CanRun(s, events) && ShowsLast(s)
    ensures ShowsLast(After(s, events))
    decreases |events|
  {
    if events != [] {
      StepKeeps(s, events[0]);
      StepShowsLast(s, events[0]);
      RunShowsLast(Next(s, events[0]), events[1..]);
    }
  }

  /** In every run the page shows the tour or the error that was published last, unless a newer choice
      has not been heard of yet. */
  lemma LastPublicationIsShown(events: seq<Event>)
    requires CanRun(START, events)
    ensures ShowsLast(After(START, events))
  {
    RunShowsLast(START, events);
  }

  /** The selector is enabled again only by a reset or by the newest request. */
  lemma EnabledByResetOrNewest(s: State, e: Event)
    requires Inv(s) && Possible(s, e) && s.tours.disabled && !Next(s, e).tours.disabled
    ensures
      || e.SelectionReset?
      || (!e.TourChosen? && e.i == |s.queue| - 1 && Newest(s, e.i) && InPhase(Next(s, e), e.i, Settled))
  {
    if !e.TourChosen? && !e.SelectionReset? && Newest(s, e.i) {
      NewestIsLast(s, e.i);
    }
  }
}

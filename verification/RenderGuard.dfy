/** The control center: views rendered by asynchronous functions, the newest of which wins as long as
    each of them looks at its guard after every wait. */
module RenderGuard {
  import opened Options

  /** What the content area holds, and of which view. */
  datatype Content = Blank | Loading(view: string) | Module(view: string) | Failed(view: string)

  /** `writer` is the generation that wrote the content last. */
  datatype Screen = Screen(
    renderGeneration: nat,
    view: string,
    content: Content,
    writer: nat,
    renderedView: Option<string>,
    busy: bool)

  const BOOTED := Screen(0, "", Blank, 0, None, false)

  /** A stretch of a view function or of a handler between two waits: whether it begins by returning
      when its guard is no longer current, whether it then calls a view function, which takes a new
      guard, and whether it writes the content. */
  datatype Segment = Segment(checks: bool, renews: bool, writes: bool)

  /** How a wait ends: answered, rejected, or answered to a segment that throws after its write. */
  datatype Outcome = Answered | Rejected | Breaks

  datatype Kind = Rendering | Handling

  function StartRender(s: Screen, view: string): Screen {
    Screen(s.renderGeneration + 1, view, Loading(view), s.renderGeneration + 1, None, true)
  }

  predicate IsCurrent(s: Screen, generation: nat) {
    generation == s.renderGeneration
  }

  function Write(s: Screen, generation: nat, content: Content): Screen {
    s.(content := content, writer := generation)
  }

  /** Whether a segment returns at its guard. */
  predicate Returns(s: Screen, guard: nat, segment: Segment) {
    segment.checks && !IsCurrent(s, guard)
  }

  function Guard(s: Screen, guard: nat, segment: Segment): nat {
    if segment.renews then s.renderGeneration else guard
  }

  function RunSegment(s: Screen, guard: nat, view: string, segment: Segment): Screen {
    if !Returns(s, guard, segment) && segment.writes then Write(s, Guard(s, guard, segment), Module(view)) else s
  }

  /** The last part of a render, which runs whether or not it is still current. */
  function Finish(s: Screen, generation: nat, view: string): Screen {
    if IsCurrent(s, generation) then s.(renderedView := Some(view), busy := false) else s
  }

  /** What follows an error of a render; a handler shows its errors outside of the content. */
  function Catch(s: Screen, kind: Kind, generation: nat, view: string): Screen {
    if kind.Rendering? && IsCurrent(s, generation)
    then Finish(Write(s, generation, Failed(view)), generation, view) else s
  }

  /** A segment ran and nothing follows it. */
  function End(s: Screen, kind: Kind, generation: nat, view: string): Screen {
    if kind.Rendering? then Finish(s, generation, view) else s
  }

  /** A render or a handler that waits: the generation it was begun in, the guard it holds, the view
      it is of, and the segments that are left of it. */
  datatype Task = Task(kind: Kind, generation: nat, guard: nat, view: string, rest: seq<Segment>)

  /** A wait of task `t` has ended, and its next segment runs. */
  function Resume(s: Screen, t: Task, outcome: Outcome): Screen
    requires t.rest != []
  {
    var ran := RunSegment(s, t.guard, t.view, t.rest[0]);
    if outcome.Rejected? then Catch(s, t.kind, t.generation, t.view)
    else if Returns(s, t.guard, t.rest[0]) then End(s, t.kind, t.generation, t.view)
    else if outcome.Breaks? then Catch(ran, t.kind, t.generation, t.view)
    else if |t.rest| == 1 then End(ran, t.kind, t.generation, t.view)
    else ran
  }

  /** What is left of the task, if it waits again. */
  function Remaining(s: Screen, t: Task, outcome: Outcome): Option<Task>
    requires t.rest != []
  {
    if outcome.Answered? && !Returns(s, t.guard, t.rest[0]) && |t.rest| > 1
    then Some(t.(guard := Guard(s, t.guard, t.rest[0]), rest := t.rest[1..])) else None
  }

  class ControlCenter {
    var renderGeneration: nat
    var view: string
    var content: Content
    var writer: nat
    var renderedView: Option<string>
    var busy: bool

    ghost function Value(): Screen
      reads this
    {
      Screen(renderGeneration, view, content, writer, renderedView, busy)
    }

    constructor ()
      ensures Value() == BOOTED
    {
      renderGeneration, view, content, writer, renderedView, busy := 0, "", Blank, 0, None, false;
    }

    /** render, up to the first segment of the function that it calls. */
    method Render(newView: string) returns (generation: nat)
      modifies this
      ensures Value() == StartRender(old(Value()), newView) && generation == renderGeneration
    {
      renderGeneration := renderGeneration + 1;
      generation := renderGeneration;
      view := newView;
      renderedView := None;
      busy := true;
      content, writer := Loading(newView), generation;
    }

    /** The finally clause of render. */
    method Conclude(generation: nat, ofView: string)
      modifies this
      ensures Value() == Finish(old(Value()), generation, ofView)
    {
      if generation == renderGeneration {
        renderedView := Some(ofView);
        busy := false;
      }
    }

    method Fail(kind: Kind, generation: nat, ofView: string)
      modifies this
      ensures Value() == Catch(old(Value()), kind, generation, ofView)
    {
      if kind.Handling? || generation != renderGeneration {
        return;
      }
      content, writer := Failed(ofView), generation;
      Conclude(generation, ofView);
    }

    method Continue(t: Task, outcome: Outcome) returns (left: Option<Task>)
      requires t.rest != []
      modifies this
      ensures Value() == Resume(old(Value()), t, outcome)
      ensures left == Remaining(old(Value()), t, outcome)
    {
      left := None;
      if outcome.Rejected? {
        Fail(t.kind, t.generation, t.view);
        return;
      }
      var segment, guard := t.rest[0], t.guard;
      if segment.checks && guard != renderGeneration {
        if t.kind.Rendering? {
          Conclude(t.generation, t.view);
        }
        return;
      }
      if segment.renews {
        guard := renderGeneration;
      }
      if segment.writes {
        content, writer := Module(t.view), guard;
      }
      if outcome.Breaks? {
        Fail(t.kind, t.generation, t.view);
      } else if |t.rest| > 1 {
        left := Some(t.(guard := guard, rest := t.rest[1..]));
      } else if t.kind.Rendering? {
        Conclude(t.generation, t.view);
      }
    }
  }

  // ---------------------------------------------------------------- all renders and handlers together

  /** The paths through the view functions and through the handlers, each as its segments. The first
      segment of a path runs without a wait before it. */
  datatype App = App(renders: set<seq<Segment>>, handlers: set<seq<Segment>>)

  predicate WellFormed(app: App) {
    app.renders != {} && [] !in app.renders && [] !in app.handlers
  }

  /** No segment that runs without a check, from the `n`th on, writes, nor takes a new guard that it or
      a later one writes under. */
  predicate ChecksFrom(path: seq<Segment>, n: nat) {
    forall i, j :: n <= i <= j < |path| && !path[i].checks && (i == j || path[i].renews) ==> !path[j].writes
  }

  /** The first segment of a path follows no wait; every later one looks at its guard in time. */
  predicate Disciplined(app: App) {
    forall path :: path in app.renders + app.handlers ==> ChecksFrom(path, 1)
  }

  datatype State = State(screen: Screen, tasks: map<nat, Task>, nextTask: nat)

  const START := State(BOOTED, map[], 0)

  datatype Event =
    | Navigated(view: string, path: seq<Segment>)
    | ControlUsed(path: seq<Segment>)
    | TaskResumed(task: nat, outcome: Outcome)

  /** Controls are on screen only once something was rendered. */
  predicate Possible(app: App, s: State, e: Event) {
    match e
    case Navigated(_, path) => path in app.renders && path != []
    case ControlUsed(path) => path in app.handlers && path != [] && s.screen.renderGeneration > 0
    case TaskResumed(task, _) => task in s.tasks && s.tasks[task].rest != []
  }

  /** A path begins with its first segment, on screen `screen`. */
  function Begin(s: State, screen: Screen, kind: Kind, path: seq<Segment>): State
    requires path != []
  {
    var t := Task(kind, screen.renderGeneration, screen.renderGeneration, screen.view, path);
    var next := s.(screen := Resume(screen, t, Answered));
    match Remaining(screen, t, Answered)
    case None => next
    case Some(left) => next.(tasks := s.tasks[s.nextTask := left], nextTask := s.nextTask + 1)
  }

  function ResumeTask(s: State, task: nat, outcome: Outcome): State
    requires task in s.tasks && s.tasks[task].rest != []
  {
    var next := s.(screen := Resume(s.screen, s.tasks[task], outcome));
    match Remaining(s.screen, s.tasks[task], outcome)
    case None => next.(tasks := s.tasks - {task})
    case Some(left) => next.(tasks := s.tasks[task := left])
  }

  function Next(app: App, s: State, e: Event): State
    requires Possible(app, s, e)
  {
    match e
    case Navigated(view, path) => Begin(s, StartRender(s.screen, view), Rendering, path)
    case ControlUsed(path) => Begin(s, s.screen, Handling, path)
    case TaskResumed(task, outcome) => ResumeTask(s, task, outcome)
  }

  predicate CanRun(app: App, s: State, events: seq<Event>)
    decreases |events|
  {
    events == [] || (Possible(app, s, events[0]) && CanRun(app, Next(app, s, events[0]), events[1..]))
  }

  function After(app: App, s: State, events: seq<Event>): State
    requires CanRun(app, s, events)
    decreases |events|
  {
    if events == [] then s else After(app, Next(app, s, events[0]), events[1..])
  }

  // ---------------------------------------------------------------- what every app keeps

  predicate RenderUnderWay(s: State) {
    exists k :: k in s.tasks && s.tasks[k].kind.Rendering? && s.tasks[k].generation == s.screen.renderGeneration
  }

  /** Tasks are of renders that were begun, and the busy flag waits for the newest of them. */
  predicate TasksInOrder(s: State) {
    && (forall k :: k in s.tasks ==>
          && k < s.nextTask && s.tasks[k].rest != []
          && 0 < s.tasks[k].generation <= s.tasks[k].guard <= s.screen.renderGeneration
          && (s.tasks[k].generation == s.screen.renderGeneration ==> s.tasks[k].view == s.screen.view))
    && (s.screen.renderGeneration > 0 ==>
          s.screen.renderedView == if s.screen.busy then None else Some(s.screen.view))
    && (s.screen.renderGeneration == 0 ==> !s.screen.busy && s.screen.renderedView.None?)
    && (s.screen.busy ==> RenderUnderWay(s))
  }

  lemma BeginKeepsTasks(s: State, screen: Screen, kind: Kind, path: seq<Segment>)
    requires path != [] && screen.renderGeneration > 0
    requires
      || TasksInOrder(s.(screen := screen))
      || (kind.Rendering? && TasksInOrder(s) && screen == StartRender(s.screen, screen.view))
    ensures TasksInOrder(Begin(s, screen, kind, path))
  {
    var t := Begin(s, screen, kind, path);
    if kind.Rendering? && |path| > 1 {
      assert s.nextTask in t.tasks && t.tasks[s.nextTask].kind.Rendering?;
    } else if t.screen.busy {
      var k :| k in s.tasks && s.tasks[k].kind.Rendering? && s.tasks[k].generation == screen.renderGeneration;
      assert k in t.tasks && t.tasks[k] == s.tasks[k];
    }
  }

  /** A resumed task leaves generation and view alone, and the busy state too unless it is the newest
      render and ends. */
  lemma ResumeTouches(s: Screen, t: Task, outcome: Outcome)
    requires t.rest != []
    ensures
      var u := Resume(s, t, outcome);
      && u.renderGeneration == s.renderGeneration && u.view == s.view
      && ((u.busy == s.busy && u.renderedView == s.renderedView)
          || (t.generation == s.renderGeneration && !u.busy && u.renderedView == Some(t.view)))
    ensures
      var left := Remaining(s, t, outcome);
      left.Some? ==>
        && left.value.kind == t.kind && left.value.generation == t.generation && left.value.view == t.view
        && left.value.rest != [] && (left.value.guard == t.guard || left.value.guard == s.renderGeneration)
        && Resume(s, t, outcome).busy == s.busy
    ensures
      t.kind.Rendering? && t.generation == s.renderGeneration && Remaining(s, t, outcome).None? ==>
        !Resume(s, t, outcome).busy
  {
  }

  lemma ResumeKeepsTasks(s: State, task: nat, outcome: Outcome)
    requires TasksInOrder(s) && task in s.tasks
    ensures TasksInOrder(ResumeTask(s, task, outcome))
  {
    hide Resume, Remaining;
    ResumeTouches(s.screen, s.tasks[task], outcome);
    var t := ResumeTask(s, task, outcome);
    if t.screen.busy {
      var k :| k in s.tasks && s.tasks[k].kind.Rendering? && s.tasks[k].generation == s.screen.renderGeneration;
      assert k in t.tasks && t.tasks[k].kind == s.tasks[k].kind && t.tasks[k].generation == s.tasks[k].generation;
    }
  }

  lemma StepKeepsTasks(app: App, s: State, e: Event)
    requires TasksInOrder(s) && Possible(app, s, e)
    ensures TasksInOrder(Next(app, s, e))
    ensures Next(app, s, e).screen.view == if e.Navigated? then e.view else s.screen.view
    ensures Next(app, s, e).screen.renderGeneration == s.screen.renderGeneration + if e.Navigated? then 1 else 0
  {
    hide TasksInOrder;
    match e
    case Navigated(view, path) => BeginKeepsTasks(s, StartRender(s.screen, view), Rendering, path);
    case ControlUsed(path) =>
      assert s.(screen := s.screen) == s;
      BeginKeepsTasks(s, s.screen, Handling, path);
    case TaskResumed(task, outcome) => ResumeKeepsTasks(s, task, outcome);
  }

  function LastView(view: string, events: seq<Event>): string
    decreases |events|
  {
    if events == [] then view
    else LastView(if events[0].Navigated? then events[0].view else view, events[1..])
  }

  lemma {:induction false} RunKeepsTasks(app: App, s: State, events: seq<Event>)
    requires TasksInOrder(s) && CanRun(app, s, events)
    ensures TasksInOrder(After(app, s, events))
    ensures After(app, s, events).screen.view == LastView(s.screen.view, events)
    ensures After(app, s, events).screen.renderGeneration >= s.screen.renderGeneration
    ensures (exists e :: e in events && e.Navigated?) ==>
              After(app, s, events).screen.renderGeneration > s.screen.renderGeneration
    decreases |events|
  {
    hide TasksInOrder, Next;
    if events != [] {
      StepKeepsTasks(app, s, events[0]);
      RunKeepsTasks(app, Next(app, s, events[0]), events[1..]);
    }
  }

  /** Whether or not the paths look at their guards: the screen is busy exactly until the newest render
      has finished, so when nothing is under way any more it says that it shows the view navigated to last. */
  lemma LatestNavigationWins(app: App, events: seq<Event>)
    requires CanRun(app, START, events) && exists e :: e in events && e.Navigated?
    ensures
      var s := After(app, START, events);
      s.tasks == map[] ==> !s.screen.busy && s.screen.renderedView == Some(LastView("", events))
  {
    RunKeepsTasks(app, START, events);
  }

  /** Only the newest render ends the busy state. */
  lemma BusyEndedByNewest(app: App, s: State, e: Event)
    requires TasksInOrder(s) && Possible(app, s, e) && s.screen.busy && !Next(app, s, e).screen.busy
    ensures
      || (e.Navigated? && |e.path| == 1)
      || (e.TaskResumed? && s.tasks[e.task].kind.Rendering? && s.tasks[e.task].generation == s.screen.renderGeneration
          && e.task !in Next(app, s, e).tasks)
    ensures Next(app, s, e).screen.renderedView == Some(Next(app, s, e).screen.view)
  {
  }

  // ---------------------------------------------------------------- who owns the content

  /** The newest generation wrote the content last, and wrote it for its own view. */
  predicate Owned(screen: Screen) {
    && screen.writer == screen.renderGeneration
    && (screen.renderGeneration > 0 ==> !screen.content.Blank? && screen.content.view == screen.view)
  }

  predicate WritesNothing(path: seq<Segment>) {
    forall i :: 0 <= i < |path| ==> !path[i].writes
  }

  /** A task that checks in time, and that writes nothing more if it is of another view and yet holds
      a current guard. */
  predicate TaskGuarded(screen: Screen, t: Task) {
    && ChecksFrom(t.rest, 0)
    && (t.guard == screen.renderGeneration && t.view != screen.view ==> WritesNothing(t.rest))
  }

  predicate WritesGuarded(s: State) {
    forall k :: k in s.tasks ==> TaskGuarded(s.screen, s.tasks[k])
  }

  lemma BeginKeepsOwner(s: State, screen: Screen, kind: Kind, path: seq<Segment>)
    requires path != [] && ChecksFrom(path, 1) && Owned(screen) && screen.renderGeneration > 0
    requires WritesGuarded(s.(screen := screen))
    ensures WritesGuarded(Begin(s, screen, kind, path)) && Owned(Begin(s, screen, kind, path).screen)
  {
    ChecksFromTail(path);
  }

  lemma ChecksFromTail(path: seq<Segment>)
    requires path != [] && ChecksFrom(path, 1)
    ensures ChecksFrom(path[1..], 0)
  {
    var rest := path[1..];
    forall i, j | 0 <= i <= j < |rest| && !rest[i].checks && (i == j || rest[i].renews) ensures !rest[j].writes {
      assert rest[i] == path[i + 1] && rest[j] == path[j + 1];
    }
  }

  lemma ResumeKeepsOwned(s: Screen, t: Task, outcome: Outcome)
    requires t.rest != [] && TaskGuarded(s, t) && Owned(s) && s.renderGeneration > 0
    requires t.generation == s.renderGeneration ==> t.view == s.view
    ensures Owned(Resume(s, t, outcome))
  {
    assert !t.rest[0].checks ==> !t.rest[0].writes;
    assert WritesNothing(t.rest) ==> !t.rest[0].writes;
  }

  lemma RemainingIsGuarded(s: Screen, t: Task, outcome: Outcome)
    requires t.rest != [] && TaskGuarded(s, t)
    ensures Remaining(s, t, outcome).Some? ==> TaskGuarded(s, Remaining(s, t, outcome).value)
  {
    assert ChecksFrom(t.rest, 1);
    ChecksFromTail(t.rest);
    assert WritesNothing(t.rest) ==> WritesNothing(t.rest[1..]);
    if !t.rest[0].checks && t.rest[0].renews {
      assert forall j :: 0 <= j < |t.rest| ==> !t.rest[j].writes;
    }
  }

  lemma ResumeKeepsOwner(s: State, task: nat, outcome: Outcome)
    requires TasksInOrder(s) && WritesGuarded(s) && Owned(s.screen) && task in s.tasks
    ensures WritesGuarded(ResumeTask(s, task, outcome)) && Owned(ResumeTask(s, task, outcome).screen)
  {
    hide Resume, Remaining, Owned, TaskGuarded;
    ResumeTouches(s.screen, s.tasks[task], outcome);
    ResumeKeepsOwned(s.screen, s.tasks[task], outcome);
    RemainingIsGuarded(s.screen, s.tasks[task], outcome);
    forall k | k in s.tasks && k != task ensures TaskGuarded(ResumeTask(s, task, outcome).screen, s.tasks[k]) {
      SameGuard(s.screen, ResumeTask(s, task, outcome).screen, s.tasks[k]);
    }
    var left := Remaining(s.screen, s.tasks[task], outcome);
    if left.Some? {
      SameGuard(s.screen, ResumeTask(s, task, outcome).screen, left.value);
    }
  }

  lemma SameGuard(s: Screen, u: Screen, t: Task)
    requires TaskGuarded(s, t) && u.renderGeneration == s.renderGeneration && u.view == s.view
    ensures TaskGuarded(u, t)
  {
  }

  lemma StepKeepsOwner(app: App, s: State, e: Event)
    requires Disciplined(app) && TasksInOrder(s) && WritesGuarded(s) && Owned(s.screen) && Possible(app, s, e)
    ensures WritesGuarded(Next(app, s, e)) && Owned(Next(app, s, e).screen)
  {
    match e
    case Navigated(view, path) =>
      assert path in app.renders + app.handlers;
      BeginKeepsOwner(s, StartRender(s.screen, view), Rendering, path);
    case ControlUsed(path) =>
      assert path in app.renders + app.handlers;
      BeginKeepsOwner(s, s.screen, Handling, path);
    case TaskResumed(task, outcome) => ResumeKeepsOwner(s, task, outcome);
  }

  lemma {:induction false} RunKeepsOwner(app: App, s: State, events: seq<Event>)
    requires Disciplined(app) && TasksInOrder(s) && WritesGuarded(s) && Owned(s.screen) && CanRun(app, s, events)
    ensures Owned(After(app, s, events).screen)
    decreases |events|
  {
    if events != [] {
      StepKeepsTasks(app, s, events[0]);
      StepKeepsOwner(app, s, events[0]);
      RunKeepsOwner(app, Next(app, s, events[0]), events[1..]);
    }
  }

  ghost predicate AlwaysOwned(app: App) {
    forall events :: CanRun(app, START, events) ==> Owned(After(app, START, events).screen)
  }

  /** In every interleaving of navigations, controls and answers the content is of the newest render,
      if and only if every segment that follows a wait looks at its guard before it writes, and before
      it takes a new guard that anything is written under. */
  lemma NewestRenderOwnsTheScreenIff(app: App)
    requires WellFormed(app)
    ensures AlwaysOwned(app) <==> Disciplined(app)
  {
    if Disciplined(app) {
      forall events | CanRun(app, START, events) ensures Owned(After(app, START, events).screen) {
        RunKeepsOwner(app, START, events);
      }
    } else {
      var path: seq<Segment> :| path in app.renders + app.handlers && !ChecksFrom(path, 1);
      var i, j :| 1 <= i <= j < |path| && !path[i].checks && (i == j || path[i].renews) && path[j].writes;
      var events := StaleWrite(app, path, i, j);
      assert !Owned(After(app, START, events).screen);
    }
  }

  /** Under that discipline the view navigated to last is the one whose content is shown. */
  lemma NewestRenderOwnsTheScreen(app: App, events: seq<Event>)
    requires Disciplined(app) && CanRun(app, START, events)
    ensures
      var s := After(app, START, events);
      && Owned(s.screen) && s.screen.view == LastView("", events)
      && (s.screen.renderedView.Some? ==> s.screen.renderedView == Some(LastView("", events)) && !s.screen.busy)
  {
    RunKeepsTasks(app, START, events);
    RunKeepsOwner(app, START, events);
  }

  // ---------------------------------------------------------------- a write without a check

  lemma {:induction false} ThenOne(app: App, s: State, events: seq<Event>, e: Event)
    requires CanRun(app, s, events) && Possible(app, After(app, s, events), e)
    ensures CanRun(app, s, events + [e])
    ensures After(app, s, events + [e]) == Next(app, After(app, s, events), e)
    decreases |events|
  {
    if events == [] {
      assert [e][1..] == [] && CanRun(app, Next(app, s, e), []);
    } else {
      ThenOne(app, Next(app, s, events[0]), events[1..], e);
      assert (events + [e])[1..] == events[1..] + [e];
    }
  }

  /** Task `task`, of view "old", waits at segment `i` of `path` with a guard that is current. */
  predicate WaitsAt(s: State, task: nat, path: seq<Segment>, i: nat) {
    && i < |path| && task in s.tasks && s.tasks[task].rest == path[i..]
    && s.tasks[task].guard == s.screen.renderGeneration && s.tasks[task].view == "old"
  }

  /** Answered wait after wait, a path whose guard nothing overtakes reaches each of its segments. */
  lemma {:induction false} Reaches(app: App, events: seq<Event>, task: nat, path: seq<Segment>, i: nat, j: nat)
      returns (more: seq<Event>)
    requires CanRun(app, START, events) && WaitsAt(After(app, START, events), task, path, i)
    requires i <= j < |path|
    ensures CanRun(app, START, more) && WaitsAt(After(app, START, more), task, path, j)
    ensures After(app, START, more).screen.view == After(app, START, events).screen.view
    ensures After(app, START, more).screen.renderGeneration == After(app, START, events).screen.renderGeneration
    decreases j
  {
    if i == j {
      more := events;
    } else {
      more := Reaches(app, events, task, path, i, j - 1);
      ThenOne(app, START, more, TaskResumed(task, Answered));
      more := more + [TaskResumed(task, Answered)];
      assert path[j - 1..][1..] == path[j..];
    }
  }

  /** A path that does not check in time overwrites a newer view: it is begun, reaches its unchecked
      segment `i`, is overtaken by a navigation, and goes on to the write of segment `j`. */
  lemma StaleWrite(app: App, path: seq<Segment>, i: nat, j: nat) returns (events: seq<Event>)
    requires WellFormed(app) && path in app.renders + app.handlers
    requires 0 < i <= j < |path| && !path[i].checks && (i == j || path[i].renews) && path[j].writes
    ensures CanRun(app, START, events)
    ensures !Owned(After(app, START, events).screen)
  {
    var other :| other in app.renders;
    var task: nat;
    events, task := BeginsToWait(app, path, other);
    events := Reaches(app, events, task, path, 1, i);
    events := Overtaken(app, events, task, path, i, other);
    if i < j {
      ThenOne(app, START, events, TaskResumed(task, Answered));
      events := events + [TaskResumed(task, Answered)];
      assert path[i..][1..] == path[i + 1..];
      events := Reaches(app, events, task, path, i + 1, j);
    }
    OverwritesOther(After(app, START, events), task, path, j);
    ThenOne(app, START, events, TaskResumed(task, Answered));
    events := events + [TaskResumed(task, Answered)];
  }

  lemma OverwritesOther(s: State, task: nat, path: seq<Segment>, j: nat)
    requires task in s.tasks && j < |path| && s.tasks[task].rest == path[j..] && path[j].writes
    requires s.tasks[task].view == "old" && s.screen.view == "new" && s.screen.renderGeneration > 0
    requires !path[j].checks || s.tasks[task].guard == s.screen.renderGeneration
    ensures !Owned(ResumeTask(s, task, Answered).screen)
  {
    assert s.tasks[task].rest[0] == path[j];
  }

  lemma Overtaken(app: App, events: seq<Event>, task: nat, path: seq<Segment>, i: nat, other: seq<Segment>)
      returns (more: seq<Event>)
    requires CanRun(app, START, events) && WaitsAt(After(app, START, events), task, path, i)
    requires other in app.renders && other != []
    ensures CanRun(app, START, more)
    ensures
      var s := After(app, START, more);
      && task in s.tasks && s.tasks[task] == After(app, START, events).tasks[task]
      && s.screen.view == "new" && s.screen.renderGeneration > 0
  {
    TasksStayBelow(app, events);
    ThenOne(app, START, events, Navigated("new", other));
    more := events + [Navigated("new", other)];
  }

  lemma BeginsToWait(app: App, path: seq<Segment>, other: seq<Segment>) returns (events: seq<Event>, task: nat)
    requires WellFormed(app) && path in app.renders + app.handlers && other in app.renders && |path| > 1
    ensures CanRun(app, START, events)
    ensures WaitsAt(After(app, START, events), task, path, 1)
  {
    var first := if path in app.renders then path else other;
    ThenOne(app, START, [], Navigated("old", first));
    events := [] + [Navigated("old", first)];
    task := 0;
    if path !in app.renders {
      task := After(app, START, events).nextTask;
      ThenOne(app, START, events, ControlUsed(path));
      events := events + [ControlUsed(path)];
    }
  }

  lemma TasksStayBelow(app: App, events: seq<Event>)
    requires CanRun(app, START, events)
    ensures
      var s := After(app, START, events);
      forall k :: k in s.tasks ==> k < s.nextTask
  {
    RunKeepsTasks(app, START, events);
  }

  // ---------------------------------------------------------------- the view of the users

  /** The list of users: one request, then the list. */
  const USER_LIST := [Segment(false, true, false), Segment(true, false, true)]

  /** One user: the user, the sessions and the audit are read before anything is written. */
  const USER_DETAIL := [Segment(false, true, false), Segment(true, false, false), Segment(true, false, false),
                        Segment(true, false, true)]

  /** Blocking a user: two requests, after which the user is rendered again under a new guard. */
  const USER_OPERATION := [Segment(true, false, false), Segment(true, false, false), Segment(true, true, false),
                           Segment(true, false, false), Segment(true, false, false), Segment(true, false, true)]

  const USERS := App({USER_LIST, USER_DETAIL}, {USER_OPERATION})

  /** The same without the check after the request that blocks. */
  const HASTY_OPERATION := USER_OPERATION[2 := Segment(false, true, false)]

  const HASTY_USERS := App({USER_LIST, USER_DETAIL}, {HASTY_OPERATION})

  /** The users' view owns its screen; without one of its checks it would be written over a newer view,
      although that segment itself writes nothing. */
  lemma UsersOwnTheirScreen()
    ensures AlwaysOwned(USERS) && !AlwaysOwned(HASTY_USERS)
  {
    NewestRenderOwnsTheScreenIff(USERS);
    assert HASTY_OPERATION in HASTY_USERS.renders + HASTY_USERS.handlers;
    assert !HASTY_OPERATION[2].checks && HASTY_OPERATION[2].renews && HASTY_OPERATION[5].writes;
    assert !ChecksFrom(HASTY_OPERATION, 1);
    NewestRenderOwnsTheScreenIff(HASTY_USERS);
  }
}

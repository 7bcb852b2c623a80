/** What the content area of the control center holds after every run: told by the events alone. */
module RenderContent {
  import opened Options
  import opened RenderGuard

  predicate IsNewestRender(s: State, t: Task) {
    t.kind == Rendering && t.generation == s.screen.renderGeneration
  }

  /** What the content becomes by an event: loading when a view is navigated to, its module once a segment
      that writes has run under a guard that is current, and an error exactly when a wait of the newest
      render ends in one. */
  function ContentBy(s: State, content: Content, e: Event): Content {
    match e
    case Navigated(view, path) => if path != [] && path[0].writes then Module(view) else Loading(view)
    case ControlUsed(path) => if path != [] && path[0].writes then Module(s.screen.view) else content
    case TaskResumed(task, outcome) =>
      if task !in s.tasks || s.tasks[task].rest == [] then content
      else if IsNewestRender(s, s.tasks[task]) && outcome != Answered then Failed(s.screen.view)
      else if s.tasks[task].guard == s.screen.renderGeneration && s.tasks[task].rest[0].writes && outcome != Rejected
      then Module(s.screen.view)
      else content
  }

  lemma StepWrites(app: App, s: State, e: Event)
    requires Disciplined(app) && TasksInOrder(s) && WritesGuarded(s) && Possible(app, s, e)
    ensures Next(app, s, e).screen.content == ContentBy(s, s.screen.content, e)
  {
    match e
    case Navigated(view, path) =>
    case ControlUsed(path) =>
    case TaskResumed(task, outcome) => ResumeWrites(s.screen, s.tasks[task], outcome);
  }

  lemma ResumeWrites(s: Screen, t: Task, outcome: Outcome)
    requires t.rest != [] && TaskGuarded(s, t) && t.generation <= t.guard <= s.renderGeneration
    requires t.generation == s.renderGeneration ==> t.view == s.view
    ensures
      Resume(s, t, outcome).content ==
      if t.kind == Rendering && t.generation == s.renderGeneration && outcome != Answered then Failed(s.view)
      else if t.guard == s.renderGeneration && t.rest[0].writes && outcome != Rejected then Module(s.view)
      else s.content
  {
    assert !t.rest[0].checks ==> !t.rest[0].writes;
    assert WritesNothing(t.rest) ==> !t.rest[0].writes;
  }

  /** What the events of a run make of the content. */
  function ContentByAll(app: App, s: State, content: Content, events: seq<Event>): Content
    requires CanRun(app, s, events)
    decreases |events|
  {
    if events == [] then content
    else ContentByAll(app, Next(app, s, events[0]), ContentBy(s, content, events[0]), events[1..])
  }

  lemma {:induction false} RunWrites(app: App, s: State, events: seq<Event>)
    requires Disciplined(app) && TasksInOrder(s) && WritesGuarded(s) && Owned(s.screen) && CanRun(app, s, events)
    ensures After(app, s, events).screen.content == ContentByAll(app, s, s.screen.content, events)
    decreases |events|
  {
    hide Disciplined, TasksInOrder, WritesGuarded, Owned, Next, ContentBy;
    if events != [] {
      StepWrites(app, s, events[0]);
      StepKeepsTasks(app, s, events[0]);
      StepKeepsOwner(app, s, events[0]);
      RunWrites(app, Next(app, s, events[0]), events[1..]);
    }
  }

  /** Over every run of views and handlers that check in time, the content is what its events say. */
  lemma ContentIsToldByTheEvents(app: App, events: seq<Event>)
    requires Disciplined(app) && CanRun(app, START, events)
    ensures After(app, START, events).screen.content == ContentByAll(app, START, Blank, events)
  {
    RunWrites(app, START, events);
  }

  // ---------------------------------------------------------------- a view that was rendered

  /** The newest render stays busy exactly while it waits again, which it does after every answer but its last. */
  lemma NewestRenderEnds(app: App, s: State, task: nat, outcome: Outcome)
    requires TasksInOrder(s) && Possible(app, s, TaskResumed(task, outcome)) && IsNewestRender(s, s.tasks[task])
    ensures
      var t := Next(app, s, TaskResumed(task, outcome));
      var more := outcome == Answered && |s.tasks[task].rest| > 1;
      && (task in t.tasks <==> more)
      && (more ==> t.tasks[task].rest == s.tasks[task].rest[1..] && t.screen.busy == s.screen.busy)
      && (!more ==> !t.screen.busy && t.screen.renderedView == Some(s.screen.view))
  {
  }

  /** Some segment among the first `n` of the path writes. */
  predicate Wrote(path: seq<Segment>, n: nat) {
    exists j :: 0 <= j < n && j < |path| && path[j].writes
  }

  /** The newest render is task `task`, which is of `view` and follows `path`; or it has ended. The content
      is the module of the view once a segment that writes has run. */
  predicate Progress(s: State, task: nat, view: string, path: seq<Segment>) {
    && s.screen.view == view && s.screen.content in {Loading(view), Module(view)}
    && (forall k :: k in s.tasks && IsNewestRender(s, s.tasks[k]) ==> k == task)
    && if task in s.tasks && IsNewestRender(s, s.tasks[task]) then
         var rest := s.tasks[task].rest;
         && s.screen.busy && |rest| <= |path| && rest == path[|path| - |rest|..]
         && (Wrote(path, |path| - |rest|) ==> s.screen.content == Module(view))
       else
         !s.screen.busy && (Wrote(path, |path|) ==> s.screen.content == Module(view))
  }

  lemma NavigationProgresses(app: App, s: State, view: string, path: seq<Segment>)
    requires TasksInOrder(s) && Possible(app, s, Navigated(view, path))
    ensures Progress(Next(app, s, Navigated(view, path)), s.nextTask, view, path)
  {
    assert Wrote(path, 1) <==> path[0].writes;
  }

  lemma OwnAnswerProgresses(app: App, s: State, task: nat, view: string, path: seq<Segment>)
    requires Disciplined(app) && TasksInOrder(s) && WritesGuarded(s) && Possible(app, s, TaskResumed(task, Answered))
    requires Progress(s, task, view, path) && IsNewestRender(s, s.tasks[task])
    ensures Progress(Next(app, s, TaskResumed(task, Answered)), task, view, path)
  {
    var rest := s.tasks[task].rest;
    var i := |path| - |rest|;
    StepWrites(app, s, TaskResumed(task, Answered));
    NewestRenderEnds(app, s, task, Answered);
    ResumeTouches(s.screen, s.tasks[task], Answered);
    assert rest[0] == path[i] && rest[1..] == path[i + 1..];
    assert Wrote(path, i + 1) <==> Wrote(path, i) || path[i].writes;
    hide Resume, Remaining, WritesGuarded, Disciplined, Wrote;
  }

  lemma OtherStepProgresses(app: App, s: State, e: Event, task: nat, view: string, path: seq<Segment>)
    requires Disciplined(app) && TasksInOrder(s) && WritesGuarded(s) && Possible(app, s, e)
    requires Progress(s, task, view, path) && !e.Navigated?
    requires e.TaskResumed? ==> !IsNewestRender(s, s.tasks[e.task])
    ensures Progress(Next(app, s, e), task, view, path)
  {
    StepWrites(app, s, e);
    OtherStepsLeaveRender(app, s, e);
    hide Next, WritesGuarded, Disciplined, Wrote, TasksInOrder;
  }

  /** A step that is none of the newest render leaves it and the busy state alone. */
  lemma OtherStepsLeaveRender(app: App, s: State, e: Event)
    requires TasksInOrder(s) && Possible(app, s, e) && !e.Navigated?
    requires e.TaskResumed? ==> !IsNewestRender(s, s.tasks[e.task])
    ensures
      var t := Next(app, s, e);
      && t.screen.view == s.screen.view && t.screen.renderGeneration == s.screen.renderGeneration
      && t.screen.busy == s.screen.busy
      && (forall k :: k in t.tasks && IsNewestRender(t, t.tasks[k]) ==> k in s.tasks && t.tasks[k] == s.tasks[k])
      && (forall k :: k in s.tasks && IsNewestRender(s, s.tasks[k]) ==> k in t.tasks && t.tasks[k] == s.tasks[k])
  {
    if e.TaskResumed? {
      OtherResumeLeavesBusy(s.screen, s.tasks[e.task], e.outcome);
      ResumeTouches(s.screen, s.tasks[e.task], e.outcome);
    } else {
      assert s.nextTask !in s.tasks;
    }
    hide Resume, Remaining;
  }

  lemma OtherResumeLeavesBusy(s: Screen, t: Task, outcome: Outcome)
    requires t.rest != [] && !(t.kind == Rendering && t.generation == s.renderGeneration)
    ensures Resume(s, t, outcome).busy == s.busy
  {
  }

  lemma {:induction false} RenderProgresses(app: App, s: State, events: seq<Event>, task: nat, view: string,
                                            path: seq<Segment>)
    requires Disciplined(app) && TasksInOrder(s) && WritesGuarded(s) && Owned(s.screen) && CanRun(app, s, events)
    requires Progress(s, task, view, path)
    requires forall e :: e in events ==> !e.Navigated? && (e.TaskResumed? && e.task == task ==> e.outcome == Answered)
    ensures Progress(After(app, s, events), task, view, path)
    decreases |events|
  {
    if events != [] {
      var e := events[0];
      StepKeepsTasks(app, s, e);
      StepKeepsOwner(app, s, e);
      assert e in events;
      if e.TaskResumed? && IsNewestRender(s, s.tasks[e.task]) {
        OwnAnswerProgresses(app, s, task, view, path);
      } else {
        OtherStepProgresses(app, s, e, task, view, path);
      }
      hide Progress, Next, TasksInOrder, WritesGuarded, Owned, Disciplined;
      assert forall x :: x in events[1..] ==> x in events;
      RenderProgresses(app, Next(app, s, e), events[1..], task, view, path);
    }
  }

  /** After any run, a view whose path writes and whose waits are all answered shows its module as soon as
      the screen is not busy any more, whatever else goes on, until the next navigation. */
  lemma RenderedViewShowsItsModule(app: App, events: seq<Event>, view: string, path: seq<Segment>, more: seq<Event>)
    requires Disciplined(app) && CanRun(app, START, events)
    requires Possible(app, After(app, START, events), Navigated(view, path))
    requires CanRun(app, Next(app, After(app, START, events), Navigated(view, path)), more)
    requires
      var task := After(app, START, events).nextTask;
      forall e :: e in more ==> !e.Navigated? && (e.TaskResumed? && e.task == task ==> e.outcome == Answered)
    requires exists i :: 0 <= i < |path| && path[i].writes
    ensures
      var end := After(app, Next(app, After(app, START, events), Navigated(view, path)), more);
      !end.screen.busy ==> end.screen.content == Module(view) && end.screen.renderedView == Some(view)
  {
    var s := After(app, START, events);
    RunKeepsTasks(app, START, events);
    RunGuards(app, START, events);
    var navigated := Navigated(view, path);
    StepKeepsTasks(app, s, navigated);
    StepKeepsOwner(app, s, navigated);
    NavigationProgresses(app, s, view, path);
    var t := Next(app, s, navigated);
    RenderProgresses(app, t, more, s.nextTask, view, path);
    RunKeepsTasks(app, t, more);
    assert Wrote(path, |path|);
    hide Next, Begin, Disciplined, Owned, WritesGuarded;
  }

  lemma {:induction false} RunGuards(app: App, s: State, events: seq<Event>)
    requires Disciplined(app) && TasksInOrder(s) && WritesGuarded(s) && Owned(s.screen) && CanRun(app, s, events)
    ensures WritesGuarded(After(app, s, events)) && Owned(After(app, s, events).screen)
    decreases |events|
  {
    hide Disciplined, TasksInOrder, WritesGuarded, Owned, Next;
    if events != [] {
      StepKeepsTasks(app, s, events[0]);
      StepKeepsOwner(app, s, events[0]);
      RunGuards(app, Next(app, s, events[0]), events[1..]);
    }
  }
}

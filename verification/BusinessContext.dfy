/** Which business a Morro Pro session works on, and which requests still speak for it. */
module BusinessContext {
  import opened Options

  // ---------------------------------------------------------------- scopes

  /** The scopes of a session: its normalised business ids, in order, without blanks and repeats. */
  function Scopes(normalized: seq<string>): seq<string> {
    if normalized == [] then []
    else
      var init := Scopes(normalized[..|normalized| - 1]);
      var last := normalized[|normalized| - 1];
      if last == "" || last in init then init else init + [last]
  }

  lemma {:induction false} ScopesAreTheIds(normalized: seq<string>)
    ensures forall id :: id in Scopes(normalized) <==> id != "" && id in normalized
    ensures forall i, j :: 0 <= i < j < |Scopes(normalized)| ==> Scopes(normalized)[i] != Scopes(normalized)[j]
  {
    if normalized != [] {
      ScopesAreTheIds(normalized[..|normalized| - 1]);
    }
  }

  /** Id `k` is the first that is not blank. */
  predicate FirstNotBlank(normalized: seq<string>, k: nat) {
    k < |normalized| && normalized[k] != "" && forall i :: 0 <= i < k ==> normalized[i] == ""
  }

  lemma {:induction false} SomeFirst(normalized: seq<string>) returns (k: nat)
    requires exists id :: id in normalized && id != ""
    ensures FirstNotBlank(normalized, k)
  {
    var n := |normalized| - 1;
    if exists id :: id in normalized[..n] && id != "" {
      k := SomeFirst(normalized[..n]);
    } else {
      k := n;
      assert forall i :: 0 <= i < n ==> normalized[i] in normalized[..n];
    }
  }

  /** The first scope is the first id that is not blank. */
  lemma {:induction false} FirstScope(normalized: seq<string>, k: nat)
    requires FirstNotBlank(normalized, k)
    ensures |Scopes(normalized)| > 0 && Scopes(normalized)[0] == normalized[k]
  {
    var n := |normalized| - 1;
    if k < n {
      FirstScope(normalized[..n], k);
    } else {
      BlanksGiveNoScope(normalized[..n]);
    }
  }

  lemma {:induction false} BlanksGiveNoScope(normalized: seq<string>)
    requires forall i :: 0 <= i < |normalized| ==> normalized[i] == ""
    ensures Scopes(normalized) == []
  {
    if normalized != [] {
      BlanksGiveNoScope(normalized[..|normalized| - 1]);
    }
  }

  /** The business that a caller asks for, normalised, if it asks for one. */
  datatype Requested = Unasked | Asked(normalized: string)

  datatype Resolution = Resolved(businessId: string) | RoleDenied | InvalidId | AccessDenied | ScopeRequired

  function Resolve(businessRole: bool, scopes: seq<string>, requested: Requested): Resolution {
    if !businessRole then RoleDenied
    else match requested
      case Asked(id) =>
        if id == "" then InvalidId else if id !in scopes then AccessDenied else Resolved(id)
      case Unasked => if |scopes| > 0 then Resolved(scopes[0]) else ScopeRequired
  }

  /** A context is resolved only to a business of the session, to the one asked for if one was asked
      for and to the first one otherwise, and it is refused only where there is no such business. */
  lemma ResolvesToAScope(businessRole: bool, normalized: seq<string>, requested: Requested)
    ensures
      var r := Resolve(businessRole, Scopes(normalized), requested);
      && (r.Resolved? ==> r.businessId in normalized && r.businessId != "")
      && (r.Resolved? && requested.Asked? ==> r.businessId == requested.normalized)
      && (r.Resolved? && requested.Unasked? ==>
            exists k: nat :: FirstNotBlank(normalized, k) && normalized[k] == r.businessId)
      && (r.Resolved? <==>
            businessRole
            && (if requested.Asked? then requested.normalized != "" && requested.normalized in normalized
                else exists id :: id in normalized && id != ""))
      && (r == RoleDenied <==> !businessRole)
      && (r == InvalidId <==> businessRole && requested == Asked(""))
      && (r == ScopeRequired ==> requested.Unasked?)
  {
    ScopesAreTheIds(normalized);
    if exists id :: id in normalized && id != "" {
      var k := SomeFirst(normalized);
      FirstScope(normalized, k);
    }
    if id :| id in normalized && id != "" {
      assert id in Scopes(normalized);
    }
    if |Scopes(normalized)| > 0 {
      assert Scopes(normalized)[0] in normalized;
    }
  }

  // ---------------------------------------------------------------- the context as a value

  /** The current business, the number of switches so far, and the generations whose signal fired. */
  datatype Context = Context(current: string, generation: nat, aborted: set<nat>)

  /** What a request remembers of the context it was issued in. */
  datatype Ticket = Ticket(businessId: string, generation: nat)

  datatype Op = IssueRequest | SwitchTo(businessId: string) | Dispose

  function Issue(c: Context): Ticket {
    Ticket(c.current, c.generation)
  }

  predicate IsCurrent(c: Context, t: Ticket) {
    t.businessId == c.current && t.generation == c.generation && c.generation !in c.aborted
  }

  predicate Switches(scopes: seq<string>, id: string) {
    id != "" && id in scopes
  }

  function Switched(c: Context, id: string): Context {
    Context(id, c.generation + 1, c.aborted + {c.generation})
  }

  function Disposed(c: Context): Context {
    c.(aborted := c.aborted + {c.generation})
  }

  function Apply(scopes: seq<string>, c: Context, op: Op): Context {
    match op
    case IssueRequest => c
    case SwitchTo(id) => if Switches(scopes, id) then Switched(c, id) else c
    case Dispose => Disposed(c)
  }

  /** A context with every request that was issued in its history. */
  datatype History = History(context: Context, issued: set<Ticket>)

  function Begin(initial: string): History {
    History(Context(initial, 0, {}), {})
  }

  function Do(scopes: seq<string>, h: History, op: Op): History {
    var c := Apply(scopes, h.context, op);
    var issues := op.IssueRequest? || (op.SwitchTo? && Switches(scopes, op.businessId));
    History(c, if issues then h.issued + {Issue(c)} else h.issued)
  }

  function DoAll(scopes: seq<string>, h: History, ops: seq<Op>): History
    decreases |ops|
  {
    if ops == [] then h else DoAll(scopes, Do(scopes, h, ops[0]), ops[1..])
  }

  predicate InOrder(scopes: seq<string>, h: History) {
    && h.context.current in scopes
    && (forall g: nat :: g < h.context.generation ==> g in h.context.aborted)
    && (forall g :: g in h.context.aborted ==> g <= h.context.generation)
    && (forall t :: t in h.issued ==> t.generation <= h.context.generation)
    && (forall t :: t in h.issued && t.generation == h.context.generation ==> t.businessId == h.context.current)
  }

  /** Over every history, each request ever issued is current exactly while its signal has not
      fired, the current business is in scope, and a request that stopped being current never is again. */
  lemma {:induction false} CurrentUntilAborted(scopes: seq<string>, h: History, ops: seq<Op>)
    requires InOrder(scopes, h)
    ensures
      var end := DoAll(scopes, h, ops);
      && InOrder(scopes, end) && h.issued <= end.issued
      && end.context.current in scopes
      && (forall t :: t in end.issued ==> (IsCurrent(end.context, t) <==> t.generation !in end.context.aborted))
      && (forall t :: t in h.issued && !IsCurrent(h.context, t) ==> !IsCurrent(end.context, t))
    decreases |ops|
  {
    if ops != [] {
      var next := Do(scopes, h, ops[0]);
      assert InOrder(scopes, next);
      CurrentUntilAborted(scopes, next, ops[1..]);
    }
  }

  lemma CurrentUntilAbortedFromStart(scopes: seq<string>, initial: string, ops: seq<Op>, t: Ticket)
    requires initial in scopes && t in DoAll(scopes, Begin(initial), ops).issued
    ensures
      var end := DoAll(scopes, Begin(initial), ops).context;
      end.current in scopes && (IsCurrent(end, t) <==> t.generation !in end.aborted)
  {
    CurrentUntilAborted(scopes, Begin(initial), ops);
  }

  predicate TakesEffect(scopes: seq<string>, ops: seq<Op>, k: nat) {
    k < |ops| && ops[k].SwitchTo? && ops[k].businessId != "" && ops[k].businessId in scopes
  }

  predicate LastEffect(scopes: seq<string>, ops: seq<Op>, k: nat) {
    TakesEffect(scopes, ops, k) && forall j: nat :: k < j < |ops| ==> !TakesEffect(scopes, ops, j)
  }

  /** After any history the current business is the one last switched to, and if no switch took effect,
      the one before and its generation. */
  lemma {:induction false} CurrentIsTheLastSwitch(scopes: seq<string>, h: History, ops: seq<Op>)
    returns (last: Option<nat>)
    ensures
      var end := DoAll(scopes, h, ops).context;
      && h.context.generation <= end.generation
      && match last
         case Some(k) =>
           && LastEffect(scopes, ops, k) && end.current == ops[k].businessId && h.context.generation < end.generation
         case None =>
           && (forall k: nat :: !TakesEffect(scopes, ops, k))
           && end.current == h.context.current && end.generation == h.context.generation
    decreases |ops|
  {
    last := None;
    if ops != [] {
      var rest := ops[1..];
      last := CurrentIsTheLastSwitch(scopes, Do(scopes, h, ops[0]), rest);
      assert forall k: nat :: k > 0 ==> TakesEffect(scopes, ops, k) == TakesEffect(scopes, rest, k - 1);
      last := if last.Some? then Some(last.value + 1) else if TakesEffect(scopes, ops, 0) then Some(0) else None;
    }
  }

  /** Operation `k` is a switch that takes effect and that no disposal follows. */
  predicate Revives(scopes: seq<string>, ops: seq<Op>, k: nat) {
    && k < |ops| && ops[k].SwitchTo? && Switches(scopes, ops[k].businessId)
    && forall j :: k < j < |ops| ==> !ops[j].Dispose?
  }

  /** After any history, a request issued now is current exactly if a switch since the last disposal
      took effect, or there was no disposal and such a request was current before. */
  lemma {:induction false} NewRequestsAreCurrentIff(scopes: seq<string>, h: History, ops: seq<Op>)
    requires InOrder(scopes, h)
    ensures
      var end := DoAll(scopes, h, ops).context;
      IsCurrent(end, Issue(end)) <==>
      || (exists k :: Revives(scopes, ops, k))
      || (IsCurrent(h.context, Issue(h.context)) && forall j :: 0 <= j < |ops| ==> !ops[j].Dispose?)
    decreases |ops|
  {
    if ops != [] {
      var next, rest := Do(scopes, h, ops[0]), ops[1..];
      assert InOrder(scopes, next);
      NewRequestsAreCurrentIff(scopes, next, rest);
      assert forall j :: 0 <= j < |rest| ==> rest[j] == ops[j + 1];
      assert forall j :: 0 < j < |ops| ==> ops[j] == rest[j - 1];
      forall k: nat ensures Revives(scopes, rest, k) == Revives(scopes, ops, k + 1) {}
      assert forall k: nat :: k > 0 && Revives(scopes, ops, k) ==> Revives(scopes, rest, k - 1);
      assert Revives(scopes, ops, 0) <==>
             && ops[0].SwitchTo? && Switches(scopes, ops[0].businessId)
             && forall j :: 0 <= j < |rest| ==> !rest[j].Dispose?;
    }
  }

  /** Disposal holds until a switch takes effect, and again from the next disposal on: whatever comes
      after it, the requests issued before it stay dead, and those issued at the end are current if and
      only if some switch took effect after the last disposal. */
  lemma DisposeIsNotFinal(scopes: seq<string>, h: History, ops: seq<Op>)
    requires InOrder(scopes, h)
    ensures
      var end := DoAll(scopes, Do(scopes, h, Dispose), ops).context;
      && (forall t :: t in h.issued ==> !IsCurrent(end, t))
      && (IsCurrent(end, Issue(end)) <==> exists k :: Revives(scopes, ops, k))
  {
    CurrentUntilAborted(scopes, h, [Dispose]);
    var disposed := Do(scopes, h, Dispose);
    assert InOrder(scopes, disposed);
    NewRequestsAreCurrentIff(scopes, disposed, ops);
    CurrentUntilAborted(scopes, disposed, ops);
  }

  /** A controller that was disposed of issues current requests again after a switch. */
  lemma SwitchedAfterDisposal()
    ensures
      var end := DoAll(["a"], Begin("a"), [Dispose, SwitchTo("a")]).context;
      IsCurrent(end, Issue(end))
  {
    var ops := [SwitchTo("a")];
    assert Revives(["a"], ops, 0);
    DisposeIsNotFinal(["a"], Begin("a"), ops);
    assert [Dispose, SwitchTo("a")][1..] == ops;
  }

  // ---------------------------------------------------------------- the controller

  class AbortController {
    var aborted: bool

    constructor ()
      ensures !aborted
    {
      aborted := false;
    }

    method Abort()
      modifies this
      ensures aborted
    {
      aborted := true;
    }
  }

  datatype Request = Request(ticket: Ticket, signal: AbortController)

  /** The controller of the current business. `signals` holds the abort controller of every
      generation, so that `View` can tell which of them have fired. */
  class BusinessContextController {
    const scopes: seq<string>
    var currentBusinessId: string
    var generation: nat
    var controller: AbortController
    ghost var signals: seq<AbortController>

    ghost predicate Valid()
      reads this, signals
    {
      && |signals| == generation + 1
      && signals[generation] == controller
      && (forall i, j :: 0 <= i < j < |signals| ==> signals[i] != signals[j])
      && currentBusinessId in scopes
      && forall g :: 0 <= g < generation ==> signals[g].aborted
    }

    ghost function View(): Context
      reads this, signals
    {
      Context(currentBusinessId, generation, set g: nat | g < |signals| && signals[g].aborted)
    }

    constructor (scopes: seq<string>, initial: string)
      requires initial in scopes
      ensures Valid() && this.scopes == scopes && View() == Begin(initial).context
      ensures fresh(controller) && signals == [controller]
    {
      this.scopes := scopes;
      currentBusinessId, generation := initial, 0;
      var first := new AbortController();
      controller := first;
      signals := [first];
    }

    method NextRequest() returns (r: Request)
      requires Valid()
      ensures r.ticket == Issue(View()) && r.signal == controller
    {
      r := Request(Ticket(currentBusinessId, generation), controller);
    }

    method Switch(id: string) returns (r: Option<Request>)
      requires Valid()
      modifies this, controller
      ensures Valid() && View() == Apply(scopes, old(View()), SwitchTo(id))
      ensures r.Some? <==> Switches(scopes, id)
      ensures r.Some? ==> r.value.ticket == Issue(View()) && r.value.signal == controller
                          && fresh(controller) && signals == old(signals) + [controller] && !controller.aborted
      ensures r.None? ==> controller == old(controller) && signals == old(signals)
    {
      if id == "" || id !in scopes {
        return None;
      }
      controller.Abort();
      controller := new AbortController();
      signals := signals + [controller];
      generation := generation + 1;
      currentBusinessId := id;
      assert forall g: nat :: g < |signals| - 1 ==> signals[g] == old(signals)[g];
      var request := NextRequest();
      r := Some(request);
    }

    function Current(t: Ticket): (current: bool)
      requires Valid()
      reads this, controller, signals
      ensures current == IsCurrent(View(), t)
    {
      t.businessId == currentBusinessId && t.generation == generation && !controller.aborted
    }

    /** A request of this controller is current exactly while the signal that it carries has not fired. */
    lemma SignalTells(r: Request)
      requires Valid() && r.ticket.generation < |signals| && r.signal == signals[r.ticket.generation]
      requires r.ticket.generation == generation ==> r.ticket.businessId == currentBusinessId
      ensures IsCurrent(View(), r.ticket) <==> !r.signal.aborted
    {
      assert r.ticket.generation < generation ==> signals[r.ticket.generation].aborted;
    }

    method DisposeAll()
      requires Valid()
      modifies controller
      ensures Valid() && View() == Apply(scopes, old(View()), Dispose)
      ensures controller == old(controller) && signals == old(signals)
    {
      controller.Abort();
    }
  }
}

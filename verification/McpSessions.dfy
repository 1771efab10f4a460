/** app/ai/mcp_integration.py: opening and closing one MCP session. */
module McpSessions {
  // `get_server_tools` (the caller) starts a task that owns the session: the owner opens it,
  // hands it over through the `ready` future and holds it until `close_requested` is set. The
  // two interleave at every await; the caller can be cancelled at each of its own. Once the
  // session is registered, the manager may ask for its close at any time.

  datatype Caller =
    | Preparing         // before the owner task exists
    | AwaitingReady     // await ready
    | LoadingTools      // await load_mcp_tools(session)
    | AwaitingOwner     // await owner_task, after a failed load
    | Registered        // returned the tools; the session is the manager's
    | ReturnedEmpty
    | RaisedNotFound    // a ValueError became ServerNotFoundError
    | RaisedCancelled

  datatype Owner =
    | NotCreated
    | Created
    | Opening           // await session_context.__aenter__()
    | Holding           // await close_requested.wait()
    | Closing           // await session_context.__aexit__()
    | Ended

  datatype Future = Unset | Result | Failed(valueError: bool) | Abandoned

  /** `enters` and `exits` count the session's own `__aenter__` that succeeded and `__aexit__`
      that was begun; `loadRaisedValueError` remembers how the load failed, if it did. */
  datatype State = State(
    caller: Caller, owner: Owner, ready: Future, closeRequested: bool,
    enters: nat, exits: nat, loadRaisedValueError: bool)

  const INITIAL := State(Preparing, NotCreated, Unset, false, 0, 0, false)

  datatype Event =
    | SessionContextFails(valueError: bool)
    | StartOwner
    | OwnerRuns
    | Opened
    | OpenFails(valueError: bool)
    | BeginClose
    | CloseEnds(failed: bool)
    | ReadyArrives
    | ToolsLoaded
    | LoadFails(valueError: bool)
    | OwnerAwaited
    | Cancel
    | ManagerCloses

  predicate Enabled(s: State, e: Event) {
    match e
    case SessionContextFails(_) => s.caller.Preparing?
    case StartOwner => s.caller.Preparing?
    case OwnerRuns => s.owner.Created?
    case Opened => s.owner.Opening?
    case OpenFails(_) => s.owner.Opening?
    case BeginClose => s.owner.Holding? && s.closeRequested
    case CloseEnds(_) => s.owner.Closing?
    case ReadyArrives => s.caller.AwaitingReady? && (s.ready.Result? || s.ready.Failed?)
    case ToolsLoaded => s.caller.LoadingTools?
    case LoadFails(_) => s.caller.LoadingTools?
    case OwnerAwaited => s.caller.AwaitingOwner? && s.owner.Ended?
    case Cancel => s.caller.AwaitingReady? || s.caller.LoadingTools? || s.caller.AwaitingOwner?
    case ManagerCloses => s.caller.Registered?
  }

  function Next(s: State, e: Event): State
    requires Enabled(s, e)
  {
    match e
    case SessionContextFails(valueError) => s.(caller := if valueError then RaisedNotFound else ReturnedEmpty)
    case StartOwner => s.(caller := AwaitingReady, owner := Created)
    case OwnerRuns => s.(owner := Opening)
    case Opened =>
      s.(owner := Holding, enters := s.enters + 1, ready := if s.ready.Unset? then Result else s.ready)
    case OpenFails(valueError) =>
      s.(owner := Ended, ready := if s.ready.Unset? then Failed(valueError) else s.ready)
    case BeginClose => s.(owner := Closing, exits := s.exits + 1)
    case CloseEnds(_) => s.(owner := Ended)
    case ReadyArrives =>
      if s.ready.Result? then s.(caller := LoadingTools)
      else if s.ready.valueError then s.(caller := RaisedNotFound)
      else s.(caller := ReturnedEmpty)  // no session_info yet, so nothing to close
    case ToolsLoaded => s.(caller := Registered)
    case LoadFails(valueError) =>
      if valueError then s.(caller := RaisedNotFound, loadRaisedValueError := true)
      else s.(caller := AwaitingOwner, closeRequested := true)
    case OwnerAwaited => s.(caller := ReturnedEmpty)
    case Cancel =>
      if s.caller.AwaitingReady? then
        // cancelling the caller cancels the future it awaits
        s.(caller := RaisedCancelled, closeRequested := true, ready := if s.ready.Unset? then Abandoned else s.ready)
      else if s.caller.LoadingTools? then s.(caller := RaisedCancelled, closeRequested := true)
      else
        // cancelling the caller cancels the owner task it awaits, which exits on its way out
        if s.owner.Holding? then s.(caller := RaisedCancelled, owner := Closing, exits := s.exits + 1)
        else if s.owner.Closing? then s.(caller := RaisedCancelled, owner := Ended)
        else s.(caller := RaisedCancelled)
    case ManagerCloses => s.(closeRequested := true)
  }

  ghost predicate Reachable(events: seq<Event>, s: State)
    decreases |events|
  {
    if |events| == 0 then s == INITIAL
    else exists before :: Follows(events, before, s)
  }

  ghost predicate Follows(events: seq<Event>, before: State, s: State)
    requires |events| > 0
    decreases |events|, 0
  {
    var last := events[|events| - 1];
    Reachable(events[..|events| - 1], before) && Enabled(before, last) && s == Next(before, last)
  }

  predicate CallerDone(s: State) {
    s.caller in {Registered, ReturnedEmpty, RaisedNotFound, RaisedCancelled}
  }

  /** The owner may hold a session now or come to hold one. */
  predicate MayHold(s: State) {
    s.owner in {Created, Opening, Holding}
  }

  predicate Invariant(s: State) {
    && (s.owner.NotCreated? ==> s.caller in {Preparing, ReturnedEmpty, RaisedNotFound})
    && (s.caller.Preparing? ==> s.owner.NotCreated?)
    && s.enters == (if s.owner in {Holding, Closing} then 1 else if s.owner.Ended? then s.exits else 0)
    && s.exits == (if s.owner.Closing? then 1 else if s.owner.Ended? then s.enters else 0)
    && s.exits <= s.enters <= 1
    && (s.exits == 1 ==> s.closeRequested)
    && (s.ready.Result? ==> s.enters == 1)
    && (s.ready.Failed? ==> s.owner.Ended? && s.enters == 0)
    && (s.ready.Abandoned? ==> s.caller.RaisedCancelled? && s.closeRequested)
    && (s.ready.Unset? ==> s.caller in {Preparing, AwaitingReady} || (s.owner.NotCreated? && CallerDone(s)))
    && (s.ready.Unset? ==> s.owner in {NotCreated, Created, Opening})
    && (s.caller in {LoadingTools, AwaitingOwner, Registered} ==> s.ready.Result?)
    && (s.caller.AwaitingReady? ==> !s.ready.Abandoned?)
    && (s.owner.NotCreated? || s.caller in {AwaitingReady, LoadingTools} ==> !s.closeRequested)
    && (s.caller in {AwaitingOwner, RaisedCancelled} ==> s.closeRequested)
    && (s.loadRaisedValueError ==> s.caller.RaisedNotFound? && s.owner.Holding? && s.ready.Result? && !s.closeRequested)
    && (s.caller in {ReturnedEmpty, RaisedNotFound} ==> s.loadRaisedValueError || s.owner in {NotCreated, Ended})
  }

  lemma InvariantStep(s: State, e: Event)
    requires Invariant(s) && Enabled(s, e)
    ensures Invariant(Next(s, e))
  {
  }

  lemma {:induction false} ReachableInvariant(events: seq<Event>, s: State)
    requires Reachable(events, s)
    ensures Invariant(s)
    decreases |events|
  {
    if events != [] {
      var before :| Follows(events, before, s);
      ReachableInvariant(events[..|events| - 1], before);
      InvariantStep(before, events[|events| - 1]);
    }
  }

  // ---------------------------------------------------------------- no session is left behind

  /** A finished call leaves a session that nobody will close exactly when loading its tools
      raised a ValueError. Every other end, cancellation at any await included, leaves it
      registered, told to close, or never opened. */
  lemma SessionLeaksOnlyOnValueError(events: seq<Event>, s: State)
    requires Reachable(events, s) && CallerDone(s)
    ensures MayHold(s) && !s.caller.Registered? && !s.closeRequested <==> s.loadRaisedValueError
  {
    ReachableInvariant(events, s);
  }

  /** The leak is real: the session opens, its tools fail to load with a ValueError, and the
      owner holds it with no one left to ask for its close. */
  lemma ValueErrorLeavesSessionOpen() returns (events: seq<Event>, s: State)
    ensures Reachable(events, s) && CallerDone(s)
    ensures s.enters == 1 && s.exits == 0 && !s.caller.Registered?
    ensures forall e :: !Enabled(s, e)
  {
    events := [StartOwner, OwnerRuns, Opened, ReadyArrives, LoadFails(true)];
    var s1 := Next(INITIAL, StartOwner);
    var s2 := Next(s1, OwnerRuns);
    var s3 := Next(s2, Opened);
    var s4 := Next(s3, ReadyArrives);
    s := Next(s4, LoadFails(true));
    ReachStep([], INITIAL, StartOwner);
    ReachStep([] + [StartOwner], s1, OwnerRuns);
    ReachStep([] + [StartOwner] + [OwnerRuns], s2, Opened);
    ReachStep([] + [StartOwner] + [OwnerRuns] + [Opened], s3, ReadyArrives);
    ReachStep([] + [StartOwner] + [OwnerRuns] + [Opened] + [ReadyArrives], s4, LoadFails(true));
    assert events == [] + [StartOwner] + [OwnerRuns] + [Opened] + [ReadyArrives] + [LoadFails(true)];
  }

  lemma ReachStep(events: seq<Event>, s: State, e: Event)
    requires Reachable(events, s) && Enabled(s, e)
    ensures Reachable(events + [e], Next(s, e))
  {
    assert (events + [e])[..|events|] == events;
    assert Follows(events + [e], s, Next(s, e));
  }

  /** A session is never exited unless it was entered and told to close, and never twice. */
  lemma ExitsAreEarned(events: seq<Event>, s: State)
    requires Reachable(events, s)
    ensures s.exits <= s.enters <= 1 && (s.exits == 1 ==> s.closeRequested)
  {
    ReachableInvariant(events, s);
  }

  // ---------------------------------------------------------------- what the caller is told

  /** The event is a failure of the context, of the opening or of the load, by a ValueError or not. */
  predicate Fails(e: Event, valueError: bool) {
    e in {SessionContextFails(valueError), OpenFails(valueError), LoadFails(valueError)}
  }

  predicate FailedWith(events: seq<Event>, valueError: bool) {
    exists i :: 0 <= i < |events| && Fails(events[i], valueError)
  }

  lemma FailedMore(events: seq<Event>, e: Event, valueError: bool)
    ensures FailedWith(events + [e], valueError) <==> FailedWith(events, valueError) || Fails(e, valueError)
  {
    var more := events + [e];
    assert more[|events|] == e && forall i :: 0 <= i < |events| ==> more[i] == events[i];
    if i :| 0 <= i < |events| && Fails(events[i], valueError) {
      assert Fails(more[i], valueError);
    }
  }

  /** A server that is not found was one that failed with a ValueError, an empty list one that failed
      with another error, and tools are returned only where nothing failed. */
  lemma {:induction false} EndsAsItFailed(events: seq<Event>, s: State)
    requires Reachable(events, s)
    ensures s.caller.RaisedNotFound? ==> FailedWith(events, true) && !FailedWith(events, false)
    ensures s.caller.ReturnedEmpty? || s.caller.AwaitingOwner?
         ==> FailedWith(events, false) && !FailedWith(events, true)
    ensures s.ready.Failed? ==> FailedWith(events, s.ready.valueError) && !FailedWith(events, !s.ready.valueError)
    ensures s.caller in {Preparing, LoadingTools, Registered} || (s.caller.AwaitingReady? && !s.ready.Failed?) ==>
      !FailedWith(events, true) && !FailedWith(events, false)
    decreases |events|
  {
    hide FailedWith;
    if events == [] {
      assert !FailedWith(events, true) && !FailedWith(events, false) by {
        NothingFailed();
      }
    } else {
      var init, last := events[..|events| - 1], events[|events| - 1];
      var before :| Follows(events, before, s);
      EndsAsItFailed(init, before);
      ReachableInvariant(init, before);
      assert events == init + [last];
      FailedMore(init, last, true);
      FailedMore(init, last, false);
    }
  }

  lemma NothingFailed()
    ensures !FailedWith([], true) && !FailedWith([], false)
  {
  }

  // ---------------------------------------------------------------- closing finishes

  predicate IsOwnerEvent(e: Event) {
    e.OwnerRuns? || e.Opened? || e.OpenFails? || e.BeginClose? || e.CloseEnds?
  }

  function OwnerStepsLeft(owner: Owner): nat {
    match owner
    case NotCreated => 5
    case Created => 4
    case Opening => 3
    case Holding => 2
    case Closing => 1
    case Ended => 0
  }

  /** Once close is requested the owner can always go on until it has ended, each of its steps
      brings it nearer, and nothing sets it back. */
  lemma ClosingGoesOn(events: seq<Event>, s: State, e: Event)
    requires Reachable(events, s) && s.closeRequested && Enabled(s, e)
    ensures Next(s, e).closeRequested
    ensures OwnerStepsLeft(Next(s, e).owner) <= OwnerStepsLeft(s.owner) <= 4
    ensures IsOwnerEvent(e) ==> OwnerStepsLeft(Next(s, e).owner) < OwnerStepsLeft(s.owner)
    ensures e.Cancel? && s.caller.AwaitingOwner? && !s.owner.Ended? ==>
      OwnerStepsLeft(Next(s, e).owner) < OwnerStepsLeft(s.owner)
    ensures s.owner.Ended? || exists f :: IsOwnerEvent(f) && Enabled(s, f)
  {
    ReachableInvariant(events, s);
    ClosingIsEnabled(events, s);
  }

  lemma ClosingIsEnabled(events: seq<Event>, s: State)
    requires Reachable(events, s) && s.closeRequested
    ensures s.owner.Ended? || exists f :: IsOwnerEvent(f) && Enabled(s, f)
  {
    ReachableInvariant(events, s);
    match s.owner
    case Created => assert Enabled(s, OwnerRuns);
    case Opening => assert Enabled(s, Opened);
    case Holding => assert Enabled(s, BeginClose);
    case Closing => assert Enabled(s, CloseEnds(false));
    case _ =>
  }

  /** Where that ends, every session that was entered has been exited exactly once. */
  lemma EveryEnterIsExited(events: seq<Event>, s: State)
    requires Reachable(events, s) && s.closeRequested
    requires forall e :: IsOwnerEvent(e) ==> !Enabled(s, e)
    ensures s.owner.Ended? && s.exits == s.enters
  {
    ReachableInvariant(events, s);
    ClosingIsEnabled(events, s);
  }
}

/** app/ai/mcp_registry.py: one shared manager behind one non-reentrant lock. */
module McpRegistry {
  // Tasks run `get_manager_async` or `reload_config` and interleave wherever the source awaits:
  // at the lock, while the manager initialises and loads its tools, and while it reloads them.
  // Any of these awaits may also end in an exception or a cancellation. Between the tasks the
  // config file may change and servers may be switched on and off.

  import opened Options

  /** What a task was started for. */
  datatype Call =
    | GetManager(autoReload: bool)
    | ReloadConfig

  /** Where a task is. `WaitInit` and `WaitReload` ask for the lock; the next four hold it. */
  datatype Point =
    | Start
    | WaitInit
    | WaitReload(onlyIfChanged: bool)
    | Initializing
    | LoadingTools
    | Closing(automatic: bool)    // a reload closes the old sessions before it reads the config
    | Reloading(automatic: bool)
    | Returned(manager: Option<nat>)
    | Raised

  datatype Task = Task(call: Call, at: Point)

  /** `instance` is the manager's identity, `builds` the next fresh one, `ready` the managers
      whose first initialisation finished. `advances` counts the times the file's mtime went up,
      `automaticReloads` and `rebuilds` what was completed. `loadedMtime` is the mtime the file had
      when the config was last read; the source does not keep it. */
  datatype State = State(
    tasks: seq<Task>,
    lock: Option<nat>,
    instance: Option<nat>, builds: nat, ready: set<nat>,
    initialized: bool,
    configMtime: int, fileMtime: int, loadedMtime: int,
    generation: nat,
    advances: nat, automaticReloads: nat, rebuilds: nat)

  datatype Event =
    | Run(task: nat, ok: bool)  // one stretch of a task up to its next await; `!ok`: the await it was at failed
    | TouchFile(mtime: int)
    | ServerChange

  function Initial(calls: seq<Call>, fileMtime: int): State {
    State(seq(|calls|, i requires 0 <= i < |calls| => Task(calls[i], Start)),
          None, None, 0, {}, false, 0, fileMtime, 0, 0, 0, 0, 0)
  }

  function ConfigChanged(s: State): bool {
    s.fileMtime > s.configMtime
  }

  function MoveTo(s: State, t: nat, at: Point): State
    requires t < |s.tasks|
  {
    s.(tasks := s.tasks[t := s.tasks[t].(at := at)])
  }

  /** The tail of `get_manager_async`, past the initialisation: reload when the file changed. */
  function AfterInit(s: State, t: nat): State
    requires t < |s.tasks|
  {
    if s.tasks[t].call.GetManager? && s.tasks[t].call.autoReload && ConfigChanged(s)
    then StartReload(s, t, true)
    else MoveTo(s, t, Returned(s.instance))
  }

  /** The head of `reload_config`. */
  function StartReload(s: State, t: nat, onlyIfChanged: bool): State
    requires t < |s.tasks|
  {
    if s.instance.None? then MoveTo(s, t, Returned(None))
    else MoveTo(s, t, WaitReload(onlyIfChanged))
  }

  predicate NeedsInit(s: State) {
    s.instance.None? || !s.initialized
  }

  predicate Finished(at: Point) {
    at.Returned? || at.Raised?
  }

  /** A task can run unless it is finished, or waits for a lock somebody holds. A waiting task
      can also be cancelled. */
  predicate CanRun(s: State, t: nat, ok: bool) {
    && t < |s.tasks|
    && !Finished(s.tasks[t].at)
    && (s.tasks[t].at.Start? ==> ok)
    && ((s.tasks[t].at.WaitInit? || s.tasks[t].at.WaitReload?) && ok ==> s.lock.None?)
  }

  function RunTask(s: State, t: nat, ok: bool): State
    requires CanRun(s, t, ok)
  {
    var task := s.tasks[t];
    match task.at
    case Start =>
      if task.call.ReloadConfig? then StartReload(s, t, false)
      else if NeedsInit(s) then MoveTo(s, t, WaitInit)
      else AfterInit(s, t)
    case WaitInit =>
      if !ok then MoveTo(s, t, Raised)
      else if NeedsInit(s) then
        MoveTo(s.(lock := Some(t), instance := Some(s.builds), builds := s.builds + 1, loadedMtime := s.fileMtime), t,
               Initializing)
      else AfterInit(s, t)
    case Initializing =>
      if ok then MoveTo(s, t, LoadingTools) else MoveTo(s.(lock := None), t, Raised)
    case LoadingTools =>
      if ok then
        MoveTo(s.(lock := None, initialized := true, configMtime := s.fileMtime,
                  ready := s.ready + (if s.instance.Some? then {s.instance.value} else {}),
                  generation := s.generation + 1, rebuilds := s.rebuilds + 1),
               t, Returned(s.instance))
      else MoveTo(s.(lock := None), t, Raised)
    case WaitReload(onlyIfChanged) =>
      if !ok then MoveTo(s, t, Raised)
      else if onlyIfChanged && !ConfigChanged(s) then
        MoveTo(s, t, Returned(if task.call.GetManager? then s.instance else None))
      else MoveTo(s.(lock := Some(t)), t, Closing(onlyIfChanged))
    case Closing(automatic) =>
      if ok then MoveTo(s.(loadedMtime := s.fileMtime), t, Reloading(automatic))
      else MoveTo(s.(lock := None), t, Raised)
    case Reloading(automatic) =>
      if ok then
        // the manager reports its own reload, and the registry counts it again
        MoveTo(s.(lock := None, configMtime := s.fileMtime, generation := s.generation + 2,
                  rebuilds := s.rebuilds + 1,
                  automaticReloads := s.automaticReloads + (if automatic then 1 else 0)),
               t, Returned(if task.call.GetManager? then s.instance else None))
      else MoveTo(s.(lock := None), t, Raised)
    case _ => s
  }

  predicate Enabled(s: State, e: Event) {
    e.Run? ==> CanRun(s, e.task, e.ok)
  }

  function Next(s: State, e: Event): State
    requires Enabled(s, e)
  {
    match e
    case Run(t, ok) => RunTask(s, t, ok)
    case TouchFile(mtime) => s.(fileMtime := mtime, advances := s.advances + (if mtime > s.fileMtime then 1 else 0))
    case ServerChange => s.(generation := s.generation + 1)
  }

  /** `s` is what some schedule of the calls and the environment leads to. */
  ghost predicate Reachable(calls: seq<Call>, fileMtime: int, events: seq<Event>, s: State)
    decreases |events|
  {
    if |events| == 0 then s == Initial(calls, fileMtime)
    else exists before :: Follows(calls, fileMtime, events, before, s)
  }

  ghost predicate Follows(calls: seq<Call>, fileMtime: int, events: seq<Event>, before: State, s: State)
    requires |events| > 0
    decreases |events|, 0
  {
    var last := events[|events| - 1];
    Reachable(calls, fileMtime, events[..|events| - 1], before) && Enabled(before, last) && s == Next(before, last)
  }

  // ---------------------------------------------------------------- the invariant

  predicate HoldsLock(at: Point) {
    at.Initializing? || at.LoadingTools? || at.Closing? || at.Reloading?
  }

  predicate TaskOk(s: State, t: nat)
    requires t < |s.tasks|
  {
    var task := s.tasks[t];
    && (HoldsLock(task.at) <==> s.lock == Some(t))
    && (task.at.WaitInit? || task.at.Initializing? || task.at.LoadingTools? ==> task.call.GetManager?)
    && (task.at.Initializing? || task.at.LoadingTools? ==> !s.initialized && s.instance.Some?)
    && (task.at.WaitReload? || task.at.Closing? || task.at.Reloading? ==> s.instance.Some?)
    && (task.at.WaitReload? ==> task.at.onlyIfChanged == task.call.GetManager?)
    && (task.at.Closing? || task.at.Reloading? ==> task.at.automatic == task.call.GetManager?)
    && (task.call.GetManager? && (task.at.WaitReload? || task.at.Closing? || task.at.Reloading?) ==> s.initialized)
    && (task.call.GetManager? && task.at.Returned? ==> s.initialized && task.at.manager == s.instance)
  }

  /** A reload under way has used up the advance that started it. */
  predicate AdvanceInHand(s: State) {
    || ConfigChanged(s)
    || (s.lock.Some? && s.lock.value < |s.tasks| && s.tasks[s.lock.value].at in {Closing(true), Reloading(true)})
  }

  predicate Invariant(s: State) {
    && (forall t :: 0 <= t < |s.tasks| ==> TaskOk(s, t))
    && (s.lock.Some? ==> s.lock.value < |s.tasks|)
    && (s.initialized ==> s.instance.Some? && s.instance.value in s.ready)
    && (s.instance.Some? ==> s.instance.value < s.builds) && (forall m :: m in s.ready ==> m < s.builds)
    && s.generation >= s.rebuilds
    && (!s.initialized ==> s.automaticReloads == 0)
    && (s.initialized ==> s.automaticReloads + (if AdvanceInHand(s) then 1 else 0) <= s.advances)
  }

  lemma InvariantStep(s: State, e: Event)
    requires Invariant(s) && Enabled(s, e)
    ensures Invariant(Next(s, e))
  {
    if e.Run? {
      RunKeepsInvariant(s, e.task, e.ok);
    } else {
      var s' := Next(s, e);
      forall t | 0 <= t < |s'.tasks|
        ensures TaskOk(s', t)
      {
        assert TaskOk(s, t);
      }
    }
  }

  lemma RunKeepsInvariant(s: State, t: nat, ok: bool)
    requires Invariant(s) && CanRun(s, t, ok)
    ensures Invariant(RunTask(s, t, ok))
  {
    hide TaskOk, RunTask;
    var s' := RunTask(s, t, ok);
    RunKeepsCalls(s, t, ok);
    RunKeepsCounts(s, t, ok);
    forall u | 0 <= u < |s'.tasks|
      ensures TaskOk(s', u)
    {
      RunKeepsTask(s, t, ok, u);
    }
  }

  lemma RunKeepsTask(s: State, t: nat, ok: bool, u: nat)
    requires Invariant(s) && CanRun(s, t, ok) && u < |RunTask(s, t, ok).tasks|
    ensures TaskOk(RunTask(s, t, ok), u)
  {
    hide AdvanceInHand, ConfigChanged;
    assert TaskOk(s, t) && TaskOk(s, u);
    if u != t {
      RunKeepsOther(s, t, ok, u);
    }
  }

  lemma RunKeepsOther(s: State, t: nat, ok: bool, u: nat)
    requires CanRun(s, t, ok) && TaskOk(s, t) && u < |s.tasks| && TaskOk(s, u) && u != t
    requires s.initialized ==> s.instance.Some?
    ensures u < |RunTask(s, t, ok).tasks| && TaskOk(RunTask(s, t, ok), u)
  {
    hide ConfigChanged;
  }

  lemma RunKeepsCounts(s: State, t: nat, ok: bool)
    requires Invariant(s) && CanRun(s, t, ok)
    ensures var s' := RunTask(s, t, ok);
      && (s'.lock.Some? ==> s'.lock.value < |s'.tasks|)
      && (s'.initialized ==> s'.instance.Some? && s'.instance.value in s'.ready)
      && (s'.instance.Some? ==> s'.instance.value < s'.builds) && (forall m :: m in s'.ready ==> m < s'.builds)
      && s'.generation >= s'.rebuilds
      && (!s'.initialized ==> s'.automaticReloads == 0)
      && (s'.initialized ==> s'.automaticReloads + (if AdvanceInHand(s') then 1 else 0) <= s'.advances)
  {
    assert TaskOk(s, t);
  }

  lemma RunKeepsCalls(s: State, t: nat, ok: bool)
    requires CanRun(s, t, ok)
    ensures |RunTask(s, t, ok).tasks| == |s.tasks|
    ensures forall u :: 0 <= u < |s.tasks| ==> RunTask(s, t, ok).tasks[u].call == s.tasks[u].call
  {
  }

  lemma {:induction false} ReachableInvariant(calls: seq<Call>, fileMtime: int, events: seq<Event>, s: State)
    requires Reachable(calls, fileMtime, events, s)
    ensures Invariant(s) && |s.tasks| == |calls|
    ensures forall t :: 0 <= t < |calls| ==> s.tasks[t].call == calls[t]
    decreases |events|
  {
    if events != [] {
      hide Invariant, RunTask, CanRun;
      var before :| Follows(calls, fileMtime, events, before, s);
      ReachableInvariant(calls, fileMtime, events[..|events| - 1], before);
      var last := events[|events| - 1];
      InvariantStep(before, last);
      if last.Run? {
        RunKeepsCalls(before, last.task, last.ok);
      }
    }
  }

  // ---------------------------------------------------------------- what every schedule keeps

  /** Nobody gets a manager before its initialisation finished, and everybody gets the same one. */
  lemma ManagersAreReady(calls: seq<Call>, fileMtime: int, events: seq<Event>, s: State, t: nat, u: nat)
    requires Reachable(calls, fileMtime, events, s)
    requires t < |s.tasks| && s.tasks[t].call.GetManager? && s.tasks[t].at.Returned?
    requires u < |s.tasks| && s.tasks[u].call.GetManager? && s.tasks[u].at.Returned?
    ensures s.tasks[t].at.manager.Some? && s.tasks[t].at.manager.value in s.ready
    ensures s.tasks[t].at.manager == s.tasks[u].at.manager
  {
    ReachableInvariant(calls, fileMtime, events, s);
    assert TaskOk(s, t) && TaskOk(s, u);
  }

  /** The lock is held by at most one task, and none that holds it asks for it again, which is
      what deadlocked before the reload was moved outside the lock. */
  lemma LockIsExclusive(calls: seq<Call>, fileMtime: int, events: seq<Event>, s: State, t: nat, u: nat)
    requires Reachable(calls, fileMtime, events, s) && t < |s.tasks| && u < |s.tasks|
    ensures HoldsLock(s.tasks[t].at) && HoldsLock(s.tasks[u].at) ==> t == u
    ensures s.tasks[t].at.WaitInit? || s.tasks[t].at.WaitReload? ==> s.lock != Some(t)
  {
    ReachableInvariant(calls, fileMtime, events, s);
    assert TaskOk(s, t) && TaskOk(s, u);
  }

  /** However many callers notice a changed file, it is reloaded at most once per change. */
  lemma ReloadsNeverOutnumberChanges(calls: seq<Call>, fileMtime: int, events: seq<Event>, s: State)
    requires Reachable(calls, fileMtime, events, s)
    ensures s.automaticReloads <= s.advances
  {
    ReachableInvariant(calls, fileMtime, events, s);
  }

  /** The manager that is built is none that was ever built before, so no other's initialisation is
      taken for its own. */
  lemma NewManagerIsNew(calls: seq<Call>, fileMtime: int, events: seq<Event>, s: State, t: nat)
    requires Reachable(calls, fileMtime, events, s) && CanRun(s, t, true)
    requires s.tasks[t].at.WaitInit? && (s.instance.None? || !s.initialized)
    ensures var manager := Next(s, Run(t, true)).instance;
            manager.Some? && manager != s.instance && manager.value !in s.ready
  {
    ReachableInvariant(calls, fileMtime, events, s);
  }

  /** What is counted: the times the mtime went up, and the reloads that callers with `auto_reload`
      carried through. */
  lemma CountersCount(s: State, e: Event)
    requires Invariant(s) && Enabled(s, e)
    ensures Next(s, e).advances == s.advances + (if e.TouchFile? && e.mtime > s.fileMtime then 1 else 0)
    ensures Next(s, e).automaticReloads == s.automaticReloads +
      (if e.Run? && e.ok && s.tasks[e.task].at.Reloading? && s.tasks[e.task].call.GetManager? then 1 else 0)
  {
    if e.Run? {
      assert TaskOk(s, e.task);
    }
  }

  /** How often a server was switched on or off. */
  function Switches(events: seq<Event>): nat {
    if |events| == 0 then 0
    else Switches(events[..|events| - 1]) + (if events[|events| - 1].ServerChange? then 1 else 0)
  }

  lemma {:induction false} ReachedOnce(calls: seq<Call>, fileMtime: int, events: seq<Event>, s: State, t: State)
    requires Reachable(calls, fileMtime, events, s) && Reachable(calls, fileMtime, events, t)
    ensures s == t
    decreases |events|
  {
    hide Next, Enabled;
    if events != [] {
      var before :| Follows(calls, fileMtime, events, before, s);
      var other :| Follows(calls, fileMtime, events, other, t);
      ReachedOnce(calls, fileMtime, events[..|events| - 1], before, other);
    }
  }

  /** One event and the generation. */
  lemma GenerationStep(s: State, e: Event)
    requires Invariant(s) && Enabled(s, e)
    ensures var s' := Next(s, e);
            var first := if s'.initialized && !s.initialized then 1 else 0;
      && s'.rebuilds >= s.rebuilds + first
      && (s.initialized ==> s'.initialized && s'.instance == s.instance)
      && s'.generation == s.generation + 2 * (s'.rebuilds - s.rebuilds) - first + (if e.ServerChange? then 1 else 0)
  {
    if e.Run? {
      assert TaskOk(s, e.task);
    }
  }

  /** What the generation counts between two moments of a run: one for the first load, two for each
      reload, one for each server switched on or off. So it is the same at both if and only if no
      rebuild completed and no server was switched in between, and a tool stamped with it is
      current exactly then. Once initialised, the manager stays the same object. */
  lemma {:induction false} GenerationIsSameIff(calls: seq<Call>, fileMtime: int, events: seq<Event>, i: nat, s: State,
                                               s': State)
    requires i <= |events|
    requires Reachable(calls, fileMtime, events[..i], s) && Reachable(calls, fileMtime, events, s')
    ensures var first := if s'.initialized && !s.initialized then 1 else 0;
            var switches := Switches(events) - Switches(events[..i]);
      && s'.rebuilds >= s.rebuilds + first && switches >= 0
      && s'.generation == s.generation + 2 * (s'.rebuilds - s.rebuilds) - first + switches
      && (s'.generation == s.generation <==> s'.rebuilds == s.rebuilds && switches == 0)
      && (s.initialized ==> s'.initialized && s'.instance == s.instance)
    decreases |events|
  {
    hide Next, Enabled, Invariant, Reachable, Follows;
    if i == |events| {
      assert events[..i] == events;
      ReachedOnce(calls, fileMtime, events, s, s');
    } else {
      var init, last := events[..|events| - 1], events[|events| - 1];
      var before := Before(calls, fileMtime, events, s');
      ReachableInvariant(calls, fileMtime, init, before);
      assert init[..i] == events[..i];
      GenerationIsSameIff(calls, fileMtime, init, i, s, before);
      GenerationStep(before, last);
    }
  }

  lemma Before(calls: seq<Call>, fileMtime: int, events: seq<Event>, s: State) returns (before: State)
    requires events != [] && Reachable(calls, fileMtime, events, s)
    ensures Reachable(calls, fileMtime, events[..|events| - 1], before)
    ensures Enabled(before, events[|events| - 1]) && s == Next(before, events[|events| - 1])
  {
    before :| Follows(calls, fileMtime, events, before, s);
  }

  /** No schedule gets stuck: while a task is unfinished, some task can go on. */
  lemma NoDeadlock(calls: seq<Call>, fileMtime: int, events: seq<Event>, s: State, t: nat) returns (u: nat)
    requires Reachable(calls, fileMtime, events, s)
    requires t < |s.tasks| && !Finished(s.tasks[t].at)
    ensures CanRun(s, u, true)
  {
    ReachableInvariant(calls, fileMtime, events, s);
    u := if s.lock.Some? then s.lock.value else t;
    assert TaskOk(s, u);
  }

  // ---------------------------------------------------------------- what the recorded mtime stands for

  /** Task `t` has read the config and is not through with it. */
  predicate HasRead(s: State, t: nat) {
    t < |s.tasks| && (s.tasks[t].at.Initializing? || s.tasks[t].at.LoadingTools? || s.tasks[t].at.Reloading?)
  }

  /** The events lead from one state to another, and all the while `t` has read the config. */
  ghost predicate LeadsOn(s: State, events: seq<Event>, s': State, t: nat)
    decreases |events|
  {
    HasRead(s', t) &&
    if |events| == 0 then s' == s else exists mid :: OneMore(s, events, mid, s', t)
  }

  ghost predicate OneMore(s: State, events: seq<Event>, mid: State, s': State, t: nat)
    requires |events| > 0
    decreases |events|, 0
  {
    var last := events[|events| - 1];
    LeadsOn(s, events[..|events| - 1], mid, t) && Enabled(mid, last) && s' == Next(mid, last)
  }

  function MtimeAfter(events: seq<Event>, mtime: int): int {
    if |events| == 0 then mtime
    else
      var last := events[|events| - 1];
      if last.TouchFile? then last.mtime else MtimeAfter(events[..|events| - 1], mtime)
  }

  /** Every change of the file raises its mtime. */
  predicate OnlyRaises(events: seq<Event>, mtime: int) {
    |events| == 0
    || (var init, last := events[..|events| - 1], events[|events| - 1];
        OnlyRaises(init, mtime) && (last.TouchFile? ==> last.mtime > MtimeAfter(init, mtime)))
  }

  lemma {:induction false} RaisedMtime(events: seq<Event>, mtime: int)
    requires OnlyRaises(events, mtime)
    ensures MtimeAfter(events, mtime) >= mtime
    ensures MtimeAfter(events, mtime) == mtime <==> forall e :: e in events ==> !e.TouchFile?
  {
    if events != [] {
      var init, last := events[..|events| - 1], events[|events| - 1];
      RaisedMtime(init, mtime);
      assert events == init + [last];
      assert last in events;
    }
  }

  /** While one task works on the config it has read, no other reads it. */
  lemma {:induction false} ReadIsKept(s: State, events: seq<Event>, s': State, t: nat)
    requires Invariant(s) && LeadsOn(s, events, s', t)
    ensures Invariant(s') && s'.loadedMtime == s.loadedMtime && s'.fileMtime == MtimeAfter(events, s.fileMtime)
    decreases |events|
  {
    if events != [] {
      var mid :| OneMore(s, events, mid, s', t);
      var last := events[|events| - 1];
      ReadIsKept(s, events[..|events| - 1], mid, t);
      InvariantStep(mid, last);
      assert TaskOk(mid, t);
      if last.Run? {
        assert TaskOk(mid, last.task);
      }
    }
  }

  /** The stretch in which a task reads the config. */
  predicate Reads(s: State, t: nat) {
    CanRun(s, t, true) && (s.tasks[t].at.Closing? || (s.tasks[t].at.WaitInit? && NeedsInit(s)))
  }

  lemma ReadingStarts(s: State, t: nat)
    requires Reads(s, t)
    ensures CanRun(s, t, true)
    ensures Next(s, Run(t, true)).loadedMtime == Next(s, Run(t, true)).fileMtime == s.fileMtime
  {
  }

  lemma EndsRead(s: State, events: seq<Event>, s': State, t: nat)
    requires LeadsOn(s, events, s', t)
    ensures HasRead(s', t)
  {
  }

  lemma ReadingEnds(s: State, t: nat)
    requires Invariant(s) && HasRead(s, t) && !s.tasks[t].at.Initializing?
    ensures CanRun(s, t, true)
    ensures var done := Next(s, Run(t, true));
      && done.rebuilds == s.rebuilds + 1 && done.loadedMtime == s.loadedMtime
      && done.configMtime == s.fileMtime == done.fileMtime
  {
  }

  /** A completed rebuild records the mtime the file has then, not the one it had when it was read.
      The two are the same if and only if the mtime did not change in between; when every change
      raises it, if and only if there was none. Either way the file counts as unchanged. */
  lemma RecordedIsReadIff(s: State, t: nat, between: seq<Event>, s': State)
    requires Invariant(s) && Reads(s, t) && LeadsOn(Next(s, Run(t, true)), between, s', t)
    requires !s'.tasks[t].at.Initializing?
    ensures CanRun(s', t, true)
    ensures var done := Next(s', Run(t, true));
      && done.rebuilds == s'.rebuilds + 1 && done.loadedMtime == s.fileMtime && done.configMtime == s'.fileMtime
      && (done.loadedMtime == done.configMtime <==> MtimeAfter(between, s.fileMtime) == s.fileMtime)
      && (OnlyRaises(between, s.fileMtime) ==>
            (done.loadedMtime == done.configMtime <==> forall e :: e in between ==> !e.TouchFile?))
      && !ConfigChanged(done)
  {
    hide Invariant, OnlyRaises, LeadsOn, RunTask, Reads;
    ReadingStarts(s, t);
    var read := Next(s, Run(t, true));
    InvariantStep(s, Run(t, true));
    ReadIsKept(read, between, s', t);
    EndsRead(read, between, s', t);
    ReadingEnds(s', t);
    if OnlyRaises(between, s.fileMtime) {
      RaisedMtime(between, s.fileMtime);
    }
  }

  /** A change while the tools load is recorded as loaded without being read: until the next change
      no caller reloads it. */
  lemma ChangeIsMissed() returns (events: seq<Event>, s: State)
    ensures Reachable([GetManager(true)], 1, events, s)
    ensures |s.tasks| == 1 && s.tasks[0].at.Returned?
    ensures s.loadedMtime == 1 && s.configMtime == s.fileMtime == 2 && !ConfigChanged(s)
  {
    var s0 := Initial([GetManager(true)], 1);
    var step := Run(0, true);
    events := [] + [step] + [step] + [step] + [TouchFile(2)] + [step];
    var s1 := Next(s0, step);
    var s2 := Next(s1, step);
    var s3 := Next(s2, step);
    var s4 := Next(s3, TouchFile(2));
    s := Next(s4, step);
    ReachStep([], s0, step);
    ReachStep([] + [step], s1, step);
    ReachStep([] + [step] + [step], s2, step);
    ReachStep([] + [step] + [step] + [step], s3, TouchFile(2));
    ReachStep([] + [step] + [step] + [step] + [TouchFile(2)], s4, step);
  }

  lemma ReachStep(events: seq<Event>, s: State, e: Event)
    requires Reachable([GetManager(true)], 1, events, s) && Enabled(s, e)
    ensures Reachable([GetManager(true)], 1, events + [e], Next(s, e))
  {
    assert (events + [e])[..|events|] == events;
    assert Follows([GetManager(true)], 1, events + [e], s, Next(s, e));
  }

  // ---------------------------------------------------------------- who reloads, and who does not

  /** The events lead from one state to another. */
  ghost predicate Leads(s: State, events: seq<Event>, s': State)
    decreases |events|
  {
    if |events| == 0 then s' == s else exists mid :: LeadsOneMore(s, events, mid, s')
  }

  ghost predicate LeadsOneMore(s: State, events: seq<Event>, mid: State, s': State)
    requires |events| > 0
    decreases |events|, 0
  {
    var last := events[|events| - 1];
    Leads(s, events[..|events| - 1], mid) && Enabled(mid, last) && s' == Next(mid, last)
  }

  /** No change of the file lowers its mtime. */
  predicate NeverLowers(events: seq<Event>, mtime: int) {
    |events| == 0
    || (var init, last := events[..|events| - 1], events[|events| - 1];
        NeverLowers(init, mtime) && (last.TouchFile? ==> last.mtime >= MtimeAfter(init, mtime)))
  }

  lemma FollowsMtime(s: State, e: Event)
    requires Enabled(s, e)
    ensures Next(s, e).fileMtime == if e.TouchFile? then e.mtime else s.fileMtime
    ensures |Next(s, e).tasks| == |s.tasks|
    ensures forall t :: 0 <= t < |s.tasks| ==> Next(s, e).tasks[t].call == s.tasks[t].call
  {
    if e.Run? {
      RunKeepsCalls(s, e.task, e.ok);
    }
  }

  /** One event, seen by an automatic caller that started when the file had some mtime: when the
      caller returns, the recorded mtime is no older. */
  lemma SeenStep(s: State, e: Event, t: nat, mtime: int)
    requires Invariant(s) && Enabled(s, e) && t < |s.tasks| && s.tasks[t].call == GetManager(true)
    requires mtime <= s.fileMtime && (e.TouchFile? ==> e.mtime >= s.fileMtime)
    requires s.tasks[t].at.Returned? ==> s.configMtime >= mtime
    ensures Next(s, e).tasks[t].at.Returned? ==> Next(s, e).configMtime >= mtime
  {
    hide AdvanceInHand;
    assert TaskOk(s, t);
    if e.Run? {
      assert TaskOk(s, e.task);
    }
  }

  lemma {:induction false} SeenOnTheWay(s: State, events: seq<Event>, s': State, t: nat)
    requires Invariant(s) && t < |s.tasks| && s.tasks[t] == Task(GetManager(true), Start)
    requires Leads(s, events, s') && NeverLowers(events, s.fileMtime)
    ensures Invariant(s') && |s'.tasks| == |s.tasks| && s'.tasks[t].call == GetManager(true)
    ensures s'.fileMtime == MtimeAfter(events, s.fileMtime) >= s.fileMtime
    ensures s'.tasks[t].at.Returned? ==> s'.configMtime >= s.fileMtime
    decreases |events|
  {
    hide Invariant, Enabled, Next;
    if events != [] {
      var mid :| LeadsOneMore(s, events, mid, s');
      var last := events[|events| - 1];
      SeenOnTheWay(s, events[..|events| - 1], mid, t);
      InvariantStep(mid, last);
      FollowsMtime(mid, last);
      SeenStep(mid, last, t, s.fileMtime);
    }
  }

  /** A changed file is reloaded: whatever else runs, when a caller with `auto_reload` returns, the
      registry has recorded an mtime no older than the file had when the caller started. */
  lemma ChangedFileIsReloaded(calls: seq<Call>, fileMtime: int, before: seq<Event>, s: State, events: seq<Event>,
                              s': State, t: nat)
    requires Reachable(calls, fileMtime, before, s) && Leads(s, events, s') && NeverLowers(events, s.fileMtime)
    requires t < |s.tasks| && s.tasks[t] == Task(GetManager(true), Start)
    requires t < |s'.tasks| && s'.tasks[t].at.Returned?
    ensures s'.configMtime >= s.fileMtime
  {
    ReachableInvariant(calls, fileMtime, before, s);
    SeenOnTheWay(s, events, s', t);
  }

  /** A caller without `auto_reload` never reloads anything, nor waits to. */
  lemma {:induction false} PlainCallsNeverReload(calls: seq<Call>, fileMtime: int, events: seq<Event>, s: State, t: nat)
    requires Reachable(calls, fileMtime, events, s)
    requires t < |s.tasks| && s.tasks[t].call == GetManager(false)
    ensures !s.tasks[t].at.WaitReload? && !s.tasks[t].at.Closing? && !s.tasks[t].at.Reloading?
    decreases |events|
  {
    hide Enabled, Next;
    if events != [] {
      var before :| Follows(calls, fileMtime, events, before, s);
      var last := events[|events| - 1];
      FollowsMtime(before, last);
      PlainCallsNeverReload(calls, fileMtime, events[..|events| - 1], before, t);
      PlainStep(before, last, t);
    }
  }

  lemma PlainStep(s: State, e: Event, t: nat)
    requires Enabled(s, e) && t < |s.tasks| && s.tasks[t].call == GetManager(false)
    requires !s.tasks[t].at.WaitReload? && !s.tasks[t].at.Closing? && !s.tasks[t].at.Reloading?
    ensures var at := Next(s, e).tasks[t].at; !at.WaitReload? && !at.Closing? && !at.Reloading?
  {
    hide ConfigChanged, NeedsInit;
    if e.Run? && e.task != t {
      hide RunTask;
      OneTaskMoves(s, e.task, e.ok);
    }
  }

  lemma RebuiltStep(s: State, e: Event, t: nat, rebuilds: nat)
    requires Invariant(s) && Enabled(s, e) && t < |s.tasks| && s.tasks[t].call == ReloadConfig
    requires s.instance.Some? && s.rebuilds >= rebuilds && (s.tasks[t].at.Returned? ==> s.rebuilds > rebuilds)
    ensures Next(s, e).instance.Some? && Next(s, e).rebuilds >= rebuilds
    ensures Next(s, e).tasks[t].at.Returned? ==> Next(s, e).rebuilds > rebuilds
  {
    hide AdvanceInHand;
    assert TaskOk(s, t);
  }

  /** An explicit reload, once there is a manager, never returns without a rebuild, changed file or
      not; without a manager it returns at once. */
  lemma {:induction false} ExplicitReloadRebuilds(s: State, events: seq<Event>, s': State, t: nat)
    requires Invariant(s) && Leads(s, events, s')
    requires t < |s.tasks| && s.tasks[t] == Task(ReloadConfig, Start) && s.instance.Some?
    ensures Invariant(s') && |s'.tasks| == |s.tasks| && s'.tasks[t].call == ReloadConfig
    ensures s'.instance.Some? && s'.rebuilds >= s.rebuilds
    ensures s'.tasks[t].at.Returned? ==> s'.rebuilds > s.rebuilds
    decreases |events|
  {
    hide Invariant, Enabled, Next;
    if events != [] {
      var mid :| LeadsOneMore(s, events, mid, s');
      var last := events[|events| - 1];
      ExplicitReloadRebuilds(s, events[..|events| - 1], mid, t);
      InvariantStep(mid, last);
      FollowsMtime(mid, last);
      RebuiltStep(mid, last, t, s.rebuilds);
    }
  }

  /** And with no manager there is nothing to reload: it returns in one step and changes nothing. */
  lemma NothingToReload(s: State, t: nat)
    requires t < |s.tasks| && s.tasks[t] == Task(ReloadConfig, Start) && s.instance.None?
    ensures CanRun(s, t, true) && Next(s, Run(t, true)) == s.(tasks := s.tasks[t := Task(ReloadConfig, Returned(None))])
  {
  }

  // ---------------------------------------------------------------- every schedule ends

  function StepsLeft(at: Point): nat {
    match at
    case Start => 5
    case WaitInit => 4
    case WaitReload(_) => 3
    case Initializing => 2
    case Closing(_) => 2
    case LoadingTools => 1
    case Reloading(_) => 1
    case _ => 0
  }

  function WorkLeft(tasks: seq<Task>): nat {
    if |tasks| == 0 then 0 else StepsLeft(tasks[0].at) + WorkLeft(tasks[1..])
  }

  lemma {:induction false} WorkOfUpdate(tasks: seq<Task>, t: nat, task: Task)
    requires t < |tasks|
    ensures WorkLeft(tasks[t := task]) == WorkLeft(tasks) - StepsLeft(tasks[t].at) + StepsLeft(task.at)
  {
    if t == 0 {
      assert tasks[0 := task][1..] == tasks[1..];
    } else {
      assert tasks[t := task][1..] == tasks[1..][t - 1 := task];
      WorkOfUpdate(tasks[1..], t - 1, task);
    }
  }

  lemma {:induction false} WorkAtStart(tasks: seq<Task>)
    requires forall t :: 0 <= t < |tasks| ==> tasks[t].at == Start
    ensures WorkLeft(tasks) == 5 * |tasks|
  {
    if tasks != [] {
      WorkAtStart(tasks[1..]);
    }
  }

  function RunCount(events: seq<Event>): nat {
    if |events| == 0 then 0
    else RunCount(events[..|events| - 1]) + (if events[|events| - 1].Run? then 1 else 0)
  }

  lemma WorkShrinks(s: State, e: Event)
    requires Enabled(s, e)
    ensures WorkLeft(Next(s, e).tasks) + (if e.Run? then 1 else 0) <= WorkLeft(s.tasks)
  {
    hide WorkLeft;
    if e.Run? {
      OneTaskMoves(s, e.task, e.ok);
      WorkOfUpdate(s.tasks, e.task, Next(s, e).tasks[e.task]);
    }
  }

  lemma OneTaskMoves(s: State, t: nat, ok: bool)
    requires Enabled(s, Run(t, ok))
    ensures var after := RunTask(s, t, ok).tasks;
      |after| == |s.tasks| && after == s.tasks[t := after[t]] && StepsLeft(after[t].at) < StepsLeft(s.tasks[t].at)
  {
  }

  /** Together with NoDeadlock: whatever the environment does, n tasks are finished after at
      most 5n of their steps. */
  lemma {:induction false} SchedulesEnd(calls: seq<Call>, fileMtime: int, events: seq<Event>, s: State)
    requires Reachable(calls, fileMtime, events, s)
    ensures RunCount(events) + WorkLeft(s.tasks) <= 5 * |calls|
    decreases |events|
  {
    if events == [] {
      WorkAtStart(s.tasks);
    } else {
      var before :| Follows(calls, fileMtime, events, before, s);
      SchedulesEnd(calls, fileMtime, events[..|events| - 1], before);
      WorkShrinks(before, events[|events| - 1]);
    }
  }
}

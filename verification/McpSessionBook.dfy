/** app/ai/mcp_integration.py: which sessions the manager can still close. */
module McpSessionBook {
  // `_session_contexts` is the only way to a session's close. Cleaning up copies it, awaits each
  // close in turn and clears it; removing or disabling a server awaits the close and deletes the
  // server's entry; reconnecting takes the entry out and then awaits. Loads that finish during
  // these awaits add entries, and one that finishes after another of the same server puts its entry
  // in the place of the other's. A session is lost when nobody will ever tell it to close.

  import opened Options

  /** One item of the dict, in insertion order. Sessions are numbered as they are registered. */
  datatype Context = Context(name: string, id: nat)

  /** What a task does, and how far it is. */
  datatype Work =
    | Cleanup                                       // has not begun
    | CleaningUp(from: nat, todo: seq<nat>)         // awaits a close; `from`: sessions registered at the copy
    | Close(name: string)                           // remove or disable a server
    | ClosingServer(name: string, told: nat)        // awaits that close
    | Reconnect(name: string)
    | Reconnecting                                  // awaits the close of the entry it took out
    | Done
    | Raised                                        // cancelled, or the entry to delete was gone

  datatype State = State(contexts: seq<Context>, registered: nat, toldToClose: set<nat>, tasks: seq<Work>)

  datatype Event =
    | Run(task: nat, ok: bool)  // a stretch up to the task's next await; `!ok`: it was cancelled there
    | Register(name: string)    // a load finishes

  function Initial(tasks: seq<Work>): State {
    State([], 0, {}, tasks)
  }

  predicate HasContext(contexts: seq<Context>, name: string) {
    exists i :: 0 <= i < |contexts| && contexts[i].name == name
  }

  predicate HasId(contexts: seq<Context>, id: nat) {
    exists i :: 0 <= i < |contexts| && contexts[i].id == id
  }

  function IdOf(contexts: seq<Context>, name: string): (id: nat)
    requires HasContext(contexts, name)
    ensures HasId(contexts, id)
    ensures exists i :: 0 <= i < |contexts| && contexts[i] == Context(name, id)
  {
    if contexts[0].name == name then contexts[0].id
    else
      assert forall i :: 1 <= i < |contexts| ==> contexts[i] == contexts[1..][i - 1];
      IdOf(contexts[1..], name)
  }

  function Ids(contexts: seq<Context>): (ids: seq<nat>)
    ensures |ids| == |contexts|
    ensures forall i :: 0 <= i < |contexts| ==> ids[i] == contexts[i].id
  {
    seq(|contexts|, i requires 0 <= i < |contexts| => contexts[i].id)
  }

  function Without(contexts: seq<Context>, name: string): (rest: seq<Context>)
    ensures forall c :: c in rest <==> c in contexts && c.name != name
  {
    if |contexts| == 0 then []
    else (if contexts[0].name == name then [] else [contexts[0]]) + Without(contexts[1..], name)
  }

  /** The assignment to a key of the dict: in the place of the entry there is, else at the end. */
  function Put(contexts: seq<Context>, name: string, id: nat): (r: seq<Context>)
    ensures r != []
  {
    if |contexts| == 0 then [Context(name, id)]
    else if contexts[0].name == name then [Context(name, id)] + contexts[1..]
    else [contexts[0]] + Put(contexts[1..], name, id)
  }

  function MoveTo(s: State, t: nat, at: Work): State
    requires t < |s.tasks|
  {
    s.(tasks := s.tasks[t := at])
  }

  /** The loop of a cleanup: tell the next one to close and await it, or clear. */
  function CloseNext(s: State, t: nat, from: nat, todo: seq<nat>): State
    requires t < |s.tasks|
  {
    if todo == [] then MoveTo(s.(contexts := []), t, Done)
    else MoveTo(s.(toldToClose := s.toldToClose + {todo[0]}), t, CleaningUp(from, todo[1..]))
  }

  predicate Waits(at: Work) {
    at.CleaningUp? || at.ClosingServer? || at.Reconnecting?
  }

  predicate Enabled(s: State, e: Event) {
    match e
    case Run(t, ok) => t < |s.tasks| && !s.tasks[t].Done? && !s.tasks[t].Raised? && (ok || Waits(s.tasks[t]))
    case Register(_) => true
  }

  function Next(s: State, e: Event): State
    requires Enabled(s, e)
  {
    match e
    case Register(name) => s.(contexts := Put(s.contexts, name, s.registered), registered := s.registered + 1)
    case Run(t, ok) =>
      if !ok then MoveTo(s, t, Raised)
      else match s.tasks[t]
        case Cleanup => CloseNext(s, t, s.registered, Ids(s.contexts))
        case CleaningUp(from, todo) => CloseNext(s, t, from, todo)
        case Close(name) =>
          if !HasContext(s.contexts, name) then MoveTo(s, t, Done)
          else
            var id := IdOf(s.contexts, name);
            MoveTo(s.(toldToClose := s.toldToClose + {id}), t, ClosingServer(name, id))
        case ClosingServer(name, _) =>
          if !HasContext(s.contexts, name) then MoveTo(s, t, Raised)
          else MoveTo(s.(contexts := Without(s.contexts, name)), t, Done)
        case Reconnect(name) =>
          if !HasContext(s.contexts, name) then MoveTo(s, t, Done)
          else
            MoveTo(s.(toldToClose := s.toldToClose + {IdOf(s.contexts, name)}, contexts := Without(s.contexts, name)),
                   t, Reconnecting)
        case Reconnecting => MoveTo(s, t, Done)
        case _ => s
  }

  // ---------------------------------------------------------------- what every step keeps

  predicate DistinctContexts(contexts: seq<Context>) {
    forall i, j :: 0 <= i < j < |contexts| ==> contexts[i].name != contexts[j].name && contexts[i].id != contexts[j].id
  }

  /** A cleanup has every entry of before its copy told or still to do. */
  predicate WorkOk(s: State, at: Work) {
    match at
    case CleaningUp(from, todo) =>
      && from <= s.registered
      && (forall i :: 0 <= i < |todo| ==> todo[i] < from)
      && (forall c :: c in s.contexts && c.id < from ==> c.id in s.toldToClose || c.id in todo)
    case ClosingServer(_, told) => told in s.toldToClose
    case _ => true
  }

  predicate Invariant(s: State) {
    && DistinctContexts(s.contexts)
    && (forall c :: c in s.contexts ==> c.id < s.registered)
    && (forall id :: id in s.toldToClose ==> id < s.registered)
    && (forall t :: 0 <= t < |s.tasks| ==> WorkOk(s, s.tasks[t]))
  }

  /** Nobody will tell this session to close: it was not told, has no entry, and is on no cleanup's
      list. */
  predicate Lost(s: State, id: nat) {
    && id < s.registered && id !in s.toldToClose && !HasId(s.contexts, id)
    && forall t :: 0 <= t < |s.tasks| && s.tasks[t].CleaningUp? ==> id !in s.tasks[t].todo
  }

  /** What putting an entry of a new session leaves: the new entry, and those of other servers. */
  lemma {:induction false} PutIs(contexts: seq<Context>, name: string, id: nat)
    requires DistinctContexts(contexts) && forall c :: c in contexts ==> c.id != id
    ensures DistinctContexts(Put(contexts, name, id))
    ensures forall c :: c in Put(contexts, name, id) <==> c == Context(name, id) || (c in contexts && c.name != name)
  {
    if contexts != [] {
      var first, rest := contexts[0], contexts[1..];
      var put := Put(contexts, name, id);
      assert forall i :: 0 <= i < |rest| ==> rest[i] == contexts[i + 1];
      if first.name == name {
        assert put == [Context(name, id)] + rest;
        assert forall i :: 1 <= i < |put| ==> put[i] == contexts[i];
      } else {
        PutIs(rest, name, id);
        var others := Put(rest, name, id);
        assert put == [first] + others;
        forall i | 0 <= i < |others|
          ensures others[i].name != first.name && others[i].id != first.id
        {
          assert others[i] in others;
        }
      }
    }
  }

  /** Which sessions have an entry then: the new one, and all but the one of the same server. */
  lemma PutIds(contexts: seq<Context>, name: string, id: nat, which: nat)
    requires DistinctContexts(contexts) && forall c :: c in contexts ==> c.id != id
    ensures HasId(Put(contexts, name, id), which)
      <==> which == id || (HasId(contexts, which) && !(HasContext(contexts, name) && IdOf(contexts, name) == which))
  {
    hide HasId, DistinctContexts, Put, IdOf;
    PutIs(contexts, name, id);
    HasIdIn(contexts, which);
    HasIdIn(Put(contexts, name, id), which);
    if HasContext(contexts, name) {
      OneEntry(contexts, name);
      OneName(contexts, name);
    } else {
      NoneNamed(contexts, name);
    }
    if which == id {
      assert Context(name, id) in Put(contexts, name, id);
    }
  }

  lemma NoneNamed(contexts: seq<Context>, name: string)
    requires !HasContext(contexts, name)
    ensures forall c :: c in contexts ==> c.name != name
  {
  }

  lemma HasIdIn(contexts: seq<Context>, id: nat)
    ensures HasId(contexts, id) <==> exists c :: c in contexts && c.id == id
  {
    if i :| 0 <= i < |contexts| && contexts[i].id == id {
      assert contexts[i] in contexts;
    }
  }

  lemma NoIds(contexts: seq<Context>)
    requires contexts == []
    ensures forall id :: !HasId(contexts, id)
  {
  }

  lemma {:induction false} WithoutIsDistinct(contexts: seq<Context>, name: string)
    requires DistinctContexts(contexts)
    ensures DistinctContexts(Without(contexts, name))
  {
    if contexts != [] {
      var first, rest := contexts[0], contexts[1..];
      WithoutIsDistinct(rest, name);
      var kept := Without(rest, name);
      forall i | 0 <= i < |kept|
        ensures kept[i].name != first.name && kept[i].id != first.id
      {
        assert kept[i] in rest;
      }
      assert first.name == name ==> Without(contexts, name) == kept;
      assert first.name != name ==> Without(contexts, name) == [first] + kept;
    }
  }

  /** Taking the entry of a server out. */
  lemma WithoutIds(contexts: seq<Context>, name: string)
    requires DistinctContexts(contexts) && HasContext(contexts, name)
    ensures forall id :: HasId(Without(contexts, name), id) <==> HasId(contexts, id) && id != IdOf(contexts, name)
  {
    hide HasId, DistinctContexts;
    var gone, rest := IdOf(contexts, name), Without(contexts, name);
    OneEntry(contexts, name);
    OneName(contexts, name);
    forall id
      ensures HasId(rest, id) <==> HasId(contexts, id) && id != gone
    {
      HasIdIn(contexts, id);
      HasIdIn(rest, id);
    }
  }

  /** Only the server's own entry has its session. */
  lemma OneName(contexts: seq<Context>, name: string)
    requires DistinctContexts(contexts) && HasContext(contexts, name)
    ensures forall c :: c in contexts && c.id == IdOf(contexts, name) ==> c.name == name
  {
    var id := IdOf(contexts, name);
    var i :| 0 <= i < |contexts| && contexts[i] == Context(name, id);
    forall c | c in contexts && c.id == id
      ensures c.name == name
    {
      var j :| 0 <= j < |contexts| && contexts[j] == c;
    }
  }

  lemma CloseNextKeeps(s: State, t: nat, from: nat, todo: seq<nat>)
    requires Invariant(s) && t < |s.tasks| && WorkOk(s, CleaningUp(from, todo))
    ensures Invariant(CloseNext(s, t, from, todo))
  {
    var s' := CloseNext(s, t, from, todo);
    forall u | 0 <= u < |s'.tasks|
      ensures WorkOk(s', s'.tasks[u])
    {
      assert u != t ==> WorkOk(s, s.tasks[u]);
    }
  }

  lemma RegisterKeeps(s: State, name: string)
    requires Invariant(s) && Enabled(s, Register(name))
    ensures Invariant(Next(s, Register(name)))
  {
    hide DistinctContexts, Put;
    var s' := Next(s, Register(name));
    PutIs(s.contexts, name, s.registered);
    forall u | 0 <= u < |s'.tasks|
      ensures WorkOk(s', s'.tasks[u])
    {
      assert WorkOk(s, s.tasks[u]);
    }
  }

  lemma InvariantStep(s: State, e: Event)
    requires Invariant(s) && Enabled(s, e)
    ensures Invariant(Next(s, e))
  {
    hide CloseNext, IdOf, Without, DistinctContexts;
    match e
    case Register(name) => RegisterKeeps(s, name);
    case Run(t, ok) =>
      if ok && s.tasks[t].Cleanup? {
        CopyIsOk(s);
        CloseNextKeeps(s, t, s.registered, Ids(s.contexts));
      } else if ok && s.tasks[t].CleaningUp? {
        assert WorkOk(s, s.tasks[t]);
        CloseNextKeeps(s, t, s.tasks[t].from, s.tasks[t].todo);
      } else {
        OtherTaskKeeps(s, t, ok);
      }
  }

  lemma CopyIsOk(s: State)
    requires Invariant(s)
    ensures WorkOk(s, CleaningUp(s.registered, Ids(s.contexts)))
  {
    var ids := Ids(s.contexts);
    forall i | 0 <= i < |ids|
      ensures ids[i] < s.registered
    {
      assert s.contexts[i] in s.contexts;
    }
    forall c | c in s.contexts
      ensures c.id in ids
    {
      var i :| 0 <= i < |s.contexts| && s.contexts[i] == c;
      assert ids[i] == c.id;
    }
  }

  lemma OtherTaskKeeps(s: State, t: nat, ok: bool)
    requires Invariant(s) && Enabled(s, Run(t, ok)) && (ok ==> !s.tasks[t].Cleanup? && !s.tasks[t].CleaningUp?)
    ensures Invariant(Next(s, Run(t, ok)))
  {
    hide CloseNext, DistinctContexts;
    var s' := Next(s, Run(t, ok));
    var at := s.tasks[t];
    if (at.Close? || at.Reconnect? || at.ClosingServer?) && HasContext(s.contexts, at.name) {
      WithoutIsDistinct(s.contexts, at.name);
      var id := IdOf(s.contexts, at.name);
      assert Context(at.name, id) in s.contexts;
    }
    forall u | 0 <= u < |s'.tasks|
      ensures WorkOk(s', s'.tasks[u])
    {
      assert u != t ==> WorkOk(s, s.tasks[u]);
    }
  }

  /** Steps a task still has to make. */
  function StepsLeft(s: State, t: nat): nat
    requires t < |s.tasks|
  {
    match s.tasks[t]
    case Cleanup => 2 + |s.contexts|
    case CleaningUp(_, todo) => 1 + |todo|
    case Close(_) => 2
    case Reconnect(_) => 2
    case ClosingServer(_, _) => 1
    case Reconnecting => 1
    case _ => 0
  }

  /** A task comes nearer to its end with each of its steps, and where none is left it has ended. */
  lemma TasksEnd(s: State, t: nat, ok: bool)
    requires t < |s.tasks|
    ensures Enabled(s, Run(t, ok)) ==> StepsLeft(Next(s, Run(t, ok)), t) < StepsLeft(s, t)
    ensures StepsLeft(s, t) == 0 <==> s.tasks[t].Done? || s.tasks[t].Raised?
    ensures StepsLeft(s, t) > 0 ==> Enabled(s, Run(t, true))
  {
    hide HasContext, IdOf, Without;
  }

  // ---------------------------------------------------------------- which step loses which session

  predicate OnOtherList(s: State, t: nat, id: nat) {
    exists u :: 0 <= u < |s.tasks| && u != t && s.tasks[u].CleaningUp? && id in s.tasks[u].todo
  }

  /** The step takes the last hold of a session: a load puts its entry in the place of the
      session's; a cleanup clears an entry that was added after its
      copy; a close deletes an entry that came in the place of the one it told; or a cleanup is
      cancelled before it told one that has no entry any more. */
  predicate Loses(s: State, e: Event, id: nat)
    requires Enabled(s, e)
  {
    && id < s.registered && id !in s.toldToClose
    && match e
       case Register(name) => HasContext(s.contexts, name) && IdOf(s.contexts, name) == id && !OnAList(s, id)
       case Run(t, ok) =>
         && !OnOtherList(s, t, id)
         && match s.tasks[t]
            case CleaningUp(from, todo) =>
              if ok then todo == [] && HasId(s.contexts, id) && id >= from else id in todo && !HasId(s.contexts, id)
            case ClosingServer(name, told) =>
              ok && HasContext(s.contexts, name) && IdOf(s.contexts, name) == id && id != told
            case _ => false
  }

  predicate OnAList(s: State, id: nat) {
    exists u :: 0 <= u < |s.tasks| && s.tasks[u].CleaningUp? && id in s.tasks[u].todo
  }

  /** No other list changes in a step. */
  lemma OtherLists(s: State, e: Event, id: nat)
    requires Enabled(s, e) && e.Run?
    ensures OnOtherList(Next(s, e), e.task, id) <==> OnOtherList(s, e.task, id)
    ensures (forall t :: 0 <= t < |s.tasks| && s.tasks[t].CleaningUp? ==> id !in s.tasks[t].todo)
       <==> !OnOtherList(s, e.task, id) && (s.tasks[e.task].CleaningUp? ==> id !in s.tasks[e.task].todo)
    ensures |Next(s, e).tasks| == |s.tasks|
  {
    hide IdOf, Without, HasContext;
    var s' := Next(s, e);
    assert forall u :: 0 <= u < |s.tasks| && u != e.task ==> s'.tasks[u] == s.tasks[u];
  }

  lemma LostByLists(s: State, t: nat, id: nat)
    requires t < |s.tasks|
    ensures Lost(s, id) <==>
      && id < s.registered && id !in s.toldToClose && !HasId(s.contexts, id)
      && !OnOtherList(s, t, id) && (s.tasks[t].CleaningUp? ==> id !in s.tasks[t].todo)
  {
  }

  /** In every interleaving, a session is lost after a step exactly when it was lost before or this
      step takes the last hold of it. */
  lemma LosesIff(s: State, e: Event, id: nat)
    requires Invariant(s) && Enabled(s, e)
    ensures Lost(Next(s, e), id) <==> Lost(s, id) || Loses(s, e, id)
  {
    hide IdOf, Without, DistinctContexts, HasId, HasContext, OnOtherList, Invariant;
    match e
    case Register(name) => RegisterLosesIff(s, name, id);
    case Run(t, ok) =>
      OtherLists(s, e, id);
      LostByLists(s, t, id);
      LostByLists(Next(s, e), t, id);
      if s.tasks[t].Cleanup? || s.tasks[t].CleaningUp? {
        CleanupLosesIff(s, t, ok, id);
      } else {
        CloseLosesIff(s, t, ok, id);
      }
  }

  lemma RegisterLosesIff(s: State, name: string, id: nat)
    requires Invariant(s) && Enabled(s, Register(name))
    ensures Lost(Next(s, Register(name)), id) <==> Lost(s, id) || Loses(s, Register(name), id)
  {
    hide DistinctContexts, HasId, HasContext, IdOf, Put;
    PutIds(s.contexts, name, s.registered, id);
    if HasContext(s.contexts, name) {
      assert HasId(s.contexts, IdOf(s.contexts, name));
    }
    ListedWork(s, id);
  }

  /** No cleanup of the invariant has a session on its list that is not registered yet. */
  lemma ListedWork(s: State, id: nat)
    requires Invariant(s)
    ensures id >= s.registered ==> !OnAList(s, id) && !HasId(s.contexts, id)
  {
    hide DistinctContexts;
    forall u | 0 <= u < |s.tasks| && s.tasks[u].CleaningUp?
      ensures forall i :: 0 <= i < |s.tasks[u].todo| ==> s.tasks[u].todo[i] < s.registered
    {
      assert WorkOk(s, s.tasks[u]);
    }
    HasIdIn(s.contexts, id);
  }

  lemma CleanupLosesIff(s: State, t: nat, ok: bool, id: nat)
    requires Invariant(s) && Enabled(s, Run(t, ok)) && (s.tasks[t].Cleanup? || s.tasks[t].CleaningUp?)
    requires OnOtherList(Next(s, Run(t, ok)), t, id) <==> OnOtherList(s, t, id)
    requires LostHere(s, t, id) <==> Lost(s, id)
    requires LostHere(Next(s, Run(t, ok)), t, id) <==> Lost(Next(s, Run(t, ok)), id)
    ensures Lost(Next(s, Run(t, ok)), id) <==> Lost(s, id) || Loses(s, Run(t, ok), id)
  {
    hide Lost, OnOtherList, DistinctContexts, HasContext;
    HasIdIn(s.contexts, id);
    assert WorkOk(s, s.tasks[t]);
    NoIds([]);
    if s.tasks[t].Cleanup? {
      CopyIsOk(s);
    }
  }

  /** `Lost`, with the running task apart from the others. */
  predicate LostHere(s: State, t: nat, id: nat)
    requires t < |s.tasks|
  {
    && id < s.registered && id !in s.toldToClose && !HasId(s.contexts, id)
    && !OnOtherList(s, t, id) && (s.tasks[t].CleaningUp? ==> id !in s.tasks[t].todo)
  }

  lemma CloseLosesIff(s: State, t: nat, ok: bool, id: nat)
    requires Invariant(s) && Enabled(s, Run(t, ok)) && !s.tasks[t].Cleanup? && !s.tasks[t].CleaningUp?
    requires OnOtherList(Next(s, Run(t, ok)), t, id) <==> OnOtherList(s, t, id)
    requires LostHere(s, t, id) <==> Lost(s, id)
    requires LostHere(Next(s, Run(t, ok)), t, id) <==> Lost(Next(s, Run(t, ok)), id)
    ensures Lost(Next(s, Run(t, ok)), id) <==> Lost(s, id) || Loses(s, Run(t, ok), id)
  {
    hide Lost, OnOtherList, DistinctContexts, HasId, IdOf, Without;
    var at := s.tasks[t];
    assert WorkOk(s, at);
    if (at.Close? || at.Reconnect? || at.ClosingServer?) && HasContext(s.contexts, at.name) {
      WithoutIds(s.contexts, at.name);
    }
  }

  /** Once lost, always lost. */
  lemma LostStays(s: State, e: Event, id: nat)
    requires Invariant(s) && Enabled(s, e) && Lost(s, id)
    ensures Lost(Next(s, e), id)
  {
    LosesIff(s, e, id);
  }

  // ---------------------------------------------------------------- runs

  ghost predicate Reachable(tasks: seq<Work>, events: seq<Event>, s: State, quiet: bool)
    decreases |events|
  {
    if |events| == 0 then s == Initial(tasks) else exists before :: Follows(tasks, events, before, s, quiet)
  }

  /** With `quiet`, the last event does not disturb a task that waits. */
  ghost predicate Follows(tasks: seq<Work>, events: seq<Event>, before: State, s: State, quiet: bool)
    requires |events| > 0
    decreases |events|, 0
  {
    var last := events[|events| - 1];
    && Reachable(tasks, events[..|events| - 1], before, quiet) && Enabled(before, last) && s == Next(before, last)
    && (quiet ==> !Disturbs(before, last))
  }

  /** No task has begun. */
  predicate Fresh(tasks: seq<Work>) {
    forall t :: 0 <= t < |tasks| ==> !Waits(tasks[t])
  }

  lemma {:induction false} ReachableInvariant(tasks: seq<Work>, events: seq<Event>, s: State, quiet: bool)
    requires Fresh(tasks) && Reachable(tasks, events, s, quiet)
    ensures Invariant(s)
    decreases |events|
  {
    hide Invariant;
    if events == [] {
      InitialIsOk(tasks);
    } else {
      var before :| Follows(tasks, events, before, s, quiet);
      ReachableInvariant(tasks, events[..|events| - 1], before, quiet);
      InvariantStep(before, events[|events| - 1]);
    }
  }

  lemma InitialIsOk(tasks: seq<Work>)
    requires Fresh(tasks)
    ensures Invariant(Initial(tasks)) && Quiet(Initial(tasks))
  {
  }

  predicate Minds(at: Work, name: string) {
    at.CleaningUp? || (at.ClosingServer? && at.name == name)
  }

  /** A load finishes while a cleanup awaits a close, while the close of its own server is awaited,
      or where its server has a session already. */
  predicate Disturbs(s: State, e: Event) {
    && e.Register?
    && (HasContext(s.contexts, e.name) || exists t :: 0 <= t < |s.tasks| && Minds(s.tasks[t], e.name))
  }

  /** Every session is told or has its entry, and the entries are those the waiting tasks saw. */
  predicate Quiet(s: State) {
    && (forall id: nat :: id < s.registered ==> id in s.toldToClose || HasId(s.contexts, id))
    && (forall t :: 0 <= t < |s.tasks| && s.tasks[t].CleaningUp? ==> s.tasks[t].from == s.registered)
    && (forall t :: 0 <= t < |s.tasks| && s.tasks[t].ClosingServer? ==>
          forall c :: c in s.contexts && c.name == s.tasks[t].name ==> c.id == s.tasks[t].told)
  }

  lemma QuietStep(s: State, e: Event)
    requires Invariant(s) && Quiet(s) && Enabled(s, e) && !Disturbs(s, e)
    ensures Quiet(Next(s, e))
  {
    var s' := Next(s, e);
    InvariantStep(s, e);
    forall id: nat | id < s'.registered
      ensures id in s'.toldToClose || HasId(s'.contexts, id)
    {
      StaysOnBooks(s, e, id);
    }
    QuietTasks(s, e);
  }

  lemma StaysOnBooks(s: State, e: Event, id: nat)
    requires Invariant(s) && Quiet(s) && Enabled(s, e) && !Disturbs(s, e) && id < Next(s, e).registered
    ensures id in Next(s, e).toldToClose || HasId(Next(s, e).contexts, id)
  {
    hide DistinctContexts, HasId, HasContext, IdOf, Without, Put;
    match e
    case Register(name) => PutIds(s.contexts, name, s.registered, id);
    case Run(t, ok) =>
      HasIdIn(s.contexts, id);
      var at := s.tasks[t];
      assert WorkOk(s, at);
      if (at.Close? || at.Reconnect? || at.ClosingServer?) && HasContext(s.contexts, at.name) {
        WithoutIds(s.contexts, at.name);
        var told := IdOf(s.contexts, at.name);
        assert Context(at.name, told) in s.contexts;
      } else if at.Cleanup? {
        CopyIsOk(s);
      }
  }

  lemma QuietTasks(s: State, e: Event)
    requires Invariant(s) && Quiet(s) && Enabled(s, e) && !Disturbs(s, e)
    ensures var s' := Next(s, e);
      && (forall t :: 0 <= t < |s'.tasks| && s'.tasks[t].CleaningUp? ==> s'.tasks[t].from == s'.registered)
      && (forall t :: 0 <= t < |s'.tasks| && s'.tasks[t].ClosingServer? ==>
            forall c :: c in s'.contexts && c.name == s'.tasks[t].name ==> c.id == s'.tasks[t].told)
  {
    hide HasId, DistinctContexts, HasContext, IdOf, Without, WorkOk, Put;
    if e.Run? {
      var at := s.tasks[e.task];
      if at.Close? && HasContext(s.contexts, at.name) {
        DistinctOf(s);
        OneEntry(s.contexts, at.name);
      }
      FewerContexts(s, e);
    } else {
      DistinctOf(s);
      PutIs(s.contexts, e.name, s.registered);
    }
  }

  lemma DistinctOf(s: State)
    requires Invariant(s)
    ensures DistinctContexts(s.contexts)
  {
  }

  /** Running a task registers nothing. */
  lemma FewerContexts(s: State, e: Event)
    requires e.Run? && Enabled(s, e)
    ensures Next(s, e).registered == s.registered && forall c :: c in Next(s, e).contexts ==> c in s.contexts
  {
    hide HasContext, IdOf;
  }

  lemma OneEntry(contexts: seq<Context>, name: string)
    requires DistinctContexts(contexts) && HasContext(contexts, name)
    ensures forall c :: c in contexts && c.name == name ==> c.id == IdOf(contexts, name)
  {
    var id := IdOf(contexts, name);
    var i :| 0 <= i < |contexts| && contexts[i] == Context(name, id);
    forall c | c in contexts && c.name == name
      ensures c.id == id
    {
      var j :| 0 <= j < |contexts| && contexts[j] == c;
    }
  }

  /** If no load finishes while a cleanup or the close of its server is awaited, or where its server
      has a session, no session is ever lost, whatever else overlaps, fails or is cancelled. */
  lemma {:induction false} QuietRunsLoseNothing(tasks: seq<Work>, events: seq<Event>, s: State)
    requires Fresh(tasks) && Reachable(tasks, events, s, true)
    ensures Quiet(s) && forall id: nat :: !Lost(s, id)
    decreases |events|
  {
    hide Quiet, Invariant, Disturbs;
    if events == [] {
      InitialIsOk(tasks);
    } else {
      var before :| Follows(tasks, events, before, s, true);
      ReachableInvariant(tasks, events[..|events| - 1], before, true);
      QuietRunsLoseNothing(tasks, events[..|events| - 1], before);
      QuietStep(before, events[|events| - 1]);
    }
    QuietLosesNothing(s);
  }

  lemma QuietLosesNothing(s: State)
    requires Quiet(s)
    ensures forall id: nat :: !Lost(s, id)
  {
  }

  // ---------------------------------------------------------------- one cleanup

  /** The events lead from one state to another; all are loads that finish or stretches of one task. */
  ghost predicate Leads(s: State, events: seq<Event>, s': State, t: nat)
    decreases |events|
  {
    if |events| == 0 then s' == s else exists mid :: OneMore(s, events, mid, s', t)
  }

  ghost predicate OneMore(s: State, events: seq<Event>, mid: State, s': State, t: nat)
    requires |events| > 0
    decreases |events|, 0
  {
    var last := events[|events| - 1];
    && Leads(s, events[..|events| - 1], mid, t) && Enabled(mid, last) && s' == Next(mid, last)
    && (last.Run? ==> last == Run(t, true))
  }

  /** How far a cleanup is that copied the entries of the first `from` sessions. */
  ghost predicate Progress(s: State, t: nat, from: nat) {
    && t < |s.tasks| && from <= s.registered
    && match s.tasks[t]
       case CleaningUp(copied, todo) =>
         && copied == from
         && (forall id: nat :: id < from ==> id in s.toldToClose || id in todo)
         && (forall i :: 0 <= i < |todo| ==> todo[i] < from)
         && (forall id :: id in s.toldToClose ==> id < from)
       case Done => forall id: nat :: id in s.toldToClose <==> id < from
       case _ => false
  }

  lemma {:induction false} ProgressGoesOn(s: State, events: seq<Event>, s': State, t: nat, from: nat)
    requires Progress(s, t, from) && Leads(s, events, s', t)
    ensures Progress(s', t, from)
    decreases |events|
  {
    hide HasContext, IdOf, Without;
    if events != [] {
      var mid :| OneMore(s, events, mid, s', t);
      ProgressGoesOn(s, events[..|events| - 1], mid, t, from);
    }
  }

  /** A cleanup between whose copy and clear only loads finish: at its end a session was not told to
      close if and only if it was registered after the copy. */
  lemma CleanupTellsIff(s: State, t: nat, events: seq<Event>, s': State)
    requires Invariant(s) && t < |s.tasks| && s.tasks[t] == Cleanup
    requires forall id: nat :: id < s.registered ==> id in s.toldToClose || HasId(s.contexts, id)
    requires Leads(Next(s, Run(t, true)), events, s', t) && t < |s'.tasks| && s'.tasks[t] == Done
    ensures forall id: nat :: id !in s'.toldToClose <==> id >= s.registered
  {
    hide HasContext, IdOf, Without;
    CopyIsOk(s);
    forall id: nat | HasId(s.contexts, id)
      ensures id in Ids(s.contexts)
    {
      HasIdIn(s.contexts, id);
    }
    ProgressGoesOn(Next(s, Run(t, true)), events, s', t, s.registered);
  }

  // ---------------------------------------------------------------- runs that lose a session

  lemma ReachStep(tasks: seq<Work>, events: seq<Event>, s: State, e: Event)
    requires Reachable(tasks, events, s, false) && Enabled(s, e)
    ensures Reachable(tasks, events + [e], Next(s, e), false)
  {
    assert (events + [e])[..|events|] == events;
    assert Follows(tasks, events + [e], s, Next(s, e), false);
  }

  /** A load that finishes while a cleanup awaits a close: its session stays open for good. */
  lemma CleanupForgetsALoad() returns (events: seq<Event>, s: State)
    ensures Reachable([Cleanup], events, s, false) && s.tasks == [Done] && Lost(s, 1)
  {
    var tasks := [Cleanup];
    events := [] + [Register("web")] + [Run(0, true)] + [Register("files")] + [Run(0, true)];
    var s0 := Initial(tasks);
    var s1 := Next(s0, Register("web"));
    assert s1.contexts == [Context("web", 0)];
    assert Ids(s1.contexts) == [0] && Ids(s1.contexts)[1..] == [];
    var s2 := Next(s1, Run(0, true));
    assert s2.tasks == [CleaningUp(1, [])] && s2.contexts == [Context("web", 0)];
    var s3 := Next(s2, Register("files"));
    s := Next(s3, Run(0, true));
    ReachStep(tasks, [], s0, Register("web"));
    ReachStep(tasks, [] + [Register("web")], s1, Run(0, true));
    ReachStep(tasks, [] + [Register("web")] + [Run(0, true)], s2, Register("files"));
    ReachStep(tasks, [] + [Register("web")] + [Run(0, true)] + [Register("files")], s3, Run(0, true));
  }

  const WEB: seq<Context> := [Context("web", 0)]
  const NEW_WEB: seq<Context> := [Context("web", 1)]

  lemma OverlapSteps()
    ensures Next(Initial([]), Register("web")) == State(WEB, 1, {}, [])
    ensures Next(State(WEB, 1, {}, []), Register("web")) == State(NEW_WEB, 2, {}, [])
  {
    assert WEB[1..] == [] && [Context("web", 1)] + WEB[1..] == NEW_WEB;
  }

  /** Two loads of one server that overlap: nobody can close the session of the first. */
  lemma SecondLoadForgetsTheFirst() returns (events: seq<Event>, s: State)
    ensures Reachable([], events, s, false) && s.tasks == [] && Lost(s, 0)
  {
    hide Next, Reachable;
    OverlapSteps();
    NothingYet([]);
    s := State(NEW_WEB, 2, {}, []);
    ReachStep([], [], Initial([]), Register("web"));
    events := [] + [Register("web")];
    ReachStep([], events, State(WEB, 1, {}, []), Register("web"));
    events := events + [Register("web")];
  }

  lemma RemovalSteps()
    ensures Next(Initial([Cleanup, Close("web")]), Register("web")) == State(WEB, 1, {}, [Cleanup, Close("web")])
    ensures var s := State(WEB, 1, {}, [Cleanup, Close("web")]);
            Enabled(s, Run(1, true)) && Next(s, Run(1, true)) == State(WEB, 1, {0}, [Cleanup, ClosingServer("web", 0)])
    ensures var s := State(WEB, 1, {0}, [Cleanup, ClosingServer("web", 0)]);
      Enabled(s, Run(0, true))
        && Next(s, Run(0, true)) == State(WEB, 1, {0}, [CleaningUp(1, []), ClosingServer("web", 0)])
  {
    assert WEB[0].name == "web" && HasContext(WEB, "web");
    assert Ids(WEB) == [0] && Ids(WEB)[1..] == [];
  }

  lemma MoreRemovalSteps()
    ensures var s := State(WEB, 1, {0}, [CleaningUp(1, []), ClosingServer("web", 0)]);
            Enabled(s, Run(0, true)) && Next(s, Run(0, true)) == State([], 1, {0}, [Done, ClosingServer("web", 0)])
    ensures var s := State([], 1, {0}, [Done, ClosingServer("web", 0)]);
            Next(s, Register("web")) == State(NEW_WEB, 2, {0}, [Done, ClosingServer("web", 0)])
    ensures var s := State(NEW_WEB, 2, {0}, [Done, ClosingServer("web", 0)]);
            Enabled(s, Run(1, true)) && Next(s, Run(1, true)) == State([], 2, {0}, [Done, Done])
  {
    assert NEW_WEB[0].name == "web" && HasContext(NEW_WEB, "web") && NEW_WEB[1..] == [];
    assert Without(NEW_WEB[1..], "web") == [] && Without(NEW_WEB, "web") == [];
  }

  /** A server is removed while a cleanup runs, and loads again before the removal goes on: the
      removal deletes the entry of the new session. */
  lemma RemovalForgetsALoad() returns (events: seq<Event>, s: State)
    ensures Reachable([Cleanup, Close("web")], events, s, false) && s.tasks == [Done, Done] && Lost(s, 1)
  {
    hide Next, Reachable;
    var tasks, load := [Cleanup, Close("web")], Register("web");
    RemovalSteps();
    MoreRemovalSteps();
    var s0 := Initial(tasks);
    NothingYet(tasks);
    var s1, s2 := Next(s0, load), State(WEB, 1, {0}, [Cleanup, ClosingServer("web", 0)]);
    var s3 := State(WEB, 1, {0}, [CleaningUp(1, []), ClosingServer("web", 0)]);
    var s4 := State([], 1, {0}, [Done, ClosingServer("web", 0)]);
    var s5 := State(NEW_WEB, 2, {0}, [Done, ClosingServer("web", 0)]);
    s := State([], 2, {0}, [Done, Done]);
    ReachStep(tasks, [], s0, load);
    events := [] + [load];
    ReachStep(tasks, events, s1, Run(1, true));
    events := events + [Run(1, true)];
    ReachStep(tasks, events, s2, Run(0, true));
    events := events + [Run(0, true)];
    ReachStep(tasks, events, s3, Run(0, true));
    events := events + [Run(0, true)];
    ReachStep(tasks, events, s4, load);
    events := events + [load];
    ReachStep(tasks, events, s5, Run(1, true));
    events := events + [Run(1, true)];
  }

  lemma NothingYet(tasks: seq<Work>)
    ensures Reachable(tasks, [], Initial(tasks), false) && Enabled(Initial(tasks), Register("web"))
  {
  }
}

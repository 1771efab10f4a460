/** app/ai/deferred_tool_state.py: keys, bindings and references, said on the arguments themselves. */
module ToolFields {
  import opened Options
  import opened PythonText
  import opened Picks
  import opened ToolScope
  import opened ToolRegistry

  /** Not given, or given empty. */
  predicate Missing(s: Option<string>) {
    s in {None, Some("")}
  }

  /** The argument, or a default where it is missing. */
  predicate IsOr(value: string, s: Option<string>, default: string) {
    if Missing(s) then value == default else s == Some(value)
  }

  // ---------------------------------------------------------------- keys

  /** Server tools are kept under conversation and agent, and under nothing without a conversation. */
  lemma ServerKeysAre(conversation: Option<string>, agent: Option<string>)
    ensures var key := KeyFor(conversation, agent);
      if Missing(conversation) then key == None
      else key.Some? && conversation == Some(key.value.conversation) && IsOr(key.value.agent, agent, "default")
  {
  }

  /** The session device tools are loaded under: the caller's, else the first a reference names, else
      the one that is active. */
  predicate IsLoadSession(value: string, session: Option<string>, refs: seq<ClientReference>, active: Option<string>) {
    if !Missing(session) then session == Some(value)
    else if exists i :: 0 <= i < |refs| && refs[i].sessionId != "" then
      exists i ::
        && 0 <= i < |refs| && value == refs[i].sessionId != ""
        && forall j :: 0 <= j < i ==> refs[j].sessionId == ""
    else IsOr(value, active, "")
  }

  lemma {:induction false} FirstSessionIs(refs: seq<ClientReference>)
    ensures FirstSession(refs).Some? <==> exists i :: 0 <= i < |refs| && refs[i].sessionId != ""
    ensures FirstSession(refs).Some? ==>
      exists i :: 0 <= i < |refs| && FirstSession(refs) == Some(refs[i].sessionId) && refs[i].sessionId != ""
               && forall j :: 0 <= j < i ==> refs[j].sessionId == ""
  {
    if refs != [] && refs[0].sessionId == "" {
      var rest := refs[1..];
      FirstSessionIs(rest);
      if FirstSession(rest).Some? {
        var i :| 0 <= i < |rest| && FirstSession(rest) == Some(rest[i].sessionId) && rest[i].sessionId != ""
              && forall j :: 0 <= j < i ==> rest[j].sessionId == "";
        assert refs[i + 1] == rest[i] && forall j :: 0 < j <= i ==> refs[j] == rest[j - 1];
      } else {
        assert forall i :: 0 < i < |refs| ==> refs[i] == rest[i - 1];
      }
    }
  }

  /** Device tools are loaded under conversation, agent, device and that session. */
  lemma LoadKeysAre(conversation: Option<string>, agent: Option<string>, device: Option<string>,
                    session: Option<string>, refs: seq<ClientReference>, active: Option<string>)
    ensures var key := AutoloadKey(conversation, agent, device, session, refs, active);
      if Missing(conversation) || Missing(device) then key == None
      else
        && key.Some? && conversation == Some(key.value.conversation) && IsOr(key.value.agent, agent, "default")
        && device == Some(key.value.device) && IsLoadSession(key.value.session, session, refs, active)
  {
    FirstSessionIs(refs);
  }

  /** They are read under the caller's session or the active one, and by nobody without a
      conversation, a device or a session. */
  lemma ReadKeysAre(conversation: Option<string>, agent: Option<string>, device: Option<string>,
                    session: Option<string>, active: Option<string>)
    ensures var key := ReadKey(conversation, agent, device, session, active);
      if Missing(conversation) || Missing(device) || (Missing(session) && Missing(active)) then key == None
      else
        && key.Some? && conversation == Some(key.value.conversation) && IsOr(key.value.agent, agent, "default")
        && device == Some(key.value.device)
        && Some(key.value.session) == (if Missing(session) then active else session)
  {
  }

  /** Clearing is for the keys of a conversation, and of one agent of it if one is named. */
  lemma ClearedKeysAre(conversation: string, agent: Option<string>, key: ServerKey, clientKey: ClientKey)
    ensures ServerKeysOf(conversation, agent)(key)
      <==> key.conversation == conversation && (Missing(agent) || agent == Some(key.agent))
    ensures ClientKeysOf(conversation, agent)(clientKey)
      <==> clientKey.conversation == conversation && (Missing(agent) || agent == Some(clientKey.agent))
  {
  }

  /** The cap on the number of pools is the one configured, and never less than one. */
  lemma CapIs(cfg: Settings)
    ensures MaxScopes(cfg) >= 1 && MaxScopes(cfg) >= cfg.maxScopes && MaxScopes(cfg) in {1, cfg.maxScopes}
  {
  }

  // ---------------------------------------------------------------- bindings

  /** A server tool is stale once the generation is another one; a device tool only when both catalog
      versions are known and differ. */
  lemma StaleMeans(generation: int, b: ServerBinding, version: int, c: ClientBinding)
    ensures ServerStale(generation)(b) <==> b.generation != generation
    ensures ClientStale(version)(c) <==> version >= 1 && c.catalogVersion >= 1 && c.catalogVersion != version
  {
  }

  /** A server tool is loaded under its call name, or its own name when it has none. */
  lemma ServerItemsAre(refs: seq<ToolReference>, generation: int, i: nat)
    requires i < |refs|
    ensures var item, ref := ServerItems(refs, generation)[i], refs[i];
      && IsOr(item.key, ref.callName, ref.toolName)
      && item.binding.toolName == ref.toolName && item.binding.serverName == ref.serverName
      && item.binding.generation == generation
  {
  }

  /** A device tool is loaded under its own name, for the device it names or the caller's, with the
      catalog version it names or the current one. */
  lemma ClientItemsAre(refs: seq<ClientReference>, device: string, version: int, i: nat)
    requires i < |refs|
    ensures var item, ref := ClientItems(refs, device, version)[i], refs[i];
      && item.key == ref.toolName && item.binding.serverName == ref.serverName
      && item.binding.deviceId == (if ref.deviceId == "" then device else ref.deviceId)
      && item.binding.catalogVersion == (match ref.catalogVersion case Some(v) => v case None => version)
      && item.binding.toolInstanceId == ref.toolInstanceId
  {
  }

  lemma {:induction false} TakenArePicked<T>(refs: seq<T>, oks: seq<bool>) returns (at: seq<nat>)
    requires |oks| == |refs|
    ensures IsPick(Taken(refs, oks), refs, at)
    ensures forall i: nat :: i < |refs| ==> (i in at <==> oks[i])
  {
    hide IsPick;
    if refs == [] {
      at := [];
      assert IsPick<T>([], [], []) by {
        NothingPicked<T>();
      }
    } else {
      var n := |refs| - 1;
      var before := TakenArePicked(refs[..n], oks[..n]);
      PickOneMore(Taken(refs[..n], oks[..n]), refs, before, n);
      at := if oks[n] then before + [n] else before;
      assert Taken(refs[..n], oks[..n]) + [] == Taken(refs[..n], oks[..n]);
      assert forall i: nat :: i < n ==> oks[..n][i] == oks[i];
    }
  }

  lemma NothingPicked<T>()
    ensures IsPick<T>([], [], [])
  {
  }

  // ---------------------------------------------------------------- what a snapshot is restored to

  /** An entry that names a tool and a server and, in the same process, has the current generation. */
  predicate IsRestored(e: ServerEntry, sameRuntime: bool, generation: int) {
    Strip(e.toolName) != "" && Strip(e.serverName) != "" && (sameRuntime ==> e.generation == generation)
  }

  /** An entry that names a tool and a server, of this device, of this session as far as both are
      known, and of the current catalog as far as both are known. */
  predicate IsClientRestored(e: ClientEntry, device: string, session: Option<string>, version: int) {
    && Strip(e.toolName) != "" && Strip(e.serverName) != ""
    && Strip(if e.deviceId == "" then device else e.deviceId) == device
    && (Missing(session) || Strip(e.sessionId) == "" || session == Some(Strip(e.sessionId)))
    && (version <= 0 || e.catalogVersion <= 0 || e.catalogVersion == version)
  }

  predicate RestoredAs(e: ServerEntry, ref: ToolReference) {
    && ref.toolName == Strip(e.toolName) && ref.serverName == Strip(e.serverName)
    && ref.callName == (if e.callName == "" then None else Some(Strip(e.callName)))
  }

  predicate ClientRestoredAs(e: ClientEntry, ref: ClientReference, device: string, session: Option<string>) {
    && ref.toolName == Strip(e.toolName) && ref.serverName == Strip(e.serverName) && ref.deviceId == device
    && (if Strip(e.sessionId) == "" then IsOr(ref.sessionId, session, "") else ref.sessionId == Strip(e.sessionId))
    && ref.catalogVersion == Some(e.catalogVersion) && ref.toolInstanceId == e.toolInstanceId
  }

  /** The references a restore loads are those of the entries it accepts, in order, without the blanks
      around their names. */
  lemma {:induction false} ServerReferencesAre(entries: seq<ServerEntry>, sameRuntime: bool, generation: int)
      returns (at: seq<nat>)
    ensures IsImage(RestorableServer(entries, sameRuntime, generation), entries, at,
                    e => IsRestored(e, sameRuntime, generation), RestoredAs)
  {
    hide Strip, IsImage, IsRestored, RestoredAs;
    var keep := e => IsRestored(e, sameRuntime, generation);
    if entries == [] {
      at := [];
      NoImage(keep, RestoredAs);
    } else {
      var n := |entries| - 1;
      var before := ServerReferencesAre(entries[..n], sameRuntime, generation);
      var more := OneRestored(entries, sameRuntime, generation);
      at := ImageOneMore(RestorableServer(entries[..n], sameRuntime, generation), entries, before, keep, RestoredAs,
                         more);
    }
  }

  lemma OneRestored(entries: seq<ServerEntry>, sameRuntime: bool, generation: int) returns (more: seq<ToolReference>)
    requires entries != []
    ensures var n := |entries| - 1;
      && RestorableServer(entries, sameRuntime, generation)
         == RestorableServer(entries[..n], sameRuntime, generation) + more
      && (if IsRestored(entries[n], sameRuntime, generation) then |more| == 1 && RestoredAs(entries[n], more[0])
          else more == [])
  {
    hide Strip;
    var n := |entries| - 1;
    more := RestorableServer(entries, sameRuntime,
                             generation)[|RestorableServer(entries[..n], sameRuntime, generation)|..];
  }

  lemma {:induction false} ClientReferencesAre(entries: seq<ClientEntry>, device: string, session: Option<string>,
                                               version: int) returns (at: seq<nat>)
    ensures IsImage(RestorableClient(entries, device, session, version), entries, at,
                    e => IsClientRestored(e, device, session, version),
                    (e, ref) => ClientRestoredAs(e, ref, device, session))
  {
    hide Strip, IsImage, IsClientRestored, ClientRestoredAs;
    var keep := e => IsClientRestored(e, device, session, version);
    var becomes := (e, ref) => ClientRestoredAs(e, ref, device, session);
    if entries == [] {
      at := [];
      NoImage(keep, becomes);
    } else {
      var n := |entries| - 1;
      var before := ClientReferencesAre(entries[..n], device, session, version);
      var more := OneClientRestored(entries, device, session, version);
      at := ImageOneMore(RestorableClient(entries[..n], device, session, version), entries, before, keep, becomes,
                         more);
    }
  }

  lemma OneClientRestored(entries: seq<ClientEntry>, device: string, session: Option<string>, version: int)
      returns (more: seq<ClientReference>)
    requires entries != []
    ensures var n := |entries| - 1;
      && RestorableClient(entries, device, session, version)
         == RestorableClient(entries[..n], device, session, version) + more
      && (if IsClientRestored(entries[n], device, session, version)
          then |more| == 1 && ClientRestoredAs(entries[n], more[0], device, session)
          else more == [])
  {
    hide Strip;
    var n := |entries| - 1;
    var before := RestorableClient(entries[..n], device, session, version);
    more := RestorableClient(entries, device, session, version)[|before|..];
  }
}

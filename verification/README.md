# Verification model of the agent runtime's state machines

This project models the parts of the repository that keep state between requests or do exact arithmetic on what they
send, and proves what callers rely on. Five groups of modules, which do not depend on one another:

- **Deferred tools** (`app/ai/deferred_tool_state.py`). A process-wide registry of loaded tools: two tables of pools,
  each pool an LRU map with idle expiry, a staleness stamp and a capacity; above them a rate-limited sweep, a cap on the
  number of pools, and snapshot and restore. `ToolScope` has the pool as a class, `DeferredToolState` the registry as a
  class over tables of pool objects, and every method is proved against a function of the registry's value
  (`ToolScope`, `ToolRegistry`). The rest are theorems about those functions: a pool is a bounded move-to-front list
  (`LruRefinement`, `LruAutoload`, `LruWindow`); over every run of the registry the tables and pools stay bounded and no
  call fills a pool that has left its table (`ToolRegistryRuns`, `ToolPools`); every call is one step on each table
  (`ToolTables`, `ToolSteps`), so tools stay with the key they were loaded under (`ToolIsolation`) and go only for one
  of a few causes (`ToolLosses`), idle ones among them by the second (`ToolExpiry`); and snapshot and restore are
  inverse exactly when they can be (`ToolSnapshot`, `ToolRestoreTwice`). `ToolFields` says keys, bindings and references
  on the arguments themselves.
- **MCP registry and sessions** (`app/ai/mcp_registry.py`, `app/ai/mcp_integration.py`). `McpRegistry` has every
  interleaving of concurrent `get_manager_async` and `reload_config` calls over one non-reentrant lock, `McpSessions`
  the handshake between the caller that opens a session and the owner that holds it, `McpSessionBook` every interleaving
  of loads with cleaning up, removing and reconnecting, and which sessions they forget, `McpToolIndex` the tool index
  kept by object identity.
- **Result capping** (`shared/runtime_results.py`). `RuntimeResults` has the cap of a tool result by its size as sent,
  with the ASCII-only string escaping of section 7 of RFC 8259 (`Json`), and `JsonRead` reads what is sent back again.
  `RuntimeBlocks` says what the cap does on the fields of the blocks.
- **Focused retrieval and stream watching** (`app/ai/focused_tool_result.py`,
  `scripts/verify_answer_streaming_contract.py`). `FocusedChunks`, `FocusedWalk`, `FocusedScore` and `FocusedResult` have
  the chunker, the stack walk, the longest-run search, the choice of distinct passages and the trimming to a budget;
  `StreamWatch` the incremental line watcher, the answer reducer and the analysis of a recorded stream. What the walk
  finds in a document, the JSON text behind the size, and what a frame is taken for are said independently of them in
  `FocusedEvidence`, `FocusedText` and `StreamFrames`.
- **Compaction and client tool names** (`app/ai/conversation_compactor.py`, `app/ai/history.py`,
  `app/ai/client_runtime_tools.py`). `Compaction` groups a transcript into turns and selects what is compacted,
  `CompactionMemory` has the life of a conversation's memory under overlapping jobs, appends, edits and deletes,
  `ClientToolNames` the naming of device tools, and `ClientCatalog` what each tool says of its catalog entry.

`PythonText` holds the text operations of Python the other modules share, `Options` the value that may be missing,
`FiniteSets` a counting lemma, `Picks` elements picked from a sequence.

Where the source changes state step by step, so does the model: classes with their fields, loops with invariants, and a
method's `ensures` names the new state. Concurrency is a transition system over the awaits. The clock is the sequence of
its readings, each taken in the order the source takes it. Some theorems need a clock that never goes back, some in
addition one that never stalls (no reading from number 7 on, counted from 0, equals the second one after it), and each
says which.
Dicts are sequences in insertion order, because `min` breaks ties by it.

## What turned out not to hold

For each of these it is proved exactly when the property holds, and an input or a run is given for which it fails:

- A `ValueError` while the tools of an opened session load leaves the session open with nobody to close it
  (`SessionLeaksOnlyOnValueError`, `ValueErrorLeavesSessionOpen`).
- The token bound on a compaction prefix takes any assistant message for the end of a turn, so it can part a tool call
  from its result, which the grouping above it is there to prevent: it never does, for any limit, if and only if no
  answer in the selected prefix that calls tools is followed by anything but a question (`BoundKeepsGroupsIff`,
  `BoundCanPartToolCall`). Stored messages carry no tool calls, so the worker's own compactions are always whole
  (`StoredMessagesStayWhole`); only a caller that passes `tool_calls` itself can reach the failure.
- The guard of the memory write compares cursor and version, and neither changes when a row past the cursor is edited:
  a job that read the row before can store a summary of the old text. An accepted write is stale if and only if an edit
  or a delete since the job began changed one of the rows it summarises and none changed it back (`WriteIsCompleteIff`,
  `StaleIffChanged`, `EditBehindCursorGoesStale`).
- A pool evicts its least recently used tool in every run, if and only if the clock never stalls. A reading that comes
  twice is harmless; the same reading at a stamp and two readings later can evict the tool that was just used
  (`RefinesIff`, `StallEvictsTheUsed`).
- An autoload is documented to return the references that were actually loaded, but also returns those that a later one
  of the same call evicted (`AutoloadLeaves`, `OneTooMany`).
- A text budget too small for even the empty text is exceeded (`TextBudgetHolds`, `OneByteIsExceeded`).
- A snapshot gives back different tools when a name has blanks around it (`ServerRoundTrip`, `ClientRoundTrip`,
  `BlankAtTheEnd`).
- The registry records the mtime the config file has when a rebuild completes, not the one it had when it was read: a
  change in between counts as loaded (`RecordedIsReadIff`, `ChangeIsMissed`).
- Tools stored for a server leave the index exact if and only if the server had none before; else the old ones stay in
  it, where no server has them (`IndexServerTools`, `StoredIsExactIff`). Two overlapping `get_server_tools` calls for
  one server do that (`StoredOverStays`), and the session of the first is forgotten (`SecondLoadForgetsTheFirst`).
- Cleaning up is meant to close all sessions. In every interleaving it is known exactly which step takes the last hold of
  which session (`LosesIff`): after a cleanup with only loads in between, a session was not told to close if and only if
  it was registered after the copy (`CleanupTellsIff`). Runs that leave one open for good are given for a cleanup and
  for the removal of a server (`CleanupForgetsALoad`, `RemovalForgetsALoad`).
- Two sidecars are said never to evict each other's tools. A load for one changes the other's pool if and only if its own
  pool is new, the table is full, and the other's is the first of the least recently active and not empty
  (`OthersKeepToolsIff`, `OneDeviceEvictsAnother`).

## Model

| member | source | states |
|---|---|---|
| ToolScope.ToolPool.EvictLru | app/ai/deferred_tool_state.py:370-374 | Removes the first, in insertion order, of the tools with the least `last_used`; does nothing only to an empty pool. |
| ToolScope.ToolPool.Add | app/ai/deferred_tool_state.py:297-347 | The whole new pool, the answer and the number of clock readings: an existing key is rebound and touched in place, a new one is put at the end after as many evictions as it takes, or refused when the capacity is not positive. |
| ToolScope.ToolPool.Get | app/ai/deferred_tool_state.py:349-354 | Touches the pool always and the tool only when it is there, and returns its binding. |
| ToolScope.ToolPool.Cleanup | app/ai/deferred_tool_state.py:356-368 | Keeps, in order, exactly the entries that are neither idle at their own clock reading nor stale. |
| ToolScope.ToolPool.Abandoned | app/ai/deferred_tool_state.py:188-195 | True exactly for an empty pool that nobody touched within the TTL, or any empty one without a TTL. |
| LruRefinement.NewestIsFirst | app/ai/deferred_tool_state.py:370-374 | The most recently used tool is the last to be evicted, wherever it stands; tools that stand before it may have the same stamp. |
| LruRefinement.EvictionCutsTheEnd | app/ai/deferred_tool_state.py:322-334 | Making room evicts from the end of the recency order and nothing else. |
| LruRefinement.RecencyKeeps | app/ai/deferred_tool_state.py:356-368 | Taking any tools out leaves the eviction order of the others alone. |
| LruRefinement.CleanedMeans | app/ai/deferred_tool_state.py:251-268 | A key survives a cleanup if and only if its entry was neither idle nor stale; no key appears. |
| ToolExpiry.KeptByTime | app/ai/deferred_tool_state.py:72-79 | What a cleanup keeps, place by place: with a TTL the entries that are not stale and whose last use is at most sixty times the TTL seconds before their own clock reading, without one those that are not stale. |
| ToolExpiry.AbandonedByTime | app/ai/deferred_tool_state.py:188-195 | A pool is abandoned if and only if it is empty and, with a TTL, was last touched more than sixty times the TTL seconds ago. |
| ToolExpiry.ReadByTime | app/ai/deferred_tool_state.py:691-743 | A read returns, in order, exactly the tools of the key that are not stale and were used within the TTL. |
| ToolExpiry.IdleIsNotRead | app/ai/deferred_tool_state.py:691-743 | A tool that had been unused for longer than the TTL at any reading so far is not read unless it was used again. |
| ToolExpiry.ReadsReturnNoIdle | app/ai/deferred_tool_state.py:691-743 | Over every run: what is read was used within the TTL of every reading so far, and a server tool has the current generation. |
| LruRefinement.StepRefines | app/ai/deferred_tool_state.py:198-388 | With a clock that neither goes back nor stalls, each of add, get, cleanup and list is one step of a move-to-front list cut at the capacity. |
| LruRefinement.RunRefines | app/ai/deferred_tool_state.py:198-388 | So is any run of them: the pool, read in reverse order of eviction, is that list, keys and bindings. |
| LruRefinement.RefinesIff | app/ai/deferred_tool_state.py:198-388 | For a clock that never goes back, every run of a pool is that of the list if and only if no reading from number 7 on equals the second one after it. |
| LruRefinement.CapacityHolds | app/ai/deferred_tool_state.py:322-334 | Whatever the clock, a pool with a fixed capacity never holds more. |
| LruRefinement.StallEvictsTheUsed | app/ai/deferred_tool_state.py:370-374 | Wherever the clock does stall, from reading 7 on, there is a run in which the tool just used is evicted and an older one stays. |
| LruAutoload.LoadedIff | app/ai/deferred_tool_state.py:600-609 | On the list: a loaded item is still there at the end of the call if and only if fewer different keys followed it than the capacity. |
| LruAutoload.FewReferencesAllLoaded | app/ai/deferred_tool_state.py:600-609 | A call with at most as many different keys as the capacity ends with all of them loaded. |
| LruAutoload.AddedAllRefines | app/ai/deferred_tool_state.py:600-609 | The pool's loading loop is the list's, and it reports every reference as loaded. |
| LruAutoload.AutoloadedIff | app/ai/deferred_tool_state.py:600-609 | The same equivalence on the pool itself. |
| LruWindow.LoadIsWindow | app/ai/deferred_tool_state.py:297-347 | A pool of any capacity shows the front of what an unbounded move-to-front list would hold after the same loads. |
| LruWindow.MovedParts | app/ai/deferred_tool_state.py:297-347 | After loading, the unbounded list is the loaded items, latest first, then what else was there, in its order. |
| LruWindow.LoadingOverTheSame | app/ai/deferred_tool_state.py:297-347 | Loading items into a pool that holds none but them gives the same list, order included, as loading them into an empty pool. |
| LruWindow.TwiceIsOnceIff | app/ai/deferred_tool_state.py:297-347 | Loading the same items again after some tools went gives the same list if and only if none went but of the items. |
| DeferredToolState.DeferredToolState.MaybeSweep | app/ai/deferred_tool_state.py:499-527 | Nothing within a minute of the last sweep; else every pool of both tables is cleaned and the abandoned ones are gone. |
| DeferredToolState.CapRows | app/ai/deferred_tool_state.py:529-559 | Drops the least recently active pools of a table, first in insertion order among equals, down to the cap. |
| DeferredToolState.OpenRow | app/ai/deferred_tool_state.py:592-596 | The pool of a key: the table's own object, or a new one, which is outside the table exactly when the cap dropped it. |
| DeferredToolState.FillRow | app/ai/deferred_tool_state.py:592-609 | Opens, cleans and fills the pool of a key in place; what the table holds afterwards, and which tools were taken. |
| DeferredToolState.SweepRows | app/ai/deferred_tool_state.py:512-524 | Cleans every pool of a table in turn and keeps those that are not abandoned. |
| DeferredToolState.DeferredToolState.Autoload | app/ai/deferred_tool_state.py:565-611 | Sweep, open, cap, clean and load, as one function of the old registry; nothing at all without a conversation. |
| DeferredToolState.DeferredToolState.AutoloadClientTools | app/ai/deferred_tool_state.py:613-685 | The same for device tools, under the key of conversation, agent, device and effective session. |
| DeferredToolState.DeferredToolState.GetLoaded | app/ai/deferred_tool_state.py:691-708 | Cleans and touches the pool of the key and returns what is left, each tool with the call name it is stored under, its own name and its server. |
| DeferredToolState.DeferredToolState.GetLoadedClientTools | app/ai/deferred_tool_state.py:710-743 | Reads the one pool of the resolved device and session; without both, nothing is read or touched. |
| DeferredToolState.DeferredToolState.UseTool | app/ai/deferred_tool_state.py:788-847 | Uses the tool if it is loaded and says what it is bound to; no other pool changes. |
| DeferredToolState.DeferredToolState.TakeSnapshot | app/ai/deferred_tool_state.py:853-920 | Cleans both pools, touches only the device one, and writes down what is left. |
| DeferredToolState.DeferredToolState.Restore | app/ai/deferred_tool_state.py:922-1085 | The server half and then the device half of a restore, and how many tools each took. |
| DeferredToolState.DeferredToolState.ClearConversation | app/ai/deferred_tool_state.py:1091-1138 | Drops the pools of the conversation, or of one of its agents, from both tables and counts them. |
| DeferredToolState.DeferredToolState.ClearAll | app/ai/deferred_tool_state.py:1140-1147 | Empties both tables, counts what was there and restarts the sweep interval. |
| ToolFields.ServerKeysAre | app/ai/deferred_tool_state.py:404-418 | A server key is conversation and agent, or default; there is none without a conversation. |
| ToolFields.LoadKeysAre | app/ai/deferred_tool_state.py:632-650 | Device tools are loaded under conversation, agent, device and session: the caller's, else the first a reference names, else the active one. |
| ToolFields.ReadKeysAre | app/ai/deferred_tool_state.py:710-743 | They are read under the caller's session, else the active one, and by nobody without a conversation, a device or a session. |
| ToolFields.ClearedKeysAre | app/ai/deferred_tool_state.py:1091-1138 | Which keys a conversation, or one of its agents, has. |
| ToolFields.CapIs | app/ai/deferred_tool_state.py:529-559 | The cap is the configured one and never less than one pool. |
| ToolFields.StaleMeans | app/ai/deferred_tool_state.py:117-118 | A server tool is stale once the generation differs; a device tool only when both catalog versions are known and differ. |
| ToolFields.ServerItemsAre | app/ai/deferred_tool_state.py:600-609 | What each reference is stored under and bound to: its call name, or else its name. |
| ToolFields.ClientItemsAre | app/ai/deferred_tool_state.py:666-685 | The same for device tools, with the caller's device and the current catalog version where the reference names none. |
| ToolFields.ServerReferencesAre | app/ai/deferred_tool_state.py:943-970 | A restore loads, in order, exactly the entries that name a tool and a server and are of the current generation in the same process, without the blanks around their names. |
| ToolFields.ClientReferencesAre | app/ai/deferred_tool_state.py:995-1085 | Exactly those of this device, and of this session and catalog as far as both are known. |
| ToolRegistryRuns.CapSparesNewest | app/ai/deferred_tool_state.py:529-559 | The pool that is newest and last in the table is never the cap's victim, not even when others were active at the same instant. |
| ToolRegistryRuns.AutoloadFillsTheTable | app/ai/deferred_tool_state.py:592-611 | With a clock that never goes back, an autoload writes into a pool that is in the table when it returns, and that pool holds what was loaded. |
| ToolRegistryRuns.ClientAutoloadFillsTheTable | app/ai/deferred_tool_state.py:657-685 | The same for device tools. |
| ToolRegistryRuns.StepKeeps | app/ai/deferred_tool_state.py:499-1147 | Every public operation keeps both tables within the cap and every pool's last activity behind the clock. |
| ToolRegistryRuns.TablesStayBounded | app/ai/deferred_tool_state.py:529-559 | Over every run of calls each table has at most `max(1, max_tracked_scopes)` pools. |
| ToolRegistryRuns.ClearIsExact | app/ai/deferred_tool_state.py:1091-1138 | After a clear a pool is there if and only if it was and is not of the cleared conversation (or agent); zero is reported exactly when nothing changed. |
| ToolPools.StepFits | app/ai/deferred_tool_state.py:565-1147 | Every public operation keeps every pool within its capacity, free of double keys and older than the clock, which is what the list refinement needs. |
| ToolPools.PoolsStayBounded | app/ai/deferred_tool_state.py:565-1147 | Over every run, every pool of the registry is such a pool. |
| ToolPools.AutoloadLeaves | app/ai/deferred_tool_state.py:565-611 | After any run: a reference of an autoload is in the table under the caller's key if and only if fewer different tools followed it than a pool holds; few enough references are all loaded; all are reported. |
| ToolPools.ClientAutoloadLeaves | app/ai/deferred_tool_state.py:613-685 | The same for device tools. |
| ToolPools.OneTooMany | app/ai/deferred_tool_state.py:565-611 | With one different reference more than a pool holds, the first is reported as loaded and is not there. |
| ToolSteps.CallsAreSteps | app/ai/deferred_tool_state.py:499-1147 | Every call is, on the table of server tools and on that of device tools, a sweep if one is due and then one of seven operations under at most one key. |
| ToolTables.FilledElsewhere | app/ai/deferred_tool_state.py:529-609 | A load under one key changes the pool of another if and only if its own pool is new, the table is full, and the other is the first of the least recently active and not empty; then that pool is gone. |
| ToolIsolation.StepIsIsolated | app/ai/deferred_tool_state.py:565-1147 | One call: a server tool is under a key afterwards only if it was before and the key is not cleared, or if this call loads it with this binding under this key. |
| ToolIsolation.ClientStepIsIsolated | app/ai/deferred_tool_state.py:613-1147 | The same for device tools. |
| ToolIsolation.RunsAreIsolated | app/ai/deferred_tool_state.py:565-1147 | Over every run: a server tool is under a conversation and agent only if a call loaded it so under exactly these, and it was there after that call and every one since. |
| ToolIsolation.ClientRunsAreIsolated | app/ai/deferred_tool_state.py:613-1147 | The same for device tools, under conversation, agent, device and session. |
| ToolIsolation.ReadsAreIsolated | app/ai/deferred_tool_state.py:710-743 | What a read of device tools returns was loaded under the one key it names and has been there since; without conversation, device or session it returns nothing. |
| ToolIsolation.ServerReadsAreIsolated | app/ai/deferred_tool_state.py:691-708 | The same for server tools; without a conversation it returns nothing. |
| ToolIsolation.NoAnonymousPools | app/ai/deferred_tool_state.py:404-435 | Over every run no key of either table has an empty conversation or agent, and none of device tools an empty device. |
| ToolLosses.AfterLoses | app/ai/deferred_tool_state.py:356-368 | One step takes a tool out of the pool of its key only if it is stale, or idle at a reading of the cleanup that saw it, or its key is dropped, or a load under the key rebound it or left the pool full, or the pool is the victim of the cap. |
| ToolLosses.LossHasCause | app/ai/deferred_tool_state.py:499-1147 | Over every run, on a clock that never goes back: a server tool that was there at some time and is not at the end was taken away by one of the calls since, for one of these causes. |
| ToolLosses.ClientLossHasCause | app/ai/deferred_tool_state.py:499-1147 | The same for device tools. |
| ToolLosses.OthersKeepToolsIff | app/ai/deferred_tool_state.py:613-660 | Loading for one device leaves the pool of another, beyond the sweep, as it was if and only if that is not the victim of the cap or is empty. |
| ToolLosses.OneDeviceEvictsAnother | app/ai/deferred_tool_state.py:625-626 | With a cap of one pool, the second of two loads for two devices of one conversation takes away the tool of the first. |
| ToolSnapshot.ServerRoundTrip | app/ai/deferred_tool_state.py:853-993 | Where the key has no tools, restoring gives back the same keys and bindings in the same order if and only if they fit and no name is blank or has blanks around it; another process re-stamps the generation. |
| ToolSnapshot.ClientRoundTrip | app/ai/deferred_tool_state.py:853-1085 | The same for device tools in the session of the snapshot, with the catalog version and device a restore asks for. |
| ToolSnapshot.BlankAtTheEnd | app/ai/deferred_tool_state.py:943-970 | A tool whose name ends in a blank, loaded by the one call of a run, comes back from the snapshot as another tool. |
| ToolSnapshot.ReloadOutdatesSnapshots | app/ai/deferred_tool_state.py:943-961 | After a change of the generation the process that took a snapshot restores no server tool from it, whatever the key holds: what is there afterwards was there before. |
| ToolRestoreTwice.RecentAfterAutoload | app/ai/deferred_tool_state.py:565-611 | What an autoload leaves, in recency order, depends only on the references and on the tools still there when it starts loading. |
| ToolRestoreTwice.ServerTwiceIff | app/ai/deferred_tool_state.py:922-993 | Any snapshot restored twice, whatever the key holds: the same count, and the same tools, bindings and eviction order if and only if no other tool of the key has expired or gone stale when the second one starts loading; always, where the key had no tools. |
| ToolRestoreTwice.ClientTwiceIff | app/ai/deferred_tool_state.py:995-1085 | The same for device tools. |
| ToolRestoreTwice.RestoresAgree | app/ai/deferred_tool_state.py:922-993 | A restore decides a pool that holds no tools but its own: whatever their order and bindings were, the pool is the same afterwards. |
| McpRegistry.ReachableInvariant | app/ai/mcp_registry.py:121-171 | In every interleaving of the tasks and the environment the lock's holder, the tasks' places and the registry's fields fit together. |
| McpRegistry.ManagersAreReady | app/ai/mcp_registry.py:121-148 | A manager that was returned had finished its first initialisation, and all callers get the same one. |
| McpRegistry.LockIsExclusive | app/ai/mcp_registry.py:121-171 | At most one task holds the lock, and none asks for it while holding it. |
| McpRegistry.ReloadsNeverOutnumberChanges | app/ai/mcp_registry.py:82-108 | Automatic reloads never outnumber advances of the file's modification time. |
| McpRegistry.ChangedFileIsReloaded | app/ai/mcp_registry.py:121-171 | In every interleaving in which the mtime never falls: when a caller with `auto_reload` returns, the recorded mtime is at least the one the file had when the caller started. |
| McpRegistry.PlainCallsNeverReload | app/ai/mcp_registry.py:121-147 | A caller without it never reloads, nor waits to. |
| McpRegistry.ExplicitReloadRebuilds | app/ai/mcp_registry.py:149-171 | In every interleaving an explicit reload, once there is a manager, returns only after a rebuild. |
| McpRegistry.NewManagerIsNew | app/ai/mcp_registry.py:124-140 | The manager that is built is none built before, so its readiness is its own. |
| McpRegistry.GenerationIsSameIff | app/ai/mcp_registry.py:67-171 | Between two moments of a run the generation goes up by one for the first load, two for each reload and one for each server switched; it is the same at both if and only if nothing of that happened. An initialised manager stays the same object. |
| McpRegistry.NoDeadlock | app/ai/mcp_registry.py:121-171 | While a task is unfinished, some task can go on. |
| McpRegistry.SchedulesEnd | app/ai/mcp_registry.py:121-171 | n calls are over after at most 5n of their steps, whatever the environment does. |
| McpRegistry.RecordedIsReadIff | app/ai/mcp_registry.py:103-171 | A completed rebuild has recorded the mtime of the config it read if and only if the mtime did not change between the read and the completion; either way the file counts as unchanged. |
| McpRegistry.ChangeIsMissed | app/ai/mcp_registry.py:121-148 | A run in which a change during the first load is recorded as loaded without being read. |
| McpSessions.SessionLeaksOnlyOnValueError | app/ai/mcp_integration.py:299-366 | However the call ends, cancellation at any await included, a session stays open that nobody will close if and only if loading its tools raised a ValueError. |
| McpSessions.ValueErrorLeavesSessionOpen | app/ai/mcp_integration.py:340-366 | The run in which that happens; nothing can happen in it any more. |
| McpSessions.ExitsAreEarned | app/ai/mcp_integration.py:103-130 | A session is exited at most once, and only after it was entered and told to close. |
| McpSessions.ClosingGoesOn | app/ai/mcp_integration.py:103-130 | Once close is requested the owner can always go on, gets nearer to its end with each step, and nothing sets it back. |
| McpSessions.EveryEnterIsExited | app/ai/mcp_integration.py:103-130 | Where it ends, an entered session has been exited exactly once. |
| McpSessions.EndsAsItFailed | app/ai/mcp_integration.py:299-366 | Over every run: not found is raised only after a ValueError, an empty list returned only after another error, and tools only where nothing failed. |
| McpSessionBook.ReachableInvariant | app/ai/mcp_integration.py:337-640 | In every interleaving of loads, cleanups, removals and reconnects, a server has one entry, and each cleanup has all entries of before its copy told to close or on its list. |
| McpSessionBook.LosesIff | app/ai/mcp_integration.py:337-640 | In every interleaving: a session is lost, with nobody left who will tell it to close, exactly by a load that overwrites its entry, a cleanup that clears it after its copy, a close that deletes it in the place of another, or a cleanup cancelled before its turn. |
| McpSessionBook.QuietRunsLoseNothing | app/ai/mcp_integration.py:460-640 | Without loads that finish while a cleanup or the close of their server is awaited or where there is an entry, no session is ever lost. |
| McpSessionBook.TasksEnd | app/ai/mcp_integration.py:460-640 | Each step of a cleanup, a removal or a reconnect brings it nearer to its end, and it can always go on until then. |
| McpSessionBook.CleanupTellsIff | app/ai/mcp_integration.py:460-468 | A cleanup during which loads finish: at its end a session was not told to close if and only if it was registered after the copy. |
| McpSessionBook.CleanupForgetsALoad | app/ai/mcp_integration.py:462-465 | The run in which a load that finishes during a cleanup leaves its session open for good. |
| McpSessionBook.RemovalForgetsALoad | app/ai/mcp_integration.py:501-503 | The run in which a removal deletes the entry of a session that came in the place of the one it closed. |
| McpSessionBook.SecondLoadForgetsTheFirst | app/ai/mcp_integration.py:337 | The run in which the second of two overlapping loads overwrites the entry of the first. |
| McpToolIndex.MCPManager.IndexServerTools | app/ai/mcp_integration.py:387-395 | Stores a server's tools; the index is exact for all servers afterwards if and only if the server had no tools, and keeps those that were stored over. |
| McpToolIndex.StoredIsExactIff | app/ai/mcp_integration.py:387-395 | The same for any servers and any tools stored. |
| McpToolIndex.StoredOverStays | app/ai/mcp_integration.py:387-395 | Two loads of one server: the tool of the first stays in the index and no server has it. |
| McpToolIndex.MCPManager.RegisterServer | app/ai/mcp_integration.py:337-338 | Registers a new session for the server and stores its tools at the end. |
| McpToolIndex.MCPManager.DropServerTools | app/ai/mcp_integration.py:397-413 | Removes the server and, by identity, its tools from the index and the combined list. |
| McpToolIndex.MCPManager.CloseServer | app/ai/mcp_integration.py:494-537 | What removing and disabling share, when nothing else runs in between: the session is told to close and forgotten, the tools are gone everywhere, nothing else changes. |
| McpToolIndex.MCPManager.GetTools | app/ai/mcp_integration.py:268-297 | Loads the missing enabled servers in order, skipping those that fail; returns the cached list only when nothing was missing and there is one, else the enabled servers' tools in their order. |
| McpToolIndex.MCPManager.Cleanup | app/ai/mcp_integration.py:460-468 | When nothing else runs in between: every session ever registered has been told to close, and nothing is left of sessions, servers, index and combined list. |
| McpToolIndex.MCPManager.ReconnectServer | app/ai/mcp_integration.py:604-640 | When nothing else runs in between: the old session is told to close, the other servers keep theirs, and the old tools are gone everywhere; the new session and tools, if the load worked, are at the end; the combined list is made anew unless the load raised. |
| McpToolIndex.IndexIsExact | app/ai/mcp_integration.py:387-413 | Under a name the index has exactly the tools of that name that some server has, none twice, no empty list. |
| McpToolIndex.DropLeavesOthersAlone | app/ai/mcp_integration.py:397-413 | Dropping a server leaves every other server, and its tools under every name, in their order. |
| RuntimeResults.CutGrowth | shared/runtime_results.py:90-94 | Keeping one character more never makes the sent text smaller, although the omitted count can lose a digit. |
| RuntimeResults.FitText | shared/runtime_results.py:74-87 | The binary search finds the cut a search from the top would find. |
| RuntimeResults.FittedTextIsOptimal | shared/runtime_results.py:74-94 | The whole text when it fits; else a true beginning and end of it around the marker with as many characters as any cut that fits can keep; else nothing. |
| RuntimeResults.FittedTextFits | shared/runtime_results.py:74-87 | The result meets its limit if and only if the limit has room for two quotes. |
| RuntimeResults.CapBlocks | shared/runtime_results.py:45-71 | The loop over the blocks places each once, in order, and joins or cuts the text as the reference function says. |
| RuntimeResults.CapToolResult | shared/runtime_results.py:23-42 | Block lists are capped as blocks, all else as text, with the truncation flag. |
| RuntimeBlocks.BlocksAre | shared/runtime_results.py:120-125 | A block is an object whose type is a string; media is of type image or audio. |
| RuntimeBlocks.DecodedSizeIs | shared/runtime_results.py:109-111 | Three bytes for four characters of its data, rounded down, and none when the data is no string. |
| RuntimeBlocks.NoteSays | shared/runtime_results.py:97-106 | The note for omitted media names its MIME type, or else its kind, and both sizes. |
| RuntimeBlocks.GroupedIs | shared/runtime_results.py:97-106 | A number with commas is its digits with a comma before every third from the end. |
| RuntimeBlocks.OverBudgetIsOneText | shared/runtime_results.py:67-71 | A block list over its text budget becomes one text block and the kept media; its text is the best fit of the texts of all other blocks, a text block as its own string and any other as its JSON, joined by newlines. |
| RuntimeBlocks.TextBlocksAreCapped | shared/runtime_results.py:45-71 | Said on strings: a list of text blocks is left alone within the budget; over it the best fit of their strings, joined, is left. |
| RuntimeBlocks.OtherValuesAreCapped | shared/runtime_results.py:23-42 | Anything else is left alone within the budget; over it the best fit of the string, or of the JSON, is left. |
| JsonRead.QuoteIsRead | shared/runtime_results.py:128-129 | Every text is read back, character for character, from the JSON it is sent as, ASCII-only or not. |
| JsonRead.AsciiOnly | shared/runtime_results.py:128-129 | What is measured is printable ASCII, so its bytes are its characters. |
| JsonRead.DumpsJoins | shared/runtime_results.py:128-129 | The JSON of a list or an object is that of its parts, in order, joined by a comma and a blank. |
| RuntimeResults.PlaceIsGreedy | shared/runtime_results.py:54-64 | A media block is kept if and only if it fits in what the media kept before it left over. |
| RuntimeResults.MediaKeptWholeInOrder | shared/runtime_results.py:45-71 | The media of the result is a subsequence of the media that came in. |
| RuntimeBlocks.MediaArePicked | shared/runtime_results.py:45-71 | Each media block of the result is one of the input, at a place behind that of the one before it. |
| RuntimeResults.MediaBudgetHolds | shared/runtime_results.py:23-71 | The media budget is met if and only if it is not negative; below zero no media is kept. |
| RuntimeResults.TextBudgetHolds | shared/runtime_results.py:23-71 | The text budget is met if and only if nothing has to be cut or it covers the empty text or text block. |
| RuntimeResults.OneByteIsExceeded | shared/runtime_results.py:74-87 | With a budget of one byte a text becomes empty and is sent in two. |
| RuntimeResults.CapIsIdempotent | shared/runtime_results.py:23-42 | The server's second cap with the same budgets changes nothing, and reports a cut only for a budget that cannot be met. |
| FocusedChunks.Cut | app/ai/focused_tool_result.py:490-499 | An oversized block is cut at its last usable space, else at the bound. |
| FocusedChunks.Chunks | app/ai/focused_tool_result.py:468-508 | Kept plus dropped pieces are all pieces of the leaf. |
| FocusedChunks.PiecesAreBounded | app/ai/focused_tool_result.py:468-508 | No piece is empty or over the bound. |
| FocusedChunks.ParagraphsAre | app/ai/focused_tool_result.py:483-484 | The paragraphs are the text cut at its breaks, each a newline, white space and a newline: woven together again they are the text, and none has a break left in it. |
| FocusedChunks.PiecesKeepText | app/ai/focused_tool_result.py:468-508 | Before the ceiling, the pieces hold in order every character that is not white space, of every paragraph that is not too short to count. |
| FocusedChunks.LongParagraphsLoseNothing | app/ai/focused_tool_result.py:468-508 | Where no paragraph is that short, of the whole leaf. |
| FocusedChunks.UnspacedLeafIsWhole | app/ai/focused_tool_result.py:468-508 | Text without spaces is cut into pieces that join to it again. |
| FocusedWalk.WalkJson | app/ai/focused_tool_result.py:394-436 | The stack walk returns exactly the first passages of the recursive walk in the order written, each with its nearest url and title, and counts exactly the others. |
| FocusedWalk.WalkAccountsForAll | app/ai/focused_tool_result.py:394-436 | For every document: returned plus overflow are all pieces of all its leaves, and what is returned are the first of the pieces within the ceiling of their leaf. |
| FocusedEvidence.WalkReturnsWhatLeavesGive | app/ai/focused_tool_result.py:394-460 | From the document alone: the texts returned are the first of the pieces its leaves give, up to sixty a leaf, and with the overflow they are all of them; a string that is no url gives its own pieces, a number or truth value under a name those of the name and its JSON, anything else none. |
| FocusedEvidence.EveryTextIsFound | app/ai/focused_tool_result.py:394-436 | Every piece of every string that is no url is found at its path, under the nearest url and title, unless there are more pieces than are returned. |
| FocusedEvidence.EveryFactIsFound | app/ai/focused_tool_result.py:439-460 | So is every number and truth value that has a name. |
| FocusedEvidence.LeavesOfObject | app/ai/focused_tool_result.py:400-408 | The leaves of an object are those of its fields in order; a string under title, url or source_url is none. |
| FocusedEvidence.OwnLabels | app/ai/focused_tool_result.py:463-465 | An object's own url is what its `url` says without the blanks around it, or else its `source_url`; its title, its `title`. |
| FocusedWalk.NearestUrlIsNearest | app/ai/focused_tool_result.py:400-415 | A passage's url is that of the innermost object around it that has one. |
| FocusedWalk.NearestTitleIsNearest | app/ai/focused_tool_result.py:400-415 | So is its title. |
| FocusedWalk.CandidatesAreBounded | app/ai/focused_tool_result.py:394-436 | Every candidate's text is within the bound. |
| FocusedScore.MatchLength | app/ai/focused_tool_result.py:296-315 | How far the match from one pair of positions goes, and no further. |
| FocusedScore.LongestRun | app/ai/focused_tool_result.py:296-315 | With its position index and early exit, the greatest length at which a slice of the terms occurs in the tokens. |
| FocusedScore.RunsUpToTheLongest | app/ai/focused_tool_result.py:296-315 | A slice of the terms of some length occurs in the tokens if and only if the length is at most the longest. |
| FocusedScore.Score | app/ai/focused_tool_result.py:277-293 | Between zero and one; positive if and only if some term is present; one if and only if all terms occur in a row. |
| FocusedScore.TakeDistinct | app/ai/focused_tool_result.py:318-333 | The greedy choice: a passage is taken if and only if it repeats no better one taken, until the limit. |
| FocusedScore.NearDuplicateIsSymmetric | app/ai/focused_tool_result.py:336-360 | Repeating each other does not depend on the order of comparison. |
| FocusedScore.NearDuplicateMeans | app/ai/focused_tool_result.py:336-360 | Two passages repeat each other if and only if their claims are the same and in the same order, both have words, and nine tenths of one side's words are common. |
| FocusedResult.FocusedResultObject.Bounded | app/ai/focused_tool_result.py:228-256 | The loop's fixed number of turns is never what stops it: it does the whole recursive trimming. |
| FocusedResult.TrimmedFitsOrIsBare | app/ai/focused_tool_result.py:228-256 | The result fits its budget or has neither excerpts nor note left. |
| FocusedText.SizeIsLength | app/ai/focused_tool_result.py:239-241 | The size compared with the budget is the length of the result's JSON text. |
| FocusedText.TrimmedTextFits | app/ai/focused_tool_result.py:228-256 | That text is within the budget or nothing but the envelope is left; a result that fits is not trimmed. |
| FocusedResult.TrimmedKeepsTheBest | app/ai/focused_tool_result.py:228-256 | Excerpts are a prefix of the selection with only the last one shortened, and the note goes after the last excerpt. |
| FocusedResult.TrimmedCountsAll | app/ai/focused_tool_result.py:259-268 | Returned plus omitted is the total. |
| FocusedResult.ShorteningFits | app/ai/focused_tool_result.py:228-256 | A shortened last excerpt makes the result fit at once. |
| FocusedResult.DroppedOnlyWhenTooShort | app/ai/focused_tool_result.py:228-256 | An excerpt is dropped only when what would be left of it is too short to show. |
| FocusedResult.TrimmedIsIdempotent | app/ai/focused_tool_result.py:228-256 | Trimming again changes nothing. |
| StreamWatch.LinesResume | scripts/verify_answer_streaming_contract.py:178-194 | Splitting into lines can be resumed from the unfinished line alone. |
| StreamFrames.DataLinesAre | scripts/verify_answer_streaming_contract.py:69-70 | A data line is the prefix and its payload. |
| StreamFrames.AnswerFramesAre | scripts/verify_answer_streaming_contract.py:158-163 | An answer frame is a text delta, or a preview whose data replaces or appends. |
| StreamFrames.FrameProblemsAre | scripts/verify_answer_streaming_contract.py:105-112 | A heartbeat is reported, and an error, finish or tool output with a key the SDK does not know; nothing else. |
| StreamFrames.SoundFramesAre | scripts/verify_answer_streaming_contract.py:128-155 | The frames the source can look at are objects whose kind, and operation, can be looked up in a set. |
| StreamWatch.FirstAnswerWatch.Feed | scripts/verify_answer_streaming_contract.py:178-194 | One feed: the new unfinished line, whether an answer was seen, and True only for the first. |
| StreamWatch.WatchIgnoresChunking | scripts/verify_answer_streaming_contract.py:166-194 | What the watch knows depends on the text fed, not on how the network split it. |
| StreamWatch.ReportedOnFirstAnswer | scripts/verify_answer_streaming_contract.py:166-194 | A chunk is reported if and only if it completes the first answer line of the stream. |
| StreamWatch.ReportedAtMostOnce | scripts/verify_answer_streaming_contract.py:166-194 | At most one chunk is reported. |
| StreamWatch.AnswerReducer.Apply | scripts/verify_answer_streaming_contract.py:81-97 | One frame's effect on streamed text, preview and authoritative text. |
| StreamWatch.LastReconcileDecides | scripts/verify_answer_streaming_contract.py:73-102 | What is shown is the last reconcile's content, whatever streams after it. |
| StreamWatch.VisibleWithoutReconcile | scripts/verify_answer_streaming_contract.py:73-102 | Without one it is the overlay of the previews, or else the streamed text. |
| StreamWatch.AnalyzeWire | scripts/verify_answer_streaming_contract.py:128-155 | The whole report of a recorded stream: frame count, message id, finish reason, error code and reconciles of its frames, the visible answer, the first answer, and all problems in their order; None if and only if a frame is one the source raises on. |
| StreamWatch.WatchAgreesWithAnalysis | scripts/verify_answer_streaming_contract.py:128-194 | For every split the watch and the analysis agree if and only if the unfinished last line holds no answer the finished lines lack; a stream that ends in a newline always qualifies. |
| Compaction.AtomicHistoryGroups | app/ai/request_budget.py:326-357 | The grouping loop computes the reference grouping. |
| Compaction.GroupsPartition | app/ai/request_budget.py:326-366 | Groups partition the messages in order, none empty, and exactly the finished turns and lone memories are complete. |
| Compaction.BoundaryIff | app/ai/request_budget.py:326-357 | A group ends between two messages if and only if nothing is open before or a question comes next. |
| Compaction.MemoryStandsAlone | app/ai/request_budget.py:333-335 | Where nothing is open, a memory is a complete group by itself. |
| Compaction.ToolCallsStayWithResults | app/ai/request_budget.py:326-357 | A tool call or result is parted from what follows it only by a question. |
| Compaction.SelectCompactablePrefix | app/ai/conversation_compactor.py:208-233 | The prefix ends with a complete group behind which exactly `keep_recent_turns` complete ones follow, or is empty when there are no more than that. |
| Compaction.BoundSelection | app/ai/conversation_compactor.py:415-442 | Prefix and rest still make up the window; the prefix is the bounded one. |
| Compaction.AffordableIsMaximal | app/ai/conversation_compactor.py:415-442 | Every answer-ended beginning up to the bounded prefix is affordable, it ends with an answer, and the next one is not affordable, whatever the token count. |
| Compaction.AnswerEndsGroupIff | app/ai/request_budget.py:326-357 | Behind an answer a group ends if and only if the answer called no tools or a question comes next. |
| Compaction.BoundKeepsGroupsIff | app/ai/conversation_compactor.py:415-442 | For every input limit and every token count the bounded prefix of a selection is whole groups, if and only if no answer in the selected prefix that calls tools is followed by anything but a question. |
| Compaction.StoredMessagesStayWhole | app/workers/conversation_compaction.py:104-116 | A compaction of messages without tool calls, as the worker passes them, never parts a group. |
| Compaction.BoundCanPartToolCall | app/ai/conversation_compactor.py:415-442 | A finished turn that the bound cuts between a tool call and its result. |
| CompactionMemory.Compact | app/ai/conversation_compactor.py:290-404 | Success if and only if triggered, something can be compacted, and the generated memory is not empty and within its budget; then the prefix is an affordable beginning of the messages and its last sequence the new cursor. Each failure is reported exactly under its own condition. |
| CompactionMemory.CursorMoves | app/ai/history.py:149-186 | Moving the cursor to the last of the first n rows behind it moves exactly those rows, and always forward. |
| CompactionMemory.WriteIsCompleteIff | app/repositories/conversation_compaction.py:577-632 | An accepted write keeps memory and prompt complete if and only if the rows it summarised are still the ones behind the cursor. |
| CompactionMemory.CurrentIffStored | app/repositories/conversation_compaction.py:577-632 | The rows an accepted write summarises are the first ones behind the cursor if and only if each of them is still stored as it was read. |
| CompactionMemory.StaleIffChanged | app/repositories/conversation_compaction.py:915-987 | From the events: an accepted write is stale if and only if, since its job began, an edit or a delete changed one of the rows it summarises and no later edit changed that row back. |
| CompactionMemory.SucceedKeeps | app/repositories/conversation_compaction.py:577-632 | An accepted write extends the memory by its rows and advances the cursor; a refused one changes nothing. |
| CompactionMemory.StepKeeps | app/repositories/conversation_compaction.py:577-985 | Every event keeps the memory the rows up to the cursor. |
| CompactionMemory.RunsLoseNothing | app/repositories/message.py:183-237 | Over every run without a stale write, memory followed by the rows past the cursor is the transcript. |
| CompactionMemory.EditFreeRunsAreFresh | app/repositories/conversation_compaction.py:281-335 | Without edits and deletes no write is stale, however many jobs overlap, fail or are superseded. |
| CompactionMemory.EditBehindCursorGoesStale | app/repositories/conversation_compaction.py:915-987 | The run in which an edit behind the cursor goes unnoticed by a job in flight. |
| ClientToolNames.TakenSuffixesAreBounded | app/ai/client_runtime_tools.py:113-117 | A run of taken suffixes is no longer than the taken names are many, so the search ends. |
| ClientToolNames.FirstFreeIsUnique | app/ai/client_runtime_tools.py:113-117 | There is one first free name. |
| ClientToolNames.BuildExposedName | app/ai/client_runtime_tools.py:94-119 | Finds that name and records it; without a server or a known origin it raises and records nothing. |
| ClientToolNames.ParseToolSpecs | app/ai/client_runtime_tools.py:122-166 | The loop over a synced catalog computes the reference list of tools. |
| ClientCatalog.ToolsAreTheEntries | app/ai/client_runtime_tools.py:84-166 | Each entry that has an id, a name, a catalog origin and a server gives one tool, in order, whose every field says what the entry's fields say; no other entry gives one. |
| ClientCatalog.CatalogToolsAre | app/ai/client_runtime_tools.py:122-126 | The entries are the list under `tools`, and none when there is no such list. |
| ClientToolNames.ExposedNamesAreDistinct | app/ai/client_runtime_tools.py:94-166 | Whatever a device syncs, no two names are equal and all carry the client prefix. |
| ClientToolNames.EarlierNamesAreStable | app/ai/client_runtime_tools.py:94-166 | Entries added at the end rename no earlier tool. |
| ClientToolNames.GetExposedClientToolName | app/ai/client_runtime_tools.py:169-193 | The name of the first tool with the id, or none exactly when there is none. |

## Left out

- The locks of the deferred tool registry and the history provider: each locked method is one step.
- Clocks that go back.
- `get_all_loaded_tool_names`, which joins the two reads of the registry; the lookup of a device's active session and catalog version, which are arguments; references that lack attributes.
- ToolScope.ToolPool.Add: the loaded tool's object, which callers of the source may keep and which later adds change in place; here entries are values of the pool object.
- ToolPools.AutoloadLeaves: a caller's own `max_tools` argument, within a run; runs use the configured limit, single calls any.
- DeferredToolState.DeferredToolState.Restore: snapshots that are no dict or hold fields of other types, which the source skips or turns into text.
- McpSessions: cancelling the owner at shutdown and more than one session; each model run is one call and one session, and what becomes of it once it is registered is in McpSessionBook.
- McpToolIndex.MCPManager.GetTools: the awaits between its steps do not interleave with other operations; a manager without a client, which returns nothing; which servers are enabled and how each load ends are arguments.
- McpToolIndex.MCPManager.Cleanup: its awaits, and those of CloseServer and ReconnectServer, do not interleave with other operations; for the sessions McpSessionBook has every interleaving, where tools and index are left out and a load is one step.
- McpRegistry: errors of the file system while the modification time is read; a manager that could make no client reads its configuration once more before it loads.
- RuntimeResults: lone surrogates, which Dafny strings cannot hold; `str()` of a MIME type or field that is no string is approximated by its JSON text.
- FocusedWalk: `json.loads`, the URL pattern and the normalisation of text, which are arguments; the ranking that sorts candidates by score and the fallback for text that is no JSON.
- FocusedScore.Score: floating-point rounding; the score is a real number.
- StreamWatch: parsing JSON, which is an argument; frames whose text fields are no strings, and in the watch a preview whose `operation` is an array or object, for which the source raises.
- Compaction: rows without a sequence, role aliases, and the fixed part of the prompt, which is in the cost function.
- CompactionMemory: the time-limited prompt cache and its invalidation, the limit on the number of rows and trimming the prompt to a token budget, leases and retries of jobs, and the filter that hides rows from prompts.
- ClientToolNames: `sanitize_identifier`, lower-casing and the qualified id, which are arguments; `str()` of a name that is no string is approximated by its JSON text.
- Approval precedence, model construction, prompts, database, Redis, HTTP and WebSocket plumbing: nothing here would be more than a short case split.

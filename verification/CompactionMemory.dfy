/** The life of a conversation's memory. */
module CompactionMemory {
  // The result of app/ai/conversation_compactor.py, the guarded write of
  // app/repositories/conversation_compaction.py and the prompt of app/ai/history.py.
  // Compaction jobs read the rows after the cursor, spend time on a summary and write it back
  // only if cursor and version are still the ones they read. Meanwhile rows are appended, edited
  // and deleted. Memory and prompt together must neither lose nor repeat a row.

  import opened Options
  import opened Compaction

  // ---------------------------------------------------------------- one compaction's result

  /** How the call of the summary model went. */
  datatype Generated =
    | NoCredential
    | GenerationFailed
    | InvalidJson
    | InvalidMemory
    | Memory(empty: bool, tokens: nat)

  datatype Outcome = Success(prefix: seq<Row>, lastSequence: int) | Failure(errorCode: string)

  datatype Limits = Limits(maxInputTokens: Option<nat>, maxSummaryTokens: nat)

  /** Which answer for which case, in the order the source tries them: the first failure that
      applies is the one reported, and only a generated memory within its budget is a success. */
  method Compact(messages: seq<Row>, triggered: bool, keepRecentTurns: nat, cost: seq<Row> -> nat,
                 generated: Generated, limits: Limits) returns (r: Outcome, s: Selection)
    ensures exists selected ::
      && KeepsRecent(messages, keepRecentTurns, selected)
      && s.compactablePrefix == BoundedPrefix(selected.compactablePrefix, limits.maxInputTokens, cost)
    ensures s.fullWindow == messages == s.compactablePrefix + s.retainedRecent
    ensures r.Success? <==>
      && triggered && s.compactablePrefix != []
      && generated.Memory? && !generated.empty && generated.tokens <= limits.maxSummaryTokens
    ensures r.Success? ==>
      && r.prefix == s.compactablePrefix && r.lastSequence == r.prefix[|r.prefix| - 1].sequence
      && 0 < |r.prefix| <= |messages| && r.prefix == messages[..|r.prefix|]
      && (limits.maxInputTokens.Some? ==>
            IsAssistant(r.prefix[|r.prefix| - 1]) && cost(r.prefix) <= limits.maxInputTokens.value)
    ensures r == Failure("not_triggered") <==> !triggered
    ensures r == Failure("compaction_input_over_budget") <==>
      && triggered && s.compactablePrefix == []
      && limits.maxInputTokens.Some? && CompleteCount(Groups(messages)) > keepRecentTurns
    ensures r == Failure("no_complete_turn") <==>
      triggered && s.compactablePrefix == [] && CompleteCount(Groups(messages)) <= keepRecentTurns
    ensures r == Failure("credential_unavailable") <==>
      triggered && s.compactablePrefix != [] && generated.NoCredential?
    ensures r == Failure("generation_failed") <==>
      triggered && s.compactablePrefix != [] && generated.GenerationFailed?
    ensures r == Failure("invalid_json") <==> triggered && s.compactablePrefix != [] && generated.InvalidJson?
    ensures r == Failure("invalid_memory") <==> triggered && s.compactablePrefix != [] && generated.InvalidMemory?
    ensures r == Failure("empty_memory") <==>
      triggered && s.compactablePrefix != [] && generated.Memory? && generated.empty
    ensures r == Failure("memory_over_budget") <==>
      && triggered && s.compactablePrefix != []
      && generated.Memory? && !generated.empty && generated.tokens > limits.maxSummaryTokens
  {
    hide KeepsRecent, IsAssistant, BoundedPrefix, Groups, CompleteCount;
    var selected := SelectCompactablePrefix(messages, keepRecentTurns);
    SelectionParts(messages, keepRecentTurns, selected);
    SelectedIff(messages, keepRecentTurns, selected);
    s := BoundSelection(selected, limits.maxInputTokens, cost);
    BoundedIsAffordable(selected.compactablePrefix, limits.maxInputTokens, cost);
    if !triggered {
      return Failure("not_triggered"), s;
    }
    if s.compactablePrefix == [] {
      var overBudget := limits.maxInputTokens.Some? && selected.compactablePrefix != [];
      return Failure(if overBudget then "compaction_input_over_budget" else "no_complete_turn"), s;
    }
    match generated {
      case NoCredential => r := Failure("credential_unavailable");
      case GenerationFailed => r := Failure("generation_failed");
      case InvalidJson => r := Failure("invalid_json");
      case InvalidMemory => r := Failure("invalid_memory");
      case Memory(empty, tokens) =>
        if empty {
          r := Failure("empty_memory");
        } else if tokens > limits.maxSummaryTokens {
          r := Failure("memory_over_budget");
        } else {
          r := Success(s.compactablePrefix, s.compactablePrefix[|s.compactablePrefix| - 1].sequence);
        }
    }
  }

  /** Anything is selected exactly when there are more complete groups than are kept back. */
  lemma SelectedIff(messages: seq<Row>, keep: nat, s: Selection)
    requires KeepsRecent(messages, keep, s)
    ensures s.compactablePrefix != [] <==> CompleteCount(Groups(messages)) > keep
  {
    hide Groups, GroupIsComplete, GroupOk, Messages, CompleteCount, IsFinalAnswer, IsMemory;
    var groups := Groups(messages);
    if CompleteCount(groups) > keep {
      var g :| 0 <= g < |groups| && groups[g].complete
        && s.compactablePrefix == Messages(groups[..g + 1]) && CompleteCount(groups[g + 1..]) == keep;
      GroupsPartition(messages);
      LastOfComplete(groups, g);
    }
  }

  /** What is left by the bound ends with an answer and can be afforded. */
  lemma BoundedIsAffordable(prefix: seq<Row>, maxInputTokens: Option<nat>, cost: seq<Row> -> nat)
    ensures var bounded := BoundedPrefix(prefix, maxInputTokens, cost);
      && bounded <= prefix && (maxInputTokens.None? ==> bounded == prefix)
      && (maxInputTokens.Some? && bounded != [] ==>
            IsAssistant(bounded[|bounded| - 1]) && cost(bounded) <= maxInputTokens.value)
  {
    hide IsAssistant, Affordable;
    if maxInputTokens.Some? {
      AffordableIsMaximal(prefix, 0, 0, maxInputTokens.value, cost);
    }
  }

  lemma SelectionParts(messages: seq<Row>, keep: nat, s: Selection)
    requires KeepsRecent(messages, keep, s)
    ensures s.fullWindow == messages
    ensures s.compactablePrefix <= s.fullWindow && s.retainedRecent == s.fullWindow[|s.compactablePrefix|..]
  {
  }

  // ---------------------------------------------------------------- rows and cursor

  predicate Increasing(rows: seq<Row>) {
    forall i, j :: 0 <= i < j < |rows| ==> rows[i].sequence < rows[j].sequence
  }

  predicate Covered(row: Row, cursor: Option<int>) {
    cursor.Some? && row.sequence <= cursor.value
  }

  /** Rows with `sequence > cursor`; all rows when there is no cursor. */
  function After(rows: seq<Row>, cursor: Option<int>): seq<Row> {
    if |rows| == 0 then []
    else (if Covered(rows[0], cursor) then [] else [rows[0]]) + After(rows[1..], cursor)
  }

  function UpTo(rows: seq<Row>, cursor: Option<int>): seq<Row> {
    if |rows| == 0 then []
    else (if Covered(rows[0], cursor) then [rows[0]] else []) + UpTo(rows[1..], cursor)
  }

  /** A cursor cuts increasing rows in two. */
  lemma {:induction false} CursorCuts(rows: seq<Row>, cursor: Option<int>)
    requires Increasing(rows)
    ensures rows == UpTo(rows, cursor) + After(rows, cursor)
    ensures forall row :: row in UpTo(rows, cursor) ==> Covered(row, cursor)
    ensures forall row :: row in After(rows, cursor) ==> !Covered(row, cursor)
  {
    hide Increasing, Covered;
    if rows != [] {
      RestIsIncreasing(rows);
      CursorCuts(rows[1..], cursor);
      if !Covered(rows[0], cursor) {
        NoneCovered(rows, cursor);
        NothingCovered(rows, cursor);
      }
    }
  }

  lemma RestIsIncreasing(rows: seq<Row>)
    requires Increasing(rows) && rows != []
    ensures Increasing(rows[1..])
  {
  }

  lemma NoneCovered(rows: seq<Row>, cursor: Option<int>)
    requires Increasing(rows) && rows != [] && !Covered(rows[0], cursor)
    ensures forall i :: 0 <= i < |rows| ==> !Covered(rows[i], cursor)
  {
  }

  lemma {:induction false} NothingCovered(rows: seq<Row>, cursor: Option<int>)
    requires forall i :: 0 <= i < |rows| ==> !Covered(rows[i], cursor)
    ensures UpTo(rows, cursor) == [] && After(rows, cursor) == rows
  {
    if rows != [] {
      NothingCovered(rows[1..], cursor);
    }
  }

  lemma {:induction false} AllCovered(rows: seq<Row>, cursor: Option<int>)
    requires forall i :: 0 <= i < |rows| ==> Covered(rows[i], cursor)
    ensures UpTo(rows, cursor) == rows && After(rows, cursor) == []
  {
    if rows != [] {
      AllCovered(rows[1..], cursor);
    }
  }

  lemma {:induction false} CutAppend(a: seq<Row>, b: seq<Row>, cursor: Option<int>)
    ensures UpTo(a + b, cursor) == UpTo(a, cursor) + UpTo(b, cursor)
    ensures After(a + b, cursor) == After(a, cursor) + After(b, cursor)
  {
    hide UpTo, After, Covered;
    if a == [] {
      CutNone(a, cursor);
      assert a + b == b;
    } else {
      var row, rest := a[0], a[1..];
      CutAppend(rest, b, cursor);
      assert a == [row] + rest;
      Regroup([row], rest, b);
      CutCons(row, rest, cursor);
      CutCons(row, rest + b, cursor);
      Regroup([row], UpTo(rest, cursor), UpTo(b, cursor));
      Regroup([row], After(rest, cursor), After(b, cursor));
    }
  }

  lemma Regroup<T>(a: seq<T>, b: seq<T>, c: seq<T>)
    ensures a + (b + c) == (a + b) + c
  {
  }

  lemma CutNone(rows: seq<Row>, cursor: Option<int>)
    requires rows == []
    ensures UpTo(rows, cursor) == [] && After(rows, cursor) == []
  {
  }

  lemma CutCons(row: Row, rest: seq<Row>, cursor: Option<int>)
    ensures UpTo([row] + rest, cursor)
         == (if Covered(row, cursor) then [row] + UpTo(rest, cursor) else UpTo(rest, cursor))
    ensures After([row] + rest, cursor)
         == (if Covered(row, cursor) then After(rest, cursor) else [row] + After(rest, cursor))
  {
    assert ([row] + rest)[1..] == rest;
    assert [] + UpTo(rest, cursor) == UpTo(rest, cursor) && [] + After(rest, cursor) == After(rest, cursor);
  }

  lemma FirstCovered(rows: seq<Row>, k: nat)
    requires Increasing(rows) && 0 < k <= |rows|
    ensures forall i :: 0 <= i < |rows[..k]| ==> Covered(rows[..k][i], Some(rows[k - 1].sequence))
    ensures forall i :: 0 <= i < |rows[k..]| ==> !Covered(rows[k..][i], Some(rows[k - 1].sequence))
  {
  }

  /** A cursor at the last of the first `k` rows cuts there. */
  lemma CutAtRow(rows: seq<Row>, k: nat)
    requires Increasing(rows) && 0 < k <= |rows|
    ensures UpTo(rows, Some(rows[k - 1].sequence)) == rows[..k] && After(rows, Some(rows[k - 1].sequence)) == rows[k..]
  {
    hide UpTo, After, Covered, Increasing;
    var next := Some(rows[k - 1].sequence);
    FirstCovered(rows, k);
    AllCovered(rows[..k], next);
    NothingCovered(rows[k..], next);
    CutAppend(rows[..k], rows[k..], next);
    assert rows == rows[..k] + rows[k..];
  }

  /** Moving the cursor to the last of the first `n` rows behind it moves exactly those. */
  lemma CursorMoves(rows: seq<Row>, cursor: Option<int>, n: nat)
    requires Increasing(rows) && 0 < n <= |After(rows, cursor)|
    ensures var after := After(rows, cursor);
            var next := Some(after[n - 1].sequence);
            UpTo(rows, next) == UpTo(rows, cursor) + after[..n] && After(rows, next) == after[n..]
    ensures cursor.Some? ==> After(rows, cursor)[n - 1].sequence > cursor.value
  {
    hide UpTo, After, Covered, Increasing;
    CursorCuts(rows, cursor);
    var before, after := UpTo(rows, cursor), After(rows, cursor);
    var k := |before| + n;
    assert rows[k - 1] == after[n - 1];
    CutAtRow(rows, k);
    assert rows[..k] == before + after[..n] && rows[k..] == after[n..];
    assert after[n - 1] in after;
    BeyondCursor(after[n - 1], cursor);
  }

  lemma BeyondCursor(row: Row, cursor: Option<int>)
    requires !Covered(row, cursor)
    ensures cursor.Some? ==> row.sequence > cursor.value
  {
  }

  // ---------------------------------------------------------------- the protocol

  /** What a job read when it began. */
  datatype Job = Job(version: nat, cursor: Option<int>, memory: seq<Row>, window: seq<Row>)

  /** `memory` holds the rows the stored summary stands for; `next` is the sequence of the next
      row, which no earlier row ever had. */
  datatype State = State(rows: seq<Row>, next: int, memory: seq<Row>, cursor: Option<int>, version: nat, jobs: seq<Job>)

  datatype Event =
    | Append(row: Row)
    | Begin(through: int)                 // a job reads the rows up to the requested sequence
    | Succeed(job: nat, n: nat)           // its summary of the first n rows of its window is written
    | Fail(job: nat)                      // any failure: nothing is written
    | Edit(index: nat, content: string)
    | Delete(index: nat)

  function Initial(): State {
    State([], 1, [], None, 0, [])
  }

  predicate Enabled(s: State, e: Event) {
    match e
    case Append(row) => row.sequence == s.next
    case Begin(through) => s.rows != [] && through <= s.rows[|s.rows| - 1].sequence
    case Succeed(j, n) => j < |s.jobs| && 0 < n <= |s.jobs[j].window|
    case Fail(j) => j < |s.jobs|
    case Edit(i, _) => i < |s.rows|
    case Delete(i) => i < |s.rows|
  }

  /** The compare-and-set of the memory row. */
  predicate WriteAccepted(s: State, job: Job) {
    job.version == s.version && job.cursor == s.cursor
  }

  /** Changing a row the memory covers invalidates the memory. */
  function Invalidated(s: State, row: Row): State {
    if Covered(row, s.cursor) then s.(memory := [], cursor := None, version := s.version + 1) else s
  }

  function Next(s: State, e: Event): State
    requires Enabled(s, e)
  {
    match e
    case Append(row) => s.(rows := s.rows + [row], next := s.next + 1)
    case Begin(through) =>
      s.(jobs := s.jobs + [Job(s.version, s.cursor, s.memory, UpTo(After(s.rows, s.cursor), Some(through)))])
    case Succeed(j, n) =>
      var job := s.jobs[j];
      if !WriteAccepted(s, job) then s
      else s.(memory := job.memory + job.window[..n], cursor := Some(job.window[n - 1].sequence),
              version := s.version + 1)
    case Fail(_) => s
    case Edit(i, content) => Invalidated(s, s.rows[i]).(rows := s.rows[i := s.rows[i].(content := content)])
    case Delete(i) => Invalidated(s, s.rows[i]).(rows := s.rows[..i] + s.rows[i + 1..])
  }

  /** The rows the prompt shows beside the memory. */
  function PromptRows(s: State): seq<Row> {
    After(s.rows, s.cursor)
  }

  /** Memory and prompt make up the conversation. */
  predicate NothingLost(s: State) {
    s.memory + PromptRows(s) == s.rows
  }

  predicate HasSequence(rows: seq<Row>, sequence: int) {
    exists i :: 0 <= i < |rows| && rows[i].sequence == sequence
  }

  /** The row lies behind the cursor and not behind the last row of the window. */
  predicate Within(row: Row, cursor: Option<int>, window: seq<Row>) {
    window != [] && !Covered(row, cursor) && row.sequence <= window[|window| - 1].sequence
  }

  /** A window is the rows from the cursor of its job on. While cursor and version are the ones of
      the job, rows of it may be edited and go, but none comes in between. */
  predicate WindowOk(s: State, window: seq<Row>, isCurrent: bool) {
    && Increasing(window)
    && (forall i :: 0 <= i < |window| ==> window[i].sequence < s.next)
    && (isCurrent ==> forall i :: 0 <= i < |window| ==> !Covered(window[i], s.cursor))
    && (isCurrent ==>
          forall i :: 0 <= i < |s.rows| && Within(s.rows[i], s.cursor, window) ==>
            HasSequence(window, s.rows[i].sequence))
  }

  predicate JobOk(s: State, job: Job) {
    && job.version <= s.version
    && (job.version == s.version ==> job.cursor == s.cursor && job.memory == s.memory)
    && WindowOk(s, job.window, job.version == s.version)
  }

  predicate Below(rows: seq<Row>, next: int) {
    forall i :: 0 <= i < |rows| ==> rows[i].sequence < next
  }

  predicate Invariant(s: State) {
    && Increasing(s.rows) && Below(s.rows, s.next)
    && s.memory == UpTo(s.rows, s.cursor)
    && (s.cursor.Some? ==> s.memory != [] && s.memory[|s.memory| - 1].sequence == s.cursor.value)
    && (forall j :: 0 <= j < |s.jobs| ==> JobOk(s, s.jobs[j]))
  }

  /** The rows a job summarises are still the ones behind the cursor. */
  predicate WindowIsCurrent(s: State, job: Job, n: nat)
    requires n <= |job.window|
  {
    n <= |PromptRows(s)| && PromptRows(s)[..n] == job.window[..n]
  }

  /** Where the first n rows of the window are all still stored as they were read, they are the
      first n behind the cursor, and only then: so a write is stale exactly when one of the rows
      it summarises is gone or has other content. */
  lemma CurrentIffStored(s: State, job: Job, n: nat)
    requires Invariant(s) && JobOk(s, job) && WriteAccepted(s, job) && n <= |job.window|
    ensures WindowIsCurrent(s, job, n) <==> forall i :: 0 <= i < n ==> job.window[i] in s.rows
  {
    hide After, UpTo, Covered, HasSequence;
    var behind, window := PromptRows(s), job.window;
    CursorCuts(s.rows, s.cursor);
    if WindowIsCurrent(s, job, n) {
      forall i | 0 <= i < n
        ensures window[i] in s.rows
      {
        assert behind[i] == behind[..n][i] == window[..n][i] == window[i];
        assert behind[i] in UpTo(s.rows, s.cursor) + behind;
      }
    } else if forall i :: 0 <= i < n ==> window[i] in s.rows {
      FirstAreStored(s, job, n);
    }
  }

  lemma {:induction false} FirstAreStored(s: State, job: Job, n: nat)
    requires Invariant(s) && JobOk(s, job) && WriteAccepted(s, job) && n <= |job.window|
    requires forall i :: 0 <= i < n ==> job.window[i] in s.rows
    ensures n <= |PromptRows(s)| && PromptRows(s)[..n] == job.window[..n]
  {
    hide After, UpTo, Covered, HasSequence, Within, Increasing, JobOk, Invariant;
    if n > 0 {
      IncreasingOf(s, job);
      FirstAreStored(s, job, n - 1);
      var behind, window := PromptRows(s), job.window;
      AfterIsIncreasing(s.rows, s.cursor);
      WindowRowBehind(s, job, n - 1);
      AfterMember(s.rows, s.cursor, window[n - 1]);
      var m :| 0 <= m < |behind| && behind[m] == window[n - 1];
      if n - 1 < |behind| && behind[n - 1].sequence <= window[n - 1].sequence {
        AfterMember(s.rows, s.cursor, behind[n - 1]);
        NoneBetween(s, job, n - 1, behind[n - 1]);
      }
      SamePlace(behind, window, n - 1, m);
      OneMoreInBoth(behind, window, n);
    }
  }

  lemma OneMoreInBoth<T>(a: seq<T>, b: seq<T>, n: nat)
    requires 0 < n <= |a| && n <= |b| && a[..n - 1] == b[..n - 1] && a[n - 1] == b[n - 1]
    ensures a[..n] == b[..n]
  {
    assert a[..n] == a[..n - 1] + [a[n - 1]] && b[..n] == b[..n - 1] + [b[n - 1]];
  }

  lemma IncreasingOf(s: State, job: Job)
    requires Invariant(s) && JobOk(s, job)
    ensures Increasing(s.rows) && Increasing(job.window)
  {
  }

  lemma WindowRowBehind(s: State, job: Job, i: nat)
    requires JobOk(s, job) && WriteAccepted(s, job) && i < |job.window|
    ensures !Covered(job.window[i], s.cursor)
  {
  }

  /** A stored row behind the cursor, at or before a row of the window, has its place in it. */
  lemma NoneBetween(s: State, job: Job, i: nat, row: Row)
    requires JobOk(s, job) && WriteAccepted(s, job) && i < |job.window|
    requires row in s.rows && !Covered(row, s.cursor) && row.sequence <= job.window[i].sequence
    ensures HasSequence(job.window, row.sequence)
  {
    var k :| 0 <= k < |s.rows| && s.rows[k] == row;
    assert Within(s.rows[k], s.cursor, job.window);
  }

  /** A row of two increasing sequences that agree before it, and one of which has all sequences of
      the other up to it, stands at the same place in both. */
  lemma SamePlace(behind: seq<Row>, window: seq<Row>, n: nat, m: nat)
    requires Increasing(behind) && Increasing(window)
    requires n < |window| && n <= |behind| && behind[..n] == window[..n]
    requires m < |behind| && behind[m] == window[n]
    requires n < |behind| && behind[n].sequence <= window[n].sequence ==> HasSequence(window, behind[n].sequence)
    ensures m == n
  {
    assert forall i :: 0 <= i < n ==> behind[i] == behind[..n][i] == window[..n][i] == window[i];
  }

  /** The event writes no summary of rows that changed since they were read. */
  predicate Fresh(s: State, e: Event)
    requires Enabled(s, e)
  {
    e.Succeed? && WriteAccepted(s, s.jobs[e.job]) ==> WindowIsCurrent(s, s.jobs[e.job], e.n)
  }

  /** A valid memory stands for the conversation up to the cursor, so the prompt built from it
      neither loses nor repeats a row; an invalid one leaves all rows to the prompt. */
  lemma InvariantMeansNothingLost(s: State)
    requires Invariant(s)
    ensures NothingLost(s)
    ensures s.cursor.None? ==> PromptRows(s) == s.rows
  {
    CursorCuts(s.rows, s.cursor);
    NoCursor(s.rows);
  }

  lemma NoCursor(rows: seq<Row>)
    ensures UpTo(rows, None) == [] && After(rows, None) == rows
  {
    NothingCovered(rows, None);
  }

  lemma {:induction false} UpToMember(rows: seq<Row>, cursor: Option<int>, row: Row)
    ensures row in UpTo(rows, cursor) <==> row in rows && Covered(row, cursor)
  {
    if rows != [] {
      UpToMember(rows[1..], cursor, row);
    }
  }

  lemma {:induction false} AfterMember(rows: seq<Row>, cursor: Option<int>, row: Row)
    ensures row in After(rows, cursor) <==> row in rows && !Covered(row, cursor)
  {
    if rows != [] {
      AfterMember(rows[1..], cursor, row);
    }
  }

  lemma AppendKeeps(s: State, row: Row)
    requires Invariant(s) && Enabled(s, Append(row))
    ensures Invariant(Next(s, Append(row)))
    ensures PromptRows(Next(s, Append(row))) == PromptRows(s) + [row]
  {
    hide JobOk;
    CutAppend(s.rows, [row], s.cursor);
    if s.cursor.Some? {
      var last := s.memory[|s.memory| - 1];
      UpToMember(s.rows, s.cursor, last);
      var i :| 0 <= i < |s.rows| && s.rows[i] == last;
    }
    assert !Covered(row, s.cursor);
    NothingCovered([row], s.cursor);
    var t := Next(s, Append(row));
    forall j | 0 <= j < |t.jobs|
      ensures JobOk(t, t.jobs[j])
    {
      JobStays(s, t, s.jobs[j]);
    }
  }

  /** A job stays as it is while the cursor stays, and no row comes in among its own. */
  lemma JobStays(s: State, t: State, job: Job)
    requires JobOk(s, job) && Below(s.rows, s.next)
    requires t.cursor == s.cursor && t.memory == s.memory && t.version == s.version && t.next >= s.next
    requires forall i :: 0 <= i < |t.rows| ==> HasSequence(s.rows, t.rows[i].sequence) || t.rows[i].sequence >= s.next
    ensures JobOk(t, job)
  {
    if job.version == t.version {
      forall i | 0 <= i < |t.rows| && Within(t.rows[i], t.cursor, job.window)
        ensures HasSequence(job.window, t.rows[i].sequence)
      {
        var k :| 0 <= k < |s.rows| && s.rows[k].sequence == t.rows[i].sequence;
        assert Within(s.rows[k], s.cursor, job.window);
      }
    }
  }

  /** A job of an earlier version can only be refused. */
  lemma OldJobStays(s: State, t: State, job: Job)
    requires JobOk(s, job) && t.version > s.version && t.next >= s.next
    ensures JobOk(t, job)
  {
  }

  /** Replacing or removing a row the cursor does not cover leaves what it covers alone. */
  lemma UncoveredChange(s: State, i: nat, with: seq<Row>)
    requires i < |s.rows| && !Covered(s.rows[i], s.cursor)
    requires |with| <= 1 && forall row :: row in with ==> row.sequence == s.rows[i].sequence
    ensures UpTo(s.rows[..i] + with + s.rows[i + 1..], s.cursor) == UpTo(s.rows, s.cursor)
  {
    var before, after := s.rows[..i], s.rows[i + 1..];
    assert s.rows == before + [s.rows[i]] + after;
    CutAppend(before + [s.rows[i]], after, s.cursor);
    CutAppend(before, [s.rows[i]], s.cursor);
    CutAppend(before + with, after, s.cursor);
    CutAppend(before, with, s.cursor);
    NothingCovered([s.rows[i]], s.cursor);
    NothingCovered(with, s.cursor);
  }

  lemma ChangeKeeps(s: State, i: nat, with: seq<Row>, t: State)
    requires Invariant(s) && i < |s.rows|
    requires |with| <= 1 && forall row :: row in with ==> row.sequence == s.rows[i].sequence
    requires t == Invalidated(s, s.rows[i]).(rows := s.rows[..i] + with + s.rows[i + 1..])
    ensures Invariant(t)
  {
    hide JobOk, Increasing, Below, UpTo, After;
    ChangedRowsAreOk(s.rows, i, with, s.next);
    SameSequences(s.rows, i, with);
    if Covered(s.rows[i], s.cursor) {
      NoCursor(t.rows);
      forall j | 0 <= j < |t.jobs|
        ensures JobOk(t, t.jobs[j])
      {
        OldJobStays(s, t, s.jobs[j]);
      }
    } else {
      UncoveredChange(s, i, with);
      forall j | 0 <= j < |t.jobs|
        ensures JobOk(t, t.jobs[j])
      {
        JobStays(s, t, s.jobs[j]);
      }
    }
  }

  lemma ChangedRowsAreOk(rows: seq<Row>, i: nat, with: seq<Row>, next: int)
    requires Increasing(rows) && Below(rows, next) && i < |rows|
    requires |with| <= 1 && forall row :: row in with ==> row.sequence == rows[i].sequence
    ensures Increasing(rows[..i] + with + rows[i + 1..]) && Below(rows[..i] + with + rows[i + 1..], next)
  {
    assert with == [] || with == [with[0]];
  }

  lemma SameSequences(rows: seq<Row>, i: nat, with: seq<Row>)
    requires i < |rows| && |with| <= 1 && forall row :: row in with ==> row.sequence == rows[i].sequence
    ensures var after := rows[..i] + with + rows[i + 1..];
            forall k :: 0 <= k < |after| ==> HasSequence(rows, after[k].sequence)
  {
    var after := rows[..i] + with + rows[i + 1..];
    forall k | 0 <= k < |after|
      ensures HasSequence(rows, after[k].sequence)
    {
      var from := if k < i then k else if k < i + |with| then i else k - |with| + 1;
      assert after[k].sequence == rows[from].sequence;
    }
  }

  lemma BeginKeeps(s: State, through: int)
    requires Invariant(s) && Enabled(s, Begin(through))
    ensures Invariant(Next(s, Begin(through)))
  {
    hide JobOk;
    var t := Next(s, Begin(through));
    forall j | 0 <= j < |t.jobs|
      ensures JobOk(t, t.jobs[j])
    {
      if j < |s.jobs| {
        AllHaveSequence(s.rows);
        JobStays(s, t, s.jobs[j]);
      } else {
        NewWindow(s, t, through);
      }
    }
  }

  lemma AllHaveSequence(rows: seq<Row>)
    ensures forall i :: 0 <= i < |rows| ==> HasSequence(rows, rows[i].sequence)
  {
  }

  /** What a job reads: the rows behind the cursor up to the requested sequence. */
  lemma NewWindow(s: State, t: State, through: int)
    requires Invariant(s) && t.rows == s.rows && t.next == s.next && t.cursor == s.cursor && t.memory == s.memory
    requires t.version == s.version
    ensures JobOk(t, Job(s.version, s.cursor, s.memory, UpTo(After(s.rows, s.cursor), Some(through))))
  {
    hide UpTo, After, Covered, Increasing, HasSequence, Within;
    var behind := After(s.rows, s.cursor);
    var window := UpTo(behind, Some(through));
    UpToIsPrefix(s.rows, s.cursor, through);
    AfterIsIncreasing(s.rows, s.cursor);
    assert window == behind[..|window|];
    PrefixIsIncreasing(behind, |window|);
    forall i | 0 <= i < |window|
      ensures window[i].sequence < t.next && !Covered(window[i], s.cursor)
    {
      assert window[i] in window;
      UpToMember(behind, Some(through), window[i]);
      AfterMember(s.rows, s.cursor, window[i]);
    }
    forall i | 0 <= i < |s.rows| && Within(s.rows[i], s.cursor, window)
      ensures HasSequence(window, s.rows[i].sequence)
    {
      InWindow(s.rows, s.cursor, through, s.rows[i]);
    }
  }

  lemma PrefixIsIncreasing(rows: seq<Row>, n: nat)
    requires Increasing(rows) && n <= |rows|
    ensures Increasing(rows[..n])
  {
  }

  lemma InWindow(rows: seq<Row>, cursor: Option<int>, through: int, row: Row)
    requires row in rows && Within(row, cursor, UpTo(After(rows, cursor), Some(through)))
    ensures HasSequence(UpTo(After(rows, cursor), Some(through)), row.sequence)
  {
    hide UpTo, After;
    var behind := After(rows, cursor);
    var window := UpTo(behind, Some(through));
    assert window[|window| - 1] in window;
    UpToMember(behind, Some(through), window[|window| - 1]);
    AfterMember(rows, cursor, row);
    UpToMember(behind, Some(through), row);
  }

  /** An accepted write keeps memory and prompt complete exactly when the rows it summarised are
      still the ones behind the cursor. */
  lemma WriteIsCompleteIff(s: State, j: nat, n: nat)
    requires Invariant(s) && Enabled(s, Succeed(j, n)) && WriteAccepted(s, s.jobs[j])
    ensures NothingLost(Next(s, Succeed(j, n))) <==> WindowIsCurrent(s, s.jobs[j], n)
  {
    hide After, UpTo, Covered, Increasing;
    var job, t := s.jobs[j], Next(s, Succeed(j, n));
    assert JobOk(s, job);
    CursorCuts(s.rows, s.cursor);
    var behind := PromptRows(s);
    if WindowIsCurrent(s, job, n) {
      assert behind[n - 1] == behind[..n][n - 1] == job.window[..n][n - 1] == job.window[n - 1];
      CursorMoves(s.rows, s.cursor, n);
      assert behind == behind[..n] + behind[n..];
      assert t.memory + PromptRows(t) == s.memory + behind;
    } else {
      SamePrefix(s.memory, job.window[..n], PromptRows(t), behind);
    }
  }

  lemma SamePrefix(memory: seq<Row>, window: seq<Row>, rest: seq<Row>, behind: seq<Row>)
    ensures memory + window + rest == memory + behind ==> window <= behind
  {
    if memory + window + rest == memory + behind {
      assert (memory + behind)[|memory|..] == behind;
      assert (memory + window + rest)[|memory|..] == window + rest;
    }
  }

  lemma SucceedKeeps(s: State, j: nat, n: nat)
    requires Invariant(s) && Enabled(s, Succeed(j, n)) && Fresh(s, Succeed(j, n))
    ensures Invariant(Next(s, Succeed(j, n)))
    ensures var t := Next(s, Succeed(j, n));
      if WriteAccepted(s, s.jobs[j])
      then t.cursor.Some? && (s.cursor.Some? ==> t.cursor.value > s.cursor.value)
           && t.memory == s.memory + PromptRows(s)[..n] && PromptRows(t) == PromptRows(s)[n..]
      else t == s
  {
    if WriteAccepted(s, s.jobs[j]) {
      assert JobOk(s, s.jobs[j]);
      var t := Next(s, Succeed(j, n));
      CursorMoves(s.rows, s.cursor, n);
      assert PromptRows(s)[..n][n - 1] == PromptRows(s)[n - 1]
        && s.jobs[j].window[..n][n - 1] == s.jobs[j].window[n - 1];
      forall k | 0 <= k < |t.jobs|
        ensures JobOk(t, t.jobs[k])
      {
        OldJobStays(s, t, s.jobs[k]);
      }
    }
  }

  lemma StepKeeps(s: State, e: Event)
    requires Invariant(s) && Enabled(s, e) && Fresh(s, e)
    ensures Invariant(Next(s, e))
  {
    match e
    case Append(row) => AppendKeeps(s, row);
    case Begin(through) => BeginKeeps(s, through);
    case Succeed(j, n) => SucceedKeeps(s, j, n);
    case Fail(_) =>
    case Edit(i, content) =>
      var row := s.rows[i].(content := content);
      assert s.rows[i := row] == s.rows[..i] + [row] + s.rows[i + 1..];
      ChangeKeeps(s, i, [row], Next(s, e));
    case Delete(i) =>
      assert s.rows[..i] + [] + s.rows[i + 1..] == s.rows[..i] + s.rows[i + 1..];
      ChangeKeeps(s, i, [], Next(s, e));
  }

  // ---------------------------------------------------------------- runs

  /** `s` is reached from an empty conversation by the events, `guarded` if none of them wrote a
      stale summary. */
  ghost predicate Run(events: seq<Event>, s: State, guarded: bool)
    decreases |events|
  {
    if |events| == 0 then s == Initial()
    else exists before :: RunStep(events, before, s, guarded)
  }

  ghost predicate RunStep(events: seq<Event>, before: State, s: State, guarded: bool)
    requires |events| > 0
    decreases |events|, 0
  {
    var last := events[|events| - 1];
    && Run(events[..|events| - 1], before, guarded) && Enabled(before, last)
    && (guarded ==> Fresh(before, last)) && s == Next(before, last)
  }

  /** Over every run in which no stale summary is written, whatever jobs overlap and fail, what
      the memory stands for followed by the rows the prompt shows is the conversation. */
  lemma {:induction false} RunsLoseNothing(events: seq<Event>, s: State)
    requires Run(events, s, true)
    ensures Invariant(s) && NothingLost(s)
    decreases |events|
  {
    if events == [] {
      NoCursor([]);
    } else {
      var before :| RunStep(events, before, s, true);
      RunsLoseNothing(events[..|events| - 1], before);
      StepKeeps(before, events[|events| - 1]);
    }
    InvariantMeansNothingLost(s);
  }

  predicate EditFree(events: seq<Event>) {
    forall i :: 0 <= i < |events| ==> !events[i].Edit? && !events[i].Delete?
  }

  /** Every job whose write would be accepted read a beginning of what is behind the cursor. */
  predicate WindowsAreCurrent(s: State) {
    forall j :: 0 <= j < |s.jobs| && s.jobs[j].version == s.version ==> s.jobs[j].window <= PromptRows(s)
  }

  /** Without edits no summary is ever stale: appends and overlapping, failing or superseded
      jobs never make a conversation lose or repeat a row. */
  lemma {:induction false} EditFreeRunsAreFresh(events: seq<Event>, s: State)
    requires Run(events, s, false) && EditFree(events)
    ensures Run(events, s, true) && WindowsAreCurrent(s)
    decreases |events|
  {
    if events != [] {
      var init, last := events[..|events| - 1], events[|events| - 1];
      var before :| RunStep(events, before, s, false);
      EditFreeRunsAreFresh(init, before);
      RunsLoseNothing(init, before);
      WindowsStayCurrent(before, last);
      assert RunStep(events, before, s, true);
    }
  }

  lemma WindowsStayCurrent(s: State, e: Event)
    requires Invariant(s) && WindowsAreCurrent(s) && Enabled(s, e) && !e.Edit? && !e.Delete?
    ensures Fresh(s, e) && WindowsAreCurrent(Next(s, e))
  {
    match e
    case Append(row) => AppendKeeps(s, row);
    case Begin(through) => UpToIsPrefix(s.rows, s.cursor, through);
    case Succeed(j, n) =>
      assert JobOk(s, s.jobs[j]);
      var t := Next(s, e);
      forall k | 0 <= k < |t.jobs| && t.jobs[k].version == t.version
        ensures t.jobs[k].window <= PromptRows(t)
      {
        assert JobOk(s, s.jobs[k]);
      }
    case Fail(_) =>
  }

  lemma UpToIsPrefix(rows: seq<Row>, cursor: Option<int>, through: int)
    requires Increasing(rows)
    ensures UpTo(After(rows, cursor), Some(through)) <= After(rows, cursor)
  {
    AfterIsIncreasing(rows, cursor);
    CursorCuts(After(rows, cursor), Some(through));
  }

  lemma AfterIsIncreasing(rows: seq<Row>, cursor: Option<int>)
    requires Increasing(rows)
    ensures Increasing(After(rows, cursor))
  {
    CursorCuts(rows, cursor);
    var k := |UpTo(rows, cursor)|;
    assert After(rows, cursor) == rows[k..];
  }

  /** The guard on cursor and version does not see an edit of a row behind the cursor. A job that
      read it before the edit writes its summary of the old text and moves the cursor past it. */
  lemma EditBehindCursorGoesStale() returns (events: seq<Event>, s: State)
    ensures Run(events, s, false)
    ensures !NothingLost(s) && s.cursor == Some(2)
    ensures s.memory != [] && s.rows != [] && s.memory[0].content == "old" && s.rows[0].content == "new"
  {
    hide Run, RunStep;
    NoRun();
    var q, a := Row(1, "user", false, "old"), Row(2, "assistant", false, "answer");
    var s0 := Initial();
    var s1 := Next(s0, Append(q));
    var s2 := Next(s1, Append(a));
    assert s2 == State([q, a], 3, [], None, 0, []);
    BeginsAndGoesStale(q, a);
    var s3 := Next(s2, Begin(2));
    var s4 := Next(s3, Edit(0, "new"));
    s := Next(s4, Succeed(0, 2));
    events := [] + [Append(q)] + [Append(a)] + [Begin(2)] + [Edit(0, "new")] + [Succeed(0, 2)];
    RunMore([], s0, Append(q));
    RunMore([] + [Append(q)], s1, Append(a));
    RunMore([] + [Append(q)] + [Append(a)], s2, Begin(2));
    RunMore([] + [Append(q)] + [Append(a)] + [Begin(2)], s3, Edit(0, "new"));
    RunMore([] + [Append(q)] + [Append(a)] + [Begin(2)] + [Edit(0, "new")], s4, Succeed(0, 2));
  }

  /** Two rows are read, the first one is edited, and the summary of what was read is written. */
  lemma BeginsAndGoesStale(q: Row, a: Row)
    requires q == Row(1, "user", false, "old") && a == Row(2, "assistant", false, "answer")
    ensures var s2 := State([q, a], 3, [], None, 0, []);
            var s3 := Next(s2, Begin(2));
            var s4 := Next(s3, Edit(0, "new"));
      && Enabled(s4, Succeed(0, 2))
      && (var s := Next(s4, Succeed(0, 2));
          !NothingLost(s) && s.cursor == Some(2) && s.memory == [q, a] && s.rows == [q.(content := "new"), a])
  {
    hide UpTo, After, NothingLost;
    var edited := q.(content := "new");
    NoCursor([q, a]);
    BothCovered(q, a);
    BothCovered(edited, a);
    assert [q, a][0 := edited] == [edited, a];
    assert [q, a][..2] == [q, a] && [] + [q, a] == [q, a];
    var s3 := Next(State([q, a], 3, [], None, 0, []), Begin(2));
    assert s3.jobs == [Job(0, None, [], [q, a])];
    var s := Next(Next(s3, Edit(0, "new")), Succeed(0, 2));
    assert s.rows == [edited, a] && s.memory == [q, a] && s.cursor == Some(2);
    Differs(s, q, edited, a);
  }

  lemma BothCovered(q: Row, a: Row)
    requires q.sequence == 1 && a.sequence == 2
    ensures UpTo([q, a], Some(2)) == [q, a] && After([q, a], Some(2)) == []
  {
    AllCovered([q, a], Some(2));
  }

  lemma Differs(s: State, q: Row, edited: Row, a: Row)
    requires s.rows == [edited, a] && s.memory == [q, a] && s.cursor == Some(2) && q.content != edited.content
    requires After(s.rows, s.cursor) == []
    ensures !NothingLost(s)
  {
    assert ([q, a] + [])[0] == q && [edited, a][0] == edited;
  }

  lemma NoRun()
    ensures Run([], Initial(), false)
  {
  }

  lemma RunMore(events: seq<Event>, s: State, e: Event)
    requires Run(events, s, false) && Enabled(s, e)
    ensures Run(events + [e], Next(s, e), false)
  {
    assert (events + [e])[..|events|] == events;
    assert RunStep(events + [e], s, Next(s, e), false);
  }

  // ---------------------------------------------------------------- staleness, from the events

  /** The states between the events of a run, from any state that meets the invariant, in which no
      stale summary is written. */
  ghost predicate Trace(states: seq<State>, events: seq<Event>) {
    && |states| == |events| + 1
    && Invariant(states[0])
    && forall i :: 0 <= i < |events| ==>
         Enabled(states[i], events[i]) && Fresh(states[i], events[i]) && states[i + 1] == Next(states[i], events[i])
  }

  lemma {:induction false} TraceKeeps(states: seq<State>, events: seq<Event>, i: nat)
    requires Trace(states, events) && i <= |events|
    ensures Invariant(states[i])
  {
    hide Invariant, Next, Enabled, Fresh;
    if i > 0 {
      TraceKeeps(states, events, i - 1);
      StepKeeps(states[i - 1], events[i - 1]);
    }
  }

  /** The event deletes the row or gives it other content. */
  predicate Changes(s: State, e: Event, row: Row)
    requires Enabled(s, e)
  {
    || (e.Delete? && s.rows[e.index] == row)
    || (e.Edit? && s.rows[e.index] == row && e.content != row.content)
  }

  /** The event is an edit that gives the row, changed before, the content it had. */
  predicate ChangesBack(s: State, e: Event, row: Row)
    requires Enabled(s, e)
  {
    e.Edit? && s.rows[e.index] != row && s.rows[e.index].(content := e.content) == row
  }

  /** One event and whether a row is stored as it was. */
  lemma StoredStep(s: State, e: Event, row: Row)
    requires Invariant(s) && Enabled(s, e) && row.sequence < s.next
    ensures row in Next(s, e).rows <==> (row in s.rows && !Changes(s, e, row)) || ChangesBack(s, e, row)
    ensures Next(s, e).next >= s.next
  {
    hide UpTo, After, JobOk, Increasing;
    match e
    case Edit(i, content) => ReplacedRow(s.rows, i, s.rows[i].(content := content), row);
    case Delete(i) => RemovedRow(s.rows, i, row);
    case _ =>
  }

  lemma ReplacedRow(rows: seq<Row>, i: nat, edited: Row, row: Row)
    requires Increasing(rows) && i < |rows| && edited.sequence == rows[i].sequence
    ensures row in rows[i := edited] <==> (row in rows && row != rows[i]) || row == edited
  {
    var after := rows[i := edited];
    assert after[i] == edited;
    if k :| 0 <= k < |rows| && rows[k] == row && k != i {
      assert after[k] == row;
    }
  }

  lemma RemovedRow(rows: seq<Row>, i: nat, row: Row)
    requires Increasing(rows) && i < |rows|
    ensures row in rows[..i] + rows[i + 1..] <==> row in rows && row != rows[i]
  {
    var after := rows[..i] + rows[i + 1..];
    if k :| 0 <= k < |rows| && rows[k] == row && k != i {
      assert after[if k < i then k else k - 1] == row;
    }
  }

  /** Some event from `from` on changed the row, and none since changed it back. */
  ghost predicate ChangedSince(states: seq<State>, events: seq<Event>, from: nat, row: Row)
    requires Trace(states, events)
  {
    exists k :: from <= k < |events| && ChangedAt(states, events, k, row)
  }

  ghost predicate ChangedAt(states: seq<State>, events: seq<Event>, k: nat, row: Row)
    requires Trace(states, events) && k < |events|
  {
    && row in states[k].rows && Changes(states[k], events[k], row)
    && forall m :: k < m < |events| ==> !ChangesBack(states[m], events[m], row)
  }

  /** A row that was stored at some time is no longer, as it was, exactly if an event since changed
      it for good. */
  lemma {:induction false} GoneIffChanged(states: seq<State>, events: seq<Event>, from: nat, row: Row)
    requires Trace(states, events) && from <= |events| && row in states[from].rows
    ensures row !in states[|events|].rows <==> ChangedSince(states, events, from, row)
  {
    hide Invariant, Next, Enabled, Fresh, Changes, ChangesBack;
    TraceKeeps(states, events, from);
    SequenceOf(states[from], row);
    if ChangedSince(states, events, from, row) {
      var k :| from <= k < |events| && ChangedAt(states, events, k, row);
      NextStays(states, events, from, k, row);
      StaysGone(states, events, k, |events|, row);
    }
    if row !in states[|events|].rows {
      var k := LastStored(states, events, from, |events|, row);
      assert ChangedAt(states, events, k, row);
    }
  }

  lemma SequenceOf(s: State, row: Row)
    requires Invariant(s) && row in s.rows
    ensures row.sequence < s.next
  {
  }

  lemma {:induction false} NextStays(states: seq<State>, events: seq<Event>, from: nat, k: nat, row: Row)
    requires Trace(states, events) && from <= k <= |events| && row.sequence < states[from].next
    ensures row.sequence < states[k].next && Invariant(states[k])
    decreases k
  {
    hide Invariant, Next, Enabled, Fresh, Changes, ChangesBack;
    TraceKeeps(states, events, k);
    if from < k {
      NextStays(states, events, from, k - 1, row);
      StoredStep(states[k - 1], events[k - 1], row);
    }
  }

  lemma {:induction false} StaysGone(states: seq<State>, events: seq<Event>, k: nat, n: nat, row: Row)
    requires Trace(states, events) && k < n <= |events| && row.sequence < states[k].next
    requires ChangedAt(states, events, k, row)
    ensures row !in states[n].rows
    decreases n
  {
    hide Invariant, Next, Enabled, Fresh, Changes, ChangesBack;
    NextStays(states, events, k, n - 1, row);
    StoredStep(states[n - 1], events[n - 1], row);
    if k < n - 1 {
      StaysGone(states, events, k, n - 1, row);
    } else {
      NotBothWays(states[k], events[k], row);
    }
  }

  lemma NotBothWays(s: State, e: Event, row: Row)
    requires Enabled(s, e) && Changes(s, e, row)
    ensures !ChangesBack(s, e, row)
  {
  }

  lemma {:induction false} LastStored(states: seq<State>, events: seq<Event>, from: nat, n: nat, row: Row)
      returns (k: nat)
    requires Trace(states, events) && from <= n <= |events| && row in states[from].rows && row !in states[n].rows
    requires row.sequence < states[from].next
    ensures from <= k < n && row in states[k].rows && Changes(states[k], events[k], row)
    ensures forall m :: k < m < n ==> !ChangesBack(states[m], events[m], row)
    decreases n
  {
    hide Invariant, Next, Enabled, Fresh, Changes, ChangesBack;
    NextStays(states, events, from, n - 1, row);
    StoredStep(states[n - 1], events[n - 1], row);
    if row in states[n - 1].rows {
      k := n - 1;
    } else {
      k := LastStored(states, events, from, n - 1, row);
    }
  }

  lemma {:induction false} JobStaysListed(states: seq<State>, events: seq<Event>, from: nat, n: nat, j: nat)
    requires Trace(states, events) && from <= n <= |events| && j < |states[from].jobs|
    ensures j < |states[n].jobs| && states[n].jobs[j] == states[from].jobs[j]
    decreases n
  {
    hide Invariant, Fresh;
    if from < n {
      JobStaysListed(states, events, from, n - 1, j);
    }
  }

  lemma WindowWasStored(s: State, through: int, row: Row)
    requires row in UpTo(After(s.rows, s.cursor), Some(through))
    ensures row in s.rows
  {
    UpToMember(After(s.rows, s.cursor), Some(through), row);
    AfterMember(s.rows, s.cursor, row);
  }

  /** A job begins at event `b` and its write is accepted at the end: it is stale if and only if an
      edit or a delete since `b` changed one of the n rows it summarises, and no later edit changed
      that row back. */
  lemma StaleIffChanged(states: seq<State>, events: seq<Event>, b: nat, n: nat)
    requires Trace(states, events) && b < |events| && events[b].Begin?
    requires var s, j := states[|events|], |states[b].jobs|;
      Enabled(s, Succeed(j, n)) && WriteAccepted(s, s.jobs[j])
    ensures var s, j := states[|events|], |states[b].jobs|;
      && s.jobs[j].window == UpTo(After(states[b].rows, states[b].cursor), Some(events[b].through))
      && (!Fresh(s, Succeed(j, n))
          <==> exists i :: 0 <= i < n && ChangedSince(states, events, b + 1, s.jobs[j].window[i]))
  {
    hide UpTo, After, ChangedSince, Invariant, JobOk;
    var s, j := states[|events|], |states[b].jobs|;
    JobStaysListed(states, events, b + 1, |events|, j);
    var window := s.jobs[j].window;
    TraceKeeps(states, events, |events|);
    JobIsOk(s, j);
    CurrentIffStored(s, s.jobs[j], n);
    forall i | 0 <= i < n
      ensures window[i] !in s.rows <==> ChangedSince(states, events, b + 1, window[i])
    {
      WindowWasStored(states[b], events[b].through, window[i]);
      GoneIffChanged(states, events, b + 1, window[i]);
    }
  }

  lemma JobIsOk(s: State, j: nat)
    requires Invariant(s) && j < |s.jobs|
    ensures JobOk(s, s.jobs[j])
  {
  }
}

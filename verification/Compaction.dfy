/** app/ai/conversation_compactor.py, with the grouping of app/ai/request_budget.py: which part
    of a conversation is summarised and which part stays as it is. */
module Compaction {
  import opened Options

  datatype Row = Row(sequence: int, role: string, toolCalls: bool, content: string)

  datatype Group = Group(messages: seq<Row>, complete: bool)

  predicate IsUser(m: Row) { m.role == "user" }
  predicate IsAssistant(m: Row) { m.role == "assistant" }
  predicate IsMemory(m: Row) { m.role == "memory" }

  /** The answer that ends a turn. */
  predicate IsFinalAnswer(m: Row) { IsAssistant(m) && !m.toolCalls }

  predicate GroupIsComplete(messages: seq<Row>) {
    messages != [] && IsUser(messages[0]) && IsFinalAnswer(messages[|messages| - 1])
  }

  // ---------------------------------------------------------------- grouping

  /** The grouping of a beginning of the history: closed groups and the open one. */
  datatype Grouping = Grouping(groups: seq<Group>, current: seq<Row>, waiting: bool)

  function Closed(s: Grouping): seq<Group> {
    s.groups + [Group(s.current, GroupIsComplete(s.current))]
  }

  function Grouped(s: Grouping, m: Row): Grouping {
    if IsMemory(m) && s.current == [] then Grouping(s.groups + [Group([m], true)], [], s.waiting)
    else
      var t := if IsUser(m) && s.current != [] then Grouping(Closed(s), [], false) else s;
      var u := t.(current := t.current + [m]);
      if IsAssistant(m) then if m.toolCalls then u.(waiting := true) else Grouping(Closed(u), [], false)
      else if m.role == "tool" then u.(waiting := true)
      else u
  }

  function GroupingOf(messages: seq<Row>): Grouping {
    if |messages| == 0 then Grouping([], [], false)
    else Grouped(GroupingOf(messages[..|messages| - 1]), messages[|messages| - 1])
  }

  function Finished(s: Grouping): seq<Group> {
    if s.current == [] then s.groups
    else s.groups + [Group(s.current, GroupIsComplete(s.current) && !s.waiting)]
  }

  function Groups(messages: seq<Row>): seq<Group> {
    Finished(GroupingOf(messages))
  }

  method AtomicHistoryGroups(messages: seq<Row>) returns (groups: seq<Group>)
    ensures groups == Groups(messages)
  {
    groups := [];
    var current: seq<Row> := [];
    var waiting := false;
    for i := 0 to |messages|
      invariant Grouping(groups, current, waiting) == GroupingOf(messages[..i])
    {
      var message := messages[i];
      assert messages[..i + 1][..i] == messages[..i];
      if IsMemory(message) && current == [] {
        groups := groups + [Group([message], true)];
        continue;
      }
      if IsUser(message) && current != [] {
        groups := groups + [Group(current, GroupIsComplete(current))];
        current := [];
        waiting := false;
      }
      current := current + [message];
      if IsAssistant(message) {
        if message.toolCalls {
          waiting := true;
        } else {
          waiting := false;
          groups := groups + [Group(current, GroupIsComplete(current))];
          current := [];
        }
      } else if message.role == "tool" {
        waiting := true;
      }
    }
    assert messages[..|messages|] == messages;
    if current != [] {
      groups := groups + [Group(current, GroupIsComplete(current) && !waiting)];
    }
  }

  function Messages(groups: seq<Group>): seq<Row> {
    if |groups| == 0 then [] else Messages(groups[..|groups| - 1]) + groups[|groups| - 1].messages
  }

  lemma MessagesOneMore(groups: seq<Group>, g: Group)
    ensures Messages(groups + [g]) == Messages(groups) + g.messages
  {
    assert (groups + [g])[..|groups|] == groups;
  }

  /** A complete group is a remembered summary or a turn from its question to its answer. */
  predicate GroupOk(g: Group) {
    && g.messages != []
    && (g.complete <==> GroupIsComplete(g.messages) || (|g.messages| == 1 && IsMemory(g.messages[0])))
  }

  predicate GroupingOk(s: Grouping) {
    && (forall i :: 0 <= i < |s.groups| ==> GroupOk(s.groups[i]))
    && (s.current != [] ==> !IsFinalAnswer(s.current[|s.current| - 1]) && !(|s.current| == 1 && IsMemory(s.current[0])))
  }

  lemma {:induction false} GroupingKeepsAll(messages: seq<Row>)
    ensures var s := GroupingOf(messages);
            GroupingOk(s) && Messages(s.groups) + s.current == messages
  {
    hide Grouped, Messages;
    if messages == [] {
      NoGroups();
    } else {
      hide GroupingOk;
      var before, m := messages[..|messages| - 1], messages[|messages| - 1];
      GroupingKeepsAll(before);
      GroupedKeepsAll(GroupingOf(before), m);
      assert messages == before + [m];
    }
  }

  lemma NoGroups()
    ensures Messages([]) == []
  {
  }

  lemma GroupedKeepsAll(s: Grouping, m: Row)
    requires GroupingOk(s)
    ensures var t := Grouped(s, m);
            GroupingOk(t) && Messages(t.groups) + t.current == Messages(s.groups) + s.current + [m]
  {
    hide Messages;
    var t := Grouped(s, m);
    MessagesOneMore(s.groups, Group([m], true));
    MessagesOneMore(s.groups, Group(s.current, GroupIsComplete(s.current)));
    var open := if IsUser(m) && s.current != [] then Closed(s) else s.groups;
    var current := if IsUser(m) && s.current != [] then [m] else s.current + [m];
    MessagesOneMore(open, Group(current, GroupIsComplete(current)));
    assert Messages(s.groups) + s.current + [m] == Messages(s.groups) + (s.current + [m]);
  }

  /** Grouping loses and reorders nothing, and calls complete exactly the finished turns. */
  lemma GroupsPartition(messages: seq<Row>)
    ensures Messages(Groups(messages)) == messages
    ensures forall g :: g in Groups(messages) ==> GroupOk(g)
  {
    GroupingKeepsAll(messages);
    var s := GroupingOf(messages);
    MessagesOneMore(s.groups, Group(s.current, GroupIsComplete(s.current) && !s.waiting));
  }

  // ---------------------------------------------------------------- where groups may end

  /** The first `n` messages are whole groups. */
  ghost predicate IsBoundary(messages: seq<Row>, n: nat) {
    exists g :: 0 <= g <= |Groups(messages)| && |Messages(Groups(messages)[..g])| == n
  }

  lemma {:induction false} GroupingGrows(messages: seq<Row>, n: nat)
    requires n <= |messages|
    ensures GroupingOf(messages[..n]).groups <= GroupingOf(messages).groups
    decreases |messages| - n
  {
    hide Grouped;
    if n == |messages| {
      assert messages[..n] == messages;
    } else {
      GroupingGrows(messages, n + 1);
      assert messages[..n + 1][..n] == messages[..n];
      GroupedGrows(GroupingOf(messages[..n]), messages[n]);
    }
  }

  lemma GroupedGrows(s: Grouping, m: Row)
    ensures s.groups <= Grouped(s, m).groups
  {
    hide GroupIsComplete;
  }

  lemma {:induction false} OffsetsGrow(groups: seq<Group>, g: nat, h: nat)
    requires g <= h <= |groups| && forall i :: 0 <= i < |groups| ==> groups[i].messages != []
    ensures |Messages(groups[..g])| <= |Messages(groups[..h])|
    ensures g < h ==> |Messages(groups[..g])| < |Messages(groups[..h])|
    decreases h
  {
    if g < h {
      OffsetsGrow(groups, g, h - 1);
      assert groups[..h] == groups[..h - 1] + [groups[h - 1]];
      MessagesOneMore(groups[..h - 1], groups[h - 1]);
    }
  }

  /** While the open group stays open, it only gets longer. */
  lemma {:induction false} OpenGroupStaysWhole(messages: seq<Row>, n: nat)
    requires n <= |messages| && GroupingOf(messages[..n]).current != []
    ensures var s, all := GroupingOf(messages[..n]), Groups(messages);
            |all| > |s.groups| && all[..|s.groups|] == s.groups && s.current <= all[|s.groups|].messages
  {
    GroupingGrows(messages, n);
    OpenGroupCloses(messages, n);
  }

  lemma {:induction false} OpenGroupCloses(messages: seq<Row>, n: nat)
    requires n <= |messages| && GroupingOf(messages[..n]).current != []
    ensures var s, t := GroupingOf(messages[..n]), GroupingOf(messages);
      if |t.groups| == |s.groups| then s.current <= t.current && t.current != []
      else |t.groups| > |s.groups| && s.current <= t.groups[|s.groups|].messages
    decreases |messages|
  {
    hide Grouped;
    if n == |messages| {
      assert messages[..n] == messages;
    } else {
      var before := messages[..|messages| - 1];
      assert before[..n] == messages[..n];
      OpenGroupCloses(before, n);
      StillOpen(GroupingOf(messages[..n]), GroupingOf(before), messages[|messages| - 1]);
    }
  }

  /** One more message, once a group is open. */
  lemma StillOpen(s: Grouping, t: Grouping, m: Row)
    requires if |t.groups| == |s.groups| then s.current <= t.current && t.current != []
             else |t.groups| > |s.groups| && s.current <= t.groups[|s.groups|].messages
    ensures var u := Grouped(t, m);
      if |u.groups| == |s.groups| then s.current <= u.current && u.current != []
      else |u.groups| > |s.groups| && s.current <= u.groups[|s.groups|].messages
  {
    hide GroupIsComplete, IsFinalAnswer, IsMemory, IsUser;
  }

  /** Behind a closed group, and before a question, a group ends. */
  lemma ClosedIsBoundary(messages: seq<Row>, n: nat)
    requires 0 < n < |messages|
    requires GroupingOf(messages[..n]).current == [] || IsUser(messages[n])
    ensures IsBoundary(messages, n)
  {
    hide GroupIsComplete, GroupingOf, Messages;
    var s, all := GroupingOf(messages[..n]), Groups(messages);
    GroupingKeepsAll(messages[..n]);
    GroupingGrows(messages, n);
    GroupingGrows(messages, n + 1);
    GroupingNext(messages, n);
    var g := if s.current == [] then |s.groups| else |s.groups| + 1;
    var closed := if s.current == [] then s.groups else Closed(s);
    MessagesOneMore(s.groups, Group(s.current, GroupIsComplete(s.current)));
    assert closed <= all;
    assert all[..g] == closed;
    assert |Messages(all[..g])| == n;
  }

  lemma GroupingNext(messages: seq<Row>, n: nat)
    requires n < |messages|
    ensures GroupingOf(messages[..n + 1]) == Grouped(GroupingOf(messages[..n]), messages[n])
  {
    assert messages[..n + 1][..n] == messages[..n];
  }

  /** Where nothing is open, a message of the role `memory` is a complete group by itself. */
  lemma MemoryStandsAlone(messages: seq<Row>, m: Row)
    requires GroupingOf(messages).current == [] && m.role == "memory"
    ensures Groups(messages + [m]) == Groups(messages) + [Group([m], true)]
  {
    assert (messages + [m])[..|messages|] == messages;
    assert [] + [m] == [m];
  }

  /** Exactly where a group ends between two messages: behind a final answer or a memory that
      stands alone, and before every question. */
  lemma BoundaryIff(messages: seq<Row>, n: nat)
    requires 0 < n < |messages|
    ensures IsBoundary(messages, n) <==> GroupingOf(messages[..n]).current == [] || IsUser(messages[n])
  {
    hide GroupingOf, IsBoundary;
    if GroupingOf(messages[..n]).current == [] || IsUser(messages[n]) {
      ClosedIsBoundary(messages, n);
    } else {
      InsideOpenGroup(messages, n);
    }
  }

  lemma InsideOpenGroup(messages: seq<Row>, n: nat)
    requires 0 < n < |messages|
    requires GroupingOf(messages[..n]).current != [] && !IsUser(messages[n])
    ensures !IsBoundary(messages, n)
  {
    hide Groups, GroupingOf, GroupIsComplete, Messages;
    var s, all := GroupingOf(messages[..n]), Groups(messages);
    GroupsPartition(messages);
    GroupingKeepsAll(messages[..n]);
    LongerInside(messages, n);
    var g := |s.groups|;
    assert all[..g + 1] == all[..g] + [all[g]];
    MessagesOneMore(all[..g], all[g]);
    assert forall i :: 0 <= i < |all| ==> all[i] in all;
    forall h | 0 <= h <= |all|
      ensures |Messages(all[..h])| != n
    {
      if h <= g {
        OffsetsGrow(all, h, g);
      } else {
        OffsetsGrow(all, g + 1, h);
      }
    }
  }

  /** A message that is no question joins the group that is open before it. */
  lemma LongerInside(messages: seq<Row>, n: nat)
    requires n < |messages|
    requires GroupingOf(messages[..n]).current != [] && !IsUser(messages[n])
    ensures var s, all := GroupingOf(messages[..n]), Groups(messages);
            |all| > |s.groups| && all[..|s.groups|] == s.groups && s.current + [messages[n]] <= all[|s.groups|].messages
  {
    var s := GroupingOf(messages[..n]);
    var next := GroupingOf(messages[..n + 1]);
    assert messages[..n + 1][..n] == messages[..n];
    if next.current == [] {
      GroupingGrows(messages, n + 1);
      assert Closed(s.(current := s.current + [messages[n]])) == next.groups;
      assert Groups(messages)[|s.groups|] == next.groups[|s.groups|];
    } else {
      OpenGroupStaysWhole(messages, n + 1);
    }
    GroupingGrows(messages, n);
  }

  /** A tool call is never grouped apart from what follows it in the same turn. */
  lemma ToolCallsStayWithResults(messages: seq<Row>, n: nat)
    requires 0 < n < |messages|
    requires (IsAssistant(messages[n - 1]) && messages[n - 1].toolCalls) || messages[n - 1].role == "tool"
    ensures IsBoundary(messages, n) <==> IsUser(messages[n])
  {
    BoundaryIff(messages, n);
    assert messages[..n][..n - 1] == messages[..n - 1];
  }

  // ---------------------------------------------------------------- selecting the prefix

  datatype Selection = Selection(fullWindow: seq<Row>, compactablePrefix: seq<Row>, retainedRecent: seq<Row>)

  function CompleteCount(groups: seq<Group>): nat {
    if |groups| == 0 then 0
    else CompleteCount(groups[..|groups| - 1]) + (if groups[|groups| - 1].complete then 1 else 0)
  }

  /** The index of the last message of each complete group. */
  function CompleteBoundaries(groups: seq<Group>): (r: seq<int>)
    ensures |r| == CompleteCount(groups)
  {
    if |groups| == 0 then []
    else CompleteBoundaries(groups[..|groups| - 1])
         + (if groups[|groups| - 1].complete then [|Messages(groups)| - 1] else [])
  }

  lemma BoundariesOfNone(groups: seq<Group>)
    requires groups == []
    ensures CompleteBoundaries(groups) == [] && Messages(groups) == []
  {
  }

  lemma BoundariesNext(groups: seq<Group>, i: nat)
    requires i < |groups|
    ensures |Messages(groups[..i + 1])| == |Messages(groups[..i])| + |groups[i].messages|
    ensures CompleteBoundaries(groups[..i + 1])
         == CompleteBoundaries(groups[..i]) + (if groups[i].complete then [|Messages(groups[..i + 1])| - 1] else [])
  {
    assert groups[..i + 1][..i] == groups[..i];
  }

  /** The k-th complete group: its end, and how many are complete up to it. */
  lemma {:induction false} BoundaryOf(groups: seq<Group>, k: nat) returns (g: nat)
    requires k < CompleteCount(groups)
    ensures g < |groups| && groups[g].complete
    ensures CompleteBoundaries(groups)[k] == |Messages(groups[..g + 1])| - 1
    ensures CompleteCount(groups[..g + 1]) == k + 1
  {
    var before := groups[..|groups| - 1];
    if k < CompleteCount(before) {
      g := BoundaryOf(before, k);
      assert groups[..g + 1] == before[..g + 1];
    } else {
      g := |groups| - 1;
      assert groups[..g + 1] == groups;
    }
  }

  lemma {:induction false} CompleteCountSplit(a: seq<Group>, b: seq<Group>)
    ensures CompleteCount(a + b) == CompleteCount(a) + CompleteCount(b)
  {
    if b == [] {
      assert a + b == a;
    } else {
      assert (a + b)[..|a + b| - 1] == a + b[..|b| - 1];
      CompleteCountSplit(a, b[..|b| - 1]);
    }
  }

  lemma {:induction false} MessagesPrefix(groups: seq<Group>, g: nat)
    requires g <= |groups|
    ensures Messages(groups[..g]) <= Messages(groups)
    decreases |groups|
  {
    if g == |groups| {
      assert groups[..g] == groups;
    } else {
      var before := groups[..|groups| - 1];
      assert groups[..g] == before[..g];
      MessagesPrefix(before, g);
    }
  }

  /** What is kept back are exactly the last `keep` complete turns and what follows them. */
  ghost predicate KeepsRecent(messages: seq<Row>, keep: nat, s: Selection) {
    var groups := Groups(messages);
    && s.fullWindow == messages && s.compactablePrefix + s.retainedRecent == messages
    && (if CompleteCount(groups) <= keep then s.compactablePrefix == []
        else exists g ::
          && 0 <= g < |groups| && groups[g].complete
          && s.compactablePrefix == Messages(groups[..g + 1])
          && CompleteCount(groups[g + 1..]) == keep)
  }

  method SelectCompactablePrefix(messages: seq<Row>, keepRecentTurns: nat) returns (s: Selection)
    ensures KeepsRecent(messages, keepRecentTurns, s)
    ensures s.compactablePrefix != [] ==>
      || IsFinalAnswer(s.compactablePrefix[|s.compactablePrefix| - 1])
      || IsMemory(s.compactablePrefix[|s.compactablePrefix| - 1])
  {
    hide Groups, GroupIsComplete, GroupOk, Messages, CompleteBoundaries, CompleteCount, IsFinalAnswer, IsMemory;
    var groups := AtomicHistoryGroups(messages);
    GroupsPartition(messages);
    BoundariesOfNone(groups[..0]);
    var completeBoundaries: seq<int> := [];
    var offset := 0;
    for i := 0 to |groups|
      invariant offset == |Messages(groups[..i])|
      invariant completeBoundaries == CompleteBoundaries(groups[..i])
    {
      BoundariesNext(groups, i);
      offset := offset + |groups[i].messages|;
      if groups[i].complete {
        completeBoundaries := completeBoundaries + [offset - 1];
      }
    }
    assert groups[..|groups|] == groups;
    var cutoff := -1;
    if |completeBoundaries| > keepRecentTurns {
      var k := |completeBoundaries| - keepRecentTurns - 1;
      cutoff := completeBoundaries[k];
      ghost var g := CutBehind(messages, keepRecentTurns);
      LastOfComplete(groups, g);
    }
    s := Selection(messages, messages[..cutoff + 1], messages[cutoff + 1..]);
  }

  /** The complete group behind which `keep` complete ones follow, and where it ends. */
  lemma CutBehind(messages: seq<Row>, keep: nat) returns (g: nat)
    requires CompleteCount(Groups(messages)) > keep
    ensures var groups := Groups(messages);
      && g < |groups| && groups[g].complete && CompleteCount(groups[g + 1..]) == keep
      && 0 <= CompleteBoundaries(groups)[CompleteCount(groups) - keep - 1] + 1 <= |messages|
      && messages[..CompleteBoundaries(groups)[CompleteCount(groups) - keep - 1] + 1] == Messages(groups[..g + 1])
  {
    hide Groups, GroupIsComplete, GroupOk, Messages, CompleteBoundaries, CompleteCount;
    var groups := Groups(messages);
    GroupsPartition(messages);
    g := BoundaryOf(groups, CompleteCount(groups) - keep - 1);
    MessagesPrefix(groups, g + 1);
    assert groups == groups[..g + 1] + groups[g + 1..];
    CompleteCountSplit(groups[..g + 1], groups[g + 1..]);
  }

  lemma LastOfComplete(groups: seq<Group>, g: nat)
    requires g < |groups| && GroupOk(groups[g]) && groups[g].complete
    ensures var prefix := Messages(groups[..g + 1]);
            prefix != [] && (IsFinalAnswer(prefix[|prefix| - 1]) || IsMemory(prefix[|prefix| - 1]))
  {
    assert groups[..g + 1] == groups[..g] + [groups[g]];
    MessagesOneMore(groups[..g], groups[g]);
  }

  // ---------------------------------------------------------------- bounding the prefix

  /** The longest run of affordable answers: the last answer-ended beginning before the first
      one whose prompt is over the input limit. `cost` counts the prompt's tokens. */
  function Affordable(prefix: seq<Row>, n: nat, best: nat, limit: nat, cost: seq<Row> -> nat): (r: nat)
    requires best <= n <= |prefix|
    ensures best <= r <= |prefix|
    decreases |prefix| - n
  {
    if n == |prefix| then best
    else if !IsAssistant(prefix[n]) then Affordable(prefix, n + 1, best, limit, cost)
    else if cost(prefix[..n + 1]) > limit then best
    else Affordable(prefix, n + 1, n + 1, limit, cost)
  }

  /** The selected prefix after the bound, if there is one. */
  function BoundedPrefix(prefix: seq<Row>, maxInputTokens: Option<nat>, cost: seq<Row> -> nat): seq<Row> {
    if maxInputTokens.None? then prefix else prefix[..Affordable(prefix, 0, 0, maxInputTokens.value, cost)]
  }

  method BoundSelection(s: Selection, maxInputTokens: Option<nat>, cost: seq<Row> -> nat) returns (r: Selection)
    requires s.compactablePrefix <= s.fullWindow
    requires s.retainedRecent == s.fullWindow[|s.compactablePrefix|..]
    ensures r.fullWindow == s.fullWindow
    ensures r.compactablePrefix == BoundedPrefix(s.compactablePrefix, maxInputTokens, cost)
    ensures r.compactablePrefix <= r.fullWindow && r.retainedRecent == r.fullWindow[|r.compactablePrefix|..]
  {
    if maxInputTokens.None? || s.compactablePrefix == [] {
      return s;
    }
    var prefix := s.compactablePrefix;
    var bounded: seq<Row> := [];
    for index := 0 to |prefix|
      invariant |bounded| <= index && bounded == prefix[..|bounded|]
      invariant Affordable(prefix, index, |bounded|, maxInputTokens.value, cost)
             == Affordable(prefix, 0, 0, maxInputTokens.value, cost)
    {
      if !IsAssistant(prefix[index]) {
        continue;
      }
      var candidate := prefix[..index + 1];
      if cost(candidate) > maxInputTokens.value {
        break;
      }
      bounded := candidate;
    }
    r := Selection(s.fullWindow, bounded, s.fullWindow[|bounded|..]);
  }

  lemma AffordableNext(prefix: seq<Row>, n: nat, best: nat, limit: nat, cost: seq<Row> -> nat)
    requires best <= n < |prefix|
    ensures Affordable(prefix, n, best, limit, cost)
         == if !IsAssistant(prefix[n]) then Affordable(prefix, n + 1, best, limit, cost)
            else if cost(prefix[..n + 1]) > limit then best
            else Affordable(prefix, n + 1, n + 1, limit, cost)
  {
  }

  /** Every answer-ended beginning of at most `r` messages is affordable. */
  predicate AllAffordable(prefix: seq<Row>, r: nat, limit: nat, cost: seq<Row> -> nat)
    requires r <= |prefix|
  {
    forall i :: 0 <= i < r && IsAssistant(prefix[i]) ==> cost(prefix[..i + 1]) <= limit
  }

  /** The first answer-ended beginning of more than `r` messages, if there is one, is not. */
  predicate NextIsTooMuch(prefix: seq<Row>, r: nat, limit: nat, cost: seq<Row> -> nat)
    requires r <= |prefix|
  {
    forall i :: r <= i < |prefix| && IsAssistant(prefix[i]) && NoAnswers(prefix, r, i) ==> cost(prefix[..i + 1]) > limit
  }

  predicate NoAnswers(prefix: seq<Row>, from: nat, until: nat)
    requires from <= until <= |prefix|
  {
    forall i :: from <= i < until ==> !IsAssistant(prefix[i])
  }

  /** What bounding promises, whatever the cost function: the prompt of every answer-ended
      beginning up to the result is affordable, the result ends with an answer, and the next
      answer-ended beginning, if there is one, is not affordable. */
  lemma {:induction false} AffordableIsMaximal(prefix: seq<Row>, n: nat, best: nat, limit: nat, cost: seq<Row> -> nat)
    requires best <= n <= |prefix| && NoAnswers(prefix, best, n) && AllAffordable(prefix, best, limit, cost)
    requires best > 0 ==> IsAssistant(prefix[best - 1])
    ensures var r := Affordable(prefix, n, best, limit, cost);
      && AllAffordable(prefix, r, limit, cost) && NextIsTooMuch(prefix, r, limit, cost)
      && (r > 0 ==> IsAssistant(prefix[r - 1]))
    decreases |prefix| - n
  {
    hide IsAssistant, AllAffordable, NextIsTooMuch, NoAnswers;
    if n == |prefix| {
      NoneLeft(prefix, best, limit, cost);
    } else {
      hide Affordable;
      AffordableNext(prefix, n, best, limit, cost);
      NoAnswersNext(prefix, best, n);
      if !IsAssistant(prefix[n]) {
        AffordableIsMaximal(prefix, n + 1, best, limit, cost);
      } else if cost(prefix[..n + 1]) <= limit {
        OneMoreAffordable(prefix, best, n, limit, cost);
        AffordableIsMaximal(prefix, n + 1, n + 1, limit, cost);
      } else {
        FirstTooMuch(prefix, best, n, limit, cost);
      }
    }
  }

  lemma NoneLeft(prefix: seq<Row>, best: nat, limit: nat, cost: seq<Row> -> nat)
    requires best <= |prefix| && NoAnswers(prefix, best, |prefix|)
    ensures NextIsTooMuch(prefix, best, limit, cost)
  {
  }

  lemma NoAnswersNext(prefix: seq<Row>, from: nat, n: nat)
    requires from <= n < |prefix| && NoAnswers(prefix, from, n)
    ensures !IsAssistant(prefix[n]) ==> NoAnswers(prefix, from, n + 1)
    ensures NoAnswers(prefix, n + 1, n + 1)
  {
    hide IsAssistant;
  }

  lemma OneMoreAffordable(prefix: seq<Row>, best: nat, n: nat, limit: nat, cost: seq<Row> -> nat)
    requires best <= n < |prefix| && NoAnswers(prefix, best, n) && AllAffordable(prefix, best, limit, cost)
    requires cost(prefix[..n + 1]) <= limit
    ensures AllAffordable(prefix, n + 1, limit, cost)
  {
    hide IsAssistant;
  }

  lemma FirstTooMuch(prefix: seq<Row>, best: nat, n: nat, limit: nat, cost: seq<Row> -> nat)
    requires best <= n < |prefix| && NoAnswers(prefix, best, n) && IsAssistant(prefix[n])
         && cost(prefix[..n + 1]) > limit
    ensures NextIsTooMuch(prefix, best, limit, cost)
  {
    hide IsAssistant;
  }

  /** Behind an answer a group ends exactly when it called no tools or a question comes next. */
  lemma AnswerEndsGroupIff(messages: seq<Row>, n: nat)
    requires 0 < n < |messages| && IsAssistant(messages[n - 1])
    ensures IsBoundary(messages, n) <==> !messages[n - 1].toolCalls || IsUser(messages[n])
  {
    if messages[n - 1].toolCalls {
      ToolCallsStayWithResults(messages, n);
    } else {
      BoundaryIff(messages, n);
      assert messages[..n][..n - 1] == messages[..n - 1];
    }
  }

  /** No answer of the prefix that calls tools is followed by anything but a question. */
  predicate CallsAreLast(prefix: seq<Row>) {
    forall i :: 0 <= i < |prefix| - 1 && IsAssistant(prefix[i]) && prefix[i].toolCalls ==> IsUser(prefix[i + 1])
  }

  /** The bound looks for any answer, not for a finished one. So for every input limit and every
      way of counting tokens the bounded prefix of a selection is whole groups, if and only if no
      answer in the selected prefix that calls tools is followed by anything but a question. */
  lemma BoundKeepsGroupsIff(messages: seq<Row>, keep: nat, s: Selection)
    requires KeepsRecent(messages, keep, s)
    ensures (forall maxInputTokens: Option<nat>, cost: seq<Row> -> nat ::
              IsBoundary(messages, |BoundedPrefix(s.compactablePrefix, maxInputTokens, cost)|))
       <==> CallsAreLast(s.compactablePrefix)
  {
    hide KeepsRecent, IsBoundary, IsAssistant, IsUser, BoundedPrefix;
    var prefix := s.compactablePrefix;
    SelectedEnd(messages, keep, s);
    if CallsAreLast(prefix) {
      forall maxInputTokens: Option<nat>, cost: seq<Row> -> nat
        ensures IsBoundary(messages, |BoundedPrefix(prefix, maxInputTokens, cost)|)
      {
        BoundKeepsGroups(messages, prefix, maxInputTokens, cost);
      }
    } else {
      var i :| 0 <= i < |prefix| - 1 && IsAssistant(prefix[i]) && prefix[i].toolCalls && !IsUser(prefix[i + 1]);
      var cost: seq<Row> -> nat := rows => |rows|;
      BoundAt(prefix, i, cost);
      AnswerEndsGroupIff(messages, i + 1);
      assert !IsBoundary(messages, |BoundedPrefix(prefix, Some(i + 1), cost)|);
    }
  }

  /** A selected prefix is whole groups of the window and does not end with a tool call. */
  lemma SelectedEnd(messages: seq<Row>, keep: nat, s: Selection)
    requires KeepsRecent(messages, keep, s)
    ensures s.compactablePrefix <= messages && IsBoundary(messages, |s.compactablePrefix|) && IsBoundary(messages, 0)
    ensures s.compactablePrefix != [] ==>
      var last := s.compactablePrefix[|s.compactablePrefix| - 1]; !(IsAssistant(last) && last.toolCalls)
  {
    hide Groups, GroupIsComplete, GroupOk, Messages, CompleteCount, IsBoundary, IsAssistant, IsFinalAnswer, IsMemory;
    var groups := Groups(messages);
    FirstGroups(messages, 0);
    NoGroups();
    assert groups[..0] == [];
    if CompleteCount(groups) > keep {
      var g :| 0 <= g < |groups| && groups[g].complete
        && s.compactablePrefix == Messages(groups[..g + 1]) && CompleteCount(groups[g + 1..]) == keep;
      GroupsPartition(messages);
      LastOfComplete(groups, g);
      FirstGroups(messages, g + 1);
      NotACall(s.compactablePrefix[|s.compactablePrefix| - 1]);
    }
  }

  lemma NotACall(m: Row)
    requires IsFinalAnswer(m) || IsMemory(m)
    ensures !(IsAssistant(m) && m.toolCalls)
  {
  }

  /** Whole groups from the start are a beginning of the messages, and end at a boundary. */
  lemma FirstGroups(messages: seq<Row>, g: nat)
    requires g <= |Groups(messages)|
    ensures Messages(Groups(messages)[..g]) <= messages && IsBoundary(messages, |Messages(Groups(messages)[..g])|)
  {
    hide Groups, Messages, GroupOk;
    GroupsPartition(messages);
    MessagesPrefix(Groups(messages), g);
  }

  lemma BoundKeepsGroups(messages: seq<Row>, prefix: seq<Row>, maxInputTokens: Option<nat>, cost: seq<Row> -> nat)
    requires prefix <= messages && IsBoundary(messages, |prefix|) && IsBoundary(messages, 0) && CallsAreLast(prefix)
    ensures IsBoundary(messages, |BoundedPrefix(prefix, maxInputTokens, cost)|)
  {
    hide IsBoundary, IsAssistant, IsUser, Affordable;
    var n := |BoundedPrefix(prefix, maxInputTokens, cost)|;
    if 0 < n < |prefix| {
      AffordableIsMaximal(prefix, 0, 0, maxInputTokens.value, cost);
      AnswerEndsGroupIff(messages, n);
    }
  }

  /** With one token a message and `i + 1` tokens to spend, the prefix is cut behind the answer `i`. */
  lemma BoundAt(prefix: seq<Row>, i: nat, cost: seq<Row> -> nat)
    requires i < |prefix| && IsAssistant(prefix[i]) && forall rows :: cost(rows) == |rows|
    ensures |BoundedPrefix(prefix, Some(i + 1), cost)| == i + 1
  {
    hide IsAssistant, Affordable;
    AffordableIsMaximal(prefix, 0, 0, i + 1, cost);
    var r := Affordable(prefix, 0, 0, i + 1, cost);
    assert r > 0 ==> cost(prefix[..r - 1 + 1]) == r;
    if r <= i {
      var j := NextAnswer(prefix, r, i);
    }
  }

  lemma NextAnswer(prefix: seq<Row>, from: nat, i: nat) returns (j: nat)
    requires from <= i < |prefix| && IsAssistant(prefix[i])
    ensures from <= j <= i && IsAssistant(prefix[j]) && forall k :: from <= k < j ==> !IsAssistant(prefix[k])
    decreases i - from
  {
    if IsAssistant(prefix[from]) {
      j := from;
    } else {
      j := NextAnswer(prefix, from + 1, i);
    }
  }

  /** Stored messages carry no tool calls, so a compaction of them never parts a group. */
  lemma StoredMessagesStayWhole(messages: seq<Row>, keep: nat, s: Selection, maxInputTokens: Option<nat>,
                                cost: seq<Row> -> nat)
    requires KeepsRecent(messages, keep, s) && forall m :: m in messages ==> !m.toolCalls
    ensures IsBoundary(messages, |BoundedPrefix(s.compactablePrefix, maxInputTokens, cost)|)
  {
    hide KeepsRecent, IsBoundary, BoundedPrefix;
    SelectedEnd(messages, keep, s);
    assert forall i :: 0 <= i < |s.compactablePrefix| ==> s.compactablePrefix[i] == messages[i];
    BoundKeepsGroups(messages, s.compactablePrefix, maxInputTokens, cost);
  }

  const TOOL_TURN: seq<Row> := [
    Row(1, "user", false, "q"), Row(2, "assistant", true, ""), Row(3, "tool", false, "r"),
    Row(4, "assistant", false, "a")]

  lemma ToolTurnIsOneGroup()
    ensures Groups(TOOL_TURN) == [Group(TOOL_TURN, true)]
  {
    hide GroupingOf, Grouped;
    var m := TOOL_TURN;
    NoMessages(m);
    ToolTurnSteps(m[0], m[1], m[2], m[3]);
    GroupingNext(m, 0);
    GroupingNext(m, 1);
    GroupingNext(m, 2);
    GroupingNext(m, 3);
    assert m[..4] == m == [m[0], m[1], m[2], m[3]];
  }

  lemma ToolTurnSteps(q: Row, call: Row, result: Row, a: Row)
    requires q.role == "user" && call.role == "assistant" && call.toolCalls
    requires result.role == "tool" && a.role == "assistant" && !a.toolCalls
    ensures Grouped(Grouping([], [], false), q) == Grouping([], [q], false)
    ensures Grouped(Grouping([], [q], false), call) == Grouping([], [q, call], true)
    ensures Grouped(Grouping([], [q, call], true), result) == Grouping([], [q, call, result], true)
    ensures Grouped(Grouping([], [q, call, result], true), a) == Grouping([Group([q, call, result, a], true)], [], false)
  {
    assert [] + [q] == [q] && [q] + [call] == [q, call] && [q, call] + [result] == [q, call, result];
    assert [q, call, result] + [a] == [q, call, result, a];
  }

  lemma NoMessages(messages: seq<Row>)
    ensures GroupingOf(messages[..0]) == Grouping([], [], false)
  {
  }

  /** A finished turn of which only the first two messages are affordable is cut between a tool
      call and its result. */
  lemma BoundCanPartToolCall(cost: seq<Row> -> nat)
    requires forall prefix :: cost(prefix) == |prefix|
    ensures Groups(TOOL_TURN) == [Group(TOOL_TURN, true)]
    ensures Affordable(TOOL_TURN, 0, 0, 2, cost) == 2
    ensures TOOL_TURN[1].toolCalls && TOOL_TURN[2].role == "tool" && !IsBoundary(TOOL_TURN, 2)
  {
    hide Groups, IsBoundary, GroupingOf;
    ToolTurnIsOneGroup();
    ToolCallsStayWithResults(TOOL_TURN, 2);
    assert Affordable(TOOL_TURN, 3, 2, 2, cost) == 2;
    assert Affordable(TOOL_TURN, 2, 2, 2, cost) == 2;
    assert Affordable(TOOL_TURN, 1, 0, 2, cost) == 2;
  }
}

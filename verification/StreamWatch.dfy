/** scripts/verify_answer_streaming_contract.py: watching an answer stream as it arrives, and
    checking the whole stream afterwards.

    `FirstAnswerWatch` is fed network chunks and keeps the unfinished last line between them;
    `analyze_wire` sees the stream in one piece. The two must notice the same first answer. */
module StreamWatch {
  import opened Options
  import opened Json

  /** `json.loads`; None stands for a JSONDecodeError. */
  type Parser = string -> Option<Value>

  // ---------------------------------------------------------------- lines

  /** `s.split("\n")`: always at least one line, the last one unfinished. */
  function Lines(s: string): (lines: seq<string>)
    ensures |lines| >= 1
  {
    if s == "" then [""]
    else if s[0] == '\n' then [""] + Lines(s[1..])
    else var rest := Lines(s[1..]); [[s[0]] + rest[0]] + rest[1..]
  }

  function Complete(s: string): seq<string> {
    Lines(s)[..|Lines(s)| - 1]
  }

  function Pending(s: string): string {
    Lines(s)[|Lines(s)| - 1]
  }

  lemma LinesOfCons(s: string)
    requires s != ""
    ensures var c, complete := s[0], Complete(s[1..]);
      && Pending(s) == (if c != '\n' && complete == [] then [c] else "") + Pending(s[1..])
      && Complete(s) == if c == '\n' then [""] + complete
                        else if complete == [] then [] else [[c] + complete[0]] + complete[1..]
  {
    var rest := Lines(s[1..]);
    if s[0] == '\n' {
      assert Complete(s) == [""] + Complete(s[1..]);
    } else if |rest| > 1 {
      assert Lines(s)[0] == [s[0]] + rest[0];
      assert Complete(s) == [[s[0]] + rest[0]] + rest[1..|rest| - 1];
      assert Complete(s[1..])[0] == rest[0] && Complete(s[1..])[1..] == rest[1..|rest| - 1];
    } else {
      assert Complete(s) == [];
    }
  }

  lemma LinesOfPrepend(c: char, s: string)
    ensures Lines([c] + s) == if c == '\n' then [""] + Lines(s) else [[c] + Lines(s)[0]] + Lines(s)[1..]
  {
    assert ([c] + s)[1..] == s;
  }

  /** Splitting can be resumed from the unfinished line alone. */
  lemma {:induction false} LinesResume(a: string, b: string)
    ensures Lines(a + b) == Complete(a) + Lines(Pending(a) + b)
  {
    if a == "" {
      EmptyLines();
      assert Complete("") == [] && Pending("") + b == b && a + b == b;
    } else {
      LinesResume(a[1..], b);
      LinesResumeCons(a, b);
    }
  }

  lemma LinesResumeCons(a: string, b: string)
    requires a != "" && Lines(a[1..] + b) == Complete(a[1..]) + Lines(Pending(a[1..]) + b)
    ensures Lines(a + b) == Complete(a) + Lines(Pending(a) + b)
  {
    hide Lines, Complete, Pending;
    var complete, tail := Complete(a[1..]), Lines(Pending(a[1..]) + b);
    LinesOfCons(a);
    LinesOfPrepend(a[0], a[1..] + b);
    ConsAppend(a[0], a[1..], b);
    assert a == [a[0]] + a[1..];
    if a[0] == '\n' {
      assert Pending(a) == Pending(a[1..]);
      ConsAppend("", complete, tail);
    } else if complete == [] {
      LinesOfPrepend(a[0], Pending(a[1..]) + b);
      ConsAppend(a[0], Pending(a[1..]), b);
      assert complete + tail == tail && Complete(a) + Lines(Pending(a) + b) == Lines(Pending(a) + b);
    } else {
      assert Pending(a) == Pending(a[1..]);
      LongerFirst(a[0], complete, tail);
    }
  }

  lemma ConsAppend<T>(x: T, a: seq<T>, b: seq<T>)
    ensures ([x] + a) + b == [x] + (a + b)
  {
  }

  lemma LongerFirst(c: char, lines: seq<string>, more: seq<string>)
    requires lines != []
    ensures [[c] + (lines + more)[0]] + (lines + more)[1..] == ([[c] + lines[0]] + lines[1..]) + more
  {
  }

  lemma FeedingResumes(a: string, b: string)
    ensures Complete(a + b) == Complete(a) + Complete(Pending(a) + b)
    ensures Pending(a + b) == Pending(Pending(a) + b)
  {
    LinesResume(a, b);
  }

  // ---------------------------------------------------------------- frames

  const DATA := "data: "

  predicate IsDataLine(line: string) {
    DATA <= line
  }

  function Payload(line: string): string
    requires IsDataLine(line)
  {
    line[|DATA|..]
  }

  function Kind(frame: Value): Option<Value>
    requires frame.Obj?
  {
    Get(frame.fields, "type")
  }

  predicate IsKind(frame: Value, kind: string)
    requires frame.Obj?
  {
    Kind(frame) == Some(Str(kind))
  }

  /** The frame's `data` object; anything else counts as an empty one. */
  function Data(frame: Value): seq<Field>
    requires frame.Obj?
  {
    match Get(frame.fields, "data")
    case Some(Obj(fields)) => fields
    case _ => []
  }

  predicate IsAnswerFrame(frame: Value)
    requires frame.Obj?
  {
    || IsKind(frame, "text-delta")
    || (IsKind(frame, "data-answer-preview")
        && (Get(Data(frame), "operation") == Some(Str("replace"))
            || Get(Data(frame), "operation") == Some(Str("append"))))
  }

  /** A complete line that carries an answer frame. */
  predicate IsAnswerLine(line: string, parse: Parser) {
    && IsDataLine(line) && Payload(line) != "[DONE]"
    && var frame := parse(Payload(line));
       frame.Some? && frame.value.Obj? && IsAnswerFrame(frame.value)
  }

  predicate HasAnswer(lines: seq<string>, parse: Parser) {
    exists i :: 0 <= i < |lines| && IsAnswerLine(lines[i], parse)
  }

  lemma HasAnswerConcat(a: seq<string>, b: seq<string>, parse: Parser)
    ensures HasAnswer(a + b, parse) <==> HasAnswer(a, parse) || HasAnswer(b, parse)
  {
    if HasAnswer(a, parse) {
      var i :| 0 <= i < |a| && IsAnswerLine(a[i], parse);
      assert (a + b)[i] == a[i];
    }
    if HasAnswer(b, parse) {
      var i :| 0 <= i < |b| && IsAnswerLine(b[i], parse);
      assert (a + b)[|a| + i] == b[i];
    }
  }

  lemma HasAnswerSingle(line: string, parse: Parser)
    ensures HasAnswer([line], parse) <==> IsAnswerLine(line, parse)
  {
    assert [line][0] == line;
  }

  // ---------------------------------------------------------------- the watch

  datatype Watch = Watch(pending: string, seen: bool)

  /** What one chunk does to a watch, and whether it is the chunk that completes the first answer. */
  function Fed(w: Watch, text: string, parse: Parser): (Watch, bool) {
    if w.seen then (w, false)
    else
      var all := w.pending + text;
      var hit := HasAnswer(Complete(all), parse);
      (Watch(Pending(all), hit), hit)
  }

  class FirstAnswerWatch {
    var pending: string
    var seen: bool
    const parse: Parser

    ghost function View(): Watch
      reads this
    {
      Watch(pending, seen)
    }

    constructor (parse: Parser)
      ensures View() == Watch("", false) && this.parse == parse
    {
      this.parse := parse;
      pending, seen := "", false;
    }

    method Feed(text: string) returns (hit: bool)
      modifies this
      ensures (View(), hit) == Fed(old(View()), text, parse)
    {
      hide Lines, IsAnswerFrame;
      if seen {
        return false;
      }
      var lines := Lines(pending + text);
      var complete := lines[..|lines| - 1];
      pending := lines[|lines| - 1];
      for i := 0 to |complete|
        invariant forall j :: 0 <= j < i ==> !IsAnswerLine(complete[j], parse)
        invariant !seen && pending == Pending(old(pending) + text)
      {
        var line := complete[i];
        if !IsDataLine(line) || Payload(line) == "[DONE]" {
          continue;
        }
        var frame := parse(Payload(line));
        if frame.None? {
          continue;
        }
        if frame.value.Obj? && IsAnswerFrame(frame.value) {
          assert IsAnswerLine(complete[i], parse);
          seen := true;
          return true;
        }
      }
      return false;
    }
  }

  // ---------------------------------------------------------------- runs of the watch

  function Concat(chunks: seq<string>): string {
    if |chunks| == 0 then "" else Concat(chunks[..|chunks| - 1]) + chunks[|chunks| - 1]
  }

  /** The watch after a run of chunks. */
  function Watched(chunks: seq<string>, parse: Parser): Watch {
    if |chunks| == 0 then Watch("", false)
    else Fed(Watched(chunks[..|chunks| - 1], parse), chunks[|chunks| - 1], parse).0
  }

  /** What `feed` answered for chunk `i` of a run. */
  predicate Reported(chunks: seq<string>, i: nat, parse: Parser)
    requires i < |chunks|
  {
    Fed(Watched(chunks[..i], parse), chunks[i], parse).1
  }

  /** What the watch knows depends on the text fed so far only, not on how it was split. */
  lemma {:induction false} WatchIgnoresChunking(chunks: seq<string>, parse: Parser)
    ensures var w := Watched(chunks, parse);
      && (w.seen <==> HasAnswer(Complete(Concat(chunks)), parse))
      && (!w.seen ==> w.pending == Pending(Concat(chunks)))
  {
    hide Lines, IsAnswerLine;
    if chunks == [] {
      assert Lines("") == [""] by {
        EmptyLines();
      }
    } else {
      var before, last := chunks[..|chunks| - 1], chunks[|chunks| - 1];
      WatchIgnoresChunking(before, parse);
      FeedingResumes(Concat(before), last);
      HasAnswerConcat(Complete(Concat(before)), Complete(Pending(Concat(before)) + last), parse);
    }
  }

  lemma EmptyLines()
    ensures Lines("") == [""]
  {
  }

  /** `feed` answers True on exactly one chunk: the one that completes the first answer line. */
  lemma ReportedOnFirstAnswer(chunks: seq<string>, i: nat, parse: Parser)
    requires i < |chunks|
    ensures Reported(chunks, i, parse)
      <==> !HasAnswer(Complete(Concat(chunks[..i])), parse) && HasAnswer(Complete(Concat(chunks[..i + 1])), parse)
  {
    hide Lines, IsAnswerLine;
    WatchIgnoresChunking(chunks[..i], parse);
    WatchIgnoresChunking(chunks[..i + 1], parse);
    assert chunks[..i + 1][..i] == chunks[..i];
  }

  lemma {:induction false} SeenStays(chunks: seq<string>, i: nat, parse: Parser)
    requires i <= |chunks| && Watched(chunks[..i], parse).seen
    ensures Watched(chunks, parse).seen
    decreases |chunks| - i
  {
    if i == |chunks| {
      assert chunks[..i] == chunks;
    } else {
      assert chunks[..i + 1][..i] == chunks[..i];
      SeenStays(chunks, i + 1, parse);
    }
  }

  lemma ReportedAtMostOnce(chunks: seq<string>, i: nat, j: nat, parse: Parser)
    requires i < j < |chunks| && Reported(chunks, i, parse)
    ensures !Reported(chunks, j, parse)
  {
    assert chunks[..j][..i + 1] == chunks[..i + 1];
    assert chunks[..i + 1][..i] == chunks[..i];
    SeenStays(chunks[..j], i + 1, parse);
  }

  // ---------------------------------------------------------------- the whole wire

  datatype Problem =
    | MisplacedDone(found: nat)
    | NotJson(index: nat)
    | RawHeartbeat(index: nat)
    | ForeignKeys(index: nat)
    | ManyReconciles(found: nat)

  datatype Report = Report(
    problems: seq<Problem>, messageId: Option<Value>, reconciles: nat, finishReason: Option<Value>,
    errorCode: Option<Value>, firstAnswerIndex: Option<nat>, frames: nat, visibleAnswer: string)

  function DataLines(wire: string): seq<string> {
    Payloads(Lines(wire))
  }

  function Payloads(lines: seq<string>): seq<string> {
    if |lines| == 0 then []
    else (if IsDataLine(lines[0]) then [Payload(lines[0])] else []) + Payloads(lines[1..])
  }

  /** Text of a frame's field; a field that is missing counts as empty. */
  function TextField(fields: seq<Field>, key: string): string {
    match Get(fields, key)
    case Some(Str(s)) => s
    case _ => ""
  }

  predicate OnlyKeys(fields: seq<Field>, allowed: set<string>) {
    forall i :: 0 <= i < |fields| ==> fields[i].key in allowed
  }

  function FrameProblems(index: nat, frame: Value): seq<Problem>
    requires frame.Obj?
  {
    if IsKind(frame, "heartbeat") then [RawHeartbeat(index)]
    else if || (IsKind(frame, "error") && !OnlyKeys(frame.fields, {"type", "errorText"}))
            || (IsKind(frame, "tool-output-available")
                && !OnlyKeys(frame.fields,
                             {"type", "toolCallId", "output", "providerExecuted", "dynamic", "preliminary"}))
            || (IsKind(frame, "finish") && !OnlyKeys(frame.fields, {"type", "finishReason", "messageMetadata"}))
    then [ForeignKeys(index)]
    else []
  }

  function Recorded(report: Report, index: nat, frame: Value): Report
    requires frame.Obj?
  {
    var r :=
      if IsKind(frame, "start") then report.(messageId := Get(frame.fields, "messageId"))
      else if IsKind(frame, "data-answer-reconcile") then report.(reconciles := report.reconciles + 1)
      else if IsKind(frame, "data-stream-error") then report.(errorCode := Get(Data(frame), "errorCode"))
      else if IsKind(frame, "finish") then report.(finishReason := Get(frame.fields, "finishReason"))
      else report;
    if IsAnswerFrame(frame) && r.firstAnswerIndex.None? then r.(firstAnswerIndex := Some(index)) else r
  }

  // ---------------------------------------------------------------- the frontend's view

  datatype Shown = Shown(sdkText: string, repair: Option<string>, authoritative: Option<string>)

  function Applied(s: Shown, frame: Value): Shown
    requires frame.Obj?
  {
    if IsKind(frame, "text-delta") then s.(sdkText := s.sdkText + TextField(frame.fields, "delta"))
    else if IsKind(frame, "data-answer-reconcile") then
      s.(authoritative := Some(TextField(Data(frame), "content")), repair := None)
    else if IsKind(frame, "data-answer-preview") && s.authoritative.None? then
      var operation := Get(Data(frame), "operation");
      var text := TextField(Data(frame), "text");
      if operation == Some(Str("replace")) then s.(repair := Some(text))
      else if operation == Some(Str("append")) then
        s.(repair := Some((if s.repair.Some? then s.repair.value else "") + text))
      else if operation == Some(Str("clear")) then s.(repair := None)
      else s
    else s
  }

  function Visible(s: Shown): string {
    if s.authoritative.Some? then s.authoritative.value
    else if s.repair.Some? then s.repair.value else s.sdkText
  }

  class AnswerReducer {
    var sdkText: string
    var repair: Option<string>
    var authoritative: Option<string>

    ghost function View(): Shown
      reads this
    {
      Shown(sdkText, repair, authoritative)
    }

    constructor ()
      ensures View() == Shown("", None, None)
    {
      sdkText, repair, authoritative := "", None, None;
    }

    method Apply(frame: Value)
      requires frame.Obj?
      modifies this
      ensures View() == Applied(old(View()), frame)
    {
      if IsKind(frame, "text-delta") {
        sdkText := sdkText + TextField(frame.fields, "delta");
      } else if IsKind(frame, "data-answer-reconcile") {
        authoritative := Some(TextField(Data(frame), "content"));
        repair := None;
      } else if IsKind(frame, "data-answer-preview") && authoritative.None? {
        Preview(Data(frame));
      }
    }

    method Preview(data: seq<Field>)
      modifies this`repair
      ensures repair ==
        var operation := Get(data, "operation");
        if operation == Some(Str("replace")) then Some(TextField(data, "text"))
        else if operation == Some(Str("append"))
        then Some((if old(repair).Some? then old(repair).value else "") + TextField(data, "text"))
        else if operation == Some(Str("clear")) then None
        else old(repair)
    {
      var operation := Get(data, "operation");
      if operation == Some(Str("replace")) {
        repair := Some(TextField(data, "text"));
      } else if operation == Some(Str("append")) {
        repair := Some((if repair.Some? then repair.value else "") + TextField(data, "text"));
      } else if operation == Some(Str("clear")) {
        repair := None;
      }
    }
  }

  predicate AllFrames(frames: seq<Value>) {
    forall i :: 0 <= i < |frames| ==> frames[i].Obj?
  }

  function Reduced(frames: seq<Value>): Shown
    requires AllFrames(frames)
  {
    if |frames| == 0 then Shown("", None, None)
    else Applied(Reduced(frames[..|frames| - 1]), frames[|frames| - 1])
  }

  predicate NoReconcile(frames: seq<Value>)
    requires AllFrames(frames)
  {
    forall i :: 0 <= i < |frames| ==> !IsKind(frames[i], "data-answer-reconcile")
  }

  /** All answer text the SDK was given, in order. */
  function Deltas(frames: seq<Value>): string
    requires AllFrames(frames)
  {
    if |frames| == 0 then ""
    else
      var last := frames[|frames| - 1];
      Deltas(frames[..|frames| - 1]) + (if IsKind(last, "text-delta") then TextField(last.fields, "delta") else "")
  }

  /** The overlay the previews alone describe. */
  function Overlay(frames: seq<Value>): Option<string>
    requires AllFrames(frames)
  {
    if |frames| == 0 then None
    else
      var last, before := frames[|frames| - 1], frames[..|frames| - 1];
      if !IsKind(last, "data-answer-preview") then Overlay(before)
      else if Get(Data(last), "operation") == Some(Str("replace")) then Some(TextField(Data(last), "text"))
      else if Get(Data(last), "operation") == Some(Str("append")) then
        Some((match Overlay(before) case Some(s) => s case None => "") + TextField(Data(last), "text"))
      else if Get(Data(last), "operation") == Some(Str("clear")) then None
      else Overlay(before)
  }

  lemma {:induction false} ReducedWithoutReconcile(frames: seq<Value>)
    requires AllFrames(frames) && NoReconcile(frames)
    ensures Reduced(frames) == Shown(Deltas(frames), Overlay(frames), None)
  {
    hide Get, TextField;
    if frames != [] {
      var before := frames[..|frames| - 1];
      assert NoReconcile(before);
      ReducedWithoutReconcile(before);
    }
  }

  /** The last reconcile decides what is shown, whatever streams after it; before any reconcile
      it is the overlay of the previews, and without one the streamed text. */
  lemma {:induction false} LastReconcileDecides(before: seq<Value>, reconcile: Value, later: seq<Value>)
    requires AllFrames(before) && reconcile.Obj? && IsKind(reconcile, "data-answer-reconcile")
    requires AllFrames(later) && NoReconcile(later)
    ensures AllFrames(before + [reconcile] + later)
    ensures Visible(Reduced(before + [reconcile] + later)) == TextField(Data(reconcile), "content")
    ensures Reduced(before + [reconcile] + later).authoritative.Some?
  {
    hide Get, TextField;
    var all := before + [reconcile] + later;
    if later == [] {
      assert all == before + [reconcile] && all[..|all| - 1] == before;
    } else {
      var rest := later[..|later| - 1];
      assert all[..|all| - 1] == before + [reconcile] + rest;
      LastReconcileDecides(before, reconcile, rest);
    }
  }

  lemma VisibleWithoutReconcile(frames: seq<Value>)
    requires AllFrames(frames) && NoReconcile(frames)
    ensures Visible(Reduced(frames)) == match Overlay(frames) case Some(text) => text case None => Deltas(frames)
  {
    ReducedWithoutReconcile(frames);
  }

  // ---------------------------------------------------------------- analysing the wire

  /** The frames of the wire: data lines other than [DONE] that are JSON. */
  function Frames(raws: seq<string>, parse: Parser): seq<Value> {
    if |raws| == 0 then []
    else
      var raw := raws[|raws| - 1];
      var before := Frames(raws[..|raws| - 1], parse);
      if raw == "[DONE]" || parse(raw).None? then before else before + [parse(raw).value]
  }

  function DoneCount(raws: seq<string>): nat {
    if |raws| == 0 then 0 else DoneCount(raws[..|raws| - 1]) + (if raws[|raws| - 1] == "[DONE]" then 1 else 0)
  }

  /** `first` is the index of the first answer among the first `n` payloads. */
  predicate IsFirstAnswer(first: Option<nat>, raws: seq<string>, n: nat, parse: Parser)
    requires n <= |raws|
  {
    match first
    case Some(i) =>
      i < n && IsAnswerPayload(raws[i], parse) && forall j :: 0 <= j < i ==> !IsAnswerPayload(raws[j], parse)
    case None => forall j :: 0 <= j < n ==> !IsAnswerPayload(raws[j], parse)
  }

  predicate DoneIsPlaced(raws: seq<string>) {
    DoneCount(raws) == 1 && raws != [] && raws[|raws| - 1] == "[DONE]"
  }

  /** A frame the source can look at: an object, of a kind and with an operation that can be looked
      up in a set. Any other makes it raise. */
  predicate IsSound(frame: Value) {
    && frame.Obj? && IsHashable(Kind(frame))
    && (IsKind(frame, "data-answer-preview") ==> IsHashable(Get(Data(frame), "operation")))
  }

  predicate IsHashable(v: Option<Value>) {
    v.Some? ==> !v.value.Arr? && !v.value.Obj?
  }

  predicate AllSound(frames: seq<Value>) {
    forall i :: 0 <= i < |frames| ==> IsSound(frames[i])
  }

  /** What is wrong with one payload. */
  function PayloadProblems(raws: seq<string>, i: nat, parse: Parser): seq<Problem>
    requires i < |raws|
  {
    if raws[i] == "[DONE]" then []
    else match parse(raws[i])
      case None => [NotJson(i)]
      case Some(frame) => if frame.Obj? then FrameProblems(i, frame) else []
  }

  /** What is wrong with the first `n` payloads, in their order. */
  function ProblemsOf(raws: seq<string>, n: nat, parse: Parser): seq<Problem>
    requires n <= |raws|
  {
    if n == 0 then [] else ProblemsOf(raws, n - 1, parse) + PayloadProblems(raws, n - 1, parse)
  }

  function CountOf(frames: seq<Value>, kind: string): nat
    requires AllFrames(frames)
  {
    if |frames| == 0 then 0
    else CountOf(frames[..|frames| - 1], kind) + (if IsKind(frames[|frames| - 1], kind) then 1 else 0)
  }

  /** The last frame of a kind, or an empty one. */
  function LastOf(frames: seq<Value>, kind: string): (frame: Value)
    requires AllFrames(frames)
    ensures frame.Obj?
  {
    if |frames| == 0 then Obj([])
    else if IsKind(frames[|frames| - 1], kind) then frames[|frames| - 1]
    else LastOf(frames[..|frames| - 1], kind)
  }

  /** What a report says of the frames seen so far. */
  predicate TellsOf(report: Report, frames: seq<Value>)
    requires AllFrames(frames)
  {
    && report.frames == |frames|
    && report.reconciles == CountOf(frames, "data-answer-reconcile")
    && report.messageId == Get(LastOf(frames, "start").fields, "messageId")
    && report.finishReason == Get(LastOf(frames, "finish").fields, "finishReason")
    && report.errorCode == Get(Data(LastOf(frames, "data-stream-error")), "errorCode")
  }

  lemma TellsOfNext(report: Report, frames: seq<Value>, index: nat, frame: Value, problems: seq<Problem>)
    requires AllFrames(frames) && TellsOf(report, frames) && frame.Obj?
    ensures AllFrames(frames + [frame])
    ensures TellsOf(Recorded(report.(frames := report.frames + 1, problems := problems), index, frame),
                    frames + [frame])
  {
    hide IsAnswerFrame, Get, IsKind, CountOf, LastOf, Data;
    KindsDiffer(frame);
    CountMore(frames, frame, "data-answer-reconcile");
    LastMore(frames, frame, "start");
    LastMore(frames, frame, "finish");
    LastMore(frames, frame, "data-stream-error");
  }

  lemma CountMore(frames: seq<Value>, frame: Value, kind: string)
    requires AllFrames(frames) && frame.Obj?
    ensures CountOf(frames + [frame], kind) == CountOf(frames, kind) + (if IsKind(frame, kind) then 1 else 0)
  {
    hide IsKind;
    assert (frames + [frame])[..|frames|] == frames;
  }

  lemma LastMore(frames: seq<Value>, frame: Value, kind: string)
    requires AllFrames(frames) && frame.Obj?
    ensures LastOf(frames + [frame], kind) == if IsKind(frame, kind) then frame else LastOf(frames, kind)
  {
    hide IsKind;
    assert (frames + [frame])[..|frames|] == frames;
  }

  /** No frame is of two of these kinds. */
  lemma KindsDiffer(frame: Value)
    requires frame.Obj?
    ensures IsKind(frame, "start") ==> !IsKind(frame, "data-answer-reconcile") && !IsKind(frame, "data-stream-error")
    ensures IsKind(frame, "start") || IsKind(frame, "data-answer-reconcile") || IsKind(frame, "data-stream-error")
        ==> !IsKind(frame, "finish")
    ensures IsKind(frame, "data-answer-reconcile") ==> !IsKind(frame, "data-stream-error")
  {
    hide Get;
  }

  lemma TellsOfNothing(report: Report)
    requires report.messageId == None && report.reconciles == 0 && report.finishReason == None
    requires report.errorCode == None && report.frames == 0
    ensures AllFrames([]) && TellsOf(report, [])
  {
  }

  lemma RecordedFields(report: Report, index: nat, frame: Value)
    requires frame.Obj?
    ensures var r := Recorded(report, index, frame);
      && r.problems == report.problems && r.frames == report.frames
      && r.firstAnswerIndex
         == if IsAnswerFrame(frame) && report.firstAnswerIndex.None? then Some(index) else report.firstAnswerIndex
  {
    hide IsAnswerFrame, IsKind, Get;
  }

  /** The frames grow by the one a payload holds, if it holds one. */
  lemma FramesNext(raws: seq<string>, i: nat, parse: Parser)
    requires i < |raws|
    ensures Frames(raws[..i + 1], parse)
         == if raws[i] == "[DONE]" || parse(raws[i]).None? then Frames(raws[..i], parse)
            else Frames(raws[..i], parse) + [parse(raws[i]).value]
  {
    assert raws[..i + 1][..i] == raws[..i];
  }

  method CountDone(raws: seq<string>) returns (done: nat)
    ensures done == DoneCount(raws)
  {
    done := 0;
    for i := 0 to |raws|
      invariant done == DoneCount(raws[..i])
    {
      assert raws[..i + 1][..i] == raws[..i];
      if raws[i] == "[DONE]" {
        done := done + 1;
      }
    }
    assert raws[..|raws|] == raws;
  }

  /** The whole report. A frame the source cannot look at makes it raise; None stands for that. */
  method AnalyzeWire(wire: string, parse: Parser) returns (r: Option<Report>)
    ensures r.Some? <==> AllSound(Frames(DataLines(wire), parse))
    ensures r.Some? ==>
      var raws := DataLines(wire);
      var frames := Frames(raws, parse);
      && AllFrames(frames) && TellsOf(r.value, frames)
      && r.value.visibleAnswer == Visible(Reduced(frames))
      && IsFirstAnswer(r.value.firstAnswerIndex, raws, |raws|, parse)
      && r.value.problems == (if DoneIsPlaced(raws) then [] else [MisplacedDone(DoneCount(raws))])
                             + ProblemsOf(raws, |raws|, parse)
                             + (if r.value.reconciles > 1 then [ManyReconciles(r.value.reconciles)] else [])
  {
    hide Lines, Get, TextField, IsAnswerFrame, IsKind, FrameProblems, OnlyKeys, Recorded, Applied, Frames;
    hide Reduced, IsSound, Kind;
    hide IsFirstAnswer, AllFrames, AllSound, DataLines, DoneCount, DoneIsPlaced, Visible, TellsOf, ProblemsOf;
    hide PayloadProblems;
    var lines := DataLines(wire);
    var report := Report([], None, 0, None, None, None, 0, "");
    var done := CountDone(lines);
    DonePlaced(lines);
    if done != 1 || lines[|lines| - 1] != "[DONE]" {
      report := report.(problems := [MisplacedDone(done)]);
    }
    ghost var first := report.problems;
    NoFrames(lines, parse);
    TellsOfNothing(report);
    var reducer := new AnswerReducer();
    for index := 0 to |lines|
      invariant AllFrames(Frames(lines[..index], parse)) && AllSound(Frames(lines[..index], parse))
      invariant reducer.View() == Reduced(Frames(lines[..index], parse))
      invariant TellsOf(report, Frames(lines[..index], parse))
      invariant IsFirstAnswer(report.firstAnswerIndex, lines, index, parse)
      invariant report.problems == first + ProblemsOf(lines, index, parse)
    {
      var raw := lines[index];
      FramesNext(lines, index, parse);
      ProblemsNext(lines, index, parse);
      Regroup(first, ProblemsOf(lines, index, parse), PayloadProblems(lines, index, parse));
      FirstAnswerNext(report.firstAnswerIndex, lines, index, parse);
      if raw == "[DONE]" {
        continue;
      }
      if parse(raw).None? {
        SameTale(report, report.problems + [NotJson(index)], Frames(lines[..index], parse));
        report := report.(problems := report.problems + [NotJson(index)]);
        continue;
      }
      var frame := parse(raw).value;
      SoundNext(Frames(lines[..index], parse), frame);
      if !IsSound(frame) {
        UnsoundStays(lines, index, parse);
        return None;
      }
      ReducedNext(Frames(lines[..index], parse), frame);
      var problems := report.problems + FrameProblems(index, frame);
      TellsOfNext(report, Frames(lines[..index], parse), index, frame, problems);
      report := report.(frames := report.frames + 1, problems := problems);
      RecordedFields(report, index, frame);
      report := Recorded(report, index, frame);
      reducer.Apply(frame);
    }
    assert lines[..|lines|] == lines;
    ghost var told := report;
    if report.reconciles > 1 {
      report := report.(problems := report.problems + [ManyReconciles(report.reconciles)]);
    }
    var shown := Visible(Shown(reducer.sdkText, reducer.repair, reducer.authoritative));
    report := report.(visibleAnswer := shown);
    SameTale(told, report.problems, Frames(lines, parse));
    SameShown(told.(problems := report.problems), shown, Frames(lines, parse));
    return Some(report);
  }

  lemma ProblemsNext(raws: seq<string>, i: nat, parse: Parser)
    requires i < |raws|
    ensures ProblemsOf(raws, i + 1, parse) == ProblemsOf(raws, i, parse) + PayloadProblems(raws, i, parse)
    ensures raws[i] == "[DONE]" ==> PayloadProblems(raws, i, parse) == []
    ensures raws[i] != "[DONE]" && parse(raws[i]).None? ==> PayloadProblems(raws, i, parse) == [NotJson(i)]
    ensures raws[i] != "[DONE]" && parse(raws[i]).Some? && parse(raws[i]).value.Obj?
      ==> PayloadProblems(raws, i, parse) == FrameProblems(i, parse(raws[i]).value)
  {
    hide FrameProblems;
  }

  lemma Regroup<T>(a: seq<T>, b: seq<T>, c: seq<T>)
    ensures a + (b + c) == (a + b) + c && a + [] == a
  {
  }

  lemma SameTale(report: Report, problems: seq<Problem>, frames: seq<Value>)
    requires AllFrames(frames) && TellsOf(report, frames)
    ensures TellsOf(report.(problems := problems), frames)
  {
  }

  lemma SameShown(report: Report, shown: string, frames: seq<Value>)
    requires AllFrames(frames) && TellsOf(report, frames)
    ensures TellsOf(report.(visibleAnswer := shown), frames)
  {
  }

  lemma SoundNext(frames: seq<Value>, frame: Value)
    requires AllSound(frames)
    ensures AllSound(frames + [frame]) <==> IsSound(frame)
    ensures IsSound(frame) ==> frame.Obj?
  {
    hide Kind, IsKind, Get;
    assert (frames + [frame])[|frames|] == frame;
  }

  lemma FirstAnswerNext(first: Option<nat>, raws: seq<string>, i: nat, parse: Parser)
    requires i < |raws| && IsFirstAnswer(first, raws, i, parse)
    ensures var next := if IsAnswerPayload(raws[i], parse) && first.None? then Some(i) else first;
            IsFirstAnswer(next, raws, i + 1, parse)
  {
    hide IsAnswerPayload;
  }

  lemma ReducedNext(frames: seq<Value>, frame: Value)
    requires AllFrames(frames)
    ensures AllFrames(frames + [frame]) <==> frame.Obj?
    ensures frame.Obj? ==> Reduced(frames + [frame]) == Applied(Reduced(frames), frame)
  {
    hide Applied;
    assert (frames + [frame])[..|frames|] == frames;
    assert (frames + [frame])[|frames|] == frame;
  }

  lemma NoFrames(raws: seq<string>, parse: Parser)
    ensures Frames(raws[..0], parse) == [] && AllFrames([]) && AllSound([]) && Reduced([]) == Shown("", None, None)
    ensures ProblemsOf(raws, 0, parse) == []
    ensures IsFirstAnswer(None, raws, 0, parse)
  {
  }

  /** A frame the source cannot look at is among the wire's frames. */
  lemma UnsoundStays(raws: seq<string>, i: nat, parse: Parser)
    requires i < |raws| && raws[i] != "[DONE]" && parse(raws[i]).Some? && !IsSound(parse(raws[i]).value)
    ensures !AllSound(Frames(raws, parse))
  {
    hide Frames, IsSound;
    FramesNext(raws, i, parse);
    FramesPrefix(raws, i + 1, parse);
    var before := Frames(raws[..i], parse);
    assert Frames(raws, parse)[|before|] == parse(raws[i]).value;
  }

  lemma DonePlaced(raws: seq<string>)
    ensures DoneCount(raws) == 1 ==> raws != []
    ensures DoneIsPlaced(raws) <==> DoneCount(raws) == 1 && raws[|raws| - 1] == "[DONE]"
  {
  }

  lemma {:induction false} FramesPrefix(raws: seq<string>, n: nat, parse: Parser)
    requires n <= |raws|
    ensures Frames(raws[..n], parse) <= Frames(raws, parse)
    decreases |raws| - n
  {
    if n == |raws| {
      assert raws[..n] == raws;
    } else {
      FramesPrefix(raws, n + 1, parse);
      assert raws[..n + 1][..n] == raws[..n];
    }
  }

  predicate IsAnswerPayload(raw: string, parse: Parser) {
    && raw != "[DONE]"
    && var frame := parse(raw);
       frame.Some? && frame.value.Obj? && IsAnswerFrame(frame.value)
  }

  predicate HasAnswerPayload(raws: seq<string>, parse: Parser) {
    exists j :: 0 <= j < |raws| && IsAnswerPayload(raws[j], parse)
  }

  lemma {:induction false} PayloadsAnswer(lines: seq<string>, parse: Parser)
    ensures HasAnswer(lines, parse) <==> HasAnswerPayload(Payloads(lines), parse)
  {
    hide IsAnswerFrame;
    if lines != [] {
      PayloadsAnswer(lines[1..], parse);
      assert lines == [lines[0]] + lines[1..];
      HasAnswerConcat([lines[0]], lines[1..], parse);
      HasAnswerSingle(lines[0], parse);
      hide HasAnswer, HasAnswerPayload;
      var first := if IsDataLine(lines[0]) then [Payload(lines[0])] else [];
      HasAnswerPayloadCons(first, Payloads(lines[1..]), parse);
    }
  }

  lemma HasAnswerPayloadCons(first: seq<string>, rest: seq<string>, parse: Parser)
    requires |first| <= 1
    ensures HasAnswerPayload(first + rest, parse)
       <==> (first != [] && IsAnswerPayload(first[0], parse)) || HasAnswerPayload(rest, parse)
  {
    hide IsAnswerPayload;
    var all := first + rest;
    if first != [] && IsAnswerPayload(first[0], parse) {
      assert IsAnswerPayload(all[0], parse);
    }
    if j :| 0 <= j < |rest| && IsAnswerPayload(rest[j], parse) {
      assert IsAnswerPayload(all[|first| + j], parse);
    }
    if j :| |first| <= j < |all| && IsAnswerPayload(all[j], parse) {
      assert IsAnswerPayload(rest[j - |first|], parse);
    }
  }

  /** The watch and the analysis agree on whether there was an answer, for every split of a
      wire, exactly when the wire's unfinished last line holds no answer that the finished ones
      do not; a wire that ends in a newline always qualifies. */
  lemma WatchAgreesWithAnalysis(chunks: seq<string>, wire: string, parse: Parser)
    requires Concat(chunks) == wire
    ensures var analysed := HasAnswerPayload(DataLines(wire), parse);
      && ((Watched(chunks, parse).seen <==> analysed)
          <==> (IsAnswerLine(Pending(wire), parse) ==> HasAnswer(Complete(wire), parse)))
      && (wire != "" && wire[|wire| - 1] == '\n' ==> (Watched(chunks, parse).seen <==> analysed))
  {
    hide Lines, IsAnswerLine, HasAnswerPayload, Watched, HasAnswer;
    WatchIgnoresChunking(chunks, parse);
    PayloadsAnswer(Lines(wire), parse);
    assert Lines(wire) == Complete(wire) + [Pending(wire)];
    HasAnswerConcat(Complete(wire), [Pending(wire)], parse);
    HasAnswerSingle(Pending(wire), parse);
    if wire != "" && wire[|wire| - 1] == '\n' {
      EndsInNewline(wire);
      EmptyLineIsNoAnswer(parse);
    }
  }

  lemma EmptyLineIsNoAnswer(parse: Parser)
    ensures !IsAnswerLine("", parse)
  {
  }

  lemma {:induction false} EndsInNewline(wire: string)
    requires wire != "" && wire[|wire| - 1] == '\n'
    ensures Pending(wire) == ""
  {
    if |wire| > 1 {
      EndsInNewline(wire[1..]);
    } else {
      assert wire[1..] == "";
      EmptyLines();
      assert Lines(wire) == ["", ""];
    }
  }
}

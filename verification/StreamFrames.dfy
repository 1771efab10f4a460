/** scripts/verify_answer_streaming_contract.py: what a line and a frame are taken for, said on their
    own text and fields. */
module StreamFrames {
  import opened Options
  import opened Json
  import opened StreamWatch

  /** A data line starts with six characters; what is behind them is its payload. */
  lemma DataLinesAre(line: string)
    ensures IsDataLine(line) <==> exists payload :: line == "data: " + payload
    ensures forall payload :: line == "data: " + payload ==> IsDataLine(line) && Payload(line) == payload
  {
    if IsDataLine(line) {
      assert line == "data: " + line[6..];
    }
  }

  /** The `data` object of a frame, if it has one. */
  predicate HasData(frame: Value, data: seq<Field>)
    requires frame.Obj?
  {
    Get(frame.fields, "data") == Some(Obj(data))
  }

  lemma DataIs(frame: Value)
    requires frame.Obj?
    ensures forall data :: HasData(frame, data) ==> Data(frame) == data
    ensures (forall data :: !HasData(frame, data)) ==> Data(frame) == []
  {
    hide Get;
    if Data(frame) != [] {
      assert HasData(frame, Data(frame));
    }
  }

  lemma NoField(key: string)
    ensures Get([], key) == None
  {
  }

  /** An answer frame is a text delta, or a preview that replaces or appends. */
  lemma AnswerFramesAre(frame: Value)
    requires frame.Obj?
    ensures IsAnswerFrame(frame) <==>
      || Get(frame.fields, "type") == Some(Str("text-delta"))
      || (&& Get(frame.fields, "type") == Some(Str("data-answer-preview"))
          && exists data :: HasData(frame, data)
               && Get(data, "operation") in {Some(Str("replace")), Some(Str("append"))})
  {
    hide Get, Data;
    DataIs(frame);
    NoField("operation");
    if forall data :: !HasData(frame, data) {
      assert Get(Data(frame), "operation") == None;
    }
  }

  /** A list or an object, which cannot be looked up in a set. */
  predicate IsNested(v: Value) {
    match v
    case Arr(_) => true
    case Obj(_) => true
    case _ => false
  }

  /** The frames the source can look at: objects whose kind, and whose operation if they are previews,
      is no list and no object. */
  lemma SoundFramesAre(frame: Value)
    ensures IsSound(frame) <==>
      && frame.Obj?
      && (forall kind :: Get(frame.fields, "type") == Some(kind) ==> !IsNested(kind))
      && (Get(frame.fields, "type") == Some(Str("data-answer-preview")) ==>
            forall data, operation :: HasData(frame, data) && Get(data, "operation") == Some(operation) ==>
              !IsNested(operation))
  {
    hide Get, Data;
    if frame.Obj? {
      DataIs(frame);
      NoField("operation");
    }
  }

  /** The keys the SDK knows for the kinds it checks. */
  function KnownKeys(kind: string): set<string> {
    if kind == "error" then {"type", "errorText"}
    else if kind == "finish" then {"type", "finishReason", "messageMetadata"}
    else {"type", "toolCallId", "output", "providerExecuted", "dynamic", "preliminary"}
  }

  predicate HasForeignKey(frame: Value, kind: string)
    requires frame.Obj?
  {
    exists i :: 0 <= i < |frame.fields| && frame.fields[i].key !in KnownKeys(kind)
  }

  /** A raw heartbeat is reported, and an error, a finish or a tool output with a key the SDK does not
      know; a frame of any other kind is never reported. */
  lemma FrameProblemsAre(index: nat, frame: Value)
    requires frame.Obj?
    ensures var kind := Get(frame.fields, "type");
      && (kind == Some(Str("heartbeat")) ==> FrameProblems(index, frame) == [RawHeartbeat(index)])
      && (forall name :: name in {"error", "finish", "tool-output-available"} && kind == Some(Str(name)) ==>
            FrameProblems(index, frame) == if HasForeignKey(frame, name) then [ForeignKeys(index)] else [])
      && (|| FrameProblems(index, frame) == []
          || kind in {Some(Str("heartbeat")), Some(Str("error")), Some(Str("finish")),
                      Some(Str("tool-output-available"))})
  {
    hide Get;
  }

  /** The text a frame carries under a key, when it is a string. */
  lemma TextIs(fields: seq<Field>, key: string, text: string)
    ensures Get(fields, key) == Some(Str(text)) ==> TextField(fields, key) == text
    ensures Get(fields, key) == None ==> TextField(fields, key) == ""
  {
  }
}

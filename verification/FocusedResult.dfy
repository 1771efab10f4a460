/** app/ai/focused_tool_result.py: trimming a focused result to its exact size budget.

    The loop shortens or drops the last excerpt until the serialized result fits. It runs at
    most 2n + 8 times; this module shows that the limit is never what ends it. */
module FocusedResult {
  import opened Options
  import opened PythonText
  import opened Json

  const MIN_TRIMMED_CHARS: int := 60

  /** `score` is the score's JSON text. */
  datatype Excerpt = Excerpt(sourcePath: string, text: string, score: string, url: Option<string>,
                             title: Option<string>)

  datatype Result = Result(objective: string, excerpts: seq<Excerpt>, total: nat, omitted: nat, truncated: bool,
                           note: string)

  // ---------------------------------------------------------------- the serialized size

  function QuotedSize(s: string): nat {
    |Quote(s, false)|
  }

  function OptionalSize(s: Option<string>): nat {
    if s.Some? then QuotedSize(s.value) else |"null"|
  }

  // Counted, not spelled: the quotes around the keys are single here.
  const EXCERPT_KEYS: nat := |"{'source_path':,'text':,'score':,'url':,'title':}"|
  const RESULT_KEYS: nat :=
    |"{'objective':,'excerpts':[],'total_candidates':,'omitted_candidates':,'truncated':,'note':}"|

  function ExcerptSize(e: Excerpt): nat {
    EXCERPT_KEYS + QuotedSize(e.sourcePath) + QuotedSize(e.text) + |e.score| + OptionalSize(e.url)
      + OptionalSize(e.title)
  }

  /** All excerpts, with a comma before each but the first. */
  function ExcerptsSize(excerpts: seq<Excerpt>): nat {
    if |excerpts| == 0 then 0
    else
      ExcerptsSize(excerpts[..|excerpts| - 1]) + (if |excerpts| == 1 then 0 else 1)
      + ExcerptSize(excerpts[|excerpts| - 1])
  }

  /** `len(result.model_dump_json())` */
  function Size(r: Result): nat {
    RESULT_KEYS + QuotedSize(r.objective) + ExcerptsSize(r.excerpts) + |Decimal(r.total)| + |Decimal(r.omitted)|
      + (if r.truncated then |"true"| else |"false"|) + QuotedSize(r.note)
  }

  lemma {:induction false} EscapesAtLeast(s: string)
    ensures |Escapes(s, false)| >= |s|
  {
    if s != "" {
      EscapesAtLeast(s[1..]);
      assert |Escape(s[0], false)| >= 1;
    }
  }

  /** Cutting characters off a text saves at least as many characters of its JSON. */
  lemma CutSaves(text: string, shorter: string)
    requires shorter <= text
    ensures QuotedSize(shorter) + (|text| - |shorter|) <= QuotedSize(text)
  {
    hide Escapes;
    var gone := text[|shorter|..];
    assert text == shorter + gone;
    EscapesConcat(shorter, gone, false);
    EscapesAtLeast(gone);
  }

  // ---------------------------------------------------------------- one turn of the loop

  function Recounted(r: Result): Result {
    r.(omitted := if r.total >= |r.excerpts| then r.total - |r.excerpts| else 0)
  }

  function Excess(r: Result, limit: int): int {
    Size(Recounted(r)) - limit
  }

  predicate Fits(r: Result, limit: int) {
    Excess(r, limit) <= 0
  }

  /** How much of the last excerpt would be left. */
  function Keep(r: Result, limit: int): int
    requires r.excerpts != []
  {
    |r.excerpts[|r.excerpts| - 1].text| - Excess(r, limit)
  }

  function Init(excerpts: seq<Excerpt>): seq<Excerpt>
    requires excerpts != []
  {
    excerpts[..|excerpts| - 1]
  }

  function Last(excerpts: seq<Excerpt>): Excerpt
    requires excerpts != []
  {
    excerpts[|excerpts| - 1]
  }

  function Shortened(e: Excerpt, keep: nat): Excerpt
    requires keep <= |e.text|
  {
    e.(text := RStrip(e.text[..keep]))
  }

  lemma RStripIsPrefix(s: string)
    ensures RStrip(s) <= s
  {
    var after := RStripSplit(s);
  }

  lemma ShortenedText(e: Excerpt, keep: nat)
    requires keep <= |e.text|
    ensures Shortened(e, keep).text <= e.text && |Shortened(e, keep).text| <= keep
  {
    RStripIsPrefix(e.text[..keep]);
  }

  /** The trimming, run until nothing is left to do. */
  function Trimmed(r: Result, limit: int): Result
    decreases |r.excerpts|, |r.note|, if r.excerpts == [] then 0 else |Last(r.excerpts).text|
  {
    if Fits(r, limit) then Recounted(r)
    else
      var over := Recounted(r).(truncated := true);
      if r.excerpts == [] then
        if r.note != "" then Trimmed(over.(note := ""), limit) else over
      else if Keep(r, limit) < MIN_TRIMMED_CHARS then Trimmed(over.(excerpts := Init(r.excerpts)), limit)
      else
        ShortenedText(Last(r.excerpts), Keep(r, limit));
        Trimmed(over.(excerpts := Init(r.excerpts) + [Shortened(Last(r.excerpts), Keep(r, limit))]), limit)
  }

  lemma RecountTwice(r: Result)
    ensures Recounted(Recounted(r)) == Recounted(r)
  {
  }

  /** A shortened last excerpt makes the result fit at once. */
  lemma ShorteningFits(r: Result, limit: int)
    requires r.excerpts != [] && !Fits(r, limit) && Keep(r, limit) >= MIN_TRIMMED_CHARS
    ensures Keep(r, limit) <= |Last(r.excerpts).text|
    ensures var shorter := Init(r.excerpts) + [Shortened(Last(r.excerpts), Keep(r, limit))];
            Fits(Recounted(r).(truncated := true, excerpts := shorter), limit)
  {
    hide QuotedSize, Decimal, RStrip, OptionalSize;
    var last, keep := Last(r.excerpts), Keep(r, limit);
    var shorter := Init(r.excerpts) + [Shortened(last, keep)];
    ShortenedText(last, keep);
    CutSaves(last.text, Shortened(last, keep).text);
    assert Init(shorter) == Init(r.excerpts) && |shorter| == |r.excerpts|;
    assert ExcerptsSize(shorter) + (|last.text| - keep) <= ExcerptsSize(r.excerpts);
  }

  // ---------------------------------------------------------------- the loop

  /** Turns the loop still needs. */
  function TurnsLeft(r: Result, limit: int): nat {
    if Fits(r, limit) then 1 else |r.excerpts| + (if r.note != "" then 1 else 0) + 2
  }

  class FocusedResultObject {
    var objective: string
    var excerpts: seq<Excerpt>
    var total: nat
    var omitted: nat
    var truncated: bool
    var note: string

    ghost function View(): Result
      reads this
    {
      Result(objective, excerpts, total, omitted, truncated, note)
    }

    constructor (objective: string, excerpts: seq<Excerpt>, total: nat, note: string)
      ensures View() == Result(objective, excerpts, total, 0, false, note)
    {
      this.objective, this.excerpts, this.total, this.note := objective, excerpts, total, note;
      omitted, truncated := 0, false;
    }

    method SerializedSize() returns (n: nat)
      ensures n == Size(View())
    {
      n := Size(Result(objective, excerpts, total, omitted, truncated, note));
    }

    method Recount()
      modifies this`omitted
      ensures View() == Recounted(old(View()))
    {
      omitted := if total >= |excerpts| then total - |excerpts| else 0;
    }

    /** Whatever the budget, the loop is over before its limit of turns: it does all of
        `Trimmed`. (A `return` in the source's loop is a `break` here; counting again behind the
        loop changes nothing then.) */
    method Bounded(charLimit: int)
      modifies this
      ensures View() == Trimmed(old(View()), charLimit)
    {
      hide Size, Trimmed, RStrip;
      var turns := 2 * |excerpts| + 8;
      var done := false;
      ghost var start := View();
      for i := 0 to turns
        invariant !done && i + TurnsLeft(View(), charLimit) <= |start.excerpts| + 3
        invariant Trimmed(View(), charLimit) == Trimmed(start, charLimit)
      {
        TrimmedUnfold(View(), charLimit);
        Recount();
        var serialized := SerializedSize();
        if serialized <= charLimit {
          done := true;
          break;
        }
        truncated := true;
        if excerpts == [] {
          if note != "" {
            note := "";
            continue;
          }
          done := true;
          break;
        }
        var excess := serialized - charLimit;
        var last := excerpts[|excerpts| - 1];
        var keep := |last.text| - excess;
        if keep < MIN_TRIMMED_CHARS {
          excerpts := excerpts[..|excerpts| - 1];
          continue;
        }
        excerpts := excerpts[..|excerpts| - 1] + [last.(text := RStrip(last.text[..keep]))];
      }
      Recount();
    }
  }

  /** One turn of the trimming, as the loop takes it. */
  lemma TrimmedUnfold(r: Result, limit: int)
    ensures !Fits(r, limit) && r.excerpts != [] ==> Keep(r, limit) < |Last(r.excerpts).text|
    ensures Trimmed(r, limit) ==
      if Fits(r, limit) then Recounted(r)
      else
        var over := Recounted(r).(truncated := true);
        if r.excerpts == [] then
          if r.note != "" then Trimmed(over.(note := ""), limit) else over
        else if Keep(r, limit) < MIN_TRIMMED_CHARS then Trimmed(over.(excerpts := Init(r.excerpts)), limit)
        else Trimmed(over.(excerpts := Init(r.excerpts) + [Shortened(Last(r.excerpts), Keep(r, limit))]), limit)
    ensures !Fits(r, limit) && r.excerpts != [] && Keep(r, limit) >= MIN_TRIMMED_CHARS ==>
      Fits(Recounted(r).(truncated := true,
                         excerpts := Init(r.excerpts) + [Shortened(Last(r.excerpts), Keep(r, limit))]), limit)
  {
    hide Size, RStrip;
    if !Fits(r, limit) && r.excerpts != [] && Keep(r, limit) >= MIN_TRIMMED_CHARS {
      ShorteningFits(r, limit);
    }
  }

  // ---------------------------------------------------------------- what trimming promises

  /** `kept` is a beginning of `all`, its last text possibly cut short. */
  predicate IsTrimmedPrefix(kept: seq<Excerpt>, all: seq<Excerpt>) {
    && |kept| <= |all|
    && (forall i :: 0 <= i < |kept| - 1 ==> kept[i] == all[i])
    && (kept != [] ==>
          && Last(kept).text <= all[|kept| - 1].text
          && Last(kept) == all[|kept| - 1].(text := Last(kept).text))
  }

  /** The result with its first `n` excerpts only, as the loop sees it after dropping the rest. */
  function FirstExcerpts(r: Result, n: nat): Result
    requires n <= |r.excerpts|
  {
    r.(excerpts := r.excerpts[..n], truncated := r.truncated || n < |r.excerpts|)
  }

  /** The trimmed result fits its budget or has nothing left to give up. */
  lemma {:induction false} TrimmedFitsOrIsBare(r: Result, limit: int)
    ensures var t := Trimmed(r, limit); Fits(t, limit) || (t.excerpts == [] && t.note == "")
    decreases |r.excerpts|, |r.note|
  {
    hide Size, RStrip;
    TrimmedUnfold(r, limit);
    RecountTwice(r);
    if !Fits(r, limit) {
      var over := Recounted(r).(truncated := true);
      if r.excerpts == [] {
        if r.note != "" {
          TrimmedFitsOrIsBare(over.(note := ""), limit);
        }
      } else if Keep(r, limit) < MIN_TRIMMED_CHARS {
        TrimmedFitsOrIsBare(over.(excerpts := Init(r.excerpts)), limit);
      } else {
        var shorter := over.(excerpts := Init(r.excerpts) + [Shortened(Last(r.excerpts), Keep(r, limit))]);
        TrimmedUnfold(shorter, limit);
        RecountTwice(shorter);
      }
    }
  }

  /** Excerpts are given up from the end only, and only the last one kept is cut short; the note
      goes after the last excerpt; everything else stays as it was. */
  lemma {:induction false} TrimmedKeepsTheBest(r: Result, limit: int)
    ensures var t := Trimmed(r, limit);
      && IsTrimmedPrefix(t.excerpts, r.excerpts)
      && (t.note == r.note || (t.note == "" && t.excerpts == []))
      && t.objective == r.objective && t.total == r.total
      && t.truncated == (r.truncated || !Fits(r, limit))
    decreases |r.excerpts|, |r.note|
  {
    hide Size, RStrip;
    TrimmedUnfold(r, limit);
    if !Fits(r, limit) {
      var over := Recounted(r).(truncated := true);
      if r.excerpts == [] {
        if r.note != "" {
          TrimmedKeepsTheBest(over.(note := ""), limit);
        }
      } else if Keep(r, limit) < MIN_TRIMMED_CHARS {
        TrimmedKeepsTheBest(over.(excerpts := Init(r.excerpts)), limit);
      } else {
        var shorter := over.(excerpts := Init(r.excerpts) + [Shortened(Last(r.excerpts), Keep(r, limit))]);
        TrimmedUnfold(shorter, limit);
        ShortenedText(Last(r.excerpts), Keep(r, limit));
      }
    }
  }

  /** What came back and what is reported as left out make up all candidates. */
  lemma {:induction false} TrimmedCountsAll(r: Result, limit: int)
    requires r.total >= |r.excerpts|
    ensures var t := Trimmed(r, limit); |t.excerpts| + t.omitted == r.total
    decreases |r.excerpts|, |r.note|
  {
    hide Size, RStrip;
    TrimmedUnfold(r, limit);
    if !Fits(r, limit) {
      var over := Recounted(r).(truncated := true);
      if r.excerpts == [] {
        if r.note != "" {
          TrimmedCountsAll(over.(note := ""), limit);
        }
      } else if Keep(r, limit) < MIN_TRIMMED_CHARS {
        TrimmedCountsAll(over.(excerpts := Init(r.excerpts)), limit);
      } else {
        var shorter := over.(excerpts := Init(r.excerpts) + [Shortened(Last(r.excerpts), Keep(r, limit))]);
        TrimmedUnfold(shorter, limit);
      }
    }
  }

  /** An excerpt is dropped only when cutting it short enough to fit would leave fewer than
      sixty characters of it. */
  lemma {:induction false} DroppedOnlyWhenTooShort(r: Result, limit: int, n: nat)
    requires |Trimmed(r, limit).excerpts| < n <= |r.excerpts|
    ensures var first := FirstExcerpts(r, n);
            !Fits(first, limit) && Keep(first, limit) < MIN_TRIMMED_CHARS
    decreases |r.excerpts|
  {
    hide Size, RStrip;
    TrimmedUnfold(r, limit);
    var over := Recounted(r).(truncated := true);
    assert r.excerpts[..|r.excerpts|] == r.excerpts;
    ShorteningDropsNothing(r, limit);
    if n == |r.excerpts| {
      assert FirstExcerpts(r, n) == r;
    } else {
      var popped := over.(excerpts := Init(r.excerpts));
      DroppedOnlyWhenTooShort(popped, limit, n);
      assert Init(r.excerpts)[..n] == r.excerpts[..n];
      assert Recounted(FirstExcerpts(popped, n)) == Recounted(FirstExcerpts(r, n));
    }
  }

  /** A result that fits, or is made to fit by shortening, keeps all its excerpts. */
  lemma ShorteningDropsNothing(r: Result, limit: int)
    ensures Fits(r, limit) || (r.excerpts != [] && Keep(r, limit) >= MIN_TRIMMED_CHARS)
      ==> |Trimmed(r, limit).excerpts| == |r.excerpts|
  {
    hide Size, RStrip;
    TrimmedUnfold(r, limit);
    if !Fits(r, limit) && r.excerpts != [] && Keep(r, limit) >= MIN_TRIMMED_CHARS {
      var shorter := Init(r.excerpts) + [Shortened(Last(r.excerpts), Keep(r, limit))];
      TrimmedUnfold(Recounted(r).(truncated := true, excerpts := shorter), limit);
    }
  }

  /** Trimming a trimmed result changes nothing. */
  lemma TrimmedIsIdempotent(r: Result, limit: int)
    ensures Trimmed(Trimmed(r, limit), limit) == Trimmed(r, limit)
  {
    hide Size, RStrip;
    var t := Trimmed(r, limit);
    TrimmedFitsOrIsBare(r, limit);
    TrimmedKeepsTheBest(r, limit);
    TrimmedIsRecounted(r, limit);
    TrimmedUnfold(t, limit);
    if !Fits(t, limit) {
      BareIsTruncated(r, limit);
    }
  }

  lemma {:induction false} TrimmedIsRecounted(r: Result, limit: int)
    ensures Recounted(Trimmed(r, limit)) == Trimmed(r, limit)
    decreases |r.excerpts|, |r.note|
  {
    hide Size, RStrip;
    TrimmedUnfold(r, limit);
    if !Fits(r, limit) {
      var over := Recounted(r).(truncated := true);
      if r.excerpts == [] {
        if r.note != "" {
          TrimmedIsRecounted(over.(note := ""), limit);
        }
      } else if Keep(r, limit) < MIN_TRIMMED_CHARS {
        TrimmedIsRecounted(over.(excerpts := Init(r.excerpts)), limit);
      } else {
        var shorter := over.(excerpts := Init(r.excerpts) + [Shortened(Last(r.excerpts), Keep(r, limit))]);
        TrimmedUnfold(shorter, limit);
      }
    }
  }

  lemma BareIsTruncated(r: Result, limit: int)
    ensures Fits(Trimmed(r, limit), limit) || Trimmed(r, limit).truncated
  {
    hide Size, RStrip;
    TrimmedKeepsTheBest(r, limit);
    TrimmedUnfold(r, limit);
    RecountTwice(r);
  }
}

/** app/ai/focused_tool_result.py: the JSON text of a focused result, and its budget. */
module FocusedText {
  import opened Options
  import opened PythonText
  import opened Json
  import opened FocusedResult

  function OptionalText(s: Option<string>): string {
    if s.Some? then Quote(s.value, false) else "null"
  }

  function ExcerptText(e: Excerpt): string {
    "{\"source_path\":" + Quote(e.sourcePath, false) + ",\"text\":" + Quote(e.text, false) + ",\"score\":" + e.score
    + ",\"url\":" + OptionalText(e.url) + ",\"title\":" + OptionalText(e.title) + "}"
  }

  function ExcerptTexts(excerpts: seq<Excerpt>): seq<string> {
    seq(|excerpts|, i requires 0 <= i < |excerpts| => ExcerptText(excerpts[i]))
  }

  /** `result.model_dump_json()` */
  function ResultText(r: Result): string {
    "{\"objective\":" + Quote(r.objective, false) + ",\"excerpts\":[" + Join(",", ExcerptTexts(r.excerpts))
    + "],\"total_candidates\":" + Decimal(r.total) + ",\"omitted_candidates\":" + Decimal(r.omitted)
    + ",\"truncated\":" + (if r.truncated then "true" else "false") + ",\"note\":" + Quote(r.note, false) + "}"
  }

  lemma ExcerptLength(e: Excerpt)
    ensures ExcerptSize(e) == |ExcerptText(e)|
  {
    hide Quote;
  }

  lemma {:induction false} ExcerptsLength(excerpts: seq<Excerpt>)
    ensures ExcerptsSize(excerpts) == |Join(",", ExcerptTexts(excerpts))|
  {
    hide ExcerptSize, ExcerptText, Join;
    if excerpts == [] {
      NoParts(ExcerptTexts(excerpts));
    } else {
      var init, last := excerpts[..|excerpts| - 1], excerpts[|excerpts| - 1];
      ExcerptsLength(init);
      ExcerptLength(last);
      assert ExcerptTexts(excerpts) == ExcerptTexts(init) + [ExcerptText(last)];
      JoinOneMore(",", ExcerptTexts(init), ExcerptText(last));
      if init == [] {
        NoParts(ExcerptTexts(init));
      }
    }
  }

  lemma NoParts(parts: seq<string>)
    requires parts == []
    ensures Join(",", parts) == ""
  {
  }

  /** The size the loop compares with the budget is the length of the result's JSON. */
  lemma SizeIsLength(r: Result)
    ensures Size(r) == |ResultText(r)|
  {
    hide Quote, Decimal, Join, ExcerptTexts;
    ExcerptsLength(r.excerpts);
  }

  /** The JSON that is returned is within the budget, or nothing is left of the result but its
      objective and its counts. */
  lemma TrimmedTextFits(r: Result, limit: int)
    ensures var t := Trimmed(r, limit); |ResultText(t)| <= limit || (t.excerpts == [] && t.note == "")
    ensures |ResultText(Recounted(r))| <= limit ==> Trimmed(r, limit) == Recounted(r)
  {
    hide ResultText, Size, Trimmed;
    SizeIsLength(Trimmed(r, limit));
    SizeIsLength(Recounted(r));
    TrimmedFitsOrIsBare(r, limit);
    TrimmedIsRecounted(r, limit);
    if |ResultText(Recounted(r))| <= limit {
      FittingStays(r, limit);
    }
  }

  /** The counts of a trimmed result are up to date. */
  lemma {:induction false} TrimmedIsRecounted(r: Result, limit: int)
    ensures Recounted(Trimmed(r, limit)) == Trimmed(r, limit)
    decreases |r.excerpts|, |r.note|
  {
    hide Size, RStrip;
    TrimmedUnfold(r, limit);
    if !Fits(r, limit) {
      var over := Recounted(r).(truncated := true);
      if r.excerpts == [] {
        if r.note != "" {
          TrimmedIsRecounted(over.(note := ""), limit);
        }
      } else if Keep(r, limit) < MIN_TRIMMED_CHARS {
        TrimmedIsRecounted(over.(excerpts := Init(r.excerpts)), limit);
      } else {
        ShorteningFits(r, limit);
        TrimmedUnfold(over.(excerpts := Init(r.excerpts) + [Shortened(Last(r.excerpts), Keep(r, limit))]), limit);
      }
    }
  }

  lemma FittingStays(r: Result, limit: int)
    requires Size(Recounted(r)) <= limit
    ensures Trimmed(r, limit) == Recounted(r)
  {
  }
}

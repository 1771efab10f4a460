/** shared/runtime_results.py: the text and media budgets of one device tool result.
    Media is kept whole, greedily, or replaced by a note. */
module RuntimeResults {
  // Text is cut in its middle by a binary search over a size that is not obviously monotone:
  // the marker between the two kept ends names how many characters went, so keeping one more
  // can make the marker shorter.

  import opened Options
  import opened PythonText
  import opened Json

  // ---------------------------------------------------------------- sizes

  /** What the bridge sends for `v`, measured in bytes. */
  function WireSize(v: Value): nat {
    |Dumps(v, true)|
  }

  function TextBlock(text: string): Value {
    Obj([Field("type", Str("text")), Field("text", Str(text))])
  }

  const TEXT_BLOCK_OVERHEAD: int := WireSize(Arr([TextBlock("")])) - WireSize(Str(""))

  lemma TextBlockSize(text: string)
    ensures WireSize(Arr([TextBlock(text)])) == TEXT_BLOCK_OVERHEAD + WireSize(Str(text))
  {
    var empty := TextBlockText("");
    var full := TextBlockText(text);
  }

  lemma TextBlockText(t: string) returns (before: string)
    ensures Dumps(Arr([TextBlock(t)]), true) == before + Quote(t, true) + "}]"
    ensures before == "[{" + Quote("type", true) + ": " + Quote("text", true) + ", " + Quote("text", true) + ": "
  {
    hide Quote;
    before := "[{" + Quote("type", true) + ": " + Quote("text", true) + ", " + Quote("text", true) + ": ";
    var fields := [Field("type", Str("text")), Field("text", Str(t))];
    assert DumpsFields(fields[1..], true) == Quote("text", true) + ": " + Quote(t, true);
    assert DumpsFields(fields, true) ==
      Quote("type", true) + ": " + Quote("text", true) + ", " + DumpsFields(fields[1..], true);
    assert Dumps(TextBlock(t), true) == "{" + DumpsFields(fields, true) + "}";
    assert Dumps(Arr([TextBlock(t)]), true) == "[" + Dumps(TextBlock(t), true) + "]";
  }

  // ---------------------------------------------------------------- cutting text

  function Marker(count: nat): string {
    "\n[... " + Decimal(count) + " characters omitted to fit the device result limit ...]\n"
  }

  /** `keep` characters of `text`, the odd one at the front, around the marker. */
  function CutMiddle(text: string, keep: nat): string
    requires keep <= |text|
  {
    var tail := keep / 2;
    var head := keep - tail;
    text[..head] + Marker(|text| - keep) + (if tail != 0 then text[|text| - tail..] else "")
  }

  predicate CutFits(text: string, keep: nat, limit: int)
    requires keep <= |text|
  {
    WireSize(Str(CutMiddle(text, keep))) <= limit
  }

  lemma {:induction false} DigitsAreSentPlain(s: string)
    requires forall i :: 0 <= i < |s| ==> s[i] in DIGITS
    ensures Escapes(s, true) == s
  {
    if s != "" {
      DigitsAreSentPlain(s[1..]);
      EscapeCost(s[0]);
      assert s[0] in DIGITS;
      assert Escape(s[0], true) == [s[0]];
    }
  }

  /** The marker's sent size is that of its count's digits plus a constant. */
  lemma MarkerSize() returns (base: nat)
    ensures base > 0
    ensures forall n: nat :: |Escapes(Marker(n), true)| == base + |Decimal(n)|
  {
    hide Escapes;
    var before, after := "\n[... ", " characters omitted to fit the device result limit ...]\n";
    base := |Escapes(before, true)| + |Escapes(after, true)|;
    EscapesLonger(before);
    forall n: nat
      ensures |Escapes(Marker(n), true)| == base + |Decimal(n)|
    {
      EscapesConcat(before + Decimal(n), after, true);
      EscapesConcat(before, Decimal(n), true);
      DecimalDigits(n);
      DigitsAreSentPlain(Decimal(n));
    }
  }

  lemma {:induction false} EscapesLonger(s: string)
    ensures |Escapes(s, true)| >= |s|
  {
    if s != "" {
      EscapesLonger(s[1..]);
      EscapeCost(s[0]);
    }
  }

  lemma CutSize(text: string, keep: nat, base: nat)
    requires keep <= |text|
    requires forall n: nat :: |Escapes(Marker(n), true)| == base + |Decimal(n)|
    ensures WireSize(Str(CutMiddle(text, keep)))
         == 2 + |Escapes(text[..keep - keep / 2], true)| + base + |Decimal(|text| - keep)|
              + |Escapes(text[|text| - keep / 2..], true)|
  {
    hide Escapes, Marker;
    var tail := keep / 2;
    var head := text[..keep - tail];
    var end := text[|text| - tail..];
    assert CutMiddle(text, keep) == head + Marker(|text| - keep) + end;
    EscapesConcat(head + Marker(|text| - keep), end, true);
    EscapesConcat(head, Marker(|text| - keep), true);
  }

  /** One kept character more never makes the sent text smaller, although the omitted count
      may lose a digit. */
  lemma CutGrowth(text: string, keep: nat)
    requires keep < |text|
    ensures WireSize(Str(CutMiddle(text, keep))) <= WireSize(Str(CutMiddle(text, keep + 1)))
  {
    hide Escapes, Marker, CutMiddle, WireSize, Decimal, Quote;
    var base := MarkerSize();
    CutSize(text, keep, base);
    CutSize(text, keep + 1, base);
    DecimalGrowth(|text| - keep - 1);
    var tail := keep / 2;
    var head := keep - tail;
    if keep % 2 == 0 {
      assert (keep + 1) / 2 == tail && keep + 1 - (keep + 1) / 2 == head + 1;
      assert text[..head + 1] == text[..head] + [text[head]];
      EscapesConcat(text[..head], [text[head]], true);
      EscapesLonger([text[head]]);
    } else {
      assert (keep + 1) / 2 == tail + 1 && keep + 1 - (keep + 1) / 2 == head;
      var c := text[|text| - tail - 1];
      assert text[|text| - (tail + 1)..] == [c] + text[|text| - tail..];
      EscapesConcat([c], text[|text| - tail..], true);
      EscapesLonger([c]);
    }
  }

  lemma {:induction false} CutSizeMonotone(text: string, few: nat, many: nat)
    requires few <= many <= |text|
    ensures WireSize(Str(CutMiddle(text, few))) <= WireSize(Str(CutMiddle(text, many)))
    decreases many
  {
    hide WireSize, CutMiddle;
    if few < many {
      CutSizeMonotone(text, few, many - 1);
      CutGrowth(text, many - 1);
    }
  }

  /** The largest fitting cut, searched for from the top down. */
  function LargestCut(text: string, limit: int, upTo: nat): (r: Option<nat>)
    requires upTo <= |text|
    ensures r.Some? ==> r.value <= upTo && CutFits(text, r.value, limit)
    ensures forall k: nat :: k <= upTo && CutFits(text, k, limit) ==> r.Some? && k <= r.value
  {
    if CutFits(text, upTo, limit) then Some(upTo)
    else if upTo == 0 then None
    else LargestCut(text, limit, upTo - 1)
  }

  function FittedText(text: string, limit: int): string {
    if WireSize(Str(text)) <= limit then text else
    match LargestCut(text, limit, |text|)
    case Some(keep) => CutMiddle(text, keep)
    case None => ""
  }

  /** The binary search finds the cut the top-down search finds. */
  method FitText(text: string, limit: int) returns (r: string)
    ensures r == FittedText(text, limit)
  {
    hide WireSize, CutMiddle;
    if WireSize(Str(text)) <= limit {
      return text;
    }
    var low, high := 0, |text|;
    while low < high
      invariant 0 <= low <= high <= |text|
      invariant low > 0 ==> CutFits(text, low, limit)
      invariant forall k: nat :: high < k <= |text| ==> !CutFits(text, k, limit)
    {
      var keep := (low + high + 1) / 2;
      if WireSize(Str(CutMiddle(text, keep))) <= limit {
        low := keep;
      } else {
        forall k: nat | keep <= k <= |text|
          ensures !CutFits(text, k, limit)
        {
          CutSizeMonotone(text, keep, k);
        }
        high := keep - 1;
      }
    }
    assert CutFits(text, low, limit) <==> WireSize(Str(CutMiddle(text, low))) <= limit;
    var candidate := CutMiddle(text, low);
    r := if WireSize(Str(candidate)) <= limit then candidate else "";
  }

  /** `r` is the first and last characters of `text`, `keep` in all, around the marker. */
  predicate KeepsEnds(text: string, keep: nat, r: string)
    requires keep <= |text|
  {
    var tail := keep / 2;
    var head := keep - tail;
    && |r| == keep + |Marker(|text| - keep)|
    && r[..head] == text[..head]
    && r[|r| - tail..] == text[|text| - tail..]
    && r[head..|r| - tail] == Marker(|text| - keep)
  }

  lemma CutKeepsEnds(text: string, keep: nat)
    requires keep <= |text|
    ensures KeepsEnds(text, keep, CutMiddle(text, keep))
  {
    hide Marker;
  }

  /** `r` is the whole text; or a true beginning and end of it around the marker, with as many
      characters as can be kept; or nothing, when no cut fits. */
  ghost predicate IsBestFit(r: string, text: string, limit: int) {
    if WireSize(Str(text)) <= limit then r == text
    else if exists k: nat :: k <= |text| && CutFits(text, k, limit)
    then exists k: nat ::
      && k < |text| && CutFits(text, k, limit) && KeepsEnds(text, k, r)
      && (forall j: nat :: k < j <= |text| ==> !CutFits(text, j, limit))
    else r == ""
  }

  /** The fitted text is the best fit. */
  lemma FittedTextIsOptimal(text: string, limit: int)
    ensures IsBestFit(FittedText(text, limit), text, limit)
  {
    hide WireSize, CutMiddle, KeepsEnds;
    if WireSize(Str(text)) > limit {
      var best := LargestCut(text, limit, |text|);
      if best.Some? {
        WholeCutIsLonger(text);
        CutKeepsEnds(text, best.value);
        assert CutFits(text, best.value, limit);
      }
    }
  }

  /** Keeping every character and adding the marker is longer than the text itself. */
  lemma WholeCutIsLonger(text: string)
    ensures WireSize(Str(CutMiddle(text, |text|))) > WireSize(Str(text))
  {
    hide Escapes, Marker, CutMiddle;
    var n := |text|;
    var base := MarkerSize();
    CutSize(text, n, base);
    var front, back := text[..n - n / 2], text[n - n / 2..];
    assert text == front + back;
    EscapesConcat(front, back, true);
  }

  lemma QuotedSize(text: string)
    ensures WireSize(Str(text)) == 2 + |Escapes(text, true)|
  {
  }

  lemma {:induction false} NothingFitsBelowTwo(text: string, limit: int, upTo: nat)
    requires limit < 2 && upTo <= |text|
    ensures LargestCut(text, limit, upTo) == None
  {
    hide WireSize, CutMiddle;
    QuotedSize(CutMiddle(text, upTo));
    if upTo > 0 {
      NothingFitsBelowTwo(text, limit, upTo - 1);
    }
  }

  /** The fitted text meets its limit exactly when the limit leaves room for two quotes; below
      that nothing is left of it. */
  lemma FittedTextFits(text: string, limit: int)
    ensures WireSize(Str(FittedText(text, limit))) <= limit <==> limit >= 2
    ensures limit < 2 ==> FittedText(text, limit) == ""
  {
    hide WireSize, CutMiddle;
    QuotedSize(text);
    QuotedSize("");
    QuotedSize(FittedText(text, limit));
    if limit < 2 {
      NothingFitsBelowTwo(text, limit, |text|);
    }
  }

  // ---------------------------------------------------------------- blocks

  predicate IsBlock(v: Value) {
    v.Obj? && var t := Get(v.fields, "type"); t.Some? && t.value.Str?
  }

  predicate IsMedia(v: Value)
    requires IsBlock(v)
  {
    Get(v.fields, "type").value.s in ["image", "audio"]
  }

  predicate AllBlocks(items: seq<Value>) {
    forall i :: 0 <= i < |items| ==> IsBlock(items[i])
  }

  /** `block.get(first) or block.get(second)`; None stands for a falsy answer. */
  function GetEither(fields: seq<Field>, first: string, second: string): Option<Value> {
    var a, b := Get(fields, first), Get(fields, second);
    if a.Some? && Truthy(a.value) then a
    else if b.Some? && Truthy(b.value) then b else None
  }

  function DecodedSize(block: Value): nat
    requires IsBlock(block)
  {
    match GetEither(block.fields, "data", "base64")
    case Some(Str(data)) => |data| * 3 / 4
    case _ => 0
  }

  function BlockText(block: Value): string
    requires IsBlock(block)
  {
    var text := Get(block.fields, "text");
    if Get(block.fields, "type").value.s == "text" && text.Some? && text.value.Str?
    then text.value.s else Dumps(block, false)
  }

  /** The number's digits in groups of three, `{n:,}`. */
  function Grouped(n: nat): string {
    if n < 1000 then Decimal(n)
    else
      var low := n % 1000;
      Grouped(n / 1000) + "," + (if low < 10 then "00" else if low < 100 then "0" else "") + Decimal(low)
  }

  function GroupedInt(n: int): string {
    if n < 0 then "-" + Grouped(-n) else Grouped(n)
  }

  function OmittedMediaNote(block: Value, size: nat, limit: int): (note: Value)
    requires IsBlock(block)
    ensures IsBlock(note) && !IsMedia(note)
  {
    var kind := Get(block.fields, "type").value.s;
    var mime := match GetEither(block.fields, "mimeType", "mime_type")
      case Some(Str(s)) => s
      case Some(other) => Dumps(other, false)
      case None => kind;
    TextBlock("[" + mime + " " + kind + " omitted: " + Grouped(size) + " bytes is more than the "
              + GroupedInt(limit) + "-byte media limit for one device result]")
  }

  function Media(blocks: seq<Value>): (r: seq<Value>)
    requires AllBlocks(blocks)
    ensures AllBlocks(r) && forall i :: 0 <= i < |r| ==> IsMedia(r[i])
  {
    if |blocks| == 0 then [] else (if IsMedia(blocks[0]) then [blocks[0]] else []) + Media(blocks[1..])
  }

  function Others(blocks: seq<Value>): (r: seq<Value>)
    requires AllBlocks(blocks)
    ensures AllBlocks(r) && forall i :: 0 <= i < |r| ==> !IsMedia(r[i])
  {
    if |blocks| == 0 then [] else (if IsMedia(blocks[0]) then [] else [blocks[0]]) + Others(blocks[1..])
  }

  function MediaSize(blocks: seq<Value>): nat
    requires AllBlocks(blocks)
  {
    if |blocks| == 0 then 0
    else (if IsMedia(blocks[0]) then DecodedSize(blocks[0]) else 0) + MediaSize(blocks[1..])
  }

  /** What the loop does to one block: kept when it is not media or fits, else a note. */
  function PlacedBlock(block: Value, left: int, limit: int): (r: (Value, int))
    requires IsBlock(block)
    ensures IsBlock(r.0)
    ensures left - r.1 == if IsMedia(r.0) then DecodedSize(r.0) else 0
  {
    if !IsMedia(block) then (block, left)
    else if DecodedSize(block) <= left then (block, left - DecodedSize(block))
    else (OmittedMediaNote(block, DecodedSize(block), limit), left)
  }

  /** Every block with the media that no longer fits in `left` replaced by its note. */
  function Place(blocks: seq<Value>, left: int, limit: int): (r: seq<Value>)
    requires AllBlocks(blocks)
    ensures |r| == |blocks| && AllBlocks(r)
  {
    if |blocks| == 0 then [] else
    var (first, rest) := PlacedBlock(blocks[0], left, limit);
    [first] + Place(blocks[1..], rest, limit)
  }

  function BlockTexts(blocks: seq<Value>): (r: seq<string>)
    requires AllBlocks(blocks)
    ensures |r| == |blocks|
  {
    if |blocks| == 0 then [] else [BlockText(blocks[0])] + BlockTexts(blocks[1..])
  }

  function CappedBlocks(blocks: seq<Value>, maxText: int, maxMedia: int): (r: (seq<Value>, bool))
    requires AllBlocks(blocks)
    ensures AllBlocks(r.0)
    ensures |blocks| > 0 ==> |r.0| > 0
  {
    hide IsBlock, IsMedia, WireSize, OnlyText;
    var placed := Place(blocks, maxMedia, maxMedia);
    var others := Others(placed);
    if WireSize(Arr(others)) <= maxText then (placed, placed != blocks)
    else ([OnlyText(others, maxText)] + Media(placed), true)
  }

  /** The one text block that is left of all text when it is too long. */
  function OnlyText(others: seq<Value>, maxText: int): (block: Value)
    requires AllBlocks(others)
    ensures IsBlock(block)
  {
    TextBlock(FittedText(Join("\n", BlockTexts(others)), maxText - TEXT_BLOCK_OVERHEAD))
  }

  lemma {:induction false} MediaAppend(a: seq<Value>, b: seq<Value>)
    requires AllBlocks(a) && AllBlocks(b)
    ensures AllBlocks(a + b)
    ensures Media(a + b) == Media(a) + Media(b)
    ensures Others(a + b) == Others(a) + Others(b)
    ensures MediaSize(a + b) == MediaSize(a) + MediaSize(b)
  {
    hide IsMedia, IsBlock, DecodedSize;
    if a == [] {
      assert a + b == b;
    } else {
      assert (a + b)[1..] == a[1..] + b;
      MediaAppend(a[1..], b);
    }
  }

  /** One turn of the loop over the blocks: `placed` and the budget after block `i`. */
  lemma PlaceNext(blocks: seq<Value>, i: nat, placed: seq<Value>, left: int, limit: int, next: Value, rest: int)
    requires AllBlocks(blocks) && i < |blocks| && |placed| == i
    requires PlacedBlock(blocks[i], left, limit) == (next, rest)
    ensures (placed + [next]) + Place(blocks[i + 1..], rest, limit) == placed + Place(blocks[i..], left, limit)
    ensures (placed + [next] != blocks[..i + 1]) <==> (placed != blocks[..i] || next != blocks[i])
  {
    hide PlacedBlock, IsBlock, IsMedia, DecodedSize, Place;
    assert blocks[i..][1..] == blocks[i + 1..];
    PlaceFirst(blocks[i..], left, limit);
    assert blocks[..i + 1] == blocks[..i] + [blocks[i]];
    assert (placed + [next])[..i] == placed;
  }

  /** The first block, and the others with what it leaves. */
  lemma PlaceFirst(blocks: seq<Value>, left: int, limit: int)
    requires AllBlocks(blocks) && blocks != []
    ensures var (first, rest) := PlacedBlock(blocks[0], left, limit);
            Place(blocks, left, limit) == [first] + Place(blocks[1..], rest, limit)
  {
    hide PlacedBlock, IsBlock;
  }

  method CapBlocks(blocks: seq<Value>, maxText: int, maxMedia: int) returns (r: seq<Value>, truncated: bool)
    requires AllBlocks(blocks)
    ensures (r, truncated) == CappedBlocks(blocks, maxText, maxMedia)
  {
    hide OmittedMediaNote, Place, WireSize, DecodedSize, FittedText, BlockTexts, TextBlock, IsMedia, IsBlock, Join;
    truncated := false;
    var mediaLeft := maxMedia;
    var placed: seq<Value> := [];
    for i := 0 to |blocks|
      invariant AllBlocks(placed) && |placed| == i
      invariant placed + Place(blocks[i..], mediaLeft, maxMedia) == Place(blocks, maxMedia, maxMedia)
      invariant truncated == (placed != blocks[..i])
    {
      var block := blocks[i];
      if !IsMedia(block) {
        PlaceNext(blocks, i, placed, mediaLeft, maxMedia, block, mediaLeft);
        placed := placed + [block];
        continue;
      }
      var size := DecodedSize(block);
      if size <= mediaLeft {
        PlaceNext(blocks, i, placed, mediaLeft, maxMedia, block, mediaLeft - size);
        mediaLeft := mediaLeft - size;
        placed := placed + [block];
        continue;
      }
      var note := OmittedMediaNote(block, size, maxMedia);
      PlaceNext(blocks, i, placed, mediaLeft, maxMedia, note, mediaLeft);
      placed := placed + [note];
      truncated := true;
    }
    assert blocks[..|blocks|] == blocks;
    assert placed == Place(blocks, maxMedia, maxMedia) by {
      assert |Place(blocks[|blocks|..], mediaLeft, maxMedia)| == 0;
    }
    var others := Others(placed);
    if WireSize(Arr(others)) <= maxText {
      return placed, truncated;
    }
    var fitted := FitText(Join("\n", BlockTexts(others)), maxText - TEXT_BLOCK_OVERHEAD);
    r, truncated := [TextBlock(fitted)] + Media(placed), true;
  }

  predicate IsBlockList(v: Value) {
    v.Arr? && v.items != [] && AllBlocks(v.items)
  }

  function Capped(v: Value, maxText: int, maxMedia: int): (Value, bool) {
    if IsBlockList(v) then
      var (blocks, truncated) := CappedBlocks(v.items, maxText, maxMedia);
      (Arr(blocks), truncated)
    else if WireSize(v) <= maxText then (v, false)
    else if v.Str? then (Str(FittedText(v.s, maxText)), true)
    else (Str(FittedText(Dumps(v, false), maxText)), true)
  }

  method CapToolResult(v: Value, maxText: int, maxMedia: int) returns (r: Value, truncated: bool)
    ensures (r, truncated) == Capped(v, maxText, maxMedia)
  {
    if IsBlockList(v) {
      var blocks;
      blocks, truncated := CapBlocks(v.items, maxText, maxMedia);
      r := Arr(blocks);
    } else if WireSize(v) <= maxText {
      r, truncated := v, false;
    } else if v.Str? {
      var fitted := FitText(v.s, maxText);
      r, truncated := Str(fitted), true;
    } else {
      var text := Dumps(v, false);
      var fitted := FitText(text, maxText);
      r, truncated := Str(fitted), true;
    }
  }

  // ---------------------------------------------------------------- what the cap promises

  /** The part of a result the text budget is about: everything that is not media. */
  function TextPart(v: Value): Value {
    if IsBlockList(v) then Arr(Others(v.items)) else v
  }

  function MediaPart(v: Value): (r: seq<Value>)
    ensures AllBlocks(r)
  {
    if IsBlockList(v) then Media(v.items) else []
  }

  /** A block is kept exactly when it is not media or still fits in what the media kept before
      it left over; anything else is in its place as a note. */
  lemma {:induction false} PlaceIsGreedy(blocks: seq<Value>, left: int, limit: int, i: nat)
    requires AllBlocks(blocks) && i < |blocks|
    ensures var placed := Place(blocks, left, limit);
            placed[i] == PlacedBlock(blocks[i], left - MediaSize(placed[..i]), limit).0
  {
    hide IsMedia, IsBlock, DecodedSize, PlacedBlock;
    var placed := Place(blocks, left, limit);
    if i == 0 {
      assert placed[..0] == [];
    } else {
      var (first, rest) := PlacedBlock(blocks[0], left, limit);
      var tail := Place(blocks[1..], rest, limit);
      PlaceIsGreedy(blocks[1..], rest, limit, i - 1);
      assert placed[..i] == [first] + tail[..i - 1];
      assert ([first] + tail[..i - 1])[1..] == tail[..i - 1];
    }
  }

  lemma {:induction false} PlacedMediaFits(blocks: seq<Value>, left: nat, limit: int)
    requires AllBlocks(blocks)
    ensures MediaSize(Place(blocks, left, limit)) <= left
  {
    hide OmittedMediaNote;
    if blocks != [] {
      var block := blocks[0];
      var rest := if IsMedia(block) && DecodedSize(block) <= left then left - DecodedSize(block) else left;
      PlacedMediaFits(blocks[1..], rest, limit);
      assert Place(blocks, left, limit)[1..] == Place(blocks[1..], rest, limit);
    }
  }

  lemma {:induction false} NothingFitsBelowZero(blocks: seq<Value>, left: int, limit: int)
    requires AllBlocks(blocks) && left < 0
    ensures Media(Place(blocks, left, limit)) == []
  {
    if blocks != [] {
      NothingFitsBelowZero(blocks[1..], left, limit);
      assert Place(blocks, left, limit)[1..] == Place(blocks[1..], left, limit);
    }
  }

  /** Blocks whose media fits as a whole, or that hold none, are placed unchanged. */
  lemma {:induction false} PlaceKeepsWhatFits(blocks: seq<Value>, left: int, limit: int)
    requires AllBlocks(blocks)
    requires Media(blocks) == [] || MediaSize(blocks) <= left
    ensures Place(blocks, left, limit) == blocks
  {
    if blocks != [] {
      var rest := if IsMedia(blocks[0]) then left - DecodedSize(blocks[0]) else left;
      PlaceKeepsWhatFits(blocks[1..], rest, limit);
    }
  }

  predicate Subsequence(a: seq<Value>, b: seq<Value>) {
    || a == []
    || (b != [] && ((a[0] == b[0] && Subsequence(a[1..], b[1..])) || Subsequence(a, b[1..])))
  }

  lemma {:induction false} PlaceKeepsMediaOrder(blocks: seq<Value>, left: int, limit: int)
    requires AllBlocks(blocks)
    ensures Subsequence(Media(Place(blocks, left, limit)), Media(blocks))
  {
    hide IsBlock, IsMedia, DecodedSize, PlacedBlock, Place, Media, Subsequence;
    if blocks == [] {
      NoMedia(blocks, left, limit);
    } else {
      var (first, rest) := PlacedBlock(blocks[0], left, limit);
      PlaceKeepsMediaOrder(blocks[1..], rest, limit);
      PlaceFirst(blocks, left, limit);
      MediaFirst(first, Place(blocks[1..], rest, limit));
      MediaFirst(blocks[0], blocks[1..]);
      assert [blocks[0]] + blocks[1..] == blocks;
      PlacedMedia(blocks[0], left, limit);
      SubsequenceFirst(Media(Place(blocks[1..], rest, limit)), Media(blocks[1..]), blocks[0]);
    }
  }

  lemma NoMedia(blocks: seq<Value>, left: int, limit: int)
    requires blocks == []
    ensures Subsequence(Media(Place(blocks, left, limit)), Media(blocks))
  {
  }

  lemma MediaFirst(block: Value, rest: seq<Value>)
    requires IsBlock(block) && AllBlocks(rest)
    ensures Media([block] + rest) == (if IsMedia(block) then [block] else []) + Media(rest)
  {
    hide IsBlock, IsMedia;
    assert ([block] + rest)[1..] == rest;
  }

  /** A block that is still media where it was placed is itself. */
  lemma PlacedMedia(block: Value, left: int, limit: int)
    requires IsBlock(block)
    ensures IsMedia(PlacedBlock(block, left, limit).0) ==> PlacedBlock(block, left, limit).0 == block
  {
    hide IsMedia, DecodedSize;
  }

  lemma SubsequenceFirst(a: seq<Value>, b: seq<Value>, x: Value)
    requires Subsequence(a, b)
    ensures Subsequence([x] + a, [x] + b) && Subsequence(a, [x] + b) && Subsequence([] + a, [] + b)
         && Subsequence([] + a, [x] + b)
  {
    assert ([x] + a)[1..] == a && ([x] + b)[1..] == b && [] + a == a && [] + b == b;
  }

  /** The media of a capped block list, whichever way its text went. */
  lemma CappedMedia(blocks: seq<Value>, maxText: int, maxMedia: int)
    requires AllBlocks(blocks)
    ensures Media(CappedBlocks(blocks, maxText, maxMedia).0) == Media(Place(blocks, maxMedia, maxMedia))
  {
    hide Place, WireSize, FittedText, BlockTexts;
    var placed := Place(blocks, maxMedia, maxMedia);
    var kept := Media(placed);
    var r := CappedBlocks(blocks, maxText, maxMedia).0;
    if r != placed {
      assert r[1..] == kept && !IsMedia(r[0]);
      assert Media(r) == Media(kept);
      MediaOfMedia(kept);
    }
  }

  lemma {:induction false} MediaOfMedia(kept: seq<Value>)
    requires AllBlocks(kept) && forall i :: 0 <= i < |kept| ==> IsMedia(kept[i])
    ensures Media(kept) == kept && Others(kept) == []
  {
    if kept != [] {
      MediaOfMedia(kept[1..]);
      assert kept == [kept[0]] + kept[1..];
    }
  }

  lemma {:induction false} MediaSizeOfMedia(blocks: seq<Value>)
    requires AllBlocks(blocks)
    ensures MediaSize(Media(blocks)) == MediaSize(blocks)
  {
    if blocks != [] {
      MediaSizeOfMedia(blocks[1..]);
      MediaAppend(if IsMedia(blocks[0]) then [blocks[0]] else [], Media(blocks[1..]));
      assert IsMedia(blocks[0]) ==> MediaSize([blocks[0]]) == DecodedSize(blocks[0]) + MediaSize([]);
    }
  }

  /** Media stays whole and in order: what is left of it is a subsequence of what came in. */
  lemma MediaKeptWholeInOrder(v: Value, maxText: int, maxMedia: int)
    ensures Subsequence(MediaPart(Capped(v, maxText, maxMedia).0), MediaPart(v))
  {
    if IsBlockList(v) {
      CappedMedia(v.items, maxText, maxMedia);
      PlaceKeepsMediaOrder(v.items, maxMedia, maxMedia);
    }
  }

  /** The media budget holds exactly when it is not negative or there is no media at all. */
  lemma MediaBudgetHolds(v: Value, maxText: int, maxMedia: int)
    ensures var kept := MediaPart(Capped(v, maxText, maxMedia).0);
            && (MediaSize(kept) <= maxMedia <==> maxMedia >= 0)
            && (maxMedia < 0 ==> kept == [])
  {
    if IsBlockList(v) {
      CappedMedia(v.items, maxText, maxMedia);
      var placed := Place(v.items, maxMedia, maxMedia);
      MediaSizeOfMedia(placed);
      if maxMedia >= 0 {
        PlacedMediaFits(v.items, maxMedia, maxMedia);
      } else {
        NothingFitsBelowZero(v.items, maxMedia, maxMedia);
      }
    }
  }

  /** What the text budget is compared with before anything is cut. */
  function TextBefore(v: Value, maxMedia: int): Value {
    if IsBlockList(v) then Arr(Others(Place(v.items, maxMedia, maxMedia))) else v
  }

  /** The least text budget that can be honoured by cutting. */
  function LeastTextBudget(v: Value): int {
    if IsBlockList(v) then TEXT_BLOCK_OVERHEAD + 2 else 2
  }

  lemma OthersOfCut(text: Value, media: seq<Value>)
    requires IsBlock(text) && !IsMedia(text) && AllBlocks(media) && forall i :: 0 <= i < |media| ==> IsMedia(media[i])
    ensures AllBlocks([text] + media) && Others([text] + media) == [text]
  {
    hide IsMedia, IsBlock;
    MediaOfMedia(media);
    assert ([text] + media)[1..] == media;
  }

  /** A block list whose text is over its budget comes back as one text block and its media. */
  lemma CutBlocks(blocks: seq<Value>, maxText: int, maxMedia: int) returns (fitted: string)
    requires AllBlocks(blocks)
    requires WireSize(Arr(Others(Place(blocks, maxMedia, maxMedia)))) > maxText
    ensures CappedBlocks(blocks, maxText, maxMedia)
         == ([TextBlock(fitted)] + Media(Place(blocks, maxMedia, maxMedia)), true)
    ensures fitted
         == FittedText(Join("\n", BlockTexts(Others(Place(blocks, maxMedia, maxMedia)))), maxText - TEXT_BLOCK_OVERHEAD)
    ensures Others(CappedBlocks(blocks, maxText, maxMedia).0) == [TextBlock(fitted)]
    ensures WireSize(Arr([TextBlock(fitted)])) <= maxText <==> maxText >= TEXT_BLOCK_OVERHEAD + 2
    ensures maxText < TEXT_BLOCK_OVERHEAD + 2 ==> fitted == ""
  {
    hide Place, WireSize, FittedText, BlockTexts, Join, Escapes, Dumps, Media;
    var placed := Place(blocks, maxMedia, maxMedia);
    var joined := Join("\n", BlockTexts(Others(placed)));
    fitted := FittedText(joined, maxText - TEXT_BLOCK_OVERHEAD);
    OthersOfCut(TextBlock(fitted), Media(placed));
    TextBlockSize(fitted);
    FittedTextFits(joined, maxText - TEXT_BLOCK_OVERHEAD);
  }

  /** The text budget holds exactly when nothing has to be cut, or the budget covers the empty
      text (of a block list: the empty text block). */
  lemma TextBudgetHolds(v: Value, maxText: int, maxMedia: int)
    ensures var r := Capped(v, maxText, maxMedia).0;
      WireSize(TextPart(r)) <= maxText <==>
        WireSize(TextBefore(v, maxMedia)) <= maxText || maxText >= LeastTextBudget(v)
  {
    hide Place, WireSize, FittedText, BlockTexts, Join;
    if IsBlockList(v) {
      if WireSize(TextBefore(v, maxMedia)) > maxText {
        var fitted := CutBlocks(v.items, maxText, maxMedia);
      }
    } else if WireSize(v) > maxText {
      FittedTextFits(if v.Str? then v.s else Dumps(v, false), maxText);
    }
  }

  /** With a budget of one byte a text becomes empty, and the two quotes it is sent in are over it. */
  lemma OneByteIsExceeded(maxMedia: int)
    ensures var (r, truncated) := Capped(Str("result"), 1, maxMedia); r == Str("") && truncated && WireSize(r) == 2
  {
    hide Escapes, FittedText;
    FittedTextFits("result", 1);
    QuotedSize("result");
    NoEscapes();
  }

  lemma NoEscapes()
    ensures WireSize(Str("")) == 2
  {
  }

  /** Capping what was capped changes nothing, and reports nothing cut unless the text budget
      is one that cannot be met. The server repeats the cap the device applied. */
  lemma CapIsIdempotent(v: Value, maxText: int, maxMedia: int)
    ensures var r := Capped(v, maxText, maxMedia).0;
            Capped(r, maxText, maxMedia) == (r, WireSize(TextPart(r)) > maxText)
  {
    hide CappedBlocks, FittedText, WireSize;
    if IsBlockList(v) {
      CapBlocksIsIdempotent(v.items, maxText, maxMedia);
    } else if WireSize(v) > maxText {
      FittedTextFits(if v.Str? then v.s else Dumps(v, false), maxText);
      FittedTextFits("", maxText);
    }
  }

  /** Capped media fits the media budget a second time. */
  lemma CappedMediaFitsAgain(blocks: seq<Value>, maxText: int, maxMedia: int)
    requires AllBlocks(blocks)
    ensures var r := CappedBlocks(blocks, maxText, maxMedia).0;
            Place(r, maxMedia, maxMedia) == r
  {
    hide CappedBlocks, Place, MediaSize;
    var r := CappedBlocks(blocks, maxText, maxMedia).0;
    CappedMedia(blocks, maxText, maxMedia);
    MediaSizeOfMedia(Place(blocks, maxMedia, maxMedia));
    MediaSizeOfMedia(r);
    if maxMedia >= 0 {
      PlacedMediaFits(blocks, maxMedia, maxMedia);
    } else {
      NothingFitsBelowZero(blocks, maxMedia, maxMedia);
    }
    PlaceKeepsWhatFits(r, maxMedia, maxMedia);
  }

  lemma CapBlocksIsIdempotent(blocks: seq<Value>, maxText: int, maxMedia: int)
    requires AllBlocks(blocks) && blocks != []
    ensures var r := CappedBlocks(blocks, maxText, maxMedia).0;
            CappedBlocks(r, maxText, maxMedia) == (r, WireSize(Arr(Others(r))) > maxText)
  {
    hide Place, WireSize, FittedText, Join, IsMedia, Others;
    var r := CappedBlocks(blocks, maxText, maxMedia).0;
    CappedMediaFitsAgain(blocks, maxText, maxMedia);
    CappedMedia(blocks, maxText, maxMedia);
    if WireSize(Arr(Others(Place(blocks, maxMedia, maxMedia)))) > maxText {
      var fitted := CutBlocks(blocks, maxText, maxMedia);
      if WireSize(Arr([TextBlock(fitted)])) > maxText {
        var again := CutBlocks(r, maxText, maxMedia);
      }
    }
  }
}

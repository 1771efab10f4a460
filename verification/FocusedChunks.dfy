/** app/ai/focused_tool_result.py: cutting one leaf of a tool result into bounded pieces.

    A leaf is split at blank lines, then at word boundaries, or at the bound itself where the
    text has no spaces. Nothing but white space and very short paragraphs may get lost. */
module FocusedChunks {
  import opened PythonText

  const CANDIDATE_MAX_CHARS: nat := 1_200
  const MAX_CHUNKS_PER_LEAF: nat := 60
  const MIN_CANDIDATE_CHARS: nat := 3

  // ---------------------------------------------------------------- paragraphs

  /** How many white-space characters `s` starts with. */
  function SpaceRun(s: string): (n: nat)
    ensures n <= |s| && AllSpace(s[..n])
  {
    if s == "" || !IsSpace(s[0]) then 0
    else
      var n := SpaceRun(s[1..]);
      assert s[..n + 1] == [s[0]] + s[1..][..n];
      n + 1
  }

  /** One past the last newline among the first `n` characters, or 0. */
  function PastLastNewline(s: string, n: nat): (end: nat)
    requires n <= |s|
    ensures end <= n
  {
    if n == 0 then 0 else if s[n - 1] == '\n' then n else PastLastNewline(s, n - 1)
  }

  /** Length of the paragraph break `\n\s*\n` that `s` starts with, or 0. */
  function BreakLength(s: string): (n: nat)
    ensures n <= |s| && AllSpace(s[..n])
  {
    var end := PastLastNewline(s, SpaceRun(s));
    assert s[..end] == s[..SpaceRun(s)][..end];
    if s != "" && s[0] == '\n' && end >= 2 then end else 0
  }

  /** `re.split(r"\n\s*\n", s)` */
  function Paragraphs(s: string): (r: seq<string>)
    ensures |r| >= 1
  {
    if s == "" then [""]
    else if BreakLength(s) > 0 then [""] + Paragraphs(s[BreakLength(s)..])
    else var rest := Paragraphs(s[1..]); [[s[0]] + rest[0]] + rest[1..]
  }

  /** A paragraph break: a newline, any white space, and another newline. */
  predicate IsBreak(s: string) {
    |s| >= 2 && s[0] == '\n' && s[|s| - 1] == '\n' && AllSpace(s)
  }

  lemma {:induction false} LongestSpaceRun(s: string)
    ensures SpaceRun(s) < |s| ==> !IsSpace(s[SpaceRun(s)])
  {
    hide IsSpace;
    if s != "" && IsSpace(s[0]) {
      LongestSpaceRun(s[1..]);
    }
  }

  lemma {:induction false} LastNewlineIs(s: string, n: nat)
    requires n <= |s|
    ensures var end := PastLastNewline(s, n);
      && (end > 0 ==> s[end - 1] == '\n') && forall i :: end <= i < n ==> s[i] != '\n'
  {
    if n > 0 {
      LastNewlineIs(s, n - 1);
    }
  }

  /** The text starts with a break exactly when some break is found, and then with the longest. */
  lemma LongestBreak(s: string, n: nat)
    requires n <= |s|
    ensures IsBreak(s[..n]) ==> n <= BreakLength(s)
    ensures BreakLength(s) > 0 ==> IsBreak(s[..BreakLength(s)])
  {
    hide IsSpace;
    var run := SpaceRun(s);
    LongestSpaceRun(s);
    LastNewlineIs(s, run);
    if IsBreak(s[..n]) {
      assert s[..n][n - 1] == s[n - 1] == '\n' && s[..n][0] == s[0];
      forall i | 0 <= i < n
        ensures IsSpace(s[i])
      {
        assert s[..n][i] == s[i];
      }
    }
  }

  /** Parts with separators between them. */
  function Weave(parts: seq<string>, breaks: seq<string>): string
    requires |parts| == |breaks| + 1
  {
    if |breaks| == 0 then parts[0] else parts[0] + breaks[0] + Weave(parts[1..], breaks[1..])
  }

  /** No break starts anywhere in the text. */
  predicate HasNoBreak(s: string) {
    forall i, n :: 0 <= i <= n <= |s| ==> !IsBreak(s[i..n])
  }

  lemma StartsNoBreak(c: char, s: string, rest: string)
    requires HasNoBreak(s) && BreakLength([c] + s + rest) == 0
    ensures HasNoBreak([c] + s)
  {
    hide IsBreak;
    var all := [c] + s + rest;
    forall i, n | 0 <= i <= n <= |[c] + s|
      ensures !IsBreak(([c] + s)[i..n])
    {
      if i == 0 {
        LongestBreak(all, n);
        assert all[..n] == ([c] + s)[..n];
        NoEmptyBreak(all[..n]);
      } else {
        assert ([c] + s)[i..n] == s[i - 1..n - 1];
      }
    }
  }

  lemma NoEmptyBreak(s: string)
    ensures IsBreak(s) ==> |s| > 0
  {
  }

  /** The paragraphs are the text cut at its breaks: woven together with them they are the text, and no
      break is left in any of them. */
  lemma {:induction false} ParagraphsAre(s: string) returns (breaks: seq<string>)
    ensures AreParagraphs(s, Paragraphs(s), breaks)
  {
    hide AreParagraphs, BreakLength, Paragraphs;
    if s == "" {
      breaks := [];
      NoParagraphs();
    } else if BreakLength(s) > 0 {
      var later := ParagraphsAre(s[BreakLength(s)..]);
      breaks := [s[..BreakLength(s)]] + later;
      BreakFirst(s, later);
    } else {
      breaks := ParagraphsAre(s[1..]);
      CharFirst(s, breaks);
    }
  }

  ghost predicate AreParagraphs(s: string, parts: seq<string>, breaks: seq<string>) {
    && |parts| == |breaks| + 1 && Weave(parts, breaks) == s
    && (forall b :: b in breaks ==> IsBreak(b))
    && (forall part :: part in parts ==> HasNoBreak(part))
  }

  lemma NoParagraphs()
    ensures AreParagraphs("", Paragraphs(""), [])
  {
    EmptyHasNoBreak();
  }

  lemma ParagraphsNext(s: string)
    requires s != ""
    ensures BreakLength(s) > 0 ==> Paragraphs(s) == [""] + Paragraphs(s[BreakLength(s)..])
    ensures BreakLength(s) == 0 ==>
      var rest := Paragraphs(s[1..]); Paragraphs(s) == [[s[0]] + rest[0]] + rest[1..]
  {
    hide BreakLength;
  }

  lemma BreakFirst(s: string, later: seq<string>)
    requires BreakLength(s) > 0 && AreParagraphs(s[BreakLength(s)..], Paragraphs(s[BreakLength(s)..]), later)
    ensures AreParagraphs(s, Paragraphs(s), [s[..BreakLength(s)]] + later)
  {
    hide IsBreak, HasNoBreak, BreakLength, Weave, Paragraphs;
    var n := BreakLength(s);
    LongestBreak(s, n);
    EmptyHasNoBreak();
    ParagraphsNext(s);
    var rest := Paragraphs(s[n..]);
    WeaveMore("", rest, s[..n], later);
    assert s == "" + s[..n] + s[n..];
  }

  lemma WeaveMore(part: string, parts: seq<string>, b: string, breaks: seq<string>)
    requires |parts| == |breaks| + 1
    ensures Weave([part] + parts, [b] + breaks) == part + b + Weave(parts, breaks)
  {
    assert ([part] + parts)[1..] == parts && ([b] + breaks)[1..] == breaks;
  }

  lemma CharFirst(s: string, breaks: seq<string>)
    requires s != "" && BreakLength(s) == 0 && AreParagraphs(s[1..], Paragraphs(s[1..]), breaks)
    ensures AreParagraphs(s, Paragraphs(s), breaks)
  {
    hide IsBreak, HasNoBreak, BreakLength, Weave, Paragraphs;
    ParagraphsNext(s);
    var rest := Paragraphs(s[1..]);
    WeaveFirst(s[0], rest, breaks);
    assert s == [s[0]] + s[1..];
    var tail := if breaks == [] then "" else breaks[0] + Weave(rest[1..], breaks[1..]);
    assert s == [s[0]] + rest[0] + tail;
    assert rest[0] in rest;
    StartsNoBreak(s[0], rest[0], tail);
    assert forall part :: part in rest[1..] ==> part in rest;
  }

  lemma EmptyHasNoBreak()
    ensures HasNoBreak("")
  {
  }

  lemma WeaveFirst(c: char, parts: seq<string>, breaks: seq<string>)
    requires |parts| == |breaks| + 1
    ensures Weave([[c] + parts[0]] + parts[1..], breaks) == [c] + Weave(parts, breaks)
    ensures Weave(parts, breaks) == parts[0] + (if breaks == [] then "" else breaks[0] + Weave(parts[1..], breaks[1..]))
  {
    assert ([[c] + parts[0]] + parts[1..])[1..] == parts[1..];
  }

  /** The characters of all parts that are not white space, in order. */
  function NonSpaceOfAll(parts: seq<string>): string {
    if |parts| == 0 then "" else NonSpace(parts[0]) + NonSpaceOfAll(parts[1..])
  }

  lemma {:induction false} NonSpaceOfAllAppend(a: seq<string>, b: seq<string>)
    ensures NonSpaceOfAll(a + b) == NonSpaceOfAll(a) + NonSpaceOfAll(b)
  {
    if a == [] {
      assert a + b == b;
    } else {
      assert (a + b)[1..] == a[1..] + b;
      NonSpaceOfAllAppend(a[1..], b);
    }
  }

  lemma EmptyParagraphs()
    ensures NonSpaceOfAll(Paragraphs("")) == NonSpace("")
  {
    assert Paragraphs("") == [""] && NonSpaceOfAll([""]) == NonSpace("") + NonSpaceOfAll([]);
  }

  /** Paragraph breaks are white space, so splitting at them loses nothing else. */
  lemma {:induction false} ParagraphsKeepText(s: string)
    ensures NonSpaceOfAll(Paragraphs(s)) == NonSpace(s)
  {
    hide IsSpace, BreakLength, Paragraphs;
    if s == "" {
      EmptyParagraphs();
    } else {
      ParagraphsNext(s);
      var n := BreakLength(s);
      if n > 0 {
        ParagraphsKeepText(s[n..]);
        assert s == s[..n] + s[n..];
        NonSpaceConcat(s[..n], s[n..]);
        NonSpaceOfSpaces(s[..n]);
      } else {
        ParagraphsKeepText(s[1..]);
        var rest := Paragraphs(s[1..]);
        NonSpaceConcat([s[0]], rest[0]);
        assert s == [s[0]] + s[1..];
        NonSpaceConcat([s[0]], s[1..]);
        assert Paragraphs(s)[1..] == rest[1..];
      }
    }
  }

  // ---------------------------------------------------------------- pieces of a paragraph

  /** `s.rfind(" ", 0, end)` */
  function LastSpace(s: string, end: nat): (i: int)
    requires end <= |s|
    ensures -1 <= i < end
    ensures i >= 0 ==> s[i] == ' '
    ensures forall j :: i < j < end ==> s[j] != ' '
  {
    if end == 0 then -1 else if s[end - 1] == ' ' then end - 1 else LastSpace(s, end - 1)
  }

  /** Where an oversized block is cut: at its last usable space, else at the bound. */
  function Cut(block: string): (cut: nat)
    requires |block| > CANDIDATE_MAX_CHARS
    ensures 0 < cut <= CANDIDATE_MAX_CHARS
    ensures if cut < CANDIDATE_MAX_CHARS
            then block[cut] == ' ' && forall j :: cut < j < CANDIDATE_MAX_CHARS ==> block[j] != ' '
            else forall j :: 0 < j < CANDIDATE_MAX_CHARS ==> block[j] != ' '
  {
    var cut := LastSpace(block, CANDIDATE_MAX_CHARS);
    if cut <= 0 then CANDIDATE_MAX_CHARS else cut
  }

  lemma StripShortens(s: string)
    ensures |Strip(s)| <= |s|
  {
    var before, after := StripSplit(s);
  }

  /** The pieces of a stripped block; `wasCut` when it is what a cut left over. */
  function BlockPieces(block: string, wasCut: bool): seq<string>
    decreases |block|
  {
    if |block| > CANDIDATE_MAX_CHARS then
      StripShortens(block[Cut(block)..]);
      [Strip(block[..Cut(block)])] + BlockPieces(Strip(block[Cut(block)..]), true)
    else if block != "" && (wasCut || |block| >= MIN_CANDIDATE_CHARS) then [block]
    else []
  }

  function AllPieces(blocks: seq<string>): seq<string> {
    if |blocks| == 0 then [] else BlockPieces(Strip(blocks[0]), false) + AllPieces(blocks[1..])
  }

  /** All pieces of a leaf, before the ceiling on their number. */
  function LeafPieces(raw: string): seq<string> {
    var text := Strip(raw);
    if |text| < MIN_CANDIDATE_CHARS then []
    else if |text| <= CANDIDATE_MAX_CHARS then [text]
    else AllPieces(Paragraphs(text))
  }

  /** A leaf short enough to stand alone keeps its plain path. */
  function PiecePath(path: string, raw: string, index: nat): string {
    if |Strip(raw)| <= CANDIDATE_MAX_CHARS then path else path + "#" + Decimal(index)
  }

  function Kept(pieces: seq<string>): seq<string> {
    if |pieces| <= MAX_CHUNKS_PER_LEAF then pieces else pieces[..MAX_CHUNKS_PER_LEAF]
  }

  datatype Chunk = Chunk(path: string, text: string)

  function Chunked(path: string, raw: string): (r: seq<Chunk>)
    ensures |r| == |Kept(LeafPieces(raw))|
  {
    var kept := Kept(LeafPieces(raw));
    seq(|kept|, i requires 0 <= i < |kept| => Chunk(PiecePath(path, raw, i), kept[i]))
  }

  lemma {:induction false} AllPiecesAppend(a: seq<string>, b: seq<string>)
    ensures AllPieces(a + b) == AllPieces(a) + AllPieces(b)
  {
    if a == [] {
      assert a + b == b;
    } else {
      assert (a + b)[1..] == a[1..] + b;
      AllPiecesAppend(a[1..], b);
    }
  }

  lemma AllPiecesNext(blocks: seq<string>, i: nat)
    requires i < |blocks|
    ensures AllPieces(blocks[..i + 1]) == AllPieces(blocks[..i]) + BlockPieces(Strip(blocks[i]), false)
  {
    assert blocks[..i + 1] == blocks[..i] + [blocks[i]];
    AllPiecesAppend(blocks[..i], [blocks[i]]);
    assert AllPieces([blocks[i]]) == BlockPieces(Strip(blocks[i]), false) + AllPieces([]);
  }

  method Chunks(path: string, raw: string) returns (chunks: seq<Chunk>, dropped: nat)
    ensures chunks == Chunked(path, raw)
    ensures |chunks| + dropped == |LeafPieces(raw)|
  {
    hide Strip, Paragraphs, BlockPieces, Cut, AllPieces;
    var text := Strip(raw);
    if |text| < MIN_CANDIDATE_CHARS {
      return [], 0;
    }
    if |text| <= CANDIDATE_MAX_CHARS {
      return [Chunk(path, text)], 0;
    }
    var pieces: seq<string> := [];
    var blocks := Paragraphs(text);
    NoPieces(blocks);
    for i := 0 to |blocks|
      invariant pieces == AllPieces(blocks[..i])
    {
      ghost var before := pieces;
      var more := PiecesOfBlock(Strip(blocks[i]));
      AllPiecesNext(blocks, i);
      pieces := pieces + more;
    }
    assert blocks[..|blocks|] == blocks;
    var kept := if |pieces| <= MAX_CHUNKS_PER_LEAF then pieces else pieces[..MAX_CHUNKS_PER_LEAF];
    chunks := seq(|kept|, i requires 0 <= i < |kept| => Chunk(path + "#" + Decimal(i), kept[i]));
    dropped := |pieces| - |kept|;
  }

  lemma NoPieces(blocks: seq<string>)
    ensures AllPieces(blocks[..0]) == []
  {
  }

  lemma BlockPiecesUnfold(block: string, wasCut: bool)
    ensures |block| > CANDIDATE_MAX_CHARS ==>
      BlockPieces(block, wasCut) == [Strip(block[..Cut(block)])] + BlockPieces(Strip(block[Cut(block)..]), true)
    ensures |block| <= CANDIDATE_MAX_CHARS ==>
      BlockPieces(block, wasCut) == if block != "" && (wasCut || |block| >= MIN_CANDIDATE_CHARS) then [block] else []
  {
  }

  /** The loop that cuts one stripped block down. */
  method PiecesOfBlock(stripped: string) returns (pieces: seq<string>)
    ensures pieces == BlockPieces(stripped, false)
  {
    hide BlockPieces, Strip, Cut;
    var block, splitAny := stripped, false;
    pieces := [];
    while |block| > CANDIDATE_MAX_CHARS
      invariant pieces + BlockPieces(block, splitAny) == BlockPieces(stripped, false)
      decreases |block|
    {
      BlockPiecesUnfold(block, splitAny);
      var cut := Cut(block);
      StripShortens(block[cut..]);
      pieces := pieces + [Strip(block[..cut])];
      block := Strip(block[cut..]);
      splitAny := true;
    }
    BlockPiecesUnfold(block, splitAny);
    if block != "" && (splitAny || |block| >= MIN_CANDIDATE_CHARS) {
      pieces := pieces + [block];
    }
  }

  // ---------------------------------------------------------------- what pieces promise

  predicate IsPiece(s: string) {
    0 < |s| <= CANDIDATE_MAX_CHARS
  }

  predicate IsStripped(s: string) {
    s == "" || (!IsSpace(s[0]) && !IsSpace(s[|s| - 1]))
  }

  lemma {:induction false} BlockPiecesAreBounded(block: string, wasCut: bool)
    requires IsStripped(block)
    ensures forall piece :: piece in BlockPieces(block, wasCut) ==> IsPiece(piece)
    decreases |block|
  {
    hide IsSpace, Strip;
    BlockPiecesUnfold(block, wasCut);
    if |block| > CANDIDATE_MAX_CHARS {
      var cut := Cut(block);
      var head, tail := block[..cut], block[cut..];
      StripShortens(head);
      StripKeepsSolidStart(head);
      StripShortens(tail);
      StripIsStripped(tail);
      BlockPiecesAreBounded(Strip(tail), true);
    }
  }

  lemma StripKeepsSolidStart(s: string)
    requires s != "" && !IsSpace(s[0])
    ensures Strip(s) != ""
  {
    hide IsSpace, Strip;
    var before, after := StripSplit(s);
    assert before != "" ==> before[0] == s[0];
    assert before == "" && Strip(s) == "" ==> after == s;
  }

  lemma StripIsStripped(s: string)
    ensures IsStripped(Strip(s))
  {
    var before, after := StripSplit(s);
  }

  lemma {:induction false} AllPiecesAreBounded(blocks: seq<string>)
    ensures forall piece :: piece in AllPieces(blocks) ==> IsPiece(piece)
  {
    hide Strip, IsPiece;
    if blocks != [] {
      StripIsStripped(blocks[0]);
      BlockPiecesAreBounded(Strip(blocks[0]), false);
      AllPiecesAreBounded(blocks[1..]);
    }
  }

  /** Whatever the leaf, its pieces are not empty and within the bound. */
  lemma PiecesAreBounded(raw: string)
    ensures forall piece :: piece in LeafPieces(raw) ==> IsPiece(piece)
  {
    hide Strip;
    AllPiecesAreBounded(Paragraphs(Strip(raw)));
  }

  /** The paragraphs that are long enough to count on their own. */
  function LongParagraphs(blocks: seq<string>): seq<string> {
    if |blocks| == 0 then []
    else (if |Strip(blocks[0])| >= MIN_CANDIDATE_CHARS then [blocks[0]] else []) + LongParagraphs(blocks[1..])
  }

  lemma {:induction false} BlockPiecesKeepText(block: string, wasCut: bool)
    ensures NonSpaceOfAll(BlockPieces(block, wasCut))
         == if wasCut || |block| >= MIN_CANDIDATE_CHARS then NonSpace(block) else ""
    decreases |block|
  {
    hide IsSpace, Strip, NonSpace, Cut;
    BlockPiecesUnfold(block, wasCut);
    if |block| > CANDIDATE_MAX_CHARS {
      var head, tail := block[..Cut(block)], block[Cut(block)..];
      StripShortens(tail);
      BlockPiecesKeepText(Strip(tail), true);
      var b1, a1 := StripSplit(head);
      var b2, a2 := StripSplit(tail);
      assert block == head + tail;
      NonSpaceConcat(head, tail);
      NonSpaceOfAllAppend([Strip(head)], BlockPieces(Strip(tail), true));
      NonSpaceOfOne(Strip(head));
    } else {
      NonSpaceOfOne(block);
      NonSpaceOfNothing();
    }
  }

  lemma NonSpaceOfNothing()
    ensures NonSpace("") == "" && NonSpaceOfAll([]) == ""
  {
  }

  lemma NonSpaceOfOne(s: string)
    ensures NonSpaceOfAll([s]) == NonSpace(s)
  {
    NonSpaceOfNothing();
    assert NonSpaceOfAll([s]) == NonSpace(s) + NonSpaceOfAll([]);
  }

  lemma {:induction false} AllPiecesKeepText(blocks: seq<string>)
    ensures NonSpaceOfAll(AllPieces(blocks)) == NonSpaceOfAll(LongParagraphs(blocks))
  {
    hide Strip, NonSpace, BlockPieces;
    if blocks != [] {
      AllPiecesKeepText(blocks[1..]);
      var first := Strip(blocks[0]);
      BlockPiecesKeepText(first, false);
      var before, after := StripSplit(blocks[0]);
      NonSpaceOfAllAppend(BlockPieces(first, false), AllPieces(blocks[1..]));
      NonSpaceOfAllAppend(if |first| >= MIN_CANDIDATE_CHARS then [blocks[0]] else [], LongParagraphs(blocks[1..]));
      NonSpaceOfOne(blocks[0]);
      NonSpaceOfNothing();
    }
  }

  /** Before the ceiling on their number, the pieces hold every character of the leaf that is
      not white space, in order; of an oversized leaf only paragraphs of one or two characters
      are left out. */
  lemma PiecesKeepText(raw: string)
    ensures NonSpaceOfAll(LeafPieces(raw)) ==
      if |Strip(raw)| < MIN_CANDIDATE_CHARS then ""
      else if |Strip(raw)| <= CANDIDATE_MAX_CHARS then NonSpace(raw)
      else NonSpaceOfAll(LongParagraphs(Paragraphs(Strip(raw))))
  {
    hide Strip, NonSpace, Paragraphs, AllPieces, LongParagraphs;
    var before, after := StripSplit(raw);
    NonSpaceOfOne(Strip(raw));
    NonSpaceOfNothing();
    AllPiecesKeepText(Paragraphs(Strip(raw)));
  }

  /** When no paragraph is that short, nothing but white space is lost. */
  lemma LongParagraphsLoseNothing(raw: string)
    requires |Strip(raw)| >= MIN_CANDIDATE_CHARS
    requires forall block :: block in Paragraphs(Strip(raw)) ==> |Strip(block)| >= MIN_CANDIDATE_CHARS
    ensures NonSpaceOfAll(LeafPieces(raw)) == NonSpace(raw)
  {
    hide Strip, NonSpace, Paragraphs;
    PiecesKeepText(raw);
    AllLong(Paragraphs(Strip(raw)));
    ParagraphsKeepText(Strip(raw));
    var before, after := StripSplit(raw);
  }

  lemma {:induction false} AllLong(blocks: seq<string>)
    requires forall block :: block in blocks ==> |Strip(block)| >= MIN_CANDIDATE_CHARS
    ensures LongParagraphs(blocks) == blocks
  {
    hide Strip;
    if blocks != [] {
      AllLong(blocks[1..]);
    }
  }

  function Concat(parts: seq<string>): string {
    if |parts| == 0 then "" else parts[0] + Concat(parts[1..])
  }

  predicate NoSpace(s: string) {
    forall i :: 0 <= i < |s| ==> !IsSpace(s[i])
  }

  lemma NothingToStrip(s: string)
    requires NoSpace(s)
    ensures Strip(s) == s
  {
    assert LStrip(s) == s;
  }

  /** Text without any space is cut at the bound and put together again without loss. */
  lemma {:induction false} UnspacedBlockIsWhole(block: string, wasCut: bool)
    requires NoSpace(block) && (wasCut || |block| >= MIN_CANDIDATE_CHARS)
    ensures Concat(BlockPieces(block, wasCut)) == block
    decreases |block|
  {
    hide IsSpace, Strip;
    BlockPiecesUnfold(block, wasCut);
    if |block| > CANDIDATE_MAX_CHARS {
      var head, tail := block[..Cut(block)], block[Cut(block)..];
      NothingToStrip(head);
      NothingToStrip(tail);
      UnspacedBlockIsWhole(tail, true);
      assert Concat([head] + BlockPieces(tail, true)) == head + Concat(BlockPieces(tail, true)) by {
        assert ([head] + BlockPieces(tail, true))[1..] == BlockPieces(tail, true);
      }
    }
  }

  lemma {:induction false} UnspacedIsOneParagraph(s: string)
    requires NoSpace(s)
    ensures Paragraphs(s) == [s]
  {
    if s != "" {
      UnspacedIsOneParagraph(s[1..]);
      assert SpaceRun(s) == 0 && BreakLength(s) == 0;
      assert [s[0]] + s[1..] == s;
    }
  }

  lemma UnspacedLeafIsWhole(raw: string)
    requires NoSpace(raw) && |raw| >= MIN_CANDIDATE_CHARS
    ensures Concat(LeafPieces(raw)) == raw
  {
    hide IsSpace, Strip, BlockPieces, Paragraphs;
    NothingToStrip(raw);
    UnspacedIsOneParagraph(raw);
    UnspacedBlockIsWhole(raw, false);
    assert AllPieces([raw]) == BlockPieces(raw, false) + AllPieces([]) == BlockPieces(raw, false);
    assert Concat([raw]) == raw + Concat([]);
  }
}

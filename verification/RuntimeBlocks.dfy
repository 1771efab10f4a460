/** shared/runtime_results.py: what the cap does to a block list, said on the fields of its blocks. */
module RuntimeBlocks {
  import opened Options
  import opened PythonText
  import opened Json
  import opened JsonRead
  import opened Picks
  import opened RuntimeResults

  // ---------------------------------------------------------------- one block

  /** `a or b` */
  function Either(a: Option<Value>, b: Option<Value>): Option<Value> {
    if Falsy(a) then b else a
  }

  lemma EitherIs(fields: seq<Field>, first: string, second: string)
    ensures var used := Either(Get(fields, first), Get(fields, second));
            GetEither(fields, first, second) == if Falsy(used) then None else used
  {
    hide Get;
    if Get(fields, first).Some? {
      FalsyIff(Get(fields, first).value);
    }
    if Get(fields, second).Some? {
      FalsyIff(Get(fields, second).value);
    }
  }

  /** A block is an object whose type is a string; it is media if that is image or audio. */
  lemma BlocksAre(v: Value)
    ensures IsBlock(v) <==> v.Obj? && exists kind :: Get(v.fields, "type") == Some(Str(kind))
    ensures IsBlock(v) ==> (IsMedia(v) <==> Get(v.fields, "type") in {Some(Str("image")), Some(Str("audio"))})
  {
    hide Get;
  }

  /** The decoded size of media: three bytes for four characters of its data, rounded down; nothing
      when the data is no string. */
  lemma DecodedSizeIs(block: Value)
    requires IsBlock(block)
    ensures var used, size := Either(Get(block.fields, "data"), Get(block.fields, "base64")), DecodedSize(block);
      if used.Some? && used.value.Str?
      then 4 * size <= 3 * |used.value.s| < 4 * size + 4
      else size == 0
  {
    hide Get, GetEither;
    EitherIs(block.fields, "data", "base64");
  }

  /** The text of a number without its commas. */
  function NoCommas(s: string): string {
    if s == "" then "" else NoCommas(s[..|s| - 1]) + (if s[|s| - 1] == ',' then "" else [s[|s| - 1]])
  }

  lemma {:induction false} NoCommasAppend(a: string, b: string)
    ensures NoCommas(a + b) == NoCommas(a) + NoCommas(b)
  {
    if b == "" {
      assert a + b == a && NoCommas(a) + "" == NoCommas(a);
    } else {
      assert (a + b)[..|a + b| - 1] == a + b[..|b| - 1];
      NoCommasAppend(a, b[..|b| - 1]);
    }
  }

  function Digit(d: nat): (c: char)
    requires d < 10
    ensures c in DIGITS
  {
    DIGITS[d]
  }

  predicate NoComma(s: string) {
    forall i :: 0 <= i < |s| ==> s[i] != ','
  }

  lemma {:induction false} NoCommaStays(s: string)
    requires NoComma(s)
    ensures NoCommas(s) == s
  {
    if s != "" {
      NoCommaStays(s[..|s| - 1]);
    }
  }

  lemma DecimalHasNoComma(n: nat)
    ensures NoComma(Decimal(n))
  {
    hide Decimal;
    DecimalDigits(n);
    assert ',' !in DIGITS;
  }

  lemma DigitIsNoComma(d: nat)
    requires d < 10
    ensures Digit(d) != ','
  {
    assert ',' !in DIGITS;
  }

  lemma DecimalNext(n: nat)
    ensures n < 10 ==> Decimal(n) == [Digit(n)]
    ensures n >= 10 ==> Decimal(n) == Decimal(n / 10) + [Digit(n % 10)]
  {
  }

  /** The last three digits, with the zeros in front. */
  function ThreeDigits(low: nat): string
    requires low < 1000
  {
    [Digit(low / 100), Digit(low / 10 % 10), Digit(low % 10)]
  }

  lemma LastThree(n: nat)
    requires n >= 1000
    ensures Decimal(n) == Decimal(n / 1000) + ThreeDigits(n % 1000)
  {
    hide Decimal, Digit;
    var a, b := n / 10, n / 100;
    assert a / 10 == b && b / 10 == n / 1000;
    DecimalNext(n);
    DecimalNext(a);
    DecimalNext(b);
    LowDigits(n);
  }

  lemma LowDigits(n: nat)
    ensures n / 100 % 10 == n % 1000 / 100 && n / 10 % 10 == n % 1000 / 10 % 10 && n % 10 == n % 1000 % 10
  {
    var k, low := n / 1000, n % 1000;
    assert n == 1000 * k + low;
    assert n / 100 == 10 * k + low / 100 && n / 10 == 100 * k + low / 10;
  }

  lemma GroupOfThree(low: nat)
    requires low < 1000
    ensures (if low < 10 then "00" else if low < 100 then "0" else "") + Decimal(low) == ThreeDigits(low)
  {
    hide Decimal, Digit;
    DecimalNext(low);
    ZeroDigit();
    if low < 10 {
      assert low / 100 == 0 && low / 10 % 10 == 0 && low % 10 == low;
      assert "00" + [Digit(low)] == [Digit(0), Digit(0), Digit(low)];
    } else if low < 100 {
      DecimalNext(low / 10);
      assert low / 100 == 0 && low / 10 % 10 == low / 10;
      assert "0" + ([Digit(low / 10)] + [Digit(low % 10)]) == [Digit(0), Digit(low / 10), Digit(low % 10)];
    } else {
      LongerGroup(low);
      assert "" + Decimal(low) == Decimal(low);
    }
  }

  lemma LongerGroup(low: nat)
    requires 100 <= low < 1000
    ensures Decimal(low) == ThreeDigits(low)
  {
    hide Decimal, Digit;
    assert low / 10 / 10 == low / 100 < 10;
    DecimalNext(low);
    DecimalNext(low / 10);
    DecimalNext(low / 100);
  }

  lemma ZeroDigit()
    ensures Digit(0) == '0'
  {
  }

  /** Commas stand exactly before every third digit from the end, and none at the front. */
  predicate CommasByThree(s: string) {
    s != "" && s[0] != ',' && forall i :: 0 <= i < |s| ==> (s[|s| - 1 - i] == ',' <==> i % 4 == 3)
  }

  /** The number with commas, `{n:,}`: its digits, and a comma before every third from the end. */
  lemma {:induction false} GroupedIs(n: nat)
    ensures NoCommas(Grouped(n)) == Decimal(n) && CommasByThree(Grouped(n))
  {
    hide NoCommas, CommasByThree, Decimal, ThreeDigits;
    if n < 1000 {
      DecimalHasNoComma(n);
      NoCommaStays(Decimal(n));
      ShortDecimal(n);
    } else {
      var high, low := n / 1000, ThreeDigits(n % 1000);
      GroupedIs(high);
      GroupOfThree(n % 1000);
      LastThree(n);
      ThreeAreNoCommas(n % 1000);
      NoCommaStays(low);
      assert Grouped(n) == Grouped(high) + "," + low;
      NoCommasAppend(Grouped(high) + ",", low);
      NoCommasAppend(Grouped(high), ",");
      OneComma();
      assert Decimal(high) + "" == Decimal(high);
      GroupAppended(Grouped(high), low);
    }
  }

  lemma ThreeAreNoCommas(low: nat)
    requires low < 1000
    ensures NoComma(ThreeDigits(low)) && |ThreeDigits(low)| == 3
  {
    hide Digit;
    DigitIsNoComma(low / 100);
    DigitIsNoComma(low / 10 % 10);
    DigitIsNoComma(low % 10);
  }

  lemma ShortDecimal(n: nat)
    requires n < 1000
    ensures CommasByThree(Decimal(n))
  {
    hide Decimal, Digit;
    DecimalHasNoComma(n);
    DecimalNext(n);
    DecimalNext(n / 10);
    DecimalNext(n / 100);
    assert 0 < |Decimal(n)| <= 3;
  }

  lemma OneComma()
    ensures NoCommas(",") == ""
  {
    assert ","[..0] == "";
  }

  lemma GroupAppended(high: string, low: string)
    requires CommasByThree(high) && |low| == 3 && NoComma(low)
    ensures CommasByThree(high + "," + low)
  {
    var s := high + "," + low;
    forall i | 0 <= i < |s|
      ensures s[|s| - 1 - i] == ',' <==> i % 4 == 3
    {
      if i < 3 {
        assert s[|s| - 1 - i] == low[2 - i];
      } else if i > 3 {
        var j := i - 4;
        assert s[|s| - 1 - i] == high[|high| - 1 - j] && j % 4 == i % 4;
      }
    }
  }

  /** The note left for media that does not fit names its MIME type, else its kind, and both sizes. */
  lemma NoteSays(block: Value, size: nat, limit: int)
    requires IsBlock(block)
    ensures var kind := Get(block.fields, "type").value.s;
            var used := Either(Get(block.fields, "mimeType"), Get(block.fields, "mime_type"));
            var mime := if Falsy(used) then kind else if used.value.Str? then used.value.s
                                                      else Dumps(used.value, false);
            var note := OmittedMediaNote(block, size, limit);
      note == Obj([Field("type", Str("text")), Field("text",
        Str("[" + mime + " " + kind + " omitted: " + Grouped(size) + " bytes is more than the "
            + (if limit < 0 then "-" + Grouped(-limit) else Grouped(limit))
            + "-byte media limit for one device result]"))])
  {
    hide Get, GetEither, Grouped, Dumps;
    EitherIs(block.fields, "mimeType", "mime_type");
  }

  // ---------------------------------------------------------------- the text of a block list

  /** The text a block stands for: a text block's own string, and the JSON of any other. */
  predicate StandsFor(block: Value, text: string)
    requires block.Obj?
  {
    match (Get(block.fields, "type"), Get(block.fields, "text"))
    case (Some(Str("text")), Some(Str(own))) => text == own
    case _ => text == Dumps(block, false)
  }

  ghost predicate StandFor(blocks: seq<Value>, texts: seq<string>)
    requires AllBlocks(blocks)
  {
    |texts| == |blocks| && forall i :: 0 <= i < |blocks| ==> StandsFor(blocks[i], texts[i])
  }

  lemma {:induction false} TextsOfBlocks(blocks: seq<Value>, texts: seq<string>)
    requires AllBlocks(blocks) && StandFor(blocks, texts)
    ensures BlockTexts(blocks) == texts
  {
    hide Get, Dumps;
    if blocks != [] {
      assert IsBlock(blocks[0]) && StandsFor(blocks[0], texts[0]);
      forall i | 0 <= i < |blocks| - 1
        ensures StandsFor(blocks[1..][i], texts[1..][i])
      {
        assert StandsFor(blocks[i + 1], texts[i + 1]);
      }
      TextsOfBlocks(blocks[1..], texts[1..]);
      assert texts == [texts[0]] + texts[1..];
    }
  }

  lemma OverheadIs()
    ensures TEXT_BLOCK_OVERHEAD == 28
  {
    hide Escapes, Dumps;
    var before := TextBlockText("");
    QuotedWord("type");
    QuotedWord("text");
    QuotedWord("");
    NoEscapes();
  }

  lemma {:induction false} QuotedWord(s: string)
    requires forall i :: 0 <= i < |s| ==> 'a' <= s[i] <= 'z'
    ensures |Quote(s, true)| == |s| + 2
  {
    PlainEscapes(s);
  }

  lemma {:induction false} PlainEscapes(s: string)
    requires forall i :: 0 <= i < |s| ==> 'a' <= s[i] <= 'z'
    ensures |Escapes(s, true)| == |s|
  {
    if s != "" {
      EscapeCost(s[0]);
      PlainEscapes(s[1..]);
    }
  }

  /** A block list over its text budget comes back as one text block and the media that was kept.
      The text block holds the texts of all other blocks, in order and joined by newlines: whole,
      if that fits, else its beginning and end around the marker, as much as can be kept. */
  lemma OverBudgetIsOneText(blocks: seq<Value>, maxText: int, maxMedia: int, texts: seq<string>)
      returns (fitted: string)
    requires AllBlocks(blocks) && blocks != []
    requires var others := Others(Place(blocks, maxMedia, maxMedia));
             StandFor(others, texts) && WireSize(Arr(others)) > maxText
    ensures Capped(Arr(blocks), maxText, maxMedia)
         == (Arr([Obj([Field("type", Str("text")), Field("text", Str(fitted))])]
                 + Media(Place(blocks, maxMedia, maxMedia))), true)
    ensures IsBestFit(fitted, Join("\n", texts), maxText - 28)
  {
    hide Place, WireSize, FittedText, BlockTexts, Join, Media, IsBestFit, IsBlock, StandFor, Others;
    TextsOfBlocks(Others(Place(blocks, maxMedia, maxMedia)), texts);
    fitted := CutBlocks(blocks, maxText, maxMedia);
    OverheadIs();
    FittedTextIsOptimal(Join("\n", texts), maxText - 28);
  }

  lemma {:induction false} TextBlocksStay(blocks: seq<Value>, own: seq<string>, left: int, limit: int)
    requires |own| == |blocks| && forall i :: 0 <= i < |blocks| ==>
      blocks[i] == Obj([Field("type", Str("text")), Field("text", Str(own[i]))])
    ensures AllBlocks(blocks) && Place(blocks, left, limit) == blocks && Others(blocks) == blocks && Media(blocks) == []
    ensures StandFor(blocks, own)
  {
    forall i | 0 <= i < |blocks|
      ensures IsBlock(blocks[i]) && !IsMedia(blocks[i]) && StandsFor(blocks[i], own[i])
    {
      TextBlockIs(own[i]);
    }
    AllPlain(blocks, left, limit);
  }

  lemma TextBlockIs(own: string)
    ensures var block := Obj([Field("type", Str("text")), Field("text", Str(own))]);
      IsBlock(block) && !IsMedia(block) && StandsFor(block, own)
  {
    var fields := [Field("type", Str("text")), Field("text", Str(own))];
    FirstOfKey(fields, 0);
    FirstOfKey(fields, 1);
  }

  lemma {:induction false} AllPlain(blocks: seq<Value>, left: int, limit: int)
    requires AllBlocks(blocks) && forall i :: 0 <= i < |blocks| ==> !IsMedia(blocks[i])
    ensures Place(blocks, left, limit) == blocks && Others(blocks) == blocks && Media(blocks) == []
  {
    hide IsMedia, IsBlock;
    if blocks != [] {
      AllPlain(blocks[1..], left, limit);
      assert blocks == [blocks[0]] + blocks[1..];
    }
  }

  /** Said on the strings themselves: text blocks within the budget are left alone; over it, one
      block is left that holds them joined by newlines, as much of them as fits. */
  lemma TextBlocksAreCapped(own: seq<string>, blocks: seq<Value>, maxText: int, maxMedia: int) returns (fitted: string)
    requires own != [] && |blocks| == |own| && forall i :: 0 <= i < |own| ==>
      blocks[i] == Obj([Field("type", Str("text")), Field("text", Str(own[i]))])
    ensures WireSize(Arr(blocks)) <= maxText ==> Capped(Arr(blocks), maxText, maxMedia) == (Arr(blocks), false)
    ensures WireSize(Arr(blocks)) > maxText ==>
      && Capped(Arr(blocks), maxText, maxMedia)
         == (Arr([Obj([Field("type", Str("text")), Field("text", Str(fitted))])]), true)
      && IsBestFit(fitted, Join("\n", own), maxText - 28)
  {
    hide Place, WireSize, FittedText, BlockTexts, Join, Media, Others, IsBestFit, IsBlock, StandFor;
    TextBlocksStay(blocks, own, maxMedia, maxMedia);
    fitted := "";
    if WireSize(Arr(blocks)) > maxText {
      fitted := OverBudgetIsOneText(blocks, maxText, maxMedia, own);
      assert [Obj([Field("type", Str("text")), Field("text", Str(fitted))])] + []
        == [Obj([Field("type", Str("text")), Field("text", Str(fitted))])];
    }
  }

  /** Anything that is no block list: within the budget it is left alone; over it, a string is cut,
      and anything else becomes its JSON, cut. */
  lemma OtherValuesAreCapped(v: Value, maxText: int, maxMedia: int) returns (fitted: string)
    requires !(v.Arr? && v.items != [] && forall i :: 0 <= i < |v.items| ==> IsBlock(v.items[i]))
    ensures WireSize(v) <= maxText ==> Capped(v, maxText, maxMedia) == (v, false)
    ensures WireSize(v) > maxText ==>
      && Capped(v, maxText, maxMedia) == (Str(fitted), true)
      && IsBestFit(fitted, if v.Str? then v.s else Dumps(v, false), maxText)
  {
    hide WireSize, FittedText, IsBestFit, IsBlock, Dumps;
    var text := if v.Str? then v.s else Dumps(v, false);
    fitted := FittedText(text, maxText);
    FittedTextIsOptimal(text, maxText);
  }

  // ---------------------------------------------------------------- the media

  lemma {:induction false} SubsequenceIsPick(a: seq<Value>, b: seq<Value>) returns (at: seq<nat>)
    requires Subsequence(a, b)
    ensures IsPick(a, b, at)
  {
    hide IsPick;
    if a == [] {
      at := [];
      NothingPicked(b);
    } else if a[0] == b[0] && Subsequence(a[1..], b[1..]) {
      var later := SubsequenceIsPick(a[1..], b[1..]);
      at := PickBehind([b[0]], a[1..], b[1..], later);
      assert [b[0]] + a[1..] == a && [b[0]] + b[1..] == b;
    } else {
      var later := SubsequenceIsPick(a, b[1..]);
      at := PickLater(b[0], a, b[1..], later);
      assert [b[0]] + b[1..] == b;
    }
  }

  lemma NothingPicked(b: seq<Value>)
    ensures IsPick([], b, [])
  {
  }

  lemma PickLater(x: Value, a: seq<Value>, b: seq<Value>, at: seq<nat>) returns (at': seq<nat>)
    requires IsPick(a, b, at)
    ensures IsPick(a, [x] + b, at') && (forall j :: 0 <= j < |at'| ==> at'[j] > 0)
  {
    at' := seq(|at|, j requires 0 <= j < |at| => at[j] + 1);
  }

  lemma PickBehind(first: seq<Value>, a: seq<Value>, b: seq<Value>, at: seq<nat>) returns (at': seq<nat>)
    requires |first| == 1 && IsPick(a, b, at)
    ensures IsPick(first + a, first + b, at')
  {
    var later := PickLater(first[0], a, b, at);
    assert [first[0]] == first;
    at' := [0] + later;
  }

  /** The media of the result are blocks of the input, whole and in their order. */
  lemma MediaArePicked(v: Value, maxText: int, maxMedia: int) returns (at: seq<nat>)
    ensures IsPick(MediaPart(Capped(v, maxText, maxMedia).0), MediaPart(v), at)
  {
    MediaKeptWholeInOrder(v, maxText, maxMedia);
    at := SubsequenceIsPick(MediaPart(Capped(v, maxText, maxMedia).0), MediaPart(v));
  }
}

/** Reading JSON text again: every text that is sent is the one that is read. */
module JsonRead {
  import opened Options
  import opened PythonText
  import opened Json

  // ---------------------------------------------------------------- a reader of JSON strings

  function DigitOf(c: char): Option<nat> {
    if '0' <= c <= '9' then Some(c as nat - '0' as nat)
    else if 'a' <= c <= 'f' then Some(c as nat - 'a' as nat + 10)
    else None
  }

  /** The number of four hexadecimal digits. */
  function Hex(s: string): Option<nat> {
    if |s| < 4 then None else
    match (DigitOf(s[0]), DigitOf(s[1]), DigitOf(s[2]), DigitOf(s[3]))
    case (Some(a), Some(b), Some(c), Some(d)) => Some(((a * 16 + b) * 16 + c) * 16 + d)
    case _ => None
  }

  datatype Read<T> = Read(value: T, rest: string)

  /** The character after `\u`; one outside the basic plane is two surrogates. */
  function ReadUnicode(s: string): Option<Read<char>> {
    match Hex(s)
    case None => None
    case Some(n) =>
      if n < 0xD800 || 0xE000 <= n < 0x10000 then Some(Read(n as char, s[4..]))
      else if n >= 0xDC00 || |s| < 10 || s[4..6] != "\\u" then None
      else
        match Hex(s[6..])
        case Some(m) =>
          if 0xDC00 <= m < 0xE000 then Some(Read((0x10000 + (n - 0xD800) * 0x400 + (m - 0xDC00)) as char, s[10..]))
          else None
        case None => None
  }

  /** One character of a JSON string, and what follows it. */
  function ReadChar(s: string): (r: Option<Read<char>>)
    ensures r.Some? ==> |r.value.rest| < |s|
  {
    if s == "" || s[0] == '\"' || s[0] as int < 0x20 then None
    else if s[0] != '\\' then Some(Read(s[0], s[1..]))
    else if |s| < 2 then None
    else
      var rest := s[2..];
      match s[1]
      case '\"' => Some(Read('\"', rest))
      case '\\' => Some(Read('\\', rest))
      case '/' => Some(Read('/', rest))
      case 'n' => Some(Read('\n', rest))
      case 'r' => Some(Read('\r', rest))
      case 't' => Some(Read('\t', rest))
      case 'b' => Some(Read(0x08 as char, rest))
      case 'f' => Some(Read(0x0C as char, rest))
      case 'u' => ReadUnicode(rest)
      case _ => None
  }

  function ReadChars(s: string): Option<Read<string>>
    decreases |s|
  {
    if s != "" && s[0] == '\"' then Some(Read("", s[1..]))
    else
      match ReadChar(s)
      case None => None
      case Some(first) =>
        match ReadChars(first.rest)
        case None => None
        case Some(others) => Some(Read([first.value] + others.value, others.rest))
  }

  function ReadString(s: string): Option<Read<string>> {
    if s == "" || s[0] != '\"' then None else ReadChars(s[1..])
  }

  // ---------------------------------------------------------------- what was quoted is read

  lemma HexIsRead(n: nat, rest: string)
    requires n < 0x10000
    ensures UnicodeEscape(n)[..2] == "\\u" && Hex(UnicodeEscape(n)[2..] + rest) == Some(n)
  {
    hide DigitOf;
    var a, b, c, d := n / 0x1000, n / 0x100 % 0x10, n / 0x10 % 0x10, n % 0x10;
    FourDigits(n);
    HexDigitIsRead(a);
    HexDigitIsRead(b);
    HexDigitIsRead(c);
    HexDigitIsRead(d);
    var s := UnicodeEscape(n)[2..] + rest;
    assert s[0] == HEX[a] && s[1] == HEX[b] && s[2] == HEX[c] && s[3] == HEX[d];
  }

  lemma FourDigits(n: nat)
    requires n < 0x10000
    ensures n / 0x1000 < 16
    ensures n == ((n / 0x1000 * 16 + n / 0x100 % 0x10) * 16 + n / 0x10 % 0x10) * 16 + n % 0x10
  {
    var x, y := n / 0x10, n / 0x100;
    assert x == y * 16 + x % 16 && y == n / 0x1000 * 16 + y % 16;
  }

  lemma HexDigitIsRead(d: nat)
    requires d < 16
    ensures DigitOf(HEX[d]) == Some(d)
  {
  }

  lemma UnicodeIsRead(c: char, rest: string)
    requires c as int < 0x10000
    ensures ReadChar(UnicodeEscape(c as int) + rest) == Some(Read(c, rest))
  {
    hide Hex, UnicodeEscape;
    var n := c as int;
    HexIsRead(n, rest);
    var s := UnicodeEscape(n) + rest;
    assert s[0] == UnicodeEscape(n)[..2][0] == '\\' && s[1] == UnicodeEscape(n)[..2][1] == 'u';
    assert s[2..] == UnicodeEscape(n)[2..] + rest;
    assert s[2..][4..] == rest;
  }

  lemma SurrogatesAreRead(c: char, rest: string)
    requires c as int >= 0x10000
    ensures var n := c as int - 0x10000;
            var high, low := 0xD800 + n / 0x400, 0xDC00 + n % 0x400;
      && 0xD800 <= high < 0xDC00 && 0xDC00 <= low < 0xE000
      && ReadChar(UnicodeEscape(high) + UnicodeEscape(low) + rest) == Some(Read(c, rest))
  {
    hide Hex, UnicodeEscape;
    var n := c as int - 0x10000;
    var high, low := 0xD800 + n / 0x400, 0xDC00 + n % 0x400;
    var first, second := UnicodeEscape(high), UnicodeEscape(low);
    HexIsRead(high, second + rest);
    HexIsRead(low, rest);
    var s := first + second + rest;
    assert s[0] == first[..2][0] == '\\' && s[1] == first[..2][1] == 'u';
    var t := s[2..];
    assert t == first[2..] + (second + rest);
    assert t[4..6] == second[..2] && t[6..] == second[2..] + rest && t[10..] == rest;
    assert 0x10000 + (high - 0xD800) * 0x400 + (low - 0xDC00) == c as int;
  }

  lemma EscapeIsRead(c: char, ascii: bool, rest: string)
    ensures Escape(c, ascii) != "" && Escape(c, ascii)[0] != '\"'
    ensures ReadChar(Escape(c, ascii) + rest) == Some(Read(c, rest))
  {
    hide UnicodeEscape, ReadUnicode;
    var n := c as int;
    if n >= 0x10000 && ascii {
      SurrogatesAreRead(c, rest);
      HexIsRead(0xD800 + (n - 0x10000) / 0x400, "");
    } else if n < 0x10000 {
      UnicodeIsRead(c, rest);
      HexIsRead(n, "");
    }
  }

  lemma {:induction false} EscapesAreRead(s: string, ascii: bool, rest: string)
    ensures ReadChars(Escapes(s, ascii) + "\"" + rest) == Some(Read(s, rest))
  {
    hide Escape, ReadChar;
    if s != "" {
      var more := Escapes(s[1..], ascii) + "\"" + rest;
      EscapesAreRead(s[1..], ascii, rest);
      EscapeIsRead(s[0], ascii, more);
      assert Escapes(s, ascii) + "\"" + rest == Escape(s[0], ascii) + more;
      assert (Escape(s[0], ascii) + more)[0] == Escape(s[0], ascii)[0];
      assert [s[0]] + s[1..] == s;
    } else {
      assert (Escapes(s, ascii) + "\"" + rest)[1..] == rest;
    }
  }

  /** Whatever the text, ASCII-only or not: it is read back from its JSON, character for character,
      and the reader stops exactly behind the closing quote. */
  lemma QuoteIsRead(s: string, ascii: bool, rest: string)
    ensures ReadString(Quote(s, ascii) + rest) == Some(Read(s, rest))
  {
    hide Escapes, ReadChars;
    EscapesAreRead(s, ascii, rest);
    assert (Quote(s, ascii) + rest)[1..] == Escapes(s, ascii) + "\"" + rest;
  }

  /** With `ensure_ascii` nothing but printable ASCII is sent. */
  lemma {:induction false} AsciiOnly(s: string)
    ensures forall i :: 0 <= i < |Escapes(s, true)| ==> 0x20 <= Escapes(s, true)[i] as int <= 0x7E
  {
    if s != "" {
      AsciiOnly(s[1..]);
      AsciiEscape(s[0]);
    }
  }

  lemma AsciiEscape(c: char)
    ensures forall i :: 0 <= i < |Escape(c, true)| ==> 0x20 <= Escape(c, true)[i] as int <= 0x7E
  {
    hide UnicodeEscape;
    var n := c as int;
    if n < 0x10000 {
      AsciiUnicode(n);
    } else {
      AsciiUnicode(0xD800 + (n - 0x10000) / 0x400);
      AsciiUnicode(0xDC00 + (n - 0x10000) % 0x400);
    }
  }

  lemma AsciiUnicode(n: nat)
    requires n < 0x10000
    ensures forall i :: 0 <= i < 6 ==> 0x20 <= UnicodeEscape(n)[i] as int <= 0x7E
  {
    assert forall d :: 0 <= d < 16 ==> 0x30 <= HEX[d] as int <= 0x66;
  }

  // ---------------------------------------------------------------- values

  function Texts(items: seq<Value>, ascii: bool): (texts: seq<string>)
    ensures |texts| == |items| && forall i :: 0 <= i < |items| ==> texts[i] == Dumps(items[i], ascii)
  {
    if |items| == 0 then [] else [Dumps(items[0], ascii)] + Texts(items[1..], ascii)
  }

  function FieldTexts(fields: seq<Field>, ascii: bool): (texts: seq<string>)
    ensures |texts| == |fields|
    ensures forall i :: 0 <= i < |fields| ==>
      texts[i] == Quote(fields[i].key, ascii) + ": " + Dumps(fields[i].value, ascii)
  {
    if |fields| == 0 then []
    else [Quote(fields[0].key, ascii) + ": " + Dumps(fields[0].value, ascii)] + FieldTexts(fields[1..], ascii)
  }

  lemma {:induction false} ItemsAreJoined(items: seq<Value>, ascii: bool)
    ensures DumpsItems(items, ascii) == Join(", ", Texts(items, ascii))
  {
    hide Dumps;
    if items != [] {
      ItemsAreJoined(items[1..], ascii);
      assert Texts(items, ascii)[1..] == Texts(items[1..], ascii);
    }
  }

  lemma {:induction false} FieldsAreJoined(fields: seq<Field>, ascii: bool)
    ensures DumpsFields(fields, ascii) == Join(", ", FieldTexts(fields, ascii))
  {
    hide Dumps, Quote;
    if fields != [] {
      FieldsAreJoined(fields[1..], ascii);
      assert FieldTexts(fields, ascii)[1..] == FieldTexts(fields[1..], ascii);
    }
  }

  /** A container's JSON is that of its parts, in order, joined by a comma and a blank. */
  lemma DumpsJoins(v: Value, ascii: bool)
    ensures v.Arr? ==> Dumps(v, ascii) == "[" + Join(", ", Texts(v.items, ascii)) + "]"
    ensures v.Obj? ==> Dumps(v, ascii) == "{" + Join(", ", FieldTexts(v.fields, ascii)) + "}"
    ensures v.Int? && v.n >= 0 ==> Dumps(v, ascii) == Decimal(v.n)
    ensures v.Int? && v.n < 0 ==> Dumps(v, ascii) == "-" + Decimal(-v.n)
    ensures v == Null ==> Dumps(v, ascii) == "null"
    ensures v == Bool(true) ==> Dumps(v, ascii) == "true"
    ensures v == Bool(false) ==> Dumps(v, ascii) == "false"
    ensures v.Float? ==> Dumps(v, ascii) == v.text
    ensures v.Str? ==> ReadString(Dumps(v, ascii)) == Some(Read(v.s, ""))
    ensures v.Other? ==> ReadString(Dumps(v, ascii)) == Some(Read(v.text, ""))
  {
    hide Texts, FieldTexts, Join, Quote, ReadString;
    match v
    case Arr(items) => ItemsAreJoined(items, ascii);
    case Obj(fields) => FieldsAreJoined(fields, ascii);
    case Str(s) =>
      QuoteIsRead(s, ascii, "");
      assert Quote(s, ascii) + "" == Quote(s, ascii);
    case Other(text) =>
      QuoteIsRead(text, ascii, "");
      assert Quote(text, ascii) + "" == Quote(text, ascii);
    case _ =>
  }

  /** What counts as false in Python, and a key that is missing. */
  predicate Falsy(v: Option<Value>) {
    || v.None?
    || v.value in {Null, Bool(false), Int(0), Str(""), Arr([]), Obj([])}
    || (v.value.Float? && v.value.zero)
  }

  lemma FalsyIff(v: Value)
    ensures Truthy(v) <==> !Falsy(Some(v))
  {
  }

  /** The field found is the first one of its key. */
  lemma {:induction false} FirstOfKey(fields: seq<Field>, i: nat)
    requires i < |fields| && forall j :: 0 <= j < i ==> fields[j].key != fields[i].key
    ensures Get(fields, fields[i].key) == Some(fields[i].value)
  {
    if i > 0 {
      FirstOfKey(fields[1..], i - 1);
    }
  }
}

/** JSON values and the text `json.dumps` gives them, with and without `ensure_ascii`.
    The escapes are those of section 7 of RFC 8259. */
module Json {
  import opened Options
  import opened PythonText

  /** `Other` is a value json cannot encode; `default=str` sends its text instead. */
  datatype Value =
    | Null
    | Bool(b: bool)
    | Int(n: int)
    | Float(text: string, zero: bool, finite: bool)
    | Str(s: string)
    | Arr(items: seq<Value>)
    | Obj(fields: seq<Field>)
    | Other(text: string)

  datatype Field = Field(key: string, value: Value)

  const HEX := "0123456789abcdef"

  function UnicodeEscape(n: nat): (s: string)
    requires n < 0x10000
    ensures |s| == 6
  {
    "\\u" + [HEX[n / 0x1000], HEX[n / 0x100 % 0x10], HEX[n / 0x10 % 0x10], HEX[n % 0x10]]
  }

  function Escape(c: char, ascii: bool): string {
    var n := c as int;
    if c == '\"' then "\\\""
    else if c == '\\' then "\\\\"
    else if c == '\n' then "\\n"
    else if c == '\r' then "\\r"
    else if c == '\t' then "\\t"
    else if n == 0x08 then "\\b"
    else if n == 0x0C then "\\f"
    else if n < 0x20 then UnicodeEscape(n)
    else if !ascii || n <= 0x7E then [c]
    else if n < 0x10000 then UnicodeEscape(n)
    else
      UnicodeEscape(0xD800 + (n - 0x10000) / 0x400) + UnicodeEscape(0xDC00 + (n - 0x10000) % 0x400)
  }

  function Escapes(s: string, ascii: bool): string {
    if s == "" then "" else Escape(s[0], ascii) + Escapes(s[1..], ascii)
  }

  function Quote(s: string, ascii: bool): string {
    "\"" + Escapes(s, ascii) + "\""
  }

  function IntText(n: int): string {
    if n < 0 then "-" + Decimal(-n) else Decimal(n)
  }

  /** `json.dumps(v, ensure_ascii=ascii, default=str)` */
  function Dumps(v: Value, ascii: bool): string
    decreases v, 0
  {
    match v
    case Null => "null"
    case Bool(b) => if b then "true" else "false"
    case Int(n) => IntText(n)
    case Float(text, _, _) => text
    case Str(s) => Quote(s, ascii)
    case Arr(items) => "[" + DumpsItems(items, ascii) + "]"
    case Obj(fields) => "{" + DumpsFields(fields, ascii) + "}"
    case Other(text) => Quote(text, ascii)
  }

  function DumpsItems(items: seq<Value>, ascii: bool): string
    decreases items, 1
  {
    if |items| == 0 then "" else
    if |items| == 1 then Dumps(items[0], ascii) else
    Dumps(items[0], ascii) + ", " + DumpsItems(items[1..], ascii)
  }

  function DumpsFields(fields: seq<Field>, ascii: bool): string
    decreases fields, 1
  {
    if |fields| == 0 then "" else
    var field := fields[0];
    var head := Quote(field.key, ascii) + ": " + Dumps(field.value, ascii);
    if |fields| == 1 then head else head + ", " + DumpsFields(fields[1..], ascii)
  }

  /** `fields.get(key)` of a Python dict kept in insertion order. */
  function Get(fields: seq<Field>, key: string): (r: Option<Value>)
    ensures r.None? <==> forall i :: 0 <= i < |fields| ==> fields[i].key != key
  {
    if |fields| == 0 then None else
    if fields[0].key == key then Some(fields[0].value) else Get(fields[1..], key)
  }

  predicate Truthy(v: Value) {
    match v
    case Null => false
    case Bool(b) => b
    case Int(n) => n != 0
    case Float(_, zero, _) => !zero
    case Str(s) => s != ""
    case Arr(items) => items != []
    case Obj(fields) => fields != []
    case Other(_) => true
  }

  /** What one character costs on an ASCII-only wire. */
  lemma EscapeCost(c: char)
    ensures var cost := |Escape(c, true)|;
            && (cost == 1 <==> 0x20 <= c as int <= 0x7E && c !in ['\"', '\\'])
            && (cost == 2 <==> c in ['\"', '\\', '\n', '\r', '\t'] || c as int in [0x08, 0x0C])
            && (cost == 12 <==> c as int >= 0x10000)
            && cost in [1, 2, 6, 12]
  {
  }

  lemma {:induction false} EscapesConcat(a: string, b: string, ascii: bool)
    ensures Escapes(a + b, ascii) == Escapes(a, ascii) + Escapes(b, ascii)
  {
    if a == "" {
      assert a + b == b;
    } else {
      assert (a + b)[1..] == a[1..] + b;
      EscapesConcat(a[1..], b, ascii);
    }
  }
}

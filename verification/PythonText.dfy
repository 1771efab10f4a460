/** The few facts about Python strings that the modelled code leans on: white space,
    stripping, and the decimal text of a number. */
module PythonText {

  /** `str.isspace` for one character, which is also what `\s` matches. */
  predicate IsSpace(c: char) {
    var n := c as int;
    || 0x09 <= n <= 0x0D
    || 0x1C <= n <= 0x20
    || n == 0x85 || n == 0xA0 || n == 0x1680
    || 0x2000 <= n <= 0x200A
    || n == 0x2028 || n == 0x2029 || n == 0x202F || n == 0x205F || n == 0x3000
  }

  /** The white-space characters, one by one. */
  lemma SpacesAre(c: char)
    ensures IsSpace(c) <==> c as int in {
      0x09, 0x0A, 0x0B, 0x0C, 0x0D, 0x1C, 0x1D, 0x1E, 0x1F, 0x20, 0x85, 0xA0, 0x1680, 0x2000, 0x2001, 0x2002, 0x2003,
      0x2004, 0x2005, 0x2006, 0x2007, 0x2008, 0x2009, 0x200A, 0x2028, 0x2029, 0x202F, 0x205F, 0x3000}
  {
  }

  predicate AllSpace(s: string) {
    forall i :: 0 <= i < |s| ==> IsSpace(s[i])
  }

  /** `s` with its white space left out; the order of the rest is kept. */
  function NonSpace(s: string): string {
    if s == "" then "" else (if IsSpace(s[0]) then "" else [s[0]]) + NonSpace(s[1..])
  }

  lemma {:induction false} NonSpaceConcat(a: string, b: string)
    ensures NonSpace(a + b) == NonSpace(a) + NonSpace(b)
  {
    hide IsSpace;
    if a == "" {
      assert a + b == b;
    } else {
      assert (a + b)[1..] == a[1..] + b;
      NonSpaceConcat(a[1..], b);
    }
  }

  lemma {:induction false} NonSpaceOfSpaces(s: string)
    requires AllSpace(s)
    ensures NonSpace(s) == ""
  {
    hide IsSpace;
    if s != "" {
      NonSpaceOfSpaces(s[1..]);
    }
  }

  function LStrip(s: string): string {
    if s == "" || !IsSpace(s[0]) then s else LStrip(s[1..])
  }

  function RStrip(s: string): string {
    if s == "" || !IsSpace(s[|s| - 1]) then s else RStrip(s[..|s| - 1])
  }

  function Strip(s: string): string {
    RStrip(LStrip(s))
  }

  lemma {:induction false} LStripSplit(s: string) returns (before: string)
    ensures s == before + LStrip(s) && AllSpace(before)
    ensures LStrip(s) == "" || !IsSpace(LStrip(s)[0])
  {
    hide IsSpace;
    if s == "" || !IsSpace(s[0]) {
      before := "";
    } else {
      var rest := LStripSplit(s[1..]);
      before := [s[0]] + rest;
    }
  }

  lemma {:induction false} RStripSplit(s: string) returns (after: string)
    ensures s == RStrip(s) + after && AllSpace(after)
    ensures RStrip(s) == "" || !IsSpace(RStrip(s)[|RStrip(s)| - 1])
  {
    hide IsSpace;
    if s == "" || !IsSpace(s[|s| - 1]) {
      after := "";
    } else {
      var rest := RStripSplit(s[..|s| - 1]);
      after := rest + [s[|s| - 1]];
    }
  }

  lemma NonSpaceDropSpaces(before: string, s: string, after: string)
    requires AllSpace(before) && AllSpace(after)
    ensures NonSpace(before + s + after) == NonSpace(s)
  {
    hide NonSpace, IsSpace;
    NonSpaceConcat(before + s, after);
    NonSpaceConcat(before, s);
    NonSpaceOfSpaces(before);
    NonSpaceOfSpaces(after);
  }

  /** Stripping cuts white space off both ends and nothing else. */
  lemma StripSplit(s: string) returns (before: string, after: string)
    ensures s == before + Strip(s) + after && AllSpace(before) && AllSpace(after)
    ensures Strip(s) != "" ==> !IsSpace(Strip(s)[0]) && !IsSpace(Strip(s)[|Strip(s)| - 1])
    ensures NonSpace(Strip(s)) == NonSpace(s)
  {
    hide IsSpace, NonSpace, LStrip, RStrip;
    before := LStripSplit(s);
    after := RStripSplit(LStrip(s));
    NonSpaceDropSpaces(before, Strip(s), after);
  }

  const DIGITS := "0123456789"

  /** `str(n)` */
  function Decimal(n: nat): (s: string)
    ensures |s| >= 1
  {
    if n < 10 then [DIGITS[n]] else Decimal(n / 10) + [DIGITS[n % 10]]
  }

  /** One more counted thing makes the number's text at most one digit longer, never shorter. */
  lemma {:induction false} DecimalGrowth(n: nat)
    ensures |Decimal(n)| <= |Decimal(n + 1)| <= |Decimal(n)| + 1
  {
    if n >= 10 {
      DecimalGrowth(n / 10);
      assert (n + 1) / 10 == n / 10 || (n + 1) / 10 == n / 10 + 1;
    }
  }

  lemma {:induction false} DecimalInjective(m: nat, n: nat)
    requires Decimal(m) == Decimal(n)
    ensures m == n
  {
    assert Decimal(m)[|Decimal(m)| - 1] == DIGITS[m % 10];
    assert Decimal(n)[|Decimal(n)| - 1] == DIGITS[n % 10];
    assert m % 10 == n % 10;
    if m >= 10 && n >= 10 {
      assert Decimal(m / 10) == Decimal(m)[..|Decimal(m)| - 1] == Decimal(n / 10);
      DecimalInjective(m / 10, n / 10);
    }
  }

  lemma {:induction false} DecimalDigits(n: nat)
    ensures forall i :: 0 <= i < |Decimal(n)| ==> Decimal(n)[i] in DIGITS
  {
    if n >= 10 {
      DecimalDigits(n / 10);
    }
  }

  /** The number a text of decimal digits stands for. */
  function NumberOf(s: string): int {
    if s == "" then 0 else 10 * NumberOf(s[..|s| - 1]) + (s[|s| - 1] as int - '0' as int)
  }

  /** A number's text stands for it, and starts with no zero but for zero itself. */
  lemma {:induction false} DecimalIsRead(n: nat)
    ensures NumberOf(Decimal(n)) == n && (Decimal(n)[0] == '0' <==> n == 0)
  {
    if n >= 10 {
      DecimalIsRead(n / 10);
      var s := Decimal(n);
      assert s[..|s| - 1] == Decimal(n / 10) && s[0] == Decimal(n / 10)[0];
    }
    assert Decimal(n % 10) == [DIGITS[n % 10]] && NumberOf("") == 0;
  }

  /** `sep.join(parts)` */
  function Join(sep: string, parts: seq<string>): string {
    if |parts| == 0 then "" else
    if |parts| == 1 then parts[0] else parts[0] + sep + Join(sep, parts[1..])
  }

  /** One part more goes behind the separator. */
  lemma {:induction false} JoinOneMore(sep: string, parts: seq<string>, last: string)
    ensures Join(sep, parts + [last]) == if parts == [] then last else Join(sep, parts) + sep + last
  {
    if |parts| == 0 {
      assert parts + [last] == [last];
    } else {
      JoinOneMore(sep, parts[1..], last);
      assert (parts + [last])[1..] == parts[1..] + [last];
      assert |parts| == 1 ==> parts[1..] == [];
    }
  }
}

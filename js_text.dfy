/** The JavaScript string operations the handlers rely on: `String.prototype.split` with a one-character
    separator and `parseInt(text, 10)`. */
module JsText {

  import opened Records

  /** `s.split(sep)`: the pieces between separators, in order; always at least one piece. */
  function Split(s: string, sep: char): (parts: seq<string>)
    ensures |parts| >= 1
    ensures forall i :: 0 <= i < |parts| ==> sep !in parts[i]
    ensures |parts| == 1 <==> sep !in s
    decreases |s|
  {
    if |s| == 0 then [""]
    else
      var rest := Split(s[1..], sep);
      assert s == [s[0]] + s[1..];
      if s[0] == sep then [""] + rest
      else [[s[0]] + rest[0]] + rest[1..]
  }

  /** `parts.join(sep)`. */
  function Join(parts: seq<string>, sep: char): string
    requires |parts| >= 1
  {
    if |parts| == 1 then parts[0] else parts[0] + [sep] + Join(parts[1..], sep)
  }

  /** Splitting loses nothing: joining the pieces back gives the original text. */
  lemma {:induction false} JoinSplit(s: string, sep: char)
    ensures Join(Split(s, sep), sep) == s
    decreases |s|
  {
    if |s| > 0 {
      var rest := Split(s[1..], sep);
      JoinSplit(s[1..], sep);
      assert s == [s[0]] + s[1..];
      var parts := Split(s, sep);
      if s[0] == sep {
        assert parts == [""] + rest;
        assert parts[1..] == rest;
        assert Join(parts, sep) == "" + [sep] + Join(rest, sep);
      } else {
        assert parts == [[s[0]] + rest[0]] + rest[1..];
        if |rest| == 1 {
          assert Join(parts, sep) == [s[0]] + rest[0];
        } else {
          assert parts[1..] == rest[1..];
          assert Join(rest, sep) == rest[0] + [sep] + Join(rest[1..], sep);
          assert Join(parts, sep) == ([s[0]] + rest[0]) + [sep] + Join(rest[1..], sep);
        }
      }
    }
  }

  /** Joining separator-free pieces and splitting again gives the same pieces. */
  lemma {:induction false} SplitJoin(parts: seq<string>, sep: char)
    requires |parts| >= 1
    requires forall i :: 0 <= i < |parts| ==> sep !in parts[i]
    ensures Split(Join(parts, sep), sep) == parts
    decreases |parts|
  {
    if |parts| == 1 {
      SplitWhole(parts[0], sep);
    } else {
      SplitJoin(parts[1..], sep);
      SplitAtFirst(parts[0], Join(parts[1..], sep), sep);
      assert parts == [parts[0]] + parts[1..];
    }
  }

  /** Text without the separator is one piece. */
  lemma SplitWhole(s: string, sep: char)
    requires sep !in s
    ensures Split(s, sep) == [s]
  {
    JoinSplit(s, sep);
  }

  /** The first piece is the text up to the first separator, or all of it when there is none. */
  lemma SplitFirstPiece(s: string, sep: char)
    ensures Split(s, sep)[0] <= s
    ensures |Split(s, sep)[0]| == |s| || s[|Split(s, sep)[0]|] == sep
  {
    if sep in s {
      var i := IndexOf(s, sep);
      AroundFirst(s, sep);
      SplitAtFirst(s[..i], s[i + 1..], sep);
    } else {
      SplitWhole(s, sep);
    }
  }

  /** The first separator ends the first piece. */
  lemma {:induction false} SplitAtFirst(a: string, b: string, sep: char)
    requires sep !in a
    ensures Split(a + [sep] + b, sep) == [a] + Split(b, sep)
    decreases |a|
  {
    var s := a + [sep] + b;
    if |a| == 0 {
      assert s == [sep] + b;
      assert s[1..] == b;
    } else {
      assert s[1..] == a[1..] + [sep] + b;
      SplitAtFirst(a[1..], b, sep);
      assert [s[0]] + a[1..] == a;
    }
  }

  /** The position of the first `c` in `s`. */
  function IndexOf(s: string, c: char): (i: nat)
    requires c in s
    ensures i < |s| && s[i] == c && c !in s[..i]
  {
    if s[0] == c then 0
    else
      assert c in s[1..] by { assert s == [s[0]] + s[1..]; }
      var j := IndexOf(s[1..], c);
      assert s[..j + 1] == [s[0]] + s[1..][..j];
      j + 1
  }

  /** Text around the first `c`. */
  lemma AroundFirst(s: string, c: char)
    requires c in s
    ensures s == s[..IndexOf(s, c)] + [c] + s[IndexOf(s, c) + 1..]
  {
  }

  // ---------------------------------------------------------------------------
  // parseInt(text, 10)
  // ---------------------------------------------------------------------------

  predicate IsDigit(c: char) {
    '0' <= c <= '9'
  }

  /** The white-space characters parseInt skips before the number (the ASCII ones and no-break space). */
  predicate IsSpace(c: char) {
    c == ' ' || c == '\t' || c == '\n' || c == '\r' || c == '\U{0B}' || c == '\U{0C}' || c == '\U{A0}'
  }

  function TrimStart(s: string): (t: string)
    ensures t == [] || !IsSpace(t[0])
    ensures forall i :: 0 <= i < |s| - |t| ==> IsSpace(s[i])
  {
    if |s| > 0 && IsSpace(s[0]) then TrimStart(s[1..]) else s
  }

  /** What is left after the white space is a suffix of the text. */
  lemma {:induction false} TrimStartSuffix(s: string)
    ensures |TrimStart(s)| <= |s| && TrimStart(s) == s[|s| - |TrimStart(s)|..]
  {
    if |s| > 0 && IsSpace(s[0]) {
      TrimStartSuffix(s[1..]);
    }
  }

  predicate AllDigits(d: string) {
    forall i :: 0 <= i < |d| ==> IsDigit(d[i])
  }

  /** The longest run of digits that starts `s`. */
  function DigitPrefix(s: string): (d: string)
    ensures d <= s && AllDigits(d)
    ensures |d| < |s| ==> !IsDigit(s[|d|])
  {
    if |s| > 0 && IsDigit(s[0]) then
      var rest := DigitPrefix(s[1..]);
      assert [s[0]] + rest <= s by { assert s == [s[0]] + s[1..]; }
      [s[0]] + rest
    else []
  }

  function DigitValue(c: char): nat
    requires IsDigit(c)
  {
    (c as int) - ('0' as int)
  }

  /** The number a run of decimal digits denotes, most significant digit first. */
  function DigitsValue(d: string): nat
    requires AllDigits(d)
  {
    if |d| == 0 then 0 else DigitsValue(d[..|d| - 1]) * 10 + DigitValue(d[|d| - 1])
  }

  /** `parseInt(s, 10)`: None stands for NaN. Leading white space and one sign are accepted; the number
      ends at the first non-digit. */
  function ParseInt(s: string): (r: Option<int>)
  {
    ParseSigned(TrimStart(s))
  }

  /** parseInt after the white space: one optional sign, then the leading digits. */
  function ParseSigned(t: string): Option<int> {
    var u := if |t| > 0 && (t[0] == '-' || t[0] == '+') then t[1..] else t;
    match LeadingNumber(u)
    case None => None
    case Some(v) => Some(if |t| > 0 && t[0] == '-' then -(v as int) else v as int)
  }

  /** The run of digits that starts `u`, read as a number; None when `u` does not start with a digit. */
  function LeadingNumber(u: string): Option<nat> {
    var d := DigitPrefix(u);
    if |d| == 0 then None else Some(DigitsValue(d))
  }

  function DigitChar(n: nat): (c: char)
    requires n < 10
    ensures IsDigit(c) && DigitValue(c) == n
  {
    ['0', '1', '2', '3', '4', '5', '6', '7', '8', '9'][n]
  }

  /** The decimal rendering of `n`, without leading zeros. */
  function DecimalText(n: nat): (s: string)
    ensures |s| >= 1 && AllDigits(s)
  {
    if n < 10 then [DigitChar(n)] else DecimalText(n / 10) + [DigitChar(n % 10)]
  }

  lemma {:induction false} DecimalValue(n: nat)
    ensures DigitsValue(DecimalText(n)) == n
  {
    if n >= 10 {
      var s := DecimalText(n);
      assert s[..|s| - 1] == DecimalText(n / 10);
      DecimalValue(n / 10);
    }
  }

  /** Different numbers render differently. */
  lemma DecimalTextInjective(a: nat, b: nat)
    ensures DecimalText(a) == DecimalText(b) <==> a == b
  {
    DecimalValue(a);
    DecimalValue(b);
  }

  /** parseInt reads back a rendered number, whatever non-digit text follows it. */
  lemma {:induction false} ParseIntDecimal(n: nat, rest: string)
    requires rest == [] || !IsDigit(rest[0])
    ensures ParseInt(DecimalText(n) + rest) == Some(n)
  {
    ParseIntDigits(DecimalText(n), rest);
    DecimalValue(n);
  }

  /** parseInt reads a run of digits followed by a non-digit as the value of the digits. */
  lemma ParseIntDigits(d: string, rest: string)
    requires |d| >= 1 && AllDigits(d)
    requires rest == [] || !IsDigit(rest[0])
    ensures ParseInt(d + rest) == Some(DigitsValue(d) as int)
  {
    assert LeadingNumber(d + rest) == Some(DigitsValue(d)) by {
      LeadingNumberOf(d, rest);
    }
    ParseIntNumber(d + rest);
  }

  /** Text that starts with a digit parses to the number it starts with. */
  lemma ParseIntNumber(u: string)
    requires LeadingNumber(u).Some?
    ensures ParseInt(u) == Some(LeadingNumber(u).value as int)
  {
    assert IsDigit(u[0]) by {
      assert DigitPrefix(u) <= u;
    }
    NoSpaceFirst(u);
  }

  lemma {:induction false} DigitPrefixOf(d: string, rest: string)
    requires AllDigits(d)
    requires rest == [] || !IsDigit(rest[0])
    ensures DigitPrefix(d + rest) == d
    decreases |d|
  {
    if |d| > 0 {
      DigitPrefixOf(d[1..], rest);
      assert (d + rest)[1..] == d[1..] + rest;
      assert [d[0]] + d[1..] == d;
    } else {
      assert d + rest == rest;
    }
  }

  /** After leading white space and at most one sign, `s` goes on with a digit. */
  predicate DigitFollows(s: string) {
    var t := TrimStart(s);
    var u := if |t| > 0 && (t[0] == '-' || t[0] == '+') then t[1..] else t;
    u != [] && IsDigit(u[0])
  }

  /** Text that, after white space and an optional sign, does not start with a digit parses to NaN. */
  lemma NoLeadingDigit(s: string)
    requires !DigitFollows(s)
    ensures ParseInt(s) == None
  {
  }

  /** Leading white space is skipped up to the first other character. */
  lemma {:induction false} TrimSpaces(ws: string, t: string)
    requires forall i :: 0 <= i < |ws| ==> IsSpace(ws[i])
    requires t == [] || !IsSpace(t[0])
    ensures TrimStart(ws + t) == t
    decreases |ws|
  {
    if |ws| > 0 {
      assert (ws + t)[1..] == ws[1..] + t;
      TrimSpaces(ws[1..], t);
    } else {
      assert ws + t == t;
    }
  }

  /** parseInt ignores leading white space. */
  lemma ParseIntSkipsSpace(ws: string, t: string)
    requires forall i :: 0 <= i < |ws| ==> IsSpace(ws[i])
    requires t == [] || !IsSpace(t[0])
    ensures ParseInt(ws + t) == ParseInt(t)
  {
    TrimSpaces(ws, t);
    TrimSpaces([], t);
    assert [] + t == t;
  }

  /** A run of digits followed by a non-digit is read as the value of the digits. */
  lemma LeadingNumberOf(d: string, rest: string)
    requires |d| >= 1 && AllDigits(d)
    requires rest == [] || !IsDigit(rest[0])
    ensures LeadingNumber(d + rest) == Some(DigitsValue(d))
  {
    DigitPrefixOf(d, rest);
  }

  /** After a sign `c`, the number is the one the text after the sign starts with, negated for '-'. */
  lemma SignedNumber(c: char, u: string)
    requires c == '-' || c == '+'
    requires LeadingNumber(u).Some?
    ensures ParseSigned([c] + u)
              == Some(if c == '-' then -(LeadingNumber(u).value as int) else LeadingNumber(u).value as int)
  {
    assert ([c] + u)[1..] == u;
  }

  /** A sign `c` before the number: the number after it, negated for '-'. */
  lemma ParseIntAfterSign(c: char, u: string)
    requires c == '-' || c == '+'
    requires LeadingNumber(u).Some?
    ensures ParseInt([c] + u)
              == Some(if c == '-' then -(LeadingNumber(u).value as int) else LeadingNumber(u).value as int)
  {
    var t := [c] + u;
    assert ParseInt(t) == ParseSigned(t) by {
      NoSpaceFirst(t);
    }
    SignedNumber(c, u);
  }

  /** Text that does not start with white space is left as it is. */
  lemma NoSpaceFirst(t: string)
    requires t == [] || !IsSpace(t[0])
    ensures TrimStart(t) == t
  {
  }

  /** Without a sign, parseInt skips leading white space and reads the number the rest starts with. */
  lemma ParseIntUnsigned(ws: string, u: string)
    requires forall i :: 0 <= i < |ws| ==> IsSpace(ws[i])
    requires LeadingNumber(u).Some?
    ensures ParseInt(ws + u) == Some(LeadingNumber(u).value as int)
  {
    assert IsDigit(u[0]) by {
      assert DigitPrefix(u) <= u;
    }
    ParseIntNumber(u);
    ParseIntSkipsSpace(ws, u);
  }

  /** With a sign `c`, parseInt skips leading white space and reads the number after the sign, negated
      for '-'. */
  lemma ParseIntWithSign(ws: string, c: char, u: string)
    requires forall i :: 0 <= i < |ws| ==> IsSpace(ws[i])
    requires c == '-' || c == '+'
    requires LeadingNumber(u).Some?
    ensures ParseInt(ws + [c] + u)
              == Some(if c == '-' then -(LeadingNumber(u).value as int) else LeadingNumber(u).value as int)
  {
    var t := [c] + u;
    assert ws + [c] + u == ws + t;
    assert t[0] == c;
    ParseIntSkipsSpace(ws, t);
    ParseIntAfterSign(c, u);
  }

  /** A minus sign, then digits up to the first non-digit: the negated value of the digits. */
  lemma ParseIntNegative(d: string, rest: string)
    requires |d| >= 1 && AllDigits(d)
    requires rest == [] || !IsDigit(rest[0])
    ensures ParseInt(['-'] + (d + rest)) == Some(-(DigitsValue(d) as int))
  {
    assert LeadingNumber(d + rest) == Some(DigitsValue(d)) by {
      LeadingNumberOf(d, rest);
    }
    ParseIntMinus(d + rest, d);
  }

  /** A minus sign before text whose number is the value of `d` parses to minus that value. */
  lemma ParseIntMinus(u: string, d: string)
    requires AllDigits(d)
    requires LeadingNumber(u) == Some(DigitsValue(d))
    ensures ParseInt(['-'] + u) == Some(-(DigitsValue(d) as int))
  {
    ParseIntAfterSign('-', u);
  }
}

/**
 * The string primitives of Python used by the tool: `str.split(sep)`,
 * `sep.join(...)`, reading a text file line by line with `rstrip('\n')`,
 * `str.strip()`, `str.startswith`, `str(int)` and `int(str)`.
 */
module Text {
  import opened Wrappers

  const Tab: char := '\t'
  const Newline: char := '\n'
  const Return: char := '\r'

  /** `s.split(sep)` for a one-character separator. */
  function Split(s: string, sep: char): (r: seq<string>)
    ensures |r| >= 1
    ensures forall i | 0 <= i < |r| :: sep !in r[i]
  {
    if s == [] then [""]
    else
      var rest := Split(s[1..], sep);
      if s[0] == sep then [""] + rest else [[s[0]] + rest[0]] + rest[1..]
  }

  /** `sep.join(fields)` */
  function Join(fields: seq<string>, sep: char): string
  {
    if fields == [] then ""
    else if |fields| == 1 then fields[0]
    else fields[0] + [sep] + Join(fields[1..], sep)
  }

  lemma {:induction false} SplitNoSep(a: string, sep: char)
    requires sep !in a
    ensures Split(a, sep) == [a]
  {
    if a != [] {
      SplitNoSep(a[1..], sep);
      assert [a[0]] + a[1..] == a;
    }
  }

  lemma {:induction false} SplitAfterField(a: string, sep: char, b: string)
    requires sep !in a
    ensures Split(a + [sep] + b, sep) == [a] + Split(b, sep)
  {
    if a == [] {
      assert a + [sep] + b == [sep] + b;
      assert ([sep] + b)[1..] == b;
    } else {
      assert (a + [sep] + b)[1..] == a[1..] + [sep] + b;
      SplitAfterField(a[1..], sep, b);
      assert [a[0]] + a[1..] == a;
    }
  }

  /** Splitting what was joined gives the fields back when no field holds the separator. */
  lemma {:induction false} SplitJoin(fields: seq<string>, sep: char)
    requires |fields| >= 1
    requires forall i | 0 <= i < |fields| :: sep !in fields[i]
    ensures Split(Join(fields, sep), sep) == fields
  {
    if |fields| == 1 {
      SplitNoSep(fields[0], sep);
    } else {
      SplitJoin(fields[1..], sep);
      SplitAfterField(fields[0], sep, Join(fields[1..], sep));
    }
  }

  /** Joining what was split gives the string back. */
  lemma {:induction false} JoinSplit(s: string, sep: char)
    ensures Join(Split(s, sep), sep) == s
  {
    if s != [] {
      var rest := Split(s[1..], sep);
      JoinSplit(s[1..], sep);
      if s[0] == sep {
        assert [""] + rest == Split(s, sep);
        assert s == [sep] + s[1..];
      } else {
        var r := [[s[0]] + rest[0]] + rest[1..];
        if |rest| == 1 {
          assert Join(r, sep) == [s[0]] + rest[0];
        } else {
          assert Join(rest, sep) == rest[0] + [sep] + Join(rest[1..], sep);
          assert Join(r, sep) == [s[0]] + rest[0] + [sep] + Join(rest[1..], sep);
        }
        assert s == [s[0]] + s[1..];
      }
    }
  }

  /**
   * The text cut at every newline character, each line without its newline,
   * where a final newline does not start another line: `rstrip('\n')`
   * applied to each line `readline()` and `for line in file` deliver once
   * the newlines are in the form `Universal` leaves them.
   */
  function Lines(text: string): (ls: seq<string>)
    ensures forall i | 0 <= i < |ls| :: Newline !in ls[i]
  {
    var pieces := Split(text, Newline);
    if pieces[|pieces| - 1] == "" then pieces[..|pieces| - 1] else pieces
  }

  /** A file written as `line + "\n"` lines, one after the other. */
  function Concat(lines: seq<string>): string
  {
    if lines == [] then "" else lines[0] + [Newline] + Concat(lines[1..])
  }

  /** Reading back a file written line by line gives those lines. */
  lemma {:induction false} LinesConcat(lines: seq<string>)
    requires forall i | 0 <= i < |lines| :: Newline !in lines[i]
    ensures Lines(Concat(lines)) == lines
  {
    if lines != [] {
      LinesConcat(lines[1..]);
      SplitAfterField(lines[0], Newline, Concat(lines[1..]));
    }
  }

  /**
   * Python 3's universal newlines on reading a text file: "\r\n" and a lone
   * "\r" both arrive as "\n"; every other character is kept.
   */
  function Universal(text: string): (r: string)
    ensures Return !in r
    ensures |r| <= |text|
  {
    if text == [] then []
    else if text[0] == Return then
      if |text| > 1 && text[1] == Newline then [Newline] + Universal(text[2..])
      else [Newline] + Universal(text[1..])
    else [text[0]] + Universal(text[1..])
  }

  /** A text without carriage returns is read as it is. */
  lemma {:induction false} UniversalPlain(text: string)
    requires Return !in text
    ensures Universal(text) == text
  {
    if text != [] {
      UniversalPlain(text[1..]);
      assert [text[0]] + text[1..] == text;
    }
  }

  lemma {:induction false} UniversalPrefix(a: string, b: string)
    requires Return !in a
    ensures Universal(a + b) == a + Universal(b)
  {
    if a != [] {
      var t := a + b;
      assert t[0] == a[0] && t[0] != Return && t[1..] == a[1..] + b;
      assert Universal(t) == [t[0]] + Universal(t[1..]);
      UniversalPrefix(a[1..], b);
      assert a == [a[0]] + a[1..];
      assert [a[0]] + (a[1..] + Universal(b)) == a + Universal(b);
    } else {
      assert a + b == b;
    }
  }

  /** The lines of a text file opened in text mode, as the tool reads them. */
  function ReadLines(text: string): (ls: seq<string>)
    ensures forall i | 0 <= i < |ls| :: Newline !in ls[i]
  {
    Lines(Universal(text))
  }

  /** A file written as `line + "\r\n"` lines, one after the other. */
  function ConcatCrlf(lines: seq<string>): string
  {
    if lines == [] then "" else lines[0] + [Return, Newline] + ConcatCrlf(lines[1..])
  }

  lemma {:induction false} ConcatWithout(lines: seq<string>, c: char)
    requires c != Newline
    requires forall i | 0 <= i < |lines| :: c !in lines[i]
    ensures c !in Concat(lines)
  {
    if lines != [] {
      ConcatWithout(lines[1..], c);
    }
  }

  /** A CRLF file reads as the same text as the LF file with the same lines. */
  lemma {:induction false} UniversalCrlf(lines: seq<string>)
    requires forall i | 0 <= i < |lines| :: Return !in lines[i]
    ensures Universal(ConcatCrlf(lines)) == Concat(lines)
  {
    if lines != [] {
      var rest := ConcatCrlf(lines[1..]);
      UniversalCrlf(lines[1..]);
      assert lines[0] + [Return, Newline] + rest == lines[0] + ([Return, Newline] + rest);
      UniversalPrefix(lines[0], [Return, Newline] + rest);
      assert ([Return, Newline] + rest)[2..] == rest;
      assert Universal([Return, Newline] + rest) == [Newline] + Universal(rest);
    }
  }

  /** Reading back a file written line by line with "\n" gives those lines. */
  lemma {:induction false} ReadLinesConcat(lines: seq<string>)
    requires forall i | 0 <= i < |lines| :: Newline !in lines[i] && Return !in lines[i]
    ensures ReadLines(Concat(lines)) == lines
  {
    ConcatWithout(lines, Return);
    UniversalPlain(Concat(lines));
    LinesConcat(lines);
  }

  /** Reading back a file written line by line with "\r\n" gives the same lines. */
  lemma {:induction false} ReadLinesCrlf(lines: seq<string>)
    requires forall i | 0 <= i < |lines| :: Newline !in lines[i] && Return !in lines[i]
    ensures ReadLines(ConcatCrlf(lines)) == lines
  {
    UniversalCrlf(lines);
    LinesConcat(lines);
  }

  lemma {:induction false} ConcatAppend(lines: seq<string>, line: string)
    ensures Concat(lines + [line]) == Concat(lines) + line + [Newline]
  {
    if lines != [] {
      assert (lines + [line])[1..] == lines[1..] + [line];
      ConcatAppend(lines[1..], line);
    }
  }

  /** The characters `str.isspace()` accepts among the first 128 code points. */
  predicate IsSpace(c: char) {
    0x09 <= c as int <= 0x0D || 0x1C <= c as int <= 0x20
  }

  function StripLeft(s: string): string
  {
    if s != [] && IsSpace(s[0]) then StripLeft(s[1..]) else s
  }

  function StripRight(s: string): string
  {
    if s != [] && IsSpace(s[|s| - 1]) then StripRight(s[..|s| - 1]) else s
  }

  /** `s.strip()` */
  function Strip(s: string): string
  {
    StripRight(StripLeft(s))
  }

  /** A value that `strip()` turns into `''`. */
  predicate Blank(s: string) {
    Strip(s) == ""
  }

  lemma {:induction false} StripLeftEmpty(s: string)
    ensures StripLeft(s) == "" <==> forall i | 0 <= i < |s| :: IsSpace(s[i])
  {
    if s != [] && IsSpace(s[0]) {
      StripLeftEmpty(s[1..]);
      assert forall i | 1 <= i < |s| :: s[i] == s[1..][i - 1];
    }
  }

  lemma {:induction false} StripLeftStart(s: string)
    ensures StripLeft(s) != "" ==> !IsSpace(StripLeft(s)[0])
  {
    if s != [] && IsSpace(s[0]) {
      StripLeftStart(s[1..]);
    }
  }

  lemma {:induction false} StripRightKeepsStart(s: string)
    requires s != [] && !IsSpace(s[0])
    ensures StripRight(s) != ""
  {
    if IsSpace(s[|s| - 1]) {
      StripRightKeepsStart(s[..|s| - 1]);
    }
  }

  /** A value is blank exactly when all its characters are whitespace. */
  lemma BlankIff(s: string)
    ensures Blank(s) <==> forall i | 0 <= i < |s| :: IsSpace(s[i])
  {
    StripLeftEmpty(s);
    StripLeftStart(s);
    if StripLeft(s) != "" {
      StripRightKeepsStart(StripLeft(s));
    }
  }

  /** `s.startswith(prefix)` */
  predicate StartsWith(s: string, prefix: string) {
    |prefix| <= |s| && s[..|prefix|] == prefix
  }

  function DigitChar(d: nat): char
    requires d < 10
  {
    "0123456789"[d]
  }

  predicate IsDigit(c: char) {
    '0' <= c <= '9'
  }

  function DigitValue(c: char): nat
    requires IsDigit(c)
  {
    (c as int - '0' as int) as nat
  }

  /** Decimal digits of a natural number, most significant first, no leading zero. */
  function NatToString(n: nat): (s: string)
    ensures |s| >= 1
    ensures forall i | 0 <= i < |s| :: IsDigit(s[i])
  {
    if n < 10 then [DigitChar(n)] else NatToString(n / 10) + [DigitChar(n % 10)]
  }

  /** `str(i)` */
  function IntToString(i: int): string
  {
    if i < 0 then "-" + NatToString(-i) else NatToString(i)
  }

  /** The value of a non-empty string of decimal digits. */
  function DigitsValue(s: string): nat
    requires forall i | 0 <= i < |s| :: IsDigit(s[i])
  {
    if s == [] then 0 else DigitsValue(s[..|s| - 1]) * 10 + DigitValue(s[|s| - 1])
  }

  function ParseDigits(s: string): Option<nat>
  {
    if s != [] && forall i | 0 <= i < |s| :: IsDigit(s[i]) then Some(DigitsValue(s)) else None
  }

  /** `int(s)`: an optional sign followed by decimal digits; None for a ValueError. */
  function ParseInt(s: string): (r: Option<int>)
  {
    if s != [] && s[0] == '-' then
      match ParseDigits(s[1..])
      case Some(n) => Some(0 - n as int)
      case None => None
    else if s != [] && s[0] == '+' then
      match ParseDigits(s[1..])
      case Some(n) => Some(n)
      case None => None
    else
      match ParseDigits(s)
      case Some(n) => Some(n)
      case None => None
  }

  lemma {:induction false} DigitsOfNat(n: nat)
    ensures DigitsValue(NatToString(n)) == n
  {
    if n >= 10 {
      DigitsOfNat(n / 10);
      var s := NatToString(n);
      assert s[..|s| - 1] == NatToString(n / 10);
    }
  }

  lemma ParseDigitsOfNat(n: nat)
    ensures ParseDigits(NatToString(n)) == Some(n)
  {
    DigitsOfNat(n);
  }

  /** `int(str(i)) == i` */
  lemma ParseIntToString(i: int)
    ensures ParseInt(IntToString(i)) == Some(i)
  {
    if i < 0 {
      var d := NatToString(-i);
      ParseDigitsOfNat(-i);
      var s := "-" + d;
      assert s == IntToString(i);
      assert s[0] == '-' && s[1..] == d;
    } else {
      var d := NatToString(i);
      ParseDigitsOfNat(i);
      assert IntToString(i) == d;
      assert d[0] != '-' && d[0] != '+' by { assert IsDigit(d[0]); }
    }
  }

  lemma NatToStringNoSep(n: nat, c: char)
    requires !IsDigit(c)
    ensures c !in NatToString(n)
  {
  }

  /** `str(i)` never holds a tab, a newline or a carriage return. */
  lemma IntToStringPlain(i: int)
    ensures Tab !in IntToString(i) && Newline !in IntToString(i) && Return !in IntToString(i)
  {
    NatToStringNoSep(if i < 0 then -i else i, Tab);
    NatToStringNoSep(if i < 0 then -i else i, Newline);
    NatToStringNoSep(if i < 0 then -i else i, Return);
  }
}

/**
  The pieces of Rust's string library that the VM parser is built from:
  `char::is_whitespace`, `str::trim`, `str::lines`, `str::split_whitespace`,
  `format!("{}", n)` on an unsigned integer and `str::parse::<u16>`.
  Strings are sequences of Unicode scalar values; Rust indexes them by byte,
  which makes no difference to any of the operations below.
*/
module Text {
  import opened Wrappers

  /** Rust's `u16`, the type of the numeric operand. */
  type u16 = n: nat | n < 0x1_0000

  /**
    Whitespace, as `char::is_whitespace` decides it for ASCII: space, tab,
    line feed, vertical tab, form feed and carriage return.
  */
  predicate IsSpace(c: char) {
    c == ' ' || '\t' <= c <= '\r'
  }

  predicate AllSpace(s: string) {
    forall i :: 0 <= i < |s| ==> IsSpace(s[i])
  }

  predicate NoSpace(s: string) {
    forall i :: 0 <= i < |s| ==> !IsSpace(s[i])
  }

  /** One token of `split_whitespace`: non-empty, no whitespace inside. */
  predicate IsWord(s: string) {
    s != [] && NoSpace(s)
  }

  // ---------------------------------------------------------------- trimming

  /** `str::trim_start`: the suffix of `s` after its leading whitespace. */
  function TrimStart(s: string): (r: string)
    ensures |r| <= |s| && r == s[|s| - |r|..]
    ensures r == [] || !IsSpace(r[0])
  {
    if s != [] && IsSpace(s[0]) then TrimStart(s[1..]) else s
  }

  /** `str::trim_end`: the prefix of `s` before its trailing whitespace. */
  function TrimEnd(s: string): (r: string)
    ensures |r| <= |s| && r == s[..|r|]
    ensures r == [] || !IsSpace(r[|r| - 1])
  {
    if s != [] && IsSpace(s[|s| - 1]) then TrimEnd(s[..|s| - 1]) else s
  }

  /** TrimStart drops nothing but whitespace. */
  lemma {:induction false} TrimStartCutsOnlySpace(s: string)
    ensures AllSpace(s[..|s| - |TrimStart(s)|])
  {
    if s != [] && IsSpace(s[0]) {
      var k := |s| - |TrimStart(s)|;
      TrimStartCutsOnlySpace(s[1..]);
      assert s[..k] == [s[0]] + s[1..][..k - 1];
    }
  }

  /** TrimEnd drops nothing but whitespace. */
  lemma {:induction false} TrimEndCutsOnlySpace(s: string)
    ensures AllSpace(s[|TrimEnd(s)|..])
  {
    if s != [] && IsSpace(s[|s| - 1]) {
      var k := |TrimEnd(s)|;
      TrimEndCutsOnlySpace(s[..|s| - 1]);
      assert s[k..] == s[..|s| - 1][k..] + [s[|s| - 1]];
    }
  }

  /** `str::trim`: the result neither starts nor ends with whitespace. */
  function Trim(s: string): (r: string)
    ensures r == [] || (!IsSpace(r[0]) && !IsSpace(r[|r| - 1]))
  {
    var u := TrimStart(s);
    var r := TrimEnd(u);
    assert r == [] || r[0] == u[0];
    r
  }

  /** Trim cuts a piece out of `s`; `k` is where the piece starts. */
  lemma TrimIsInfix(s: string) returns (k: nat)
    ensures k == |s| - |TrimStart(s)|
    ensures k + |Trim(s)| <= |s| && Trim(s) == s[k..k + |Trim(s)|]
  {
    var u := TrimStart(s);
    k := |s| - |u|;
    var r := TrimEnd(u);
    assert Trim(s) == r;
    assert r == s[k..k + |r|] by {
      assert u == s[k..] && r == u[..|r|];
    }
  }

  /** Everything Trim cuts off, on either side of the piece it keeps, is whitespace. */
  lemma TrimCutsOnlySpace(s: string) returns (k: nat)
    ensures k + |Trim(s)| <= |s| && Trim(s) == s[k..k + |Trim(s)|]
    ensures AllSpace(s[..k]) && AllSpace(s[k + |Trim(s)|..])
  {
    k := TrimIsInfix(s);
    var u := TrimStart(s);
    var r := Trim(s);
    assert AllSpace(s[..k]) by {
      TrimStartCutsOnlySpace(s);
    }
    assert AllSpace(s[k + |r|..]) by {
      TrimEndCutsOnlySpace(u);
      assert u == s[k..];
      assert s[k + |r|..] == u[|r|..];
    }
  }

  /** A string that Trim leaves alone is one without surrounding whitespace. */
  lemma TrimOfTrimmed(s: string)
    requires s == [] || (!IsSpace(s[0]) && !IsSpace(s[|s| - 1]))
    ensures Trim(s) == s
  {
  }

  // ------------------------------------------------------------------ lines

  /** Position of the first '\n' in `s`, or `|s|` when there is none. */
  function NewlineIndex(s: string): (i: nat)
    ensures i <= |s| && '\n' !in s[..i]
    ensures i < |s| ==> s[i] == '\n'
  {
    if s == [] || s[0] == '\n' then 0
    else
      var i := 1 + NewlineIndex(s[1..]);
      assert s[..i] == [s[0]] + s[1..][..i - 1];
      i
  }

  /** Drops the '\r' of a "\r\n" terminator. */
  function StripCarriageReturn(line: string): string {
    if line != [] && line[|line| - 1] == '\r' then line[..|line| - 1] else line
  }

  /**
    `str::lines`: the text cut at every '\n', a '\r' just before a '\n'
    removed with it; the last terminator is optional, so text ending in '\n'
    has no empty last line, and a '\r' that ends the text is kept.
  */
  function Lines(s: string): (ls: seq<string>)
    ensures forall l :: l in ls ==> '\n' !in l
    decreases |s|
  {
    if s == [] then []
    else
      var i := NewlineIndex(s);
      if i == |s| then [s]
      else [StripCarriageReturn(s[..i])] + Lines(s[i + 1..])
  }

  /** A line that `str::lines` can give back unchanged. */
  predicate IsPlainLine(l: string) {
    '\n' !in l && (l == [] || l[|l| - 1] != '\r')
  }

  /** Every line followed by '\n': how a sequence of lines is written as text. */
  function JoinLines(ls: seq<string>): string {
    if ls == [] then [] else ls[0] + "\n" + JoinLines(ls[1..])
  }

  /** Writing out one more line in front: the line, its break, then the rest. */
  lemma JoinLinesCons(l: string, ls: seq<string>)
    ensures JoinLines([l] + ls) == l + "\n" + JoinLines(ls)
  {
    assert ([l] + ls)[1..] == ls;
  }

  lemma NewlineIndexAfter(a: string, b: string)
    requires '\n' !in a
    ensures NewlineIndex(a + "\n" + b) == |a|
  {
    var s := a + "\n" + b;
    assert s[|a|] == '\n';
  }

  /** A plain line and its break in front of some text come back as the first line. */
  lemma LinesOfLineThen(a: string, rest: string)
    requires IsPlainLine(a)
    ensures Lines(a + "\n" + rest) == [a] + Lines(rest)
  {
    var s := a + "\n" + rest;
    NewlineIndexAfter(a, rest);
    assert s[..|a|] == a;
    assert s[|a| + 1..] == rest;
  }

  /** Lines inverts JoinLines on lines without terminators. */
  lemma {:induction false} LinesOfJoinLines(ls: seq<string>)
    requires forall l :: l in ls ==> IsPlainLine(l)
    ensures Lines(JoinLines(ls)) == ls
  {
    if ls != [] {
      assert IsPlainLine(ls[0]);
      assert forall l :: l in ls[1..] ==> l in ls;
      LinesOfJoinLines(ls[1..]);
      LinesOfLineThen(ls[0], JoinLines(ls[1..]));
      HeadTail(ls);
    }
  }

  // ----------------------------------------------------------------- tokens

  /** The longest prefix of `s` without whitespace. */
  function LeadingWord(s: string): (w: string)
    ensures |w| <= |s| && w == s[..|w|] && NoSpace(w)
    ensures |w| < |s| ==> IsSpace(s[|w|])
    ensures w == [] <==> (s == [] || IsSpace(s[0]))
  {
    if s == [] || IsSpace(s[0]) then []
    else [s[0]] + LeadingWord(s[1..])
  }

  /** `str::split_whitespace`: the maximal runs of non-whitespace, in order. */
  function Tokens(s: string): (ts: seq<string>)
    ensures forall t :: t in ts ==> IsWord(t)
    decreases |s|
  {
    var u := TrimStart(s);
    if u == [] then []
    else
      var w := LeadingWord(u);
      [w] + Tokens(u[|w|..])
  }

  /** Words joined by single spaces. */
  function Unwords(ws: seq<string>): string {
    if ws == [] then []
    else if |ws| == 1 then ws[0]
    else ws[0] + (" " + Unwords(ws[1..]))
  }

  lemma {:induction false} LeadingWordOf(w: string, tail: string)
    requires IsWord(w)
    requires tail == [] || IsSpace(tail[0])
    ensures LeadingWord(w + tail) == w
  {
    var s := w + tail;
    assert s[0] == w[0];
    assert s[1..] == w[1..] + tail;
    if |w| > 1 {
      LeadingWordOf(w[1..], tail);
    }
  }

  /** A word followed by whitespace or nothing is the first token. */
  lemma TokensOfWordThen(w: string, tail: string)
    requires IsWord(w)
    requires tail == [] || IsSpace(tail[0])
    ensures Tokens(w + tail) == [w] + Tokens(tail)
  {
    var s := w + tail;
    assert s[0] == w[0];
    assert TrimStart(s) == s;
    LeadingWordOf(w, tail);
    assert s[|w|..] == tail;
  }

  lemma TokensAfterSpace(x: string)
    ensures Tokens(" " + x) == Tokens(x)
  {
    assert (" " + x)[1..] == x;
  }

  /** A non-empty sequence is its head followed by its tail. */
  lemma HeadTail<T>(s: seq<T>)
    requires s != []
    ensures [s[0]] + s[1..] == s
  {
  }

  /** split_whitespace inverts Unwords on whitespace-free words. */
  lemma {:induction false} TokensOfUnwords(ws: seq<string>)
    requires forall i :: 0 <= i < |ws| ==> IsWord(ws[i])
    ensures Tokens(Unwords(ws)) == ws
  {
    if |ws| == 1 {
      TokensOfOneWord(ws);
    } else if |ws| > 1 {
      var tail := ws[1..];
      assert forall i :: 0 <= i < |tail| ==> tail[i] == ws[i + 1];
      TokensOfUnwords(tail);
      TokensOfMoreWords(ws);
    }
  }

  lemma TokensOfOneWord(ws: seq<string>)
    requires |ws| == 1 && IsWord(ws[0])
    ensures Tokens(Unwords(ws)) == ws
  {
    assert Unwords(ws) == ws[0] + [];
    TokensOfWordThen(ws[0], []);
    HeadTail(ws);
  }

  lemma TokensOfMoreWords(ws: seq<string>)
    requires |ws| > 1 && IsWord(ws[0])
    requires Tokens(Unwords(ws[1..])) == ws[1..]
    ensures Tokens(Unwords(ws)) == ws
  {
    var w, rest := ws[0], Unwords(ws[1..]);
    assert Unwords(ws) == w + (" " + rest);
    TokensOfWordThen(w, " " + rest);
    TokensAfterSpace(rest);
    HeadTail(ws);
  }

  // -------------------------------------------------------- decimal numbers

  predicate IsDigit(c: char) {
    '0' <= c <= '9'
  }

  predicate AllDigits(s: string) {
    forall i :: 0 <= i < |s| ==> IsDigit(s[i])
  }

  function DigitChar(d: nat): (c: char)
    requires d < 10
    ensures IsDigit(c) && c as int - '0' as int == d
  {
    ('0' as int + d) as char
  }

  /** The number a string of decimal digits denotes, most significant first. */
  function DecimalValue(s: string): nat
    requires AllDigits(s)
  {
    if s == [] then 0
    else
      10 * DecimalValue(s[..|s| - 1]) + (s[|s| - 1] as int - '0' as int)
  }

  /** `format!("{}", n)`: the decimal digits of `n`, without leading zeros. */
  function Decimal(n: nat): (s: string)
    ensures s != [] && AllDigits(s)
    ensures |s| > 1 ==> s[0] != '0'
  {
    if n < 10 then [DigitChar(n)]
    else
      Decimal(n / 10) + [DigitChar(n % 10)]
  }

  lemma {:induction false} DecimalValueOfDecimal(n: nat)
    ensures DecimalValue(Decimal(n)) == n
  {
    if n >= 10 {
      var s := Decimal(n);
      assert s[..|s| - 1] == Decimal(n / 10);
      DecimalValueOfDecimal(n / 10);
    }
  }

  /** A leading zero does not change the value of a digit string. */
  lemma {:induction false} DecimalValueLeadingZero(s: string)
    requires AllDigits(s)
    ensures AllDigits("0" + s) && DecimalValue("0" + s) == DecimalValue(s)
  {
    if s != [] {
      var t := "0" + s;
      assert t[..|t| - 1] == "0" + s[..|s| - 1];
      assert t[|t| - 1] == s[|s| - 1];
      DecimalValueLeadingZero(s[..|s| - 1]);
    }
  }

  /**
    `str::parse::<u16>`: an optional '+', then at least one ASCII digit, the
    value at most 65535. Anything else (empty text, a lone sign, a '-', any
    other character, overflow) is a parse error.
  */
  function ParseU16(s: string): (r: Option<u16>)
    ensures r.Some? ==> s != [] && (s[0] == '+' || IsDigit(s[0]))
    ensures r.Some? ==>
              var d := if s[0] == '+' then s[1..] else s;
              d != [] && AllDigits(d) && r.value == DecimalValue(d)
  {
    var digits := if s != [] && s[0] == '+' then s[1..] else s;
    if digits == [] || !AllDigits(digits) then None
    else
      var v := DecimalValue(digits);
      if v < 0x1_0000 then Some(v) else None
  }

  /**
    ParseU16 rejects a string holding any character other than a digit,
    except a '+' in front: a '-' anywhere, a space, a letter.
  */
  lemma ParseU16RejectsNonDigit(s: string, i: nat)
    requires i < |s| && !IsDigit(s[i]) && !(i == 0 && s[i] == '+')
    ensures ParseU16(s) == None
  {
    if s[0] == '+' {
      assert s[1..][i - 1] == s[i];
    }
  }

  /** On a non-empty digit string ParseU16 is the value, when it fits in 16 bits. */
  lemma ParseU16OfDigits(s: string)
    requires s != [] && AllDigits(s)
    ensures ParseU16(s) == if DecimalValue(s) < 0x1_0000 then Some(DecimalValue(s)) else None
    ensures ParseU16("+" + s) == ParseU16(s)
  {
    assert s[0] != '+';
    assert ("+" + s)[1..] == s;
  }

  /**
    ParseU16 reads back what Decimal writes, with or without a '+' or a
    leading zero; past 65535 it overflows, and a '-' is never accepted.
  */
  lemma ParseU16OfDecimal(n: nat)
    ensures n < 0x1_0000 ==> ParseU16(Decimal(n)) == Some(n)
    ensures n < 0x1_0000 ==> ParseU16("+" + Decimal(n)) == Some(n)
    ensures n < 0x1_0000 ==> ParseU16("0" + Decimal(n)) == Some(n)
    ensures n >= 0x1_0000 ==> ParseU16(Decimal(n)) == None
    ensures ParseU16("-" + Decimal(n)) == None
  {
    var d := Decimal(n);
    DecimalValueOfDecimal(n);
    DecimalValueLeadingZero(d);
    ParseU16OfDigits(d);
    ParseU16OfDigits("0" + d);
    assert ("-" + d)[0] == '-';
  }
}

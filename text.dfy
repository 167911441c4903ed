/** The pieces of Python's string handling the bot relies on: `str.split()`
    with no separator, `str.split(":")`, `str.upper()`, `int()` and `str()`
    on integers. */
module Text {

  import opened Model

  /** The characters Python's `str.isspace` accepts, which are the
      separators of `str.split()`. */
  predicate IsSpace(c: char) {
    ('\t' <= c <= '\r') || ('\U{1C}' <= c <= '\U{1F}') || c == ' ' ||
    c == '\U{85}' || c == '\U{A0}' || c == '\U{1680}' ||
    ('\U{2000}' <= c <= '\U{200A}') || c == '\U{2028}' || c == '\U{2029}' ||
    c == '\U{202F}' || c == '\U{205F}' || c == '\U{3000}'
  }

  predicate NoSpace(s: string) {
    forall i :: 0 <= i < |s| ==> !IsSpace(s[i])
  }

  /** A single word: what `str.split()` leaves as one piece. */
  predicate IsWord(s: string) {
    s != [] && NoSpace(s)
  }

  /** Length of the run of non-space characters at the front of s. */
  function WordLength(s: string): (n: nat)
    ensures n <= |s|
    ensures s != [] && !IsSpace(s[0]) ==> n > 0
  {
    if s == [] || IsSpace(s[0]) then 0 else 1 + WordLength(s[1..])
  }

  /** `s.split()`: the maximal runs of non-space characters, in order. */
  function Words(s: string): seq<string>
    decreases |s|
  {
    if s == [] then []
    else if IsSpace(s[0]) then Words(s[1..])
    else
      var n := WordLength(s);
      [s[..n]] + Words(s[n..])
  }

  lemma {:induction false} WordLengthOfWord(w: string, rest: string)
    requires NoSpace(w)
    requires rest == [] || IsSpace(rest[0])
    ensures WordLength(w + rest) == |w|
  {
    if w != [] {
      assert (w + rest)[1..] == w[1..] + rest;
      WordLengthOfWord(w[1..], rest);
    } else {
      assert w + rest == rest;
    }
  }

  /** Splitting a word followed by a space and more text yields the word
      and then the words of the rest. */
  lemma WordsOfJoin(w: string, rest: string)
    requires IsWord(w)
    ensures Words(w + " " + rest) == [w] + Words(rest)
  {
    var s := w + " " + rest;
    WordLengthOfWord(w, " " + rest);
    assert s == w + (" " + rest);
    assert s[..|w|] == w;
    assert s[|w|..] == " " + rest;
    assert (" " + rest)[1..] == rest;
  }

  lemma WordsOfWord(w: string)
    requires IsWord(w)
    ensures Words(w) == [w]
  {
    WordLengthOfWord(w, []);
    assert w + [] == w;
    assert w[|w|..] == [];
  }

  /** A command followed by its arguments, each separated by one space,
      splits back into exactly those words. */
  lemma {:induction false} WordsOfLine(ws: seq<string>)
    requires ws != []
    requires forall i :: 0 <= i < |ws| ==> IsWord(ws[i])
    ensures Words(Line(ws)) == ws
  {
    if |ws| == 1 {
      WordsOfWord(ws[0]);
    } else {
      WordsOfLine(ws[1..]);
      WordsOfJoin(ws[0], Line(ws[1..]));
    }
  }

  /** A command and one argument, separated by a space, split back into
      the two. */
  lemma WordsOfPair(a: string, b: string)
    requires IsWord(a) && IsWord(b)
    ensures Words(a + " " + b) == [a, b]
  {
    WordsOfLine([a, b]);
    assert Line([a, b][1..]) == b;
  }

  /** Words joined by single spaces. */
  function Line(ws: seq<string>): string
    requires ws != []
  {
    if |ws| == 1 then ws[0] else ws[0] + " " + Line(ws[1..])
  }

  /** `str.upper()` on ASCII letters; every other character is kept. */
  function UpperChar(c: char): char {
    if 'a' <= c <= 'z' then (c as int - 32) as char else c
  }

  function Upper(s: string): (r: string)
    ensures |r| == |s|
    ensures forall i :: 0 <= i < |s| ==> r[i] == UpperChar(s[i])
  {
    seq(|s|, i requires 0 <= i < |s| => UpperChar(s[i]))
  }

  /** `data.split(":")[1] if ":" in data else ""`: the text between the
      first colon and the next one (or the end). */
  function CallbackCode(data: string): string {
    if ':' in data then UntilColon(AfterColon(data)) else ""
  }

  function AfterColon(s: string): string
    decreases |s|
  {
    if s == [] then [] else if s[0] == ':' then s[1..] else AfterColon(s[1..])
  }

  function UntilColon(s: string): (r: string)
    ensures |r| <= |s|
    decreases |s|
  {
    if s == [] || s[0] == ':' then [] else [s[0]] + UntilColon(s[1..])
  }

  lemma {:induction false} UntilColonOfPlain(s: string)
    requires ':' !in s
    ensures UntilColon(s) == s
  {
    if s != [] {
      UntilColonOfPlain(s[1..]);
    }
  }

  lemma {:induction false} AfterColonOfPrefixed(p: string, s: string)
    requires ':' !in p
    ensures AfterColon(p + ":" + s) == s
  {
    if p == [] {
      assert p + ":" + s == [':'] + s;
    } else {
      assert (p + ":" + s)[1..] == p[1..] + ":" + s;
      AfterColonOfPrefixed(p[1..], s);
    }
  }

  /** The recheck button carries `check_join:<code>`; reading it back
      yields the code, for every code without a colon (including the
      empty code). */
  lemma CallbackCodeRoundTrip(code: string)
    requires ':' !in code
    ensures CallbackCode("check_join:" + code) == code
  {
    AfterColonOfPrefixed("check_join", code);
    assert "check_join:" + code == "check_join" + ":" + code;
    UntilColonOfPlain(code);
  }

  // ---- integers ----

  predicate IsDigit(c: char) {
    '0' <= c <= '9'
  }

  /** A run of decimal digits with single underscores allowed between
      digits, as `int()` accepts. */
  predicate DigitsWellFormed(s: string) {
    && s != []
    && IsDigit(s[0])
    && IsDigit(s[|s| - 1])
    && forall i :: 0 <= i < |s| - 1 ==> IsDigit(s[i]) || (s[i] == '_' && IsDigit(s[i + 1]))
  }

  /** The value of the digits of s, underscores skipped. */
  function DigitsValue(s: string): nat
    decreases |s|
  {
    if s == [] then 0
    else
      var c := s[|s| - 1];
      if IsDigit(c) then DigitsValue(s[..|s| - 1]) * 10 + (c as int - '0' as int)
      else DigitsValue(s[..|s| - 1])
  }

  /** `int(s)` for a string without surrounding spaces: an optional sign
      and well-formed digits; None where Python raises ValueError. */
  function ParseInt(s: string): Option<int> {
    if s != [] && (s[0] == '+' || s[0] == '-') then
      var d := s[1..];
      if DigitsWellFormed(d) then
        var v: int := DigitsValue(d);
        Some(if s[0] == '-' then -v else v)
      else None
    else if DigitsWellFormed(s) then Some(DigitsValue(s))
    else None
  }

  function DigitChar(d: nat): char
    requires d < 10
  {
    ('0' as int + d) as char
  }

  /** `str(n)` for n >= 0. */
  function Decimal(n: nat): (r: string)
    ensures r != []
    decreases n
  {
    if n < 10 then [DigitChar(n)] else Decimal(n / 10) + [DigitChar(n % 10)]
  }

  /** `str(n)`. */
  function IntString(n: int): string {
    if n < 0 then "-" + Decimal(-n) else Decimal(n)
  }

  lemma {:induction false} DecimalDigits(n: nat)
    ensures forall i :: 0 <= i < |Decimal(n)| ==> IsDigit(Decimal(n)[i])
    ensures DigitsValue(Decimal(n)) == n
    decreases n
  {
    if n >= 10 {
      DecimalDigits(n / 10);
      var s := Decimal(n);
      assert s[..|s| - 1] == Decimal(n / 10);
    }
  }

  /** `int(str(n)) == n`. */
  lemma ParseIntRoundTrip(n: int)
    ensures ParseInt(IntString(n)) == Some(n)
    ensures IsWord(IntString(n))
  {
    var m := if n < 0 then -n else n;
    DecimalDigits(m);
    var d := Decimal(m);
    assert DigitsWellFormed(d);
    if n < 0 {
      var s := "-" + d;
      assert s[1..] == d;
      assert forall i :: 0 <= i < |s| ==> !IsSpace(s[i]) by {
        forall i | 0 <= i < |s| ensures !IsSpace(s[i]) {
          if i > 0 { assert s[i] == d[i - 1]; }
        }
      }
    } else {
      assert d[0] != '+' && d[0] != '-';
    }
  }
}

/**
 * The string built-ins the backend and the client rely on: Python's
 * whitespace classes, `str.split()`, `' '.join(...)`, `str.strip()`,
 * ASCII lower-casing and the decimal rendering of integers used by
 * f-strings and JavaScript template literals.
 */
module Text {

  /** The characters Python's `str.split()` and `str.strip()` (no argument) treat as whitespace. */
  predicate IsSpace(c: char) {
    || ('\t' <= c <= '\r')
    || ('\U{1C}' <= c <= '\U{1F}')
    || c == ' ' || c == '\U{85}' || c == '\U{A0}' || c == '\U{1680}'
    || ('\U{2000}' <= c <= '\U{200A}')
    || c == '\U{2028}' || c == '\U{2029}' || c == '\U{202F}' || c == '\U{205F}' || c == '\U{3000}'
  }

  predicate NoSpace(s: string) {
    forall i :: 0 <= i < |s| ==> !IsSpace(s[i])
  }

  /** Drops leading whitespace (the left half of `str.strip()`). */
  function TrimStart(s: string): (r: string)
    ensures |r| <= |s| && r == s[|s| - |r|..]
    ensures r == [] || !IsSpace(r[0])
    ensures forall i :: 0 <= i < |s| - |r| ==> IsSpace(s[i])
  {
    if s != [] && IsSpace(s[0]) then TrimStart(s[1..]) else s
  }

  /** Drops trailing whitespace (the right half of `str.strip()`). */
  function TrimEnd(s: string): (r: string)
    ensures |r| <= |s| && r == s[..|r|]
    ensures r == [] || !IsSpace(r[|r| - 1])
    ensures forall i :: |r| <= i < |s| ==> IsSpace(s[i])
  {
    if s != [] && IsSpace(s[|s| - 1]) then TrimEnd(s[..|s| - 1]) else s
  }

  /** Python's `str.strip()` with no argument. */
  function Strip(s: string): (r: string)
    ensures r == [] || (!IsSpace(r[0]) && !IsSpace(r[|r| - 1]))
  {
    TrimEnd(TrimStart(s))
  }

  /** A string without whitespace is left unchanged by `str.strip()`. */
  lemma StripNoSpace(s: string)
    requires NoSpace(s)
    ensures Strip(s) == s
  {
  }

  /** The longest prefix of `s` that contains no whitespace. */
  function WordPrefix(s: string): (w: string)
    ensures w <= s && NoSpace(w)
    ensures |w| < |s| ==> IsSpace(s[|w|])
    ensures s != [] && !IsSpace(s[0]) ==> w != []
  {
    if s == [] || IsSpace(s[0]) then [] else [s[0]] + WordPrefix(s[1..])
  }

  /** A list of words as `str.split()` produces them: non-empty and free of whitespace. */
  predicate WellFormedWords(ws: seq<string>) {
    forall i :: 0 <= i < |ws| ==> ws[i] != [] && NoSpace(ws[i])
  }

  /** Python's `str.split()` with no argument: the maximal runs of non-whitespace characters. */
  function Split(s: string): (ws: seq<string>)
    ensures WellFormedWords(ws)
    decreases |s|
  {
    var t := TrimStart(s);
    if t == [] then []
    else
      var w := WordPrefix(t);
      var rest := Split(t[|w|..]);
      WellFormedCons(w, rest);
      [w] + rest
  }

  lemma WellFormedCons(w: string, rest: seq<string>)
    requires w != [] && NoSpace(w) && WellFormedWords(rest)
    ensures WellFormedWords([w] + rest)
  {
    var ws := [w] + rest;
    forall i | 0 <= i < |ws| ensures ws[i] != [] && NoSpace(ws[i]) {
      if i > 0 {
        assert ws[i] == rest[i - 1];
      }
    }
  }

  /** Python's `' '.join(ws)`. */
  function Join(ws: seq<string>): string {
    if ws == [] then []
    else if |ws| == 1 then ws[0]
    else ws[0] + (" " + Join(ws[1..]))
  }

  /** Python's `' '.join(s.split())`: runs of whitespace become one space, the ends are trimmed. */
  function Collapse(s: string): string {
    Join(Split(s))
  }

  /** Every whitespace character is a single space with a non-whitespace character on each side. */
  predicate Collapsed(r: string) {
    forall i :: 0 <= i < |r| && IsSpace(r[i]) ==>
      r[i] == ' ' && 0 < i < |r| - 1 && !IsSpace(r[i - 1]) && !IsSpace(r[i + 1])
  }

  lemma {:induction false} JoinCollapsed(ws: seq<string>)
    requires WellFormedWords(ws)
    ensures Collapsed(Join(ws))
    ensures ws != [] ==> Join(ws) != [] && Join(ws)[0] == ws[0][0]
    ensures ws != [] ==> !IsSpace(Join(ws)[|Join(ws)| - 1])
  {
    if |ws| > 1 {
      JoinCollapsed(ws[1..]);
      var rest := Join(ws[1..]);
      var r := ws[0] + " " + rest;
      assert Join(ws) == r;
      forall i | 0 <= i < |r| && IsSpace(r[i])
        ensures r[i] == ' ' && 0 < i < |r| - 1 && !IsSpace(r[i - 1]) && !IsSpace(r[i + 1])
      {
        if i < |ws[0]| {
          assert false;
        } else if i == |ws[0]| {
          assert r[i + 1] == rest[0];
          assert r[i - 1] == ws[0][|ws[0]| - 1];
        } else {
          var j := i - |ws[0]| - 1;
          assert r[i] == rest[j];
          assert r[i + 1] == rest[j + 1];
          assert r[i - 1] == rest[j - 1];
        }
      }
    }
  }

  /** The collapsed text has no leading, trailing or doubled whitespace. */
  lemma CollapseShape(s: string)
    ensures Collapsed(Collapse(s))
    ensures Collapse(s) != [] ==> !IsSpace(Collapse(s)[0]) && !IsSpace(Collapse(s)[|Collapse(s)| - 1])
    ensures forall i :: 0 <= i < |Collapse(s)| - 1 ==> !(IsSpace(Collapse(s)[i]) && IsSpace(Collapse(s)[i + 1]))
  {
    JoinCollapsed(Split(s));
  }

  lemma {:induction false} WordPrefixOf(w: string, rest: string)
    requires NoSpace(w)
    requires rest == [] || IsSpace(rest[0])
    ensures WordPrefix(w + rest) == w
    decreases |w|
  {
    if w == [] {
      assert w + rest == rest;
    } else {
      assert !IsSpace(w[0]) && NoSpace(w[1..]);
      WordPrefixOf(w[1..], rest);
      WordPrefixOfStep(w, rest);
    }
  }

  lemma WordPrefixOfStep(w: string, rest: string)
    requires w != [] && !IsSpace(w[0]) && WordPrefix(w[1..] + rest) == w[1..]
    ensures WordPrefix(w + rest) == w
  {
    var s := w + rest;
    assert s[0] == w[0];
    calc {
      WordPrefix(s);
      { WordPrefixCons(s); }
      [s[0]] + WordPrefix(s[1..]);
      { assert s[1..] == w[1..] + rest; }
      [w[0]] + w[1..];
      { HeadTail(w); }
      w;
    }
  }

  lemma WordPrefixCons(s: string)
    requires s != [] && !IsSpace(s[0])
    ensures WordPrefix(s) == [s[0]] + WordPrefix(s[1..])
  {
  }

  lemma SplitLeadingSpace(x: string)
    ensures Split(" " + x) == Split(x)
  {
    var s := " " + x;
    assert s[0] == ' ' && s[1..] == x;
    assert TrimStart(s) == TrimStart(x);
    SplitSameTrim(s, x);
  }

  /** Split only looks at the text after its leading whitespace. */
  lemma SplitSameTrim(a: string, b: string)
    requires TrimStart(a) == TrimStart(b)
    ensures Split(a) == Split(b)
  {
  }

  lemma SplitWord(w: string, rest: string)
    requires w != [] && NoSpace(w)
    requires rest == [] || IsSpace(rest[0])
    ensures Split(w + rest) == [w] + Split(rest)
  {
    var s := w + rest;
    assert s[0] == w[0];
    assert TrimStart(s) == s;
    WordPrefixOf(w, rest);
    assert s[|w|..] == rest;
  }

  lemma WellFormedTail(ws: seq<string>)
    requires ws != [] && WellFormedWords(ws)
    ensures WellFormedWords(ws[1..])
  {
    var tail := ws[1..];
    forall i | 0 <= i < |tail| ensures tail[i] != [] && NoSpace(tail[i]) {
      assert tail[i] == ws[i + 1];
    }
  }

  lemma SplitJoinStep(ws: seq<string>)
    requires |ws| > 1 && WellFormedWords(ws)
    requires Split(Join(ws[1..])) == ws[1..]
    ensures Split(Join(ws)) == ws
  {
    var tail := Join(ws[1..]);
    var rest := " " + tail;
    assert Join(ws) == ws[0] + rest;
    assert ws[0] != [] && NoSpace(ws[0]);
    assert IsSpace(rest[0]);
    SplitWord(ws[0], rest);
    SplitLeadingSpace(tail);
    assert Split(rest) == ws[1..];
    HeadTail(ws);
  }

  lemma HeadTail<T>(ws: seq<T>)
    requires ws != []
    ensures [ws[0]] + ws[1..] == ws
  {
  }

  /** Splitting a space-joined list of words gives the words back. */
  lemma {:induction false} SplitJoin(ws: seq<string>)
    requires WellFormedWords(ws)
    ensures Split(Join(ws)) == ws
  {
    if ws == [] {
      SplitJoinEmpty(ws);
    } else if |ws| == 1 {
      SplitJoinOne(ws);
    } else {
      WellFormedTail(ws);
      SplitJoin(ws[1..]);
      SplitJoinStep(ws);
    }
  }

  lemma SplitJoinEmpty(ws: seq<string>)
    requires ws == []
    ensures Split(Join(ws)) == ws
  {
  }

  lemma SplitJoinOne(ws: seq<string>)
    requires |ws| == 1 && WellFormedWords(ws)
    ensures Split(Join(ws)) == ws
  {
    SplitWord(ws[0], []);
    assert ws[0] + [] == ws[0];
    HeadTail(ws);
  }

  /** Collapsing whitespace twice is the same as collapsing it once. */
  lemma CollapseIdempotent(s: string)
    ensures Collapse(Collapse(s)) == Collapse(s)
  {
    SplitJoin(Split(s));
  }

  /** Collapsing whitespace does not change the number of words. */
  lemma CollapseKeepsWords(s: string)
    ensures Split(Collapse(s)) == Split(s)
  {
    SplitJoin(Split(s));
  }

  /** ASCII lower-casing of one character. */
  function LowerChar(c: char): char {
    if 'A' <= c <= 'Z' then (c as int + 32) as char else c
  }

  /** Lower-casing, exact on ASCII text. */
  function AsciiLower(s: string): (r: string)
    ensures |r| == |s|
    ensures forall i :: 0 <= i < |s| ==> r[i] == LowerChar(s[i])
  {
    seq(|s|, i requires 0 <= i < |s| => LowerChar(s[i]))
  }

  predicate IsDigit(c: char) {
    '0' <= c <= '9'
  }

  predicate AllDigits(s: string) {
    forall i :: 0 <= i < |s| ==> IsDigit(s[i])
  }

  function DigitChar(d: nat): (c: char)
    requires d < 10
    ensures IsDigit(c) && c as int - '0' as int == d
  {
    ('0' as int + d) as char
  }

  /** Decimal rendering of a natural number, as `str(n)` and `${n}` print it. */
  function NatToString(n: nat): (r: string)
    ensures r != [] && AllDigits(r)
    ensures n >= 10 ==> r[0] != '0'
    decreases n
  {
    if n < 10 then [DigitChar(n)] else NatToString(n / 10) + [DigitChar(n % 10)]
  }

  /** Decimal rendering of an integer, with a leading '-' when negative. */
  function IntToString(i: int): (r: string)
    ensures r != []
    ensures forall k :: 0 <= k < |r| ==> IsDigit(r[k]) || r[k] == '-'
  {
    if i < 0 then "-" + NatToString(-i) else NatToString(i)
  }

  /** The value of a string of decimal digits. */
  function ParseDigits(s: string): nat
    requires AllDigits(s)
  {
    if s == [] then 0 else ParseDigits(s[..|s| - 1]) * 10 + (s[|s| - 1] as int - '0' as int)
  }

  /** Reading back a rendered natural number gives the number. */
  lemma {:induction false} NatToStringRoundTrip(n: nat)
    ensures ParseDigits(NatToString(n)) == n
  {
    if n >= 10 {
      NatToStringRoundTrip(n / 10);
      var r := NatToString(n);
      assert r[..|r| - 1] == NatToString(n / 10);
    }
  }

  /** Different numbers are rendered differently. */
  lemma NatToStringInjective(m: nat, n: nat)
    requires NatToString(m) == NatToString(n)
    ensures m == n
  {
    NatToStringRoundTrip(m);
    NatToStringRoundTrip(n);
  }

  /** Different integers are rendered differently: the sign is the leading '-'. */
  lemma IntToStringInjective(a: int, b: int)
    requires IntToString(a) == IntToString(b)
    ensures a == b
  {
    assert (IntToString(a)[0] == '-') <==> a < 0;
    assert (IntToString(b)[0] == '-') <==> b < 0;
    if a < 0 {
      assert IntToString(a)[1..] == NatToString(-a);
      assert IntToString(b)[1..] == NatToString(-b);
      NatToStringInjective(-a, -b);
    } else {
      NatToStringInjective(a, b);
    }
  }
}

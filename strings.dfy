/** The parts of Rust's `str` API that the MSF and cue sheet parsers rely on:
    `trim`, `split`, `split_whitespace`, `rsplit(char::is_whitespace)`,
    `to_uppercase`, `lines` and `parse::<u8>`. */
module Strings {
  import opened Wrappers

  /** `char::is_whitespace`: the characters with the Unicode White_Space property. */
  predicate IsWhitespace(c: char) {
    || c == ' '
    || ('\t' <= c <= '\r')
    || c == '\U{85}' || c == '\U{A0}' || c == '\U{1680}'
    || ('\U{2000}' <= c <= '\U{200A}')
    || c == '\U{2028}' || c == '\U{2029}' || c == '\U{202F}' || c == '\U{205F}'
    || c == '\U{3000}'
  }

  predicate NoWhitespace(s: string) {
    forall i :: 0 <= i < |s| ==> !IsWhitespace(s[i])
  }

  /** `str::trim_start`: drops the longest all-whitespace prefix. */
  function TrimStart(s: string): (r: string)
    ensures |r| <= |s| && r == s[|s| - |r|..]
    ensures forall i :: 0 <= i < |s| - |r| ==> IsWhitespace(s[i])
    ensures r != [] ==> !IsWhitespace(r[0])
  {
    if s != [] && IsWhitespace(s[0]) then TrimStart(s[1..]) else s
  }

  /** `str::trim_end`: drops the longest all-whitespace suffix. */
  function TrimEnd(s: string): (r: string)
    ensures |r| <= |s| && r == s[..|r|]
    ensures forall i :: |r| <= i < |s| ==> IsWhitespace(s[i])
    ensures r != [] ==> !IsWhitespace(r[|r| - 1])
  {
    if s != [] && IsWhitespace(s[|s| - 1]) then TrimEnd(s[..|s| - 1]) else s
  }

  /** `str::trim`. */
  function Trim(s: string): (r: string)
    ensures r != [] ==> !IsWhitespace(r[0]) && !IsWhitespace(r[|r| - 1])
  {
    TrimEnd(TrimStart(s))
  }

  /** Whitespace in front of a text that does not start with any is what `trim_start` drops. */
  lemma {:induction false} TrimStartPadded(w: string, t: string)
    requires forall i :: 0 <= i < |w| ==> IsWhitespace(w[i])
    requires t != [] && !IsWhitespace(t[0])
    ensures TrimStart(w + t) == t
  {
    if w == [] {
      assert w + t == t;
    } else {
      assert (w + t)[1..] == w[1..] + t;
      TrimStartPadded(w[1..], t);
    }
  }

  /** Whitespace after a text that does not end with any is what `trim_end` drops. */
  lemma {:induction false} TrimEndPadded(t: string, w: string)
    requires forall i :: 0 <= i < |w| ==> IsWhitespace(w[i])
    requires t != [] && !IsWhitespace(t[|t| - 1])
    ensures TrimEnd(t + w) == t
  {
    if w == [] {
      assert t + w == t;
    } else {
      assert (t + w)[..|t + w| - 1] == t + w[..|w| - 1];
      TrimEndPadded(t, w[..|w| - 1]);
    }
  }

  /** `str::trim` drops exactly the whitespace around a text that neither starts nor ends with any. */
  lemma TrimPadded(w1: string, t: string, w2: string)
    requires forall i :: 0 <= i < |w1| ==> IsWhitespace(w1[i])
    requires forall i :: 0 <= i < |w2| ==> IsWhitespace(w2[i])
    requires t != [] && !IsWhitespace(t[0]) && !IsWhitespace(t[|t| - 1])
    ensures Trim(w1 + t + w2) == t
  {
    assert w1 + t + w2 == w1 + (t + w2);
    assert (t + w2)[0] == t[0];
    TrimStartPadded(w1, t + w2);
    TrimEndPadded(t, w2);
  }

  /** Number of occurrences of `c` in `s`. */
  function Count(s: string, c: char): nat {
    if s == [] then 0 else (if s[0] == c then 1 else 0) + Count(s[1..], c)
  }

  /** Puts `sep` between the pieces; the inverse of Split. */
  function Join(pieces: seq<string>, sep: char): string
    requires |pieces| >= 1
  {
    if |pieces| == 1 then pieces[0] else pieces[0] + [sep] + Join(pieces[1..], sep)
  }

  /** `str::split(sep)`, collected: the (possibly empty) pieces between the
      occurrences of `sep`. The contract determines the result uniquely. */
  function Split(s: string, sep: char): (r: seq<string>)
    ensures |r| == Count(s, sep) + 1
    ensures forall k :: 0 <= k < |r| ==> sep !in r[k]
    ensures Join(r, sep) == s
  {
    if s == [] then [[]]
    else
      var rest := Split(s[1..], sep);
      if s[0] == sep then
        [[]] + rest
      else
        var r := [[s[0]] + rest[0]] + rest[1..];
        assert r[1..] == rest[1..];
        assert |rest| > 1 ==> Join(r, sep) == [s[0]] + (rest[0] + [sep] + Join(rest[1..], sep));
        r
  }

  /** The longest prefix of `s` that holds no whitespace. */
  function TakeWord(s: string): (r: string)
    ensures |r| <= |s| && r == s[..|r|] && NoWhitespace(r)
    ensures |r| < |s| ==> IsWhitespace(s[|r|])
    ensures s != [] && !IsWhitespace(s[0]) ==> |r| >= 1
  {
    if s == [] || IsWhitespace(s[0]) then [] else [s[0]] + TakeWord(s[1..])
  }

  /** `str::split_whitespace`, collected: the maximal non-empty runs of
      non-whitespace characters, in order. */
  function Words(s: string): (r: seq<string>)
    ensures forall w <- r :: w != [] && NoWhitespace(w)
    ensures r == [] <==> TrimStart(s) == []
    decreases |s|
  {
    var t := TrimStart(s);
    if t == [] then
      []
    else
      var w := TakeWord(t);
      var rest := Words(t[|w|..]);
      assert forall x <- [w] + rest :: x == w || x in rest;
      [w] + rest
  }

  /** `split_whitespace().next()`: the first word of a line, if any. */
  function FirstWord(s: string): (r: Option<string>)
    ensures r.None? <==> forall i :: 0 <= i < |s| ==> IsWhitespace(s[i])
    ensures r.Some? ==> r.value != [] && NoWhitespace(r.value)
  {
    var ws := Words(s);
    var t := TrimStart(s);
    assert t != [] ==> t[0] == s[|s| - |t|];
    if ws == [] then None else Some(ws[0])
  }

  /** A non-empty word followed by whitespace is the first word of the text. */
  lemma {:induction false} TakeWordCons(w: string, rest: string)
    requires NoWhitespace(w) && (rest == [] || IsWhitespace(rest[0]))
    ensures TakeWord(w + rest) == w
  {
    if w == [] {
      assert w + rest == rest;
    } else {
      assert (w + rest)[1..] == w[1..] + rest;
      TakeWordCons(w[1..], rest);
    }
  }

  lemma WordsCons(w: string, sep: char, rest: string)
    requires w != [] && NoWhitespace(w) && IsWhitespace(sep)
    ensures Words(w + [sep] + rest) == [w] + Words(rest)
  {
    var s := w + [sep] + rest;
    assert s == w + ([sep] + rest);
    TakeWordCons(w, [sep] + rest);
    assert s[|w|..] == [sep] + rest;
    assert TrimStart([sep] + rest) == TrimStart(rest) by {
      assert ([sep] + rest)[1..] == rest;
    }
  }

  lemma WordsSingle(w: string)
    requires w != [] && NoWhitespace(w)
    ensures Words(w) == [w]
  {
    TakeWordCons(w, []);
    assert w + [] == w;
    assert TrimStart(w) == w;
    assert w[|w|..] == [];
    assert Words([]) == [];
  }

  /** `rsplit(char::is_whitespace).next()`: the (possibly empty) text after
      the last whitespace character, or all of `s` if it has none. */
  function AfterLastWhitespace(s: string): (r: string)
    ensures |r| <= |s| && r == s[|s| - |r|..] && NoWhitespace(r)
    ensures |r| < |s| ==> IsWhitespace(s[|s| - |r| - 1])
  {
    if s == [] || IsWhitespace(s[|s| - 1]) then []
    else AfterLastWhitespace(s[..|s| - 1]) + [s[|s| - 1]]
  }

  /** The text after a final run of whitespace and a word is that word. */
  lemma {:induction false} AfterLastWhitespaceWord(a: string, w: string)
    requires a != [] && IsWhitespace(a[|a| - 1]) && NoWhitespace(w)
    ensures AfterLastWhitespace(a + w) == w
    decreases |w|
  {
    var s := a + w;
    if w == [] {
      assert s == a;
    } else {
      var n := |w| - 1;
      assert s[..|s| - 1] == a + w[..n];
      assert s[|s| - 1] == w[n];
      AfterLastWhitespaceWord(a, w[..n]);
      assert w[..n] + [w[n]] == w;
    }
  }

  /** `char::to_uppercase` for the ASCII letters and for the non-ASCII
      characters whose upper case is made of ASCII letters only; every other
      character is kept as it is. */
  function UpperChar(c: char): (r: string)
    ensures |r| >= 1
    ensures IsWhitespace(c) ==> r == [c]
    ensures !IsWhitespace(c) ==> NoWhitespace(r)
  {
    if 'a' <= c <= 'z' then [(c as int - 32) as char]
    else if c == '\U{131}' then "I"   // dotless i
    else if c == '\U{17F}' then "S"   // long s
    else if c == '\U{DF}' then "SS"   // sharp s
    else if c == '\U{FB00}' then "FF"
    else if c == '\U{FB01}' then "FI"
    else if c == '\U{FB02}' then "FL"
    else if c == '\U{FB03}' then "FFI"
    else if c == '\U{FB04}' then "FFL"
    else if c == '\U{FB05}' || c == '\U{FB06}' then "ST"
    else [c]
  }

  /** `str::to_uppercase`. */
  function ToUppercase(s: string): string {
    if s == [] then [] else UpperChar(s[0]) + ToUppercase(s[1..])
  }

  /** Each character is replaced by its upper case, which can be longer;
      nothing that is not whitespace becomes whitespace. */
  lemma {:induction false} UppercaseShape(s: string)
    ensures |ToUppercase(s)| >= |s|
    ensures s == [] <==> ToUppercase(s) == []
    ensures NoWhitespace(s) ==> NoWhitespace(ToUppercase(s))
  {
    if s != [] {
      UppercaseShape(s[1..]);
      assert NoWhitespace(s) ==> NoWhitespace(s[1..]);
    }
  }

  lemma {:induction false} UppercaseAppend(a: string, b: string)
    ensures ToUppercase(a + b) == ToUppercase(a) + ToUppercase(b)
  {
    if a == [] {
      assert a + b == b;
    } else {
      var ab := a + b;
      assert ab[0] == a[0] && ab[1..] == a[1..] + b;
      UppercaseAppend(a[1..], b);
      assert ToUppercase(ab) == UpperChar(ab[0]) + ToUppercase(ab[1..]);
    }
  }

  /** Upper-case ASCII letters, digits and '/': the text of the keywords. */
  predicate UpperAscii(s: string) {
    forall i :: 0 <= i < |s| ==> ('A' <= s[i] <= 'Z' || '0' <= s[i] <= '9' || s[i] == '/')
  }

  lemma UpperCharOfUpperAscii(c: char)
    requires 'A' <= c <= 'Z' || '0' <= c <= '9' || c == '/'
    ensures UpperChar(c) == [c]
  {
  }

  /** Text already in upper case is its own upper case. */
  lemma {:induction false} UppercaseIdempotentOnUpper(s: string)
    requires UpperAscii(s)
    ensures ToUppercase(s) == s
  {
    if s != [] {
      UpperCharOfUpperAscii(s[0]);
      UppercaseIdempotentOnUpper(s[1..]);
    }
  }

  lemma UpperCharIdempotent(c: char)
    ensures ToUppercase(UpperChar(c)) == UpperChar(c)
  {
    var u := UpperChar(c);
    if u == [c] {
      assert ToUppercase(u) == UpperChar(c) + ToUppercase([]);
    } else {
      assert UpperAscii(u);
      UppercaseIdempotentOnUpper(u);
    }
  }

  /** Upper-casing twice is upper-casing once. */
  lemma {:induction false} UppercaseIdempotent(s: string)
    ensures ToUppercase(ToUppercase(s)) == ToUppercase(s)
  {
    if s != [] {
      UppercaseAppend(UpperChar(s[0]), ToUppercase(s[1..]));
      UpperCharIdempotent(s[0]);
      UppercaseIdempotent(s[1..]);
    }
  }

  lemma {:induction false} UppercaseTrimStart(s: string)
    ensures TrimStart(ToUppercase(s)) == ToUppercase(TrimStart(s))
  {
    if s != [] {
      var u := UpperChar(s[0]);
      if IsWhitespace(s[0]) {
        UppercaseTrimStart(s[1..]);
      } else {
        assert (u + ToUppercase(s[1..]))[0] == u[0];
      }
    }
  }

  lemma {:induction false} UppercaseTrimEnd(s: string)
    ensures TrimEnd(ToUppercase(s)) == ToUppercase(TrimEnd(s))
    decreases |s|
  {
    if s != [] {
      var n := |s| - 1;
      assert s == s[..n] + [s[n]];
      UppercaseAppend(s[..n], [s[n]]);
      assert ToUppercase([s[n]]) == UpperChar(s[n]) + ToUppercase([]);
      var u := ToUppercase(s);
      if IsWhitespace(s[n]) {
        assert u == ToUppercase(s[..n]) + [s[n]];
        assert u[..|u| - 1] == ToUppercase(s[..n]);
        UppercaseTrimEnd(s[..n]);
      } else {
        var v := UpperChar(s[n]);
        assert u[|u| - 1] == v[|v| - 1];
      }
    }
  }

  /** Trimming and upper-casing commute, because upper-casing maps whitespace
      to itself and everything else to non-whitespace. */
  lemma UppercaseTrim(s: string)
    ensures Trim(ToUppercase(s)) == ToUppercase(Trim(s))
  {
    UppercaseTrimStart(s);
    UppercaseTrimEnd(TrimStart(s));
  }

  lemma {:induction false} CountAppend(a: string, b: string, c: char)
    ensures Count(a + b, c) == Count(a, c) + Count(b, c)
  {
    if a == [] {
      assert a + b == b;
    } else {
      assert (a + b)[1..] == a[1..] + b;
      CountAppend(a[1..], b, c);
    }
  }

  lemma {:induction false} CountAbsent(s: string, c: char)
    ensures c !in s <==> Count(s, c) == 0
  {
    if s != [] {
      CountAbsent(s[1..], c);
      assert s == [s[0]] + s[1..];
    }
  }

  /** Index of the first occurrence of `c` in `s`. */
  function IndexOf(s: string, c: char): (i: nat)
    requires c in s
    ensures i < |s| && s[i] == c && c !in s[..i]
  {
    if s[0] == c then 0 else 1 + IndexOf(s[1..], c)
  }

  /** IndexOf is the only position of `c` with no earlier `c`. */
  lemma IndexOfUnique(s: string, c: char, k: nat)
    requires k < |s| && s[k] == c && c !in s[..k]
    ensures IndexOf(s, c) == k
  {
  }

  /** The first position at or after `from` that holds `c`, or |s| when none does. */
  function IndexFrom(s: string, c: char, from: nat): (k: nat)
    requires from <= |s|
    ensures from <= k <= |s| && (k < |s| ==> s[k] == c)
    ensures forall m :: from <= m < k ==> s[m] != c
    decreases |s| - from
  {
    if from == |s| then |s| else if s[from] == c then from else IndexFrom(s, c, from + 1)
  }

  /** `str::lines`: the text split at each "\n", with one "\r" removed from
      the end of a line that a "\n" terminates; a final "\n" does not start
      another line. */
  function Lines(text: string): (r: seq<string>)
    ensures forall k :: 0 <= k < |r| ==> '\n' !in r[k]
    decreases |text|
  {
    if text == [] then []
    else if '\n' !in text then [text]
    else
      var i := IndexOf(text, '\n');
      var line := text[..i];
      [if line != [] && line[|line| - 1] == '\r' then line[..|line| - 1] else line]
        + Lines(text[i + 1..])
  }

  predicate IsDigit(c: char) {
    '0' <= c <= '9'
  }

  predicate AllDigits(s: string) {
    forall i :: 0 <= i < |s| ==> IsDigit(s[i])
  }

  /** The value of a string of decimal digits. */
  function DecimalValue(s: string): nat
    requires AllDigits(s)
  {
    if s == [] then 0 else 10 * DecimalValue(s[..|s| - 1]) + (s[|s| - 1] as int - '0' as int)
  }

  /** `str::parse::<u8>()`: an optional '+' followed by at least one ASCII
      digit, with a value of at most 255 (leading zeros allowed). The kind of a
      `ParseIntError` (empty, invalid digit, overflow) is not kept. */
  function ParseU8(s: string): (r: Option<uint8>)
    ensures s != [] && AllDigits(s) ==> (r.Some? <==> DecimalValue(s) <= 255) && (r.Some? ==> r.value == DecimalValue(s))
    ensures |s| > 1 && s[0] == '+' && AllDigits(s[1..]) ==>
              (r.Some? <==> DecimalValue(s[1..]) <= 255) && (r.Some? ==> r.value == DecimalValue(s[1..]))
    ensures r.Some? ==> s != [] && forall i :: 0 <= i < |s| ==> IsDigit(s[i]) || (i == 0 && s[i] == '+')
  {
    var digits := if |s| > 1 && s[0] == '+' then s[1..] else s;
    if digits != [] && AllDigits(digits) && DecimalValue(digits) <= 255
    then Some(DecimalValue(digits))
    else None
  }
}

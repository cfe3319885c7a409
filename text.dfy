/**
 * The string operations of Python's `str` that the game logic relies on,
 * restricted to ASCII: `lower`, `upper`, the substring test `x in y`,
 * `' '.join(s.split())` and `int(s)`.
 */
module Text {
  import opened Options

  // ---------------------------------------------------------------------------
  // Case mapping
  // ---------------------------------------------------------------------------

  function LowerChar(c: char): char {
    if 'A' <= c <= 'Z' then (c as int + 32) as char else c
  }

  function UpperChar(c: char): char {
    if 'a' <= c <= 'z' then (c as int - 32) as char else c
  }

  /** `s.lower()` on ASCII; the Unicode case mapping is not modelled (see "## Left out" in README.md). */
  function Lower(s: string): (r: string)
    ensures |r| == |s|
    ensures forall i :: 0 <= i < |s| ==> r[i] == LowerChar(s[i])
  {
    seq(|s|, i requires 0 <= i < |s| => LowerChar(s[i]))
  }

  /** `s.upper()` on ASCII; the Unicode case mapping is not modelled (see "## Left out" in README.md). */
  function Upper(s: string): (r: string)
    ensures |r| == |s|
    ensures forall i :: 0 <= i < |s| ==> r[i] == UpperChar(s[i])
  {
    seq(|s|, i requires 0 <= i < |s| => UpperChar(s[i]))
  }

  /**
   * After `lower()` no capital letter is left, lowering again changes
   * nothing, and only capitals were changed.
   */
  lemma LowerFolds(s: string)
    ensures forall i :: 0 <= i < |s| ==> !('A' <= Lower(s)[i] <= 'Z')
    ensures Lower(Lower(s)) == Lower(s)
    ensures forall i :: 0 <= i < |s| && !('A' <= s[i] <= 'Z') ==> Lower(s)[i] == s[i]
  {
    assert forall i :: 0 <= i < |s| ==> Lower(Lower(s))[i] == Lower(s)[i];
  }

  /**
   * After `upper()` no small letter is left, and `upper()` then `lower()`
   * gives the same as `lower()` alone: the two differ only in case.
   */
  lemma UpperFolds(s: string)
    ensures forall i :: 0 <= i < |s| ==> !('a' <= Upper(s)[i] <= 'z')
    ensures Upper(Upper(s)) == Upper(s)
    ensures Lower(Upper(s)) == Lower(s)
    ensures Upper(Lower(s)) == Upper(s)
  {
    assert forall i :: 0 <= i < |s| ==> Upper(Upper(s))[i] == Upper(s)[i];
    assert forall i :: 0 <= i < |s| ==> Lower(Upper(s))[i] == Lower(s)[i];
    assert forall i :: 0 <= i < |s| ==> Upper(Lower(s))[i] == Upper(s)[i];
  }

  // ---------------------------------------------------------------------------
  // `needle in hay` on two strings is a substring test in Python
  // ---------------------------------------------------------------------------

  predicate IsSubstring(needle: string, hay: string)
    decreases |hay|
  {
    needle <= hay || (|hay| > 0 && IsSubstring(needle, hay[1..]))
  }

  /** A substring of either part is a substring of the concatenation. */
  lemma {:induction false} SubstringOfLeft(needle: string, h: string, t: string)
    requires IsSubstring(needle, h)
    ensures IsSubstring(needle, h + t)
    decreases |h|
  {
    if !(needle <= h) {
      SubstringOfLeft(needle, h[1..], t);
      assert (h + t)[1..] == h[1..] + t;
    }
  }

  lemma {:induction false} SubstringOfRight(needle: string, h: string, t: string)
    requires IsSubstring(needle, t)
    ensures IsSubstring(needle, h + t)
    decreases |h|
  {
    if |h| == 0 {
      assert h + t == t;
    } else {
      SubstringOfRight(needle, h[1..], t);
      assert (h + t)[1..] == h[1..] + t;
    }
  }

  /** On a one-character string the substring test is plain membership. */
  lemma {:induction false} SingleCharSubstring(c: char, hay: string)
    ensures IsSubstring([c], hay) <==> c in hay
    decreases |hay|
  {
    if |hay| > 0 {
      SingleCharSubstring(c, hay[1..]);
      assert hay == [hay[0]] + hay[1..];
    }
  }

  /** The empty string is a substring of everything, so `'' in 'abc'` holds. */
  lemma EmptySubstring(hay: string)
    ensures IsSubstring("", hay)
  {
  }

  /** The first `n` lower-case letters, in alphabetical order. */
  function Alphabet(n: nat): (r: string)
    requires n <= 26
    ensures |r| == n
    ensures forall i :: 0 <= i < n ==> r[i] as int == 'a' as int + i
  {
    if n == 0 then [] else Alphabet(n - 1) + [('a' as int + n - 1) as char]
  }

  /** `'abcdefghijklmnopqrstuvwxyz'` */
  const Letters: string := Alphabet(26)
  const Vowels := "aeiou"

  lemma LettersSpelled()
    ensures Letters == "abcdefghijklmnopqrstuvwxyz"
  {
  }

  /** The ASCII letters, upper or lower case. */
  predicate IsAsciiLetter(c: char) {
    'a' <= c <= 'z' || 'A' <= c <= 'Z'
  }

  lemma InLetters(c: char)
    ensures c in Letters <==> 'a' <= c <= 'z'
  {
    if 'a' <= c <= 'z' {
      assert Letters[c as int - 'a' as int] == c;
    }
  }

  lemma LowerOne(c: char)
    ensures Lower([c]) == [LowerChar(c)]
  {
  }

  /** `c.lower() in 'abcdefghijklmnopqrstuvwxyz'` holds exactly for the ASCII letters. */
  lemma LetterTest(c: char)
    ensures IsSubstring(Lower([c]), Letters) <==> IsAsciiLetter(c)
  {
    LowerOne(c);
    SingleCharSubstring(LowerChar(c), Letters);
    InLetters(LowerChar(c));
  }

  /** `c.lower() in 'aeiou'` holds exactly for the five vowels in either case. */
  lemma VowelTest(c: char)
    ensures IsSubstring(Lower([c]), Vowels) <==> LowerChar(c) in {'a', 'e', 'i', 'o', 'u'}
  {
    LowerOne(c);
    SingleCharSubstring(LowerChar(c), Vowels);
  }

  // ---------------------------------------------------------------------------
  // Whitespace: `' '.join(s.split())`
  // ---------------------------------------------------------------------------

  /** The ASCII characters `str.split()` treats as separators. */
  predicate IsSpace(c: char) {
    c == ' ' || 9 <= c as int <= 13 || 28 <= c as int <= 31
  }

  predicate NoSpace(s: string) {
    forall i :: 0 <= i < |s| ==> !IsSpace(s[i])
  }

  /** Length of the run of non-whitespace characters that starts `s`. */
  function WordLength(s: string): (n: nat)
    ensures n <= |s|
    ensures NoSpace(s[..n])
    ensures n < |s| ==> IsSpace(s[n])
  {
    if |s| == 0 || IsSpace(s[0]) then 0 else 1 + WordLength(s[1..])
  }

  /** `s.split()`: the maximal runs of non-whitespace characters, in order. */
  function Split(s: string): (ws: seq<string>)
    ensures forall k :: 0 <= k < |ws| ==> |ws[k]| > 0 && NoSpace(ws[k])
    decreases |s|
  {
    if |s| == 0 then []
    else if IsSpace(s[0]) then Split(s[1..])
    else
      var n := WordLength(s);
      [s[..n]] + Split(s[n..])
  }

  /** `' '.join(ws)` */
  function JoinSpace(ws: seq<string>): string {
    if |ws| == 0 then ""
    else if |ws| == 1 then ws[0]
    else ws[0] + " " + JoinSpace(ws[1..])
  }

  /** `' '.join(s.split())`: whitespace runs collapsed to one space, ends trimmed. */
  function Collapse(s: string): string {
    JoinSpace(Split(s))
  }

  /** The characters of `s` that are not whitespace, in order. */
  function NonSpace(s: string): string {
    if |s| == 0 then ""
    else if IsSpace(s[0]) then NonSpace(s[1..])
    else [s[0]] + NonSpace(s[1..])
  }

  /** Single spaces between non-space characters, nothing at the ends. */
  predicate SingleSpaced(r: string) {
    && (|r| > 0 ==> !IsSpace(r[0]) && !IsSpace(r[|r| - 1]))
    && forall i :: 0 <= i < |r| && IsSpace(r[i]) ==>
         r[i] == ' ' && 0 < i < |r| - 1 && !IsSpace(r[i + 1])
  }

  lemma {:induction false} NonSpaceAppend(s: string, t: string)
    ensures NonSpace(s + t) == NonSpace(s) + NonSpace(t)
    decreases |s|
  {
    if |s| > 0 {
      assert (s + t)[1..] == s[1..] + t;
      NonSpaceAppend(s[1..], t);
    } else {
      assert s + t == t;
    }
  }

  lemma {:induction false} NonSpaceOfWord(w: string)
    requires NoSpace(w)
    ensures NonSpace(w) == w
    decreases |w|
  {
    if |w| > 0 {
      NonSpaceOfWord(w[1..]);
      assert w == [w[0]] + w[1..];
    }
  }

  /** The concatenation of the words. */
  function Concat(ws: seq<string>): string {
    if |ws| == 0 then "" else ws[0] + Concat(ws[1..])
  }

  /** Splitting keeps every non-space character, in order, and nothing else. */
  lemma {:induction false} SplitKeepsText(s: string)
    ensures Concat(Split(s)) == NonSpace(s)
    decreases |s|
  {
    if |s| == 0 {
    } else if IsSpace(s[0]) {
      SplitKeepsText(s[1..]);
    } else {
      var n := WordLength(s);
      SplitKeepsText(s[n..]);
      assert s == s[..n] + s[n..];
      NonSpaceAppend(s[..n], s[n..]);
      NonSpaceOfWord(s[..n]);
      assert Split(s) == [s[..n]] + Split(s[n..]);
      assert Split(s)[1..] == Split(s[n..]);
    }
  }

  lemma {:induction false} JoinKeepsText(ws: seq<string>)
    requires forall k :: 0 <= k < |ws| ==> NoSpace(ws[k])
    ensures NonSpace(JoinSpace(ws)) == Concat(ws)
    decreases |ws|
  {
    if |ws| == 1 {
      NonSpaceOfWord(ws[0]);
      assert Concat(ws) == ws[0] + Concat(ws[1..]);
    } else if |ws| > 1 {
      var rest := JoinSpace(ws[1..]);
      JoinKeepsText(ws[1..]);
      NonSpaceOfWord(ws[0]);
      assert JoinSpace(ws) == ws[0] + (" " + rest);
      NonSpaceAppend(ws[0], " " + rest);
      NonSpaceAppend(" ", rest);
      assert NonSpace(" ") == "";
      assert Concat(ws) == ws[0] + Concat(ws[1..]);
    }
  }

  lemma {:induction false} JoinSingleSpaced(ws: seq<string>)
    requires forall k :: 0 <= k < |ws| ==> |ws[k]| > 0 && NoSpace(ws[k])
    ensures SingleSpaced(JoinSpace(ws))
    ensures |ws| > 0 ==> |JoinSpace(ws)| > 0
    decreases |ws|
  {
    if |ws| > 1 {
      JoinSingleSpaced(ws[1..]);
      var w, rest := ws[0], JoinSpace(ws[1..]);
      var r := w + " " + rest;
      assert JoinSpace(ws) == r;
      forall i | 0 <= i < |r| && IsSpace(r[i])
        ensures r[i] == ' ' && 0 < i < |r| - 1 && !IsSpace(r[i + 1])
      {
        if i < |w| {
          assert false;
        } else if i > |w| {
          assert r[i] == rest[i - |w| - 1];
          assert r[i + 1] == rest[i - |w|];
        } else {
          assert r[i + 1] == rest[0];
        }
      }
      assert r[0] == w[0];
      assert r[|r| - 1] == rest[|rest| - 1];
    }
  }

  /**
   * What `' '.join(s.split())` promises: the same non-space characters in the
   * same order, separated by single spaces, with nothing at either end.
   */
  lemma CollapseShape(s: string)
    ensures NonSpace(Collapse(s)) == NonSpace(s)
    ensures SingleSpaced(Collapse(s))
  {
    SplitKeepsText(s);
    JoinKeepsText(Split(s));
    JoinSingleSpaced(Split(s));
  }

  lemma {:induction false} WordLengthOfWord(w: string, t: string)
    requires NoSpace(w)
    requires |t| == 0 || IsSpace(t[0])
    ensures WordLength(w + t) == |w|
    decreases |w|
  {
    if |w| > 0 {
      assert (w + t)[1..] == w[1..] + t;
      WordLengthOfWord(w[1..], t);
    } else {
      assert w + t == t;
    }
  }

  /** Splitting a single-spaced join gives the words back. */
  lemma {:induction false} SplitJoin(ws: seq<string>)
    requires forall k :: 0 <= k < |ws| ==> |ws[k]| > 0 && NoSpace(ws[k])
    ensures Split(JoinSpace(ws)) == ws
    decreases |ws|
  {
    if |ws| == 1 {
      WordLengthOfWord(ws[0], "");
      assert ws[0] + "" == ws[0];
      assert ws[0][|ws[0]|..] == "";
    } else if |ws| > 1 {
      var w, rest := ws[0], JoinSpace(ws[1..]);
      var r := w + " " + rest;
      assert r == w + (" " + rest);
      WordLengthOfWord(w, " " + rest);
      assert r[..|w|] == w;
      assert r[|w|..] == " " + rest;
      assert (" " + rest)[1..] == rest;
      SplitJoin(ws[1..]);
    }
  }

  /** Collapsing twice is collapsing once. */
  lemma CollapseIdempotent(s: string)
    ensures Collapse(Collapse(s)) == Collapse(s)
  {
    SplitJoin(Split(s));
  }

  // ---------------------------------------------------------------------------
  // Decimal integers: `int(s)` and `str(n)`
  // ---------------------------------------------------------------------------

  predicate IsDigit(c: char) {
    '0' <= c <= '9'
  }

  function DigitChar(d: nat): char
    requires d < 10
  {
    ('0' as int + d) as char
  }

  /** `str(n)` for a natural number. */
  function Decimal(n: nat): (s: string)
    ensures |s| > 0 && forall i :: 0 <= i < |s| ==> IsDigit(s[i])
  {
    if n < 10 then [DigitChar(n)] else Decimal(n / 10) + [DigitChar(n % 10)]
  }

  /** `str(n)` for any integer. */
  function Show(n: int): string {
    if n < 0 then "-" + Decimal(-n) else Decimal(n)
  }

  /** The value of a non-empty string of decimal digits. */
  function DigitsValue(s: string): nat
    requires |s| > 0 && forall i :: 0 <= i < |s| ==> IsDigit(s[i])
  {
    assert IsDigit(s[|s| - 1]);
    var d := s[|s| - 1] as int - '0' as int;
    if |s| == 1 then d else 10 * DigitsValue(s[..|s| - 1]) + d
  }

  /**
   * `s.strip()` on ASCII whitespace: the slice of `s` that starts after its
   * leading whitespace, with only whitespace after it, and that neither
   * starts nor ends with whitespace.
   */
  function Strip(s: string): (r: string)
    ensures StrippedAt(s, LeadingSpace(s), r)
    ensures |r| > 0 ==> !IsSpace(r[0]) && !IsSpace(r[|r| - 1])
    decreases |s|
  {
    if |s| > 0 && IsSpace(s[0]) then
      var r := Strip(s[1..]);
      StripFront(s, s[1..], r);
      r
    else if |s| > 0 && IsSpace(s[|s| - 1]) then
      var r := Strip(s[..|s| - 1]);
      StripBack(s, s[..|s| - 1], r);
      r
    else
      assert s[0..|s|] == s;
      s
  }

  /** The number of whitespace characters `s` starts with. */
  function LeadingSpace(s: string): (n: nat)
    ensures n <= |s|
  {
    if |s| > 0 && IsSpace(s[0]) then 1 + LeadingSpace(s[1..]) else 0
  }

  /** Leading whitespace joins the stripped part of the rest. */
  lemma StripFront(s: string, rest: string, r: string)
    requires |s| > 0 && IsSpace(s[0]) && rest == s[1..]
    requires StrippedAt(rest, LeadingSpace(rest), r)
    ensures StrippedAt(s, LeadingSpace(s), r)
  {
    var i := LeadingSpace(rest);
    assert s[i + 1..i + 1 + |r|] == rest[i..i + |r|];
  }

  /** Trailing whitespace joins the stripped part of the rest, when `s` does not start with whitespace. */
  lemma StripBack(s: string, rest: string, r: string)
    requires |s| > 0 && !IsSpace(s[0]) && IsSpace(s[|s| - 1]) && rest == s[..|s| - 1]
    requires StrippedAt(rest, LeadingSpace(rest), r)
    ensures StrippedAt(s, LeadingSpace(s), r)
  {
    assert |rest| > 0 && rest[0] == s[0];
    assert rest[0..|r|] == s[0..|r|];
  }

  /** `r` is `s[i..i + |r|]`, and everything of `s` around it is whitespace. */
  predicate StrippedAt(s: string, i: int, r: string) {
    && 0 <= i <= i + |r| <= |s|
    && r == s[i..i + |r|]
    && (forall k :: 0 <= k < i ==> IsSpace(s[k]))
    && (forall k :: i + |r| <= k < |s| ==> IsSpace(s[k]))
  }

  predicate AllDigits(s: string) {
    |s| > 0 && forall i :: 0 <= i < |s| ==> IsDigit(s[i])
  }

  /**
   * `int(s)`: surrounding whitespace, an optional sign, then decimal digits;
   * `None` where Python raises `ValueError`.
   */
  function ParseInt(s: string): (r: Option<int>)
    ensures r.None? <==>
      var t := Strip(s);
      !AllDigits(t) && !(|t| > 0 && t[0] in "+-" && AllDigits(t[1..]))
  {
    var t := Strip(s);
    if AllDigits(t) then Some(DigitsValue(t))
    else if |t| > 0 && t[0] == '-' && AllDigits(t[1..]) then Some(0 - DigitsValue(t[1..]) as int)
    else if |t| > 0 && t[0] == '+' && AllDigits(t[1..]) then Some(DigitsValue(t[1..]))
    else None
  }

  lemma {:induction false} DecimalValue(n: nat)
    ensures DigitsValue(Decimal(n)) == n
    decreases n
  {
    if n >= 10 {
      DecimalValue(n / 10);
      var s := Decimal(n);
      assert s[..|s| - 1] == Decimal(n / 10);
    }
  }

  lemma StripNoSpace(s: string)
    requires |s| > 0 && !IsSpace(s[0]) && !IsSpace(s[|s| - 1])
    ensures Strip(s) == s
  {
  }

  /** `int(str(n)) == n` for a natural number. */
  lemma ParseDecimal(n: nat)
    ensures ParseInt(Decimal(n)) == Some(n)
  {
    var s := Decimal(n);
    DecimalValue(n);
    StripNoSpace(s);
    assert AllDigits(s);
  }

  /** `int('-' + str(n)) == -n` */
  lemma ParseNegative(n: nat)
    ensures ParseInt("-" + Decimal(n)) == Some(0 - n)
  {
    var d := Decimal(n);
    var s := "-" + d;
    DecimalValue(n);
    assert s[0] == '-' && s[|s| - 1] == d[|d| - 1];
    StripNoSpace(s);
    assert s[1..] == d;
    assert AllDigits(d);
    assert !AllDigits(s) by { assert !IsDigit(s[0]); }
  }

  /** `int(str(n)) == n` */
  lemma ParseShow(n: int)
    ensures ParseInt(Show(n)) == Some(n)
  {
    if n < 0 {
      ParseNegative(-n);
    } else {
      ParseDecimal(n);
    }
  }
}

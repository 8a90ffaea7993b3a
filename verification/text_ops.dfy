/** The string operations the text-processing action relies on: JavaScript's
    whitespace class, `trim`, `split(/\s+/)`, the word count built from them,
    ASCII case mapping, decimal rendering of counts and the UTF-16 `length`. */
module TextOps {

  // ---------------------------------------------------------------------------
  // Whitespace
  // ---------------------------------------------------------------------------

  /** The code points of ECMAScript's WhiteSpace and LineTerminator productions:
      exactly what the regular-expression class `\s` matches and what `trim`
      removes. */
  predicate IsWhitespace(c: char)
  {
    var n := c as int;
    n == 0x09 || n == 0x0A || n == 0x0B || n == 0x0C || n == 0x0D || n == 0x20
    || n == 0xA0 || n == 0x1680 || (0x2000 <= n <= 0x200A) || n == 0x2028
    || n == 0x2029 || n == 0x202F || n == 0x205F || n == 0x3000 || n == 0xFEFF
  }

  /** On ASCII the class is the six control and space characters. */
  lemma AsciiWhitespace(c: char)
    requires c as int < 0x80
    ensures IsWhitespace(c) <==>
      c == ' ' || c == '\t' || c == '\n' || c == '\r' || c as int == 0x0B || c as int == 0x0C
  {
  }

  predicate AllWhitespace(s: string)
  {
    forall i :: 0 <= i < |s| ==> IsWhitespace(s[i])
  }

  predicate NoWhitespace(s: string)
  {
    forall i :: 0 <= i < |s| ==> !IsWhitespace(s[i])
  }

  /** `trimStart`: removes the maximal leading whitespace run. */
  function TrimStart(s: string): (r: string)
    ensures |r| <= |s| && r == s[|s| - |r|..]
    ensures AllWhitespace(s[..|s| - |r|])
    ensures r == [] || !IsWhitespace(r[0])
  {
    if s != [] && IsWhitespace(s[0]) then TrimStart(s[1..]) else s
  }

  /** `trimEnd`: removes the maximal trailing whitespace run. */
  function TrimEnd(s: string): (r: string)
    ensures |r| <= |s| && r == s[..|r|]
    ensures AllWhitespace(s[|r|..])
    ensures r == [] || !IsWhitespace(r[|r| - 1])
  {
    if s != [] && IsWhitespace(s[|s| - 1]) then TrimEnd(s[..|s| - 1]) else s
  }

  /** `trim`: removes whitespace at both ends. */
  function Trim(s: string): (r: string)
    ensures |r| <= |s|
    ensures exists i, j :: 0 <= i <= j <= |s| && r == s[i..j] && AllWhitespace(s[..i]) && AllWhitespace(s[j..])
    ensures r == [] || (!IsWhitespace(r[0]) && !IsWhitespace(r[|r| - 1]))
  {
    TrimmedSlice(s, TrimStart(s), TrimEnd(TrimStart(s)));
    TrimEnd(TrimStart(s))
  }

  /** Removing a whitespace prefix and then a whitespace suffix leaves a
      slice of `s` with whitespace on either side. */
  lemma TrimmedSlice(s: string, t: string, r: string)
    requires |t| <= |s| && t == s[|s| - |t|..] && AllWhitespace(s[..|s| - |t|])
    requires |r| <= |t| && r == t[..|r|] && AllWhitespace(t[|r|..])
    ensures var i := |s| - |t|;
      r == s[i..i + |r|] && AllWhitespace(s[..i]) && AllWhitespace(s[i + |r|..])
  {
    SuffixPrefix(s, t, r);
  }

  /** A prefix `r` of a suffix `t` of `s` is a slice of `s`, and what follows
      `r` in `t` is what follows that slice in `s`. */
  lemma SuffixPrefix(s: string, t: string, r: string)
    requires |t| <= |s| && t == s[|s| - |t|..]
    requires |r| <= |t| && r == t[..|r|]
    ensures var i := |s| - |t|; r == s[i..i + |r|] && t[|r|..] == s[i + |r|..]
  {
  }

  // ---------------------------------------------------------------------------
  // split(/\s+/) and the word count
  // ---------------------------------------------------------------------------

  /** `s.split(/\s+/)`: the pieces between maximal whitespace runs. A leading
      run yields an empty first piece, a trailing run an empty last piece, and
      the empty string splits into one empty piece. */
  function SplitWhitespace(s: string): (r: seq<string>)
    ensures |r| >= 1
    ensures r[0] == [] <==> (s == [] || IsWhitespace(s[0]))
    ensures forall k :: 0 <= k < |r| ==> NoWhitespace(r[k])
    decreases |s|
  {
    if s == [] then [[]]
    else if IsWhitespace(s[0]) then
      var t := TrimStart(s);
      assert |t| < |s|;
      [[]] + SplitWhitespace(t)
    else
      var rest := SplitWhitespace(s[1..]);
      [[s[0]] + rest[0]] + rest[1..]
  }

  /** `filter(word => word.length > 0)`. */
  function NonEmpty(ts: seq<string>): (r: seq<string>)
    ensures |r| <= |ts|
    ensures forall k :: 0 <= k < |r| ==> r[k] != []
    ensures forall t :: t in r <==> (t in ts && t != [])
    ensures multiset(r) == multiset(ts)[[] := 0]
  {
    if ts == [] then []
    else
      assert ts == [ts[0]] + ts[1..];
      (if ts[0] != [] then [ts[0]] else []) + NonEmpty(ts[1..])
  }

  /** Filtering a concatenation filters each part in place, so the kept
      pieces stay in their order. */
  lemma {:induction false} NonEmptyAppend(a: seq<string>, b: seq<string>)
    ensures NonEmpty(a + b) == NonEmpty(a) + NonEmpty(b)
  {
    if a != [] {
      assert (a + b)[0] == a[0] && (a + b)[1..] == a[1..] + b;
      NonEmptyAppend(a[1..], b);
      var h := if a[0] != [] then [a[0]] else [];
      assert NonEmpty(a + b) == h + (NonEmpty(a[1..]) + NonEmpty(b));
      assert NonEmpty(a) == h + NonEmpty(a[1..]);
    } else {
      assert a + b == b;
    }
  }

  /** The words the action counts: `text.trim().split(/\s+/).filter(...)`. */
  function Words(s: string): seq<string>
  {
    NonEmpty(SplitWhitespace(Trim(s)))
  }

  function WordCount(s: string): nat
  {
    |Words(s)|
  }

  /** Position `i` starts a maximal non-whitespace run of `s`. */
  predicate RunStart(s: string, i: nat)
    requires i < |s|
  {
    !IsWhitespace(s[i]) && (i == 0 || IsWhitespace(s[i - 1]))
  }

  /** The number of run starts at positions `i` and later. */
  function RunStartsFrom(s: string, i: nat): nat
    requires i <= |s|
    decreases |s| - i
  {
    if i == |s| then 0
    else (if RunStart(s, i) then 1 else 0) + RunStartsFrom(s, i + 1)
  }

  /** The number of maximal non-whitespace runs of `s`: the reference
      definition of a word count. */
  function MaximalRuns(s: string): nat
  {
    RunStartsFrom(s, 0)
  }

  /** Runs that begin in `s`, given whether the character just before `s`
      belonged to a run: a left-to-right scanner over suffixes. */
  function RunsAfter(s: string, inRun: bool): nat
  {
    if s == [] then 0
    else if IsWhitespace(s[0]) then RunsAfter(s[1..], false)
    else (if inRun then 0 else 1) + RunsAfter(s[1..], true)
  }

  lemma {:induction false} RunsAfterMatchesRunStarts(s: string, i: nat)
    requires i <= |s|
    ensures RunsAfter(s[i..], i > 0 && !IsWhitespace(s[i - 1])) == RunStartsFrom(s, i)
    decreases |s| - i
  {
    if i < |s| {
      assert s[i..][0] == s[i];
      assert s[i..][1..] == s[i + 1..];
      RunsAfterMatchesRunStarts(s, i + 1);
    }
  }

  /** Entering `s` inside a run only hides the run `s` may start with. */
  lemma RunsAfterInRun(s: string)
    ensures RunsAfter(s, false) == RunsAfter(s, true) + (if s != [] && !IsWhitespace(s[0]) then 1 else 0)
  {
  }

  lemma {:induction false} RunsAfterAllWhitespace(w: string, inRun: bool)
    requires AllWhitespace(w)
    ensures RunsAfter(w, inRun) == 0
  {
    if w != [] {
      RunsAfterAllWhitespace(w[1..], false);
    }
  }

  lemma {:induction false} RunsAfterTrailingWhitespace(a: string, w: string, inRun: bool)
    requires AllWhitespace(w)
    ensures RunsAfter(a + w, inRun) == RunsAfter(a, inRun)
    decreases |a|
  {
    if a == [] {
      assert a + w == w;
      RunsAfterAllWhitespace(w, inRun);
    } else {
      assert (a + w)[0] == a[0];
      assert (a + w)[1..] == a[1..] + w;
      RunsAfterTrailingWhitespace(a[1..], w, !IsWhitespace(a[0]));
    }
  }

  lemma {:induction false} RunsAfterTrimStart(s: string)
    ensures RunsAfter(TrimStart(s), false) == RunsAfter(s, false)
  {
    if s != [] && IsWhitespace(s[0]) {
      RunsAfterTrimStart(s[1..]);
    }
  }

  lemma RunsAfterTrimEnd(s: string, inRun: bool)
    ensures RunsAfter(TrimEnd(s), inRun) == RunsAfter(s, inRun)
  {
    var t := TrimEnd(s);
    assert s == t + s[|t|..];
    RunsAfterTrailingWhitespace(t, s[|t|..], inRun);
  }

  lemma {:induction false} NonEmptyCons(t: string, ts: seq<string>)
    ensures |NonEmpty([t] + ts)| == (if t != [] then 1 else 0) + |NonEmpty(ts)|
  {
    assert ([t] + ts)[1..] == ts;
  }

  /** Splitting on whitespace and dropping the empty pieces leaves one piece
      per maximal run. */
  lemma {:induction false} SplitCountsRuns(s: string)
    ensures |NonEmpty(SplitWhitespace(s))| == RunsAfter(s, false)
    decreases |s|
  {
    if s == [] {
    } else if IsWhitespace(s[0]) {
      var t := TrimStart(s);
      assert |t| < |s|;
      NonEmptyCons([], SplitWhitespace(t));
      SplitCountsRuns(t);
      RunsAfterTrimStart(s);
    } else {
      var rest := SplitWhitespace(s[1..]);
      NonEmptyCons([s[0]] + rest[0], rest[1..]);
      assert rest == [rest[0]] + rest[1..];
      NonEmptyCons(rest[0], rest[1..]);
      SplitCountsRuns(s[1..]);
      RunsAfterInRun(s[1..]);
    }
  }

  lemma WordCountIsRunsAfter(s: string)
    ensures WordCount(s) == RunsAfter(s, false)
  {
    SplitCountsRuns(Trim(s));
    RunsAfterTrimEnd(TrimStart(s), false);
    RunsAfterTrimStart(s);
  }

  /** The JavaScript word-count chain counts exactly the maximal
      non-whitespace runs of the text. */
  lemma WordCountIsMaximalRuns(s: string)
    ensures WordCount(s) == MaximalRuns(s)
  {
    WordCountIsRunsAfter(s);
    assert s[0..] == s;
    RunsAfterMatchesRunStarts(s, 0);
  }

  lemma {:induction false} RunsAfterSeparated(a: string, c: char, b: string, inRun: bool)
    requires IsWhitespace(c)
    ensures RunsAfter(a + [c] + b, inRun) == RunsAfter(a, inRun) + RunsAfter(b, false)
    decreases |a|
  {
    if a == [] {
      assert a + [c] + b == [c] + b;
      assert ([c] + b)[1..] == b;
    } else {
      assert (a + [c] + b)[0] == a[0];
      assert (a + [c] + b)[1..] == a[1..] + [c] + b;
      RunsAfterSeparated(a[1..], c, b, !IsWhitespace(a[0]));
    }
  }

  lemma {:induction false} RunsAfterInsideWord(w: string)
    requires NoWhitespace(w)
    ensures RunsAfter(w, true) == 0
  {
    if w != [] {
      RunsAfterInsideWord(w[1..]);
    }
  }

  /** A whitespace character separates the words on its two sides. */
  lemma WordCountSeparated(a: string, c: char, b: string)
    requires IsWhitespace(c)
    ensures WordCount(a + [c] + b) == WordCount(a) + WordCount(b)
  {
    WordCountIsRunsAfter(a + [c] + b);
    WordCountIsRunsAfter(a);
    WordCountIsRunsAfter(b);
    RunsAfterSeparated(a, c, b, false);
  }

  /** A non-empty text without whitespace is one word. */
  lemma WordCountSingleWord(w: string)
    requires w != [] && NoWhitespace(w)
    ensures WordCount(w) == 1
  {
    WordCountIsRunsAfter(w);
    RunsAfterInsideWord(w[1..]);
  }

  /** A word: non-empty and free of whitespace. */
  predicate IsWord(w: string)
  {
    w != [] && NoWhitespace(w)
  }

  /** The words joined by single spaces. */
  function JoinWords(ws: seq<string>): string
  {
    if |ws| == 0 then [] else if |ws| == 1 then ws[0] else ws[0] + [' '] + JoinWords(ws[1..])
  }

  lemma {:induction false} JoinWordsEnds(ws: seq<string>)
    requires |ws| > 0 && forall k :: 0 <= k < |ws| ==> IsWord(ws[k])
    ensures var j := JoinWords(ws); j != [] && !IsWhitespace(j[0]) && !IsWhitespace(j[|j| - 1])
  {
    if |ws| > 1 {
      JoinWordsEnds(ws[1..]);
      var j := JoinWords(ws);
      assert j[0] == ws[0][0];
      assert j[|j| - 1] == JoinWords(ws[1..])[|JoinWords(ws[1..])| - 1];
    }
  }

  lemma {:induction false} SplitOneWord(w: string)
    requires NoWhitespace(w)
    ensures SplitWhitespace(w) == [w]
  {
    if w != [] {
      SplitOneWord(w[1..]);
      assert [w[0]] + w[1..] == w;
    }
  }

  /** A whitespace run followed by a non-whitespace character (or the end) is
      skipped whole by `trimStart`. */
  lemma {:induction false} TrimStartSkipsRun(sep: string, t: string)
    requires AllWhitespace(sep) && (t == [] || !IsWhitespace(t[0]))
    ensures TrimStart(sep + t) == t
  {
    if sep != [] {
      assert (sep + t)[1..] == sep[1..] + t;
      TrimStartSkipsRun(sep[1..], t);
    }
  }

  /** A whitespace-free piece, then a maximal whitespace run, splits off as
      the first piece; with `w == []` this is the empty piece a leading run
      yields. Together with `SplitOneWord` this determines `SplitWhitespace`
      on every input. */
  lemma {:induction false} SplitWordThenSeparator(w: string, sep: string, t: string)
    requires NoWhitespace(w) && sep != [] && AllWhitespace(sep)
    requires t == [] || !IsWhitespace(t[0])
    ensures SplitWhitespace(w + sep + t) == [w] + SplitWhitespace(t)
    decreases |w|
  {
    if w == [] {
      assert w + sep + t == sep + t;
      TrimStartSkipsRun(sep, t);
    } else {
      var s := w + sep + t;
      assert s[0] == w[0];
      assert s[1..] == w[1..] + sep + t;
      SplitWordThenSeparator(w[1..], sep, t);
      assert [w[0]] + w[1..] == w;
    }
  }

  lemma {:induction false} NonEmptyKeepsWords(ws: seq<string>)
    requires forall k :: 0 <= k < |ws| ==> ws[k] != []
    ensures NonEmpty(ws) == ws
  {
    if ws != [] {
      NonEmptyKeepsWords(ws[1..]);
    }
  }

  lemma {:induction false} SplitJoinWords(ws: seq<string>)
    requires |ws| > 0 && forall k :: 0 <= k < |ws| ==> IsWord(ws[k])
    ensures SplitWhitespace(JoinWords(ws)) == ws
  {
    if |ws| == 1 {
      SplitOneWord(ws[0]);
    } else {
      JoinWordsEnds(ws[1..]);
      SplitWordThenSeparator(ws[0], [' '], JoinWords(ws[1..]));
      SplitJoinWords(ws[1..]);
    }
  }

  /** Splitting words joined by single spaces gives the words back. */
  lemma WordsOfJoinWords(ws: seq<string>)
    requires forall k :: 0 <= k < |ws| ==> IsWord(ws[k])
    ensures Words(JoinWords(ws)) == ws
    ensures WordCount(JoinWords(ws)) == |ws|
  {
    if ws != [] {
      JoinWordsEnds(ws);
      SplitJoinWords(ws);
      NonEmptyKeepsWords(ws);
    }
  }

  lemma JoinFourWords(a: string, b: string, c: string, d: string)
    ensures JoinWords([a, b, c, d]) == a + [' '] + b + [' '] + c + [' '] + d
  {
    assert [c, d][1..] == [d];
    assert JoinWords([c, d]) == c + [' '] + d;
    assert [b, c, d][1..] == [c, d];
    assert JoinWords([b, c, d]) == b + [' '] + (c + [' '] + d);
    assert [a, b, c, d][1..] == [b, c, d];
    assert JoinWords([a, b, c, d]) == a + [' '] + (b + [' '] + (c + [' '] + d));
  }

  lemma WordCountFourWords(a: string, b: string, c: string, d: string)
    requires IsWord(a) && IsWord(b) && IsWord(c) && IsWord(d)
    ensures WordCount(a + [' '] + b + [' '] + c + [' '] + d) == 4
  {
    var ws := [a, b, c, d];
    assert forall k :: 0 <= k < |ws| ==> IsWord(ws[k]) by {
      assert ws[0] == a && ws[1] == b && ws[2] == c && ws[3] == d;
    }
    JoinFourWords(a, b, c, d);
    WordsOfJoinWords(ws);
  }

  lemma {:induction false} RunsAfterZero(s: string)
    ensures RunsAfter(s, false) == 0 <==> AllWhitespace(s)
  {
    if s != [] {
      RunsAfterZero(s[1..]);
      assert forall i :: 1 <= i < |s| ==> s[i] == s[1..][i - 1];
    }
  }

  /** A text has no words exactly when it is all whitespace (the empty text
      included). */
  lemma NoWordsIffAllWhitespace(s: string)
    ensures WordCount(s) == 0 <==> AllWhitespace(s)
  {
    WordCountIsRunsAfter(s);
    RunsAfterZero(s);
  }

  // ---------------------------------------------------------------------------
  // Case conversion (ASCII letters)
  // ---------------------------------------------------------------------------

  predicate IsAsciiLower(c: char) { 'a' <= c <= 'z' }

  predicate IsAsciiUpper(c: char) { 'A' <= c <= 'Z' }

  function UpperChar(c: char): char
  {
    if IsAsciiLower(c) then (c as int - 32) as char else c
  }

  function LowerChar(c: char): char
  {
    if IsAsciiUpper(c) then (c as int + 32) as char else c
  }

  /** `toUpperCase`, restricted to ASCII letters. */
  function ToUpperCase(s: string): (r: string)
    ensures |r| == |s|
    ensures forall i :: 0 <= i < |s| ==> r[i] == UpperChar(s[i])
  {
    if s == [] then [] else [UpperChar(s[0])] + ToUpperCase(s[1..])
  }

  /** `toLowerCase`, restricted to ASCII letters. */
  function ToLowerCase(s: string): (r: string)
    ensures |r| == |s|
    ensures forall i :: 0 <= i < |s| ==> r[i] == LowerChar(s[i])
  {
    if s == [] then [] else [LowerChar(s[0])] + ToLowerCase(s[1..])
  }

  lemma UpperCaseHasNoLower(s: string)
    ensures forall i :: 0 <= i < |s| ==> !IsAsciiLower(ToUpperCase(s)[i])
  {
  }

  lemma UpperCaseIdempotent(s: string)
    ensures ToUpperCase(ToUpperCase(s)) == ToUpperCase(s)
  {
  }

  lemma LowerCaseIdempotent(s: string)
    ensures ToLowerCase(ToLowerCase(s)) == ToLowerCase(s)
  {
  }

  /** Upper-casing forgets a preceding lower-casing, and vice versa. */
  lemma CaseConversionAbsorbs(s: string)
    ensures ToUpperCase(ToLowerCase(s)) == ToUpperCase(s)
    ensures ToLowerCase(ToUpperCase(s)) == ToLowerCase(s)
  {
  }

  // ---------------------------------------------------------------------------
  // Decimal rendering of counts (template literal `${n}`)
  // ---------------------------------------------------------------------------

  predicate IsDigit(c: char) { '0' <= c <= '9' }

  function DigitChar(d: nat): (c: char)
    requires d < 10
    ensures IsDigit(c) && DigitValue(c) == d
  {
    ('0' as int + d) as char
  }

  function DigitValue(c: char): nat
    requires IsDigit(c)
  {
    c as int - '0' as int
  }

  /** Decimal digits, most significant first, without leading zeros. */
  function NatToString(n: nat): (r: string)
    ensures |r| >= 1
    ensures forall i :: 0 <= i < |r| ==> IsDigit(r[i])
    ensures r[0] == '0' <==> n == 0
    ensures r[0] == '0' ==> |r| == 1
  {
    if n < 10 then [DigitChar(n)] else NatToString(n / 10) + [DigitChar(n % 10)]
  }

  /** The value of a string of decimal digits. */
  function ParseDecimal(s: string): nat
    requires forall i :: 0 <= i < |s| ==> IsDigit(s[i])
  {
    if s == [] then 0 else 10 * ParseDecimal(s[..|s| - 1]) + DigitValue(s[|s| - 1])
  }

  lemma {:induction false} NatToStringRoundTrip(n: nat)
    ensures ParseDecimal(NatToString(n)) == n
  {
    if n >= 10 {
      var r := NatToString(n);
      assert r[..|r| - 1] == NatToString(n / 10);
      NatToStringRoundTrip(n / 10);
    }
  }

  lemma NatToStringInjective(m: nat, n: nat)
    ensures NatToString(m) == NatToString(n) ==> m == n
  {
    NatToStringRoundTrip(m);
    NatToStringRoundTrip(n);
  }

  // ---------------------------------------------------------------------------
  // String length in UTF-16 code units (`.length`)
  // ---------------------------------------------------------------------------

  /** Code points above U+FFFF take a surrogate pair. */
  predicate IsAstral(c: char) { c as int > 0xFFFF }

  function Utf16Length(s: string): nat
  {
    if s == [] then 0 else (if IsAstral(s[0]) then 2 else 1) + Utf16Length(s[1..])
  }

  lemma {:induction false} Utf16LengthBounds(s: string)
    ensures |s| <= Utf16Length(s) <= 2 * |s|
    ensures Utf16Length(s) == |s| <==> forall i :: 0 <= i < |s| ==> !IsAstral(s[i])
  {
    if s != [] {
      Utf16LengthBounds(s[1..]);
      assert forall i :: 1 <= i < |s| ==> s[i] == s[1..][i - 1];
    }
  }

  lemma {:induction false} Utf16LengthSnoc(s: string, c: char)
    ensures Utf16Length(s + [c]) == Utf16Length(s) + (if IsAstral(c) then 2 else 1)
  {
    if s != [] {
      assert (s + [c])[1..] == s[1..] + [c];
      Utf16LengthSnoc(s[1..], c);
    }
  }

  /** The positions holding code points above U+FFFF. */
  function AstralPositions(s: string): set<int>
  {
    set i | 0 <= i < |s| && IsAstral(s[i])
  }

  /** `.length` is the number of code points plus one for each code point
      that needs a surrogate pair. */
  lemma {:induction false} Utf16LengthExact(s: string)
    ensures Utf16Length(s) == |s| + |AstralPositions(s)|
  {
    if s != [] {
      var n := |s| - 1;
      var p := s[..n];
      assert s == p + [s[n]];
      Utf16LengthExact(p);
      Utf16LengthSnoc(p, s[n]);
      assert n !in AstralPositions(p);
      if IsAstral(s[n]) {
        assert AstralPositions(s) == AstralPositions(p) + {n};
      } else {
        assert AstralPositions(s) == AstralPositions(p);
      }
    }
  }
}

/**
 * The pieces of java.lang.String and java.lang.Integer the command line relies on:
 * strip(), trim(), split("\\s+") with and without a limit, Integer.parseInt,
 * Integer.toString and toUpperCase() as far as it matters for enum names.
 */
module Text {
  import opened Wrappers
  import opened Data
  import opened Errors

  // ---------------------------------------------------------------- character classes

  /** The regular-expression class `\s`: space, \t, \n, vertical tab, form feed, \r. */
  predicate IsRegexSpace(c: char)
  {
    c == ' ' || c == '\t' || c == '\n' || c == '\r' || c == 11 as char || c == 12 as char
  }

  /** Character.isWhitespace, the test String.strip() uses. */
  predicate IsJavaWhitespace(c: char)
  {
    (9 <= c as int <= 13) || (0x1C <= c as int <= 0x20) || c as int == 0x1680
    || (0x2000 <= c as int <= 0x2006) || (0x2008 <= c as int <= 0x200A)
    || c as int == 0x2028 || c as int == 0x2029 || c as int == 0x205F || c as int == 0x3000
  }

  /** The test String.trim() uses: every character up to U+0020. */
  predicate IsAtMostSpace(c: char)
  {
    c as int <= 0x20
  }

  predicate NoSpace(s: string)
  {
    forall k :: 0 <= k < |s| ==> !IsRegexSpace(s[k])
  }

  // ---------------------------------------------------------------- strip and trim

  /** Length of the longest prefix of `s` whose characters all satisfy `p`. */
  function LeadingCount(s: string, p: char -> bool): (n: nat)
    ensures n <= |s|
    ensures forall k :: 0 <= k < n ==> p(s[k])
    ensures n < |s| ==> !p(s[n])
  {
    if s == [] || !p(s[0]) then 0 else 1 + LeadingCount(s[1..], p)
  }

  /** Length of the longest suffix of `s` whose characters all satisfy `p`. */
  function TrailingCount(s: string, p: char -> bool): (n: nat)
    ensures n <= |s|
    ensures forall k :: |s| - n <= k < |s| ==> p(s[k])
    ensures n < |s| ==> !p(s[|s| - n - 1])
  {
    if s == [] || !p(s[|s| - 1]) then 0 else 1 + TrailingCount(s[..|s| - 1], p)
  }

  /** `s` without its leading and trailing characters satisfying `p`. */
  function StripBy(s: string, p: char -> bool): (r: string)
    ensures exists i, j ::
      (0 <= i <= j <= |s| && r == s[i..j]
       && (forall k :: 0 <= k < i ==> p(s[k])) && (forall k :: j <= k < |s| ==> p(s[k])))
    ensures r != [] ==> !p(r[0]) && !p(r[|r| - 1])
  {
    var i := LeadingCount(s, p);
    if i == |s| then
      assert s[|s|..|s|] == [];
      []
    else
      var j := |s| - TrailingCount(s, p);
      s[i..j]
  }

  /** String.strip(): `s` without its leading and trailing Character.isWhitespace characters. */
  function Strip(s: string): (r: string)
    ensures |r| <= |s|
    ensures r != [] ==> !IsJavaWhitespace(r[0]) && !IsJavaWhitespace(r[|r| - 1])
  {
    StripBy(s, IsJavaWhitespace)
  }

  /** String.trim(): `s` without its leading and trailing characters up to U+0020. */
  function Trim(s: string): (r: string)
    ensures |r| <= |s|
    ensures r != [] ==> !IsAtMostSpace(r[0]) && !IsAtMostSpace(r[|r| - 1])
  {
    StripBy(s, IsAtMostSpace)
  }

  /** `line.strip().trim()` starts and ends with a character outside `\s`. */
  lemma StripTrimHasNoEdgeSpace(line: string)
    ensures var t := Trim(Strip(line)); t != [] ==> !IsRegexSpace(t[0]) && !IsRegexSpace(t[|t| - 1])
  {
  }

  /** Trimming a string that already has no edge character up to U+0020 changes nothing. */
  lemma TrimIdempotent(s: string)
    requires s != [] ==> !IsAtMostSpace(s[0]) && !IsAtMostSpace(s[|s| - 1])
    ensures Trim(s) == s
  {
    if s != [] {
      assert LeadingCount(s, IsAtMostSpace) == 0;
      assert TrailingCount(s, IsAtMostSpace) == 0;
      assert s[0..|s|] == s;
    }
  }

  lemma StripIdempotent(s: string)
    requires s != [] ==> !IsJavaWhitespace(s[0]) && !IsJavaWhitespace(s[|s| - 1])
    ensures Strip(s) == s
  {
    if s != [] {
      assert LeadingCount(s, IsJavaWhitespace) == 0;
      assert TrailingCount(s, IsJavaWhitespace) == 0;
      assert s[0..|s|] == s;
    }
  }

  // ---------------------------------------------------------------- split on \s+

  /** Index of the first `\s` character of `s`, or |s| when there is none. */
  function FirstSpace(s: string): (i: nat)
    ensures i <= |s| && NoSpace(s[..i])
    ensures i < |s| ==> IsRegexSpace(s[i])
  {
    LeadingCount(s, c => !IsRegexSpace(c))
  }

  /**
   * The pieces between maximal runs of `\s`, before any empty piece is dropped:
   * a leading run gives an empty first piece, a trailing run an empty last piece.
   */
  function Pieces(s: string): (r: seq<string>)
    ensures |r| >= 1
    ensures forall k :: 0 <= k < |r| ==> NoSpace(r[k])
    ensures r[0] == [] <==> s == [] || IsRegexSpace(s[0])
    ensures forall k :: 0 < k < |r| - 1 ==> r[k] != []
    decreases |s|
  {
    var i := FirstSpace(s);
    if i == |s| then
      assert s[..i] == s;
      [s]
    else
      var j := i + LeadingCount(s[i..], IsRegexSpace);
      assert j > i;
      var rest := Pieces(s[j..]);
      assert rest[0] == [] ==> j == |s|;
      [s[..i]] + rest
  }

  /** Drops the empty strings at the end, as a zero split limit does. */
  function DropTrailingEmpty(ps: seq<string>): (r: seq<string>)
    ensures |r| <= |ps| && r == ps[..|r|]
    ensures r == [] || r[|r| - 1] != []
    ensures forall k :: |r| <= k < |ps| ==> ps[k] == []
  {
    if ps == [] || ps[|ps| - 1] != [] then ps else DropTrailingEmpty(ps[..|ps| - 1])
  }

  /**
   * `s.split("\\s+")`: without any match the input itself, else the pieces minus
   * trailing empties. The non-empty pieces are exactly the words of `s`, in order;
   * only the first piece can be empty, and it is, exactly when `s` starts with a
   * separator and has a word after it.
   */
  function SplitWhitespace(s: string): (r: seq<string>)
    ensures forall k :: 0 <= k < |r| ==> NoSpace(r[k])
    ensures NonEmpty(r) == Words(s)
    ensures forall k :: 0 < k < |r| ==> r[k] != []
    ensures NoSpace(s) ==> r == [s]
    ensures !NoSpace(s) ==> (r != [] && r[0] == [] <==> IsRegexSpace(s[0]) && Words(s) != [])
  {
    PiecesAreWords(s);
    if FirstSpace(s) == |s| then
      assert s[..|s|] == s;
      [s]
    else
      var ps := Pieces(s);
      var r := DropTrailingEmpty(ps);
      NonEmptyOfDropTrailing(ps);
      NonEmptyIsNil(ps);
      NonEmptyIsNil(r);
      assert !NoSpace(s) by { assert IsRegexSpace(s[FirstSpace(s)]); }
      r
  }

  // ---------------------------------------------------------------- words, read one character at a time

  /**
   * The maximal runs of characters outside `\s`, read left to right one character
   * at a time; `cur` is the word read so far.
   */
  function WordsFrom(s: string, cur: string): seq<string>
  {
    if s == [] then (if cur == [] then [] else [cur])
    else if IsRegexSpace(s[0]) then (if cur == [] then [] else [cur]) + WordsFrom(s[1..], [])
    else WordsFrom(s[1..], cur + [s[0]])
  }

  /** The words of `s`: its maximal runs of characters outside `\s`, in order. */
  function Words(s: string): seq<string>
  {
    WordsFrom(s, [])
  }

  /** The non-empty strings of a list, in order. */
  function NonEmpty(ps: seq<string>): seq<string>
  {
    if ps == [] then [] else (if ps[0] == [] then [] else [ps[0]]) + NonEmpty(ps[1..])
  }

  lemma {:induction false} NonEmptyAppend(a: seq<string>, b: seq<string>)
    ensures NonEmpty(a + b) == NonEmpty(a) + NonEmpty(b)
  {
    if a == [] {
      assert a + b == b;
    } else {
      var ab := a + b;
      assert ab[0] == a[0] && ab[1..] == a[1..] + b;
      NonEmptyAppend(a[1..], b);
    }
  }

  lemma {:induction false} NonEmptyIsNil(ps: seq<string>)
    ensures NonEmpty(ps) == [] <==> forall k :: 0 <= k < |ps| ==> ps[k] == []
  {
    if ps != [] {
      NonEmptyIsNil(ps[1..]);
      assert forall k :: 1 <= k < |ps| ==> ps[k] == ps[1..][k - 1];
    }
  }

  lemma {:induction false} NonEmptyKeepsNonEmpty(ps: seq<string>)
    requires forall k :: 0 <= k < |ps| ==> ps[k] != []
    ensures NonEmpty(ps) == ps
  {
    if ps != [] {
      assert forall k :: 0 <= k < |ps| - 1 ==> ps[1..][k] == ps[k + 1];
      NonEmptyKeepsNonEmpty(ps[1..]);
    }
  }

  lemma {:induction false} NonEmptyOfDropTrailing(ps: seq<string>)
    ensures NonEmpty(DropTrailingEmpty(ps)) == NonEmpty(ps)
  {
    if ps != [] && ps[|ps| - 1] == [] {
      var init := ps[..|ps| - 1];
      NonEmptyOfDropTrailing(init);
      assert ps == init + [ps[|ps| - 1]];
      NonEmptyAppend(init, [ps[|ps| - 1]]);
      assert NonEmpty([ps[|ps| - 1]]) == [];
    }
  }

  /** Characters outside `\s` extend the current word. */
  lemma {:induction false} WordsFromToken(t: string, u: string, cur: string)
    requires NoSpace(t)
    ensures WordsFrom(t + u, cur) == WordsFrom(u, cur + t)
  {
    if t == [] {
      assert t + u == u && cur + t == cur;
    } else {
      assert (t + u)[0] == t[0] && (t + u)[1..] == t[1..] + u;
      WordsFromToken(t[1..], u, cur + [t[0]]);
      assert cur + [t[0]] + t[1..] == cur + t;
    }
  }

  /** A word already begun is never lost. */
  lemma {:induction false} WordsFromOpenWord(s: string, cur: string)
    requires cur != []
    ensures WordsFrom(s, cur) != []
  {
    if s != [] && !IsRegexSpace(s[0]) {
      WordsFromOpenWord(s[1..], cur + [s[0]]);
    }
  }

  /** A run of separators between words contributes nothing. */
  lemma {:induction false} WordsFromSpaces(sp: string, u: string)
    requires forall k :: 0 <= k < |sp| ==> IsRegexSpace(sp[k])
    ensures WordsFrom(sp + u, []) == WordsFrom(u, [])
  {
    if sp == [] {
      assert sp + u == u;
    } else {
      assert (sp + u)[0] == sp[0] && (sp + u)[1..] == sp[1..] + u;
      WordsFromSpaces(sp[1..], u);
    }
  }

  /** At a separator or at the end, the current word is complete. */
  lemma WordsFromAtSpace(u: string, cur: string)
    requires u == [] || IsRegexSpace(u[0])
    ensures WordsFrom(u, cur) == NonEmpty([cur]) + WordsFrom(u, [])
  {
    assert [cur][1..] == [];
  }

  /** The non-empty pieces between separator runs are exactly the words. */
  lemma {:induction false} PiecesAreWords(s: string)
    ensures NonEmpty(Pieces(s)) == Words(s)
    decreases |s|
  {
    var i := FirstSpace(s);
    if i == |s| {
      assert s[..i] == s;
      WordsOfToken(s);
    } else {
      var j := i + LeadingCount(s[i..], IsRegexSpace);
      PiecesAreWords(s[j..]);
      PiecesAtSeparator(s, i, j);
    }
  }

  lemma PiecesStep(s: string, i: nat, j: nat)
    requires i == FirstSpace(s) < |s| && j == i + LeadingCount(s[i..], IsRegexSpace)
    ensures Pieces(s) == [s[..i]] + Pieces(s[j..])
  {
  }

  lemma PiecesAtSeparator(s: string, i: nat, j: nat)
    requires i == FirstSpace(s) < |s| && j == i + LeadingCount(s[i..], IsRegexSpace)
    requires NonEmpty(Pieces(s[j..])) == Words(s[j..])
    ensures NonEmpty(Pieces(s)) == Words(s)
  {
    PiecesStep(s, i, j);
    NonEmptyAppend([s[..i]], Pieces(s[j..]));
    assert [s[..i]][1..] == [];
    WordsAtSeparator(s, i, j);
  }

  lemma WordsOfToken(s: string)
    requires NoSpace(s)
    ensures Words(s) == NonEmpty([s])
  {
    WordsFromToken(s, [], []);
    assert s + [] == s && [] + s == s;
    assert [s][1..] == [];
  }

  /** A word, a run of separators and the rest: the word, if any, comes first. */
  lemma WordsAtSeparator(s: string, i: nat, j: nat)
    requires i == FirstSpace(s) < |s| && j == i + LeadingCount(s[i..], IsRegexSpace)
    ensures Words(s) == NonEmpty([s[..i]]) + Words(s[j..])
  {
    var w, rest := s[..i], s[i..];
    assert s == w + rest && [] + w == w;
    WordsFromToken(w, rest, []);
    WordsFromAtSpace(rest, w);
    SkipSeparatorRun(rest, j - i);
    assert rest[j - i..] == s[j..];
  }

  /** The words after a leading run of separators are the words after the run. */
  lemma SkipSeparatorRun(u: string, n: nat)
    requires n == LeadingCount(u, IsRegexSpace)
    ensures WordsFrom(u, []) == WordsFrom(u[n..], [])
  {
    assert u == u[..n] + u[n..];
    WordsFromSpaces(u[..n], u[n..]);
  }

  /** `s.split("\\s+", 2)`: the text before the first run of `\s`, and everything after it. */
  function SplitWhitespaceTwo(s: string): (r: seq<string>)
    ensures 1 <= |r| <= 2 && NoSpace(r[0])
    ensures |r| == 1 <==> NoSpace(s)
    ensures |r| == 1 ==> r[0] == s
    ensures |r| == 2 ==> |r[0]| < |s| - |r[1]|
    ensures |r| == 2 ==> s == r[0] + s[|r[0]|..|s| - |r[1]|] + r[1]
    ensures |r| == 2 ==> forall k :: |r[0]| <= k < |s| - |r[1]| ==> IsRegexSpace(s[k])
    ensures |r| == 2 ==> r[1] == [] || !IsRegexSpace(r[1][0])
  {
    var i := FirstSpace(s);
    if i == |s| then
      assert s[..i] == s;
      [s]
    else
      var j := i + LeadingCount(s[i..], IsRegexSpace);
      assert !NoSpace(s) by { assert IsRegexSpace(s[i]); }
      assert s == s[..i] + s[i..j] + s[j..];
      [s[..i], s[j..]]
  }

  /** Tokens separated by single spaces. */
  function Join(ts: seq<string>): string
  {
    if ts == [] then [] else if |ts| == 1 then ts[0] else ts[0] + " " + Join(ts[1..])
  }

  predicate IsToken(t: string)
  {
    t != [] && NoSpace(t)
  }

  /** Splitting the space-joined tokens gives the tokens back. */
  lemma {:induction false} PiecesOfJoin(ts: seq<string>)
    requires |ts| >= 1 && forall k :: 0 <= k < |ts| ==> IsToken(ts[k])
    ensures Pieces(Join(ts)) == ts
  {
    if |ts| == 1 {
      assert FirstSpace(ts[0]) == |ts[0]|;
    } else {
      JoinStartsWithToken(ts[1..]);
      PiecesAtSingleSpace(ts[0], Join(ts[1..]));
      PiecesOfJoin(ts[1..]);
      assert ts == [ts[0]] + ts[1..];
    }
  }

  /** A word, one space and a rest that starts with no space: the word is the first piece. */
  lemma PiecesAtSingleSpace(t: string, u: string)
    requires NoSpace(t) && (u == [] || !IsRegexSpace(u[0]))
    ensures Pieces(t + " " + u) == [t] + Pieces(u)
  {
    SplitTwoAtSingleSpace(t, u);
    FirstSpaceOfToken(t, " " + u);
  }

  lemma FirstSpaceOfToken(t: string, u: string)
    requires NoSpace(t) && u != [] && IsRegexSpace(u[0])
    ensures FirstSpace(t + u) == |t|
  {
    var s := t + u;
    assert s[|t|] == u[0];
    assert forall k :: 0 <= k < |t| ==> s[k] == t[k];
  }

  /** Cutting at a single space between a word and a rest that starts with no space. */
  lemma SplitTwoAtSingleSpace(t: string, u: string)
    requires NoSpace(t) && (u == [] || !IsRegexSpace(u[0]))
    ensures SplitWhitespaceTwo(t + " " + u) == [t, u]
  {
    var s := t + " " + u;
    assert FirstSpace(s) == |t| by {
      assert s == t + (" " + u);
      FirstSpaceOfToken(t, " " + u);
    }
    assert LeadingCount(s[|t|..], IsRegexSpace) == 1 by {
      assert s[|t|..] == " " + u;
    }
    assert s[..|t|] == t && s[|t| + 1..] == u;
  }

  lemma {:induction false} JoinStartsWithToken(ts: seq<string>)
    requires |ts| >= 1 && forall k :: 0 <= k < |ts| ==> IsToken(ts[k])
    ensures Join(ts) != [] && !IsRegexSpace(Join(ts)[0]) && !IsRegexSpace(Join(ts)[|Join(ts)| - 1])
  {
    if |ts| > 1 {
      JoinStartsWithToken(ts[1..]);
      assert Join(ts) == ts[0] + " " + Join(ts[1..]);
    }
  }

  /** `split("\\s+")` of space-joined tokens gives the tokens back. */
  lemma SplitOfJoin(ts: seq<string>)
    requires |ts| >= 1 && forall k :: 0 <= k < |ts| ==> IsToken(ts[k])
    ensures SplitWhitespace(Join(ts)) == ts
  {
    PiecesOfJoin(ts);
    if FirstSpace(Join(ts)) == |Join(ts)| {
      assert NoSpace(Join(ts));
      assert Pieces(Join(ts)) == [Join(ts)];
    }
  }

  /** A separator run at the start yields an empty first element. */
  lemma SplitKeepsLeadingEmpty()
    ensures SplitWhitespace(" a") == ["", "a"]
  {
    assert FirstSpace(" a") == 0;
    assert LeadingCount(" a", IsRegexSpace) == 1;
    assert " a"[1..] == "a";
    assert Pieces("a") == ["a"];
  }

  /** A separator run at the end yields no element. */
  lemma SplitDropsTrailingEmpty()
    ensures SplitWhitespace("a ") == ["a"]
  {
    assert "a "[1..] == " " && "a "[..1] == "a" && "a "[2..] == "";
    assert FirstSpace("a ") == 1;
    assert LeadingCount(" ", IsRegexSpace) == 1;
    assert Pieces("") == [""];
    assert Pieces("a ") == ["a", ""];
  }

  /** Only separators: nothing is left; no separator at all: the input itself, even if empty. */
  lemma SplitOfBlank()
    ensures SplitWhitespace(" ") == []
    ensures SplitWhitespace("") == [""]
  {
    assert FirstSpace(" ") == 0;
    assert LeadingCount(" ", IsRegexSpace) == 1;
    assert " "[1..] == "";
    assert Pieces("") == [""];
    assert Pieces(" ") == ["", ""];
  }

  // ---------------------------------------------------------------- Integer.parseInt / toString

  /**
   * The first code point of every run of ten decimal digits (general category Nd)
   * below U+10000: ASCII, Arabic-Indic, Devanagari and the other scripts' digits,
   * up to the fullwidth ones. Character.digit(ch, 10) accepts exactly these runs;
   * digits above U+FFFF are two surrogate chars in Java, and a surrogate is no digit.
   */
  const DigitZeros: seq<int> := [
    0x0030, 0x0660, 0x06F0, 0x07C0, 0x0966, 0x09E6, 0x0A66, 0x0AE6, 0x0B66, 0x0BE6,
    0x0C66, 0x0CE6, 0x0D66, 0x0DE6, 0x0E50, 0x0ED0, 0x0F20, 0x1040, 0x1090, 0x17E0,
    0x1810, 0x1946, 0x19D0, 0x1A80, 0x1A90, 0x1B50, 0x1BB0, 0x1C40, 0x1C50, 0xA620,
    0xA8D0, 0xA900, 0xA9D0, 0xA9F0, 0xAA50, 0xABF0, 0xFF10]

  /** The zero of the first digit run from the k-th on that contains `c`, if any. */
  function DigitZeroFrom(c: int, k: nat): (z: Option<int>)
    ensures z.Some? ==> z.value <= c < z.value + 10
    decreases |DigitZeros| - k
  {
    if k >= |DigitZeros| then None
    else if DigitZeros[k] <= c < DigitZeros[k] + 10 then Some(DigitZeros[k])
    else DigitZeroFrom(c, k + 1)
  }

  /** Character.digit(c, 10) >= 0. */
  predicate IsDigit(c: char)
  {
    DigitZeroFrom(c as int, 0).Some?
  }

  /** Character.digit(c, 10): the distance from the zero of its run. */
  function DigitValue(c: char): (v: nat)
    requires IsDigit(c)
    ensures v < 10
  {
    c as int - DigitZeroFrom(c as int, 0).value
  }

  /** The ASCII digits are digits with their usual values. */
  lemma AsciiDigits(c: char)
    ensures '0' <= c <= '9' ==> IsDigit(c) && DigitValue(c) == c as int - '0' as int
  {
    assert DigitZeros[0] == 0x30;
  }

  predicate AllDigits(s: string)
  {
    forall k :: 0 <= k < |s| ==> IsDigit(s[k])
  }

  /** Positional decimal value of digit values, most significant first. */
  function PlaceValue(vs: seq<nat>): nat
  {
    if vs == [] then 0 else 10 * PlaceValue(vs[..|vs| - 1]) + vs[|vs| - 1]
  }

  /** The value of each digit, in order. */
  function DigitValues(d: string): (vs: seq<nat>)
    requires AllDigits(d)
    ensures |vs| == |d|
  {
    if d == [] then [] else [DigitValue(d[0])] + DigitValues(d[1..])
  }

  lemma {:induction false} DigitValuesAppend(a: string, b: string)
    requires AllDigits(a) && AllDigits(b)
    ensures AllDigits(a + b) && DigitValues(a + b) == DigitValues(a) + DigitValues(b)
  {
    if a != [] {
      DigitValuesAppend(a[1..], b);
      assert (a + b)[1..] == a[1..] + b;
    } else {
      assert a + b == b;
    }
  }

  /** The number a run of digits denotes. */
  function DigitsValue(d: string): nat
    requires AllDigits(d)
  {
    PlaceValue(DigitValues(d))
  }

  /** An optional sign followed by at least one decimal digit of any script. */
  predicate IsIntLiteral(s: string)
  {
    var d := if s != [] && (s[0] == '+' || s[0] == '-') then s[1..] else s;
    d != [] && AllDigits(d)
  }

  /** The value an integer literal denotes. */
  function LiteralValue(s: string): int
    requires IsIntLiteral(s)
  {
    if s[0] == '-' then -(DigitsValue(s[1..]) as int) else if s[0] == '+' then DigitsValue(s[1..]) else DigitsValue(s)
  }

  /** Left-to-right accumulation, the loop Integer.parseInt runs over the digit values. */
  function Accumulate(vs: seq<nat>, acc: int): int
  {
    if vs == [] then acc else Accumulate(vs[1..], 10 * acc + vs[0])
  }

  function Pow10(n: nat): nat
  {
    if n == 0 then 1 else 10 * Pow10(n - 1)
  }

  lemma {:induction false} AccumulateIsValue(vs: seq<nat>, acc: int)
    ensures Accumulate(vs, acc) == acc * Pow10(|vs|) + PlaceValue(vs)
  {
    if vs != [] {
      var v, p, rest := vs[0], Pow10(|vs| - 1), vs[1..];
      AccumulateIsValue(rest, 10 * acc + v);
      PlaceValueCons(vs);
      assert Pow10(|vs|) == 10 * p;
      ShiftDigit(acc, v, p);
    }
  }

  lemma ShiftDigit(acc: int, v: int, p: int)
    ensures (10 * acc + v) * p == acc * (10 * p) + v * p
  {
  }

  /** Moving the leading digit's place value out of the recursion on the last digit. */
  lemma ConsArithmetic(v0: int, vl: int, p: int, mid: int, ofInit: int, ofTail: int, ofAll: int)
    requires ofInit == v0 * p + mid && ofTail == 10 * mid + vl && ofAll == 10 * ofInit + vl
    ensures ofAll == v0 * (10 * p) + ofTail
  {
  }

  /** The leading digit contributes its value times the power of ten of its place. */
  lemma {:induction false} PlaceValueCons(vs: seq<nat>)
    requires vs != []
    ensures PlaceValue(vs) == vs[0] * Pow10(|vs| - 1) + PlaceValue(vs[1..])
    decreases |vs|, 1
  {
    if |vs| > 1 {
      var init, tail := vs[..|vs| - 1], vs[1..];
      PlaceValueConsStep(vs, init, tail);
    } else {
      assert vs[..0] == [];
    }
  }

  lemma {:induction false} PlaceValueConsStep(vs: seq<nat>, init: seq<nat>, tail: seq<nat>)
    requires |vs| > 1 && init == vs[..|vs| - 1] && tail == vs[1..]
    ensures PlaceValue(vs) == vs[0] * Pow10(|vs| - 1) + PlaceValue(tail)
    decreases |vs|, 0
  {
    PlaceValueCons(init);
    assert init[1..] == tail[..|tail| - 1];
    var mid := PlaceValue(init[1..]);
    assert PlaceValue(tail) == 10 * mid + vs[|vs| - 1];
    assert Pow10(|vs| - 1) == 10 * Pow10(|vs| - 2);
    ConsArithmetic(vs[0], vs[|vs| - 1], Pow10(|vs| - 2), mid, PlaceValue(init), PlaceValue(tail), PlaceValue(vs));
  }

  function NumberFormatError(s: string): Error
  {
    Error(NumberFormat, "For input string: \"" + s + "\"")
  }

  /**
   * Integer.parseInt(s): the sign, then the digits accumulated left to right;
   * anything else, or a value outside the int range, is a NumberFormatException.
   */
  function ParseInt(s: string): (r: Result<int32, Error>)
    ensures r.Success? <==> IsIntLiteral(s) && MinInt32 <= LiteralValue(s) <= MaxInt32
    ensures r.Success? ==> r.value as int == LiteralValue(s)
    ensures r.Failure? ==> r.error == NumberFormatError(s)
  {
    if !IsIntLiteral(s) then Failure(NumberFormatError(s))
    else
      var digits := if s[0] == '-' || s[0] == '+' then s[1..] else s;
      var magnitude := Accumulate(DigitValues(digits), 0);
      var v := if s[0] == '-' then -magnitude else magnitude;
      AccumulatedLiteral(s, digits, magnitude, v);
      if MinInt32 <= v <= MaxInt32 then Success(v as int32) else Failure(NumberFormatError(s))
  }

  /** The signed accumulation of the digits is the literal's value. */
  lemma AccumulatedLiteral(s: string, digits: string, magnitude: int, v: int)
    requires IsIntLiteral(s) && digits == (if s[0] == '-' || s[0] == '+' then s[1..] else s)
    requires AllDigits(digits) && magnitude == Accumulate(DigitValues(digits), 0)
    requires v == if s[0] == '-' then -magnitude else magnitude
    ensures v == LiteralValue(s)
  {
    AccumulateIsValue(DigitValues(digits), 0);
  }

  function DigitChar(n: nat): (c: char)
    requires n < 10
    ensures '0' <= c <= '9' && IsDigit(c) && DigitValue(c) == n
  {
    var c := ('0' as int + n) as char;
    AsciiDigits(c);
    c
  }

  /** Decimal digits of a natural number, without leading zeros. */
  function NatToString(n: nat): (s: string)
    ensures s != [] && AllDigits(s) && DigitsValue(s) == n
    ensures forall k :: 0 <= k < |s| ==> '0' <= s[k] <= '9'
    ensures |s| > 1 ==> s[0] != '0'
  {
    if n < 10 then
      var c := DigitChar(n);
      assert [c][1..] == [];
      assert DigitValues([c]) == [n];
      assert [n][..0] == [];
      assert PlaceValue([n]) == n;
      [c]
    else
      var init := NatToString(n / 10);
      var s := init + [DigitChar(n % 10)];
      var vs := DigitValues(s);
      DigitValuesAppend(init, [s[|s| - 1]]);
      assert [s[|s| - 1]][1..] == [];
      assert DigitValues([s[|s| - 1]]) == [n % 10];
      assert vs[..|s| - 1] == DigitValues(init) && vs[|s| - 1] == n % 10;
      assert PlaceValue(vs) == 10 * (n / 10) + n % 10;
      s
  }

  /** Integer.toString: a minus sign for negative values, then the digits. */
  function IntToString(n: int32): (s: string)
    ensures s != [] && (s[0] == '-' <==> n < 0)
  {
    if n < 0 then "-" + NatToString(-(n as int)) else NatToString(n as nat)
  }

  /** Parsing what toString printed gives the number back. */
  lemma ParseIntToString(n: int32)
    ensures ParseInt(IntToString(n)) == Success(n)
  {
    var s := IntToString(n);
    if n < 0 {
      assert s[1..] == NatToString(-(n as int));
    } else {
      assert s == NatToString(n as nat);
    }
  }

  /** Digits of other scripts parse too: Arabic-Indic one and two give 12. */
  lemma ArabicIndicDigitsParse()
    ensures ParseInt("\U{0661}\U{0662}") == Success(12)
  {
    var s := "\U{0661}\U{0662}";
    assert DigitZeros[1] == 0x660;
    assert DigitZeroFrom(0x661, 0) == DigitZeroFrom(0x661, 1) == Some(0x660);
    assert DigitZeroFrom(0x662, 0) == DigitZeroFrom(0x662, 1) == Some(0x660);
    assert s[..1] == [s[0]];
    assert DigitsValue(s) == 10 * DigitsValue(s[..1]) + 2;
  }

  // ---------------------------------------------------------------- toUpperCase and enum valueOf

  /**
   * toUpperCase for one character, as far as it can produce an ASCII capital:
   * a-z, dotless i and long s. Other characters are kept.
   */
  function UpperChar(c: char): (u: char)
    ensures 'a' <= c <= 'z' ==> u as int == c as int - 32
    ensures 'A' <= u <= 'Z' ==> 'A' <= c <= 'Z' || 'a' <= c <= 'z' || c == 'ı' || c == 'ſ'
  {
    if 'a' <= c <= 'z' then (c as int - 32) as char
    else if c == 'ı' then 'I'
    else if c == 'ſ' then 'S'
    else c
  }

  function ToUpper(s: string): (r: string)
    ensures |r| == |s| && forall k :: 0 <= k < |s| ==> r[k] == UpperChar(s[k])
  {
    if s == [] then [] else [UpperChar(s[0])] + ToUpper(s[1..])
  }

  function ToLowerAscii(s: string): (r: string)
    ensures |r| == |s|
    ensures forall k :: 0 <= k < |s| ==> r[k] == if 'A' <= s[k] <= 'Z' then (s[k] as int + 32) as char else s[k]
  {
    if s == [] then [] else [if 'A' <= s[0] <= 'Z' then (s[0] as int + 32) as char else s[0]] + ToLowerAscii(s[1..])
  }

  /** TicketType.valueOf(arg.toUpperCase()). */
  function ParseTicketType(arg: string): (r: Result<TicketType, Error>)
    ensures r.Success? <==> exists t :: TypeName(t) == ToUpper(arg)
    ensures r.Success? ==> TypeName(r.value) == ToUpper(arg)
    ensures r.Failure? ==> r.error == Error(IllegalArgument, "No enum constant common.data.TicketType." + ToUpper(arg))
  {
    var name := ToUpper(arg);
    if name == "VIP" then assert TypeName(VIP) == name; Success(VIP)
    else if name == "USUAL" then assert TypeName(USUAL) == name; Success(USUAL)
    else if name == "BUDGETARY" then assert TypeName(BUDGETARY) == name; Success(BUDGETARY)
    else if name == "CHEAP" then assert TypeName(CHEAP) == name; Success(CHEAP)
    else
      assert forall t :: TypeName(t) != name;
      Failure(Error(IllegalArgument, "No enum constant common.data.TicketType." + name))
  }

  lemma UpperOfName(t: TicketType)
    ensures ToUpper(TypeName(t)) == TypeName(t)
    ensures ToUpper(ToLowerAscii(TypeName(t))) == TypeName(t)
  {
  }

  /** A type name is accepted in any mix of upper and lower case. */
  lemma TypeParsingIgnoresCase(t: TicketType)
    ensures ParseTicketType(TypeName(t)) == Success(t)
    ensures ParseTicketType(ToLowerAscii(TypeName(t))) == Success(t)
  {
    UpperOfName(t);
  }
}

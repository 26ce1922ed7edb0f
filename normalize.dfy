/**
 * The text normalizer `preprocess_text` of app.py (duplicated verbatim in
 * models/train_model.py), as the composition of its four steps:
 *
 *   Lower           -- Python's lower-casing
 *   DeleteOther     -- deletion of everything but ASCII letters and whitespace
 *   CollapseSpaces  -- every whitespace run becomes a single space
 *   Strip           -- whitespace is removed from both ends
 *
 * Strings are sequences of Unicode scalar values, as Python's `str` is.
 */
module Normalize {

  /** Python's whitespace (`str.isspace`), which is also what the regex class `\s` matches on a `str`. */
  predicate IsSpace(c: char) {
    || c == ' '
    || '\t' <= c <= '\r'
    || '\U{1C}' <= c <= '\U{1F}'
    || c == '\U{85}'
    || c == '\U{A0}'
    || c == '\U{1680}'
    || '\U{2000}' <= c <= '\U{200A}'
    || c == '\U{2028}' || c == '\U{2029}'
    || c == '\U{202F}' || c == '\U{205F}'
    || c == '\U{3000}'
  }

  /** The regex class `[a-zA-Z]`. */
  predicate IsAsciiLetter(c: char) {
    'a' <= c <= 'z' || 'A' <= c <= 'Z'
  }

  predicate IsLowerLetter(c: char) {
    'a' <= c <= 'z'
  }

  /** KELVIN SIGN, whose lowercase form is the ASCII letter 'k'. */
  const Kelvin: char := '\U{212A}'
  /** LATIN CAPITAL LETTER I WITH DOT ABOVE, whose lowercase form is "i" followed by COMBINING DOT ABOVE. */
  const DottedCapitalI: char := '\U{130}'
  const CombiningDotAbove: char := '\U{307}'

  /** The characters whose lowercase form contains an ASCII letter. */
  predicate YieldsLetter(c: char) {
    IsAsciiLetter(c) || c == Kelvin || c == DottedCapitalI
  }

  /** The lowercase form of every character other than U+0130, as far as the normalizer can tell. */
  function LowerOne(c: char): (r: char)
    ensures !('A' <= r <= 'Z')
    ensures IsAsciiLetter(r) <==> IsAsciiLetter(c) || c == Kelvin
    ensures IsAsciiLetter(c) ==> r == c || r as int == c as int + 32
  {
    if 'A' <= c <= 'Z' then (c as int + 32) as char
    else if c == Kelvin then 'k'
    else c
  }

  /**
   * The lowercase form of one character. Characters whose lowercase form
   * holds no ASCII letter are left as they are: the next step deletes them
   * whether they are lowered or not, and lowering never turns whitespace
   * into anything else or anything else into whitespace.
   */
  function LowerChar(c: char): (r: seq<char>)
    ensures NoUpper(r)
    ensures IsSpace(c) ==> r == [c]
    ensures IsLowerLetter(c) ==> r == [c]
    ensures Letters(r) != [] <==> YieldsLetter(c)
    ensures c != DottedCapitalI ==> r == [LowerOne(c)]
    ensures c == DottedCapitalI ==> r == ['i', CombiningDotAbove]
  {
    if c == DottedCapitalI then ['i', CombiningDotAbove] else [LowerOne(c)]
  }

  /** `str.lower()`. */
  function Lower(s: seq<char>): (r: seq<char>)
    ensures NoUpper(r)
  {
    if s == [] then [] else LowerChar(s[0]) + Lower(s[1..])
  }

  /** Text that is already lowercase letters and spaces is left as it is. */
  lemma {:induction false} LowerFixes(s: seq<char>)
    requires LowerOrBlank(s)
    ensures Lower(s) == s
  {
    if s != [] {
      assert forall k :: 0 <= k < |s| - 1 ==> s[1..][k] == s[k + 1];
      LowerFixes(s[1..]);
    }
  }

  /** Lowercasing yields an ASCII letter exactly when some character turns into one. */
  lemma {:induction false} LowerLetters(s: seq<char>)
    ensures Letters(Lower(s)) == [] <==> forall k :: 0 <= k < |s| ==> !YieldsLetter(s[k])
  {
    if s != [] {
      LettersAppend(LowerChar(s[0]), Lower(s[1..]));
      assert forall k :: 0 <= k < |s| - 1 ==> s[1..][k] == s[k + 1];
      LowerLetters(s[1..]);
      assert forall k :: 1 <= k < |s| ==> s[k] == s[1..][k - 1];
    }
  }

  /** Lowercasing works character by character. */
  lemma {:induction false} LowerAppend(a: seq<char>, b: seq<char>)
    ensures Lower(a + b) == Lower(a) + Lower(b)
  {
    if a == [] {
      assert a + b == b;
    } else {
      assert (a + b)[1..] == a[1..] + b;
      LowerAppend(a[1..], b);
    }
  }

  /** Without U+0130, lowercasing keeps the length and maps each character on its own. */
  lemma {:induction false} LowerPointwise(s: seq<char>)
    requires forall k :: 0 <= k < |s| ==> s[k] != DottedCapitalI
    ensures |Lower(s)| == |s|
    ensures forall k :: 0 <= k < |s| ==> Lower(s)[k] == LowerOne(s[k])
  {
    if s != [] {
      LowerPointwise(s[1..]);
      assert forall k :: 0 < k < |s| ==> s[k] == s[1..][k - 1];
    }
  }

  /** `c` and `d` are the same character, or the same ASCII letter in the two cases. */
  predicate SameUpToCase(c: char, d: char) {
    || c == d
    || ('A' <= c <= 'Z' && d as int == c as int + 32)
    || ('A' <= d <= 'Z' && c as int == d as int + 32)
  }

  /** Two characters that differ only in ASCII case lower alike. */
  lemma LowerCharIgnoresCase(c: char, d: char)
    requires SameUpToCase(c, d)
    ensures LowerChar(c) == LowerChar(d)
  {
  }

  /** Two texts that differ only in ASCII case lower alike. */
  lemma {:induction false} LowerIgnoresCase(s: seq<char>, t: seq<char>)
    requires |s| == |t| && forall k :: 0 <= k < |s| ==> SameUpToCase(s[k], t[k])
    ensures Lower(s) == Lower(t)
  {
    if s != [] {
      LowerCharIgnoresCase(s[0], t[0]);
      assert forall k :: 0 <= k < |s| - 1 ==> s[1..][k] == s[k + 1] && t[1..][k] == t[k + 1];
      LowerIgnoresCase(s[1..], t[1..]);
    }
  }

  /** The ASCII letters of `s`, in order. */
  function Letters(s: seq<char>): seq<char> {
    if s == [] then []
    else if IsAsciiLetter(s[0]) then [s[0]] + Letters(s[1..])
    else Letters(s[1..])
  }

  lemma {:induction false} LettersAppend(a: seq<char>, b: seq<char>)
    ensures Letters(a + b) == Letters(a) + Letters(b)
  {
    if a == [] {
      assert a + b == b;
    } else {
      assert (a + b)[1..] == a[1..] + b;
      LettersAppend(a[1..], b);
    }
  }

  /** `re.sub(r'[^a-zA-Z\s]', '', s)`: every character that is neither an ASCII letter nor whitespace is deleted. */
  function DeleteOther(s: seq<char>): (r: seq<char>)
    ensures |r| <= |s|
    ensures forall k :: 0 <= k < |r| ==> IsAsciiLetter(r[k]) || IsSpace(r[k])
    ensures Letters(r) == Letters(s)
  {
    if s == [] then []
    else
      var tail := DeleteOther(s[1..]);
      if IsAsciiLetter(s[0]) || IsSpace(s[0]) then [s[0]] + tail else tail
  }

  /** Deleting from a text without capitals leaves only 'a'..'z' and whitespace. */
  lemma {:induction false} DeleteOtherLowered(s: seq<char>)
    requires NoUpper(s)
    ensures LowerOrSpace(DeleteOther(s))
  {
    if s != [] {
      assert forall k :: 0 <= k < |s| - 1 ==> s[1..][k] == s[k + 1];
      DeleteOtherLowered(s[1..]);
    }
  }

  /** A text of letters and whitespace only is left as it is. */
  lemma {:induction false} DeleteOtherFixes(s: seq<char>)
    requires forall k :: 0 <= k < |s| ==> IsAsciiLetter(s[k]) || IsSpace(s[k])
    ensures DeleteOther(s) == s
  {
    if s != [] {
      assert forall k :: 0 <= k < |s| - 1 ==> s[1..][k] == s[k + 1];
      DeleteOtherFixes(s[1..]);
    }
  }

  /** Deleting works character by character. */
  lemma {:induction false} DeleteOtherAppend(a: seq<char>, b: seq<char>)
    ensures DeleteOther(a + b) == DeleteOther(a) + DeleteOther(b)
  {
    if a == [] {
      assert a + b == b;
    } else {
      assert (a + b)[1..] == a[1..] + b;
      DeleteOtherAppend(a[1..], b);
    }
  }

  /** A text without letters and whitespace is deleted entirely. */
  lemma {:induction false} DeleteOtherDropsAll(s: seq<char>)
    requires forall k :: 0 <= k < |s| ==> !IsAsciiLetter(s[k]) && !IsSpace(s[k])
    ensures DeleteOther(s) == []
  {
    if s != [] {
      assert forall k :: 0 <= k < |s| - 1 ==> s[1..][k] == s[k + 1];
      DeleteOtherDropsAll(s[1..]);
    }
  }

  /** `s` with its leading run of whitespace removed. */
  function SkipSpaces(s: seq<char>): (r: seq<char>)
    ensures |r| <= |s| && r == s[|s| - |r|..]
    ensures r == [] || !IsSpace(r[0])
    ensures forall k :: 0 <= k < |s| - |r| ==> IsSpace(s[k])
    ensures Letters(r) == Letters(s)
  {
    if s != [] && IsSpace(s[0]) then SkipSpaces(s[1..]) else s
  }

  /** `s` with its trailing run of whitespace removed. */
  function TrimEnd(s: seq<char>): (r: seq<char>)
    ensures |r| <= |s| && r == s[..|r|]
    ensures r == [] || !IsSpace(r[|r| - 1])
    ensures forall k :: |r| <= k < |s| ==> IsSpace(s[k])
    ensures Letters(r) == Letters(s)
  {
    if s != [] && IsSpace(s[|s| - 1]) then
      var r := TrimEnd(s[..|s| - 1]);
      LettersAppend(s[..|s| - 1], [s[|s| - 1]]);
      assert s[..|s| - 1] + [s[|s| - 1]] == s;
      r
    else s
  }

  /** `str.strip()`: whitespace removed from both ends. */
  function Strip(s: seq<char>): (r: seq<char>)
    ensures r == [] || (!IsSpace(r[0]) && !IsSpace(r[|r| - 1]))
  {
    TrimEnd(SkipSpaces(s))
  }

  /** Stripping removes only whitespace, so it keeps every letter. */
  lemma StripKeepsLetters(s: seq<char>)
    ensures Letters(Strip(s)) == Letters(s)
  {
  }

  /** Stripping cuts a slice out of `s`, so it keeps the shape of `s`. */
  lemma StripKeepsShape(s: seq<char>)
    ensures LowerOrBlank(s) ==> LowerOrBlank(Strip(s))
    ensures NoDoubleSpace(s) ==> NoDoubleSpace(Strip(s))
  {
    var front := SkipSpaces(s);
    SliceKeepsShape(s, |s| - |front|, |s|);
    SliceKeepsShape(front, 0, |TrimEnd(front)|);
  }

  /** A text without whitespace at either end is its own strip. */
  lemma StripFixes(s: seq<char>)
    requires s == [] || (!IsSpace(s[0]) && !IsSpace(s[|s| - 1]))
    ensures Strip(s) == s
  {
  }

  lemma SliceKeepsShape(s: seq<char>, i: nat, j: nat)
    requires i <= j <= |s|
    ensures LowerOrBlank(s) ==> LowerOrBlank(s[i..j])
    ensures NoDoubleSpace(s) ==> NoDoubleSpace(s[i..j])
  {
    assert forall k :: 0 <= k < j - i ==> s[i..j][k] == s[i + k];
  }

  /** `s` holds no ASCII capital letter. */
  predicate NoUpper(s: seq<char>) {
    forall k :: 0 <= k < |s| ==> !('A' <= s[k] <= 'Z')
  }

  /** Every character of `s` is 'a'..'z' or whitespace. */
  predicate LowerOrSpace(s: seq<char>) {
    forall k :: 0 <= k < |s| ==> IsLowerLetter(s[k]) || IsSpace(s[k])
  }

  /** Every character of `s` is 'a'..'z' or the space ' '. */
  predicate LowerOrBlank(s: seq<char>) {
    forall k :: 0 <= k < |s| ==> IsLowerLetter(s[k]) || s[k] == ' '
  }

  /** No two adjacent characters of `s` are both spaces. */
  predicate NoDoubleSpace(s: seq<char>) {
    forall k :: 0 <= k < |s| - 1 ==> !(s[k] == ' ' && s[k + 1] == ' ')
  }

  /** `re.sub(r'\s+', ' ', s)`: every maximal run of whitespace becomes one space. */
  function CollapseSpaces(s: seq<char>): (r: seq<char>)
    decreases |s|
    ensures s == [] <==> r == []
    ensures s != [] ==> (r[0] == ' ' <==> IsSpace(s[0]))
    ensures NoDoubleSpace(r)
  {
    if s == [] then []
    else if IsSpace(s[0]) then
      var tail := CollapseSpaces(SkipSpaces(s[1..]));
      ConsKeepsShape(' ', tail);
      [' '] + tail
    else
      var tail := CollapseSpaces(s[1..]);
      ConsKeepsShape(s[0], tail);
      [s[0]] + tail
  }

  /** Collapsing whitespace keeps every letter, in order. */
  lemma {:induction false} CollapseKeepsLetters(s: seq<char>)
    decreases |s|
    ensures Letters(CollapseSpaces(s)) == Letters(s)
  {
    if s == [] {
    } else if IsSpace(s[0]) {
      var rest := SkipSpaces(s[1..]);
      CollapseKeepsLetters(rest);
      ConsKeepsShape(' ', CollapseSpaces(rest));
    } else {
      CollapseKeepsLetters(s[1..]);
      ConsKeepsShape(s[0], CollapseSpaces(s[1..]));
    }
  }

  /** After collapsing, the only whitespace left is the plain space. */
  lemma {:induction false} CollapseLeavesOnlyBlanks(s: seq<char>)
    decreases |s|
    ensures forall k :: 0 <= k < |CollapseSpaces(s)| ==> IsSpace(CollapseSpaces(s)[k]) ==> CollapseSpaces(s)[k] == ' '
  {
    if s == [] {
    } else if IsSpace(s[0]) {
      CollapseLeavesOnlyBlanks(SkipSpaces(s[1..]));
    } else {
      CollapseLeavesOnlyBlanks(s[1..]);
    }
  }

  /** Collapsing a lowercase text leaves a text of 'a'..'z' and single spaces. */
  lemma {:induction false} CollapseLowerText(s: seq<char>)
    decreases |s|
    requires LowerOrSpace(s)
    ensures LowerOrBlank(CollapseSpaces(s))
  {
    if s == [] {
    } else {
      var rest := if IsSpace(s[0]) then SkipSpaces(s[1..]) else s[1..];
      assert forall k :: 0 <= k < |rest| ==> rest[k] == s[|s| - |rest| + k];
      CollapseLowerText(rest);
    }
  }

  /** A text whose only whitespace is single spaces is its own collapse. */
  lemma {:induction false} CollapseFixes(s: seq<char>)
    requires LowerOrBlank(s) && NoDoubleSpace(s)
    ensures CollapseSpaces(s) == s
  {
    if s != [] {
      assert forall k :: 0 <= k < |s| - 1 ==> s[1..][k] == s[k + 1];
      if IsSpace(s[0]) {
        assert s[1..] == [] || !IsSpace(s[1]);
        assert SkipSpaces(s[1..]) == s[1..];
      }
      CollapseFixes(s[1..]);
    }
  }

  lemma ConsKeepsShape(c: char, t: seq<char>)
    requires NoDoubleSpace(t)
    requires c == ' ' && t != [] ==> t[0] != ' '
    ensures NoDoubleSpace([c] + t)
    ensures Letters([c] + t) == if IsAsciiLetter(c) then [c] + Letters(t) else Letters(t)
  {
    assert ([c] + t)[1..] == t;
    forall k | 0 <= k < |t| ensures ([c] + t)[k + 1] == t[k] { }
  }

  /** `preprocess_text` (app.py, lines 69-73). */
  function Preprocess(text: seq<char>): (r: seq<char>)
    ensures IsNormalized(r)
  {
    var lowered := Lower(text);
    var kept := DeleteOther(lowered);
    var collapsed := CollapseSpaces(kept);
    DeleteOtherLowered(lowered);
    CollapseLowerText(kept);
    StripKeepsShape(collapsed);
    Strip(collapsed)
  }

  /**
   * The shape of a normalized text: only 'a'..'z' and ' ', no space at
   * either end and never two spaces in a row.
   */
  predicate IsNormalized(s: seq<char>) {
    && LowerOrBlank(s)
    && (s != [] ==> s[0] != ' ' && s[|s| - 1] != ' ')
    && NoDoubleSpace(s)
  }

  /** Texts that differ only in ASCII case normalize alike: "Server DOWN" and "server down" give the same text. */
  lemma PreprocessIgnoresCase(s: seq<char>, t: seq<char>)
    requires |s| == |t| && forall k :: 0 <= k < |s| ==> SameUpToCase(s[k], t[k])
    ensures Preprocess(s) == Preprocess(t)
  {
    LowerIgnoresCase(s, t);
  }

  /** A normalized text is left as it is, and only a normalized text is. */
  lemma NormalizedIsFixed(t: seq<char>)
    ensures Preprocess(t) == t <==> IsNormalized(t)
  {
    if IsNormalized(t) {
      LowerFixes(t);
      DeleteOtherFixes(t);
      CollapseFixes(t);
      StripFixes(t);
    }
  }

  /** `preprocess_text(preprocess_text(s)) == preprocess_text(s)`. */
  lemma PreprocessIdempotent(s: seq<char>)
    ensures Preprocess(Preprocess(s)) == Preprocess(s)
  {
    NormalizedIsFixed(Preprocess(s));
  }

  /** Normalizing keeps exactly the letters of the lowercased text, in order. */
  lemma PreprocessKeepsLetters(s: seq<char>)
    ensures Letters(Preprocess(s)) == Letters(Lower(s))
  {
    var kept := DeleteOther(Lower(s));
    CollapseKeepsLetters(kept);
    StripKeepsLetters(CollapseSpaces(kept));
  }

  /** A normalized text without letters is empty. */
  lemma {:induction false} NormalizedWithoutLetters(t: seq<char>)
    requires IsNormalized(t) && Letters(t) == []
    ensures t == []
  {
  }

  /**
   * The result is empty exactly when no character of the input lowercases
   * to an ASCII letter: empty and all-symbol input give "".
   */
  lemma PreprocessEmptyIff(s: seq<char>)
    ensures Preprocess(s) == [] <==> forall k :: 0 <= k < |s| ==> !YieldsLetter(s[k])
  {
    PreprocessKeepsLetters(s);
    LowerLetters(s);
    if Letters(Lower(s)) == [] {
      NormalizedWithoutLetters(Preprocess(s));
    }
  }

  /** Every character of `s` is whitespace. */
  predicate AllSpace(s: seq<char>) {
    forall k :: 0 <= k < |s| ==> IsSpace(s[k])
  }

  /** The leading run of non-whitespace characters of `s`. */
  function WordPrefix(s: seq<char>): (w: seq<char>)
    ensures |w| <= |s| && w == s[..|w|]
    ensures forall k :: 0 <= k < |w| ==> !IsSpace(w[k])
    ensures |w| < |s| ==> IsSpace(s[|w|])
  {
    if s == [] || IsSpace(s[0]) then [] else [s[0]] + WordPrefix(s[1..])
  }

  /**
   * The words of `s`, its maximal runs of non-whitespace characters in
   * order, as Python's `str.split()` with no argument gives them.
   */
  function Words(s: seq<char>): (ws: seq<seq<char>>)
    decreases |s|
    ensures forall i :: 0 <= i < |ws| ==> ws[i] != []
  {
    if s == [] then []
    else if IsSpace(s[0]) then Words(s[1..])
    else
      var w := WordPrefix(s);
      [w] + Words(s[|w|..])
  }

  /** Python's `sep.join(parts)`: the parts in order, with `sep` between each two. */
  function Join<T>(sep: seq<T>, parts: seq<seq<T>>): seq<T> {
    if parts == [] then []
    else if |parts| == 1 then parts[0]
    else parts[0] + sep + Join(sep, parts[1..])
  }

  /** A word is copied unchanged by the collapse. */
  lemma {:induction false} CollapseWord(w: seq<char>, rest: seq<char>)
    requires forall k :: 0 <= k < |w| ==> !IsSpace(w[k])
    ensures CollapseSpaces(w + rest) == w + CollapseSpaces(rest)
  {
    if w == [] {
      assert w + rest == rest;
    } else {
      assert (w + rest)[1..] == w[1..] + rest;
      CollapseWord(w[1..], rest);
    }
  }

  /** Leading whitespace does not change the words. */
  lemma {:induction false} WordsSkipSpaces(s: seq<char>)
    ensures Words(SkipSpaces(s)) == Words(s)
  {
    if s != [] && IsSpace(s[0]) {
      WordsSkipSpaces(s[1..]);
    }
  }

  /** A text has no words exactly when it is all whitespace. */
  lemma {:induction false} NoWordsIffAllSpace(s: seq<char>)
    ensures Words(s) == [] <==> AllSpace(s)
  {
    if s != [] && IsSpace(s[0]) {
      NoWordsIffAllSpace(s[1..]);
      assert forall k :: 0 < k < |s| ==> s[k] == s[1..][k - 1];
    }
  }

  /** Trailing whitespace is cut by the trim. */
  lemma {:induction false} TrimEndSpaces(a: seq<char>, b: seq<char>)
    requires AllSpace(b)
    ensures TrimEnd(a + b) == TrimEnd(a)
  {
    if b != [] {
      assert (a + b)[..|a + b| - 1] == a + b[..|b| - 1];
      TrimEndSpaces(a, b[..|b| - 1]);
    } else {
      assert a + b == a;
    }
  }

  /** The trim stops inside the last part when that part is not all whitespace. */
  lemma {:induction false} TrimEndAppend(a: seq<char>, b: seq<char>)
    requires !AllSpace(b)
    ensures TrimEnd(a + b) == a + TrimEnd(b)
  {
    if IsSpace(b[|b| - 1]) {
      assert (a + b)[..|a + b| - 1] == a + b[..|b| - 1];
      TrimEndAppend(a, b[..|b| - 1]);
    }
  }

  /** Collapsing a text of whitespace leaves at most one space. */
  lemma CollapseAllSpace(s: seq<char>)
    requires AllSpace(s)
    ensures AllSpace(CollapseSpaces(s))
  {
    if s != [] {
      assert SkipSpaces(s[1..]) == [];
    }
  }

  /**
   * Collapsing and stripping is Python's `' '.join(s.split())`: the words
   * of the text, joined by single spaces.
   */
  lemma {:induction false} StripCollapseJoinsWords(t: seq<char>)
    decreases |t|
    ensures Strip(CollapseSpaces(t)) == Join([' '], Words(t))
  {
    if t == [] {
    } else if IsSpace(t[0]) {
      var r2 := SkipSpaces(t[1..]);
      StripCollapseJoinsWords(r2);
      WordsSkipSpaces(t[1..]);
      assert ([' '] + CollapseSpaces(r2))[1..] == CollapseSpaces(r2);
    } else {
      var w := WordPrefix(t);
      var rest := t[|w|..];
      NoWordsIffAllSpace(rest);
      if AllSpace(rest) {
        LastWord(t);
      } else {
        var r2 := SkipSpaces(rest[1..]);
        InnerWordWords(t);
        StripCollapseJoinsWords(r2);
        InnerWordJoin(t);
      }
    }
  }

  /** The step of the induction above: a word, white space, and more words. */
  lemma InnerWordJoin(t: seq<char>)
    requires t != [] && !IsSpace(t[0])
    requires !AllSpace(t[|WordPrefix(t)|..])
    requires var r2 := SkipSpaces(t[|WordPrefix(t)|..][1..]);
      Strip(CollapseSpaces(r2)) == Join([' '], Words(r2))
    ensures Strip(CollapseSpaces(t)) == Join([' '], Words(t))
  {
    var w := WordPrefix(t);
    var rest := t[|w|..];
    var r2 := SkipSpaces(rest[1..]);
    InnerWordWords(t);
    SplitAtWord(t);
    InnerWordStrip(w, rest);
    JoinCons([' '], w, Words(r2));
  }

  /** Joining a part in front of a non-empty list of parts. */
  lemma JoinCons<T>(sep: seq<T>, p: seq<T>, ps: seq<seq<T>>)
    requires ps != []
    ensures Join(sep, [p] + ps) == p + sep + Join(sep, ps)
  {
    assert ([p] + ps)[1..] == ps;
  }

  lemma SplitAtWord(t: seq<char>)
    ensures t == WordPrefix(t) + t[|WordPrefix(t)|..]
  {
    var w := WordPrefix(t);
    assert t == t[..|w|] + t[|w|..];
  }

  /** A word followed only by whitespace. */
  lemma LastWord(t: seq<char>)
    requires t != [] && !IsSpace(t[0])
    requires AllSpace(t[|WordPrefix(t)|..])
    ensures Strip(CollapseSpaces(t)) == WordPrefix(t) == Join([' '], Words(t))
  {
    var w := WordPrefix(t);
    var rest := t[|w|..];
    assert t == w + rest;
    NoWordsIffAllSpace(rest);
    CollapseWord(w, rest);
    var c := CollapseSpaces(t);
    assert SkipSpaces(c) == c;
    CollapseAllSpace(rest);
    TrimEndSpaces(w, CollapseSpaces(rest));
    assert Words(t) == [w];
    assert Join([' '], [w]) == w;
  }

  /** A word followed by whitespace and more words: the step of the induction above, for the words. */
  lemma InnerWordWords(t: seq<char>)
    requires t != [] && !IsSpace(t[0])
    requires !AllSpace(t[|WordPrefix(t)|..])
    ensures var r2 := SkipSpaces(t[|WordPrefix(t)|..][1..]);
      && |r2| < |t| && r2 != [] && !IsSpace(r2[0])
      && Words(r2) != []
      && Words(t) == [WordPrefix(t)] + Words(r2)
  {
    var w := WordPrefix(t);
    var rest := t[|w|..];
    var r2 := SkipSpaces(rest[1..]);
    assert rest != [] && IsSpace(rest[0]);
    WordsSkipSpaces(rest[1..]);
    NoWordsIffAllSpace(rest);
    NoWordsIffAllSpace(r2);
  }

  /** ... and for the collapsed and stripped text. */
  lemma InnerWordStrip(w: seq<char>, rest: seq<char>)
    requires w != [] && forall k :: 0 <= k < |w| ==> !IsSpace(w[k])
    requires rest != [] && IsSpace(rest[0])
    requires var r2 := SkipSpaces(rest[1..]); r2 != [] && !IsSpace(r2[0])
    ensures Strip(CollapseSpaces(w + rest)) == w + [' '] + Strip(CollapseSpaces(SkipSpaces(rest[1..])))
  {
    var r2 := SkipSpaces(rest[1..]);
    var c := CollapseSpaces(r2);
    assert c == [r2[0]] + CollapseSpaces(r2[1..]);
    CollapseWordSpace(w, rest);
    StripWordSpace(w, c);
  }

  lemma CollapseWordSpace(w: seq<char>, rest: seq<char>)
    requires forall k :: 0 <= k < |w| ==> !IsSpace(w[k])
    requires rest != [] && IsSpace(rest[0])
    ensures CollapseSpaces(w + rest) == w + [' '] + CollapseSpaces(SkipSpaces(rest[1..]))
  {
    CollapseWord(w, rest);
  }

  lemma StripWordSpace(w: seq<char>, c: seq<char>)
    requires w != [] && !IsSpace(w[0])
    requires c != [] && !IsSpace(c[0])
    ensures Strip(w + [' '] + c) == w + [' '] + Strip(c)
  {
    assert (w + [' '] + c)[0] == w[0];
    assert SkipSpaces(w + [' '] + c) == w + [' '] + c;
    assert SkipSpaces(c) == c;
    TrimEndAppend(w + [' '], c);
  }

  /** The words of a text after lowering and deleting the other characters. */
  function Tokens(s: seq<char>): seq<seq<char>> {
    Words(DeleteOther(Lower(s)))
  }

  /** `preprocess_text(s) == ' '.join(tokens)`: the normalized text is the tokens of `s` joined by single spaces. */
  lemma PreprocessJoinsTokens(s: seq<char>)
    ensures Preprocess(s) == Join([' '], Tokens(s))
  {
    StripCollapseJoinsWords(DeleteOther(Lower(s)));
  }

  lemma {:induction false} WordPrefixAppend(a: seq<char>, b: seq<char>)
    requires b == [] || IsSpace(b[0])
    ensures WordPrefix(a + b) == WordPrefix(a)
  {
    if a == [] {
      assert a + b == b;
    } else if !IsSpace(a[0]) {
      assert (a + b)[1..] == a[1..] + b;
      WordPrefixAppend(a[1..], b);
    }
  }

  /** A whitespace character separates the words on its two sides. */
  lemma {:induction false} WordsAppend(a: seq<char>, c: char, b: seq<char>)
    requires IsSpace(c)
    decreases |a|
    ensures Words(a + [c] + b) == Words(a) + Words(b)
  {
    var s := a + [c] + b;
    if a == [] {
      assert s[1..] == b;
    } else if IsSpace(a[0]) {
      assert s[1..] == a[1..] + [c] + b;
      WordsAppend(a[1..], c, b);
    } else {
      WordPrefixAppend(a, [c] + b);
      assert s == a + ([c] + b);
      var w := WordPrefix(a);
      assert s[|w|..] == a[|w|..] + [c] + b;
      WordsAppend(a[|w|..], c, b);
    }
  }

  /** Tokens are split at each whitespace character of the raw text. */
  lemma TokensAppend(a: seq<char>, c: char, b: seq<char>)
    requires IsSpace(c)
    ensures Tokens(a + [c] + b) == Tokens(a) + Tokens(b)
  {
    var la, lb := Lower(a), Lower(b);
    LowerAroundSpace(a, c, b);
    DeleteOtherAroundSpace(la, c, lb);
    WordsAppend(DeleteOther(la), c, DeleteOther(lb));
  }

  lemma LowerAroundSpace(a: seq<char>, c: char, b: seq<char>)
    requires IsSpace(c)
    ensures Lower(a + [c] + b) == Lower(a) + [c] + Lower(b)
  {
    LowerAround(a, c, b);
  }

  lemma LowerAround(a: seq<char>, c: char, b: seq<char>)
    ensures Lower(a + [c] + b) == Lower(a) + LowerChar(c) + Lower(b)
  {
    LowerAppend(a + [c], b);
    LowerAppend(a, [c]);
    LowerSingle(c);
  }

  lemma DeleteOtherAroundSpace(a: seq<char>, c: char, b: seq<char>)
    requires IsSpace(c)
    ensures DeleteOther(a + [c] + b) == DeleteOther(a) + [c] + DeleteOther(b)
  {
    DeleteOtherAround(a, c, b);
    DeleteOtherSingle(c);
  }

  lemma DeleteOtherAround(a: seq<char>, c: char, b: seq<char>)
    ensures DeleteOther(a + [c] + b) == DeleteOther(a) + DeleteOther([c]) + DeleteOther(b)
  {
    DeleteOtherAppend(a + [c], b);
    DeleteOtherAppend(a, [c]);
  }

  lemma LowerSingle(c: char)
    ensures Lower([c]) == LowerChar(c)
  {
    assert [c][1..] == [];
  }

  lemma DeleteOtherSingle(c: char)
    ensures DeleteOther([c]) == if IsAsciiLetter(c) || IsSpace(c) then [c] else []
  {
    assert [c][1..] == [];
  }

  /** A character that is neither whitespace nor turns into a letter is deleted, not replaced by a space. */
  lemma PreprocessDeletesSymbol(a: seq<char>, c: char, b: seq<char>)
    requires !YieldsLetter(c) && !IsSpace(c)
    ensures Preprocess(a + [c] + b) == Preprocess(a + b)
  {
    KeptAppend(a + [c], b);
    KeptAppend(a, [c]);
    KeptAppend(a, b);
    KeptSymbol(c);
    assert DeleteOther(Lower(a)) + [] == DeleteOther(Lower(a));
    SameKeptSamePreprocess(a + [c] + b, a + b);
  }

  lemma KeptAppend(a: seq<char>, b: seq<char>)
    ensures DeleteOther(Lower(a + b)) == DeleteOther(Lower(a)) + DeleteOther(Lower(b))
  {
    LowerAppend(a, b);
    DeleteOtherAppend(Lower(a), Lower(b));
  }

  lemma KeptSymbol(c: char)
    requires !YieldsLetter(c) && !IsSpace(c)
    ensures DeleteOther(Lower([c])) == []
  {
    LowerSingle(c);
    assert LowerChar(c) == [LowerOne(c)];
    DeleteOtherSingle(LowerOne(c));
  }

  lemma SameKeptSamePreprocess(x: seq<char>, y: seq<char>)
    requires DeleteOther(Lower(x)) == DeleteOther(Lower(y))
    ensures Preprocess(x) == Preprocess(y)
  {
  }

  /**
   * A tail that turns into no letter (digits, punctuation, whitespace) is
   * dropped together with the whitespace before it.
   */
  lemma PreprocessDropsUnletteredTail(a: seq<char>, b: seq<char>)
    requires forall k :: 0 <= k < |b| ==> !YieldsLetter(b[k])
    ensures Preprocess(a + b) == Preprocess(a)
  {
    LowerAppend(a, b);
    DeleteOtherAppend(Lower(a), Lower(b));
    LowerLetters(b);
    NoLetterLeft(DeleteOther(Lower(b)));
    WordsAppendBlank(DeleteOther(Lower(a)), DeleteOther(Lower(b)));
    PreprocessJoinsTokens(a + b);
    PreprocessJoinsTokens(a);
  }

  /** Trailing whitespace adds no word. */
  lemma WordsAppendBlank(a: seq<char>, b: seq<char>)
    requires AllSpace(b)
    ensures Words(a + b) == Words(a)
  {
    if b == [] {
      assert a + b == a;
    } else {
      assert a + b == a + [b[0]] + b[1..];
      WordsAppend(a, b[0], b[1..]);
      NoWordsIffAllSpace(b[1..]);
      assert Words(a) + [] == Words(a);
    }
  }

  /** A text of letters and whitespace without a letter is all whitespace. */
  lemma {:induction false} NoLetterLeft(s: seq<char>)
    requires forall k :: 0 <= k < |s| ==> IsAsciiLetter(s[k]) || IsSpace(s[k])
    requires Letters(s) == []
    ensures AllSpace(s)
  {
    if s != [] {
      assert forall k :: 0 <= k < |s| - 1 ==> s[1..][k] == s[k + 1];
      NoLetterLeft(s[1..]);
      assert forall k :: 1 <= k < |s| ==> s[k] == s[1..][k - 1];
    }
  }
}

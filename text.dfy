/**
 * The Python string operations the pipeline is built from, over ASCII text:
 * str.strip, str.startswith, the `in` test, str.isdigit, str.split(sep),
 * sep.join, str.replace(old, ""), str.split() with no argument, "c" * n and
 * str(n) for a natural number.
 */
module Text {

  /** str.isspace restricted to ASCII: tab, line feed, vertical tab, form feed,
      carriage return, the four information separators and space. */
  predicate IsSpace(c: char) {
    c == ' ' || 9 <= c as int <= 13 || 28 <= c as int <= 31
  }

  predicate IsBlank(s: string) {
    forall i :: 0 <= i < |s| ==> IsSpace(s[i])
  }

  function TrimStart(s: string): (r: string)
    ensures |r| <= |s| && r == s[|s| - |r|..]
    ensures |r| > 0 ==> !IsSpace(r[0])
    ensures IsBlank(s[..|s| - |r|])
    decreases |s|
  {
    if |s| > 0 && IsSpace(s[0]) then
      var r := TrimStart(s[1..]);
      TrimmedAfterSpace(s, r);
      r
    else s
  }

  /** Trimming behind a leading whitespace character trims s itself. */
  lemma TrimmedAfterSpace(s: string, r: string)
    requires |s| > 0 && IsSpace(s[0])
    requires |r| <= |s| - 1 && r == s[1..][|s| - 1 - |r|..] && IsBlank(s[1..][..|s| - 1 - |r|])
    ensures r == s[|s| - |r|..] && IsBlank(s[..|s| - |r|])
  {
    var k := |s| - |r|;
    assert s[1..][k - 1..] == s[k..];
    assert forall i :: 1 <= i < k ==> s[..k][i] == s[1..][..k - 1][i - 1];
  }

  function TrimEnd(s: string): (r: string)
    ensures |r| <= |s| && r == s[..|r|]
    ensures |r| > 0 ==> !IsSpace(r[|r| - 1])
    ensures IsBlank(s[|r|..])
    decreases |s|
  {
    if |s| > 0 && IsSpace(s[|s| - 1]) then
      var r := TrimEnd(s[..|s| - 1]);
      TrimmedBeforeSpace(s, r);
      r
    else s
  }

  /** Trimming before a trailing whitespace character trims s itself. */
  lemma TrimmedBeforeSpace(s: string, r: string)
    requires |s| > 0 && IsSpace(s[|s| - 1])
    requires |r| <= |s| - 1 && r == s[..|s| - 1][..|r|] && IsBlank(s[..|s| - 1][|r|..])
    ensures r == s[..|r|] && IsBlank(s[|r|..])
  {
    assert s[..|s| - 1][..|r|] == s[..|r|];
    assert forall i :: |r| <= i < |s| - 1 ==> s[i] == s[..|s| - 1][|r|..][i - |r|];
  }

  /** s[i..i + |r|] is r, and everything around it is whitespace. */
  predicate StrippedAt(s: string, r: string, i: int) {
    0 <= i <= |s| - |r| && r == s[i..i + |r|] && IsBlank(s[..i]) && IsBlank(s[i + |r|..])
  }

  /** str.strip(): the slice of s left after dropping whitespace at both ends. */
  function Strip(s: string): (r: string)
    ensures |r| > 0 ==> !IsSpace(r[0]) && !IsSpace(r[|r| - 1])
    ensures StrippedAt(s, r, |s| - |TrimStart(s)|)
  {
    var t := TrimStart(s);
    var r := TrimEnd(t);
    TrimmedBothEnds(s, t, r);
    r
  }

  /** A prefix r of a suffix t of s sits at |s| - |t| in s. */
  lemma TrimmedBothEnds(s: string, t: string, r: string)
    requires |t| <= |s| && t == s[|s| - |t|..] && IsBlank(s[..|s| - |t|])
    requires |r| <= |t| && r == t[..|r|] && IsBlank(t[|r|..])
    ensures StrippedAt(s, r, |s| - |t|)
  {
    var i := |s| - |t|;
    assert s[i..i + |r|] == t[..|r|];
    assert s[i + |r|..] == t[|r|..];
  }

  /** `not s.strip()`: stripping leaves nothing exactly when s is all whitespace. */
  lemma StripEmptyIffBlank(s: string)
    ensures Strip(s) == "" <==> IsBlank(s)
  {
    var r, i := Strip(s), |s| - |TrimStart(s)|;
    assert |r| > 0 ==> r[0] == s[i];
    assert r == "" ==> s == s[..i] + s[i..];
  }

  /** Stripping a string that already has no surrounding whitespace changes nothing,
      and neither does one extra leading space. */
  lemma StripAfterSpace(t: string)
    requires |t| > 0 ==> !IsSpace(t[0]) && !IsSpace(t[|t| - 1])
    ensures Strip(t) == t
    ensures Strip(" " + t) == t
  {
    assert (" " + t)[1..] == t;
  }

  /** s.startswith(prefix). */
  predicate StartsWith(s: string, prefix: string) {
    prefix <= s
  }

  /** Python's `pat in s`. */
  predicate Occurs(s: string, pat: string) {
    exists i :: 0 <= i <= |s| - |pat| && OccursAt(s, pat, i)
  }

  predicate OccursAt(s: string, pat: string, i: int) {
    0 <= i <= |s| - |pat| && s[i..i + |pat|] == pat
  }

  /** s.rfind(c): the index of the last c in s, or -1. */
  function LastIndexOf(s: string, c: char): (k: int)
    ensures -1 <= k < |s|
    ensures k >= 0 ==> s[k] == c
    ensures forall i :: k < i < |s| ==> s[i] != c
    decreases |s|
  {
    if |s| == 0 then -1
    else if s[|s| - 1] == c then |s| - 1
    else LastIndexOf(s[..|s| - 1], c)
  }

  /** str.isdigit on ASCII: non-empty and made only of decimal digits. */
  predicate IsDigits(s: string) {
    |s| > 0 && forall i :: 0 <= i < |s| ==> '0' <= s[i] <= '9'
  }

  // ---------------------------------------------------------------------------
  // s.split(sep) and sep.join(parts)
  // ---------------------------------------------------------------------------

  /** s.split(sep) for a one-character separator: the separator-free pieces
      between separators, never fewer than one. */
  function Split(s: string, sep: char): (parts: seq<string>)
    ensures |parts| >= 1
    decreases |s|
  {
    if |s| == 0 then [""] else ConsParts(s[0], sep, Split(s[1..], sep))
  }

  /** No part of a split holds the separator. */
  lemma {:induction false} SplitPartsHaveNoSeparator(s: string, sep: char)
    ensures forall i :: 0 <= i < |Split(s, sep)| ==> sep !in Split(s, sep)[i]
    decreases |s|
  {
    if |s| > 0 {
      SplitPartsHaveNoSeparator(s[1..], sep);
      var rest := Split(s[1..], sep);
      if s[0] != sep {
        assert sep !in [s[0]] + rest[0];
      }
    }
  }

  /** sep.join(parts). */
  function Join(parts: seq<string>, sep: string): (r: string)
    ensures |parts| > 0 ==> parts[0] <= r
    decreases |parts|
  {
    if |parts| == 0 then ""
    else if |parts| == 1 then parts[0]
    else parts[0] + sep + Join(parts[1..], sep)
  }

  lemma JoinCons(p: string, parts: seq<string>, sep: string)
    requires |parts| > 0
    ensures Join([p] + parts, sep) == p + sep + Join(parts, sep)
  {
    assert ([p] + parts)[1..] == parts;
  }

  /** Appending a piece to a non-empty list appends the separator and the piece. */
  lemma {:induction false} JoinSnoc(parts: seq<string>, p: string, sep: string)
    requires |parts| > 0
    ensures Join(parts + [p], sep) == Join(parts, sep) + sep + p
    decreases |parts|
  {
    if |parts| == 1 {
      assert parts + [p] == [parts[0]] + [p];
      JoinCons(parts[0], [p], sep);
    } else {
      assert parts + [p] == [parts[0]] + (parts[1..] + [p]);
      JoinCons(parts[0], parts[1..] + [p], sep);
      JoinSnoc(parts[1..], p, sep);
      JoinCons(parts[0], parts[1..], sep);
      assert [parts[0]] + parts[1..] == parts;
    }
  }

  /** Joining the pieces of a split with the same separator gives the text back. */
  lemma {:induction false} JoinSplit(s: string, sep: char)
    ensures Join(Split(s, sep), [sep]) == s
    decreases |s|
  {
    if |s| > 0 {
      var rest := Split(s[1..], sep);
      JoinSplit(s[1..], sep);
      assert s == [s[0]] + s[1..];
      if s[0] == sep {
        JoinCons("", rest, [sep]);
      } else if |rest| > 1 {
        JoinCons([s[0]] + rest[0], rest[1..], [sep]);
        JoinCons(rest[0], rest[1..], [sep]);
        assert [rest[0]] + rest[1..] == rest;
      }
    }
  }

  /** Joining at least four pieces puts the fourth piece onward behind the first
      three and three separators. */
  lemma JoinAfterThree(parts: seq<string>, sep: string)
    requires |parts| > 3
    ensures Join(parts, sep) == parts[0] + sep + parts[1] + sep + parts[2] + sep + Join(parts[3..], sep)
  {
    assert parts[1..][1..] == parts[2..];
    assert parts[2..][1..] == parts[3..];
    assert parts[1..][0] == parts[1] && parts[2..][0] == parts[2];
    calc {
      Join(parts, sep);
      parts[0] + sep + Join(parts[1..], sep);
      parts[0] + sep + (parts[1] + sep + Join(parts[2..], sep));
      parts[0] + sep + (parts[1] + sep + (parts[2] + sep + Join(parts[3..], sep)));
      parts[0] + sep + parts[1] + sep + parts[2] + sep + Join(parts[3..], sep);
    }
  }

  /** Splitting a text that starts with a character: a separator starts a new
      part, any other character joins the first part. */
  lemma SplitCons(c: char, t: string, sep: char)
    ensures Split([c] + t, sep) == ConsParts(c, sep, Split(t, sep))
  {
    assert ([c] + t)[1..] == t;
  }

  /** The parts after a character c, given the parts after it: a separator adds
      an empty part in front, any other character joins the first part. */
  function ConsParts(c: char, sep: char, rest: seq<string>): (parts: seq<string>)
    requires |rest| > 0
    ensures |parts| > 0
  {
    if c == sep then [""] + rest else [[c] + rest[0]] + rest[1..]
  }

  /** Adding a character in front of the parts ra + rb only touches ra. */
  lemma ConsPartsAppend(c: char, sep: char, ra: seq<string>, rb: seq<string>)
    requires |ra| > 0
    ensures ConsParts(c, sep, ra + rb) == ConsParts(c, sep, ra) + rb
  {
    assert (ra + rb)[1..] == ra[1..] + rb;
    assert [""] + (ra + rb) == ([""] + ra) + rb;
  }

  /** A character in front of both a + [sep] + b and a keeps their splits related. */
  lemma SplitAppendStep(c: char, a: string, b: string, sep: char)
    requires Split(a + [sep] + b, sep) == Split(a, sep) + Split(b, sep)
    ensures Split([c] + (a + [sep] + b), sep) == Split([c] + a, sep) + Split(b, sep)
  {
    SplitCons(c, a + [sep] + b, sep);
    SplitCons(c, a, sep);
    ConsPartsAppend(c, sep, Split(a, sep), Split(b, sep));
  }

  /** A separator splits the text into the pieces of its two sides. */
  lemma {:induction false} SplitAppend(a: string, b: string, sep: char)
    ensures Split(a + [sep] + b, sep) == Split(a, sep) + Split(b, sep)
    decreases |a|
  {
    if |a| == 0 {
      assert a + [sep] + b == [sep] + b;
      SplitCons(sep, b, sep);
    } else {
      SplitAppend(a[1..], b, sep);
      SplitAppendStep(a[0], a[1..], b, sep);
      assert a + [sep] + b == [a[0]] + (a[1..] + [sep] + b);
      assert a == [a[0]] + a[1..];
    }
  }

  lemma {:induction false} SplitNoSeparator(s: string, sep: char)
    requires sep !in s
    ensures Split(s, sep) == [s]
    decreases |s|
  {
    if |s| > 0 {
      SplitNoSeparator(s[1..], sep);
      assert s == [s[0]] + s[1..];
    }
  }

  // ---------------------------------------------------------------------------
  // s.split() and ' '.join(s.split())
  // ---------------------------------------------------------------------------

  predicate IsWord(w: string) {
    |w| > 0 && forall i :: 0 <= i < |w| ==> !IsSpace(w[i])
  }

  /** Length of the longest whitespace-free prefix of s. */
  function WordLength(s: string): (n: nat)
    ensures n <= |s|
    ensures forall i :: 0 <= i < n ==> !IsSpace(s[i])
    ensures n < |s| ==> IsSpace(s[n])
    decreases |s|
  {
    if |s| == 0 || IsSpace(s[0]) then 0 else 1 + WordLength(s[1..])
  }

  /** s.split() with no argument: the maximal runs of non-whitespace, in order. */
  function Words(s: string): (ws: seq<string>)
    ensures forall i :: 0 <= i < |ws| ==> IsWord(ws[i])
    decreases |s|
  {
    if |s| == 0 then []
    else if IsSpace(s[0]) then Words(s[1..])
    else
      var n := WordLength(s);
      [s[..n]] + Words(s[n..])
  }

  /** ' '.join(s.split()): the words of s separated by single spaces. */
  function Normalize(s: string): string {
    Join(Words(s), " ")
  }

  /** No whitespace at either end, no whitespace other than ' ', and never two
      whitespace characters in a row. */
  predicate IsNormalized(t: string) {
    && (|t| > 0 ==> !IsSpace(t[0]) && !IsSpace(t[|t| - 1]))
    && (forall i :: 0 <= i < |t| && IsSpace(t[i]) ==> t[i] == ' ')
    && (forall i :: 0 <= i < |t| - 1 && IsSpace(t[i]) ==> !IsSpace(t[i + 1]))
  }

  lemma WordsOfWord(w: string)
    requires IsWord(w)
    ensures Words(w) == [w]
  {
    var n := WordLength(w);
    assert n == |w|;
    assert w[..n] == w;
  }

  lemma WordLengthBeforeSpace(a: string, b: string)
    ensures WordLength(a + " " + b) == WordLength(a)
  {
    var s := a + " " + b;
    assert s[|a|] == ' ';
    assert forall i :: 0 <= i < |a| ==> s[i] == a[i];
  }

  /** A space between two texts separates their words. */
  lemma {:induction false} WordsAroundSpace(a: string, b: string)
    ensures Words(a + " " + b) == Words(a) + Words(b)
    decreases |a|
  {
    var s := a + " " + b;
    if |a| == 0 {
      assert s[1..] == b;
    } else if IsSpace(a[0]) {
      assert s[1..] == a[1..] + " " + b;
      WordsAroundSpace(a[1..], b);
    } else {
      var n := WordLength(a);
      WordLengthBeforeSpace(a, b);
      assert s[..n] == a[..n];
      assert s[n..] == a[n..] + " " + b;
      WordsAroundSpace(a[n..], b);
    }
  }

  /** Words joined by single spaces split back into the same words. */
  lemma {:induction false} WordsOfJoin(ws: seq<string>)
    requires forall i :: 0 <= i < |ws| ==> IsWord(ws[i])
    ensures Words(Join(ws, " ")) == ws
    decreases |ws|
  {
    if |ws| == 1 {
      WordsOfWord(ws[0]);
    } else if |ws| > 1 {
      WordsOfJoin(ws[1..]);
      WordsOfWord(ws[0]);
      WordsAroundSpace(ws[0], Join(ws[1..], " "));
      assert [ws[0]] + ws[1..] == ws;
    }
  }

  /** Words joined by single spaces form a normalized text. */
  lemma {:induction false} JoinedWordsNormalized(ws: seq<string>)
    requires forall i :: 0 <= i < |ws| ==> IsWord(ws[i])
    ensures IsNormalized(Join(ws, " "))
    ensures |ws| > 0 ==> |Join(ws, " ")| > 0
    decreases |ws|
  {
    if |ws| > 1 {
      var w, r := ws[0], Join(ws[1..], " ");
      JoinedWordsNormalized(ws[1..]);
      var t := w + " " + r;
      assert t == Join(ws, " ");
      forall i | 0 <= i < |t| - 1 && IsSpace(t[i])
        ensures !IsSpace(t[i + 1])
      {
        if i > |w| {
          assert t[i] == r[i - |w| - 1] && t[i + 1] == r[i - |w|];
        }
      }
      forall i | 0 <= i < |t| && IsSpace(t[i])
        ensures t[i] == ' '
      {
        if i > |w| {
          assert t[i] == r[i - |w| - 1];
        }
      }
    }
  }

  /** The cleaned text is normalized. */
  lemma NormalizeIsNormalized(s: string)
    ensures IsNormalized(Normalize(s))
  {
    JoinedWordsNormalized(Words(s));
  }

  /** What follows a whitespace character of a normalized text is normalized. */
  lemma NormalizedSuffix(t: string, k: int)
    requires IsNormalized(t) && 0 < k < |t| && IsSpace(t[k - 1])
    ensures IsNormalized(t[k..])
  {
    var rest := t[k..];
    assert rest[0] == t[k];
    assert rest[|rest| - 1] == t[|t| - 1];
    forall i | 0 <= i < |rest| - 1 && IsSpace(rest[i])
      ensures !IsSpace(rest[i + 1])
    {
      assert rest[i] == t[k + i] && rest[i + 1] == t[k + i + 1];
    }
    forall i | 0 <= i < |rest| && IsSpace(rest[i])
      ensures rest[i] == ' '
    {
      assert rest[i] == t[k + i];
    }
  }

  /** A non-empty whitespace-free prefix is a word. */
  lemma WordPrefix(t: string, n: int)
    requires 0 < n <= |t| && forall i :: 0 <= i < n ==> !IsSpace(t[i])
    ensures IsWord(t[..n])
  {
    assert forall i :: 0 <= i < n ==> t[..n][i] == t[i];
  }

  /** A space at n splits t into what precedes and what follows it. */
  lemma SplitAtSpace(t: string, n: int)
    requires 0 <= n < |t| && t[n] == ' '
    ensures t == t[..n] + " " + t[n + 1..]
  {
    assert t == t[..n] + [t[n]] + t[n + 1..];
  }

  /** A normalized text that is not a single word is its first word, a space
      and a normalized non-empty rest. */
  lemma NormalizedTail(t: string)
    requires IsNormalized(t) && WordLength(t) < |t|
    ensures var n := WordLength(t);
      && 0 < n && n + 1 < |t|
      && IsWord(t[..n])
      && t == t[..n] + " " + t[n + 1..]
      && IsNormalized(t[n + 1..])
  {
    var n := WordLength(t);
    assert IsSpace(t[n]);
    assert n != 0 by {
      assert !IsSpace(t[0]);
    }
    assert n != |t| - 1 by {
      assert !IsSpace(t[|t| - 1]);
    }
    assert t[n] == ' ';
    WordPrefix(t, n);
    SplitAtSpace(t, n);
    NormalizedSuffix(t, n + 1);
  }

  /** A normalized text is left unchanged by normalization. */
  lemma {:induction false} NormalizeFixesNormalized(t: string)
    requires IsNormalized(t)
    ensures Normalize(t) == t
    decreases |t|
  {
    if |t| > 0 {
      var n := WordLength(t);
      if n == |t| {
        assert IsWord(t);
        WordsOfWord(t);
      } else {
        NormalizedTail(t);
        var w, rest := t[..n], t[n + 1..];
        WordsAroundSpace(w, rest);
        WordsOfWord(w);
        NormalizeFixesNormalized(rest);
        assert Words(rest) != [] by {
          assert Join([], " ") == "";
        }
        JoinCons(w, Words(rest), " ");
      }
    }
  }

  /** The fixed points of normalization are exactly the normalized texts. */
  lemma NormalizeFixpointIff(t: string)
    ensures Normalize(t) == t <==> IsNormalized(t)
  {
    NormalizeIsNormalized(t);
    if IsNormalized(t) {
      NormalizeFixesNormalized(t);
    }
  }

  /** ' '.join(s.split()) is idempotent. */
  lemma NormalizeIdempotent(s: string)
    ensures Normalize(Normalize(s)) == Normalize(s)
  {
    NormalizeIsNormalized(s);
    NormalizeFixesNormalized(Normalize(s));
  }

  /** The words of each line, concatenated in line order. */
  function WordsOfLines(lines: seq<string>): seq<string>
    decreases |lines|
  {
    if |lines| == 0 then [] else Words(lines[0]) + WordsOfLines(lines[1..])
  }

  /** Joining lines with spaces and splitting on whitespace yields the words
      of every line, in order. */
  lemma {:induction false} WordsOfSpaceJoin(lines: seq<string>)
    ensures Words(Join(lines, " ")) == WordsOfLines(lines)
    decreases |lines|
  {
    if |lines| == 1 {
      assert lines[1..] == [];
    } else if |lines| > 1 {
      WordsOfSpaceJoin(lines[1..]);
      WordsAroundSpace(lines[0], Join(lines[1..], " "));
    }
  }

  /** Normalizing keeps the words and their order. */
  lemma WordsOfNormalize(s: string)
    ensures Words(Normalize(s)) == Words(s)
  {
    WordsOfJoin(Words(s));
  }

  // ---------------------------------------------------------------------------
  // s.replace(pat, "")
  // ---------------------------------------------------------------------------

  /** s.replace(pat, ""): every occurrence of pat found by a left-to-right scan
      without overlap is removed. */
  function RemoveAll(s: string, pat: string): (r: string)
    requires |pat| > 0
    ensures |r| <= |s|
    decreases |s|
  {
    if |s| < |pat| then s
    else if s[..|pat|] == pat then RemoveAll(s[|pat|..], pat)
    else [s[0]] + RemoveAll(s[1..], pat)
  }

  /** Removing a pattern brings in no character the text did not have. */
  lemma {:induction false} RemoveAllWithout(s: string, pat: string, c: char)
    requires |pat| > 0 && c !in s
    ensures c !in RemoveAll(s, pat)
    decreases |s|
  {
    if |s| >= |pat| {
      if s[..|pat|] == pat {
        RemoveAllWithout(s[|pat|..], pat, c);
      } else {
        RemoveAllWithout(s[1..], pat, c);
      }
    }
  }

  /** Without an occurrence at the start, the pattern occurs in s exactly when it
      occurs behind the first character. */
  lemma OccursBehindFirst(s: string, pat: string)
    requires 0 < |pat| <= |s| && !OccursAt(s, pat, 0)
    ensures Occurs(s, pat) <==> Occurs(s[1..], pat)
  {
    if Occurs(s, pat) {
      var i :| 0 <= i <= |s| - |pat| && OccursAt(s, pat, i);
      assert s[1..][i - 1..i - 1 + |pat|] == s[i..i + |pat|];
      assert OccursAt(s[1..], pat, i - 1);
    }
    if Occurs(s[1..], pat) {
      var j :| 0 <= j <= |s| - 1 - |pat| && OccursAt(s[1..], pat, j);
      assert s[1..][j..j + |pat|] == s[j + 1..j + 1 + |pat|];
      assert OccursAt(s, pat, j + 1);
    }
  }

  /** [c] + t is s exactly when c is s's first character and t the rest. */
  lemma ConsEquals(c: char, t: string, s: string)
    requires |s| > 0 && s[0] == c
    ensures [c] + t == s <==> t == s[1..]
  {
    if [c] + t == s {
      assert t == ([c] + t)[1..];
    }
    if t == s[1..] {
      assert s == [s[0]] + s[1..];
    }
  }

  /** Removing a pattern changes the text exactly when the pattern occurs in it. */
  lemma {:induction false} RemoveAllUnchangedIff(s: string, pat: string)
    requires |pat| > 0
    ensures RemoveAll(s, pat) == s <==> !Occurs(s, pat)
    decreases |s|
  {
    if |s| >= |pat| {
      if s[..|pat|] == pat {
        assert OccursAt(s, pat, 0);
      } else {
        RemoveAllUnchangedIff(s[1..], pat);
        assert !OccursAt(s, pat, 0);
        OccursBehindFirst(s, pat);
        ConsEquals(s[0], RemoveAll(s[1..], pat), s);
      }
    }
  }

  /** An occurrence at the start is removed and the scan goes on behind it. */
  lemma RemoveAllLeading(pat: string, t: string)
    requires |pat| > 0
    ensures RemoveAll(pat + t, pat) == RemoveAll(t, pat)
  {
    var s := pat + t;
    assert s[..|pat|] == pat && s[|pat|..] == t;
  }

  /** A first character that cannot start the pattern is kept as it is. */
  lemma RemoveAllAfterChar(c: char, t: string, pat: string)
    requires |pat| > 0 && c != pat[0]
    ensures RemoveAll([c] + t, pat) == [c] + RemoveAll(t, pat)
  {
    var s := [c] + t;
    assert s[1..] == t;
    if |s| < |pat| {
      assert RemoveAll(t, pat) == t;
    }
  }

  /** A text without the pattern's first character cannot hold the pattern, so
      it is kept as it is in front of whatever follows. */
  lemma {:induction false} RemoveAllKeepsPrefix(t: string, rest: string, pat: string)
    requires |pat| > 0 && pat[0] !in t
    ensures RemoveAll(t + rest, pat) == t + RemoveAll(rest, pat)
    decreases |t|
  {
    if |t| == 0 {
      assert t + rest == rest;
    } else {
      assert t + rest == [t[0]] + (t[1..] + rest);
      RemoveAllAfterChar(t[0], t[1..] + rest, pat);
      RemoveAllKeepsPrefix(t[1..], rest, pat);
      assert t == [t[0]] + t[1..];
    }
  }

  /** c * n: n copies of the character c. */
  function Repeat(c: char, n: nat): (r: string)
    ensures |r| == n && forall i :: 0 <= i < n ==> r[i] == c
  {
    if n == 0 then "" else [c] + Repeat(c, n - 1)
  }

  // ---------------------------------------------------------------------------
  // str(n)
  // ---------------------------------------------------------------------------

  function Digit(d: nat): (c: char)
    requires d < 10
    ensures '0' <= c <= '9'
  {
    ('0' as int + d) as char
  }

  /** str(n): the decimal digits of n, most significant first, without leading zeros. */
  function NatToString(n: nat): (s: string)
    ensures |s| >= 1 && IsDigits(s)
    ensures n >= 10 ==> |s| >= 2
    decreases n
  {
    if n < 10 then [Digit(n)] else NatToString(n / 10) + [Digit(n % 10)]
  }

  /** Different numbers have different decimal forms. */
  lemma {:induction false} NatToStringInjective(a: nat, b: nat)
    requires NatToString(a) == NatToString(b)
    ensures a == b
    decreases a
  {
    if a >= 10 && b >= 10 {
      var sa, sb := NatToString(a), NatToString(b);
      assert sa[|sa| - 1] == sb[|sb| - 1];
      assert sa[..|sa| - 1] == NatToString(a / 10);
      assert sb[..|sb| - 1] == NatToString(b / 10);
      NatToStringInjective(a / 10, b / 10);
    }
  }
}

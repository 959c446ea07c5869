/**
 * Models of the few Python `str` operations the application relies on,
 * restricted to ASCII: `strip()`, `lower()`, `title()`, `split()` and the
 * `in` (substring) test.
 */
module PyText {

  /** The ASCII characters for which `str.isspace()` holds. */
  predicate IsSpace(c: char) {
    c == ' ' || (9 <= c as int <= 13) || (28 <= c as int <= 31)
  }

  predicate IsUpper(c: char) { 'A' <= c <= 'Z' }

  predicate IsLower(c: char) { 'a' <= c <= 'z' }

  /** A cased character, in the sense of `str.title()`. */
  predicate IsLetter(c: char) { IsUpper(c) || IsLower(c) }

  function LowerChar(c: char): (d: char)
    ensures IsLetter(d) <==> IsLetter(c)
    ensures !IsUpper(d)
    ensures IsSpace(d) <==> IsSpace(c)
  {
    if IsUpper(c) then (c as int + 32) as char else c
  }

  function UpperChar(c: char): (d: char)
    ensures IsLetter(d) <==> IsLetter(c)
    ensures !IsLower(d)
    ensures IsSpace(d) <==> IsSpace(c)
  {
    if IsLower(c) then (c as int - 32) as char else c
  }

  /** `s.lower()`. */
  function Lower(s: string): (r: string)
    ensures |r| == |s|
    ensures forall i :: 0 <= i < |s| ==> r[i] == LowerChar(s[i])
  {
    seq(|s|, i requires 0 <= i < |s| => LowerChar(s[i]))
  }

  /** Lowering twice is lowering once. */
  lemma LowerIdempotent(s: string)
    ensures Lower(Lower(s)) == Lower(s)
  {
  }

  /** A string without capitals is its own `lower()`. */
  lemma LowerOfLowercase(s: string)
    requires forall i :: 0 <= i < |s| ==> !IsUpper(s[i])
    ensures Lower(s) == s
  {
  }

  /** `s.replace(from, to)` for single characters. */
  function ReplaceChar(s: string, from: char, to: char): (r: string)
    ensures |r| == |s|
    ensures forall i :: 0 <= i < |s| ==> r[i] == if s[i] == from then to else s[i]
  {
    seq(|s|, i requires 0 <= i < |s| => if s[i] == from then to else s[i])
  }

  /** Replacing a character that does not occur changes nothing. */
  lemma ReplaceAbsent(s: string, from: char, to: char)
    requires forall i :: 0 <= i < |s| ==> s[i] != from
    ensures ReplaceChar(s, from, to) == s
  {
  }

  /** `s.lstrip()`. */
  function TrimLeft(s: string): (r: string)
    ensures |r| <= |s|
    ensures r != [] ==> !IsSpace(r[0])
  {
    if s != [] && IsSpace(s[0]) then TrimLeft(s[1..]) else s
  }

  /** `lstrip()` removes exactly the leading white space. */
  lemma {:induction false} TrimLeftRemovesLeadingSpace(s: string)
    ensures var r := TrimLeft(s);
      r == s[|s| - |r|..] && forall i :: 0 <= i < |s| - |r| ==> IsSpace(s[i])
  {
    if s != [] && IsSpace(s[0]) {
      TrimLeftRemovesLeadingSpace(s[1..]);
    }
  }

  /** `s.rstrip()`. */
  function TrimRight(s: string): (r: string)
    ensures |r| <= |s|
    ensures r != [] ==> !IsSpace(r[|r| - 1]) && r[0] == s[0]
  {
    if s != [] && IsSpace(s[|s| - 1]) then TrimRight(s[..|s| - 1]) else s
  }

  /** `rstrip()` removes exactly the trailing white space. */
  lemma {:induction false} TrimRightRemovesTrailingSpace(s: string)
    ensures var r := TrimRight(s);
      r == s[..|r|] && forall i :: |r| <= i < |s| ==> IsSpace(s[i])
  {
    if s != [] && IsSpace(s[|s| - 1]) {
      TrimRightRemovesTrailingSpace(s[..|s| - 1]);
    }
  }

  /** `s.strip()`: the longest middle part with no white space at either end. */
  function Strip(s: string): (r: string)
    ensures r != [] ==> !IsSpace(r[0]) && !IsSpace(r[|r| - 1])
    ensures |r| <= |s|
  {
    TrimRight(TrimLeft(s))
  }

  /** A string of white space strips to "". */
  lemma StripBlank(s: string)
    requires forall i :: 0 <= i < |s| ==> IsSpace(s[i])
    ensures Strip(s) == ""
  {
    TrimLeftRemovesLeadingSpace(s);
  }

  /** A string with no white space at either end is its own `strip()`. */
  lemma StripUnchanged(s: string)
    requires s != [] ==> !IsSpace(s[0]) && !IsSpace(s[|s| - 1])
    ensures Strip(s) == s
  {
  }

  /**
   * `s.title()`: a cased character is upper-cased when the character before
   * it is not cased (or there is none) and lower-cased when it is.
   */
  function Title(s: string): (r: string)
    ensures |r| == |s|
    ensures forall i :: 0 <= i < |s| ==> (IsLetter(r[i]) <==> IsLetter(s[i]))
    ensures forall i :: 0 <= i < |s| ==> (IsSpace(r[i]) <==> IsSpace(s[i]))
  {
    seq(|s|, i requires 0 <= i < |s| => if i > 0 && IsLetter(s[i - 1]) then LowerChar(s[i]) else UpperChar(s[i]))
  }

  /**
   * Which characters `title()` changes: a letter becomes a capital exactly
   * when no letter precedes it, and otherwise lower-case; a letter keeps
   * its identity up to case, and every other character is left as it is.
   */
  lemma TitleCasesWordStarts(s: string)
    ensures forall i :: 0 <= i < |s| && IsLetter(s[i]) ==>
      (IsUpper(Title(s)[i]) <==> i == 0 || !IsLetter(s[i - 1]))
    ensures forall i :: 0 <= i < |s| ==> LowerChar(Title(s)[i]) == LowerChar(s[i])
    ensures forall i :: 0 <= i < |s| && !IsLetter(s[i]) ==> Title(s)[i] == s[i]
  {
    var r := Title(s);
    forall i | 0 <= i < |s|
      ensures IsLetter(s[i]) ==> (IsUpper(r[i]) <==> i == 0 || !IsLetter(s[i - 1]))
      ensures LowerChar(r[i]) == LowerChar(s[i])
      ensures !IsLetter(s[i]) ==> r[i] == s[i]
    {
      assert r[i] == if i > 0 && IsLetter(s[i - 1]) then LowerChar(s[i]) else UpperChar(s[i]);
    }
  }

  /** Title-casing a title-cased string changes nothing. */
  lemma TitleIdempotent(s: string)
    ensures Title(Title(s)) == Title(s)
  {
  }

  /** A word of one capital followed by lower-case letters is already title-cased. */
  lemma TitleOfCapitalized(s: string)
    requires s != [] && IsUpper(s[0])
    requires forall i :: 1 <= i < |s| ==> IsLower(s[i])
    ensures Title(s) == s && Strip(s) == s
  {
    CapitalizedKeepsTitle(s);
    StripUnchanged(s);
  }

  lemma CapitalizedKeepsTitle(s: string)
    requires s != [] && IsUpper(s[0])
    requires forall i :: 1 <= i < |s| ==> IsLower(s[i])
    ensures Title(s) == s
  {
    forall i | 0 <= i < |s| ensures Title(s)[i] == s[i] {
      if i > 0 {
        assert IsLetter(s[i - 1]) && IsLower(s[i]);
      }
    }
  }

  /** Title-casing keeps a string free of white space at its ends. */
  lemma TitleKeepsEnds(s: string)
    requires s != [] ==> !IsSpace(s[0]) && !IsSpace(s[|s| - 1])
    ensures var t := Title(s); t != [] ==> !IsSpace(t[0]) && !IsSpace(t[|t| - 1])
  {
  }

  /** `needle` occurs in `hay` starting at index `i`. */
  predicate OccursAt(hay: string, needle: string, i: nat) {
    i + |needle| <= |hay| && hay[i..i + |needle|] == needle
  }

  /** A stripped and title-cased string is its own strip and its own title. */
  lemma StrippedTitleIsStable(s: string)
    ensures var t := Title(Strip(s)); Title(t) == t && Strip(t) == t
  {
    TitleIdempotent(Strip(s));
    TitleKeepsEnds(Strip(s));
    StripUnchanged(Title(Strip(s)));
  }

  /** Python's `needle in hay` for strings: `needle` occurs as a contiguous part of `hay`. */
  function Contains(hay: string, needle: string): (r: bool)
    ensures r <==> exists i: nat :: OccursAt(hay, needle, i)
    ensures r ==> |needle| <= |hay|
    ensures needle == [] ==> r
    decreases |hay|
  {
    if |needle| > |hay| then false
    else if hay[..|needle|] == needle then
      assert OccursAt(hay, needle, 0);
      true
    else
      var r := Contains(hay[1..], needle);
      assert r ==> exists i: nat :: OccursAt(hay, needle, i) by {
        if r {
          var j: nat :| OccursAt(hay[1..], needle, j);
          assert hay[j + 1..j + 1 + |needle|] == hay[1..][j..j + |needle|];
          assert OccursAt(hay, needle, j + 1);
        }
      }
      assert (exists i: nat :: OccursAt(hay, needle, i)) ==> r by {
        if exists i: nat :: OccursAt(hay, needle, i) {
          var i: nat :| OccursAt(hay, needle, i);
          assert i != 0;
          assert hay[1..][i - 1..i - 1 + |needle|] == hay[i..i + |needle|];
          assert OccursAt(hay[1..], needle, i - 1);
        }
      }
      r
  }

  /** Length of the run of non-space characters at the start of `s`. */
  function WordLength(s: string): (n: nat)
    ensures n <= |s|
    ensures forall i :: 0 <= i < n ==> !IsSpace(s[i])
    ensures n < |s| ==> IsSpace(s[n])
  {
    if s == [] || IsSpace(s[0]) then 0 else 1 + WordLength(s[1..])
  }

  /** `s.split()` with no separator: the maximal runs of non-space characters. */
  function Split(s: string): (words: seq<string>)
    ensures |words| <= |s|
    decreases |s|
  {
    if s == [] then []
    else if IsSpace(s[0]) then Split(s[1..])
    else
      var n := WordLength(s);
      [s[..n]] + Split(s[n..])
  }

  /** Every word of `split()` is non-empty and free of white space. */
  lemma {:induction false} SplitWordsAreWords(s: string)
    ensures forall w :: w in Split(s) ==> w != [] && forall i :: 0 <= i < |w| ==> !IsSpace(w[i])
    decreases |s|
  {
    if s != [] {
      if IsSpace(s[0]) {
        SplitWordsAreWords(s[1..]);
      } else {
        SplitWordsAreWords(s[WordLength(s)..]);
      }
    }
  }

  /** The run of non-space characters at the start of `a` ends where `a` does when white space follows it. */
  lemma WordLengthBeforeSpace(a: string, t: string)
    requires t != [] && IsSpace(t[0])
    ensures WordLength(a + t) == WordLength(a)
  {
    var n, m := WordLength(a + t), WordLength(a);
    assert IsSpace((a + t)[m]) by {
      assert (a + t)[m] == if m < |a| then a[m] else t[0];
    }
    assert forall i :: 0 <= i < m ==> (a + t)[i] == a[i];
  }

  /**
   * White space separates words: the words of `a`, a white-space
   * character and `b` are the words of `a` followed by the words of `b`.
   * With `Split("") == []` and `SplitSingleWord`, this determines `split()`
   * on every string.
   */
  lemma {:induction false} SplitAtSpace(a: string, c: char, b: string)
    requires IsSpace(c)
    ensures Split(a + [c] + b) == Split(a) + Split(b)
    decreases |a|, 1
  {
    if a == [] {
      assert a + [c] + b == [c] + b && ([c] + b)[1..] == b;
    } else if IsSpace(a[0]) {
      SplitAtSpaceAfterSpace(a, c, b);
    } else {
      SplitAtSpaceAfterWord(a, c, b);
    }
  }

  /** `SplitAtSpace` when `a` starts with white space. */
  lemma {:induction false} SplitAtSpaceAfterSpace(a: string, c: char, b: string)
    requires IsSpace(c) && a != [] && IsSpace(a[0])
    ensures Split(a + [c] + b) == Split(a) + Split(b)
    decreases |a|, 0
  {
    assert (a + [c] + b)[1..] == a[1..] + [c] + b;
    SplitAtSpace(a[1..], c, b);
  }

  /** `SplitAtSpace` when `a` starts with a word. */
  lemma {:induction false} SplitAtSpaceAfterWord(a: string, c: char, b: string)
    requires IsSpace(c) && a != [] && !IsSpace(a[0])
    ensures Split(a + [c] + b) == Split(a) + Split(b)
    decreases |a|, 0
  {
    var n := WordLength(a);
    var w, rest := a[..n], a[n..];
    SplitAfterWord(a, c, b);
    SplitAtSpace(rest, c, b);
    assert [w] + (Split(rest) + Split(b)) == ([w] + Split(rest)) + Split(b);
  }

  /** The first word of `a` is also the first word of `a`, white space and `b`. */
  lemma SplitAfterWord(a: string, c: char, b: string)
    requires IsSpace(c) && a != [] && !IsSpace(a[0])
    ensures var n := WordLength(a);
      Split(a + [c] + b) == [a[..n]] + Split(a[n..] + [c] + b) && Split(a) == [a[..n]] + Split(a[n..])
  {
    var s, n := a + [c] + b, WordLength(a);
    assert s == a + ([c] + b);
    WordLengthBeforeSpace(a, [c] + b);
    assert s[..n] == a[..n];
    assert s[n..] == a[n..] + [c] + b;
  }

  /** A string without white space is split into itself alone. */
  lemma {:induction false} SplitSingleWord(s: string)
    requires s != []
    requires forall i :: 0 <= i < |s| ==> !IsSpace(s[i])
    ensures Split(s) == [s]
  {
    var n := WordLength(s);
    assert n == |s|;
    assert s[..n] == s && s[n..] == [];
  }
}

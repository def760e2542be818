/** The string predicates the services rely on: Java's `String.trim`,
    Spring's `StringUtils.hasText`, `startsWith`, and case-insensitive
    comparison.  Case folding covers the ASCII letters only. */
module Text {
  import opened Outcomes

  /** `Character.isWhitespace`: the Unicode space, line and paragraph
      separators except the non-breaking ones, plus the ASCII controls
      U+0009..U+000D and U+001C..U+001F. */
  predicate IsWhitespace(c: char)
  {
    || ('\U{9}' <= c <= '\U{D}')
    || ('\U{1C}' <= c <= ' ')
    || c == '\U{1680}'
    || ('\U{2000}' <= c <= '\U{2006}')
    || ('\U{2008}' <= c <= '\U{200A}')
    || c == '\U{2028}' || c == '\U{2029}' || c == '\U{205F}' || c == '\U{3000}'
  }

  /** `StringUtils.hasText`: not null and some character is not whitespace. */
  predicate HasText(s: Option<string>)
  {
    s.Some? && exists i :: 0 <= i < |s.value| && !IsWhitespace(s.value[i])
  }

  /** `String.trim` removes every leading code point up to U+0020 ... */
  function TrimStart(s: string): (r: string)
    ensures |r| <= |s|
    ensures r == [] || r[0] > ' '
  {
    if s == [] || s[0] > ' ' then s else TrimStart(s[1..])
  }

  /** ... and every trailing one. */
  function TrimEnd(s: string): (r: string)
    ensures |r| <= |s|
    ensures r == [] || r[|r| - 1] > ' '
  {
    if s == [] || s[|s| - 1] > ' ' then s else TrimEnd(s[..|s| - 1])
  }

  function Trim(s: string): (r: string)
    ensures |r| <= |s|
    ensures r == [] || (r[0] > ' ' && r[|r| - 1] > ' ')
  {
    var t := TrimStart(s);
    TrimEndPrefix(t);
    TrimEnd(t)
  }

  /** What `TrimStart` keeps is a suffix of its input ... */
  lemma {:induction false} TrimStartSuffix(s: string)
    ensures TrimStart(s) == s[|s| - |TrimStart(s)|..]
    decreases |s|
  {
    if s != [] && s[0] <= ' ' {
      TrimStartSuffix(s[1..]);
      assert s[1..][|s| - 1 - |TrimStart(s)|..] == s[|s| - |TrimStart(s)|..];
    }
  }

  /** ... what `TrimEnd` keeps is a prefix ... */
  lemma {:induction false} TrimEndPrefix(s: string)
    ensures TrimEnd(s) == s[..|TrimEnd(s)|]
    decreases |s|
  {
    if s != [] && s[|s| - 1] <= ' ' {
      TrimEndPrefix(s[..|s| - 1]);
      assert s[..|s| - 1][..|TrimEnd(s)|] == s[..|TrimEnd(s)|];
    }
  }

  /** ... so what `trim()` keeps is a slice of its input, starting where the
      leading blanks end. */
  lemma TrimInfix(s: string)
    ensures var a := |s| - |TrimStart(s)|;
            a + |Trim(s)| <= |s| && Trim(s) == s[a..a + |Trim(s)|]
  {
    var t := TrimStart(s);
    var a := |s| - |t|;
    TrimStartSuffix(s);
    TrimEndPrefix(t);
    assert t[..|Trim(s)|] == s[a..a + |Trim(s)|];
  }

  /** Only code points up to U+0020 are removed from the front ... */
  lemma {:induction false} TrimStartDropsBlanks(s: string)
    ensures forall i :: 0 <= i < |s| - |TrimStart(s)| ==> s[i] <= ' '
    decreases |s|
  {
    if s != [] && s[0] <= ' ' {
      TrimStartDropsBlanks(s[1..]);
      assert forall i :: 1 <= i < |s| - |TrimStart(s)| ==> s[i] == s[1..][i - 1];
    }
  }

  /** ... and from the back. */
  lemma {:induction false} TrimEndDropsBlanks(s: string)
    ensures forall i :: |TrimEnd(s)| <= i < |s| ==> s[i] <= ' '
    decreases |s|
  {
    if s != [] && s[|s| - 1] <= ' ' {
      TrimEndDropsBlanks(s[..|s| - 1]);
      assert forall i :: |TrimEnd(s)| <= i < |s| - 1 ==> s[i] == s[..|s| - 1][i];
    }
  }

  /** No code point above U+0020: what `trim()` reduces to the empty
      string (TrimEmpty). */
  predicate AllBlank(s: string)
  {
    forall i :: 0 <= i < |s| ==> s[i] <= ' '
  }

  lemma TrimEmpty(s: string)
    ensures Trim(s) == [] <==> AllBlank(s)
  {
    var t := TrimStart(s);
    TrimStartSuffix(s);
    TrimStartDropsBlanks(s);
    TrimEndDropsBlanks(t);
    if t != [] {
      assert s[|s| - |t|] == t[0];
    }
    if TrimEnd(t) == [] {
      assert t == [];
    }
  }

  /** `s == null || s.trim().isEmpty()` */
  predicate IsBlank(s: Option<string>)
  {
    s.None? || AllBlank(s.value)
  }

  predicate StartsWith(s: string, prefix: string)
  {
    prefix <= s
  }

  function Lower(c: char): (d: char)
    ensures 'A' <= c <= 'Z' ==> d as int == c as int + 32
    ensures !('A' <= c <= 'Z') ==> d == c
  {
    if 'A' <= c <= 'Z' then (c as int + 32) as char else c
  }

  function FoldCase(s: string): (r: string)
    ensures |r| == |s| && forall i :: 0 <= i < |s| ==> r[i] == Lower(s[i])
  {
    seq(|s|, i requires 0 <= i < |s| => Lower(s[i]))
  }

  predicate EqualsIgnoreCase(a: string, b: string)
  {
    FoldCase(a) == FoldCase(b)
  }

  predicate OccursIgnoreCaseAt(hay: string, needle: string, i: int)
  {
    0 <= i && i + |needle| <= |hay| && FoldCase(hay[i..i + |needle|]) == FoldCase(needle)
  }

  /** SQL `UPPER(name) LIKE UPPER('%query%')`. */
  predicate ContainsIgnoreCase(hay: string, needle: string)
  {
    exists i :: 0 <= i <= |hay| && OccursIgnoreCaseAt(hay, needle, i)
  }

  // ---------------------------------------------------------------------
  // Trimming and case folding.

  lemma TrimIdempotent(s: string)
    ensures Trim(Trim(s)) == Trim(s)
  {
    var t := Trim(s);
    assert TrimStart(t) == t;
    assert TrimEnd(t) == t;
  }

  lemma FoldCaseIdempotent(s: string)
    ensures FoldCase(FoldCase(s)) == FoldCase(s)
  {
  }

  /** Folding case never turns a blank into a non-blank or back. */
  lemma {:induction false} TrimStartFoldCase(s: string)
    ensures TrimStart(FoldCase(s)) == FoldCase(TrimStart(s))
    decreases |s|
  {
    if s != [] && s[0] <= ' ' {
      assert FoldCase(s)[1..] == FoldCase(s[1..]);
      TrimStartFoldCase(s[1..]);
    }
  }

  lemma {:induction false} TrimEndFoldCase(s: string)
    ensures TrimEnd(FoldCase(s)) == FoldCase(TrimEnd(s))
    decreases |s|
  {
    if s != [] && s[|s| - 1] <= ' ' {
      assert FoldCase(s)[..|s| - 1] == FoldCase(s[..|s| - 1]);
      TrimEndFoldCase(s[..|s| - 1]);
    }
  }

  lemma TrimFoldCase(s: string)
    ensures Trim(FoldCase(s)) == FoldCase(Trim(s))
  {
    TrimStartFoldCase(s);
    TrimEndFoldCase(TrimStart(s));
  }

  /** Only the case of the needle's letters matters to a search. */
  lemma ContainsFoldedNeedle(hay: string, needle: string)
    ensures ContainsIgnoreCase(hay, needle) <==> ContainsIgnoreCase(hay, FoldCase(needle))
  {
    FoldCaseIdempotent(needle);
    forall i | 0 <= i <= |hay|
      ensures OccursIgnoreCaseAt(hay, needle, i) == OccursIgnoreCaseAt(hay, FoldCase(needle), i)
    {
    }
  }

  /** Strings with the same fold keep the same fold when trimmed. */
  lemma TrimSameFold(a: string, b: string)
    requires FoldCase(a) == FoldCase(b)
    ensures FoldCase(Trim(a)) == FoldCase(Trim(b))
    ensures |Trim(a)| == |Trim(b)|
  {
    TrimFoldCase(a);
    TrimFoldCase(b);
    assert |Trim(a)| == |FoldCase(Trim(a))| == |FoldCase(Trim(b))| == |Trim(b)|;
  }

  /** A string contains, ignoring case, the trimmed form of anything that
      folds to its own fold: the blanks `trim()` drops are around the part
      that still matches. */
  lemma ContainsTrimmedFold(hay: string, q: string)
    requires FoldCase(q) == FoldCase(hay)
    ensures |Trim(q)| == |Trim(hay)|
    ensures ContainsIgnoreCase(hay, Trim(q))
  {
    TrimSameFold(q, hay);
    var needle := Trim(q);
    TrimInfix(hay);
    var a := |hay| - |TrimStart(hay)|;
    assert hay[a..a + |needle|] == Trim(hay);
    assert OccursIgnoreCaseAt(hay, needle, a);
  }
}

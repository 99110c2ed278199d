/** The few Python string operations the coordinate parser and the query
    builder rely on: `str.strip()`, `str.split(c)`, `str.split()` and
    `sep.join(parts)`, written out over `seq<char>`. */
module Text {

  /** Python's `str.isspace()` for a single character: the ASCII blanks,
      the information separators 0x1C-0x1F and the Unicode space separators. */
  predicate IsSpace(c: char)
  {
    c == ' ' || c == '\t' || c == '\n' || c == '\r' || c == '\U{0B}' || c == '\U{0C}'
    || ('\U{1C}' <= c <= '\U{1F}') || c == '\U{85}' || c == '\U{A0}' || c == '\U{1680}'
    || ('\U{2000}' <= c <= '\U{200A}') || c == '\U{2028}' || c == '\U{2029}'
    || c == '\U{202F}' || c == '\U{205F}' || c == '\U{3000}'
  }

  predicate AllSpace(s: string)
  {
    forall k :: 0 <= k < |s| ==> IsSpace(s[k])
  }

  predicate NoSpace(s: string)
  {
    forall k :: 0 <= k < |s| ==> !IsSpace(s[k])
  }

  /** `s.lstrip()`. */
  function TrimLeft(s: string): string
  {
    if s != [] && IsSpace(s[0]) then TrimLeft(s[1..]) else s
  }

  /** `s.rstrip()`. */
  function TrimRight(s: string): string
  {
    if s != [] && IsSpace(s[|s| - 1]) then TrimRight(s[..|s| - 1]) else s
  }

  /** `lstrip` drops exactly the leading run of whitespace: what is left is
      a suffix that starts with a non-blank, or nothing. */
  lemma {:induction false} TrimLeftSpec(s: string)
    ensures var r := TrimLeft(s);
      |r| <= |s| && r == s[|s| - |r|..] && AllSpace(s[..|s| - |r|]) && (r == [] || !IsSpace(r[0]))
  {
    if s != [] && IsSpace(s[0]) {
      TrimLeftSpec(s[1..]);
      var r := TrimLeft(s);
      assert s[..|s| - |r|] == [s[0]] + s[1..][..|s| - 1 - |r|];
    }
  }

  /** `rstrip` drops exactly the trailing run of whitespace: what is left is
      a prefix that ends with a non-blank, or nothing. */
  lemma {:induction false} TrimRightSpec(s: string)
    ensures var r := TrimRight(s);
      |r| <= |s| && r == s[..|r|] && AllSpace(s[|r|..]) && (r == [] || !IsSpace(r[|r| - 1]))
  {
    if s != [] && IsSpace(s[|s| - 1]) {
      var front := s[..|s| - 1];
      TrimRightSpec(front);
      var r := TrimRight(s);
      assert s[|r|..] == front[|r|..] + [s[|s| - 1]];
    }
  }

  /** `s.strip()`. */
  function Strip(s: string): string
  {
    TrimRight(TrimLeft(s))
  }

  /** Stripping leaves nothing exactly when the text is all whitespace. */
  lemma {:induction false} StripEmptyIffAllSpace(s: string)
    ensures Strip(s) == [] <==> AllSpace(s)
  {
    var t := TrimLeft(s);
    TrimLeftSpec(s);
    TrimRightSpec(t);
    assert s == s[..|s| - |t|] + t;
    if t != [] {
      assert !IsSpace(t[0]);
      assert !IsSpace(s[|s| - |t|]);
    } else {
      assert s == s[..|s|];
    }
  }

  /** Stripping a text that is not all whitespace leaves a text that starts
      and ends with a non-blank. */
  lemma {:induction false} StripNotBlank(s: string)
    requires !AllSpace(s)
    ensures Strip(s) != [] && !IsSpace(Strip(s)[0]) && !IsSpace(Strip(s)[|Strip(s)| - 1])
  {
    StripEmptyIffAllSpace(s);
    var t := TrimLeft(s);
    TrimLeftSpec(s);
    TrimRightSpec(t);
  }

  /** A string whose first and last characters are not whitespace is its own strip. */
  lemma {:induction false} StripOfTrimmed(s: string)
    requires s != [] && !IsSpace(s[0]) && !IsSpace(s[|s| - 1])
    ensures Strip(s) == s
  {
    TrimLeftSpec(s);
    TrimRightSpec(s);
  }

  /** A non-empty string that is its own strip starts and ends with a non-blank. */
  lemma {:induction false} StrippedEnds(s: string)
    requires s != [] && Strip(s) == s
    ensures !IsSpace(s[0]) && !IsSpace(s[|s| - 1])
  {
    var t := TrimLeft(s);
    TrimLeftSpec(s);
    TrimRightSpec(t);
    assert |TrimRight(t)| <= |t| <= |s|;
    assert t == s;
  }

  /** Number of occurrences of `c` in `s`. */
  function Count(s: string, c: char): nat
  {
    if s == [] then 0 else (if s[0] == c then 1 else 0) + Count(s[1..], c)
  }

  lemma {:induction false} CountZero(s: string, c: char)
    ensures Count(s, c) == 0 <==> c !in s
  {
    if s != [] {
      CountZero(s[1..], c);
      assert s == [s[0]] + s[1..];
    }
  }

  /** `s.split(c)` for a one-character separator: the pieces between
      consecutive occurrences of `c`, one more than there are separators. */
  function Split(s: string, c: char): (r: seq<string>)
    ensures |r| == Count(s, c) + 1
    ensures forall k :: 0 <= k < |r| ==> c !in r[k]
  {
    if s == [] then [[]]
    else
      var rest := Split(s[1..], c);
      if s[0] == c then [[]] + rest else [[s[0]] + rest[0]] + rest[1..]
  }

  /** `sep.join(parts)`. */
  function Join(parts: seq<string>, sep: string): string
  {
    if parts == [] then []
    else if |parts| == 1 then parts[0]
    else parts[0] + sep + Join(parts[1..], sep)
  }

  /** Putting a character in front of the first part puts it in front of the join. */
  lemma {:induction false} JoinPrepend(x: char, parts: seq<string>, sep: string)
    requires parts != []
    ensures Join([[x] + parts[0]] + parts[1..], sep) == [x] + Join(parts, sep)
  {
    var r := [[x] + parts[0]] + parts[1..];
    assert r[0] == [x] + parts[0] && r[1..] == parts[1..];
    if |parts| > 1 {
      JoinCons(parts, sep);
      JoinCons(r, sep);
    }
  }

  /** Joining the pieces of a split with the separator restores the text. */
  lemma {:induction false} JoinSplit(s: string, c: char)
    ensures Join(Split(s, c), [c]) == s
  {
    if s != [] {
      var rest := Split(s[1..], c);
      JoinSplit(s[1..], c);
      if s[0] == c {
        JoinCons([[]] + rest, [c]);
        assert ([[]] + rest)[1..] == rest;
      } else {
        JoinPrepend(s[0], rest, [c]);
      }
      assert s == [s[0]] + s[1..];
    }
  }

  /** A piece free of the separator, followed by the separator, splits off as one piece. */
  lemma {:induction false} SplitAfterPiece(a: string, c: char, b: string)
    requires c !in a
    ensures Split(a + [c] + b, c) == [a] + Split(b, c)
  {
    if a == [] {
      assert a + [c] + b == [c] + b;
      assert ([c] + b)[1..] == b;
    } else {
      SplitAfterPiece(a[1..], c, b);
      assert (a + [c] + b)[1..] == a[1..] + [c] + b;
      assert a == [a[0]] + a[1..];
    }
  }

  lemma {:induction false} SplitNoSeparator(a: string, c: char)
    requires c !in a
    ensures Split(a, c) == [a]
  {
    if a != [] {
      SplitNoSeparator(a[1..], c);
      assert a == [a[0]] + a[1..];
    }
  }

  /** Splitting a join restores the parts when no part holds the separator. */
  lemma {:induction false} SplitJoin(parts: seq<string>, c: char)
    requires parts != []
    requires forall k :: 0 <= k < |parts| ==> c !in parts[k]
    ensures Split(Join(parts, [c]), c) == parts
  {
    if |parts| == 1 {
      SplitNoSeparator(parts[0], c);
    } else {
      SplitJoin(parts[1..], c);
      SplitAfterPiece(parts[0], c, Join(parts[1..], [c]));
      assert parts == [parts[0]] + parts[1..];
    }
  }

  /** The longest prefix of `s` with no whitespace in it. */
  function Word(s: string): (w: string)
    ensures |w| <= |s| && w == s[..|w|] && NoSpace(w)
    ensures |w| == |s| || IsSpace(s[|w|])
  {
    if s == [] || IsSpace(s[0]) then [] else [s[0]] + Word(s[1..])
  }

  /** `s.split()` with no argument: the maximal runs of non-whitespace. */
  function SplitWhitespace(s: string): (r: seq<string>)
    ensures forall k :: 0 <= k < |r| ==> r[k] != [] && NoSpace(r[k])
    decreases |s|
  {
    TrimLeftSpec(s);
    var t := TrimLeft(s);
    if t == [] then []
    else
      var w := Word(t);
      [w] + SplitWhitespace(t[|w|..])
  }

  /** `s.split()` is empty exactly when `s` is all whitespace. */
  lemma {:induction false} SplitWhitespaceEmpty(s: string)
    ensures SplitWhitespace(s) == [] <==> AllSpace(s)
  {
    var t := TrimLeft(s);
    TrimLeftSpec(s);
    assert s == s[..|s| - |t|] + t;
    if t == [] {
      assert s == s[..|s|];
    } else {
      assert !IsSpace(s[|s| - |t|]);
    }
  }

  lemma {:induction false} WordOf(w: string, rest: string)
    requires NoSpace(w)
    requires rest == [] || IsSpace(rest[0])
    ensures Word(w + rest) == w
  {
    if w != [] {
      WordOf(w[1..], rest);
      assert (w + rest)[1..] == w[1..] + rest;
      assert w == [w[0]] + w[1..];
    }
  }

  /** A word followed by whitespace (or nothing) is the first token of `split()`. */
  lemma {:induction false} SplitWhitespaceWord(w: string, rest: string)
    requires w != [] && NoSpace(w)
    requires rest == [] || IsSpace(rest[0])
    ensures SplitWhitespace(w + rest) == [w] + SplitWhitespace(rest)
  {
    WordOf(w, rest);
    assert (w + rest)[0] == w[0];
    assert (w + rest)[|w|..] == rest;
  }

  /** Any leading whitespace character, not only a space, is skipped by `split()`. */
  lemma {:induction false} SplitWhitespaceLeadingSpace(c: char, s: string)
    requires IsSpace(c)
    ensures SplitWhitespace([c] + s) == SplitWhitespace(s)
  {
    assert ([c] + s)[1..] == s;
  }

  /** Two words separated by any one whitespace character (a tab, a newline,
      a no-break space, ...) split into exactly those two words. */
  lemma {:induction false} SplitWhitespaceTwoWords(w: string, c: char, v: string)
    requires w != [] && NoSpace(w) && v != [] && NoSpace(v) && IsSpace(c)
    ensures SplitWhitespace(w + [c] + v) == [w, v]
  {
    assert w + [c] + v == w + ([c] + v);
    SplitWhitespaceWord(w, [c] + v);
    SplitWhitespaceLeadingSpace(c, v);
    SplitWhitespaceWord(v, []);
    assert v + [] == v;
    SplitWhitespaceEmpty([]);
  }

  /** `[t0, x, t1, x, ..., tn]`: the parts with `x` between each pair. */
  function Interleave(parts: seq<string>, x: string): (r: seq<string>)
    ensures |r| == if parts == [] then 0 else 2 * |parts| - 1
  {
    if |parts| <= 1 then parts else [parts[0]] + ([x] + Interleave(parts[1..], x))
  }

  lemma {:induction false} SplitWhitespaceOrWord(st: string)
    requires st != [] && st[0] == ' '
    ensures SplitWhitespace("OR" + st) == ["OR"] + SplitWhitespace(st)
  {
    assert NoSpace("OR");
    SplitWhitespaceWord("OR", st);
  }

  /** `" OR "` in front of a text adds the one token `"OR"` to its `split()`. */
  lemma {:induction false} SplitWhitespaceOr(tail: string)
    ensures SplitWhitespace(" OR " + tail) == ["OR"] + SplitWhitespace(tail)
  {
    var st := " " + tail;
    var ot := "OR" + st;
    assert " OR " + tail == " " + ot;
    SplitWhitespaceLeadingSpace(' ', ot);
    SplitWhitespaceOrWord(st);
    SplitWhitespaceLeadingSpace(' ', tail);
  }

  lemma {:induction false} SplitWhitespaceWordOr(w: string, tail: string)
    requires w != [] && NoSpace(w)
    ensures SplitWhitespace(w + (" OR " + tail)) == [w] + (["OR"] + SplitWhitespace(tail))
  {
    SplitWhitespaceWord(w, " OR " + tail);
    SplitWhitespaceOr(tail);
  }

  lemma {:induction false} JoinCons(parts: seq<string>, sep: string)
    requires |parts| >= 2
    ensures Join(parts, sep) == parts[0] + (sep + Join(parts[1..], sep))
  {
  }

  lemma {:induction false} SplitWhitespaceSingle(w: string)
    requires w != [] && NoSpace(w)
    ensures SplitWhitespace(w) == [w]
  {
    SplitWhitespaceWord(w, []);
    assert w + [] == w;
  }

  /** Words joined with `" OR "` split back (on whitespace) into the same
      words with `"OR"` between them: the query names exactly those words. */
  lemma {:induction false} SplitWhitespaceJoinOr(words: seq<string>)
    requires forall k :: 0 <= k < |words| ==> words[k] != [] && NoSpace(words[k])
    ensures SplitWhitespace(Join(words, " OR ")) == Interleave(words, "OR")
  {
    if words == [] {
    } else if |words| == 1 {
      SplitWhitespaceSingle(words[0]);
    } else {
      SplitWhitespaceJoinOr(words[1..]);
      JoinCons(words, " OR ");
      SplitWhitespaceWordOr(words[0], Join(words[1..], " OR "));
    }
  }
}

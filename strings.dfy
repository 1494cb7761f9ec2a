/** The string operations of Python's `str` that the collector uses, restricted
    to ASCII letters for case mapping: lower(), capitalize(), title(),
    isspace(), strip(), split(sep), split(), sep.join(), replace(), `in`,
    startswith(), and repr() of strings and lists of strings. */
module Strings {

  // ---------------------------------------------------------------- characters

  predicate IsUpper(c: char) { 'A' <= c <= 'Z' }
  predicate IsLower(c: char) { 'a' <= c <= 'z' }
  predicate IsLetter(c: char) { IsUpper(c) || IsLower(c) }

  /** str.isspace on ASCII: \t \n \v \f \r, space, and \x1c-\x1f. */
  predicate IsSpace(c: char) {
    c == ' ' || ('\U{0009}' <= c <= '\U{000D}') || ('\U{001C}' <= c <= '\U{001F}')
  }

  function ToLower(c: char): (r: char)
    ensures IsUpper(c) ==> IsLower(r)
    ensures !IsUpper(c) ==> r == c
  {
    if IsUpper(c) then (c as int + 32) as char else c
  }

  function ToUpper(c: char): (r: char)
    ensures IsLower(c) ==> IsUpper(r)
    ensures !IsLower(c) ==> r == c
  {
    if IsLower(c) then (c as int - 32) as char else c
  }

  /** str.lower() */
  function Lower(s: string): (r: string)
    ensures |r| == |s|
    ensures forall i :: 0 <= i < |s| ==> r[i] == ToLower(s[i])
  {
    seq(|s|, i requires 0 <= i < |s| => ToLower(s[i]))
  }

  // ---------------------------------------------------------------- search

  /** s.startswith(p) */
  predicate StartsWith(s: string, p: string) {
    |p| <= |s| && s[..|p|] == p
  }

  /** `sub in s` */
  predicate Contains(s: string, sub: string)
    decreases |s|
  {
    StartsWith(s, sub) || (s != [] && Contains(s[1..], sub))
  }

  /** A string that contains `sub` also contains `sub` without its first character. */
  lemma {:induction false} ContainsTail(s: string, sub: string)
    requires sub != [] && Contains(s, sub)
    ensures Contains(s, sub[1..])
    decreases |s|
  {
    if StartsWith(s, sub) {
      assert s[1..][..|sub| - 1] == sub[1..];
      assert StartsWith(s[1..], sub[1..]);
    } else {
      ContainsTail(s[1..], sub);
    }
  }

  /** Index of an occurrence, for callers that want one. */
  lemma {:induction false} ContainsAt(s: string, sub: string, i: nat)
    requires i + |sub| <= |s| && s[i..i + |sub|] == sub
    ensures Contains(s, sub)
    decreases i
  {
    if i == 0 {
      assert s[..|sub|] == sub;
    } else {
      assert s[1..][i - 1..i - 1 + |sub|] == sub;
      ContainsAt(s[1..], sub, i - 1);
    }
  }

  // ---------------------------------------------------------------- split on a character

  /** Number of occurrences of `c` in `s`. */
  function Count(s: string, c: char): nat
  {
    if s == [] then 0 else (if s[0] == c then 1 else 0) + Count(s[1..], c)
  }

  lemma {:induction false} CountAppend(a: string, b: string, c: char)
    ensures Count(a + b, c) == Count(a, c) + Count(b, c)
    decreases |a|
  {
    if a != [] {
      assert (a + b)[1..] == a[1..] + b;
      CountAppend(a[1..], b, c);
    } else {
      assert a + b == b;
    }
  }

  /** s.split(c) for a one-character separator: never empty; "" gives [""]. */
  function Split(s: string, c: char): (r: seq<string>)
    ensures |r| >= 1
    ensures forall k :: 0 <= k < |r| ==> c !in r[k]
  {
    if s == [] then [[]]
    else
      var rest := Split(s[1..], c);
      if s[0] == c then [[]] + rest else [[s[0]] + rest[0]] + rest[1..]
  }

  /** split produces one part more than there are separators. */
  lemma {:induction false} SplitLength(s: string, c: char)
    ensures |Split(s, c)| == Count(s, c) + 1
    decreases |s|
  {
    if s != [] {
      SplitLength(s[1..], c);
    }
  }

  /** Joining the parts of a split with the separator gives back the string. */
  lemma {:induction false} JoinSplit(s: string, c: char)
    ensures Join(Split(s, c), [c]) == s
    decreases |s|
  {
    if s != [] {
      var rest := Split(s[1..], c);
      JoinSplit(s[1..], c);
      if s[0] == c {
        assert [[]] + rest == [[]] + rest[..];
        assert Join([[]] + rest, [c]) == [] + [c] + Join(rest, [c]);
      } else {
        if |rest| == 1 {
          assert Join(rest, [c]) == rest[0];
        } else {
          assert Join(rest, [c]) == rest[0] + [c] + Join(rest[1..], [c]);
          assert ([[s[0]] + rest[0]] + rest[1..])[1..] == rest[1..];
        }
      }
    }
  }

  /** A string without the separator splits into itself alone. */
  lemma {:induction false} SplitWithoutSeparator(s: string, c: char)
    requires c !in s
    ensures Split(s, c) == [s]
    decreases |s|
  {
    if s != [] {
      SplitWithoutSeparator(s[1..], c);
      assert [s[0]] + s[1..] == s;
    }
  }

  /** The first part of a split is everything before the first separator. */
  lemma {:induction false} SplitFirst(p: string, c: char, rest: string)
    requires c !in p
    ensures Split(p + [c] + rest, c)[0] == p
    decreases |p|
  {
    var s := p + [c] + rest;
    if p != [] {
      assert s[1..] == p[1..] + [c] + rest;
      SplitFirst(p[1..], c, rest);
      assert [p[0]] + p[1..] == p;
    } else {
      assert s[0] == c;
    }
  }

  /** The last part of a split is everything after the last separator. */
  lemma {:induction false} SplitLast(p: string, c: char, segment: string)
    requires c !in segment
    ensures |Split(p + [c] + segment, c)| >= 2
    ensures Last(Split(p + [c] + segment, c)) == segment
    decreases |p|
  {
    var s := p + [c] + segment;
    if p == [] {
      assert s[1..] == segment;
      SplitWithoutSeparator(segment, c);
    } else {
      assert s[1..] == p[1..] + [c] + segment;
      SplitLast(p[1..], c, segment);
    }
  }

  function Last<T>(xs: seq<T>): T
    requires xs != []
  {
    xs[|xs| - 1]
  }

  // ---------------------------------------------------------------- join

  /** sep.join(parts) */
  function Join(parts: seq<string>, sep: string): string
  {
    if parts == [] then []
    else if |parts| == 1 then parts[0]
    else parts[0] + sep + Join(parts[1..], sep)
  }

  // ---------------------------------------------------------------- whitespace

  predicate IsBlank(s: string) {
    forall i :: 0 <= i < |s| ==> IsSpace(s[i])
  }

  function TrimLeft(s: string): (r: string)
    ensures |r| <= |s| && r == s[|s| - |r|..]
    ensures IsBlank(s[..|s| - |r|])
    ensures r == [] || !IsSpace(r[0])
  {
    if s != [] && IsSpace(s[0]) then TrimLeft(s[1..]) else s
  }

  function TrimRight(s: string): (r: string)
    ensures |r| <= |s| && r == s[..|r|]
    ensures IsBlank(s[|r|..])
    ensures r == [] || !IsSpace(r[|r| - 1])
    ensures s != [] && !IsSpace(s[0]) ==> r != []
  {
    if s != [] && IsSpace(s[|s| - 1]) then TrimRight(s[..|s| - 1]) else s
  }

  /** str.strip() with no argument. */
  function Strip(s: string): (r: string)
    ensures r == [] || (!IsSpace(r[0]) && !IsSpace(r[|r| - 1]))
  {
    TrimRight(TrimLeft(s))
  }

  /** `not s.strip()` holds exactly for blank strings. */
  lemma StripEmptyIffBlank(s: string)
    ensures Strip(s) == [] <==> IsBlank(s)
  {
    var l := TrimLeft(s);
    var n := |s| - |l|;
    if l != [] {
      // the first kept character is a non-space of `s`
      assert l[0] == s[n];
    }
    if Strip(s) == [] {
      // a non-empty `l` starts with a non-space, so right-trimming it keeps something
      assert l == [];
      assert s[..n] == s;
    }
  }

  /** A non-empty run of non-whitespace characters. */
  predicate IsWord(w: string) {
    w != [] && forall i :: 0 <= i < |w| ==> !IsSpace(w[i])
  }

  /** str.split() with no argument: the maximal runs of non-whitespace, in order. */
  function Words(s: string): (r: seq<string>)
    ensures forall k :: 0 <= k < |r| ==> IsWord(r[k])
    ensures s != [] && !IsSpace(s[0]) ==> r != [] && |r[0]| > 0 && r[0][0] == s[0]
    decreases |s|
  {
    if s == [] then []
    else if IsSpace(s[0]) then Words(s[1..])
    else
      var rest := Words(s[1..]);
      if |s| > 1 && !IsSpace(s[1]) then [[s[0]] + rest[0]] + rest[1..]
      else [[s[0]]] + rest
  }

  /** A word followed by whitespace or by nothing splits off as the first word. */
  lemma {:induction false} WordsOfWordThen(w: string, tail: string)
    requires IsWord(w)
    requires tail == [] || IsSpace(tail[0])
    ensures Words(w + tail) == [w] + Words(tail)
    decreases |w|
  {
    var s := w + tail;
    assert s[1..] == w[1..] + tail;
    if |w| > 1 {
      WordsOfWordThen(w[1..], tail);
      assert s[1] == w[1];
      assert [s[0]] + w[1..] == w;
    } else {
      assert s[1..] == tail;
      assert [s[0]] == w;
    }
  }

  /** Joining words with single spaces and splitting again gives the same words. */
  lemma {:induction false} WordsOfJoin(ws: seq<string>)
    requires forall k :: 0 <= k < |ws| ==> IsWord(ws[k])
    ensures Words(Join(ws, " ")) == ws
    decreases |ws|
  {
    if |ws| == 1 {
      WordsOfWordThen(ws[0], []);
      assert ws[0] + [] == ws[0];
    } else if |ws| > 1 {
      var tail := " " + Join(ws[1..], " ");
      assert Join(ws, " ") == ws[0] + tail;
      WordsOfWordThen(ws[0], tail);
      assert tail[1..] == Join(ws[1..], " ");
      WordsOfJoin(ws[1..]);
      assert [ws[0]] + ws[1..] == ws;
    }
  }

  /** No whitespace but single inner spaces: what " ".join(s.split()) produces. */
  predicate IsNormalized(s: string) {
    && (s == [] || (s[0] != ' ' && s[|s| - 1] != ' '))
    && (forall i :: 0 <= i < |s| ==> IsSpace(s[i]) ==> s[i] == ' ')
    && (forall i :: 0 <= i < |s| - 1 ==> s[i] == ' ' ==> s[i + 1] != ' ')
  }

  lemma {:induction false} JoinNormalized(ws: seq<string>)
    requires forall k :: 0 <= k < |ws| ==> IsWord(ws[k])
    ensures IsNormalized(Join(ws, " "))
    ensures ws != [] ==> |Join(ws, " ")| > 0 && Join(ws, " ")[0] == ws[0][0]
    decreases |ws|
  {
    if |ws| > 1 {
      JoinNormalized(ws[1..]);
      var j := Join(ws[1..], " ");
      var s := ws[0] + " " + j;
      assert Join(ws, " ") == s;
      forall i | 0 <= i < |s| && IsSpace(s[i]) ensures s[i] == ' ' {
        if i > |ws[0]| { assert s[i] == j[i - |ws[0]| - 1]; }
      }
      forall i | 0 <= i < |s| - 1 && s[i] == ' ' ensures s[i + 1] != ' ' {
        if i > |ws[0]| { assert s[i] == j[i - |ws[0]| - 1]; assert s[i + 1] == j[i - |ws[0]|]; }
        else if i == |ws[0]| { assert s[i + 1] == j[0] == ws[1][0]; }
      }
      assert s[|s| - 1] == j[|j| - 1];
    }
  }

  lemma StripOfNormalized(s: string)
    requires IsNormalized(s)
    ensures Strip(s) == s
  {
    assert TrimLeft(s) == s;
  }

  /** " ".join(s.split()).strip() */
  function NormalizeSpace(s: string): string
  {
    Strip(Join(Words(s), " "))
  }

  /** The normalised text has no leading, trailing, doubled or non-space whitespace,
      and keeps exactly the words of the input. */
  lemma NormalizeSpaceMeaning(s: string)
    ensures IsNormalized(NormalizeSpace(s))
    ensures Words(NormalizeSpace(s)) == Words(s)
  {
    JoinNormalized(Words(s));
    StripOfNormalized(Join(Words(s), " "));
    WordsOfJoin(Words(s));
  }

  /** Normalising twice gives the same text as normalising once. */
  lemma NormalizeSpaceIdempotent(s: string)
    ensures NormalizeSpace(NormalizeSpace(s)) == NormalizeSpace(s)
  {
    NormalizeSpaceMeaning(s);
  }

  // ---------------------------------------------------------------- case

  /** str.capitalize(): first character upper-cased, the rest lower-cased. */
  function Capitalize(w: string): (r: string)
    ensures |r| == |w|
  {
    if w == [] then [] else [ToUpper(w[0])] + Lower(w[1..])
  }

  /** str.title(): each letter that follows a non-letter is upper-cased, every
      other letter lower-cased; `cased` says whether the previous character was a letter. */
  function TitleFrom(s: string, cased: bool): (r: string)
    ensures |r| == |s|
  {
    if s == [] then []
    else if IsLetter(s[0]) then [if cased then ToLower(s[0]) else ToUpper(s[0])] + TitleFrom(s[1..], true)
    else [s[0]] + TitleFrom(s[1..], false)
  }

  /** Title-casing is done word by word: a string cut just before a non-letter is
      title-cased as its two parts, the second one from a word start. */
  lemma {:induction false} TitleAppend(a: string, b: string, cased: bool)
    requires b != [] && !IsLetter(b[0])
    ensures TitleFrom(a + b, cased) == TitleFrom(a, cased) + TitleFrom(b, false)
    decreases |a|
  {
    if a == [] {
      assert a + b == b;
    } else {
      var tail := a[1..];
      var head := [if !IsLetter(a[0]) then a[0] else if cased then ToLower(a[0]) else ToUpper(a[0])];
      assert TitleFrom(a + b, cased) == head + TitleFrom(tail + b, IsLetter(a[0])) by {
        assert (a + b)[0] == a[0];
        assert (a + b)[1..] == tail + b;
      }
      TitleAppend(tail, b, IsLetter(a[0]));
      var t1 := TitleFrom(tail, IsLetter(a[0]));
      var t2 := TitleFrom(b, false);
      assert TitleFrom(a, cased) == head + t1;
      assert head + (t1 + t2) == (head + t1) + t2;
    }
  }

  function Title(s: string): (r: string)
    ensures |r| == |s|
  {
    TitleFrom(s, false)
  }

  /** Title-casing changes only letters, and keeps them letters. */
  lemma {:induction false} TitleKeepsNonLetters(s: string, cased: bool)
    ensures forall i :: 0 <= i < |s| ==> (IsLetter(TitleFrom(s, cased)[i]) <==> IsLetter(s[i]))
    ensures forall i :: 0 <= i < |s| && !IsLetter(s[i]) ==> TitleFrom(s, cased)[i] == s[i]
    decreases |s|
  {
    if s != [] {
      TitleKeepsNonLetters(s[1..], IsLetter(s[0]));
    }
  }

  // ---------------------------------------------------------------- replace

  /** s.replace(c, d) for single characters. */
  function MapChar(s: string, c: char, d: char): (r: string)
    ensures |r| == |s|
    ensures forall i :: 0 <= i < |s| ==> r[i] == if s[i] == c then d else s[i]
  {
    seq(|s|, i requires 0 <= i < |s| => if s[i] == c then d else s[i])
  }

  /** s.replace(c, "") for a single character. */
  function DeleteChar(s: string, c: char): (r: string)
    ensures c !in r
    ensures forall x :: x in r ==> x in s
  {
    if s == [] then [] else (if s[0] == c then [] else [s[0]]) + DeleteChar(s[1..], c)
  }

  /** s.replace(pat, rep) for a non-empty pattern: occurrences are replaced left to right. */
  function ReplaceAll(s: string, pat: string, rep: string): string
    requires pat != []
    decreases |s|
  {
    if |s| < |pat| then s
    else if s[..|pat|] == pat then rep + ReplaceAll(s[|pat|..], pat, rep)
    else [s[0]] + ReplaceAll(s[1..], pat, rep)
  }

  /** Replacing a pattern that does not occur leaves the string as it was. */
  lemma {:induction false} ReplaceAbsent(s: string, pat: string, rep: string)
    requires pat != [] && !Contains(s, pat)
    ensures ReplaceAll(s, pat, rep) == s
    decreases |s|
  {
    if |s| >= |pat| {
      ReplaceAbsent(s[1..], pat, rep);
      assert [s[0]] + s[1..] == s;
    }
  }

  /** Deleting a pattern introduces no character. */
  lemma {:induction false} ReplaceByNothing(s: string, pat: string)
    requires pat != []
    ensures forall x :: x in ReplaceAll(s, pat, []) ==> x in s
    decreases |s|
  {
    if |s| >= |pat| {
      if s[..|pat|] == pat {
        ReplaceByNothing(s[|pat|..], pat);
        forall x | x in s[|pat|..] ensures x in s { }
      } else {
        ReplaceByNothing(s[1..], pat);
      }
    }
  }

  /** A pattern whose first character occurs nowhere before it is removed from the end. */
  lemma {:induction false} ReplaceTrailing(p: string, pat: string)
    requires pat != [] && pat[0] !in p
    ensures ReplaceAll(p + pat, pat, []) == p
    decreases |p|
  {
    var s := p + pat;
    if p == [] {
      assert s == pat && s[|pat|..] == [];
    } else {
      assert s[..|pat|] != pat by { assert s[0] == p[0] != pat[0]; }
      assert s[1..] == p[1..] + pat;
      ReplaceTrailing(p[1..], pat);
      assert [p[0]] + p[1..] == p;
    }
  }

  // ---------------------------------------------------------------- repr

  function HexDigit(n: nat): char
    requires n < 16
  {
    if n < 10 then ('0' as int + n) as char else ('a' as int + n - 10) as char
  }

  /** str(n) for a natural number. */
  function NatToString(n: nat): (r: string)
    ensures r != []
  {
    if n < 10 then [('0' as int + n) as char] else NatToString(n / 10) + [('0' as int + n % 10) as char]
  }

  /** The quote repr() chooses: double quotes only when the text has a single quote and no double quote. */
  function ReprQuote(s: string): char
  {
    if '\'' in s && '"' !in s then '"' else '\''
  }

  function ReprChar(c: char, q: char): string
  {
    if c == '\\' then "\\\\"
    else if c == q then ['\\', q]
    else if c == '\t' then "\\t"
    else if c == '\n' then "\\n"
    else if c == '\r' then "\\r"
    else if c < ' ' || c == '\U{007F}' then ['\\', 'x', HexDigit(c as int / 16), HexDigit(c as int % 16)]
    else [c]
  }

  function ReprBody(s: string, q: char): string
  {
    if s == [] then [] else ReprChar(s[0], q) + ReprBody(s[1..], q)
  }

  /** repr(s) for a string (non-ASCII characters are kept as they are). */
  function Repr(s: string): string
  {
    var q := ReprQuote(s);
    [q] + ReprBody(s, q) + [q]
  }

  function ReprAll(xs: seq<string>): (r: seq<string>)
    ensures |r| == |xs|
  {
    if xs == [] then [] else [Repr(xs[0])] + ReprAll(xs[1..])
  }

  /** str(xs) for a list of strings. */
  function ListRepr(xs: seq<string>): string
  {
    "[" + Join(ReprAll(xs), ", ") + "]"
  }
}

/**
 * The string operations the scraper relies on: `str.strip()`, prefix tests,
 * slicing to a maximum length, deleting a character, and `str.split(sep)`
 * together with its inverse `sep.join(parts)`.
 */
module Text {

  /** The characters for which Python's `str.isspace()` holds (and which the
      regular-expression class `\s` matches on `str` patterns). */
  predicate IsSpace(c: char) {
    c == ' ' || ('\t' <= c <= '\r') || ('\U{1c}' <= c <= '\U{1f}') ||
    c == '\U{85}' || c == '\U{a0}' || c == '\U{1680}' ||
    ('\U{2000}' <= c <= '\U{200a}') || c == '\U{2028}' || c == '\U{2029}' ||
    c == '\U{202f}' || c == '\U{205f}' || c == '\U{3000}'
  }

  predicate AllSpace(s: string) {
    forall k :: 0 <= k < |s| ==> IsSpace(s[k])
  }

  /** `s.lstrip()`: drops the leading white space. */
  function TrimStart(s: string): (r: string)
    ensures |r| <= |s| && r == s[|s| - |r|..]
    ensures AllSpace(s[..|s| - |r|])
    ensures r == [] || !IsSpace(r[0])
  {
    if s != [] && IsSpace(s[0]) then
      var r := TrimStart(s[1..]);
      SpaceFront(s, r);
      r
    else s
  }

  /** `s.rstrip()`: drops the trailing white space. */
  function TrimEnd(s: string): (r: string)
    ensures |r| <= |s| && r == s[..|r|]
    ensures AllSpace(s[|r|..])
    ensures r == [] || !IsSpace(r[|r| - 1])
  {
    if s != [] && IsSpace(s[|s| - 1]) then
      var r := TrimEnd(s[..|s| - 1]);
      SpaceBack(s, r);
      r
    else s
  }

  /** Dropping a leading space, then the white space that follows it. */
  lemma SpaceFront(s: string, r: string)
    requires s != [] && IsSpace(s[0])
    requires |r| <= |s| - 1 && r == s[1..][|s| - 1 - |r|..] && AllSpace(s[1..][..|s| - 1 - |r|])
    ensures r == s[|s| - |r|..] && AllSpace(s[..|s| - |r|])
  {
    var n := |s| - |r|;
    assert s[1..][n - 1..] == s[n..];
    forall k | 1 <= k < n ensures IsSpace(s[k]) {
      assert s[1..][..n - 1][k - 1] == s[k];
    }
  }

  /** Dropping a trailing space, then the white space before it. */
  lemma SpaceBack(s: string, r: string)
    requires s != [] && IsSpace(s[|s| - 1])
    requires |r| <= |s| - 1 && r == s[..|s| - 1][..|r|] && AllSpace(s[..|s| - 1][|r|..])
    ensures r == s[..|r|] && AllSpace(s[|r|..])
  {
    var n := |r|;
    assert s[..|s| - 1][..n] == s[..n];
    forall k | n <= k < |s| - 1 ensures IsSpace(s[k]) {
      assert s[..|s| - 1][n..][k - n] == s[k];
    }
  }

  /** `s.strip()`: the slice of `s` left after dropping white space at both
      ends; the result neither starts nor ends with white space. */
  function Strip(s: string): (r: string)
    ensures |r| <= |s|
    ensures r == [] || (!IsSpace(r[0]) && !IsSpace(r[|r| - 1]))
  {
    var t := TrimStart(s);
    var r := TrimEnd(t);
    assert r == [] || !IsSpace(r[0]) by {
      if r != [] { assert r[0] == t[0]; }
    }
    r
  }

  /** What `strip` drops is white space at the two ends, and nothing else:
      the result is the slice of `s` that starts at `i`. */
  lemma StripSlice(s: string) returns (i: nat)
    ensures i + |Strip(s)| <= |s| && Strip(s) == s[i..i + |Strip(s)|]
    ensures AllSpace(s[..i]) && AllSpace(s[i + |Strip(s)|..])
  {
    var t := TrimStart(s);
    var r := TrimEnd(t);
    i := |s| - |t|;
    assert Strip(s) == r;
    SliceOfSuffix(s, i, |r|);
    assert AllSpace(t[|r|..]);
  }

  lemma SliceOfSuffix(s: string, i: nat, n: nat)
    requires i + n <= |s|
    ensures s[i..][..n] == s[i..i + n] && s[i..][n..] == s[i + n..]
  {
  }

  lemma TrimStartNoop(s: string)
    requires s == [] || !IsSpace(s[0])
    ensures TrimStart(s) == s
  {
  }

  /** White space in front of text that does not start with white space is
      exactly what `lstrip` drops. */
  lemma {:induction false} TrimStartSpaces(ws: string, t: string)
    requires AllSpace(ws) && (t == [] || !IsSpace(t[0]))
    ensures TrimStart(ws + t) == t
  {
    if ws == [] {
      assert ws + t == t;
      TrimStartNoop(t);
    } else {
      assert (ws + t)[1..] == ws[1..] + t;
      TrimStartSpaces(ws[1..], t);
    }
  }

  /** Text with no white space at either end is left as it is. */
  lemma StripNoop(s: string)
    requires s == [] || (!IsSpace(s[0]) && !IsSpace(s[|s| - 1]))
    ensures Strip(s) == s
  {
    assert TrimStart(s) == s;
    assert TrimEnd(s) == s;
  }

  /** Stripping twice is stripping once. */
  lemma StripIdempotent(s: string)
    ensures Strip(Strip(s)) == Strip(s)
  {
    StripNoop(Strip(s));
  }

  /** A string strips to nothing exactly when it is all white space. */
  lemma StripEmptyIff(s: string)
    ensures Strip(s) == [] <==> AllSpace(s)
  {
    var r := Strip(s);
    var i := StripSlice(s);
    if r == [] {
      forall k | 0 <= k < |s| ensures IsSpace(s[k]) {
        if k < i { assert s[..i][k] == s[k]; } else { assert s[i..][k - i] == s[k]; }
      }
    } else {
      assert s[i] == r[0];
    }
  }

  lemma {:induction false} TrimStartKeeps(s: string, x: char)
    requires !IsSpace(x)
    ensures x in TrimStart(s) <==> x in s
  {
    if s != [] && IsSpace(s[0]) {
      TrimStartKeeps(s[1..], x);
      assert x != s[0];
      InFront(s, x);
    }
  }

  lemma {:induction false} TrimEndKeeps(s: string, x: char)
    requires !IsSpace(x)
    ensures x in TrimEnd(s) <==> x in s
  {
    if s != [] && IsSpace(s[|s| - 1]) {
      TrimEndKeeps(s[..|s| - 1], x);
      assert x != s[|s| - 1];
      InBack(s, x);
    }
  }

  lemma InFront(s: string, x: char)
    requires s != []
    ensures x in s <==> x == s[0] || x in s[1..]
  {
    assert s == [s[0]] + s[1..];
  }

  lemma InBack(s: string, x: char)
    requires s != []
    ensures x in s <==> x == s[|s| - 1] || x in s[..|s| - 1]
  {
    assert s == s[..|s| - 1] + [s[|s| - 1]];
  }

  /** Stripping removes white space only: every other character survives. */
  lemma StripKeeps(s: string, x: char)
    requires !IsSpace(x)
    ensures x in Strip(s) <==> x in s
  {
    TrimStartKeeps(s, x);
    TrimEndKeeps(TrimStart(s), x);
  }

  /** `s[:n]`: at most the first `n` characters. */
  function Truncate(s: string, n: nat): (r: string)
    ensures r <= s
    ensures |r| == if |s| <= n then |s| else n
  {
    if |s| <= n then s else s[..n]
  }

  /** `s.replace(c, '')`: every occurrence of `c` deleted, the other
      characters kept in order. */
  function Without(s: string, c: char): (r: string)
    ensures c !in r
    ensures |r| <= |s|
  {
    if s == [] then []
    else if s[0] == c then Without(s[1..], c)
    else [s[0]] + Without(s[1..], c)
  }

  /** Deleting `c` keeps every other character. */
  lemma {:induction false} WithoutKeeps(s: string, c: char, x: char)
    requires x != c
    ensures x in Without(s, c) <==> x in s
  {
    if s != [] {
      WithoutKeeps(s[1..], c, x);
      assert s == [s[0]] + s[1..];
    }
  }

  /** Deleting works character by character and keeps the order: the text
      is cleaned piece by piece ... */
  lemma {:induction false} WithoutAppend(a: string, b: string, c: char)
    ensures Without(a + b, c) == Without(a, c) + Without(b, c)
  {
    if a == [] {
      assert a + b == b;
    } else {
      assert (a + b)[1..] == a[1..] + b;
      WithoutAppend(a[1..], b, c);
    }
  }

  /** ... and one character is dropped when it is `c` and kept otherwise. */
  lemma WithoutChar(x: char, c: char)
    ensures Without([x], c) == if x == c then [] else [x]
  {
  }

  lemma WithoutAbsent(s: string, c: char)
    requires c !in s
    ensures Without(s, c) == s
  {
  }

  /** `s.split(sep)`: the pieces between occurrences of `sep`; there is always
      at least one piece and no piece holds `sep`. */
  function Split(s: string, sep: char): (parts: seq<string>)
    ensures |parts| >= 1
    ensures forall k :: 0 <= k < |parts| ==> sep !in parts[k]
  {
    if s == [] then [[]]
    else
      var rest := Split(s[1..], sep);
      if s[0] == sep then [[]] + rest
      else [[s[0]] + rest[0]] + rest[1..]
  }

  /** `sep.join(parts)`. */
  function Join(parts: seq<string>, sep: char): string
    requires |parts| >= 1
  {
    if |parts| == 1 then parts[0] else parts[0] + [sep] + Join(parts[1..], sep)
  }

  /** Joining the pieces of a split gives the string back. */
  lemma {:induction false} JoinSplit(s: string, sep: char)
    ensures Join(Split(s, sep), sep) == s
  {
    if s != [] {
      var rest := Split(s[1..], sep);
      JoinSplit(s[1..], sep);
      if s[0] == sep {
        assert Split(s, sep)[1..] == rest;
      } else {
        var parts := Split(s, sep);
        if |rest| == 1 {
          assert parts == [[s[0]] + rest[0]];
        } else {
          assert parts[1..] == rest[1..];
          assert Join(rest, sep) == rest[0] + [sep] + Join(rest[1..], sep);
        }
      }
    }
  }

  /** Splitting at a separator splits the two sides independently. */
  lemma {:induction false} SplitAppend(a: string, sep: char, b: string)
    ensures Split(a + [sep] + b, sep) == Split(a, sep) + Split(b, sep)
  {
    if a == [] {
      assert [] + [sep] + b == [sep] + b;
      assert ([sep] + b)[1..] == b;
    } else {
      assert (a + [sep] + b)[1..] == a[1..] + [sep] + b;
      SplitAppend(a[1..], sep, b);
    }
  }

  /** A piece without the separator splits into itself. */
  lemma {:induction false} SplitPlain(s: string, sep: char)
    requires sep !in s
    ensures Split(s, sep) == [s]
  {
    if s != [] {
      SplitPlain(s[1..], sep);
      assert [s[0]] + s[1..] == s;
    }
  }

  /** Splitting the join of separator-free pieces gives the pieces back. */
  lemma {:induction false} SplitJoin(parts: seq<string>, sep: char)
    requires |parts| >= 1
    requires forall k :: 0 <= k < |parts| ==> sep !in parts[k]
    ensures Split(Join(parts, sep), sep) == parts
  {
    if |parts| == 1 {
      SplitPlain(parts[0], sep);
    } else {
      SplitJoin(parts[1..], sep);
      SplitAppend(parts[0], sep, Join(parts[1..], sep));
      SplitPlain(parts[0], sep);
      assert [parts[0]] + parts[1..] == parts;
    }
  }
}

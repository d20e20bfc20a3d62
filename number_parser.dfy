/**
 * `extract_number`: the number in a piece of listing text such as
 * "$1,234,567", "45K" or "2.5 Million".  After every `$` and `,` is deleted
 * (and the ends stripped), the first match of the pattern
 * `(\d+(?:\.\d+)?)\s*([KM])?`, matched ignoring case, is read as a decimal,
 * scaled by 1000 for K and 1000000 for M, and truncated to an integer.
 * The value is computed exactly, on decimals rather than binary floats.
 */
module NumberParser {
  import opened Wrappers
  import opened Text
  import opened Decimal

  /** The text with every dollar sign and comma deleted, then stripped. */
  function Cleaned(s: string): (r: string)
    ensures '$' !in r && ',' !in r
  {
    var t := Without(Without(s, '$'), ',');
    WithoutKeeps(Without(s, '$'), ',', '$');
    StripKeeps(t, '$');
    StripKeeps(t, ',');
    Strip(t)
  }

  /** Cleaning deletes `$`, `,` and white space only: every digit survives. */
  lemma CleanedKeepsDigits(s: string, x: char)
    requires IsDigit(x)
    ensures x in Cleaned(s) <==> x in s
  {
    WithoutKeeps(s, '$', x);
    WithoutKeeps(Without(s, '$'), ',', x);
    StripKeeps(Without(Without(s, '$'), ','), x);
  }

  lemma NoDigitsIff(s: string)
    ensures NoDigits(s) <==> forall x :: IsDigit(x) ==> x !in s
  {
  }

  /** The text as the pattern sees it has a digit exactly when the raw text has. */
  lemma CleanedNoDigits(s: string)
    ensures NoDigits(Cleaned(s)) <==> NoDigits(s)
  {
    NoDigitsIff(s);
    NoDigitsIff(Cleaned(s));
    forall x | IsDigit(x) ensures x in Cleaned(s) <==> x in s {
      CleanedKeepsDigits(s, x);
    }
  }

  /** What one match of the pattern captures: the digits before the point,
      the digits after it (empty when there is no fraction) and the
      magnitude letter, if any. */
  datatype Token = Token(whole: string, fraction: string, suffix: Option<char>)

  predicate IsMagnitude(c: char) {
    c == 'K' || c == 'k' || c == 'M' || c == 'm'
  }

  predicate ValidToken(t: Token) {
    t.whole != [] && AllDigits(t.whole) && AllDigits(t.fraction) &&
    (t.suffix.Some? ==> IsMagnitude(t.suffix.value))
  }

  /** `\d+`, greedy: the longest run of digits that starts `s`. */
  function DigitRun(s: string): (r: string)
    ensures r <= s && AllDigits(r)
    ensures |r| == |s| || !IsDigit(s[|r|])
  {
    if s != [] && IsDigit(s[0]) then [s[0]] + DigitRun(s[1..]) else []
  }

  /** The match of the pattern that starts at the first character of `s`,
      a digit: the digits, the optional fraction, then the magnitude letter,
      which may follow after any amount of white space. */
  function MatchAt(s: string): (t: Token)
    requires s != [] && IsDigit(s[0])
    ensures ValidToken(t)
  {
    var whole := DigitRun(s);
    var rest := s[|whole|..];
    Token(whole, Fraction(rest), Magnitude(TrimStart(AfterFraction(rest))))
  }

  /** `(?:\.\d+)?`, greedy: the digits after a point that starts `s`, or
      nothing when `s` does not start with a point and a digit. */
  function Fraction(s: string): (f: string)
    ensures AllDigits(f)
  {
    if |s| >= 2 && s[0] == '.' && IsDigit(s[1]) then DigitRun(s[1..]) else []
  }

  /** What follows the optional fraction. */
  function AfterFraction(s: string): string
  {
    var f := Fraction(s);
    if f == [] then s else s[1 + |f|..]
  }

  /** `([KM])?` ignoring case: the magnitude letter that starts `s`, if any. */
  function Magnitude(s: string): (m: Option<char>)
    ensures m.Some? <==> s != [] && IsMagnitude(s[0])
    ensures m.Some? ==> m.value == s[0]
  {
    if s != [] && IsMagnitude(s[0]) then Some(s[0]) else None
  }

  /** The whole part is the longest run of digits at the start; the fraction
      is taken whenever a point followed by a digit comes right after it, and
      is then the longest run of digits after the point. */
  lemma MatchAtGreedy(s: string)
    requires s != [] && IsDigit(s[0])
    ensures var t := MatchAt(s);
            t.whole <= s && (|t.whole| == |s| || !IsDigit(s[|t.whole|])) &&
            var rest := s[|t.whole|..];
            if |rest| >= 2 && rest[0] == '.' && IsDigit(rest[1])
            then t.fraction != [] && t.fraction <= rest[1..] &&
                 (|t.fraction| == |rest| - 1 || !IsDigit(rest[1 + |t.fraction|]))
            else t.fraction == []
  {
  }

  lemma {:induction false} DigitRunStops(w: string, rest: string)
    requires AllDigits(w) && (rest == [] || !IsDigit(rest[0]))
    ensures DigitRun(w + rest) == w
  {
    if w != [] {
      assert (w + rest)[1..] == w[1..] + rest;
      DigitRunStops(w[1..], rest);
    } else {
      assert w + rest == rest;
    }
  }

  /** A number without a fraction: the digits, then whatever follows; the
      magnitude letter may come after white space. */
  lemma MatchWhole(w: string, rest: string)
    requires w != [] && AllDigits(w)
    requires rest == [] || (!IsDigit(rest[0]) && !(|rest| >= 2 && rest[0] == '.' && IsDigit(rest[1])))
    ensures MatchAt(w + rest) == Token(w, [], Magnitude(TrimStart(rest)))
  {
    DigitRunStops(w, rest);
    assert (w + rest)[|w|..] == rest;
  }

  /** A point and digits: they are the fraction, and what follows them is
      where the magnitude letter is looked for. */
  lemma FractionOf(f: string, rest: string)
    requires f != [] && AllDigits(f)
    requires rest == [] || !IsDigit(rest[0])
    ensures Fraction(['.'] + f + rest) == f
    ensures AfterFraction(['.'] + f + rest) == rest
  {
    var s := ['.'] + f + rest;
    assert s[1..] == f + rest;
    DigitRunStops(f, rest);
    assert s[1 + |f|..] == rest;
  }

  /** A number with a fraction: the digits, a point, more digits, then
      whatever follows. */
  lemma MatchFraction(w: string, f: string, rest: string)
    requires w != [] && AllDigits(w) && f != [] && AllDigits(f)
    requires rest == [] || !IsDigit(rest[0])
    ensures MatchAt(w + (['.'] + f + rest)) == Token(w, f, Magnitude(TrimStart(rest)))
  {
    var tail := ['.'] + f + rest;
    DigitRunStops(w, tail);
    assert (w + tail)[|w|..] == tail;
    FractionOf(f, rest);
  }

  /** `re.search`: the leftmost match; there is one exactly when `s` holds a digit. */
  function Search(s: string): (t: Option<Token>)
    ensures t.None? <==> NoDigits(s)
    ensures t.Some? ==> ValidToken(t.value)
  {
    if s == [] then None
    else if IsDigit(s[0]) then Some(MatchAt(s))
    else Search(s[1..])
  }

  /** Text that starts with a digit is matched from its start. */
  lemma SearchDigitFirst(s: string, t: string)
    requires s == t && t != [] && IsDigit(t[0])
    ensures Search(s) == Some(MatchAt(t))
  {
  }

  /** The match starts at the first digit of `s`, wherever it is. */
  lemma {:induction false} SearchFindsFirstDigit(s: string, i: nat)
    requires i < |s| && IsDigit(s[i]) && NoDigits(s[..i])
    ensures Search(s) == Some(MatchAt(s[i..]))
  {
    if i > 0 {
      assert s[..i][0] == s[0];
      assert s[1..][..i - 1] == s[..i][1..];
      SearchFindsFirstDigit(s[1..], i - 1);
      assert s[1..][i - 1..] == s[i..];
    }
  }

  /** Text without digits in front of a number does not change the match. */
  lemma {:induction false} SearchSkipsPrefix(p: string, s: string)
    requires NoDigits(p)
    ensures Search(p + s) == Search(s)
  {
    if p != [] {
      assert (p + s)[0] == p[0];
      assert (p + s)[1..] == p[1..] + s;
      SearchSkipsPrefix(p[1..], s);
    } else {
      assert p + s == s;
    }
  }

  function Scale(suffix: Option<char>): (m: nat)
    ensures m == 1 || m == 1000 || m == 1000000
  {
    match suffix
    case None => 1
    case Some(c) => if c == 'K' || c == 'k' then 1000 else 1000000
  }

  /** The exact decimal the match denotes, `whole.fraction`, times its scale. */
  function Exact(t: Token): real
    requires ValidToken(t)
  {
    (Value(t.whole) as real + Value(t.fraction) as real / Pow10(|t.fraction|) as real)
      * Scale(t.suffix) as real
  }

  /** `int(number)`: the integer part of the exact value of the match. */
  function Truncated(t: Token): (n: nat)
    requires ValidToken(t)
    ensures n as real <= Exact(t) < n as real + 1.0
  {
    ValueAppend(t.whole, t.fraction);
    var p := Pow10(|t.fraction|);
    var m := Value(t.whole + t.fraction) * Scale(t.suffix);
    FloorBounds(m, p);
    ExactForm(Value(t.whole), Value(t.fraction), p, Scale(t.suffix));
    m / p
  }

  /** The factor of the magnitude letter: none leaves the number as it is,
      K in either case multiplies it by a thousand, M by a million. */
  lemma ScaleFactors(suffix: Option<char>)
    ensures suffix.None? ==> Scale(suffix) == 1
    ensures suffix == Some('K') || suffix == Some('k') ==> Scale(suffix) == 1000
    ensures suffix == Some('M') || suffix == Some('m') ==> Scale(suffix) == 1000000
  {
  }

  /** A whole number followed by a magnitude letter, possibly after white
      space, reads as the number times the letter's factor, whatever follows
      the letter. */
  lemma MagnitudeScales(w: string, ws: string, c: char, rest: string)
    requires w != [] && AllDigits(w) && AllSpace(ws) && IsMagnitude(c)
    ensures w + (ws + [c] + rest) != [] && IsDigit((w + (ws + [c] + rest))[0])
    ensures Truncated(MatchAt(w + (ws + [c] + rest))) == Value(w) * Scale(Some(c))
  {
    MatchLetter(w, ws, c, rest);
    TruncatedWhole(Token(w, [], Some(c)));
  }

  /** The match of digits, white space and a magnitude letter. */
  lemma MatchLetter(w: string, ws: string, c: char, rest: string)
    requires w != [] && AllDigits(w) && AllSpace(ws) && IsMagnitude(c)
    ensures w + (ws + [c] + rest) != [] && IsDigit((w + (ws + [c] + rest))[0])
    ensures MatchAt(w + (ws + [c] + rest)) == Token(w, [], Some(c))
  {
    var u := [c] + rest;
    var after := ws + u;
    assert ws + [c] + rest == after;
    assert !IsDigit(after[0]) && after[0] != '.' by {
      if ws != [] {
        assert after[0] == ws[0] && IsSpace(ws[0]);
      } else {
        assert after[0] == c;
      }
    }
    MatchWhole(w, after);
    MagnitudeAfterSpaces(ws, c, rest);
  }

  /** The magnitude letter is found after any amount of white space. */
  lemma MagnitudeAfterSpaces(ws: string, c: char, rest: string)
    requires AllSpace(ws) && IsMagnitude(c)
    ensures Magnitude(TrimStart(ws + ([c] + rest))) == Some(c)
  {
    var u := [c] + rest;
    assert u[0] == c && !IsSpace(c);
    TrimStartSpaces(ws, u);
  }

  /** A match without a fraction reads as its digits times the factor. */
  lemma TruncatedWhole(t: Token)
    requires ValidToken(t) && t.fraction == []
    ensures Truncated(t) == Value(t.whole) * Scale(t.suffix)
  {
    ValueAppend(t.whole, []);
    assert t.whole + [] == t.whole;
  }

  lemma FloorBounds(m: nat, p: nat)
    requires p >= 1
    ensures (m / p) as real <= m as real / p as real < (m / p) as real + 1.0
  {
    var n := m / p;
    assert n * p <= m < n * p + p;
    CastMul(n, p);
    assert (n as real) * (p as real) <= m as real;
    assert m as real < (n as real + 1.0) * (p as real);
    LeDiv(n as real, m as real, p as real);
    LtDiv(n as real + 1.0, m as real, p as real);
  }

  lemma ExactForm(w: nat, f: nat, p: nat, k: nat)
    requires p >= 1
    ensures (w as real + f as real / p as real) * k as real == ((w * p + f) * k) as real / p as real
  {
    CastMul(w, p);
    CastMul(w * p + f, k);
    RealScale(w as real, f as real, p as real, k as real);
  }

  lemma CastMul(a: int, b: int)
    ensures (a * b) as real == a as real * b as real
  {
  }

  lemma RealScale(w: real, f: real, p: real, k: real)
    requires p > 0.0
    ensures (w + f / p) * k == ((w * p + f) * k) / p
  {
  }

  lemma LeDiv(a: real, b: real, p: real)
    requires p > 0.0 && a * p <= b
    ensures a <= b / p
  {
  }

  lemma LtDiv(a: real, b: real, p: real)
    requires p > 0.0 && b < a * p
    ensures b / p < a
  {
  }

  /** `extract_number(text)`. It is absent exactly when there is no text or
      the text holds no ASCII digit; otherwise it is the truncated value of
      the first match, which cannot be negative since no sign is captured. */
  function ExtractNumber(text: Option<string>): (r: Option<nat>)
    ensures r.None? <==> text.None? || NoDigits(text.value)
  {
    match text
    case None => None
    case Some(s) =>
      if s == [] then None
      else
        CleanedNoDigits(s);
        match Search(Cleaned(s))
        case None => None
        case Some(t) => Some(Truncated(t))
  }

  /** The number read is the first run of digits of the cleaned text, with
      its optional fraction and magnitude letter, truncated. */
  lemma ExtractNumberFirstRun(s: string, i: nat)
    requires var c := Cleaned(s); i < |c| && IsDigit(c[i]) && NoDigits(c[..i])
    ensures var t := MatchAt(Cleaned(s)[i..]);
            ExtractNumber(Some(s)) == Some(Truncated(t)) &&
            (ExtractNumber(Some(s)).value as real <= Exact(t) < ExtractNumber(Some(s)).value as real + 1.0)
  {
    SearchFindsFirstDigit(Cleaned(s), i);
  }
}

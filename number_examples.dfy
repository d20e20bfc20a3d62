/**
 * Worked inputs of `extract_number`, each computed in stages: the cleaned
 * text, the match the pattern finds in it, and the truncated value.
 */
module NumberExamples {
  import opened Wrappers
  import opened Text
  import opened Decimal
  import opened NumberParser

  /** Text that has nothing to clean is left as it is. */
  lemma CleanedNoop(s: string)
    requires '$' !in s && ',' !in s
    requires s == [] || (!IsSpace(s[0]) && !IsSpace(s[|s| - 1]))
    ensures Cleaned(s) == s
  {
    WithoutAbsent(s, '$');
    WithoutAbsent(s, ',');
    StripNoop(s);
  }

  /** Currency sign and thousands separators are deleted: "$1,234" is 1234. */
  lemma Dollars(s: string)
    requires s == "$1,234"
    ensures ExtractNumber(Some(s)) == Some(1234)
  {
    DollarsCleaned(s);
    DollarsMatch("1234");
    DollarsValue();
  }

  lemma DollarsCleaned(s: string)
    requires s == "$1,234"
    ensures Cleaned(s) == "1234"
  {
    DollarsWithoutSign();
    DollarsWithoutComma();
    StripNoop("1234");
  }

  lemma DollarsWithoutSign()
    ensures Without("$1,234", '$') == "1,234"
  {
  }

  lemma DollarsWithoutComma()
    ensures Without("1,234", ',') == "1234"
  {
  }

  lemma DollarsMatch(s: string)
    requires s == "1234"
    ensures Search(s) == Some(Token("1234", "", None))
  {
    assert s == "1234" + "";
    MatchWhole("1234", "");
  }

  lemma DollarsValue()
    ensures Truncated(Token("1234", "", None)) == 1234
  {
    assert "1234"[..3] == "123" && "123"[..2] == "12" && "12"[..1] == "1" && "1"[..0] == "";
    assert "1234" + "" == "1234";
  }

  /** The fraction is truncated, not rounded: "12.9" is 12. */
  lemma Truncates(s: string)
    requires s == "12.9"
    ensures ExtractNumber(Some(s)) == Some(12)
  {
    CleanedNoop(s);
    TruncatesMatch(s);
    TruncatesValue();
  }

  lemma TruncatesMatch(s: string)
    requires s == "12.9"
    ensures Search(s) == Some(Token("12", "9", None))
  {
    assert s == "12" + (['.'] + "9" + "");
    MatchFraction("12", "9", "");
  }

  lemma TruncatesValue()
    ensures Truncated(Token("12", "9", None)) == 12
  {
    assert "12" + "9" == "129";
    assert "129"[..2] == "12" && "12"[..1] == "1" && "1"[..0] == "";
  }

  /** A point with no digit after it is not part of the number: "1." is 1. */
  lemma BarePoint(s: string)
    requires s == "1."
    ensures ExtractNumber(Some(s)) == Some(1)
  {
    CleanedNoop(s);
    BarePointMatch(s);
    BarePointValue();
  }

  lemma BarePointMatch(s: string)
    requires s == "1."
    ensures Search(s) == Some(Token("1", "", None))
  {
    SearchDigitFirst(s, "1" + ".");
    BarePointToken();
  }

  lemma BarePointToken()
    ensures MatchAt("1" + ".") == Token("1", "", None)
  {
    MatchWhole("1", ".");
    PointNoMagnitude(".");
  }

  lemma PointNoMagnitude(s: string)
    requires s == "."
    ensures Magnitude(TrimStart(s)) == None
  {
    assert s[0] == '.' && !IsSpace(s[0]);
    TrimStartNoop(s);
    assert TrimStart(s) == s;
  }

  lemma BarePointValue()
    ensures Truncated(Token("1", "", None)) == 1
  {
    assert "1" + "" == "1";
    assert "1"[..0] == "";
  }

  /** K multiplies by a thousand: "45K" is 45000. */
  lemma Thousands(s: string)
    requires s == "45K"
    ensures ExtractNumber(Some(s)) == Some(45000)
  {
    CleanedNoop(s);
    ThousandsMatch(s);
    ThousandsValue();
  }

  lemma ThousandsMatch(s: string)
    requires s == "45K"
    ensures Search(s) == Some(Token("45", "", Some('K')))
  {
    SearchDigitFirst(s, "45" + "K");
    ThousandsToken();
  }

  lemma ThousandsToken()
    ensures MatchAt("45" + "K") == Token("45", "", Some('K'))
  {
    MatchWhole("45", "K");
    LetterMagnitude("K");
  }

  lemma ThousandsValue()
    ensures Truncated(Token("45", "", Some('K'))) == 45000
  {
    assert "45" + "" == "45";
    assert "45"[..1] == "4" && "4"[..0] == "";
  }

  /** A lower-case m after a fraction: "2.5m" is 2500000. */
  lemma Millions(s: string)
    requires s == "2.5m"
    ensures ExtractNumber(Some(s)) == Some(2500000)
  {
    CleanedNoop(s);
    MillionsMatch(s);
    MillionsValue();
  }

  lemma MillionsMatch(s: string)
    requires s == "2.5m"
    ensures Search(s) == Some(Token("2", "5", Some('m')))
  {
    SearchDigitFirst(s, "2" + (['.'] + "5" + "m"));
    MillionsToken();
  }

  lemma MillionsToken()
    ensures MatchAt("2" + (['.'] + "5" + "m")) == Token("2", "5", Some('m'))
  {
    MatchFraction("2", "5", "m");
    LetterMagnitude("m");
  }

  lemma MillionsValue()
    ensures Truncated(Token("2", "5", Some('m'))) == 2500000
  {
    assert "2" + "5" == "25";
    assert "25"[..1] == "2" && "2"[..0] == "";
  }

  /** Only the first letter after the number is looked at: "5 Million" is 5000000. */
  lemma Word(s: string)
    requires s == "5 Million"
    ensures ExtractNumber(Some(s)) == Some(5000000)
  {
    CleanedNoop(s);
    WordMatch(s);
    WordValue();
  }

  lemma WordMatch(s: string)
    requires s == "5 Million"
    ensures Search(s) == Some(Token("5", "", Some('M')))
  {
    SearchDigitFirst(s, "5" + " Million");
    WordToken();
  }

  lemma WordToken()
    ensures MatchAt("5" + " Million") == Token("5", "", Some('M'))
  {
    MatchWhole("5", " Million");
    WordTrim();
  }

  /** Text that starts with a letter is its own `lstrip`, and its first
      letter is the magnitude when it is one. */
  lemma LetterMagnitude(s: string)
    requires s != [] && 'A' <= s[0] <= 'z'
    ensures Magnitude(TrimStart(s)) == if IsMagnitude(s[0]) then Some(s[0]) else None
  {
    TrimStartNoop(s);
  }

  lemma WordTrim()
    ensures TrimStart(" Million") == "Million"
  {
    assert " Million"[1..] == "Million";
    TrimStartNoop("Million");
  }

  lemma WordValue()
    ensures Truncated(Token("5", "", Some('M'))) == 5000000
  {
    assert "5" + "" == "5";
    assert "5"[..0] == "";
  }

  /** No sign is captured: "-5" is 5. */
  lemma NoSign(s: string)
    requires s == "-5"
    ensures ExtractNumber(Some(s)) == Some(5)
  {
    CleanedNoop(s);
    NoSignMatch(s);
    FiveValue();
  }

  lemma NoSignMatch(s: string)
    requires s == "-5"
    ensures Search(s) == Some(Token("5", "", None))
  {
    assert s == "-" + "5";
    SearchSkipsPrefix("-", "5");
    assert "5" == "5" + "";
    MatchWhole("5", "");
  }

  lemma FiveValue()
    ensures Truncated(Token("5", "", None)) == 5
  {
    assert "5" + "" == "5";
    assert "5"[..0] == "";
  }
}

// The client's StringHelper: random alphanumeric strings, the e-mail and
// mainland phone number patterns, the character filter, camel/snake case
// conversion, truncation with an ellipsis and line splitting.

module StringHelper {
  import opened Common

  // ---------------------------------------------------------------------------
  // GenerateRandomString
  // ---------------------------------------------------------------------------

  /** `count` consecutive characters from `first` on. */
  function CharRun(first: char, count: nat): (r: string)
    requires first as int + count <= 0xD800
    ensures |r| == count && forall i :: 0 <= i < count ==> r[i] as int == first as int + i
  {
    seq(count, i requires 0 <= i < count => (first as int + i) as char)
  }

  /** The alphabet GenerateRandomString draws from: 'A' to 'Z', 'a' to 'z', '0' to '9', in that order. */
  const Alphanumerics: string := CharRun('A', 26) + CharRun('a', 26) + CharRun('0', 10)

  predicate IsAlphanumeric(c: char)
  {
    'A' <= c <= 'Z' || 'a' <= c <= 'z' || '0' <= c <= '9'
  }

  /** The alphabet holds 62 characters, and they are exactly the ASCII letters and digits. */
  lemma AlphanumericsExactly(c: char)
    ensures |Alphanumerics| == 62
    ensures c in Alphanumerics <==> IsAlphanumeric(c)
  {
    if 'A' <= c <= 'Z' {
      assert Alphanumerics[c as int - 'A' as int] == c;
    } else if 'a' <= c <= 'z' {
      assert Alphanumerics[26 + c as int - 'a' as int] == c;
    } else if '0' <= c <= '9' {
      assert Alphanumerics[52 + c as int - '0' as int] == c;
    }
  }

  /**
   * GenerateRandomString(length): `picks[i]` is the value `random.Next(62)`
   * gives at step i. A negative length fails, as the StringBuilder
   * capacity does.
   */
  method GenerateRandomString(length: int, picks: seq<int>) returns (r: Option<string>)
    requires forall i :: 0 <= i < |picks| ==> 0 <= picks[i] < |Alphanumerics|
    requires length <= |picks|
    ensures r.None? <==> length < 0
    ensures r.Some? ==> |r.value| == length
    ensures r.Some? ==> forall i :: 0 <= i < length ==> r.value[i] == Alphanumerics[picks[i]] && IsAlphanumeric(r.value[i])
  {
    if length < 0 {
      return None;
    }
    var result := "";
    var i := 0;
    while i < length
      invariant 0 <= i <= length
      invariant |result| == i
      invariant forall k :: 0 <= k < i ==> result[k] == Alphanumerics[picks[k]] && IsAlphanumeric(result[k])
    {
      AlphanumericsExactly(Alphanumerics[picks[i]]);
      result := result + [Alphanumerics[picks[i]]];
      i := i + 1;
    }
    return Some(result);
  }

  // ---------------------------------------------------------------------------
  // Anchored patterns: `$` also matches before one final '\n'
  // ---------------------------------------------------------------------------

  /** The text a pattern ending in `$` must match in full: the whole text, or the text before one final '\n'. */
  predicate EndsInNewline(s: string)
  {
    |s| > 0 && s[|s| - 1] == '\n'
  }

  // ---------------------------------------------------------------------------
  // IsEmail: ^[^@\s]+@[^@\s]+\.[^@\s]+$
  // ---------------------------------------------------------------------------

  /** A character of the class `[^@\s]`; `\s` is the .NET white-space set. */
  predicate Plain(c: char)
  {
    c != '@' && !IsNetWhiteSpace(c)
  }

  predicate AllPlain(s: string)
  {
    forall i :: 0 <= i < |s| ==> Plain(s[i])
  }

  /** `[^@\s]+@[^@\s]+\.[^@\s]+` matching all of `t`: three non-empty plain runs around '@' and '.'. */
  predicate EmailMatch(t: string)
  {
    exists i, j :: 0 < i && i + 1 < j && j + 1 < |t| && t[i] == '@' && t[j] == '.'
                   && AllPlain(t[..i]) && AllPlain(t[i + 1..j]) && AllPlain(t[j + 1..])
  }

  predicate IsEmail(s: string)
  {
    !IsNullOrWhiteSpace(s) && (EmailMatch(s) || (EndsInNewline(s) && EmailMatch(s[..|s| - 1])))
  }

  /**
   * The shape of an address: no white space, exactly one '@' and not at the
   * start, and a '.' in the domain with text on both sides.
   */
  predicate EmailShape(t: string)
  {
    var k := IndexOf(t, '@');
    0 < k < |t|
    && (forall m :: k < m < |t| ==> t[m] != '@')
    && (forall m :: 0 <= m < |t| ==> !IsNetWhiteSpace(t[m]))
    && exists j :: k + 1 < j < |t| - 1 && t[j] == '.'
  }

  lemma EmailMatchIsShape(t: string)
    requires EmailMatch(t)
    ensures EmailShape(t)
  {
    var i, j :| 0 < i && i + 1 < j && j + 1 < |t| && t[i] == '@' && t[j] == '.'
                && AllPlain(t[..i]) && AllPlain(t[i + 1..j]) && AllPlain(t[j + 1..]);
    PlainAround(t, i, j);
    assert IndexOf(t, '@') == i by {
      assert forall m :: 0 <= m < i ==> t[m] != '@';
    }
    assert forall m :: i < m < |t| ==> t[m] != '@';
    assert forall m :: 0 <= m < |t| ==> !IsNetWhiteSpace(t[m]);
  }

  /** The three plain runs of a match make every character plain but the '@' between the first two. */
  lemma PlainAround(t: string, i: int, j: int)
    requires 0 < i && i + 1 < j && j + 1 < |t| && t[i] == '@' && t[j] == '.'
    requires AllPlain(t[..i]) && AllPlain(t[i + 1..j]) && AllPlain(t[j + 1..])
    ensures forall m :: 0 <= m < |t| && m != i ==> Plain(t[m])
  {
    forall m | 0 <= m < |t| && m != i
      ensures Plain(t[m])
    {
      if m < i {
        assert t[..i][m] == t[m];
      } else if m < j {
        assert t[i + 1..j][m - i - 1] == t[m];
      } else if j < m {
        assert t[j + 1..][m - j - 1] == t[m];
      }
    }
  }

  lemma EmailShapeIsMatch(t: string)
    requires EmailShape(t)
    ensures EmailMatch(t)
  {
    var k := IndexOf(t, '@');
    var j :| k + 1 < j < |t| - 1 && t[j] == '.';
    assert AllPlain(t[..k]) by {
      forall m | 0 <= m < k
        ensures Plain(t[..k][m])
      {
        assert t[..k][m] == t[m];
      }
    }
    var domain, top := t[k + 1..j], t[j + 1..];
    assert AllPlain(domain) by {
      forall m | 0 <= m < |domain|
        ensures Plain(domain[m])
      {
        assert domain[m] == t[k + 1 + m];
      }
    }
    assert AllPlain(top) by {
      forall m | 0 <= m < |top|
        ensures Plain(top[m])
      {
        assert top[m] == t[j + 1 + m];
      }
    }
  }

  /** The pattern accepts exactly the address shape. */
  lemma EmailMatchShape(t: string)
    ensures EmailMatch(t) <==> EmailShape(t)
  {
    if EmailMatch(t) {
      EmailMatchIsShape(t);
    }
    if EmailShape(t) {
      EmailShapeIsMatch(t);
    }
  }

  /** IsEmail is the address shape; one final line break is also accepted after it. */
  lemma IsEmailMeaning(s: string)
    ensures !EndsInNewline(s) ==> (IsEmail(s) <==> EmailShape(s))
    ensures IsEmail(s + "\n") <==> EmailShape(s)
  {
    EmailMatchShape(s);
    var t := s + "\n";
    assert t[..|t| - 1] == s;
    EmailMatchShape(t);
    if EmailShape(s) {
      assert !IsNetWhiteSpace(s[0]);
      assert !IsNullOrWhiteSpace(t) by {
        assert t[0] == s[0];
      }
    }
    assert IsNetWhiteSpace(t[|t| - 1]);
    if EmailMatch(s) {
      assert !IsNetWhiteSpace(s[0]);
    }
  }

  // ---------------------------------------------------------------------------
  // IsPhoneNumber: ^1[3-9]\d{9}$
  // ---------------------------------------------------------------------------

  /** First code points of the blocks of ten decimal digits (Unicode category Nd) in the Basic Multilingual Plane. */
  const DigitBlocks: set<int> := {0x0030, 0x0660, 0x06F0, 0x07C0, 0x0966, 0x09E6, 0x0A66, 0x0AE6, 0x0B66, 0x0BE6,
                                  0x0C66, 0x0CE6, 0x0D66, 0x0DE6, 0x0E50, 0x0ED0, 0x0F20, 0x1040, 0x1090, 0x17E0,
                                  0x1810, 0x1946, 0x19D0, 0x1A80, 0x1A90, 0x1B50, 0x1BB0, 0x1C40, 0x1C50, 0xA620,
                                  0xA8D0, 0xA900, 0xA9D0, 0xA9F0, 0xAA50, 0xABF0, 0xFF10}

  /** `\d` in a .NET pattern: any decimal digit, not only the ASCII ones. */
  predicate IsRegexDigit(c: char)
  {
    exists b :: b in DigitBlocks && b <= c as int < b + 10
  }

  predicate PhoneMatch(t: string)
  {
    |t| == 11 && t[0] == '1' && '3' <= t[1] <= '9' && forall i :: 2 <= i < 11 ==> IsRegexDigit(t[i])
  }

  predicate IsPhoneNumber(s: string)
  {
    !IsNullOrWhiteSpace(s) && (PhoneMatch(s) || (EndsInNewline(s) && PhoneMatch(s[..|s| - 1])))
  }

  /** Below U+0080 the only digits `\d` accepts are '0' to '9'. */
  lemma RegexDigitAscii(c: char)
    requires c as int < 0x80
    ensures IsRegexDigit(c) <==> IsAsciiDigit(c)
  {
    if IsAsciiDigit(c) {
      assert 0x30 in DigitBlocks;
    }
  }

  /**
   * On ASCII text without a final line break, IsPhoneNumber is exactly:
   * eleven characters, '1', one of '3'..'9', then nine digits.
   */
  lemma PhoneNumberAscii(s: string)
    requires forall i :: 0 <= i < |s| ==> s[i] as int < 0x80
    requires !EndsInNewline(s)
    ensures IsPhoneNumber(s) <==> |s| == 11 && s[0] == '1' && '3' <= s[1] <= '9' && IsDigitString(s[2..])
  {
    if |s| == 11 {
      forall i | 2 <= i < 11
        ensures IsRegexDigit(s[i]) <==> IsAsciiDigit(s[i])
      {
        RegexDigitAscii(s[i]);
      }
      assert forall i :: 2 <= i < 11 ==> s[2..][i - 2] == s[i];
      if s[0] == '1' {
        assert !IsNetWhiteSpace(s[0]);
      }
    }
  }

  /** What the pattern also lets through: one final line break, and digits outside ASCII such as fullwidth '０'. */
  lemma PhoneNumberLoopholes(p: string)
    requires |p| == 11 && p[0] == '1' && '3' <= p[1] <= '9' && IsDigitString(p[2..])
    ensures IsPhoneNumber(p + "\n")
    ensures IsPhoneNumber(p[..10] + "０")
  {
    assert forall i :: 2 <= i < 11 ==> p[2..][i - 2] == p[i];
    forall i | 2 <= i < 11
      ensures IsRegexDigit(p[i])
    {
      RegexDigitAscii(p[i]);
    }
    var t := p + "\n";
    assert t[..|t| - 1] == p;
    assert t[0] == '1';
    var q := p[..10] + "０";
    assert 0xFF10 in DigitBlocks && 0xFF10 <= q[10] as int < 0xFF10 + 10;
    assert forall i :: 2 <= i < 10 ==> q[i] == p[i];
    assert q[0] == '1';
  }

  // ---------------------------------------------------------------------------
  // RemoveSpecialCharacters
  // ---------------------------------------------------------------------------

  /** The characters `[^a-zA-Z0-9_.]+` does not remove. */
  predicate IsKept(c: char)
  {
    IsAlphanumeric(c) || c == '_' || c == '.'
  }

  /** RemoveSpecialCharacters: the kept characters, in order; empty input is returned as it is. */
  function RemoveSpecialCharacters(s: string): (r: string)
    ensures |r| <= |s|
    ensures forall c :: c in r <==> c in s && IsKept(c)
  {
    FilterMembers(s, IsKept);
    if s == "" then s else Filter(s, IsKept)
  }

  lemma RemoveSpecialCharactersIdempotent(s: string)
    ensures RemoveSpecialCharacters(RemoveSpecialCharacters(s)) == RemoveSpecialCharacters(s)
  {
    FilterIdempotent(s, IsKept);
  }

  // ---------------------------------------------------------------------------
  // Case conversion (ASCII letters)
  // ---------------------------------------------------------------------------

  predicate IsUpper(c: char) { 'A' <= c <= 'Z' }

  predicate IsLower(c: char) { 'a' <= c <= 'z' }

  function LowerChar(c: char): (r: char)
    ensures !IsUpper(r)
    ensures !IsUpper(c) ==> r == c
  {
    if IsUpper(c) then (c as int + 32) as char else c
  }

  function UpperChar(c: char): (r: char)
    ensures !IsLower(r)
    ensures !IsLower(c) ==> r == c
  {
    if IsLower(c) then (c as int - 32) as char else c
  }

  /** `ToLower()`. */
  function Lower(s: string): (r: string)
    ensures |r| == |s| && forall i :: 0 <= i < |s| ==> r[i] == LowerChar(s[i])
  {
    seq(|s|, i requires 0 <= i < |s| => LowerChar(s[i]))
  }

  lemma LowerAppend(a: string, b: string)
    ensures Lower(a + b) == Lower(a) + Lower(b)
  {
  }

  /** Text without capitals is its own lower case. */
  lemma LowerUnchanged(s: string)
    requires forall i :: 0 <= i < |s| ==> !IsUpper(s[i])
    ensures Lower(s) == s
  {
  }

  // ---------------------------------------------------------------------------
  // CamelToSnake
  // ---------------------------------------------------------------------------

  /** `Regex.Replace(s, "([A-Z])", "_$1")` on text that follows the first character. */
  function UnderscoreCapitals(s: string): (r: string)
  {
    if |s| == 0 then "" else (if IsUpper(s[0]) then "_" + [s[0]] else [s[0]]) + UnderscoreCapitals(s[1..])
  }

  /** `Regex.Replace(s, "(?<!^)([A-Z])", "_$1")`: an '_' before every capital except at index 0. */
  function Underscored(s: string): string
  {
    if |s| == 0 then "" else [s[0]] + UnderscoreCapitals(s[1..])
  }

  function CamelToSnake(s: string): (r: string)
    ensures forall i :: 0 <= i < |r| ==> !IsUpper(r[i])
  {
    if s == "" then s else Lower(Underscored(s))
  }

  lemma {:induction false} UnderscoreCapitalsAppend(a: string, b: string)
    ensures UnderscoreCapitals(a + b) == UnderscoreCapitals(a) + UnderscoreCapitals(b)
  {
    if |a| > 0 {
      assert (a + b)[1..] == a[1..] + b;
      UnderscoreCapitalsAppend(a[1..], b);
    } else {
      assert a + b == b;
    }
  }

  lemma {:induction false} UnderscoreCapitalsNone(s: string)
    requires forall i :: 0 <= i < |s| ==> !IsUpper(s[i])
    ensures UnderscoreCapitals(s) == s
  {
    if |s| > 0 {
      UnderscoreCapitalsNone(s[1..]);
    }
  }

  lemma {:induction false} UnderscoreCapitalsNoUnderscore(s: string)
    requires '_' !in s
    ensures forall i :: 0 <= i < |UnderscoreCapitals(s)| && UnderscoreCapitals(s)[i] == '_' ==>
              i + 1 < |UnderscoreCapitals(s)| && IsUpper(UnderscoreCapitals(s)[i + 1])
  {
    if |s| > 0 {
      assert s[0] in s;
      UnderscoreCapitalsNoUnderscore(s[1..]);
      assert forall c :: c in s[1..] ==> c in s;
    }
  }

  // ---------------------------------------------------------------------------
  // SnakeToCamel
  // ---------------------------------------------------------------------------

  /** A later word: its first character upper-cased and the rest lower-cased; an empty word adds nothing. */
  function Capitalised(w: string): string
  {
    if |w| == 0 then "" else [UpperChar(w[0])] + Lower(w[1..])
  }

  /** The capitalised words, in order. */
  function CapitalisedAll(ws: seq<string>): string
  {
    if |ws| == 0 then "" else CapitalisedAll(ws[..|ws| - 1]) + Capitalised(ws[|ws| - 1])
  }

  /** SnakeToCamel's result: the first word lower-cased, then the later words capitalised. */
  function SnakeToCamelOf(s: string): string
  {
    if s == "" then s
    else
      var words := Split(s, '_');
      Lower(words[0]) + CapitalisedAll(words[1..])
  }

  lemma {:induction false} CapitalisedAllNoUnderscore(ws: seq<string>)
    requires forall i :: 0 <= i < |ws| ==> '_' !in ws[i]
    ensures '_' !in CapitalisedAll(ws)
  {
    if |ws| > 0 {
      var w := ws[|ws| - 1];
      CapitalisedAllNoUnderscore(ws[..|ws| - 1]);
      if |w| > 0 {
        assert w[0] in w;
        assert forall i :: 1 <= i < |w| ==> w[i] in w;
        assert '_' !in Capitalised(w);
      }
    }
  }

  /** SnakeToCamel leaves no '_' behind. */
  lemma SnakeToCamelNoUnderscore(s: string)
    ensures '_' !in SnakeToCamelOf(s)
  {
    if s != "" {
      var words := Split(s, '_');
      CapitalisedAllNoUnderscore(words[1..]);
    }
  }

  /** One more word appended to a partial SnakeToCamel result. */
  lemma CapitalisedAllStep(head: string, words: seq<string>, i: nat, before: string, after: string)
    requires 1 <= i < |words|
    requires before == head + CapitalisedAll(words[1..i])
    requires after == before + Capitalised(words[i])
    ensures after == head + CapitalisedAll(words[1..i + 1])
  {
    assert words[1..i + 1][..i - 1] == words[1..i];
    AppendAssoc(head, CapitalisedAll(words[1..i]), Capitalised(words[i]));
  }

  /** The two appends of one loop turn add the capitalised word. */
  lemma AppendCapitalised(before: string, w: string, after: string)
    requires |w| == 0 ==> after == before
    requires |w| == 1 ==> after == before + [UpperChar(w[0])]
    requires |w| > 1 ==> after == before + [UpperChar(w[0])] + Lower(w[1..])
    ensures after == before + Capitalised(w)
  {
    if |w| > 0 {
      AppendAssoc(before, [UpperChar(w[0])], Lower(w[1..]));
    }
  }

  method SnakeToCamel(snakeCase: string) returns (r: string)
    ensures r == SnakeToCamelOf(snakeCase)
  {
    if snakeCase == "" {
      return snakeCase;
    }
    var words := Split(snakeCase, '_');
    var result := Lower(words[0]);
    var i := 1;
    while i < |words|
      invariant 1 <= i <= |words|
      invariant result == Lower(words[0]) + CapitalisedAll(words[1..i])
    {
      var w := words[i];
      ghost var before := result;
      if |w| > 0 {
        result := result + [UpperChar(w[0])];
        if |w| > 1 {
          result := result + Lower(w[1..]);
        }
      }
      AppendCapitalised(before, w, result);
      CapitalisedAllStep(Lower(words[0]), words, i, before, result);
      i := i + 1;
    }
    assert words[1..i] == words[1..];
    return result;
  }

  /** Appending a word after an '_' appends it capitalised. */
  lemma SnakeToCamelSnoc(x: string, y: string)
    requires '_' !in y
    ensures SnakeToCamelOf(x + "_" + y) == SnakeToCamelOf(x) + Capitalised(y)
  {
    SplitSnoc(x, '_', y);
    var ws := Split(x, '_');
    var vs := Split(x + "_" + y, '_');
    assert vs[0] == ws[0] && vs[1..] == ws[1..] + [y];
    SnakeToCamelOfWords(x);
    SnakeToCamelOfWords(x + "_" + y);
    CapitalisedAllSnoc(ws[1..], y);
    AppendAssoc(Lower(ws[0]), CapitalisedAll(ws[1..]), Capitalised(y));
  }

  /** SnakeToCamelOf in terms of the words, the empty text included. */
  lemma SnakeToCamelOfWords(s: string)
    ensures var words := Split(s, '_'); SnakeToCamelOf(s) == Lower(words[0]) + CapitalisedAll(words[1..])
  {
    if s == "" {
      assert Split(s, '_') == [""];
    }
  }

  lemma CapitalisedAllSnoc(ws: seq<string>, w: string)
    ensures CapitalisedAll(ws + [w]) == CapitalisedAll(ws) + Capitalised(w)
  {
    assert (ws + [w])[..|ws|] == ws;
  }

  /** Index of the last capital, or -1 when there is none. */
  function LastCapital(s: string): (k: int)
    ensures -1 <= k < |s|
    ensures k >= 0 ==> IsUpper(s[k])
    ensures forall i :: k < i < |s| ==> !IsUpper(s[i])
  {
    if |s| == 0 then -1 else if IsUpper(s[|s| - 1]) then |s| - 1 else LastCapital(s[..|s| - 1])
  }

  /** Underscoring a text ending in a capital word puts one '_' before that word. */
  lemma UnderscoredSnoc(p: string, u: char, t: string)
    requires |p| > 0 && IsUpper(u)
    requires forall i :: 0 <= i < |t| ==> !IsUpper(t[i])
    ensures Underscored(p + [u] + t) == (Underscored(p) + "_") + ([u] + t)
  {
    var s, w := p + [u] + t, [u] + t;
    assert s[0] == p[0] && s[1..] == p[1..] + w;
    UnderscoreCapitalsAppend(p[1..], w);
    UnderscoreCapitalWord(u, t);
    var a := UnderscoreCapitals(p[1..]);
    assert Underscored(s) == [p[0]] + (a + ("_" + w));
    assert Underscored(p) == [p[0]] + a;
    assert [p[0]] + (a + ("_" + w)) == ([p[0]] + a + "_") + w;
  }

  /** A capital followed by no capitals gets exactly one '_', in front. */
  lemma UnderscoreCapitalWord(u: char, t: string)
    requires IsUpper(u)
    requires forall i :: 0 <= i < |t| ==> !IsUpper(t[i])
    ensures UnderscoreCapitals([u] + t) == "_" + ([u] + t)
  {
    var w := [u] + t;
    assert w[0] == u && w[1..] == t;
    assert UnderscoreCapitals(w) == ("_" + [u]) + UnderscoreCapitals(t);
    UnderscoreCapitalsNone(t);
    AppendAssoc("_", [u], t);
  }

  /** Camel case of a text ending in a capital word: an '_', then that word lower-cased. */
  lemma CamelToSnakeSnoc(p: string, u: char, t: string)
    requires |p| > 0 && IsUpper(u)
    requires forall i :: 0 <= i < |t| ==> !IsUpper(t[i])
    ensures CamelToSnake(p + [u] + t) == CamelToSnake(p) + "_" + Lower([u] + t)
  {
    var up := Underscored(p);
    UnderscoredSnoc(p, u, t);
    LowerAppend(up + "_", [u] + t);
    LowerAppend(up, "_");
  }

  /** A capital word lower-cased and then capitalised is the word again. */
  lemma CapitalisedLowered(u: char, t: string)
    requires IsUpper(u)
    requires forall i :: 0 <= i < |t| ==> !IsUpper(t[i])
    ensures Capitalised(Lower([u] + t)) == [u] + t
  {
    var w := Lower([u] + t);
    assert w[1..] == Lower(t);
    LowerUnchanged(t);
    LowerUnchanged(w[1..]);
  }

  lemma LowerKeepsUnderscoreOut(s: string)
    requires '_' !in s
    ensures '_' !in Lower(s)
  {
    var w := Lower(s);
    forall i | 0 <= i < |w|
      ensures w[i] != '_'
    {
      assert s[i] in s;
    }
  }

  /**
   * Snake case undoes camel case: text without '_' that does not start with
   * a capital comes back from CamelToSnake through SnakeToCamel.
   */
  lemma {:induction false} CamelSnakeRoundTrip(s: string)
    requires '_' !in s
    requires |s| > 0 ==> !IsUpper(s[0])
    ensures SnakeToCamelOf(CamelToSnake(s)) == s
    decreases |s|
  {
    if s == "" {
      return;
    }
    var k := LastCapital(s);
    if k < 0 {
      CamelSnakeNoCapital(s);
      return;
    }
    var p := s[..k];
    var t := s[k + 1..];
    assert s == p + [s[k]] + t;
    assert forall i :: 0 <= i < |p| ==> p[i] == s[i];
    assert forall i :: 0 <= i < |t| ==> t[i] == s[k + 1 + i];
    assert '_' !in p && '_' !in [s[k]] + t by {
      assert forall c :: c in p ==> c in s;
      assert forall c :: c in [s[k]] + t ==> c in s;
    }
    CamelToSnakeSnoc(p, s[k], t);
    LowerKeepsUnderscoreOut([s[k]] + t);
    SnakeToCamelSnoc(CamelToSnake(p), Lower([s[k]] + t));
    CamelSnakeRoundTrip(p);
    CapitalisedLowered(s[k], t);
    AppendAssoc(p, [s[k]], t);
  }

  /** Text without capitals or '_' is its own snake case and its own camel case. */
  lemma CamelSnakeNoCapital(s: string)
    requires s != "" && '_' !in s
    requires forall i :: 0 <= i < |s| ==> !IsUpper(s[i])
    ensures CamelToSnake(s) == s && SnakeToCamelOf(s) == s
  {
    UnderscoreCapitalsNone(s[1..]);
    assert Underscored(s) == s;
    LowerUnchanged(s);
    SplitWithout(s, '_');
  }
  // ---------------------------------------------------------------------------
  // TruncateWithEllipsis
  // ---------------------------------------------------------------------------

  /**
   * TruncateWithEllipsis(str, maxLength, ellipsis). A negative maxLength on
   * text that does not fit fails in `Substring`.
   */
  function TruncateWithEllipsis(s: string, maxLength: int, ellipsis: string): (r: Option<string>)
    ensures r.None? <==> s != "" && maxLength < 0
    ensures s == "" || |s| <= maxLength ==> r == Some(s)
    ensures r.Some? && s != "" && |s| > maxLength ==>
              |r.value| == maxLength
              && (maxLength <= |ellipsis| ==> r.value == ellipsis[..maxLength])
              && (maxLength > |ellipsis| ==> r.value[..maxLength - |ellipsis|] == s[..maxLength - |ellipsis|]
                                              && r.value[maxLength - |ellipsis|..] == ellipsis)
  {
    if s == "" || |s| <= maxLength then Some(s)
    else if maxLength <= |ellipsis| then
      if maxLength < 0 then None else Some(ellipsis[..maxLength])
    else Some(s[..maxLength - |ellipsis|] + ellipsis)
  }

  /** The result never exceeds the limit, and text that fits is left alone. */
  lemma TruncateWithEllipsisFits(s: string, maxLength: nat, ellipsis: string)
    ensures TruncateWithEllipsis(s, maxLength, ellipsis).Some?
    ensures |TruncateWithEllipsis(s, maxLength, ellipsis).value| <= maxLength || s == ""
    ensures TruncateWithEllipsis(s, maxLength, ellipsis).value == s <==> |s| <= maxLength || s == ""
  {
    var r := TruncateWithEllipsis(s, maxLength, ellipsis).value;
    if s != "" && |s| > maxLength {
      assert |r| == maxLength < |s|;
    }
  }

  // ---------------------------------------------------------------------------
  // SplitLines
  // ---------------------------------------------------------------------------

  predicate IsBreak(c: char) { c == '\r' || c == '\n' }

  predicate NoBreak(s: string)
  {
    forall i :: 0 <= i < |s| ==> !IsBreak(s[i])
  }

  /** Index of the first '\r' or '\n', or |s|. */
  function FirstBreak(s: string): (k: nat)
    ensures k <= |s|
    ensures k < |s| ==> IsBreak(s[k])
    ensures forall i :: 0 <= i < k ==> !IsBreak(s[i])
  {
    if |s| == 0 then 0 else if IsBreak(s[0]) then 0 else 1 + FirstBreak(s[1..])
  }

  /** The separator found at a line break: "\r\n" when it is there, otherwise the single character. */
  function BreakAt(s: string, k: nat): (sep: string)
    requires k < |s| && IsBreak(s[k])
    ensures sep == "\r\n" || sep == "\r" || sep == "\n"
    ensures k + |sep| <= |s| && s[k..k + |sep|] == sep
  {
    if s[k] == '\r' && k + 1 < |s| && s[k + 1] == '\n' then "\r\n" else [s[k]]
  }

  /** `s.Split(new[] { "\r\n", "\r", "\n" }, None)`: the pieces and the separators between them. */
  function Lines(s: string): (r: (seq<string>, seq<string>))
    ensures |r.0| == |r.1| + 1
    decreases |s|
  {
    var k := FirstBreak(s);
    if k == |s| then ([s], [])
    else
      var sep := BreakAt(s, k);
      var rest := Lines(s[k + |sep|..]);
      ([s[..k]] + rest.0, [sep] + rest.1)
  }

  /** The pieces put back together with the separators between them. */
  function Interleave(pieces: seq<string>, seps: seq<string>): string
    requires |pieces| == |seps| + 1
  {
    if |seps| == 0 then pieces[0] else pieces[0] + seps[0] + Interleave(pieces[1..], seps[1..])
  }

  /** SplitLines: no pieces for empty text. */
  function SplitLines(text: string): seq<string>
  {
    if text == "" then [] else Lines(text).0
  }

  /** No piece holds a line break. */
  lemma {:induction false} LinesNoBreak(s: string)
    ensures forall i :: 0 <= i < |Lines(s).0| ==> NoBreak(Lines(s).0[i])
    decreases |s|
  {
    var k := FirstBreak(s);
    if k < |s| {
      var sep := BreakAt(s, k);
      LinesNoBreak(s[k + |sep|..]);
      assert NoBreak(s[..k]) by {
        assert forall i :: 0 <= i < k ==> s[..k][i] == s[i];
      }
    }
  }

  /** Every separator is "\r\n", "\r" or "\n". */
  lemma {:induction false} LinesSeparators(s: string)
    ensures forall i :: 0 <= i < |Lines(s).1| ==> Lines(s).1[i] in {"\r\n", "\r", "\n"}
    decreases |s|
  {
    var k := FirstBreak(s);
    if k < |s| {
      var sep := BreakAt(s, k);
      LinesSeparators(s[k + |sep|..]);
    }
  }

  /** The pieces with the separators between them give the text back. */
  lemma {:induction false} LinesRejoin(s: string)
    ensures Interleave(Lines(s).0, Lines(s).1) == s
    decreases |s|
  {
    var k := FirstBreak(s);
    if k < |s| {
      var sep := BreakAt(s, k);
      var rest := s[k + |sep|..];
      LinesRejoin(rest);
      assert s == s[..k] + sep + rest;
    }
  }
}

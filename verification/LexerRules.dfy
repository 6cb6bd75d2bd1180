/** What the tokenizer's patterns stand for, in plain words: which pieces of text each of them matches. */
module LexerRules {
  import opened Options
  import opened Regex
  import opened Tokens
  import opened Lexer

  predicate IsDigit(c: char) { '0' <= c <= '9' }

  predicate IsLower(c: char) { 'a' <= c <= 'z' }

  predicate IsUpper(c: char) { 'A' <= c <= 'Z' }

  predicate IsWord(c: char) { IsLower(c) || IsUpper(c) || IsDigit(c) || c == '_' }

  predicate Digits(s: string, i: nat, j: nat)
    requires j <= |s|
  {
    forall k | i <= k < j :: IsDigit(s[k])
  }

  predicate Words(s: string, i: nat, j: nat)
    requires j <= |s|
  {
    forall k | i <= k < j :: IsWord(s[k])
  }

  predicate Blank(s: string, i: nat, j: nat)
    requires j <= |s|
  {
    forall k | i <= k < j :: s[k] == ' ' || s[k] == '\t'
  }

  predicate Lacks(s: string, i: nat, j: nat, c: char)
    requires j <= |s|
  {
    forall k | i <= k < j :: s[k] != c
  }

  /** Digits, and then perhaps a point and more digits or none. */
  ghost predicate Unsigned(s: string, i: nat, j: nat)
    requires i <= j <= |s|
  {
    || (i < j && Digits(s, i, j))
    || exists m :: i < m < j && Digits(s, i, m) && s[m] == '.' && Digits(s, m + 1, j)
  }

  ghost predicate Numeral(s: string, i: nat, j: nat)
    requires i <= j <= |s|
  {
    Unsigned(s, i, j) || (i < j && (s[i] == '-' || s[i] == '+') && Unsigned(s, i + 1, j))
  }

  predicate Quoted(s: string, i: nat, j: nat, c: char)
    requires i <= j <= |s|
  {
    i + 2 <= j && s[i] == c == s[j - 1] && Lacks(s, i + 1, j - 1, c)
  }

  // ---- The pieces that the patterns are made of ----

  lemma {:induction false} TextIs(x: string, s: string, i: nat, j: nat)
    requires i <= j <= |s|
    ensures Matches(Text(x), s, i, j) <==> s[i..j] == x
    decreases |x|
  {
    if x != "" {
      if Matches(Text(x), s, i, j) {
        var m := CatSplits(Text(x), s, i, j);
        TextIs(x[1..], s, m, j);
        assert s[i..j] == [s[i]] + s[i + 1..j] && x == [x[0]] + x[1..];
      }
      if s[i..j] == x {
        assert s[i] == x[0] && s[i + 1..j] == x[1..];
        TextIs(x[1..], s, i + 1, j);
        assert Matches(OneOf({x[0]}), s, i, i + 1);
      }
    } else {
      assert s[i..j] == "" <==> i == j;
    }
  }

  predicate AllOf(s: string, i: nat, j: nat, chars: set<char>)
    requires j <= |s|
  {
    forall k | i <= k < j :: s[k] in chars
  }

  predicate NoneIn(s: string, i: nat, j: nat, chars: set<char>)
    requires j <= |s|
  {
    forall k | i <= k < j :: s[k] !in chars
  }

  lemma {:induction false} StarOneOf(chars: set<char>, s: string, i: nat, j: nat)
    requires i <= j <= |s|
    ensures Matches(Star(OneOf(chars)), s, i, j) <==> AllOf(s, i, j, chars)
    decreases j - i
  {
    if i < j {
      if Matches(Star(OneOf(chars)), s, i, j) {
        var m := StarSplits(Star(OneOf(chars)), s, i, j);
        StarOneOf(chars, s, m, j);
      }
      if AllOf(s, i, j, chars) {
        StarOneOf(chars, s, i + 1, j);
        assert Matches(OneOf(chars), s, i, i + 1);
      }
    }
  }

  lemma {:induction false} StarNoneOf(chars: set<char>, s: string, i: nat, j: nat)
    requires i <= j <= |s|
    ensures Matches(Star(NoneOf(chars)), s, i, j) <==> NoneIn(s, i, j, chars)
    decreases j - i
  {
    if i < j {
      if Matches(Star(NoneOf(chars)), s, i, j) {
        var m := StarSplits(Star(NoneOf(chars)), s, i, j);
        StarNoneOf(chars, s, m, j);
      }
      if NoneIn(s, i, j, chars) {
        StarNoneOf(chars, s, i + 1, j);
        assert Matches(NoneOf(chars), s, i, i + 1);
      }
    }
  }

  lemma ManyOneOf(chars: set<char>, s: string, i: nat, j: nat)
    requires i <= j <= |s|
    ensures Matches(Many(OneOf(chars)), s, i, j) <==> i < j && AllOf(s, i, j, chars)
  {
    if Matches(Many(OneOf(chars)), s, i, j) {
      var m := CatSplits(Many(OneOf(chars)), s, i, j);
      StarOneOf(chars, s, m, j);
    }
    if i < j && AllOf(s, i, j, chars) {
      StarOneOf(chars, s, i + 1, j);
      assert Matches(OneOf(chars), s, i, i + 1);
    }
  }

  /** A part of one character comes first. */
  lemma CatOne(c: char, r: Regex, s: string, i: nat, j: nat)
    requires i <= j <= |s|
    ensures Matches(Cat(Text([c]), r), s, i, j) <==> i < j && s[i] == c && Matches(r, s, i + 1, j)
  {
    if Matches(Cat(Text([c]), r), s, i, j) {
      var m := CatSplits(Cat(Text([c]), r), s, i, j);
      TextIs([c], s, i, m);
      assert |s[i..m]| == 1;
    }
    if i < j && s[i] == c && Matches(r, s, i + 1, j) {
      TextIs([c], s, i, i + 1);
      assert s[i..i + 1] == [c];
    }
  }

  /** Text without a character up to that character. */
  lemma UpTo(c: char, s: string, i: nat, j: nat)
    requires i <= j <= |s|
    ensures Matches(Cat(Star(NoneOf({c})), Text([c])), s, i, j) <==> i < j && s[j - 1] == c && Lacks(s, i, j - 1, c)
  {
    var r := Cat(Star(NoneOf({c})), Text([c]));
    if Matches(r, s, i, j) {
      var m := CatSplits(r, s, i, j);
      StarNoneOf({c}, s, i, m);
      TextIs([c], s, m, j);
      assert |s[m..j]| == 1 && s[m..j][0] == s[m];
    }
    if i < j && s[j - 1] == c && Lacks(s, i, j - 1, c) {
      StarNoneOf({c}, s, i, j - 1);
      TextIs([c], s, j - 1, j);
      assert s[j - 1..j] == [c];
    }
  }

  lemma QuotedIs(c: char, s: string, i: nat, j: nat)
    requires i <= j <= |s|
    ensures Matches(Cat(Text([c]), Cat(Star(NoneOf({c})), Text([c]))), s, i, j) <==> Quoted(s, i, j, c)
  {
    CatOne(c, Cat(Star(NoneOf({c})), Text([c])), s, i, j);
    if i < j { UpTo(c, s, i + 1, j); }
  }

  lemma PrefixedWords(c: char, s: string, i: nat, j: nat)
    requires i <= j <= |s|
    ensures Matches(Cat(Text([c]), Many(WORD)), s, i, j) <==> i + 1 < j && s[i] == c && Words(s, i + 1, j)
  {
    CatOne(c, Many(WORD), s, i, j);
    if i < j { ManyOneOf(WORD.chars, s, i + 1, j); }
  }

  lemma LineCommentIs(s: string, i: nat, j: nat)
    requires i <= j <= |s|
    ensures Matches(RULES[1].regex, s, i, j) <==>
      i + 2 < j && s[i] == s[i + 1] == '/' && s[j - 1] == '\n' && Lacks(s, i + 2, j - 1, '\n')
  {
    var rest := Cat(Star(NoneOf({'\n'})), Text("\n"));
    if Matches(Cat(Text("//"), rest), s, i, j) {
      var m := CatSplits(Cat(Text("//"), rest), s, i, j);
      TextIs("//", s, i, m);
      assert |s[i..m]| == 2 && s[i..m][0] == s[i] && s[i..m][1] == s[i + 1];
      UpTo('\n', s, m, j);
    }
    if i + 2 < j && s[i] == s[i + 1] == '/' && s[j - 1] == '\n' && Lacks(s, i + 2, j - 1, '\n') {
      TextIs("//", s, i, i + 2);
      assert s[i..i + 2] == "//";
      UpTo('\n', s, i + 2, j);
    }
  }

  lemma IdentifierIs(s: string, i: nat, j: nat)
    requires i <= j <= |s|
    ensures Matches(Cat(Many(LOWER), Star(WORD)), s, i, j) <==> i < j && IsLower(s[i]) && Words(s, i, j)
  {
    var r := Cat(Many(LOWER), Star(WORD));
    if Matches(r, s, i, j) {
      var m := CatSplits(r, s, i, j);
      ManyOneOf(LOWER.chars, s, i, m);
      StarOneOf(WORD.chars, s, m, j);
    }
    if i < j && IsLower(s[i]) && Words(s, i, j) {
      ManyOneOf(LOWER.chars, s, i, i + 1);
      StarOneOf(WORD.chars, s, i + 1, j);
    }
  }

  lemma ClassNameIs(s: string, i: nat, j: nat)
    requires i <= j <= |s|
    ensures Matches(Cat(Many(UPPER), Many(WORD)), s, i, j) <==> i + 1 < j && IsUpper(s[i]) && Words(s, i, j)
  {
    var r := Cat(Many(UPPER), Many(WORD));
    if Matches(r, s, i, j) {
      var m := CatSplits(r, s, i, j);
      ManyOneOf(UPPER.chars, s, i, m);
      ManyOneOf(WORD.chars, s, m, j);
    }
    if i + 1 < j && IsUpper(s[i]) && Words(s, i, j) {
      ManyOneOf(UPPER.chars, s, i, i + 1);
      ManyOneOf(WORD.chars, s, i + 1, j);
    }
  }

  // ---- Numbers ----

  const FRACTION := Cat(Maybe(OneOf({'.'})), Star(DIGIT))

  lemma MaybeOneOf(chars: set<char>, s: string, i: nat, j: nat)
    requires i <= j <= |s|
    ensures Matches(Maybe(OneOf(chars)), s, i, j) <==> i == j || (j == i + 1 && s[i] in chars)
  {
    assert Matches(Maybe(OneOf(chars)), s, i, j) <==> Matches(OneOf(chars), s, i, j) || Matches(Nothing, s, i, j);
  }

  lemma FractionIs(s: string, i: nat, j: nat)
    requires i <= j <= |s|
    ensures Matches(FRACTION, s, i, j) <==> Digits(s, i, j) || (i < j && s[i] == '.' && Digits(s, i + 1, j))
  {
    if Matches(FRACTION, s, i, j) {
      var m := CatSplits(FRACTION, s, i, j);
      MaybeOneOf({'.'}, s, i, m);
      StarOneOf(DIGIT.chars, s, m, j);
    }
    if Digits(s, i, j) {
      StarOneOf(DIGIT.chars, s, i, j);
      MaybeOneOf({'.'}, s, i, i);
    }
    if i < j && s[i] == '.' && Digits(s, i + 1, j) {
      StarOneOf(DIGIT.chars, s, i + 1, j);
      MaybeOneOf({'.'}, s, i, i + 1);
    }
  }

  lemma UnsignedIs(s: string, i: nat, j: nat)
    requires i <= j <= |s|
    ensures Matches(Cat(Many(DIGIT), FRACTION), s, i, j) <==> Unsigned(s, i, j)
  {
    var r := Cat(Many(DIGIT), FRACTION);
    if Matches(r, s, i, j) {
      var m := CatSplits(r, s, i, j);
      ManyOneOf(DIGIT.chars, s, i, m);
      FractionIs(s, m, j);
      assert Digits(s, i, m);
      if Digits(s, m, j) { assert Digits(s, i, j); }
    }
    if i < j && Digits(s, i, j) {
      ManyOneOf(DIGIT.chars, s, i, j);
      FractionIs(s, j, j);
    }
    if m :| i < m < j && Digits(s, i, m) && s[m] == '.' && Digits(s, m + 1, j) {
      ManyOneOf(DIGIT.chars, s, i, m);
      FractionIs(s, m, j);
    }
  }

  lemma NumeralIs(s: string, i: nat, j: nat)
    requires i <= j <= |s|
    ensures Matches(NUMERAL, s, i, j) <==> Numeral(s, i, j)
  {
    assert NUMERAL == Cat(Maybe(OneOf({'-', '+'})), Cat(Many(DIGIT), FRACTION));
    if Matches(NUMERAL, s, i, j) {
      var m := CatSplits(NUMERAL, s, i, j);
      MaybeOneOf({'-', '+'}, s, i, m);
      UnsignedIs(s, m, j);
    }
    if Unsigned(s, i, j) {
      UnsignedIs(s, i, j);
      MaybeOneOf({'-', '+'}, s, i, i);
    }
    if i < j && (s[i] == '-' || s[i] == '+') && Unsigned(s, i + 1, j) {
      UnsignedIs(s, i + 1, j);
      MaybeOneOf({'-', '+'}, s, i, i + 1);
    }
  }

  /** Blanks, and then what the other pattern matches. */
  lemma BlanksThen(r: Regex, s: string, i: nat, j: nat) returns (m: nat)
    requires i <= j <= |s| && Matches(Cat(BLANKS, r), s, i, j)
    ensures i <= m <= j && Blank(s, i, m) && Matches(r, s, m, j)
  {
    m := CatSplits(Cat(BLANKS, r), s, i, j);
    StarOneOf({' ', '\t'}, s, i, m);
  }

  lemma ThenBlanks(r: Regex, s: string, i: nat, m: nat, j: nat)
    requires i <= m <= j <= |s| && Blank(s, i, m) && Matches(r, s, m, j)
    ensures Matches(Cat(BLANKS, r), s, i, j)
  {
    StarOneOf({' ', '\t'}, s, i, m);
  }

  /** Two numerals with a slash between them, and blanks around it. */
  ghost predicate IsRatio(s: string, i: nat, j: nat) {
    exists a: nat, b: nat, c: nat :: RatioAt(s, i, a, b, c, j)
  }

  ghost predicate RatioAt(s: string, i: nat, a: nat, b: nat, c: nat, j: nat) {
    && i <= a <= b < c <= j <= |s|
    && Numeral(s, i, a) && Blank(s, a, b) && s[b] == '/' && Blank(s, b + 1, c) && Numeral(s, c, j)
  }

  const SLASHED := Cat(Text("/"), Cat(BLANKS, NUMERAL))

  lemma ReadRatio(s: string, i: nat, j: nat)
    requires i <= j <= |s| && Matches(Cat(NUMERAL, Cat(BLANKS, SLASHED)), s, i, j)
    ensures IsRatio(s, i, j)
  {
    var a := CatSplits(Cat(NUMERAL, Cat(BLANKS, SLASHED)), s, i, j);
    NumeralIs(s, i, a);
    var b := BlanksThen(SLASHED, s, a, j);
    CatOne('/', Cat(BLANKS, NUMERAL), s, b, j);
    var c := BlanksThen(NUMERAL, s, b + 1, j);
    NumeralIs(s, c, j);
    assert RatioAt(s, i, a, b, c, j);
  }

  lemma WriteRatio(s: string, i: nat, a: nat, b: nat, c: nat, j: nat)
    requires RatioAt(s, i, a, b, c, j)
    ensures Matches(Cat(NUMERAL, Cat(BLANKS, SLASHED)), s, i, j)
  {
    NumeralIs(s, c, j);
    ThenBlanks(NUMERAL, s, b + 1, c, j);
    CatOne('/', Cat(BLANKS, NUMERAL), s, b, j);
    ThenBlanks(SLASHED, s, a, b, j);
    NumeralIs(s, i, a);
  }

  lemma RatioIs(s: string, i: nat, j: nat)
    requires i <= j <= |s|
    ensures Matches(Cat(NUMERAL, Cat(BLANKS, SLASHED)), s, i, j) <==> IsRatio(s, i, j)
  {
    if Matches(Cat(NUMERAL, Cat(BLANKS, SLASHED)), s, i, j) {
      ReadRatio(s, i, j);
    }
    if a: nat, b: nat, c: nat :| RatioAt(s, i, a, b, c, j) {
      WriteRatio(s, i, a, b, c, j);
    }
  }

  // ---- Block comments ----

  /** Read from the left, each asterisk takes the next character with it, which is no slash. */
  predicate Unclosed(s: string, i: nat, j: nat)
    requires i <= j <= |s|
    decreases j - i
  {
    || i == j
    || (s[i] != '*' && Unclosed(s, i + 1, j))
    || (i + 2 <= j && s[i] == '*' && s[i + 1] != '/' && Unclosed(s, i + 2, j))
  }

  lemma NotClosingIs(s: string, i: nat, j: nat)
    requires i <= j <= |s|
    ensures Matches(NOT_CLOSING, s, i, j) <==>
      (j == i + 1 && s[i] != '*') || (j == i + 2 && s[i] == '*' && s[i + 1] != '/')
  {
    var star := Cat(OneOf({'*'}), NoneOf({'/'}));
    assert Matches(NOT_CLOSING, s, i, j) <==> Matches(NoneOf({'*'}), s, i, j) || Matches(star, s, i, j);
    if Matches(star, s, i, j) {
      var m := CatSplits(star, s, i, j);
    }
    if j == i + 2 && s[i] == '*' && s[i + 1] != '/' {
      assert Matches(OneOf({'*'}), s, i, i + 1) && Matches(NoneOf({'/'}), s, i + 1, j);
    }
  }

  lemma {:induction false} UnclosedIs(s: string, i: nat, j: nat)
    requires i <= j <= |s|
    ensures Matches(Star(NOT_CLOSING), s, i, j) <==> Unclosed(s, i, j)
    decreases j - i
  {
    if i < j {
      if Matches(Star(NOT_CLOSING), s, i, j) {
        var m := StarSplits(Star(NOT_CLOSING), s, i, j);
        NotClosingIs(s, i, m);
        UnclosedIs(s, m, j);
      }
      if Unclosed(s, i, j) {
        var m := if s[i] != '*' then i + 1 else i + 2;
        NotClosingIs(s, i, m);
        UnclosedIs(s, m, j);
      }
    }
  }

  lemma BlockCommentIs(s: string, i: nat, j: nat)
    requires i <= j <= |s|
    ensures Matches(Cat(Text("/*"), Cat(Star(NOT_CLOSING), Text("*/"))), s, i, j) <==>
      && i + 4 <= j && s[i] == '/' && s[i + 1] == '*' && s[j - 2] == '*' && s[j - 1] == '/'
      && Unclosed(s, i + 2, j - 2)
  {
    var rest := Cat(Star(NOT_CLOSING), Text("*/"));
    if Matches(Cat(Text("/*"), rest), s, i, j) {
      var m := CatSplits(Cat(Text("/*"), rest), s, i, j);
      TwoChars("/*", s, i, m);
      var n := CatSplits(rest, s, m, j);
      TwoChars("*/", s, n, j);
      UnclosedIs(s, m, n);
    }
    if i + 4 <= j && s[i] == '/' && s[i + 1] == '*' && s[j - 2] == '*' && s[j - 1] == '/' && Unclosed(s, i + 2, j - 2) {
      TwoChars("/*", s, i, i + 2);
      TwoChars("*/", s, j - 2, j);
      UnclosedIs(s, i + 2, j - 2);
      assert Matches(rest, s, i + 2, j);
    }
  }

  lemma TwoChars(x: string, s: string, i: nat, j: nat)
    requires |x| == 2 && i <= j <= |s|
    ensures Matches(Text(x), s, i, j) <==> j == i + 2 && s[i] == x[0] && s[i + 1] == x[1]
  {
    TextIs(x, s, i, j);
    if j == i + 2 {
      assert s[i..j] == [s[i], s[i + 1]] && x == [x[0], x[1]];
    }
  }

  // ---- The table ----

  /** The pieces of text that rule `k` matches. */
  ghost predicate Spelled(k: nat, s: string, i: nat, j: nat)
    requires i <= j <= |s|
  {
    if k == 0 then i < j && AllOf(s, i, j, {' ', '\t', '\n'})
    else if k == 1 then i + 2 < j && s[i] == s[i + 1] == '/' && s[j - 1] == '\n' && Lacks(s, i + 2, j - 1, '\n')
    else if k == 2 then
      && i + 4 <= j && s[i] == '/' && s[i + 1] == '*' && s[j - 2] == '*' && s[j - 1] == '/'
      && Unclosed(s, i + 2, j - 2)
    else if k == 3 then i + 1 < j && s[i] == '\\' && Words(s, i + 1, j)
    else if k == 4 then Quoted(s, i, j, '\'')
    else if k == 7 then Quoted(s, i, j, '"')
    else if k == 8 then IsRatio(s, i, j)
    else if k == 9 then Numeral(s, i, j)
    else if k == 12 then i < j && IsLower(s[i]) && Words(s, i, j)
    else if k == 13 then i + 1 < j && s[i] == '~' && Words(s, i + 1, j)
    else if k == 14 then i + 1 < j && IsUpper(s[i]) && Words(s, i, j)
    else s[i..j] == Sign(k)
  }

  /** The signs, in the order in which they are tried. */
  function Sign(k: nat): string {
    if k == 5 then "(" else if k == 6 then ")" else if k == 10 then "[" else if k == 11 then "]"
    else if k == 15 then "." else if k == 16 then "," else if k == 17 then "===" else if k == 18 then "=="
    else if k == 19 then "=" else if k == 20 then ":" else if k == 21 then ";" else if k == 22 then "/"
    else if k == 23 then "*" else if k == 24 then "-" else "+"
  }

  const KINDS: seq<TokenType> := [
    Whitespace, LineComment, BlockComment, Symbol, Symbol, OpenParen, CloseParen, StringLiteral, Ratio, Number,
    OpenBracket, CloseBracket, Identifier, Global, ClassName, Dot, Comma, IdentityComparison, Equality, Assignment,
    Colon, SemiColon, ForwardSlash, Asterisk, Hyphen, Plus]

  lemma SignIs(k: nat, s: string, i: nat, j: nat)
    requires i <= j <= |s| && k < |RULES| && IsSign(k)
    ensures Matches(RULES[k].regex, s, i, j) <==> s[i..j] == Sign(k)
  {
    SignText(k);
    TextIs(Sign(k), s, i, j);
  }

  lemma SignText(k: nat)
    requires k < |RULES| && IsSign(k)
    ensures RULES[k].regex == Text(Sign(k))
  {}

  lemma FirstKinds(k: nat)
    requires k < 9
    ensures RULES[k].kind == KINDS[k]
  {}

  lemma NextKinds(k: nat)
    requires 9 <= k < 17
    ensures RULES[k].kind == KINDS[k]
  {}

  lemma LateKinds(k: nat)
    requires 17 <= k < 22
    ensures RULES[k].kind == KINDS[k]
  {}

  lemma LastKinds(k: nat)
    requires 22 <= k < 26
    ensures RULES[k].kind == KINDS[k]
  {}

  lemma KindIs(k: nat)
    requires k < |RULES|
    ensures k < |KINDS| == |RULES| == 26 && RULES[k].kind == KINDS[k]
  {
    if k < 9 {
      FirstKinds(k);
    } else if k < 17 {
      NextKinds(k);
    } else if k < 22 {
      LateKinds(k);
    } else {
      LastKinds(k);
    }
  }

  predicate IsSign(k: nat) {
    k == 5 || k == 6 || k == 10 || k == 11 || 15 <= k
  }

  lemma CommentIs(k: nat, s: string, i: nat, j: nat)
    requires k < 3 && i <= j <= |s|
    ensures Matches(RULES[k].regex, s, i, j) <==> Spelled(k, s, i, j)
  {
    if k == 0 {
      ManyOneOf({' ', '\t', '\n'}, s, i, j);
    } else if k == 1 {
      LineCommentIs(s, i, j);
    } else {
      BlockCommentIs(s, i, j);
    }
  }

  lemma SymbolIs(k: nat, s: string, i: nat, j: nat)
    requires (k == 3 || k == 4 || k == 7) && i <= j <= |s|
    ensures Matches(RULES[k].regex, s, i, j) <==> Spelled(k, s, i, j)
  {
    if k == 3 {
      PrefixedWords('\\', s, i, j);
    } else if k == 4 {
      QuotedIs('\'', s, i, j);
    } else {
      QuotedIs('"', s, i, j);
    }
  }

  lemma NumberIs(k: nat, s: string, i: nat, j: nat)
    requires (k == 8 || k == 9) && i <= j <= |s|
    ensures Matches(RULES[k].regex, s, i, j) <==> Spelled(k, s, i, j)
  {
    if k == 8 {
      RatioIs(s, i, j);
    } else {
      NumeralIs(s, i, j);
    }
  }

  lemma NameIs(k: nat, s: string, i: nat, j: nat)
    requires 12 <= k <= 14 && i <= j <= |s|
    ensures Matches(RULES[k].regex, s, i, j) <==> Spelled(k, s, i, j)
  {
    if k == 12 {
      IdentifierIs(s, i, j);
    } else if k == 13 {
      PrefixedWords('~', s, i, j);
    } else {
      ClassNameIs(s, i, j);
    }
  }

  /** Each rule matches exactly the pieces that are spelled so. */
  lemma RuleIs(k: nat, s: string, i: nat, j: nat)
    requires k < |RULES| && i <= j <= |s|
    ensures Matches(RULES[k].regex, s, i, j) <==> Spelled(k, s, i, j)
  {
    if IsSign(k) {
      SignIs(k, s, i, j);
    } else if k < 3 {
      CommentIs(k, s, i, j);
    } else if k < 8 {
      SymbolIs(k, s, i, j);
    } else if k < 10 {
      NumberIs(k, s, i, j);
    } else {
      NameIs(k, s, i, j);
    }
  }

  /** A token's text is spelled as its kind is, and no earlier rule spells anything that begins there. */
  lemma TokensAreSpelled(s: string, n: nat) returns (k: nat)
    requires Tokenized(s).Some? && n < |Tokenized(s).value|
    ensures var t := Tokenized(s).value[n];
      && t.offset + t.length <= |s| && k < |KINDS| && t.kind == KINDS[k]
      && Spelled(k, s, t.offset, t.offset + t.length)
      && forall h, j: nat | 0 <= h < k && t.offset <= j <= |s| :: !Spelled(h, s, t.offset, j)
  {
    NthExplained(s, Tokenized(s).value, n);
    k := ExplainedBy(s, Tokenized(s).value[n]);
  }

  lemma NthExplained(s: string, ts: seq<Tok>, n: nat)
    requires Tokenized(s) == Some(ts) && n < |ts|
    ensures Explained(RULES, s, ts[n])
  {
    TokensTileInput(s);
  }

  lemma ExplainedBy(s: string, t: Tok) returns (k: nat)
    requires Explained(RULES, s, t)
    ensures t.offset + t.length <= |s| && k < |KINDS| && t.kind == KINDS[k]
    ensures Spelled(k, s, t.offset, t.offset + t.length)
    ensures forall h, j: nat | 0 <= h < k && t.offset <= j <= |s| :: !Spelled(h, s, t.offset, j)
  {
    k :| Explains(RULES, s, t, k);
    KindIs(k);
    RuleIs(k, s, t.offset, t.offset + t.length);
    forall h, j: nat | 0 <= h < k && t.offset <= j <= |s| ensures !Spelled(h, s, t.offset, j) {
      RuleIs(h, s, t.offset, j);
    }
  }
}

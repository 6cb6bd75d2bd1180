/** Splitting preset source into tokens: at each offset the first pattern of the list that matches. */
module Lexer {
  import opened Options
  import opened Regex
  import opened Tokens

  datatype Rule = Rule(kind: TokenType, regex: Regex)

  const DIGIT := OneOf(set c | '0' <= c <= '9')
  const LOWER := OneOf(set c | 'a' <= c <= 'z')
  const UPPER := OneOf(set c | 'A' <= c <= 'Z')
  const WORD := OneOf((set c | 'a' <= c <= 'z') + (set c | 'A' <= c <= 'Z') + (set c | '0' <= c <= '9') + {'_'})
  const BLANKS := Star(OneOf({' ', '\t'}))
  const NUMERAL := Cat(Maybe(OneOf({'-', '+'})), Cat(Many(DIGIT), Cat(Maybe(OneOf({'.'})), Star(DIGIT))))
  const NOT_CLOSING := Alt(NoneOf({'*'}), Cat(OneOf({'*'}), NoneOf({'/'})))

  /** The patterns in the order in which they are tried. */
  const RULES: seq<Rule> := [
    Rule(Whitespace, Many(OneOf({' ', '\t', '\n'}))),
    Rule(LineComment, Cat(Text("//"), Cat(Star(NoneOf({'\n'})), Text("\n")))),
    Rule(BlockComment, Cat(Text("/*"), Cat(Star(NOT_CLOSING), Text("*/")))),
    Rule(Symbol, Cat(Text("\\"), Many(WORD))),
    Rule(Symbol, Cat(Text("'"), Cat(Star(NoneOf({'\''})), Text("'")))),
    Rule(OpenParen, Text("(")),
    Rule(CloseParen, Text(")")),
    Rule(StringLiteral, Cat(Text("\""), Cat(Star(NoneOf({'"'})), Text("\"")))),
    Rule(Ratio, Cat(NUMERAL, Cat(BLANKS, Cat(Text("/"), Cat(BLANKS, NUMERAL))))),
    Rule(Number, NUMERAL),
    Rule(OpenBracket, Text("[")),
    Rule(CloseBracket, Text("]")),
    Rule(Identifier, Cat(Many(LOWER), Star(WORD))),
    Rule(Global, Cat(Text("~"), Many(WORD))),
    Rule(ClassName, Cat(Many(UPPER), Many(WORD))),
    Rule(Dot, Text(".")),
    Rule(Comma, Text(",")),
    Rule(IdentityComparison, Text("===")),
    Rule(Equality, Text("==")),
    Rule(Assignment, Text("=")),
    Rule(Colon, Text(":")),
    Rule(SemiColon, Text(";")),
    Rule(ForwardSlash, Text("/")),
    Rule(Asterisk, Text("*")),
    Rule(Hyphen, Text("-")),
    Rule(Plus, Text("+"))
  ]

  predicate AllConsume(rules: seq<Rule>) {
    forall k | 0 <= k < |rules| :: Consumes(rules[k].regex)
  }

  lemma TextConsumes(s: string)
    requires s != ""
    ensures Consumes(Text(s))
  {}

  lemma ManyConsumes(r: Regex)
    requires r.OneOf?
    ensures Consumes(r) && Consumes(Many(r))
  {}

  lemma FirstRulesConsume()
    ensures forall k | 0 <= k < 8 :: Consumes(RULES[k].regex)
  {
    ManyConsumes(WORD);
    forall k | 0 <= k < 8 ensures Consumes(RULES[k].regex) {
      TextConsumes("//"); TextConsumes("/*"); TextConsumes("\\"); TextConsumes("'"); TextConsumes("(");
      TextConsumes(")");
      TextConsumes("\"");
    }
  }

  lemma NextRulesConsume()
    ensures forall k | 8 <= k < 15 :: Consumes(RULES[k].regex)
  {
    ManyConsumes(WORD);
    ManyConsumes(LOWER);
    ManyConsumes(UPPER);
    ManyConsumes(DIGIT);
    assert Consumes(Cat(Many(DIGIT), Cat(Maybe(OneOf({'.'})), Star(DIGIT))));
    forall k | 8 <= k < 15 ensures Consumes(RULES[k].regex) {
      TextConsumes("["); TextConsumes("]"); TextConsumes("~");
    }
  }

  lemma RulesConsume()
    ensures AllConsume(RULES)
  {
    FirstRulesConsume();
    NextRulesConsume();
    forall k | 15 <= k < |RULES| ensures Consumes(RULES[k].regex) {
      TextConsumes("."); TextConsumes(","); TextConsumes("==="); TextConsumes("=="); TextConsumes("=");
      TextConsumes(":");
      TextConsumes(";"); TextConsumes("/"); TextConsumes("*"); TextConsumes("-"); TextConsumes("+");
    }
  }

  /** The first rule, from the `k`th on, that matches at `i`, as the token it makes. */
  function TokenAt(rules: seq<Rule>, s: string, i: nat, k: nat): (t: Option<Tok>)
    requires i <= |s| && k <= |rules|
    ensures t.Some? ==> i + t.value.length <= |s|
    decreases |rules| - k
  {
    if k == |rules| then None else
      match FindAt(rules[k].regex, s, i)
      case Some(n) => Some(Tok(rules[k].kind, s[i..i + n], i, n))
      case None => TokenAt(rules, s, i, k + 1)
  }

  /** Rule `k` explains the token: it is what the engine finds for it, and no earlier rule matches anything there. */
  ghost predicate Explains(rules: seq<Rule>, s: string, t: Tok, k: nat) {
    && k < |rules| && t.offset + t.length <= |s|
    && t.kind == rules[k].kind && FindAt(rules[k].regex, s, t.offset) == Some(t.length)
    && Matches(rules[k].regex, s, t.offset, t.offset + t.length)
    && forall h, j: nat | 0 <= h < k && t.offset <= j <= |s| :: !Matches(rules[h].regex, s, t.offset, j)
  }

  ghost predicate Explained(rules: seq<Rule>, s: string, t: Tok) {
    && t.offset + t.length <= |s| && t.str == s[t.offset..t.offset + t.length] && 0 < t.length
    && exists k: nat :: Explains(rules, s, t, k)
  }

  ghost predicate Unmatched(rules: seq<Rule>, s: string, i: nat)
    requires i <= |s|
  {
    forall k, j: nat | 0 <= k < |rules| && i <= j <= |s| :: !Matches(rules[k].regex, s, i, j)
  }

  lemma {:induction false} TokenAtExact(rules: seq<Rule>, s: string, i: nat, k: nat)
    requires i <= |s| && k <= |rules| && AllConsume(rules)
    requires forall h, j: nat | 0 <= h < k && i <= j <= |s| :: !Matches(rules[h].regex, s, i, j)
    ensures match TokenAt(rules, s, i, k)
      case Some(t) => t.offset == i && Explained(rules, s, t)
      case None => Unmatched(rules, s, i)
    decreases |rules| - k
  {
    if k < |rules| {
      FindAtExact(rules[k].regex, s, i);
      match FindAt(rules[k].regex, s, i)
      case Some(n) =>
        ConsumesSome(rules[k].regex, s, i, i + n);
        assert Explains(rules, s, TokenAt(rules, s, i, k).value, k);
      case None => TokenAtExact(rules, s, i, k + 1);
    }
  }

  /** The tokens from `i` on. A pattern that matched nothing would stop the scan; none of RULES does. */
  function Lex(rules: seq<Rule>, s: string, i: nat): Option<seq<Tok>>
    requires i <= |s|
    decreases |s| - i
  {
    if i == |s| then Some([]) else
      match TokenAt(rules, s, i, 0)
      case None => None
      case Some(t) =>
        if t.length == 0 then None else
          match Lex(rules, s, i + t.length)
          case None => None
          case Some(rest) => Some([t] + rest)
  }

  // ---- What tokens are worth ----

  /** Token `k` ends where the next one begins. */
  predicate Meet(ts: seq<Tok>, k: nat)
    requires k < |ts| - 1
  {
    ts[k].offset + ts[k].length == ts[k + 1].offset
  }

  /** The tokens lie end to end from `i` up to `j`, each explained by its pattern. */
  ghost predicate Tile(rules: seq<Rule>, s: string, ts: seq<Tok>, i: nat, j: nat) {
    && (forall k | 0 <= k < |ts| :: Explained(rules, s, ts[k]))
    && (forall k | 0 <= k < |ts| - 1 :: Meet(ts, k))
    && if ts == [] then i == j else ts[0].offset == i && ts[|ts| - 1].offset + ts[|ts| - 1].length == j
  }

  lemma TileFront(rules: seq<Rule>, s: string, ts: seq<Tok>, i: nat, j: nat, before: seq<Tok>, t: Tok)
    requires Tile(rules, s, ts, i, j) && ts != [] && before == ts[..|ts| - 1] && t == ts[|ts| - 1]
    ensures Tile(rules, s, before, i, t.offset) && Explained(rules, s, t) && t.offset + t.length == j
  {
    forall k | 0 <= k < |before| ensures Explained(rules, s, before[k]) { assert before[k] == ts[k]; }
    forall k | 0 <= k < |before| - 1 ensures Meet(before, k) { assert Meet(ts, k); }
    if before != [] { assert Meet(ts, |ts| - 2); }
  }

  /** Tokens that tile are as long together as the piece they cover. */
  lemma {:induction false} TileIsConcat(rules: seq<Rule>, s: string, ts: seq<Tok>, i: nat, j: nat)
    requires Tile(rules, s, ts, i, j) && i <= |s|
    ensures i <= j <= |s| && Concat(ts) == s[i..j]
    decreases |ts|
  {
    if ts != [] {
      var before, t := ts[..|ts| - 1], ts[|ts| - 1];
      TileFront(rules, s, ts, i, j, before, t);
      TileIsConcat(rules, s, before, i, t.offset);
      assert s[i..j] == s[i..t.offset] + t.str;
    }
  }

  lemma OneMoreTile(rules: seq<Rule>, s: string, t: Tok, rest: seq<Tok>, ts: seq<Tok>, i: nat, j: nat)
    requires Explained(rules, s, t) && t.offset == i && Tile(rules, s, rest, i + t.length, j) && ts == [t] + rest
    ensures Tile(rules, s, ts, i, j)
  {
    forall k | 0 <= k < |ts| - 1 ensures Meet(ts, k) {
      if k > 0 { assert Meet(rest, k - 1); }
    }
  }

  lemma LexEnd(rules: seq<Rule>, s: string, ts: seq<Tok>)
    requires Lex(rules, s, |s|) == Some(ts)
    ensures Tile(rules, s, ts, |s|, |s|)
  {}

  lemma LexSome(rules: seq<Rule>, s: string, i: nat, ts: seq<Tok>) returns (t: Tok, rest: seq<Tok>)
    requires i < |s| && AllConsume(rules) && Lex(rules, s, i) == Some(ts)
    ensures t.offset == i && 0 < t.length && i + t.length <= |s| && Explained(rules, s, t)
    ensures Lex(rules, s, i + t.length) == Some(rest) && ts == [t] + rest
  {
    TokenAtExact(rules, s, i, 0);
    t := TokenAt(rules, s, i, 0).value;
    rest := LexRest(rules, s, i, ts, t);
  }

  lemma LexRest(rules: seq<Rule>, s: string, i: nat, ts: seq<Tok>, t: Tok) returns (rest: seq<Tok>)
    requires i < |s| && Lex(rules, s, i) == Some(ts)
    requires TokenAt(rules, s, i, 0) == Some(t) && 0 < t.length
    ensures Lex(rules, s, i + t.length) == Some(rest) && ts == [t] + rest
  {
    rest := Lex(rules, s, i + t.length).value;
  }

  lemma {:induction false} TokensTile(rules: seq<Rule>, s: string, i: nat, ts: seq<Tok>)
    requires i <= |s| && AllConsume(rules) && Lex(rules, s, i) == Some(ts)
    ensures Tile(rules, s, ts, i, |s|)
    decreases |s| - i
  {
    if i == |s| {
      LexEnd(rules, s, ts);
    } else {
      var t, rest := LexSome(rules, s, i, ts);
      TokensTile(rules, s, i + t.length, rest);
      OneMoreTile(rules, s, t, rest, ts, i, |s|);
    }
  }

  /** Lexing fails only where no pattern matches anything, after tokens that tile what is before. */
  lemma {:induction false} FailsWhereUnmatched(rules: seq<Rule>, s: string, i: nat) returns (ts: seq<Tok>, at: nat)
    requires i <= |s| && AllConsume(rules) && Lex(rules, s, i).None?
    ensures i <= at < |s| && Tile(rules, s, ts, i, at) && Unmatched(rules, s, at)
    decreases |s| - i
  {
    TokenAtExact(rules, s, i, 0);
    match TokenAt(rules, s, i, 0)
    case None => ts, at := [], i;
    case Some(t) =>
      var rest;
      rest, at := FailsWhereUnmatched(rules, s, i + t.length);
      ts := [t] + rest;
      OneMoreTile(rules, s, t, rest, ts, i, at);
  }

  // ---- The source's patterns ----

  function Tokenized(s: string): Option<seq<Tok>> {
    Lex(RULES, s, 0)
  }

  /** Lossless lexing: the tokens tile the whole input, and their strings put together are the input. */
  lemma TokensTileInput(s: string)
    requires Tokenized(s).Some?
    ensures Tile(RULES, s, Tokenized(s).value, 0, |s|)
    ensures Concat(Tokenized(s).value) == s
  {
    RulesConsume();
    TokensTile(RULES, s, 0, Tokenized(s).value);
    TileIsConcat(RULES, s, Tokenized(s).value, 0, |s|);
    assert s[0..|s|] == s;
  }

  /** A failed tokenization got stuck at a place where no pattern matches anything. */
  lemma StuckWhereUnmatched(s: string) returns (ts: seq<Tok>, at: nat)
    requires Tokenized(s).None?
    ensures at < |s| && Tile(RULES, s, ts, 0, at) && Concat(ts) == s[..at] && Unmatched(RULES, s, at)
  {
    RulesConsume();
    ts, at := FailsWhereUnmatched(RULES, s, 0);
    TileIsConcat(RULES, s, ts, 0, at);
  }
}

/** Tokens as values, and strings of them. */
module Tokens {
  datatype TokenType =
    | Whitespace | LineComment | BlockComment | Symbol | OpenParen | CloseParen | StringLiteral | Ratio | Number
    | OpenBracket | CloseBracket | Identifier | Global | ClassName | Dot | Comma | IdentityComparison | Equality
    | Assignment | Colon | SemiColon | ForwardSlash | Asterisk | Hyphen | Plus

  datatype Tok = Tok(kind: TokenType, str: string, offset: nat, length: nat) {
    predicate Ignored() {
      kind == Whitespace || kind == LineComment || kind == BlockComment
    }

    predicate Opens() {
      kind == OpenParen || kind == OpenBracket
    }

    predicate Closes() {
      kind == CloseParen || kind == CloseBracket
    }

    predicate Is(t: TokenType, s: string) {
      kind == t && str == s
    }
  }

  function Concat(ts: seq<Tok>): string {
    if ts == [] then "" else Concat(ts[..|ts| - 1]) + ts[|ts| - 1].str
  }

  /** The list with whitespace and comments removed. */
  function Significant(ts: seq<Tok>): seq<Tok> {
    if ts == [] then [] else (if ts[0].Ignored() then [] else [ts[0]]) + Significant(ts[1..])
  }

  lemma {:induction false} SignificantConcat(a: seq<Tok>, b: seq<Tok>)
    ensures Significant(a + b) == Significant(a) + Significant(b)
  {
    if a == [] {
      assert a + b == b;
    } else {
      assert (a + b)[1..] == a[1..] + b;
      SignificantConcat(a[1..], b);
    }
  }

  lemma SignificantOne(ts: seq<Tok>, t: Tok)
    ensures Significant(ts + [t]) == if t.Ignored() then Significant(ts) else Significant(ts) + [t]
  {
    SignificantConcat(ts, [t]);
    assert [t][1..] == [];
  }

  lemma {:induction false} ConcatConcat(a: seq<Tok>, b: seq<Tok>)
    ensures Concat(a + b) == Concat(a) + Concat(b)
    decreases |b|
  {
    if b == [] {
      assert a + b == a;
    } else {
      assert (a + b)[..|a + b| - 1] == a + b[..|b| - 1];
      ConcatConcat(a, b[..|b| - 1]);
    }
  }
}

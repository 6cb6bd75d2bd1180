/**
 * The Pbindef language as trees, and the proof that the state machine accepts exactly the token
 * lists that some tree flattens to.
 */
module PbindefGrammar {
  import opened Options
  import opened Tokens
  import opened Pbindef

  /** Nested code: single tokens, and groups between an opening and a closing token. */
  datatype Item = Leaf(token: Tok) | Group(open: Tok, inside: Items, close: Tok)
  datatype Items = Nil | Cons(head: Item, tail: Items)

  /** `, \name, value` */
  datatype Pair = Pair(comma: Tok, name: Tok, comma2: Tok, value: Items)

  /** `.play(clock)`, `.play(clock, quant: n)` or `.quant = n` */
  datatype Chain =
    | Play(dot: Tok, play: Tok, open: Tok, clock: Tok, args: Option<PlayQuant>, close: Tok)
    | Quant(dot: Tok, quant: Tok, assign: Tok, number: Tok)
  datatype PlayQuant = PlayQuant(comma: Tok, quant: Tok, colon: Tok, number: Tok)

  datatype Tree = Tree(
    pbindef: Tok, open: Tok, name: Tok, pairs: seq<Pair>, trailing: Option<Tok>, close: Tok,
    chains: seq<Chain>, semi: Option<Tok>)

  // ---- What a tree reads as ----

  function FlatItem(i: Item): seq<Tok> {
    match i
    case Leaf(t) => [t]
    case Group(o, inside, c) => [o] + FlatItems(inside) + [c]
  }

  function FlatItems(items: Items): seq<Tok> {
    match items
    case Nil => []
    case Cons(head, tail) => FlatItem(head) + FlatItems(tail)
  }

  function FlatPair(p: Pair): seq<Tok> {
    [p.comma, p.name, p.comma2] + FlatItems(p.value)
  }

  function FlatPairs(ps: seq<Pair>): seq<Tok> {
    if ps == [] then [] else FlatPair(ps[0]) + FlatPairs(ps[1..])
  }

  function FlatChain(c: Chain): seq<Tok> {
    match c
    case Play(dot, play, open, clock, None, close) => [dot, play, open, clock, close]
    case Play(dot, play, open, clock, Some(q), close) => [dot, play, open, clock, q.comma, q.quant, q.colon, q.number,
      close]
    case Quant(dot, quant, assign, number) => [dot, quant, assign, number]
  }

  function FlatChains(cs: seq<Chain>): seq<Tok> {
    if cs == [] then [] else FlatChain(cs[0]) + FlatChains(cs[1..])
  }

  function Opt(t: Option<Tok>): seq<Tok> {
    if t.Some? then [t.value] else []
  }

  function Middle(t: Tree): seq<Tok> {
    FlatPairs(t.pairs) + Opt(t.trailing)
  }

  function Ending(t: Tree): seq<Tok> {
    FlatChains(t.chains) + Opt(t.semi)
  }

  function Flat(t: Tree): seq<Tok> {
    [t.pbindef, t.open, t.name] + Middle(t) + [t.close] + Ending(t)
  }

  // ---- Which trees are in the language ----

  /** Groups are properly opened and closed, of either kind; a comma is allowed only inside a group. */
  predicate GoodItem(i: Item, outer: bool) {
    match i
    case Leaf(t) => !t.Opens() && !t.Closes() && (outer ==> t.kind != Comma)
    case Group(o, inside, c) => o.Opens() && c.Closes() && GoodItems(inside, false)
  }

  predicate GoodItems(items: Items, outer: bool) {
    match items
    case Nil => true
    case Cons(head, tail) => GoodItem(head, outer) && GoodItems(tail, outer)
  }

  predicate GoodValue(v: Items) {
    v.Cons? && GoodItems(v, true) && BeginsValue(FlatItem(v.head)[0])
  }

  predicate GoodPair(p: Pair) {
    p.comma.kind == Comma && p.name.kind == Symbol && p.comma2.kind == Comma && GoodValue(p.value)
  }

  predicate GoodChain(c: Chain) {
    match c
    case Play(dot, play, open, clock, args, close) =>
      && dot.kind == Dot && play.Is(Identifier, PLAY) && open.kind == OpenParen
      && (clock.kind == Global || clock.kind == Identifier) && close.kind == CloseParen
      && (args.Some? ==> args.value.comma.kind == Comma && args.value.quant.Is(Identifier, QUANT)
                         && args.value.colon.kind == Colon && args.value.number.kind == Number)
    case Quant(dot, quant, assign, number) =>
      dot.kind == Dot && quant.Is(Identifier, QUANT) && assign.kind == Assignment && number.kind == Number
  }

  predicate GoodPairs(ps: seq<Pair>) {
    ps != [] ==> GoodPair(ps[0]) && GoodPairs(ps[1..])
  }

  predicate GoodChains(cs: seq<Chain>) {
    cs != [] ==> GoodChain(cs[0]) && GoodChains(cs[1..])
  }

  /** Directly after a value a bracket closes the Pbindef as well as a parenthesis does. */
  predicate WellClosed(pairs: seq<Pair>, trailing: Option<Tok>, close: Tok) {
    && (trailing.Some? ==> trailing.value.kind == Comma)
    && if pairs == [] || trailing.Some? then close.kind == CloseParen else close.Closes()
  }

  predicate Good(t: Tree) {
    && t.pbindef.Is(ClassName, PBINDEF) && t.open.kind == OpenParen && t.name.kind == Symbol
    && GoodPairs(t.pairs)
    && WellClosed(t.pairs, t.trailing, t.close)
    && GoodChains(t.chains)
    && (t.semi.Some? ==> t.semi.value.kind == SemiColon)
  }

  // ---- Every tree is accepted ----

  lemma {:induction false} ItemRuns(i: Item, outer: bool, d: int)
    requires GoodItem(i, outer) && d >= 1 && (!outer ==> d >= 2)
    ensures MoveAll(Control(ParameterValueStatement, d), FlatItem(i)) == Control(ParameterValueStatement, d)
    decreases i, 1
  {
    var c := Control(ParameterValueStatement, d);
    match i
    case Leaf(t) => OneMove(c, t);
    case Group(o, inside, close) =>
      var deeper := Control(ParameterValueStatement, d + 1);
      MoveAllConcat(c, [o] + FlatItems(inside), [close]);
      MoveAllConcat(c, [o], FlatItems(inside));
      OneMove(c, o);
      ItemsRun(inside, false, d + 1);
      OneMove(deeper, close);
  }

  lemma {:induction false} ItemsRun(items: Items, outer: bool, d: int)
    requires GoodItems(items, outer) && d >= 1 && (!outer ==> d >= 2)
    ensures MoveAll(Control(ParameterValueStatement, d), FlatItems(items)) == Control(ParameterValueStatement, d)
    decreases items, 0
  {
    match items
    case Nil =>
    case Cons(head, tail) =>
      MoveAllConcat(Control(ParameterValueStatement, d), FlatItem(head), FlatItems(tail));
      ItemRuns(head, outer, d);
      ItemsRun(tail, outer, d);
  }

  lemma OneMove(c: Control, t: Tok)
    ensures MoveAll(c, [t]) == Move(c, t)
  {
    assert [t][1..] == [];
    assert MoveAll(Move(c, t), []) == Move(c, t);
  }

  lemma PairRuns(p: Pair, before: State)
    requires GoodPair(p) && (before == NameComma || before == ParameterValueStatement)
    ensures MoveAll(Control(before, 1), FlatPair(p)) == Control(ParameterValueStatement, 1)
  {
    Three(Control(before, 1), p.comma, Control(ParameterSpace, 1), p.name, Control(ParameterNameComma, 1), p.comma2,
      Control(ParameterValue, 1));
    ValueRuns(p.value);
    Join(Control(before, 1), [p.comma, p.name, p.comma2], Control(ParameterValue, 1), FlatItems(p.value),
      Control(ParameterValueStatement, 1));
  }

  lemma {:induction false} PairsRun(ps: seq<Pair>, before: State)
    requires GoodPairs(ps)
    requires before == NameComma || before == ParameterValueStatement
    ensures MoveAll(Control(before, 1), FlatPairs(ps)) ==
      Control(if ps == [] then before else ParameterValueStatement, 1)
    decreases |ps|
  {
    if ps != [] {
      PairRuns(ps[0], before);
      PairsRun(ps[1..], ParameterValueStatement);
      Join(Control(before, 1), FlatPair(ps[0]), Control(ParameterValueStatement, 1), FlatPairs(ps[1..]),
        Control(ParameterValueStatement, 1));
    }
  }

  lemma ValueRuns(v: Items)
    requires GoodValue(v)
    ensures MoveAll(Control(ParameterValue, 1), FlatItems(v)) == Control(ParameterValueStatement, 1)
  {
    // The first token acts alike in both states.
    var ts := FlatItems(v);
    assert Move(Control(ParameterValue, 1), ts[0]) == Move(Control(ParameterValueStatement, 1), ts[0]);
    ItemsRun(v, true, 1);
  }

  lemma {:induction false} ChainsRun(cs: seq<Chain>, d: int) returns (d': int)
    requires GoodChains(cs)
    ensures MoveAll(Control(ClosePdef, d), FlatChains(cs)) == Control(ClosePdef, d')
    decreases |cs|
  {
    if cs == [] {
      d' := d;
    } else {
      MoveAllConcat(Control(ClosePdef, d), FlatChain(cs[0]), FlatChains(cs[1..]));
      var d1 := ChainRuns(cs[0], d);
      d' := ChainsRun(cs[1..], d1);
    }
  }

  /** Runs put end to end. */
  lemma Join(c: Control, a: seq<Tok>, c1: Control, b: seq<Tok>, c2: Control)
    requires MoveAll(c, a) == c1 && MoveAll(c1, b) == c2
    ensures MoveAll(c, a + b) == c2
  {
    MoveAllConcat(c, a, b);
  }

  lemma Three(c: Control, a: Tok, c1: Control, b: Tok, c2: Control, t: Tok, c3: Control)
    requires Move(c, a) == c1 && Move(c1, b) == c2 && Move(c2, t) == c3
    ensures MoveAll(c, [a, b, t]) == c3
  {
    OneMove(c, a);
    OneMove(c1, b);
    OneMove(c2, t);
    Join(c, [a], c1, [b], c2);
    Join(c, [a] + [b], c2, [t], c3);
    assert [a] + [b] + [t] == [a, b, t];
  }

  lemma PlayQuantRuns(q: PlayQuant, close: Tok, d: int)
    requires q.comma.kind == Comma && q.quant.Is(Identifier, QUANT) && q.colon.kind == Colon
    requires q.number.kind == Number && close.kind == CloseParen
    ensures MoveAll(Control(PlayClockNameComma, d), [q.comma, q.quant, q.colon, q.number, close]) ==
      Control(ClosePdef, d)
  {
    Three(Control(PlayClockNameComma, d), q.comma, Control(PlayQuantArg, d), q.quant, Control(PlayQuantColon, d),
      q.colon, Control(PlayQuantValue, d));
    OneMove(Control(PlayQuantValue, d), q.number);
    OneMove(Control(PlayClose, d), close);
    Join(Control(PlayQuantValue, d), [q.number], Control(PlayClose, d), [close], Control(ClosePdef, d));
    Join(Control(PlayClockNameComma, d), [q.comma, q.quant, q.colon], Control(PlayQuantValue, d),
      [q.number] + [close], Control(ClosePdef, d));
    assert [q.comma, q.quant, q.colon] + ([q.number] + [close]) == [q.comma, q.quant, q.colon, q.number, close];
  }

  lemma QuantRuns(c: Chain, d: int)
    requires GoodChain(c) && c.Quant?
    ensures MoveAll(Control(ClosePdef, d), FlatChain(c)) == Control(ClosePdef, d)
  {
    Three(Control(ClosePdef, d), c.dot, Control(Chaining, d), c.quant, Control(QuantChain, d), c.assign,
      Control(QuantValue, d));
    OneMove(Control(QuantValue, d), c.number);
    Join(Control(ClosePdef, d), [c.dot, c.quant, c.assign], Control(QuantValue, d), [c.number], Control(ClosePdef, d));
    assert [c.dot, c.quant, c.assign] + [c.number] == FlatChain(c);
  }

  lemma PlayHeadRuns(c: Chain, d: int)
    requires GoodChain(c) && c.Play?
    ensures MoveAll(Control(ClosePdef, d), [c.dot, c.play, c.open, c.clock]) == Control(PlayClockNameComma, d + 1)
  {
    Three(Control(ClosePdef, d), c.dot, Control(Chaining, d), c.play, Control(PlayChain, d), c.open,
      Control(PlayClockName, d + 1));
    OneMove(Control(PlayClockName, d + 1), c.clock);
    Join(Control(ClosePdef, d), [c.dot, c.play, c.open], Control(PlayClockName, d + 1), [c.clock],
      Control(PlayClockNameComma, d + 1));
    assert [c.dot, c.play, c.open] + [c.clock] == [c.dot, c.play, c.open, c.clock];
  }

  /** After `.play(clock, quant: n)` the counter stays one too high, which no later state looks at. */
  lemma ChainRuns(c: Chain, d: int) returns (d': int)
    requires GoodChain(c)
    ensures MoveAll(Control(ClosePdef, d), FlatChain(c)) == Control(ClosePdef, d')
    ensures d' == if c.Play? && c.args.Some? then d + 1 else d
  {
    d' := if c.Play? && c.args.Some? then d + 1 else d;
    if c.Quant? {
      QuantRuns(c, d);
    } else {
      var head, named := [c.dot, c.play, c.open, c.clock], Control(PlayClockNameComma, d + 1);
      var rest := if c.args.Some?
        then [c.args.value.comma, c.args.value.quant, c.args.value.colon, c.args.value.number, c.close] else [c.close];
      PlayHeadRuns(c, d);
      if c.args.Some? { PlayQuantRuns(c.args.value, c.close, d + 1); } else { OneMove(named, c.close); }
      Join(Control(ClosePdef, d), head, named, rest, Control(ClosePdef, d'));
      assert head + rest == FlatChain(c);
    }
  }

  lemma OptRuns(c: Control, t: Option<Tok>)
    ensures MoveAll(c, Opt(t)) == if t.Some? then Move(c, t.value) else c
  {
    if t.Some? { OneMove(c, t.value); }
  }

  /** Where the machine stands before the token that closes the Pbindef. */
  function BeforeClose(pairs: seq<Pair>, trailing: Option<Tok>): Control {
    Control(if trailing.Some? then ParameterSpace else if pairs == [] then NameComma else ParameterValueStatement, 1)
  }

  lemma MiddleRuns(pairs: seq<Pair>, trailing: Option<Tok>)
    requires GoodPairs(pairs) && (trailing.Some? ==> trailing.value.kind == Comma)
    ensures MoveAll(Control(NameComma, 1), FlatPairs(pairs) + Opt(trailing)) == BeforeClose(pairs, trailing)
  {
    var s := Control(if pairs == [] then NameComma else ParameterValueStatement, 1);
    PairsRun(pairs, NameComma);
    OptRuns(s, trailing);
    Join(Control(NameComma, 1), FlatPairs(pairs), s, Opt(trailing), BeforeClose(pairs, trailing));
  }

  lemma HeadRuns(pbindef: Tok, open: Tok, name: Tok)
    requires pbindef.Is(ClassName, PBINDEF) && open.kind == OpenParen && name.kind == Symbol
    ensures MoveAll(Control(Start, 0), [pbindef, open, name]) == Control(NameComma, 1)
  {
    Three(Control(Start, 0), pbindef, Control(OpenPbindef, 0), open, Control(GetName, 1), name, Control(NameComma, 1));
  }

  lemma CloseMoves(pairs: seq<Pair>, trailing: Option<Tok>, close: Tok)
    requires WellClosed(pairs, trailing, close)
    ensures Move(BeforeClose(pairs, trailing), close) == Control(ClosePdef, 0)
  {}

  lemma CloseRuns(t: Tree)
    requires Good(t)
    ensures MoveAll(Control(Start, 0), [t.pbindef, t.open, t.name] + Middle(t) + [t.close]) == Control(ClosePdef, 0)
  {
    var head, c := [t.pbindef, t.open, t.name], BeforeClose(t.pairs, t.trailing);
    HeadRuns(t.pbindef, t.open, t.name);
    MiddleRuns(t.pairs, t.trailing);
    CloseMoves(t.pairs, t.trailing, t.close);
    JoinThree(Control(Start, 0), head, Control(NameComma, 1), Middle(t), c, t.close, Control(ClosePdef, 0));
  }

  lemma JoinThree(c: Control, a: seq<Tok>, c1: Control, b: seq<Tok>, c2: Control, t: Tok, c3: Control)
    requires MoveAll(c, a) == c1 && MoveAll(c1, b) == c2 && Move(c2, t) == c3
    ensures MoveAll(c, a + b + [t]) == c3
  {
    OneMove(c2, t);
    Join(c, a, c1, b, c2);
    Join(c, a + b, c2, [t], c3);
  }

  lemma EndingRuns(chains: seq<Chain>, semi: Option<Tok>) returns (c: Control)
    requires GoodChains(chains)
    requires semi.Some? ==> semi.value.kind == SemiColon
    ensures MoveAll(Control(ClosePdef, 0), FlatChains(chains) + Opt(semi)) == c && Accepting(c)
  {
    var d := ChainsRun(chains, 0);
    c := Control(if semi.Some? then Done else ClosePdef, d);
    OptRuns(Control(ClosePdef, d), semi);
    Join(Control(ClosePdef, 0), FlatChains(chains), Control(ClosePdef, d), Opt(semi), c);
  }

  lemma TreeAccepted(t: Tree)
    requires Good(t)
    ensures Accepts(Control(Start, 0), Flat(t))
  {
    CloseRuns(t);
    var c := EndingRuns(t.chains, t.semi);
    Join(Control(Start, 0), [t.pbindef, t.open, t.name] + Middle(t) + [t.close], Control(ClosePdef, 0), Ending(t), c);
  }

  // ---- Everything accepted is a tree ----

  /** `tr[k]` is the machine before token `k` of an accepting run. */
  ghost predicate Trace(tr: seq<Control>, ts: seq<Tok>) {
    && |tr| == |ts| + 1
    && Accepting(tr[|ts|])
    && forall k | 0 <= k < |ts| :: Moves(tr, ts, k)
  }

  predicate Moves(tr: seq<Control>, ts: seq<Tok>, k: nat)
    requires k < |ts| < |tr|
  {
    tr[k + 1] == Move(tr[k], ts[k]) && tr[k].state != Error
  }

  lemma {:induction false} ErrorStays(d: int, ts: seq<Tok>)
    ensures MoveAll(Control(Error, d), ts) == Control(Error, d)
    decreases |ts|
  {
    if ts != [] { ErrorStays(d, ts[1..]); }
  }

  lemma {:induction false} TraceOf(c: Control, ts: seq<Tok>) returns (tr: seq<Control>)
    requires Accepts(c, ts)
    ensures Trace(tr, ts) && tr[0] == c
    decreases |ts|
  {
    if ts == [] {
      tr := [c];
    } else {
      if c.state == Error { ErrorStays(c.parenDepth, ts); }
      var rest := TraceOf(Move(c, ts[0]), ts[1..]);
      tr := [c] + rest;
      forall k | 0 <= k < |ts| ensures Moves(tr, ts, k) {
        if k > 0 { assert Moves(rest, ts[1..], k - 1); }
      }
    }
  }

  /** The run goes on from a state that is not accepting, and not into an error. */
  lemma Go(tr: seq<Control>, ts: seq<Tok>, i: nat)
    requires Trace(tr, ts) && i <= |ts| && (Accepting(tr[i]) ==> i < |ts|)
    ensures i < |ts| && Moves(tr, ts, i) && tr[i + 1].state != Error
  {
    assert i + 1 < |ts| ==> Moves(tr, ts, i + 1);
  }

  lemma Split(ts: seq<Tok>, i: nat, k: nat, j: nat)
    requires i <= k <= j <= |ts|
    ensures ts[i..j] == ts[i..k] + ts[k..j]
  {}

  lemma ReadPlayQuant(tr: seq<Control>, ts: seq<Tok>, i: nat, d: int) returns (q: PlayQuant)
    requires Trace(tr, ts) && 1 <= i <= |ts| && tr[i] == Control(PlayQuantArg, d) && ts[i - 1].kind == Comma
    ensures i + 4 <= |ts| && tr[i + 4] == Control(ClosePdef, d)
    ensures q.comma.kind == Comma && q.quant.Is(Identifier, QUANT) && q.colon.kind == Colon && q.number.kind == Number
    ensures q == PlayQuant(ts[i - 1], ts[i], ts[i + 1], ts[i + 2]) && ts[i + 3].kind == CloseParen
  {
    Go(tr, ts, i);
    Go(tr, ts, i + 1);
    Go(tr, ts, i + 2);
    Go(tr, ts, i + 3);
    q := PlayQuant(ts[i - 1], ts[i], ts[i + 1], ts[i + 2]);
  }

  lemma ReadPlayHead(tr: seq<Control>, ts: seq<Tok>, i: nat)
    requires Trace(tr, ts) && i <= |ts| && tr[i].state == PlayChain
    ensures i + 3 <= |ts| && ts[i].kind == OpenParen && (ts[i + 1].kind == Global || ts[i + 1].kind == Identifier)
    ensures (ts[i + 2].kind == Comma && tr[i + 3].state == PlayQuantArg)
      || (ts[i + 2].kind == CloseParen && tr[i + 3].state == ClosePdef)
  {
    Go(tr, ts, i);
    Go(tr, ts, i + 1);
    Go(tr, ts, i + 2);
  }

  lemma PiecesOf<T>(s: seq<T>, i: nat)
    ensures i + 4 <= |s| ==> s[i..i + 4] == [s[i], s[i + 1], s[i + 2], s[i + 3]]
    ensures i + 5 <= |s| ==> s[i..i + 5] == [s[i], s[i + 1], s[i + 2], s[i + 3], s[i + 4]]
    ensures i + 9 <= |s| ==>
      s[i..i + 9] == [s[i], s[i + 1], s[i + 2], s[i + 3], s[i + 4], s[i + 5], s[i + 6], s[i + 7], s[i + 8]]
  {}

  /** What `.play(` begins. */
  lemma ReadPlay(tr: seq<Control>, ts: seq<Tok>, i: nat) returns (c: Chain, j: nat)
    requires Trace(tr, ts) && i + 2 <= |ts| && ts[i].kind == Dot && ts[i + 1].Is(Identifier, PLAY)
      && tr[i + 2].state == PlayChain
    ensures GoodChain(c) && i + 5 <= j <= |ts| && ts[i..j] == FlatChain(c) && tr[j].state == ClosePdef
  {
    ReadPlayHead(tr, ts, i + 2);
    if ts[i + 4].kind == Comma {
      var q := ReadPlayQuant(tr, ts, i + 5, tr[i + 5].parenDepth);
      c, j := Play(ts[i], ts[i + 1], ts[i + 2], ts[i + 3], Some(q), ts[i + 8]), i + 9;
    } else {
      c, j := Play(ts[i], ts[i + 1], ts[i + 2], ts[i + 3], None, ts[i + 4]), i + 5;
    }
    PiecesOf(ts, i);
  }

  lemma ReadChain(tr: seq<Control>, ts: seq<Tok>, i: nat) returns (c: Chain, j: nat)
    requires Trace(tr, ts) && i < |ts| && ts[i].kind == Dot && tr[i + 1].state == Chaining
    ensures GoodChain(c) && i < j <= |ts| && ts[i..j] == FlatChain(c) && tr[j].state == ClosePdef
  {
    Go(tr, ts, i + 1);
    if tr[i + 2].state == PlayChain {
      c, j := ReadPlay(tr, ts, i);
    } else {
      Go(tr, ts, i + 2);
      Go(tr, ts, i + 3);
      c, j := Quant(ts[i], ts[i + 1], ts[i + 2], ts[i + 3]), i + 4;
      PiecesOf(ts, i);
    }
  }

  lemma ReadSemi(tr: seq<Control>, ts: seq<Tok>, i: nat)
    requires Trace(tr, ts) && i < |ts| && tr[i].state == ClosePdef && ts[i].kind == SemiColon
    ensures ts[i..] == [ts[i]]
  {
    Go(tr, ts, i);
    if i + 1 < |ts| {
      Go(tr, ts, i + 1);
    }
  }

  lemma FlatChainsMore(c: Chain, cs: seq<Chain>, rest: seq<Tok>)
    ensures FlatChains([c] + cs) + rest == FlatChain(c) + (FlatChains(cs) + rest)
  {
    assert ([c] + cs)[1..] == cs;
  }

  lemma FlatPairsMore(p: Pair, ps: seq<Pair>, rest: seq<Tok>)
    ensures FlatPairs([p] + ps) + rest == FlatPair(p) + (FlatPairs(ps) + rest)
  {
    assert ([p] + ps)[1..] == ps;
  }

  lemma PairsJoin(ts: seq<Tok>, i: nat, k: nat, j: nat, p: Pair, ps: seq<Pair>, rest: seq<Tok>)
    requires i <= k <= j <= |ts| && ts[i..k] == FlatPair(p) && ts[k..j] == FlatPairs(ps) + rest
    requires GoodPair(p) && GoodPairs(ps)
    ensures ts[i..j] == FlatPairs([p] + ps) + rest && GoodPairs([p] + ps)
  {
    assert ([p] + ps)[1..] == ps;
    Split(ts, i, k, j);
    FlatPairsMore(p, ps, rest);
  }

  lemma ChainsJoin(ts: seq<Tok>, i: nat, j: nat, c: Chain, cs: seq<Chain>, rest: seq<Tok>)
    requires i <= j <= |ts| && ts[i..j] == FlatChain(c) && ts[j..] == FlatChains(cs) + rest
    requires GoodChain(c) && GoodChains(cs)
    ensures ts[i..] == FlatChains([c] + cs) + rest && GoodChains([c] + cs)
  {
    assert ([c] + cs)[1..] == cs;
    Split(ts, i, j, |ts|);
    FlatChainsMore(c, cs, rest);
  }

  lemma {:induction false} ReadChains(tr: seq<Control>, ts: seq<Tok>, i: nat)
    returns (cs: seq<Chain>, semi: Option<Tok>)
    requires Trace(tr, ts) && i <= |ts| && tr[i].state == ClosePdef
    ensures ts[i..] == FlatChains(cs) + Opt(semi)
    ensures GoodChains(cs) && (semi.Some? ==> semi.value.kind == SemiColon)
    decreases |ts| - i
  {
    cs, semi := [], None;
    if i < |ts| {
      if ts[i].kind == SemiColon {
        ReadSemi(tr, ts, i);
        semi := Some(ts[i]);
      } else {
        Go(tr, ts, i);
        var c, j := ReadChain(tr, ts, i);
        cs, semi := ReadChains(tr, ts, j);
        ChainsJoin(ts, i, j, c, cs, Opt(semi));
        cs := [c] + cs;
      }
    }
  }

  /** One token or one group inside a value. */
  lemma {:induction false} ReadItem(tr: seq<Control>, ts: seq<Tok>, i: nat, d: int) returns (item: Item, k: nat)
    requires Trace(tr, ts) && i < |ts| && d >= 1 && tr[i] == Control(ParameterValueStatement, d)
    requires !ts[i].Closes() && (d == 1 ==> ts[i].kind != Comma)
    ensures i < k <= |ts| && GoodItem(item, d == 1) && ts[i..k] == FlatItem(item)
    ensures tr[k] == Control(ParameterValueStatement, d)
    ensures ts[i] == FlatItem(item)[0]
    decreases |ts| - i, 0
  {
    Go(tr, ts, i);
    if ts[i].Opens() {
      var inside, end := ReadInside(tr, ts, i + 1, d + 1);
      item, k := Group(ts[i], inside, ts[end]), end + 1;
      GroupIs(ts, i, inside, end);
    } else {
      item, k := Leaf(ts[i]), i + 1;
    }
  }

  lemma GroupIs(ts: seq<Tok>, i: nat, inside: Items, end: nat)
    requires i < end < |ts| && ts[i + 1..end] == FlatItems(inside)
    ensures ts[i..end + 1] == FlatItem(Group(ts[i], inside, ts[end]))
  {
    Split(ts, i, i + 1, end + 1);
    Split(ts, i + 1, end, end + 1);
  }

  /** Nested code up to the token that closes its group, at `j`. */
  lemma {:induction false} ReadInside(tr: seq<Control>, ts: seq<Tok>, i: nat, d: int) returns (items: Items, j: nat)
    requires Trace(tr, ts) && i <= |ts| && d >= 2 && tr[i] == Control(ParameterValueStatement, d)
    ensures i <= j < |ts| && GoodItems(items, false) && ts[i..j] == FlatItems(items)
    ensures ts[j].Closes() && tr[j + 1] == Control(ParameterValueStatement, d - 1)
    decreases |ts| - i, 1
  {
    Go(tr, ts, i);
    if ts[i].Closes() {
      items, j := Nil, i;
    } else {
      var item, k := ReadItem(tr, ts, i, d);
      items, j := ReadInside(tr, ts, k, d);
      Split(ts, i, k, j);
      items := Cons(item, items);
    }
  }

  /** The rest of a value up to the comma or bracket that ends it, at `j`. */
  lemma {:induction false} ReadOuter(tr: seq<Control>, ts: seq<Tok>, i: nat) returns (items: Items, j: nat)
    requires Trace(tr, ts) && i <= |ts| && tr[i] == Control(ParameterValueStatement, 1)
    ensures i <= j < |ts| && GoodItems(items, true) && ts[i..j] == FlatItems(items)
    ensures ts[j].Closes() || ts[j].kind == Comma
    ensures tr[j + 1] == if ts[j].Closes() then Control(ClosePdef, 0) else Control(ParameterSpace, 1)
    decreases |ts| - i
  {
    Go(tr, ts, i);
    if ts[i].Closes() || ts[i].kind == Comma {
      items, j := Nil, i;
    } else {
      var item, k := ReadItem(tr, ts, i, 1);
      items, j := ReadOuter(tr, ts, k);
      Split(ts, i, k, j);
      items := Cons(item, items);
    }
  }

  lemma ReadValue(tr: seq<Control>, ts: seq<Tok>, i: nat) returns (v: Items, j: nat)
    requires Trace(tr, ts) && i <= |ts| && tr[i] == Control(ParameterValue, 1)
    ensures i < j < |ts| && GoodValue(v) && ts[i..j] == FlatItems(v)
    ensures ts[j].Closes() || ts[j].kind == Comma
    ensures tr[j + 1] == if ts[j].Closes() then Control(ClosePdef, 0) else Control(ParameterSpace, 1)
  {
    Go(tr, ts, i);
    // The first token acts as it would in the state after it.
    var tr' := tr[i := Control(ParameterValueStatement, 1)];
    forall k | 0 <= k < |ts| - i ensures Moves(tr'[i..], ts[i..], k) {
      assert Moves(tr, ts, i + k);
    }
    var item, k := ReadItem(tr'[i..], ts[i..], 0, 1);
    k := k + i;
    assert ts[i..][0..k - i] == ts[i..k];
    v, j := ReadOuter(tr, ts, k);
    Split(ts, i, k, j);
    v := Cons(item, v);
  }

  lemma ReadPair(tr: seq<Control>, ts: seq<Tok>, i: nat) returns (p: Pair, k: nat)
    requires Trace(tr, ts) && i < |ts| && ts[i].kind == Comma && tr[i + 1] == Control(ParameterSpace, 1)
    requires i + 1 < |ts| && tr[i + 2] == Control(ParameterNameComma, 1) && ts[i + 1].kind == Symbol
    ensures i < k < |ts| && GoodPair(p) && ts[i..k] == FlatPair(p)
    ensures ts[k].Closes() || ts[k].kind == Comma
    ensures tr[k + 1] == if ts[k].Closes() then Control(ClosePdef, 0) else Control(ParameterSpace, 1)
  {
    Go(tr, ts, i + 2);
    var v;
    v, k := ReadValue(tr, ts, i + 3);
    p := Pair(ts[i], ts[i + 1], ts[i + 2], v);
    Split(ts, i, i + 3, k);
  }

  /** What a comma begins: a trailing comma, or pairs; the Pbindef is closed at `j`. */
  lemma {:induction false} ReadPairs(tr: seq<Control>, ts: seq<Tok>, i: nat)
    returns (ps: seq<Pair>, trailing: Option<Tok>, j: nat)
    requires Trace(tr, ts) && i < |ts| && ts[i].kind == Comma && tr[i + 1] == Control(ParameterSpace, 1)
    ensures i < j < |ts| && ts[i..j] == FlatPairs(ps) + Opt(trailing)
    ensures GoodPairs(ps) && WellClosed(ps, trailing, ts[j])
    ensures tr[j + 1] == Control(ClosePdef, 0)
    decreases |ts| - i
  {
    ReadSpace(tr, ts, i);
    if tr[i + 2].state == ClosePdef {
      ps, trailing, j := [], Some(ts[i]), i + 1;
    } else {
      var p, k := ReadPair(tr, ts, i);
      if ts[k].Closes() {
        ps, trailing, j := [p], None, k;
        LastPair(p);
      } else {
        var rest;
        rest, trailing, j := ReadPairs(tr, ts, k);
        PairsJoin(ts, i, k, j, p, rest, Opt(trailing));
        ps := [p] + rest;
      }
    }
  }

  /** After a comma comes a name, or the parenthesis that closes the Pbindef. */
  lemma ReadSpace(tr: seq<Control>, ts: seq<Tok>, i: nat)
    requires Trace(tr, ts) && i < |ts| && tr[i + 1] == Control(ParameterSpace, 1)
    ensures i + 1 < |ts|
    ensures || (tr[i + 2] == Control(ClosePdef, 0) && ts[i + 1].kind == CloseParen)
            || (tr[i + 2] == Control(ParameterNameComma, 1) && ts[i + 1].kind == Symbol)
  {
    Go(tr, ts, i + 1);
  }

  lemma LastPair(p: Pair)
    requires GoodPair(p)
    ensures FlatPairs([p]) + [] == FlatPair(p) && GoodPairs([p])
  {
    FlatPairsMore(p, [], []);
    assert [p] + [] == [p] && FlatPairs([]) + [] == [];
  }

  lemma ReadHead(tr: seq<Control>, ts: seq<Tok>)
    requires Trace(tr, ts) && tr[0] == Control(Start, 0)
    ensures |ts| >= 4 && ts[0].Is(ClassName, PBINDEF) && ts[1].kind == OpenParen && ts[2].kind == Symbol
    ensures (ts[3].kind == Comma && tr[4] == Control(ParameterSpace, 1))
      || (ts[3].kind == CloseParen && tr[4] == Control(ClosePdef, 0))
  {
    Go(tr, ts, 0);
    Go(tr, ts, 1);
    Go(tr, ts, 2);
    Go(tr, ts, 3);
  }

  lemma ReadTree(tr: seq<Control>, ts: seq<Tok>) returns (t: Tree)
    requires Trace(tr, ts) && tr[0] == Control(Start, 0)
    ensures Good(t) && Flat(t) == ts
  {
    ReadHead(tr, ts);
    var ps, trailing, j := [], None, 3;
    if ts[3].kind == Comma {
      ps, trailing, j := ReadPairs(tr, ts, 3);
    }
    var cs, semi := ReadChains(tr, ts, j + 1);
    t := Tree(ts[0], ts[1], ts[2], ps, trailing, ts[j], cs, semi);
    InFour(ts, j, FlatPairs(ps) + Opt(trailing), FlatChains(cs) + Opt(semi));
  }

  lemma InFour(ts: seq<Tok>, j: nat, middle: seq<Tok>, last: seq<Tok>)
    requires 3 <= j < |ts| && ts[3..j] == middle && ts[j + 1..] == last
    ensures ts == [ts[0], ts[1], ts[2]] + middle + [ts[j]] + last
  {}

  /** With whitespace and comments removed the list is a sentence of the language. */
  ghost predicate Readable(ts: seq<Tok>) {
    exists t :: Good(t) && Flat(t) == Significant(ts)
  }

  /**
   * The state machine is sound and complete: a token list is accepted exactly when, with whitespace
   * and comments removed, it is the flattening of a tree of the language.
   */
  lemma AcceptsExactlyTrees(c: Config, ts: seq<Tok>)
    requires c.control == Control(Start, 0)
    ensures Accepting(Run(c, ts).control) <==> Readable(ts)
  {
    RunIsMoveAll(c, ts);
    if Accepting(Run(c, ts).control) {
      var tr := TraceOf(Control(Start, 0), Significant(ts));
      var t := ReadTree(tr, Significant(ts));
    }
    if t :| Good(t) && Flat(t) == Significant(ts) {
      TreeAccepted(t);
    }
  }
}

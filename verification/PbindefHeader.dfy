/**
 * What is read of a sentence besides its parameters: the name, and the clock and the quantization of
 * the chains behind it.
 */
module PbindefHeader {
  import opened Options
  import opened Tokens
  import opened Pbindef
  import opened PbindefGrammar

  /** The machine as far as that goes. */
  datatype Facts = Facts(
    control: Control, name: Option<string>, clockName: Option<string>, clockQuant: Option<string>,
    quant: Option<string>)

  function FactsOf(c: Config): Facts {
    Facts(c.control, c.name, c.clockName, c.clockQuant, c.quant)
  }

  function Note(f: Facts, t: Tok): Facts {
    var s, to := f.control.state, Move(f.control, t);
    Facts(to,
      if s == GetName && to.state == NameComma then Some(t.str) else f.name,
      if s == PlayClockName && to.state == PlayClockNameComma then Some(t.str) else f.clockName,
      if s == PlayQuantValue && to.state == PlayClose then Some(t.str) else f.clockQuant,
      if s == QuantValue && to.state == ClosePdef then Some(t.str) else f.quant)
  }

  function NoteAll(f: Facts, ts: seq<Tok>): Facts
    decreases |ts|
  {
    if ts == [] then f else NoteAll(Note(f, ts[0]), ts[1..])
  }

  lemma {:induction false} NoteConcat(f: Facts, a: seq<Tok>, b: seq<Tok>)
    ensures NoteAll(f, a + b) == NoteAll(NoteAll(f, a), b)
    decreases |a|
  {
    if a == [] {
      assert a + b == b;
    } else {
      assert (a + b)[1..] == a[1..] + b;
      NoteConcat(Note(f, a[0]), a[1..], b);
    }
  }

  lemma NoteOne(f: Facts, t: Tok)
    ensures NoteAll(f, [t]) == Note(f, t)
  {
    assert [t][1..] == [];
    assert NoteAll(Note(f, t), []) == Note(f, t);
  }

  lemma NoteLast(f: Facts, ts: seq<Tok>, t: Tok)
    ensures NoteAll(f, ts + [t]) == Note(NoteAll(f, ts), t)
  {
    NoteConcat(f, ts, [t]);
    NoteOne(NoteAll(f, ts), t);
  }

  lemma SignificantNotes(f: Facts, before: seq<Tok>, last: Tok)
    ensures NoteAll(f, Significant(before + [last])) ==
      if last.Ignored() then NoteAll(f, Significant(before)) else Note(NoteAll(f, Significant(before)), last)
  {
    SignificantOne(before, last);
    NoteLast(f, Significant(before), last);
  }

  /** Whitespace and comments do not matter. */
  lemma {:induction false} RunNotes(c: Config, ts: seq<Tok>) returns (e: Config)
    ensures e == Run(c, ts) && FactsOf(e) == NoteAll(FactsOf(c), Significant(ts))
  {
    if ts == [] {
      e := c;
    } else {
      var before, last := ts[..|ts| - 1], ts[|ts| - 1];
      var b := RunNotes(c, before);
      e := Step(b, last, |before|);
      StepNotes(b, last, |before|);
      assert ts == before + [last];
      SignificantNotes(FactsOf(c), before, last);
    }
  }

  lemma StepNotes(c: Config, t: Tok, i: nat)
    ensures FactsOf(Step(c, t, i)) == if t.Ignored() then FactsOf(c) else Note(FactsOf(c), t)
  {}

  lemma {:induction false} NoteMoves(f: Facts, ts: seq<Tok>)
    ensures NoteAll(f, ts).control == MoveAll(f.control, ts)
    decreases |ts|
  {
    if ts != [] {
      NoteMoves(Note(f, ts[0]), ts[1..]);
    }
  }

  // ---- The parameters do not matter ----

  /** The states between the name and the end of the Pbindef. */
  predicate AmongPairs(s: State) {
    s == NameComma || s == ParameterSpace || s == ParameterNameComma || s == ParameterValue
      || s == ParameterValueStatement
  }

  predicate Behind(s: State) {
    !AmongPairs(s) && s != Start && s != OpenPbindef && s != GetName
  }

  /** Either the machine is still there and nothing was noted, or it has left for good. */
  predicate Quiet(f: Facts, g: Facts) {
    (AmongPairs(g.control.state) && g == f.(control := g.control)) || Behind(g.control.state)
  }

  lemma QuietStep(f: Facts, g: Facts, t: Tok)
    requires Quiet(f, g)
    ensures Quiet(f, Note(g, t))
  {}

  lemma {:induction false} PairsNoted(f: Facts, g: Facts, ts: seq<Tok>)
    requires Quiet(f, g)
    ensures Quiet(f, NoteAll(g, ts))
    decreases |ts|
  {
    if ts != [] {
      QuietStep(f, g, ts[0]);
      PairsNoted(f, Note(g, ts[0]), ts[1..]);
    }
  }

  /** Up to and with the token that closes the Pbindef. */
  lemma PairsAndClose(f: Facts, pairs: seq<Pair>, trailing: Option<Tok>, close: Tok)
    requires f.control == Control(NameComma, 1) && GoodPairs(pairs) && WellClosed(pairs, trailing, close)
    ensures NoteAll(f, FlatPairs(pairs) + Opt(trailing) + [close]) == f.(control := Control(ClosePdef, 0))
  {
    var middle := FlatPairs(pairs) + Opt(trailing);
    MiddleRuns(pairs, trailing);
    NoteMoves(f, middle);
    PairsNoted(f, f, middle);
    CloseMoves(pairs, trailing, close);
    NoteLast(f, middle, close);
  }

  lemma NameNoted(f: Facts, pbindef: Tok, open: Tok, name: Tok)
    requires f.control == Control(Start, 0)
    requires pbindef.Is(ClassName, PBINDEF) && open.kind == OpenParen && name.kind == Symbol
    ensures NoteAll(f, [pbindef, open, name]) == f.(control := Control(NameComma, 1), name := Some(name.str))
  {
    NotesThree(f, pbindef, open, name);
  }

  lemma NotesThree(f: Facts, a: Tok, b: Tok, c: Tok)
    ensures NoteAll(f, [a, b, c]) == Note(Note(Note(f, a), b), c)
  {
    NoteOne(f, a);
    NoteLast(f, [a], b);
    NoteLast(f, [a] + [b], c);
    assert [a] + [b] + [c] == [a, b, c];
  }

  // ---- The chains ----

  /** The clock of the last `.play`. */
  function ClockNameOf(cs: seq<Chain>, otherwise: Option<string>): Option<string> {
    if cs == [] then otherwise else
      var last := cs[|cs| - 1];
      if last.Play? then Some(last.clock.str) else ClockNameOf(cs[..|cs| - 1], otherwise)
  }

  /** The quantization of the last `.play` that has one. */
  function ClockQuantOf(cs: seq<Chain>, otherwise: Option<string>): Option<string> {
    if cs == [] then otherwise else
      var last := cs[|cs| - 1];
      if last.Play? && last.args.Some? then Some(last.args.value.number.str)
      else ClockQuantOf(cs[..|cs| - 1], otherwise)
  }

  /** The number of the last `.quant`. */
  function QuantOf(cs: seq<Chain>, otherwise: Option<string>): Option<string> {
    if cs == [] then otherwise else
      var last := cs[|cs| - 1];
      if last.Quant? then Some(last.number.str) else QuantOf(cs[..|cs| - 1], otherwise)
  }

  lemma QuantNoted(f: Facts, c: Chain)
    requires GoodChain(c) && c.Quant? && f.control.state == ClosePdef
    ensures NoteAll(f, FlatChain(c)) ==
      f.(control := Control(ClosePdef, f.control.parenDepth), quant := Some(c.number.str))
  {
    NotesThree(f, c.dot, c.quant, c.assign);
    NoteLast(f, [c.dot, c.quant, c.assign], c.number);
    assert [c.dot, c.quant, c.assign] + [c.number] == FlatChain(c);
  }

  lemma PlayHeadNoted(f: Facts, c: Chain)
    requires GoodChain(c) && c.Play? && f.control.state == ClosePdef
    ensures NoteAll(f, [c.dot, c.play, c.open, c.clock]) ==
      f.(control := Control(PlayClockNameComma, f.control.parenDepth + 1), clockName := Some(c.clock.str))
  {
    NotesThree(f, c.dot, c.play, c.open);
    NoteLast(f, [c.dot, c.play, c.open], c.clock);
    assert [c.dot, c.play, c.open] + [c.clock] == [c.dot, c.play, c.open, c.clock];
  }

  lemma PlayQuantNoted(f: Facts, q: PlayQuant, close: Tok)
    requires f.control.state == PlayClockNameComma && close.kind == CloseParen
    requires q.comma.kind == Comma && q.quant.Is(Identifier, QUANT) && q.colon.kind == Colon && q.number.kind == Number
    ensures NoteAll(f, [q.comma, q.quant, q.colon, q.number, close]) ==
      f.(control := Control(ClosePdef, f.control.parenDepth), clockQuant := Some(q.number.str))
  {
    NotesThree(f, q.comma, q.quant, q.colon);
    NoteLast(f, [q.comma, q.quant, q.colon], q.number);
    NoteLast(f, [q.comma, q.quant, q.colon] + [q.number], close);
    assert [q.comma, q.quant, q.colon] + [q.number] + [close] == [q.comma, q.quant, q.colon, q.number, close];
  }

  lemma PlayNoted(f: Facts, c: Chain) returns (g: Facts)
    requires GoodChain(c) && c.Play? && f.control.state == ClosePdef
    ensures g == NoteAll(f, FlatChain(c)) && g.control.state == ClosePdef && g.name == f.name
    ensures g.clockName == Some(c.clock.str) && g.quant == f.quant
    ensures g.clockQuant == if c.args.Some? then Some(c.args.value.number.str) else f.clockQuant
  {
    var head := [c.dot, c.play, c.open, c.clock];
    var rest := if c.args.Some?
      then [c.args.value.comma, c.args.value.quant, c.args.value.colon, c.args.value.number, c.close] else [c.close];
    PlayHeadNoted(f, c);
    var h := NoteAll(f, head);
    if c.args.Some? { PlayQuantNoted(h, c.args.value, c.close); } else { NoteOne(h, c.close); }
    g := NoteAll(h, rest);
    Flattened(c, head, rest);
    NoteConcat(f, head, rest);
  }

  lemma Flattened(c: Chain, head: seq<Tok>, rest: seq<Tok>)
    requires c.Play? && head == [c.dot, c.play, c.open, c.clock]
    requires rest == if c.args.Some?
      then [c.args.value.comma, c.args.value.quant, c.args.value.colon, c.args.value.number, c.close] else [c.close]
    ensures FlatChain(c) == head + rest
  {}

  /** One chain sets what it names, and leaves the machine ready for the next. */
  lemma ChainNoted(f: Facts, c: Chain) returns (g: Facts)
    requires GoodChain(c) && f.control.state == ClosePdef
    ensures g == NoteAll(f, FlatChain(c)) && g.control.state == ClosePdef && g.name == f.name
    ensures g.clockName == (if c.Play? then Some(c.clock.str) else f.clockName)
    ensures g.clockQuant == (if c.Play? && c.args.Some? then Some(c.args.value.number.str) else f.clockQuant)
    ensures g.quant == (if c.Quant? then Some(c.number.str) else f.quant)
  {
    if c.Quant? {
      QuantNoted(f, c);
      g := NoteAll(f, FlatChain(c));
    } else {
      g := PlayNoted(f, c);
    }
  }

  /** What the chains make of what was noted before. */
  predicate ChainsSet(f: Facts, cs: seq<Chain>, g: Facts) {
    && g.name == f.name && g.clockName == ClockNameOf(cs, f.clockName)
    && g.clockQuant == ClockQuantOf(cs, f.clockQuant) && g.quant == QuantOf(cs, f.quant)
  }

  lemma {:induction false} FlatChainsLast(cs: seq<Chain>)
    requires cs != []
    ensures FlatChains(cs) == FlatChains(cs[..|cs| - 1]) + FlatChain(cs[|cs| - 1])
    decreases |cs|
  {
    if |cs| == 1 {
      assert cs[1..] == [] && cs[..0] == [];
    } else {
      FlatChainsLast(cs[1..]);
      assert cs[1..][..|cs| - 2] == cs[..|cs| - 1][1..];
      assert FlatChain(cs[0]) + (FlatChains(cs[1..|cs| - 1]) + FlatChain(cs[|cs| - 1])) ==
        FlatChain(cs[0]) + FlatChains(cs[1..|cs| - 1]) + FlatChain(cs[|cs| - 1]);
    }
  }

  lemma {:induction false} GoodChainsLast(cs: seq<Chain>)
    requires GoodChains(cs) && cs != []
    ensures GoodChains(cs[..|cs| - 1]) && GoodChain(cs[|cs| - 1])
    decreases |cs|
  {
    if |cs| > 1 {
      GoodChainsLast(cs[1..]);
      assert cs[1..][..|cs| - 2] == cs[..|cs| - 1][1..];
    }
  }

  lemma {:induction false} ChainsNoted(f: Facts, cs: seq<Chain>) returns (g: Facts)
    requires GoodChains(cs) && f.control.state == ClosePdef
    ensures g == NoteAll(f, FlatChains(cs)) && g.control.state == ClosePdef && ChainsSet(f, cs, g)
    decreases |cs|
  {
    if cs == [] {
      g := f;
    } else {
      var before, last := cs[..|cs| - 1], cs[|cs| - 1];
      GoodChainsLast(cs);
      var h := ChainsNoted(f, before);
      g := ChainNoted(h, last);
      FlatChainsLast(cs);
      NoteConcat(f, FlatChains(before), FlatChain(last));
    }
  }

  lemma EndNoted(f: Facts, semi: Option<Tok>)
    requires f.control.state == ClosePdef && (semi.Some? ==> semi.value.kind == SemiColon)
    ensures NoteAll(f, Opt(semi)) == f.(control := NoteAll(f, Opt(semi)).control)
  {
    if semi.Some? { NoteOne(f, semi.value); }
  }

  lemma HeadNoted(f: Facts, t: Tree)
    requires Good(t) && f.control == Control(Start, 0)
    ensures NoteAll(f, [t.pbindef, t.open, t.name] + (Middle(t) + [t.close])) ==
      f.(control := Control(ClosePdef, 0), name := Some(t.name.str))
  {
    NameNoted(f, t.pbindef, t.open, t.name);
    NoteConcat(f, [t.pbindef, t.open, t.name], Middle(t) + [t.close]);
    PairsAndClose(NoteAll(f, [t.pbindef, t.open, t.name]), t.pairs, t.trailing, t.close);
  }

  lemma InTwo(t: Tree)
    ensures Flat(t) == [t.pbindef, t.open, t.name] + (Middle(t) + [t.close]) + (FlatChains(t.chains) + Opt(t.semi))
  {}

  lemma TreeNoted(f: Facts, t: Tree) returns (g: Facts)
    requires Good(t) && f.control == Control(Start, 0)
    ensures g == NoteAll(f, Flat(t)) && ChainsSet(f.(name := Some(t.name.str)), t.chains, g)
  {
    var head := [t.pbindef, t.open, t.name] + (Middle(t) + [t.close]);
    HeadNoted(f, t);
    var f1 := NoteAll(f, head);
    var f2 := ChainsNoted(f1, t.chains);
    EndNoted(f2, t.semi);
    g := NoteAll(f2, Opt(t.semi));
    NoteConcat(f1, FlatChains(t.chains), Opt(t.semi));
    NoteConcat(f, head, FlatChains(t.chains) + Opt(t.semi));
    InTwo(t);
  }

  /** The name, clock and quantizations are the tree's; `before` is what was kept where it has none. */
  predicate IsHeader(t: Tree, before: Facts, name: Option<string>, clockName: Option<string>,
                     clockQuant: Option<string>, quant: Option<string>) {
    && name == Some(t.name.str) && clockName == ClockNameOf(t.chains, before.clockName)
    && clockQuant == ClockQuantOf(t.chains, before.clockQuant) && quant == QuantOf(t.chains, before.quant)
  }

  /**
   * Of a list that reads as a tree the parser keeps the tree's name, the clock and quantization of
   * its last `.play`, and the number of its last `.quant`; where there is none, what was kept before.
   */
  lemma HeaderIsRead(c: Config, ts: seq<Tok>, t: Tree)
    requires c.control == Control(Start, 0) && Good(t) && Flat(t) == Significant(ts)
    ensures var end := Run(c, ts);
      IsHeader(t, FactsOf(c), end.name, end.clockName, end.clockQuant, end.quant)
  {
    var e := RunNotes(c, ts);
    var g := TreeNoted(FactsOf(c), t);
  }
}

/**
 * The grammar and the records together: what is recorded of a sentence is its pairs, each with its
 * name and its value, in their order.
 */
module PbindefRecords {
  import opened Options
  import opened Tokens
  import opened Pbindef
  import opened PbindefParameters
  import opened PbindefGrammar

  /** A parameter as the significant tokens of its value. */
  datatype Piece = Piece(name: string, value: seq<Tok>)

  /** The machine as it would be without whitespace and comments, recording tokens and not indices. */
  datatype Reader = Reader(control: Control, parameterName: string, value: seq<Tok>, pieces: seq<Piece>)

  function Read(r: Reader, t: Tok): Reader {
    var s, to := r.control.state, Move(r.control, t);
    Reader(to,
      if s == ParameterSpace && to.state == ParameterNameComma then t.str else r.parameterName,
      (if s == ParameterValue then [] else r.value) + if to.state == ParameterValueStatement then [t] else [],
      if to.state == ParameterValueStatement then r.pieces else Closed(r))
  }

  function ReadAll(r: Reader, ts: seq<Tok>): Reader
    decreases |ts|
  {
    if ts == [] then r else ReadAll(Read(r, ts[0]), ts[1..])
  }

  /** The pieces with the one that is open. */
  function Closed(r: Reader): seq<Piece> {
    r.pieces + if r.control.state == ParameterValueStatement then [Piece(r.parameterName, r.value)] else []
  }

  lemma {:induction false} ReadConcat(r: Reader, a: seq<Tok>, b: seq<Tok>)
    ensures ReadAll(r, a + b) == ReadAll(ReadAll(r, a), b)
    decreases |a|
  {
    if a == [] {
      assert a + b == b;
    } else {
      assert (a + b)[1..] == a[1..] + b;
      ReadConcat(Read(r, a[0]), a[1..], b);
    }
  }

  lemma ReadOne(r: Reader, t: Tok)
    ensures ReadAll(r, [t]) == Read(r, t)
  {
    assert [t][1..] == [];
    assert ReadAll(Read(r, t), []) == Read(r, t);
  }

  lemma ReadLast(r: Reader, ts: seq<Tok>, t: Tok)
    ensures ReadAll(r, ts + [t]) == Read(ReadAll(r, ts), t)
  {
    ReadConcat(r, ts, [t]);
    ReadOne(ReadAll(r, ts), t);
  }

  lemma ReadsThree(r: Reader, a: Tok, b: Tok, c: Tok)
    ensures ReadAll(r, [a, b, c]) == Read(Read(Read(r, a), b), c)
  {
    ReadOne(r, a);
    ReadLast(r, [a], b);
    ReadLast(r, [a] + [b], c);
    assert [a] + [b] + [c] == [a, b, c];
  }

  // ---- The machine is that reader ----

  function PieceOf(r: Record, ts: seq<Tok>): Piece {
    Piece(r.name, Significant(Pick(ts, r.value)))
  }

  function PiecesOf(rs: seq<Record>, ts: seq<Tok>): (ps: seq<Piece>)
    ensures |ps| == |rs| && forall i | 0 <= i < |rs| :: ps[i] == PieceOf(rs[i], ts)
  {
    seq(|rs|, i requires 0 <= i < |rs| => PieceOf(rs[i], ts))
  }

  function ReaderOf(c: Config, ts: seq<Tok>): Reader {
    Reader(c.control, c.parameterName, Significant(Pick(ts, c.value)), PiecesOf(c.records, ts))
  }

  /** What a token that is kept adds to the open value. */
  function Kept(control: Control, t: Tok): seq<Tok> {
    if control.state == ParameterValueStatement && !t.Ignored() then [t] else []
  }

  lemma PickReads(ts: seq<Tok>, indices: seq<nat>, i: nat)
    requires i < |ts|
    ensures Significant(Pick(ts, indices + [i])) ==
      Significant(Pick(ts, indices)) + if ts[i].Ignored() then [] else [ts[i]]
  {
    PickMore(ts, indices, i);
    SignificantOne(Pick(ts, indices), ts[i]);
  }

  lemma ExtractReads(c: Config, ts: seq<Tok>, t: Tok)
    requires !t.Ignored()
    ensures var r, x := ReaderOf(c, ts), ReaderOf(Extract(c, t, Move(c.control, t)), ts);
      Read(r, t) == x.(value := x.value + Kept(x.control, t))
  {
    var x := Extract(c, t, Move(c.control, t));
    if x.records != c.records {
      var one := Record(c.parameterName, c.value, |c.records|);
      assert PiecesOf(c.records + [one], ts) == PiecesOf(c.records, ts) + [PieceOf(one, ts)];
    }
  }

  lemma CollectReads(c: Config, ts: seq<Tok>, i: nat, more: seq<Tok>)
    requires more == Significant(Pick(ts, c.value + [i]))
    ensures ReaderOf(Collect(c, i), ts) ==
      if c.control.state == ParameterValueStatement then ReaderOf(c, ts).(value := more) else ReaderOf(c, ts)
  {}

  lemma KeptReads(c: Config, ts: seq<Tok>, i: nat, r: Reader)
    requires i < |ts| && r == ReaderOf(c, ts)
    ensures ReaderOf(Collect(c, i), ts) == r.(value := r.value + Kept(c.control, ts[i]))
  {
    PickReads(ts, c.value, i);
    CollectReads(c, ts, i, Significant(Pick(ts, c.value + [i])));
  }

  lemma StepReads(c: Config, ts: seq<Tok>, i: nat) returns (e: Config)
    requires i < |ts|
    ensures e == Step(c, ts[i], i)
    ensures ReaderOf(e, ts) == if ts[i].Ignored() then ReaderOf(c, ts) else Read(ReaderOf(c, ts), ts[i])
  {
    var x := if ts[i].Ignored() then c else Extract(c, ts[i], Move(c.control, ts[i]));
    if !ts[i].Ignored() {
      ExtractReads(c, ts, ts[i]);
    }
    e := Collect(x, i);
    KeptReads(x, ts, i, ReaderOf(x, ts));
  }

  lemma {:induction false} RunReads(c: Config, ts: seq<Tok>, i: nat) returns (e: Config)
    requires i <= |ts|
    ensures e == Run(c, ts[..i]) && ReaderOf(e, ts) == ReadAll(ReaderOf(c, ts), Significant(ts[..i]))
  {
    if i == 0 {
      e := c;
    } else {
      var b := RunReads(c, ts, i - 1);
      e := StepReads(b, ts, i - 1);
      RunNext(c, ts, i - 1, b);
      SignificantNext(ReaderOf(c, ts), ts, i - 1);
    }
  }

  lemma SignificantNext(r: Reader, ts: seq<Tok>, i: nat)
    requires i < |ts|
    ensures var before := ReadAll(r, Significant(ts[..i]));
      ReadAll(r, Significant(ts[..i + 1])) == if ts[i].Ignored() then before else Read(before, ts[i])
  {
    assert ts[..i + 1] == ts[..i] + [ts[i]];
    SignificantOne(ts[..i], ts[i]);
    ReadLast(r, Significant(ts[..i]), ts[i]);
  }

  // ---- What it makes of a tree ----

  /** Reading `ts` adds it to the open value. */
  predicate Adds(r: Reader, ts: seq<Tok>, r': Reader) {
    r' == ReadAll(r, ts) && r' == r.(control := r'.control, value := r.value + ts)
  }

  lemma AddsBoth(r: Reader, a: seq<Tok>, r1: Reader, b: seq<Tok>, r2: Reader)
    requires Adds(r, a, r1) && Adds(r1, b, r2)
    ensures Adds(r, a + b, r2)
  {
    ReadBoth(r, a, r1, b, r2);
    Regroup(r.value, a, b);
  }

  lemma ReadBoth(r: Reader, a: seq<Tok>, r1: Reader, b: seq<Tok>, r2: Reader)
    requires r1 == ReadAll(r, a) && r2 == ReadAll(r1, b)
    ensures r2 == ReadAll(r, a + b)
  {
    ReadConcat(r, a, b);
  }

  lemma Regroup<T>(a: seq<T>, b: seq<T>, c: seq<T>)
    ensures (a + b) + c == a + (b + c)
  {}

  lemma AddsOne(r: Reader, t: Tok, r': Reader)
    requires r.control.state == ParameterValueStatement && Read(r, t).control.state == ParameterValueStatement
    requires r' == Read(r, t)
    ensures Adds(r, [t], r')
  {
    ReadOne(r, t);
  }

  lemma {:induction false} ItemReads(i: Item, outer: bool, r: Reader) returns (r': Reader)
    requires GoodItem(i, outer) && r.control.state == ParameterValueStatement
    requires r.control.parenDepth >= if outer then 1 else 2
    ensures Adds(r, FlatItem(i), r') && r'.control == r.control
    decreases i, 1
  {
    match i
    case Leaf(t) =>
      r' := Read(r, t);
      AddsOne(r, t, r');
    case Group(o, inside, close) =>
      var r1 := Read(r, o);
      AddsOne(r, o, r1);
      var r2 := ItemsRead(inside, false, r1);
      r' := Read(r2, close);
      AddsOne(r2, close, r');
      AddsBoth(r, [o], r1, FlatItems(inside), r2);
      AddsBoth(r, [o] + FlatItems(inside), r2, [close], r');
  }

  lemma {:induction false} ItemsRead(items: Items, outer: bool, r: Reader) returns (r': Reader)
    requires GoodItems(items, outer) && r.control.state == ParameterValueStatement
    requires r.control.parenDepth >= if outer then 1 else 2
    ensures Adds(r, FlatItems(items), r') && r'.control == r.control
    decreases items, 0
  {
    match items
    case Nil => r' := r;
    case Cons(head, tail) =>
      var r1 := ItemReads(head, outer, r);
      r' := ItemsRead(tail, outer, r1);
      AddsBoth(r, FlatItem(head), r1, FlatItems(tail), r');
  }

  lemma ValueReads(v: Items, r: Reader)
    requires GoodValue(v) && r.control == Control(ParameterValue, 1)
    ensures ReadAll(r, FlatItems(v)) == r.(control := Control(ParameterValueStatement, 1), value := FlatItems(v))
  {
    // The first token acts as it would in an empty value.
    var empty := r.(control := Control(ParameterValueStatement, 1), value := []);
    var ts := FlatItems(v);
    assert Read(r, ts[0]) == Read(empty, ts[0]);
    var r' := ItemsRead(v, true, empty);
    assert [] + ts == ts;
  }

  function PieceOfPair(p: Pair): Piece {
    Piece(p.name.str, FlatItems(p.value))
  }

  function PiecesFor(ps: seq<Pair>): (pieces: seq<Piece>)
    ensures |pieces| == |ps|
  {
    if ps == [] then [] else [PieceOfPair(ps[0])] + PiecesFor(ps[1..])
  }

  lemma {:induction false} PiecesForAt(ps: seq<Pair>, i: nat)
    requires i < |ps|
    ensures PiecesFor(ps)[i] == PieceOfPair(ps[i])
  {
    if i > 0 {
      PiecesForAt(ps[1..], i - 1);
    }
  }

  predicate BeforePair(c: Control) {
    c == Control(NameComma, 1) || c == Control(ParameterValueStatement, 1)
  }

  lemma NameReads(p: Pair, r: Reader) returns (r': Reader)
    requires GoodPair(p) && BeforePair(r.control)
    ensures r' == ReadAll(r, [p.comma, p.name, p.comma2])
    ensures r'.control == Control(ParameterValue, 1) && r'.parameterName == p.name.str && r'.pieces == Closed(r)
  {
    r' := Read(Read(Read(r, p.comma), p.name), p.comma2);
    ReadsThree(r, p.comma, p.name, p.comma2);
  }

  lemma PairReads(p: Pair, r: Reader)
    requires GoodPair(p) && BeforePair(r.control)
    ensures ReadAll(r, FlatPair(p)) ==
      Reader(Control(ParameterValueStatement, 1), p.name.str, FlatItems(p.value), Closed(r))
  {
    var r' := NameReads(p, r);
    ValueReads(p.value, r');
    ReadBoth(r, [p.comma, p.name, p.comma2], r', FlatItems(p.value), ReadAll(r', FlatItems(p.value)));
  }

  lemma {:induction false} PairsRead(ps: seq<Pair>, r: Reader) returns (r': Reader)
    requires GoodPairs(ps) && BeforePair(r.control)
    ensures r' == ReadAll(r, FlatPairs(ps)) && Closed(r') == Closed(r) + PiecesFor(ps)
    ensures r'.control == if ps == [] then r.control else Control(ParameterValueStatement, 1)
    decreases |ps|
  {
    if ps == [] {
      r' := r;
    } else {
      PairReads(ps[0], r);
      var next := ReadAll(r, FlatPair(ps[0]));
      r' := PairsRead(ps[1..], next);
      ReadBoth(r, FlatPair(ps[0]), next, FlatPairs(ps[1..]), r');
      OneMorePiece(Closed(r), ps, Closed(next));
    }
  }

  lemma OneMorePiece(before: seq<Piece>, ps: seq<Pair>, next: seq<Piece>)
    requires ps != [] && next == before + [PieceOfPair(ps[0])]
    ensures next + PiecesFor(ps[1..]) == before + PiecesFor(ps)
  {
    Regroup(before, [PieceOfPair(ps[0])], PiecesFor(ps[1..]));
  }

  /** The states in which no value can begin any more. */
  predicate Past(s: State) {
    match s
    case Start => false
    case OpenPbindef => false
    case GetName => false
    case NameComma => false
    case ParameterSpace => false
    case ParameterNameComma => false
    case ParameterValue => false
    case ParameterValueStatement => false
    case _ => true
  }

  lemma {:induction false} PastReads(r: Reader, ts: seq<Tok>)
    requires Past(r.control.state)
    ensures ReadAll(r, ts).pieces == r.pieces
    decreases |ts|
  {
    if ts != [] {
      PastReads(Read(r, ts[0]), ts[1..]);
    }
  }

  lemma CloseReads(r: Reader, pairs: seq<Pair>, trailing: Option<Tok>, close: Tok, rest: seq<Tok>)
    requires WellClosed(pairs, trailing, close)
    requires r.control == Control(if pairs == [] then NameComma else ParameterValueStatement, 1)
    ensures ReadAll(r, Opt(trailing) + [close] + rest).pieces == Closed(r)
  {
    var r1 := if trailing.Some? then Read(r, trailing.value) else r;
    CloseMoves(pairs, trailing, close);
    OptReads(r, trailing);
    ReadLast(r, Opt(trailing), close);
    Ends(r, Opt(trailing) + [close], Read(r1, close), rest);
  }

  lemma Ends(r: Reader, closing: seq<Tok>, closed: Reader, rest: seq<Tok>)
    requires closed == ReadAll(r, closing) && Past(closed.control.state)
    ensures ReadAll(r, closing + rest).pieces == closed.pieces
  {
    ReadBoth(r, closing, closed, rest, ReadAll(closed, rest));
    PastReads(closed, rest);
  }

  lemma OptReads(r: Reader, t: Option<Tok>)
    ensures ReadAll(r, Opt(t)) == if t.Some? then Read(r, t.value) else r
  {
    if t.Some? { ReadOne(r, t.value); }
  }

  lemma HeadReads(t: Tree, r: Reader, head: seq<Tok>) returns (r': Reader)
    requires Good(t) && r.control == Control(Start, 0) && r.pieces == [] && head == [t.pbindef, t.open, t.name]
    ensures r' == ReadAll(r, head) && r'.control == Control(NameComma, 1) && r'.pieces == []
  {
    r' := Read(Read(Read(r, t.pbindef), t.open), t.name);
    ReadsThree(r, t.pbindef, t.open, t.name);
  }

  lemma InThree(t: Tree, head: seq<Tok>, middle: seq<Tok>, tail: seq<Tok>)
    requires head == [t.pbindef, t.open, t.name] && middle == FlatPairs(t.pairs)
    requires tail == Opt(t.trailing) + [t.close] + Ending(t)
    ensures Flat(t) == head + (middle + tail)
  {}

  lemma TreeReads(t: Tree, r: Reader)
    requires Good(t) && r.control == Control(Start, 0) && r.pieces == []
    ensures ReadAll(r, Flat(t)).pieces == PiecesFor(t.pairs)
  {
    var head, tail := [t.pbindef, t.open, t.name], Opt(t.trailing) + [t.close] + Ending(t);
    var r1 := HeadReads(t, r, head);
    MiddleReads(r1, t.pairs, t.trailing, t.close, Ending(t));
    InThree(t, head, FlatPairs(t.pairs), tail);
    ReadBoth(r, head, r1, FlatPairs(t.pairs) + tail, ReadAll(r1, FlatPairs(t.pairs) + tail));
  }

  lemma MiddleReads(r: Reader, pairs: seq<Pair>, trailing: Option<Tok>, close: Tok, rest: seq<Tok>)
    requires r.control == Control(NameComma, 1) && r.pieces == []
    requires GoodPairs(pairs) && WellClosed(pairs, trailing, close)
    ensures ReadAll(r, FlatPairs(pairs) + (Opt(trailing) + [close] + rest)).pieces == PiecesFor(pairs)
  {
    var tail := Opt(trailing) + [close] + rest;
    var r' := PairsRead(pairs, r);
    CloseReads(r', pairs, trailing, close, rest);
    ReadBoth(r, FlatPairs(pairs), r', tail, ReadAll(r', tail));
    Nothing(PiecesFor(pairs));
  }

  lemma Nothing<T>(s: seq<T>)
    ensures [] + s == s
  {}

  /** The record is that pair. */
  predicate IsPair(ts: seq<Tok>, r: Record, p: Pair) {
    && r.value != [] && Lo(r) < Hi(r) <= |ts|
    && r.name == p.name.str && Significant(ts[Lo(r)..Hi(r)]) == FlatItems(p.value)
  }

  lemma PiecesAre(c: Config, ts: seq<Tok>, t: Tree)
    requires c.control == Control(Start, 0) && c.records == [] && Good(t) && Flat(t) == Significant(ts)
    ensures PiecesOf(Run(c, ts).records, ts) == PiecesFor(t.pairs)
  {
    var e := RunReads(c, ts, |ts|);
    assert ts[..|ts|] == ts;
    TreeReads(t, ReaderOf(c, ts));
  }

  lemma PieceIsPair(ts: seq<Tok>, r: Record, p: Pair)
    requires GoodRecord(ts, r) && PieceOf(r, ts) == PieceOfPair(p)
    ensures IsPair(ts, r, p)
  {
    PickRange(ts, Lo(r), Hi(r));
  }

  /**
   * Of a list that reads as a tree exactly the tree's pairs are recorded, in their order: each under
   * its name, with the slice that is its value when whitespace and comments are removed.
   */
  lemma RecordsArePairs(c: Config, ts: seq<Tok>, t: Tree)
    requires c.control == Control(Start, 0) && c.records == [] && Good(t) && Flat(t) == Significant(ts)
    ensures var rs := Run(c, ts).records;
      |rs| == |t.pairs| && forall i | 0 <= i < |rs| :: IsPair(ts, rs[i], t.pairs[i])
  {
    PiecesAre(c, ts, t);
    RecordsAreSlices(c, ts);
    PiecesArePairs(ts, Run(c, ts).records, t.pairs);
  }

  lemma PiecesArePairs(ts: seq<Tok>, rs: seq<Record>, ps: seq<Pair>)
    requires GoodRecords(ts, rs) && PiecesOf(rs, ts) == PiecesFor(ps)
    ensures |rs| == |ps| && forall i | 0 <= i < |rs| :: IsPair(ts, rs[i], ps[i])
  {
    forall i | 0 <= i < |rs| ensures IsPair(ts, rs[i], ps[i]) {
      PiecesForAt(ps, i);
      assert PiecesOf(rs, ts)[i] == PieceOfPair(ps[i]);
      PieceIsPair(ts, rs[i], ps[i]);
    }
  }
}

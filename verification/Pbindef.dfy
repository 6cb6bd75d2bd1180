/** The state machine of SCLOrkPDVoice.setFromTokens over token values. */
module Pbindef {
  import opened Options
  import opened Tokens

  const PBINDEF := "Pbindef"
  const PLAY := "play"
  const QUANT := "quant"

  datatype State =
    | Error | Start | OpenPbindef | GetName | NameComma | ParameterSpace | ParameterNameComma | ParameterValue
    | ParameterValueStatement | ClosePdef | Chaining | PlayChain | PlayClockName | PlayClockNameComma | PlayQuantArg
    | PlayQuantColon | PlayQuantValue | PlayClose | QuantChain | QuantValue | Done

  /** The part of the machine that decides what is accepted. */
  datatype Control = Control(state: State, parenDepth: int)

  predicate BeginsValue(t: Tok) {
    t.Opens() || t.kind == Number || t.kind == StringLiteral || t.kind == Global || t.kind == ClassName
      || t.kind == Ratio
  }

  function Move(c: Control, t: Tok): Control {
    var d := c.parenDepth;
    match c.state
    case Error => c
    case Start => Control(if t.Is(ClassName, PBINDEF) then OpenPbindef else Error, d)
    case OpenPbindef => if t.kind == OpenParen && d == 0 then Control(GetName, 1) else Control(Error, d)
    case GetName => Control(if t.kind == Symbol then NameComma else Error, d)
    case NameComma =>
      if t.kind == Comma then Control(ParameterSpace, d)
      else if t.kind == CloseParen && d == 1 then Control(ClosePdef, 0)
      else Control(Error, d)
    case ParameterSpace =>
      if t.kind == Symbol then Control(ParameterNameComma, d)
      else if t.kind == CloseParen && d == 1 then Control(ClosePdef, 0)
      else Control(Error, d)
    case ParameterNameComma => Control(if t.kind == Comma then ParameterValue else Error, d)
    case ParameterValue =>
      if t.Opens() then Control(ParameterValueStatement, d + 1)
      else Control(if BeginsValue(t) then ParameterValueStatement else Error, d)
    case ParameterValueStatement =>
      if t.Opens() then Control(ParameterValueStatement, d + 1)
      else if t.Closes() then Control(if d - 1 > 0 then ParameterValueStatement else ClosePdef, d - 1)
      else Control(if t.kind == Comma && d == 1 then ParameterSpace else ParameterValueStatement, d)
    case ClosePdef =>
      Control(if t.kind == SemiColon then Done else if t.kind == Dot then Chaining else Error, d)
    case Chaining =>
      Control(if t.Is(Identifier, PLAY) then PlayChain else if t.Is(Identifier, QUANT) then QuantChain else Error, d)
    case PlayChain => if t.kind == OpenParen then Control(PlayClockName, d + 1) else Control(Error, d)
    case PlayClockName => Control(if t.kind == Global || t.kind == Identifier then PlayClockNameComma else Error, d)
    case PlayClockNameComma =>
      if t.kind == Comma then Control(PlayQuantArg, d)
      else if t.kind == CloseParen then Control(ClosePdef, d - 1)
      else Control(Error, d)
    case PlayQuantArg => Control(if t.Is(Identifier, QUANT) then PlayQuantColon else Error, d)
    case PlayQuantColon => Control(if t.kind == Colon then PlayQuantValue else Error, d)
    case PlayQuantValue => Control(if t.kind == Number then PlayClose else Error, d)
    case PlayClose => Control(if t.kind == CloseParen then ClosePdef else Error, d)
    case QuantChain => Control(if t.kind == Assignment then QuantValue else Error, d)
    case QuantValue => Control(if t.kind == Number then ClosePdef else Error, d)
    case Done => Control(Error, d)
  }

  function MoveAll(c: Control, ts: seq<Tok>): Control
    decreases |ts|
  {
    if ts == [] then c else MoveAll(Move(c, ts[0]), ts[1..])
  }

  predicate Accepting(c: Control) {
    c.state == Done || c.state == ClosePdef
  }

  predicate Accepts(c: Control, ts: seq<Tok>) {
    Accepting(MoveAll(c, ts))
  }

  // ---- The whole machine ----

  /** A recorded parameter; `value` lists the indices of its tokens. */
  datatype Record = Record(name: string, value: seq<nat>, order: nat)

  datatype Config = Config(
    control: Control,
    name: Option<string>,
    parameterName: string,
    value: seq<nat>,
    records: seq<Record>,
    clockName: Option<string>,
    clockQuant: Option<string>,
    quant: Option<string>)

  /** The machine before the first token, with what earlier parses left in the voice. */
  function Begin(name: Option<string>, clockName: Option<string>, clockQuant: Option<string>,
      quant: Option<string>): Config {
    Config(Control(Start, 0), name, "", [], [], clockName, clockQuant, quant)
  }

  /** What a significant token that moves the control to `to` makes of the rest. */
  function Extract(c: Config, t: Tok, to: Control): Config {
    var s := c.control.state;
    c.(control := to,
       name := if s == GetName && to.state == NameComma then Some(t.str) else c.name,
       parameterName := if s == ParameterSpace && to.state == ParameterNameComma then t.str else c.parameterName,
       value := if s == ParameterValue then [] else c.value,
       records := if s == ParameterValueStatement && to.state != ParameterValueStatement
                  then c.records + [Record(c.parameterName, c.value, |c.records|)] else c.records,
       clockName := if s == PlayClockName && to.state == PlayClockNameComma then Some(t.str) else c.clockName,
       clockQuant := if s == PlayQuantValue && to.state == PlayClose then Some(t.str) else c.clockQuant,
       quant := if s == QuantValue && to.state == ClosePdef then Some(t.str) else c.quant)
  }

  /** Inside a value every token is added to it, whitespace and comments too. */
  function Collect(c: Config, i: nat): Config {
    if c.control.state == ParameterValueStatement then c.(value := c.value + [i]) else c
  }

  function Step(c: Config, t: Tok, i: nat): Config {
    Collect(if t.Ignored() then c else Extract(c, t, Move(c.control, t)), i)
  }

  function Run(c: Config, ts: seq<Tok>): Config {
    if ts == [] then c else Step(Run(c, ts[..|ts| - 1]), ts[|ts| - 1], |ts| - 1)
  }

  lemma {:induction false} MoveAllConcat(c: Control, a: seq<Tok>, b: seq<Tok>)
    ensures MoveAll(c, a + b) == MoveAll(MoveAll(c, a), b)
    decreases |a|
  {
    if a == [] {
      assert a + b == b;
    } else {
      assert (a + b)[1..] == a[1..] + b;
      MoveAllConcat(Move(c, a[0]), a[1..], b);
    }
  }

  lemma StepMoves(c: Config, t: Tok, i: nat)
    ensures Step(c, t, i).control == MoveAll(c.control, if t.Ignored() then [] else [t])
  {}

  /** Whitespace and comments do not move the machine. */
  lemma {:induction false} RunIsMoveAll(c: Config, ts: seq<Tok>)
    ensures Run(c, ts).control == MoveAll(c.control, Significant(ts))
  {
    if ts != [] {
      var before, last := ts[..|ts| - 1], ts[|ts| - 1];
      RunIsMoveAll(c, before);
      StepMoves(Run(c, before), last, |before|);
      SignificantOne(before, last);
      assert ts == before + [last];
      MoveAllConcat(c.control, Significant(before), if last.Ignored() then [] else [last]);
    }
  }
}

/**
 * A voice: the parser run over token objects that the voice and its parameters share, and the
 * source rebuilt from them after edits.
 */
module PDVoice {
  import opened Options
  import opened Tokens
  import opened Pbindef
  import opened PbindefParameters
  import Grammar = PbindefGrammar
  import Records = PbindefRecords
  import Header = PbindefHeader

  /** A token object; only its string is ever changed, in place. */
  class Token {
    const kind: TokenType
    const offset: nat
    const length: nat
    var str: string

    constructor (t: Tok)
      ensures View() == t
    {
      kind, str, offset, length := t.kind, t.str, t.offset, t.length;
    }

    ghost function View(): Tok
      reads this
    {
      Tok(kind, str, offset, length)
    }
  }

  ghost function Views(ts: seq<Token>): (r: seq<Tok>)
    reads ts
    ensures |r| == |ts| && forall i | 0 <= i < |r| :: r[i] == ts[i].View()
  {
    seq(|ts|, i requires 0 <= i < |ts| reads ts => ts[i].View())
  }

  datatype Param = Param(tokens: seq<Token>, str: string, order: nat)

  function ParamOf(r: Record, tokens: seq<Token>, ts: seq<Tok>): Param {
    Param(Pick(tokens, r.value), Concat(Pick(ts, r.value)), r.order)
  }

  /** The dictionary of parameters: of two parameters of one name the later one stays. */
  function ParamsOf(rs: seq<Record>, tokens: seq<Token>, ts: seq<Tok>): map<string, Param> {
    if rs == [] then map[] else
      var r := rs[|rs| - 1];
      ParamsOf(rs[..|rs| - 1], tokens, ts)[r.name := ParamOf(r, tokens, ts)]
  }

  ghost predicate SliceOf(part: seq<Token>, tokens: seq<Token>, lo: nat, hi: nat) {
    lo < hi <= |tokens| && part == tokens[lo..hi]
  }

  ghost predicate PartOf(part: seq<Token>, tokens: seq<Token>) {
    exists lo: nat, hi: nat :: SliceOf(part, tokens, lo, hi)
  }

  /** The parameter is the objects of one slice; its string is theirs put together, and its name comes before. */
  ghost predicate ParamAt(p: Param, name: string, tokens: seq<Token>, ts: seq<Tok>, lo: nat, hi: nat) {
    && |tokens| == |ts| && SliceOf(p.tokens, tokens, lo, hi) && p.str == Concat(ts[lo..hi])
    && BeginsValue(ts[lo]) && Balanced(ts[lo..hi]) && Named(ts, lo, name)
  }

  /** A parameter lies in the piece that its order number points to. */
  ghost predicate Laid(p: Param, name: string, tokens: seq<Token>, ts: seq<Tok>, at: seq<(nat, nat)>) {
    p.order < |at| && ParamAt(p, name, tokens, ts, at[p.order].0, at[p.order].1)
  }

  predicate Ascending(at: seq<(nat, nat)>) {
    forall i, j | 0 <= i < j < |at| :: at[i].1 < at[j].0
  }

  predicate OrdersDiffer(ps: map<string, Param>) {
    forall n, m | n in ps && m in ps && ps[n].order == ps[m].order :: n == m
  }

  /** Parameters are pieces of the list; their order numbers tell the order of the pieces, which do not overlap. */
  ghost predicate ParamsInOrder(ps: map<string, Param>, tokens: seq<Token>, ts: seq<Tok>) {
    OrdersDiffer(ps) && exists at :: Ascending(at) && forall n | n in ps :: Laid(ps[n], n, tokens, ts, at)
  }

  lemma RecordIsSlice(r: Record, tokens: seq<Token>, ts: seq<Tok>)
    requires |tokens| == |ts| && GoodRecord(ts, r)
    ensures ParamAt(ParamOf(r, tokens, ts), r.name, tokens, ts, Lo(r), Hi(r))
  {
    PickRange(tokens, Lo(r), Hi(r));
    PickRange(ts, Lo(r), Hi(r));
  }

  lemma {:induction false} ParamIsRecord(rs: seq<Record>, tokens: seq<Token>, ts: seq<Tok>, n: string)
    requires n in ParamsOf(rs, tokens, ts) && forall i | 0 <= i < |rs| :: rs[i].order == i
    ensures var p := ParamsOf(rs, tokens, ts)[n];
      p.order < |rs| && rs[p.order].name == n && p == ParamOf(rs[p.order], tokens, ts)
    decreases |rs|
  {
    if rs[|rs| - 1].name != n {
      ParamIsRecord(rs[..|rs| - 1], tokens, ts, n);
    }
  }

  function Places(rs: seq<Record>): (at: seq<(nat, nat)>)
    requires forall i | 0 <= i < |rs| :: rs[i].value != []
    ensures PlacesOf(at, rs)
  {
    if rs == [] then [] else
      var r := rs[|rs| - 1];
      Places(rs[..|rs| - 1]) + [(r.value[0], Hi(r))]
  }

  predicate PlacesOf(at: seq<(nat, nat)>, rs: seq<Record>) {
    |at| == |rs| && forall i | 0 <= i < |rs| :: rs[i].value != [] && at[i].0 == Lo(rs[i]) && at[i].1 == Hi(rs[i])
  }

  lemma ParamLaid(rs: seq<Record>, tokens: seq<Token>, ts: seq<Tok>, at: seq<(nat, nat)>, n: string, p: Param)
    requires |tokens| == |ts| && GoodRecords(ts, rs) && PlacesOf(at, rs)
    requires n in ParamsOf(rs, tokens, ts) && p == ParamsOf(rs, tokens, ts)[n]
    ensures Laid(p, n, tokens, ts, at) && rs[p.order].name == n
  {
    ParamIsRecord(rs, tokens, ts, n);
    RecordIsSlice(rs[p.order], tokens, ts);
  }

  lemma RecordsInOrder(rs: seq<Record>, tokens: seq<Token>, ts: seq<Tok>, ps: map<string, Param>)
    requires |tokens| == |ts| && GoodRecords(ts, rs) && ps == ParamsOf(rs, tokens, ts)
    ensures ParamsInOrder(ps, tokens, ts)
  {
    var at := Places(rs);
    forall n | n in ps ensures Laid(ps[n], n, tokens, ts, at) && rs[ps[n].order].name == n {
      ParamLaid(rs, tokens, ts, at, n, ps[n]);
    }
    assert OrdersDiffer(ps) && Ascending(at);
  }

  // ---- The parameters of a sentence ----

  /** The parameter is the pair that its order number points to. */
  ghost predicate IsPair(p: Param, name: string, t: Grammar.Tree, tokens: seq<Token>, ts: seq<Tok>) {
    && |tokens| == |ts| && p.order < |t.pairs| && t.pairs[p.order].name.str == name
    && exists lo: nat, hi: nat ::
         SliceOf(p.tokens, tokens, lo, hi) && Significant(ts[lo..hi]) == Grammar.FlatItems(t.pairs[p.order].value)
  }

  /** The parameters are exactly the pairs of the tree; of several of one name the last one. */
  ghost predicate HoldsPairs(ps: map<string, Param>, t: Grammar.Tree, tokens: seq<Token>, ts: seq<Tok>) {
    && (forall k | 0 <= k < |t.pairs| :: t.pairs[k].name.str in ps && k <= ps[t.pairs[k].name.str].order)
    && forall n | n in ps :: IsPair(ps[n], n, t, tokens, ts)
  }

  /** However the list is read as a sentence. */
  ghost predicate HoldsSentence(ps: map<string, Param>, tokens: seq<Token>, ts: seq<Tok>) {
    forall t | Grammar.Good(t) && Grammar.Flat(t) == Significant(ts) :: HoldsPairs(ps, t, tokens, ts)
  }

  lemma {:induction false} LaterStays(rs: seq<Record>, tokens: seq<Token>, ts: seq<Tok>, k: nat)
    requires k < |rs| && forall i | 0 <= i < |rs| :: rs[i].order == i
    ensures var ps := ParamsOf(rs, tokens, ts); rs[k].name in ps && k <= ps[rs[k].name].order
    decreases |rs|
  {
    if k < |rs| - 1 {
      LaterStays(rs[..|rs| - 1], tokens, ts, k);
    }
  }

  lemma RecordIsPair(r: Record, t: Grammar.Tree, tokens: seq<Token>, ts: seq<Tok>)
    requires |tokens| == |ts| && GoodRecord(ts, r) && r.order < |t.pairs| && Records.IsPair(ts, r, t.pairs[r.order])
    ensures IsPair(ParamOf(r, tokens, ts), r.name, t, tokens, ts)
  {
    RecordIsSlice(r, tokens, ts);
    assert SliceOf(ParamOf(r, tokens, ts).tokens, tokens, Lo(r), Hi(r));
  }

  lemma ParamsArePairs(c: Config, tokens: seq<Token>, ts: seq<Tok>, t: Grammar.Tree)
    requires |tokens| == |ts| && c.control == Control(Start, 0) && c.records == []
    requires Grammar.Good(t) && Grammar.Flat(t) == Significant(ts)
    ensures HoldsPairs(ParamsOf(Run(c, ts).records, tokens, ts), t, tokens, ts)
  {
    var rs := Run(c, ts).records;
    var ps := ParamsOf(rs, tokens, ts);
    RecordsAreSlices(c, ts);
    Records.RecordsArePairs(c, ts, t);
    forall k | 0 <= k < |t.pairs| ensures t.pairs[k].name.str in ps && k <= ps[t.pairs[k].name.str].order {
      LaterStays(rs, tokens, ts, k);
      assert Records.IsPair(ts, rs[k], t.pairs[k]);
    }
    forall n | n in ps ensures IsPair(ps[n], n, t, tokens, ts) {
      ParamIsRecord(rs, tokens, ts, n);
      RecordIsPair(rs[ps[n].order], t, tokens, ts);
    }
  }

  lemma SentenceHeld(c: Config, tokens: seq<Token>, ts: seq<Tok>, ps: map<string, Param>)
    requires |tokens| == |ts| && c.control == Control(Start, 0) && c.records == []
    requires ps == ParamsOf(Run(c, ts).records, tokens, ts)
    ensures HoldsSentence(ps, tokens, ts)
  {
    forall t | Grammar.Good(t) && Grammar.Flat(t) == Significant(ts) ensures HoldsPairs(ps, t, tokens, ts) {
      ParamsArePairs(c, tokens, ts, t);
    }
  }

  /** However the list is read as a sentence, its name, clock and quantizations are kept. */
  ghost predicate HoldsHeader(ts: seq<Tok>, before: Config, name: Option<string>, clockName: Option<string>,
                              clockQuant: Option<string>, quant: Option<string>) {
    forall t | Grammar.Good(t) && Grammar.Flat(t) == Significant(ts) ::
      Header.IsHeader(t, Header.FactsOf(before), name, clockName, clockQuant, quant)
  }

  lemma HeaderHeld(c: Config, ts: seq<Tok>, end: Config)
    requires c.control == Control(Start, 0) && end == Run(c, ts)
    ensures HoldsHeader(ts, c, end.name, end.clockName, end.clockQuant, end.quant)
  {
    forall t | Grammar.Good(t) && Grammar.Flat(t) == Significant(ts)
      ensures Header.IsHeader(t, Header.FactsOf(c), end.name, end.clockName, end.clockQuant, end.quant)
    {
      Header.HeaderIsRead(c, ts, t);
    }
  }

  lemma ConcatReplaced(ts: seq<Tok>, k: nat, text: string)
    requires k < |ts|
    ensures Concat(ts[k := ts[k].(str := text)]) == Concat(ts[..k]) + text + Concat(ts[k + 1..])
  {
    var t := ts[k].(str := text);
    assert ts[k := t] == (ts[..k] + [t]) + ts[k + 1..];
    ConcatMore(ts[..k], t);
    ConcatConcat(ts[..k] + [t], ts[k + 1..]);
  }

  lemma PieceReplaced(ts: seq<Tok>, k: nat, text: string)
    requires k < |ts|
    ensures Concat(ts) == Concat(ts[..k]) + ts[k].str + Concat(ts[k + 1..])
    ensures Concat(ts[k := ts[k].(str := text)]) == Concat(ts[..k]) + text + Concat(ts[k + 1..])
  {
    ConcatReplaced(ts, k, ts[k].str);
    assert ts[k := ts[k].(str := ts[k].str)] == ts;
    ConcatReplaced(ts, k, text);
  }

  lemma ConcatMore(ts: seq<Tok>, t: Tok)
    ensures Concat(ts + [t]) == Concat(ts) + t.str
  {
    assert (ts + [t])[..|ts|] == ts;
  }

  lemma ParamsMore(rs: seq<Record>, r: Record, tokens: seq<Token>, ts: seq<Tok>)
    ensures ParamsOf(rs + [r], tokens, ts) == ParamsOf(rs, tokens, ts)[r.name := ParamOf(r, tokens, ts)]
  {
    assert (rs + [r])[..|rs|] == rs;
  }

  lemma SourceNext(before: string, ts: seq<Tok>, i: nat)
    requires i < |ts|
    ensures (before + Concat(ts[..i])) + ts[i].str == before + Concat(ts[..i + 1])
  {
    assert ts[..i + 1][..i] == ts[..i];
    assert before + (Concat(ts[..i]) + ts[i].str) == (before + Concat(ts[..i])) + ts[i].str;
  }

  /** The fields the parser fills and its locals besides state and nesting. */
  datatype Memory = Memory(name: Option<string>, params: map<string, Param>, clockName: Option<string>,
    clockQuant: Option<string>, quant: Option<string>,
    parameterName: string, valueTokens: seq<Token>, valueString: string, order: nat)

  function MemoryOf(c: Config, tokens: seq<Token>, ts: seq<Tok>): Memory {
    Memory(c.name, ParamsOf(c.records, tokens, ts), c.clockName, c.clockQuant, c.quant,
      c.parameterName, Pick(tokens, c.value), Concat(Pick(ts, c.value)), |c.records|)
  }

  datatype VoiceView = VoiceView(tokens: seq<Token>, source: string, params: map<string, Param>)

  /** What a voice that was made from tokens `ts` holds. */
  ghost predicate Parsed(v: VoiceView, ts: seq<Tok>) {
    && |v.tokens| == |ts| && v.source == Concat(ts)
    && ParamsInOrder(v.params, v.tokens, ts) && HoldsSentence(v.params, v.tokens, ts)
  }

  predicate AllDistinct(tokens: seq<Token>) {
    forall i | 0 <= i < |tokens| :: Apart(tokens, i)
  }

  predicate Apart(tokens: seq<Token>, i: nat)
    requires i < |tokens|
  {
    forall j | 0 <= j < i :: tokens[j] != tokens[i]
  }

  lemma OthersDiffer(tokens: seq<Token>, k: nat)
    requires AllDistinct(tokens) && k < |tokens|
    ensures forall j | 0 <= j < |tokens| && j != k :: tokens[j] != tokens[k]
  {
    assert Apart(tokens, k);
    forall j | k < j < |tokens| ensures tokens[j] != tokens[k] {
      assert Apart(tokens, j);
    }
  }

  /** The voice's token objects are distinct, and each parameter's are some of them. */
  ghost predicate Shared(v: VoiceView) {
    AllDistinct(v.tokens) && forall n | n in v.params :: PartOf(v.params[n].tokens, v.tokens)
  }

  lemma ParsedIsShared(v: VoiceView, ts: seq<Tok>)
    requires Parsed(v, ts) && AllDistinct(v.tokens)
    ensures Shared(v)
  {
    var at :| Ascending(at) && forall n | n in v.params :: Laid(v.params[n], n, v.tokens, ts, at);
    forall n | n in v.params ensures PartOf(v.params[n].tokens, v.tokens) {
      assert Laid(v.params[n], n, v.tokens, ts, at);
    }
  }

  class SCLOrkPDVoice {
    var name: Option<string>
    var params: map<string, Param>
    var source: string
    var clockName: Option<string>
    var clockQuant: Option<string>
    var quant: Option<string>
    var tokens: seq<Token>

    constructor ()
      ensures source == "" && params == map[] && tokens == []
      ensures Initial() == Begin(None, None, None, None)
    {
      name, params, source, clockName, clockQuant, quant, tokens := None, map[], "", None, None, None, [];
    }

    static method NewFromTokens(tokenList: seq<Token>) returns (voice: Option<SCLOrkPDVoice>)
      ensures voice.Some? <==> Grammar.Readable(Views(tokenList))
      ensures voice.Some? ==>
        fresh(voice.value) && voice.value.tokens == tokenList && Parsed(voice.value.View(), Views(tokenList))
    {
      var v := new SCLOrkPDVoice();
      var ok := v.SetFromTokens(tokenList);
      voice := if ok then Some(v) else None;
    }

    ghost function View(): VoiceView
      reads this
    {
      VoiceView(tokens, source, params)
    }

    ghost function Initial(): Config
      reads this
    {
      Begin(name, clockName, clockQuant, quant)
    }

    method RebuildString()
      modifies this`source
      ensures source == Concat(Views(tokens))
    {
      ghost var ts := Views(tokens);
      source := "";
      for i := 0 to |tokens|
        invariant source == Concat(ts[..i])
      {
        source := source + tokens[i].str;
        assert ts[..i + 1][..i] == ts[..i];
      }
      assert ts[..|tokens|] == ts == Views(tokens);
    }

    /** The big switch: the next state and nesting counter. */
    static method Switch(state: State, parenDepth: int, t: Token) returns (state': State, parenDepth': int)
      ensures Control(state', parenDepth') == Move(Control(state, parenDepth), t.View())
    {
      state', parenDepth' := Error, parenDepth;
      match state
      case Error =>
      case Start =>
        if t.kind == ClassName && t.str == PBINDEF { state' := OpenPbindef; }
      case OpenPbindef =>
        if t.kind == OpenParen && parenDepth == 0 { state', parenDepth' := GetName, 1; }
      case GetName =>
        if t.kind == Symbol { state' := NameComma; }
      case NameComma =>
        if t.kind == Comma { state' := ParameterSpace; }
        else if t.kind == CloseParen && parenDepth == 1 { state', parenDepth' := ClosePdef, 0; }
      case ParameterSpace =>
        if t.kind == Symbol { state' := ParameterNameComma; }
        else if t.kind == CloseParen && parenDepth == 1 { state', parenDepth' := ClosePdef, 0; }
      case ParameterNameComma =>
        if t.kind == Comma { state' := ParameterValue; }
      case ParameterValue =>
        if t.kind == OpenParen || t.kind == OpenBracket {
          state', parenDepth' := ParameterValueStatement, parenDepth + 1;
        } else if t.kind == Number || t.kind == StringLiteral || t.kind == Global || t.kind == ClassName ||
                  t.kind == Ratio {
          state' := ParameterValueStatement;
        }
      case ParameterValueStatement =>
        state' := ParameterValueStatement;
        if t.kind == OpenParen || t.kind == OpenBracket {
          parenDepth' := parenDepth + 1;
        } else if t.kind == CloseParen || t.kind == CloseBracket {
          parenDepth' := parenDepth - 1;
          if parenDepth' <= 0 { state' := ClosePdef; }
        } else if t.kind == Comma {
          if parenDepth == 1 { state' := ParameterSpace; }
        }
      case ClosePdef =>
        if t.kind == SemiColon { state' := Done; }
        else if t.kind == Dot { state' := Chaining; }
      case Chaining =>
        if t.kind == Identifier {
          if t.str == PLAY { state' := PlayChain; }
          else if t.str == QUANT { state' := QuantChain; }
        }
      case PlayChain =>
        if t.kind == OpenParen { state', parenDepth' := PlayClockName, parenDepth + 1; }
      case PlayClockName =>
        if t.kind == Global || t.kind == Identifier { state' := PlayClockNameComma; }
      case PlayClockNameComma =>
        if t.kind == Comma { state' := PlayQuantArg; }
        else if t.kind == CloseParen { state', parenDepth' := ClosePdef, parenDepth - 1; }
      case PlayQuantArg =>
        if t.kind == Identifier && t.str == QUANT { state' := PlayQuantColon; }
      case PlayQuantColon =>
        if t.kind == Colon { state' := PlayQuantValue; }
      case PlayQuantValue =>
        if t.kind == Number { state' := PlayClose; }
      case PlayClose =>
        if t.kind == CloseParen { state' := ClosePdef; }
      case QuantChain =>
        if t.kind == Assignment { state' := QuantValue; }
      case QuantValue =>
        if t.kind == Number { state' := ClosePdef; }
      case Done =>
    }

    /** The parser's fields and locals hold what the configuration says. */
    ghost predicate Mirrors(c: Config, ts: seq<Tok>, parameterName: string, valueTokens: seq<Token>,
        valueString: string, order: nat)
      reads this
    {
      Memory(name, params, clockName, clockQuant, quant, parameterName, valueTokens, valueString, order)
        == MemoryOf(c, tokens, ts)
    }

    /** What the branches of the switch do besides choosing the next state. */
    method SideEffects(before: State, state: State, token: Token, parameterName: string, valueTokens: seq<Token>,
                       valueString: string, order: nat, ghost c: Config, ghost parenDepth: int, ghost ts: seq<Tok>)
      returns (parameterName': string, valueTokens': seq<Token>, valueString': string, order': nat, ghost c': Config)
      requires Mirrors(c, ts, parameterName, valueTokens, valueString, order) && c.control.state == before
      modifies this`name, this`params, this`clockName, this`clockQuant, this`quant
      ensures c' == Extract(c, token.View(), Control(state, parenDepth))
      ensures Mirrors(c', ts, parameterName', valueTokens', valueString', order')
    {
      c' := Extract(c, token.View(), Control(state, parenDepth));
      parameterName', valueTokens', valueString', order' := parameterName, valueTokens, valueString, order;
      if before == GetName && state == NameComma {
        name := Some(token.str);
      } else if before == ParameterSpace && state == ParameterNameComma {
        parameterName' := token.str;
      } else if before == ParameterValue {
        valueString' := "";
        valueTokens' := [];
      } else if before == ParameterValueStatement && state != ParameterValueStatement {
        ParamsMore(c.records, Record(parameterName, c.value, order), tokens, ts);
        params := params[parameterName := Param(valueTokens, valueString, order)];
        order' := order + 1;
      } else if before == PlayClockName && state == PlayClockNameComma {
        clockName := Some(token.str);
      } else if before == PlayQuantValue && state == PlayClose {
        clockQuant := Some(token.str);
      } else if before == QuantValue && state == ClosePdef {
        quant := Some(token.str);
      }
    }

    /** One token through the switch. */
    method TakeSignificant(state: State, parenDepth: int, token: Token, parameterName: string, valueTokens: seq<Token>,
                           valueString: string, order: nat, ghost c: Config, ghost t: Tok, ghost ts: seq<Tok>)
      returns (state': State, parenDepth': int, parameterName': string, valueTokens': seq<Token>,
               valueString': string, order': nat, ghost c': Config)
      requires Mirrors(c, ts, parameterName, valueTokens, valueString, order)
      requires t == token.View() && c.control == Control(state, parenDepth)
      modifies this`name, this`params, this`clockName, this`clockQuant, this`quant
      ensures c' == Extract(c, t, Move(c.control, t)) && c'.control == Control(state', parenDepth')
      ensures Mirrors(c', ts, parameterName', valueTokens', valueString', order')
    {
      state', parenDepth' := Switch(state, parenDepth, token);
      parameterName', valueTokens', valueString', order', c' :=
        SideEffects(state, state', token, parameterName, valueTokens, valueString, order, c, parenDepth', ts);
    }

    /** The body of the loop after the string has grown: one token through the switch and into the open value. */
    method TakeToken(i: nat, state: State, parenDepth: int, parameterName: string, valueTokens: seq<Token>,
                     valueString: string, order: nat, ghost c: Config, ghost ts: seq<Tok>)
      returns (state': State, parenDepth': int, parameterName': string, valueTokens': seq<Token>,
               valueString': string, order': nat, ghost c': Config)
      requires Mirrors(c, ts, parameterName, valueTokens, valueString, order)
      requires i < |tokens| == |ts| && ts[i] == tokens[i].View() && c.control == Control(state, parenDepth)
      modifies this`name, this`params, this`clockName, this`clockQuant, this`quant
      ensures c' == Step(c, ts[i], i) && c'.control == Control(state', parenDepth')
      ensures Mirrors(c', ts, parameterName', valueTokens', valueString', order')
    {
      state', parenDepth', parameterName', valueTokens', valueString', order', c' :=
        state, parenDepth, parameterName, valueTokens, valueString, order, c;
      var token := tokens[i];
      if token.kind != Whitespace && token.kind != LineComment && token.kind != BlockComment {
        state', parenDepth', parameterName', valueTokens', valueString', order', c' :=
          TakeSignificant(state, parenDepth, token, parameterName, valueTokens, valueString, order, c, ts[i], ts);
      }
      valueString', valueTokens', c' :=
        Append(i, state', token, parameterName', valueTokens', valueString', order', c', ts);
    }

    /** Appended after the switch, so that whitespace is picked up. */
    method Append(ghost i: nat, state: State, token: Token, ghost parameterName: string, valueTokens: seq<Token>,
                  valueString: string, ghost order: nat, ghost c: Config, ghost ts: seq<Tok>)
      returns (valueString': string, valueTokens': seq<Token>, ghost c': Config)
      requires Mirrors(c, ts, parameterName, valueTokens, valueString, order) && c.control.state == state
      requires i < |tokens| == |ts| && tokens[i] == token && ts[i] == token.View()
      ensures c' == Collect(c, i) && Mirrors(c', ts, parameterName, valueTokens', valueString', order)
    {
      valueString', valueTokens', c' := valueString, valueTokens, Collect(c, i);
      if state == ParameterValueStatement {
        PickMore(tokens, c.value, i);
        PickMore(ts, c.value, i);
        ConcatMore(Pick(ts, c.value), ts[i]);
        valueString' := valueString' + token.str;
        valueTokens' := valueTokens' + [token];
      }
    }

    method SetFromTokens(tokenList: seq<Token>) returns (ok: bool)
      modifies this
      ensures tokens == tokenList && source == old(source) + Concat(Views(tokenList))
      ensures var end := Run(old(Initial()), Views(tokenList));
        && ok == Accepting(end.control)
        && name == end.name && clockName == end.clockName && clockQuant == end.clockQuant && quant == end.quant
        && params == ParamsOf(end.records, tokenList, Views(tokenList))
      ensures ok <==> Grammar.Readable(Views(tokenList))
      ensures ParamsInOrder(params, tokenList, Views(tokenList)) && HoldsSentence(params, tokenList, Views(tokenList))
      ensures HoldsHeader(Views(tokenList), old(Initial()), name, clockName, clockQuant, quant)
    {
      ghost var start, ts, c := Initial(), Views(tokenList), Initial();
      var state, parenDepth := Start, 0;
      var parameterName, valueTokens, valueString, order: nat := "", [], "", 0;
      params := map[];
      tokens := tokenList;
      for i := 0 to |tokens|
        invariant tokens == tokenList && |tokenList| == |ts| && Views(tokenList) == ts
        invariant source == old(source) + Concat(ts[..i])
        invariant c == Run(start, ts[..i]) && c.control == Control(state, parenDepth)
        invariant Mirrors(c, ts, parameterName, valueTokens, valueString, order)
      {
        RunNext(start, ts, i, c);
        SourceNext(old(source), ts, i);
        source := source + tokens[i].str;
        state, parenDepth, parameterName, valueTokens, valueString, order, c :=
          TakeToken(i, state, parenDepth, parameterName, valueTokens, valueString, order, c, ts);
      }
      assert ts[..|tokens|] == ts;
      ok := state == Done || state == ClosePdef;
      Grammar.AcceptsExactlyTrees(start, ts);
      RecordsAreSlices(start, ts);
      RecordsInOrder(c.records, tokens, ts, params);
      SentenceHeld(start, tokens, ts, params);
      HeaderHeld(start, ts, c);
    }

    // ---- Editing ----

    predicate HasValueToken(parameter: string, index: nat)
      reads this
    {
      parameter in params && index < |params[parameter].tokens|
    }

    function ValueToken(parameter: string, index: nat): Token
      requires HasValueToken(parameter, index)
      reads this
    {
      params[parameter].tokens[index]
    }

    /** What the parameter view's text field does: one of the parameter's own tokens gets a new string. */
    method EditValue(parameter: string, index: nat, text: string) returns (ghost k: nat)
      requires Shared(View()) && HasValueToken(parameter, index)
      modifies ValueToken(parameter, index)`str
      ensures k < |tokens| && tokens[k] == ValueToken(parameter, index) && tokens[k].str == text
      ensures Views(tokens) == old(Views(tokens))[k := old(Views(tokens))[k].(str := text)]
    {
      var token := ValueToken(parameter, index);
      ghost var lo: nat, hi: nat :| SliceOf(params[parameter].tokens, tokens, lo, hi);
      k := lo + index;
      OthersDiffer(tokens, k);
      token.str := text;
    }

    /** An edit, then the source rebuilt: it is the old one with only that piece replaced. */
    method EditAndRebuild(parameter: string, index: nat, text: string) returns (ghost k: nat)
      requires Shared(View()) && HasValueToken(parameter, index) && source == Concat(Views(tokens))
      modifies this`source, ValueToken(parameter, index)`str
      ensures k < |tokens| && tokens[k] == ValueToken(parameter, index) && tokens[k].str == text
      ensures Views(tokens) == old(Views(tokens))[k := old(Views(tokens))[k].(str := text)]
      ensures var ts := old(Views(tokens));
        && old(source) == Concat(ts[..k]) + ts[k].str + Concat(ts[k + 1..])
        && source == Concat(ts[..k]) + text + Concat(ts[k + 1..])
      ensures source == Concat(Views(tokens)) && Shared(View())
    {
      ghost var ts := Views(tokens);
      k := EditValue(parameter, index, text);
      RebuildString();
      PieceReplaced(ts, k, text);
    }
  }
}

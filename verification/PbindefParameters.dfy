/** Which tokens the state machine records as the value of which parameter. */
module PbindefParameters {
  import opened Tokens
  import opened Pbindef

  function Range(lo: nat, hi: nat): (r: seq<nat>)
    requires lo <= hi
    ensures |r| == hi - lo && forall i | 0 <= i < |r| :: r[i] == lo + i
  {
    seq(hi - lo, i requires 0 <= i => lo + i)
  }

  /** The elements at the given indices; those past the end are passed over. */
  function Pick<T>(ts: seq<T>, indices: seq<nat>): seq<T> {
    if indices == [] then [] else
      var last := indices[|indices| - 1];
      Pick(ts, indices[..|indices| - 1]) + if last < |ts| then [ts[last]] else []
  }

  /** What a value's indices pick is the slice they range over. */
  lemma {:induction false} PickRange<T>(ts: seq<T>, lo: nat, hi: nat)
    requires lo <= hi <= |ts|
    ensures Pick(ts, Range(lo, hi)) == ts[lo..hi]
  {
    if lo < hi {
      assert Range(lo, hi)[..hi - lo - 1] == Range(lo, hi - 1);
      PickRange(ts, lo, hi - 1);
    }
  }

  lemma PickMore<T>(ts: seq<T>, indices: seq<nat>, i: nat)
    requires i < |ts|
    ensures Pick(ts, indices + [i]) == Pick(ts, indices) + [ts[i]]
  {
    assert (indices + [i])[..|indices|] == indices;
  }

  function Weight(t: Tok): int {
    if t.Opens() then 1 else if t.Closes() then -1 else 0
  }

  /** Openings minus closings. */
  function Net(ts: seq<Tok>): int {
    if ts == [] then 0 else Net(ts[..|ts| - 1]) + Weight(ts[|ts| - 1])
  }

  /** No prefix closes more than it opened, and every comma is inside what is open. */
  ghost predicate Enclosed(ts: seq<Tok>) {
    && (forall i | 0 <= i <= |ts| :: Net(ts[..i]) >= 0)
    && forall i | 0 <= i < |ts| && ts[i].kind == Comma :: Net(ts[..i]) > 0
  }

  ghost predicate Balanced(ts: seq<Tok>) {
    Enclosed(ts) && Net(ts) == 0
  }

  /** Token `p` is a symbol of that name, and between it and `lo` there is nothing but one comma. */
  predicate NamedAt(ts: seq<Tok>, p: nat, lo: nat, name: string) {
    && p < lo <= |ts| && ts[p].kind == Symbol && ts[p].str == name
    && var s := Significant(ts[p + 1..lo]); |s| == 1 && s[0].kind == Comma
  }

  ghost predicate Named(ts: seq<Tok>, lo: nat, name: string) {
    exists p: nat :: NamedAt(ts, p, lo, name)
  }

  function Lo(r: Record): nat
    requires r.value != []
  {
    r.value[0]
  }

  function Hi(r: Record): nat
    requires r.value != []
  {
    r.value[|r.value| - 1] + 1
  }

  /** The value is one slice of the list, properly nested, directly after its name and a comma. */
  ghost predicate GoodRecord(ts: seq<Tok>, r: Record) {
    && r.value != [] && Lo(r) < Hi(r) <= |ts| && r.value == Range(Lo(r), Hi(r))
    && BeginsValue(ts[Lo(r)]) && Balanced(ts[Lo(r)..Hi(r)])
    && Named(ts, Lo(r), r.name)
  }

  ghost predicate GoodRecords(ts: seq<Tok>, rs: seq<Record>) {
    && (forall i | 0 <= i < |rs| :: GoodRecord(ts, rs[i]) && rs[i].order == i)
    && forall i, j | 0 <= i < j < |rs| :: Hi(rs[i]) < Lo(rs[j])
  }

  /** Where the last recorded value ended. */
  function LastEnd(rs: seq<Record>): nat {
    if rs == [] || rs[|rs| - 1].value == [] then 0 else Hi(rs[|rs| - 1])
  }

  // ---- The machine keeps this ----

  ghost predicate InsideValue(c: Config, ts: seq<Tok>, lo: nat) {
    && lo < |ts| && (c.records != [] ==> LastEnd(c.records) < lo)
    && c.value == Range(lo, |ts|) && BeginsValue(ts[lo])
    && Enclosed(ts[lo..]) && c.control.parenDepth == 1 + Net(ts[lo..])
    && Named(ts, lo, c.parameterName)
  }

  /** A name has been read at `p`, and after it `commas` commas. */
  ghost predicate AfterName(c: Config, ts: seq<Tok>, p: nat, commas: nat) {
    && p < |ts| && LastEnd(c.records) <= p && ts[p].kind == Symbol && ts[p].str == c.parameterName
    && var s := Significant(ts[p + 1..]); |s| == commas && forall i | 0 <= i < commas :: s[i].kind == Comma
  }

  ghost predicate Inv(c: Config, ts: seq<Tok>) {
    && GoodRecords(ts, c.records) && LastEnd(c.records) <= |ts|
    && match c.control.state
       case GetName => c.control.parenDepth == 1
       case NameComma => c.control.parenDepth == 1
       case ParameterSpace => c.control.parenDepth == 1
       case ParameterNameComma => c.control.parenDepth == 1 && exists p: nat :: AfterName(c, ts, p, 0)
       case ParameterValue => c.control.parenDepth == 1 && exists p: nat :: AfterName(c, ts, p, 1)
       case ParameterValueStatement => exists lo: nat :: InsideValue(c, ts, lo)
       case _ => true
  }

  lemma NamedStays(ts: seq<Tok>, t: Tok, lo: nat, name: string)
    requires Named(ts, lo, name)
    ensures Named(ts + [t], lo, name)
  {
    var p: nat :| NamedAt(ts, p, lo, name);
    assert (ts + [t])[p + 1..lo] == ts[p + 1..lo];
    assert NamedAt(ts + [t], p, lo, name);
  }

  lemma RangeMore(lo: nat, hi: nat)
    requires lo <= hi
    ensures Range(lo, hi) + [hi] == Range(lo, hi + 1)
  {}

  lemma RecordStays(ts: seq<Tok>, t: Tok, r: Record)
    requires GoodRecord(ts, r)
    ensures GoodRecord(ts + [t], r)
  {
    NamedStays(ts, t, Lo(r), r.name);
    assert (ts + [t])[Lo(r)..Hi(r)] == ts[Lo(r)..Hi(r)];
  }

  lemma RecordsStay(ts: seq<Tok>, t: Tok, rs: seq<Record>)
    requires GoodRecords(ts, rs)
    ensures GoodRecords(ts + [t], rs)
  {
    forall i | 0 <= i < |rs| ensures GoodRecord(ts + [t], rs[i]) { RecordStays(ts, t, rs[i]); }
  }

  /** One more token inside a value. */
  lemma EnclosedMore(ts: seq<Tok>, t: Tok)
    requires Enclosed(ts) && Net(ts) + Weight(t) >= 0 && (t.kind == Comma ==> Net(ts) > 0)
    ensures Enclosed(ts + [t]) && Net(ts + [t]) == Net(ts) + Weight(t)
  {
    var us := ts + [t];
    assert us[..|us| - 1] == ts;
    forall i | 0 <= i <= |us| ensures Net(us[..i]) >= 0 {
      if i <= |ts| { assert us[..i] == ts[..i]; } else { assert us[..i] == us; }
    }
    forall i | 0 <= i < |us| && us[i].kind == Comma ensures Net(us[..i]) > 0 {
      assert us[..i] == ts[..i];
      assert i == |ts| ==> ts[..i] == ts;
    }
  }

  lemma ContinueValue(c: Config, c': Config, ts: seq<Tok>, t: Tok, lo: nat)
    requires InsideValue(c, ts, lo)
    requires c'.records == c.records && c'.parameterName == c.parameterName && c'.value == c.value + [|ts|]
    requires c'.control.parenDepth == c.control.parenDepth + Weight(t) >= 1
    requires t.kind == Comma ==> c.control.parenDepth > 1
    ensures InsideValue(c', ts + [t], lo)
  {
    NamedStays(ts, t, lo, c.parameterName);
    RangeMore(lo, |ts|);
    assert (ts + [t])[lo..] == ts[lo..] + [t];
    EnclosedMore(ts[lo..], t);
  }

  lemma AtTheEnd<T>(s: seq<T>, x: T, p: nat)
    requires p <= |s|
    ensures (s + [x])[|s|..] == [x] && (s + [x])[p..|s|] == s[p..]
  {}

  lemma EnclosedOne(t: Tok)
    requires BeginsValue(t)
    ensures Enclosed([t]) && Net([t]) == Weight(t)
  {
    var none: seq<Tok> := [];
    assert [t] == none + [t] && none[..0] == none;
    EnclosedMore(none, t);
  }

  lemma BeginValue(c: Config, c': Config, ts: seq<Tok>, t: Tok, p: nat)
    requires AfterName(c, ts, p, 1) && BeginsValue(t)
    requires c'.records == c.records && c'.parameterName == c.parameterName && c'.value == [|ts|]
    requires c'.control.parenDepth == 1 + Weight(t)
    ensures InsideValue(c', ts + [t], |ts|)
  {
    var us := ts + [t];
    AtTheEnd(ts, t, p + 1);
    NameIsRead(c, ts, t, p, us);
    ValueBegun(c', us, t, |ts|);
  }

  lemma ValueBegun(c: Config, us: seq<Tok>, t: Tok, lo: nat)
    requires |us| == lo + 1 && us[lo] == t && us[lo..] == [t] && BeginsValue(t)
    requires c.value == [lo] && c.control.parenDepth == 1 + Weight(t) && (c.records != [] ==> LastEnd(c.records) < lo)
    requires Named(us, lo, c.parameterName)
    ensures InsideValue(c, us, lo)
  {
    EnclosedOne(t);
    assert c.value == Range(lo, |us|);
  }

  lemma NameIsRead(c: Config, ts: seq<Tok>, t: Tok, p: nat, us: seq<Tok>)
    requires AfterName(c, ts, p, 1) && us == ts + [t] && us[p + 1..|ts|] == ts[p + 1..]
    ensures Named(us, |ts|, c.parameterName)
  {
    assert NamedAt(us, p, |ts|, c.parameterName);
  }

  lemma EndValue(c: Config, ts: seq<Tok>, lo: nat)
    requires GoodRecords(ts, c.records) && InsideValue(c, ts, lo) && c.control.parenDepth == 1
    ensures var rs := c.records + [Record(c.parameterName, c.value, |c.records|)];
      GoodRecords(ts, rs) && LastEnd(rs) == |ts|
  {
    var r := Record(c.parameterName, c.value, |c.records|);
    ValueIsSlice(c, ts, lo, r);
    RecordsMore(ts, c.records, r);
  }

  lemma LastIsLargest(ts: seq<Tok>, rs: seq<Record>, i: nat)
    requires GoodRecords(ts, rs) && i < |rs|
    ensures rs[i].value != [] && Hi(rs[i]) <= LastEnd(rs)
  {
    assert GoodRecord(ts, rs[i]) && GoodRecord(ts, rs[|rs| - 1]);
    assert i < |rs| - 1 ==> Hi(rs[i]) < Lo(rs[|rs| - 1]);
  }

  lemma RecordsMore(ts: seq<Tok>, rs: seq<Record>, r: Record)
    requires GoodRecords(ts, rs) && GoodRecord(ts, r) && r.order == |rs|
    requires rs != [] ==> LastEnd(rs) < Lo(r)
    ensures GoodRecords(ts, rs + [r]) && LastEnd(rs + [r]) == Hi(r)
  {
    forall i | 0 <= i < |rs| ensures Hi(rs[i]) < Lo(r) {
      LastIsLargest(ts, rs, i);
    }
  }

  lemma ValueIsSlice(c: Config, ts: seq<Tok>, lo: nat, r: Record)
    requires InsideValue(c, ts, lo) && c.control.parenDepth == 1 && r.value == c.value && r.name == c.parameterName
    ensures GoodRecord(ts, r) && Lo(r) == lo && Hi(r) == |ts|
  {
    assert ts[lo..|ts|] == ts[lo..];
  }

  /** The three things a token does inside a value. */
  lemma StatementStep(c: Config, t: Tok, i: nat)
    requires c.control.state == ParameterValueStatement && c.control.parenDepth >= 1
    ensures var c', d := Step(c, t, i), c.control.parenDepth;
      if !t.Ignored() && d == 1 && (t.Closes() || t.kind == Comma) then
        && c'.records == c.records + [Record(c.parameterName, c.value, |c.records|)]
        && (c'.control == Control(ClosePdef, 0) || c'.control == Control(ParameterSpace, 1))
      else
        && c'.control == Control(ParameterValueStatement, d + Weight(t)) && d + Weight(t) >= 1
        && c'.records == c.records && c'.parameterName == c.parameterName && c'.value == c.value + [i]
  {}

  /** What the other states lead to, as far as parameters are concerned. */
  lemma OtherStep(c: Config, t: Tok, i: nat)
    requires c.control.state != ParameterValueStatement
    ensures var c', s, s' := Step(c, t, i), c.control.state, Step(c, t, i).control.state;
      && c'.records == c.records
      && (s' == NameComma ==> s == GetName || c'.control == c.control)
      && (s' == ParameterSpace ==> s == NameComma || c'.control == c.control)
      && (s' == ParameterNameComma ==>
            (s == ParameterSpace && t.kind == Symbol && c'.parameterName == t.str
              && c'.control.parenDepth == c.control.parenDepth)
            || (t.Ignored() && c' == c))
      && (s' == ParameterValue ==>
            (s == ParameterNameComma && t.kind == Comma && c'.parameterName == c.parameterName
              && c'.control.parenDepth == c.control.parenDepth)
            || (t.Ignored() && c' == c))
      && (s' == ParameterValueStatement ==>
            s == ParameterValue && BeginsValue(t) && c'.parameterName == c.parameterName && c'.value == [i]
            && c'.control.parenDepth == c.control.parenDepth + Weight(t))
      && (s == GetName && s' == NameComma ==> c'.control.parenDepth == c.control.parenDepth)
      && (s == NameComma && s' == ParameterSpace ==> c'.control.parenDepth == c.control.parenDepth)
      && (s' == GetName ==> c'.control.parenDepth == 1 || c'.control == c.control)
  {}

  lemma NameGoesOn(c: Config, c': Config, ts: seq<Tok>, t: Tok, p: nat, commas: nat)
    requires AfterName(c, ts, p, commas)
    requires c'.records == c.records && c'.parameterName == c.parameterName
    ensures t.Ignored() ==> AfterName(c', ts + [t], p, commas)
    ensures t.kind == Comma ==> AfterName(c', ts + [t], p, commas + 1)
  {
    assert (ts + [t])[p + 1..] == ts[p + 1..] + [t];
    SignificantOne(ts[p + 1..], t);
  }

  lemma NameBegins(c: Config, ts: seq<Tok>, t: Tok)
    requires t.kind == Symbol && c.parameterName == t.str && LastEnd(c.records) <= |ts|
    ensures AfterName(c, ts + [t], |ts|, 0)
  {
    assert (ts + [t])[|ts| + 1..] == [];
  }

  lemma InsideDepth(c: Config, ts: seq<Tok>, lo: nat)
    requires InsideValue(c, ts, lo)
    ensures c.control.parenDepth >= 1
  {
    assert ts[lo..][..|ts[lo..]|] == ts[lo..];
  }

  lemma InsideStep(c: Config, ts: seq<Tok>, t: Tok, c': Config, us: seq<Tok>)
    requires Inv(c, ts) && c.control.state == ParameterValueStatement && c' == Step(c, t, |ts|)
    requires us == ts + [t]
    ensures Inv(c', us)
  {
    var lo: nat :| InsideValue(c, ts, lo);
    InsideDepth(c, ts, lo);
    StatementStep(c, t, |ts|);
    RecordsStay(ts, t, c.records);
    if c'.control.state == ParameterValueStatement {
      ContinueValue(c, c', ts, t, lo);
    } else {
      EndValue(c, ts, lo);
      RecordsStay(ts, t, c'.records);
    }
  }

  lemma OutsideStep(c: Config, ts: seq<Tok>, t: Tok, c': Config, us: seq<Tok>)
    requires Inv(c, ts) && c.control.state != ParameterValueStatement && c' == Step(c, t, |ts|)
    requires us == ts + [t]
    ensures Inv(c', us)
  {
    OtherStep(c, t, |ts|);
    RecordsStay(ts, t, c.records);
    match c'.control.state
    case ParameterNameComma =>
      if t.Ignored() {
        var p: nat :| AfterName(c, ts, p, 0);
        NameGoesOn(c, c', ts, t, p, 0);
      } else {
        NameBegins(c', ts, t);
      }
    case ParameterValue =>
      var commas := if t.Ignored() then 1 else 0;
      var p: nat :| AfterName(c, ts, p, commas);
      NameGoesOn(c, c', ts, t, p, commas);
    case ParameterValueStatement =>
      var p: nat :| AfterName(c, ts, p, 1);
      BeginValue(c, c', ts, t, p);
    case _ =>
  }

  lemma NextInv(c: Config, ts: seq<Tok>, t: Tok, c': Config, us: seq<Tok>)
    requires Inv(c, ts) && us == ts + [t] && c' == Step(c, t, |ts|)
    ensures Inv(c', us)
  {
    if c.control.state == ParameterValueStatement {
      InsideStep(c, ts, t, c', us);
    } else {
      OutsideStep(c, ts, t, c', us);
    }
  }

  lemma StartInv(c: Config)
    requires c.control == Control(Start, 0) && c.records == []
    ensures Inv(c, [])
  {}

  lemma RunNext(c: Config, ts: seq<Tok>, i: nat, b: Config)
    requires i < |ts| && b == Run(c, ts[..i])
    ensures Run(c, ts[..i + 1]) == Step(b, ts[i], i)
  {
    assert ts[..i + 1][..i] == ts[..i];
  }

  lemma {:induction false} RunInv(c: Config, ts: seq<Tok>, i: nat) returns (e: Config)
    requires i <= |ts| && c.control == Control(Start, 0) && c.records == []
    ensures e == Run(c, ts[..i]) && Inv(e, ts[..i])
  {
    if i == 0 {
      e := c;
      StartInv(c);
    } else {
      var b := RunInv(c, ts, i - 1);
      e := Step(b, ts[i - 1], i - 1);
      RunNext(c, ts, i - 1, b);
      assert ts[..i] == ts[..i - 1] + [ts[i - 1]];
      NextInv(b, ts[..i - 1], ts[i - 1], e, ts[..i]);
    }
  }

  /**
   * Parameter extraction: every recorded value is one contiguous slice of the token list, begins as
   * a value must, is balanced, has no comma at its outer level and follows its own name and one
   * comma; the slices are disjoint and in source order, numbered 0, 1, 2, ...
   */
  lemma RecordsAreSlices(c: Config, ts: seq<Tok>)
    requires c.control == Control(Start, 0) && c.records == []
    ensures GoodRecords(ts, Run(c, ts).records)
  {
    var e := RunInv(c, ts, |ts|);
    assert ts[..|ts|] == ts;
  }
}

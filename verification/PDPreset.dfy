/** A preset file: tokenized, then cut into the Pbindef statements that become voices. */
module PDPreset {
  import opened Options
  import opened Tokens
  import opened Lexer
  import opened Pbindef
  import opened PDVoice
  import Grammar = PbindefGrammar

  // ---- Where the voices are ----

  /** A piece of the token list. */
  datatype Cut = Cut(from: nat, upto: nat)

  predicate OpensVoice(t: Tok) {
    t.Is(ClassName, PBINDEF)
  }

  predicate NoOpening(ts: seq<Tok>, a: nat, b: nat) {
    forall k | a <= k < b <= |ts| :: !OpensVoice(ts[k])
  }

  predicate NoSemiColon(ts: seq<Tok>, a: nat, b: nat) {
    forall k | a <= k < b <= |ts| :: ts[k].kind != SemiColon
  }

  /** From `from` on, the first voice opens at `a` and its first semicolon is the token before `b`. */
  predicate NextCut(ts: seq<Tok>, from: nat, a: nat, b: nat) {
    && from <= a < b <= |ts| && NoOpening(ts, from, a) && OpensVoice(ts[a])
    && NoSemiColon(ts, a, b - 1) && ts[b - 1].kind == SemiColon
  }

  function Start(cuts: seq<Cut>, k: nat): nat
    requires k <= |cuts|
  {
    if k == 0 then 0 else cuts[k - 1].upto
  }

  function End(cuts: seq<Cut>): nat {
    Start(cuts, |cuts|)
  }

  predicate CutAt(ts: seq<Tok>, cuts: seq<Cut>, k: nat)
    requires k < |cuts|
  {
    NextCut(ts, Start(cuts, k), cuts[k].from, cuts[k].upto)
  }

  predicate Cuts(ts: seq<Tok>, cuts: seq<Cut>) {
    forall k | 0 <= k < |cuts| :: CutAt(ts, cuts, k)
  }

  /** The whole list is cut, and every piece is a sentence; what makes a sentence does not matter here. */
  ghost predicate Playable(sentence: seq<Tok> -> bool, ts: seq<Tok>, cuts: seq<Cut>) {
    Cuts(ts, cuts) && NoOpening(ts, End(cuts), |ts|) && AllSentences(sentence, ts, cuts)
  }

  ghost predicate AllSentences(sentence: seq<Tok> -> bool, ts: seq<Tok>, cuts: seq<Cut>) {
    forall k | 0 <= k < |cuts| :: SentenceAt(sentence, ts, cuts[k])
  }

  ghost predicate Unplayable(sentence: seq<Tok> -> bool, ts: seq<Tok>) {
    forall cuts :: !Playable(sentence, ts, cuts)
  }

  ghost predicate SentenceAt(sentence: seq<Tok> -> bool, ts: seq<Tok>, cut: Cut) {
    cut.from <= cut.upto <= |ts| && sentence(ts[cut.from..cut.upto])
  }

  /** The first voice after the given cuts opens at `a`. */
  predicate OpenAt(ts: seq<Tok>, cuts: seq<Cut>, a: nat) {
    Cuts(ts, cuts) && End(cuts) <= a < |ts| && NoOpening(ts, End(cuts), a) && OpensVoice(ts[a])
  }

  lemma NextCutUnique(ts: seq<Tok>, from: nat, a: nat, b: nat, c: nat, d: nat)
    requires NextCut(ts, from, a, b) && from <= c < |ts| && NoOpening(ts, from, c) && OpensVoice(ts[c])
    ensures a == c
    ensures NextCut(ts, from, c, d) ==> b == d
  {}

  lemma {:induction false} CutsAgree(ts: seq<Tok>, c: seq<Cut>, d: seq<Cut>, k: nat)
    requires Cuts(ts, c) && Cuts(ts, d) && k < |c| && k < |d|
    ensures c[k] == d[k] && Start(c, k) == Start(d, k)
  {
    if k > 0 {
      CutsAgree(ts, c, d, k - 1);
    }
    assert CutAt(ts, c, k) && CutAt(ts, d, k);
    NextCutUnique(ts, Start(c, k), c[k].from, c[k].upto, d[k].from, d[k].upto);
  }

  lemma {:induction false} EndsGrow(ts: seq<Tok>, cuts: seq<Cut>, j: nat, k: nat)
    requires Cuts(ts, cuts) && j <= k <= |cuts|
    ensures Start(cuts, j) <= Start(cuts, k)
    decreases k - j
  {
    if j < k {
      EndsGrow(ts, cuts, j, k - 1);
      assert CutAt(ts, cuts, k - 1);
    }
  }

  lemma CutsMore(ts: seq<Tok>, cuts: seq<Cut>, a: nat, b: nat)
    requires Cuts(ts, cuts) && NextCut(ts, End(cuts), a, b)
    ensures Cuts(ts, cuts + [Cut(a, b)]) && End(cuts + [Cut(a, b)]) == b
  {
    var more := cuts + [Cut(a, b)];
    forall k | 0 <= k < |more| ensures CutAt(ts, more, k) {
      assert Start(more, k) == Start(cuts, k);
      assert k < |cuts| ==> CutAt(ts, cuts, k);
    }
  }

  lemma Longer(ts: seq<Tok>, cuts: seq<Cut>, a: nat, whole: seq<Cut>)
    requires Cuts(ts, whole) && Cuts(ts, cuts) && NoOpening(ts, End(whole), |ts|)
    requires End(cuts) <= a < |ts| && OpensVoice(ts[a])
    ensures |cuts| < |whole|
  {
    assert a < End(whole);
    if |whole| <= |cuts| {
      CutsAgree(ts, cuts, whole, |whole| - 1);
      EndsGrow(ts, cuts, |whole|, |cuts|);
      assert false;
    }
  }

  /** Where a voice opens after some cuts, every way to cut the whole list goes on with that voice. */
  lemma GoesOn(ts: seq<Tok>, cuts: seq<Cut>, a: nat, whole: seq<Cut>)
    requires Cuts(ts, whole) && NoOpening(ts, End(whole), |ts|) && OpenAt(ts, cuts, a)
    ensures |cuts| < |whole| && whole[|cuts|].from == a && CutAt(ts, whole, |cuts|) && Start(whole, |cuts|) == End(cuts)
  {
    Longer(ts, cuts, a, whole);
    if cuts != [] {
      CutsAgree(ts, cuts, whole, |cuts| - 1);
    }
    assert CutAt(ts, whole, |cuts|);
    NextCutUnique(ts, End(cuts), whole[|cuts|].from, whole[|cuts|].upto, a, a);
  }

  /** A list with a voice that no semicolon ends cannot be played. */
  lemma Unterminated(sentence: seq<Tok> -> bool, ts: seq<Tok>, cuts: seq<Cut>, a: nat)
    requires OpenAt(ts, cuts, a) && NoSemiColon(ts, a, |ts|)
    ensures Unplayable(sentence, ts)
  {
    forall whole: seq<Cut> ensures !Playable(sentence, ts, whole) {
      if Playable(sentence, ts, whole) {
        GoesOn(ts, cuts, a, whole);
        assert false;
      }
    }
  }

  /** Nor can one with a voice that is no sentence of the language. */
  lemma Unreadable(sentence: seq<Tok> -> bool, ts: seq<Tok>, cuts: seq<Cut>, a: nat, b: nat)
    requires OpenAt(ts, cuts, a) && NextCut(ts, End(cuts), a, b) && !SentenceAt(sentence, ts, Cut(a, b))
    ensures Unplayable(sentence, ts)
  {
    forall whole: seq<Cut> ensures !Playable(sentence, ts, whole) {
      if Playable(sentence, ts, whole) {
        GoesOn(ts, cuts, a, whole);
        NextCutUnique(ts, End(cuts), a, b, a, whole[|cuts|].upto);
        assert false;
      }
    }
  }

  ghost predicate MadeAt(v: VoiceView, tokens: seq<Token>, ts: seq<Tok>, cut: Cut) {
    && cut.from <= cut.upto <= |tokens| == |ts|
    && v.tokens == tokens[cut.from..cut.upto] && Parsed(v, ts[cut.from..cut.upto])
  }

  /** Each piece has its voice. */
  ghost predicate AllMade(voices: seq<SCLOrkPDVoice>, tokens: seq<Token>, ts: seq<Tok>, cuts: seq<Cut>)
    reads voices
  {
    |voices| == |cuts| && forall k | 0 <= k < |cuts| :: MadeAt(voices[k].View(), tokens, ts, cuts[k])
  }

  /** After `i` tokens: what was cut, and whether a voice is open since `a`. */
  ghost predicate Reading(ts: seq<Tok>, cuts: seq<Cut>, a: nat, i: nat, open: bool) {
    && i <= |ts| && Cuts(ts, cuts) && End(cuts) <= i
    && if open then a < i && OpenAt(ts, cuts, a) && NoSemiColon(ts, a, i) else NoOpening(ts, End(cuts), i)
  }

  lemma Terminated(ts: seq<Tok>, cuts: seq<Cut>, a: nat, i: nat)
    requires Reading(ts, cuts, a, i, true) && i < |ts| && ts[i].kind == SemiColon
    ensures NextCut(ts, End(cuts), a, i + 1) && OpenAt(ts, cuts, a)
    ensures Reading(ts, cuts + [Cut(a, i + 1)], a, i + 1, false)
  {
    CutsMore(ts, cuts, a, i + 1);
  }

  lemma ReadingMore(ts: seq<Tok>, cuts: seq<Cut>, a: nat, i: nat, open: bool)
    requires Reading(ts, cuts, a, i, open) && i < |ts|
    ensures open && ts[i].kind != SemiColon ==> Reading(ts, cuts, a, i + 1, true)
    ensures open && ts[i].kind == SemiColon ==> Reading(ts, cuts + [Cut(a, i + 1)], a, i + 1, false)
    ensures !open ==>
      if OpensVoice(ts[i]) then Reading(ts, cuts, i, i + 1, true) else Reading(ts, cuts, a, i + 1, false)
  {
    if open && ts[i].kind == SemiColon {
      Terminated(ts, cuts, a, i);
    }
  }

  lemma MadeMore(voices: seq<SCLOrkPDVoice>, tokens: seq<Token>, ts: seq<Tok>, cuts: seq<Cut>,
                 v: SCLOrkPDVoice, cut: Cut)
    requires AllMade(voices, tokens, ts, cuts) && MadeAt(v.View(), tokens, ts, cut)
    ensures AllMade(voices + [v], tokens, ts, cuts + [cut])
  {}

  ghost predicate Decides(sentence: seq<Tok> -> bool) {
    forall ts {:trigger Grammar.Readable(ts)} :: sentence(ts) <==> Grammar.Readable(ts)
  }

  ghost predicate Shows(tokens: seq<Token>, ts: seq<Tok>)
    reads tokens
  {
    |tokens| == |ts| && forall i | 0 <= i < |ts| :: tokens[i].View() == ts[i]
  }

  lemma ViewsPart(tokens: seq<Token>, ts: seq<Tok>, a: nat, b: nat)
    requires a <= b <= |tokens| && Shows(tokens, ts)
    ensures Views(tokens[a..b]) == ts[a..b]
  {}

  // ---- Voices and the file ----

  /** The voice's string is the piece of the text that its tokens cover; its parameters share its tokens. */
  ghost predicate FromText(v: VoiceView, text: string, ts: seq<Tok>, cut: Cut) {
    && cut.from < cut.upto <= |ts|
    && ts[cut.from].offset <= ts[cut.upto - 1].offset + ts[cut.upto - 1].length <= |text|
    && v.source == text[ts[cut.from].offset..ts[cut.upto - 1].offset + ts[cut.upto - 1].length]
    && Shared(v)
  }

  /** Consecutive tokens of a tiling put together are the piece of the input they cover. */
  lemma TilePart(rules: seq<Rule>, text: string, ts: seq<Tok>, a: nat, b: nat, part: seq<Tok>)
    requires Tile(rules, text, ts, 0, |text|) && a < b <= |ts| && part == ts[a..b]
    ensures Tile(rules, text, part, ts[a].offset, ts[b - 1].offset + ts[b - 1].length)
  {
    forall k | 0 <= k < |part| ensures Explained(rules, text, part[k]) {
      assert part[k] == ts[a + k];
    }
    forall k | 0 <= k < |part| - 1 ensures Meet(part, k) {
      assert Meet(ts, a + k);
    }
  }

  lemma PieceOfText(rules: seq<Rule>, text: string, ts: seq<Tok>, a: nat, b: nat)
    requires Tile(rules, text, ts, 0, |text|) && a < b <= |ts|
    ensures ts[a].offset <= ts[b - 1].offset + ts[b - 1].length <= |text|
    ensures Concat(ts[a..b]) == text[ts[a].offset..ts[b - 1].offset + ts[b - 1].length]
  {
    assert Explained(rules, text, ts[a]);
    TilePart(rules, text, ts, a, b, ts[a..b]);
    TileIsConcat(rules, text, ts[a..b], ts[a].offset, ts[b - 1].offset + ts[b - 1].length);
  }

  lemma PartDistinct(tokens: seq<Token>, a: nat, b: nat)
    requires AllDistinct(tokens) && a <= b <= |tokens|
    ensures AllDistinct(tokens[a..b])
  {
    forall i | 0 <= i < b - a ensures Apart(tokens[a..b], i) {
      assert Apart(tokens, a + i);
    }
  }

  lemma VoiceFromText(text: string, v: VoiceView, tokens: seq<Token>, ts: seq<Tok>, cut: Cut)
    requires Tile(RULES, text, ts, 0, |text|) && AllDistinct(tokens) && MadeAt(v, tokens, ts, cut)
      && cut.from < cut.upto
    ensures FromText(v, text, ts, cut)
  {
    PieceOfText(RULES, text, ts, cut.from, cut.upto);
    PartDistinct(tokens, cut.from, cut.upto);
    ParsedIsShared(v, ts[cut.from..cut.upto]);
  }

  lemma VoicesFromText(text: string, voices: seq<SCLOrkPDVoice>, tokens: seq<Token>, ts: seq<Tok>, cuts: seq<Cut>)
    requires Tokenized(text) == Some(ts) && AllDistinct(tokens) && AllMade(voices, tokens, ts, cuts) && Cuts(ts, cuts)
    ensures forall k | 0 <= k < |cuts| :: FromText(voices[k].View(), text, ts, cuts[k])
  {
    TokensTileInput(text);
    forall k | 0 <= k < |cuts| ensures FromText(voices[k].View(), text, ts, cuts[k]) {
      assert CutAt(ts, cuts, k) && MadeAt(voices[k].View(), tokens, ts, cuts[k]);
      VoiceFromText(text, voices[k].View(), tokens, ts, cuts[k]);
    }
  }

  // ---- Voices that are edited ----

  /** The voice has its piece of the tokens, and its string is what they read now. */
  ghost predicate VoiceReads(v: VoiceView, tokens: seq<Token>, now: seq<Tok>, cut: Cut) {
    && cut.from < cut.upto <= |tokens| == |now|
    && v.tokens == tokens[cut.from..cut.upto] && v.source == Concat(now[cut.from..cut.upto])
    && Shared(v)
  }

  /** The pieces do not overlap. */
  predicate Disjoint(cuts: seq<Cut>) {
    forall j, k | 0 <= j < k < |cuts| :: cuts[j].upto <= cuts[k].from
  }

  lemma CutsDisjoint(ts: seq<Tok>, cuts: seq<Cut>)
    requires Cuts(ts, cuts)
    ensures Disjoint(cuts)
  {
    forall j, k | 0 <= j < k < |cuts| ensures cuts[j].upto <= cuts[k].from {
      EndsGrow(ts, cuts, j + 1, k);
      assert CutAt(ts, cuts, k);
    }
  }

  /** All voices read what their tokens read, and the tokens read `now`. */
  ghost predicate AllRead(voices: seq<SCLOrkPDVoice>, tokens: seq<Token>, now: seq<Tok>, cuts: seq<Cut>)
    reads voices, tokens
  {
    && |voices| == |cuts| && Shows(tokens, now) && AllDistinct(tokens) && Disjoint(cuts)
    && forall k | 0 <= k < |cuts| :: VoiceReads(voices[k].View(), tokens, now, cuts[k])
  }

  lemma LoadedRead(text: string, voices: seq<SCLOrkPDVoice>, tokens: seq<Token>, ts: seq<Tok>, cuts: seq<Cut>)
    requires AllMade(voices, tokens, ts, cuts) && Shows(tokens, ts) && AllDistinct(tokens) && Cuts(ts, cuts)
    requires forall k | 0 <= k < |cuts| :: FromText(voices[k].View(), text, ts, cuts[k])
    ensures AllRead(voices, tokens, ts, cuts)
  {
    CutsDisjoint(ts, cuts);
    forall k | 0 <= k < |cuts| ensures VoiceReads(voices[k].View(), tokens, ts, cuts[k]) {
      assert MadeAt(voices[k].View(), tokens, ts, cuts[k]) && FromText(voices[k].View(), text, ts, cuts[k]);
    }
  }

  /** Voices with pieces of their own are different objects. */
  lemma VoicesDiffer(voices: seq<SCLOrkPDVoice>, tokens: seq<Token>, now: seq<Tok>, cuts: seq<Cut>, j: nat, k: nat)
    requires AllRead(voices, tokens, now, cuts) && j < |cuts| && k < |cuts| && j != k
    ensures voices[j] != voices[k] && (cuts[j].upto <= cuts[k].from || cuts[k].upto <= cuts[j].from)
  {
    assert VoiceReads(voices[j].View(), tokens, now, cuts[j]) && VoiceReads(voices[k].View(), tokens, now, cuts[k]);
    OthersDiffer(tokens, cuts[k].from);
    assert cuts[j].upto <= cuts[k].from || cuts[k].upto <= cuts[j].from;
    assert voices[j].tokens[0] == tokens[cuts[j].from] && voices[k].tokens[0] == tokens[cuts[k].from];
  }

  /** A changed token leaves the pieces that it does not lie in as they were. */
  lemma PieceKept(now: seq<Tok>, i: nat, t: Tok, a: nat, b: nat)
    requires i < |now| && a <= b <= |now| && !(a <= i < b)
    ensures now[i := t][a..b] == now[a..b]
  {}

  lemma PieceChanged(now: seq<Tok>, i: nat, t: Tok, a: nat, b: nat)
    requires a <= i < b <= |now|
    ensures now[i := t][a..b] == now[a..b][i - a := t]
  {}

  lemma VoiceKept(v: VoiceView, tokens: seq<Token>, now: seq<Tok>, cut: Cut, i: nat, t: Tok)
    requires VoiceReads(v, tokens, now, cut) && i < |now| && !(cut.from <= i < cut.upto)
    ensures VoiceReads(v, tokens, now[i := t], cut)
  {
    PieceKept(now, i, t, cut.from, cut.upto);
  }

  lemma VoiceChanged(v: VoiceView, tokens: seq<Token>, now: seq<Tok>, cut: Cut, i: nat, t: Tok)
    requires cut.from <= i < cut.upto <= |tokens| == |now| && v.tokens == tokens[cut.from..cut.upto] && Shared(v)
    requires v.source == Concat(now[cut.from..cut.upto][i - cut.from := t])
    ensures VoiceReads(v, tokens, now[i := t], cut)
  {
    PieceChanged(now, i, t, cut.from, cut.upto);
  }

  lemma Around<T>(s: seq<T>, i: nat, a: nat, b: nat)
    requires a <= i < b <= |s|
    ensures var piece := s[a..b];
      |piece| == b - a && piece[i - a] == s[i] && piece[..i - a] == s[a..i] && piece[i - a + 1..] == s[i + 1..b]
  {}

  predicate Parts(s: string, front: string, middle: string, back: string) {
    s == front + middle + back
  }

  lemma PieceSplit(ts: seq<Tok>, i: nat, a: nat, b: nat, edit: string)
    requires a <= i < b <= |ts|
    ensures Parts(Concat(ts[i := ts[i].(str := edit)][a..b]), Concat(ts[a..i]), edit, Concat(ts[i + 1..b]))
  {
    Around(ts, i, a, b);
    PieceChanged(ts, i, ts[i].(str := edit), a, b);
    PieceReplaced(ts[a..b], i - a, edit);
  }

  predicate ReadsAs(s: string, text: string, a: nat, b: nat) {
    a <= b <= |text| && s == text[a..b]
  }

  /** The tokens before one of a piece, perhaps none, are the text before it. */
  lemma TextBefore(rules: seq<Rule>, text: string, ts: seq<Tok>, a: nat, i: nat)
    requires Tile(rules, text, ts, 0, |text|) && a <= i < |ts|
    ensures ReadsAs(Concat(ts[a..i]), text, ts[a].offset, ts[i].offset)
  {
    if a < i {
      PieceOfText(rules, text, ts, a, i);
      assert Meet(ts, i - 1);
    }
    assert Explained(rules, text, ts[i]);
  }

  /** Those behind it are the text behind it. */
  lemma TextBehind(rules: seq<Rule>, text: string, ts: seq<Tok>, i: nat, b: nat)
    requires Tile(rules, text, ts, 0, |text|) && i < b <= |ts|
    ensures ReadsAs(Concat(ts[i + 1..b]), text, ts[i].offset + ts[i].length, ts[b - 1].offset + ts[b - 1].length)
  {
    if i + 1 < b {
      PieceOfText(rules, text, ts, i + 1, b);
      assert Meet(ts, i);
    } else {
      assert Explained(rules, text, ts[i]);
    }
  }

  /** The string is the text from `a` to `b` with what lies from `p` to `q` replaced. */
  predicate Replaced(s: string, text: string, a: nat, p: nat, q: nat, b: nat, edit: string) {
    a <= p <= q <= b <= |text| && s == text[a..p] + edit + text[q..b]
  }

  lemma Glue(s: string, front: string, back: string, text: string, a: nat, p: nat, q: nat, b: nat, edit: string)
    requires p <= q && Parts(s, front, edit, back) && ReadsAs(front, text, a, p) && ReadsAs(back, text, q, b)
    ensures Replaced(s, text, a, p, q, b, edit)
  {}

  lemma EditedSource(v: VoiceView, tokens: seq<Token>, ts: seq<Tok>, cut: Cut, i: nat, edit: string)
    requires cut.from <= i < cut.upto <= |ts| && VoiceReads(v, tokens, ts[i := ts[i].(str := edit)], cut)
    ensures Parts(v.source, Concat(ts[cut.from..i]), edit, Concat(ts[i + 1..cut.upto]))
  {
    PieceSplit(ts, i, cut.from, cut.upto, edit);
  }

  /** A voice of a file with one token changed reads as its piece of the file with that token's text replaced. */
  lemma EditedVoice(v: VoiceView, tokens: seq<Token>, text: string, ts: seq<Tok>, cut: Cut, i: nat, edit: string)
    requires Tokenized(text) == Some(ts) && cut.from <= i < cut.upto <= |ts|
    requires VoiceReads(v, tokens, ts[i := ts[i].(str := edit)], cut)
    ensures Replaced(v.source, text, ts[cut.from].offset, ts[i].offset, ts[i].offset + ts[i].length,
                     ts[cut.upto - 1].offset + ts[cut.upto - 1].length, edit)
  {
    EditedSource(v, tokens, ts, cut, i, edit);
    EditedText(text, ts, cut.from, i, cut.upto, v.source, edit);
  }

  /** In whatever file these are the tokens of, the string is that piece with the text of token `i` replaced. */
  ghost predicate OneTextReplaced(s: string, ts: seq<Tok>, cut: Cut, i: nat, edit: string)
    requires cut.from <= i < cut.upto <= |ts|
  {
    forall file | Tokenized(file) == Some(ts) ::
      Replaced(s, file, ts[cut.from].offset, ts[i].offset, ts[i].offset + ts[i].length,
               ts[cut.upto - 1].offset + ts[cut.upto - 1].length, edit)
  }

  lemma FirstEdit(v: VoiceView, tokens: seq<Token>, ts: seq<Tok>, cut: Cut, i: nat, edit: string)
    requires cut.from <= i < cut.upto <= |ts| && VoiceReads(v, tokens, ts[i := ts[i].(str := edit)], cut)
    ensures OneTextReplaced(v.source, ts, cut, i, edit)
  {
    forall file | Tokenized(file) == Some(ts)
      ensures Replaced(v.source, file, ts[cut.from].offset, ts[i].offset, ts[i].offset + ts[i].length,
                       ts[cut.upto - 1].offset + ts[cut.upto - 1].length, edit)
    {
      EditedVoice(v, tokens, file, ts, cut, i, edit);
    }
  }

  lemma EditedText(text: string, ts: seq<Tok>, a: nat, i: nat, b: nat, s: string, edit: string)
    requires Tokenized(text) == Some(ts) && a <= i < b <= |ts|
    requires Parts(s, Concat(ts[a..i]), edit, Concat(ts[i + 1..b]))
    ensures Replaced(s, text, ts[a].offset, ts[i].offset, ts[i].offset + ts[i].length,
                     ts[b - 1].offset + ts[b - 1].length, edit)
  {
    TokensTileInput(text);
    EditedTile(RULES, text, ts, a, i, b, s, edit);
  }

  lemma EditedTile(rules: seq<Rule>, text: string, ts: seq<Tok>, a: nat, i: nat, b: nat, s: string, edit: string)
    requires Tile(rules, text, ts, 0, |text|) && a <= i < b <= |ts|
    requires Parts(s, Concat(ts[a..i]), edit, Concat(ts[i + 1..b]))
    ensures Replaced(s, text, ts[a].offset, ts[i].offset, ts[i].offset + ts[i].length,
                     ts[b - 1].offset + ts[b - 1].length, edit)
  {
    TextBefore(rules, text, ts, a, i);
    TextBehind(rules, text, ts, i, b);
    Glue(s, Concat(ts[a..i]), Concat(ts[i + 1..b]), text,
      ts[a].offset, ts[i].offset, ts[i].offset + ts[i].length, ts[b - 1].offset + ts[b - 1].length, edit);
  }

  lemma SliceMore<T>(s: seq<T>, a: nat, i: nat)
    requires a <= i < |s|
    ensures s[a..i] + [s[i]] == s[a..i + 1]
  {}

  class SCLOrkPDPreset {
    var voices: seq<SCLOrkPDVoice>

    constructor (voices: seq<SCLOrkPDVoice>)
      ensures this.voices == voices
    {
      this.voices := voices;
    }

    static method Tokenize(text: string) returns (r: Option<seq<Token>>)
      ensures r.Some? <==> Tokenized(text).Some?
      ensures r.Some? ==>
        Views(r.value) == Tokenized(text).value && AllDistinct(r.value) && forall t <- r.value :: fresh(t)
    {
      RulesConsume();
      r := Scan(RULES, text);
    }

    static method Add(tokens: seq<Token>, t: Tok) returns (more: seq<Token>)
      requires AllDistinct(tokens)
      ensures AllDistinct(more) && Views(more) == Views(tokens) + [t]
      ensures forall u <- more :: u in tokens || fresh(u)
    {
      var token := new Token(t);
      more := tokens + [token];
      forall i | 0 <= i < |more| ensures Apart(more, i) {
        assert i < |tokens| ==> Apart(tokens, i);
      }
    }

    /** The next token, if a pattern matches; `rest` is what is still to be read. */
    static method Find(rules: seq<Rule>, text: string, i: nat, ghost ts: seq<Tok>, ghost rest: Option<seq<Tok>>)
      returns (found: Option<Tok>, ghost rest': Option<seq<Tok>>)
      requires AllConsume(rules) && i < |text| && rest == Lex(rules, text, i)
      ensures found == TokenAt(rules, text, i, 0)
      ensures found.None? ==> rest' == rest == None
      ensures found.Some? ==>
        && 0 < found.value.length && i + found.value.length <= |text|
        && rest' == Lex(rules, text, i + found.value.length) && Then(ts, rest) == Then(ts + [found.value], rest')
    {
      found := TokenAt(rules, text, i, 0);
      ScanStep(rules, text, i, ts, rest, found);
      rest' := if found.None? then None else Lex(rules, text, i + found.value.length);
    }

    /** One round of the loop: None if no pattern matches. */
    static method ScanOne(rules: seq<Rule>, text: string, offset: nat, tokens: seq<Token>,
                          ghost ts: seq<Tok>, ghost rest: Option<seq<Tok>>)
      returns (more: Option<seq<Token>>, offset': nat, ghost ts': seq<Tok>, ghost rest': Option<seq<Tok>>)
      requires AllConsume(rules) && offset < |text| && rest == Lex(rules, text, offset)
      requires AllDistinct(tokens) && Views(tokens) == ts
      ensures more.None? ==> rest == None
      ensures more.Some? ==>
        && offset < offset' <= |text| && rest' == Lex(rules, text, offset') && Then(ts, rest) == Then(ts', rest')
        && AllDistinct(more.value) && Views(more.value) == ts' && forall u <- more.value :: u in tokens || fresh(u)
    {
      var found;
      found, rest' := Find(rules, text, offset, ts, rest);
      if found.None? {
        return None, offset, ts, rest';
      }
      var longer := Add(tokens, found.value);
      more, offset', ts' := Some(longer), offset + found.value.length, ts + [found.value];
    }

    /** The loop of Tokenize. */
    static method Scan(rules: seq<Rule>, text: string) returns (r: Option<seq<Token>>)
      requires AllConsume(rules)
      ensures r.Some? <==> Lex(rules, text, 0).Some?
      ensures r.Some? ==>
        Views(r.value) == Lex(rules, text, 0).value && AllDistinct(r.value) && forall t <- r.value :: fresh(t)
    {
      var parseError, offset, tokens: seq<Token> := false, 0, [];
      ghost var all := Lex(rules, text, 0);
      ghost var ts: seq<Tok>, rest := [], all;
      NothingThen(rest);
      while offset < |text| && !parseError
        invariant parseError ==> all == None
        invariant !parseError ==>
          && offset <= |text| && AllDistinct(tokens) && Views(tokens) == ts
          && all == Then(ts, rest) && rest == Lex(rules, text, offset)
        invariant forall t <- tokens :: fresh(t)
        decreases |text| - offset, !parseError
      {
        var more, next;
        more, next, ts, rest := ScanOne(rules, text, offset, tokens, ts, rest);
        if more.None? {
          parseError := true;
        } else {
          tokens, offset := more.value, next;
        }
      }
      ThenNothing(rules, text, ts);
      r := if parseError then None else Some(tokens);
    }

    /** The open voice is parsed. */
    static method Parse(ghost sentence: seq<Tok> -> bool, openVoice: seq<Token>, ghost tokens: seq<Token>,
                        ghost ts: seq<Tok>, ghost cut: Cut)
      returns (voice: Option<SCLOrkPDVoice>)
      requires Decides(sentence) && Shows(tokens, ts)
      requires cut.from <= cut.upto <= |tokens| && openVoice == tokens[cut.from..cut.upto]
      ensures voice.Some? <==> SentenceAt(sentence, ts, cut)
      ensures voice.Some? ==> fresh(voice.value) && MadeAt(voice.value.View(), tokens, ts, cut)
    {
      ViewsPart(tokens, ts, cut.from, cut.upto);
      voice := SCLOrkPDVoice.NewFromTokens(openVoice);
    }

    /** The semicolon at `i` ends the open voice. */
    static method Close(ghost sentence: seq<Tok> -> bool, openVoice: seq<Token>, voices: seq<SCLOrkPDVoice>,
                        ghost tokens: seq<Token>, ghost ts: seq<Tok>, ghost cuts: seq<Cut>, ghost a: nat, ghost i: nat)
      returns (more: Option<seq<SCLOrkPDVoice>>, ghost cuts': seq<Cut>)
      requires Decides(sentence) && Shows(tokens, ts)
      requires Reading(ts, cuts, a, i, true) && i < |tokens| && tokens[i].kind == SemiColon
      requires openVoice == tokens[a..i + 1]
      requires AllMade(voices, tokens, ts, cuts) && AllSentences(sentence, ts, cuts)
      ensures more.None? ==> Unplayable(sentence, ts)
      ensures more.Some? ==> Reading(ts, cuts', a, i + 1, false)
      ensures more.Some? ==> AllMade(more.value, tokens, ts, cuts') && AllSentences(sentence, ts, cuts')
    {
      Terminated(ts, cuts, a, i);
      cuts' := cuts + [Cut(a, i + 1)];
      var voice := Parse(sentence, openVoice, tokens, ts, Cut(a, i + 1));
      if voice.None? {
        Unreadable(sentence, ts, cuts, a, i + 1);
        return None, cuts';
      }
      MadeMore(voices, tokens, ts, cuts, voice.value, Cut(a, i + 1));
      more := Some(voices + [voice.value]);
    }

    /** The loop over the tokens: voices are cut out and parsed; None if one fails or is not terminated. */
    static method Voices(ghost sentence: seq<Tok> -> bool, tokens: seq<Token>, ghost ts: seq<Tok>)
      returns (r: Option<seq<SCLOrkPDVoice>>, ghost cuts: seq<Cut>)
      requires Decides(sentence) && Shows(tokens, ts)
      ensures r.Some? ==> Playable(sentence, ts, cuts) && AllMade(r.value, tokens, ts, cuts)
      ensures r.None? ==> Unplayable(sentence, ts)
    {
      var openVoice: Option<seq<Token>>, voices: seq<SCLOrkPDVoice> := None, [];
      ghost var a: nat := 0;
      cuts := [];
      for i := 0 to |tokens|
        invariant Shows(tokens, ts)
        invariant Reading(ts, cuts, a, i, openVoice.Some?) && AllMade(voices, tokens, ts, cuts)
        invariant AllSentences(sentence, ts, cuts)
        invariant openVoice.Some? ==> openVoice.value == tokens[a..i]
      {
        var token := tokens[i];
        ReadingMore(ts, cuts, a, i, openVoice.Some?);
        if openVoice.Some? {
          SliceMore(tokens, a, i);
          openVoice := Some(openVoice.value + [token]);
          if token.kind == SemiColon {
            var more;
            more, cuts := Close(sentence, openVoice.value, voices, tokens, ts, cuts, a, i);
            if more.None? {
              return None, cuts;
            }
            voices, openVoice := more.value, None;
          }
        } else if token.kind == ClassName && token.str == PBINDEF {
          openVoice, a := Some([token]), i;
          SliceMore(tokens, a, i);
        }
      }
      if openVoice.Some? {
        Unterminated(sentence, ts, cuts, a);
        return None, cuts;
      }
      r := Some(voices);
    }

    /**
     * The file's voices: exactly when it tokenizes and every Pbindef in it is terminated and readable,
     * and then each voice's string is the piece of the file from its Pbindef to its first semicolon.
     */
    static method NewFromFile(text: string)
      returns (preset: Option<SCLOrkPDPreset>, ghost tokens: seq<Token>, ghost ts: seq<Tok>, ghost cuts: seq<Cut>)
      ensures preset.Some? <==> Tokenized(text).Some? && !Unplayable(Grammar.Readable, Tokenized(text).value)
      ensures preset.Some? ==> ts == Tokenized(text).value && Playable(Grammar.Readable, ts, cuts)
      ensures preset.Some? ==> AllDistinct(tokens) && AllMade(preset.value.voices, tokens, ts, cuts)
      ensures preset.Some? ==> forall k | 0 <= k < |cuts| :: FromText(preset.value.voices[k].View(), text, ts, cuts[k])
      ensures preset.Some? ==> AllRead(preset.value.voices, tokens, ts, cuts)
    {
      tokens, ts, cuts := [], [], [];
      var list := Tokenize(text);
      if list.None? {
        return None, tokens, ts, cuts;
      }
      tokens, ts := list.value, Tokenized(text).value;
      var voices;
      voices, cuts := Voices(Grammar.Readable, list.value, ts);
      if voices.None? {
        return None, tokens, ts, cuts;
      }
      var p := new SCLOrkPDPreset(voices.value);
      VoicesFromText(text, voices.value, tokens, ts, cuts);
      LoadedRead(text, voices.value, tokens, ts, cuts);
      preset := Some(p);
    }

    function Voice(k: nat): SCLOrkPDVoice
      requires k < |voices|
      reads this
    {
      voices[k]
    }

    /**
     * A parameter of one voice is edited and the voice's string rebuilt, as often as one likes: one
     * token reads differently, and all voices read what their tokens read. After the first edit the
     * voice's string is its piece of the file with only that token's text replaced.
     */
    method ChangeParameter(k: nat, parameter: string, index: nat, text: string,
                           ghost tokens: seq<Token>, ghost now: seq<Tok>, ghost cuts: seq<Cut>)
      returns (ghost i: nat)
      requires k < |voices| && AllRead(voices, tokens, now, cuts) && Voice(k).HasValueToken(parameter, index)
      modifies Voice(k)`source, Voice(k).ValueToken(parameter, index)`str
      ensures cuts[k].from <= i < cuts[k].upto <= |tokens| == |now|
      ensures tokens[i] == Voice(k).ValueToken(parameter, index)
      ensures AllRead(voices, tokens, now[i := now[i].(str := text)], cuts)
      ensures OneTextReplaced(Voice(k).source, now, cuts[k], i, text)
    {
      var voice := voices[k];
      assert VoiceReads(voice.View(), tokens, now, cuts[k]);
      forall j | 0 <= j < |cuts| && j != k
        ensures voices[j] != voice && (cuts[j].upto <= cuts[k].from || cuts[k].upto <= cuts[j].from)
      {
        VoicesDiffer(voices, tokens, now, cuts, j, k);
      }
      i := EditVoice(voice, parameter, index, text, tokens, now, cuts[k]);
      forall j | 0 <= j < |cuts| && j != k
        ensures VoiceReads(voices[j].View(), tokens, now[i := now[i].(str := text)], cuts[j])
      {
        VoiceKept(voices[j].View(), tokens, now, cuts[j], i, now[i].(str := text));
      }
    }

    /** What that does to the voice and to all tokens. */
    static method EditVoice(voice: SCLOrkPDVoice, parameter: string, index: nat, text: string,
                            ghost tokens: seq<Token>, ghost now: seq<Tok>, ghost cut: Cut)
      returns (ghost i: nat)
      requires VoiceReads(voice.View(), tokens, now, cut) && Shows(tokens, now) && AllDistinct(tokens)
      requires voice.HasValueToken(parameter, index)
      modifies voice`source, voice.ValueToken(parameter, index)`str
      ensures cut.from <= i < cut.upto <= |tokens| == |now| && tokens[i] == voice.ValueToken(parameter, index)
      ensures Shows(tokens, now[i := now[i].(str := text)])
      ensures VoiceReads(voice.View(), tokens, now[i := now[i].(str := text)], cut)
      ensures OneTextReplaced(voice.source, now, cut, i, text)
    {
      i := EditPart(voice, parameter, index, text, tokens, now, cut);
      VoiceChanged(voice.View(), tokens, now, cut, i, now[i].(str := text));
      FirstEdit(voice.View(), tokens, now, cut, i, text);
    }

    static method EditPart(voice: SCLOrkPDVoice, parameter: string, index: nat, text: string,
                           ghost tokens: seq<Token>, ghost now: seq<Tok>, ghost cut: Cut)
      returns (ghost i: nat)
      requires cut.from < cut.upto <= |tokens| == |now| && voice.tokens == tokens[cut.from..cut.upto]
      requires voice.source == Concat(now[cut.from..cut.upto]) && Shared(voice.View())
      requires Shows(tokens, now) && AllDistinct(tokens) && voice.HasValueToken(parameter, index)
      modifies voice`source, voice.ValueToken(parameter, index)`str
      ensures cut.from <= i < cut.upto && tokens[i] == voice.ValueToken(parameter, index)
      ensures Shows(tokens, now[i := now[i].(str := text)])
      ensures voice.source == Concat(now[cut.from..cut.upto][i - cut.from := now[i].(str := text)])
    {
      ghost var token := voice.ValueToken(parameter, index);
      ViewsPart(tokens, now, cut.from, cut.upto);
      ghost var here := voice.EditAndRebuild(parameter, index, text);
      i := cut.from + here;
      SliceAt(tokens, cut.from, cut.upto, here);
      SliceAt(now, cut.from, cut.upto, here);
      assert tokens[i] == token;
      OthersDiffer(tokens, i);
      assert tokens[i].View() == now[i].(str := text);
      ShowsChange(tokens, now, i, now[i].(str := text));
    }
  }

  lemma SliceAt<T>(s: seq<T>, a: nat, b: nat, k: nat)
    requires a <= b <= |s| && k < b - a
    ensures s[a..b][k] == s[a + k]
  {}

  lemma ShowsChange(tokens: seq<Token>, now: seq<Tok>, i: nat, t: Tok)
    requires i < |tokens| == |now| && tokens[i].View() == t
    requires forall j | 0 <= j < |now| && j != i :: tokens[j].View() == now[j]
    ensures Shows(tokens, now[i := t])
  {}

  function Then(ts: seq<Tok>, rest: Option<seq<Tok>>): Option<seq<Tok>> {
    match rest
    case None => None
    case Some(more) => Some(ts + more)
  }

  lemma NothingThen(rest: Option<seq<Tok>>)
    ensures Then([], rest) == rest
  {
    if rest.Some? {
      assert [] + rest.value == rest.value;
    }
  }

  lemma ThenNothing(rules: seq<Rule>, text: string, ts: seq<Tok>)
    ensures Then(ts, Lex(rules, text, |text|)) == Some(ts)
  {
    assert ts + [] == ts;
  }

  lemma ThenMore(ts: seq<Tok>, t: Tok, rest: Option<seq<Tok>>)
    ensures Then(ts, Then([t], rest)) == Then(ts + [t], rest)
  {
    if rest.Some? {
      assert ts + ([t] + rest.value) == (ts + [t]) + rest.value;
    }
  }

  lemma ScanStep(rules: seq<Rule>, text: string, i: nat, ts: seq<Tok>, rest: Option<seq<Tok>>, found: Option<Tok>)
    requires AllConsume(rules) && i < |text| && rest == Lex(rules, text, i) && found == TokenAt(rules, text, i, 0)
    ensures found.None? ==> rest == None
    ensures found.Some? ==>
      && 0 < found.value.length && i + found.value.length <= |text|
      && Then(ts, rest) == Then(ts + [found.value], Lex(rules, text, i + found.value.length))
  {
    FoundIsLong(rules, text, i, found);
    LexOne(rules, text, i, found);
    if found.Some? {
      ThenMore(ts, found.value, Lex(rules, text, i + found.value.length));
    }
  }

  lemma FoundIsLong(rules: seq<Rule>, text: string, i: nat, found: Option<Tok>)
    requires AllConsume(rules) && i < |text| && found == TokenAt(rules, text, i, 0)
    ensures found.Some? ==> 0 < found.value.length && i + found.value.length <= |text|
  {
    TokenAtExact(rules, text, i, 0);
  }

  lemma LexOne(rules: seq<Rule>, text: string, i: nat, found: Option<Tok>)
    requires i < |text| && found == TokenAt(rules, text, i, 0)
    requires found.Some? ==> 0 < found.value.length
    ensures Lex(rules, text, i) ==
      if found.None? then None else Then([found.value], Lex(rules, text, i + found.value.length))
  {}
}

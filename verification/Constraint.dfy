/** Grammar-constrained decoding: the mask a state shows, the tokens it accepts, and looking
    ahead over drafted tokens without committing them. The grammar matcher is the history of
    the tokens it accepted. */
module Constraint {
  import opened Utf8

  type Token = nat
  type Mask = seq<bool>

  /** What the matcher library decides from the tokens accepted so far. `fails` marks histories
      where filling the mask throws. */
  datatype Grammar = Grammar(
    allows: (seq<Token>, Token) -> bool, ends: seq<Token> -> bool, fails: seq<Token> -> bool)

  /** Token inventory: all 256 byte tokens, stop tokens, and the channel and tool boundaries. */
  datatype Contract = Contract(
    vocabularySize: nat, ordinary: Mask, byteIds: seq<Token>, byteValues: seq<int>, stops: set<Token>,
        constraintStops: set<Token>,
    channelStart: Token, channelEnd: Token, toolStart: Token, toolEnd: Token, maxDepth: nat)
  {
    ghost predicate Valid() {
      && |byteIds| == 256 && |byteValues| == vocabularySize && vocabularySize <= |ordinary|
      && channelStart < vocabularySize && channelEnd < vocabularySize && toolStart < vocabularySize
      && toolEnd < vocabularySize
      && (forall t :: t in stops ==> t < vocabularySize)
      && (forall b :: 0 <= b < 256 ==> byteIds[b] < vocabularySize && byteValues[byteIds[b]] == b)
      && (forall t :: 0 <= t < vocabularySize && byteValues[t] >= 0 ==>
         byteValues[t] < 256 && byteIds[byteValues[t]] == t)
    }
  }

  type TokenContract = c: Contract | c.Valid() ghost witness Tiny()

  ghost function Tiny(): (c: Contract)
    ensures c.Valid()
  {
    Contract(256, seq(256, _ => true), seq(256, b => b), seq(256, b => b), {}, {}, 0, 1, 2, 3, 0)
  }

  datatype Phase = Begin | Thinking | Answer

  /** A decoding state: phase, the matcher's history, and the UTF-8 automaton. */
  datatype Progress = Progress(phase: Phase, history: seq<Token>, utf8: Utf8.State)

  // ------------------------------------------------------------------- accepting

  predicate ByteFits(c: TokenContract, utf8: Utf8.State, t: Token)
    requires t < c.vocabularySize
  {
    if c.byteValues[t] >= 0 then Accepts(utf8, c.byteValues[t]).Some? else utf8.remaining == 0
  }

  function NextUtf8(c: TokenContract, utf8: Utf8.State, t: Token): Utf8.State
    requires t < c.vocabularySize && ByteFits(c, utf8, t)
  {
    if c.byteValues[t] >= 0 then Accepts(utf8, c.byteValues[t]).value else utf8
  }

  /** The state after `t`, or `None` when it is refused. */
  function Accepted(c: TokenContract, g: Grammar, p: Progress, t: Token): Option<Progress> {
    if t >= c.vocabularySize || g.ends(p.history) then None
    else if p.phase == Thinking then
      if t == c.channelEnd then Some(p.(phase := Answer))
      else if t in c.stops || t == c.toolStart || t == c.toolEnd then None
      else if c.ordinary[t] then Some(p) else None
    else if p.phase == Begin && t == c.channelStart then Some(p.(phase := Thinking))
    else if t !in c.constraintStops && !c.ordinary[t] then None
    else if !ByteFits(c, p.utf8, t) || !g.allows(p.history, t) then None
    else Some(Progress(Answer, p.history + [t], NextUtf8(c, p.utf8, t)))
  }

  // --------------------------------------------------------------------- masking

  predicate Thinkable(c: TokenContract, t: Token)
    requires t < c.vocabularySize
  {
    t == c.channelEnd || (c.ordinary[t] && t !in c.stops && t != c.toolStart && t != c.toolEnd)
  }

  /** Whether the mask of a state that has not terminated shows `t`. */
  predicate Shown(c: TokenContract, g: Grammar, p: Progress, t: Token)
    requires t < c.vocabularySize
  {
    if p.phase == Thinking then Thinkable(c, t)
    else (p.phase == Begin && t == c.channelStart) || (g.allows(p.history, t) && ByteFits(c, p.utf8, t))
  }

  /** Whether `accept` knows the token outside thinking: ordinary text or a constraint stop. */
  predicate Listed(c: TokenContract, t: Token)
    requires t < c.vocabularySize
  {
    c.ordinary[t] || t in c.constraintStops
  }

  /** The matcher allows only tokens of the inventory. */
  ghost predicate Admissible(c: TokenContract, g: Grammar) {
    forall h: seq<Token>, t: Token :: t < c.vocabularySize && g.allows(h, t) ==> Listed(c, t)
  }

  /** Under an admissible matcher the mask shows exactly the tokens that would be accepted. */
  lemma MaskAgrees(c: TokenContract, g: Grammar, p: Progress, t: Token)
    requires Admissible(c, g) && t < c.vocabularySize && !g.ends(p.history)
    ensures Shown(c, g, p, t) <==> Accepted(c, g, p, t).Some?
  {
    if g.allows(p.history, t) { assert Listed(c, t); }
  }

  /** Mask and acceptance agree in every state. */
  ghost predicate AlwaysAgrees(c: TokenContract, g: Grammar) {
    forall p: Progress, t: Token :: t < c.vocabularySize && Sane(p.utf8) && !g.ends(p.history) ==>
      (Shown(c, g, p, t) <==> Accepted(c, g, p, t).Some?)
  }

  /** The inventory where it can matter: histories that have not ended, tokens some UTF-8 state takes. */
  ghost predicate AdmissibleWhereItFits(c: TokenContract, g: Grammar) {
    forall h: seq<Token>, u: Utf8.State, t: Token ::
      t < c.vocabularySize && g.allows(h, t) && !g.ends(h) && Sane(u) && ByteFits(c, u, t) ==> Listed(c, t)
  }

  /** No other matchers will do: agreement everywhere is the inventory, wherever the token fits. */
  lemma AgreementExact(c: TokenContract, g: Grammar)
    ensures AlwaysAgrees(c, g) <==> AdmissibleWhereItFits(c, g)
  {
    if AlwaysAgrees(c, g) {
      forall h: seq<Token>, u: Utf8.State, t: Token
        | t < c.vocabularySize && g.allows(h, t) && !g.ends(h) && Sane(u) && ByteFits(c, u, t)
        ensures Listed(c, t)
      {
        var p := Progress(Answer, h, u);
        assert Shown(c, g, p, t) <==> Accepted(c, g, p, t).Some?;
      }
    }
    if AdmissibleWhereItFits(c, g) {
      forall p: Progress, t: Token | t < c.vocabularySize && Sane(p.utf8) && !g.ends(p.history)
        ensures Shown(c, g, p, t) <==> Accepted(c, g, p, t).Some?
      {
        if g.allows(p.history, t) && ByteFits(c, p.utf8, t) { assert Listed(c, t); }
      }
    }
  }

  // ------------------------------------------------------- what the compiler builds

  /** The tokenizer's vocabulary: which tokens are special, and the text of each piece. */
  datatype Vocabulary = Vocabulary(special: Mask, text: seq<Bytes>)
  {
    ghost predicate Covers(c: TokenContract) {
      |special| == c.vocabularySize && |text| == c.vocabularySize
    }
  }

  /** The matcher library's own promise: a token is allowed only by its text, or as a stop. */
  ghost predicate Lawful(decoded: seq<Bytes>, stops: set<Token>, g: Grammar) {
    forall h: seq<Token>, t: Token :: t < |decoded| && g.allows(h, t) ==> decoded[t] != [] || t in stops
  }

  /** Decoded pieces; special tokens have none. */
  function DecodedVocabulary(v: Vocabulary): (decoded: seq<Bytes>)
    requires |v.special| == |v.text|
    ensures |decoded| == |v.text|
  {
    seq(|v.text|, t requires 0 <= t < |v.text| => if v.special[t] then [] else v.text[t])
  }

  /** The vocabulary of tool grammars: boundary tokens have a placeholder for their text. */
  function WithPlaceholders(decoded: seq<Bytes>, boundary: set<Token>): (r: seq<Bytes>)
    ensures |r| == |decoded|
  {
    seq(|decoded|, t requires 0 <= t < |decoded| => if t in boundary then [0 as Byte] else decoded[t])
  }

  /** Grammars over decoded text: the constraint stops are the matcher's stops, and every token that
      is not special is ordinary. */
  lemma PlainCompiled(c: TokenContract, v: Vocabulary, g: Grammar)
    requires v.Covers(c) && Lawful(DecodedVocabulary(v), c.constraintStops, g)
    requires forall t :: 0 <= t < c.vocabularySize ==> (c.ordinary[t] <==> !v.special[t])
    ensures Admissible(c, g)
  {
    forall h: seq<Token>, t: Token | t < c.vocabularySize && g.allows(h, t) ensures Listed(c, t) {
      assert v.special[t] ==> DecodedVocabulary(v)[t] == [];
    }
  }

  /** Tool grammars: boundary tokens get a placeholder text and an ordinary bit, and the matcher
      ends without a stop. */
  lemma ToolsCompiled(c: TokenContract, v: Vocabulary, tools: set<Token>, g: Grammar)
    requires v.Covers(c) && Lawful(WithPlaceholders(DecodedVocabulary(v), c.constraintStops + tools), {}, g)
    requires forall t: Token :: t < c.vocabularySize ==>
      (c.ordinary[t] <==> (!v.special[t] || t in c.constraintStops || t in tools))
    ensures Admissible(c, g)
  {
    forall h: seq<Token>, t: Token | t < c.vocabularySize && g.allows(h, t) ensures Listed(c, t) {
      var decoded := WithPlaceholders(DecodedVocabulary(v), c.constraintStops + tools);
      assert decoded[t] == if t in c.constraintStops + tools then [0] else DecodedVocabulary(v)[t];
    }
  }

  /** The mask holds exactly the tokens that would be accepted. */
  ghost predicate MaskOf(c: TokenContract, g: Grammar, p: Progress, mask: Mask) {
    |mask| == |c.ordinary| && forall t: nat :: t < c.vocabularySize ==> (mask[t] <==> Accepted(c, g, p, t).Some?)
  }

  method ClearSet(mask: Mask, tokens: set<Token>) returns (r: Mask)
    requires forall t :: t in tokens ==> t < |mask|
    ensures |r| == |mask| && forall t: nat :: t < |mask| ==> (r[t] <==> mask[t] && t !in tokens)
  {
    r := mask;
    var todo := tokens;
    while todo != {}
      invariant todo <= tokens && |r| == |mask|
      invariant forall t: nat :: t < |mask| ==> (r[t] <==> mask[t] && (t !in tokens || t in todo))
      decreases |todo|
    {
      var t :| t in todo;
      r, todo := r[t := false], todo - {t};
    }
  }

  /** Keeps of the matcher's mask what the UTF-8 automaton can continue with. */
  method Intersect(c: TokenContract, utf8: Automaton, mask: Mask) returns (r: Mask)
    requires |mask| == |c.ordinary| && Sane(utf8.View())
    ensures |r| == |mask|
    ensures forall t: nat :: t < c.vocabularySize ==> (r[t] <==> mask[t] && ByteFits(c, utf8.View(), t))
  {
    if utf8.remaining > 0 {
      // Only continuation bytes can follow; ordinary pieces hold whole characters.
      r := seq(|mask|, _ => false);
      var byte := utf8.lower;
      while byte <= utf8.upper
        invariant utf8.lower <= byte <= utf8.upper + 1 && |r| == |mask|
        invariant forall t: nat :: t < c.vocabularySize ==> (r[t] <==> mask[t] && utf8.lower <= c.byteValues[t] < byte)
      {
        var id := c.byteIds[byte];
        if mask[id] { r := r[id := true]; }
        byte := byte + 1;
      }
    } else {
      r := ClearRange(c, mask, 0x80, 0xC1);
      r := ClearRange(c, r, 0xF5, 0xFF);
    }
  }

  method ClearRange(c: TokenContract, mask: Mask, first: Byte, last: Byte) returns (r: Mask)
    requires |mask| == |c.ordinary| && first <= last
    ensures |r| == |mask|
    ensures forall t: nat :: t < c.vocabularySize ==> (r[t] <==> mask[t] && !(first <= c.byteValues[t] <= last))
  {
    r := mask;
    var byte: int := first;
    while byte <= last
      invariant first <= byte <= last + 1 && |r| == |mask|
      invariant forall t: nat :: t < c.vocabularySize ==> (r[t] <==> mask[t] && !(first <= c.byteValues[t] < byte))
    {
      r := r[c.byteIds[byte] := false];
      byte := byte + 1;
    }
  }

  // ---------------------------------------------------------------------- states

  /** The states drafted tokens lead through; `None` once one is refused or ends the grammar. */
  function Drafted(c: TokenContract, g: Grammar, p: Progress, drafts: seq<Token>): Option<Progress>
    decreases |drafts|
  {
    if drafts == [] then (if g.ends(p.history) then None else Some(p))
    else Onward(c, g, Drafted(c, g, p, drafts[..|drafts| - 1]), drafts[|drafts| - 1])
  }

  /** One drafted token more. */
  function Onward(c: TokenContract, g: Grammar, p: Option<Progress>, token: Token): Option<Progress> {
    match p
    case None => None
    case Some(q) =>
      match Accepted(c, g, q, token)
      case None => None
      case Some(next) => if g.ends(next.history) then None else Some(next)
  }

  lemma DraftedStep(c: TokenContract, g: Grammar, p: Progress, drafts: seq<Token>, row: nat)
    requires row < |drafts|
    ensures Drafted(c, g, p, drafts[..row + 1]) == Onward(c, g, Drafted(c, g, p, drafts[..row]), drafts[row])
  {
    assert drafts[..row + 1][..row] == drafts[..row];
  }

  /** Row `row` of the look-ahead: the mask after that many drafts, or everything. */
  ghost predicate RowOk(c: TokenContract, g: Grammar, p: Progress, drafts: seq<Token>, row: nat, mask: Mask)
    requires row <= |drafts|
  {
    match Drafted(c, g, p, drafts[..row])
    case Some(q) => MaskOf(c, g, q, mask)
    case None => |mask| == |c.ordinary| && forall t :: 0 <= t < |mask| ==> mask[t]
  }

  class State {
    const contract: TokenContract
    const grammar: Grammar
    var phase: Phase
    var history: seq<Token>
    var grammarSteps: nat
    var utf8: Automaton

    function View(): Progress reads this, utf8 { Progress(phase, history, utf8.View()) }

    ghost predicate Valid() reads this, utf8 {
      Admissible(contract, grammar) && grammarSteps == |history| && Sane(utf8.View())
    }

    constructor (contract: TokenContract, grammar: Grammar, allowThinking: bool, initialReasoning: bool)
      requires Admissible(contract, grammar)
      ensures Valid() && this.contract == contract && this.grammar == grammar
      ensures View() == Progress(if initialReasoning then Thinking else if allowThinking then Begin
        else Answer, [], Idle)
    {
      this.contract, this.grammar := contract, grammar;
      phase := if initialReasoning then Thinking else if allowThinking then Begin else Answer;
      history, grammarSteps := [], 0;
      utf8 := new Automaton();
    }

    /** The mask holds exactly the tokens `Accept` would take. `ok` is false where the source throws:
        a terminated grammar, or a failing matcher. */
    method FillMask() returns (ok: bool, mask: Mask)
      requires Valid()
      ensures ok <==> !grammar.ends(history) && (phase == Thinking || !grammar.fails(history))
      ensures ok ==> MaskOf(contract, grammar, View(), mask)
    {
      mask := [];
      if grammar.ends(history) { return false, mask; }
      if phase == Thinking {
        mask := ClearSet(contract.ordinary, contract.stops);
        mask := mask[contract.toolStart := false][contract.toolEnd := false][contract.channelEnd := true];
        Agrees(mask);
        return true, mask;
      }
      if grammar.fails(history) { return false, mask; }
      var seen, matcher := history, grammar;
      mask := seq(|contract.ordinary|, t requires 0 <= t => matcher.allows(seen, t));
      mask := Intersect(contract, utf8, mask);
      if phase == Begin { mask := mask[contract.channelStart := true]; }
      Agrees(mask);
      return true, mask;
    }

    lemma Agrees(mask: Mask)
      requires Valid() && !grammar.ends(history) && |mask| == |contract.ordinary|
      requires forall t: nat :: t < contract.vocabularySize ==> (mask[t] <==> Shown(contract, grammar, View(), t))
      ensures MaskOf(contract, grammar, View(), mask)
    {
      forall t: Token | t < contract.vocabularySize ensures mask[t] <==> Accepted(contract, grammar, View(), t).Some? {
        MaskAgrees(contract, grammar, View(), t);
      }
    }

    method Accept(token: Token) returns (ok: bool)
      requires Valid()
      modifies this
      ensures Valid()
      ensures match Accepted(contract, grammar, old(View()), token)
        case Some(next) => ok && View() == next
        case None => !ok && View() == old(View()) && grammarSteps == old(grammarSteps)
      ensures old(history) <= history && |history| <= |old(history)| + 1
    {
      if token >= contract.vocabularySize || grammar.ends(history) { return false; }
      if phase == Thinking {
        if token == contract.channelEnd { phase := Answer; return true; }
        if token in contract.stops || token == contract.toolStart || token == contract.toolEnd { return false; }
        return contract.ordinary[token];
      }
      if phase == Begin && token == contract.channelStart { phase := Thinking; return true; }
      if token !in contract.constraintStops && !contract.ordinary[token] { return false; }
      var fits, next := Continue(token);
      if !fits { return false; }
      if !grammar.allows(history, token) { return false; }
      history := history + [token];
      utf8 := next;
      grammarSteps := grammarSteps + 1;
      phase := Answer;
      return true;
    }

    /** A copy of the automaton past the token's text, if the text fits. */
    method Continue(token: Token) returns (fits: bool, next: Automaton)
      requires token < contract.vocabularySize && Sane(utf8.View())
      ensures fits <==> ByteFits(contract, utf8.View(), token)
      ensures fits ==> next.View() == NextUtf8(contract, utf8.View(), token) && Sane(next.View())
    {
      next := new Automaton.CopyOf(utf8);
      var byte := contract.byteValues[token];
      if byte < 0 { return utf8.remaining == 0, next; }
      AcceptsSane(utf8.View(), [byte as Byte]);
      assert [byte as Byte][1..] == [];
      fits := next.Accept(byte as Byte);
    }

    /** Takes back the look-ahead. The matcher is asked for at most its rollback capacity. */
    method Rollback(saved: Progress, savedUtf8: Automaton)
      requires savedUtf8.View() == saved.utf8
      requires Valid() && saved.history <= history && Sane(saved.utf8)
        && |history| - |saved.history| <= contract.maxDepth + 1
      modifies this
      ensures Valid() && View() == saved
    {
      var count := grammarSteps - |saved.history|;
      history := history[..|history| - count];
      grammarSteps := |saved.history|;
      phase := saved.phase;
      utf8 := savedUtf8;
    }

    /** One mask per drafted token and one after them all. The committed state is restored,
        whether or not filling a mask failed. */
    method BlockMasks(drafts: seq<Token>) returns (ok: bool, masks: seq<Mask>)
      requires Valid()
      modifies this
      ensures Valid() && View() == old(View())
      ensures ok ==> |drafts| <= contract.maxDepth && |masks| == |drafts| + 1
      ensures ok ==> forall row: nat :: row <= |drafts| ==>
        RowOk(contract, grammar, old(View()), drafts, row, masks[row])
      ensures !ok <==> |drafts| > contract.maxDepth || exists row: nat :: FailsAt(old(View()), drafts, row)
    {
      masks := [];
      if |drafts| > contract.maxDepth { return false, masks; }
      ghost var start := View();
      var saved, savedUtf8 := View(), utf8;
      var reachable := !grammar.ends(history);
      var row := 0;
      assert drafts[..0] == [];
      while row <= |drafts|
        invariant 0 <= row <= |drafts| + 1 && |masks| == row && Valid() && start == saved
          && savedUtf8.View() == saved.utf8
        invariant saved.history <= history && |history| <= |saved.history| + row
        invariant row <= |drafts| ==>
          Drafted(contract, grammar, start, drafts[..row]) == if reachable then Some(View()) else None
        invariant RowsOk(start, drafts, masks)
      {
        var filled, mask := FillRow(reachable);
        if !filled {
          assert FailsAt(start, drafts, row);
          Rollback(saved, savedUtf8);
          return false, masks;
        }
        RowsMore(start, drafts, masks, mask);
        masks := masks + [mask];
        if row < |drafts| {
          DraftedStep(contract, grammar, start, drafts, row);
          reachable := Draft(reachable, drafts[row]);
        }
        row := row + 1;
      }
      Rollback(saved, savedUtf8);
      return true, masks;
    }

    /** The rows so far. */
    ghost predicate RowsOk(start: Progress, drafts: seq<Token>, masks: seq<Mask>) {
      |masks| <= |drafts| + 1 && forall r: nat :: r < |masks| ==>
        RowOk(contract, grammar, start, drafts, r, masks[r]) && !FailsAt(start, drafts, r)
    }

    lemma RowsMore(start: Progress, drafts: seq<Token>, masks: seq<Mask>, mask: Mask)
      requires RowsOk(start, drafts, masks) && |masks| <= |drafts|
      requires RowOk(contract, grammar, start, drafts, |masks|, mask) && !FailsAt(start, drafts, |masks|)
      ensures RowsOk(start, drafts, masks + [mask])
    {
    }

    /** The mask of one row: everything once the drafts cannot be reached. */
    method FillRow(reachable: bool) returns (ok: bool, mask: Mask)
      requires Valid() && (reachable ==> !grammar.ends(history))
      ensures ok <==> !(reachable && phase != Thinking && grammar.fails(history))
      ensures ok && reachable ==> MaskOf(contract, grammar, View(), mask)
      ensures ok && !reachable ==> |mask| == |contract.ordinary| && forall t :: 0 <= t < |mask| ==> mask[t]
    {
      if reachable { ok, mask := FillMask(); } else { ok, mask := true, seq(|contract.ordinary|, _ => true); }
    }

    /** Takes one draft in, if the drafts before it could be reached. */
    method Draft(reachable: bool, token: Token) returns (still: bool)
      requires Valid()
      modifies this
      ensures Valid() && old(history) <= history && |history| <= |old(history)| + 1
      ensures (if still then Some(View()) else None)
        == Onward(contract, grammar, if reachable then Some(old(View())) else None, token)
    {
      if !reachable { return false; }
      var taken := Accept(token);
      return taken && !grammar.ends(history);
    }

    /** Filling the mask after `row` drafts throws. */
    ghost predicate FailsAt(p: Progress, drafts: seq<Token>, row: nat) {
      row <= |drafts| && var q := Drafted(contract, grammar, p, drafts[..row]);
        q.Some? && q.value.phase != Thinking && grammar.fails(q.value.history)
    }
  }
}

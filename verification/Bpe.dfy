/** Byte-pair encoding. A queue of candidate pairs over a linked list, with stale candidates
    skipped, does the same as merging the lowest-rank, leftmost pair until none is left. */
module Bpe {
  import opened Utf8

  type Token = nat
  datatype Merge = Merge(rank: nat, token: Token)
  type Merges = map<(Token, Token), Merge>

  // ------------------------------------------------------------- the naive rule

  predicate Mergeable(m: Merges, ts: seq<Token>, i: nat) {
    i + 1 < |ts| && (ts[i], ts[i + 1]) in m
  }

  function RankAt(m: Merges, ts: seq<Token>, i: nat): nat
    requires Mergeable(m, ts, i)
  {
    m[(ts[i], ts[i + 1])].rank
  }

  predicate NoWorse(m: Merges, ts: seq<Token>, i: nat, j: nat)
    requires Mergeable(m, ts, i)
  {
    Mergeable(m, ts, j) ==> RankAt(m, ts, i) < RankAt(m, ts, j) || (RankAt(m, ts, i) == RankAt(m, ts, j) && i <= j)
  }

  /** The lowest-rank pair, leftmost among equals. */
  ghost predicate Best(m: Merges, ts: seq<Token>, i: nat) {
    Mergeable(m, ts, i) && forall j: nat :: NoWorse(m, ts, i, j)
  }

  function MergeAt(m: Merges, ts: seq<Token>, i: nat): (r: seq<Token>)
    requires Mergeable(m, ts, i)
    ensures |r| == |ts| - 1
  {
    ts[..i] + [m[(ts[i], ts[i + 1])].token] + ts[i + 2..]
  }

  /** The best of the pairs before position `n`. */
  lemma {:induction false} BestBefore(m: Merges, ts: seq<Token>, n: nat)
    requires exists i: nat :: i < n && Mergeable(m, ts, i)
    ensures exists i: nat :: i < n && Mergeable(m, ts, i) && forall j: nat :: j < n ==> NoWorse(m, ts, i, j)
    decreases n
  {
    if exists i: nat :: i < n - 1 && Mergeable(m, ts, i) {
      BestBefore(m, ts, n - 1);
      var i: nat :| i < n - 1 && Mergeable(m, ts, i) && forall j: nat :: j < n - 1 ==> NoWorse(m, ts, i, j);
      var k: nat := if Mergeable(m, ts, n - 1) && RankAt(m, ts, n - 1) < RankAt(m, ts, i) then n - 1 else i;
      forall j: nat | j < n ensures NoWorse(m, ts, k, j) {
        if j < n - 1 { assert NoWorse(m, ts, i, j); }
      }
    } else {
      var last: nat := n - 1;
      assert Mergeable(m, ts, last);
      forall j: nat | j < n ensures NoWorse(m, ts, last, j) {}
    }
  }

  lemma BestExists(m: Merges, ts: seq<Token>)
    requires exists i: nat :: Mergeable(m, ts, i)
    ensures exists i: nat :: Best(m, ts, i)
  {
    BestBefore(m, ts, |ts|);
    var i: nat :| i < |ts| && Mergeable(m, ts, i) && forall j: nat :: j < |ts| ==> NoWorse(m, ts, i, j);
    forall j: nat ensures NoWorse(m, ts, i, j) {}
    assert Best(m, ts, i);
  }

  lemma BestUnique(m: Merges, ts: seq<Token>, i: nat, j: nat)
    requires Best(m, ts, i) && Best(m, ts, j)
    ensures i == j
  {
    assert NoWorse(m, ts, i, j) && NoWorse(m, ts, j, i);
  }

  ghost function BestOf(m: Merges, ts: seq<Token>): (i: nat)
    requires exists i: nat :: Mergeable(m, ts, i)
    ensures Best(m, ts, i)
  {
    BestExists(m, ts);
    var i: nat :| Best(m, ts, i);
    i
  }

  /** Merge the best pair until no pair merges. */
  ghost function Naive(m: Merges, ts: seq<Token>): seq<Token>
    decreases |ts|
  {
    if exists i: nat :: Mergeable(m, ts, i) then Naive(m, MergeAt(m, ts, BestOf(m, ts))) else ts
  }

  lemma NaiveStep(m: Merges, ts: seq<Token>, i: nat)
    requires Best(m, ts, i)
    ensures Naive(m, ts) == Naive(m, MergeAt(m, ts, i))
  {
    BestUnique(m, ts, i, BestOf(m, ts));
  }

  lemma {:induction false} NaiveDone(m: Merges, ts: seq<Token>)
    ensures forall i: nat :: !Mergeable(m, Naive(m, ts), i)
    decreases |ts|
  {
    if exists i: nat :: Mergeable(m, ts, i) { NaiveDone(m, MergeAt(m, ts, BestOf(m, ts))); }
  }

  // ------------------------------------------------------------------- pieces

  /** Every merged token spells its two parts. */
  ghost predicate Spells(m: Merges, pieces: Token -> Bytes) {
    forall p :: p in m ==> pieces(m[p].token) == pieces(p.0) + pieces(p.1)
  }

  function Text(pieces: Token -> Bytes, ts: seq<Token>): Bytes {
    if ts == [] then [] else pieces(ts[0]) + Text(pieces, ts[1..])
  }

  lemma {:induction false} TextConcat(pieces: Token -> Bytes, a: seq<Token>, b: seq<Token>)
    ensures Text(pieces, a + b) == Text(pieces, a) + Text(pieces, b)
  {
    if a == [] {
      assert a + b == b;
    } else {
      assert (a + b)[1..] == a[1..] + b;
      TextConcat(pieces, a[1..], b);
    }
  }

  lemma TextOne(pieces: Token -> Bytes, t: Token)
    ensures Text(pieces, [t]) == pieces(t)
  {
    assert [t][1..] == [];
    assert Text(pieces, [t]) == pieces(t) + Text(pieces, []);
  }

  lemma MergeText(m: Merges, pieces: Token -> Bytes, ts: seq<Token>, i: nat)
    requires Spells(m, pieces) && Mergeable(m, ts, i)
    ensures Text(pieces, MergeAt(m, ts, i)) == Text(pieces, ts)
  {
    var a, b, c, d := ts[..i], [ts[i]], [ts[i + 1]], ts[i + 2..];
    var joined := [m[(ts[i], ts[i + 1])].token];
    assert ts == a + (b + (c + d)) && MergeAt(m, ts, i) == a + (joined + d);
    TextConcat(pieces, a, b + (c + d));
    TextConcat(pieces, b, c + d);
    TextConcat(pieces, c, d);
    TextConcat(pieces, a, joined + d);
    TextConcat(pieces, joined, d);
    TextOne(pieces, ts[i]);
    TextOne(pieces, ts[i + 1]);
    TextOne(pieces, joined[0]);
  }

  /** Merging never changes the concatenated pieces. */
  lemma {:induction false} NaiveText(m: Merges, pieces: Token -> Bytes, ts: seq<Token>)
    requires Spells(m, pieces)
    ensures Text(pieces, Naive(m, ts)) == Text(pieces, ts)
    decreases |ts|
  {
    if exists i: nat :: Mergeable(m, ts, i) {
      MergeText(m, pieces, ts, BestOf(m, ts));
      NaiveText(m, pieces, MergeAt(m, ts, BestOf(m, ts)));
    }
  }

  // -------------------------------------------------------------- the linked list

  /** Stands for "no symbol". */
  const Absent := -1

  datatype Symbol = Symbol(token: Token, previous: int, next: int, live: bool)

  /** Entry `j` of the chain of live symbols. */
  predicate LinkAt(symbols: seq<Symbol>, chain: seq<nat>, j: nat) {
    j < |chain| ==>
      && chain[j] < |symbols|
      && symbols[chain[j]].live
      && symbols[chain[j]].next == (if j + 1 < |chain| then chain[j + 1] else Absent)
      && symbols[chain[j]].previous == (if j > 0 then chain[j - 1] else Absent)
  }

  predicate OrderAt(chain: seq<nat>, i: nat, j: nat) { i < j < |chain| ==> chain[i] < chain[j] }

  predicate LiveAt(symbols: seq<Symbol>, chain: seq<nat>, i: nat) { i < |symbols| && symbols[i].live ==> i in chain }

  /** The live symbols, first to last, are linked both ways. */
  ghost predicate Linked(symbols: seq<Symbol>, chain: seq<nat>) {
    && chain != [] && chain[0] == 0
    && (forall j: nat :: LinkAt(symbols, chain, j))
    && (forall i: nat, j: nat :: OrderAt(chain, i, j))
    && (forall i: nat :: LiveAt(symbols, chain, i))
  }

  function TokenAt(symbols: seq<Symbol>, i: nat): Token { if i < |symbols| then symbols[i].token else 0 }

  function Tokens(symbols: seq<Symbol>, chain: seq<nat>): (r: seq<Token>)
    ensures |r| == |chain| && forall j :: 0 <= j < |r| ==> r[j] == TokenAt(symbols, chain[j])
  {
    seq(|chain|, j requires 0 <= j < |chain| => TokenAt(symbols, chain[j]))
  }

  // ------------------------------------------------------------------ candidates

  datatype Candidate = Candidate(rank: nat, token: Token, leftToken: Token, rightToken: Token, left: nat, right: nat)

  predicate Sooner(c: Candidate, d: Candidate) { c.rank < d.rank || (c.rank == d.rank && c.left < d.left) }

  predicate CandidateOk(m: Merges, n: nat, c: Candidate) {
    && c.left < c.right < n && (c.leftToken, c.rightToken) in m
    && m[(c.leftToken, c.rightToken)] == Merge(c.rank, c.token)
  }

  ghost predicate Candidates(m: Merges, n: nat, queue: multiset<Candidate>) {
    forall c :: c in queue ==> CandidateOk(m, n, c)
  }

  function Current(m: Merges, symbols: seq<Symbol>, left: nat, right: nat): Candidate
    requires left < |symbols| && right < |symbols| && (symbols[left].token, symbols[right].token) in m
  {
    var merge := m[(symbols[left].token, symbols[right].token)];
    Candidate(merge.rank, merge.token, symbols[left].token, symbols[right].token, left, right)
  }

  /** The pair at chain position `j`, if it merges, is waiting in the queue. */
  predicate WaitingAt(m: Merges, symbols: seq<Symbol>, chain: seq<nat>, queue: multiset<Candidate>, j: nat) {
    j + 1 < |chain| && chain[j] < |symbols| && chain[j + 1] < |symbols|
    && (symbols[chain[j]].token, symbols[chain[j + 1]].token) in m ==>
      Current(m, symbols, chain[j], chain[j + 1]) in queue
  }

  ghost predicate Waiting(m: Merges, symbols: seq<Symbol>, chain: seq<nat>, queue: multiset<Candidate>) {
    forall j: nat :: WaitingAt(m, symbols, chain, queue, j)
  }

  ghost predicate Soonest(queue: multiset<Candidate>, c: Candidate) {
    c in queue && forall d :: d in queue ==> !Sooner(d, c)
  }

  lemma {:induction false} SoonestExists(queue: multiset<Candidate>)
    requires queue != multiset{}
    ensures exists c :: Soonest(queue, c)
    decreases |queue|
  {
    var c :| c in queue;
    var rest := queue - multiset{c};
    assert queue == rest + multiset{c};
    if rest == multiset{} {
      assert Soonest(queue, c);
    } else {
      SoonestExists(rest);
      var b :| Soonest(rest, b);
      var best := if Sooner(c, b) then c else b;
      forall d | d in queue ensures !Sooner(d, best) {
        assert d == c || d in rest;
      }
      assert Soonest(queue, best);
    }
  }

  /** Takes a candidate with no sooner one; any such candidate may be taken. */
  method Pop(queue: multiset<Candidate>) returns (item: Candidate, rest: multiset<Candidate>)
    requires queue != multiset{}
    ensures item in queue && rest == queue - multiset{item} && |rest| == |queue| - 1
    ensures forall d :: d in queue ==> !Sooner(d, item)
  {
    SoonestExists(queue);
    ghost var soonest :| Soonest(queue, soonest);
    item :| item in queue && forall d :: d in queue ==> !Sooner(d, item);
    rest := queue - multiset{item};
  }

  // ------------------------------------------------------------------ one merge

  predicate Fresh(symbols: seq<Symbol>, item: Candidate) {
    && item.left < |symbols| && item.right < |symbols|
    && symbols[item.left].live && symbols[item.right].live && symbols[item.left].next == item.right
    && symbols[item.left].token == item.leftToken && symbols[item.right].token == item.rightToken
  }

  /** A candidate that passes the staleness test is a pair of neighbours. */
  lemma FreshAt(m: Merges, symbols: seq<Symbol>, chain: seq<nat>, item: Candidate) returns (j: nat)
    requires Linked(symbols, chain) && Fresh(symbols, item)
    ensures j + 1 < |chain| && chain[j] == item.left && chain[j + 1] == item.right
  {
    assert LiveAt(symbols, chain, item.left);
    j :| 0 <= j < |chain| && chain[j] == item.left;
    assert LinkAt(symbols, chain, j);
  }

  /** The first candidate of the queue, when not stale, is the best pair. */
  lemma FreshIsBest(m: Merges, symbols: seq<Symbol>, chain: seq<nat>, queue: multiset<Candidate>, item: Candidate,
      j: nat)
    requires Linked(symbols, chain) && Waiting(m, symbols, chain, queue) && CandidateOk(m, |symbols|, item)
    requires Fresh(symbols, item) && (forall d :: d in queue ==> !Sooner(d, item))
    requires j + 1 < |chain| && chain[j] == item.left && chain[j + 1] == item.right
    ensures Best(m, Tokens(symbols, chain), j)
  {
    var ts := Tokens(symbols, chain);
    assert Mergeable(m, ts, j);
    forall k: nat ensures NoWorse(m, ts, j, k) {
      if Mergeable(m, ts, k) {
        assert LinkAt(symbols, chain, k) && LinkAt(symbols, chain, k + 1) && WaitingAt(m, symbols, chain, queue, k);
        assert !Sooner(Current(m, symbols, chain[k], chain[k + 1]), item);
        assert OrderAt(chain, k, j);
      }
    }
  }

  function Shortened(chain: seq<nat>, j: nat): seq<nat>
    requires j + 1 < |chain|
  {
    chain[..j + 1] + chain[j + 2..]
  }

  /** The list after the merge at chain position `j`. */
  ghost predicate Merged(symbols: seq<Symbol>, symbols': seq<Symbol>, chain: seq<nat>, j: nat, token: Token) {
    j + 1 < |chain| && chain[j] < |symbols| && chain[j + 1] < |symbols| && |symbols'| == |symbols|
    && var l, r := chain[j], chain[j + 1];
      && symbols'[l] == symbols[l].(token := token, next := symbols[r].next)
      && symbols'[r] == symbols[r].(live := false)
      && (j + 2 < |chain| && chain[j + 2] < |symbols| ==>
         symbols'[chain[j + 2]] == symbols[chain[j + 2]].(previous := l))
      && forall i :: 0 <= i < |symbols| && i != l && i != r && !(j + 2 < |chain| && i == chain[j + 2]) ==>
         symbols'[i] == symbols[i]
  }

  lemma ShortenedAt(chain: seq<nat>, j: nat, k: nat)
    requires j + 1 < |chain| && k < |chain| - 1
    ensures |Shortened(chain, j)| == |chain| - 1
    ensures Shortened(chain, j)[k] == if k <= j then chain[k] else chain[k + 1]
  {
  }

  /** Entries of the chain other than `j` are other symbols. */
  lemma Apart(chain: seq<nat>, j: nat, k: nat)
    requires (forall a: nat, b: nat :: OrderAt(chain, a, b)) && j < |chain| && k < |chain| && j != k
    ensures chain[j] != chain[k]
  {
    assert OrderAt(chain, j, k) && OrderAt(chain, k, j);
  }

  lemma MergedLinkAt(symbols: seq<Symbol>, symbols': seq<Symbol>, chain: seq<nat>, j: nat, token: Token, k: nat)
    requires Linked(symbols, chain) && Merged(symbols, symbols', chain, j, token) && k < |chain| - 1
    ensures LinkAt(symbols', Shortened(chain, j), k)
    ensures TokenAt(symbols', Shortened(chain, j)[k]) == if k == j then token
      else TokenAt(symbols, Shortened(chain, j)[k])
  {
    var old_k := if k <= j then k else k + 1;
    ShortenedAt(chain, j, k);
    if k > 0 { ShortenedAt(chain, j, k - 1); }
    if k + 1 < |chain| - 1 { ShortenedAt(chain, j, k + 1); }
    assert LinkAt(symbols, chain, old_k) && LinkAt(symbols, chain, j) && LinkAt(symbols, chain, j + 1);
    if j + 2 < |chain| { assert LinkAt(symbols, chain, j + 2); }
    if old_k != j { Apart(chain, old_k, j); }
    Apart(chain, old_k, j + 1);
    if j + 2 < |chain| && old_k != j + 2 { Apart(chain, old_k, j + 2); }
    if j + 2 < |chain| { Apart(chain, j + 1, j + 2); }
  }

  lemma MergedLinked(m: Merges, symbols: seq<Symbol>, symbols': seq<Symbol>, chain: seq<nat>, j: nat, token: Token)
    requires Linked(symbols, chain) && Merged(symbols, symbols', chain, j, token)
    ensures Linked(symbols', Shortened(chain, j))
    ensures Tokens(symbols', Shortened(chain, j))
      == Tokens(symbols, chain)[..j] + [token] + Tokens(symbols, chain)[j + 2..]
  {
    var chain' := Shortened(chain, j);
    forall k: nat ensures LinkAt(symbols', chain', k) {
      if k < |chain'| { MergedLinkAt(symbols, symbols', chain, j, token, k); }
    }
    forall a: nat, b: nat ensures OrderAt(chain', a, b) {
      if a < b < |chain'| {
        ShortenedAt(chain, j, a);
        ShortenedAt(chain, j, b);
        assert OrderAt(chain, if a <= j then a else a + 1, if b <= j then b else b + 1);
      }
    }
    forall i: nat ensures LiveAt(symbols', chain', i) { MergedLive(symbols, symbols', chain, j, token, i); }
    MergedTokens(symbols, symbols', chain, j, token);
  }

  lemma MergedLive(symbols: seq<Symbol>, symbols': seq<Symbol>, chain: seq<nat>, j: nat, token: Token, i: nat)
    requires Linked(symbols, chain) && Merged(symbols, symbols', chain, j, token)
    ensures LiveAt(symbols', Shortened(chain, j), i)
  {
    if i < |symbols'| && symbols'[i].live {
      assert LinkAt(symbols, chain, j) && LiveAt(symbols, chain, i);
      if j + 2 < |chain| { assert LinkAt(symbols, chain, j + 2); }
      var k: nat :| k < |chain| && chain[k] == i;
      assert k != j + 1;
      var k' := if k <= j then k else k - 1;
      ShortenedAt(chain, j, k');
      assert Shortened(chain, j)[k'] == i;
    }
  }

  lemma MergedTokens(symbols: seq<Symbol>, symbols': seq<Symbol>, chain: seq<nat>, j: nat, token: Token)
    requires Linked(symbols, chain) && Merged(symbols, symbols', chain, j, token)
    ensures Tokens(symbols', Shortened(chain, j))
      == Tokens(symbols, chain)[..j] + [token] + Tokens(symbols, chain)[j + 2..]
  {
    var ts, ts' := Tokens(symbols, chain), Tokens(symbols', Shortened(chain, j));
    forall k: nat | k < |chain| - 1 ensures ts'[k] == (ts[..j] + [token] + ts[j + 2..])[k] {
      ShortenedAt(chain, j, k);
      MergedLinkAt(symbols, symbols', chain, j, token, k);
    }
  }

  /** What offering the pair that starts at `left` adds to the queue. */
  function Offered(m: Merges, symbols: seq<Symbol>, queue: multiset<Candidate>, left: int): multiset<Candidate> {
    if 0 <= left < |symbols| && 0 <= symbols[left].next < |symbols|
       && (symbols[left].token, symbols[symbols[left].next].token) in m
    then queue + multiset{Current(m, symbols, left, symbols[left].next)}
    else queue
  }

  /** After a merge only the pairs around it are new; offering both restores the queue. */
  lemma MergedWaiting(m: Merges, symbols: seq<Symbol>, symbols': seq<Symbol>, chain: seq<nat>, j: nat, token: Token,
      queue: multiset<Candidate>, item: Candidate, k: nat)
    requires Linked(symbols, chain) && Merged(symbols, symbols', chain, j, token)
      && Linked(symbols', Shortened(chain, j))
    requires Waiting(m, symbols, chain, queue) && item.left == chain[j]
    ensures var offered := Offered(m, symbols',
      Offered(m, symbols', queue - multiset{item}, symbols'[chain[j]].previous), chain[j]);
      WaitingAt(m, symbols', Shortened(chain, j), offered, k)
  {
    var chain' := Shortened(chain, j);
    if k + 1 < |chain'| {
      ShortenedAt(chain, j, k);
      ShortenedAt(chain, j, k + 1);
      assert LinkAt(symbols', chain', k) && LinkAt(symbols', chain', k + 1) && LinkAt(symbols', chain', j);
      if k + 1 == j || k == j {
        if k + 1 == j { assert symbols'[chain[j]].previous == chain'[k]; }
      } else {
        var old_k := if k <= j then k else k + 1;
        MergedLinkAt(symbols, symbols', chain, j, token, k);
        MergedLinkAt(symbols, symbols', chain, j, token, k + 1);
        assert LinkAt(symbols, chain, old_k) && LinkAt(symbols, chain, old_k + 1);
        assert WaitingAt(m, symbols, chain, queue, old_k);
        Apart(chain, old_k, j);
      }
    }
  }

  /** Dropping a stale candidate loses no waiting pair. */
  lemma StaleWaiting(m: Merges, symbols: seq<Symbol>, chain: seq<nat>, queue: multiset<Candidate>, item: Candidate)
    requires Linked(symbols, chain) && Waiting(m, symbols, chain, queue) && !Fresh(symbols, item)
    ensures Waiting(m, symbols, chain, queue - multiset{item})
  {
    forall j: nat ensures WaitingAt(m, symbols, chain, queue - multiset{item}, j) {
      assert WaitingAt(m, symbols, chain, queue, j) && LinkAt(symbols, chain, j) && LinkAt(symbols, chain, j + 1);
    }
  }

  lemma OfferedOk(m: Merges, symbols: seq<Symbol>, chain: seq<nat>, queue: multiset<Candidate>, left: int)
    requires Linked(symbols, chain) && Candidates(m, |symbols|, queue) && (left == Absent || left in chain)
    ensures Candidates(m, |symbols|, Offered(m, symbols, queue, left))
    ensures |Offered(m, symbols, queue, left)| <= |queue| + 1
  {
    if left in chain {
      var j: nat :| j < |chain| && chain[j] == left;
      assert LinkAt(symbols, chain, j) && OrderAt(chain, j, j + 1);
    }
  }

  // -------------------------------------------------------------------- the loop

  method Offer(m: Merges, symbols: array<Symbol>, queue: multiset<Candidate>, left: int)
      returns (r: multiset<Candidate>)
    requires left == Absent || (0 <= left < symbols.Length && Absent <= symbols[left].next < symbols.Length)
    ensures r == Offered(m, symbols[..], queue, left)
  {
    if left == Absent || symbols[left].next == Absent { return queue; }
    var right := symbols[left].next;
    var pair := (symbols[left].token, symbols[right].token);
    if pair !in m { return queue; }
    return queue + multiset{Candidate(m[pair].rank, m[pair].token, symbols[left].token, symbols[right].token, left,
        right)};
  }

  /** The list after the first `n` of `tokens` are appended. */
  ghost predicate Built(symbols: seq<Symbol>, tokens: seq<Token>, n: nat) {
    n <= |tokens| && |symbols| == |tokens|
    && forall i: nat :: i < n ==>
      symbols[i] == Symbol(tokens[i], if i > 0 then i - 1 else Absent, if i + 1 < n then i + 1 else Absent, true)
  }

  method BuildSymbols(tokens: seq<Token>) returns (symbols: array<Symbol>)
    ensures fresh(symbols) && Built(symbols[..], tokens, |tokens|)
  {
    symbols := new Symbol[|tokens|](_ => Symbol(0, Absent, Absent, false));
    for index := 0 to |tokens|
      invariant Built(symbols[..], tokens, index)
    {
      if index > 0 { symbols[index - 1] := symbols[index - 1].(next := index); }
      symbols[index] := Symbol(tokens[index], if index > 0 then index - 1 else Absent, Absent, true);
    }
  }

  function Upto(n: nat): (r: seq<nat>) ensures |r| == n && forall i :: 0 <= i < n ==> r[i] == i { seq(n, i => i) }

  lemma BuiltLinked(symbols: seq<Symbol>, tokens: seq<Token>)
    requires Built(symbols, tokens, |tokens|) && tokens != []
    ensures Linked(symbols, Upto(|tokens|)) && Tokens(symbols, Upto(|tokens|)) == tokens
  {
    var chain := Upto(|tokens|);
    forall i: nat ensures LiveAt(symbols, chain, i) { if i < |symbols| { assert chain[i] == i; } }
  }

  /** The pairs that start before `n` are waiting. */
  ghost predicate WaitingBefore(m: Merges, symbols: seq<Symbol>, chain: seq<nat>, queue: multiset<Candidate>, n: nat) {
    forall j: nat :: j < n ==> WaitingAt(m, symbols, chain, queue, j)
  }

  method OfferAll(m: Merges, symbols: array<Symbol>, tokens: seq<Token>) returns (queue: multiset<Candidate>)
    requires tokens != [] && Built(symbols[..], tokens, |tokens|)
    ensures Candidates(m, symbols.Length, queue) && |queue| <= |tokens| - 1
    ensures Waiting(m, symbols[..], Upto(|tokens|), queue)
  {
    queue := multiset{};
    ghost var chain := Upto(|tokens|);
    BuiltLinked(symbols[..], tokens);
    var index := 0;
    while index + 1 < symbols.Length
      invariant 0 <= index <= |tokens| - 1
      invariant Candidates(m, symbols.Length, queue) && |queue| <= index
      invariant WaitingBefore(m, symbols[..], chain, queue, index)
    {
      assert LinkAt(symbols[..], chain, index) && chain[index] == index;
      OfferedOk(m, symbols[..], chain, queue, index);
      ghost var before := queue;
      queue := Offer(m, symbols, queue, index);
      forall j: nat | j < index + 1 ensures WaitingAt(m, symbols[..], chain, queue, j) {
        assert j < index ==> WaitingAt(m, symbols[..], chain, before, j);
      }
      index := index + 1;
    }
    forall j: nat ensures WaitingAt(m, symbols[..], chain, queue, j) {}
  }

  /** Everything the merge loop keeps. */
  ghost predicate Merging(m: Merges, symbols: seq<Symbol>, chain: seq<nat>, queue: multiset<Candidate>,
      tokens: seq<Token>) {
    && Linked(symbols, chain) && Candidates(m, |symbols|, queue) && Waiting(m, symbols, chain, queue)
    && Naive(m, Tokens(symbols, chain)) == Naive(m, tokens)
  }

  method MergePair(symbols: array<Symbol>, ghost chain: seq<nat>, ghost j: nat, item: Candidate)
    requires Linked(symbols[..], chain) && Fresh(symbols[..], item)
    requires j + 1 < |chain| && chain[j] == item.left && chain[j + 1] == item.right
    modifies symbols
    ensures Merged(old(symbols[..]), symbols[..], chain, j, item.token)
  {
    assert LinkAt(symbols[..], chain, j) && LinkAt(symbols[..], chain, j + 1);
    if j + 2 < |chain| { assert LinkAt(symbols[..], chain, j + 2); Apart(chain, j, j + 2); Apart(chain, j + 1, j + 2); }
    Apart(chain, j, j + 1);
    var next := symbols[item.right].next;
    symbols[item.left] := symbols[item.left].(token := item.token, next := next);
    symbols[item.right] := symbols[item.right].(live := false);
    if next != Absent { symbols[next] := symbols[next].(previous := item.left); }
  }

  lemma MergingStep(m: Merges, symbols: seq<Symbol>, symbols': seq<Symbol>, chain: seq<nat>, j: nat,
      queue: multiset<Candidate>, item: Candidate, tokens: seq<Token>)
    requires Merging(m, symbols, chain, queue, tokens)
    requires item in queue && (forall d :: d in queue ==> !Sooner(d, item)) && Fresh(symbols, item)
    requires j + 1 < |chain| && chain[j] == item.left && chain[j + 1] == item.right
    requires Merged(symbols, symbols', chain, j, item.token)
    ensures var offered := Offered(m, symbols',
      Offered(m, symbols', queue - multiset{item}, symbols'[item.left].previous), item.left);
      Merging(m, symbols', Shortened(chain, j), offered, tokens) && |offered| <= |queue| + 1
  {
    var chain' := Shortened(chain, j);
    var rest := queue - multiset{item};
    var previous := symbols'[item.left].previous;
    FreshIsBest(m, symbols, chain, queue, item, j);
    NaiveStep(m, Tokens(symbols, chain), j);
    MergedLinked(m, symbols, symbols', chain, j, item.token);
    assert Tokens(symbols', chain') == MergeAt(m, Tokens(symbols, chain), j);
    ShortenedAt(chain, j, j);
    assert LinkAt(symbols', chain', j);
    if j > 0 { ShortenedAt(chain, j, j - 1); }
    OfferedOk(m, symbols', chain', rest, previous);
    OfferedOk(m, symbols', chain', Offered(m, symbols', rest, previous), item.left);
    forall k: nat ensures WaitingAt(m, symbols', chain',
        Offered(m, symbols', Offered(m, symbols', rest, previous), item.left), k) {
      MergedWaiting(m, symbols, symbols', chain, j, item.token, queue, item, k);
    }
  }

  /** One real merge: rewrites the pair and offers its two new neighbours. */
  method MergeFresh(m: Merges, symbols: array<Symbol>, ghost chain: seq<nat>, ghost all: multiset<Candidate>,
      rest: multiset<Candidate>, item: Candidate, ghost tokens: seq<Token>)
    returns (queue: multiset<Candidate>, ghost chain': seq<nat>)
    requires Merging(m, symbols[..], chain, all, tokens) && Fresh(symbols[..], item)
    requires item in all && rest == all - multiset{item} && (forall d :: d in all ==> !Sooner(d, item))
    modifies symbols
    ensures Merging(m, symbols[..], chain', queue, tokens) && |chain'| == |chain| - 1 && |queue| <= |all| + 1
  {
    ghost var before := symbols[..];
    ghost var j := FreshAt(m, before, chain, item);
    MergePair(symbols, chain, j, item);
    MergingStep(m, before, symbols[..], chain, j, all, item, tokens);
    MergedLinked(m, before, symbols[..], chain, j, item.token);
    chain' := Shortened(chain, j);
    ShortenedAt(chain, j, j);
    if j > 0 { ShortenedAt(chain, j, j - 1); assert LinkAt(symbols[..], chain', j - 1); }
    assert LinkAt(symbols[..], chain', j);
    if j + 1 < |chain'| { assert LinkAt(symbols[..], chain', j + 1); }
    queue := Offer(m, symbols, rest, symbols[item.left].previous);
    queue := Offer(m, symbols, queue, item.left);
  }

  lemma DrainedDone(m: Merges, symbols: seq<Symbol>, chain: seq<nat>, tokens: seq<Token>)
    requires Merging(m, symbols, chain, multiset{}, tokens)
    ensures Tokens(symbols, chain) == Naive(m, tokens)
  {
    var ts := Tokens(symbols, chain);
    forall j: nat ensures !Mergeable(m, ts, j) {
      assert WaitingAt(m, symbols, chain, multiset{}, j) && LinkAt(symbols, chain, j) && LinkAt(symbols, chain, j + 1);
    }
  }

  /** The queue-driven loop computes the naive merge, popping at most three candidates per
      symbol it could lose. */
  method MergeAll(m: Merges, tokens: seq<Token>) returns (output: seq<Token>, ghost pops: nat)
    requires tokens != []
    ensures output == Naive(m, tokens)
    ensures pops <= 3 * (|tokens| - 1)
  {
    var symbols := BuildSymbols(tokens);
    var queue := OfferAll(m, symbols, tokens);
    ghost var chain := Upto(|tokens|);
    BuiltLinked(symbols[..], tokens);
    pops := 0;
    while queue != multiset{}
      invariant Merging(m, symbols[..], chain, queue, tokens) && |chain| <= |tokens|
      invariant pops + |queue| + 2 * (|chain| - 1) <= 3 * (|tokens| - 1)
      decreases |queue| + 3 * |chain|
    {
      ghost var before, all := symbols[..], queue;
      var item;
      item, queue := Pop(queue);
      pops := pops + 1;
      assert CandidateOk(m, symbols.Length, item);
      if !symbols[item.left].live || !symbols[item.right].live || symbols[item.left].next != item.right
         || symbols[item.left].token != item.leftToken || symbols[item.right].token != item.rightToken {
        StaleWaiting(m, before, chain, all, item);
        continue;
      }
      queue, chain := MergeFresh(m, symbols, chain, all, queue, item, tokens);
    }
    DrainedDone(m, symbols[..], chain, tokens);
    output := Collect(symbols, chain);
  }

  method Collect(symbols: array<Symbol>, ghost chain: seq<nat>) returns (output: seq<Token>)
    requires Linked(symbols[..], chain)
    ensures output == Tokens(symbols[..], chain)
  {
    output := [];
    var index: int := 0;
    ghost var j := 0;
    while index != Absent
      invariant 0 <= j <= |chain|
      invariant index == if j < |chain| then chain[j] else Absent
      invariant output == Tokens(symbols[..], chain)[..j]
      decreases |chain| - j
    {
      assert LinkAt(symbols[..], chain, j);
      output := output + [symbols[index].token];
      index := symbols[index].next;
      j := j + 1;
    }
  }
}

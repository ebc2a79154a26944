/** Token positions and the fixed-size pages that hold them. */
module PageMath {

  /** The page that holds token position `token`: the quotient by `pt`. Stated by counting up,
      so that proofs about page tables stay free of division; see `QuotientRemainder`. */
  function PageOf(token: nat, pt: nat): nat
    requires pt > 0
  {
    if token < pt then 0 else 1 + PageOf(token - pt, pt)
  }

  /** The place of position `token` within its page: the remainder by `pt`. */
  function InPage(token: nat, pt: nat): nat
    requires pt > 0
  {
    if token < pt then token else InPage(token - pt, pt)
  }

  lemma {:induction false} QuotientRemainder(token: nat, pt: nat)
    requires pt > 0
    ensures PageOf(token, pt) == token / pt && InPage(token, pt) == token % pt
  {
    if token >= pt {
      QuotientRemainder(token - pt, pt);
      StepDown(token - pt, pt);
    } else {
      SmallQuotient(token, pt);
    }
  }

  lemma SmallQuotient(token: nat, pt: nat)
    requires token < pt
    ensures token / pt == 0 && token % pt == token
  {
  }

  lemma StepDown(token: nat, pt: nat)
    requires pt > 0
    ensures (token + pt) / pt == token / pt + 1 && (token + pt) % pt == token % pt
  {
    var q, r := token / pt, token % pt;
    assert token + pt == (q + 1) * pt + r;
    var q', r' := (token + pt) / pt, (token + pt) % pt;
    assert (q' - (q + 1)) * pt == r - r';
    if q' > q + 1 {
      MulLe(1, q' - (q + 1), pt);
    } else if q' < q + 1 {
      MulLe(1, q + 1 - q', pt);
    }
  }

  /** Number of pages of `pt` tokens that cover `tokens` tokens. */
  function PageCount(tokens: nat, pt: nat): nat
    requires pt > 0
  {
    if tokens == 0 then 0 else PageOf(tokens - 1, pt) + 1
  }

  /** The first token position of page `i`. */
  function FirstToken(i: nat, pt: nat): (token: nat)
    ensures token == i * pt
  {
    i * pt
  }

  /** How many of the tokens `0..tokens` lie in page `i`. */
  function Filled(tokens: nat, i: nat, pt: nat): nat {
    if tokens <= i * pt then 0 else if tokens >= i * pt + pt then pt else tokens - i * pt
  }

  lemma MulLe(x: nat, y: nat, pt: nat)
    requires x <= y
    ensures x * pt <= y * pt
  {
    assert y * pt == x * pt + (y - x) * pt;
  }

  lemma {:induction false} PageOfIff(x: nat, i: nat, pt: nat)
    requires pt > 0
    ensures i <= PageOf(x, pt) <==> i * pt <= x
    ensures x == PageOf(x, pt) * pt + InPage(x, pt) && InPage(x, pt) < pt
    decreases x
  {
    if x < pt {
      if i > 0 { MulLe(1, i, pt); }
    } else {
      if i > 0 {
        PageOfIff(x - pt, i - 1, pt);
        assert (i - 1) * pt == i * pt - pt;
      } else {
        PageOfIff(x - pt, 0, pt);
      }
      assert PageOf(x, pt) * pt == PageOf(x - pt, pt) * pt + pt;
    }
  }

  /** Page `i` is among the pages of `tokens` exactly when it holds some of them. */
  lemma PageCountIff(tokens: nat, i: nat, pt: nat)
    requires pt > 0
    ensures i < PageCount(tokens, pt) <==> i * pt < tokens
  {
    if tokens > 0 {
      PageOfIff(tokens - 1, i, pt);
    } else {
      MulLe(0, i, pt);
    }
  }

  lemma PageCountMonotone(x: nat, y: nat, pt: nat)
    requires pt > 0 && x <= y
    ensures PageCount(x, pt) <= PageCount(y, pt)
  {
    if PageCount(x, pt) > 0 {
      PageCountIff(x, PageCount(x, pt) - 1, pt);
      PageCountIff(y, PageCount(x, pt) - 1, pt);
    }
  }

  lemma PageOfMonotone(x: nat, y: nat, pt: nat)
    requires pt > 0 && x <= y
    ensures PageOf(x, pt) <= PageOf(y, pt)
  {
    PageOfIff(x, PageOf(x, pt), pt);
    PageOfIff(y, PageOf(x, pt), pt);
  }

  lemma PageCountIs(tokens: nat, n: nat, pt: nat)
    requires pt > 0 && tokens <= n * pt && (n > 0 ==> (n - 1) * pt < tokens)
    ensures PageCount(tokens, pt) == n
  {
    PageCountIff(tokens, n, pt);
    if n > 0 { PageCountIff(tokens, n - 1, pt); }
  }

  lemma Distribute(q: nat, pt: nat)
    ensures (q + 1) * pt == q * pt + pt
  {
  }

  /** The page of the next token: the last one if it is partly filled, else a new one. */
  lemma NextPage(tokens: nat, pt: nat)
    requires pt > 0
    ensures InPage(tokens, pt) == 0 ==> PageCount(tokens, pt) == PageOf(tokens, pt) && PageOf(tokens, pt) * pt == tokens
    ensures InPage(tokens, pt) != 0 ==>
      PageCount(tokens, pt) == PageOf(tokens, pt) + 1 && PageOf(tokens, pt) * pt < tokens
    ensures tokens < PageOf(tokens, pt) * pt + pt
  {
    var q := PageOf(tokens, pt);
    PageOfIff(tokens, q, pt);
    Distribute(q, pt);
    if InPage(tokens, pt) == 0 {
      if q > 0 { Distribute(q - 1, pt); }
      PageCountIs(tokens, q, pt);
    } else {
      PageCountIs(tokens, q + 1, pt);
    }
  }
}

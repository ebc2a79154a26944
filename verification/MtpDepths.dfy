/** Speculative draft depths. A greedy choice over per-request survival probabilities; it is
    the unique one its rules allow, and no other choice within the budget survives better. */
module MtpDepths {

  /** `survival[k]` is the probability that more than `k` drafted tokens are accepted; no
      probabilities at all means the probes were unavailable. */
  datatype Prediction = Prediction(minimum: nat, maximum: nat, survival: seq<real>)

  ghost predicate Ordered(p: Prediction) {
    && p.minimum <= p.maximum && (p.survival == [] || p.maximum <= |p.survival|)
    && (forall k :: 0 <= k < |p.survival| ==> 0.0 <= p.survival[k] <= 1.0)
    && (forall j, k :: 0 <= j <= k < |p.survival| ==> p.survival[k] <= p.survival[j])
  }

  ghost predicate AllOrdered(ps: seq<Prediction>) { forall i :: 0 <= i < |ps| ==> Ordered(ps[i]) }

  function Min(x: nat, y: nat): nat { if x < y then x else y }
  function Max(x: nat, y: nat): nat { if x < y then y else x }
  function Clamp(x: nat, lo: nat, hi: nat): nat { if x < lo then lo else if hi < x then hi else x }

  /** The deepest row `p` may go under a cap. */
  function Deepest(p: Prediction, cap: nat): nat { Max(p.minimum, Min(cap, p.maximum)) }

  function Share(width: nat, n: nat): nat
    requires n > 0
  {
    if width / n > 0 then width / n - 1 else 0
  }

  /** The depth of a row without probabilities. */
  function Blind(p: Prediction, width: nat, n: nat, cap: nat): nat
    requires n > 0
  {
    if width > 0 then Clamp(Share(width, n), p.minimum, Deepest(p, cap)) else Deepest(p, cap)
  }

  function Total(depths: seq<nat>): nat {
    if depths == [] then 0 else depths[|depths| - 1] + Total(depths[..|depths| - 1])
  }

  /** Rows of a batch verified together: one pending token and the drafts of each request. */
  function Used(depths: seq<nat>): nat { |depths| + Total(depths) }

  // -------------------------------------------------------------- what is chosen

  /** Where every row starts before anything is drafted beyond the forced minimum. */
  function Base(p: Prediction, width: nat, n: nat, cap: nat): nat
    requires n > 0
  {
    if p.survival == [] then Blind(p, width, n, cap) else p.minimum
  }

  function Bases(ps: seq<Prediction>, width: nat, cap: nat): (r: seq<nat>)
    ensures |r| == |ps|
  {
    seq(|ps|, i requires 0 <= i < |ps| => Base(ps[i], width, |ps|, cap))
  }

  /** Step `k` of row `i` is drafted. */
  predicate Chosen(ps: seq<Prediction>, depths: seq<nat>, i: nat, k: nat) {
    i < |ps| && i < |depths| && ps[i].survival != [] && ps[i].minimum <= k < depths[i] && k < |ps[i].survival|
  }

  /** Step `k` is the first step of row `i` that is allowed and not drafted. */
  predicate Next(ps: seq<Prediction>, depths: seq<nat>, cap: nat, i: nat, k: nat) {
    i < |ps| && i < |depths| && ps[i].survival != [] && k == depths[i] && k < Deepest(ps[i], cap)
        && k < |ps[i].survival|
  }

  /** Higher probability first, then the shallower step, then the earlier request. */
  predicate Sooner(p: real, k: nat, i: nat, q: real, l: nat, j: nat) {
    p > q || (p == q && (k < l || (k == l && i < j)))
  }

  predicate ChosenSooner(ps: seq<Prediction>, depths: seq<nat>, cap: nat, i: nat, k: nat, j: nat, l: nat) {
    Chosen(ps, depths, i, k) && Next(ps, depths, cap, j, l) ==>
      Sooner(ps[i].survival[k], k, i, ps[j].survival[l], l, j)
  }

  predicate ChosenLikely(ps: seq<Prediction>, depths: seq<nat>, threshold: real, i: nat, k: nat) {
    Chosen(ps, depths, i, k) ==> ps[i].survival[k] >= threshold
  }

  predicate NextUnlikely(ps: seq<Prediction>, depths: seq<nat>, cap: nat, threshold: real, i: nat, k: nat) {
    Next(ps, depths, cap, i, k) ==> ps[i].survival[k] < threshold
  }

  predicate RowOk(ps: seq<Prediction>, depths: seq<nat>, width: nat, cap: nat, i: nat) {
    i < |ps| && i < |depths| ==>
      if ps[i].survival == [] then depths[i] == Blind(ps[i], width, |ps|, cap)
      else ps[i].minimum <= depths[i] <= Deepest(ps[i], cap)
  }

  /** Bounds, the threshold, and the width budget, which forced minima may exceed. */
  ghost predicate Feasible(ps: seq<Prediction>, width: nat, threshold: real, cap: nat, depths: seq<nat>) {
    && |depths| == |ps|
    && (forall i: nat :: RowOk(ps, depths, width, cap, i))
    && (forall i: nat, k: nat :: ChosenLikely(ps, depths, threshold, i, k))
    && (width > 0 ==> Used(depths) <= width || depths == Bases(ps, width, cap))
  }

  /** The result of the greedy choice: the soonest steps, as many as budget and threshold allow. */
  ghost predicate Greedy(ps: seq<Prediction>, width: nat, threshold: real, cap: nat, depths: seq<nat>) {
    && Feasible(ps, width, threshold, cap, depths)
    && if width == 0
       then forall i: nat, k: nat :: NextUnlikely(ps, depths, cap, threshold, i, k)
       else
         && (forall i: nat, k: nat, j: nat, l: nat :: ChosenSooner(ps, depths, cap, i, k, j, l))
         && (Used(depths) >= width || forall i: nat, k: nat :: NextUnlikely(ps, depths, cap, threshold, i, k))
  }

  // ------------------------------------------------------------------- uniqueness

  lemma {:induction false} TotalLess(d: seq<nat>, e: seq<nat>)
    requires |d| == |e| && (forall i :: 0 <= i < |d| ==> d[i] <= e[i])
    ensures Total(d) <= Total(e)
    ensures Total(d) == Total(e) ==> d == e
  {
    if d != [] {
      TotalLess(d[..|d| - 1], e[..|e| - 1]);
      assert d == d[..|d| - 1] + [d[|d| - 1]] && e == e[..|e| - 1] + [e[|e| - 1]];
    }
  }

  /** Where one vector goes deeper than the other, its next step is chosen there. */
  lemma Deeper(ps: seq<Prediction>, width: nat, threshold: real, cap: nat, d: seq<nat>, e: seq<nat>, i: nat)
    requires AllOrdered(ps) && Feasible(ps, width, threshold, cap, d) && Feasible(ps, width, threshold, cap, e)
    requires i < |ps| && d[i] < e[i]
    ensures Chosen(ps, e, i, d[i]) && Next(ps, d, cap, i, d[i]) && ps[i].survival[d[i]] >= threshold
  {
    assert RowOk(ps, d, width, cap, i) && RowOk(ps, e, width, cap, i) && Ordered(ps[i]);
    assert ChosenLikely(ps, e, threshold, i, d[i]);
  }

  lemma BasesLeast(ps: seq<Prediction>, width: nat, threshold: real, cap: nat, d: seq<nat>, i: nat)
    requires Feasible(ps, width, threshold, cap, d) && i < |ps|
    ensures Bases(ps, width, cap)[i] <= d[i]
  {
    assert RowOk(ps, d, width, cap, i);
  }

  /** A greedy choice that leaves budget goes at least as deep as any feasible one everywhere. */
  lemma GreedyDeepest(ps: seq<Prediction>, width: nat, threshold: real, cap: nat, d: seq<nat>, e: seq<nat>)
    requires AllOrdered(ps) && Greedy(ps, width, threshold, cap, d) && Feasible(ps, width, threshold, cap, e)
    requires width == 0 || Used(d) < width
    ensures forall i: nat :: i < |ps| ==> e[i] <= d[i]
  {
    forall i: nat | i < |ps| ensures e[i] <= d[i] {
      assert NextUnlikely(ps, d, cap, threshold, i, d[i]);
      if d[i] < e[i] { Deeper(ps, width, threshold, cap, d, e, i); }
    }
  }

  /** No feasible choice uses more rows than the greedy one. */
  lemma GreedyFullest(ps: seq<Prediction>, width: nat, threshold: real, cap: nat, d: seq<nat>, e: seq<nat>)
    requires AllOrdered(ps) && Greedy(ps, width, threshold, cap, d) && Feasible(ps, width, threshold, cap, e)
    ensures Total(e) <= Total(d)
  {
    if width == 0 || Used(d) < width {
      GreedyDeepest(ps, width, threshold, cap, d, e);
      TotalLess(e, d);
    } else {
      forall i | 0 <= i < |ps| ensures Bases(ps, width, cap)[i] <= d[i] { BasesLeast(ps, width, threshold, cap, d, i); }
      TotalLess(Bases(ps, width, cap), d);
    }
  }

  /** The rules determine the result completely, ties included. */
  lemma GreedyUnique(ps: seq<Prediction>, width: nat, threshold: real, cap: nat, d: seq<nat>, e: seq<nat>)
    requires AllOrdered(ps) && Greedy(ps, width, threshold, cap, d) && Greedy(ps, width, threshold, cap, e)
    ensures d == e
  {
    GreedyFullest(ps, width, threshold, cap, d, e);
    GreedyFullest(ps, width, threshold, cap, e, d);
    if width == 0 || Used(d) < width {
      GreedyDeepest(ps, width, threshold, cap, d, e);
      TotalLess(e, d);
    } else if exists i: nat :: i < |ps| && e[i] < d[i] {
      var i: nat :| i < |ps| && e[i] < d[i];
      if forall j: nat :: j < |ps| ==> e[j] <= d[j] {
        TotalLess(e, d);
      } else {
        var j: nat :| j < |ps| && d[j] < e[j];
        assert ChosenSooner(ps, d, cap, i, e[i], j, d[j]);
        assert ChosenSooner(ps, e, cap, j, d[j], i, e[i]);
        Deeper(ps, width, threshold, cap, e, d, i);
        Deeper(ps, width, threshold, cap, d, e, j);
      }
    } else {
      TotalLess(d, e);
    }
  }

  // ------------------------------------------------------------------- optimality

  /** The expected number of accepted drafts of one row. */
  function Gain(survival: seq<real>, depth: nat): real {
    if depth == 0 || depth > |survival| then 0.0 else Gain(survival, depth - 1) + survival[depth - 1]
  }

  function Survival(ps: seq<Prediction>, depths: seq<nat>): real
    requires |ps| == |depths|
  {
    if ps == [] then 0.0
    else Survival(ps[..|ps| - 1], depths[..|ps| - 1]) + Gain(ps[|ps| - 1].survival, depths[|ps| - 1])
  }

  /** `pivot` separates what is drafted from what is not. */
  ghost predicate Pivot(ps: seq<Prediction>, depths: seq<nat>, cap: nat, pivot: real) {
    && pivot >= 0.0
    && (forall i: nat, k: nat :: AbovePivot(ps, depths, pivot, i, k))
    && (forall i: nat, k: nat :: BelowPivot(ps, depths, cap, pivot, i, k))
  }

  predicate AbovePivot(ps: seq<Prediction>, depths: seq<nat>, pivot: real, i: nat, k: nat) {
    Chosen(ps, depths, i, k) ==> ps[i].survival[k] >= pivot
  }

  predicate BelowPivot(ps: seq<Prediction>, depths: seq<nat>, cap: nat, pivot: real, i: nat, k: nat) {
    Next(ps, depths, cap, i, k) ==> ps[i].survival[k] <= pivot
  }

  /** The largest next probability among the first `n` rows. */
  function Largest(ps: seq<Prediction>, depths: seq<nat>, cap: nat, n: nat): (r: real)
    requires n <= |ps| && |ps| == |depths|
    ensures r >= 0.0
  {
    if n == 0 then 0.0
    else
      var before := Largest(ps, depths, cap, n - 1);
      if Next(ps, depths, cap, n - 1, depths[n - 1]) && ps[n - 1].survival[depths[n - 1]] > before
      then ps[n - 1].survival[depths[n - 1]] else before
  }

  lemma {:induction false} LargestIs(ps: seq<Prediction>, depths: seq<nat>, cap: nat, n: nat)
    requires n <= |ps| && |ps| == |depths|
    ensures forall i: nat, k: nat :: i < n ==> BelowPivot(ps, depths, cap, Largest(ps, depths, cap, n), i, k)
    ensures Largest(ps, depths, cap, n) == 0.0
            || exists i: nat :: i < n && Next(ps, depths, cap, i, depths[i]) && Largest(ps, depths, cap,
               n) == ps[i].survival[depths[i]]
  {
    if n > 0 {
      LargestIs(ps, depths, cap, n - 1);
      forall i: nat, k: nat | i < n ensures BelowPivot(ps, depths, cap, Largest(ps, depths, cap, n), i, k) {
        assert i < n - 1 ==> BelowPivot(ps, depths, cap, Largest(ps, depths, cap, n - 1), i, k);
      }
    }
  }

  lemma PivotExists(ps: seq<Prediction>, width: nat, threshold: real, cap: nat, d: seq<nat>)
    requires AllOrdered(ps) && Greedy(ps, width, threshold, cap, d) && width > 0
    ensures Pivot(ps, d, cap, Largest(ps, d, cap, |ps|))
  {
    var pivot := Largest(ps, d, cap, |ps|);
    LargestIs(ps, d, cap, |ps|);
    forall i: nat, k: nat ensures AbovePivot(ps, d, pivot, i, k) {
      if Chosen(ps, d, i, k) {
        assert Ordered(ps[i]);
        if pivot != 0.0 {
          var j: nat :| j < |ps| && Next(ps, d, cap, j, d[j]) && pivot == ps[j].survival[d[j]];
          assert ChosenSooner(ps, d, cap, i, k, j, d[j]);
        }
      }
    }
    forall i: nat, k: nat ensures BelowPivot(ps, d, cap, pivot, i, k) {}
  }

  /** `pivot` times `n`. */
  function Slope(pivot: real, n: int): real
    decreases if n < 0 then -n else n
  {
    if n == 0 then 0.0 else if n > 0 then Slope(pivot, n - 1) + pivot else Slope(pivot, n + 1) - pivot
  }

  lemma {:induction false} SlopePlus(pivot: real, m: int, n: int)
    ensures Slope(pivot, m + n) == Slope(pivot, m) + Slope(pivot, n)
    decreases if n < 0 then -n else n
  {
    if n > 0 {
      SlopePlus(pivot, m, n - 1);
      SlopeStep(pivot, m + n - 1);
    } else if n < 0 {
      SlopePlus(pivot, m, n + 1);
      SlopeStep(pivot, m + n);
    }
  }

  lemma SlopeStep(pivot: real, n: int)
    ensures Slope(pivot, n + 1) == Slope(pivot, n) + pivot
  {
  }

  /** Going from depth `d` to depth `e` in one row gains at most `pivot` per step. */
  lemma {:induction false} GainBound(s: seq<real>, d: nat, e: nat, pivot: real)
    requires d <= |s| && e <= |s|
    requires forall k :: e <= k < d ==> s[k] >= pivot
    requires forall k :: d <= k < e ==> s[k] <= pivot
    ensures Gain(s, e) - Gain(s, d) <= Slope(pivot, e - d)
    decreases d + e
  {
    if e < d {
      GainBound(s, d - 1, e, pivot);
    } else if d < e {
      GainBound(s, d, e - 1, pivot);
    }
  }

  lemma RowBound(ps: seq<Prediction>, width: nat, threshold: real, cap: nat, d: seq<nat>, e: seq<nat>, pivot: real,
      i: nat)
    requires AllOrdered(ps) && Feasible(ps, width, threshold, cap, d) && Feasible(ps, width, threshold, cap, e)
    requires Pivot(ps, d, cap, pivot) && i < |ps|
    ensures Gain(ps[i].survival, e[i]) - Gain(ps[i].survival, d[i]) <= Slope(pivot, e[i] as int - d[i] as int)
  {
    assert RowOk(ps, d, width, cap, i) && RowOk(ps, e, width, cap, i) && Ordered(ps[i]);
    var s := ps[i].survival;
    if s != [] {
      forall k | e[i] <= k < d[i] ensures s[k] >= pivot { assert AbovePivot(ps, d, pivot, i, k); }
      forall k | d[i] <= k < e[i] ensures s[k] <= pivot { assert BelowPivot(ps, d, cap, pivot, i, d[i]); }
      GainBound(s, d[i], e[i], pivot);
    }
  }

  predicate RowGains(ps: seq<Prediction>, d: seq<nat>, e: seq<nat>, pivot: real, i: nat) {
    i < |ps| && i < |d| && i < |e| ==>
      Gain(ps[i].survival, e[i]) - Gain(ps[i].survival, d[i]) <= Slope(pivot, e[i] as int - d[i] as int)
  }

  lemma {:induction false} SurvivalBound(ps: seq<Prediction>, d: seq<nat>, e: seq<nat>, pivot: real)
    requires |ps| == |d| == |e| && (forall i: nat :: RowGains(ps, d, e, pivot, i))
    ensures Survival(ps, e) - Survival(ps, d) <= Slope(pivot, Total(e) - Total(d))
    decreases |ps|
  {
    if ps != [] {
      var n: nat := |ps| - 1;
      forall i: nat ensures RowGains(ps[..n], d[..n], e[..n], pivot, i) { assert RowGains(ps, d, e, pivot, i); }
      SurvivalBound(ps[..n], d[..n], e[..n], pivot);
      assert RowGains(ps, d, e, pivot, n);
      SlopePlus(pivot, Total(e[..n]) - Total(d[..n]), e[n] as int - d[n] as int);
    }
  }

  /** No feasible depths have a larger total survival than the greedy ones. Rows without
      probabilities are the same in both. */
  lemma GreedyOptimal(ps: seq<Prediction>, width: nat, threshold: real, cap: nat, d: seq<nat>, e: seq<nat>)
    requires AllOrdered(ps) && Greedy(ps, width, threshold, cap, d) && Feasible(ps, width, threshold, cap, e)
    ensures Survival(ps, e) <= Survival(ps, d)
  {
    var pivot := if width == 0 then 0.0 else Largest(ps, d, cap, |ps|);
    if width == 0 {
      GreedyDeepest(ps, width, threshold, cap, d, e);
    } else {
      PivotExists(ps, width, threshold, cap, d);
    }
    forall i: nat ensures RowGains(ps, d, e, pivot, i) {
      if i < |ps| {
        if width == 0 {
          RowShallower(ps, width, threshold, cap, d, e, i);
        } else {
          RowBound(ps, width, threshold, cap, d, e, pivot, i);
        }
      }
    }
    SurvivalBound(ps, d, e, pivot);
    GreedyFullest(ps, width, threshold, cap, d, e);
    SlopeFalls(pivot, Total(e) - Total(d));
  }

  lemma RowShallower(ps: seq<Prediction>, width: nat, threshold: real, cap: nat, d: seq<nat>, e: seq<nat>, i: nat)
    requires AllOrdered(ps) && Feasible(ps, width, threshold, cap, d) && Feasible(ps, width, threshold, cap, e)
    requires i < |ps| && e[i] <= d[i]
    ensures RowGains(ps, d, e, 0.0, i)
  {
    assert RowOk(ps, d, width, cap, i) && RowOk(ps, e, width, cap, i) && Ordered(ps[i]);
    if ps[i].survival != [] { GainBound(ps[i].survival, d[i], e[i], 0.0); }
  }

  lemma {:induction false} SlopeFalls(pivot: real, n: int)
    requires pivot >= 0.0 && n <= 0
    ensures Slope(pivot, n) <= 0.0
    decreases -n
  {
    if n < 0 { SlopeFalls(pivot, n + 1); }
  }

  // -------------------------------------------------------------- the allocation

  datatype Candidate = Candidate(probability: real, position: nat, request: nat)

  predicate Ahead(a: Candidate, b: Candidate) {
    Sooner(a.probability, a.position, a.request, b.probability, b.position, b.request)
  }

  ghost predicate Top(queue: multiset<Candidate>, c: Candidate) {
    c in queue && forall d :: d in queue ==> d == c || Ahead(c, d)
  }

  lemma {:induction false} TopExists(queue: multiset<Candidate>)
    requires queue != multiset{}
    ensures exists c :: Top(queue, c)
    decreases |queue|
  {
    var c :| c in queue;
    var rest := queue - multiset{c};
    assert queue == rest + multiset{c};
    if rest == multiset{} {
      assert Top(queue, c);
    } else {
      TopExists(rest);
      var b :| Top(rest, b);
      var best := if Ahead(c, b) then c else b;
      forall d | d in queue ensures d == best || Ahead(best, d) { assert d == c || d in rest; }
      assert Top(queue, best);
    }
  }

  method Pop(queue: multiset<Candidate>) returns (top: Candidate, rest: multiset<Candidate>)
    requires queue != multiset{}
    ensures Top(queue, top) && rest == queue - multiset{top}
  {
    TopExists(queue);
    ghost var best :| Top(queue, best);
    top :| top in queue && forall d :: d in queue ==> d == top || Ahead(top, d);
    rest := queue - multiset{top};
  }

  /** The queue holds the next step of every row before `n`, once. */
  predicate QueueAt(ps: seq<Prediction>, depths: seq<nat>, cap: nat, queue: multiset<Candidate>, n: nat, c: Candidate) {
    queue[c] == if c.request < n && Next(ps, depths, cap, c.request, c.position)
                   && c.probability == ps[c.request].survival[c.position] then 1 else 0
  }

  ghost predicate QueueOk(ps: seq<Prediction>, depths: seq<nat>, cap: nat, queue: multiset<Candidate>, n: nat) {
    forall c :: QueueAt(ps, depths, cap, queue, n, c)
  }

  lemma {:induction false} TotalPut(d: seq<nat>, i: nat, v: nat)
    requires i < |d|
    ensures Total(d[i := v]) + d[i] == Total(d) + v
    decreases |d|
  {
    var n := |d| - 1;
    if i < n {
      TotalPut(d[..n], i, v);
      assert d[i := v][..n] == d[..n][i := v];
    } else {
      assert d[i := v][..n] == d[..n];
    }
  }

  lemma TotalSnoc(d: seq<nat>, v: nat)
    ensures Total(d + [v]) == Total(d) + v
  {
    assert (d + [v])[..|d|] == d;
  }

  /** The depths of the rows before `n` are their bases, or with no width the longest run of
      likely steps. */
  ghost predicate StartedAt(ps: seq<Prediction>, depths: seq<nat>, width: nat, threshold: real, cap: nat, i: nat) {
    i < |ps| && i < |depths| ==>
      && RowOk(ps, depths, width, cap, i)
      && (width > 0 ==> depths[i] == Base(ps[i], width, |ps|, cap))
      && (width == 0 ==> (forall k: nat ::
         ChosenLikely(ps, depths, threshold, i, k) && NextUnlikely(ps, depths, cap, threshold, i, k)))
  }

  /** Without a width budget a row drafts while its next step is likely enough. */
  method LikelyRun(p: Prediction, threshold: real, maximum: nat) returns (depth: nat)
    requires Ordered(p) && p.survival != [] && p.minimum <= maximum <= p.maximum
    ensures p.minimum <= depth <= maximum
    ensures forall k :: p.minimum <= k < depth ==> p.survival[k] >= threshold
    ensures depth < maximum ==> p.survival[depth] < threshold
  {
    depth := p.minimum;
    while depth < maximum && p.survival[depth] >= threshold
      invariant p.minimum <= depth <= maximum
      invariant forall k :: p.minimum <= k < depth ==> p.survival[k] >= threshold
    {
      depth := depth + 1;
    }
  }

  /** Everything the draining loop keeps. */
  ghost predicate Draining(ps: seq<Prediction>, width: nat, threshold: real, cap: nat, depths: seq<nat>,
      queue: multiset<Candidate>) {
    && |depths| == |ps| && QueueOk(ps, depths, cap, queue, |ps|)
    && (forall i: nat :: RowOk(ps, depths, width, cap, i))
    && (forall i: nat, k: nat :: ChosenLikely(ps, depths, threshold, i, k))
    && (forall i: nat, k: nat, j: nat, l: nat :: ChosenSooner(ps, depths, cap, i, k, j, l))
    && (Used(depths) <= width || depths == Bases(ps, width, cap))
  }

  lemma TopNext(ps: seq<Prediction>, width: nat, threshold: real, cap: nat, depths: seq<nat>,
      queue: multiset<Candidate>, top: Candidate)
    requires Draining(ps, width, threshold, cap, depths, queue) && Top(queue, top)
    ensures top.request < |ps| && Next(ps, depths, cap, top.request, top.position)
    ensures top.probability == ps[top.request].survival[top.position] && ps[top.request].minimum <= top.position
  {
    assert QueueAt(ps, depths, cap, queue, |ps|, top) && RowOk(ps, depths, width, cap, top.request);
  }

  /** Taking the top candidate drafts the soonest step there is. */
  lemma DrainRow(ps: seq<Prediction>, width: nat, threshold: real, cap: nat, depths: seq<nat>,
      queue: multiset<Candidate>, top: Candidate, depths': seq<nat>)
    requires AllOrdered(ps) && Draining(ps, width, threshold, cap, depths, queue) && Top(queue, top)
    requires top.probability >= threshold && Used(depths) < width && top.request < |ps|
    ensures depths' == depths[top.request := top.position + 1] ==>
      && Used(depths') == Used(depths) + 1
      && (forall i: nat :: RowOk(ps, depths', width, cap, i))
      && (forall i: nat, k: nat :: ChosenLikely(ps, depths', threshold, i, k))
      && (forall i: nat, k: nat, j: nat, l: nat :: ChosenSooner(ps, depths', cap, i, k, j, l))
  {
    var r, d := top.request, top.position;
    assert QueueAt(ps, depths, cap, queue, |ps|, top);
    assert Ordered(ps[r]);
    if depths' == depths[r := d + 1] {
      TotalPut(depths, r, d + 1);
      forall i: nat ensures RowOk(ps, depths', width, cap, i) { assert RowOk(ps, depths, width, cap, i); }
      forall i: nat, k: nat ensures ChosenLikely(ps, depths', threshold, i, k) {
        assert ChosenLikely(ps, depths, threshold, i, k);
      }
      forall i: nat, k: nat, j: nat, l: nat ensures ChosenSooner(ps, depths', cap, i, k, j, l) {
        DrainSooner(ps, cap, depths, queue, top, i, k, j, l);
      }
    }
  }

  lemma DrainSooner(ps: seq<Prediction>, cap: nat, depths: seq<nat>, queue: multiset<Candidate>, top: Candidate, i: nat,
      k: nat, j: nat, l: nat)
    requires AllOrdered(ps) && |depths| == |ps| && QueueOk(ps, depths, cap, queue, |ps|) && Top(queue, top)
    requires top.request < |ps| && Next(ps, depths, cap, top.request, top.position)
    requires top.probability == ps[top.request].survival[top.position]
    requires forall i: nat, k: nat, j: nat, l: nat :: ChosenSooner(ps, depths, cap, i, k, j, l)
    ensures ChosenSooner(ps, depths[top.request := top.position + 1], cap, i, k, j, l)
  {
    var r, d := top.request, top.position;
    var depths' := depths[r := d + 1];
    if Chosen(ps, depths', i, k) && Next(ps, depths', cap, j, l) {
      // The step drafted now is no later than any waiting step; earlier drafts are sooner than it.
      assert ChosenSooner(ps, depths, cap, i, k, j, depths[j]) && ChosenSooner(ps, depths, cap, i, k, r, d);
      assert Ordered(ps[r]);
      if j != r {
        var c := Candidate(ps[j].survival[l], l, j);
        assert QueueAt(ps, depths, cap, queue, |ps|, c);
        assert c in queue;
      }
    }
  }

  method Refill(ps: seq<Prediction>, depths: seq<nat>, cap: nat, ghost queue: multiset<Candidate>,
      rest: multiset<Candidate>, top: Candidate, ghost before: seq<nat>) returns (queue': multiset<Candidate>)
    requires AllOrdered(ps) && |before| == |ps| && QueueOk(ps, before, cap, queue, |ps|)
    requires top in queue && rest == queue - multiset{top}
    requires top.request < |ps| && Next(ps, before, cap, top.request, top.position)
      && ps[top.request].minimum <= top.position
    requires depths == before[top.request := top.position + 1]
    ensures QueueOk(ps, depths, cap, queue', |ps|)
  {
    var row, depth := top.request, top.position + 1;
    var prediction := ps[row];
    assert Ordered(prediction);
    assert QueueAt(ps, before, cap, queue, |ps|, top);
    queue' := rest;
    if depth < Min(cap, prediction.maximum) {
      queue' := rest + multiset{Candidate(prediction.survival[depth], depth, row)};
    }
    forall c ensures QueueAt(ps, depths, cap, queue', |ps|, c) { assert QueueAt(ps, before, cap, queue, |ps|, c); }
  }

  method Start(ps: seq<Prediction>, width: nat, threshold: real, cap: nat)
    returns (depths: seq<nat>, queue: multiset<Candidate>, used: nat)
    requires AllOrdered(ps) && ps != []
    ensures |depths| == |ps| && used == Used(depths)
    ensures forall i: nat :: StartedAt(ps, depths, width, threshold, cap, i)
    ensures width > 0 ==> QueueOk(ps, depths, cap, queue, |ps|)
    ensures width == 0 ==> queue == multiset{}
  {
    depths, queue, used := [], multiset{}, |ps|;
    var share := width / |ps|;
    for row := 0 to |ps|
      invariant |depths| == row && used == |ps| + Total(depths)
      invariant forall i: nat :: StartedAt(ps, depths, width, threshold, cap, i)
      invariant width > 0 ==> QueueOk(ps, depths, cap, queue, row)
      invariant width == 0 ==> queue == multiset{}
    {
      var prediction := ps[row];
      assert Ordered(prediction);
      var maximum := Max(prediction.minimum, Min(cap, prediction.maximum));
      var depth := prediction.minimum;
      ghost var before, waiting := depths, queue;
      if prediction.survival == [] {
        depth := if width > 0 then Clamp(if share > 0 then share - 1 else 0, prediction.minimum, maximum) else maximum;
      } else if width == 0 {
        depth := LikelyRun(prediction, threshold, maximum);
      } else if depth < maximum {
        queue := queue + multiset{Candidate(prediction.survival[depth], depth, row)};
      }
      depths := depths + [depth];
      TotalSnoc(before, depth);
      used := used + depth;
      StartRow(ps, before, depths, width, threshold, cap, row);
      if width > 0 {
        var rows := row + 1;
        forall c ensures QueueAt(ps, depths, cap, queue, rows, c) { assert QueueAt(ps, before, cap, waiting, row, c); }
      }
    }
  }

  lemma StartRow(ps: seq<Prediction>, before: seq<nat>, depths: seq<nat>, width: nat, threshold: real, cap: nat,
      row: nat)
    requires row < |ps| && |before| == row && |depths| == row + 1 && depths[..row] == before && Ordered(ps[row])
    requires forall i: nat :: StartedAt(ps, before, width, threshold, cap, i)
    requires ps[row].survival == [] ==> depths[row] == Blind(ps[row], width, |ps|, cap)
    requires ps[row].survival != [] && width > 0 ==> depths[row] == ps[row].minimum
    requires ps[row].survival != [] && width == 0 ==>
      && ps[row].minimum <= depths[row] <= Deepest(ps[row], cap)
      && (forall k :: ps[row].minimum <= k < depths[row] ==> ps[row].survival[k] >= threshold)
      && (depths[row] < Deepest(ps[row], cap) ==> ps[row].survival[depths[row]] < threshold)
    ensures forall i: nat :: StartedAt(ps, depths, width, threshold, cap, i)
  {
    forall i: nat ensures StartedAt(ps, depths, width, threshold, cap, i) {
      assert StartedAt(ps, before, width, threshold, cap, i);
      if i < row {
        assert depths[i] == before[i];
        forall k: nat | width == 0
          ensures ChosenLikely(ps, depths, threshold, i, k) && NextUnlikely(ps, depths, cap, threshold, i, k)
        {
          assert ChosenLikely(ps, before, threshold, i, k) && NextUnlikely(ps, before, cap, threshold, i, k);
        }
      }
    }
  }

  /** One allocation under a cap: exactly the greedy choice. */
  method Allocate(ps: seq<Prediction>, width: nat, threshold: real, cap: nat) returns (depths: seq<nat>)
    requires AllOrdered(ps) && ps != []
    ensures Greedy(ps, width, threshold, cap, depths)
  {
    var queue, used;
    depths, queue, used := Start(ps, width, threshold, cap);
    StartGreedy(ps, depths, width, threshold, cap, queue);
    while used < width && queue != multiset{}
      invariant |depths| == |ps| && used == Used(depths)
      invariant width > 0 ==> Draining(ps, width, threshold, cap, depths, queue)
      invariant width == 0 ==> Greedy(ps, width, threshold, cap, depths)
      decreases width - used
    {
      var top, rest := Pop(queue);
      if top.probability < threshold {
        Unlikely(ps, width, threshold, cap, depths, queue, top);
        return;
      }
      ghost var before := depths;
      TopNext(ps, width, threshold, cap, depths, queue, top);
      DrainRow(ps, width, threshold, cap, depths, queue, top, depths[top.request := top.position + 1]);
      depths := depths[top.request := depths[top.request] + 1];
      used := used + 1;
      queue := Refill(ps, depths, cap, queue, rest, top, before);
    }
    if width > 0 && used < width { Drained(ps, width, threshold, cap, depths); }
  }

  lemma StartGreedy(ps: seq<Prediction>, depths: seq<nat>, width: nat, threshold: real, cap: nat,
      queue: multiset<Candidate>)
    requires AllOrdered(ps) && ps != [] && |depths| == |ps|
    requires forall i: nat :: StartedAt(ps, depths, width, threshold, cap, i)
    requires width > 0 ==> QueueOk(ps, depths, cap, queue, |ps|)
    ensures width > 0 ==> Draining(ps, width, threshold, cap, depths, queue)
    ensures width == 0 ==> Greedy(ps, width, threshold, cap, depths)
  {
    forall i: nat ensures RowOk(ps, depths, width, cap, i) { assert StartedAt(ps, depths, width, threshold, cap, i); }
    forall i: nat, k: nat ensures ChosenLikely(ps, depths, threshold, i, k) {
      assert StartedAt(ps, depths, width, threshold, cap, i);
    }
    if width > 0 {
      forall i: nat, k: nat, j: nat, l: nat ensures ChosenSooner(ps, depths, cap, i, k, j, l) {
        assert StartedAt(ps, depths, width, threshold, cap, i);
      }
      forall i: nat | i < |ps| ensures depths[i] == Bases(ps, width, cap)[i] {
        assert StartedAt(ps, depths, width, threshold, cap, i);
      }
    } else {
      forall i: nat, k: nat ensures NextUnlikely(ps, depths, cap, threshold, i, k) {
        assert StartedAt(ps, depths, width, threshold, cap, i);
      }
    }
  }

  lemma Unlikely(ps: seq<Prediction>, width: nat, threshold: real, cap: nat, depths: seq<nat>,
      queue: multiset<Candidate>, top: Candidate)
    requires Draining(ps, width, threshold, cap, depths, queue) && Top(queue, top) && top.probability < threshold
      && width > 0
    ensures Greedy(ps, width, threshold, cap, depths)
  {
    forall i: nat, k: nat ensures NextUnlikely(ps, depths, cap, threshold, i, k) {
      if Next(ps, depths, cap, i, k) {
        var c := Candidate(ps[i].survival[k], k, i);
        assert QueueAt(ps, depths, cap, queue, |ps|, c);
        assert c in queue;
      }
    }
  }

  lemma Drained(ps: seq<Prediction>, width: nat, threshold: real, cap: nat, depths: seq<nat>)
    requires Draining(ps, width, threshold, cap, depths, multiset{}) && width > 0
    ensures Greedy(ps, width, threshold, cap, depths)
  {
    forall i: nat, k: nat ensures NextUnlikely(ps, depths, cap, threshold, i, k) {
      var probability := if i < |ps| && k < |ps[i].survival| then ps[i].survival[k] else 0.0;
      assert QueueAt(ps, depths, cap, multiset{}, |ps|, Candidate(probability, k, i));
    }
  }

  // --------------------------------------------------------------- tail smoothing

  function AtLeast(depths: seq<nat>, cap: nat): nat {
    if depths == [] then 0
    else AtLeast(depths[..|depths| - 1], cap) + if depths[|depths| - 1] >= cap then 1 else 0
  }

  /** Enough requests draft the deepest step the cap allows. */
  ghost predicate Meets(ps: seq<Prediction>, width: nat, threshold: real, cap: nat, required: nat) {
    exists d :: Greedy(ps, width, threshold, cap, d) && AtLeast(d, cap) >= required
  }

  /** The allocation at the largest cap that meets the occupancy, or at the least cap. */
  ghost predicate Smoothed(ps: seq<Prediction>, width: nat, threshold: real, least: nat, largest: nat, required: nat,
      depths: seq<nat>) {
    exists cap: nat :: SmoothedAt(ps, width, threshold, least, largest, required, depths, cap)
  }

  ghost predicate SmoothedAt(ps: seq<Prediction>, width: nat, threshold: real, least: nat, largest: nat, required: nat,
      depths: seq<nat>, cap: nat) {
    && least <= cap <= Max(least, largest) && Greedy(ps, width, threshold, cap, depths)
    && (cap == least || Meets(ps, width, threshold, cap, required))
    && (forall c: nat :: cap < c <= largest ==> !Meets(ps, width, threshold, c, required))
  }

  /** A cap that cuts off nothing the allocation drafts leaves it unchanged. */
  lemma CapSame(ps: seq<Prediction>, width: nat, threshold: real, a: nat, c: nat, d: seq<nat>)
    requires AllOrdered(ps) && Greedy(ps, width, threshold, a, d)
    requires forall i: nat :: i < |ps| ==> d[i] <= Deepest(ps[i], c) <= Deepest(ps[i], a)
    ensures Greedy(ps, width, threshold, c, d)
  {
    forall i: nat ensures RowOk(ps, d, width, c, i) { assert RowOk(ps, d, width, a, i); }
    if width > 0 && d == Bases(ps, width, a) {
      forall i: nat | i < |ps| ensures d[i] == Bases(ps, width, c)[i] { assert RowOk(ps, d, width, c, i); }
    }
    forall i: nat, k: nat ensures NextUnlikely(ps, d, a, threshold, i, k) ==> NextUnlikely(ps, d, c, threshold, i, k) {}
    forall i: nat, k: nat, j: nat, l: nat
      ensures ChosenSooner(ps, d, a, i, k, j, l) ==> ChosenSooner(ps, d, c, i, k, j, l) {}
  }

  function Highest(depths: seq<nat>): (r: nat)
    ensures forall i :: 0 <= i < |depths| ==> depths[i] <= r
    ensures depths != [] ==> exists i :: 0 <= i < |depths| && depths[i] == r
  {
    if depths == [] then 0
    else
      var rest := Highest(depths[..|depths| - 1]);
      assert forall i :: 0 <= i < |depths| - 1 ==> depths[i] == depths[..|depths| - 1][i];
      Max(rest, depths[|depths| - 1])
  }

  lemma {:induction false} AtLeastNone(depths: seq<nat>, cap: nat)
    requires forall i :: 0 <= i < |depths| ==> depths[i] < cap
    ensures AtLeast(depths, cap) == 0
  {
    if depths != [] { AtLeastNone(depths[..|depths| - 1], cap); }
  }

  /** No cap above the deepest draft is met. */
  lemma AboveUnmet(ps: seq<Prediction>, width: nat, threshold: real, largest: nat, required: nat, d: seq<nat>, c: nat)
    requires AllOrdered(ps) && Greedy(ps, width, threshold, largest, d) && required > 0
    requires Highest(d) < c <= largest
    ensures !Meets(ps, width, threshold, c, required)
  {
    forall i: nat | i < |ps| ensures d[i] <= Deepest(ps[i], c) <= Deepest(ps[i], largest) {
      assert RowOk(ps, d, width, largest, i);
      BoundBlind(ps, width, threshold, largest, d, i);
    }
    CapSame(ps, width, threshold, largest, c, d);
    AtLeastNone(d, c);
    forall e | Greedy(ps, width, threshold, c, e) ensures AtLeast(e, c) < required {
      GreedyUnique(ps, width, threshold, c, d, e);
    }
  }

  lemma BoundBlind(ps: seq<Prediction>, width: nat, threshold: real, cap: nat, d: seq<nat>, i: nat)
    requires AllOrdered(ps) && Feasible(ps, width, threshold, cap, d) && i < |ps|
    ensures d[i] <= Deepest(ps[i], cap)
  {
    assert RowOk(ps, d, width, cap, i) && Ordered(ps[i]);
  }

  method CountAtLeast(depths: seq<nat>, cap: nat) returns (n: nat)
    ensures n == AtLeast(depths, cap)
  {
    n := 0;
    for i := 0 to |depths|
      invariant n == AtLeast(depths[..i], cap)
    {
      assert depths[..i + 1][..i] == depths[..i];
      if depths[i] >= cap { n := n + 1; }
    }
    assert depths[..|depths|] == depths;
  }

  method MaxElement(depths: seq<nat>) returns (r: nat)
    ensures r == Highest(depths)
  {
    r := 0;
    for i := 0 to |depths|
      invariant r == Highest(depths[..i])
    {
      assert depths[..i + 1][..i] == depths[..i];
      if r < depths[i] { r := depths[i]; }
    }
    assert depths[..|depths|] == depths;
  }

  function Largest0(ps: seq<Prediction>): (r: nat)
    ensures forall i :: 0 <= i < |ps| ==> ps[i].maximum <= r
  {
    if ps == [] then 0
    else
      var rest := Largest0(ps[..|ps| - 1]);
      assert forall i :: 0 <= i < |ps| - 1 ==> ps[i] == ps[..|ps| - 1][i];
      Max(rest, ps[|ps| - 1].maximum)
  }

  function Least(ps: seq<Prediction>): (r: nat)
    ensures r >= 1 && forall i :: 0 <= i < |ps| ==> ps[i].minimum <= r
  {
    if ps == [] then 1
    else
      var rest := Least(ps[..|ps| - 1]);
      assert forall i :: 0 <= i < |ps| - 1 ==> ps[i] == ps[..|ps| - 1][i];
      Max(rest, ps[|ps| - 1].minimum)
  }

  function Ceil(x: real): int { -((-x).Floor) }

  predicate Settings(width: nat, threshold: real, tail: real) {
    0.0 <= threshold <= 1.0 && 0.0 <= tail <= 1.0 && (tail > 0.0 ==> width > 0)
  }

  lemma NotOrdered(p: Prediction, k: nat)
    requires k < |p.survival|
    requires p.survival[k] < 0.0 || p.survival[k] > 1.0 || (k > 0 && p.survival[k] > p.survival[k - 1])
    ensures !Ordered(p)
  {
    var j: nat := if k > 0 then k - 1 else k;
    assert p.survival[k] > p.survival[j] || p.survival[k] < 0.0 || p.survival[k] > 1.0;
  }

  method Validate(ps: seq<Prediction>) returns (ok: bool, largest: nat, least: nat)
    ensures ok <==> AllOrdered(ps)
    ensures ok ==> largest == Largest0(ps) && least == Least(ps)
  {
    ok, largest, least := true, 0, 1;
    for i := 0 to |ps|
      invariant forall k :: 0 <= k < i ==> Ordered(ps[k])
      invariant largest == Largest0(ps[..i]) && least == Least(ps[..i])
    {
      var p := ps[i];
      assert ps[..i + 1][..i] == ps[..i];
      if p.minimum > p.maximum || (p.survival != [] && |p.survival| < p.maximum) { return false, 0, 0; }
      var previous := 1.0;
      for k := 0 to |p.survival|
        invariant 0.0 <= previous <= 1.0 && previous == if k > 0 then p.survival[k - 1] else 1.0
        invariant forall j :: 0 <= j < k ==> 0.0 <= p.survival[j] <= 1.0 && previous <= p.survival[j]
        invariant forall j, l :: 0 <= j <= l < k ==> p.survival[l] <= p.survival[j]
      {
        var probability := p.survival[k];
        if probability < 0.0 || probability > previous {
          NotOrdered(p, k);
          return false, 0, 0;
        }
        previous := probability;
      }
      largest, least := Max(largest, p.maximum), Max(least, p.minimum);
    }
    assert ps[..|ps|] == ps;
  }

  /** `ok` is false for settings or predictions the source rejects. */
  method ChooseMtpDepths(ps: seq<Prediction>, width: nat, threshold: real, tail: real)
      returns (ok: bool, depths: seq<nat>)
    ensures ok <==> Settings(width, threshold, tail) && AllOrdered(ps)
    ensures ok && tail == 0.0 && ps != [] ==> Greedy(ps, width, threshold, Largest0(ps), depths)
    ensures ok && tail > 0.0 && ps != [] ==>
              Smoothed(ps, width, threshold, Least(ps), Largest0(ps), Ceil(tail * |ps| as real), depths)
    ensures ok && ps == [] ==> depths == []
  {
    if threshold < 0.0 || threshold > 1.0 || tail < 0.0 || tail > 1.0 || (tail > 0.0 && width == 0) {
      return false, [];
    }
    if ps == [] { return true, []; }
    var fine, largest, least := Validate(ps);
    if !fine { return false, []; }
    depths := Allocate(ps, width, threshold, largest);
    if tail == 0.0 { return true, depths; }
    Positive(tail, |ps|);
    var required: nat := Ceil(tail * |ps| as real);
    depths := Smooth(ps, width, threshold, least, largest, required, depths);
    return true, depths;
  }

  lemma Positive(tail: real, n: nat)
    requires tail > 0.0 && n > 0
    ensures Ceil(tail * n as real) > 0
  {
    assert tail * n as real > 0.0;
  }

  /** Lowers the cap until enough requests reach it. */
  method Smooth(ps: seq<Prediction>, width: nat, threshold: real, least: nat, largest: nat, required: nat,
      first: seq<nat>)
    returns (depths: seq<nat>)
    requires AllOrdered(ps) && ps != [] && width > 0 && required > 0 && least == Least(ps) && largest == Largest0(ps)
    requires Greedy(ps, width, threshold, largest, first)
    ensures Smoothed(ps, width, threshold, least, largest, required, depths)
  {
    depths := first;
    var cap: nat := MaxElement(depths);
    forall c: nat | cap < c <= largest ensures !Meets(ps, width, threshold, c, required) {
      AboveUnmet(ps, width, threshold, largest, required, first, c);
    }
    StartCap(ps, width, threshold, least, largest, first);
    var count := CountAtLeast(depths, cap);
    while cap > least && count < required
      invariant cap <= Max(least, largest) && Greedy(ps, width, threshold, Max(cap, least), depths)
      invariant cap >= least ==> count == AtLeast(depths, cap)
      invariant forall c: nat :: cap < c <= largest ==> !Meets(ps, width, threshold, c, required)
      decreases cap
    {
      forall e | Greedy(ps, width, threshold, cap, e) ensures AtLeast(e, cap) < required {
        GreedyUnique(ps, width, threshold, cap, depths, e);
      }
      cap := cap - 1;
      depths := Allocate(ps, width, threshold, cap);
      count := CountAtLeast(depths, cap);
    }
    assert SmoothedAt(ps, width, threshold, least, largest, required, depths, Max(cap, least));
  }

  /** The first allocation is the one at the cap the search starts from. */
  lemma StartCap(ps: seq<Prediction>, width: nat, threshold: real, least: nat, largest: nat, first: seq<nat>)
    requires AllOrdered(ps) && ps != [] && least == Least(ps) && largest == Largest0(ps)
    requires Greedy(ps, width, threshold, largest, first)
    ensures Highest(first) <= Max(least, largest)
    ensures Greedy(ps, width, threshold, Max(Highest(first), least), first)
  {
    var c := Max(Highest(first), least);
    forall i: nat | i < |ps| ensures first[i] <= Deepest(ps[i], c) <= Deepest(ps[i], largest) {
      BoundBlind(ps, width, threshold, largest, first, i);
      assert Ordered(ps[i]);
    }
    var i :| 0 <= i < |first| && first[i] == Highest(first);
    BoundBlind(ps, width, threshold, largest, first, i);
    CapSame(ps, width, threshold, largest, c, first);
  }
}

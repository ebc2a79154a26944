/** Streaming search for stop strings. Several Knuth-Morris-Pratt automata share one buffer of
    withheld text; the streamed result is that of a plain search over the whole text. */
module StopMatchers {

  // -------------------------------------------------------------- the plain search

  /** The first `k` characters of `p` end `t`. */
  predicate Ends(p: string, k: nat, t: string) {
    k <= |p| && k <= |t| && p[..k] == t[|t| - k..]
  }

  /** Stop `i` is complete after `n` characters of `t`. */
  predicate EndsAt(stops: seq<string>, t: string, n: nat, i: nat) {
    i < |stops| && n <= |t| && Ends(stops[i], |stops[i]|, t[..n])
  }

  /** The earliest completed stop, the first in request order among equal ends. */
  ghost predicate First(stops: seq<string>, t: string, n: nat, i: nat) {
    && EndsAt(stops, t, n, i)
    && (forall m: nat, j: nat :: EndsAt(stops, t, m, j) ==> n <= m)
    && (forall j: nat :: EndsAt(stops, t, n, j) ==> i <= j)
  }

  ghost predicate HasMatch(stops: seq<string>, t: string) { exists n: nat, i: nat :: EndsAt(stops, t, n, i) }

  /** The withheld text: the longest end of `t` that can still start a stop. */
  ghost predicate Withheld(stops: seq<string>, t: string, k: nat) {
    && (k == 0 || exists i: nat :: i < |stops| && k < |stops[i]| && Ends(stops[i], k, t))
    && (forall i: nat, j: nat :: i < |stops| && j < |stops[i]| && Ends(stops[i], j, t) ==> j <= k)
  }

  /** What a client has been shown of `t`, and what it is shown once the text is finished. */
  ghost predicate Shown(stops: seq<string>, t: string, output: string) {
    if HasMatch(stops, t)
    then exists n: nat, i: nat :: First(stops, t, n, i) && output == t[..n - |stops[i]|]
    else exists k: nat :: k <= |t| && Withheld(stops, t, k) && output == t[..|t| - k]
  }

  ghost predicate Visible(stops: seq<string>, t: string, output: string) {
    if HasMatch(stops, t)
    then exists n: nat, i: nat :: First(stops, t, n, i) && output == t[..n - |stops[i]|]
    else output == t
  }

  lemma FirstUnique(stops: seq<string>, t: string, n: nat, i: nat, m: nat, j: nat)
    requires First(stops, t, n, i) && First(stops, t, m, j)
    ensures n == m && i == j
  {
  }

  lemma WithheldUnique(stops: seq<string>, t: string, k: nat, l: nat)
    requires Withheld(stops, t, k) && Withheld(stops, t, l)
    ensures k == l
  {
  }

  /** Both outputs are determined by the text alone, so no chunking can change them. */
  lemma ShownUnique(stops: seq<string>, t: string, a: string, b: string)
    requires Shown(stops, t, a) && Shown(stops, t, b)
    ensures a == b
  {
    if HasMatch(stops, t) {
      var n: nat, i: nat :| First(stops, t, n, i) && a == t[..n - |stops[i]|];
      var m: nat, j: nat :| First(stops, t, m, j) && b == t[..m - |stops[j]|];
      FirstUnique(stops, t, n, i, m, j);
    }
  }

  /** An earlier match stays the first one whatever text follows. */
  lemma FirstStays(stops: seq<string>, t: string, more: string, n: nat, i: nat)
    requires First(stops, t, n, i)
    ensures First(stops, t + more, n, i)
  {
    forall m: nat, j: nat | m <= |t| ensures EndsAt(stops, t + more, m, j) <==> EndsAt(stops, t, m, j) {
      assert (t + more)[..m] == t[..m];
    }
    forall m: nat, j: nat | EndsAt(stops, t + more, m, j) ensures n <= m {
      if m <= |t| { assert EndsAt(stops, t, m, j); }
    }
  }

  lemma {:induction false} FirstExists(stops: seq<string>, t: string, n: nat, i: nat) returns (m: nat, j: nat)
    requires EndsAt(stops, t, n, i)
    ensures First(stops, t, m, j)
    decreases n, i
  {
    if m': nat, j': nat :| EndsAt(stops, t, m', j') && m' < n {
      m, j := FirstExists(stops, t, m', j');
    } else if j': nat :| EndsAt(stops, t, n, j') && j' < i {
      m, j := FirstExists(stops, t, n, j');
    } else {
      m, j := n, i;
    }
  }

  // ------------------------------------------------------------- reuse after a finish

  /** The first stop of `t` begins within its first `shown` characters. */
  ghost predicate Straddles(stops: seq<string>, t: string, shown: nat) {
    exists n: nat, i: nat :: First(stops, t, n, i) && n < shown + |stops[i]|
  }

  lemma StraddlesStays(stops: seq<string>, t: string, more: string, shown: nat, n: nat, i: nat)
    requires First(stops, t, n, i)
    ensures Straddles(stops, t + more, shown) <==> n < shown + |stops[i]|
    ensures Straddles(stops, t, shown) <==> n < shown + |stops[i]|
  {
    FirstStays(stops, t, more, n, i);
    if Straddles(stops, t + more, shown) {
      var m: nat, j: nat :| First(stops, t + more, m, j) && m < shown + |stops[j]|;
      FirstUnique(stops, t + more, n, i, m, j);
    }
    if Straddles(stops, t, shown) {
      var m: nat, j: nat :| First(stops, t, m, j) && m < shown + |stops[j]|;
      FirstUnique(stops, t, n, i, m, j);
    }
  }

  /** The held text ends in the first `s` characters of stop `j`, and no stop that would come first
      lies wholly in the rest of it. */
  ghost predicate CutOff(stops: seq<string>, held: string, j: nat, s: nat) {
    && j < |stops| && 0 < s < |stops[j]| && Ends(stops[j], s, held)
    && forall n: nat, i: nat :: EndsAt(stops, stops[j][s..], n, i) ==> n == |stops[j]| - s && j < i
  }

  ghost predicate HasCutOff(stops: seq<string>, held: string) { exists j: nat, s: nat :: CutOff(stops, held, j, s) }

  /** Only the text that can still start a stop matters. */
  lemma CutOffHeld(stops: seq<string>, t: string, k: nat)
    requires k <= |t| && Withheld(stops, t, k)
    ensures HasCutOff(stops, t) <==> HasCutOff(stops, t[|t| - k..])
  {
    var held := t[|t| - k..];
    forall j: nat, s: nat ensures CutOff(stops, t, j, s) <==> CutOff(stops, held, j, s) {
      if j < |stops| && 0 < s < |stops[j]| {
        if Ends(stops[j], s, t) { EndsHeld(stops[j], t, k, s); }
        if Ends(stops[j], s, held) { assert t[|t| - s..] == held[k - s..]; }
      }
    }
  }

  /** Once held text has been handed out, some continuation completes a stop that begins in it,
      before any other, exactly if a stop is cut off. */
  lemma CutOffExact(stops: seq<string>, t: string, k: nat)
    requires !HasMatch(stops, t) && k <= |t| && Withheld(stops, t, k)
    ensures (exists u: string :: Straddles(stops, t + u, |t|)) <==> HasCutOff(stops, t[|t| - k..])
  {
    if exists u: string :: Straddles(stops, t + u, |t|) {
      var u: string :| Straddles(stops, t + u, |t|);
      var j, s := StraddleCuts(stops, t, k, u);
    }
    if HasCutOff(stops, t[|t| - k..]) {
      var j: nat, s: nat :| CutOff(stops, t[|t| - k..], j, s);
      CutStraddles(stops, t, k, j, s);
    }
  }

  lemma LaterMatch(stops: seq<string>, t: string, u: string, n: nat, i: nat)
    requires !HasMatch(stops, t) && EndsAt(stops, t + u, n, i)
    ensures n > |t|
  {
    assert n <= |t| ==> (t + u)[..n] == t[..n];
    assert n <= |t| ==> EndsAt(stops, t, n, i);
  }

  lemma CutStraddles(stops: seq<string>, t: string, k: nat, j: nat, s: nat)
    requires !HasMatch(stops, t) && k <= |t| && CutOff(stops, t[|t| - k..], j, s)
    ensures Straddles(stops, t + stops[j][s..], |t|)
  {
    var u := stops[j][s..];
    var full := t + u;
    assert t[|t| - s..] == t[|t| - k..][k - s..];
    assert full[|full| - |stops[j]|..] == t[|t| - s..] + u == stops[j];
    WholeText(stops, full, j);
    assert Ends(stops[j], |stops[j]|, full);
    var n, i := FirstExists(stops, full, |full|, j);
    LaterMatch(stops, t, u, n, i);
    if n >= |t| + |stops[i]| {
      InsideLater(stops, t, u, n, i);
    }
  }

  /** A stop that lies wholly in `u` is a stop of `u`. */
  lemma InsideLater(stops: seq<string>, t: string, u: string, n: nat, i: nat)
    requires i < |stops| && |t| + |stops[i]| <= n <= |t| + |u|
    ensures EndsAt(stops, u, n - |t|, i) <==> EndsAt(stops, t + u, n, i)
  {
    var m := n - |t|;
    assert (t + u)[..n] == t + u[..m];
    assert (t + u)[..n][n - |stops[i]|..] == u[..m][m - |stops[i]|..];
  }

  lemma StraddleCuts(stops: seq<string>, t: string, k: nat, u: string) returns (j: nat, s: nat)
    requires !HasMatch(stops, t) && k <= |t| && Withheld(stops, t, k) && Straddles(stops, t + u, |t|)
    ensures CutOff(stops, t[|t| - k..], j, s)
  {
    var full := t + u;
    var n: nat, i: nat :| First(stops, full, n, i) && n < |t| + |stops[i]|;
    LaterMatch(stops, t, u, n, i);
    var m := n - |t|;
    j, s := i, |stops[i]| - m;
    StraddleSplits(stops, t, u, n, i, s, m);
    EndsHeld(stops[i], t, k, s);
    forall n': nat, i': nat | EndsAt(stops, u[..m], n', i') ensures n' == m && i < i' {
      NothingEarlier(stops, t, u, n, i, n', i');
    }
  }

  /** A stop that straddles the end of `t` is an end of `t` and a start of `u`. */
  lemma StraddleSplits(stops: seq<string>, t: string, u: string, n: nat, i: nat, s: nat, m: nat)
    requires EndsAt(stops, t + u, n, i) && n == |t| + m && |stops[i]| == s + m && s > 0
    ensures Ends(stops[i], s, t) && stops[i][s..] == u[..m]
  {
    assert (t + u)[..n] == t + u[..m];
    assert stops[i] == (t + u[..m])[n - |stops[i]|..] == t[|t| - s..] + u[..m];
  }

  lemma EndsHeld(p: string, t: string, k: nat, s: nat)
    requires Ends(p, s, t) && s <= k <= |t|
    ensures Ends(p, s, t[|t| - k..])
  {
    assert t[|t| - s..] == t[|t| - k..][k - s..];
  }

  /** No stop lies wholly in `u` and comes before the first one. */
  lemma NothingEarlier(stops: seq<string>, t: string, u: string, n: nat, i: nat, m: nat, j: nat)
    requires First(stops, t + u, n, i) && |t| < n < |t| + |stops[i]| && EndsAt(stops, u[..n - |t|], m, j)
    ensures |t| + m == n && i < j
  {
    assert u[..n - |t|][..m] == u[..m];
    InsideLater(stops, t, u, |t| + m, j);
  }

  /** After a match no text can make a stop begin in what was shown. */
  lemma MatchedReuse(stops: seq<string>, t: string, output: string)
    requires HasMatch(stops, t) && Shown(stops, t, output)
    ensures forall u: string :: !Straddles(stops, t + u, |output|)
  {
    var n: nat, i: nat :| First(stops, t, n, i) && output == t[..n - |stops[i]|];
    forall u: string ensures !Straddles(stops, t + u, |output|) { StraddlesStays(stops, t, u, |output|, n, i); }
  }

  /** What handing out the last `held` characters of `t`, all of which may start a stop, leads to. */
  lemma HeldReuse(stops: seq<string>, t: string, held: nat)
    requires !HasMatch(stops, t) && held <= |t| && exists k: nat :: Withheld(stops, t, k) && held <= k
    ensures (exists u: string :: Straddles(stops, t + u, |t|)) <==> HasCutOff(stops, t)
    ensures Withheld(stops, t, held) ==> (HasCutOff(stops, t) <==> HasCutOff(stops, t[|t| - held..]))
    ensures Withheld(stops, t, held) && held > 0 ==> !Withheld(stops, t, 0)
  {
    var k: nat :| Withheld(stops, t, k) && held <= k;
    WithheldFits(stops, t, k);
    CutOffExact(stops, t, k);
    CutOffHeld(stops, t, k);
    if Withheld(stops, t, held) { WithheldUnique(stops, t, k, held); }
  }

  lemma WithheldFits(stops: seq<string>, t: string, k: nat)
    requires Withheld(stops, t, k)
    ensures k <= |t|
  {
  }

  /** With a single stop that is any held text at all. */
  lemma OneStopCutOff(stop: string, t: string, k: nat)
    requires k <= |t| && Withheld([stop], t, k)
    ensures HasCutOff([stop], t[|t| - k..]) <==> k > 0
  {
    if k > 0 {
      assert t[|t| - k..][k - k..] == t[|t| - k..];
      assert CutOff([stop], t[|t| - k..], 0, k);
    }
  }

  /** With several it is not: here the rest of the cut stop `abc` contains the other one. */
  lemma HeldYetHarmless(a: char, b: char, c: char)
    requires a != b
    ensures Withheld([[a, b, c], [b]], [a], 1) && !HasCutOff([[a, b, c], [b]], [a])
  {
    var stops, held := [[a, b, c], [b]], [a];
    assert stops[0][..1] == held && held[0..] == held;
    assert Ends(stops[0], 1, held);
    HarmlessRest(a, b, c);
    forall j: nat, s: nat ensures !CutOff(stops, held, j, s) { CutOffPlace(a, b, c, j, s); }
  }

  /** Only the first stop can be cut off, after one character. */
  lemma CutOffPlace(a: char, b: char, c: char, j: nat, s: nat)
    requires a != b
    ensures CutOff([[a, b, c], [b]], [a], j, s) ==> j == 0 && s == 1
  {
  }

  lemma HarmlessRest(a: char, b: char, c: char)
    ensures !CutOff([[a, b, c], [b]], [a], 0, 1)
  {
    var stops := [[a, b, c], [b]];
    var rest := stops[0][1..];
    assert rest[..1] == [b] && [b][0..] == [b] && stops[1][..1] == [b];
    assert EndsAt(stops, rest, 1, 1) && |rest| == 2;
  }

  lemma ExampleWithheld(a: char, b: char)
    ensures Withheld([[a, b]], [a], 1)
  {
    var stop, held := [a, b], [a];
    assert stop[..1] == held && held[0..] == held;
    assert Ends(stop, 1, held);
    assert [stop][0] == stop;
  }

  lemma ExampleStraddles(a: char, b: char)
    requires a != b
    ensures Straddles([[a, b]], [a] + [b], 1)
  {
    var stops, t := [[a, b]], [a] + [b];
    assert t == [a, b] && t[..2] == t && t[0..] == t && stops[0][..2] == stops[0];
    assert EndsAt(stops, t, 2, 0);
    forall m: nat, j: nat | EndsAt(stops, t, m, j) ensures m == 2 && j == 0 {
      assert j == 0 && |stops[0]| == 2 && |t[..m]| == m;
    }
    assert First(stops, t, 2, 0);
  }

  /** The least failing case: stop `ab`, text `a`, a finish, then `b`. */
  lemma CutOffExample(a: char, b: char)
    requires a != b
    ensures Withheld([[a, b]], [a], 1) && HasCutOff([[a, b]], [a]) && Straddles([[a, b]], [a] + [b], 1)
  {
    ExampleWithheld(a, b);
    OneStopCutOff([a, b], [a], 1);
    assert [a][|[a]| - 1..] == [a];
    ExampleStraddles(a, b);
  }

  // ------------------------------------------------------------------- one pattern

  /** The longest prefix of `p` that ends `t`. */
  ghost predicate StateOf(p: string, t: string, k: nat) {
    Ends(p, k, t) && forall j: nat :: Ends(p, j, t) ==> j <= k
  }

  /** Shorter prefixes of `p` that end `t` are those that end the longer one. */
  lemma EndsWithin(p: string, t: string, k: nat, j: nat)
    requires Ends(p, k, t) && j <= k
    ensures Ends(p, j, t) <==> Ends(p, j, p[..k])
  {
    assert p[..k][k - j..] == t[|t| - k..][k - j..] == t[|t| - j..];
  }

  /** Reading one more character extends a prefix by that character. */
  lemma EndsSnoc(p: string, t: string, b: char, k: nat)
    requires k > 0
    ensures Ends(p, k, t + [b]) <==> k <= |p| && p[k - 1] == b && Ends(p, k - 1, t)
  {
    if k <= |p| && k <= |t| + 1 {
      assert p[..k] == p[..k - 1] + [p[k - 1]];
      assert (t + [b])[|t| + 1 - k..] == t[|t| - (k - 1)..] + [b];
    }
  }

  /** Entry `i` of a failure table: the longest proper border of `p[..i + 1]`. */
  ghost predicate Border(p: string, i: nat, k: nat) {
    i < |p| && k <= i && Ends(p, k, p[..i + 1]) && forall j: nat :: NoLonger(p, i, k, j)
  }

  predicate NoLonger(p: string, i: nat, k: nat, j: nat) { j <= i < |p| && Ends(p, j, p[..i + 1]) ==> j <= k }

  ghost predicate BorderAt(p: string, table: seq<nat>, i: nat) { i < |table| ==> Border(p, i, table[i]) }

  ghost predicate Table(p: string, table: seq<nat>) {
    |table| <= |p| && forall i: nat :: BorderAt(p, table, i)
  }

  /** No prefix longer than `state`, and shorter than `limit`, can be extended by `b`. */
  predicate Dead(p: string, t: string, b: char, state: nat, limit: nat, j: nat) {
    state < j < limit && j < |p| && Ends(p, j, t) ==> p[j] != b
  }

  /** The loop shared by matching and table construction: the longest extendable prefix. */
  method FallBack(p: string, table: seq<nat>, ghost t: string, state: nat, ghost limit: nat, b: char) returns (k: nat)
    requires Table(p, table) && state <= |table| && state < limit <= |p| && Ends(p, state, t)
    requires forall j: nat :: Dead(p, t, b, state, limit, j)
    ensures k <= state && Ends(p, k, t) && (k == 0 || p[k] == b)
    ensures forall j: nat :: Dead(p, t, b, k, limit, j)
  {
    k := state;
    while k > 0 && b != p[k]
      invariant k <= state && Ends(p, k, t)
      invariant forall j: nat :: Dead(p, t, b, k, limit, j)
    {
      assert BorderAt(p, table, k - 1);
      var next := table[k - 1];
      EndsWithin(p, t, k, next);
      forall j: nat ensures Dead(p, t, b, next, limit, j) {
        assert Dead(p, t, b, k, limit, j) && NoLonger(p, k - 1, next, j);
        if j <= k { EndsWithin(p, t, k, j); }
      }
      k := next;
    }
  }

  /** Prefixes that end `t` and `b` come from prefixes that end `t`. */
  lemma ExtendedBound(p: string, t: string, b: char, k: nat, limit: nat, j: nat)
    requires k < limit <= |p| && 0 < j <= limit && Ends(p, j, t + [b])
    requires (k == 0 || p[k] == b) && Dead(p, t, b, k, limit, j - 1)
    ensures j <= if p[k] == b then k + 1 else k
  {
    EndsSnoc(p, t, b, j);
  }

  method BuildTable(p: string) returns (table: seq<nat>)
    requires p != []
    ensures |table| == |p| && Table(p, table)
  {
    table := [0];
    var i, state := 1, 0;
    while i < |p|
      invariant 1 <= i <= |p| && |table| == i && Table(p, table) && state == table[i - 1]
    {
      ghost var t, b := p[..i], p[i];
      assert BorderAt(p, table, i - 1) && p[..i - 1 + 1] == t;
      forall j: nat ensures Dead(p, t, b, state, i, j) { assert NoLonger(p, i - 1, state, j); }
      var k := FallBack(p, table, t, state, i, p[i]);
      if p[i] == p[k] { EndsSnoc(p, t, b, k + 1); }
      state := if p[i] == p[k] then k + 1 else k;
      assert p[..i + 1] == t + [b];
      forall j: nat ensures NoLonger(p, i, state, j) {
        if 0 < j <= i && Ends(p, j, p[..i + 1]) { ExtendedBound(p, t, b, k, i, j); }
      }
      ghost var before := table;
      table := table + [state];
      forall j: nat ensures BorderAt(p, table, j) { assert j < i ==> BorderAt(p, before, j); }
      i := i + 1;
    }
  }

  datatype Pattern = Pattern(text: string, fallback: seq<nat>)

  ghost predicate Compiled(pattern: Pattern) {
    pattern.text != [] && |pattern.fallback| == |pattern.text| && Table(pattern.text, pattern.fallback)
  }

  /** One automaton step; `matched` when the whole pattern ends the text. */
  method Advance(pattern: Pattern, ghost t: string, state: nat, b: char) returns (matched: bool, next: nat)
    requires Compiled(pattern) && StateOf(pattern.text, t, state) && state < |pattern.text|
    ensures StateOf(pattern.text, t + [b], next) && next <= state + 1
    ensures matched <==> next == |pattern.text|
    ensures matched <==> Ends(pattern.text, |pattern.text|, t + [b])
  {
    var p := pattern.text;
    forall j: nat ensures Dead(p, t, b, state, |p|, j) {}
    var k := FallBack(p, pattern.fallback, t, state, |p|, b);
    if p[k] == b { EndsSnoc(p, t, b, k + 1); }
    next := if b == p[k] then k + 1 else k;
    forall j: nat | Ends(p, j, t + [b]) ensures j <= next {
      if j > 0 { ExtendedBound(p, t, b, k, |p|, j); }
    }
    matched := next == |p|;
  }

  // ----------------------------------------------------------------- all patterns

  function TextsOf(patterns: seq<Pattern>): (r: seq<string>)
    ensures |r| == |patterns| && forall i :: 0 <= i < |r| ==> r[i] == patterns[i].text
  {
    seq(|patterns|, i requires 0 <= i < |patterns| => patterns[i].text)
  }

  ghost predicate AllCompiled(patterns: seq<Pattern>) { forall i :: 0 <= i < |patterns| ==> Compiled(patterns[i]) }

  /** Automaton `i` has read `t` and not matched. */
  ghost predicate TrackAt(patterns: seq<Pattern>, states: seq<nat>, t: string, i: nat) {
    i < |patterns| && i < |states| ==> StateOf(patterns[i].text, t, states[i]) && states[i] < |patterns[i].text|
  }

  ghost predicate Tracking(patterns: seq<Pattern>, states: seq<nat>, t: string) {
    |states| == |patterns| && forall i: nat :: TrackAt(patterns, states, t, i)
  }

  lemma NoMatchYet(stops: seq<string>, t: string, b: char)
    requires !HasMatch(stops, t)
    ensures forall m: nat, i: nat :: EndsAt(stops, t + [b], m, i) ==> m == |t| + 1
  {
    forall m: nat, i: nat | m <= |t| ensures EndsAt(stops, t + [b], m, i) <==> EndsAt(stops, t, m, i) {
      assert (t + [b])[..m] == t[..m];
    }
  }

  lemma WholeText(stops: seq<string>, t: string, i: nat)
    ensures EndsAt(stops, t, |t|, i) <==> i < |stops| && Ends(stops[i], |stops[i]|, t)
  {
    assert t[..|t|] == t;
  }

  /** Feeds one character to each automaton in request order, stopping at the first match. */
  method AdvanceAll(patterns: seq<Pattern>, ghost t: string, states: seq<nat>, b: char)
    returns (states': seq<nat>, hit: bool, which: nat, retained: nat)
    requires AllCompiled(patterns) && Tracking(patterns, states, t)
    requires !HasMatch(TextsOf(patterns), t)
    ensures |states'| == |patterns|
    ensures hit <==> HasMatch(TextsOf(patterns), t + [b])
    ensures hit ==> First(TextsOf(patterns), t + [b], |t| + 1, which) && |patterns[which].text| <= states[which] + 1
    ensures !hit ==> Tracking(patterns, states', t + [b]) && Withheld(TextsOf(patterns), t + [b], retained)
    ensures !hit ==> forall k: nat :: Withheld(TextsOf(patterns), t, k) ==> retained <= k + 1
  {
    ghost var stops := TextsOf(patterns);
    NoMatchYet(stops, t, b);
    states', hit, which, retained := states, false, 0, 0;
    ghost var longest := 0;
    for i := 0 to |patterns|
      invariant |states'| == |patterns| && states'[i..] == states[i..]
      invariant forall j: nat :: j < i ==>
        TrackAt(patterns, states', t + [b], j) && states'[j] <= retained && states'[j] <= states[j] + 1
      invariant retained == 0 || (longest < i && states'[longest] == retained)
    {
      assert TrackAt(patterns, states, t, i);
      assert states'[i] == states'[i..][0] == states[i];
      var matched, next := Advance(patterns[i], t, states[i], b);
      WholeText(stops, t + [b], i);
      if matched {
        var n := |t| + 1;
        forall j: nat | EndsAt(stops, t + [b], n, j) ensures i <= j {
          WholeText(stops, t + [b], j);
          assert j < i ==> TrackAt(patterns, states', t + [b], j);
        }
        return states', true, i, retained;
      }
      states' := states'[i := next];
      if next > retained { retained, longest := next, i; }
    }
    forall m: nat, i: nat ensures !EndsAt(stops, t + [b], m, i) {
      WholeText(stops, t + [b], i);
      assert i < |patterns| ==> TrackAt(patterns, states', t + [b], i);
    }
    forall i: nat ensures TrackAt(patterns, states', t + [b], i) {}
    forall i: nat, j: nat | i < |stops| && j < |stops[i]| && Ends(stops[i], j, t + [b]) ensures j <= retained {
      assert TrackAt(patterns, states', t + [b], i);
    }
    if retained > 0 {
      assert TrackAt(patterns, states', t + [b], longest) && TrackAt(patterns, states, t, longest);
    }
  }

  // ------------------------------------------------------------------ the matcher

  class StopMatcher {
    var patterns: seq<Pattern>
    var states: seq<nat>
    var pending: string
    var matched: bool
    /** All text pushed so far, and all output handed out for it. */
    ghost var history: string
    ghost var output: string

    ghost function Stops(): seq<string> reads this { TextsOf(patterns) }

    /** What every call keeps. Less may be withheld than can still start a stop. */
    ghost predicate Sound()
      reads this
    {
      && AllCompiled(patterns) && matched == HasMatch(Stops(), history)
      && if matched
         then pending == [] && Shown(Stops(), history, output)
         else Tracking(patterns, states, history) && output + pending == history
              && exists k: nat :: Withheld(Stops(), history, k) && |pending| <= k
    }

    /** Exactly what can still start a stop is withheld. */
    ghost predicate Exact()
      reads this
    {
      matched || Withheld(Stops(), history, |pending|)
    }

    ghost predicate Valid()
      reads this
    {
      Sound() && Exact()
    }

    /** `ok` is false for more than four stops or an empty one. */
    static method Create(stops: seq<string>) returns (ok: bool, m: StopMatcher?)
      ensures ok <==> |stops| <= 4 && forall i :: 0 <= i < |stops| ==> stops[i] != []
      ensures ok ==> m != null && fresh(m) && m.Valid() && m.Stops() == stops && m.history == [] && m.output == []
    {
      if |stops| > 4 { return false, null; }
      var patterns: seq<Pattern> := [];
      for i := 0 to |stops|
        invariant |patterns| == i && AllCompiled(patterns) && forall k :: 0 <= k < i ==>
          patterns[k].text == stops[k] && stops[k] != []
      {
        if stops[i] == [] { return false, null; }
        var table := BuildTable(stops[i]);
        patterns := patterns + [Pattern(stops[i], table)];
      }
      m := new StopMatcher(patterns);
      assert m.Stops() == stops;
      return true, m;
    }

    constructor (patterns: seq<Pattern>)
      requires AllCompiled(patterns)
      ensures Valid() && this.patterns == patterns && history == [] && output == []
    {
      this.patterns := patterns;
      states := seq(|patterns|, i => 0);
      pending, matched := [], false;
      history, output := [], [];
      new;
      forall i: nat ensures TrackAt(patterns, states, [], i) {}
      NothingYet(TextsOf(patterns));
    }

    lemma ValidShown()
      requires Valid()
      ensures Shown(Stops(), history, output)
    {
      if !matched { assert output == history[..|history| - |pending|]; }
    }

    /** Whatever has been pushed before, in whatever chunks, the output handed out is exactly
        what may be shown of the whole text. A matcher that has been finished can fail, where the
        source subtracts a stop's length from a smaller one: exactly when the first stop of the
        whole text begins in what was shown already. */
    method Push(text: string) returns (ok: bool, out: string)
      requires Sound()
      modifies this
      ensures patterns == old(patterns) && (ok ==> history == old(history) + text)
      ensures ok <==> old(matched) || !Straddles(Stops(), old(history) + text, |old(output)|)
      ensures ok ==> Sound() && output == old(output) + out
      ensures old(Valid()) ==> ok && Valid() && Shown(Stops(), history, output)
    {
      ok, out := true, [];
      if matched {
        Ignore(text);
      } else if patterns == [] {
        PassThrough(text);
        out := text;
      } else {
        var k;
        ok, out, k := PushBytes(text);
        MatchDecides(Stops(), old(history), text, k, |old(output)|);
        if ok && matched { Ignore(text[k..]); }
      }
      if Valid() { ValidShown(); }
    }

    /** Where a push is after reading up to `read`, from `first` output and `out` since. */
    ghost predicate Pushed(read: string, first: string, out: string, ok: bool)
      reads this
    {
      && (ok <==> !Straddles(Stops(), read, |first|))
      && if ok then Sound() && history == read && output == first + out && (output == first || Exact())
         else HasMatch(Stops(), read)
    }

    /** Once a stop is complete, what follows changes nothing. */
    lemma MatchDecides(stops: seq<string>, before: string, text: string, k: nat, shown: nat)
      requires k <= |text| && (HasMatch(stops, before + text[..k]) || k == |text|)
      ensures before + text[..k] + text[k..] == before + text
      ensures Straddles(stops, before + text[..k], shown) <==> Straddles(stops, before + text, shown)
    {
      var read := before + text[..k];
      assert text[..k] + text[k..] == text;
      assert read + text[k..] == before + text;
      if k == |text| { assert read == before + text; return; }
      var n: nat, i: nat :| EndsAt(stops, read, n, i);
      n, i := FirstExists(stops, read, n, i);
      StraddlesStays(stops, read, text[k..], shown, n, i);
    }

    lemma NextCharacter(before: string, text: string, k: nat)
      requires k < |text|
      ensures before + text[..k + 1] == before + text[..k] + [text[k]]
    {
    }

    /** Characters one by one, up to a match. */
    method PushBytes(text: string) returns (ok: bool, out: string, k: nat)
      requires Sound() && !matched
      modifies this
      ensures patterns == old(patterns) && k <= |text|
      ensures HasMatch(Stops(), old(history) + text[..k]) || k == |text|
      ensures Pushed(old(history) + text[..k], old(output), out, ok)
      ensures old(Exact()) ==> ok && Exact()
    {
      ok, out, k := true, [], 0;
      assert old(history) + text[..0] == old(history) && output == output + [];
      NoMatchNoStraddle(Stops(), history, |output|);
      while k < |text| && ok && !matched
        invariant 0 <= k <= |text| && patterns == old(patterns)
        invariant Pushed(old(history) + text[..k], old(output), out, ok)
        invariant old(Exact()) ==> ok && Exact()
      {
        NextCharacter(old(history), text, k);
        ok, out := PushNext(text[k], old(history) + text[..k], old(output), out);
        k := k + 1;
      }
    }

    method PushNext(byte: char, ghost read: string, ghost first: string, shown: string) returns (ok: bool, out: string)
      requires Pushed(read, first, shown, true) && !matched
      modifies this
      ensures patterns == old(patterns) && Pushed(read + [byte], first, out, ok)
      ensures old(Exact()) ==> ok && Exact()
    {
      ghost var before := output;
      var piece;
      ok, piece := PushByte(byte);
      out := shown + piece;
      assert first + out == before + piece;
      if HasMatch(Stops(), read + [byte]) {
        StraddleFrom(Stops(), read + [byte], first, before, ok);
      } else {
        NoMatchNoStraddle(Stops(), read + [byte], |first|);
        NoMatchNoStraddle(Stops(), read + [byte], |before|);
      }
    }

    /** After a match nothing more is shown. */
    ghost method Ignore(text: string)
      requires Sound() && matched
      modifies this`history
      ensures Sound() && history == old(history) + text
    {
      ShownStays(Stops(), history, text, output);
      history := history + text;
    }

    ghost method PassThrough(text: string)
      requires Sound() && !matched && patterns == []
      modifies this`history, this`output
      ensures Valid() && history == old(history) + text && output == old(output) + text
      ensures !HasMatch(Stops(), history)
    {
      history, output := history + text, output + text;
      assert forall n: nat, i: nat :: !EndsAt(Stops(), history, n, i);
      forall i: nat ensures TrackAt(patterns, states, history, i) {}
      assert Withheld(Stops(), history, 0);
    }

    /** One character of a push. */
    method PushByte(byte: char) returns (ok: bool, out: string)
      requires Sound() && !matched
      modifies this
      ensures patterns == old(patterns)
      ensures ok <==> !Straddles(Stops(), old(history) + [byte], |old(output)|)
      ensures ok ==> Sound() && history == old(history) + [byte] && output == old(output) + out
      ensures ok ==> output == old(output) || Exact()
      ensures old(Exact()) ==> ok && Exact()
    {
      var states', hit, which, retained := AdvanceAll(patterns, history, states, byte);
      assert hit ==> TrackAt(patterns, states, history, which);
      states := states';
      pending := pending + [byte];
      history := history + [byte];
      if hit {
        StraddlesStays(Stops(), history, [], |output|, |history|, which);
        ok := |patterns[which].text| <= |pending|;
        if ok { out := EmitMatch(which); } else { out := []; }
      } else {
        NoMatchNoStraddle(Stops(), history, |output|);
        out := EmitAllBut(retained);
        ok := true;
      }
    }

    /** The first match ends here: shows the text before it, and nothing more ever. */
    method EmitMatch(which: nat) returns (out: string)
      requires AllCompiled(patterns) && !matched && output + pending == history
      requires First(Stops(), history, |history|, which) && |patterns[which].text| <= |pending|
      modifies this`pending, this`matched, this`output
      ensures Valid() && matched && output == old(output) + out
    {
      var visible := |pending| - |patterns[which].text|;
      out := pending[..visible];
      output := output + out;
      assert output == history[..|history| - |Stops()[which]|];
      pending, matched := [], true;
      assert history + [] == history;
      MatchShown(Stops(), history, [], which, output);
    }

    /** Shows all but the text that can still start a stop. */
    method EmitAllBut(retained: nat) returns (out: string)
      requires AllCompiled(patterns) && !matched && output + pending == history && !HasMatch(Stops(), history)
      requires Tracking(patterns, states, history) && Withheld(Stops(), history, retained)
      modifies this`pending, this`output
      ensures Sound() && output == old(output) + out
      ensures if retained <= |old(pending)| then Valid() else output == old(output)
    {
      out := [];
      if |pending| > retained {
        out := pending[..|pending| - retained];
        output := output + out;
        pending := pending[|pending| - retained..];
      }
    }

    /** Hands out what is withheld. After it an exact matcher stays exact only if nothing was. Some
        later push fails exactly if the text read so far cuts a stop off; of an exact matcher that is
        seen from what it withheld. */
    method Finish() returns (out: string)
      requires Sound()
      modifies this
      ensures patterns == old(patterns) && history == old(history) && matched == old(matched)
      ensures Sound() && output == old(output) + out
      ensures Visible(Stops(), history, output)
      ensures old(Valid()) ==> (Valid() <==> out == [])
      ensures (exists u: string :: Straddles(Stops(), history + u, |output|)) <==>
        !matched && HasCutOff(Stops(), history)
      ensures old(Valid()) && !matched ==> (HasCutOff(Stops(), history) <==> HasCutOff(Stops(), out))
    {
      out := pending;
      if matched {
        MatchedReuse(Stops(), history, output);
        assert output + [] == output;
      } else {
        HeldReuse(Stops(), history, |pending|);
        assert history[|history| - |pending|..] == pending;
      }
      output := output + out;
      pending := [];
    }

    /** Whether pushing `text` now would complete a stop. */
    method WouldMatch(text: string) returns (r: bool)
      requires Sound()
      ensures r <==> HasMatch(Stops(), history + text)
    {
      if matched {
        MatchStays(Stops(), history, text);
        return true;
      }
      var local := states;
      var k := 0;
      assert history + text[..0] == history;
      while k < |text|
        invariant 0 <= k <= |text| && Tracking(patterns, local, history + text[..k])
        invariant !HasMatch(Stops(), history + text[..k])
      {
        var next, hit, _, _ := AdvanceAll(patterns, history + text[..k], local, text[k]);
        assert history + text[..k] + [text[k]] == history + text[..k + 1];
        if hit {
          MatchStays(Stops(), history + text[..k + 1], text[k + 1..]);
          assert history + text[..k + 1] + text[k + 1..] == history + text;
          return true;
        }
        local := next;
        k := k + 1;
      }
      assert text[..k] == text;
      return false;
    }
  }

  lemma NothingYet(stops: seq<string>)
    requires forall i :: 0 <= i < |stops| ==> stops[i] != []
    ensures !HasMatch(stops, []) && Withheld(stops, [], 0)
  {
  }

  lemma NoMatchNoStraddle(stops: seq<string>, t: string, shown: nat)
    requires !HasMatch(stops, t)
    ensures !Straddles(stops, t, shown)
  {
  }

  /** Only what was shown before the text at hand can be the start of a stop that fails. */
  lemma StraddleFrom(stops: seq<string>, t: string, first: string, shown: string, ok: bool)
    requires HasMatch(stops, t) && first <= shown && (ok <==> !Straddles(stops, t, |shown|))
    requires first == shown || ok
    ensures ok <==> !Straddles(stops, t, |first|)
  {
  }

  lemma MatchStays(stops: seq<string>, t: string, more: string)
    requires HasMatch(stops, t)
    ensures HasMatch(stops, t + more)
  {
    var n: nat, i: nat :| EndsAt(stops, t, n, i);
    assert (t + more)[..n] == t[..n];
    assert EndsAt(stops, t + more, n, i);
  }

  lemma MatchShown(stops: seq<string>, t: string, more: string, i: nat, output: string)
    requires First(stops, t, |t|, i) && output == t[..|t| - |stops[i]|]
    ensures HasMatch(stops, t + more) && Shown(stops, t + more, output)
  {
    FirstStays(stops, t, more, |t|, i);
    assert (t + more)[..|t| - |stops[i]|] == output;
    MatchStays(stops, t, more);
  }

  lemma ShownStays(stops: seq<string>, t: string, more: string, output: string)
    requires HasMatch(stops, t) && Shown(stops, t, output)
    ensures HasMatch(stops, t + more) && Shown(stops, t + more, output)
  {
    var n: nat, i: nat :| First(stops, t, n, i) && output == t[..n - |stops[i]|];
    FirstStays(stops, t, more, n, i);
    assert (t + more)[..n - |stops[i]|] == output;
    MatchStays(stops, t, more);
  }
}

/** What a lookup in the trie means for the retained histories. */
module PrefixLookups {
  import opened Prompts
  import opened PrefixArena
  import opened PrefixRecords

  // ------------------------------------------------------------- paths and nodes

  ghost predicate HasNode(g: Shape, path: seq<Label>) { exists n: nat :: n in g.paths && g.paths[n] == path }

  /** A node below `n` exists only as a child of `n`. */
  lemma ChildIsKid(s: seq<Slot>, g: Shape, next: nat, bare: int, n: nat, edge: Label, c: nat)
    requires Rep(s, g, next, bare) && n in g.paths && c in g.paths && g.paths[c] == g.paths[n] + [edge]
    ensures c in KidsOf(g, n) && LabelOf(s, c) == edge && NodeOf(s, c).parent == n
  {
    assert RootAt(s, g) && ParentAt(s, g, c);
    var p := NodeOf(s, c).parent;
    assert g.paths[c][..|g.paths[c]| - 1] == g.paths[n]
        && (g.paths[p] + [LabelOf(s, c)])[..|g.paths[c]| - 1] == g.paths[p];
    assert PathOnce(g, n, p);
  }

  lemma KidPath(s: seq<Slot>, g: Shape, next: nat, bare: int, n: nat, i: nat)
    requires Rep(s, g, next, bare) && n in g.paths && i < |KidsOf(g, n)|
    ensures var c := KidsOf(g, n)[i];
      && c in g.paths && c < |s| && s[c].NodeSlot? && g.paths[c] == g.paths[n] + [LabelOf(s, c)]
      && NodeOf(s, c).nextSibling == After(KidsOf(g, n), i)
      && (NodeOf(s, c).imageSlot != NoIndex ==>
            && 0 <= NodeOf(s, c).imageSlot < |s| && s[NodeOf(s, c).imageSlot].ImageSlot?
            && s[NodeOf(s, c).imageSlot].image.begin == |g.paths[n]|)
  {
    var c := KidsOf(g, n)[i];
    assert KidAt(s, g, n, i) && ParentAt(s, g, c) && NodeKind(s, g, c) && ImageAt(s, g, c) && NodeAt(s, g, c);
  }

  /** All prefixes of a node's path have nodes. */
  lemma {:induction false} PrefixClosed(s: seq<Slot>, g: Shape, next: nat, bare: int, n: nat, m: nat)
    requires Rep(s, g, next, bare) && n in g.paths && m <= |g.paths[n]|
    ensures HasNode(g, g.paths[n][..m])
    decreases |g.paths[n]|
  {
    if m == |g.paths[n]| {
      assert g.paths[n][..m] == g.paths[n];
    } else {
      assert ParentAt(s, g, n) && RootAt(s, g);
      var p := NodeOf(s, n).parent;
      PrefixClosed(s, g, next, bare, p, m);
      assert g.paths[p][..m] == g.paths[n][..m];
    }
  }

  // ------------------------------------------------------ nodes and histories

  /** Nodes strictly below `n`. */
  ghost function Beneath(g: Shape, n: nat): set<nat>
    requires n in g.paths
  {
    set m | m in g.paths && |g.paths[n]| < |g.paths[m]| && g.paths[m][..|g.paths[n]|] == g.paths[n]
  }

  /** Below every node there is a record. */
  lemma {:induction false} SomeRecord(s: seq<Slot>, g: Shape, next: nat, n: nat) returns (k: nat)
    requires Rep(s, g, next, NoIndex) && n in g.paths && n != 0
    ensures k in g.active && g.paths[n] <= PathAt(g, RecordOf(s, k).node)
    decreases |Beneath(g, n)|
  {
    assert FilledAt(g, NoIndex, n);
    if RecsOf(g, n) != [] {
      assert RecAt(s, g, n, 0);
      k := RecsOf(g, n)[0];
    } else {
      KidPath(s, g, next, NoIndex, n, 0);
      assert KidAt(s, g, n, 0);
      var c := KidsOf(g, n)[0];
      BeneathShrinks(g, n, c);
      k := SomeRecord(s, g, next, c);
      assert g.paths[n] <= g.paths[c];
    }
  }

  lemma BeneathShrinks(g: Shape, n: nat, c: nat)
    requires n in g.paths && c in g.paths && |g.paths[c]| == |g.paths[n]| + 1
      && g.paths[c][..|g.paths[n]|] == g.paths[n]
    ensures |Beneath(g, c)| < |Beneath(g, n)|
  {
    forall m | m in Beneath(g, c) ensures m in Beneath(g, n) {
      assert g.paths[m][..|g.paths[c]|][..|g.paths[n]|] == g.paths[m][..|g.paths[n]|];
    }
    assert c in Beneath(g, n) && c !in Beneath(g, c);
    assert Beneath(g, c) <= Beneath(g, n) - {c};
    SubsetCount(Beneath(g, c), Beneath(g, n) - {c});
  }

  /** The trie's nodes are exactly the root and the prefixes of retained histories. */
  lemma NodesAreHistories(s: seq<Slot>, g: Shape, next: nat, path: seq<Label>)
    requires Rep(s, g, next, NoIndex)
    ensures HasNode(g, path) <==> path == [] || exists c :: c in g.histories && path <= PathOf(g.histories[c])
  {
    if HasNode(g, path) && path != [] {
      var n: nat :| n in g.paths && g.paths[n] == path;
      assert RootAt(s, g);
      var k := SomeRecord(s, g, next, n);
      assert RecordAt(s, g, next, k);
      assert path <= PathOf(g.histories[RecordOf(s, k).checkpoint]);
    }
    if path == [] { assert RootAt(s, g); }
    if exists c :: c in g.histories && path <= PathOf(g.histories[c]) {
      var c :| c in g.histories && path <= PathOf(g.histories[c]);
      HistoryHasNode(s, g, next, c, |path|);
      assert PathOf(g.histories[c])[..|path|] == path;
    }
  }

  lemma HistoryHasNode(s: seq<Slot>, g: Shape, next: nat, c: CheckpointId, n: nat)
    requires Rep(s, g, next, NoIndex) && c in g.histories && n <= |g.histories[c].tokens|
    ensures HasNode(g, PathOf(g.histories[c])[..n])
    ensures ValidImages(g.histories[c].images) && Safe(g.histories[c].images, |g.histories[c].tokens|)
      && g.histories[c].tokens != []
  {
    assert NamedAt(s, g, c);
    var k :| k in g.active && RecordOf(s, k).checkpoint == c;
    assert RecordAt(s, g, next, k) && ParentAt(s, g, RecordOf(s, k).node);
    PrefixClosed(s, g, next, NoIndex, RecordOf(s, k).node, n);
  }

  // ------------------------------------------------------------------- lookups

  predicate LongestSafe(images: Images, bound: nat, n: nat) {
    n <= bound && Safe(images, n) && forall m: nat :: n < m <= bound ==> !Safe(images, m)
  }

  /** `q` matches down to `matched`: the trie has a node there and none one label deeper. */
  ghost predicate Matched(g: Shape, q: History, matched: nat) {
    && matched <= |q.tokens| && HasNode(g, PathOf(q)[..matched])
    && (matched < |q.tokens| ==> !HasNode(g, PathOf(q)[..matched + 1]))
  }

  /** No retained history agrees with `q` any further. */
  lemma NothingDeeper(s: seq<Slot>, g: Shape, next: nat, q: History, matched: nat, c: CheckpointId, n: nat)
    requires Rep(s, g, next, NoIndex) && ValidImages(q.images) && Matched(g, q, matched) && c in g.histories
    requires n <= |q.tokens| && n <= |g.histories[c].tokens|
    requires Same(q.tokens, q.images, g.histories[c].tokens, g.histories[c].images, n)
    ensures n <= matched
  {
    var h := g.histories[c];
    HistoryHasNode(s, g, next, c, 0);
    PathsAgree(q, h, n);
    if matched < n {
      assert PathOf(q)[..n][..matched + 1] == PathOf(q)[..matched + 1];
      assert PathOf(h)[..n][..matched + 1] == PathOf(h)[..matched + 1];
      HistoryHasNode(s, g, next, c, matched + 1);
    }
  }

  /** Images that start inside a common prefix are the same in both histories. */
  lemma SafeTogether(a: History, b: History, n: nat)
    requires ValidImages(a.images) && ValidImages(b.images)
    requires Same(a.tokens, a.images, b.tokens, b.images, n) && Safe(a.images, n)
    ensures Safe(b.images, n)
  {
    forall i | 0 <= i < |b.images| ensures !Splits(b.images[i], n) {
      if b.images[i].begin < n { assert SameAt(a.tokens, a.images, b.tokens, b.images, b.images[i].begin); }
    }
  }

  /** What two prompts share is `n` tokens long. */
  ghost predicate SharesWith(q: History, h: History, n: nat) {
    LongestShared(q.tokens, q.images, h.tokens, h.images, n)
  }

  /** The reported length is the largest common length with any retained history. */
  lemma LongestIsMaximum(s: seq<Slot>, g: Shape, next: nat, q: History, matched: nat, longest: nat)
    requires Rep(s, g, next, NoIndex) && ValidImages(q.images) && Matched(g, q, matched)
      && LongestSafe(q.images, matched, longest)
    ensures forall c, n: nat :: c in g.histories && SharesWith(q, g.histories[c], n) ==> n <= longest
    ensures longest > 0 ==> exists c :: c in g.histories && SharesWith(q, g.histories[c], longest)
  {
    forall c, n: nat | c in g.histories && Shared(q.tokens, q.images, g.histories[c].tokens, g.histories[c].images, n)
      ensures n <= longest {
      NothingDeeper(s, g, next, q, matched, c, n);
    }
    if longest > 0 {
      var m: nat :| m in g.paths && g.paths[m] == PathOf(q)[..matched];
      PrefixClosed(s, g, next, NoIndex, m, longest);
      assert PathOf(q)[..matched][..longest] == PathOf(q)[..longest];
      NodesAreHistories(s, g, next, PathOf(q)[..longest]);
      var c :| c in g.histories && PathOf(q)[..longest] <= PathOf(g.histories[c]);
      var h := g.histories[c];
      HistoryHasNode(s, g, next, c, 0);
      assert PathOf(h)[..longest] == PathOf(q)[..longest];
      PathsAgree(q, h, longest);
      SafeTogether(q, h, longest);
      forall n: nat | Shared(q.tokens, q.images, h.tokens, h.images, n) ensures n <= longest {
        NothingDeeper(s, g, next, q, matched, c, n);
      }
      assert LongestShared(q.tokens, q.images, h.tokens, h.images, longest);
    }
  }

  // -------------------------------------------------------------- usable matches

  type Usable = CheckpointId -> bool

  /** All of history `h` is a shared prefix of `q`. */
  ghost predicate FullMatch(q: History, h: History) {
    Shared(q.tokens, q.images, h.tokens, h.images, |h.tokens|)
  }

  /** Record `k` may be borrowed for `q`, and lies at most `depth` deep. */
  ghost predicate Candidate(s: seq<Slot>, g: Shape, q: History, usable: Usable, depth: nat, k: nat) {
    && k in g.active && usable(RecordOf(s, k).checkpoint)
    && |PathAt(g, RecordOf(s, k).node)| <= depth <= |q.tokens|
    && PathAt(g, RecordOf(s, k).node) == PathOf(q)[..|PathAt(g, RecordOf(s, k).node)|]
    && Safe(q.images, |PathAt(g, RecordOf(s, k).node)|)
  }

  /** Deeper, or as deep and newer. */
  predicate Better(s: seq<Slot>, g: Shape, k: nat, m: nat) {
    var a, b := |PathAt(g, RecordOf(s, k).node)|, |PathAt(g, RecordOf(s, m).node)|;
    a > b || (a == b && RecordOf(s, k).order >= RecordOf(s, m).order)
  }

  /** `found` is the best candidate so far, or `NoIndex` if there is none. */
  ghost predicate BestSoFar(s: seq<Slot>, g: Shape, q: History, usable: Usable, depth: nat, found: int) {
    if found == NoIndex then forall k: nat :: !Candidate(s, g, q, usable, depth, k)
    else found >= 0 && Candidate(s, g, q, usable, depth, found) && forall k: nat ::
        Candidate(s, g, q, usable, depth, k) ==> Better(s, g, found, k)
  }

  /** Candidates one label deeper are the usable records of the node there. */
  lemma DeeperCandidates(s: seq<Slot>, g: Shape, next: nat, q: History, usable: Usable, depth: nat, node: nat, k: nat)
    requires Rep(s, g, next, NoIndex) && depth < |q.tokens| && node in g.paths
      && g.paths[node] == PathOf(q)[..depth + 1]
    ensures Candidate(s, g, q, usable, depth + 1, k) <==>
              Candidate(s, g, q, usable, depth, k)
                  || (k in RecsOf(g, node) && usable(RecordOf(s, k).checkpoint) && Safe(q.images, depth + 1))
  {
    assert RecordAt(s, g, next, k);
    if Candidate(s, g, q, usable, depth + 1, k) && !Candidate(s, g, q, usable, depth, k) {
      assert PathOnce(g, RecordOf(s, k).node, node);
    }
    if k in RecsOf(g, node) {
      var i: nat :| i < |RecsOf(g, node)| && RecsOf(g, node)[i] == k;
      assert RecAt(s, g, node, i);
    }
  }

  /** The candidates at full depth are exactly the usable retained histories that match fully. */
  lemma CandidateIsMatch(s: seq<Slot>, g: Shape, next: nat, q: History, usable: Usable, matched: nat, k: nat)
    requires Rep(s, g, next, NoIndex) && ValidImages(q.images) && Matched(g, q, matched) && k in g.active
    ensures RecordOf(s, k).checkpoint in g.histories
    ensures var c := RecordOf(s, k).checkpoint;
      && |PathAt(g, RecordOf(s, k).node)| == |g.histories[c].tokens|
      && (Candidate(s, g, q, usable, matched, k) <==> usable(c) && FullMatch(q, g.histories[c]))
  {
    assert RecordAt(s, g, next, k);
    var c := RecordOf(s, k).checkpoint;
    var h := g.histories[c];
    var n := |h.tokens|;
    assert PathOf(h)[..n] == PathOf(h);
    if n <= |q.tokens| {
      PathsAgree(q, h, n);
      if Same(q.tokens, q.images, h.tokens, h.images, n) { NothingDeeper(s, g, next, q, matched, c, n); }
    }
  }
}

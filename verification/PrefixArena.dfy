/** The slot arena of the prefix index. One array holds trie nodes, checkpoint records and
    image identities; free slots, siblings, the records of a node and all records are linked
    lists through it. `Rep` relates the slots to the tree and lists they stand for. */
module PrefixArena {
  import opened Prompts

  type CheckpointId = nat

  /** Stands for "no slot". */
  const NoIndex := -1

  /** One edge of the trie: a token, and the image whose features start at it. */
  datatype Label = Label(token: Token, image: Option<Image>)

  datatype TrieNode = TrieNode(
    token: Token, imageSlot: int, parent: int, firstChild: int, nextSibling: int, firstRecord: int, depth: nat)

  datatype Source = InputEndpoint | ContinuationEndpoint | LearnedBranch | Periodic
  datatype Priority = Low | Normal | High
  datatype CacheClass = Probationary | Reused

  datatype Record = Record(
    checkpoint: CheckpointId, node: nat, nextAtNode: int, nextActive: int, previousActive: int,
    sources: set<Source>, priority: Priority, cacheClass: CacheClass, referenceBit: bool, order: nat, reuse: nat)

  datatype Slot = FreeSlot(next: int) | NodeSlot(node: TrieNode) | RecordSlot(record: Record) | ImageSlot(image: Image)

  datatype History = History(tokens: seq<Token>, images: Images)

  /** What the slots mean. `owners` maps an image slot to its node. */
  datatype Shape = Shape(
    free: seq<nat>, active: seq<nat>, kids: map<nat, seq<nat>>, recs: map<nat, seq<nat>>,
    paths: map<nat, seq<Label>>, owners: map<nat, nat>, histories: map<CheckpointId, History>)

  // ---------------------------------------------------------------- histories

  function ImageFrom(images: Images, position: nat, i: nat): Option<Image>
    decreases |images| - i
  {
    if i >= |images| then None
    else if images[i].begin == position then Some(images[i])
    else ImageFrom(images, position, i + 1)
  }

  function LabelAt(h: History, i: nat): Label
    requires i < |h.tokens|
  {
    Label(h.tokens[i], ImageFrom(h.images, i, 0))
  }

  function PathOf(h: History): (r: seq<Label>)
    ensures |r| == |h.tokens| && forall i :: 0 <= i < |r| ==> r[i] == LabelAt(h, i)
  {
    seq(|h.tokens|, i requires 0 <= i < |h.tokens| => LabelAt(h, i))
  }

  lemma {:induction false} ImageFromIs(images: Images, position: nat, i: nat, image: Image)
    requires ValidImages(images) && i <= |images|
    ensures ImageFrom(images, position, i) == Some(image) <==> image in images[i..] && image.begin == position
    decreases |images| - i
  {
    if i < |images| {
      ImageFromIs(images, position, i + 1, image);
      assert images[i..] == [images[i]] + images[i + 1..];
      if images[i].begin == position && image in images[i + 1..] {
        var k: nat :| i + 1 <= k < |images| && images[k] == image;
        assert images[i].end <= images[k].begin;
      }
    }
  }

  /** Two histories agree up to `n` exactly when their paths do. */
  lemma PathsAgree(a: History, b: History, n: nat)
    requires ValidImages(a.images) && ValidImages(b.images) && n <= |a.tokens| && n <= |b.tokens|
    ensures Same(a.tokens, a.images, b.tokens, b.images, n) <==> PathOf(a)[..n] == PathOf(b)[..n]
  {
    forall i: nat | i < n ensures SameAt(a.tokens, a.images, b.tokens, b.images, i) <==> PathOf(a)[i] == PathOf(b)[i] {
      StartAgrees(a.images, b.images, i);
    }
    if PathOf(a)[..n] == PathOf(b)[..n] {
      forall i: nat | i < n ensures SameAt(a.tokens, a.images, b.tokens, b.images, i) {
        assert PathOf(a)[..n][i] == PathOf(b)[..n][i];
      }
    }
  }

  lemma StartAgrees(ai: Images, bi: Images, i: nat)
    requires ValidImages(ai) && ValidImages(bi)
    ensures SameStart(ai, bi, i) <==> ImageFrom(ai, i, 0) == ImageFrom(bi, i, 0)
  {
    assert ai[0..] == ai && bi[0..] == bi;
    forall image ensures (ImageFrom(ai, i, 0) == Some(image) <==> image in ai && image.begin == i)
                      && (ImageFrom(bi, i, 0) == Some(image) <==> image in bi && image.begin == i)
    {
      ImageFromIs(ai, i, 0, image);
      ImageFromIs(bi, i, 0, image);
    }
    if SameStart(ai, bi, i) {
      StartCarries(ai, bi, i);
      StartCarries(bi, ai, i);
    }
    if ImageFrom(ai, i, 0) == ImageFrom(bi, i, 0) {
      forall k | 0 <= k < |ai| && ai[k].begin == i ensures ai[k] in bi { assert ai[k] in ai; }
      forall k | 0 <= k < |bi| && bi[k].begin == i ensures bi[k] in ai { assert bi[k] in bi; }
    }
  }

  lemma StartCarries(ai: Images, bi: Images, i: nat)
    requires SameStart(ai, bi, i)
    ensures forall image :: image in ai && image.begin == i ==> image in bi
  {
  }

  // ------------------------------------------------------------------- access

  function NodeOf(s: seq<Slot>, k: nat): TrieNode {
    if k < |s| && s[k].NodeSlot? then s[k].node else TrieNode(0, NoIndex, NoIndex, NoIndex, NoIndex, NoIndex, 0)
  }

  function RecordOf(s: seq<Slot>, k: nat): Record {
    if k < |s| && s[k].RecordSlot? then s[k].record
    else Record(0, 0, NoIndex, NoIndex, NoIndex, {}, Normal, Probationary, false, 0, 0)
  }

  function LabelOf(s: seq<Slot>, k: nat): Label {
    var x := NodeOf(s, k);
    Label(x.token, if 0 <= x.imageSlot < |s| && s[x.imageSlot].ImageSlot? then Some(s[x.imageSlot].image) else None)
  }

  function KidsOf(g: Shape, n: nat): seq<nat> { if n in g.kids then g.kids[n] else [] }
  function RecsOf(g: Shape, n: nat): seq<nat> { if n in g.recs then g.recs[n] else [] }
  function PathAt(g: Shape, n: nat): seq<Label> { if n in g.paths then g.paths[n] else [] }

  function Head(list: seq<nat>): int { if list == [] then NoIndex else list[0] }
  function After(list: seq<nat>, i: nat): int { if i + 1 < |list| then list[i + 1] else NoIndex }
  function Before(list: seq<nat>, i: nat): int { if 0 < i <= |list| then list[i - 1] else NoIndex }

  // --------------------------------------------------------------- representation

  predicate FreeAt(s: seq<Slot>, g: Shape, i: nat) {
    i < |g.free| ==> g.free[i] < |s| && s[g.free[i]] == FreeSlot(After(g.free, i))
  }
  predicate FreeOnce(g: Shape, i: nat, j: nat) { i < j < |g.free| ==> g.free[i] != g.free[j] }
  predicate FreeCovers(s: seq<Slot>, g: Shape, k: nat) { k < |s| && s[k].FreeSlot? ==> k in g.free }

  /** The free slots, each once, linked in order. */
  ghost predicate FreeOk(s: seq<Slot>, g: Shape) {
    && (forall i: nat :: FreeAt(s, g, i)) && (forall i: nat, j: nat :: FreeOnce(g, i, j))
    && (forall k: nat :: FreeCovers(s, g, k))
  }

  predicate NodeKind(s: seq<Slot>, g: Shape, k: nat) {
    (k in g.paths <==> k < |s| && s[k].NodeSlot?) && (k in g.paths <==> k in g.kids) && (k in g.paths <==> k in g.recs)
  }
  predicate RootAt(s: seq<Slot>, g: Shape) {
    0 in g.paths && g.paths[0] == [] && NodeOf(s, 0).imageSlot == NoIndex
  }
  predicate NodeAt(s: seq<Slot>, g: Shape, n: nat) {
    n in g.paths ==>
      && NodeOf(s, n).depth == |g.paths[n]|
      && NodeOf(s, n).firstChild == Head(KidsOf(g, n)) && NodeOf(s, n).firstRecord == Head(RecsOf(g, n))
  }
  /** A node but the root hangs below its parent, one label deeper. */
  predicate ParentAt(s: seq<Slot>, g: Shape, n: nat) {
    n in g.paths && n != 0 ==>
      && NodeOf(s, n).parent >= 0 && NodeOf(s, n).parent in g.paths
      && g.paths[n] == g.paths[NodeOf(s, n).parent] + [LabelOf(s, n)]
      && n in KidsOf(g, NodeOf(s, n).parent)
  }
  /** No node but `bare` is left without children and records. */
  predicate FilledAt(g: Shape, bare: int, n: nat) {
    n in g.paths && n != 0 && n != bare ==> KidsOf(g, n) != [] || RecsOf(g, n) != []
  }
  predicate PathOnce(g: Shape, j: nat, k: nat) { j in g.paths && k in g.paths && g.paths[j] == g.paths[k] ==> j == k }
  predicate KidAt(s: seq<Slot>, g: Shape, n: nat, i: nat) {
    i < |KidsOf(g, n)| ==>
      && KidsOf(g, n)[i] in g.paths && KidsOf(g, n)[i] != 0
      && NodeOf(s, KidsOf(g, n)[i]).parent == n && NodeOf(s, KidsOf(g, n)[i]).nextSibling == After(KidsOf(g, n), i)
  }
  predicate KidOnce(g: Shape, n: nat, i: nat, j: nat) { i < j < |KidsOf(g, n)| ==> KidsOf(g, n)[i] != KidsOf(g, n)[j] }

  /** The trie: one node per path, linked to its parent and through its siblings. */
  ghost predicate TreeOk(s: seq<Slot>, g: Shape, bare: int) {
    && RootAt(s, g)
    && (forall k: nat :: NodeKind(s, g, k)) && (forall n: nat :: NodeAt(s, g, n))
    && (forall n: nat :: ParentAt(s, g, n))
    && (forall n: nat :: FilledAt(g, bare, n)) && (forall j: nat, k: nat :: PathOnce(g, j, k))
    && (forall n: nat, i: nat :: KidAt(s, g, n, i)) && (forall n: nat, i: nat, j: nat :: KidOnce(g, n, i, j))
  }

  predicate ImageAt(s: seq<Slot>, g: Shape, n: nat) {
    n in g.paths && NodeOf(s, n).imageSlot != NoIndex ==>
      && 0 <= NodeOf(s, n).imageSlot < |s| && s[NodeOf(s, n).imageSlot].ImageSlot?
      && s[NodeOf(s, n).imageSlot].image.begin + 1 == NodeOf(s, n).depth
      && NodeOf(s, n).imageSlot in g.owners && g.owners[NodeOf(s, n).imageSlot] == n
  }
  predicate ImageOwned(s: seq<Slot>, g: Shape, k: nat) {
    (k in g.owners <==> k < |s| && s[k].ImageSlot?)
        && (k in g.owners ==> g.owners[k] in g.paths && NodeOf(s, g.owners[k]).imageSlot == k)
  }

  /** Every image slot belongs to exactly one node. */
  ghost predicate ImagesOk(s: seq<Slot>, g: Shape) {
    (forall n: nat :: ImageAt(s, g, n)) && (forall k: nat :: ImageOwned(s, g, k))
  }

  predicate ActiveAt(s: seq<Slot>, g: Shape, i: nat) {
    i < |g.active| ==>
      && g.active[i] < |s| && s[g.active[i]].RecordSlot?
      && RecordOf(s, g.active[i]).nextActive == After(g.active, i)
      && RecordOf(s, g.active[i]).previousActive == Before(g.active, i)
  }
  predicate ActiveCovers(s: seq<Slot>, g: Shape, k: nat) { k < |s| && s[k].RecordSlot? ==> k in g.active }
  predicate ActiveOrder(s: seq<Slot>, g: Shape, i: nat, j: nat) {
    i < j < |g.active| ==>
      && RecordOf(s, g.active[i]).order > RecordOf(s, g.active[j]).order
      && RecordOf(s, g.active[i]).checkpoint != RecordOf(s, g.active[j]).checkpoint
  }
  predicate RecordAt(s: seq<Slot>, g: Shape, next: nat, k: nat) {
    k in g.active ==>
      && RecordOf(s, k).node in g.paths && RecordOf(s, k).node != 0 && k in RecsOf(g, RecordOf(s, k).node)
      && RecordOf(s, k).checkpoint > 0 && RecordOf(s, k).order < next
      && RecordOf(s, k).checkpoint in g.histories
      && ValidImages(g.histories[RecordOf(s, k).checkpoint].images)
      && Safe(g.histories[RecordOf(s, k).checkpoint].images, |g.histories[RecordOf(s, k).checkpoint].tokens|)
      && PathOf(g.histories[RecordOf(s, k).checkpoint]) == g.paths[RecordOf(s, k).node]
  }

  predicate NamedAt(s: seq<Slot>, g: Shape, c: CheckpointId) {
    c in g.histories ==> exists k :: k in g.active && RecordOf(s, k).checkpoint == c
  }

  /** The list of all records, newest first. */
  ghost predicate ActiveOk(s: seq<Slot>, g: Shape, next: nat) {
    && (forall i: nat :: ActiveAt(s, g, i)) && (forall k: nat :: ActiveCovers(s, g, k))
    && (forall i: nat, j: nat :: ActiveOrder(s, g, i, j)) && (forall k: nat :: RecordAt(s, g, next, k))
    && (forall c :: NamedAt(s, g, c))
  }

  predicate RecAt(s: seq<Slot>, g: Shape, n: nat, i: nat) {
    i < |RecsOf(g, n)| ==>
      && RecsOf(g, n)[i] in g.active && RecordOf(s, RecsOf(g, n)[i]).node == n
      && RecordOf(s, RecsOf(g, n)[i]).nextAtNode == After(RecsOf(g, n), i)
  }
  predicate RecOrder(s: seq<Slot>, g: Shape, n: nat, i: nat, j: nat) {
    i < j < |RecsOf(g, n)| ==> RecordOf(s, RecsOf(g, n)[i]).order > RecordOf(s, RecsOf(g, n)[j]).order
  }

  /** The records of each node, newest first. */
  ghost predicate RecsOk(s: seq<Slot>, g: Shape) {
    (forall n: nat, i: nat :: RecAt(s, g, n, i)) && (forall n: nat, i: nat, j: nat :: RecOrder(s, g, n, i, j))
  }

  ghost predicate Rep(s: seq<Slot>, g: Shape, next: nat, bare: int) {
    FreeOk(s, g) && TreeOk(s, g, bare) && ImagesOk(s, g) && ActiveOk(s, g, next) && RecsOk(s, g)
  }

  // ------------------------------------------------------------------ a new node

  /** The slots after `allocate_node`: the free slots it takes, and the parent's first child. */
  function WithNode(s: seq<Slot>, g: Shape, parent: nat, token: Token, image: Option<Image>): seq<Slot>
    requires |g.free| >= (if image.Some? then 2 else 1) && (forall i: nat :: FreeAt(s, g, i)) && parent < |s|
  {
    assert FreeAt(s, g, 0);
    assert image.Some? ==> FreeAt(s, g, 1);
    var p := NodeOf(s, parent);
    var n := if image.Some? then g.free[1] else g.free[0];
    var withImage := if image.Some? then s[g.free[0] := ImageSlot(image.value)] else s;
    var node := TrieNode(token, if image.Some? then g.free[0]
        else NoIndex, parent, NoIndex, p.firstChild, NoIndex, p.depth + 1);
    withImage[n := NodeSlot(node)][parent := NodeSlot(p.(firstChild := n))]
  }

  function NewNode(g: Shape, image: Option<Image>): nat
    requires |g.free| >= (if image.Some? then 2 else 1)
  {
    if image.Some? then g.free[1] else g.free[0]
  }

  function NodeShape(g: Shape, parent: nat, token: Token, image: Option<Image>): Shape
    requires |g.free| >= (if image.Some? then 2 else 1)
  {
    var n := NewNode(g, image);
    g.(free := g.free[if image.Some? then 2 else 1..],
       kids := g.kids[parent := [n] + KidsOf(g, parent)][n := []],
       recs := g.recs[n := []],
       paths := g.paths[n := PathAt(g, parent) + [Label(token, image)]],
       owners := if image.Some? then g.owners[g.free[0] := n] else g.owners)
  }

  /** What may be added below `parent`. */
  ghost predicate NodeFits(s: seq<Slot>, g: Shape, next: nat, bare: int, parent: nat, token: Token,
      image: Option<Image>) {
    && Rep(s, g, next, bare) && (bare == NoIndex || bare == parent)
    && parent in g.paths && parent < |s| && |g.free| >= (if image.Some? then 2 else 1)
    && (image.Some? ==> image.value.begin == NodeOf(s, parent).depth)
    && (forall k: nat :: k in g.paths ==> g.paths[k] != g.paths[parent] + [Label(token, image)])
  }

  /** Facts about which slots the new node takes. */
  lemma NewSlots(s: seq<Slot>, g: Shape, next: nat, bare: int, parent: nat, token: Token, image: Option<Image>)
    requires NodeFits(s, g, next, bare, parent, token, image)
    ensures var n, s' := NewNode(g, image), WithNode(s, g, parent, token, image);
      && parent < |s| && |s'| == |s| && n < |s| && n != parent && s[n].FreeSlot? && n !in g.paths && n != 0
      && n !in g.active && n !in g.owners
      && (image.Some? ==> g.free[0] < |s| && g.free[0] != n && g.free[0] != parent && s[g.free[0]].FreeSlot?
                          && g.free[0] !in g.paths && g.free[0] !in g.active && g.free[0] !in g.owners)
      && s'[parent] == NodeSlot(NodeOf(s, parent).(firstChild := n))
      && s'[n] == NodeSlot(TrieNode(token, if image.Some? then g.free[0]
         else NoIndex, parent, NoIndex, NodeOf(s, parent).firstChild,
                                    NoIndex, NodeOf(s, parent).depth + 1))
      && (image.Some? ==> s'[g.free[0]] == ImageSlot(image.value))
      && (forall k: nat :: k < |s| && k != n && k != parent && !(image.Some? && k == g.free[0]) ==> s'[k] == s[k])
  {
    assert FreeAt(s, g, 0) && FreeAt(s, g, 1) && FreeOnce(g, 0, 1) && NodeKind(s, g, parent);
    var n := NewNode(g, image);
    NotFree(s, g, next, bare, n);
    NotFree(s, g, next, bare, g.free[0]);
    assert NodeKind(s, g, 0);
  }

  /** A free slot plays no other part. */
  lemma NotFree(s: seq<Slot>, g: Shape, next: nat, bare: int, k: nat)
    requires Rep(s, g, next, bare) && k < |s| && s[k].FreeSlot?
    ensures k !in g.paths && k !in g.active && k !in g.owners
  {
    assert NodeKind(s, g, k) && ImageOwned(s, g, k);
    forall i: nat | i < |g.active| ensures g.active[i] != k { assert ActiveAt(s, g, i); }
  }

  /** Old nodes keep their contents, but for the parent's first child. */
  lemma NodeKept(s: seq<Slot>, g: Shape, next: nat, bare: int, parent: nat, token: Token, image: Option<Image>, k: nat)
    requires NodeFits(s, g, next, bare, parent, token, image) && k in g.paths
    ensures var n, s' := NewNode(g, image), WithNode(s, g, parent, token, image);
      && k != n && NodeOf(s', k) == (if k == parent then NodeOf(s, k).(firstChild := n) else NodeOf(s, k))
      && LabelOf(s', k) == LabelOf(s, k)
  {
    NewSlots(s, g, next, bare, parent, token, image);
    assert NodeKind(s, g, k) && ImageAt(s, g, k);
    var slot := NodeOf(s, k).imageSlot;
    if 0 <= slot { assert NodeKind(s, g, slot) && NodeKind(s, g, parent); }
  }

  lemma NewKept(s: seq<Slot>, g: Shape, next: nat, bare: int, parent: nat, token: Token, image: Option<Image>)
    requires NodeFits(s, g, next, bare, parent, token, image)
    ensures var n, s' := NewNode(g, image), WithNode(s, g, parent, token, image);
      && NodeOf(s', n) == TrieNode(token, if image.Some? then g.free[0]
         else NoIndex, parent, NoIndex, NodeOf(s, parent).firstChild,
                                   NoIndex, NodeOf(s, parent).depth + 1)
      && LabelOf(s', n) == Label(token, image)
  {
    NewSlots(s, g, next, bare, parent, token, image);
  }

  lemma AddNodeFree(s: seq<Slot>, g: Shape, next: nat, bare: int, parent: nat, token: Token, image: Option<Image>)
    requires NodeFits(s, g, next, bare, parent, token, image)
    ensures FreeOk(WithNode(s, g, parent, token, image), NodeShape(g, parent, token, image))
  {
    NewSlots(s, g, next, bare, parent, token, image);
    var s', g' := WithNode(s, g, parent, token, image), NodeShape(g, parent, token, image);
    var taken := if image.Some? then 2 else 1;
    forall i: nat ensures FreeAt(s', g', i) {
      assert FreeAt(s, g, i + taken) && FreeOnce(g, 0, i + taken) && FreeOnce(g, 1, i + taken);
      assert NodeKind(s, g, parent);
    }
    forall i: nat, j: nat ensures FreeOnce(g', i, j) { assert FreeOnce(g, i + taken, j + taken); }
    forall k: nat ensures FreeCovers(s', g', k) {
      assert FreeCovers(s, g, k);
      if k in g.free && k != g.free[0] && (taken == 2 ==> k != g.free[1]) {
        var i: nat :| i < |g.free| && g.free[i] == k;
        assert g'.free[i - taken] == k;
      }
    }
  }

  lemma AddNodeTree(s: seq<Slot>, g: Shape, next: nat, bare: int, parent: nat, token: Token, image: Option<Image>)
    requires NodeFits(s, g, next, bare, parent, token, image)
    ensures TreeOk(WithNode(s, g, parent, token, image), NodeShape(g, parent, token, image), NewNode(g, image))
  {
    NewSlots(s, g, next, bare, parent, token, image);
    NewKept(s, g, next, bare, parent, token, image);
    var n, s', g' := NewNode(g, image), WithNode(s, g, parent, token, image), NodeShape(g, parent, token, image);
    NodeKept(s, g, next, bare, parent, token, image, 0);
    forall k: nat ensures NodeKind(s', g', k) { assert NodeKind(s, g, k) && NodeKind(s, g, parent); }
    forall m: nat ensures NodeAt(s', g', m) {
      assert NodeAt(s, g, m) && NodeAt(s, g, parent);
      if m in g.paths { NodeKept(s, g, next, bare, parent, token, image, m); assert NodeKind(s, g, m); }
    }
    forall m: nat ensures ParentAt(s', g', m) {
      assert ParentAt(s, g, m);
      if m in g.paths { NodeKept(s, g, next, bare, parent, token, image, m); }
    }
    forall m: nat ensures FilledAt(g', n, m) { assert FilledAt(g, bare, m); }
    forall j: nat, k: nat ensures PathOnce(g', j, k) { assert PathOnce(g, j, k); }
    AddNodeKids(s, g, next, bare, parent, token, image);
  }

  lemma AddNodeKids(s: seq<Slot>, g: Shape, next: nat, bare: int, parent: nat, token: Token, image: Option<Image>)
    requires NodeFits(s, g, next, bare, parent, token, image)
    ensures forall m: nat, i: nat ::
      KidAt(WithNode(s, g, parent, token, image), NodeShape(g, parent, token, image), m, i)
    ensures forall m: nat, i: nat, j: nat :: KidOnce(NodeShape(g, parent, token, image), m, i, j)
  {
    NewSlots(s, g, next, bare, parent, token, image);
    NewKept(s, g, next, bare, parent, token, image);
    var n, s', g' := NewNode(g, image), WithNode(s, g, parent, token, image), NodeShape(g, parent, token, image);
    assert NodeKind(s, g, n) && NodeKind(s, g, parent) && NodeAt(s, g, parent);
    forall m: nat, i: nat ensures KidAt(s', g', m, i) {
      var old_i := if m == parent && i > 0 then i - 1 else i;
      assert KidAt(s, g, m, old_i) && KidAt(s, g, m, 0);
      if old_i < |KidsOf(g, m)| { NodeKept(s, g, next, bare, parent, token, image, KidsOf(g, m)[old_i]); }
    }
    forall m: nat, i: nat, j: nat ensures KidOnce(g', m, i, j) {
      if m == parent {
        if 0 < i < j { assert KidOnce(g, m, i - 1, j - 1); }
        if 0 < j { assert KidAt(s, g, m, j - 1); }
      } else {
        assert KidOnce(g, m, i, j);
      }
    }
  }

  lemma AddNodeImages(s: seq<Slot>, g: Shape, next: nat, bare: int, parent: nat, token: Token, image: Option<Image>)
    requires NodeFits(s, g, next, bare, parent, token, image)
    ensures ImagesOk(WithNode(s, g, parent, token, image), NodeShape(g, parent, token, image))
  {
    NewSlots(s, g, next, bare, parent, token, image);
    NewKept(s, g, next, bare, parent, token, image);
    var n, s', g' := NewNode(g, image), WithNode(s, g, parent, token, image), NodeShape(g, parent, token, image);
    assert NodeKind(s, g, n) && NodeKind(s, g, parent);
    forall m: nat ensures ImageAt(s', g', m) {
      assert ImageAt(s, g, m) && NodeKind(s, g, m);
      if m in g.paths {
        NodeKept(s, g, next, bare, parent, token, image, m);
        if NodeOf(s, m).imageSlot >= 0 { assert NodeKind(s, g, NodeOf(s, m).imageSlot); }
      }
    }
    forall k: nat ensures ImageOwned(s', g', k) {
      assert ImageOwned(s, g, k) && NodeKind(s, g, k);
      if k in g.owners { NodeKept(s, g, next, bare, parent, token, image, g.owners[k]); }
    }
  }

  lemma AddNodeRecords(s: seq<Slot>, g: Shape, next: nat, bare: int, parent: nat, token: Token, image: Option<Image>)
    requires NodeFits(s, g, next, bare, parent, token, image)
    ensures ActiveOk(WithNode(s, g, parent, token, image), NodeShape(g, parent, token, image), next)
    ensures RecsOk(WithNode(s, g, parent, token, image), NodeShape(g, parent, token, image))
  {
    NewSlots(s, g, next, bare, parent, token, image);
    var n, s', g' := NewNode(g, image), WithNode(s, g, parent, token, image), NodeShape(g, parent, token, image);
    assert NodeKind(s, g, n) && NodeKind(s, g, parent);
    forall k: nat | k < |s| && s[k].RecordSlot? ensures s'[k] == s[k] {}
    forall k: nat ensures RecordOf(s', k) == RecordOf(s, k) {}
    forall i: nat ensures ActiveAt(s', g', i) { assert ActiveAt(s, g, i); }
    forall k: nat ensures ActiveCovers(s', g', k) { assert ActiveCovers(s, g, k); }
    forall i: nat, j: nat ensures ActiveOrder(s', g', i, j) { assert ActiveOrder(s, g, i, j); }
    forall k: nat ensures RecordAt(s', g', next, k) { assert RecordAt(s, g, next, k); }
    forall c ensures NamedAt(s', g', c) { assert NamedAt(s, g, c); }
    forall m: nat, i: nat ensures RecAt(s', g', m, i) { assert RecAt(s, g, m, i) && NodeKind(s, g, m); }
    forall m: nat, i: nat, j: nat ensures RecOrder(s', g', m, i, j) {
      assert RecOrder(s, g, m, i, j) && NodeKind(s, g, m);
    }
  }

  /** A new node leaves everything else as it was; it is the one that is still bare. */
  lemma AddNode(s: seq<Slot>, g: Shape, next: nat, bare: int, parent: nat, token: Token, image: Option<Image>)
    requires NodeFits(s, g, next, bare, parent, token, image)
    ensures Rep(WithNode(s, g, parent, token, image), NodeShape(g, parent, token, image), next, NewNode(g, image))
  {
    AddNodeFree(s, g, next, bare, parent, token, image);
    AddNodeTree(s, g, next, bare, parent, token, image);
    AddNodeImages(s, g, next, bare, parent, token, image);
    AddNodeRecords(s, g, next, bare, parent, token, image);
  }

  // ------------------------------------------------------------------ counting

  function Elements(list: seq<nat>): set<nat> { set k | k in list }

  lemma {:induction false} ElementsCount(list: seq<nat>)
    requires forall i, j :: 0 <= i < j < |list| ==> list[i] != list[j]
    ensures |Elements(list)| == |list|
  {
    if list != [] {
      ElementsCount(list[1..]);
      assert Elements(list) == Elements(list[1..]) + {list[0]};
    }
  }

  function Below(n: nat): (r: set<nat>)
    ensures |r| == n && forall k: nat :: k in r <==> k < n
  {
    if n == 0 then {} else Below(n - 1) + {n - 1}
  }

  lemma SubsetCount(a: set<nat>, b: set<nat>)
    requires a <= b
    ensures |a| <= |b|
  {
    assert b == a + (b - a);
  }

  /** The root occupies a slot, so never all of them are free. */
  lemma FreeFewer(s: seq<Slot>, g: Shape, next: nat, bare: int)
    requires Rep(s, g, next, bare)
    ensures |g.free| < |s|
  {
    assert RootAt(s, g) && NodeKind(s, g, 0);
    forall i, j | 0 <= i < j < |g.free| ensures g.free[i] != g.free[j] { assert FreeOnce(g, i, j); }
    ElementsCount(g.free);
    forall k | k in Elements(g.free) ensures k in Below(|s|) - {0} {
      var i: nat :| i < |g.free| && g.free[i] == k;
      assert FreeAt(s, g, i);
    }
    SubsetCount(Elements(g.free), Below(|s|) - {0});
  }
}

/** The prefix index: a bounded trie of exact token and image histories over the slot arena,
    which answers lookups as a plain map from checkpoint to history would. */
module PrefixIndexes {
  import opened Prompts
  import opened PrefixArena
  import opened PrefixRecords
  import opened PrefixPrune
  import opened PrefixLookups
  import opened PrefixLog
  import opened PrefixThinning
  import opened PrefixClock

  // The size one slot is charged at, and the largest number of slots an index can name.
  const SLOT_BYTES: nat := 80
  const INDEX_SPACE: nat := 0xFFFF_FFFF

  // --------------------------------------------------------------- image cursors

  /** The images before `index` end at or before `position`. */
  predicate Cursor(images: Images, index: nat, position: nat) {
    index <= |images| && forall k :: 0 <= k < index ==> images[k].end <= position
  }

  lemma {:induction false} SkipImages(images: Images, position: nat, index: nat, i: nat)
    requires i <= index <= |images| && (forall k :: i <= k < index ==> images[k].begin != position)
    ensures ImageFrom(images, position, i) == ImageFrom(images, position, index)
    decreases index - i
  {
    if i < index { SkipImages(images, position, index, i + 1); }
  }

  /** The image that starts at `position`, with the cursor moved past finished images. */
  method ImageAtCursor(images: Images, position: nat, index: nat) returns (image: Option<Image>, cursor: nat)
    requires ValidImages(images) && Cursor(images, index, position)
    ensures image == ImageFrom(images, position, 0) && Cursor(images, cursor, position)
    ensures cursor < |images| ==> images[cursor].end > position
    ensures image.Some? ==> image.value.begin == position
  {
    cursor := index;
    while cursor < |images| && images[cursor].end <= position
      invariant Cursor(images, cursor, position)
    {
      cursor := cursor + 1;
    }
    SkipImages(images, position, cursor, 0);
    if cursor < |images| && images[cursor].begin == position { return Some(images[cursor]), cursor; }
    NoImageFrom(images, position, cursor);
    return None, cursor;
  }

  // ---------------------------------------------------------------- construction

  function Rest(n: nat, from: nat): (r: seq<nat>)
    requires from <= n
    ensures |r| == n - from && forall i :: 0 <= i < |r| ==> r[i] == from + i
  {
    seq(n - from, i requires 0 <= i < n - from => from + i)
  }

  const Root := TrieNode(0, NoIndex, NoIndex, NoIndex, NoIndex, NoIndex, 0)

  function EmptyShape(n: nat): Shape
    requires n > 0
  {
    Shape(Rest(n, 1), [], map[0 := []], map[0 := []], map[0 := []], map[], map[])
  }

  lemma EmptyRep(s: seq<Slot>)
    requires |s| > 0 && s[0] == NodeSlot(Root)
    requires forall i :: 1 <= i < |s| ==> s[i] == FreeSlot(if i + 1 == |s| then NoIndex else i + 1)
    ensures Rep(s, EmptyShape(|s|), 1, NoIndex)
  {
    var g := EmptyShape(|s|);
    forall k: nat ensures FreeCovers(s, g, k) { if 0 < k < |s| { assert g.free[k - 1] == k; } }
  }

  // -------------------------------------------------------------------- the index

  /** `m` is no slot, or another record than `k`. */
  predicate IsOther(s: seq<Slot>, k: nat, m: int) { m == NoIndex || (0 <= m < |s| && s[m].RecordSlot? && m != k) }

  datatype Lookup = Lookup(longest: nat, checkpoint: CheckpointId, tokens: nat)

  class PrefixIndex {
    const metadataBytes: nat
    const slots: array<Slot>
    var usedBytes: nat
    var activeNodes: nat
    var activeRecords: nat
    var nextOrder: nat
    var clockHand: int
    var freeSlot: int
    var activeHead: int
    ghost var shape: Shape

    /** The counters and list heads agree with the arena. */
    ghost predicate Counted()
      reads this
    {
      && slots.Length > 0 && slots.Length == metadataBytes / SLOT_BYTES
      && freeSlot == Head(shape.free) && activeHead == Head(shape.active)
      && |shape.free| <= slots.Length && usedBytes == (slots.Length - |shape.free|) * SLOT_BYTES
      && activeNodes == |shape.paths| && activeRecords == |shape.active|
      && (clockHand == NoIndex || (clockHand >= 0 && clockHand in shape.active))
    }

    /** The arena is sound but for node `bare`, and the counters agree with it. */
    ghost predicate Linked(bare: int)
      reads this, slots
    {
      Counted() && Rep(slots[..], shape, nextOrder, bare)
    }

    ghost predicate Valid()
      reads this, slots
    {
      Linked(NoIndex)
    }

    /** What the index retains. */
    ghost function Retained(): map<CheckpointId, History> reads this { shape.histories }

    /** Its records, newest first. */
    ghost function Log(): seq<Mark> reads this, slots { LogOf(slots[..], shape) }

    static method Create(metadataBytes: nat) returns (index: PrefixIndex?)
      ensures index != null <==> 0 < metadataBytes / SLOT_BYTES <= INDEX_SPACE
      ensures index != null ==> fresh(index) && fresh(index.slots) && index.Valid()
      ensures index != null ==> index.Retained() == map[] && index.Log() == []
    {
      if metadataBytes / SLOT_BYTES == 0 { return null; }
      if metadataBytes / SLOT_BYTES > INDEX_SPACE { return null; }
      index := new PrefixIndex(metadataBytes);
    }

    constructor (metadataBytes: nat)
      requires metadataBytes / SLOT_BYTES > 0
      ensures Valid() && Retained() == map[] && Log() == [] && fresh(slots)
    {
      var n := metadataBytes / SLOT_BYTES;
      this.metadataBytes := metadataBytes;
      slots := new Slot[n](i => FreeSlot(if i + 1 == n then NoIndex else i + 1));
      usedBytes, activeNodes, activeRecords, nextOrder := SLOT_BYTES, 1, 0, 1;
      clockHand, activeHead := NoIndex, NoIndex;
      freeSlot := if n == 1 then NoIndex else 1;
      shape := EmptyShape(n);
      new;
      slots[0] := NodeSlot(Root);
      EmptyRep(slots[..]);
    }

    // ------------------------------------------------------------------ searching

    method FindChild(parent: nat, token: Token, image: Option<Image>) returns (found: int)
      requires exists bare :: Linked(bare)
      requires parent in shape.paths && (image.Some? ==> image.value.begin == |shape.paths[parent]|)
      ensures found == NoIndex ==> !HasNode(shape, shape.paths[parent] + [Label(token, image)])
      ensures found != NoIndex ==>
        found >= 0 && found in shape.paths && shape.paths[found] == shape.paths[parent] + [Label(token, image)]
    {
      ghost var bare :| Linked(bare);
      ghost var s, g, kids := slots[..], shape, KidsOf(shape, parent);
      assert NodeKind(s, g, parent) && NodeAt(s, g, parent);
      var child := slots[parent].node.firstChild;
      ghost var i: nat := 0;
      while child != NoIndex
        invariant 0 <= i <= |kids| && child == (if i < |kids| then kids[i] else NoIndex)
        invariant forall k :: 0 <= k < i ==> LabelOf(s, kids[k]) != Label(token, image)
        decreases |kids| - i
      {
        KidPath(s, g, nextOrder, bare, parent, i);
        var node := slots[child].node;
        if node.token == token && (node.imageSlot != NoIndex) == image.Some? {
          if image.None? { return child; }
          var stored := slots[node.imageSlot].image;
          if stored.end == image.value.end && stored.digest == image.value.digest { return child; }
        }
        child := node.nextSibling;
        i := i + 1;
      }
      forall c: nat | c in g.paths ensures g.paths[c] != g.paths[parent] + [Label(token, image)] {
        if g.paths[c] == g.paths[parent] + [Label(token, image)] {
          ChildIsKid(s, g, nextOrder, bare, parent, Label(token, image), c);
        }
      }
      return NoIndex;
    }

    method FindRecord(checkpoint: CheckpointId) returns (found: int)
      requires Valid()
      ensures found == NoIndex <==> checkpoint !in Retained()
      ensures found != NoIndex ==>
        found >= 0 && found in shape.active && RecordOf(slots[..], found).checkpoint == checkpoint
    {
      ghost var s := slots[..];
      var index := activeHead;
      ghost var i: nat := 0;
      while index != NoIndex
        invariant 0 <= i <= |shape.active| && index == (if i < |shape.active| then shape.active[i] else NoIndex)
        invariant forall k: nat :: k < i ==> RecordOf(s, shape.active[k]).checkpoint != checkpoint
        decreases |shape.active| - i
      {
        assert ActiveAt(s, shape, i) && RecordAt(s, shape, nextOrder, shape.active[i]);
        if slots[index].record.checkpoint == checkpoint { return index; }
        index := slots[index].record.nextActive;
        i := i + 1;
      }
      assert NamedAt(s, shape, checkpoint);
      return NoIndex;
    }

    /** Follows the history down the trie as far as it goes. */
    method Descend(h: History) returns (node: nat, matched: nat)
      requires Valid() && ValidImages(h.images)
      ensures matched <= |h.tokens| && node in shape.paths && shape.paths[node] == PathOf(h)[..matched]
      ensures matched < |h.tokens| ==> !HasNode(shape, PathOf(h)[..matched + 1])
    {
      ghost var path := PathOf(h);
      node, matched := 0, 0;
      var index := 0;
      assert RootAt(slots[..], shape);
      while matched < |h.tokens|
        invariant 0 <= matched <= |h.tokens| && Cursor(h.images, index, matched)
        invariant node in shape.paths && shape.paths[node] == path[..matched]
      {
        var image;
        image, index := ImageAtCursor(h.images, matched, index);
        assert Linked(NoIndex);
        assert path[..matched + 1] == path[..matched] + [path[matched]];
        var child := FindChild(node, h.tokens[matched], image);
        if child == NoIndex { return; }
        node := child;
        matched := matched + 1;
      }
    }

    /** The newest usable record of a node. */
    method NewestUsable(node: nat, usable: Usable) returns (found: int)
      requires Valid() && node in shape.paths
      ensures found == NoIndex ==> forall k: nat :: k in RecsOf(shape, node) ==>
        !usable(RecordOf(slots[..], k).checkpoint)
      ensures found != NoIndex ==>
        found >= 0 && found in RecsOf(shape, node) && usable(RecordOf(slots[..], found).checkpoint)
      ensures found != NoIndex ==>
        forall k: nat :: k in RecsOf(shape, node) && usable(RecordOf(slots[..], k).checkpoint) ==>
                RecordOf(slots[..], found).order >= RecordOf(slots[..], k).order
    {
      ghost var s, g, recs := slots[..], shape, RecsOf(shape, node);
      assert NodeKind(s, g, node) && NodeAt(s, g, node);
      var index := slots[node].node.firstRecord;
      ghost var i: nat := 0;
      while index != NoIndex
        invariant 0 <= i <= |recs| && index == (if i < |recs| then recs[i] else NoIndex)
        invariant forall k: nat :: k < i ==> !usable(RecordOf(s, recs[k]).checkpoint)
        decreases |recs| - i
      {
        RecordSlotAt(s, g, node, i);
        assert RecAt(s, g, node, i);
        if usable(slots[index].record.checkpoint) {
          FirstIsNewest(s, g, node, i, usable);
          return index;
        }
        index := slots[index].record.nextAtNode;
        i := i + 1;
      }
      return NoIndex;
    }

    /** What a lookup reports: the longest common history with anything retained, and the
        deepest usable checkpoint whose whole history is shared, the newest among equals. */
    ghost predicate LookupOk(q: History, usable: Usable, r: Lookup)
      reads this, slots
    {
      && LongestOk(q, r.longest)
      && (if r.checkpoint == 0
          then r.tokens == 0 && forall c :: c in Retained() && usable(c) ==> !FullMatch(q, Retained()[c])
          else && r.checkpoint in Retained() && usable(r.checkpoint) && FullMatch(q, Retained()[r.checkpoint])
               && r.tokens == |Retained()[r.checkpoint].tokens|
               && forall c, o: nat, b: nat :: NotBeaten(q, usable, r.checkpoint, r.tokens, c, o, b))
    }

    /** The maximum, over all that is retained, of what the query shares with it. */
    ghost predicate LongestOk(q: History, longest: nat)
      reads this
    {
      && (forall c, n: nat :: c in Retained() && SharesWith(q, Retained()[c], n) ==> n <= longest)
      && (longest > 0 ==> exists c :: c in Retained() && SharesWith(q, Retained()[c], longest))
    }

    /** A usable full match `c` is shorter than the chosen one, or as long and not newer. */
    ghost predicate NotBeaten(q: History, usable: Usable, chosen: CheckpointId, tokens: nat, c: CheckpointId, o: nat,
        b: nat)
      reads this, slots
    {
      (c in Retained() && usable(c) && FullMatch(q, Retained()[c]) && AdmittedAs(c, o) && AdmittedAs(chosen, b)) ==>
        (|Retained()[c].tokens| < tokens || (|Retained()[c].tokens| == tokens && o <= b))
    }

    /** Checkpoint `c` has admission order `o`. */
    ghost predicate AdmittedAs(c: CheckpointId, o: nat)
      reads this, slots
    {
      exists k: nat :: k in shape.active && RecordOf(slots[..], k).checkpoint == c && RecordOf(slots[..], k).order == o
    }

    /** `None` stands for the exception on malformed image spans. Among usable full matches of the
        same length the one found comes first in the log. */
    method FindLongest(q: History, usable: Usable) returns (r: Option<Lookup>)
      requires Valid()
      ensures r.Some? <==> ValidImages(q.images)
      ensures r.Some? ==> LookupOk(q, usable, r.value)
      ensures r.Some? && r.value.checkpoint != 0 ==> NewestOfTies(q, usable, r.value) && Deepest(q, usable, r.value)
    {
      r := WalkLongest(q, usable);
      if r.Some? && r.value.checkpoint != 0 {
        ChosenIsNewest(q, usable, r.value);
        ChosenIsDeepest(q, usable, r.value);
      }
    }

    method WalkLongest(q: History, usable: Usable) returns (r: Option<Lookup>)
      requires Valid()
      ensures r.Some? <==> ValidImages(q.images)
      ensures r.Some? ==> LookupOk(q, usable, r.value)
    {
      var ordered := ValidateImages(q.images, |q.tokens|, false);
      if !ordered { return None; }
      ghost var s, path := slots[..], PathOf(q);
      var node: nat, index: nat, position: nat, longest: nat := 0, 0, 0, 0;
      var best := NoIndex;
      assert RootAt(s, shape);
      NoRootRecords(s);
      while position < |q.tokens|
        invariant 0 <= position <= |q.tokens| && Cursor(q.images, index, position)
        invariant node in shape.paths && shape.paths[node] == path[..position]
        invariant LongestSafe(q.images, position, longest)
        invariant BestSoFar(s, shape, q, usable, position, best)
      {
        var image;
        image, index := ImageAtCursor(q.images, position, index);
        assert Linked(NoIndex);
        PrefixSnoc(path, position);
        var child := FindChild(node, q.tokens[position], image);
        if child == NoIndex { break; }
        node := child;
        longest, best := Consider(q, usable, index, position, node, longest, best);
        position := position + 1;
      }
      var found := Report(q, usable, position, longest, best);
      return Some(found);
    }

    /** The answer of a lookup that got `matched` tokens far. */
    method Report(q: History, usable: Usable, ghost matched: nat, longest: nat, best: int) returns (r: Lookup)
      requires Valid() && ValidImages(q.images) && Matched(shape, q, matched)
      requires LongestSafe(q.images, matched, longest) && BestSoFar(slots[..], shape, q, usable, matched, best)
      ensures LookupOk(q, usable, r)
    {
      FinishLookup(slots[..], q, usable, matched, longest, best);
      if best == NoIndex { return Lookup(longest, 0, 0); }
      r := Reported(longest, best);
    }

    /** What a node one deeper adds to a lookup. */
    method Consider(q: History, usable: Usable, index: nat, position: nat, node: nat, longest: nat, best: int)
      returns (deepest: nat, chosen: int)
      requires Valid() && ValidImages(q.images) && position < |q.tokens| && Cursor(q.images, index, position)
      requires index < |q.images| ==> q.images[index].end > position
      requires node in shape.paths && shape.paths[node] == PathOf(q)[..position + 1]
      requires LongestSafe(q.images, position, longest) && BestSoFar(slots[..], shape, q, usable, position, best)
      ensures LongestSafe(q.images, position + 1, deepest)
        && BestSoFar(slots[..], shape, q, usable, position + 1, chosen)
    {
      ghost var s := slots[..];
      var depth := position + 1;
      deepest, chosen := longest, best;
      InsideImage(q.images, index, position);
      forall k: nat ensures Candidate(s, shape, q, usable, depth, k) <==>
          Candidate(s, shape, q, usable, position, k)
              || (k in RecsOf(shape, node) && usable(RecordOf(s, k).checkpoint) && Safe(q.images, depth))
      {
        DeeperCandidates(s, shape, nextOrder, q, usable, position, node, k);
      }
      if !(index < |q.images| && q.images[index].begin < depth && depth < q.images[index].end) {
        deepest := depth;
        var found := NewestUsable(node, usable);
        if found != NoIndex {
          BestHere(s, q, usable, position, node, found);
          chosen := found;
        }
      }
    }

    method Reported(longest: nat, best: nat) returns (r: Lookup)
      requires Valid() && best in shape.active
      ensures r == Lookup(longest, RecordOf(slots[..], best).checkpoint,
        |PathAt(shape, RecordOf(slots[..], best).node)|)
    {
      InActive(slots[..], shape, nextOrder, best);
      var record := slots[best].record;
      RecordDepth(slots[..], best);
      return Lookup(longest, record.checkpoint, slots[record.node].node.depth);
    }

    /** The root holds no record. */
    lemma NoRootRecords(s: seq<Slot>)
      requires Valid() && s == slots[..]
      ensures forall q, usable, k: nat :: !Candidate(s, shape, q, usable, 0, k)
    {
      forall q, usable, k: nat ensures !Candidate(s, shape, q, usable, 0, k) {
        assert RecordAt(s, shape, nextOrder, k) && ParentAt(s, shape, RecordOf(s, k).node);
      }
    }

    lemma InsideImage(images: Images, index: nat, position: nat)
      requires ValidImages(images) && Cursor(images, index, position)
        && (index < |images| ==> images[index].end > position)
      ensures Safe(images, position + 1) <==>
        !(index < |images| && images[index].begin < position + 1 && position + 1 < images[index].end)
    {
      if index < |images| && images[index].begin < position + 1 && position + 1 < images[index].end {
        assert Splits(images[index], position + 1);
      }
    }

    lemma RecordDepth(s: seq<Slot>, k: nat)
      requires Valid() && s == slots[..] && k in shape.active
      ensures RecordOf(s, k).node < |s| && s[RecordOf(s, k).node].NodeSlot?
      ensures NodeOf(s, RecordOf(s, k).node).depth == |PathAt(shape, RecordOf(s, k).node)|
      ensures RecordOf(s, k).checkpoint > 0
    {
      assert RecordAt(s, shape, nextOrder, k) && NodeAt(s, shape, RecordOf(s, k).node)
          && NodeKind(s, shape, RecordOf(s, k).node);
    }

    /** A usable record at the deeper node beats all shallower ones. */
    lemma BestHere(s: seq<Slot>, q: History, usable: Usable, position: nat, node: nat, found: nat)
      requires Valid() && s == slots[..] && position < |q.tokens| && node in shape.paths
        && shape.paths[node] == PathOf(q)[..position + 1]
      requires Safe(q.images, position + 1) && found in RecsOf(shape, node) && usable(RecordOf(s, found).checkpoint)
      requires forall k: nat :: k in RecsOf(shape, node) && usable(RecordOf(s, k).checkpoint) ==>
        RecordOf(s, found).order >= RecordOf(s, k).order
      ensures BestSoFar(s, shape, q, usable, position + 1, found)
    {
      var depth := position + 1;
      DeeperCandidates(s, shape, nextOrder, q, usable, position, node, found);
      var i: nat :| i < |RecsOf(shape, node)| && RecsOf(shape, node)[i] == found;
      assert RecAt(s, shape, node, i);
      forall k: nat | Candidate(s, shape, q, usable, depth, k) ensures Better(s, shape, found, k) {
        DeeperCandidates(s, shape, nextOrder, q, usable, position, node, k);
        if k in RecsOf(shape, node) {
          var j: nat :| j < |RecsOf(shape, node)| && RecsOf(shape, node)[j] == k;
          assert RecAt(s, shape, node, j);
        }
      }
    }

    lemma FinishLookup(s: seq<Slot>, q: History, usable: Usable, matched: nat, longest: nat, best: int)
      requires Valid() && s == slots[..] && ValidImages(q.images) && Matched(shape, q, matched)
      requires LongestSafe(q.images, matched, longest) && BestSoFar(s, shape, q, usable, matched, best)
      ensures best == NoIndex ==> LookupOk(q, usable, Lookup(longest, 0, 0))
      ensures best != NoIndex ==>
        best >= 0 && LookupOk(q, usable,
            Lookup(longest, RecordOf(s, best).checkpoint, |PathAt(shape, RecordOf(s, best).node)|))
    {
      LongestIsMaximum(s, shape, nextOrder, q, matched, longest);
      forall k: nat | k in shape.active
        ensures var c := RecordOf(s, k).checkpoint;
          && c in shape.histories && |PathAt(shape, RecordOf(s, k).node)| == |shape.histories[c].tokens|
          && (Candidate(s, shape, q, usable, matched, k) <==> usable(c) && FullMatch(q, shape.histories[c]))
      {
        CandidateIsMatch(s, shape, nextOrder, q, usable, matched, k);
      }
      forall c | c in shape.histories ensures exists k: nat :: k in shape.active && RecordOf(s, k).checkpoint == c {
        assert NamedAt(s, shape, c);
      }
      assert LongestOk(q, longest) by {
        if longest > 0 {
          var c :| c in shape.histories && SharesWith(q, shape.histories[c], longest);
          assert c in Retained() && SharesWith(q, Retained()[c], longest);
        }
      }
      if best != NoIndex {
        RecordDepth(s, best);
        BestIsNewest(s, q, usable, matched, best);
      }
    }

    /** Of the usable full matches as long as the chosen one, none comes before it in the log. */
    ghost predicate NewestOfTies(q: History, usable: Usable, r: Lookup)
      reads this, slots
    {
      forall i, j :: 0 <= i < j < |Log()| && Log()[j].checkpoint == r.checkpoint ==>
          !Ties(q, usable, r, Log()[i].checkpoint)
    }

    /** No usable full match is longer than the chosen one. */
    ghost predicate Deepest(q: History, usable: Usable, r: Lookup)
      reads this
    {
      forall c :: c in Retained() && usable(c) && FullMatch(q, Retained()[c]) ==> |Retained()[c].tokens| <= r.tokens
    }

    lemma ChosenIsDeepest(q: History, usable: Usable, r: Lookup)
      requires Valid() && LookupOk(q, usable, r) && r.checkpoint != 0
      ensures Deepest(q, usable, r)
    {
      var b := OrderExists(r.checkpoint);
      forall c | c in Retained() && usable(c) && FullMatch(q, Retained()[c])
        ensures |Retained()[c].tokens| <= r.tokens {
        var o := OrderExists(c);
        assert NotBeaten(q, usable, r.checkpoint, r.tokens, c, o, b);
      }
    }

    lemma OrderExists(c: CheckpointId) returns (o: nat)
      requires Valid() && c in Retained()
      ensures AdmittedAs(c, o)
    {
      assert NamedAt(slots[..], shape, c);
      var k: nat :| k in shape.active && RecordOf(slots[..], k).checkpoint == c;
      o := RecordOf(slots[..], k).order;
    }

    ghost predicate Ties(q: History, usable: Usable, r: Lookup, c: CheckpointId)
      reads this
    {
      c in Retained() && usable(c) && FullMatch(q, Retained()[c]) && |Retained()[c].tokens| >= r.tokens
    }

    lemma ChosenIsNewest(q: History, usable: Usable, r: Lookup)
      requires Valid() && LookupOk(q, usable, r) && r.checkpoint != 0
      ensures NewestOfTies(q, usable, r)
    {
      LogDescends(slots[..], shape, nextOrder, NoIndex);
      forall i, j | 0 <= i < j < |Log()| && Log()[j].checkpoint == r.checkpoint
        ensures !Ties(q, usable, r, Log()[i].checkpoint) {
        var c, o, b := Log()[i].checkpoint, Log()[i].order, Log()[j].order;
        assert shape.active[i] in shape.active && shape.active[j] in shape.active;
        InActive(slots[..], shape, nextOrder, shape.active[i]);
        InActive(slots[..], shape, nextOrder, shape.active[j]);
        assert AdmittedAs(c, o) && AdmittedAs(r.checkpoint, b);
        assert NotBeaten(q, usable, r.checkpoint, r.tokens, c, o, b);
      }
    }

    lemma BestIsNewest(s: seq<Slot>, q: History, usable: Usable, matched: nat, best: nat)
      requires Valid() && s == slots[..] && ValidImages(q.images) && Matched(shape, q, matched)
      requires BestSoFar(s, shape, q, usable, matched, best)
      ensures forall c, o: nat, b: nat ::
                NotBeaten(q, usable, RecordOf(s, best).checkpoint, |PathAt(shape, RecordOf(s, best).node)|, c, o, b)
    {
      var i: nat :| i < |shape.active| && shape.active[i] == best;
      forall m: nat | m in shape.active && RecordOf(s, m).checkpoint == RecordOf(s, best).checkpoint ensures m == best {
        if m != best { CheckpointOnce(s, shape, nextOrder, i, m); }
      }
      forall c, o: nat, b: nat
        ensures NotBeaten(q, usable, RecordOf(s, best).checkpoint, |PathAt(shape, RecordOf(s, best).node)|, c, o, b)
      {
        if c in Retained() && usable(c) && FullMatch(q, Retained()[c]) && AdmittedAs(c, o) {
          var k: nat :| k in shape.active && RecordOf(s, k).checkpoint == c && RecordOf(s, k).order == o;
          CandidateIsMatch(s, shape, nextOrder, q, usable, matched, k);
          assert Better(s, shape, best, k);
        }
      }
    }

    method ValidateImages(images: Images, prefixTokens: nat, checkpoint: bool) returns (ok: bool)
      ensures ok <==> ValidImages(images) && (checkpoint ==> Safe(images, prefixTokens))
    {
      var previousEnd := 0;
      for i := 0 to |images|
        invariant forall k :: 0 <= k < i ==> images[k].begin < images[k].end <= previousEnd
        invariant previousEnd == if i > 0 then images[i - 1].end else 0
        invariant forall j, k :: 0 <= j < k < i ==> images[j].end <= images[k].begin
        invariant checkpoint ==> forall k :: 0 <= k < i ==> !Splits(images[k], prefixTokens)
      {
        assert i > 0 && images[i].begin < previousEnd ==> !(images[i - 1].end <= images[i].begin);
        if images[i].begin < previousEnd || images[i].begin >= images[i].end { return false; }
        if checkpoint && images[i].begin < prefixTokens && prefixTokens < images[i].end {
          assert Splits(images[i], prefixTokens);
          return false;
        }
        previousEnd := images[i].end;
      }
      return true;
    }

    // ------------------------------------------------------------------ admission

    method AllocateNode(token: Token, parent: nat, image: Option<Image>, ghost bare: int) returns (index: nat)
      requires Linked(bare) && NodeFits(slots[..], shape, nextOrder, bare, parent, token, image)
      modifies this`usedBytes, this`activeNodes, this`freeSlot, this`shape, slots
      ensures Linked(index) && shape == NodeShape(old(shape), parent, token, image)
        && index == NewNode(old(shape), image)
      ensures index !in old(shape).paths && KeptRecords(old(slots[..]), old(shape), slots[..], shape)
    {
      ghost var s, g := slots[..], shape;
      NodeReady(s, g, bare, parent, token, image);
      index := WriteNode(token, parent, image);
      CountNode(s, token, parent, image);
    }

    /** The counters after a new node. */
    method CountNode(ghost s: seq<Slot>, token: Token, parent: nat, image: Option<Image>)
      requires slots.Length > 0 && slots.Length == metadataBytes / SLOT_BYTES && |shape.free| <= slots.Length
      requires |shape.free| >= (if image.Some? then 2 else 1) && NewNode(shape, image) !in shape.paths
      requires freeSlot == Head(shape.free[if image.Some? then 2 else 1..]) && activeHead == Head(shape.active)
      requires usedBytes == (slots.Length - |shape.free|) * SLOT_BYTES
      requires activeNodes == |shape.paths| && activeRecords == |shape.active|
      requires clockHand == NoIndex || (clockHand >= 0 && clockHand in shape.active)
      modifies this`usedBytes, this`activeNodes, this`shape
      ensures Counted() && shape == NodeShape(old(shape), parent, token, image)
    {
      ghost var g := shape;
      Charged(slots.Length - |g.free|, if image.Some? then 2 else 1);
      OneMore(g, parent, token, image);
      activeNodes := activeNodes + 1;
      usedBytes := usedBytes + if image.Some? then SLOT_BYTES + SLOT_BYTES else SLOT_BYTES;
      shape := NodeShape(g, parent, token, image);
    }

    lemma NodeReady(s: seq<Slot>, g: Shape, bare: int, parent: nat, token: Token, image: Option<Image>)
      requires NodeFits(s, g, nextOrder, bare, parent, token, image)
      ensures parent < |s| && s[parent].NodeSlot? && (forall i: nat :: FreeAt(s, g, i)) && FreeOnce(g, 0, 1)
        && NewNode(g, image) !in g.paths
      ensures Rep(WithNode(s, g, parent, token, image), NodeShape(g, parent, token, image), nextOrder,
        NewNode(g, image))
      ensures KeptRecords(s, g, WithNode(s, g, parent, token, image), NodeShape(g, parent, token, image))
    {
      AddNodeKeeps(s, g, nextOrder, bare, parent, token, image);
      AddNode(s, g, nextOrder, bare, parent, token, image);
      NewSlots(s, g, nextOrder, bare, parent, token, image);
      assert NodeKind(s, g, parent);
    }

    /** The slot writes of a new node: its image, itself, and its parent's first child. */
    method WriteNode(token: Token, parent: nat, image: Option<Image>) returns (index: nat)
      requires |shape.free| >= (if image.Some? then 2 else 1) && freeSlot == Head(shape.free)
      requires (forall i: nat :: FreeAt(slots[..], shape, i)) && FreeOnce(shape, 0, 1)
      requires parent < slots.Length && slots[parent].NodeSlot?
      modifies this`freeSlot, slots
      ensures slots[..] == WithNode(old(slots[..]), shape, parent, token, image) && index == NewNode(shape, image)
      ensures freeSlot == Head(shape.free[if image.Some? then 2 else 1..])
    {
      ghost var s := slots[..];
      assert FreeAt(s, shape, 0) && FreeAt(s, shape, 1);
      var parentNode := slots[parent].node;
      var imageSlot := NoIndex;
      if image.Some? {
        imageSlot := freeSlot;
        freeSlot := slots[imageSlot].next;
        slots[imageSlot] := ImageSlot(image.value);
      }
      index := freeSlot;
      freeSlot := slots[index].next;
      slots[index] := NodeSlot(TrieNode(token, imageSlot, parent, NoIndex, parentNode.firstChild, NoIndex,
          parentNode.depth + 1));
      slots[parent] := NodeSlot(parentNode.(firstChild := index));
      assert slots[..] == WithNode(s, shape, parent, token, image);
    }

    method AllocateRecord(checkpoint: CheckpointId, node: nat, source: Source, ghost h: History, ghost bare: int)
        returns (index: nat)
      requires Linked(bare) && RecordFits(slots[..], shape, nextOrder, bare, node, checkpoint, h)
      modifies this`usedBytes, this`activeRecords, this`nextOrder, this`activeHead, this`freeSlot, this`shape, slots
      ensures Valid() && shape == RecordShape(old(shape), node, checkpoint, h) && index == old(shape.free)[0]
      ensures slots[..] == WithRecord(old(slots[..]), old(shape), node, checkpoint, source, old(nextOrder))
      ensures nextOrder == old(nextOrder) + 1
    {
      ghost var s, g := slots[..], shape;
      AddRecord(s, g, nextOrder, bare, node, checkpoint, h, source);
      RecordSlots(s, g, nextOrder, bare, node, checkpoint, h, source);
      assert FreeAt(s, g, 0) && NodeAt(s, g, node) && ActiveAt(s, g, 0);
      index := WriteRecord(checkpoint, node, source, h);
    }

    /** The slot writes of a new record: itself, the old head of all records, and its node. */
    method WriteRecord(checkpoint: CheckpointId, node: nat, source: Source, ghost h: History) returns (index: nat)
      requires Counted() && |shape.free| >= 1 && FreeAt(slots[..], shape, 0)
        && (shape.active != [] ==> shape.active[0] < slots.Length && slots[shape.active[0]].RecordSlot?)
      requires node < slots.Length && slots[node].NodeSlot? && slots[node].node.firstRecord == Head(RecsOf(shape, node))
      modifies this`usedBytes, this`activeRecords, this`nextOrder, this`activeHead, this`freeSlot, this`shape, slots
      ensures old(shape.free)[0] < |old(slots[..])|
      ensures slots[..] == WithRecord(old(slots[..]), old(shape), node, checkpoint, source, old(nextOrder))
      ensures Counted() && shape == RecordShape(old(shape), node, checkpoint, h) && index == old(shape.free)[0]
      ensures nextOrder == old(nextOrder) + 1
    {
      ghost var s, g := slots[..], shape;
      var record := Record(checkpoint, node, slots[node].node.firstRecord, activeHead, NoIndex, {source}, Normal,
          Probationary, false, nextOrder, 0);
      index := freeSlot;
      freeSlot := slots[index].next;
      slots[index] := RecordSlot(record);
      if activeHead != NoIndex { slots[activeHead] := RecordSlot(slots[activeHead].record.(previousActive := index)); }
      activeHead := index;
      slots[node] := NodeSlot(slots[node].node.(firstRecord := index));
      assert slots[..] == WithRecord(s, g, node, checkpoint, source, nextOrder);
      nextOrder := nextOrder + 1;
      activeRecords := activeRecords + 1;
      usedBytes := usedBytes + SLOT_BYTES;
      shape := RecordShape(g, node, checkpoint, h);
    }

    // -------------------------------------------------------------------- removal

    /** The place of `k` in the list of its node. */
    method FindAtNode(k: nat, n: nat) returns (previous: int, ghost j: nat)
      requires Valid() && k in shape.active && n == RecordOf(slots[..], k).node
      ensures j < |RecsOf(shape, n)| && RecsOf(shape, n)[j] == k && previous == Before(RecsOf(shape, n), j)
    {
      ghost var s, g, recs := slots[..], shape, RecsOf(shape, n);
      assert RecordAt(s, g, nextOrder, k) && NodeKind(s, g, n) && NodeAt(s, g, n);
      if slots[n].node.firstRecord == k { return NoIndex, 0; }
      ghost var goal: nat :| goal < |recs| && recs[goal] == k;
      previous, j := slots[n].node.firstRecord, 1;
      RecordSlotAt(s, g, n, 0);
      while slots[previous].record.nextAtNode != k
        invariant 1 <= j <= goal && previous == recs[j - 1]
        invariant 0 <= previous < slots.Length && slots[previous].RecordSlot?
        decreases goal - j
      {
        assert RecAt(s, g, n, j - 1);
        RecordSlotAt(s, g, n, j);
        previous := slots[previous].record.nextAtNode;
        j := j + 1;
      }
      assert RecAt(s, g, n, j - 1);
    }

    lemma RecordSlotAt(s: seq<Slot>, g: Shape, n: nat, j: nat)
      requires Rep(s, g, nextOrder, NoIndex) && j < |RecsOf(g, n)|
      ensures RecsOf(g, n)[j] < |s| && s[RecsOf(g, n)[j]].RecordSlot?
    {
      assert RecAt(s, g, n, j);
      var i: nat :| i < |g.active| && g.active[i] == RecsOf(g, n)[j];
      assert ActiveAt(s, g, i);
    }

    /** What erasing record `k` rests on, and what it leads to. */
    ghost predicate Erasable(k: nat, removed: Record, previous: int, i: nat, j: nat)
      reads this, slots
    {
      && i < |shape.active| && k == shape.active[i] && k < slots.Length && slots[k] == RecordSlot(removed)
      && removed.node < slots.Length && slots[removed.node].NodeSlot? && removed.node in shape.paths
      && j < |RecsOf(shape, removed.node)| && previous == Before(RecsOf(shape, removed.node), j)
      && Placed(slots[..], shape, i, removed.node, j)
      && IsOther(slots[..], k, previous) && IsOther(slots[..], k, removed.previousActive)
      && IsOther(slots[..], k, removed.nextActive)
      && removed.previousActive == Before(shape.active, i) && removed.nextActive == After(shape.active, i)
      && Rep(Erased(slots[..], shape, i, removed.node, j), ErasedShape(slots[..], shape, i, removed.node, j),
         nextOrder, removed.node)
      && |shape.free| + 1 < slots.Length
      && KeptRecords(slots[..], shape, Erased(slots[..], shape, i, removed.node, j),
         ErasedShape(slots[..], shape, i, removed.node, j))
      && (forall m: nat :: m in Without(shape.active, i) <==> m in shape.active && m != k)
    }

    method LocateRecord(k: nat) returns (removed: Record, previous: int, ghost i: nat, ghost j: nat)
      requires Valid() && k in shape.active
      ensures removed == RecordOf(slots[..], k) && Erasable(k, removed, previous, i, j)
    {
      ghost var s, g := slots[..], shape;
      i :| i < |g.active| && g.active[i] == k;
      assert ActiveAt(s, g, i) && RecordAt(s, g, nextOrder, k);
      removed := slots[k].record;
      previous, j := FindAtNode(k, removed.node);
      EraseRecordRep(s, g, nextOrder, i, removed.node, j);
      FreeFewer(Erased(s, g, i, removed.node, j), ErasedShape(s, g, i, removed.node, j), nextOrder, removed.node);
      ErasedKept(s, g, nextOrder, i, removed.node, j);
      LinksApart(s, g, i, j);
      EraseKeeps(s, g, nextOrder, i, removed.node, j);
    }

    method EraseRecord(k: nat) returns (n: nat)
      requires Valid() && k in shape.active
      modifies this`usedBytes, this`activeRecords, this`activeHead, this`clockHand, this`freeSlot, this`shape, slots
      ensures n == RecordOf(old(slots[..]), k).node && n in shape.paths && Linked(n)
      ensures Retained() == old(Retained()) - {RecordOf(old(slots[..]), k).checkpoint}
      ensures Log() == Dropped(old(Log()), RecordOf(old(slots[..]), k).checkpoint)
      ensures KeptRecords(old(slots[..]), old(shape), slots[..], shape)
      ensures forall m: nat :: m in shape.active <==> m in old(shape).active && m != k
    {
      var removed, previous;
      ghost var i, j;
      removed, previous, i, j := LocateRecord(k);
      n := removed.node;
      LogErased(slots[..], shape, nextOrder, i, n, j);
      DropRecord(k, removed, previous, i, j);
    }

    method DropRecord(k: nat, removed: Record, previous: int, ghost i: nat, ghost j: nat)
      requires Counted() && Erasable(k, removed, previous, i, j)
      modifies this`usedBytes, this`activeRecords, this`activeHead, this`clockHand, this`freeSlot, this`shape, slots
      ensures removed.node in shape.paths && Linked(removed.node)
      ensures Retained() == old(Retained()) - {removed.checkpoint}
      ensures slots[..] == Erased(old(slots[..]), old(shape), i, removed.node, j)
        && shape == ErasedShape(old(slots[..]), old(shape), i, removed.node, j)
      ensures KeptRecords(old(slots[..]), old(shape), slots[..], shape)
      ensures forall m: nat :: m in shape.active <==> m in old(shape).active && m != k
    {
      UnlinkRecord(k, removed, previous, i, j);
      UncountRecord(k, removed, old(slots[..]), i, j);
    }

    /** The counters after an erasure. */
    method UncountRecord(k: nat, removed: Record, ghost s: seq<Slot>, ghost i: nat, ghost j: nat)
      requires slots.Length > 0 && slots.Length == metadataBytes / SLOT_BYTES && |shape.free| + 1 < slots.Length
      requires usedBytes == (slots.Length - |shape.free|) * SLOT_BYTES
      requires activeNodes == |shape.paths| && activeRecords == |shape.active|
      requires i < |shape.active| && k == shape.active[i] && j < |RecsOf(shape, removed.node)|
      requires activeHead == Head(Without(shape.active, i))
      requires clockHand == NoIndex || (clockHand >= 0 && clockHand in shape.active)
      modifies this`usedBytes, this`activeRecords, this`clockHand, this`freeSlot, this`shape
      ensures Counted() && shape == ErasedShape(s, old(shape), i, removed.node, j)
    {
      if clockHand == k { clockHand := NoIndex; }
      WithoutKeeps(shape.active, i);
      freeSlot := k;
      activeRecords := activeRecords - 1;
      usedBytes := usedBytes - SLOT_BYTES;
      shape := ErasedShape(s, shape, i, removed.node, j);
    }

    /** The records linked to the erased one are other records. */
    lemma LinksApart(s: seq<Slot>, g: Shape, i: nat, j: nat)
      requires Rep(s, g, nextOrder, NoIndex) && i < |g.active| && Placed(s, g, i, RecordOf(s, g.active[i]).node, j)
      ensures var x := RecordOf(s, g.active[i]);
        && IsOther(s, g.active[i], x.previousActive) && IsOther(s, g.active[i], x.nextActive)
        && IsOther(s, g.active[i], Before(RecsOf(g, x.node), j))
        && x.previousActive == Before(g.active, i) && x.nextActive == After(g.active, i)
        && x.nextAtNode == After(RecsOf(g, x.node), j)
    {
      var n := RecordOf(s, g.active[i]).node;
      assert ActiveAt(s, g, i) && RecAt(s, g, n, j);
      if i > 0 { assert ActiveAt(s, g, i - 1) && ActiveOrder(s, g, i - 1, i); }
      if i + 1 < |g.active| { assert ActiveAt(s, g, i + 1) && ActiveOrder(s, g, i, i + 1); }
      if j > 0 { RecordSlotAt(s, g, n, j - 1); assert RecOrder(s, g, n, j - 1, j); }
    }

    /** The pointer changes of an erasure. */
    method UnlinkRecord(k: nat, removed: Record, previous: int, ghost i: nat, ghost j: nat)
      requires i < |shape.active| && k == shape.active[i] && k < slots.Length && slots[k] == RecordSlot(removed)
      requires removed.node < slots.Length && slots[removed.node].NodeSlot?
      requires j < |RecsOf(shape, removed.node)| && previous == Before(RecsOf(shape, removed.node), j)
      requires IsOther(slots[..], k, previous) && IsOther(slots[..], k, removed.previousActive)
        && IsOther(slots[..], k, removed.nextActive)
      requires removed.previousActive == Before(shape.active, i) && removed.nextActive == After(shape.active, i)
      requires freeSlot == Head(shape.free) && activeHead == Head(shape.active)
      modifies this`activeHead, slots
      ensures slots[..] == Erased(old(slots[..]), shape, i, removed.node, j)
      ensures activeHead == Head(Without(shape.active, i))
    {
      ghost var s := slots[..];
      UnlinkAtNode(removed, previous);
      if removed.previousActive == NoIndex {
        activeHead := removed.nextActive;
      } else {
        slots[removed.previousActive] :=
            RecordSlot(slots[removed.previousActive].record.(nextActive := removed.nextActive));
      }
      if removed.nextActive != NoIndex {
        slots[removed.nextActive] :=
            RecordSlot(slots[removed.nextActive].record.(previousActive := removed.previousActive));
      }
      slots[k] := FreeSlot(freeSlot);
      forall m: nat | m < |s| ensures slots[m] == ErasedSlot(s, shape, i, removed.node, j, m) {}
      assert slots[..] == Erased(s, shape, i, removed.node, j);
    }

    method UnlinkAtNode(removed: Record, previous: int)
      requires removed.node < slots.Length && slots[removed.node].NodeSlot?
      requires previous == NoIndex || (0 <= previous < slots.Length && slots[previous].RecordSlot?)
      modifies slots
      ensures slots[..] == if previous == NoIndex
        then old(slots[..])[removed.node :=
            NodeSlot(old(slots[removed.node]).node.(firstRecord := removed.nextAtNode))]
        else old(slots[..])[previous := RecordSlot(old(slots[previous]).record.(nextAtNode := removed.nextAtNode))]
    {
      if previous == NoIndex {
        slots[removed.node] := NodeSlot(slots[removed.node].node.(firstRecord := removed.nextAtNode));
      } else {
        slots[previous] := RecordSlot(slots[previous].record.(nextAtNode := removed.nextAtNode));
      }
    }

    /** The place of node `n` among the children of its parent. */
    method FindAtParent(n: nat, p: nat) returns (previous: int, ghost j: nat)
      requires Linked(n) && n in shape.paths && n != 0 && NodeOf(slots[..], n).parent == p
      ensures j < |KidsOf(shape, p)| && KidsOf(shape, p)[j] == n && previous == Before(KidsOf(shape, p), j)
        && p in shape.paths
    {
      ghost var s, g, kids := slots[..], shape, KidsOf(shape, p);
      assert ParentAt(s, g, n) && NodeKind(s, g, p) && NodeAt(s, g, p);
      if slots[p].node.firstChild == n { return NoIndex, 0; }
      ghost var goal: nat :| goal < |kids| && kids[goal] == n;
      previous, j := slots[p].node.firstChild, 1;
      KidPath(s, g, nextOrder, n, p, 0);
      while slots[previous].node.nextSibling != n
        invariant 1 <= j <= goal && previous == kids[j - 1]
        invariant 0 <= previous < slots.Length && slots[previous].NodeSlot?
        decreases goal - j
      {
        KidPath(s, g, nextOrder, n, p, j - 1);
        KidPath(s, g, nextOrder, n, p, j);
        previous := slots[previous].node.nextSibling;
        j := j + 1;
      }
      KidPath(s, g, nextOrder, n, p, j - 1);
    }

    /** Releases an empty node and its image. */
    method ReleaseNode(n: nat, p: nat)
      requires Linked(n) && n in shape.paths && n != 0 && KidsOf(shape, n) == [] && RecsOf(shape, n) == []
        && NodeOf(slots[..], n).parent == p
      modifies this`usedBytes, this`activeNodes, this`freeSlot, this`shape, slots
      ensures Linked(p) && p in shape.paths && |shape.paths| == |old(shape).paths| - 1
      ensures Retained() == old(Retained()) && shape.active == old(shape.active)
      ensures KeptRecords(old(slots[..]), old(shape), slots[..], shape)
    {
      ghost var s, g := slots[..], shape;
      var previous;
      ghost var j;
      previous, j := FindAtParent(n, p);
      PruneReady(s, g, nextOrder, n, p, j);
      var removed := slots[n].node;
      UnlinkNode(n, p, removed, previous, j);
      UncountNode(s, n, p, removed.imageSlot != NoIndex, j);
    }

    /** The counters after a prune. */
    method UncountNode(ghost s: seq<Slot>, ghost n: nat, ghost p: nat, imaged: bool, ghost j: nat)
      requires slots.Length > 0 && slots.Length == metadataBytes / SLOT_BYTES
      requires n in shape.paths && j < |KidsOf(shape, p)| && imaged == (NodeOf(s, n).imageSlot >= 0)
      requires |PrunedShape(s, shape, n, p, j).free| <= slots.Length
      requires freeSlot == Head(PrunedShape(s, shape, n, p, j).free) && activeHead == Head(shape.active)
      requires usedBytes == (slots.Length - |shape.free|) * SLOT_BYTES
      requires activeNodes == |shape.paths| && activeRecords == |shape.active|
      requires clockHand == NoIndex || (clockHand >= 0 && clockHand in shape.active)
      modifies this`usedBytes, this`activeNodes, this`shape
      ensures Counted() && shape == PrunedShape(s, old(shape), n, p, j) && |shape.paths| == |old(shape).paths| - 1
    {
      ghost var g := shape;
      OneLess(s, g, n, p, j);
      Charged(slots.Length - |PrunedShape(s, g, n, p, j).free|, if imaged then 2 else 1);
      activeNodes := activeNodes - 1;
      usedBytes := usedBytes - if imaged then SLOT_BYTES + SLOT_BYTES else SLOT_BYTES;
      shape := PrunedShape(s, g, n, p, j);
    }

    /** The pointer changes of a prune. */
    method UnlinkNode(n: nat, p: nat, removed: TrieNode, previous: int, ghost j: nat)
      requires n < slots.Length && p < slots.Length && n != p && slots[n] == NodeSlot(removed) && slots[p].NodeSlot?
      requires j < |KidsOf(shape, p)| && previous == Before(KidsOf(shape, p), j)
      requires previous != NoIndex ==>
        0 <= previous < slots.Length && slots[previous].NodeSlot? && previous != n && previous != p
      requires removed.imageSlot != NoIndex ==>
        0 <= removed.imageSlot < slots.Length && slots[removed.imageSlot].ImageSlot?
      requires freeSlot == Head(shape.free)
      modifies this`freeSlot, slots
      ensures slots[..] == Pruned(old(slots[..]), shape, n, p, j)
      ensures freeSlot == if removed.imageSlot != NoIndex then removed.imageSlot else n
    {
      ghost var s := slots[..];
      if previous == NoIndex {
        slots[p] := NodeSlot(slots[p].node.(firstChild := removed.nextSibling));
      } else {
        slots[previous] := NodeSlot(slots[previous].node.(nextSibling := removed.nextSibling));
      }
      slots[n] := FreeSlot(freeSlot);
      freeSlot := n;
      if removed.imageSlot != NoIndex {
        slots[removed.imageSlot] := FreeSlot(freeSlot);
        freeSlot := removed.imageSlot;
      }
      forall m: nat | m < |s| ensures slots[m] == PrunedSlot(s, shape, n, p, j, m) {}
      assert slots[..] == Pruned(s, shape, n, p, j);
    }

    /** Removes empty nodes from `node` upwards. */
    method PruneEmptyNodes(start: nat)
      requires Linked(start) && start in shape.paths
      modifies this`usedBytes, this`activeNodes, this`freeSlot, this`shape, slots
      ensures Valid() && Retained() == old(Retained()) && shape.active == old(shape.active)
      ensures KeptRecords(old(slots[..]), old(shape), slots[..], shape)
    {
      var node := start;
      KeptSelf(slots[..], shape);
      while node != 0
        invariant Linked(node) && node in shape.paths
        invariant Retained() == old(Retained()) && shape.active == old(shape.active)
        invariant KeptRecords(old(slots[..]), old(shape), slots[..], shape)
        decreases |shape.paths|
      {
        ghost var s := slots[..];
        assert NodeKind(s, shape, node) && NodeAt(s, shape, node) && ParentAt(s, shape, node);
        var removed := slots[node].node;
        if removed.firstChild != NoIndex || removed.firstRecord != NoIndex {
          NotBare(s, shape, nextOrder, node);
          return;
        }
        ghost var g := shape;
        ReleaseNode(node, removed.parent);
        KeptTrans(old(slots[..]), old(shape), s, g, slots[..], shape);
        node := removed.parent;
      }
      NotBare(slots[..], shape, nextOrder, 0);
    }

    /** Removing a checkpoint forgets exactly its history; every slot that served only it is free
        again, since a sound trie has no node without a retained history. */
    method Remove(checkpoint: CheckpointId) returns (found: bool)
      requires Valid()
      modifies this, slots
      ensures Valid() && (found <==> checkpoint in old(Retained())) && Retained() == old(Retained()) - {checkpoint}
      ensures Log() == Dropped(old(Log()), checkpoint) && nextOrder == old(nextOrder)
      ensures KeptRecords(old(slots[..]), old(shape), slots[..], shape)
      ensures forall k: nat :: k in shape.active <==>
        k in old(shape).active && RecordOf(old(slots[..]), k).checkpoint != checkpoint
    {
      ghost var s, g := slots[..], shape;
      KeptSelf(s, g);
      var index := FindRecord(checkpoint);
      if index == NoIndex {
        forall k: nat | k in g.active ensures RecordOf(s, k).checkpoint != checkpoint {
          assert RecordAt(s, g, nextOrder, k);
        }
        DroppedAbsent(Log(), checkpoint);
        return false;
      }
      OnlyRecord(s, g, index);
      var node := EraseRecord(index);
      ghost var s1, g1 := slots[..], shape;
      PruneEmptyNodes(node);
      LogKept(s1, g1, slots[..], shape);
      KeptTrans(s, g, s1, g1, slots[..], shape);
      return true;
    }

    lemma OnlyRecord(s: seq<Slot>, g: Shape, k: nat)
      requires Rep(s, g, nextOrder, NoIndex) && k in g.active
      ensures forall m: nat :: m in g.active && RecordOf(s, m).checkpoint == RecordOf(s, k).checkpoint ==> m == k
    {
      var i: nat :| i < |g.active| && g.active[i] == k;
      forall m: nat | m in g.active && RecordOf(s, m).checkpoint == RecordOf(s, k).checkpoint ensures m == k {
        if m != k { CheckpointOnce(s, g, nextOrder, i, m); }
      }
    }

    // ------------------------------------------------------------------- thinning

    method AppendPeriodic(node: nat, before: seq<nat>) returns (list: seq<nat>)
      requires Valid() && node in shape.paths
      ensures list == before + Unpromoteds(slots[..], RecsOf(shape, node))
    {
      ghost var s, recs := slots[..], RecsOf(shape, node);
      assert NodeKind(s, shape, node) && NodeAt(s, shape, node);
      list := before;
      var index := slots[node].node.firstRecord;
      ghost var i: nat := 0;
      while index != NoIndex
        invariant 0 <= i <= |recs| && index == (if i < |recs| then recs[i] else NoIndex)
        invariant list == before + Unpromoteds(s, recs[..i])
        decreases |recs| - i
      {
        NextUnpromoted(s, shape, nextOrder, node, recs, i);
        var record := slots[index].record;
        if record.cacheClass == Probationary && record.sources == {Periodic} { list := list + [index]; }
        index := record.nextAtNode;
        i := i + 1;
      }
      assert recs[..i] == recs;
    }

    /** All unpromoted periodic records from `start` up to the root. */
    method ClimbPeriodic(start: nat) returns (list: seq<nat>)
      requires Valid() && start in shape.paths
      ensures list == Climb(slots[..], shape, start)
    {
      ghost var s := slots[..];
      list := [];
      var node, atRoot := start, false;
      while !atRoot
        invariant node in shape.paths
        invariant list + (if atRoot then [] else Climb(s, shape, node)) == Climb(s, shape, start)
        decreases if atRoot then 0 else |PathAt(shape, node)| + 1
      {
        assert ParentAt(s, shape, node) && NodeKind(s, shape, node) && RootAt(s, shape);
        ghost var before := list;
        list := AppendPeriodic(node, list);
        ClimbAppend(s, node, before, list);
        if node == 0 { atRoot := true; } else { node := slots[node].node.parent; }
      }
    }

    lemma ClimbAppend(s: seq<Slot>, n: nat, before: seq<nat>, after: seq<nat>)
      requires n in shape.paths && ParentAt(s, shape, n) && after == before + Unpromoteds(s, RecsOf(shape, n))
      ensures n == 0 ==> before + Climb(s, shape, n) == after + []
      ensures n != 0 ==> before + Climb(s, shape, n) == after + Climb(s, shape, nat0(NodeOf(s, n).parent))
    {
    }

    /** Removes at most one periodic record of the path, when it holds one too many. `ok` is
        false for a path with more excess than one admission can cause. */
    method ThinPeriodicFromNode(node: nat, eligible: Option<Usable>) returns (ok: bool, removed: Option<CheckpointId>)
      requires Valid() && node in shape.paths
      modifies this, slots
      ensures Valid() && KeptRecords(old(slots[..]), old(shape), slots[..], shape)
      ensures Log() == Thinned(old(Log()), removed) && nextOrder == old(nextOrder)
      ensures (ok <==> |Climb(old(slots[..]), old(shape), node)| <= MAX_PERIODIC + 1) && (!ok ==> removed.None?)
      ensures removed.None? ==> Retained() == old(Retained()) && shape.active == old(shape).active
      ensures removed.Some? ==>
        var list := Climb(old(slots[..]), old(shape), node);
        && Retained() == old(Retained()) - {removed.value}
        && (forall k: nat :: k in shape.active <==>
           k in old(shape).active && RecordOf(old(slots[..]), k).checkpoint != removed.value)
        && exists place: nat :: ThinnedBy(OldestFirst(old(slots[..]), list), eligible, place, removed.value)
      ensures var list := Climb(old(slots[..]), old(shape), node);
        |list| == MAX_PERIODIC + 1 && removed.None? ==> NoneEligible(old(slots[..]), list, eligible)
    {
      KeptSelf(slots[..], shape);
      var list := ClimbPeriodic(node);
      if |list| > MAX_PERIODIC + 1 { return false, None; }
      if |list| <= MAX_PERIODIC { return true, None; }
      ClimbMeets(slots[..], shape, nextOrder, NoIndex, node);
      forall i | 0 <= i < |list| ensures list[i] in shape.active { assert list[i] in Climb(slots[..], shape, node); }
      removed := ChooseThinned(list, eligible);
      if removed.Some? { var _ := Remove(removed.value); }
      return true, removed;
    }

    /** Alternating older entries first, preserving the newest. */
    method ChooseThinned(list: seq<nat>, eligible: Option<Usable>) returns (r: Option<CheckpointId>)
      requires Valid() && |list| == MAX_PERIODIC + 1 && forall i :: 0 <= i < |list| ==> list[i] in shape.active
      ensures r.Some? ==> exists place: nat :: ThinnedBy(OldestFirst(slots[..], list), eligible, place, r.value)
      ensures r.None? ==> NoneEligible(slots[..], list, eligible)
    {
      var oldest := CheckpointsOf(list);
      var order, place: nat := ThinOrder(), 0;
      while place < 8 && !Eligible(eligible, oldest[order[place]])
        invariant 0 <= place <= 8
        invariant forall i: nat :: i < place ==> !Eligible(eligible, oldest[ThinOrder()[i]])
      {
        place := place + 1;
      }
      if place == 8 {
        forall i | 1 <= i < |list| ensures !Eligible(eligible, RecordOf(slots[..], list[i]).checkpoint) {
          var j: nat := 8 - i;
          assert j in ThinOrder();
          var p: nat :| p < 8 && ThinOrder()[p] == j;
          assert oldest[j] == RecordOf(slots[..], list[i]).checkpoint;
        }
        return None;
      }
      assert ThinnedBy(oldest, eligible, place, oldest[order[place]]);
      return Some(oldest[order[place]]);
    }

    /** The candidates in ascending depth and admission order, the reverse of the climb. */
    method CheckpointsOf(list: seq<nat>) returns (oldest: seq<CheckpointId>)
      requires Valid() && forall i :: 0 <= i < |list| ==> list[i] in shape.active
      ensures oldest == OldestFirst(slots[..], list)
    {
      oldest := [];
      for i := 0 to |list|
        invariant |oldest| == i && forall k :: 0 <= k < i ==>
          oldest[k] == RecordOf(slots[..], list[|list| - 1 - k]).checkpoint
      {
        InActive(slots[..], shape, nextOrder, list[|list| - 1 - i]);
        oldest := oldest + [slots[list[|list| - 1 - i]].record.checkpoint];
      }
    }

    // -------------------------------------------------------------- whole admissions

    /** Room is exactly a number of free slots. */
    lemma RoomIsSlots(n: nat)
      requires Valid()
      ensures usedBytes <= metadataBytes
      ensures usedBytes + n * SLOT_BYTES <= metadataBytes <==> n <= |shape.free|
    {
    }

    method HasRoom(n: nat) returns (room: bool)
      requires Valid()
      ensures room <==> n <= |shape.free|
    {
      RoomIsSlots(n);
      return usedBytes <= metadataBytes && n * SLOT_BYTES <= metadataBytes - usedBytes;
    }

    method CountStarting(images: Images, from: nat, to: nat) returns (n: nat)
      ensures n == Starting(images, 0, from, to)
    {
      n := 0;
      var i := |images|;
      while i > 0
        invariant 0 <= i <= |images| && n == Starting(images, i, from, to)
      {
        i := i - 1;
        if from <= images[i].begin < to { n := n + 1; }
      }
    }

    /** The path of `h` from `start` on, node by node. With the slots counted beforehand no step
        can run out. */
    method GrowPath(h: History, start: nat, matched: nat) returns (leaf: nat, ghost bare: int)
      requires Valid() && ValidImages(h.images) && matched <= |h.tokens|
      requires start in shape.paths && shape.paths[start] == PathOf(h)[..matched]
      requires matched < |h.tokens| ==> !HasNode(shape, PathOf(h)[..matched + 1])
      requires SlotsNeeded(h, matched) <= |shape.free|
      modifies this`usedBytes, this`activeNodes, this`freeSlot, this`shape, slots
      ensures Linked(bare) && (bare == NoIndex || bare == leaf) && leaf in shape.paths && shape.paths[leaf] == PathOf(h)
      ensures |shape.free| == |old(shape).free| - (SlotsNeeded(h, matched) - 1)
      ensures Retained() == old(Retained()) && shape.active == old(shape).active && nextOrder == old(nextOrder)
      ensures KeptRecords(old(slots[..]), old(shape), slots[..], shape)
    {
      leaf, bare := start, NoIndex;
      var position, index: nat := matched, 0;
      KeptSelf(slots[..], shape);
      while position < |h.tokens|
        invariant matched <= position <= |h.tokens| && Cursor(h.images, index, position)
        invariant Linked(bare) && (bare == NoIndex || bare == leaf) && leaf in shape.paths
          && shape.paths[leaf] == PathOf(h)[..position]
        invariant position < |h.tokens| ==> !HasNode(shape, PathOf(h)[..position + 1])
        invariant |shape.free| == |old(shape).free| - SlotsNeeded(h, matched) + SlotsNeeded(h, position)
        invariant Retained() == old(Retained()) && shape.active == old(shape).active && nextOrder == old(nextOrder)
        invariant KeptRecords(old(slots[..]), old(shape), slots[..], shape)
      {
        leaf, index := GrowNode(h, leaf, position, index, bare, old(slots[..]), old(shape));
        bare := leaf;
        position := position + 1;
      }
      StartingNone(h.images, 0, |h.tokens|);
      assert PathOf(h)[..|h.tokens|] == PathOf(h);
    }

    lemma NeedsAtLeast(h: History, position: nat, image: Option<Image>)
      requires ValidImages(h.images) && position < |h.tokens| && image == ImageFrom(h.images, position, 0)
      ensures SlotsNeeded(h, position) == SlotsNeeded(h, position + 1) + if image.Some? then 2 else 1
    {
      StartingStep(h.images, 0, position, |h.tokens|);
    }

    /** One node of the path, with the image that starts there. */
    method GrowNode(h: History, parent: nat, position: nat, index: nat, ghost bare: int, ghost was: seq<Slot>,
        ghost before: Shape) returns (leaf: nat, cursor: nat)
      requires ValidImages(h.images) && Cursor(h.images, index, position) && KeptRecords(was, before, slots[..], shape)
      requires Linked(bare) && (bare == NoIndex || bare == parent) && parent in shape.paths
      requires position < |h.tokens| && shape.paths[parent] == PathOf(h)[..position]
        && !HasNode(shape, PathOf(h)[..position + 1]) && SlotsNeeded(h, position) <= |shape.free|
      modifies this`usedBytes, this`activeNodes, this`freeSlot, this`shape, slots
      ensures Linked(leaf) && leaf in shape.paths && shape.paths[leaf] == PathOf(h)[..position + 1]
      ensures position + 1 < |h.tokens| ==> !HasNode(shape, PathOf(h)[..position + 1 + 1])
      ensures |shape.free| == |old(shape).free| - SlotsNeeded(h, position) + SlotsNeeded(h, position + 1)
      ensures Retained() == old(Retained()) && shape.active == old(shape).active && nextOrder == old(nextOrder)
      ensures KeptRecords(was, before, slots[..], shape) && Cursor(h.images, cursor, position + 1)
    {
      ghost var s, g := slots[..], shape;
      var image;
      image, cursor := ImageAtCursor(h.images, position, index);
      NeedsAtLeast(h, position, image);
      leaf := GrowStep(h, parent, position, image, bare);
      KeptTrans(was, before, s, g, slots[..], shape);
    }

    method GrowStep(h: History, parent: nat, position: nat, image: Option<Image>, ghost bare: int) returns (leaf: nat)
      requires Linked(bare) && (bare == NoIndex || bare == parent) && parent in shape.paths
      requires position < |h.tokens| && shape.paths[parent] == PathOf(h)[..position]
        && !HasNode(shape, PathOf(h)[..position + 1])
      requires image == ImageFrom(h.images, position, 0) && (image.Some? ==> image.value.begin == position)
      requires |shape.free| >= (if image.Some? then 2 else 1)
      modifies this`usedBytes, this`activeNodes, this`freeSlot, this`shape, slots
      ensures Linked(leaf) && leaf in shape.paths && shape.paths[leaf] == PathOf(h)[..position + 1]
      ensures position + 1 < |h.tokens| ==> !HasNode(shape, PathOf(h)[..position + 2])
      ensures |shape.free| == |old(shape).free| - (if image.Some? then 2 else 1)
      ensures Retained() == old(Retained()) && shape.active == old(shape).active && nextOrder == old(nextOrder)
      ensures KeptRecords(old(slots[..]), old(shape), slots[..], shape)
    {
      ghost var path := PathOf(h);
      assert path[..position + 1] == path[..position] + [path[position]];
      ParentFits(h.tokens[position], parent, image, bare);
      leaf := AllocateNode(h.tokens[position], parent, image, bare);
      if position + 1 < |h.tokens| { NoKids(leaf, path, position + 1); }
    }

    lemma ParentFits(token: Token, parent: nat, image: Option<Image>, bare: int)
      requires Linked(bare) && (bare == NoIndex || bare == parent) && parent in shape.paths
      requires |shape.free| >= (if image.Some? then 2 else 1)
        && (image.Some? ==> image.value.begin == |shape.paths[parent]|)
      requires !HasNode(shape, shape.paths[parent] + [Label(token, image)])
      ensures NodeFits(slots[..], shape, nextOrder, bare, parent, token, image)
    {
      assert NodeKind(slots[..], shape, parent) && NodeAt(slots[..], shape, parent);
    }

    lemma NoKids(leaf: nat, path: seq<Label>, position: nat)
      requires Linked(leaf) && leaf in shape.paths && KidsOf(shape, leaf) == [] && position < |path|
        && shape.paths[leaf] == path[..position]
      ensures !HasNode(shape, path[..position + 1])
    {
      assert path[..position + 1] == path[..position] + [path[position]];
      forall c: nat | c in shape.paths ensures shape.paths[c] != path[..position + 1] {
        if shape.paths[c] == path[..position + 1] {
          ChildIsKid(slots[..], shape, nextOrder, leaf, leaf, path[position], c);
        }
      }
    }

    /** Adds a trigger to a checkpoint that is already there. */
    method MergeSource(index: nat, source: Source)
      requires Valid() && index in shape.active
      modifies slots
      ensures Valid() && forall k: nat :: k < slots.Length && k != index ==> slots[k] == old(slots[k])
      ensures RecordOf(slots[..], index)
        == RecordOf(old(slots[..]), index).(sources := RecordOf(old(slots[..]), index).sources + {source})
      ensures Log() == Merged(old(Log()), RecordOf(old(slots[..]), index).checkpoint, source)
    {
      InActive(slots[..], shape, nextOrder, index);
      LogMerged(slots[..], shape, nextOrder, index, source);
      var record := slots[index].record;
      SetRecord(index, record.(sources := record.sources + {source}));
    }

    /** Whether a further periodic checkpoint could never be thinned back. */
    method PeriodicBlocked(node: nat, eligible: Option<Usable>) returns (blocked: bool)
      requires Valid() && node in shape.paths
      ensures blocked <==> Blocked(slots[..], Climb(slots[..], shape, node), eligible)
    {
      if eligible.None? { return false; }
      var list := ClimbPeriodic(node);
      ClimbMeets(slots[..], shape, nextOrder, NoIndex, node);
      for i := 0 to |list|
        invariant forall k :: 0 <= k < i ==> !eligible.value(RecordOf(slots[..], list[k]).checkpoint)
      {
        assert list[i] in Climb(slots[..], shape, node);
        InActive(slots[..], shape, nextOrder, list[i]);
        if eligible.value(slots[list[i]].record.checkpoint) { return false; }
      }
      return |list| >= MAX_PERIODIC;
    }

    ghost function PeriodicCount(path: seq<Label>): nat reads this, slots { |Periodics(slots[..], shape, path)| }

    /** An eligible periodic checkpoint on the path. */
    ghost predicate CanThin(path: seq<Label>, eligible: Option<Usable>)
      reads this, slots
    {
      eligible.None? || exists k ::
          k in Periodics(slots[..], shape, path) && eligible.value(RecordOf(slots[..], k).checkpoint)
    }

    /** Nodes for the rest of the path, and the record at its end. */
    method Insert(checkpoint: CheckpointId, h: History, source: Source, node: nat, matched: nat) returns (leaf: nat)
      requires Valid() && checkpoint > 0 && checkpoint !in Retained() && h.tokens != [] && ValidImages(h.images)
        && Safe(h.images, |h.tokens|)
      requires matched <= |h.tokens| && node in shape.paths && shape.paths[node] == PathOf(h)[..matched]
      requires matched < |h.tokens| ==> !HasNode(shape, PathOf(h)[..matched + 1])
      requires SlotsNeeded(h, matched) <= |shape.free|
      modifies this, slots
      ensures Valid() && Retained() == old(Retained())[checkpoint := h] && leaf in shape.paths
        && shape.paths[leaf] == PathOf(h)
      ensures Log() == [NewMark(checkpoint, source, old(nextOrder))] + old(Log()) && nextOrder == old(nextOrder) + 1
      ensures |shape.free| == |old(shape).free| - SlotsNeeded(h, matched)
      ensures source == Periodic ==>
        RecsOf(shape, leaf) != [] && Unpromoted(RecordOf(slots[..], RecsOf(shape, leaf)[0]))
                                     && RecordOf(slots[..], RecsOf(shape, leaf)[0]).checkpoint == checkpoint
      ensures var before, after := Periodics(old(slots[..]), old(shape), PathOf(h)),
        Periodics(slots[..], shape, PathOf(h));
        && (source != Periodic ==> after == before)
        && (source == Periodic ==>
           |after| == |before| + 1 && RecsOf(shape, leaf) != [] && after == before + {RecsOf(shape, leaf)[0]})
        && (forall k :: k in before ==> RecordOf(slots[..], k).checkpoint == RecordOf(old(slots[..]), k).checkpoint)
    {
      ghost var s, g := slots[..], shape;
      ghost var bare;
      leaf, bare := GrowPath(h, node, matched);
      ghost var s1, g1 := slots[..], shape;
      LogKept(s, g, s1, g1);
      KeptPeriodics(s, g, s1, g1, PathOf(h));
      assert Periodics(s1, g1, PathOf(h)) == Periodics(s, g, PathOf(h));
      RecordReady(leaf, checkpoint, h, bare);
      InsertRecord(checkpoint, h, source, leaf, bare);
      InsertKeeps(s, g, s1, g1, slots[..], PathOf(h));
    }

    method InsertRecord(checkpoint: CheckpointId, h: History, source: Source, leaf: nat, ghost bare: int)
      requires Linked(bare) && RecordFits(slots[..], shape, nextOrder, bare, leaf, checkpoint, h)
      modifies this, slots
      ensures Valid() && Retained() == old(Retained())[checkpoint := h] && leaf in shape.paths
        && shape.paths[leaf] == PathOf(h)
      ensures Log() == [NewMark(checkpoint, source, old(nextOrder))] + old(Log()) && nextOrder == old(nextOrder) + 1
      ensures |shape.free| == |old(shape).free| - 1
      ensures source == Periodic ==>
        RecsOf(shape, leaf) != [] && Unpromoted(RecordOf(slots[..], RecsOf(shape, leaf)[0]))
                                     && RecordOf(slots[..], RecsOf(shape, leaf)[0]).checkpoint == checkpoint
      ensures var before, after := Periodics(old(slots[..]), old(shape), PathOf(h)),
        Periodics(slots[..], shape, PathOf(h));
        && (source != Periodic ==> after == before)
        && (source == Periodic ==>
           |after| == |before| + 1 && RecsOf(shape, leaf) != [] && after == before + {RecsOf(shape, leaf)[0]})
      ensures forall k :: k in old(shape).active ==>
        RecordOf(slots[..], k).checkpoint == RecordOf(old(slots[..]), k).checkpoint
    {
      AddRecordPeriodics(slots[..], shape, nextOrder, bare, leaf, checkpoint, h, source);
      RecordSlots(slots[..], shape, nextOrder, bare, leaf, checkpoint, h, source);
      LogWithRecord(slots[..], shape, nextOrder, bare, leaf, checkpoint, h, source);
      var index := AllocateRecord(checkpoint, leaf, source, h, bare);
    }

    lemma InsertKeeps(s: seq<Slot>, g: Shape, s1: seq<Slot>, g1: Shape, s2: seq<Slot>, path: seq<Label>)
      requires KeptRecords(s, g, s1, g1) && g1.active == g.active
      requires forall k :: k in g1.active ==> RecordOf(s2, k).checkpoint == RecordOf(s1, k).checkpoint
      ensures forall k :: k in Periodics(s, g, path) ==> RecordOf(s2, k).checkpoint == RecordOf(s, k).checkpoint
    {
      forall k | k in Periodics(s, g, path) ensures RecordOf(s2, k).checkpoint == RecordOf(s, k).checkpoint {
        assert KeptRecord(s, g, s1, g1, k);
      }
    }

    lemma RecordReady(leaf: nat, checkpoint: CheckpointId, h: History, bare: int)
      requires Linked(bare) && (bare == NoIndex || bare == leaf) && leaf in shape.paths
        && shape.paths[leaf] == PathOf(h) && h.tokens != []
      requires checkpoint > 0 && checkpoint !in Retained() && |shape.free| >= 1 && ValidImages(h.images)
        && Safe(h.images, |h.tokens|)
      ensures RecordFits(slots[..], shape, nextOrder, bare, leaf, checkpoint, h)
    {
      ghost var s := slots[..];
      assert RootAt(s, shape) && NodeKind(s, shape, leaf) && FreeAt(s, shape, 0) && ActiveAt(s, shape, 0);
      forall k: nat | k in shape.active ensures RecordOf(s, k).checkpoint != checkpoint {
        assert RecordAt(s, shape, nextOrder, k);
      }
    }

    /** Thinning after a periodic admission at `leaf`. A path that held at most eight before the
        admission, one of them eligible if it held eight, holds at most eight after it. */
    method ThinAfter(leaf: nat, eligible: Option<Usable>, ghost earlier: set<nat>, checkpoint: CheckpointId,
        ghost path: seq<Label>)
      returns (ok: bool, thinned: Option<CheckpointId>)
      requires Valid() && leaf in shape.paths && path == shape.paths[leaf] && RecsOf(shape, leaf) != []
      requires Unpromoted(RecordOf(slots[..], RecsOf(shape, leaf)[0]))
        && RecordOf(slots[..], RecsOf(shape, leaf)[0]).checkpoint == checkpoint
      requires Periodics(slots[..], shape, path) == earlier + {RecsOf(shape, leaf)[0]}
        && RecsOf(shape, leaf)[0] !in earlier
      modifies this, slots
      ensures Valid() && (ok <==> |earlier| <= MAX_PERIODIC) && (!ok ==> thinned.None?)
      ensures Retained() == if thinned.Some? then old(Retained()) - {thinned.value} else old(Retained())
      ensures Log() == Thinned(old(Log()), thinned) && nextOrder == old(nextOrder)
      ensures thinned.Some? ==> Names(old(slots[..]), earlier, eligible, thinned.value)
      ensures Thinnable(old(slots[..]), earlier, eligible) ==> PeriodicCount(path) <= MAX_PERIODIC
    {
      ghost var s, g, list := slots[..], shape, Climb(slots[..], shape, leaf);
      ClimbMeets(s, g, nextOrder, NoIndex, leaf);
      ClimbCount(s, g, nextOrder, NoIndex, leaf);
      FirstInClimb(s, g, leaf);
      ClimbLists(s, g, leaf, earlier);
      ok, thinned := ThinPeriodicFromNode(leaf, eligible);
      if thinned.Some? {
        ghost var place: nat :| ThinnedBy(OldestFirst(s, list), eligible, place, thinned.value);
        ghost var k := ThinnedIsEarlier(s, g, list, earlier, eligible, place);
        assert k in Periodics(s, g, path);
        CountDrops(s, g, slots[..], shape, path, k);
      } else {
        CountStays(s, g, slots[..], shape, path);
        if |earlier| == MAX_PERIODIC { NotThinnable(s, list, earlier, eligible); }
      }
    }

    lemma FirstInClimb(s: seq<Slot>, g: Shape, n: nat)
      requires RecsOf(g, n) != [] && Unpromoted(RecordOf(s, RecsOf(g, n)[0]))
      ensures Climb(s, g, n) != [] && Climb(s, g, n)[0] == RecsOf(g, n)[0]
    {
    }

    lemma ClimbLists(s: seq<Slot>, g: Shape, n: nat, earlier: set<nat>)
      requires n in g.paths && Climb(s, g, n) != [] && Climb(s, g, n)[0] !in earlier
      requires Periodics(s, g, g.paths[n]) == earlier + {Climb(s, g, n)[0]}
        && |Climb(s, g, n)| == |Periodics(s, g, g.paths[n])|
      requires forall k :: k in Climb(s, g, n) <==> OnPath(s, g, g.paths[n], k)
      ensures Lists(Climb(s, g, n), earlier)
    {
      forall k ensures k in Climb(s, g, n) <==> k in Periodics(s, g, g.paths[n]) {}
    }

    /** A checkpoint that is already there: its triggers are merged, and a periodic trigger thins. */
    method AdmitExisting(index: nat, checkpoint: CheckpointId, h: History, source: Source, eligible: Option<Usable>,
        node: nat, matched: nat)
      returns (r: Admission)
      requires Valid() && index in shape.active && RecordOf(slots[..], index).checkpoint == checkpoint && h.tokens != []
      requires matched <= |h.tokens| && node in shape.paths && shape.paths[node] == PathOf(h)[..matched]
        && Matched(shape, h, matched)
      modifies this, slots
      ensures Valid() && (r.Invalid? || r.Present? || r.Overfull?) && checkpoint in old(Retained())
      ensures r.Invalid? <==> PathOf(old(Retained())[checkpoint]) != PathOf(h)
      ensures r.Invalid? ==> slots[..] == old(slots[..]) && Retained() == old(Retained())
      ensures r.Present? ==> Retained() == Less(old(Retained()), r.thinned)
      ensures Log() == LogAfter(old(Log()), old(nextOrder), checkpoint, source, true, r)
      ensures r.Present? && r.thinned.Some? ==>
        source == Periodic && OnItsPath(Merged(old(Log()), checkpoint, source), old(Retained()), h, eligible,
            r.thinned.value)
      ensures r.Overfull? ==> source == Periodic && Retained() == old(Retained())
      ensures nextOrder == old(nextOrder)
    {
      InActive(slots[..], shape, nextOrder, index);
      ExistingPath(index, h, node, matched);
      if matched != |h.tokens| || slots[index].record.node != node { return Invalid; }
      assert PathOf(h)[..matched] == PathOf(h);
      MergeSource(index, source);
      if source == Periodic { r := ThinPath(node, h, eligible); } else { r := Present(None); }
      LogIs(old(Log()), old(nextOrder), checkpoint, source, true, r, Log());
    }

    /** Thinning after a periodic trigger of a checkpoint that was there. */
    method ThinPath(node: nat, h: History, eligible: Option<Usable>) returns (r: Admission)
      requires Valid() && node in shape.paths && shape.paths[node] == PathOf(h)
      modifies this, slots
      ensures Valid() && (r.Present? || r.Overfull?) && nextOrder == old(nextOrder)
      ensures r.Present? ==> Retained() == Less(old(Retained()), r.thinned) && Log() == Thinned(old(Log()), r.thinned)
      ensures r.Present? && r.thinned.Some? ==> OnItsPath(old(Log()), old(Retained()), h, eligible, r.thinned.value)
      ensures r.Overfull? ==> Retained() == old(Retained()) && Log() == old(Log())
    {
      ghost var s, g := slots[..], shape;
      var ok, thinned := ThinPeriodicFromNode(node, eligible);
      if !ok { return Overfull; }
      if thinned.Some? { ThinnedOnPath(s, g, nextOrder, node, h, eligible, thinned.value); }
      return Present(thinned);
    }

    /** What thinning removes is an unpromoted periodic record of the path. */
    lemma ThinnedOnPath(s: seq<Slot>, g: Shape, next: nat, n: nat, h: History, eligible: Option<Usable>,
        c: CheckpointId)
      requires Rep(s, g, next, NoIndex) && n in g.paths && g.paths[n] == PathOf(h)
      requires exists place: nat :: ThinnedBy(OldestFirst(s, Climb(s, g, n)), eligible, place, c)
      ensures OnItsPath(LogOf(s, g), g.histories, h, eligible, c)
    {
      var k := ThinnedRecord(s, g, n, eligible, c);
      ClimbMeets(s, g, next, NoIndex, n);
      assert OnPath(s, g, g.paths[n], k);
      MarkOnPath(s, g, next, PathOf(h), k);
    }

    lemma ThinnedRecord(s: seq<Slot>, g: Shape, n: nat, eligible: Option<Usable>, c: CheckpointId) returns (k: nat)
      requires n in g.paths && exists place: nat :: ThinnedBy(OldestFirst(s, Climb(s, g, n)), eligible, place, c)
      ensures Eligible(eligible, c) && k in Climb(s, g, n) && RecordOf(s, k).checkpoint == c
    {
      var list := Climb(s, g, n);
      var place: nat :| ThinnedBy(OldestFirst(s, list), eligible, place, c);
      k := list[8 - ThinOrder()[place]];
    }

    lemma MarkOnPath(s: seq<Slot>, g: Shape, next: nat, path: seq<Label>, k: nat)
      requires Rep(s, g, next, NoIndex) && OnPath(s, g, path, k)
      ensures var c := RecordOf(s, k).checkpoint;
        && c in g.histories && PathOf(g.histories[c]) <= path
        && exists i :: 0 <= i < |g.active| && LogOf(s, g)[i].checkpoint == c && UnpromotedMark(LogOf(s, g)[i])
    {
      assert RecordAt(s, g, next, k);
      var i: nat :| i < |g.active| && g.active[i] == k;
      assert LogOf(s, g)[i] == MarkOf(RecordOf(s, k));
    }

    lemma ExistingPath(index: nat, h: History, node: nat, matched: nat)
      requires Valid() && index in shape.active && matched <= |h.tokens| && node in shape.paths
        && shape.paths[node] == PathOf(h)[..matched]
      requires Matched(shape, h, matched)
      ensures var x := RecordOf(slots[..], index);
        && x.checkpoint in Retained()
        && (PathOf(Retained()[x.checkpoint]) == PathOf(h) <==> matched == |h.tokens| && x.node == node)
    {
      var s, x := slots[..], RecordOf(slots[..], index);
      assert RecordAt(s, shape, nextOrder, index);
      assert PathOf(h)[..|h.tokens|] == PathOf(h);
      assert PathOnce(shape, x.node, node);
      if matched < |h.tokens| && PathOf(Retained()[x.checkpoint]) == PathOf(h) {
        PrefixClosed(s, shape, nextOrder, NoIndex, x.node, matched + 1);
      }
    }

    /** Admits a checkpoint at a history. Whatever the outcome, nothing else is forgotten but the
        one checkpoint thinning names; a refused admission changes nothing. */
    method Admit(checkpoint: CheckpointId, h: History, source: Source, eligible: Option<Usable>) returns (r: Admission)
      requires Valid()
      modifies this, slots
      ensures Valid()
      ensures r.Invalid? <==> checkpoint == 0 || h.tokens == [] || !ValidImages(h.images) || !Safe(h.images, |h.tokens|)
                              || (checkpoint in old(Retained()) && PathOf(old(Retained())[checkpoint]) != PathOf(h))
      ensures r.Invalid? || r.NoRoom? || r.Protected? ==> Retained() == old(Retained()) && slots[..] == old(slots[..])
      ensures r.Admitted? ==> checkpoint !in old(Retained()) && Retained() == Less(old(Retained())[checkpoint := h],
        r.thinned)
      ensures r.Present? ==> checkpoint in old(Retained()) && Retained() == Less(old(Retained()), r.thinned)
      ensures Log() == LogAfter(old(Log()), old(nextOrder), checkpoint, source, checkpoint in old(Retained()), r)
      ensures nextOrder == old(nextOrder) + if checkpoint !in old(Retained())
        && (r.Admitted? || r.Overfull?) then 1 else 0
      ensures r.Present? && r.thinned.Some? ==>
        source == Periodic && OnItsPath(Merged(old(Log()), checkpoint, source), old(Retained()), h, eligible,
            r.thinned.value)
      ensures r.Admitted? && r.thinned.Some? ==>
        Names(old(slots[..]), Periodics(old(slots[..]), old(shape), PathOf(h)), eligible, r.thinned.value)
      ensures r.Admitted? && r.thinned.Some? ==> r.thinned.value != checkpoint && r.thinned.value in old(Retained())
      ensures r.NoRoom? ==> exists matched: nat ::
        Matched(old(shape), h, matched) && SlotsNeeded(h, matched) > |old(shape).free|
      ensures r.Admitted? ==> exists matched: nat ::
        Matched(old(shape), h, matched) && SlotsNeeded(h, matched) <= |old(shape).free|
      ensures r.Protected? <==> !r.Invalid? && checkpoint !in old(Retained()) && source == Periodic
                                && old(PeriodicCount(PathOf(h))) >= MAX_PERIODIC && !old(CanThin(PathOf(h), eligible))
      ensures r.Admitted? && old(PeriodicCount(PathOf(h))) <= MAX_PERIODIC ==> PeriodicCount(PathOf(h)) <= MAX_PERIODIC
      ensures r.Overfull? ==> source == Periodic
      ensures r.Overfull? && checkpoint !in old(Retained()) ==>
                old(PeriodicCount(PathOf(h))) > MAX_PERIODIC && Retained() == old(Retained())[checkpoint := h]
      ensures r.Overfull? && checkpoint in old(Retained()) ==> Retained() == old(Retained())
    {
      if checkpoint == 0 || h.tokens == [] { return Invalid; }
      var ordered := ValidateImages(h.images, |h.tokens|, true);
      if !ordered { return Invalid; }
      var node, matched := Descend(h);
      assert Matched(shape, h, matched);
      var existing := FindRecord(checkpoint);
      if existing != NoIndex {
        r := AdmitExisting(existing, checkpoint, h, source, eligible, node, matched);
        return;
      }
      r := AdmitNew(checkpoint, h, source, eligible, node, matched);
    }

    /** A checkpoint that is not there yet. */
    method AdmitNew(checkpoint: CheckpointId, h: History, source: Source, eligible: Option<Usable>, node: nat,
        matched: nat) returns (r: Admission)
      requires Valid() && checkpoint > 0 && checkpoint !in Retained() && h.tokens != [] && ValidImages(h.images)
        && Safe(h.images, |h.tokens|)
      requires matched <= |h.tokens| && node in shape.paths && shape.paths[node] == PathOf(h)[..matched]
      requires matched < |h.tokens| ==> !HasNode(shape, PathOf(h)[..matched + 1])
      modifies this, slots
      ensures Valid() && (r.NoRoom? || r.Protected? || r.Admitted? || r.Overfull?)
      ensures r.NoRoom? || r.Protected? ==> Retained() == old(Retained()) && slots[..] == old(slots[..])
      ensures r.Admitted? ==> Retained() == Less(old(Retained())[checkpoint := h], r.thinned)
      ensures r.Overfull? ==> Retained() == old(Retained())[checkpoint := h]
      ensures Log() == LogAfter(old(Log()), old(nextOrder), checkpoint, source, false, r)
      ensures nextOrder == old(nextOrder) + if r.Admitted? || r.Overfull? then 1 else 0
      ensures r.NoRoom? ==> SlotsNeeded(h, matched) > |old(shape).free|
      ensures r.Admitted? ==> SlotsNeeded(h, matched) <= |old(shape).free|
      ensures r.Admitted? && r.thinned.Some? ==> r.thinned.value != checkpoint && r.thinned.value in old(Retained())
      ensures r.Admitted? && r.thinned.Some? ==>
        Names(old(slots[..]), Periodics(old(slots[..]), old(shape), PathOf(h)), eligible, r.thinned.value)
      ensures r.Protected? <==>
        (source == Periodic && old(PeriodicCount(PathOf(h))) >= MAX_PERIODIC && !old(CanThin(PathOf(h), eligible)))
      ensures r.Overfull? ==> source == Periodic && old(PeriodicCount(PathOf(h))) > MAX_PERIODIC
      ensures r.Admitted? && old(PeriodicCount(PathOf(h))) <= MAX_PERIODIC ==> PeriodicCount(PathOf(h)) <= MAX_PERIODIC
    {
      if source == Periodic {
        var blocked := PathBlocked(h, eligible, node, matched);
        if blocked { return Protected; }
      }
      ghost var s, g := slots[..], shape;
      r := AdmitUnblocked(checkpoint, h, source, eligible, node, matched);
      LogIs(old(Log()), old(nextOrder), checkpoint, source, false, r, Log());
      if r.Admitted? && r.thinned.Some? {
        NamesRetained(s, g, old(nextOrder), PathOf(h), eligible, r.thinned.value);
      }
    }

    method PathBlocked(h: History, eligible: Option<Usable>, node: nat, matched: nat) returns (blocked: bool)
      requires Valid() && matched <= |h.tokens| && node in shape.paths && shape.paths[node] == PathOf(h)[..matched]
      requires matched < |h.tokens| ==> !HasNode(shape, PathOf(h)[..matched + 1])
      ensures blocked <==> PeriodicCount(PathOf(h)) >= MAX_PERIODIC && !CanThin(PathOf(h), eligible)
      ensures !blocked && PeriodicCount(PathOf(h)) <= MAX_PERIODIC ==>
        Thinnable(slots[..], Periodics(slots[..], shape, PathOf(h)), eligible)
    {
      PathClimb(node, PathOf(h), matched);
      blocked := PeriodicBlocked(node, eligible);
      Unblocked(node, PathOf(h), eligible, blocked);
    }

    /** A new checkpoint that is not refused for what its path holds. */
    method AdmitUnblocked(checkpoint: CheckpointId, h: History, source: Source, eligible: Option<Usable>, node: nat,
        matched: nat)
      returns (r: Admission)
      requires Valid() && checkpoint > 0 && checkpoint !in Retained() && h.tokens != [] && ValidImages(h.images)
        && Safe(h.images, |h.tokens|)
      requires matched <= |h.tokens| && node in shape.paths && shape.paths[node] == PathOf(h)[..matched]
      requires matched < |h.tokens| ==> !HasNode(shape, PathOf(h)[..matched + 1])
      modifies this, slots
      ensures Valid() && (r.NoRoom? || r.Admitted? || r.Overfull?)
      ensures r.NoRoom? ==> Retained() == old(Retained()) && slots[..] == old(slots[..]) && Log() == old(Log())
      ensures r.NoRoom? <==> SlotsNeeded(h, matched) > |old(shape).free|
      ensures r.Admitted? ==> Retained() == Less(old(Retained())[checkpoint := h], r.thinned)
      ensures r.Admitted? ==> Log() == Thinned([NewMark(checkpoint, source, old(nextOrder))] + old(Log()), r.thinned)
      ensures r.Overfull? ==> Retained() == old(Retained())[checkpoint := h]
      ensures r.Overfull? ==> Log() == [NewMark(checkpoint, source, old(nextOrder))] + old(Log())
      ensures nextOrder == old(nextOrder) + if r.NoRoom? then 0 else 1
      ensures r.Admitted? && r.thinned.Some? ==>
        Names(old(slots[..]), Periodics(old(slots[..]), old(shape), PathOf(h)), eligible, r.thinned.value)
      ensures r.Overfull? ==> source == Periodic && old(PeriodicCount(PathOf(h))) > MAX_PERIODIC
      ensures r.Admitted? && source == Periodic && Thinnable(old(slots[..]),
        Periodics(old(slots[..]), old(shape), PathOf(h)), eligible) ==>
                PeriodicCount(PathOf(h)) <= MAX_PERIODIC
      ensures r.Admitted? && source != Periodic ==> PeriodicCount(PathOf(h)) == old(PeriodicCount(PathOf(h)))
    {
      var newImages := CountStarting(h.images, matched, |h.tokens|);
      var room := HasRoom(|h.tokens| - matched + newImages + 1);
      if !room { return NoRoom; }
      r := Place(checkpoint, h, source, eligible, node, matched);
    }

    /** Inserts the record, and thins the path of a periodic one. */
    method Place(checkpoint: CheckpointId, h: History, source: Source, eligible: Option<Usable>, node: nat,
        matched: nat) returns (r: Admission)
      requires Valid() && checkpoint > 0 && checkpoint !in Retained() && h.tokens != [] && ValidImages(h.images)
        && Safe(h.images, |h.tokens|)
      requires matched <= |h.tokens| && node in shape.paths && shape.paths[node] == PathOf(h)[..matched]
      requires matched < |h.tokens| ==> !HasNode(shape, PathOf(h)[..matched + 1])
      requires SlotsNeeded(h, matched) <= |shape.free|
      modifies this, slots
      ensures Valid() && (r.Admitted? || r.Overfull?)
      ensures r.Admitted? ==> Retained() == Less(old(Retained())[checkpoint := h], r.thinned)
      ensures r.Overfull? ==> Retained() == old(Retained())[checkpoint := h]
      ensures r.Admitted? ==> Log() == Thinned([NewMark(checkpoint, source, old(nextOrder))] + old(Log()), r.thinned)
      ensures r.Overfull? ==> Log() == [NewMark(checkpoint, source, old(nextOrder))] + old(Log())
      ensures nextOrder == old(nextOrder) + 1
      ensures r.Admitted? && r.thinned.Some? ==>
        Names(old(slots[..]), Periodics(old(slots[..]), old(shape), PathOf(h)), eligible, r.thinned.value)
      ensures r.Overfull? ==> source == Periodic && old(PeriodicCount(PathOf(h))) > MAX_PERIODIC
      ensures r.Admitted? && source == Periodic && Thinnable(old(slots[..]),
        Periodics(old(slots[..]), old(shape), PathOf(h)), eligible) ==>
                PeriodicCount(PathOf(h)) <= MAX_PERIODIC
      ensures r.Admitted? && source != Periodic ==> PeriodicCount(PathOf(h)) == old(PeriodicCount(PathOf(h)))
    {
      ghost var s, path := slots[..], PathOf(h);
      ghost var earlier := Periodics(s, shape, path);
      var leaf := Insert(checkpoint, h, source, node, matched);
      if source != Periodic { return Admitted(None); }
      SameThinnable(s, slots[..], earlier, eligible);
      var ok, thinned := ThinAfter(leaf, eligible, earlier, checkpoint, path);
      if !ok { return Overfull; }
      return Admitted(thinned);
    }

    /** The climb from the deepest matching node meets the whole path's periodic records. */
    lemma PathClimb(node: nat, path: seq<Label>, matched: nat)
      requires Valid() && matched <= |path| && node in shape.paths && shape.paths[node] == path[..matched]
      requires matched < |path| ==> !HasNode(shape, path[..matched + 1])
      ensures PeriodicCount(path) == |Climb(slots[..], shape, node)|
      ensures forall k :: k in Climb(slots[..], shape, node) <==> k in Periodics(slots[..], shape, path)
    {
      PeriodicsMatched(slots[..], shape, nextOrder, NoIndex, path, matched);
      ClimbMeets(slots[..], shape, nextOrder, NoIndex, node);
      ClimbCount(slots[..], shape, nextOrder, NoIndex, node);
      forall k ensures k in Climb(slots[..], shape, node) <==> k in Periodics(slots[..], shape, path) {
        assert k in Periodics(slots[..], shape, path[..matched]) <==> OnPath(slots[..], shape, path[..matched], k);
      }
    }

    lemma Unblocked(node: nat, path: seq<Label>, eligible: Option<Usable>, blocked: bool)
      requires PeriodicCount(path) == |Climb(slots[..], shape, node)|
      requires forall k :: k in Climb(slots[..], shape, node) <==> k in Periodics(slots[..], shape, path)
      requires blocked <==> Blocked(slots[..], Climb(slots[..], shape, node), eligible)
      ensures blocked ==> PeriodicCount(path) >= MAX_PERIODIC && !CanThin(path, eligible)
      ensures blocked <== PeriodicCount(path) >= MAX_PERIODIC && !CanThin(path, eligible)
      ensures !blocked && PeriodicCount(path) <= MAX_PERIODIC ==>
        Thinnable(slots[..], Periodics(slots[..], shape, path), eligible)
    {
      var earlier := Periodics(slots[..], shape, path);
      if !blocked && |earlier| == MAX_PERIODIC {
        if eligible.None? {
          var k :| k in earlier;
          assert Eligible(eligible, RecordOf(slots[..], k).checkpoint);
        } else {
          var k :| k in Climb(slots[..], shape, node) && eligible.value(RecordOf(slots[..], k).checkpoint);
          assert k in earlier && Eligible(eligible, RecordOf(slots[..], k).checkpoint);
        }
      }
    }

    lemma SameThinnable(s: seq<Slot>, s': seq<Slot>, earlier: set<nat>, eligible: Option<Usable>)
      requires forall k :: k in earlier ==> RecordOf(s', k).checkpoint == RecordOf(s, k).checkpoint
      ensures Thinnable(s, earlier, eligible) <==> Thinnable(s', earlier, eligible)
      ensures forall c :: Names(s, earlier, eligible, c) <==> Names(s', earlier, eligible, c)
    {
    }

    // -------------------------------------------------------------------- use and age

    /** Rewrites the marks of one record. */
    method SetRecord(k: nat, y: Record)
      requires Valid() && k in shape.active && SameLinks(RecordOf(slots[..], k), y)
      modifies slots
      ensures Valid() && RecordOf(slots[..], k) == y
      ensures k < |old(slots[..])| && slots[..] == old(slots[..])[k := RecordSlot(y)]
      ensures forall m: nat :: m != k ==> RecordOf(slots[..], m) == RecordOf(old(slots[..]), m)
    {
      InActive(slots[..], shape, nextOrder, k);
      MarkRecord(slots[..], shape, nextOrder, k, y);
      slots[k] := RecordSlot(y);
    }

    /** A real use promotes a checkpoint; a lookup never does. */
    method MarkUsed(checkpoint: CheckpointId) returns (found: bool)
      requires Valid()
      modifies slots
      ensures Valid() && (found <==> checkpoint in Retained())
      ensures forall k: nat :: k in shape.active ==>
        RecordOf(slots[..], k) == Promoted(RecordOf(old(slots[..]), k), checkpoint)
    {
      var index := FindRecord(checkpoint);
      if index == NoIndex { RecordsNamed(checkpoint); return false; }
      OnlyRecord(slots[..], shape, index);
      InActive(slots[..], shape, nextOrder, index);
      var record := slots[index].record;
      SetRecord(index, record.(reuse := record.reuse + 1, cacheClass := Reused, referenceBit := true));
      return true;
    }

    lemma RecordsNamed(checkpoint: CheckpointId)
      requires Valid() && checkpoint !in Retained()
      ensures forall k: nat :: k in shape.active ==> RecordOf(slots[..], k).checkpoint != checkpoint
    {
      forall k: nat | k in shape.active ensures RecordOf(slots[..], k).checkpoint != checkpoint {
        assert RecordAt(slots[..], shape, nextOrder, k);
      }
    }

    method SetPriority(checkpoint: CheckpointId, priority: Priority) returns (found: bool)
      requires Valid()
      modifies slots
      ensures Valid() && (found <==> checkpoint in Retained())
      ensures forall k: nat :: k in shape.active ==>
        RecordOf(slots[..], k) == Prioritised(RecordOf(old(slots[..]), k), checkpoint, priority)
    {
      var index := FindRecord(checkpoint);
      if index == NoIndex { RecordsNamed(checkpoint); return false; }
      OnlyRecord(slots[..], shape, index);
      InActive(slots[..], shape, nextOrder, index);
      SetRecord(index, slots[index].record.(priority := priority));
      return true;
    }

    // ----------------------------------------------------------------------- the clock

    /** The hand's place in the list of all records. */
    ghost predicate HandAt(i: nat)
      reads this
    {
      if clockHand == NoIndex then i == |shape.active| else i < |shape.active| && shape.active[i] == clockHand
    }

    method NextClockRecord(ghost i: nat) returns (k: nat)
      requires Valid() && shape.active != [] && HandAt(i)
      modifies this`clockHand
      ensures Valid() && HandAt(Advance(|shape.active|, i)) && k in shape.active
        && k == shape.active[Advance(|shape.active|, i)]
    {
      ghost var s, n := slots[..], |shape.active|;
      ghost var next := Advance(n, i);
      assert ActiveAt(s, shape, next);
      if clockHand == NoIndex {
        clockHand := activeHead;
      } else {
        assert ActiveAt(s, shape, i);
        var following := slots[clockHand].record.nextActive;
        clockHand := if following == NoIndex then activeHead else following;
      }
      return clockHand;
    }

    lemma HandExists() returns (i: nat)
      requires Valid()
      ensures HandAt(i)
    {
      if clockHand == NoIndex {
        i := |shape.active|;
      } else {
        i :| 0 <= i < |shape.active| && shape.active[i] == clockHand;
      }
    }

    /** One pass over all records: clears the reference bits of the wanted ones it passes, and
        stops at the first without one. */
    method ScanPass(priority: Priority, cacheClass: CacheClass, eligible: Usable)
        returns (victim: int, ghost steps: nat)
      requires Valid() && shape.active != []
      modifies this`clockHand, slots
      ensures Valid() && AgedOnly(old(slots[..]), slots[..], shape, eligible) && steps <= |shape.active|
      ensures victim != NoIndex ==> victim >= 0 && WantedIn(slots[..], shape, eligible, priority, cacheClass, victim)
      ensures forall k: nat :: k in shape.active ==>
        RecordOf(slots[..], k).cacheClass == RecordOf(old(slots[..]), k).cacheClass
      ensures victim == NoIndex ==> forall k: nat :: WantedIn(slots[..], shape, eligible, priority, cacheClass, k) ==>
                RecordOf(old(slots[..]), k).referenceBit && !RecordOf(slots[..], k).referenceBit
    {
      ghost var s, first, done := slots[..], 0, 0;
      var found, k;
      found, k, first, done := PassLoop(priority, cacheClass, eligible);
      PassedAged(s, slots[..], first, done, priority, cacheClass, eligible);
      if found { return k, done + 1; }
      PassedAll(s, slots[..], first, priority, cacheClass, eligible);
      return NoIndex, done;
    }

    method PassLoop(priority: Priority, cacheClass: CacheClass, eligible: Usable)
        returns (found: bool, k: nat, ghost first: nat, ghost done: nat)
      requires Valid() && shape.active != []
      modifies this`clockHand, slots
      ensures Valid() && first < |shape.active| && done <= |shape.active| && (found <==> done < |shape.active|)
      ensures PassOk(old(slots[..]), slots[..], first, done, priority, cacheClass, eligible)
      ensures found ==> WantedIn(slots[..], shape, eligible, priority, cacheClass, k)
    {
      ghost var s, n := slots[..], |shape.active|;
      ghost var i := HandExists();
      first, done, found, k := Advance(n, i), 0, false, 0;
      var scanned := 0;
      while scanned < activeRecords && !found
        invariant 0 <= scanned <= n && done == (if found then scanned - 1 else scanned) && (found ==> scanned > 0)
          && Valid()
        invariant !found ==> HandAt(i) && (done < n ==> Advance(n, i) == Reach(n, first, done))
        invariant PassOk(s, slots[..], first, done, priority, cacheClass, eligible)
        invariant found ==> WantedIn(slots[..], shape, eligible, priority, cacheClass, k)
        decreases activeRecords - scanned
      {
        ReachOffset(n, first, done, Reach(n, first, done));
        found, k := ScanOne(priority, cacheClass, eligible, s, first, done, i);
        i := Advance(n, i);
        scanned := scanned + 1;
        done := if found then done else done + 1;
      }
    }

    lemma PassedAll(s: seq<Slot>, t: seq<Slot>, first: nat, priority: Priority, cacheClass: CacheClass,
        eligible: Usable)
      requires first < |shape.active| && PassOk(s, t, first, |shape.active|, priority, cacheClass, eligible)
      ensures forall k: nat :: WantedIn(t, shape, eligible, priority, cacheClass, k) ==>
        RecordOf(s, k).referenceBit && !RecordOf(t, k).referenceBit
    {
      forall k: nat | WantedIn(t, shape, eligible, priority, cacheClass, k)
        ensures RecordOf(s, k).referenceBit && !RecordOf(t, k).referenceBit {
        var j: nat :| j < |shape.active| && shape.active[j] == k;
        assert PassedAt(s, t, first, |shape.active|, priority, cacheClass, eligible, j);
        ReachOffset(|shape.active|, first, 0, j);
      }
    }

    /** Looks at the next record of a pass. */
    method ScanOne(priority: Priority, cacheClass: CacheClass, eligible: Usable, ghost s: seq<Slot>, ghost first: nat,
        ghost steps: nat, ghost i: nat)
      returns (found: bool, k: nat)
      requires Valid() && shape.active != [] && HandAt(i) && first < |shape.active| && steps < |shape.active|
      requires Advance(|shape.active|, i) == Reach(|shape.active|, first, steps)
      requires PassOk(s, slots[..], first, steps, priority, cacheClass, eligible)
      modifies this`clockHand, slots
      ensures Valid() && HandAt(Advance(|shape.active|, i))
      ensures found ==> slots[..] == old(slots[..]) && WantedIn(slots[..], shape, eligible, priority, cacheClass, k)
      ensures !found ==> PassOk(s, slots[..], first, steps + 1, priority, cacheClass, eligible)
    {
      ghost var t := slots[..];
      k := NextClockRecord(i);
      InActive(t, shape, nextOrder, k);
      var record := slots[k].record;
      var wanted := record.priority == priority && record.cacheClass == cacheClass && eligible(record.checkpoint);
      if wanted && !record.referenceBit { return true, k; }
      if wanted { SetRecord(k, record.(referenceBit := false)); }
      ghost var place := Advance(|shape.active|, i);
      PassStep(s, t, slots[..], first, steps, priority, cacheClass, eligible, place);
      return false, k;
    }

    lemma PassStep(s: seq<Slot>, t: seq<Slot>, u: seq<Slot>, first: nat, steps: nat, priority: Priority,
        cacheClass: CacheClass, eligible: Usable, i: nat)
      requires ActiveOk(u, shape, nextOrder) && first < |shape.active| && steps < |shape.active|
      requires i == Reach(|shape.active|, first, steps) && i < |shape.active|
        && PassOk(s, t, first, steps, priority, cacheClass, eligible)
      requires var k := shape.active[i];
        if WantedIn(t, shape, eligible, priority, cacheClass, k)
        then RecordOf(t, k).referenceBit && RecordOf(u, k) == RecordOf(t, k).(referenceBit := false)
        else RecordOf(u, k) == RecordOf(t, k)
      requires forall m: nat :: m != shape.active[i] ==> RecordOf(u, m) == RecordOf(t, m)
      ensures PassOk(s, u, first, steps + 1, priority, cacheClass, eligible)
    {
      var done := steps + 1;
      forall j: nat | j < |shape.active| ensures PassedAt(s, u, first, done, priority, cacheClass, eligible, j) {
        PassedStep(s, t, u, first, steps, priority, cacheClass, eligible, i, j);
      }
    }

    ghost predicate PassOk(s: seq<Slot>, t: seq<Slot>, first: nat, steps: nat, priority: Priority,
        cacheClass: CacheClass, eligible: Usable)
      reads this`shape
    {
      forall j: nat :: j < |shape.active| ==> PassedAt(s, t, first, steps, priority, cacheClass, eligible, j)
    }

    /** Record `shape.active[j]` in a pass of which `steps` places are done. */
    ghost predicate PassedAt(s: seq<Slot>, t: seq<Slot>, first: nat, steps: nat, priority: Priority,
        cacheClass: CacheClass, eligible: Usable, j: nat)
      reads this`shape
    {
      j < |shape.active| ==>
        var k := shape.active[j];
        if WantedIn(s, shape, eligible, priority, cacheClass, k) && Offset(|shape.active|, first, j) < steps
        then RecordOf(s, k).referenceBit && RecordOf(t, k) == RecordOf(s, k).(referenceBit := false)
        else RecordOf(t, k) == RecordOf(s, k)
    }

    lemma PassedStep(s: seq<Slot>, t: seq<Slot>, u: seq<Slot>, first: nat, steps: nat, priority: Priority,
        cacheClass: CacheClass, eligible: Usable, i: nat, j: nat)
      requires ActiveOk(u, shape, nextOrder) && first < |shape.active| && steps < |shape.active|
      requires i == Reach(|shape.active|, first, steps) && i < |shape.active| && j < |shape.active|
      requires PassedAt(s, t, first, steps, priority, cacheClass, eligible, i)
        && PassedAt(s, t, first, steps, priority, cacheClass, eligible, j)
      requires var k := shape.active[i];
        if WantedIn(t, shape, eligible, priority, cacheClass, k)
        then RecordOf(t, k).referenceBit && RecordOf(u, k) == RecordOf(t, k).(referenceBit := false)
        else RecordOf(u, k) == RecordOf(t, k)
      requires forall m: nat :: m != shape.active[i] ==> RecordOf(u, m) == RecordOf(t, m)
      ensures PassedAt(s, u, first, steps + 1, priority, cacheClass, eligible, j)
    {
      ReachOffset(|shape.active|, first, steps, i);
      ReachOffset(|shape.active|, first, steps, j);
      if shape.active[j] == shape.active[i] { ActiveOnce(u, shape, nextOrder, i, j); }
    }

    lemma PassedAged(s: seq<Slot>, t: seq<Slot>, first: nat, steps: nat, priority: Priority, cacheClass: CacheClass,
        eligible: Usable)
      requires PassOk(s, t, first, steps, priority, cacheClass, eligible)
      ensures AgedOnly(s, t, shape, eligible)
      ensures forall k: nat :: k in shape.active ==> RecordOf(t, k).cacheClass == RecordOf(s, k).cacheClass
    {
      forall k: nat | k in shape.active
        ensures AgedAt(s, t, shape, eligible, k) && RecordOf(t, k).cacheClass == RecordOf(s, k).cacheClass
      {
        var j: nat :| j < |shape.active| && shape.active[j] == k;
        assert PassedAt(s, t, first, steps, priority, cacheClass, eligible, j);
      }
    }

    method MeasureBytes(priority: Priority, eligible: Usable, bytes: Bytes) returns (total: nat, reused: nat)
      requires Valid()
      ensures total == TotalBytes(slots[..], eligible, bytes, priority, shape.active)
      ensures reused == ReusedBytes(slots[..], eligible, bytes, priority, shape.active)
    {
      ghost var s, list := slots[..], shape.active;
      total, reused := 0, 0;
      var index := activeHead;
      ghost var i: nat := 0;
      while index != NoIndex
        invariant 0 <= i <= |list| && index == (if i < |list| then list[i] else NoIndex)
        invariant total == TotalBytes(s, eligible, bytes, priority, list[..i])
          && reused == ReusedBytes(s, eligible, bytes, priority, list[..i])
        decreases |list| - i
      {
        assert ActiveAt(s, shape, i);
        assert list[..i + 1][..i] == list[..i];
        var record := slots[index].record;
        if record.priority == priority && eligible(record.checkpoint) {
          total := total + bytes(record.checkpoint);
          if record.cacheClass == Reused { reused := reused + bytes(record.checkpoint); }
        }
        index := record.nextActive;
        i := i + 1;
      }
      assert list[..i] == list;
    }

    /** Looks at one record during rebalancing: takes its second chance, or demotes it unless that
        would overshoot. */
    method DemoteNext(priority: Priority, eligible: Usable, bytes: Bytes, reused: nat, target: nat, ghost i: nat)
        returns (after: nat)
      requires Valid() && shape.active != [] && HandAt(i) && reused > target
      requires reused == ReusedBytes(slots[..], eligible, bytes, priority, shape.active)
      modifies this`clockHand, slots
      ensures Valid() && HandAt(Advance(|shape.active|, i)) && AgedOnly(old(slots[..]), slots[..], shape, eligible)
      ensures after == ReusedBytes(slots[..], eligible, bytes, priority, shape.active) && after <= reused
      ensures Distance(after, target) <= Distance(reused, target)
    {
      ghost var s := slots[..];
      after := reused;
      var k := NextClockRecord(i);
      InActive(s, shape, nextOrder, k);
      var record := slots[k].record;
      AgedSelf(s, eligible);
      if record.priority != priority || record.cacheClass != Reused || !eligible(record.checkpoint) { return; }
      ghost var place: nat :| place < |shape.active| && shape.active[place] == k;
      if record.referenceBit {
        SetRecord(k, record.(referenceBit := false));
        Touched(s, slots[..], eligible, bytes, priority, place);
        return;
      }
      var size := bytes(record.checkpoint);
      if size == 0 { return; }
      WeightWithin(s, eligible, bytes, priority, shape.active, place);
      var less := reused - size;
      if less < target && target - less > reused - target { return; }
      SetRecord(k, record.(cacheClass := Probationary));
      Touched(s, slots[..], eligible, bytes, priority, place);
      after := less;
    }

    lemma AgedSelf(s: seq<Slot>, eligible: Usable)
      ensures AgedOnly(s, s, shape, eligible)
    {
      forall k: nat ensures AgedAt(s, s, shape, eligible, k) {}
    }

    lemma {:induction false} WeightWithin(s: seq<Slot>, eligible: Usable, bytes: Bytes, priority: Priority,
        list: seq<nat>, i: nat)
      requires i < |list|
      ensures ReusedWeight(s, eligible, bytes, priority, list[i]) <= ReusedBytes(s, eligible, bytes, priority, list)
      decreases |list|
    {
      if i < |list| - 1 { WeightWithin(s, eligible, bytes, priority, list[..|list| - 1], i); }
    }

    /** One aged record changes the reused bytes by its own weight only. */
    lemma Touched(s: seq<Slot>, t: seq<Slot>, eligible: Usable, bytes: Bytes, priority: Priority, i: nat)
      requires Rep(s, shape, nextOrder, NoIndex) && i < |shape.active|
      requires var k := shape.active[i]; Aged(RecordOf(s, k), RecordOf(t, k)) && eligible(RecordOf(s, k).checkpoint)
      requires forall m: nat :: m != shape.active[i] ==> RecordOf(t, m) == RecordOf(s, m)
      ensures AgedOnly(s, t, shape, eligible)
      ensures ReusedBytes(t, eligible, bytes, priority, shape.active)
        + ReusedWeight(s, eligible, bytes, priority, shape.active[i])
           == ReusedBytes(s, eligible, bytes, priority, shape.active)
               + ReusedWeight(t, eligible, bytes, priority, shape.active[i])
    {
      var list := shape.active;
      forall k: nat ensures AgedAt(s, t, shape, eligible, k) {}
      forall j | 0 <= j < |list| && j != i
        ensures ReusedWeight(t, eligible, bytes, priority, list[j])
          == ReusedWeight(s, eligible, bytes, priority, list[j])
      {
        if list[j] == list[i] { ActiveOnce(s, shape, nextOrder, i, j); }
      }
      if ReusedWeight(t, eligible, bytes, priority, list[i]) == 0 {
        ReusedDrop(s, t, eligible, bytes, priority, list, i);
      } else {
        ReusedSame(s, t, eligible, bytes, priority, list);
      }
    }

    method DemotePass(priority: Priority, eligible: Usable, bytes: Bytes, before: nat, target: nat, ghost place: nat)
      returns (reused: nat, ghost i: nat, ghost steps: nat)
      requires Valid() && shape.active != [] && HandAt(place)
        && before == ReusedBytes(slots[..], eligible, bytes, priority, shape.active)
      modifies this`clockHand, slots
      ensures Valid() && HandAt(i) && AgedOnly(old(slots[..]), slots[..], shape, eligible) && steps <= |shape.active|
      ensures reused == ReusedBytes(slots[..], eligible, bytes, priority, shape.active) && reused <= before
      ensures Distance(reused, target) <= Distance(before, target)
    {
      ghost var s := slots[..];
      AgedSelf(s, eligible);
      reused, i, steps := before, place, 0;
      var scanned := 0;
      while scanned < activeRecords && reused > target
        invariant 0 <= scanned <= activeRecords && steps == scanned && HandAt(i)
        invariant Valid() && AgedOnly(s, slots[..], shape, eligible)
        invariant reused == ReusedBytes(slots[..], eligible, bytes, priority, shape.active) && reused <= before
        invariant Distance(reused, target) <= Distance(before, target)
        decreases activeRecords - scanned
      {
        ghost var t := slots[..];
        reused := DemoteNext(priority, eligible, bytes, reused, target, i);
        AgedTrans(s, t, slots[..], shape, eligible);
        i := Advance(|shape.active|, i);
        steps, scanned := steps + 1, scanned + 1;
      }
    }

    /** Rebalancing towards three quarters reused bytes: it only ages eligible records, and never
        ends farther from the target than it began. */
    method RebalanceReused(priority: Priority, eligible: Usable, bytes: Bytes) returns (ghost steps: nat)
      requires Valid() && shape.active != []
      modifies this`clockHand, slots
      ensures Valid() && AgedOnly(old(slots[..]), slots[..], shape, eligible) && steps <= 2 * |shape.active|
      ensures var target := 3 * old(TotalBytes(slots[..], eligible, bytes, priority, shape.active)) / 4;
        var before, after := old(ReusedBytes(slots[..], eligible, bytes, priority, shape.active)),
            ReusedBytes(slots[..], eligible, bytes, priority, shape.active);
        after <= before && Distance(after, target) <= Distance(before, target)
    {
      ghost var s, n := slots[..], |shape.active|;
      AgedSelf(s, eligible);
      steps := 0;
      var total, reused := MeasureBytes(priority, eligible, bytes);
      if total == 0 { return; }
      var target := total / 4 * 3 + total % 4 * 3 / 4;
      TargetIs(total);
      if reused <= target { return; }
      ghost var first := reused;
      ghost var i := HandExists();
      var pass := 0;
      while pass < 2 && reused > target
        invariant 0 <= pass <= 2 && HandAt(i) && steps <= (if pass == 0 then 0 else if pass == 1 then n else n + n)
        invariant Valid() && AgedOnly(s, slots[..], shape, eligible)
        invariant reused == ReusedBytes(slots[..], eligible, bytes, priority, shape.active) && reused <= first
        invariant Distance(reused, target) <= Distance(first, target)
      {
        ghost var t := slots[..];
        ghost var more;
        reused, i, more := DemotePass(priority, eligible, bytes, reused, target, i);
        AgedTrans(s, t, slots[..], shape, eligible);
        steps := steps + more;
        pass := pass + 1;
      }
    }

    /** Selection at one priority. */
    method SelectAt(priority: Priority, eligible: Usable, bytes: Bytes) returns (victim: int, ghost steps: nat)
      requires Valid() && shape.active != []
      modifies this`clockHand, slots
      ensures Valid() && AgedOnly(old(slots[..]), slots[..], shape, eligible) && steps <= 6 * |shape.active|
      ensures victim == NoIndex ==> forall k: nat :: !Wanted(slots[..], shape, eligible, priority, k)
      ensures victim != NoIndex ==> victim >= 0 && Wanted(slots[..], shape, eligible, priority, victim)
      ensures victim != NoIndex && RecordOf(slots[..], victim).cacheClass == Reused ==>
                forall k: nat :: !WantedIn(slots[..], shape, eligible, priority, Probationary, k)
    {
      ghost var s := slots[..];
      steps := RebalanceReused(priority, eligible, bytes);
      ghost var more;
      ghost var t := slots[..];
      victim, more := ScanTwice(priority, Probationary, eligible);
      AgedTrans(s, t, slots[..], shape, eligible);
      steps := steps + more;
      if victim != NoIndex { return; }
      t := slots[..];
      victim, more := ScanTwice(priority, Reused, eligible);
      AgedTrans(s, t, slots[..], shape, eligible);
      steps := steps + more;
      StillNone(t, slots[..], eligible, priority);
      forall k: nat | victim == NoIndex ensures !Wanted(slots[..], shape, eligible, priority, k) {
        assert !WantedIn(slots[..], shape, eligible, priority, Probationary, k)
            && !WantedIn(slots[..], shape, eligible, priority, Reused, k);
      }
    }

    lemma StillNone(t: seq<Slot>, u: seq<Slot>, eligible: Usable, priority: Priority)
      requires AgedOnly(t, u, shape, eligible)
      requires forall k: nat :: k in shape.active ==> RecordOf(u, k).cacheClass == RecordOf(t, k).cacheClass
      requires forall k: nat :: !WantedIn(t, shape, eligible, priority, Probationary, k)
      ensures forall k: nat :: !WantedIn(u, shape, eligible, priority, Probationary, k)
    {
      forall k: nat ensures !WantedIn(u, shape, eligible, priority, Probationary, k) {
        assert AgedAt(t, u, shape, eligible, k) && !WantedIn(t, shape, eligible, priority, Probationary, k);
      }
    }

    /** Two passes: the first clears all reference bits of the class, so the second finds a
        victim if there is any candidate at all. */
    method ScanTwice(priority: Priority, cacheClass: CacheClass, eligible: Usable)
        returns (victim: int, ghost steps: nat)
      requires Valid() && shape.active != []
      modifies this`clockHand, slots
      ensures Valid() && AgedOnly(old(slots[..]), slots[..], shape, eligible) && steps <= 2 * |shape.active|
      ensures forall k: nat :: k in shape.active ==>
        RecordOf(slots[..], k).cacheClass == RecordOf(old(slots[..]), k).cacheClass
      ensures victim == NoIndex ==> forall k: nat :: !WantedIn(slots[..], shape, eligible, priority, cacheClass, k)
      ensures victim != NoIndex ==> victim >= 0 && WantedIn(slots[..], shape, eligible, priority, cacheClass, victim)
    {
      ghost var s := slots[..];
      victim, steps := ScanPass(priority, cacheClass, eligible);
      if victim != NoIndex { return; }
      ghost var t, more := slots[..], 0;
      victim, more := ScanPass(priority, cacheClass, eligible);
      steps := steps + more;
      AgedTrans(s, t, slots[..], shape, eligible);
      if victim == NoIndex { NothingWanted(t, slots[..], eligible, priority, cacheClass); }
    }

    lemma NothingWanted(t: seq<Slot>, u: seq<Slot>, eligible: Usable, priority: Priority, cacheClass: CacheClass)
      requires AgedOnly(t, u, shape, eligible)
      requires forall k: nat :: k in shape.active ==> RecordOf(u, k).cacheClass == RecordOf(t, k).cacheClass
      requires forall k: nat :: WantedIn(t, shape, eligible, priority, cacheClass, k) ==> !RecordOf(t, k).referenceBit
      requires forall k: nat :: WantedIn(u, shape, eligible, priority, cacheClass, k) ==>
        RecordOf(t, k).referenceBit && !RecordOf(u, k).referenceBit
      ensures forall k: nat :: !WantedIn(u, shape, eligible, priority, cacheClass, k)
    {
      forall k: nat ensures !WantedIn(u, shape, eligible, priority, cacheClass, k) {
        assert AgedAt(t, u, shape, eligible, k);
      }
    }

    /** CLOCK selection. It finds nothing exactly when nothing is eligible; otherwise the victim has
        the lowest eligible priority, and is probationary if anything there is after rebalancing.
        Ineligible records are untouched, eligible ones at most aged, and the scan is linear. */
    method SelectClockVictim(eligible: Usable, bytes: Bytes) returns (r: Option<CheckpointId>, ghost steps: nat)
      requires Valid()
      modifies this`clockHand, slots
      ensures Valid() && AgedOnly(old(slots[..]), slots[..], shape, eligible) && steps <= 18 * |shape.active|
      ensures r.None? <==> forall k: nat :: k in shape.active ==> !eligible(RecordOf(slots[..], k).checkpoint)
      ensures r.Some? ==> exists v: nat ::
        v in shape.active && RecordOf(slots[..], v).checkpoint == r.value && IsVictim(eligible, v)
    {
      ghost var s := slots[..];
      AgedSelf(s, eligible);
      steps := 0;
      if activeRecords == 0 { return None, 0; }
      var priorities := [Low, Normal, High];
      for p := 0 to 3
        invariant Valid() && AgedOnly(s, slots[..], shape, eligible) && steps <= 6 * p * |shape.active|
        invariant forall k: nat :: k in shape.active && eligible(RecordOf(slots[..], k).checkpoint) ==>
          Rank(RecordOf(slots[..], k).priority) >= p
      {
        ghost var t := slots[..];
        ghost var more;
        var victim;
        victim, more := SelectAt(priorities[p], eligible, bytes);
        AgedTrans(s, t, slots[..], shape, eligible);
        SameRanks(t, slots[..], eligible, p);
        Sixths(p, steps, more, |shape.active|);
        steps := steps + more;
        if victim != NoIndex {
          InActive(slots[..], shape, nextOrder, victim);
          assert IsVictim(eligible, victim);
          return Some(slots[victim].record.checkpoint), steps;
        }
        RankAbove(slots[..], eligible, priorities[p], p);
      }
      return None, steps;
    }

    /** Of the lowest eligible priority, and probationary if any such record is. */
    ghost predicate IsVictim(eligible: Usable, v: nat)
      reads this, slots
    {
      var s, x := slots[..], RecordOf(slots[..], v);
      && Wanted(s, shape, eligible, x.priority, v)
      && (forall k: nat :: k in shape.active && eligible(RecordOf(s, k).checkpoint) ==>
         Rank(x.priority) <= Rank(RecordOf(s, k).priority))
      && (x.cacheClass == Reused ==> forall k: nat :: !WantedIn(s, shape, eligible, x.priority, Probationary, k))
    }

    lemma SameRanks(t: seq<Slot>, u: seq<Slot>, eligible: Usable, p: nat)
      requires AgedOnly(t, u, shape, eligible)
      requires forall k: nat :: k in shape.active && eligible(RecordOf(t, k).checkpoint) ==>
        Rank(RecordOf(t, k).priority) >= p
      ensures forall k: nat :: k in shape.active && eligible(RecordOf(u, k).checkpoint) ==>
        Rank(RecordOf(u, k).priority) >= p
    {
      forall k: nat | k in shape.active && eligible(RecordOf(u, k).checkpoint)
        ensures Rank(RecordOf(u, k).priority) >= p {
        assert AgedAt(t, u, shape, eligible, k);
      }
    }

    lemma RankAbove(u: seq<Slot>, eligible: Usable, priority: Priority, p: nat)
      requires Rank(priority) == p && (forall k: nat :: !Wanted(u, shape, eligible, priority, k))
      requires forall k: nat :: k in shape.active && eligible(RecordOf(u, k).checkpoint) ==>
        Rank(RecordOf(u, k).priority) >= p
      ensures forall k: nat :: k in shape.active && eligible(RecordOf(u, k).checkpoint) ==>
        Rank(RecordOf(u, k).priority) >= p + 1
    {
      forall k: nat | k in shape.active && eligible(RecordOf(u, k).checkpoint)
        ensures Rank(RecordOf(u, k).priority) >= p + 1 {
        assert !Wanted(u, shape, eligible, priority, k);
      }
    }
  }

  /** A full path of which nothing may be thinned. */
  predicate Blocked(s: seq<Slot>, list: seq<nat>, eligible: Option<Usable>) {
    eligible.Some? && |list| >= MAX_PERIODIC && forall k :: k in list ==> !eligible.value(RecordOf(s, k).checkpoint)
  }

  function Promoted(x: Record, c: CheckpointId): Record {
    if x.checkpoint == c then x.(reuse := x.reuse + 1, cacheClass := Reused, referenceBit := true) else x
  }

  function Prioritised(x: Record, c: CheckpointId, priority: Priority): Record {
    if x.checkpoint == c then x.(priority := priority) else x
  }

  function Less(histories: map<CheckpointId, History>, gone: Option<CheckpointId>): map<CheckpointId, History> {
    if gone.Some? then histories - {gone.value} else histories
  }

  /** An eligible, unpromoted periodic checkpoint of the log at or above the end of `h`. */
  ghost predicate OnItsPath(log: seq<Mark>, retained: map<CheckpointId, History>, h: History, eligible: Option<Usable>,
      c: CheckpointId) {
    && Eligible(eligible, c) && c in retained && PathOf(retained[c]) <= PathOf(h)
    && exists i :: 0 <= i < |log| && log[i].checkpoint == c && UnpromotedMark(log[i])
  }

  /** The log after an admission: a new checkpoint comes first, one that was there gains a source. */
  function LogAfter(log: seq<Mark>, order: nat, c: CheckpointId, source: Source, present: bool,
      r: Admission): seq<Mark> {
    match r
    case Admitted(thinned) => Thinned([NewMark(c, source, order)] + log, thinned)
    case Present(thinned) => Thinned(Merged(log, c, source), thinned)
    case Overfull => if present then Merged(log, c, source) else [NewMark(c, source, order)] + log
    case _ => log
  }

  /** What removing an empty node rests on, and what it leads to. */
  lemma PruneReady(s: seq<Slot>, g: Shape, next: nat, n: nat, p: nat, j: nat)
    requires Rep(s, g, next, n) && Empty(s, g, n, p, j)
    ensures n < |s| && s[n].NodeSlot? && p < |s| && s[p].NodeSlot? && p in g.paths && p != n
    ensures j > 0 ==> var q := KidsOf(g, p)[j - 1]; q < |s| && s[q].NodeSlot? && q != n && q != p
    ensures var image := s[n].node.imageSlot; image == NoIndex || (0 <= image < |s| && s[image].ImageSlot?)
    ensures Rep(Pruned(s, g, n, p, j), PrunedShape(s, g, n, p, j), next, p)
    ensures KeptRecords(s, g, Pruned(s, g, n, p, j), PrunedShape(s, g, n, p, j))
    ensures |PrunedShape(s, g, n, p, j).free| <= |s|
  {
    PruneNode(s, g, next, n, p, j);
    FreeFewer(Pruned(s, g, n, p, j), PrunedShape(s, g, n, p, j), next, p);
    PruneSlots(s, g, next, n, p, j);
    PruneKeeps(s, g, next, n, p, j);
    if j > 0 { KidPath(s, g, next, n, p, j - 1); }
  }

  /** One or two slots more cost that much more. */
  lemma Charged(used: nat, more: nat)
    requires 1 <= more <= 2
    ensures (used + more) * SLOT_BYTES == used * SLOT_BYTES + if more == 2 then SLOT_BYTES + SLOT_BYTES else SLOT_BYTES
  {
  }

  lemma OneMore(g: Shape, parent: nat, token: Token, image: Option<Image>)
    requires |g.free| >= (if image.Some? then 2 else 1) && NewNode(g, image) !in g.paths
    ensures var g' := NodeShape(g, parent, token, image);
      |g'.paths| == |g.paths| + 1 && |g'.free| == |g.free| - (if image.Some? then 2 else 1) && g'.active == g.active
  {
    assert NodeShape(g, parent, token, image).paths.Keys == g.paths.Keys + {NewNode(g, image)};
  }

  lemma OneLess(s: seq<Slot>, g: Shape, n: nat, p: nat, j: nat)
    requires n in g.paths && j < |KidsOf(g, p)|
    ensures var g' := PrunedShape(s, g, n, p, j);
      |g'.paths| == |g.paths| - 1 && |g'.free| == |g.free| + (if NodeOf(s, n).imageSlot >= 0 then 2 else 1)
      && Head(g'.free) == (if NodeOf(s, n).imageSlot >= 0 then NodeOf(s, n).imageSlot else n) && g'.active == g.active
  {
    assert PrunedShape(s, g, n, p, j).paths.Keys == g.paths.Keys - {n};
  }

  lemma PrefixSnoc(path: seq<Label>, n: nat)
    requires n < |path|
    ensures path[..n + 1] == path[..n] + [path[n]]
  {
  }

  /** A third of the scan costs at most six looks at each record. */
  lemma Sixths(p: nat, steps: nat, more: nat, n: nat)
    requires p < 3 && steps <= 6 * p * n && more <= 6 * n
    ensures steps + more <= 6 * (p + 1) * n <= 18 * n
  {
    assert 6 * (p + 1) * n == 6 * p * n + 6 * n;
  }

  /** The list of a node is newest first. */
  lemma FirstIsNewest(s: seq<Slot>, g: Shape, node: nat, i: nat, usable: Usable)
    requires RecsOk(s, g) && i < |RecsOf(g, node)|
    requires forall k: nat :: k < i ==> !usable(RecordOf(s, RecsOf(g, node)[k]).checkpoint)
    ensures forall k: nat :: k in RecsOf(g, node) && usable(RecordOf(s, k).checkpoint) ==>
      RecordOf(s, RecsOf(g, node)[i]).order >= RecordOf(s, k).order
  {
    var recs := RecsOf(g, node);
    forall k: nat | k in recs && usable(RecordOf(s, k).checkpoint)
      ensures RecordOf(s, recs[i]).order >= RecordOf(s, k).order
    {
      var j: nat :| j < |recs| && recs[j] == k;
      assert RecOrder(s, g, node, i, j);
    }
  }

  /** One more record of a node, and what it adds to the periodic ones. */
  lemma NextUnpromoted(s: seq<Slot>, g: Shape, next: nat, node: nat, recs: seq<nat>, i: nat)
    requires ActiveOk(s, g, next) && RecsOk(s, g) && recs == RecsOf(g, node) && i < |recs|
    ensures recs[i] < |s| && s[recs[i]].RecordSlot?
    ensures s[recs[i]].record.nextAtNode == if i + 1 < |recs| then recs[i + 1] else NoIndex
    ensures Unpromoteds(s, recs[..i + 1])
      == Unpromoteds(s, recs[..i]) + if Unpromoted(s[recs[i]].record) then [recs[i]] else []
  {
    RecordHere(s, g, next, node, i);
    UnpromotedsNext(s, recs, i);
  }

  lemma RecordHere(s: seq<Slot>, g: Shape, next: nat, node: nat, i: nat)
    requires ActiveOk(s, g, next) && RecsOk(s, g) && i < |RecsOf(g, node)|
    ensures var recs := RecsOf(g, node);
      recs[i] < |s| && s[recs[i]].RecordSlot?
      && s[recs[i]].record.nextAtNode == if i + 1 < |recs| then recs[i + 1] else NoIndex
  {
    assert RecAt(s, g, node, i);
    InActive(s, g, next, RecsOf(g, node)[i]);
  }

  lemma UnpromotedsNext(s: seq<Slot>, recs: seq<nat>, i: nat)
    requires i < |recs| && recs[i] < |s| && s[recs[i]].RecordSlot?
    ensures Unpromoteds(s, recs[..i + 1])
      == Unpromoteds(s, recs[..i]) + if Unpromoted(s[recs[i]].record) then [recs[i]] else []
  {
    UnpromotedsSnoc(s, recs[..i], recs[i]);
    assert recs[..i + 1] == recs[..i] + [recs[i]];
  }

  lemma LogIs(log: seq<Mark>, order: nat, c: CheckpointId, source: Source, present: bool, r: Admission,
      after: seq<Mark>)
    requires r.Invalid? || r.NoRoom? || r.Protected? ==> after == log
    requires r.Admitted? ==> after == Thinned([NewMark(c, source, order)] + log, r.thinned)
    requires r.Present? ==> after == Thinned(Merged(log, c, source), r.thinned)
    requires r.Overfull? ==> after == if present then Merged(log, c, source) else [NewMark(c, source, order)] + log
    ensures after == LogAfter(log, order, c, source, present, r)
  {
  }

  datatype Admission =
    | Invalid | NoRoom | Protected
    | Admitted(thinned: Option<CheckpointId>) | Present(thinned: Option<CheckpointId>) | Overfull

  function nat0(k: int): nat { if k < 0 then 0 else k }
}

/** The byte pool: live allocations and the free list partition a fixed range of bytes. */
module BytePools {
  import opened FreeRanges

  datatype Tier = Gpu | Cpu
  datatype Allocation = Allocation(id: nat, tier: Tier, offset: nat, bytes: nat) {
    function End(): nat { offset + bytes }
    function Span(): Range { Range(offset, bytes) }
    predicate Holds(b: nat) { offset <= b < End() }
  }

  datatype Pool = Pool(capacity: nat, tier: Tier, used: nat, peak: nat, nextId: nat,
                       free: seq<Range>, live: seq<Allocation>)

  datatype Attempt = Granted(pool: Pool, allocation: Allocation) | PoolFull | Misused

  function Fresh(capacity: nat, tier: Tier): Pool {
    Pool(capacity, tier, 0, 0, 1, if capacity == 0 then [] else [Range(0, capacity)], [])
  }

  function Grant(pool: Pool, at: nat, rest: seq<Range>, bytes: nat): Attempt {
    var allocation := Allocation(pool.nextId, pool.tier, at, bytes);
    var used := pool.used + bytes;
    Granted(pool.(used := used, peak := if used > pool.peak then used else pool.peak,
                  nextId := pool.nextId + 1, free := rest, live := pool.live + [allocation]),
            allocation)
  }

  function Attempted(pool: Pool, bytes: nat, a: nat): Attempt {
    match Take(pool.free, bytes, a)
    case Placed(at, rest) => Grant(pool, at, rest, bytes)
    case NoRoom => PoolFull
    case Invalid => Misused
  }

  function Without(live: seq<Allocation>, allocation: Allocation): seq<Allocation> {
    if live == [] then []
    else if live[0] == allocation then live[1..]
    else [live[0]] + Without(live[1..], allocation)
  }

  /** The pool after `allocation` is released; unchanged when it is not live. */
  function Released(pool: Pool, allocation: Allocation): Pool {
    if allocation !in pool.live || pool.used < allocation.bytes then pool
    else pool.(used := pool.used - allocation.bytes, free := Give(pool.free, allocation.Span()),
               live := Without(pool.live, allocation))
  }

  // ------------------------------------------------------------- invariant

  function LiveBytes(live: seq<Allocation>): nat {
    if live == [] then 0 else live[0].bytes + LiveBytes(live[1..])
  }

  predicate Apart(x: Allocation, y: Allocation) {
    x.End() <= y.offset || y.End() <= x.offset
  }

  predicate InLive(live: seq<Allocation>, b: nat) {
    exists x :: x in live && x.Holds(b)
  }

  predicate LiveAt(pool: Pool, x: Allocation) {
    x in pool.live ==>
      0 < x.id < pool.nextId && x.bytes > 0 && x.End() <= pool.capacity && x.tier == pool.tier
  }

  predicate ApartAt(live: seq<Allocation>, i: nat, j: nat) {
    i < j < |live| ==> live[i].id != live[j].id && Apart(live[i], live[j])
  }

  ghost predicate LiveOk(pool: Pool) {
    (forall x :: LiveAt(pool, x)) && (forall i, j :: ApartAt(pool.live, i, j))
  }

  /** A byte of the pool is either free or in a live allocation, and never both. */
  ghost predicate PartitionAt(pool: Pool, b: nat) {
    b < pool.capacity ==> (Covers(pool.free, b) <==> !InLive(pool.live, b))
  }

  ghost predicate Partition(pool: Pool) {
    forall b :: PartitionAt(pool, b)
  }

  ghost predicate WellFormed(pool: Pool) {
    && pool.nextId > 0
    && Canonical(pool.free, 0, pool.capacity)
    && LiveOk(pool)
    && Partition(pool)
    && pool.used == LiveBytes(pool.live)
    && Bytes(pool.free) + pool.used == pool.capacity
  }

  lemma FreshWellFormed(capacity: nat, tier: Tier)
    ensures WellFormed(Fresh(capacity, tier))
  {
    var pool := Fresh(capacity, tier);
    if capacity > 0 {
      assert pool.free[1..] == [];
      assert Canonical(pool.free[1..], capacity + 1, capacity);
      assert Bytes(pool.free[1..]) == 0;
    }
    forall b ensures PartitionAt(pool, b) {
      assert !InLive(pool.live, b);
    }
  }

  lemma {:induction false} LiveBytesAppend(live: seq<Allocation>, x: Allocation)
    ensures LiveBytes(live + [x]) == LiveBytes(live) + x.bytes
  {
    if live != [] {
      assert (live + [x])[1..] == live[1..] + [x];
      LiveBytesAppend(live[1..], x);
    } else {
      assert (live + [x])[1..] == [];
    }
  }

  lemma LiveAppend(live: seq<Allocation>, x: Allocation)
    ensures forall b: nat :: InLive(live + [x], b) <==> InLive(live, b) || x.Holds(b)
  {
    assert x in live + [x];
    assert forall y :: y in live ==> y in live + [x];
    assert forall y :: y in live + [x] ==> y in live || y == x;
  }

  /** What is granted was free, so it shares no byte with a live allocation. */
  lemma GrantedApart(pool: Pool, bytes: nat, a: nat, y: Allocation)
    requires WellFormed(pool) && Attempted(pool, bytes, a).Granted? && y in pool.live
    ensures y.id != Attempted(pool, bytes, a).allocation.id && Apart(y, Attempted(pool, bytes, a).allocation)
  {
    var Granted(next, x) := Attempted(pool, bytes, a);
    TakeSound(pool.free, bytes, a, 0, pool.capacity);
    assert LiveAt(pool, y);
    var b := if y.offset <= x.offset then x.offset else y.offset;
    assert PartitionAt(pool, b);
    assert !(y.Holds(b) && x.Holds(b));
  }

  lemma AllocateWellFormed(pool: Pool, bytes: nat, a: nat)
    requires WellFormed(pool) && Attempted(pool, bytes, a).Granted?
    ensures var Granted(next, x) := Attempted(pool, bytes, a);
      && WellFormed(next) && x.bytes == bytes && x.offset % a == 0
      && x !in pool.live && (forall y :: y in pool.live ==> y.id != x.id && Apart(y, x))
  {
    var Granted(next, x) := Attempted(pool, bytes, a);
    TakeSound(pool.free, bytes, a, 0, pool.capacity);
    LiveBytesAppend(pool.live, x);
    LiveAppend(pool.live, x);
    forall y | y in pool.live ensures y.id != x.id && Apart(y, x) { GrantedApart(pool, bytes, a, y); }
    forall y ensures LiveAt(next, y) { assert LiveAt(pool, y); }
    forall i: nat, j: nat ensures ApartAt(next.live, i, j) { assert ApartAt(pool.live, i, j); }
    forall b: nat ensures PartitionAt(next, b) { assert PartitionAt(pool, b); }
  }

  lemma {:induction false} WithoutShape(live: seq<Allocation>, x: Allocation)
    requires x in live
    requires forall i, j :: ApartAt(live, i, j)
    ensures LiveBytes(Without(live, x)) + x.bytes == LiveBytes(live)
    ensures forall y :: y in Without(live, x) <==> y in live && y != x
    ensures forall i, j :: ApartAt(Without(live, x), i, j)
  {
    var w := Without(live, x);
    forall j: nat | 0 < j < |live| ensures live[j].id != live[0].id && Apart(live[0], live[j]) {
      assert ApartAt(live, 0, j);
    }
    forall i: nat, j: nat ensures ApartAt(live[1..], i, j) { assert ApartAt(live, i + 1, j + 1); }
    if live[0] != x {
      assert x in live[1..];
      WithoutShape(live[1..], x);
      var tail := Without(live[1..], x);
      assert w[0] == live[0] && w[1..] == tail;
      forall i: nat, j: nat ensures ApartAt(w, i, j) {
        if 0 < i < j < |w| {
          assert ApartAt(tail, i - 1, j - 1);
        } else if 0 == i < j < |w| {
          assert w[j] in tail && w[j] in live[1..];
        }
      }
    }
  }

  /** Distinct live allocations hold distinct bytes. */
  lemma LiveApart(pool: Pool, x: Allocation, y: Allocation)
    requires LiveOk(pool) && x in pool.live && y in pool.live && x != y
    ensures x.id != y.id && Apart(x, y)
  {
    var i :| 0 <= i < |pool.live| && pool.live[i] == x;
    var j :| 0 <= j < |pool.live| && pool.live[j] == y;
    assert if i < j then ApartAt(pool.live, i, j) else ApartAt(pool.live, j, i);
  }

  lemma ReleaseWellFormed(pool: Pool, x: Allocation)
    requires WellFormed(pool) && x in pool.live
    ensures WellFormed(Released(pool, x))
    ensures x.bytes <= pool.used
    ensures forall b: nat :: x.Holds(b) ==> !Covers(pool.free, b)
    ensures forall y :: y in Released(pool, x).live <==> y in pool.live && y != x
  {
    WithoutShape(pool.live, x);
    var next := Released(pool, x);
    assert LiveAt(pool, x);
    forall b: nat | x.Holds(b) ensures !Covers(pool.free, b) {
      assert InLive(pool.live, b) && PartitionAt(pool, b);
    }
    GiveSound(pool.free, x.Span(), pool.capacity);
    forall y ensures LiveAt(next, y) { assert LiveAt(pool, y); }
    forall b: nat ensures PartitionAt(next, b) {
      assert PartitionAt(pool, b);
      if x.Holds(b) {
        if InLive(next.live, b) {
          var y :| y in next.live && y.Holds(b);
          LiveApart(pool, x, y);
        }
      } else {
        assert InLive(next.live, b) <==> InLive(pool.live, b);
      }
    }
  }

  // ----------------------------------------------------------- consequences

  /** The free list is a function of the live allocations alone: however two pools came
      about, equal live bytes mean equal free lists. */
  lemma FreeListDetermined(p: Pool, q: Pool)
    requires WellFormed(p) && WellFormed(q) && p.capacity == q.capacity
    requires forall b: nat :: b < p.capacity ==> (InLive(p.live, b) <==> InLive(q.live, b))
    ensures p.free == q.free
  {
    forall b: nat ensures Covers(p.free, b) <==> Covers(q.free, b) {
      assert PartitionAt(p, b) && PartitionAt(q, b);
      if Covers(p.free, b) { CoverBounds(p.free, 0, p.capacity, b); }
      if Covers(q.free, b) { CoverBounds(q.free, 0, q.capacity, b); }
    }
    CanonicalUnique(p.free, q.free, 0, p.capacity);
  }

  /** A pool without live allocations is one free range again. */
  lemma EmptyPoolWhole(pool: Pool)
    requires WellFormed(pool) && pool.live == []
    ensures pool.used == 0 && pool.free == Fresh(pool.capacity, pool.tier).free
  {
    FreshWellFormed(pool.capacity, pool.tier);
    FreeListDetermined(pool, Fresh(pool.capacity, pool.tier));
  }

  /** Releases commute: neither the free list nor the accounting depends on their order. */
  lemma ReleasesCommute(pool: Pool, x: Allocation, y: Allocation)
    requires WellFormed(pool) && x in pool.live && y in pool.live && x != y
    ensures var xy, yx := Released(Released(pool, x), y), Released(Released(pool, y), x);
      xy.free == yx.free && xy.used == yx.used
  {
    ReleaseWellFormed(pool, x);
    ReleaseWellFormed(pool, y);
    ReleaseWellFormed(Released(pool, x), y);
    ReleaseWellFormed(Released(pool, y), x);
    FreeListDetermined(Released(Released(pool, x), y), Released(Released(pool, y), x));
  }

  /** Allocating and releasing at once restores the free list and the usage exactly. */
  lemma AllocateThenRelease(pool: Pool, bytes: nat, a: nat)
    requires WellFormed(pool) && Attempted(pool, bytes, a).Granted?
    ensures var Granted(next, x) := Attempted(pool, bytes, a);
      Released(next, x).free == pool.free && Released(next, x).used == pool.used
  {
    AllocateWellFormed(pool, bytes, a);
    var Granted(next, x) := Attempted(pool, bytes, a);
    TakeThenGive(pool.free, bytes, a, pool.capacity);
    ReleaseWellFormed(next, x);
  }

  // ------------------------------------------------------------- the class

  /** The scan both allocation paths make: the first range that fits is erased and what is
      left of it, suffix before prefix, is inserted in its place. */
  method FirstFit(free: seq<Range>, bytes: nat, alignment: nat)
    returns (ok: bool, placed: bool, aligned: nat, rest: seq<Range>)
    ensures match Take(free, bytes, alignment)
      case Placed(at, left) => ok && placed && aligned == at && rest == left
      case NoRoom => ok && !placed
      case Invalid => !ok && !placed
  {
    aligned, rest := 0, free;
    if bytes == 0 { return false, false, aligned, rest; }
    var index := 0;
    while index < |free|
      invariant 0 <= index <= |free|
      invariant Take(free, bytes, alignment) == Prefixed(free[..index], Take(free[index..], bytes, alignment))
    {
      var range := free[index];
      assert free[index..][0] == range && free[index..][1..] == free[index + 1..];
      if !Alignable(range.offset, alignment) { return false, false, aligned, rest; }
      aligned := AlignUp(range.offset, alignment);
      if !(aligned - range.offset > range.bytes || bytes > range.bytes - (aligned - range.offset)) {
        rest := SplitRange(free, index, aligned, bytes);
        return true, true, aligned, rest;
      }
      PrefixedShift(free, index, Take(free[index + 1..], bytes, alignment));
      index := index + 1;
    }
    assert free[index..] == [];
    return true, false, aligned, rest;
  }

  method SplitRange(free: seq<Range>, index: nat, aligned: nat, bytes: nat) returns (ranges: seq<Range>)
    requires index < |free| && bytes > 0
    requires free[index].offset <= aligned && aligned + bytes <= free[index].End()
    ensures ranges == free[..index] + (Carve(free[index], aligned, bytes) + free[index + 1..])
  {
    var range := free[index];
    var prefix := aligned - range.offset;
    var suffix := range.bytes - prefix - bytes;
    ghost var front, back := free[..index], free[index + 1..];
    ranges := free[..index] + free[index + 1..];
    SplitParts(front, back);
    if suffix != 0 {
      ranges := ranges[..index] + [Range(aligned + bytes, suffix)] + ranges[index..];
      back := [Range(aligned + bytes, suffix)] + back;
      assert ranges == front + back;
      SplitParts(front, back);
    }
    if prefix != 0 {
      ranges := ranges[..index] + [Range(range.offset, prefix)] + ranges[index..];
      back := [Range(range.offset, prefix)] + back;
      assert ranges == front + back;
    }
    assert back == Carve(range, aligned, bytes) + free[index + 1..];
  }

  /** The merge pass of a release. */
  method MergeAdjacent(sorted: seq<Range>) returns (merged: seq<Range>)
    ensures merged == Coalesce(sorted)
  {
    merged := [];
    var i := 0;
    while i < |sorted|
      invariant 0 <= i <= |sorted|
      invariant i == 0 ==> merged == []
      invariant i > 0 ==> merged != []
      invariant i > 0 ==> Coalesce(sorted) == Joined(merged, sorted[i..])
    {
      var range := sorted[i];
      ghost var before := merged;
      assert sorted[i..] == [range] + sorted[i + 1..];
      if merged != [] && merged[|merged| - 1].End() == range.offset {
        var last := merged[|merged| - 1];
        merged := merged[..|merged| - 1] + [Range(last.offset, last.bytes + range.bytes)];
      } else {
        merged := merged + [range];
      }
      if i > 0 {
        JoinedStep(before, range, sorted[i + 1..]);
      } else {
        assert sorted[0..] == sorted;
      }
      i := i + 1;
    }
    assert sorted[i..] == [];
  }

  class BytePool {
    var capacity: nat
    var tier: Tier
    var used: nat
    var peakUsed: nat
    var nextId: nat
    var freeRanges: seq<Range>
    var live: seq<Allocation>

    ghost function View(): Pool
      reads this
    {
      Pool(capacity, tier, used, peakUsed, nextId, freeRanges, live)
    }

    ghost predicate Valid()
      reads this
    {
      WellFormed(View())
    }

    constructor (capacity: nat, tier: Tier)
      ensures Valid() && View() == Fresh(capacity, tier)
    {
      this.capacity, this.tier := capacity, tier;
      used, peakUsed, nextId, live := 0, 0, 1, [];
      freeRanges := if capacity == 0 then [] else [Range(0, capacity)];
      new;
      assert View() == Fresh(capacity, tier);
      FreshWellFormed(capacity, tier);
    }

    /** `ok` is false for a misuse: a zero-sized request, or an alignment that is not a power
        of two or overflows. Otherwise `granted` says whether some free range fits. */
    method TryAllocate(bytes: nat, alignment: nat) returns (ok: bool, granted: bool, out: Allocation)
      requires Valid()
      modifies this
      ensures Valid()
      ensures match Attempted(old(View()), bytes, alignment)
        case Granted(pool, x) => ok && granted && View() == pool && out == x
        case PoolFull => ok && !granted && View() == old(View())
        case Misused => !ok && View() == old(View())
    {
      out := Allocation(0, tier, 0, 0);
      var aligned, rest;
      ok, granted, aligned, rest := FirstFit(freeRanges, bytes, alignment);
      if granted {
        AllocateWellFormed(View(), bytes, alignment);
        freeRanges := rest;
        out := Allocation(nextId, tier, aligned, bytes);
        nextId := nextId + 1;
        live := live + [out];
        used := used + bytes;
        peakUsed := if used > peakUsed then used else peakUsed;
        assert Attempted(old(View()), bytes, alignment) == Granted(View(), out);
      }
    }

    /** Whether this exact sequence of requests would be granted, without changing the pool. */
    method CanAllocateSequence(sizes: seq<nat>, alignment: nat) returns (ok: bool, fits: bool)
      ensures match TakeAll(freeRanges, sizes, alignment)
        case AllFit(_) => ok && fits
        case SomeMissing => ok && !fits
        case Unplaceable => !ok
    {
      var ranges := freeRanges;
      var i := 0;
      while i < |sizes|
        invariant 0 <= i <= |sizes|
        invariant TakeAll(freeRanges, sizes, alignment) == TakeAll(ranges, sizes[i..], alignment)
      {
        assert sizes[i..][0] == sizes[i] && sizes[i..][1..] == sizes[i + 1..];
        var valid, placed, _, rest := FirstFit(ranges, sizes[i], alignment);
        if !valid { return false, false; }
        if !placed { return true, false; }
        ranges := rest;
        i := i + 1;
      }
      return true, true;
    }

    /** `ok` is false when `allocation` does not match a live allocation. */
    method Release(allocation: Allocation) returns (ok: bool)
      requires Valid()
      modifies this
      ensures Valid()
      ensures ok <==> allocation in old(live)
      ensures View() == Released(old(View()), allocation)
    {
      var found := 0;
      while found < |live| && live[found].id != allocation.id
        invariant 0 <= found <= |live|
        invariant forall i :: 0 <= i < found ==> live[i].id != allocation.id
      {
        found := found + 1;
      }
      if found == |live| || live[found] != allocation {
        forall k: nat | k < |live| ensures live[k] != allocation {
          assert ApartAt(live, k, found) && ApartAt(live, found, k);
        }
        return false;
      }
      WithoutAt(live, found);
      ReleaseWellFormed(View(), allocation);
      live := live[..found] + live[found + 1..];
      used := used - allocation.bytes;
      // The library sort of a sorted list with one appended element.
      freeRanges := MergeAdjacent(Insert(freeRanges, allocation.Span()));
      assert View() == Released(old(View()), allocation);
      return true;
    }

    method Owns(allocation: Allocation) returns (owned: bool)
      ensures owned <==> allocation in live
    {
      for i := 0 to |live|
        invariant allocation !in live[..i]
      {
        if live[i] == allocation { return true; }
      }
      return false;
    }
  }

  // ------------------------------------------------------------ sequences of requests

  datatype Series = AllGranted(pool: Pool) | OneFull | OneMisused

  /** The same requests made one after the other. */
  function AttemptedAll(pool: Pool, sizes: seq<nat>, a: nat): Series
    decreases |sizes|
  {
    if sizes == [] then AllGranted(pool)
    else match Attempted(pool, sizes[0], a)
      case Granted(next, _) => AttemptedAll(next, sizes[1..], a)
      case PoolFull => OneFull
      case Misused => OneMisused
  }

  /** The dry run predicts the real sequence exactly. */
  lemma {:induction false} SequenceExact(pool: Pool, sizes: seq<nat>, a: nat)
    ensures match TakeAll(pool.free, sizes, a)
      case AllFit(rest) => AttemptedAll(pool, sizes, a).AllGranted? && AttemptedAll(pool, sizes, a).pool.free == rest
      case SomeMissing => AttemptedAll(pool, sizes, a).OneFull?
      case Unplaceable => AttemptedAll(pool, sizes, a).OneMisused?
    decreases |sizes|
  {
    if sizes != [] && Attempted(pool, sizes[0], a).Granted? {
      SequenceExact(Attempted(pool, sizes[0], a).pool, sizes[1..], a);
    }
  }

  lemma SplitParts<T>(front: seq<T>, back: seq<T>)
    ensures (front + back)[..|front|] == front && (front + back)[|front|..] == back
  {
  }

  /** The merge pass in progress: `merged` is done except for its last range. */
  function Joined(merged: seq<Range>, rest: seq<Range>): seq<Range>
    requires merged != []
  {
    merged[..|merged| - 1] + Join(merged[|merged| - 1], rest)
  }

  lemma JoinedStep(merged: seq<Range>, range: Range, rest: seq<Range>)
    requires merged != []
    ensures var last := merged[|merged| - 1];
      Joined(merged, [range] + rest) ==
      if last.End() == range.offset
      then Joined(merged[..|merged| - 1] + [Range(last.offset, last.bytes + range.bytes)], rest)
      else Joined(merged + [range], rest)
  {
    var last, front := merged[|merged| - 1], merged[..|merged| - 1];
    assert ([range] + rest)[0] == range && ([range] + rest)[1..] == rest;
    if last.End() == range.offset {
      var joined := Range(last.offset, last.bytes + range.bytes);
      SplitParts(front, [joined]);
      assert (front + [joined])[|front|] == joined;
    } else {
      SplitParts(merged, [range]);
      assert merged == front + [last];
      assert front + ([last] + Join(range, rest)) == merged + Join(range, rest);
    }
  }

  /** A placement in the tail of a free list, seen from the whole list. */
  function Prefixed(front: seq<Range>, p: Placement): Placement {
    match p
    case Placed(at, rest) => Placed(at, front + rest)
    case other => other
  }

  lemma PrefixedShift(free: seq<Range>, index: nat, p: Placement)
    requires index < |free|
    ensures Prefixed(free[..index], Prefixed([free[index]], p)) == Prefixed(free[..index + 1], p)
  {
    if p.Placed? {
      assert free[..index] + ([free[index]] + p.rest) == free[..index + 1] + p.rest;
    }
  }

  lemma {:induction false} WithoutAt(live: seq<Allocation>, k: nat)
    requires k < |live| && (forall i :: 0 <= i < k ==> live[i].id != live[k].id)
    ensures Without(live, live[k]) == live[..k] + live[k + 1..]
  {
    if k > 0 {
      WithoutAt(live[1..], k - 1);
      assert live[1..][..k - 1] == live[1..k] && live[1..][k..] == live[k + 1..];
      assert live[..k] == [live[0]] + live[1..k];
    }
  }
}

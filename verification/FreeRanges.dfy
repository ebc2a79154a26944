/** The free list of the byte pool: first-fit placement, release with coalescing, and the
    counting of equal-sized placements that batch admission relies on. */
module FreeRanges {

  datatype Range = Range(offset: nat, bytes: nat) {
    function End(): nat { offset + bytes }
  }

  const SIZE_MAX: nat := 0xFFFF_FFFF_FFFF_FFFF

  predicate PowerOfTwo(a: nat) {
    a == 1 || (a > 0 && a % 2 == 0 && PowerOfTwo(a / 2))
  }

  /** Whether rounding `value` up to a multiple of `a` is accepted and stays in 64 bits. */
  predicate Alignable(value: nat, a: nat) {
    PowerOfTwo(a) && value + a - 1 <= SIZE_MAX
  }

  function AlignUp(value: nat, a: nat): (r: nat)
    requires a > 0
    ensures value <= r < value + a && r % a == 0
  {
    RoundUp(value, a);
    (value + a - 1) / a * a
  }

  lemma RoundUp(value: nat, a: nat)
    requires a > 0
    ensures value <= (value + a - 1) / a * a < value + a
    ensures ((value + a - 1) / a * a) % a == 0
  {
    var q := (value + a - 1) / a;
    assert value + a - 1 == q * a + (value + a - 1) % a;
    MultipleMod(q, a);
  }

  lemma MultipleMod(q: nat, a: nat)
    requires a > 0
    ensures (q * a) % a == 0
  {
    var d, m := (q * a) / a, (q * a) % a;
    assert q * a == d * a + m;
    assert (q - d) * a == m;
    if q > d {
      MulMonotone(1, q - d, a);
    } else if q < d {
      MulMonotone(1, d - q, a);
    }
  }

  lemma AlignUpMonotone(v: nat, w: nat, a: nat)
    requires a > 0 && v <= w
    ensures AlignUp(v, a) <= AlignUp(w, a)
  {
    assert (v + a - 1) / a <= (w + a - 1) / a by { DivMonotone(v + a - 1, w + a - 1, a); }
    MulMonotone((v + a - 1) / a, (w + a - 1) / a, a);
  }

  lemma DivMonotone(x: nat, y: nat, a: nat)
    requires a > 0 && x <= y
    ensures x / a <= y / a
  {
    assert x == x / a * a + x % a;
    assert y == y / a * a + y % a;
    if x / a > y / a {
      MulMonotone(y / a + 1, x / a, a);
    }
  }

  lemma MulMonotone(x: nat, y: nat, a: nat)
    requires x <= y
    ensures x * a <= y * a
  {
    assert y * a == x * a + (y - x) * a;
  }

  // ---------------------------------------------------------------- first fit

  datatype Placement = Placed(at: nat, rest: seq<Range>) | NoRoom | Invalid

  predicate FitsIn(r: Range, bytes: nat, a: nat)
    requires a > 0
  {
    AlignUp(r.offset, a) + bytes <= r.End()
  }

  /** What is left of `r` once `bytes` are taken at `at`: a prefix and a suffix, if nonempty. */
  function Carve(r: Range, at: nat, bytes: nat): seq<Range>
    requires r.offset <= at && at + bytes <= r.End()
  {
    (if at == r.offset then [] else [Range(r.offset, at - r.offset)]) +
    (if at + bytes == r.End() then [] else [Range(at + bytes, r.End() - at - bytes)])
  }

  /** First-fit placement of one request. */
  function Take(free: seq<Range>, bytes: nat, a: nat): Placement {
    if bytes == 0 then Invalid
    else if free == [] then NoRoom
    else if !Alignable(free[0].offset, a) then Invalid
    else if FitsIn(free[0], bytes, a) then
      var at := AlignUp(free[0].offset, a);
      Placed(at, Carve(free[0], at, bytes) + free[1..])
    else
      match Take(free[1..], bytes, a)
      case Placed(at, rest) => Placed(at, [free[0]] + rest)
      case other => other
  }

  datatype Sequence = AllFit(rest: seq<Range>) | SomeMissing | Unplaceable

  /** First-fit placement of a whole sequence of requests, in order. */
  function TakeAll(free: seq<Range>, sizes: seq<nat>, a: nat): Sequence
    decreases |sizes|
  {
    if sizes == [] then AllFit(free)
    else match Take(free, sizes[0], a)
      case Placed(_, rest) => TakeAll(rest, sizes[1..], a)
      case NoRoom => SomeMissing
      case Invalid => Unplaceable
  }

  // ------------------------------------------------------------ canonical form

  /** Nonempty ranges between `lo` and `hi` in increasing order, no two of them adjacent. */
  predicate Canonical(free: seq<Range>, lo: nat, hi: nat) {
    free == [] ||
    (lo <= free[0].offset && free[0].bytes > 0 && free[0].End() <= hi &&
     Canonical(free[1..], free[0].End() + 1, hi))
  }

  predicate Covers(free: seq<Range>, b: nat) {
    free != [] && (free[0].offset <= b < free[0].End() || Covers(free[1..], b))
  }

  function Bytes(free: seq<Range>): nat {
    if free == [] then 0 else free[0].bytes + Bytes(free[1..])
  }

  lemma CoverBounds(free: seq<Range>, lo: nat, hi: nat, b: nat)
    requires Canonical(free, lo, hi) && Covers(free, b)
    ensures lo <= free[0].offset <= b < hi
  {
  }

  lemma {:induction false} CanonicalWeaken(free: seq<Range>, lo: nat, lo': nat, hi: nat)
    requires Canonical(free, lo, hi) && lo' <= lo
    ensures Canonical(free, lo', hi)
  {
  }

  /** There is only one canonical list for a given set of free bytes. */
  lemma {:induction false} CanonicalUnique(f: seq<Range>, g: seq<Range>, lo: nat, hi: nat)
    requires Canonical(f, lo, hi) && Canonical(g, lo, hi)
    requires forall b: nat :: Covers(f, b) <==> Covers(g, b)
    ensures f == g
  {
    if f == [] {
      if g != [] { assert Covers(g, g[0].offset); }
    } else if g == [] {
      assert Covers(f, f[0].offset);
    } else {
      HeadsAgree(f, g, lo, hi);
      HeadsAgree(g, f, lo, hi);
      var next := f[0].End() + 1;
      assert f[0] == g[0];
      forall b: nat ensures Covers(f[1..], b) <==> Covers(g[1..], b) {
        assert Covers(f, b) <==> Covers(g, b);
        if Covers(f[1..], b) { CoverBounds(f[1..], next, hi, b); }
        if Covers(g[1..], b) { CoverBounds(g[1..], next, hi, b); }
      }
      CanonicalUnique(f[1..], g[1..], next, hi);
      assert f == [f[0]] + f[1..] && g == [g[0]] + g[1..];
    }
  }

  lemma HeadsAgree(f: seq<Range>, g: seq<Range>, lo: nat, hi: nat)
    requires Canonical(f, lo, hi) && Canonical(g, lo, hi) && f != [] && g != []
    requires forall b: nat :: Covers(f, b) <==> Covers(g, b)
    ensures f[0].offset >= g[0].offset
    ensures f[0].offset == g[0].offset ==> f[0].End() >= g[0].End()
  {
    assert Covers(f, f[0].offset);
    CoverBounds(g, lo, hi, f[0].offset);
    if f[0].offset == g[0].offset && f[0].End() < g[0].End() {
      assert Covers(g, f[0].End());
      assert Covers(f[1..], f[0].End());
      CoverBounds(f[1..], f[0].End() + 1, hi, f[0].End());
    }
  }

  /** A placement keeps the list canonical and removes exactly the placed bytes from it. */
  lemma {:induction false} TakeSound(free: seq<Range>, bytes: nat, a: nat, lo: nat, hi: nat)
    requires Canonical(free, lo, hi) && Take(free, bytes, a).Placed?
    ensures var Placed(at, rest) := Take(free, bytes, a);
      && Canonical(rest, lo, hi)
      && at % a == 0 && lo <= at && at + bytes <= hi
      && Bytes(rest) + bytes == Bytes(free)
      && (forall b: nat :: at <= b < at + bytes ==> Covers(free, b))
      && (forall b: nat :: Covers(rest, b) <==> Covers(free, b) && !(at <= b < at + bytes))
  {
    var Placed(at, rest) := Take(free, bytes, a);
    var next := free[0].End() + 1;
    if FitsIn(free[0], bytes, a) {
      CarveSound(free[0], at, bytes, free[1..], lo, hi);
      forall b: nat | Covers(free[1..], b) ensures b >= next {
        CoverBounds(free[1..], next, hi, b);
      }
    } else {
      TakeSound(free[1..], bytes, a, next, hi);
      var tail := Take(free[1..], bytes, a).rest;
      assert rest[1..] == tail && rest[0] == free[0];
    }
  }

  lemma CarveSound(r: Range, at: nat, bytes: nat, tail: seq<Range>, lo: nat, hi: nat)
    requires r.offset <= at && at + bytes <= r.End() <= hi && bytes > 0 && lo <= r.offset
    requires Canonical(tail, r.End() + 1, hi)
    ensures Canonical(Carve(r, at, bytes) + tail, lo, hi)
    ensures Bytes(Carve(r, at, bytes) + tail) + bytes == r.bytes + Bytes(tail)
    ensures forall b: nat :: Covers(Carve(r, at, bytes) + tail, b) <==>
              (r.offset <= b < r.End() && !(at <= b < at + bytes)) || Covers(tail, b)
  {
    CarveCanonical(r, at, bytes, tail, lo, hi);
    forall b: nat ensures Covers(Carve(r, at, bytes) + tail, b) <==>
              (r.offset <= b < r.End() && !(at <= b < at + bytes)) || Covers(tail, b)
    {
      CarveCovers(r, at, bytes, tail, b);
    }
  }

  lemma CarveCovers(r: Range, at: nat, bytes: nat, tail: seq<Range>, b: nat)
    requires r.offset <= at && at + bytes <= r.End() && bytes > 0
    ensures Covers(Carve(r, at, bytes) + tail, b) <==>
              (r.offset <= b < r.End() && !(at <= b < at + bytes)) || Covers(tail, b)
  {
    var suffix := Range(at + bytes, r.End() - at - bytes);
    var back := if at + bytes == r.End() then tail else [suffix] + tail;
    assert at + bytes != r.End() ==> back[0] == suffix && back[1..] == tail;
    if at == r.offset {
      assert Carve(r, at, bytes) + tail == back;
    } else {
      var prefix := Range(r.offset, at - r.offset);
      assert Carve(r, at, bytes) + tail == [prefix] + back;
      assert ([prefix] + back)[1..] == back;
    }
  }

  lemma CarveCanonical(r: Range, at: nat, bytes: nat, tail: seq<Range>, lo: nat, hi: nat)
    requires r.offset <= at && at + bytes <= r.End() <= hi && bytes > 0 && lo <= r.offset
    requires Canonical(tail, r.End() + 1, hi)
    ensures Canonical(Carve(r, at, bytes) + tail, lo, hi)
    ensures Bytes(Carve(r, at, bytes) + tail) + bytes == r.bytes + Bytes(tail)
  {
    var suffix := Range(at + bytes, r.End() - at - bytes);
    var back := if at + bytes == r.End() then tail else [suffix] + tail;
    CanonicalWeaken(tail, r.End() + 1, at + 1, hi);
    CanonicalWeaken(tail, r.End() + 1, lo, hi);
    assert at + bytes != r.End() ==> back[0] == suffix && back[1..] == tail;
    assert Canonical(back, at + 1, hi);
    CanonicalWeaken(back, at + 1, lo, hi);
    if at == r.offset {
      assert Carve(r, at, bytes) + tail == back;
    } else {
      var prefix := Range(r.offset, at - r.offset);
      assert Carve(r, at, bytes) + tail == [prefix] + back;
      assert ([prefix] + back)[1..] == back;
    }
  }

  // ----------------------------------------------------------------- release

  /** Insertion at the sorted position, the effect of sorting after appending one range. */
  function Insert(free: seq<Range>, r: Range): seq<Range> {
    if free == [] || r.offset < free[0].offset then [r] + free
    else [free[0]] + Insert(free[1..], r)
  }

  function Join(current: Range, rest: seq<Range>): seq<Range>
    decreases |rest|
  {
    if rest == [] then [current]
    else if current.End() == rest[0].offset then
      Join(Range(current.offset, current.bytes + rest[0].bytes), rest[1..])
    else [current] + Join(rest[0], rest[1..])
  }

  /** Merges adjacent neighbours of a sorted list. */
  function Coalesce(free: seq<Range>): seq<Range> {
    if free == [] then [] else Join(free[0], free[1..])
  }

  function Give(free: seq<Range>, r: Range): seq<Range> {
    Coalesce(Insert(free, r))
  }

  /** Like `Canonical`, but neighbours may touch. */
  predicate Ordered(free: seq<Range>, lo: nat, hi: nat) {
    free == [] ||
    (lo <= free[0].offset && free[0].bytes > 0 && free[0].End() <= hi &&
     Ordered(free[1..], free[0].End(), hi))
  }

  lemma {:induction false} CanonicalOrdered(free: seq<Range>, lo: nat, hi: nat)
    requires Canonical(free, lo, hi)
    ensures Ordered(free, lo, hi)
  {
    if free != [] {
      CanonicalWeaken(free[1..], free[0].End() + 1, free[0].End(), hi);
      CanonicalOrdered(free[1..], free[0].End(), hi);
    }
  }

  lemma {:induction false} InsertSound(free: seq<Range>, r: Range, lo: nat, hi: nat)
    requires Canonical(free, lo, hi) && r.bytes > 0 && lo <= r.offset && r.End() <= hi
    requires forall b: nat :: r.offset <= b < r.End() ==> !Covers(free, b)
    ensures Ordered(Insert(free, r), lo, hi)
    ensures Bytes(Insert(free, r)) == Bytes(free) + r.bytes
    ensures forall b: nat :: Covers(Insert(free, r), b) <==> Covers(free, b) || r.offset <= b < r.End()
  {
    var s := Insert(free, r);
    if free == [] || r.offset < free[0].offset {
      assert s[0] == r && s[1..] == free;
      if free != [] {
        assert Covers(free, free[0].offset);
        CanonicalWeaken(free, free[0].offset, r.End(), hi);
      }
      CanonicalOrdered(free, r.End(), hi);
    } else {
      assert s[0] == free[0] && s[1..] == Insert(free[1..], r);
      assert r.offset >= free[0].End() by { assert !Covers(free, r.offset); }
      assert forall b: nat :: Covers(free[1..], b) ==> Covers(free, b);
      CanonicalWeaken(free[1..], free[0].End() + 1, free[0].End(), hi);
      InsertSound(free[1..], r, free[0].End(), hi);
    }
  }

  lemma {:induction false} JoinSound(current: Range, rest: seq<Range>, lo: nat, hi: nat)
    requires lo <= current.offset && current.bytes > 0 && current.End() <= hi
    requires Ordered(rest, current.End(), hi)
    ensures Canonical(Join(current, rest), lo, hi)
    ensures Bytes(Join(current, rest)) == current.bytes + Bytes(rest)
    ensures forall b: nat :: Covers(Join(current, rest), b) <==>
              current.offset <= b < current.End() || Covers(rest, b)
    decreases |rest|
  {
    if rest == [] {
    } else if current.End() == rest[0].offset {
      JoinSound(Range(current.offset, current.bytes + rest[0].bytes), rest[1..], lo, hi);
    } else {
      JoinSound(rest[0], rest[1..], current.End() + 1, hi);
      assert Join(current, rest)[1..] == Join(rest[0], rest[1..]);
    }
  }

  /** Releasing bytes that are not free keeps the list canonical and adds exactly those bytes. */
  lemma GiveSound(free: seq<Range>, r: Range, hi: nat)
    requires Canonical(free, 0, hi) && r.bytes > 0 && r.End() <= hi
    requires forall b: nat :: r.offset <= b < r.End() ==> !Covers(free, b)
    ensures Canonical(Give(free, r), 0, hi)
    ensures Bytes(Give(free, r)) == Bytes(free) + r.bytes
    ensures forall b: nat :: Covers(Give(free, r), b) <==> Covers(free, b) || r.offset <= b < r.End()
  {
    InsertSound(free, r, 0, hi);
    var s := Insert(free, r);
    JoinSound(s[0], s[1..], 0, hi);
    assert Give(free, r) == Join(s[0], s[1..]);
    forall b: nat ensures Covers(Give(free, r), b) <==> Covers(free, b) || r.offset <= b < r.End() {
      assert Covers(s, b) <==> s[0].offset <= b < s[0].End() || Covers(s[1..], b);
    }
  }

  /** Allocating and releasing the same bytes restores the free list exactly. */
  lemma TakeThenGive(free: seq<Range>, bytes: nat, a: nat, hi: nat)
    requires Canonical(free, 0, hi) && Take(free, bytes, a).Placed?
    ensures var Placed(at, rest) := Take(free, bytes, a);
      Give(rest, Range(at, bytes)) == free
  {
    var Placed(at, rest) := Take(free, bytes, a);
    TakeSound(free, bytes, a, 0, hi);
    GiveSound(rest, Range(at, bytes), hi);
    CanonicalUnique(Give(rest, Range(at, bytes)), free, 0, hi);
  }

  /** Releases commute: the free list does not depend on the order of two releases. */
  lemma GivesCommute(free: seq<Range>, r: Range, s: Range, hi: nat)
    requires Canonical(free, 0, hi)
    requires r.bytes > 0 && r.End() <= hi && s.bytes > 0 && s.End() <= hi
    requires r.End() <= s.offset || s.End() <= r.offset
    requires forall b: nat :: r.offset <= b < r.End() || s.offset <= b < s.End() ==> !Covers(free, b)
    ensures Give(Give(free, r), s) == Give(Give(free, s), r)
  {
    GiveSound(free, r, hi);
    GiveSound(free, s, hi);
    GiveSound(Give(free, r), s, hi);
    GiveSound(Give(free, s), r, hi);
    CanonicalUnique(Give(Give(free, r), s), Give(Give(free, s), r), 0, hi);
  }

  // ------------------------------------------------- equal-sized placements

  /** How many aligned blocks of `p` bytes first fit places in `[pos, end)`. */
  function RangeFits(pos: nat, end: nat, p: nat, a: nat): nat
    requires p > 0 && a > 0
    decreases if end >= pos then end - pos else 0
  {
    if AlignUp(pos, a) + p > end then 0 else 1 + RangeFits(AlignUp(pos, a) + p, end, p, a)
  }

  function FitCount(free: seq<Range>, p: nat, a: nat): nat
    requires p > 0 && a > 0
  {
    if free == [] then 0 else RangeFits(free[0].offset, free[0].End(), p, a) + FitCount(free[1..], p, a)
  }

  lemma {:induction false} RangeFitsMonotone(pos: nat, pos': nat, end: nat, p: nat, a: nat)
    requires p > 0 && a > 0 && pos <= pos'
    ensures RangeFits(pos, end, p, a) >= RangeFits(pos', end, p, a)
    decreases if end >= pos' then end - pos' else 0
  {
    AlignUpMonotone(pos, pos', a);
    if AlignUp(pos', a) + p <= end {
      RangeFitsMonotone(AlignUp(pos, a) + p, AlignUp(pos', a) + p, end, p, a);
    }
  }

  /** Merging two adjacent ranges never loses a placement. */
  lemma {:induction false} RangeFitsMerge(pos: nat, mid: nat, end: nat, p: nat, a: nat)
    requires p > 0 && a > 0 && pos <= mid <= end
    ensures RangeFits(pos, end, p, a) >= RangeFits(pos, mid, p, a) + RangeFits(mid, end, p, a)
    decreases mid - pos
  {
    if AlignUp(pos, a) + p <= mid {
      RangeFitsMerge(AlignUp(pos, a) + p, mid, end, p, a);
    } else {
      RangeFitsMonotone(pos, mid, end, p, a);
    }
  }

  lemma {:induction false} FitCountConcat(f: seq<Range>, g: seq<Range>, p: nat, a: nat)
    requires p > 0 && a > 0
    ensures FitCount(f + g, p, a) == FitCount(f, p, a) + FitCount(g, p, a)
  {
    if f == [] {
      assert f + g == g;
    } else {
      assert (f + g)[1..] == f[1..] + g;
      FitCountConcat(f[1..], g, p, a);
    }
  }

  /** A uniform request succeeds exactly when the count is positive, and uses up one placement. */
  lemma {:induction false} TakeUniform(free: seq<Range>, p: nat, a: nat, lo: nat, hi: nat)
    requires p > 0 && PowerOfTwo(a) && Canonical(free, lo, hi) && hi + a - 1 <= SIZE_MAX
    ensures !Take(free, p, a).Invalid?
    ensures Take(free, p, a).Placed? <==> FitCount(free, p, a) > 0
    ensures Take(free, p, a).Placed? ==> FitCount(Take(free, p, a).rest, p, a) == FitCount(free, p, a) - 1
  {
    if free == [] {
    } else if FitsIn(free[0], p, a) {
      var r := free[0];
      var at := AlignUp(r.offset, a);
      assert Alignable(r.offset, a);
      CarveFits(r, at, p, a);
      FitCountConcat(Carve(r, at, p), free[1..], p, a);
    } else {
      TakeUniform(free[1..], p, a, free[0].End() + 1, hi);
      match Take(free[1..], p, a) {
        case Placed(_, rest) => FitCountConcat([free[0]], rest, p, a);
        case _ =>
      }
    }
  }

  lemma CarveFits(r: Range, at: nat, p: nat, a: nat)
    requires p > 0 && a > 0 && at == AlignUp(r.offset, a) && at + p <= r.End()
    ensures FitCount(Carve(r, at, p), p, a) == RangeFits(r.offset, r.End(), p, a) - 1
  {
    var prefix, suffix := Range(r.offset, at - r.offset), Range(at + p, r.End() - at - p);
    assert RangeFits(prefix.offset, prefix.End(), p, a) == 0;
    assert RangeFits(suffix.offset, suffix.End(), p, a) == RangeFits(r.offset, r.End(), p, a) - 1;
    assert FitCount([], p, a) == 0;
    assert [prefix][1..] == [] && [suffix][1..] == [];
    assert [prefix, suffix][1..] == [suffix];
    if at == r.offset {
      if at + p == r.End() {
        assert Carve(r, at, p) == [];
      } else {
        assert Carve(r, at, p) == [suffix];
      }
    } else if at + p == r.End() {
      assert Carve(r, at, p) == [prefix];
    } else {
      assert Carve(r, at, p) == [prefix, suffix];
    }
  }

  /** A uniform sequence fits exactly when the count covers its length. */
  lemma {:induction false} TakeAllUniform(free: seq<Range>, n: nat, p: nat, a: nat, hi: nat)
    requires p > 0 && PowerOfTwo(a) && Canonical(free, 0, hi) && hi + a - 1 <= SIZE_MAX
    ensures !TakeAll(free, Repeat(p, n), a).Unplaceable?
    ensures TakeAll(free, Repeat(p, n), a).AllFit? <==> n <= FitCount(free, p, a)
    decreases n
  {
    if n > 0 {
      TakeUniform(free, p, a, 0, hi);
      assert Repeat(p, n)[1..] == Repeat(p, n - 1);
      match Take(free, p, a) {
        case Placed(_, rest) =>
          TakeSound(free, p, a, 0, hi);
          TakeAllUniform(rest, n - 1, p, a, hi);
        case _ =>
      }
    }
  }

  function Repeat(p: nat, n: nat): (r: seq<nat>)
    ensures |r| == n && forall i :: 0 <= i < n ==> r[i] == p
  {
    seq(n, _ => p)
  }

  /** Releasing never lowers the number of equal-sized placements. */
  lemma GiveFits(free: seq<Range>, r: Range, p: nat, a: nat, hi: nat)
    requires p > 0 && a > 0 && Canonical(free, 0, hi) && r.bytes > 0 && r.End() <= hi
    requires forall b: nat :: r.offset <= b < r.End() ==> !Covers(free, b)
    ensures FitCount(Give(free, r), p, a) >= FitCount(free, p, a)
  {
    InsertSound(free, r, 0, hi);
    InsertFits(free, r, p, a);
    var s := Insert(free, r);
    JoinFits(s[0], s[1..], p, a, hi);
  }

  lemma {:induction false} InsertFits(free: seq<Range>, r: Range, p: nat, a: nat)
    requires p > 0 && a > 0
    ensures FitCount(Insert(free, r), p, a) == FitCount(free, p, a) + RangeFits(r.offset, r.End(), p, a)
  {
    if free == [] || r.offset < free[0].offset {
      assert Insert(free, r)[1..] == free;
    } else {
      assert Insert(free, r)[1..] == Insert(free[1..], r);
      InsertFits(free[1..], r, p, a);
    }
  }

  lemma {:induction false} JoinFits(current: Range, rest: seq<Range>, p: nat, a: nat, hi: nat)
    requires p > 0 && a > 0 && Ordered(rest, current.End(), hi)
    ensures FitCount(Join(current, rest), p, a) >=
              RangeFits(current.offset, current.End(), p, a) + FitCount(rest, p, a)
    decreases |rest|
  {
    if rest == [] {
      assert FitCount([], p, a) == 0;
    } else if current.End() == rest[0].offset {
      var joined := Range(current.offset, current.bytes + rest[0].bytes);
      RangeFitsMerge(current.offset, current.End(), rest[0].End(), p, a);
      JoinFits(joined, rest[1..], p, a, hi);
    } else {
      JoinFits(rest[0], rest[1..], p, a, hi);
      assert Join(current, rest)[1..] == Join(rest[0], rest[1..]);
    }
  }
}

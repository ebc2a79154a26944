/** CLOCK selection over the list of all records: which slots a pass visits, what aging may
    change, and the bytes a rebalancing weighs. */
module PrefixClock {
  import opened Prompts
  import opened PrefixArena
  import opened PrefixRecords
  import opened PrefixLookups

  type Bytes = CheckpointId -> nat

  // -------------------------------------------------------------------- the hand

  /** The place the hand moves to from place `i`; `|list|` stands for no place. */
  function Advance(n: nat, i: nat): nat { if i + 1 >= n then 0 else i + 1 }

  /** How many steps after `first` a pass over `n` places reaches place `i`. */
  function Offset(n: nat, first: nat, i: nat): int { if i >= first then i - first else i - first + n }

  /** Where the hand is after `steps` moves of a pass that starts at `first`. */
  function Reach(n: nat, first: nat, steps: nat): int { if first + steps < n then first + steps else first + steps - n }

  lemma ReachOffset(n: nat, first: nat, steps: nat, i: nat)
    requires first < n && steps < n && i < n
    ensures 0 <= Reach(n, first, steps) < n
    ensures Offset(n, first, i) == steps <==> i == Reach(n, first, steps)
    ensures 0 <= Offset(n, first, i) < n
  {
  }

  // ----------------------------------------------------------------------- aging

  /** All that selection may do to a record: take its second chance, or demote it. */
  predicate Aged(x: Record, y: Record) {
    && y == x.(referenceBit := y.referenceBit, cacheClass := y.cacheClass)
    && (y.referenceBit ==> x.referenceBit)
    && (y.cacheClass != x.cacheClass ==> x.cacheClass == Reused && y.cacheClass == Probationary)
  }

  predicate AgedAt(s: seq<Slot>, s': seq<Slot>, g: Shape, eligible: Usable, k: nat) {
    k in g.active ==>
      Aged(RecordOf(s, k), RecordOf(s', k))
          && (!eligible(RecordOf(s, k).checkpoint) ==> RecordOf(s', k) == RecordOf(s, k))
  }

  /** Ineligible records are untouched, eligible ones at most aged. */
  ghost predicate AgedOnly(s: seq<Slot>, s': seq<Slot>, g: Shape, eligible: Usable) {
    forall k: nat :: AgedAt(s, s', g, eligible, k)
  }

  lemma AgedTrans(s: seq<Slot>, t: seq<Slot>, u: seq<Slot>, g: Shape, eligible: Usable)
    requires AgedOnly(s, t, g, eligible) && AgedOnly(t, u, g, eligible)
    ensures AgedOnly(s, u, g, eligible)
  {
    forall k: nat ensures AgedAt(s, u, g, eligible, k) {
      assert AgedAt(s, t, g, eligible, k) && AgedAt(t, u, g, eligible, k);
    }
  }

  predicate Wanted(s: seq<Slot>, g: Shape, eligible: Usable, priority: Priority, k: nat) {
    k in g.active && RecordOf(s, k).priority == priority && eligible(RecordOf(s, k).checkpoint)
  }

  predicate WantedIn(s: seq<Slot>, g: Shape, eligible: Usable, priority: Priority, cacheClass: CacheClass, k: nat) {
    Wanted(s, g, eligible, priority, k) && RecordOf(s, k).cacheClass == cacheClass
  }

  // ----------------------------------------------------------------------- bytes

  function Weight(s: seq<Slot>, eligible: Usable, bytes: Bytes, priority: Priority, k: nat): nat {
    if RecordOf(s, k).priority == priority
        && eligible(RecordOf(s, k).checkpoint) then bytes(RecordOf(s, k).checkpoint) else 0
  }

  function ReusedWeight(s: seq<Slot>, eligible: Usable, bytes: Bytes, priority: Priority, k: nat): nat {
    if RecordOf(s, k).cacheClass == Reused then Weight(s, eligible, bytes, priority, k) else 0
  }

  function TotalBytes(s: seq<Slot>, eligible: Usable, bytes: Bytes, priority: Priority, list: seq<nat>): nat
    decreases |list|
  {
    if list == [] then 0
    else TotalBytes(s, eligible, bytes, priority, list[..|list| - 1]) + Weight(s, eligible, bytes, priority,
        list[|list| - 1])
  }

  function ReusedBytes(s: seq<Slot>, eligible: Usable, bytes: Bytes, priority: Priority, list: seq<nat>): nat
    decreases |list|
  {
    if list == [] then 0
    else ReusedBytes(s, eligible, bytes, priority, list[..|list| - 1]) + ReusedWeight(s, eligible, bytes, priority,
        list[|list| - 1])
  }

  lemma {:induction false} ReusedSame(s: seq<Slot>, s': seq<Slot>, eligible: Usable, bytes: Bytes, priority: Priority,
      list: seq<nat>)
    requires forall i :: 0 <= i < |list| ==>
      ReusedWeight(s', eligible, bytes, priority, list[i]) == ReusedWeight(s, eligible, bytes, priority, list[i])
    ensures ReusedBytes(s', eligible, bytes, priority, list) == ReusedBytes(s, eligible, bytes, priority, list)
    decreases |list|
  {
    if list != [] { ReusedSame(s, s', eligible, bytes, priority, list[..|list| - 1]); }
  }

  /** Demoting one record takes its bytes off the reused total. */
  lemma {:induction false} ReusedDrop(s: seq<Slot>, s': seq<Slot>, eligible: Usable, bytes: Bytes, priority: Priority,
      list: seq<nat>, i: nat)
    requires i < |list| && ReusedWeight(s', eligible, bytes, priority, list[i]) == 0
    requires forall j :: 0 <= j < |list| && j != i ==>
      ReusedWeight(s', eligible, bytes, priority, list[j]) == ReusedWeight(s, eligible, bytes, priority, list[j])
    ensures ReusedBytes(s', eligible, bytes, priority, list) + ReusedWeight(s, eligible, bytes, priority, list[i])
      == ReusedBytes(s, eligible, bytes, priority, list)
    decreases |list|
  {
    var n := |list| - 1;
    if i == n {
      ReusedSame(s, s', eligible, bytes, priority, list[..n]);
    } else {
      ReusedDrop(s, s', eligible, bytes, priority, list[..n], i);
    }
  }

  function Target(total: nat): nat { total / 4 * 3 + total % 4 * 3 / 4 }

  /** The overflow-safe target is three quarters, rounded down. */
  lemma TargetIs(total: nat)
    ensures Target(total) == 3 * total / 4
  {
  }

  function Distance(a: nat, b: nat): nat { if a < b then b - a else a - b }

  function Rank(p: Priority): nat { match p case Low => 0 case Normal => 1 case High => 2 }
}

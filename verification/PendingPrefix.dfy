/** Shared prefill. One work processes a prompt in steps for all requests that depend on a
    prefix of it; no step passes a point where some dependent leaves the shared path. */
module PendingPrefix {
  import opened Prompts

  /** `images` are the dependent's own image spans, which the fork point was computed from. */
  datatype Dependent = Dependent(request: nat, prompt: seq<Token>, images: Images, fork: nat)

  datatype Step = Step(begin: nat, end: nat)

  datatype Join = Join(joined: bool, common: nat) | Invalid

  predicate ValidPrompt(prompt: seq<Token>, images: Images) {
    prompt != [] && ValidImages(images) && (images != [] ==> images[|images| - 1].end <= |prompt|)
  }

  lemma ImagesEnd(prompt: seq<Token>, images: Images, i: nat)
    requires ValidPrompt(prompt, images) && i < |images|
    ensures images[i].end <= |prompt|
  {
    if i < |images| - 1 { assert images[i].end <= images[|images| - 1].begin; }
  }

  /** What a step may be: text of at most `rows` tokens outside images, or one whole image. */
  predicate StepOk(images: Images, rows: nat, step: Step) {
    && step.begin < step.end && Safe(images, step.begin) && Safe(images, step.end)
    && ((step.end - step.begin <= rows && forall i :: 0 <= i < |images| ==>
       images[i].end <= step.begin || step.end <= images[i].begin)
        || exists i :: 0 <= i < |images| && images[i].begin == step.begin && images[i].end == step.end)
  }

  method ValidateImages(images: Images) returns (ok: bool)
    ensures ok <==> ValidImages(images)
  {
    var previousEnd := 0;
    for i := 0 to |images|
      invariant forall k :: 0 <= k < i ==> images[k].begin < images[k].end <= previousEnd
      invariant previousEnd == if i > 0 then images[i - 1].end else 0
      invariant forall j, k :: 0 <= j < k < i ==> images[j].end <= images[k].begin
    {
      assert i > 0 && images[i].begin < previousEnd ==> !(images[i - 1].end <= images[i].begin);
      if images[i].begin >= images[i].end || images[i].begin < previousEnd { return false; }
      previousEnd := images[i].end;
    }
    return true;
  }

  class Work {
    const prompt: seq<Token>
    const images: Images
    const maxDependents: nat
    var dependents: seq<Dependent>
    var completed: nat
    var dispatchedEnd: Option<nat>
    var failed: bool

    /** The furthest token any dispatched work reaches. */
    function Reached(): nat reads this { if dispatchedEnd.Some? then dispatchedEnd.value else completed }

    /** `d` shares the path up to its fork point, which no dispatched work has passed. */
    ghost predicate DependentOk(d: Dependent)
      reads this
    {
      && Reached() <= d.fork <= |prompt| && 0 < d.fork <= |d.prompt|
      && Safe(images, d.fork) && Same(prompt, images, d.prompt, d.images, d.fork)
    }

    ghost predicate Valid()
      reads this
    {
      && ValidPrompt(prompt, images) && 0 < maxDependents && |dependents| <= maxDependents
      && completed <= Reached() <= |prompt| && Safe(images, completed) && Safe(images, Reached())
      && (dispatchedEnd.Some? ==> completed < dispatchedEnd.value && !failed)
      && (forall i :: 0 <= i < |dependents| ==> DependentOk(dependents[i]))
      && (forall i, j :: 0 <= i < j < |dependents| ==> dependents[i].request != dependents[j].request)
    }

    constructor (prompt: seq<Token>, request: nat, maxDependents: nat, initial: nat, images: Images)
      requires ValidPrompt(prompt, images) && maxDependents > 0 && initial <= |prompt| && Safe(images, initial)
      ensures Valid() && this.prompt == prompt && this.images == images && this.maxDependents == maxDependents
      ensures completed == initial && dispatchedEnd == None && !failed
      ensures dependents == [Dependent(request, prompt, images, |prompt|)]
    {
      this.prompt, this.images, this.maxDependents := prompt, images, maxDependents;
      completed, dispatchedEnd, failed := initial, None, false;
      dependents := [Dependent(request, prompt, images, |prompt|)];
      new;
      forall i | 0 <= i < |images| ensures !Splits(images[i], |prompt|) { ImagesEnd(prompt, images, i); }
    }

    /** `None` for arguments the source rejects. */
    static method Create(prompt: seq<Token>, request: nat, maxDependents: nat, initial: nat, images: Images)
        returns (w: Work?)
      ensures w != null <==> ValidPrompt(prompt, images) && maxDependents > 0 && initial <= |prompt| && Safe(images,
        initial)
      ensures w != null ==> fresh(w) && w.Valid() && w.completed == initial && w.prompt == prompt && w.images == images
      ensures w != null ==> w.dependents == [Dependent(request, prompt, images, |prompt|)]
      ensures w != null ==> w.dispatchedEnd == None && !w.failed
    {
      if prompt == [] { return null; }
      var ordered := ValidateImages(images);
      if !ordered || (images != [] && images[|images| - 1].end > |prompt|) || maxDependents == 0 || initial > |prompt| {
        return null;
      }
      var boundary := SafeBoundary(initial, images);
      if boundary != initial { return null; }
      w := new Work(prompt, request, maxDependents, initial, images);
    }

    predicate Depends(request: nat)
      reads this
    {
      exists i :: 0 <= i < |dependents| && dependents[i].request == request
    }

    /** A request joins when the path it shares is not already behind the dispatched work. */
    method JoinWork(request: nat, prompt: seq<Token>, images: Images) returns (r: Join)
      requires Valid()
      modifies this`dependents
      ensures Valid()
      ensures r.Invalid? <==> !ValidPrompt(prompt, images) || old(Depends(request))
      ensures r.Join? ==> LongestShared(this.prompt, this.images, prompt, images, r.common)
      ensures r.Join? ==> (r.joined <==>
        !failed && |old(dependents)| < maxDependents && 0 < r.common && Reached() <= r.common)
      ensures dependents == if r.Join?
        && r.joined then old(dependents) + [Dependent(request, prompt, images, r.common)] else old(dependents)
    {
      if prompt == [] { return Invalid; }
      var ordered := ValidateImages(images);
      if !ordered || (images != [] && images[|images| - 1].end > |prompt|) { return Invalid; }
      for i := 0 to |dependents|
        invariant forall k :: 0 <= k < i ==> dependents[k].request != request
        invariant dependents == old(dependents)
      {
        if dependents[i].request == request { return Invalid; }
      }
      var common := CommonTokens(this.prompt, this.images, prompt, images);
      if failed || |dependents| == maxDependents || common == 0 || common < Reached() { return Join(false, common); }
      dependents := dependents + [Dependent(request, prompt, images, common)];
      return Join(true, common);
    }

    method Find(request: nat) returns (i: nat)
      ensures i <= |dependents| && (i < |dependents| ==> dependents[i].request == request)
      ensures i == |dependents| <==> !Depends(request)
    {
      i := 0;
      while i < |dependents| && dependents[i].request != request
        invariant 0 <= i <= |dependents| && forall k :: 0 <= k < i ==> dependents[k].request != request
      {
        i := i + 1;
      }
    }

    method Detach(request: nat) returns (found: bool)
      requires Valid()
      modifies this`dependents
      ensures Valid() && (found <==> old(Depends(request))) && !Depends(request)
      ensures forall d :: d in dependents <==> d in old(dependents) && d.request != request
      ensures |dependents| == |old(dependents)| - if found then 1 else 0
    {
      var i := Find(request);
      if i == |dependents| { return false; }
      LeavesOthers(dependents, i);
      dependents := Without(dependents, i);
      return true;
    }

    /** Commits a restored checkpoint; `ok` is false where the source rejects it. */
    method RestorePrefix(target: nat) returns (ok: bool)
      requires Valid()
      modifies this`completed
      ensures Valid()
      ensures ok <==> !failed && dispatchedEnd.None? && old(completed) == 0 && Safe(images, target)
                      && target <= (if dependents == [] then 0 else |prompt|) && forall d :: d in dependents ==>
                         target <= d.fork
      ensures completed == if ok then target else old(completed)
    {
      if failed || dispatchedEnd.Some? || completed != 0 { return false; }
      var boundary := NextBoundary();
      if target > boundary { return false; }
      var safe := SafeBoundary(target, images);
      if safe != target { return false; }
      completed := target;
      return true;
    }

    /** The nearest fork point; the completed cursor when nobody depends on the work. */
    method NextBoundary() returns (r: nat)
      requires Valid()
      ensures dependents == [] ==> r == completed
      ensures dependents != [] ==>
        (forall d :: d in dependents ==> r <= d.fork) && exists d :: d in dependents && d.fork == r
      ensures Safe(images, r) && completed <= r <= |prompt| && (dependents != [] ==> Reached() <= r)
    {
      if dependents == [] { return completed; }
      r := dependents[0].fork;
      for i := 1 to |dependents|
        invariant exists k :: 0 <= k < i && dependents[k].fork == r
        invariant forall k :: 0 <= k < i ==> r <= dependents[k].fork
      {
        if dependents[i].fork < r { r := dependents[i].fork; }
      }
    }

    method AtBoundary() returns (at: bool)
      requires Valid()
      ensures at <==> !failed && dispatchedEnd.None? && exists d :: d in dependents && d.fork == completed
    {
      if failed || dispatchedEnd.Some? || dependents == [] { return false; }
      var boundary := NextBoundary();
      at := completed == boundary;
      if !at { assert forall d :: d in dependents ==> completed < d.fork; }
    }

    predicate CanStep(rows: nat)
      reads this
    {
      !failed && dispatchedEnd.None? && dependents != [] && rows > 0
    }

    /** Plans the next step. The only error left for an idle, healthy work is a boundary that
        should have been detached; a planned step never crosses a fork point. */
    method NextStep(rows: nat) returns (r: Option<Step>)
      requires Valid()
      ensures r.Some? <==> CanStep(rows) && forall d :: d in dependents ==> completed < d.fork
      ensures r.Some? ==> r.value.begin == completed && StepOk(images, rows, r.value)
      ensures r.Some? ==> forall d :: d in dependents ==> r.value.end <= d.fork
    {
      if failed || dispatchedEnd.Some? || dependents == [] || rows == 0 { return None; }
      var boundary := NextBoundary();
      if completed >= boundary { return None; }
      var end := completed + if rows < boundary - completed then rows else boundary - completed;
      var i := 0;
      while i < |images| && images[i].end <= completed
        invariant 0 <= i <= |images| && forall k :: 0 <= k < i ==> images[k].end <= completed
      {
        i := i + 1;
      }
      if i < |images| {
        // The first image not yet behind starts at the cursor or after it.
        assert !Splits(images[i], completed) && !Splits(images[i], boundary);
        if completed == images[i].begin {
          end := images[i].end;
        } else if images[i].begin < end {
          end := images[i].begin;
        }
        SafeStep(i, end);
      }
      assert end <= boundary;
      return Some(Step(completed, end));
    }

    lemma SafeStep(i: nat, end: nat)
      requires Valid() && i < |images| && (forall k :: 0 <= k < i ==> images[k].end <= completed)
        && completed <= images[i].begin
      requires completed < end && (end == images[i].end || end <= images[i].begin)
      requires end == images[i].end ==> images[i].begin == completed
      ensures Safe(images, end)
    {
    }

    method BeginStep(rows: nat) returns (r: Option<Step>)
      requires Valid()
      modifies this`dispatchedEnd
      ensures Valid()
      ensures r.Some? <==> old(CanStep(rows)) && forall d :: d in dependents ==> completed < d.fork
      ensures r.Some? ==> r.value.begin == completed && StepOk(images, rows, r.value)
      ensures r.Some? ==> dispatchedEnd == Some(r.value.end)
      ensures r.Some? ==> forall d :: d in dependents ==> r.value.end <= d.fork
      ensures r.None? ==> dispatchedEnd == old(dispatchedEnd)
    {
      r := NextStep(rows);
      if r.Some? {
        var d := dependents[0];
        assert r.value.end <= d.fork;
        dispatchedEnd := Some(r.value.end);
      }
    }

    /** `ok` is false when nothing was dispatched. */
    method CompleteStep(success: bool) returns (ok: bool)
      requires Valid()
      modifies this`dispatchedEnd, this`completed, this`failed
      ensures Valid() && (ok <==> old(dispatchedEnd).Some?) && dispatchedEnd == None
      ensures ok ==> completed == (if success then old(dispatchedEnd).value else old(completed)) && failed == !success
      ensures !ok ==> completed == old(completed) && failed == old(failed)
    {
      if dispatchedEnd.None? { return false; }
      if success { completed := dispatchedEnd.value; } else { failed := true; }
      dispatchedEnd := None;
      return true;
    }
  }

  // --------------------------------------------------------------- the driver loop

  function Without(before: seq<Dependent>, i: nat): (after: seq<Dependent>)
    requires i < |before|
    ensures |after| == |before| - 1
    ensures forall k :: 0 <= k < |after| ==> after[k] == if k < i then before[k] else before[k + 1]
  {
    before[..i] + before[i + 1..]
  }

  lemma WithoutHolds(before: seq<Dependent>, i: nat, d: Dependent)
    requires i < |before| && (forall a, b :: 0 <= a < b < |before| ==> before[a].request != before[b].request)
    ensures d in Without(before, i) <==> d in before && d.request != before[i].request
  {
    var after := Without(before, i);
    if d in before && d.request != before[i].request {
      var k :| 0 <= k < |before| && before[k] == d;
      assert after[if k < i then k else k - 1] == d;
    }
    if d in after {
      var k :| 0 <= k < |after| && after[k] == d;
      assert before[if k < i then k else k + 1] == d;
    }
  }

  lemma LeavesOthers(before: seq<Dependent>, i: nat)
    requires i < |before| && (forall a, b :: 0 <= a < b < |before| ==> before[a].request != before[b].request)
    ensures forall d :: d in Without(before, i) <==> d in before && d.request != before[i].request
  {
    forall d ensures d in Without(before, i) <==> d in before && d.request != before[i].request {
      WithoutHolds(before, i, d);
    }
  }

  /** Consecutive steps from `begin` to `end`. */
  predicate Tiles(steps: seq<Step>, begin: nat, end: nat)
    decreases |steps|
  {
    if steps == [] then begin == end
    else steps[0].begin == begin && begin < steps[0].end <= end && Tiles(steps[1..], steps[0].end, end)
  }

  lemma {:induction false} TilesSnoc(steps: seq<Step>, begin: nat, end: nat, step: Step)
    requires Tiles(steps, begin, end) && step.begin == end && end < step.end
    ensures Tiles(steps + [step], begin, step.end)
    decreases |steps|
  {
    if steps != [] {
      assert (steps + [step])[1..] == steps[1..] + [step];
      TilesSnoc(steps[1..], steps[0].end, end, step);
    } else {
      assert (steps + [step])[1..] == [];
    }
  }

  /** Branches one dependent off at its fork point. */
  method DetachReady(w: Work) returns (d: Dependent)
    requires w.Valid() && exists d :: d in w.dependents && d.fork == w.completed
    modifies w`dependents
    ensures w.Valid() && d.fork == w.completed && |w.dependents| == |old(w.dependents)| - 1
    ensures forall x :: x == d || x in w.dependents <==> x in old(w.dependents)
  {
    d := FindReady(w);
    LeavesOne(w.dependents, d);
    var _ := w.Detach(d.request);
  }

  /** What happens to a work between and during its steps: a request joins, one is cancelled, or the
      scheduler takes its turn, in which a step under way may turn out to have failed. */
  datatype Event = Joins(request: nat, prompt: seq<Token>, images: Images) | Leaves(request: nat) | Turn(fails: bool)

  /** What a turn did: dispatched a step, committed it or learnt that it failed, branched a dependent
      off at its fork point, or rejected one of a failed work. */
  datatype Deed = Nothing | Dispatched | Committed(step: Step) | Failed | Branched(d: Dependent)
      | Rejected(d: Dependent)

  /** The step under way is one that may be dispatched. */
  ghost predicate UnderWay(w: Work, rows: nat)
    reads w
  {
    w.dispatchedEnd.Some? ==> StepOk(w.images, rows, Step(w.completed, w.dispatchedEnd.value))
  }

  /** How many more turns can do something, if nobody joins. */
  function Weight(w: Work): int
    reads w
  {
    if w.failed then |w.dependents|
    else 2 * (|w.prompt| - w.completed) + |w.dependents| - if w.dispatchedEnd.Some? then 1 else 0
  }

  predicate Finished(w: Work)
    reads w
  {
    w.dependents == [] && w.dispatchedEnd.None?
  }

  /** The scheduler's turn. Every turn that finds something to do brings the end nearer. */
  method TakeTurn(w: Work, rows: nat, fails: bool) returns (did: Deed)
    requires w.Valid() && UnderWay(w, rows) && rows > 0
    modifies w
    ensures w.Valid() && UnderWay(w, rows) && 0 <= Weight(w) <= old(Weight(w))
    ensures did.Nothing? <==> old(Finished(w))
    ensures !did.Nothing? ==> Weight(w) < old(Weight(w))
    ensures (w.failed <==> old(w.failed) || did.Failed?) && (did.Failed? ==> fails)
    ensures if did.Committed? then did.step == Step(old(w.completed), w.completed) && StepOk(w.images, rows, did.step)
            else w.completed == old(w.completed)
    ensures did.Branched? ==> did.d.fork == w.completed && did.d in old(w.dependents)
    ensures did.Rejected? ==> w.failed && did.d in old(w.dependents)
    ensures forall x :: x in old(w.dependents) <==>
      x in w.dependents || (did.Branched? && x == did.d) || (did.Rejected? && x == did.d)
  {
    if w.dispatchedEnd.Some? {
      var begin := w.completed;
      var _ := w.CompleteStep(!fails);
      if fails { return Failed; }
      return Committed(Step(begin, w.completed));
    }
    if w.dependents == [] { return Nothing; }
    if w.failed {
      var d := w.dependents[0];
      LeavesOne(w.dependents, d);
      var _ := w.Detach(d.request);
      return Rejected(d);
    }
    var at := w.AtBoundary();
    if at {
      var d := DetachReady(w);
      return Branched(d);
    }
    var begun := w.BeginStep(rows);
    return Dispatched;
  }

  /** A request that asks to share the work. */
  method TakeJoin(w: Work, rows: nat, request: nat, prompt: seq<Token>, images: Images) returns (more: seq<Dependent>)
    requires w.Valid() && UnderWay(w, rows)
    modifies w`dependents
    ensures w.Valid() && UnderWay(w, rows) && w.dependents == old(w.dependents) + more && |more| <= 1
    ensures forall d :: d in more ==>
      w.Reached() <= d.fork && LongestShared(w.prompt, w.images, d.prompt, d.images, d.fork)
  {
    var r := w.JoinWork(request, prompt, images);
    more := if r.Join? && r.joined then [Dependent(request, prompt, images, r.common)] else [];
    assert w.dependents == old(w.dependents) + more;
  }

  /** What a run has done so far: the committed steps, the requests that joined, those branched off
      at their fork point, and those dropped because they were cancelled or the work failed. */
  datatype Tally = Tally(steps: seq<Step>, joined: seq<Dependent>, left: seq<Dependent>, dropped: seq<Dependent>,
      turns: nat)

  /** The steps tile the prompt from `start` to the cursor, none splits an image, every branch lies
      on their edges, and nobody is lost. */
  ghost predicate Told(w: Work, rows: nat, start: nat, first: seq<Dependent>, t: Tally)
    reads w
  {
    && Tiles(t.steps, start, w.completed)
    && (forall i :: 0 <= i < |t.steps| ==> StepOk(w.images, rows, t.steps[i]))
    && (forall d :: d in t.left ==> AtEdge(t.steps, start, d.fork))
    && (forall d :: d in first || d in t.joined <==> d in t.left || d in t.dropped || d in w.dependents)
  }

  /** Only cancellation and failure drop a dependent. */
  predicate DroppedFor(events: seq<Event>, failed: bool, dropped: seq<Dependent>) {
    failed || forall d :: d in dropped ==> Leaves(d.request) in events
  }

  /** A turn, told. */
  method TellTurn(w: Work, rows: nat, fails: bool, ghost start: nat, ghost first: seq<Dependent>, t: Tally)
      returns (u: Tally)
    requires w.Valid() && UnderWay(w, rows) && rows > 0 && Told(w, rows, start, first, t)
    modifies w
    ensures w.Valid() && UnderWay(w, rows) && Told(w, rows, start, first, u)
    ensures 0 <= Weight(w) <= old(Weight(w)) && (old(w.failed) ==> w.failed) && (w.failed ==> old(w.failed) || fails)
    ensures u.turns + Weight(w) <= t.turns + old(Weight(w)) && (!old(Finished(w)) ==> Weight(w) < old(Weight(w)))
    ensures u.joined == t.joined && (u.dropped == t.dropped || w.failed)
  {
    u := t;
    ghost var before := w.completed;
    var did := TakeTurn(w, rows, fails);
    match did {
      case Nothing =>
      case Dispatched => u := u.(turns := t.turns + 1);
      case Failed => u := u.(turns := t.turns + 1);
      case Committed(step) =>
        TilesSnoc(t.steps, start, before, step);
        u := u.(steps := t.steps + [step], turns := t.turns + 1);
        forall d | d in t.left ensures AtEdge(u.steps, start, d.fork) { EdgeStays(t.steps, start, d.fork, step); }
      case Branched(d) =>
        EdgeHere(t.steps, start, w.completed);
        u := u.(left := t.left + [d], turns := t.turns + 1);
      case Rejected(d) => u := u.(dropped := t.dropped + [d], turns := t.turns + 1);
    }
  }

  method TellLeave(w: Work, rows: nat, request: nat, ghost start: nat, ghost first: seq<Dependent>, t: Tally)
      returns (u: Tally)
    requires w.Valid() && UnderWay(w, rows) && Told(w, rows, start, first, t)
    modifies w`dependents
    ensures w.Valid() && UnderWay(w, rows) && Told(w, rows, start, first, u)
    ensures 0 <= Weight(w) <= old(Weight(w)) && u.turns == t.turns && u.joined == t.joined
    ensures u.dropped == t.dropped || exists d :: u.dropped == t.dropped + [d] && d.request == request
  {
    var i := w.Find(request);
    if i == |w.dependents| {
      return t;
    }
    var d := w.dependents[i];
    LeavesOne(w.dependents, d);
    var _ := w.Detach(request);
    u := t.(dropped := t.dropped + [d]);
  }

  /** Any events, in any order, joins and cancellations during a step included. The turns that do
      something are bounded by the length of the prompt and the number of requests. */
  method Follow(w: Work, rows: nat, events: seq<Event>) returns (t: Tally)
    requires w.Valid() && UnderWay(w, rows) && rows > 0
    modifies w
    ensures w.Valid() && UnderWay(w, rows) && Told(w, rows, old(w.completed), old(w.dependents), t)
    ensures DroppedFor(events, w.failed, t.dropped)
    ensures 0 <= Weight(w) && t.turns + Weight(w) <= old(Weight(w)) + |t.joined|
    ensures w.failed ==> old(w.failed) || Turn(true) in events
  {
    ghost var start, first := w.completed, w.dependents;
    t := Tally([], [], [], [], 0);
    for n := 0 to |events|
      invariant w.Valid() && UnderWay(w, rows) && Told(w, rows, start, first, t)
      invariant DroppedFor(events[..n], w.failed, t.dropped)
      invariant 0 <= Weight(w) && t.turns + Weight(w) <= old(Weight(w)) + |t.joined|
      invariant w.failed ==> old(w.failed) || Turn(true) in events[..n]
    {
      assert events[..n + 1] == events[..n] + [events[n]];
      match events[n] {
        case Turn(fails) => t := TellTurn(w, rows, fails, start, first, t);
        case Leaves(request) => t := TellLeave(w, rows, request, start, first, t);
        case Joins(request, prompt, images) =>
          var more := TakeJoin(w, rows, request, prompt, images);
          t := t.(joined := t.joined + more);
      }
    }
    assert events[..|events|] == events;
  }

  /** Then the scheduler's turns alone finish the work: every request was branched off at its fork
      point, which is an edge of the steps, or was cancelled, or the work failed. */
  method Drive(w: Work, rows: nat, events: seq<Event>) returns (t: Tally)
    requires w.Valid() && UnderWay(w, rows) && rows > 0
    modifies w
    ensures w.Valid() && Finished(w) && Told(w, rows, old(w.completed), old(w.dependents), t)
    ensures DroppedFor(events, w.failed, t.dropped) && (w.failed ==> old(w.failed) || Turn(true) in events)
    ensures t.turns <= old(Weight(w)) + |t.joined|
  {
    ghost var start, first := w.completed, w.dependents;
    t := Follow(w, rows, events);
    while !Finished(w)
      invariant w.Valid() && UnderWay(w, rows) && Told(w, rows, start, first, t) && 0 <= Weight(w)
      invariant DroppedFor(events, w.failed, t.dropped) && (w.failed ==> old(w.failed) || Turn(true) in events)
      invariant t.turns + Weight(w) <= old(Weight(w)) + |t.joined|
      decreases Weight(w)
    {
      t := TellTurn(w, rows, false, start, first, t);
    }
  }

  /** `position` is where the steps start or where one of them ends. */
  predicate AtEdge(steps: seq<Step>, start: nat, position: nat) {
    position == start || exists i :: 0 <= i < |steps| && steps[i].end == position
  }

  lemma EdgeStays(steps: seq<Step>, start: nat, position: nat, step: Step)
    requires AtEdge(steps, start, position)
    ensures AtEdge(steps + [step], start, position)
  {
    if position != start {
      var i :| 0 <= i < |steps| && steps[i].end == position;
      assert (steps + [step])[i].end == position;
    }
  }

  lemma {:induction false} EdgeHere(steps: seq<Step>, start: nat, end: nat)
    requires Tiles(steps, start, end)
    ensures AtEdge(steps, start, end)
    decreases |steps|
  {
    if steps != [] {
      EdgeHere(steps[1..], steps[0].end, end);
      if end != steps[0].end {
        var i :| 0 <= i < |steps[1..]| && steps[1..][i].end == end;
        assert steps[i + 1].end == end;
      }
    }
  }

  lemma LeavesOne(before: seq<Dependent>, d: Dependent)
    requires d in before && (forall i, j :: 0 <= i < j < |before| ==> before[i].request != before[j].request)
    ensures forall x :: x in before && x.request == d.request ==> x == d
  {
  }

  method FindReady(w: Work) returns (d: Dependent)
    requires w.Valid() && exists d :: d in w.dependents && d.fork == w.completed
    ensures d in w.dependents && d.fork == w.completed
  {
    d := w.dependents[0];
    for i := 0 to |w.dependents|
      invariant forall k :: 0 <= k < i ==> w.dependents[k].fork != w.completed
    {
      if w.dependents[i].fork == w.completed { return w.dependents[i]; }
    }
    assert false;
  }
}

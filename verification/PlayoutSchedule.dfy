/** What the reorder buffer is for: a playout schedule.

    The reference below never throws a frame away. It remembers every arrival since the last
    restart and moves a cursor; what is waiting is simply what has arrived at or past the
    cursor. The buffer, which erases, drops and rejects as it goes, is shown to give exactly
    the same answers over every run, and the run's raw history then says what each answer is. */
module PlayoutSchedule {
  import opened Common
  import opened JitterBuffer

  datatype Op = Push(seqNo: nat, frame: Frame) | Pop

  function Step(s: Jitter, op: Op): (Jitter, Option<Frame>)
    requires s.targetDepth >= 1
  {
    match op
    case Push(seqNo, frame) => (AfterPush(s, seqNo, frame), None)
    case Pop => AfterPop(s)
  }

  lemma StepKeepsValid(s: Jitter, op: Op)
    requires Valid(s)
    ensures Valid(Step(s, op).0)
    ensures Step(s, op).0.targetDepth == s.targetDepth && Step(s, op).0.maxDepth == s.maxDepth
  {
    match op
    case Push(seqNo, frame) => PushKeepsValid(s, seqNo, frame);
    case Pop => PopKeepsValid(s);
  }

  /** `xs[i]` is the buffer before call `i` of the run `ops`. */
  ghost predicate IsRun(xs: seq<Jitter>, ops: seq<Op>) {
    && |xs| == |ops| + 1
    && Valid(xs[0])
    && forall i {:trigger ops[i]} | 0 <= i < |ops| :: xs[i].targetDepth >= 1 && xs[i + 1] == Step(xs[i], ops[i]).0
  }

  /** The run that the calls `ops` make from buffer `s`. */
  function Trace(s: Jitter, ops: seq<Op>): (xs: seq<Jitter>)
    requires s.targetDepth >= 1
    ensures |xs| == |ops| + 1 && xs[0] == s
    decreases |ops|
  {
    if ops == [] then [s]
    else
      StepKeepsDepths(s, ops[0]);
      [s] + Trace(Step(s, ops[0]).0, ops[1..])
  }

  lemma StepKeepsDepths(s: Jitter, op: Op)
    requires s.targetDepth >= 1
    ensures Step(s, op).0.targetDepth == s.targetDepth && Step(s, op).0.maxDepth == s.maxDepth
  {
    hide AfterPush, AfterPop;
  }

  lemma {:induction false} TraceIsRun(s: Jitter, ops: seq<Op>)
    requires Valid(s)
    ensures IsRun(Trace(s, ops), ops)
    decreases |ops|
  {
    hide Step, Valid;
    if ops != [] {
      StepKeepsValid(s, ops[0]);
      var t := Step(s, ops[0]).0;
      TraceIsRun(t, ops[1..]);
      var xs, ys := Trace(s, ops), Trace(t, ops[1..]);
      assert xs == [s] + ys;
      forall i | 0 <= i < |ops|
        ensures xs[i].targetDepth >= 1 && xs[i + 1] == Step(xs[i], ops[i]).0
      {
        if i > 0 {
          assert ops[1..][i - 1] == ops[i];
          assert ys[i] == Step(ys[i - 1], ops[1..][i - 1]).0;
        }
      }
    }
  }

  lemma {:induction false} RunKeepsValid(xs: seq<Jitter>, ops: seq<Op>, i: nat)
    requires IsRun(xs, ops) && i <= |ops|
    ensures Valid(xs[i])
    ensures xs[i].targetDepth == xs[0].targetDepth && xs[i].maxDepth == xs[0].maxDepth
  {
    hide Step, Valid;
    if i > 0 {
      RunKeepsValid(xs, ops, i - 1);
      StepKeepsValid(xs[i - 1], ops[i - 1]);
    }
  }

  // ------------------------------------------------------------------------------------
  // The reference schedule
  // ------------------------------------------------------------------------------------

  datatype Schedule = Schedule(
    targetDepth: nat,
    maxDepth: nat,
    arrived: map<nat, Frame>,
    cursor: nat,
    running: bool,
    misses: nat)

  /** The arrivals still to be played. */
  function Due(p: Schedule): map<nat, Frame> {
    map k | k in p.arrived && k >= p.cursor :: p.arrived[k]
  }

  function Arrive(p: Schedule, seqNo: nat, frame: Frame): Schedule {
    var q := p.(arrived := p.arrived[seqNo := frame]);
    if |Due(q)| > p.maxDepth && Due(q) != map[] then q.(cursor := Least(Due(q).Keys) + 1) else q
  }

  /** One tick of a running schedule: play what has arrived under the cursor, or note a miss. */
  function Turn(p: Schedule): (Schedule, Option<Frame>) {
    var next := p.(cursor := p.cursor + 1);
    if p.cursor in p.arrived then (next.(misses := 0), Some(p.arrived[p.cursor]))
    else if p.misses + 1 < MAX_CONSECUTIVE_MISSES then (next.(misses := p.misses + 1), None)
    else (Schedule(p.targetDepth, p.maxDepth, map[], 0, false, 0), None)
  }

  function Tick(p: Schedule): (Schedule, Option<Frame>) {
    if p.running then Turn(p)
    else if |Due(p)| < p.targetDepth || Due(p) == map[] then (p, None)
    else Turn(p.(running := true, cursor := Least(Due(p).Keys), misses := 0))
  }

  function Advance(p: Schedule, op: Op): (Schedule, Option<Frame>) {
    match op
    case Push(seqNo, frame) => (Arrive(p, seqNo, frame), None)
    case Pop => Tick(p)
  }

  ghost predicate IsScheduleRun(ps: seq<Schedule>, ops: seq<Op>) {
    && |ps| == |ops| + 1
    && forall i {:trigger ops[i]} | 0 <= i < |ops| :: ps[i + 1] == Advance(ps[i], ops[i]).0
  }

  /** The buffer shows exactly the arrivals due. Before playback starts, a cursor past zero
      means the buffer is full, so that a frame from before it is dropped on the spot. */
  ghost predicate Refines(s: Jitter, p: Schedule) {
    && s.targetDepth == p.targetDepth && s.maxDepth == p.maxDepth
    && s.waiting == Due(p)
    && s.started == p.running
    && (s.started ==> s.nextSeq == p.cursor && s.consecutiveMisses == p.misses)
    && (!s.started && p.cursor > 0 ==> |s.waiting| == s.maxDepth)
  }

  lemma DueAfterArrival(p: Schedule, seqNo: nat, frame: Frame)
    ensures var q := p.(arrived := p.arrived[seqNo := frame]);
            Due(q) == if seqNo >= p.cursor then Due(p)[seqNo := frame] else Due(p)
  {
  }

  lemma DueAfterDrop(p: Schedule)
    requires Due(p) != map[]
    ensures var k := Least(Due(p).Keys); Due(p.(cursor := k + 1)) == Due(p) - {k}
  {
  }

  lemma DueFrom(p: Schedule, k: nat)
    requires k >= p.cursor
    requires forall j | j in Due(p) :: k <= j
    ensures Due(p.(cursor := k)) == Due(p)
    ensures Due(p.(cursor := k + 1)) == Due(p) - {k}
  {
  }

  lemma LeastUnique(s: set<nat>, k: nat)
    requires IsLeast(k, s)
    ensures Least(s) == k
  {
  }

  lemma OverflowRefines(s: Jitter, p: Schedule, seqNo: nat, frame: Frame)
    requires Valid(s) && Refines(s, p) && seqNo >= p.cursor
    requires |s.waiting[seqNo := frame]| > s.maxDepth
    ensures Refines(AfterPush(s, seqNo, frame), Arrive(p, seqNo, frame))
  {
    DueAfterArrival(p, seqNo, frame);
    var stored := s.(waiting := s.waiting[seqNo := frame]);
    assert stored.waiting.Keys == s.waiting.Keys + {seqNo};
    DropOldestDepth(stored);
    DueAfterDrop(p.(arrived := p.arrived[seqNo := frame]));
    hide Due, RecoveryThreshold;
  }

  lemma PushRefines(s: Jitter, p: Schedule, seqNo: nat, frame: Frame)
    requires Valid(s) && Refines(s, p)
    ensures Refines(AfterPush(s, seqNo, frame), Arrive(p, seqNo, frame))
  {
    DueAfterArrival(p, seqNo, frame);
    var stored := s.(waiting := s.waiting[seqNo := frame]);
    assert stored.waiting.Keys == s.waiting.Keys + {seqNo};
    if s.started && seqNo < s.nextSeq {
    } else if !s.started && seqNo < p.cursor {
      // Full, and older than everything waiting: stored and dropped again in one call.
      assert seqNo !in s.waiting;
      LeastUnique(stored.waiting.Keys, seqNo);
      assert stored.waiting - {seqNo} == s.waiting;
    } else if |stored.waiting| > s.maxDepth {
      hide AfterPush, Arrive;
      OverflowRefines(s, p, seqNo, frame);
    }
  }

  lemma TurnRefines(s: Jitter, p: Schedule)
    requires Refines(s, p) && s.started
    ensures Refines(Serve(s).0, Turn(p).0)
    ensures Serve(s).1 == Turn(p).1
  {
    assert forall k | k in Due(p) :: p.cursor <= k;
    DueFrom(p, p.cursor);
    assert p.cursor in s.waiting <==> p.cursor in p.arrived;
    hide Due;
  }

  lemma PopRefines(s: Jitter, p: Schedule)
    requires Valid(s) && Refines(s, p)
    ensures Refines(AfterPop(s).0, Tick(p).0)
    ensures AfterPop(s).1 == Tick(p).1
  {
    if s.started {
      TurnRefines(s, p);
    } else if |s.waiting| >= s.targetDepth {
      var k := Least(s.waiting.Keys);
      DueFrom(p, k);
      TurnRefines(Started(s), p.(running := true, cursor := k, misses := 0));
    }
  }

  lemma StepRefines(s: Jitter, p: Schedule, op: Op)
    requires Valid(s) && Refines(s, p)
    ensures Refines(Step(s, op).0, Advance(p, op).0)
    ensures Step(s, op).1 == Advance(p, op).1
  {
    match op
    case Push(seqNo, frame) => PushRefines(s, p, seqNo, frame);
    case Pop => PopRefines(s, p);
  }

  /** Over every run -- late, duplicate, reordered and overflowing frames, stalls and restarts
      included -- the buffer stays in step with the schedule and gives the same answers. */
  lemma {:induction false} BufferRefinesSchedule(xs: seq<Jitter>, ps: seq<Schedule>, ops: seq<Op>, i: nat)
    requires IsRun(xs, ops) && IsScheduleRun(ps, ops) && Refines(xs[0], ps[0])
    requires i <= |ops|
    ensures Refines(xs[i], ps[i])
    ensures i < |ops| ==> Step(xs[i], ops[i]).1 == Advance(ps[i], ops[i]).1
  {
    hide Step, Valid;
    RunKeepsValid(xs, ops, i);
    if i > 0 {
      RunKeepsValid(xs, ops, i - 1);
      BufferRefinesSchedule(xs, ps, ops, i - 1);
      StepRefines(xs[i - 1], ps[i - 1], ops[i - 1]);
    }
    if i < |ops| { StepRefines(xs[i], ps[i], ops[i]); }
  }

  function EmptySchedule(targetDepth: nat, maxDepth: nat): Schedule {
    Schedule(targetDepth, Max(maxDepth, targetDepth), map[], 0, false, 0)
  }

  // ------------------------------------------------------------------------------------
  // What the history says
  // ------------------------------------------------------------------------------------

  function Lookup(m: map<nat, Frame>, n: nat): Option<Frame> {
    if n in m then Some(m[n]) else None
  }

  /** The frame most recently pushed under number `n` by calls `lo` up to `hi`, if any. */
  function LatestArrival(base: map<nat, Frame>, ops: seq<Op>, lo: nat, hi: nat, n: nat): Option<Frame>
    requires lo <= hi <= |ops|
    decreases hi
  {
    if lo == hi then Lookup(base, n)
    else if ops[hi - 1].Push? && ops[hi - 1].seqNo == n then Some(ops[hi - 1].frame)
    else LatestArrival(base, ops, lo, hi - 1, n)
  }

  /** The number the next `pop` would look up, if it would look one up at all. */
  function Wanted(s: Jitter): Option<nat> {
    if s.started then Some(s.nextSeq)
    else if |s.waiting| >= s.targetDepth && s.waiting != map[] then Some(Least(s.waiting.Keys))
    else None
  }

  /** The last point of the run, up to `i`, at which playback gave up its position. */
  function RestartPoint(xs: seq<Jitter>, i: nat): (r: nat)
    requires i < |xs|
    ensures r <= i
  {
    if i == 0 then 0
    else if xs[i - 1].started && !xs[i].started then i
    else RestartPoint(xs, i - 1)
  }

  lemma AdvanceArrived(s: Jitter, p: Schedule, op: Op, n: nat)
    requires Valid(s) && Refines(s, p)
    ensures var q := Advance(p, op).0;
            if s.started && !Step(s, op).0.started then q.arrived == map[]
            else Lookup(q.arrived, n) == if op.Push? && op.seqNo == n then Some(op.frame) else Lookup(p.arrived, n)
  {
    StepRefines(s, p, op);
  }

  lemma LatestArrivalStep(ops: seq<Op>, lo: nat, i: nat, n: nat)
    requires lo <= i < |ops|
    ensures LatestArrival(map[], ops, i, i, n) == None
    ensures LatestArrival(map[], ops, lo, i + 1, n)
            == if ops[i].Push? && ops[i].seqNo == n then Some(ops[i].frame) else LatestArrival(map[], ops, lo, i, n)
  {
  }

  lemma NothingYet(ops: seq<Op>, i: nat, n: nat)
    requires i <= |ops|
    ensures LatestArrival(map[], ops, i, i, n) == None
  {
  }

  lemma RestartPointStep(xs: seq<Jitter>, i: nat)
    requires i + 1 < |xs|
    ensures RestartPoint(xs, i + 1) == if xs[i].started && !xs[i + 1].started then i + 1 else RestartPoint(xs, i)
    ensures RestartPoint(xs, 0) == 0
  {
  }

  lemma {:induction false} ArrivedSinceRestart(xs: seq<Jitter>, ps: seq<Schedule>, ops: seq<Op>, i: nat, n: nat)
    requires IsRun(xs, ops) && IsScheduleRun(ps, ops) && Refines(xs[0], ps[0]) && ps[0].arrived == map[]
    requires i <= |ops|
    ensures Lookup(ps[i].arrived, n) == LatestArrival(map[], ops, RestartPoint(xs, i), i, n)
  {
    hide Step, Valid, Refines, LatestArrival, RestartPoint, Advance;
    NothingYet(ops, i, n);
    if i == 0 {
      assert RestartPoint(xs, 0) == 0;
    } else {
      ArrivedSinceRestart(xs, ps, ops, i - 1, n);
      BufferRefinesSchedule(xs, ps, ops, i - 1);
      RunKeepsValid(xs, ops, i - 1);
      AdvanceArrived(xs[i - 1], ps[i - 1], ops[i - 1], n);
      RestartPointStep(xs, i - 1);
      LatestArrivalStep(ops, RestartPoint(xs, i - 1), i - 1, n);
      assert xs[i] == Step(xs[i - 1], ops[i - 1]).0 && ps[i] == Advance(ps[i - 1], ops[i - 1]).0;
    }
  }

  lemma {:induction false} ScheduleRunExists(p: Schedule, ops: seq<Op>) returns (ps: seq<Schedule>)
    ensures IsScheduleRun(ps, ops) && ps[0] == p
  {
    if ops == [] {
      ps := [p];
    } else {
      var front := ScheduleRunExists(p, ops[..|ops| - 1]);
      ps := front + [Advance(front[|ops| - 1], ops[|ops| - 1]).0];
    }
  }

  lemma TickServesWanted(s: Jitter, p: Schedule)
    requires Valid(s) && Refines(s, p)
    ensures Tick(p).1 == if Wanted(s).None? then None else Lookup(p.arrived, Wanted(s).value)
  {
  }

  /** Every `pop` of every run from a new buffer, overflow and restarts included: it returns
      the frame last pushed since the latest restart under the number whose turn it is, and
      nothing exactly when there is none (or playback has yet to start). */
  lemma PopServesLatestArrival(xs: seq<Jitter>, ops: seq<Op>, i: nat)
    requires IsRun(xs, ops) && xs[0] == Empty(xs[0].targetDepth, xs[0].maxDepth)
    requires i < |ops| && ops[i].Pop?
    ensures AfterPop(xs[i]).1 ==
              if Wanted(xs[i]).None? then None
              else LatestArrival(map[], ops, RestartPoint(xs, i), i, Wanted(xs[i]).value)
  {
    var ps := ScheduleRunExists(EmptySchedule(xs[0].targetDepth, xs[0].maxDepth), ops);
    BufferRefinesSchedule(xs, ps, ops, i);
    RunKeepsValid(xs, ops, i);
    TickServesWanted(xs[i], ps[i]);
    if Wanted(xs[i]).Some? {
      ArrivedSinceRestart(xs, ps, ops, i, Wanted(xs[i]).value);
    }
  }

  lemma PopServesWanted(s: Jitter)
    requires Valid(s)
    ensures AfterPop(s).1 == if Wanted(s).None? then None else Lookup(s.waiting, Wanted(s).value)
    ensures s.started ==> Wanted(s) == Some(s.nextSeq)
  {
  }

  lemma StepCursor(s: Jitter, op: Op, t: Jitter)
    requires Valid(s) && t == Step(s, op).0 && t.started
    ensures s.started ==> s.nextSeq <= t.nextSeq
    ensures op.Pop? && Wanted(s).Some? ==> Wanted(s).value < t.nextSeq
  {
  }

  /** While playback runs, the number looked up never goes back. */
  lemma {:induction false} CursorAdvances(xs: seq<Jitter>, ops: seq<Op>, i: nat, j: nat)
    requires IsRun(xs, ops) && i <= j <= |ops|
    requires forall k | i <= k <= j :: xs[k].started
    ensures xs[i].nextSeq <= xs[j].nextSeq
  {
    hide Step, Valid;
    if i < j {
      CursorAdvances(xs, ops, i, j - 1);
      RunKeepsValid(xs, ops, j - 1);
      StepCursor(xs[j - 1], ops[j - 1], xs[j]);
    }
  }

  /** Between a start and the next restart, played sequence numbers strictly increase. */
  lemma PlayedNumbersIncrease(xs: seq<Jitter>, ops: seq<Op>, i: nat, j: nat)
    requires IsRun(xs, ops) && i < j < |ops|
    requires ops[i].Pop? && ops[j].Pop?
    requires AfterPop(xs[i]).1.Some? && AfterPop(xs[j]).1.Some?
    requires forall k | i < k <= j :: xs[k].started
    ensures Wanted(xs[i]).Some? && Wanted(xs[j]).Some?
    ensures Wanted(xs[i]).value < Wanted(xs[j]).value
  {
    hide Step, Valid, AfterPop, Wanted;
    CursorAdvances(xs, ops, i + 1, j);
    RunKeepsValid(xs, ops, i);
    RunKeepsValid(xs, ops, j);
    PopServesWanted(xs[i]);
    PopServesWanted(xs[j]);
    StepCursor(xs[i], ops[i], xs[i + 1]);
  }

  function Pops(ops: seq<Op>, i: nat): nat
    requires i <= |ops|
  {
    if i == 0 then 0 else Pops(ops, i - 1) + if ops[i - 1].Pop? then 1 else 0
  }

  /** Playback runs throughout and nothing overflows. */
  ghost predicate Steady(xs: seq<Jitter>) {
    forall k | 0 <= k < |xs| :: xs[k].started && xs[k].droppedAtCap == xs[0].droppedAtCap
  }

  lemma SteadyStep(s: Jitter, op: Op, t: Jitter, n: nat)
    requires Valid(s) && t == Step(s, op).0
    requires s.started && t.started && t.droppedAtCap == s.droppedAtCap
    ensures t.nextSeq == s.nextSeq + (if op.Pop? then 1 else 0)
    ensures n >= t.nextSeq ==>
              Lookup(t.waiting, n) == if op.Push? && op.seqNo == n then Some(op.frame) else Lookup(s.waiting, n)
  {
    match op
    case Push(seqNo, frame) => hide AfterPop;
    case Pop => hide AfterPush;
  }

  lemma {:induction false} SteadyState(xs: seq<Jitter>, ops: seq<Op>, i: nat, n: nat)
    requires IsRun(xs, ops) && Steady(xs) && i <= |ops|
    ensures xs[i].nextSeq == xs[0].nextSeq + Pops(ops, i)
    ensures n >= xs[i].nextSeq ==> Lookup(xs[i].waiting, n) == LatestArrival(xs[0].waiting, ops, 0, i, n)
  {
    hide Step, Valid;
    if i > 0 {
      SteadyState(xs, ops, i - 1, n);
      RunKeepsValid(xs, ops, i - 1);
      SteadyStep(xs[i - 1], ops[i - 1], xs[i], n);
    }
  }

  /** Playout on schedule: counting from playback's position, the k-th `pop` serves number
      `nextSeq + k`, and it plays exactly what had arrived under that number by then. */
  lemma PlayoutOnSchedule(xs: seq<Jitter>, ops: seq<Op>, i: nat)
    requires IsRun(xs, ops) && Steady(xs)
    requires i < |ops| && ops[i].Pop?
    ensures AfterPop(xs[i]).1 == LatestArrival(xs[0].waiting, ops, 0, i, xs[0].nextSeq + Pops(ops, i))
  {
    hide Step, Valid, AfterPop;
    SteadyState(xs, ops, i, xs[i].nextSeq);
    RunKeepsValid(xs, ops, i);
    PopServesWanted(xs[i]);
  }
}

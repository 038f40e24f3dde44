/** Whole-run bookkeeping of the reorder buffer: no frame is unaccounted for, overflow episodes
    are paid for by drained frames, and a stall always ends in a fresh start. */
module JitterAccounting {
  import opened Common
  import opened JitterBuffer
  import opened PlayoutSchedule

  /** A push that adds a frame, as opposed to a late one or a duplicate. */
  predicate Adds(s: Jitter, op: Op) {
    op.Push? && !(s.started && op.seqNo < s.nextSeq) && op.seqNo !in s.waiting
  }

  /** Distinct frames accepted by the first `i` calls. */
  function Accepted(xs: seq<Jitter>, ops: seq<Op>, i: nat): nat
    requires i <= |ops| < |xs|
  {
    if i == 0 then 0 else Accepted(xs, ops, i - 1) + if Adds(xs[i - 1], ops[i - 1]) then 1 else 0
  }

  /** Frames thrown away by restarts during the first `i` calls. */
  function Cleared(xs: seq<Jitter>, i: nat): nat
    requires i < |xs|
  {
    if i == 0 then 0
    else Cleared(xs, i - 1) + if xs[i - 1].started && !xs[i].started then |xs[i - 1].waiting| else 0
  }

  lemma PushConserves(s: Jitter, seqNo: nat, frame: Frame)
    requires Valid(s)
    ensures var t := AfterPush(s, seqNo, frame);
            && |s.waiting| + (if Adds(s, Push(seqNo, frame)) then 1 else 0)
               == |t.waiting| + (t.droppedAtCap - s.droppedAtCap)
            && t.framesPlayed == s.framesPlayed && t.started == s.started
  {
    var stored := s.(waiting := s.waiting[seqNo := frame]);
    assert stored.waiting.Keys == s.waiting.Keys + {seqNo};
    if |stored.waiting| > s.maxDepth { DropOldestDepth(stored); }
  }

  lemma PopConserves(s: Jitter)
    requires Valid(s)
    ensures var t := AfterPop(s).0;
            && |s.waiting| == |t.waiting| + (t.framesPlayed - s.framesPlayed)
                              + (if s.started && !t.started then |s.waiting| else 0)
            && t.framesPlayed >= s.framesPlayed && t.droppedAtCap == s.droppedAtCap
  {
    if s.started || |s.waiting| >= s.targetDepth {
      var u := Started(s);
      if u.nextSeq in u.waiting {
        assert (u.waiting - {u.nextSeq}).Keys == u.waiting.Keys - {u.nextSeq};
      }
    }
  }

  lemma StepConserves(s: Jitter, op: Op, t: Jitter)
    requires Valid(s) && t == Step(s, op).0
    ensures |s.waiting| + (if Adds(s, op) then 1 else 0)
         == |t.waiting| + (t.framesPlayed - s.framesPlayed) + (t.droppedAtCap - s.droppedAtCap)
            + (if s.started && !t.started then |s.waiting| else 0)
  {
    match op
    case Push(seqNo, frame) => PushConserves(s, seqNo, frame);
    case Pop => PopConserves(s);
  }

  /** Every distinct accepted frame is played, dropped at the ceiling, cleared by a restart or
      still waiting. */
  lemma {:induction false} FramesConserved(xs: seq<Jitter>, ops: seq<Op>, i: nat)
    requires IsRun(xs, ops) && i <= |ops|
    ensures |xs[0].waiting| + Accepted(xs, ops, i)
         == |xs[i].waiting| + (xs[i].framesPlayed - xs[0].framesPlayed)
            + (xs[i].droppedAtCap - xs[0].droppedAtCap) + Cleared(xs, i)
  {
    hide Step, Valid;
    if i > 0 {
      FramesConserved(xs, ops, i - 1);
      RunKeepsValid(xs, ops, i - 1);
      StepConserves(xs[i - 1], ops[i - 1], xs[i]);
    }
  }

  /** The depth never passes the ceiling, and an overflow episode lasts only while the depth is
      above the recovery threshold. */
  lemma DepthBounded(xs: seq<Jitter>, ops: seq<Op>, i: nat)
    requires IsRun(xs, ops) && i <= |ops|
    ensures |xs[i].waiting| <= xs[0].maxDepth
    ensures xs[i].atCap ==> |xs[i].waiting| > RecoveryThreshold(xs[0].maxDepth)
  {
    RunKeepsValid(xs, ops, i);
  }

  /** What an episode costs, `m` being the margin: while one is running, everything below the
      ceiling was drained since it began; between episodes, a whole margin for each. */
  ghost predicate Paid(s: Jitter, m: nat, drained: nat) {
    if s.atCap then s.capEpisodes >= 1 && s.capEpisodes * m + s.maxDepth <= drained + |s.waiting| + m
    else s.capEpisodes * m <= drained
  }

  lemma PushPays(s: Jitter, seqNo: nat, frame: Frame, m: nat, drained: nat)
    requires Valid(s) && Paid(s, m, drained) && RecoveryThreshold(s.maxDepth) == s.maxDepth - m
    ensures Paid(AfterPush(s, seqNo, frame), m, drained)
  {
    hide RecoveryThreshold;
    if !(s.started && seqNo < s.nextSeq) {
      var stored := s.(waiting := s.waiting[seqNo := frame]);
      assert stored.waiting.Keys == s.waiting.Keys + {seqNo};
      if |stored.waiting| > s.maxDepth {
        DropOldestDepth(stored);
        assert (s.capEpisodes + 1) * m == s.capEpisodes * m + m;
      }
    }
  }

  lemma PopPays(s: Jitter, m: nat, drained: nat)
    requires Valid(s) && Paid(s, m, drained) && RecoveryThreshold(s.maxDepth) == s.maxDepth - m
    ensures var t := AfterPop(s).0;
            Paid(t, m, drained + (t.framesPlayed - s.framesPlayed)
                       + (if s.started && !t.started then |s.waiting| else 0))
  {
    PopConserves(s);
  }

  lemma PaidBound(s: Jitter, m: nat, drained: nat)
    requires Paid(s, m, drained) && |s.waiting| <= s.maxDepth
    ensures (s.capEpisodes - 1) * m <= drained
  {
    assert (s.capEpisodes - 1) * m == s.capEpisodes * m - m;
  }

  lemma StepPays(s: Jitter, op: Op, t: Jitter, m: nat, drained: nat)
    requires Valid(s) && t == Step(s, op).0 && m == Margin(s.maxDepth)
    requires Paid(s, m, drained)
    ensures Paid(t, m, drained + (t.framesPlayed - s.framesPlayed)
                       + (if s.started && !t.started then |s.waiting| else 0))
  {
    assert RecoveryThreshold(s.maxDepth) == s.maxDepth - m;
    hide Valid, Paid, RecoveryThreshold, AfterPush, AfterPop;
    match op
    case Push(seqNo, frame) =>
      PushPays(s, seqNo, frame, m, drained);
      PushConserves(s, seqNo, frame);
    case Pop => PopPays(s, m, drained);
  }

  lemma {:induction false} RunPays(xs: seq<Jitter>, ops: seq<Op>, i: nat, m: nat)
    requires IsRun(xs, ops) && i <= |ops| && m == Margin(xs[0].maxDepth)
    requires Paid(xs[0], m, xs[0].framesPlayed)
    ensures Paid(xs[i], m, xs[i].framesPlayed + Cleared(xs, i))
  {
    hide Step, Valid, Paid, Margin;
    if i > 0 {
      RunPays(xs, ops, i - 1, m);
      RunKeepsValid(xs, ops, i - 1);
      StepPays(xs[i - 1], ops[i - 1], xs[i], m, xs[i - 1].framesPlayed + Cleared(xs, i - 1));
    }
  }

  /** Hysteresis: however the calls interleave, every overflow episode after the first was
      preceded by a full margin of frames leaving the buffer by being played or cleared. */
  lemma EpisodesAmortised(xs: seq<Jitter>, ops: seq<Op>, i: nat)
    requires IsRun(xs, ops) && i <= |ops|
    requires xs[0] == Empty(xs[0].targetDepth, xs[0].maxDepth)
    ensures (xs[i].capEpisodes - 1) * Max(1, xs[0].maxDepth / 10) <= xs[i].framesPlayed + Cleared(xs, i)
  {
    hide Step, Valid, RecoveryThreshold;
    var m := Margin(xs[0].maxDepth);
    assert m == Max(1, xs[0].maxDepth / 10);
    hide Margin;
    RunPays(xs, ops, i, m);
    DepthBounded(xs, ops, i);
    RunKeepsValid(xs, ops, i);
    PaidBound(xs[i], m, xs[i].framesPlayed + Cleared(xs, i));
  }

  /** The push adds a frame to a buffer that is full. */
  predicate Overflows(s: Jitter, op: Op) { Adds(s, op) && |s.waiting| == s.maxDepth }

  /** A tenth of the ceiling, but at least one frame, below it. */
  predicate Drained(s: Jitter) { |s.waiting| <= s.maxDepth - Max(1, s.maxDepth / 10) }

  /** There has been an overflow, and the buffer has not drained since. */
  ghost predicate EpisodeRuns(xs: seq<Jitter>, ops: seq<Op>, i: nat)
    requires i <= |ops| < |xs|
  {
    exists j: nat | j < i :: Overflows(xs[j], ops[j]) && forall k | j < k <= i :: !Drained(xs[k])
  }

  /** How many overflows of the first `i` calls came while no episode was running. */
  ghost function EpisodesBegun(xs: seq<Jitter>, ops: seq<Op>, i: nat): nat
    requires i <= |ops| < |xs|
  {
    if i == 0 then 0
    else EpisodesBegun(xs, ops, i - 1)
         + if Overflows(xs[i - 1], ops[i - 1]) && !EpisodeRuns(xs, ops, i - 1) then 1 else 0
  }

  lemma ThresholdIsDrained(s: Jitter)
    requires s.maxDepth >= 1
    ensures |s.waiting| <= RecoveryThreshold(s.maxDepth) <==> Drained(s)
  {
  }

  lemma PushEpisode(s: Jitter, seqNo: nat, frame: Frame)
    requires Valid(s)
    ensures var t, over := AfterPush(s, seqNo, frame), Overflows(s, Push(seqNo, frame));
            && (t.atCap <==> (s.atCap || over) && |t.waiting| > RecoveryThreshold(t.maxDepth))
            && t.capEpisodes == s.capEpisodes + if over && !s.atCap then 1 else 0
  {
    assert RecoveryThreshold(s.maxDepth) < s.maxDepth;
    hide RecoveryThreshold;
    if !(s.started && seqNo < s.nextSeq) {
      var stored := s.(waiting := s.waiting[seqNo := frame]);
      assert stored.waiting.Keys == s.waiting.Keys + {seqNo};
      if |stored.waiting| > s.maxDepth { DropOldestDepth(stored); }
    }
  }

  lemma PopEpisode(s: Jitter)
    requires Valid(s)
    ensures var t := AfterPop(s).0;
            (t.atCap <==> s.atCap && |t.waiting| > RecoveryThreshold(t.maxDepth)) && t.capEpisodes == s.capEpisodes
  {
    hide RecoveryThreshold;
  }

  lemma EpisodeStep(s: Jitter, op: Op, t: Jitter)
    requires Valid(s) && t == Step(s, op).0
    ensures t.atCap <==> (s.atCap || Overflows(s, op)) && !Drained(t)
    ensures t.capEpisodes == s.capEpisodes + if Overflows(s, op) && !s.atCap then 1 else 0
  {
    ThresholdIsDrained(t);
    hide Drained, RecoveryThreshold, AfterPush, AfterPop;
    match op
    case Push(seqNo, frame) => PushEpisode(s, seqNo, frame);
    case Pop => PopEpisode(s);
  }

  /** Exactly when an overflow episode runs, and how many there have been: it begins with an overflow
      while none is running, and ends as soon as the buffer has drained by the margin. */
  lemma {:induction false} EpisodesAreExact(xs: seq<Jitter>, ops: seq<Op>, i: nat)
    requires IsRun(xs, ops) && i <= |ops|
    requires xs[0] == Empty(xs[0].targetDepth, xs[0].maxDepth)
    ensures xs[i].atCap <==> EpisodeRuns(xs, ops, i)
    ensures xs[i].capEpisodes == EpisodesBegun(xs, ops, i)
  {
    hide Step, Valid, Overflows, Drained;
    if i > 0 {
      EpisodesAreExact(xs, ops, i - 1);
      RunKeepsValid(xs, ops, i - 1);
      EpisodeStep(xs[i - 1], ops[i - 1], xs[i]);
      hide IsRun;
      assert EpisodeRuns(xs, ops, i) <==>
             (EpisodeRuns(xs, ops, i - 1) || Overflows(xs[i - 1], ops[i - 1])) && !Drained(xs[i]);
    }
  }

  // ------------------------------------------------------------------------------------
  // A stall cannot last
  // ------------------------------------------------------------------------------------

  lemma MissStep(s: Jitter, op: Op, t: Jitter)
    requires Valid(s) && t == Step(s, op).0 && s.started && t.started
    requires op.Pop? ==> AfterPop(s).1.None?
    ensures t.consecutiveMisses == s.consecutiveMisses + if op.Pop? then 1 else 0
  {
  }

  lemma {:induction false} MissesAddUp(xs: seq<Jitter>, ops: seq<Op>, i: nat)
    requires IsRun(xs, ops) && i <= |ops|
    requires forall k | 0 <= k <= i :: xs[k].started
    requires forall k | 0 <= k < i && ops[k].Pop? :: xs[k].targetDepth >= 1 && AfterPop(xs[k]).1.None?
    ensures xs[i].consecutiveMisses == xs[0].consecutiveMisses + Pops(ops, i)
  {
    hide Step, Valid;
    if i > 0 {
      MissesAddUp(xs, ops, i - 1);
      RunKeepsValid(xs, ops, i - 1);
      MissStep(xs[i - 1], ops[i - 1], xs[i]);
    }
  }

  /** Forty pops in a row that play nothing, whatever is pushed in between, always bring the
      buffer back to filling up afresh. */
  lemma StallRestarts(xs: seq<Jitter>, ops: seq<Op>)
    requires IsRun(xs, ops) && Pops(ops, |ops|) >= 40
    requires forall k | 0 <= k < |ops| && ops[k].Pop? :: xs[k].targetDepth >= 1 && AfterPop(xs[k]).1.None?
    ensures exists k :: 0 <= k <= |ops| && !xs[k].started
  {
    if forall k | 0 <= k <= |ops| :: xs[k].started {
      MissesAddUp(xs, ops, |ops|);
      RunKeepsValid(xs, ops, |ops|);
      assert false;
    }
  }

  /** How many pops in a row, up to call `i`, played nothing. */
  function Silent(xs: seq<Jitter>, ops: seq<Op>, i: nat): nat
    requires i <= |ops| < |xs| && forall k | 0 <= k < |xs| :: xs[k].targetDepth >= 1
  {
    if i == 0 then 0
    else if ops[i - 1].Push? then Silent(xs, ops, i - 1)
    else if AfterPop(xs[i - 1]).1.None? then Silent(xs, ops, i - 1) + 1
    else 0
  }

  lemma SilenceStep(s: Jitter, op: Op, t: Jitter)
    requires Valid(s) && t == Step(s, op).0
    ensures op.Push? ==> t.consecutiveMisses == s.consecutiveMisses && t.started == s.started
    ensures op.Pop? && AfterPop(s).1.Some? ==> t.consecutiveMisses == 0 && t.started
    ensures op.Pop? ==> t.consecutiveMisses <= s.consecutiveMisses + 1
    ensures s.started && !t.started ==> op.Pop? && AfterPop(s).1.None? && s.consecutiveMisses + 1 == MAX_CONSECUTIVE_MISSES
  {
    match op
    case Push(_, _) => hide AfterPop;
    case Pop => hide AfterPush;
  }

  lemma {:induction false} MissesAreSilence(xs: seq<Jitter>, ops: seq<Op>, i: nat)
    requires IsRun(xs, ops) && i <= |ops| && xs[0].consecutiveMisses == 0
    requires forall k | 0 <= k < |xs| :: xs[k].targetDepth >= 1
    ensures xs[i].consecutiveMisses <= Silent(xs, ops, i)
  {
    hide Step, Valid, AfterPop;
    if i > 0 {
      MissesAreSilence(xs, ops, i - 1);
      RunKeepsValid(xs, ops, i - 1);
      SilenceStep(xs[i - 1], ops[i - 1], xs[i]);
    }
  }

  /** Playback gives up its position only after forty pops in a row have played nothing: ordinary
      loss never costs it. */
  lemma RestartOnlyAfterStall(xs: seq<Jitter>, ops: seq<Op>, i: nat)
    requires IsRun(xs, ops) && i < |ops| && xs[0].consecutiveMisses == 0
    requires forall k | 0 <= k < |xs| :: xs[k].targetDepth >= 1
    requires xs[i].started && !xs[i + 1].started
    ensures Silent(xs, ops, i + 1) >= 40
  {
    hide Step, Valid, AfterPop;
    MissesAreSilence(xs, ops, i);
    RunKeepsValid(xs, ops, i);
    SilenceStep(xs[i], ops[i], xs[i + 1]);
  }

  /** Pops of the first `i` calls that had a turn to play: all but those while filling up. */
  function Turns(xs: seq<Jitter>, ops: seq<Op>, i: nat): nat
    requires i <= |ops| < |xs|
  {
    if i == 0 then 0 else Turns(xs, ops, i - 1) + if ops[i - 1].Pop? && Wanted(xs[i - 1]).Some? then 1 else 0
  }

  lemma PopTurn(s: Jitter)
    requires s.targetDepth >= 1
    ensures var (t, out) := AfterPop(s);
            && t.framesPlayed == s.framesPlayed + (if out.Some? then 1 else 0)
            && t.playoutMisses == s.playoutMisses + (if Wanted(s).Some? && out.None? then 1 else 0)
            && (out.Some? ==> Wanted(s).Some?)
  {
    hide RecoveryThreshold, Valid;
    if !s.started && |s.waiting| >= s.targetDepth { assert s.waiting != map[]; }
  }

  lemma PushTurn(s: Jitter, seqNo: nat, frame: Frame)
    ensures var t := AfterPush(s, seqNo, frame); t.framesPlayed == s.framesPlayed && t.playoutMisses == s.playoutMisses
  {
    hide RecoveryThreshold, Valid;
  }

  lemma TurnStep(s: Jitter, op: Op, t: Jitter)
    requires s.targetDepth >= 1 && t == Step(s, op).0
    ensures var played := if op.Pop? && AfterPop(s).1.Some? then 1 else 0;
            && t.framesPlayed == s.framesPlayed + played
            && t.playoutMisses == s.playoutMisses + (if op.Pop? && Wanted(s).Some? then 1 - played else 0)
            && (played == 1 ==> Wanted(s).Some?)
  {
    hide AfterPop, AfterPush, Wanted;
    match op
    case Push(seqNo, frame) => PushTurn(s, seqNo, frame);
    case Pop => PopTurn(s);
  }

  /** The two counters the loss display is made of: every pop that had a turn is counted once, as
      a frame played or as a miss. */
  lemma {:induction false} TurnsAreCounted(xs: seq<Jitter>, ops: seq<Op>, i: nat)
    requires IsRun(xs, ops) && i <= |ops|
    ensures Turns(xs, ops, i) == (xs[i].framesPlayed - xs[0].framesPlayed) + (xs[i].playoutMisses - xs[0].playoutMisses)
  {
    hide Step, Valid, AfterPop, Wanted;
    if i > 0 {
      TurnsAreCounted(xs, ops, i - 1);
      RunKeepsValid(xs, ops, i - 1);
      TurnStep(xs[i - 1], ops[i - 1], xs[i]);
    }
  }

  function PushedNumbers(ops: seq<Op>, i: nat): set<nat>
    requires i <= |ops|
  {
    if i == 0 then {}
    else PushedNumbers(ops, i - 1) + if ops[i - 1].Push? then {ops[i - 1].seqNo} else {}
  }

  lemma FillStep(s: Jitter, op: Op, t: Jitter)
    requires Valid(s) && t == Step(s, op).0 && !s.started && op.Push?
    ensures !t.started
    ensures |t.waiting| == s.maxDepth || t.waiting.Keys == s.waiting.Keys + {op.seqNo}
    ensures |s.waiting| == s.maxDepth ==> |t.waiting| == s.maxDepth
  {
    var stored := s.(waiting := s.waiting[op.seqNo := op.frame]);
    assert stored.waiting.Keys == s.waiting.Keys + {op.seqNo};
    if |stored.waiting| > s.maxDepth { DropOldestDepth(stored); }
  }

  lemma {:induction false} FillKeeps(xs: seq<Jitter>, ops: seq<Op>, i: nat)
    requires IsRun(xs, ops) && !xs[0].started && i <= |ops|
    requires forall k | 0 <= k < |ops| :: ops[k].Push?
    ensures !xs[i].started
    ensures |xs[i].waiting| == xs[0].maxDepth || PushedNumbers(ops, i) <= xs[i].waiting.Keys
  {
    hide Step, Valid;
    if i > 0 {
      FillKeeps(xs, ops, i - 1);
      RunKeepsValid(xs, ops, i - 1);
      FillStep(xs[i - 1], ops[i - 1], xs[i]);
    }
  }

  lemma {:induction false} SubsetSize(a: set<nat>, b: set<nat>)
    requires a <= b
    ensures |a| <= |b|
  {
    if a != {} {
      var x :| x in a;
      SubsetSize(a - {x}, b - {x});
    }
  }

  /** Filling up always succeeds: from any buffer that is not playing, any pushes of
      `targetDepth` distinct numbers make the next pop play the lowest-numbered waiting frame. */
  lemma FillRestartsPlayback(xs: seq<Jitter>, ops: seq<Op>)
    requires IsRun(xs, ops) && !xs[0].started
    requires forall k | 0 <= k < |ops| :: ops[k].Push?
    requires |PushedNumbers(ops, |ops|)| >= xs[0].targetDepth
    ensures var s := xs[|ops|];
            && s.waiting != map[] && s.targetDepth >= 1
            && AfterPop(s).1 == Some(s.waiting[Least(s.waiting.Keys)])
            && AfterPop(s).0.started
  {
    FillKeeps(xs, ops, |ops|);
    RunKeepsValid(xs, ops, |ops|);
    var s := xs[|ops|];
    if |s.waiting| < s.maxDepth {
      SubsetSize(PushedNumbers(ops, |ops|), s.waiting.Keys);
    }
    assert |s.waiting.Keys| >= s.targetDepth;
  }
}

/** The audio reorder buffer (src/audio/jitter_buffer.cpp).

    `Jitter` is the buffer's state as a value; `AfterPush` and `AfterPop` say what one
    call does to it, and class `JitterBuffer` is the buffer itself, updated in place. */
module JitterBuffer {
  import opened Common

  type Frame = seq<byte>

  const MAX_CONSECUTIVE_MISSES: nat := 40

  /** How far below the ceiling the depth must drain before an overflow episode ends. */
  function Margin(maxDepth: nat): nat { Max(1, maxDepth / 10) }

  function RecoveryThreshold(maxDepth: nat): nat {
    if Margin(maxDepth) < maxDepth then maxDepth - Margin(maxDepth) else 0
  }

  datatype Jitter = Jitter(
    targetDepth: nat,
    maxDepth: nat,
    waiting: map<nat, Frame>,
    started: bool,
    nextSeq: nat,
    atCap: bool,
    capEpisodes: nat,
    droppedAtCap: nat,
    playoutMisses: nat,
    framesPlayed: nat,
    consecutiveMisses: nat)

  function Empty(targetDepth: nat, maxDepth: nat): Jitter {
    Jitter(targetDepth, Max(maxDepth, targetDepth), map[], false, 0, false, 0, 0, 0, 0, 0)
  }

  /** What holds between any two calls. */
  ghost predicate Valid(s: Jitter) {
    && 1 <= s.targetDepth <= s.maxDepth
    && |s.waiting| <= s.maxDepth
    && s.consecutiveMisses < MAX_CONSECUTIVE_MISSES
    && (!s.started ==> s.consecutiveMisses == 0)
    && (s.started ==> forall k | k in s.waiting :: s.nextSeq <= k)
    && (s.atCap ==> |s.waiting| > RecoveryThreshold(s.maxDepth))
  }

  function ClearAtCapIfRecovered(s: Jitter): Jitter {
    if s.atCap && |s.waiting| <= RecoveryThreshold(s.maxDepth) then s.(atCap := false) else s
  }

  /** One turn of the overflow loop: the oldest frame goes and playback skips past it. */
  function DropOldest(s: Jitter): Jitter
    requires s.waiting != map[]
  {
    var oldest := Least(s.waiting.Keys);
    s.(waiting := s.waiting - {oldest},
       nextSeq := if s.started && oldest >= s.nextSeq then oldest + 1 else s.nextSeq)
  }

  lemma DropOldestDepth(s: Jitter)
    requires s.waiting != map[]
    ensures |DropOldest(s).waiting| == |s.waiting| - 1
  {
    assert DropOldest(s).waiting.Keys == s.waiting.Keys - {Least(s.waiting.Keys)};
  }

  /** `push`: a late frame is ignored; otherwise it is stored, and at most one frame -- the
      oldest -- is dropped to keep the depth at the ceiling. */
  function AfterPush(s: Jitter, seqNo: nat, frame: Frame): (t: Jitter)
    ensures t.targetDepth == s.targetDepth && t.maxDepth == s.maxDepth
  {
    if s.started && seqNo < s.nextSeq then s
    else
      var stored := s.(waiting := s.waiting[seqNo := frame]);
      if |stored.waiting| > s.maxDepth then
        var d := DropOldest(stored);
        d.(atCap := true,
           capEpisodes := if s.atCap then s.capEpisodes else s.capEpisodes + 1,
           droppedAtCap := s.droppedAtCap + 1)
      else
        ClearAtCapIfRecovered(stored)
  }

  /** `pop` before it looks anything up: playback starts once enough frames wait. */
  function Started(s: Jitter): Jitter
    requires s.started || (|s.waiting| >= s.targetDepth && s.waiting != map[])
  {
    if s.started then s
    else s.(started := true, nextSeq := Least(s.waiting.Keys), consecutiveMisses := 0)
  }

  /** The due frame is here: play it. */
  function Hit(s: Jitter): Jitter {
    s.(nextSeq := s.nextSeq + 1, consecutiveMisses := 0, framesPlayed := s.framesPlayed + 1,
       waiting := s.waiting - {s.nextSeq})
  }

  /** The due frame is missing: skip it, and after 40 misses in a row start over. */
  function Miss(s: Jitter): Jitter {
    s.(nextSeq := s.nextSeq + 1, consecutiveMisses := s.consecutiveMisses + 1,
       playoutMisses := s.playoutMisses + 1)
  }

  function Resync(s: Jitter): Jitter {
    s.(started := false, consecutiveMisses := 0, waiting := map[])
  }

  function Serve(s: Jitter): (Jitter, Option<Frame>) {
    if s.nextSeq in s.waiting then (ClearAtCapIfRecovered(Hit(s)), Some(s.waiting[s.nextSeq]))
    else if Miss(s).consecutiveMisses < MAX_CONSECUTIVE_MISSES then (Miss(s), None)
    else (ClearAtCapIfRecovered(Resync(Miss(s))), None)
  }

  function AfterPop(s: Jitter): (r: (Jitter, Option<Frame>))
    requires s.targetDepth >= 1
    ensures r.0.targetDepth == s.targetDepth && r.0.maxDepth == s.maxDepth
  {
    if !s.started && |s.waiting| < s.targetDepth then (s, None)
    else Serve(Started(s))
  }

  lemma PushKeepsValid(s: Jitter, seqNo: nat, frame: Frame)
    requires Valid(s)
    ensures Valid(AfterPush(s, seqNo, frame))
  {
    if !(s.started && seqNo < s.nextSeq) {
      var stored := s.(waiting := s.waiting[seqNo := frame]);
      assert stored.waiting.Keys == s.waiting.Keys + {seqNo};
      if |stored.waiting| > s.maxDepth { DropOldestDepth(stored); }
    }
  }

  lemma PopKeepsValid(s: Jitter)
    requires Valid(s)
    ensures Valid(AfterPop(s).0)
  {
    if s.started || |s.waiting| >= s.targetDepth {
      var t := Started(s);
      if t.nextSeq in t.waiting {
        assert (t.waiting - {t.nextSeq}).Keys == t.waiting.Keys - {t.nextSeq};
      }
    }
  }

  class JitterBuffer {
    const targetDepth: nat
    const maxDepth: nat
    const recoveryThreshold: nat
    var waiting: map<nat, Frame>
    var started: bool
    var nextSeq: nat
    var atCap: bool
    var capEpisodes: nat
    var droppedAtCap: nat
    var playoutMisses: nat
    var framesPlayed: nat
    var consecutiveMisses: nat

    ghost function View(): Jitter
      reads this
    {
      Jitter(targetDepth, maxDepth, waiting, started, nextSeq, atCap, capEpisodes, droppedAtCap,
             playoutMisses, framesPlayed, consecutiveMisses)
    }

    ghost predicate Ok()
      reads this
    {
      Valid(View()) && recoveryThreshold == RecoveryThreshold(maxDepth)
    }

    constructor (targetDepth: nat, maxDepth: nat)
      ensures View() == Empty(targetDepth, maxDepth) && recoveryThreshold == RecoveryThreshold(this.maxDepth)
      ensures targetDepth >= 1 ==> Ok()
      ensures this.targetDepth == targetDepth && this.maxDepth == Max(maxDepth, targetDepth)
      ensures waiting == map[] && !started && !atCap && capEpisodes == droppedAtCap == playoutMisses == framesPlayed == 0
    {
      this.targetDepth := targetDepth;
      this.maxDepth := if maxDepth < targetDepth then targetDepth else maxDepth;
      this.recoveryThreshold := RecoveryThreshold(if maxDepth < targetDepth then targetDepth else maxDepth);
      waiting, started, nextSeq, atCap := map[], false, 0, false;
      capEpisodes, droppedAtCap, playoutMisses, framesPlayed, consecutiveMisses := 0, 0, 0, 0, 0;
    }

    method Depth() returns (n: nat)
      requires Ok()
      ensures n == |waiting| <= maxDepth
    {
      n := |waiting|;
    }

    method ClearIfRecovered()
      requires recoveryThreshold == RecoveryThreshold(maxDepth)
      modifies this`atCap
      ensures View() == ClearAtCapIfRecovered(old(View()))
    {
      if atCap && |waiting| <= recoveryThreshold {
        atCap := false;
      }
    }

    method Push(seqNo: nat, frame: Frame)
      requires Ok()
      modifies this
      ensures Ok() && View() == AfterPush(old(View()), seqNo, frame)
    {
      PushKeepsValid(View(), seqNo, frame);
      hide Valid, DropOldest, ClearAtCapIfRecovered;
      if started && seqNo < nextSeq {
        return;
      }
      ghost var stored := View().(waiting := waiting[seqNo := frame]);
      assert stored.waiting.Keys == waiting.Keys + {seqNo};
      waiting := waiting[seqNo := frame];
      var dropped := DropExcess();
      if dropped > 0 {
        Overflowed(dropped);
        assert View() == AfterPush(old(View()), seqNo, frame);
      } else {
        assert View() == stored;
        ClearIfRecovered();
        assert View() == AfterPush(old(View()), seqNo, frame);
      }
    }

    /** Counts the dropped frames, and a new episode unless one is already running. */
    method Overflowed(dropped: nat)
      modifies this`atCap, this`capEpisodes, this`droppedAtCap
      ensures View() == old(View()).(atCap := true, droppedAtCap := old(droppedAtCap) + dropped,
                                     capEpisodes := if old(atCap) then old(capEpisodes) else old(capEpisodes) + 1)
    {
      if !atCap {
        atCap := true;
        capEpisodes := capEpisodes + 1;
      }
      droppedAtCap := droppedAtCap + dropped;
    }

    /** The overflow loop of `push`. */
    method DropExcess() returns (dropped: nat)
      requires |waiting| <= maxDepth + 1
      modifies this`waiting, this`nextSeq
      ensures dropped == (if |old(waiting)| > maxDepth then 1 else 0)
      ensures View() == if dropped == 0 then old(View()) else DropOldest(old(View()))
    {
      dropped := 0;
      while |waiting| > maxDepth
        invariant dropped <= 1
        invariant dropped == 0 ==> View() == old(View())
        invariant dropped == 1 ==> |old(waiting)| > maxDepth && View() == DropOldest(old(View())) && |waiting| <= maxDepth
        decreases |waiting|
      {
        DropOldestDepth(View());
        var oldest := Least(waiting.Keys);
        if started && oldest >= nextSeq {
          nextSeq := oldest + 1;
        }
        waiting := waiting - {oldest};
        dropped := dropped + 1;
      }
    }

    method Pop() returns (frame: Option<Frame>)
      requires Ok()
      modifies this
      ensures Ok() && (View(), frame) == AfterPop(old(View()))
    {
      ghost var before := View();
      PopKeepsValid(before);
      if !started {
        if |waiting| < targetDepth {
          return None;
        }
        started, nextSeq, consecutiveMisses := true, Least(waiting.Keys), 0;
      }
      frame := ServeNext();
    }

    /** The second half of `pop`: look the due frame up, then play it or count a miss. */
    method ServeNext() returns (frame: Option<Frame>)
      requires recoveryThreshold == RecoveryThreshold(maxDepth)
      modifies this
      ensures (View(), frame) == Serve(old(View()))
    {
      var wanted := nextSeq;
      nextSeq := nextSeq + 1;
      if wanted !in waiting {
        consecutiveMisses, playoutMisses := consecutiveMisses + 1, playoutMisses + 1;
        assert View() == Miss(old(View()));
        if consecutiveMisses >= MAX_CONSECUTIVE_MISSES {
          started, consecutiveMisses, waiting := false, 0, map[];
          assert View() == Resync(Miss(old(View())));
          ClearIfRecovered();
        }
        return None;
      }
      frame := Some(waiting[wanted]);
      consecutiveMisses, framesPlayed, waiting := 0, framesPlayed + 1, waiting - {wanted};
      assert View() == Hit(old(View()));
      ClearIfRecovered();
    }
  }
}

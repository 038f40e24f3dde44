/** Losses over the last window (src/app/audio_loss_window.h). */
module AudioLossWindow {
  import opened Common
  import opened RollingWindow

  datatype Counters = Counters(misses: nat, played: nat)

  /** The newest record of the segment that is at least one window old. */
  ghost predicate IsAnchor(h: seq<Sample<Counters>>, window: int, i: nat) {
    && SegmentStart(h, window) <= i < |h| && Age(h, i) >= window
    && forall j | i < j < |h| :: Age(h, j) < window
  }

  class AudioLossWindow {
    const window: int
    var samples: seq<Sample<Counters>>
    var firstSampleAt: int
    var hasFirstSample: bool
    var ready: bool
    ghost var history: seq<Sample<Counters>>       // every record since the last reset

    /** The kept samples are the end of the history, from the anchor on if there is one. */
    ghost predicate Valid()
      reads this
    {
      && window > 0 && Ordered(history)
      && |samples| <= |history| && samples == history[|history| - |samples|..]
      && (history == [] ==> !ready)
      && hasFirstSample == (history != [])
      && (history != [] ==>
            && samples != [] && firstSampleAt == history[SegmentStart(history, window)].at
            && ready == Ready(history, window)
            && Keeps(history, window, |history| - |samples|))
    }

    constructor (window: int)
      requires window > 0
      ensures Valid() && history == [] && this.window == window
    {
      this.window := window;
      samples := [];
      hasFirstSample, ready, firstSampleAt := false, false, 0;
      history := [];
    }

    method Record(now: int, misses: nat, played: nat)
      requires Valid() && (history != [] ==> history[|history| - 1].at <= now)
      modifies this
      ensures Valid() && history == old(history) + [Sample(now, Counters(misses, played))]
    {
      hide Ordered, SegmentStart, Age, Keeps;
      Append(Sample(now, Counters(misses, played)));
      Evict(now);
      ready := now - firstSampleAt >= window;
      KeepsRest(history, window, |history| - |samples|);
      ReadyMeans(history, window);
    }

    /** The new sample, after whatever a gap leaves. */
    method Append(sample: Sample<Counters>)
      requires Valid() && (history != [] ==> history[|history| - 1].at <= sample.at)
      modifies this`samples, this`hasFirstSample, this`firstSampleAt, this`history
      ensures history == old(history) + [sample] && Ordered(history) && hasFirstSample
      ensures 0 < |samples| <= |history| && samples == history[|history| - |samples|..]
      ensures firstSampleAt == history[SegmentStart(history, window)].at
      ensures var front, start := |history| - |samples|, SegmentStart(history, window);
              start <= front && (front == start || Age(history, front) >= window)
    {
      hide Ordered, SegmentStart, Keeps, Ready, Age;
      ghost var before := history;
      ghost var front := if Gap(history, sample, window) then |history| else |history| - |samples|;
      KeepsAfter(before, sample, window, front);
      SegmentExtends(before, sample, window);
      SuffixGrows(before, sample, front);
      ClearAfterGap(sample);
      assert samples == before[front..];
      if !hasFirstSample {
        firstSampleAt := sample.at;
        hasFirstSample := true;
      }
      samples := samples + [sample];
      history := history + [sample];
    }

    /** A gap longer than the window empties it. */
    method ClearAfterGap(sample: Sample<Counters>)
      requires Valid()
      modifies this`samples, this`hasFirstSample
      ensures samples == if Gap(history, sample, window) then [] else old(samples)
      ensures hasFirstSample == !Gap(history, sample, window)
    {
      if samples != [] && sample.at - samples[|samples| - 1].at > window {
        samples := [];
        hasFirstSample := false;
      }
    }

    /** Drops the front while the next sample is itself at least one window old. */
    method Evict(now: int)
      requires window > 0 && 0 < |samples| <= |history| && samples == history[|history| - |samples|..]
      requires now == history[|history| - 1].at
      modifies this`samples
      ensures 0 < |samples| <= old(|samples|) && samples == history[|history| - |samples|..]
      ensures |samples| == old(|samples|) || Age(history, |history| - |samples|) >= window
      ensures |samples| > 1 ==> Age(history, |history| - |samples| + 1) < window
    {
      while |samples| > 1 && now - samples[1].at >= window
        invariant 0 < |samples| <= old(|samples|) && samples == history[|history| - |samples|..]
        invariant |samples| == old(|samples|) || Age(history, |history| - |samples|) >= window
      {
        samples := samples[1..];
      }
    }

    method Reset()
      requires Valid()
      modifies this
      ensures Valid() && history == []
    {
      samples := [];
      hasFirstSample := false;
      ready := false;
      history := [];
    }

    /** Ready exactly when the current gap-free segment is at least one window old; the reading is
        then the difference between the newest record and the newest one at least a window old. */
    method Reading() returns (isReady: bool, misses: nat, attempts: nat)
      requires Valid()
      ensures isReady == Ready(history, window)
      ensures if !isReady then misses == attempts == 0 else
                exists i: nat :: IsAnchor(history, window, i) &&
                  var newest, oldest := history[|history| - 1].value, history[i].value;
                  misses == Max(0, newest.misses - oldest.misses)
                  && attempts == misses + Max(0, newest.played - oldest.played)
    {
      isReady, misses, attempts := ready, 0, 0;
      if !ready || samples == [] {
        return;
      }
      var oldest, newest := samples[0], samples[|samples| - 1];
      misses := if newest.value.misses >= oldest.value.misses then newest.value.misses - oldest.value.misses else 0;
      var playedDelta := if newest.value.played >= oldest.value.played then newest.value.played - oldest.value.played else 0;
      attempts := misses + playedDelta;
      assert IsAnchor(history, window, |history| - |samples|);
    }
  }

  /** `front` is where the kept samples begin: at the anchor, or at the segment's start if no record
      of the segment is old enough yet. */
  ghost predicate Keeps(h: seq<Sample<Counters>>, window: int, front: nat) {
    && SegmentStart(h, window) <= front < |h|
    && (front == SegmentStart(h, window) || Age(h, front) >= window)
    && forall j | front < j < |h| :: Age(h, j) < window
  }

  /** Before eviction, the samples still begin where the segment does or at an old record. */
  lemma KeepsAfter(h: seq<Sample<Counters>>, s: Sample<Counters>, window: int, front: nat)
    requires window > 0 && Ordered(h) && (h != [] ==> h[|h| - 1].at <= s.at)
    requires if Gap(h, s, window) then front == |h| else Keeps(h, window, front)
    ensures var more := h + [s];
            && SegmentStart(more, window) <= front < |more|
            && (front == SegmentStart(more, window) || Age(more, front) >= window)
  {
    assert (h + [s])[..|h|] == h;
  }

  /** When eviction stops, nothing behind the front is old enough. */
  lemma KeepsRest(h: seq<Sample<Counters>>, window: int, front: nat)
    requires window > 0 && Ordered(h) && SegmentStart(h, window) <= front < |h|
    requires front == SegmentStart(h, window) || Age(h, front) >= window
    requires front + 1 < |h| ==> Age(h, front + 1) < window
    ensures Keeps(h, window, front)
  {
  }

  lemma ReadyMeans(h: seq<Sample<Counters>>, window: int)
    requires h != []
    ensures Ready(h, window) <==> h[|h| - 1].at - h[SegmentStart(h, window)].at >= window
  {
  }

  /** There is one anchor exactly when the window is ready, and what it spans is at least one
      window and less than two: the label "last window" is honest. */
  lemma {:induction false} AnchorSpansOneWindow(h: seq<Sample<Counters>>, window: int, i: nat)
    requires window > 0 && Ordered(h) && IsAnchor(h, window, i)
    ensures Ready(h, window) && window <= Age(h, i) < 2 * window
    ensures forall k: nat | IsAnchor(h, window, k) :: k == i
  {
    SegmentIsGapFree(h, window);
    assert i + 1 < |h|;
    assert h[i + 1].at - h[i].at <= window;
    assert Age(h, i + 1) < window;
  }

  lemma {:induction false} ReadyHasAnchor(h: seq<Sample<Counters>>, window: int, i: nat) returns (anchor: nat)
    requires window > 0 && Ordered(h) && Ready(h, window) && i < |h|
    requires SegmentStart(h, window) <= i && forall j | i < j < |h| :: Age(h, j) < window
    ensures IsAnchor(h, window, anchor)
    decreases i
  {
    if Age(h, i) >= window {
      anchor := i;
    } else {
      anchor := ReadyHasAnchor(h, window, i - 1);
    }
  }
}

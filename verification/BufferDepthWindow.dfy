/** The deepest the jitter buffer has been over the last window (src/app/buffer_depth_window.h). */
module BufferDepthWindow {
  import opened Common
  import opened RollingWindow

  /** `m` is the largest depth among the records that are no older than the window. */
  ghost predicate IsRecentMaximum(h: seq<Sample<nat>>, window: int, m: nat) {
    && (forall i: nat | i < |h| && Age(h, i) <= window :: h[i].value <= m)
    && (h == [] ==> m == 0)
    && (h != [] ==> exists i: nat :: i < |h| && Age(h, i) <= window && h[i].value == m)
  }

  class BufferDepthWindow {
    const window: int
    var samples: seq<Sample<nat>>
    var firstSampleAt: int
    var hasFirstSample: bool
    var ready: bool
    ghost var history: seq<Sample<nat>>            // every record since the last reset

    /** The kept samples are exactly the records no older than the window. */
    ghost predicate Valid()
      reads this
    {
      && window >= 0 && Ordered(history)
      && |samples| <= |history| && samples == history[|history| - |samples|..]
      && hasFirstSample == (history != []) && (history == [] ==> !ready)
      && (history != [] ==>
            && samples != [] && firstSampleAt == history[SegmentStart(history, window)].at
            && ready == Ready(history, window)
            && forall i: nat | i < |history| :: i >= |history| - |samples| <==> Age(history, i) <= window)
    }

    constructor (window: int)
      requires window >= 0
      ensures Valid() && history == [] && this.window == window
    {
      this.window := window;
      samples := [];
      hasFirstSample, ready, firstSampleAt := false, false, 0;
      history := [];
    }

    method Record(now: int, depth: nat)
      requires Valid() && (history != [] ==> history[|history| - 1].at <= now)
      modifies this
      ensures Valid() && history == old(history) + [Sample(now, depth)]
    {
      hide SegmentStart, Ordered;
      Append(Sample(now, depth));
      Evict(now);
      ready := now - firstSampleAt >= window;
    }

    /** The new sample, after whatever a gap leaves. */
    method Append(sample: Sample<nat>)
      requires Valid() && (history != [] ==> history[|history| - 1].at <= sample.at)
      modifies this
      ensures history == old(history) + [sample] && Ordered(history) && hasFirstSample
      ensures 0 < |samples| <= |history| && samples == history[|history| - |samples|..]
      ensures firstSampleAt == history[SegmentStart(history, window)].at
      ensures forall i: nat | i < |history| - |samples| :: Age(history, i) > window
    {
      hide Ordered, SegmentStart, Ready, Age;
      ghost var before := history;
      ghost var front := if Gap(history, sample, window) then |history| else |history| - |samples|;
      OldStaysOld(before, sample, window, front);
      SegmentExtends(before, sample, window);
      SuffixGrows(before, sample, front);
      if samples != [] && sample.at - samples[|samples| - 1].at > window {
        samples := [];
        hasFirstSample := false;
        ready := false;
      }
      if !hasFirstSample {
        firstSampleAt := sample.at;
        hasFirstSample := true;
      }
      assert samples == before[front..];
      samples := samples + [sample];
      history := history + [sample];
    }

    /** Drops every sample older than the window. */
    method Evict(now: int)
      requires window >= 0 && 0 < |samples| <= |history| && samples == history[|history| - |samples|..]
      requires now == history[|history| - 1].at && Ordered(history)
      requires forall i: nat | i < |history| - |samples| :: Age(history, i) > window
      modifies this`samples
      ensures 0 < |samples| <= |history| && samples == history[|history| - |samples|..]
      ensures forall i: nat | i < |history| :: i >= |history| - |samples| <==> Age(history, i) <= window
    {
      while samples != [] && now - samples[0].at > window
        invariant 0 < |samples| <= |history| && samples == history[|history| - |samples|..]
        invariant forall i: nat | i < |history| - |samples| :: Age(history, i) > window
      {
        samples := samples[1..];
      }
    }

    method Reset()
      requires Valid()
      modifies this
      ensures Valid() && history == []
    {
      samples := [];
      hasFirstSample := false;
      ready := false;
      history := [];
    }

    method IsReady() returns (r: bool)
      requires Valid()
      ensures r == Ready(history, window)
    {
      r := ready;
    }

    /** The maximum over the whole history as far as it is recent enough. */
    method Maximum() returns (result: nat)
      requires Valid()
      ensures IsRecentMaximum(history, window, result)
    {
      result := 0;
      for i := 0 to |samples|
        invariant forall j | 0 <= j < i :: samples[j].value <= result
        invariant i > 0 ==> exists j :: 0 <= j < i && samples[j].value == result
        invariant i == 0 ==> result == 0
      {
        result := Max(result, samples[i].value);
        if result == samples[i].value { assert samples[i].value == result; }
      }
      ghost var front := |history| - |samples|;
      if history != [] {
        var j: nat :| j < |samples| && samples[j].value == result;
        assert history[front + j].value == result && Age(history, front + j) <= window;
      }
      forall i: nat | i < |history| && Age(history, i) <= window ensures history[i].value <= result {
        assert samples[i - front] == history[i];
      }
    }
  }

  /** The recent maximum is one number. */
  lemma RecentMaximumIsUnique(h: seq<Sample<nat>>, window: int, m: nat, n: nat)
    requires IsRecentMaximum(h, window, m) && IsRecentMaximum(h, window, n)
    ensures m == n
  {
  }

  /** Records that were too old stay so, and after a gap all of them are. */
  lemma OldStaysOld(h: seq<Sample<nat>>, s: Sample<nat>, window: int, front: nat)
    requires Ordered(h) && (h != [] ==> h[|h| - 1].at <= s.at) && front <= |h|
    requires if Gap(h, s, window) then front == |h|
             else forall i: nat | i < front :: Age(h, i) > window
    ensures forall i: nat | i < front :: Age(h + [s], i) > window
  {
    forall i: nat | i < front ensures Age(h + [s], i) > window {
      assert h[i].at <= h[|h| - 1].at;
      if s.at - h[|h| - 1].at <= window { assert Age(h, i) > window; }
    }
  }
}

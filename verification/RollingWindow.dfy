/** What the two rolling windows of src/app have in common: a history of timed samples, cut where
    the samples stopped coming for longer than the window. */
module RollingWindow {

  datatype Sample<T> = Sample(at: int, value: T)

  ghost predicate Ordered<T>(h: seq<Sample<T>>) { forall i, j | 0 <= i <= j < |h| :: h[i].at <= h[j].at }

  /** How old record `i` was when the newest was made. */
  function Age<T>(h: seq<Sample<T>>, i: nat): int
    requires i < |h|
  {
    h[|h| - 1].at - h[i].at
  }

  /** Where the current segment begins. */
  function SegmentStart<T>(h: seq<Sample<T>>, window: int): (i: nat)
    ensures h != [] ==> i < |h|
  {
    if |h| <= 1 then 0
    else if h[|h| - 1].at - h[|h| - 2].at > window then |h| - 1
    else SegmentStart(h[..|h| - 1], window)
  }

  /** It is the longest run of records up to now without a gap longer than the window. */
  lemma {:induction false} SegmentIsGapFree<T>(h: seq<Sample<T>>, window: int)
    requires h != []
    ensures var s := SegmentStart(h, window);
            && (forall i | s < i < |h| :: h[i].at - h[i - 1].at <= window)
            && (s > 0 ==> h[s].at - h[s - 1].at > window)
  {
    if |h| > 1 && h[|h| - 1].at - h[|h| - 2].at <= window {
      var front := h[..|h| - 1];
      SegmentIsGapFree(front, window);
      var s := SegmentStart(h, window);
      forall i | s < i < |h| ensures h[i].at - h[i - 1].at <= window {
        if i < |front| { assert front[i].at - front[i - 1].at <= window; }
      }
    }
  }

  /** A full window has been observed since the segment began. */
  predicate Ready<T>(h: seq<Sample<T>>, window: int) { h != [] && Age(h, SegmentStart(h, window)) >= window }

  lemma SegmentExtends<T>(h: seq<Sample<T>>, s: Sample<T>, window: int)
    requires Ordered(h) && (h != [] ==> h[|h| - 1].at <= s.at)
    ensures Ordered(h + [s])
    ensures SegmentStart(h + [s], window) ==
              if h == [] then 0 else if s.at - h[|h| - 1].at > window then |h| else SegmentStart(h, window)
  {
    assert (h + [s])[..|h|] == h;
  }

  /** The samples stopped coming for longer than the window before `s`, or there were none. */
  predicate Gap<T>(h: seq<Sample<T>>, s: Sample<T>, window: int) { h == [] || s.at - h[|h| - 1].at > window }
}

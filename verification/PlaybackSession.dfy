/** A whole listening session: any number of device periods of any size, with packets arriving
    between and during them. The sound heard is the playout schedule's packets, end to end. */
module PlaybackSession {
  import opened Common
  import opened JitterBuffer
  import opened PlayoutSchedule
  import opened Playback

  datatype Period = Period(bytes: nat, arrivals: seq<Batch>)

  function Listen(p: Player, periods: seq<Period>): (r: Filled)
    requires ValidPlayer(p)
    ensures ValidPlayer(r.player)
    decreases |periods|
  {
    if periods == [] then Filled(p, [], [])
    else
      var first := Fill(p, periods[0].bytes, periods[0].arrivals);
      var rest := Listen(first.player, periods[1..]);
      Filled(rest.player, first.sound + rest.sound, first.ops + rest.ops)
  }

  lemma Chain(a: seq<byte>, restA: seq<byte>, before: seq<byte>, packetsA: seq<byte>,
              b: seq<byte>, restB: seq<byte>, packetsB: seq<byte>)
    requires a + restA == before + packetsA
    requires b + restB == restA + packetsB
    ensures (a + b) + restB == before + (packetsA + packetsB)
  {
    assert (a + b) + restB == a + (b + restB);
    assert a + (restA + packetsB) == (a + restA) + packetsB;
  }

  lemma ThenConserves(p: Player, a: Filled, b: Filled)
    requires ValidPlayer(p) && ValidPlayer(a.player) && ValidPlayer(b.player)
    requires Conserves(p, a) && Conserves(a.player, b)
    ensures Conserves(p, Filled(b.player, a.sound + b.sound, a.ops + b.ops))
  {
    hide Valid, Final, Played, Concat;
    FinalAppend(p.jitter, a.ops, b.ops);
    PlayedAppend(p.jitter, a.ops, b.ops);
    var first, second := Played(p.jitter, a.ops), Played(a.player.jitter, b.ops);
    ConcatAppend(first, second);
    Chain(a.sound, Rest(a.player), Rest(p), Concat(first), b.sound, Rest(b.player), Concat(second));
  }

  /** Over any session the sound heard is the popped packets in order, less the current carry. */
  lemma {:induction false} ListenConserves(p: Player, periods: seq<Period>)
    requires ValidPlayer(p)
    ensures Conserves(p, Listen(p, periods))
    decreases |periods|
  {
    if periods != [] {
      hide Valid, Conserves, Fill;
      var first := Fill(p, periods[0].bytes, periods[0].arrivals);
      FillConserves(p, periods[0].bytes, periods[0].arrivals);
      ListenConserves(first.player, periods[1..]);
      ThenConserves(p, first, Listen(first.player, periods[1..]));
    }
  }

  /** The packets that arrived in time for calls `0` to `i`, read off the raw history alone:
      the k-th pop is due number `first + k`. */
  function OnTime(base: map<nat, Frame>, ops: seq<Op>, first: nat, i: nat): seq<Frame>
    requires i <= |ops|
  {
    if i == 0 then []
    else
      var due := LatestArrival(base, ops, 0, i - 1, first + Pops(ops, i - 1));
      OnTime(base, ops, first, i - 1) + if ops[i - 1].Pop? && due.Some? then [due.value] else []
  }

  function PlayedBy(xs: seq<Jitter>, ops: seq<Op>, i: nat): seq<Frame>
    requires i <= |ops| < |xs| && forall k | 0 <= k < |xs| :: xs[k].targetDepth >= 1
  {
    if i == 0 then []
    else
      var out := Step(xs[i - 1], ops[i - 1]).1;
      PlayedBy(xs, ops, i - 1) + if out.Some? then [out.value] else []
  }

  lemma {:induction false} TraceDepths(s: Jitter, ops: seq<Op>, k: nat)
    requires Valid(s) && k <= |ops|
    ensures Trace(s, ops)[k].targetDepth >= 1
  {
    TraceIsRun(s, ops);
    RunKeepsValid(Trace(s, ops), ops, k);
  }

  lemma {:induction false} PlayedByShift(xs: seq<Jitter>, ops: seq<Op>, i: nat)
    requires 1 <= i <= |ops| < |xs| && forall k | 0 <= k < |xs| :: xs[k].targetDepth >= 1
    ensures var out := Step(xs[0], ops[0]).1;
            PlayedBy(xs, ops, i) == (if out.Some? then [out.value] else []) + PlayedBy(xs[1..], ops[1..], i - 1)
  {
    hide Step;
    if i == 1 {
      assert PlayedBy(xs, ops, 0) == [];
    } else {
      PlayedByShift(xs, ops, i - 1);
      assert xs[1..][i - 2] == xs[i - 1] && ops[1..][i - 2] == ops[i - 1];
    }
  }

  lemma {:induction false} PlayedIsPlayedBy(s: Jitter, ops: seq<Op>)
    requires Valid(s)
    ensures forall k | 0 <= k <= |ops| :: Trace(s, ops)[k].targetDepth >= 1
    ensures Played(s, ops) == PlayedBy(Trace(s, ops), ops, |ops|)
    decreases |ops|
  {
    forall k | 0 <= k <= |ops| ensures Trace(s, ops)[k].targetDepth >= 1 { TraceDepths(s, ops, k); }
    hide Step, Valid;
    if ops != [] {
      StepKeepsValid(s, ops[0]);
      var t := Step(s, ops[0]).0;
      PlayedIsPlayedBy(t, ops[1..]);
      PlayedByShift(Trace(s, ops), ops, |ops|);
      assert Trace(s, ops)[1..] == Trace(t, ops[1..]);
    }
  }

  lemma {:induction false} PlayedByIsOnTime(xs: seq<Jitter>, ops: seq<Op>, i: nat)
    requires IsRun(xs, ops) && Steady(xs) && i <= |ops|
    requires forall k | 0 <= k < |xs| :: xs[k].targetDepth >= 1
    ensures PlayedBy(xs, ops, i) == OnTime(xs[0].waiting, ops, xs[0].nextSeq, i)
  {
    hide AfterPop, AfterPush, Valid;
    if i > 0 {
      PlayedByIsOnTime(xs, ops, i - 1);
      if ops[i - 1].Pop? { PlayoutOnSchedule(xs, ops, i - 1); }
    }
  }

  /** The whole playout path, network thread to sound card. Over any session in which playback
      keeps running and nothing overflows, what is heard (and what is left in the carry) is the
      old carry followed by the packets numbered `nextSeq`, `nextSeq + 1`, ... that arrived
      before their turn: each once, whole, in order, in its last received version. */
  lemma HeardOnSchedule(p: Player, periods: seq<Period>)
    requires ValidPlayer(p)
    requires Steady(Trace(p.jitter, Listen(p, periods).ops))
    ensures var r := Listen(p, periods);
            r.sound + Rest(r.player)
            == Rest(p) + Concat(OnTime(p.jitter.waiting, r.ops, p.jitter.nextSeq, |r.ops|))
  {
    ListenConserves(p, periods);
    var ops := Listen(p, periods).ops;
    var xs := Trace(p.jitter, ops);
    PlayedIsPlayedBy(p.jitter, ops);
    TraceIsRun(p.jitter, ops);
    PlayedByIsOnTime(xs, ops, |ops|);
  }

  // ------------------------------------------------------------------------------------
  // Every session
  // ------------------------------------------------------------------------------------

  /** What the pops of calls `0` to `i` play, read off the raw history and the numbers looked up:
      each plays what was last pushed under its number since the latest restart, if anything. */
  function InTurn(xs: seq<Jitter>, ops: seq<Op>, i: nat): seq<Frame>
    requires i <= |ops| < |xs| && forall k | 0 <= k < |xs| :: xs[k].targetDepth >= 1
  {
    if i == 0 then []
    else
      var due := if ops[i - 1].Push? || Wanted(xs[i - 1]).None? then None
                 else LatestArrival(map[], ops, RestartPoint(xs, i - 1), i - 1, Wanted(xs[i - 1]).value);
      InTurn(xs, ops, i - 1) + if due.Some? then [due.value] else []
  }

  lemma {:induction false} PlayedByIsInTurn(xs: seq<Jitter>, ops: seq<Op>, i: nat)
    requires IsRun(xs, ops) && xs[0] == Empty(xs[0].targetDepth, xs[0].maxDepth) && i <= |ops|
    requires forall k | 0 <= k < |xs| :: xs[k].targetDepth >= 1
    ensures PlayedBy(xs, ops, i) == InTurn(xs, ops, i)
  {
    hide AfterPop, AfterPush, Valid, Wanted, LatestArrival, RestartPoint;
    if i > 0 {
      PlayedByIsInTurn(xs, ops, i - 1);
      if ops[i - 1].Pop? { PopServesLatestArrival(xs, ops, i - 1); }
    }
  }

  /** The whole playout path, whatever happens on it -- filling, loss, reordering, overflow, stalls
      and restarts included. From a new player on, what is heard, and what is left in the carry, is
      the frames that were in turn: each whole, in order, in its last received version. */
  lemma EverySessionHeard(p: Player, periods: seq<Period>)
    requires ValidPlayer(p) && p.jitter == Empty(p.jitter.targetDepth, p.jitter.maxDepth) && Rest(p) == []
    ensures var r := Listen(p, periods);
            && (forall k | 0 <= k <= |r.ops| :: Trace(p.jitter, r.ops)[k].targetDepth >= 1)
            && r.sound + Rest(r.player) == Concat(InTurn(Trace(p.jitter, r.ops), r.ops, |r.ops|))
  {
    ListenConserves(p, periods);
    var ops := Listen(p, periods).ops;
    var xs := Trace(p.jitter, ops);
    PlayedIsPlayedBy(p.jitter, ops);
    TraceIsRun(p.jitter, ops);
    hide Listen, Valid, Trace, Empty;
    PlayedByIsInTurn(xs, ops, |ops|);
    assert [] + Concat(InTurn(xs, ops, |ops|)) == Concat(InTurn(xs, ops, |ops|));
  }
}

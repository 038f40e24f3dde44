/** What a return to Master leaves behind when nothing moves afterwards. The three returns -- across
    the seam, by the emergency escape, and when Slave's last display goes -- differ in where they
    land and in whether motion is still waiting in the hook. */
module RestAfterReturn {
  import opened Common
  import opened Crossing
  import opened InputHook
  import opened InputPump
  import opened Ownership

  /** Frames without any OS event in between; frame `i` finds `envs(i)`. */
  function Rested(p: Pump, envs: nat -> Env, n: nat): Pump {
    if n == 0 then p else Step(Rested(p, envs, n - 1), envs(n - 1)).pump
  }

  /** Master's desktop and the arrangement stay; the link holds; Slave's displays may come and go. */
  ghost predicate SameDesk(envs: nat -> Env, local: seq<Monitor>, arrangement: Option<Entry>) {
    forall i: nat :: envs(i).peer.Linked? && envs(i).local == local && envs(i).arrangement == arrangement
  }

  predicate Presses(local: seq<Monitor>, arrangement: Option<Entry>, p: Point) {
    arrangement.Some? && Crosses(BoundsOf(local), arrangement.value, p)
  }

  function Pinned(local: seq<Monitor>, p: Point): Point { CheckBoundary(BoundsOf(local), p).clamped }

  lemma PinnedTwice(local: seq<Monitor>, p: Point)
    ensures Pinned(local, Pinned(local, p)) == Pinned(local, p)
  {
    hide BoundsOf;
  }

  /** One frame that Master owns at its start. */
  lemma MasterFrame(p: Pump, env: Env)
    requires env.peer.Linked? && p.active && p.owned
    ensures var q, at := Step(p, env).pump, Moved(p, p.hook.pending);
            if !p.justHandedOff && Presses(env.local, env.arrangement, at) && env.peer.monitors != [] then !q.owned
            else q == p.(logical := Pinned(env.local, at), justHandedOff := false, hook := Polled(p.hook),
                         held := TrackAll(p.held, p.hook.pending.keys))
  {
    var at := Moved(p, p.hook.pending);
    if env.arrangement.Some? && env.peer.monitors != [] {
      HandoffLandsSomewhere(BoundsOf(env.local), env.arrangement.value, env.peer.monitors, at);
    }
    hide BoundsOf, Crosses, CheckBoundary, TrackAll, EscapeComboHeld;
  }

  /** What the first frame after a return settles into. */
  function Settles(p: Pump, local: seq<Monitor>): Pump {
    p.(logical := Pinned(local, Moved(p, p.hook.pending)), justHandedOff := false, hook := Polled(p.hook),
       held := TrackAll(p.held, p.hook.pending.keys))
  }

  lemma SettledFrame(p: Pump, local: seq<Monitor>, env: Env)
    requires env.peer.Linked? && p.active && p.owned && env.local == local
    ensures var s := Settles(p, local);
            if Presses(local, env.arrangement, s.logical) && env.peer.monitors != [] then !Step(s, env).pump.owned
            else Step(s, env).pump == s
  {
    var s := Settles(p, local);
    MasterFrame(s, env);
    assert Moved(s, EMPTY) == s.logical && TrackAll(s.held, []) == s.held;
    PinnedTwice(local, Moved(p, p.hook.pending));
    hide Step, Presses, Pinned, TrackAll;
  }

  /** Some frame from the second on finds a display to cross over to. */
  ghost predicate DisplayComes(envs: nat -> Env, n: nat) {
    exists i: nat :: 1 <= i < n && envs(i).peer.Linked? && envs(i).peer.monitors != []
  }

  ghost predicate StaysThrough(p: Pump, envs: nat -> Env, n: nat) {
    forall k: nat | k <= n :: Rested(p, envs, k).owned
  }

  /** Exactly when a return is stable at rest, for any number of frames: unless the point it settles
      at -- the landing, plus whatever motion still waits, pinned to the desktop -- is on the very
      edge that leads out again and a display is there to cross over to. */
  lemma {:induction false} RestIsStableIff(p: Pump, envs: nat -> Env, local: seq<Monitor>, arrangement: Option<Entry>, n: nat)
    requires p.active && p.owned && p.justHandedOff && SameDesk(envs, local, arrangement)
    ensures StaysThrough(p, envs, n) <==> !(Presses(local, arrangement, Settles(p, local).logical) && DisplayComes(envs, n))
    ensures StaysThrough(p, envs, n) && n > 0 ==> Rested(p, envs, n) == Settles(p, local)
  {
    hide Step, Settles, Presses;
    if n > 0 {
      RestIsStableIff(p, envs, local, arrangement, n - 1);
      assert StaysThrough(p, envs, n) <==> StaysThrough(p, envs, n - 1) && Rested(p, envs, n).owned;
      assert DisplayComes(envs, n) <==> DisplayComes(envs, n - 1) || (n > 1 && envs(n - 1).peer.monitors != []);
      if n == 1 {
        FirstFrame(p, local, envs(0));
        assert Rested(p, envs, 0) == p;
      } else if StaysThrough(p, envs, n - 1) {
        SettledFrame(p, local, envs(n - 1));
        SettlesOwned(p, local);
      }
    } else {
      assert Rested(p, envs, 0) == p;
    }
  }

  lemma SettlesOwned(p: Pump, local: seq<Monitor>)
    ensures Settles(p, local).owned == p.owned
  {
  }

  lemma FirstFrame(p: Pump, local: seq<Monitor>, env: Env)
    requires env.peer.Linked? && p.active && p.owned && p.justHandedOff && env.local == local
    ensures Step(p, env).pump == Settles(p, local) && Settles(p, local).owned
  {
    MasterFrame(p, env);
    hide Step, Pinned, TrackAll;
  }

  // ------------------------------------------------------------------------------------
  // Across the seam
  // ------------------------------------------------------------------------------------

  function Always(env: Env): nat -> Env { _ => env }

  lemma SlaveFrameStep(p: Pump, env: Env)
    requires env.peer.Linked? && env.peer.monitors != [] && p.active && !p.owned
    requires !EscapeComboHeld(TrackAll(p.held, p.hook.pending.keys))
    ensures var t := p.(hook := Polled(p.hook), held := TrackAll(p.held, p.hook.pending.keys));
            Step(p, env) == SlaveOwned(t, env, p.hook.pending)
  {
    hide SlaveOwned, EscapeComboHeld, TrackAll;
  }

  /** The margin is on either axis, and that shows on the way back: a return across the seam to a
      Master that then moves nothing is stable, for every number of frames, unless the peer sits to
      the left or right and the return had no overshoot across the seam (it was the other axis that
      cleared the margin). Then the input is with Slave again from the second frame on, and stays. */
  lemma BounceToSlaveIff(p: Pump, env: Env, n: nat)
    requires Consistent(p) && BothShown(env) && p.active && !p.owned && Step(p, env).pump.owned
    requires !EscapeComboHeld(TrackAll(p.held, p.hook.pending.keys))
    ensures env.arrangement.Some?
    ensures var home, at := Step(p, env).pump, Moved(p, p.hook.pending);
            var bounces := env.arrangement.value.direction.Horizontal()
                           && at.x == CheckBoundary(BoundsOf(env.peer.monitors), at).clamped.x;
            && (n < 2 ==> Rested(home, Always(env), n).owned)
            && (n >= 2 ==> (Rested(home, Always(env), n).owned <==> !bounces))
  {
    hide BoundsOf, Crosses, EscapeComboHeld, CheckBoundary, PastMargin, TrackAll, Step, Consistent;
    var f := p.hook.pending;
    var home := ReturnHome(p, env);
    RestIsStableIff(home, Always(env), env.local, env.arrangement, n);
    RestIsStableIff(home, Always(env), env.local, env.arrangement, 2);
    assert Rested(home, Always(env), 0) == home;
    if n >= 2 {
      assert DisplayComes(Always(env), n) by { assert Always(env)(1).peer.monitors != []; }
      assert DisplayComes(Always(env), 2) by { assert Always(env)(1).peer.monitors != []; }
      if Presses(env.local, env.arrangement, Settles(home, env.local).logical) {
        OnceBounced(home, env);
        BouncedStays(home, env, n);
      }
    }
  }

  /** The return itself: where it lands, and whether that is on the edge that leads out again. */
  lemma ReturnHome(p: Pump, env: Env) returns (home: Pump)
    requires Consistent(p) && BothShown(env) && p.active && !p.owned && Step(p, env).pump.owned
    requires !EscapeComboHeld(TrackAll(p.held, p.hook.pending.keys))
    ensures home == Step(p, env).pump && env.arrangement.Some?
    ensures home.active && home.justHandedOff && home.hook.pending == EMPTY && Consistent(home)
    ensures home.held == TrackAll(p.held, p.hook.pending.keys)
    ensures var at := Moved(p, p.hook.pending);
            Presses(env.local, env.arrangement, Settles(home, env.local).logical) <==>
              env.arrangement.value.direction.Horizontal()
              && at.x == CheckBoundary(BoundsOf(env.peer.monitors), at).clamped.x
  {
    var f := p.hook.pending;
    var t := p.(hook := Polled(p.hook), held := TrackAll(p.held, f.keys));
    home := Step(p, env).pump;
    NextConsistent(p, Tick(env));
    hide BoundsOf, Handoff, Crosses, EscapeComboHeld, CheckBoundary, PastMargin, TrackAll, SlaveOwned, MasterOwned, Step, Consistent;
    SlaveFrameStep(p, env);
    ReturnPoint(t, env, f);
    assert Moved(t, f) == Moved(p, f) && Moved(home, EMPTY) == home.logical;
    ReturnCrosses(BoundsOf(env.local), BoundsOf(env.peer.monitors), env.arrangement.value, env.local, Moved(p, f));
  }

  lemma OnceBounced(home: Pump, env: Env)
    requires Consistent(home) && BothShown(env) && home.active && home.owned && home.justHandedOff && home.hook.pending == EMPTY
    requires Presses(env.local, env.arrangement, Settles(home, env.local).logical)
    ensures var q := Rested(home, Always(env), 2);
            Resting(q, env) && q.hook.pending == EMPTY && q.held == home.held
  {
    var once := Step(home, env).pump;
    assert Rested(home, Always(env), 0) == home && Rested(home, Always(env), 1) == once;
    FirstFrame(home, env.local, env);
    NextConsistent(home, Tick(env));
    SettledFrame(home, env.local, env);
    HandoffRests(once, env);
    HandoffKeepsHeld(once, env);
    assert TrackAll(home.held, []) == home.held;
    hide Step, Consistent, Resting, Presses, BothShown, TrackAll, Pinned;
  }

  lemma HandoffKeepsHeld(p: Pump, env: Env)
    requires env.peer.Linked? && p.active && p.owned && p.hook.pending == EMPTY
    ensures Step(p, env).pump.held == p.held && Step(p, env).pump.hook.pending == EMPTY
  {
    assert TrackAll(p.held, []) == p.held;
    hide BoundsOf, Crosses, Handoff, EscapeComboHeld, CheckBoundary;
  }

  lemma SlaveRestKeepsHeld(p: Pump, env: Env)
    requires BothShown(env) && p.active && !p.owned && p.hook.pending == EMPTY && !EscapeComboHeld(p.held)
    ensures var q := Step(p, env).pump; q.hook.pending == EMPTY && (!q.owned ==> q.held == p.held)
  {
    assert TrackAll(p.held, []) == p.held;
    hide BoundsOf, Crosses, Handoff, EscapeComboHeld, CheckBoundary, PastMargin, Settled, Forwarded, InvertEntry;
  }

  lemma {:induction false} BouncedStays(home: Pump, env: Env, n: nat)
    requires n >= 2 && !EscapeComboHeld(home.held)
    requires var q := Rested(home, Always(env), 2); Resting(q, env) && q.hook.pending == EMPTY && q.held == home.held
    ensures var q := Rested(home, Always(env), n);
            Resting(q, env) && !q.owned && q.hook.pending == EMPTY && q.held == home.held
  {
    hide Step, EscapeComboHeld, Consistent, Calm, BothShown;
    var q := Rested(home, Always(env), n);
    if n > 2 {
      BouncedStays(home, env, n - 1);
      var before := Rested(home, Always(env), n - 1);
      assert TrackAll(before.held, []) == before.held;
      RestingStays(before, Tick(env), env);
      SlaveRestKeepsHeld(before, env);
    }
  }

  lemma ReturnPoint(t: Pump, env: Env, f: Frame)
    requires BothShown(env) && !t.owned && SlaveOwned(t, env, f).pump.owned
    ensures env.arrangement.Some?
    ensures var b, back := BoundsOf(env.peer.monitors), WayBack(env).value;
            var at := Moved(t, f);
            && Crosses(b, back, at) && PastMargin(CheckBoundary(b, at), at) && Handoff(b, back, env.local, at).Some?
            && SlaveOwned(t, env, f).pump == Returned(t.(justHandedOff := false), Handoff(b, back, env.local, at).value)
  {
    hide BoundsOf, Handoff, Crosses, PastMargin, Forwarded, InvertEntry;
  }

  /** Where a return lands, whether it is on the edge that leads out again. */
  lemma ReturnCrosses(m: Bounds, b: Bounds, entry: Entry, local: seq<Monitor>, at: Point)
    requires Proper(m) && Proper(b) && local != [] && m == BoundsOf(local)
    requires Crosses(b, InvertEntry(entry, m, b), at) && PastMargin(CheckBoundary(b, at), at)
    requires Handoff(b, InvertEntry(entry, m, b), local, at).Some?
    ensures var home := Handoff(b, InvertEntry(entry, m, b), local, at).value;
            Crosses(m, entry, CheckBoundary(m, home).clamped) <==>
              entry.direction.Horizontal() && at.x == CheckBoundary(b, at).clamped.x
  {
    hide BoundsOf;
  }

  // ------------------------------------------------------------------------------------
  // To the middle
  // ------------------------------------------------------------------------------------

  /** The middle of a desktop is clear of every edge exactly if there is room for it. */
  lemma MiddleIsClear(ms: seq<Monitor>)
    requires Proper(BoundsOf(ms))
    ensures var b := BoundsOf(ms);
            !CheckBoundary(b, Middle(ms)).crossed <==> b.maxX - b.minX >= 2 && b.maxY - b.minY >= 2
    ensures Pinned(ms, Middle(ms)) == Middle(ms)
  {
    hide BoundsOf;
  }

  /** The emergency escape polls its frame away, so nothing waits: it is stable at rest for every
      number of frames unless the very middle is on the arranged edge, which it is on no desktop at
      least two pixels wide and high. */
  lemma EscapeStableIff(p: Pump, env: Env, envs: nat -> Env, n: nat)
    requires env.peer.Linked? && Step(p, env).disconnect && SameDesk(envs, env.local, env.arrangement)
    requires Proper(BoundsOf(env.local))
    ensures var home, b := Step(p, env).pump, BoundsOf(env.local);
            && home.logical == Middle(env.local) && home.hook.pending == EMPTY
            && (StaysThrough(home, envs, n) <==>
                  !(Presses(env.local, env.arrangement, Middle(env.local)) && DisplayComes(envs, n)))
            && (b.maxX - b.minX >= 2 && b.maxY - b.minY >= 2 ==> StaysThrough(home, envs, n))
  {
    var home := Step(p, env).pump;
    assert home.active && home.owned && home.justHandedOff && home.logical == Middle(env.local) && home.hook.pending == EMPTY by {
      hide EscapeComboHeld, MasterOwned, SlaveOwned, TrackAll, Middle;
    }
    MiddleIsClear(env.local);
    hide BoundsOf, Step, Middle, CheckBoundary, StaysThrough, DisplayComes;
    RestIsStableIff(home, envs, env.local, env.arrangement, n);
    assert Moved(home, EMPTY) == home.logical;
  }

  /** When Slave's last display goes, the frame is not polled: motion that was meant for Slave still
      waits in the hook, and Master's next frame applies it to the middle. At rest that is stable,
      for every number of frames, exactly unless it carries the point onto the arranged edge and
      a display comes back. */
  lemma DisplayLossStableIff(p: Pump, env: Env, envs: nat -> Env, n: nat)
    requires p.active && !p.owned && env.peer == Linked([]) && SameDesk(envs, env.local, env.arrangement)
    ensures var home := Step(p, env).pump;
            var moved := Moved(p.(logical := Middle(env.local)), p.hook.pending);
            && home.logical == Middle(env.local) && home.hook.pending == p.hook.pending
            && (StaysThrough(home, envs, n) <==>
                  !(Presses(env.local, env.arrangement, Pinned(env.local, moved)) && DisplayComes(envs, n)))
  {
    hide Step, BoundsOf, Middle, Presses, Pinned, StaysThrough, DisplayComes, SameDesk;
    DisplayLossReturns(p, env);
    RestIsStableIff(Step(p, env).pump, envs, env.local, env.arrangement, n);
  }

  lemma DisplayLossReturns(p: Pump, env: Env)
    requires p.active && !p.owned && env.peer == Linked([])
    ensures Step(p, env).pump == Returned(p, Middle(env.local))
    ensures Settles(Returned(p, Middle(env.local)), env.local).logical
            == Pinned(env.local, Moved(p.(logical := Middle(env.local)), p.hook.pending))
  {
    hide MasterOwned, SlaveOwned, Middle, BoundsOf, Pinned, TrackAll;
  }
}

/** Whole runs of the input pump: OS events and frames in any order. */
module Ownership {
  import opened Common
  import opened Crossing
  import opened InputHook
  import opened InputPump

  datatype Event = Os(os: OsEvent) | Tick(env: Env)

  function Next(p: Pump, e: Event): Pump {
    match e
    case Os(os) => p.(hook := Seen(p.hook, os))
    case Tick(env) => Step(p, env).pump
  }

  const FRESH := Pump(false, true, Point(0, 0), false, [], START)

  ghost predicate IsRun(ps: seq<Pump>, es: seq<Event>) {
    && |ps| == |es| + 1 && ps[0] == FRESH
    && forall i {:trigger es[i]} | 0 <= i < |es| :: ps[i + 1] == Next(ps[i], es[i])
  }

  // ------------------------------------------------------------------------------------
  // Suppression
  // ------------------------------------------------------------------------------------

  predicate Consistent(p: Pump) {
    && (p.hook.installed <==> p.active)
    && (p.hook.suppress <==> p.active && !p.owned)
    && (!p.active ==> p.owned)
  }

  lemma NextConsistent(p: Pump, e: Event)
    requires Consistent(p)
    ensures Consistent(Next(p, e))
  {
    hide BoundsOf, Handoff, Crosses, TrackAll, EscapeComboHeld, CheckBoundary, PastMargin, Settled, Forwarded, InvertEntry;
  }

  lemma {:induction false} AlwaysConsistent(ps: seq<Pump>, es: seq<Event>, n: nat)
    requires IsRun(ps, es) && n < |ps|
    ensures Consistent(ps[n])
  {
    if n > 0 {
      AlwaysConsistent(ps, es, n - 1);
      assert ps[n] == Next(ps[n - 1], es[n - 1]);
      hide Next;
      NextConsistent(ps[n - 1], es[n - 1]);
    }
  }

  /** The hook suppresses exactly while Slave owns the input, so a physical event reaches the local
      OS exactly while Master owns it -- in every reachable state, however the connection came and
      went. What the program itself injects always gets through, and is never taken for input. */
  lemma SuppressesWhileSlaveOwns(ps: seq<Pump>, es: seq<Event>, n: nat)
    requires IsRun(ps, es) && n < |ps|
    ensures ps[n].hook.suppress <==> ps[n].active && !ps[n].owned
    ensures forall e: OsEvent | !e.Synthetic? && !e.RawDelta? :: PassedOn(ps[n].hook, e) <==> ps[n].owned
    ensures PassedOn(ps[n].hook, Synthetic) && Seen(ps[n].hook, Synthetic) == ps[n].hook
    ensures forall dx, dy :: PassedOn(ps[n].hook, RawDelta(dx, dy))
  {
    AlwaysConsistent(ps, es, n);
    hide IsRun;
  }

  // ------------------------------------------------------------------------------------
  // Drift
  // ------------------------------------------------------------------------------------

  /** In bounds, or less than the margin past the one edge that leads back and nothing else. */
  predicate NearBounds(b: Bounds, edge: Direction, p: Point) {
    || Inside(b, p)
    || match edge
       case Left => b.minX - 4 < p.x < b.minX && b.minY <= p.y <= b.maxY
       case Right => b.maxX < p.x < b.maxX + 4 && b.minY <= p.y <= b.maxY
       case Up => b.minY - 4 < p.y < b.minY && b.minX <= p.x <= b.maxX
       case Down => b.maxY < p.y < b.maxY + 4 && b.minX <= p.x <= b.maxX
  }

  predicate BothShown(env: Env) {
    env.peer.Linked? && env.peer.monitors != [] && env.local != []
    && Proper(BoundsOf(env.peer.monitors)) && Proper(BoundsOf(env.local))
  }

  /** What real monitors come to. */
  lemma RealDesktopsAreShown(env: Env)
    requires env.peer.Linked? && env.peer.monitors != [] && env.local != []
    requires forall m | m in env.peer.monitors :: Representable(m) && m.width > 0 && m.height > 0
    requires forall m | m in env.local :: Representable(m) && m.width > 0 && m.height > 0
    ensures BothShown(env)
  {
    RealMonitorsAreProper(env.peer.monitors);
    RealMonitorsAreProper(env.local);
  }

  lemma SlaveFrameKeepsNear(p: Pump, env: Env, f: Frame)
    requires BothShown(env) && !p.owned
    ensures var r, b := SlaveOwned(p, env, f), BoundsOf(env.peer.monitors);
            && |r.sent| > 0 && r.sent[0].MouseAbsolute? && Inside(b, r.sent[0].p)
            && (!r.pump.owned && !p.justHandedOff ==>
                  if env.arrangement.Some? then NearBounds(b, WayBack(env).value.direction, r.pump.logical)
                  else Inside(b, r.pump.logical))
  {
    var b := BoundsOf(env.peer.monitors);
    var at := Moved(p, f);
    if env.arrangement.Some? && Crosses(b, WayBack(env).value, at) {
      HandoffLandsSomewhere(b, WayBack(env).value, env.local, at);
    }
    hide BoundsOf, Handoff, InvertEntry;
  }

  lemma HandoffLandsSomewhere(near: Bounds, entry: Entry, target: seq<Monitor>, p: Point)
    requires target != []
    ensures Handoff(near, entry, target, p).Some?
  {
  }

  /** Bounded drift. While Slave owns the input every frame shows it a cursor on its own desktop,
      and the point Master tracks never strays: unless the hand-off is one frame old, it is in
      bounds, or less than four pixels past the single edge that faces Master. */
  lemma BoundedDrift(p: Pump, env: Env)
    requires BothShown(env) && p.active && !p.owned
    ensures var r, b := Step(p, env), BoundsOf(env.peer.monitors);
            && (!EscapeComboHeld(TrackAll(p.held, p.hook.pending.keys)) ==>
                  |r.sent| > 0 && r.sent[0].MouseAbsolute? && Inside(b, r.sent[0].p))
            && (!r.pump.owned && !p.justHandedOff ==>
                  if env.arrangement.Some? then NearBounds(b, WayBack(env).value.direction, r.pump.logical)
                  else Inside(b, r.pump.logical))
  {
    var t := p.(hook := Polled(p.hook), held := TrackAll(p.held, p.hook.pending.keys));
    SlaveFrameKeepsNear(t, env, p.hook.pending);
    hide BoundsOf, SlaveOwned, EscapeComboHeld, WayBack, NearBounds;
  }

  // ------------------------------------------------------------------------------------
  // No bounce
  // ------------------------------------------------------------------------------------

  /** The point does not press against the edge that leads back. */
  predicate Calm(b: Bounds, back: Option<Entry>, p: Point) {
    back.Some? && Crosses(b, back.value, p) ==> p == CheckBoundary(b, p).clamped
  }

  predicate SameGeometry(a: Env, b: Env) {
    a.peer == b.peer && a.local == b.local && a.arrangement == b.arrangement
  }

  lemma LandingIsCalm(p: Pump, env: Env, f: Frame)
    requires BothShown(env) && p.owned && !MasterOwned(p, env, f).pump.owned
    ensures Calm(BoundsOf(env.peer.monitors), WayBack(env), MasterOwned(p, env, f).pump.logical)
  {
    HandoffKeepsThePoint(BoundsOf(env.local), env.arrangement.value, env.peer.monitors, Moved(p, f));
    hide BoundsOf, Handoff;
  }

  lemma RestIsCalm(p: Pump, env: Env, f: Frame)
    requires BothShown(env) && !p.owned && f.dx == 0 && f.dy == 0
    requires Calm(BoundsOf(env.peer.monitors), WayBack(env), p.logical)
    ensures var q := SlaveOwned(p, env, f).pump;
            !q.owned && Calm(BoundsOf(env.peer.monitors), WayBack(env), q.logical)
  {
    assert Moved(p, f) == p.logical;
    hide BoundsOf, Handoff, InvertEntry, Forwarded;
  }

  /** Nothing here moves the mouse, changes the desktops, drops the link or holds the hotkey. */
  predicate Restful(p: Pump, e: Event, env: Env) {
    match e
    case Os(os) => os.RawDelta? ==> os.dx == 0 && os.dy == 0
    case Tick(now) => SameGeometry(env, now) && !EscapeComboHeld(TrackAll(p.held, p.hook.pending.keys))
  }

  predicate Resting(p: Pump, env: Env) {
    && Consistent(p) && p.active && !p.owned && p.hook.pending.dx == 0 && p.hook.pending.dy == 0
    && BothShown(env) && Calm(BoundsOf(env.peer.monitors), WayBack(env), p.logical)
  }

  lemma RestingStays(p: Pump, e: Event, env: Env)
    requires Resting(p, env) && Restful(p, e, env)
    ensures Resting(Next(p, e), env)
  {
    match e
    case Os(os) =>
      hide BoundsOf, WayBack, Calm;
    case Tick(now) =>
      var t := p.(hook := Polled(p.hook), held := TrackAll(p.held, p.hook.pending.keys));
      RestIsCalm(t, now, p.hook.pending);
      NextConsistent(p, e);
      SlaveOwnedPolls(t, now, p.hook.pending);
      assert WayBack(now) == WayBack(env);
      hide BoundsOf, SlaveOwned, EscapeComboHeld, WayBack, Calm, TrackAll, Consistent;
  }

  lemma SlaveOwnedPolls(p: Pump, env: Env, f: Frame)
    requires env.peer.Linked?
    ensures var q := SlaveOwned(p, env, f).pump; q.hook.pending == p.hook.pending && q.active == p.active
  {
    hide Handoff, Crosses, PastMargin, Settled, Forwarded, BoundsOf;
  }

  /** No bounce on the way out: after a hand-off to Slave, as long as the mouse does not move,
      control stays there, whatever is typed or clicked and for however many frames. */
  lemma {:induction false} NoBounceToMaster(ps: seq<Pump>, es: seq<Event>, h: nat, n: nat, env: Env)
    requires IsRun(ps, es) && h < n < |ps|
    requires es[h] == Tick(env) && BothShown(env) && ps[h].owned && !ps[h + 1].owned
    requires forall i | h < i < n :: Restful(ps[i], es[i], env)
    ensures !ps[n].owned
    ensures Resting(ps[n], env)
  {
    hide Next, Step, Consistent, Restful, Resting, BothShown;
    assert ps[n] == Next(ps[n - 1], es[n - 1]);
    if n == h + 1 {
      AlwaysConsistent(ps, es, h);
      HandoffRests(ps[h], env);
    } else {
      NoBounceToMaster(ps, es, h, n - 1, env);
      RestingStays(ps[n - 1], es[n - 1], env);
    }
    RestingIsSlaves(ps[n], env);
  }

  lemma RestingIsSlaves(p: Pump, env: Env)
    requires Resting(p, env)
    ensures !p.owned
  {
  }

  lemma HandoffRests(p: Pump, env: Env)
    requires Consistent(p) && p.owned && BothShown(env) && !Next(p, Tick(env)).owned
    ensures Resting(Next(p, Tick(env)), env)
  {
    var a := Activated(p, env);
    var t := a.(hook := Polled(a.hook), held := TrackAll(a.held, a.hook.pending.keys));
    assert t.owned;
    LandingIsCalm(t, env, a.hook.pending);
    NextConsistent(p, Tick(env));
    hide BoundsOf, WayBack, Calm, TrackAll, EscapeComboHeld, Crosses, Handoff;
  }

  // ------------------------------------------------------------------------------------
  // A slow push gets through
  // ------------------------------------------------------------------------------------

  /** How far past the edge `d` a point is. */
  function Past(b: Bounds, d: Direction, p: Point): int {
    match d
    case Left => b.minX - p.x
    case Right => p.x - b.maxX
    case Up => b.minY - p.y
    case Down => p.y - b.maxY
  }

  /** A frame's push in direction `d`. */
  function Push(d: Direction, f: Frame): int {
    match d case Left => -f.dx case Right => f.dx case Up => -f.dy case Down => f.dy
  }

  /** A left or right edge takes precedence; an upper or lower one counts only clear of both. */
  predicate Clear(b: Bounds, d: Direction, p: Point) { d.Horizontal() || b.minX < p.x < b.maxX }

  lemma PushIsKept(p: Pump, env: Env, f: Frame)
    requires BothShown(env) && env.arrangement.Some? && !p.owned && !p.justHandedOff
    requires var b, d := BoundsOf(env.peer.monitors), WayBack(env).value.direction;
             Clear(b, d, Moved(p, f)) && Push(d, f) >= 0
             && Past(b, d, p.logical) >= -(if d.Horizontal() then b.maxX - b.minX else b.maxY - b.minY)
    ensures var b, d := BoundsOf(env.peer.monitors), WayBack(env).value.direction;
            var q := SlaveOwned(p, env, f).pump;
            && (Past(b, d, p.logical) + Push(d, f) >= 4 ==> q.owned)
            && (!q.owned ==> Past(b, d, q.logical) == Past(b, d, p.logical) + Push(d, f)
                             && !q.justHandedOff && q.active == p.active)
  {
    var b, back, at := BoundsOf(env.peer.monitors), WayBack(env).value, Moved(p, f);
    HandoffLandsSomewhere(b, back, env.local, at);
    hide BoundsOf, Handoff, Forwarded, InvertEntry;
  }

  function Pushed(d: Direction, fs: seq<Frame>): int {
    if fs == [] then 0 else Pushed(d, fs[..|fs| - 1]) + Push(d, fs[|fs| - 1])
  }

  /** The Slave-owned frames of a push: each one polls `fs[i]`. */
  ghost predicate IsPush(ps: seq<Pump>, fs: seq<Frame>, env: Env)
    requires BothShown(env) && env.arrangement.Some?
  {
    var b, d := BoundsOf(env.peer.monitors), WayBack(env).value.direction;
    && |ps| == |fs| + 1
    && !ps[0].owned && !ps[0].justHandedOff && Inside(b, ps[0].logical)
    && forall i {:trigger fs[i]} | 0 <= i < |fs| && !ps[i].owned ::
         ps[i + 1] == SlaveOwned(ps[i], env, fs[i]).pump && Push(d, fs[i]) >= 0 && Clear(b, d, Moved(ps[i], fs[i]))
  }

  /** However slowly the mouse is pushed against the edge that faces Master -- a pixel a frame,
      with frames of rest in between -- every pixel counts: control is back at the latest by the
      frame in which the whole push has cleared the edge by the margin. */
  lemma {:induction false} SlowPushReturns(ps: seq<Pump>, fs: seq<Frame>, env: Env, n: nat)
    requires BothShown(env) && env.arrangement.Some? && IsPush(ps, fs, env) && n <= |fs|
    requires forall i | 0 <= i < n :: !ps[i].owned
    ensures var b, d := BoundsOf(env.peer.monitors), WayBack(env).value.direction;
            var past := Past(b, d, ps[0].logical) + Pushed(d, fs[..n]);
            && (past >= 4 ==> ps[n].owned)
            && (!ps[n].owned ==> Past(b, d, ps[n].logical) == past && !ps[n].justHandedOff)
            && Pushed(d, fs[..n]) >= 0
  {
    hide SlaveOwned, BoundsOf, WayBack;
    if n == 0 {
      assert fs[..0] == [];
    } else {
      SlowPushReturns(ps, fs, env, n - 1);
      assert fs[..n][..n - 1] == fs[..n - 1] && fs[..n][n - 1] == fs[n - 1];
      assert !ps[n - 1].owned;
      PushIsKept(ps[n - 1], env, fs[n - 1]);
    }
  }
}

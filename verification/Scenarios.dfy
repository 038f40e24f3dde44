/** Whole runs, from a hook that is not yet installed, that reach the failures the exact conditions
    elsewhere allow for. One desktop on each side, the peer to the right of Master. */
module Scenarios {
  import opened Common
  import opened Crossing
  import opened InputHook
  import opened InputPump
  import opened Ownership
  import opened Injector
  import opened HeldKeys
  import opened RestAfterReturn
  import opened InputDelivery

  const DESK: seq<Monitor> := [Monitor(0, 0, 1920, 1080)]
  const ENTRY := Entry(7, Right, 0)
  const START_POINT := Point(100, 100)

  function Together(mask: set<nat>): Env { Env(Linked(DESK), DESK, Some(ENTRY), Some(START_POINT), mask) }

  lemma DeskBounds()
    ensures BoundsOf(DESK) == Bounds(0, 1920, 0, 1080) && Middle(DESK) == Point(960, 540)
  {
    assert DESK[..0] == [];
    assert BoundsOf([]) == Bounds(INT_MAX, INT_MIN, INT_MAX, INT_MIN);
  }

  function Replay(w: World, es: seq<Event>): (ws: seq<World>)
    ensures |ws| == |es| + 1 && ws[0] == w
    ensures forall i | 0 <= i < |es| :: ws[i + 1] == NextWorld(ws[i], es[i])
    decreases |es|
  {
    if es == [] then [w] else
      var rest := Replay(NextWorld(w, es[0]), es[1..]);
      assert forall i | 0 < i < |es| :: es[1..][i - 1] == es[i];
      [w] + rest
  }

  const NEW := World(FRESH, {}, Keyboard({}, {}))

  function HeldBy(k: KeyEvent): HeldKey { HeldKey(k.vk, k.scancode, k.extended) }

  /** Slave owns the input; the tracked point and the frame pending are given. */
  function AtSlave(at: Point, first: bool, held: seq<HeldKey>, pending: Frame): Pump {
    Pump(true, false, at, first, held, Hook(true, true, Point(1920, 100), pending))
  }

  // ------------------------------------------------------------------------------------
  // Crossing over with a key held
  // ------------------------------------------------------------------------------------

  /** The hook goes in, a key goes down, the mouse goes to the right edge, and the input to Slave. */
  function CrossOver(k: KeyEvent, mask: set<nat>): seq<Event> {
    [Tick(Together(mask)), Os(Key(k)), Os(Move(Point(1920, 100))), Tick(Together(mask))]
  }

  lemma Installs(mask: set<nat>)
    ensures NextWorld(NEW, Tick(Together(mask)))
            == World(Pump(true, true, START_POINT, false, [], Hook(true, false, START_POINT, EMPTY)), {}, Keyboard({}, {}))
  {
    DeskBounds();
    hide BoundsOf;
    assert TrackAll([], []) == [];
    assert ObeyAll(Keyboard({}, {}), []) == Keyboard({}, {});
    assert Vks([]) == {};
  }

  /** At the right edge, with `k` typed and not yet polled. */
  function AtEdge(k: KeyEvent): Pump {
    Pump(true, true, START_POINT, false, [], Hook(true, false, Point(1920, 100), Frame(1820, 0, [], [], [k])))
  }

  lemma PumpCrosses(k: KeyEvent, mask: set<nat>)
    requires k.down
    ensures Step(AtEdge(k), Together(mask))
            == Result(AtSlave(Point(0, 100), true, [HeldBy(k)], EMPTY),
                      [MouseAbsolute(Point(0, 100)), ModifierSync(mask)], [HeldBy(k)], false)
  {
    DeskBounds();
    hide BoundsOf, EscapeComboHeld;
    assert [k][..0] == [] && TrackAll([], []) == [];
    assert TrackAll([], [k]) == [HeldBy(k)];
  }

  lemma CrossesWithKey(k: KeyEvent, mask: set<nat>)
    requires k.down
    ensures NextWorld(World(AtEdge(k), {k.vk}, Keyboard({}, {})), Tick(Together(mask)))
            == World(AtSlave(Point(0, 100), true, [HeldBy(k)], EMPTY), {}, SetModifiers(Keyboard({}, {}), mask))
  {
    hide Step, SetModifiers, ObeyAll, Vks;
    PumpCrosses(k, mask);
    OutboundObeyed(mask);
    OnlyKey(HeldBy(k));
  }

  lemma OutboundObeyed(mask: set<nat>)
    ensures ObeyAll(Keyboard({}, {}), [MouseAbsolute(Point(0, 100)), ModifierSync(mask)]) == SetModifiers(Keyboard({}, {}), mask)
  {
    hide SetModifiers;
    var ms := [MouseAbsolute(Point(0, 100)), ModifierSync(mask)];
    assert ms[..1] == [ms[0]] && ms[..1][..0] == [];
    assert ObeyAll(Keyboard({}, {}), ms[..1]) == Keyboard({}, {});
  }

  lemma OnlyKey(h: HeldKey)
    ensures Vks([h]) == {h.vk}
  {
    assert [h][0].vk == h.vk;
  }

  lemma WalksToEdge(w: World, x: World, y: World, k: KeyEvent, mask: set<nat>)
    requires k.down
    requires w == World(Pump(true, true, START_POINT, false, [], Hook(true, false, START_POINT, EMPTY)), {}, Keyboard({}, {}))
    requires x == NextWorld(w, Os(Key(k))) && y == NextWorld(x, Os(Move(Point(1920, 100))))
    ensures y == World(AtEdge(k), {k.vk}, Keyboard({}, {}))
  {
    hide Step;
    assert [] + [k] == [k];
  }

  /** Scancodes as on a usual keyboard, as far as the runs below need them. */
  function Usual(vk: nat): (nat, bool) {
    if vk == 0xA3 then (0x1D, true)          // right Control
    else if vk == 0xA2 then (0x1D, false)    // left Control
    else if vk == 0xA4 then (0x38, false)    // left Alt
    else if vk == 0xA0 then (0x2A, false)    // left Shift
    else if vk == 0x43 then (0x2E, false)    // C
    else if vk == 0x1B then (0x01, false)    // Escape
    else (vk + 0x100, false)
  }

  function Press(vk: nat): KeyEvent { KeyEvent(vk, Usual(vk).0, true, Usual(vk).1) }
  function Release(vk: nat): KeyEvent { KeyEvent(vk, Usual(vk).0, false, Usual(vk).1) }

  lemma ReplayIsActivation(es: seq<Event>)
    requires es != [] && es[0].Tick? && forall e | e in es :: Allowed(e, Usual)
    ensures IsActivation(Replay(NEW, es), es, Usual)
  {
    hide NextWorld, Allowed;
    assert forall i | 0 <= i < |es| :: es[i] in es;
  }

  lemma ReplayCrosses(k: KeyEvent, mask: set<nat>, more: seq<Event>)
    requires k.down
    ensures var ws := Replay(NEW, CrossOver(k, mask) + more);
            && ws[4] == World(AtSlave(Point(0, 100), true, [HeldBy(k)], EMPTY), {}, SetModifiers(Keyboard({}, {}), mask))
            && forall i {:trigger more[i]} | 0 <= i < |more| :: ws[i + 5] == NextWorld(ws[i + 4], more[i])
  {
    var es := CrossOver(k, mask) + more;
    var ws := Replay(NEW, es);
    hide NextWorld, SetModifiers, Replay;
    assert es[0] == Tick(Together(mask)) && es[1] == Os(Key(k)) && es[2] == Os(Move(Point(1920, 100))) && es[3] == es[0];
    assert ws[1] == NextWorld(ws[0], es[0]) && ws[2] == NextWorld(ws[1], es[1]);
    assert ws[3] == NextWorld(ws[2], es[2]) && ws[4] == NextWorld(ws[3], es[3]);
    Installs(mask);
    WalksToEdge(ws[1], ws[2], ws[3], k, mask);
    CrossesWithKey(k, mask);
    forall i | 0 <= i < |more| ensures ws[i + 5] == NextWorld(ws[i + 4], more[i]) {
      assert es[i + 4] == more[i];
    }
  }

  // ------------------------------------------------------------------------------------
  // A left Control that stays down
  // ------------------------------------------------------------------------------------

  lemma PushesLeft(w: World, held: seq<HeldKey>, mask: set<nat>)
    requires w.pump == AtSlave(Point(0, 100), true, held, Frame(-10, 0, [], [], [])) && !EscapeComboHeld(held)
    ensures NextWorld(w, Tick(Together(mask))) == World(AtSlave(Point(-10, 100), false, held, EMPTY), w.masterDown, w.slave)
  {
    DeskBounds();
    hide BoundsOf, EscapeComboHeld;
    assert TrackAll(held, []) == held;
    var sent := Forwarded(Point(0, 100), Frame(-10, 0, [], [], []));
    assert sent == [MouseAbsolute(Point(0, 100))] && sent[..0] == [];
    assert ObeyAll(w.slave, sent) == w.slave;
    assert Vks([]) == {};
  }

  lemma ReturnsLeft(w: World, held: seq<HeldKey>, mask: set<nat>)
    requires w.pump == AtSlave(Point(-10, 100), false, held, EMPTY) && !EscapeComboHeld(held)
    ensures var next := NextWorld(w, Tick(Together(mask)));
            next.pump.owned && next.slave == ObeyAll(w.slave, ReturnMessages(held))
  {
    DeskBounds();
    hide BoundsOf, EscapeComboHeld, ReturnMessages;
    assert TrackAll(held, []) == held;
    var sent := Forwarded(Point(0, 100), EMPTY);
    assert sent == [MouseAbsolute(Point(0, 100))] && sent[..0] == [];
    assert ObeyAll(w.slave, sent) == w.slave;
    ObeyAppend(w.slave, sent, ReturnMessages(held));
    hide ObeyAll;
  }

  const COME_BACK: seq<Event> := [Os(RawDelta(-10, 0)), Tick(Together({1})), Tick(Together({1}))]

  const LEFT_CONTROL_STAYS: seq<Event> := CrossOver(Press(0xA3), {1}) + COME_BACK

  lemma ComesBack(w: World, x: World, y: World, z: World, held: seq<HeldKey>)
    requires w.pump == AtSlave(Point(0, 100), true, held, EMPTY) && !EscapeComboHeld(held)
    requires x == NextWorld(w, COME_BACK[0]) && y == NextWorld(x, COME_BACK[1]) && z == NextWorld(y, COME_BACK[2])
    ensures z.pump.owned && z.slave == ObeyAll(w.slave, ReturnMessages(held))
  {
    hide EscapeComboHeld, ReturnMessages, ObeyAll, Step;
    assert x.pump == AtSlave(Point(0, 100), true, held, Frame(-10, 0, [], [], [])) && x.slave == w.slave;
    PushesLeft(x, held, {1});
    ReturnsLeft(y, held, {1});
  }

  /** The user holds the right Control, crosses over -- Slave gets a left one -- and comes back still
      holding it. Master owns the input again, and the left Control is down on Slave. */
  lemma LeftControlStaysDown() returns (ws: seq<World>)
    ensures IsActivation(ws, LEFT_CONTROL_STAYS, Usual)
    ensures ws[7].pump.owned && ws[7].slave.down == {LEFT_CTRL}
  {
    ws := Replay(NEW, LEFT_CONTROL_STAYS);
    ReplayIsActivation(LEFT_CONTROL_STAYS);
    ReplayCrosses(Press(0xA3), {1}, COME_BACK);
    hide IsActivation, Replay, NextWorld, SetModifiers, ReturnMessages, ObeyAll, EscapeComboHeld;
    var held := [HeldBy(Press(0xA3))];
    RightControlIsNoCombo(held);
    assert ws[5] == NextWorld(ws[4], COME_BACK[0]) && ws[6] == NextWorld(ws[5], COME_BACK[1]) && ws[7] == NextWorld(ws[6], COME_BACK[2]);
    ComesBack(ws[4], ws[5], ws[6], ws[7], held);
    SyncAlone();
    LeftControlStays();
  }

  lemma RightControlIsNoCombo(held: seq<HeldKey>)
    requires held == [HeldBy(Press(0xA3))]
    ensures !EscapeComboHeld(held) && held == [HeldKey(0xA3, 0x1D, true)]
  {
    assert forall i | 0 <= i < |held| :: held[i].vk !in MENUS;
  }

  lemma SyncAlone()
    ensures ObeyAll(Keyboard({}, {}), [ModifierSync({1})]) == SetModifiers(Keyboard({}, {}), {1})
  {
    hide SetModifiers;
    assert [ModifierSync({1})][..0] == [];
  }

  // ------------------------------------------------------------------------------------
  // Motion that outlives Slave's display
  // ------------------------------------------------------------------------------------

  const GONE := Together({}).(peer := Linked([]))

  const LOSE_DISPLAY: seq<Event> := [Os(RawDelta(1000, 0)), Tick(GONE), Tick(Together({})), Tick(Together({}))]

  const MOTION_OUTLIVES_DISPLAY: seq<Event> := CrossOver(Press(0x43), {}) + LOSE_DISPLAY

  lemma LoseTail(v: World, w: World, x: World, y: World, z: World)
    requires v.pump == AtSlave(Point(0, 100), true, [HeldBy(Press(0x43))], EMPTY)
    requires w == NextWorld(v, LOSE_DISPLAY[0]) && x == NextWorld(w, LOSE_DISPLAY[1])
    requires y == NextWorld(x, LOSE_DISPLAY[2]) && z == NextWorld(y, LOSE_DISPLAY[3])
    ensures x.pump.owned && x.pump.logical == Point(960, 540)
    ensures y.pump.owned && y.pump.logical == Point(1920, 540) && y.pump.hook.anchor == Point(960, 540)
    ensures !z.pump.owned
  {
    hide Step, ObeyAll, Vks;
    LosesDisplay(w.pump, x.pump, y.pump, z.pump, [HeldBy(Press(0x43))]);
  }

  lemma LosesDisplay(w: Pump, x: Pump, y: Pump, z: Pump, held: seq<HeldKey>)
    requires w == AtSlave(Point(0, 100), true, held, Frame(1000, 0, [], [], []))
    requires x == Step(w, GONE).pump && y == Step(x, Together({})).pump && z == Step(y, Together({})).pump
    ensures x.owned && x.logical == Point(960, 540)
    ensures y.owned && y.logical == Point(1920, 540) && y.hook.anchor == Point(960, 540) && !z.owned
  {
    DeskBounds();
    hide BoundsOf, Middle, TrackAll, Step;
    DisplayLossReturns(w, GONE);
    FirstFrame(x, DESK, Together({}));
    SettledFrame(x, DESK, Together({}));
  }

  /** The user moves the mouse on Slave, Slave's display goes, and comes back. Control returned to
      the middle of Master's desktop, but the motion meant for Slave then moves the tracked point to
      the right edge, away from the cursor, and a frame later Slave has the input again, although
      nothing has moved since. */
  lemma MotionOutlivesDisplay() returns (ws: seq<World>)
    ensures IsActivation(ws, MOTION_OUTLIVES_DISPLAY, Usual)
    ensures ws[6].pump.owned && ws[6].pump.logical == Point(960, 540)
    ensures ws[7].pump.owned && ws[7].pump.logical == Point(1920, 540) && ws[7].pump.hook.anchor == Point(960, 540)
    ensures !ws[8].pump.owned
  {
    ws := Replay(NEW, MOTION_OUTLIVES_DISPLAY);
    ReplayIsActivation(MOTION_OUTLIVES_DISPLAY);
    ReplayCrosses(Press(0x43), {}, LOSE_DISPLAY);
    hide IsActivation, Replay, SetModifiers, NextWorld;
    assert ws[5] == NextWorld(ws[4], LOSE_DISPLAY[0]) && ws[6] == NextWorld(ws[5], LOSE_DISPLAY[1]);
    assert ws[7] == NextWorld(ws[6], LOSE_DISPLAY[2]) && ws[8] == NextWorld(ws[7], LOSE_DISPLAY[3]);
    LoseTail(ws[4], ws[5], ws[6], ws[7], ws[8]);
  }

  // ------------------------------------------------------------------------------------
  // A key lost in the emergency escape
  // ------------------------------------------------------------------------------------

  const ESCAPES: seq<Event> :=
    [Os(Key(Press(0xA4))), Os(Key(Press(0xA0))), Os(Key(Press(0x43))), Tick(Together({1})),
     Os(Key(Press(0x1B))), Os(Key(Release(0x43))), Tick(Together({1}))]

  const KEY_LOST: seq<Event> := CrossOver(Press(0xA2), {1}) + ESCAPES

  lemma ThreeMore(k: Keyboard)
    ensures TrackAll([HeldBy(Press(0xA2))], [Press(0xA4), Press(0xA0), Press(0x43)]) == COMBO
    ensures 0x2E in ObeyAll(k, KeyMessages([Press(0xA4), Press(0xA0), Press(0x43)])).down
  {
    var h0 := [HeldBy(Press(0xA2))];
    var ks := [Press(0xA4), Press(0xA0), Press(0x43)];
    assert ks[..1] == [ks[0]] && ks[..2] == [ks[0], ks[1]] && ks[..2][..1] == ks[..1] && ks[..1][..0] == [];
    FindAbsent(h0, 0xA4);
    assert TrackAll(h0, ks[..1]) == h0 + [HeldBy(ks[0])];
    FindAbsent(h0 + [HeldBy(ks[0])], 0xA0);
    assert TrackAll(h0, ks[..2]) == h0 + [HeldBy(ks[0])] + [HeldBy(ks[1])];
    FindAbsent(h0 + [HeldBy(ks[0])] + [HeldBy(ks[1])], 0x43);
    var ms := KeyMessages(ks);
    assert ms[..2] == KeyMessages(ks[..2]) && ms[2] == KeyMessage(ks[2]);
  }

  lemma TypesCombo(w: World)
    requires w.pump == AtSlave(Point(0, 100), true, [HeldBy(Press(0xA2))],
                               Frame(0, 0, [], [], [Press(0xA4), Press(0xA0), Press(0x43)]))
    ensures var next := NextWorld(w, Tick(Together({1})));
            next.pump == AtSlave(Point(0, 100), false, COMBO, EMPTY) && 0x2E in next.slave.down
  {
    DeskBounds();
    ThreeMore(w.slave);
    var f := w.pump.hook.pending;
    assert !EscapeComboHeld(COMBO) by { assert forall i | 0 <= i < |COMBO| :: COMBO[i].vk !in {ESCAPE}; }
    hide BoundsOf, EscapeComboHeld, TrackAll, KeyMessages, ObeyAll, Forwarded;
    ForwardedKeys(w.slave, Point(0, 100), f);
  }

  lemma TypesThree(w: World, x: World, y: World, z: World)
    requires w.pump == AtSlave(Point(0, 100), true, [HeldBy(Press(0xA2))], EMPTY)
    requires x == NextWorld(w, ESCAPES[0]) && y == NextWorld(x, ESCAPES[1]) && z == NextWorld(y, ESCAPES[2])
    ensures z.pump == AtSlave(Point(0, 100), true, [HeldBy(Press(0xA2))], Frame(0, 0, [], [], [Press(0xA4), Press(0xA0), Press(0x43)]))
  {
    hide Step;
  }

  lemma LetsGo(w: World, x: World, y: World)
    requires w.pump == AtSlave(Point(0, 100), false, COMBO, EMPTY)
    requires x == NextWorld(w, ESCAPES[4]) && y == NextWorld(x, ESCAPES[5])
    ensures y.pump == AtSlave(Point(0, 100), false, COMBO, Frame(0, 0, [], [], [Press(0x1B), Release(0x43)])) && y.slave == w.slave
  {
    hide Step;
  }

  lemma EscapeTail(vs: seq<World>)
    requires |vs| == 8 && vs[0].pump == AtSlave(Point(0, 100), true, [HeldBy(Press(0xA2))], EMPTY)
    requires vs[1] == NextWorld(vs[0], ESCAPES[0]) && vs[2] == NextWorld(vs[1], ESCAPES[1]) && vs[3] == NextWorld(vs[2], ESCAPES[2])
    requires vs[4] == NextWorld(vs[3], ESCAPES[3])
    requires vs[5] == NextWorld(vs[4], ESCAPES[4]) && vs[6] == NextWorld(vs[5], ESCAPES[5]) && vs[7] == NextWorld(vs[6], ESCAPES[6])
    ensures Escapes(vs[6].pump, ESCAPES[6]) && vs[7].pump.owned && 0x2E in vs[7].slave.down
  {
    hide NextWorld, Escapes;
    TypesThree(vs[0], vs[1], vs[2], vs[3]);
    TypesCombo(vs[3]);
    LetsGo(vs[4], vs[5], vs[6]);
    KeyLostInEscape(vs[6], Together({1}));
    EscapeOwns(vs[6], Together({1}));
  }

  /** The user holds left Control, Alt, Shift and C on Slave, and lets go of C in the very frame in
      which Escape completes the emergency combination. C stays down on Slave. */
  lemma KeyStaysDownAfterEscape() returns (ws: seq<World>)
    ensures IsActivation(ws, KEY_LOST, Usual)
    ensures Escapes(ws[10].pump, KEY_LOST[10]) && ws[11].pump.owned && 0x2E in ws[11].slave.down
  {
    ws := Replay(NEW, KEY_LOST);
    ReplayIsActivation(KEY_LOST);
    ReplayCrosses(Press(0xA2), {1}, ESCAPES);
    assert KEY_LOST[10] == ESCAPES[6];
    hide IsActivation, Replay, SetModifiers, NextWorld, Escapes;
    var vs := ws[4..];
    forall i | 0 <= i < |ESCAPES| ensures vs[i + 1] == NextWorld(vs[i], ESCAPES[i]) {
      assert ws[i + 5] == NextWorld(ws[i + 4], ESCAPES[i]);
    }
    EscapeTail(vs);
  }

  lemma EscapeOwns(w: World, env: Env)
    requires env.peer.Linked? && Escapes(w.pump, Tick(env))
    ensures NextWorld(w, Tick(env)).pump.owned
  {
    hide MasterOwned, SlaveOwned, EscapeComboHeld, TrackAll;
  }

  // ------------------------------------------------------------------------------------
  // A return that bounces
  // ------------------------------------------------------------------------------------

  const REST := Tick(Together({}))

  const PUSH_UP: seq<Event> := [Os(RawDelta(0, -110)), REST, Os(RawDelta(0, -10)), REST, REST, REST]

  const SEAM_BOUNCES: seq<Event> := CrossOver(Press(0x43), {}) + PUSH_UP

  lemma DeskIsShown()
    ensures BothShown(Together({})) && Displayed(Together({}))
  {
    RealDesktopsAreShown(Together({}));
  }

  lemma PushesUp(p: Pump, held: seq<HeldKey>)
    requires p == AtSlave(Point(0, 100), true, held, Frame(0, -110, [], [], [])) && !EscapeComboHeld(held)
    ensures Step(p, Together({})).pump == AtSlave(Point(0, 0), false, held, EMPTY)
  {
    DeskBounds();
    hide BoundsOf, EscapeComboHeld;
    assert TrackAll(held, []) == held;
  }

  lemma ReturnsUp(p: Pump, held: seq<HeldKey>)
    requires p == AtSlave(Point(0, 0), false, held, Frame(0, -10, [], [], [])) && !EscapeComboHeld(held)
    ensures Step(p, Together({})).pump.owned && TrackAll(p.held, p.hook.pending.keys) == held
  {
    assert TrackAll(held, []) == held;
    DeskBounds();
    DeskIsShown();
    hide BoundsOf, EscapeComboHeld, Step;
    ComesHome(p, Together({}));
  }

  lemma BouncesInTwo(p: Pump, held: seq<HeldKey>)
    requires p == AtSlave(Point(0, 0), false, held, Frame(0, -10, [], [], [])) && !EscapeComboHeld(held)
    ensures !Rested(Step(p, Together({})).pump, Always(Together({})), 2).owned
  {
    ReturnsUp(p, held);
    DeskBounds();
    DeskIsShown();
    hide BoundsOf, EscapeComboHeld, Rested, BothShown, Step, TrackAll;
    BounceToSlaveIff(p, Together({}), 2);
  }

  lemma TwoRests(p: Pump, env: Env)
    ensures Rested(p, Always(env), 2) == Step(Step(p, env).pump, env).pump
  {
    hide Step;
    assert Rested(p, Always(env), 1) == Step(Rested(p, Always(env), 0), env).pump;
  }

  lemma CIsNoCombo()
    ensures !EscapeComboHeld([HeldBy(Press(0x43))])
  {
    assert forall i | 0 <= i < 1 :: [HeldBy(Press(0x43))][i].vk !in MENUS;
  }

  lemma Reports(p: Pump, q: Pump, at: Point, first: bool, held: seq<HeldKey>, dx: int, dy: int)
    requires p == AtSlave(at, first, held, EMPTY) && q == Next(p, Os(RawDelta(dx, dy)))
    ensures q == AtSlave(at, first, held, Frame(dx, dy, [], [], []))
  {
    hide Step;
  }

  lemma GoesUp(v: World, w: World, x: World, y: World, held: seq<HeldKey>)
    requires v.pump == AtSlave(Point(0, 100), true, held, EMPTY) && !EscapeComboHeld(held)
    requires w == NextWorld(v, Os(RawDelta(0, -110))) && x == NextWorld(w, REST) && y == NextWorld(x, Os(RawDelta(0, -10)))
    ensures y.pump == AtSlave(Point(0, 0), false, held, Frame(0, -10, [], [], []))
  {
    hide NextWorld, Step, EscapeComboHeld, Seen, AtSlave;
    StaysInPump(v, Os(RawDelta(0, -110)));
    StaysInPump(w, REST);
    StaysInPump(x, Os(RawDelta(0, -10)));
    Reports(v.pump, w.pump, Point(0, 100), true, held, 0, -110);
    PushesUp(w.pump, held);
    Reports(x.pump, y.pump, Point(0, 0), false, held, 0, -10);
  }

  lemma BouncesFrom(y: World, home: World, once: World, twice: World)
    requires y.pump == AtSlave(Point(0, 0), false, [HeldBy(Press(0x43))], Frame(0, -10, [], [], []))
    requires home == NextWorld(y, REST) && once == NextWorld(home, REST) && twice == NextWorld(once, REST)
    ensures home.pump.owned && !twice.pump.owned
  {
    hide NextWorld, Step, EscapeComboHeld, Rested, Usual;
    CIsNoCombo();
    StaysInPump(y, REST);
    StaysInPump(home, REST);
    StaysInPump(once, REST);
    ReturnsUp(y.pump, [HeldBy(Press(0x43))]);
    BouncesInTwo(y.pump, [HeldBy(Press(0x43))]);
    TwoRests(home.pump, Together({}));
  }

  /** At the upper end of the seam the user pushes up, not across. The margin is on either axis, so
      control returns to Master; two frames later, with nothing moving, Slave has it again. */
  lemma SeamBounces() returns (ws: seq<World>)
    ensures IsActivation(ws, SEAM_BOUNCES, Usual)
    ensures !ws[7].pump.owned && ws[8].pump.owned && !ws[10].pump.owned
  {
    ws := Replay(NEW, SEAM_BOUNCES);
    ReplayIsActivation(SEAM_BOUNCES);
    ReplayCrosses(Press(0x43), {}, PUSH_UP);
    hide IsActivation, Replay, SetModifiers, NextWorld;
    assert ws[5] == NextWorld(ws[4], PUSH_UP[0]) && ws[6] == NextWorld(ws[5], PUSH_UP[1]);
    assert ws[7] == NextWorld(ws[6], PUSH_UP[2]) && ws[8] == NextWorld(ws[7], PUSH_UP[3]);
    assert ws[9] == NextWorld(ws[8], PUSH_UP[4]) && ws[10] == NextWorld(ws[9], PUSH_UP[5]);
    CIsNoCombo();
    GoesUp(ws[4], ws[5], ws[6], ws[7], [HeldBy(Press(0x43))]);
    BouncesFrom(ws[7], ws[8], ws[9], ws[10]);
  }

  // ------------------------------------------------------------------------------------
  // Takeovers that start away from the cursor
  // ------------------------------------------------------------------------------------

  const FLING: seq<Event> := [Os(RawDelta(-2000, 0)), REST, REST]

  const FLUNG_OFF: seq<Event> := CrossOver(Press(0x43), {}) + FLING

  lemma FlingsLeft(p: Pump, held: seq<HeldKey>)
    requires p == AtSlave(Point(0, 100), true, held, Frame(-2000, 0, [], [], [])) && !EscapeComboHeld(held)
    ensures Step(p, Together({})).pump == AtSlave(Point(-2000, 100), false, held, EMPTY)
  {
    DeskBounds();
    hide BoundsOf, EscapeComboHeld;
    assert TrackAll(held, []) == held;
  }

  lemma LandsLeft(p: Pump, held: seq<HeldKey>)
    requires p == AtSlave(Point(-2000, 100), false, held, EMPTY) && !EscapeComboHeld(held)
    ensures var q := Step(p, Together({})).pump;
            q.owned && q.active && q.logical == q.hook.anchor == Point(-80, 100) && !TracksWhileMasters(q, DESK)
  {
    DeskBounds();
    hide BoundsOf, EscapeComboHeld;
    assert TrackAll(held, []) == held;
  }

  lemma Flung(v: World, w: World, x: World, y: World)
    requires v.pump == AtSlave(Point(0, 100), true, [HeldBy(Press(0x43))], EMPTY)
    requires w == NextWorld(v, FLING[0]) && x == NextWorld(w, FLING[1]) && y == NextWorld(x, FLING[2])
    ensures y.pump.owned && y.pump.logical == Point(-80, 100) && !TracksWhileMasters(y.pump, DESK)
  {
    hide NextWorld, Step, EscapeComboHeld, Usual, TracksWhileMasters;
    CIsNoCombo();
    StaysInPump(v, FLING[0]);
    StaysInPump(w, FLING[1]);
    StaysInPump(x, FLING[2]);
    assert w.pump == AtSlave(Point(0, 100), true, [HeldBy(Press(0x43))], Frame(-2000, 0, [], [], []));
    FlingsLeft(w.pump, [HeldBy(Press(0x43))]);
    LandsLeft(x.pump, [HeldBy(Press(0x43))]);
  }

  /** One swift move of 2000 pixels brings control back 80 pixels beyond the far edge of Master's own
      desktop: the tracked point is off it, where the OS never puts the cursor. */
  lemma FlungOffTheDesk() returns (ws: seq<World>)
    ensures IsActivation(ws, FLUNG_OFF, Usual)
    ensures ws[7].pump.owned && ws[7].pump.logical == Point(-80, 100) && !TracksWhileMasters(ws[7].pump, DESK)
  {
    ws := Replay(NEW, FLUNG_OFF);
    ReplayIsActivation(FLUNG_OFF);
    ReplayCrosses(Press(0x43), {}, FLING);
    hide IsActivation, Replay, SetModifiers, NextWorld, TracksWhileMasters;
    assert ws[5] == NextWorld(ws[4], FLING[0]) && ws[6] == NextWorld(ws[5], FLING[1]) && ws[7] == NextWorld(ws[6], FLING[2]);
    Flung(ws[4], ws[5], ws[6], ws[7]);
  }

  const OFF := Together({}).(peer := NotConnected)

  function Pumps(ws: seq<World>): seq<Pump> { seq(|ws|, i requires 0 <= i < |ws| => ws[i].pump) }

  lemma ReplayIsRun(es: seq<Event>)
    ensures IsRun(Pumps(Replay(NEW, es)), es)
  {
    var ws := Replay(NEW, es);
    hide NextWorld, Replay, Next;
    forall i | 0 <= i < |es| ensures Pumps(ws)[i + 1] == Next(Pumps(ws)[i], es[i]) { StaysInPump(ws[i], es[i]); }
  }

  const DROP: seq<Event> := [Os(RawDelta(500, 0)), Tick(OFF), REST]

  const LINK_DROPS: seq<Event> := CrossOver(Press(0x43), {}) + DROP

  lemma Reinstalls(p: Pump)
    requires p == Pump(false, true, Point(0, 100), true, [], Hook(false, false, Point(1920, 100), Frame(500, 0, [], [], [])))
    ensures var q := Step(p, Together({})).pump;
            && q.owned && q.logical == Point(600, 100) && q.hook.anchor == START_POINT && q.hook.pending == EMPTY
            && !TracksWhileMasters(q, DESK)
  {
    DeskBounds();
    hide BoundsOf, EscapeComboHeld;
    assert TrackAll([], []) == [];
  }

  lemma Dropped(v: World, w: World, x: World, y: World)
    requires v.pump == AtSlave(Point(0, 100), true, [HeldBy(Press(0x43))], EMPTY)
    requires w == NextWorld(v, DROP[0]) && x == NextWorld(w, DROP[1]) && y == NextWorld(x, DROP[2])
    ensures y.pump.owned && y.pump.logical == Point(600, 100) && y.pump.hook.anchor == START_POINT
    ensures !TracksWhileMasters(y.pump, DESK)
  {
    hide NextWorld, MasterOwned, SlaveOwned, Middle, Usual, TracksWhileMasters;
    StaysInPump(v, DROP[0]);
    StaysInPump(w, DROP[1]);
    StaysInPump(x, DROP[2]);
    assert x.pump == Pump(false, true, Point(0, 100), true, [], Hook(false, false, Point(1920, 100), Frame(500, 0, [], [], [])));
    hide Step;
    Reinstalls(x.pump);
  }

  /** The link drops while motion for Slave waits in the hook. When it is back, that motion moves the
      tracked point 500 pixels away from the cursor, which has not moved. */
  lemma LinkDropMovesThePoint() returns (ws: seq<World>)
    ensures IsRun(Pumps(ws), LINK_DROPS)
    ensures ws[7].pump.owned && ws[7].pump.logical == Point(600, 100) && ws[7].pump.hook.anchor == START_POINT
    ensures !TracksWhileMasters(ws[7].pump, DESK)
  {
    ws := Replay(NEW, LINK_DROPS);
    ReplayIsRun(LINK_DROPS);
    ReplayCrosses(Press(0x43), {}, DROP);
    hide IsRun, Replay, SetModifiers, NextWorld, Pumps, TracksWhileMasters;
    assert ws[5] == NextWorld(ws[4], DROP[0]) && ws[6] == NextWorld(ws[5], DROP[1]) && ws[7] == NextWorld(ws[6], DROP[2]);
    Dropped(ws[4], ws[5], ws[6], ws[7]);
  }
}

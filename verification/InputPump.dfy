/** Who owns keyboard and mouse (src/app/input_pump.cpp). Once a frame the pump polls the hook and
    decides; everything it sends goes out in order on the connection to Slave. */
module InputPump {
  import opened Common
  import opened Crossing
  import opened InputHook

  datatype HeldKey = HeldKey(vk: nat, scancode: nat, extended: bool)

  datatype Message =
    | MouseAbsolute(p: Point)
    | MouseButton(button: ButtonEvent)
    | MouseWheel(delta: int)
    | KeyMessage(key: KeyEvent)
    | ModifierSync(mask: set<nat>)       // 0 Shift, 1 Control, 2 Alt, 3 Meta

  /** The connection as `status()` shows it. */
  datatype Peer = NoServer | NotConnected | Linked(monitors: seq<Monitor>)

  /** What one frame finds: the connection, Master's displays, where the peer is arranged, the real
      cursor, and the modifiers physically down. */
  datatype Env = Env(peer: Peer, local: seq<Monitor>, arrangement: Option<Entry>, cursor: Option<Point>, mask: set<nat>)

  datatype Pump = Pump(active: bool, owned: bool, logical: Point, justHandedOff: bool, held: seq<HeldKey>, hook: Hook)

  /** A frame's outcome: the new state, what was sent, and which keys were released locally. */
  datatype Result = Result(pump: Pump, sent: seq<Message>, releasedLocally: seq<HeldKey>, disconnect: bool)

  const RETURN_MARGIN: int := 4

  /** Division by two, toward zero. */
  function Half(n: int): int { if n >= 0 then n / 2 else -((-n) / 2) }

  function Middle(ms: seq<Monitor>): Point {
    var b := BoundsOf(ms);
    Point(Half(b.minX + b.maxX), Half(b.minY + b.maxY))
  }

  // ------------------------------------------------------------------------------------
  // Held keys
  // ------------------------------------------------------------------------------------

  function Find(held: seq<HeldKey>, vk: nat): (i: nat)
    ensures i <= |held| && (forall j | 0 <= j < i :: held[j].vk != vk) && (i < |held| ==> held[i].vk == vk)
  {
    if held == [] then 0 else if held[0].vk == vk then 0 else 1 + Find(held[1..], vk)
  }

  function Track(held: seq<HeldKey>, k: KeyEvent): seq<HeldKey> {
    var i := Find(held, k.vk);
    if k.down then
      if i == |held| then held + [HeldKey(k.vk, k.scancode, k.extended)]
      else held[i := HeldKey(k.vk, k.scancode, k.extended)]
    else if i < |held| then held[..i] + held[i + 1..] else held
  }

  function TrackAll(held: seq<HeldKey>, ks: seq<KeyEvent>): seq<HeldKey> {
    if ks == [] then held else Track(TrackAll(held, ks[..|ks| - 1]), ks[|ks| - 1])
  }

  function KeyUp(h: HeldKey): Message { KeyMessage(KeyEvent(h.vk, h.scancode, false, h.extended)) }

  function Releases(held: seq<HeldKey>): seq<Message> { seq(|held|, i requires 0 <= i < |held| => KeyUp(held[i])) }

  const CONTROLS: set<nat> := {0x11, 0xA2, 0xA3}
  const MENUS: set<nat> := {0x12, 0xA4, 0xA5}
  const SHIFTS: set<nat> := {0x10, 0xA0, 0xA1}
  const ESCAPE: nat := 0x1B

  predicate AnyHeld(held: seq<HeldKey>, vks: set<nat>) { exists i :: 0 <= i < |held| && held[i].vk in vks }

  predicate EscapeComboHeld(held: seq<HeldKey>) {
    AnyHeld(held, CONTROLS) && AnyHeld(held, MENUS) && AnyHeld(held, SHIFTS) && AnyHeld(held, {ESCAPE})
  }

  predicate Has(held: seq<HeldKey>, vk: nat) { exists i :: 0 <= i < |held| && held[i].vk == vk }

  /** The combination, key by key: Control, Alt and Shift in any of the three ways in which Windows
      names them, and Escape. */
  lemma EscapeIs(held: seq<HeldKey>)
    ensures EscapeComboHeld(held) <==>
              && (Has(held, 0x11) || Has(held, 0xA2) || Has(held, 0xA3))
              && (Has(held, 0x12) || Has(held, 0xA4) || Has(held, 0xA5))
              && (Has(held, 0x10) || Has(held, 0xA0) || Has(held, 0xA1))
              && Has(held, 0x1B)
  {
  }

  /** The middle is rounded toward zero. */
  lemma MiddleRounds(ms: seq<Monitor>)
    ensures var b, p := BoundsOf(ms), Middle(ms);
            && RoundsToZero(b.minX + b.maxX, p.x) && RoundsToZero(b.minY + b.maxY, p.y)
  {
    hide BoundsOf;
  }

  predicate RoundsToZero(n: int, half: int) { if n >= 0 then 2 * half <= n < 2 * half + 2 else 2 * half - 2 < n <= 2 * half }

  // ------------------------------------------------------------------------------------
  // One frame
  // ------------------------------------------------------------------------------------

  function Quiet(p: Pump): Result { Result(p, [], [], false) }

  function Deactivated(p: Pump): Pump {
    p.(active := false, owned := true, held := [], hook := Uninstalled(Resumed(p.hook)))
  }

  function Activated(p: Pump, env: Env): Pump {
    if p.active then p else
      p.(active := true, owned := true, hook := Installed(p.hook, env.cursor.GetOr(Point(0, 0))),
         logical := env.cursor.GetOr(Middle(env.local)))
  }

  /** Control comes back to Master at `at`. */
  function Returned(p: Pump, at: Point): Pump {
    p.(owned := true, logical := at, justHandedOff := true, hook := ResumedAt(p.hook, at))
  }

  function ReturnMessages(held: seq<HeldKey>): seq<Message> { Releases(held) + [ModifierSync({})] }

  function Moved(p: Pump, f: Frame): Point { Point(p.logical.x + f.dx, p.logical.y + f.dy) }

  function MasterOwned(p: Pump, env: Env, f: Frame): (r: Result)
    requires env.peer.Linked?
    ensures !r.disconnect && (r.releasedLocally == [] || !r.pump.owned)
  {
    var m := BoundsOf(env.local);
    var at := Moved(p, f);
    var q := p.(justHandedOff := false);
    var there := if env.arrangement.Some? && Crosses(m, env.arrangement.value, at)
                 then Handoff(m, env.arrangement.value, env.peer.monitors, at) else None;
    if !p.justHandedOff && there.Some? then
      Result(q.(owned := false, logical := there.value, justHandedOff := true, hook := Suppressed(p.hook)),
             [MouseAbsolute(there.value), ModifierSync(env.mask)], p.held, false)
    else Quiet(q.(logical := CheckBoundary(m, at).clamped))
  }

  function Forwarded(at: Point, f: Frame): seq<Message> {
    [MouseAbsolute(at)]
    + seq(|f.buttons|, i requires 0 <= i < |f.buttons| => MouseButton(f.buttons[i]))
    + seq(|f.wheel|, i requires 0 <= i < |f.wheel| => MouseWheel(f.wheel[i]))
    + seq(|f.keys|, i requires 0 <= i < |f.keys| => KeyMessage(f.keys[i]))
  }

  predicate PastMargin(bc: BoundaryCheck, at: Point) {
    var ox, oy := at.x - bc.clamped.x, at.y - bc.clamped.y;
    bc.crossed && (ox >= RETURN_MARGIN || ox <= -RETURN_MARGIN || oy >= RETURN_MARGIN || oy <= -RETURN_MARGIN)
  }

  /** The one edge of the peer that leads back, if the peer is arranged at all. */
  function WayBack(env: Env): Option<Entry>
    requires env.peer.Linked?
  {
    match env.arrangement
    case None => None
    case Some(entry) => Some(InvertEntry(entry, BoundsOf(env.local), BoundsOf(env.peer.monitors)))
  }

  /** The logical point after a frame that stays with Slave: overshoot survives only across the
      edge that leads back. */
  function Settled(b: Bounds, back: Option<Entry>, at: Point): Point {
    var bc := CheckBoundary(b, at);
    if back.Some? && Crosses(b, back.value, at) then
      if bc.direction.Horizontal() then Point(at.x, bc.clamped.y) else Point(bc.clamped.x, at.y)
    else bc.clamped
  }

  function SlaveOwned(p: Pump, env: Env, f: Frame): (r: Result)
    requires env.peer.Linked?
    ensures !r.disconnect && r.releasedLocally == []
  {
    var b := BoundsOf(env.peer.monitors);
    var at := Moved(p, f);
    var bc := CheckBoundary(b, at);
    var back := WayBack(env);
    var q := p.(justHandedOff := false, logical := Settled(b, back, at));
    var sent := Forwarded(bc.clamped, f);
    if p.justHandedOff || !PastMargin(bc, at) || back.None? || !Crosses(b, back.value, at) then Result(q, sent, [], false)
    else match Handoff(b, back.value, env.local, at)
      case None => Result(q, sent, [], false)
      case Some(home) => Result(Returned(q, home), sent + ReturnMessages(p.held), [], false)
  }

  /** A frame of input `f`, its keys already tracked. */
  function Framed(t: Pump, env: Env, f: Frame): Result
    requires env.peer.Linked?
  {
    if EscapeComboHeld(t.held) && !t.owned then
      Result(Returned(t, Middle(env.local)), ReturnMessages(t.held), [], true)
    else if t.owned then MasterOwned(t, env, f)
    else SlaveOwned(t, env, f)
  }

  /** `pump_input`, for a Master. */
  function Step(p: Pump, env: Env): Result {
    if !env.peer.Linked? then Quiet(if p.active then Deactivated(p) else p)
    else
      var a := Activated(p, env);
      if !a.owned && env.peer.monitors == [] then
        Result(Returned(a, Middle(env.local)), ReturnMessages(a.held), [], false)
      else
        var f := a.hook.pending;
        Framed(a.(hook := Polled(a.hook), held := TrackAll(a.held, f.keys)), env, f)
  }

  // ------------------------------------------------------------------------------------
  // The pump as the source has it: fields updated in place, messages sent one by one
  // ------------------------------------------------------------------------------------

  class InputPump {
    var active: bool
    var owned: bool
    var logical: Point
    var justHandedOff: bool
    var held: seq<HeldKey>
    const hook: InputHook
    var sent: seq<Message>                  // everything handed to `send_input`, in order
    var releasedLocally: seq<HeldKey>       // every key-up injected into the local OS
    var disconnects: nat                    // calls of `disconnect_current`

    ghost function View(): Pump
      reads this, hook
    {
      Pump(active, owned, logical, justHandedOff, held, hook.View())
    }

    constructor ()
      ensures fresh(hook) && View() == Pump(false, true, Point(0, 0), false, [], START)
      ensures sent == [] && releasedLocally == [] && disconnects == 0
    {
      active := false;
      owned := true;
      logical := Point(0, 0);
      justHandedOff := false;
      held := [];
      hook := new InputHook();
      sent := [];
      releasedLocally := [];
      disconnects := 0;
    }

    method Send(m: Message)
      modifies this`sent
      ensures sent == old(sent) + [m]
    {
      sent := sent + [m];
    }

    /** Everything but the outgoing messages stays; they grow by exactly `more`. */
    twostate predicate Sends(more: seq<Message>)
      reads this
    {
      sent == old(sent) + more
    }

    method ReleaseHeldKeysOnSlave()
      modifies this`sent
      ensures Sends(ReturnMessages(held))
    {
      for i := 0 to |held|
        invariant sent == old(sent) + Releases(held)[..i]
      {
        assert Releases(held)[..i + 1] == Releases(held)[..i] + [KeyUp(held[i])];
        Send(KeyMessage(KeyEvent(held[i].vk, held[i].scancode, false, held[i].extended)));
      }
      Send(ModifierSync({}));
      assert sent == old(sent) + (Releases(held) + [ModifierSync({})]);
    }

    method ReleaseHeldKeysLocally()
      modifies this`releasedLocally
      ensures releasedLocally == old(releasedLocally) + held
    {
      for i := 0 to |held|
        invariant releasedLocally == old(releasedLocally) + held[..i]
      {
        releasedLocally := releasedLocally + [held[i]];
      }
    }

    /** `find_if`, then refresh, append or erase. */
    method TrackKey(k: KeyEvent)
      modifies this`held
      ensures held == Track(old(held), k)
    {
      var it := 0;
      while it < |held| && held[it].vk != k.vk
        invariant it <= |held| && forall j | 0 <= j < it :: held[j].vk != k.vk
      {
        it := it + 1;
      }
      assert it == Find(held, k.vk);
      if k.down {
        if it == |held| {
          held := held + [HeldKey(k.vk, k.scancode, k.extended)];
        } else {
          held := held[it := HeldKey(k.vk, k.scancode, k.extended)];
        }
      } else if it < |held| {
        held := held[..it] + held[it + 1..];
      }
    }

    method TrackKeys(ks: seq<KeyEvent>)
      modifies this`held
      ensures held == TrackAll(old(held), ks)
    {
      for i := 0 to |ks|
        invariant held == TrackAll(old(held), ks[..i])
      {
        assert ks[..i + 1][..i] == ks[..i];
        TrackKey(ks[i]);
      }
      assert ks[..|ks|] == ks;
    }

    method EscapeHeld() returns (combo: bool)
      ensures combo == EscapeComboHeld(held)
    {
      var ctrl, alt, shift, esc := false, false, false, false;
      for i := 0 to |held|
        invariant ctrl == AnyHeld(held[..i], CONTROLS) && alt == AnyHeld(held[..i], MENUS)
        invariant shift == AnyHeld(held[..i], SHIFTS) && esc == AnyHeld(held[..i], {ESCAPE})
      {
        AnyHeldExtends(held, i, CONTROLS);
        AnyHeldExtends(held, i, MENUS);
        AnyHeldExtends(held, i, SHIFTS);
        AnyHeldExtends(held, i, {ESCAPE});
        hide AnyHeld;
        if held[i].vk in CONTROLS {
          ctrl := true;
        } else if held[i].vk in MENUS {
          alt := true;
        } else if held[i].vk in SHIFTS {
          shift := true;
        } else if held[i].vk == ESCAPE {
          esc := true;
        }
      }
      assert held[..|held|] == held;
      combo := ctrl && alt && shift && esc;
    }

    method Deactivate()
      modifies this`active, this`owned, this`held, hook
      ensures View() == Deactivated(old(View()))
    {
      hook.Resume();
      hook.Uninstall();
      active := false;
      owned := true;
      held := [];
    }

    /** The three ways back to Master share this tail; only where to differs. */
    method ComeBack(at: Point)
      modifies this`owned, this`logical, this`justHandedOff, this`sent, hook
      ensures View() == Returned(old(View()), at) && Sends(ReturnMessages(held))
    {
      owned := true;
      logical := at;
      justHandedOff := true;
      hook.ResumeAt(at);
      ReleaseHeldKeysOnSlave();
    }

    method HandleMasterOwned(env: Env, frame: Frame)
      requires env.peer.Linked?
      modifies this`owned, this`logical, this`justHandedOff, this`sent, this`releasedLocally, hook
      ensures var r := MasterOwned(old(View()), env, frame);
              View() == r.pump && Sends(r.sent) && releasedLocally == old(releasedLocally) + r.releasedLocally
    {
      hide BoundsOf, CheckBoundary, ComputeCrossing;
      logical := Point(logical.x + frame.dx, logical.y + frame.dy);
      var masterBounds := ComputeBounds(env.local);
      var bc := CheckBoundary(masterBounds, logical);
      var skipCrossing := justHandedOff;
      justHandedOff := false;
      if !skipCrossing && bc.crossed && env.arrangement.Some? && env.arrangement.value.direction == bc.direction {
        var entry := env.arrangement.value;
        var cross := ComputeCrossing(env.peer.monitors, entry.direction, entry.offset, bc.perpPos);
        if cross.Some? {
          var horizontal := bc.direction.Horizontal();
          var overshoot := if horizontal then logical.x - bc.clamped.x else logical.y - bc.clamped.y;
          owned := false;
          logical := Point(cross.value.x + (if horizontal then overshoot else 0),
                           cross.value.y + (if horizontal then 0 else overshoot));
          justHandedOff := true;
          hook.Suppress();
          Send(MouseAbsolute(logical));
          Send(ModifierSync(env.mask));
          ReleaseHeldKeysLocally();
          assert sent == old(sent) + [MouseAbsolute(logical), ModifierSync(env.mask)];
          return;
        }
      }
      logical := bc.clamped;
      assert sent == old(sent) + [] && releasedLocally == old(releasedLocally) + [];
    }

    method Forward(at: Point, frame: Frame)
      modifies this`sent
      ensures Sends(Forwarded(at, frame))
    {
      Send(MouseAbsolute(at));
      ghost var buttons := seq(|frame.buttons|, i requires 0 <= i < |frame.buttons| => MouseButton(frame.buttons[i]));
      ghost var wheel := seq(|frame.wheel|, i requires 0 <= i < |frame.wheel| => MouseWheel(frame.wheel[i]));
      ghost var keys := seq(|frame.keys|, i requires 0 <= i < |frame.keys| => KeyMessage(frame.keys[i]));
      for i := 0 to |frame.buttons|
        invariant sent == old(sent) + [MouseAbsolute(at)] + buttons[..i]
      {
        Send(MouseButton(frame.buttons[i]));
      }
      for i := 0 to |frame.wheel|
        invariant sent == old(sent) + [MouseAbsolute(at)] + buttons + wheel[..i]
      {
        Send(MouseWheel(frame.wheel[i]));
      }
      for i := 0 to |frame.keys|
        invariant sent == old(sent) + [MouseAbsolute(at)] + buttons + wheel + keys[..i]
      {
        Send(KeyMessage(frame.keys[i]));
      }
      assert sent == old(sent) + ([MouseAbsolute(at)] + buttons + wheel + keys);
    }

    method HandleSlaveOwned(env: Env, frame: Frame)
      requires env.peer.Linked?
      modifies this`owned, this`logical, this`justHandedOff, this`sent, hook
      ensures var r := SlaveOwned(old(View()), env, frame);
              View() == r.pump && Sends(r.sent)
    {
      hide BoundsOf, CheckBoundary, ComputeCrossing, InvertEntry, Forwarded, ReturnMessages;
      logical := Point(logical.x + frame.dx, logical.y + frame.dy);
      var peerBounds := ComputeBounds(env.peer.monitors);
      var bc := CheckBoundary(peerBounds, logical);
      var skipCrossing := justHandedOff;
      justHandedOff := false;
      var overshootX, overshootY := logical.x - bc.clamped.x, logical.y - bc.clamped.y;
      var pastMargin := bc.crossed && ((overshootX >= RETURN_MARGIN || overshootX <= -RETURN_MARGIN)
                                       || (overshootY >= RETURN_MARGIN || overshootY <= -RETURN_MARGIN));
      var masterBounds := ComputeBounds(env.local);
      var inv := None;
      if env.arrangement.Some? {
        inv := Some(InvertEntry(env.arrangement.value, masterBounds, peerBounds));
      }
      var crossableEdge := bc.crossed && inv.Some? && bc.direction == inv.value.direction;
      var horizontal := bc.direction.Horizontal();
      Forward(bc.clamped, frame);
      if crossableEdge {
        if horizontal {
          logical := Point(logical.x, bc.clamped.y);
        } else {
          logical := Point(bc.clamped.x, logical.y);
        }
      } else {
        logical := bc.clamped;
      }
      if skipCrossing || !pastMargin || !crossableEdge {
        return;
      }
      var cross := ComputeCrossing(env.local, inv.value.direction, inv.value.offset, bc.perpPos);
      if cross.None? {
        return;
      }
      var overshoot := if horizontal then overshootX else overshootY;
      ghost var forwarded := sent;
      ComeBack(Point(cross.value.x + (if horizontal then overshoot else 0),
                     cross.value.y + (if horizontal then 0 else overshoot)));
      assert sent == old(sent) + (Forwarded(bc.clamped, frame) + ReturnMessages(held));
    }

    method PumpInput(env: Env)
      modifies this, hook
      ensures var r := Step(old(View()), env);
              && View() == r.pump && Sends(r.sent) && releasedLocally == old(releasedLocally) + r.releasedLocally
              && disconnects == old(disconnects) + (if r.disconnect then 1 else 0)
    {
      assert sent + [] == sent && releasedLocally + [] == releasedLocally;
      if !env.peer.Linked? {
        if active {
          Deactivate();
        }
        return;
      }
      if !active {
        hook.Install(env.cursor.GetOr(Point(0, 0)));
        active := true;
        owned := true;
        if env.cursor.Some? {
          logical := env.cursor.value;
        } else {
          logical := MiddleOf(env.local);
        }
      }
      assert View() == Activated(old(View()), env);
      hide Activated;
      if !owned && env.peer.monitors == [] {
        var safe := MiddleOf(env.local);
        ComeBack(safe);
        return;
      }
      var frame := hook.Poll();
      TrackKeys(frame.keys);
      hide Framed;
      HandleFrame(env, frame);
    }

    method HandleFrame(env: Env, frame: Frame)
      requires env.peer.Linked?
      modifies this, hook
      ensures var r := Framed(old(View()), env, frame);
              && View() == r.pump && Sends(r.sent) && releasedLocally == old(releasedLocally) + r.releasedLocally
              && disconnects == old(disconnects) + (if r.disconnect then 1 else 0)
    {
      hide EscapeComboHeld, MasterOwned, SlaveOwned;
      assert releasedLocally + [] == releasedLocally;
      var escape := EscapeHeld();
      if escape && !owned {
        var safe := MiddleOf(env.local);
        ComeBack(safe);
        disconnects := disconnects + 1;
      } else if owned {
        HandleMasterOwned(env, frame);
      } else {
        HandleSlaveOwned(env, frame);
      }
    }
  }

  lemma AnyHeldExtends(held: seq<HeldKey>, i: nat, vks: set<nat>)
    requires i < |held|
    ensures AnyHeld(held[..i + 1], vks) == (AnyHeld(held[..i], vks) || held[i].vk in vks)
  {
    var more := held[..i + 1];
    if AnyHeld(held[..i], vks) {
      var j :| 0 <= j < i && held[..i][j].vk in vks;
      assert more[j] == held[..i][j];
    }
    if AnyHeld(more, vks) {
      var j :| 0 <= j < |more| && more[j].vk in vks;
      if j < i {
        assert held[..i][j] == more[j];
      }
    }
    if held[i].vk in vks {
      assert more[i].vk in vks;
    }
  }

  method MiddleOf(ms: seq<Monitor>) returns (p: Point)
    ensures p == Middle(ms)
  {
    var b := ComputeBounds(ms);
    p := Point(Half(b.minX + b.maxX), Half(b.minY + b.maxY));
  }
}

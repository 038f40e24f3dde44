/** The input hook (src/input/hook.cpp): what the OS calls back on every mouse and keyboard event,
    and what the input pump polls once a frame. */
module InputHook {
  import opened Crossing

  datatype ButtonEvent = ButtonEvent(button: nat, down: bool)
  datatype KeyEvent = KeyEvent(vk: nat, scancode: nat, down: bool, extended: bool)
  datatype Frame = Frame(dx: int, dy: int, buttons: seq<ButtonEvent>, wheel: seq<int>, keys: seq<KeyEvent>)

  const EMPTY := Frame(0, 0, [], [], [])

  datatype Hook = Hook(installed: bool, suppress: bool, anchor: Point, pending: Frame)

  /** What can happen to an installed hook between two polls. */
  datatype OsEvent =
    | Move(pt: Point)
    | Wheel(delta: int)
    | Button(button: ButtonEvent)
    | Key(key: KeyEvent)
    | RawDelta(dx: int, dy: int)
    | Synthetic                      // anything SendInput made

  const START := Hook(false, false, Point(0, 0), EMPTY)

  function Installed(h: Hook, cursor: Point): Hook { h.(installed := true, anchor := cursor) }
  function Uninstalled(h: Hook): Hook { h.(installed := false) }
  function Suppressed(h: Hook): Hook { h.(suppress := true) }
  function Resumed(h: Hook): Hook { h.(suppress := false) }
  function ResumedAt(h: Hook, p: Point): Hook { h.(suppress := false, anchor := p) }
  function Polled(h: Hook): Hook { h.(pending := EMPTY) }

  /** What an event does to the hook. */
  function Seen(h: Hook, e: OsEvent): Hook {
    if !h.installed then h else
      var f := h.pending;
      match e
      case Synthetic => h
      case Move(pt) =>
        if h.suppress then h
        else h.(pending := f.(dx := f.dx + pt.x - h.anchor.x, dy := f.dy + pt.y - h.anchor.y), anchor := pt)
      case Wheel(delta) => h.(pending := f.(wheel := f.wheel + [delta]))
      case Button(b) => h.(pending := f.(buttons := f.buttons + [b]))
      case Key(k) => h.(pending := f.(keys := f.keys + [k]))
      case RawDelta(dx, dy) => if h.suppress then h.(pending := f.(dx := f.dx + dx, dy := f.dy + dy)) else h
  }

  /** Whether the event goes on to the local OS. Raw deltas are only a report of a move. */
  predicate PassedOn(h: Hook, e: OsEvent) {
    !h.installed || e.Synthetic? || e.RawDelta? || !h.suppress
  }

  class InputHook {
    var installed: bool
    var suppress: bool
    var anchor: Point
    var pending: Frame

    ghost function View(): Hook
      reads this
    {
      Hook(installed, suppress, anchor, pending)
    }

    constructor ()
      ensures View() == START
    {
      installed := false;
      suppress := false;
      anchor := Point(0, 0);
      pending := EMPTY;
    }

    method Install(cursor: Point)
      modifies this
      ensures View() == Installed(old(View()), cursor)
    {
      anchor := cursor;
      installed := true;
    }

    method Uninstall()
      modifies this
      ensures View() == Uninstalled(old(View()))
    {
      installed := false;
    }

    method Suppress()
      modifies this
      ensures View() == Suppressed(old(View()))
    {
      suppress := true;
    }

    method Resume()
      modifies this
      ensures View() == Resumed(old(View()))
    {
      suppress := false;
    }

    method ResumeAt(p: Point)
      modifies this
      ensures View() == ResumedAt(old(View()), p)
    {
      anchor := p;
      suppress := false;
    }

    method Poll() returns (frame: Frame)
      modifies this
      ensures frame == old(pending) && View() == Polled(old(View()))
    {
      frame := pending;
      pending := EMPTY;
    }

    /** `mouse_proc`, `keyboard_proc` and `feed_raw_delta`. */
    method OnEvent(e: OsEvent) returns (pass: bool)
      modifies this
      ensures View() == Seen(old(View()), e) && pass == PassedOn(old(View()), e)
    {
      if !installed {
        return true;
      }
      match e {
        case Synthetic =>
          return true;
        case Move(pt) =>
          if suppress {
            return false;
          }
          pending := pending.(dx := pending.dx + pt.x - anchor.x, dy := pending.dy + pt.y - anchor.y);
          anchor := pt;
          return true;
        case Wheel(delta) =>
          pending := pending.(wheel := pending.wheel + [delta]);
          return !suppress;
        case Button(b) =>
          pending := pending.(buttons := pending.buttons + [b]);
          return !suppress;
        case Key(k) =>
          pending := pending.(keys := pending.keys + [k]);
          return !suppress;
        case RawDelta(dx, dy) =>
          if suppress {
            pending := pending.(dx := pending.dx + dx, dy := pending.dy + dy);
          }
          return true;
      }
    }
  }

  // ------------------------------------------------------------------------------------
  // Between two polls
  // ------------------------------------------------------------------------------------

  function SeenAll(h: Hook, es: seq<OsEvent>): Hook {
    if es == [] then h else Seen(SeenAll(h, es[..|es| - 1]), es[|es| - 1])
  }

  function Clicked(es: seq<OsEvent>): seq<ButtonEvent> {
    if es == [] then [] else
      Clicked(es[..|es| - 1]) + match es[|es| - 1] case Button(b) => [b] case _ => []
  }

  function Turned(es: seq<OsEvent>): seq<int> {
    if es == [] then [] else
      Turned(es[..|es| - 1]) + match es[|es| - 1] case Wheel(d) => [d] case _ => []
  }

  function Typed(es: seq<OsEvent>): seq<KeyEvent> {
    if es == [] then [] else
      Typed(es[..|es| - 1]) + match es[|es| - 1] case Key(k) => [k] case _ => []
  }

  /** What the mouse itself has reported. */
  function RawMotion(es: seq<OsEvent>): Point {
    if es == [] then Point(0, 0) else
      var sum := RawMotion(es[..|es| - 1]);
      match es[|es| - 1] case RawDelta(dx, dy) => Point(sum.x + dx, sum.y + dy) case _ => sum
  }

  /** Where the cursor was last seen. */
  function LastSeen(es: seq<OsEvent>, start: Point): Point {
    if es == [] then start else
      match es[|es| - 1] case Move(pt) => pt case _ => LastSeen(es[..|es| - 1], start)
  }

  /** All that the user does between two polls of an installed hook is there at the second: every
      button, wheel turn and key in order, whoever owns the input; and as motion, while moves are let
      through, how far the cursor got, and while they are not, what the mouse itself reported. */
  lemma {:induction false} HookCollects(h: Hook, es: seq<OsEvent>)
    requires h.installed
    ensures var t := SeenAll(h, es);
            && t.installed && t.suppress == h.suppress
            && t.pending.buttons == h.pending.buttons + Clicked(es) && t.pending.wheel == h.pending.wheel + Turned(es)
            && t.pending.keys == h.pending.keys + Typed(es)
            && t.anchor == (if h.suppress then h.anchor else LastSeen(es, h.anchor))
            && var way := if h.suppress then RawMotion(es) else Point(t.anchor.x - h.anchor.x, t.anchor.y - h.anchor.y);
               t.pending.dx == h.pending.dx + way.x && t.pending.dy == h.pending.dy + way.y
  {
    if es != [] {
      var front, last := es[..|es| - 1], es[|es| - 1];
      HookCollects(h, front);
      var f := SeenAll(h, front).pending;
      assert f.buttons + [] == f.buttons && f.wheel + [] == f.wheel && f.keys + [] == f.keys;
      assert last.Button? ==> (h.pending.buttons + Clicked(front)) + [last.button] == h.pending.buttons + (Clicked(front) + [last.button]);
      assert last.Wheel? ==> (h.pending.wheel + Turned(front)) + [last.delta] == h.pending.wheel + (Turned(front) + [last.delta]);
      assert last.Key? ==> (h.pending.keys + Typed(front)) + [last.key] == h.pending.keys + (Typed(front) + [last.key]);
    }
  }
}

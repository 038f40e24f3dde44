/** Where input goes: what was reported while Slave owned it, and where the cursor is while Master
    does. */
module InputDelivery {
  import opened Common
  import opened Crossing
  import opened InputHook
  import opened InputPump
  import opened Ownership
  import opened RestAfterReturn

  // ------------------------------------------------------------------------------------
  // All input goes to the machine that owned it
  // ------------------------------------------------------------------------------------

  /** One batch of input after another. */
  function Then(f: Frame, g: Frame): Frame {
    Frame(f.dx + g.dx, f.dy + g.dy, f.buttons + g.buttons, f.wheel + g.wheel, f.keys + g.keys)
  }

  lemma ThenAssociates(f: Frame, g: Frame, h: Frame)
    ensures Then(Then(f, g), h) == Then(f, Then(g, h))
    ensures Then(f, EMPTY) == f && Then(EMPTY, f) == f
  {
    assert (f.buttons + g.buttons) + h.buttons == f.buttons + (g.buttons + h.buttons);
    assert (f.wheel + g.wheel) + h.wheel == f.wheel + (g.wheel + h.wheel);
    assert (f.keys + g.keys) + h.keys == f.keys + (g.keys + h.keys);
  }

  /** What an event is as input for Slave: while Slave owns the input, motion is what the mouse
      itself reports, for the cursor stands still. */
  function InputIn(os: OsEvent): Frame {
    match os
    case Key(k) => EMPTY.(keys := [k])
    case Button(b) => EMPTY.(buttons := [b])
    case Wheel(d) => EMPTY.(wheel := [d])
    case RawDelta(dx, dy) => EMPTY.(dx := dx, dy := dy)
    case _ => EMPTY
  }

  function InputNow(p: Pump, e: Event): Frame { if e.Tick? || p.owned then EMPTY else InputIn(e.os) }

  /** All the input that the OS reported while Slave owned it. */
  ghost function InputForSlave(ps: seq<Pump>, es: seq<Event>, n: nat): Frame
    requires n <= |es| < |ps|
  {
    if n == 0 then EMPTY else Then(InputForSlave(ps, es, n - 1), InputNow(ps[n - 1], es[n - 1]))
  }

  /** What a frame finds that was reported for Slave. */
  function FrameInput(p: Pump, e: Event): Frame {
    if e.Tick? && p.active && !p.owned then p.hook.pending else EMPTY
  }

  ghost function Handled(ps: seq<Pump>, es: seq<Event>, n: nat): Frame
    requires n <= |es| < |ps|
  {
    if n == 0 then EMPTY else Then(Handled(ps, es, n - 1), FrameInput(ps[n - 1], es[n - 1]))
  }

  /** Reported for Slave, and no frame since. */
  function Waiting(p: Pump): Frame { if p.owned then EMPTY else p.hook.pending }

  /** No input is lost on the way to the pump, duplicated or reordered: over every run, what the
      frames have found for Slave, followed by what waits in the hook while Slave owns the input,
      is exactly what was reported while it did -- motion, buttons, wheel and keys. What each
      frame then does with it is `FateOfInput`. */
  lemma {:induction false} InputGoesToItsOwner(ps: seq<Pump>, es: seq<Event>, n: nat)
    requires IsRun(ps, es) && n < |ps|
    ensures InputForSlave(ps, es, n) == Then(Handled(ps, es, n), Waiting(ps[n]))
  {
    hide Next, FrameInput, InputNow, Waiting, Then;
    if n == 0 {
      NothingWaits(ps[0]);
      ThenAssociates(EMPTY, EMPTY, EMPTY);
    } else {
      InputGoesToItsOwner(ps, es, n - 1);
      assert ps[n] == Next(ps[n - 1], es[n - 1]);
      AlwaysConsistent(ps, es, n - 1);
      hide IsRun, Consistent;
      InputIsOwners(ps[n - 1], es[n - 1], Handled(ps, es, n - 1));
    }
  }

  lemma NothingWaits(p: Pump)
    requires p.owned
    ensures Waiting(p) == EMPTY
  {
  }

  lemma TickHandsOver(p: Pump, e: Event)
    requires Consistent(p) && e.Tick?
    ensures FrameInput(p, e) == Waiting(p) && InputNow(p, e) == EMPTY && Waiting(Next(p, e)) == EMPTY
  {
    hide BoundsOf, Handoff, Crosses, TrackAll, EscapeComboHeld, CheckBoundary, PastMargin, Settled, Forwarded, ReturnMessages, InvertEntry;
  }

  lemma HookKeeps(h: Hook, os: OsEvent)
    requires h.installed && h.suppress
    ensures Seen(h, os).pending == Then(h.pending, InputIn(os))
  {
    ThenAssociates(h.pending, EMPTY, EMPTY);
  }

  lemma EventWaits(p: Pump, e: Event)
    requires Consistent(p) && e.Os?
    ensures FrameInput(p, e) == EMPTY && Waiting(Next(p, e)) == Then(Waiting(p), InputNow(p, e))
  {
    hide Step, Seen, Then, InputIn;
    ThenAssociates(EMPTY, EMPTY, EMPTY);
    if !p.owned { HookKeeps(p.hook, e.os); }
  }

  lemma InputIsOwners(p: Pump, e: Event, handled: Frame)
    requires Consistent(p)
    ensures Then(Then(handled, Waiting(p)), InputNow(p, e)) == Then(Then(handled, FrameInput(p, e)), Waiting(Next(p, e)))
  {
    hide Then, Consistent, Next, Waiting, InputNow, FrameInput;
    ThenAssociates(handled, Waiting(p), InputNow(p, e));
    ThenAssociates(Then(handled, Waiting(p)), EMPTY, EMPTY);
    ThenAssociates(handled, EMPTY, EMPTY);
    if e.Tick? { TickHandsOver(p, e); } else { EventWaits(p, e); }
  }

  // ------------------------------------------------------------------------------------
  // What a frame does with it
  // ------------------------------------------------------------------------------------

  /** What becomes of the input a slave-owned frame finds. */
  datatype Fate = ToSlave | ToMaster | ToNobody

  predicate ComboNow(p: Pump) { EscapeComboHeld(TrackAll(p.held, p.hook.pending.keys)) }

  function FateOf(p: Pump, env: Env): Fate {
    if !env.peer.Linked? || env.peer.monitors == [] then ToMaster
    else if ComboNow(p) then ToNobody
    else ToSlave
  }

  /** An ordinary frame forwards all of it: the position its motion leads to, then all buttons,
      wheel and keys, and only then whatever a return adds. When the link or Slave's last display
      has gone, none of it is sent: all of it stays in the hook, which is Master's from now on, and
      Master's next frame takes it for its own. The emergency escape drops it. */
  lemma FateOfInput(p: Pump, env: Env)
    requires Consistent(p) && p.active && !p.owned
    ensures var r, f := Step(p, env), p.hook.pending;
            match FateOf(p, env)
            case ToSlave =>
              && Forwarded(CheckBoundary(BoundsOf(env.peer.monitors), Moved(p, f)).clamped, f) <= r.sent
              && r.pump.hook.pending == EMPTY && r.pump.held == TrackAll(p.held, f.keys)
            case ToMaster =>
              && r.pump.owned && r.pump.hook.pending == f
              && (r.sent == if env.peer.Linked? then ReturnMessages(p.held) else [])
            case ToNobody =>
              && r.pump.owned && r.pump.hook.pending == EMPTY && r.pump.logical == Middle(env.local)
              && r.sent == ReturnMessages(TrackAll(p.held, f.keys))
  {
    hide BoundsOf, Handoff, Crosses, TrackAll, EscapeComboHeld, CheckBoundary, PastMargin, Settled, Forwarded, ReturnMessages, InvertEntry, Middle;
  }

  // ------------------------------------------------------------------------------------
  // What reaches Slave
  // ------------------------------------------------------------------------------------

  /** The kinds of messages, in the order in which a frame sends them. */
  function KindOf(m: Message): nat {
    match m
    case MouseAbsolute(_) => 0
    case MouseButton(_) => 1
    case MouseWheel(_) => 2
    case KeyMessage(_) => 3
    case ModifierSync(_) => 4
  }

  /** The messages of one kind. */
  function Only(kind: nat, ms: seq<Message>): seq<Message> {
    if ms == [] then [] else (if KindOf(ms[0]) == kind then [ms[0]] else []) + Only(kind, ms[1..])
  }

  lemma {:induction false} OnlyAppend(kind: nat, a: seq<Message>, b: seq<Message>)
    ensures Only(kind, a + b) == Only(kind, a) + Only(kind, b)
  {
    if a == [] {
      assert a + b == b;
    } else {
      OnlyAppend(kind, a[1..], b);
      assert (a + b)[1..] == a[1..] + b;
      var first := if KindOf(a[0]) == kind then [a[0]] else [];
      assert first + (Only(kind, a[1..]) + Only(kind, b)) == (first + Only(kind, a[1..])) + Only(kind, b);
    }
  }

  lemma {:induction false} OnlyOfOneKind(kind: nat, ms: seq<Message>, of: nat)
    requires forall m | m in ms :: KindOf(m) == of
    ensures Only(kind, ms) == if kind == of then ms else []
  {
    if ms != [] {
      OnlyOfOneKind(kind, ms[1..], of);
      assert [ms[0]] + ms[1..] == ms;
    }
  }

  function Clicks(bs: seq<ButtonEvent>): seq<Message> { seq(|bs|, i requires 0 <= i < |bs| => MouseButton(bs[i])) }
  function Turns(ds: seq<int>): seq<Message> { seq(|ds|, i requires 0 <= i < |ds| => MouseWheel(ds[i])) }
  function Strokes(ks: seq<KeyEvent>): seq<Message> { seq(|ks|, i requires 0 <= i < |ks| => KeyMessage(ks[i])) }

  /** A key-up for every key held, in the order of the list. */
  function KeyUps(held: seq<HeldKey>): seq<KeyEvent> {
    seq(|held|, i requires 0 <= i < |held| => KeyEvent(held[i].vk, held[i].scancode, false, held[i].extended))
  }

  /** Each message is of the kind of the one before, or of a later one. */
  predicate InOrder(ms: seq<Message>) { forall i, j | 0 <= i < j < |ms| :: KindOf(ms[i]) <= KindOf(ms[j]) }

  /** In order, with these messages of each of the first four kinds and none past `last`. */
  ghost predicate Holds(ms: seq<Message>, last: nat, a: seq<Message>, b: seq<Message>, c: seq<Message>, d: seq<Message>) {
    && InOrder(ms) && (forall m | m in ms :: KindOf(m) <= last)
    && Only(0, ms) == a && Only(1, ms) == b && Only(2, ms) == c && Only(3, ms) == d
  }

  lemma AddKind(ms: seq<Message>, last: nat, a: seq<Message>, b: seq<Message>, c: seq<Message>, d: seq<Message>, more: seq<Message>, of: nat)
    requires Holds(ms, last, a, b, c, d) && last <= of && forall m | m in more :: KindOf(m) == of
    ensures Holds(ms + more, of, a + (if of == 0 then more else []), b + (if of == 1 then more else []),
                  c + (if of == 2 then more else []), d + (if of == 3 then more else []))
  {
    hide Only;
    OnlyAppend(0, ms, more);
    OnlyAppend(1, ms, more);
    OnlyAppend(2, ms, more);
    OnlyAppend(3, ms, more);
    OnlyOfOneKind(0, more, of);
    OnlyOfOneKind(1, more, of);
    OnlyOfOneKind(2, more, of);
    OnlyOfOneKind(3, more, of);
  }

  lemma FiveParts(at: Point, bs: seq<ButtonEvent>, ds: seq<int>, ks: seq<KeyEvent>, syncs: seq<Message>)
    requires forall m | m in syncs :: m.ModifierSync?
    ensures var ms := [MouseAbsolute(at)] + Clicks(bs) + Turns(ds) + Strokes(ks) + syncs;
            && Only(0, ms) == [MouseAbsolute(at)] && Only(1, ms) == Clicks(bs) && Only(2, ms) == Turns(ds) && Only(3, ms) == Strokes(ks)
            && InOrder(ms)
  {
    var a, b, c, d := [MouseAbsolute(at)], Clicks(bs), Turns(ds), Strokes(ks);
    assert (forall m | m in b :: KindOf(m) == 1) && (forall m | m in c :: KindOf(m) == 2) && (forall m | m in d :: KindOf(m) == 3);
    assert Holds([], 0, [], [], [], []);
    AddKind([], 0, [], [], [], [], a, 0);
    var none: seq<Message> := [];
    assert [] + a == a && none + none == none;
    hide Only, Clicks, Turns, Strokes, InOrder, KindOf;
    AddKind(a, 0, a, [], [], [], b, 1);
    assert a + [] == a && [] + b == b;
    AddKind(a + b, 1, a, b, [], [], c, 2);
    assert b + [] == b && [] + c == c;
    AddKind(a + b + c, 2, a, b, c, [], d, 3);
    assert c + [] == c && [] + d == d;
    AddKind(a + b + c + d, 3, a, b, c, d, syncs, 4) by { assert forall m | m in syncs :: KindOf(m) == 4 by { Syncs(syncs); } }
    assert d + [] == d;
  }

  lemma Syncs(ms: seq<Message>)
    requires forall m | m in ms :: m.ModifierSync?
    ensures forall m | m in ms :: KindOf(m) == 4
  {
  }

  /** What any frame sends, kind by kind and in this order: the pointer's position, every button,
      every wheel turn and every key it found for Slave, each once and in the order reported; then
      a key-up for every key held, if control returns over a live link; then the modifiers, if it
      changes hands. What it found reaches Slave exactly if the frame is ToSlave. */
  lemma FrameSends(p: Pump, env: Env)
    requires Consistent(p)
    ensures var r, f := Step(p, env), DeliveredNow(p, Tick(env));
            && Only(1, r.sent) == Clicks(f.buttons) && Only(2, r.sent) == Turns(f.wheel)
            && Only(3, r.sent) == Strokes(f.keys + ReleasedNow(p, Tick(env)))
            && InOrder(r.sent)
            && (p.active && !p.owned && FateOf(p, env).ToSlave? ==>
                  Only(0, r.sent) == [MouseAbsolute(Pinned(env.peer.monitors, Moved(p, p.hook.pending)))])
  {
    if p.active && !p.owned && FateOf(p, env).ToSlave? {
      SentToSlave(p, env);
    } else {
      SentOtherwise(p, env);
    }
  }

  lemma SentToSlave(p: Pump, env: Env)
    requires Consistent(p) && p.active && !p.owned && FateOf(p, env).ToSlave?
    ensures var r, f := Step(p, env), p.hook.pending;
            && Only(0, r.sent) == [MouseAbsolute(Pinned(env.peer.monitors, Moved(p, f)))]
            && Only(1, r.sent) == Clicks(f.buttons) && Only(2, r.sent) == Turns(f.wheel)
            && Only(3, r.sent) == Strokes(f.keys + (if r.pump.owned then KeyUps(TrackAll(p.held, f.keys)) else []))
            && InOrder(r.sent)
  {
    var f := p.hook.pending;
    var held := TrackAll(p.held, f.keys);
    var at := Pinned(env.peer.monitors, Moved(p, f));
    SlaveFrameParts(p, env);
    hide Step, Only, Clicks, Turns, Strokes, KeyUps, TrackAll, Pinned, InOrder, FateOf;
    if Step(p, env).pump.owned {
      FiveParts(at, f.buttons, f.wheel, f.keys + KeyUps(held), [ModifierSync({})]);
    } else {
      FiveParts(at, f.buttons, f.wheel, f.keys + [], []);
    }
  }

  lemma SlaveFrameParts(p: Pump, env: Env)
    requires Consistent(p) && p.active && !p.owned && FateOf(p, env).ToSlave?
    ensures var r, f := Step(p, env), p.hook.pending;
            var at := Pinned(env.peer.monitors, Moved(p, f));
            var ups := if r.pump.owned then KeyUps(TrackAll(p.held, f.keys)) else [];
            var syncs := if r.pump.owned then [ModifierSync({})] else [];
            r.sent == [MouseAbsolute(at)] + Clicks(f.buttons) + Turns(f.wheel) + Strokes(f.keys + ups) + syncs
  {
    var f := p.hook.pending;
    var held := TrackAll(p.held, f.keys);
    var at := Pinned(env.peer.monitors, Moved(p, f));
    SlaveFrameStep(p, env);
    assert Step(p, env).sent == Forwarded(at, f) + (if Step(p, env).pump.owned then ReturnMessages(held) else []) by {
      hide BoundsOf, Handoff, Crosses, PastMargin, InvertEntry, Forwarded, ReturnMessages, Step, Settled, TrackAll, EscapeComboHeld;
      assert Forwarded(at, f) + [] == Forwarded(at, f);
    }
    hide Step, Pinned, TrackAll, FateOf;
    PartsWithReturn(at, f, held);
    assert Forwarded(at, f) + [] == [MouseAbsolute(at)] + Clicks(f.buttons) + Turns(f.wheel) + Strokes(f.keys + []) + [] by {
      assert f.keys + [] == f.keys;
    }
  }

  lemma PartsWithReturn(at: Point, f: Frame, held: seq<HeldKey>)
    ensures Forwarded(at, f) + ReturnMessages(held)
            == [MouseAbsolute(at)] + Clicks(f.buttons) + Turns(f.wheel) + Strokes(f.keys + KeyUps(held)) + [ModifierSync({})]
  {
    assert Strokes(f.keys + KeyUps(held)) == Strokes(f.keys) + Strokes(KeyUps(held)) by { StrokesAppend(f.keys, KeyUps(held)); }
    assert Strokes(KeyUps(held)) == Releases(held);
    assert Forwarded(at, f) == [MouseAbsolute(at)] + Clicks(f.buttons) + Turns(f.wheel) + Strokes(f.keys);
    var front := [MouseAbsolute(at)] + Clicks(f.buttons) + Turns(f.wheel);
    hide Forwarded, Releases, Clicks, Turns, Strokes, KeyUps;
    assert (front + Strokes(f.keys)) + (Releases(held) + [ModifierSync({})]) == front + (Strokes(f.keys) + Releases(held)) + [ModifierSync({})];
  }

  lemma SentOtherwise(p: Pump, env: Env)
    requires Consistent(p) && !(p.active && !p.owned && FateOf(p, env).ToSlave?)
    ensures var r := Step(p, env);
            && Only(1, r.sent) == [] && Only(2, r.sent) == [] && Only(3, r.sent) == Strokes(ReleasedNow(p, Tick(env)))
            && InOrder(r.sent)
  {
    if !env.peer.Linked? {
      assert Step(p, env).sent == [];
    } else if p.active && !p.owned {
      var held := if env.peer.monitors == [] then p.held else TrackAll(p.held, p.hook.pending.keys);
      FateOfInput(p, env);
      assert Step(p, env).sent == Strokes(KeyUps(held)) + [ModifierSync({})] && ReleasedNow(p, Tick(env)) == KeyUps(held) by {
        hide BoundsOf, Middle, SlaveOwned, MasterOwned, TrackAll, EscapeComboHeld, Forwarded;
      }
      hide Step;
      OnlyReleases(held);
    } else {
      OwnFrameSends(p, env);
    }
  }

  lemma OnlyReleases(held: seq<HeldKey>)
    ensures var ms := Strokes(KeyUps(held)) + [ModifierSync({})];
            && Only(1, ms) == [] && Only(2, ms) == [] && Only(3, ms) == Strokes(KeyUps(held))
            && InOrder(ms)
  {
    forall kind: nat | kind in {1, 2, 3} ensures Only(kind, Strokes(KeyUps(held)) + [ModifierSync({})]) == if kind == 3 then Strokes(KeyUps(held)) else [] {
      OnlyAppend(kind, Strokes(KeyUps(held)), [ModifierSync({})]);
      OnlyOfOneKind(kind, Strokes(KeyUps(held)), 3);
      OnlyOfOneKind(kind, [ModifierSync({})], 4);
    }
  }

  /** A frame that Master owns at its start sends the position and the modifiers on the way out. */
  lemma OwnFrameSends(p: Pump, env: Env)
    requires Consistent(p) && env.peer.Linked? && !(p.active && !p.owned)
    ensures var r := Step(p, env);
            && Only(1, r.sent) == Only(2, r.sent) == Only(3, r.sent) == []
            && InOrder(r.sent)
  {
    var sent := Step(p, env).sent;
    assert sent == [] || (|sent| == 2 && sent[0].MouseAbsolute? && sent[1].ModifierSync?) by {
      hide BoundsOf, Handoff, Crosses, TrackAll, EscapeComboHeld, CheckBoundary, Middle, SlaveOwned;
    }
    hide Step;
    if sent != [] {
      assert sent == [sent[0]] + [sent[1]];
      forall kind: nat | kind in {1, 2, 3} ensures Only(kind, sent) == [] {
        OnlyAppend(kind, [sent[0]], [sent[1]]);
        OnlyOfOneKind(kind, [sent[0]], 0);
        OnlyOfOneKind(kind, [sent[1]], 4);
      }
    }
  }

  /** What an event finds for Slave that does get there, and the keys it releases there. */
  function DeliveredNow(p: Pump, e: Event): Frame {
    if e.Tick? && p.active && !p.owned && FateOf(p, e.env).ToSlave? then p.hook.pending else EMPTY
  }

  function ReleasedNow(p: Pump, e: Event): seq<KeyEvent> {
    if e.Tick? && p.active && !p.owned && e.env.peer.Linked? && Step(p, e.env).pump.owned then
      KeyUps(if e.env.peer.monitors == [] then p.held else TrackAll(p.held, p.hook.pending.keys))
    else []
  }

  ghost function SentBy(ps: seq<Pump>, es: seq<Event>, n: nat): seq<Message>
    requires n <= |es| < |ps|
  {
    if n == 0 then []
    else SentBy(ps, es, n - 1) + SentNow(ps[n - 1], es[n - 1])
  }

  ghost function Delivered(ps: seq<Pump>, es: seq<Event>, n: nat): Frame
    requires n <= |es| < |ps|
  {
    if n == 0 then EMPTY else Then(Delivered(ps, es, n - 1), DeliveredNow(ps[n - 1], es[n - 1]))
  }

  ghost function KeysDue(ps: seq<Pump>, es: seq<Event>, n: nat): seq<KeyEvent>
    requires n <= |es| < |ps|
  {
    if n == 0 then []
    else KeysDue(ps, es, n - 1) + (DeliveredNow(ps[n - 1], es[n - 1]).keys + ReleasedNow(ps[n - 1], es[n - 1]))
  }

  /** Over every run, what goes out to Slave is exactly what the frames found that were ToSlave: each
      button and each wheel turn once and in order, and nothing else of the kind; and each key
      likewise, with the key-ups of every return at the place where control returned. */
  lemma {:induction false} SlaveGetsItsInput(ps: seq<Pump>, es: seq<Event>, n: nat)
    requires IsRun(ps, es) && n < |ps|
    ensures Only(1, SentBy(ps, es, n)) == Clicks(Delivered(ps, es, n).buttons)
    ensures Only(2, SentBy(ps, es, n)) == Turns(Delivered(ps, es, n).wheel)
    ensures Only(3, SentBy(ps, es, n)) == Strokes(KeysDue(ps, es, n))
  {
    hide Consistent, Next, Step, Only, SentNow, ReleasedNow, DeliveredNow, Clicks, Turns, Strokes;
    if n == 0 {
      NothingAtFirst();
    } else {
      SlaveGetsItsInput(ps, es, n - 1);
      AlwaysConsistent(ps, es, n - 1);
      var p, e := ps[n - 1], es[n - 1];
      NowSent(p, e, SentBy(ps, es, n - 1));
      var f, g := Delivered(ps, es, n - 1), DeliveredNow(p, e);
      ClicksAppend(f.buttons, g.buttons);
      TurnsAppend(f.wheel, g.wheel);
      StrokesAppend(KeysDue(ps, es, n - 1), g.keys + ReleasedNow(p, e));
    }
  }

  lemma NothingAtFirst()
    ensures Only(1, []) == Clicks([]) && Only(2, []) == Turns([]) && Only(3, []) == Strokes([])
  {
  }

  function SentNow(p: Pump, e: Event): seq<Message> { if e.Tick? then Step(p, e.env).sent else [] }

  lemma NowSent(p: Pump, e: Event, before: seq<Message>)
    requires Consistent(p)
    ensures var f, all := DeliveredNow(p, e), before + SentNow(p, e);
            && Only(1, all) == Only(1, before) + Clicks(f.buttons) && Only(2, all) == Only(2, before) + Turns(f.wheel)
            && Only(3, all) == Only(3, before) + Strokes(f.keys + ReleasedNow(p, e))
  {
    if e.Tick? { FrameSends(p, e.env); } else { NothingSent(p, e); }
    hide Step, Only, FateOf, ReleasedNow, DeliveredNow, Clicks, Turns, Strokes, Consistent;
    OnlyAppend(1, before, SentNow(p, e));
    OnlyAppend(2, before, SentNow(p, e));
    OnlyAppend(3, before, SentNow(p, e));
  }

  lemma ClicksAppend(a: seq<ButtonEvent>, b: seq<ButtonEvent>)
    ensures Clicks(a + b) == Clicks(a) + Clicks(b)
  {
  }

  lemma TurnsAppend(a: seq<int>, b: seq<int>)
    ensures Turns(a + b) == Turns(a) + Turns(b)
  {
  }

  lemma StrokesAppend(a: seq<KeyEvent>, b: seq<KeyEvent>)
    ensures Strokes(a + b) == Strokes(a) + Strokes(b)
  {
  }

  lemma NothingSent(p: Pump, e: Event)
    requires e.Os?
    ensures Only(1, []) == Clicks([]) && Only(2, []) == Turns([]) && Only(3, []) == Strokes([] + [])
    ensures DeliveredNow(p, e) == EMPTY && ReleasedNow(p, e) == []
  {
  }

  // ------------------------------------------------------------------------------------
  // Where the cursor is
  // ------------------------------------------------------------------------------------

  /** The tracked point plus the motion that waits is the real cursor, on the desktop `b`. */
  predicate Tracks(p: Pump, b: Bounds) { Moved(p, p.hook.pending) == p.hook.anchor && Inside(b, p.hook.anchor) }

  predicate TracksWhileMasters(p: Pump, local: seq<Monitor>) { p.active && p.owned ==> Tracks(p, BoundsOf(local)) }

  /** The displays there are have an area, and Master has one. */
  predicate Displayed(env: Env) {
    && env.peer.Linked? && env.local != [] && Proper(BoundsOf(env.local))
    && (env.peer.monitors != [] ==> Proper(BoundsOf(env.peer.monitors)))
  }

  /** Where the hook finds the cursor when it goes in, and where tracking starts. */
  function FoundAt(env: Env): Point { env.cursor.GetOr(Point(0, 0)) }

  function FirstPoint(p: Pump, env: Env): Point {
    Moved(p.(logical := env.cursor.GetOr(Middle(env.local))), p.hook.pending)
  }

  /** The frame takes Slave's cursor back across the seam. */
  predicate CrossesBack(p: Pump, env: Env)
    requires env.peer.Linked?
  {
    var b, at := BoundsOf(env.peer.monitors), Moved(p, p.hook.pending);
    !p.justHandedOff && PastMargin(CheckBoundary(b, at), at) && WayBack(env).Some? && Crosses(b, WayBack(env).value, at)
  }

  /** In this frame Master takes over the input: the hook goes in and control does not leave at once,
      or it comes back from Slave. */
  predicate TakesOver(p: Pump, env: Env)
    requires env.peer.Linked?
  {
    if !p.active then p.justHandedOff || env.peer.monitors == [] || !Presses(env.local, env.arrangement, FirstPoint(p, env))
    else !p.owned && (FateOf(p, env).ToSlave? ==> CrossesBack(p, env))
  }

  function Extent(b: Bounds, d: Direction): int { if d.Horizontal() then b.maxX - b.minX else b.maxY - b.minY }

  /** The cursor will be where it is tracked. When the hook goes in: motion left in it from before does
      not carry the starting point away. Across the seam: the push past it is no longer than
      Master's desktop. Without displays: no motion waits. */
  predicate StartsAtCursor(p: Pump, env: Env)
    requires env.peer.Linked? && TakesOver(p, env)
  {
    if !p.active then Pinned(env.local, FirstPoint(p, env)) == FoundAt(env)
    else
      match FateOf(p, env)
      case ToSlave =>
        var d := WayBack(env).value.direction;
        Past(BoundsOf(env.peer.monitors), d, Moved(p, p.hook.pending)) <= Extent(BoundsOf(env.local), d)
      case ToMaster => p.hook.pending.dx == 0 && p.hook.pending.dy == 0
      case ToNobody => true
  }

  lemma InstallTracksIff(p: Pump, env: Env)
    requires Consistent(p) && Displayed(env) && !p.active
    ensures var q := Step(p, env).pump;
            && (q.owned <==> TakesOver(p, env))
            && (q.owned ==> (Tracks(q, BoundsOf(env.local)) <==> StartsAtCursor(p, env)))
  {
    var a := Activated(p, env);
    var f := a.hook.pending;
    var t := a.(hook := Polled(a.hook), held := TrackAll(a.held, f.keys));
    assert Step(p, env) == MasterOwned(t, env, f) by { hide MasterOwned, SlaveOwned, EscapeComboHeld, TrackAll, Middle; }
    assert Moved(t, f) == FirstPoint(p, env) by { hide Middle; }
    if env.arrangement.Some? && env.peer.monitors != [] {
      HandoffLandsSomewhere(BoundsOf(env.local), env.arrangement.value, env.peer.monitors, Moved(t, f));
    }
    hide BoundsOf, Crosses, Step, Middle, TrackAll, FirstPoint;
  }

  lemma ComesHome(p: Pump, env: Env)
    requires Displayed(env) && p.active && !p.owned && FateOf(p, env).ToSlave?
    ensures var q := Step(p, env).pump;
            && (q.owned <==> CrossesBack(p, env))
            && (q.owned ==>
                  var home := Handoff(BoundsOf(env.peer.monitors), WayBack(env).value, env.local, Moved(p, p.hook.pending));
                  home.Some? && q.logical == q.hook.anchor == home.value && q.hook.pending == EMPTY)
  {
    if WayBack(env).Some? {
      HandoffLandsSomewhere(BoundsOf(env.peer.monitors), WayBack(env).value, env.local, Moved(p, p.hook.pending));
    }
    SlaveFrameStep(p, env);
    hide BoundsOf, Handoff, Step, TrackAll, EscapeComboHeld, Forwarded, InvertEntry, Settled, Crosses, PastMargin, CheckBoundary;
  }

  /** At least `n` pixels off the desktop, on either axis. */
  predicate Beyond(b: Bounds, p: Point, n: int) { p.x <= b.minX - n || p.x >= b.maxX + n || p.y <= b.minY - n || p.y >= b.maxY + n }

  /** Exactly when control goes over to Slave: as soon as the cursor touches the edge that Slave is arranged
      at, unless it has just come back. */
  lemma LeavesIff(p: Pump, env: Env)
    requires Displayed(env) && p.active && p.owned
    ensures Step(p, env).pump.owned <==>
              p.justHandedOff || env.peer.monitors == [] || env.arrangement.None?
              || var m, d, at := BoundsOf(env.local), env.arrangement.value.direction, Moved(p, p.hook.pending);
                 Past(m, d, at) < 0 || !Clear(m, d, at)
  {
    var f := p.hook.pending;
    var t := p.(hook := Polled(p.hook), held := TrackAll(p.held, f.keys));
    assert Step(p, env) == MasterOwned(t, env, f) by { hide MasterOwned, SlaveOwned, EscapeComboHeld, TrackAll, Middle; }
    if env.arrangement.Some? && env.peer.monitors != [] {
      HandoffLandsSomewhere(BoundsOf(env.local), env.arrangement.value, env.peer.monitors, Moved(t, f));
    }
    hide BoundsOf, Step, TrackAll;
  }

  /** Exactly when it comes back across the seam: the cursor has to be on or past the edge that faces
      Master, at least four pixels off the desktop, and must not have just come. */
  lemma ComesBackIff(p: Pump, env: Env)
    requires Displayed(env) && p.active && !p.owned && FateOf(p, env).ToSlave?
    ensures Step(p, env).pump.owned <==>
              !p.justHandedOff && env.arrangement.Some?
              && var b, d, at := BoundsOf(env.peer.monitors), WayBack(env).value.direction, Moved(p, p.hook.pending);
                 Past(b, d, at) >= 0 && Clear(b, d, at) && Beyond(b, at, 4)
  {
    ComesHome(p, env);
    hide BoundsOf, Step, InvertEntry, EscapeComboHeld, TrackAll;
  }

  lemma SeamTracksIff(p: Pump, env: Env)
    requires Displayed(env) && p.active && !p.owned && FateOf(p, env).ToSlave?
    ensures var q := Step(p, env).pump;
            && (q.owned <==> TakesOver(p, env))
            && (q.owned ==> (Tracks(q, BoundsOf(env.local)) <==> StartsAtCursor(p, env)))
  {
    ComesHome(p, env);
    hide BoundsOf, Step, Handoff, Crosses, PastMargin, CheckBoundary, Inside, FateOf, InvertEntry;
    if CrossesBack(p, env) {
      LandsWithin(BoundsOf(env.peer.monitors), WayBack(env).value, env.local, Moved(p, p.hook.pending));
    }
  }

  /** A return lands on Master's desktop exactly if the push past the seam is no longer than that. */
  lemma LandsWithin(near: Bounds, entry: Entry, target: seq<Monitor>, at: Point)
    requires Proper(near) && target != [] && Proper(BoundsOf(target)) && Crosses(near, entry, at)
    requires Handoff(near, entry, target, at).Some?
    ensures Inside(BoundsOf(target), Handoff(near, entry, target, at).value) <==>
              Past(near, entry.direction, at) <= Extent(BoundsOf(target), entry.direction)
  {
    hide BoundsOf;
  }

  lemma MiddleTracksIff(p: Pump, env: Env)
    requires Consistent(p) && Displayed(env) && p.active && !p.owned && !FateOf(p, env).ToSlave?
    ensures var q := Step(p, env).pump;
            q.owned && TakesOver(p, env) && (Tracks(q, BoundsOf(env.local)) <==> StartsAtCursor(p, env))
  {
    MiddleIsClear(env.local);
    FateOfInput(p, env);
    assert Step(p, env).pump.logical == Step(p, env).pump.hook.anchor == Middle(env.local) by {
      hide MasterOwned, SlaveOwned, EscapeComboHeld, TrackAll, Middle, BoundsOf;
    }
    hide BoundsOf, Step, Middle, EscapeComboHeld, TrackAll, Forwarded;
  }

  /** Exactly when tracked point and cursor agree once Master has taken over, from the state before
      and what the frame finds. */
  lemma TakeoverTracksIff(p: Pump, env: Env)
    requires Consistent(p) && Displayed(env) && !(p.active && p.owned)
    ensures var q := Step(p, env).pump;
            && (q.owned <==> TakesOver(p, env))
            && (q.owned ==> (Tracks(q, BoundsOf(env.local)) <==> StartsAtCursor(p, env)))
  {
    if !p.active { InstallTracksIff(p, env); }
    else if FateOf(p, env).ToSlave? { SeamTracksIff(p, env); }
    else { MiddleTracksIff(p, env); }
  }

  /** A dropped link polls nothing and takes the hook out, so whatever motion waited, Slave's too, still
      does when the hook goes in again, whenever that is; then it decides alone. */
  lemma DropKeepsMotion(p: Pump, off: Env, env: Env)
    requires Consistent(p) && p.active && !off.peer.Linked? && Displayed(env)
    ensures var q := Step(p, off).pump;
            && (forall os: OsEvent :: Next(q, Os(os)) == q)
            && (TakesOver(q, env) ==>
                  (Tracks(Step(q, env).pump, BoundsOf(env.local)) <==> Pinned(env.local, FirstPoint(p, env)) == FoundAt(env)))
  {
    var q := Step(p, off).pump;
    assert q == Deactivated(p) && FirstPoint(q, env) == FirstPoint(p, env) by { hide Middle, BoundsOf; }
    hide Step, FirstPoint, BoundsOf;
    InstallTracksIff(q, env);
  }

  lemma MasterTickTracks(t: Pump, env: Env, f: Frame)
    requires env.peer.Linked? && t.owned && t.hook.pending == EMPTY && MasterOwned(t, env, f).pump.owned
    requires Moved(t, f) == t.hook.anchor && Inside(BoundsOf(env.local), t.hook.anchor)
    ensures Tracks(MasterOwned(t, env, f).pump, BoundsOf(env.local))
  {
    hide BoundsOf, Handoff, Crosses;
  }

  /** The OS keeps the cursor on Master's desktop, which stays as it is; every display has an area. */
  predicate Expected(e: Event, local: seq<Monitor>) {
    match e
    case Os(os) => os.Move? ==> Inside(BoundsOf(local), os.pt)
    case Tick(env) => env.peer.Linked? ==> env.local == local && Displayed(env)
  }

  predicate GoodTakeover(p: Pump, e: Event) {
    e.Tick? && e.env.peer.Linked? && !(p.active && p.owned) && TakesOver(p, e.env) ==> StartsAtCursor(p, e.env)
  }

  lemma TickTracks(p: Pump, env: Env, local: seq<Monitor>)
    requires Consistent(p) && TracksWhileMasters(p, local) && Expected(Tick(env), local)
    ensures TracksWhileMasters(Step(p, env).pump, local) <==> GoodTakeover(p, Tick(env))
  {
    if env.peer.Linked? && !(p.active && p.owned) {
      TakeoverTracksIff(p, env);
      assert Step(p, env).pump.active by { hide MasterOwned, SlaveOwned, EscapeComboHeld, TrackAll, Middle, ReturnMessages; StepsActive(p, env); }
      hide Step, Tracks, TakesOver, StartsAtCursor, BoundsOf;
    } else {
      hide BoundsOf, MasterOwned, SlaveOwned, EscapeComboHeld, TrackAll, Middle, ReturnMessages, TakesOver, StartsAtCursor;
      if env.peer.Linked? {
        var f := p.hook.pending;
        var t := p.(hook := Polled(p.hook), held := TrackAll(p.held, f.keys));
        if MasterOwned(t, env, f).pump.owned { MasterTickTracks(t, env, f); }
      }
    }
  }

  lemma StepsActive(p: Pump, env: Env)
    requires env.peer.Linked?
    ensures Step(p, env).pump.active
  {
    hide BoundsOf, Handoff, Crosses, TrackAll, EscapeComboHeld, CheckBoundary, PastMargin, Settled, Forwarded, ReturnMessages, InvertEntry, Middle;
  }

  lemma OsTracks(p: Pump, os: OsEvent, local: seq<Monitor>)
    requires Consistent(p) && TracksWhileMasters(p, local) && Expected(Os(os), local)
    ensures TracksWhileMasters(Next(p, Os(os)), local)
  {
    hide BoundsOf;
  }

  /** While Master owns the input, the tracked point and the motion that waits together are where
      the cursor really is, so that the cursor reaches the seam when the tracked point does -- in
      every run, exactly as long as every takeover starts at the cursor. */
  lemma {:induction false} TracksTheCursorIff(ps: seq<Pump>, es: seq<Event>, n: nat, local: seq<Monitor>)
    requires IsRun(ps, es) && n < |ps| && forall i | 0 <= i < n :: Expected(es[i], local)
    ensures (forall k | 0 <= k <= n :: TracksWhileMasters(ps[k], local)) <==>
              (forall i | 0 <= i < n :: GoodTakeover(ps[i], es[i]))
  {
    hide TracksWhileMasters, Expected, GoodTakeover, Step, Consistent;
    if n == 0 {
      NobodyTracks(ps[0], local);
    } else {
      TracksTheCursorIff(ps, es, n - 1, local);
      assert ps[n] == Next(ps[n - 1], es[n - 1]);
      AlwaysConsistent(ps, es, n - 1);
      if TracksWhileMasters(ps[n - 1], local) {
        match es[n - 1]
        case Tick(env) => TickTracks(ps[n - 1], env, local);
        case Os(os) =>
          OsTracks(ps[n - 1], os, local);
          OsIsNoTakeover(ps[n - 1], os);
      }
    }
  }

  lemma NobodyTracks(p: Pump, local: seq<Monitor>)
    requires !p.active
    ensures TracksWhileMasters(p, local)
  {
  }

  lemma OsIsNoTakeover(p: Pump, os: OsEvent)
    ensures GoodTakeover(p, Os(os))
  {
  }
}

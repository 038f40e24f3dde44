/** Which keys are down, on Master's OS and on Slave's virtual keyboard, over a whole activation of
    the hook: from a connection's first frame to its end, with the user typing throughout. */
module HeldKeys {
  import opened Common
  import opened Crossing
  import opened InputHook
  import opened InputPump
  import opened Ownership
  import opened Injector

  /** Every physical key has one scancode. */
  type Layout = nat -> (nat, bool)

  datatype World = World(pump: Pump, masterDown: set<nat>, slave: Keyboard)

  function Vks(held: seq<HeldKey>): set<nat> { set i | 0 <= i < |held| :: held[i].vk }

  function CodeOf(h: HeldKey): Option<nat> { Code(h.scancode, h.extended) }

  ghost predicate IsCodeOf(c: nat, held: seq<HeldKey>) { exists i :: 0 <= i < |held| && CodeOf(held[i]) == Some(c) }

  function Obey(k: Keyboard, m: Message): Keyboard {
    match m
    case KeyMessage(key) => InjectKey(k, key.scancode, key.down, key.extended)
    case ModifierSync(mask) => SetModifiers(k, mask)
    case _ => k
  }

  function ObeyAll(k: Keyboard, ms: seq<Message>): Keyboard {
    if ms == [] then k else Obey(ObeyAll(k, ms[..|ms| - 1]), ms[|ms| - 1])
  }

  lemma {:induction false} ObeyAppend(k: Keyboard, a: seq<Message>, b: seq<Message>)
    ensures ObeyAll(k, a + b) == ObeyAll(ObeyAll(k, a), b)
  {
    if b == [] {
      assert a + b == a;
    } else {
      ObeyAppend(k, a, b[..|b| - 1]);
      assert (a + b)[..|a + b| - 1] == a + b[..|b| - 1];
    }
  }

  function NextWorld(w: World, e: Event): World {
    match e
    case Os(os) =>
      World(Next(w.pump, e),
            if os.Key? && PassedOn(w.pump.hook, os) then Put(w.masterDown, os.key.vk, os.key.down) else w.masterDown,
            w.slave)
    case Tick(env) =>
      var r := Step(w.pump, env);
      World(r.pump, w.masterDown - Vks(r.releasedLocally), ObeyAll(w.slave, r.sent))
  }

  // ------------------------------------------------------------------------------------
  // Tracking
  // ------------------------------------------------------------------------------------

  predicate Fits(h: HeldKey, layout: Layout) { (h.scancode, h.extended) == layout(h.vk) }

  predicate KeyFits(k: KeyEvent, layout: Layout) { (k.scancode, k.extended) == layout(k.vk) }

  ghost predicate AllFit(held: seq<HeldKey>, layout: Layout) { forall i | 0 <= i < |held| :: Fits(held[i], layout) }

  ghost predicate KeysFit(ks: seq<KeyEvent>, layout: Layout) { forall i | 0 <= i < |ks| :: KeyFits(ks[i], layout) }

  /** No key is listed twice. */
  ghost predicate Distinct(held: seq<HeldKey>) { forall i, j | 0 <= i < j < |held| :: held[i].vk != held[j].vk }

  /** One tracked key event: the list then holds the key exactly if it is down, keeps every other
      key, and keeps its shape. */
  lemma TrackEffect(held: seq<HeldKey>, k: KeyEvent, layout: Layout)
    requires Distinct(held) && AllFit(held, layout) && KeyFits(k, layout)
    ensures var t := Track(held, k);
            && Distinct(t) && AllFit(t, layout)
            && (forall vk :: vk in Vks(t) <==> if vk == k.vk then k.down else vk in Vks(held))
  {
    var i, t := Find(held, k.vk), Track(held, k);
    forall vk ensures vk in Vks(t) <==> if vk == k.vk then k.down else vk in Vks(held) {
      if vk in Vks(held) && vk != k.vk {
        var j :| 0 <= j < |held| && held[j].vk == vk;
        assert t[if k.down || j < i then j else if i < |held| then j - 1 else j].vk == vk;
      }
      if k.down { assert t[i].vk == k.vk; }
    }
  }

  /** The last event of key `vk`. */
  function LastOf(ks: seq<KeyEvent>, vk: nat): Option<KeyEvent> {
    if ks == [] then None else if ks[|ks| - 1].vk == vk then Some(ks[|ks| - 1]) else LastOf(ks[..|ks| - 1], vk)
  }

  lemma TrackOne(held: seq<HeldKey>, k: KeyEvent, h: HeldKey)
    requires Distinct(held)
    ensures Distinct(Track(held, k))
    ensures h in Track(held, k) <==> if h.vk == k.vk then k.down && h == HeldKey(k.vk, k.scancode, k.extended) else h in held
  {
    var i, t := Find(held, k.vk), Track(held, k);
    if k.down { assert t[i] == HeldKey(k.vk, k.scancode, k.extended); }
    if h in held && h.vk != k.vk {
      var j :| 0 <= j < |held| && held[j] == h;
      assert t[if k.down || j < i then j else if i < |held| then j - 1 else j] == h;
    }
  }

  /** Key by key, with or without a layout: a key is listed exactly as its last event pressed it -- an
      autorepeat that comes with another scancode replaces the old one -- and not if that released
      it. */
  lemma {:induction false} TrackListsLastPress(held: seq<HeldKey>, ks: seq<KeyEvent>, h: HeldKey)
    requires Distinct(held)
    ensures Distinct(TrackAll(held, ks))
    ensures h in TrackAll(held, ks) <==>
              match LastOf(ks, h.vk)
              case None => h in held
              case Some(k) => k.down && h == HeldKey(k.vk, k.scancode, k.extended)
  {
    hide Distinct, Track;
    if ks != [] {
      TrackListsLastPress(held, ks[..|ks| - 1], h);
      TrackOne(TrackAll(held, ks[..|ks| - 1]), ks[|ks| - 1], h);
    }
  }

  /** The same over a batch. */
  lemma {:induction false} TrackAllShape(held: seq<HeldKey>, ks: seq<KeyEvent>, layout: Layout)
    requires Distinct(held) && AllFit(held, layout) && KeysFit(ks, layout)
    ensures Distinct(TrackAll(held, ks)) && AllFit(TrackAll(held, ks), layout)
  {
    if ks != [] {
      TrackAllShape(held, ks[..|ks| - 1], layout);
      TrackEffect(TrackAll(held, ks[..|ks| - 1]), ks[|ks| - 1], layout);
    }
  }

  /** Codes follow the keys. */
  ghost predicate CodesListed(k: Keyboard, held: seq<HeldKey>) {
    forall c | c in k.down && c !in SYNCED :: IsCodeOf(c, held)
  }

  lemma ListedCode(held: seq<HeldKey>, t: seq<HeldKey>, c: nat, key: KeyEvent, layout: Layout)
    requires Distinct(held) && AllFit(held, layout) && KeyFits(key, layout) && t == Track(held, key)
    requires IsCodeOf(c, held) && (key.down || Code(key.scancode, key.extended) != Some(c))
    ensures IsCodeOf(c, t)
  {
    var i :| 0 <= i < |held| && CodeOf(held[i]) == Some(c);
    TrackEffect(held, key, layout);
    assert held[i].vk in Vks(held);
    assert held[i].vk in Vks(t);
    var j :| 0 <= j < |t| && t[j].vk == held[i].vk;
    assert Fits(t[j], layout) && Fits(held[i], layout);
  }

  /** Forwarding a key event and tracking it go together. */
  lemma ForwardOne(k: Keyboard, held: seq<HeldKey>, key: KeyEvent, layout: Layout)
    requires Distinct(held) && AllFit(held, layout) && KeyFits(key, layout) && CodesListed(k, held)
    ensures CodesListed(InjectKey(k, key.scancode, key.down, key.extended), Track(held, key))
  {
    var k', t := InjectKey(k, key.scancode, key.down, key.extended), Track(held, key);
    forall c | c in k'.down && c !in SYNCED ensures IsCodeOf(c, t) {
      if Code(key.scancode, key.extended) == Some(c) {
        assert key.down;
        assert CodeOf(t[Find(held, key.vk)]) == Some(c);
      } else {
        ListedCode(held, t, c, key, layout);
      }
    }
  }

  function KeyMessages(ks: seq<KeyEvent>): seq<Message> { seq(|ks|, i requires 0 <= i < |ks| => KeyMessage(ks[i])) }

  lemma {:induction false} ForwardAll(k: Keyboard, held: seq<HeldKey>, ks: seq<KeyEvent>, layout: Layout)
    requires Distinct(held) && AllFit(held, layout) && KeysFit(ks, layout) && CodesListed(k, held)
    ensures CodesListed(ObeyAll(k, KeyMessages(ks)), TrackAll(held, ks))
  {
    if ks != [] {
      var front, last := ks[..|ks| - 1], ks[|ks| - 1];
      ForwardAll(k, held, front, layout);
      TrackAllShape(held, front, layout);
      ForwardOne(ObeyAll(k, KeyMessages(front)), TrackAll(held, front), last, layout);
      assert KeyMessages(ks)[..|ks| - 1] == KeyMessages(front);
      hide CodesListed, InjectKey, Track, Distinct, AllFit;
    }
  }

  // ------------------------------------------------------------------------------------
  // Releasing
  // ------------------------------------------------------------------------------------

  lemma {:induction false} ReleasesClear(k: Keyboard, held: seq<HeldKey>)
    ensures var t := ObeyAll(k, Releases(held));
            && (forall c: nat :: c in t.down <==> c in k.down && !IsCodeOf(c, held))
            && (forall b: nat :: b in t.shadow <==>
                  b in k.shadow && forall c: nat | IsCodeOf(c, held) :: ModifierBit(c) != Some(b))
  {
    if held == [] {
      assert Releases(held) == [];
    } else {
      var front, last := held[..|held| - 1], held[|held| - 1];
      ReleasesClear(k, front);
      assert Releases(held)[..|held| - 1] == Releases(front);
      forall c: nat ensures IsCodeOf(c, held) <==> IsCodeOf(c, front) || CodeOf(last) == Some(c) {
        if IsCodeOf(c, front) {
          var i :| 0 <= i < |front| && CodeOf(front[i]) == Some(c);
          assert CodeOf(held[i]) == Some(c);
        }
        if CodeOf(last) == Some(c) { assert CodeOf(held[|held| - 1]) == Some(c); }
      }
      var mid := ObeyAll(k, Releases(front));
      assert ObeyAll(k, Releases(held)) == InjectKey(mid, last.scancode, false, last.extended);
    }
  }

  /** What every return leaves down on Slave, exactly: nothing of what the held list names, and of
      the rest only what was down before -- less any left-hand modifier whose shadow bit was still
      set once the held keys had been released. */
  lemma ReturnLeaves(k: Keyboard, held: seq<HeldKey>, c: nat)
    ensures c in ObeyAll(k, ReturnMessages(held)).down <==>
              && c in k.down && !IsCodeOf(c, held)
              && (c in SYNCED ==> ModifierBit(c).value !in k.shadow
                                  || exists d: nat :: IsCodeOf(d, held) && ModifierBit(d) == ModifierBit(c))
  {
    ReleasesClear(k, held);
    var mid := ObeyAll(k, Releases(held));
    assert ReturnMessages(held)[..|held|] == Releases(held);
    assert ObeyAll(k, ReturnMessages(held)) == SetModifiersUpTo(mid, {}, 4);
    SyncSetsShadow(mid, {}, 4);
    assert MODIFIERS[..4] == MODIFIERS;
    assert c in SYNCED <==> c in MODIFIERS;
    hide ObeyAll, IsCodeOf, SetModifiersUpTo;
  }

  /** So a left Control can stay down on Slave: the user crosses over holding the right one, which
      the sync on the way out presses as the left one, and comes back still holding it. */
  lemma LeftControlStays()
    ensures var out := ObeyAll(Keyboard({}, {}), [ModifierSync({1})]);
            ObeyAll(out, ReturnMessages([HeldKey(0xA3, 0x1D, true)])).down == {LEFT_CTRL}
  {
    var k := Keyboard({}, {});
    assert [ModifierSync({1})][..0] == [];
    var out := ObeyAll(k, [ModifierSync({1})]);
    SyncSetsShadow(k, {1}, 4);
    assert out == SetModifiersUpTo(k, {1}, 4);
    assert out.down == {LEFT_CTRL};
    var held := [HeldKey(0xA3, 0x1D, true)];
    assert IsCodeOf(RIGHT_CTRL, held) by { assert CodeOf(held[0]) == Some(RIGHT_CTRL); }
    forall c: nat ensures c in ObeyAll(out, ReturnMessages(held)).down <==> c == LEFT_CTRL {
      ReturnLeaves(out, held, c);
    }
  }

  // ------------------------------------------------------------------------------------
  // A whole activation
  // ------------------------------------------------------------------------------------

  /** From the frame that installs the hook, with nothing held and nothing pending, on. */
  ghost predicate IsActivation(ws: seq<World>, es: seq<Event>, layout: Layout) {
    && |ws| == |es| + 1 && es != [] && es[0].Tick?
    && Consistent(ws[0].pump) && !ws[0].pump.active && ws[0].pump.held == [] && ws[0].pump.hook.pending == EMPTY
    && ws[0].masterDown == {} && ws[0].slave.down == {}
    && forall i {:trigger es[i]} | 0 <= i < |es| :: ws[i + 1] == NextWorld(ws[i], es[i]) && Allowed(es[i], layout)
  }

  /** The link stays up, and keys have the scancodes the layout says. */
  ghost predicate Allowed(e: Event, layout: Layout) {
    (e.Tick? ==> e.env.peer.Linked?) && (e.Os? && e.os.Key? ==> KeyFits(e.os.key, layout))
  }

  /** The frame takes the emergency escape. */
  predicate Escapes(p: Pump, e: Event) { e.Tick? && Step(p, e.env).disconnect }

  ghost predicate KeysInv(w: World, layout: Layout) {
    var p := w.pump;
    && Consistent(p)
    && Distinct(p.held) && AllFit(p.held, layout) && KeysFit(p.hook.pending.keys, layout)
    && (!p.owned ==> w.masterDown == {})
    && w.masterDown <= Vks(TrackAll(p.held, p.hook.pending.keys))
    && CodesListed(w.slave, if p.owned then [] else p.held)
  }

  lemma OsKeepsKeys(w: World, e: OsEvent, layout: Layout)
    requires KeysInv(w, layout) && w.pump.active && Allowed(Os(e), layout)
    ensures KeysInv(NextWorld(w, Os(e)), layout)
  {
    var p := w.pump;
    hide CodesListed, Vks, Distinct, AllFit, Track, TrackAll;
    if e.Key? {
      var keys := p.hook.pending.keys;
      TrackAllShape(p.held, keys, layout);
      TrackEffect(TrackAll(p.held, keys), e.key, layout);
      TrackOneMore(p.held, keys, e.key);
    }
  }

  lemma TrackOneMore(held: seq<HeldKey>, ks: seq<KeyEvent>, k: KeyEvent)
    ensures TrackAll(held, ks + [k]) == Track(TrackAll(held, ks), k)
  {
    assert (ks + [k])[..|ks + [k]| - 1] == ks;
  }

  lemma {:induction false} PointerMessagesDoNothing(k: Keyboard, ms: seq<Message>)
    requires forall i | 0 <= i < |ms| :: !ms[i].KeyMessage? && !ms[i].ModifierSync?
    ensures ObeyAll(k, ms) == k
  {
    if ms != [] { PointerMessagesDoNothing(k, ms[..|ms| - 1]); }
  }

  lemma ForwardedKeys(k: Keyboard, at: Point, f: Frame)
    ensures ObeyAll(k, Forwarded(at, f)) == ObeyAll(k, KeyMessages(f.keys))
  {
    var ms := Forwarded(at, f);
    var n := |ms| - |f.keys|;
    assert ms == ms[..n] + KeyMessages(f.keys);
    PointerMessagesDoNothing(k, ms[..n]);
    ObeyAppend(k, ms[..n], KeyMessages(f.keys));
    hide Forwarded, ObeyAll;
  }

  lemma ReturnClears(k: Keyboard, held: seq<HeldKey>)
    requires CodesListed(k, held)
    ensures CodesListed(ObeyAll(k, ReturnMessages(held)), [])
  {
    forall c: nat ensures c in ObeyAll(k, ReturnMessages(held)).down ==> c in k.down && !IsCodeOf(c, held) {
      ReturnLeaves(k, held, c);
    }
  }

  /** A sync on the way out presses left-hand modifiers and nothing else. */
  lemma OutboundKeys(k: Keyboard, held: seq<HeldKey>, at: Point, mask: set<nat>)
    requires CodesListed(k, [])
    ensures CodesListed(ObeyAll(k, [MouseAbsolute(at), ModifierSync(mask)]), held)
  {
    var ms := [MouseAbsolute(at), ModifierSync(mask)];
    assert ms[..1] == [MouseAbsolute(at)];
    PointerMessagesDoNothing(k, ms[..1]);
    assert ObeyAll(k, ms) == SetModifiersUpTo(k, mask, 4);
    SyncSetsShadow(k, mask, 4);
    assert MODIFIERS[..4] == MODIFIERS;
    OnlySynced(k);
    assert forall c | c in ObeyAll(k, ms).down :: c in k.down || c in SYNCED;
  }

  lemma OnlySynced(k: Keyboard)
    requires CodesListed(k, [])
    ensures k.down <= SYNCED
  {
  }

  lemma CrossingOverSends(w: World, env: Env)
    requires w.pump.owned && env.peer.Linked? && !Step(w.pump, env).pump.owned
    ensures var r := Step(w.pump, env); r.sent == [MouseAbsolute(r.pump.logical), ModifierSync(env.mask)]
  {
    hide BoundsOf, Handoff, Crosses, TrackAll, EscapeComboHeld, CheckBoundary;
  }

  /** On the way out Slave's shadow becomes the modifiers that are physically down, and its cursor goes
      where the tracked point is. Only the four left-hand keys may change: one whose shadow was
      wrong becomes what is physically down, any other stays as it is -- even one that is down
      while its shadow is clear. */
  lemma CrossingOverSyncs(w: World, env: Env)
    requires w.pump.owned && env.peer.Linked? && !Step(w.pump, env).pump.owned
    ensures var next := NextWorld(w, Tick(env));
            && (forall b: nat | b < 4 :: b in next.slave.shadow <==> b in env.mask)
            && (forall b: nat | b < 4 :: MODIFIERS[b] in next.slave.down <==>
                  if (b in env.mask) == (b in w.slave.shadow) then MODIFIERS[b] in w.slave.down else b in env.mask)
            && next.slave.down - SYNCED == w.slave.down - SYNCED
            && |Step(w.pump, env).sent| == 2 && Step(w.pump, env).sent[0] == MouseAbsolute(next.pump.logical)
  {
    var r := Step(w.pump, env);
    CrossingOverSends(w, env);
    hide Step;
    assert r.sent[..1] == [MouseAbsolute(r.pump.logical)];
    PointerMessagesDoNothing(w.slave, r.sent[..1]);
    SyncSetsShadow(w.slave, env.mask, 4);
    assert MODIFIERS[..4] == MODIFIERS;
    assert forall b: nat | b < 4 :: MODIFIERS[b] in MODIFIERS && ModifierBit(MODIFIERS[b]) == Some(b);
    assert forall c | c in MODIFIERS :: c in SYNCED;
  }

  /** A frame that Master owns at its start. */
  lemma MasterFrameKeys(k: Keyboard, t: Pump, env: Env, f: Frame)
    requires env.peer.Linked? && t.owned && CodesListed(k, [])
    ensures var r := MasterOwned(t, env, f);
            && r.pump.held == t.held && r.pump.hook.pending == t.hook.pending
            && CodesListed(ObeyAll(k, r.sent), if r.pump.owned then [] else t.held)
            && r.releasedLocally == (if r.pump.owned then [] else t.held)
  {
    var r := MasterOwned(t, env, f);
    hide Crosses, Handoff, BoundsOf, CheckBoundary;
    if !r.pump.owned { OutboundKeys(k, t.held, r.pump.logical, env.mask); }
  }

  /** A frame that Slave owns at its start; `t` already tracks its keys. */
  lemma SlaveFrameKeys(k: Keyboard, before: seq<HeldKey>, t: Pump, env: Env, f: Frame, layout: Layout)
    requires env.peer.Linked? && !t.owned && t.held == TrackAll(before, f.keys)
    requires Distinct(before) && AllFit(before, layout) && KeysFit(f.keys, layout) && CodesListed(k, before)
    ensures var r := SlaveOwned(t, env, f);
            && r.pump.held == t.held && r.pump.hook.pending == t.hook.pending && r.releasedLocally == []
            && CodesListed(ObeyAll(k, r.sent), if r.pump.owned then [] else t.held)
  {
    var r, at := SlaveOwned(t, env, f), Moved(t, f);
    var c := CheckBoundary(BoundsOf(env.peer.monitors), at).clamped;
    ForwardedKeys(k, c, f);
    ForwardAll(k, before, f.keys, layout);
    var forwarded := ObeyAll(k, Forwarded(c, f));
    hide Crosses, Handoff, BoundsOf, CheckBoundary, Forwarded, ReturnMessages, CodesListed, PastMargin, Settled, ObeyAll, InvertEntry;
    if r.pump.owned {
      ReturnClears(forwarded, t.held);
      ObeyAppend(k, Forwarded(c, f), ReturnMessages(t.held));
    }
  }

  lemma TickKeepsKeys(w: World, env: Env, layout: Layout)
    requires KeysInv(w, layout) && env.peer.Linked? && !Escapes(w.pump, Tick(env))
    ensures KeysInv(NextWorld(w, Tick(env)), layout)
  {
    NextConsistent(w.pump, Tick(env));
    var p := w.pump;
    var f := p.hook.pending;
    var r := Step(p, env);
    TrackAllShape(p.held, f.keys, layout);
    hide Consistent, CodesListed, MasterOwned, SlaveOwned, Vks, Distinct, AllFit, ObeyAll, ReturnMessages, Middle, EscapeComboHeld;
    if !p.owned && p.active && env.peer.monitors == [] {
      ReturnClears(w.slave, p.held);
    } else {
      var a := Activated(p, env);
      var t := a.(hook := Polled(a.hook), held := TrackAll(p.held, f.keys));
      if t.owned {
        MasterFrameKeys(w.slave, t, env, f);
      } else {
        SlaveFrameKeys(w.slave, p.held, t, env, f, layout);
      }
    }
  }

  lemma {:induction false} ActivationInv(ws: seq<World>, es: seq<Event>, n: nat, layout: Layout)
    requires IsActivation(ws, es, layout) && n < |ws|
    requires forall i | 0 <= i < n :: !Escapes(ws[i].pump, es[i])
    ensures KeysInv(ws[n], layout) && (n > 0 ==> ws[n].pump.active)
  {
    hide KeysInv, Escapes;
    if n == 0 {
      BeginKeys(ws[0], layout);
    } else {
      ActivationInv(ws, es, n - 1, layout);
      assert ws[n] == NextWorld(ws[n - 1], es[n - 1]) && Allowed(es[n - 1], layout);
      match es[n - 1]
      case Os(os) => OsKeepsKeys(ws[n - 1], os, layout);
      case Tick(env) =>
        TickKeepsKeys(ws[n - 1], env, layout);
        TickActivates(ws[n - 1].pump, env);
    }
  }

  lemma BeginKeys(w: World, layout: Layout)
    requires Consistent(w.pump) && !w.pump.active && w.pump.held == [] && w.pump.hook.pending == EMPTY
    requires w.masterDown == {} && w.slave.down == {}
    ensures KeysInv(w, layout)
  {
  }

  lemma TickActivates(p: Pump, env: Env)
    requires env.peer.Linked?
    ensures Step(p, env).pump.active
  {
    hide Crosses, Handoff, BoundsOf, CheckBoundary, TrackAll, EscapeComboHeld, PastMargin, Settled, Forwarded, InvertEntry;
  }

  /** No stuck keys. At every moment of an activation -- whatever is typed, whenever the mouse
      crosses over and back, and even if Slave loses its last display -- while Slave owns the input
      no key is down on Master's OS, and while Master owns it no key is down on Slave, save
      perhaps one of the four that a modifier sync presses. The emergency escape is the exception. */
  lemma NoStuckKeys(ws: seq<World>, es: seq<Event>, n: nat, layout: Layout)
    requires IsActivation(ws, es, layout) && n < |ws|
    requires forall i | 0 <= i < n :: !Escapes(ws[i].pump, es[i])
    ensures !ws[n].pump.owned ==> ws[n].masterDown == {}
    ensures ws[n].pump.owned ==> ws[n].slave.down <= SYNCED
  {
    ActivationInv(ws, es, n, layout);
    hide IsActivation, Escapes, Consistent, Distinct, AllFit, KeysFit, Vks;
    if ws[n].pump.owned { OnlySynced(ws[n].slave); }
  }

  /** And no key is down anywhere that the pump does not know of: what Slave has down is on the
      held list, and what Master's OS has down is on it as soon as the pending events are read. */
  lemma EveryDownKeyIsHeld(ws: seq<World>, es: seq<Event>, n: nat, layout: Layout, c: nat)
    requires IsActivation(ws, es, layout) && n < |ws|
    requires forall i | 0 <= i < n :: !Escapes(ws[i].pump, es[i])
    ensures c in ws[n].slave.down && c !in SYNCED ==> IsCodeOf(c, ws[n].pump.held)
    ensures ws[n].masterDown <= Vks(TrackAll(ws[n].pump.held, ws[n].pump.hook.pending.keys))
  {
    ActivationInv(ws, es, n, layout);
    hide IsActivation, Escapes, Consistent, Distinct, AllFit, KeysFit, Vks, TrackAll;
    if ws[n].pump.owned { OnlySynced(ws[n].slave); }
  }

  // ------------------------------------------------------------------------------------
  // What is typed is what is down
  // ------------------------------------------------------------------------------------

  /** Different keys have different scancodes. */
  ghost predicate IsKeyboard(layout: Layout) { forall a, b :: layout(a) == layout(b) ==> a == b }

  /** Whether a key is down after `ks`, given whether it was before. */
  function DownAfter(was: bool, vk: nat, ks: seq<KeyEvent>): bool {
    if ks == [] then was else if ks[|ks| - 1].vk == vk then ks[|ks| - 1].down else DownAfter(was, vk, ks[..|ks| - 1])
  }

  lemma {:induction false} DownAfterBoth(was: bool, vk: nat, a: seq<KeyEvent>, b: seq<KeyEvent>)
    ensures DownAfter(was, vk, a + b) == DownAfter(DownAfter(was, vk, a), vk, b)
  {
    if b == [] {
      assert a + b == a;
    } else {
      DownAfterBoth(was, vk, a, b[..|b| - 1]);
      assert (a + b)[..|a + b| - 1] == a + b[..|b| - 1];
    }
  }

  lemma {:induction false} ForwardedKeysAreDown(k: Keyboard, ks: seq<KeyEvent>, layout: Layout, vk: nat, c: nat)
    requires KeysFit(ks, layout) && IsKeyboard(layout) && Code(layout(vk).0, layout(vk).1) == Some(c)
    ensures c in ObeyAll(k, KeyMessages(ks)).down <==> DownAfter(c in k.down, vk, ks)
  {
    if ks != [] {
      var front, last := ks[..|ks| - 1], ks[|ks| - 1];
      ForwardedKeysAreDown(k, front, layout, vk, c);
      assert KeyMessages(ks)[..|ks| - 1] == KeyMessages(front);
      assert KeyFits(last, layout);
      if Code(last.scancode, last.extended) == Some(c) {
        CodesAreDistinct(last.scancode, last.extended, layout(vk).0, layout(vk).1);
      }
      hide Code;
    }
  }

  /** What the frames from `h` on have forwarded. */
  ghost function KeysSince(ws: seq<World>, es: seq<Event>, h: nat, n: nat): seq<KeyEvent>
    requires h <= n <= |es| < |ws|
  {
    if n == h then []
    else KeysSince(ws, es, h, n - 1) + (if es[n - 1].Tick? then ws[n - 1].pump.hook.pending.keys else [])
  }

  /** Slave's part of one event of a stay with Slave. */
  lemma StayingStep(w: World, e: Event, layout: Layout, vk: nat, c: nat)
    requires KeysInv(w, layout) && Allowed(e, layout) && IsKeyboard(layout) && Code(layout(vk).0, layout(vk).1) == Some(c)
    requires w.pump.active && !w.pump.owned && !Next(w.pump, e).owned
    ensures c in NextWorld(w, e).slave.down <==>
              DownAfter(c in w.slave.down, vk, if e.Tick? then w.pump.hook.pending.keys else [])
  {
    hide CodesListed, Distinct, AllFit, TrackAll, Vks, IsKeyboard, Code, DownAfter;
    if e.Tick? {
      var f := w.pump.hook.pending;
      StayingSends(w.pump, e.env);
      hide Step;
      ForwardedKeys(w.slave, CheckBoundary(BoundsOf(e.env.peer.monitors), Moved(w.pump, f)).clamped, f);
      ForwardedKeysAreDown(w.slave, f.keys, layout, vk, c);
      hide ObeyAll, Forwarded, KeyMessages;
    } else {
      assert DownAfter(c in w.slave.down, vk, []) == (c in w.slave.down) by { NothingTyped(c in w.slave.down, vk); }
    }
  }

  lemma NothingTyped(was: bool, vk: nat)
    ensures DownAfter(was, vk, []) == was
  {
  }

  lemma StayingSends(p: Pump, env: Env)
    requires env.peer.Linked? && p.active && !p.owned && !Step(p, env).pump.owned
    ensures var f := p.hook.pending;
            Step(p, env).sent == Forwarded(CheckBoundary(BoundsOf(env.peer.monitors), Moved(p, f)).clamped, f)
  {
    hide BoundsOf, Handoff, Crosses, TrackAll, EscapeComboHeld, CheckBoundary, PastMargin, Settled, Forwarded, ReturnMessages, InvertEntry;
  }

  /** During any stay with Slave a key is down there exactly if the last event typed for it since the
      crossing was a key-down: none is lost, and no key's release takes another one with it. (The
      four synced modifiers may also be down from the crossing.) */
  lemma {:induction false} TypedIsDown(ws: seq<World>, es: seq<Event>, h: nat, n: nat, layout: Layout, vk: nat, c: nat)
    requires IsActivation(ws, es, layout) && IsKeyboard(layout) && h < n < |ws|
    requires forall i | 0 <= i < n :: !Escapes(ws[i].pump, es[i])
    requires ws[h].pump.owned && forall j | h < j <= n :: !ws[j].pump.owned
    requires Code(layout(vk).0, layout(vk).1) == Some(c) && c !in SYNCED
    ensures c in ws[n].slave.down <==> DownAfter(false, vk, KeysSince(ws, es, h + 1, n))
  {
    hide KeysInv, Escapes, Code, IsKeyboard, DownAfter, NextWorld;
    ActivationInv(ws, es, n - 1, layout);
    assert ws[n] == NextWorld(ws[n - 1], es[n - 1]) && Allowed(es[n - 1], layout);
    if n == h + 1 {
      NothingTyped(false, vk);
      FirstOfStay(ws[h], es[h], layout, c);
    } else {
      TypedIsDown(ws, es, h, n - 1, layout, vk, c);
      StaysInPump(ws[n - 1], es[n - 1]);
      StayingStep(ws[n - 1], es[n - 1], layout, vk, c);
      DownAfterBoth(false, vk, KeysSince(ws, es, h + 1, n - 1), if es[n - 1].Tick? then ws[n - 1].pump.hook.pending.keys else []);
    }
  }

  lemma StaysInPump(w: World, e: Event)
    ensures NextWorld(w, e).pump == Next(w.pump, e)
  {
    hide Step;
  }

  /** Right after the crossing nothing is down on Slave but synced modifiers. */
  lemma FirstOfStay(w: World, e: Event, layout: Layout, c: nat)
    requires KeysInv(w, layout) && w.pump.owned && !NextWorld(w, e).pump.owned && c !in SYNCED && Allowed(e, layout)
    ensures c !in NextWorld(w, e).slave.down
  {
    OnlySynced(w.slave);
    if e.Tick? {
      CrossingOverSends(w, e.env);
      var ms := [MouseAbsolute(Step(w.pump, e.env).pump.logical), ModifierSync(e.env.mask)];
      hide Step, KeysInv;
      OutboundKeys(w.slave, [], ms[0].p, e.env.mask);
      OnlySynced(ObeyAll(w.slave, ms));
    }
  }

  // ------------------------------------------------------------------------------------
  // The emergency escape
  // ------------------------------------------------------------------------------------

  /** The escape releases what is on the held list but never forwards its own frame's key events,
      so it leaves a key down on Slave exactly when the key was down there and the list no longer
      names it: it was let go in that very frame. */
  lemma EscapeLeaves(w: World, env: Env, c: nat)
    requires env.peer.Linked? && Escapes(w.pump, Tick(env)) && c !in SYNCED
    ensures c in NextWorld(w, Tick(env)).slave.down <==>
              c in w.slave.down && !IsCodeOf(c, TrackAll(w.pump.held, w.pump.hook.pending.keys))
  {
    var p := w.pump;
    var r := Step(p, env);
    assert r.sent == ReturnMessages(TrackAll(p.held, p.hook.pending.keys)) && w.pump.active by {
      hide MasterOwned, SlaveOwned, EscapeComboHeld, TrackAll, Middle;
    }
    hide Step, TrackAll, Next;
    ReturnLeaves(w.slave, TrackAll(p.held, p.hook.pending.keys), c);
  }

  const COMBO: seq<HeldKey> := [HeldKey(0xA2, 0x1D, false), HeldKey(0xA4, 0x38, false), HeldKey(0xA0, 0x2A, false),
                                HeldKey(0x43, 0x2E, false)]

  /** A frame in which Escape goes down and C comes up: C stays down on Slave. */
  lemma KeyLostInEscape(w: World, env: Env)
    requires env.peer.Linked? && env.peer.monitors != [] && 0x2E in w.slave.down
    requires w.pump.active && !w.pump.owned && w.pump.held == COMBO
    requires w.pump.hook.pending.keys == [KeyEvent(0x1B, 0x01, true, false), KeyEvent(0x43, 0x2E, false, false)]
    ensures Escapes(w.pump, Tick(env)) && 0x2E in NextWorld(w, Tick(env)).slave.down
  {
    ComboComplete(w.pump.hook.pending.keys);
    var after := TrackAll(COMBO, w.pump.hook.pending.keys);
    assert Escapes(w.pump, Tick(env)) by { hide EscapeComboHeld, TrackAll, IsCodeOf, Middle; }
    hide TrackAll, EscapeComboHeld, Step;
    EscapeLeaves(w, env, 0x2E);
  }

  lemma ComboComplete(ks: seq<KeyEvent>)
    requires ks == [KeyEvent(0x1B, 0x01, true, false), KeyEvent(0x43, 0x2E, false, false)]
    ensures EscapeComboHeld(TrackAll(COMBO, ks)) && !IsCodeOf(0x2E, TrackAll(COMBO, ks))
  {
    var after := COMBO[..3] + [HeldKey(0x1B, 0x01, false)];
    var mid := COMBO + [HeldKey(0x1B, 0x01, false)];
    assert ks[..1] == [ks[0]] && ks[..1][..0] == [];
    FindAbsent(COMBO, 0x1B);
    assert TrackAll(COMBO, ks[..1]) == mid;
    assert Find(mid, 0x43) == 3 by { assert mid[3].vk == 0x43; }
    assert TrackAll(COMBO, ks) == mid[..3] + mid[4..] == after;
    assert after[0].vk in CONTROLS && after[1].vk in MENUS && after[2].vk in SHIFTS && after[3].vk in {ESCAPE};
  }

  lemma FindAbsent(held: seq<HeldKey>, vk: nat)
    requires forall i | 0 <= i < |held| :: held[i].vk != vk
    ensures Find(held, vk) == |held|
  {
  }
}

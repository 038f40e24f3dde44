/** The settings halves of src/app/audio_pump.cpp: Master requests, Slave applies and reports, and
    the user may edit either side at any time. Messages travel in order and none is lost while the
    connection lasts. */
module AudioSettings {
  datatype Format = Format(sampleRate: nat, bitDepth: nat)
  datatype Settings = Settings(enabled: bool, format: Format)

  /** The format matters only while audio is sent. */
  predicate Same(a: Settings, b: Settings) { a.enabled == b.enabled && (a.enabled ==> a.format == b.format) }

  // ------------------------------------------------------------------------------------
  // The two pumps
  // ------------------------------------------------------------------------------------

  /** `view` is what Slave last reported, as the server's status shows it. */
  datatype Master = Master(desired: Settings, overridden: bool, controlSent: bool, lastSent: Settings, view: Settings)

  /** `requested` and `count` are the client's status: the last request received, and how many. */
  datatype Slave = Slave(settings: Settings, reported: bool, lastReported: Settings,
                         requested: Settings, received: bool, count: nat, lastApplied: nat)

  predicate WantsToSend(m: Master) { !m.controlSent || !Same(m.desired, m.lastSent) }

  function MasterPumped(m: Master): (Master, seq<Settings>) {
    if !m.overridden then (m.(desired := m.view), [])
    else if WantsToSend(m) then (m.(controlSent := true, lastSent := m.desired), [m.desired])
    else (m, [])
  }

  predicate HasNew(s: Slave) { s.received && s.count != s.lastApplied }

  function Applied(s: Slave): Slave {
    if HasNew(s) then s.(settings := s.requested, lastApplied := s.count) else s
  }

  function SlavePumped(s: Slave): (Slave, seq<Settings>) {
    var a := Applied(s);
    if !a.reported || !Same(a.settings, a.lastReported) then (a.(reported := true, lastReported := a.settings), [a.settings])
    else (a, [])
  }

  function MasterHears(m: Master, status: Settings): Master { m.(view := status) }

  function SlaveHears(s: Slave, request: Settings): Slave { s.(requested := request, received := true, count := s.count + 1) }

  /** What counts as a change: audio being switched, and, while it is on, the rate or the depth. */
  predicate Differs(a: Settings, b: Settings) {
    || a.enabled != b.enabled
    || (a.enabled && (a.format.sampleRate != b.format.sampleRate || a.format.bitDepth != b.format.bitDepth))
  }

  /** Exactly when a side speaks: Master, once the user has overridden Slave's settings, at first and
      then on every change; Slave, at first and then on every change of what it really has. */
  lemma WhoSpeaks(m: Master, s: Slave)
    ensures MasterPumped(m).1 == if m.overridden && (!m.controlSent || Differs(m.desired, m.lastSent)) then [m.desired] else []
    ensures var own := SlavePumped(s).0.settings;
            && own == (if s.received && s.count != s.lastApplied then s.requested else s.settings)
            && SlavePumped(s).1 == if !s.reported || Differs(own, s.lastReported) then [own] else []
    ensures !m.overridden ==> MasterPumped(m).0.desired == m.view
  {
  }

  class MasterPump {
    var desired: Settings
    var overridden: bool
    var controlSent: bool
    var lastSent: Settings
    var view: Settings
    var sent: seq<Settings>

    ghost function View(): Master
      reads this
    {
      Master(desired, overridden, controlSent, lastSent, view)
    }

    constructor (desired: Settings, lastSent: Settings, view: Settings)
      ensures View() == Master(desired, false, false, lastSent, view) && sent == []
    {
      this.desired := desired;
      overridden, controlSent := false, false;
      this.lastSent := lastSent;
      this.view := view;
      sent := [];
    }

    method Pump()
      modifies this
      ensures View() == MasterPumped(old(View())).0 && sent == old(sent) + MasterPumped(old(View())).1
    {
      if !overridden {
        desired := view;
      } else {
        var wantSendControl := !controlSent || desired.enabled != lastSent.enabled
                               || (desired.enabled && desired.format != lastSent.format);
        if wantSendControl {
          sent := sent + [desired];
          controlSent := true;
          lastSent := desired;
        }
      }
    }
  }

  class SlavePump {
    var settings: Settings
    var reported: bool
    var lastReported: Settings
    var requested: Settings
    var received: bool
    var count: nat
    var lastApplied: nat
    var sent: seq<Settings>

    ghost function View(): Slave
      reads this
    {
      Slave(settings, reported, lastReported, requested, received, count, lastApplied)
    }

    constructor (settings: Settings, requested: Settings, lastApplied: nat)
      ensures View() == Slave(settings, false, settings, requested, false, 0, lastApplied) && sent == []
    {
      this.settings := settings;
      reported, received := false, false;
      lastReported := settings;
      this.requested := requested;
      count := 0;
      this.lastApplied := lastApplied;
      sent := [];
    }

    method Pump()
      modifies this
      ensures View() == SlavePumped(old(View())).0 && sent == old(sent) + SlavePumped(old(View())).1
    {
      if received && count != lastApplied {
        settings := requested;
        lastApplied := count;
      }
      assert View() == Applied(old(View()));
      var statusChanged := !reported || settings.enabled != lastReported.enabled
                           || (settings.enabled && settings.format != lastReported.format);
      if statusChanged {
        sent := sent + [settings];
        reported := true;
        lastReported := settings;
      }
    }
  }

  // ------------------------------------------------------------------------------------
  // One connection
  // ------------------------------------------------------------------------------------

  datatype World = World(master: Master, slave: Slave, toSlave: seq<Settings>, toMaster: seq<Settings>)

  datatype Event =
    | MasterPumps | SlavePumps
    | MasterReceives | SlaveReceives
    | MasterEdits(wish: Settings) | SlaveEdits(wish: Settings)

  function Next(w: World, e: Event): World {
    match e
    case MasterPumps =>
      var (m, sent) := MasterPumped(w.master);
      w.(master := m, toSlave := w.toSlave + sent)
    case SlavePumps =>
      var (s, sent) := SlavePumped(w.slave);
      w.(slave := s, toMaster := w.toMaster + sent)
    case MasterReceives =>
      if w.toMaster == [] then w
      else w.(master := MasterHears(w.master, w.toMaster[0]), toMaster := w.toMaster[1..])
    case SlaveReceives =>
      if w.toSlave == [] then w
      else w.(slave := SlaveHears(w.slave, w.toSlave[0]), toSlave := w.toSlave[1..])
    case MasterEdits(wish) => w.(master := w.master.(desired := wish, overridden := true))
    case SlaveEdits(wish) => w.(slave := w.slave.(settings := wish))
  }

  /** A connection begins: nothing sent, reported or received on it. The number Slave last applied
      is left from earlier connections. */
  predicate Begins(w: World) {
    && !w.master.controlSent && !w.master.overridden && !w.slave.reported && !w.slave.received && w.slave.count == 0
    && w.toSlave == [] && w.toMaster == []
  }

  ghost predicate IsConnection(ws: seq<World>, es: seq<Event>) {
    && |ws| == |es| + 1 && Begins(ws[0])
    && forall i {:trigger es[i]} | 0 <= i < |es| :: ws[i + 1] == Next(ws[i], es[i])
  }

  /** Nothing is in flight and neither pump has anything left to do. */
  predicate Quiescent(w: World) {
    && w.toSlave == [] && w.toMaster == []
    && Next(w, MasterPumps) == w && Next(w, SlavePumps) == w
  }

  function Newest(queue: seq<Settings>, arrived: Settings): Settings {
    if queue == [] then arrived else queue[|queue| - 1]
  }

  predicate Inv(w: World) {
    var m, s := w.master, w.slave;
    && (m.controlSent ==> m.overridden)
    && (s.received <==> s.count > 0)
    && (m.controlSent ==> (w.toSlave != [] || s.received) && Newest(w.toSlave, s.requested) == m.lastSent)
    && (!m.controlSent ==> w.toSlave == [] && !s.received)
    && (s.reported ==> Newest(w.toMaster, m.view) == s.lastReported)
  }

  lemma MasterPumpsInv(w: World)
    requires Inv(w)
    ensures Inv(Next(w, MasterPumps))
  {
    hide SlavePumped;
    var sent := MasterPumped(w.master).1;
    assert w.toSlave + [] == w.toSlave;
    assert sent != [] ==> Newest(w.toSlave + sent, w.slave.requested) == sent[0];
  }

  lemma SlavePumpsInv(w: World)
    requires Inv(w)
    ensures Inv(Next(w, SlavePumps))
  {
    hide MasterPumped;
    var sent := SlavePumped(w.slave).1;
    assert w.toMaster + [] == w.toMaster;
    assert sent != [] ==> Newest(w.toMaster + sent, w.master.view) == sent[0];
  }

  lemma NextInv(w: World, e: Event)
    requires Inv(w)
    ensures Inv(Next(w, e))
  {
    match e
    case MasterPumps => hide SlavePumped; MasterPumpsInv(w);
    case SlavePumps => hide MasterPumped; SlavePumpsInv(w);
    case _ => hide MasterPumped, SlavePumped;
  }

  lemma {:induction false} AlwaysInv(ws: seq<World>, es: seq<Event>, n: nat)
    requires IsConnection(ws, es) && n < |ws|
    ensures Inv(ws[n])
  {
    hide Next;
    if n > 0 {
      AlwaysInv(ws, es, n - 1);
      assert ws[n] == Next(ws[n - 1], es[n - 1]);
      NextInv(ws[n - 1], es[n - 1]);
    }
  }

  /** Once everything has settled, Master sees Slave's settings as they are. */
  lemma MasterSeesSlave(ws: seq<World>, es: seq<Event>, n: nat)
    requires IsConnection(ws, es) && n < |ws| && Quiescent(ws[n])
    ensures Same(ws[n].master.view, ws[n].slave.settings)
    ensures !ws[n].master.overridden ==> Same(ws[n].master.desired, ws[n].slave.settings)
  {
    AlwaysInv(ws, es, n);
    QuiescentFacts(ws[n]);
    hide IsConnection, Quiescent;
  }

  lemma QuiescentFacts(w: World)
    requires Quiescent(w)
    ensures w.slave.reported && Same(w.slave.settings, w.slave.lastReported)
    ensures w.slave.received ==> w.slave.count == w.slave.lastApplied
    ensures if w.master.overridden then !WantsToSend(w.master) else w.master.desired == w.master.view
  {
    var (m, sent) := MasterPumped(w.master);
    assert w.toSlave + sent == [] ==> sent == [];
    var (s, sent') := SlavePumped(w.slave);
    assert w.toMaster + sent' == [] ==> sent' == [];
  }

  // ------------------------------------------------------------------------------------
  // Whose wish it is
  // ------------------------------------------------------------------------------------

  /** Master has a request to send. */
  predicate Wanting(w: World) { w.master.overridden && WantsToSend(w.master) }

  /** A request is still on its way into Slave's settings. */
  predicate Underway(w: World) { Wanting(w) || w.toSlave != [] || HasNew(w.slave) }

  /** The last request of those underway. */
  function Asked(w: World): Settings { if Wanting(w) then w.master.desired else Newest(w.toSlave, w.slave.requested) }

  /** The number that one will have: Slave counts the requests of a connection as they come. */
  function Number(w: World): nat { w.slave.count + |w.toSlave| + if Wanting(w) then 1 else 0 }

  predicate IsEdit(e: Event) { e.MasterEdits? || e.SlaveEdits? }

  ghost predicate NoEdits(es: seq<Event>, a: nat, n: nat)
    requires n <= |es|
  {
    forall i | a <= i < n :: !IsEdit(es[i])
  }

  /** Slave polls when it has received some requests, but fewer than the number it last applied. */
  ghost predicate PollsEarly(ws: seq<World>, es: seq<Event>, a: nat, n: nat)
    requires a <= n <= |es| < |ws|
  {
    exists j: nat {:trigger es[j]} | a <= j < n :: es[j].SlavePumps? && 0 < ws[j].slave.count < ws[a].slave.lastApplied
  }

  /** The last request will have the number of one that Slave applied on an earlier connection, and no
      poll before it has come corrects that: it is taken for the old one. */
  ghost predicate Skipped(ws: seq<World>, es: seq<Event>, a: nat, n: nat)
    requires a <= n <= |es| < |ws|
  {
    Number(ws[a]) == ws[a].slave.lastApplied && !PollsEarly(ws, es, a, n)
  }

  /** Slave has applied a request since `a`. */
  ghost predicate AppliedSince(ws: seq<World>, es: seq<Event>, a: nat, n: nat)
    requires a <= n <= |es| < |ws|
  {
    exists j: nat {:trigger es[j]} | a <= j < n :: es[j].SlavePumps? && HasNew(ws[j].slave)
  }

  /** Until the next edit nothing changes which request will be the last, or its number. */
  lemma LastRequestStays(w: World, e: Event)
    requires !IsEdit(e)
    ensures var v := Next(w, e); Asked(v) == Asked(w) && Number(v) == Number(w)
  {
    assert w.toSlave + [] == w.toSlave;
  }

  /** How `w`, some time after `v` and with or without a request applied in between, follows it. */
  predicate Since(v: World, w: World, applied: bool) {
    && Asked(w) == Asked(v) && Number(w) == Number(v) && (!Underway(v) ==> !Underway(w) && !applied)
    && if applied then w.slave.lastApplied <= w.slave.count
                       && (w.slave.count == w.slave.lastApplied ==> w.slave.settings == w.slave.requested)
       else w.slave.lastApplied == v.slave.lastApplied && w.slave.settings == v.slave.settings
  }

  lemma SinceStep(v: World, w: World, applied: bool, e: Event)
    requires Since(v, w, applied) && !IsEdit(e)
    ensures Since(v, Next(w, e), applied || (e.SlavePumps? && HasNew(w.slave)))
  {
    LastRequestStays(w, e);
    hide Asked, Number;
  }

  /** Polls are early exactly as long as they find something new to apply. */
  lemma {:induction false} SinceThen(ws: seq<World>, es: seq<Event>, a: nat, n: nat)
    requires IsConnection(ws, es) && a <= n < |ws| && NoEdits(es, a, n)
    ensures Since(ws[a], ws[n], AppliedSince(ws, es, a, n))
    ensures Number(ws[a]) == ws[a].slave.lastApplied ==> (AppliedSince(ws, es, a, n) <==> PollsEarly(ws, es, a, n))
  {
    if n > a {
      SinceThen(ws, es, a, n - 1);
      assert !IsEdit(es[n - 1]) && ws[n] == Next(ws[n - 1], es[n - 1]);
      SinceStep(ws[a], ws[n - 1], AppliedSince(ws, es, a, n - 1), es[n - 1]);
      AlwaysInv(ws, es, n - 1);
      hide Next, Asked;
      assert AppliedSince(ws, es, a, n) <==>
             AppliedSince(ws, es, a, n - 1) || (es[n - 1].SlavePumps? && HasNew(ws[n - 1].slave));
      assert PollsEarly(ws, es, a, n) <==>
             PollsEarly(ws, es, a, n - 1) || (es[n - 1].SlavePumps? && 0 < ws[n - 1].slave.count < ws[a].slave.lastApplied);
    }
  }

  /** Whoever edited last, and at whatever moment of whatever connection: when nobody edits any more
      and everything has settled, Slave has what was last asked for, if anything was underway and
      its number is not skipped; otherwise what it had. */
  lemma SettingsInTheEnd(ws: seq<World>, es: seq<Event>, a: nat, n: nat)
    requires IsConnection(ws, es) && a <= n < |ws| && NoEdits(es, a, n) && Quiescent(ws[n])
    ensures ws[n].slave.settings == if Underway(ws[a]) && !Skipped(ws, es, a, n) then Asked(ws[a]) else ws[a].slave.settings
  {
    SinceThen(ws, es, a, n);
    AlwaysInv(ws, es, a);
    AlwaysInv(ws, es, n);
    QuiescentFacts(ws[n]);
    hide IsConnection, Quiescent, NoEdits, Next, PollsEarly, AppliedSince;
  }

  /** An edit that differs from what Master last asked for on this connection. */
  predicate IsNews(m: Master, wish: Settings) { !m.controlSent || !Same(wish, m.lastSent) }

  /** The edit will be sent, or the request it repeats has yet to be applied. */
  predicate Carried(w: World, wish: Settings) { IsNews(w.master, wish) || w.toSlave != [] || HasNew(w.slave) }

  /** Exactly when Master's edit takes effect: when it is carried -- news, or the request it repeats
      still on its way -- and not skipped, or when Slave has that setting anyway. */
  lemma MasterEditWinsIff(ws: seq<World>, es: seq<Event>, a: nat, n: nat, wish: Settings)
    requires IsConnection(ws, es) && a < n < |ws| && es[a] == MasterEdits(wish)
    requires NoEdits(es, a + 1, n) && Quiescent(ws[n])
    ensures Same(ws[n].slave.settings, wish) <==>
              (Carried(ws[a], wish) && !Skipped(ws, es, a + 1, n)) || Same(ws[a].slave.settings, wish)
  {
    assert ws[a + 1] == Next(ws[a], es[a]);
    AlwaysInv(ws, es, a);
    SettingsInTheEnd(ws, es, a + 1, n);
    hide IsConnection, Quiescent, NoEdits, Skipped;
  }

  /** Exactly when Slave's edit stays: when nothing is underway at that moment, or that is
      skipped, or asks for the same. */
  lemma SlaveEditStaysIff(ws: seq<World>, es: seq<Event>, a: nat, n: nat, wish: Settings)
    requires IsConnection(ws, es) && a < n < |ws| && es[a] == SlaveEdits(wish)
    requires NoEdits(es, a + 1, n) && Quiescent(ws[n])
    ensures ws[n].slave.settings == wish <==>
              !Underway(ws[a]) || Skipped(ws, es, a + 1, n) || Asked(ws[a]) == wish
  {
    assert ws[a + 1] == Next(ws[a], es[a]);
    SettingsInTheEnd(ws, es, a + 1, n);
    hide IsConnection, Quiescent, NoEdits, Skipped;
  }

  /** The number that Master's edit, or the request it repeats, will have. */
  function NumberOf(w: World, wish: Settings): nat { w.slave.count + |w.toSlave| + if IsNews(w.master, wish) then 1 else 0 }

  /** When that can be told before the edit: always, but for a number of two or more that was the last
      one applied. A number not applied last is not skipped; the first of a connection is. */
  lemma MasterEditForetold(ws: seq<World>, es: seq<Event>, a: nat, n: nat, wish: Settings)
    requires IsConnection(ws, es) && a < n < |ws| && es[a] == MasterEdits(wish)
    requires NoEdits(es, a + 1, n) && Quiescent(ws[n])
    ensures NumberOf(ws[a], wish) != ws[a].slave.lastApplied ==>
              (Same(ws[n].slave.settings, wish) <==> Carried(ws[a], wish) || Same(ws[a].slave.settings, wish))
    ensures NumberOf(ws[a], wish) == ws[a].slave.lastApplied == 1 ==>
              (Same(ws[n].slave.settings, wish) <==> Same(ws[a].slave.settings, wish))
  {
    assert ws[a + 1] == Next(ws[a], es[a]);
    MasterEditWinsIff(ws, es, a, n, wish);
    hide IsConnection, Quiescent, NoEdits, Carried, Same;
  }

  /** On the first connection since Slave's program started nothing is ever skipped. */
  lemma FirstConnectionSkipsNothing(ws: seq<World>, es: seq<Event>, a: nat, n: nat)
    requires IsConnection(ws, es) && a <= n < |ws| && ws[0].slave.lastApplied == 0
    ensures Underway(ws[a]) ==> !Skipped(ws, es, a, n)
  {
    LastAppliedIsBehind(ws, es, a);
  }

  lemma {:induction false} LastAppliedIsBehind(ws: seq<World>, es: seq<Event>, n: nat)
    requires IsConnection(ws, es) && n < |ws| && ws[0].slave.lastApplied == 0
    ensures ws[n].slave.lastApplied <= ws[n].slave.count
  {
    if n > 0 {
      LastAppliedIsBehind(ws, es, n - 1);
      assert ws[n] == Next(ws[n - 1], es[n - 1]);
    }
  }

  // ------------------------------------------------------------------------------------
  // Connections on which an edit is lost
  // ------------------------------------------------------------------------------------

  function Play(w: World, es: seq<Event>): (ws: seq<World>)
    ensures |ws| == |es| + 1 && ws[0] == w
    ensures forall i | 0 <= i < |es| :: ws[i + 1] == Next(ws[i], es[i])
  {
    if es == [] then [w] else
      var ws := Play(w, es[..|es| - 1]);
      ws + [Next(ws[|es| - 1], es[|es| - 1])]
  }

  /** From edit to report: the request goes out, is applied and is reported back. */
  const ROUND: seq<Event> := [MasterPumps, SlaveReceives, SlavePumps, MasterReceives]

  predicate EndsWithout(w: World, wish: Settings) {
    Quiescent(w) && w.master.desired == wish && !Same(w.slave.settings, wish)
  }

  /** Both sides have said all there is to say. */
  lemma NothingLeft(w: World)
    requires w.toSlave == [] && w.toMaster == [] && w.master.overridden && !WantsToSend(w.master)
    requires w.slave.reported && w.slave.lastReported == w.slave.settings && !HasNew(w.slave)
    ensures Quiescent(w)
  {
    assert w.toSlave + [] == [];
  }

  lemma OneRound(a: World, b: World, c: World, d: World, e: World, f: World, x: Settings)
    requires Begins(a) && a.slave.lastApplied == 0
    requires b == Next(a, MasterEdits(x)) && c == Next(b, ROUND[0]) && d == Next(c, ROUND[1])
    requires e == Next(d, ROUND[2]) && f == Next(e, ROUND[3])
    ensures f == World(Master(x, true, true, x, x), Slave(x, true, x, x, true, 1, 1), [], [])
  {
    assert c.toSlave == [x] && d.toSlave == [] && e.toMaster == [x];
  }

  /** A wish repeated after Slave's user has changed the setting: it is not news, and never sent. */
  lemma RepeatedWishIsIgnored(w: World, x: Settings, y: Settings)
    requires Begins(w) && w.slave.lastApplied == 0 && !Same(x, y) && !Same(y, x)
    ensures var es := [MasterEdits(x)] + ROUND + [SlaveEdits(y), SlavePumps, MasterReceives, MasterEdits(x)];
            EndsWithout(Play(w, es)[9], x)
  {
    var es := [MasterEdits(x)] + ROUND + [SlaveEdits(y), SlavePumps, MasterReceives, MasterEdits(x)];
    var ws := Play(w, es);
    hide Play, Next, Quiescent;
    OneRound(ws[0], ws[1], ws[2], ws[3], ws[4], ws[5], x);
    ChangedAndAskedAgain(ws[5], ws[6], ws[7], ws[8], ws[9], x, y);
    NothingLeft(ws[9]);
  }

  lemma ChangedAndAskedAgain(a: World, b: World, c: World, d: World, e: World, x: Settings, y: Settings)
    requires a == World(Master(x, true, true, x, x), Slave(x, true, x, x, true, 1, 1), [], []) && !Same(y, x)
    requires b == Next(a, SlaveEdits(y)) && c == Next(b, SlavePumps)
    requires d == Next(c, MasterReceives) && e == Next(d, MasterEdits(x))
    ensures e == World(Master(x, true, true, x, y), Slave(y, true, y, x, true, 1, 1), [], [])
  {
    assert c.toMaster == [y] && d.toMaster == [];
  }

  /** Slave's user changes the setting while Master's request is on its way. */
  function EditsCross(x: Settings, y: Settings): seq<Event> { [MasterEdits(x), MasterPumps, SlaveEdits(y)] + ROUND[1..] }

  /** The request is applied over it. */
  lemma SlaveEditIsOverwritten(w: World, x: Settings, y: Settings)
    requires Begins(w) && w.slave.lastApplied == 0 && !Same(x, y)
    ensures var v := Play(w, EditsCross(x, y))[6]; Quiescent(v) && v.slave.settings == x
  {
    var es := EditsCross(x, y);
    var ws := Play(w, es);
    hide Play, Quiescent;
    assert ws[1] == Next(ws[0], es[0]) && ws[2] == Next(ws[1], es[1]) && ws[3] == Next(ws[2], es[2]);
    assert ws[3].toSlave == [x] && ws[3].slave == w.slave.(settings := y) && ws[3].toMaster == [];
    assert ws[4] == Next(ws[3], es[3]) && ws[5] == Next(ws[4], es[4]) && ws[6] == Next(ws[5], es[5]);
    assert ws[4].toSlave == [] && ws[5].toMaster == [x];
    NothingLeft(ws[6]);
  }

  /** Slave's last-applied number outlives the connection while the count of requests starts again, so
      a later connection's first request is taken for the old one. */
  lemma StaleNumberSkipsRequest(w: World, x: Settings)
    requires Begins(w) && w.slave.lastApplied == 1 && !Same(w.slave.settings, x)
    ensures EndsWithout(Play(w, [MasterEdits(x)] + ROUND)[5], x)
  {
    var es := [MasterEdits(x)] + ROUND;
    var ws := Play(w, es);
    hide Play;
    assert ws[1] == Next(ws[0], es[0]) && ws[2] == Next(ws[1], es[1]);
    assert ws[3] == Next(ws[2], es[2]) && ws[4] == Next(ws[3], es[3]) && ws[5] == Next(ws[4], es[4]);
  }

  /** Two edits of Master's, and then both requests at Slave before it polls. */
  function TwoEdits(x: Settings, y: Settings): seq<Event> {
    [MasterEdits(x), MasterPumps, MasterEdits(y), MasterPumps, SlaveReceives, SlaveReceives, SlavePumps, MasterReceives]
  }

  /** The same, but that Slave polls in between. */
  function TwoEditsApart(x: Settings, y: Settings): seq<Event> {
    TwoEdits(x, y)[..5] + [SlavePumps] + TwoEdits(x, y)[5..] + [MasterReceives]
  }

  /** With two as the number last applied it depends on when Slave polls. */
  lemma PollDecides(w: World, x: Settings, y: Settings)
    requires Begins(w) && w.slave.lastApplied == 2 && !Same(w.slave.settings, y) && !Same(y, x)
    ensures EndsWithout(Play(w, TwoEdits(x, y))[8], y)
    ensures var v := Play(w, TwoEditsApart(x, y))[10]; Quiescent(v) && v.slave.settings == y
  {
    BothAtOnce(w, x, y);
    OneByOne(w, x, y);
  }

  lemma TwoSent(a: World, b: World, c: World, d: World, e: World, x: Settings, y: Settings)
    requires Begins(a) && !Same(y, x)
    requires b == Next(a, MasterEdits(x)) && c == Next(b, MasterPumps)
    requires d == Next(c, MasterEdits(y)) && e == Next(d, MasterPumps)
    ensures e == World(Master(y, true, true, y, a.master.view), a.slave, [x, y], [])
  {
  }

  lemma BothThenPoll(a: World, b: World, c: World, d: World, e: World, x: Settings, y: Settings)
    requires a.toSlave == [x, y] && a.toMaster == []
    requires a.slave.count == 0 && a.slave.lastApplied == 2 && !a.slave.reported
    requires b == Next(a, SlaveReceives) && c == Next(b, SlaveReceives)
    requires d == Next(c, SlavePumps) && e == Next(d, MasterReceives)
    ensures var own := a.slave.settings;
            e == World(MasterHears(a.master, own), Slave(own, true, own, y, true, 2, 2), [], [])
  {
    assert b.toSlave == [y] && c.toSlave == [] && d.toMaster == [a.slave.settings];
  }

  lemma BothAtOnce(w: World, x: Settings, y: Settings)
    requires Begins(w) && w.slave.lastApplied == 2 && !Same(w.slave.settings, y) && !Same(y, x)
    ensures EndsWithout(Play(w, TwoEdits(x, y))[8], y)
  {
    var es := TwoEdits(x, y);
    var ws := Play(w, es);
    hide Play, Next, Quiescent;
    TwoSent(ws[0], ws[1], ws[2], ws[3], ws[4], x, y);
    BothThenPoll(ws[4], ws[5], ws[6], ws[7], ws[8], x, y);
    NothingLeft(ws[8]);
  }

  lemma OneThenOther(a: World, b: World, c: World, d: World, e: World, x: Settings, y: Settings)
    requires a.toSlave == [x, y] && a.toMaster == [] && !Same(y, x)
    requires a.slave.count == 0 && a.slave.lastApplied == 2 && !a.slave.reported
    requires b == Next(a, SlaveReceives) && c == Next(b, SlavePumps)
    requires d == Next(c, SlaveReceives) && e == Next(d, SlavePumps)
    ensures e == World(a.master, Slave(y, true, y, y, true, 2, 2), [], [x, y])
  {
    assert b.toSlave == [y] && c.toMaster == [x] && d.toSlave == [];
  }

  lemma OneByOne(w: World, x: Settings, y: Settings)
    requires Begins(w) && w.slave.lastApplied == 2 && !Same(y, x)
    ensures var v := Play(w, TwoEditsApart(x, y))[10]; Quiescent(v) && v.slave.settings == y
  {
    var es := TwoEditsApart(x, y);
    var ws := Play(w, es);
    hide Play, Quiescent;
    TwoSent(ws[0], ws[1], ws[2], ws[3], ws[4], x, y);
    OneThenOther(ws[4], ws[5], ws[6], ws[7], ws[8], x, y);
    assert ws[9] == Next(ws[8], es[8]) && ws[10] == Next(ws[9], es[9]);
    NothingLeft(ws[10]);
  }
}

/** Sharing the clipboard (src/app/clipboard_pump.cpp), within one session of two connected peers
    whose OS clipboards give back what was last written to them. */
module ClipboardSync {
  import opened Common

  type Content = nat

  /** `pending` is the connection's one slot for received content. */
  datatype Peer = Peer(os: Option<Content>, lastSeen: Option<Content>, lastApplied: Option<Content>, pending: Option<Content>)

  function Applied(p: Peer): Peer {
    if p.pending.None? then p
    else Peer(p.pending, p.pending, p.pending, None)
  }

  /** A poll that is due: what it makes of the OS clipboard. */
  function Looked(p: Peer): (Peer, seq<Content>) {
    if p.os.None? || p.lastSeen == p.os then (p, [])
    else if p.lastApplied == p.os then (p.(lastSeen := p.os), [])
    else (p.(lastSeen := p.os), [p.os.value])
  }

  /** `sync_clipboard` while connected. `due`: a second has passed since the last poll; `changed`:
      what `clipboard_changed()` answers. */
  function Synced(p: Peer, due: bool, changed: bool): (Peer, seq<Content>) {
    if due && changed then Looked(Applied(p)) else (Applied(p), [])
  }

  class ClipboardPump {
    var os: Option<Content>
    var lastSeen: Option<Content>
    var lastApplied: Option<Content>
    var pending: Option<Content>
    var sent: seq<Content>

    ghost function View(): Peer
      reads this
    {
      Peer(os, lastSeen, lastApplied, pending)
    }

    constructor (os: Option<Content>)
      ensures View() == Peer(os, None, None, None) && sent == []
    {
      this.os := os;
      lastSeen, lastApplied, pending, sent := None, None, None, [];
    }

    method ApplyAndTrack(content: Content)
      modifies this`os, this`lastApplied, this`lastSeen
      ensures os == lastApplied == lastSeen == Some(content)
    {
      os := Some(content);
      lastApplied := Some(content);
      lastSeen := Some(content);
    }

    method Sync(connected: bool, due: bool, changed: bool)
      modifies this
      ensures if connected then
                View() == Synced(old(View()), due, changed).0 && sent == old(sent) + Synced(old(View()), due, changed).1
              else View() == old(View()).(lastSeen := None, lastApplied := None) && sent == old(sent)
    {
      if !connected {
        lastSeen, lastApplied := None, None;
        return;
      }
      if pending.Some? {
        ApplyAndTrack(pending.value);
        pending := None;
      }
      assert View() == Applied(old(View()));
      if !due || !changed {
        return;
      }
      var current := os;
      if current.None? || lastSeen == current {
        return;
      }
      lastSeen := current;
      if lastApplied == current {
        return;
      }
      sent := sent + [current.value];
    }
  }

  // ------------------------------------------------------------------------------------
  // A session
  // ------------------------------------------------------------------------------------

  datatype Side = A | B

  /** `copies` and `sends` count, for each side, what its user copied and what it sent. */
  datatype World = World(a: Peer, b: Peer, toA: seq<Content>, toB: seq<Content>,
                         copiesA: nat, copiesB: nat, sendsA: nat, sendsB: nat)

  datatype Event =
    | Copy(side: Side, content: Content)
    | Receive(side: Side)
    | Poll(side: Side, due: bool, changed: bool)

  function Next(w: World, e: Event): World {
    match e
    case Copy(A, c) => w.(a := w.a.(os := Some(c)), copiesA := w.copiesA + 1)
    case Copy(B, c) => w.(b := w.b.(os := Some(c)), copiesB := w.copiesB + 1)
    case Receive(A) => if w.toA == [] then w else w.(a := w.a.(pending := Some(w.toA[0])), toA := w.toA[1..])
    case Receive(B) => if w.toB == [] then w else w.(b := w.b.(pending := Some(w.toB[0])), toB := w.toB[1..])
    case Poll(A, due, changed) =>
      var (p, sent) := Synced(w.a, due, changed);
      w.(a := p, toB := w.toB + sent, sendsA := w.sendsA + |sent|)
    case Poll(B, due, changed) =>
      var (p, sent) := Synced(w.b, due, changed);
      w.(b := p, toA := w.toA + sent, sendsB := w.sendsB + |sent|)
  }

  predicate Begins(w: World) {
    && w.a.lastSeen == w.a.lastApplied == w.b.lastSeen == w.b.lastApplied == None
    && w.a.pending == w.b.pending == None && w.toA == w.toB == []
    && w.copiesA == w.copiesB == w.sendsA == w.sendsB == 0
  }

  ghost predicate IsSession(ws: seq<World>, es: seq<Event>) {
    && |ws| == |es| + 1 && Begins(ws[0])
    && forall i {:trigger es[i]} | 0 <= i < |es| :: ws[i + 1] == Next(ws[i], es[i])
  }

  /** The OS clipboard holds something the pump has not looked at yet. */
  function Unseen(p: Peer): nat { if p.os.Some? && p.lastSeen != p.os then 1 else 0 }

  predicate Budget(w: World) {
    w.sendsA + Unseen(w.a) <= 1 + w.copiesA && w.sendsB + Unseen(w.b) <= 1 + w.copiesB
  }

  /** No ping-pong. In any session each side sends at most once, plus once for every copy its own
      user made: nothing that arrives ever causes a send. */
  lemma {:induction false} SendsAreBounded(ws: seq<World>, es: seq<Event>, n: nat)
    requires IsSession(ws, es) && n < |ws|
    ensures Budget(ws[n])
  {
    if n > 0 {
      SendsAreBounded(ws, es, n - 1);
      assert ws[n] == Next(ws[n - 1], es[n - 1]);
    }
  }

  function PeerOf(w: World, side: Side): Peer { if side == A then w.a else w.b }

  function SendsOf(w: World, side: Side): nat { if side == A then w.sendsA else w.sendsB }

  /** What was applied is never sent back: after an apply nothing goes out before the next local
      copy, however many polls and further receipts there are. */
  lemma {:induction false} AppliedIsNotSentBack(ws: seq<World>, es: seq<Event>, k: nat, n: nat, side: Side)
    requires IsSession(ws, es) && k < n < |ws|
    requires es[k].Poll? && es[k].side == side && PeerOf(ws[k], side).pending.Some?
    requires forall i | k <= i < n :: !(es[i].Copy? && es[i].side == side)
    ensures SendsOf(ws[n], side) == SendsOf(ws[k], side) && PeerOf(ws[n], side).lastSeen == PeerOf(ws[n], side).os
  {
    assert ws[n] == Next(ws[n - 1], es[n - 1]);
    if n > k + 1 { AppliedIsNotSentBack(ws, es, k, n - 1, side); }
  }

  /** Exactly what a call sends: what the clipboard holds once anything received has been applied, if a
      poll is due and something changed, and it is neither what was seen last nor what was applied
      last -- so never just after applying. */
  lemma SendsExactlyNews(p: Peer, due: bool, changed: bool)
    ensures Synced(p, due, changed).1 ==
              if due && changed && p.pending.None? && p.os.Some? && p.os != p.lastSeen && p.os != p.lastApplied then [p.os.value] else []
    ensures var q := Synced(p, due, changed).0;
            && q.pending.None? && q.os == (if p.pending.Some? then p.pending else p.os)
            && q.lastApplied == (if p.pending.Some? then p.pending else p.lastApplied)
            && q.lastSeen == (if p.pending.Some? then p.pending else if due && changed && p.os.Some? then p.os else p.lastSeen)
  {
  }

  /** Not even a fresh copy of it is, as long as nothing else has been applied. */
  lemma RecopyIsNotSent(p: Peer, due: bool, changed: bool)
    requires p.pending.None? && p.lastApplied.Some? && p.os == p.lastApplied
    ensures Synced(p, due, changed).1 == []
  {
  }

  // ------------------------------------------------------------------------------------
  // When the two clipboards agree
  // ------------------------------------------------------------------------------------

  /** Nothing in flight, and a poll would change nothing on either side. */
  predicate Settled(w: World) {
    && w.toA == w.toB == [] && w.a.pending == w.b.pending == None
    && w.a.os == w.a.lastSeen && w.b.os == w.b.lastSeen
  }

  function Other(side: Side): Side { if side == A then B else A }

  /** What is on its way to `side`. */
  function ComingTo(w: World, side: Side): seq<Content> { if side == A then w.toA else w.toB }

  /** The copying side would send `x`: it is not what it showed, nor what it last had from the other. */
  predicate IsNews(p: Peer, x: Content) { p.lastSeen != Some(x) && p.lastApplied != Some(x) }

  /** After `side`'s user copied `x` onto a settled session, as long as nobody copies again. */
  predicate Spreading(w: World, side: Side, x: Content, before: Option<Content>, news: bool) {
    var mine, theirs, way := PeerOf(w, side), PeerOf(w, Other(side)), ComingTo(w, Other(side));
    && mine.os == Some(x) && ComingTo(w, side) == [] && mine.pending.None? && theirs.lastSeen == theirs.os
    && if !news then way == [] && theirs.pending.None? && theirs.os == before && !IsNews(mine, x)
       else if mine.lastSeen != Some(x) then way == [] && theirs.pending.None? && theirs.os == before && mine.lastApplied != Some(x)
       else || (way == [x] && theirs.pending.None?)
            || (way == [] && theirs.pending == Some(x))
            || (way == [] && theirs.pending.None? && theirs.os == Some(x))
  }

  lemma SpreadingStep(w: World, e: Event, side: Side, x: Content, before: Option<Content>, news: bool)
    requires Spreading(w, side, x, before, news) && !e.Copy?
    ensures Spreading(Next(w, e), side, x, before, news)
  {
  }

  lemma {:induction false} KeepsSpreading(ws: seq<World>, es: seq<Event>, k: nat, n: nat, side: Side, x: Content)
    requires IsSession(ws, es) && k < n < |ws| && Settled(ws[k]) && es[k] == Copy(side, x)
    requires forall i | k < i < n :: !es[i].Copy?
    ensures Spreading(ws[n], side, x, PeerOf(ws[k], Other(side)).os, IsNews(PeerOf(ws[k], side), x))
  {
    hide Spreading;
    assert ws[n] == Next(ws[n - 1], es[n - 1]);
    if n > k + 1 {
      KeepsSpreading(ws, es, k, n - 1, side, x);
      SpreadingStep(ws[n - 1], es[n - 1], side, x, PeerOf(ws[k], Other(side)).os, IsNews(PeerOf(ws[k], side), x));
    } else {
      StartsSpreading(ws[k], side, x);
    }
  }

  lemma StartsSpreading(w: World, side: Side, x: Content)
    requires Settled(w)
    ensures Spreading(Next(w, Copy(side, x)), side, x, PeerOf(w, Other(side)).os, IsNews(PeerOf(w, side), x))
  {
  }

  /** A single copy onto a settled session, on either side, reaches the other side exactly when it is
      neither what the copying side showed already nor what it last had from the other side --
      unless the other side has it anyway. */
  lemma CopySpreadsIff(ws: seq<World>, es: seq<Event>, k: nat, n: nat, side: Side, x: Content)
    requires IsSession(ws, es) && k < n < |ws| && Settled(ws[k]) && es[k] == Copy(side, x)
    requires forall i | k < i < n :: !es[i].Copy?
    requires Settled(ws[n])
    ensures ws[n].a.os == ws[n].b.os == Some(x) <==>
              IsNews(PeerOf(ws[k], side), x) || PeerOf(ws[k], Other(side)).os == Some(x)
  {
    KeepsSpreading(ws, es, k, n, side, x);
    hide IsSession, Next;
  }

  /** Two copies at the same time change places, and there they stay. */
  lemma SimultaneousCopiesSwap(w: World, x: Content, y: Content)
    requires Settled(w) && x != y && Some(x) !in {w.a.lastSeen, w.a.lastApplied} && Some(y) !in {w.b.lastSeen, w.b.lastApplied}
    ensures var copied := Next(Next(w, Copy(A, x)), Copy(B, y));
            var sent := Next(Next(copied, Poll(A, true, true)), Poll(B, true, true));
            var received := Next(Next(sent, Receive(A)), Receive(B));
            var applied := Next(Next(received, Poll(A, true, true)), Poll(B, true, true));
            Settled(applied) && applied.a.os == Some(y) && applied.b.os == Some(x)
  {
    var copied := Next(Next(w, Copy(A, x)), Copy(B, y));
    var sent := Next(Next(copied, Poll(A, true, true)), Poll(B, true, true));
    assert sent.toB == [x] && sent.toA == [y];
    var received := Next(Next(sent, Receive(A)), Receive(B));
    assert received.toA == [] && received.toB == [];
  }

  function Play(w: World, es: seq<Event>): (ws: seq<World>)
    ensures |ws| == |es| + 1 && ws[0] == w
    ensures forall i | 0 <= i < |es| :: ws[i + 1] == Next(ws[i], es[i])
  {
    if es == [] then [w] else
      var ws := Play(w, es[..|es| - 1]);
      ws + [Next(ws[|es| - 1], es[|es| - 1])]
  }

  /** A copy that reaches the other side. */
  function Spread(side: Side, x: Content): seq<Event> {
    [Copy(side, x), Poll(side, true, true), Receive(Other(side)), Poll(Other(side), true, true)]
  }

  /** A's copy of `x` reaches B, B's copy of `y` reaches A, and then B copies `x` once more. */
  function CopiesAgain(x: Content, y: Content): seq<Event> {
    Spread(A, x) + Spread(B, y) + [Copy(B, x), Poll(B, true, true), Poll(A, true, true)]
  }

  /** It had that from A, so it does not send it, and the two clipboards differ from then on. */
  lemma RecopyLeavesThemDifferent(w: World, x: Content, y: Content)
    requires Begins(w) && w.a.os == w.b.os == None && x != y
    ensures var ws := Play(w, CopiesAgain(x, y));
            IsSession(ws, CopiesAgain(x, y)) && Settled(ws[11]) && ws[11].a.os == Some(y) && ws[11].b.os == Some(x)
  {
    var es := CopiesAgain(x, y);
    var ws := Play(w, es);
    hide Play;
    FirstSpreads(ws[0], ws[1], ws[2], ws[3], ws[4], x);
    SecondSpreads(ws[4], ws[5], ws[6], ws[7], ws[8], x, y);
    assert ws[9] == Next(ws[8], es[8]) && ws[10] == Next(ws[9], es[9]) && ws[11] == Next(ws[10], es[10]);
  }

  lemma FirstSpreads(v: World, a: World, b: World, c: World, d: World, x: Content)
    requires Begins(v) && v.a.os == v.b.os == None
    requires a == Next(v, Copy(A, x)) && b == Next(a, Poll(A, true, true))
    requires c == Next(b, Receive(B)) && d == Next(c, Poll(B, true, true))
    ensures d.a == Peer(Some(x), Some(x), None, None) && d.b == Peer(Some(x), Some(x), Some(x), None) && d.toA == d.toB == []
  {
    assert b.toB == [x];
  }

  lemma SecondSpreads(v: World, a: World, b: World, c: World, d: World, x: Content, y: Content)
    requires x != y
    requires v.a == Peer(Some(x), Some(x), None, None) && v.b == Peer(Some(x), Some(x), Some(x), None) && v.toA == v.toB == []
    requires a == Next(v, Copy(B, y)) && b == Next(a, Poll(B, true, true))
    requires c == Next(b, Receive(A)) && d == Next(c, Poll(A, true, true))
    ensures d.a == Peer(Some(y), Some(y), Some(y), None) && d.b == Peer(Some(y), Some(y), Some(x), None) && d.toA == d.toB == []
  {
    assert b.toA == [y];
  }
}

/** Mapping one desktop onto another (src/topology/crossing.cpp). Coordinates are unbounded:
    the source's 32-bit arithmetic is modelled for desktops that do not overflow it. */
module Crossing {
  import opened Common

  datatype Monitor = Monitor(x: int, y: int, width: int, height: int)
  datatype Bounds = Bounds(minX: int, maxX: int, minY: int, maxY: int)
  datatype Point = Point(x: int, y: int)
  datatype Direction = Left | Right | Up | Down {
    predicate Horizontal() { Left? || Right? }
  }
  datatype Entry = Entry(device: nat, direction: Direction, offset: int)
  datatype BoundaryCheck = BoundaryCheck(crossed: bool, direction: Direction, clamped: Point, perpPos: int)

  const INT_MAX: int := 0x7fff_ffff
  const INT_MIN: int := -0x8000_0000

  function Clamp(v: int, lo: int, hi: int): int { Min(Max(v, lo), hi) }

  // ------------------------------------------------------------------------------------
  // Bounds
  // ------------------------------------------------------------------------------------

  function Grow(b: Bounds, m: Monitor): Bounds {
    Bounds(Min(b.minX, m.x), Max(b.maxX, m.x + m.width), Min(b.minY, m.y), Max(b.maxY, m.y + m.height))
  }

  function BoundsOf(ms: seq<Monitor>): Bounds {
    if ms == [] then Bounds(INT_MAX, INT_MIN, INT_MAX, INT_MIN) else Grow(BoundsOf(ms[..|ms| - 1]), ms[|ms| - 1])
  }

  method ComputeBounds(ms: seq<Monitor>) returns (b: Bounds)
    ensures b == BoundsOf(ms)
  {
    b := Bounds(INT_MAX, INT_MIN, INT_MAX, INT_MIN);
    for i := 0 to |ms|
      invariant b == BoundsOf(ms[..i])
    {
      assert ms[..i + 1][..i] == ms[..i];
      b := Bounds(Min(b.minX, ms[i].x), Max(b.maxX, ms[i].x + ms[i].width),
                  Min(b.minY, ms[i].y), Max(b.maxY, ms[i].y + ms[i].height));
    }
    assert ms[..|ms|] == ms;
  }

  predicate Representable(m: Monitor) {
    m.x <= INT_MAX && m.x + m.width >= INT_MIN && m.y <= INT_MAX && m.y + m.height >= INT_MIN
  }

  predicate Covers(b: Bounds, m: Monitor) {
    b.minX <= m.x && m.x + m.width <= b.maxX && b.minY <= m.y && m.y + m.height <= b.maxY
  }

  /** The bounds cover every monitor, and any box that covers them all covers the bounds. */
  lemma {:induction false} BoundsAreLeast(ms: seq<Monitor>, b: Bounds)
    requires ms != [] && forall m | m in ms :: Representable(m)
    ensures forall m | m in ms :: Covers(BoundsOf(ms), m)
    ensures (forall m | m in ms :: Covers(b, m)) ==>
              b.minX <= BoundsOf(ms).minX && BoundsOf(ms).maxX <= b.maxX && b.minY <= BoundsOf(ms).minY && BoundsOf(ms).maxY <= b.maxY
  {
    var front, last := ms[..|ms| - 1], ms[|ms| - 1];
    assert forall m | m in ms :: m in front || m == last;
    assert last in ms && forall m | m in front :: m in ms;
    if front != [] { BoundsAreLeast(front, b); }
  }

  predicate Proper(b: Bounds) { b.minX < b.maxX && b.minY < b.maxY }

  predicate Inside(b: Bounds, p: Point) { b.minX <= p.x <= b.maxX && b.minY <= p.y <= b.maxY }

  lemma {:induction false} RealMonitorsAreProper(ms: seq<Monitor>)
    requires ms != [] && forall m | m in ms :: Representable(m) && m.width > 0 && m.height > 0
    ensures Proper(BoundsOf(ms))
  {
    BoundsAreLeast(ms, BoundsOf(ms));
    assert Covers(BoundsOf(ms), ms[0]);
  }

  // ------------------------------------------------------------------------------------
  // The three value functions of the source
  // ------------------------------------------------------------------------------------

  /** Where a crossing lands, in the target's own coordinates; `None` for a machine without
      displays. */
  function ComputeCrossing(target: seq<Monitor>, direction: Direction, offset: int, perpPos: int): Option<Point> {
    if target == [] then None else
      var b := BoundsOf(target);
      if direction.Horizontal() then
        var shared := Clamp(perpPos, offset, offset + (b.maxY - b.minY));
        Some(Point(if direction.Right? then b.minX else b.maxX, shared - offset + b.minY))
      else
        var shared := Clamp(perpPos, offset, offset + (b.maxX - b.minX));
        Some(Point(shared - offset + b.minX, if direction.Down? then b.minY else b.maxY))
  }

  function CheckBoundary(b: Bounds, p: Point): BoundaryCheck {
    var c := Point(Clamp(p.x, b.minX, b.maxX), Clamp(p.y, b.minY, b.maxY));
    if p.x <= b.minX then BoundaryCheck(true, Left, c, c.y)
    else if p.x >= b.maxX then BoundaryCheck(true, Right, c, c.y)
    else if p.y <= b.minY then BoundaryCheck(true, Up, c, c.x)
    else if p.y >= b.maxY then BoundaryCheck(true, Down, c, c.x)
    else BoundaryCheck(false, Left, c, 0)
  }

  function Opposite(d: Direction): Direction {
    match d case Left => Right case Right => Left case Up => Down case Down => Up
  }

  function InvertEntry(entry: Entry, master: Bounds, peer: Bounds): Entry {
    Entry(entry.device, Opposite(entry.direction),
          if entry.direction.Horizontal() then peer.minY + master.minY - entry.offset
          else peer.minX + master.minX - entry.offset)
  }

  lemma InvertIsInvolution(entry: Entry, master: Bounds, peer: Bounds)
    ensures InvertEntry(InvertEntry(entry, master, peer), peer, master) == entry
  {
  }

  // ------------------------------------------------------------------------------------
  // One combined desktop
  // ------------------------------------------------------------------------------------

  /** The peer's desktop placed against the edge of Master's that the entry names: what to add to
      a point in the peer's coordinates to get it in Master's. */
  function Placement(entry: Entry, master: Bounds, peer: Bounds): Point {
    match entry.direction
    case Right => Point(master.maxX - peer.minX, entry.offset - peer.minY)
    case Left => Point(master.minX - peer.maxX, entry.offset - peer.minY)
    case Down => Point(entry.offset - peer.minX, master.maxY - peer.minY)
    case Up => Point(entry.offset - peer.minX, master.minY - peer.maxY)
  }

  function Place(entry: Entry, master: Bounds, peer: Bounds, q: Point): Point {
    var t := Placement(entry, master, peer);
    Point(q.x + t.x, q.y + t.y)
  }

  /** Seen from the other side, the placement is the same one. */
  lemma InverseIsSamePlacement(entry: Entry, master: Bounds, peer: Bounds, p: Point)
    ensures Place(entry, master, peer, Place(InvertEntry(entry, master, peer), peer, master, p)) == p
  {
  }

  /** The point a crossing hands over: where it lands, plus the overshoot along the crossing axis
      (src/app/input_pump.cpp:117-132 outbound, 220-231 on the way back). */
  function Handoff(near: Bounds, entry: Entry, target: seq<Monitor>, p: Point): Option<Point> {
    var bc := CheckBoundary(near, p);
    match ComputeCrossing(target, entry.direction, entry.offset, bc.perpPos)
    case None => None
    case Some(q) => Some(if entry.direction.Horizontal() then Point(q.x + (p.x - bc.clamped.x), q.y)
                         else Point(q.x, q.y + (p.y - bc.clamped.y)))
  }

  predicate Crosses(near: Bounds, entry: Entry, p: Point) {
    CheckBoundary(near, p).crossed && CheckBoundary(near, p).direction == entry.direction
  }

  function Across(d: Direction, p: Point): int { if d.Horizontal() then p.x else p.y }

  function Along(d: Direction, p: Point): int { if d.Horizontal() then p.y else p.x }

  function AlongClamp(d: Direction, b: Bounds, v: int): int {
    if d.Horizontal() then Clamp(v, b.minY, b.maxY) else Clamp(v, b.minX, b.maxX)
  }

  /** Where the peer's edge lies along Master's, in Master's coordinates. */
  function StretchClamp(entry: Entry, peer: Bounds, v: int): int {
    Clamp(v, entry.offset, entry.offset + (if entry.direction.Horizontal() then peer.maxY - peer.minY else peer.maxX - peer.minX))
  }

  /** Seam continuity, for either direction of crossing. On the combined desktop a handoff leaves
      the point where it is along the crossing axis, overshoot included, and moves it along the
      edge no further than onto the stretch of edge the two desktops share. */
  lemma HandoffKeepsThePoint(near: Bounds, entry: Entry, target: seq<Monitor>, p: Point)
    requires Proper(near) && target != [] && Crosses(near, entry, p)
    ensures Handoff(near, entry, target, p).Some?
    ensures var d, far := entry.direction, BoundsOf(target);
            var seen := Place(entry, near, far, Handoff(near, entry, target, p).value);
            && Across(d, seen) == Across(d, p)
            && Along(d, seen) == StretchClamp(entry, far, AlongClamp(d, near, Along(d, p)))
  {
    hide BoundsOf;
  }

  /** Where a point ends up along the edge after going out and coming back. */
  function Projected(entry: Entry, master: Bounds, peer: Bounds, v: int): int {
    var d := entry.direction;
    AlongClamp(d, master, StretchClamp(entry, peer, AlongClamp(d, master, v)))
  }

  /** Out at `p`, across the peer's desktop to `q` without moving along the edge, and back: the
      combined desktop's crossing axis is kept, and along the edge the trip is `Projected`. */
  lemma OutAndBack(master: seq<Monitor>, entry: Entry, peer: seq<Monitor>, p: Point, q: Point)
    requires master != [] && peer != [] && Proper(BoundsOf(master)) && Proper(BoundsOf(peer))
    requires Crosses(BoundsOf(master), entry, p)
    requires var inv := InvertEntry(entry, BoundsOf(master), BoundsOf(peer));
             && Crosses(BoundsOf(peer), inv, q)
             && Handoff(BoundsOf(master), entry, peer, p).Some?
             && Along(entry.direction, q) == Along(entry.direction, Handoff(BoundsOf(master), entry, peer, p).value)
    ensures var m, r, d := BoundsOf(master), BoundsOf(peer), entry.direction;
            var home := Handoff(r, InvertEntry(entry, m, r), master, q);
            && home.Some?
            && Across(d, home.value) == Across(d, Place(entry, m, r, q))
            && Along(d, home.value) == Projected(entry, m, r, Along(d, p))
  {
    var m, r := BoundsOf(master), BoundsOf(peer);
    hide BoundsOf;
    var inv := InvertEntry(entry, m, r);
    HandoffKeepsThePoint(m, entry, peer, p);
    HandoffKeepsThePoint(r, inv, master, q);
    hide Handoff, Crosses;
  }

  /** So going out and back twice is the same as once, and on the stretch of edge the two desktops
      share it is no move at all. */
  lemma ProjectedIsProjection(entry: Entry, master: Bounds, peer: Bounds, v: int)
    requires Proper(master) && Proper(peer)
    ensures var once := Projected(entry, master, peer, v);
            && Projected(entry, master, peer, once) == once
            && (AlongClamp(entry.direction, master, v) == v == StretchClamp(entry, peer, v) ==> once == v)
  {
  }
}

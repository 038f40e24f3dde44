/** The playback callback (src/audio/playback.cpp): packets of one size in, device periods of
    another size out. Whatever a period does not use of a packet is carried to the next.

    The network thread may push between any two pops of one callback. `arrivals[k]` is what it
    pushes just before the callback's k-th pop takes the buffer's lock; batches after the last
    pop do not happen. */
module Playback {
  import opened Common
  import opened JitterBuffer
  import opened PlayoutSchedule

  type Batch = seq<(nat, Frame)>

  datatype Player = Player(jitter: Jitter, carry: seq<byte>, carryPos: nat)

  ghost predicate ValidPlayer(p: Player) {
    Valid(p.jitter) && p.carryPos <= |p.carry|
  }

  /** The part of the last packet not yet played. */
  function Rest(p: Player): seq<byte>
    requires p.carryPos <= |p.carry|
  {
    p.carry[p.carryPos..]
  }

  function Pushes(batch: Batch): (ops: seq<Op>)
    ensures |ops| == |batch|
  {
    if batch == [] then [] else [Push(batch[0].0, batch[0].1)] + Pushes(batch[1..])
  }

  function Final(s: Jitter, ops: seq<Op>): (t: Jitter)
    requires Valid(s)
    ensures Valid(t)
    decreases |ops|
  {
    if ops == [] then s else
      StepKeepsValid(s, ops[0]);
      Final(Step(s, ops[0]).0, ops[1..])
  }

  /** The frames a run plays, in order. */
  function Played(s: Jitter, ops: seq<Op>): seq<Frame>
    requires Valid(s)
    decreases |ops|
  {
    if ops == [] then [] else
      StepKeepsValid(s, ops[0]);
      var (t, out) := Step(s, ops[0]);
      (if out.Some? then [out.value] else []) + Played(t, ops[1..])
  }

  lemma PopShrinks(s: Jitter)
    requires Valid(s)
    ensures AfterPop(s).1.Some? ==> |AfterPop(s).0.waiting| < |s.waiting|
  {
    if s.started || |s.waiting| >= s.targetDepth {
      var u := Started(s);
      if u.nextSeq in u.waiting {
        assert (u.waiting - {u.nextSeq}).Keys == u.waiting.Keys - {u.nextSeq};
      }
    }
  }

  function First(arrivals: seq<Batch>): Batch { if arrivals == [] then [] else arrivals[0] }

  function Later(arrivals: seq<Batch>): seq<Batch> { if arrivals == [] then [] else arrivals[1..] }

  /** The calls made on the buffer for one refill of the carry. */
  function RefillOps(arrivals: seq<Batch>): seq<Op> { Pushes(First(arrivals)) + [Pop] }

  function Refill(s: Jitter, arrivals: seq<Batch>): (r: (Jitter, Option<Frame>))
    requires Valid(s)
    ensures Valid(r.0)
    ensures r.1.Some? && arrivals == [] ==> |r.0.waiting| < |s.waiting|
  {
    var t := Final(s, Pushes(First(arrivals)));
    PopKeepsValid(t);
    PopShrinks(t);
    AfterPop(t)
  }

  /** What one callback asking for `n` bytes does: the bytes it plays from packets, the calls it
      makes (with the pushes that came in between), and the player it leaves. */
  datatype Filled = Filled(player: Player, sound: seq<byte>, ops: seq<Op>)

  function Fill(p: Player, n: nat, arrivals: seq<Batch>): (r: Filled)
    requires ValidPlayer(p)
    ensures ValidPlayer(r.player) && |r.sound| <= n
    decreases |arrivals|, n + |p.jitter.waiting|
  {
    if n == 0 then Filled(p, [], [])
    else if p.carryPos < |p.carry| then
      var k := Min(n, |p.carry| - p.carryPos);
      var r := Fill(p.(carryPos := p.carryPos + k), n - k, arrivals);
      r.(sound := p.carry[p.carryPos..p.carryPos + k] + r.sound)
    else
      var (t, frame) := Refill(p.jitter, arrivals);
      if frame.None? then Filled(p.(jitter := t), [], RefillOps(arrivals))
      else
        var r := Fill(Player(t, frame.value, 0), n, Later(arrivals));
        r.(ops := RefillOps(arrivals) + r.ops)
  }

  // ------------------------------------------------------------------------------------
  // Nothing is lost
  // ------------------------------------------------------------------------------------

  lemma {:induction false} FinalAppend(s: Jitter, a: seq<Op>, b: seq<Op>)
    requires Valid(s)
    ensures Final(s, a + b) == Final(Final(s, a), b)
    decreases |a|
  {
    hide Step, Valid;
    if a == [] {
      assert a + b == b;
    } else {
      StepKeepsValid(s, a[0]);
      FinalAppend(Step(s, a[0]).0, a[1..], b);
      assert (a + b)[1..] == a[1..] + b;
    }
  }

  lemma {:induction false} PlayedAppend(s: Jitter, a: seq<Op>, b: seq<Op>)
    requires Valid(s)
    ensures Played(s, a + b) == Played(s, a) + Played(Final(s, a), b)
    decreases |a|
  {
    hide Step, Valid;
    if a == [] {
      assert a + b == b;
    } else {
      StepKeepsValid(s, a[0]);
      var (t, out) := Step(s, a[0]);
      PlayedAppend(t, a[1..], b);
      assert (a + b)[1..] == a[1..] + b;
      var first := if out.Some? then [out.value] else [];
      assert Played(s, a + b) == first + Played(t, a[1..] + b);
      assert first + (Played(t, a[1..]) + Played(Final(t, a[1..]), b))
          == (first + Played(t, a[1..])) + Played(Final(t, a[1..]), b);
    }
  }

  lemma {:induction false} PushesPlayNothing(s: Jitter, batch: Batch)
    requires Valid(s)
    ensures Played(s, Pushes(batch)) == []
    decreases |batch|
  {
    if batch != [] {
      var op := Pushes(batch)[0];
      hide Valid, AfterPush;
      StepKeepsValid(s, op);
      PushesPlayNothing(Step(s, op).0, batch[1..]);
    }
  }

  lemma RefillPlays(s: Jitter, arrivals: seq<Batch>)
    requires Valid(s)
    ensures Final(s, RefillOps(arrivals)) == Refill(s, arrivals).0
    ensures Played(s, RefillOps(arrivals)) == if Refill(s, arrivals).1.Some? then [Refill(s, arrivals).1.value] else []
  {
    hide Valid, AfterPop;
    var pushes := Pushes(First(arrivals));
    var t := Final(s, pushes);
    FinalAppend(s, pushes, [Pop]);
    PlayedAppend(s, pushes, [Pop]);
    PushesPlayNothing(s, First(arrivals));
    StepKeepsValid(t, Pop);
    assert Final(Step(t, Pop).0, []) == Step(t, Pop).0;
  }

  /** The bytes played, followed by what is still carried, are what was carried before followed
      by the packets popped. */
  ghost predicate Conserves(p: Player, r: Filled)
    requires ValidPlayer(p) && ValidPlayer(r.player)
  {
    && r.sound + Rest(r.player) == Rest(p) + Concat(Played(p.jitter, r.ops))
    && r.player.jitter == Final(p.jitter, r.ops)
  }

  lemma ChunkConserves(p: Player, k: nat, r: Filled)
    requires ValidPlayer(p) && k <= |p.carry| - p.carryPos && ValidPlayer(r.player)
    requires Conserves(p.(carryPos := p.carryPos + k), r)
    ensures Conserves(p, r.(sound := p.carry[p.carryPos..p.carryPos + k] + r.sound))
  {
    hide Valid, Final, Played;
    var chunk, after := p.carry[p.carryPos..p.carryPos + k], p.carry[p.carryPos + k..];
    assert Rest(p) == chunk + after;
    calc {
      (chunk + r.sound) + Rest(r.player);
      chunk + (r.sound + Rest(r.player));
      chunk + (after + Concat(Played(p.jitter, r.ops)));
      Rest(p) + Concat(Played(p.jitter, r.ops));
    }
  }

  lemma RefillConserves(p: Player, arrivals: seq<Batch>, r: Filled)
    requires ValidPlayer(p) && Rest(p) == [] && ValidPlayer(r.player)
    requires Refill(p.jitter, arrivals).1.Some?
    requires Conserves(Player(Refill(p.jitter, arrivals).0, Refill(p.jitter, arrivals).1.value, 0), r)
    ensures Conserves(p, r.(ops := RefillOps(arrivals) + r.ops))
  {
    hide Valid, Refill;
    var (t, frame) := Refill(p.jitter, arrivals);
    RefillPlays(p.jitter, arrivals);
    FinalAppend(p.jitter, RefillOps(arrivals), r.ops);
    PlayedAppend(p.jitter, RefillOps(arrivals), r.ops);
    ConcatAppend([frame.value], Played(t, r.ops));
    assert Concat([frame.value]) == frame.value;
  }

  /** One callback re-chunks without loss, whatever its size and whatever arrives meanwhile. */
  lemma {:induction false} FillConserves(p: Player, n: nat, arrivals: seq<Batch>)
    requires ValidPlayer(p)
    ensures Conserves(p, Fill(p, n, arrivals))
    decreases |arrivals|, n + |p.jitter.waiting|
  {
    hide Valid, Refill;
    if n == 0 {
    } else if p.carryPos < |p.carry| {
      var k := Min(n, |p.carry| - p.carryPos);
      hide Conserves;
      FillConserves(p.(carryPos := p.carryPos + k), n - k, arrivals);
      ChunkConserves(p, k, Fill(p.(carryPos := p.carryPos + k), n - k, arrivals));
    } else {
      var (t, frame) := Refill(p.jitter, arrivals);
      if frame.None? {
        RefillPlays(p.jitter, arrivals);
      } else {
        hide Conserves;
        FillConserves(Player(t, frame.value, 0), n, Later(arrivals));
        RefillConserves(p, arrivals, Fill(Player(t, frame.value, 0), n, Later(arrivals)));
      }
    }
  }

  /** How many pops of a run play nothing. */
  function SilentPops(s: Jitter, ops: seq<Op>): nat
    requires Valid(s)
    decreases |ops|
  {
    if ops == [] then 0 else
      StepKeepsValid(s, ops[0]);
      var (t, out) := Step(s, ops[0]);
      (if ops[0].Pop? && out.None? then 1 else 0) + SilentPops(t, ops[1..])
  }

  lemma {:induction false} SilentPopsAppend(s: Jitter, a: seq<Op>, b: seq<Op>)
    requires Valid(s)
    ensures SilentPops(s, a + b) == SilentPops(s, a) + SilentPops(Final(s, a), b)
    decreases |a|
  {
    hide Step, Valid;
    if a == [] {
      assert a + b == b;
    } else {
      StepKeepsValid(s, a[0]);
      SilentPopsAppend(Step(s, a[0]).0, a[1..], b);
      assert (a + b)[1..] == a[1..] + b;
    }
  }

  lemma {:induction false} PushesAreNotSilent(s: Jitter, batch: Batch)
    requires Valid(s)
    ensures SilentPops(s, Pushes(batch)) == 0
    decreases |batch|
  {
    if batch != [] {
      var op := Pushes(batch)[0];
      hide Valid, AfterPush;
      StepKeepsValid(s, op);
      PushesAreNotSilent(Step(s, op).0, batch[1..]);
    }
  }

  lemma RefillSilent(s: Jitter, arrivals: seq<Batch>)
    requires Valid(s)
    ensures SilentPops(s, RefillOps(arrivals)) == if Refill(s, arrivals).1.None? then 1 else 0
  {
    hide Valid, AfterPop;
    var pushes := Pushes(First(arrivals));
    var t := Final(s, pushes);
    SilentPopsAppend(s, pushes, [Pop]);
    PushesAreNotSilent(s, First(arrivals));
    StepKeepsValid(t, Pop);
    assert SilentPops(Step(t, Pop).0, []) == 0;
  }

  /** The callback falls short exactly when one of its pops plays nothing, which is then its last
      call, and the carry has been played out. */
  ghost predicate Starves(p: Player, n: nat, r: Filled)
    requires ValidPlayer(p) && ValidPlayer(r.player)
  {
    && SilentPops(p.jitter, r.ops) == (if |r.sound| < n then 1 else 0)
    && (|r.sound| < n ==> r.ops != [] && r.ops[|r.ops| - 1] == Pop && Rest(r.player) == [])
  }

  lemma ChunkStarves(p: Player, n: nat, k: nat, r: Filled)
    requires ValidPlayer(p) && k <= |p.carry| - p.carryPos && k <= n && ValidPlayer(r.player)
    requires Starves(p.(carryPos := p.carryPos + k), n - k, r)
    ensures Starves(p, n, r.(sound := p.carry[p.carryPos..p.carryPos + k] + r.sound))
  {
    hide Valid, SilentPops;
  }

  lemma RefillStarves(p: Player, n: nat, arrivals: seq<Batch>, r: Filled)
    requires ValidPlayer(p) && Refill(p.jitter, arrivals).1.Some? && ValidPlayer(r.player)
    requires Starves(Player(Refill(p.jitter, arrivals).0, Refill(p.jitter, arrivals).1.value, 0), n, r)
    ensures Starves(p, n, r.(ops := RefillOps(arrivals) + r.ops))
  {
    hide Valid, Refill, RefillOps, SilentPops;
    RefillSilent(p.jitter, arrivals);
    RefillPlays(p.jitter, arrivals);
    SilentPopsAppend(p.jitter, RefillOps(arrivals), r.ops);
  }

  /** For every callback, whatever its size and whatever arrives meanwhile. */
  lemma {:induction false} FillStarves(p: Player, n: nat, arrivals: seq<Batch>)
    requires ValidPlayer(p)
    ensures Starves(p, n, Fill(p, n, arrivals))
    decreases |arrivals|, n + |p.jitter.waiting|
  {
    hide Valid, Refill;
    if n == 0 {
    } else if p.carryPos < |p.carry| {
      var k := Min(n, |p.carry| - p.carryPos);
      hide Starves;
      FillStarves(p.(carryPos := p.carryPos + k), n - k, arrivals);
      ChunkStarves(p, n, k, Fill(p.(carryPos := p.carryPos + k), n - k, arrivals));
    } else {
      var (t, frame) := Refill(p.jitter, arrivals);
      if frame.None? {
        RefillSilent(p.jitter, arrivals);
      } else {
        hide Starves;
        FillStarves(Player(t, frame.value, 0), n, Later(arrivals));
        RefillStarves(p, n, arrivals, Fill(Player(t, frame.value, 0), n, Later(arrivals)));
      }
    }
  }

  lemma FillChunk(p: Player, n: nat, arrivals: seq<Batch>)
    requires ValidPlayer(p) && n > 0 && p.carryPos < |p.carry|
    ensures var k := Min(n, |p.carry| - p.carryPos);
            var r := Fill(p.(carryPos := p.carryPos + k), n - k, arrivals);
            && Fill(p, n, arrivals).player == r.player
            && Fill(p, n, arrivals).sound == p.carry[p.carryPos..p.carryPos + k] + r.sound
  {
  }

  lemma FillPacket(p: Player, n: nat, arrivals: seq<Batch>)
    requires ValidPlayer(p) && n > 0 && p.carryPos == |p.carry|
    ensures var (t, frame) := Refill(p.jitter, arrivals);
            var r := Fill(p, n, arrivals);
            if frame.None? then r.player == p.(jitter := t) && r.sound == []
            else
              var r' := Fill(Player(t, frame.value, 0), n, Later(arrivals));
              r.player == r'.player && r.sound == r'.sound
  {
  }

  lemma FillNothing(p: Player, arrivals: seq<Batch>)
    requires ValidPlayer(p)
    ensures Fill(p, 0, arrivals).player == p && Fill(p, 0, arrivals).sound == []
  {
  }

  // ------------------------------------------------------------------------------------
  // The callback itself
  // ------------------------------------------------------------------------------------

  function Silence(value: byte, n: nat): seq<byte> { seq(n, _ => value) }

  class PlaybackImpl {
    const buffer: JitterBuffer
    const silenceByte: byte
    var carry: seq<byte>
    var carryPos: nat
    var underruns: nat

    ghost predicate Ok()
      reads this, buffer
    {
      buffer.Ok() && carryPos <= |carry|
    }

    ghost function View(): Player
      reads this, buffer
    {
      Player(buffer.View(), carry, carryPos)
    }

    constructor (buffer: JitterBuffer, bitDepth: nat)
      requires buffer.Ok()
      ensures Ok() && this.buffer == buffer && View() == Player(buffer.View(), [], 0) && underruns == 0
      ensures silenceByte == if bitDepth == 8 then 0x80 else 0
    {
      this.buffer := buffer;
      this.silenceByte := if bitDepth == 8 then 0x80 else 0;
      carry, carryPos, underruns := [], 0, 0;
    }

    /** The network thread's pushes between two pops. */
    method NetworkPushes(batch: Batch)
      requires buffer.Ok()
      modifies buffer
      ensures buffer.Ok() && buffer.View() == Final(old(buffer.View()), Pushes(batch))
    {
      hide Valid, AfterPush;
      for i := 0 to |batch|
        invariant buffer.Ok()
        invariant Final(buffer.View(), Pushes(batch[i..])) == Final(old(buffer.View()), Pushes(batch))
      {
        assert batch[i..][1..] == batch[i + 1..];
        buffer.Push(batch[i].0, batch[i].1);
      }
    }

    method NextPacket(arrivals: seq<Batch>) returns (frame: Option<Frame>)
      requires buffer.Ok()
      modifies buffer
      ensures buffer.Ok() && (buffer.View(), frame) == Refill(old(buffer.View()), arrivals)
    {
      hide Valid, AfterPop, Final;
      NetworkPushes(First(arrivals));
      frame := buffer.Pop();
    }

    /** Copies as much of the carry as fits from position `done` on; what the callback plays in all,
        should `later` arrive, stays the same. */
    method CopyOut(output: array<byte>, done: nat, ghost later: seq<Batch>) returns (n: nat)
      requires Ok() && carryPos < |carry| && done < output.Length
      modifies this`carryPos, output
      ensures n == Min(output.Length - done, |carry| - old(carryPos)) && carryPos == old(carryPos) + n
      ensures 0 < n && done + n <= output.Length && carryPos <= |carry|
      ensures output[..done + n] == old(output[..done]) + carry[old(carryPos)..carryPos]
      ensures var was, now := old(Fill(View(), output.Length - done, later)), Fill(View(), output.Length - (done + n), later);
              was.player == now.player && old(output[..done]) + was.sound == output[..done + n] + now.sound
    {
      hide Valid, Fill;
      FillChunk(View(), output.Length - done, later);
      n := Min(output.Length - done, |carry| - carryPos);
      forall i | 0 <= i < n {
        output[done + i] := carry[carryPos + i];
      }
      carryPos := carryPos + n;
    }

    method FillSilence(output: array<byte>, done: nat)
      requires done <= output.Length
      modifies output
      ensures output[..] == old(output[..done]) + Silence(silenceByte, output.Length - done)
    {
      forall i | done <= i < output.Length {
        output[i] := silenceByte;
      }
    }

    method DataCallback(output: array<byte>, arrivals: seq<Batch>)
      requires Ok()
      modifies this, buffer, output
      ensures Ok()
      ensures var r := Fill(old(View()), output.Length, arrivals);
              && View() == r.player
              && output[..] == r.sound + Silence(silenceByte, output.Length - |r.sound|)
              && underruns == old(underruns) + (if |r.sound| < output.Length then 1 else 0)
              && forall i | |r.sound| <= i < output.Length :: output[i] == silenceByte
    {
      hide Valid, Refill, Min, Fill;
      ghost var whole := Fill(View(), output.Length, arrivals);
      var later := arrivals;
      var done := 0;
      while done < output.Length
        invariant Ok() && done <= output.Length && underruns == old(underruns)
        invariant var r := Fill(View(), output.Length - done, later);
                  whole.player == r.player && whole.sound == output[..done] + r.sound
        decreases |later|, output.Length - done + |buffer.waiting|
      {
        if carryPos >= |carry| {
          FillPacket(View(), output.Length - done, later);
          var frame := NextPacket(later);
          if frame == None {
            break;
          }
          carry, carryPos, later := frame.value, 0, Later(later);
          if carry == [] {
            continue;
          }
        }
        var n := CopyOut(output, done, later);
        done := done + n;
      }
      if done == output.Length {
        FillNothing(View(), later);
      }
      assert View() == whole.player && whole.sound == output[..done];
      if done < output.Length {
        FillSilence(output, done);
        underruns := underruns + 1;
      }
    }
  }
}

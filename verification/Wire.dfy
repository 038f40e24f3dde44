/** What travels on the connection before it is encrypted: fixed-size items, back to back, with
    nothing in the bytes to say which is which. A cell is one byte of an item; only a reader
    that takes exactly the cells of one item gets that item back. */
module Wire {
  import opened Common
  import opened NoisePrimitives
  import opened NoiseIk

  datatype Word =
    | DeviceId(id: nat)
    | PairingFlag(wants: bool)
    | RawKey(key: Term)
    | Decision(approved: bool)
    | Ik1(msg1: Msg1)
    | Ik2(msg2: Msg2)
    | SessionFrame(nonce: nat, frame: SessionMessage)
    | Garbled(cells: seq<Cell>)

  datatype SessionMessage = AudioPort | GoAway | Other(tag: nat)

  datatype Cell = Cell(word: Word, index: int)

  const DEVICE_ID_LEN: nat := 8
  const FLAG_LEN: nat := 1
  const KEY_LEN: nat := 32
  const DECISION_LEN: nat := 1
  const IK1_LEN: nat := 96
  const IK2_LEN: nat := 48

  function Length(w: Word): nat {
    match w
    case DeviceId(_) => DEVICE_ID_LEN
    case PairingFlag(_) => FLAG_LEN
    case RawKey(_) => KEY_LEN
    case Decision(_) => DECISION_LEN
    case Ik1(_) => IK1_LEN
    case Ik2(_) => IK2_LEN
    case SessionFrame(_, frame) => 21 + (if frame.Other? then frame.tag else 0)
    case Garbled(cells) => |cells|
  }

  function Encode(w: Word): (cells: seq<Cell>)
    ensures |cells| == Length(w)
  {
    seq(Length(w), i => Cell(w, i))
  }

  function Decode(cells: seq<Cell>): Word {
    if cells != [] && cells == Encode(cells[0].word) then cells[0].word else Garbled(cells)
  }

  function EncodeAll(ws: seq<Word>): seq<Cell> {
    if ws == [] then [] else Encode(ws[0]) + EncodeAll(ws[1..])
  }

  lemma {:induction false} EncodeAllAppend(a: seq<Word>, b: seq<Word>)
    ensures EncodeAll(a + b) == EncodeAll(a) + EncodeAll(b)
  {
    hide Encode;
    if a == [] {
      assert a + b == b;
    } else {
      EncodeAllAppend(a[1..], b);
      var ab := a + b;
      assert ab[0] == a[0] && ab[1..] == a[1..] + b;
      AppendAssociates(Encode(a[0]), EncodeAll(a[1..]), EncodeAll(b));
    }
  }

  lemma AppendAssociates(x: seq<Cell>, y: seq<Cell>, z: seq<Cell>)
    ensures (x + y) + z == x + (y + z)
  {
  }

  /** The bytes of a term of the handshake: keys have 32, a seal adds a tag of 16. */
  function SizeOf(t: Term): nat {
    match t
    case Nothing => 0
    case Octet(_) => 1
    case Join(left, right) => SizeOf(left) + SizeOf(right)
    case Sealed(_, _, _, plain) => SizeOf(plain) + 16
    case _ => 32
  }

  /** Each read is for just the bytes that its message has. */
  lemma ReadsAreLongEnough(i: nat, r: nat, e: nat, e2: nat)
    ensures KEY_LEN == SizeOf(Public(i)) && DEVICE_ID_LEN == 8 && FLAG_LEN == DECISION_LEN == 1
    ensures InitiatorStart(i, Public(r), e).Some?
    ensures var m1 := InitiatorStart(i, Public(r), e).value.1;
            && IK1_LEN == SizeOf(m1.e) + SizeOf(m1.s) + SizeOf(m1.payload)
            && Respond(r, e2, m1).Some?
            && var m2 := Respond(r, e2, m1).value.1; IK2_LEN == SizeOf(m2.e) + SizeOf(m2.payload)
  {
    var _, _ := HonestRunIs(i, r, e, e2);
    hide InitiatorStart, Respond;
  }

  // How each read interprets what it gets, whatever it gets.

  function AsDeviceId(w: Word): nat { if w.DeviceId? then w.id else 0 }
  function AsFlag(w: Word): bool { if w.PairingFlag? then w.wants else true }
  function AsKey(w: Word): Term { if w.RawKey? then w.key else LowOrder(0) }
  function AsDecision(w: Word): bool { w.Decision? && w.approved }
  function AsMsg1(w: Word): Msg1 { if w.Ik1? then w.msg1 else Msg1(LowOrder(0), Nothing, Nothing) }
  function AsMsg2(w: Word): Msg2 { if w.Ik2? then w.msg2 else Msg2(LowOrder(0), Nothing) }

  /** The six hex digits both screens show (src/discovery/pairing.cpp). */
  function Fingerprint(initiator: Term, responder: Term): Term { Hash(initiator, responder) }

  /** Whoever puts in another key, on either side, gets another fingerprint. */
  lemma FingerprintNamesBoth(a: Term, b: Term, c: Term, d: Term)
    ensures Fingerprint(a, b) == Fingerprint(c, d) <==> a == c && b == d
  {
  }

  function Lookup(store: map<nat, Term>, device: nat): Option<Term> {
    if device in store then Some(store[device]) else None
  }
}

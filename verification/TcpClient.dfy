/** Slave's side of one connection attempt (`run_once` in src/discovery/tcp_client.cpp) as a
    machine of atomic steps. The reconnect loop around it is in Reconnect.dfy. */
module TcpClient {
  import opened Common
  import opened NoisePrimitives
  import opened NoiseIk
  import opened Wire

  datatype Status = Idle | Connecting | Pairing(peer: nat, fingerprint: Term) | Connected(peer: nat, audioKey: Term) | Failed

  datatype AttemptOutcome = RetryBackoff | RetryFast | GiveUp

  datatype Pc =
    | Offline
    | ReadingId(got: seq<Cell>)
    | ReadingFlag(peer: nat, known: Option<Term>, got: seq<Cell>)
    | ReadingKey(peer: nat, got: seq<Cell>)
    | ReadingDecision(peer: nat, key: Term, got: seq<Cell>)
    | ReadingIk2(peer: nat, rs: Term, state: Symmetric, ephemeral: nat, got: seq<Cell>)
    | InSession(peer: nat, result: IkResult)
    | Ended(outcome: AttemptOutcome)

  datatype Client = Client(
    id: nat,
    ownStatic: nat,
    pc: Pc,
    knownPeers: map<nat, Term>,
    sendNonce: nat,
    status: Status)

  datatype Event =
    | Connect
    | Arrive(cells: seq<Cell>, ephemeral: nat)
    | ReadFails
    | SessionEnds
    | Send(frame: SessionMessage)
    | Forget(device: nat)

  datatype Out = Out(client: Client, sent: seq<Word>, read: seq<Word>)

  function Quiet(c: Client): Out { Out(c, [], []) }

  function End(c: Client, outcome: AttemptOutcome): Client { c.(pc := Ended(outcome), status := Failed) }

  function Got(pc: Pc): seq<Cell> {
    if pc.ReadingId? || pc.ReadingFlag? || pc.ReadingKey? || pc.ReadingDecision? || pc.ReadingIk2? then pc.got else []
  }

  function ReadLen(pc: Pc): nat {
    match pc
    case ReadingId(_) => DEVICE_ID_LEN
    case ReadingFlag(_, _, _) => FLAG_LEN
    case ReadingKey(_, _) => KEY_LEN
    case ReadingDecision(_, _, _) => DECISION_LEN
    case ReadingIk2(_, _, _, _, _) => IK2_LEN
    case _ => 0
  }

  function WithGot(pc: Pc, cells: seq<Cell>): Pc {
    match pc
    case ReadingId(_) => ReadingId(cells)
    case ReadingFlag(peer, known, _) => ReadingFlag(peer, known, cells)
    case ReadingKey(peer, _) => ReadingKey(peer, cells)
    case ReadingDecision(peer, key, _) => ReadingDecision(peer, key, cells)
    case ReadingIk2(peer, rs, state, ephemeral, _) => ReadingIk2(peer, rs, state, ephemeral, cells)
    case _ => pc
  }

  /** The start of the key exchange with a peer whose key is known. */
  function StartIk(c: Client, peer: nat, rs: Term, ephemeral: nat, read: seq<Word>): Out {
    match InitiatorStart(c.ownStatic, rs, ephemeral)
    case None => Out(End(c, RetryBackoff), [], read)
    case Some((state, msg1)) => Out(c.(pc := ReadingIk2(peer, rs, state, ephemeral, [])), [Ik1(msg1)], read)
  }

  function AfterRead(c: Client, w: Word, ephemeral: nat): Out {
    match c.pc
    case ReadingId(_) =>
      var peer := AsDeviceId(w);
      var known := Lookup(c.knownPeers, peer);
      Out(c.(pc := ReadingFlag(peer, known, [])), [PairingFlag(known.None?)], [w])
    case ReadingFlag(peer, known, _) =>
      if known.None? || AsFlag(w) then
        Out(c.(pc := ReadingKey(peer, [])), [RawKey(Public(c.ownStatic))], [w])
      else StartIk(c, peer, known.value, ephemeral, [w])
    case ReadingKey(peer, _) =>
      Out(c.(pc := ReadingDecision(peer, AsKey(w), []),
             status := Pairing(peer, Fingerprint(Public(c.ownStatic), AsKey(w)))), [], [w])
    case ReadingDecision(peer, key, _) =>
      // An explicit rejection ends all retrying.
      if !AsDecision(w) then Out(End(c, GiveUp), [], [w])
      else StartIk(c.(knownPeers := c.knownPeers[peer := key]), peer, key, ephemeral, [w])
    case ReadingIk2(peer, rs, state, e, _) =>
      (match InitiatorFinish(state, c.ownStatic, rs, e, AsMsg2(w))
       case None => Out(End(c, RetryBackoff), [], [w])
       case Some((_, result)) =>
         Out(c.(pc := InSession(peer, result), sendNonce := 0, status := Connected(peer, result.keys.sendKey)), [], [w]))
    case _ => Quiet(c)
  }

  function Arrived(c: Client, cells: seq<Cell>, ephemeral: nat): Out {
    var got := Got(c.pc) + cells;
    if cells == [] || |got| > ReadLen(c.pc) then Quiet(c)
    else if |got| < ReadLen(c.pc) then Quiet(c.(pc := WithGot(c.pc, got)))
    else AfterRead(c, Decode(got), ephemeral)
  }

  function Step(c: Client, e: Event): Out {
    match e
    case Connect =>
      if c.pc.Offline? then Out(c.(pc := ReadingId([]), status := Connecting), [DeviceId(c.id)], []) else Quiet(c)
    case Arrive(cells, ephemeral) => Arrived(c, cells, ephemeral)
    case ReadFails => if ReadLen(c.pc) > 0 then Quiet(End(c, RetryBackoff)) else Quiet(c)
    case SessionEnds => if c.pc.InSession? then Quiet(End(c, RetryFast)) else Quiet(c)
    case Send(frame) =>
      if c.pc.InSession? then Out(c.(sendNonce := c.sendNonce + 1), [SessionFrame(c.sendNonce, frame)], []) else Quiet(c)
    case Forget(device) => Quiet(c.(knownPeers := c.knownPeers - {device}))
  }

  // ------------------------------------------------------------------------------------
  // The client as an object
  // ------------------------------------------------------------------------------------

  class TcpClient {
    const id: nat
    const ownStatic: nat
    var pc: Pc
    var knownPeers: map<nat, Term>
    var sendNonce: nat
    var status: Status
    var sent: seq<Word>
    var read: seq<Word>

    ghost function View(): Client
      reads this
    {
      Client(id, ownStatic, pc, knownPeers, sendNonce, status)
    }

    twostate predicate Became(out: Out)
      reads this
    {
      View() == out.client && sent == old(sent) + out.sent && read == old(read) + out.read
    }

    constructor (id: nat, ownStatic: nat, knownPeers: map<nat, Term>)
      ensures View() == Client(id, ownStatic, Offline, knownPeers, 0, Idle) && sent == [] && read == []
    {
      this.id, this.ownStatic, this.knownPeers := id, ownStatic, knownPeers;
      pc, sendNonce, status, sent, read := Offline, 0, Idle, [], [];
    }

    method EndAttempt(outcome: AttemptOutcome)
      modifies this`pc, this`status
      ensures Became(Quiet(End(old(View()), outcome)))
    {
      pc := Ended(outcome);
      status := Failed;
    }

    method Start()
      modifies this
      ensures Became(Step(old(View()), Connect))
    {
      if pc.Offline? {
        pc := ReadingId([]);
        status := Connecting;
        sent := sent + [DeviceId(id)];
      }
    }

    method OnDeviceId(w: Word)
      requires pc.ReadingId?
      modifies this
      ensures Became(AfterRead(old(View()), w, 0))
    {
      var peer := AsDeviceId(w);
      var known := Lookup(knownPeers, peer);
      pc := ReadingFlag(peer, known, []);
      sent, read := sent + [PairingFlag(known.None?)], read + [w];
    }

    method BeginExchange(peer: nat, rs: Term, ephemeral: nat)
      modifies this
      ensures Became(StartIk(old(View()), peer, rs, ephemeral, []))
    {
      var start := InitiatorStart(ownStatic, rs, ephemeral);
      hide InitiatorStart;
      if start == None {
        EndAttempt(RetryBackoff);
        return;
      }
      pc := ReadingIk2(peer, rs, start.value.0, ephemeral, []);
      sent := sent + [Ik1(start.value.1)];
    }

    method OnPairingFlag(w: Word, ephemeral: nat)
      requires pc.ReadingFlag?
      modifies this
      ensures Became(AfterRead(old(View()), w, ephemeral))
    {
      hide InitiatorStart;
      var needPairing := pc.known.None? || AsFlag(w);
      read := read + [w];
      if needPairing {
        pc := ReadingKey(pc.peer, []);
        sent := sent + [RawKey(Public(ownStatic))];
      } else {
        BeginExchange(pc.peer, pc.known.value, ephemeral);
      }
    }

    method OnPublicKey(w: Word)
      requires pc.ReadingKey?
      modifies this
      ensures Became(AfterRead(old(View()), w, 0))
    {
      var key := AsKey(w);
      status := Pairing(pc.peer, Fingerprint(Public(ownStatic), key));
      pc := ReadingDecision(pc.peer, key, []);
      read := read + [w];
    }

    /** An explicit rejection is final. */
    method OnDecision(w: Word, ephemeral: nat)
      requires pc.ReadingDecision?
      modifies this
      ensures Became(AfterRead(old(View()), w, ephemeral))
    {
      hide InitiatorStart;
      read := read + [w];
      if !AsDecision(w) {
        EndAttempt(GiveUp);
        return;
      }
      knownPeers := knownPeers[pc.peer := pc.key];
      BeginExchange(pc.peer, pc.key, ephemeral);
    }

    method OnHandshakeReply(w: Word)
      requires pc.ReadingIk2?
      modifies this
      ensures Became(AfterRead(old(View()), w, 0))
    {
      var finish := InitiatorFinish(pc.state, ownStatic, pc.rs, pc.ephemeral, AsMsg2(w));
      hide InitiatorFinish;
      read := read + [w];
      if finish == None {
        EndAttempt(RetryBackoff);
        return;
      }
      var result := finish.value.1;
      sendNonce := 0;
      status := Connected(pc.peer, result.keys.sendKey);
      pc := InSession(pc.peer, result);
    }

    method ReceiveBytes(cells: seq<Cell>, ephemeral: nat)
      modifies this
      ensures Became(Arrived(old(View()), cells, ephemeral))
    {
      hide AfterRead, Decode;
      var got := Got(pc) + cells;
      if cells == [] || |got| > ReadLen(pc) {
        return;
      }
      if |got| < ReadLen(pc) {
        pc := WithGot(pc, got);
        return;
      }
      IgnoresEphemeral(View(), Decode(got), ephemeral);
      match pc {
        case ReadingId(_) => OnDeviceId(Decode(got));
        case ReadingFlag(_, _, _) => OnPairingFlag(Decode(got), ephemeral);
        case ReadingKey(_, _) => OnPublicKey(Decode(got));
        case ReadingDecision(_, _, _) => OnDecision(Decode(got), ephemeral);
        case ReadingIk2(_, _, _, _, _) => OnHandshakeReply(Decode(got));
      }
    }

    method ReadFailed()
      modifies this`pc, this`status
      ensures Became(Step(old(View()), ReadFails))
    {
      if ReadLen(pc) > 0 {
        EndAttempt(RetryBackoff);
      }
    }

    /** A session that ends is worth a quick retry. */
    method LoseSession()
      modifies this`pc, this`status
      ensures Became(Step(old(View()), SessionEnds))
    {
      if pc.InSession? {
        EndAttempt(RetryFast);
      }
    }

    method SendMessage(frame: SessionMessage) returns (ok: bool)
      modifies this`sent, this`sendNonce
      ensures Became(Step(old(View()), Send(frame))) && ok == pc.InSession?
    {
      if !pc.InSession? {
        return false;
      }
      sent := sent + [SessionFrame(sendNonce, frame)];
      sendNonce := sendNonce + 1;
      ok := true;
    }
  }

  /** Only the start of the key exchange uses the fresh key. */
  lemma IgnoresEphemeral(c: Client, w: Word, ephemeral: nat)
    ensures c.pc.ReadingId? || c.pc.ReadingKey? || c.pc.ReadingIk2? ==> AfterRead(c, w, ephemeral) == AfterRead(c, w, 0)
  {
    hide InitiatorStart, InitiatorFinish;
  }
}

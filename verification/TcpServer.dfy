/** Master's side of a connection (src/discovery/tcp_server.cpp) as a machine of atomic steps.

    The accept thread runs `run`; the UI thread may approve, reject, disconnect, forget a peer,
    send, or shut down between any two of its steps. A step is whatever the thread does between
    two points at which another thread could tell the difference. */
module TcpServer {
  import opened Common
  import opened NoisePrimitives
  import opened NoiseIk
  import opened Wire

  datatype PairingDecision = Pending | Approved | Rejected

  datatype Status = Idle | Pairing(peer: nat, fingerprint: Term) | Connected(peer: nat, audioKey: Term)

  /** Where the accept thread is. `got` is what its current read has so far. */
  datatype Pc =
    | Listening
    | ReadingId(got: seq<Cell>)
    | ReadingFlag(peer: nat, trusted: Option<Term>, got: seq<Cell>)
    | ReadingKey(peer: nat, got: seq<Cell>)
    | Prompting(peer: nat, key: Term)                 // fingerprint shown, old decision not yet cleared
    | Deciding(peer: nat, key: Term)                  // polling for the user's decision
    | ReadingIk1(peer: nat, key: Term, got: seq<Cell>)
    | Reprompting(peer: nat, result: IkResult)        // the same two, for a device kicked earlier
    | Redeciding(peer: nat, result: IkResult)
    | Announcing(peer: nat, result: IkResult)         // Connected published, channel not yet shared
    | Greeting(peer: nat, result: IkResult)           // channel shared, audio port not yet sent
    | Opening(peer: nat, result: IkResult)            // disconnect flag not yet cleared
    | InSession(peer: nat, result: IkResult)
    | Parting(peer: nat, result: IkResult)            // session over, channel not yet withdrawn
    | Leaving                                         // channel withdrawn, status not yet cleared

  datatype Server = Server(
    id: nat,
    ownStatic: nat,
    running: bool,
    pc: Pc,
    knownPeers: map<nat, Term>,
    pairingDecision: PairingDecision,
    disconnectRequested: bool,
    kickedThisSession: set<nat>,
    activeChannel: bool,
    sendNonce: nat,
    status: Status)

  datatype Event =
    | Accept                                          // a client connects
    | Arrive(cells: seq<Cell>, ephemeral: nat)        // bytes for the current read; a fresh key if needed
    | ReadFails                                       // the read's deadline passes, or the peer is gone
    | Continue                                        // the accept thread takes its next own step
    | ApprovalTimesOut
    | SessionEnds                                     // peer closed, or silent for too long
    | Send(frame: SessionMessage)                     // any thread sends on the active channel
    | Approve | Reject | Disconnect | Forget(device: nat) | Shutdown   // the UI thread

  /** The accept thread holds transport keys. */
  predicate HoldsKeys(pc: Pc) {
    pc.Reprompting? || pc.Redeciding? || pc.Announcing? || pc.Greeting? || pc.Opening? || pc.InSession? || pc.Parting?
  }

  /** It has read who is calling. */
  predicate KnowsPeer(pc: Pc) { !pc.Listening? && !pc.ReadingId? && !pc.Leaving? }

  /** A step's new state, the items it wrote, and the item whose read it completed, if any. */
  datatype Out = Out(server: Server, sent: seq<Word>, read: seq<Word>)

  function Quiet(s: Server): Out { Out(s, [], []) }

  function HangUp(s: Server): Server { s.(pc := Listening, status := Idle) }

  function Got(pc: Pc): seq<Cell> {
    if pc.ReadingId? || pc.ReadingFlag? || pc.ReadingKey? || pc.ReadingIk1? then pc.got else []
  }

  /** How many bytes the current read is for. */
  function ReadLen(pc: Pc): nat {
    match pc
    case ReadingId(_) => DEVICE_ID_LEN
    case ReadingFlag(_, _, _) => FLAG_LEN
    case ReadingKey(_, _) => KEY_LEN
    case ReadingIk1(_, _, _) => IK1_LEN
    case _ => 0
  }

  function WithGot(pc: Pc, cells: seq<Cell>): Pc {
    match pc
    case ReadingId(_) => ReadingId(cells)
    case ReadingFlag(peer, trusted, _) => ReadingFlag(peer, trusted, cells)
    case ReadingKey(peer, _) => ReadingKey(peer, cells)
    case ReadingIk1(peer, key, _) => ReadingIk1(peer, key, cells)
    case _ => pc
  }

  /** The accept thread, having read item `w`. */
  function AfterRead(s: Server, w: Word, ephemeral: nat): Out {
    match s.pc
    case ReadingId(_) =>
      var peer := AsDeviceId(w);
      var trusted := Lookup(s.knownPeers, peer);
      Out(s.(pc := ReadingFlag(peer, trusted, [])), [PairingFlag(trusted.None?)], [w])
    case ReadingFlag(peer, trusted, _) =>
      if trusted.None? || AsFlag(w) then
        Out(s.(pc := ReadingKey(peer, [])), [RawKey(Public(s.ownStatic))], [w])
      else
        Out(s.(pc := ReadingIk1(peer, trusted.value, [])), [], [w])
    case ReadingKey(peer, _) =>
      Out(s.(pc := Prompting(peer, AsKey(w)),
             status := Pairing(peer, Fingerprint(AsKey(w), Public(s.ownStatic)))), [], [w])
    case ReadingIk1(peer, key, _) =>
      (match Respond(s.ownStatic, ephemeral, AsMsg1(w))
       case None => Out(HangUp(s), [], [w])
       case Some((_, msg2, result)) =>
         if key != result.peerStatic then Out(HangUp(s), [Ik2(msg2)], [w])
         else if peer in s.kickedThisSession then
           Out(s.(pc := Reprompting(peer, result), sendNonce := 0,
                  status := Pairing(peer, Fingerprint(key, Public(s.ownStatic)))), [Ik2(msg2)], [w])
         else
           Out(s.(pc := Announcing(peer, result), sendNonce := 0,
                  status := Connected(peer, result.keys.recvKey)), [Ik2(msg2)], [w]))
    case _ => Quiet(s)
  }

  function Arrived(s: Server, cells: seq<Cell>, ephemeral: nat): Out {
    var got := Got(s.pc) + cells;
    if cells == [] || |got| > ReadLen(s.pc) then Quiet(s)
    else if |got| < ReadLen(s.pc) then Quiet(s.(pc := WithGot(s.pc, got)))
    else AfterRead(s, Decode(got), ephemeral)
  }

  /** The end of first-time pairing. Only an approval is remembered. */
  function Decide(s: Server, approved: bool): Out
    requires s.pc.Deciding?
  {
    if approved then
      Out(s.(pc := ReadingIk1(s.pc.peer, s.pc.key, []), knownPeers := s.knownPeers[s.pc.peer := s.pc.key]),
          [Decision(true)], [])
    else Out(HangUp(s), [Decision(false)], [])
  }

  /** The end of the gate for a kicked device. */
  function Redecide(s: Server, approved: bool): Out
    requires s.pc.Redeciding?
  {
    if approved then
      Quiet(s.(pc := Announcing(s.pc.peer, s.pc.result), kickedThisSession := s.kickedThisSession - {s.pc.peer},
               status := Connected(s.pc.peer, s.pc.result.keys.recvKey)))
    else Out(HangUp(s).(sendNonce := s.sendNonce + 1), [SessionFrame(s.sendNonce, GoAway)], [])
  }

  /** The session loop exits: a requested disconnect kicks the device, anything else does not. */
  function LeaveSession(s: Server): Out
    requires s.pc.InSession?
  {
    var left := s.(pc := Parting(s.pc.peer, s.pc.result));
    if s.disconnectRequested then
      Out(left.(sendNonce := s.sendNonce + 1, kickedThisSession := s.kickedThisSession + {s.pc.peer}),
          [SessionFrame(s.sendNonce, GoAway)], [])
    else Quiet(left)
  }

  function Proceed(s: Server): Out {
    match s.pc
    case Prompting(peer, key) => Quiet(s.(pc := Deciding(peer, key), pairingDecision := Pending))
    case Deciding(_, _) =>
      if !s.running then Decide(s, false)
      else if s.pairingDecision != Pending then Decide(s, s.pairingDecision == Approved)
      else Quiet(s)
    case Reprompting(peer, result) => Quiet(s.(pc := Redeciding(peer, result), pairingDecision := Pending))
    case Redeciding(_, _) =>
      if !s.running then Redecide(s, false)
      else if s.pairingDecision != Pending then Redecide(s, s.pairingDecision == Approved)
      else Quiet(s)
    case Announcing(peer, result) => Quiet(s.(pc := Greeting(peer, result), activeChannel := true))
    case Greeting(peer, result) =>
      Out(s.(pc := Opening(peer, result), sendNonce := s.sendNonce + 1), [SessionFrame(s.sendNonce, AudioPort)], [])
    case Opening(peer, result) => Quiet(s.(pc := InSession(peer, result), disconnectRequested := false))
    case InSession(_, _) => if !s.running || s.disconnectRequested then LeaveSession(s) else Quiet(s)
    case Parting(_, _) => Quiet(s.(pc := Leaving, activeChannel := false))
    case Leaving => Quiet(HangUp(s))
    case _ => Quiet(s)
  }

  function Step(s: Server, e: Event): Out {
    match e
    case Accept =>
      if s.pc.Listening? && s.running then Out(s.(pc := ReadingId([])), [DeviceId(s.id)], []) else Quiet(s)
    case Arrive(cells, ephemeral) => Arrived(s, cells, ephemeral)
    case ReadFails => if ReadLen(s.pc) > 0 then Quiet(HangUp(s)) else Quiet(s)
    case Continue => Proceed(s)
    case ApprovalTimesOut =>
      if s.pc.Deciding? then Decide(s, false) else if s.pc.Redeciding? then Redecide(s, false) else Quiet(s)
    case SessionEnds => if s.pc.InSession? then LeaveSession(s) else Quiet(s)
    case Send(frame) =>
      if s.activeChannel then Out(s.(sendNonce := s.sendNonce + 1), [SessionFrame(s.sendNonce, frame)], []) else Quiet(s)
    case Approve => Quiet(s.(pairingDecision := Approved))
    case Reject => Quiet(s.(pairingDecision := Rejected))
    case Disconnect => Quiet(s.(disconnectRequested := true))
    case Forget(device) => Quiet(s.(knownPeers := s.knownPeers - {device}))
    case Shutdown => Quiet(s.(running := false))
  }

  // ------------------------------------------------------------------------------------
  // The server as an object: fields updated in place, one atomic step at a time
  // ------------------------------------------------------------------------------------

  class TcpServer {
    const id: nat
    const ownStatic: nat
    var running: bool
    var pc: Pc
    var knownPeers: map<nat, Term>
    var pairingDecision: PairingDecision
    var disconnectRequested: bool
    var kickedThisSession: set<nat>
    var activeChannel: bool
    var sendNonce: nat
    var status: Status
    var sent: seq<Word>                  // everything written to the socket
    var read: seq<Word>                  // every item read from it

    ghost function View(): Server
      reads this
    {
      Server(id, ownStatic, running, pc, knownPeers, pairingDecision, disconnectRequested, kickedThisSession,
             activeChannel, sendNonce, status)
    }

    /** The object now is what `out` says, relative to what it was. */
    twostate predicate Became(out: Out)
      reads this
    {
      View() == out.server && sent == old(sent) + out.sent && read == old(read) + out.read
    }

    constructor (id: nat, ownStatic: nat, knownPeers: map<nat, Term>)
      ensures View() == Server(id, ownStatic, true, Listening, knownPeers, Pending, false, {}, false, 0, Idle)
      ensures sent == [] && read == []
    {
      this.id, this.ownStatic, this.knownPeers := id, ownStatic, knownPeers;
      running, pc, pairingDecision, disconnectRequested := true, Listening, Pending, false;
      kickedThisSession, activeChannel, sendNonce, status, sent, read := {}, false, 0, Idle, [], [];
    }

    // What the UI thread calls.

    method ApprovePairing()
      modifies this`pairingDecision
      ensures Became(Step(old(View()), Approve))
    {
      pairingDecision := Approved;
    }

    method RejectPairing()
      modifies this`pairingDecision
      ensures Became(Step(old(View()), Reject))
    {
      pairingDecision := Rejected;
    }

    method DisconnectCurrent()
      modifies this`disconnectRequested
      ensures Became(Step(old(View()), Disconnect))
    {
      disconnectRequested := true;
    }

    method Stop()
      modifies this`running
      ensures Became(Step(old(View()), Shutdown))
    {
      running := false;
    }

    method SendInput(frame: SessionMessage) returns (ok: bool)
      modifies this`sent, this`sendNonce
      ensures Became(Step(old(View()), Send(frame))) && ok == activeChannel
    {
      if !activeChannel {
        return false;
      }
      sent := sent + [SessionFrame(sendNonce, frame)];
      sendNonce := sendNonce + 1;
      ok := true;
    }

    // What `run` does.

    method HangUpNow()
      modifies this`pc, this`status
      ensures Became(Quiet(HangUp(old(View()))))
    {
      pc := Listening;
      status := Idle;
    }

    method AcceptClient()
      modifies this
      ensures Became(Step(old(View()), Accept))
    {
      if pc.Listening? && running {
        pc := ReadingId([]);
        sent := sent + [DeviceId(id)];
      }
    }

    /** The look-up, the flag, and whether to pair. */
    method OnDeviceId(w: Word)
      requires pc.ReadingId?
      modifies this
      ensures Became(AfterRead(old(View()), w, 0))
    {
      var peer := AsDeviceId(w);
      var trusted := Lookup(knownPeers, peer);
      pc := ReadingFlag(peer, trusted, []);
      sent, read := sent + [PairingFlag(trusted.None?)], read + [w];
    }

    method OnPairingFlag(w: Word)
      requires pc.ReadingFlag?
      modifies this
      ensures Became(AfterRead(old(View()), w, 0))
    {
      var needPairing := pc.trusted.None? || AsFlag(w);
      read := read + [w];
      if needPairing {
        pc := ReadingKey(pc.peer, []);
        sent := sent + [RawKey(Public(ownStatic))];
      } else {
        pc := ReadingIk1(pc.peer, pc.trusted.value, []);
      }
    }

    method OnPublicKey(w: Word)
      requires pc.ReadingKey?
      modifies this
      ensures Became(AfterRead(old(View()), w, 0))
    {
      var key := AsKey(w);
      status := Pairing(pc.peer, Fingerprint(key, Public(ownStatic)));
      pc := Prompting(pc.peer, key);
      read := read + [w];
    }

    /** The key exchange, the check against the trusted key, and the gate for kicked devices. */
    method OnHandshakeMessage(w: Word, ephemeral: nat)
      requires pc.ReadingIk1?
      modifies this
      ensures Became(AfterRead(old(View()), w, ephemeral))
    {
      hide Respond;
      var ik, msg2 := RunIkResponder(ownStatic, ephemeral, Some(AsMsg1(w)));
      var peer, trusted := pc.peer, pc.key;
      read := read + [w];
      if msg2.Some? {
        sent := sent + [Ik2(msg2.value)];
      }
      if ik == None || trusted != ik.value.peerStatic {
        HangUpNow();
        return;
      }
      sendNonce := 0;
      if peer in kickedThisSession {
        status := Pairing(peer, Fingerprint(trusted, Public(ownStatic)));
        pc := Reprompting(peer, ik.value);
      } else {
        status := Connected(peer, ik.value.keys.recvKey);
        pc := Announcing(peer, ik.value);
      }
    }

    /** `recv_all`: nothing happens until all the bytes of the read are there. */
    method ReceiveBytes(cells: seq<Cell>, ephemeral: nat)
      modifies this
      ensures Became(Arrived(old(View()), cells, ephemeral))
    {
      hide AfterRead, Decode;
      var got := Got(pc) + cells;
      if cells == [] || |got| > ReadLen(pc) {
        return;
      }
      if |got| < ReadLen(pc) {
        pc := WithGot(pc, got);
        return;
      }
      IgnoresEphemeral(View(), Decode(got), ephemeral);
      match pc {
        case ReadingId(_) => OnDeviceId(Decode(got));
        case ReadingFlag(_, _, _) => OnPairingFlag(Decode(got));
        case ReadingKey(_, _) => OnPublicKey(Decode(got));
        case ReadingIk1(_, _, _) => OnHandshakeMessage(Decode(got), ephemeral);
      }
    }

    method ReadFailed()
      modifies this`pc, this`status
      ensures Became(Step(old(View()), ReadFails))
    {
      if ReadLen(pc) > 0 {
        HangUpNow();
      }
    }

    method SendDecision(approved: bool)
      requires pc.Deciding?
      modifies this
      ensures Became(Decide(old(View()), approved))
    {
      sent := sent + [Decision(approved)];
      if !approved {
        HangUpNow();
        return;
      }
      knownPeers := knownPeers[pc.peer := pc.key];
      pc := ReadingIk1(pc.peer, pc.key, []);
    }

    method PassGate(approved: bool)
      requires pc.Redeciding?
      modifies this
      ensures Became(Redecide(old(View()), approved))
    {
      if !approved {
        sent := sent + [SessionFrame(sendNonce, GoAway)];
        sendNonce := sendNonce + 1;
        HangUpNow();
        return;
      }
      kickedThisSession := kickedThisSession - {pc.peer};
      status := Connected(pc.peer, pc.result.keys.recvKey);
      pc := Announcing(pc.peer, pc.result);
    }

    method EndSession()
      requires pc.InSession?
      modifies this
      ensures Became(LeaveSession(old(View())))
    {
      if disconnectRequested {
        sent := sent + [SessionFrame(sendNonce, GoAway)];
        sendNonce := sendNonce + 1;
        kickedThisSession := kickedThisSession + {pc.peer};
      }
      pc := Parting(pc.peer, pc.result);
    }

    /** The remaining atomic steps of `run`: those before a connection is published, and the rest. */
    method ContinueRun()
      modifies this
      ensures Became(Proceed(old(View())))
    {
      hide Decide, Redecide, LeaveSession, HangUp;
      match pc {
        case Announcing(_, _) => ContinueSession();
        case Greeting(_, _) => ContinueSession();
        case Opening(_, _) => ContinueSession();
        case InSession(_, _) => ContinueSession();
        case Parting(_, _) => ContinueSession();
        case Leaving => ContinueSession();
        case Prompting(peer, key) =>
          pairingDecision := Pending;
          pc := Deciding(peer, key);
        case Deciding(_, _) =>
          if !running {
            SendDecision(false);
          } else if pairingDecision != Pending {
            SendDecision(pairingDecision == Approved);
          }
        case Reprompting(peer, result) =>
          pairingDecision := Pending;
          pc := Redeciding(peer, result);
        case Redeciding(_, _) =>
          if !running {
            PassGate(false);
          } else if pairingDecision != Pending {
            PassGate(pairingDecision == Approved);
          }
        case _ =>
      }
    }

    method ContinueSession()
      requires pc.Announcing? || pc.Greeting? || pc.Opening? || pc.InSession? || pc.Parting? || pc.Leaving?
      modifies this
      ensures Became(Proceed(old(View())))
    {
      hide LeaveSession, Decide, Redecide;
      match pc {
        case Announcing(peer, result) =>
          activeChannel := true;
          pc := Greeting(peer, result);
        case Greeting(peer, result) =>
          sent := sent + [SessionFrame(sendNonce, AudioPort)];
          sendNonce := sendNonce + 1;
          pc := Opening(peer, result);
        case Opening(peer, result) =>
          disconnectRequested := false;
          pc := InSession(peer, result);
        case InSession(_, _) =>
          if !running || disconnectRequested {
            EndSession();
          }
        case Parting(_, _) =>
          activeChannel := false;
          pc := Leaving;
        case Leaving =>
          HangUpNow();
      }
    }
  }

  /** Only the key exchange uses the fresh key. */
  lemma IgnoresEphemeral(s: Server, w: Word, ephemeral: nat)
    ensures !s.pc.ReadingIk1? ==> AfterRead(s, w, ephemeral) == AfterRead(s, w, 0)
  {
    hide Respond;
  }
}

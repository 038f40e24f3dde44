/** Master and Slave over one connection: two FIFO byte streams, every chunking, every delay,
    every timing of approval, rejection, timeout, close and UI action.

    Each side's own conversation -- what it has read and sent so far, item by item -- is described
    by a predicate that only its own steps need to keep. The streams tie the two together. */
module Handshake {
  import opened Common
  import opened NoisePrimitives
  import opened NoiseIk
  import opened Wire
  import S = TcpServer
  import C = TcpClient

  /** Both sides decide on pairing from the two flags exchanged. */
  predicate NeedPairing(mine: Word, theirs: Word) { AsFlag(mine) || AsFlag(theirs) }

  /** From `first` on, every item is a session frame, numbered from zero. */
  ghost predicate Frames(sent: seq<Word>, first: nat) {
    forall k | first <= k < |sent| :: sent[k].SessionFrame? && sent[k].nonce == k - first
  }

  ghost predicate IsReply(own: nat, request: Word, reply: Word) {
    && reply.Ik2? && reply.msg2.e.Public?
    && Respond(own, reply.msg2.e.owner, AsMsg1(request)).Some?
    && Respond(own, reply.msg2.e.owner, AsMsg1(request)).value.1 == reply.msg2
  }

  // ------------------------------------------------------------------------------------
  // The server's conversation
  // ------------------------------------------------------------------------------------

  /** What a server may have sent, given what it has read. */
  ghost predicate ServerTalk(id: nat, own: nat, read: seq<Word>, sent: seq<Word>) {
    && |sent| >= 1 && sent[0] == DeviceId(id)
    && (|sent| >= 2 ==> |read| >= 1 && sent[1].PairingFlag?)
    && (|sent| >= 3 ==>
          && |read| >= 2
          && if NeedPairing(sent[1], read[1]) then
               && sent[2] == RawKey(Public(own))
               && (|sent| >= 4 ==> |read| >= 3 && sent[3].Decision?)
               && (|sent| >= 5 ==> |read| >= 4 && sent[3] == Decision(true) && IsReply(own, read[3], sent[4]))
               && Frames(sent, 5)
             else
               && |read| >= 3 && IsReply(own, read[2], sent[2])
               && Frames(sent, 3))
  }

  /** The exchange is over for the server, with `result`. */
  ghost predicate ServerKeyed(own: nat, nonce: nat, read: seq<Word>, sent: seq<Word>, result: IkResult) {
    && |read| >= 3 && |sent| >= 3
    && var q := if NeedPairing(sent[1], read[1]) then 3 else 2;
       var r := if NeedPairing(sent[1], read[1]) then 4 else 2;
    && |read| == q + 1 && |sent| == r + 1 + nonce
    && IsReply(own, read[q], sent[r])
    && result == Respond(own, sent[r].msg2.e.owner, AsMsg1(read[q])).value.2
  }

  /** Where the server is in its conversation. */
  ghost predicate ServerAt(s: S.Server, read: seq<Word>, sent: seq<Word>) {
    && (s.activeChannel ==> s.pc.Greeting? || s.pc.Opening? || s.pc.InSession? || s.pc.Parting?)
    && (S.KnowsPeer(s.pc) ==> |read| >= 1 && s.pc.peer == AsDeviceId(read[0]))
    && match s.pc
       case Listening => true
       case ReadingId(got) => |read| == 0 && |sent| == 1 && |got| < DEVICE_ID_LEN
       case ReadingFlag(_, trusted, got) =>
         |read| == 1 && |sent| == 2 && sent[1] == PairingFlag(trusted.None?) && |got| < FLAG_LEN
       case ReadingKey(_, got) => |read| == 2 && |sent| == 3 && NeedPairing(sent[1], read[1]) && |got| < KEY_LEN
       case Prompting(peer, key) =>
         && |read| == 3 && |sent| == 3 && NeedPairing(sent[1], read[1]) && key == AsKey(read[2])
         && s.status == S.Pairing(peer, Fingerprint(key, Public(s.ownStatic)))
       case Deciding(peer, key) =>
         && |read| == 3 && |sent| == 3 && NeedPairing(sent[1], read[1]) && key == AsKey(read[2])
         && s.status == S.Pairing(peer, Fingerprint(key, Public(s.ownStatic)))
       case ReadingIk1(_, key, got) =>
         && |read| >= 2 && |sent| >= 2 && |got| < IK1_LEN
         && if NeedPairing(sent[1], read[1])
            then |read| == 3 && |sent| == 4 && sent[3] == Decision(true) && key == AsKey(read[2])
            else |read| == 2 && |sent| == 2
       case Reprompting(_, result) => ServerKeyed(s.ownStatic, s.sendNonce, read, sent, result)
       case Redeciding(_, result) => ServerKeyed(s.ownStatic, s.sendNonce, read, sent, result)
       case Announcing(peer, result) =>
         ServerKeyed(s.ownStatic, s.sendNonce, read, sent, result) && s.status == S.Connected(peer, result.keys.recvKey)
       case Greeting(peer, result) =>
         ServerKeyed(s.ownStatic, s.sendNonce, read, sent, result) && s.status == S.Connected(peer, result.keys.recvKey)
       case Opening(peer, result) =>
         ServerKeyed(s.ownStatic, s.sendNonce, read, sent, result) && s.status == S.Connected(peer, result.keys.recvKey)
       case InSession(peer, result) =>
         ServerKeyed(s.ownStatic, s.sendNonce, read, sent, result) && s.status == S.Connected(peer, result.keys.recvKey)
       case Parting(_, result) => ServerKeyed(s.ownStatic, s.sendNonce, read, sent, result)
       case Leaving => true
  }

  ghost predicate ServerInv(s: S.Server, read: seq<Word>, sent: seq<Word>) {
    ServerTalk(s.id, s.ownStatic, read, sent) && ServerAt(s, read, sent)
  }

  lemma Replied(s: S.Server, t: S.Server, read: seq<Word>, sent: seq<Word>, w: Word, reply: Word, result: IkResult)
    requires ServerInv(s, read, sent) && s.pc.ReadingIk1? && t.id == s.id && t.ownStatic == s.ownStatic
    requires IsReply(s.ownStatic, w, reply) && result == Respond(s.ownStatic, reply.msg2.e.owner, AsMsg1(w)).value.2
    requires t.activeChannel == s.activeChannel && (!t.pc.Listening? ==> t.sendNonce == 0)
    requires t.pc.Listening? || t.pc == S.Reprompting(s.pc.peer, result)
             || (t.pc == S.Announcing(s.pc.peer, result) && t.status == S.Connected(s.pc.peer, result.keys.recvKey))
    ensures ServerInv(t, read + [w], sent + [reply])
  {
    hide IsReply, Respond;
    assert !t.pc.Listening? ==> ServerKeyed(t.ownStatic, t.sendNonce, read + [w], sent + [reply], result);
  }

  lemma Ik1Outcome(s: S.Server, w: Word, ephemeral: nat)
    requires s.pc.ReadingIk1?
    ensures var out := S.AfterRead(s, w, ephemeral);
            var reply := Respond(s.ownStatic, ephemeral, AsMsg1(w));
            && out.read == [w] && out.server.id == s.id && out.server.ownStatic == s.ownStatic
            && out.server.activeChannel == s.activeChannel
            && if reply.None? then out.sent == [] && out.server.pc.Listening?
               else
                 && out.sent == [Ik2(reply.value.1)] && (!out.server.pc.Listening? ==> out.server.sendNonce == 0)
                 && (out.server.pc.Listening?
                     || out.server.pc == S.Reprompting(s.pc.peer, reply.value.2)
                     || (out.server.pc == S.Announcing(s.pc.peer, reply.value.2)
                         && out.server.status == S.Connected(s.pc.peer, reply.value.2.keys.recvKey)))
  {
    hide Respond;
  }

  lemma ServerReadIk1Inv(s: S.Server, read: seq<Word>, sent: seq<Word>, w: Word, ephemeral: nat)
    requires ServerInv(s, read, sent) && s.pc.ReadingIk1?
    ensures var out := S.AfterRead(s, w, ephemeral);
            ServerInv(out.server, read + out.read, sent + out.sent)
  {
    hide S.AfterRead, Respond, IsReply, ServerInv;
    var out := S.AfterRead(s, w, ephemeral);
    var reply := Respond(s.ownStatic, ephemeral, AsMsg1(w));
    Ik1Outcome(s, w, ephemeral);
    if reply.Some? {
      IsReplyOf(s.ownStatic, ephemeral, w);
      Replied(s, out.server, read, sent, w, out.sent[0], reply.value.2);
    } else {
      assert sent + [] == sent;
      ReadOnAfter(s, out.server, read, sent, w);
    }
  }

  lemma IsReplyOf(own: nat, ephemeral: nat, w: Word)
    requires Respond(own, ephemeral, AsMsg1(w)).Some?
    ensures IsReply(own, w, Ik2(Respond(own, ephemeral, AsMsg1(w)).value.1))
    ensures Respond(own, ephemeral, AsMsg1(w)).value.1.e == Public(ephemeral)
  {
    RespondSigns(own, ephemeral, AsMsg1(w));
    hide Respond;
  }

  /** A server that hangs up on what it just read. */
  lemma ReadOnAfter(s: S.Server, t: S.Server, read: seq<Word>, sent: seq<Word>, w: Word)
    requires ServerInv(s, read, sent) && s.pc.ReadingIk1? && t.id == s.id && t.ownStatic == s.ownStatic
    requires t.pc.Listening? && t.activeChannel == s.activeChannel
    ensures ServerInv(t, read + [w], sent)
  {
    hide IsReply;
  }

  lemma ServerReadInv(s: S.Server, read: seq<Word>, sent: seq<Word>, w: Word, ephemeral: nat)
    requires ServerInv(s, read, sent) && S.ReadLen(s.pc) > 0
    ensures var out := S.AfterRead(s, w, ephemeral);
            ServerInv(out.server, read + out.read, sent + out.sent)
  {
    hide Respond, IsReply, ServerKeyed;
    if s.pc.ReadingIk1? {
      hide ServerInv, S.AfterRead;
      ServerReadIk1Inv(s, read, sent, w, ephemeral);
    }
  }

  lemma RespondSigns(own: nat, ephemeral: nat, m: Msg1)
    requires Respond(own, ephemeral, m).Some?
    ensures Respond(own, ephemeral, m).value.1.e == Public(ephemeral)
  {
  }

  /** Sending one more frame is fine once the exchange is over. */
  lemma FrameInv(s: S.Server, t: S.Server, read: seq<Word>, sent: seq<Word>, w: Word)
    requires ServerTalk(s.id, s.ownStatic, read, sent) && t.id == s.id && t.ownStatic == s.ownStatic
    requires w.SessionFrame? && w.nonce == s.sendNonce && t.sendNonce == s.sendNonce + 1
    requires exists result :: ServerKeyed(s.ownStatic, s.sendNonce, read, sent, result)
    ensures ServerTalk(t.id, t.ownStatic, read, sent + [w])
    ensures forall result :: ServerKeyed(s.ownStatic, s.sendNonce, read, sent, result) ==> ServerKeyed(t.ownStatic, t.sendNonce, read, sent + [w], result)
  {
    hide Respond;
  }

  lemma ServerSessionInv(s: S.Server, read: seq<Word>, sent: seq<Word>)
    requires ServerInv(s, read, sent) && !s.pc.Deciding? && !s.pc.Prompting?
    ensures var out := S.Proceed(s);
            ServerInv(out.server, read + out.read, sent + out.sent)
  {
    hide ServerTalk, ServerKeyed, Encode;
    assert read + [] == read && sent + [] == sent;
    var out := S.Proceed(s);
    if out.sent != [] { FrameInv(s, out.server, read, sent, out.sent[0]); }
  }

  lemma ServerProceedInv(s: S.Server, read: seq<Word>, sent: seq<Word>)
    requires ServerInv(s, read, sent)
    ensures var out := S.Proceed(s);
            ServerInv(out.server, read + out.read, sent + out.sent)
  {
    hide IsReply, Encode;
    if s.pc.Deciding? || s.pc.Prompting? {
      assert read + [] == read && sent + [] == sent;
    } else {
      hide ServerInv, S.Proceed;
      ServerSessionInv(s, read, sent);
    }
  }

  lemma ServerReactInv(s: S.Server, read: seq<Word>, sent: seq<Word>, e: S.Event)
    requires ServerInv(s, read, sent) && !e.Accept? && !e.Arrive? && !e.Continue?
    ensures var out := S.Step(s, e);
            ServerInv(out.server, read + out.read, sent + out.sent)
  {
    hide IsReply, S.Proceed;
    assert read + [] == read && sent + [] == sent;
    var out := S.Step(s, e);
    if out.sent != [] && out.sent[0].SessionFrame? { FrameInv(s, out.server, read, sent, out.sent[0]); }
  }

  /** The server's own steps keep its conversation in order, whatever it is sent. */
  lemma ServerStepInv(s: S.Server, read: seq<Word>, sent: seq<Word>, e: S.Event)
    requires ServerInv(s, read, sent) && !e.Accept?
    ensures var out := S.Step(s, e);
            ServerInv(out.server, read + out.read, sent + out.sent)
  {
    hide S.AfterRead, S.Proceed, ServerTalk, ServerKeyed;
    match e
    case Continue => ServerProceedInv(s, read, sent);
    case Arrive(cells, ephemeral) =>
      var got := S.Got(s.pc) + cells;
      assert read + [] == read && sent + [] == sent;
      if |got| == S.ReadLen(s.pc) && cells != [] {
        ServerReadInv(s, read, sent, Decode(got), ephemeral);
      } else {
        ServerWaitInv(s, read, sent, got);
      }
    case _ => ServerReactInv(s, read, sent, e);
  }

  lemma ServerWaitInv(s: S.Server, read: seq<Word>, sent: seq<Word>, got: seq<Cell>)
    requires ServerInv(s, read, sent)
    ensures |got| < S.ReadLen(s.pc) ==> ServerInv(s.(pc := S.WithGot(s.pc, got)), read, sent)
  {
    hide IsReply;
  }

  // ------------------------------------------------------------------------------------
  // The client's conversation
  // ------------------------------------------------------------------------------------

  ghost predicate ClientTalk(c: C.Client, read: seq<Word>, sent: seq<Word>) {
    && |sent| >= 1 && sent[0] == DeviceId(c.id)
    && (|sent| >= 2 ==> |read| >= 1 && sent[1].PairingFlag?)
    && (|sent| >= 3 ==>
          && |read| >= 2
          && if NeedPairing(sent[1], read[1]) then
               && sent[2] == RawKey(Public(c.ownStatic))
               && (|sent| >= 4 ==> |read| >= 4 && AsDecision(read[3]) && sent[3].Ik1?)
               && Frames(sent, 4)
             else
               && sent[2].Ik1?
               && Frames(sent, 3))
  }

  /** The client's first handshake message, to the peer with key `rs`. */
  ghost predicate Began(own: nat, rs: Term, e: nat, state: Symmetric, request: Word) {
    request.Ik1? && InitiatorStart(own, rs, e) == Some((state, request.msg1))
  }

  /** The client's handshake ended with `result` on this request and reply. */
  ghost predicate Concluded(own: nat, request: Word, reply: Word, result: IkResult) {
    && request.Ik1? && request.msg1.e.Public?
    && var e := request.msg1.e.owner;
       var start := InitiatorStart(own, result.peerStatic, e);
    && start.Some? && start.value.1 == request.msg1
    && var finish := InitiatorFinish(start.value.0, own, result.peerStatic, e, AsMsg2(reply));
       finish.Some? && finish.value.1 == result
  }

  ghost predicate ClientKeyed(own: nat, nonce: nat, read: seq<Word>, sent: seq<Word>, result: IkResult) {
    && |read| >= 3 && |sent| >= 3
    && var q := if NeedPairing(sent[1], read[1]) then 3 else 2;
       var r := if NeedPairing(sent[1], read[1]) then 4 else 2;
    && |sent| == q + 1 + nonce && |read| == r + 1
    && Concluded(own, sent[q], read[r], result)
  }

  predicate ClientKnowsPeer(pc: C.Pc) { !pc.Offline? && !pc.ReadingId? && !pc.Ended? }

  ghost predicate ClientAt(c: C.Client, read: seq<Word>, sent: seq<Word>) {
    && (ClientKnowsPeer(c.pc) ==> |read| >= 1 && c.pc.peer == AsDeviceId(read[0]))
    && (|sent| >= 2 && |read| >= 4 && NeedPairing(sent[1], read[1]) && !AsDecision(read[3]) ==> c.pc == C.Ended(C.GiveUp))
    && match c.pc
    case Offline => false
    case ReadingId(got) => |read| == 0 && |sent| == 1 && |got| < DEVICE_ID_LEN
    case ReadingFlag(_, known, got) =>
      |read| == 1 && |sent| == 2 && sent[1] == PairingFlag(known.None?) && |got| < FLAG_LEN
    case ReadingKey(_, got) => |read| == 2 && |sent| == 3 && NeedPairing(sent[1], read[1]) && |got| < KEY_LEN
    case ReadingDecision(peer, key, got) =>
      && |read| == 3 && |sent| == 3 && NeedPairing(sent[1], read[1]) && key == AsKey(read[2]) && |got| < DECISION_LEN
      && c.status == C.Pairing(peer, Fingerprint(Public(c.ownStatic), key))
    case ReadingIk2(_, rs, state, e, got) =>
      && |read| >= 2 && |sent| >= 3 && |got| < IK2_LEN
      && |read| == (if NeedPairing(sent[1], read[1]) then 4 else 2)
      && |sent| == (if NeedPairing(sent[1], read[1]) then 4 else 3)
      && Began(c.ownStatic, rs, e, state, sent[|sent| - 1])
    case InSession(peer, result) =>
      ClientKeyed(c.ownStatic, c.sendNonce, read, sent, result) && c.status == C.Connected(peer, result.keys.sendKey)
    case Ended(outcome) =>
      outcome == C.GiveUp ==> |sent| >= 2 && |read| == 4 && NeedPairing(sent[1], read[1]) && !AsDecision(read[3])
  }

  ghost predicate ClientInv(c: C.Client, read: seq<Word>, sent: seq<Word>) {
    ClientTalk(c, read, sent) && ClientAt(c, read, sent)
  }

  lemma Finished(c: C.Client, d: C.Client, read: seq<Word>, sent: seq<Word>, w: Word)
    requires ClientInv(c, read, sent) && c.pc.ReadingIk2?
    requires d.id == c.id && d.ownStatic == c.ownStatic && d.sendNonce == 0
    requires InitiatorFinish(c.pc.state, c.ownStatic, c.pc.rs, c.pc.ephemeral, AsMsg2(w)).Some?
    ensures var result := InitiatorFinish(c.pc.state, c.ownStatic, c.pc.rs, c.pc.ephemeral, AsMsg2(w)).value.1;
            ClientTalk(d, read + [w], sent) && ClientKeyed(d.ownStatic, d.sendNonce, read + [w], sent, result)
  {
    var request := sent[|sent| - 1];
    assert request.msg1.e == Public(c.pc.ephemeral);
    hide InitiatorStart;
    var finish := InitiatorFinish(c.pc.state, c.ownStatic, c.pc.rs, c.pc.ephemeral, AsMsg2(w));
    assert finish.value.1.peerStatic == c.pc.rs;
    hide InitiatorFinish;
    assert Concluded(c.ownStatic, request, w, finish.value.1);
    hide Began, Concluded;
  }

  lemma ClientReadIk2Inv(c: C.Client, read: seq<Word>, sent: seq<Word>, w: Word, ephemeral: nat)
    requires ClientInv(c, read, sent) && c.pc.ReadingIk2?
    ensures var out := C.AfterRead(c, w, ephemeral);
            ClientInv(out.client, read + out.read, sent + out.sent)
  {
    hide InitiatorStart, InitiatorFinish, Began;
    var ReadingIk2(_, rs, state, e, _) := c.pc;
    var out := C.AfterRead(c, w, ephemeral);
    assert out.read == [w] && out.sent == [];
    assert sent + [] == sent;
    if InitiatorFinish(state, c.ownStatic, rs, e, AsMsg2(w)).Some? {
      Finished(c, out.client, read, sent, w);
      hide ClientTalk, ClientKeyed;
    }
  }

  lemma ClientStartIkInv(c: C.Client, read: seq<Word>, sent: seq<Word>, peer: nat, rs: Term, ephemeral: nat)
    requires read != [] && peer == AsDeviceId(read[0])
    requires ClientTalk(c, read, sent) && |sent| >= 2 && |read| >= 2
    requires if NeedPairing(sent[1], read[1]) then |sent| == 3 && |read| == 4 && AsDecision(read[3]) else |sent| == 2 && |read| == 2
    ensures var out := C.StartIk(c, peer, rs, ephemeral, []);
            ClientInv(out.client, read, sent + out.sent)
  {
    hide InitiatorStart;
  }

  lemma ClientReadInv(c: C.Client, read: seq<Word>, sent: seq<Word>, w: Word, ephemeral: nat)
    requires ClientInv(c, read, sent) && C.ReadLen(c.pc) > 0
    ensures var out := C.AfterRead(c, w, ephemeral);
            ClientInv(out.client, read + out.read, sent + out.sent)
  {
    hide InitiatorStart, InitiatorFinish, ClientKeyed, Began;
    match c.pc
    case ReadingIk2(_, _, _, _, _) =>
      hide ClientInv, C.AfterRead;
      ClientReadIk2Inv(c, read, sent, w, ephemeral);
    case ReadingFlag(peer, known, _) =>
      if known.Some? && !AsFlag(w) {
        ClientStartIkInv(c, read + [w], sent, peer, known.value, ephemeral);
      }
    case ReadingDecision(peer, key, _) =>
      if AsDecision(w) {
        ClientStartIkInv(c.(knownPeers := c.knownPeers[peer := key]), read + [w], sent, peer, key, ephemeral);
      }
    case _ =>
  }

  lemma ClientFrameInv(c: C.Client, d: C.Client, read: seq<Word>, sent: seq<Word>, w: Word, result: IkResult)
    requires ClientTalk(c, read, sent) && d.id == c.id && d.ownStatic == c.ownStatic
    requires w.SessionFrame? && w.nonce == c.sendNonce && d.sendNonce == c.sendNonce + 1
    requires ClientKeyed(c.ownStatic, c.sendNonce, read, sent, result)
    ensures ClientTalk(d, read, sent + [w]) && ClientKeyed(d.ownStatic, d.sendNonce, read, sent + [w], result)
  {
    hide Concluded;
    assert (sent + [w])[1] == sent[1];
  }

  lemma ClientReactInv(c: C.Client, read: seq<Word>, sent: seq<Word>, e: C.Event)
    requires ClientInv(c, read, sent) && !e.Connect? && !e.Arrive?
    ensures var out := C.Step(c, e);
            ClientInv(out.client, read + out.read, sent + out.sent)
  {
    hide InitiatorStart, InitiatorFinish, ClientKeyed;
    assert read + [] == read && sent + [] == sent;
    var out := C.Step(c, e);
    if out.sent != [] { ClientFrameInv(c, out.client, read, sent, out.sent[0], c.pc.result); }
  }

  lemma ClientWaitInv(c: C.Client, read: seq<Word>, sent: seq<Word>, got: seq<Cell>)
    requires ClientInv(c, read, sent)
    ensures |got| < C.ReadLen(c.pc) ==> ClientInv(c.(pc := C.WithGot(c.pc, got)), read, sent)
  {
    hide InitiatorStart, InitiatorFinish, ClientKeyed;
  }

  lemma ClientStepInv(c: C.Client, read: seq<Word>, sent: seq<Word>, e: C.Event)
    requires ClientInv(c, read, sent) && !e.Connect?
    ensures var out := C.Step(c, e);
            ClientInv(out.client, read + out.read, sent + out.sent)
  {
    hide C.AfterRead, ClientInv;
    match e
    case Arrive(cells, ephemeral) =>
      var got := C.Got(c.pc) + cells;
      assert read + [] == read && sent + [] == sent;
      if |got| == C.ReadLen(c.pc) && cells != [] {
        ClientReadInv(c, read, sent, Decode(got), ephemeral);
      } else {
        ClientWaitInv(c, read, sent, got);
      }
    case _ => ClientReactInv(c, read, sent, e);
  }

  // ------------------------------------------------------------------------------------
  // Both sides and the streams between them
  // ------------------------------------------------------------------------------------

  /** `toServer` and `toClient` are in flight; the rest of the history is kept item by item. */
  datatype World = World(
    server: S.Server, client: C.Client,
    toServer: seq<Cell>, toClient: seq<Cell>,
    serverRead: seq<Word>, serverSent: seq<Word>,
    clientRead: seq<Word>, clientSent: seq<Word>)

  /** The next `n` bytes reach a side, or a side takes a step of its own. */
  datatype WorldEvent =
    | ServerHears(n: nat, ephemeral: nat)
    | ClientHears(n: nat, ephemeral: nat)
    | ServerDoes(serverEvent: S.Event)
    | ClientDoes(clientEvent: C.Event)

  function ServerActs(w: World, out: S.Out): World {
    w.(server := out.server, serverRead := w.serverRead + out.read, serverSent := w.serverSent + out.sent,
       toClient := w.toClient + EncodeAll(out.sent))
  }

  function ClientActs(w: World, out: C.Out): World {
    w.(client := out.client, clientRead := w.clientRead + out.read, clientSent := w.clientSent + out.sent,
       toServer := w.toServer + EncodeAll(out.sent))
  }

  /** One connection attempt: no second accept or connect. */
  function StepWorld(w: World, e: WorldEvent): World {
    match e
    case ServerHears(n, ephemeral) =>
      if n == 0 || n > |w.toServer| || |S.Got(w.server.pc)| + n > S.ReadLen(w.server.pc) then w
      else ServerActs(w.(toServer := w.toServer[n..]), S.Step(w.server, S.Arrive(w.toServer[..n], ephemeral)))
    case ClientHears(n, ephemeral) =>
      if n == 0 || n > |w.toClient| || |C.Got(w.client.pc)| + n > C.ReadLen(w.client.pc) then w
      else ClientActs(w.(toClient := w.toClient[n..]), C.Step(w.client, C.Arrive(w.toClient[..n], ephemeral)))
    case ServerDoes(event) => if event.Accept? || event.Arrive? then w else ServerActs(w, S.Step(w.server, event))
    case ClientDoes(event) => if event.Connect? || event.Arrive? then w else ClientActs(w, C.Step(w.client, event))
  }

  /** The connection is made: both sides have sent their device ids. */
  function Begin(s: S.Server, c: C.Client): World {
    World(S.Step(s, S.Accept).server, C.Step(c, C.Connect).client,
          Encode(DeviceId(c.id)), Encode(DeviceId(s.id)), [], [DeviceId(s.id)], [], [DeviceId(c.id)])
  }

  /** A reader has read exactly the first items sent. Unless it has given up, what its current
      read holds and what is in flight are the cells of the others. */
  ghost predicate Stream(read: seq<Word>, got: seq<Cell>, flying: seq<Cell>, sent: seq<Word>, gaveUp: bool) {
    && read <= sent
    && (!gaveUp ==> got + flying == EncodeAll(sent[|read|..]))
  }

  ghost predicate WorldInv(w: World) {
    && ServerInv(w.server, w.serverRead, w.serverSent)
    && ClientInv(w.client, w.clientRead, w.clientSent)
    && Stream(w.serverRead, S.Got(w.server.pc), w.toServer, w.clientSent, w.server.pc.Listening?)
    && Stream(w.clientRead, C.Got(w.client.pc), w.toClient, w.serverSent, w.client.pc.Ended?)
  }

  lemma StreamGrows(read: seq<Word>, got: seq<Cell>, flying: seq<Cell>, sent: seq<Word>, gaveUp: bool, more: seq<Word>)
    requires Stream(read, got, flying, sent, gaveUp)
    ensures Stream(read, got, flying + EncodeAll(more), sent + more, gaveUp)
  {
    hide EncodeAll;
    assert (sent + more)[|read|..] == sent[|read|..] + more;
    EncodeAllAppend(sent[|read|..], more);
    assert got + (flying + EncodeAll(more)) == (got + flying) + EncodeAll(more);
  }

  /** Each fixed-size read is for exactly the item the other side wrote for it. */
  lemma ServerReadFits(w: World)
    requires WorldInv(w) && S.ReadLen(w.server.pc) > 0 && |w.serverRead| < |w.clientSent|
    ensures Length(w.clientSent[|w.serverRead|]) == S.ReadLen(w.server.pc)
  {
    hide IsReply, Concluded, InitiatorStart, EncodeAll;
  }

  lemma ClientReadFits(w: World)
    requires WorldInv(w) && C.ReadLen(w.client.pc) > 0 && |w.clientRead| < |w.serverSent|
    ensures Length(w.serverSent[|w.clientRead|]) == C.ReadLen(w.client.pc)
  {
    hide Respond, Concluded, InitiatorStart, EncodeAll;
  }

  /** Taking the next `n` cells: part of the next item, or all of it. */
  lemma StreamAdvances(read: seq<Word>, got: seq<Cell>, flying: seq<Cell>, sent: seq<Word>, n: nat)
    requires Stream(read, got, flying, sent, false) && 0 < n <= |flying|
    ensures |read| < |sent|
    ensures var next := sent[|read|];
            var got' := got + flying[..n];
            && (|got'| < Length(next) ==> Stream(read, got', flying[n..], sent, false))
            && (|got'| == Length(next) ==> Decode(got') == next && Stream(read + [next], [], flying[n..], sent, false))
  {
    assert |got + flying| > 0;
    assert sent[|read|..] != [];
    var next := sent[|read|];
    var got' := got + flying[..n];
    assert sent[|read|..][1..] == sent[|read| + 1..];
    assert got' + flying[n..] == got + flying by { assert flying == flying[..n] + flying[n..]; }
    var rest := EncodeAll(sent[|read| + 1..]);
    assert got' + flying[n..] == Encode(next) + rest;
    if |got'| == Length(next) {
      assert got' == (got' + flying[n..])[..|got'|] == Encode(next);
      assert flying[n..] == (got' + flying[n..])[|got'|..] == rest;
      assert read + [next] == sent[..|read| + 1];
    }
  }

  /** What bytes for its current read do to the server. */
  lemma ServerArrives(s: S.Server, cells: seq<Cell>, ephemeral: nat)
    requires cells != [] && |S.Got(s.pc) + cells| <= S.ReadLen(s.pc)
    ensures var out := S.Step(s, S.Arrive(cells, ephemeral));
            var got := S.Got(s.pc) + cells;
            if |got| < S.ReadLen(s.pc) then
              out.read == [] && out.sent == [] && S.Got(out.server.pc) == got && !out.server.pc.Listening?
            else out.read == [Decode(got)] && S.Got(out.server.pc) == []
  {
    hide Respond, Encode;
  }

  lemma ClientArrives(c: C.Client, cells: seq<Cell>, ephemeral: nat)
    requires cells != [] && |C.Got(c.pc) + cells| <= C.ReadLen(c.pc)
    ensures var out := C.Step(c, C.Arrive(cells, ephemeral));
            var got := C.Got(c.pc) + cells;
            if |got| < C.ReadLen(c.pc) then
              out.read == [] && out.sent == [] && C.Got(out.client.pc) == got && !out.client.pc.Ended?
            else out.read == [Decode(got)] && C.Got(out.client.pc) == []
  {
    hide InitiatorStart, InitiatorFinish, Encode;
  }

  /** A side's own steps read nothing. */
  lemma ServerOwnStep(s: S.Server, e: S.Event)
    requires !e.Accept? && !e.Arrive?
    ensures var out := S.Step(s, e);
            out.read == [] && (s.pc.Listening? ==> out.server.pc.Listening?)
            && (S.Got(out.server.pc) == S.Got(s.pc) || out.server.pc.Listening?)
  {
  }

  lemma ClientOwnStep(c: C.Client, e: C.Event)
    requires !e.Connect? && !e.Arrive?
    ensures var out := C.Step(c, e);
            out.read == [] && (c.pc.Ended? ==> out.client.pc.Ended?)
            && (C.Got(out.client.pc) == C.Got(c.pc) || out.client.pc.Ended?)
  {
  }

  lemma ServerHearsInv(w: World, n: nat, ephemeral: nat)
    requires WorldInv(w) && 0 < n <= |w.toServer| && |S.Got(w.server.pc)| + n <= S.ReadLen(w.server.pc)
    ensures WorldInv(StepWorld(w, ServerHears(n, ephemeral)))
  {
    var cells := w.toServer[..n];
    ServerReadFitsNext(w, n);
    ServerArrives(w.server, cells, ephemeral);
    ServerStepInv(w.server, w.serverRead, w.serverSent, S.Arrive(cells, ephemeral));
    hide ServerInv, ClientInv, EncodeAll, Encode, S.Step;
    var out := S.Step(w.server, S.Arrive(cells, ephemeral));
    assert w.serverRead + [] == w.serverRead;
    StreamGrows(w.clientRead, C.Got(w.client.pc), w.toClient, w.serverSent, w.client.pc.Ended?, out.sent);
  }

  lemma ServerReadFitsNext(w: World, n: nat)
    requires WorldInv(w) && 0 < n <= |w.toServer| && |S.Got(w.server.pc)| + n <= S.ReadLen(w.server.pc)
    ensures !w.server.pc.Listening? && |w.serverRead| < |w.clientSent|
    ensures var next := w.clientSent[|w.serverRead|];
            var got' := S.Got(w.server.pc) + w.toServer[..n];
            && (|got'| < S.ReadLen(w.server.pc) ==> Stream(w.serverRead, got', w.toServer[n..], w.clientSent, false))
            && (|got'| == S.ReadLen(w.server.pc) ==>
                  Decode(got') == next && Stream(w.serverRead + [next], [], w.toServer[n..], w.clientSent, false))
  {
    StreamAdvances(w.serverRead, S.Got(w.server.pc), w.toServer, w.clientSent, n);
    ServerReadFits(w);
    hide ServerInv, ClientInv, EncodeAll, Encode, Stream;
  }

  lemma ClientReadFitsNext(w: World, n: nat)
    requires WorldInv(w) && 0 < n <= |w.toClient| && |C.Got(w.client.pc)| + n <= C.ReadLen(w.client.pc)
    ensures !w.client.pc.Ended? && |w.clientRead| < |w.serverSent|
    ensures var next := w.serverSent[|w.clientRead|];
            var got' := C.Got(w.client.pc) + w.toClient[..n];
            && (|got'| < C.ReadLen(w.client.pc) ==> Stream(w.clientRead, got', w.toClient[n..], w.serverSent, false))
            && (|got'| == C.ReadLen(w.client.pc) ==>
                  Decode(got') == next && Stream(w.clientRead + [next], [], w.toClient[n..], w.serverSent, false))
  {
    StreamAdvances(w.clientRead, C.Got(w.client.pc), w.toClient, w.serverSent, n);
    ClientReadFits(w);
    hide ServerInv, ClientInv, EncodeAll, Encode, Stream;
  }

  lemma ClientHearsInv(w: World, n: nat, ephemeral: nat)
    requires WorldInv(w) && 0 < n <= |w.toClient| && |C.Got(w.client.pc)| + n <= C.ReadLen(w.client.pc)
    ensures WorldInv(StepWorld(w, ClientHears(n, ephemeral)))
  {
    var cells := w.toClient[..n];
    ClientReadFitsNext(w, n);
    ClientArrives(w.client, cells, ephemeral);
    ClientStepInv(w.client, w.clientRead, w.clientSent, C.Arrive(cells, ephemeral));
    hide ServerInv, ClientInv, EncodeAll, Encode, C.Step;
    var out := C.Step(w.client, C.Arrive(cells, ephemeral));
    assert w.clientRead + [] == w.clientRead;
    StreamGrows(w.serverRead, S.Got(w.server.pc), w.toServer, w.clientSent, w.server.pc.Listening?, out.sent);
  }

  lemma ServerDoesInv(w: World, e: S.Event)
    requires WorldInv(w)
    ensures WorldInv(StepWorld(w, ServerDoes(e)))
  {
    hide ServerInv, ClientInv, EncodeAll, Encode, S.Step, S.Got;
    if !e.Accept? && !e.Arrive? {
      ServerOwnStep(w.server, e);
      ServerStepInv(w.server, w.serverRead, w.serverSent, e);
      var out := S.Step(w.server, e);
      assert w.serverRead + [] == w.serverRead;
      StreamGrows(w.clientRead, C.Got(w.client.pc), w.toClient, w.serverSent, w.client.pc.Ended?, out.sent);
    }
  }

  lemma ClientDoesInv(w: World, e: C.Event)
    requires WorldInv(w)
    ensures WorldInv(StepWorld(w, ClientDoes(e)))
  {
    hide ServerInv, ClientInv, EncodeAll, Encode, C.Step, C.Got;
    if !e.Connect? && !e.Arrive? {
      ClientOwnStep(w.client, e);
      ClientStepInv(w.client, w.clientRead, w.clientSent, e);
      var out := C.Step(w.client, e);
      assert w.clientRead + [] == w.clientRead;
      StreamGrows(w.serverRead, S.Got(w.server.pc), w.toServer, w.clientSent, w.server.pc.Listening?, out.sent);
    }
  }

  /** Every step of either side, and every delivery, keeps the conversations in step. */
  lemma StepWorldInv(w: World, e: WorldEvent)
    requires WorldInv(w)
    ensures WorldInv(StepWorld(w, e))
  {
    hide WorldInv, ServerActs, ClientActs, EncodeAll;
    match e
    case ServerHears(n, ephemeral) =>
      if !(n == 0 || n > |w.toServer| || |S.Got(w.server.pc)| + n > S.ReadLen(w.server.pc)) {
        ServerHearsInv(w, n, ephemeral);
      }
    case ClientHears(n, ephemeral) =>
      if !(n == 0 || n > |w.toClient| || |C.Got(w.client.pc)| + n > C.ReadLen(w.client.pc)) {
        ClientHearsInv(w, n, ephemeral);
      }
    case ServerDoes(event) => ServerDoesInv(w, event);
    case ClientDoes(event) => ClientDoesInv(w, event);
  }

  predicate Ready(s: S.Server, c: C.Client) {
    s.pc.Listening? && s.running && !s.activeChannel && c.pc.Offline?
  }

  /** One connection attempt, from the accept on. */
  ghost predicate IsAttempt(ws: seq<World>, es: seq<WorldEvent>) {
    && |ws| == |es| + 1
    && (exists s, c :: Ready(s, c) && ws[0] == Begin(s, c))
    && forall i {:trigger es[i]} | 0 <= i < |es| :: ws[i + 1] == StepWorld(ws[i], es[i])
  }

  lemma BeginInv(s: S.Server, c: C.Client)
    requires Ready(s, c)
    ensures WorldInv(Begin(s, c))
  {
    assert [DeviceId(s.id)][1..] == [] && [DeviceId(c.id)][1..] == [];
    assert EncodeAll([DeviceId(s.id)]) == Encode(DeviceId(s.id));
    assert EncodeAll([DeviceId(c.id)]) == Encode(DeviceId(c.id));
  }

  lemma {:induction false} AttemptInv(ws: seq<World>, es: seq<WorldEvent>, i: nat)
    requires IsAttempt(ws, es) && i < |ws|
    ensures WorldInv(ws[i])
  {
    hide WorldInv, StepWorld, Begin;
    if i == 0 {
      var s, c :| Ready(s, c) && ws[0] == Begin(s, c);
      BeginInv(s, c);
    } else {
      AttemptInv(ws, es, i - 1);
      assert ws[i] == StepWorld(ws[i - 1], es[i - 1]);
      StepWorldInv(ws[i - 1], es[i - 1]);
    }
  }

  // ------------------------------------------------------------------------------------
  // What the two sides agree on
  // ------------------------------------------------------------------------------------

  /** Lockstep. Whatever either side reads is, item for item, what the other side sent for that
      same stage -- nothing is garbled, split or taken for something else -- and the bytes of a
      read that is still open are the beginning of the item meant for it. */
  lemma Lockstep(ws: seq<World>, es: seq<WorldEvent>, i: nat)
    requires IsAttempt(ws, es) && i < |ws|
    ensures var w := ws[i];
            && w.serverRead <= w.clientSent && w.clientRead <= w.serverSent
            && (S.ReadLen(w.server.pc) > 0 && |w.serverRead| < |w.clientSent| ==>
                  var next := w.clientSent[|w.serverRead|];
                  Length(next) == S.ReadLen(w.server.pc) && S.Got(w.server.pc) <= Encode(next))
            && (C.ReadLen(w.client.pc) > 0 && |w.clientRead| < |w.serverSent| ==>
                  var next := w.serverSent[|w.clientRead|];
                  Length(next) == C.ReadLen(w.client.pc) && C.Got(w.client.pc) <= Encode(next))
  {
    AttemptInv(ws, es, i);
    var w := ws[i];
    if S.ReadLen(w.server.pc) > 0 && |w.serverRead| < |w.clientSent| {
      ServerReadFits(w);
      OpenReadFits(w.serverRead, S.Got(w.server.pc), w.toServer, w.clientSent, S.ReadLen(w.server.pc)) by {
        hide Respond, Concluded, IsReply, InitiatorStart, EncodeAll, Encode;
      }
    }
    if C.ReadLen(w.client.pc) > 0 && |w.clientRead| < |w.serverSent| {
      ClientReadFits(w);
      OpenReadFits(w.clientRead, C.Got(w.client.pc), w.toClient, w.serverSent, C.ReadLen(w.client.pc)) by {
        hide Respond, Concluded, IsReply, InitiatorStart, EncodeAll, Encode;
      }
    }
    hide ServerInv, ClientInv, EncodeAll, Encode;
  }

  lemma OpenReadFits(read: seq<Word>, got: seq<Cell>, flying: seq<Cell>, sent: seq<Word>, len: nat)
    requires Stream(read, got, flying, sent, false) && |read| < |sent| && Length(sent[|read|]) == len && |got| < len
    ensures got <= Encode(sent[|read|])
  {
    var rest := sent[|read|..];
    assert rest[0] == sent[|read|];
    assert got + flying == Encode(rest[0]) + EncodeAll(rest[1..]);
    assert got == (got + flying)[..|got|] == Encode(rest[0])[..|got|];
  }
}

/** What Master and Slave agree on, in every world that a connection attempt can reach. */
module HandshakeAgreement {
  import opened Common
  import opened NoisePrimitives
  import opened NoiseIk
  import opened Wire
  import opened Handshake
  import S = TcpServer
  import C = TcpClient

  ghost predicate Reachable(w: World) {
    exists ws, es, i: nat :: IsAttempt(ws, es) && i < |ws| && ws[i] == w
  }

  lemma ReachableInv(w: World)
    requires Reachable(w)
    ensures WorldInv(w)
  {
    hide WorldInv, IsAttempt;
    var ws, es, i: nat :| IsAttempt(ws, es) && i < |ws| && ws[i] == w;
    AttemptInv(ws, es, i);
  }

  predicate ServerPairs(pc: S.Pc) { pc.ReadingKey? || pc.Prompting? || pc.Deciding? }

  predicate ClientPairs(pc: C.Pc) { pc.ReadingKey? || pc.ReadingDecision? }

  lemma SameFlags(w: World)
    requires WorldInv(w)
    ensures |w.serverRead| >= 2 && |w.clientRead| >= 2 ==>
              |w.serverSent| >= 2 && |w.clientSent| >= 2 &&
              NeedPairing(w.serverSent[1], w.serverRead[1]) == NeedPairing(w.clientSent[1], w.clientRead[1])
  {
    hide ServerInv, ClientInv, EncodeAll;
  }

  lemma NoRequestYet(w: World)
    requires WorldInv(w) && ServerPairs(w.server.pc)
    ensures forall x | x in w.clientSent :: !x.Ik1? && !x.SessionFrame?
  {
    hide IsReply, Concluded, Began, EncodeAll, InitiatorStart, Respond;
  }

  lemma NoReplyYet(w: World)
    requires WorldInv(w) && ClientPairs(w.client.pc)
    ensures forall x | x in w.serverSent :: !x.Ik2? && !x.SessionFrame?
  {
    hide IsReply, Concluded, Began, EncodeAll, InitiatorStart, Respond;
  }

  /** Both sides come to the same decision on pairing. Neither starts, or answers, the key
      exchange while the other is still pairing, whichever of them forgot the other. */
  lemma SamePairingDecision(w: World)
    requires Reachable(w)
    ensures |w.serverRead| >= 2 && |w.clientRead| >= 2 ==>
              |w.serverSent| >= 2 && |w.clientSent| >= 2 &&
              NeedPairing(w.serverSent[1], w.serverRead[1]) == NeedPairing(w.clientSent[1], w.clientRead[1])
    ensures ServerPairs(w.server.pc) ==> forall x | x in w.clientSent :: !x.Ik1? && !x.SessionFrame?
    ensures ClientPairs(w.client.pc) ==> forall x | x in w.serverSent :: !x.Ik2? && !x.SessionFrame?
  {
    hide WorldInv, Reachable;
    ReachableInv(w);
    SameFlags(w);
    if ServerPairs(w.server.pc) { NoRequestYet(w); }
    if ClientPairs(w.client.pc) { NoReplyYet(w); }
  }

  /** The client has read, in the place of the decision after pairing, something that is no approval. */
  predicate Refused(w: World) {
    |w.clientSent| >= 2 && |w.clientRead| >= 4 && NeedPairing(w.clientSent[1], w.clientRead[1]) && w.clientRead[3] != Decision(true)
  }

  /** Slave acts on Master's decision and on nothing else: it goes on to the key exchange after
      pairing only if Master sent an approval, and gives up for good if and only if it has read a
      refusal -- which Master also sends when the user does not answer in time, or it shuts down. */
  lemma DecisionDelivered(w: World)
    requires Reachable(w)
    ensures (w.client.pc.ReadingIk2? || w.client.pc.InSession?) ==> |w.clientSent| >= 2 && |w.clientRead| >= 2
    ensures (w.client.pc.ReadingIk2? || w.client.pc.InSession?) && NeedPairing(w.clientSent[1], w.clientRead[1]) ==>
              |w.serverSent| >= 4 && w.serverSent[3] == Decision(true)
    ensures w.client.pc == C.Ended(C.GiveUp) <==> Refused(w)
    ensures Refused(w) ==> |w.serverSent| >= 4 && w.serverSent[3] == w.clientRead[3] == Decision(false)
  {
    ReachableInv(w);
    hide IsReply, Concluded, Began, EncodeAll, InitiatorStart, Respond;
  }

  /** What a client step can do to how its attempt ends. */
  lemma EndingStep(c: C.Client, e: C.Event)
    ensures var d := C.Step(c, e).client;
            && (c.pc.Ended? ==> d.pc == c.pc)
            && (c.pc.InSession? ==> d.pc == c.pc || d.pc == C.Ended(C.RetryFast))
            && (d.pc == C.Ended(C.RetryFast) ==> c.pc.InSession? || c.pc == d.pc)
  {
    hide InitiatorStart, InitiatorFinish, Encode, Decode, Fingerprint;
  }

  lemma ClientSteps(w: World, e: WorldEvent)
    ensures StepWorld(w, e).client == w.client || exists ce :: StepWorld(w, e).client == C.Step(w.client, ce).client
  {
    hide S.Step, C.Step, EncodeAll;
  }

  ghost predicate WasInSession(ws: seq<World>, i: nat)
    requires i < |ws|
  {
    exists j: nat | j <= i :: ws[j].client.pc.InSession?
  }

  lemma {:induction false} SessionEndsFast(ws: seq<World>, es: seq<WorldEvent>, i: nat)
    requires IsAttempt(ws, es) && i < |ws|
    ensures WasInSession(ws, i) <==> ws[i].client.pc.InSession? || ws[i].client.pc == C.Ended(C.RetryFast)
  {
    hide StepWorld, C.Step;
    if i == 0 {
      assert !ws[0].client.pc.InSession? && !ws[0].client.pc.Ended? by { AttemptStarts(ws, es); }
    } else {
      SessionEndsFast(ws, es, i - 1);
      assert ws[i] == StepWorld(ws[i - 1], es[i - 1]);
      hide IsAttempt;
      ClientSteps(ws[i - 1], es[i - 1]);
      if ws[i].client != ws[i - 1].client {
        var ce :| ws[i].client == C.Step(ws[i - 1].client, ce).client;
        EndingStep(ws[i - 1].client, ce);
      }
      assert WasInSession(ws, i) <==> WasInSession(ws, i - 1) || ws[i].client.pc.InSession?;
    }
  }

  lemma AttemptStarts(ws: seq<World>, es: seq<WorldEvent>)
    requires IsAttempt(ws, es)
    ensures ws[0].client.pc.ReadingId?
  {
    var s, c :| Ready(s, c) && ws[0] == Begin(s, c);
  }

  /** Exactly how an attempt ends: for good if it was refused, with a quick retry if it had been in
      session, and with a retry after the backoff in every other case. */
  lemma EndsAsItWent(ws: seq<World>, es: seq<WorldEvent>, i: nat)
    requires IsAttempt(ws, es) && i < |ws| && ws[i].client.pc.Ended?
    ensures ws[i].client.pc.outcome ==
              if Refused(ws[i]) then C.GiveUp else if WasInSession(ws, i) then C.RetryFast else C.RetryBackoff
  {
    SessionEndsFast(ws, es, i);
    assert Reachable(ws[i]);
    hide IsAttempt, Reachable;
    DecisionDelivered(ws[i]);
  }

  /** While both screens show a fingerprint, they show the same one, of the two real keys. */
  lemma SameFingerprint(w: World)
    requires Reachable(w)
    requires w.server.pc.Prompting? || w.server.pc.Deciding?
    ensures w.server.status == S.Pairing(w.client.id, Fingerprint(Public(w.client.ownStatic), Public(w.server.ownStatic)))
    ensures w.client.pc.ReadingDecision? ==>
              w.client.status == C.Pairing(w.server.id, Fingerprint(Public(w.client.ownStatic), Public(w.server.ownStatic)))
  {
    ReachableInv(w);
    hide IsReply, Concluded, Began, EncodeAll, InitiatorStart, Respond;
  }

  /** The key a pairing server shows, and will remember, is its peer's own. */
  lemma PairedKeyIsTheirs(w: World)
    requires Reachable(w)
    requires w.server.pc.Prompting? || w.server.pc.Deciding?
    ensures w.server.pc.key == Public(w.client.ownStatic) && w.server.pc.peer == w.client.id
  {
    ReachableInv(w);
    hide IsReply, Concluded, Began, EncodeAll, InitiatorStart, Respond;
  }

  /** Which item of either stream is the client's request, and which the server's reply. */
  function RequestAt(w: World): nat
    requires |w.clientSent| >= 2 && |w.clientRead| >= 2
  {
    if NeedPairing(w.clientSent[1], w.clientRead[1]) then 3 else 2
  }

  function ReplyAt(w: World): nat
    requires |w.clientSent| >= 2 && |w.clientRead| >= 2
  {
    if NeedPairing(w.clientSent[1], w.clientRead[1]) then 4 else 2
  }

  /** What the histories say once the client is through, wherever the server is by now. */
  lemma ClientIsThrough(w: World)
    requires WorldInv(w) && w.client.pc.InSession?
    ensures |w.clientSent| >= 2 && |w.clientRead| >= 2
    ensures var q, r := RequestAt(w), ReplyAt(w);
            && |w.serverRead| > q && |w.clientSent| > q && w.serverRead[q] == w.clientSent[q]
            && |w.clientRead| == r + 1 && |w.serverSent| > r && w.clientRead[r] == w.serverSent[r]
            && IsReply(w.server.ownStatic, w.clientSent[q], w.serverSent[r])
            && Concluded(w.client.ownStatic, w.clientSent[q], w.serverSent[r], w.client.pc.result)
            && (w.serverRead != [] && w.clientRead != [] && w.client.pc.peer == w.server.id)
  {
    hide IsReply, Concluded, Began, EncodeAll, InitiatorStart, Respond;
  }

  /** Whenever the client holds keys -- the server may be in session, at its gate, or have hung up
      since, because the key that answered is not the one it trusts -- they are the swapped copies
      of what this very server computed for this client's own request, and each side has the
      other's real identity. */
  lemma ClientKeysAreServers(w: World)
    requires Reachable(w) && w.client.pc.InSession?
    ensures |w.clientSent| >= 2 && |w.clientRead| >= 2 && |w.clientSent| > RequestAt(w) && |w.serverSent| > ReplyAt(w)
    ensures var request, reply := w.clientSent[RequestAt(w)], w.serverSent[ReplyAt(w)];
            IsReply(w.server.ownStatic, request, reply)
    ensures var request, reply := w.clientSent[RequestAt(w)], w.serverSent[ReplyAt(w)];
            var atServer := Respond(w.server.ownStatic, reply.msg2.e.owner, AsMsg1(request)).value.2;
            && atServer.peerStatic == Public(w.client.ownStatic)
            && w.client.pc.result.peerStatic == Public(w.server.ownStatic)
            && w.client.pc.result.keys == TransportKeys(atServer.keys.recvKey, atServer.keys.sendKey)
    ensures w.client.pc.peer == w.server.id
  {
    ReachableInv(w);
    ClientIsThrough(w);
    var request, reply := w.clientSent[RequestAt(w)], w.serverSent[ReplyAt(w)];
    var e, e2, peer := request.msg1.e.owner, reply.msg2.e.owner, w.client.pc.result.peerStatic;
    TamperingIsNoticed(w.client.ownStatic, peer, e, w.server.ownStatic, e2, request.msg1, reply.msg2) by {
      hide Respond, InitiatorStart, InitiatorFinish, WorldInv;
    }
    hide IsReply, Respond, InitiatorStart, InitiatorFinish, EncodeAll, WorldInv;
  }

  lemma ServerIsThrough(w: World)
    requires WorldInv(w) && S.HoldsKeys(w.server.pc) && w.client.pc.InSession?
    ensures |w.clientSent| >= 2 && |w.clientRead| >= 2 && |w.clientSent| > RequestAt(w) && |w.serverSent| > ReplyAt(w)
    ensures var request, reply := w.clientSent[RequestAt(w)], w.serverSent[ReplyAt(w)];
            reply.Ik2? && reply.msg2.e.Public? && Respond(w.server.ownStatic, reply.msg2.e.owner, AsMsg1(request)).Some?
            && w.server.pc.result == Respond(w.server.ownStatic, reply.msg2.e.owner, AsMsg1(request)).value.2
    ensures |w.serverRead| == RequestAt(w) + 1 && |w.clientRead| == ReplyAt(w) + 1 && w.server.pc.peer == w.client.id
  {
    hide Concluded, Began, EncodeAll, InitiatorStart, Respond;
  }

  /** Key agreement. When both sides are through the exchange -- whatever was in their stores,
      however the bytes were cut and delayed, whatever the user did meanwhile -- each has the
      other's real identity, and the two pairs of transport keys are swapped copies. */
  lemma KeysAgree(w: World)
    requires Reachable(w) && S.HoldsKeys(w.server.pc) && w.client.pc.InSession?
    ensures var atServer, atClient := w.server.pc.result, w.client.pc.result;
            && atServer.peerStatic == Public(w.client.ownStatic) && atClient.peerStatic == Public(w.server.ownStatic)
            && atClient.keys == TransportKeys(atServer.keys.recvKey, atServer.keys.sendKey)
    ensures w.server.pc.peer == w.client.id && w.client.pc.peer == w.server.id
  {
    hide WorldInv, Reachable, IsReply, Respond;
    ReachableInv(w);
    ServerIsThrough(w);
    ClientKeysAreServers(w);
  }

  lemma StatusFollows(w: World)
    requires WorldInv(w)
    ensures w.server.pc.Announcing? || w.server.pc.Greeting? || w.server.pc.Opening? || w.server.pc.InSession? ==>
              w.server.status == S.Connected(w.server.pc.peer, w.server.pc.result.keys.recvKey)
    ensures w.client.pc.InSession? ==> w.client.status == C.Connected(w.client.pc.peer, w.client.pc.result.keys.sendKey)
  {
    hide ServerTalk, ClientTalk, ServerKeyed, ClientKeyed, Stream;
  }

  /** Both status lines name the other side, and the audio key they publish is the same. */
  lemma SameAudioKey(w: World)
    requires Reachable(w) && w.client.pc.InSession?
    requires w.server.pc.Announcing? || w.server.pc.Greeting? || w.server.pc.Opening? || w.server.pc.InSession?
    ensures w.server.status.Connected? && w.client.status.Connected?
    ensures w.server.status.audioKey == w.client.status.audioKey
    ensures w.server.status.peer == w.client.id && w.client.status.peer == w.server.id
  {
    hide WorldInv, Reachable;
    KeysAgree(w);
    ReachableInv(w);
    StatusFollows(w);
  }

  /** The handshake leaves nothing behind and takes nothing of what follows: once both sides are
      through, what is in flight, in both directions, is session frames alone, and the frames of
      each direction are numbered from zero with none left out. */
  lemma SessionStartsClean(w: World)
    requires Reachable(w) && S.HoldsKeys(w.server.pc) && w.client.pc.InSession?
    ensures |w.clientSent| == |w.serverRead| + w.client.sendNonce
    ensures |w.serverSent| == |w.clientRead| + w.server.sendNonce
    ensures w.toServer == EncodeAll(w.clientSent[|w.serverRead|..]) && Frames(w.clientSent, |w.serverRead|)
    ensures w.toClient == EncodeAll(w.serverSent[|w.clientRead|..]) && Frames(w.serverSent, |w.clientRead|)
  {
    hide Reachable, ServerInv, ClientInv, EncodeAll, Frames;
    ReachableInv(w);
    FramesFollow(w);
    assert [] + w.toServer == w.toServer && [] + w.toClient == w.toClient;
  }

  lemma FramesFollow(w: World)
    requires WorldInv(w) && S.HoldsKeys(w.server.pc) && w.client.pc.InSession?
    ensures |w.clientSent| == |w.serverRead| + w.client.sendNonce && Frames(w.clientSent, |w.serverRead|)
    ensures |w.serverSent| == |w.clientRead| + w.server.sendNonce && Frames(w.serverSent, |w.clientRead|)
  {
    hide IsReply, Concluded, EncodeAll, Frames;
  }

  /** No attempt seals two frames of one direction under one nonce, the gate's go-away included. */
  lemma NoncesNeverRepeat(w: World, i: nat, j: nat)
    requires Reachable(w)
    ensures i < j < |w.serverSent| && w.serverSent[i].SessionFrame? && w.serverSent[j].SessionFrame? ==>
              w.serverSent[i].nonce < w.serverSent[j].nonce
    ensures i < j < |w.clientSent| && w.clientSent[i].SessionFrame? && w.clientSent[j].SessionFrame? ==>
              w.clientSent[i].nonce < w.clientSent[j].nonce
  {
    ReachableInv(w);
    hide Reachable, WorldInv;
    ServerNonces(w.server, w.serverRead, w.serverSent, i, j);
    ClientNonces(w.client, w.clientRead, w.clientSent, i, j);
  }

  lemma ServerNonces(s: S.Server, read: seq<Word>, sent: seq<Word>, i: nat, j: nat)
    requires ServerTalk(s.id, s.ownStatic, read, sent)
    ensures i < j < |sent| && sent[i].SessionFrame? && sent[j].SessionFrame? ==> sent[i].nonce < sent[j].nonce
  {
    hide Respond;
  }

  lemma ClientNonces(c: C.Client, read: seq<Word>, sent: seq<Word>, i: nat, j: nat)
    requires ClientTalk(c, read, sent)
    ensures i < j < |sent| && sent[i].SessionFrame? && sent[j].SessionFrame? ==> sent[i].nonce < sent[j].nonce
  {
  }
}

/** An honest attempt gets through. The agreement results say what two connected sides agree on;
    these say that they do get connected. */
module HonestAttempt {
  import opened Common
  import opened NoisePrimitives
  import opened NoiseIk
  import opened Wire
  import opened Handshake
  import opened HandshakeAgreement
  import S = TcpServer
  import C = TcpClient

  /** Each side knows the other's real key, or none. */
  predicate HonestStores(s: S.Server, c: C.Client) {
    && Lookup(s.knownPeers, c.id) in {None, Some(Public(c.ownStatic))}
    && Lookup(c.knownPeers, s.id) in {None, Some(Public(s.ownStatic))}
  }

  /** Bytes arrive, in any portions; the accept thread goes on; and the user, if asked, approves. */
  predicate HonestEvent(e: WorldEvent) {
    e.ServerHears? || e.ClientHears? || (e.ServerDoes? && (e.serverEvent.Continue? || e.serverEvent.Approve?))
  }

  /** The accept thread has steps to take that wait for nobody but the user. */
  predicate GoesOn(pc: S.Pc) {
    pc.Prompting? || pc.Deciding? || pc.Reprompting? || pc.Redeciding? || pc.Announcing? || pc.Greeting? || pc.Opening?
  }

  ghost predicate HonestServer(x: S.Server, s: S.Server, c: C.Client) {
    var known := Lookup(x.knownPeers, c.id);
    && x.id == s.id && x.ownStatic == s.ownStatic && x.running && known in {None, Some(Public(c.ownStatic))}
    && match x.pc
       case ReadingId(_) => true
       case ReadingFlag(peer, trusted, _) => peer == c.id && trusted == known
       case ReadingKey(peer, _) => peer == c.id
       case Prompting(peer, key) => peer == c.id && key == Public(c.ownStatic)
       case Deciding(peer, key) => peer == c.id && key == Public(c.ownStatic) && !x.pairingDecision.Rejected?
       case ReadingIk1(peer, key, _) => peer == c.id && key == Public(c.ownStatic) && known.Some?
       case Redeciding(_, _) => !x.pairingDecision.Rejected? && known.Some?
       case InSession(_, _) => !x.disconnectRequested && known.Some?
       case _ => GoesOn(x.pc) && known.Some?
  }

  ghost predicate HonestClient(y: C.Client, s: S.Server, c: C.Client) {
    var known := Lookup(y.knownPeers, s.id);
    && y.id == c.id && y.ownStatic == c.ownStatic && known in {None, Some(Public(s.ownStatic))}
    && match y.pc
       case ReadingId(_) => true
       case ReadingFlag(peer, stored, _) => peer == s.id && stored == known
       case ReadingKey(peer, _) => peer == s.id
       case ReadingDecision(peer, key, _) => peer == s.id && key == Public(s.ownStatic)
       case ReadingIk2(peer, rs, _, _, _) => peer == s.id && rs == Public(s.ownStatic) && known.Some?
       case InSession(_, _) => known.Some?
       case _ => false
  }

  ghost predicate Honest(w: World, s: S.Server, c: C.Client) {
    && WorldInv(w) && HonestServer(w.server, s, c) && HonestClient(w.client, s, c)
    && Decision(false) !in w.serverSent
  }

  lemma HonestParts(w: World, s: S.Server, c: C.Client)
    requires Honest(w, s, c)
    ensures HonestServer(w.server, s, c) && HonestClient(w.client, s, c) && WorldInv(w)
  {
    hide HonestServer, HonestClient, WorldInv;
  }

  /** The server reads the item meant for it, and does not hang up. */
  lemma ServerReadsOn(w: World, s: S.Server, c: C.Client, ephemeral: nat)
    requires Honest(w, s, c) && S.ReadLen(w.server.pc) > 0 && |w.serverRead| < |w.clientSent|
    ensures var out := S.AfterRead(w.server, w.clientSent[|w.serverRead|], ephemeral);
            HonestServer(out.server, s, c) && Decision(false) !in out.sent
  {
    hide EncodeAll, Encode, IsReply, Concluded, Stream, Fingerprint, Respond, InitiatorStart, InitiatorFinish;
    if w.server.pc.ReadingIk1? {
      RequestIsHonest(w, s, c);
      hide WorldInv;
      ServerAnswers(w.server, s, c, w.client.pc.ephemeral, ephemeral);
    } else {
      ServerItem(w, s, c);
      hide WorldInv;
    }
  }

  /** Before the exchange the server reads id, flag and key. */
  lemma ServerItem(w: World, s: S.Server, c: C.Client)
    requires Honest(w, s, c) && S.ReadLen(w.server.pc) > 0 && !w.server.pc.ReadingIk1? && |w.serverRead| < |w.clientSent|
    ensures var next := w.clientSent[|w.serverRead|];
            && (w.server.pc.ReadingId? ==> next == DeviceId(c.id))
            && (w.server.pc.ReadingKey? ==> next == RawKey(Public(c.ownStatic)))
  {
    hide EncodeAll, Encode, IsReply, Concluded, Fingerprint, Respond, InitiatorStart, InitiatorFinish;
  }

  lemma ServerAnswers(x: S.Server, s: S.Server, c: C.Client, e: nat, e2: nat)
    requires HonestServer(x, s, c) && x.pc.ReadingIk1?
    requires InitiatorStart(c.ownStatic, Public(s.ownStatic), e).Some?
    ensures var m1 := InitiatorStart(c.ownStatic, Public(s.ownStatic), e).value.1;
            var out := S.AfterRead(x, Ik1(m1), e2);
            HonestServer(out.server, s, c) && Decision(false) !in out.sent
  {
    hide Respond, InitiatorStart, InitiatorFinish, ResponderRead, Fingerprint;
    HonestRunAgrees(c.ownStatic, s.ownStatic, e, e2);
  }

  /** What the server reads as the client's first message is that message. */
  lemma RequestIsHonest(w: World, s: S.Server, c: C.Client)
    requires Honest(w, s, c) && w.server.pc.ReadingIk1? && |w.serverRead| < |w.clientSent|
    ensures w.client.pc.ReadingIk2? && InitiatorStart(c.ownStatic, Public(s.ownStatic), w.client.pc.ephemeral).Some?
    ensures w.clientSent[|w.serverRead|]
            == Ik1(InitiatorStart(c.ownStatic, Public(s.ownStatic), w.client.pc.ephemeral).value.1)
  {
    hide EncodeAll, Encode, IsReply, Concluded, InitiatorStart, Respond;
  }

  lemma ClientReadsOn(w: World, s: S.Server, c: C.Client, ephemeral: nat)
    requires Honest(w, s, c) && C.ReadLen(w.client.pc) > 0 && |w.clientRead| < |w.serverSent|
    ensures HonestClient(C.AfterRead(w.client, w.serverSent[|w.clientRead|], ephemeral).client, s, c)
  {
    hide EncodeAll, Encode, IsReply, Concluded, Fingerprint, Respond, InitiatorStart, InitiatorFinish;
    var next := w.serverSent[|w.clientRead|];
    if w.client.pc.ReadingIk2? {
      ReplyIsHonest(w, s, c);
      hide WorldInv, Honest;
    } else {
      ClientItem(w, s, c);
      hide WorldInv, Honest;
      ClientStarts(w.client, s, c, next, ephemeral);
    }
  }

  /** Before the exchange the client reads id, flag, key and an approval. */
  lemma ClientItem(w: World, s: S.Server, c: C.Client)
    requires Honest(w, s, c) && C.ReadLen(w.client.pc) > 0 && !w.client.pc.ReadingIk2? && |w.clientRead| < |w.serverSent|
    ensures var next := w.serverSent[|w.clientRead|];
            && (w.client.pc.ReadingId? ==> next == DeviceId(s.id))
            && (w.client.pc.ReadingKey? ==> next == RawKey(Public(s.ownStatic)))
            && (w.client.pc.ReadingDecision? ==> next == Decision(true))
  {
    hide EncodeAll, Encode, IsReply, Concluded, Fingerprint, Respond, InitiatorStart, InitiatorFinish;
    var next := w.serverSent[|w.clientRead|];
    if w.client.pc.ReadingDecision? {
      assert next.Decision? && next in w.serverSent;
      assert next == Decision(next.approved);
    }
  }

  lemma ClientStarts(y: C.Client, s: S.Server, c: C.Client, next: Word, ephemeral: nat)
    requires HonestClient(y, s, c) && C.ReadLen(y.pc) > 0 && !y.pc.ReadingIk2?
    requires y.pc.ReadingId? ==> next == DeviceId(s.id)
    requires y.pc.ReadingKey? ==> next == RawKey(Public(s.ownStatic))
    requires y.pc.ReadingDecision? ==> next == Decision(true)
    ensures HonestClient(C.AfterRead(y, next, ephemeral).client, s, c)
  {
    hide InitiatorStart, InitiatorFinish, Fingerprint;
    if y.pc.ReadingFlag? && y.pc.known.Some? && !AsFlag(next) {
      ExchangeStarts(y, s, c, ephemeral, [next]);
    } else if y.pc.ReadingDecision? {
      ExchangeStarts(y.(knownPeers := y.knownPeers[y.pc.peer := y.pc.key]), s, c, ephemeral, [next]);
    }
  }

  lemma ExchangeStarts(y: C.Client, s: S.Server, c: C.Client, ephemeral: nat, read: seq<Word>)
    requires y.id == c.id && y.ownStatic == c.ownStatic && Lookup(y.knownPeers, s.id) == Some(Public(s.ownStatic))
    ensures HonestClient(C.StartIk(y, s.id, Public(s.ownStatic), ephemeral, read).client, s, c)
  {
    hide Respond, InitiatorStart, InitiatorFinish, ResponderRead;
    assert InitiatorStart(c.ownStatic, Public(s.ownStatic), ephemeral).Some? by {
      HonestRunAgrees(c.ownStatic, s.ownStatic, ephemeral, 0);
    }
  }

  /** What the client reads as the server's reply finishes its exchange. */
  lemma ReplyIsHonest(w: World, s: S.Server, c: C.Client)
    requires Honest(w, s, c) && w.client.pc.ReadingIk2? && |w.clientRead| < |w.serverSent|
    ensures InitiatorFinish(w.client.pc.state, c.ownStatic, Public(s.ownStatic), w.client.pc.ephemeral,
                            AsMsg2(w.serverSent[|w.clientRead|])).Some?
  {
    hide EncodeAll, Encode, Concluded, InitiatorStart, InitiatorFinish, Respond, ResponderRead;
    var reply := w.serverSent[|w.clientRead|];
    assert reply.Ik2? && reply.msg2.e.Public?;
    HonestRunAgrees(c.ownStatic, s.ownStatic, w.client.pc.ephemeral, reply.msg2.e.owner);
  }

  // ------------------------------------------------------------------------------------
  // Every schedule
  // ------------------------------------------------------------------------------------

  lemma ServerWaits(x: S.Server, s: S.Server, c: C.Client, got: seq<Cell>)
    requires HonestServer(x, s, c)
    ensures HonestServer(x.(pc := S.WithGot(x.pc, got)), s, c)
  {
  }

  lemma ClientWaits(y: C.Client, s: S.Server, c: C.Client, got: seq<Cell>)
    requires HonestClient(y, s, c)
    ensures HonestClient(y.(pc := C.WithGot(y.pc, got)), s, c)
  {
  }

  /** What bytes do to either side, read by read. */
  lemma ServerHearing(w: World, n: nat, ephemeral: nat)
    requires 0 < n <= |w.toServer| && |S.Got(w.server.pc)| + n <= S.ReadLen(w.server.pc)
    ensures var got, next := S.Got(w.server.pc) + w.toServer[..n], StepWorld(w, ServerHears(n, ephemeral));
            && next.client == w.client
            && if |got| < S.ReadLen(w.server.pc)
               then next.server == w.server.(pc := S.WithGot(w.server.pc, got)) && next.serverSent == w.serverSent + []
               else var out := S.AfterRead(w.server, Decode(got), ephemeral);
                    next.server == out.server && next.serverSent == w.serverSent + out.sent
  {
    hide S.AfterRead, Decode, EncodeAll;
  }

  lemma ClientHearing(w: World, n: nat, ephemeral: nat)
    requires 0 < n <= |w.toClient| && |C.Got(w.client.pc)| + n <= C.ReadLen(w.client.pc)
    ensures var got, next := C.Got(w.client.pc) + w.toClient[..n], StepWorld(w, ClientHears(n, ephemeral));
            && next.server == w.server && next.serverSent == w.serverSent
            && if |got| < C.ReadLen(w.client.pc) then next.client == w.client.(pc := C.WithGot(w.client.pc, got))
               else next.client == C.AfterRead(w.client, Decode(got), ephemeral).client
  {
    hide C.AfterRead, Decode, EncodeAll;
  }

  lemma ServerHearsHonest(w: World, s: S.Server, c: C.Client, n: nat, ephemeral: nat)
    requires Honest(w, s, c) && 0 < n <= |w.toServer| && |S.Got(w.server.pc)| + n <= S.ReadLen(w.server.pc)
    ensures Honest(StepWorld(w, ServerHears(n, ephemeral)), s, c)
  {
    hide WorldInv, HonestServer, HonestClient, Stream, EncodeAll, Encode, Decode, S.AfterRead, StepWorld;
    ServerHearsInv(w, n, ephemeral);
    ServerReadFitsNext(w, n);
    ServerHearing(w, n, ephemeral);
    var got := S.Got(w.server.pc) + w.toServer[..n];
    if |got| == S.ReadLen(w.server.pc) { ServerReadsOn(w, s, c, ephemeral); } else { ServerWaits(w.server, s, c, got); }
  }

  lemma ClientHearsHonest(w: World, s: S.Server, c: C.Client, n: nat, ephemeral: nat)
    requires Honest(w, s, c) && 0 < n <= |w.toClient| && |C.Got(w.client.pc)| + n <= C.ReadLen(w.client.pc)
    ensures Honest(StepWorld(w, ClientHears(n, ephemeral)), s, c)
  {
    hide WorldInv, HonestServer, HonestClient, Stream, EncodeAll, Encode, Decode, C.AfterRead, StepWorld;
    ClientHearsInv(w, n, ephemeral);
    ClientReadFitsNext(w, n);
    ClientHearing(w, n, ephemeral);
    var got := C.Got(w.client.pc) + w.toClient[..n];
    if |got| == C.ReadLen(w.client.pc) { ClientReadsOn(w, s, c, ephemeral); } else { ClientWaits(w.client, s, c, got); }
  }

  lemma ServerGoesOn(x: S.Server, s: S.Server, c: C.Client, e: S.Event)
    requires HonestServer(x, s, c) && (e.Continue? || e.Approve?)
    ensures HonestServer(S.Step(x, e).server, s, c) && Decision(false) !in S.Step(x, e).sent
  {
    hide Respond, Encode, Decode, Fingerprint, S.AfterRead;
  }

  lemma ServerAlone(w: World, e: S.Event)
    requires e.Continue? || e.Approve?
    ensures var v, out := StepWorld(w, ServerDoes(e)), S.Step(w.server, e);
            v.server == out.server && v.client == w.client && v.serverSent == w.serverSent + out.sent
  {
    hide S.Step, EncodeAll;
  }

  lemma StepHonest(w: World, s: S.Server, c: C.Client, e: WorldEvent)
    requires Honest(w, s, c) && HonestEvent(e)
    ensures Honest(StepWorld(w, e), s, c)
  {
    match e
    case ServerHears(n, ephemeral) =>
      hide Honest, ServerActs;
      if !(n == 0 || n > |w.toServer| || |S.Got(w.server.pc)| + n > S.ReadLen(w.server.pc)) {
        ServerHearsHonest(w, s, c, n, ephemeral);
      }
    case ClientHears(n, ephemeral) =>
      hide Honest, ClientActs;
      if !(n == 0 || n > |w.toClient| || |C.Got(w.client.pc)| + n > C.ReadLen(w.client.pc)) {
        ClientHearsHonest(w, s, c, n, ephemeral);
      }
    case ServerDoes(event) =>
      ServerDoesInv(w, event);
      ServerGoesOn(w.server, s, c, event);
      ServerAlone(w, event);
      hide WorldInv, HonestServer, HonestClient, S.Step, StepWorld;
  }

  ghost predicate IsHonestAttempt(ws: seq<World>, es: seq<WorldEvent>, s: S.Server, c: C.Client) {
    && IsAttempt(ws, es) && Ready(s, c) && ws[0] == Begin(s, c) && HonestStores(s, c)
    && forall e | e in es :: HonestEvent(e)
  }

  lemma {:induction false} StaysHonest(ws: seq<World>, es: seq<WorldEvent>, s: S.Server, c: C.Client, i: nat)
    requires IsHonestAttempt(ws, es, s, c) && i < |ws|
    ensures Honest(ws[i], s, c)
  {
    hide Honest, StepWorld, Begin, HonestEvent, HonestStores;
    if i == 0 {
      HonestBegin(s, c);
    } else {
      StaysHonest(ws, es, s, c, i - 1);
      assert ws[i] == StepWorld(ws[i - 1], es[i - 1]);
      assert es[i - 1] in es;
      StepHonest(ws[i - 1], s, c, es[i - 1]);
    }
  }

  lemma HonestBegin(s: S.Server, c: C.Client)
    requires Ready(s, c) && HonestStores(s, c)
    ensures Honest(Begin(s, c), s, c)
  {
    BeginInv(s, c);
    hide WorldInv, EncodeAll, Encode;
  }

  /** Nothing more is coming for either side's current read, and the accept thread waits. */
  predicate AtRest(w: World) {
    && (S.ReadLen(w.server.pc) > 0 ==> w.toServer == [])
    && (C.ReadLen(w.client.pc) > 0 ==> w.toClient == [])
    && !GoesOn(w.server.pc)
  }

  lemma NothingUnread(read: seq<Word>, got: seq<Cell>, sent: seq<Word>, len: nat)
    requires Stream(read, got, [], sent, false) && |got| < len
    requires |read| < |sent| ==> Length(sent[|read|]) == len
    ensures |read| == |sent|
  {
    assert got + [] == got;
    UnreadIsLong(sent, |read|);
    hide EncodeAll;
  }

  lemma UnreadIsLong(sent: seq<Word>, k: nat)
    requires k <= |sent|
    ensures k < |sent| ==> |EncodeAll(sent[k..])| >= Length(sent[k])
  {
    if k < |sent| { assert sent[k..][0] == sent[k]; }
  }

  lemma RestIsConnected(w: World, s: S.Server, c: C.Client)
    requires Honest(w, s, c) && w.serverRead <= w.clientSent && w.clientRead <= w.serverSent
    requires S.ReadLen(w.server.pc) > 0 ==> |w.serverRead| == |w.clientSent|
    requires C.ReadLen(w.client.pc) > 0 ==> |w.clientRead| == |w.serverSent|
    requires !GoesOn(w.server.pc)
    ensures w.server.pc.InSession? && w.client.pc.InSession?
  {
    hide EncodeAll, Encode, IsReply, Concluded, Fingerprint, Respond, InitiatorStart, InitiatorFinish, Stream, Began;
  }

  lemma ReadsShort(w: World)
    requires WorldInv(w)
    ensures S.ReadLen(w.server.pc) > 0 ==> |S.Got(w.server.pc)| < S.ReadLen(w.server.pc)
    ensures C.ReadLen(w.client.pc) > 0 ==> |C.Got(w.client.pc)| < C.ReadLen(w.client.pc)
  {
    hide EncodeAll, Encode, IsReply, Concluded, Respond, InitiatorStart, InitiatorFinish, Stream, Began;
  }

  lemma HonestRest(w: World, s: S.Server, c: C.Client)
    requires Honest(w, s, c) && AtRest(w)
    ensures w.server.pc.InSession? && w.client.pc.InSession?
  {
    ReadsShort(w);
    if S.ReadLen(w.server.pc) > 0 {
      if |w.serverRead| < |w.clientSent| { ServerReadFits(w); }
      NothingUnread(w.serverRead, S.Got(w.server.pc), w.clientSent, S.ReadLen(w.server.pc)) by { HeardStreams(w); }
    }
    if C.ReadLen(w.client.pc) > 0 {
      if |w.clientRead| < |w.serverSent| { ClientReadFits(w); }
      NothingUnread(w.clientRead, C.Got(w.client.pc), w.serverSent, C.ReadLen(w.client.pc)) by { HeardStreams(w); }
    }
    InOrder(w);
    hide Honest;
    RestIsConnected(w, s, c);
  }

  lemma InOrder(w: World)
    requires WorldInv(w)
    ensures w.serverRead <= w.clientSent && w.clientRead <= w.serverSent
  {
    hide ServerInv, ClientInv, EncodeAll;
  }

  lemma HeardStreams(w: World)
    requires WorldInv(w)
    ensures S.ReadLen(w.server.pc) > 0 ==> Stream(w.serverRead, S.Got(w.server.pc), w.toServer, w.clientSent, false)
    ensures C.ReadLen(w.client.pc) > 0 ==> Stream(w.clientRead, C.Got(w.client.pc), w.toClient, w.serverSent, false)
  {
    hide ServerInv, ClientInv, EncodeAll;
  }

  // ------------------------------------------------------------------------------------
  // Getting there
  // ------------------------------------------------------------------------------------

  /** More than any read is for. */
  const STAGE: nat := 1000

  function ServerStage(x: S.Server): nat {
    match x.pc
    case ReadingId(_) => 12
    case ReadingFlag(_, _, _) => 11
    case ReadingKey(_, _) => 10
    case Prompting(_, _) => 9
    case Deciding(_, _) => if x.pairingDecision.Approved? then 7 else 8
    case ReadingIk1(_, _, _) => 6
    case Reprompting(_, _) => 5
    case Redeciding(_, _) => if x.pairingDecision.Approved? then 3 else 4
    case Announcing(_, _) => 2
    case Greeting(_, _) => 1
    case _ => 0
  }

  function ClientStage(pc: C.Pc): nat {
    match pc
    case ReadingId(_) => 5
    case ReadingFlag(_, _, _) => 4
    case ReadingKey(_, _) => 3
    case ReadingDecision(_, _, _) => 2
    case ReadingIk2(_, _, _, _, _) => 1
    case _ => 0
  }

  function ServerRank(x: S.Server): int { STAGE * ServerStage(x) + S.ReadLen(x.pc) - |S.Got(x.pc)| + if x.pc.Opening? then 1 else 0 }

  function ClientRank(pc: C.Pc): int { STAGE * ClientStage(pc) + C.ReadLen(pc) - |C.Got(pc)| }

  /** What is still ahead of both sides. */
  function Rank(w: World): int { ServerRank(w.server) + ClientRank(w.client.pc) }

  lemma RankIsNat(w: World)
    requires WorldInv(w)
    ensures ServerRank(w.server) >= 0 && ClientRank(w.client.pc) >= 0
  {
    ReadsShort(w);
    assert S.ReadLen(w.server.pc) >= |S.Got(w.server.pc)| && C.ReadLen(w.client.pc) >= |C.Got(w.client.pc)|;
    hide WorldInv, S.ReadLen, C.ReadLen, S.Got, C.Got, ServerStage, ClientStage;
  }

  /** Reading its item takes a side on, unless it gives up. */
  lemma ServerReadDrops(x: S.Server, w: Word, ephemeral: nat)
    requires S.ReadLen(x.pc) > 0
    ensures var t := S.AfterRead(x, w, ephemeral).server; t.pc.Listening? || (ServerStage(t) < ServerStage(x) && S.Got(t.pc) == [])
  {
    hide Respond, Fingerprint;
  }

  lemma ClientReadDrops(y: C.Client, w: Word, ephemeral: nat)
    requires C.ReadLen(y.pc) > 0
    ensures var t := C.AfterRead(y, w, ephemeral).client; t.pc.Ended? || (ClientStage(t.pc) < ClientStage(y.pc) && C.Got(t.pc) == [])
  {
    hide InitiatorStart, InitiatorFinish, Fingerprint;
  }

  lemma ServerRankDrops(x: S.Server, t: S.Server)
    requires S.ReadLen(x.pc) >= |S.Got(x.pc)|
    requires ServerStage(t) < ServerStage(x) && S.Got(t.pc) == []
    ensures ServerRank(t) < ServerRank(x)
  {
    assert 0 <= S.ReadLen(t.pc) < STAGE - 1;
    hide S.ReadLen, ServerStage, S.Got;
  }

  lemma ClientRankDrops(x: C.Pc, t: C.Pc)
    requires C.ReadLen(x) >= |C.Got(x)|
    requires ClientStage(t) < ClientStage(x) && C.Got(t) == []
    ensures ClientRank(t) < ClientRank(x)
  {
    assert 0 <= C.ReadLen(t) < STAGE;
    hide C.ReadLen, ClientStage, C.Got;
  }

  lemma NotEnded(x: S.Server, y: C.Client, s: S.Server, c: C.Client)
    ensures HonestServer(x, s, c) ==> !x.pc.Listening?
    ensures HonestClient(y, s, c) ==> !y.pc.Ended?
  {
  }

  lemma ServerHearsRank(w: World, s: S.Server, c: C.Client, n: nat, ephemeral: nat)
    requires Honest(w, s, c) && 0 < n <= |w.toServer| && |S.Got(w.server.pc)| + n <= S.ReadLen(w.server.pc)
    ensures var v := StepWorld(w, ServerHears(n, ephemeral)); ServerRank(v.server) < ServerRank(w.server) && v.client == w.client
  {
    ServerHearsHonest(w, s, c, n, ephemeral);
    ServerHearing(w, n, ephemeral);
    var got := S.Got(w.server.pc) + w.toServer[..n];
    var v := StepWorld(w, ServerHears(n, ephemeral));
    HonestParts(v, s, c);
    NotEnded(v.server, v.client, s, c);
    hide StepWorld, Decode, Honest, HonestServer, S.AfterRead;
    if |got| < S.ReadLen(w.server.pc) {
      hide ServerRank;
      ServerWaitsRank(w.server, got);
    } else {
      hide ServerStage, ServerRank;
      ServerReadDrops(w.server, Decode(got), ephemeral);
      ServerRankDrops(w.server, v.server);
    }
  }

  lemma ServerWaitsRank(x: S.Server, got: seq<Cell>)
    requires |S.Got(x.pc)| < |got| < S.ReadLen(x.pc)
    ensures ServerRank(x.(pc := S.WithGot(x.pc, got))) < ServerRank(x)
  {
  }

  lemma ClientWaitsRank(x: C.Pc, got: seq<Cell>)
    requires |C.Got(x)| < |got| < C.ReadLen(x)
    ensures ClientRank(C.WithGot(x, got)) < ClientRank(x)
  {
  }

  lemma ClientHearsRank(w: World, s: S.Server, c: C.Client, n: nat, ephemeral: nat)
    requires Honest(w, s, c) && 0 < n <= |w.toClient| && |C.Got(w.client.pc)| + n <= C.ReadLen(w.client.pc)
    ensures var v := StepWorld(w, ClientHears(n, ephemeral)); ClientRank(v.client.pc) < ClientRank(w.client.pc) && v.server == w.server
  {
    ClientHearsHonest(w, s, c, n, ephemeral);
    ClientHearing(w, n, ephemeral);
    var got := C.Got(w.client.pc) + w.toClient[..n];
    var v := StepWorld(w, ClientHears(n, ephemeral));
    HonestParts(v, s, c);
    NotEnded(v.server, v.client, s, c);
    hide StepWorld, Decode, Honest, HonestClient, C.AfterRead;
    if |got| < C.ReadLen(w.client.pc) {
      hide ClientRank;
      ClientWaitsRank(w.client.pc, got);
    } else {
      hide ClientStage, ClientRank;
      ClientReadDrops(w.client, Decode(got), ephemeral);
      ClientRankDrops(w.client.pc, v.client.pc);
    }
  }

  lemma ServerGoesRank(x: S.Server, s: S.Server, c: C.Client, e: S.Event)
    requires HonestServer(x, s, c) && (e.Continue? || e.Approve?)
    ensures var t := S.Step(x, e).server;
            && ServerRank(t) <= ServerRank(x)
            && (GoesOn(x.pc) && e == GoOn(x) ==> ServerRank(t) < ServerRank(x))
  {
    match e
    case Continue => hide S.AfterRead, S.Arrived, Respond, Encode, Decode, Fingerprint;
    case Approve => hide S.AfterRead, S.Arrived, S.Proceed, S.Decide, S.Redecide, S.LeaveSession;
  }

  /** The step that the accept thread waits for: the user's approval, or its own. */
  function GoOn(x: S.Server): S.Event {
    if (x.pc.Deciding? || x.pc.Redeciding?) && !x.pairingDecision.Approved? then S.Approve else S.Continue
  }

  /** No honest event takes an attempt back, and every delivery takes it forward. */
  lemma NeverBack(w: World, s: S.Server, c: C.Client, e: WorldEvent)
    requires Honest(w, s, c) && HonestEvent(e)
    ensures Rank(StepWorld(w, e)) <= Rank(w)
    ensures !e.ServerDoes? && StepWorld(w, e) != w ==> Rank(StepWorld(w, e)) < Rank(w)
  {
    hide Honest, ServerRank, ClientRank;
    match e
    case ServerHears(n, ephemeral) =>
      if !(n == 0 || n > |w.toServer| || |S.Got(w.server.pc)| + n > S.ReadLen(w.server.pc)) { ServerHearsRank(w, s, c, n, ephemeral); }
    case ClientHears(n, ephemeral) =>
      if !(n == 0 || n > |w.toClient| || |C.Got(w.client.pc)| + n > C.ReadLen(w.client.pc)) { ClientHearsRank(w, s, c, n, ephemeral); }
    case ServerDoes(event) =>
      assert HonestServer(w.server, s, c) by { hide *; HonestParts(w, s, c); }
      hide S.Step;
      ServerAlone(w, event);
      ServerGoesRank(w.server, s, c, event);
  }

  /** What takes an attempt forward that is not at rest. */
  function Forward(w: World, ephemeral: nat): WorldEvent {
    if S.ReadLen(w.server.pc) > 0 && w.toServer != [] then ServerHears(1, ephemeral)
    else if C.ReadLen(w.client.pc) > 0 && w.toClient != [] then ClientHears(1, ephemeral)
    else ServerDoes(GoOn(w.server))
  }

  lemma ForwardLowers(w: World, s: S.Server, c: C.Client, ephemeral: nat)
    requires Honest(w, s, c) && !AtRest(w)
    ensures HonestEvent(Forward(w, ephemeral)) && Rank(StepWorld(w, Forward(w, ephemeral))) < Rank(w)
  {
    HonestParts(w, s, c);
    ReadsShort(w);
    hide Honest, WorldInv, HonestServer, ServerRank, ClientRank, StepWorld, S.Step;
    if S.ReadLen(w.server.pc) > 0 && w.toServer != [] { ServerHearsRank(w, s, c, 1, ephemeral); }
    else if C.ReadLen(w.client.pc) > 0 && w.toClient != [] { ClientHearsRank(w, s, c, 1, ephemeral); }
    else {
      ServerAlone(w, GoOn(w.server));
      ServerGoesRank(w.server, s, c, GoOn(w.server));
    }
  }

  /** An honest attempt that got through leaves each side with the other's real key in its store. */
  predicate KnowEachOther(s: S.Server, c: C.Client) {
    Lookup(s.knownPeers, c.id) == Some(Public(c.ownStatic)) && Lookup(c.knownPeers, s.id) == Some(Public(s.ownStatic))
  }

  lemma ConnectedKnow(w: World, s: S.Server, c: C.Client)
    requires Honest(w, s, c) && w.server.pc.InSession? && w.client.pc.InSession?
    ensures KnowEachOther(w.server, w.client) && w.server.id == s.id && w.client.id == c.id
  {
    hide WorldInv;
  }

  /** However the bytes are cut and delayed and the two sides' steps are ordered, whichever of the two
      has forgotten the other, and whether or not the device was kicked before: an honest attempt
      that is at rest is connected on both sides, and one that is not can be taken forward. What
      is ahead of it never grows, so it takes only so many steps forward until it is at rest. */
  lemma HonestAttemptConnects(ws: seq<World>, es: seq<WorldEvent>, s: S.Server, c: C.Client, i: nat, ephemeral: nat)
    requires IsHonestAttempt(ws, es, s, c) && i < |ws|
    ensures AtRest(ws[i]) ==>
              ws[i].server.pc.InSession? && ws[i].client.pc.InSession? && KnowEachOther(ws[i].server, ws[i].client)
    ensures !AtRest(ws[i]) ==> HonestEvent(Forward(ws[i], ephemeral)) && Rank(StepWorld(ws[i], Forward(ws[i], ephemeral))) < Rank(ws[i])
    ensures Rank(ws[i]) >= 0 && (i < |es| ==> Rank(ws[i + 1]) <= Rank(ws[i]))
  {
    StaysHonest(ws, es, s, c, i);
    HonestParts(ws[i], s, c);
    RankIsNat(ws[i]);
    if i < |es| {
      assert es[i] in es && ws[i + 1] == StepWorld(ws[i], es[i]);
      NeverBack(ws[i], s, c, es[i]);
    }
    hide IsHonestAttempt, Honest, StepWorld, Rank, ServerRank, ClientRank, HonestServer, WorldInv, Forward, HonestEvent;
    if AtRest(ws[i]) {
      HonestRest(ws[i], s, c);
      ConnectedKnow(ws[i], s, c);
    } else { ForwardLowers(ws[i], s, c, ephemeral); }
  }

  /** So honest devices do get connected, from wherever an honest attempt has got to: there is a
      continuation at whose end both are in session. */
  lemma {:induction false} HonestDevicesConnect(ws: seq<World>, es: seq<WorldEvent>, s: S.Server, c: C.Client, ephemeral: nat)
    returns (vs: seq<World>, fs: seq<WorldEvent>)
    requires IsHonestAttempt(ws, es, s, c)
    ensures IsHonestAttempt(vs, fs, s, c) && ws <= vs && es <= fs
    ensures var w := vs[|fs|]; w.server.pc.InSession? && w.client.pc.InSession? && KnowEachOther(w.server, w.client)
    decreases Rank(ws[|es|])
  {
    var w := ws[|es|];
    HonestAttemptConnects(ws, es, s, c, |es|, ephemeral);
    hide StepWorld, Rank, AtRest, Forward, HonestEvent, Begin;
    if AtRest(w) {
      vs, fs := ws, es;
    } else {
      var e := Forward(w, ephemeral);
      Extends(ws, es, s, c, e);
      assert (ws + [StepWorld(w, e)])[|es + [e]|] == StepWorld(w, e);
      vs, fs := HonestDevicesConnect(ws + [StepWorld(w, e)], es + [e], s, c, ephemeral);
    }
  }

  lemma Extends(ws: seq<World>, es: seq<WorldEvent>, s: S.Server, c: C.Client, e: WorldEvent)
    requires IsHonestAttempt(ws, es, s, c) && HonestEvent(e)
    ensures IsHonestAttempt(ws + [StepWorld(ws[|es|], e)], es + [e], s, c)
  {
    hide StepWorld, HonestEvent, Begin, Ready;
  }

  // ------------------------------------------------------------------------------------
  // The next time
  // ------------------------------------------------------------------------------------

  predicate ForgetsNobody(e: WorldEvent) {
    !(e.ServerDoes? && e.serverEvent.Forget?) && !(e.ClientDoes? && e.clientEvent.Forget?)
  }

  predicate NoFlags(sent: seq<Word>) { forall x | x in sent && x.PairingFlag? :: !x.wants }

  /** Two sides that have each other in their stores, in an attempt on which neither asks to pair. */
  ghost predicate ServerAcquainted(x: S.Server, sent: seq<Word>, peer: nat) {
    && NoFlags(sent) && !ServerPairs(x.pc) && peer in x.knownPeers && (x.pc.ReadingFlag? ==> x.pc.trusted.Some?)
  }

  ghost predicate ClientAcquainted(y: C.Client, sent: seq<Word>, peer: nat) {
    && NoFlags(sent) && !ClientPairs(y.pc) && peer in y.knownPeers && (y.pc.ReadingFlag? ==> y.pc.known.Some?)
  }

  ghost predicate Acquainted(w: World) {
    && ServerAcquainted(w.server, w.serverSent, w.client.id) && ClientAcquainted(w.client, w.clientSent, w.server.id)
  }

  lemma ServerReadAcquainted(x: S.Server, sent: seq<Word>, peer: nat, w: Word, ephemeral: nat)
    requires ServerAcquainted(x, sent, peer)
    requires (x.pc.ReadingId? ==> w == DeviceId(peer)) && (x.pc.ReadingFlag? ==> w == PairingFlag(false))
    ensures var out := S.AfterRead(x, w, ephemeral); ServerAcquainted(out.server, sent + out.sent, peer) && out.server.id == x.id
  {
    hide Respond, Fingerprint;
  }

  lemma ClientReadAcquainted(y: C.Client, sent: seq<Word>, peer: nat, w: Word, ephemeral: nat)
    requires ClientAcquainted(y, sent, peer)
    requires (y.pc.ReadingId? ==> w == DeviceId(peer)) && (y.pc.ReadingFlag? ==> w == PairingFlag(false))
    ensures var out := C.AfterRead(y, w, ephemeral); ClientAcquainted(out.client, sent + out.sent, peer) && out.client.id == y.id
  {
    hide InitiatorStart, InitiatorFinish, Fingerprint;
  }

  lemma ServerStepAcquainted(x: S.Server, sent: seq<Word>, peer: nat, e: S.Event)
    requires ServerAcquainted(x, sent, peer) && !e.Forget? && !e.Arrive? && !e.Accept?
    ensures var out := S.Step(x, e); ServerAcquainted(out.server, sent + out.sent, peer) && out.server.id == x.id
  {
    hide S.AfterRead, S.Arrived;
  }

  lemma ClientStepAcquainted(y: C.Client, sent: seq<Word>, peer: nat, e: C.Event)
    requires ClientAcquainted(y, sent, peer) && !e.Forget? && !e.Arrive? && !e.Connect?
    ensures var out := C.Step(y, e); ClientAcquainted(out.client, sent + out.sent, peer) && out.client.id == y.id
  {
    hide C.AfterRead, C.Arrived;
  }

  /** What either side reads next, while it still reads ids and flags. */
  lemma NextIsPlain(w: World)
    requires WorldInv(w) && Acquainted(w)
    ensures |w.serverRead| < |w.clientSent| ==>
              var next := w.clientSent[|w.serverRead|];
              (w.server.pc.ReadingId? ==> next == DeviceId(w.client.id)) && (w.server.pc.ReadingFlag? ==> next == PairingFlag(false))
    ensures |w.clientRead| < |w.serverSent| ==>
              var next := w.serverSent[|w.clientRead|];
              (w.client.pc.ReadingId? ==> next == DeviceId(w.server.id)) && (w.client.pc.ReadingFlag? ==> next == PairingFlag(false))
  {
    hide EncodeAll, Encode, IsReply, Concluded, Began, Fingerprint, Respond, InitiatorStart, Stream;
  }

  lemma ServerWaitsAcquainted(x: S.Server, sent: seq<Word>, peer: nat, got: seq<Cell>)
    requires ServerAcquainted(x, sent, peer)
    ensures ServerAcquainted(x.(pc := S.WithGot(x.pc, got)), sent, peer)
  {
  }

  lemma ClientWaitsAcquainted(y: C.Client, sent: seq<Word>, peer: nat, got: seq<Cell>)
    requires ClientAcquainted(y, sent, peer)
    ensures ClientAcquainted(y.(pc := C.WithGot(y.pc, got)), sent, peer)
  {
  }

  lemma ServerHearsAcquainted(w: World, n: nat, ephemeral: nat)
    requires WorldInv(w) && Acquainted(w)
    ensures Acquainted(StepWorld(w, ServerHears(n, ephemeral)))
  {
    hide WorldInv, ServerAcquainted, ClientAcquainted, EncodeAll, Encode, Decode, S.AfterRead, Stream;
    NextIsPlain(w);
    assert w.serverSent + [] == w.serverSent;
    if !(n == 0 || n > |w.toServer| || |S.Got(w.server.pc)| + n > S.ReadLen(w.server.pc)) {
      ServerReadFitsNext(w, n);
      var got := S.Got(w.server.pc) + w.toServer[..n];
      ServerWaitsAcquainted(w.server, w.serverSent, w.client.id, got);
      ServerReadAcquainted(w.server, w.serverSent, w.client.id, w.clientSent[|w.serverRead|], ephemeral);
    }
  }

  lemma ClientHearsAcquainted(w: World, n: nat, ephemeral: nat)
    requires WorldInv(w) && Acquainted(w)
    ensures Acquainted(StepWorld(w, ClientHears(n, ephemeral)))
  {
    hide WorldInv, ServerAcquainted, ClientAcquainted, EncodeAll, Encode, Decode, C.AfterRead, Stream;
    NextIsPlain(w);
    assert w.clientSent + [] == w.clientSent;
    if !(n == 0 || n > |w.toClient| || |C.Got(w.client.pc)| + n > C.ReadLen(w.client.pc)) {
      ClientReadFitsNext(w, n);
      var got := C.Got(w.client.pc) + w.toClient[..n];
      ClientWaitsAcquainted(w.client, w.clientSent, w.server.id, got);
      ClientReadAcquainted(w.client, w.clientSent, w.server.id, w.serverSent[|w.clientRead|], ephemeral);
    }
  }

  lemma StaysAcquainted(w: World, e: WorldEvent)
    requires WorldInv(w) && Acquainted(w) && ForgetsNobody(e)
    ensures Acquainted(StepWorld(w, e))
  {
    match e
    case ServerHears(n, ephemeral) => hide *; ServerHearsAcquainted(w, n, ephemeral);
    case ClientHears(n, ephemeral) => hide *; ClientHearsAcquainted(w, n, ephemeral);
    case ServerDoes(event) =>
      hide WorldInv, ServerAcquainted, ClientAcquainted, EncodeAll, S.Step;
      if !event.Accept? && !event.Arrive? { ServerStepAcquainted(w.server, w.serverSent, w.client.id, event); }
    case ClientDoes(event) =>
      hide WorldInv, ServerAcquainted, ClientAcquainted, EncodeAll, C.Step;
      if !event.Connect? && !event.Arrive? { ClientStepAcquainted(w.client, w.clientSent, w.server.id, event); }
  }

  lemma {:induction false} AlwaysAcquainted(ws: seq<World>, es: seq<WorldEvent>, s: S.Server, c: C.Client, i: nat)
    requires IsAttempt(ws, es) && Ready(s, c) && ws[0] == Begin(s, c) && i < |ws|
    requires c.id in s.knownPeers && s.id in c.knownPeers && forall e | e in es :: ForgetsNobody(e)
    ensures Acquainted(ws[i])
  {
    hide StepWorld, Acquainted, Begin, Ready, ForgetsNobody, WorldInv;
    if i == 0 {
      BeginAcquainted(s, c);
    } else {
      AlwaysAcquainted(ws, es, s, c, i - 1);
      AttemptInv(ws, es, i - 1);
      assert es[i - 1] in es && ws[i] == StepWorld(ws[i - 1], es[i - 1]);
      StaysAcquainted(ws[i - 1], es[i - 1]);
    }
  }

  /** Sides that have each other in their stores never pair: as long as neither is made to forget the
      other meanwhile, no flag asks for it, and neither shows a fingerprint for a new device --
      whatever else happens in the attempt. */
  lemma AcquaintedNeverPair(ws: seq<World>, es: seq<WorldEvent>, s: S.Server, c: C.Client, i: nat)
    requires IsAttempt(ws, es) && Ready(s, c) && ws[0] == Begin(s, c) && i < |ws|
    requires c.id in s.knownPeers && s.id in c.knownPeers && forall e | e in es :: ForgetsNobody(e)
    ensures Acquainted(ws[i])
    ensures !ServerPairs(ws[i].server.pc) && !ClientPairs(ws[i].client.pc)
    ensures forall x | x in ws[i].serverSent + ws[i].clientSent && x.PairingFlag? :: !x.wants
  {
    hide *;
    AlwaysAcquainted(ws, es, s, c, i);
    AcquaintedDoNotPair(ws[i]);
  }

  lemma BeginAcquainted(s: S.Server, c: C.Client)
    requires Ready(s, c) && c.id in s.knownPeers && s.id in c.knownPeers
    ensures Acquainted(Begin(s, c))
  {
  }

  lemma AcquaintedDoNotPair(w: World)
    requires Acquainted(w)
    ensures !ServerPairs(w.server.pc) && !ClientPairs(w.client.pc)
    ensures forall x | x in w.serverSent + w.clientSent && x.PairingFlag? :: !x.wants
  {
  }

  /** A pairing is for good. Once an honest attempt has got through -- a first pairing, say -- no later
      attempt between the two pairs again, unless one of them is told to forget the other. */
  lemma PairingIsForGood(ws: seq<World>, es: seq<WorldEvent>, s: S.Server, c: C.Client, i: nat,
                         vs: seq<World>, fs: seq<WorldEvent>, s2: S.Server, c2: C.Client, j: nat)
    requires IsHonestAttempt(ws, es, s, c) && i < |ws| && AtRest(ws[i])
    requires s2.id == s.id && s2.knownPeers == ws[i].server.knownPeers && c2.id == c.id && c2.knownPeers == ws[i].client.knownPeers
    requires IsAttempt(vs, fs) && Ready(s2, c2) && vs[0] == Begin(s2, c2) && j < |vs| && forall e | e in fs :: ForgetsNobody(e)
    ensures !ServerPairs(vs[j].server.pc) && !ClientPairs(vs[j].client.pc)
    ensures forall x | x in vs[j].serverSent + vs[j].clientSent && x.PairingFlag? :: !x.wants
  {
    hide StepWorld, AtRest, Begin;
    StaysHonest(ws, es, s, c, i);
    HonestRest(ws[i], s, c) by { hide Honest, IsHonestAttempt, IsAttempt; }
    hide IsHonestAttempt;
    ConnectedKnow(ws[i], s, c);
    hide Honest;
    AcquaintedNeverPair(vs, fs, s2, c2, j);
  }
}

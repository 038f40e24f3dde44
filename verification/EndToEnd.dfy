/** From the first byte of the handshake to the last message accepted: the exchange hands the encrypted
    channel just what the channel's own guarantee starts from. */
module EndToEnd {
  import opened Common
  import opened NoisePrimitives
  import opened Wire
  import opened Handshake
  import opened HandshakeAgreement
  import S = TcpServer
  import Channel = SecureChannel
  import D = ChannelDelivery

  /** How session messages are packed for the channel, and how each key seals. */
  type Packing = SessionMessage -> Channel.Message
  type Sealing = Term -> Channel.Seal

  /** The messages of the items from `first` on, as the channel is given them. */
  function Packed(sent: seq<Word>, first: nat, pack: Packing): seq<Channel.Message>
    requires first <= |sent|
  {
    seq(|sent| - first, k requires 0 <= k < |sent| - first =>
      pack(if sent[first + k].SessionFrame? then sent[first + k].frame else Other(0)))
  }

  /** What the receiver has accepted is a prefix of what was sent, item `first + k` having been sealed
      with this key at the very nonce that item bears. */
  ghost predicate Delivered(sent: seq<Word>, first: nat, pack: Packing, seal: Channel.Seal, l: D.Link)
    requires first <= |sent|
  {
    && l.accepted <= Packed(sent, first, pack)
    && |l.log| == |sent| - first
    && forall k | 0 <= k < |l.log| ::
         && sent[first + k].SessionFrame?
         && l.log[k].plain == Channel.Plaintext(pack(sent[first + k].frame))
         && l.log[k].ciphertext == seal(sent[first + k].nonce, l.log[k].plain)
  }

  lemma DirectionDelivers(sent: seq<Word>, first: nat, pack: Packing, seal: Channel.Seal, ls: seq<D.Link>, es: seq<D.Event>, i: nat)
    requires first <= |sent| && Frames(sent, first)
    requires D.IsSession(seal, ls, es) && i <= |es| && D.SentBy(es, i) == Packed(sent, first, pack)
    ensures Delivered(sent, first, pack, seal, ls[i])
  {
    D.SessionInv(seal, ls, es, i);
    D.AcceptedIsPrefix(seal, ls, es, i);
    hide D.IsSession, D.SentBy, Channel.IsAead, Channel.Plaintext, Packed;
    forall k | 0 <= k < |sent| - first ensures sent[first + k].SessionFrame? && sent[first + k].nonce == k
      ensures |Packed(sent, first, pack)| == |sent| - first && Packed(sent, first, pack)[k] == pack(sent[first + k].frame)
    {
      PackedAt(sent, first, pack, k);
    }
    PackedLength(sent, first, pack);
  }

  lemma PackedLength(sent: seq<Word>, first: nat, pack: Packing)
    requires first <= |sent|
    ensures |Packed(sent, first, pack)| == |sent| - first
  {
  }

  lemma PackedAt(sent: seq<Word>, first: nat, pack: Packing, k: nat)
    requires first + k < |sent| && Frames(sent, first)
    ensures |Packed(sent, first, pack)| == |sent| - first && sent[first + k].SessionFrame? && sent[first + k].nonce == k
    ensures Packed(sent, first, pack)[k] == pack(sent[first + k].frame)
  {
  }

  /** End to end, in both directions. Whatever was in the stores, however the handshake's bytes were cut
      and delayed, and whatever the network then does to the session's -- chunk, delay, cut,
      corrupt, replay or reorder them: once both sides are through, what either accepts is a prefix
      of what the other has sent since the handshake. */
  lemma SessionDelivers(w: World, sealing: Sealing, pack: Packing,
                        toClient: seq<D.Link>, es: seq<D.Event>, toServer: seq<D.Link>, fs: seq<D.Event>)
    requires Reachable(w) && S.HoldsKeys(w.server.pc) && w.client.pc.InSession?
    requires |w.clientRead| <= |w.serverSent| && |w.serverRead| <= |w.clientSent|
    requires D.IsSession(sealing(w.server.pc.result.keys.sendKey), toClient, es)
    requires D.IsSession(sealing(w.client.pc.result.keys.sendKey), toServer, fs)
    requires D.SentBy(es, |es|) == Packed(w.serverSent, |w.clientRead|, pack)
    requires D.SentBy(fs, |fs|) == Packed(w.clientSent, |w.serverRead|, pack)
    ensures Delivered(w.serverSent, |w.clientRead|, pack, sealing(w.client.pc.result.keys.recvKey), toClient[|es|])
    ensures Delivered(w.clientSent, |w.serverRead|, pack, sealing(w.server.pc.result.keys.recvKey), toServer[|fs|])
  {
    KeysAgree(w);
    SessionStartsClean(w);
    hide Reachable, EncodeAll, D.IsSession, D.SentBy, Delivered, Frames, Packed;
    DirectionDelivers(w.serverSent, |w.clientRead|, pack, sealing(w.server.pc.result.keys.sendKey), toClient, es, |es|);
    DirectionDelivers(w.clientSent, |w.serverRead|, pack, sealing(w.client.pc.result.keys.sendKey), toServer, fs, |fs|);
  }
}

/** Slave's side over its whole life: attempt after attempt, with one store of known devices. */
module ClientLife {
  import opened Common
  import opened NoisePrimitives
  import opened NoiseIk
  import opened Wire
  import opened TcpClient

  /** A step of an attempt, or, after one has ended, the next attempt. */
  datatype LifeEvent = In(event: Event) | Again

  function Lives(c: Client, e: LifeEvent): Client {
    match e
    case In(event) => Step(c, event).client
    case Again => if c.pc.Ended? then c.(pc := Offline) else c
  }

  ghost predicate IsLife(cs: seq<Client>, es: seq<LifeEvent>) {
    && |cs| == |es| + 1 && cs[0].pc.Offline?
    && forall i {:trigger es[i]} | 0 <= i < |es| :: cs[i + 1] == Lives(cs[i], es[i])
  }

  // ------------------------------------------------------------------------------------
  // The status line
  // ------------------------------------------------------------------------------------

  /** What is shown at each stage of an attempt. */
  ghost predicate Shows(c: Client) {
    match c.pc
    case Offline => true
    case ReadingId(_) => c.status == Connecting
    case ReadingFlag(_, _, _) => c.status == Connecting
    case ReadingKey(_, _) => c.status == Connecting
    case ReadingDecision(peer, key, _) => c.status == Pairing(peer, Fingerprint(Public(c.ownStatic), key))
    case ReadingIk2(peer, rs, _, _, _) => c.status in {Connecting, Pairing(peer, Fingerprint(Public(c.ownStatic), rs))}
    case InSession(peer, result) => c.status == Connected(peer, result.keys.sendKey)
    case Ended(_) => c.status == Failed
  }

  lemma ShowsOn(c: Client, e: Event)
    requires Shows(c)
    ensures Shows(Step(c, e).client)
  {
    hide InitiatorStart, InitiatorFinish, Encode, Decode, Fingerprint;
  }

  /** Connected shows exactly while a session is on, Failed exactly after an attempt has ended, and a
      fingerprint only from the peer's key on, and always that of the key the attempt is about. */
  lemma {:induction false} StatusIsTrue(cs: seq<Client>, es: seq<LifeEvent>, n: nat)
    requires IsLife(cs, es) && n < |cs| && !cs[n].pc.Offline?
    ensures Shows(cs[n])
    ensures cs[n].status.Connected? <==> cs[n].pc.InSession?
    ensures cs[n].status.Failed? <==> cs[n].pc.Ended?
  {
    hide Shows, Step;
    LifeShows(cs, es, n);
    assert (cs[n].status.Connected? <==> cs[n].pc.InSession?) && (cs[n].status.Failed? <==> cs[n].pc.Ended?) by {
      ShownByStage(cs[n]);
    }
  }

  lemma ShownByStage(c: Client)
    requires Shows(c) && !c.pc.Offline?
    ensures (c.status.Connected? <==> c.pc.InSession?) && (c.status.Failed? <==> c.pc.Ended?)
  {
    hide Fingerprint;
  }

  lemma {:induction false} LifeShows(cs: seq<Client>, es: seq<LifeEvent>, n: nat)
    requires IsLife(cs, es) && n < |cs|
    ensures Shows(cs[n])
  {
    hide Shows, Step;
    if n == 0 {
      OfflineShows(cs[0]);
    } else {
      LifeShows(cs, es, n - 1);
      assert cs[n] == Lives(cs[n - 1], es[n - 1]);
      match es[n - 1]
      case In(event) => ShowsOn(cs[n - 1], event);
      case Again => if cs[n - 1].pc.Ended? { OfflineShows(cs[n]); }
    }
  }

  lemma OfflineShows(c: Client)
    requires c.pc.Offline?
    ensures Shows(c)
  {
  }

  // ------------------------------------------------------------------------------------
  // How an attempt goes
  // ------------------------------------------------------------------------------------

  /** What begins an attempt, and what ends one from outside. */
  lemma ComesAndGoes(c: Client, e: Event)
    ensures c.pc.Offline? && e.Connect? ==> Step(c, e) == Out(c.(pc := ReadingId([]), status := Connecting), [DeviceId(c.id)], [])
    ensures ReadLen(c.pc) > 0 && e.ReadFails? ==> Step(c, e).client.pc == Ended(RetryBackoff) && Step(c, e).sent == []
    ensures c.pc.InSession? ==>
              (Step(c, e).client.pc == Ended(RetryFast) <==> e.SessionEnds?)
              && (Step(c, e).client.pc == c.pc || Step(c, e).client.pc.Ended?)
    ensures c.pc.Ended? ==> Step(c, e).client.pc == c.pc && Step(c, e).sent == []
  {
    hide InitiatorStart, InitiatorFinish, Encode, Decode;
  }

  /** Slave's session messages are exactly those that other threads send while a session is on, each with
      the next number. */
  lemma WhatTheClientSays(c: Client, e: Event)
    ensures var out := Step(c, e);
            && (forall w: Word | w.SessionFrame? :: w in out.sent <==> c.pc.InSession? && e == Send(w.frame) && w.nonce == c.sendNonce)
            && (c.pc.InSession? && out.client.pc.InSession? ==> out.client.sendNonce == c.sendNonce + |out.sent|)
  {
    hide InitiatorStart, InitiatorFinish, Encode, Decode, Fingerprint;
  }

  /** A known server is met without pairing exactly if it says that it does not need it. */
  lemma OnlyNoSkipsPairing(c: Client, w: Word, ephemeral: nat)
    requires c.pc.ReadingFlag?
    ensures var d := AfterRead(c, w, ephemeral).client;
            && (d.pc.ReadingKey? <==> !(c.pc.known.Some? && w == PairingFlag(false)))
            && (d.pc.ReadingIk2? ==> Some(d.pc.rs) == c.pc.known)
  {
    hide InitiatorStart, InitiatorFinish, Fingerprint;
  }

  // ------------------------------------------------------------------------------------
  // The store
  // ------------------------------------------------------------------------------------

  /** Slave reads Master's approval of `k` for device `d`. */
  predicate Remembers(c: Client, e: LifeEvent, d: nat, k: Term) {
    && e.In? && e.event.Arrive? && c.pc.ReadingDecision? && c.pc.peer == d && c.pc.key == k && e.event.cells != []
    && |c.pc.got + e.event.cells| == DECISION_LEN && Decode(c.pc.got + e.event.cells) == Decision(true)
  }

  predicate Touches(c: Client, e: LifeEvent, d: nat) {
    e == In(Forget(d)) || (c.pc.ReadingDecision? && Remembers(c, e, d, c.pc.key))
  }

  lemma StartKeepsStore(c: Client, peer: nat, rs: Term, ephemeral: nat, read: seq<Word>)
    ensures StartIk(c, peer, rs, ephemeral, read).client.knownPeers == c.knownPeers
  {
    hide InitiatorStart;
  }

  lemma ReadEntry(c: Client, w: Word, ephemeral: nat, d: nat)
    ensures var now := Lookup(AfterRead(c, w, ephemeral).client.knownPeers, d);
            now == if c.pc.ReadingDecision? && c.pc.peer == d && w == Decision(true) then Some(c.pc.key) else Lookup(c.knownPeers, d)
  {
    hide StartIk, InitiatorFinish, Fingerprint;
    match c.pc
    case ReadingFlag(peer, known, _) => if known.Some? { StartKeepsStore(c, peer, known.value, ephemeral, [w]); }
    case ReadingDecision(peer, key, _) =>
      StartKeepsStore(c.(knownPeers := c.knownPeers[peer := key]), peer, key, ephemeral, [w]);
      assert AsDecision(w) ==> w == Decision(true);
    case _ =>
  }

  lemma EntryStep(c: Client, e: LifeEvent, d: nat)
    ensures var now := Lookup(Lives(c, e).knownPeers, d);
            if e == In(Forget(d)) then now == None
            else if c.pc.ReadingDecision? && Remembers(c, e, d, c.pc.key) then now == Some(c.pc.key)
            else now == Lookup(c.knownPeers, d)
  {
    hide AfterRead, Decode, Encode;
    if e.In? && e.event.Arrive? { ReadEntry(c, Decode(Got(c.pc) + e.event.cells), e.event.ephemeral, d); }
  }

  ghost predicate Untouched(cs: seq<Client>, es: seq<LifeEvent>, a: nat, n: nat, d: nat)
    requires n <= |es| < |cs|
  {
    forall q | a <= q < n :: !Touches(cs[q], es[q], d)
  }

  /** Slave remembers as Master does: its store maps `d` to `k` if and only if the last event on that
      entry was an approval of `k` it read -- or there was none, and it did so from the beginning. */
  lemma {:induction false} StoreRemembersIff(cs: seq<Client>, es: seq<LifeEvent>, n: nat, d: nat, k: Term)
    requires IsLife(cs, es) && n < |cs|
    ensures Lookup(cs[n].knownPeers, d) == Some(k) <==>
              || (exists p: nat | p < n :: Remembers(cs[p], es[p], d, k) && Untouched(cs, es, p + 1, n, d))
              || (Lookup(cs[0].knownPeers, d) == Some(k) && Untouched(cs, es, 0, n, d))
  {
    hide Lives, Lookup;
    if n > 0 {
      StoreRemembersIff(cs, es, n - 1, d, k);
      assert cs[n] == Lives(cs[n - 1], es[n - 1]);
      EntryStep(cs[n - 1], es[n - 1], d);
      hide IsLife;
      if Touches(cs[n - 1], es[n - 1], d) {
        assert Untouched(cs, es, n, n, d);
      } else {
        hide Remembers, Touches;
        assert forall p: nat | p < n :: Untouched(cs, es, p, n, d) <==> Untouched(cs, es, p, n - 1, d);
        assert Untouched(cs, es, n, n, d) && Untouched(cs, es, n - 1, n - 1, d);
      }
    }
  }
}

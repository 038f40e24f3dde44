/** The Noise IK handshake (src/discovery/noise_ik.cpp), both sides.

    A key pair is named by its private key, a number; its public key is `Public(number)`.
    Each side is cut where it waits for the other: `InitiatorStart`, `ResponderRead`,
    `ResponderWrite`, `InitiatorFinish` are the states after each message. */
module NoiseIk {
  import opened Common
  import opened NoisePrimitives

  datatype Msg1 = Msg1(e: Term, s: Term, payload: Term)
  datatype Msg2 = Msg2(e: Term, payload: Term)
  datatype TransportKeys = TransportKeys(sendKey: Term, recvKey: Term)
  datatype IkResult = IkResult(keys: TransportKeys, peerStatic: Term)

  /** A completed `dh` followed by `mix_key`. */
  function MixDh(s: Symmetric, ownPrivate: nat, peerPublic: Term): Option<Symmetric> {
    match Dh(ownPrivate, peerPublic)
    case None => None
    case Some(secret) => Some(MixKey(s, secret))
  }

  function InitiatorStart(ownStatic: nat, peerStatic: Term, e: nat): Option<(Symmetric, Msg1)> {
    var s0 := MixHash(MixHash(INITIAL, peerStatic), Public(e));
    match MixDh(s0, e, peerStatic)
    case None => None
    case Some(s1) =>
      var (s2, ctS) := Encrypt(s1, Public(ownStatic));
      match MixDh(s2, ownStatic, peerStatic)
      case None => None
      case Some(s3) =>
        var (s4, ctPayload) := Encrypt(s3, Nothing);
        Some((s4, Msg1(Public(e), ctS, ctPayload)))
  }

  function InitiatorFinish(s: Symmetric, ownStatic: nat, peerStatic: Term, e: nat, msg: Msg2): Option<(Symmetric, IkResult)> {
    match MixDh(MixHash(s, msg.e), e, msg.e)
    case None => None
    case Some(s1) =>
      match MixDh(s1, ownStatic, msg.e)
      case None => None
      case Some(s2) =>
        match Decrypt(s2, msg.payload)
        case None => None
        case Some((s3, _)) =>
          var (k1, k2) := Hkdf2(s3.ck, Nothing);
          Some((s3, IkResult(TransportKeys(k1, k2), peerStatic)))
  }

  /** The responder up to the end of message 1, with the initiator's static key it learned. */
  function ResponderRead(ownStatic: nat, msg: Msg1): Option<(Symmetric, Term)> {
    var s0 := MixHash(MixHash(INITIAL, Public(ownStatic)), msg.e);
    match MixDh(s0, ownStatic, msg.e)
    case None => None
    case Some(s1) =>
      match Decrypt(s1, msg.s)
      case None => None
      case Some((s2, rs)) =>
        match MixDh(s2, ownStatic, rs)
        case None => None
        case Some(s3) =>
          match Decrypt(s3, msg.payload)
          case None => None
          case Some((s4, _)) => Some((s4, rs))
  }

  function ResponderWrite(s: Symmetric, rs: Term, re: Term, e2: nat): Option<(Symmetric, Msg2, IkResult)> {
    match MixDh(MixHash(s, Public(e2)), e2, re)
    case None => None
    case Some(s1) =>
      match MixDh(s1, e2, rs)
      case None => None
      case Some(s2) =>
        var (s3, ct) := Encrypt(s2, Nothing);
        var (k1, k2) := Hkdf2(s3.ck, Nothing);
        Some((s3, Msg2(Public(e2), ct), IkResult(TransportKeys(k2, k1), rs)))
  }

  function Respond(ownStatic: nat, e2: nat, msg: Msg1): Option<(Symmetric, Msg2, IkResult)> {
    match ResponderRead(ownStatic, msg)
    case None => None
    case Some((s, rs)) => ResponderWrite(s, rs, msg.e, e2)
  }

  // ------------------------------------------------------------------------------------
  // The two functions of the source
  // ------------------------------------------------------------------------------------

  /** `run_ik_responder`; `msg1` is what arrived, `None` if the read failed. */
  method RunIkResponder(ownStatic: nat, e2: nat, msg1: Option<Msg1>)
    returns (result: Option<IkResult>, msg2: Option<Msg2>)
    ensures result == match msg1
                      case None => None
                      case Some(m) => (match Respond(ownStatic, e2, m) case None => None case Some(r) => Some(r.2))
    ensures msg2 == match msg1
                    case None => None
                    case Some(m) => (match Respond(ownStatic, e2, m) case None => None case Some(r) => Some(r.1))
  {
    result, msg2 := None, None;
    var state := new SymmetricState();
    state.MixHashInto(Public(ownStatic));
    if msg1 == None {
      return;
    }
    var m := msg1.value;
    state.MixHashInto(m.e);
    var es := Dh(ownStatic, m.e);
    if es == None {
      return;
    }
    state.MixKeyInto(es.value);
    var rs := state.DecryptAndHash(m.s);
    if rs == None {
      return;
    }
    var ss := Dh(ownStatic, rs.value);
    if ss == None {
      return;
    }
    state.MixKeyInto(ss.value);
    var payload := state.DecryptAndHash(m.payload);
    if payload == None {
      return;
    }
    assert ResponderRead(ownStatic, m) == Some((state.View(), rs.value));
    hide ResponderRead, ResponderWrite;
    result, msg2 := AnswerInitiator(state, rs.value, m.e, e2);
  }

  /** The second half of `run_ik_responder`: message 2 and the transport keys. */
  method AnswerInitiator(state: SymmetricState, rs: Term, re: Term, e2: nat)
    returns (result: Option<IkResult>, msg2: Option<Msg2>)
    modifies state
    ensures match ResponderWrite(old(state.View()), rs, re, e2)
            case None => result == None && msg2 == None
            case Some(r) => result == Some(r.2) && msg2 == Some(r.1)
  {
    result, msg2 := None, None;
    state.MixHashInto(Public(e2));
    var ee := Dh(e2, re);
    if ee == None {
      return;
    }
    state.MixKeyInto(ee.value);
    var se := Dh(e2, rs);
    if se == None {
      return;
    }
    state.MixKeyInto(se.value);
    var ct := state.EncryptAndHash(Nothing);
    var k1, k2 := state.Split();
    msg2 := Some(Msg2(Public(e2), ct));
    result := Some(IkResult(TransportKeys(k2, k1), rs));
  }

  /** `run_ik_initiator`, cut in two where it blocks waiting for message 2. */
  class IkInitiator {
    const ownStatic: nat
    const peerStatic: Term
    const e: nat
    const state: SymmetricState

    constructor (ownStatic: nat, peerStatic: Term, e: nat)
      ensures this.ownStatic == ownStatic && this.peerStatic == peerStatic && this.e == e
      ensures fresh(state) && state.View() == INITIAL
    {
      this.ownStatic := ownStatic;
      this.peerStatic := peerStatic;
      this.e := e;
      state := new SymmetricState();
    }

    method SendMessage1() returns (msg1: Option<Msg1>)
      requires state.View() == INITIAL
      modifies state
      ensures match InitiatorStart(ownStatic, peerStatic, e)
              case None => msg1 == None
              case Some(r) => msg1 == Some(r.1) && state.View() == r.0
    {
      state.MixHashInto(peerStatic);
      state.MixHashInto(Public(e));
      var es := Dh(e, peerStatic);
      if es == None {
        return None;
      }
      state.MixKeyInto(es.value);
      var ctS := state.EncryptAndHash(Public(ownStatic));
      var ss := Dh(ownStatic, peerStatic);
      if ss == None {
        return None;
      }
      state.MixKeyInto(ss.value);
      var ctPayload := state.EncryptAndHash(Nothing);
      msg1 := Some(Msg1(Public(e), ctS, ctPayload));
    }

    method ReceiveMessage2(msg2: Option<Msg2>) returns (result: Option<IkResult>)
      modifies state
      ensures result == match msg2
                        case None => None
                        case Some(m) =>
                          match InitiatorFinish(old(state.View()), ownStatic, peerStatic, e, m)
                          case None => None
                          case Some(r) => Some(r.1)
    {
      if msg2 == None {
        return None;
      }
      var m := msg2.value;
      state.MixHashInto(m.e);
      var ee := Dh(e, m.e);
      if ee == None {
        return None;
      }
      state.MixKeyInto(ee.value);
      var se := Dh(ownStatic, m.e);
      if se == None {
        return None;
      }
      state.MixKeyInto(se.value);
      var payload := state.DecryptAndHash(m.payload);
      if payload == None {
        return None;
      }
      var k1, k2 := state.Split();
      result := Some(IkResult(TransportKeys(k1, k2), peerStatic));
    }
  }

  // ------------------------------------------------------------------------------------
  // Agreement
  // ------------------------------------------------------------------------------------

  /** Honest delivery: for all static and ephemeral keys both sides hold the same symmetric state
      after each message, the responder learns the initiator's static key, and the transport
      keys are swapped copies of each other. */
  lemma HonestRunAgrees(i: nat, r: nat, e: nat, e2: nat)
    ensures InitiatorStart(i, Public(r), e).Some?
    ensures var (s, m1) := InitiatorStart(i, Public(r), e).value;
            && ResponderRead(r, m1) == Some((s, Public(i)))
            && Respond(r, e2, m1).Some?
            && var (t, m2, atResponder) := Respond(r, e2, m1).value;
            && InitiatorFinish(s, i, Public(r), e, m2).Some?
            && var (t', atInitiator) := InitiatorFinish(s, i, Public(r), e, m2).value;
            && t' == t
            && atResponder.peerStatic == Public(i) && atInitiator.peerStatic == Public(r)
            && atInitiator.keys == TransportKeys(atResponder.keys.recvKey, atResponder.keys.sendKey)
  {
    DhCommutes(e, r);
    DhCommutes(i, r);
    DhCommutes(e, e2);
    DhCommutes(i, e2);
  }

  /** HKDF with two outputs, as section 4.3 of the Noise Protocol Framework, revision 34, defines it. */
  predicate IsHkdf(chainingKey: Term, input: Term, first: Term, second: Term) {
    var temp := Hmac(chainingKey, input);
    first == Hmac(temp, Octet(1)) && second == Hmac(temp, Join(first, Octet(2)))
  }

  /** The chaining keys and cipher keys of an honest run: each mixes in one shared secret, in the order
      the pattern's tokens have it -- es, ss in the first message, ee, se in the second. */
  ghost predicate KeySchedule(i: nat, r: nat, e: nat, e2: nat, cks: seq<Term>, ks: seq<Term>) {
    && |cks| == 5 && |ks| == 5 && cks[0] == ProtocolName
    && IsHkdf(cks[0], Dh(e, Public(r)).value, cks[1], ks[1])
    && IsHkdf(cks[1], Dh(i, Public(r)).value, cks[2], ks[2])
    && IsHkdf(cks[2], Dh(e, Public(e2)).value, cks[3], ks[3])
    && IsHkdf(cks[3], Dh(i, Public(e2)).value, cks[4], ks[4])
  }

  /** The hash of the name and of everything that has been read or sent so far. */
  function Transcript(items: seq<Term>): Term {
    if items == [] then ProtocolName else Hash(Transcript(items[..|items| - 1]), items[|items| - 1])
  }

  lemma TranscriptOf(a: Term, b: Term, c: Term, d: Term, f: Term)
    ensures Transcript([a, b]) == Hash(Hash(ProtocolName, a), b)
    ensures Transcript([a, b, c]) == Hash(Transcript([a, b]), c)
    ensures Transcript([a, b, c, d, f]) == Hash(Hash(Transcript([a, b, c]), d), f)
  {
    assert Transcript([]) == ProtocolName && Transcript([a]) == Hash(ProtocolName, a) by { assert [a][..0] == []; }
    assert [a, b][..1] == [a] && [a][..0] == [] && [a, b, c][..2] == [a, b];
    assert [a, b, c, d, f][..4] == [a, b, c, d] && [a, b, c, d][..3] == [a, b, c];
  }

  lemma Message1Is(i: nat, r: nat, e: nat)
    ensures InitiatorStart(i, Public(r), e).Some?
    ensures var (s, m1) := InitiatorStart(i, Public(r), e).value;
            var c1 := MixKey(INITIAL, Dh(e, Public(r)).value);
            var c2 := MixKey(c1, Dh(i, Public(r)).value);
            var h := Hash(Hash(ProtocolName, Public(r)), Public(e));
            && m1.e == Public(e) && m1.s == Sealed(c1.k, 0, h, Public(i)) && m1.payload == Sealed(c2.k, 0, Hash(h, m1.s), Nothing)
            && s.ck == c2.ck && s.h == Hash(Hash(h, m1.s), m1.payload)
  {
    hide Hkdf2;
  }

  lemma Message2Is(s: Symmetric, i: nat, e: nat, e2: nat)
    ensures ResponderWrite(s, Public(i), Public(e), e2).Some?
    ensures var (_, m2, result) := ResponderWrite(s, Public(i), Public(e), e2).value;
            var c4 := MixKey(MixKey(s, Dh(e, Public(e2)).value), Dh(i, Public(e2)).value);
            && m2.e == Public(e2) && m2.payload == Sealed(c4.k, 0, Hash(s.h, Public(e2)), Nothing)
            && Hkdf2(c4.ck, Nothing) == (result.keys.recvKey, result.keys.sendKey)
  {
    DhCommutes(e, e2);
    DhCommutes(i, e2);
    hide Hkdf2;
  }

  /** Every message and key of an honest run, written out. What is sealed is sealed under the key last
      derived, at nonce zero, with the whole transcript so far; and the initiator sends with the
      first transport key and receives with the second, the responder the other way round. */
  lemma HonestRunIs(i: nat, r: nat, e: nat, e2: nat) returns (cks: seq<Term>, ks: seq<Term>)
    ensures KeySchedule(i, r, e, e2, cks, ks)
    ensures InitiatorStart(i, Public(r), e).Some?
    ensures var m1 := InitiatorStart(i, Public(r), e).value.1;
            && m1.e == Public(e)
            && m1.s == Sealed(ks[1], 0, Transcript([Public(r), m1.e]), Public(i))
            && m1.payload == Sealed(ks[2], 0, Transcript([Public(r), m1.e, m1.s]), Nothing)
            && Respond(r, e2, m1).Some?
    ensures var (s, m1) := InitiatorStart(i, Public(r), e).value;
            var (_, m2, atResponder) := Respond(r, e2, m1).value;
            && m2.e == Public(e2)
            && m2.payload == Sealed(ks[4], 0, Transcript([Public(r), m1.e, m1.s, m1.payload, m2.e]), Nothing)
            && IsHkdf(cks[4], Nothing, atResponder.keys.recvKey, atResponder.keys.sendKey)
            && InitiatorFinish(s, i, Public(r), e, m2).Some?
            && var keys := InitiatorFinish(s, i, Public(r), e, m2).value.1.keys;
               IsHkdf(cks[4], Nothing, keys.sendKey, keys.recvKey)
  {
    HonestRunAgrees(i, r, e, e2);
    Message1Is(i, r, e);
    var (s, m1) := InitiatorStart(i, Public(r), e).value;
    Message2Is(s, i, e, e2);
    var (_, m2, _) := Respond(r, e2, m1).value;
    hide InitiatorStart, InitiatorFinish, ResponderRead, ResponderWrite, Transcript;
    TranscriptOf(Public(r), m1.e, m1.s, m1.payload, m2.e);
    var c1 := MixKey(INITIAL, Dh(e, Public(r)).value);
    var c2 := MixKey(c1, Dh(i, Public(r)).value);
    var c3 := MixKey(c2, Dh(e, Public(e2)).value);
    var c4 := MixKey(c3, Dh(i, Public(e2)).value);
    cks, ks := [ProtocolName, c1.ck, c2.ck, c3.ck, c4.ck], [ZeroKey, c1.k, c2.k, c3.k, c4.k];
  }

  /** A point that X25519 rejects ends the handshake, wherever it turns up: as the peer's static key or
      in either message. */
  lemma LowOrderIsRefused(own: nat, e: nat, point: nat, s: Symmetric, peerStatic: Term, m1: Msg1, m2: Msg2)
    ensures InitiatorStart(own, LowOrder(point), e).None?
    ensures m2.e == LowOrder(point) ==> InitiatorFinish(s, own, peerStatic, e, m2).None?
    ensures m1.e == LowOrder(point) ==> Respond(own, e, m1).None?
    ensures ResponderRead(own, m1).Some? ==> ResponderRead(own, m1).value.1 != LowOrder(point)
  {
    hide Hkdf2, Encrypt, Decrypt, AeadDecrypt;
  }

  /** The responder accepts message 1 exactly when the initiator meant this responder. */
  lemma WrongPeerStaticFails(i: nat, peer: Term, r: nat, e: nat)
    requires InitiatorStart(i, peer, e).Some?
    ensures ResponderRead(r, InitiatorStart(i, peer, e).value.1).Some? <==> peer == Public(r)
  {
    var m1 := InitiatorStart(i, peer, e).value.1;
    if peer == Public(r) {
      DhCommutes(e, r);
      DhCommutes(i, r);
    } else {
      // The transcript the identity is sealed under names the peer meant.
      assert m1.s.ad == Hash(Hash(ProtocolName, peer), Public(e));
    }
  }

  /** Matching conversations. Whatever is delivered to either side in place of the messages sent:
      if the initiator accepts a seal that this responder made, then nothing was altered, each
      talked to the peer it meant, and both ended in the same state with swapped keys. */
  lemma TamperingIsNoticed(i: nat, peer: Term, e: nat, r: nat, e2: nat, m1': Msg1, m2': Msg2)
    requires InitiatorStart(i, peer, e).Some? && Respond(r, e2, m1').Some?
    requires var (s, m1) := InitiatorStart(i, peer, e).value;
             && m2'.payload == Respond(r, e2, m1').value.1.payload
             && InitiatorFinish(s, i, peer, e, m2').Some?
    ensures peer == Public(r)
    ensures m1' == InitiatorStart(i, peer, e).value.1 && m2' == Respond(r, e2, m1').value.1
    ensures Respond(r, e2, m1').value.2.peerStatic == Public(i)
    ensures var keys := Respond(r, e2, m1').value.2.keys;
            InitiatorFinish(InitiatorStart(i, peer, e).value.0, i, peer, e, m2').value.1.keys
            == TransportKeys(keys.recvKey, keys.sendKey)
  {
    var (s, m1) := InitiatorStart(i, peer, e).value;
    var h := m2'.payload.ad;
    // Both sides sealed, or checked, under the hash of everything they sent and received.
    assert h == Hash(s.h, m2'.e);
    assert s.h == Hash(Hash(Hash(Hash(ProtocolName, peer), Public(e)), m1.s), m1.payload);
    assert h == Hash(Hash(Hash(Hash(Hash(ProtocolName, Public(r)), m1'.e), m1'.s), m1'.payload), Public(e2));
    HonestRunAgrees(i, r, e, e2);
  }

  // ------------------------------------------------------------------------------------
  // Keys
  // ------------------------------------------------------------------------------------

  /** Every handshake encryption uses its own key at nonce zero, and the two transport keys are
      new and different. */
  lemma HandshakeKeysFresh(i: nat, r: nat, e: nat, e2: nat)
    ensures InitiatorStart(i, Public(r), e).Some?
    ensures var m1 := InitiatorStart(i, Public(r), e).value.1;
            && Respond(r, e2, m1).Some?
            && var (_, m2, result) := Respond(r, e2, m1).value;
            && m1.s.Sealed? && m1.payload.Sealed? && m2.payload.Sealed?
            && m1.s.nonce == m1.payload.nonce == m2.payload.nonce == 0
            && |{m1.s.key, m1.payload.key, m2.payload.key, result.keys.sendKey, result.keys.recvKey}| == 5
  {
    HonestRunAgrees(i, r, e, e2);
    var m1 := InitiatorStart(i, Public(r), e).value.1;
    var (_, m2, result) := Respond(r, e2, m1).value;
    var a, b, c, d, f := m1.s.key, m1.payload.key, m2.payload.key, result.keys.sendKey, result.keys.recvKey;
    assert d.key.data == f.key.data == Nothing;
    assert a != b && a != c && b != c;
    assert a !in {d, f} && b !in {d, f} && c !in {d, f} && d != f;
    assert {a, b, c, d, f} == {a} + ({b} + ({c} + ({d} + {f})));
  }

  function SecretsOf(i: nat, r: nat, e: nat, e2: nat): seq<Option<Term>> {
    [Dh(e, Public(r)), Dh(i, Public(r)), Dh(e, Public(e2)), Dh(i, Public(e2))]
  }

  /** A transport key commits to all four shared secrets, so two honest handshakes share one only
      if they share every secret -- and never when one of them used an ephemeral key that the
      other did not. */
  lemma TransportKeysNeverRepeat(i: nat, r: nat, e: nat, e2: nat, i': nat, r': nat, e': nat, e2': nat)
    requires InitiatorStart(i, Public(r), e).Some? && InitiatorStart(i', Public(r'), e').Some?
    requires Respond(r, e2, InitiatorStart(i, Public(r), e).value.1).Some?
    requires Respond(r', e2', InitiatorStart(i', Public(r'), e').value.1).Some?
    requires var k := Respond(r, e2, InitiatorStart(i, Public(r), e).value.1).value.2.keys;
             var k' := Respond(r', e2', InitiatorStart(i', Public(r'), e').value.1).value.2.keys;
             {k.sendKey, k.recvKey} * {k'.sendKey, k'.recvKey} != {}
    ensures SecretsOf(i, r, e, e2) == SecretsOf(i', r', e', e2')
    ensures e' in {e, e2} && e2' in {e, e2}
  {
    HonestRunAgrees(i, r, e, e2);
    HonestRunAgrees(i', r', e', e2');
    var k := Respond(r, e2, InitiatorStart(i, Public(r), e).value.1).value.2.keys;
    var k' := Respond(r', e2', InitiatorStart(i', Public(r'), e').value.1).value.2.keys;
    DhCommutes(e, r); DhCommutes(i, r); DhCommutes(e, e2); DhCommutes(i, e2);
    DhCommutes(e', r'); DhCommutes(i', r'); DhCommutes(e', e2'); DhCommutes(i', e2');
    assert k.sendKey.key == k.recvKey.key && k'.sendKey.key == k'.recvKey.key;
    assert k.sendKey.key == k'.sendKey.key;
  }
}

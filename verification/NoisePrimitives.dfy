/** The handshake's building blocks (src/discovery/noise_primitives.cpp) over a free algebra of
    terms: two values are equal only if they were computed the same way. Diffie-Hellman is the
    one exception, and there the two key owners are an unordered pair. */
module NoisePrimitives {
  import opened Common

  datatype Term =
    | ProtocolName                                                  // "Noise_IK_25519_ChaChaPoly_SHA256"
    | Nothing                                                       // the empty byte string
    | Octet(value: byte)
    | Join(left: Term, right: Term)                                 // concatenation
    | ZeroKey
    | Public(owner: nat)                                            // the public key of a private key
    | LowOrder(point: nat)                                          // a point X25519 rejects
    | Shared(low: nat, high: nat)                                   // X25519 of two key owners
    | Foreign(own: nat, point': Term)                               // X25519 with a point of no known owner
    | Hash(left: Term, right: Term)                                 // SHA256(left || right)
    | Hmac(key: Term, data: Term)
    | Sealed(key: Term, nonce: nat, ad: Term, plain: Term)          // ChaCha20-Poly1305

  /** Raw X25519; `None` when the point is degenerate. */
  function Dh(ownPrivate: nat, peerPublic: Term): Option<Term> {
    match peerPublic
    case Public(owner) => Some(if ownPrivate <= owner then Shared(ownPrivate, owner) else Shared(owner, ownPrivate))
    case LowOrder(_) => None
    case _ => Some(Foreign(ownPrivate, peerPublic))
  }

  lemma DhCommutes(a: nat, b: nat)
    ensures Dh(a, Public(b)) == Dh(b, Public(a))
  {
  }

  /** Noise's two-output HKDF. */
  function Hkdf2(chainingKey: Term, ikm: Term): (Term, Term) {
    var temp := Hmac(chainingKey, ikm);
    var out1 := Hmac(temp, Octet(1));
    (out1, Hmac(temp, Join(out1, Octet(2))))
  }

  function AeadEncrypt(key: Term, nonce: nat, ad: Term, plain: Term): Term { Sealed(key, nonce, ad, plain) }

  function AeadDecrypt(key: Term, nonce: nat, ad: Term, ciphertext: Term): (r: Option<Term>)
    ensures r.Some? <==> ciphertext.Sealed? && ciphertext == AeadEncrypt(key, nonce, ad, ciphertext.plain)
  {
    if ciphertext.Sealed? && ciphertext.key == key && ciphertext.nonce == nonce && ciphertext.ad == ad
    then Some(ciphertext.plain) else None
  }

  /** The symmetric state as a value. */
  datatype Symmetric = Symmetric(h: Term, ck: Term, k: Term, hasKey: bool, n: nat)

  const INITIAL := Symmetric(ProtocolName, ProtocolName, ZeroKey, false, 0)

  function MixHash(s: Symmetric, data: Term): Symmetric { s.(h := Hash(s.h, data)) }

  function MixKey(s: Symmetric, ikm: Term): Symmetric {
    s.(ck := Hkdf2(s.ck, ikm).0, k := Hkdf2(s.ck, ikm).1, hasKey := true, n := 0)
  }

  function Encrypt(s: Symmetric, plain: Term): (Symmetric, Term) {
    if s.hasKey then
      var ct := AeadEncrypt(s.k, s.n, s.h, plain);
      (MixHash(s.(n := s.n + 1), ct), ct)
    else (MixHash(s, plain), plain)
  }

  function Decrypt(s: Symmetric, ciphertext: Term): Option<(Symmetric, Term)> {
    if s.hasKey then
      match AeadDecrypt(s.k, s.n, s.h, ciphertext)
      case None => None
      case Some(plain) => Some((MixHash(s.(n := s.n + 1), ciphertext), plain))
    else Some((MixHash(s, ciphertext), ciphertext))
  }

  class SymmetricState {
    var h: Term
    var ck: Term
    var k: Term
    var hasKey: bool
    var n: nat

    ghost function View(): Symmetric
      reads this
    {
      Symmetric(h, ck, k, hasKey, n)
    }

    constructor ()
      ensures View() == INITIAL
    {
      h, ck, k, hasKey, n := ProtocolName, ProtocolName, ZeroKey, false, 0;
    }

    method MixHashInto(data: Term)
      modifies this
      ensures View() == MixHash(old(View()), data)
      ensures h == Hash(old(h), data) && unchanged(`ck) && unchanged(`k) && unchanged(`hasKey) && unchanged(`n)
    {
      h := Hash(h, data);
    }

    method MixKeyInto(ikm: Term)
      modifies this
      ensures View() == MixKey(old(View()), ikm)
      ensures var temp := Hmac(old(ck), ikm);
              ck == Hmac(temp, Octet(1)) && k == Hmac(temp, Join(ck, Octet(2)))
      ensures hasKey && n == 0 && unchanged(`h)
    {
      var (newCk, tempK) := Hkdf2(ck, ikm);
      ck := newCk;
      k := tempK;
      hasKey := true;
      n := 0;
    }

    method EncryptAndHash(plain: Term) returns (ciphertext: Term)
      modifies this
      ensures (View(), ciphertext) == Encrypt(old(View()), plain)
      ensures ciphertext == if hasKey then Sealed(k, old(n), old(h), plain) else plain
      ensures n == (if hasKey then old(n) + 1 else old(n)) && h == Hash(old(h), ciphertext)
      ensures unchanged(`ck) && unchanged(`k) && unchanged(`hasKey)
    {
      if hasKey {
        ciphertext := AeadEncrypt(k, n, h, plain);
        n := n + 1;
      } else {
        ciphertext := plain;
      }
      MixHashInto(ciphertext);
    }

    /** On failure the state is left as it was. */
    method DecryptAndHash(ciphertext: Term) returns (plain: Option<Term>)
      modifies this
      ensures match Decrypt(old(View()), ciphertext)
              case None => plain == None && View() == old(View())
              case Some(r) => plain == Some(r.1) && View() == r.0
      ensures plain.None? ==> hasKey && forall p :: ciphertext != Sealed(k, n, h, p)
      ensures plain.Some? ==>
                && ciphertext == (if hasKey then Sealed(k, old(n), old(h), plain.value) else plain.value)
                && n == (if hasKey then old(n) + 1 else old(n)) && h == Hash(old(h), ciphertext)
    {
      if hasKey {
        plain := AeadDecrypt(k, n, h, ciphertext);
        if plain == None {
          return;
        }
        n := n + 1;
      } else {
        plain := Some(ciphertext);
      }
      MixHashInto(ciphertext);
    }

    method Split() returns (k1: Term, k2: Term)
      ensures (k1, k2) == Hkdf2(ck, Nothing)
      ensures var temp := Hmac(ck, Nothing);
              k1 == Hmac(temp, Octet(1)) && k2 == Hmac(temp, Join(k1, Octet(2)))
    {
      var (a, b) := Hkdf2(ck, Nothing);
      k1, k2 := a, b;
    }
  }
}

/** Custody of the ephemeral private key. Signing and verification are the platform's
    SHA256withRSA primitive, which the model takes as function parameters. */
module Security {
  import opened Common

  datatype PrivateKey = PrivateKey(material: Bytes)
  datatype PublicKey = PublicKey(material: Bytes)

  /** The signing primitive: a signature of the data under the private key. */
  type Signer = (PrivateKey, Bytes) -> Bytes

  /** The verification primitive: does the signature match the data under the public key? */
  type Verifier = (PublicKey, Bytes, Bytes) -> bool

  /** The controller's fields: the long-lived public key and the optional ephemeral key. */
  datatype SecurityController = SecurityController(publicKey: PublicKey, ephemeral: Option<PrivateKey>)

  /** A fresh controller holds the given public key and no ephemeral key. */
  function New(publicKey: PublicKey): (sc: SecurityController)
    ensures sc.publicKey == publicKey && sc.ephemeral == None
  {
    SecurityController(publicKey, None)
  }

  /** `loadEphemeralKey`: the given key is held, replacing any earlier one. */
  function LoadEphemeralKey(sc: SecurityController, key: PrivateKey): (r: SecurityController)
    ensures r.ephemeral == Some(key) && r.publicKey == sc.publicKey
  {
    sc.(ephemeral := Some(key))
  }

  /** `sign`: refused when no key is loaded, otherwise the signature under the loaded key.
      Signing changes nothing, so the function returns no new controller. */
  function Sign(sc: SecurityController, data: Bytes, signer: Signer): (r: Result<Bytes>)
    ensures r.Ok? <==> sc.ephemeral.Some?
    ensures sc.ephemeral.None? ==> r == Err(IllegalState)
    ensures sc.ephemeral.Some? ==> r.value == signer(sc.ephemeral.value, data)
  {
    match sc.ephemeral
    case None => Err(IllegalState)
    case Some(key) => Ok(signer(key, data))
  }

  /** `verify`: checks against the public key only; it never fails and changes nothing. */
  function Verify(sc: SecurityController, data: Bytes, signature: Bytes, verifier: Verifier): (ok: bool)
    ensures ok <==> verifier(sc.publicKey, data, signature)
  {
    verifier(sc.publicKey, data, signature)
  }

  /** Verification does not depend on the ephemeral key in any way. */
  lemma VerifyIgnoresEphemeralKey(sc: SecurityController, other: Option<PrivateKey>,
                                  data: Bytes, signature: Bytes, verifier: Verifier)
    ensures Verify(sc.(ephemeral := other), data, signature, verifier) == Verify(sc, data, signature, verifier)
  {
  }

  /** `destroyEphemeralKey`: no key is held afterwards. */
  function DestroyEphemeralKey(sc: SecurityController): (r: SecurityController)
    ensures r.ephemeral == None && r.publicKey == sc.publicKey
  {
    if sc.ephemeral.Some? then sc.(ephemeral := None) else sc
  }

  /** Destroying twice is destroying once, and signing afterwards is refused. */
  lemma DestroyIsIdempotentAndFinal(sc: SecurityController, data: Bytes, signer: Signer)
    ensures DestroyEphemeralKey(DestroyEphemeralKey(sc)) == DestroyEphemeralKey(sc)
    ensures Sign(DestroyEphemeralKey(sc), data, signer) == Err(IllegalState)
  {
  }

  /** A call that can be made on the controller. */
  datatype KeyCall = LoadCall(key: PrivateKey) | DestroyCall

  function Apply(sc: SecurityController, c: KeyCall): SecurityController {
    match c
    case LoadCall(key) => LoadEphemeralKey(sc, key)
    case DestroyCall => DestroyEphemeralKey(sc)
  }

  function ApplyAll(sc: SecurityController, calls: seq<KeyCall>): SecurityController
    decreases |calls|
  {
    if calls == [] then sc else ApplyAll(Apply(sc, calls[0]), calls[1..])
  }

  /** The public key is fixed at construction: no sequence of calls changes it. */
  lemma {:induction false} PublicKeyIsFixed(sc: SecurityController, calls: seq<KeyCall>)
    ensures ApplyAll(sc, calls).publicKey == sc.publicKey
    decreases |calls|
  {
    if calls != [] {
      PublicKeyIsFixed(Apply(sc, calls[0]), calls[1..]);
    }
  }
}

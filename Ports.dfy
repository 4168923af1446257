/** The collaborators the core calls but does not implement: the masked RSA
    service (IRSAService), the object serialiser (IObjectToByteArrayTransformer)
    and the random provider (IRandomProvider). Each is a record of functions
    passed in by the caller. What the model assumes about them is stated here as
    named predicates, and only the lemmas that need an assumption require it. */
module Ports {
  import opened Common
  import opened Ballots
  import opened Entities

  /** System.Security.Cryptography.RSAParameters; only passed around. */
  datatype RsaParameters = RsaParameters(modulus: Bytes, exponent: Bytes)

  /** The commission's key pair as the keys generator returns it. */
  datatype Keys = Keys(publicKey: RsaParameters, privateKey: RsaParameters)

  /** IRSAService. The calls the core makes inside Result.Try (demasking and
      decryption) may throw; the others are total here. The voter passes its
      mask multiplier to DemaskSignature even when it was never generated
      (null), so that argument is an Option. */
  datatype RsaService = RsaService(
    mask: (Bytes, RsaParameters, Bytes) -> Bytes,
    demaskSignature: (Bytes, RsaParameters, Option<Bytes>) -> Attempt<Bytes>,
    signHash: (Bytes, RsaParameters) -> Bytes,
    verifyHash: (Bytes, Bytes, RsaParameters) -> bool,
    encrypt: (Bytes, RsaParameters) -> Bytes,
    decrypt: (Bytes, RsaParameters) -> Attempt<Bytes>)

  /** IObjectToByteArrayTransformer at the two types the core serialises.
      ReverseTransform may throw or return null (None). */
  datatype ObjectToByteArrayTransformer = ObjectToByteArrayTransformer(
    ballotToBytes: Ballot -> Bytes,
    bytesToBallot: Bytes -> Attempt<Option<Ballot>>,
    signedBallotToBytes: SignedBallot -> Bytes,
    bytesToSignedBallot: Bytes -> Attempt<Option<SignedBallot>>)

  /** IRandomProvider. NextItem is generic in the item type, so all it can
      choose is a position; `choose(n)` is the position it picks among n items. */
  datatype RandomProvider = RandomProvider(choose: nat -> nat)

  /** IRandomProvider.NextItem: one of the given items. */
  function NextItem<T>(random: RandomProvider, items: seq<T>): (r: T)
    requires |items| > 0
    ensures r in items
  {
    items[random.choose(|items|) % |items|]
  }

  // ---- Assumptions about the collaborators (used only as lemma preconditions) ----

  /** Deserialising a serialised signed ballot gives it back. */
  ghost predicate SignedBallotRoundTrip(transformer: ObjectToByteArrayTransformer) {
    forall sb :: transformer.bytesToSignedBallot(transformer.signedBallotToBytes(sb)) == Returned(Some(sb))
  }

  /** Deserialising a serialised ballot gives it back. */
  ghost predicate BallotRoundTrip(transformer: ObjectToByteArrayTransformer) {
    forall b :: transformer.bytesToBallot(transformer.ballotToBytes(b)) == Returned(Some(b))
  }

  /** Decrypting with the private key undoes encrypting with the public key. */
  ghost predicate EncryptionRoundTrip(rsa: RsaService, keys: Keys) {
    forall data :: rsa.decrypt(rsa.encrypt(data, keys.publicKey), keys.privateKey) == Returned(data)
  }

  /** RSA signature soundness as the voter and the commission use it: a
      signature that the public key opens to bytes deserialising to ballot `b`
      passes VerifyHash for the serialised `b`. */
  ghost predicate OpenedSignaturesVerify(rsa: RsaService, transformer: ObjectToByteArrayTransformer, publicKey: RsaParameters) {
    forall signature, bytes, b ::
      rsa.decrypt(signature, publicKey) == Returned(bytes) &&
      transformer.bytesToBallot(bytes) == Returned(Some(b))
      ==> rsa.verifyHash(transformer.ballotToBytes(b), signature, publicKey)
  }

  /** The blind-signature law for mask multiplier `m`: signing a masked message
      with the private key and demasking the result with `m` gives a signature
      that the public key opens to the original message. */
  ghost predicate BlindSignatureLaw(rsa: RsaService, keys: Keys, m: Bytes) {
    forall data ::
      rsa.demaskSignature(rsa.signHash(rsa.mask(data, keys.publicKey, m), keys.privateKey), keys.publicKey, Some(m)).Returned? &&
      rsa.decrypt(rsa.demaskSignature(rsa.signHash(rsa.mask(data, keys.publicKey, m), keys.privateKey), keys.publicKey, Some(m)).value, keys.publicKey)
        == Returned(data)
  }
}

/**
 The envelope record, generic in the representation of identities `I`, public
 keys `P`, nonces `N` and ciphertexts `C`: the codec uses bytes for all four,
 the session model uses symbolic terms.
 */
module Wire {
  import opened Basics

  datatype BootstrapHeader<I, P> = BootstrapHeader(
    identityEd25519: I,
    identityX25519: P,
    ephemeralX25519: P,
    signedPrekeyId: int,
    oneTimePrekeyId: int)

  datatype Envelope<I, P, N, C> = Envelope(
    senderDevId: Bytes,
    recipientDevId: Bytes,
    ratchetPub: P,
    prevChainLen: int,
    msgNumber: int,
    bootstrap: Option<BootstrapHeader<I, P>>,
    nonce: N,
    ciphertext: C)
}

# Verified model of the chat backend and its two mobile apps

The repository is an end-to-end encrypted support chat: a user app and an admin
app that talk through a Go server. This project models the parts whose
correctness is hardest to see by reading them, and proves what they keep.

* **The session protocol** (`Crypto`, `Ratchet`, `X3dh`, `Session`,
  `Controllers`, `SessionInvariant`, `SessionRuns`, `SessionTheorems`,
  `SessionFifo`, `SessionLoss`, `SessionCases`, `SessionKeys`,
  `SessionContent`). X3DH, a Double Ratchet without a store of
  skipped keys, and the two chat controllers that load, advance and save it. A
  world is the two devices' stored state; a step is one controller call, which
  may crash before or right after it saves. The network delivers anything it
  has seen, in any order, any number of times, or never. One invariant places
  both stored ratchets on one chain of DH epochs (section 3.3 of Signal's "The
  X3DH Key Agreement Protocol", sections 3.3 to 3.5 of "The Double Ratchet
  Algorithm").
* **The byte formats** (`EnvelopeCodec`, `EnvelopeIo`, `RatchetBlob`): the
  envelope with its varints in 64-bit Dart integers, and the stored ratchet.
* **Refresh tokens** (`RefreshTokens`, `RefreshRuns`): one-time-use tokens in
  families, and the retention sweep over them.
* **One-time prekeys** (`Prekeys`): hand-out by concurrent transactions with
  row locks, and consume-and-delete on the device.
* **The DER walk** to a certificate's key (`Der`), **the WebSocket hub**
  (`Hub`), **the outbound queue and plaintext mirror** (`AdminSync`,
  `AdminSyncOrigin`, on the byte strings of `GoText`), and **the media sweep** (`MediaSweep`).

Code that updates state in place is a class whose methods are proved equal to a
function of the old state (`ChatController.SendText` is `UserSends`,
`RefreshStore.RefreshRotate` is `Rotate`, and so on); runs, invariants and
theorems are about those functions. A row for such a method therefore also
stands for the function it is equated with.

## Cryptographic assumptions

They are the datatypes and functions of module `Crypto`, and nothing else.
HMAC and HKDF are free constructors, so injective and free of collisions.
X25519 is the unordered pair of two scalars, and fresh scalars come from a
counter. AES-GCM opens exactly when key, nonce and associated data are those of
the seal. A signature verifies exactly when that identity signed that envelope,
and a device's signature covers only envelopes it let out (`Session.Unforged`).

## What turned out to have an exception

Each is stated as an exact condition, or with a lemma that exhibits it.

* A negative counter does not survive the envelope codec (`RoundTripIff`,
  `NormaliseIff`). A varint of ten bytes can be read as one
  (`TenBytesCanBeNegative`), and such an envelope is accepted but changes when
  it is encoded again (`NegativeCounterIsLost`); up to nine bytes it cannot
  (`NineByteVarintsNormalise`).
* The stored ratchet keeps its counters modulo 2^32 (`RestoredIff`). No key
  depends on that (`SavesKeepKeys`).
* A second delivery of a bootstrap that names no one-time prekey overwrites the
  admin's session (`ReplayedBootstrapIff`, with a run in `ReplayOverwrites`).
* A bootstrap is verified against the identity in its own header, so one of
  another identity under the user's device id replaces the session and the
  cached identity of the admin (`OtherIdentityReplaces`).
* `admin-mobile/lib/data/local_db.dart:174-176` says a one-time prekey is
  consumed after a successful X3DH run; `_handleBootstrap` consumes it before.
  A crash in between leaves a bootstrap nobody can answer, and so does a crash
  of the user between save and send (`FirstContactIff`, with runs in
  `ConsumedWithoutAnswer` and `SavedWithoutSending`).
* A device that crashes between saving the ratchet and storing the message never
  shows that message (`CrashBeforeInsertLoses`).
* A crash of the admin between saving its first ratchet and caching the user's
  identity leaves it deaf to everything else of that session
  (`UncachedIdentityIsFinal`, with a run in `UncachedIdentityOccurs`). Without a
  store of skipped keys, so do two lost messages, one each way
  (`LossesDeafen`). `StillHearsIff` says exactly when an admin is deaf. This is
  about one session: when the active admin device changes, `sendText` deletes
  the stored ratchet, and the bootstrap of the next send puts the devices back
  in touch from any state (`StartingOverHeals`).
* A replayed refresh token closes its family, but `RefreshIssue` with that
  family named explicitly would open it again (`ReplayIsFinal`,
  `NamedIssueReopens`); no caller in the repository names one.
* `backend/internal/retention/worker.go:161-163` promises that a queue row stays
  24 hours after it reaches a terminal state. Over every run that holds for sent
  rows (`SentTail`); a failed row is aged from its creation and can go with the
  next sweep (`FailedTailIff`, `FailedRowGoneAtOnce`).
* The message of a failure is cut at 1024 bytes. When the cut falls inside a
  character, or what is left of the message has a zero character, the database
  refuses it and the row stays pending (`FailureRecordedIff`, with inputs in
  `CutMessageIsLost` and `ZeroMessageIsLost`).
* When a sweep drops a media row after none has deleted the object, the object
  is left for good: its keys are gone, and no later sweep removes it
  (`OrphanIff`, with an instance in `OrphanOccurs`).
* The hub is safe because each connection registers once; a second registration
  would make it send on a closed channel (`SecondRegistrationPanics`).

## Model

| member | source | states |
|---|---|---|
| Crypto.DhAgrees | packages/kalki_crypto/lib/src/x3dh.dart:79-148 | the X25519 assumption: both ends compute one secret, and a secret pins the other scalar |
| Ratchet.DoubleRatchet.NextSendKey | packages/kalki_crypto/lib/src/ratchet.dart:105-110 | returns the chain's message key, advances the send chain and counter, touches nothing else |
| Ratchet.DoubleRatchet.NextRecvKey | packages/kalki_crypto/lib/src/ratchet.dart:113-118 | the same on the receive chain |
| Ratchet.DoubleRatchet.RatchetReceive | packages/kalki_crypto/lib/src/ratchet.dart:121-157 | the in-place DH step: both root steps, both new chains, pn taken from nSend, counters reset |
| Ratchet.RotationMeetsPeer | packages/kalki_crypto/lib/src/ratchet.dart:121-157 | a rotation lands the receive chain on the chain the peer opened, and the roots on one line |
| Ratchet.NthKeys | packages/kalki_crypto/lib/src/ratchet.dart:105-118 | message n of a chain is under HMAC of the constant 1 of the n-fold HMAC of the constant 2, on both ends, and nothing else of the ratchet moves |
| Ratchet.RotationKeys | packages/kalki_crypto/lib/src/ratchet.dart:121-205 | bytes 0 to 32 of each root KDF are the next root and bytes 32 to 64 the chain, first the receive chain, then the send chain |
| Ratchet.StartingKeys | packages/kalki_crypto/lib/src/ratchet.dart:35-92 | the initiator starts with one such step on the secret, the responder with the secret itself, all counters at 0 |
| Ratchet.MessageKeyIsNotStored | packages/kalki_crypto/lib/src/ratchet.dart:105-118 | a message key is not the chain key that stays behind |
| X3dh.SecretsAgreeIff | packages/kalki_crypto/lib/src/x3dh.dart:79-233 | both X3DH runs derive one secret if and only if the responder used exactly the private halves the initiator saw, one-time prekey included or left out alike |
| X3dh.InitiatorIsBoundIff | packages/kalki_crypto/lib/src/x3dh.dart:115-141 | seen from the responder's keys, the secrets agree if and only if identity, ephemeral key and one-time prekey are those the initiator used |
| X3dh.SharesInOrder | packages/kalki_crypto/lib/src/x3dh.dart:115-141 | the secret is derived from DH(IKA, SPKB), DH(EKA, IKB), DH(EKA, SPKB) and, with a one-time prekey, DH(EKA, OPKB), in the order of section 3.3 of X3DH |
| X3dh.BootstrapMeets | packages/kalki_crypto/lib/src/x3dh.dart:115-141 | with and without a one-time prekey, responder() and ratchetReceive give the initiator's first send chain as receive chain, and a root one step ahead |
| Controllers.ChatController.SendText | mobile/lib/features/chat/chat_controller.dart:80-193 | sendText: bootstrap when there is no session, seal, save the advanced ratchet, and only then let the envelope out; what survives a crash at either point |
| Controllers.ChatController.HandleIncoming | mobile/lib/features/chat/chat_controller.dart:335-406 | bootstraps, unknown peers and bad signatures change nothing; the ratchet is saved only after the envelope opened |
| Controllers.AdminChatController.SendReply | admin-mobile/lib/features/chat/admin_chat_controller.dart:119-182 | replies only within a session, and saves before sending |
| Controllers.AdminChatController.HandleIncoming | admin-mobile/lib/features/chat/admin_chat_controller.dart:230-250 | dispatch on the envelope type |
| Controllers.AdminChatController.HandleBootstrap | admin-mobile/lib/features/chat/admin_chat_controller.dart:252-354 | verify, look up the signed prekey, consume the one-time prekey, respond, rotate, open, save, cache the identity, store the message, in this order, with every early return and a crash at any point between the writes |
| Controllers.AdminChatController.HandleSteadyState | admin-mobile/lib/features/chat/admin_chat_controller.dart:356-410 | the admin's side of a type-0 envelope |
| Controllers.AdminChatController.ConsumeOneTimePrekey | admin-mobile/lib/data/local_db.dart:177-193 | returns the private half if there is one, and the row is gone either way |
| SessionInvariant.ChainKeysDiffer | packages/kalki_crypto/lib/src/ratchet.dart:187-205 | the chain keys of all epochs at all counts are pairwise distinct |
| SessionInvariant.OpensIffExpected | packages/kalki_crypto/lib/src/ratchet.dart:113-157 | the derived key opens an envelope of the session if and only if it is the next of the current epoch or the first of the next one |
| SessionInvariant.RotationExtends | packages/kalki_crypto/lib/src/ratchet.dart:121-157 | accepting the first message of the peer's new epoch opens exactly one more epoch, two ahead of the old one |
| SessionRuns.StepKeeps | mobile/lib/features/chat/chat_controller.dart:80-406 | every possible step of either device, crashes included, keeps the joint invariant of both ratchets, both logs and the network |
| SessionRuns.RunKeeps | mobile/lib/features/chat/chat_controller.dart:80-406 | so does every run |
| SessionTheorems.RootsAreAdjacent | packages/kalki_crypto/lib/src/ratchet.dart:121-157 | in every reachable state both roots lie on one root chain at adjacent positions; it starts at the signed prekey with the secret both X3DH runs derive from the bootstrap, and each chain key is the n-fold KDF step of the chain born there |
| SessionTheorems.AcceptedIsSelection | mobile/lib/features/chat/chat_controller.dart:384-405 | on any network that carries no bootstrap of another identity under the user's device, each device accepts a strictly increasing selection of what the peer let out, plaintext for plaintext |
| SessionTheorems.AcceptedInOrder | packages/kalki_crypto/lib/src/ratchet.dart:148-150 | per DH key a gapless prefix, no DH key in two runs, and prevChainLen at least what was accepted of the previous chain |
| SessionTheorems.MessageKeysAreUnique | mobile/lib/features/chat/chat_controller.dart:142-192 | no two envelopes of a session, of either device, were sealed with one message key, across all chains and crashes |
| SessionKeys.KeysAreSeparate | packages/kalki_crypto/lib/src/ratchet.dart:105-205 | for any two reachable states, however far apart: a key that sealed an envelope in one is neither stored nor used in a stored key in the other, and no other sealing key is computed from it |
| SessionTheorems.UserAcceptsIff | mobile/lib/features/chat/chat_controller.dart:381-405 | the user takes a genuine envelope if and only if it is the next under the current DH key or the first under one never accepted; otherwise the stored state is unchanged |
| SessionTheorems.AdminAcceptsIff | admin-mobile/lib/features/chat/admin_chat_controller.dart:356-410 | the same for the admin, if and only if it also has the user's identity in its cache |
| SessionTheorems.UserStaysInStep | packages/kalki_crypto/lib/src/ratchet.dart:113-157 | whatever packet arrives, an accepted one carries the receiver's own count as msgNumber |
| SessionTheorems.AdminStaysInStep | packages/kalki_crypto/lib/src/ratchet.dart:113-157 | the same for the admin |
| SessionTheorems.NotAcceptedMeansUntouched | admin-mobile/lib/features/chat/admin_chat_controller.dart:387-393 | a remark on the order of the writes: for any packet and any crash, what is not accepted leaves the stored state as it was |
| SessionTheorems.ReplayedBootstrapIff | admin-mobile/lib/features/chat/admin_chat_controller.dart:285-330 | a bootstrap delivered again leaves the stored session alone if and only if it named a one-time prekey |
| SessionFifo.EverythingDeliveredOpens | packages/kalki_crypto/lib/src/ratchet.dart:105-157 | over lossless in-order channels, for every interleaving and any number of rotations, each device has accepted exactly what it was handed, and prevChainLen equals what was accepted of the previous chain |
| SessionContent.TypedArrives | mobile/lib/features/chat/chat_controller.dart:142-192 | over lossless in-order channels each device shows exactly the first texts typed at the other, as many as it was handed |
| SessionContent.AcceptedWasTyped | mobile/lib/features/chat/chat_controller.dart:142-192 | on any network what a device accepted was typed at the other, in that order, each text at most once |
| SessionContent.AcceptedOnce | mobile/lib/features/chat/chat_controller.dart:384-405 | no envelope is accepted twice, on either device |
| SessionContent.CrashBeforeInsertLoses | mobile/lib/features/chat/chat_controller.dart:387-398 | a message whose device crashes between saving the ratchet and storing the text is never shown, whatever is delivered later |
| SessionContent.UserStartsIff | mobile/lib/features/chat/chat_controller.dart:215-297 | without a session, for every bundle, the user app does something if and only if the bundle's identity signed its prekey; then the session is with that prekey and one bootstrap goes out |
| SessionContent.SessionsAreSigned | packages/kalki_crypto/lib/src/x3dh.dart:235-253 | in any run with any bundles a session was started at some step against a signed prekey, which it uses, and the identity that signed it is cached |
| SessionContent.TypedIsSealed | mobile/lib/features/chat/chat_controller.dart:142-160 | within a session both apps let out one more envelope: the typed text, from and to the right devices, at the ratchet's place, with sender, recipient and number as associated data |
| SessionContent.NoReplyWithoutSession | admin-mobile/lib/features/chat/admin_chat_controller.dart:119-140 | a device without a session sends no reply |
| SessionContent.OpensIffUntouched | packages/kalki_crypto/lib/src/envelope.dart:180-197 | an envelope opens exactly under its key and nonce and for the sender, recipient and number it was sealed for |
| SessionContent.TakesIff | admin-mobile/lib/features/chat/admin_chat_controller.dart:356-410 | a type-0 envelope is taken exactly with a session, the signature of the cached identity, and the key of the current chain or of a rotation; on both devices |
| SessionContent.UserOnlyInitiates | mobile/lib/features/chat/chat_controller.dart:346-356 | the user app takes no bootstrap |
| SessionContent.AnswersIff | admin-mobile/lib/features/chat/admin_chat_controller.dart:259-335 | a bootstrap is answered exactly when its header's identity signed it, its prekeys are known and it opens; the one-time prekey goes before it is opened |
| SessionContent.NamedKeysIff | admin-mobile/lib/features/chat/admin_chat_controller.dart:302-325 | a bootstrap is accepted if and only if its header names the X25519 identity and ephemeral key it was made with |
| SessionLoss.FirstContactIff | admin-mobile/lib/features/chat/admin_chat_controller.dart:285-331 | while the user keeps its stored session, the admin can still come to hold one, by some run, if and only if the bootstrap got out and its one-time prekey is still there |
| SessionLoss.StillHearsIff | admin-mobile/lib/features/chat/admin_chat_controller.dart:356-410 | within a session some run makes the admin accept another message if and only if it has the user's identity and either awaits something that left the user or is sealed next, or the user can be made to rotate |
| SessionLoss.UncachedIdentityIsFinal | admin-mobile/lib/features/chat/admin_chat_controller.dart:326-331 | after a crash between saving the ratchet and caching the identity no run of the session makes the admin accept another message |
| SessionCases.ConsumedWithoutAnswer | admin-mobile/lib/features/chat/admin_chat_controller.dart:285-325 | a reachable state in which the admin's crash has used up the prekey of a bootstrap it did not answer |
| SessionCases.SavedWithoutSending | mobile/lib/features/chat/chat_controller.dart:157-192 | a reachable state in which the user's session is saved and its bootstrap never left |
| SessionCases.UncachedIdentityOccurs | admin-mobile/lib/features/chat/admin_chat_controller.dart:326-331 | for every one-time prekey a reachable state in which the admin holds a session, lacks the identity and is deaf |
| SessionCases.ReplayOverwrites | admin-mobile/lib/features/chat/admin_chat_controller.dart:285-330 | a reachable state in which the bootstrap handed over again replaces the session |
| SessionCases.LossesDeafen | packages/kalki_crypto/lib/src/ratchet.dart:113-157 | a reachable state with everything cached in which two lost messages have made the admin deaf |
| SessionCases.StartingOverHeals | mobile/lib/features/chat/chat_controller.dart:113-192 | from any state of both devices, deleting the stored ratchet and sending again gets that message accepted, and both devices take each other's next message, whatever it says |
| SessionCases.OtherIdentityReplaces | admin-mobile/lib/features/chat/admin_chat_controller.dart:259-335 | in every state of the admin a well-formed bootstrap of another identity under the user's device is accepted, replaces the session and the cached identity, and makes the admin discard every type-0 envelope that identity did not sign |
| EnvelopeCodec.GroupsOfVarint | packages/kalki_crypto/lib/src/envelope.dart:229-246 | reading what the varint writer wrote gives the number and the untouched rest; a negative one loses all but seven bits |
| EnvelopeCodec.VarintAt | packages/kalki_crypto/lib/src/envelope.dart:229-235 | byte k of a varint is the k-th group of seven bits, with the top bit on all bytes but the last |
| EnvelopeCodec.VarintIsShort | packages/kalki_crypto/lib/src/envelope.dart:229-235 | a varint is as short as it can be |
| EnvelopeCodec.NegativeVarint | packages/kalki_crypto/lib/src/envelope.dart:229-235 | a negative number is written as its low seven bits |
| EnvelopeCodec.NineBytesAreExact | packages/kalki_crypto/lib/src/envelope.dart:237-246 | a varint of at most nine bytes is read as the number it spells |
| EnvelopeCodec.RoundTripIff | packages/kalki_crypto/lib/src/envelope.dart:62-135 | for both types, fromBytes(toBytes(e)) = e if and only if no number of e is negative |
| EnvelopeCodec.EncodeInjective | packages/kalki_crypto/lib/src/envelope.dart:62-81 | toBytes is injective |
| EnvelopeCodec.AadInjective | packages/kalki_crypto/lib/src/envelope.dart:221-227 | the associated data is injective |
| EnvelopeCodec.Layout | packages/kalki_crypto/lib/src/envelope.dart:62-81 | where each field is, counted from the first byte, for both types |
| EnvelopeCodec.AadLayout | packages/kalki_crypto/lib/src/envelope.dart:221-227 | sender, recipient, message number, in this order |
| EnvelopeCodec.OtherVersionsAreRefused | packages/kalki_crypto/lib/src/envelope.dart:83-92 | only version 1 and the types 0 and 1 are read |
| EnvelopeCodec.ParseExtends | packages/kalki_crypto/lib/src/envelope.dart:83-135 | bytes behind an accepted input go to the ciphertext and nowhere else |
| EnvelopeCodec.TruncationIsRefused | packages/kalki_crypto/lib/src/envelope.dart:83-135 | an encoded envelope that is cut is accepted if and only if the cut is in its ciphertext |
| EnvelopeCodec.NormaliseIff | packages/kalki_crypto/lib/src/envelope.dart:62-135 | on every accepted input, re-encoding keeps the envelope if and only if no number was read as negative; then it is idempotent and never longer |
| EnvelopeCodec.NineByteVarintsNormalise | packages/kalki_crypto/lib/src/envelope.dart:229-246 | that is always so when each varint of the input takes at most nine bytes |
| EnvelopeCodec.TenBytesCanBeNegative | packages/kalki_crypto/lib/src/envelope.dart:237-246 | nine empty groups and a one are read as the least 64-bit integer, whatever follows |
| EnvelopeCodec.NegativeCounterIsLost | packages/kalki_crypto/lib/src/envelope.dart:83-135 | with such a prevChainLen any envelope is accepted, and changes when it is encoded and parsed again |
| EnvelopeIo.WriteVarint | packages/kalki_crypto/lib/src/envelope.dart:229-235 | the loop appends exactly the base-128 groups |
| EnvelopeIo.ToBytes | packages/kalki_crypto/lib/src/envelope.dart:62-81 | the growing buffer ends as the layout |
| EnvelopeIo.AadBytes | packages/kalki_crypto/lib/src/envelope.dart:221-227 | the associated data is built as specified |
| EnvelopeIo.ReadFromIsGroups | packages/kalki_crypto/lib/src/envelope.dart:237-246 | shifting groups together in 64-bit integers gives the low 64 bits of the number they spell, for any number of groups |
| EnvelopeIo.ReadVarintAt | packages/kalki_crypto/lib/src/envelope.dart:237-246 | the cursor loop reads that number, stops behind it, and fails exactly when the input ends first |
| EnvelopeIo.FromBytes | packages/kalki_crypto/lib/src/envelope.dart:83-135 | the cursor walk parses exactly what the layout says and fails on everything else |
| EnvelopeIo.SealedMessageArrives | packages/kalki_crypto/lib/src/envelope.dart:145-219 | seal, toBytes, fromBytes, verify over the receiver's own re-serialisation, open: the plaintext comes out |
| EnvelopeIo.OpensIffUntouched | packages/kalki_crypto/lib/src/envelope.dart:145-197 | on bytes: a sealed envelope opens exactly for the sender, recipient, number, nonce and key it was sealed with |
| RatchetBlob.EncodeRatchet | mobile/lib/data/local_db.dart:206-226 | the buffer ends as the blob layout |
| RatchetBlob.DecodeRatchet | mobile/lib/data/local_db.dart:228-255 | the cursor over the blob reads exactly what the layout says and fails on everything else |
| RatchetBlob.DecodeOfEncode | admin-mobile/lib/data/local_db.dart:279-327 | every field comes back, each counter modulo 2^32 |
| RatchetBlob.BlobLayout | mobile/lib/data/local_db.dart:206-226 | where each of the six keys and three counters of a stored ratchet is, counters most significant byte first |
| RatchetBlob.RestoredIff | mobile/lib/data/local_db.dart:206-255 | a blob restores its ratchet if and only if the counters fit in 32 bits |
| RatchetBlob.SavesKeepKeys | mobile/lib/data/local_db.dart:135-157 | saving and loading at any points of any run changes no key, and no field of the state but counters by multiples of 2^32, whatever the primitives compute |
| RatchetBlob.SavesAreTransparent | mobile/lib/data/local_db.dart:135-157 | when the counters fit in 32 bits at each save of the run, they change nothing at all |
| RefreshTokens.SplitRefresh | backend/internal/auth/refresh.go:134-141 | the loop splits at the first dot, or says there is none |
| RefreshTokens.SplitIsFirstDot | backend/internal/auth/refresh.go:134-141 | the parts joined by a dot are the token, and the id has no dot |
| RefreshTokens.CtEq | backend/internal/auth/refresh.go:144-153 | the collected difference bits are zero if and only if the digests are equal |
| RefreshTokens.RefreshStore.RefreshIssue | backend/internal/auth/refresh.go:17-35 | inserts one unused row, in a new family unless one is named |
| RefreshTokens.RefreshStore.RefreshRotate | backend/internal/auth/refresh.go:40-107 | every outcome in the source's order: malformed, unknown, wrong secret, revoked or expired, replayed with the family revoked, rotated |
| RefreshTokens.RefreshStore.RefreshRevoke | backend/internal/auth/refresh.go:110-117 | stamps the named row, without looking at the secret |
| RefreshTokens.RefreshStore.RefreshRevokeDevice | backend/internal/auth/refresh.go:120-126 | stamps every unrevoked row of the device |
| RefreshTokens.RefreshStore.PurgeAuth | backend/internal/retention/worker.go:148-153 | deletes exactly the rows revoked 30 or expired 7 days ago |
| RefreshRuns.PurgeIsUnobservable | backend/internal/retention/worker.go:148-153 | from any table, every call of a run with purges answers as in the same run without them |
| RefreshRuns.ReplayIsFinal | backend/internal/auth/refresh.go:74-84 | after a replay answer for a family no rotation in it succeeds, in any continuation, unless an issue names the family again |
| RefreshRuns.NamedIssueReopens | backend/internal/auth/refresh.go:17-35 | for every table, an issue that names a family hands out a token that rotates in it |
| RefreshRuns.FamiliesAreLines | backend/internal/auth/refresh.go:71-106 | in every reachable table a family has one device and at most one unused row |
| RefreshRuns.RotatesAtMostOnce | backend/internal/auth/refresh.go:71-106 | two presentations of one token never both rotate, over the whole run |
| RefreshRuns.WrongSecretIsRefused | backend/internal/auth/refresh.go:68-70 | a wrong secret, like an unknown id, is refused and changes nothing |
| RefreshRuns.OnlyTheSecretRotates | backend/internal/auth/refresh.go:17-107 | in any run from the empty table, whoever rotates or replays a token presents a secret with the hash of the one that some call handed out with that id |
| RefreshRuns.RightSecretIff | backend/internal/auth/refresh.go:71-106 | with the right secret, exactly when the answer is a refusal, a replay, a collision or a new token |
| RefreshRuns.RefusedOutright | backend/internal/auth/refresh.go:17-45 | an id that is taken is not issued again, and text without a dot is no token |
| RefreshRuns.TokenAnswersIff | backend/internal/auth/refresh.go:17-126 | over any run with purges, a token that was handed out is refused exactly if it has expired, it or its device was revoked, or a token of its family was replayed; otherwise it is a replay if it was rotated before, and rotates if not |
| RefreshRuns.SweepTakesIff | backend/internal/retention/worker.go:148-153 | an unrevoked row goes 7 days after it expired, a revoked one 30 days after it was revoked, in each of the three ways, or then |
| RefreshRuns.FirstRevocationCounts | backend/internal/auth/refresh.go:74-126 | a revoked row keeps its date when its device or family is revoked; a second revocation by token renews it |
| Prekeys.PrekeyStore.PrekeysUpload | backend/internal/api/prekeys.go:26-74 | more than 100 are refused; a bad key stops the loop with the keys before it inserted; known ids are skipped |
| Prekeys.PrekeyStore.PrekeysFetchSelect | backend/internal/api/prekeys.go:113-122 | locks the first unconsumed row of the device that nobody has locked |
| Prekeys.PrekeyStore.PrekeysFetchCommit | backend/internal/api/prekeys.go:123-160 | marks the locked row consumed, releases it, and answers with its id and key |
| Prekeys.RunKeepsInv | backend/internal/api/prekeys.go:26-160 | in every run locks are exclusive, answered rows are consumed or gone, and answers show the row's own id and key |
| Prekeys.EachRowServesOnce | backend/internal/api/prekeys.go:113-141 | over any interleaving of uploads, fetch transactions, aborts and purges no row reaches two answered bundles |
| Prekeys.SelectionIsExclusive | backend/internal/api/prekeys.go:113-122 | the lowest free row is taken, no open transaction has it, and a fetch goes without a prekey only if every unconsumed row is locked |
| Prekeys.CommitServesUploaded | backend/internal/api/prekeys.go:113-160 | a fetch that locked a row answers with that row's id and key, which some upload of that device contained |
| Prekeys.UploadIsStored | backend/internal/api/prekeys.go:52-71 | an upload leaves every id up to the first bad key known, and stores the key of a new id as it came |
| Prekeys.UnusedKeysStay | backend/internal/retention/worker.go:140-145 | only the commit of the fetch that locked it uses up a key, and no sweep takes it before |
| Prekeys.UsedKeysGo | backend/internal/retention/worker.go:140-145 | a used key goes with the first sweep that is for it |
| Prekeys.AbortReleases | backend/internal/api/prekeys.go:84-88 | a fetch that is given up leaves no answer and no lock |
| Prekeys.LocksHold | backend/internal/api/prekeys.go:113-141 | a row stays locked until the fetch that holds it commits or is given up |
| Prekeys.EachHalfServesOnce | admin-mobile/lib/data/local_db.dart:159-193 | on the device each private half serves at most one responder run, over any inserts and consumes |
| Prekeys.ServesOnRequest | admin-mobile/lib/data/local_db.dart:159-193 | a half filed under a free id serves the next bootstrap that names it and none after |
| Prekeys.FiledHalfStays | admin-mobile/lib/data/local_db.dart:159-172 | filing another half under a taken id changes nothing |
| Der.ReadDerLength | packages/schat_cert_pinning/ios/Classes/SchatCertPinningPlugin.swift:203-212 | short form, long form of one to four octets, or nothing; never reads outside the data |
| Der.LengthIff | packages/schat_cert_pinning/ios/Classes/SchatCertPinningPlugin.swift:203-212 | a length is read exactly where definite length octets of at most four bytes stand (section 8.1.3 of X.690) |
| Der.BigEndianOfDigits | packages/schat_cert_pinning/ios/Classes/SchatCertPinningPlugin.swift:203-212 | octets are read as the number whose digits to the base 256 they are |
| Der.ExtractSubjectPublicKeyInfo | packages/schat_cert_pinning/ios/Classes/SchatCertPinningPlugin.swift:167-198 | on any bytes the walk terminates, stays in range and finds what the specification of the walk finds |
| Der.ExtractIsSequence | packages/schat_cert_pinning/ios/Classes/SchatCertPinningPlugin.swift:188-197 | on any bytes, what is returned is a slice of them that starts with 0x30 |
| Der.OtherShapesAreRefused | packages/schat_cert_pinning/ios/Classes/SchatCertPinningPlugin.swift:167-178 | nothing is returned unless the data starts with a non-empty SEQUENCE whose first element is one too |
| Der.ExtractsSpki | packages/schat_cert_pinning/ios/Classes/SchatCertPinningPlugin.swift:167-198 | from every well-formed certificate (section 4.1 of RFC 5280), with or without version, exactly the SubjectPublicKeyInfo element |
| Hub.HubServer.ProcessRegister | backend/internal/ws/hub.go:78-106 | the previous connection of the device is closed and replaced |
| Hub.HubServer.ProcessUnregister | backend/internal/ws/hub.go:107-117 | removed and closed only if it is still its device's entry |
| Hub.HubServer.RouteByChannel | backend/internal/ws/hub.go:239-270 | the loop over the table, in any order, offers the event to exactly the addressed connections |
| Hub.HubServer.BroadcastToAll | backend/internal/ws/hub.go:283-292 | the loop waits on each connection in turn and offers it the event; the order and the progress of the write pumps during it make no difference |
| Hub.HubServer.Close | backend/internal/ws/hub.go:295-302 | the loop empties the table and closes each entry once |
| Hub.NothingPanics | backend/internal/ws/hub.go:71-120 | over any interleaving no channel is closed twice or sent on after closing, and a processed connection is open if and only if it is its device's entry |
| Hub.ReplacementSurvives | backend/internal/ws/hub.go:78-117 | at any later point of any run a registered connection is its device's entry and open if and only if the device has not reconnected, it has not unregistered and the hub has not closed; no stale unregister evicts it |
| Hub.RoutesToOpenClients | backend/internal/ws/hub.go:239-270 | an event reaches exactly the open connections its channel addresses that have room |
| Hub.RoutesByName | backend/internal/ws/hub.go:239-270 | a device channel reaches that device, a user channel the user connections of that owner, team:admins the admins, any other channel nobody |
| Hub.DrainTakesOldest | backend/internal/ws/conn.go:68-80 | events leave a connection's buffer in the order they came, and only its own |
| Hub.BuffersSurvive | backend/internal/ws/hub.go:78-117 | what is buffered stays readable when connections come and go and when the hub closes |
| Hub.QueuesFit | backend/internal/ws/conn.go:49-56 | in every run no send buffer exceeds its 64 places |
| Hub.BroadcastReachesPrompt | backend/internal/ws/hub.go:283-292 | a broadcast that nothing interrupts is the last event of every open connection that makes room in time, and a closed one gets nothing |
| Hub.BroadcastSendArrives | backend/internal/ws/hub.go:283-292 | with routing between its sends, each send still arrives at a connection that makes room, and touches no other |
| Hub.SecondRegistrationPanics | backend/internal/ws/conn.go:49-56 | registering one connection twice would put a closed channel in the table |
| AdminSync.SyncStore.AdminSyncInbound | backend/internal/api/admin_sync.go:80-156 | all refusals in order, the length in bytes, the direction derived from the recipient, and an existing mirror row left alone |
| AdminSyncOrigin.InboundTakenIff | backend/internal/api/admin_sync.go:80-156 | a post is taken exactly from an admin at one end of a known message with a body of 1 to 65536 bytes of text, and what it stores |
| AdminSyncOrigin.InboundRefusal | backend/internal/api/admin_sync.go:80-134 | why a post is refused, in the source's order |
| AdminSync.SyncStore.AdminSyncOutboundEnqueue | backend/internal/api/admin_sync.go:172-226 | trims, then all refusals in order, otherwise one pending row |
| AdminSyncOrigin.QueuedIff | backend/internal/api/admin_sync.go:172-226 | a reply is queued exactly for a known user when 1 to 16384 bytes of text are left after trimming |
| AdminSyncOrigin.EnqueueRefusal | backend/internal/api/admin_sync.go:172-208 | why a reply is refused, in the source's order |
| AdminSync.QueuedAsTyped | backend/internal/api/admin_sync.go:187-217 | the queued body is the typed text without exactly the white space around it, and never blank |
| GoText.TrimSpaceSplits | backend/internal/api/admin_sync.go:187 | trimming removes white space at both ends and all of it |
| GoText.SpaceIff | backend/internal/api/admin_sync.go:187 | which code points are white space |
| AdminSync.SyncStore.AdminSyncOutboundAck | backend/internal/api/admin_sync.go:295-387 | only a pending row changes; failed with the error cut to 1024 bytes, or sent and mirrored; nothing when a statement fails |
| AdminSyncOrigin.AcknowledgedIff | backend/internal/api/admin_sync.go:327-386 | an acknowledgement takes effect exactly on a pending row, naming a known message or none, and then mirrors the queued body as outbound unless a row is there |
| AdminSync.FailureRecordedIff | backend/internal/api/admin_sync.go:309-325 | a failure is recorded if and only if what is kept of its message has no zero character and the cut does not fall inside a character; otherwise nothing changes |
| AdminSync.CutMessageIsLost | backend/internal/api/admin_sync.go:309-325 | a message the database would take whole that is refused after the cut |
| AdminSync.ZeroMessageIsLost | backend/internal/api/admin_sync.go:309-325 | a short message that is refused because of a zero character |
| GoText.CutIff | backend/internal/api/admin_sync.go:389-394 | a prefix of UTF-8 text is UTF-8 text if and only if the cut does not fall inside a character |
| GoText.EncodedIsOneChar | backend/internal/api/admin_sync.go:389-394 | the characters the cut can hit are the UTF-8 forms of the Unicode scalar values (section 3 of RFC 3629) |
| GoText.CharsAreEncoded | backend/internal/api/admin_sync.go:389-394 | and nothing else is one |
| AdminSync.RunIsConsistent | backend/internal/api/admin_sync.go:140-145 | in every run each mirror row agrees with its live message on conversation and time |
| AdminSync.MirrorIsNeverRewritten | backend/internal/api/admin_sync.go:140-145 | while a mirror row lives nothing in it changes, over whole runs |
| AdminSyncOrigin.MirrorOrigin | backend/internal/api/admin_sync.go:140-145 | in any run a new mirror row is what an admin at one end of its message posted, or what was queued and then acknowledged with it |
| AdminSyncOrigin.QueueOrigin | backend/internal/api/admin_sync.go:210-217 | in any run a new queue row is what its admin typed for its user, trimmed |
| AdminSyncOrigin.MessageTailIff | backend/internal/retention/worker.go:79-91 | over any run a message stays exactly until the first sweep for which it is older than the time to live |
| AdminSyncOrigin.MirrorTailIff | backend/internal/retention/worker.go:159-173 | over any run a mirror row stays exactly until its message goes or a sweep comes 30 days after it was decrypted |
| AdminSync.ItemsAreStable | backend/internal/api/admin_sync.go:314-383 | while a queue row lives its body stays, and once terminal so do status, error and send time |
| AdminSync.PendingIsNeverSwept | backend/internal/retention/worker.go:159-184 | a pending row that is not acknowledged is still there after any run |
| AdminSync.TerminalTailIff | backend/internal/retention/worker.go:174-179 | over any run a terminal row stays if and only if no sweep comes more than 24 hours after its stamp |
| AdminSync.SentTail | backend/internal/retention/worker.go:159-184 | over any run after its acknowledgement a sent row stays, sent, if and only if every sweep comes within 24 hours |
| AdminSync.FailedTailIff | backend/internal/retention/worker.go:159-184 | a failed row survives every continuation whose sweeps come within 24 hours if and only if it was not created before the failure |
| AdminSync.FailedRowGoneAtOnce | backend/internal/retention/worker.go:174-179 | an instance: queued 25 hours before it fails, and gone with the next sweep |
| MediaSweep.MediaStore.DeleteObject | backend/internal/retention/worker.go:123-127 | a blob delete is attempted only when no wrapped key of the blob remains |
| MediaSweep.MediaStore.PurgeMedia | backend/internal/retention/worker.go:94-137 | for every batch and every pattern of failures: the final state, which the next sweep can start from, and no object is gone while a key of it is left |
| MediaSweep.EveryStageErasesFirst | backend/internal/retention/worker.go:118-136 | the same after every single effect, so wherever the worker stops |
| MediaSweep.RunErasesFirst | backend/internal/retention/worker.go:94-137 | over any number of sweeps with any failures, every object that goes leaves no wrapped key behind |
| MediaSweep.YoungBlobsStay | backend/internal/retention/worker.go:94-103 | over any sweeps a blob within the time to live keeps its row, its keys and its object |
| MediaSweep.OnlyYoungBlobsStay | backend/internal/retention/worker.go:94-137 | an error-free sweep of at most 500 older blobs leaves exactly the young ones |
| MediaSweep.OrphanIff | backend/internal/retention/worker.go:123-132 | over any number of sweeps, an object outlives its row exactly when some sweep dropped the row and none had deleted the object; then its keys are gone, and no later sweep removes it |
| MediaSweep.OrphanIsForever | backend/internal/retention/worker.go:94-103 | a blob without a row is in no later batch, and its object is never touched |
| MediaSweep.OrphanOccurs | backend/internal/retention/worker.go:123-132 | an instance: one blob and one sweep in which only the delete of the object fails |
| MediaSweep.OneRound | backend/internal/retention/worker.go:94-137 | an error-free sweep takes a full batch, or all that is expired |
| MediaSweep.ClearedInCeilRounds | backend/internal/retention/worker.go:94-137 | n expired blobs are gone after ceil(n/500) error-free rounds, and not before |

## Left out

Assumptions of the session model:

- One controller call is atomic per peer: the code awaits between loadRatchet and saveRatchet without a lock, and nothing is claimed about two overlapping calls.
- The signed prekey is the same at bundle fetch and at bootstrap; ensureProvisioned can regenerate it under the same id.
- `Session.Possible` admits genuine bundles only, excludes bootstraps signed by other identities under the user's device, and excludes a second delivery of a bootstrap without one-time prekey; what such deliveries do is `SessionCases.OtherIdentityReplaces` and `ReplayedBootstrapIff`.
- SessionTheorems.AcceptedIsSelection: for runs within these bounds, like every theorem about runs.
- Sessions with several peers: each world holds the one session of one pair of devices.
- SessionLoss.FirstContactIff: its runs, like all runs here, stay within one stored session of the user; deleteRatchet and the bootstrap after it are `SessionCases.StartingOverHeals`.
- SessionLoss.StillHearsIff: the same; and for the admin only, for bootstraps with a one-time prekey.
- SessionLoss.UncachedIdentityIsFinal: the same.
- The stored ratchet is a value in the session model; that the blob carries it faithfully is proved separately in `RatchetBlob`, for the byte form. Both apps' encoders are the same code and are modelled once.
- Uploading new one-time prekeys during a session: the admin's table only shrinks there (`Prekeys` has the inserts).
- The sets of seen server ids, the outbox and backfill: they only cause duplicates, which the network already makes.
- Device tags are given byte strings; the cut of ids to 16 bytes is not modelled.
- Liveness beyond `SessionLoss`: that a particular message gets through, and the user's side of it.

Assumptions and limits elsewhere:

- EnvelopeIo.ReadVarintAt: the source's `|=` is 64-bit addition here, since the groups share no bit; integers are Dart's native 64-bit ones, not those of a JavaScript build.
- EnvelopeIo.SealedMessageArrives: the cipher and the signature scheme are arbitrary functions that open and verify what they made; the nonce is part of the draft.
- RefreshRuns.PurgeIsUnobservable: both clocks run forward, the server's clock is at most a week behind the database's, and random ids are new.
- RefreshRuns.FamiliesAreLines: an issue starts a family no row belongs to, as both callers in the repository do.
- RefreshRuns.RotatesAtMostOnce: the id of the token is not generated again in between.
- RefreshRuns.TokenAnswersIff: ids are not generated again, and the clocks are as for `RefreshRuns.PurgeIsUnobservable`.
- RefreshTokens.RefreshStore.RefreshRotate: the replay outcome names the family for the proofs, the source returns only the error; a failing database is not modelled except for a colliding id.
- Prekeys.EachHalfServesOnce: generated private halves are pairwise distinct.
- Prekeys.PrekeyStore.PrekeysFetchSelect: the device and signed-prekey look-ups before it, and the signed-prekey upsert of an upload, are not modelled.
- AdminSync.SyncStore.AdminSyncInbound: its look-up and its insert are one step.
- AdminSync.FailureRecordedIff: that a text column refuses everything but UTF-8 without the zero character is a fact about the database, as are its foreign keys.
- AdminSync.TerminalTailIff: a queue id is not given out a second time.
- AdminSyncOrigin.MessageTailIff: a message id is not given out a second time.
- AdminSyncOrigin.MirrorTailIff: nobody posts or acknowledges the message again in between.
- Hub.NothingPanics: Send from request handlers and the backfill goroutine run outside the hub's lock and are not covered; Redis subscriptions are left out.
- Hub.BroadcastReachesPrompt: a broadcast that routing interrupts need not leave the last event; that case is `Hub.BroadcastSendArrives`.
- Hub.HubServer.BroadcastToAll: the loop is not interrupted, though routing shares its lock and can run during the waits; that is the step `BroadcastTo`, one send at a time. Whether a write pump makes room within the 50 ms is an input; what pumps take besides is a `Drain` step before or after.
- MediaSweep.OrphanIff: no uploads between the sweeps, and S3 keys are unique.
- MediaSweep.MediaStore.PurgeMedia: uploads that finish while the sweep runs are not modelled; the scan error and the lease of the worker are left out.
- Der.ExtractsSpki: the elements behind the key are opaque bytes, and lengths need not be minimal.
- Login failures, TOTP, JWT, password hashing, push, S3, HTTP and JSON plumbing, cookies, and all user interfaces.

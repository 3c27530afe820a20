# Simy: verification model

This project models the cryptographic core and the relay of Simy in Dafny 4.11 and proves what
they are for: messages between two ratchet sessions arrive as they were sent or not at all,
handshakes agree, media comes back unchanged, and the relay's tables and counters keep their
promises however its handlers interleave. `dafny verify dfyconfig.toml` checks everything.

## How the model is built

**Cryptography is symbolic** (`Primitives.dfy`). A secret is a 256-bit number, a public key names
its secret, a Diffie-Hellman output is an unordered pair of secrets, every key derivation is a
constructor, and a sealed message opens only under the key, nonce and associated data it was sealed
with. Nothing is assumed: these are datatypes. Randomness is a parameter of the call that draws it,
and runs require each drawn secret to be new to the conversation.

**The double ratchet** (`RatchetState.dfy`) is a function on a session value for each operation,
branch by branch as the code has it. `RatchetSession.dfy` holds the session object with the code's
fields; each method is proved to compute exactly its function, the skip loop included. Everything
else is proved about the functions:

- `RatchetRuns.dfy`, `RatchetOrigins.dfy`: one session under *any* sequence of calls, with replayed,
  corrupted or invented envelopes, failed calls included. `RatchetRefusals.dfy`: what a refused call does.
- `Conversation*.dfy`: two sessions and a network that loses and reorders. A history records each
  epoch's ratchet secret, root key and messages. The invariant ties both sessions to it, and from it
  follow the exact delivery rule, lockstep of the root keys, what a session can be made to accept, what
  becomes of an epoch's last messages, and what refused messages cost.
- `EagerRatchet.dfy`, `EagerConversation.dfy`: the code's two ratchet functions in sequence on receipt, as
  in the eager DHRatchet of "The Double Ratchet Algorithm", section 3.5, run beside its deferred draw under
  one overwrite rule. `TwinConversations.dfy`, `SpecificationConversation.dfy`, `SpecificationRefusal.dfy`:
  the code as written beside eager sessions with a single overwrite, which are the specification's but for
  the code's bounded cache, each hearing its own peer's envelopes.
- `Confluence.dfy`: the messages of one chain in every order, with the exact bound.
- `RatchetPersistence.dfy`, `SessionStore.dfy`, `FileStore.dfy`: saving, loading, restarts, the client's
  load-decrypt-save order, and the file store under crashes.

`X3dh.dfy` has the two derivations of the handshake and the sealed initial message; its last theorem
feeds the ratchet's conversation theorems. `Media.dfy` and `Device.dfy` cover chunked media and the
signed device record. In `Relay*.dfy` an SQL table is a map, a statement (or a handler's group of
reads) is one atomic step, and handlers interleave between steps; classes hold the tables and their
methods are proved against the step functions.

**What each operation writes and refuses** is stated beside it without reference to its definition: bytes
by position, envelopes and rows field by field, constants as numbers, and for every input the first reason
for a refusal in the code's order. These are the members whose names end in `Writes`, `Reads`, `Layout` or
`Reasons`, and their like; the theorems above them say what such values do together.

## What the code does that its documentation does not say

- A header is meant to carry the length of its sender's previous chain. The field is overwritten
  twice, so every header carries 0 (`RatchetRuns.HeadersCarryZero`). A message that was undelivered when
  its receiver crossed into the next epoch decrypts later if and only if it had been passed
  (`ConversationTail.CrossingLosesTheTail`). With a single overwrite (the `Once` rule of the model) the
  field is right (`ConversationTheorems.PreviousLengths`) and late messages decrypt
  (`ConversationTheorems.LateMessagesAreDue`). Theorems that take a `rule` hold for both.
- Beside the specification the difference is not that field alone. A receiver that follows it also stores
  the tail of the old chain, decrypts it later, and can refuse for lack of room a crossing that the code
  accepts (`SpecificationRefusal.SpecificationRefusesACrossing`). As long as it has room, and no longer,
  the two show the same ratchet keys, numbers, message keys and plaintexts
  (`SpecificationConversation.ShowsTheSameExactly`).
- A session in memory is changed before a message is authenticated. A refused call leaves it as it was if
  and only if a condition holds that can be seen before the call (`RatchetRefusals.RefusalIsHarmlessExactly`).
  Where it does not: a replay in the present epoch costs the next message
  (`ConversationRefusals.ReplayCostsAMessage`); a message of an epoch left behind that is not cached,
  replayed or merely late, steps the root key and ends the conversation but for what is cached
  (`ConversationRefusals.StaleMessageLeadsAstray`); and a skip that fills the cache takes the receiving
  chain with it (`RatchetRefusals.OverfullSkipTakesTheChain`). The client that loads, decrypts, and saves
  only on success is immune (`ConversationRuns.RunKeepsInvariant`, `SessionStore.ServesLikeSavingClient`).
- The last statement of a managed user's reset names the account only by identifier. If the account
  is deleted and comes back as an admin in between, the admin is set back to provisioned
  (`RelayAccounts.LateResetBreaksOwnership`). Ownership holds throughout a run if and only if no reset
  lands so (`RelayAccounts.OwnershipHoldsExactly`).
- A feed reply is checked by one statement and stored by a later one that names the post only by its
  identifier. If the post goes and another takes its identifier in between
  (`RelayFeed.ReuseBreaksReplies`), or a participant goes and comes back without the delivery
  (`RelayFeed.RecreationBreaksReplies`), the reply is stored where it joins nothing. Replies stay joined
  throughout a run if and only if every insert meets a guard that its WHERE clause could check
  (`RelayFeed.RepliesJoinedExactly`).
- If the request that read 1 from the rate-limit counter stops before it sets the expiry, the counter
  never goes (`RelayLimits.LostExpireEndsService`).

## Model

| member | source | states |
|---|---|---|
| RatchetSession.DoubleRatchetSession.EnsureSendingChain | crates/comm-core/src/double_ratchet.rs:435-454 | opens a sending chain only when there is none, overwriting the previous length, counters, key pair and root together; fails without a peer key and changes nothing |
| RatchetSession.DoubleRatchetSession.ApplyRemoteRatchet | crates/comm-core/src/double_ratchet.rs:456-472 | the whole new state after the peer's key is taken: root stepped, receiving chain opened, sending chain closed, counters reset |
| RatchetSession.DoubleRatchetSession.SkipMessageKeys | crates/comm-core/src/double_ratchet.rs:474-511 | the loop reaches exactly the recursive specification's state and outcome, the exit with the chain already taken included |
| RatchetSession.DoubleRatchetSession.TrySkippedMessageKey | crates/comm-core/src/double_ratchet.rs:513-528 | a cached key leaves the cache whether or not it opens the envelope; nothing else changes |
| RatchetSession.DoubleRatchetSession.Encrypt | crates/comm-core/src/double_ratchet.rs:210-253 | state and envelope are those of the specification, for every state below the counter limit |
| RatchetSession.DoubleRatchetSession.Decrypt | crates/comm-core/src/double_ratchet.rs:255-284 | state and result are those of the specification for every envelope, failed calls keeping their changes |
| RatchetSession.DoubleRatchetSession.Persist | crates/comm-core/src/double_ratchet.rs:294-322 | the loop over the ordered cache lists each entry once, in the order of ratchet key and number |
| RatchetSession.BuildRatchetAad | crates/comm-core/src/double_ratchet.rs:578-588 | the buffer built part by part is the layout that RatchetAadInjective is about |
| RatchetSession.RestoreSkipped | crates/comm-core/src/double_ratchet.rs:333-346 | the loop restores the cache or stops at the first entry beyond 128 or undecodable |
| RatchetState.RatchetAadInjective | crates/comm-core/src/double_ratchet.rs:578-588 | the associated data determines sender key, both counters and the caller's data |
| RatchetState.RatchetAadLayout | crates/comm-core/src/double_ratchet.rs:578-588 | the associated data by position: 22 bytes of version text, 44 of Base64 key text, previous length in bytes 66 to 69 and number in 70 to 73, most significant byte first, then the caller's data |
| Bytes.BigEndianAt | crates/comm-core/src/double_ratchet.rs:584-585 | the byte at position i of k is the number divided by 256 to the power k - 1 - i, modulo 256 |
| Bytes.Base64Groups | crates/comm-core/src/double_ratchet.rs:583-583 | each four characters of Base64 text are the bits of their three bytes in six-bit groups, most significant first, padded at the end |
| RatchetState.EncryptWrites | crates/comm-core/src/double_ratchet.rs:210-253 | the envelope and the state of every encryption field by field: which header, key, nonce and data, which chain and root are next, which refusal |
| RatchetState.HeaderReasons | crates/comm-core/src/double_ratchet.rs:255-265 | what is refused before the session is looked at, for which reason, and that nothing changes |
| RatchetState.KeyReasons | crates/comm-core/src/double_ratchet.rs:269-284 | more than 128 keys ahead, or no chain to take a key from, refuses with the code's error and changes nothing |
| RatchetState.OpenReasons | crates/comm-core/src/double_ratchet.rs:590-612 | a ciphertext opens to a plaintext if and only if it seals that under this key, nonce and associated data; otherwise the first reason in the code's order |
| SkipLemmas.SkipExact | crates/comm-core/src/double_ratchet.rs:474-511 | skipping succeeds if and only if the keys to store fit beside those cached, and then stores exactly them |
| RatchetRuns.KeysAreUsedOnce | crates/comm-core/src/double_ratchet.rs:210-284 | over every run, with any envelopes: no key seals or is tried twice, no envelope is accepted twice, no ratchet key and number pair is emitted twice |
| RatchetOrigins.CacheIsPinned | crates/comm-core/src/double_ratchet.rs:474-568 | over every run, failed calls included, each cached key is the key of its number in the chain of the very epoch it was stored under, whatever other epochs share its ratchet key |
| RatchetRuns.CacheAgreesWithDerivation | crates/comm-core/src/double_ratchet.rs:474-568 | over every run, failed calls included: at most 128 cached keys, none foreign to the chains received; the receiving chain stands `received` steps from the newest one's start |
| RatchetRefusals.RefusalIsHarmlessExactly | crates/comm-core/src/double_ratchet.rs:255-284 | for every session, envelope and data, a refused call leaves the session as it was if and only if a condition on the session and the header holds before it; and where that holds the call is refused |
| RatchetRefusals.OverfullSkipTakesTheChain | crates/comm-core/src/double_ratchet.rs:493-511 | a skip within 128 that the cache has no room for fills the cache and drops the receiving chain, so that every further uncached message of the epoch is refused |
| RatchetRuns.HeadersCarryZero | crates/comm-core/src/double_ratchet.rs:435-472 | every header of every run carries previous length 0, and no sending chain means no sent messages |
| RatchetRuns.RunKeepsInvariant | crates/comm-core/src/double_ratchet.rs:210-284 | the invariant behind the three results above holds after any sequence of calls |
| RatchetPersistence.SaveThenLoad | crates/comm-core/src/double_ratchet.rs:294-372 | loading what was saved gives the session back exactly when its cache is within 128, and otherwise TooManySkippedMessages |
| RatchetPersistence.PersistWrites | crates/comm-core/src/double_ratchet.rs:294-322 | each field of the saved session is the session's field of that name, version included |
| RatchetPersistence.ListingHolds | crates/comm-core/src/double_ratchet.rs:310-320 | an entry is listed if and only if it is what the cache holds under its key and number |
| RatchetPersistence.ListingSorted | crates/comm-core/src/double_ratchet.rs:310-320 | entries are listed by ratchet key and then by number, each once |
| RatchetPersistence.RestoreReads | crates/comm-core/src/double_ratchet.rs:324-372 | for every saved text: the first fault in the code's order decides the error, and without one each field is the saved one |
| RatchetPersistence.RestoredHolds | crates/comm-core/src/double_ratchet.rs:333-346 | the restored cache has exactly the keys listed, each with the key of its last entry |
| RatchetPersistence.RestoredStops | crates/comm-core/src/double_ratchet.rs:333-346 | restoring stops at the first entry that finds 128 keys cached or has an undecodable field, and with that error |
| RatchetPersistence.RestartsChangeNothing | crates/comm-core/src/double_ratchet.rs:184-201 | saves and loads inserted anywhere in any run change no later state and no output |
| SessionStore.InMemorySessionStore.LoadSession | crates/comm-core/src/double_ratchet.rs:116-120 | loads the stored session or none, refusing blank identifiers |
| SessionStore.InMemorySessionStore.SaveSession | crates/comm-core/src/double_ratchet.rs:122-131 | replaces exactly one session |
| SessionStore.InMemorySessionStore.DeleteSession | crates/comm-core/src/double_ratchet.rs:133-138 | removes exactly one session |
| SessionStore.ServesLikeSavingClient | clients/desktop/simy-desktop/src-tauri/src/ratchet.rs:340-353 | load, decrypt, save-on-success answers as the session would and a failed call leaves the store unchanged |
| Conversation.BeginOk | crates/comm-core/src/double_ratchet.rs:375-432 | the two bootstrapped sessions satisfy the conversation's invariant |
| ConversationRuns.SendKeepsInvariant | crates/comm-core/src/double_ratchet.rs:210-253 | any encryption by either side keeps the two-party invariant, within an epoch or opening one |
| ConversationRuns.DueDecrypts | crates/comm-core/src/double_ratchet.rs:255-284 | a message that meets the delivery rule decrypts to its plaintext and the invariant goes on |
| ConversationRuns.DeliveryIsExact | crates/comm-core/src/double_ratchet.rs:255-284 | in every reachable state a genuine message decrypts to its plaintext if and only if it is undelivered and cached, or current at or past the position, or newer, with the gap fitting the cache; otherwise the call fails |
| ConversationRuns.AcceptedMessage | crates/comm-core/src/double_ratchet.rs:255-284 | whatever the network hands over, what is accepted is an undelivered sent message, unchanged, with its own associated data |
| ConversationRuns.HandSavingKeepsInvariant | clients/desktop/simy-desktop/src-tauri/src/ratchet.rs:340-353 | for a client that saves on success, any envelope at all keeps the invariant |
| ConversationRuns.NextKeepsInvariant | crates/comm-core/src/double_ratchet.rs:210-284 | one step of either kind of system keeps the invariant |
| ConversationRuns.ConversationsStayWell | crates/comm-core/src/double_ratchet.rs:210-432 | every run from every bootstrap, with loss and reordering, keeps the invariant |
| ConversationDelivery.TakeCurrent | crates/comm-core/src/double_ratchet.rs:274-284 | in the present epoch the key is taken exactly if the gap fits the cache, and it is the key of that number |
| ConversationDelivery.TakeNew | crates/comm-core/src/double_ratchet.rs:269-284 | in the next epoch the key is taken exactly if closing the old chain and skipping in the new one fit the cache |
| ConversationAcceptance.AcceptedIsDue | crates/comm-core/src/double_ratchet.rs:255-284 | an envelope that decrypts is a due message, by where its key was found |
| ConversationTheorems.Lockstep | crates/comm-core/src/double_ratchet.rs:435-472 | the root-key histories of the two sides are prefixes of one another, at most one step apart, and the side behind still holds the secret and root the leader's step was derived against |
| ConversationTheorems.RunsDeliverExactly | crates/comm-core/src/double_ratchet.rs:210-284 | after every run from every bootstrap, a genuine message decrypts to its plaintext if and only if it is due, and otherwise fails |
| ConversationTheorems.RunsAcceptOnlySent | crates/comm-core/src/double_ratchet.rs:255-284 | after every run, whatever is accepted was sent by the other side, is unchanged with its associated data, and was not accepted before |
| ConversationTheorems.RunsStayInLockstep | crates/comm-core/src/double_ratchet.rs:435-472 | after every run the root-key histories are prefixes at most one step apart, and the side behind can follow |
| ConversationTheorems.NoSecondAcceptance | crates/comm-core/src/double_ratchet.rs:255-284 | a delivered envelope is refused ever after |
| ConversationTheorems.PreviousLengths | crates/comm-core/src/double_ratchet.rs:224-228 | headers carry the sender's previous chain length under a single overwrite, and 0 as written |
| ConversationTheorems.LateMessagesAreDue | crates/comm-core/src/double_ratchet.rs:435-472 | under a single overwrite every undelivered message of an epoch left behind decrypts |
| ConversationTail.CrossingLosesTheTail | crates/comm-core/src/double_ratchet.rs:269-272 | as written, in every later state of every run, an undelivered message of an epoch left behind decrypts if and only if it had been passed when the epoch was left |
| ConversationTail.RunKeepsOld | crates/comm-core/src/double_ratchet.rs:474-528 | over every run of either kind of client, what is cached of the epochs behind stays so until it is delivered, and nothing is added to it |
| ConversationRefusals.ReplayCostsAMessage | crates/comm-core/src/double_ratchet.rs:274-284 | in memory, a replay in the present epoch is refused and not harmless, and the message at the receiving position is refused after it |
| ConversationRefusals.StaleMessageLeadsAstray | crates/comm-core/src/double_ratchet.rs:269-284 | as written, in memory, an uncached message of an epoch left behind is refused and moves the session to a root key the conversation never has; whatever messages follow, none but those cached by then are decrypted |
| EagerRatchet.SkipAgrees | crates/comm-core/src/double_ratchet.rs:474-511 | skipping commutes with drawing the next ratchet key early |
| EagerConversation.EventAgrees | crates/comm-core/src/double_ratchet.rs:255-284 | one event of an honest conversation shows the same from eager sessions, and they stay in agreement |
| EagerConversation.LazyRefinesEager | crates/comm-core/src/double_ratchet.rs:435-472 | under one overwrite rule, over every honest run with one key per epoch, the deferred draw shows the same envelopes and plaintexts as drawing on receipt |
| TwinConversations.TwinSpeaks | crates/comm-core/src/double_ratchet.rs:210-253 | sessions with two overwrites and with one, each in its own conversation, send envelopes that differ at most in the previous length and what is bound to it, and stay alike |
| TwinConversations.TwinHears | crates/comm-core/src/double_ratchet.rs:255-284 | each decrypts its own peer's copy of a message due in both conversations to the same plaintext, and they stay alike |
| SpecificationConversation.CopyNeedsRoom | crates/comm-core/src/double_ratchet.rs:266-284 | of a message the code decrypts, the specification's session decrypts its own copy if and only if the keys to store, the old chain's tail included, fit its cache |
| SpecificationConversation.ShowsTheSameExactly | crates/comm-core/src/double_ratchet.rs:435-472 | over every honest run of the code as written, eager sessions with a single overwrite show the same ratchet keys, numbers, message keys and plaintexts throughout, if and only if they have that room at every message |
| SpecificationRefusal.SpecificationRefusesACrossing | crates/comm-core/src/double_ratchet.rs:269-272 | the run, after 129 lost messages, in which they have not, and refuse a message that the code decrypts |
| Confluence.DecryptsExactlyWithinBound | crates/comm-core/src/double_ratchet.rs:474-528 | an order of arrival decrypts completely if and only if no message arrives with more than 128 predecessors outstanding |
| Confluence.OrderDoesNotMatter | crates/comm-core/src/double_ratchet.rs:255-284 | orders that decrypt completely and bring the same messages end in the same state |
| Confluence.SmallBatchesInAnyOrder | crates/comm-core/src/double_ratchet.rs:255-284 | every permutation of up to 129 messages decrypts completely and ends as in-order delivery |
| Confluence.BoundIsExact | crates/comm-core/src/double_ratchet.rs:22 | all permutations of a batch decrypt if and only if it has at most 129 messages |
| X3dh.InitiateX3dh | crates/comm-core/src/x3dh.rs:210-253 | a handshake if and only if the signature is the bundle identity's over its signed prekey, otherwise InvalidSignature; its value is that of HandshakeMaterial |
| X3dh.OnlySignedBundles | crates/comm-core/src/x3dh.rs:154-160 | for every sender, bundle and draw, a handshake is made if and only if the signature is the identity's signing key's over the signed prekey's 32 bytes; otherwise InvalidSignature |
| X3dh.HandshakeMaterial | crates/comm-core/src/x3dh.rs:210-253 | the initiator's key material block by block, and the public keys it sends |
| X3dh.RespondX3dh | crates/comm-core/src/x3dh.rs:255-300 | the appended key material, or the error for a missing or different one-time prekey |
| X3dh.ResponseMaterial | crates/comm-core/src/x3dh.rs:255-300 | the responder's key material block by block, and when a missing or wrong one-time prekey refuses it |
| X3dh.DerivationsAgree | crates/comm-core/src/x3dh.rs:210-300 | the two sides derive the same secret if and only if the responder's keys are those of the bundle, an unused one-time prekey notwithstanding |
| X3dh.PublishedBundle | crates/comm-core/src/x3dh.rs:140-160 | a bundle made from a receiver's keys verifies and matches them |
| X3dh.BuildInitialMessageAad | crates/comm-core/src/x3dh.rs:434-453 | the buffer built part by part is the layout that InitialAadInjective is about |
| X3dh.InitialAadInjective | crates/comm-core/src/x3dh.rs:434-462 | the associated data determines every key, the one-time prekey's presence and the content kind |
| X3dh.InitialAadLayout | crates/comm-core/src/x3dh.rs:434-462 | the associated data by position: version text, kind tag, four keys of 32 bytes, the one-time prekey's presence and bytes |
| X3dh.SealWrites | crates/comm-core/src/x3dh.rs:302-352 | an initial message is sealed if and only if the bundle's signature is its identity's, and then holds these fields and this ciphertext |
| X3dh.ParseReads | crates/comm-core/src/x3dh.rs:410-432 | the first undecodable key decides the error; otherwise the keys are those the fields encode |
| X3dh.OpenReads | crates/comm-core/src/x3dh.rs:354-400 | for every envelope the first fault in the code's order decides the error; otherwise it opens to a plaintext if and only if the ciphertext seals that under the shared secret and these fields |
| X3dh.BootstrapNeedsItsPreKey | crates/comm-core/src/double_ratchet.rs:406-432 | the responder's session begins if and only if the message names its signed prekey, with the root and first chain of the shared secret |
| X3dh.OpenInvertsSeal | crates/comm-core/src/x3dh.rs:302-400 | for every plaintext and kind, opening succeeds if and only if the keys match, and gives back what was sealed |
| X3dh.EveryBoundFieldCounts | crates/comm-core/src/x3dh.rs:354-400 | around a ciphertext that opens, an envelope is accepted if and only if it differs at most in its creation time |
| X3dh.HandshakeBeginsConversation | crates/comm-core/src/double_ratchet.rs:375-432 | a sealed and opened initial message bootstraps both sides into one conversation, with equal root and first chain, whose runs keep the invariant |
| Media.BucketIsLeast | crates/comm-core/src/lib.rs:250-260 | the bucket chosen is the least of the list that holds the media; its value in numbers is BucketBySize |
| Media.BucketBySize | crates/comm-core/src/lib.rs:25-31 | the padded size by interval, in bytes: 1,048,576, 5,242,880, 10,485,760, 26,214,400 or 52,428,800; 0 and anything larger are refused |
| Media.PlanIsCeiling | crates/comm-core/src/lib.rs:262-279 | the chunk count is the ceiling, fits 32 bits, and one chunk fewer would not hold the bucket |
| Media.PlanReads | crates/comm-core/src/lib.rs:262-279 | the plan for every size and chunk size, chunk size 0 refused first |
| Media.PiecesJoin | crates/comm-core/src/lib.rs:295-298 | cutting into chunks loses nothing and yields as many pieces as the plan counts |
| Media.DeriveChunkNonce | crates/comm-core/src/lib.rs:414-418 | writing the index into the last four bytes of the array gives the nonce of ChunkNoncesDiffer |
| Media.ChunkNoncesDiffer | crates/comm-core/src/lib.rs:414-418 | different chunks have different nonces |
| Media.ChunkNonceLayout | crates/comm-core/src/lib.rs:414-418 | the first 20 bytes are the base nonce's, the last four the index, most significant first |
| Media.BuildChunkAad | crates/comm-core/src/lib.rs:420-426 | the three writes into the array give the layout of ChunkAadInjective |
| Media.ChunkAadInjective | crates/comm-core/src/lib.rs:420-426 | the associated data determines index, chunk count and size |
| Media.ChunkAadLayout | crates/comm-core/src/lib.rs:420-426 | index in bytes 0 to 3, count in 4 to 7, original size in 8 to 15, each most significant first |
| Media.EncryptMediaBytes | crates/comm-core/src/lib.rs:281-327 | the loop seals each piece under its own nonce and associated data and feeds the running hash, errors in the code's order |
| Media.EncryptionWrites | crates/comm-core/src/lib.rs:281-327 | for every size the error in the code's order, or the blob's sizes in numbers, the count of its chunks and a digest over all their ciphertexts |
| Media.ChunkWrites | crates/comm-core/src/lib.rs:295-318 | chunk i seals bytes i times the chunk size up to the next multiple or the padded size, zero past the plaintext, under its own nonce and associated data |
| Media.MaterialReads | crates/comm-core/src/lib.rs:403-412 | the key and base nonce decoded, or the first fault in the code's order |
| Media.DecryptMediaBytes | crates/comm-core/src/lib.rs:329-375 | the loop opens the chunks in order or stops at the first fault, then checks the running hash and truncates |
| Media.ChunkReads | crates/comm-core/src/lib.rs:346-364 | a chunk is refused for its index, its text or its digest in this order, and otherwise opens to a piece if and only if it seals it at this place |
| Media.OpeningStops | crates/comm-core/src/lib.rs:345-369 | chunks are opened in order up to the first that is refused, whose error is the answer |
| Media.DecryptionReads | crates/comm-core/src/lib.rs:329-375 | for every blob the error in the code's order, or the first bytes of what the chunks hold |
| Media.DecryptInvertsEncrypt | crates/comm-core/src/lib.rs:281-375 | decryption inverts encryption for every plaintext of 1 to 52,428,800 bytes and every nonzero chunk size |
| Media.AcceptedIsOriginal | crates/comm-core/src/lib.rs:329-375 | under material used for one encryption a blob is accepted if and only if it is that encryption's, but for its label and a chunk size with the same count; it yields the original plaintext |
| Text.Utf8Injective | crates/comm-core/src/device.rs:156-160 | UTF-8 text is determined by its bytes |
| Text.Utf8Shape | crates/comm-core/src/device.rs:156-160 | how many bytes a character has and which leading and following bytes these are |
| Text.BlankIs | crates/comm-core/src/double_ratchet.rs:639-645 | an identifier is blank if and only if each of its characters is one of Unicode's 25 white-space characters |
| Device.Rfc3339Injective | crates/comm-core/src/device.rs:164-166 | a timestamp of any of the four lengths is determined by its text |
| Device.TimestampLayout | crates/comm-core/src/device.rs:164-166 | a timestamp by position, in UTC |
| Device.FractionLayout | crates/comm-core/src/device.rs:164-166 | none, three, six or nine decimals by what divides the nanoseconds, digit by digit |
| Device.DeviceRecordSigningPayload | crates/comm-core/src/device.rs:148-172 | the buffer built part by part is the layout that PayloadInjective is about |
| Device.PayloadInjective | crates/comm-core/src/device.rs:128-172 | with valid identifiers the payload determines every field, labels with zero bytes and variable-length timestamps included |
| Device.PayloadLayout | crates/comm-core/src/device.rs:148-172 | the payload by position: version, identifier and zero, label and zero, two keys, creation time, revocation or a zero |
| Device.BodyReads | crates/comm-core/src/device.rs:74-77 | a record's fields are refused for the first of four faults, or read as they are |
| Device.SignWrites | crates/comm-core/src/device.rs:65-97 | the signed record field by field, or the fault of its fields |
| Device.VerifyReads | crates/comm-core/src/device.rs:101-121 | a record verifies if and only if version, fields and signature are in order and the signature is this signer's over its payload; otherwise the first reason |
| Device.OnlyTheSignedRecordVerifies | crates/comm-core/src/device.rs:65-121 | around the signature of a signed record, a record verifies under a key if and only if it is that record and that signer |
| FileStore.EncryptedFileSessionStore.LoadSession | crates/comm-core/src/ratchet_store_fs.rs:104-116 | reads one whole record under this key and identifier, or none, or fails |
| FileStore.LoadReads | crates/comm-core/src/ratchet_store_fs.rs:104-116 | a session loads if and only if its file is a whole record under this key and identifier; without a file none; any other file is an error |
| FileStore.EncryptedFileSessionStore.SaveSession | crates/comm-core/src/ratchet_store_fs.rs:118-138 | the files after any number of its steps: write the temporary file, remove, rename |
| FileStore.SaveSteps | crates/comm-core/src/ratchet_store_fs.rs:118-137 | what each file holds after each step of a save, and that no third file changes |
| FileStore.EncryptedFileSessionStore.DeleteSession | crates/comm-core/src/ratchet_store_fs.rs:140-147 | removes exactly one session's file |
| FileStore.StoreRefinesMap | crates/comm-core/src/ratchet_store_fs.rs:103-147 | after any saves and deletions with crashes anywhere, every identifier loads as from a map, never a partial record |
| FileStore.OtherKeysReadNothing | crates/comm-core/src/ratchet_store_fs.rs:78-100 | under another key every stored session fails to load |
| RelayPrekeys.PrekeyTables.Fetch | services/relay/src/main.rs:1909-1924 | locks an oldest unconsumed and unlocked row, or none if there is none; refuses without an active bundle |
| RelayPrekeys.ClaimWrites | services/relay/src/main.rs:1909-1924 | a fetch may take a row if and only if the bundle is active and no free row is older, or take none if and only if none is free; the row is locked |
| RelayPrekeys.PrekeyTables.CommitFetch | services/relay/src/main.rs:1918-1929 | the row is consumed, unlocked and handed out |
| RelayPrekeys.FetchWrites | services/relay/src/main.rs:1918-1929 | the row alone is marked consumed, unlocked and handed out; nothing else changes |
| RelayPrekeys.InsertRows | services/relay/src/main.rs:1859-1871 | the loop of inserts succeeds if and only if no public key is stored already or uploaded twice |
| RelayPrekeys.PrekeyTables.CommitPublish | services/relay/src/main.rs:1839-1876 | replaces the mailbox's unconsumed rows by the new ones and its bundle, or undoes everything |
| RelayPrekeys.PublishWrites | services/relay/src/main.rs:1839-1876 | each uploaded key is a fresh row of the mailbox, its fresh rows before are discarded, all others stay, and the bundle is the new one |
| RelayPrekeys.PublishAdmitted | services/relay/src/main.rs:1859-1871 | a publish that has its locks commits if and only if no identifier or public key repeats among the uploads or what stays |
| RelayPrekeys.PrekeyTables.CleanRow | services/relay/src/main.rs:968-977 | deletes one row, lost if it was unconsumed |
| RelayPrekeys.CleanupAdmitted | services/relay/src/main.rs:968-977 | which rows and bundles may be cleaned up |
| RelayPrekeys.RemovalWrites | services/relay/src/main.rs:968-977 | which rows, bundles and fates each removal leaves |
| RelayPrekeys.LockWrites | services/relay/src/main.rs:1839-1929 | what starting, locking and aborting change |
| RelayPrekeys.NextKeepsInvariant | services/relay/src/main.rs:1839-1929 | every step of fetch, publish, cleanup and mailbox removal keeps locks, fates, keys and batches in order |
| RelayPrekeys.EachRowHasOneFate | services/relay/src/main.rs:1918-1924 | over every interleaving each row is handed out at most once and every row ever inserted is in exactly one of available, handed out, discarded |
| RelayPrekeys.FatesAreFinal | services/relay/src/main.rs:1854-1871 | a row handed out or discarded stays so whatever follows |
| RelayPrekeys.WhatDiscards | services/relay/src/main.rs:968-977 | an available row is lost only to a publish for its mailbox, an inactive bundle or the mailbox's removal |
| RelayPrekeys.KeysCanReturn | services/relay/src/main.rs:1859-1871 | a run that hands out one public key under two rows, published again after cleanup |
| RelayAccounts.AccountTables.AuthenticateAdmin | services/relay/src/main.rs:2618-2642 | passes exactly the active admins |
| RelayAccounts.AccountTables.AdminProvisionMailbox | services/relay/src/main.rs:1040-1066 | stores a provisioned user owned by the admin and keeps the invariant |
| RelayAccounts.AccountTables.UpsertAccountProfile | services/relay/src/main.rs:2721-2738 | the account becomes active, keeping role and owner if it was there |
| RelayAccounts.AccountTables.BootstrapUpsert | services/relay/src/main.rs:1222-1232 | the account becomes an active admin without owner |
| RelayAccounts.AccountTables.SetManagedUserStatus | services/relay/src/main.rs:1720-1730 | finds the user if and only if the admin owns it, stores the requested status in that row alone, and changes nothing otherwise |
| RelayAccounts.AccountTables.ResetAccount | services/relay/src/main.rs:1762-1770 | sets whatever account has the identifier back to provisioned, keeping role and owner, and no other row |
| RelayAccounts.AccountTables.DeleteManagedUser | services/relay/src/main.rs:1790-1805 | deletes one of the admin's own users and clears owners that pointed at it |
| RelayAccounts.WrittenRow | services/relay/src/main.rs:1040-1805 | the row each handler writes, role, status and owner |
| RelayAccounts.OtherRows | services/relay/src/main.rs:1040-1805 | every other row keeps role, status and owner, but for owners that a deletion clears |
| RelayAccounts.AdmittedWhen | services/relay/src/main.rs:1720-1793 | the WHERE clauses and preceding checks, as conditions on the rows |
| RelayAccounts.MailboxesAfter | services/relay/src/main.rs:1040-1805 | which mailboxes there are after each step, and what a handler remembers between its statements |
| RelayAccounts.NextKeepsInvariantExactly | services/relay/src/main.rs:1743-1770 | a step keeps the ownership invariant if and only if it is not a reset's update landing on an admin |
| RelayAccounts.OwnershipHoldsExactly | services/relay/src/main.rs:1040-1805 | over every interleaving, throughout, an owned account is a user's, its owner an active admin without owner, and every admin active, if and only if no reset's update lands on an admin |
| RelayAccounts.NoDeleteInResetIsEnough | services/relay/src/main.rs:1743-1805 | it is enough that no mailbox is deleted while a handler is to reset it |
| RelayAccounts.LateResetBreaksOwnership | services/relay/src/main.rs:1743-1770 | the run in which a late reset leaves an owner that is no active admin |
| RelayFeedHandlers.CheckAudience | services/relay/src/main.rs:1391-1407 | the loop with its set of recipients finds the first delivery at fault |
| RelayFeedHandlers.NoFaultIsGood | services/relay/src/main.rs:1391-1407 | no fault is found if and only if recipients are distinct and none is the author |
| RelayFeedHandlers.FirstFaultDecides | services/relay/src/main.rs:1391-1407 | a recipient that is the author or repeats an earlier one, behind good ones, is the fault reported |
| RelayFeedHandlers.PostRefusedFor | services/relay/src/main.rs:1391-1421 | why a post is refused, for every request, in the code's order |
| RelayFeedHandlers.FeedTables.CreateFeedPost | services/relay/src/main.rs:1373-1473 | refuses in the code's order, or stores the post and for each recipient the text uploaded for it, in one transaction, all other rows unchanged |
| RelayFeed.PostWrites | services/relay/src/main.rs:1428-1473 | each recipient's delivery holds the text uploaded for that recipient, every other delivery and post stays |
| RelayFeedHandlers.FeedTables.CheckReply | services/relay/src/main.rs:1574-1656 | admits or refuses in the code's order, and remembers both texts, the time and the lesser expiry |
| RelayFeed.ReplyGoesTo | services/relay/src/main.rs:1574-1636 | to whom a reply goes, if and only if it is admitted |
| RelayFeed.ReplyRefusedFor | services/relay/src/main.rs:1574-1636 | each refusal if and only if it is the first reason in the code's order |
| RelayFeed.ReplyWrites | services/relay/src/main.rs:1637-1656 | the checked reply field by field: both texts, both participants, its creation time and the lesser expiry |
| RelayFeedHandlers.FeedTables.InsertReply | services/relay/src/main.rs:1660-1684 | stores exactly the checked reply if its post, its two mailboxes and a free identifier are there, and nothing otherwise |
| RelayFeed.InsertWrites | services/relay/src/main.rs:1660-1684 | exactly the checked reply is stored, and its handler is done |
| RelayFeed.RemovalWrites | services/relay/src/main.rs:1373-1684 | what cleanup and the removal of a mailbox take with them, table by table |
| RelayFeed.StepJoinsExactly | services/relay/src/main.rs:1574-1684 | a step keeps replies joined, cascades and cleanup included, if and only if it is not an insert whose guard fails |
| RelayFeed.RepliesJoinedExactly | services/relay/src/main.rs:1584-1684 | over every interleaving, throughout, every stored reply joins its post's author and one delivery recipient and does not outlive the post, if and only if every insert finds its post by the one side, delivered to the other, and lasting as long |
| RelayFeed.NoReuseIsEnough | services/relay/src/main.rs:1574-1684 | it is enough that nothing a checked reply refers to is reused or dropped before the insert |
| RelayFeed.ReuseBreaksReplies | services/relay/src/main.rs:1574-1675 | the run in which a reply is stored under another author's post |
| RelayFeed.RecreationBreaksReplies | services/relay/src/main.rs:1574-1684 | the run in which the recipient goes and comes back, and the reply is stored without a delivery |
| RelayFeedHandlers.GroupReplies | services/relay/src/main.rs:1523-1526 | the loop groups the replies by post, in their order |
| RelayFeedHandlers.ListFeedPosts | services/relay/src/main.rs:1528-1546 | the loop that takes each post's replies out of the map attaches them to the first row of that post |
| RelayFeedHandlers.EachSeesItsText | services/relay/src/main.rs:1500-1508 | after a post, each recipient is listed the text uploaded for it and the author its own |
| RelayFeedHandlers.EachSeesItsReply | services/relay/src/main.rs:1509-1522 | a reply is listed to its author with the author's text and to its recipient with the recipient's, to nobody else |
| RelayFeedHandlers.ListedWrites | services/relay/src/main.rs:1528-1546 | each row of the answer: the post, the recipients to reply to, and the replies on its first row |
| RelayFeedHandlers.ListedNewestFirst | services/relay/src/main.rs:1500-1508 | the answer runs from the newest post, and a post left out is no newer than one shown |
| RelayFeedHandlers.RepliesOldestFirst | services/relay/src/main.rs:1509-1526 | the replies under a post run from the oldest |
| RelayFeed.TargetsAre | services/relay/src/main.rs:2782-2805 | who may be replied to: the active recipients for the author, the author for the others, nobody if replies are off |
| RelayFeedHandlers.RepliesAttachedOnce | services/relay/src/main.rs:1509-1547 | each visible reply to a listed post is attached exactly once, to that post, and nothing else is |
| RelayLimits.RateLimiter.Increment | services/relay/src/main.rs:3160-3182 | counts one request, admits it up to the limit, and owes an expiry when it read 1 |
| RelayLimits.RateLimiter.SetExpiry | services/relay/src/main.rs:3167-3174 | gives the live key its minute from now |
| RelayLimits.IncrementWrites | services/relay/src/main.rs:3160-3182 | a live counter goes up by one and keeps its expiry, another starts at 1 without one |
| RelayLimits.ExpireWrites | services/relay/src/main.rs:3167-3174 | a live counter expires 60,000 milliseconds after the command |
| RelayLimits.UnderTwiceTheLimit | services/relay/src/main.rs:3152-3182 | any half-open minute lets through at most twice the limit less one, with the two Redis commands apart |
| RelayLimits.BoundIsMet | services/relay/src/main.rs:3152-3182 | for every limit a run that lets through that many |
| RelayLimits.LostExpireEndsService | services/relay/src/main.rs:3167-3174 | without the expiry a key lets through only what it has left, for ever |
| RelayLimits.StepWrites | services/relay/src/main.rs:2426-2459 | what a reservation and a receipt write, and that a live reservation refuses another |
| RelayLimits.MarginIsExact | services/relay/src/main.rs:2426-2459 | no two unexpired messages of a mailbox share a replay token over every run if and only if the margin is at least the delay between reservation and receipt, and so already for the runs of any one time to live |

Consequences of the definitions, which unfold without further proof: `FileStore.CrashLeavesOldNewOrNothing`
(what a crash at each step of a save leaves), `RelayAccounts.AdminsStay` (admins lose neither role nor status
but by a reset that lands on them), `RelayFeed.TargetsAreAdmitted` (the reply targets listed are the
recipients admitted), `RelayFeedHandlers.EachPostOnce` (no post is listed twice).

## Left out

- Real cryptography, the random generator and HKDF's error: the symbolic algebra stands for them.
  Clamping and low-order points of X25519 are not part of it: equal public keys mean equal secrets.
- Base64 (RFC 4648, section 4), JSON and serde: a text field is the value it decodes to or the reason it
  does not; strictly canonical Base64 is taken as given. Where the layout needs the text, it is written out.
- Counters are unbounded; encryption requires them below 2^32, so wrap-around is not modelled.
- ConversationRuns.RunKeepsInvariant: for sessions kept in memory the network hands over only due messages,
  because a refused call may change such a session for good; when it does not is settled by
  RatchetRefusals.RefusalIsHarmlessExactly. Arbitrary envelopes are covered for the client that saves on
  success, and for one session by the members of RatchetRuns.
- EagerConversation.LazyRefinesEager: both sides use one overwrite rule; the comparison with the
  specification's single overwrite is SpecificationConversation.ShowsTheSameExactly.
- SpecificationConversation.ShowsTheSameExactly: follows the messages the code decrypts; those only the
  specification decrypts are in ConversationTheorems.LateMessagesAreDue. The specification leaves to the
  implementer how many keys are kept and for how long; its sessions here have the code's cache of 128.
- Confluence.SmallBatchesInAnyOrder: starts from an empty cache, because the bound shrinks by what is cached.
- Media.AcceptedIsOriginal: material used for one encryption; blobs mixed from several encryptions under
  one key are not covered. The digests are checked but their collision resistance is not used.
- Media.ChunkReads: a chunk's ciphertext has no fixed length, so none has a wrong one; elsewhere a ciphertext
  of the wrong length is an empty one.
- Device.PayloadInjective: four-digit years, as the text of other years has another length.
- FileStore.StoreRefinesMap: a crash stops the steps in their order; writes reordered by a power
  failure, two saves of one identifier at once, and hash collisions of file names are not modelled.
- RelayAccounts.OwnershipHoldsExactly: codenames, tokens and activation times are not modelled; a mailbox
  being provisioned has a token nobody has been told, so nobody presents it.
- RelayAccounts.NoDeleteInResetIsEnough: one way; a mailbox may be deleted under a reset and no harm done, as
  the exact condition is on where the update lands.
- RelayFeed.NoReuseIsEnough: one way; reuse by the same author for the same audience would be harmless. The
  reads of one check are one step.
- ConversationRefusals.ReplayCostsAMessage, ConversationRefusals.StaleMessageLeadsAstray: two families of
  refused messages and what follows them; which refusals do harm at all is settled for every session by
  RatchetRefusals.RefusalIsHarmlessExactly.
- RelayLimits.UnderTwiceTheLimit: one clock for the relay and Redis, and no eviction of keys.
- RelayLimits.MarginIsExact: likewise one clock for the relay, Redis and the database.
- RelayPrekeys.PrekeyTables.Fetch: which of several equally old rows is taken is left open, as it is to the
  database.
- Validation of relay requests other than those modelled, authentication of mailbox tokens, contacts and
  device tables, media grants, HTTP, headers, S3, configuration, logging and health checks.
- The desktop commands beyond the order of load, decrypt and save; the Android and iOS stores; the web page.

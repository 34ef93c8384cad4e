# The ratchet sessions, key envelope and master password of an encrypted file-sharing client, in Dafny

The client gives every pair of devices a session built by an X3DH handshake and kept by a DH ratchet. Files are
encrypted under a file key, the file key under a key-encryption key, and that key is sent to each device of a user
under a message key of its session. Sessions and received keys live in a local encrypted database, wrapped under a KEK
that the user's master password unlocks.

`dafny verify dfyconfig.toml` checks the whole project.

## How it is laid out

| file | what it models |
|---|---|
| `Crypto.dfy` | symbolic terms: each primitive is a free constructor, memory is octets that are literals or parts of a term |
| `Ratchet.dfy`, `NewRatchet.dfy` | the ratchet as a value, and the class that updates its fields in place |
| `Backlog.dfy`, `KeySchedule.dfy` | one epoch as random access into a chain; every key of a session down to DH output, hash, key number and context |
| `Session.dfy`, `HonestSession.dfy` | two parties and a hostile network, with and without DH steps |
| `Codec.dfy`, `Restart.dfy` | the stored byte format, and runs of one ratchet with restarts |
| `X3dh.dfy`, `KeyBundle.dfy` | the handshake from both ends |
| `Sessions.dfy`, `SessionManager.dfy` | the nested map of sessions, and the manager object over ratchet objects |
| `Database.dfy`, `Coherence.dfy` | the tables, write-through, reload |
| `Room.dfy`, `Reloading.dfy` | room for the indices; runs of memory and encrypted rows with restarts that load the rows |
| `World.dfy`, `Reboots.dfy` | any number of devices, each making its sessions from bundles; the same over databases, with restarts |
| `Envelope.dfy`, `Sharing.dfy`, `Recovery.dfy` | framing, upload and download; sending and reading; who can open a file over whole runs |
| `Passwords.dfy`, `Installation.dfy` | set-up, login, logout and rotation as functions, and the objects that carry them out |
| `Accounts.dfy` | what was stored under the KEK of an account, after any later life of it |
| `AuthCode.dfy` | codes that two parties compute from the same two strings |
| `Buffers.dfy`, `Integers.dfy`, `Sets.dfy`, `Wrappers.dfy` | helpers |

Code that works on mutable objects is a class whose methods are proved to leave exactly the state a function gives
(`NewRatchet`, `RatchetSessionManager`, `Database`, `EncryptedStore`, `Installation`); the theorems are about those
functions. What is drawn at random or left unset by a constructor is a parameter, and so is everything the server returns.

## What the code does that its design does not say

- The X3DH secret is overwritten before it is used: chain keys depend on the DH output alone
  (`src/key_exchange/NewRatchet.cpp:64-104`). Likewise `root_key` never enters a later derivation.
- A header's `prev_chain_length` is the sender's receive index (`src/key_exchange/NewRatchet.cpp:259`), and skipped keys are
  kept by message number only. Entries of an epoch that was left make replays return a wrong key instead of throwing:
  `Backlog.ReplaysThrowExactly` says exactly when, `Backlog.StaleReplayReached` how such an entry comes about.
- A receive that throws may already have adopted an unseen key, in memory but not in the database: a header with index -1 does it.
  `Ratchet.ThrowsExactly` says for which headers, `Coherence.UnsavedEpoch` what is left, and `Reloading.RestartForgetsEpoch` that
  a restart then changes the next header sent.
- Ratchet rows are keyed by device alone, so that a device under two users breaks write-through:
  `Coherence.CreationCoherence`, `Coherence.DeviceOfTwoUsers`.
- Looking up the sessions of a new user leaves an empty entry that a restart forgets; the error of a later receive names
  the device before the restart and the user after it: `Reloading.RestartShowsInLookup`.
- Logging out leaves the sessions of the account in memory (`src/auth/logout.h:9-14`), and the next login loads its rows over them
  (`src/auth/login/login.cpp:30`). `Reloading.LoadingCoherence` says exactly when memory and rows then agree, and
  `Reloading.LeftoverSession` that a send otherwise goes on with the ratchet of the account before.
- When the server has no one-time key left, the fetched bundle carries 32 zero bytes for it (`src/endpoints/endpoints.cpp:276`), DH4
  fails, and no session is made: `KeyBundle.NoOnetimeKeyNoSession`.
- Setting up a user who has a database, or while one is open, overwrites a salt first and locks the user out:
  `Passwords.SetUpKeepsExactly`. Opening a database while one is open does nothing: `Passwords.LoginWhileOpen`.
- The ordering of two strings falls back on a length difference cut to 32 bits: `AuthCode.SameBufferExactly`.
- A sender of a file to a user without devices keeps no copy and cannot open the file, and an empty file is refused to
  everybody who downloads it: `Recovery.FileRecovered`.

## Model

| member | source | states |
|---|---|---|
| NewRatchet.NewRatchet.ForRecipient | src/key_exchange/NewRatchet.cpp:17-23 | A responder starts in the state `Ratchet.Initial` describes: mirrored role, its signed prekey as local key (64-byte buffer), the initiator's ephemeral key as remote key, chains from the first DH output. |
| NewRatchet.NewRatchet.ForInitiator | src/key_exchange/NewRatchet.cpp:25-32 | An initiator starts in the state `Ratchet.Initial` describes, with its ephemeral keypair and the responder's signed prekey. |
| NewRatchet.NewRatchet.SetUpInitialChainKeys | src/key_exchange/NewRatchet.cpp:64-104 | Both chain keys and the root come from one DH output, swapped by role; the flag is cleared. |
| NewRatchet.NewRatchet.RatchetStep | src/key_exchange/NewRatchet.cpp:106-172 | With a new remote key: receive chain from the old local key, fresh local keypair, then send chain and root from the new one; without: send chain and root only. |
| NewRatchet.NewRatchet.AdvanceSend | src/key_exchange/NewRatchet.cpp:186-198 | Issues the key and header of the whole old state and leaves the whole new state, including the owed DH step; the key is KDF 0 in the message context of the send chain key or, when a step is owed, of KDF 1 in the ratchet context of the hashed DH output of the two keys it held. |
| NewRatchet.NewRatchet.AdvanceReceive | src/key_exchange/NewRatchet.cpp:200-237 | New state and outcome are those of the closed form `Ratchet.AdvanceReceive`, for every header, drawn keypair and state; the key of an index not yet passed is KDF 0 of that many KDF 1 steps from the receive chain key, or for an unseen key from KDF 1 of the hashed DH output with it. |
| NewRatchet.NewRatchet.CacheOldEpoch | src/key_exchange/NewRatchet.cpp:204-209 | The loop before an unseen key is adopted stores the range of keys from `prev_chain_length`, moves the receive key past it, and leaves the receive index and everything else. |
| NewRatchet.NewRatchet.TakeFromChain | src/key_exchange/NewRatchet.cpp:215-236 | The receive loop stores every key it passes, returns the key asked for, and never reaches the throw behind it. |
| NewRatchet.NewRatchet.ProgressReceiveRatchet | src/key_exchange/NewRatchet.cpp:239-249 | Yields the message key of the old chain key and moves the chain key on, not the index. |
| NewRatchet.NewRatchet.ProgressSendingRatchet | src/key_exchange/NewRatchet.cpp:251-268 | Yields the message key and a header whose `prev_chain_length` is the receive index, and moves key and index on. |
| NewRatchet.NewRatchet.Serialise | src/key_exchange/NewRatchet.cpp:279-302 | Writes the encoding of the state, for some order of the hash table. |
| NewRatchet.NewRatchet.Deserialise | src/key_exchange/NewRatchet.cpp:304-338 | On any stream that begins with a whole ratchet, sets every field from the decoder and consumes exactly its length. |
| NewRatchet.NewRatchet.FromBytes | src/key_exchange/NewRatchet.cpp:35-41 | A ratchet built from stored bytes is in the decoded state. |
| NewRatchet.NewRatchet.Save | src/key_exchange/NewRatchet.cpp:340-363 | After a save the row is an encoding sealed and wrapped under the KEK, which within 32-bit range reads back as the observed state; every other row is as before. |
| Ratchet.ThrowsExactly | src/key_exchange/NewRatchet.cpp:200-223 | Told from header and state before the call: a receive throws exactly for an index already taken, which changes nothing, or an unseen key whose index no chain and no stored entry has, which is adopted all the same. |
| Ratchet.SendStepIsRedundant | src/key_exchange/NewRatchet.cpp:186-191 | Where the owed step is already derived, performing it before a send changes nothing. |
| Ratchet.DueIsDerivedKept | src/key_exchange/NewRatchet.cpp:186-213 | "A ratchet that owes a step has send index 0 and already holds its result" is kept by every send and by every receive of any header. |
| KeySchedule.NewSession | src/key_exchange/NewRatchet.cpp:64-104 | Of a new session, in primitive terms: for all owned keypairs, the send chain, the receive chain and the root are KDF 0, 1 and 2 of the hash of the 32 bytes of their shared secret, each in its own context, the first two swapped for a responder. |
| KeySchedule.NewSessionSends | src/key_exchange/NewRatchet.cpp:251-268 | The n-th key that either role of a new session sends: KDF 0 in the message context of n steps of KDF 1 from the chain key just described. |
| KeySchedule.NewSessionReceives | src/key_exchange/NewRatchet.cpp:215-249 | The key either role of a new session gets the first time message n arrives, in every delivery order: the same derivation from the other chain key. |
| KeySchedule.EnteredEpoch | src/key_exchange/NewRatchet.cpp:106-172 | Of an entered epoch: the receive chain from the old keypair and the new remote key, send chain and root from the drawn keypair and that key, and the backlog as it was but for the keys of the indices from `prev_chain_length` up. |
| KeySchedule.EnteredEpochSends | src/key_exchange/NewRatchet.cpp:186-198 | The n-th key sent after an epoch was entered, with the drawn public key and index n in its header. |
| KeySchedule.EnteredEpochReceives | src/key_exchange/NewRatchet.cpp:215-249 | The key of the first arrival of message n of an entered epoch, in every delivery order, whatever the backlog holds. |
| KeySchedule.NthSent | src/key_exchange/NewRatchet.cpp:186-268 | Key and every header field of the n-th send from any state on. |
| KeySchedule.NextReceived | src/key_exchange/NewRatchet.cpp:215-249 | Receiving ahead gives the key of the index asked for, leaves the chain just after it, and adds to the backlog exactly the keys passed. |
| Backlog.TakeKeyRefines | src/key_exchange/NewRatchet.cpp:215-249 | The receive loop plus backlog refines random access: an open index gives its own key of the base key, any other at most a stale entry. |
| Backlog.OutOfOrder | src/key_exchange/NewRatchet.cpp:215-249 | Within an epoch the first delivery of every index gives the index-th key of the base key, for every delivery order and whatever stale entries earlier epochs left. |
| Backlog.ReplaysThrowExactly | src/key_exchange/NewRatchet.cpp:215-223 | Replays throw in every delivery order if and only if no stale entry has a non-negative index; otherwise some replay hands out a stale key. |
| Backlog.StaleReplay | src/key_exchange/NewRatchet.cpp:204-223 | The failing family: with a stale entry at n, message n delivered twice gives its own key and then the stale one. |
| Backlog.StaleReplayReached | src/key_exchange/NewRatchet.cpp:200-237 | Such entries are reached from every fresh ratchet: message 1 before 0, then an epoch change; message 0 of the new epoch delivered twice gives the second time the key of message 0 of the old one. |
| Session.NeverBothAhead | src/key_exchange/NewRatchet.cpp:106-172 | In lockstep at most one of the two sides is an epoch ahead. |
| Session.DeliverStepIsReceive | src/key_exchange/NewRatchet.cpp:200-237 | A delivery event of the two-party machine is exactly `advance_receive`, with its outcome logged. |
| Session.SendKeepsLinks | src/key_exchange/NewRatchet.cpp:186-198 | A send keeps both directions matched or one epoch ahead. |
| Session.DeliverKeepsLinks | src/key_exchange/NewRatchet.cpp:200-237 | So does the delivery of any header from the sender's current epoch or the epoch the receiver tracks. |
| Session.EnterDerivesSameBase | src/key_exchange/NewRatchet.cpp:106-172 | Entering an epoch derives, from the other side's keys, the base key the sender derived. |
| Session.StepKeepsLockstep | src/key_exchange/NewRatchet.cpp:106-213 | Every enabled event keeps the lockstep invariant. |
| Session.LockstepRun | src/key_exchange/NewRatchet.cpp:106-213 | Over whole runs with DH steps: lockstep holds and every first delivery gives the key issued with its header. |
| HonestSession.StepKeepsHonest | src/key_exchange/NewRatchet.cpp:186-237 | Sessions from matching handshakes never leave their first epoch: no event creates a keypair or a stale entry. |
| HonestSession.WholeRunAgreement | src/key_exchange/NewRatchet.cpp:186-268 | In every interleaving of sends and deliveries over a network that reorders, loses and duplicates: first deliveries give the issued key, all others throw, and each remote key stays the peer's local key. |
| HonestSession.ExactlyOnce | src/key_exchange/NewRatchet.cpp:215-236 | The backlog's domain is exactly the undelivered indices below the receive index, backlog plus deliveries equals the index, and a receive throws exactly when the header was delivered before, then changing nothing. |
| HonestSession.NoKeyReuse | src/key_exchange/NewRatchet.cpp:64-101 | Over a whole honest session no message key is issued twice by either side or by both, and none is a chain key of any base. |
| HonestSession.MatchedChains | src/key_exchange/NewRatchet.cpp:64-104 | Ratchets from the two ends of one handshake have one DH output and root, and crossed chains. |
| HonestSession.StartIsHonest | src/key_exchange/NewRatchet.cpp:17-104 | Two matched ratchets satisfy everything the run theorems assume. |
| HonestSession.AheadIsLockstep | src/key_exchange/NewRatchet.cpp:106-172 | Lockstep pairs with one side an epoch ahead exist: any matched pair of which one side has drawn a keypair and derived its chain is one. |
| HonestSession.CrossingGivesKey | src/key_exchange/NewRatchet.cpp:106-237 | From there the first message crosses the epoch: it is enabled, gives the issued key, and leaves the receiver ahead in turn. |
| Codec.RoundTrip | src/key_exchange/NewRatchet.cpp:279-338 | For every state in 32-bit range, every order of the backlog and any trailing bytes: decoding gives back every field the protocol reads and consumes exactly 210 + 36n bytes. |
| Codec.Layout | src/key_exchange/NewRatchet.cpp:279-302 | Where every field is: keys at 0, 32, 64 and 96, chains at 128 and 164, the count at 200, entry j at 204 + 36j, the two flags as bytes 0 or 1 at 204 + 36n and 205 + 36n, the last number behind them; all integers little-endian. |
| Codec.ReadsBack | src/key_exchange/NewRatchet.cpp:279-338 | The encoding alone is a whole ratchet and decodes to the observed state. |
| Codec.EncodingsDetermineStates | src/key_exchange/NewRatchet.cpp:279-338 | Two states with a common encoding, even as prefixes of one stream, are observed to be the same. |
| Restart.StepOnObserved | src/key_exchange/NewRatchet.cpp:186-237 | No operation reads the half of a 64-byte private buffer that a reload drops. |
| Restart.RestartsAreInvisible | src/key_exchange/NewRatchet.cpp:56-57 | Dropping every save-and-reload from any run changes no key, header, error or observed field. |
| Restart.SendStepAlwaysRedundant | src/key_exchange/NewRatchet.cpp:186-191 | In every state reachable by sends, receives of arbitrary headers and reloads, an owed DH step changes nothing. |
| X3dh.Initiator | src/key_exchange/x3dh.cpp:19-68 | The buffers filled by the initiator hash to `InitiatorSecret`, with each conversion error in the order the code meets it. |
| X3dh.Responder | src/key_exchange/x3dh.cpp:70-119 | The buffers filled by the responder hash to `ResponderSecret`, with each conversion error in the order the code meets it. |
| X3dh.SecretsAgree | src/key_exchange/x3dh.cpp:19-119 | Both ends compute the same secret if and only if they use the same one-time key, or both none. |
| X3dh.InitiatorHashes | src/key_exchange/x3dh.cpp:42-66 | What the initiator hashes, for all keypairs: the shared secrets of identity and signed prekey, ephemeral and identity, ephemeral and signed prekey, and ephemeral and one-time key or 32 zero bytes, in this order, 32 bytes each. |
| X3dh.ResponderHashes | src/key_exchange/x3dh.cpp:93-117 | What the responder hashes: the same four groups. |
| X3dh.SecretDeterminesHandshake | src/key_exchange/x3dh.cpp:19-119 | Over two unrelated handshakes: the secrets, at either end, are equal if and only if initiator, responder, ephemeral key, signed prekey and one-time key are all the same. |
| X3dh.AgreementFails | src/key_exchange/x3dh.cpp:30-97 | Each way either end can fail, told from its inputs, in the order the code looks at them. |
| KeyBundle.MirroredHandshake | src/sessions/KeyBundle.h:70-173 | Every matching bundle pair, with or without a one-time key, gives both sides one secret and matched ratchets: equal roots, crossed chains. |
| KeyBundle.HandshakeToKeys | src/sessions/KeyBundle.h:107-173 | From matching bundles to message keys: whatever the network does, first arrivals give the issued key and all others throw. |
| KeyBundle.HandshakeKeys | src/sessions/KeyBundle.h:107-173 | From matching bundles, the n-th key each end sends, in terms of the ephemeral and the signed prekey alone. |
| KeyBundle.BundleErrors | src/sessions/KeyBundle.h:70-97 | A fetched bundle is refused as forged if and only if its prekey is not signed by the device it is for, a handshake for want of a one-time key if and only if it names one that is not kept, and each error of the agreement told from bundle and store. |
| KeyBundle.NoOnetimeKeyNoSession | src/endpoints/endpoints.cpp:276-276 | With the zero key for a missing one-time key the initiator fails in DH4 where none would have given a session, and a responder named that key does not find it. |
| Sessions.CreateAllConcat | src/sessions/RatchetSessionManager.cpp:23-61 | Creating from one list after another is creating from both, with the posts in order and the first failure ending it. |
| Sessions.CreationIsMonotone | src/sessions/RatchetSessionManager.cpp:23-34 | Existing ratchets stay; unless a bundle fails the device set becomes the union. |
| Sessions.CreatedExactly | src/sessions/RatchetSessionManager.cpp:23-34 | A device has a ratchet afterwards if and only if it had one or creation gets to an offer for it, told from the offers before the call. |
| Sessions.FirstBundleWins | src/sessions/RatchetSessionManager.cpp:30-34 | A new device gets the ratchet of its first bundle in the list. |
| Sessions.PostedOncePerNewInitiator | src/sessions/RatchetSessionManager.cpp:36-58 | Handshakes are posted for new devices only, at most once each, exactly for those whose ratchet was built as initiator. |
| Sessions.CreationIsIdempotent | src/sessions/RatchetSessionManager.cpp:23-61 | A second call with the same bundles changes nothing and posts nothing. |
| Sessions.OnlySignedSessions | src/sessions/RatchetSessionManager.cpp:23-61 | Every session made as initiator, and every handshake posted, is from a bundle for that device whose prekey the device signed. |
| Sessions.CreationStops | src/sessions/RatchetSessionManager.cpp:30-34 | Creation ends at the first bundle for a new device that fails, with its error: nothing is made or posted for it or after it. |
| Sessions.ForgedBundleStops | src/sessions/KeyBundle.h:78-88 | So a prekey that its device did not sign ends the call as forged, after what came before it and with nothing made or posted from there on. |
| Sessions.LookupFails | src/sessions/RatchetSessionManager.cpp:100-112 | Which lookup of a receive fails, and that it changes nothing. |
| Sessions.AcceptingKeepsSessions | src/communication/ReceiveFlow.h:17-23 | Working off the handshake backlog keeps every session, and without a failure ends with one for every handshake. |
| Sessions.AcceptingAgain | src/communication/ReceiveFlow.h:17-23 | Working off a backlog again changes nothing. |
| Database.UnwrapWrapped | src/algorithms/algorithms.cpp:81-115 | A symmetric key wrapped under the KEK unwraps to itself. |
| Database.WrittenRowReadsBack | src/sql/queries.h:220-241 | REPLACE on both ratchet tables with a sealed encoding reads back as the observed state, and leaves every other readable row. |
| Database.RowsReadBack | src/sql/queries.h:220-241 | So does writing any set of rows, for every order of the entries and all keys and nonces drawn. |
| Database.WritesCompose | src/sql/queries.h:220-241 | Writing some rows and then others writes the union, where a later row wins. |
| Database.Database.SaveRatchetAndKey | src/sql/queries.h:220-241 | One row per device in both tables; other tables untouched. |
| Database.Database.SaveMessageAndKey | src/sql/queries.h:343-379 | One row per file in both tables; other tables untouched. |
| Database.Database.GetAllDecryptedRatchets | src/sql/queries.h:706-770 | Lists, in some order, exactly the rows whose key row matches and decrypts. |
| Database.Database.GetDecryptedMessage | src/sql/queries.h:382-433 | Both lookups, the unwrapping and the decryption, with every failure as none. |
| Database.Database.GetAllFileUuids | src/sql/queries.h:642-704 | Lists, each once and in some order, exactly the files kept for other users as received, or as sent. |
| Database.RatchetRowOpens | src/sql/queries.h:728-760 | A ratchet row decrypts to some bytes if and only if there is a key row for the same device and user, it holds a key sealed under the KEK, and the row holds those bytes sealed under that key. |
| Database.MessageRowOpens | src/sql/queries.h:382-433 | Likewise a message row, whose key row is found by the file alone. |
| Database.OtherKeyOpensNothing | src/sql/queries.h:220-241 | Rows just written open under the KEK they were written with and under no other. |
| Coherence.SendKeepsCoherent | src/sessions/RatchetSessionManager.cpp:84-86 | Sending to all devices of a user with the rows it saves keeps memory and database in step. |
| Coherence.ReceiveCoherence | src/sessions/RatchetSessionManager.cpp:114-116 | After a receive and the save of a successful one, memory and database agree if and only if the header, looked at before the call, is not one that is adopted and then thrown. |
| Coherence.UnsavedEpoch | src/sessions/RatchetSessionManager.cpp:114-116 | The failing header, an unseen key with index -1: it throws, no row changes, memory holds the new key and the row the old one. |
| Coherence.CreationCoherence | src/database/schema.h:75-98 | New sessions keep memory and database in step if and only if no offer that creation gets to is for a new device of which another user has a session; rows are keyed by device alone. |
| Coherence.DeviceOfTwoUsers | src/database/schema.h:75-98 | The failing creation: one device offered for a second user, whose row takes the place of the first one's. |
| Coherence.OneOperationCoherence | src/sessions/RatchetSessionManager.cpp:23-119 | Every manager operation keeps them in step exactly when it is safe, a condition on memory and arguments before the call. |
| Coherence.CoherentThroughout | src/sessions/RatchetSessionManager.cpp:23-119 | Memory and database agree at every point of a run exactly when every operation of it is safe. |
| Coherence.ReloadRebuilds | src/sessions/RatchetSessionManager.cpp:121-141 | Loading into an empty manager, in any row order, rebuilds every user with a session, every device and every field the protocol reads. |
| Reloading.CreatesAlike | src/sessions/RatchetSessionManager.cpp:23-61 | Creation on memory that reads back the same posts the same, fails the same and leaves memory that reads back the same. |
| Reloading.ReloadAlikeExactly | src/sessions/RatchetSessionManager.cpp:121-141 | What is loaded from the rows reads back the same as memory if and only if memory and rows agree. |
| Reloading.WorkInStepExactly | src/sessions/RatchetSessionManager.cpp:23-119 | An operation with the encrypted rows it writes keeps memory and rows in step if and only if it is safe. |
| Reloading.RestartAfterExactly | src/sessions/RatchetSessionManager.cpp:23-141 | A restart right after an operation gives memory back, as far as anything reads it, if and only if the operation was safe. |
| Reloading.RestartForgetsEpoch | src/sessions/RatchetSessionManager.cpp:114-141 | The failing run: after the header with index -1 and a restart the next send carries the old key, without the restart the new one. |
| Reloading.RestartsAreInvisible | src/sessions/RatchetSessionManager.cpp:23-141 | In runs of memory and encrypted tables where a restart loads the rows, with safe operations and room in the indices: dropping every restart changes no key, header, posted handshake or error, except which of two lookups failed. |
| Reloading.RestartShowsInLookup | src/sessions/RatchetSessionManager.cpp:104-112 | That exception, for memory loaded from the rows: the error changes if and only if the user was left without any device. |
| Reloading.Work | src/sessions/RatchetSessionManager.cpp:23-119 | Each call of the manager object, in memory, in the tables and in what it returns, is one step of these runs. |
| Reloading.Reload | src/sessions/RatchetSessionManager.cpp:121-141 | A new manager that loads the database is the restart of these runs. |
| Reloading.LoadingCoherence | src/auth/login/login.cpp:30-30 | After rows are loaded over whatever was in memory, memory and rows agree if and only if each session that was there has a row under the same user. |
| Reloading.LoadingAgain | src/sessions/RatchetSessionManager.cpp:121-141 | Loading over memory in step leaves it in step and changes nothing that is read. |
| Reloading.LeftoverSession | src/auth/logout.h:9-14 | The failing login: a session of the account before whose device has no row stays, and the next send uses its ratchet. |
| SessionManager.GetSharedSecret | src/sessions/KeyBundle.h:70-97 | Both kinds of bundle: signature check or one-time key lookup, then the agreement, with every error. |
| SessionManager.BuildRatchet | src/sessions/KeyBundle.h:107-115 | The ratchet object built from a bundle is in the state `CreateRatchet` gives, or fails as it does. |
| SessionManager.RatchetSessionManager.CreateRatchetsIfNeeded | src/sessions/RatchetSessionManager.cpp:23-61 | Leaves exactly the sessions, posts and error of `CreateAll`, saves exactly the new ratchets, and owns only fresh objects besides the old ones. |
| SessionManager.RatchetSessionManager.GetKeysForIdentity | src/sessions/RatchetSessionManager.cpp:68-97 | Optional creation first, whose posts are returned, whose rows are saved and whose failure stops the call; else one key and stamped header per device, every ratchet advanced and saved. |
| SessionManager.RatchetSessionManager.GetKeyForDevice | src/sessions/RatchetSessionManager.cpp:100-119 | Both lookup errors, or one receive on that one ratchet, saved unless it throws; every other ratchet is untouched. |
| SessionManager.RatchetSessionManager.LoadRatchetsFromDb | src/sessions/RatchetSessionManager.cpp:121-141 | Puts every listed row, in listing order, into the nested map. |
| SessionManager.RatchetSessionManager.AdvanceDevices | src/sessions/RatchetSessionManager.cpp:79-95 | The loop over the devices of a user advances, stamps and saves each exactly once. |
| SessionManager.UpdateHandshakes | src/communication/ReceiveFlow.h:17-23 | Leaves the sessions, posts and error of `AcceptAll` and writes the rows of `AcceptedRows`. |
| SessionManager.AcceptingCoherence | src/communication/ReceiveFlow.h:17-23 | Working off the backlog with those rows keeps memory and database in step if and only if no handshake it gets to is from a device of which another user has a session. |
| SessionManager.NextOffer | src/sessions/RatchetSessionManager.cpp:26-61 | The loop over bundles extends the creation of a prefix by one bundle, or stops where the whole creation stops. |
| SessionManager.KeysForIdentityCoherence | src/sessions/RatchetSessionManager.cpp:68-97 | The whole call, creation and sends with all their saves, keeps memory and database in step if and only if no fetched bundle that creation gets to is for a new device of which another user has a session. |
| World.ActProjects | src/sessions/RatchetSessionManager.cpp:68-119 | Every act of a system of any number of devices is, to each device pair, one event of a two-party session or none. |
| World.ActsProject | src/sessions/RatchetSessionManager.cpp:68-119 | So is every run. |
| World.ShakenMatches | src/sessions/KeyBundle.h:70-173 | Two devices whose bundles are the two ends of one handshake build matched ratchets, whichever of them began it. |
| World.HandshakeMeets | src/sessions/RatchetSessionManager.cpp:23-61 | After any run, the initiator fetching the bundle and the responder processing the handshake gives each a session with the other, and is again a run the theorems are about. |
| World.FetchingIsMeeting | src/sessions/RatchetSessionManager.cpp:68-97 | `get_keys_for_identity` with fetched bundles is, on every session and issued key, a meeting and then a broadcast. |
| World.AcceptingIsMeeting | src/communication/ReceiveFlow.h:17-23 | `update_handshakes` is one meeting per handshake, up to the one that fails. |
| World.FleetAgreement | src/sessions/RatchetSessionManager.cpp:100-119 | In every run of the system, session creation from bundles included, each header between two devices of one handshake gives its addressee the issued key on first arrival and throws on every other, whatever other devices do. |
| World.NextArrival | src/sessions/RatchetSessionManager.cpp:100-119 | What the next arrival of any issued header does, in every reachable state: lookup error, throw without change, or the issued key. |
| World.BroadcastIssuesOneEach | src/sessions/RatchetSessionManager.cpp:79-95 | A broadcast issues exactly one stamped key and header per known device of the user, and nothing else changes at any other device. |
| World.ArrivalChangesOneRatchet | src/sessions/RatchetSessionManager.cpp:100-119 | An arrival changes at most the receiver's ratchet for the sending device. |
| World.FanOutDelivers | src/sessions/RatchetSessionManager.cpp:68-119 | The key a broadcast gave for a device that shares a handshake with the sender is what that device gets from the header, after any further run of the whole system in which it processes its bundle. |
| World.FleetKeysDiffer | src/key_exchange/NewRatchet.cpp:64-104 | Keys of sessions with different DH outputs never coincide, over whole runs. |
| Reboots.ActIsSafe | src/sessions/RatchetSessionManager.cpp:23-119 | In a fleet every operation is safe: bundles are for devices of their user and issued headers have indices from 0. |
| Reboots.PerformAlike | src/sessions/RatchetSessionManager.cpp:23-119 | Every act keeps two worlds with the same logs and sessions that read back the same that way. |
| Reboots.RebootsAreInvisible | src/sessions/RatchetSessionManager.cpp:23-141 | In runs of any number of devices over their databases, dropping every restart of every device changes no issued message, no delivery and no session as far as anything reads it. |
| Reboots.AgreementOverReboots | src/sessions/RatchetSessionManager.cpp:100-141 | So with restarts interleaved each header still gives its addressee the issued key on first arrival and throws on every other. |
| Envelope.EncryptMessageGivenKey | src/algorithms/algorithms.cpp:235-258 | One buffer of nonce and ciphertext: a frame of the message under the key, for some nonce. |
| Envelope.DecryptMessageGivenKey | src/algorithms/algorithms.cpp:260-290 | Both length errors, the authentication error, or the plaintext. |
| Envelope.SealedOpens | src/algorithms/algorithms.cpp:235-290 | A frame opens under its own key to its own plaintext and under no other key. |
| Envelope.OnlySealedOpens | src/algorithms/algorithms.cpp:260-290 | Whatever opens under a key to a plaintext is that plaintext sealed under that key. |
| Envelope.UnsealedFails | src/algorithms/algorithms.cpp:260-290 | Each way of failing: shorter than a nonce, shorter than nonce and tag, or not a nonce followed by what the key seals under it. |
| Envelope.StoreUuid | src/communication/send_file_to/send_file_to.cpp:37-38 | strncpy into the 64-character field leaves what `UuidField` says. |
| Envelope.UuidSurvives | src/communication/send_file_to/send_file_to.cpp:37-38 | The identifier arrives unchanged if and only if it is shorter than 64 characters and has no NUL. |
| Envelope.FieldHolds | src/communication/send_file_to/send_file_to.cpp:37-38 | The field holds the identifier up to its end, its first NUL or its 63rd character, whichever is first. |
| Envelope.UploadFile | src/communication/upload_file/upload_file.cpp:27-49 | Three frames: metadata and file under the file key, the file key under the key-encryption key. |
| Envelope.DownloadFile | src/communication/ReceiveFlow.h:236-260 | The checks of the download in their order, each with the message it leads to. |
| Envelope.UploadDownloads | src/communication/upload_file/upload_file.cpp:27-49 | Whoever kept the key-encryption key gets the bytes back and nobody else does; an empty file is refused to everybody. |
| Envelope.DownloadAnswers | src/communication/ReceiveFlow.h:236-260 | Every answer of a download, for anything the database and the server return, told from what opens under what. |
| Envelope.GetFileMetadata | src/communication/ReceiveFlow.h:104-187 | The checks before the metadata of a file is shown, each of which skips the file. |
| Envelope.UploadShowsMetadata | src/communication/upload_file/upload_file.cpp:27-49 | Whoever kept the key-encryption key is shown the metadata that was uploaded, unless it is empty, and nobody else is. |
| Sharing.KeepMessage | src/sql/queries.h:343-379 | A message kept under a fresh wrapped key: its row has the user, device and direction given and opens to the message under the KEK and under no other key; every other message is as before. |
| Sharing.MessageRowsReadBack | src/sql/queries.h:343-433 | So do the rows as written, for all keys and nonces drawn. |
| Sharing.UpdateMessages | src/communication/ReceiveFlow.h:25-82 | Reads messages in order up to the first that throws; sessions, ratchet rows, error and kept rows are those of `ReadAll`, where a kept row has the sender's user and device and says received, and every other message row is as before. |
| Sharing.LastReadStays | src/communication/ReceiveFlow.h:25-82 | A file has a new row if and only if some message for it was read; the row is of the last such message: what it says, the user it came from, the device its header names, as received. |
| Sharing.ReadEnds | src/communication/ReceiveFlow.h:31-81 | How reading one message ends, told from memory and message: no such user, no such device, a ratchet that throws, each way the ciphertext fails, or the plaintext. |
| Sharing.ListedAfter | src/sql/queries.h:642-704 | After messages are kept, the sent and received lists show exactly those kept that way for other users, and what they showed of files that were not touched. |
| Sharing.ReadingCoherence | src/communication/ReceiveFlow.h:25-82 | Reading with those rows keeps memory and database in step if and only if every receive it comes to is safe. |
| Sharing.ErrorStops | src/communication/ReceiveFlow.h:31-81 | What follows a message that throws is not looked at. |
| Sharing.MessagesFor | src/communication/send_file_to/send_file_to.cpp:28-44 | Exactly one message per device, each carrying the key-encryption key under that device's key, with the identifier as the field holds it. |
| Sharing.AllowAccessToFile | src/communication/send_file_to/send_file_to.cpp:19-88 | Keys for all devices, one message each, the handshakes posted, exactly the ratchet rows of creation and sends, and exactly when there was a device a copy as sent, for the user, with the device posted to last; no other message row changes. |
| Sharing.CopyIsCopy | src/communication/send_file_to/send_file_to.cpp:47-88 | The sender's copy, told from the keys alone: none without keys, else under the identifier as the field holds it a row for the recipient user, with one of the devices that have a key, the key-encryption key, as sent. |
| Sharing.SendFileTo | src/communication/send_file_to/send_file_to.cpp:90-96 | An upload under the key-encryption key, then access, with the same rows, handshakes and copy. |
| Recovery.ReadTransfer | src/communication/ReceiveFlow.h:31-81 | In every reachable state, with restarts before it, reading the message of a transfer keeps its key-encryption key the first time and nothing after that. |
| Recovery.SendingHolds | src/communication/send_file_to/send_file_to.cpp:19-96 | What holds right after a file is sent: stored, posted to every known device, and a row for the file at the sender, for the recipient user, as sent, and at nobody else. |
| Recovery.NextKeepsHeld | src/communication/ReceiveFlow.h:25-82 | Every later act and every restart anywhere keeps exactly the entitled devices holding the key-encryption key, in rows with the right user, device and direction. |
| Recovery.TransferHolds | src/communication/send_file_to/send_file_to.cpp:19-96 | That holds at every moment of every run after the send. |
| Recovery.FileRecovered | src/communication/ReceiveFlow.h:236-260 | In every run in which devices fetch bundles, process handshakes, send files, read messages and restart from their rows, at every moment after a file was sent to devices that each share a handshake with the sender: a device that downloads it gets the original bytes if and only if it is the sender of at least one message or a recipient that processed its message, the file is not empty and the identifier fits; else it is refused. Under the same conditions, and for no other device, it is shown the metadata that was uploaded. |
| Recovery.FileListed | src/sql/queries.h:642-704 | In the same runs, at every moment and on every device: the sent list shows the file exactly at the sender of at least one message, for the recipient user; the received list exactly at a recipient that processed its message, for the sender's user; neither for the current user. |
| Passwords.SetUpKeepsExactly | src/auth/set_up_client.cpp:22-41 | Set-up keeps salt, database and wrapped KEK consistent if and only if the user has no database and none is open. |
| Passwords.SetUpKnownUser | src/auth/set_up_client.cpp:22-31 | The failing family: the salt of an existing database is overwritten, and no password opens it any more; the call reports a wrong password, or success while a database is open. |
| Passwords.SetUpWhileOpen | src/auth/set_up_client.cpp:25-41 | The other one: the call reports success, and the new user gets a salt but no database. |
| Passwords.LoginExactly | src/auth/login/login.cpp:11-19 | While nothing is open a login answers: no salt for an unknown user, success for the current password, which then holds the KEK of set-up, a wrong password for any other; failing changes nothing. |
| Passwords.LoginWhileOpen | src/database/database.cpp:29-31 | While a database is open no login changes anything, because opening is skipped; success only for its own user with the current password, else no salt or a wrong password. |
| Passwords.RotateExactly | src/auth/rotate_master_key/rotate_master_key.cpp:16-39 | A rotation answers: no KEK when nobody is logged in, no salt for an unknown user, a wrong password for any other user than the one logged in or with any other password than the current one, and changes nothing; else it changes the password and keeps KEK and secrets. |
| Passwords.StoreKeeps | src/algorithms/algorithms.cpp:124-158 | Storing a secret under the KEK keeps everything consistent, and fails only when nobody is logged in. |
| Passwords.LifeInStep | src/auth/rotate_master_key/rotate_master_key.cpp:16-39 | Consistency over any sequence of set-ups, logins, logouts, rotations and stores: every KEK opens under the master key of its user's current password alone, and every secret under its KEK alone. |
| Passwords.KekStays | src/auth/rotate_master_key/rotate_master_key.cpp:16-39 | No KEK ever changes, from the point on where its account is set up. |
| Passwords.CurrentPasswordUnlocks | src/auth/login/login.cpp:11-19 | After any such sequence, from a fresh installation on, each user's current password and no other gets in, to the KEK of set-up and every secret stored since. |
| Accounts.LoginGivesKek | src/auth/login/login.cpp:11-19 | Logging in after any life gives the KEK the account had at any earlier point of it. |
| Accounts.LoginFindsSessions | src/auth/login/login.cpp:11-30 | Sessions that were in step with their rows at any earlier point are loaded, as far as anything reads them, by every later login. |
| Accounts.LoginFindsMessages | src/sql/queries.h:382-433 | And the row of every message that was kept, with its user, device and direction, reads back. |
| Installation.EncryptedStore.Initialize | src/database/database.cpp:24-73 | Opens with a key the file accepts, refuses any other, does nothing when open. |
| Installation.EncryptedStore.VerifyMasterKey | src/database/database.cpp:193-225 | Whether the file of the open database accepts a key. |
| Installation.EncryptedStore.RotateMasterKey | src/database/database.cpp:156-183 | Both errors without change, or the file and connection under the new key. |
| Installation.Installation.SetUpClientForUser | src/auth/set_up_client.cpp:13-44 | The whole new state and result are those of `SetUp`. |
| Installation.Installation.LoginUser | src/auth/login/login.cpp:11-19 | The whole new state and result are those of `Login`. |
| Installation.Installation.Logout | src/auth/logout.h:9-14 | The database is closed and the KEK unloaded. |
| Installation.Installation.RotateMasterPassword | src/auth/rotate_master_key/rotate_master_key.cpp:11-40 | The whole new state and result are those of `Rotate`. |
| AuthCode.CompareBytes | src/key_exchange/utils.h:102-102 | The sign of the first difference. |
| AuthCode.ConcatOrdered | src/key_exchange/utils.h:99-125 | The digest of the two strings one after the other: the one with the lesser byte where they first differ is first, or the one that begins the other if that is less than 2 GB longer; in general where lengths decide through a difference cut to 32 bits. |
| AuthCode.LesserFirst | src/key_exchange/utils.h:99-125 | Where one string precedes the other in that sense, both argument orders hash it followed by the other. |
| AuthCode.PrefixOrder | src/key_exchange/utils.h:103-116 | Where one string begins the other, what both argument orders hash, for every difference of the lengths. |
| AuthCode.SameBufferExactly | src/key_exchange/utils.h:99-125 | Both argument orders hash the same buffer if and only if not (one string begins the other and their lengths differ by a multiple of 2^31), or the two strings commute. |
| AuthCode.OrderMatters | src/key_exchange/utils.h:103-103 | Two strings for which the two orders hash different buffers. |
| AuthCode.ShortStringsSameBuffer | src/key_exchange/utils.h:99-125 | For strings under 2 GB the order of the arguments never matters. |
| AuthCode.BufferDeterminesPair | src/key_exchange/utils.h:99-125 | For strings of one length the buffer determines the unordered pair. |
| AuthCode.LengthsMatter | src/key_exchange/utils.h:99-125 | For strings of different lengths it does not. |
| AuthCode.GenerateUniqueIdPair | src/algorithms/algorithms.cpp:205-233 | The digest of the two digests of the names, the lesser digest first. |
| AuthCode.UniqueIdIsOfThePair | src/algorithms/algorithms.cpp:205-233 | It does not depend on the order of the names, and what is hashed last determines the unordered pair of digests. |

## Left out

- Recovery.FileRecovered: supposes that the server keeps uploads as they are and gives out new identifiers, that file keys are not
  rotated afterwards, that a device has no session with itself and, in runs with restarts, that there are fewer than 2^31 turns.
- World.FleetAgreement: is about two devices whose sessions are made from the two ends of one handshake (`Shaken`), where the server
  hands out bundles for devices of the user they were asked for (`Genuine`); both devices initiating at once, and a signed prekey
  rotated between fetch and handshake, are not such pairs.
- Session.LockstepRun: says nothing about headers of an epoch the receiver has left, whose keys the code cannot recover.
- Restart.RestartsAreInvisible: supposes that indices stay within a C++ int, which the format truncates to.
- Reloading.RestartsAreInvisible: supposes safe operations, without which it is false (`Reloading.RestartForgetsEpoch`), and indices
  within a C++ int.
- NewRatchet.NewRatchet.Deserialise: asks for a stream that begins with a whole ratchet; what a truncated stream leaves in the
  fields is whatever was there.
- NewRatchet.NewRatchet.FromBytes: likewise; every row the manager writes is whole.
- SessionManager.RatchetSessionManager.GetKeyForDevice: asks, as the other manager methods do, that the ratchet has room for one more
  step below 2^31, since C++ signed overflow is undefined.
- Passwords.LifeInStep: takes salts to be drawn fresh and rotations to complete; a crash between the rekeying and the writing of the
  salt is not modelled.
- Envelope.GetFileMetadata: ends with the decrypted bytes; parsing them as JSON follows it, and a file it cannot parse is skipped.
- Database.Database.GetAllFileUuids: is given the username of the session, which the code asks a singleton for.
- Envelope.DownloadFile: ends with the bytes; the save dialog and writing the file follow it.
- The insides of libsodium, SQLite and Argon2: primitives are free constructors, `dh` is total but for a
  one-time key of zero bytes, databases are finite maps by primary key.
- Collisions of random nonces and keys, which a UNIQUE column would turn into replaced rows.
- The network, request signing, JSON and hex: the server is a relay that may lose, repeat and reorder what it is given.
- KeyBundle.HandshakeToKeys: as all theorems about pairs of bundles, covers bundles with a one-time key and bundles with none; what
  a client is handed when the server has none left is neither (`KeyBundle.NoOnetimeKeyNoSession`).
- Reboots.RebootsAreInvisible: with restarts, supposes fewer than 2^31 turns, so that no index leaves a C++ int.
- Failures of posting a handshake, which the code swallows after the ratchet is made.
- A failed `initialize`, which leaves a closed handle behind that a later `closeDatabase` would close again.
- After the unlock, login also talks to the server, loads the ratchets (`LoadRatchetsFromDb`) and posts new prekeys; only the unlock is
  part of `Passwords.Login`.
- `refresh_access` and revocation: they install a file key that the stored file is not encrypted under.
- `base642bin`, hex and URL codecs, validators, the TTL cache, formatting, windows, camera and QR codes.
- Memory locking and zeroing, logging, threads and time.

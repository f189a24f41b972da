# Whisper mailbox: a verified model

A Dafny model of an end-to-end encrypted messenger: the Double Ratchet sessions that two users
hold, the mailbox server their envelopes wait on, the two scripts that join them, and the small
kernels beside them (key derivation, canonical JSON, poll cursors, provider deduplication, DHT
buckets). Everything is proved for all inputs or for all runs; `dafny verify dfyconfig.toml` checks
the whole of it.

## How it is laid out

* **Sessions.** `Ratchet` gives `encrypt`, `decrypt` and `skipMessageKeys` as functions on a session
  value; `Session` has the objects that overwrite their fields, each method proved to do to the
  object's value what the function says. Cryptography is a record of functions (`Primitives`);
  `Lawful` says Diffie-Hellman agrees, decryption undoes encryption and no key is empty.
  `WhisperPrimitives` builds such a record from the key derivation in `Kdf`. `MessageMac` says what the
  authentication code of a message covers and what becomes of a message that was altered.
* **The two-party system.** `Protocol` lets two sessions send, deliver in order, lose messages
  anywhere in a channel and be saved and reloaded, in any interleaving. `Invariant` and `Agreement`
  carry the inductive invariant (a history of ratchet steps, the skipped-key book, what is in
  flight); `AgreementTheorems`, `KeyUse` and `PreviousLength` hold what follows for every run, and
  `FixedLength` a run with 32-octet derivations in which no two keys collide. `AnyOrder` follows a
  session that is handed messages in any order, again and again; `AnyOrderTheorems` applies that to
  the sessions of a run.
  Epochs count ratchet steps: the initiator sends in odd ones, the responder in even ones.
* **Files.** `Persistence` (conversion to JSON and back, the file member by member), `SessionManager`
  (names of sessions, cache over files).
* **The server.** `Mailbox` gives each handler as a function from tables and a request to tables and
  a response; `MailboxServer` has the handlers with their statements and loops, proved equal to
  those functions. `BearerTokens` says which headers carry a token, `MailboxAnswers` when requests are
  granted and what they achieve, `MailboxReplies` which refusal a request gets and what the reported
  numbers count, `MailboxRecords` that a page shows of a message what was deposited; `MailboxRuns`,
  `Pagination`, `Isolation`, `Quota` and `QuotaExact` are about whole runs. There a request is one step, but for the two steps of a deposit in `Quota`;
  `Interleaved` executes every statement of a request on its own.
* **The scripts.** `Envelopes` and `Scripts` model one run of the send and of the receive script;
  `Signatures` says what the signature decides on any page, whatever the blobs. `ScriptRuns` has two
  users who run them against the server, and `EndToEnd` shows that the unexpired
  rows of a mailbox are a channel of the two-party system, as long as the first envelope arrives.
  `EndToEndTheorems` has the results, also for when it does not; `ScriptsCanRun` builds a run of
  either kind. `LostAcks` follows the receive script over any page of envelopes, also of ones it has
  read before, `LostAckTheorems` says what it shows of them over one run and over many, and
  `LostAckRun` has acknowledgements lost in a run.
* **Kernels.** `Kdf`, `Json` with `JsonText`, `CanonicalJson` with `CanonicalOrder`, `Base64Url`,
  `Cursor`, `X3dh`, `Delivery`, `DhtWindow`.
  `Data`, `Rows` and `Subsequences` are shared vocabulary.

## What the environment must grant

The agreement results hold for one initiator, a responder that decrypts before it encrypts, fresh
key pairs where a ratchet step draws one, and channels that lose but neither reorder nor repeat.
Messages outside that discipline are settled too: `AnyOrderTheorems.EveryHandingIsDecided` says of
any messages ever sent, handed over in any order and however often, which of them decrypt. Results
about different keys ask that the run itself met no collision: only values derived in it are
compared, as no derivation of fixed length is free of collisions everywhere. Primitives whose
derivations are free terms (`KeyUse.Tagged`) meet none at all, and serve where a run is built.

The end-to-end results need that the responder writes only when it has a session, that nobody else
deposits to or acknowledges for the two users, that acknowledgements arrive, and a page size of at
most 2000, which is what `ack` takes. Any deposit may be lost or refused and any envelope may
expire unread; what becomes of a conversation whose first envelope is lost is part of the results.
The results on lost acknowledgements take up those that do not; there the user who reads does not
write in between.

## What turned out otherwise than one might expect

* The length a header reports for the previous chain is how far its sender has *read*
  (`lib/double-ratchet/session.js:31`), not how much it had sent. `PreviousLength.KeptOfOldEpoch` says
  exactly which messages of an epoch a receiver can still account for when it leaves it, and
  `PreviousLength.TailKeyIsLost` is a run after which a message sent has no key anywhere.
* Stored skipped keys are right and conserved, but `decrypt` never reads them, so a late message is
  refused by the MAC check.
* `register`, `ack` and `revoke` stop at a bad item with the earlier items done; the conservation
  result counts the done part of a failing ack.
* Mailboxes share one thing: the row counter. `Isolation.OnlyTheCounterIsShared` says when that shows.
* The quota is kept by all runs exactly when deposits never overlap. With k overlapping it is
  exceeded by at most k - 1 full-size messages, and for every k a run from empty tables reaches that.
* When the first envelope is lost, nothing is ever read again on either side, although later
  deposits are accepted: only the first envelope holds the key from which the responder's session
  is made. `EndToEndTheorems.FateOfTheFirst` says exactly when that has happened.
* A comment in the receive script says that the session is always read back from disk
  (`scripts/whisper_receive_v2.js:135`), but `loadSession` returns the cached one, which a refused
  message has moved on. So an envelope that was read and not deleted takes new ones behind it with
  it: on a page in sending order message i is read exactly when it is at least i places ahead of the
  saved session (`LostAckTheorems.WhichAreRead`). When a gap lets a later one be read, those skipped
  before it are never shown (`LostAckTheorems.PassedOverIsNeverShown`). But nothing is shown twice,
  however often a page comes again (`LostAckTheorems.NothingTwiceAndInOrder`).
* A message that is late by an epoch is refused, and so is every message after it: its key is taken
  for a new one, and the session takes a ratchet step that its peer never takes
  (`AnyOrderTheorems.OlderMessageEndsTheSession`). The file keeps the session from before.
* A provider of priority 0 counts as having none (999). Deduplication keeps the first copy for
  whatever the providers return exactly when no such provider stands before one below 999.
* The DHT loop starts at the given time and not at the full hour, and may miss messages of the
  current hour; `DhtWindow.CoversExactly` says when it does not. A start of 0 is taken for a missing
  one, so both mean the last 48 hours, and those miss the current hour unless it has just begun.
* Two pairs of users can share one session file: `a` with `b__c` and `a__b` with `c` have the name
  `a__b__c` (`SessionManager.NamesCanBeShared`). A pair's name is its own exactly when it splits at one
  place only, as it does for identities without underscores.
* The text that is authenticated does not delimit the associated data: without their length they are
  not determined (`MessageMac.DataIsNotDelimited`), with it they are. Both scripts pass none.
* `cleanupSkippedKeys` with a limit of 0 removes nothing, because `slice(-0)` is the whole list.

## Model

| member | source | states |
|---|---|---|
| `AgreementTheorems.EveryDeliveryDecrypts` | lib/double-ratchet/session.js:29-122 | in every run, whatever the interleaving and the losses, every delivered message was sent by the other side than the one it is delivered to and decrypts to exactly the plaintext encrypted |
| `AgreementTheorems.DeliveredInOrder` | lib/double-ratchet/session.js:68-112 | each side is handed its messages in the order they were sent, none twice |
| `AgreementTheorems.Lockstep` | lib/double-ratchet/dh-ratchet.js:24-71 | epochs differ by at most one, equal epochs mean equal root keys, and a message in flight is of the epoch its receiver reads or of the one right after its own |
| `AgreementTheorems.ReloadIsIdentity` | lib/double-ratchet/session-manager.js:49-112 | in every state the invariant allows, writing a session to a file and loading it in a fresh manager gives the same session |
| `AgreementTheorems.ReloadsAreInvisible` | lib/double-ratchet/session-manager.js:49-112 | reloads put anywhere in a run change neither whether the run is possible nor its outcome |
| `AgreementTheorems.SkippedKeysConserved` | lib/double-ratchet/session.js:75-122 | on the chain being read, the position is the number of messages decrypted plus the number of keys stored, and the two sets of numbers are disjoint and make up all numbers below it |
| `AgreementTheorems.StoredKeysAreRight` | lib/double-ratchet/session.js:114-122 | an entry labelled (remote key, n) holds message key n of that key's chain, also when the pre-ratchet skip made it, and its message was not decrypted |
| `AgreementTheorems.RunKeepsInv` | lib/double-ratchet/session.js:29-122 | the invariant is kept by every step of every run |
| `Invariant.StartInv` | lib/double-ratchet/session.js:11-27 | two freshly constructed sessions with one root key satisfy the invariant, whatever key pair the initiator passes |
| `Invariant.SkipKeepsBook` | lib/double-ratchet/session.js:114-122 | skipping moves the chain to the number asked for, never back, and every number passed over is in the map under its own key |
| `Agreement.SendKeepsInv` | lib/double-ratchet/session.js:29-66 | one encryption, with or without a ratchet step, keeps the invariant |
| `Agreement.DeliverKeepsInv` | lib/double-ratchet/session.js:68-112 | decrypting the oldest message in flight yields its plaintext and keeps the invariant |
| `Agreement.RatchetAgrees` | lib/double-ratchet/dh-ratchet.js:24-39 | the receiver's half of a ratchet step derives the root key and chain the sender's half did |
| `Ratchet.LabelInjective` | lib/double-ratchet/session.js:119 | a label of comma-joined decimal octets and a number names one key and one number |
| `KeyUse.EachMessageHasItsOwnKey` | lib/double-ratchet/session.js:38-39 | in a run that met no collision among the values it derived, no two encryptions, by either party, use one message key |
| `KeyUse.PlacesDiffer` | lib/double-ratchet/symmetric-ratchet.js:13-24 | a message key determines its epoch and its number, unless the two chains met on the way to it |
| `KeyUse.DecryptsExactlyWhenAhead` | lib/double-ratchet/session.js:68-112 | any message ever sent, however late, early or repeated, decrypts when its place is still ahead of its receiver and fails the MAC check otherwise, as long as neither the run nor this reading met a collision |
| `KeyUse.FreeDerivationsNeverCollide` | lib/double-ratchet/kdf.js:44-78 | derivations that are injective everywhere meet no collision in any run |
| `KeyUse.FreeReadingsNeverCollide` | lib/double-ratchet/session.js:68-112 | nor in reading any message at any time |
| `FixedLength.FixedLengthRun` | lib/double-ratchet/kdf.js:44-78 | with derivations of 32 octets, built as in the code from a stand-in for HMAC, there is a run of two messages without a collision |
| `KeyUse.TaggedCanStart` | lib/double-ratchet/session.js:11-27 | and sessions can start with them, so the runs spoken of exist |
| `AnyOrderTheorems.EveryHandingIsDecided` | lib/double-ratchet/session.js:68-112 | a session of a run, handed messages of the other side in any order and however often, decrypts each to its plaintext or refuses it at the MAC check as its epoch and place decide, as long as no collision is met |
| `AnyOrderTheorems.OlderMessageEndsTheSession` | lib/double-ratchet/session.js:71-90 | a message of an older epoch than the one being read is refused, and so is every message handed over after it |
| `AnyOrderTheorems.LateMessageIsReal` | lib/double-ratchet/session.js:71-90 | from every start, with free derivations, a run leads to a session that would read the next message but, handed one that is an epoch late, refuses that one and the next |
| `AnyOrderTheorems.FreeHandedOver` | lib/double-ratchet/kdf.js:44-78 | with free derivations nothing handed over to any session of a run meets a collision |
| `AnyOrder.OneDecided` | lib/double-ratchet/session.js:68-112 | one message, whatever its epoch and place: its outcome, and where it leaves the session |
| `AnyOrder.OneChain` | lib/double-ratchet/session.js:85-88 | of messages of the chain being read, one is decrypted exactly when the session has not come past it, each message moving the session past itself or one place on |
| `PreviousLength.SkipStores` | lib/double-ratchet/session.js:114-122 | skipping adds exactly the labels from the position up to the number asked for |
| `PreviousLength.KeptOfOldEpoch` | lib/double-ratchet/session.js:75-82 | when a receiver turns to a new epoch, message n of the one it leaves is decrypted or stored exactly when n is below the reported length or below what was read |
| `PreviousLength.SendNumbers` | lib/double-ratchet/session.js:30-36 | a message that opens a chain reports the position of its sender's reading as the previous chain's length |
| `PreviousLength.TailKeyIsLost` | lib/double-ratchet/session.js:31 | a run after which a message of the sender's previous chain is neither decrypted nor stored, the header having reported one message where two were sent |
| `Session.DoubleRatchetSession.constructor` | lib/double-ratchet/session.js:11-27 | the object constructed has the value the function gives; a sender ratchets at once |
| `Session.DoubleRatchetSession.Encrypt` | lib/double-ratchet/session.js:29-66 | the object's new value and the message are those of the function all agreement results are about; `MessageMac.SentTag` says what its code is taken over |
| `Session.DoubleRatchetSession.Decrypt` | lib/double-ratchet/session.js:68-112 | likewise, with the state moved on also when the message is refused; `MessageMac.OpenedExactlyWhen` and `MessageMac.AlteredIsRefused` say when it is |
| `MessageMac.MacCoversMessage` | lib/double-ratchet/session.js:51-55 | the text the code is taken over determines header and ciphertext, and of associated data of one length those too: it is the same exactly when all three are |
| `MessageMac.DataIsNotDelimited` | lib/double-ratchet/session.js:51-55 | messages with associated data of different lengths can have one such text |
| `MessageMac.CoveredText` | lib/double-ratchet/session.js:45-55 | that text, character by character: associated data, `{"dhPublicKey":[...],"messageNumber":n,"previousChainLength":m}` in decimal, ciphertext |
| `MessageMac.SentTag` | lib/double-ratchet/session.js:40-65 | a message sent is sealed under the cipher key and iv of one message key, and its code is taken, under the authentication key of the same, over associated data, header and ciphertext |
| `MessageMac.OpenedExactlyWhen` | lib/double-ratchet/session.js:90-112 | a message decrypts to a text exactly when its code is the one of its own text under the key of its place and the ciphertext opens to it; which error it gets otherwise |
| `MessageMac.AlteredIsRefused` | lib/double-ratchet/session.js:93-106 | a message whose header or ciphertext differs from the one sent, or that is read under other associated data of that length, and that carries the code sent, fails the check at every session, unless two different texts have that one code |
| `MessageMac.LabelSpelled` | lib/double-ratchet/session.js:119 | the label of a skipped key: octets in decimal with commas between them, a dash, the number |
| `Ratchet.CurrentStaysLocal` | lib/double-ratchet/session.js:11-88 | while there is a chain the public key in use is that of the local pair: true of new sessions and kept by every operation |
| `Ratchet.HeaderNamesLocalKey` | lib/double-ratchet/session.js:29-49 | so a header names the key the sender can be answered under; encrypting fails exactly without a sending chain and a remote key |
| `Ratchet.SetOldEntry` | lib/double-ratchet/session.js:120 | setting a key again keeps its place in the map and replaces its value, nothing else |
| `Session.DoubleRatchetSession.SkipMessageKeys` | lib/double-ratchet/session.js:114-122 | the loop does what the recursive function says |
| `Session.DoubleRatchetSession.GetState` | lib/double-ratchet/session.js:124-133 | reads off the whole value |
| `Session.DoubleRatchetSession.FromState` | lib/double-ratchet/session.js:135-148 | makes an object of exactly that value, of objects of its own |
| `Session.SymmetricRatchet.RatchetForward` | lib/double-ratchet/symmetric-ratchet.js:13-24 | returns the key and number of the place the chain stood at and moves one place on |
| `Session.DHRatchet.RatchetReceive` | lib/double-ratchet/dh-ratchet.js:24-39 | root and chain key come from the old root key, the own pair and the new remote key; the own pair stays |
| `Session.DHRatchet.RatchetSend` | lib/double-ratchet/dh-ratchet.js:47-71 | fails without a remote key and changes nothing, else replaces the own pair before deriving |
| `Persistence.RoundTrip` | lib/double-ratchet/session-manager.js:148-189 | restoring undoes converting for exactly the values without empty byte arrays and without plain non-empty arrays of numbers only |
| `Persistence.FromStateValue` | lib/double-ratchet/session.js:124-148 | fromState undoes getState, the order of the skipped-key map included |
| `Persistence.SaveLoad` | lib/double-ratchet/session-manager.js:49-112 | a saved session is loaded as it was, whatever is written beside it |
| `Persistence.SessionFileSpelled` | lib/double-ratchet/session-manager.js:98-109 | the JSON written, member by member: version 1, the two identities as passed, the time, and the whole state with every key as an array of its octets |
| `Persistence.ArrayRestored` | lib/double-ratchet/session-manager.js:172-180 | an array is read as bytes exactly when it is not empty and holds numbers only, and then each octet is the number modulo 256 |
| `AgreementTheorems.PartyStorable` | lib/double-ratchet/session-manager.js:90-112 | every session the system reaches is one that survives saving |
| `SessionManager.SessionKeySymmetric` | lib/double-ratchet/session-manager.js:29-33 | both parties name their session alike |
| `SessionManager.SessionKeySpelled` | lib/double-ratchet/session-manager.js:29-33 | the name is the identity that comes first in dictionary order, two underscores, and the other identity |
| `SessionManager.NameIsOwnExactlyWhen` | lib/double-ratchet/session-manager.js:29-33 | a pair shares its name with no other pair of identities, whatever those are, if and only if the name splits at one place only into two sorted identities |
| `SessionManager.NoUnderscoreIsOwn` | lib/double-ratchet/session-manager.js:29-33 | identities without underscores have a name of their own: it is the name of another pair exactly when that is the same two |
| `SessionManager.NamesCanBeShared` | lib/double-ratchet/session-manager.js:29-33 | a and b__c have the name of a__b and c |
| `SessionManager.LoadAfterSave` | lib/double-ratchet/session-manager.js:49-112 | after saving for one pair, loading for another gives what it gave before, if one of the two names is its pair's own |
| `SessionManager.LoadAfterDelete` | lib/double-ratchet/session-manager.js:49-129 | so it does after deleting |
| `SessionManager.LoadAfterCleanup` | lib/double-ratchet/session-manager.js:49-213 | and after cleaning up |
| `SessionManager.SessionManager.LoadSession` | lib/double-ratchet/session-manager.js:49-81 | the cached object under the pair's name, else one made from the file and cached, else null; other names stay |
| `SessionManager.SessionManager.SaveSession` | lib/double-ratchet/session-manager.js:90-112 | the session is cached and its file holds its value |
| `SessionManager.SessionManager.DeleteSession` | lib/double-ratchet/session-manager.js:117-129 | neither cache nor disk has the session any more |
| `SessionManager.SessionManager.CleanupSkippedKeys` | lib/double-ratchet/session-manager.js:198-213 | above the limit the oldest entries go and the session is saved, below it nothing happens; no other session or file is touched |
| `SessionManager.CleanupBound` | lib/double-ratchet/session-manager.js:203-206 | cleaning up keeps the last entries, as many as the limit or all there are, and meets its limit exactly when the limit is positive or there was nothing stored |
| `SessionManager.SaveThenLoadElsewhere` | lib/double-ratchet/session-manager.js:49-112 | one manager saves an object, another that has only the files loads an equal one |
| `X3dh.RootKeysAgree` | lib/double-ratchet/x3dh-init.js:8-48 | both parties derive one root key, for all identity and ephemeral keys: the hash of the two shared secrets, in this order, and the label |
| `X3dh.PassedPairIsNeverUsed` | lib/double-ratchet/session.js:11-19 | the key pair the initiator passes to the constructor makes no difference |
| `X3dh.SessionsStartInSync` | lib/double-ratchet/x3dh-init.js:8-48 | sessions built from the agreement are a start of the two-party system and satisfy its invariant |
| `Kdf.Hkdf` | lib/double-ratchet/kdf.js:7-36 | the loop computes HKDF as sections 2.2 and 2.3 of RFC 5869 define it, for every length up to 255 blocks, and refuses longer ones |
| `Kdf.OctetOfBlock` | lib/double-ratchet/kdf.js:22-33 | octet k of the output is octet k mod 32 of block k / 32 + 1 |
| `Kdf.ShorterIsPrefix` | lib/double-ratchet/kdf.js:7-36 | a shorter output is a prefix of a longer one |
| `Kdf.RootSplit` | lib/double-ratchet/kdf.js:44-55 | root key and chain key are the first two blocks and partition the 64 octets |
| `Kdf.MessageKeySplit` | lib/double-ratchet/kdf.js:67-78 | cipher key, authentication key and initialisation vector partition the 80 octets |
| `Kdf.RootKeySpelled` | lib/double-ratchet/kdf.js:44-55 | both keys of a ratchet step as HMACs: the root key is the salt, and the texts end in the purpose and a counter |
| `Kdf.ChainKeySpelled` | lib/double-ratchet/kdf.js:57-65 | octet 2 gives the next chain key and octet 1 the message key |
| `Kdf.MessageKeysSpelled` | lib/double-ratchet/kdf.js:67-78 | the three keys of a message as HMACs, with a salt of 32 zeros |
| `Kdf.NoSaltIsZeros` | lib/double-ratchet/kdf.js:7-9 | leaving out the salt is passing 32 zeros |
| `WhisperPrimitives.WhisperUsesHmac` | lib/double-ratchet/session.js:57-59 | the derivations and the code of the sessions are made of the one HMAC |
| `WhisperPrimitives.MessageKeysUseHmac` | lib/double-ratchet/session.js:40-59 | so are the keys of a message |
| `WhisperPrimitives.WhisperIsLawful` | lib/double-ratchet/kdf.js:44-78 | the derivations in use are lawful whenever Diffie-Hellman agrees and the cipher can be undone |
| `MailboxServer.MailboxServer.CreateMailbox` | src/main.rs:250-290 | a mailbox is made exactly when the token is absent or 32 bytes in base64url and the id is new; its token, given or else returned, then passes for the owner; a refusal changes nothing |
| `MailboxAnswers.CreatedExactlyWhen` | src/main.rs:250-290 | and one may poll the new mailbox exactly when one presents a token of the hash stored for it; the mailboxes there were keep their hashes, tokens and messages stay |
| `MailboxServer.MailboxServer.RegisterDepositTokens` | src/main.rs:302-356 | tables and response are those of the handler's function, whose effect `MailboxReplies.RegisterReports` and `MailboxReplies.RegisterRefusals` state |
| `MailboxServer.MailboxServer.InsertTokens` | src/main.rs:333-353 | the loop inserts up to the first bad token and counts the new ones |
| `MailboxServer.MailboxServer.Deposit` | src/main.rs:388-485 | tables and response are those of the handler's function, of which `MailboxReplies.DepositRefusals` says when it accepts and `MailboxRecords.DepositStores` what it stores |
| `MailboxServer.MailboxServer.CheckDeposit` | src/main.rs:394-456 | everything before the insert, checks in the order of the code |
| `MailboxServer.MailboxServer.Insert` | src/main.rs:458-484 | the insert, with the unique index and the row counter |
| `MailboxServer.MailboxServer.Poll` | src/main.rs:507-588 | the page and the cursor of the handler's function, the tables unchanged; `MailboxRecords.PageShowsRows` gives its messages value by value |
| `MailboxServer.MailboxServer.Ack` | src/main.rs:600-645 | tables and response are those of the handler's function, whose effect `MailboxReplies.AckReports` and `MailboxReplies.AckRefusals` state |
| `MailboxServer.MailboxServer.DeleteMessages` | src/main.rs:632-642 | the loop deletes up to the first id that does not decode and counts the rows |
| `MailboxServer.MailboxServer.Revoke` | src/main.rs:657-709 | tables and response are those of the handler's function, whose effect `MailboxReplies.RevokeReports` and `MailboxReplies.RevokeRefusals` state |
| `MailboxServer.MailboxServer.MarkRevoked` | src/main.rs:689-704 | the loop revokes up to the first bad hash and counts matched rows |
| `MailboxServer.MailboxServer.PurgeExpired` | src/main.rs:73-77 | exactly the expired rows go |
| `MailboxAnswers.DepositedExactlyWhen` | src/main.rs:394-484 | a deposit is accepted exactly when it is small enough, a live token of an existing mailbox is presented, it has not expired, it fits the quota, and its message id is well formed and new; it expires when asked for or at the latest time allowed |
| `MailboxAnswers.PolledExactlyByOwner` | src/main.rs:513-540 | a mailbox is polled exactly by who presents its poll token, with a cursor issued for it or none |
| `MailboxAnswers.RegisterAddsListed` | src/main.rs:333-353 | registering adds exactly the tokens it gets through before a bad one; a revoked token stays revoked |
| `MailboxAnswers.RegisterCountsNew` | src/main.rs:333-355 | the number reported is the number of tokens that are new |
| `MailboxAnswers.RegisterSucceeds` | src/main.rs:333-353 | registering gets through the whole list exactly when every token is 32 bytes in base64url |
| `MailboxAnswers.RevokeMarksListed` | src/main.rs:689-704 | revoking revokes exactly the listed tokens that exist, makes none and brings none back |
| `MailboxAnswers.RevokeSucceeds` | src/main.rs:689-704 | so does revoking, exactly when every hash is |
| `BearerTokens.BearerExactly` | src/main.rs:165-173 | a header carries a token exactly when it is the word bearer, in any mixture of letters, and the token, with blanks or tabs between and around them |
| `MailboxReplies.RegisterRefusals` | src/main.rs:302-340 | registering is refused with the first condition not met: bearer token, base64url, 32 bytes, mailbox, owner, 1 to 5000 tokens, each of 32 bytes |
| `MailboxReplies.RegisterReports` | src/main.rs:333-355 | else the hash of every token listed is in the table, live unless it was revoked, and the number reported is the number of new ones |
| `MailboxReplies.AckRefusals` | src/main.rs:600-634 | acknowledging likewise, with 1 to 2000 ids, each base64url |
| `MailboxReplies.AckReports` | src/main.rs:632-644 | else exactly the messages of the mailbox whose ids are listed are deleted, and their number reported |
| `MailboxReplies.RevokeRefusals` | src/main.rs:657-693 | revoking likewise, with 1 to 1000 hashes, each of 32 bytes |
| `MailboxReplies.RevokeReports` | src/main.rs:689-708 | else exactly the tokens listed that exist are revoked besides those that were, and the number reported counts the hashes that match, as often as they are listed |
| `MailboxReplies.PollRefusals` | src/main.rs:507-540 | polling likewise, with a cursor issued for the mailbox or none |
| `MailboxReplies.CreateRefusals` | src/main.rs:257-282 | making a mailbox is refused for a token that is not 32 bytes, and fails for an id in use |
| `MailboxReplies.DepositRefusals` | src/main.rs:394-484 | depositing is refused with the first condition not met, of eleven: size, three of the token, mailbox, live token, expiry, quota in stored bytes, id of 16 to 32 bytes, id new to the mailbox, row id left |
| `MailboxReplies.LimitIsClamped` | src/main.rs:543-546 | a page is limited by the number asked for, or else the default, brought into the range from 1 to the maximum |
| `MailboxReplies.PurgeDeletesExpired` | src/main.rs:73-77 | the background task deletes the messages whose time has come, and no others |
| `MailboxRecords.DepositStores` | src/main.rs:456-477 | an accepted deposit answers the id it was given and adds one row with a new number: mailbox, id, body, the time of the request, the expiry answered |
| `MailboxRecords.PageShowsRows` | src/main.rs:548-588 | a page gives of each of its rows the id in base64url, both times and the body |
| `MailboxRecords.DepositIsShown` | src/main.rs:388-588 | a deposit accepted at time t is shown by every later page that reaches it, whatever requests come in between, until it expires or is acknowledged: with its id, received at t, the expiry answered, its body |
| `MailboxRecords.ShownWasDeposited` | src/main.rs:388-588 | over every run from empty tables, whatever a page shows was deposited with that id and body at that time, answered with that expiry, and is not expired |
| `MailboxRuns.MailboxConservation` | src/main.rs:388-645 | over every run from empty tables, accepted deposits are stored, acknowledged (also by a failing ack) or purged; ids ascend, message ids are unique in a mailbox, and no message outlives the maximum TTL |
| `MailboxRuns.AckDeletesListed` | src/main.rs:632-642 | ack deletes exactly the rows of its mailbox whose ids it got through, and its count is their number |
| `MailboxRuns.AckSucceeds` | src/main.rs:632-642 | ack gets through exactly when every id decodes |
| `MailboxRuns.IdsAreNeverReused` | migrations/001_init.sql:18 | over any run a row is an old one or its id is above every id given out before |
| `MailboxRuns.PurgeIsInvisible` | src/main.rs:73-77 | a purge changes no poll at its own time or later |
| `MailboxRuns.RevocationIsPermanent` | src/main.rs:657-709 | after any run, registering the token again included, a revoked token deposits nothing |
| `MailboxRuns.DeletionIsLocal` | src/main.rs:635-641 | deleting in one mailbox leaves the rows of every other as they are |
| `Interleaved.HandlerIsItsStatements` | src/main.rs:250-709 | a handler that nothing interrupts leaves the tables as its statements do, executed one after the other |
| `Interleaved.InterleavedConservation` | src/main.rs:388-645 | however the statements of requests interleave: every message an insert stored is still stored, was counted by a delete of an ack, or was purged, and the tables stay in order |
| `Interleaved.RevokedDepositsLeaveNoTrace` | src/main.rs:657-709 | once a token is revoked, deposits that present it can be struck from the run without a trace, so that only those already checked by then can still be stored |
| `Interleaved.PagesUnderInterleaving` | src/main.rs:535-587 | along a chain of pages ids go up, nothing is shown twice, and a short page means that everything live was shown, however the statements of other requests come in between |
| `Pagination.PagesNeverRepeat` | src/main.rs:535-587 | along a chain of polls ids only go up and nothing is shown twice, whatever other requests and purges come in between |
| `Pagination.ShortPageMeansComplete` | src/main.rs:535-587 | the next page never fails, and when one is shorter than its limit every message stored and unexpired has been shown |
| `Pagination.PageHolds` | src/main.rs:548-563 | a page holds the oldest unexpired rows after its cursor, in id order, none skipped |
| `Isolation.MailboxesAreIsolated` | src/main.rs:388-587 | deleting every request to other mailboxes from a run changes no answer of a mailbox but the cursor texts |
| `Isolation.OnlyTheCounterIsShared` | migrations/001_init.sql:18 | an accepted deposit is answered alike exactly while the other traffic has left a row id |
| `Quota.QuotaUnderOverlap` | src/main.rs:445-470 | with at most k deposits between query and insert, stored bytes exceed the quota by at most k - 1 messages of full size, in every interleaving with acks and purges |
| `Quota.QuotaWithoutOverlap` | src/main.rs:445-470 | deposits that do not overlap keep the quota exactly |
| `QuotaExact.TheBoundIsReached` | src/main.rs:445-470 | for every k there is a run from empty tables, with at most k deposits overlapping, that stores exactly the quota and k - 1 messages of full size |
| `QuotaExact.QuotaKeptExactlyWithoutOverlap` | src/main.rs:445-470 | the runs from empty tables with at most k overlapping deposits all keep the quota if and only if k is at most one |
| `Cursor.CursorDecodesExactlyIssued` | src/main.rs:198-229 | a text decodes to an id for a mailbox exactly when it is the cursor issued for them, for every 64-bit signed id |
| `Cursor.MacInputInjective` | src/main.rs:201-203 | the tagged text determines mailbox and id |
| `Cursor.ForeignCursorNeedsTagCollision` | src/main.rs:212-224 | a cursor of one mailbox passes for another exactly when two different tagged texts share a tag |
| `Cursor.CursorSpelled` | src/main.rs:198-210 | a cursor is the base64url text of the id's eight bytes and a tag over the letters of cursor, the mailbox and those bytes |
| `Cursor.IdBytesSpelled` | src/main.rs:199 | byte k of them is digit k of the id in base 256, modulo 2 to the 64th |
| `Base64Url.DecodeInverts` | src/main.rs:181-188 | each byte string has exactly one unpadded base64url text (section 5 of RFC 4648), and each text that decodes is the text of its bytes |
| `Base64Url.EncodeSpelled` | src/main.rs:186-188 | every six bits are one symbol, zeros filling up the last, and there is no padding |
| `Base64Url.Alphabet` | src/main.rs:186-188 | the symbols in order: capitals, small letters, digits, hyphen, underscore |
| `Envelopes.EnvelopeRoundTrip` | scripts/whisper_send_v2.js:107-142 | the receive script reads of an envelope what the send script put in, the optional key included |
| `Envelopes.EnvelopeReadExactly` | scripts/whisper_receive_v2.js:101-180 | an envelope is read exactly from JSON of version 2 with these members, each of its kind |
| `Signatures.UnsignedMayBeStruck` | scripts/whisper_receive_v2.js:98-206 | on every page, whatever the blobs and the files: striking the messages that are not version 2, name no known sender, or whose signature does not hold, changes nothing of what the loop leaves |
| `Signatures.ShownWasSigned` | scripts/whisper_receive_v2.js:98-206 | what is acknowledged and what is shown are one and the same signed messages of the page, in its order, each at most once |
| `Signatures.GenuineIsSigned` | scripts/whisper_receive_v2.js:107-131 | the script's check is that the card's signing key verifies the signature over sender, reader, time and ratchet header as they came |
| `Signatures.SignatureCovers` | scripts/whisper_receive_v2.js:112-117 | the text signed is the same exactly when those four are |
| `Signatures.SentIsSigned` | scripts/whisper_send_v2.js:107-139 | the blob deposited names writer, reader and time, and is signed under the writer's key over the text that is checked |
| `Signatures.SentPassesCheck` | scripts/whisper_send_v2.js:128-139 | so it passes the check wherever the writer's card holds the matching key |
| `Signatures.RoundSpelled` | scripts/whisper_receive_v2.js:135-197 | a signed envelope that decrypts is shown and acknowledged and the session after it saved; one that is refused saves nothing but a session made for it, and moves on the session held |
| `Signatures.NoSessionIsSkipped` | scripts/whisper_receive_v2.js:138-143 | without a session and without a key for one nothing happens |
| `Signatures.OtherFilesStay` | scripts/whisper_receive_v2.js:99-205 | one round leaves the files and sessions of every other name as they are |
| `Scripts.RunSendMessage` | scripts/whisper_send_v2.js:63-142 | the run leaves the files and the blob the function gives: session found or made, saved, encrypted with, saved again |
| `Scripts.ReceiveMessage` | scripts/whisper_receive_v2.js:99-205 | one round of the loop, with every way in which it gives up on a message; the `Signatures` rows say what it decides |
| `Scripts.ReceiveMessages` | scripts/whisper_receive_v2.js:96-206 | the loop over a page: files, ids to acknowledge and plaintexts |
| `EndToEndTheorems.EveryPolledEnvelopeIsRead` | scripts/whisper_receive_v2.js:80-226 | in every reachable state a run of the receive script decrypts every envelope it polls, in order and each to the text that was written into it, has all acknowledged and exactly the rows shown deleted, if and only if the page is empty, the user has a session file, or the oldest envelope has the key for one; otherwise it reads none and changes nothing |
| `EndToEndTheorems.ShownIsPartOfSent` | scripts/whisper_receive_v2.js:98-206 | what a user is shown, each text with its envelope, is an in-order, duplicate-free part of what the other wrote, whatever was lost, refused or expired |
| `EndToEndTheorems.NothingLostNothingMissing` | scripts/whisper_receive_v2.js:80-206 | when as many messages are shown or still live as were written, a run that can show them all shows exactly all of them, in order |
| `EndToEndTheorems.FateOfTheFirst` | scripts/whisper_receive_v2.js:138-143 | when the initiator has a session and the responder none, some run goes on to show the responder something if and only if the envelope with the key is still unexpired on the server |
| `ScriptsCanRun.FirstCanArrive` | scripts/whisper_send_v2.js:63-172 | users, a server and a run after which the first envelope waits for the responder exist |
| `ScriptsCanRun.FirstCanBeLost` | scripts/whisper_send_v2.js:63-172 | so do a run after which envelopes wait for the responder and none of them will ever be read |
| `EndToEndTheorems.WithoutFirstEnvelopeNothingIsRead` | scripts/whisper_receive_v2.js:138-143 | once that envelope is gone, in every run from there nothing is ever shown to either user, the responder gets no session, and no run of the receive script saves or deletes anything |
| `EndToEndTheorems.LaterEnvelopesHaveNoKey` | scripts/whisper_send_v2.js:81-126 | an envelope has the key exactly when its writer had no session file before the run |
| `EndToEnd.SendKeepsSim` | scripts/whisper_send_v2.js:63-172 | a run of the send script is a send of the two-party system, and a deposit that fails is a loss |
| `EndToEnd.Later` | src/main.rs:551 | messages that expire are lost from their channel and nothing else changes, unless it is the first envelope that expires unread |
| `EndToEnd.ReceiveKeepsSim` | scripts/whisper_receive_v2.js:70-226 | a run of the receive script is a delivery of the oldest packets, one by one |
| `EndToEnd.AckedRows` | src/main.rs:632-642 | acknowledging the first n unexpired rows leaves the others, in their order, and other mailboxes alone |
| `LostAcks.LoopReads` | scripts/whisper_receive_v2.js:96-206 | the loop over any page of messages of the other side, new or read before, of any epochs and in any order: exactly those the standing of the session decides are shown and acknowledged, and the file holds the session the last of them left |
| `LostAckTheorems.NothingTwiceAndInOrder` | scripts/whisper_receive_v2.js:80-226 | over any number of runs on whatever pages, deleted or not, what is shown are different messages in the order in which they were sent, all ahead of the session saved at the start |
| `LostAckTheorems.PassedOverIsNeverShown` | scripts/whisper_receive_v2.js:80-226 | after a run nothing is shown any more that was sent before a message it read |
| `LostAckTheorems.WhichAreRead` | scripts/whisper_receive_v2.js:96-206 | of messages of the chain being read, in sending order, message i is read exactly when it is at least i places ahead of the saved session |
| `LostAckTheorems.AllNewAreReadExactlyWhen` | scripts/whisper_receive_v2.js:96-206 | all new ones of them are read if and only if there is none, or the first is at least as many places ahead as messages read before stand in front of it |
| `LostAckTheorems.NothingBehindAnOlder` | scripts/whisper_receive_v2.js:96-206 | from the first message of an older epoch on, nothing on the page is read |
| `LostAckTheorems.NothingHappensExactlyWhen` | scripts/whisper_receive_v2.js:80-226 | on any page, a run changes nothing at all exactly when it reads none of the messages |
| `LostAckTheorems.StuckExactlyWhen` | scripts/whisper_receive_v2.js:80-226 | with messages of the chain being read, in any order, that is exactly when message i is fewer than i places ahead of the saved session, for every i |
| `LostAckTheorems.OneReadBeforeBlocksAll` | scripts/whisper_receive_v2.js:80-226 | of consecutive messages none is read exactly when the first is behind the saved session, as one that was read before is |
| `LostAckTheorems.BlockedRuns` | scripts/whisper_receive_v2.js:80-226 | and run after run shows nothing as long as one that was read before stands at the front of them, whatever is deposited behind it |
| `LostAckRun.ReadAgainShowsNothing` | scripts/whisper_receive_v2.js:209-226 | in every state of the system, when the acknowledgement of a run is lost, the next run over its page changes nothing, if reading the messages again meets no collision |
| `LostAckRun.AcksCanBeLost` | scripts/whisper_receive_v2.js:209-226 | there is a reachable state in which that happens: a message is shown, polled again and not shown again |
| `CanonicalJson.NormalForm` | ens/scripts/_canonical_json.ts:7-19 | two values have one canonical text if and only if they are equal up to the order of object keys at every depth, array indices among the keys included |
| `CanonicalOrder.CanonicalOrder` | ens/scripts/_canonical_json.ts:7-19 | the canonical text is the text of exactly one value: the one that is the same up to the order of members and has, in every object at every depth, array indices first, by their number, as JavaScript enumerates them, and then the other keys in dictionary order |
| `CanonicalOrder.BeforeIsDictionaryOrder` | ens/scripts/_canonical_json.ts:15 | keys are compared at the first place where they differ, and a proper prefix comes first |
| `CanonicalOrder.IndexIs` | ens/scripts/_canonical_json.ts:14-16 | an array index is the decimal text of a number below 2 to the 32nd less one |
| `CanonicalJson.CanonicalIdempotent` | ens/scripts/_canonical_json.ts:7-19 | canonicalising twice changes nothing |
| `Json.TextInjective` | ens/scripts/_canonical_json.ts:8 | different values have different JSON texts |
| `JsonText.TextSpelled` | ens/scripts/_canonical_json.ts:8 | what is written for each kind of value, with commas between items and members and nothing else |
| `JsonText.EscapeSpelled` | ens/scripts/_canonical_json.ts:8 | which characters of a string are escaped, and how |
| `Data.DecimalDigits` | ens/scripts/_canonical_json.ts:8 | a number's text has the digit of every power of ten in its place and no zero in front |
| `Delivery.DeliveryManager.AddProvider` | lib/delivery/delivery-manager.js:18-22 | the providers are held in ascending priority, none lost, those of one priority in the order they were added |
| `Delivery.StableSortIsUnique` | lib/delivery/delivery-manager.js:21 | order and stability leave only one way to sort |
| `Delivery.SortAgain` | lib/delivery/delivery-manager.js:18-22 | adding providers one at a time and sorting each time is sorting all of them once |
| `Delivery.DeliveryManager.Deduplicate` | lib/delivery/delivery-manager.js:165-187 | one message a hash, where the hash first occurred, of least provider priority and the earliest of those |
| `Delivery.DeduplicationIsUnique` | lib/delivery/delivery-manager.js:165-187 | that describes the result completely |
| `Delivery.DeliveryManager.Receive` | lib/delivery/delivery-manager.js:138-160 | the same of what the providers returned, flattened in the order they are held |
| `Delivery.ReceiveKeepsFirst` | lib/delivery/delivery-manager.js:138-202 | with uniquely named providers held in order this is keeping the first of each hash, for whatever they return, exactly when no provider has priority 0 before one below 999 |
| `Delivery.KeepFirstPlaces` | lib/delivery/delivery-manager.js:165-172 | which those are: the messages whose hash has not occurred before, in order |
| `Delivery.PriorityIs` | lib/delivery/delivery-manager.js:199-202 | the priority of the first provider of a name, 999 without one and for 0 |
| `DhtWindow.QueriedKeys` | lib/delivery/dht-provider.js:125-143 | the loop queries exactly as many consecutive hour buckets as the stretch has begun hours, from the bucket of its start, a start of 0 counting as none |
| `DhtWindow.QueriesSpelled` | lib/delivery/dht-provider.js:132-143 | the i-th key is that of i hours after the start, and the hours just cover the stretch |
| `DhtWindow.SinceIs` | lib/delivery/dht-provider.js:130 | the stretch starts where it was asked to, or 48 hours ago if at 0 or nowhere |
| `DhtWindow.KeyTextSpelled` | lib/delivery/dht-provider.js:199-204 | the text of a key: the prefix, the recipient and the first millisecond of the hour |
| `DhtWindow.HoursBetweenIsCeiling` | lib/delivery/dht-provider.js:140 | that number is the stretch in hours, rounded up |
| `DhtWindow.MissedIsRecent` | lib/delivery/dht-provider.js:132-143 | a time of the stretch is missed exactly when it is in the current hour and that hour is not reached |
| `DhtWindow.CoversExactly` | lib/delivery/dht-provider.js:132-143 | every time of the stretch is covered exactly when it ends on the hour or later within the hour than it began |
| `DhtWindow.DefaultMissesCurrentHour` | lib/delivery/dht-provider.js:125-143 | without a start, or with 0, there are 48 queries, and they cover the stretch exactly when the hour has just begun |
| `DhtWindow.KeyTextsDiffer` | lib/delivery/dht-provider.js:199-204 | key texts are equal exactly for one recipient and one hour |

## Left out

- Real cryptography: X25519, AES-CBC, HMAC, SHA-256 and Ed25519 are parameters with the laws stated; secrecy is not a subject.
- Sessions that write between messages handed over out of order; the repository lists reordering as still to come (README.md:222).
- Numbers in JSON are integers; fractions and exponents are not modelled. Strings are compared by character code, so the order of surrogate pairs is not.
- CanonicalJson.NormalForm: objects with a key `__proto__`, which an assignment does not make a member; the same holds for `CanonicalJson.CanonicalIdempotent` and `CanonicalOrder.CanonicalOrder`.
- The indentation of session files: a file is its JSON value, and reading a text back is justified by `Json.TextInjective`.
- The file system: errors while reading or writing, and a session file that is not JSON; a file whose state no session saves counts as unreadable.
- Scripts.ReceiveMessages: the cache holds session values, not shared objects, so aliasing between the cache and the loop's variable is not modelled; `SessionManager` and `Session` have the objects.
- Scripts.ReceiveMessage: envelope parts are decoded strictly and a malformed envelope is given up at once, where the script's decoder is lenient and may fail later.
- SessionManager.SessionManager.LoadSession: a file that is not JSON, for which the code returns null, is not covered, because a file is its JSON value.
- MailboxServer.MailboxServer.CreateMailbox: the limits echoed in the response are left out, and the random id and token are parameters.
- LostAckTheorems.NothingTwiceAndInOrder: the user who reads does not write between the runs, and has a session file when the first of them starts.
- Session.DoubleRatchetSession.constructor: the exception for a sender without a remote key is on `Ratchet.NewSession`, as a constructor cannot fail.
- Session state in files whose sending chain has no current public key; no session ever saves one.
- A responder that encrypts before its first successful decryption, and both users starting a session at once.
- HTTP, routing, header parsing beyond the bearer token (split at blanks and tabs), the message id and the expiry, and the limits echoed by mailbox creation.
- SQLite itself: the tables are maps and a sequence, a statement is one step, connection errors are not modelled, and `created_at` columns are dropped. Mailboxes are never deleted, so cascades do not arise.
- 64-bit overflow in TTL and byte sums, and the panic of `clamp` when POLL_LIMIT_MAX is below 1 (`Sane` excludes it).
- The base64 of `blob_b64` on the wire; a page carries the bytes.
- Revoke's count as a number of newly revoked tokens: SQLite counts matched rows, and so does the model.
- The injectivity of messageHash: fields are joined without separators, so deduplication is stated relative to the hash.
- Providers without a numeric priority, and messages without a content part other than as empty text.
- Sending through several providers, health checks, libp2p, ENS lookups, onboarding and key generation scripts, contact cards, delegation and the scripts of versions 1 and 3: plumbing. The version 3 receive script acknowledges what it could not decrypt as well.

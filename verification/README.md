# Release tooling of the chat client, verified

The repository's release tools carry several real protocols and codecs. This project
models them in Dafny and proves what they are for. Each module follows one source file:

| module | what it models |
|---|---|
| `Schemas`, `SchemaOrder`, `SchemaEdits`, `SchemaMeaning`, `SchemaStripping`, `SchemaSoundness`, `StableService`, `SchemaLimits` | the schema compatibility checker |
| `Validator`, `ValidatorLaws` | the independent JSON Schema validator it is measured against, and what that makes of unions, objects, types and enumerations |
| `Base64Url`, `ArchiveCodec`, `ArchiveFormat`, `Delivery`, `DeliveryFormat` | the encrypted archive format, the sealed response and the receiver |
| `Authenticity`, `Transcript` | what binds a frame and a response to its place, archive, request and purpose |
| `Coordinator`, `EndToEnd` | the sender that may crash anywhere, and the whole exchange |
| `ToyWorld` | a concrete world in which everything assumed of the primitives holds at once |
| `Notarization` | at most one Apple submission over interrupted and resumed runs |
| `Rollout` | the guarded website rollout against other writers |
| `Publication` | resumable publication to two stores |
| `LittleEndian`, `Layout`, `MachO`, `MachOWriter`, `ElfAlignment`, `ElfWriter` | the two binary readers, and a writer for each, of any load commands and any program headers, for the round trips |
| `Bridge` | the threaded command bridge |
| `Sorting`, `PixelLines`, `PixelGeometry` | grouping of recognised words into lines |
| `Manifest` | the locked candidate manifest |

`dafny verify dfyconfig.toml` checks everything.

## How to read it

Objects and files that the tools update in place are classes; the methods follow the
tools' steps, and every point where a process may be killed, a reply may be lost or a
tool may fail is a nondeterministic choice. A flag (`uncut`, `calm`, `Calm`) turns these
choices off, and the contracts then say exactly when an operation succeeds. A run is a
loop over arbitrary steps, so that what a run method ensures holds of every reachable
state. Exceptions are `None`, `false` or a refusing outcome; their texts are not modelled.

Cryptography is known by laws only (`ArchiveCodec.Lawful`, `Delivery.LawfulWorld`):
AES-GCM (RFC 5116 sections 2.1, 2.2 and 5.2) adds 16 octets, decrypts what it encrypted,
and opens nothing else for the same key, nonce and associated data; X25519 agrees on both
sides (RFC 7748 section 6.1); key derivation is a function; canonical JSON is injective.

What cannot be a law of functions is a hypothesis on the values in play, stated in the
theorems that need it. `Authenticity.Unforged` is what authenticated encryption gives for
one archive: as long as no nonce serves twice under its key, whatever opens in the bytes at
hand, under the nonce of one of its 3072 places and for the context of that place, was
sealed so, by anybody. `Transcript.UnforgedResponse` says it of a response: its one
ciphertext, under its one nonce and for the context of its request. Nothing is asked of
other nonces and contexts. That nonces do not repeat is not assumed of frames but proved
from the counter (`Authenticity.CountersRespectNonces`), and for a delivery it follows from
the run of the coordinator, which notes what it seals (`Coordinator.Accounted`); assumed is
only that its keys are fresh. `Transcript.KeyApart` says that derivation gives the values in
play different keys, `EndToEnd.CollisionFree` that no recovered file has the digest of an
original it is not, and `Notarization.Injective` that the images of which a run took the
digest have different ones. `ToyWorld.DeliveryAssumptionsAreConsistent` shows that for any
set of sealed messages and any few originals the laws and these hypotheses hold together,
for all byte strings that lack some octet.

## Where the code does not do what it says

- The checker of schemas strips `title`, `description` and `$schema` at every level, also
  where they are names of properties, as they are in the retained baseline contract, or
  parts of constants. What it cannot see is exactly `SchemaStripping.HiddenKept`
  (`SchemaStripping.CleanVerdict`); with that, and three more conditions on the two
  documents, acceptance protects every retained client
  (`StableService.AcceptedOutputStillDecodes`). One of them is the form of the original: it
  may use `properties`, `additionalProperties`, `items`, `allOf`, `anyOf`, disjoint `oneOf`,
  references that resolve, and keywords that depend on their argument and the instance alone
  (`Validator.StandsAlone`, a closed list). None of the four conditions can be dropped:
  `SchemaLimits` has accepted changes that break a client and violate one condition each
  (`SchemaLimits.ConditionsAreAll`), also for `unevaluatedProperties`, which the validator
  reads with its neighbours, and for `not`.
- Accepted changes do not compose: `additionalProperties: false` may become 0, which Python
  calls equal, and then a property may be added. That is the only way
  (`SchemaOrder.CompositionExactly`).
- `activate` claims that its recovery never overwrites a concurrent deployment. It takes
  back an identical template that somebody else rolled out (`Rollout.OvertakenByTwin`), and
  nothing else (`Rollout.Cluster.Recover`).
- The sender does not bound the sealed response, while the receiver reads 262144 octets;
  and two roles with one archive collide in the receiver's directory. Both are exactly
  the conditions of `EndToEnd.RecipientGetsThrough`.
- `encrypt_archive` compares two looks at the size of its source with each other and not
  with what it read. Where they agree and differ from that, it succeeds with a description
  that the recipient refuses, and only then (`ArchiveCodec.SealedSizeExactly`).
- A `cleanup` after the marker followed by another `ready` publishes the response again
  without its archives (`Coordinator.Sender.Republish`); the recipient then gets through
  exactly if it requested none (`EndToEnd.RecipientGetsThrough`). The caller in
  scripts/release_acceptance.py prevents this.
- A notarization run that is killed after it created its log directory and before its
  first save blocks every later run, as does one killed while it writes the report, or
  between stapling and saving the new digest: once the ticket has changed the image, a
  later run can start exactly if the report has the new digest
  (`Notarization.Directory.CompleteTicket`, `Notarization.Tickets`). At most one submission
  holds nevertheless.
- A notarization run that reports `pending` is not always one that can be resumed. When
  `notarytool` does not answer a poll, the handler at
  scripts/macos-notarize-retained.py:605-610 sets `pending`, while `cleanup_complete` is still
  what line 587 made it, and `validate_resume` refuses the artifact from then on. A run that
  ends with an undecided or accepted request can be resumed exactly if it never entered the
  signing context or left it again (`Notarization.Directory.Workflow`, `left`), which it does
  once the submission, the polls and the log have been answered.

## Model

| member | source | states |
|---|---|---|
| `SchemaOrder.PyEqIsEquality` | scripts/check_contracts.py:39-40 | equality as the checker tests it is JSON equality exactly when the documents do not differ in a truth value against 1 or 0 |
| `SchemaOrder.MutualCompatibility` | scripts/check_contracts.py:19-40 | two schemas are compatible both ways exactly when they are equal to the checker and have tables where it expects them: reflexivity and antisymmetry |
| `SchemaOrder.Transitive` | scripts/check_contracts.py:19-40 | compatibility composes over three releases as long as the first change leaves closed objects closed |
| `SchemaOrder.AlignedStaysClosed` | scripts/check_contracts.py:27-30 | an accepted change that exchanges no truth value for a number leaves closed objects closed |
| `SchemaOrder.CompositionExactly` | scripts/check_contracts.py:19-40 | an accepted change composes with every later accepted one exactly when it leaves closed objects closed, or when no later one is possible at all |
| `SchemaOrder.CompositionNeedsAlignment` | scripts/check_contracts.py:19-40 | composition fails otherwise: three documents of which each is accepted after the one before, but not the last after the first |
| `SchemaOrder.NormaliseIdempotent` | scripts/check_contracts.py:11-16 | stripping annotations twice is stripping them once |
| `SchemaEdits.StrippedExactly` | scripts/check_contracts.py:11-16 | exactly the keys `title`, `description` and `$schema` are stripped, at every level |
| `SchemaEdits.AddedPropertyExactly` | scripts/check_contracts.py:23-30 | a new property is accepted exactly where `additionalProperties` is not `false` and `required` does not list it |
| `SchemaEdits.AddedDefinition` | scripts/check_contracts.py:31-38 | a new definition is always accepted |
| `SchemaEdits.InnerEditExactly` | scripts/check_contracts.py:35-36 | an edit of the argument of any other keyword is accepted exactly when it would be by itself |
| `SchemaEdits.EntryEditExactly` | scripts/check_contracts.py:23-34 | so is an edit of the schema of one property or definition |
| `SchemaEdits.KeywordsStay` | scripts/check_contracts.py:21-22 | no keyword is dropped, and none but `$defs` is added |
| `SchemaEdits.DroppedEntry` | scripts/check_contracts.py:24-33 | a dropped property or definition is refused |
| `SchemaMeaning.CleanMeaning` | scripts/check_contracts.py:11-16 | annotations of schemas mean nothing: without them every document validates the same instances, at every depth of references |
| `SchemaStripping.HiddenExactly` | scripts/check_contracts.py:11-40 | the verdict on two documents is the verdict on the stripped ones together with what stripping hides, in both directions |
| `SchemaStripping.CleanVerdict` | scripts/check_contracts.py:11-40 | the same for documents read without their annotations: exactly what the checker cannot see |
| `SchemaStripping.StripsAnnotationsOnly` | scripts/check_contracts.py:11-16 | stripping removes annotations only exactly when no property, definition or constant bears a stripped name |
| `SchemaStripping.MeaningKept` | scripts/check_contracts.py:11-16 | in that case a document means the same before and after stripping |
| `SchemaSoundness.Narrows` | scripts/check_contracts.py:19-40 | every instance valid under the new schema is valid under the old one, through properties, items, unions and recursive references, by induction over reference depth and structure |
| `SchemaSoundness.ApartExcludes` | scripts/check_contracts.py:19-40 | two variants pinned to different constants never accept the same instance, which is what keeps `oneOf` monotone |
| `StableService.VerifyService` | scripts/check_contracts.py:43-57 | acceptance means that no method is missing, and the result counts the added ones |
| `StableService.TableSize` | scripts/check_contracts.py:46-48 | the dictionary is as long as the method list exactly when no identifier is repeated |
| `StableService.AcceptedExactly` | scripts/check_contracts.py:43-57 | a release is accepted exactly when name and version are the same, no method is repeated, and for every method the baseline lists last under its identifier there is one with equal kind, arguments and errors and a compatible output, all without annotations |
| `StableService.ChainKeepsIdentity` | scripts/check_contracts.py:44-45 | a chain of accepted releases never changes the name or the version |
| `StableService.AcceptedOutputStillDecodes` | scripts/check_contracts.py:19-40 | soundness of the check: what the changed service emits decodes in the retained client, under four conditions on the two documents, which may have properties with stripped names |
| `StableService.UnchangedIsInFragment` | scripts/check_contracts.py:19-40 | for a schema that does not change these conditions ask for nothing but that it is of the covered form |
| `StableService.AnyDepthDecides` | scripts/check_contracts.py:19-40 | within the fragment, validity at one reference depth is validity from that depth on |
| `StableService.ChainKeepsMethods` | scripts/check_contracts.py:43-57 | after any chain of accepted releases every original method is still offered with equal kind, arguments and errors |
| `StableService.ChainStaysCompatible` | scripts/check_contracts.py:19-57 | the newest output schema of a chain is compatible with the first, as long as no closed object becomes open |
| `StableService.ChainKeepsOldClients` | scripts/check_contracts.py:19-57 | a value that the newest release of a chain emits decodes in a client of the first |
| `SchemaLimits.StrippedPropertyIsUnchecked` | scripts/check_contracts.py:11-16 | an accepted change that breaks a client and violates one condition only: a property named `title` changes its type |
| `SchemaLimits.StrippedAdditionIsUnchecked` | scripts/check_contracts.py:11-16 | the same for the other half of that condition: a property named `title` is added to a closed object |
| `SchemaLimits.StrippedConstantIsUnchecked` | scripts/check_contracts.py:11-16 | and for a constant that contains such a name |
| `SchemaLimits.AddedPropertyEscapesItsSchema` | scripts/check_contracts.py:27-30 | an accepted change that breaks a client and violates one condition only: `additionalProperties` is a schema |
| `SchemaLimits.TruthValueMayBecomeNumber` | scripts/check_contracts.py:39-40 | an accepted change that breaks a client and violates one condition only: True becomes 1 |
| `SchemaLimits.ObjectConstantMayGrow` | scripts/check_contracts.py:19-40 | an accepted change that breaks a client and violates one condition only: `$defs` is added to a constant that is an object |
| `SchemaLimits.NegationIsNotCovered` | scripts/check_contracts.py:19-40 | an accepted change that breaks a client and violates one condition only: narrowing under `not` |
| `SchemaLimits.OverlappingVariantsAreNotCovered` | scripts/check_contracts.py:19-40 | an accepted change that breaks a client and violates one condition only: variants overlap |
| `SchemaLimits.DanglingReferenceIsNotCovered` | scripts/check_contracts.py:19-40 | an accepted change that breaks a client and violates one condition only: a reference that does not resolve, until `$defs` is added |
| `SchemaLimits.UnevaluatedIsNotCovered` | scripts/check_contracts.py:27-30 | an accepted change that breaks a client and violates one condition only: a property is added where `unevaluatedProperties` closes the object, which the checker does not look at |
| `Base64Url.EncodeIsUnpadded` | scripts/acceptance_delivery.py:48-49 | the encoding is the padded one without its padding, of the length RFC 4648 gives |
| `Base64Url.EncodedSymbol` | scripts/acceptance_delivery.py:48-49 | symbol `i` of an encoding is the character that RFC 4648 table 2 has for the six bits from bit 6`i` of the bytes on |
| `Base64Url.CanonicalExact` | scripts/acceptance_delivery.py:55-57 | the lenient reader followed by the comparison accepts exactly the one spelling of each byte string |
| `Base64Url.DecodeExact` | scripts/acceptance_delivery.py:52-58 | `decode` succeeds with `b` exactly when the text has at most 128 characters, is the encoding of `b`, and `b` has the demanded size |
| `Base64Url.EncodeInjective` | scripts/acceptance_delivery.py:48-49 | different byte strings have different encodings |
| `Base64Url.RoundTrip` | scripts/acceptance_delivery.py:48-58 | what was encoded is decoded |
| `ArchiveCodec.LawsAreConsistent` | scripts/acceptance_delivery.py:85-90 | the laws assumed of AES-GCM and of digests can be met |
| `ArchiveCodec.CountIsCeiling` | scripts/acceptance_delivery.py:41 | the number of frames is the quotient by the chunk size, rounded up |
| `ArchiveCodec.CounterFits` | scripts/acceptance_delivery.py:82-90 | an archive has at most 3072 frames, so that the counter fits four octets |
| `ArchiveCodec.NoncesAreDistinct` | scripts/acceptance_delivery.py:82-90 | two frames, of one archive or of two, have the same nonce exactly when the archives have the same nonce and the counters agree |
| `ArchiveCodec.FramesSize` | scripts/acceptance_delivery.py:41 | the ciphertext is 16 octets per frame longer than the archive |
| `ArchiveCodec.UnframeFrames` | scripts/acceptance_delivery.py:109-121 | decrypting the frames of an archive yields the archive |
| `ArchiveCodec.FramesUnframe` | scripts/acceptance_delivery.py:109-121 | a stream that decrypts is the frame sequence of what it decrypts to |
| `ArchiveCodec.UnframeExact` | scripts/acceptance_delivery.py:109-121 | by the laws of the cipher alone: the loop accepts exactly the complete, in-order frame sequence of one plaintext of the expected length |
| `ArchiveCodec.EncryptionIsSound` | scripts/acceptance_delivery.py:77-97 | what encryption produces passes `archive_bound`, matches its own description and is the encryption of the source in the session both sides derive |
| `ArchiveCodec.WriteFrames` | scripts/acceptance_delivery.py:84-91 | the encryption loop writes the frame sequence and digests the whole source |
| `ArchiveCodec.EncryptArchive` | scripts/acceptance_delivery.py:77-97 | exactly when it succeeds, also for a source that changes while it is read, the description and the file it leaves; a failure leaves every file as it was |
| `ArchiveCodec.SealedSizeExactly` | scripts/acceptance_delivery.py:79-97 | of what it succeeds with, the recipient accepts the description exactly when as much was read as both looks at the size had found, and then it is sealed as a source that never changed |
| `ArchiveCodec.ReadFrames` | scripts/acceptance_delivery.py:109-121 | the decryption loop computes what its specification makes of the stream and writes nothing but the destination |
| `ArchiveCodec.DecryptFrames` | scripts/acceptance_delivery.py:108-124 | the guarded block: on failure every file is as before |
| `ArchiveCodec.DecryptArchive` | scripts/acceptance_delivery.py:100-124 | succeeds exactly when the description is valid, matches the file and the file is a complete encryption; then the destination holds its plaintext; otherwise nothing changed |
| `ArchiveCodec.AcceptanceIsEncryption` | scripts/acceptance_delivery.py:109-121 | the loop and the final digest accept exactly the streams that encrypt something the session describes, and that plaintext is unique |
| `ArchiveCodec.OnlyTheOriginalStream` | scripts/acceptance_delivery.py:100-124 | by the digest alone: unless a stream unframes to something else with the digest of the original, it is accepted exactly when it is the original's own encryption |
| `ArchiveCodec.DecryptionReturnsTheSource` | scripts/acceptance_delivery.py:77-124 | decrypting what encryption produced returns the source and nothing else, with no assumption about digests |
| `ArchiveCodec.FramesAreInjective` | scripts/acceptance_delivery.py:84-91 | different sources have different streams |
| `ArchiveFormat.FrameIs` | scripts/acceptance_delivery.py:84-90 | frame `k` stands at octet 4194320`k` and is the encryption of the `k`-th 4 MiB with the nonce of the archive and `k` in four octets, highest first, for the identity of the archive and `k` |
| `ArchiveFormat.StreamLength` | scripts/acceptance_delivery.py:41 | the stream has 16 octets more for each begun 4 MiB |
| `ArchiveFormat.DescriptionExactly` | scripts/acceptance_delivery.py:77-97 | when an archive is produced, and every field of its description |
| `ArchiveFormat.AcceptedExactly` | scripts/acceptance_delivery.py:100-124 | the recipient's checks and the decryption let through exactly the descriptions and streams that `encrypt_archive` produces for some archive |
| `Authenticity.CountersRespectNonces` | scripts/acceptance_delivery.py:82-90 | fresh archive nonces and the counter together keep every nonce under a key to a single use of the cipher |
| `Authenticity.FramesWereSealed` | scripts/acceptance_delivery.py:112-119 | every frame the loop opens had been sealed under this very nonce and for this very index and archive |
| `Authenticity.OnlyWhatWasSealed` | scripts/acceptance_delivery.py:100-121 | whatever the loop accepts is the beginning of an archive that was sealed under this key and nonce for this request, purpose, size and digest, among any number of archives sealed under the key |
| `Authenticity.ExactAcceptance` | scripts/acceptance_delivery.py:100-124 | exact acceptance against arbitrary bytes, with nothing assumed of digests: the loop accepts the complete frames of the original in their order and nothing else |
| `Authenticity.Truncated` | scripts/acceptance_delivery.py:109-121 | an archive cut short anywhere is refused |
| `Authenticity.Extended` | scripts/acceptance_delivery.py:109-121 | one with anything inserted anywhere is refused |
| `Authenticity.Repeated` | scripts/acceptance_delivery.py:109-121 | one with a frame repeated anywhere is refused |
| `Authenticity.Spliced` | scripts/acceptance_delivery.py:109-121 | one in which a frame was replaced by other bytes is refused, also by a frame of another archive or place |
| `Authenticity.Reordered` | scripts/acceptance_delivery.py:109-121 | one with two frames exchanged is refused |
| `Authenticity.AssumptionsAreConsistent` | scripts/acceptance_delivery.py:85-90 | for any log of sealed messages and any few originals there is a lawful cipher and digest with no forgery and no collision |
| `Delivery.KeyAgreement` | scripts/acceptance_delivery.py:61-70 | both sides derive the same key, which exists exactly for well-formed requests |
| `Delivery.UnsealOpensSealed` | scripts/acceptance_delivery.py:127-143 | a sealed response opens with the recipient's key exactly when its text is at most 262144 characters long |
| `Delivery.UnsealIsAuthentic` | scripts/acceptance_delivery.py:135-143 | by the laws of the cipher alone: whatever opens is the one canonical spelling of an encryption under the agreed key for this request |
| `DeliveryFormat.KeyExactly` | scripts/acceptance_delivery.py:61-66 | a key is derived exactly for well-formed requests and public keys, from the shared secret, the request and the protocol with the purpose |
| `DeliveryFormat.UnsealExactly` | scripts/acceptance_delivery.py:135-143 | a response opens to a payload exactly when it is, field by field, an encryption of it for the request |
| `Transcript.UnsealedWasSent` | scripts/acceptance_delivery.py:127-143 | a response opens exactly when it is the one spelling of something that was sealed under the agreed secret, for this very request and as a response |
| `Transcript.OtherRequestsAreRefused` | scripts/acceptance_delivery.py:135-143 | where nothing was sealed as a response for this request under this secret nothing opens: no response for another request, no frame of an archive |
| `Transcript.ContextBindsResponse` | scripts/acceptance_delivery.py:73-74 | the associated data alone binds a response to request and purpose, even if keys were shared |
| `Transcript.ArchiveWasSent` | scripts/acceptance_delivery.py:100-124 | whatever decrypts as the archive of a role was sealed for this request and role under the agreed secret |
| `Transcript.ArchiveExactly` | scripts/acceptance_delivery.py:100-124 | of an archive that was sealed, exactly its own complete frames decrypt in its role |
| `Delivery.ReceiveRole` | scripts/acceptance_delivery.py:224-241 | one turn of the archive loop succeeds exactly when the role is acceptable and its archive is not yet there, and then adds exactly that archive |
| `Delivery.ReceiveNext` | scripts/acceptance_delivery.py:223-241 | a turn either keeps the loop's invariant or shows that the delivery cannot be received |
| `Delivery.ReceiveArchives` | scripts/acceptance_delivery.py:222-241 | the loop succeeds exactly when every requested role is acceptable and no two share an archive; then the receiver holds exactly the decrypted archives |
| `Delivery.Receive` | scripts/acceptance_delivery.py:197-241 | `receive` up to the end of its loop succeeds exactly for acceptable responses, and then recovers exactly the requested roles |
| `DeliveryFormat.AcceptableExactly` | scripts/acceptance_delivery.py:197-241 | a receiver gets through exactly with a response of at most 262144 octets that opens to what was ordered, has not expired, and with an archive for each role that `encrypt_archive` produced with the ordered digest under the name of the role, no two roles with one archive |
| `ToyWorld.DeliveryLawsAreConsistent` | scripts/acceptance_delivery.py:61-70 | the laws assumed of X25519, HKDF, the archive suite and canonical JSON can be met together |
| `ToyWorld.DeliveryAssumptionsAreConsistent` | scripts/acceptance_delivery.py:61-143 | the laws can be met together with unforgeability, separate keys and collision-free originals, whatever was sealed |
| `Coordinator.Sender.Republish` | scripts/release_acceptance_delivery.py:102-116 | with a marker, the response becomes visible as journaled and nothing else changes; after a cleanup it becomes visible without archives |
| `Coordinator.Sender.Retrieve` | scripts/release_acceptance_delivery.py:117-148 | an announcement is taken exactly when it is unambiguous, identified, described, expected, at most 300 seconds old and not from the future, and has a usable key |
| `Coordinator.Sender.Clear` | scripts/release_acceptance_delivery.py:156-160 | the unfinished publication is removed, possibly in part |
| `Coordinator.Sender.WriteSealed` | scripts/release_acceptance_delivery.py:162-167 | one sealed file: what is left is nothing, a part, or the encryption of the retained archive that its description describes |
| `Coordinator.Sender.SealAll` | scripts/release_acceptance_delivery.py:161-167 | the loop ends well exactly when every retained archive is still the frozen one, with every role sealed for the recipient |
| `Coordinator.Sender.Commit` | scripts/release_acceptance_delivery.py:174-185 | the journal is written before the marker, and every cut in between keeps the invariant |
| `Coordinator.Sender.Announce` | scripts/release_acceptance_delivery.py:185-187 | marker and response, behind the journal, keep the invariant at every cut |
| `Coordinator.Sender.Ready` | scripts/release_acceptance_delivery.py:94-187 | any call, cut off anywhere, keeps the invariant; a marker freezes marker, journal, archives, grants and what has been sealed; a call seals only under its own secret; a grant is asked for at most once per call, and only for a verified runner in progress with every archive sealed; an uncut call delivers exactly when all conditions hold, with the clock and the sizes written out, and a grant is asked for only within 300 seconds of the announcement; the marker names this call's run, artifact and grant |
| `Coordinator.Sender.Cleanup` | scripts/release_acceptance_delivery.py:190-196 | cleanup, cut off anywhere, removes what is published and nothing else |
| `Coordinator.EncryptionSeals` | scripts/release_acceptance_delivery.py:162-166 | what is encrypted for a role under the agreed key is what its recipient can decrypt |
| `EndToEnd.Run` | scripts/release_acceptance_delivery.py:94-196 | in every run the grants asked for are exactly the one behind the marker and those of calls that were cut off or not granted anything after they had asked; with a marker none are asked for |
| `EndToEnd.SealedIsAccepted` | scripts/acceptance_delivery.py:223-241 | an archive sealed for a recipient passes all its checks and decrypts to the bytes it was made from and no others |
| `EndToEnd.RecipientGetsThrough` | scripts/acceptance_delivery.py:197-241 | the announced recipient accepts a delivery exactly when the response is short enough, the grant has not expired, no two roles share an archive and every requested archive is still served |
| `EndToEnd.RecoveredAreOriginals` | scripts/acceptance_delivery.py:197-241 | whatever is served, a receiver that gets through holds the originals unless digests collide |
| `EndToEnd.RecoveredAreSealed` | scripts/acceptance_delivery.py:197-241 | from the archives of a delivery its recipient recovers exactly the sealed bytes, with no assumption about digests |
| `EndToEnd.TamperedSiteIsHarmless` | scripts/acceptance_delivery.py:197-241 | whatever is served in place of the archives, the recipient recovers the sealed bytes or nothing, with no assumption about digests |
| `Coordinator.EverythingAccounted` | scripts/release_acceptance_delivery.py:161-187 | when a response is made, all its parts have been sealed and nothing else under its secret, each part once, unless a secret is used again |
| `EndToEnd.AnyResponseIsOriginal` | scripts/acceptance_delivery.py:127-143 | whatever response is served under the sender's key, if it opens it says what the delivery says |
| `EndToEnd.ExchangeAnything` | scripts/acceptance_delivery.py:197-241 | end to end with a site that serves anything at all, after any crash schedule of the coordinator: a receiver that gets through holds the sealed bytes, with no assumption about digests, and these are the originals if the retained archives were |
| `EndToEnd.FetchAll` | scripts/acceptance_delivery.py:223-236 | three fetches interleaved with any coordinator activity see archives of the delivery only, and all of them unless there was a cleanup |
| `EndToEnd.Exchange` | scripts/acceptance_delivery.py:197-241 | end to end, for every interleaving of crashing calls, cleanup and fetches: what is recovered is byte-identical to the originals, and the announced recipient does get through exactly when nothing it requested is missing |
| `Notarization.TicketedAgain` | scripts/macos-notarize-retained.py:433-435 | a staple on top of staples is still the submitted image with tickets only |
| `Notarization.Directory.Save` | scripts/macos-notarize-retained.py:42-43 | a killed write leaves the old report, a torn one or the new one |
| `Notarization.Directory.SubmitOnce` | scripts/macos-notarize-retained.py:359-370 | nothing is uploaded once the report has a request, and no upload happens before the report on disk has one |
| `Notarization.Directory.PollOnce` | scripts/macos-notarize-retained.py:379-398 | a poll changes only the status, and ends well only with an accepted log for the retained request and digest |
| `Notarization.Directory.AwaitNotary` | scripts/macos-notarize-retained.py:373-402 | waiting keeps identity and digest of the request, and succeeds only with such a log |
| `Notarization.Directory.Staple` | scripts/macos-notarize-retained.py:433-435 | a staple succeeds only with the new digest recorded |
| `Notarization.Directory.CompleteTicket` | scripts/macos-notarize-retained.py:415-442 | at most one upload, none after a recorded one; a pass means an accepted log and only tickets added; a run that cannot start changes nothing; an undisturbed one that can start passes; once the image has changed, a later run can start exactly if the report has the new digest |
| `Notarization.Directory.Workflow` | scripts/macos-notarize-retained.py:538-614 | a resumed run never uploads; exactly which reports may be resumed, and by whom, also after the ticket changed the image; a run that leaves an undecided or accepted request can be resumed exactly if it never entered the signing context or left it again; a changed image is not touched; a pass means an accepted log and only tickets added; an undisturbed runnable run passes |
| `Notarization.Tickets` | scripts/macos-notarize-retained.py:415-442 | over any sequence of runs cut off anywhere and edits of the image: at most one upload, a pass binds an accepting log to the digest of what was uploaded, and a run that cannot start never changes anything again without an edit |
| `Notarization.Chain` | scripts/macos-notarize-retained.py:526-614 | over one initial run, any number of resumed ones and changes of the image between them: at most one upload, and a pass binds Apple's log to the bytes of the initial image |
| `Rollout.Contents` | scripts/deploy-website.py:71-74 | the positions found are exactly those of volumes named `content` |
| `Rollout.ContentVolumeIsUnique` | scripts/deploy-website.py:71-79 | the content volume is the one volume of that name |
| `Rollout.ContentVolumeExactly` | scripts/deploy-website.py:71-79 | there is one exactly when one volume is called `content`, it is a ConfigMap, and one mount has that name, which is the whole read-only document root of Nginx |
| `Rollout.PatchIsGuarded` | scripts/deploy-website.py:87-95 | the patch takes effect exactly on the object with the uid, generation and volume that were read, and replaces only that volume |
| `Rollout.SwapBack` | scripts/deploy-website.py:165-182 | putting the old volume back in place of the new one yields the old template |
| `Rollout.IdenticalRolloutIsReverted` | scripts/deploy-website.py:168-179 | the patch of the recovery applies to any deployment of the object with the identical template, whoever rolled it out |
| `Rollout.OvertakenByTwin` | scripts/deploy-website.py:165-182 | another writer rolls out the identical template just before the activation: the activation takes it back, which the comment in the code excludes |
| `Rollout.Cluster.Patch` | scripts/deploy-website.py:115-118 | a write of ours replaces the content volume of the very object, generation and specification that were read |
| `Rollout.Cluster.WaitReady` | scripts/deploy-website.py:130-142 | waiting succeeds only with the expected object and template observed fully ready |
| `Rollout.Cluster.Recover` | scripts/deploy-website.py:176-182 | the recovery writes at most once, only over exactly the template being activated, and when undisturbed always over that; it reports restoration only with the previous template observed ready |
| `Rollout.Cluster.Activate` | scripts/deploy-website.py:165-182 | under any interleaving with other writers at most one guarded write forward and one back; what each outcome means, down to the counts of replicas and every volume of the template; without other writers the template is the new one on success and the previous one on a clean failure |
| `Publication.AcceptedAssets` | scripts/platform_release.py:257-265 | a release is accepted exactly when its assets are some of the expected ones and, if published, all; nothing is missing exactly when it holds the bundle |
| `Publication.Store.Fill` | scripts/publish-platform-release.py:92-94 | uploads add only missing names, replace nothing, and end well only with the whole bundle |
| `Publication.Store.Complete` | scripts/publish-platform-release.py:85-95 | a store is published only with exactly the bundle; one that cannot be completed is left alone |
| `Publication.Publish` | scripts/publish-platform-release.py:85-111 | a run that stops anywhere keeps both stores closed and the public one behind the private one; an undisturbed run over resumable stores succeeds |
| `Publication.Runs` | scripts/publish-platform-release.py:85-113 | any number of interrupted runs: nothing stored is replaced, what is published is exactly the bundle, and the public release exists only after the private one is complete |
| `MachO.ChainsAgree` | scripts/ios-build.py:354-375 | there is only one way to divide the commands |
| `MachO.Verdict` | scripts/ios-build.py:354-380 | once all commands are read, acceptance is exactly that both sections were found, and they are determined |
| `MachO.ReadSection` | scripts/ios-build.py:363-374 | one section header: a refusal refutes the file |
| `MachO.ReadSections` | scripts/ios-build.py:358-374 | the inner loop collects exactly the wanted sections of a command or refutes the file |
| `MachO.ReadCommands` | scripts/ios-build.py:354-376 | the outer loop and its final check: a refusal refutes the file, otherwise exactly what an acceptable file holds has been read |
| `MachO.LinkedEntitlements` | scripts/ios-build.py:346-383 | accepts exactly the files whose commands tile the announced bytes and hold one sound section of each name, and returns their contents |
| `MachO.AcceptableMeans` | scripts/ios-build.py:346-380 | what acceptance says of the octets: sizes, header, every command, names, segments and offsets of both sections |
| `MachOWriter.WrittenExactly` | scripts/ios-build.py:346-380 | of the files with any list of load commands, segments and sections in any order, the reader accepts exactly those with one sound section of each name |
| `MachOWriter.WrittenIsAcceptable` | scripts/ios-build.py:346-380 | it finds these two sections wherever they are, and their contents |
| `MachOWriter.ContentsInTail` | scripts/ios-build.py:370-374 | contents written behind the commands are what a section that points there holds |
| `MachOWriter.ReadBack` | scripts/ios-build.py:346-383 | reading back a written file asks about the property list in the section called `__entitlements` and returns its contents before those of `__ents_der`, exactly when the file has one of each, in the text segment |
| `LittleEndian.NumberOfBytes` | scripts/ios-build.py:350 | a number that was written little-endian is read back |
| `ElfAlignment.BitTrick` | scripts/android-build.py:141 | clearing the lowest set bit leaves zero exactly for powers of two |
| `ElfAlignment.WholePages` | scripts/android-build.py:141 | a power of two of at least 16 KiB is a whole number of 16 KiB pages |
| `ElfAlignment.HeadersAreInside` | scripts/android-build.py:132-141 | every field of every program header that is read lies within the file |
| `ElfAlignment.PagesDivide` | scripts/android-build.py:141 | 16 KiB divides the alignment of every load segment of an accepted library |
| `ElfAlignment.VerifyAlignment` | scripts/android-build.py:132-145 | accepts exactly the libraries with a load segment whose load segments all have an alignment that is a power of two of at least 16 KiB, and lists those alignments in order |
| `ElfWriter.ReadBack` | scripts/android-build.py:132-145 | reading back a written library with any program headers accepts exactly those with a load segment whose load segments are all aligned to a power of two of at least 16384, and returns these alignments in order |
| `Bridge.Bridge.Call` | scripts/mobile_ios_ui.py:138-142 | a call enqueues one command under a fresh identifier |
| `Bridge.Bridge.Next` | scripts/mobile_ios_ui.py:99-105 | a poll takes the oldest command not yet taken, or nothing |
| `Bridge.Bridge.Post` | scripts/mobile_ios_ui.py:106-121 | a result is accepted exactly when it is the first one for a known call |
| `Bridge.Bridge.Wake` | scripts/mobile_ios_ui.py:143-154 | a caller gets the value accepted for its own identifier exactly if that result passed, an error if not, also after the deadline, or gives up for good |
| `Bridge.Run` | scripts/mobile_ios_ui.py:76-154 | in every interleaving each command is taken at most once in the order of the calls, each call is answered at most once with its own first result, and an expired one never |
| `Bridge.ConsistentAnswer` | scripts/mobile_ios_ui.py:143-149 | answering a call moves it out of the table exactly once |
| `PixelLines.Smallest` | scripts/mobile_android_ui.py:128-130 | the candidate taken is the nearest line that overlaps, the first of equally near ones |
| `PixelLines.GroupedKeeps` | scripts/mobile_android_ui.py:117-132 | grouping loses, invents and shares no word, and every line has grown by overlap |
| `PixelGeometry.CountsExactly` | scripts/mobile_android_ui.py:104-115 | a word counts exactly when all its pixels lie inside the bounds and none in an excluded rectangle |
| `PixelGeometry.OverlapsExactly` | scripts/mobile_android_ui.py:124-127 | it overlaps a line exactly when they share six tenths of the pixel rows of the one that has fewer |
| `PixelGeometry.DistanceExactly` | scripts/mobile_android_ui.py:128 | nearness is the distance of the centres |
| `PixelGeometry.PlacedExactly` | scripts/mobile_android_ui.py:128-132 | a word joins the first of the nearest lines that it overlaps, and begins a line if there is none |
| `PixelGeometry.PlacedInOrder` | scripts/mobile_android_ui.py:120 | words are placed from the top down, and in one row from the left |
| `PixelLines.Filter` | scripts/mobile_android_ui.py:104-115 | the loop over the table yields the visible words in order |
| `PixelLines.VisibleWords` | scripts/mobile_android_ui.py:104-115 | a word is visible as often as the table has it on level 5, with text, inside the bounds and clear of every excluded rectangle |
| `PixelLines.Group` | scripts/mobile_android_ui.py:121-132 | the loop over the words computes the grouping |
| `PixelLines.Recognised` | scripts/mobile_android_ui.py:101-135 | each reported line spells the words of one group from left to right, one space between neighbours and nothing else, with the least top and the greatest bottom of its words; the groups are those of the visible words and the lines run from the top down |
| `PixelLines.EveryWordOnce` | scripts/mobile_android_ui.py:101-135 | every visible word is in exactly one group, each group is reported once, and the report runs from the top down |
| `PixelLines.ReadsLeftToRight` | scripts/mobile_android_ui.py:133 | the words of a line are sorted from left to right, and none is lost |
| `Sorting.SortedIsOrdered` | scripts/mobile_android_ui.py:121 | sorting by a total preorder yields an ordered permutation |
| `Manifest.ReplayKeeps` | scripts/release-candidate.py:138-156 | updates applied one after the other replace no artifact, append exactly the recorded attempts and keep every check at its latest attempt |
| `Manifest.Workspace.Store` | scripts/release-candidate.py:252-259 | an artifact is added exactly when its name is new, a check is recorded exactly when its inputs are those of the current manifest, and nothing else changes |
| `Manifest.Run` | scripts/release-candidate.py:138-156 | in every interleaving of any processes dying anywhere the manifest is the result of exactly the written updates, none lost |

## Left out

- Subprocesses, HTTP, git, gh, kubectl, codesign, notarytool, stapler: steps that succeed, fail, or apply and lose their reply.
- Texts of errors, log files, timestamps, file modes, symbolic links in directories the tools own, and `provider` metadata of archives.
- Tampering with the coordinator's private files between calls: the checks of the journal's and the response's digest are in the model but never fire.
- Several coordinators or publishers at the same time; a listing of more than 100 releases or artifacts.
- The wall clock: deadlines pass at arbitrary turns, and waiting loops are bounded by a parameter that may be any number.
- Other spellings of a served response: the receiver's limit applies to the text the sender stored.
- JSON text: documents are parsed values, and malformed tables (`properties` or `$defs` that are not objects) are refused rather than read as Python would read an empty one.
- The assertions of JSON Schema that the validator does not name, such as `format` or `minimum`, are one arbitrary function of keyword, argument and instance.
- Every other keyword that depends on its neighbours, on the root or on schemas inside it (`if`, `patternProperties`, `propertyNames`, `prefixItems`, `contains`, `unevaluatedItems`, `dependentSchemas`, `dependentRequired`, `$dynamicRef`, `$id`, `$anchor`): a document that uses one is outside the fragment (`SchemaSoundness.WellFormed`). The retained contract uses none.
- Floating point in the overlap test of `pixel_lines`, which is stated with the exact fraction six tenths; the tab-separated text and its number syntax.
- The property list inside the entitlement section: its comparison is a parameter.
- Resuming one notarization artifact twice at the same time: a chain continues one directory. Neither branch could submit.
- `verify_receipt`, `copy_retained`, `retain_original`, `provider_metadata`: conjunctions of field checks.
- The acceptance driver that `receive` starts and the removal of its private directory afterwards; the copying of artifact files by `add_artifact`.
- The long receipt checkers, the user interface journeys, installers, mirrors and notices: field checks and platform calls.
- ArchiveCodec.EncryptArchive: a source of more than 2^32 frames, 16 PiB, where the counter does not fit its field and the original stops with an exception.
- Coordinator.Sender.WriteSealed: a retained archive that changes while it is read; a call finds one content of each archive, and `ArchiveCodec.EncryptArchive` has the other case.
- Probabilities: unforgeability, fresh random nonces and the absence of collisions are hypotheses on the values in play, not bounds on an adversary.

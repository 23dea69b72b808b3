# SXB mobile client: a verified model

A Dafny model of the parts of the mobile client whose correctness rests on more than one function: its
hand-written AES-256-GCM, and the protocols that decide who may use which profile, when a session is
refreshed, what traffic is billed, and when a tunnel may start. Everything below is proved for all inputs,
all runs or all interleavings.

## How it is built

**AES-256-GCM** (`services/aesGcm.ts`). The byte-array loops are methods over `array<bv8>`; each is proved
equal to a mathematical definition, and the mathematics is proved separately.

- `Gf2Poly`, `Gf2Field`: polynomials over GF(2) and arithmetic modulo any monic polynomial. `GcmField` and
  `AesField` are the two instances; both products are shown to be the unique remainder of the polynomial
  product, and with it commutative, associative and distributive.
- `Bytes`, `ByteNumbers`, `Buffers`: bytes, their bits in GCM order, big-endian numbers, array operations.
- `GhashSpec`, `Ghash`: GHASH as Horner evaluation, as the value of a polynomial, and as the loops.
- `AesTables`, `AesSpec`, `Aes256`: the S-box is shown, entry by entry, to be the affine image of the field
  inverse; the cipher is injective for every key; the class expands the key and encrypts in place.
- `GcmSpec`, `Gcm`: counter mode, tag, encryption, decryption.
- `AesVectors`: published examples, evaluated round by round.
- `Utf8`, `Utf8Rfc`, `SxbBlob`: the UTF-8 codec over UTF-16 code units, hexadecimal, and the sealed blob.

**Access** (`accessPolicy.ts`, `accessState.ts`, `accessEvents.ts`, `accessSync.ts`, `configStore.ts`).
`AccessPolicy` holds the reducers and their loops, `AccessPolicyRuns` what each does to each identifier and
what every run keeps. `AccessState` is the holder of the authority as a class; `AccessStateRuns` interleaves
captures, responses, refusals, binds, sign-outs, disk writes and restarts. `ConfigStore` is the registry of
profiles, `AccessSync` an uninterrupted reconciliation, `AccessSyncRuns` one with everything that can happen
while it waits, and `ImportLoop` the import of assigned profiles under the cap. `AccessVerdicts` says on the
fields of the authority when a profile is restricted, the device blocked, a profile removed, the tunnel stopped.

**Session refresh** (`apiClient.ts`, `identityPersistence.ts`). `SessionRefresh` has the steps between awaits
and the interceptor as a class, `SessionRefreshRuns` the proofs, `SessionOutcomes` what a refresh comes to for
the requests that wait for it.

**Usage** (`usageLedger.ts`, `flushUsage` in `VpnContext.tsx`). `UsageLedger` is the ledger, `UsageRuns` the
reporting protocol with crashes, lost answers and replays against a server that counts each (session,
sequence) once, `UsageReporter` the segments of `flushUsage` as methods, each equal to its step.

**Connection attempts** (`VpnContext.tsx`). `ConnectionAttempts` has the generation counter, the timers, the
stops and the engine's sequence numbers, as steps and as a class; `ConnectionRuns` the proofs,
`ConnectionStarts` what comes before a start and what reports and timers decide.

**PIN throttle** (`appLock.ts`, `AppLockContext.tsx`). `PinThrottle`.

Protocols follow one pattern. The state is a datatype; a `Step` function says what one uninterrupted segment
does; methods of a class change the program's variables in place and are proved to take exactly that step; an
invariant is proved to survive every step and so every run. What a step decides is then stated again on the
fields and moves alone, without the functions it is made of. Parts of a state that only record history
(`log`, `settled`, `asked`, `removed`, `readings`, `calls`) never decide a step.

## What the proofs turned up

- **A waiter can wait for ever.** After the queue of a failed refresh has been rejected, the client awaits the
  removal of the tokens while `refreshing` still points at that refresh. A 401 that arrives then joins a queue
  nobody drains (`JoinsLateExactly`, `LateWaitersWaitForever`; `TheWindowIsReachable` is a run that gets
  there). Every other waiter is settled exactly once with its refresh's outcome.
- **A save can drop a usable profile.** `libererPlaceInutilisable` keeps the promise of its comment and evicts
  useless profiles only. The pruning inside a save is another path and asks neither whether a profile is
  useful nor whether it is running: it takes a profile exactly if that one is imported, inactive and among the
  oldest in excess of four (`PrunedExactly`, `SaveLosesNothingExactly`). `ASaveDropsAUsefulProfile` is a
  registry where the one lost is useful; `OnlyEvictedProfilesGo` has the condition under which an import never
  loses one that way.
- **The cap can be reported while fewer than four profiles are held.** The loop counts against the cap the profiles
  held and those that a save of the same import has dropped (`KnownAreHeldOrDropped`). The note is written exactly
  for the profiles that find no place under that count (`CapIsReportedExactly`), so the comment at
  app-mobile/services/accessSync.ts:458-461, by which only four usable ones block an import, fails where a save
  drops one: in `CapMayBeReportedAtThree` five are held at the start and the cap is met with three. From at most
  four, which is what every save leaves, it is four (`CapFromFourExactly`).
- **A removal is not called back.** The reconciliation checks that its authority is still in force before it
  asks for a removal, not while the store performs it. A removal ends under the authority it was asked under
  exactly if nothing is published and the session does not end in between (`EndsUnderItsAuthorityExactly`); in
  `ALateReleaseSavesNothing` the profile is free again and still goes.
- **A tap can outrun a stop.** An attempt takes its number after its first reading of the store. After a stop an
  attempt can still start the engine exactly if it had no number when the stop was asked for and its identity
  is in force (`StartsAfterAStopExactly`; `ATapMayOutrunAStop` is a run that does).
- **One lost write lets a session spend a stamp twice.** If the application dies after a publication and before
  its write, the session resumes behind itself (`OneLostWriteSpendsAStampTwice`). A bind allows this exactly if
  it resumes a session behind a response already accepted (`StampsRepeatExactly`); as long as none does, and so
  as long as no write is lost and new sessions have names of their own, a stamp admits one response over the
  life of the installation (`StampsAreSpentOnce`, `SoundRunsNeverResumeBehind`).

## Model

| member | source | states |
|---|---|---|
| Ghash.GcmMultiply | app-mobile/services/aesGcm.ts:152-172 | the shift-and-xor loops compute the field product of two 16-byte blocks, in GCM bit order |
| Ghash.ShiftAndReduce | app-mobile/services/aesGcm.ts:162-168 | the in-place shift with the 0xe1 correction multiplies the block by x |
| GcmField.FieldMulIsRemainder | app-mobile/services/aesGcm.ts:151-172 | an element is congruent to the polynomial product modulo x^128+x^7+x^2+x+1 if and only if it is that field product |
| GcmField.FieldMulCommutes | app-mobile/services/aesGcm.ts:152-172 | the product commutes |
| GcmField.FieldMulAssociates | app-mobile/services/aesGcm.ts:152-172 | the product associates |
| GcmField.FieldMulAddLeft | app-mobile/services/aesGcm.ts:152-172 | the product distributes over XOR on the left |
| GcmField.FieldMulAddRight | app-mobile/services/aesGcm.ts:152-172 | the product distributes over XOR on the right |
| Buffers.XorInto | app-mobile/services/aesGcm.ts:174-176 | the accumulator becomes the XOR of both blocks, in place |
| Ghash.WriteLen64 | app-mobile/services/aesGcm.ts:207-219 | the eight shifted bytes are the bit length as a 64-bit big-endian number, below 2^64 as above; the other bytes stay |
| Ghash.Hash | app-mobile/services/aesGcm.ts:179-205 | the block-feeding loop is the Horner evaluation of the padded data, the padded ciphertext and the length block |
| GhashSpec.HornerIsPolyValue | app-mobile/services/aesGcm.ts:183-192 | feeding blocks from y gives y times a power of h plus the value at h of the polynomial of the blocks |
| GhashSpec.GhashIsPolynomialValue | app-mobile/services/aesGcm.ts:178-205 | GHASH is the value at h of the polynomial whose coefficients are the input blocks |
| GhashSpec.GhashXor | app-mobile/services/aesGcm.ts:178-205 | for equal lengths, the XOR of two hashes is the value of the XOR of the padded inputs |
| GhashSpec.GhashInputBytes | app-mobile/services/aesGcm.ts:179-205 | what is hashed, byte by byte: the data, then the ciphertext, each padded with zeros, then their bit lengths in this order, in eight big-endian bytes each |
| AesField.GfMulIsRemainder | app-mobile/services/aesGcm.ts:54-62 | the byte product is the one remainder modulo x^8+x^4+x^3+x+1 |
| AesField.MixRowProducts | app-mobile/services/aesGcm.ts:132-135 | a row of MixColumns multiplies by 2, 3, 1 and 1 |
| AesTables.SboxIsAffineInverse | app-mobile/services/aesGcm.ts:32-49 | each of the 256 entries is the affine image of the multiplicative inverse (section 5.1.1 of FIPS 197) |
| AesTables.SboxInjective | app-mobile/services/aesGcm.ts:32-49 | no two entries are equal |
| Aes256.ExpandKey | app-mobile/services/aesGcm.ts:74-99 | all 240 bytes are the 60 words of section 5.2 of FIPS 197, with every index into RCON in range |
| Aes256.ExpandedExactly | app-mobile/services/aesGcm.ts:79-99 | 240 bytes are the expanded key if and only if the key comes first and each later byte is the one 32 places back plus the byte that section 5.2 of FIPS 197 names: rotated, substituted and with the round constant, or substituted, or as it is |
| Aes256.Aes256.constructor | app-mobile/services/aesGcm.ts:70-101 | the object holds the expanded key of its 32 bytes |
| Aes256.ShiftRowsInPlace | app-mobile/services/aesGcm.ts:118-125 | the swaps rotate each row by its number |
| Aes256.MixColumnsInPlace | app-mobile/services/aesGcm.ts:128-136 | the loop multiplies every column by the matrix of section 5.1.3 |
| Aes256.Aes256.EncryptBlock | app-mobile/services/aesGcm.ts:104-146 | the in-place rounds compute Cipher of section 5.1; a block of another length is refused and nothing is written |
| AesSpec.MixColumnsInjective | app-mobile/services/aesGcm.ts:128-136 | different states stay different through MixColumns |
| AesSpec.CipherInjective | app-mobile/services/aesGcm.ts:104-146 | for every key different blocks have different ciphertexts |
| AesVectors.FipsVector | app-mobile/services/aesGcm.ts:104-146 | the worked example of Appendix C.3 of FIPS 197, through all its rounds |
| Gcm.Inc32InPlace | app-mobile/services/aesGcm.ts:223-228 | the carry loop increments the last four bytes and touches no other |
| Gcm.CarryIsSuccessor | app-mobile/services/aesGcm.ts:223-228 | carrying adds 1 to the big-endian value modulo 256^n |
| GcmSpec.CounterBlockIsSum | app-mobile/services/aesGcm.ts:223-228 | n increments add n modulo 2^32 to the last four bytes and keep the first twelve |
| GcmSpec.CounterBlocksDistinct | app-mobile/services/aesGcm.ts:230-242 | within 2^32 blocks no counter block repeats |
| GcmSpec.KeystreamBlocksDistinct | app-mobile/services/aesGcm.ts:292-295 | for up to 2^32-2 blocks from inc32(J0), every counter block and keystream block differs from that of J0, and they are pairwise distinct |
| Gcm.GctrArray | app-mobile/services/aesGcm.ts:230-242 | the loop is counter mode of section 6.5 of NIST SP 800-38D, partial last block included |
| Gcm.TagDifference | app-mobile/services/aesGcm.ts:286-288 | the accumulated difference is zero exactly on equal tags |
| Gcm.EncryptAes256Gcm | app-mobile/services/aesGcm.ts:302-325 | the arrays hold the ciphertext and tag of section 7.1, or the error is the program's |
| Gcm.DecryptAes256Gcm | app-mobile/services/aesGcm.ts:263-296 | the result is that of section 7.2, with the program's order of checks and errors |
| GcmSpec.DecryptInvertsEncrypt | app-mobile/services/aesGcm.ts:263-325 | decryption returns p if and only if encrypting p gives this ciphertext and tag, for all keys, IVs, data and lengths |
| GcmSpec.DecryptFailsExactly | app-mobile/services/aesGcm.ts:270-290 | decryption fails if and only if nothing encrypts to this ciphertext and tag |
| GcmSpec.SealedBytes | app-mobile/services/aesGcm.ts:302-325 | byte k of the ciphertext is the plaintext's plus that of the cipher of the IV and the number 2 + k/16; the tag is the hash plus the cipher of the IV and 1 |
| GcmSpec.ErrorsExactly | app-mobile/services/aesGcm.ts:263-325 | which error each wrong length gives, and in which order they are looked for |
| AesVectors.GcmTestCase13 | app-mobile/services/aesGcm.ts:302-325 | test case 13 of the GCM specification: what sealing nothing under the zero key and IV returns |
| Utf8.Utf8Encode | app-mobile/services/aesGcm.ts:331-359 | the loop over the code units produces the specified bytes |
| Utf8.Utf8Decode | app-mobile/services/aesGcm.ts:361-392 | the loop over the bytes produces the specified code units, on malformed bytes too |
| Utf8.DecodeInvertsEncode | app-mobile/services/aesGcm.ts:331-392 | decoding gives back every sequence of code units, lone surrogates included |
| Utf8Rfc.EncodeIsRfc3629 | app-mobile/services/aesGcm.ts:331-359 | the bytes are the encoding, by section 3 of RFC 3629, of the scalar values of the string |
| Utf8Rfc.ValidExactlyWhenWellFormed | app-mobile/services/aesGcm.ts:331-359 | the bytes satisfy the syntax of section 4 of RFC 3629 if and only if the string is well-formed UTF-16 |
| SxbBlob.HexToArray | app-mobile/services/aesGcm.ts:396-403 | hexadecimal parsing as specified, odd lengths refused, unreadable digits as the program reads them |
| SxbBlob.ArrayToHex | app-mobile/services/aesGcm.ts:405-411 | two lower-case digits for each byte |
| SxbBlob.HexRoundTrip | app-mobile/services/aesGcm.ts:396-411 | parsing the digits of any bytes gives the bytes |
| SxbBlob.ParseByteIsParseInt | app-mobile/services/aesGcm.ts:396-403 | what is stored for any two characters is what parseInt makes of them modulo 256, and 0 for what is not a number |
| SxbBlob.DecryptSxbBlob | app-mobile/services/aesGcm.ts:417-437 | the parser and the decryption as specified, every error included |
| SxbBlob.OpenBlob | app-mobile/services/aesGcm.ts:417-437 | a blob of any three byte strings is taken apart into these three |
| SxbBlob.FormatIsCheckedFirst | app-mobile/services/aesGcm.ts:417-424 | a blob is refused for its prefix or for its number of segments if and only if they are wrong, before anything else is looked at |
| SxbBlob.SegmentsAreIvCipherTag | app-mobile/services/aesGcm.ts:425-437 | three segments are the initial vector, the ciphertext and the tag in this order, opened under the first 64 digits of the key |
| SxbBlob.SealedBlobOpens | app-mobile/services/aesGcm.ts:302-437 | end to end: for every string, key and IV, the sealed blob opens to the string, the empty one included |
| AccessPolicy.ReduceSnapshotLoops | app-mobile/services/accessPolicy.ts:241-268 | the loops over maps compute the fold used by the lemmas; another device's snapshot is refused |
| AccessPolicy.CollectCandidates | app-mobile/services/accessPolicy.ts:247-251 | the candidates are the previous inventory overlaid with the managed local profiles |
| AccessPolicyRuns.CandidatesFound | app-mobile/services/accessPolicy.ts:247-251 | an identifier is a candidate exactly if it was listed or owns a managed profile; the last such profile names it and gives its hash |
| AccessPolicyRuns.SnapshotDecides | app-mobile/services/accessPolicy.ts:252-267 | after a snapshot each identifier stands as its entry says, else as deleted if it was known and a full inventory omits it, else as before; hashes accumulate |
| AccessPolicyRuns.IssueDecides | app-mobile/services/accessPolicy.ts:270-284 | a refusal restricts its one subscription, gathers its hashes and leaves every other identifier alone |
| AccessPolicyRuns.StepKeeps | app-mobile/services/accessPolicy.ts:241-284 | every event keeps identifiers unique, states blocking, and a restriction for each blocked subscription held |
| AccessPolicyRuns.FreedExactly | app-mobile/services/accessPolicy.ts:258-259 | a restricted identifier is freed if and only if an accepted snapshot lists it as active; otherwise its hashes only grow |
| AccessPolicyRuns.RestrictedUntilFreed | app-mobile/services/accessPolicy.ts:241-284 | the same over whole runs |
| AccessPolicyRuns.FallbackNeverDecides | app-mobile/services/accessPolicy.ts:219-231 | with the invariant, the search in the held snapshot never adds an answer |
| AccessPolicyRuns.ReachableFallback | app-mobile/services/accessState.ts:102-104 | so for every authority reached from a fresh one |
| AccessStateRuns.HeldRestrictionsDecide | app-mobile/services/accessPolicy.ts:219-231 | and for whatever authority is in force in any run, resumed from disk or not |
| AccessPolicyRuns.MinimalSnapshotCondemnsNothing | app-mobile/services/accessPolicy.ts:244-246 | a snapshot without inventory of a lost device leaves the standing of every profile as it was |
| AccessPolicyRuns.OmittedIsDeleted | app-mobile/services/accessPolicy.ts:252-257 | any other snapshot marks what was listed or managed here and that it omits as deleted |
| AccessPolicyRuns.OmittedExactly | app-mobile/services/accessPolicy.ts:244-257 | an identifier that a snapshot omits becomes deleted if and only if it was listed or is managed here and the snapshot has an inventory; else it stands as before |
| AccessVerdicts.RestrictedExactly | app-mobile/services/accessPolicy.ts:214-231 | a profile is restricted if and only if some restriction names it, or has the hash of this copy that belongs to no subscription and is neither expired nor exhausted; the first such one is the answer |
| AccessVerdicts.CopiesStayRestricted | app-mobile/services/accessPolicy.ts:219-268 | over whole runs, a copy of a restricted payload stays restricted until a snapshot frees the subscription or it becomes expired or exhausted |
| AccessVerdicts.RefusalHashes | app-mobile/services/accessPolicy.ts:275-283 | which hashes a refused subscription is restricted with |
| AccessVerdicts.FirstLocalNameIs | app-mobile/services/accessPolicy.ts:277-282 | and under which local name |
| AccessVerdicts.DeviceShown | app-mobile/services/accessPolicy.ts:188-197 | the device as it is shown after a refusal about it |
| AccessVerdicts.DeviceDecides | app-mobile/services/accessPolicy.ts:188-201 | whether the device is blocked after an event: an accepted snapshot decides by its device, a refusal about the device by its state, nothing else touches it |
| AccessState.AccessStore.CaptureAuthority | app-mobile/services/accessState.ts:114-117 | the stamp is the session and sequence in force |
| AccessState.AccessStore.AdoptAuthority | app-mobile/services/accessState.ts:68-78 | the whole new state and the write: a foreign or older authority is dropped, the revision moves when the sequence does |
| AccessState.AccessStore.TakeSnapshot | app-mobile/services/accessState.ts:123-141 | one turn of a snapshot: applied only to the authority that the stamp designates |
| AccessState.AccessStore.TakeIssue | app-mobile/services/accessState.ts:143-155 | one turn of a refusal |
| AccessState.AccessStore.AdvanceAccessSession | app-mobile/services/accessEvents.ts:8 | epoch and revision advance |
| AccessState.AccessStore.BindSession | app-mobile/services/accessState.ts:80-112 | the cached authority of the same user and device is resumed, else a new session begins |
| AccessState.AccessStore.FinishClear | app-mobile/services/accessState.ts:167-174 | the turn of a sign-out |
| AccessStateRuns.BindDecides | app-mobile/services/accessState.ts:80-112 | in every run the turn of a bind leaves an authority of that user and device in force: the one in force, or the one on disk if and only if it is theirs, or a new one that restricts nothing |
| AccessStateRuns.TheirsUntilTheNextBind | app-mobile/services/accessState.ts:80-112 | until the next bind or restart it stays that of the same user and device |
| AccessStateRuns.TenureEndsExactly | app-mobile/services/accessState.ts:80-112 | a tenure ends exactly at a restart or at a bind that does not find its authority in force |
| AccessStateRuns.SnapshotTurnDecides | app-mobile/services/accessState.ts:123-141 | in every run a snapshot is taken in if and only if its stamp names the authority in force and it is of the same device; then it is written, else nothing changes |
| AccessStateRuns.IssueTurnDecides | app-mobile/services/accessState.ts:143-155 | the same for a refusal, which must not be about the session |
| AccessStateRuns.AdoptsExactly | app-mobile/services/accessState.ts:68-78 | an authority is adopted if and only if none is in force or it is of the same user, device and session and not older; the revision moves when the sequence does |
| AccessStateRuns.SignOutDecides | app-mobile/services/accessState.ts:167-174 | a sign-out makes every earlier request stale at once, and its turn leaves no authority in memory or on disk |
| AccessStateRuns.StepKeeps | app-mobile/services/accessState.ts:26-31 | every interleaved step keeps the invariant on tickets, requests and accepted responses |
| AccessStateRuns.AcceptedResponses | app-mobile/services/accessState.ts:118-155 | an accepted response bears the stamp of what it changed, acts on the very authority captured, and is alone with its stamp, between two binds |
| AccessStateRuns.SequenceNeverDecreases | app-mobile/services/accessState.ts:68-78 | between any two points of a run with no bind or restart in between, the session stays and the sequence never decreases |
| AccessStateRuns.CurrentRequestSawTheAuthority | app-mobile/services/accessEvents.ts:4-11 | while a request stamp is current, the authority is the one it left under, or a sign-out has removed it |
| AccessStateRuns.RefusalKeepsItsRequest | app-mobile/services/accessSync.ts:655-663 | so a refusal is applied with a stamp of the authority its request was sent under |
| AccessStateRuns.StampsAreSpentOnce | app-mobile/services/accessState.ts:80-174 | over sign-outs and restarts a stamp admits one response, as long as no bind resumes a session behind an accepted response |
| AccessStateRuns.SoundRunsNeverResumeBehind | app-mobile/services/accessState.ts:84-110 | no bind does when no write is lost and new sessions have names of their own |
| AccessStateRuns.StampsRepeatExactly | app-mobile/services/accessState.ts:101-110 | in the tenure of a bind a response can be admitted with a stamp already spent if and only if the bind resumes a session behind a logged response |
| AccessStateRuns.OneLostWriteSpendsAStampTwice | app-mobile/services/accessState.ts:76-77 | a run in which one lost write makes one stamp admit two responses |
| ConfigStore.Store.Remove | app-mobile/services/configStore.ts:380-392 | the entry goes, and the first one becomes active if none is |
| ConfigStore.Store.Save | app-mobile/services/configStore.ts:296-345 | the entry is appended, active if the caller says so, at most one is active, and pruning follows |
| ConfigStore.Oldest | app-mobile/services/configStore.ts:158-170 | the candidate is the oldest prunable entry, the first among equals |
| ConfigStore.PruneKeeps | app-mobile/services/configStore.ts:155-174 | pruning leaves at most four imported profiles, takes only prunable ones, oldest first |
| ConfigStore.PrunedExactly | app-mobile/services/configStore.ts:155-174 | a profile is pruned if and only if it is imported, inactive and not being saved, and fewer such profiles go before it than there are too many |
| ConfigStore.SaveBounds | app-mobile/services/configStore.ts:310-332 | any save leaves at most four imported profiles, the saved one among them |
| ConfigStore.SaveDecides | app-mobile/services/configStore.ts:296-345 | after a save the profile is as given and active as asked; every other one there is as it was, active if it was and the saved one is not |
| ConfigStore.RemovalDecides | app-mobile/services/configStore.ts:380-392 | a removal takes one profile, keeps the order, and wakes the first if none is active |
| AccessSync.ReconcileAccess | app-mobile/services/accessSync.ts:218-245 | an uninterrupted run: the tunnel is stopped if blocked, and the registry becomes the survivors as the authority describes them, one of them active if anything was removed |
| AccessSync.KeptExactly | app-mobile/services/accessSync.ts:232-236 | a profile stays if and only if it is neither revoked nor deleted |
| AccessVerdicts.StaysExactly | app-mobile/services/accessSync.ts:232-236 | a stored profile is removed if and only if the first restriction that strikes it is revoked or deleted |
| AccessVerdicts.StopsExactly | app-mobile/services/accessSync.ts:221-224 | the running tunnel is stopped if and only if the device is blocked or a restriction strikes its profile |
| AccessSync.KeptEntriesAreDescribed | app-mobile/services/accessSync.ts:237-244 | what stays bears the name and state of its subscription if it is managed and listed, else of its restriction; something is active if anything was removed |
| AccessSync.NoneCondemned | app-mobile/services/accessSync.ts:230-245 | nothing condemned is left |
| AccessSync.SecondRunChangesNothing | app-mobile/services/accessSync.ts:218-245 | a second run removes and rewrites nothing |
| AccessSync.MinimalSnapshotRemovesNothing | app-mobile/services/accessSync.ts:229-236 | after a snapshot without inventory of a lost device the next run removes nothing more |
| AccessSync.OmittedIsRemoved | app-mobile/services/accessSync.ts:229-236 | after any other snapshot the next run removes an omitted managed profile if and only if no milder restriction under its other identifier stands first |
| AccessSyncRuns.StepKeeps | app-mobile/services/accessSync.ts:218-245 | every interleaved step keeps the invariant on the phase and on the order of removals |
| AccessSyncRuns.BeginsExactly | app-mobile/services/accessSync.ts:219-224 | a reconciliation begins if and only if there is an authority, which it holds, and first stops the tunnel if and only if it must |
| AccessSyncRuns.GoesOnExactly | app-mobile/services/accessSync.ts:224-236 | it goes on past each pause if and only if what it waited for succeeded and its authority and session are in force; each entry is then removed or rewritten |
| AccessSyncRuns.RewriteDecides | app-mobile/services/accessSync.ts:237-244 | a rewrite gives the entry the name and state of the authority held and changes no other |
| AccessSyncRuns.AskedWhileCondemned | app-mobile/services/accessSync.ts:225-234 | each removal was asked for by a move of the run, while the authority that condemns the entry was in force and after the move that ended the stop it calls for |
| AccessSyncRuns.RemovedWhileCondemned | app-mobile/services/accessSync.ts:225-234 | each removal performed is one that was so asked for, once and in the order of asking, and a later move of the run ended it |
| AccessSyncRuns.OnlyTheAskedEntryGoes | app-mobile/services/accessSync.ts:233-244 | in every run a step of the reconciliation takes nothing from the store but the entry last asked for |
| AccessSyncRuns.RemovalIsNotCalledBack | app-mobile/services/accessSync.ts:231-234 | an authority published before the store has answered does not stop that removal, only the ones after it |
| AccessSyncRuns.EndsUnderItsAuthorityExactly | app-mobile/services/accessSync.ts:231-234 | a removal ends under the authority and in the lifecycle it was asked under if and only if nothing is published and the lifecycle does not advance in between |
| AccessSyncRuns.ALateReleaseSavesNothing | app-mobile/services/accessSync.ts:231-234 | a run in which a snapshot has freed the profile of every restriction and it is removed all the same |
| ImportLoop.Victim | app-mobile/services/accessSync.ts:145-159 | the evicted profile is the most useless evictable one, the oldest among equals; none exactly if nothing is evictable |
| ImportLoop.FreePlace | app-mobile/services/accessSync.ts:145-162 | the evicted profile leaves the store and is returned; without one, or if the removal fails, the store stays as it is |
| ImportLoop.ImportConfigs | app-mobile/services/accessSync.ts:414-489 | the loop over the assigned profiles, with its early exits, evictions, saves and notes, which are dropped if the session ends |
| ImportLoop.ImportsAreBounded | app-mobile/services/accessSync.ts:414-482 | the number of imported profiles never exceeds the larger of the starting number and four; every eviction is of an imported, inactive, non-running, useless profile |
| ImportLoop.SaveLosesNothingExactly | app-mobile/services/configStore.ts:326-332 | saving an imported profile loses another if and only if there would be more than four |
| ImportLoop.ASaveDropsAUsefulProfile | app-mobile/services/configStore.ts:326-332 | a registry and an authority for which the save leaves nothing under the identifier of a useful profile |
| ImportLoop.OnlyEvictedProfilesGo | app-mobile/services/accessSync.ts:145-162 | from at most four imported profiles, none added by hand under an assigned identifier, every profile that is gone was rightly evicted |
| ImportLoop.KnownAreHeldOrDropped | app-mobile/services/accessSync.ts:419-471 | from any number of imported profiles, what counts against the cap is the imported profiles held and, apart from them, those dropped by a save of this import |
| ImportLoop.EntryReportsExactly | app-mobile/services/accessSync.ts:457-465 | an entry notes the cap if and only if something is to be provisioned for it, it is not known, four are known and none of those held can be freed |
| ImportLoop.CapIsReportedExactly | app-mobile/services/accessSync.ts:457-465 | over a whole import from any number of imported profiles, the cap is reported for a profile if and only if its entry finds no place: four others are held or were dropped by a save, and each one held is useful, active or running, or the removal fails |
| ImportLoop.CapFromFourExactly | app-mobile/services/accessSync.ts:457-465 | from at most four imported profiles, none added by hand under an assigned identifier, an entry finds no place if and only if its profile is not stored, four are held, and each is useful, active or running, or the removal fails |
| ImportLoop.CapMayBeReportedAtThree | app-mobile/services/accessSync.ts:457-471 | an import from five imported profiles that reports the cap with three held |
| ImportLoop.EntryStoresExactly | app-mobile/services/accessSync.ts:430-471 | entry k ends with the provisioned profile stored if and only if the loop got to it, it is to be fetched (absent, unreadable or outdated), it has a place and provisioning succeeded; else nothing new is stored |
| ImportLoop.EntryNotesExactly | app-mobile/services/accessSync.ts:438-478 | what an entry notes: a failure, the lack of a place, the lack of a token, or nothing |
| ImportLoop.EntryRestrictedExactly | app-mobile/services/accessSync.ts:430-438 | an entry is restricted if and only if there is a restriction of its identifier |
| ImportLoop.UsefulExactly | app-mobile/services/accessSync.ts:151-157 | a stored profile is usable if and only if its connection is listed as active and nothing restricts it; it comes first to go if its connection is not listed |
| SessionRefresh.Client.OnError401 | app-mobile/services/apiClient.ts:211-229 | a 401 is refused, queued behind the refresh of its epoch, or starts that refresh |
| SessionRefresh.Client.SettleQueue | app-mobile/services/apiClient.ts:181-189 | the loop settles every waiter of the queue with the outcome and empties it |
| SessionRefresh.Client.FailFlight | app-mobile/services/apiClient.ts:275-297 | the catch block up to its first pause, with the finally block when there is none |
| SessionRefresh.Client.CompleteFlight | app-mobile/services/apiClient.ts:269-274 | the waiters and the request go on with the new token and the refresh is over |
| SessionRefreshRuns.StepKeeps | app-mobile/services/apiClient.ts:191-304 | every interleaved step keeps the invariant on requests, refreshes, settlements and writes |
| SessionRefreshRuns.OneRefreshPerEpoch | app-mobile/services/apiClient.ts:215-229 | at most one refresh is in flight for an epoch |
| SessionRefreshRuns.SentAtMostTwice | app-mobile/services/apiClient.ts:211-213 | no request is sent more than twice |
| SessionRefreshRuns.TokensAreWrittenInTime | app-mobile/services/identityPersistence.ts:5-24 | writing or removing tokens begins only in the epoch of its refresh, and one refresh writes at a time |
| SessionRefreshRuns.EarlyWaitersAreSettledOnce | app-mobile/services/apiClient.ts:216-279 | a waiter that joined before its refresh settled the queue is still queued, or was settled exactly once with that outcome |
| SessionRefreshRuns.JoinsLateExactly | app-mobile/services/apiClient.ts:279-296 | a 401 joins too late if and only if the refresh of its epoch is removing the tokens |
| SessionRefreshRuns.LateWaitersWaitForever | app-mobile/services/apiClient.ts:215-219 | such a waiter is never settled, whatever happens next |
| SessionRefreshRuns.TheWindowIsReachable | app-mobile/services/apiClient.ts:279-291 | a run with two requests that gets there |
| SessionOutcomes.TheTokenServesAll | app-mobile/services/apiClient.ts:181-189 | in every run, once the tokens are written in time, each waiter is given that token and is sent a second time, and so is the request that began the refresh |
| SessionOutcomes.FailsExactly | app-mobile/services/apiClient.ts:230-279 | a refresh fails if and only if a wait ends with an error or finds the session over, and succeeds if and only if its tokens are written in time |
| SessionOutcomes.AFailureRefusesAll | app-mobile/services/apiClient.ts:275-279 | when it fails each waiter is rejected and, whatever happens next, never sent again |
| SessionOutcomes.AFailureRefusesItsOwner | app-mobile/services/apiClient.ts:275-297 | the request that began it is rejected at once, unless the session was refused as invalid while in force |
| SessionOutcomes.RemovalRefusesTheOwner | app-mobile/services/apiClient.ts:282-297 | then it is rejected when the tokens have been removed or the removal is given up |
| SessionOutcomes.TokensAreReplied | app-mobile/services/apiClient.ts:236-270 | the token stored and served is one the server replied with |
| SessionOutcomes.ARefreshGoesThrough | app-mobile/services/apiClient.ts:230-270 | when nothing goes wrong a refresh that begins gets its tokens written |
| SessionOutcomes.UnauthorizedDecides | app-mobile/services/apiClient.ts:211-229 | in every run a 401 rejects a request sent twice or of a past session; else it waits for the refresh of its session or begins it |
| SessionOutcomes.RequestsDecide | app-mobile/services/apiClient.ts:98-209 | a request begins in the session in force, and what comes after its session is an error |
| SessionOutcomes.SentExactly | app-mobile/services/apiClient.ts:98-165 | a request is sent exactly by its own move, ready and in its own session |
| UsageLedger.FirstReady | app-mobile/services/usageLedger.ts:285 | the first entry that may be sent now |
| UsageLedger.OpensAnEntryExactly | app-mobile/services/usageLedger.ts:255-274 | a reading opens a new entry if and only if a counter rose and the last entry is not an open one of the same plan and session; it changes no other |
| UsageLedger.ReportsTheFirstReadyExactly | app-mobile/services/usageLedger.ts:284-328 | a report is cut from the first entry that need not wait, upward bytes first, as many as the limit allows; the rest follows as an open entry |
| UsageLedger.DefersOnlyItsKey | app-mobile/services/usageLedger.ts:337-340 | a refusal delays the entries of its key and changes nothing else |
| UsageLedger.LoadedIsFrozen | app-mobile/services/usageLedger.ts:374-412 | what comes back from disk is frozen, and new numbers are above its own |
| UsageRuns.AccumulateOk | app-mobile/services/usageLedger.ts:236-274 | accumulation adds exactly the measured step, keeps sequence numbers unique and touches no frozen entry |
| UsageRuns.NextReportOk | app-mobile/services/usageLedger.ts:284-328 | freezing and cutting the head lose no byte and keep numbers unique |
| UsageRuns.SettleOk | app-mobile/services/usageLedger.ts:331-335 | settling moves the bytes of exactly one report |
| UsageRuns.StepKeeps | app-mobile/contexts/VpnContext.tsx:1537-1651 | every step, crash, lost answer and replay keeps the invariant |
| UsageRuns.FlushDecides | app-mobile/contexts/VpnContext.tsx:1537-1605 | a flush measures only when none is under way and saves what it changed before it goes on; a save that fails ends it |
| UsageRuns.SentReportsAreOnDisk | app-mobile/contexts/VpnContext.tsx:1585-1592 | every report sent is on disk unchanged, or settled |
| UsageRuns.SettledReportsAreCountedOnce | app-mobile/contexts/VpnContext.tsx:1635-1651 | every settled report was counted, and none is counted twice |
| UsageRuns.BilledPlusUnbilledIsMeasured | app-mobile/contexts/VpnContext.tsx:1537-1651 | conservation in every run, for each plan and session and for all: counted bytes plus bytes still to be counted are the sum of the rises of the saved readings measured under it, which are among those of the run, in order |
| UsageRuns.BilledPlusUnbilledIsTheDistance | app-mobile/contexts/VpnContext.tsx:1537-1651 | when readings never fall, they are the last reading saved minus the reading that anchored the ledger |
| UsageRuns.SavedReadingIsLast | app-mobile/contexts/VpnContext.tsx:1537-1561 | a reading that is measured and saved is the last one on disk |
| UsageRuns.AnchorIsFixed | app-mobile/services/usageLedger.ts:219-227 | readings on disk are never rewritten, through crashes and replays: the anchor stays and later ones follow |
| UsageRuns.RisesAreDistancePlusFalls | app-mobile/services/usageLedger.ts:241-252 | the bytes billed are the distance from the anchor plus what the counter fell by: a fall bills nothing and takes nothing back |
| UsageReporter.Reporter.MeasureCounters | app-mobile/contexts/VpnContext.tsx:1537-1559 | the segment is the measuring step |
| UsageReporter.Reporter.SaveLedger | app-mobile/contexts/VpnContext.tsx:1561 | the save succeeds or ends the flush |
| UsageReporter.Reporter.PrepareReport | app-mobile/contexts/VpnContext.tsx:1582-1584 | the segment is the preparing step |
| UsageReporter.Reporter.SendReport | app-mobile/contexts/VpnContext.tsx:1594-1605 | the report leaves, and it is on disk, frozen, with these contents |
| UsageReporter.Reporter.SettleReport | app-mobile/contexts/VpnContext.tsx:1642-1651 | the segment is the acknowledging step |
| UsageReporter.Reporter.DeferRefused | app-mobile/contexts/VpnContext.tsx:1629-1633 | the segment is the deferring step |
| UsageReporter.Reporter.StopFlush | app-mobile/contexts/VpnContext.tsx:1626-1628 | an abort, an error or a change of session ends the flush and touches nothing |
| ConnectionAttempts.Refs.BeginAttempt | app-mobile/contexts/VpnContext.tsx:1974-2006 | an attempt cancels the one in progress, takes its number and goes to its first pause |
| ConnectionAttempts.Refs.FinishAttempt | app-mobile/contexts/VpnContext.tsx:2268-2308 | the engine is started only by the newest attempt of the identity in force |
| ConnectionAttempts.Refs.FireWatchdog | app-mobile/contexts/VpnContext.tsx:810-828 | a timer of an older attempt does nothing, else the engine is stopped under a new number |
| ConnectionAttempts.Refs.FireEchelon | app-mobile/contexts/VpnContext.tsx:886-952 | a refused presentation is given up under a new number and connect is called again |
| ConnectionAttempts.Refs.BeginStop | app-mobile/contexts/VpnContext.tsx:2375-2397 | a stop takes a number, clears the timers and stops the engine |
| ConnectionAttempts.Refs.FinishStop | app-mobile/contexts/VpnContext.tsx:2423-2426 | only the newest stop lowers the flag |
| ConnectionAttempts.Refs.OnPermissionLost | app-mobile/contexts/VpnContext.tsx:982-1003 | the number advances once for a lost permission |
| ConnectionAttempts.Refs.OnStateChange | app-mobile/contexts/VpnContext.tsx:1009-1019 | an event with an old number is dropped |
| ConnectionAttempts.Refs.OnPollReply | app-mobile/contexts/VpnContext.tsx:1187-1196 | a polled loss of permission counts only with a number at least the last |
| ConnectionAttempts.Refs.OnRuntimeReply | app-mobile/contexts/VpnContext.tsx:1277-1291 | a runtime reply behind the last number is dropped |
| ConnectionRuns.StepKeeps | app-mobile/contexts/VpnContext.tsx:1376 | every tap, timer, answer, stop and event keeps the invariant on numbers, calls and stops |
| ConnectionRuns.OnlyTheNewestStarts | app-mobile/contexts/VpnContext.tsx:2300-2308 | every start in a run was made by a move of the attempt that was newest then, under the identity in force |
| ConnectionRuns.StartedAtMostOnce | app-mobile/contexts/VpnContext.tsx:1985-2308 | no attempt starts the engine twice, and later starts have larger numbers |
| ConnectionRuns.NoStartAfterAStop | app-mobile/contexts/VpnContext.tsx:1376-1393 | no attempt numbered before a stop starts the engine after it |
| ConnectionRuns.FlagMeansTheNewestStop | app-mobile/contexts/VpnContext.tsx:2375-2426 | disconnectInFlight holds if and only if the newest stop has not ended |
| ConnectionRuns.SequenceNeverDecreases | app-mobile/contexts/VpnContext.tsx:1009-1015 | the recorded native sequence number never decreases over any run |
| ConnectionRuns.StartsAfterAStopExactly | app-mobile/contexts/VpnContext.tsx:1939-1985 | after a stop an attempt can still start the engine if and only if it had no number when the stop was asked for and its identity is in force |
| ConnectionRuns.ATapMayOutrunAStop | app-mobile/contexts/VpnContext.tsx:1945-1985 | a run in which a tap made before a disconnection starts the engine after it |
| ConnectionStarts.StartsAreGranted | app-mobile/contexts/VpnContext.tsx:2010-2308 | every start in a run ends the whole way of its attempt, in order: begun, permission granted, configuration checked, measured; and the permission has not been lost since |
| ConnectionStarts.StagesAdvance | app-mobile/contexts/VpnContext.tsx:1939-2308 | an attempt moves on by its own moves only, and past each pause only while its number and identity are in force |
| ConnectionStarts.TakesANumber | app-mobile/contexts/VpnContext.tsx:1974-2006 | an attempt takes the next number, after stopping a connection in progress under a number of its own |
| ConnectionStarts.StartArmsTheTimers | app-mobile/contexts/VpnContext.tsx:2268-2308 | the engine starts with the timers of its attempt armed |
| ConnectionStarts.PermissionIsLostExactly | app-mobile/contexts/VpnContext.tsx:982-1019 | the permission is lost if and only if a report that is taken says so, and regained if and only if the newest attempt that asks is granted it; a loss makes every attempt an old one |
| ConnectionStarts.LastNumberExactly | app-mobile/contexts/VpnContext.tsx:1009-1291 | the recorded number becomes that of a report that is taken, and else stays |
| ConnectionStarts.EngineDecides | app-mobile/contexts/VpnContext.tsx:886-1010 | a failure of the engine relaunches under a number of its own or drops the timers; a phase re-arms the watchdog; a late connection is stopped |
| ConnectionStarts.StopsDecide | app-mobile/contexts/VpnContext.tsx:2375-2426 | a stop takes a number and stops the engine under it, and its end lowers the flag if and only if no later stop was asked for |
| ConnectionStarts.TimersDecide | app-mobile/contexts/VpnContext.tsx:810-952 | a timer stops the engine if and only if it is of the newest number, under a number of its own |
| PinThrottle.SecureRecord.RegisterFailedPinAttempt | app-mobile/services/appLock.ts:135-146 | the stored record becomes the next one, unless it still blocks |
| PinThrottle.SecureRecord.UnlockWithPin | app-mobile/contexts/AppLockContext.tsx:230-257 | the record is consulted, the PIN compared and the record rewritten or cleared |
| PinThrottle.AnswersExactly | app-mobile/contexts/AppLockContext.tsx:230-257 | after any calls at any times: unlocked if and only if no back-off runs and the PIN is right, and then the record is cleared; the exact time left or the back-off begun; else the PIN is wrong |
| PinThrottle.RunIsItsStreak | app-mobile/services/appLock.ts:135-146 | the record is the number of wrong PINs compared since the last right one, and the end of the last back-off |
| PinThrottle.WrongPinsNeverUnlock | app-mobile/contexts/AppLockContext.tsx:241-256 | from any record a wrong PIN never unlocks |
| PinThrottle.RunCountsChecked | app-mobile/services/appLock.ts:135-146 | over any calls the record counts the PINs really compared, each after the back-off of the one before |
| PinThrottle.DelaySumClosed | app-mobile/services/appLock.ts:139-142 | the back-offs from the fifth add up to 930 s and then 900 s each |
| PinThrottle.CheckedPinsTakeTime | app-mobile/contexts/AppLockContext.tsx:230-257 | the n-th compared wrong PIN comes at least the sum of the back-offs after the fifth |

## Modelling choices

- Bytes are `bv8`, so that the masks of the source are exact. JavaScript numbers are unbounded integers; no
  value here reaches 2^53 in the program, except lengths beyond what an array can hold. `WriteLen64` writes out the
  program's reductions modulo 2^32.
- The S-box is cut into sixteen rows, which keeps each table proof small.
- Thrown errors are results. `EncryptBlock` always writes into the buffer it is given.
- In the access model absent and empty strings are both `None`, as the program's truth tests read them, and
  the lists of hashes are sets, which is what the program builds them as. A profile's time of saving is a
  number, 0 where the program cannot parse the date.
- What another party decides is a parameter of the step: answers of the server, of the vault and of the
  disk, clocks, the running profile, whether a check passes. `Decided(becomes)` carries the verdict of
  `reprendLeProfilActif`, which depends on dates.
- Steps are the stretches of code between two awaits. Where a pause only delays (a request waiting for the
  identity writes, a prelude that may pause twice), one pause or none is modelled; that only adds interleavings.

## Left out

- Native Android: the branch of `accessState.ts` and `accessSync.ts` that lets Kotlin order the authority, the access tickets, and the event emitters.
- Notices: `accessNotices`, `mergeAccessNotices` and the subjects of notices, which inform and decide nothing.
- Parsers of server answers, regular expressions, date formats, `safeProfileName`, retry delays: local checks. The uniqueness of identifiers that the parser guarantees is a precondition where it is used.
- Quotas: `recordQuota`, `quotaProjection` and the figures shown on screen.
- Recovery of a corrupt or legacy ledger: `sanitize`, `archiveRecovery`; the model loads a ledger that was saved.
- The choice of TLS presentations: whether an echelon advances is a parameter of `FireEchelon`.
- Connection flags for the interface, and the development path without the native module.
- Vault, secure storage, hashing of PINs and HTTP: they answer or fail.
- Timing of the tag comparison and cryptographic security.
- The trial marker and the legacy synchronisation inside the import loop, and the scheduling of import retries.
- Store payloads: the registry stands for the profiles; `ImportLoop` takes as an answer whether a payload opens.
- AccessState.AccessStore.BindSession: the read of the cache and the publication are one turn; nothing else in the program changes the authority between them.
- AccessStateRuns.SequenceNeverDecreases: stated within a tenure, because a bind may resume an older copy from disk; `OneLostWriteSpendsAStampTwice` is a run that does.
- AccessStateRuns.StampsRepeatExactly: stated for a bind with only responses waiting behind it, because another bind or sign-out already queued there would end the tenure at a point of its own.
- PinThrottle.SecureRecord.UnlockWithPin: calls do not overlap; two calls that read the record before either writes it would count one failure.

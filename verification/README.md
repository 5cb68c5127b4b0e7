# tpmkit: a verified model

tpmkit wraps the TPM2 software stack. This project models the parts of it that carry an argument of their own, and proves what
each of them is for. Each file holds one module of the same name.

**The PCR pipeline** (`PcrTypes`, `TpmStructures`, `PcrBitmap`, `PcrMarshalling`, `PcrValidation`, `EsysPcrProvider`,
`InMemoryPcrObserver`, `ProviderDiscipline`, `ProviderProtocol`, `TpmDevice`, `MeasurementReplay`, `ReadRefinement`,
`TpmSettings`). Caller input is validated, packed into fixed-capacity TPM structures, sent through a table of backend calls,
unpacked, logged, and reported to an observer. A backend is any function from the history of calls to the reply of the last one,
so the discipline theorems hold against arbitrary replies. `ProviderProtocol` is a table of the operations, with their calls, the
names of their failures, what they complain about and what they record, and one interpreter of that table. `TpmDevice` is the
backend that follows sections 22.2 to 22.4 and 22.8 of TPM 2.0 Library Part 3, with banks of 32 registers, an uninterpreted hash
per bank, and possibly banks that the library does not know. Against it the measurement log replays to the registers, and a read
returns exactly that replay. `TpmSettings` adds what the other commands set: allocations, policies and authorization values. The
build switch for SHA-1 is the parameter `legacy`, and every theorem covers both values.

**The scripted TCTI** (`FakeTcti`, `TctiClient`). A FIFO of responses and failures behind one mutex. A receive locks twice; every
locked region is one atomic step, and a run interleaves the steps of one receiver with any number of pushers, transmitters,
inspectors and finalizers, each of which may act on an owner pointer that it read earlier. `TctiClient` is the client that
transmits, asks for the size and receives, again step by step among concurrent pushers.

**Context lifecycle** (`TctiStrings`, `Lifecycle`, `UniqueOwner`, `HeldObjects`, `TpmContext`, `ContextReports`,
`ContextRefinement`). Creation through the loader or around an owned handle appends to a ledger of events: handles acquired and
released, loader info queried and freed, log records. A monitor says when such a life is in order. `ContextReports` lists what a
creation depends on, and says what is returned, logged and asked of the TPM as a function of the first thing on the list that
fails. `UniqueOwner` is the theory of objects whose state sits behind a moved unique pointer; with it the facts about one creation
become facts about every run of creations, moves, move assignments and destructions. `HeldObjects` and `ContextRefinement` show
that the objects on the heap take exactly those abstract steps, one by one and in whole runs.

**Logging** (`EscapeValue`, `StdioLogger`, `ConcurrentLogging`). Values are escaped, fields rendered, records built in a reused
buffer and written under a mutex. `ParseFields` and `ParseLine` are parsers that invert the renderer. `ConcurrentLogging` splits a
call into the steps between which other threads may run, and ties a call that nothing comes between to the logger's method.

**Smaller codecs** (`Hex`, `ErrorTranslation`, `SecretBuffer` with `SecretRefinement`, and the TCTI string checks in
`TctiStrings`).

Code that updates objects in place is modelled by classes and methods (`Provider`, `Observer`, `Tcti`, `Factory`, `Context`,
`Logger`, `Impl`, `Buffer`, `FakeContext`) and by loops over arrays; each such method is proved equal to a function of the old
state, and the theorems about whole runs are about those functions.

## What the code does where its documentation or its callers might expect otherwise

- A record is documented as a single line (`include/tpmkit/logging/stdio_logger.h:7-10`), but the message and the keys are written as
  they are. `StdioLogger.LineBreaksExactly` gives the exact condition under which a record is one line, and
  `StdioLogger.MessageCanBreakLine` a message that is not. A reader of a stream gets its records back exactly when every record that
  went there is a single line (`ConcurrentLogging.ReadersSeeWholeLines`).
- `ParseFields` decodes a field list exactly when no key contains `=` (`EscapeValue.FieldListDecodes`); empty keys and keys with spaces do
  no harm. With `=` in a key different lists can have the same text (`EscapeValue.EqualsInKeyIsAmbiguous`).
- An owned TCTI handle without deleter is turned down without a call of the deleter, except when the startup mode is invalid as well:
  the mode is checked first, and dropping the handle then calls the null deleter. `TpmContext.OwnedCreationLivesWell` shows that this is
  the only kind of input for which a creation's life is out of order, and `TpmContext.NullDeleterIsCalled` is one such input.
- An event that the TPM executes while a bank is active that the library does not know (SM3, say) extends the known banks too, but its reply
  is turned down and the observer is not told. `MeasurementReplay.LogReplaysExactly` shows that such events are all that keeps the log from
  explaining the registers, and `MeasurementReplay.UnknownBankBreaksReplay` gives a TPM and a run on which it fails.
- `set_auth_value` is documented as protecting a PCR (`include/tpmkit/pcr/provider.h:128-139`), but it accepts only the empty value and
  presents the empty value as the PCR's current one. Against a TPM that checks authorization it therefore succeeds only for PCRs whose
  value is empty already, and no run of operations ever changes an authorization value (`TpmSettings.ValuesNeverChange`).
- A scripted failure may carry the code zero, and then pretends success to a client that transmits, asks for the size and receives. Rounds
  follow the script exactly when no item they meet does that (`FakeTcti.RoundsFollowScriptExactly`), and the same holds at every moment of
  a session among concurrent pushers (`TctiClient.RoundsServePushesExactly`). Whether a round still consumes
  exactly one item depends on what comes behind such a failure, and `FakeTcti.RoundConsumesOneExactly` says how: a zero transmit failure
  must be last or stand before another transmit failure, and a zero failure must be last or stand before a transmit failure or a response
  that is not empty.

## Model

| member | source | states |
|---|---|---|
| `MeasurementReplay.LogReplaysToRegisters` | src/adapters/tpm2_esys/pcr/esys_pcr_provider.cpp:62-193 | In every run of operations against a conforming TPM whose active banks are all known, or in which no event is lost on an unknown one, the register of each active enabled bank equals the fold of its hash over the digests that the observer recorded for that PCR since its last successful reset |
| `MeasurementReplay.LogReplaysExactly` | src/adapters/tpm2_esys/pcr/esys_pcr_provider.cpp:62-103 | At every moment of a run the log explains those registers, if and only if no event is executed while an unknown bank is active that changes one of them |
| `MeasurementReplay.UnknownBankBreaksReplay` | src/adapters/tpm2_esys/pcr/esys_pcr_provider.cpp:91-94 | A concrete TPM with an SM3 bank, and a run of one event after which the log no longer explains the registers |
| `MeasurementReplay.MixedChipHasBackend` | src/adapters/tpm2_esys/pcr/esys_pcr_provider.cpp:91-94 | That TPM is a conforming one |
| `MeasurementReplay.EventReplyDecodes` | src/adapters/tpm2_esys/pcr/pcr_marshalling.cpp:154-178 | The reply to an executed event decodes exactly if all active banks are known, and then to the digests of the enabled ones |
| `MeasurementReplay.EventCalls` | src/adapters/tpm2_esys/pcr/esys_pcr_provider.cpp:62-103 | An event succeeds exactly if it is executed and all active banks are known; it extends the known banks whenever it is executed |
| `MeasurementReplay.TrackedRunIsRun` | src/adapters/tpm2_esys/pcr/esys_pcr_provider.cpp:30-269 | The run whose log replays is the run whose discipline `RunDiscipline` states |
| `ReadRefinement.ReadReturnsReplay` | tests/integration/tpm2_esys/pcr_integration_test.cpp:113-122 | After any run in which no event is lost on an unknown bank, every value a read returns is the replay of the observer's log for its index |
| `ReadRefinement.ReadReturnsRegisters` | src/adapters/tpm2_esys/pcr/esys_pcr_provider.cpp:135-174 | A read fails exactly when the TPM refuses it; otherwise its selection is a subset of the request, its values are as many as that selection's indices, and the k-th value is the register of the k-th smallest index, and the update counter is the TPM's |
| `ReadRefinement.ReplySelectionDecodes` | src/adapters/tpm2_esys/pcr/pcr_marshalling.cpp:211-253 | The selection of a conforming reply decodes to the set of PCRs served |
| `ReadRefinement.ReplyValuesDecode` | src/adapters/tpm2_esys/pcr/pcr_marshalling.cpp:180-209 | The digests of a conforming reply align with the served indices in ascending order |
| `MeasurementReplay.PackedExtend` | src/adapters/tpm2_esys/pcr/pcr_marshalling.cpp:269-279 | Executing a packed digest list extends exactly the addressed register of each bank by that bank's digests, in order, and no other register |
| `MeasurementReplay.EventListDecodes` | src/adapters/tpm2_esys/pcr/pcr_marshalling.cpp:154-178 | The digests of an event always decode, to those of the enabled banks |
| `MeasurementReplay.DroppedDigestsDoNotMatter` | src/adapters/tpm2_esys/pcr/pcr_marshalling.cpp:66-69 | Dropping disabled SHA-1 digests does not change the replay of an enabled bank |
| `MeasurementReplay.ReadingCallsChangeNothing` | src/adapters/tpm2_esys/pcr/esys_pcr_provider.cpp:135-174 | However many calls are made, registers change only through executed extends, events and resets |
| `TpmDevice.RegistersKeepShape` | src/adapters/tpm2_esys/pcr/esys_pcr_provider.cpp:105-133 | Every history of commands leaves each register of each active bank with a digest of the bank's size |
| `ProviderDiscipline.OperationDiscipline` | src/adapters/tpm2_esys/pcr/esys_pcr_provider.cpp:30-269 | For every operation, state and backend: rejected input leaves everything untouched; a refused call gives one error record with its code and category, a malformed reply none, a success one completion record; the observer hears of exactly the successful extends and events; what the operation releases is exactly what its own calls handed out |
| `ProviderDiscipline.RunDiscipline` | src/adapters/tpm2_esys/pcr/esys_pcr_provider.cpp:30-269 | Over every run: buffers released are exactly the buffers handed out, the observer's log is the list of successful measurements, completion records count the successes, and error records list the refused codes in call order |
| `ProviderDiscipline.NothingIsReleasedTwice` | src/adapters/tpm2_esys/pcr/esys_pcr_provider.cpp:76-89 | No buffer is released twice in a run |
| `ProviderProtocol.OperationsFollowTable` | src/adapters/tpm2_esys/pcr/esys_pcr_provider.cpp:30-269 | For every accepted operation, state and backend: it makes the calls of its row, in order and until one is refused; a refusal is logged under that call's name and returned translated; a reply that is not understood is complained about by name and not logged; anything else is logged as the completion that the reply calls for; then come the notice to the observer and the releases, values before selection |
| `ProviderProtocol.RejectionsAreNamed` | src/adapters/tpm2_esys/pcr/pcr_validation.cpp:12-108 | Input is turned down exactly with the error that the list of checks names, a missing context first, and then the operation does nothing at all |
| `ProviderProtocol.EventIsUnderstood` | src/adapters/tpm2_esys/pcr/pcr_marshalling.cpp:154-178 | An event's digests fail to decode for exactly two reasons, each with its message, and otherwise as many decode as are enabled here |
| `ProviderProtocol.SelectionIsUnderstood` | src/adapters/tpm2_esys/pcr/pcr_marshalling.cpp:211-253 | Every selection list, of whatever count, decodes to its bank and bits, or to the first of five complaints |
| `ProviderProtocol.ValuesAreUnderstood` | src/adapters/tpm2_esys/pcr/pcr_marshalling.cpp:180-209 | Every digest list decodes to as many values as indices, or to the first of three complaints |
| `TpmSettings.SettingsFollowRun` | src/adapters/tpm2_esys/pcr/esys_pcr_provider.cpp:30-269 | After every run, each bank's stored allocation, each PCR's policy and authorization value and the value presented for it are those that the operations of the run asked for and got, the last of them last |
| `TpmSettings.OperationSets` | src/adapters/tpm2_esys/pcr/esys_pcr_provider.cpp:195-269 | Each operation changes the settings of exactly the listed banks or the one PCR; an authorization value is set once the second of three calls is executed, and a success leaves it both in the TPM and presented by ESYS |
| `TpmSettings.AllocateAnswers` | src/adapters/tpm2_esys/pcr/esys_pcr_provider.cpp:42-59 | An accepted allocation fails exactly if it is refused, and otherwise returns the TPM's answer |
| `TpmSettings.OnlyEmptyValuesAreSet` | src/adapters/tpm2_esys/pcr/esys_pcr_provider.cpp:241-267 | A TPM that checks authorization refuses to set the value of a PCR whose value is not empty |
| `TpmSettings.ValuesNeverChange` | src/adapters/tpm2_esys/pcr/pcr_validation.cpp:90-99 | So no run against such a TPM changes any authorization value |
| `EsysPcrProvider.Provider.AllocateBanks` | src/adapters/tpm2_esys/pcr/esys_pcr_provider.cpp:30-60 | Checks the bank list before anything else, packs it, calls once, then either logs and returns the translated error or logs completion and returns the TPM's answer; the state after it is the one that `OperationDiscipline` is about |
| `EsysPcrProvider.Provider.RecordEvent` | src/adapters/tpm2_esys/pcr/esys_pcr_provider.cpp:62-103 | On every path the digests buffer is freed last, and only if there is one; the digests logged, reported to the observer and returned are the same decoded list; the observer's records stay equal to the notifications |
| `EsysPcrProvider.Provider.ExtendPcr` | src/adapters/tpm2_esys/pcr/esys_pcr_provider.cpp:105-133 | The digests sent are the packed input, the digests reported are the input itself, and they are reported only after success |
| `EsysPcrProvider.Provider.ReadPcrs` | src/adapters/tpm2_esys/pcr/esys_pcr_provider.cpp:135-174 | Both buffers are freed on every path, values before selection; the result pairs the decoded selection with values decoded against that selection, not against the request |
| `EsysPcrProvider.Provider.ResetPcr` | src/adapters/tpm2_esys/pcr/esys_pcr_provider.cpp:176-193 | One call, one record, and no notification of the observer |
| `EsysPcrProvider.Provider.SetPolicy` | src/adapters/tpm2_esys/pcr/esys_pcr_provider.cpp:195-221 | The policy digest is sent zero-padded with the code of its algorithm, after the size check that makes the packing safe |
| `EsysPcrProvider.Provider.SetAuth` | src/adapters/tpm2_esys/pcr/esys_pcr_provider.cpp:223-269 | Three calls in order, each made only if the one before succeeded, with an error record naming the one that failed; non-empty values never reach the backend; `ProviderProtocol` and `TpmSettings` say what the calls are and set |
| `InMemoryPcrObserver.EntriesPartition` | src/adapters/mock/in_memory_pcr_observer.cpp:44-52 | The per-index logs partition the measurement log, with multiplicity |
| `InMemoryPcrObserver.Observer.EntriesOf` | src/adapters/mock/in_memory_pcr_observer.cpp:44-52 | Filtering copies the records of one index in order |
| `InMemoryPcrObserver.Observer.OnExtend` | src/adapters/mock/in_memory_pcr_observer.cpp:65-73 | An extend appends one record |
| `InMemoryPcrObserver.Observer.OnEvent` | src/adapters/mock/in_memory_pcr_observer.cpp:54-63 | An event appends one record |
| `PcrMarshalling.SelectionRoundTrip` | src/adapters/tpm2_esys/pcr/pcr_marshalling.cpp:292-309 | Every selection, the empty one included, survives the trip to the TPM structure and back |
| `PcrMarshalling.SelectionReencodes` | src/adapters/tpm2_esys/pcr/pcr_marshalling.cpp:211-253 | A one-entry TPM selection is accepted exactly when its hash is known and its size at most 4, and then re-encodes to the same bits within its size, zeros beyond, and the canonical size |
| `PcrMarshalling.CanonicalSizeFitsLargestIndex` | src/adapters/tpm2_esys/pcr/pcr_marshalling.cpp:21-25 | The canonical size is the maximum of 3 and the size that the largest index needs |
| `PcrMarshalling.ToTpmSelection` | src/adapters/tpm2_esys/pcr/pcr_marshalling.cpp:292-309 | Setting bits in place while raising the size yields the bitmap of the set and its canonical size |
| `PcrMarshalling.ToDomainSelection` | src/adapters/tpm2_esys/pcr/pcr_marshalling.cpp:211-253 | No entry gives the empty selection of the fallback algorithm, several are refused, and an unknown hash is reported before a bad size |
| `PcrMarshalling.CollectIndices` | src/adapters/tpm2_esys/pcr/pcr_marshalling.cpp:235-250 | The nested loops collect exactly the denoted set; the exit for an invalid index is dead |
| `PcrBitmap.BitmapDenotes` | src/adapters/tpm2_esys/pcr/pcr_marshalling.cpp:304-305 | The bitmap of a set denotes that set |
| `PcrBitmap.DenotedSetHasBitmap` | src/adapters/tpm2_esys/pcr/pcr_marshalling.cpp:236-250 | Any bitmap is, within the bytes that count, the bitmap of the set it denotes |
| `PcrBitmap.SelectIndex` | src/adapters/tpm2_esys/pcr/pcr_marshalling.cpp:300-306 | Setting the bit of an index turns the bitmap of a set into the bitmap of the set with that index |
| `PcrBitmap.SetBit` | src/adapters/tpm2_esys/pcr/pcr_marshalling.cpp:304-305 | In the bitmap of a set, adding an index sets one bit of one byte and touches no other |
| `PcrBitmap.BitIsShiftedOne` | src/adapters/tpm2_esys/pcr/pcr_marshalling.cpp:304-305 | The bit of a number is one shifted left by that number |
| `PcrMarshalling.AlgorithmsCorrespond` | src/adapters/tpm2_esys/pcr/pcr_marshalling.cpp:102-142 | The two algorithm maps are inverse on exactly the enabled algorithms |
| `PcrMarshalling.DigestListRoundTrip` | src/adapters/tpm2_esys/pcr/pcr_marshalling.cpp:269-279 | Every digest list of at most 16 entries survives the trip to the TPM structure and back |
| `PcrMarshalling.DigestFilterLaw` | src/adapters/tpm2_esys/pcr/pcr_marshalling.cpp:154-178 | On arbitrary entries decoding fails exactly when an entry that is not dropped has an unknown algorithm; otherwise it is the order-preserving filter that drops disabled SHA-1 and nothing else |
| `PcrMarshalling.ToTpmDigestValues` | src/adapters/tpm2_esys/pcr/pcr_marshalling.cpp:269-279 | Filling the 16-entry array in place yields the packed list, unused entries zero |
| `PcrMarshalling.ToDomainDigests` | src/adapters/tpm2_esys/pcr/pcr_marshalling.cpp:154-178 | The loop with its early exit computes the decoding, a count above 16 being refused |
| `PcrMarshalling.ToDomainReadValues` | src/adapters/tpm2_esys/pcr/pcr_marshalling.cpp:180-209 | The loop pairs the k-th digest with the k-th smallest index, and fails in the code's order of checks |
| `PcrMarshalling.ToTpmAllocation` | src/adapters/tpm2_esys/pcr/pcr_marshalling.cpp:255-267 | One entry for each bank, in order, the rest zero |
| `PcrMarshalling.AllocationSelectsEveryPcr` | src/adapters/tpm2_esys/pcr/pcr_marshalling.cpp:92-98 | Every entry of an allocation decodes to its bank and to PCRs 0 to 23 |
| `PcrMarshalling.SelectAllPcrs` | src/adapters/tpm2_esys/pcr/pcr_marshalling.cpp:92-98 | Three full bytes and a zero |
| `PcrMarshalling.CopyBytes` | src/adapters/tpm2_esys/pcr/pcr_marshalling.cpp:71-90 | Copying overwrites the front of the destination and leaves the rest |
| `PcrMarshalling.ToTpmEvent` | src/adapters/tpm2_esys/pcr/pcr_marshalling.cpp:281-290 | The event buffer holds the data followed by zeros, and the size is the data's length |
| `PcrMarshalling.ToTpmSizedDigest` | src/adapters/tpm2_esys/pcr/pcr_marshalling.cpp:311-320 | The digest buffer holds the bytes followed by zeros, and the size is their number |
| `PcrTypes.DigestSizeIsInName` | src/domain/hash_algorithm.cpp:24-40 | A digest has as many bits as its algorithm's name says, SHA-1 having 160 |
| `PcrTypes.AscendingIsOrdered` | src/adapters/tpm2_esys/pcr/pcr_marshalling.cpp:196-206 | The iteration order of an index set lists each member once, ascending |
| `PcrTypes.AscendingIsUnique` | src/adapters/tpm2_esys/pcr/pcr_marshalling.cpp:196-206 | There is only one ascending enumeration of a set |
| `PcrValidation.EnsureBankCount` | src/adapters/tpm2_esys/pcr/pcr_validation.cpp:12-31 | The loop over a growing set accepts exactly the non-empty distinct lists of at most 16 banks, with the code's error for each other case |
| `PcrValidation.EnsureDigestCount` | src/adapters/tpm2_esys/pcr/pcr_validation.cpp:33-53 | The loop over a growing set accepts exactly the non-empty digest lists of at most 16 entries with pairwise distinct algorithms, with the code's error for each other case |
| `PcrValidation.EnsurePolicyDigestSize` | src/adapters/tpm2_esys/pcr/pcr_validation.cpp:74-88 | A policy digest is accepted exactly when its algorithm is enabled and its length is the digest size; the final size check cannot fail |
| `PcrValidation.EnsureSecureAuthValueTransport` | src/adapters/tpm2_esys/pcr/pcr_validation.cpp:90-99 | Only the empty authorization value is accepted |
| `PcrValidation.DistinctListsAreShort` | src/adapters/tpm2_esys/pcr/pcr_validation.cpp:44-50 | By pigeonhole a distinct list has at most four entries, three without SHA-1 |
| `PcrValidation.AcceptedDigestsPackLosslessly` | src/adapters/tpm2_esys/pcr/pcr_validation.cpp:33-53 | A digest list is accepted exactly when it is non-empty and distinct, and then packs without loss |
| `PcrValidation.AcceptedBanksPackLosslessly` | src/adapters/tpm2_esys/pcr/pcr_validation.cpp:12-31 | A bank list is accepted exactly when it is non-empty and distinct, and then every bank can be read back off the packed allocation |
| `FakeTcti.RunsKeepInvariant` | src/adapters/mock/fake_tcti.cpp:229-281 | In every interleaving: items pushed are the items removed, in order, followed by the pending queue; a receive removes the item it had copied; responses and failures go to receives, transmit failures to transmits; delivered bytes are the scripted ones |
| `FakeTcti.SecondRegionIsSafe` | src/adapters/mock/fake_tcti.cpp:270-280 | With one receiver, the front item in the second locked region is the one copied in the first, the queue is not empty there, and the bad-sequence exit is never taken |
| `FakeTcti.ResponseConsumption` | src/adapters/mock/fake_tcti.cpp:80-101 | A response is consumed exactly by a receive that can take all of it; size queries and short buffers leave it and report its size; a missing size pointer and a short buffer have their own codes, anything else succeeds |
| `FakeTcti.FailingReceives` | src/adapters/mock/fake_tcti.cpp:229-264 | Without owner or script a receive fails with its own code and touches nothing; a failure is consumed, returned and zeroes the size; a transmit failure is refused and stays |
| `FakeTcti.TransmitAnswers` | src/adapters/mock/fake_tcti.cpp:316-336 | A transmit is answered by the front item alone: an I/O error for none, its code for a transmit failure, success for anything else |
| `FakeTcti.CountersCount` | src/adapters/mock/fake_tcti.cpp:316-342 | In every interleaving the recorded commands are those transmitted, in order, the counters count transmits and finalizes, and the owner is there until one finalize detaches it |
| `FakeTcti.RoundFollowsScriptExactly` | src/adapters/mock/fake_tcti.cpp:316-336 | A transmit, query, receive round consumes exactly the front item and reports what it scripts, if and only if that item is not a failure with code zero |
| `FakeTcti.RoundConsumesOneExactly` | src/adapters/mock/fake_tcti.cpp:229-281 | The exact condition on the queue under which a round consumes one item, whatever it reports |
| `FakeTcti.RoundsFollowScriptExactly` | src/adapters/mock/fake_tcti.cpp:229-281 | n rounds consume exactly the first n items and report what these script, each factory being given its own round's command, if and only if none of them is a failure with code zero; as many rounds as items then drain the queue |
| `FakeTcti.AheadForEver` | src/adapters/mock/fake_tcti.cpp:243-250 | Rounds that have once run ahead of the script by failures with code zero never fall back in step |
| `FakeTcti.SilentRound` | src/adapters/mock/fake_tcti.cpp:329-335 | A round that reports a failure with code zero has consumed two or three such failures |
| `TctiClient.RoundsServePushesInOrder` | include/tpmkit/testing/fake_tcti.h:46-48 | In every interleaving of one client's locked regions with pushes and inspections, as long as no removed item has code zero: the n-th round that found an item ends as the n-th pushed item scripts for its command, and the queue is what was pushed less one item for each such round |
| `TctiClient.RoundsServePushesExactly` | src/adapters/mock/fake_tcti.cpp:229-281 | At every moment of every session the rounds have served the pushed items in order if and only if none of the items removed so far is a failure with code zero |
| `TctiClient.PretendersPutOutOfStep` | src/adapters/mock/fake_tcti.cpp:243-250 | Once a failure with code zero is removed, either a round has ended otherwise than its item scripts, or more items are removed than rounds have ended, and it stays so for ever |
| `TctiClient.RemovalsMatchRounds` | src/adapters/mock/fake_tcti.cpp:229-281 | Under the same condition the n-th item ever removed is the n-th pushed, and there is one removal for each such round |
| `TctiClient.SessionIsRun` | src/adapters/mock/fake_tcti.cpp:229-281 | A session of the client is one of the runs that `FakeTcti.RunsKeepInvariant` is about |
| `FakeTcti.ZeroFailureSwallowsTwo` | src/adapters/mock/fake_tcti.cpp:329-335 | A concrete script on which a round consumes two items: a zero transmit failure before a response |
| `FakeTcti.Tcti.Push` | src/adapters/mock/fake_tcti.cpp:143-166 | A push appends one item |
| `FakeTcti.Tcti.PendingResponses` | src/adapters/mock/fake_tcti.cpp:131-135 | The number of items still in the queue |
| `FakeTcti.Tcti.OnTransmit` | src/adapters/mock/fake_tcti.cpp:301-336 | Null arguments are refused, anything else is counted and recorded; only a transmit failure at the front is consumed |
| `FakeTcti.Tcti.CopyFront` | src/adapters/mock/fake_tcti.cpp:235-264 | The first locked region consumes a failure, refuses a transmit failure without consuming it, and copies a response together with the last command |
| `FakeTcti.Tcti.PopFront` | src/adapters/mock/fake_tcti.cpp:266-280 | The second locked region is entered only after a complete copy and removes the front item |
| `FakeTcti.Tcti.OnReceive` | src/adapters/mock/fake_tcti.cpp:214-281 | A receive that nothing interleaves with is the two regions one after the other |
| `FakeTcti.Tcti.OnFinalize` | src/adapters/mock/fake_tcti.cpp:190-201 | Finalizing counts if there is an owner and then detaches; in runs these are two steps that others may come between |
| `TpmContext.ContextsLiveWell` | src/adapters/tpm2_esys/context/tpm_context.cpp:247-355 | In every run of creations through both entry points, moves, move assignments and destructions, at every moment: a creation has at most one owner; while owned nothing of it is released and five documented events are logged; afterwards everything it acquired is released, in order |
| `TpmContext.EverythingIsReleasedOnce` | src/adapters/tpm2_esys/context/tpm_context.cpp:324-355 | When all contexts are gone, the TCTI handle, the ESYS context and the loader info of each creation were released exactly as often as acquired, at most once for the handles and exactly once for a TCTI handle given with a deleter, and its log is a prefix of the six documented events, optionally closed by one error |
| `TpmContext.EsysAlwaysGoesFirst` | src/adapters/tpm2_esys/context/impl.h:50-55 | At every moment of every run, a released TCTI handle has no unfinalised ESYS context, and none is finalised later |
| `TpmContext.ConfigCreationLivesWell` | src/adapters/tpm2_esys/context/tpm_context.cpp:273-291 | Whatever the loader and ESYS return, a creation from a string that fails has released what it acquired, and one that succeeds holds both handles and has logged five events |
| `TpmContext.OwnedCreationLivesWell` | src/adapters/tpm2_esys/context/tpm_context.cpp:293-320 | Whatever ESYS returns, a creation around an owned handle releases what it acquired or holds it, except exactly when a handle without deleter comes with an invalid mode, which is exactly when a null deleter is called |
| `TpmContext.NullDeleterIsCalled` | src/adapters/tpm2_esys/context/tpm_context.cpp:298-300 | A concrete input on which a null deleter is called |
| `TpmContext.CreationSucceedsExactly` | src/adapters/tpm2_esys/context/tpm_context.cpp:192-226 | A context comes into being exactly when input and every foreign call succeed, already-initialised counting as started and a skipped startup as nothing to ask |
| `ContextReports.CreationReports` | src/adapters/tpm2_esys/context/tpm_context.cpp:145-320 | For both entry points and all foreign results: a creation that passes all checks yields the context ESYS handed out; one that fails returns the error of the first check that fails, which for a refused size query, second initialisation, Esys_Initialize or Esys_Startup is the translation of that very code; log, loader query and startup command are those up to that check, followed by one record of the code if it was one |
| `ContextReports.OneCheckDecides` | src/adapters/tpm2_esys/context/tpm_context.cpp:273-320 | There is always a first check that fails, or all pass |
| `ContextReports.EachHandleHasItsOwnRelease` | src/adapters/tpm2_esys/context/tcti_loader.cpp:84-100 | At every moment of every run loader storage is released only by the loader, and according to what its initialisation left, a caller's handle only by its deleter, and an ESYS context is finalised only if one was handed out |
| `ContextReports.ForgottenExactly` | src/adapters/tpm2_esys/context/tpm_context.cpp:307-311 | A handle is given up without release exactly if it has no deleter and the mode is valid |
| `TpmContext.LoaderReleasesOnce` | src/adapters/tpm2_esys/context/tcti_loader.cpp:165-199 | For all results of the loader's calls and both behaviours of finalising: info is freed once per query; allocated storage is released once by a failing load and not at all by a succeeding one |
| `TpmContext.TeardownSettles` | src/adapters/tpm2_esys/context/tpm_context.cpp:330-334 | The destructor completes the log and releases both handles, ESYS first |
| `TpmContext.FromTctiLivesWell` | src/adapters/tpm2_esys/context/tpm_context.cpp:247-266 | From a configured handle, every failure of ESYS finalises what was made and then releases the handle |
| `TpmContext.Factory.Load` | src/adapters/tpm2_esys/context/tcti_loader.cpp:165-199 | Frees loader info before looking at the query's result, allocates between the two initialisations, and releases the storage of a failed initialisation after logging its error |
| `TpmContext.Factory.AllocateLoaderContext` | src/adapters/tpm2_esys/context/tcti_loader.cpp:118-144 | Fails on a refused size query, a zero size or a failed allocation, logging only the first; otherwise storage is acquired |
| `TpmContext.Factory.ReleaseFailed` | src/adapters/tpm2_esys/context/tcti_loader.cpp:89-100 | Finalises once, then frees the storage exactly if finalising has left it |
| `TpmContext.Factory.Initialize` | src/adapters/tpm2_esys/context/tpm_context.cpp:168-190 | A refused initialisation is logged and acquires nothing; a successful one logs even if no context was handed out |
| `TpmContext.Factory.Start` | src/adapters/tpm2_esys/context/tpm_context.cpp:192-226 | Logs the invocation first; a skipped startup calls nothing and completes, an already initialised TPM completes with its own result, any other code is an error |
| `TpmContext.Factory.FromTcti` | src/adapters/tpm2_esys/context/tpm_context.cpp:247-266 | On both failure exits ESYS is finalised if it was made, and the TCTI handle is released last |
| `TpmContext.Factory.FromConfig` | src/adapters/tpm2_esys/context/tpm_context.cpp:273-291 | An invalid mode leaves no trace; the sanitised name is logged before loading and again after success |
| `TpmContext.Factory.FromOwned` | src/adapters/tpm2_esys/context/tpm_context.cpp:293-320 | Mode, presence and deleter are checked in this order, and a handle without deleter is forgotten, not released |
| `TpmContext.Impl.Destroy` | src/adapters/tpm2_esys/context/tpm_context.cpp:330-334 | Destruction appends exactly the teardown that `TeardownSettles` is about |
| `TpmContext.Context.Move` | src/adapters/tpm2_esys/context/tpm_context.cpp:353-353 | Move construction hands the implementation over untouched and leaves the source empty |
| `TpmContext.Context.MoveAssign` | src/adapters/tpm2_esys/context/tpm_context.cpp:355-355 | Move assignment tears down exactly the overwritten implementation, hands the other over untouched, and does nothing on self-assignment |
| `TpmContext.Context.Destroy` | src/adapters/tpm2_esys/context/tpm_context.cpp:351-351 | Destroying a context tears down its implementation, if it has one |
| `ContextRefinement.MoveAssign` | src/adapters/tpm2_esys/context/tpm_context.cpp:355-355 | On a heap of contexts that stands for an abstract world, move assignment of one object to another, or to itself, leaves a heap that stands for the world after the abstract step |
| `ContextRefinement.MoveConstruct` | src/adapters/tpm2_esys/context/tpm_context.cpp:353-353 | So does move construction |
| `ContextRefinement.Destroy` | src/adapters/tpm2_esys/context/tpm_context.cpp:351-351 | So does destruction, with the teardown as the resource's death |
| `ContextRefinement.Create` | src/adapters/tpm2_esys/context/tpm_context.cpp:263-265 | Running either entry point of the factory on any input takes the heap to one that stands for the world after the abstract creation; the factory's own ledger, whether it failed or yielded a context, is the resource's part of the abstract ledger |
| `ContextRefinement.Run` | src/adapters/tpm2_esys/context/tpm_context.cpp:247-359 | Executing any list of creations, moves and destructions on the heap, from nothing, leaves a heap that stands for the world after the abstract run |
| `ContextRefinement.HeapLivesWell` | src/adapters/tpm2_esys/context/tpm_context.cpp:247-359 | On such a heap every implementation with an owner has released nothing, and every one without has released all it acquired, in order |
| `Lifecycle.MonitorCounts` | src/adapters/tpm2_esys/context/impl.h:50-55 | An in-order life acquires and releases each handle at most once, and the monitor's phases are those counts |
| `Lifecycle.MonitorLog` | tests/unit/tpm2_esys/tpm_context_lifecycle_test.cpp:276-301 | The log of an in-order life is a prefix of the six documented events, optionally closed by one error |
| `Lifecycle.EsysGoesFirst` | src/adapters/tpm2_esys/context/impl.h:50-55 | In an in-order life, at the release of a TCTI handle every ESYS context is finalised, and none is made or finalised afterwards |
| `Lifecycle.SettledMeansOnce` | src/adapters/tpm2_esys/context/tpm_context.cpp:330-334 | A settled life has released everything exactly once |
| `Lifecycle.OrderedNeverCallsNull` | src/adapters/tpm2_esys/context/tpm_context.cpp:307-311 | An in-order life never calls a null deleter |
| `UniqueOwner.RunsKeepInvariant` | src/adapters/tpm2_esys/context/tpm_context.cpp:351-359 | In every run of defaulted moves and destructions a resource has at most one owner, and its part of the ledger is its birth, followed by its death once it has none |
| `UniqueOwner.EverythingIsDisposed` | src/adapters/tpm2_esys/context/tpm_context.cpp:351-359 | When all holders are gone every resource has lived its whole life exactly once |
| `UniqueOwner.PlansComeFromOps` | src/adapters/tpm2_esys/context/tpm_context.cpp:357-359 | Every resource was made by one creation of the run |
| `HeldObjects.MoveAssignMatches` | src/adapters/tpm2_esys/context/tpm_context.cpp:355-355 | If pointers and ledgers of a heap match a world of unique owners, those after a move assignment match the world after it |
| `HeldObjects.DestroyMatches` | src/adapters/tpm2_esys/context/tpm_context.cpp:351-351 | If pointers and ledgers match before a destruction they match after it: only the dropped resource's ledger grows, by its death |
| `HeldObjects.LinkedApart` | src/adapters/tpm2_esys/context/tpm_context.cpp:357-359 | No two holders ever point to the same implementation |
| `TctiStrings.FakeAgreesWithReal` | src/adapters/mock/fake_tpm_context.cpp:61-73 | For every string and mode the fake context and the real path's checks give the same verdict and error, the mode's first, and it is acceptance exactly for valid modes and bare-ended strings with a colon that is not in front |
| `TctiStrings.AcceptedStrings` | src/adapters/tpm2_esys/context/tcti_loader.cpp:62-82 | The string check, said without trimming |
| `TctiStrings.SanitizedNameIsSafe` | src/adapters/tpm2_esys/context/tpm_context.cpp:56-72 | A name is logged exactly for accepted strings, and it is a known module name or a placeholder |
| `TctiStrings.SanitizedNameExactly` | src/adapters/tpm2_esys/context/tpm_context.cpp:51-72 | A known name is logged exactly for accepted strings that start with it and a colon, hence the placeholder for all others |
| `TctiStrings.TrimView` | src/adapters/tpm2_esys/context/tcti_loader.cpp:34-48 | The two loops compute the trimmed string |
| `TctiStrings.TrimIsTrim` | src/adapters/tpm2_esys/context/tcti_loader.cpp:34-48 | Trimming leaves a bare-ended slice between white space |
| `TctiStrings.TrimIsLongest` | src/adapters/mock/fake_tpm_context.cpp:18-32 | No bare-ended slice is longer |
| `TctiStrings.TrimKeepsBareEnds` | src/adapters/tpm2_esys/context/tcti_loader.cpp:71-74 | The length is unchanged exactly when both ends are bare |
| `TctiStrings.FakeContext.Create` | src/adapters/mock/fake_tpm_context.cpp:86-94 | The fake context is created exactly for accepted input and stores the whole configuration |
| `TctiStrings.FakeContext.CreateFromParts` | src/adapters/mock/fake_tpm_context.cpp:96-105 | The entry point with separate arguments accepts the same input and stores all three of them |
| `EscapeValue.FieldListDecodes` | src/adapters/logging/stdio/stdio_logger.cpp:242-247 | Parsing a rendered field list returns the list exactly when no key contains `=` |
| `EscapeValue.RenderingIsInjective` | src/adapters/logging/stdio/stdio_logger.cpp:242-247 | Field lists with `=`-free keys that render alike are equal |
| `EscapeValue.EqualsInKeyIsAmbiguous` | src/adapters/logging/stdio/stdio_logger.cpp:244-246 | Two different lists with the same text |
| `EscapeValue.EscapeIsInjective` | src/adapters/common/escape_value.h:12-53 | Different values have different escaped forms |
| `EscapeValue.EscapedStaysOnLine` | src/adapters/common/escape_value.h:12-53 | An escaped value has no character below 0x20 and at most 4n + 2 characters; it is the value itself or at least two longer |
| `EscapeValue.PlainExactly` | src/adapters/common/escape_value.h:14-25 | A value is written as it is exactly when no character is below 0x20 or one of space, equals sign, double quote and backslash |
| `EscapeValue.SeparatorsAreOutside` | src/adapters/logging/stdio/stdio_logger.cpp:242-247 | In a rendered list with `=`-free keys, the equals signs outside quotes are the separators of the fields, and the spaces outside quotes start fields or belong to keys |
| `EscapeValue.EscapeIsShortest` | src/adapters/common/escape_value.h:27-51 | No text on one line that decodes to a value is shorter than the value's escaped form |
| `EscapeValue.EscapeAddsNoCapitals` | src/adapters/common/escape_value.h:42-46 | Hex escapes are in lower case |
| `EscapeValue.EscapeToText` | src/adapters/common/escape_value.h:12-53 | The two loops compute the escaped form |
| `EscapeValue.QuotedDecodes` | src/adapters/common/escape_value.h:27-51 | The inside of a quoted value decodes to the value, whatever follows its closing quote |
| `StdioLogger.Logger.Log` | src/adapters/logging/stdio/stdio_logger.cpp:208-253 | Whatever the buffer held, the destination stream gains exactly this call's line and a newline, the other stream nothing; a record without destination changes nothing. A stream grows exactly if the level is at least the minimum and the stream is the one for it, the error stream being for warnings and errors |
| `StdioLogger.Logger.Move` | src/adapters/logging/stdio/stdio_logger.cpp:177-186 | Move construction takes the settings and leaves the source without streams |
| `StdioLogger.Logger.MoveAssign` | src/adapters/logging/stdio/stdio_logger.cpp:188-206 | Move assignment does so too and clears the buffer; self-assignment does nothing |
| `StdioLogger.Logger.constructor` | src/adapters/logging/stdio/stdio_logger.cpp:170-173 | Null streams default to the process's own |
| `StdioLogger.Logger.AppendFields` | src/adapters/logging/stdio/stdio_logger.cpp:242-247 | The loop appends the rendered fields |
| `StdioLogger.LineBreaksExactly` | src/adapters/logging/stdio/stdio_logger.cpp:227-249 | A line contains exactly one newline, at its end, exactly when timestamp, message and keys contain none |
| `StdioLogger.MessageCanBreakLine` | src/adapters/logging/stdio/stdio_logger.cpp:240-240 | A concrete message whose record is more than one line |
| `StdioLogger.LineCarriesFields` | src/adapters/logging/stdio/stdio_logger.cpp:240-247 | After its head a line decodes to its fields exactly when their keys are free of `=` |
| `StdioLogger.LineDecodes` | src/adapters/logging/stdio/stdio_logger.cpp:227-247 | A line takes apart into the timestamp, the level's colour, its padded name, whether the colour is reset, and message with fields, exactly if the timestamp has no space; it is coloured as mode, NO_COLOR, FORCE_COLOR and the terminal say, in this order |
| `ConcurrentLogging.LogsAreSerialised` | src/adapters/logging/stdio/stdio_logger.cpp:208-253 | In every interleaving, whenever nobody holds the mutex each stream holds its old text followed by one whole line for each finished call that goes there, each a function of that call and the settings it met; and every thread's calls finish in program order |
| `ConcurrentLogging.ReadersSeeWholeLines` | src/adapters/logging/stdio/stdio_logger.cpp:249-249 | Whenever nobody holds the mutex a stream has only grown, and splitting its new text at newlines gives back exactly the records that went there, if and only if each of them is a single line |
| `ConcurrentLogging.StreamsGrowExactly` | src/adapters/logging/stdio/stdio_logger.cpp:213-220 | Whenever nobody holds the mutex a stream has grown exactly if some finished call had a level of at least the minimum it met and the stream was the one for that level |
| `ConcurrentLogging.MovedFromIsSilent` | src/adapters/logging/stdio/stdio_logger.cpp:177-186 | After its streams are moved to another logger nothing is written, whatever is logged, until it is given streams again |
| `ConcurrentLogging.CriticalSectionsAreExclusive` | src/adapters/logging/stdio/stdio_logger.cpp:212-212 | While a thread holds the mutex no other thread and no move makes a step |
| `ConcurrentLogging.RunsKeepInvariant` | src/adapters/logging/stdio/stdio_logger.cpp:208-253 | At every step, inside critical sections too, the buffer and the pending appends make up the holder's own line, and streams differ from whole lines by what the holder has written |
| `ConcurrentLogging.PiecesRender` | src/adapters/logging/stdio/stdio_logger.cpp:227-247 | The appends of a call, one after the other, make up its line |
| `ConcurrentLogging.LinesComeBack` | src/adapters/logging/stdio/stdio_logger.cpp:249-249 | Splitting what a history wrote to a stream gives back its records if and only if every record that went there is a single line |
| `ConcurrentLogging.NewlinesAreCounted` | src/adapters/logging/stdio/stdio_logger.cpp:249-249 | A history writes at least one newline for each record, and no more exactly if all of them are single lines |
| `ConcurrentLogging.SoloCallIsLog` | src/adapters/logging/stdio/stdio_logger.cpp:208-253 | A thread advanced alone from idle to its release leaves the buffer and the streams as one call of `StdioLogger.Logger.Log` does, a dropped record included |
| `ErrorTranslation.TranslateLayerBase` | src/adapters/tpm2_esys/support/error_translation.cpp:160-169 | Searching the 50-row table is the catalogue lookup that defaults to a backend error |
| `ErrorTranslation.Search` | src/adapters/tpm2_esys/support/error_translation.cpp:160-169 | The linear scan returns a matching row's category, or the default exactly when no row matches |
| `ErrorTranslation.KeysAreDistinct` | src/adapters/tpm2_esys/support/error_translation.cpp:48-99 | No two rows share a key |
| `ErrorTranslation.CatalogueIsInTable` | src/adapters/tpm2_esys/support/error_translation.cpp:48-99 | Every key with a category of its own is in the table |
| `ErrorTranslation.RowHasItsCategory` | src/adapters/tpm2_esys/support/error_translation.cpp:48-99 | Every row's category is the catalogue's |
| `ErrorTranslation.TpmRow` | src/adapters/tpm2_esys/support/error_translation.cpp:48-60 | All TPM-layer keys are fixed points of normalisation |
| `ErrorTranslation.NormalizationIsIdempotent` | src/adapters/tpm2_esys/support/error_translation.cpp:106-114 | Normalising twice is normalising once |
| `ErrorTranslation.CategoryIgnoresDecoration` | src/adapters/tpm2_esys/support/error_translation.cpp:101-124 | The category ignores bits 24 to 31 of a code and, for a format-one TPM code, bit 6 and bits 8 to 15 |
| `ErrorTranslation.CodesTranslate` | src/adapters/tpm2_esys/support/error_translation.cpp:250-262 | A code has the category of the row that is about it, whatever parameter, handle or session number decorates it, and is a backend error exactly if no row of another category is about it |
| `ErrorTranslation.ErrorsAreOneOfFour` | src/adapters/tpm2_esys/support/error_translation.cpp:30-40 | Callers see one of four errors, with one message for each category |
| `ErrorTranslation.SanitizedDescription` | src/adapters/tpm2_esys/support/error_translation.cpp:185-203 | A description has 1 to 128 printable characters and is the decoder's text with the others replaced; the second empty check is dead |
| `Hex.RoundTrips` | src/domain/encoding/hex.cpp:32-85 | Decoding undoes encoding for every byte string, and encoding a decoded text gives it back in lower case |
| `Hex.EncodeHex` | src/domain/encoding/hex.cpp:32-55 | Two lower-case digits for each byte, the high one first |
| `Hex.DecodeHex` | src/domain/encoding/hex.cpp:57-85 | Succeeds exactly on even-length text of hex digits, and reads it back in pairs |
| `Hex.HexFormIsInjective` | src/domain/encoding/hex.cpp:45-52 | A text is the hex form of at most one byte string |
| `SecretBuffer.SecretsAreErasedOnce` | src/domain/secret_buffer.cpp:129-139 | In every run of constructions, moves and destructions a secret has at most one owner; once it has none it was unlocked if it had been locked, then zeroed, then released, once each |
| `SecretBuffer.MovedFromIsEmpty` | src/domain/secret_buffer.cpp:137-139 | A moved-from buffer owns nothing, and its target owns what it had |
| `SecretBuffer.Impl.Clear` | src/domain/secret_buffer.cpp:104-117 | Clearing unlocks only what was locked and zeroes every byte; clearing twice does nothing more |
| `SecretBuffer.Impl.Destroy` | src/domain/secret_buffer.cpp:94-97 | Destruction appends exactly the rest of the secret's life |
| `SecretBuffer.Buffer.MoveAssign` | src/domain/secret_buffer.cpp:139-139 | Move assignment erases the overwritten secret and hands over the other; self-assignment does nothing |
| `SecretBuffer.Buffer.Destroy` | src/domain/secret_buffer.cpp:135-135 | Destroying a buffer erases its secret |
| `SecretBuffer.Buffer.Size` | src/domain/secret_buffer.cpp:146-153 | The size is zero for an empty or moved-from buffer |
| `SecretBuffer.Buffer.View` | src/domain/secret_buffer.cpp:155-162 | The view is the bytes, or nothing for an empty or moved-from buffer |
| `SecretRefinement.MoveAssign` | src/domain/secret_buffer.cpp:139-139 | On a heap of buffers that stands for an abstract world, move assignment leaves a heap that stands for the world after the abstract step |
| `SecretRefinement.MoveConstruct` | src/domain/secret_buffer.cpp:137-137 | So does move construction |
| `SecretRefinement.Destroy` | src/domain/secret_buffer.cpp:135-135 | So does destruction |
| `SecretRefinement.Create` | src/domain/secret_buffer.cpp:131-133 | So does construction from bytes, whether or not their memory can be locked |
| `SecretRefinement.CreateEmpty` | src/domain/secret_buffer.cpp:129-129 | So does the default constructor |
| `SecretRefinement.Run` | src/domain/secret_buffer.cpp:129-139 | Executing any list of constructions, moves and destructions on the heap, from nothing, leaves a heap that stands for the world after the abstract run |
| `SecretRefinement.HeapIsErased` | src/domain/secret_buffer.cpp:104-117 | On such a heap every secret without owner was unlocked if it had been locked, zeroed and released, once each |

## Left out

- The TSS libraries themselves (ESYS, the TCTI loader, `Tss2_RC_Decode`), OPENSSL_cleanse, mlock and munlock: foreign code; their results are parameters of the model.
- Session and authorization handles of backend calls: the code passes the same constants everywhere.
- Allocation failure and exceptions, including the `catch (...)` exits at noexcept boundaries: allocation succeeds, except for the checked `calloc` of the loader. So no observer record is dropped.
- A failing Esys_Initialize that nevertheless hands out a context: the code ignores the pointer, and the model has none.
- A third behaviour of Tss2_TctiLdr_Finalize on a failed initialisation, beyond freeing and clearing the pointer or leaving it.
- Field contents of lifecycle and PCR log records other than those named in `Lifecycle.LogEvent` and `EsysPcrProvider.LogRecord`, such as the ABI version and the textual error description, which `SanitizedDescription` covers on its own.
- The interleaving of two creations in one ledger: the events of one creation are adjacent, as its caller sees them; threads that create contexts at the same time are not modelled.
- The wall clock, the environment and terminal detection: a call carries its timestamp and the three facts that decide the colour. That a timestamp has no newline is a premise of the one-line theorems, not a theorem.
- Stream error states and several loggers that share one stream: a write appends, and one logger's mutex orders only its own writes.
- Moves of a logger are steps at moments when its mutex is free; the lock of the other logger is not part of the state.
- Destroying the fake TCTI while a callback that read its owner earlier is still to run, two concurrent receivers, and a response factory that itself calls receive: outside the documented usage of the fake TCTI.
- The fake TCTI's cancel, poll-handle and locality callbacks, which only check for null.
- Trailing zeros of authorization values, which a TPM ignores when it compares them: `TpmSettings` compares values as they are.
- Locality, PCR attributes and a reallocation taking effect at the next power-on: the TPM's own policy appears only as an arbitrary refusal code for each command.
- The spdlog adapter, whose field loop is that of the stdio logger; the mock provider, the recording and no-op loggers, result comparison and name lookups: easy facts only.
- Integer overflow of sizes beyond those that are cast: the casts of counts and sizes are in range by the capacity checks, and sizes of in-memory strings are unbounded here.

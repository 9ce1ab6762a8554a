# Proofs about messaging, calls and storage

This project models the parts of the repository that are hardest to get right, and proves what these parts
promise. `dafny verify dfyconfig.toml` checks all of it. Groups of files below share nothing except `Wrappers.dfy`.

**Key ratchet of ASMail** (`KeyMaterial`, `IdToEmail`, `CorrespondentRecord`, `PublishedKeys`, `Keyring`,
`RatchetProtocol`, `RatchetProofs`, `RatchetRuns`, `OvertakenMessage`, `SendingRuns`). Classes follow the code's
classes, and every method is proved against a function on a correspondent's record. Two parties then exchange messages over
a network that may lose, delay, reorder and repeat anything that was ever sent. A key is an abstract id, and a
shared key is the unordered pair of two ids. The slot that the code calls `old` is `retired` here.
It is proved for all runs: the pair under which a party sends is suggested or in use at the other party; a
message opens exactly when its pair is still in one of three slots; what it suggests is then always absorbed;
no pair and count are used twice; and pair ids that collide across correspondents do no harm. That a message can wait
while others overtake it is false in general: `OvertakenIsLost` is a run that shows it, and `AnyDelivery` has the exact
condition: the message's pair is more than one generation older than the pair now in use. `SendingRuns` has one record
and any suggestions from anyone: sending never goes back in time, and a pair and a count are used twice exactly when
suggestions let a pair come back after another one.

**Calls over IPC** (`IpcClient`, `IpcServices`, `IpcProtocol`, `IpcProofs`, `IpcRuns`, `IpcContents`). Two classes, the
system of both with two in-order channels, and what holds in all its runs: where a call is, that a function is invoked
once for a call, that a caller hears what its own call's function gave and nothing twice, and what stopping does.

**Splicing of a file in place** (`DeviceFile`, `DevFileSink`). Reads and writes may be short, and the buffer may
have any size. Content is related to a splice of a byte sequence. A splice after the end of a file with no bytes
to write changes tracked size without extending the file: `LeavesGap` is the exact condition of that, and
with it the condition of a later failure in moving bytes is exact, too.

**Algorithms on data**: matching of names against patterns (`NamePattern`); byte arrays in JSON trees
(`JsonValues` has trees as values, `JsonBinary` has the code's work on objects that change in place);
bit operators, big-endian integers and extended attributes (`Bits`, `BigEndian`, `XAttrs`).

**Writing of an object's file** (`ObjLayout`, `FileWriting`, `ObjFile`, `WritingProc`). Encrypted segments wait in a
buffer, and are put together into writes. Layout of the file tells which bytes are in the file, and where. For any
timing of saves it is proved that a run that goes well has each byte of segments where layout tells, and exactly once;
and, with a layout that suits segments, that a run fails exactly when a second header comes.

**Caches, schedulers and indexes**: the weak cache with a minimal life time, in runs with a garbage collector
(`WeakCaching`); queues of actions under ids (`SyncedProcs`); folders of objects (`ObjFolders`).

Where the code departs from what it seems to promise, the code is followed, the exact condition is proved, and an
input is given that shows it:

- a message is lost when others overtake it: condition in `AnyDelivery`, input in `OvertakenIsLost`;
- a splice leaves a gap, and a later one fails: condition in `Splice`, input in `GapFailsLaterSplice`;
- a call is left unsettled after attempts to renumber it: condition in `UnsettledWhenUsedUp`, input in
  `HundredDuplicatesLeaveUnsettled`;
- undefined fields are dropped by JSON text: condition in `RoundTrip`, input in `UndefinedIsLost`;
- a cut record of an attribute is not rejected: condition in `CutRecord`, input in `CutRecordIsAccepted`;
- a ratcheted pair and a count are used twice: condition in `UseRepeats`, inputs in `EqualTimesRepeatUse` and
  `EqualKeysRepeatUse`;
- a second header fails writing of a file: condition in `AssembleProc`, input in `SecondHeaderFails`; a layout without
  an end may be refused, when it comes after segments are saved: condition in `SetAndFreezeWith`, input in
  `LateLayoutIsRefused`;
- an id with nothing left for object's own folder makes and removes folders on the way to other objects: condition
  in `GetFolderAccessFor` and `RemoveFolderOf`, input in `BareIdTakesObject`; configuration's check keeps generated
  ids longer than that.

## Model

| member | source | states |
|---|---|---|
| IdToEmail.IdToEmailMap.GetEmails | ts-code/core/keyring/id-to-email-map.ts:40-44 | gives all addresses under an id, and says of no list only when there are none |
| IdToEmail.IdToEmailMap.AddPair | ts-code/core/keyring/id-to-email-map.ts:52-61 | adds one pair to the relation, keeps lists without repetitions, tells if the pair is new |
| IdToEmail.IdToEmailMap.AddPairs | ts-code/core/keyring/id-to-email-map.ts:67-71 | adds exactly pairs of given ids with an address |
| IdToEmail.IdToEmailMap.RemovePair | ts-code/core/keyring/id-to-email-map.ts:79-89 | takes exactly one pair out of the relation, the id itself stays in the map |
| IdToEmail.RemovedAt | ts-code/core/keyring/id-to-email-map.ts:79-89 | cutting one position out of a list without repetitions removes that element only |
| CorrespondentRecord.CorrespondentKeys.MapAllKeysIntoRing | ts-code/core/keyring/correspondent-keys.ts:225-237 | makes the index exact for this correspondent, and touches no other |
| CorrespondentRecord.CorrespondentKeys.SuggestPair | ts-code/core/keyring/correspondent-keys.ts:251-281 | reuses the suggested pair, or makes a new one under the code's conditions; the index stays exact |
| CorrespondentRecord.CorrespondentKeys.MarkPairAsInUse | ts-code/core/keyring/correspondent-keys.ts:302-314 | only the suggested pair moves, others move one slot on; the index stays exact, also for pids shared by slots |
| CorrespondentRecord.CorrespondentKeys.TryToRemovePIDsFromIndex | ts-code/core/keyring/correspondent-keys.ts:316-326 | pids of a dropped pair leave the index, except for those that live pairs have |
| CorrespondentRecord.CorrespondentKeys.RatchetUpSendingPair | ts-code/core/keyring/correspondent-keys.ts:351-385 | same and older suggestions change nothing, an unknown sender's key fails, others replace the sending pair |
| CorrespondentRecord.CorrespondentKeys.FindKey | ts-code/core/keyring/correspondent-keys.ts:333-344 | finds a reception key by its id in any of three slots |
| CorrespondentRecord.CorrespondentKeys.GetReceivingPair | ts-code/core/keyring/correspondent-keys.ts:392-413 | first slot with the pid, with its role |
| CorrespondentRecord.CorrespondentKeys.GetSendingPair | ts-code/core/keyring/correspondent-keys.ts:415-445 | intro or ratcheted pair for a message, with a count that is kept also when there are no pids; what is given is pinned by `SentUnderPair` |
| KeyMaterial.SuggestedWhenDue | ts-code/core/keyring/correspondent-keys.ts:251-281 | a suggested pair is suggested again; a new one is made exactly for an intro key, or for a sending pair that was used and is at least 15 minutes old |
| KeyMaterial.MarkedMovesSlots | ts-code/core/keyring/correspondent-keys.ts:302-314 | only the suggested pair is put in use, the one before it is retired, and the one before that is dropped |
| KeyMaterial.FoundInSlot | ts-code/core/keyring/correspondent-keys.ts:392-413 | a pair is found exactly when a slot has it, the suggested one first, and the retired one last |
| KeyMaterial.SentUnderPair | ts-code/core/keyring/correspondent-keys.ts:415-445 | a ratcheted message has the next count under its pair, an introductory one has count 1, each under its own key |
| KeyMaterial.TakenWithKnownKey | ts-code/core/keyring/correspondent-keys.ts:351-385 | a suggestion that is not older, and has other keys, replaces the sending pair exactly when this side has the key it is made for |
| KeyMaterial.OpenedFromOwner | ts-code/core/keyring/index.ts:389-454 | a message is opened exactly when this side has its key, and its sender, with a certified key, is the owner of keys; suggestion of any other message is not taken |
| PublishedKeys.PublishedIntroKey.Update | ts-code/core/keyring/published-intro-key.ts:161-170 | a new key becomes current, and no key is forgotten |
| PublishedKeys.PublishedIntroKey.RetireCurrent | ts-code/core/keyring/published-intro-key.ts:172-180 | current key goes to the end of previous ones |
| PublishedKeys.PublishedIntroKey.Find | ts-code/core/keyring/published-intro-key.ts:193-218 | finds exactly published keys, the current one first |
| Keyring.Keyrings.AddCorrespondent | ts-code/core/keyring/index.ts:118-133 | a new record, with pairs from a serial form in the index; an existing address is an error |
| Keyring.Keyrings.GenerateKeysToSend | ts-code/core/keyring/index.ts:189-214 | keys for a message, with a record that is made on first use; all other records are kept |
| Keyring.Keyrings.NextCrypto | ts-code/core/keyring/index.ts:216-226 | suggestion for a message, or an error for an unknown address; the index stays exact over the whole ring |
| Keyring.Keyrings.FindEstablishedReceptionPairs | ts-code/core/keyring/index.ts:262-283 | every record that has the pid is a candidate, and early exits are taken only when there is none |
| Keyring.Keyrings.DecryptMsgKeyWithEstablishedPair | ts-code/core/keyring/index.ts:285-336 | fails exactly when no record opens the message, and puts in use only a pair that opens it |
| Keyring.Keyrings.AbsorbSuggestedNextKeyPair | ts-code/core/keyring/index.ts:355-387 | absorbs a suggestion into one record, which may be a new one |
| Keyring.Keyrings.Decrypt | ts-code/core/keyring/index.ts:389-454 | a message is opened exactly when it says to be from the owner of keys that open it, and an introductory one has a certificate for its very key; a message that is not opened changes no sending pair, and an opened one changes only that of its sender |
| RatchetProofs.LookupFinds | ts-code/core/keyring/correspondent-keys.ts:392-413 | a pid of any of the last three generations of pairs leads to the pair of that generation |
| RatchetProofs.LookupOfDropped | ts-code/core/keyring/correspondent-keys.ts:392-413 | a pid of a dropped pair, when another pair has it again, does not lead to the dropped pair's key |
| RatchetProofs.SenderKeyStillKept | ts-code/core/keyring/correspondent-keys.ts:333-344 | key that a new suggestion refers to is still in slots, also after the message's own pair was put in use |
| RatchetProofs.AbsorbOnArrival | ts-code/core/keyring/index.ts:355-387 | absorption does not fail, and changes nothing except the sending pair, which only goes to a later generation |
| RatchetRuns.SendingPairIsLive | ts-code/core/keyring/correspondent-keys.ts:251-314 | in every run a ratcheted sending pair is suggested or in use at the peer, with the same master key |
| RatchetRuns.AnyDelivery | ts-code/core/keyring/index.ts:389-454 | in every run a message is lost exactly when its pair is more than one generation older than the pair in use; else it opens, and its suggestion is absorbed |
| RatchetRuns.InOrderDelivery | ts-code/core/keyring/correspondent-keys.ts:251-413 | in every run a message that was not overtaken opens under a suggested pair, or under one in use |
| RatchetRuns.CountsNeverRepeat | ts-code/core/keyring/correspondent-keys.ts:415-499 | in every run no two messages have the same ratcheted pair and count |
| RatchetRuns.CountsAreExact | ts-code/core/keyring/correspondent-keys.ts:415-445 | in every run an introductory message has count 1, and any other has one more than the number of earlier messages under its pair |
| RatchetRuns.SendingNeverGoesBack | ts-code/core/keyring/correspondent-keys.ts:351-385 | in every run a sending pair never returns to intro, and its timestamp does not decrease |
| SendingRuns.NeverGoesBack | ts-code/core/keyring/correspondent-keys.ts:351-385 | for any received suggestions a sending pair never returns to intro, and its timestamp does not decrease |
| SendingRuns.UseRepeats | ts-code/core/keyring/correspondent-keys.ts:351-499 | given suggestions can lead to a repeated use of a ratcheted pair and a count, exactly when among them are those, with which a pair comes back after another one |
| SendingRuns.NoUseRepeats | ts-code/core/keyring/correspondent-keys.ts:351-499 | suggestions that differ in times and keys, in any order and repeated, never lead to a repeated use |
| SendingRuns.EqualTimesRepeatUse | ts-code/core/keyring/correspondent-keys.ts:351-385 | with suggestions of one time a pair and a count are used twice |
| SendingRuns.EqualKeysRepeatUse | ts-code/core/keyring/correspondent-keys.ts:351-385 | with keys that are suggested again at a later time a pair and a count are used twice |
| RatchetRuns.RotationTakesTime | ts-code/core/keyring/correspondent-keys.ts:251-294 | in every run a pair that answers to a ratcheted pair of the other side is younger by at least the least period |
| RatchetRuns.RoutedToSender | ts-code/core/keyring/index.ts:262-336 | whatever pids other correspondents have, a ratcheted message is opened by its sender's record only |
| OvertakenMessage.OvertakenIsLost | ts-code/core/keyring/correspondent-keys.ts:302-314 | a run, in which a message that later ones overtook can't be opened |
| IpcClient.ClientsSideImpl.NextFnCallNum | ts-code/ipc-via-protobuf/connector-clients-side.ts:157-168 | the search ends by a cyclic distance to a free number, also in wrapping around, with a number that is not in use |
| IpcClient.FirstFreeIsOne | ts-code/ipc-via-protobuf/connector-clients-side.ts:157-168 | found number does not depend on which free number measures the search |
| IpcClient.SomeNumberIsFree | ts-code/ipc-via-protobuf/connector-clients-side.ts:157-168 | with fewer calls than numbers in the cycle, a number is free |
| IpcClient.ClientsSideImpl.ProcessInterimCallReply | ts-code/ipc-via-protobuf/connector-clients-side.ts:84-99 | an observer gets an item; a promise is resolved, forgotten and cancelled; unknown numbers are ignored |
| IpcClient.ClientsSideImpl.ProcessEndCallReply | ts-code/ipc-via-protobuf/connector-clients-side.ts:101-112 | an observer is completed, a promise is resolved, and the call is forgotten |
| IpcClient.ClientsSideImpl.ProcessCallError | ts-code/ipc-via-protobuf/connector-clients-side.ts:114-131 | the caller is failed, or the call is repeated when its number was a duplicate |
| IpcClient.ClientsSideImpl.RetryWithOtherCallNum | ts-code/ipc-via-protobuf/connector-clients-side.ts:133-155 | the call goes under a new number, up to the limit of attempts, after which it is left unsettled |
| IpcClient.UnsettledWhenUsedUp | ts-code/ipc-via-protobuf/connector-clients-side.ts:114-155 | a pending call leaves the table without a signal exactly when a duplicate number error comes to its last attempt |
| IpcClient.HundredDuplicatesLeaveUnsettled | ts-code/ipc-via-protobuf/connector-clients-side.ts:133-155 | a started call, and a hundred errors that leave it unsettled |
| IpcClient.ClientsSideImpl.SetupFnCall | ts-code/ipc-via-protobuf/connector-clients-side.ts:194-205 | the call is put under a number that no pending call has |
| IpcClient.ClientsSideImpl.StartPromiseCall | ts-code/ipc-via-protobuf/connector-clients-side.ts:207-218 | start is sent and the call is pending, or its promise is rejected and nothing is pending |
| IpcClient.ClientsSideImpl.StartObservableCall | ts-code/ipc-via-protobuf/connector-clients-side.ts:220-232 | start is sent and the call is pending, or it throws and nothing is pending |
| IpcClient.ClientsSideImpl.Stop | ts-code/ipc-via-protobuf/connector-clients-side.ts:65-76 | each pending call is failed once, in some order, and the table is empty; a second stop does nothing |
| IpcServices.ServicesSideImpl.ProcessCallStart | ts-code/ipc-via-protobuf/connector-services-side.ts:72-115 | a number in use is answered with an error, other calls run as what their function gave back |
| IpcServices.ServicesSideImpl.ProcessSettlement | ts-code/ipc-via-protobuf/connector-services-side.ts:84-96 | a promise sends one final reply with its own value or error, and is forgotten |
| IpcServices.ServicesSideImpl.ProcessNext | ts-code/ipc-via-protobuf/connector-services-side.ts:97-99 | an item is sent under call's number |
| IpcServices.ServicesSideImpl.ProcessEnding | ts-code/ipc-via-protobuf/connector-services-side.ts:100-108 | an ended observable sends one final reply, and is forgotten |
| IpcServices.ServicesSideImpl.ProcessCallCancelation | ts-code/ipc-via-protobuf/connector-services-side.ts:117-127 | a subscription is ended, with what it emits on cancelling; a promise is forgotten |
| IpcServices.ServicesSideImpl.Stop | ts-code/ipc-via-protobuf/connector-services-side.ts:40-51 | all running calls are forgotten, and nothing is sent |
| IpcRuns.ExactlyOnePlace | ts-code/ipc-via-protobuf/connector-clients-side.ts:84-131 | in every run no two hold of a number: its start is in transit, services have it, its final reply is in transit; one does for a pending call, which is not cancelled, unless its function gave nothing back |
| IpcRuns.OneInvocation | ts-code/ipc-via-protobuf/connector-services-side.ts:72-115 | in every run a function is invoked at most once for a call, with that call's argument |
| IpcRuns.TellsOwnReplies | ts-code/ipc-via-protobuf/connector-clients-side.ts:84-131 | in every run a caller is told exactly what first replies to its own call say; only stopping adds a failure |
| IpcContents.RepliesAreGiven | ts-code/ipc-via-protobuf/connector-services-side.ts:72-127 | in every run replies to a call are exactly values, items and errors that its function gave, in the same order |
| IpcContents.ReplyHasCause | ts-code/ipc-via-protobuf/connector-services-side.ts:72-127 | in every run each reply has an action at which call's function gave the very value, item or error that is in it |
| IpcContents.SettlingIsSaid | ts-code/ipc-via-protobuf/connector-services-side.ts:84-96 | in every run settling of a running promise sends the last reply, with promise's own value or error |
| IpcContents.CallerHearsFunction | ts-code/ipc-via-protobuf/connector-clients-side.ts:84-131 | in every run a caller hears, one after another, what its call's function gave; only stopping adds a failure at the end |
| IpcContents.CallerHearsAll | ts-code/ipc-via-protobuf/connector-clients-side.ts:84-131 | when all replies are seen, a promise is told the first thing given, and an observer all of them |
| IpcRuns.StreamsAreWellFormed | ts-code/ipc-via-protobuf/connector-services-side.ts:72-127 | in every run replies to a call are items, and then at most one final reply |
| IpcRuns.SettledAtMostOnce | ts-code/ipc-via-protobuf/connector-clients-side.ts:84-131 | in every run a promise is settled at most once, and an observer hears nothing after its end |
| IpcRuns.NoDuplicateNumbers | ts-code/ipc-via-protobuf/connector-services-side.ts:72-79 | in every run with fewer than 2^53-1 calls, services never report a number that is in use |
| IpcRuns.StopFailsPending | ts-code/ipc-via-protobuf/connector-clients-side.ts:65-76 | in every run stopping fails each pending call once, and tells nothing to others |
| IpcRuns.StoppedForGood | ts-code/ipc-via-protobuf/connector-clients-side.ts:84-232 | in every continuation after stopping the table stays empty, and earlier callers hear nothing more |
| DeviceFile.ReadToBuf | ts-code/lib-common/async-fs-node.ts:55-68 | with any positive short reads the buffer is filled, or the file has ended before that |
| DeviceFile.WriteFromBuf | ts-code/lib-common/async-fs-node.ts:76-88 | with any positive short writes the file is overwritten as by one write |
| DeviceFile.OverwritesMore | ts-code/lib-common/async-fs-node.ts:76-88 | two writes in a row are one write, also past the end of a file |
| DevFileSink.DevFileByteSink.Truncate | ts-code/lib-client/local-files/dev-file-sink.ts:61-65 | bytes up to the new size stay, those after the old end are zeros, and tracked size equals the new one |
| DevFileSink.DevFileByteSink.Splice | ts-code/lib-client/local-files/dev-file-sink.ts:67-93 | content becomes the splice of a byte sequence, byte by byte, for any buffer size; exact conditions of an error, and of tracked size going ahead of the file |
| DevFileSink.SplicedBytes | ts-code/lib-client/local-files/dev-file-sink.ts:67-93 | each byte of a splice: old ones before and after the cut, given ones in between, and zeros in a gap |
| DevFileSink.Make | ts-code/lib-client/local-files/dev-file-sink.ts:42-46 | a sink of a file is in step with it, and moves bytes with a buffer of 4MB |
| DevFileSink.GapFailsLaterSplice | ts-code/lib-client/local-files/dev-file-sink.ts:67-93 | an empty file, in which one splice leaves a gap, and the next one fails |
| DevFileSink.DevFileByteSink.ShiftBytes | ts-code/lib-client/local-files/dev-file-sink.ts:95-107 | bytes after a position are moved up or down; fails exactly when the file is shorter than its tracked size |
| DevFileSink.DevFileByteSink.InsFileBytesAt | ts-code/lib-client/local-files/dev-file-sink.ts:109-132 | overlapping chunks that are moved from the end make room in the middle |
| DevFileSink.DevFileByteSink.RmFileBytesAt | ts-code/lib-client/local-files/dev-file-sink.ts:134-157 | overlapping chunks that are moved from the start take bytes out of the middle |
| DevFileSink.Replaced | ts-code/lib-client/local-files/dev-file-sink.ts:67-93 | writing bytes into the room for them completes a splice, in all cases of sizes |
| DevFileSink.ApplyChanges | ts-code/lib-client/local-files/dev-file-sink.ts:61-93 | any sequence of splices and truncations gives content of the same changes to a byte sequence, and tracked size is file's length |
| DevFileSink.SpliceUndone | ts-code/lib-client/local-files/dev-file-sink.ts:67-93 | putting back what a splice took out restores content |
| DevFileSink.SplicesCommute | ts-code/lib-client/local-files/dev-file-sink.ts:67-93 | splices at different places commute, with positions adjusted |
| NamePattern.MatchNamePattern | ts-code/lib-client/fs-utils/files-select.ts:66-88 | greedy matching answers true exactly when the name fits the pattern, with stars for any runs of characters |
| NamePattern.MatchSections | ts-code/lib-client/fs-utils/files-select.ts:72-87 | sections between stars are found exactly when they fit with any runs between them |
| NamePattern.SplitKeepsMeaning | ts-code/lib-client/fs-utils/files-select.ts:69 | splitting by stars keeps the meaning of a pattern |
| NamePattern.LeftmostIsEnough | ts-code/lib-client/fs-utils/files-select.ts:83-86 | taking the leftmost place of a section never misses a match |
| JsonValues.RoundTrip | ts-code/core-ipc/json-ipc-wrapping/json-n-binary.ts:58-232 | what is deserialized is what was serialized, up to undefined fields; equal exactly when nothing inside is undefined |
| JsonValues.UndefinedIsLost | ts-code/core-ipc/json-ipc-wrapping/json-n-binary.ts:58-232 | an object with an undefined field, that comes back without it |
| JsonValues.EntriesGive | ts-code/core-ipc/json-ipc-wrapping/json-n-binary.ts:112-240 | putting values at recorded locations turns a tree into a blanked one, and turns a blanked one back |
| JsonValues.EntriesAreExact | ts-code/core-ipc/json-ipc-wrapping/json-n-binary.ts:146-177 | listed locations are exactly those of byte arrays, at any depth |
| JsonValues.TextKeepsPlaces | ts-code/core-ipc/json-ipc-wrapping/json-n-binary.ts:91-110 | going through JSON text keeps locations of byte arrays, though it drops undefined fields |
| JsonValues.TextKeepsBlanks | ts-code/core-ipc/json-ipc-wrapping/json-n-binary.ts:91-140 | blanking and going through JSON text can be done in any order |
| JsonValues.TextIsSame | ts-code/core-ipc/json-ipc-wrapping/json-n-binary.ts:91-110 | text gives a value back exactly when nothing inside is undefined |
| JsonValues.TextHasNoBinaries | ts-code/core-ipc/json-ipc-wrapping/json-n-binary.ts:112-140 | no byte array is left in what is turned into text |
| JsonValues.WireIsBlanked | ts-code/core-ipc/json-ipc-wrapping/json-n-binary.ts:91-140 | JSON that is sent has no byte arrays, has nulls at all listed locations, and each of byte arrays is listed |
| JsonValues.FieldsOfText | ts-code/core-ipc/json-ipc-wrapping/json-n-binary.ts:91-110 | text has exactly defined fields of an object, and all elements of an array, with nulls for undefined ones |
| JsonValues.DecimalsDiffer | ts-code/core-ipc/json-ipc-wrapping/json-n-binary.ts:153-163 | decimal names of array's elements differ |
| JsonBinary.Copy | ts-code/lib-common/json-utils.ts:26-55 | a copy has the same value, and shares no object with an original, in which objects may be shared |
| JsonBinary.FindAllNonJsonable | ts-code/core-ipc/json-ipc-wrapping/json-n-binary.ts:146-177 | finds locations of all byte arrays in order |
| JsonBinary.GetValueAt | ts-code/core-ipc/json-ipc-wrapping/json-n-binary.ts:179-186 | gives what is at a location |
| JsonBinary.SetNewValueAt | ts-code/core-ipc/json-ipc-wrapping/json-n-binary.ts:188-197 | changes in place one location of a tree, and nothing else |
| JsonBinary.ExtractNonJsonableFrom | ts-code/core-ipc/json-ipc-wrapping/json-n-binary.ts:112-140 | blanked copy and all byte arrays with their locations; modifies no existing object |
| JsonBinary.AttachBinaryArrays | ts-code/core-ipc/json-ipc-wrapping/json-n-binary.ts:234-240 | puts all byte arrays into a tree at their locations |
| JsonBinary.SerializeArgs | ts-code/core-ipc/json-ipc-wrapping/json-n-binary.ts:51-89 | every argument is turned into its message form, in which no byte array is left in JSON; arguments are left unmodified |
| JsonBinary.DeserializeArgs | ts-code/core-ipc/json-ipc-wrapping/json-n-binary.ts:199-232 | every message form is turned into a tree with its byte arrays |
| BigEndian.PackUintTo2Bytes | ts-code/lib-common/big-endian.ts:22-31 | stores two digits in base 256, and leaves other bytes; fails exactly when a number or a place does not fit |
| BigEndian.PackUintTo3Bytes | ts-code/lib-common/big-endian.ts:50-60 | the same for three bytes |
| BigEndian.PackUintTo4Bytes | ts-code/lib-common/big-endian.ts:79-90 | the same for four bytes |
| BigEndian.PackUintTo6Bytes | ts-code/lib-common/big-endian.ts:111-126 | the same for six bytes, through halves of a number |
| BigEndian.PackUintTo8Bytes | ts-code/lib-common/big-endian.ts:150-167 | the same for eight bytes, and numbers up to 2^53-1 |
| BigEndian.UintFrom2Bytes | ts-code/lib-common/big-endian.ts:39-44 | number with given digits in base 256, or nothing when bytes are missing |
| BigEndian.UintFrom3Bytes | ts-code/lib-common/big-endian.ts:68-73 | the same for three bytes |
| BigEndian.UintFrom4Bytes | ts-code/lib-common/big-endian.ts:98-105 | the same for four bytes |
| BigEndian.UintFrom6Bytes | ts-code/lib-common/big-endian.ts:134-144 | the same for six bytes |
| BigEndian.UintFrom8Bytes | ts-code/lib-common/big-endian.ts:175-185 | the same for eight bytes |
| BigEndian.NumberOfDigits | ts-code/lib-common/big-endian.ts:22-185 | digits of a number give that number back |
| BigEndian.DigitsOfNumber | ts-code/lib-common/big-endian.ts:22-185 | bytes are digits of the number that they give |
| BigEndian.ReadBack | ts-code/lib-common/big-endian.ts:22-185 | every unpacking reads back what the matching packing stored, whatever bytes are around |
| BigEndian.OrOfThree | ts-code/lib-common/big-endian.ts:68-105 | bitwise or of shifted bytes is their sum, as they share no bits |
| Bits.OrIsSum | ts-code/lib-common/big-endian.ts:39-105 | bitwise or is a sum, when one number is below the lowest bit of the other |
| Bits.AndAbove | ts-code/lib-client/xsp-fs/attrs.ts:251-258 | a mask without low bits drops these bits, and masks the others |
| Bits.AndOnes | ts-code/lib-client/xsp-fs/attrs.ts:251-258 | a mask of ones keeps a number that is not longer |
| XAttrs.PackNamedAttr | ts-code/lib-client/xsp-fs/attrs.ts:301-327 | packs a record of type, lengths, name and content; fails exactly when lengths do not fit |
| XAttrs.ShortRecord | ts-code/lib-client/xsp-fs/attrs.ts:301-327 | bytes of a record with one-byte lengths, with numbers of types |
| XAttrs.PackUint | ts-code/lib-client/xsp-fs/attrs.ts:337-354 | stores a length in a given number of bytes, exact for lengths and places that do not fit |
| XAttrs.ReadNamedAttr | ts-code/lib-client/xsp-fs/attrs.ts:208-249 | reads what is at a place, also when lengths are cut off |
| XAttrs.ParseTypeByte | ts-code/lib-client/xsp-fs/attrs.ts:251-258 | the three numbers, from which the byte is made |
| XAttrs.ReadLenNum | ts-code/lib-client/xsp-fs/attrs.ts:260-273 | length from one to four bytes; a missing single byte is not rejected |
| XAttrs.ValueIsOfType | ts-code/lib-client/xsp-fs/attrs.ts:208-249 | value is of the type that the record tells; unknown types, and a JSON value without a text, are refused |
| XAttrs.TypeByte | ts-code/lib-client/xsp-fs/attrs.ts:310-314 | bit operators put three numbers into one byte, from which each can be told |
| XAttrs.RecordReadBack | ts-code/lib-client/xsp-fs/attrs.ts:208-327 | a packed record is read back, and tells its own end, whatever bytes are around it |
| XAttrs.CutRecord | ts-code/lib-client/xsp-fs/attrs.ts:208-273 | a cut record is rejected, except exactly when the cut is before one-byte lengths of a record that is not JSON |
| XAttrs.CutRecordIsAccepted | ts-code/lib-client/xsp-fs/attrs.ts:90-273 | a record cut to its first byte, that is parsed as an attribute with no name |
| XAttrs.ParseFrom | ts-code/lib-client/xsp-fs/attrs.ts:90-103 | the loops parse all sections, or fail, as reading record after record does |
| XAttrs.XAttrs.Pack | ts-code/lib-client/xsp-fs/attrs.ts:156-170 | a record for every attribute, in order; fails exactly when some name or value can't be packed |
| XAttrs.RegroupedRoundTrip | ts-code/lib-client/xsp-fs/attrs.ts:90-170 | packed records parse back to the same attributes, however they are grouped into sections |
| XAttrs.LastRecordWins | ts-code/lib-client/xsp-fs/attrs.ts:90-103 | when names repeat in records, the last record of each name is the one that is found |
| XAttrs.PackedRoundTrip | ts-code/lib-client/xsp-fs/attrs.ts:90-170 | what is packed parses back to the same attributes |
| XAttrs.CommonAttrs.Pack | ts-code/lib-client/xsp-fs/attrs.ts:54-59 | both times in six bytes each, exactly when these fit |
| XAttrs.ParseCommon | ts-code/lib-client/xsp-fs/attrs.ts:45-52 | times below 2^48 that were packed are read back |
| FileWriting.CombineSegsFrom | ts-code/lib-client/objs-on-disk/file-writing-proc.ts:139-168 | writes with gaps between them put every byte of segments to its own place once, and take no other places; exact conditions of both errors |
| FileWriting.SortByOffset | ts-code/lib-client/objs-on-disk/file-writing-proc.ts:141-145 | a sorted permutation, or an error exactly when offsets repeat |
| FileWriting.AnyOrderPutsSame | ts-code/lib-client/objs-on-disk/file-writing-proc.ts:139-168 | order of segments does not matter for which bytes go where |
| FileWriting.ChunkGrows | ts-code/lib-client/objs-on-disk/file-writing-proc.ts:154-156 | a neighbouring segment extends the last chunk |
| FileWriting.ChunkEnds | ts-code/lib-client/objs-on-disk/file-writing-proc.ts:157-161 | a segment after a gap starts a new chunk |
| WritingProc.FileWritingProc.AddToBuffer | ts-code/lib-client/objs-on-disk/file-writing-proc.ts:63-76 | a segment waits in the buffer, and the source is pressed exactly when the buffer is big; a header sets layout, and fails when layout is already set, or can't be set |
| WritingProc.FileWritingProc.SaveBuffered | ts-code/lib-client/objs-on-disk/file-writing-proc.ts:89-120 | header and all waiting segments go to the file; segments with their own free places are never refused; over all batches every byte is written once at its place |
| WritingProc.AssembleProc | ts-code/lib-client/objs-on-disk/file-writing-proc.ts:51-61 | whenever saves happen, a run that goes well has all segments at their places once, and saves its only header once; proper segments with a layout that suits them fail exactly by a second header |
| WritingProc.FoundInFile | ts-code/lib-common/objs-on-disk/obj-version-file.ts:126-152 | after a run, layout tells places of all bytes of segments in the file, and of no others |
| WritingProc.SuitedIsSet | ts-code/lib-common/objs-on-disk/file-layout.ts:212-220 | layout that has room for segments can be set, whichever of them are already saved |
| WritingProc.SecondHeaderFails | ts-code/lib-common/objs-on-disk/file-layout.ts:212-214 | two headers, that fail a run under any timing |
| ObjFile.ObjVersionFile.SetSegsLayout | ts-code/lib-common/objs-on-disk/obj-version-file.ts:257-264 | layout is set once, when it can be set, and places of saved bytes stay |
| ObjFile.ObjVersionFile.SaveHeader | ts-code/lib-common/objs-on-disk/obj-version-file.ts:126-135 | header is saved once, its bytes are in the file where layout tells, and places of saved bytes stay |
| ObjFile.ObjVersionFile.SaveSegs | ts-code/lib-common/objs-on-disk/obj-version-file.ts:137-152 | bytes are found with layout at their places, unless layout refuses them |
| ObjLayout.AddNewSegsChunkTo | ts-code/lib-common/objs-on-disk/file-layout.ts:446-501 | a chunk in the file takes its place among chunks, in which new ones are cut |
| ObjLayout.InsertOrMergeChunkAt | ts-code/lib-common/objs-on-disk/file-layout.ts:503-532 | an inserted chunk is merged with neighbours, that it continues |
| ObjLayout.AddedAreAt | ts-code/lib-common/objs-on-disk/file-layout.ts:446-532 | adding keeps places of all bytes in the file, and tells those of added ones |
| ObjLayout.ClearIsAdded | ts-code/lib-common/objs-on-disk/file-layout.ts:446-466 | bytes that are apart from those already somewhere are never refused |
| ObjLayout.AddedKeepsClear | ts-code/lib-common/objs-on-disk/file-layout.ts:446-532 | adding takes no other places |
| ObjLayout.AddedKeepsLayout | ts-code/lib-common/objs-on-disk/file-layout.ts:446-532 | inside of layout adding makes no holes, and keeps its length |
| ObjLayout.CombinedIsLaidOut | ts-code/lib-common/objs-on-disk/file-layout.ts:432-444 | chunks in the file, for which layout has room, are combined with it without holes |
| ObjLayout.LayoutSectionsToSegsChunks | ts-code/lib-common/objs-on-disk/file-layout.ts:384-430 | chunks of sections, exactly when these follow each other; an endless one has no chunk |
| ObjLayout.SectionIsChunk | ts-code/lib-common/objs-on-disk/file-layout.ts:404-430 | each section with an end has its chunk, of the same source and places |
| ObjLayout.EnsureNoHolesIn | ts-code/lib-common/objs-on-disk/file-layout.ts:584-602 | tells if chunks follow each other from the start |
| ObjLayout.BytesLayout.SetAndFreezeWith | ts-code/lib-common/objs-on-disk/file-layout.ts:212-220 | layout is set exactly when it is not yet set, and its sections with chunks in the file have no overlaps and no holes |
| ObjLayout.BytesLayout.AddHeader | ts-code/lib-common/objs-on-disk/file-layout.ts:232-240 | header is added once, at the end of the file |
| ObjLayout.BytesLayout.AddSegsOnFile | ts-code/lib-common/objs-on-disk/file-layout.ts:242-252 | bytes are added at the end of the file, when their places are free |
| ObjLayout.LateLayoutIsRefused | ts-code/lib-common/objs-on-disk/file-layout.ts:212-220 | an endless layout is taken before bytes that leave a hole, and refused after them |
| WeakCaching.WeakCache.Get | ts-code/lib-common/weak-cache.ts:53-64 | object that is not collected, or nothing, with a dead reference being removed |
| WeakCaching.WeakCache.Set | ts-code/lib-common/weak-cache.ts:70-74 | a new reference for a key, registered for finalization |
| WeakCaching.WeakCache.Finalize | ts-code/lib-common/weak-cache.ts:76-80 | a key is removed only when it still has the finalized reference |
| WeakCaching.WeakCacheWithMinLifeTime.DropAndRotate | ts-code/lib-common/weak-cache.ts:110-115 | filling objects become waiting ones, and waiting ones are dropped |
| WeakCaching.WeakCacheWithMinLifeTime.Get | ts-code/lib-common/weak-cache.ts:117-131 | looks into all three maps in order, and makes a found object filling |
| WeakCaching.WeakCacheWithMinLifeTime.Set | ts-code/lib-common/weak-cache.ts:143-146 | an object is filling and has a weak reference, while waiting ones are left as they are |
| WeakCaching.WeakCacheWithMinLifeTime.Delete | ts-code/lib-common/weak-cache.ts:148-152 | a key leaves all three maps |
| WeakCaching.WeakCacheWithMinLifeTime.Clear | ts-code/lib-common/weak-cache.ts:165-169 | all maps are emptied |
| WeakCaching.GetIsExact | ts-code/lib-common/weak-cache.ts:53-152 | in every run the last set object is found exactly when it is not collected, and no older one ever is |
| WeakCaching.HeldIsFound | ts-code/lib-common/weak-cache.ts:53-152 | in every run an object that is used anywhere is found |
| WeakCaching.TouchedSurvives | ts-code/lib-common/weak-cache.ts:110-146 | in every run object of a used key is found till the second rotation |
| WeakCaching.TwoRotationsMayLose | ts-code/lib-common/weak-cache.ts:110-115 | a run, in which an object is lost after the second rotation |
| SyncedProcs.SingleProc.StartOrChain | ts-code/lib-sqlite-on-3nstorage/synced.ts:149-178 | an action goes to the end of the queue, and is started when the queue was idle |
| SyncedProcs.SingleProc.Complete | ts-code/lib-sqlite-on-3nstorage/synced.ts:149-171 | promise of the completed action gets its outcome, and the next action is started |
| SyncedProcs.NamedProcs.StartOrChain | ts-code/lib-sqlite-on-3nstorage/synced.ts:92-99 | an action is queued under its id, other ids are not affected; all that was run under an id stays in order |
| SyncedProcs.NamedProcs.Start | ts-code/lib-sqlite-on-3nstorage/synced.ts:78-82 | starts exactly when nothing runs under the id |
| SyncedProcs.NamedProcs.IsProcessing | ts-code/lib-sqlite-on-3nstorage/synced.ts:54-57 | an id is in the map exactly while its queue is busy |
| SyncedProcs.NamedProcs.Complete | ts-code/lib-sqlite-on-3nstorage/synced.ts:92-171 | an idle queue leaves the map; each promise is settled once, in order, with its own action's outcome |
| SyncedProcs.SubmittedKeepsOrder | ts-code/lib-sqlite-on-3nstorage/synced.ts:173-178 | submission keeps actions one at a time and in order |
| SyncedProcs.CompletedKeepsOrder | ts-code/lib-sqlite-on-3nstorage/synced.ts:149-171 | completion keeps actions one at a time and in order, with outcomes at their promises |
| ObjFolders.IdToPathSections | ts-code/lib-client/objs-on-disk/obj-folders.ts:168-179 | parts of any id, that join to it; fails exactly when the last split has no characters |
| ObjFolders.SplitsAreEven | ts-code/lib-client/objs-on-disk/obj-folders.ts:168-179 | splits of a long enough id are all of the same length, and the last part is the rest of it |
| ObjFolders.JoinedSections | ts-code/lib-client/objs-on-disk/obj-folders.ts:168-244 | parts of an id, joined, give the id |
| ObjFolders.MakeTreeExclusively | ts-code/lib-client/objs-on-disk/obj-folders.ts:348-400 | adds exactly folders on a path; fails exactly when the last one is there, or is one of intermediate folders |
| ObjFolders.DeleteTree | ts-code/lib-client/objs-on-disk/obj-folders.ts:369-417 | takes away exactly folders that no other object needs; with an empty last part everything under a path is removed, and it is an error |
| ObjFolders.RemoveIntermediateFoldersIfEmpty | ts-code/lib-client/objs-on-disk/obj-folders.ts:406-417 | no empty intermediate folder is left, and no other folder is removed |
| ObjFolders.AllTreePaths | ts-code/lib-client/objs-on-disk/obj-folders.ts:541-566 | lists each path of full depth once, skipping folder of the root object |
| ObjFolders.ListedAreObjects | ts-code/lib-client/objs-on-disk/obj-folders.ts:541-566 | paths of full depth are exactly paths of objects |
| ObjFolders.ObjFolders.GetFolderAccessFor | ts-code/lib-client/objs-on-disk/obj-folders.ts:201-227 | a folder is found or created, other objects keep theirs; an error exactly when an id is too short to be split, or has nothing left for object's own folder |
| ObjFolders.ObjFolders.GetRootFolder | ts-code/lib-client/objs-on-disk/obj-folders.ts:204-212 | folder of the root object is found or created |
| ObjFolders.ObjFolders.RemoveFolderOf | ts-code/lib-client/objs-on-disk/obj-folders.ts:229-239 | one object is removed, and no folder of others; errors are exact, and so is what is lost with an id that has nothing left for object's own folder |
| ObjFolders.BareIdTakesObject | ts-code/lib-client/objs-on-disk/obj-folders.ts:229-239 | an object that is lost with a failing removal by a start of its id |
| ObjFolders.ObjFolders.ListRecent | ts-code/lib-client/objs-on-disk/obj-folders.ts:241-253 | lists exactly created and not removed objects, each once |

## Left out

- Cryptography, certificates and random values are given: keys are ids, a message tells the key it is encrypted with, and certificates are what checking of them gives.
- Key ratchet: getting keys and a suggestion for one message is one step; `suggestPair` does not stop between its check and its write; counts of received messages, saving of the ring, and canonical forms of addresses are not modelled.
- Key ratchet: a new pair has pids that no live pair of the same correspondent has, and a timestamp above that of the previous pair; a send for which this does not hold is not a step.
- IPC: dispatch of `ObjectsConnector`, listing and dropping of exposed objects, and weak references to clients' objects.
- IPC: runs have functions that do not end an observable while it is being subscribed, that do not fail with connector's own duplicate number error, and a sink that does not throw; methods of both sides cover these cases.
- JSON trees: objects from core that are transferred by reference; text of JSON is a tree of what is written in it; messages that serialization does not make.
- JsonBinary.Copy: copies an own field named `__proto__` like any other one; in the code it sets a prototype of the copy, and the field is lost.
- JsonBinary.DeserializeArgs: takes messages whose locations of byte arrays lead to their places, as serialization makes them; other messages fail in the code with errors of the language.
- XAttrs.ReadNamedAttr: takes any non-empty content for JSON, and any bytes for UTF-8, because parsing of both is given.
- Xattrs: changing of attributes by `makeUpdated`, and getting of a value by its name.
- WritingProc.FileWritingProc.SaveBuffered: is one step, in which no event comes between writes; recording of layout in the file at the end of a run is not modelled.
- ObjLayout: base bytes that are copied to the file, reading of recorded layouts, base versions, and absorption of a base.
- WeakCaching: timer and destroying of a cache; `TimeWindowCache`, which has the same rotation and no weak references.
- SyncedProcs.SingleProc.Complete: is given the outcome of an awaited action, because promises are not run here.
- ObjFolders: generations of folders, for which moving is disabled in code; configuration files; operations are not interleaved, as those with the same first part of ids are queued; ids that have a split equal to the name of root's folder, and could be taken for the root object.
- Selecting of files in `selectInFS` and `deepIter`, beyond matching of names.

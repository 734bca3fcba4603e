# Launcher bridge: a verified model

This project models the hard parts of a Minecraft launcher's Tauri bridge (Rust) and of the
TypeScript libraries in front of it, and proves what they keep over every run. Each component is a
module of its own; protocols that run concurrently are step machines over which theorems quantify
all finite runs, and code that updates fields, arrays or files in place is a class or a method
proved against the functions that the theorems are about.

`dafny verify dfyconfig.toml` checks everything.

## What is modelled

**Endpoint sessions** (`EndpointIds`, `EndpointUuid`, `EndpointConfig`, `EndpointTransactions`,
`MutationQueue`, `Pool`, `EndpointSystem`, `EndpointSafety`, `EndpointSelection`,
`EndpointWitnesses`). Opens capture a generation, read the configuration, run a handshake and insert
the session if the generation is unchanged. They race with the queue of configuration mutations, the
stored selection, group closes, single closes and shutdown. One action of the machine is one lock
section, one file access or one settled await. That mutations run one at a time is proved from the
chain of promises. The main theorems are that deletion is final and exactly when the selection names
an endpoint that is configured.

**One protocol session** (`Session`). Ordinary requests, the single credentialed request and
cancellation share four flags and one transport lock.

**Activation files** (`TextLines`, `JsonStrings`, `JsonGrammar`, `PackOptions`, `ShaderConfig`,
`ShaderLines`, `PackActivation`). Two line-oriented readers and writers that must not disturb foreign
bytes, and the compare-and-swap protocol over revisions on top of them, with outside programs editing
the same files. What is read is proved to be what a grammar of the texts says, in both directions.

**Diagnostic log** (`DiagnosticLog`, `DiagnosticQueue`). Four capped files shifted by renames that
may fail halfway, refining an append-only list, behind a bounded command queue.

**Byte readers** (`Bytes`, `Searching`, `ByteLines`, `ModpackDirectory`, `ModpackWriter`,
`BoundedLines`, `HexText`, `Md5Words`, `Md5Standard`, `Md5`, `Splitting`, `LogBuffer`). Each loop is
proved against a declarative reading: records that tile the directory, lines of the whole stream,
RFC 1321, lines of the whole text.

`Results` and `PackErrors` hold the option, result and error types that the modules share.

**Front-end controllers** (`DatapackController`, `DatapackStory`, `InstanceCoordinator`,
`InstancePaths`, `EventForwarder`). Generation-based cancellation over awaited steps with the answers
and the snapshot that follow from the events of a run, leases, path keys, and a filter that thins out
progress events.

## Modelling decisions

- Text is a sequence of Unicode scalar values. UTF-8 decoding happens before the model starts, and
  where the source counts bytes the length in bytes is spelled out (`PackOptions.Utf8Length`). Bytes
  are integers below 256; MD5 words are 32-bit vectors that wrap.
- Clocks, faults, received events, chunk boundaries, the UTF-8 test of the line reader and the
  diagnostic record codec are parameters, so every theorem covers all their values. The codec is
  assumed to give non-empty lines without a newline and to read back what it wrote; the
  endpoint field checks are assumed to accept their own results.
- A configuration or activation file is a value that is replaced as a whole. An activation file also
  has an identity that every replacement changes, and outside edits may happen at any step except
  between the last comparison and the rename, which the source does in one go.
- Endpoint generations wrap at 2^64, as in the source. Counters for session ids, request ids and
  revisions do not wrap in the model.
- In `EndpointSystem` every mutation has a phase of its own and the predecessor that was the queue's
  tail when it was submitted; nothing but that predecessor keeps two mutations apart. A write can fail
  before the file is replaced or after it. Moving the selection can fail and publishing the new
  configuration can throw, as far as the transaction is concerned; the callbacks that the application
  passes do neither (setting React state does not throw, and what is published is already valid).
- A delete carries the endpoint that is shown as selected when it is submitted, as the handler of the
  latest render does. The configuration is loaded in one step: the application loads it once, and
  submits nothing before.
- In `Session`, looking at the cancel signal and starting to write are two steps, because another
  thread can signal between the two polls of a biased `select!`. `signal_close` is two steps as well:
  set the flag, send the signal.
- In `DatapackController`, the code between two awaits is one step, and the start of `finally` is a
  step of its own. `Promise`-memoised closing is modelled call by call, so that "closed once" is a
  theorem and not an assumption.
- The sine table of MD5 is taken as printed in RFC 1321; that the source's floating-point sine gives
  the same 64 numbers is not part of the model.
- Bit masks on single bytes are written as arithmetic (`(b & 0x0f) | 0x40` is `b % 16 + 64`).

## Where the code does not meet the plain reading of its promise

- A failed configuration write may have taken effect: the rename comes before the directory sync that
  can still fail. A delete that ends like this is reported as not deleted, takes the endpoint out,
  leaves its sessions open and leaves it selected. `EndpointSafety.LandedIffReported` gives the exact
  condition, `EndpointWitnesses.LandedUnreported` the run.
- The stored selection can name an endpoint that is no longer configured, even when no call fails: a
  delete goes by what was selected when it was submitted. `EndpointSelection.SelectedIff` gives the
  exact condition; `EndpointWitnesses.PersistRefused` and `EndpointWitnesses.ChosenWhileWaiting` are
  runs. What is shown as selected is always among the endpoints shown.
- A delete's cleanup does not run whatever failed before it: publishing is not caught, and when it
  throws, nothing is prepared, closed or cleaned (`EndpointTransactions.DeleteEndpoint`).
- After `signal_close` one more line can be written, by a request that is between its look at the
  signal and its write (`Session.SilentIffNonePolled`, `Session.OneWriteAfterCancel`).
- A saved activation file does not always load again: outside Windows, where `replace` checks the size
  first, it may exceed the 1 MiB that are read (`PackActivation.SavedLoadsBySize`,
  `PackActivation.SavedTooLarge`, `PackActivation.SavedShaderTooLarge`).
- `shaderPack`: two replacements are not always the last one. If the first left a name that cannot be
  read, the second fails; if the first had to append a `shaderPack` line and the second names no pack,
  the appended line stays behind, empty.
  `ShaderConfig.LastReplaceWins` gives the exact condition, `ShaderConfig.LastReplaceLoses` an input.
- A pack name survives the properties file only if it is one that the reader can say back
  (`ShaderConfig.RoundTrip`); what the write command admits always does.
- A session of a deleted endpoint is let into the pool after exactly a multiple of 2^64 group closes
  (`EndpointSafety.AdmittedIffNoCloseSince`, `EndpointWitnesses.LetBackIn`).
- The game-directory key differs from the root-and-id key exactly when the root normalises to `/` or
  `.` (`InstancePaths.KeysAgree`, `InstancePaths.KeysDifferAtRoot`); `x/..` does not cancel exactly
  when `x` ends with a colon and nothing stands before it (`InstancePaths.TrailingPair`,
  `InstancePaths.LeadingPair`, `InstancePaths.DriveStays`).
- A newline record of the line buffer that was cut right after a newline of its own shows one empty
  line too many (`LogBuffer.ShownExactly`, `LogBuffer.SpuriousWitness`).
- `md5Hex` throws for texts of 2^31 - 72 bytes or more, because its length formula leaves 32 bits.

## Model

| member | source | states |
|---|---|---|
| EndpointIds.ChecksAgree | src-tauri/src/pool.rs:288-305 | the bridge's byte walk and the front end's UUID pattern accept the same remote ids, for every string |
| EndpointIds.UuidIff | src-tauri/src/pool.rs:288-297 | and these are exactly the 36 characters of digits 0 to 9 and a to f with dashes at 8, 13, 18 and 23, a version digit 1 to 5 and a variant digit 8, 9, a or b |
| EndpointUuid.GenerateEndpointUuid | src/lib/endpoints.ts:108-117 | stamps version and variant into the buffer in place; for any sixteen bytes the id passes both validators, and each random byte can be read back from its two digits but for the six stamped bits |
| EndpointUuid.GeneratedText | src/lib/endpoints.ts:112-116 | the digits of each byte stand at its place in the id and read back as that byte; version and variant are 4 and 8 to b |
| EndpointUuid.UuidInjective | src/lib/endpoints.ts:112-116 | two buffers give the same id exactly when they agree in all but the six stamped bits |
| EndpointConfig.ValidateStable | src/lib/endpoints.ts:84-93 | validating a validated configuration changes nothing, and validation keeps the list of ids |
| EndpointConfig.ValidateIff | src/lib/endpoints.ts:84-93 | validation accepts exactly 1 to 64 endpoints with the local one first, no id twice, well-formed remote ids and checked texts, in at most 256 KiB, and gives back that list |
| EndpointConfig.SavedIds | src/lib/endpointManagerTransactions.ts:14-30 | a save writes a valid configuration with the ids it read plus at most the new one, and touches no other endpoint |
| EndpointConfig.SavedStores | src/lib/endpoints.ts:119-123 | a save writes exactly when checked texts, id, room and size allow it; then the new endpoint stands last, or the edited one where it stood, with the checked label, destination and directory of the draft, each under its own name, the old directory when the draft keeps it |
| EndpointConfig.DeletedIds | src/lib/endpoints.ts:125-130 | a delete has something to write exactly for a remote endpoint of the list, and writes exactly the other endpoints in their order, still a valid configuration |
| EndpointTransactions.Repository.Write | src-tauri/src/endpoints.rs:270-330 | only a configuration that validates is stored, and in its validated form; a write that fails before the replacement changes nothing, one that fails after it has landed and is reported as failed |
| EndpointTransactions.SaveEndpoint | src/lib/endpointManagerTransactions.ts:8-31 | stores exactly the checked texts of the draft at the right place of the latest configuration, unless nothing can be written or a call fails before the file is replaced; reports success exactly when it was stored and the write did not fail afterwards |
| EndpointTransactions.DeleteEndpoint | src/lib/endpointManagerTransactions.ts:51-79 | what is stored, called and answered for every combination of failures: nothing is called without a reported commit, every cleanup call runs after one exactly when publishing did not throw; and a stored selection that was configured is configured afterwards, if and only if the delete was not of the selected endpoint with a write that failed after the replacement or a move of the selection that failed |
| EndpointTransactions.CleanUp | src/lib/endpointManagerTransactions.ts:61-78 | the order of the calls after the write; a throwing publish stops them, any other failure only makes cleanup incomplete |
| MutationQueue.EndpointMutationQueue.Run | src/lib/endpointManagerTransactions.ts:85-89 | a submitted operation waits for the tail and becomes the new one; the chain stays in order |
| MutationQueue.EndpointMutationQueue.React | src/lib/endpointManagerTransactions.ts:86-86 | an operation starts exactly when what it waits for has settled, either way, and it is the first that has not started |
| MutationQueue.StartIsNext | src/lib/endpointManagerTransactions.ts:85-89 | whatever can start is next in submission order, and everything before it has settled |
| Pool.SessionPool.CaptureGeneration | src-tauri/src/pool.rs:98-104 | reads the generation of an accepted id; a malformed id is refused |
| Pool.SessionPool.InsertEstablished | src-tauri/src/pool.rs:146-164 | records a session under its own id with owner and group, keeping the indexes inverse to each other |
| Pool.SessionPool.InsertEstablishedIfCurrent | src-tauri/src/pool.rs:166-194 | inserts exactly when the generation is still the captured one, under a fresh id; otherwise the pool is unchanged |
| Pool.SessionPool.Close | src-tauri/src/pool.rs:201-218 | takes one session out of all three indexes; an unknown id changes nothing |
| Pool.SessionPool.CloseEndpoint | src-tauri/src/pool.rs:222-255 | bumps the generation and takes out exactly the sessions of the endpoint; the local endpoint and malformed ids are refused unchanged |
| Pool.SessionPool.TakeAll | src-tauri/src/pool.rs:241-247 | the removal loop: sessions and owners lose exactly the group, and the caller gets exactly what was there |
| Pool.SessionPool.Clear | src-tauri/src/pool.rs:272-285 | hands out every session and leaves empty, consistent indexes |
| Pool.CloseGroupIndexed | src-tauri/src/pool.rs:230-247 | the group index is exactly the inverse of the owners, before and after a group close |
| Pool.CloseGroupScoped | src-tauri/src/pool.rs:230-247 | after a group close a session is in the pool exactly when its owner was another endpoint, and then unchanged |
| EndpointSystem.ConservedStep | src-tauri/src/pool.rs:98-285 | every step keeps each established session in exactly one of: with its open, pooled, removed and about to close, closed once |
| EndpointSystem.IndexedStep | src-tauri/src/pool.rs:146-285 | every step of the whole system keeps the pool's indexes inverse to each other without empty groups |
| EndpointSafety.AdmittedIffNoCloseSince | src-tauri/src/pool.rs:166-180 | a finished open is admitted if and only if the number of group closes since its capture is a multiple of 2^64 |
| EndpointSafety.ConfiguredIff | src/lib/endpointManagerTransactions.ts:8-90 | for every list of queued mutations, an endpoint is configured if and only if the last landed creation or delete of it is a creation, or there is none and it was configured at the start |
| EndpointSafety.ErasedStaysOut | src/lib/endpointManagerTransactions.ts:8-90 | after a landed delete, no later mutation brings the id back unless a new endpoint lands under the same id; what created it before the delete does not matter |
| EndpointSafety.DeletionIsFinal | src-tauri/src/pool.rs:98-255 | in every run, whatever created the endpoint: once the group close of a delete has run, and unless a new endpoint has landed under the same id since that delete, it is not configured, owns no pooled session, and no open in flight for it can be inserted |
| EndpointSafety.CompleteMeansClosed | src/lib/endpointManagerTransactions.ts:61-78 | in every run a delete that answers that its cleanup is complete has landed, has run its group close and has moved the selection if the endpoint was selected, so nothing is left of the endpoint |
| EndpointSafety.CompleteIff | src/lib/endpointManagerTransactions.ts:61-78 | in every run the answer says complete exactly when no call behind the write went wrong |
| EndpointSafety.OneMutationAtATime | src/lib/endpointManagerTransactions.ts:82-90 | in every run at most one mutation is between its start and its settling, starts happen in submission order, and the first unsettled mutation is running or can start, whatever the ones before it ended with |
| EndpointSafety.MutationsSerialise | src/lib/endpointManagerTransactions.ts:14-90 | in every run the stored configuration is valid and equals the mutations whose write landed, applied one at a time in submission order |
| EndpointSafety.LandedIffReported | src-tauri/src/endpoints.rs:270-330 | in every run what is reported as done has landed; for a settled mutation landed and reported coincide if and only if the run holds neither a failure of its write after the replacement nor a throw of its publishing |
| EndpointSafety.SessionsConserved | src-tauri/src/pool.rs:146-285 | in every run the indexes agree, no established session is lost, and none is closed twice |
| EndpointSafety.SessionsMove | src-tauri/src/pool.rs:98-285 | in every run each action moves exactly the sessions it should: a ready one into the pool or, after a group close, to its closing; a closed one, the group of a closed endpoint, or all at shutdown out of it; and begins and ends exactly the opens it should |
| EndpointSafety.IdsNeverReused | src-tauri/src/pool.rs:146-194 | in every run a session that enters the pool gets an id that was never used before |
| EndpointSelection.SelectedIff | src/lib/endpointContext.tsx:47-60 | in every run the stored selection names a configured endpoint if and only if it ever was one and no delete of it that landed for good has passed the selection by (write failed after the replacement, call not reached yet, call failed, or another endpoint shown as selected at its submission) or was followed by choosing it again |
| EndpointSelection.DisplayedIsMember | src/lib/endpoints.ts:131-133 | in every run what is shown as selected is one of the endpoints shown: the stored selection, or else the local endpoint |
| EndpointSelection.ShownIsCurrent | src/lib/endpointContext.tsx:29-64 | in every run, unless a mutation has landed and nothing has been published since, what is shown is the stored configuration, what is shown as selected is configured, and so is the stored selection once the repair has nothing left to do |
| EndpointWitnesses.LandedUnreported | src-tauri/src/endpoints.rs:321-330 | the failing input: a delete of the selected endpoint with an open session whose directory sync fails is reported as not deleted, takes the endpoint out, leaves the session in the pool and the endpoint selected, stored and shown |
| EndpointWitnesses.PersistRefused | src/lib/endpointManagerTransactions.ts:62-65 | the failing input: the selection of a deleted endpoint stays stored when moving it fails |
| EndpointWitnesses.ChosenWhileWaiting | src/components/EndpointManager.tsx:122-125 | the failing input without any failing call: an endpoint selected while its delete waits in the queue stays selected |
| EndpointWitnesses.LetBackIn | src-tauri/src/pool.rs:166-180 | the failing input: after 2^64 group closes an open that was in flight all the time is let in, to an endpoint whose delete has answered that its cleanup is complete |
| Session.SharedFlags.Admit | src-tauri/src/session.rs:198-225 | a second credentialed request and, after one, every ordinary request is refused, as is any on a closed session; only a credentialed one changes a flag |
| Session.SharedFlags.Number | src-tauri/src/session.rs:233-243 | under the lock the flags are checked again, and only then is the next id taken |
| Session.SharedFlags.AwaitTerminal | src-tauri/src/session.rs:262-340 | the first event that decides the request ends it: its own result with the value, its own error with the code, a protocol error or a closed transport with theirs; which flags are then set, and that no later event counts |
| Session.OneHolder | src-tauri/src/session.rs:226-241 | in every run at most one request holds the transport |
| Session.WireDiscipline | src-tauri/src/session.rs:192-260 | in every run ids on the wire strictly increase, no request writes twice, and nothing is written after a credentialed line |
| Session.ResultsBelong | src-tauri/src/session.rs:288-319 | in every run a returned value came as a result event, and a returned code as an error event, with the id of the caller's own line |
| Session.IdsCountRequests | src-tauri/src/session.rs:233-243 | in every run the ids taken are the numbers from 0 on, one a numbered request, and a wire line carries the number of its request |
| Session.SecretCloses | src-tauri/src/session.rs:192-204 | in every run a credentialed request that has ended, other than by being dropped, has closed and cancelled the session |
| Session.CalledTooLate | src-tauri/src/session.rs:213-221 | a request that is called after the session was closed, or an ordinary one after a credentialed one, is refused at once |
| Session.OvertakenNeverWrites | src-tauri/src/session.rs:229-241 | a request that waits for the transport while the session is closed or taken by a credentialed one never writes |
| Session.NoWriteAfterCancel | src-tauri/src/session.rs:256-260 | from any state with the close signalled and no request between its look at the signal and its write, no continuation starts another line |
| Session.OneWriteAfterCancel | src-tauri/src/session.rs:256-260 | when the signal falls between a request's look and its write, that one line can still start, and no other |
| Session.SilentIffNonePolled | src-tauri/src/session.rs:256-260 | in every run, once the close is signalled, silence is certain if and only if no request is between its look and its write |
| Session.ClosedTransportIsSilent | src-tauri/src/session.rs:348-352 | in every run, once the transport is closed, nothing more is written |
| TextLines.JoinSplit | src-tauri/src/pack_activation.rs:95-107 | splitting into pieces with their terminators loses no character |
| TextLines.SplitJoin | src-tauri/src/pack_activation.rs:95-107 | and is the only such list of pieces |
| TextLines.NoBareCrByLine | src-tauri/src/pack_activation.rs:60-70 | a text has no bare carriage return exactly when no piece has one |
| JsonStrings.ParseEscapedUnit | src-tauri/src/pack_activation.rs:93-93 | every escaped character, as section 7 of RFC 8259 prescribes, reads back as itself whatever follows |
| JsonStrings.ParsePrinted | src-tauri/src/pack_activation.rs:81-93 | every list of strings survives printing as a JSON array and reading back |
| JsonStrings.PrintedHasNoBreaks | src-tauri/src/pack_activation.rs:93-98 | the printed array contains no line break of either kind |
| JsonGrammar.ReadIff | src-tauri/src/pack_activation.rs:81-82 | the reader accepts exactly the texts that sections 5 and 7 of RFC 8259 take for an array of strings, with every escape and surrogate pair, and takes each for the list it stands for |
| JsonGrammar.ShortestSpelling | src-tauri/src/pack_activation.rs:93-93 | printing spells every character, in the shortest way the grammar has |
| PackOptions.Replace | src-tauri/src/pack_activation.rs:90-109 | the rewriting method computes the specified text, failing as the source does |
| PackOptions.RewriteLines | src-tauri/src/pack_activation.rs:94-107 | the loop over the pieces rewrites each piece independently |
| PackOptions.ParsedIff | src-tauri/src/pack_activation.rs:71-88 | a file is read as a list exactly when it has no bare carriage return and one line alone begins with the key, behind which stands an array for at most 512 different names of at most 1024 bytes each |
| PackOptions.CharacterSize | src-tauri/src/pack_activation.rs:84-84 | a character counts as the bytes that its bits need in UTF-8 |
| PackOptions.ParseReplaced | src-tauri/src/pack_activation.rs:71-109 | for every accepted file and every selection: reading what was written gives the selection if the reader can accept it, and a format error otherwise |
| PackOptions.ForeignLinesKept | src-tauri/src/pack_activation.rs:90-109 | exactly one line changes, every other line and every terminator is byte-identical |
| PackOptions.LastReplaceWins | src-tauri/src/pack_activation.rs:90-109 | replacing twice is replacing once with the last selection, whenever the first could be read back |
| PackOptions.ReplacedSize | src-tauri/src/pack_activation.rs:90-109 | the rewritten file is larger by exactly the bytes of the new list, less those of the old one |
| PackOptions.ValidSelectionStorable | src-tauri/src/pack_activation.rs:188-209 | a selection that passes the guard against valid installed names can always be read back |
| PackOptions.ValidSelectionIff | src-tauri/src/pack_activation.rs:188-209 | and the guard refuses nothing that could be stored and would keep the unknown entries |
| PackOptions.GuardedWrite | src-tauri/src/pack_activation.rs:188-209 | a guarded write stores exactly the selection, and keeps the unknown entries in their order |
| ShaderConfig.Parse | src-tauri/src/pack_activation.rs:717-752 | the reading loop agrees with the values collected from all lines, with the same errors |
| ShaderConfig.Replace | src-tauri/src/pack_activation.rs:754-794 | the rewriting method computes the specified text |
| ShaderConfig.RewriteLines | src-tauri/src/pack_activation.rs:754-785 | the loop rewrites piece by piece and knows whether a pack line was seen |
| ShaderLines.GivesIff | src-tauri/src/pack_activation.rs:695-715 | a line is read as a key and its value exactly when it is blanks, a key, blanks with at most one = or :, the value and line breaks, in ASCII without a backslash |
| ShaderLines.ParsedIff | src-tauri/src/pack_activation.rs:717-752 | a file is read as a setting exactly when every line is legible, one line alone gives enableShaders true or false, and at most one gives shaderPack, where nothing and (internal) are no pack |
| ShaderLines.WrittenExactly | src-tauri/src/pack_activation.rs:754-794 | what becomes of every line: the two settings in their places with their own terminators, all else unchanged, and a missing pack line on a line of its own, ended as the file ends its lines |
| ShaderConfig.ReplacedPieces | src-tauri/src/pack_activation.rs:754-794 | the pieces of the new file are the rewritten old pieces, plus at most one appended line |
| ShaderConfig.RoundTrip | src-tauri/src/pack_activation.rs:695-794 | the written setting is read back if and only if the pack name survives a properties line |
| ShaderConfig.AdmittedRoundTrip | src-tauri/src/pack_activation.rs:880-893 | every setting the write command admits is read back as written |
| ShaderConfig.ForeignLinesKept | src-tauri/src/pack_activation.rs:754-794 | other lines keep bytes and order; the only byte sequence ever added is the terminator of an unterminated last line before an appended one |
| ShaderConfig.LastReplaceWins | src-tauri/src/pack_activation.rs:754-794 | for every pair of settings that fit on a line, the last of two replacements wins if and only if the first left a name that can be read at all, and the second names a pack, or the first names none, or the file had a pack line |
| ShaderConfig.LastReplaceLoses | src-tauri/src/pack_activation.rs:754-794 | the failing input: in a file without a pack line a pack is chosen, and then none |
| ShaderConfig.ReplacedSize | src-tauri/src/pack_activation.rs:754-794 | the rewritten file is larger by exactly the bytes of the new setting lines and of an appended one with the terminator in front of it, less those of the old setting lines |
| PackActivation.RevisionTables.Snapshot | src-tauri/src/pack_activation.rs:553-566 | issues the next number, emptying a full table first, so that no table exceeds 64 revisions |
| PackActivation.RewrittenReads | src-tauri/src/pack_activation.rs:575-612 | an allowed request is what the rewritten file says, for both kinds of file |
| PackActivation.CompareAndSwap | src-tauri/src/pack_activation.rs:450-524 | in every run with outside edits, each replacement found exactly the text its revision was issued for, small enough to be read, in the file it was issued for, with no core request active, and left a file that says what was asked |
| PackActivation.SavedLoadsIff | src-tauri/src/pack_activation.rs:250-259 | what was saved loads again as what was asked if and only if the rewritten file is still within the 1 MiB that are read |
| PackActivation.SavedSize | src-tauri/src/pack_activation.rs:250-259 | for both kinds of file, the rewritten file is within the limit if and only if the old file, the setting in it and the new setting leave the room |
| PackActivation.SavedLoadsBySize | src-tauri/src/pack_activation.rs:250-259 | so in every run what was saved loads again as what was asked, if and only if the file it replaced and the request left the room |
| PackActivation.SavedTooLarge | src-tauri/src/pack_activation.rs:250-259 | the failing input for options: a full file to which one installed pack is added is written and then refused by the next read |
| PackActivation.SavedShaderTooLarge | src-tauri/src/pack_activation.rs:250-259 | the failing input for shaders: a full configuration in which a pack is chosen is written and then refused by the next read |
| PackActivation.RevisionsWorkOnce | src-tauri/src/pack_activation.rs:590-599 | in every run a revision passes the lookup at most once and replaces a file at most once, and the tables stay bounded |
| PackActivation.RevisionStays | src-tauri/src/pack_activation.rs:553-566 | an issued revision leaves its table in a step exactly when a write takes it or the next revision of its kind finds the table full; until then it keeps its text |
| PackActivation.RevisionLasts | src-tauri/src/pack_activation.rs:553-566 | so in every run it is still there if no write took it and its table had room for the revisions of its kind issued since |
| PackActivation.GetsPastIff | src-tauri/src/pack_activation.rs:590-602 | a write gets past the lookup exactly when its revision is in the table of its kind, for its own file |
| PackActivation.ReadSteps | src-tauri/src/pack_activation.rs:534-543 | a read of a file that loads issues a revision for exactly its text |
| PackActivation.UndisturbedSave | src-tauri/src/pack_activation.rs:590-612 | a write under a listed revision that nothing disturbs replaces the file by the rewritten text and issues a new revision for it |
| PackActivation.OnlyRecordedChanges | src-tauri/src/pack_activation.rs:450-524 | a file changes only by an outside edit or by a recorded replacement |
| DiagnosticLog.PiecesOfFrame | src-tauri/src/diagnostics.rs:389-435 | splitting the bytes of a segment at newlines gives back the records written |
| DiagnosticLog.PiecesExactly | src-tauri/src/diagnostics.rs:435-435 | any bytes: the lines and the unterminated rest, as far as they are not empty |
| DiagnosticLog.Store.AppendRecord | src-tauri/src/diagnostics.rs:384-418 | an enabled log stores a valid record within the limit exactly when no fault hits; it is then the newest one behind all that were retained, but for the oldest file when there was no room; a disabled log reports success and stores nothing |
| DiagnosticLog.EverythingStored | src-tauri/src/diagnostics.rs:384-418 | without faults exactly the valid lines within the limit that came while the log was enabled are stored, since the last clear |
| DiagnosticLog.Store.RotateFiles | src-tauri/src/diagnostics.rs:401-414 | the remove and rename loop, stopping at any fault, is the specified shift of the segments |
| DiagnosticLog.Store.Clear | src-tauri/src/diagnostics.rs:457-470 | a successful clear empties the log and leaves the switch alone |
| DiagnosticLog.Store.Read | src-tauri/src/diagnostics.rs:419-456 | the reading loop over the files, oldest first, is the specified fold |
| DiagnosticLog.ShiftRetained | src-tauri/src/diagnostics.rs:409-413 | the rename loop loses and reorders nothing, wherever it stops |
| DiagnosticLog.LogIsSuffix | src-tauri/src/diagnostics.rs:384-470 | for every run with every fault, from any files of whole records: no segment exceeds its cap, and the segments from oldest to newest are a suffix, in whole records, of what was found and what was stored, since the last clear |
| DiagnosticLog.TailSurvives | src-tauri/src/diagnostics.rs:401-418 | from any such files and without faults, more than 3 * (262144 - 1024) bytes survive once three rotations have happened |
| DiagnosticLog.ReadReturnsLatest | src-tauri/src/diagnostics.rs:419-456 | a read returns the last min(n, 4096) retained records in order and counts the rest as skipped |
| DiagnosticLog.ReadGathers | src-tauri/src/diagnostics.rs:419-456 | whatever is in the files, a read returns the last 4096 records among their lines, oldest file first, and records and skips add up to the lines of the files that are not too large, and those files |
| DiagnosticQueue.Worker.Handle | src-tauri/src/diagnostics.rs:580-613 | one turn of the worker: effect on the store, the shared counters and the reply, for every command and fault |
| DiagnosticQueue.CallsAccounted | src-tauri/src/diagnostics.rs:624-631 | in every run each call seen while enabled is about to try, queued once, turned away, or handled at the one position where the worker processed it; the counter is exactly the number of calls turned away or not stored by an enabled log; and diagnostics are available unless the last command went wrong |
| DiagnosticQueue.QueuedAsSent | src-tauri/src/diagnostics.rs:624-677 | in every run the other commands are queued as they were sent, and the calls accounted for are exactly those that saw recording enabled |
| DiagnosticQueue.ReadsAnswered | src-tauri/src/diagnostics.rs:592-596 | in every run a processed read has a reply exactly when storage did not fail it |
| DiagnosticQueue.VerdictIsTrue | src-tauri/src/diagnostics.rs:384-418 | a handled record is the newest one retained, or met a disabled log that did not change, or added nothing |
| DiagnosticQueue.RepliesInOrder | src-tauri/src/diagnostics.rs:661-665 | in every run each reply belongs to its own read command, and gives the latest retained records of what was found at first and what exactly the commands queued before that read have stored, since the last clear |
| DiagnosticQueue.OffStaysOff | src-tauri/src/diagnostics.rs:671-677 | once switched off, every record is ignored and the log can only be cleared until a later enable is processed |
| ModpackDirectory.DirectoryBudget | src-tauri/src/modpack_preview.rs:90-177 | the scan computes the specified verdict for every byte string, with all slices in range |
| ModpackDirectory.FindEnd | src-tauri/src/modpack_preview.rs:103-109 | the backward search returns the last end record whose comment reaches the end |
| ModpackDirectory.CountManifests | src-tauri/src/modpack_preview.rs:137-171 | the walk with a cursor and a counter is the record-by-record specification |
| ModpackDirectory.TailSuffices | src-tauri/src/modpack_preview.rs:97-109 | searching the last 65557 bytes finds the same end record as searching the file |
| ModpackDirectory.WalkTiles | src-tauri/src/modpack_preview.rs:137-171 | a walk that succeeds has cut the directory into consecutive records up to its end, and counted the manifests among them |
| ModpackDirectory.AcceptedIsWellLaidOut | src-tauri/src/modpack_preview.rs:90-177 | an accepted archive is single-disk, within the limits, its directory tiles into exactly n records without a gap, and exactly one is a usable manifest |
| ModpackDirectory.WellLaidOutIsAccepted | src-tauri/src/modpack_preview.rs:90-177 | and every such archive is accepted with its n |
| ModpackDirectory.VerdictIff | src-tauri/src/modpack_preview.rs:90-177 | for every file and every verdict, success or the error it is refused with: it is the one that follows from the size, the last end record, its fields, the first record that is not sound, and the manifests, in that order |
| ModpackDirectory.ManifestNames | src-tauri/src/modpack_preview.rs:154-154 | the manifest names are modrinth.index.json and manifest.json |
| ModpackWriter.RecordInPlace | src-tauri/src/modpack_preview.rs:140-163 | a record written by section 4.3.12 of PKWARE APPNOTE reads back: signature, length, name, flags, method and mode |
| ModpackWriter.WrittenIsJudged | src-tauri/src/modpack_preview.rs:90-177 | every archive a writer lays out within the limits, with no later end record, is accepted with the writer's count if and only if it has one manifest and that one is usable; none, several and unusable ones are refused |
| ModpackWriter.UncommentedIsJudged | src-tauri/src/modpack_preview.rs:90-177 | without an archive comment no later end record can exist, so that holds for all of them |
| ByteLines.FirstLine | src-tauri/src/ssh_transport.rs:93-98 | a line and its newline in front of any rest are found as the first line |
| BoundedLines.ReadBoundedLine | src-tauri/src/ssh_transport.rs:79-114 | for every stream and every cut into chunks: the result, and what is left after a line, depend only on the whole stream, and the buffer never exceeds 2 MiB |
| BoundedLines.FinishLine | src-tauri/src/ssh_transport.rs:97-105 | consumes past the newline, drops one carriage return, and decodes |
| BoundedLines.PumpStdout | src-tauri/src/ssh_transport.rs:172-196 | the reader loop delivers the events of the stream in order, as many as are taken, and flags corruption exactly when it got to an event that says so |
| BoundedLines.EventsOfLines | src-tauri/src/ssh_transport.rs:79-114 | reading gives what splitting at newlines and judging line by line gives: too long exactly above the limit, partial exactly when unterminated |
| BoundedLines.EveryStreamSplits | src-tauri/src/ssh_transport.rs:79-114 | every stream is such a list of lines and an unterminated rest |
| BoundedLines.StreamDelivers | src-tauri/src/ssh_transport.rs:79-196 | every stream: the lines without one final carriage return, up to the first that is longer than 2 MiB or no text; then corruption there, or a clean end, the read error, or corruption for an unterminated rest |
| BoundedLines.FramedLinesReturn | src-tauri/src/ssh_transport.rs:79-114 | lines framed with newlines come back unchanged, followed by a clean end, if and only if each is valid text within the limit that does not end in a carriage return |
| Md5Words.RotateIsCircular | src/lib/md5.ts:67-67 | two shifts are the circular shift, for every shift amount of the table |
| Md5.PaddedLengthExact | src/lib/md5.ts:26-26 | in 32-bit arithmetic the length formula gives the length RFC 1321 pads to |
| Md5.PaddedLengthLeast | src/lib/md5.ts:26-26 | which is the least multiple of 64 with room for nine more bytes |
| Md5.PaddedLengthWraps | src/lib/md5.ts:26-28 | and from 2^31 - 72 bytes on it is too small for the text |
| Md5.LengthHalves | src/lib/md5.ts:31-32 | the two 32-bit halves are the 64-bit length of section 3.2, low-order byte first |
| Md5.Fill | src/lib/md5.ts:27-32 | the buffer filled in place is the padded message of sections 3.1 and 3.2 |
| Md5.IndexAgrees | src/lib/md5.ts:8-62 | the index formulas and the shift table are the 64 printed operations of section 3.4 |
| Md5.SourceStep | src/lib/md5.ts:47-69 | one pass of the loop computes the right-hand side of the operation, with the source's own bit formulas |
| Md5.Step | src/lib/md5.ts:63-68 | renaming four variables after each pass is rotating the registers' roles |
| Md5.Compress | src/lib/md5.ts:43-69 | 64 passes are the 64 operations on one block |
| Md5.Load | src/lib/md5.ts:41-41 | sixteen little-endian words of the block |
| Md5Standard.RegistersStart | src/lib/md5.ts:34-38 | the registers start as section 3.3 of RFC 1321 prints them, byte by byte, and are put out low-order byte first |
| Md5.Md5Hex | src/lib/md5.ts:21-86 | for every text below 2^31 - 72 bytes the result reads back, two digits a byte, as the digest of RFC 1321, and a range error otherwise |
| HexText.HexOf | src/lib/md5.ts:81-84 | padding each byte in base 16 gives two digits a byte, which read back as that byte by the places of the digits in the alphabet |
| HexText.HexReads | src/lib/md5.ts:81-84 | reading the text two digits at a time gives the bytes |
| HexText.HexInjective | src/lib/md5.ts:81-84 | different digests have different texts |
| Splitting.SplitAround | src/lib/logBuffer.ts:14-14 | a separator between two texts separates their parts |
| LogBuffer.StreamLineBuffer.Push | src/lib/logBuffer.ts:12-32 | returns the completed lines and keeps the rest pending, for its stream only |
| LogBuffer.StreamLineBuffer.Flush | src/lib/logBuffer.ts:34-43 | returns what is pending, first stdout then stderr, and leaves nothing |
| LogBuffer.PartsAreLines | src/lib/logBuffer.ts:14-14 | replacing CRLF and splitting gives the lines, each without the one CR before its newline, and the raw tail |
| LogBuffer.Append | src/lib/logBuffer.ts:13-29 | the pending tail is all that is needed to continue a text, even between a CR and its LF |
| LogBuffer.CutsDoNotMatter | src/lib/logBuffer.ts:12-43 | two interleaved streams cut anywhere and flushed show the lines of their whole texts and a non-empty tail |
| LogBuffer.ShownExactly | src/lib/logBuffer.ts:20-27 | with newline and eof records, each stream shows its records however they were cut, if and only if no newline push comes empty after its record's own newline |
| LogBuffer.SpuriousWitness | src/lib/logBuffer.ts:20-27 | the failing input: one record, whole and cut after its own newline, with what each shows; the cut shows one empty line too many |
| InstancePaths.NormalizedPath | src/lib/instanceCoordinator.ts:79-98 | the loop over the segments computes the specified normal form |
| InstancePaths.PartsCanonical | src/lib/instanceCoordinator.ts:84-93 | what remains are clean segments, with `..` only in front and never in an absolute path |
| InstancePaths.NormalIdempotent | src/lib/instanceCoordinator.ts:79-98 | normalising twice is normalising once |
| InstancePaths.SlashStyle | src/lib/instanceCoordinator.ts:80-80 | the two slash styles are the same path |
| InstancePaths.RepeatedSlash | src/lib/instanceCoordinator.ts:85-85 | a repeated slash between two segments or in front of the first changes nothing |
| InstancePaths.DotSegment | src/lib/instanceCoordinator.ts:85-85 | a `.` segment between two slashes changes nothing |
| InstancePaths.TrailingSlash | src/lib/instanceCoordinator.ts:84-97 | a slash at the end changes nothing, if and only if the path before it is not empty |
| InstancePaths.TrailingDot | src/lib/instanceCoordinator.ts:84-97 | nor does `/.` at the end, under the same condition |
| InstancePaths.LeadingDot | src/lib/instanceCoordinator.ts:84-97 | `./` in front changes nothing, if and only if the path after it is relative |
| InstancePaths.CancelledPair | src/lib/instanceCoordinator.ts:86-91 | `x/..` between two slashes cancels, unless `x` is a drive with no part before it: then only the `..` goes |
| InstancePaths.CancelledPairExact | src/lib/instanceCoordinator.ts:86-91 | at the end of a path, against the path with the slash before it, it cancels if and only if `x` is not such a drive |
| InstancePaths.TrailingPair | src/lib/instanceCoordinator.ts:86-91 | and against the path without that slash, if and only if moreover that path is not empty |
| InstancePaths.LeadingPair | src/lib/instanceCoordinator.ts:86-91 | at the start of a relative path it cancels for a segment that is no drive, if and only if what follows is relative; behind a drive only the `..` goes |
| InstancePaths.OnlyPair | src/lib/instanceCoordinator.ts:86-98 | alone it is the working directory if and only if the segment is no drive |
| InstancePaths.DriveStays | src/lib/instanceCoordinator.ts:87-88 | the failing input: `C:/..` is `C:`, and the same behind a slash |
| InstancePaths.KeysAgree | src/lib/instanceCoordinator.ts:101-111 | for every root and plain id the key of the game directory is the key of root and id, if and only if the root normalises to neither `/` nor `.` |
| InstancePaths.KeysAgreeOnWindows | src/lib/instanceCoordinator.ts:101-111 | the same with backslashes |
| InstancePaths.KeysDifferAtRoot | src/lib/instanceCoordinator.ts:101-111 | the failing input: at `/` the two keys of one instance differ |
| InstanceCoordinator.InstanceOperationCoordinator.TryAcquire | src/lib/instanceCoordinator.ts:53-58 | fails exactly when the instance is busy; otherwise hands out a lease that is the only unreleased one |
| InstanceCoordinator.InstanceOperationCoordinator.Release | src/lib/instanceCoordinator.ts:59-63 | frees the instance the first time and does nothing afterwards, even when another operation of the same kind holds it by then |
| EventForwarder.CompactEventForwarder.Push | src-tauri/src/lib.rs:153-173 | one event through the filter, for any clock reading |
| EventForwarder.SentIsSubsequence | src-tauri/src/lib.rs:153-180 | for every event sequence and all clock readings the output is a subsequence of the input |
| EventForwarder.BarriersDelivered | src-tauri/src/lib.rs:171-172 | every event other than file and progress is delivered, in order |
| EventForwarder.LastProgressDelivered | src-tauri/src/lib.rs:224-245 | by the final flush the last progress event has been delivered as the last of its kind |
| EventForwarder.SentBeforeBarrier | src-tauri/src/lib.rs:171-180 | before each other event, what was sent is what would have been sent had the request ended there, so the latest progress came first |
| EventForwarder.DisabledIsIdentity | src-tauri/src/lib.rs:154-157 | switched off, the forwarder is the identity |
| EventForwarder.NoFiles | src-tauri/src/lib.rs:158-160 | switched on, no file event gets through |
| EventForwarder.SentEventByEvent | src-tauri/src/lib.rs:134-180 | for all clock readings: progress is sent at once exactly when 100 ms have passed since progress was last sent, and is otherwise owed; any other event sends what is owed and itself; the final flush sends what is owed then |
| DatapackController.ClientDatapackController.Deliver | src/lib/clientDatapacks.ts:24-101 | every call, answer, progress event and settled close moves the fields of the controller exactly as the machine of the theorems does, and what cannot happen now moves nothing |
| DatapackStory.AnswersAndShows | src/lib/clientDatapacks.ts:45-101 | in every run of the machine, from the events alone: a mutation answers true exactly when its reply was a success, a load exactly when its session opened, and both only when still current; while current, the snapshot shows the error of the failing event and the list and lock of the replies since the refresh began |
| DatapackStory.AnswerStays | src/lib/clientDatapacks.ts:99-100 | an answer once given does not change |
| DatapackStory.EndsRight | src/lib/clientDatapacks.ts:93-101 | a run ends with the answer that its own events decide |
| DatapackController.OneRunAtATime | src/lib/clientDatapacks.ts:45-101 | in every run of the machine at most one run is past the guard, and the guard is down exactly when none is |
| DatapackController.SessionsClosedOnce | src/lib/clientDatapacks.ts:54-98 | no session's close is invoked twice, at most one session is un-closed, and when no run is left every opened session has been closed |
| DatapackController.MutationsAreChecked | src/lib/clientDatapacks.ts:60-66 | a mutation is sent only after the same session reported the world unlocked in the same generation |
| DatapackController.CancelReaches | src/lib/clientDatapacks.ts:28-28 | after a cancel every session that was opened is closing |
| DatapackController.CancelHolds | src/lib/clientDatapacks.ts:28-101 | after a cancel, whatever still arrives, the snapshot stays empty and no mutation is sent until a later run starts |

## Left out

- Process spawning, SSH arguments, standard error tails, reaping timeouts, keychain and HTTP calls,
  dialogs and command wrappers: calls into code with nothing of its own to prove.
- Directory-descriptor path opening, link checks, permissions and the Windows file operations of the
  activation editor: operating-system behaviour; a file is a value with an atomic replace.
- The instance manifest check and the listing of installed packs: the list is a parameter whose names
  are assumed to pass the listing's own filter.
- Field checks of endpoints (labels, destinations, directories) and the size of the encoded
  configuration: functions of `EndpointConfig.Rules`, assumed to accept their own results.
- Partial disk writes in the diagnostic log and a clear that fails halfway: the source defines no
  outcome for them. Runs of the log start on any files of whole records within the cap; a single read
  is proved for any bytes in the files (`DiagnosticLog.ReadGathers`).
- The manifest parsers and the archive library behind the directory scan.
- Re-entrant calls from listeners of the datapack controller inside one synchronous step.
- InstanceOperationCoordinator.run: acquiring, awaiting and releasing is the pair `TryAcquire` and
  `Release`; what the awaited action does is not modelled.
- Opens that are in flight while the pool is cleared at shutdown: clearing bumps no generation, so
  nothing is claimed about them beyond conservation and the indexes.
- Two mounted endpoint managers at once, each with a queue of its own.
- The size check before a replacement on Windows (`windows.rs`): `PackActivation` follows the other
  systems, where a replacement of any size is written.
- Md5.Md5Hex: the table `K` is compared with nothing, because evaluating sines in floating point is
  outside the model.
- React components, translations, updater phases, installation progress text, Java and launch
  preferences, server status cache, catalog request checks and SSH error classification: presentation
  or fixed tables.

# Verified model of ripmcp's core protocols and algorithms

ripmcp runs and calls MCP servers for its user: it keeps OAuth credentials in
the system keyring, speaks JSON-RPC to servers over stdio and HTTP, installs
servers into configuration files, and removes what it owns. This project models
the parts of it where order, crashes, concurrency or exact text handling decide
whether it is right, and proves what those parts promise.

The concurrent and crash-prone parts are state machines with one event per step
of the program; a run is any interleaving of such events, with a failure or a
crash possible between any two of them. Beside each of these machines stands the
program itself, as a class whose methods follow the statements of the source and
record every step as an event of the machine: what is proved about all runs holds
of these methods, among any other actors and wherever they are cut off. Other
code that works in place is a class or a loop, proved against a specification
function, and the promises are proved about that function.

| modules | what they model |
|---|---|
| `Vault`, `VaultInvariant`, `VaultTheorems`, `VaultProgram` | the OAuth vault (keyring record, epoch file, file lock) and login, logout, refresh and challenge on top of it |
| `Registry`, `RegistryRuns` | the stdio request registry, and callers, server, close and `settle` around it |
| `Sse`, `SseBatch`, `SseSpelling` | the incremental server-sent-events parser, a batch reading of section 9.2 of the WHATWG HTML standard, and what a stream of written events reports |
| `Decimal`, `HeaderIntegers` | exact normalisation of JSON number texts |
| `HeaderEncoding`, `ToolHeaders` | header values, base64 (section 4 of RFC 4648), UTF-8, and the headers of a tool call |
| `Json`, `HeaderAnnotations`, `AnnotationSites` | the schema annotation walk, and what it accepts told without the walk |
| `Challenges`, `ChallengeSpelling`, `ChallengeHeaders`, `Scopes` | the WWW-Authenticate parser (sections 11.6.1 and 5.6.4 of RFC 9110), every way to spell its input and which of them it reads as meant, what a response's headers come to, and scope unions |
| `Shape` | the shape report under limits of depth, width and nodes |
| `LockedStore`, `LockedStoreTheorems`, `LockedStoreProgram` | the atomic locked store, with crashes, outside edits and power loss |
| `Quarantine`, `QuarantineTheorems` | removing one recorded object by way of a quarantine name |
| `CleanupPlan`, `CleanupTheorems`, `CleanupJournal` | which resources may be deleted, in which order, and carrying the plan out |
| `SelfRemoval`, `SelfRemovalProgram` | self-removal and its recovery from the marker file |
| `Install`, `InstallTheorems`, `InstallProgram`, `Pinned` | the install transaction, the launch guard, and pinned resolutions |

Results that came out against expectation, each with the exact condition:

- An update of the locked store that finds nothing to change returns Ok without
  syncing anything, so a power loss can undo the commit it relied on
  (`LockedStoreTheorems.UnchangedOkCanBeLost`). The commit stands in every
  continuation if and only if it is the first one, or the directory was synced or
  power was lost since it was made (`UnchangedStandsIff`); a caller is safe when the
  write that made it had returned Ok (`UnchangedAfterOkStands`).
- A removal halted between its two renames strands a non-empty directory in
  quarantine, and no retry brings it back
  (`QuarantineTheorems.FullDirectoryComesBack`, `StrandedStays`).
- Three kinds of challenge that the grammar allows are read as something else or
  refused: a token68 after Bearer ("Bearer abc" is read as two schemes), blanks
  around the equals sign of a first parameter of another scheme, and a tab in a
  quoted string. A meaningful text is read as it is meant if and only if it has none
  of the three (`ChallengeSpelling.ReadAsMeantIff`, `BearerToken68IsMisread`,
  `BearerAbc`, `LooseParameterIsMisread`).
- A JSON number whose exponent does not fit an i64 is refused even if it denotes 0,
  like 0e9223372036854775808 (`HeaderIntegers.HugeExponentOfZero`). The answer is
  right if and only if the exponent fits or some digit is not zero
  (`IntegerIsRightIff`).
- A crash between the journal registration and the configuration change, followed
  by a reinstall, leaves two registered entries, and nothing is let start
  (`InstallTheorems.ReinstallAfterCrashIsRefused`). An undisturbed install is let
  start if and only if no entry was registered for its scope and name before
  (`InstallCompletes`).

## Model

| member | source | states |
|---|---|---|
| `VaultInvariant.StepInv` | src/auth/credentials.rs:124-219 | every step of any actor, every failure, abandoned write, late landing and outside erase keeps the vault invariant (lock discipline, one record per generation, epoch and store agreement, unsent refresh tokens) |
| `VaultInvariant.RunInv` | src/auth/credentials.rs:124-219 | the invariant holds in every reachable state of any number of actors |
| `VaultTheorems.ReadAnswersLatestPublished` | src/auth/credentials.rs:156-197 | a read under the lock, although its two reads are separate steps, answers only with the record of the most recently started write, and only once that write published its generation |
| `VaultTheorems.VisibleIsLatest` | src/auth/credentials.rs:156-171 | whatever store and epoch show at any moment is the record of the last started write, published |
| `VaultTheorems.FoundUnlessContradicted` | src/auth/credentials.rs:156-171 | a record is found exactly while it is stored and no epoch file names another generation |
| `VaultTheorems.NoRecordReappears` | src/auth/credentials.rs:199-219 | once a later write has started, no record visible before becomes visible again, late landings included |
| `VaultTheorems.WriteCompletes` | src/auth/credentials.rs:199-219 | the four steps of an undisturbed write hide everything until the last one, which makes exactly its record visible |
| `VaultTheorems.PublishedWasReadBack` | src/auth/credentials.rs:208-219 | in a run a generation is published only after the keyring was read back and held exactly its record |
| `VaultTheorems.RefreshTokenSentAtMostOnce` | src/auth/provider.rs:169-240 | over a whole run no refresh token is sent to the token endpoint twice, whoever sends it |
| `VaultTheorems.InvalidatedBeforeSent` | src/auth/provider.rs:191-240 | when a refresh token is sent, its record was already replaced by a published empty one, and no record visible later contains the token |
| `VaultTheorems.DisturbedLoginStops` | src/auth/provider.rs:56-143 | if any write starts between a login's begin and its generation check, that login neither sends its code nor starts the write of a credential |
| `VaultTheorems.LoginWritesFollowItsBegin` | src/auth/provider.rs:56-143 | a code is sent only while the login's own first write is still the last one started, and published |
| `VaultTheorems.RejectionMarksItsOwnCredential` | src/auth/provider.rs:278-316 | a challenge marks login as required only on the latest record, only when its credential holds the rejected access token, and keeps that credential |
| `VaultTheorems.HistoryIsChain` | src/auth/provider.rs:56-240 | every started write is justified by the one started just before it, and no two share a generation |
| `VaultProgram.Provider.Write` | src/auth/credentials.rs:199-219 | the write's statements, with late writes landing in between, are steps of the machine; Ok means its record is the last one started and published, an error leaves the lock free |
| `VaultProgram.Provider.LogOut` | src/auth/provider.rs:159-167 | after Ok no credential is visible: a published record without one is the last, or nothing was stored; undisturbed it returns Ok, and writes just if anything was stored |
| `VaultProgram.Provider.StartLogin` | src/auth/provider.rs:112-124 | a login's first section ends with its own generation published as the last one, and the lock free; undisturbed it ends so, with what was stored kept under that generation |
| `VaultProgram.Provider.FinishLogin` | src/auth/provider.rs:86-143 | Ok means the exchanged credential is the last one written, and published; undisturbed that is so exactly if its own generation is still the one found and the endpoint answers |
| `VaultProgram.Provider.GetCredential` | src/auth/provider.rs:169-189 | a credential handed out is that of the last record written, published and not marked as login required, whether stored or renewed; an expired one is answered with the endpoint's new one or not at all; what an undisturbed call hands out, case by case |
| `VaultProgram.Provider.Refresh` | src/auth/provider.rs:191-240 | invalidation, sending and storing are steps of the machine in that order; an answer that echoes the sent token yields no credential |
| `VaultProgram.Provider.Challenged` | src/auth/provider.rs:278-316 | when a challenge marks, the last record written is the marked one, with the rejected credential and the new scopes; undisturbed it marks exactly if the rejected token is that of the stored credential |
| `Registry.Registry.Register` | src/mcp/stdio/registry.rs:57-77 | the new registry state and answer for every id: pending entry and highest number recorded, or the permit given back on a closed registry or a foreign id |
| `Registry.Registry.Receive` | src/mcp/stdio/registry.rs:78-95 | a response answers its own waiter and frees one permit, frees an abandoned entry and notifies, is ignored if already seen, or is a protocol error |
| `Registry.Registry.Drain` | src/mcp/stdio/registry.rs:96-107 | in any iteration order, every pending waiter gets the close error exactly once and every permit comes back |
| `Registry.Registry.Close` | src/mcp/stdio/registry.rs:96-107 | the first error is kept, all waiters fail, nothing stays pending or abandoned, all permits return, settlers are notified |
| `Registry.Registry.Drop` | src/mcp/stdio/registry.rs:123-147 | a dropped request that was submitted becomes abandoned and is to be cancelled, one that was not gives its permit back, a finished one changes nothing |
| `Registry.Registry.CheckSettled` | src/mcp/stdio/registry.rs:33-47 | a turn of `settle` returns exactly if nothing is abandoned; otherwise it stays enabled, and a notification since then is kept |
| `RegistryRuns.StepInv` | src/mcp/stdio.rs:97-131 | every event of callers, server, close and settlers keeps the registry invariant |
| `RegistryRuns.PermitsConserved` | src/mcp/stdio.rs:97-131 | free permits, permits in callers' hands, pending and abandoned entries always add up to the limit |
| `RegistryRuns.ServerHoldsAtMostInFlight` | src/mcp/stdio.rs:97-131 | before close every submitted unanswered request is in exactly one of pending and abandoned, so the server never holds more than the limit |
| `RegistryRuns.AtMostOneOutcome` | src/mcp/stdio/registry.rs:78-107 | over a whole run a waiter gets at most one outcome: the first response with its own id, or the error of a closed registry |
| `RegistryRuns.NoWaiterForgotten` | src/mcp/stdio/registry.rs:57-107 | every registered waiter is pending or has had its outcome sent |
| `RegistryRuns.ClosedStaysClosed` | src/mcp/stdio/registry.rs:57-107 | a closed registry stays closed with its first error, and empty |
| `RegistryRuns.ParkedMeansAbandoned` | src/mcp/stdio/registry.rs:37-47 | a settler sleeping without a notification implies that something is abandoned |
| `RegistryRuns.RegisteredIdAccepted` | src/mcp/stdio/registry.rs:78-122 | a response to any id ever registered, however late or repeated, is never a protocol error |
| `RegistryRuns.ResponseAcceptedIff` | src/mcp/stdio/registry.rs:78-95 | in a run a response is taken without complaint if and only if its id carries a number no higher than that of some request registered before; any other is a protocol error that changes nothing |
| `RegistryRuns.CancelledIff` | src/mcp/stdio/registry.rs:123-147 | dropping a registered request calls for a cancellation if and only if it was submitted, is unanswered and the registry is open; just then it becomes abandoned |
| `RegistryRuns.PendingIsAnswered` | src/mcp/stdio/registry.rs:78-95 | the response to a pending request goes to its own waiter, unchanged |
| `RegistryRuns.ClosedOutcomeIsOfAClose` | src/mcp/stdio/registry.rs:96-107 | a waiter that gets an error of the registry was pending when it was closed with that very error |
| `RegistryRuns.ClosedRefuses` | src/mcp/stdio/registry.rs:57-67 | after a close nothing is registered, the permit comes back, and the error is that of the first close |
| `RegistryRuns.OpenAccepts` | src/mcp/stdio/registry.rs:57-77 | before a close every id made from the counter is registered for its own caller |
| `RegistryRuns.RequestIdNumber` | src/mcp/client.rs:137-141 | the number read back from a request id is the counter value it was made from |
| `Sse.Events.Feed` | src/mcp/sse.rs:28-48 | the byte loop over a chunk reaches exactly the specified parser state and result, byte budget and CR LF state included |
| `Sse.Events.EndLine` | src/mcp/sse.rs:50-74 | a finished line has exactly the specified effect on data, event and the first-line mark |
| `Sse.Events.Dispatch` | src/mcp/sse.rs:76-98 | a blank line yields exactly the specified result, error or nothing, and resets the event |
| `Sse.ChunkingDoesNotMatter` | src/mcp/sse.rs:28-48 | any two ways to cut the same bytes into chunks give the same first result or error |
| `Sse.RunOfNormal` | src/mcp/sse.rs:28-48 | reading a stream equals reading it with every line ending made LF |
| `Sse.LineEndingsDoNotMatter` | src/mcp/sse.rs:28-48 | a CR-free stream with every LF replaced by CR or by CR LF gives the same outcome, byte budget included |
| `SseBatch.RunIsBatch` | src/mcp/sse.rs:28-98 | on an LF stream the byte-by-byte parser equals the batch reading: split into lines, group on blank lines, join data with LF |
| `SseBatch.ParserRefinesBatch` | src/mcp/sse.rs:28-98 | for any chunking and any line endings, feeding the parser gives the batch reading of the normalised stream |
| `SseSpelling.FieldIsReadBack` | src/mcp/sse.rs:60-64 | a field is read back by name and value, with or without one space after the colon, or without a colon |
| `SseSpelling.JudgeIff` | src/mcp/sse.rs:87-97 | a result comes only from a decoded response with the awaited id; which messages are passed over and which error each other one is |
| `SseSpelling.BomIsStrippedOnce` | src/mcp/sse.rs:51-55 | one leading byte order mark is dropped, and no second one |
| `SseSpelling.StreamIsReadAsWritten` | src/mcp/sse.rs:28-98 | whatever the chunks and line endings, a stream of written events reports what its first event reports that is too long or has a result or an error, told from the fields alone, the byte budget exact |
| `SseSpelling.EventAnswersIff` | src/mcp/sse.rs:50-98 | an event that fits answers the awaited request if and only if it has data, no other event type, and its joined data decode to the response with that id |
| `SseSpelling.InvalidUtf8IsRefused` | src/mcp/sse.rs:56 | an event that fits but has a line that is no UTF-8 is a protocol error |
| `SseSpelling.KnownNames` | src/mcp/sse.rs:65-84 | the field names and the event type are `data`, `event` and `message` |
| `HeaderIntegers.IntegerIsExact` | src/mcp/headers.rs:124-160 | with an exponent that fits an i64, a number text is accepted exactly when it denotes an integer of magnitude at most 2^53-1, and the answer is the canonical decimal of that integer |
| `HeaderIntegers.IntegerOfPrint` | src/mcp/headers.rs:124-141 | the sign, mantissa and exponent cut from a number text are those it was written with |
| `HeaderIntegers.HugeExponentRefused` | src/mcp/headers.rs:128-131 | an exponent beyond i64 is always refused, even for a zero |
| `HeaderIntegers.HugeExponentDenotesNothing` | src/mcp/headers.rs:124-160 | with such an exponent and a digit other than zero, a text shorter than 2^63 characters denotes no integer of the safe range |
| `HeaderIntegers.IntegerIsRightIff` | src/mcp/headers.rs:124-160 | a text shorter than 2^63 characters is judged rightly (accepted exactly when it denotes an integer of the safe range) if and only if its exponent fits an i64 or some digit is not zero |
| `HeaderIntegers.HugeExponentOfZero` | src/mcp/headers.rs:128-131 | 0e9223372036854775808 denotes 0 and is refused |
| `HeaderIntegers.IntegerIff` | src/mcp/headers.rs:124-160 | told of the text alone: it is accepted exactly when it stands, with an exponent that fits, for an integer of the safe range, and the answer is that integer's decimal |
| `HeaderEncoding.DecodeOfEncode` | src/mcp/headers.rs:179 | base64 decoding undoes encoding for all byte strings, padding included |
| `HeaderEncoding.UnwrapUndoesEncode` | src/mcp/headers.rs:169-183 | unwrapping a header value, plain or wrapped, gives the original value back |
| `HeaderEncoding.EncodedIsInjective` | src/mcp/headers.rs:169-183 | different byte strings never share a header value |
| `HeaderEncoding.EncodedIsHeaderText` | src/mcp/headers.rs:169-183 | every header value is visible text without surrounding spaces, and of the wrapped form exactly when it did not pass through plain |
| `HeaderEncoding.PlainIff` | src/mcp/headers.rs:169-178 | a value goes through unchanged exactly if it has no outer spaces, holds only visible characters, spaces and tabs, and does not look wrapped; any other is wrapped as the text says |
| `HeaderEncoding.LettersAreStandard` | src/mcp/headers.rs:178 | the letters are those of table 1 of RFC 4648 |
| `HeaderEncoding.QuadIsBigEndian` | src/mcp/headers.rs:178 | four letters carry three bytes, most significant bits first |
| `HeaderEncoding.StandardVectors` | src/mcp/headers.rs:178 | test vectors of section 10 of RFC 4648, with each number of pads |
| `ToolHeaders.Utf8IsInjective` | src/mcp/headers.rs:169-183 | different strings have different UTF-8 bytes |
| `ToolHeaders.EncodedTextIsInjective` | src/mcp/headers.rs:169-183 | different strings never share a header value |
| `ToolHeaders.Utf8Form` | src/mcp/headers.rs:169-178 | the bytes of a character: their number, the leading byte, the continuations, and the code point they carry |
| `ToolHeaders.LookupIsAt` | src/mcp/headers.rs:99-103 | the argument of a path is what stands at the position of its keys, each below the one before |
| `ToolHeaders.PrimitiveIff` | src/mcp/headers.rs:115-122 | an argument is mirrored exactly if it has the annotated kind and, if a number, stands for an integer of the safe range; the header holds its own characters, `true` or `false` as it is, or that integer's decimal |
| `ToolHeaders.Argument` | src/mcp/headers.rs:100-104 | following a path key by key finds what the path denotes in the arguments, or nothing |
| `ToolHeaders.ToolHeaders` | src/mcp/headers.rs:97-122 | succeeds exactly when the schema is well annotated and each present annotated argument can be mirrored; then the map holds the tool's name, for each present annotated argument one header with its characters, the word of its truth value or the decimal of its integer, and nothing else; an argument of the wrong kind, or a number that stands for no safe integer, is the argument error |
| `ToolHeaders.HeaderNamesDiffer` | src/mcp/headers.rs:84-86 | no parameter header can overwrite the name header |
| `HeaderAnnotations.Collector.Visit` | src/mcp/headers.rs:21-50 | the walk that pushes into a shared vector and set collects exactly what the walk function says, or fails with it |
| `HeaderAnnotations.Collector.VisitChild` | src/mcp/headers.rs:52-72 | the same for the children of a schema, `properties` objects included |
| `HeaderAnnotations.FindAnnotations` | src/mcp/headers.rs:14-19 | the collected parameters, or a protocol error |
| `AnnotationSites.WalkIsFold` | src/mcp/headers.rs:21-72 | the recursive walk equals a fold over the values of the schema tree in walk order, each with its position and role |
| `AnnotationSites.VisitsSound` | src/mcp/headers.rs:21-72 | the walk order meets only positions of the tree, with their values and roles, and none twice |
| `AnnotationSites.VisitsComplete` | src/mcp/headers.rs:21-72 | the walk order meets every position of the tree |
| `AnnotationSites.AnnotationsAcceptWellAnnotated` | src/mcp/headers.rs:14-95 | the walk succeeds exactly when every annotation stands on a pure properties chain, is a parameter of primitive type, no two share a case-insensitive name, and reachable `properties` are objects |
| `AnnotationSites.AnnotationsAreThoseAtChains` | src/mcp/headers.rs:14-95 | the result is exactly the parameters standing at their own chains, under distinct names |
| `AnnotationSites.NamesCollideIffSameIgnoringCase` | src/mcp/headers.rs:80-86 | two annotations give one header name exactly when they differ at most in case |
| `AnnotationSites.ChainParameterIff` | src/mcp/headers.rs:74-95 | a parameter is a nonempty path whose object has a string type among the three primitive ones and an annotation that makes a header name, which is `mcp-param-` and the annotation in small letters |
| `AnnotationSites.TokenCharIff` | src/mcp/headers.rs:82-83 | the characters of a header name are the visible ones less the delimiters of section 5.6.2 of RFC 9110 |
| `Challenges.ReadParameter` | src/auth/challenge.rs:87-110 | the character loop reads a token or a quoted string with escapes, or fails, exactly as specified |
| `Challenges.ReadChallenges` | src/auth/challenge.rs:37-64 | the parsing loop ends for every input, each turn shrinking it, and returns exactly what the specification says |
| `Challenges.Parse` | src/auth/challenge.rs:12-33 | over all header values together: an error if one does not parse, is too long, or a second Bearer challenge occurs anywhere; else the fields of the only one (see `ChallengeHeaders.AnswerIsTheBearer`) |
| `ChallengeHeaders.AnswerIsTheBearer` | src/auth/challenge.rs:12-33 | over all headers, whatever their challenges: two that say Bearer in any letters are an error, the only one gives its `resource_metadata` and its `scope` exactly as far as it has them, none gives neither |
| `ChallengeHeaders.OneBadHeaderRefuses` | src/auth/challenge.rs:12-20 | one header that is longer than 16384 characters or cannot be read makes the answer an error |
| `ChallengeHeaders.AnswerOfPrinted` | src/auth/challenge.rs:12-110 | headers that print lists of challenges hold exactly those challenges |
| `ChallengeHeaders.PrintedBearer` | src/auth/challenge.rs:12-110 | a printed Bearer challenge with an address and a scope comes back as that address and that scope |
| `ChallengeHeaders.Characters` | src/auth/challenge.rs:65-109 | the characters of tokens, token68s, gaps and controls, told of the character set of section 5.6.2 of RFC 9110 |
| `ChallengeSpelling.QuotedOfEscape` | src/auth/challenge.rs:92-109 | a quoted value, with whatever characters escaped beyond need, is read back whatever follows it if it is free of controls, and refused if not |
| `ChallengeSpelling.ParseOfText` | src/auth/challenge.rs:37-110 | every readable spelling of a list of schemes, token68s and parameters, with any blanks, separators, escapes and trailing commas the grammar allows, is read as what it means, repeated keys and orphan parameters as errors |
| `ChallengeSpelling.SchemesAreFound` | src/auth/challenge.rs:37-74 | from any text the grammar allows, parsing fails or finds at least as many schemes as were written, and more than that if the text is not readable |
| `ChallengeSpelling.ReadAsMeantIff` | src/auth/challenge.rs:37-110 | a text the grammar allows and that means something is read as it is meant if and only if no token68 follows Bearer, no quoted string holds a tab, and each first parameter after another scheme is tight |
| `ChallengeSpelling.ParseOfPrint` | src/auth/challenge.rs:37-110 | any list of challenges with token schemes, distinct lower-case token keys and control-free values, printed with escapes and commas, is returned unchanged |
| `ChallengeSpelling.AcceptedIsClean` | src/auth/challenge.rs:37-110 | whatever is accepted, from any input, has token schemes, lower-case token keys and control-free values |
| `ChallengeSpelling.JunkAfterValueRefused` | src/auth/challenge.rs:53-56 | a parameter followed by anything but a comma or the end is an error |
| `ChallengeSpelling.LooseParameterIsMisread` | src/auth/challenge.rs:57-74 | for a scheme other than Bearer, blanks around the first equals sign give an error, or turn the value into a scheme |
| `ChallengeSpelling.OneParameterReadIff` | src/auth/challenge.rs:57-74 | a single parameter is read as written exactly when it holds no tab and the scheme is Bearer, there are no blanks around its equals sign, or its key is no token68 |
| `ChallengeSpelling.BearerToken68IsMisread` | src/auth/challenge.rs:57-61 | a token68 after Bearer: its first word is read as a second scheme, or parsing fails, and which of the two |
| `ChallengeSpelling.OneToken68ReadIff` | src/auth/challenge.rs:57-74 | a scheme with a token68 is read as meant exactly when it is not Bearer |
| `ChallengeSpelling.BearerAbc` | src/auth/challenge.rs:57-61 | "Bearer abc" is read as two schemes, and "Bearer abc==" is refused |
| `Scopes.Union` | src/auth/challenge.rs:126-140 | the loops over both arguments compute the specified union |
| `Scopes.UnionHoldsBoth` | src/auth/challenge.rs:112-140 | a union is a valid scope list with exactly the scopes of both, each once, in order |
| `Scopes.UnionCommutes` | src/auth/challenge.rs:126-140 | the order of the arguments does not matter, errors included |
| `Scopes.UnionAbsorbs` | src/auth/challenge.rs:126-140 | adding scopes that are there already changes nothing |
| `Scopes.ScopesOkIff` | src/auth/challenge.rs:112-124 | a scope list is accepted exactly when it is scope tokens of section 3.3 of RFC 6749 with one space between each two |
| `Scopes.UnionFailsIff` | src/auth/challenge.rs:126-140 | the union fails if and only if one of the two is no scope list, or all scopes together take more than 16384 characters; else it is exactly them, in order |
| `Scopes.LessIff` | src/auth/challenge.rs:126-140 | the order of the set is the lexicographic one |
| `Shape.Counter.Visit` | src/shape.rs:27-65 | the recursion over a shared counter reports and spends exactly what is specified, and the unchecked decrement never underflows |
| `Shape.SpendsItsNodes` | src/shape.rs:27-65 | the budget spent is exactly the number of report nodes |
| `Shape.ReportIsTruthful` | src/shape.rs:27-72 | at every level the type is right, the shown children are the first ones in order under their names, truthfully reported, and shown plus omitted is the container's size |
| `Shape.CompleteIff` | src/shape.rs:27-65 | nothing is truncated anywhere exactly when depth, width and budget cover the whole value |
| `Shape.ReportIsGreedy` | src/shape.rs:27-65 | the limits are kept at each level, and children are left out only for depth, for width, or when all nodes are spent |
| `LockedStoreTheorems.StepInv` | src/storage/transaction.rs:53-197 | every file operation of any actor, every failure, outside edit and power loss keeps the store invariant |
| `LockedStoreTheorems.CommitsFormChain` | src/storage/transaction.rs:152-197 | each committed value of a writer is its change applied to a committed value it read, with nothing but outside edits in between |
| `LockedStoreTheorems.NoUpdateLost` | src/storage/transaction.rs:94-197 | among cooperating writers each commit changes exactly the one before it |
| `LockedStoreTheorems.ReaderSeesCommitted` | src/storage/transaction.rs:136-143 | an unlocked reader, opening and reading in two steps, sees only a committed value |
| `LockedStoreTheorems.FileHoldsLastCommit` | src/storage/transaction.rs:152-197 | whatever failed or crashed, the file holds the last commit |
| `LockedStoreTheorems.DurableStays` | src/storage/directory.rs:114-117 | commits behind a directory sync stay for good and never get fewer, power losses included |
| `LockedStoreTheorems.OkIsNeverLost` | src/storage/transaction.rs:152-197 | a write that returned Ok is in the history for good |
| `LockedStoreTheorems.GuardedCommitReplacesWhatItSaw` | src/storage/transaction.rs:29-90 | the holder of a lock replaces what it saw when locking; an outside edit is overwritten unseen only between the last check and the rename |
| `LockedStoreTheorems.ErrAfterRenameKeepsWrite` | src/storage/transaction.rs:189-195 | a failure after the rename returns an error although the new contents are in place |
| `LockedStoreTheorems.UpdateCompletes` | src/storage/transaction.rs:152-197 | whatever earlier writers left behind, the steps of an undisturbed update go through and end with its change applied, durably |
| `LockedStoreTheorems.StaysForeverIff` | src/storage/transaction.rs:186-196 | a commit stays in every continuation, whatever crashes and power losses it has, exactly when it is durable now |
| `LockedStoreTheorems.DurableIff` | src/storage/transaction.rs:186-196 | in a run, a commit is durable exactly when it is the first one, or the directory was synced or power was lost since it was made |
| `LockedStoreTheorems.UnchangedStandsIff` | src/storage/transaction.rs:166-168 | when an unchanged update returns Ok in a run, the commit it found stands in every continuation if and only if it is the first one, or the directory was synced or power was lost since it was made |
| `LockedStoreTheorems.UnchangedAfterOkStands` | src/storage/transaction.rs:166-196 | it stands if the write that made that commit had returned Ok |
| `LockedStoreTheorems.UnchangedOkCanBeLost` | src/storage/transaction.rs:166-168 | a concrete run in which an update returns Ok by the unchanged path and a power loss then undoes the contents it found |
| `LockedStoreProgram.Writer.WriteAll` | src/storage/transaction.rs:180 | the bytes go out in pieces, each a step of the machine, and the file holds exactly them when it succeeds |
| `LockedStoreProgram.Writer.Update` | src/storage/transaction.rs:152-197 | the statements of an update, with outside edits and failures in between, are steps of the machine; Ok means its result is a commit no power loss can undo, or the change left the last commit, read by this call under the lock, as it is; undisturbed it is Ok exactly if contents and change keep to the limit, and the file then holds the change |
| `LockedStoreProgram.Writer.LockStore` | src/storage/transaction.rs:94-117 | locking keeps the contents found, as a step of the machine; undisturbed it refuses only what is too long |
| `LockedStoreProgram.Writer.CommitCreated` | src/storage/transaction.rs:53-90 | the statements of a guarded commit are steps of the machine; Ok means its bytes are a commit that stands; undisturbed it is Ok exactly if the file is as it was found and the bytes keep to the limit |
| `Quarantine.Remover.Stage` | src/cleanup/remove.rs:47-79 | the staging steps, with interference and halts before each, end exactly as specified |
| `Quarantine.Remover.Remove` | src/cleanup/remove.rs:12-45 | the whole removal, with interference and halts before each operation, ends exactly as specified |
| `QuarantineTheorems.OnlyRecordedRemoved` | src/cleanup/remove.rs:12-79 | whatever is swapped in, touched or interrupted, at most one object is removed, it is the recorded one, and a directory only when empty |
| `QuarantineTheorems.QuarantineIsEmptied` | src/cleanup/remove.rs:47-79 | a foreign object caught by a swap never stays in quarantine once the call returns an answer |
| `QuarantineTheorems.CalmRemoved` | src/cleanup/remove.rs:12-79 | an interrupted removal leaves the object at its name, in quarantine, or removed once |
| `QuarantineTheorems.DoneMeansGone` | src/cleanup/remove.rs:12-45 | an attempt without interference that returns Ok has removed the object |
| `QuarantineTheorems.OtherParents` | src/cleanup/remove.rs:22-31 | without its recorded parent nothing is touched: Ok if the parent is gone, the changed error if it is another one |
| `QuarantineTheorems.UndisturbedAnswer` | src/cleanup/remove.rs:12-83 | for anything found under the two names, which answer an undisturbed attempt gives, if and only if, and what the directory holds afterwards |
| `QuarantineTheorems.MatchesIff` | src/ownership/filesystem.rs:94-106 | what the recorded identity demands of an object, one by one |
| `QuarantineTheorems.RerunsComplete` | src/cleanup/remove.rs:12-79 | after any number of interrupted attempts an undisturbed one removes a file or empty directory exactly once, and further ones succeed and change nothing |
| `QuarantineTheorems.FullDirectoryComesBack` | src/cleanup/remove.rs:47-79 | a non-empty directory is never removed and is back at its name, unless the attempt halts between its two renames |
| `QuarantineTheorems.StrandedStays` | src/cleanup/remove.rs:47-56 | once stranded, every undisturbed attempt fails and changes nothing |
| `CleanupPlan.PlanResources` | src/cleanup/plan.rs:120-151 | the loop yields exactly the deletable identities, deepest first, and the preserved ones with their first reason; an ordinary uninstall deletes nothing |
| `CleanupTheorems.OrdinaryUninstallDeletesNothing` | src/cleanup/plan.rs:120-144 | without `clean` nothing is planned, and every resource that is still there is preserved, in journal order, for that reason |
| `CleanupTheorems.PlannedExactly` | src/cleanup/plan.rs:120-255 | a clean plan deletes exactly the resources that are removable (kind, ownership, birth, link, root and names, one by one) and that nothing else recorded meets, told of the resources without the test |
| `CleanupTheorems.PlanIsComplete` | src/cleanup/plan.rs:120-151 | every resource that is still there is either planned or preserved, once each |
| `CleanupTheorems.ReasonsAreTrue` | src/cleanup/plan.rs:154-227 | every reason a clean plan gives for preserving a resource is true of it |
| `CleanupTheorems.PlannedMayBeDeleted` | src/cleanup/plan.rs:120-227 | a clean plan deletes exactly the live resources of its installation that have no reason to stay |
| `CleanupTheorems.PlansAreDisjoint` | src/cleanup/plan.rs:120-255 | the plans of two installations, made from one journal, hold no overlapping paths |
| `CleanupTheorems.PlanTouchesOnlyItsOwn` | src/cleanup/plan.rs:120-255 | every live resource of any installation that overlaps a planned path is an exclusive one of the same installation; no live artifact and no retained data does |
| `CleanupTheorems.PlannedIsTheOnlyReference` | src/cleanup/plan.rs:120-225 | one live resource in the whole journal, links included, has a planned identity, and it is the installation's own |
| `CleanupTheorems.DeepestFirstSorts` | src/cleanup/plan.rs:145-150 | the sort keeps every resource and puts deeper paths first |
| `CleanupTheorems.DeepestFirstIsStable` | src/cleanup/plan.rs:145-150 | resources of one depth keep their journal order |
| `CleanupTheorems.PlannedOnce` | src/cleanup/plan.rs:120-151 | no resource is planned twice |
| `CleanupTheorems.DeletableOfDifferentOwnersDisjoint` | src/cleanup/plan.rs:154-255 | corollary of the preservation test: deletable paths of different installations, or of an installation and the executable's links, never overlap |
| `CleanupTheorems.DeletableTouchesNothingElse` | src/cleanup/plan.rs:154-255 | corollary of the preservation test, for a single resource, links included |
| `CleanupTheorems.DeletableIsContained` | src/cleanup/plan.rs:154-211 | corollary: it is exclusive, strictly inside its recorded root, outside `.ripmcp`, with a birth identity, and no coordination metadata |
| `CleanupTheorems.DeletableIsTheOnlyReference` | src/cleanup/plan.rs:212-225 | corollary: it is the only live resource of its identity in the journal |
| `CleanupTheorems.DescendantsFirst` | src/cleanup/plan.rs:145-150 | what lies inside another planned directory is deleted before it |
| `CleanupJournal.Cleaner.Apply` | src/cleanup/journal.rs:127-158 | one resource is looked up, checked again and marked by the outcome of its removal, exactly as specified |
| `CleanupJournal.Cleaner.Delete` | src/cleanup/journal.rs:100-125 | the loop carries out the plan as specified, with failed journal updates ending it |
| `CleanupJournal.MarkKeepsDeletable` | src/cleanup/journal.rs:100-158 | marking a live resource Removed or RetryRequired never turns another one from deletable to preserved |
| `CleanupJournal.RetryRequiredStaysDeletable` | src/cleanup/journal.rs:147-156 | a resource marked RetryRequired may still be deleted by a later plan |
| `CleanupJournal.PlanIsCarriedOut` | src/cleanup/journal.rs:100-158 | every planned resource is attempted in order, none is refused because of the ones before it, and journal and report say exactly what happened |
| `CleanupJournal.MarksExactly` | src/cleanup/journal.rs:147-156 | in the final journal each planned resource holds the outcome of its own attempt and every other resource is as before |
| `CleanupJournal.MarksNothingElse` | src/cleanup/journal.rs:147-156 | nothing else of the journal changes |
| `CleanupJournal.AttemptIff` | src/cleanup/journal.rs:127-158 | an attempt at a recorded resource removes it, or tries to, if and only if by the journal and the ledger as they are then it is removable and nothing else meets it; else it is refused and nothing changes |
| `CleanupJournal.FailedUpdateEnds` | src/cleanup/journal.rs:100-125 | an attempt whose journal update fails is the last one and is not reported as done |
| `SelfRemoval.StepInv` | src/cleanup/self_remove.rs:42-207 | every step, failure and crash of self-removal keeps its invariant |
| `SelfRemoval.JournalIsAlwaysRecoverable` | src/cleanup/self_state.rs:12-27 | while the executable exists, the journal read from its file or from the marker is the one committed last |
| `SelfRemoval.ProvenanceSurvives` | src/cleanup/self_state.rs:12-64 | no crash, failure or retry of self-removal loses the proof of where the executable came from |
| `SelfRemoval.ExecutableGoesBeforeMarkerOnly` | src/cleanup/self_remove.rs:58-95 | the executable is removed only after journal and ledger, with the marker holding the last committed journal and its provenance; the marker goes only after the executable |
| `SelfRemoval.OnlyRecordedFilesGo` | src/cleanup/self_remove.rs:164-193 | the journal's file goes only with proof of the executable and named by the ledger, the ledger's only if the marker knows it; else nothing goes |
| `SelfRemoval.ExecutableWasProven` | src/cleanup/self_remove.rs:58-95 | where the executable is gone, it was removed with the committed journal proving it |
| `SelfRemoval.RestoreRebuilds` | src/cleanup/self_state.rs:92-111 | from wherever a crash left things, the first part of a retry rebuilds the journal as committed last and the ledger |
| `SelfRemoval.UndisturbedRetryRemovesAll` | src/cleanup/self_remove.rs:42-107 | from wherever a crash left things, every retry that nothing disturbs, whatever steps it takes, always has a next step, takes a bounded number of them besides updates, and ends with journal, ledger, executable and marker removed |
| `SelfRemoval.EveryRetryRemovesAll` | src/cleanup/self_artifacts.rs:71-106 | the same for every undisturbed retry after a crash in any reachable state with the executable in place and proven |
| `SelfRemoval.RetryCompletes` | src/cleanup/self_remove.rs:42-107 | from wherever a crash left things, such a retry exists, with one update of the journal |
| `SelfRemoval.EveryCrashCanBeRetried` | src/cleanup/self_artifacts.rs:71-106 | the same after a crash in any reachable state with the executable in place and proven |
| `SelfRemovalProgram.SelfRemover.SaveMarker` | src/cleanup/self_state.rs:53-82 | rewriting the ledger and backing both files up are steps of the machine in that order |
| `SelfRemovalProgram.SelfRemover.Restore` | src/cleanup/self_state.rs:92-111 | restoring the ledger, then the journal and its record, are steps of the machine, and both files exist afterwards |
| `SelfRemovalProgram.SelfRemover.Work` | src/cleanup/self_work.rs:12-80 | every journal update of the work commits the file first and its record in the ledger second; on success the journal holds the last outcome, under the identity that the ledger records |
| `SelfRemovalProgram.SelfRemover.FinishResources` | src/cleanup/self_remove.rs:164-193 | journal, ledger and executable go in that order, with the provenance proven and only the files that ledger and marker name, or the rest stays |
| `SelfRemovalProgram.SelfRemover.Execute` | src/cleanup/self_remove.rs:42-107 | success leaves nothing behind; however else it ends with the executable in place, the journal committed last can be recovered; whenever no step fails and the journal proves the executable it succeeds, whatever an earlier attempt left |
| `InstallTheorems.StepInv` | src/supervisor/manager/install.rs:18-246 | every step, failure, crash and outside edit keeps the install invariant |
| `InstallTheorems.LaunchAcceptsOnlyFinished` | src/supervisor/launch.rs:164-191 | an entry let start was staged and resolved, and its configuration was put in place or is what it staged now |
| `InstallTheorems.PlacedWasRenamed` | src/supervisor/manager/install.rs:208-246 | an entry counts as placed only since its own rename put exactly the configuration it staged in place |
| `InstallTheorems.RenameWasChecked` | src/install/target.rs:105-120 | a rename follows a check of the same install that found the configuration as it was locked; unless someone edited it since, it replaces exactly that |
| `InstallTheorems.StagedWasVerified` | src/supervisor/manager/install.rs:79-132 | an entry counts as staged only since its verification ended with the configuration as it was locked |
| `InstallTheorems.EntryIsFixed` | src/install/records.rs:65-92 | scope, name and staged configuration of a journal entry never change |
| `InstallTheorems.RolledBackNeverLaunches` | src/supervisor/manager/install.rs:182-206 | an install whose rollback is recorded is never let start afterwards |
| `InstallTheorems.TwoRegisteredRefused` | src/supervisor/launch.rs:168-181 | with two registered entries for one scope and name, nothing is let start |
| `InstallTheorems.LaunchesIff` | src/supervisor/launch.rs:168-194 | a server is let start with an entry if and only if it alone is registered for scope and name, and its install is committed, unrecorded, or staged what the configuration now is |
| `InstallTheorems.LaunchesAfterLateCrash` | src/supervisor/launch.rs:168-194 | an install that crashed between the configuration change and its last save is let start, unless another entry was registered before, until someone changes that configuration |
| `InstallTheorems.InstallCompletes` | src/supervisor/manager/install.rs:18-246 | an undisturbed install puts its configuration in place, and is let start exactly when no other entry was registered for that scope and name |
| `InstallTheorems.ReinstallAfterCrashIsRefused` | src/supervisor/manager/install.rs:208-246 | a crash after the registration and before the configuration change, then a reinstall, ends with nothing let start |
| `InstallProgram.Installer.Save` | src/install/records.rs:65-92 | a journal save, written or not, failed or not, is a step of the machine and records exactly the installation held in memory |
| `InstallProgram.Installer.Stage` | src/supervisor/manager/install.rs:79-132 | saving, preparing, saving the resolution and verifying, with the configuration unchanged at each check |
| `InstallProgram.Installer.CommitInstall` | src/supervisor/manager/install.rs:208-246 | registered in the journal, then in the configuration, then committed; which entry the journal holds after each kind of failure, a recorded rollback being unregistered and to be retried |
| `InstallProgram.Installer.Rollback` | src/supervisor/manager/install.rs:182-206 | the install is over; a rollback reported as recorded left the entry unregistered and to be retried with what was resolved, any other one that or the entry as it was |
| `InstallProgram.Installer.Install` | src/supervisor/manager/install.rs:18-77 | Ok means the entry is registered and committed and exactly the configuration it staged was put in place; a failure with its rollback recorded left the entry unregistered and to be retried; left in peace it succeeds exactly if the name was free |
| `Pinned.ExactIsPrinted` | src/supervisor/launch.rs:274-295 | a text is an exact npm version just when it is the printing of three numbers without leading zeros and well-formed suffixes |
| `Pinned.PrintIsInjective` | src/supervisor/launch.rs:274-295 | different versions are spelled differently |
| `Pinned.PinnedNpmIsExact` | src/supervisor/launch.rs:217-245 | an npm resolution is pinned exactly when it is a name, an at sign and an exact version, without blanks and not looking like an option |
| `Pinned.PinnedImageIsDigest` | src/supervisor/launch.rs:217-228 | an image is pinned exactly when it is a name and a SHA-256 digest of 64 hexadecimal digits |
| `Pinned.PinnedPackageIsVersion` | src/supervisor/launch.rs:229-243 | a Python package is pinned exactly when it is a name, the first double equals sign and a version that starts with a digit |

## Left out

- The OAuth protocol itself, HTTP, D-Bus, the browser, callback sockets, prompts,
  process spawning and signals: steps that succeed or fail.
- Checks that a credential belongs to its endpoint and profile, and the clock: whether
  a credential is expired is chosen freely at each read.
- `random()` is a source of values never drawn before, and the token endpoint never
  issues a token twice; the epoch file is never deleted. Without an epoch file any
  stored record is visible (src/auth/credentials.rs:163-168).
- One endpoint per vault; the lock name and the keys derived from the endpoint.
- Vault writes that return an error after the last step are the failure of the caller
  afterwards, so an error never means that nothing was written.
- The program classes act as one process while it holds its lock; how long it waits for
  the lock, and what others do meanwhile, is in the runs of the machines only.
- JSON lexing and serialisation, UTF-8 validation of SSE lines and URL parsing:
  parameters or small datatypes. Object keys are unique, as in the parsed maps.
- Digests: a configuration or journal is known by its contents.
- Header maps and header names beyond 65535 bytes of name; capacity limits of the
  header map.
- The directory of a store being replaced, permissions, ownership modes and symbolic
  links on the way to a file, hard links, and the artifact ledger written after a commit.
- Outside editors that write a file in place rather than replace it.
- `update_json` and its decoding and encoding: they are part of the change.
- `Plan::build`, `resolve` and `has_cleanup`: selection of one installation by simple
  filters. `begin` and `finish` only set the operation's state.
- CleanupJournal.PlanIsCarriedOut: identities are distinct within an installation and no
  artifact recorded meanwhile overlaps the plan, because `apply` picks the first resource
  with the planned identity and reads the ledger anew each time.
- CleanupTheorems.DeletableOfDifferentOwnersDisjoint: does not speak of two resources of
  one installation, which may be a directory and what lies in it.
- QuarantineTheorems.RerunsComplete: assumes that nobody else uses the quarantine name.
- Lock files, the user configuration and credentials during self-removal, and the
  quarantine steps inside each removal: single steps there.
- Installing: preparation of runtimes, verification of servers, leases and process
  cleanup are steps that succeed or fail; uninstalling is not part of that machine.
- `revision`, `runtime_command` and the environment of a launched server.

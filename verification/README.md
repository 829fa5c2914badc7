# Nullock in Dafny

Nullock is an intercepting proxy with a browser user interface. This project models the parts of it
whose correctness is least visible in the code, and proves what they achieve for all inputs and all
runs: the synchronisation between the page and the control server, the tag rewriter and codecs of the
`taffy` extension, SHA-256, HMAC and request canonicalisation, the taint analysis, the card-number
check, and the syntax highlighter of the marketplace pages. `dafny verify dfyconfig.toml` checks it.

## The client and the control server

`ui-v2/real-data.js` keeps three optimistic drafts and the project notes in step with a server it polls.
The server is the list of all versions it has ever been in (`ServerHistory`); an answer is the index of
the version it was read from. Its C++ code is not modelled; the rules it obeys are assumptions, taken from
`Src/BackEnd/Control/control_server.cpp` (lines 2288-2314, 3270-3274 and 5545-5618) and
`Src/Core/Networking/sequencer_capture.cpp` (lines 284-332): `seq` grows with every version of an instance;
instance ids and generation tokens are never reused; a 304 is given only for a nonzero `since` that is the
current `seq` of the same instance; a draft or Sequencer write with a `historyGeneration` is performed only
while that token is current, and one without any is performed; a note is performed only with the current
token; a Sequencer patch of the text is performed only if its `textRevision` is the current one (`-1`, sent
without a workspace, never is), while patches of other fields, appends and capture calls are performed
without that comparison; the text changes only with its revision; a performed write makes a new version, and its answer is read off that version,
with the workspace unless it was a capture call; note revisions name one set of notes within a generation.

`ClientState`, `NotesSync` and `BenchSync` give the event handlers as functions; the classes in
`NullockClient.dfy` run the same handlers in place on the fields of `NL`, and each method is proved to
compute exactly what the function says. `DraftSync`, `NotesSync` and `BenchSync` add the network:
requests may be performed late, after the client has given up on them, answers arrive in any order, polls
fail, other clients write, the server restarts, projects change. `ClientServer` composes everything into
one step relation with an invariant of every run. `SyncTheorems` states what follows for the Repeater and
the Intruder, `SharedTheorems` for the Sequencer's draft and for notes that are read, `QueueTheorems` has
isolation and order of the Sequencer's writes and of notes that are written, and `LostUpdates` says whose
text a write can erase. `DraftRenewal`, `BenchRenewal` and `NotesRenewal` say of every step, by the events of the
run alone, exactly when a draft, the workspace or the notes are replaced and by what, when the next fetch can
start, when an error is shown, and when the page is connected; so the page catches up with the server.
`LateAnswers` and `FailingRuns` are concrete runs in which the conditions fail.

What a reader would not expect, each with the exact condition and a run in which it fails:

- The comment above the assignment of the acknowledged workspace says that other clients cannot replace token
  text unseen. They cannot while this client issues patches of the text alone (`TextPatchesEraseNothing`).
  But the answer to a field patch or an append moves the revision along without any comparison, while the
  local draft is kept. So the revision shown need not be that of the text shown, and a text patch erases what
  somebody else wrote meanwhile, whether the answer arrives after the patch is typed (the run
  `FailingRuns.LostUpdate`) or before (`FailingRuns.SkippedUpdate`). `NoLostUpdate` is exact: count from the
  moment at which the text shown was last taken over from the server (`SequencerDraftIsOverlay`: the draft is
  that version's, with the patches typed since laid over it); a performed text patch erases nothing foreign
  if and only if no acknowledgement of an unchecked write since then, up to the sending, brought in anything
  foreign.
- A 304 with nothing pending does not by itself prove that the page is current: `OvertakenNotModified` is a
  run in which it arrives behind a refused edit. `NotModifiedExactly` says what every 304 means: the draft is
  the slice the server answered from with the edits typed since it was taken over laid over it, and it is
  that slice if and only if every field typed since has in it the value typed last. While `NL._seq` stands,
  or for a draft with no write pending when the poll was sent and none issued since, that is so
  (`NotModifiedIsSafe`, `NotModifiedForDraft`).
- A snapshot contains a write acknowledged before it exactly when the server gave it no earlier than the
  acknowledgement (`SnapshotContainsAcknowledged`). In the run `OvertakenAcknowledgement` it was given
  earlier, and takes the acknowledged edit back.
- A performed draft or Sequencer write is in the project it was typed in exactly when the page had a usable
  snapshot at the time; before the first one a write carries no `historyGeneration` (`AcceptedWhereTyped`,
  `BenchAcceptedWhereTyped`; the runs `UnstampedEdit` and `UnstampedPatch`). That is so of patches of the
  text as well: the answer to an append sent without a stamp gives the page a workspace, and its revision may
  be current in another project later. A performed note is always in its project (`NoteAcceptedWhereTyped`).
- An acknowledgement of a note that is overtaken by a fetch puts older notes back (`AckLowersExactly` says
  exactly when), and nothing repairs it until the server's `seq` moves: `NL._seq` is not reset there
  (`LateAcknowledgement` is such a run).

## The tag rewriter and the codecs

`TagRewriting` is the loop of `applyTags` with its two regular expressions as a small matcher.
`TagSemantics` defines what it is for, evaluation of a tag tree, and a stack machine over tokens in
between; `TagTheorems` shows that a pass replaces one innermost tag by its value, so the loop computes the
tree's value exactly for trees of at most 200 tags. `TagPatterns` says which texts PAIRED and SELF match and what
one turn of the loop does to any text, well-formed or not. The comment at the head of the file says that unknown
tags are left untouched; in fact an unknown tag also stops others. `UnknownTags` says exactly which, for unknown
tags anywhere in a tree (`UnknownAnywhere`). A known tag around an unknown one is never resolved; all others
are, if there are at most 200 and the first blocker lets them. Blockers are unknown self-closing tags, and
unknown pairs without an unknown tag inside. Without any known self-closing tag, nothing known may stand
behind the first such pair; with some, neither a known self-closing tag nor such a pair may stand behind the
first blocker, and if that is a pair, it must hold a known self-closing tag. `TagStrips` proves this of zones
of known tags between walls. Two cases: beside an unknown pair around plain text all known tags are resolved if and only if none stands behind it, no self-closing one stands
before it, and at most 200 do (`UnknownPairStops`); beside an unknown self-closing tag, if and only if no
self-closing one stands behind it and there are at most 200 (`UnknownSelfStops`).
Strings are sequences of UTF-16 units, lone surrogates included. `Utf8`, `Base64`, `Hex` and `HtmlEntities`
prove the round trips, exactly on the strings where they hold, and tie UTF-8 to section 3 of RFC 3629 and
base64 to section 4 of RFC 4648. `TagCodecs` carries the round trips through the rewriting loop, in general and
for the tags of the source. `CharacterClasses` spells out every character class and literal table of the sources.

## SHA-256, HMAC, canonical requests

`Sha256` is FIPS 180-4; `Sha256Loops` runs the source's loops, with JavaScript's signed 32-bit results and
sums that are reduced only by `>>> 0` (`Words`). Words are integers and the bitwise operators are defined
bit by bit, so nothing is taken on trust there; `Sha256Bits` says what choice, majority, shifts, rotations and the
padding do to each bit. The two copies pad differently; both are proved, and both
equal the standard's padding exactly below 2^29 bytes. The block loop, which the copies spell alike, is
modelled once. `Hmac` has the key as a shared array that is extended in place. `UriEncoding` and
`CanonicalQuery` follow RFC 3986: `uriEncode` takes characters outside the Basic Multilingual Plane apart
and encodes each half as four or three bytes. So for strings without lone surrogates its result stands for
the UTF-8 of the string if and only if all characters are in that plane (`DecodedIsUtf8`); for arbitrary
strings it agrees with `strToBytes` if and only if no high surrogate is followed by anything
(`DecodedIsEncoding`).

## Analysers

`Taint` characterises the two-pass dataflow of `extensions/dom_taint.js`. Its header says that chains of
three or more hops are not followed; the code follows chains of any length as long as they run forward
through the text, and no chain that runs backwards. `Luhn` is the checksum of `extensions/sniffy.js`.
`Lexer` and `Highlighter` are `_tokenize` and `highlight` of `scripts/marketplace_site.py`, for arbitrary
Unicode tables that agree with ASCII; when a turn of the tokenizer starts at a digit outside ASCII it stands
still for ever, which the model returns as `None`, while such a digit inside a string, a comment or a name
does no harm (`LexEndsExactly`, `SuperscriptTwo`). `LexerContext` says where a slash opens a regular expression, by
the kind of the last solid token: behind a number it does so if the number ends in a point, as in `1./2/3`, since
`regex_ctx` looks at one character only, and not behind a word character outside ASCII (`SlashExactly`).

## Model

| member | source | states |
|---|---|---|
| DraftFields.Client.ApplySnapshot | ui-v2/real-data.js:31-79 | a snapshot updates generation, token, instance and connection, and replaces each draft unless it is protected; a protected draft resets `_seq` |
| DraftFields.Client.Disconnected | ui-v2/real-data.js:968-974 | a failed poll resets `_seq` and the connection and nothing else |
| DraftFields.Client.WriteRepeater | ui-v2/real-data.js:326-333 | a write bumps epoch and pending counter, lays the payload over the draft if optimistic, and queues it with the generation and token of this moment |
| DraftFields.Client.WriteIntruder | ui-v2/real-data.js:297-304 | the same on the Intruder's own epoch, counter, draft and queue |
| DraftFields.Client.StartWrite | ui-v2/real-data.js:332-337 | the head of a queue is posted exactly while its generation is shown; otherwise it settles unsent |
| DraftFields.Client.SettleWrite | ui-v2/real-data.js:347-353 | settling removes the head, lowers the counter and resets `_seq`, whatever the outcome |
| NoteFields.Annotations.AcceptAnnotations | ui-v2/real-data.js:106-114 | notes are replaced exactly when generation, token and, if given, both revisions match |
| NoteFields.Annotations.RefreshAnnotations | ui-v2/real-data.js:115-127 | a fetch starts exactly when the guards let it, the retry delay among them, and remembers generation, revision and epoch |
| NoteFields.Annotations.FinishRefresh | ui-v2/real-data.js:128-140 | an answer counts only in the epoch it was asked in; a failure of the current fetch delays the next one by three seconds; the pending key is cleared only if it is this fetch's |
| NoteFields.Annotations.AnnotateHistory | ui-v2/real-data.js:355-357 | a note is queued with the generation and token of this moment; nothing is shown before the answer |
| NoteFields.Annotations.StartAnnotation | ui-v2/real-data.js:358-360 | it is sent exactly while its generation is shown |
| NoteFields.Annotations.SettleAnnotation | ui-v2/real-data.js:361-373 | an acknowledgement of the shown project bumps the epoch, sets the revision and adopts the answer |
| BenchFields.Sequencer.WriteSequencer | ui-v2/real-data.js:264-270 | a Sequencer write bumps epoch and counter, patches the local draft if optimistic, and is queued |
| BenchFields.Sequencer.StartWrite | ui-v2/real-data.js:271-277 | it leaves only in its own project and with no error latched, and carries the workspace's text revision at that time |
| BenchFields.Sequencer.Fulfil | ui-v2/real-data.js:280-294 | the revision advances while later keystrokes stay in the draft |
| BenchFields.Sequencer.Reject | ui-v2/real-data.js:289-294 | the error latches only if the write's project is still shown |
| BenchFields.Sequencer.RefreshSequencer | ui-v2/real-data.js:247-251 | a fetch starts only with nothing pending, no error, and a workspace that is missing or old |
| BenchFields.Sequencer.FinishRefresh | ui-v2/real-data.js:252-262 | its answer is used only in the same generation and epoch with nothing pending |
| BenchFields.Sequencer.Reload | ui-v2/real-data.js:622-626 | reload clears error and workspace, starts a new epoch and fetches anew, unless a write is pending |
| NullockClient.ApplySnapshot | ui-v2/real-data.js:31-79 | drafts, notes and Sequencer judge one snapshot by the generation shown before it |
| NullockClient.AcceptPoll | ui-v2/real-data.js:987-997 | `_seq` is taken from the snapshot before the drafts are judged |
| ClientServer.RunOk | ui-v2/real-data.js:31-373 | the invariant of client, server and network holds in every world of every run |
| ServerHistory.VersionIdUnique | ui-v2/real-data.js:984-989 | an instance id and a `seq` name one version of the server |
| SyncTheorems.SeqNamesWhatIsShown | ui-v2/real-data.js:65-79 | `_seq`, when not 0, names a version whose slice every draft without pending write equals |
| SyncTheorems.NotModifiedExactly | ui-v2/real-data.js:975-989 | on every 304 delivered, whatever is pending: the draft is the slice answered from with the edits since its adoption laid over it, and is that slice if and only if every field typed since has in it the value typed last |
| SyncTheorems.NotModifiedIsSafe | ui-v2/real-data.js:984-989 | a 304 delivered while `_seq` stands means that such drafts are what the server had when it answered |
| SyncTheorems.NotModifiedForDraft | ui-v2/real-data.js:975-989 | whatever `_seq` is by then: a draft with no write pending when the poll was sent and none issued since is, on a 304, the server's slice when it answered |
| LateAnswers.OvertakenNotModified | ui-v2/real-data.js:347-352 | a run in which a 304 arrives with nothing pending and `_seq` reset, over a draft the server never had |
| SyncTheorems.StalePollNeverOverwrites | ui-v2/real-data.js:65-79 | within a generation a poll replaces a draft only with no write pending and if it was sent after the latest edit |
| DraftRenewal.ReplacedExactly | ui-v2/real-data.js:31-79 | a delivered snapshot replaces a draft if and only if the project has changed, or none of its writes is pending and none was typed since the poll was sent; `_seq` is the snapshot's if both drafts are replaced, and 0 otherwise |
| DraftRenewal.SeqOtherwise | ui-v2/real-data.js:294-352 | a failed poll and every settled write reset `_seq`, and nothing but a full snapshot sets it |
| DraftRenewal.ConnectedExactly | ui-v2/real-data.js:968-997 | the page is connected if and only if the latest poll was completed; one completed while it is not brings everything, never a 304 |
| DraftRenewal.ShownIs | ui-v2/real-data.js:67-79 | a version shows its own slices, and empty tabs where it has none |
| DraftRenewal.SentExactly | ui-v2/real-data.js:303-337 | a write whose turn comes is posted if and only if its project is still shown, and dropped otherwise |
| SyncTheorems.DraftIsOverlay | ui-v2/real-data.js:297-353 | at every moment of every run the draft is the slice adopted last, or at page load, with all edits since laid over it in order |
| SyncTheorems.SnapshotContainsAcknowledged | ui-v2/real-data.js:980-995 | a delivered snapshot contains an acknowledged write if and only if it was answered no earlier |
| FailingRuns.OvertakenAcknowledgement | ui-v2/real-data.js:65-79 | a run in which a poll answered before the edit was performed is delivered after its acknowledgement, and takes the edit back |
| SyncTheorems.Converges | ui-v2/real-data.js:975-1000 | with nothing pending and nobody typing, the second completed poll leaves both drafts as the server had them |
| SyncTheorems.IssueOrigin | ui-v2/real-data.js:326-337 | every queued write carries the generation and `historyGeneration` shown when it was typed |
| SyncTheorems.PostedWhereTyped | ui-v2/real-data.js:326-337 | a write is sent only if the client has shown its project without interruption since it was typed |
| SyncTheorems.AcceptedWhereTyped | ui-v2/real-data.js:297-353 | a performed Repeater or Intruder write is in the project it was typed in, if and only if the page had a snapshot then |
| FailingRuns.UnstampedEdit | ui-v2/real-data.js:326-337 | a run in which a write typed before any snapshot is performed in a project the page never showed |
| SyncTheorems.PendingCounts | ui-v2/real-data.js:297-353 | the pending counter is the number of issued, unsettled writes, and they settle in issue order |
| SyncTheorems.PostsInOrder | ui-v2/real-data.js:346-353 | requests of a draft's queue leave in issue order, never twice, never while another is out |
| SyncTheorems.FailureDoesNotBlock | ui-v2/real-data.js:346-353 | however a Repeater or Intruder write ends, the next one can leave |
| SharedTheorems.BenchOrigin | ui-v2/real-data.js:264-277 | every Sequencer write carries the generation and `historyGeneration` shown when it was typed |
| QueueTheorems.BenchPostedWhereTyped | ui-v2/real-data.js:264-277 | a Sequencer write is sent only if the client has shown its project without interruption since it was typed |
| QueueTheorems.BenchAcceptedWhereTyped | ui-v2/real-data.js:264-279 | a performed Sequencer write of any kind is in the project it was typed in, if and only if the page had a snapshot then |
| FailingRuns.UnstampedPatch | ui-v2/real-data.js:264-286 | a run in which an append and then a text patch, typed before any snapshot, are performed in two projects |
| QueueTheorems.BenchPendingCounts | ui-v2/real-data.js:264-294 | `sequencerPending` is the number of issued, unsettled writes, and they settle in issue order |
| QueueTheorems.BenchPostsInOrder | ui-v2/real-data.js:271-294 | Sequencer requests leave in issue order, never twice, never while another is out |
| QueueTheorems.SentRevision | ui-v2/real-data.js:274-277 | the request of a write carries the `textRevision` the handler reads when it is sent |
| BenchRenewal.FetchedExactly | ui-v2/real-data.js:247-250 | a fetch can start if and only if none is under way, no write is pending, no error is shown, and there is no workspace or one of another revision than the snapshot delivered last gave |
| BenchRenewal.RenewedExactly | ui-v2/real-data.js:249-262 | a fetched workspace is shown, draft and revisions, if and only if the answer is of the project shown and since the fetch was started that was shown, no write typed, and no reload done |
| BenchRenewal.SequencerConverges | ui-v2/real-data.js:247-262 | a fetch in a quiet moment leaves the page with the workspace the server answered from, and another one starts exactly if the last snapshot gave another revision |
| BenchRenewal.AcknowledgedExactly | ui-v2/real-data.js:280-286 | the answer of a write of the shown project gives both revisions, and the draft if no later write waits |
| BenchRenewal.RevisionsNameAVersion | ui-v2/real-data.js:247-288 | both revisions of the workspace shown are those of one version of the shown project |
| BenchRenewal.WorkspaceOtherwise | ui-v2/real-data.js:36-45 | other steps leave the workspace alone, but for patches typed, and for a change of project, which drops it |
| BenchRenewal.ErrorExactly | ui-v2/real-data.js:289-293 | the message of a failed request is latched if and only if its project is shown; reload and change of project clear it, and nothing else changes it |
| BenchRenewal.SentExactly | ui-v2/real-data.js:271-273 | a write whose turn comes is posted if and only if its project is shown and no error is |
| BenchRenewal.ReloadedExactly | ui-v2/real-data.js:622-626 | a reload drops workspace and error and lets a fetch start at once, unless one is under way; while a write is pending it does nothing |
| LostUpdates.SequencerDraftIsOverlay | ui-v2/real-data.js:252-288 | at every moment with a workspace, the draft is that of the version taken over last, by a fetch or by an answer that found nothing else pending, with the patches typed since laid over it |
| LostUpdates.NoLostUpdate | ui-v2/real-data.js:264-294 | a performed text patch hides no change of another client, counted from the version whose text its author was looking at, if and only if no acknowledgement of an unchecked write brought one in between that text's take-over and the sending |
| LostUpdates.TextPatchesEraseNothing | ui-v2/real-data.js:264-294 | with text patches alone a performed one was typed with a snapshot, and erases nothing of another client |
| FailingRuns.LostUpdate | ui-v2/real-data.js:280-288 | a run in which a field patch's acknowledgement makes the next text patch erase another client's append |
| FailingRuns.SkippedUpdate | ui-v2/real-data.js:280-288 | a run in which the revision has moved on before the text patch is typed, which then erases another client's append |
| SharedTheorems.KeystrokesKept | ui-v2/real-data.js:267-286 | while a Sequencer write stays pending, the local draft changes only by patches laid over it |
| SharedTheorems.FailureBlocks | ui-v2/real-data.js:271-293 | after a failure no Sequencer write leaves until reload or project change |
| QueueTheorems.ErrorBelongsToShownProject | ui-v2/real-data.js:289-292 | an error shown was latched by a rejected write of the project shown, and project and error have stood since |
| NotesRenewal.FetchedExactly | ui-v2/real-data.js:115-122 | a fetch can start if and only if the page is connected, the revision announced is neither 0 nor the one loaded, the last fetch is not still out for it, and the delay after a failure is over |
| NotesRenewal.RenewedExactly | ui-v2/real-data.js:104-127 | fetched notes are shown if and only if they are of the project and of the revision announced, and these are the same since the fetch was started, with no answer of a note taken over since |
| NotesRenewal.NotesConverge | ui-v2/real-data.js:115-141 | after that the page has the revision announced and fetches no more until another one is |
| NotesRenewal.AcknowledgedExactly | ui-v2/real-data.js:361-369 | the answer of a note of the shown project is always taken over, and no other |
| NotesRenewal.FailedExactly | ui-v2/real-data.js:128-136 | a failed fetch is reported, and the next put off by three seconds, if and only if the page still waits for it |
| NotesRenewal.NotesOtherwise | ui-v2/real-data.js:36-49 | the revision announced is the last snapshot's or that of an answer of a note since; only a change of project touches notes, error and delay otherwise, and clears them |
| NotesRenewal.SentExactly | ui-v2/real-data.js:358-359 | a note whose turn comes is sent if and only if its project is still shown |
| SharedTheorems.NotesCoherent | ui-v2/real-data.js:104-141 | the loaded notes are the server's notes at the loaded revision in the shown generation |
| SharedTheorems.NotesNeverGoBack | ui-v2/real-data.js:104-141 | with answers about notes in server order, the loaded revision never goes back |
| NotesSync.FetchNeverLowers | ui-v2/real-data.js:115-141 | a fetched answer never lowers the loaded revision, in any order of delivery |
| NotesSync.AckLowersExactly | ui-v2/real-data.js:355-373 | exactly when an acknowledgement lowers it |
| QueueTheorems.NotePostedWhereTyped | ui-v2/real-data.js:355-360 | a note is sent only if the client has shown its project without interruption since it was typed, and with that moment's `historyGeneration` |
| QueueTheorems.NoteAcceptedWhereTyped | ui-v2/real-data.js:355-362 | a performed note is in the project it was typed in, and the page had a snapshot then |
| QueueTheorems.NoteQueueIsUnsettled | ui-v2/real-data.js:355-373 | the queue holds the issued, unsettled notes in issue order |
| QueueTheorems.NotePostsInOrder | ui-v2/real-data.js:355-373 | notes leave in issue order, never twice, never while another is out |
| QueueTheorems.NoteFailureDoesNotBlock | ui-v2/real-data.js:355-373 | however a note ends, the next one of the shown project can leave |
| LateAnswers.LateAcknowledgement | ui-v2/real-data.js:355-373 | a run that ends with older notes than the server's, nothing under way, and 304 as the next answer |
| TagRewriting.ApplyTags | extensions/taffy.js:239-258 | the loop computes at most 200 passes, each rewriting the leftmost match of PAIRED, or else of SELF |
| TagPatterns.PairedExactly | extensions/taffy.js:236 | PAIRED matches at the start of a text exactly what begins with `<@name(arg)>content<@/name>`, the name in any case and without `<@` in the content |
| TagPatterns.SelfExactly | extensions/taffy.js:237 | SELF matches exactly what begins with `<@name(arg)/>` |
| TagPatterns.PassExactly | extensions/taffy.js:242-256 | one turn on any text: the leftmost such pair, or else the leftmost self-closing tag, gives way to its function's value, or to itself if unknown; the loop stops exactly when there is neither |
| TagTheorems.PairOnTokens | extensions/taffy.js:236 | PAIRED matches at a tag exactly when that tag is innermost and closed by its own name, and then the whole of it |
| TagTheorems.PassOnTokens | extensions/taffy.js:242-256 | a pass resolves one tag, keeps the meaning, and fails to match exactly when no tag is left |
| TagTheorems.ApplyTagsEvaluates | extensions/taffy.js:234-258 | for well-formed trees of known tags the loop's result is the tree's value if and only if it has at most 200 tags |
| TagPasses.PairPass | extensions/taffy.js:242-247 | over any tags, known or not, PAIRED rewrites the first innermost tag to its value, or to itself if it is unknown |
| TagPasses.SelfPass | extensions/taffy.js:248-254 | without an innermost tag, SELF does the same to the first self-closing one |
| UnknownTags.UnknownAnywhere | extensions/taffy.js:239-258 | with unknown tags anywhere in the tree, all known tags without an unknown one inside are resolved, and nothing else changed, if and only if the first blocker lets them and there are at most 200 |
| UnknownTags.UnknownTagStopsAll | extensions/taffy.js:244-247 | a leftmost unknown pair leaves the whole text unchanged, whatever stands behind it |
| UnknownTags.UnknownPairStops | extensions/taffy.js:239-258 | beside an unknown pair all known tags are resolved if and only if none is behind it, none before it is self-closing, and at most 200 are |
| UnknownTags.UnknownSelfStops | extensions/taffy.js:239-258 | beside an unknown self-closing tag, if and only if no self-closing tag is behind it and there are at most 200 |
| TagCodecs.CodecTagsCancel | extensions/taffy.js:213-218 | `b64d` around `base64`, and `unhex` around `hex`, give the text back if and only if every high surrogate is paired |
| TagCodecs.SourceCodecs | extensions/taffy.js:213-218 | the same for the tags as the source names them |
| TagCodecs.NamesOfTags | extensions/taffy.js:212-232 | every key of TAGS is a tag name in lower case |
| CharacterClasses.TagNameCharacters | extensions/taffy.js:236-237 | the characters of a tag name, spelled out |
| CharacterClasses.LowerCase | extensions/taffy.js:245 | `toLowerCase` on ASCII, letter by letter |
| CharacterClasses.Base64Letters | extensions/taffy.js:82-92 | the 64 letters in their order, and the padding character |
| CharacterClasses.Base64Characters | extensions/taffy.js:100 | the characters the decoder keeps |
| CharacterClasses.HexCharacters | extensions/taffy.js:123 | the characters the decoder keeps |
| CharacterClasses.HexLetters | extensions/taffy.js:118 | the digits of `toString(16)`, and in upper case |
| CharacterClasses.UnreservedCharacters | extensions/aws_sigv4.js:173-175 | the characters that are never escaped |
| CharacterClasses.IdentifierCharacters | extensions/dom_taint.js:108 | the characters that may not stand beside a mention |
| CharacterClasses.CardCharacters | extensions/sniffy.js:40-41 | what is removed from a card number, and what may be left |
| CharacterClasses.LexerMarks | scripts/marketplace_site.py:103-148 | blanks, quotes, digits, and the characters of a number |
| CharacterClasses.LexerLetters | scripts/marketplace_site.py:139-150 | the characters a name starts with, and the flags |
| CharacterClasses.Keywords | scripts/marketplace_site.py:72-76 | the forty-one keywords |
| Utf8.StrToBytes | extensions/taffy.js:45-62 | the loop computes the encoding |
| Utf8.BytesToStr | extensions/taffy.js:63-79 | the loop computes the decoding, of malformed bytes as well |
| Utf8.DecodeEncode | extensions/taffy.js:45-79 | decoding undoes encoding if and only if every high surrogate is followed by a low one |
| Utf8.EncodeIsUtf8 | extensions/taffy.js:45-62 | strings without lone surrogates are encoded as section 3 of RFC 3629 requires |
| Utf8.OneByte | extensions/taffy.js:63-79 | what becomes of a single byte, valid or not |
| Base64.B64EncodeBytes | extensions/taffy.js:83-94 | the loop computes letters and padding |
| Base64.B64DecodeToBytes | extensions/taffy.js:95-112 | the loop decodes the characters of the alphabet and ignores all others |
| Base64.DecodeEncode64 | extensions/taffy.js:83-112 | any text with the letters of an encoding decodes to the bytes |
| Base64.NoiseIsDropped | extensions/taffy.js:100 | a character outside the alphabet may be put anywhere |
| Base64.DecodedLength | extensions/taffy.js:101-110 | how many bytes come out; a single left-over character yields a byte 255 |
| Base64.EncodedLength | extensions/taffy.js:83-94 | four characters for every three bytes begun |
| Base64.EncodeIsBase64 | extensions/taffy.js:83-94 | the letters spell the bits of the bytes, padded with two zero bits for each padding character (section 4 of RFC 4648) |
| Hex.BytesToHex | extensions/taffy.js:115-121 | two lower-case digits for each byte |
| Hex.HexToBytes | extensions/taffy.js:122-126 | the loop decodes the digit pairs that remain after filtering |
| Hex.DecodeEncodeHex | extensions/taffy.js:115-126 | decoding undoes encoding in either case and with any other characters in between |
| HtmlEntities.HtmlEncodeIsEscaped | extensions/taffy.js:204-207 | the five replacements in a row are one replacement for each character |
| HtmlEntities.EscapedIsSafe | extensions/taffy.js:204-207 | no markup character is left |
| HtmlEntities.EscapedIsReadBack | extensions/taffy.js:204-207 | reading the references back gives the text |
| Sha256.RoundConstants | extensions/taffy.js:129-137 | each round constant is the first 32 fractional bits of the cube root of its prime |
| Sha256.InitialConstants | extensions/taffy.js:145 | the initial words are the first 32 fractional bits of square roots of primes |
| Sha256.ZeroCountIsSmallest | extensions/aws_sigv4.js:58 | the padding loop adds the smallest number of zeros that reaches 56 modulo 64 |
| Sha256.PaddingIsInjective | extensions/aws_sigv4.js:52-64 | no two messages are padded to the same blocks |
| Sha256.CodePadIsFips | extensions/aws_sigv4.js:59-64 | the code pads as FIPS 180-4 does if and only if the message is shorter than 2^29 bytes, and then its hash is the standard's |
| Sha256Bits.ChoiceBit | extensions/aws_sigv4.js:82 | each bit of Ch is chosen by that of its first argument |
| Sha256Bits.MajorityBit | extensions/aws_sigv4.js:85 | each bit of Maj is the one at least two arguments have |
| Sha256Bits.BigSigmaBits | extensions/aws_sigv4.js:81-84 | which three bits make each bit of the two functions of a round |
| Sha256Bits.SmallSigmaBits | extensions/aws_sigv4.js:75-76 | which bits make each bit of the two functions of the schedule |
| Sha256Bits.FirstWords | extensions/aws_sigv4.js:69-73 | the first sixteen words of the schedule spell the bits of the block |
| Sha256Bits.LaterWords | extensions/aws_sigv4.js:74-78 | each later one is the standard's sum of four before it |
| Sha256Bits.RoundEquations | extensions/aws_sigv4.js:80-89 | a round moves six words down by one place and brings in the two sums of section 6.2.2 |
| Sha256Bits.DigestInBits | extensions/aws_sigv4.js:94-98 | the digest is the bits of the eight words, in order and the highest first |
| Sha256Bits.PaddingInBits | extensions/aws_sigv4.js:54-64 | the padded message is the message, a one bit, the fewest zero bits that reach 448 modulo 512, and the length in 64 bits |
| Sha256Loops.RorIsRotr | extensions/aws_sigv4.js:51 | `ror` on signed intermediates is the standard's rotation |
| Sha256Loops.PackedIsWord | extensions/aws_sigv4.js:69-73 | four shifted and or-ed bytes are the big-endian word |
| Sha256Loops.RoundReads | extensions/aws_sigv4.js:80-89 | a round with signed intermediates is the standard's round |
| Sha256Loops.PadTaffy | extensions/taffy.js:140-144 | the padding by copy and push |
| Sha256Loops.PadAws | extensions/aws_sigv4.js:54-64 | the padding by a new array filled in place: the same result |
| Sha256Loops.Expand | extensions/aws_sigv4.js:68-78 | the loops compute the message schedule |
| Sha256Loops.Mix | extensions/aws_sigv4.js:79-92 | the sixty-four rounds and the addition to the hash words |
| Sha256Loops.HashBlocks | extensions/aws_sigv4.js:65-99 | the block loop and the output compute the digest of the padded message |
| Sha256Loops.Sha256Taffy | extensions/taffy.js:139-170 | the first copy computes the hash |
| Sha256Loops.Sha256Aws | extensions/aws_sigv4.js:52-99 | the second copy computes the same hash |
| Hmac.HmacSha256 | extensions/aws_sigv4.js:128-136 | the code of the key as it was, and a key left zero-extended in place; the message may be the same array |
| Hmac.CodeHmacIsRfc2104 | extensions/aws_sigv4.js:128-136 | it is section 2 of RFC 2104 for keys of every length SHA-256 is computed for |
| Hmac.Rfc2104Steps | extensions/aws_sigv4.js:128-136 | the key zero-extended to 64 bytes, or its hash, xored with 0x36 before the message and with 0x5c before that hash |
| Hmac.ExtendedKey | extensions/aws_sigv4.js:131 | a key and its extension give the same code |
| Hmac.Sign | extensions/aws_sigv4.js:273-277 | the four-step chain over shared arrays equals its composition |
| UriEncoding.UriEncode | extensions/aws_sigv4.js:168-190 | the loops compute the encoding |
| UriEncoding.DecodedIsUtf8 | extensions/aws_sigv4.js:168-190 | for strings without lone surrogates, percent-decoding gives UTF-8 as section 3 of RFC 3629 has it if and only if all characters are in the Basic Multilingual Plane |
| UriEncoding.DecodedIsEncoding | extensions/aws_sigv4.js:168-190 | for all strings it gives the bytes of `strToBytes` if and only if no high surrogate is followed by anything |
| UriEncoding.OutputIsEscaped | extensions/aws_sigv4.js:173-187 | only unreserved characters, `/` if asked for, and `%` with two upper-case digits |
| UriEncoding.KeptExactly | extensions/aws_sigv4.js:173-187 | unreserved characters are never escaped, and all others always |
| CanonicalQuery.SortIsStable | extensions/aws_sigv4.js:221 | keys come in the order of their UTF-16 units, the entries are the same, and those of one key keep their order |
| CanonicalQuery.LessExactly | extensions/aws_sigv4.js:222 | one key comes before another if and only if it ends, or has the smaller unit, where they part |
| CanonicalQuery.QueryReadBack | extensions/aws_sigv4.js:224-226 | split at `&` and `=` and percent-decoded, the string gives keys and values in order |
| CanonicalQuery.QueryAlphabet | extensions/aws_sigv4.js:224-226 | it holds only unreserved characters, `%`, `=` and `&` |
| CanonicalQuery.TwoParameters | extensions/aws_sigv4.js:222-226 | the parameter `a` comes before the parameter `b` |
| CanonicalQuery.SortedIsUnique | extensions/aws_sigv4.js:221 | without conflicting entries any sort by key gives the same list |
| CanonicalQuery.JoinInjective | extensions/aws_sigv4.js:223-225 | no two lists of parameters have the same query string |
| CanonicalQuery.CanonicalIffConsistent | extensions/aws_sigv4.js:212-226 | the query is the same for every order of the parameters if and only if no key has two values |
| Taint.CollectTaint | extensions/dom_taint.js:127-158 | a variable is tainted if and only if seeded, assigned from a source, or reached by a forward chain; its origin is that of such a chain; a seed's is `postMessage`, and of several sources assigned the first counts |
| Taint.SinkOrigin | extensions/dom_taint.js:215-223 | a sink is reported if and only if its region holds a source or mentions a reached variable; a source in the region wins |
| Taint.MentionsExactly | extensions/dom_taint.js:105-112 | an identifier is mentioned if and only if it is one of the words of the text |
| Taint.TaintedVarFirst | extensions/dom_taint.js:106-110 | the origin is that of the first variable, in order of enumeration, that is mentioned |
| Taint.PutOrder | extensions/dom_taint.js:143-153 | a new variable is enumerated last, and one that is bound keeps its place |
| Taint.OneIdentifierAt | extensions/dom_taint.js:105-112 | mentions are of whole identifiers |
| Taint.Reports.AlreadyReported | extensions/dom_taint.js:75-82 | the answer, and the set after the call |
| Taint.SeenSize | extensions/dom_taint.js:76-82 | the set is emptied by exactly every 5001st report |
| Taint.NoDoubleReport | extensions/dom_taint.js:75-82 | two reports of one key are separated by such a reset |
| Luhn.LuhnOk | extensions/sniffy.js:39-49 | the loop accepts exactly 13 to 19 digits, separators aside, with a valid checksum |
| Luhn.AcceptedExactly | extensions/sniffy.js:39-49 | accepted are exactly the texts of digits, blanks and dashes with 13 to 19 digits whose sum by Annex B of ISO/IEC 7812-1 is a multiple of ten |
| Luhn.SeparatorsDoNotMatter | extensions/sniffy.js:40 | spaces and dashes change nothing |
| Luhn.SingleErrorDetected | extensions/sniffy.js:42-48 | every change of one digit is detected |
| Luhn.SwapDetected | extensions/sniffy.js:42-48 | a swap of neighbours goes unnoticed if and only if they are equal or 0 and 9 |
| Luhn.OneCheckDigit | extensions/sniffy.js:42-48 | exactly one final digit completes any digits |
| Lexer.Tokenize | scripts/marketplace_site.py:83-162 | the loops compute the tokens, or stand still for ever |
| Lexer.TurnAdvances | scripts/marketplace_site.py:99-161 | every turn advances, except exactly on a digit outside ASCII |
| Lexer.LexEnds | scripts/marketplace_site.py:99-161 | the loop ends if all digits are ASCII digits |
| Lexer.LexEndsExactly | scripts/marketplace_site.py:99-161 | the loop does not end if and only if a turn starts at a digit outside ASCII |
| Lexer.SuperscriptTwo | scripts/marketplace_site.py:144-148 | such a digit alone stops it, behind `//` it does not |
| Lexer.LexIsLossless | scripts/marketplace_site.py:83-162 | the texts of the tokens are the source, unterminated strings, comments and regular expressions included |
| Lexer.LexShape | scripts/marketplace_site.py:99-161 | every token has the shape of its kind: keywords, names, numbers, single punctuation characters, comments, strings and regular expressions from opener to first unescaped closer; only the last may be left open |
| LexerContext.SlashExactly | scripts/marketplace_site.py:90-143 | a token that starts with a slash is a comment if and only if a slash or a star follows; otherwise a regular expression if and only if no expression has just ended and the line has a closing slash; otherwise the slash alone |
| LexerContext.TokensFit | scripts/marketplace_site.py:99-161 | blanks, numbers, names, flags and line comments are as long as they can be, and a name is a function if and only if an opening parenthesis follows |
| Highlighter.Highlight | scripts/marketplace_site.py:165-188 | the loops compute rows and line count |
| Highlighter.ReadHighlighted | scripts/marketplace_site.py:165-188 | reading the page back gives the source; there is one line more than newline tokens |
| Highlighter.RowsNumbered | scripts/marketplace_site.py:174-187 | the gutter counts the lines from one |
| Highlighter.ClassesAndReferences | scripts/marketplace_site.py:79-80 | the class of each kind, and the five character references |
| Highlighter.RowsAngles | scripts/marketplace_site.py:173-187 | every `<` of the page is the printer's own |

## Left out

- DraftFields.Client, NoteFields.Annotations, BenchFields.Sequencer: the one `NL` object is spread over three classes; promise chains are sequences of unsettled writes, and which handler runs next is the step relation's choice.
- ServerHistory.VersionIdUnique: rests on the server rules listed above; the C++ server is not part of this model.
- NotesSync.FetchNeverLowers: the snapshot's own call of the two refresh functions is a separate event, which may follow at once.
- BenchRenewal.FetchedExactly: says when `refreshSequencer` gets past its guards; the page calls it with every snapshot and poll tick that knows a revision and with every reload, which in the model is the step relation's choice.
- LostUpdates.NoLostUpdate: speaks of text changes of other clients and of captures; the client's own appends and patches may overwrite one another.
- BenchSync.Call: what a capture call changes besides the text is left open, and it counts as a version of its own even if it changes nothing; the tokens a running capture adds are changes of somebody else.
- UnknownTags.UnknownAnywhere: trees in which a known tag around known ones yields a `<` are left out, as in TagTheorems.ApplyTagsEvaluates.
- The generation is kept as its three parts; the source joins them with colons, so parts that contain colons could in theory collide.
- An error message of the Sequencer is never empty in the model, as in the source's own messages.
- TagTheorems.ApplyTagsEvaluates: is about deterministic tags whose results, literals and arguments hold no `<`; the generators and `urlenc`, `urldec`, `upper`, `lower`, `reverse`, `repeat` and `len` enter as arbitrary table entries.
- General regular expressions: matches of the taint assignment pattern, of the sources and of the sinks are inputs; object lookups are maps, inherited property names aside.
- SHA-1, `redact`, the per-row caches and `headerVal`: easier variants of what is proved, or plumbing.
- In `signRequest`: `decodeURIComponent`, the canonical headers, dates and the final header list. The sort is the stable one ECMAScript prescribes.
- Lexer.Tokenize: `str.isdigit` and `\w` are parameters; `None` stands for the loop that does not end, in which the source's token list would grow without bound.
- Highlighter.ReadHighlighted: `html.escape` is modelled character by character.
- `XMLHttpRequest`, `fetch`, timers, themes and React components: plumbing; timeouts are steps that may happen at any time.

# Cantinarr: the AI conversation core, release promotion and the Maestro helper check

This project models three parts of Cantinarr and proves what they keep.

* **The AI conversation core of the Go server** (`server/internal/ai`). A chat turn binds to a provider account, is
  admitted, resumes or mints a conversation, runs a provider, and stores or drops the resulting transcript. The
  transcript is bounded, stripped of unpaired tool blocks, trimmed, cloned into a capacity- and TTL-bounded store, and
  later replayed to Codex as native Responses items.
* **Release control** (`scripts/release_control.py`): who owns the public beta channel, which recorded candidate a
  stable release may use, and what happens to registry tags when promotions stop midway.
* **The Maestro helper check** (`scripts/check_test_automation.py`): a recursive search over flows and helpers with
  shared `validated` and `visiting` sets.

Every object that updates its fields is a class here, and the loops of the modelled functions are loops, each proved
against a specification function whose properties are then proved for all inputs and all runs. A few small loops are
predicates or functions instead: `containsToolResult`, the scan of branch names in `channel_for`, the set of pairs in
`combine_records`, and the library's `strings.ToValidUTF8`, `utf8.ValidString` and `strings.TrimSpace`. The loop of
`acquireKey` is left out.

| file | part of the program |
|---|---|
| `Decimals.dfy` | decimal notation, of versions and of user ids |
| `Utf8.dfy`, `Spaces.dfy` | `boundedString`, `strings.ToValidUTF8`, `strings.TrimSpace` on bytes |
| `Transcripts.dfy` | transcript blocks, `boundTranscriptMessage`, `transcriptSize` |
| `Sanitize.dfy`, `Trim.dfy` | `sanitizeTranscript`, `trimHistory` |
| `Builder.dfy` | `codexTranscriptBuilder` |
| `Items.dfy` | `codexResponseItems`, `codexNativeTurn` |
| `Pipeline.dfy`, `Conversation.dfy` | one Codex turn, and any number of them, through build, store and replay |
| `Store.dfy`, `Cloning.dfy` | `conversationStore` on values, and its separation from callers on the heap |
| `Admission.dfy`, `Chat.dfy` | `chatAdmission`, and `Chat` as an interleaving of atomic steps |
| `Fallback.dfy` | `fallbackTurnRunner` |
| `Composition.dfy` | storage, Codex turns and the interleaved protocol together |
| `Release.dfy`, `Candidates.dfy` | `promote_server`; `channel_for`, `current`, `artifact_json`, `validate_record`, `find_server` |
| `Scanner.dfy`, `HelperGraph.dfy` | the line scanner; the helper check over flows, helpers and suites |

## How the source is read

* A Go string is a sequence of bytes; one `char` stands for one byte. `nil` and empty `Input` are kept apart, because
  bounding and cloning treat them differently.
* `json.Valid` is a parameter: any predicate that accepts the truncation marker and rejects the empty string. Where
  another input must be valid JSON, the lemma says so.
* Each method that holds a mutex is one atomic step. `Chat` is the sequence bind, admit, resolve, run, put or delete,
  release; any number of turns, account invalidations and other holders of admission slots interleave. Minted
  conversation ids are fresh and not empty. Clock readings are arbitrary integers, so no result depends on a
  monotone clock.
* Map iteration order is arbitrary: eviction and account purges pick any next entry.
* Generations are `uint64` and wrap. Invalidation is therefore not permanent without qualification:
  `BindingCurrentIff` gives the exact condition and `FullCircleRevives` the run on which an old binding returns.

## What does not hold

* *Replayed tool calls are always matched.* `codexResponseItems` describes its tool pairs as matched. Sanitising looks
  only at tool uses of assistant messages and tool results of the others; a `tool_use` in a user message or a
  `tool_result` in an assistant message survives and is replayed alone (`StraysUnmatched`).
  `MatchedIffStraysPartnered` says exactly when replay matches, in terms of the transcript's blocks, and everything
  the program itself builds does (`EveryReplayMatches`, `EveryGetReplaysMatched`).
* *Signed blocks are skipped on replay.* The comment on `codexResponseItems` says that provider-opaque continuation
  blocks are skipped, but the code looks at the type of a block only: a signed tool use, as Gemini sends them, is
  replayed (`SignedCallIsReplayed`). They are skipped if and only if none is a non-empty text or a tool block with an
  id (`OpaqueSkippedIff`); Codex conversations hold no signed blocks at all (`CodexReplaySkipsNothingSigned`), and a
  binding keeps those of other providers out of them (`EveryGetReplaysMatched`).
* *The stored transcript is always within 1 MiB.* The comment in `trimHistory` promises a bounded result. It is bounded
  if and only if the newest plain user message fits on its own (`TrimFitsIff`); one of 16 text blocks does not
  (`FragmentedQuestionExceedsLimit`). No caller in this repository makes such a message: user messages hold one text
  block or only tool results, and then everything stored fits (`FewBlocksFit`, `EveryStoredTurnFits`, `EveryGetFits`).
* *A Codex turn survives storage.* The 50 messages always fit the message limit, but 24 large pairs exceed 1 MiB
  (`LargestTurnIsLost`, `LargestTurnExists`), and then only the question is kept (`CodexTurnSurvivesIff`).
* *A Put keeps up to 199 other conversations.* `Put` evicts before it overwrites. `OtherSurvivorsIff` gives the exact
  condition on the store before the call: one entry too many can go exactly if the store is full, already holds that
  conversation, and holds another one that is no newer (`OverwritingFullStoreDropsOneTooMany` is such a store).
* *Tags never go backward.* This is true of `X.Y.Z` and `latest`. The `X.Y` tag goes back exactly when a promotion gets
  as far as it while it names a newer version (`WentBackIff`); if it starts no newer than `latest`, it never does as long as
  no promotion stops between its second and third tag write (`MinorTagsNeverGoBackward`), and one such stop is enough
  to lose that (`MinorTagFollowsLastWriter`, with `OlderPatchSameMinor` for versions to use it on).

## Model

| member | source | states |
|---|---|---|
| Utf8.BoundedString | server/internal/ai/conversation.go:389-403 | The backward search finds the longest valid prefix that leaves room for the marker. |
| Utf8.BoundedIsValidAndShort | server/internal/ai/conversation.go:389-403 | The result is valid UTF-8 (section 4 of RFC 3629) of at most `limit` bytes, for every byte string and limit. |
| Utf8.BoundedFixedIff | server/internal/ai/conversation.go:390-393 | A string is left alone if and only if it is already valid and short enough. |
| Utf8.BoundedIdempotent | server/internal/ai/conversation.go:389-403 | Bounding twice is bounding once. |
| Utf8.TruncationKeepsLongestPrefix | server/internal/ai/conversation.go:394-402 | Above the marker length, truncation keeps the longest valid prefix that fits and gives up at most 3 bytes. |
| Utf8.BoundedInventsNothing | server/internal/ai/conversation.go:389-403 | A short result without a replacement character is the original string, so bounding never turns another name into `tool_use`, `assistant` and the like. |
| Utf8.EncodedIsValid | server/internal/ai/conversation.go:389-403 | Every sequence of code points has a valid encoding (section 3 of RFC 3629). |
| Utf8.ValidIsEncoded | server/internal/ai/conversation.go:389-403 | And every valid string is the encoding of one. |
| Utf8.ToValidKeepsRunes | server/internal/ai/conversation.go:390 | Repairing keeps every well-formed code point in order, also after malformed bytes, and adds one replacement for each malformed run. |
| Spaces.TrimSpaceValid | server/internal/ai/codex_transcript.go:55-79 | Trimming Unicode white space from valid UTF-8 never splits a code point and never lengthens the text. |
| Spaces.WhiteIsSpace | server/internal/ai/codex_transcript.go:55 | White space is the encodings of Unicode's white-space code points. |
| Spaces.TrimSpaceIs | server/internal/ai/codex_transcript.go:55-79 | Trimming takes only white-space code points away, at both ends, and all that are there. |
| Spaces.TrimSpaceUnique | server/internal/ai/codex_transcript.go:55-79 | This determines the result. |
| Spaces.TrimSpaceKeepsVisible | server/internal/ai/codex_transcript.go:55-79 | Everything else in a valid text stays, in order. |
| Transcripts.BoundTranscriptMessage | server/internal/ai/conversation.go:335-374 | One oversized or malformed signed block rejects the whole message; every other block is bounded field by field, signed ones are kept exactly. |
| Transcripts.BoundMessageIsFixed | server/internal/ai/conversation.go:335-387 | A bounded message is a fixed point of bounding; in particular no ordinary block becomes a signed one. |
| Transcripts.OpaqueIff | server/internal/ai/conversation.go:376-381 | A block is signed by its type, signature, data or thought signature. |
| Transcripts.BoundFixedIff | server/internal/ai/conversation.go:335-374 | The blocks that bounding leaves alone: signed ones within all limits, others with every text valid and within its own limit, and only valid JSON inputs of at most 16 KiB. |
| Transcripts.BoundBlockCuts | server/internal/ai/conversation.go:343-370 | Each text of an ordinary block is repaired and cut to the longest prefix that fits its own limit, an unusable input becomes the marker, and nothing else changes. |
| Transcripts.RejectedIff | server/internal/ai/conversation.go:343-351 | A block is rejected if and only if it is signed and breaks a limit. |
| Transcripts.BoundMessageCuts | server/internal/ai/conversation.go:335-374 | A message is rejected if and only if a block of it is; otherwise its role is cut and its blocks are bounded in order. |
| Transcripts.TranscriptSize | server/internal/ai/conversation.go:284-295 | The nested loops compute the size that is additive over messages and blocks. |
| Transcripts.EveryByteCounts | server/internal/ai/conversation.go:284-295 | Every byte of every field of a block counts once, signatures included, and each block 32 more. |
| Transcripts.StoredBlockSize | server/internal/ai/conversation.go:335-387 | After bounding, one block costs at most 116,768 bytes. |
| Sanitizing.FollowingToolResults | server/internal/ai/conversation.go:406-416 | The ids answered by the next bounded message, none if it was rejected. |
| Sanitizing.PrecedingToolUses | server/internal/ai/conversation.go:421-432 | The ids called by the previous bounded message, none unless it is a valid assistant message. |
| Sanitizing.StripOrphanToolUse | server/internal/ai/conversation.go:435-455 | Exactly the unanswered tool uses are removed and the order is kept; the early return agrees with the loop. |
| Sanitizing.StripOrphanToolResults | server/internal/ai/conversation.go:457-467 | Exactly the uncalled tool results are removed and the order is kept. |
| Sanitizing.StripKeepsPartnered | server/internal/ai/conversation.go:435-467 | A block survives stripping if and only if it is no orphan; without orphans nothing changes. |
| Sanitizing.KeptMessage | server/internal/ai/conversation.go:318-331 | One round keeps at most one message: the bounded one without its orphans, if anything is left. |
| Sanitizing.SanitizeTranscript | server/internal/ai/conversation.go:311-333 | Both loops together compute the specification, and the result is bounded, without empty messages and paired. |
| Sanitizing.CleanAllPaired | server/internal/ai/conversation.go:318-467 | Pairing holds in the output although rejected and emptied messages disappear and the tests read only original neighbours. |
| Sanitizing.SanitizedIsNormal | server/internal/ai/conversation.go:306-333 | For every input, each tool use of an assistant message is answered in the very next output message, and each tool result of another message names a call of the assistant message right before it. |
| Sanitizing.SanitizeKeepsSurvivors | server/internal/ai/conversation.go:311-467 | Sanitising keeps, in order, exactly the messages that are not rejected with exactly their blocks that have their partner in the neighbouring message or need none, and drops those left empty. |
| Sanitizing.SanitizeFixedIff | server/internal/ai/conversation.go:311-333 | Sanitising changes nothing if and only if the transcript is in normal form. |
| Sanitizing.SanitizeIdempotent | server/internal/ai/conversation.go:168-184 | Sanitising in `Chat` and again in `Put` is the same as doing it once. |
| Sanitizing.SanitizeSplits | server/internal/ai/conversation.go:311-333 | A message without tool results is a seam: both sides are sanitised independently. |
| Trimming.TrimHistory | server/internal/ai/conversation.go:253-282 | The two loops return the specified transcript for every limit, zero and negative ones included. |
| Trimming.TrimIsLongestSuffix | server/internal/ai/conversation.go:253-282 | When it must trim: the longest suffix within both limits that starts with a plain user message; if there is none, the newest plain user message alone, or nothing. |
| Trimming.GoodStartIff | server/internal/ai/conversation.go:261-269 | The suffix may start at a user message without tool results from which on there are at most 1,048,576 bytes. |
| Trimming.TrimIdempotent | server/internal/ai/conversation.go:253-282 | Trimming twice is trimming once, for every limit. |
| Trimming.TrimKeepsMessageLimit | server/internal/ai/conversation.go:253-282 | At most `maxLen` messages remain, for every `maxLen` of at least 1. |
| Trimming.TrimFitsIff | server/internal/ai/conversation.go:268-281 | The result fits 1 MiB if and only if the newest plain user message does. |
| Trimming.StoredTranscriptFits | server/internal/ai/conversation.go:253-304 | After sanitising, the result fits 1 MiB whenever plain user messages have at most 8 blocks. |
| Trimming.FragmentedQuestionExceedsLimit | server/internal/ai/conversation.go:272-280 | A sanitised user message of 16 text blocks is kept although it exceeds 1 MiB. |
| Trimming.TrimKeepsNormal | server/internal/ai/conversation.go:249-282 | Trimming a sanitised transcript leaves it paired and in normal form. |
| Trimming.StoredFormStable | server/internal/ai/conversation.go:168-184 | What `Put` stores is stable under sanitising, under storing again, and under sanitising before storing. |
| Building.CodexTranscriptBuilder.Text | server/internal/ai/codex_transcript.go:30-38 | Adds the delta, cut to what is left of the 64 KiB of the whole run. |
| Building.CodexTranscriptBuilder.ToolRecord | server/internal/ai/codex_transcript.go:40-72 | Adds one call and its result after the text so far, or nothing once 24 pairs are kept. |
| Building.CodexTranscriptBuilder.Finish | server/internal/ai/codex_transcript.go:76-84 | Returns the pairs and the trailing text. |
| Building.BuiltKeepsStream | server/internal/ai/codex_transcript.go:30-84 | After every interleaving the output holds exactly the earliest 24 records in order, and the kept text cut exactly where those records came: up to each record stands all the text kept before it. |
| Building.CutUnique | server/internal/ai/codex_transcript.go:53-61 | There is only one such cut, so the text before each record is determined by the events. |
| Building.RecordIsStored | server/internal/ai/codex_transcript.go:40-72 | The k-th kept record is in messages 2k and 2k + 1: its use with id, name and input after the trimmed text before it, its result with id, name, cut content and error flag. |
| Building.BuiltKeepsVisible | server/internal/ai/codex_transcript.go:30-84 | With white space left out, the stored assistant texts in order are the kept text. |
| Building.NoTextLostBelowCap | server/internal/ai/codex_transcript.go:30-51 | Below the 64 KiB cap no text is lost, also after the 24th pair. |
| Building.BuiltIsBounded | server/internal/ai/codex_transcript.go:9-84 | After every interleaving: paired messages, at most 24 pairs, 49 messages and 64 KiB of assistant text. |
| Building.BuiltIsNormal | server/internal/ai/codex_transcript.go:40-84 | With bounded tool names the output is already in stored normal form. |
| Replaying.CodexResponseItems | server/internal/ai/codex_items.go:77-137 | The items say exactly what the blocks say, in order, without empty texts, tool blocks without id and blocks of other types; texts are grouped per message. |
| Replaying.EntryInLiterals | server/internal/ai/codex_items.go:86-133 | What each entry of a replay says: a text as the assistant's output_text or the user's input_text by the role of its message, a call with name, arguments and id, an output with id and content. |
| Replaying.TextEntries | server/internal/ai/codex_items.go:86-106 | A text message replays as exactly that. |
| Replaying.RendersUnique | server/internal/ai/codex_items.go:86-135 | That contract fixes the item list: there is one rendering, in which no item crosses a message or mixes roles. |
| Replaying.CodexNativeTurn | server/internal/ai/codex_items.go:44-70 | A native turn exists if and only if the transcript ends in a plain user text; it replays everything before it and prompts with that text. |
| Replaying.JoinedConcat | server/internal/ai/codex_items.go:52-64 | The prompt joins the non-empty texts of the closing message in order, one per line. |
| Replaying.MatchedIffAnswered | server/internal/ai/codex_items.go:77-137 | For every transcript, the replayed calls and outputs match if and only if every tool use with an id has a later tool result with it and every tool result an earlier tool use. |
| Replaying.MatchedIffStraysPartnered | server/internal/ai/codex_items.go:72-137 | On a paired transcript only blocks in the wrong role matter: replay matches if and only if each tool use outside assistant messages has its result further on and each tool result inside them an earlier use. |
| Replaying.StraysUnmatched | server/internal/ai/codex_items.go:44-137 | Two sanitised histories that end in a user text, whose native turns replay a call without output and an output without call. |
| Replaying.NativeReplayMatches | server/internal/ai/codex_items.go:44-137 | In a native turn of a paired history with tool blocks in their roles, every call has a later output and every output an earlier call. |
| Replaying.OpaqueSkippedIff | server/internal/ai/codex_items.go:75-134 | Leaving the signed blocks of a transcript out changes nothing that is replayed if and only if none of them is a non-empty text or a tool block with an id. |
| Replaying.SignedCallIsReplayed | server/internal/ai/codex_items.go:107-121 | A sanitised history whose native turn replays a signed call. |
| Surviving.TurnSanitized | server/internal/ai/handler.go:330-333 | Sanitising history, question and built turn together leaves the turn as it is, but for an overlong question. |
| Surviving.CodexTurnSurvivesIff | server/internal/ai/conversation.go:253-333 | A Codex turn survives storage completely if and only if question, pairs and answer fit 1 MiB; otherwise only the question is kept. |
| Surviving.LargestTurnIsLost | server/internal/ai/conversation.go:272-280 | Whatever a turn with 24 calls of the largest stored size says besides, only its question is stored. |
| Surviving.LargestTurnExists | server/internal/ai/codex_transcript.go:40-72 | Such turns exist for any 24 minted ids, given one valid JSON input of 16 KiB. |
| Surviving.StoredTurnIsReplayed | server/internal/ai/codex_items.go:44-137 | What is stored is a suffix of the sanitised history and the turn; the next native turn replays exactly that: the question as the user's input_text, every kept record as a call directly followed by its output, each after the text that came before it, and the answer as the assistant's output_text. |
| Conversing.TranscriptFromClient | server/internal/ai/conversation.go:469-489 | The client's transcript starts with a user message and consists of non-empty plain texts, hence is paired. |
| Conversing.FromClientKeeps | server/internal/ai/conversation.go:469-489 | From the first user message with text on, every message with text is kept in order, with the assistant's as such and all others as the user's. |
| Conversing.ClientReplayIs | server/internal/ai/codex_items.go:77-137 | Replaying a client history repeats each of these texts as what its author said. |
| Conversing.StoredFormKeepsRoles | server/internal/ai/conversation.go:168-184 | Storing keeps a transcript paired and its tool blocks in messages of their roles. |
| Conversing.EveryReplayMatches | server/internal/ai/handler.go:234-368 | Over any number of Codex turns, whatever the tools are called with, every native replay has matched calls and outputs. |
| Conversing.CodexReplaySkipsNothingSigned | server/internal/ai/codex_items.go:72-137 | Over any number of Codex turns, replay neither repeats nor leaves out a signed block. |
| FewBlocks.FewBlocksFit | server/internal/ai/conversation.go:168-184 | What is put with at most 8 blocks besides tool results in each user message is stored within 1 MiB. |
| FewBlocks.EveryStoredTurnFits | server/internal/ai/handler.go:234-368 | After any number of Codex turns, what is stored fits 1 MiB. |
| Composing.EntriesDescend | server/internal/ai/handler.go:231-369 | In every run, each entry was made by an enabled turn of its own user, id and binding from what that turn put, and so was, before that, whatever that turn had resumed. |
| Composing.GetIsOfSameAccount | server/internal/ai/conversation.go:149-162 | In every run, a Get under the binding of a user and an account returns only what a turn begun by that user with that same source, provider, model and key put. |
| Composing.MakerHasAccount | server/internal/ai/conversation.go:137-162 | So did every turn that the entry descends from. |
| Composing.EveryGetFits | server/internal/ai/conversation.go:154-184 | If every transcript that is put under a binding has user messages of few blocks, no Get of the run under it returns more than 1 MiB. |
| Composing.EveryGetReplaysMatched | server/internal/ai/handler.go:107-369 | However turns of many users and providers interleave with each other and with account changes, every Get under a Codex binding returns what one conversation of Codex turns alone would have stored; it fits 1 MiB, and its next replay is matched and repeats nothing signed. |
| Composing.TurnContinuesStored | server/internal/ai/handler.go:231-369 | A resumed Codex turn that succeeds continues exactly the transcript that is stored at that moment. |
| Composing.ConversationGrows | server/internal/ai/handler.go:330-368 | When a turn that resumed a stored transcript succeeds, what is stored is that transcript with its question and answer. |
| Storing.ConversationStore.NewBinding | server/internal/ai/conversation.go:113-147 | The binding carries the owner and both current generations, and is current. |
| Storing.BindingIdentifies | server/internal/ai/conversation.go:101-147 | Another user, source, provider, model or key gives another binding, whenever the two were taken. |
| Storing.TakenBindingCurrentIff | server/internal/ai/conversation.go:186-193 | A binding is current if and only if it is for its own user and neither generation has moved. |
| Storing.ConversationStore.Get | server/internal/ai/conversation.go:154-162 | Returns an entry if and only if it is the user's own, was put under the same current binding, and has not expired. |
| Storing.LookupIff | server/internal/ai/conversation.go:154-162 | An entry is found if and only if it is the user's, under the same current binding, and at most four hours old. |
| Storing.ConversationStore.Put | server/internal/ai/conversation.go:168-184 | Refuses a stale binding and changes nothing then; otherwise evicts, stores the stored form with a clock reading of its own, keeps the invariant, and a Get within the TTL reads it back. |
| Storing.ConversationStore.Delete | server/internal/ai/conversation.go:198-202 | Removes one entry and nothing else. |
| Storing.ConversationStore.DeleteForUser | server/internal/ai/conversation.go:208-217 | Advances that user's generation and removes exactly the user's entries, in any iteration order. |
| Storing.ConversationStore.DeleteAll | server/internal/ai/conversation.go:222-227 | Advances the global generation and removes everything. |
| Storing.DeleteRemovesOne | server/internal/ai/conversation.go:198-202 | After a Delete the id is gone, and all others and the generations are as before. |
| Storing.PurgeRemovesUser | server/internal/ai/conversation.go:208-217 | After a purge exactly the user's entries are gone, and only the user's generation has moved, by one. |
| Storing.PurgeRemovesAll | server/internal/ai/conversation.go:222-227 | After a purge of everyone nothing is stored and only the global generation has moved, by one. |
| Storing.ConversationStore.EvictLocked | server/internal/ai/conversation.go:229-247 | Terminates and keeps the unexpired entries if at most 199, otherwise 199 of them with no dropped entry newer than a kept one. |
| Storing.ConversationStore.OldestId | server/internal/ai/conversation.go:238-244 | The inner loop finds an oldest entry in every iteration order, given non-empty ids. |
| Storing.OtherSurvivorsIff | server/internal/ai/conversation.go:176-182 | Whatever is evicted, as many other entries as fit survive a Put, if and only if not: the store is full, already holds that id, and holds another entry that is no newer. |
| Storing.OverwritingFullStoreDropsOneTooMany | server/internal/ai/conversation.go:176-182 | Writing to the newest of 200 conversations leaves 198 others. |
| Storing.PutKeepsInv | server/internal/ai/conversation.go:168-193 | After every Put all entries are their user's, under current generations, in stored form, and at most 200. |
| Storing.DeleteForUserKeepsInv | server/internal/ai/conversation.go:208-217 | No entry of the purged user survives under an old generation. |
| Cloning.CloneTranscript | server/internal/ai/conversation.go:498-517 | The copy says the same and all its arrays, byte slices included, are new. |
| Cloning.CopyOfStored | server/internal/ai/conversation.go:498-517 | The copy of a stored form is that stored form, signatures included. |
| Cloning.SharedStore.Put | server/internal/ai/conversation.go:177-182 | The stored entry is a copy in memory that no caller can reach; other entries keep their contents. |
| Cloning.SharedStore.Get | server/internal/ai/conversation.go:161 | What a caller receives is a copy in new memory. |
| Cloning.Session | server/internal/ai/conversation.go:498-517 | However callers mutate what they passed in or got back, at any depth, link new arrays into it and put it again, and whichever entries are dropped, the store holds what was put. |
| Admitting.ChatAdmission.TryAcquireKey | server/internal/ai/admission.go:42-79 | The decision and the whole new state; a refused attempt changes nothing, and the invariant holds. |
| Admitting.ChatAdmission.Release | server/internal/ai/admission.go:66-77 | Frees exactly what its permit took, once; a repeated call changes nothing, and the tokens it receives are there. |
| Admitting.AcquireKeepsInv | server/internal/ai/admission.go:42-79 | Live permits, actor keys and global tokens stay in bijection and at most 16; shared tokens match live shared permits, at most 4. |
| Admitting.ReleaseKeepsInv | server/internal/ai/admission.go:66-77 | The same for a first or repeated release. |
| Admitting.AdmissionIff | server/internal/ai/admission.go:42-65 | Who is admitted: exactly who has a key that no live permit holds, with fewer than 16 live permits and, for the shared provider, fewer than 4 shared ones. |
| Admitting.AcquiredExactly | server/internal/ai/admission.go:42-79 | An admission adds one live permit for that key; a refusal changes nothing. |
| Admitting.ReleasedExactly | server/internal/ai/admission.go:66-77 | A release ends exactly its own permit. |
| Admitting.AdmissionSafe | server/internal/ai/admission.go:15-79 | Over all interleavings: one live permit per actor, both limits, and the initial state again once everything is released. |
| Chatting.NextKeepsInv | server/internal/ai/handler.go:107-369 | Every step of every turn keeps the joint invariant of store, admission, turns and id ownership. |
| Chatting.RunKeepsInv | server/internal/ai/handler.go:107-369 | Every world that any interleaving reaches satisfies that invariant. |
| Chatting.ReleaseNeverBlocks | server/internal/ai/admission.go:66-77 | In every run, a turn that holds a permit can release it: no receive waits on an empty channel. |
| Chatting.OneTurnPerUser | server/internal/ai/handler.go:131-141 | Two active turns of one user are the same turn. |
| Chatting.UserKeyInjective | server/internal/ai/admission.go:38-40 | Different users have different locks. |
| Chatting.BeginBinds | server/internal/ai/handler.go:105-107 | A turn begins with a current binding for its user and account. |
| Chatting.AdmittedIff | server/internal/ai/handler.go:131-141 | In every run, a turn is let in if and only if nothing holds its user's lock and there is room. |
| Chatting.ResolveResumesIff | server/internal/ai/handler.go:231-250 | A turn resumes the requested conversation if and only if id and text are not empty and Get finds it; otherwise it runs under the minted id. |
| Chatting.EntryStays | server/internal/ai/conversation.go:168-247 | An entry stays as it is until a step writes, deletes or evicts it or purges its user. |
| Chatting.ConversationResumes | server/internal/ai/handler.go:107-369 | A conversation goes on: if such an entry was stored by a turn, another turn of that user with the same account that asks for it within the TTL runs under it and has read exactly what the first one stored. |
| Chatting.BegunSinceIsCurrent | server/internal/ai/conversation.go:137-193 | A turn begun since then has a current binding. |
| Chatting.FailDrops | server/internal/ai/handler.go:345-348 | A failed turn leaves nothing under its id. |
| Chatting.NoLostUpdate | server/internal/ai/handler.go:231-369 | While a turn runs, the entry under its id is gone or still what it read, and no other turn can write or delete it. |
| Chatting.OneOwner | server/internal/ai/handler.go:243-251 | Over every run a conversation id is written or deleted for one user only. |
| Chatting.EvictionDropsOldest | server/internal/ai/conversation.go:236-246 | Since minted ids are not empty, eviction in every run drops oldest first. |
| Chatting.EveryGetIsOwnAndClean | server/internal/ai/conversation.go:149-162 | In every run, a Get returns only to the user the id was minted for, an unexpired, paired, bounded transcript of at most 60 messages. |
| Chatting.GenerationsCount | server/internal/ai/conversation.go:204-227 | The generations count the invalidations of a run modulo 2^64. |
| Chatting.BindingCurrentIff | server/internal/ai/conversation.go:186-193 | A binding is current later if and only if both counters of invalidations since are multiples of 2^64. |
| Chatting.FullCircleRevives | server/internal/ai/conversation.go:222-227 | 2^64 purges make an old binding current again. |
| Chatting.InvalidationPermanent | server/internal/ai/conversation.go:95-227 | After an account change (fewer than 2^64 of them) a binding taken before is refused, and nothing put under it is ever returned, even if the Put arrives later. |
| FallingBack.FallbackTurnRunner.NextTurn | server/internal/ai/model_fallback.go:215-242 | One turn calls the delegate, and once in the runner's life, on a confirmed failure with a usable recommendation, the replacement. |
| FallingBack.SwitchesIff | server/internal/ai/model_fallback.go:142-159 | A replacement is made if and only if the turn fails, the failure is confirmed, and another model is recommended. |
| FallingBack.AtMostOneReplacement | server/internal/ai/model_fallback.go:120-242 | Over any n turns: n or n+1 calls, at most one replacement, different from the selected model and used from then on, with one unchanging record from the switching turn on. |
| Versions.TripleInjective | scripts/release_control.py:20 | The version grammar makes tag text and numeric triple determine each other. |
| Decimals.DigitsAreNumeric | scripts/release_control.py:20 | Every number has a notation without leading zeros that reads back as it. |
| Decimals.NumericHasOneNotation | scripts/release_control.py:20 | And only one. |
| Versions.VersionTextIs | scripts/release_control.py:20 | Every triple of numbers has a version text that reads back as it. |
| Versions.VersionHasOneText | scripts/release_control.py:20 | And every version text is that of its triple. |
| Versions.LessIff | scripts/release_control.py:330-341 | Versions are ordered as the numbers with their components as digits, in every base above them. |
| Versions.MinorTagText | scripts/release_control.py:347 | The `X.Y` tag of X.Y.Z is its first two numbers. |
| Versions.OtherTagsAreNotNumbered | scripts/release_control.py:347 | `X.Y` tags and `latest` are never numbered tags. |
| Promoting.Registry.PromoteServer | scripts/release_control.py:321-351 | A refused promotion writes nothing; any other writes a prefix of the three tags in order, up to the first write that fails or does not read back. |
| Promoting.DeclaredIff | scripts/release_control.py:338 | A label declares X.Y.Z if and only if it is X.Y.Z, possibly after a "v" and before a dash with more. |
| Promoting.StopsIff | scripts/release_control.py:337-342 | A label stops a promotion if and only if it declares no version or a higher one. |
| Promoting.NewerReleaseIff | scripts/release_control.py:328-332 | A release stops it if and only if it is published, stable and of a higher version. |
| Promoting.PromotesIff | scripts/release_control.py:321-348 | A candidate gets its number if and only if its image has both architectures, no release is higher, every label at `latest` declares a version that is not higher, and the number is free. |
| Promoting.PromotedExactly | scripts/release_control.py:347-350 | After it, exactly the tags it got to name the candidate, and all others what they did. |
| Promoting.PromotionAdvances | scripts/release_control.py:328-350 | One promotion from any registry, stopped anywhere, keeps all numbered tags and never moves `latest` to an older version. |
| Promoting.ReleasesNeverGoBackward | scripts/release_control.py:328-350 | The same between any two points of any sequence of promotions; whenever `latest` changes it gets strictly newer, if its image also had its own number at the start. |
| Promoting.LatestNumberNeverFalls | scripts/release_control.py:328-350 | Between any two points of any sequence of promotions, the version at `latest`, read as a number, never falls. |
| Promoting.WentBackIff | scripts/release_control.py:328-350 | A promotion moves a tag back if and only if it is the candidate's `X.Y` tag, the promotion is not refused, gets that far, and the image there declares a newer version. |
| Promoting.MinorTagsNeverGoBackward | scripts/release_control.py:328-350 | From a registry in which no `X.Y` tag is ahead of `latest`, and if no promotion that is not refused stops between its second and third write, no `X.Y` tag ever names an older version than before. |
| Promoting.MinorTagFollowsLastWriter | scripts/release_control.py:347-348 | One promotion that stops there, and a complete one after it, take the `X.Y` tag to any other version of that line, an older one included. |
| Promoting.OlderPatchSameMinor | scripts/release_control.py:347-348 | 1.2.5 and 1.2.4 are two such versions. |
| Channels.OwnsBetaIff | scripts/release_control.py:68-82 | A ref and commit are beta or candidate if and only if it is the head of the only release branch, or of main without one. |
| Channels.ChannelForIff | scripts/release_control.py:61-82 | Which of the four channels a branch and commit have, and when none, read off the branches. |
| Channels.OtherRefsHaveNone | scripts/release_control.py:75-77 | A ref that names no branch has none. |
| Channels.OneBetaOwner | scripts/release_control.py:68-82 | For every branch map at most one ref and commit own the public beta. |
| Channels.CurrentOwnsIff | scripts/release_control.py:136-150 | A mobile beta or candidate source passes `current` if and only if it is the head of the branch that owns the public beta: main for a beta, the only release branch for a candidate. |
| Channels.OneCurrentOwner | scripts/release_control.py:136-150 | At any instant at most one mobile source passes for the public beta. |
| Channels.PausedIff | scripts/release_control.py:143-150 | A source is paused rather than stopped if and only if it is a mobile beta on an unchanged main and a release branch exists. |
| Channels.PreviewPassesIff | scripts/release_control.py:95-141 | A preview passes if and only if its pull request is open and ready against main or a release branch, with the reviewed head and the tested merge commit. |
| Selecting.ArtifactJson | scripts/release_control.py:162-175 | Reads the newest retained artifact of an attempt up to the run's own. |
| Selecting.NewestIs | scripts/release_control.py:163-172 | An artifact is found if and only if one is retained, and none retained is newer. |
| Selecting.ContentIff | scripts/release_control.py:162-175 | The content read is that of a retained artifact of which none is newer. |
| Selecting.ServerReceiptIff | scripts/release_control.py:178-202 | A server receipt is valid if and only if it agrees with a successful branch build of the Docker workflow and names X.Y.Z of release/X.Y.Z with a well-formed digest. |
| Selecting.FindServer | scripts/release_control.py:178-282 | Returns the first deciding selection if and only if it is consistent and backed by a valid build receipt; then all components are on that commit of `release/X.Y.Z`, with the receipt's digest. |
| Scanning.InsideIff | scripts/check_test_automation.py:235-293 | A line counts as inside a runFlow or inputText block if and only if it and all lines since the last opening are deeper than that opening. |
| Scanning.ReferenceAtIff | scripts/check_test_automation.py:263-298 | References are exactly the arguments of runFlow and the file fields in its blocks. |
| Scanning.LineOkIff | scripts/check_test_automation.py:247-308 | A line is allowed if and only if it is an approved command or field, launchApp is bare, and the password is only inputText. |
| HelperChecking.Checker.ValidateHelperReference | scripts/check_test_automation.py:167-203 | Terminates on every file graph; success validates the helper and restores `visiting`, failure means the referring file is not good. |
| HelperChecking.Checker.ValidateMaestroCommands | scripts/check_test_automation.py:206-308 | The scanner tracks both blocks; success means local checks passed and all references are validated, failure a rule broken or a reachable bad file or cycle. |
| HelperChecking.Checker.ValidateCommand | scripts/check_test_automation.py:247-284 | A command line passes if it is allowed, uses the password only as inputText, and its runFlow argument is validated. |
| HelperChecking.Checker.ValidateField | scripts/check_test_automation.py:286-308 | Any other line passes if it is no list item, its file inside a runFlow block is validated, and it uses the password only as the text of an inputText block. |
| HelperChecking.Checker.ValidateFlow | scripts/check_test_automation.py:311-353 | Accepts if and only if the header is right, every file reachable through runFlow passes its local checks, and none is on a cycle. |
| HelperChecking.GoodIff | scripts/check_test_automation.py:167-308 | A file is good if and only if every walk from it along references visits sound files only and none twice. |
| HelperChecking.SuiteOkIff | scripts/check_test_automation.py:366-394 | A suite is right if and only if it has entries, each with an allowed user and a good flow, and no two share a slug, flow or name. |
| HelperChecking.Checker.ValidateSuite | scripts/check_test_automation.py:366-394 | Accepts a suite if and only if its entries are right, their flows good, no two share slug, flow name or flow, and none is in an earlier suite. |
| HelperChecking.Checker.ValidateSuites | scripts/check_test_automation.py:356-407 | One pass with one validated set accepts if and only if all suites are right, no flow is in two of them, and all flows and all helpers of the repository are good. |
| HelperChecking.OrderedIsGood | scripts/check_test_automation.py:192-203 | The shared validated set stays closed under references and acyclic, so everything in it is good. |

## Left out

- HTTP, SSE, JSON encoding of items, logging, prompts and the provider clients: only the order of bind, admit, resolve, run, put or delete, release is modelled.
- `acquireKey` and its ticker: a loop around `tryAcquireKey`, whose every round is the modelled operation.
- `runCodexConversation` and its flattened-prompt retry: it chooses between two provider calls and changes no transcript.
- SHA-256, random ids and wall time: a fingerprint stands for its key (no collisions), minted ids are fresh, clock readings are arbitrary.
- `confirmedModelUnavailable`, `safeModelLabel`, the event key and the notification sink: the verdict is an arbitrary boolean and the record keeps the two models and the outcome.
- Storing.ConversationStore.Put: works on transcripts as values; that cloning separates the store from its callers in memory is shown in `Cloning`.
- Cloning.SharedStore.Put: models the cloning of `Put` only, without sanitising, bindings and the choice of what to evict, which `Storing.ConversationStore.Put` has.
- Cloning.SharedStore.Get: models the cloning of `Get` only, without its checks, which `Storing.ConversationStore.Get` has.
- Storing.ConversationStore.OldestId: with an empty conversation id the oldest entry is not promised; such ids are never minted.
- Promoting.Registry.PromoteServer: concurrent promotions and the ways in which registry and GitHub access fail are not modelled; a run stops at any point between its steps.
- Selecting.FindServer: the build number of a mobile receipt is read with ASCII digits only, and an artifact name is its stem and a number.
- HelperChecking.Checker.ValidateMaestroCommands: what the regular expressions make of a line, the verdict on the text as a whole and path resolution are given with the file.
- HelperChecking.Checker.ValidateSuites: the JSON shape of the suites file and the header lines of a flow are given as verdicts.
- Identifiers of users are unbounded integers.
- `prepare` and `wait_ci`: polling and branching over GitHub responses.

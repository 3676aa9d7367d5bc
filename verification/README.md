# BetterChatGPT-PLUS core, modelled in Dafny

This project models the state logic of a browser chat client for
OpenAI-compatible and Gemini chat models. It covers seven parts.

- **The generation flow of the submit hook.** Covers how a request starts,
  the streaming `<think>…</think>` parser and the reasoning block of the
  assistant message. That block has a live timer and a completion latch.
  The end-of-stream flush and the non-streaming path are covered too.
- **The persisted-state migrations.** Covers versions 0 to 10 and the
  fall-through `switch` that chains them.
- **The provider adapters.**
  - Gemini: transcript conversion, the thinking configuration and the
    separation of thought parts in replies and stream chunks.
  - OpenAI-compatible: the o-series `reasoning_effort` mapping,
    configuration stripping and the one-entry client cache.
- **Storage.** Covers the IndexedDB key layout, `getItem`/`setItem`/`removeItem`
  of the persisted state, and the per-chat messages store with its
  hydrate and sync operations.
- **The store.** Covers the chat and authentication slices and what the store
  persists.
- **Message views.** Covers message moves, deletion and regeneration, and the
  reasoning-block toggle.
- **Token accounting, the new-folder button and the first-run API key
  dialog.**

Every operation is a pure function over immutable values. Two of the
source's loops are Dafny methods with loop invariants: the parser's scanning
loop (`ThinkParser.ProcessThinkChunkLoop`, beside its functional form) and
the new-folder name search (`NewFolder.PickName`). The other loops are
recursive functions: the stream reader loop in `useSubmit`, the `for…of`
loops in the Gemini conversion and streaming code, the chat and message
loops of the migrations, and the settings and chats fill of version 10.
Values that come from outside are parameters of the operations that use
them:
- clock readings;
- `uuidv4` results, as a function from a counter to a string;
- the tokenizer, as `string -> seq<int>`;
- the build-time API key;
- translated warning texts.

Storage is a map from key to entry. JSON values in the migrations use a
small `Json` datatype, and assigning `undefined` to a property removes it.

Each operation is paired with something to check it against:
- **Parser:** an independent, character-by-character reading of the whole
  stream (`ThinkParser.Whole`). The parser is proved to agree with it for
  every chunking of the input.
- **Storage:** round trips, i.e. write then read.
- **Migrations and settings:** idempotence.
- **Moves:** inverses.
- **Streaming:** invariants the stream updates preserve. One is the
  message's shape: answer text first, then at most one reasoning item.
  The other is the agreement between the reasoning timer and the
  reasoning item.
- **Streaming against the store:** every update re-reads the chats from the
  store, changes the latest message and commits. With no edit between
  reads this is the content-level loop (`Submit.StoreRunIsRunStream`). A
  reasoning-block toggle made between reads survives the next update
  (`Submit.ToggleBetweenReads`).

Some observations about the source are recorded in the contracts:
- A persisted field named `__meta` is overwritten by the meta record, which
  shares its key (`IndexedDbStorage.MetaFieldCollides`).
- The persisted state carries `apiEndpoint` but none of the provider, base
  URL or Gemini settings (`Store.PartializeOmitsProviderSettings`).
- The image-token counter counts the text of the prompts that carry an
  image. A prompt with both text and an image is counted in both counters
  (`MessageUtils.ImagePromptsCountTheirText`).
- An answer text appended while an image is the first item lands in a
  `text` property the image did not have, starting with "undefined"
  (`ReasoningBlocks.AppendAnswer`). That property is persisted and sent
  with later OpenAI requests.
- If the id of a new folder were already taken, the shifted old folder would
  win, because the spread comes last (`NewFolder.Insert`).

The model follows the code where the code and the system's design
description differ. The description says that a non-streamed reply's
native reasoning field becomes the reasoning block as it is, with no tag
parsing. The non-streaming path (`src/hooks/useSubmit.ts:170-213`) reads
only the message content. It runs the `<think>` parser over that content
and ignores any native reasoning field. `Submit.ApplyCompletion` models this.

## Model

| member | source | states |
|---|---|---|
| ThinkParser.Iterate | src/hooks/useSubmit.ts:50-81 | one pass of the loop either splits the buffer around the mode's marker (fragment + marker + rest) or into an emitted part and a held-back tail of length min(buffer, marker length - 1) |
| ThinkParser.IterateFirstMarker | src/hooks/useSubmit.ts:52-68 | the emitted fragment never contains the mode's marker: a found marker is the first occurrence, and a held buffer contains none |
| ThinkParser.Scan | src/hooks/useSubmit.ts:50-84 | after the loop the carry is a suffix of the buffer and shorter than the current mode's marker; an empty buffer emits nothing and changes no mode |
| ThinkParser.ProcessThinkChunk | src/hooks/useSubmit.ts:43-85 | the carry left for the next chunk is a suffix of carry + chunk, is shorter than the marker and cannot contain it; an empty buffer emits nothing |
| ThinkParser.FlushThinkState | src/hooks/useSubmit.ts:86-99 | the flush releases exactly the carry, on the channel of the current mode only, keeps the mode and clears the carry |
| ThinkParser.ProcessThinkChunkLoop | src/hooks/useSubmit.ts:43-85 | the imperative loop computes the same output and state as the functional parser, and conserves characters: every buffer character is emitted, held back, or part of a consumed marker; the consumed markers alternate, starting with the one that leaves the starting mode |
| ThinkParser.ScanSound | src/hooks/useSubmit.ts:50-84 | scanning a buffer emits a prefix of the character-by-character reading of the whole stream; the rest of the reading restarts from the scan's mode with the carry in front |
| ThinkParser.FlushSound | src/hooks/useSubmit.ts:86-99 | the flush of a short carry is the reference reading of that carry |
| ThinkParser.FeedSound | src/hooks/useSubmit.ts:336-358 | feeding a list of chunks and flushing is the reference reading of the carry followed by the concatenated chunks |
| ThinkParser.ParseAllIsWhole | src/hooks/useSubmit.ts:336-358 | a generation's parse from the initial state, flush included, is the reference reading of the concatenated input |
| ThinkParser.ChunkInvariance | src/hooks/useSubmit.ts:336-358 | two chunkings of the same text give the same answer and the same reasoning: a marker split across chunks is never missed |
| ThinkParser.ChunkingMatchesSingleCall | src/hooks/useSubmit.ts:185-192 | the streamed parse of any chunking equals the single-call parse the non-streaming path performs |
| ThinkParser.SingleCallIsWhole | src/hooks/useSubmit.ts:185-192 | one call on a whole answer followed by a flush is the reference reading of that answer |
| ThinkParser.WholeOneSpan | src/hooks/useSubmit.ts:43-99 | a single `<think>` span between plain texts is lifted out whole: answer = before + after, reasoning = inside |
| ThinkParser.WorkedExample | src/hooks/useSubmit.ts:43-99 | a reasoning span whose opening and closing markers are each cut in two across four chunks (as in "Hello <thi", "nk>sec", "ret</thi", "nk> world") parses to the surrounding text as answer and the inner text as reasoning |
| ReasoningBlocks.StripReasoningFromContent | src/hooks/useSubmit.ts:32-33 | the result holds no reasoning item and exactly the non-reasoning items of the input; content without reasoning is unchanged |
| ReasoningBlocks.StripConcat | src/hooks/useSubmit.ts:32-33 | stripping distributes over concatenation, so the kept items keep their relative order |
| ReasoningBlocks.StripReasoningFromMessages | src/hooks/useSubmit.ts:34-42 | every message keeps its role and position, and its content is its non-reasoning items |
| ReasoningBlocks.StripMessagesIdempotent | src/hooks/useSubmit.ts:34-42 | stripping a stripped transcript changes nothing |
| ReasoningBlocks.InsertReasoning | src/hooks/useSubmit.ts:252-260 | the entry lands right after the first item (or alone in empty content) and removing it gives back the original content |
| ReasoningBlocks.StripInsert | src/hooks/useSubmit.ts:252-260 | inserting a reasoning item and then stripping gives the transcript as it was sent |
| ReasoningBlocks.AddReasoningText | src/hooks/useSubmit.ts:241-267 | empty text changes nothing; otherwise the first reasoning item gets the text appended with all other items unchanged, or a fresh item holding the text is inserted at the slot after the answer |
| ReasoningBlocks.DurationSeconds | src/hooks/useSubmit.ts:272-275 | the duration is the elapsed milliseconds rounded up to whole seconds, and at least one second |
| ReasoningBlocks.DurationMonotone | src/hooks/useSubmit.ts:272-275 | a later clock reading never shows a shorter duration |
| ReasoningBlocks.TickReasoning | src/hooks/useSubmit.ts:268-278 | the live update sets only the first reasoning item's duration and marks it not completed; without reasoning nothing changes |
| ReasoningBlocks.CompleteReasoning | src/hooks/useSubmit.ts:279-297 | completion collapses the first reasoning item and records it as completed with its final duration; nothing else changes |
| ReasoningBlocks.AppendAnswer | src/hooks/useSubmit.ts:298-302 | appending fails exactly on empty content and leaves every item after the first alone; the text goes into the first item's text (a reasoning item in front receives it), and an image in front, which has no text property, gains one holding "undefined" followed by the text while its url and detail stay |
| ReasoningBlocks.AppendAnswerImageTwice | src/hooks/useSubmit.ts:298-302 | two appends onto an image in front leave "undefined" once, followed by both texts |
| ReasoningBlocks.ApplyStreamResult | src/hooks/useSubmit.ts:231-304 | an update throws exactly when content is empty, no reasoning arrived and answer text did; the latch is set once answer text arrives after reasoning has started, and an item is added only for new reasoning |
| ReasoningBlocks.AddReasoningWellFormed | src/hooks/useSubmit.ts:241-267 | on a well-formed message the reasoning text grows by exactly the new text, the answer is unchanged and the shape is kept |
| ReasoningBlocks.TickWellFormed | src/hooks/useSubmit.ts:268-278 | the live update keeps the shape, the answer and the reasoning text |
| ReasoningBlocks.CompleteWellFormed | src/hooks/useSubmit.ts:279-297 | completion keeps the shape, the answer and the reasoning text |
| ReasoningBlocks.AppendWellFormed | src/hooks/useSubmit.ts:298-302 | on a well-formed message appending never fails and grows only the answer text |
| ReasoningBlocks.ApplyWellFormed | src/hooks/useSubmit.ts:231-304 | on a well-formed message an update never throws, keeps the shape, and appends exactly the batch's answer text and reasoning text |
| ReasoningBlocks.LatchHolds | src/hooks/useSubmit.ts:279-297 | once latched, updates touch only the reasoning text: the duration, completion and collapse state stay |
| ReasoningBlocks.AnswerCompletesReasoning | src/hooks/useSubmit.ts:279-297 | the first answer text after reasoning started collapses the block, marks it completed with the elapsed duration, and sets the latch |
| ReasoningBlocks.ApplyKeepsAgreement | src/hooks/useSubmit.ts:231-304 | an update keeps the timer in agreement with the reasoning item: started exactly when it exists, and finished once latched |
| ReasoningBlocks.FinishTimer | src/hooks/useSubmit.ts:376-395 | closing a running timer at the end of the stream leaves any reasoning item finished, without changing answer or reasoning text |
| Submit.FoldEvent | src/hooks/useSubmit.ts:319-351 | one event only extends the batch's answer and reasoning; the content flag never resets; the timer starts at the first reasoning text and never moves |
| Submit.FoldEvents | src/hooks/useSubmit.ts:315-353 | the reduce over a read has the same monotone effect as each event, and starts the timer exactly when reasoning grew |
| Submit.FoldFeedsParser | src/hooks/useSubmit.ts:315-353 | a read's fold feeds exactly its non-empty answer texts, in order, to the parser; its answer text is what the parser emits, and without native reasoning so is its reasoning text |
| Submit.StepBatch | src/hooks/useSubmit.ts:315-355 | a loop pass starts the timer exactly when reasoning exists afterwards and never clears the latch |
| Submit.StepKeepsShape | src/hooks/useSubmit.ts:315-355 | a loop pass on a well-formed message never throws, keeps the shape and grows the answer by what the parser emits for the read |
| Submit.StepKeepsAgreement | src/hooks/useSubmit.ts:315-355 | a loop pass keeps the timer in agreement with the reasoning item |
| Submit.RunKeepsShape | src/hooks/useSubmit.ts:305-357 | the whole loop keeps the shape; the answer grows by the parser's output for all consumed answer texts, and without native reasoning so does the reasoning |
| Submit.RunKeepsAgreement | src/hooks/useSubmit.ts:305-357 | the whole loop never throws and keeps the timer in agreement with the reasoning item |
| Submit.FeedAppend | src/hooks/useSubmit.ts:305-357 | feeding two chunk lists one after the other is feeding their concatenation |
| Submit.FinishKeepsShape | src/hooks/useSubmit.ts:358-395 | the end-of-stream flush appends the released carry to the right channel and leaves any reasoning item finished |
| Submit.StreamGenerationCorrect | src/hooks/useSubmit.ts:215-396 | end to end, a streamed generation into the empty assistant message never throws; its answer is the reference reading's answer of all answer texts, its reasoning that reading's reasoning when no native reasoning arrived, and its reasoning block ends finished |
| Submit.StreamGenerationFromEmpty | src/hooks/useSubmit.ts:215-396 | the end-to-end result holds for any well-formed message with empty answer text and no reasoning item |
| Submit.LatestContent | src/hooks/useSubmit.ts:236-240 | reading the latest message fails exactly when the chat index is out of range or the chat has no messages |
| Submit.SetLatestContent | src/hooks/useSubmit.ts:236-303 | committing new content changes only the latest message's content of the selected chat; every other chat and message, and the role, stay |
| ReasoningBlocks.UpdateAfterCollapse | src/hooks/useSubmit.ts:231-304 | an update applied after the reader opened or collapsed the reasoning block is the same update with the reader's choice kept, unless this update completes the block and collapses it; the timer is the same either way |
| Submit.StoreUpdate | src/hooks/useSubmit.ts:231-304 | an update re-reads the store: it fails exactly when there is no latest message or the update throws on its content, and otherwise the latest message holds the updated content and nothing else in the store changes |
| Submit.StoreStepBatch | src/hooks/useSubmit.ts:305-355 | a pass against the store fails when there is no latest message, and otherwise changes only the latest message's content |
| Submit.StoreStepIsStepBatch | src/hooks/useSubmit.ts:231-355 | with no edit between reads, a pass against the store leaves in the latest message what the content-level pass computes, with the same parser state and timer |
| Submit.StoreRunIsRunStream | src/hooks/useSubmit.ts:305-357 | with no edit between reads, the loop against the store is the content-level loop on the latest message and changes nothing else |
| Submit.StoreFlushIsFlushCarry | src/hooks/useSubmit.ts:358-369 | the end-of-stream flush against the store is the content-level flush on the latest message |
| Submit.StoreCloseIsCloseTimer | src/hooks/useSubmit.ts:376-395 | the timer close re-reads the store and never throws on an existing latest message; it leaves there what the content-level close computes, committing only when a reasoning item exists |
| Submit.StoreFinishIsFinishStream | src/hooks/useSubmit.ts:358-395 | the finish against the store is the content-level finish on the latest message |
| Submit.StoreGenerationIsStreamGeneration | src/hooks/useSubmit.ts:215-396 | with no edit between reads, a streamed generation against the store changes only the latest message, leaving there what `StreamGeneration` computes |
| Submit.StoreGenerationCorrect | src/hooks/useSubmit.ts:215-396 | streaming into the empty placeholder against the store never throws, changes only that message, and leaves the reference reading of the answer texts in it |
| Submit.ToggleBetweenReads | src/hooks/useSubmit.ts:236-240 | a reasoning-block toggle made in the message view between two reads survives the next pass, which re-reads the store, unless that pass completes the block; parser state and timer are unaffected |
| Submit.SetLatestTwice | src/hooks/useSubmit.ts:236-303 | a second commit to the latest message overrides the first |
| Submit.HandleToggleIsSetLatest | src/components/Chat/ChatContent/Message/View/ContentView.tsx:128-144 | toggling the latest message's reasoning block commits new content for that message only |
| Submit.ApplyCompletion | src/hooks/useSubmit.ts:170-213 | a missing or empty non-streamed answer is an error |
| Submit.CompletionMatchesWhole | src/hooks/useSubmit.ts:180-213 | the non-streaming path adds the reference reading of the answer, answer part to the answer and reasoning part to a new reasoning item, which exists exactly when that reasoning is non-empty |
| Submit.BeginSubmit | src/hooks/useSubmit.ts:125-161 | a started submit appends the empty assistant message to the selected chat only; the request is the chat's previous messages with their reasoning items removed, each keeping its role and position; an empty chat is rejected |
| Submit.RequestIgnoresReasoning | src/hooks/useSubmit.ts:156-158 | reasoning recorded in any message of the chat is never sent: inserting a reasoning item into one of its messages leaves the request unchanged |
| Submit.EmptyAssistantWellFormed | src/hooks/useSubmit.ts:131-139 | the placeholder message is well formed, with no answer text and no reasoning |
| ChatTypes.FirstText | src/components/Chat/ChatContent/Message/View/ContentView.tsx:145-146 | the text of the first text item, and "" when there is none |
| ChatTypes.FirstReasoning | src/hooks/useSubmit.ts:242-244 | the index of the first reasoning item, when one exists |
| Migrate.AssignIds | src/store/migrate.ts:32-41 | every chat keeps everything but possibly its id |
| Migrate.AssignIdsKeeps | src/store/migrate.ts:36-38 | a chat keeps its id exactly when the id is non-empty and unseen so far |
| Migrate.EnsureChatIds | src/store/migrate.ts:32-41 | a missing or empty chat list is left alone; otherwise the chats change at most in their ids |
| Migrate.AssignIdsDistinct | src/store/migrate.ts:34-37 | with fresh generated ids, the assigned ids are pairwise distinct |
| Migrate.EnsureChatIdsDistinct | src/store/migrate.ts:32-41 | after the id repair every chat's id is distinct from every other's |
| Migrate.AssignIdsIdentity | src/store/migrate.ts:36-38 | chats whose ids are already non-empty and distinct are left exactly as they are |
| Migrate.EnsureChatIdsIdempotent | src/store/migrate.ts:32-41 | repairing ids twice is repairing them once |
| Migrate.StepChat | src/store/migrate.ts:43-150 | each per-chat loop body sets exactly the fields its migration names (title flag and default config, overridden config, upgraded messages, default image detail) and keeps every other field |
| Migrate.EachChat | src/store/migrate.ts:43-88 | the loop over chats succeeds exactly when every chat is an object its body accepts, and then maps each chat through the body |
| Migrate.ForEachChat | src/store/migrate.ts:43-88 | the chat loop throws unless `chats` is an array of acceptable objects; it changes the chats only, one by one |
| Migrate.SetTop | src/store/migrate.ts:50-56 | assigning a state property succeeds exactly on an object and changes only that property |
| Migrate.MigrateV1 | src/store/migrate.ts:50-56 | the endpoint becomes the free endpoint when `apiFree` is truthy and "" otherwise; nothing else changes |
| Migrate.MigrateV1Idempotent | src/store/migrate.ts:50-56 | version 1 applied to its own output changes nothing more |
| Migrate.MigrateV6 | src/store/migrate.ts:90-99 | the retired endpoint is replaced and never survives; a falsy or zero-length key becomes "", so afterwards the key is truthy or ""; nothing else changes |
| Migrate.MigrateV6Idempotent | src/store/migrate.ts:90-99 | version 6 applied to its own output changes nothing more |
| Migrate.BuildFolders | src/store/migrate.ts:106-117 | the folder loop only adds folders and name entries, and gives every name it meets the id generated at its index |
| Migrate.V7Folders | src/store/migrate.ts:105-118 | the folder loop succeeds only on a state whose `foldersName` is an array |
| Migrate.MigrateV7 | src/store/migrate.ts:101-125 | version 7 stores the folders its loop built, and maps every chat to its refoldered self with the fresh id generated after the folders' ids |
| Migrate.RenumberChats | src/store/migrate.ts:120-124 | the second loop changes only `chats`, keeping each chat apart from its folder and id |
| Migrate.MigrateV7Folders | src/store/migrate.ts:101-118 | with distinct fresh ids there is one folder per name index holding that name, expanded flag and order |
| Migrate.MigrateV7Chats | src/store/migrate.ts:120-124 | every chat moves from its folder name to the id of the last folder with that name, and chat j gets the id generated after the folders |
| Migrate.BuildFoldersKeys | src/store/migrate.ts:106-117 | the loop adds exactly one folder per name index |
| Migrate.BuildFoldersEntries | src/store/migrate.ts:106-117 | with distinct new ids, folder uuid(j) holds the j-th name, its expanded flag and order j |
| Migrate.BuildFoldersKeepsFolders | src/store/migrate.ts:106-117 | the loop never replaces a folder it already holds |
| Migrate.BuildFoldersKeepsNames | src/store/migrate.ts:116 | a name the loop does not meet keeps its id |
| Migrate.BuildFoldersNameKeys | src/store/migrate.ts:116 | the loop gives an id to exactly the names it meets, besides those it had |
| Migrate.BuildFoldersLastId | src/store/migrate.ts:116 | a repeated folder name maps to the id of its last folder |
| Migrate.ExpandedAtUniform | src/store/migrate.ts:111 | reading `foldersExpanded[i]` fails for one index exactly when it fails for all |
| Migrate.RefolderChatSpec | src/store/migrate.ts:121-122 | a chat with a truthy folder name gets that name's id (or loses the folder when the name is unknown); other chats keep their folder |
| Migrate.RenumberedChat | src/store/migrate.ts:121-124 | one chat after the second loop: refoldered, with the new id, and otherwise unchanged |
| Migrate.ChatsRenumbered | src/store/migrate.ts:120-124 | every chat of the list is renumbered and refoldered in place |
| Migrate.UpgradeMessage | src/store/migrate.ts:130-136 | string content becomes a single text item; any other non-null message is kept; a null message throws |
| Migrate.EachMessage | src/store/migrate.ts:130-137 | the message loop throws exactly on a null message and otherwise upgrades each message in place |
| Migrate.UpgradeMessageIdempotent | src/store/migrate.ts:130-136 | upgrading an upgraded message changes nothing |
| Migrate.StepChatIdempotent | src/store/migrate.ts:43-150 | every per-chat loop body applied to its own output changes nothing more |
| Migrate.ForEachChatIdempotent | src/store/migrate.ts:43-88 | the chat-loop migrations (versions 0, 2, 4, 5, 8 and 8.2) applied to their own output change nothing more |
| Migrate.ForEachChatSettles | src/store/migrate.ts:43-88 | after a chat loop every chat is a fixed point of the loop body |
| Migrate.ForEachChatFixed | src/store/migrate.ts:43-88 | a loop whose body leaves every chat alone leaves the state alone |
| Migrate.MigrateV8_1 | src/store/migrate.ts:127-139 | version 8 succeeds exactly when the message loop does; it upgrades every chat's messages and sets the API version only when there is a chat |
| Migrate.MigrateV9 | src/store/migrate.ts:152-157 | version 9 moves `apiEndpoint` to `apiBaseUrl`, removing the old key; a state without it is unchanged; a non-object throws |
| Migrate.MigrateV9Idempotent | src/store/migrate.ts:152-157 | version 9 applied to its own output changes nothing more |
| Migrate.FillThinkingLevel | src/store/migrate.ts:175-182 | a configuration object without a truthy thinking level gets "high"; others are kept; a truthy non-object throws |
| Migrate.FillThinkingLevelIdempotent | src/store/migrate.ts:175-182 | filling the thinking level twice is filling it once |
| Migrate.FillChat | src/store/migrate.ts:173-179 | a chat object gets its configuration filled and keeps the rest; a null chat throws |
| Migrate.FillChats | src/store/migrate.ts:173-179 | the version-10 chat loop succeeds exactly when every chat does, and fills each in place |
| Migrate.FillChatsIdempotent | src/store/migrate.ts:173-179 | filling the chats twice is filling them once |
| Migrate.FillSettings | src/store/migrate.ts:160-171 | a falsy provider becomes "openai"; missing Gemini settings get their defaults; present ones and all other fields are kept |
| Migrate.FillSettingsFixed | src/store/migrate.ts:160-171 | settings that are already filled stay as they are |
| Migrate.FillChatsField | src/store/migrate.ts:172-179 | the chat list is filled when it is an array and kept otherwise; every other field is kept |
| Migrate.FillChatsFieldFixed | src/store/migrate.ts:172-179 | a settled chat list is left as it is |
| Migrate.MigrateV10 | src/store/migrate.ts:159-183 | version 10 fills the settings, the chats and the default configuration, and touches nothing else |
| Migrate.MigrateV10Idempotent | src/store/migrate.ts:159-183 | version 10 applied to its own output changes nothing more |
| Migrate.LadderIndex | src/store/migrate.ts:185-214 | a version has a case exactly when it is on the ladder, and the case is its position |
| Migrate.LadderIncreasing | src/store/migrate.ts:185-214 | the switch lists its versions in strictly increasing order |
| Migrate.LadderIndexOf | src/store/migrate.ts:185-214 | each listed version enters the switch at its own case |
| Migrate.ApplyMigrations | src/store/migrate.ts:185-216 | a version without a case returns the state unchanged |
| Migrate.ApplyMigrationsFallThrough | src/store/migrate.ts:186-212 | entering at a version's case runs that migration and then falls through every later one, in order |
| Migrate.ApplyMigrationsLast | src/store/migrate.ts:211-213 | the last case runs version 10 alone |
| Gemini.MatchDataUrl | src/api/gemini.ts:42-51 | a match yields media type and data such that the URL is `data:<mime>;base64,<data>` on one line, with the shortest possible media type; no match means no such split exists |
| Gemini.FirstSplit | src/api/gemini.ts:42-51 | the lazy group closes at the first position where the rest of the match can succeed |
| Gemini.ItemParts | src/api/gemini.ts:36-58 | text becomes a text part, reasoning nothing, a non-data URL a text placeholder, and a data URL inline data exactly when it matches |
| Gemini.MessagePartsConcat | src/api/gemini.ts:35-58 | parts are produced item by item, so the parts of a concatenation are the concatenated parts |
| Gemini.TextOnlyParts | src/api/gemini.ts:36-38 | a text-only message becomes one text part per item, in order |
| Gemini.ConvertStep | src/api/gemini.ts:22-66 | a system message only extends the instruction; any other message adds one entry with its mapped role when it has parts, and nothing otherwise |
| Gemini.ConvertMessages | src/api/gemini.ts:17-69 | every converted entry has parts and the role "user" or "model", and there are at most as many entries as messages |
| Gemini.ContentsConcat | src/api/gemini.ts:22-66 | the contents of a transcript are those of its messages, in order |
| Gemini.SingleMessageContents | src/api/gemini.ts:60-65 | a single message contributes nothing when it is a system message or has no parts, else one entry |
| Gemini.DropLeadingEmpty | src/api/gemini.ts:29-31 | leading empty system texts are dropped, since an empty instruction is falsy and gets replaced |
| Gemini.SystemInstructionJoins | src/api/gemini.ts:22-33 | the system instruction is the system texts joined with newlines, leading empty ones dropped, and absent without system messages |
| Gemini.MapThinkingConfig | src/api/gemini.ts:95-119 | thoughts are always included; 2.x models get a budget and later ones a level |
| Gemini.ThinkingConfigLevels | src/api/gemini.ts:95-119 | budgets 0, 1024, 8192 and dynamic (-1) for minimal to high; later models keep the level; a missing level means high |
| Gemini.SeparatePartsTexts | src/api/gemini.ts:153-161 | reply content is the concatenation of the non-thought parts' texts, reasoning that of the thought parts' texts |
| Gemini.SeparateConcat | src/api/gemini.ts:153-161 | separating a list of parts is separating its pieces and joining the results |
| Gemini.NonStreamMessage | src/api/gemini.ts:150-178 | the reply's content comes from its parts (or the response text without parts); reasoning is present only when non-empty |
| Gemini.NonEmpty | src/api/gemini.ts:231-232 | an empty string becomes null and any other string is kept |
| Gemini.ChunkDelta | src/api/gemini.ts:212-253 | a chunk yields a delta exactly when it adds some text; the delta's fields are the separated texts, empty ones as null |
| Gemini.ToOpenAIChunks | src/api/gemini.ts:211-255 | at most one delta per chunk |
| Gemini.StreamMatchesNonStream | src/api/gemini.ts:211-255 | the streamed deltas add up to what the non-streamed reply separates from the same parts |
| OpenAI.OSeriesCaseInsensitive | src/api/openai.ts:14-16 | the o-series test on the lowered name agrees with a reading of the name as written in which `o` and `O` are interchangeable |
| OpenAI.OSeriesOfLowered | src/api/openai.ts:14-16 | lowering the name first changes nothing |
| OpenAI.ReasoningEffort | src/api/openai.ts:13-26 | only o-series models get an effort; it is the thinking level, high when unset, with minimal raised to low |
| OpenAI.EffortFollowsLevel | src/api/openai.ts:19-25 | the effort is monotone in the level and equals it wherever OpenAI has that level |
| OpenAI.StripConfig | src/api/openai.ts:31-38 | the wire configuration keeps model, token limit, temperature and top_p, and carries each penalty exactly when it is non-zero |
| OpenAI.StripConfigRoundTrip | src/api/openai.ts:31-38 | stripping loses only the thinking level: a missing penalty read as zero recovers the configuration |
| OpenAI.StripConfigCanonical | src/api/openai.ts:31-38 | a wire configuration without zero penalties strips back to itself |
| OpenAI.BuildRequest | src/api/openai.ts:75-80 | the request carries the messages and stream flag unchanged, an effort exactly for o-series models, and a configuration that recovers the original |
| OpenAI.CacheKey | src/api/openai.ts:46-47 | a missing API key is "", and the base URL is trimmed |
| OpenAI.GetOrCreateClient | src/api/openai.ts:45-59 | the cached client is returned exactly when it was made for the same normalised pair; otherwise a new client for that pair replaces it |
| OpenAI.GetOrCreateKeepsCoherent | src/api/openai.ts:45-59 | the cached client always matches the key and URL the cache records |
| OpenAI.SecondCallReuses | src/api/openai.ts:48-50 | a second call with the same arguments returns the first call's client and leaves the cache as it was |
| OpenAI.CacheKeyNormalises | src/api/openai.ts:46-48 | a missing and an empty key, and a URL with or without surrounding whitespace, select the same client |
| IndexedDbStorage.MessageKey | src/store/storage/IndexedDbStorage.ts:19 | a chat's messages key is the prefix followed by the chat id |
| IndexedDbStorage.PersistKey | src/store/storage/IndexedDbStorage.ts:21 | a field's key is the state name, a colon and the field name |
| IndexedDbStorage.MetaKey | src/store/storage/IndexedDbStorage.ts:20 | the meta key is the field key `__meta` of the state |
| IndexedDbStorage.MessageKeyInjective | src/store/storage/IndexedDbStorage.ts:19 | different chats' messages live under different keys |
| IndexedDbStorage.PersistKeyInjective | src/store/storage/IndexedDbStorage.ts:21 | within one state, different fields live under different keys |
| IndexedDbStorage.NamespacesDisjoint | src/store/storage/IndexedDbStorage.ts:20-21 | two states with colon-free names never share a key |
| IndexedDbStorage.GetItem | src/store/storage/IndexedDbStorage.ts:91-107 | no meta record reads as null; a meta record reads as its version and exactly the listed fields' stored values; a truthy non-meta value at the meta key throws |
| IndexedDbStorage.WriteFields | src/store/storage/IndexedDbStorage.ts:118-120 | each listed field is stored under its key, and no other key changes |
| IndexedDbStorage.SetItem | src/store/storage/IndexedDbStorage.ts:108-122 | the meta record and every field are written, stale fields are removed, and every other key keeps its entry: those outside the state's namespace, and fields of the namespace that neither the previous meta record nor the new state lists |
| IndexedDbStorage.SetItemGetItem | src/store/storage/IndexedDbStorage.ts:91-122 | writing a state and reading it back gives the same version and fields, when no field is named `__meta` |
| IndexedDbStorage.MetaFieldCollides | src/store/storage/IndexedDbStorage.ts:110-121 | a field named `__meta` reads back as the meta record instead of its own value |
| IndexedDbStorage.SetItemIsolated | src/store/storage/IndexedDbStorage.ts:108-122 | writing one state leaves another colon-free state reading as before |
| IndexedDbStorage.RemoveItem | src/store/storage/IndexedDbStorage.ts:123-133 | the meta record and every listed field are deleted and nothing outside the namespace is |
| IndexedDbStorage.RemoveItemGetItem | src/store/storage/IndexedDbStorage.ts:91-133 | after removal the state reads as null |
| IndexedDbStorage.PersistChatMessages | src/store/storage/IndexedDbStorage.ts:168-175 | exactly the chats' keys are added or overwritten and every other entry stays |
| IndexedDbStorage.PersistChatMessagesLast | src/store/storage/IndexedDbStorage.ts:170-174 | of several chats with one id, the last one's messages stay |
| IndexedDbStorage.DeleteChatMessages | src/store/storage/IndexedDbStorage.ts:177-180 | the listed chats' keys are gone and every other entry stays |
| IndexedDbStorage.Hydrated | src/store/storage/IndexedDbStorage.ts:188-191 | a chat gets the stored messages for its id, or keeps its own when none are stored |
| IndexedDbStorage.HydrateChats | src/store/storage/IndexedDbStorage.ts:182-192 | hydration keeps the chat list's length and order and hydrates each chat |
| IndexedDbStorage.PersistThenHydrate | src/store/storage/IndexedDbStorage.ts:168-192 | with distinct ids, chats written and hydrated again read back exactly as they were |
| IndexedDbStorage.DeleteThenHydrate | src/store/storage/IndexedDbStorage.ts:177-192 | a chat whose messages were deleted reads back with its own |
| IndexedDbStorage.MissingChats | src/store/storage/IndexedDbStorage.ts:200-205 | the selected chats are exactly those with nothing stored and messages of their own |
| IndexedDbStorage.MissingChatsDistinct | src/store/storage/IndexedDbStorage.ts:200-205 | selecting the missing chats keeps ids distinct |
| IndexedDbStorage.SyncChats | src/store/storage/IndexedDbStorage.ts:194-217 | the sync returns the hydrated chats and writes only the missing chats' keys, leaving every stored entry |
| IndexedDbStorage.SyncWritesMissing | src/store/storage/IndexedDbStorage.ts:212-214 | with distinct ids, a chat written back by a sync is stored with its own messages |
| IndexedDbStorage.SyncKeepsOthers | src/store/storage/IndexedDbStorage.ts:194-217 | with distinct ids, a chat the sync does not write back is stored after it exactly when it was before |
| IndexedDbStorage.SyncThenHydrate | src/store/storage/IndexedDbStorage.ts:194-217 | after a sync, hydrating the chats again gives what the sync returned |
| ChatSlice.InitialChatSliceIsEmpty | src/store/chat-slice.ts:26-30 | the initial slice has no chats, no selection, no generation, no error, messages or folders |
| ChatSlice.FirstOccurrences | src/store/chat-slice.ts:40 | the set of ids lists each id once and exactly the ids given |
| ChatSlice.Without | src/store/chat-slice.ts:42-44 | the filter keeps exactly the ids not dropped, and keeps distinctness |
| ChatSlice.RemovedIds | src/store/chat-slice.ts:39-44 | the removed ids are exactly the previous chats' ids that no next chat carries, each once |
| ChatSlice.SetChats | src/store/chat-slice.ts:37-59 | only the chats change; deletion is requested exactly when some chat went away, for the removed ids; every given chat is persisted |
| ChatSlice.SetChatsRequestsCommute | src/store/chat-slice.ts:50-53 | the delete and persist requests of one call commute, so their order of arrival does not matter |
| ChatSlice.SetChatsStorage | src/store/chat-slice.ts:37-59 | after both requests, removed chats' messages are gone and, with distinct ids, every chat reads back as given |
| ChatSlice.Apply | src/store/chat-slice.ts:31-83 | each setter replaces its own field and keeps every other field, chats included |
| ChatSlice.ApplyIndependent | src/store/chat-slice.ts:31-83 | setters of different fields commute, and of two setters of one field the later wins |
| AuthSlice.InitialAuth | src/store/auth-slice.ts:25-32 | the initial slice takes the build-time key when non-empty, the default base URL, the OpenAI provider, empty Gemini credentials in us-central1, a first visit and no configured key |
| AuthSlice.Apply | src/store/auth-slice.ts:33-82 | each setter replaces its own field; the key setters also mark a key as configured when the new key is non-empty |
| AuthSlice.ConfiguredStays | src/store/auth-slice.ts:33-82 | once configured, the flag stays set through any setters but a reset |
| AuthSlice.KeyConfiguresUntilReset | src/store/auth-slice.ts:33-58 | setting a non-empty key of either provider configures a key until a reset |
| Store.StripChatMessages | src/store/store.ts:31-37 | every chat keeps everything but its messages, which become empty; a missing list stays missing |
| Store.StripChatMessagesIdempotent | src/store/store.ts:31-37 | stripping twice is stripping once |
| Store.StripThenHydrate | src/store/store.ts:31-37 | stripped chats whose messages were persisted hydrate back to the original chats, given distinct ids |
| Store.Partialize | src/store/store.ts:39-69 | the persisted state carries the chats (stripped unless messages are included), selection, folders, key, flags and exactly the listed settings |
| Store.PartializeIgnoresTransient | src/store/store.ts:39-69 | the persisted state does not depend on the generation flag, the error or the slice's message list |
| Store.PartializeOmitsProviderSettings | src/store/store.ts:39-69 | nor does it depend on the provider, the base URL or the Gemini settings |
| Store.PartializeWithAndWithout | src/store/store.ts:43 | the two persisted forms differ only in the chats' messages |
| ContentView.Move | src/components/Chat/ChatContent/Message/View/ContentView.tsx:95-109 | an offered move swaps the message with its neighbour and is a permutation of the list |
| ContentView.MoveDownThenUp | src/components/Chat/ChatContent/Message/View/ContentView.tsx:95-109 | moving down offers moving back up, which restores the list |
| ContentView.MoveUpThenDown | src/components/Chat/ChatContent/Message/View/ContentView.tsx:95-109 | moving up offers moving back down, which restores the list |
| ContentView.Delete | src/components/Chat/ChatContent/Message/View/ContentView.tsx:87-93 | the message at the index is removed and the others keep their order; an out-of-range index changes nothing |
| ContentView.DeleteKeepsOthers | src/components/Chat/ChatContent/Message/View/ContentView.tsx:87-93 | the deleted message together with the rest is exactly the original multiset |
| ContentView.Refresh | src/components/Chat/ChatContent/Message/View/ContentView.tsx:119-127 | regeneration drops exactly the last message, and an empty list stays empty |
| ContentView.RefreshIsDeleteLast | src/components/Chat/ChatContent/Message/View/ContentView.tsx:119-127 | regeneration is deleting the last message |
| ContentView.RefreshDropsThisMessage | src/components/Chat/ChatContent/Message/View/ContentView.tsx:273-276 | where the regenerate button is offered, the message dropped is the one it is shown on |
| ContentView.ToggleReasoning | src/components/Chat/ChatContent/Message/View/ContentView.tsx:128-144 | toggling sets only the first reasoning item's collapse flag, and does nothing without reasoning |
| ContentView.ReasoningOpen | src/components/Chat/ChatContent/Message/View/ContentView.tsx:72-166 | the block renders exactly when a reasoning item exists and its text is non-empty, and then it is open exactly when the item is not collapsed |
| ContentView.ToggleReasoningSettles | src/components/Chat/ChatContent/Message/View/ContentView.tsx:128-144 | after a toggle a block with reasoning text renders open as the browser reported, a block with empty text stays unrendered, and only the last toggle counts |
| ContentView.FirstReasoningAfterEdit | src/components/Chat/ChatContent/Message/View/ContentView.tsx:137 | an edit that keeps which items are reasoning items keeps the first one |
| ContentView.ReasoningCompleted | src/components/Chat/ChatContent/Message/View/ContentView.tsx:77-78 | the title shows completion only for an existing reasoning item recorded as completed |
| ContentView.ReasoningSeconds | src/components/Chat/ChatContent/Message/View/ContentView.tsx:76 | the title shows the recorded seconds, 0 when none |
| ContentView.ToggleKeepsTitle | src/components/Chat/ChatContent/Message/View/ContentView.tsx:72-78 | collapsing changes neither the completion nor the seconds shown |
| ContentView.Images | src/components/Chat/ChatContent/Message/View/ContentView.tsx:158-160 | only image items of the list, in order |
| ContentView.ImagesConcat | src/components/Chat/ChatContent/Message/View/ContentView.tsx:158-160 | selecting images commutes with concatenation |
| ContentView.DisplayedImages | src/components/Chat/ChatContent/Message/View/ContentView.tsx:158-160 | the images shown are those after the first item |
| ContentView.DisplayedImagesSkipFirst | src/components/Chat/ChatContent/Message/View/ContentView.tsx:158-160 | every image after the first item is shown |
| ContentView.ToggleKeepsDisplay | src/components/Chat/ChatContent/Message/View/ContentView.tsx:145-160 | collapsing changes neither the text nor the images shown |
| ContentView.WithMessages | src/components/Chat/ChatContent/Message/View/ContentView.tsx:88-92 | only the selected chat's messages change |
| ContentView.HandleMove | src/components/Chat/ChatContent/Message/View/ContentView.tsx:95-109 | the store's chats change only in the selected chat's messages, by the move |
| ContentView.HandleDelete | src/components/Chat/ChatContent/Message/View/ContentView.tsx:87-93 | the store's chats change only in the selected chat's messages, by the deletion |
| ContentView.HandleRefresh | src/components/Chat/ChatContent/Message/View/ContentView.tsx:119-125 | the store's chats change only in the selected chat's messages, which lose the last one |
| ContentView.HandleReasoningToggle | src/components/Chat/ChatContent/Message/View/ContentView.tsx:128-144 | nothing is committed without a reasoning item; otherwise only that message's block is toggled |
| MessageUtils.MessageSeparator | src/utils/messageUtils.ts:30-32 | messages are separated by a newline exactly for gpt-3.5-turbo and by nothing otherwise |
| MessageUtils.RoleSeparator | src/utils/messageUtils.ts:30-33 | role and text are separated by a newline exactly for gpt-3.5-turbo and by the im_sep marker otherwise |
| MessageUtils.Markups | src/utils/messageUtils.ts:35-47 | one markup per message, in order |
| MessageUtils.Serialize | src/utils/messageUtils.ts:26-52 | the tokenizer input is the joined messages followed by the separator and the assistant cue |
| MessageUtils.CountTokens | src/utils/messageUtils.ts:54-57 | no messages count zero tokens; otherwise the count is the length of the encoded transcript |
| MessageUtils.BodyConcat | src/utils/messageUtils.ts:35-49 | the body of two transcripts is the two bodies joined by one separator |
| MessageUtils.BodyIsConcatenation | src/utils/messageUtils.ts:32-47 | for every model but gpt-3.5-turbo the body is the plain concatenation of the messages' markups |
| MessageUtils.SerializeDependsOnTranscript | src/utils/messageUtils.ts:38-45 | the serialisation and token count depend only on each message's role and first text |
| MessageUtils.StripKeepsFirstText | src/utils/messageUtils.ts:38-42 | removing reasoning items keeps the first text |
| MessageUtils.StripKeepsCount | src/utils/messageUtils.ts:54-57 | a transcript with reasoning stripped counts as many tokens as before |
| MessageUtils.Having | src/utils/messageUtils.ts:70-76 | the filter keeps exactly the messages satisfying the predicate, all of them when all do |
| MessageUtils.Read | src/utils/messageUtils.ts:84-88 | a missing model or counter reads as zero |
| MessageUtils.NewTokens | src/utils/messageUtils.ts:69-81 | the added counts are non-negative; the completion count is the encoded reply's length; no text prompts add no prompt tokens and no image prompts no image tokens |
| MessageUtils.UpdateTotalTokenUsed | src/utils/messageUtils.ts:59-99 | only the model's entry is written, with all three counters present, each the old reading plus the new tokens |
| MessageUtils.UpdateNeverDecreases | src/utils/messageUtils.ts:84-95 | counters never go down, and other models read as before |
| MessageUtils.UpdatesAccumulate | src/utils/messageUtils.ts:84-95 | two updates add up: the counters grow by the sum of both rounds |
| MessageUtils.ImagePromptsCountTheirText | src/utils/messageUtils.ts:70-81 | when every prompt has text and an image, the image counter grows by the same amount as the prompt counter |
| NewFolder.FolderName | src/components/Menu/NewFolder.tsx:15 | the name is "New Folder " followed by the decimal index |
| NewFolder.FolderNameInjective | src/components/Menu/NewFolder.tsx:14-22 | different indices give different names |
| NewFolder.PickName | src/components/Menu/NewFolder.tsx:14-22 | the loop ends at the smallest index from 1 whose name no folder carries |
| NewFolder.ShiftOrders | src/components/Menu/NewFolder.tsx:36-38 | every folder moves one place down and keeps everything else |
| NewFolder.Insert | src/components/Menu/NewFolder.tsx:28-40 | a fresh id adds one collapsed folder at order 0; existing folders are shifted, and on an id collision the shifted old folder wins |
| NewFolder.AddFolder | src/components/Menu/NewFolder.tsx:13-41 | the new folder takes the first unused name and, with a fresh id, is present under it |
| NewFolder.InsertKeepsNamesDistinct | src/components/Menu/NewFolder.tsx:28-40 | folder names stay unique, and with non-negative orders the new folder is strictly first |
| NewFolder.ShiftKeepsRelativeOrder | src/components/Menu/NewFolder.tsx:36-38 | shifting preserves the relative order of existing folders |
| ApiPopup.IsGeminiByName | src/components/ApiPopup/ApiPopup.tsx:31-32 | the Gemini providers are exactly gemini-aistudio and gemini-vertexai; every other provider is openai |
| ApiPopup.InitialPopup | src/components/ApiPopup/ApiPopup.tsx:22-24 | the draft starts from the slice's provider and keys, a missing OpenAI key as "", with no error |
| ApiPopup.CheckedKey | src/components/ApiPopup/ApiPopup.tsx:35 | the checked key is the Gemini key for Gemini providers and the OpenAI key otherwise |
| ApiPopup.Commits | src/components/ApiPopup/ApiPopup.tsx:39-46 | a confirm calls the provider setter, then the matching key setter, then marks a key as configured |
| ApiPopup.HandleConfirm | src/components/ApiPopup/ApiPopup.tsx:34-49 | an empty key shows the warning and changes nothing else; otherwise the provider and only its key are committed, a key is marked configured, and the dialog closes without error |
| ApiPopup.AfterHydration | src/components/ApiPopup/ApiPopup.tsx:51-56 | after hydration the first visit is over and the dialog is open exactly when no key is configured |
| ApiPopup.ConfirmSettles | src/components/ApiPopup/ApiPopup.tsx:34-56 | a successful confirm leaves the dialog closed after the effect it triggers; a rejected one leaves it as the effect sets it |
| ApiPopup.ConfirmInitialDraft | src/components/ApiPopup/ApiPopup.tsx:22-49 | confirming the untouched draft succeeds exactly when a non-empty key for the provider is stored, and then only marks the key configured |
| ApiPopup.GeminiProvidersShareKey | src/components/ApiPopup/ApiPopup.tsx:31-35 | switching between the two Gemini providers does not change which key is checked |

## Left out

- **Network and SDK calls.** These are `src/api/api.ts`, client creation and
  the Gemini client (`src/api/gemini.ts:74-88`), and the stream reader and
  event-source decoding. Their results are inputs: decoded events, response
  parts and stream chunks.
- **Hook plumbing in useSubmit.**
  - Per-chat cancellation, title generation and the error toast
    (`src/hooks/useSubmit.ts:101-123`, `413-458`).
  - The token-usage call itself. Its effect is modelled by
    `MessageUtils.UpdateTotalTokenUsed`.
- **Persist wiring.**
  - The store's persist wiring: `persistStoreSnapshot`, the persist
    configuration and `onRehydrateStorage` (`src/store/store.ts:71-116`).
  - The debounced message persistence queue.
  - Opening the database and `ensureIndexedDbAvailable`.
  - The one-time migration from localStorage.
- **Storage.**
  - Database failures, and the interleaving of asynchronous requests
    other than the two requests of one `setChats`.
  - The hydrate fallback `?? []` for a stored record without a messages
    array.
- **The remaining slices.**
  - The input, config, prompt, toast and custom-model slices are an untyped
    field map.
  - `src/constants` is not part of this model. The default base URL, the
    build-time key and the migration defaults are parameters.
- **The tokenizer.** It is abstract (`string -> seq<int>`). Token counts
  are its lengths.
- **Clocks.** There is one clock reading per read of the stream.
  `Date.now()` is an integer, and `Math.ceil` on the millisecond quotient is
  modelled exactly on integers.
- **Rendering, i18n, Google Drive sync and the `hasHydrated` subscription of
  the key dialog** (`src/components/ApiPopup/ApiPopup.tsx:58-66`). These
  are not state logic.
- **JavaScript values in the migrations.**
  - An array stored where a chat object is expected is treated like any
    other non-object.
  - Spreading a string or an array copies no properties here.
  - A property assignment that throws discards the whole migration. The
    partial mutations JavaScript would keep are lost.
  - Folder-name keys are compared as JSON values, not as JavaScript property
    keys.
  - Numbers are reals, and versions are compared exactly.
- **Lower-casing.** `toLowerCase` is modelled on ASCII letters. The o-series
  test only asks whether a character is `o`, so this is exact for the test.
- **Gemini.**
  - An empty `parts` array is truthy in JavaScript. The model follows that.
- ThinkParser.Iterate: lengths are counted in characters, not in UTF-16
  code units as JavaScript's `length` and `slice` count them. For text
  outside the Basic Multilingual Plane the held-back tail can differ in size
  from the source's. So the text emitted by one update, and the read at which
  the reasoning timer starts, can differ. A cut inside a surrogate pair
  cannot be expressed. The text of the whole generation is unaffected.
- Submit.ToggleBetweenReads: the toggle is the one edit made between reads
  that has a lemma of its own. Other edits, such as deleting or moving
  messages while a reply streams, are covered only by the frame.
  `Submit.StoreUpdate` starts from whatever the store holds and changes
  only its latest message. The content-level loop
  (`Submit.RunStream`) carries the message from one read to the next and
  describes a stream with no such edits.
- IndexedDbStorage.GetItem: the model keeps meta records and plain values
  apart, which the source cannot. A falsy plain value at the meta key reads
  as no meta record, as in the source. Every truthy plain value there is
  modelled as a failed read. The source throws only when the value has no
  array `keys` property. An object whose `keys` is an array is read by the
  source as a meta record. Its entries name the fields, coerced to strings.
  Its `version` property, possibly undefined, is the version.
  `IndexedDbStorage.PreviousKeys` lists no keys for any plain value, where
  the source's `setItem` and `removeItem` would list such an array's
  entries.
- Migrate.ApplyMigrations: its own contract states only the fall-through for
  unknown versions. What each entry point runs is stated by
  `Migrate.ApplyMigrationsFallThrough`.
- Migrate.MigrateV0, Migrate.MigrateV2, Migrate.MigrateV3, Migrate.MigrateV4,
  Migrate.MigrateV5, Migrate.MigrateV8_1Fix and Migrate.MigrateV8_2 carry no
  contract of their own.
  - The chat loops among them are covered by `Migrate.ForEachChat`,
    `Migrate.StepChat` and `Migrate.ForEachChatIdempotent`.
  - Versions 3 and 8.1-fix set top-level fields through `Migrate.SetTop`.

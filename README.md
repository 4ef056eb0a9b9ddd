# Blog-to-podcast narration core, in Dafny

This project models the text side of a pipeline that turns a blog post into a
narrated podcast episode, and proves properties of that model:

- **Chunker** (`Chunker.dfy`, tts.py `chunk_text`): splits a text on blank
  lines into paragraphs and packs them into chunks, starting a new chunk
  before a paragraph that would push the current one past `max_chars`
  characters. A paragraph longer than the limit is broken into sentence
  pieces, and the pieces are packed the same way. Chunks stay within the
  limit when every paragraph, or else every one of its pieces, fits
  (`Chunker.ChunksWithinLimit`); a longer piece is never split (see below). The method
  `ChunkText` is the source's loop statement for statement. It is proved equal
  to the function `Chunks`, and the lemmas about `Chunks` say what the chunks
  are.
- **Synthesis** (`Synthesis.dfy`, the rest of tts.py): picks the provider and
  its limit (4000 characters for `openai`, 9000 for any other name). It then
  speaks a text in one request, or in numbered chunks `chunk_000.mp3`, … that
  are joined through an ffmpeg concat list. It also covers the intro + pause +
  main variant. Nothing is sent or run: each routine returns the ordered log
  of effects (speech requests, silence, file writes, concatenations) it would
  cause. Environment variables are a map.
- **Blog cleaner** (`BlogCleaner.dfy`, docs/blog_to_tts_cleaner.py): the
  class `Cleaner` models the caching, retrying language-model cleaner. It
  covers the cache lookup and save, `clean_post` with its retry loop and
  exponential backoff, and `clean_posts_batch`. Each method is proved equal to
  a function on the whole state (a `World`). The language-model client is an
  injected function from request number to reply, and `json.loads` is an
  injected decoder.
- **Podcast** (`Podcast.dfy`, generate_podcast.py): the whole-word,
  case-insensitive profanity mask `PROFANITY_MAP` / `clean_text`, which
  leaves none of its seven words in the text (`Podcast.MaskedClean`), and
  `add_metadata_intro`. It also covers the text that `generate_podcast_audio`
  sends to ElevenLabs.
- **Agent cleaner** (`AgentCleaner.dfy`, cleaner.py): the parser that reads
  the agent's closing `CHANGES_MADE:` summary into a `CleanResult`.
- **CLI** (`Cli.dfy`, main.py): `build_intro`, and the intro placed before the
  narrated text in the `episode` command.
- `Text.dfy` models the Python string operations the core uses: `strip`,
  `split`, `join`, `replace`, `startswith`, `in` and ASCII `lower`.
  `Wrappers.dfy` holds `Option`.

Three facts about the code are worth stating plainly:

- The chunker never splits a sentence piece. A piece longer than the limit
  is emitted whole (`Chunker.OversizePieceKept`).
- The chunker can emit empty chunks. Whenever the buffer is empty and a
  paragraph at the limit or one character short of it arrives, the empty
  buffer is emitted as a chunk "" (`Chunker.EmptyChunkAt`). This happens to
  the first paragraph (`Chunker.EmptyFirstChunk`) and after an empty
  paragraph has flushed a long buffer (`Chunker.EmptyParagraphResets`).
- Speech requests are never retried. Only the blog cleaner's language-model
  calls are retried.

Some behaviours of the source are kept as written:

- A cache file that parses as JSON counts a cache hit before its keys are
  read, even when it is then deleted as incomplete or raises a `TypeError`
  (`BlogCleaner.LookupEffects`).
- The profanity masks are written in lower case whatever the case of the
  matched word (`Podcast.CapitalisedMasked`).
- An agent summary reading `none.` (with a period) counts as an edit, because
  only the exact word `none`, in any case, means "no changes"
  (`AgentCleaner.EditedIff`).

## Model

| member | source | states |
|---|---|---|
| Chunker.ChunkText | tts.py:23-49 | The loop returns exactly `Chunks(text, max_chars)`. Every chunk is stripped. The chunks' non-whitespace characters, concatenated, are those of the text in order. |
| Chunker.AddParagraph | tts.py:29-44 | One outer iteration advances the state by the paragraph's units: the paragraph itself when it fits, else its sentence pieces. |
| Chunker.AddPieces | tts.py:32-39 | The inner loop over an overlong paragraph's sentence pieces advances the state by those pieces in order. |
| Chunker.StepCases | tts.py:34-44 | On overflow (buffer, unit and two characters past the limit) a step emits the stripped buffer and restarts it with the unit, except that a piece arriving at an empty buffer emits nothing. Without overflow it starts an empty buffer with the unit, or appends the unit to a non-empty buffer after the unit's separator ("\n\n" for a paragraph, " " for a piece). |
| Chunker.RunGrows | tts.py:26-47 | Chunks are only ever appended: the emitted list before a run is a prefix of the list after it. |
| Chunker.RunStripped | tts.py:36-41 | Running the loop from a state whose chunks are stripped keeps every chunk stripped. |
| Chunker.ChunksStripped | tts.py:36-47 | No chunk has leading or trailing whitespace. |
| Chunker.ParagraphsKeepText | tts.py:25 | Splitting on "\n\n" keeps exactly the text's non-whitespace characters, in order. |
| Chunker.SentencesKeepText | tts.py:32 | The sentence pieces of a paragraph hold exactly its non-whitespace characters, in order. |
| Chunker.SentencesRejoin | tts.py:32 | The pieces rejoined with "\n" give the paragraph with every ". " rewritten to ".\n", and no piece holds a newline. |
| Chunker.SeenRun | tts.py:29-44 | After any units, the emitted chunks and the buffer together hold exactly the units' non-whitespace characters. |
| Chunker.ChunksKeepText | tts.py:23-49 | Content preservation: the concatenated chunks have the text's non-whitespace characters, none lost, repeated or reordered. |
| Chunker.RunShape | tts.py:29-44 | After any prefix of the units, the chunks are the stripped glued runs between some cut points, and the buffer is the glued run after the last cut, up to leading whitespace. |
| Chunker.FinishIsRuns | tts.py:46-49 | After the final flush, the chunks are the runs between cut points covering all units. A last run that is empty is not emitted. |
| Chunker.ChunksAreRuns | tts.py:23-49 | Each chunk is a run of consecutive units, glued with each unit's own separator and stripped. The runs cover all units in order, and a final empty run is dropped. |
| Chunker.ShortParagraphsStayWhole | tts.py:40-44 | When every paragraph is within the limit, each chunk is consecutive whole paragraphs joined by "\n\n" and stripped. All paragraphs are covered, in order. |
| Chunker.UnitsOfShort | tts.py:31-44 | Paragraphs within the limit are never split into sentences. |
| Chunker.GluedParagraphs | tts.py:44 | Gluing whole paragraphs is joining them with "\n\n". |
| Chunker.RunBounded | tts.py:34-44 | If every unit is within the limit, the buffer and every chunk stay within the limit. |
| Chunker.ChunksWithinLimit | tts.py:31-44 | The limit holds when every paragraph is within it, or has sentence pieces all within it: then every chunk has at most `max_chars` characters. |
| Chunker.SpeakableLimit | tts.py:31 | A paragraph can only be within the limit if the limit is not negative. |
| Chunker.OversizeUnitEmitted | tts.py:34-37 | A unit longer than the limit ends up, stripped, among the chunks. |
| Chunker.OversizePieceKept | tts.py:33-37 | An overlong sentence piece is not cut. It appears, stripped, as one of the chunks. |
| Chunker.PieceIndex | tts.py:29-33 | Every sentence piece of an overlong paragraph is one of the units the loop consumes. |
| Chunker.EmptyChunkStep | tts.py:40-42 | A paragraph of at least `max_chars - 1` characters, arriving at an empty buffer, emits "" as a chunk and becomes the buffer. |
| Chunker.EmptyParagraphResets | tts.py:40-42 | An empty paragraph after a buffer of at least `max_chars - 1` characters emits the stripped buffer and leaves the buffer empty. |
| Chunker.EmptyChunkAt | tts.py:29-49 | At any paragraph: when the paragraphs before it leave the buffer empty and it is at the limit or one character short, the next chunk of the result is "". |
| Chunker.EmptyFirstChunk | tts.py:40-41 | A first paragraph at the limit or one character short of it makes the loop emit the empty buffer: the first chunk is "". |
| Synthesis.ValuePad3 | tts.py:138 | `{i:03d}` is a digit string, at least three long, denoting `i`. |
| Synthesis.ChunkPathInjective | tts.py:138 | Different chunk indexes get different file names, so no chunk's audio overwrites another's. |
| Synthesis.ChunkPathOneLine | tts.py:138 | A chunk path has no newline when its directory has none. |
| Synthesis.ChunkPathsDistinct | tts.py:128-142 | The chunk files `chunk_{i:03d}.mp3` of one run are pairwise distinct, and each is newline-free when the directory is. |
| Synthesis.ListFileLines | tts.py:169-172 | The concat list, read back line by line, is one `file '<path>'` entry per audio file in input order, then the empty remainder after the final newline. |
| Synthesis.ConcatenateAudio | tts.py:166-177 | Writes the list file `files.txt` in the temporary directory, then has ffmpeg join the listed files into the output. |
| Synthesis.ChunkRequestsTargets | tts.py:130-142 | Request `i` is a speech request for chunk `i`, and no two requests write the same file. |
| Synthesis.GenerateChunked | tts.py:126-163 | The chunked generator makes the per-chunk requests in chunk order, then concatenates the chunk files in the same order. |
| Synthesis.SpeakWith | tts.py:72-85 | A text within the provider's limit is one request into the output. A longer one is chunked with that limit and generated chunk by chunk. |
| Synthesis.GenerateAudio | tts.py:180-212 | `generate_audio` resolves voice and model as argument, else environment, else the provider default. It fails with the missing key variable when the key is unset or empty, and otherwise speaks the text. |
| Synthesis.SingleRequestIffShort | tts.py:72-121 | A single request carrying the whole text is made exactly when the text has at most 4000 characters (`openai`) or 9000 (any other provider name). |
| Synthesis.ChunkAudioInOrder | tts.py:119-177 | For a text over the limit: request `i` speaks chunk `i` into `chunk_{i:03d}.mp3`. The list file then names those files one per line in chunk order, and ffmpeg joins them into the output. |
| Synthesis.SpokenRequests | tts.py:130-142 | The texts sent by the chunked generator are the chunks, in order. |
| Synthesis.SpokenTextKept | tts.py:72-121 | Whole or chunked, the texts sent to the provider hold the text's non-whitespace characters, none lost, repeated or reordered. |
| Synthesis.GenerateAudioWithIntro | tts.py:226-357 | The intro variant checks the key, then does four things in order. It speaks the intro, makes the pause, speaks the main text (chunked when over the limit, in its own directory), and concatenates intro, silence and main. |
| Synthesis.IntroPartsInOrder | tts.py:261-354 | The intro goes out in one request, with the intro voice, whatever its length. The silence follows. The main part is spoken whole exactly when it is within the limit. The final list names intro, silence and main, in that order, and ffmpeg joins them into the output. |
| Synthesis.IntroListFile | tts.py:353-354 | The final concat list has exactly three entries: intro, silence, main. |
| Synthesis.SpeakWholeIff | tts.py:315-350 | The first effect speaks the whole text into the target exactly when the text is within the limit. |
| Synthesis.ChunkNotMain | tts.py:138 | No chunk file of the main part is the main file `main.mp3`. |
| BlogCleaner.ReadEntry | docs/blog_to_tts_cleaner.py:124-141 | A cache file gives a hit exactly when it is an object with all three keys. A hit is this post's result, marked cached. A non-object raises. |
| BlogCleaner.Cleaner.GetFromCache | docs/blog_to_tts_cleaner.py:116-143 | The method's result and new state are those of `LookupWorld` on the old state. |
| BlogCleaner.LookupEffects | docs/blog_to_tts_cleaner.py:116-143 | A lookup sends nothing and waits for nothing. With caching off it is a miss that changes nothing. It counts a hit exactly when the post's file exists and parses as JSON. A miss on an existing file deletes it, as for an unparsable file or one missing a key. |
| BlogCleaner.Cleaner.SaveToCache | docs/blog_to_tts_cleaner.py:145-161 | The new state is `SaveWorld` of the old one. |
| BlogCleaner.SaveFrame | docs/blog_to_tts_cleaner.py:145-161 | Saving writes the result's fields and the model under this post only when caching is on, and changes nothing else. |
| BlogCleaner.SaveThenLookup | docs/blog_to_tts_cleaner.py:116-161 | What is saved is read back as a hit carrying the same result, marked cached. |
| BlogCleaner.PromptEmbedsText | docs/blog_to_tts_cleaner.py:163-186 | The prompt carries the post verbatim between `<text>` tags. |
| BlogCleaner.PromptInjective | docs/blog_to_tts_cleaner.py:163-186 | Different posts get different prompts. |
| BlogCleaner.UnfenceBlock | docs/blog_to_tts_cleaner.py:226-227 | A reply opening with a code fence is read as the text between its first and last lines. |
| BlogCleaner.UnfencedAsIs | docs/blog_to_tts_cleaner.py:226-229 | A reply without a fence is decoded as it is. |
| BlogCleaner.InterpretFields | docs/blog_to_tts_cleaner.py:223-239 | A decoded object with both required keys gives this post's result, not cached, with `profanity_detected` false when absent. A non-JSON reply is unparsable. A missing `cleaned_text` or `changes_made` is a `KeyError` for that key, and a non-object a `TypeError`. |
| BlogCleaner.Cleaner.HandleAnswer | docs/blog_to_tts_cleaner.py:217-245 | The reply handling's result and new state are `Answered` of the old state. |
| BlogCleaner.Cleaner.Settle | docs/blog_to_tts_cleaner.py:229-275 | The match on the interpreted reply gives `Settled` of the old state: a parsed result is cached and counted, unparsable falls back, invalid raises. |
| BlogCleaner.AnsweredCounts | docs/blog_to_tts_cleaner.py:217-245 | Every reply counts one API call and its tokens, an unparsable one included. Only a parsed reply counts a processed post. Cache hits are not touched. |
| BlogCleaner.AnsweredKeepsLog | docs/blog_to_tts_cleaner.py:217-245 | Handling a reply sends nothing and waits for nothing. |
| BlogCleaner.AnsweredDone | docs/blog_to_tts_cleaner.py:229-275 | A handled reply never leaves the post without an outcome. A result is this post's and not cached. It was saved, or it is the fallback for an unreadable reply and the cache is unchanged. |
| BlogCleaner.AnsweredCached | docs/blog_to_tts_cleaner.py:241-242 | Caching on, a result from a reply is found in the cache afterwards, unless it is the fallback, which is never cached. |
| BlogCleaner.TryFromAnswer | docs/blog_to_tts_cleaner.py:206-245 | An attempt whose reply arrives sends one request and leaves the loop with that reply. |
| BlogCleaner.TryFromRetry | docs/blog_to_tts_cleaner.py:247-259 | A failed attempt that is not the last sends one request, waits `2**attempt` seconds, and goes on to the next attempt. |
| BlogCleaner.TryFromGiveUp | docs/blog_to_tts_cleaner.py:247-261 | A failed last attempt raises its error (rate limit or API error) with no wait after it. |
| BlogCleaner.FirstAnswer | docs/blog_to_tts_cleaner.py:206-261 | The first attempt with an answer: every earlier attempt failed. |
| BlogCleaner.Backoff | docs/blog_to_tts_cleaner.py:248-259 | The waits between attempts are 2^k, 2^(k+1), … seconds. |
| BlogCleaner.TryFromOutcome | docs/blog_to_tts_cleaner.py:206-261 | The retry loop equals its closed form. Requests go out until the first answer, with doubling waits between them, and that answer is handled. If all attempts fail, the last error is raised. |
| BlogCleaner.TryFromFrame | docs/blog_to_tts_cleaner.py:206-261 | The loop only sends and waits. It makes no attempt exactly when `max_retries` allows none, and then it changes nothing. |
| BlogCleaner.Cleaner.CleanPost | docs/blog_to_tts_cleaner.py:188-275 | `clean_post`'s result and new state are `CleanSpec` of the old state: the cache first, then the retry loop and reply handling. |
| BlogCleaner.CleanDone | docs/blog_to_tts_cleaner.py:188-275 | A result is for this post. A cached result sends no request. The method returns nothing exactly when the cache misses and `max_retries` allows no attempt. |
| BlogCleaner.CleanedIsCached | docs/blog_to_tts_cleaner.py:200-245 | With caching on, a post that `clean_post` cleans is found in the cache afterwards, unless its result is the uncached fallback. |
| BlogCleaner.CleanCost | docs/blog_to_tts_cleaner.py:200-261 | No request when the cache answers; at most `max_retries` otherwise. Waits of 1, 2, 4, … seconds come between consecutive requests, none after the last. |
| BlogCleaner.Cleaner.CleanPostsBatch | docs/blog_to_tts_cleaner.py:277-311 | The batch's result and new state are `BatchSpec` of the old state: a cache pass, a cleaning pass over the misses, then a sort by index. |
| BlogCleaner.CheckCacheCovers | docs/blog_to_tts_cleaner.py:293-299 | The cache pass accounts for every position exactly once, as a hit or as pending. |
| BlogCleaner.CleanPendingCovers | docs/blog_to_tts_cleaner.py:302-307 | The cleaning pass turns every pending position into an entry holding that post's result. |
| BlogCleaner.InsertSorted | docs/blog_to_tts_cleaner.py:310 | Inserting into index-ordered entries keeps them ordered. |
| BlogCleaner.InsertPermutes | docs/blog_to_tts_cleaner.py:310 | Inserting adds exactly the new entry. |
| BlogCleaner.SortSorted | docs/blog_to_tts_cleaner.py:310 | The sort by index leaves the entries in index order. |
| BlogCleaner.SortPermutes | docs/blog_to_tts_cleaner.py:310 | The sort keeps every entry: its output is a permutation of its input. |
| BlogCleaner.SortKeys | docs/blog_to_tts_cleaner.py:310 | The sort keeps the multiset of indexes. |
| BlogCleaner.SortedRange | docs/blog_to_tts_cleaner.py:309-311 | Ascending numbers that are a permutation of 0, …, n-1 are 0, …, n-1. |
| BlogCleaner.SortedInOrder | docs/blog_to_tts_cleaner.py:309-311 | Sorting entries that account for every position once puts the entry for position i at position i. |
| BlogCleaner.BatchInOrder | docs/blog_to_tts_cleaner.py:277-311 | One result per post, in input order: the i-th is post i's own. It is `None` only when `max_retries` allows no attempt. |
| BlogCleaner.Cleaner.constructor | docs/blog_to_tts_cleaner.py:67-110 | A new cleaner has its configuration, the existing cache directory, zeroed counters, and no requests or waits. |
| Podcast.ProfanityMapMasks | generate_podcast.py:17-25 | Each rule is a lower-case word of at least two letters with a same-length mask whose second character is `*`. |
| Podcast.SubFrom | generate_podcast.py:39 | A same-length mask keeps the text's length. |
| Podcast.SubFromUnchanged | generate_podcast.py:39 | From a position on, the substitution changes nothing exactly when no whole-word match starts there or later. |
| Podcast.SubUnchanged | generate_podcast.py:39-42 | One substitution changes the text exactly when its word occurs as a whole word, in any case. |
| Podcast.Masked | generate_podcast.py:35-42 | The text after the first k substitutions keeps its length. |
| Podcast.CleanText | generate_podcast.py:28-44 | The loop applies the seven substitutions in order. The text keeps its length, and none of the seven words is left in it as a whole word, in any case. It is reported edited exactly when some substitution changed the text it was given. |
| Podcast.SubRemoves | generate_podcast.py:39 | After `re.sub` with a mask made of a first letter and `*`s, the word no longer occurs as a whole word, in any case: every match is masked, not just the first. |
| Podcast.SubKeepsAbsent | generate_podcast.py:39 | `re.sub` with such a mask never creates a whole-word occurrence of a lower-case word of two letters or more that was not there. |
| Podcast.MaskedClean | generate_podcast.py:38-42 | After the first k substitutions, none of their k words occurs as a whole word: later masks do not bring back an earlier word. |
| Podcast.CleanUnchanged | generate_podcast.py:28-44 | A text where none of the seven words occurs as a whole word comes back unchanged and not edited. |
| Podcast.StageKeeps | generate_podcast.py:39 | A substitution whose word does not occur leaves the text as it is. |
| Podcast.AssessUnchanged | generate_podcast.py:20 | "assess" holds "ass" only inside a longer word, so it is not edited. |
| Podcast.HelloUnchanged | generate_podcast.py:22 | "hello" holds "hell" only inside a longer word, so it is not edited. |
| Podcast.DamnMasked | generate_podcast.py:21 | The `damn` rule turns "Damn it" into "d*** it". |
| Podcast.CapitalisedMasked | generate_podcast.py:38-42 | A capitalised word is masked too: "Damn it" becomes "d*** it" and counts as edited. |
| Podcast.AddMetadataIntro | generate_podcast.py:47-81 | Returns `MetadataIntro` of its arguments. |
| Podcast.MetadataShape | generate_podcast.py:65-81 | The text comes back unchanged exactly when there is no URL, no edit and no tool. Otherwise the intro sentences, joined by single spaces, and a blank line come before it. |
| Podcast.MetadataOpens | generate_podcast.py:67-71 | The intro opens with the URL sentence when there is a URL, else with the edit note when there is one. |
| Podcast.MetadataCloses | generate_podcast.py:73-79 | With tools, the tools sentence closes the intro, just before the blank line and the text. |
| Podcast.GeneratePodcastAudio | generate_podcast.py:84-161 | Returns `PodcastPlan`: the one speech request and the returned metadata. |
| Podcast.PodcastText | generate_podcast.py:106-160 | The narrated text always carries the intro and ends with the tools sentence naming the model, a blank line and the body. The body is masked only when filtering is on. The reported length is that of the narrated text. |
| AgentCleaner.CollectChanges | cleaner.py:59-62 | The line loop returns `ChangesIn` of the section lines. |
| AgentCleaner.ParseResponse | cleaner.py:49-68 | The joined, stripped response is read as `Parsed`. |
| AgentCleaner.NoMarkerNoEdit | cleaner.py:52-55 | Without a `CHANGES_MADE:` marker, nothing is edited and no change is reported. |
| AgentCleaner.EditedIff | cleaner.py:55-58 | The file counts as edited exactly when the marker occurs and the stripped section after the last one is not `none` in any case. |
| AgentCleaner.ChangesImplyEdited | cleaner.py:55-62 | Any reported change means edited. There are no more changes than section lines. |
| AgentCleaner.SectionAfterLastMarker | cleaner.py:56 | The section read is preceded by a marker and holds none itself. |
| AgentCleaner.ChangesPicked | cleaner.py:59-62 | The changes are the section lines that, stripped, start with `-` and hold an arrow, in order and with none skipped. Each change is such a line without its dash, stripped again. |
| AgentCleaner.PickedComplete | cleaner.py:59-61 | A line is picked exactly when it satisfies the test. |
| AgentCleaner.PickedIncrease | cleaner.py:59-62 | The picked lines keep their order. |
| AgentCleaner.ChangeHasArrow | cleaner.py:60-62 | Every reported change still holds its line's arrow. |
| AgentCleaner.NoneReply | cleaner.py:55-57 | The reply `CHANGES_MADE: None` means not edited, with no changes. |
| Cli.BuildIntro | main.py:27-39 | Returns `Intro`: the URL sentence if there is a URL, the edit note if edited, then the closing sentence, joined by spaces and followed by a blank line. |
| Cli.NarratedText | main.py:71-72 | The narrated text starts with the intro and ends with the body, and its length is the sum. |
| Cli.IntroCloses | main.py:37-39 | The intro always ends with the closing sentence and a blank line. |
| Cli.PlainIntro | main.py:27-39 | With no URL and no edit, the intro is exactly the closing sentence and a blank line. |
| Cli.IntroOpens | main.py:31-32 | The intro opens with "This episode is based on" exactly when there is a URL, and then with the URL sentence. |
| Cli.IntroFirst | main.py:29-39 | The intro opens with its first sentence: the URL sentence when there is a URL, else the edit note or the closing sentence. |
| Cli.EditNotePlace | main.py:29-37 | The edit note is among the sentences exactly when the text was edited, and then it sits just before the closing sentence. |

## Left out

- Audio bytes, streaming responses, file writes, `mkdir` and temporary-directory creation are not modelled. Each operation returns the log of effects it would cause instead.
- Provider client construction, the network calls and the ffmpeg runs (including `check=True` failures) are left out. No provider or ffmpeg error is modelled.
- Printing is left out everywhere.
- Paths are plain strings joined with `/`. `Path` normalisation and `resolve()` are not modelled, and cleaner.py's `file_path` is taken as given.
- Synthesis.GenerateAudioWithIntro: the second API-key lookup before the main part reads the same environment, so it cannot fail. It is not repeated.
- Synthesis.GenerateAudio: an API key is only checked for being set and non-empty. Its validity is up to the provider.
- Podcast.GeneratePodcastAudio: the source passes a possibly unset ElevenLabs key straight to the client. The model makes the request regardless.
- Podcast.SubFrom: models `re.sub` with `\b` and `re.IGNORECASE` over ASCII only. Word characters are ASCII letters, digits and `_`, and only `A`-`Z` fold. Unicode word characters and case folding are not modelled.
- AgentCleaner.Parsed: `str.lower` is ASCII lower-casing. `clean_file`'s prompt, the agent `query` and the `str(message)` rendering are left out: the parser takes the message texts as given.
- Cli.NarratedText: main.py imports `clean_text_sync` from cleaner.py, which defines only `clean_file_sync`. It also reads `result.cleaned_text`, a field `CleanResult` does not have. So the cleaning step of `episode` cannot run as written, and the model takes the cleaned text and `was_edited` as inputs.
- The rest of main.py is left out: upload, feed update and the other commands.
- BlogCleaner.LookupWorld: the sha256 cache key is replaced by the post text itself, so hash collisions are not modelled. The cache directory is a map from post text to the decoded file.
- BlogCleaner.ReadEntry: JSON values of the wrong type under a key (say, a string for `changes_made`) are not modelled. Each key is either absent or of its expected type.
- BlogCleaner.Cleaner.constructor: the API-key check and the cache-directory `mkdir` are not modelled.
- BlogCleaner.Cleaner.CleanPost: `processing_time`, the clock, `temperature`, and any exception other than rate limits, API errors, JSON errors and the missing-key and type errors are left out. Waits are recorded as a sequence of seconds instead of slept.
- BlogCleaner: the async variants (`_clean_post_async`, `clean_posts_async`) are not part of this model, because they are concurrent. `get_cost_estimate`, `print_stats` and the module-level `clean_text`/`clean_texts` helpers are left out too: they are floating-point cost reporting and thin wrappers.
- Text.IsSpace: Python's `str.isspace` set is modelled character by character. Text is a `seq<char>` with no encoding.
- Not part of this model: feed.py, scraper.py, storage.py, scripts/add_episode.py and docs/claude_profanity_filter_examples.py. They are scraping, RSS, storage and examples outside the narration core.

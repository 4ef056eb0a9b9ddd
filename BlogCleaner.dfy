/**
 * The caching, retrying blog-post cleaner of docs/blog_to_tts_cleaner.py
 * (class BlogTTSCleaner).
 *
 * The language-model client is an injected function from the request number
 * to the reply it gets; `json.loads` is an injected decoder. The cache
 * directory is a map from the post text to the parsed content of its cache
 * file (the file name is a hash of the text; the text itself is the key here).
 * Waits are recorded instead of slept.
 *
 * The pure functions `LookupWorld`, `SaveWorld`, `TryFrom` and `CleanSpec`
 * say what each operation does to the whole state (a `World`); the methods
 * of `Cleaner` are the source's routines, proved equal to them.
 */
module BlogCleaner {
  import opened Wrappers
  import opened Text

  datatype CleaningResult = CleaningResult(
    originalText: string,
    cleanedText: string,
    changesMade: bool,
    profanityDetected: bool,
    summary: Option<string>,
    cached: bool)

  /** A cache file or a reply body as `json.loads` reads it; an absent key is `None`. */
  datatype Json =
    | Malformed
    | NonObject
    | Object(cleanedText: Option<string>, changesMade: Option<bool>, profanityDetected: Option<bool>,
             summary: Option<string>, model: Option<string>)

  /** What one `messages.create` call gives back. */
  datatype Reply = Answer(text: string, inputTokens: nat, outputTokens: nat) | RateLimited | ApiFailure

  /** Exceptions that leave the cleaner. */
  datatype Failure = RateLimitError | APIError | KeyError(key: string) | TypeError

  datatype Lookup = Hit(result: CleaningResult) | Miss | LookupFailed(failure: Failure)

  /** `clean_post` returns a result, returns None (no attempts at all), or raises. */
  datatype Cleaned = Done(result: CleaningResult) | NoResult | Raised(failure: Failure)

  /**
   * One `messages.create` call. Its single user message is
   * `CleaningPrompt(post)`; the request records the post, which the prompt
   * determines (`PromptInjective`).
   */
  datatype Request = Request(model: string, maxTokens: nat, post: string)

  datatype Stats = Stats(totalProcessed: nat, cacheHits: nat, apiCalls: nat, inputTokens: nat, outputTokens: nat)

  const NoStats: Stats := Stats(0, 0, 0, 0, 0)

  datatype Config = Config(
    model: string,
    maxRetries: int,
    enableCache: bool,
    replies: nat -> Reply,
    decode: string -> Json)

  /** Everything the cleaner changes: the cache, the counters, the requests sent and the waits. */
  datatype World = World(cache: map<string, Json>, stats: Stats, requests: seq<Request>, sleeps: seq<nat>)

  // ---------------------------------------------------------------------------
  // Cache.

  /** What `_get_from_cache` makes of an existing cache file. */
  function ReadEntry(entry: Json, text: string): (l: Lookup)
    ensures l.Hit? <==> entry.Object? && entry.cleanedText.Some? && entry.changesMade.Some? && entry.profanityDetected.Some?
    ensures l.Hit? ==> l.result.originalText == text && l.result.cached
    ensures l.LookupFailed? <==> entry.NonObject?
  {
    match entry
    case Malformed => Miss
    case NonObject => LookupFailed(TypeError)
    case Object(c, ch, p, s, _) =>
      if c.Some? && ch.Some? && p.Some? then Hit(CleaningResult(text, c.value, ch.value, p.value, s, true)) else Miss
  }

  /**
   * `_get_from_cache`. A file that parses as JSON counts a cache hit before
   * its keys are read; an unparsable file, or one missing a key, is deleted.
   */
  function LookupWorld(w: World, cfg: Config, text: string): (Lookup, World) {
    if !cfg.enableCache || text !in w.cache then (Miss, w)
    else
      var entry := w.cache[text];
      var l := ReadEntry(entry, text);
      var hits := if entry.Malformed? then w.stats.cacheHits else w.stats.cacheHits + 1;
      (l, w.(cache := if l.Miss? then w.cache - {text} else w.cache, stats := w.stats.(cacheHits := hits)))
  }

  /** The JSON `_save_to_cache` writes. */
  function Stored(r: CleaningResult, model: string): Json {
    Object(Some(r.cleanedText), Some(r.changesMade), Some(r.profanityDetected), r.summary, Some(model))
  }

  function SaveWorld(w: World, cfg: Config, text: string, r: CleaningResult): World {
    if !cfg.enableCache then w else w.(cache := w.cache[text := Stored(r, cfg.model)])
  }

  // ---------------------------------------------------------------------------
  // The request and the reply.

  /** The instructions ahead of the post. */
  const InstructionLines: seq<string> := [
    "You are a professional content editor preparing blog posts for text-to-speech conversion.",
    "",
    "Your task: Remove or replace profanity and inappropriate language while maintaining the author's voice, tone, and meaning.",
    "",
    "Guidelines:",
    "- Replace profanity with appropriate alternatives (e.g., \"damn\" \U{2192} \"darn\", \"shit\" \U{2192} \"shoot\")",
    "- Preserve the emotional impact and intent",
    "- Keep the text natural-sounding when read aloud",
    "- Maintain all factual content and key points",
    "- If profanity appears in direct quotes and is essential to the quote's meaning, you may keep it, but note it",
    "- Make the result suitable for a general audience",
    "",
    "Blog post to clean:",
    ""
  ]

  const Instructions: string := Join(InstructionLines, "\n")

  const PromptHead: string := Instructions + "<text>"

  /** The reply format asked for after the post. */
  const ReplyFormatLines: seq<string> := [
    "",
    "",
    "Respond with ONLY a valid JSON object (no markdown, no code blocks) in this exact format:",
    "{",
    "    \"cleaned_text\": \"The cleaned version of the text\",",
    "    \"changes_made\": true or false,",
    "    \"profanity_detected\": true or false,",
    "    \"summary\": \"Brief description of changes made, or 'No changes needed' if text was clean\"",
    "}"
  ]

  const ReplyFormat: string := Join(ReplyFormatLines, "\n")

  const PromptTail: string := "</text>" + ReplyFormat

  /** `_create_cleaning_prompt` */
  function CleaningPrompt(text: string): string {
    PromptHead + text + PromptTail
  }

  /** The adaptive `max_tokens`: twice the word count plus 500. */
  function MaxTokens(text: string): nat {
    WordCount(text) * 2 + 500
  }

  /** Python's `lines[1:-1]`. */
  function Inner(lines: seq<string>): (r: seq<string>)
    ensures |lines| <= 2 ==> r == []
    ensures |lines| > 2 ==> r == lines[1..|lines| - 1]
  {
    if |lines| <= 2 then [] else lines[1..|lines| - 1]
  }

  /** A reply that opens a code fence loses its first and last lines. */
  function Unfence(s: string): string {
    if StartsWith(s, "```") then Join(Inner(Split(s, "\n")), "\n") else s
  }

  datatype Interpretation = Parsed(result: CleaningResult) | Unparsable | Invalid(failure: Failure)

  /** Lines 223-239: strip, unfence, decode, and read the fields. */
  function Interpret(decode: string -> Json, text: string, replyText: string): Interpretation {
    match decode(Unfence(Strip(replyText)))
    case Malformed => Unparsable
    case NonObject => Invalid(TypeError)
    case Object(c, ch, p, s, _) =>
      if c.None? then Invalid(KeyError("cleaned_text"))
      else if ch.None? then Invalid(KeyError("changes_made"))
      else Parsed(CleaningResult(text, c.value, ch.value, p.GetOr(false), s, false))
  }

  /** The result returned when the reply is not JSON: the original text, unchanged. */
  function FallbackResult(text: string): CleaningResult {
    CleaningResult(text, text, false, false, Some("Failed to parse response"), false)
  }

  function Pow2(k: nat): (r: nat)
    ensures r >= 1
  {
    if k == 0 then 1 else 2 * Pow2(k - 1)
  }

  function ErrorOf(reply: Reply): Failure {
    if reply.RateLimited? then RateLimitError else APIError
  }

  // ---------------------------------------------------------------------------
  // The retry loop.

  /** What happens once a reply arrives: count it, interpret it, cache a parsed result. */
  function Answered(w: World, cfg: Config, text: string, answer: string, inputTokens: nat, outputTokens: nat)
    : (Cleaned, World)
  {
    var counted := w.(stats := w.stats.(apiCalls := w.stats.apiCalls + 1,
                                        inputTokens := w.stats.inputTokens + inputTokens,
                                        outputTokens := w.stats.outputTokens + outputTokens));
    Settled(counted, cfg, text, Interpret(cfg.decode, text, answer))
  }

  /** What an interpreted reply turns into: a parsed result is cached and counted as processed. */
  function Settled(w: World, cfg: Config, text: string, interp: Interpretation): (Cleaned, World) {
    match interp
    case Parsed(r) =>
      var saved := SaveWorld(w, cfg, text, r);
      (Done(r), saved.(stats := saved.stats.(totalProcessed := saved.stats.totalProcessed + 1)))
    case Unparsable => (Done(FallbackResult(text)), w)
    case Invalid(f) => (Raised(f), w)
  }

  /** How the retry loop ends: with a reply to handle, with the last error, or without any attempt. */
  datatype LoopEnd =
    | Replied(world: World, answer: string, inputTokens: nat, outputTokens: nat)
    | GaveUp(failure: Failure, world: World)
    | NoAttempt(world: World)

  /** The state once one more request is sent. */
  function Sent(w: World, cfg: Config, text: string): World {
    w.(requests := w.requests + [Request(cfg.model, MaxTokens(text), text)])
  }

  /**
   * Attempts `attempt`, `attempt + 1`, ... of the loop, until a reply
   * arrives. Handling a reply always leaves the loop, by a return or a raise.
   */
  function TryFrom(w: World, cfg: Config, text: string, attempt: nat): LoopEnd
    decreases cfg.maxRetries - attempt
  {
    if attempt >= cfg.maxRetries then NoAttempt(w)
    else
      var reply := cfg.replies(|w.requests|);
      var sent := Sent(w, cfg, text);
      if reply.Answer? then Replied(sent, reply.text, reply.inputTokens, reply.outputTokens)
      else if attempt < cfg.maxRetries - 1 then TryFrom(sent.(sleeps := sent.sleeps + [Pow2(attempt)]), cfg, text, attempt + 1)
      else GaveUp(ErrorOf(reply), sent)
  }

  function Finish(end: LoopEnd, cfg: Config, text: string): (Cleaned, World) {
    match end
    case Replied(w, answer, inputTokens, outputTokens) => Answered(w, cfg, text, answer, inputTokens, outputTokens)
    case GaveUp(f, w) => (Raised(f), w)
    case NoAttempt(w) => (NoResult, w)
  }

  lemma TryFromAnswer(w: World, cfg: Config, text: string, attempt: nat)
    requires attempt < cfg.maxRetries && cfg.replies(|w.requests|).Answer?
    ensures var reply := cfg.replies(|w.requests|);
      TryFrom(w, cfg, text, attempt) == Replied(Sent(w, cfg, text), reply.text, reply.inputTokens, reply.outputTokens)
  {
  }

  lemma TryFromRetry(w: World, cfg: Config, text: string, attempt: nat)
    requires attempt < cfg.maxRetries - 1 && !cfg.replies(|w.requests|).Answer?
    ensures TryFrom(w, cfg, text, attempt)
         == TryFrom(Sent(w, cfg, text).(sleeps := w.sleeps + [Pow2(attempt)]), cfg, text, attempt + 1)
  {
  }

  lemma TryFromGiveUp(w: World, cfg: Config, text: string, attempt: nat)
    requires attempt == cfg.maxRetries - 1 && !cfg.replies(|w.requests|).Answer?
    ensures TryFrom(w, cfg, text, attempt) == GaveUp(ErrorOf(cfg.replies(|w.requests|)), Sent(w, cfg, text))
  {
  }

  /** `clean_post`: the cache first, then the retry loop. */
  function CleanSpec(w: World, cfg: Config, text: string): (Cleaned, World) {
    var (l, after) := LookupWorld(w, cfg, text);
    match l
    case Hit(r) => (Done(r), after)
    case LookupFailed(f) => (Raised(f), after)
    case Miss => Finish(TryFrom(after, cfg, text, 0), cfg, text)
  }

  // ---------------------------------------------------------------------------
  // The batch.

  /** One pair of `results`: a position in the input and what the cache or `clean_post` gave for it. */
  datatype Entry = Entry(index: nat, result: Option<CleaningResult>)

  /** One element of the zipped `uncached_indices` and `uncached_texts`. */
  datatype Pending = Pending(index: nat, text: string)

  datatype Scan = Scanned(world: World, found: seq<Entry>, pending: seq<Pending>) | ScanRaised(failure: Failure, world: World)

  datatype Sweep = Swept(world: World, found: seq<Entry>) | SweepRaised(failure: Failure, world: World)

  datatype Batch = Results(results: seq<Option<CleaningResult>>) | BatchRaised(failure: Failure)

  /** The first loop of `clean_posts_batch`, from position `i` on. */
  function CheckCache(w: World, cfg: Config, texts: seq<string>, i: nat, found: seq<Entry>, pending: seq<Pending>): Scan
    requires i <= |texts|
    decreases |texts| - i
  {
    if i == |texts| then Scanned(w, found, pending)
    else
      var (l, after) := LookupWorld(w, cfg, texts[i]);
      match l
      case Hit(r) => CheckCache(after, cfg, texts, i + 1, found + [Entry(i, Some(r))], pending)
      case Miss => CheckCache(after, cfg, texts, i + 1, found, pending + [Pending(i, texts[i])])
      case LookupFailed(f) => ScanRaised(f, after)
  }

  /** The second loop, from the `j`-th uncached post on. */
  function CleanPending(w: World, cfg: Config, todo: seq<Pending>, j: nat, found: seq<Entry>): Sweep
    requires j <= |todo|
    decreases |todo| - j
  {
    if j == |todo| then Swept(w, found)
    else
      var (c, after) := CleanSpec(w, cfg, todo[j].text);
      match c
      case Done(r) => CleanPending(after, cfg, todo, j + 1, found + [Entry(todo[j].index, Some(r))])
      case NoResult => CleanPending(after, cfg, todo, j + 1, found + [Entry(todo[j].index, None)])
      case Raised(f) => SweepRaised(f, after)
  }

  function Keys(s: seq<Entry>): (r: seq<int>)
    ensures |r| == |s| && forall i :: 0 <= i < |s| ==> r[i] == s[i].index
  {
    if s == [] then [] else [s[0].index] + Keys(s[1..])
  }

  function PendingKeys(s: seq<Pending>): (r: seq<int>)
    ensures |r| == |s| && forall i :: 0 <= i < |s| ==> r[i] == s[i].index
  {
    if s == [] then [] else [s[0].index] + PendingKeys(s[1..])
  }

  function Values(s: seq<Entry>): (r: seq<Option<CleaningResult>>)
    ensures |r| == |s| && forall i :: 0 <= i < |s| ==> r[i] == s[i].result
  {
    if s == [] then [] else [s[0].result] + Values(s[1..])
  }

  predicate SortedByIndex(s: seq<Entry>) {
    forall i, j :: 0 <= i < j < |s| ==> s[i].index <= s[j].index
  }

  /** Inserts `e` ahead of the first entry whose index is not smaller. */
  function InsertByIndex(e: Entry, s: seq<Entry>): seq<Entry> {
    if s == [] || e.index <= s[0].index then [e] + s
    else [s[0]] + InsertByIndex(e, s[1..])
  }

  /** Python's stable `results.sort(key=lambda x: x[0])`, as an insertion sort. */
  function SortByIndex(s: seq<Entry>): seq<Entry> {
    if s == [] then [] else InsertByIndex(s[0], SortByIndex(s[1..]))
  }

  /** `clean_posts_batch`: the cache pass, the cleaning pass, then the results in input order. */
  function BatchSpec(w: World, cfg: Config, texts: seq<string>): (Batch, World) {
    match CheckCache(w, cfg, texts, 0, [], [])
    case ScanRaised(f, after) => (BatchRaised(f), after)
    case Scanned(afterScan, found, pending) =>
      match CleanPending(afterScan, cfg, pending, 0, found)
      case SweepRaised(f, after) => (BatchRaised(f), after)
      case Swept(after, all) => (Results(Values(SortByIndex(all))), after)
  }

  // ---------------------------------------------------------------------------
  // Lemmas: sorting by index.

  lemma KeysCons(e: Entry, s: seq<Entry>)
    ensures Keys([e] + s) == [e.index] + Keys(s)
  {
  }

  lemma {:induction false} InsertPermutes(e: Entry, s: seq<Entry>)
    ensures multiset(InsertByIndex(e, s)) == multiset(s) + multiset{e}
  {
    if s != [] && e.index > s[0].index {
      InsertPermutes(e, s[1..]);
      assert s == [s[0]] + s[1..];
    }
  }

  lemma {:induction false} InsertKeys(e: Entry, s: seq<Entry>)
    ensures multiset(Keys(InsertByIndex(e, s))) == multiset(Keys(s)) + multiset{e.index}
  {
    if s == [] || e.index <= s[0].index {
      KeysCons(e, s);
      MultisetCons(e.index, Keys(s));
    } else {
      var t := s[1..];
      InsertKeys(e, t);
      DropFirst(s);
      KeysCons(s[0], t);
      KeysCons(s[0], InsertByIndex(e, t));
      MultisetCons(s[0].index, Keys(t));
      MultisetCons(s[0].index, Keys(InsertByIndex(e, t)));
      MultisetShift(s[0].index, multiset(Keys(t)), multiset(Keys(InsertByIndex(e, t))), e.index);
    }
  }

  lemma MultisetShift<T>(x: T, t: multiset<T>, u: multiset<T>, y: T)
    requires u == t + multiset{y}
    ensures multiset{x} + u == (multiset{x} + t) + multiset{y}
  {
  }

  lemma MultisetCons<T>(x: T, t: seq<T>)
    ensures multiset([x] + t) == multiset{x} + multiset(t)
  {
  }

  lemma {:induction false} InsertAbove(e: Entry, s: seq<Entry>, bound: int)
    requires e.index >= bound && forall i :: 0 <= i < |s| ==> s[i].index >= bound
    ensures forall i :: 0 <= i < |InsertByIndex(e, s)| ==> InsertByIndex(e, s)[i].index >= bound
  {
    if s != [] && e.index > s[0].index {
      InsertAbove(e, s[1..], bound);
    }
  }

  lemma {:induction false} InsertSorted(e: Entry, s: seq<Entry>)
    requires SortedByIndex(s)
    ensures SortedByIndex(InsertByIndex(e, s))
  {
    if s != [] && e.index > s[0].index {
      var rest := InsertByIndex(e, s[1..]);
      InsertSorted(e, s[1..]);
      InsertAbove(e, s[1..], s[0].index);
      var r := [s[0]] + rest;
      forall i, j | 0 <= i < j < |r|
        ensures r[i].index <= r[j].index
      {
        if i > 0 {
          assert r[i] == rest[i - 1] && r[j] == rest[j - 1];
        } else {
          assert r[j] == rest[j - 1];
        }
      }
    }
  }

  /** The sort puts the entries in index order... */
  lemma {:induction false} SortSorted(s: seq<Entry>)
    ensures SortedByIndex(SortByIndex(s))
  {
    if s != [] {
      SortSorted(s[1..]);
      InsertSorted(s[0], SortByIndex(s[1..]));
    }
  }

  /** ...and keeps every entry. */
  lemma {:induction false} SortPermutes(s: seq<Entry>)
    ensures multiset(SortByIndex(s)) == multiset(s)
  {
    if s != [] {
      SortPermutes(s[1..]);
      InsertPermutes(s[0], SortByIndex(s[1..]));
      assert s == [s[0]] + s[1..];
    }
  }

  lemma {:induction false} SortKeys(s: seq<Entry>)
    ensures multiset(Keys(SortByIndex(s))) == multiset(Keys(s))
  {
    if s != [] {
      var t := s[1..];
      SortKeys(t);
      InsertKeys(s[0], SortByIndex(t));
      DropFirst(s);
      KeysCons(s[0], t);
      MultisetCons(s[0].index, Keys(t));
    }
  }

  // ---------------------------------------------------------------------------
  // Lemmas: the cache.

  /**
   * A lookup sends nothing and waits for nothing. It counts a hit exactly when
   * the post's cache file exists and parses as JSON, and it deletes that file
   * exactly when the file is unreadable or misses a key.
   */
  lemma LookupEffects(w: World, cfg: Config, text: string)
    ensures var (l, after) := LookupWorld(w, cfg, text);
      && after.requests == w.requests && after.sleeps == w.sleeps
      && after.stats == w.stats.(cacheHits := after.stats.cacheHits)
      && (!cfg.enableCache ==> l == Miss && after == w)
      && (l.Hit? || l.LookupFailed? ==> after.cache == w.cache && after.stats.cacheHits == w.stats.cacheHits + 1)
      && (l.Miss? ==> after.cache == (if cfg.enableCache then w.cache - {text} else w.cache))
      && (after.stats.cacheHits == w.stats.cacheHits + 1
          <==> cfg.enableCache && text in w.cache && !w.cache[text].Malformed?)
      && (after.stats.cacheHits != w.stats.cacheHits + 1 ==> after.stats.cacheHits == w.stats.cacheHits)
  {
  }

  /** What `_save_to_cache` writes, `_get_from_cache` reads back, marked as cached. */
  lemma SaveThenLookup(w: World, cfg: Config, text: string, r: CleaningResult)
    requires cfg.enableCache
    ensures LookupWorld(SaveWorld(w, cfg, text, r), cfg, text).0 == Hit(r.(originalText := text, cached := true))
  {
  }

  /** Saving touches only this post's entry, and only when caching is on. */
  lemma SaveFrame(w: World, cfg: Config, text: string, r: CleaningResult)
    ensures var after := SaveWorld(w, cfg, text, r);
      && after.stats == w.stats && after.requests == w.requests && after.sleeps == w.sleeps
      && (forall t :: t != text ==> (t in after.cache <==> t in w.cache))
      && (forall t :: t != text && t in w.cache ==> after.cache[t] == w.cache[t])
      && (cfg.enableCache ==> text in after.cache && after.cache[text] == Stored(r, cfg.model))
      && (!cfg.enableCache ==> after == w)
  {
  }

  // ---------------------------------------------------------------------------
  // Lemmas: the request and the reply.

  lemma TaggedAt(head: string, text: string, tail: string)
    ensures OccursAt((head + "<text>") + text + ("</text>" + tail), "<text>" + text + "</text>", |head|)
  {
    var middle := "<text>" + text + "</text>";
    assert (head + "<text>") + text + ("</text>" + tail) == head + middle + tail;
    OccursInMiddle(head, middle, tail);
  }

  /** The prompt carries the post verbatim between `<text>` tags. */
  lemma PromptEmbedsText(text: string)
    ensures Contains(CleaningPrompt(text), "<text>" + text + "</text>")
  {
    TaggedAt(Instructions, text, ReplyFormat);
  }

  /** Different posts get different prompts. */
  lemma PromptInjective(a: string, b: string)
    requires a != b
    ensures CleaningPrompt(a) != CleaningPrompt(b)
  {
    FramedDiffer(PromptHead, a, b, PromptTail);
  }

  /** Different middles between the same head and tail give different strings. */
  lemma FramedDiffer(head: string, a: string, b: string, tail: string)
    requires a != b
    ensures head + a + tail != head + b + tail
  {
    if |a| == |b| {
      var k :| 0 <= k < |a| && a[k] != b[k];
      assert (head + a + tail)[|head| + k] == a[k];
      assert (head + b + tail)[|head| + k] == b[k];
    }
  }

  lemma SplitNoChar(s: string, c: char)
    requires c !in s
    ensures Split(s, [c]) == [s]
  {
    ContainsChar(s, c);
    SplitWithout(s, [c]);
  }

  /** A reply wrapped in a code fence is read as the text between the fence lines. */
  lemma UnfenceBlock(first: string, body: string, last: string)
    requires StartsWith(first, "```") && '\n' !in first && '\n' !in last
    ensures Unfence(first + "\n" + body + "\n" + last) == body
  {
    var s := first + "\n" + body + "\n" + last;
    assert s[..3] == first[..3];
    SplitAtChar(first, '\n', body + "\n" + last);
    SplitAtChar(body, '\n', last);
    assert s == first + ['\n'] + (body + ['\n'] + last);
    SplitNoChar(first, '\n');
    SplitNoChar(last, '\n');
    var lines := Split(s, "\n");
    assert lines == [first] + Split(body, "\n") + [last];
    assert Inner(lines) == Split(body, "\n");
    JoinSplit(body, "\n");
  }

  /** A reply without a fence is decoded as it is, once stripped. */
  lemma UnfencedAsIs(s: string)
    requires !StartsWith(s, "```")
    ensures Unfence(s) == s
  {
  }

  /**
   * A decoded reply yields a result for this post, never marked cached, with
   * `profanity_detected` false when the reply leaves it out; a missing
   * `cleaned_text` or `changes_made` is a `KeyError` for that key.
   */
  lemma InterpretFields(decode: string -> Json, text: string, replyText: string)
    ensures var d := decode(Unfence(Strip(replyText)));
      match Interpret(decode, text, replyText)
      case Parsed(r) =>
        && d.Object? && d.cleanedText == Some(r.cleanedText) && d.changesMade == Some(r.changesMade)
        && r.originalText == text && !r.cached && r.summary == d.summary
        && (r.profanityDetected <==> d.profanityDetected == Some(true))
      case Unparsable => d.Malformed?
      case Invalid(f) =>
        || (d.NonObject? && f == TypeError)
        || (d.Object? && d.cleanedText.None? && f == KeyError("cleaned_text"))
        || (d.Object? && d.cleanedText.Some? && d.changesMade.None? && f == KeyError("changes_made"))
  {
  }

  // ---------------------------------------------------------------------------
  // Lemmas: the retry loop.

  predicate Fails(replies: nat -> Reply, i: nat) {
    !replies(i).Answer?
  }

  /** The first attempt in `[k, n)` whose reply is an answer, or `n` when there is none. */
  function FirstAnswer(replies: nat -> Reply, base: nat, k: nat, n: int): (a: nat)
    requires k <= n
    ensures k <= a <= n
    ensures forall i :: base + k <= i < base + a ==> Fails(replies, i)
    ensures a < n ==> replies(base + a).Answer?
    decreases n - k
  {
    if k == n then k
    else if replies(base + k).Answer? then k
    else FirstAnswer(replies, base, k + 1, n)
  }

  /** The waits before attempts `k + 1`, ..., `a`: 2^k, ..., 2^(a-1) seconds. */
  function Backoff(k: nat, a: nat): (r: seq<nat>)
    ensures |r| == if a <= k then 0 else a - k
    ensures forall j :: 0 <= j < |r| ==> r[j] == Pow2(k + j)
    decreases a - k
  {
    if a <= k then [] else [Pow2(k)] + Backoff(k + 1, a)
  }

  function Repeat(req: Request, m: nat): (r: seq<Request>)
    ensures |r| == m && forall i :: 0 <= i < m ==> r[i] == req
  {
    seq(m, _ => req)
  }

  lemma RepeatCons(req: Request, m: nat)
    ensures [req] + Repeat(req, m) == Repeat(req, m + 1)
  {
    assert forall i :: 0 <= i < m + 1 ==> ([req] + Repeat(req, m))[i] == req;
  }

  /**
   * The closed form of the retry loop from attempt `k`, whose first request
   * is number `base + k`: requests go out until the first answer, with waits
   * of 2^k, 2^(k+1), ... seconds between them, and that answer is the one
   * handled. When every attempt fails, the last error is raised and no wait
   * follows the last request.
   */
  function Outcome(w: World, cfg: Config, text: string, k: nat, base: nat): LoopEnd
    requires k < cfg.maxRetries
  {
    var n := cfg.maxRetries;
    var a := FirstAnswer(cfg.replies, base, k, n);
    if a < n then
      var reply := cfg.replies(base + a);
      Replied(AfterSends(w, cfg, text, k, a), reply.text, reply.inputTokens, reply.outputTokens)
    else GaveUp(ErrorOf(cfg.replies(base + n - 1)), AfterSends(w, cfg, text, k, n - 1))
  }

  /** The world once requests `k`, ..., `a` of the loop are sent, with the waits between them. */
  function AfterSends(w: World, cfg: Config, text: string, k: nat, a: nat): World
    requires k <= a
  {
    w.(requests := w.requests + Repeat(Request(cfg.model, MaxTokens(text), text), a - k + 1),
       sleeps := w.sleeps + Backoff(k, a))
  }

  lemma AfterSendsStep(w: World, cfg: Config, text: string, k: nat, a: nat)
    requires k < a
    ensures AfterSends(Sent(w, cfg, text).(sleeps := w.sleeps + [Pow2(k)]), cfg, text, k + 1, a)
         == AfterSends(w, cfg, text, k, a)
  {
    var req := Request(cfg.model, MaxTokens(text), text);
    RepeatCons(req, a - k);
    assert w.requests + [req] + Repeat(req, a - (k + 1) + 1) == w.requests + Repeat(req, a - k + 1);
    assert w.sleeps + [Pow2(k)] + Backoff(k + 1, a) == w.sleeps + Backoff(k, a);
  }

  lemma AfterSendsFirst(w: World, cfg: Config, text: string, k: nat)
    ensures AfterSends(w, cfg, text, k, k) == Sent(w, cfg, text)
  {
    var req := Request(cfg.model, MaxTokens(text), text);
    assert Repeat(req, 1) == [req];
    assert w.sleeps + Backoff(k, k) == w.sleeps;
  }

  lemma OutcomeStep(w: World, cfg: Config, text: string, k: nat, base: nat)
    requires k < cfg.maxRetries - 1 && Fails(cfg.replies, base + k)
    ensures Outcome(w, cfg, text, k, base)
         == Outcome(Sent(w, cfg, text).(sleeps := w.sleeps + [Pow2(k)]), cfg, text, k + 1, base)
  {
    var n := cfg.maxRetries;
    var next := Sent(w, cfg, text).(sleeps := w.sleeps + [Pow2(k)]);
    var a := FirstAnswer(cfg.replies, base, k + 1, n);
    assert FirstAnswer(cfg.replies, base, k, n) == a;
    if a < n {
      AfterSendsStep(w, cfg, text, k, a);
    } else {
      AfterSendsStep(w, cfg, text, k, n - 1);
    }
  }

  lemma OutcomeNow(w: World, cfg: Config, text: string, k: nat, base: nat)
    requires k < cfg.maxRetries && |w.requests| == base + k
    requires !Fails(cfg.replies, base + k) || k == cfg.maxRetries - 1
    ensures TryFrom(w, cfg, text, k) == Outcome(w, cfg, text, k, base)
  {
    AfterSendsFirst(w, cfg, text, k);
    if !Fails(cfg.replies, base + k) {
      assert FirstAnswer(cfg.replies, base, k, cfg.maxRetries) == k;
      TryFromAnswer(w, cfg, text, k);
    } else {
      assert FirstAnswer(cfg.replies, base, k, cfg.maxRetries) == cfg.maxRetries;
      TryFromGiveUp(w, cfg, text, k);
    }
  }

  /** The retry loop is its closed form. */
  lemma {:induction false} TryFromOutcome(w: World, cfg: Config, text: string, k: nat, base: nat)
    requires k < cfg.maxRetries && |w.requests| == base + k
    ensures TryFrom(w, cfg, text, k) == Outcome(w, cfg, text, k, base)
    decreases cfg.maxRetries - k
  {
    if Fails(cfg.replies, base + k) && k < cfg.maxRetries - 1 {
      TryFromRetry(w, cfg, text, k);
      TryFromOutcome(Sent(w, cfg, text).(sleeps := w.sleeps + [Pow2(k)]), cfg, text, k + 1, base);
      OutcomeStep(w, cfg, text, k, base);
    } else {
      OutcomeNow(w, cfg, text, k, base);
    }
  }

  /** The loop sends and waits, and changes nothing else. */
  lemma {:induction false} TryFromFrame(w: World, cfg: Config, text: string, k: nat)
    ensures var end := TryFrom(w, cfg, text, k);
      && end.world.cache == w.cache && end.world.stats == w.stats
      && (end.NoAttempt? <==> k >= cfg.maxRetries)
      && (end.NoAttempt? ==> end.world == w)
    decreases cfg.maxRetries - k
  {
    if k < cfg.maxRetries - 1 && !cfg.replies(|w.requests|).Answer? {
      TryFromFrame(Sent(w, cfg, text).(sleeps := w.sleeps + [Pow2(k)]), cfg, text, k + 1);
    }
  }

  /**
   * A handled reply gives a result for this post, never marked cached. The
   * result was saved to the cache, or it is the fallback for an unreadable
   * reply and the cache is as it was.
   */
  lemma AnsweredDone(w: World, cfg: Config, text: string, answer: string, inputTokens: nat, outputTokens: nat)
    ensures var (c, after) := Answered(w, cfg, text, answer, inputTokens, outputTokens);
      && !c.NoResult?
      && (c.Done? ==>
            && c.result.originalText == text && !c.result.cached
            && (after.cache == SaveWorld(w, cfg, text, c.result).cache
                || (c.result == FallbackResult(text) && after.cache == w.cache)))
  {
    InterpretFields(cfg.decode, text, answer);
  }

  /** A result from the cache is returned as it was stored; the loop and its handling give only uncached results. */
  lemma CleanDone(w: World, cfg: Config, text: string)
    ensures var (c, after) := CleanSpec(w, cfg, text);
      && (c.Done? ==> c.result.originalText == text)
      && (c.Done? && c.result.cached ==> after.requests == w.requests)
      && (c.NoResult? <==> LookupWorld(w, cfg, text).0.Miss? && cfg.maxRetries <= 0)
  {
    var (l, w1) := LookupWorld(w, cfg, text);
    LookupEffects(w, cfg, text);
    if l.Miss? {
      var end := TryFrom(w1, cfg, text, 0);
      TryFromFrame(w1, cfg, text, 0);
      if end.Replied? {
        AnsweredDone(end.world, cfg, text, end.answer, end.inputTokens, end.outputTokens);
      }
    }
  }

  /**
   * A post that `clean_post` cleans with caching on is found in the cache
   * afterwards, unless it was the fallback for an unreadable reply, which is
   * never cached.
   */
  lemma CleanedIsCached(w: World, cfg: Config, text: string)
    requires cfg.enableCache
    ensures var (c, after) := CleanSpec(w, cfg, text);
      c.Done? ==>
        || LookupWorld(after, cfg, text).0 == Hit(c.result.(cached := true))
        || (c.result == FallbackResult(text) && text !in after.cache)
  {
    var (l, w1) := LookupWorld(w, cfg, text);
    if l.Miss? {
      var end := TryFrom(w1, cfg, text, 0);
      TryFromFrame(w1, cfg, text, 0);
      if end.Replied? {
        assert text !in end.world.cache;
        AnsweredCached(end.world, cfg, text, end.answer, end.inputTokens, end.outputTokens);
      }
    }
  }

  lemma AnsweredCached(w: World, cfg: Config, text: string, answer: string, inputTokens: nat, outputTokens: nat)
    requires cfg.enableCache && text !in w.cache
    ensures var (c, after) := Answered(w, cfg, text, answer, inputTokens, outputTokens);
      c.Done? ==>
        || LookupWorld(after, cfg, text).0 == Hit(c.result.(cached := true))
        || (c.result == FallbackResult(text) && text !in after.cache)
  {
    var (c, after) := Answered(w, cfg, text, answer, inputTokens, outputTokens);
    AnsweredDone(w, cfg, text, answer, inputTokens, outputTokens);
    if c.Done? && !(c.result == FallbackResult(text) && after.cache == w.cache) {
      SaveThenLookup(after, cfg, text, c.result);
      assert after.cache == SaveWorld(after, cfg, text, c.result).cache;
    }
  }

  /**
   * What one `clean_post` costs: no request when the cache answers, at most
   * `max_retries` requests otherwise, with waits of 1, 2, 4, ... seconds
   * between consecutive requests and none after the last.
   */
  lemma CleanCost(w: World, cfg: Config, text: string)
    ensures var (c, after) := CleanSpec(w, cfg, text);
      var sent := |after.requests| - |w.requests|;
      && 0 <= sent <= (if cfg.maxRetries > 0 then cfg.maxRetries else 0)
      && (!LookupWorld(w, cfg, text).0.Miss? ==> sent == 0)
      && (sent == 0 ==> after.sleeps == w.sleeps)
      && (sent > 0 ==> after.sleeps == w.sleeps + Backoff(0, sent - 1))
  {
    var (l, w1) := LookupWorld(w, cfg, text);
    LookupEffects(w, cfg, text);
    if l.Miss? {
      TryFromFrame(w1, cfg, text, 0);
      if cfg.maxRetries > 0 {
        TryFromOutcome(w1, cfg, text, 0, |w1.requests|);
        var end := TryFrom(w1, cfg, text, 0);
        if end.Replied? {
          AnsweredKeepsLog(end.world, cfg, text, end.answer, end.inputTokens, end.outputTokens);
        }
      }
    }
  }

  /**
   * Every reply is counted as one API call with its tokens, an unparsable one
   * included; only a reply that parses counts as a processed post. Cache hits
   * are not touched.
   */
  lemma AnsweredCounts(w: World, cfg: Config, text: string, answer: string, inputTokens: nat, outputTokens: nat)
    ensures var after := Answered(w, cfg, text, answer, inputTokens, outputTokens).1;
      && after.stats.apiCalls == w.stats.apiCalls + 1
      && after.stats.inputTokens == w.stats.inputTokens + inputTokens
      && after.stats.outputTokens == w.stats.outputTokens + outputTokens
      && after.stats.cacheHits == w.stats.cacheHits
      && after.stats.totalProcessed
         == w.stats.totalProcessed + (if Interpret(cfg.decode, text, answer).Parsed? then 1 else 0)
  {
  }

  lemma AnsweredKeepsLog(w: World, cfg: Config, text: string, answer: string, inputTokens: nat, outputTokens: nat)
    ensures var after := Answered(w, cfg, text, answer, inputTokens, outputTokens).1;
      after.requests == w.requests && after.sleeps == w.sleeps
  {
  }

  // ---------------------------------------------------------------------------
  // Lemmas: the batch.

  /** An entry for position `e.index` of `texts`, holding that post's result, or nothing only when no attempt is allowed. */
  predicate Located(cfg: Config, texts: seq<string>, e: Entry) {
    && e.index < |texts|
    && (e.result.Some? ==> e.result.value.originalText == texts[e.index])
    && (e.result.None? ==> cfg.maxRetries <= 0)
  }

  predicate Listed(texts: seq<string>, p: Pending) {
    p.index < |texts| && p.text == texts[p.index]
  }

  function Range(n: nat): (r: seq<int>)
    ensures |r| == n && forall i :: 0 <= i < n ==> r[i] == i
  {
    seq(n, i => i)
  }

  lemma RangeSnoc(n: nat)
    ensures Range(n + 1) == Range(n) + [n]
  {
    assert forall i :: 0 <= i < n + 1 ==> Range(n + 1)[i] == (Range(n) + [n])[i];
  }

  lemma KeysSnoc(s: seq<Entry>, e: Entry)
    ensures Keys(s + [e]) == Keys(s) + [e.index]
  {
    assert forall i :: 0 <= i < |s| + 1 ==> Keys(s + [e])[i] == (Keys(s) + [e.index])[i];
  }

  lemma PendingKeysSnoc(s: seq<Pending>, p: Pending)
    ensures PendingKeys(s + [p]) == PendingKeys(s) + [p.index]
  {
    assert forall i :: 0 <= i < |s| + 1 ==> PendingKeys(s + [p])[i] == (PendingKeys(s) + [p.index])[i];
  }

  lemma PendingKeysDrop(s: seq<Pending>, j: nat)
    requires j < |s|
    ensures PendingKeys(s[j..]) == [s[j].index] + PendingKeys(s[j + 1..])
  {
    assert s[j..][1..] == s[j + 1..];
  }

  /**
   * Positions `0, ..., n - 1` are each accounted for exactly once, by a
   * located entry or by a pending post.
   */
  predicate Accounted(cfg: Config, texts: seq<string>, found: seq<Entry>, pending: seq<Pending>, n: nat) {
    && (forall e :: e in found ==> Located(cfg, texts, e))
    && (forall p :: p in pending ==> Listed(texts, p))
    && multiset(Keys(found)) + multiset(PendingKeys(pending)) == multiset(Range(n))
  }

  lemma AccountedFound(cfg: Config, texts: seq<string>, found: seq<Entry>, pending: seq<Pending>, n: nat, e: Entry)
    requires Accounted(cfg, texts, found, pending, n) && Located(cfg, texts, e) && e.index == n
    ensures Accounted(cfg, texts, found + [e], pending, n + 1)
  {
    RangeSnoc(n);
    KeysSnoc(found, e);
  }

  lemma AccountedPending(cfg: Config, texts: seq<string>, found: seq<Entry>, pending: seq<Pending>, n: nat)
    requires Accounted(cfg, texts, found, pending, n) && n < |texts|
    ensures Accounted(cfg, texts, found, pending + [Pending(n, texts[n])], n + 1)
  {
    RangeSnoc(n);
    PendingKeysSnoc(pending, Pending(n, texts[n]));
  }

  lemma AccountedSettle(cfg: Config, texts: seq<string>, found: seq<Entry>, p: Pending, rest: seq<Pending>, n: nat, e: Entry)
    requires Accounted(cfg, texts, found, [p] + rest, n) && Located(cfg, texts, e) && e.index == p.index
    ensures Accounted(cfg, texts, found + [e], rest, n)
  {
    KeysSnoc(found, e);
    MultisetSnoc(Keys(found), e.index);
    assert ([p] + rest)[1..] == rest;
    assert PendingKeys([p] + rest) == [p.index] + PendingKeys(rest);
    MultisetCons(p.index, PendingKeys(rest));
    MultisetRegroup(multiset(Keys(found)), e.index, multiset(PendingKeys(rest)));
    assert forall q :: q in rest ==> q in [p] + rest;
  }

  lemma MultisetRegroup<T>(a: multiset<T>, x: T, b: multiset<T>)
    ensures (a + multiset{x}) + b == a + (multiset{x} + b)
  {
  }

  lemma LookupHitFor(w: World, cfg: Config, text: string)
    ensures var l := LookupWorld(w, cfg, text).0;
      l.Hit? ==> l.result.originalText == text && l.result.cached
  {
  }

  /** The cache pass accounts for every position once: as a hit or as pending. */
  lemma {:induction false} CheckCacheCovers(w: World, cfg: Config, texts: seq<string>, i: nat,
                                            found: seq<Entry>, pending: seq<Pending>)
    requires i <= |texts|
    requires Accounted(cfg, texts, found, pending, i)
    ensures var sc := CheckCache(w, cfg, texts, i, found, pending);
      sc.Scanned? ==> Accounted(cfg, texts, sc.found, sc.pending, |texts|)
    decreases |texts| - i
  {
    if i < |texts| {
      var (l, after) := LookupWorld(w, cfg, texts[i]);
      LookupHitFor(w, cfg, texts[i]);
      match l
      case Hit(r) =>
        AccountedFound(cfg, texts, found, pending, i, Entry(i, Some(r)));
        CheckCacheCovers(after, cfg, texts, i + 1, found + [Entry(i, Some(r))], pending);
      case Miss =>
        AccountedPending(cfg, texts, found, pending, i);
        CheckCacheCovers(after, cfg, texts, i + 1, found, pending + [Pending(i, texts[i])]);
      case LookupFailed(_) =>
    }
  }

  /** The cleaning pass turns each pending position into a located entry. */
  lemma {:induction false} CleanPendingCovers(w: World, cfg: Config, texts: seq<string>, todo: seq<Pending>, j: nat,
                                              found: seq<Entry>)
    requires j <= |todo|
    requires Accounted(cfg, texts, found, todo[j..], |texts|)
    ensures var sw := CleanPending(w, cfg, todo, j, found);
      sw.Swept? ==> Accounted(cfg, texts, sw.found, [], |texts|)
    decreases |todo| - j
  {
    if j == |todo| {
      assert todo[j..] == [];
    } else {
      var p := todo[j];
      assert todo[j..] == [p] + todo[j + 1..];
      assert Listed(texts, p);
      var (c, after) := CleanSpec(w, cfg, p.text);
      CleanDone(w, cfg, p.text);
      match c
      case Done(r) =>
        AccountedSettle(cfg, texts, found, p, todo[j + 1..], |texts|, Entry(p.index, Some(r)));
        CleanPendingCovers(after, cfg, texts, todo, j + 1, found + [Entry(p.index, Some(r))]);
      case NoResult =>
        AccountedSettle(cfg, texts, found, p, todo[j + 1..], |texts|, Entry(p.index, None));
        CleanPendingCovers(after, cfg, texts, todo, j + 1, found + [Entry(p.index, None)]);
      case Raised(_) =>
    }
  }

  predicate Ascending(s: seq<int>) {
    forall i, j :: 0 <= i < j < |s| ==> s[i] <= s[j]
  }

  /** Sorted numbers that are a permutation of `0, ..., n - 1` are `0, ..., n - 1`. */
  lemma {:induction false} SortedRange(s: seq<int>)
    requires Ascending(s) && multiset(s) == multiset(Range(|s|))
    ensures forall i :: 0 <= i < |s| ==> s[i] == i
    decreases |s|
  {
    if |s| > 0 {
      var front := s[..|s| - 1];
      LastIsTop(s);
      FrontRange(s);
      AscendingFront(s);
      SortedRange(front);
      assert forall i :: 0 <= i < |front| ==> front[i] == s[i];
    }
  }

  lemma AscendingFront(s: seq<int>)
    requires Ascending(s) && |s| > 0
    ensures Ascending(s[..|s| - 1])
  {
    var front := s[..|s| - 1];
    assert forall i :: 0 <= i < |front| ==> front[i] == s[i];
  }

  /** The last of sorted numbers that are a permutation of `0, ..., n - 1` is `n - 1`. */
  lemma LastIsTop(s: seq<int>)
    requires Ascending(s) && |s| > 0 && multiset(s) == multiset(Range(|s|))
    ensures s[|s| - 1] == |s| - 1
  {
    var n := |s|;
    assert Range(n)[n - 1] == n - 1;
    assert n - 1 in multiset(Range(n));
    var k :| 0 <= k < n && s[k] == n - 1;
    assert s[n - 1] in multiset(Range(n));
    var m :| 0 <= m < n && Range(n)[m] == s[n - 1];
  }

  lemma FrontRange(s: seq<int>)
    requires |s| > 0 && s[|s| - 1] == |s| - 1 && multiset(s) == multiset(Range(|s|))
    ensures multiset(s[..|s| - 1]) == multiset(Range(|s| - 1))
  {
    var n := |s|;
    DropLast(s);
    RangeSnoc(n - 1);
    MultisetSnoc(s[..n - 1], n - 1);
    MultisetSnoc(Range(n - 1), n - 1);
    MultisetCancel(multiset(s[..n - 1]), multiset(Range(n - 1)), n - 1);
  }

  lemma MultisetCancel<T>(a: multiset<T>, b: multiset<T>, x: T)
    requires a + multiset{x} == b + multiset{x}
    ensures a == b
  {
    assert a == (a + multiset{x}) - multiset{x};
    assert b == (b + multiset{x}) - multiset{x};
  }

  lemma MultisetSnoc<T>(t: seq<T>, x: T)
    ensures multiset(t + [x]) == multiset(t) + multiset{x}
  {
  }

  /**
   * `clean_posts_batch` returns one result per post, in input order: the
   * i-th is post i's own result, and it is `None` only when `max_retries`
   * allows no attempt.
   */
  lemma BatchInOrder(w: World, cfg: Config, texts: seq<string>)
    ensures var (b, _) := BatchSpec(w, cfg, texts);
      b.Results? ==>
        && |b.results| == |texts|
        && forall i :: 0 <= i < |texts| ==>
             && (b.results[i].Some? ==> b.results[i].value.originalText == texts[i])
             && (b.results[i].None? ==> cfg.maxRetries <= 0)
  {
    assert Range(0) == [];
    assert Accounted(cfg, texts, [], [], 0);
    CheckCacheCovers(w, cfg, texts, 0, [], []);
    var sc := CheckCache(w, cfg, texts, 0, [], []);
    if sc.Scanned? {
      assert sc.pending[0..] == sc.pending;
      CleanPendingCovers(sc.world, cfg, texts, sc.pending, 0, sc.found);
      var sw := CleanPending(sc.world, cfg, sc.pending, 0, sc.found);
      if sw.Swept? {
        SortedInOrder(cfg, texts, sw.found);
      }
    }
  }

  /** Sorting entries that account for every position once puts entry i at position i. */
  lemma SortedInOrder(cfg: Config, texts: seq<string>, all: seq<Entry>)
    requires Accounted(cfg, texts, all, [], |texts|)
    ensures var sorted := SortByIndex(all);
      && |sorted| == |texts|
      && forall i :: 0 <= i < |texts| ==> Located(cfg, texts, sorted[i]) && sorted[i].index == i
  {
    var sorted := SortByIndex(all);
    SortedKeys(cfg, texts, all);
    SortPermutes(all);
    forall i | 0 <= i < |texts|
      ensures Located(cfg, texts, sorted[i]) && sorted[i].index == i
    {
      assert Keys(sorted)[i] == i;
      assert sorted[i] in multiset(all);
    }
  }

  /** The sorted keys are exactly `0, ..., n - 1`. */
  lemma SortedKeys(cfg: Config, texts: seq<string>, all: seq<Entry>)
    requires Accounted(cfg, texts, all, [], |texts|)
    ensures |SortByIndex(all)| == |texts|
    ensures forall i :: 0 <= i < |texts| ==> Keys(SortByIndex(all))[i] == i
  {
    var keys := Keys(SortByIndex(all));
    SortKeys(all);
    assert multiset(PendingKeys([])) == multiset{};
    assert multiset(keys) == multiset(Range(|texts|));
    assert |multiset(keys)| == |keys|;
    assert |multiset(Range(|texts|))| == |texts|;
    SortSorted(all);
    assert Ascending(keys);
    SortedRange(keys);
  }

  // ---------------------------------------------------------------------------
  // The class.

  class Cleaner {
    const config: Config
    var cache: map<string, Json>
    var stats: Stats
    var requests: seq<Request>
    var sleeps: seq<nat>

    /** A cleaner over an existing cache directory, with zeroed counters. */
    constructor(config: Config, disk: map<string, Json>)
      ensures this.config == config && cache == disk && stats == NoStats && requests == [] && sleeps == []
    {
      this.config := config;
      cache := disk;
      stats := NoStats;
      requests := [];
      sleeps := [];
    }

    function Snapshot(): World
      reads this
    {
      World(cache, stats, requests, sleeps)
    }

    /** `_get_from_cache` */
    method GetFromCache(text: string) returns (l: Lookup)
      modifies this
      ensures (l, Snapshot()) == LookupWorld(old(Snapshot()), config, text)
    {
      if !config.enableCache {
        return Miss;
      }
      if text in cache {
        match cache[text] {
          case Malformed =>
            cache := cache - {text};
            return Miss;
          case NonObject =>
            stats := stats.(cacheHits := stats.cacheHits + 1);
            return LookupFailed(TypeError);
          case Object(c, ch, p, s, _) =>
            stats := stats.(cacheHits := stats.cacheHits + 1);
            if c.Some? && ch.Some? && p.Some? {
              return Hit(CleaningResult(text, c.value, ch.value, p.value, s, true));
            }
            cache := cache - {text};
            return Miss;
        }
      }
      return Miss;
    }

    /** `_save_to_cache` */
    method SaveToCache(text: string, result: CleaningResult)
      modifies this
      ensures Snapshot() == SaveWorld(old(Snapshot()), config, text, result)
    {
      if !config.enableCache {
        return;
      }
      cache := cache[text := Object(Some(result.cleanedText), Some(result.changesMade),
                                    Some(result.profanityDetected), result.summary, Some(config.model))];
    }

    /** Lines 215-258 once a reply has arrived: count it, interpret it, cache a parsed result. */
    method HandleAnswer(text: string, answer: string, inputTokens: nat, outputTokens: nat) returns (r: Cleaned)
      modifies this
      ensures (r, Snapshot()) == Answered(old(Snapshot()), config, text, answer, inputTokens, outputTokens)
    {
      stats := stats.(apiCalls := stats.apiCalls + 1,
                      inputTokens := stats.inputTokens + inputTokens,
                      outputTokens := stats.outputTokens + outputTokens);
      r := Settle(text, Interpret(config.decode, text, answer));
    }

    /** The match on the interpreted reply. */
    method Settle(text: string, interp: Interpretation) returns (r: Cleaned)
      modifies this
      ensures (r, Snapshot()) == Settled(old(Snapshot()), config, text, interp)
    {
      match interp {
        case Parsed(result) =>
          SaveToCache(text, result);
          stats := stats.(totalProcessed := stats.totalProcessed + 1);
          return Done(result);
        case Unparsable =>
          return Done(FallbackResult(text));
        case Invalid(f) =>
          return Raised(f);
      }
    }

    /** `clean_post` */
    method CleanPost(text: string) returns (r: Cleaned)
      modifies this
      ensures (r, Snapshot()) == CleanSpec(old(Snapshot()), config, text)
    {
      var cached := GetFromCache(text);
      if cached.Hit? {
        return Done(cached.result);
      }
      if cached.LookupFailed? {
        return Raised(cached.failure);
      }
      ghost var end := TryFrom(Snapshot(), config, text, 0);
      var attempt: nat := 0;
      while attempt < config.maxRetries
        invariant TryFrom(Snapshot(), config, text, attempt) == end
        decreases config.maxRetries - attempt
      {
        ghost var before := Snapshot();
        var reply := config.replies(|requests|);
        requests := requests + [Request(config.model, MaxTokens(text), text)];
        assert Snapshot() == Sent(before, config, text);
        if reply.Answer? {
          TryFromAnswer(before, config, text, attempt);
          r := HandleAnswer(text, reply.text, reply.inputTokens, reply.outputTokens);
          return;
        }
        if attempt < config.maxRetries - 1 {
          TryFromRetry(before, config, text, attempt);
          sleeps := sleeps + [Pow2(attempt)];
        } else {
          TryFromGiveUp(before, config, text, attempt);
          return Raised(ErrorOf(reply));
        }
        attempt := attempt + 1;
      }
      return NoResult;
    }
  
    /** `clean_posts_batch` */
    method CleanPostsBatch(texts: seq<string>) returns (b: Batch)
      modifies this
      ensures (b, Snapshot()) == BatchSpec(old(Snapshot()), config, texts)
    {
      var found: seq<Entry> := [];
      var pending: seq<Pending> := [];
      ghost var scan := CheckCache(Snapshot(), config, texts, 0, [], []);
      for i: nat := 0 to |texts|
        invariant CheckCache(Snapshot(), config, texts, i, found, pending) == scan
      {
        var cached := GetFromCache(texts[i]);
        match cached {
          case Hit(r) => found := found + [Entry(i, Some(r))];
          case Miss => pending := pending + [Pending(i, texts[i])];
          case LookupFailed(f) => return BatchRaised(f);
        }
      }
      ghost var sweep := CleanPending(Snapshot(), config, pending, 0, found);
      for j: nat := 0 to |pending|
        invariant CleanPending(Snapshot(), config, pending, j, found) == sweep
      {
        var c := CleanPost(pending[j].text);
        match c {
          case Done(r) => found := found + [Entry(pending[j].index, Some(r))];
          case NoResult => found := found + [Entry(pending[j].index, None)];
          case Raised(f) => return BatchRaised(f);
        }
      }
      return Results(Values(SortByIndex(found)));
    }
  }
}

/**
 * Speech synthesis around the chunker, in tts.py: choosing the provider and its
 * limit, speaking a text in one request or in numbered chunks, writing the
 * ffmpeg concat list, and the intro + pause + main variant.
 *
 * Requests to the providers and ffmpeg runs are not performed; each routine
 * returns the ordered log of `Effect`s it would cause. Environment variables
 * are a map, and the temporary directories the source creates are parameters.
 */
module Synthesis {
  import opened Wrappers
  import opened Text
  import Chunker

  datatype Provider = ElevenLabs | OpenAI

  /** `provider == "openai"` selects OpenAI; every other name takes the ElevenLabs path. */
  function ProviderOf(name: string): Provider {
    if name == "openai" then OpenAI else ElevenLabs
  }

  /** Texts up to this length are sent in one request. */
  function MaxChars(p: Provider): nat {
    match p
    case ElevenLabs => 9000
    case OpenAI => 4000
  }

  function OutputFormat(p: Provider): string {
    match p
    case ElevenLabs => "mp3_44100_128"
    case OpenAI => "mp3"
  }

  function ApiKeyVar(p: Provider): string {
    match p
    case ElevenLabs => "ELEVENLABS_API_KEY"
    case OpenAI => "OPENAI_API_KEY"
  }

  function VoiceVar(p: Provider): string {
    match p
    case ElevenLabs => "VOICE_ID"
    case OpenAI => "OPENAI_VOICE"
  }

  function ModelVar(p: Provider): string {
    match p
    case ElevenLabs => "MODEL_ID"
    case OpenAI => "OPENAI_MODEL"
  }

  function DefaultVoice(p: Provider): string {
    match p
    case ElevenLabs => "JBFqnCBsd6RMkjVDRZzb"
    case OpenAI => "cedar"
  }

  function DefaultModel(p: Provider): string {
    match p
    case ElevenLabs => "eleven_multilingual_v2"
    case OpenAI => "gpt-4o-mini-tts"
  }

  // ---------------------------------------------------------------------------
  // Environment.

  type Env = map<string, string>

  /** `os.getenv(name, default)` */
  function Getenv(env: Env, name: string, default: string): string {
    if name in env then env[name] else default
  }

  /** Python truthiness of an optional string: present and non-empty. */
  predicate Truthy(s: Option<string>) {
    s.Some? && s.value != []
  }

  /** Python `s or fallback` */
  function Or(s: Option<string>, fallback: string): (r: string)
    ensures Truthy(s) ==> r == s.value
    ensures !Truthy(s) ==> r == fallback
  {
    if Truthy(s) then s.value else fallback
  }

  /** `os.getenv(KEY)` is set and non-empty: otherwise the source raises ValueError. */
  predicate HasApiKey(env: Env, p: Provider) {
    ApiKeyVar(p) in env && env[ApiKeyVar(p)] != []
  }

  // ---------------------------------------------------------------------------
  // What a synthesis run does.

  datatype Effect =
    | Speak(text: string, voice: string, model: string, format: string, target: string)
    | Silence(seconds: real, target: string)
    | WriteFile(target: string, content: string)
    | ConcatAudio(listFile: string, target: string)

  datatype Synthesis = Produced(effects: seq<Effect>) | MissingApiKey(variable: string)

  /** `Path(dir) / name` */
  function Child(dir: string, name: string): string {
    dir + "/" + name
  }

  // ---------------------------------------------------------------------------
  // Chunk file names: `chunk_{i:03d}.mp3`.

  function Digit(d: int): (c: char)
    requires 0 <= d < 10
    ensures '0' <= c <= '9' && c as int - '0' as int == d
  {
    ('0' as int + d) as char
  }

  predicate IsDigits(s: string) {
    forall k :: 0 <= k < |s| ==> '0' <= s[k] <= '9'
  }

  /** Decimal digits of `n`, without leading zeros. */
  function Decimal(n: nat): (s: string)
    ensures |s| >= 1 && IsDigits(s)
    decreases n
  {
    if n < 10 then [Digit(n)] else Decimal(n / 10) + [Digit(n % 10)]
  }

  /** The number a digit string denotes. */
  function Value(s: string): int
    decreases |s|
  {
    if s == [] then 0 else Value(s[..|s| - 1]) * 10 + (s[|s| - 1] as int - '0' as int)
  }

  function Zeros(k: nat): (s: string)
    ensures |s| == k && IsDigits(s)
  {
    seq(k, _ => '0')
  }

  /** `f"{n:03d}"`: zero-padded to at least three digits. */
  function Pad3(n: nat): (s: string)
    ensures IsDigits(s) && |s| >= 3
  {
    var d := Decimal(n);
    (if |d| < 3 then Zeros(3 - |d|) else []) + d
  }

  function ChunkPath(dir: string, i: nat): string {
    Child(dir, "chunk_" + Pad3(i) + ".mp3")
  }

  function ChunkPaths(dir: string, n: nat): (paths: seq<string>)
    ensures |paths| == n
    ensures forall i :: 0 <= i < n ==> paths[i] == ChunkPath(dir, i)
  {
    seq(n, i requires 0 <= i < n => ChunkPath(dir, i))
  }

  lemma {:induction false} ValueDecimal(n: nat)
    ensures Value(Decimal(n)) == n
    decreases n
  {
    var d := Decimal(n);
    assert d[..|d| - 1] == if n < 10 then [] else Decimal(n / 10);
    if n >= 10 {
      ValueDecimal(n / 10);
    }
  }

  lemma {:induction false} ValueZeros(k: nat)
    ensures Value(Zeros(k)) == 0
  {
    if k > 0 {
      assert Zeros(k)[..k - 1] == Zeros(k - 1);
      ValueZeros(k - 1);
    }
  }

  /** Leading zeros do not change the value. */
  lemma {:induction false} ValueAfterZeros(k: nat, s: string)
    ensures Value(Zeros(k) + s) == Value(s)
    decreases |s|
  {
    if s == [] {
      assert Zeros(k) + s == Zeros(k);
      ValueZeros(k);
    } else {
      var t := Zeros(k) + s;
      assert t[..|t| - 1] == Zeros(k) + s[..|s| - 1];
      ValueAfterZeros(k, s[..|s| - 1]);
    }
  }

  lemma ValuePad3(n: nat)
    ensures Value(Pad3(n)) == n
  {
    var k := Pad3Zeros(n);
    ValueDecimal(n);
    ValueAfterZeros(k, Decimal(n));
  }

  /** `Pad3(n)` is `Decimal(n)` after `k` zeros. */
  lemma Pad3Zeros(n: nat) returns (k: nat)
    ensures Pad3(n) == Zeros(k) + Decimal(n)
  {
    var d := Decimal(n);
    if |d| < 3 {
      k := 3 - |d|;
    } else {
      k := 0;
      assert Zeros(0) == [];
      assert [] + d == d;
    }
  }

  /** Different chunk indexes get different files, so no chunk's audio overwrites another's. */
  lemma ChunkPathInjective(dir: string, i: nat, j: nat)
    requires ChunkPath(dir, i) == ChunkPath(dir, j)
    ensures i == j
  {
    var pre := dir + "/" + "chunk_";
    var a, b := Pad3(i), Pad3(j);
    assert ChunkPath(dir, i) == pre + a + ".mp3";
    assert ChunkPath(dir, j) == pre + b + ".mp3";
    assert |a| == |b|;
    assert a == ChunkPath(dir, i)[|pre|..|pre| + |a|];
    assert b == ChunkPath(dir, j)[|pre|..|pre| + |b|];
    ValuePad3(i);
    ValuePad3(j);
  }

  lemma ChunkPathOneLine(dir: string, i: nat)
    requires '\n' !in dir
    ensures '\n' !in ChunkPath(dir, i)
  {
    var p := ChunkPath(dir, i);
    assert p == dir + "/chunk_" + Pad3(i) + ".mp3";
    forall k | 0 <= k < |p|
      ensures p[k] != '\n'
    {
      if k < |dir| {
        assert p[k] == dir[k];
      } else if k >= |dir| + 7 && k < |dir| + 7 + |Pad3(i)| {
        assert p[k] == Pad3(i)[k - |dir| - 7];
      }
    }
  }

  // ---------------------------------------------------------------------------
  // The ffmpeg concat list: one `file '<path>'` line per input, in order.

  function ListEntry(path: string): string {
    "file '" + path + "'"
  }

  function ListLines(paths: seq<string>): (lines: seq<string>)
    ensures |lines| == |paths|
    ensures forall k :: 0 <= k < |paths| ==> lines[k] == ListEntry(paths[k]) + "\n"
  {
    seq(|paths|, k requires 0 <= k < |paths| => ListEntry(paths[k]) + "\n")
  }

  function ListFile(paths: seq<string>): string {
    Concat(ListLines(paths))
  }

  function Entries(paths: seq<string>): (entries: seq<string>)
    ensures |entries| == |paths|
    ensures forall k :: 0 <= k < |paths| ==> entries[k] == ListEntry(paths[k])
  {
    seq(|paths|, k requires 0 <= k < |paths| => ListEntry(paths[k]))
  }

  /**
   * Read back line by line, the list file holds exactly one entry per input
   * path, in input order (then the empty remainder after the final newline).
   */
  lemma {:induction false} ListFileLines(paths: seq<string>)
    requires forall k :: 0 <= k < |paths| ==> '\n' !in paths[k]
    ensures Split(ListFile(paths), "\n") == Entries(paths) + [[]]
    decreases |paths|
  {
    if paths == [] {
      assert ListLines(paths) == [];
    } else {
      var e := ListEntry(paths[0]);
      ListFileCons(paths);
      EntryOneLine(paths[0]);
      SplitAtChar(e, '\n', ListFile(paths[1..]));
      ContainsChar(e, '\n');
      SplitWithout(e, "\n");
      ListFileLines(paths[1..]);
      EntriesCons(paths);
      SeqAssoc([e], Entries(paths[1..]), [[]]);
    }
  }

  lemma ListFileCons(paths: seq<string>)
    requires paths != []
    ensures ListFile(paths) == ListEntry(paths[0]) + ['\n'] + ListFile(paths[1..])
  {
    assert ListLines(paths) == [ListEntry(paths[0]) + "\n"] + ListLines(paths[1..]);
  }

  lemma EntriesCons(paths: seq<string>)
    requires paths != []
    ensures Entries(paths) == [ListEntry(paths[0])] + Entries(paths[1..])
  {
    assert Entries(paths) == [ListEntry(paths[0])] + Entries(paths[1..]);
  }

  /** A list entry of a path without a newline has none either. */
  lemma EntryOneLine(path: string)
    requires '\n' !in path
    ensures '\n' !in ListEntry(path)
  {
    var e := ListEntry(path);
    forall k | 0 <= k < |e|
      ensures e[k] != '\n'
    {
      if 6 <= k < 6 + |path| {
        assert e[k] == path[k - 6];
      }
    }
  }

  /** The two effects of `_concatenate_audio`. */
  function ConcatEffects(audioFiles: seq<string>, output: string, tmpdir: string): seq<Effect> {
    [WriteFile(Child(tmpdir, "files.txt"), ListFile(audioFiles)), ConcatAudio(Child(tmpdir, "files.txt"), output)]
  }

  /** `_concatenate_audio`: the list file is written line by line, then ffmpeg joins the files. */
  method ConcatenateAudio(audioFiles: seq<string>, output: string, tmpdir: string) returns (effects: seq<Effect>)
    ensures effects == ConcatEffects(audioFiles, output, tmpdir)
  {
    var listFile := Child(tmpdir, "files.txt");
    var content := "";
    for i := 0 to |audioFiles|
      invariant content == ListFile(audioFiles[..i])
    {
      assert ListLines(audioFiles[..i + 1]) == ListLines(audioFiles[..i]) + [ListEntry(audioFiles[i]) + "\n"];
      ConcatAppend(ListLines(audioFiles[..i]), [ListEntry(audioFiles[i]) + "\n"]);
      assert Concat([ListEntry(audioFiles[i]) + "\n"]) == ListEntry(audioFiles[i]) + "\n" + Concat([]);
      content := content + ("file '" + audioFiles[i] + "'\n");
    }
    assert audioFiles[..|audioFiles|] == audioFiles;
    effects := [WriteFile(listFile, content), ConcatAudio(listFile, output)];
  }

  // ---------------------------------------------------------------------------
  // Speaking a text.

  /** One request per chunk, chunk `i` into `chunk_{i:03d}.mp3`. */
  function ChunkRequests(p: Provider, chunks: seq<string>, voice: string, model: string, dir: string): (rs: seq<Effect>)
    ensures |rs| == |chunks|
    ensures forall i :: 0 <= i < |chunks| ==> rs[i] == Speak(chunks[i], voice, model, OutputFormat(p), ChunkPath(dir, i))
  {
    seq(|chunks|, i requires 0 <= i < |chunks| => Speak(chunks[i], voice, model, OutputFormat(p), ChunkPath(dir, i)))
  }

  /** `_generate_chunked` and `_generate_chunked_openai` */
  method GenerateChunked(p: Provider, chunks: seq<string>, output: string, voice: string, model: string, tmpdir: string)
    returns (effects: seq<Effect>)
    ensures effects == ChunkRequests(p, chunks, voice, model, tmpdir)
                       + ConcatEffects(ChunkPaths(tmpdir, |chunks|), output, tmpdir)
  {
    var audioFiles: seq<string> := [];
    effects := [];
    for i := 0 to |chunks|
      invariant audioFiles == ChunkPaths(tmpdir, i)
      invariant effects == ChunkRequests(p, chunks[..i], voice, model, tmpdir)
    {
      var chunkPath := Child(tmpdir, "chunk_" + Pad3(i) + ".mp3");
      effects := effects + [Speak(chunks[i], voice, model, OutputFormat(p), chunkPath)];
      audioFiles := audioFiles + [chunkPath];
    }
    assert chunks[..|chunks|] == chunks;
    var concat := ConcatenateAudio(audioFiles, output, tmpdir);
    effects := effects + concat;
  }

  /** What speaking `text` into `output` does: one request, or the chunked requests and a concatenation. */
  function SpeakText(p: Provider, text: string, voice: string, model: string, output: string, tmpdir: string): seq<Effect> {
    if |text| <= MaxChars(p) then
      [Speak(text, voice, model, OutputFormat(p), output)]
    else
      var chunks := Chunker.Chunks(text, MaxChars(p));
      ChunkRequests(p, chunks, voice, model, tmpdir) + ConcatEffects(ChunkPaths(tmpdir, |chunks|), output, tmpdir)
  }

  /** The text-length test and chunked branch shared by `_generate_elevenlabs` and `_generate_openai`. */
  method SpeakWith(p: Provider, text: string, voice: string, model: string, output: string, tmpdir: string)
    returns (effects: seq<Effect>)
    ensures effects == SpeakText(p, text, voice, model, output, tmpdir)
  {
    if |text| <= MaxChars(p) {
      effects := [Speak(text, voice, model, OutputFormat(p), output)];
    } else {
      var chunks := Chunker.ChunkText(text, MaxChars(p));
      effects := GenerateChunked(p, chunks, output, voice, model, tmpdir);
    }
  }

  /** The voice and model `generate_audio` settles on, and its outcome. */
  function AudioPlan(text: string, output: string, provider: string, voice: Option<string>, model: Option<string>,
                     env: Env, tmpdir: string): Synthesis
  {
    var p := ProviderOf(provider);
    var v := Or(voice, Getenv(env, VoiceVar(p), DefaultVoice(p)));
    var m := Or(model, Getenv(env, ModelVar(p), DefaultModel(p)));
    if !HasApiKey(env, p) then MissingApiKey(ApiKeyVar(p))
    else Produced(SpeakText(p, text, v, m, output, tmpdir))
  }

  /** `generate_audio` (with `_generate_elevenlabs` / `_generate_openai`). */
  method GenerateAudio(text: string, output: string, provider: string, voice: Option<string>, model: Option<string>,
                       env: Env, tmpdir: string) returns (r: Synthesis)
    ensures r == AudioPlan(text, output, provider, voice, model, env, tmpdir)
  {
    var p := if provider == "openai" then OpenAI else ElevenLabs;
    var v := Or(voice, Getenv(env, VoiceVar(p), DefaultVoice(p)));
    var m := Or(model, Getenv(env, ModelVar(p), DefaultModel(p)));
    var key := ApiKeyVar(p);
    if !(key in env && env[key] != []) {
      return MissingApiKey(key);
    }
    var effects := SpeakWith(p, text, v, m, output, tmpdir);
    r := Produced(effects);
  }

  /** The texts sent to the provider, in request order. */
  function Spoken(effects: seq<Effect>): seq<string>
    decreases |effects|
  {
    if effects == [] then []
    else (if effects[0].Speak? then [effects[0].text] else []) + Spoken(effects[1..])
  }

  lemma {:induction false} SpokenAppend(a: seq<Effect>, b: seq<Effect>)
    ensures Spoken(a + b) == Spoken(a) + Spoken(b)
    decreases |a|
  {
    if a == [] {
      assert a + b == b;
    } else {
      assert (a + b)[0] == a[0] && (a + b)[1..] == a[1..] + b;
      SpokenAppend(a[1..], b);
      SeqAssoc(if a[0].Speak? then [a[0].text] else [], Spoken(a[1..]), Spoken(b));
    }
  }

  lemma {:induction false} SpokenAllSpeak(rs: seq<Effect>)
    requires forall i :: 0 <= i < |rs| ==> rs[i].Speak?
    ensures |Spoken(rs)| == |rs|
    ensures forall i :: 0 <= i < |rs| ==> Spoken(rs)[i] == rs[i].text
    decreases |rs|
  {
    if rs != [] {
      SpokenAllSpeak(rs[1..]);
    }
  }

  /** The chunk files are pairwise distinct, and each is newline-free when the directory is. */
  lemma ChunkPathsDistinct(dir: string, n: nat)
    ensures var paths := ChunkPaths(dir, n);
      && (forall i, j :: 0 <= i < j < n ==> paths[i] != paths[j])
      && ('\n' !in dir ==> forall i :: 0 <= i < n ==> '\n' !in paths[i])
  {
    var paths := ChunkPaths(dir, n);
    forall i, j | 0 <= i < j < n ensures paths[i] != paths[j] {
      if ChunkPath(dir, i) == ChunkPath(dir, j) {
        ChunkPathInjective(dir, i, j);
      }
    }
    if '\n' !in dir {
      forall i | 0 <= i < n ensures '\n' !in paths[i] {
        ChunkPathOneLine(dir, i);
      }
    }
  }

  /** Every chunk request speaks its chunk, and no two of them write the same file. */
  lemma ChunkRequestsTargets(p: Provider, chunks: seq<string>, voice: string, model: string, dir: string)
    ensures var rs := ChunkRequests(p, chunks, voice, model, dir);
      && (forall i :: 0 <= i < |rs| ==> rs[i].Speak? && rs[i].text == chunks[i])
      && (forall i, j :: 0 <= i < j < |rs| ==> rs[i].target != rs[j].target)
  {
    var rs := ChunkRequests(p, chunks, voice, model, dir);
    forall i, j | 0 <= i < j < |rs| ensures rs[i].target != rs[j].target {
      if ChunkPath(dir, i) == ChunkPath(dir, j) {
        ChunkPathInjective(dir, i, j);
      }
    }
  }

  lemma SpokenRequests(p: Provider, chunks: seq<string>, voice: string, model: string, dir: string)
    ensures Spoken(ChunkRequests(p, chunks, voice, model, dir)) == chunks
  {
    SpokenAllSpeak(ChunkRequests(p, chunks, voice, model, dir));
  }

  lemma SpokenConcat(audioFiles: seq<string>, output: string, tmpdir: string)
    ensures Spoken(ConcatEffects(audioFiles, output, tmpdir)) == []
  {
    var es := ConcatEffects(audioFiles, output, tmpdir);
    assert es[1..][1..] == [];
    assert Spoken(es[1..]) == Spoken(es[1..][1..]);
  }

  /**
   * `generate_audio` sends the text in a single request exactly when it is at
   * most the provider's limit, 4000 characters for "openai" and 9000 for any
   * other provider name; otherwise it is chunked and the chunk audio concatenated.
   */
  lemma SingleRequestIffShort(text: string, output: string, provider: string, voice: Option<string>,
                              model: Option<string>, env: Env, tmpdir: string)
    requires AudioPlan(text, output, provider, voice, model, env, tmpdir).Produced?
    ensures var effects := AudioPlan(text, output, provider, voice, model, env, tmpdir).effects;
      (|effects| == 1 && effects[0].Speak? && effects[0].text == text)
      <==> |text| <= (if provider == "openai" then 4000 else 9000)
  {
  }

  /**
   * Chunked speech: request `i` speaks chunk `i` into `chunk_{i:03d}.mp3`, the
   * list file then names those files one per line in chunk order, and ffmpeg
   * joins them into the output.
   */
  lemma ChunkAudioInOrder(p: Provider, text: string, voice: string, model: string, output: string, tmpdir: string)
    requires |text| > MaxChars(p) && '\n' !in tmpdir
    ensures var chunks := Chunker.Chunks(text, MaxChars(p));
      var effects := SpeakText(p, text, voice, model, output, tmpdir);
      && |effects| == |chunks| + 2
      && (forall i :: 0 <= i < |chunks| ==>
            effects[i] == Speak(chunks[i], voice, model, OutputFormat(p), ChunkPath(tmpdir, i)))
      && effects[|chunks|].WriteFile?
      && Split(effects[|chunks|].content, "\n") == Entries(ChunkPaths(tmpdir, |chunks|)) + [[]]
      && effects[|chunks| + 1] == ConcatAudio(effects[|chunks|].target, output)
  {
    var n := |Chunker.Chunks(text, MaxChars(p))|;
    forall i | 0 <= i < n
      ensures '\n' !in ChunkPaths(tmpdir, n)[i]
    {
      ChunkPathOneLine(tmpdir, i);
    }
    ListFileLines(ChunkPaths(tmpdir, n));
  }

  /**
   * Whether sent whole or in chunks, the texts sent to the provider hold the
   * text's non-whitespace characters, none lost, repeated or reordered.
   */
  lemma SpokenTextKept(p: Provider, text: string, voice: string, model: string, output: string, tmpdir: string)
    ensures NonSpace(Concat(Spoken(SpeakText(p, text, voice, model, output, tmpdir)))) == NonSpace(text)
  {
    var effects := SpeakText(p, text, voice, model, output, tmpdir);
    if |text| <= MaxChars(p) {
      assert effects == [Speak(text, voice, model, OutputFormat(p), output)];
      assert effects[1..] == [];
      assert Spoken(effects) == [text] + Spoken(effects[1..]);
      assert Spoken(effects) == [text];
      assert Concat([text]) == text + Concat([]);
      assert Concat([text]) == text;
    } else {
      var chunks := Chunker.Chunks(text, MaxChars(p));
      var n := |chunks|;
      SpokenAppend(ChunkRequests(p, chunks, voice, model, tmpdir), ConcatEffects(ChunkPaths(tmpdir, n), output, tmpdir));
      SpokenRequests(p, chunks, voice, model, tmpdir);
      SpokenConcat(ChunkPaths(tmpdir, n), output, tmpdir);
      assert Spoken(effects) == chunks;
      Chunker.ChunksKeepText(text, MaxChars(p));
    }
  }

  // ---------------------------------------------------------------------------
  // Intro, pause, main.

  function IntroFile(tmpdir: string): string { Child(tmpdir, "intro.mp3") }
  function SilenceFile(tmpdir: string): string { Child(tmpdir, "silence.mp3") }
  function MainFile(tmpdir: string): string { Child(tmpdir, "main.mp3") }

  /** What `generate_audio_with_intro` does; `chunkDir` is the directory a chunked main part uses. */
  function IntroPlan(introText: string, mainText: string, output: string, provider: string, introVoice: string,
                     mainVoice: string, model: Option<string>, pause: real, env: Env, tmpdir: string,
                     chunkDir: string): Synthesis
  {
    var p := ProviderOf(provider);
    if !HasApiKey(env, p) then MissingApiKey(ApiKeyVar(p))
    else
      var m := Or(model, Getenv(env, ModelVar(p), DefaultModel(p)));
      Produced(IntroEffects(p, introText, mainText, output, introVoice, mainVoice, m, pause, tmpdir, chunkDir))
  }

  function IntroEffects(p: Provider, introText: string, mainText: string, output: string, introVoice: string,
                        mainVoice: string, model: string, pause: real, tmpdir: string, chunkDir: string): seq<Effect>
  {
    [Speak(introText, introVoice, model, OutputFormat(p), IntroFile(tmpdir)), Silence(pause, SilenceFile(tmpdir))]
    + SpeakText(p, mainText, mainVoice, model, MainFile(tmpdir), chunkDir)
    + ConcatEffects([IntroFile(tmpdir), SilenceFile(tmpdir), MainFile(tmpdir)], output, tmpdir)
  }

  /**
   * `generate_audio_with_intro`. The key is looked up again before the main
   * part, in the same environment, so that second check cannot fail and is
   * not repeated here; the model is re-resolved as in the source.
   */
  method GenerateAudioWithIntro(introText: string, mainText: string, output: string, provider: string,
                                introVoice: string, mainVoice: string, model: Option<string>, pause: real,
                                env: Env, tmpdir: string, chunkDir: string) returns (r: Synthesis)
    ensures r == IntroPlan(introText, mainText, output, provider, introVoice, mainVoice, model, pause, env, tmpdir, chunkDir)
  {
    var p := if provider == "openai" then OpenAI else ElevenLabs;
    var key := ApiKeyVar(p);
    if !(key in env && env[key] != []) {
      return MissingApiKey(key);
    }
    var introPath := IntroFile(tmpdir);
    var m := Or(model, Getenv(env, ModelVar(p), DefaultModel(p)));
    ghost var m0 := m;
    var effects := [Speak(introText, introVoice, m, OutputFormat(p), introPath)];
    var silencePath := SilenceFile(tmpdir);
    effects := effects + [Silence(pause, silencePath)];
    ghost var head := effects;
    var mainPath := MainFile(tmpdir);
    m := Or(Some(m), Getenv(env, ModelVar(p), DefaultModel(p)));
    assert m == m0;
    var mainEffects := SpeakWith(p, mainText, mainVoice, m, mainPath, chunkDir);
    effects := effects + mainEffects;
    var concat := ConcatenateAudio([introPath, silencePath, mainPath], output, tmpdir);
    effects := effects + concat;
    assert effects == head + mainEffects + concat;
    assert effects == IntroEffects(p, introText, mainText, output, introVoice, mainVoice, m, pause, tmpdir, chunkDir);
    r := Produced(effects);
  }

  /** Where the parts of a two-effect opening, a body and a two-effect close sit. */
  lemma Framed<T>(head: seq<T>, body: seq<T>, tail: seq<T>)
    requires |head| == 2 && |body| >= 1 && |tail| == 2
    ensures var es := head + body + tail;
      && |es| >= 5 && es[0] == head[0] && es[1] == head[1] && es[2] == body[0]
      && es[|es| - 2] == tail[0] && es[|es| - 1] == tail[1]
  {
  }

  /**
   * The intro goes out in one request whatever its length, then the pause,
   * then the main part (whole exactly when within the limit); the final list
   * file names intro, silence and main, in that order.
   */
  lemma IntroPartsInOrder(introText: string, mainText: string, output: string, provider: string, introVoice: string,
                          mainVoice: string, model: Option<string>, pause: real, env: Env, tmpdir: string,
                          chunkDir: string)
    requires IntroPlan(introText, mainText, output, provider, introVoice, mainVoice, model, pause, env, tmpdir, chunkDir).Produced?
    requires '\n' !in tmpdir
    ensures var p := ProviderOf(provider);
      var es := IntroPlan(introText, mainText, output, provider, introVoice, mainVoice, model, pause, env, tmpdir, chunkDir).effects;
      && |es| >= 5
      && es[0].Speak? && es[0].text == introText && es[0].voice == introVoice && es[0].target == IntroFile(tmpdir)
      && es[1] == Silence(pause, SilenceFile(tmpdir))
      && (|mainText| <= MaxChars(p) <==> es[2] == Speak(mainText, mainVoice, es[0].model, OutputFormat(p), MainFile(tmpdir)))
      && es[|es| - 2].WriteFile?
      && Split(es[|es| - 2].content, "\n")
         == [ListEntry(IntroFile(tmpdir)), ListEntry(SilenceFile(tmpdir)), ListEntry(MainFile(tmpdir)), []]
      && es[|es| - 1] == ConcatAudio(es[|es| - 2].target, output)
  {
    var p := ProviderOf(provider);
    var m := Or(model, Getenv(env, ModelVar(p), DefaultModel(p)));
    var head := [Speak(introText, introVoice, m, OutputFormat(p), IntroFile(tmpdir)), Silence(pause, SilenceFile(tmpdir))];
    var main := SpeakText(p, mainText, mainVoice, m, MainFile(tmpdir), chunkDir);
    var files := [IntroFile(tmpdir), SilenceFile(tmpdir), MainFile(tmpdir)];
    var tail := ConcatEffects(files, output, tmpdir);
    assert |main| >= 1;
    Framed(head, main, tail);
    IntroListFile(tmpdir);
    ChunkNotMain(chunkDir, tmpdir);
    SpeakWholeIff(p, mainText, mainVoice, m, MainFile(tmpdir), chunkDir);
  }

  lemma IntroListFile(tmpdir: string)
    requires '\n' !in tmpdir
    ensures Split(ListFile([IntroFile(tmpdir), SilenceFile(tmpdir), MainFile(tmpdir)]), "\n")
         == [ListEntry(IntroFile(tmpdir)), ListEntry(SilenceFile(tmpdir)), ListEntry(MainFile(tmpdir)), []]
  {
    var files := [IntroFile(tmpdir), SilenceFile(tmpdir), MainFile(tmpdir)];
    OneLineChild(tmpdir, "intro.mp3");
    OneLineChild(tmpdir, "silence.mp3");
    OneLineChild(tmpdir, "main.mp3");
    ListFileLines(files);
    assert Entries(files) == [ListEntry(files[0]), ListEntry(files[1]), ListEntry(files[2])];
  }

  /** The first effect speaks the whole text into `output` exactly when the text is within the limit. */
  lemma SpeakWholeIff(p: Provider, text: string, voice: string, model: string, output: string, dir: string)
    requires forall i: nat :: ChunkPath(dir, i) != output
    ensures var es := SpeakText(p, text, voice, model, output, dir);
      |es| >= 1 && (es[0] == Speak(text, voice, model, OutputFormat(p), output) <==> |text| <= MaxChars(p))
  {
    if |text| > MaxChars(p) {
      var n := |Chunker.Chunks(text, MaxChars(p))|;
      var es := SpeakText(p, text, voice, model, output, dir);
      if n > 0 {
        assert es[0].target == ChunkPath(dir, 0);
      } else {
        assert es[0].WriteFile?;
      }
    }
  }

  lemma OneLineChild(dir: string, name: string)
    requires '\n' !in dir && '\n' !in name
    ensures '\n' !in Child(dir, name)
  {
    var c := Child(dir, name);
    forall k | 0 <= k < |c|
      ensures c[k] != '\n'
    {
      if k < |dir| {
        assert c[k] == dir[k];
      } else if k > |dir| {
        assert c[k] == name[k - |dir| - 1];
      }
    }
  }

  /** A chunk file is never the main file: a chunk file's name has a digit right before ".mp3", "main.mp3" an "n". */
  lemma ChunkNotMain(chunkDir: string, tmpdir: string)
    ensures forall i: nat :: ChunkPath(chunkDir, i) != MainFile(tmpdir)
  {
    forall i: nat
      ensures ChunkPath(chunkDir, i) != MainFile(tmpdir)
    {
      var c, m := ChunkPath(chunkDir, i), MainFile(tmpdir);
      assert c[|c| - 5] == Pad3(i)[|Pad3(i)| - 1];
      assert m[|m| - 5] == 'n';
    }
  }
}

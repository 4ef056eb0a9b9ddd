/**
 * The single-request podcast generator of generate_podcast.py: the
 * profanity mask, the metadata intro and the text handed to ElevenLabs.
 *
 * `re.sub(r'\bword\b', mask, s, flags=re.IGNORECASE)` is modelled over ASCII:
 * word characters are ASCII letters, digits and `_`, and case folding maps
 * `A`-`Z` only.
 */
module Podcast {
  import opened Wrappers
  import opened Text
  import Synthesis

  /** One entry of `PROFANITY_MAP`: a whole word, matched in any case, and its mask. */
  datatype Rule = Rule(word: string, mask: string)

  /** `PROFANITY_MAP`, in insertion order (the order `clean_text` applies it). */
  const ProfanityMap: seq<Rule> := [
    Rule("fuck", "f***"),
    Rule("shit", "s***"),
    Rule("ass", "a**"),
    Rule("damn", "d***"),
    Rule("hell", "h***"),
    Rule("bitch", "b****"),
    Rule("bastard", "b******")
  ]

  predicate IsWordChar(c: char) {
    ('a' <= c <= 'z') || ('A' <= c <= 'Z') || ('0' <= c <= '9') || c == '_'
  }

  /** A lower-case word of at least two letters, masked by a same-length mask whose second character is `*`. */
  predicate Masking(r: Rule) {
    && |r.word| >= 2 && |r.mask| == |r.word| && r.mask[1] == '*'
    && forall k :: 0 <= k < |r.word| ==> 'a' <= r.word[k] <= 'z'
  }

  /** A lower-case word of at least two letters. */
  predicate LowerWord(v: string) {
    |v| >= 2 && forall k :: 0 <= k < |v| ==> 'a' <= v[k] <= 'z'
  }

  /** Every character of the mask after the first is `*`. */
  predicate StarMask(r: Rule) {
    forall k :: 1 <= k < |r.mask| ==> r.mask[k] == '*'
  }

  lemma ProfanityMapMasks()
    ensures forall j :: 0 <= j < |ProfanityMap| ==> Masking(ProfanityMap[j])
    ensures forall j :: 0 <= j < |ProfanityMap| ==> StarMask(ProfanityMap[j]) && LowerWord(ProfanityMap[j].word)
  {
  }

  /** `\bword\b` matches at position `i`, ignoring case. */
  predicate MatchAt(s: string, word: string, i: int) {
    && 0 <= i && i + |word| <= |s|
    && (forall k :: 0 <= k < |word| ==> LowerChar(s[i + k]) == word[k])
    && (i == 0 || !IsWordChar(s[i - 1]))
    && (i + |word| == |s| || !IsWordChar(s[i + |word|]))
  }

  /** `word` occurs in `s` as a whole word, in any case. */
  predicate Occurs(s: string, word: string) {
    exists i :: 0 <= i <= |s| && MatchAt(s, word, i)
  }

  /**
   * The part of `re.sub` from position `i` on: scanning left to right, each
   * match is replaced by the mask and the scan resumes after it. Word
   * boundaries are judged on the original string.
   */
  function SubFrom(s: string, r: Rule, i: nat): (out: string)
    requires |r.word| > 0 && i <= |s|
    ensures |r.mask| == |r.word| ==> |out| == |s| - i
    decreases |s| - i
  {
    if i == |s| then []
    else if MatchAt(s, r.word, i) then r.mask + SubFrom(s, r, i + |r.word|)
    else [s[i]] + SubFrom(s, r, i + 1)
  }

  function Sub(s: string, r: Rule): string
    requires |r.word| > 0
  {
    SubFrom(s, r, 0)
  }

  /** From position `i` on, the substitution changes nothing exactly when no match starts there or later. */
  lemma {:induction false} SubFromUnchanged(s: string, r: Rule, i: nat)
    requires Masking(r) && i <= |s|
    ensures SubFrom(s, r, i) == s[i..] <==> forall j :: i <= j <= |s| ==> !MatchAt(s, r.word, j)
    decreases |s| - i
  {
    var out := SubFrom(s, r, i);
    if i == |s| {
    } else if MatchAt(s, r.word, i) {
      assert out[1] == r.mask[1] == '*';
      assert LowerChar(s[i + 1]) == r.word[1];
      assert s[i..][1] == s[i + 1] != '*';
    } else {
      SubFromUnchanged(s, r, i + 1);
      assert s[i..] == [s[i]] + s[i + 1..];
    }
  }

  /** One substitution changes the text exactly when its word occurs as a whole word. */
  lemma SubUnchanged(s: string, r: Rule)
    requires Masking(r)
    ensures Sub(s, r) == s <==> !Occurs(s, r.word)
  {
    SubFromUnchanged(s, r, 0);
    assert s[0..] == s;
  }

  /** The text after the first `k` substitutions of `PROFANITY_MAP`. */
  function Masked(text: string, k: nat): (r: string)
    requires k <= |ProfanityMap|
    ensures |r| == |text|
  {
    if k == 0 then text else Sub(Masked(text, k - 1), ProfanityMap[k - 1])
  }

  /** Some substitution among the first `k` found its word in the text it was given. */
  predicate EditedBy(text: string, k: nat)
    requires k <= |ProfanityMap|
  {
    exists j :: 0 <= j < k && Occurs(Masked(text, j), ProfanityMap[j].word)
  }

  /**
   * `clean_text`: the seven substitutions in order. The text keeps its
   * length, none of the seven words is left in it as a whole word, and it is
   * reported edited exactly when some substitution found its word.
   */
  method CleanText(text: string) returns (cleaned: string, wasEdited: bool)
    ensures cleaned == Masked(text, |ProfanityMap|)
    ensures |cleaned| == |text|
    ensures forall j :: 0 <= j < |ProfanityMap| ==> !Occurs(cleaned, ProfanityMap[j].word)
    ensures wasEdited <==> EditedBy(text, |ProfanityMap|)
  {
    cleaned := text;
    wasEdited := false;
    ProfanityMapMasks();
    for k := 0 to |ProfanityMap|
      invariant cleaned == Masked(text, k)
      invariant wasEdited <==> EditedBy(text, k)
    {
      var rule := ProfanityMap[k];
      var newText := Sub(cleaned, rule);
      SubUnchanged(cleaned, rule);
      if newText != cleaned {
        wasEdited := true;
      }
      cleaned := newText;
    }
    MaskedClean(text, |ProfanityMap|);
  }

  /** A text in which none of the seven words occurs as a whole word is never changed. */
  lemma {:induction false} CleanUnchanged(text: string, k: nat)
    requires k <= |ProfanityMap|
    requires forall j :: 0 <= j < |ProfanityMap| ==> !Occurs(text, ProfanityMap[j].word)
    ensures Masked(text, k) == text && !EditedBy(text, k)
  {
    ProfanityMapMasks();
    if k > 0 {
      CleanUnchanged(text, k - 1);
      SubUnchanged(text, ProfanityMap[k - 1]);
    }
  }

  // ---------------------------------------------------------------------------
  // What the masking removes. A match needs letters, and a mask keeps only its
  // first letter, then a run of `*`, which is not a word character.

  /** The characters of a whole-word match of a lower-case word are word characters. */
  lemma MatchLetters(t: string, v: string, p: int)
    requires LowerWord(v) && MatchAt(t, v, p)
    ensures forall j :: p <= j < p + |v| ==> IsWordChar(t[j])
  {
    forall j | p <= j < p + |v| ensures IsWordChar(t[j]) {
      assert LowerChar(t[p + (j - p)]) == v[j - p] && 'a' <= v[j - p] <= 'z';
    }
  }

  /**
   * A run of `m` word characters at the start of the output from `j` on,
   * after a word character of the input, is copied from the input, and so is
   * the word boundary after it.
   */
  lemma {:induction false} CopiedRun(s: string, r: Rule, j: nat, m: nat)
    requires Masking(r) && 0 < j <= |s| && j + m <= |s| && IsWordChar(s[j - 1])
    requires forall k :: 0 <= k < m ==> IsWordChar(SubFrom(s, r, j)[k])
    requires j + m < |s| ==> !IsWordChar(SubFrom(s, r, j)[m])
    ensures SubFrom(s, r, j)[..m] == s[j..j + m]
    ensures j + m == |s| || !IsWordChar(s[j + m])
    decreases m
  {
    if j < |s| {
      var t := SubFrom(s, r, j);
      var u := SubFrom(s, r, j + 1);
      assert !MatchAt(s, r.word, j);
      assert t == [s[j]] + u;
      if m > 0 {
        assert IsWordChar(t[0]) && t[0] == s[j];
        forall k | 0 <= k < m - 1 ensures IsWordChar(u[k]) {
          assert u[k] == t[k + 1];
        }
        CopiedRun(s, r, j + 1, m - 1);
        assert t[..m] == [s[j]] + u[..m - 1];
        assert s[j..j + m] == [s[j]] + s[j + 1..j + m];
      }
    }
  }

  /** A match past a prefix `x` is a match in what follows it. */
  lemma ShiftMatch(x: string, u: string, v: string, p: int)
    requires |x| <= p && MatchAt(x + u, v, p)
    ensures MatchAt(u, v, p - |x|)
  {
    var t := x + u;
    var q := p - |x|;
    forall k | 0 <= k < |v| ensures LowerChar(u[q + k]) == v[k] {
      assert u[q + k] == t[p + k];
    }
    assert q + |v| < |u| ==> u[q + |v|] == t[p + |v|];
    assert q > 0 ==> u[q - 1] == t[p - 1];
  }

  /** No match of a lower-case word of two letters or more starts inside a mask: it would take in a `*`. */
  lemma MaskNoMatch(r: Rule, u: string, v: string, p: int)
    requires StarMask(r) && |r.mask| >= 2 && LowerWord(v) && 0 <= p < |r.mask|
    ensures !MatchAt(r.mask + u, v, p)
  {
    var t := r.mask + u;
    var k := if p == 0 then 1 else p;
    if p + |v| <= |t| {
      assert t[k] == r.mask[k] == '*';
      assert LowerChar(t[p + (k - p)]) != v[k - p];
    }
  }

  /**
   * A match at the start of the output from a position the scan copies is a
   * match in the input there, unless the input has a word character just
   * before it.
   */
  lemma CopiedMatch(s: string, r: Rule, v: string, i: nat)
    requires Masking(r) && LowerWord(v) && i <= |s| && !MatchAt(s, r.word, i)
    requires MatchAt(SubFrom(s, r, i), v, 0)
    ensures i < |s| && IsWordChar(s[i])
    ensures MatchAt(s, v, i) || (i > 0 && IsWordChar(s[i - 1]))
  {
    var t := SubFrom(s, r, i);
    var u := SubFrom(s, r, i + 1);
    assert t == [s[i]] + u;
    MatchLetters(t, v, 0);
    assert IsWordChar(t[0]) && t[0] == s[i];
    forall k | 0 <= k < |v| - 1 ensures IsWordChar(u[k]) {
      assert u[k] == t[k + 1];
    }
    assert i + |v| < |s| ==> u[|v| - 1] == t[|v|];
    CopiedRun(s, r, i + 1, |v| - 1);
    forall k | 0 <= k < |v| ensures LowerChar(s[i + k]) == v[k] {
      if k > 0 {
        assert s[i + k] == s[i + 1..i + |v|][k - 1] == u[..|v| - 1][k - 1] == t[k];
      }
    }
  }

  /** `v` is the rule's own word, or it has no whole-word match in the input from `i` on. */
  predicate Unmatched(s: string, r: Rule, v: string, i: nat) {
    v == r.word || forall j :: i <= j <= |s| ==> !MatchAt(s, v, j)
  }

  /**
   * A whole-word match of `v` in the output from `i` on, where `v` is the
   * rule's own word or has no match in the input from `i` on, can only sit
   * at the very start, on a copied character that follows a word character:
   * the output from position 0 has none.
   */
  lemma {:induction false} NoNewMatch(s: string, r: Rule, v: string, i: nat, p: nat)
    requires Masking(r) && StarMask(r) && LowerWord(v) && i <= |s| && Unmatched(s, r, v, i)
    requires MatchAt(SubFrom(s, r, i), v, p)
    ensures p == 0 && 0 < i < |s| && IsWordChar(s[i - 1]) && IsWordChar(s[i])
    decreases |s| - i, 1
  {
    if MatchAt(s, r.word, i) {
      NoMatchPastMask(s, r, v, i, p);
    } else if p >= 1 {
      NoMatchPastCopy(s, r, v, i, p);
    } else {
      CopiedMatch(s, r, v, i);
    }
  }

  /** Where the scan masks a match, no match of `v` begins in the output from there. */
  lemma {:induction false} NoMatchPastMask(s: string, r: Rule, v: string, i: nat, p: nat)
    requires Masking(r) && StarMask(r) && LowerWord(v) && i <= |s| && Unmatched(s, r, v, i)
    requires MatchAt(s, r.word, i)
    ensures !MatchAt(SubFrom(s, r, i), v, p)
    decreases |s| - i, 0
  {
    var n := |r.word|;
    if MatchAt(SubFrom(s, r, i), v, p) {
      MaskedCase(s, r, v, i, p);
      UnmatchedLater(s, r, v, i, i + n);
      NoNewMatch(s, r, v, i + n, p - n);
      assert false;
    }
  }

  lemma UnmatchedLater(s: string, r: Rule, v: string, i: nat, j: nat)
    requires i <= j && Unmatched(s, r, v, i)
    ensures Unmatched(s, r, v, j)
  {
  }

  /** Where the scan masks a match, a match in the output lies past the mask, on a word character. */
  lemma MaskedCase(s: string, r: Rule, v: string, i: nat, p: nat)
    requires Masking(r) && StarMask(r) && LowerWord(v) && i <= |s| && MatchAt(s, r.word, i)
    requires MatchAt(SubFrom(s, r, i), v, p)
    ensures |r.word| <= p && MatchAt(SubFrom(s, r, i + |r.word|), v, p - |r.word|)
    ensures i + |r.word| < |s| ==> !IsWordChar(s[i + |r.word|])
  {
    var t := SubFrom(s, r, i);
    var u := SubFrom(s, r, i + |r.word|);
    assert t == r.mask + u;
    if p < |r.mask| {
      MaskNoMatch(r, u, v, p);
      assert false;
    }
    ShiftMatch(r.mask, u, v, p);
  }

  /** Where the scan copies a character, no match of `v` begins in the output after it. */
  lemma {:induction false} NoMatchPastCopy(s: string, r: Rule, v: string, i: nat, p: nat)
    requires Masking(r) && StarMask(r) && LowerWord(v) && i <= |s| && Unmatched(s, r, v, i)
    requires !MatchAt(s, r.word, i) && 1 <= p
    ensures !MatchAt(SubFrom(s, r, i), v, p)
    decreases |s| - i, 0
  {
    if MatchAt(SubFrom(s, r, i), v, p) {
      CopiedCase(s, r, v, i, p);
      UnmatchedLater(s, r, v, i, i + 1);
      NoNewMatch(s, r, v, i + 1, p - 1);
      assert false;
    }
  }

  /** Where the scan copies a character, a later match in the output is one in the rest of it. */
  lemma CopiedCase(s: string, r: Rule, v: string, i: nat, p: nat)
    requires Masking(r) && i <= |s| && !MatchAt(s, r.word, i) && 1 <= p
    requires MatchAt(SubFrom(s, r, i), v, p)
    ensures i < |s| && MatchAt(SubFrom(s, r, i + 1), v, p - 1)
    ensures p == 1 ==> !IsWordChar(s[i])
  {
    var t := SubFrom(s, r, i);
    var u := SubFrom(s, r, i + 1);
    assert t == [s[i]] + u;
    ShiftMatch([s[i]], u, v, p);
  }

  /** After `re.sub`, the rule's word no longer occurs as a whole word. */
  lemma SubRemoves(s: string, r: Rule)
    requires Masking(r) && StarMask(r)
    ensures !Occurs(Sub(s, r), r.word)
  {
    if Occurs(Sub(s, r), r.word) {
      var q :| 0 <= q <= |Sub(s, r)| && MatchAt(Sub(s, r), r.word, q);
      NoNewMatch(s, r, r.word, 0, q);
    }
  }

  /** `re.sub` never creates a whole-word occurrence of a lower-case word of two letters or more. */
  lemma SubKeepsAbsent(s: string, r: Rule, v: string)
    requires Masking(r) && StarMask(r) && LowerWord(v) && !Occurs(s, v)
    ensures !Occurs(Sub(s, r), v)
  {
    if Occurs(Sub(s, r), v) {
      var q :| 0 <= q <= |Sub(s, r)| && MatchAt(Sub(s, r), v, q);
      NoNewMatch(s, r, v, 0, q);
    }
  }

  /** After the first `k` substitutions, none of their words occurs as a whole word. */
  lemma {:induction false} MaskedClean(text: string, k: nat)
    requires k <= |ProfanityMap|
    ensures forall j :: 0 <= j < k ==> !Occurs(Masked(text, k), ProfanityMap[j].word)
  {
    if k > 0 {
      MaskedClean(text, k - 1);
      ProfanityMapMasks();
      var before := Masked(text, k - 1);
      var rule := ProfanityMap[k - 1];
      SubRemoves(before, rule);
      forall j | 0 <= j < k - 1 ensures !Occurs(Masked(text, k), ProfanityMap[j].word) {
        SubKeepsAbsent(before, rule, ProfanityMap[j].word);
      }
    }
  }

  lemma NoMatchWithout(s: string, w: string)
    requires |w| > 0 && forall i :: 0 <= i < |s| ==> LowerChar(s[i]) != w[0]
    ensures !Occurs(s, w)
  {
    forall i | 0 <= i <= |s| ensures !MatchAt(s, w, i) {
      if i < |s| {
        assert LowerChar(s[i + 0]) != w[0];
      }
    }
  }

  lemma NoShitInAssess()
    ensures !Occurs("assess", "shit")
  {
    var a := "assess";
    forall i | 0 <= i <= |a| ensures !MatchAt(a, "shit", i) {
      if i + 4 <= |a| {
        if i == 0 { assert LowerChar(a[0]) != 's'; }
        else if i == 1 { assert LowerChar(a[1 + 1]) != "shit"[1]; }
        else { assert LowerChar(a[2 + 1]) != "shit"[1]; }
      }
    }
  }

  lemma NoAssInAssess()
    ensures !Occurs("assess", "ass")
  {
    var a := "assess";
    forall i | 0 <= i <= |a| ensures !MatchAt(a, "ass", i) {
      if i + 3 <= |a| {
        if i == 0 { assert IsWordChar(a[3]); }
        else { assert LowerChar(a[i + 0]) != "ass"[0]; }
      }
    }
  }

  lemma NoHellInHello()
    ensures !Occurs("hello", "hell")
  {
    var h := "hello";
    forall i | 0 <= i <= |h| ensures !MatchAt(h, "hell", i) {
      if i + 4 <= |h| {
        if i == 0 { assert IsWordChar(h[4]); }
        else { assert LowerChar(h[1 + 0]) != "hell"[0]; }
      }
    }
  }

  /** "assess" holds "ass" only inside a longer word, so it comes back as it is. */
  lemma AssessUnchanged()
    ensures Masked("assess", |ProfanityMap|) == "assess" && !EditedBy("assess", |ProfanityMap|)
  {
    var a := "assess";
    NoMatchWithout(a, "fuck");
    NoShitInAssess();
    NoAssInAssess();
    NoMatchWithout(a, "damn");
    NoMatchWithout(a, "hell");
    NoMatchWithout(a, "bitch");
    NoMatchWithout(a, "bastard");
    CleanUnchanged(a, |ProfanityMap|);
  }

  /** "hello" holds "hell" only inside a longer word, so it comes back as it is. */
  lemma HelloUnchanged()
    ensures Masked("hello", |ProfanityMap|) == "hello" && !EditedBy("hello", |ProfanityMap|)
  {
    var h := "hello";
    NoMatchWithout(h, "fuck");
    NoMatchWithout(h, "shit");
    NoMatchWithout(h, "ass");
    NoMatchWithout(h, "damn");
    NoHellInHello();
    NoMatchWithout(h, "bitch");
    NoMatchWithout(h, "bastard");
    CleanUnchanged(h, |ProfanityMap|);
  }

  lemma DamnMasked()
    ensures Sub("Damn it", Rule("damn", "d***")) == "d*** it"
  {
    var s := "Damn it";
    var r := Rule("damn", "d***");
    assert MatchAt(s, r.word, 0);
    forall i | 4 <= i <= |s| ensures !MatchAt(s, r.word, i) {
    }
    SubFromUnchanged(s, r, 4);
    assert s[4..] == " it";
  }

  lemma DamnItBefore()
    ensures Masked("Damn it", 3) == "Damn it"
  {
    var s := "Damn it";
    ProfanityMapMasks();
    NoMatchWithout(s, "fuck");
    NoMatchWithout(s, "shit");
    assert !Occurs(s, "ass") by {
      forall i | 0 <= i <= |s| ensures !MatchAt(s, "ass", i) {
        if i + 3 <= |s| {
          if i == 1 { assert LowerChar(s[1 + 1]) != "ass"[1]; }
          else { assert LowerChar(s[i + 0]) != "ass"[0]; }
        }
      }
    }
    SubUnchanged(s, ProfanityMap[0]);
    SubUnchanged(s, ProfanityMap[1]);
    SubUnchanged(s, ProfanityMap[2]);
  }

  lemma DamnItAfter()
    ensures !Occurs("d*** it", "hell") && !Occurs("d*** it", "bitch") && !Occurs("d*** it", "bastard")
  {
    var t := "d*** it";
    NoMatchWithout(t, "hell");
    NoMatchWithout(t, "bitch");
    NoMatchWithout(t, "bastard");
  }

  lemma StageKeeps(t: string, j: nat)
    requires j < |ProfanityMap| && !Occurs(t, ProfanityMap[j].word)
    ensures Sub(t, ProfanityMap[j]) == t
  {
    ProfanityMapMasks();
    SubUnchanged(t, ProfanityMap[j]);
  }

  /**
   * A capitalised word is masked too, and the mask is written in lower case:
   * "Damn it" becomes "d*** it" and counts as edited.
   */
  lemma CapitalisedMasked()
    ensures Masked("Damn it", |ProfanityMap|) == "d*** it" && EditedBy("Damn it", |ProfanityMap|)
  {
    var s := "Damn it";
    DamnItBefore();
    DamnMasked();
    assert Masked(s, 4) == "d*** it";
    DamnItAfter();
    StageKeeps("d*** it", 4);
    StageKeeps("d*** it", 5);
    StageKeeps("d*** it", 6);
    assert MatchAt(Masked(s, 3), ProfanityMap[3].word, 0);
  }

  // ---------------------------------------------------------------------------
  // The metadata intro.

  /** Python truthiness of an optional list: present and non-empty. */
  predicate ToolsGiven(tools: Option<seq<string>>) {
    tools.Some? && tools.value != []
  }

  const UrlLead: string := "This episode is based on a blog post available at "

  function UrlSentence(url: string): string {
    UrlLead + url + "."
  }

  const EditNote: string := "The text has been lightly edited for language."

  const ToolsLead: string := "This audio was generated using "

  function ToolsSentence(tools: seq<string>): string {
    ToolsLead + Join(tools, ", ") + "."
  }

  /** The sentences of the intro, in the order the source appends them. */
  function IntroParts(blogUrl: Option<string>, wasEdited: bool, aiTools: Option<seq<string>>): seq<string> {
    (if Synthesis.Truthy(blogUrl) then [UrlSentence(blogUrl.value)] else [])
    + (if wasEdited then [EditNote] else [])
    + (if ToolsGiven(aiTools) then [ToolsSentence(aiTools.value)] else [])
  }

  function MetadataIntro(text: string, blogUrl: Option<string>, wasEdited: bool, aiTools: Option<seq<string>>): string {
    var parts := IntroParts(blogUrl, wasEdited, aiTools);
    if parts == [] then text else Join(parts, " ") + "\n\n" + text
  }

  /** `add_metadata_intro` */
  method AddMetadataIntro(text: string, blogUrl: Option<string>, wasEdited: bool, aiTools: Option<seq<string>>)
    returns (full: string)
    ensures full == MetadataIntro(text, blogUrl, wasEdited, aiTools)
  {
    var introParts: seq<string> := [];
    if Synthesis.Truthy(blogUrl) {
      introParts := introParts + [UrlSentence(blogUrl.value)];
    }
    if wasEdited {
      introParts := introParts + [EditNote];
    }
    if ToolsGiven(aiTools) {
      var toolsStr := Join(aiTools.value, ", ");
      introParts := introParts + [ToolsLead + toolsStr + "."];
    }
    assert introParts == IntroParts(blogUrl, wasEdited, aiTools);
    if introParts != [] {
      var intro := Join(introParts, " ") + "\n\n";
      return intro + text;
    }
    return text;
  }

  /**
   * The text comes back unchanged exactly when there is no URL, no edit and
   * no tool; otherwise the intro sentences, joined by single spaces, and a
   * blank line come before it.
   */
  lemma MetadataShape(text: string, blogUrl: Option<string>, wasEdited: bool, aiTools: Option<seq<string>>)
    ensures var full := MetadataIntro(text, blogUrl, wasEdited, aiTools);
      var parts := IntroParts(blogUrl, wasEdited, aiTools);
      && EndsWith(full, text)
      && (full == text <==> !Synthesis.Truthy(blogUrl) && !wasEdited && !ToolsGiven(aiTools))
      && (parts != [] ==> full == Join(parts, " ") + "\n\n" + text)
  {
    var full := MetadataIntro(text, blogUrl, wasEdited, aiTools);
    var parts := IntroParts(blogUrl, wasEdited, aiTools);
    if parts != [] {
      assert full[|full| - |text|..] == text;
      assert |full| > |text|;
    }
  }

  /** The intro opens with the URL sentence when there is a URL, else with the edit note when there is one. */
  lemma MetadataOpens(text: string, blogUrl: Option<string>, wasEdited: bool, aiTools: Option<seq<string>>)
    ensures var full := MetadataIntro(text, blogUrl, wasEdited, aiTools);
      && (Synthesis.Truthy(blogUrl) ==> StartsWith(full, UrlSentence(blogUrl.value)))
      && (!Synthesis.Truthy(blogUrl) && wasEdited ==> StartsWith(full, EditNote))
  {
    var parts := IntroParts(blogUrl, wasEdited, aiTools);
    if parts != [] {
      JoinFirst(parts, " ");
      var j := Join(parts, " ");
      var full := MetadataIntro(text, blogUrl, wasEdited, aiTools);
      assert full == j + ("\n\n" + text);
      assert full[..|parts[0]|] == j[..|parts[0]|];
    }
  }

  /** With a tool list, the tools sentence closes the intro, just before the blank line and the text. */
  lemma MetadataCloses(text: string, blogUrl: Option<string>, wasEdited: bool, aiTools: Option<seq<string>>)
    requires ToolsGiven(aiTools)
    ensures exists before :: MetadataIntro(text, blogUrl, wasEdited, aiTools)
                             == before + ToolsSentence(aiTools.value) + "\n\n" + text
  {
    var parts := IntroParts(blogUrl, wasEdited, aiTools);
    var tools := ToolsSentence(aiTools.value);
    JoinLast(parts, " ");
    var j := Join(parts, " ");
    assert parts[|parts| - 1] == tools;
    var before := j[..|j| - |tools|];
    assert j == before + tools;
    assert MetadataIntro(text, blogUrl, wasEdited, aiTools) == before + tools + "\n\n" + text;
  }

  // ---------------------------------------------------------------------------
  // The text assembly of `generate_podcast_audio`.

  const PodcastModelVar: string := "MODEL_ID"
  const PodcastVoiceVar: string := "VOICE_ID"
  const PodcastDefaultModel: string := "eleven_multilingual_v2"
  const PodcastDefaultVoice: string := "JBFqnCBsd6RMkjVDRZzb"

  /** The returned metadata, with the one speech request made. */
  datatype Generation = Generation(
    speech: Synthesis.Effect,
    outputPath: string,
    wasEdited: bool,
    blogUrl: Option<string>,
    aiTools: seq<string>,
    textLength: nat)

  function PodcastPlan(text: string, outputPath: string, blogUrl: Option<string>, filterProfanity: bool,
                       voiceId: Option<string>, modelId: Option<string>, env: Synthesis.Env): Generation
  {
    var body := if filterProfanity then Masked(text, |ProfanityMap|) else text;
    var edited := filterProfanity && EditedBy(text, |ProfanityMap|);
    var model := Synthesis.Or(modelId, Synthesis.Getenv(env, PodcastModelVar, PodcastDefaultModel));
    var voice := Synthesis.Or(voiceId, Synthesis.Getenv(env, PodcastVoiceVar, PodcastDefaultVoice));
    var tools := ["ElevenLabs text-to-speech", model];
    var full := MetadataIntro(body, blogUrl, edited, Some(tools));
    Generation(Synthesis.Speak(full, voice, model, "mp3_44100_128", outputPath), outputPath, edited, blogUrl, tools, |full|)
  }

  /** `generate_podcast_audio`, up to the request; the audio bytes it writes are not modelled. */
  method GeneratePodcastAudio(text: string, outputPath: string, blogUrl: Option<string>, filterProfanity: bool,
                              voiceId: Option<string>, modelId: Option<string>, env: Synthesis.Env)
    returns (g: Generation)
    ensures g == PodcastPlan(text, outputPath, blogUrl, filterProfanity, voiceId, modelId, env)
  {
    var body := text;
    var wasEdited := false;
    if filterProfanity {
      body, wasEdited := CleanText(text);
    }
    var aiTools := ["ElevenLabs text-to-speech",
                    Synthesis.Or(modelId, Synthesis.Getenv(env, PodcastModelVar, PodcastDefaultModel))];
    var fullText := AddMetadataIntro(body, blogUrl, wasEdited, Some(aiTools));
    var voice := Synthesis.Or(voiceId, Synthesis.Getenv(env, PodcastVoiceVar, PodcastDefaultVoice));
    var model := Synthesis.Or(modelId, Synthesis.Getenv(env, PodcastModelVar, PodcastDefaultModel));
    var speech := Synthesis.Speak(fullText, voice, model, "mp3_44100_128", outputPath);
    return Generation(speech, outputPath, wasEdited, blogUrl, aiTools, |fullText|);
  }

  /**
   * The narrated text always carries the intro, since the tool list is never
   * empty: it ends with the tools sentence naming the model, a blank line and
   * the body, which is masked only when filtering is on. The reported length
   * is the length of the narrated text.
   */
  lemma PodcastText(text: string, outputPath: string, blogUrl: Option<string>, filterProfanity: bool,
                    voiceId: Option<string>, modelId: Option<string>, env: Synthesis.Env)
    ensures var g := PodcastPlan(text, outputPath, blogUrl, filterProfanity, voiceId, modelId, env);
      var body := if filterProfanity then Masked(text, |ProfanityMap|) else text;
      && g.textLength == |g.speech.text|
      && g.speech.model == g.aiTools[1]
      && (exists before :: g.speech.text == before + ToolsSentence(g.aiTools) + "\n\n" + body)
      && |body| == |text|
      && (!filterProfanity ==> !g.wasEdited && EndsWith(g.speech.text, text))
      && (Synthesis.Truthy(blogUrl) ==> StartsWith(g.speech.text, UrlSentence(blogUrl.value)))
  {
    var g := PodcastPlan(text, outputPath, blogUrl, filterProfanity, voiceId, modelId, env);
    var body := if filterProfanity then Masked(text, |ProfanityMap|) else text;
    var edited := filterProfanity && EditedBy(text, |ProfanityMap|);
    MetadataShape(body, blogUrl, edited, Some(g.aiTools));
    MetadataOpens(body, blogUrl, edited, Some(g.aiTools));
    MetadataCloses(body, blogUrl, edited, Some(g.aiTools));
  }
}

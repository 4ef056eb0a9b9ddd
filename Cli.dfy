/**
 * The intro that main.py's `episode` command puts before the narrated text:
 * an optional URL sentence, an optional edit note and a fixed closing
 * sentence, joined by single spaces and followed by a blank line.
 */
module Cli {
  import opened Wrappers
  import opened Text
  import Synthesis
  import Podcast

  /** The closing sentence, which opens like the tools sentence of generate_podcast.py. */
  const ClosingSentence: string :=
    Podcast.ToolsLead + "ElevenLabs text-to-speech and Claude AI for content preparation."

  /** The sentences of the intro, in the order `build_intro` appends them. */
  function IntroParts(blogUrl: Option<string>, wasEdited: bool): seq<string> {
    (if Synthesis.Truthy(blogUrl) then [Podcast.UrlSentence(blogUrl.value)] else [])
    + (if wasEdited then [Podcast.EditNote] else [])
    + [ClosingSentence]
  }

  function Intro(blogUrl: Option<string>, wasEdited: bool): string {
    Join(IntroParts(blogUrl, wasEdited), " ") + "\n\n"
  }

  /** `build_intro` */
  method BuildIntro(blogUrl: Option<string>, wasEdited: bool) returns (intro: string)
    ensures intro == Intro(blogUrl, wasEdited)
  {
    var parts: seq<string> := [];
    if Synthesis.Truthy(blogUrl) {
      parts := parts + [Podcast.UrlSentence(blogUrl.value)];
    }
    if wasEdited {
      parts := parts + [Podcast.EditNote];
    }
    parts := parts + [ClosingSentence];
    assert parts == IntroParts(blogUrl, wasEdited);
    return Join(parts, " ") + "\n\n";
  }

  /** `full_text = intro + text` in `episode`: the intro comes first and the body is a suffix. */
  function NarratedText(blogUrl: Option<string>, wasEdited: bool, text: string): (full: string)
    ensures StartsWith(full, Intro(blogUrl, wasEdited)) && EndsWith(full, text)
    ensures |full| == |Intro(blogUrl, wasEdited)| + |text|
  {
    var full := Intro(blogUrl, wasEdited) + text;
    assert full[|full| - |text|..] == text;
    full
  }

  /** The intro always ends with the closing sentence and a blank line. */
  lemma IntroCloses(blogUrl: Option<string>, wasEdited: bool)
    ensures EndsWith(Intro(blogUrl, wasEdited), ClosingSentence + "\n\n")
  {
    var parts := IntroParts(blogUrl, wasEdited);
    JoinLast(parts, " ");
    var j := Join(parts, " ");
    var intro := Intro(blogUrl, wasEdited);
    assert intro[|intro| - |ClosingSentence + "\n\n"|..] == j[|j| - |ClosingSentence|..] + "\n\n";
  }

  /** With neither a URL nor an edit, the intro is exactly the closing sentence and a blank line. */
  lemma PlainIntro(blogUrl: Option<string>)
    requires !Synthesis.Truthy(blogUrl)
    ensures Intro(blogUrl, false) == ClosingSentence + "\n\n"
  {
    assert IntroParts(blogUrl, false) == [ClosingSentence];
  }

  /** The intro opens with the URL sentence exactly when there is a URL. */
  lemma IntroOpens(blogUrl: Option<string>, wasEdited: bool)
    ensures Synthesis.Truthy(blogUrl) ==> StartsWith(Intro(blogUrl, wasEdited), Podcast.UrlSentence(blogUrl.value))
    ensures StartsWith(Intro(blogUrl, wasEdited), Podcast.UrlLead) <==> Synthesis.Truthy(blogUrl)
  {
    IntroFirst(blogUrl, wasEdited);
    if Synthesis.Truthy(blogUrl) {
      var first := Podcast.UrlSentence(blogUrl.value);
      assert StartsWith(first, Podcast.UrlLead) by {
        assert first == Podcast.UrlLead + (blogUrl.value + ".");
      }
      StartsWithTrans(Intro(blogUrl, wasEdited), first, Podcast.UrlLead);
    } else {
      PlainOpening(Intro(blogUrl, wasEdited), IntroParts(blogUrl, wasEdited)[0]);
    }
  }

  /** The intro opens with its first sentence. */
  lemma IntroFirst(blogUrl: Option<string>, wasEdited: bool)
    ensures StartsWith(Intro(blogUrl, wasEdited), IntroParts(blogUrl, wasEdited)[0])
    ensures Synthesis.Truthy(blogUrl) ==> IntroParts(blogUrl, wasEdited)[0] == Podcast.UrlSentence(blogUrl.value)
    ensures !Synthesis.Truthy(blogUrl) ==>
      IntroParts(blogUrl, wasEdited)[0] == Podcast.EditNote || IntroParts(blogUrl, wasEdited)[0] == ClosingSentence
  {
    var parts := IntroParts(blogUrl, wasEdited);
    JoinFirst(parts, " ");
    StartsWithAppend(Join(parts, " "), "\n\n", parts[0]);
  }

  /** Neither the edit note nor the closing sentence opens like the URL sentence. */
  lemma PlainOpening(intro: string, first: string)
    requires StartsWith(intro, first)
    requires first == Podcast.EditNote || first == ClosingSentence
    ensures !StartsWith(intro, Podcast.UrlLead)
  {
    assert intro[10] == first[10];
    assert Podcast.EditNote[10] == 'a' && Podcast.ToolsLead[10] == ' ';
    assert first[10] != 'd' == Podcast.UrlLead[10];
  }

  /**
   * The edit note is one of the parts exactly when the text was edited, and
   * then it sits just before the closing sentence, after the URL sentence.
   */
  lemma EditNotePlace(blogUrl: Option<string>, wasEdited: bool)
    ensures var parts := IntroParts(blogUrl, wasEdited);
      && (Podcast.EditNote in parts <==> wasEdited)
      && parts[|parts| - 1] == ClosingSentence
      && (wasEdited ==> |parts| >= 2 && parts[|parts| - 2] == Podcast.EditNote)
      && (Synthesis.Truthy(blogUrl) ==> parts[0] == Podcast.UrlSentence(blogUrl.value))
  {
    var parts := IntroParts(blogUrl, wasEdited);
    assert |Podcast.EditNote| < |ClosingSentence|;
    if Synthesis.Truthy(blogUrl) {
      assert |Podcast.UrlSentence(blogUrl.value)| > |Podcast.EditNote|;
    }
  }
}

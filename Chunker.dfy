/**
 * The text chunker of tts.py (`chunk_text`).
 *
 * A text is split at every "\n\n" into paragraphs. A paragraph longer than the
 * limit is broken into sentence pieces: every ". " becomes ".\n" and the result
 * is split at every "\n". Paragraphs and pieces ("units") are then accumulated
 * greedily into a buffer `current`; when the next unit would push the buffer
 * past the limit, the stripped buffer is emitted as a chunk. Paragraphs are
 * glued with "\n\n", pieces with a single space.
 *
 * `Chunks` is the specification (a left fold of `Step` over the units);
 * `ChunkText` is the source's nested loop, proved equal to it.
 */
module Chunker {
  import opened Text

  /** What the chunker accumulates: a whole paragraph, or a sentence piece of an overlong paragraph. */
  datatype Unit = Paragraph(text: string) | Piece(text: string)

  /** The loop state: the chunks emitted so far and the buffer. */
  datatype State = State(chunks: seq<string>, current: string)

  const Start: State := State([], [])

  function Paragraphs(text: string): seq<string> {
    Split(text, "\n\n")
  }

  /** `para.replace(". ", ".\n").split("\n")` */
  function Sentences(para: string): seq<string> {
    Split(Replace(para, ". ", ".\n"), "\n")
  }

  function Pieces(sentences: seq<string>): (us: seq<Unit>)
    ensures |us| == |sentences|
    ensures forall k :: 0 <= k < |us| ==> us[k] == Piece(sentences[k])
  {
    seq(|sentences|, k requires 0 <= k < |sentences| => Piece(sentences[k]))
  }

  /** The units one paragraph contributes. */
  function UnitsOf(para: string, maxChars: int): seq<Unit> {
    if |para| > maxChars then Pieces(Sentences(para)) else [Paragraph(para)]
  }

  function Units(paras: seq<string>, maxChars: int): seq<Unit>
    decreases |paras|
  {
    if paras == [] then []
    else Units(paras[..|paras| - 1], maxChars) + UnitsOf(paras[|paras| - 1], maxChars)
  }

  /** One iteration of the inner loop (a piece) or of the outer loop (a paragraph that fits). */
  function Step(st: State, u: Unit, maxChars: int): State {
    match u
    case Piece(sent) =>
      if |st.current| + |sent| + 2 > maxChars then
        State(if st.current != [] then st.chunks + [Strip(st.current)] else st.chunks, sent)
      else
        State(st.chunks, if st.current != [] then st.current + " " + sent else sent)
    case Paragraph(para) =>
      if |st.current| + |para| + 2 > maxChars then
        State(st.chunks + [Strip(st.current)], para)
      else
        State(st.chunks, if st.current != [] then st.current + "\n\n" + para else para)
  }

  function Run(st: State, us: seq<Unit>, maxChars: int): State
    decreases |us|
  {
    if us == [] then st else Step(Run(st, us[..|us| - 1], maxChars), us[|us| - 1], maxChars)
  }

  /** After the loop: a non-empty buffer is emitted, stripped. */
  function Finish(st: State): seq<string> {
    if st.current != [] then st.chunks + [Strip(st.current)] else st.chunks
  }

  /** `chunk_text(text, max_chars)` */
  function Chunks(text: string, maxChars: int): seq<string> {
    Finish(Run(Start, Units(Paragraphs(text), maxChars), maxChars))
  }

  lemma RunSnoc(st: State, us: seq<Unit>, u: Unit, maxChars: int)
    ensures Run(st, us + [u], maxChars) == Step(Run(st, us, maxChars), u, maxChars)
  {
    assert (us + [u])[..|us|] == us;
  }

  lemma {:induction false} RunAppend(st: State, a: seq<Unit>, b: seq<Unit>, maxChars: int)
    ensures Run(st, a + b, maxChars) == Run(Run(st, a, maxChars), b, maxChars)
    decreases |b|
  {
    if b == [] {
      assert a + b == a;
    } else {
      var b' := b[..|b| - 1];
      assert a + b == (a + b') + [b[|b| - 1]];
      assert b == b' + [b[|b| - 1]];
      RunSnoc(st, a + b', b[|b| - 1], maxChars);
      RunSnoc(Run(st, a, maxChars), b', b[|b| - 1], maxChars);
      RunAppend(st, a, b', maxChars);
    }
  }

  lemma UnitsSnoc(paras: seq<string>, para: string, maxChars: int)
    ensures Units(paras + [para], maxChars) == Units(paras, maxChars) + UnitsOf(para, maxChars)
  {
    assert (paras + [para])[..|paras|] == paras;
  }

  /** `f` applied to each element, the results concatenated in order. */
  function FlatMap<A, B>(xs: seq<A>, f: A -> seq<B>): seq<B>
    decreases |xs|
  {
    if xs == [] then [] else FlatMap(xs[..|xs| - 1], f) + f(xs[|xs| - 1])
  }

  lemma FlatMapSnoc<A, B>(xs: seq<A>, x: A, f: A -> seq<B>)
    ensures FlatMap(xs + [x], f) == FlatMap(xs, f) + f(x)
  {
    assert (xs + [x])[..|xs|] == xs;
  }

  lemma {:induction false} FlatMapAppend<A, B>(a: seq<A>, b: seq<A>, f: A -> seq<B>)
    ensures FlatMap(a + b, f) == FlatMap(a, f) + FlatMap(b, f)
    decreases |b|
  {
    if b == [] {
      assert a + b == a;
    } else {
      var b', x := b[..|b| - 1], b[|b| - 1];
      assert FlatMap(a + b, f) == FlatMap(a + b', f) + f(x) by {
        assert a + b == (a + b') + [x];
        FlatMapSnoc(a + b', x, f);
      }
      assert FlatMap(b, f) == FlatMap(b', f) + f(x) by {
        assert b' + [x] == b;
        FlatMapSnoc(b', x, f);
      }
      FlatMapAppend(a, b', f);
      SeqAssoc(FlatMap(a, f), FlatMap(b', f), f(x));
    }
  }

  function UnitsFn(maxChars: int): string -> seq<Unit> {
    p => UnitsOf(p, maxChars)
  }

  /** `Units` is `UnitsOf` mapped over the paragraphs. */
  lemma {:induction false} UnitsFlat(paras: seq<string>, maxChars: int)
    ensures Units(paras, maxChars) == FlatMap(paras, UnitsFn(maxChars))
    decreases |paras|
  {
    if paras != [] {
      UnitsFlat(paras[..|paras| - 1], maxChars);
    }
  }

  lemma UnitsAppend(a: seq<string>, b: seq<string>, maxChars: int)
    ensures Units(a + b, maxChars) == Units(a, maxChars) + Units(b, maxChars)
  {
    UnitsFlat(a + b, maxChars);
    UnitsFlat(a, maxChars);
    UnitsFlat(b, maxChars);
    FlatMapAppend(a, b, UnitsFn(maxChars));
  }

  lemma PiecesSnoc(sentences: seq<string>, k: nat)
    requires k < |sentences|
    ensures Pieces(sentences[..k + 1]) == Pieces(sentences[..k]) + [Piece(sentences[k])]
  {
  }

  /**
   * The loop of the source, statement for statement. It returns exactly the
   * specified chunks; every chunk is stripped, and no non-whitespace character
   * of the text is lost, duplicated or moved.
   */
  method ChunkText(text: string, maxChars: int) returns (chunks: seq<string>)
    ensures chunks == Chunks(text, maxChars)
    ensures forall k :: 0 <= k < |chunks| ==> IsStripped(chunks[k])
    ensures NonSpace(Concat(chunks)) == NonSpace(text)
  {
    var paragraphs := Split(text, "\n\n");
    chunks := [];
    var current := "";
    for i := 0 to |paragraphs|
      invariant State(chunks, current) == Run(Start, Units(paragraphs[..i], maxChars), maxChars)
    {
      var para := paragraphs[i];
      RunParagraphsSnoc(paragraphs, i, maxChars);
      chunks, current := AddParagraph(chunks, current, para, maxChars);
    }
    assert paragraphs[..|paragraphs|] == paragraphs;
    if current != [] {
      chunks := chunks + [Strip(current)];
    }
    assert chunks == Chunks(text, maxChars);
    ChunksStripped(text, maxChars);
    ChunksKeepText(text, maxChars);
  }

  /** One more paragraph runs its own units on the state the earlier ones left. */
  lemma RunParagraphsSnoc(paras: seq<string>, i: int, maxChars: int)
    requires 0 <= i < |paras|
    ensures Run(Start, Units(paras[..i + 1], maxChars), maxChars)
         == Run(Run(Start, Units(paras[..i], maxChars), maxChars), UnitsOf(paras[i], maxChars), maxChars)
  {
    TakeSnoc(paras, i);
    UnitsSnoc(paras[..i], paras[i], maxChars);
    RunAppend(Start, Units(paras[..i], maxChars), UnitsOf(paras[i], maxChars), maxChars);
  }

  /** The body of the outer loop: one paragraph, whole or as sentence pieces. */
  method AddParagraph(chunks0: seq<string>, current0: string, para: string, maxChars: int)
    returns (chunks: seq<string>, current: string)
    ensures State(chunks, current) == Run(State(chunks0, current0), UnitsOf(para, maxChars), maxChars)
  {
    chunks, current := chunks0, current0;
    if |para| > maxChars {
      var sentences := Split(Replace(para, ". ", ".\n"), "\n");
      chunks, current := AddPieces(chunks, current, sentences, maxChars);
    } else {
      RunSnoc(State(chunks0, current0), [], Paragraph(para), maxChars);
      assert [] + [Paragraph(para)] == [Paragraph(para)];
      if |current| + |para| + 2 > maxChars {
        chunks := chunks + [Strip(current)];
        current := para;
      } else {
        current := if current != [] then current + "\n\n" + para else para;
      }
    }
  }

  /** The inner loop of `chunk_text`, over the sentence pieces of one overlong paragraph. */
  method AddPieces(chunks0: seq<string>, current0: string, sentences: seq<string>, maxChars: int)
    returns (chunks: seq<string>, current: string)
    ensures State(chunks, current) == Run(State(chunks0, current0), Pieces(sentences), maxChars)
  {
    chunks, current := chunks0, current0;
    for k := 0 to |sentences|
      invariant State(chunks, current) == Run(State(chunks0, current0), Pieces(sentences[..k]), maxChars)
    {
      var sent := sentences[k];
      PiecesSnoc(sentences, k);
      RunSnoc(State(chunks0, current0), Pieces(sentences[..k]), Piece(sent), maxChars);
      if |current| + |sent| + 2 > maxChars {
        if current != [] {
          chunks := chunks + [Strip(current)];
        }
        current := sent;
      } else {
        current := if current != [] then current + " " + sent else sent;
      }
    }
    assert sentences[..|sentences|] == sentences;
  }

  // ---------------------------------------------------------------------------
  // Every chunk is stripped.

  predicate AllStripped(chunks: seq<string>) {
    forall k :: 0 <= k < |chunks| ==> IsStripped(chunks[k])
  }

  lemma {:induction false} RunStripped(st: State, us: seq<Unit>, maxChars: int)
    requires AllStripped(st.chunks)
    ensures AllStripped(Run(st, us, maxChars).chunks)
    decreases |us|
  {
    if us != [] {
      RunStripped(st, us[..|us| - 1], maxChars);
    }
  }

  /** Every chunk has no leading or trailing whitespace. */
  lemma ChunksStripped(text: string, maxChars: int)
    ensures AllStripped(Chunks(text, maxChars))
  {
    RunStripped(Start, Units(Paragraphs(text), maxChars), maxChars);
  }

  // ---------------------------------------------------------------------------
  // No non-whitespace character is dropped, duplicated or reordered.

  function Texts(us: seq<Unit>): (ts: seq<string>)
    ensures |ts| == |us|
  {
    seq(|us|, k requires 0 <= k < |us| => us[k].text)
  }

  /** The non-whitespace characters of an emitted-plus-buffered state. */
  function Seen(st: State): string {
    NonSpace(Concat(st.chunks) + st.current)
  }

  lemma ConcatSingle(x: string)
    ensures Concat([x]) == x
  {
    assert Concat([x]) == x + Concat([]);
  }

  lemma SeenEmit(chunks: seq<string>, current: string, next: string)
    ensures Seen(State(chunks + [Strip(current)], next)) == Seen(State(chunks, current)) + NonSpace(next)
  {
    ConcatAppend(chunks, [Strip(current)]);
    ConcatSingle(Strip(current));
    NonSpaceAppend(Concat(chunks) + Strip(current), next);
    NonSpaceAppend(Concat(chunks), Strip(current));
    NonSpaceAppend(Concat(chunks), current);
    NonSpaceStrip(current);
  }

  lemma SeenGlue(chunks: seq<string>, current: string, sep: string, next: string)
    requires AllSpace(sep)
    ensures Seen(State(chunks, current + sep + next)) == Seen(State(chunks, current)) + NonSpace(next)
  {
    assert Concat(chunks) + (current + sep + next) == ((Concat(chunks) + current) + sep) + next;
    NonSpaceAppend((Concat(chunks) + current) + sep, next);
    NonSpaceAppend(Concat(chunks) + current, sep);
    NonSpaceOfSpace(sep);
  }

  lemma SeenStep(st: State, u: Unit, maxChars: int)
    ensures Seen(Step(st, u, maxChars)) == Seen(st) + NonSpace(u.text)
  {
    var cur := st.current;
    if |cur| + |u.text| + 2 > maxChars && (u.Paragraph? || cur != []) {
      SeenEmit(st.chunks, cur, u.text);
    } else if cur != [] {
      SeenGlue(st.chunks, cur, if u.Piece? then " " else "\n\n", u.text);
    } else {
      assert st == State(st.chunks, [] + [] + []);
      SeenGlue(st.chunks, [], [], u.text);
      assert [] + [] + u.text == u.text;
    }
  }

  lemma {:induction false} SeenRun(us: seq<Unit>, maxChars: int)
    ensures Seen(Run(Start, us, maxChars)) == NonSpace(Concat(Texts(us)))
    decreases |us|
  {
    if us == [] {
      assert Concat(Start.chunks) + Start.current == [];
    } else {
      var us' := us[..|us| - 1];
      var u := us[|us| - 1];
      SeenRun(us', maxChars);
      SeenStep(Run(Start, us', maxChars), u, maxChars);
      assert Texts(us) == Texts(us') + [u.text];
      ConcatAppend(Texts(us'), [u.text]);
      ConcatSingle(u.text);
      NonSpaceAppend(Concat(Texts(us')), u.text);
    }
  }

  lemma SeenFinish(st: State)
    ensures NonSpace(Concat(Finish(st))) == Seen(st)
  {
    if st.current != [] {
      ConcatAppend(st.chunks, [Strip(st.current)]);
      ConcatSingle(Strip(st.current));
      NonSpaceAppend(Concat(st.chunks), Strip(st.current));
      NonSpaceAppend(Concat(st.chunks), st.current);
      NonSpaceStrip(st.current);
    } else {
      assert Concat(st.chunks) + st.current == Concat(st.chunks);
    }
  }

  /** The sentence pieces of a paragraph hold exactly its non-whitespace characters. */
  lemma SentencesKeepText(para: string)
    ensures NonSpace(Concat(Sentences(para))) == NonSpace(para)
  {
    var replaced := Replace(para, ". ", ".\n");
    assert NonSpace(". ") == "." by {
      assert ". "[1..] == " " && " "[1..] == [];
    }
    assert NonSpace(".\n") == "." by {
      assert ".\n"[1..] == "\n" && "\n"[1..] == [];
    }
    NonSpaceReplace(para, ". ", ".\n");
    JoinSplit(replaced, "\n");
    NonSpaceJoinConcat(Split(replaced, "\n"), "\n");
  }

  lemma UnitsOfKeepText(para: string, maxChars: int)
    ensures NonSpace(Concat(Texts(UnitsOf(para, maxChars)))) == NonSpace(para)
  {
    if |para| > maxChars {
      assert Texts(Pieces(Sentences(para))) == Sentences(para);
      SentencesKeepText(para);
    } else {
      assert Texts([Paragraph(para)]) == [para];
      ConcatSingle(para);
    }
  }

  lemma ConcatSnoc(ps: seq<string>, p: string)
    ensures Concat(ps + [p]) == Concat(ps) + p
  {
    ConcatAppend(ps, [p]);
    ConcatSingle(p);
  }

  lemma TextsAppend(xs: seq<Unit>, ys: seq<Unit>)
    ensures Texts(xs + ys) == Texts(xs) + Texts(ys)
  {
    forall k | 0 <= k < |xs| + |ys| ensures Texts(xs + ys)[k] == (Texts(xs) + Texts(ys))[k] {
      if k < |xs| {
        assert (xs + ys)[k] == xs[k];
      } else {
        assert (xs + ys)[k] == ys[k - |xs|];
      }
    }
  }

  lemma UnitsTextsSnoc(ps: seq<string>, p: string, maxChars: int)
    ensures Concat(Texts(Units(ps + [p], maxChars)))
            == Concat(Texts(Units(ps, maxChars))) + Concat(Texts(UnitsOf(p, maxChars)))
  {
    var us, up := Units(ps, maxChars), UnitsOf(p, maxChars);
    UnitsSnoc(ps, p, maxChars);
    TextsAppend(us, up);
    ConcatAppend(Texts(us), Texts(up));
  }

  lemma {:induction false} UnitsKeepText(paras: seq<string>, maxChars: int)
    ensures NonSpace(Concat(Texts(Units(paras, maxChars)))) == NonSpace(Concat(paras))
    decreases |paras|
  {
    if paras != [] {
      var ps, p := paras[..|paras| - 1], paras[|paras| - 1];
      assert paras == ps + [p];
      UnitsKeepText(ps, maxChars);
      UnitsOfKeepText(p, maxChars);
      UnitsTextsSnoc(ps, p, maxChars);
      ConcatSnoc(ps, p);
      NonSpaceAppend(Concat(Texts(Units(ps, maxChars))), Concat(Texts(UnitsOf(p, maxChars))));
      NonSpaceAppend(Concat(ps), p);
    }
  }

  /**
   * Content preservation: the non-whitespace characters of the concatenated
   * chunks are exactly those of the text, in the same order.
   */
  lemma ChunksKeepText(text: string, maxChars: int)
    ensures NonSpace(Concat(Chunks(text, maxChars))) == NonSpace(text)
  {
    var paras := Paragraphs(text);
    var us := Units(paras, maxChars);
    SeenFinish(Run(Start, us, maxChars));
    SeenRun(us, maxChars);
    UnitsKeepText(paras, maxChars);
    ParagraphsKeepText(text);
  }

  lemma ParagraphsKeepText(text: string)
    ensures NonSpace(Concat(Paragraphs(text))) == NonSpace(text)
  {
    JoinSplit(text, "\n\n");
    assert AllSpace("\n\n");
    NonSpaceJoinConcat(Paragraphs(text), "\n\n");
  }

  // ---------------------------------------------------------------------------
  // Shape: every chunk is a run of consecutive units, glued as the buffer glues them.

  /** The separator placed in front of a unit that joins a non-empty buffer. */
  function Sep(u: Unit): string {
    if u.Piece? then " " else "\n\n"
  }

  /** Units glued the way the buffer glues them: each one after its own separator. */
  function Glued(us: seq<Unit>): string
    decreases |us|
  {
    if us == [] then []
    else if |us| == 1 then us[0].text
    else Glued(us[..|us| - 1]) + Sep(us[|us| - 1]) + us[|us| - 1].text
  }

  lemma GluedSnoc(us: seq<Unit>, u: Unit)
    ensures Glued(us + [u]) == if us == [] then u.text else Glued(us) + Sep(u) + u.text
  {
    assert (us + [u])[..|us|] == us;
  }

  /** Cut positions into a sequence of length `n`: starting at 0, never decreasing, within bounds. */
  predicate IsCuts(cuts: seq<int>, n: int) {
    && |cuts| >= 1 && cuts[0] == 0 && cuts[|cuts| - 1] <= n
    && forall s, t :: 0 <= s <= t < |cuts| ==> cuts[s] <= cuts[t]
  }

  /** The stripped glued runs between consecutive cuts. */
  function Runs(us: seq<Unit>, cuts: seq<int>): (runs: seq<string>)
    requires IsCuts(cuts, |us|)
    ensures |runs| == |cuts| - 1
  {
    seq(|cuts| - 1, t requires 0 <= t < |cuts| - 1 => Strip(Glued(us[cuts[t]..cuts[t + 1]])))
  }

  lemma RunsSnocUnit(us: seq<Unit>, u: Unit, cuts: seq<int>)
    requires IsCuts(cuts, |us|)
    ensures IsCuts(cuts, |us| + 1) && Runs(us + [u], cuts) == Runs(us, cuts)
  {
    forall t | 0 <= t < |cuts| - 1
      ensures (us + [u])[cuts[t]..cuts[t + 1]] == us[cuts[t]..cuts[t + 1]]
    {
      assert cuts[t + 1] <= cuts[|cuts| - 1];
    }
  }

  lemma CutsSnoc(cuts: seq<int>, n: int, k: int)
    requires IsCuts(cuts, n) && cuts[|cuts| - 1] <= k <= n
    ensures IsCuts(cuts + [k], n)
  {
    var cuts' := cuts + [k];
    assert forall t :: 0 <= t < |cuts| ==> cuts'[t] == cuts[t];
    assert forall t :: 0 <= t < |cuts| ==> cuts[t] <= k;
  }

  /** The `t`-th run, spelled out. */
  lemma RunAt(us: seq<Unit>, cuts: seq<int>, t: int)
    requires IsCuts(cuts, |us|) && 0 <= t < |cuts| - 1
    ensures cuts[t] <= cuts[t + 1] <= |us|
    ensures Runs(us, cuts)[t] == Strip(Glued(us[cuts[t]..cuts[t + 1]]))
  {
    assert cuts[t + 1] <= cuts[|cuts| - 1];
  }

  lemma RunsSnocCutAt(us: seq<Unit>, cuts: seq<int>, k: int, t: int)
    requires IsCuts(cuts, |us|) && cuts[|cuts| - 1] <= k <= |us| && 0 <= t < |cuts|
    ensures IsCuts(cuts + [k], |us|)
    ensures Runs(us, cuts + [k])[t] == (Runs(us, cuts) + [Strip(Glued(us[cuts[|cuts| - 1]..k]))])[t]
  {
    var cuts' := cuts + [k];
    CutsSnoc(cuts, |us|, k);
    RunAt(us, cuts', t);
    if t < |cuts| - 1 {
      RunAt(us, cuts, t);
      assert cuts'[t] == cuts[t] && cuts'[t + 1] == cuts[t + 1];
    }
  }

  lemma RunsSnocCut(us: seq<Unit>, cuts: seq<int>, k: int)
    requires IsCuts(cuts, |us|) && cuts[|cuts| - 1] <= k <= |us|
    ensures IsCuts(cuts + [k], |us|)
    ensures Runs(us, cuts + [k]) == Runs(us, cuts) + [Strip(Glued(us[cuts[|cuts| - 1]..k]))]
  {
    CutsSnoc(cuts, |us|, k);
    var a, b := Runs(us, cuts + [k]), Runs(us, cuts) + [Strip(Glued(us[cuts[|cuts| - 1]..k]))];
    forall t | 0 <= t < |a|
      ensures a[t] == b[t]
    {
      RunsSnocCutAt(us, cuts, k, t);
    }
    SeqExt(a, b);
  }

  /**
   * A step on overflow (buffer, unit and two separator characters past the
   * limit) cuts: it emits the stripped buffer and restarts it with the unit,
   * except that a piece arriving at an empty buffer emits nothing. Without
   * overflow it starts an empty buffer with the unit or glues the unit on.
   */
  lemma StepCases(st: State, u: Unit, maxChars: int)
    ensures |st.current| + |u.text| + 2 > maxChars && (u.Paragraph? || st.current != [])
            ==> Step(st, u, maxChars) == State(st.chunks + [Strip(st.current)], u.text)
    ensures st.current == [] && (u.Piece? || |st.current| + |u.text| + 2 <= maxChars)
            ==> Step(st, u, maxChars) == State(st.chunks, u.text)
    ensures |st.current| + |u.text| + 2 <= maxChars && st.current != []
            ==> Step(st, u, maxChars) == State(st.chunks, st.current + Sep(u) + u.text)
  {
  }

  lemma AllSpaceAppend(a: string, b: string)
    requires AllSpace(a) && AllSpace(b)
    ensures AllSpace(a + b)
  {
    assert forall i :: 0 <= i < |a + b| ==> (a + b)[i] == if i < |a| then a[i] else b[i - |a|];
  }

  /**
   * The chunks are the runs between `cuts`, and the buffer is the glued run
   * after the last cut, up to leading whitespace `w` (from separators in front
   * of an empty sentence piece).
   */
  predicate Shaped(us: seq<Unit>, cuts: seq<int>, w: string, st: State) {
    && IsCuts(cuts, |us|)
    && st.chunks == Runs(us, cuts)
    && AllSpace(w) && Glued(us[cuts[|cuts| - 1]..]) == w + st.current
  }

  lemma GluedTail(us: seq<Unit>, u: Unit, j: int)
    requires 0 <= j <= |us|
    ensures Glued((us + [u])[j..]) == if us[j..] == [] then u.text else Glued(us[j..]) + Sep(u) + u.text
  {
    assert (us + [u])[j..] == us[j..] + [u];
    GluedSnoc(us[j..], u);
  }

  lemma ShapedCut(us: seq<Unit>, u: Unit, cuts: seq<int>, w: string, st: State)
    requires Shaped(us, cuts, w, st)
    ensures Shaped(us + [u], cuts + [|us|], [], State(st.chunks + [Strip(st.current)], u.text))
  {
    var j := cuts[|cuts| - 1];
    RunsSnocUnit(us, u, cuts);
    RunsSnocCut(us + [u], cuts, |us|);
    assert (us + [u])[j..|us|] == us[j..];
    StripSpacePrefix(w, st.current);
    assert (us + [u])[|us|..] == [u];
  }

  lemma ShapedGlue(us: seq<Unit>, u: Unit, cuts: seq<int>, w: string, st: State)
    requires Shaped(us, cuts, w, st) && st.current != []
    ensures Shaped(us + [u], cuts, w, State(st.chunks, st.current + Sep(u) + u.text))
  {
    var j := cuts[|cuts| - 1];
    RunsSnocUnit(us, u, cuts);
    GluedTail(us, u, j);
    assert us[j..] != [];
    SeqAssoc4(w, st.current, Sep(u), u.text);
  }

  lemma ShapedRestart(us: seq<Unit>, u: Unit, cuts: seq<int>, w: string, st: State) returns (w': string)
    requires Shaped(us, cuts, w, st) && st.current == []
    ensures Shaped(us + [u], cuts, w', State(st.chunks, u.text))
  {
    var j := cuts[|cuts| - 1];
    RunsSnocUnit(us, u, cuts);
    GluedTail(us, u, j);
    if us[j..] == [] {
      w' := [];
    } else {
      assert w + st.current == w;
      w' := w + Sep(u);
      AllSpaceAppend(w, Sep(u));
      assert Glued((us + [u])[j..]) == w' + u.text;
    }
  }

  lemma ShapedStart()
    ensures Shaped([], [0], [], Start)
  {
    assert Runs([], [0]) == [];
  }

  /** After any prefix of the units, the state is `Shaped` for some cuts. */
  lemma {:induction false} RunShape(us: seq<Unit>, maxChars: int) returns (cuts: seq<int>, w: string)
    ensures Shaped(us, cuts, w, Run(Start, us, maxChars))
    decreases |us|
  {
    if us == [] {
      cuts, w := [0], [];
      ShapedStart();
    } else {
      var us', u := us[..|us| - 1], us[|us| - 1];
      DropLast(us);
      var cuts', w' := RunShape(us', maxChars);
      cuts, w := ShapedSnoc(us', u, cuts', w', maxChars);
    }
  }

  lemma ShapedSnoc(us: seq<Unit>, u: Unit, cuts: seq<int>, w: string, maxChars: int)
    returns (cuts': seq<int>, w': string)
    requires Shaped(us, cuts, w, Run(Start, us, maxChars))
    ensures Shaped(us + [u], cuts', w', Run(Start, us + [u], maxChars))
  {
    RunSnoc(Start, us, u, maxChars);
    cuts', w' := ShapedStep(us, u, cuts, w, Run(Start, us, maxChars), maxChars);
  }

  lemma ShapedStep(us: seq<Unit>, u: Unit, cuts: seq<int>, w: string, st: State, maxChars: int)
    returns (cuts': seq<int>, w': string)
    requires Shaped(us, cuts, w, st)
    ensures Shaped(us + [u], cuts', w', Step(st, u, maxChars))
  {
    StepCases(st, u, maxChars);
    if Step(st, u, maxChars) == State(st.chunks + [Strip(st.current)], u.text) {
      ShapedCut(us, u, cuts, w, st);
      cuts', w' := cuts + [|us|], [];
    } else if st.current == [] {
      w' := ShapedRestart(us, u, cuts, w, st);
      cuts' := cuts;
    } else {
      ShapedGlue(us, u, cuts, w, st);
      cuts', w' := cuts, w;
    }
  }

  lemma LastRunStrip(us: seq<Unit>, cuts: seq<int>, w: string, st: State)
    requires Shaped(us, cuts, w, st)
    ensures Strip(Glued(us[cuts[|cuts| - 1]..|us|])) == Strip(st.current)
  {
    var j := cuts[|cuts| - 1];
    assert us[j..|us|] == us[j..];
    StripSpacePrefix(w, st.current);
  }

  lemma FinishShaped(us: seq<Unit>, cuts: seq<int>, w: string, st: State)
    requires Shaped(us, cuts, w, st)
    ensures IsCuts(cuts + [|us|], |us|)
    ensures Runs(us, cuts + [|us|]) == st.chunks + [Strip(st.current)]
  {
    RunsSnocCut(us, cuts, |us|);
    LastRunStrip(us, cuts, w, st);
  }

  lemma FinishEmpty(st: State)
    requires st.current == []
    ensures Finish(st) + [[]] == st.chunks + [Strip(st.current)]
  {
    StripEmpty(st.current);
  }

  lemma FinishRuns(us: seq<Unit>, c: seq<int>, w: string, st: State) returns (cuts: seq<int>)
    requires Shaped(us, c, w, st)
    ensures IsCuts(cuts, |us|) && cuts[|cuts| - 1] == |us|
    ensures Finish(st) == Runs(us, cuts) || Finish(st) + [[]] == Runs(us, cuts)
  {
    FinishShaped(us, c, w, st);
    if st.current == [] {
      FinishEmpty(st);
    }
    cuts := c + [|us|];
  }

  lemma FinishIsRuns(us: seq<Unit>, maxChars: int) returns (cuts: seq<int>)
    ensures IsCuts(cuts, |us|) && cuts[|cuts| - 1] == |us|
    ensures var chunks := Finish(Run(Start, us, maxChars));
      chunks == Runs(us, cuts) || chunks + [[]] == Runs(us, cuts)
  {
    var c, w := RunShape(us, maxChars);
    cuts := FinishRuns(us, c, w, Run(Start, us, maxChars));
  }

  /**
   * The chunks are the runs of units between cut points covering all units,
   * each glued with the units' own separators and stripped; when the last run
   * is whitespace only, it is not emitted.
   */
  lemma ChunksAreRuns(text: string, maxChars: int) returns (cuts: seq<int>)
    ensures var us := Units(Paragraphs(text), maxChars);
      && IsCuts(cuts, |us|) && cuts[|cuts| - 1] == |us|
      && (Chunks(text, maxChars) == Runs(us, cuts) || Chunks(text, maxChars) + [[]] == Runs(us, cuts))
  {
    cuts := FinishIsRuns(Units(Paragraphs(text), maxChars), maxChars);
  }

  // ---------------------------------------------------------------------------
  // When no paragraph is too long, chunks are runs of whole paragraphs joined by "\n\n".

  function AsParagraphs(paras: seq<string>): (us: seq<Unit>)
    ensures |us| == |paras|
    ensures forall i :: 0 <= i < |us| ==> us[i] == Paragraph(paras[i])
  {
    seq(|paras|, i requires 0 <= i < |paras| => Paragraph(paras[i]))
  }

  lemma {:induction false} UnitsOfShort(paras: seq<string>, maxChars: int)
    requires forall i :: 0 <= i < |paras| ==> |paras[i]| <= maxChars
    ensures Units(paras, maxChars) == AsParagraphs(paras)
    decreases |paras|
  {
    if paras != [] {
      UnitsOfShort(paras[..|paras| - 1], maxChars);
      assert AsParagraphs(paras) == AsParagraphs(paras[..|paras| - 1]) + [Paragraph(paras[|paras| - 1])];
    }
  }

  lemma {:induction false} GluedParagraphs(paras: seq<string>)
    ensures Glued(AsParagraphs(paras)) == Join(paras, "\n\n")
    decreases |paras|
  {
    if paras != [] {
      var ps, p := paras[..|paras| - 1], paras[|paras| - 1];
      assert paras == ps + [p];
      assert AsParagraphs(paras) == AsParagraphs(ps) + [Paragraph(p)];
      GluedSnoc(AsParagraphs(ps), Paragraph(p));
      GluedParagraphs(ps);
      if ps != [] {
        JoinSnoc(ps, p, "\n\n");
      }
    }
  }

  function ParagraphRuns(paras: seq<string>, cuts: seq<int>): (runs: seq<string>)
    requires IsCuts(cuts, |paras|)
    ensures |runs| == |cuts| - 1
  {
    seq(|cuts| - 1, t requires 0 <= t < |cuts| - 1 => Strip(Join(paras[cuts[t]..cuts[t + 1]], "\n\n")))
  }

  /**
   * With every paragraph within the limit, each chunk is a run of consecutive
   * whole paragraphs joined by "\n\n" and stripped; all paragraphs are covered in order.
   */
  lemma ShortParagraphsStayWhole(text: string, maxChars: int) returns (cuts: seq<int>)
    requires forall i :: 0 <= i < |Paragraphs(text)| ==> |Paragraphs(text)[i]| <= maxChars
    ensures var paras := Paragraphs(text);
      && IsCuts(cuts, |paras|) && cuts[|cuts| - 1] == |paras|
      && (Chunks(text, maxChars) == ParagraphRuns(paras, cuts)
          || Chunks(text, maxChars) + [[]] == ParagraphRuns(paras, cuts))
  {
    var paras := Paragraphs(text);
    cuts := ChunksAreRuns(text, maxChars);
    UnitsOfShort(paras, maxChars);
    RunsOfParagraphs(paras, cuts);
  }

  lemma RunsOfParagraphs(paras: seq<string>, cuts: seq<int>)
    requires IsCuts(cuts, |paras|)
    ensures Runs(AsParagraphs(paras), cuts) == ParagraphRuns(paras, cuts)
  {
    var a, b := Runs(AsParagraphs(paras), cuts), ParagraphRuns(paras, cuts);
    forall t | 0 <= t < |a|
      ensures a[t] == b[t]
    {
      RunsOfParagraphsAt(paras, cuts, t);
    }
    SeqExt(a, b);
  }

  lemma RunsOfParagraphsAt(paras: seq<string>, cuts: seq<int>, t: int)
    requires IsCuts(cuts, |paras|) && 0 <= t < |cuts| - 1
    ensures Runs(AsParagraphs(paras), cuts)[t] == ParagraphRuns(paras, cuts)[t]
  {
    RunAt(AsParagraphs(paras), cuts, t);
    RunOfParagraphs(paras, cuts[t], cuts[t + 1]);
  }

  lemma RunOfParagraphs(paras: seq<string>, a: int, b: int)
    requires 0 <= a <= b <= |paras|
    ensures Glued(AsParagraphs(paras)[a..b]) == Join(paras[a..b], "\n\n")
  {
    assert AsParagraphs(paras)[a..b] == AsParagraphs(paras[a..b]);
    GluedParagraphs(paras[a..b]);
  }

  // ---------------------------------------------------------------------------
  // Sentence pieces.

  /** The pieces rejoined with "\n" give back the rewritten paragraph, and no piece holds a "\n". */
  lemma SentencesRejoin(para: string)
    ensures Join(Sentences(para), "\n") == Replace(para, ". ", ".\n")
    ensures forall k :: 0 <= k < |Sentences(para)| ==> '\n' !in Sentences(para)[k]
  {
    var replaced := Replace(para, ". ", ".\n");
    JoinSplit(replaced, "\n");
    SplitPiecesFree(replaced, "\n");
    forall k, j | 0 <= k < |Sentences(para)| && 0 <= j < |Sentences(para)[k]|
      ensures Sentences(para)[k][j] != '\n'
    {
      var q := Sentences(para)[k];
      assert !OccursAt(q, "\n", j);
      assert q[j..j + 1] == [q[j]];
    }
  }

  // ---------------------------------------------------------------------------
  // Size bound.

  /** A paragraph within the limit, or one whose sentence pieces all are. */
  predicate Speakable(para: string, maxChars: int) {
    |para| <= maxChars || forall k :: 0 <= k < |Sentences(para)| ==> |Sentences(para)[k]| <= maxChars
  }

  predicate Bounded(st: State, maxChars: int) {
    |st.current| <= maxChars && forall k :: 0 <= k < |st.chunks| ==> |st.chunks[k]| <= maxChars
  }

  predicate UnitsWithin(us: seq<Unit>, maxChars: int) {
    forall k :: 0 <= k < |us| ==> |us[k].text| <= maxChars
  }

  lemma {:induction false} RunBounded(st: State, us: seq<Unit>, maxChars: int)
    requires Bounded(st, maxChars) && UnitsWithin(us, maxChars)
    ensures Bounded(Run(st, us, maxChars), maxChars)
    decreases |us|
  {
    if us != [] {
      RunBounded(st, us[..|us| - 1], maxChars);
    }
  }

  lemma {:induction false} UnitsBounded(paras: seq<string>, maxChars: int)
    requires forall i :: 0 <= i < |paras| ==> Speakable(paras[i], maxChars)
    ensures UnitsWithin(Units(paras, maxChars), maxChars)
    decreases |paras|
  {
    if paras != [] {
      UnitsBounded(paras[..|paras| - 1], maxChars);
    }
  }

  /**
   * When every paragraph is within the limit or splits into sentence pieces
   * within it, every chunk is within the limit.
   */
  lemma ChunksWithinLimit(text: string, maxChars: int)
    requires forall i :: 0 <= i < |Paragraphs(text)| ==> Speakable(Paragraphs(text)[i], maxChars)
    ensures forall k :: 0 <= k < |Chunks(text, maxChars)| ==> |Chunks(text, maxChars)[k]| <= maxChars
  {
    var paras := Paragraphs(text);
    SpeakableLimit(paras[0], maxChars);
    UnitsBounded(paras, maxChars);
    RunBounded(Start, Units(paras, maxChars), maxChars);
  }

  /** Some paragraph being speakable means the limit is not negative. */
  lemma SpeakableLimit(para: string, maxChars: int)
    requires Speakable(para, maxChars)
    ensures maxChars >= 0
  {
    if |para| > maxChars {
      assert |Sentences(para)[0]| <= maxChars;
    }
  }

  // ---------------------------------------------------------------------------
  // A unit longer than the limit becomes a chunk of its own, whole.

  /** `x` is already emitted, or is the whole buffer. */
  predicate Pending(st: State, x: string) {
    Strip(x) in st.chunks || st.current == x
  }

  lemma {:induction false} RunPending(st: State, us: seq<Unit>, maxChars: int, x: string)
    requires |x| > maxChars && x != [] && Pending(st, x)
    ensures Pending(Run(st, us, maxChars), x)
    decreases |us|
  {
    if us != [] {
      RunPending(st, us[..|us| - 1], maxChars, x);
    }
  }

  lemma OversizeUnitEmitted(us: seq<Unit>, i: int, maxChars: int)
    requires 0 <= i < |us| && |us[i].text| > maxChars && us[i].text != []
    ensures Strip(us[i].text) in Finish(Run(Start, us, maxChars))
  {
    var x := us[i].text;
    Around(us, i);
    RunAppend(Start, us[..i] + [us[i]], us[i + 1..], maxChars);
    RunSnoc(Start, us[..i], us[i], maxChars);
    RunPending(Run(Start, us[..i + 1], maxChars), us[i + 1..], maxChars, x);
    assert us[..i] + [us[i]] == us[..i + 1];
  }

  lemma UnitsAt(paras: seq<string>, i: int, maxChars: int) returns (before: int)
    requires 0 <= i < |paras|
    ensures 0 <= before && before + |UnitsOf(paras[i], maxChars)| <= |Units(paras, maxChars)|
    ensures Units(paras, maxChars)[before..before + |UnitsOf(paras[i], maxChars)|] == UnitsOf(paras[i], maxChars)
  {
    var a, b, c := Units(paras[..i], maxChars), UnitsOf(paras[i], maxChars), Units(paras[i + 1..], maxChars);
    Around(paras, i);
    UnitsAppend(paras[..i] + [paras[i]], paras[i + 1..], maxChars);
    UnitsSnoc(paras[..i], paras[i], maxChars);
    MiddleSlice(a, b, c);
    before := |a|;
  }

  lemma MiddleSlice<T>(a: seq<T>, b: seq<T>, c: seq<T>)
    ensures |a| + |b| <= |(a + b) + c| && ((a + b) + c)[|a|..|a| + |b|] == b
  {
  }

  /**
   * A sentence piece longer than the limit is not cut: it appears, stripped,
   * as one of the chunks.
   */
  lemma OversizePieceKept(text: string, maxChars: int, i: int, k: int)
    requires 0 <= i < |Paragraphs(text)| && |Paragraphs(text)[i]| > maxChars
    requires 0 <= k < |Sentences(Paragraphs(text)[i])|
    requires |Sentences(Paragraphs(text)[i])[k]| > maxChars && Sentences(Paragraphs(text)[i])[k] != []
    ensures Strip(Sentences(Paragraphs(text)[i])[k]) in Chunks(text, maxChars)
  {
    var paras := Paragraphs(text);
    var idx := PieceIndex(paras, i, k, maxChars);
    OversizeUnitEmitted(Units(paras, maxChars), idx, maxChars);
  }

  lemma PieceIndex(paras: seq<string>, i: int, k: int, maxChars: int) returns (idx: int)
    requires 0 <= i < |paras| && |paras[i]| > maxChars && 0 <= k < |Sentences(paras[i])|
    ensures 0 <= idx < |Units(paras, maxChars)|
    ensures Units(paras, maxChars)[idx] == Piece(Sentences(paras[i])[k])
  {
    PieceOf(paras[i], k, maxChars);
    idx := UnitAt(paras, i, k, maxChars);
  }

  /** The `j`-th unit of paragraph `i` sits at position `idx` of all the units. */
  lemma UnitAt(paras: seq<string>, i: int, j: int, maxChars: int) returns (idx: int)
    requires 0 <= i < |paras| && 0 <= j < |UnitsOf(paras[i], maxChars)|
    ensures 0 <= idx < |Units(paras, maxChars)|
    ensures Units(paras, maxChars)[idx] == UnitsOf(paras[i], maxChars)[j]
  {
    var before := UnitsAt(paras, i, maxChars);
    SliceAt(Units(paras, maxChars), UnitsOf(paras[i], maxChars), before, j);
    idx := before + j;
  }

  lemma PieceOf(para: string, k: int, maxChars: int)
    requires |para| > maxChars && 0 <= k < |Sentences(para)|
    ensures k < |UnitsOf(para, maxChars)| && UnitsOf(para, maxChars)[k] == Piece(Sentences(para)[k])
  {
  }

  lemma SliceAt<T>(xs: seq<T>, ys: seq<T>, a: int, k: int)
    requires 0 <= a && a + |ys| <= |xs| && xs[a..a + |ys|] == ys && 0 <= k < |ys|
    ensures xs[a + k] == ys[k]
  {
    assert xs[a..a + |ys|][k] == xs[a + k];
  }

  // ---------------------------------------------------------------------------
  // An empty leading chunk.

  lemma {:induction false} RunGrows(st: State, us: seq<Unit>, maxChars: int)
    ensures st.chunks <= Run(st, us, maxChars).chunks
    decreases |us|
  {
    if us != [] {
      RunGrows(st, us[..|us| - 1], maxChars);
    }
  }

  /**
   * The paragraph test counts the two separator characters even when the
   * buffer is empty: a paragraph of at least `max_chars - 1` characters (in
   * the loop, one at the limit or one character short of it, since a longer
   * one is split into pieces) arriving at an empty buffer emits that empty
   * buffer as a chunk "".
   */
  lemma EmptyChunkStep(st: State, p: string, maxChars: int)
    requires st.current == [] && maxChars - 1 <= |p|
    ensures Step(st, Paragraph(p), maxChars) == State(st.chunks + [[]], p)
  {
    StripEmpty([]);
  }

  /** An empty paragraph after a buffer of at least `max_chars - 1` characters empties the buffer. */
  lemma EmptyParagraphResets(st: State, maxChars: int)
    requires |st.current| + 2 > maxChars
    ensures Step(st, Paragraph([]), maxChars) == State(st.chunks + [Strip(st.current)], [])
  {
  }

  /** The chunks of a state are a prefix of those after the final flush. */
  lemma FinishGrows(st: State)
    ensures st.chunks <= Finish(st)
  {
  }

  /**
   * Wherever it happens in the text: when the paragraphs before paragraph `i`
   * leave the buffer empty and paragraph `i` is at the limit or one character
   * short of it, the next chunk emitted is "".
   */
  lemma EmptyChunkAt(text: string, maxChars: int, i: int)
    requires 0 <= i < |Paragraphs(text)|
    requires maxChars - 1 <= |Paragraphs(text)[i]| <= maxChars
    requires Run(Start, Units(Paragraphs(text)[..i], maxChars), maxChars).current == []
    ensures var n := |Run(Start, Units(Paragraphs(text)[..i], maxChars), maxChars).chunks|;
      n < |Chunks(text, maxChars)| && Chunks(text, maxChars)[n] == []
  {
    var paras := Paragraphs(text);
    var p := paras[i];
    var before := Units(paras[..i], maxChars);
    var after := Units(paras[i + 1..], maxChars);
    var st := Run(Start, before, maxChars);
    ParagraphUnitsAround(paras, i, maxChars);
    RunAppend(Start, before + [Paragraph(p)], after, maxChars);
    RunSnoc(Start, before, Paragraph(p), maxChars);
    EmptyChunkStep(st, p, maxChars);
    var mid := Run(Start, before + [Paragraph(p)], maxChars);
    RunGrows(mid, after, maxChars);
    var last := Run(mid, after, maxChars);
    FinishGrows(last);
    assert mid.chunks == st.chunks + [[]];
    assert mid.chunks[|st.chunks|] == [];
  }

  /** The units of the paragraphs, split around a paragraph within the limit. */
  lemma ParagraphUnitsAround(paras: seq<string>, i: int, maxChars: int)
    requires 0 <= i < |paras| && |paras[i]| <= maxChars
    ensures Units(paras, maxChars)
         == (Units(paras[..i], maxChars) + [Paragraph(paras[i])]) + Units(paras[i + 1..], maxChars)
  {
    Around(paras, i);
    UnitsAppend(paras[..i] + [paras[i]], paras[i + 1..], maxChars);
    UnitsSnoc(paras[..i], paras[i], maxChars);
  }

  /** The first paragraph is the case with nothing before it. */
  lemma EmptyFirstChunk(text: string, maxChars: int)
    requires maxChars - 1 <= |Paragraphs(text)[0]| <= maxChars
    ensures |Chunks(text, maxChars)| >= 1 && Chunks(text, maxChars)[0] == []
  {
    var paras := Paragraphs(text);
    assert paras[..0] == [];
    assert Units([], maxChars) == [];
    assert Run(Start, [], maxChars) == Start;
    EmptyChunkAt(text, maxChars, 0);
  }
}

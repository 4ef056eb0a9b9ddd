/**
 * How cleaner.py reads the agent's closing summary: the text after the last
 * `CHANGES_MADE:` marker is the change list, the word `none` (in any case)
 * means nothing changed, and every stripped line that starts with `-` and
 * holds an arrow is one change.
 */
module AgentCleaner {
  import opened Text

  const Marker: string := "CHANGES_MADE:"
  const Arrow: char := '\U{2192}'

  /** `CleanResult`: the resolved path, whether the file was edited, and the reported changes. */
  datatype CleanResult = CleanResult(filePath: string, wasEdited: bool, changesMade: seq<string>)

  /** The last piece of `response.split("CHANGES_MADE:")`: the text after the last marker. */
  function RawSection(response: string): string {
    var pieces := Split(response, Marker);
    pieces[|pieces| - 1]
  }

  function Section(response: string): string {
    Strip(RawSection(response))
  }

  /** A stripped line that reports a change: it starts with `-` and holds an arrow. */
  predicate IsChangeLine(line: string) {
    StartsWith(line, "-") && Arrow in line
  }

  /** A section line reports a change once stripped. */
  predicate Reports(line: string) {
    IsChangeLine(Strip(line))
  }

  /** The change a section line reports: the stripped line without its dash, stripped again. */
  function ChangeText(line: string): string {
    var l := Strip(line);
    if l == [] then [] else Strip(l[1..])
  }

  /** `g` of every line satisfying `p`, in order. */
  function Collect(lines: seq<string>, p: string -> bool, g: string -> string): (r: seq<string>)
    ensures |r| <= |lines|
  {
    if lines == [] then []
    else
      var last := lines[|lines| - 1];
      Collect(lines[..|lines| - 1], p, g) + (if p(last) then [g(last)] else [])
  }

  /** The positions of the lines satisfying `p`. */
  function Picked(lines: seq<string>, p: string -> bool): (idx: seq<nat>)
    ensures forall k :: 0 <= k < |idx| ==> idx[k] < |lines|
  {
    if lines == [] then []
    else Picked(lines[..|lines| - 1], p) + (if p(lines[|lines| - 1]) then [|lines| - 1] else [])
  }

  /** The changes reported by `lines`, in order. */
  function ChangesIn(lines: seq<string>): seq<string> {
    Collect(lines, Reports, ChangeText)
  }

  function SectionLines(response: string): seq<string> {
    Split(Section(response), "\n")
  }

  /** What the parser makes of a response that has already been stripped. */
  function Parsed(filePath: string, response: string): CleanResult {
    if Contains(response, Marker) && Lower(Section(response)) != "none" then
      CleanResult(filePath, true, ChangesIn(SectionLines(response)))
    else
      CleanResult(filePath, false, [])
  }

  /** The loop over the section's lines. */
  method CollectChanges(lines: seq<string>) returns (changesMade: seq<string>)
    ensures changesMade == ChangesIn(lines)
  {
    changesMade := [];
    for i := 0 to |lines|
      invariant changesMade == ChangesIn(lines[..i])
    {
      var line := Strip(lines[i]);
      assert lines[..i + 1][..i] == lines[..i];
      assert Reports(lines[i]) == (StartsWith(line, "-") && Arrow in line);
      if StartsWith(line, "-") && Arrow in line {
        changesMade := changesMade + [Strip(line[1..])];
      }
    }
    assert lines[..|lines|] == lines;
  }

  /** The parsing part of `clean_file`: the message texts are joined, stripped and read. */
  method ParseResponse(filePath: string, responseParts: seq<string>) returns (r: CleanResult)
    ensures r == Parsed(filePath, Strip(Concat(responseParts)))
  {
    var responseText := Strip(Concat(responseParts));
    var changesMade: seq<string> := [];
    var wasEdited := false;
    if Contains(responseText, Marker) {
      var changesSection := Strip(RawSection(responseText));
      if Lower(changesSection) != "none" {
        wasEdited := true;
        changesMade := CollectChanges(Split(changesSection, "\n"));
      }
    }
    return CleanResult(filePath, wasEdited, changesMade);
  }

  /** Without the marker nothing counts as edited, whatever else the agent wrote. */
  lemma NoMarkerNoEdit(filePath: string, response: string)
    requires !Contains(response, Marker)
    ensures !Parsed(filePath, response).wasEdited && Parsed(filePath, response).changesMade == []
  {
  }

  /** The file counts as edited exactly when there is a marker and the section after it is not `none`. */
  lemma EditedIff(filePath: string, response: string)
    ensures Parsed(filePath, response).wasEdited
            <==> Contains(response, Marker) && Lower(Section(response)) != "none"
  {
  }

  /** Any reported change means the file counts as edited; there are no more changes than section lines. */
  lemma ChangesImplyEdited(filePath: string, response: string)
    ensures var r := Parsed(filePath, response);
      && (r.changesMade != [] ==> r.wasEdited)
      && (r.wasEdited ==> |r.changesMade| <= |SectionLines(response)|)
  {
  }

  /** The section read is what follows the last marker: it is preceded by a marker and holds none itself. */
  lemma SectionAfterLastMarker(response: string)
    requires Contains(response, Marker)
    ensures exists before :: response == before + Marker + RawSection(response)
    ensures !Contains(RawSection(response), Marker)
  {
    var pieces := Split(response, Marker);
    SplitWith(response, Marker);
    JoinSplit(response, Marker);
    SplitPiecesFree(response, Marker);
    var last := pieces[|pieces| - 1];
    var front := pieces[..|pieces| - 1];
    DropLast(pieces);
    JoinSnoc(front, last, Marker);
    assert response == Join(front, Marker) + Marker + last;
  }

  /** A line's position is picked exactly when the line satisfies `p`. */
  lemma {:induction false} PickedComplete(lines: seq<string>, p: string -> bool)
    ensures forall i :: 0 <= i < |lines| ==> (p(lines[i]) <==> i in Picked(lines, p))
  {
    if lines != [] {
      var n := |lines| - 1;
      var front := lines[..n];
      PickedComplete(front, p);
      forall i | 0 <= i < |lines| ensures p(lines[i]) <==> i in Picked(lines, p) {
        if i < n {
          assert front[i] == lines[i];
        }
      }
    }
  }

  /** The picked positions increase. */
  lemma {:induction false} PickedIncrease(lines: seq<string>, p: string -> bool)
    ensures forall k, m :: 0 <= k < m < |Picked(lines, p)| ==> Picked(lines, p)[k] < Picked(lines, p)[m]
  {
    if lines != [] {
      PickedIncrease(lines[..|lines| - 1], p);
    }
  }

  /** The `k`-th collected value comes from the `k`-th picked line. */
  lemma {:induction false} CollectAtPicked(lines: seq<string>, p: string -> bool, g: string -> string)
    ensures |Collect(lines, p, g)| == |Picked(lines, p)|
    ensures forall k :: 0 <= k < |Picked(lines, p)| ==> Collect(lines, p, g)[k] == g(lines[Picked(lines, p)[k]])
  {
    if lines != [] {
      var n := |lines| - 1;
      var front := lines[..n];
      CollectAtPicked(front, p, g);
      var idx := Picked(lines, p);
      var before := Picked(front, p);
      forall k | 0 <= k < |idx| ensures Collect(lines, p, g)[k] == g(lines[idx[k]]) {
        if k < |before| {
          assert idx[k] == before[k];
          assert Collect(lines, p, g)[k] == Collect(front, p, g)[k];
          assert front[before[k]] == lines[before[k]];
        }
      }
    }
  }

  /**
   * The changes are the section lines that are change lines once stripped,
   * in their order: the `k`-th change comes from the `idx[k]`-th line, the
   * positions increase, and no change line is skipped.
   */
  lemma ChangesPicked(lines: seq<string>) returns (idx: seq<nat>)
    ensures |idx| == |ChangesIn(lines)|
    ensures forall k :: 0 <= k < |idx| ==>
      && idx[k] < |lines| && IsChangeLine(Strip(lines[idx[k]]))
      && ChangesIn(lines)[k] == Strip(Strip(lines[idx[k]])[1..])
    ensures forall k, m :: 0 <= k < m < |idx| ==> idx[k] < idx[m]
    ensures forall i :: 0 <= i < |lines| && IsChangeLine(Strip(lines[i])) ==> i in idx
  {
    idx := Picked(lines, Reports);
    PickedComplete(lines, Reports);
    PickedIncrease(lines, Reports);
    CollectAtPicked(lines, Reports, ChangeText);
    forall k | 0 <= k < |idx| ensures IsChangeLine(Strip(lines[idx[k]])) {
      assert Reports(lines[idx[k]]);
    }
  }

  /** Every reported change still holds the arrow of its line. */
  lemma ChangeHasArrow(line: string)
    requires Reports(line)
    ensures Arrow in ChangeText(line)
  {
    var l := Strip(line);
    var i :| 0 <= i < |l| && l[i] == Arrow;
    assert l[..1] == "-";
    assert l[0] == '-';
    assert l[1..][i - 1] == Arrow;
    StripKeeps(l[1..], Arrow);
  }

  lemma NoneSection()
    ensures Split("CHANGES_MADE: None", Marker) == [[], " None"]
  {
    var s := "CHANGES_MADE: None";
    assert s[..|Marker|] == Marker;
    assert s[|Marker|..] == " None";
    assert !Contains(" None", Marker);
    SplitWithout(" None", Marker);
  }

  lemma StripNone()
    ensures Strip(" None") == "None"
  {
    assert IsSpace(" None"[0]);
    assert !IsSpace("None"[0]);
    assert " None"[1..] == "None";
    assert TrimLeft(" None") == "None";
  }

  /** The agent's "nothing found" reply, in any case, means not edited. */
  lemma NoneReply(filePath: string)
    ensures Parsed(filePath, "CHANGES_MADE: None") == CleanResult(filePath, false, [])
  {
    var s := "CHANGES_MADE: None";
    assert OccursAt(s, Marker, 0);
    NoneSection();
    StripNone();
    assert Section(s) == "None";
    assert Lower("None") == "none";
  }
}

/**
  The state-update and display rules of the front end's `App` component: the
  markdown clean-up applied to each summary, the accordion title, the
  accordion open/closed map, and the loading-dot counter with the button label.
 */
module App {
  import opened Wrappers
  import Strings
  import JsStr

  // ---------------------------------------------------------------------------
  // processMarkdown
  // ---------------------------------------------------------------------------

  /** A line whose trimmed form starts with `*` is a bullet line. */
  predicate IsBullet(line: string) {
    JsStr.StartsWith(JsStr.Trim(line), '*')
  }

  /** One line as the loop leaves it: a bullet line is re-indented to a multiple of four spaces. */
  function ProcessLine(line: string): (r: string)
    ensures !IsBullet(line) ==> r == line
    ensures |r| <= |line|
  {
    if IsBullet(line) then
      Strings.StripSlice(line, JsStr.IsSpace);
      RoundDown(JsStr.LeadingSpaces(line));
      Strings.Repeat(' ', JsStr.LeadingSpaces(line) / 4 * 4) + JsStr.Trim(line)
    else line
  }

  /** The lines after processing, position by position. */
  function ProcessLines(lines: seq<string>): (r: seq<string>)
    ensures |r| == |lines|
  {
    Strings.Map(ProcessLine, lines)
  }

  /** Each processed line is the processed input line at the same position. */
  lemma ProcessLinesAt(lines: seq<string>, i: nat)
    requires i < |lines|
    ensures ProcessLines(lines)[i] == ProcessLine(lines[i])
  {
    Strings.MapAt(ProcessLine, lines, i);
  }

  /** Processed lines are no longer than the lines they come from. */
  lemma ProcessLinesShorter(lines: seq<string>)
    ensures forall i :: 0 <= i < |lines| ==> |ProcessLines(lines)[i]| <= |lines[i]|
  {
    forall i | 0 <= i < |lines| ensures |ProcessLines(lines)[i]| <= |lines[i]| {
      ProcessLinesAt(lines, i);
    }
  }

  /** What `processMarkdown(text)` returns: "" for an absent or empty text, and never longer than the text. */
  function ProcessedMarkdown(text: Option<string>): (r: string)
    ensures !Truthy(text) ==> r == ""
    ensures Truthy(text) ==> |r| <= |text.value|
  {
    if !Truthy(text) then ""
    else
      var lines := Strings.Split(text.value, '\n');
      ProcessLinesShorter(lines);
      Strings.JoinShorter(ProcessLines(lines), lines, "\n");
      Strings.JoinSplit(text.value, '\n');
      Strings.Join(ProcessLines(lines), "\n")
  }

  /**
    A line that is not a bullet is left alone. A bullet line becomes its trimmed
    text behind `4 * floor(n / 4)` spaces, `n` being its leading white-space
    count: its new indentation is a multiple of four, never more than `n`, and
    its trimmed text is the same.
   */
  lemma ProcessLineSpec(line: string)
    ensures !IsBullet(line) ==> ProcessLine(line) == line
    ensures IsBullet(line) ==>
              var n := JsStr.LeadingSpaces(line);
              var r := ProcessLine(line);
              var k := JsStr.LeadingSpaces(r);
              k == 4 * (n / 4) && k % 4 == 0 && k <= n
              && JsStr.Trim(r) == JsStr.Trim(line)
              && r == Strings.Repeat(' ', k) + JsStr.Trim(line)
              && IsBullet(r)
  {
    if IsBullet(line) {
      BulletLine(line);
      RoundDown(JsStr.LeadingSpaces(line));
    }
  }

  /** Rounding down to a multiple of four. */
  lemma RoundDown(n: nat)
    ensures n / 4 * 4 == 4 * (n / 4) && (4 * (n / 4)) % 4 == 0 && 4 * (n / 4) <= n
  {
  }

  lemma BulletLine(line: string)
    requires IsBullet(line)
    ensures var n := JsStr.LeadingSpaces(line);
            var r := ProcessLine(line);
            JsStr.LeadingSpaces(r) == n / 4 * 4 && JsStr.Trim(r) == JsStr.Trim(line)
            && r == Strings.Repeat(' ', n / 4 * 4) + JsStr.Trim(line) && IsBullet(r)
  {
    var n := JsStr.LeadingSpaces(line);
    var t := JsStr.Trim(line);
    var p := Strings.Repeat(' ', n / 4 * 4);
    assert Strings.AllWs(p, JsStr.IsSpace) by {
      forall i | 0 <= i < |p| ensures JsStr.IsSpace(p[i]) {
        assert p[i] == ' ';
      }
    }
    assert t[0] == '*';
    assert !JsStr.IsSpace(t[0]);
    assert ProcessLine(line) == p + t;
    Strings.LeadCountPrefix(p, t, JsStr.IsSpace);
    Strings.StripPrefix(p, t, JsStr.IsSpace);
  }

  /** A line without a newline stays without one. */
  lemma ProcessLineNoNewline(line: string)
    requires '\n' !in line
    ensures '\n' !in ProcessLine(line)
  {
    if IsBullet(line) {
      var t := JsStr.Trim(line);
      var i := Strings.LeadCount(line, JsStr.IsSpace);
      Strings.StripSlice(line, JsStr.IsSpace);
      assert forall j :: 0 <= j < |t| ==> t[j] == line[i + j];
      assert '\n' !in t;
    }
  }

  /** Processing a processed line changes nothing. */
  lemma ProcessLineIdempotent(line: string)
    ensures ProcessLine(ProcessLine(line)) == ProcessLine(line)
  {
    if IsBullet(line) {
      var n := JsStr.LeadingSpaces(line);
      var r := ProcessLine(line);
      BulletLine(line);
      BulletLine(r);
      RoundDownTwice(n);
    }
  }

  /** Rounding down to a multiple of four a second time changes nothing. */
  lemma RoundDownTwice(n: nat)
    ensures (n / 4 * 4) / 4 * 4 == n / 4 * 4
  {
  }

  /** Processing one more line appends its processed form. */
  lemma ProcessLinesSnoc(lines: seq<string>, i: nat, line: string)
    requires i < |lines| && line == ProcessLine(lines[i])
    ensures ProcessLines(lines[..i + 1]) == ProcessLines(lines[..i]) + [line]
  {
    assert lines[..i + 1][..i] == lines[..i];
  }

  /** Lines without a newline stay without one. */
  lemma ProcessLinesNoNewline(lines: seq<string>)
    requires forall i :: 0 <= i < |lines| ==> '\n' !in lines[i]
    ensures forall i :: 0 <= i < |lines| ==> '\n' !in ProcessLines(lines)[i]
  {
    forall i | 0 <= i < |lines| ensures '\n' !in ProcessLines(lines)[i] {
      ProcessLinesAt(lines, i);
      ProcessLineNoNewline(lines[i]);
    }
  }

  /** Processing processed lines changes nothing. */
  lemma {:induction false} ProcessLinesIdempotent(lines: seq<string>)
    ensures ProcessLines(ProcessLines(lines)) == ProcessLines(lines)
    decreases |lines|
  {
    if |lines| > 0 {
      var init := lines[..|lines| - 1];
      var ps := ProcessLines(lines);
      assert ps[..|ps| - 1] == ProcessLines(init);
      ProcessLinesIdempotent(init);
      ProcessLineIdempotent(lines[|lines| - 1]);
    }
  }

  /**
    Splitting the output on newlines gives as many lines as the input has, and
    each output line is the processed input line at the same position; in
    particular every line that is not a bullet comes out unchanged.
   */
  lemma MarkdownLines(text: string)
    ensures var ins := Strings.Split(text, '\n');
            var outs := Strings.Split(ProcessedMarkdown(Some(text)), '\n');
            |outs| == |ins|
            && (forall i :: 0 <= i < |ins| ==> outs[i] == ProcessLine(ins[i]))
            && (forall i :: 0 <= i < |ins| && !IsBullet(ins[i]) ==> outs[i] == ins[i])
  {
    var ins := Strings.Split(text, '\n');
    if text == "" {
      assert ins == [""];
      assert !IsBullet("");
    } else {
      var ps := ProcessLines(ins);
      ProcessLinesNoNewline(ins);
      Strings.SplitJoin(ps, '\n');
    }
    forall i | 0 <= i < |ins|
      ensures ProcessLines(ins)[i] == ProcessLine(ins[i])
      ensures !IsBullet(ins[i]) ==> ProcessLine(ins[i]) == ins[i]
    {
      ProcessLinesAt(ins, i);
      ProcessLineSpec(ins[i]);
    }
  }

  /** `processMarkdown` applied to its own output changes nothing. */
  lemma MarkdownIdempotent(text: Option<string>)
    ensures ProcessedMarkdown(Some(ProcessedMarkdown(text))) == ProcessedMarkdown(text)
  {
    var out := ProcessedMarkdown(text);
    if out != "" {
      var ins := Strings.Split(text.value, '\n');
      var ps := ProcessLines(ins);
      ProcessLinesNoNewline(ins);
      Strings.SplitJoin(ps, '\n');
      ProcessLinesIdempotent(ins);
    }
  }

  /**
    `processMarkdown`: an absent or empty text gives the empty string; otherwise
    the text is split on newlines, each line processed in turn and pushed, and
    the processed lines joined again.
   */
  method ProcessMarkdown(text: Option<string>) returns (r: string)
    ensures !Truthy(text) ==> r == ""
    ensures r == ProcessedMarkdown(text)
  {
    if !Truthy(text) {
      return "";
    }
    var lines := Strings.Split(text.value, '\n');
    var processedLines: seq<string> := [];
    var i := 0;
    while i < |lines|
      invariant 0 <= i <= |lines|
      invariant processedLines == ProcessLines(lines[..i])
    {
      var line := lines[i];
      var trimmed := JsStr.Trim(line);
      if JsStr.StartsWith(trimmed, '*') {
        var leadingSpaces := JsStr.LeadingSpaces(line);
        var indentLevel := leadingSpaces / 4;
        line := Strings.Repeat(' ', indentLevel * 4) + trimmed;
      }
      ProcessLinesSnoc(lines, i, line);
      processedLines := processedLines + [line];
      i := i + 1;
    }
    assert lines[..i] == lines;
    r := Strings.Join(processedLines, "\n");
  }

  // ---------------------------------------------------------------------------
  // formatTitle
  // ---------------------------------------------------------------------------

  /** The fields of a patch-note summary that its title is built from. */
  datatype PatchNote = PatchNote(title: Option<string>, date: Option<string>, version: Option<string>)

  const DefaultTitle := "Patch Notes Summary"

  /**
    `formatTitle`: without a title, the default title; otherwise the title,
    then ` (date)` when there is a date, then ` - version` when there is a
    version, in that order and nothing else.
   */
  method FormatTitle(note: PatchNote) returns (title: string)
    ensures !Truthy(note.title) ==> title == DefaultTitle
    ensures Truthy(note.title) ==>
              var t := note.title.value;
              var d := if Truthy(note.date) then |note.date.value| + 3 else 0;
              var v := if Truthy(note.version) then |note.version.value| + 3 else 0;
              |title| == |t| + d + v
              && title[..|t|] == t
              && (Truthy(note.date) ==> title[|t|..|t| + d] == " (" + note.date.value + ")")
              && (Truthy(note.version) ==> title[|t| + d..] == " - " + note.version.value)
  {
    if Truthy(note.title) {
      title := note.title.value;
      if Truthy(note.date) {
        title := title + " (" + note.date.value + ")";
      }
      if Truthy(note.version) {
        title := title + " - " + note.version.value;
      }
      return;
    }
    return DefaultTitle;
  }

  // ---------------------------------------------------------------------------
  // toggleAccordion
  // ---------------------------------------------------------------------------

  /** Whether accordion `i` is shown open: `openAccordions[i] || false`. */
  predicate IsOpen(open: map<nat, bool>, i: nat) {
    i in open && open[i]
  }

  /**
    `toggleAccordion(index)`: the map gets an entry for `index` holding the
    negation of its open state; every other entry stays as it was.
   */
  function ToggleAccordion(open: map<nat, bool>, index: nat): (r: map<nat, bool>)
    ensures r.Keys == open.Keys + {index}
    ensures IsOpen(r, index) == !IsOpen(open, index)
    ensures forall j :: j in open && j != index ==> r[j] == open[j]
  {
    open[index := !(index in open && open[index])]
  }

  /** Toggling the same accordion twice gives back every accordion's open state. */
  lemma ToggleTwice(open: map<nat, bool>, index: nat)
    ensures forall j: nat :: IsOpen(ToggleAccordion(ToggleAccordion(open, index), index), j) == IsOpen(open, j)
  {
  }

  /** Toggling one accordion never changes whether another one is open. */
  lemma ToggleOthers(open: map<nat, bool>, index: nat, other: nat)
    requires other != index
    ensures IsOpen(ToggleAccordion(open, index), other) == IsOpen(open, other)
  {
  }

  /**
    The open map `handleSubmit` leaves: emptied when the request starts, then
    only the first accordion open when the reply lists at least one patch note.
   */
  function OpenAfterLoad(noteCount: nat): (r: map<nat, bool>)
    ensures forall i: nat :: IsOpen(r, i) <==> i == 0 && noteCount > 0
    ensures noteCount == 0 ==> r == map[]
  {
    var cleared: map<nat, bool> := map[];
    if noteCount > 0 then map[0 := true] else cleared
  }

  // ---------------------------------------------------------------------------
  // Loading dots and the button label
  // ---------------------------------------------------------------------------

  /** One interval tick of the loading-dot counter: `(prev + 1) % 4`. */
  function NextDots(prev: nat): (d: nat)
    ensures d < 4
    ensures prev < 3 ==> d == prev + 1
    ensures prev == 3 ==> d == 0
  {
    (prev + 1) % 4
  }

  /** The counter after `ticks` ticks, starting from the 0 it is reset to whenever loading stops. */
  function DotsAfter(ticks: nat): (d: nat)
    ensures d < 4
  {
    if ticks == 0 then 0 else NextDots(DotsAfter(ticks - 1))
  }

  /** After `ticks` ticks the counter shows `ticks mod 4` dots. */
  lemma {:induction false} DotsAfterMod(ticks: nat)
    ensures DotsAfter(ticks) == ticks % 4
  {
    if ticks > 0 {
      DotsAfterMod(ticks - 1);
    }
  }

  /** The counter cycles with period four. */
  lemma DotsPeriod(ticks: nat)
    ensures DotsAfter(ticks + 4) == DotsAfter(ticks)
  {
    var d1 := NextDots(DotsAfter(ticks));
    var d2 := NextDots(d1);
    var d3 := NextDots(d2);
    assert DotsAfter(ticks + 1) == d1;
    assert DotsAfter(ticks + 2) == d2;
    assert DotsAfter(ticks + 3) == d3;
  }

  /** The submit button's text: "Summarizing" and one dot per counter step while loading. */
  function ButtonLabel(loading: bool, dots: nat): (text: string)
    ensures !loading ==> text == "Summarize Updates"
    ensures loading ==>
              |text| == |"Summarizing"| + dots && text[..|"Summarizing"|] == "Summarizing"
              && forall i :: |"Summarizing"| <= i < |text| ==> text[i] == '.'
  {
    if loading then "Summarizing" + Strings.Repeat('.', dots) else "Summarize Updates"
  }

  /** While loading, the button shows "Summarizing" and `ticks mod 4` dots after `ticks` ticks. */
  lemma BusyLabel(ticks: nat)
    ensures var text := ButtonLabel(true, DotsAfter(ticks));
            |text| == |"Summarizing"| + ticks % 4 && text[..|"Summarizing"|] == "Summarizing"
            && forall i :: |"Summarizing"| <= i < |text| ==> text[i] == '.'
  {
    DotsAfterMod(ticks);
  }
}

/**
 * The conversion of a document's text into Word paragraphs and the safe
 * download name (lib/document-to-docx.ts). A line is a blank paragraph, a
 * level-1 heading (`## Title`), a plain paragraph, or a paragraph of runs
 * where text between `**` markers is bold. The library objects are
 * represented by the `Paragraph` and `Segment` values they are built from.
 */
module DocumentToDocx {
  import opened Wrappers
  import opened JsText

  /** One piece of a line: plain text or the text between a pair of `**` markers. */
  datatype Segment = PlainSeg(text: string) | BoldSeg(text: string)

  datatype Paragraph =
    | Blank
    | Heading(text: string)
    | Plain(text: string)
    | Runs(runs: seq<Segment>)

  /** The text a segment stands for in the line, markers included. */
  function SegmentSource(s: Segment): string {
    match s
    case PlainSeg(t) => t
    case BoldSeg(t) => "**" + t + "**"
  }

  function Render(segs: seq<Segment>): string {
    if segs == [] then "" else SegmentSource(segs[0]) + Render(segs[1..])
  }

  lemma {:induction false} RenderAppend(a: seq<Segment>, b: seq<Segment>)
    ensures Render(a + b) == Render(a) + Render(b)
  {
    if a == [] {
      assert a + b == b;
    } else {
      assert (a + b)[1..] == a[1..] + b;
      RenderAppend(a[1..], b);
    }
  }

  /** A `**` marker starts at position `i` of `s`. */
  predicate MarkerAt(s: string, i: int) {
    0 <= i && i + 1 < |s| && s[i] == '*' && s[i + 1] == '*'
  }

  /** `s.indexOf("**", from)`: the first marker at or after `from`, or -1. */
  function MarkerFrom(s: string, from: nat): (r: int)
    ensures r == -1 || (from <= r && MarkerAt(s, r))
    ensures forall j :: from <= j && (r == -1 || j < r) ==> !MarkerAt(s, j)
    decreases |s| - from
  {
    if from + 1 >= |s| then -1
    else if s[from] == '*' && s[from + 1] == '*' then from
    else MarkerFrom(s, from + 1)
  }

  /** `s.indexOf("**")` */
  function Marker(s: string): (r: int)
    ensures r == -1 || MarkerAt(s, r)
    ensures forall j :: 0 <= j && (r == -1 || j < r) ==> !MarkerAt(s, j)
  {
    MarkerFrom(s, 0)
  }

  /** `s.includes("**")` */
  predicate HasMarker(s: string) {
    exists i :: 0 <= i < |s| && MarkerAt(s, i)
  }

  lemma MarkerFound(s: string)
    ensures HasMarker(s) <==> Marker(s) >= 0
  {
  }

  /**
   * The segments `parseBoldSegments` produces for `rem`: the text before the
   * first `**` (when not empty), then the text up to the next `**` as bold,
   * and so on; an opening `**` without a closing one is kept, with the rest
   * of the line, as plain text.
   */
  function BoldSegments(rem: string): seq<Segment>
    decreases |rem|, 2
  {
    if rem == [] then [] else SegmentsFrom(rem, Marker(rem))
  }

  /** The segments of `rem` whose first marker is at `open`. */
  function SegmentsFrom(rem: string, open: int): seq<Segment>
    requires rem != [] && open == Marker(rem)
    decreases |rem|, 1
  {
    if open == -1 then [PlainSeg(rem)]
    else OpeningText(rem, open) + AfterOpening(rem[open + 2..], Marker(rem[open + 2..]))
  }

  /** The segments after an opening marker, when the next marker in `after` is at `close`. */
  function AfterOpening(after: string, close: int): seq<Segment>
    requires close == Marker(after)
    decreases |after| + 1, 0
  {
    if close == -1 then [PlainSeg("**" + after)]
    else BoldText(after, close) + BoldSegments(after[close + 2..])
  }

  /** The plain text before the first marker, as its segment list. */
  function OpeningText(line: string, open: int): (r: seq<Segment>)
    requires 0 <= open <= |line| && forall j :: 0 <= j < open ==> !MarkerAt(line, j)
    ensures Render(r) == line[..open]
  {
    if open > 0 then [PlainSeg(line[..open])] else []
  }

  /** The bold segment between a pair of markers. */
  function BoldText(after: string, close: int): (r: seq<Segment>)
    requires 0 <= close <= |after| && forall j :: 0 <= j < close ==> !MarkerAt(after, j)
    ensures Render(r) == "**" + after[..close] + "**"
  {
    [BoldSeg(after[..close])]
  }

  /** The text before the first marker, as the segments it gives. */
  function Opening(rem: string, open: int): seq<Segment>
    requires 0 <= open <= |rem|
  {
    if open > 0 then [PlainSeg(rem[..open])] else []
  }

  /** A round of `parseBoldSegments` that finds no marker. */
  lemma StepNoMarker(rem: string)
    requires rem != [] && Marker(rem) == -1
    ensures BoldSegments(rem) == [PlainSeg(rem)]
  {
    assert BoldSegments(rem) == SegmentsFrom(rem, -1);
  }

  /** A round of `parseBoldSegments` that finds an opening marker and no closing one. */
  lemma StepUnclosed(rem: string, open: int)
    requires rem != [] && open == Marker(rem) && open != -1 && Marker(rem[open + 2..]) == -1
    ensures BoldSegments(rem) == Opening(rem, open) + [PlainSeg("**" + rem[open + 2..])]
  {
    assert BoldSegments(rem) == SegmentsFrom(rem, open);
  }

  /** A round of `parseBoldSegments` that finds a pair of markers. */
  lemma StepClosed(rem: string, open: int, close: int)
    requires rem != [] && open == Marker(rem) && open != -1
    requires close == Marker(rem[open + 2..]) && close != -1
    ensures var after := rem[open + 2..];
      BoldSegments(rem) == Opening(rem, open) + [BoldSeg(after[..close])] + BoldSegments(after[close + 2..])
  {
    var after := rem[open + 2..];
    assert BoldSegments(rem) == SegmentsFrom(rem, open);
    assert OpeningText(rem, open) == Opening(rem, open);
    var tail := BoldSegments(after[close + 2..]);
    assert AfterOpening(after, close) == [BoldSeg(after[..close])] + tail;
    assert SegmentsFrom(rem, open) == Opening(rem, open) + ([BoldSeg(after[..close])] + tail);
    AppendAssoc(Opening(rem, open), [BoldSeg(after[..close])], tail);
  }

  /** The loop of `parseBoldSegments` (`remaining.length > 0` is `remaining != []`). */
  method ParseBoldSegments(line: string) returns (result: seq<Segment>)
    ensures result == BoldSegments(line)
  {
    result := [];
    var remaining := line;
    while remaining != []
      invariant result + BoldSegments(remaining) == BoldSegments(line)
      decreases |remaining|
    {
      ghost var result0, remaining0 := result, remaining;
      var open := Marker(remaining);
      if open == -1 {
        StepNoMarker(remaining);
        result := result + [PlainSeg(remaining)];
        break;
      }
      if open > 0 {
        result := result + [PlainSeg(remaining[..open])];
      }
      ghost var opening := Opening(remaining0, open);
      assert result == result0 + opening;
      remaining := remaining[open + 2..];
      var close := Marker(remaining);
      if close == -1 {
        StepUnclosed(remaining0, open);
        result := result + [PlainSeg("**" + remaining)];
        AppendAssoc(result0, opening, [PlainSeg("**" + remaining)]);
        break;
      }
      StepClosed(remaining0, open, close);
      var bold := [BoldSeg(remaining[..close])];
      result := result + bold;
      remaining := remaining[close + 2..];
      AppendAssoc3(result0, opening, bold, BoldSegments(remaining));
    }
  }

  lemma SplitAt(s: string, i: int)
    requires MarkerAt(s, i)
    ensures s == s[..i] + "**" + s[i + 2..]
  {
    assert s[i..i + 2] == "**";
    assert s == s[..i] + s[i..i + 2] + s[i + 2..];
  }

  /** Putting the bold markers back around the bold segments gives the line back. */
  lemma {:induction false} BoldSegmentsRoundTrip(line: string)
    ensures Render(BoldSegments(line)) == line
    decreases |line|, 1
  {
    if line != [] {
      var open := Marker(line);
      if open != -1 {
        var pre := OpeningText(line, open);
        var after := line[open + 2..];
        var post := AfterOpening(after, Marker(after));
        RenderAppend(pre, post);
        AfterOpeningRoundTrip(after, Marker(after));
        SplitAt(line, open);
      }
    }
  }

  /** After an opening marker, the segments give back the marker and the rest of the line. */
  lemma {:induction false} AfterOpeningRoundTrip(after: string, close: int)
    requires close == Marker(after)
    ensures Render(AfterOpening(after, close)) == "**" + after
    decreases |after| + 1, 0
  {
    if close != -1 {
      BoldSegmentsRoundTrip(after[close + 2..]);
      RenderBoldThenRest(after, close);
      ReassembleBold(after, close);
    }
  }

  lemma RenderBoldThenRest(after: string, close: int)
    requires close == Marker(after) && close != -1
    requires Render(BoldSegments(after[close + 2..])) == after[close + 2..]
    ensures Render(AfterOpening(after, close)) == Render(BoldText(after, close)) + after[close + 2..]
  {
    RenderAppend(BoldText(after, close), BoldSegments(after[close + 2..]));
  }

  lemma ReassembleBold(after: string, close: int)
    requires close == Marker(after) && close != -1
    ensures Render(BoldText(after, close)) + after[close + 2..] == "**" + after
  {
    var rest := after[close + 2..];
    var b := after[..close];
    SplitAt(after, close);
    assert ("**" + b + "**") + rest == "**" + (b + "**" + rest);
  }

  lemma NoMarkerBefore(s: string, n: int)
    requires 0 <= n <= |s|
    requires forall j :: 0 <= j < n ==> !MarkerAt(s, j)
    ensures !HasMarker(s[..n])
  {
    var t := s[..n];
    forall j | 0 <= j < |t| ensures !MarkerAt(t, j) {
      assert !MarkerAt(s, j);
    }
  }

  /**
   * What one segment promises: a plain segment is not empty, a bold one
   * holds no marker, and only the last segment may hold one.
   */
  predicate SegmentOk(seg: Segment, isLast: bool) {
    && (seg.PlainSeg? ==> seg.text != [])
    && (seg.BoldSeg? ==> !HasMarker(seg.text))
    && (!isLast ==> !HasMarker(seg.text))
  }

  /** Every segment keeps the promise of its position. */
  predicate WellFormedSegments(segs: seq<Segment>) {
    segs == [] || (SegmentOk(segs[0], |segs| == 1) && WellFormedSegments(segs[1..]))
  }

  /** Segments none of which holds a marker. */
  predicate MarkerFree(segs: seq<Segment>) {
    forall i :: 0 <= i < |segs| ==> !HasMarker(segs[i].text)
  }

  lemma {:induction false} WellFormedConcat(a: seq<Segment>, b: seq<Segment>)
    requires WellFormedSegments(a) && MarkerFree(a) && WellFormedSegments(b)
    ensures WellFormedSegments(a + b)
  {
    if a != [] {
      assert (a + b)[1..] == a[1..] + b;
      WellFormedConcat(a[1..], b);
    } else {
      assert a + b == b;
    }
  }

  /** The promise of `WellFormedSegments`, index by index. */
  lemma {:induction false} WellFormedAt(segs: seq<Segment>, i: int)
    requires WellFormedSegments(segs) && 0 <= i < |segs|
    ensures SegmentOk(segs[i], i == |segs| - 1)
  {
    if i > 0 {
      WellFormedAt(segs[1..], i - 1);
    }
  }

  /**
   * No plain segment is empty; no bold segment holds a marker; only the last
   * segment may hold one, when it is the kept unmatched `**` and the rest.
   */
  lemma {:induction false} BoldSegmentsWellFormed(line: string)
    ensures WellFormedSegments(BoldSegments(line))
    decreases |line|
  {
    if line != [] {
      var open := Marker(line);
      if open != -1 {
        var pre := OpeningText(line, open);
        NoMarkerBefore(line, open);
        var after := line[open + 2..];
        var close := Marker(after);
        var post := AfterOpening(after, close);
        if close != -1 {
          var rest := after[close + 2..];
          BoldSegmentsWellFormed(rest);
          NoMarkerBefore(after, close);
          WellFormedConcat(BoldText(after, close), BoldSegments(rest));
        }
        WellFormedConcat(pre, post);
      }
    }
  }

  /** A line with no `**` is a single plain segment. */
  lemma NoMarkerSingleSegment(line: string)
    requires line != [] && !HasMarker(line)
    ensures BoldSegments(line) == [PlainSeg(line)]
  {
  }

  /** `/\r?\n/` split: the pieces between line feeds, each without one carriage return just before its line feed. */
  function SplitLines(s: string): (r: seq<string>)
    ensures |r| >= 1
    ensures forall i :: 0 <= i < |r| ==> Lacks(r[i], '\n')
    decreases |s|
  {
    var i := IndexOf(s, "\n");
    if i < 0 then
      NoLineFeedBefore(s, |s|);
      [s]
    else
      NoLineFeedBefore(s, i);
      [DropCarriageReturn(s[..i])] + SplitLines(s[i + 1..])
  }

  lemma NoLineFeedBefore(s: string, n: int)
    requires 0 <= n <= |s|
    requires forall j :: 0 <= j < n ==> !OccursAt(s, "\n", j)
    ensures Lacks(s[..n], '\n')
  {
    forall j | 0 <= j < n ensures s[j] != '\n' {
      assert !OccursAt(s, "\n", j);
      assert s[j..j + 1] == [s[j]];
    }
  }

  function DropCarriageReturn(x: string): (r: string)
    ensures Lacks(x, '\n') ==> Lacks(r, '\n')
  {
    if |x| > 0 && x[|x| - 1] == '\r' then x[..|x| - 1] else x
  }

  /** Text without carriage returns splits into lines that join back with line feeds. */
  lemma {:induction false} SplitLinesRoundTrip(s: string)
    requires Lacks(s, '\r')
    ensures Join(SplitLines(s), "\n") == s
    decreases |s|
  {
    var i := IndexOf(s, "\n");
    if i >= 0 {
      var rest := s[i + 1..];
      SplitLinesStep(s, i);
      SplitLinesRoundTrip(rest);
      var lines := SplitLines(s);
      assert lines[1..] == SplitLines(rest);
      assert Join(lines, "\n") == s[..i] + "\n" + Join(SplitLines(rest), "\n");
    }
  }

  /** One line split off the front of text without carriage returns. */
  lemma SplitLinesStep(s: string, i: int)
    requires Lacks(s, '\r') && i == IndexOf(s, "\n") && i >= 0
    ensures SplitLines(s) == [s[..i]] + SplitLines(s[i + 1..])
    ensures s == s[..i] + "\n" + s[i + 1..]
    ensures Lacks(s[i + 1..], '\r')
  {
    assert s[i..i + 1] == "\n";
    assert DropCarriageReturn(s[..i]) == s[..i] by {
      assert s[..i] == [] || s[..i][i - 1] == s[i - 1];
    }
    SplitAround(s, i);
    var rest := s[i + 1..];
    forall k | 0 <= k < |rest| ensures rest[k] != '\r' {
      assert rest[k] == s[i + 1 + k];
    }
  }

  /**
   * The capture of `/^##\s+(.+)$/` on a line: `##`, at least one white-space
   * character, then a non-empty rest without line terminators; the capture
   * is that rest, starting after the whole white-space run.
   */
  function HeadingCapture(t: string): (r: Option<string>)
    ensures r.Some? ==> r.value != [] && !IsWhitespace(r.value[0])
    ensures r.Some? ==> forall i :: 0 <= i < |r.value| ==> !IsLineTerminator(r.value[i])
    ensures r.Some? ==> StartsWith(t, "##") && EndsWith(t, r.value)
  {
    if |t| >= 3 && t[..2] == "##" && IsWhitespace(t[2]) then
      var rest := TrimStart(t[2..]);
      if rest != [] && forall i :: 0 <= i < |rest| ==> !IsLineTerminator(rest[i]) then Some(rest) else None
    else None
  }

  /** The paragraph built for one line. */
  function ParagraphOf(line: string): (r: Paragraph)
    ensures r == Blank <==> TrimEnd(line) == []
  {
    var trimmed := TrimEnd(line);
    if trimmed == [] then Blank
    else
      match HeadingCapture(trimmed)
      case Some(h) => Heading(Trim(h))
      case None =>
        var runs := BoldSegments(trimmed);
        if |runs| == 1 && runs[0].PlainSeg? && !HasMarker(runs[0].text) then Plain(trimmed)
        else Runs(runs)
  }

  /**
   * A line that is not blank and not a heading becomes a plain paragraph
   * exactly when it has no `**`; otherwise its runs give the trimmed line
   * back once the bold markers are put back.
   */
  lemma ParagraphOfBody(line: string)
    requires TrimEnd(line) != [] && HeadingCapture(TrimEnd(line)).None?
    ensures ParagraphOf(line).Plain? <==> !HasMarker(TrimEnd(line))
    ensures ParagraphOf(line).Plain? ==> ParagraphOf(line).text == TrimEnd(line)
    ensures ParagraphOf(line).Runs? ==>
              Render(ParagraphOf(line).runs) == TrimEnd(line) && WellFormedSegments(ParagraphOf(line).runs)
  {
    var t := TrimEnd(line);
    BoldSegmentsRoundTrip(t);
    BoldSegmentsWellFormed(t);
    var runs := BoldSegments(t);
    if !HasMarker(t) {
      NoMarkerSingleSegment(t);
    } else if |runs| == 1 && runs[0].PlainSeg? {
      assert Render(runs) == runs[0].text + Render(runs[1..]);
      assert runs[0].text == t;
    }
  }

  /** The paragraphs of a list of lines, one each, in order. */
  function ParagraphsOf(lines: seq<string>): (r: seq<Paragraph>)
    ensures |r| == |lines|
  {
    if lines == [] then [] else [ParagraphOf(lines[0])] + ParagraphsOf(lines[1..])
  }

  /** `contentToParagraphs`: one paragraph per line of the content, so never none. */
  method ContentToParagraphs(content: string) returns (paragraphs: seq<Paragraph>)
    ensures paragraphs == ParagraphsOf(SplitLines(content))
    ensures |paragraphs| >= 1
  {
    var lines := SplitLines(content);
    paragraphs := [];
    for i := 0 to |lines|
      invariant paragraphs == ParagraphsOf(lines[..i])
    {
      var p := ParagraphOf(lines[i]);
      ParagraphsOfAppend(lines[..i], [lines[i]]);
      assert lines[..i + 1] == lines[..i] + [lines[i]];
      paragraphs := paragraphs + [p];
    }
    assert lines[..|lines|] == lines;
  }

  lemma {:induction false} ParagraphsOfAppend(a: seq<string>, b: seq<string>)
    ensures ParagraphsOf(a + b) == ParagraphsOf(a) + ParagraphsOf(b)
  {
    if a == [] {
      assert a + b == b;
    } else {
      assert (a + b)[1..] == a[1..] + b;
      ParagraphsOfAppend(a[1..], b);
    }
  }

  /**
   * The body of the Word document: the paragraphs, or one blank paragraph
   * when there are none; since the content always has a line, the fallback
   * is never taken.
   */
  function DocumentBody(content: string): (r: seq<Paragraph>)
    ensures r == ParagraphsOf(SplitLines(content))
  {
    var ps := ParagraphsOf(SplitLines(content));
    if |ps| > 0 then ps else [Blank]
  }

  /** The characters `sanitizeDocxFilename` replaces by `_` one by one. */
  predicate ForbiddenInFilename(c: char) {
    c == '<' || c == '>' || c == ':' || c == '"' || c == '/' || c == '\\' || c == '|' || c == '?' || c == '*'
  }

  /** `replaceAll(/[<>:"/\\|?*]/g, "_")` */
  function ReplaceForbidden(s: string): (r: string)
    ensures |r| == |s|
    ensures forall i :: 0 <= i < |s| ==> r[i] == if ForbiddenInFilename(s[i]) then '_' else s[i]
  {
    if s == [] then [] else [if ForbiddenInFilename(s[0]) then '_' else s[0]] + ReplaceForbidden(s[1..])
  }

  /** `replaceAll(/\s+/g, "_")`: each run of white space becomes one `_`. */
  function CollapseWhitespace(s: string): (r: string)
    ensures NoWhitespace(r)
    ensures |r| <= |s|
    decreases |s|
  {
    if s == [] then []
    else if IsWhitespace(s[0]) then
      var rest := TrimStart(s);
      assert |rest| < |s|;
      "_" + CollapseWhitespace(rest)
    else [s[0]] + CollapseWhitespace(s[1..])
  }

  /** Collapsing splits at a point not preceded by white space. */
  lemma {:induction false} CollapseAppend(u: string, v: string)
    requires u == [] || !IsWhitespace(u[|u| - 1])
    ensures CollapseWhitespace(u + v) == CollapseWhitespace(u) + CollapseWhitespace(v)
    decreases |u|
  {
    if u == [] {
      assert u + v == v;
    } else if !IsWhitespace(u[0]) {
      assert (u + v)[1..] == u[1..] + v;
      CollapseAppend(u[1..], v);
    } else {
      var t := TrimStart(u);
      assert t != [] by {
        assert !IsWhitespace(u[|u| - 1]);
      }
      TrimStartAppend(u, v);
      CollapseAppend(t, v);
    }
  }

  /** A run of white space followed by text that does not start with white space collapses to one `_`. */
  lemma CollapseRun(w: string, v: string)
    requires w != [] && forall i :: 0 <= i < |w| ==> IsWhitespace(w[i])
    requires v == [] || !IsWhitespace(v[0])
    ensures CollapseWhitespace(w + v) == "_" + CollapseWhitespace(v)
  {
    TrimStartWhite(w, v);
    TrimStartOfUntrimmed(v);
  }

  /**
   * `replace(/\s+/g, "_")` step by step: a maximal white-space run `w`
   * between `u` and `v` becomes exactly one `_`, and the text on either side
   * is collapsed on its own.
   */
  lemma CollapseStep(u: string, w: string, v: string)
    requires u == [] || !IsWhitespace(u[|u| - 1])
    requires w != [] && forall i :: 0 <= i < |w| ==> IsWhitespace(w[i])
    requires v == [] || !IsWhitespace(v[0])
    ensures CollapseWhitespace(u + (w + v)) == CollapseWhitespace(u) + ("_" + CollapseWhitespace(v))
  {
    CollapseAppend(u, w + v);
    CollapseRun(w, v);
  }

  /** The stem: forbidden characters and white-space runs replaced, trimmed, cut to 115 characters. */
  function SanitizedStem(title: string): string {
    Slice(Trim(CollapseWhitespace(ReplaceForbidden(title))), 0, 115)
  }

  /** The stem is the first 115 characters of the cleaned title, or all of it when shorter. */
  lemma SanitizedStemIsPrefix(title: string)
    ensures var c := Trim(CollapseWhitespace(ReplaceForbidden(title)));
            SanitizedStem(title) == c[..Min(115, |c|)] && |SanitizedStem(title)| <= 115
  {
  }

  /** `sanitizeDocxFilename` as written. */
  function SanitizeDocxFilename(title: string): (r: string)
    ensures EndsWith(r, ".docx") && 6 <= |r| <= 120
    ensures SanitizedStem(title) == [] ==> r == "documento.docx"
    ensures SanitizedStem(title) != [] ==> r == SanitizedStem(title) + ".docx"
  {
    var sanitized := SanitizedStem(title);
    var stem := if sanitized == [] then "documento" else sanitized;
    assert (stem + ".docx")[|stem|..] == ".docx";
    stem + ".docx"
  }

  /** Neither a character a file name cannot take nor white space. */
  predicate CleanName(s: string) {
    forall i :: 0 <= i < |s| ==> !ForbiddenInFilename(s[i]) && !IsWhitespace(s[i])
  }

  predicate NoForbidden(s: string) {
    forall i :: 0 <= i < |s| ==> !ForbiddenInFilename(s[i])
  }

  /** `c` does not occur in `s` after the white-space runs are collapsed, if it did not before. */
  lemma {:induction false} CollapseKeeps(s: string, bad: char -> bool)
    requires forall i :: 0 <= i < |s| ==> !bad(s[i])
    requires !bad('_')
    ensures forall i :: 0 <= i < |CollapseWhitespace(s)| ==> !bad(CollapseWhitespace(s)[i])
    decreases |s|
  {
    if s != [] {
      var r := CollapseWhitespace(s);
      if IsWhitespace(s[0]) {
        var rest := TrimStart(s);
        assert forall i :: 0 <= i < |rest| ==> rest[i] == s[|s| - |rest| + i];
        CollapseKeeps(rest, bad);
        assert r == "_" + CollapseWhitespace(rest);
      } else {
        CollapseKeeps(s[1..], bad);
        assert r == [s[0]] + CollapseWhitespace(s[1..]);
      }
    }
  }

  /** The stem of a cleaned title: clean, and unchanged by trimming. */
  lemma CleanCollapsed(title: string)
    ensures CleanName(CollapseWhitespace(ReplaceForbidden(title)))
    ensures Trim(CollapseWhitespace(ReplaceForbidden(title))) == CollapseWhitespace(ReplaceForbidden(title))
  {
    var f := ReplaceForbidden(title);
    CollapseKeeps(f, ForbiddenInFilename);
    var c := CollapseWhitespace(f);
    TrimStartOfUntrimmed(c);
    TrimEndOfUntrimmed(c);
  }

  /** Every sanitized name is clean: no forbidden character and no white space, `.docx` included. */
  lemma SanitizedNameIsClean(title: string)
    ensures CleanName(SanitizeDocxFilename(title))
  {
    var c := CollapseWhitespace(ReplaceForbidden(title));
    assert CleanName(Trim(c)) by {
      CleanCollapsed(title);
    }
    var st := SanitizedStem(title);
    SanitizedStemIsPrefix(title);
    CleanPrefix(Trim(c), Min(115, |Trim(c)|));
    var stem := if st == [] then "documento" else st;
    CleanLiterals();
    CleanConcat(stem, ".docx");
  }

  lemma CleanLiterals()
    ensures CleanName("documento") && CleanName(".docx")
  {
    var d := "documento";
    forall i | 0 <= i < |d| ensures !ForbiddenInFilename(d[i]) && !IsWhitespace(d[i]) {
      assert 'a' <= d[i] <= 'z';
    }
    var x := ".docx";
    forall i | 0 <= i < |x| ensures !ForbiddenInFilename(x[i]) && !IsWhitespace(x[i]) {
      assert x[i] == '.' || 'a' <= x[i] <= 'z';
    }
  }

  lemma CleanPrefix(s: string, n: nat)
    requires CleanName(s) && n <= |s|
    ensures CleanName(s[..n])
  {
    assert forall i :: 0 <= i < n ==> s[..n][i] == s[i];
  }

  lemma CleanConcat(a: string, b: string)
    requires CleanName(a) && CleanName(b)
    ensures CleanName(a + b)
  {
    assert forall i :: 0 <= i < |a + b| ==> (a + b)[i] == if i < |a| then a[i] else b[i - |a|];
  }

  /** A clean stem no longer than 115 characters comes back unchanged. */
  lemma SanitizeKeepsCleanStem(stem: string)
    requires stem != [] && |stem| <= 115 && CleanName(stem)
    ensures SanitizeDocxFilename(stem) == stem + ".docx"
  {
    assert ReplaceForbidden(stem) == stem;
    CollapseClean(stem);
    TrimStartOfUntrimmed(stem);
    TrimEndOfUntrimmed(stem);
  }

  lemma {:induction false} CollapseClean(s: string)
    requires NoWhitespace(s)
    ensures CollapseWhitespace(s) == s
  {
    if s != [] {
      CollapseClean(s[1..]);
    }
  }

  /**
   * The intended sanitizer: it also replaces `;`, which the download side
   * reads as the end of the file name.
   */
  function SafeDocxFilename(title: string): (r: string)
    ensures EndsWith(r, ".docx") && 6 <= |r| <= 120
  {
    SanitizeDocxFilename(ReplaceSemicolons(title))
  }

  function ReplaceSemicolons(s: string): (r: string)
    ensures |r| == |s| && Lacks(r, ';')
    ensures forall i :: 0 <= i < |s| ==> r[i] == if s[i] == ';' then '_' else s[i]
  {
    if s == [] then [] else [if s[0] == ';' then '_' else s[0]] + ReplaceSemicolons(s[1..])
  }

  predicate IsSemicolon(c: char) {
    c == ';'
  }

  /** The intended name holds no `"`, `;` or line feed. */
  lemma SafeNameHasNoDelimiters(title: string)
    ensures var r := SafeDocxFilename(title);
      r != [] && Lacks(r, '"') && Lacks(r, ';') && Lacks(r, '\n')
  {
    var t := ReplaceSemicolons(title);
    var c := CollapseWhitespace(ReplaceForbidden(t));
    assert Lacks(c, ';') by {
      var f := ReplaceForbidden(t);
      assert forall i :: 0 <= i < |f| ==> !IsSemicolon(f[i]);
      CollapseKeeps(f, IsSemicolon);
    }
    assert Trim(c) == c by {
      CleanCollapsed(t);
    }
    var st := SanitizedStem(t);
    assert Lacks(st, ';') by {
      SanitizedStemIsPrefix(t);
      assert st == c[..Min(115, |c|)];
    }
    var stem := if st == [] then "documento" else st;
    var r := SafeDocxFilename(title);
    assert r == stem + ".docx";
    SanitizedNameIsClean(t);
    forall i | 0 <= i < |r| ensures r[i] != ';' {
      if i < |stem| {
        assert r[i] == stem[i];
      } else {
        assert r[i] == ".docx"[i - |stem|];
      }
    }
  }

}

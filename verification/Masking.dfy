/**
 Masking leaked reasoning and code out of a reply (`src/text_calls.rs`). Text is bytes, as the source
 scans it. The functions say which byte ranges are masked; the methods are the source's loops over a
 buffer, proved to blank exactly those.
 */
module Masking {
  import opened Wrappers
  import opened Strings
  import opened Utf8

  type Bytes = seq<Byte>

  const NEWLINE: Byte := 10
  const SPACE: Byte := 32
  const TAB: Byte := 9
  const TICK: Byte := 96
  const TILDE: Byte := 126
  const QUOTE: Byte := 62

  /** `<think>` and `</think>`. */
  const OPEN: Bytes := [60, 116, 104, 105, 110, 107, 62]
  const CLOSE: Bytes := [60, 47, 116, 104, 105, 110, 107, 62]

  datatype Range = Range(from: nat, end: nat)

  // ----- Lines -----

  /** Just past the next newline, or the end. */
  function LineEnd(text: Bytes, from: nat): (end: nat)
    requires from <= |text|
    ensures from <= end <= |text| && (from < |text| ==> from < end)
    ensures end == |text| || (end > 0 && text[end - 1] == NEWLINE)
    decreases |text| - from
  {
    if from == |text| then from
    else if text[from] == NEWLINE then from + 1
    else LineEnd(text, from + 1)
  }

  /** The first byte from `at` that is not a space. */
  function SkipSpaces(text: Bytes, at: nat): (end: nat)
    requires at <= |text|
    ensures at <= end <= |text| && forall i | at <= i < end :: text[i] == SPACE
    decreases |text| - at
  {
    if at < |text| && text[at] == SPACE then SkipSpaces(text, at + 1) else at
  }

  predicate StartsAt(text: Bytes, p: Bytes, at: nat) {
    at <= |text| && p <= text[at..]
  }

  lemma StartsOccurs(text: Bytes, p: Bytes, at: nat)
    ensures StartsAt(text, p, at) <==> OccursAt(text, p, at)
  {
    if at <= |text| && at + |p| <= |text| {
      assert text[at..][..|p|] == text[at..at + |p|];
    }
  }

  function Ascii(s: string): Bytes
    requires forall i | 0 <= i < |s| :: s[i] as int < 128
  {
    seq(|s|, i requires 0 <= i < |s| => s[i] as int as Byte)
  }

  /** The bytes looked for are these characters and tags. */
  lemma CharactersAre()
    ensures [NEWLINE, SPACE, TAB, TICK, TILDE, QUOTE] == Ascii("\n \t`~>")
    ensures OPEN == Ascii("<think>") && CLOSE == Ascii("</think>")
  {
    var characters := "\n \t`~>";
    assert forall i | 0 <= i < |characters| :: Ascii(characters)[i] == characters[i] as int as Byte;
  }

  // ----- Leaked reasoning -----

  /** The end of the `</think>` closing the `<think>` at `open`, if one does. */
  function Closing(text: Bytes, open: nat): (close: Option<nat>)
    requires StartsAt(text, OPEN, open)
    ensures close.Some?
            ==> open + |OPEN| + |CLOSE| <= close.value <= |text| && OccursAt(text, CLOSE, close.value - |CLOSE|)
  {
    match FindFrom(text, CLOSE, open + |OPEN|)
    case Some(at) => Some(at + |CLOSE|)
    case None => None
  }

  /** The pairs straight after `close` on its line, and where the next line starts. */
  function PairsAfter(text: Bytes, close: nat): (pairs: (seq<Range>, nat))
    requires close <= |text|
    ensures close <= pairs.1 <= |text|
    decreases |text| - close
  {
    var open := SkipSpaces(text, close);
    if StartsAt(text, OPEN, open) && Closing(text, open).Some? then
      var next := Closing(text, open).value;
      var (more, from) := PairsAfter(text, next);
      ([Range(open, next)] + more, from)
    else ([], LineEnd(text, close))
  }

  /** A tag at a line's start, behind at most three spaces. */
  predicate TagAtLine(text: Bytes, from: nat, tag: Bytes)
    requires from <= |text|
  {
    var at := SkipSpaces(text, from);
    at - from <= 3 && StartsAt(text, tag, at)
  }

  /** Just past a `</think>`. */
  predicate EndsTag(text: Bytes, close: nat) {
    |CLOSE| <= close <= |text| && OccursAt(text, CLOSE, close - |CLOSE|)
  }

  /** The end of the `</think>` at `at`, when no `<think>` comes before it. */
  function ClosedAt(text: Bytes, at: nat): (close: Option<nat>)
    requires StartsAt(text, CLOSE, at)
    ensures close.Some? ==> EndsTag(text, close.value)
  {
    StartsOccurs(text, CLOSE, at);
    if Contains(text[..at], OPEN) then None else Some(at + |CLOSE|)
  }

  /** The end of the first `</think>` at a line's start from `start` on, when no `<think>` comes before it. */
  function TemplateOpenedClose(text: Bytes, start: nat): (close: Option<nat>)
    requires start <= |text|
    ensures close.Some? ==> EndsTag(text, close.value)
    decreases |text| - start
  {
    if start == |text| then None
    else if TagAtLine(text, start, CLOSE) then ClosedAt(text, SkipSpaces(text, start))
    else TemplateOpenedClose(text, LineEnd(text, start))
  }

  function ThinkFrom(text: Bytes, from: nat): seq<Range>
    requires from <= |text|
    decreases |text| - from
  {
    if from == |text| then []
    else
      var open := SkipSpaces(text, from);
      if TagAtLine(text, from, OPEN) && Closing(text, open).Some? then
        var close := Closing(text, open).value;
        var (pairs, next) := PairsAfter(text, close);
        [Range(open, close)] + pairs + ThinkFrom(text, next)
      else ThinkFrom(text, LineEnd(text, from))
  }

  /** The byte ranges of leaked reasoning. */
  function ThinkRanges(text: Bytes): seq<Range> {
    match TemplateOpenedClose(text, 0)
    case Some(close) =>
      var (pairs, from) := PairsAfter(text, close);
      [Range(0, close)] + pairs + ThinkFrom(text, from)
    case None => ThinkFrom(text, 0)
  }

  // ----- Inline code -----

  /** How many of `ch` stand at `at`. */
  function Run(text: Bytes, at: nat, ch: Byte): (n: nat)
    requires at <= |text|
    ensures at + n <= |text| && forall i | at <= i < at + n :: text[i] == ch
    ensures at + n == |text| || text[at + n] != ch
    decreases |text| - at
  {
    if at < |text| && text[at] == ch then 1 + Run(text, at + 1, ch) else 0
  }

  /** The end of the next run of exactly `open` backticks from `j` on. */
  function CloseRun(text: Bytes, j: nat, open: nat): (end: Option<nat>)
    requires j <= |text|
    ensures end.Some? ==> j < end.value <= |text| && text[end.value - 1] == TICK
    decreases |text| - j
  {
    if j == |text| then None
    else if text[j] == TICK then
      var n := Run(text, j, TICK);
      if n == open then Some(j + n) else CloseRun(text, j + n, open)
    else CloseRun(text, j + 1, open)
  }

  /** The inline code spans of a paragraph, backticks included, from `i` on. */
  function CodeSpans(text: Bytes, i: nat): seq<Range>
    requires i <= |text|
    decreases |text| - i
  {
    if i == |text| then []
    else if text[i] != TICK then CodeSpans(text, i + 1)
    else
      var open := Run(text, i, TICK);
      match CloseRun(text, i + open, open)
      case Some(end) => [Range(i, end)] + CodeSpans(text, end)
      case None => CodeSpans(text, i + open)
  }

  function Shifted(ranges: seq<Range>, start: nat): seq<Range> {
    if ranges == [] then [] else [Range(ranges[0].from + start, ranges[0].end + start)] + Shifted(ranges[1..], start)
  }

  /** The code spans of the paragraph `text[para..end]`, where they stand in `text`. */
  function SpansIn(text: Bytes, para: Option<nat>, end: nat): seq<Range>
    requires end <= |text| && (para.Some? ==> para.value <= end)
  {
    match para
    case Some(start) => Shifted(CodeSpans(text[start..end], 0), start)
    case None => []
  }

  // ----- Code -----

  /** What the scan takes from code it is not shown: a whole tag call's start, and text of white space only. */
  datatype Tests = Tests(completeTagCall: Bytes -> bool, blank: Bytes -> bool)

  datatype Fence = Fence(ch: Byte, length: nat)

  datatype Scan = Scan(fence: Option<Fence>, paragraph: Option<nat>)

  /** The width of a line's indent from `at`, a tab counting 4, and where it ends. */
  function Indent(text: Bytes, at: nat): (indent: (nat, nat))
    requires at <= |text|
    ensures at <= indent.1 <= |text|
    decreases |text| - at
  {
    if at < |text| && (text[at] == SPACE || text[at] == TAB) then
      var (width, end) := Indent(text, at + 1);
      (width + (if text[at] == TAB then 4 else 1), end)
    else (0, at)
  }

  /** How a line reads: its indent, where its body starts, and the runs its body starts with. */
  datatype Line = Line(start: nat, end: nat, indent: nat, body: nat, ticks: nat, tildes: nat) {
    predicate OpensFence() {
      indent <= 3 && (ticks >= 3 || tildes >= 3)
    }

    function Opened(): Fence {
      if ticks >= 3 then Fence(TICK, ticks) else Fence(TILDE, tildes)
    }
  }

  function LineAt(text: Bytes, start: nat): (line: Line)
    requires start <= |text|
    ensures line.start == start && start <= line.body <= |text| && line.end == LineEnd(text, start)
    ensures line.body + line.ticks <= |text| && line.body + line.tildes <= |text|
  {
    var (indent, body) := Indent(text, start);
    Line(start, LineEnd(text, start), indent, body, Run(text, body, TICK), Run(text, body, TILDE))
  }

  /** The line's text from `at` on. */
  function Rest(text: Bytes, line: Line, at: nat): Bytes {
    if at <= line.end <= |text| then text[at..line.end] else []
  }

  predicate IsQuoted(text: Bytes, line: Line) {
    line.body < |text| && text[line.body] == QUOTE
  }

  predicate IsPlain(tests: Tests, text: Bytes, scan: Scan, line: Line)
    requires line.body <= |text|
  {
    && scan.fence.None? && line.indent <= 3 && line.ticks < 3 && line.tildes < 3
    && !IsQuoted(text, line) && !tests.blank(Rest(text, line, line.body))
    && !tests.completeTagCall(text[line.body..])
  }

  predicate ClosesFence(tests: Tests, text: Bytes, fence: Fence, line: Line)
    requires line.body <= |text|
  {
    var run := Run(text, line.body, fence.ch);
    line.indent <= 3 && run >= fence.length && tests.blank(Rest(text, line, line.body + run))
  }

  /** The line as a whole is code or a quote. */
  predicate IsMaskedLine(text: Bytes, scan: Scan, line: Line) {
    scan.fence.Some? || line.OpensFence() || line.indent >= 4 || IsQuoted(text, line)
  }

  function NextScan(tests: Tests, text: Bytes, scan: Scan, line: Line): Scan
    requires line.body <= |text|
  {
    var plain := IsPlain(tests, text, scan, line);
    Scan(
      match scan.fence
      case Some(fence) => if ClosesFence(tests, text, fence, line) then None else scan.fence
      case None => if line.OpensFence() then Some(line.Opened()) else None,
      if !plain then None else if scan.paragraph.Some? then scan.paragraph else Some(line.start))
  }

  /** What is masked at a line: the spans of the paragraph it ends, then the line if all of it is. */
  function MaskedAt(tests: Tests, text: Bytes, scan: Scan, line: Line): seq<Range>
    requires line.body <= |text| && line.start <= |text|
             && (scan.paragraph.Some? ==> scan.paragraph.value <= line.start)
  {
    (if IsPlain(tests, text, scan, line) then [] else SpansIn(text, scan.paragraph, line.start))
    + (if IsMaskedLine(text, scan, line) then [Range(line.start, line.end)] else [])
  }

  /** The code ranges from the line at `start` on. */
  function CodeFrom(tests: Tests, text: Bytes, scan: Scan, start: nat): seq<Range>
    requires start <= |text| && (scan.paragraph.Some? ==> scan.paragraph.value <= start)
    decreases |text| - start
  {
    if start == |text| then SpansIn(text, scan.paragraph, start)
    else
      var line := LineAt(text, start);
      MaskedAt(tests, text, scan, line) + CodeFrom(tests, text, NextScan(tests, text, scan, line), line.end)
  }

  function CodeRanges(tests: Tests, text: Bytes): seq<Range> {
    CodeFrom(tests, text, Scan(None, None), 0)
  }

  // ----- Blanking -----

  function BlankByte(b: Byte): Byte {
    if b == NEWLINE then b else SPACE
  }

  function Blanked(text: Bytes, range: Range): (after: Bytes)
    ensures |after| == |text|
  {
    seq(|text|, i requires 0 <= i < |text| => if range.from <= i < range.end then BlankByte(text[i]) else text[i])
  }

  function BlankedAll(text: Bytes, ranges: seq<Range>): (after: Bytes)
    ensures |after| == |text|
    decreases |ranges|
  {
    if ranges == [] then text else BlankedAll(Blanked(text, ranges[0]), ranges[1..])
  }

  /** `text` with leaked reasoning masked. */
  function MaskThink(text: Bytes): Bytes {
    BlankedAll(text, ThinkRanges(text))
  }

  /** `text` with leaked reasoning and code masked. */
  function MaskCode(tests: Tests, text: Bytes): Bytes {
    BlankedAll(text, ThinkRanges(text) + CodeRanges(tests, text))
  }

  // ----- Ranges in order, of whole characters -----

  /** Ranges between `from` and `end`, one after another, each of whole characters. */
  predicate Ordered(text: Bytes, from: nat, ranges: seq<Range>, end: nat)
    decreases |ranges|
  {
    from <= end <= |text| &&
    (ranges != [] ==>
      var r := ranges[0];
      && from <= r.from < r.end <= end && IsBoundary(text, r.from) && IsBoundary(text, r.end)
      && Ordered(text, r.end, ranges[1..], end))
  }

  lemma {:induction false} OrderedConcat(text: Bytes, from: nat, a: seq<Range>, middle: nat, b: seq<Range>, end: nat)
    requires Ordered(text, from, a, middle) && Ordered(text, middle, b, end)
    ensures Ordered(text, from, a + b, end)
    decreases |a|
  {
    if a == [] {
      assert a + b == b;
      OrderedFrom(text, from, middle, b, end);
    } else {
      assert (a + b)[1..] == a[1..] + b;
      OrderedConcat(text, a[0].end, a[1..], middle, b, end);
    }
  }

  lemma OrderedFrom(text: Bytes, from: nat, middle: nat, ranges: seq<Range>, end: nat)
    requires from <= middle && Ordered(text, middle, ranges, end)
    ensures Ordered(text, from, ranges, end)
  {
  }

  lemma OrderedOne(text: Bytes, from: nat, r: Range)
    requires from <= r.from < r.end <= |text| && IsBoundary(text, r.from) && IsBoundary(text, r.end)
    ensures Ordered(text, from, [r], r.end)
  {
    assert [r][1..] == [];
  }

  lemma LineEndIsBoundary(text: Bytes, from: nat)
    requires Valid(text) && from <= |text|
    ensures IsBoundary(text, LineEnd(text, from))
  {
    var end := LineEnd(text, from);
    if end < |text| {
      AfterAscii(text, end - 1);
    }
  }

  lemma LastOfOccurrence(text: Bytes, p: Bytes, at: nat)
    requires p != [] && OccursAt(text, p, at)
    ensures at + |p| <= |text| && text[at + |p| - 1] == p[|p| - 1]
  {
    assert text[at..at + |p|][|p| - 1] == text[at + |p| - 1];
  }

  lemma ClosingIsBoundary(text: Bytes, close: nat)
    requires Valid(text) && EndsTag(text, close)
    ensures IsBoundary(text, close)
  {
    hide Valid;
    hide OccursAt;
    LastOfOccurrence(text, CLOSE, close - |CLOSE|);
    AfterAscii(text, close - 1);
  }

  /** A leaked range from a `<think>` to its `</think>`. */
  lemma OpenToClose(text: Bytes, from: nat, open: nat)
    requires Valid(text) && from <= open && StartsAt(text, OPEN, open) && Closing(text, open).Some?
    ensures Ordered(text, from, [Range(open, Closing(text, open).value)], Closing(text, open).value)
  {
    var close := Closing(text, open).value;
    ClosingIsBoundary(text, close);
    assert text[open] == text[open..][0] == OPEN[0];
    OrderedOne(text, from, Range(open, close));
  }

  lemma {:induction false} PairsAreOrdered(text: Bytes, close: nat)
    requires Valid(text) && close <= |text|
    ensures Ordered(text, close, PairsAfter(text, close).0, PairsAfter(text, close).1)
    decreases |text| - close
  {
    var open := SkipSpaces(text, close);
    if StartsAt(text, OPEN, open) && Closing(text, open).Some? {
      var next := Closing(text, open).value;
      OpenToClose(text, close, open);
      PairsAreOrdered(text, next);
      OrderedConcat(text, close, [Range(open, next)], next, PairsAfter(text, next).0, PairsAfter(text, next).1);
    }
  }

  lemma {:induction false} ThinkFromIsOrdered(text: Bytes, from: nat)
    requires Valid(text) && from <= |text|
    ensures Ordered(text, from, ThinkFrom(text, from), |text|)
    decreases |text| - from
  {
    hide Ordered;
    if from < |text| {
      var open := SkipSpaces(text, from);
      if TagAtLine(text, from, OPEN) && Closing(text, open).Some? {
        var close := Closing(text, open).value;
        var (pairs, next) := PairsAfter(text, close);
        OpenToClose(text, from, open);
        PairsAreOrdered(text, close);
        OrderedConcat(text, from, [Range(open, close)], close, pairs, next);
        ThinkFromIsOrdered(text, next);
        OrderedConcat(text, from, [Range(open, close)] + pairs, next, ThinkFrom(text, next), |text|);
      } else {
        ThinkFromIsOrdered(text, LineEnd(text, from));
        OrderedNone(text, from, LineEnd(text, from));
        OrderedConcat(text, from, [], LineEnd(text, from), ThinkFrom(text, LineEnd(text, from)), |text|);
        assert [] + ThinkFrom(text, LineEnd(text, from)) == ThinkFrom(text, from);
      }
    } else {
      OrderedNone(text, from, from);
    }
  }

  lemma OrderedNone(text: Bytes, from: nat, end: nat)
    requires from <= end <= |text|
    ensures Ordered(text, from, [], end)
  {
  }

  /** The leaked ranges are ascending, disjoint, in bounds and of whole characters. */
  lemma ThinkRangesAreOrdered(text: Bytes)
    requires Valid(text)
    ensures Ordered(text, 0, ThinkRanges(text), |text|)
  {
    hide Ordered;
    hide Valid;
    hide TemplateOpenedClose;
    hide PairsAfter;
    hide ThinkFrom;
    match TemplateOpenedClose(text, 0)
    case Some(close) =>
      var (pairs, from) := PairsAfter(text, close);
      ClosingIsBoundary(text, close);
      ValidStarts(text);
      OrderedOne(text, 0, Range(0, close));
      PairsAreOrdered(text, close);
      OrderedConcat(text, 0, [Range(0, close)], close, pairs, from);
      ThinkFromIsOrdered(text, from);
      OrderedConcat(text, 0, [Range(0, close)] + pairs, from, ThinkFrom(text, from), |text|);
    case None => ThinkFromIsOrdered(text, 0);
  }

  lemma ValidStarts(text: Bytes)
    requires Valid(text)
    ensures IsBoundary(text, 0)
  {
  }

  // ----- Code ranges -----

  /** A range from one backtick to just past another. */
  predicate TickToTick(text: Bytes, r: Range) {
    r.from < r.end <= |text| && text[r.from] == TICK && text[r.end - 1] == TICK
  }

  /** Ranges of backtick to backtick, one after another. */
  predicate Spanned(text: Bytes, from: nat, spans: seq<Range>)
    decreases |spans|
  {
    && from <= |text|
    && (spans != [] ==>
          from <= spans[0].from && TickToTick(text, spans[0]) && Spanned(text, spans[0].end, spans[1..]))
  }

  lemma SpannedFrom(text: Bytes, from: nat, later: nat, spans: seq<Range>)
    requires from <= later && Spanned(text, later, spans)
    ensures Spanned(text, from, spans)
  {
  }

  /** Code spans are ascending, disjoint and in bounds, backtick to backtick. */
  lemma {:induction false} CodeSpansAreSpanned(text: Bytes, i: nat)
    requires i <= |text|
    ensures Spanned(text, i, CodeSpans(text, i))
    decreases |text| - i
  {
    if i < |text| {
      if text[i] != TICK {
        CodeSpansAreSpanned(text, i + 1);
        SpannedFrom(text, i, i + 1, CodeSpans(text, i + 1));
      } else {
        var open := Run(text, i, TICK);
        match CloseRun(text, i + open, open)
        case Some(end) =>
          CodeSpansAreSpanned(text, end);
          assert ([Range(i, end)] + CodeSpans(text, end))[1..] == CodeSpans(text, end);
        case None =>
          CodeSpansAreSpanned(text, i + open);
          SpannedFrom(text, i, i + open, CodeSpans(text, i + open));
      }
    }
  }

  lemma {:induction false} ShiftedIsOrdered(text: Bytes, start: nat, end: nat, from: nat, spans: seq<Range>)
    requires Valid(text) && start <= end <= |text| && Spanned(text[start..end], from, spans)
    ensures Ordered(text, start + from, Shifted(spans, start), end)
    decreases |spans|
  {
    hide Valid;
    hide IsBoundary;
    if spans != [] {
      var r := spans[0];
      ShiftedIsOrdered(text, start, end, r.end, spans[1..]);
      SpanIsWhole(text, start, end, r);
    }
  }

  lemma SpanIsWhole(text: Bytes, start: nat, end: nat, r: Range)
    requires Valid(text) && start <= end <= |text| && TickToTick(text[start..end], r)
    ensures start + r.from < start + r.end <= end
    ensures IsBoundary(text, start + r.from) && IsBoundary(text, start + r.end)
  {
    hide Valid;
    assert text[start..end][r.from] == text[start + r.from] && text[start..end][r.end - 1] == text[start + r.end - 1];
    AfterAscii(text, start + r.end - 1);
  }

  lemma SpansInAreOrdered(text: Bytes, para: Option<nat>, end: nat)
    requires Valid(text) && end <= |text| && (para.Some? ==> para.value <= end)
    ensures Ordered(text, para.GetOr(end), SpansIn(text, para, end), end)
  {
    if para.Some? {
      CodeSpansAreSpanned(text[para.value..end], 0);
      ShiftedIsOrdered(text, para.value, end, 0, CodeSpans(text[para.value..end], 0));
    }
  }

  lemma {:induction false} CodeFromIsOrdered(tests: Tests, text: Bytes, scan: Scan, start: nat)
    requires Valid(text) && IsBoundary(text, start) && (scan.paragraph.Some? ==> scan.paragraph.value <= start)
    ensures Ordered(text, scan.paragraph.GetOr(start), CodeFrom(tests, text, scan, start), |text|)
    decreases |text| - start
  {
    hide Ordered;
    hide Valid;
    hide SpansIn;
    hide IsPlain;
    hide ClosesFence;
    SpansInAreOrdered(text, scan.paragraph, start);
    if start < |text| {
      var line := LineAt(text, start);
      var next, from := NextScan(tests, text, scan, line), scan.paragraph.GetOr(start);
      var spans := if IsPlain(tests, text, scan, line) then [] else SpansIn(text, scan.paragraph, start);
      var whole := if IsMaskedLine(text, scan, line) then [Range(start, line.end)] else [];
      LineEndIsBoundary(text, start);
      CodeFromIsOrdered(tests, text, next, line.end);
      var rest := CodeFrom(tests, text, next, line.end);
      if IsPlain(tests, text, scan, line) {
        PlainIsNotMasked(tests, text, scan, line);
        assert [] + [] + rest == rest;
      } else {
        if IsMaskedLine(text, scan, line) {
          OrderedOne(text, start, Range(start, line.end));
        } else {
          OrderedNone(text, start, line.end);
        }
        OrderedConcat(text, from, spans, start, whole, line.end);
        OrderedConcat(text, from, spans + whole, line.end, rest, |text|);
      }
    }
  }

  lemma PlainIsNotMasked(tests: Tests, text: Bytes, scan: Scan, line: Line)
    requires line.body <= |text| && IsPlain(tests, text, scan, line)
    ensures !IsMaskedLine(text, scan, line)
  {
  }

  /** The code ranges are ascending, disjoint, in bounds and of whole characters. */
  lemma CodeRangesAreOrdered(tests: Tests, text: Bytes)
    requires Valid(text)
    ensures Ordered(text, 0, CodeRanges(tests, text), |text|)
  {
    ValidStarts(text);
    CodeFromIsOrdered(tests, text, Scan(None, None), 0);
  }

  // ----- What blanking keeps -----

  /** Some range holds `i`. */
  predicate Covered(ranges: seq<Range>, i: nat) {
    exists r | r in ranges :: r.from <= i < r.end
  }

  lemma CoveredFirst(ranges: seq<Range>, i: nat)
    requires ranges != []
    ensures Covered(ranges, i) <==> ranges[0].from <= i < ranges[0].end || Covered(ranges[1..], i)
  {
    if Covered(ranges, i) && !(ranges[0].from <= i < ranges[0].end) {
      var r :| r in ranges && r.from <= i < r.end;
      assert r in ranges[1..];
    }
  }

  /** A byte in a range becomes a space unless it is a newline; every other byte stays. */
  lemma {:induction false} BlankedAllAt(text: Bytes, ranges: seq<Range>, i: nat)
    requires i < |text|
    ensures BlankedAll(text, ranges)[i] == if Covered(ranges, i) then BlankByte(text[i]) else text[i]
    decreases |ranges|
  {
    hide Covered;
    if ranges == [] {
      NothingCovered(i);
    } else {
      CoveredFirst(ranges, i);
      BlankedAllAt(Blanked(text, ranges[0]), ranges[1..], i);
    }
  }

  lemma NothingCovered(i: nat)
    ensures !Covered([], i)
  {
  }

  /** Same length, every newline kept, and every other byte as it was or a space. */
  predicate Masks(masked: Bytes, text: Bytes) {
    && |masked| == |text|
    && forall i | 0 <= i < |text| :: masked[i] == text[i] || (masked[i] == SPACE && text[i] != NEWLINE)
  }

  lemma BlankingMasks(text: Bytes, ranges: seq<Range>)
    ensures Masks(BlankedAll(text, ranges), text)
  {
    forall i | 0 <= i < |text|
      ensures BlankedAll(text, ranges)[i] == text[i] || (BlankedAll(text, ranges)[i] == SPACE && text[i] != NEWLINE)
    {
      BlankedAllAt(text, ranges, i);
    }
  }

  /** Each range lies in the text and is of whole characters. */
  predicate Whole(text: Bytes, ranges: seq<Range>) {
    forall r | r in ranges :: r.from <= r.end <= |text| && IsBoundary(text, r.from) && IsBoundary(text, r.end)
  }

  lemma {:induction false} OrderedIsWhole(text: Bytes, from: nat, ranges: seq<Range>, end: nat)
    requires Ordered(text, from, ranges, end)
    ensures Whole(text, ranges)
    decreases |ranges|
  {
    if ranges != [] {
      OrderedIsWhole(text, ranges[0].end, ranges[1..], end);
      assert forall r | r in ranges :: r == ranges[0] || r in ranges[1..];
    }
  }

  lemma BlankedIsAscii(text: Bytes, r: Range)
    requires r.from <= r.end <= |text|
    ensures forall i | 0 <= i < r.end - r.from :: IsAscii(Blanked(text, r)[r.from..r.end][i])
    ensures Blanked(text, r) == text[..r.from] + Blanked(text, r)[r.from..r.end] + text[r.end..]
  {
  }

  /** Blanking whole characters of valid text leaves valid text. */
  lemma BlankedIsValid(text: Bytes, r: Range)
    requires Valid(text) && Whole(text, [r])
    ensures Valid(Blanked(text, r))
  {
    hide Valid;
    assert r in [r];
    BlankedIsAscii(text, r);
    var spaces := Blanked(text, r)[r.from..r.end];
    ValidCut(text, r.from);
    ValidCut(text, r.end);
    AsciiIsValid(spaces);
    ValidConcat(text[..r.from], spaces);
    ValidConcat(text[..r.from] + spaces, text[r.end..]);
  }

  lemma BlankingKeepsBoundaries(text: Bytes, r: Range, ranges: seq<Range>)
    requires Whole(text, ranges)
    ensures Whole(Blanked(text, r), ranges)
  {
  }

  lemma {:induction false} BlankingIsValid(text: Bytes, ranges: seq<Range>)
    requires Valid(text) && Whole(text, ranges)
    ensures Valid(BlankedAll(text, ranges))
    decreases |ranges|
  {
    hide Valid;
    hide Blanked;
    if ranges != [] {
      assert ranges[0] in ranges;
      BlankedIsValid(text, ranges[0]);
      BlankingKeepsBoundaries(text, ranges[0], ranges[1..]);
      BlankingIsValid(Blanked(text, ranges[0]), ranges[1..]);
    }
  }

  /** Masked reasoning leaves valid UTF-8, so the source's `expect` never fires, and keeps all but what it blanks. */
  lemma MaskThinkKeeps(text: Bytes)
    requires Valid(text)
    ensures Valid(MaskThink(text)) && Masks(MaskThink(text), text)
  {
    ThinkRangesAreOrdered(text);
    OrderedIsWhole(text, 0, ThinkRanges(text), |text|);
    BlankingIsValid(text, ThinkRanges(text));
    BlankingMasks(text, ThinkRanges(text));
  }

  /** The same of masked code, whatever counts as a tag call or as white space. */
  lemma MaskCodeKeeps(tests: Tests, text: Bytes)
    requires Valid(text)
    ensures Valid(MaskCode(tests, text)) && Masks(MaskCode(tests, text), text)
  {
    hide Valid;
    hide Ordered;
    var think, code := ThinkRanges(text), CodeRanges(tests, text);
    ThinkRangesAreOrdered(text);
    OrderedIsWhole(text, 0, think, |text|);
    CodeRangesAreOrdered(tests, text);
    OrderedIsWhole(text, 0, code, |text|);
    assert Whole(text, think + code);
    BlankingIsValid(text, think + code);
    BlankingMasks(text, think + code);
  }

  /** What is found in masked text stands at the same place in the text itself. */
  lemma MarkersStay(masked: Bytes, text: Bytes, marker: Bytes, at: nat)
    requires Masks(masked, text) && SPACE !in marker && OccursAt(masked, marker, at)
    ensures OccursAt(text, marker, at)
  {
    forall i | 0 <= i < |marker| ensures text[at..at + |marker|][i] == marker[i] {
      assert masked[at..at + |marker|][i] == masked[at + i];
      assert marker[i] in marker;
    }
  }

  // ----- What a code span is -----

  /** A run of exactly `n` backticks stands at `at`. */
  predicate IsRun(text: Bytes, at: nat, n: nat) {
    && n > 0 && at + n <= |text|
    && (forall i | at <= i < at + n :: text[i] == TICK)
    && (at > 0 ==> text[at - 1] != TICK)
    && (at + n < |text| ==> text[at + n] != TICK)
  }

  /** Not in the middle of a run. */
  predicate AtRunStart(text: Bytes, j: nat) {
    0 < j < |text| && text[j] == TICK ==> text[j - 1] != TICK
  }

  lemma RunIsRun(text: Bytes, at: nat, n: nat)
    requires at < |text| && AtRunStart(text, at) && text[at] == TICK
    ensures IsRun(text, at, Run(text, at, TICK)) && (IsRun(text, at, n) ==> n == Run(text, at, TICK))
  {
  }

  /** The next run of the same length, if any, is where a span closes. */
  lemma {:induction false} CloseRunIsNext(text: Bytes, j: nat, open: nat)
    requires open > 0 && j <= |text| && AtRunStart(text, j)
    ensures match CloseRun(text, j, open)
            case Some(end) =>
              && end - open >= j && IsRun(text, end - open, open)
              && forall k | j <= k < end - open :: !IsRun(text, k, open)
            case None => forall k | j <= k :: !IsRun(text, k, open)
    decreases |text| - j
  {
    hide IsRun;
    if j < |text| {
      if text[j] == TICK {
        var n := Run(text, j, TICK);
        RunIsRun(text, j, open);
        NoRunInside(text, j, n, open);
        AfterRun(text, j, n);
        if n != open {
          CloseRunIsNext(text, j + n, open);
        }
      } else {
        NoRunHere(text, j, open);
        AfterOther(text, j);
        CloseRunIsNext(text, j + 1, open);
      }
    } else {
      NoRunPast(text, open);
    }
  }

  lemma NoRunPast(text: Bytes, n: nat)
    ensures forall k | |text| <= k :: !IsRun(text, k, n)
  {
  }

  lemma NoRunHere(text: Bytes, j: nat, n: nat)
    requires j < |text| && text[j] != TICK
    ensures !IsRun(text, j, n)
  {
  }

  lemma AfterOther(text: Bytes, j: nat)
    requires j < |text| && text[j] != TICK
    ensures AtRunStart(text, j + 1)
  {
  }

  lemma AfterRun(text: Bytes, j: nat, n: nat)
    requires IsRun(text, j, n)
    ensures j + n <= |text| && AtRunStart(text, j + n)
  {
  }

  lemma NoRunInside(text: Bytes, j: nat, n: nat, open: nat)
    requires IsRun(text, j, n)
    ensures forall k | j < k < j + n :: !IsRun(text, k, open)
  {
  }

  /** A code span is a run of backticks up to the next run of the same length. */
  lemma {:induction false} SpansAreCode(text: Bytes, i: nat, r: Range)
    requires i <= |text| && AtRunStart(text, i) && r in CodeSpans(text, i)
    ensures exists n: nat :: IsRun(text, r.from, n) && r.from + 2 * n <= r.end && IsRun(text, r.end - n, n)
                         && forall k | r.from + n <= k < r.end - n :: !IsRun(text, k, n)
    decreases |text| - i
  {
    hide IsRun;
    hide CodeSpans;
    hide CloseRun;
    hide AtRunStart;
    SpansStartBefore(text, i, r);
    SpansUnfold(text, i);
    if text[i] != TICK {
      AfterOther(text, i);
      SpansAreCode(text, i + 1, r);
    } else {
      var open := Run(text, i, TICK);
      RunIsRun(text, i, open);
      AfterRun(text, i, open);
      CloseRunIsNext(text, i + open, open);
      match CloseRun(text, i + open, open)
      case Some(end) =>
        if r == Range(i, end) {
          assert IsRun(text, r.from, open);
        } else {
          AfterRun(text, end - open, open);
          SpansAreCode(text, end, r);
        }
      case None => SpansAreCode(text, i + open, r);
    }
  }

  lemma SpansStartBefore(text: Bytes, i: nat, r: Range)
    requires i <= |text| && r in CodeSpans(text, i)
    ensures i < |text|
  {
  }

  /** Some range starts at `k`. */
  predicate Begins(ranges: seq<Range>, k: nat) {
    exists r | r in ranges :: r.from == k
  }

  /** `k` is inside a range that starts before it. */
  predicate Inside(ranges: seq<Range>, k: nat) {
    exists r | r in ranges :: r.from < k < r.end
  }

  /** A run of exactly `n` backticks stands at or after `from`. */
  predicate Recurs(text: Bytes, from: nat, n: nat) {
    exists m | from <= m < |text| :: IsRun(text, m, n)
  }

  lemma {:induction false} SpannedAfter(text: Bytes, from: nat, spans: seq<Range>)
    requires Spanned(text, from, spans)
    ensures forall r | r in spans :: from <= r.from
    decreases |spans|
  {
    hide TickToTick;
    if spans != [] {
      SpannedForward(text, from, spans);
      SpannedAfter(text, spans[0].end, spans[1..]);
    }
  }

  lemma SpannedForward(text: Bytes, from: nat, spans: seq<Range>)
    requires Spanned(text, from, spans) && spans != []
    ensures from <= spans[0].from < spans[0].end
  {
  }

  lemma SpansStartFrom(text: Bytes, i: nat)
    requires i <= |text|
    ensures forall r | r in CodeSpans(text, i) :: i <= r.from
  {
    hide Spanned;
    hide CodeSpans;
    CodeSpansAreSpanned(text, i);
    SpannedAfter(text, i, CodeSpans(text, i));
  }

  lemma MoreRanges(first: Range, rest: seq<Range>, k: nat)
    ensures Begins([first] + rest, k) <==> first.from == k || Begins(rest, k)
    ensures Inside([first] + rest, k) <==> first.from < k < first.end || Inside(rest, k)
  {
    assert first in [first] + rest;
    assert forall r :: r in [first] + rest <==> r == first || r in rest;
  }

  /**
   A run of backticks opens a code span exactly when a run as long follows it and no earlier span holds it.
   So all the code is masked, and only the code.
   */
  lemma {:induction false} RunsOpenSpans(text: Bytes, i: nat, k: nat, n: nat)
    requires AtRunStart(text, i) && i <= k && IsRun(text, k, n) && i <= |text|
    ensures Begins(CodeSpans(text, i), k) <==> Recurs(text, k + n, n) && !Inside(CodeSpans(text, i), k)
    decreases |text| - i, 1
  {
    hide IsRun;
    hide Begins;
    hide Inside;
    hide Recurs;
    hide CodeSpans;
    hide CloseRun;
    hide AtRunStart;
    RunIsThere(text, k, n);
    SpansUnfold(text, i);
    if text[i] != TICK {
      AfterOther(text, i);
      RunsOpenSpans(text, i + 1, k, n);
    } else if k == i {
      RunHereOpens(text, k, n);
    } else {
      var open := Run(text, i, TICK);
      RunIsRun(text, i, n);
      NoRunInside(text, i, open, n);
      AfterRun(text, i, open);
      CloseRunIsNext(text, i + open, open);
      match CloseRun(text, i + open, open)
      case Some(end) => LaterRuns(text, i, open, end, k, n);
      case None => RunsOpenSpans(text, i + open, k, n);
    }
  }

  lemma {:induction false} LaterRuns(text: Bytes, i: nat, open: nat, end: nat, k: nat, n: nat)
    requires i < k && IsRun(text, k, n) && open > 0 && i + open + open <= end <= |text| && IsRun(text, end - open, open)
    requires CodeSpans(text, i) == [Range(i, end)] + CodeSpans(text, end)
    ensures Begins(CodeSpans(text, i), k) <==> Recurs(text, k + n, n) && !Inside(CodeSpans(text, i), k)
    decreases |text| - i, 0
  {
    hide IsRun;
    hide Begins;
    hide Inside;
    hide Recurs;
    hide CodeSpans;
    hide AtRunStart;
    MoreRanges(Range(i, end), CodeSpans(text, end), k);
    if k < end {
      NoneBegins(text, end, k);
    } else {
      AfterRun(text, end - open, open);
      RunsOpenSpans(text, end, k, n);
    }
  }

  lemma RunIsThere(text: Bytes, k: nat, n: nat)
    requires IsRun(text, k, n)
    ensures n > 0 && k + n <= |text| && text[k] == TICK
  {
  }

  lemma NoneBegins(text: Bytes, i: nat, k: nat)
    requires k < i <= |text|
    ensures !Begins(CodeSpans(text, i), k) && !Inside(CodeSpans(text, i), k)
  {
    hide CodeSpans;
    SpansStartFrom(text, i);
  }

  lemma {:induction false} SpansUnfold(text: Bytes, i: nat)
    requires i < |text|
    ensures if text[i] != TICK then CodeSpans(text, i) == CodeSpans(text, i + 1)
            else
              var open := Run(text, i, TICK);
              match CloseRun(text, i + open, open)
              case Some(end) => CodeSpans(text, i) == [Range(i, end)] + CodeSpans(text, end)
              case None => CodeSpans(text, i) == CodeSpans(text, i + open)
  {
    hide CloseRun;
    hide Run;
  }

  lemma RunHereOpens(text: Bytes, k: nat, n: nat)
    requires AtRunStart(text, k) && IsRun(text, k, n) && k < |text| && text[k] == TICK
    ensures Begins(CodeSpans(text, k), k) <==> Recurs(text, k + n, n)
    ensures !Inside(CodeSpans(text, k), k)
  {
    hide IsRun;
    hide CodeSpans;
    hide CloseRun;
    hide Begins;
    hide Inside;
    hide AtRunStart;
    RunIsRun(text, k, n);
    AfterRun(text, k, n);
    SpansUnfold(text, k);
    CloseRunIsNext(text, k + n, n);
    match CloseRun(text, k + n, n)
    case Some(end) =>
      MoreRanges(Range(k, end), CodeSpans(text, end), k);
      NoneBegins(text, end, k);
      RunIsThere(text, end - n, n);
      assert IsRun(text, end - n, n);
    case None => NoneBegins(text, k + n, k);
  }

  // ----- What a leaked range is -----

  /** From a `<think>` to the first `</think>` after it. */
  predicate OpenedAndClosed(text: Bytes, r: Range) {
    && StartsAt(text, OPEN, r.from) && r.from + |OPEN| + |CLOSE| <= r.end
    && OccursAt(text, CLOSE, r.end - |CLOSE|)
    && forall k | r.from + |OPEN| <= k < r.end - |CLOSE| :: !OccursAt(text, CLOSE, k)
  }

  lemma ClosingCloses(text: Bytes, open: nat)
    requires StartsAt(text, OPEN, open) && Closing(text, open).Some?
    ensures OpenedAndClosed(text, Range(open, Closing(text, open).value))
  {
  }

  lemma {:induction false} PairsAreClosed(text: Bytes, close: nat)
    requires close <= |text|
    ensures forall r | r in PairsAfter(text, close).0 :: OpenedAndClosed(text, r)
    decreases |text| - close
  {
    hide OpenedAndClosed;
    var open := SkipSpaces(text, close);
    if StartsAt(text, OPEN, open) && Closing(text, open).Some? {
      ClosingCloses(text, open);
      PairsAreClosed(text, Closing(text, open).value);
    }
  }

  lemma {:induction false} ThinkFromIsClosed(text: Bytes, from: nat)
    requires from <= |text|
    ensures forall r | r in ThinkFrom(text, from) :: OpenedAndClosed(text, r)
    decreases |text| - from
  {
    hide OpenedAndClosed;
    hide Closing;
    hide StartsAt;
    if from < |text| {
      var open := SkipSpaces(text, from);
      if TagAtLine(text, from, OPEN) && Closing(text, open).Some? {
        var close := Closing(text, open).value;
        ClosingCloses(text, open);
        PairsAreClosed(text, close);
        ThinkFromIsClosed(text, PairsAfter(text, close).1);
      } else {
        ThinkFromIsClosed(text, LineEnd(text, from));
      }
    }
  }

  predicate IsLineStart(text: Bytes, s: nat) {
    s == 0 || (s <= |text| && text[s - 1] == NEWLINE)
  }

  /** The first of its line but for at most three spaces. */
  predicate AtLineStart(text: Bytes, at: nat) {
    exists s: nat | s <= at && s <= |text| :: IsLineStart(text, s) && at - s <= 3 && SkipSpaces(text, s) == at
  }

  /** A `</think>` at a line's start. */
  predicate ClosesLine(text: Bytes, at: nat) {
    AtLineStart(text, at) && StartsAt(text, CLOSE, at)
  }

  /**
   Reasoning the template opened runs from the start through the first `</think>` at a line's start, with no
   `<think>` before that.
   */
  predicate TemplateOpened(text: Bytes, r: Range) {
    && r.from == 0 && |CLOSE| <= r.end <= |text| && ClosesLine(text, r.end - |CLOSE|)
    && (forall k | 0 <= k < r.end - |CLOSE| :: !ClosesLine(text, k))
    && !Contains(text[..r.end - |CLOSE|], OPEN)
  }

  lemma StartsOnOneLine(text: Bytes, start: nat, s: nat, at: nat)
    requires start <= |text| && IsLineStart(text, start) && start <= at < LineEnd(text, start)
    requires s <= at && s <= |text| && IsLineStart(text, s) && SkipSpaces(text, s) == at
    ensures s == start
  {
    if s < start {
      NewlineStops(text, s, start);
    } else if start < s {
      NextLineStart(text, start, s);
    }
  }

  lemma NewlineStops(text: Bytes, s: nat, start: nat)
    requires s < start <= |text| && IsLineStart(text, start)
    ensures SkipSpaces(text, s) < start
  {
  }

  lemma NoneClosesInLine(text: Bytes, start: nat, at: nat)
    requires start <= |text| && IsLineStart(text, start) && start <= at < LineEnd(text, start) && ClosesLine(text, at)
    ensures TagAtLine(text, start, CLOSE) && SkipSpaces(text, start) == at
  {
    hide StartsAt;
    var s: nat :| s <= at && s <= |text| && IsLineStart(text, s) && at - s <= 3 && SkipSpaces(text, s) == at;
    StartsOnOneLine(text, start, s, at);
  }

  lemma TagIsInLine(text: Bytes, start: nat)
    requires start <= |text| && TagAtLine(text, start, CLOSE)
    ensures SkipSpaces(text, start) < LineEnd(text, start)
  {
    var at := SkipSpaces(text, start);
    assert text[at] == text[at..][0] == CLOSE[0];
    SpacesAreInLine(text, start, at);
  }

  lemma {:induction false} SpacesAreInLine(text: Bytes, start: nat, at: nat)
    requires start <= at < |text| && forall k | start <= k < at :: text[k] == SPACE
    ensures at < LineEnd(text, start)
    decreases at - start
  {
    if start < at {
      SpacesAreInLine(text, start + 1, at);
    }
  }

  lemma {:induction false} TemplateOpenedIs(text: Bytes, start: nat)
    requires start <= |text| && (start == |text| || IsLineStart(text, start))
    requires forall k: nat | k < start :: !ClosesLine(text, k)
    ensures match TemplateOpenedClose(text, start)
            case Some(close) => TemplateOpened(text, Range(0, close))
            case None => forall r :: !TemplateOpened(text, r)
    decreases |text| - start
  {
    hide ClosesLine;
    hide TagAtLine;
    hide IsLineStart;
    if start == |text| {
    } else if TagAtLine(text, start, CLOSE) {
      FirstCloses(text, start);
    } else {
      var end := LineEnd(text, start);
      forall k: nat | k < end ensures !ClosesLine(text, k) {
        if start <= k && ClosesLine(text, k) {
          NoneClosesInLine(text, start, k);
        }
      }
      LineEndStarts(text, start);
      TemplateOpenedIs(text, end);
    }
  }

  lemma LineEndStarts(text: Bytes, start: nat)
    requires start <= |text|
    ensures LineEnd(text, start) == |text| || IsLineStart(text, LineEnd(text, start))
  {
  }

  lemma FirstCloses(text: Bytes, start: nat)
    requires start < |text| && IsLineStart(text, start) && TagAtLine(text, start, CLOSE)
    requires forall k: nat | k < start :: !ClosesLine(text, k)
    ensures match TemplateOpenedClose(text, start)
            case Some(close) => TemplateOpened(text, Range(0, close))
            case None => forall r :: !TemplateOpened(text, r)
  {
    hide Contains;
    hide TagAtLine;
    hide IsLineStart;
    hide StartsAt;
    hide ClosesLine;
    var at := SkipSpaces(text, start);
    TagCloses(text, start);
    TagIsInLine(text, start);
    forall k: nat | k < at ensures !ClosesLine(text, k) {
      if start <= k && ClosesLine(text, k) {
        NoneClosesInLine(text, start, k);
      }
    }
  }

  lemma TagCloses(text: Bytes, start: nat)
    requires start < |text| && IsLineStart(text, start) && TagAtLine(text, start, CLOSE)
    ensures ClosesLine(text, SkipSpaces(text, start))
  {
    assert AtLineStart(text, SkipSpaces(text, start));
  }

  /** Only spaces stand between the end of one of the ranges and `at`. */
  predicate Follows(text: Bytes, ranges: seq<Range>, at: nat) {
    exists p | p in ranges :: p.end <= |text| && SkipSpaces(text, p.end) == at
  }

  /** Where a `<think>` may begin a leaked range: at a line's start, or straight after another. */
  predicate MayBegin(text: Bytes, ranges: seq<Range>, at: nat) {
    AtLineStart(text, at) || Follows(text, ranges, at)
  }

  lemma MoreMayBegin(text: Bytes, some: seq<Range>, all: seq<Range>, at: nat)
    requires forall r | r in some :: r in all
    ensures MayBegin(text, some, at) ==> MayBegin(text, all, at)
  {
  }

  lemma FollowsOne(text: Bytes, ranges: seq<Range>, p: Range)
    requires p in ranges && p.end <= |text|
    ensures MayBegin(text, ranges, SkipSpaces(text, p.end))
  {
  }

  lemma {:induction false} PairsMayBegin(text: Bytes, before: Range)
    requires before.end <= |text|
    ensures forall r | r in PairsAfter(text, before.end).0 ::
              MayBegin(text, [before] + PairsAfter(text, before.end).0, r.from)
    decreases |text| - before.end
  {
    hide MayBegin;
    hide StartsAt;
    hide Closing;
    hide PairsAfter;
    PairsUnfold(text, before.end);
    var open := SkipSpaces(text, before.end);
    if StartsAt(text, OPEN, open) && Closing(text, open).Some? {
      var first := Range(open, Closing(text, open).value);
      var pairs, all := [first] + PairsAfter(text, first.end).0, [before] + PairsAfter(text, before.end).0;
      PairsMayBegin(text, first);
      FollowsOne(text, all, before);
      forall r | r in pairs ensures MayBegin(text, all, r.from) {
        MoreMayBegin(text, pairs, all, r.from);
      }
    }
  }

  lemma TagMayBegin(text: Bytes, from: nat, ranges: seq<Range>)
    requires from <= |text| && IsLineStart(text, from) && TagAtLine(text, from, OPEN)
    ensures MayBegin(text, ranges, SkipSpaces(text, from))
  {
  }

  lemma NextStartsLine(text: Bytes, close: nat)
    requires close <= |text|
    ensures PairsAfter(text, close).1 == |text| || IsLineStart(text, PairsAfter(text, close).1)
    decreases |text| - close
  {
    hide StartsAt;
    hide Closing;
    hide PairsAfter;
    PairsUnfold(text, close);
    LineEndStarts(text, close);
    var open := SkipSpaces(text, close);
    if StartsAt(text, OPEN, open) && Closing(text, open).Some? {
      NextStartsLine(text, Closing(text, open).value);
    }
  }

  lemma {:induction false} ThinkFromMayBegin(text: Bytes, from: nat)
    requires from <= |text| && (from == |text| || IsLineStart(text, from))
    ensures forall r | r in ThinkFrom(text, from) :: MayBegin(text, ThinkFrom(text, from), r.from)
    decreases |text| - from
  {
    hide MayBegin;
    hide Closing;
    hide StartsAt;
    hide PairsAfter;
    hide ThinkFrom;
    hide IsLineStart;
    if from < |text| {
      ThinkUnfolds(text, from);
      var open := SkipSpaces(text, from);
      if TagAtLine(text, from, OPEN) && Closing(text, open).Some? {
        var first := Range(open, Closing(text, open).value);
        var (pairs, next) := PairsAfter(text, first.end);
        TagMayBegin(text, from, ThinkFrom(text, from));
        PairsMayBegin(text, first);
        NextStartsLine(text, first.end);
        ThinkFromMayBegin(text, next);
        BothMayBegin(text, [first] + pairs, ThinkFrom(text, next), pairs);
      } else {
        LineEndStarts(text, from);
        ThinkFromMayBegin(text, LineEnd(text, from));
      }
    } else {
      ThinkDone(text);
    }
  }

  lemma BothMayBegin(text: Bytes, a: seq<Range>, b: seq<Range>, some: seq<Range>)
    requires forall r | r in some :: MayBegin(text, a, r.from)
    requires forall r | r in b :: MayBegin(text, b, r.from)
    ensures forall r | r in some || r in b :: MayBegin(text, a + b, r.from)
  {
    hide MayBegin;
    forall r | r in some || r in b ensures MayBegin(text, a + b, r.from) {
      MoreMayBegin(text, a, a + b, r.from);
      MoreMayBegin(text, b, a + b, r.from);
    }
  }

  /**
   Nothing but leaked reasoning is masked: each range is a closed `<think>`, at a line's start or straight
   after another range, or what the template opened.
   */
  lemma ThinkRangesAreReasoning(text: Bytes, r: Range)
    requires r in ThinkRanges(text)
    ensures (OpenedAndClosed(text, r) && MayBegin(text, ThinkRanges(text), r.from)) || TemplateOpened(text, r)
  {
    hide OpenedAndClosed;
    hide TemplateOpened;
    hide MayBegin;
    hide PairsAfter;
    hide ThinkFrom;
    hide TemplateOpenedClose;
    TemplateOpenedIs(text, 0);
    match TemplateOpenedClose(text, 0)
    case Some(close) =>
      var (pairs, from) := PairsAfter(text, close);
      PairsAreClosed(text, close);
      ThinkFromIsClosed(text, from);
      PairsMayBegin(text, Range(0, close));
      NextStartsLine(text, close);
      ThinkFromMayBegin(text, from);
      BothMayBegin(text, [Range(0, close)] + pairs, ThinkFrom(text, from), pairs);
    case None =>
      ThinkFromIsClosed(text, 0);
      ThinkFromMayBegin(text, 0);
  }

  // ----- Every leaked block is a range -----

  lemma {:induction false} NextLineStart(text: Bytes, from: nat, s: nat)
    requires from < s <= |text| && IsLineStart(text, s)
    ensures LineEnd(text, from) <= s
    decreases |text| - from
  {
    if text[from] != NEWLINE && from + 1 < s {
      NextLineStart(text, from + 1, s);
    }
  }

  lemma LastIsBracket(text: Bytes, close: nat)
    requires EndsTag(text, close)
    ensures text[close - 1] == 62
  {
    hide OccursAt;
    LastOfOccurrence(text, CLOSE, close - |CLOSE|);
  }

  /** A line that starts inside a range has its first text inside it. */
  lemma {:induction false} SkipStopsBefore(text: Bytes, s: nat, end: nat)
    requires s < end <= |text| && text[end - 1] == 62
    ensures SkipSpaces(text, s) < end
    decreases end - s
  {
    if text[s] == SPACE {
      SkipStopsBefore(text, s + 1, end);
    }
  }

  /**
   A line that starts after `from` and before the end of the range after the spaces there, starts inside the range.
   */
  lemma LineStartsInside(text: Bytes, from: nat, s: nat, end: nat)
    requires from < s <= end <= |text| && IsLineStart(text, s)
    requires |CLOSE| <= end && OccursAt(text, CLOSE, end - |CLOSE|)
    ensures SkipSpaces(text, from) < SkipSpaces(text, s) < end
  {
    hide OccursAt;
    LastIsBracket(text, end);
    SkipStopsBefore(text, s, end);
  }

  lemma {:induction false} PairsHoldLines(text: Bytes, close: nat, s: nat)
    requires close < s <= |text| && s < PairsAfter(text, close).1 && IsLineStart(text, s)
    ensures Inside(PairsAfter(text, close).0, SkipSpaces(text, s))
    decreases |text| - close
  {
    hide Inside;
    hide StartsAt;
    hide Closing;
    hide PairsAfter;
    hide OccursAt;
    hide IsLineStart;
    hide SkipSpaces;
    PairsUnfold(text, close);
    var open := SkipSpaces(text, close);
    if StartsAt(text, OPEN, open) && Closing(text, open).Some? {
      var next := Closing(text, open).value;
      MoreRanges(Range(open, next), PairsAfter(text, next).0, SkipSpaces(text, s));
      if s <= next {
        LineStartsInside(text, close, s, next);
      } else {
        PairsHoldLines(text, next, s);
      }
    } else {
      NextLineStart(text, close, s);
    }
  }

  lemma PairsUnfold(text: Bytes, close: nat)
    requires close <= |text|
    ensures var open := SkipSpaces(text, close);
            if StartsAt(text, OPEN, open) && Closing(text, open).Some? then
              var next := Closing(text, open).value;
              PairsAfter(text, close) == ([Range(open, next)] + PairsAfter(text, next).0, PairsAfter(text, next).1)
            else PairsAfter(text, close) == ([], LineEnd(text, close))
  {
    hide StartsAt;
    hide Closing;
  }

  lemma BothHold(a: seq<Range>, b: seq<Range>, k: nat)
    ensures Begins(a + b, k) <==> Begins(a, k) || Begins(b, k)
    ensures Inside(a + b, k) <==> Inside(a, k) || Inside(b, k)
  {
    assert forall r :: r in a + b <==> r in a || r in b;
  }

  /** A closed `<think>` at the start of the line at `s`. */
  predicate LeaksAt(text: Bytes, s: nat) {
    && s <= |text| && IsLineStart(text, s) && TagAtLine(text, s, OPEN)
    && Closing(text, SkipSpaces(text, s)).Some?
  }

  lemma {:induction false} ThinkFromHolds(text: Bytes, from: nat, s: nat)
    requires from <= s && LeaksAt(text, s)
    ensures var ranges, open := ThinkFrom(text, from), SkipSpaces(text, s);
            Begins(ranges, open) || Inside(ranges, open)
    decreases |text| - from
  {
    hide Begins;
    hide Inside;
    hide ThinkFrom;
    hide PairsAfter;
    hide Closing;
    hide StartsAt;
    TagTakesRoom(text, s);
    ThinkUnfolds(text, from);
    var open := SkipSpaces(text, from);
    if TagAtLine(text, from, OPEN) && Closing(text, open).Some? {
      var close := Closing(text, open).value;
      var (pairs, next) := PairsAfter(text, close);
      BothHold([Range(open, close)] + pairs, ThinkFrom(text, next), SkipSpaces(text, s));
      if next <= s {
        ThinkFromHolds(text, next, s);
      } else {
        PairHolds(text, from, s);
      }
    } else {
      NextLineStart(text, from, s);
      ThinkFromHolds(text, LineEnd(text, from), s);
    }
  }

  lemma PairHolds(text: Bytes, from: nat, s: nat)
    requires from <= s <= |text| && IsLineStart(text, s)
    requires TagAtLine(text, from, OPEN) && Closing(text, SkipSpaces(text, from)).Some?
    requires s < PairsAfter(text, Closing(text, SkipSpaces(text, from)).value).1
    ensures var open, k := SkipSpaces(text, from), SkipSpaces(text, s);
            var ranges := [Range(open, Closing(text, open).value)] + PairsAfter(text, Closing(text, open).value).0;
            Begins(ranges, k) || Inside(ranges, k)
  {
    hide Begins;
    hide Inside;
    hide PairsAfter;
    hide Closing;
    hide StartsAt;
    hide OccursAt;
    var open := SkipSpaces(text, from);
    var close := Closing(text, open).value;
    MoreRanges(Range(open, close), PairsAfter(text, close).0, SkipSpaces(text, s));
    if from < s {
      if s <= close {
        LineStartsInside(text, from, s, close);
      } else {
        PairsHoldLines(text, close, s);
      }
    }
  }

  lemma TagTakesRoom(text: Bytes, s: nat)
    requires s <= |text| && TagAtLine(text, s, OPEN)
    ensures s < |text|
  {
  }

  lemma ThinkRangesHold(text: Bytes, s: nat)
    requires LeaksAt(text, s)
    ensures var ranges, open := ThinkRanges(text), SkipSpaces(text, s);
            Begins(ranges, open) || Inside(ranges, open)
  {
    hide Begins;
    hide Inside;
    hide LeaksAt;
    hide TemplateOpenedClose;
    hide PairsAfter;
    hide ThinkFrom;
    match TemplateOpenedClose(text, 0)
    case None => ThinkFromHolds(text, 0, s);
    case Some(close) => AfterTemplate(text, close, s);
  }

  lemma AfterTemplate(text: Bytes, close: nat, s: nat)
    requires LeaksAt(text, s)
    requires EndsTag(text, close)
    ensures var (pairs, from) := PairsAfter(text, close);
            var ranges, open := [Range(0, close)] + pairs + ThinkFrom(text, from), SkipSpaces(text, s);
            Begins(ranges, open) || Inside(ranges, open)
  {
    hide Begins;
    hide Inside;
    hide TagAtLine;
    hide PairsAfter;
    hide ThinkFrom;
    hide OccursAt;
    var (pairs, from) := PairsAfter(text, close);
    var open := SkipSpaces(text, s);
    BothHold([Range(0, close)] + pairs, ThinkFrom(text, from), open);
    MoreRanges(Range(0, close), pairs, open);
    LastIsBracket(text, close);
    if from <= s {
      ThinkFromHolds(text, from, s);
    } else if s < close {
      SkipStopsBefore(text, s, close);
    } else if s > close {
      PairsHoldLines(text, close, s);
    }
  }

  /** Ranges one after another do not start inside each other. */
  lemma {:induction false} OrderedApart(text: Bytes, from: nat, ranges: seq<Range>, end: nat, k: nat)
    requires Ordered(text, from, ranges, end) && Begins(ranges, k)
    ensures !Inside(ranges, k) && from <= k
    decreases |ranges|
  {
    hide IsBoundary;
    var first, rest := ranges[0], ranges[1..];
    assert ranges == [first] + rest;
    MoreRanges(first, rest, k);
    if Begins(rest, k) {
      OrderedApart(text, first.end, rest, end, k);
    } else {
      OrderedAfter(text, first.end, rest, end);
    }
  }

  lemma {:induction false} OrderedAfter(text: Bytes, from: nat, ranges: seq<Range>, end: nat)
    requires Ordered(text, from, ranges, end)
    ensures forall r | r in ranges :: from <= r.from
    decreases |ranges|
  {
    if ranges != [] {
      OrderedAfter(text, ranges[0].end, ranges[1..], end);
    }
  }

  /** Every closed `<think>` straight after a range on its line begins one. */
  lemma {:induction false} PairsFollow(text: Bytes, close: nat)
    requires close <= |text|
    ensures forall p | p in [Range(0, close)] + PairsAfter(text, close).0 ::
              && p.end <= |text|
              && (FollowedBy(text, p.end) ==> Begins(PairsAfter(text, close).0, SkipSpaces(text, p.end)))
    decreases |text| - close
  {
    hide StartsAt;
    hide Closing;
    hide PairsAfter;
    hide Begins;
    PairsUnfold(text, close);
    if FollowedBy(text, close) {
      var open := SkipSpaces(text, close);
      var first := Range(open, Closing(text, open).value);
      var rest := PairsAfter(text, first.end).0;
      PairsFollow(text, first.end);
      MoreRanges(first, rest, open);
      forall p | p in [first] + rest
        ensures p.end <= |text| && (FollowedBy(text, p.end) ==> Begins([first] + rest, SkipSpaces(text, p.end)))
      {
        if p == first {
          assert Range(0, first.end) in [Range(0, first.end)] + rest;
        }
        MoreRanges(first, rest, SkipSpaces(text, p.end));
      }
    }
  }

  /** A closed `<think>` comes next but for spaces. */
  predicate FollowedBy(text: Bytes, at: nat) {
    at <= |text| && StartsAt(text, OPEN, SkipSpaces(text, at)) && Closing(text, SkipSpaces(text, at)).Some?
  }

  lemma {:induction false} ThinkFromFollows(text: Bytes, from: nat, p: Range)
    requires from <= |text| && p in ThinkFrom(text, from) && FollowedBy(text, p.end)
    ensures Begins(ThinkFrom(text, from), SkipSpaces(text, p.end))
    decreases |text| - from, 0
  {
    hide Begins;
    hide ThinkFrom;
    hide PairsAfter;
    hide Closing;
    hide StartsAt;
    ThinkIsNotDone(text, from, p);
    ThinkUnfolds(text, from);
    var open := SkipSpaces(text, from);
    if TagAtLine(text, from, OPEN) && Closing(text, open).Some? {
      var close := Closing(text, open).value;
      var (pairs, next) := PairsAfter(text, close);
      BothHold([Range(open, close)] + pairs, ThinkFrom(text, next), SkipSpaces(text, p.end));
      PairOrLater(text, Range(open, close), p, next);
    } else {
      ThinkFromFollows(text, LineEnd(text, from), p);
    }
  }

  lemma ThinkIsNotDone(text: Bytes, from: nat, p: Range)
    requires from <= |text| && p in ThinkFrom(text, from)
    ensures from < |text|
  {
  }

  /** `p` is the first of a line's ranges, or one of the pairs after it, or comes later. */
  lemma {:induction false} PairOrLater(text: Bytes, first: Range, p: Range, next: nat)
    requires first.end <= |text| && PairsAfter(text, first.end).1 == next && FollowedBy(text, p.end)
    requires p in [first] + PairsAfter(text, first.end).0 + ThinkFrom(text, next)
    ensures var k := SkipSpaces(text, p.end);
            Begins([first] + PairsAfter(text, first.end).0, k) || Begins(ThinkFrom(text, next), k)
    decreases |text| - next, 1
  {
    hide Begins;
    hide ThinkFrom;
    hide PairsAfter;
    hide FollowedBy;
    var pairs := PairsAfter(text, first.end).0;
    PairsFollow(text, first.end);
    MoreRanges(first, pairs, SkipSpaces(text, if p.end <= |text| then p.end else 0));
    if p == first {
      assert Range(0, first.end) in [Range(0, first.end)] + pairs;
    } else if p in pairs {
      assert p in [Range(0, first.end)] + pairs;
    } else {
      ThinkFromFollows(text, next, p);
    }
  }

  lemma ThinkRangesFollow(text: Bytes, p: Range)
    requires p in ThinkRanges(text) && FollowedBy(text, p.end)
    ensures Begins(ThinkRanges(text), SkipSpaces(text, p.end))
  {
    hide Begins;
    hide ThinkFrom;
    hide PairsAfter;
    hide FollowedBy;
    hide TemplateOpenedClose;
    match TemplateOpenedClose(text, 0)
    case Some(close) =>
      var (pairs, from) := PairsAfter(text, close);
      PairOrLater(text, Range(0, close), p, from);
      BothHold([Range(0, close)] + pairs, ThinkFrom(text, from), SkipSpaces(text, p.end));
    case None => ThinkFromFollows(text, 0, p);
  }

  /**
   A `<think>` begins a leaked range exactly when it closes, no earlier range holds it, and it stands at a
   line's start behind at most three spaces or straight after another range.
   */
  lemma LeaksBeginRanges(text: Bytes, k: nat)
    requires Valid(text) && StartsAt(text, OPEN, k)
    ensures var ranges := ThinkRanges(text);
            Begins(ranges, k) <==> Closing(text, k).Some? && !Inside(ranges, k) && MayBegin(text, ranges, k)
  {
    hide Valid;
    hide Ordered;
    hide Inside;
    hide MayBegin;
    hide ThinkRanges;
    hide Closing;
    hide StartsAt;
    var ranges := ThinkRanges(text);
    ThinkRangesAreOrdered(text);
    if Begins(ranges, k) {
      OrderedApart(text, 0, ranges, |text|, k);
      var r :| r in ranges && r.from == k;
      ThinkRangesAreReasoning(text, r);
      RangeCloses(text, r);
      OpensAtStart(text, ranges);
    }
    if Closing(text, k).Some? && !Inside(ranges, k) && MayBegin(text, ranges, k) {
      MayBeginDoes(text, k);
    }
  }

  lemma OpensAtStart(text: Bytes, ranges: seq<Range>)
    ensures StartsAt(text, OPEN, 0) ==> MayBegin(text, ranges, 0)
  {
    if StartsAt(text, OPEN, 0) {
      assert text[0..][0] == text[0] == OPEN[0];
      assert SkipSpaces(text, 0) == 0 && AtLineStart(text, 0);
    }
  }

  lemma MayBeginDoes(text: Bytes, k: nat)
    requires StartsAt(text, OPEN, k) && Closing(text, k).Some?
    requires !Inside(ThinkRanges(text), k) && MayBegin(text, ThinkRanges(text), k)
    ensures Begins(ThinkRanges(text), k)
  {
    hide Begins;
    hide Inside;
    hide ThinkRanges;
    hide Closing;
    hide StartsAt;
    if AtLineStart(text, k) {
      var s: nat :| s <= k && s <= |text| && IsLineStart(text, s) && k - s <= 3 && SkipSpaces(text, s) == k;
      ThinkRangesHold(text, s);
    } else {
      var p :| p in ThinkRanges(text) && p.end <= |text| && SkipSpaces(text, p.end) == k;
      ThinkRangesFollow(text, p);
    }
  }

  lemma RangeCloses(text: Bytes, r: Range)
    requires OpenedAndClosed(text, r) || TemplateOpened(text, r)
    requires StartsAt(text, OPEN, r.from)
    ensures Closing(text, r.from).Some?
  {
    hide OccursAt;
    if TemplateOpened(text, r) {
      StartsOccurs(text, CLOSE, r.end - |CLOSE|);
      TagsDiffer(text, r.end - |CLOSE|);
    }
  }

  /** Where a `<think>` starts the text, a `</think>` comes after it. */
  lemma TagsDiffer(text: Bytes, at: nat)
    requires StartsAt(text, OPEN, 0) && OccursAt(text, CLOSE, at)
    ensures |OPEN| <= at
  {
    assert text[at..at + |CLOSE|][0] == text[at] && text[at..at + |CLOSE|][1] == text[at + 1];
    assert text[0..] == text;
    assert forall k | 0 <= k < |OPEN| :: text[k] == OPEN[k];
  }

  // ----- Masking twice -----

  /** Every leaked range ends with a `</think>`, and is not empty. */
  lemma RangeEnds(text: Bytes, r: Range)
    requires r in ThinkRanges(text)
    ensures r.from < r.end && EndsTag(text, r.end)
  {
    hide ThinkRanges;
    hide MayBegin;
    hide Contains;
    ThinkRangesAreReasoning(text, r);
    if TemplateOpened(text, r) {
      StartsOccurs(text, CLOSE, r.end - |CLOSE|);
    }
  }

  lemma {:induction false} SkipSpacesIs(text: Bytes, s: nat, k: nat)
    requires s <= k < |text| && text[k] != SPACE && forall i | s <= i < k :: text[i] == SPACE
    ensures SkipSpaces(text, s) == k
    decreases k - s
  {
    if s < k {
      SkipSpacesIs(text, s + 1, k);
    }
  }

  lemma TagHoldsNoNewline(text: Bytes, end: nat)
    requires EndsTag(text, end)
    ensures forall i | end - |CLOSE| <= i < end :: text[i] != NEWLINE
  {
    var at := end - |CLOSE|;
    forall i | at <= i < end ensures text[i] != NEWLINE {
      assert text[at..end][i - at] == text[i];
    }
  }

  /** A `</think>` that ends on a line stands on it whole. */
  lemma TagIsOnLine(text: Bytes, s: nat, end: nat)
    requires s < end && IsLineStart(text, s) && EndsTag(text, end)
    ensures s + |CLOSE| <= end
  {
    hide OccursAt;
    TagHoldsNoNewline(text, end);
  }

  /** What is masked at `i`. */
  lemma MaskThinkAt(text: Bytes, i: nat)
    requires i < |text|
    ensures MaskThink(text)[i] == if Covered(ThinkRanges(text), i) then BlankByte(text[i]) else text[i]
  {
    BlankedAllAt(text, ThinkRanges(text), i);
  }

  lemma StartsWithBracket(text: Bytes, k: nat)
    requires StartsAt(text, OPEN, k)
    ensures k < |text| && text[k] == 60
  {
    assert text[k..][0] == text[k];
  }

  lemma TagStays(text: Bytes, k: nat)
    requires StartsAt(MaskThink(text), OPEN, k)
    ensures StartsAt(text, OPEN, k) && !Covered(ThinkRanges(text), k)
  {
    hide ThinkRanges;
    hide Covered;
    var m := MaskThink(text);
    BlankingMasks(text, ThinkRanges(text));
    StartsWithBracket(m, k);
    MaskThinkAt(text, k);
    StartsOccurs(m, OPEN, k);
    MarkersStay(m, text, OPEN, k);
    assert text[k..][..|OPEN|] == text[k..k + |OPEN|];
  }

  lemma ClosingStays(text: Bytes, k: nat)
    requires StartsAt(MaskThink(text), OPEN, k) && StartsAt(text, OPEN, k) && Closing(MaskThink(text), k).Some?
    ensures Closing(text, k).Some?
  {
    hide ThinkRanges;
    hide StartsAt;
    hide MaskThink;
    var m := MaskThink(text);
    MaskThinkMasks(text);
    var at := Closing(m, k).value - |CLOSE|;
    MarkersStay(m, text, CLOSE, at);
  }

  lemma MaskThinkMasks(text: Bytes)
    ensures Masks(MaskThink(text), text)
  {
    BlankingMasks(text, ThinkRanges(text));
  }

  /** Before a `<think>` left at a line's start, nothing on the line was masked. */
  lemma SpacesStay(text: Bytes, s: nat, k: nat)
    requires s <= k <= s + 3 && s <= |text| && IsLineStart(MaskThink(text), s)
    requires StartsAt(MaskThink(text), OPEN, k) && SkipSpaces(MaskThink(text), s) == k
    ensures IsLineStart(text, s) && SkipSpaces(text, s) == k
  {
    hide ThinkRanges;
    hide StartsAt;
    hide MaskThink;
    hide EndsTag;
    var m, ranges := MaskThink(text), ThinkRanges(text);
    MaskThinkMasks(text);
    TagStays(text, k);
    StartsWithBracket(text, k);
    assert IsLineStart(text, s);
    forall i: nat | s <= i < k ensures text[i] == SPACE {
      MaskThinkAt(text, i);
      if Covered(ranges, i) {
        var r :| r in ranges && r.from <= i < r.end;
        RangeEnds(text, r);
        assert r.end <= k;
        TagIsOnLine(text, s, r.end);
      }
    }
    SkipSpacesIs(text, s, k);
  }

  /** No closed `<think>` is left at a line's start. */
  lemma MaskedLeaksNothing(text: Bytes, s: nat)
    ensures !LeaksAt(MaskThink(text), s)
  {
    hide ThinkRanges;
    hide StartsAt;
    hide MaskThink;
    hide Closing;
    hide Begins;
    hide Inside;
    hide Covered;
    var m := MaskThink(text);
    if LeaksAt(m, s) {
      var k := SkipSpaces(m, s);
      TagStays(text, k);
      MaskThinkMasks(text);
      SpacesStay(text, s, k);
      ClosingStays(text, k);
      ThinkRangesHold(text, s);
      HeldIsCovered(text, k);
    }
  }

  lemma HeldIsCovered(text: Bytes, k: nat)
    requires Begins(ThinkRanges(text), k) || Inside(ThinkRanges(text), k)
    ensures Covered(ThinkRanges(text), k)
  {
    hide ThinkRanges;
    hide EndsTag;
    if Begins(ThinkRanges(text), k) {
      var r :| r in ThinkRanges(text) && r.from == k;
      RangeEnds(text, r);
    }
  }

  lemma {:induction false} NoLeaksNoRanges(text: Bytes, from: nat)
    requires from <= |text| && (from == |text| || IsLineStart(text, from))
    requires forall s: nat :: !LeaksAt(text, s)
    ensures ThinkFrom(text, from) == []
    decreases |text| - from
  {
    hide StartsAt;
    hide Closing;
    hide ThinkFrom;
    hide PairsAfter;
    if from == |text| {
      ThinkDone(text);
    } else {
      assert !LeaksAt(text, from);
      ThinkUnfolds(text, from);
      LineEndStarts(text, from);
      NoLeaksNoRanges(text, LineEnd(text, from));
    }
  }

  lemma TemplateChanges(text: Bytes)
    requires TemplateOpenedClose(text, 0).Some?
    ensures MaskThink(text) != text
  {
    hide TemplateOpenedClose;
    hide PairsAfter;
    hide ThinkFrom;
    hide OccursAt;
    var close := TemplateOpenedClose(text, 0).value;
    LastIsBracket(text, close);
    assert Range(0, close) in ThinkRanges(text);
    MaskThinkAt(text, close - 1);
  }

  /**
   Masking what is masked already changes nothing, exactly when no `</think>` left at a line's start reads as
   closing reasoning the template opened.
   */
  lemma MaskingTwiceIsOnce(text: Bytes)
    ensures MaskThink(MaskThink(text)) == MaskThink(text) <==> TemplateOpenedClose(MaskThink(text), 0).None?
  {
    hide MaskThink;
    var m := MaskThink(text);
    if TemplateOpenedClose(m, 0).Some? {
      TemplateChanges(m);
    } else {
      forall s: nat ensures !LeaksAt(m, s) {
        MaskedLeaksNothing(text, s);
      }
      NoTemplateNoLeaks(m);
    }
  }

  lemma NoTemplateNoLeaks(text: Bytes)
    requires TemplateOpenedClose(text, 0).None? && forall s: nat :: !LeaksAt(text, s)
    ensures MaskThink(text) == text
  {
    hide LeaksAt;
    hide ThinkFrom;
    NoLeaksNoRanges(text, 0);
    NoRanges(text);
  }

  /** Two lines that are each a `</think>`. */
  const TWO_CLOSES: Bytes := CLOSE + [NEWLINE] + CLOSE

  lemma {:induction false} LineEndIs(text: Bytes, from: nat, end: nat)
    requires from < end <= |text| && (end == |text| || text[end - 1] == NEWLINE)
    requires forall i | from <= i < end - 1 :: text[i] != NEWLINE
    ensures LineEnd(text, from) == end
    decreases end - from
  {
    if from + 1 < end {
      LineEndIs(text, from + 1, end);
    }
  }

  lemma NotWithoutBracket(text: Bytes)
    requires forall i | 0 <= i < |text| :: text[i] != 60
    ensures !Contains(text, OPEN)
  {
    forall at: nat ensures !OccursAt(text, OPEN, at) {
      if at + |OPEN| <= |text| {
        assert text[at..at + |OPEN|][0] == text[at];
      }
    }
  }

  /** The first of two `</think>`s closes what the template opened, and once it is masked the second does. */
  lemma MaskingTwiceMasksMore()
    ensures MaskThink(MaskThink(TWO_CLOSES)) != MaskThink(TWO_CLOSES)
  {
    hide MaskThink;
    FirstPass();
    SecondPass();
    MaskingTwiceIsOnce(TWO_CLOSES);
  }

  lemma FirstPass()
    ensures ThinkRanges(TWO_CLOSES) == [Range(0, 8)]
  {
    hide TemplateOpenedClose;
    hide PairsAfter;
    hide ThinkFrom;
    TemplateTakesFirst(TWO_CLOSES);
    NothingFollows(TWO_CLOSES);
    NothingLeaks(TWO_CLOSES);
  }

  lemma NothingFollows(t: Bytes)
    requires t == TWO_CLOSES
    ensures PairsAfter(t, 8) == ([], 9)
  {
    hide PairsAfter;
    hide Closing;
    PairsUnfold(t, 8);
    SkipSpacesIs(t, 8, 8);
    assert t[8..][0] == NEWLINE && !StartsAt(t, OPEN, 8);
    LineEndIs(t, 8, 9);
  }

  lemma NothingLeaks(t: Bytes)
    requires t == TWO_CLOSES
    ensures ThinkFrom(t, 9) == []
  {
    hide ThinkFrom;
    hide PairsAfter;
    hide Closing;
    hide StartsAt;
    hide LineEnd;
    ThinkUnfolds(t, 9);
    SkipSpacesIs(t, 9, 9);
    SecondLine(t);
    ThinkDone(t);
  }

  lemma SecondLine(t: Bytes)
    requires t == TWO_CLOSES
    ensures !StartsAt(t, OPEN, 9) && LineEnd(t, 9) == 17
  {
    assert t[9..][1] == 47;
    LineEndIs(t, 9, 17);
  }

  lemma TemplateTakesFirst(t: Bytes)
    requires t == TWO_CLOSES
    ensures TemplateOpenedClose(t, 0) == Some(8)
  {
    assert t[0] == 60 && SkipSpaces(t, 0) == 0;
    assert CLOSE <= t[0..];
    assert t[..0] == [];
    NotWithoutBracket([]);
  }

  lemma SecondPass()
    requires ThinkRanges(TWO_CLOSES) == [Range(0, 8)]
    ensures TemplateOpenedClose(MaskThink(TWO_CLOSES), 0).Some?
  {
    hide MaskThink;
    hide ThinkRanges;
    hide TemplateOpenedClose;
    var t, m := TWO_CLOSES, MaskThink(TWO_CLOSES);
    MaskedFirst(m);
    SkipSpacesIs(m, 0, 8);
    LineEndIs(m, 0, 9);
    TemplateSkips(m, 0);
    SkipSpacesIs(m, 9, 9);
    assert m[9..] == CLOSE;
    NotWithoutBracket(m[..9]);
    TemplateTakes(m, 9);
  }

  lemma MaskedFirst(m: Bytes)
    requires ThinkRanges(TWO_CLOSES) == [Range(0, 8)] && m == MaskThink(TWO_CLOSES)
    ensures |m| == 17 && (forall i | 0 <= i < 8 :: m[i] == SPACE) && m[8] == NEWLINE
    ensures forall i | 9 <= i < 17 :: m[i] == CLOSE[i - 9]
  {
    OneRange(TWO_CLOSES, Range(0, 8));
  }

  lemma TemplateSkips(text: Bytes, start: nat)
    requires start < |text| && SkipSpaces(text, start) > start + 3
    ensures TemplateOpenedClose(text, start) == TemplateOpenedClose(text, LineEnd(text, start))
  {
  }

  lemma TemplateTakes(text: Bytes, start: nat)
    requires start < |text| && SkipSpaces(text, start) == start && StartsAt(text, CLOSE, start)
    requires !Contains(text[..start], OPEN)
    ensures TemplateOpenedClose(text, start).Some?
  {
    hide Contains;
  }

  // ----- The loops -----

  method BlankIn(out: array<Byte>, r: Range)
    requires r.from <= r.end <= out.Length
    modifies out
    ensures out[..] == Blanked(old(out[..]), r)
  {
    for i := r.from to r.end
      invariant forall k | 0 <= k < out.Length ::
                out[k] == if r.from <= k < i then BlankByte(old(out[k])) else old(out[k])
    {
      if out[i] != NEWLINE {
        out[i] := SPACE;
      }
    }
  }

  method BlankAllIn(out: array<Byte>, ranges: seq<Range>)
    requires forall r | r in ranges :: r.from <= r.end <= out.Length
    modifies out
    ensures out[..] == BlankedAll(old(out[..]), ranges)
  {
    ghost var was := out[..];
    assert ranges[0..] == ranges;
    for i := 0 to |ranges|
      invariant BlankedAll(out[..], ranges[i..]) == BlankedAll(was, ranges)
    {
      assert ranges[i] in ranges && ranges[i..][1..] == ranges[i + 1..];
      BlankIn(out, ranges[i]);
    }
    assert ranges[|ranges|..] == [];
  }

  method PairsAfterOnto(text: Bytes, from: nat, before: seq<Range>) returns (ranges: seq<Range>, next: nat)
    requires from <= |text|
    ensures ranges == before + PairsAfter(text, from).0 && next == PairsAfter(text, from).1
  {
    var close := from;
    ranges := before;
    while true
      invariant from <= close <= |text|
      invariant ranges + PairsAfter(text, close).0 == before + PairsAfter(text, from).0
      invariant PairsAfter(text, close).1 == PairsAfter(text, from).1
      decreases |text| - close
    {
      var open := SkipSpaces(text, close);
      var end := if StartsAt(text, OPEN, open) then Closing(text, open) else None;
      match end {
        case Some(found) =>
          PairsStep(text, close, ranges);
          ranges := ranges + [Range(open, found)];
          close := found;
        case None =>
          assert ranges + [] == ranges;
          return ranges, LineEnd(text, close);
      }
    }
  }

  lemma PairsStep(text: Bytes, close: nat, ranges: seq<Range>)
    requires close <= |text|
    ensures var open := SkipSpaces(text, close);
            StartsAt(text, OPEN, open) && Closing(text, open).Some? ==>
              var next := Closing(text, open).value;
              && ranges + [Range(open, next)] + PairsAfter(text, next).0 == ranges + PairsAfter(text, close).0
              && PairsAfter(text, next).1 == PairsAfter(text, close).1
  {
  }

  method TemplateOpenedCloseLoop(text: Bytes) returns (close: Option<nat>)
    ensures close == TemplateOpenedClose(text, 0)
  {
    var start: nat := 0;
    while start < |text|
      invariant start <= |text| && TemplateOpenedClose(text, start) == TemplateOpenedClose(text, 0)
    {
      if TagAtLine(text, start, CLOSE) {
        var at := SkipSpaces(text, start);
        return if Contains(text[..at], OPEN) then None else Some(at + |CLOSE|);
      }
      start := LineEnd(text, start);
    }
    return None;
  }

  method ThinkRangesLoop(text: Bytes) returns (ranges: seq<Range>)
    ensures ranges == ThinkRanges(text)
  {
    hide PairsAfter;
    hide ThinkFrom;
    hide TagAtLine;
    hide Closing;
    ranges := [];
    var from: nat := 0;
    var template := TemplateOpenedCloseLoop(text);
    if template.Some? {
      ranges, from := PairsAfterOnto(text, template.value, [Range(0, template.value)]);
    } else {
      assert [] + ThinkFrom(text, 0) == ThinkFrom(text, 0);
    }
    while from < |text|
      invariant from <= |text| && ranges + ThinkFrom(text, from) == ThinkRanges(text)
      decreases |text| - from
    {
      ThinkStep(text, from, ranges);
      var open := SkipSpaces(text, from);
      var close := if TagAtLine(text, from, OPEN) then Closing(text, open) else None;
      match close {
        case Some(end) => ranges, from := PairsAfterOnto(text, end, ranges + [Range(open, end)]);
        case None => from := LineEnd(text, from);
      }
    }
    ThinkDone(text);
    assert ranges + [] == ranges;
  }

  lemma ThinkDone(text: Bytes)
    ensures ThinkFrom(text, |text|) == []
  {
  }

  lemma ThinkStep(text: Bytes, from: nat, ranges: seq<Range>)
    requires from < |text|
    ensures var open := SkipSpaces(text, from);
            if TagAtLine(text, from, OPEN) && Closing(text, open).Some? then
              var close := Closing(text, open).value;
              var (pairs, next) := PairsAfter(text, close);
              ranges + [Range(open, close)] + pairs + ThinkFrom(text, next) == ranges + ThinkFrom(text, from)
            else ThinkFrom(text, LineEnd(text, from)) == ThinkFrom(text, from)
    ensures TagAtLine(text, from, OPEN) ==> StartsAt(text, OPEN, SkipSpaces(text, from))
  {
    hide PairsAfter;
    hide Closing;
    hide StartsAt;
    ThinkUnfolds(text, from);
    var open := SkipSpaces(text, from);
    if TagAtLine(text, from, OPEN) && Closing(text, open).Some? {
      var close := Closing(text, open).value;
      var (pairs, next) := PairsAfter(text, close);
      Joins(ranges, [Range(open, close)], pairs, ThinkFrom(text, next));
    }
  }

  lemma Joins(a: seq<Range>, b: seq<Range>, c: seq<Range>, d: seq<Range>)
    ensures a + b + c + d == a + (b + c + d)
  {
  }

  lemma {:induction false} ThinkUnfolds(text: Bytes, from: nat)
    requires from < |text|
    ensures var open := SkipSpaces(text, from);
            ThinkFrom(text, from) ==
            if TagAtLine(text, from, OPEN) && Closing(text, open).Some? then
              var close := Closing(text, open).value;
              var (pairs, next) := PairsAfter(text, close);
              [Range(open, close)] + pairs + ThinkFrom(text, next)
            else ThinkFrom(text, LineEnd(text, from))
  {
  }

  /** `mask_think`: the buffer is the text's bytes, blanked range by range. */
  method MaskThinkBuffer(text: Bytes) returns (masked: Bytes)
    requires Valid(text)
    ensures masked == MaskThink(text)
  {
    hide Valid;
    hide Ordered;
    var out := new Byte[|text|](i requires 0 <= i < |text| => text[i]);
    assert out[..] == text;
    var ranges := ThinkRangesLoop(text);
    ThinkRangesAreOrdered(text);
    OrderedIsWhole(text, 0, ranges, |text|);
    BlankAllIn(out, ranges);
    return out[..];
  }

  lemma {:induction false} CodeSpansStep(text: Bytes, i: nat, spans: seq<Range>)
    requires i < |text|
    ensures if text[i] != TICK then CodeSpans(text, i) == CodeSpans(text, i + 1)
            else
              var open := Run(text, i, TICK);
              match CloseRun(text, i + open, open)
              case Some(end) => spans + CodeSpans(text, i) == spans + [Range(i, end)] + CodeSpans(text, end)
              case None => CodeSpans(text, i) == CodeSpans(text, i + open)
  {
    hide CodeSpans;
    hide CloseRun;
    SpansUnfold(text, i);
  }

  lemma CodeSpansDone(text: Bytes)
    ensures CodeSpans(text, |text|) == []
  {
  }

  /** `code_spans`. */
  method CodeSpansLoop(text: Bytes) returns (spans: seq<Range>)
    ensures spans == CodeSpans(text, 0)
  {
    hide CodeSpans;
    hide CloseRun;
    spans := [];
    var i: nat := 0;
    assert [] + CodeSpans(text, 0) == CodeSpans(text, 0);
    while i < |text|
      invariant i <= |text| && spans + CodeSpans(text, i) == CodeSpans(text, 0)
      decreases |text| - i
    {
      CodeSpansStep(text, i, spans);
      if text[i] != TICK {
        i := i + 1;
      } else {
        var open := Run(text, i, TICK);
        var close := CloseRunLoop(text, i + open, open);
        match close {
          case Some(end) =>
            spans := spans + [Range(i, end)];
            i := end;
          case None => i := i + open;
        }
      }
    }
    CodeSpansDone(text);
    assert spans + [] == spans;
  }

  method CloseRunLoop(text: Bytes, from: nat, open: nat) returns (close: Option<nat>)
    requires from <= |text|
    ensures close == CloseRun(text, from, open)
  {
    var j := from;
    while j < |text|
      invariant from <= j <= |text| && CloseRun(text, j, open) == CloseRun(text, from, open)
      decreases |text| - j
    {
      if text[j] == TICK {
        var n := Run(text, j, TICK);
        if n == open {
          return Some(j + n);
        }
        j := j + n;
      } else {
        j := j + 1;
      }
    }
    return None;
  }

  lemma {:induction false} BlankedAllConcat(text: Bytes, a: seq<Range>, b: seq<Range>)
    ensures BlankedAll(text, a + b) == BlankedAll(BlankedAll(text, a), b)
    decreases |a|
  {
    if a == [] {
      assert a + b == b;
    } else {
      assert (a + b)[1..] == a[1..] + b;
      BlankedAllConcat(Blanked(text, a[0]), a[1..], b);
    }
  }

  /** The spans of the paragraph that ends at `end`, blanked. */
  method BlankParagraph(text: Bytes, out: array<Byte>, para: Option<nat>, end: nat)
    requires Valid(text) && out.Length == |text| && end <= |text| && (para.Some? ==> para.value <= end)
    modifies out
    ensures out[..] == BlankedAll(old(out[..]), SpansIn(text, para, end))
  {
    hide Valid;
    hide Ordered;
    hide BlankedAll;
    ghost var was := out[..];
    if para.Some? {
      var spans := CodeSpansLoop(text[para.value..end]);
      var shifted := Shifted(spans, para.value);
      SpansInAreOrdered(text, para, end);
      OrderedIsWhole(text, para.value, shifted, end);
      BlankAllIn(out, shifted);
    } else {
      NoRanges(was);
    }
  }

  lemma NoRanges(text: Bytes)
    ensures BlankedAll(text, []) == text
  {
  }

  lemma OneRange(text: Bytes, r: Range)
    ensures BlankedAll(text, [r]) == Blanked(text, r)
  {
    assert [r][1..] == [];
  }

  lemma {:induction false} CodeFromStep(tests: Tests, text: Bytes, scan: Scan, start: nat)
    requires start <= |text| && (scan.paragraph.Some? ==> scan.paragraph.value <= start)
    ensures CodeFrom(tests, text, scan, start)
         == if start == |text| then SpansIn(text, scan.paragraph, start)
            else
              var line := LineAt(text, start);
              MaskedAt(tests, text, scan, line) + CodeFrom(tests, text, NextScan(tests, text, scan, line), line.end)
  {
  }

  /** One line of the scan: what it masks blanked, and how the scan goes on. */
  method ScanLine(tests: Tests, text: Bytes, out: array<Byte>, scan: Scan, line: Line) returns (next: Scan)
    requires Valid(text) && out.Length == |text| && line.start < |text| && line == LineAt(text, line.start)
    requires scan.paragraph.Some? ==> scan.paragraph.value <= line.start
    modifies out
    ensures out[..] == BlankedAll(old(out[..]), MaskedAt(tests, text, scan, line))
    ensures next == NextScan(tests, text, scan, line)
  {
    hide Valid;
    hide BlankedAll;
    hide SpansIn;
    hide ClosesFence;
    hide IsPlain;
    ghost var was := out[..];
    var fence, paragraph := scan.fence, scan.paragraph;
    var plain := IsPlain(tests, text, scan, line);
    NoRanges(was);
    if !plain {
      BlankParagraph(text, out, paragraph, line.start);
      paragraph := None;
    }
    ghost var spans := if plain then [] else SpansIn(text, scan.paragraph, line.start);
    assert out[..] == BlankedAll(was, spans);
    OneRange(out[..], Range(line.start, line.end));
    BlankedAllConcat(was, spans, [Range(line.start, line.end)]);
    assert spans + [] == spans;
    if fence.Some? {
      BlankIn(out, Range(line.start, line.end));
      if ClosesFence(tests, text, fence.value, line) {
        fence := None;
      }
    } else if line.OpensFence() {
      fence := Some(line.Opened());
      BlankIn(out, Range(line.start, line.end));
    } else if line.indent >= 4 || IsQuoted(text, line) {
      BlankIn(out, Range(line.start, line.end));
    } else if plain && paragraph.None? {
      paragraph := Some(line.start);
    }
    if plain {
      PlainIsNotMasked(tests, text, scan, line);
    }
    return Scan(fence, paragraph);
  }

  /** `mask_code`: the leaked ranges, then line by line, each paragraph's spans once it ends. */
  method MaskCodeBuffer(tests: Tests, text: Bytes) returns (masked: Bytes)
    requires Valid(text)
    ensures masked == MaskCode(tests, text)
  {
    hide Valid;
    hide Ordered;
    hide BlankedAll;
    hide CodeFrom;
    hide NextScan;
    hide MaskedAt;
    hide SpansIn;
    var out := new Byte[|text|](i requires 0 <= i < |text| => text[i]);
    assert out[..] == text;
    var ranges := ThinkRangesLoop(text);
    ThinkRangesAreOrdered(text);
    OrderedIsWhole(text, 0, ranges, |text|);
    BlankAllIn(out, ranges);
    BlankedAllConcat(text, ranges, CodeRanges(tests, text));
    var scan, start: nat := Scan(None, None), 0;
    while start < |text|
      invariant start <= |text| && (scan.paragraph.Some? ==> scan.paragraph.value <= start)
      invariant BlankedAll(out[..], CodeFrom(tests, text, scan, start)) == MaskCode(tests, text)
      decreases |text| - start
    {
      var line := LineAt(text, start);
      CodeFromStep(tests, text, scan, start);
      NextParagraph(tests, text, scan, line);
      BlankedAllConcat(out[..], MaskedAt(tests, text, scan, line),
                       CodeFrom(tests, text, NextScan(tests, text, scan, line), line.end));
      scan := ScanLine(tests, text, out, scan, line);
      start := line.end;
    }
    CodeFromStep(tests, text, scan, start);
    BlankParagraph(text, out, scan.paragraph, start);
    return out[..];
  }

  lemma NextParagraph(tests: Tests, text: Bytes, scan: Scan, line: Line)
    requires line.body <= |text| && line.start <= line.end
             && (scan.paragraph.Some? ==> scan.paragraph.value <= line.start)
    ensures NextScan(tests, text, scan, line).paragraph.Some?
            ==> NextScan(tests, text, scan, line).paragraph.value <= line.end
  {
  }
}

/**
 Which bytes of a reply are code (`mask_code` in `src/text_calls.rs`): told from its lines, its fences and its
 paragraphs, and proved of the scan.
 */
module MaskingCode {
  import opened Wrappers
  import opened Utf8
  import opened Masking

  // ----- Lines -----

  /** Where a line's text starts, past its spaces and tabs. */
  function BodyOf(text: Bytes, s: nat): (body: nat)
    requires s <= |text|
    ensures s <= body <= |text|
    decreases |text| - s
  {
    if s < |text| && (text[s] == SPACE || text[s] == TAB) then BodyOf(text, s + 1) else s
  }

  /** Indented by at most three spaces and no tab. */
  predicate NearMargin(text: Bytes, s: nat)
    requires s <= |text|
  {
    BodyOf(text, s) - s <= 3 && forall i | s <= i < BodyOf(text, s) :: text[i] == SPACE
  }

  /** The line at `s` opens this fence: three or more backticks or tildes near the margin. */
  predicate Opens(text: Bytes, s: nat, f: Fence) {
    && s <= |text| && NearMargin(text, s)
    && (f.ch == TICK || f.ch == TILDE) && f.length >= 3 && Run(text, BodyOf(text, s), f.ch) == f.length
  }

  /** The line at `s` closes this fence: at least as many of its character near the margin, and nothing after them. */
  predicate Closes(tests: Tests, text: Bytes, s: nat, f: Fence) {
    && s <= |text| && NearMargin(text, s)
    && var body := BodyOf(text, s);
    && Run(text, body, f.ch) >= f.length
    && body + Run(text, body, f.ch) <= LineEnd(text, s)
    && tests.blank(text[body + Run(text, body, f.ch)..LineEnd(text, s)])
  }

  /** No fence is open where the line at `s` starts: every one opened before, outside fences, was closed before. */
  ghost predicate Outside(tests: Tests, text: Bytes, s: nat)
    decreases s
  {
    forall o: nat, f: Fence | o < s && IsLineStart(text, o) && Outside(tests, text, o) && Opens(text, o, f) ::
      exists c: nat | o < c < s :: IsLineStart(text, c) && Closes(tests, text, c, f)
  }

  /** The fence `o` opened is open where the line at `s` starts. */
  ghost predicate StillOpen(tests: Tests, text: Bytes, o: nat, f: Fence, s: nat) {
    && o < s && IsLineStart(text, o) && Outside(tests, text, o) && Opens(text, o, f)
    && forall c: nat | o < c < s && IsLineStart(text, c) :: !Closes(tests, text, c, f)
  }

  predicate Quotes(text: Bytes, s: nat) {
    s <= |text| && BodyOf(text, s) < |text| && text[BodyOf(text, s)] == QUOTE
  }

  /**
   The whole line at `s` is code or a quote: it is in a fence, closes one or opens one, or is indented past the
   margin or quoted.
   */
  ghost predicate IsCodeLine(tests: Tests, text: Bytes, s: nat) {
    && s < |text| && IsLineStart(text, s)
    && (!Outside(tests, text, s) || (exists f :: Opens(text, s, f)) || !NearMargin(text, s) || Quotes(text, s))
  }

  /** The line at `s` is a paragraph's: no code line, not blank, and not the start of a whole tag call. */
  ghost predicate IsPlainLine(tests: Tests, text: Bytes, s: nat) {
    && s < |text| && IsLineStart(text, s) && !IsCodeLine(tests, text, s)
    && BodyOf(text, s) <= LineEnd(text, s) && !tests.blank(text[BodyOf(text, s)..LineEnd(text, s)])
    && !tests.completeTagCall(text[BodyOf(text, s)..])
  }

  /** The line that ends where `s` starts is a paragraph's. */
  ghost predicate PlainBefore(tests: Tests, text: Bytes, s: nat) {
    exists l: nat | l < s && l <= |text| :: LineEnd(text, l) == s && IsPlainLine(tests, text, l)
  }

  /** Lines of a paragraph from `p`, where it begins, to `q`. */
  ghost predicate IsRunOfLines(tests: Tests, text: Bytes, p: nat, q: nat) {
    && p < q <= |text| && IsLineStart(text, p) && !PlainBefore(tests, text, p)
    && forall l: nat | p <= l < q && IsLineStart(text, l) :: IsPlainLine(tests, text, l)
  }

  /** The paragraph from `p` to `q`: as many of its lines as there are. */
  ghost predicate IsParagraph(tests: Tests, text: Bytes, p: nat, q: nat) {
    && IsRunOfLines(tests, text, p, q)
    && (q == |text| || (IsLineStart(text, q) && !IsPlainLine(tests, text, q)))
  }

  /** The byte at `i` is in a code span of the text from `p` to `q`. */
  predicate InSpan(text: Bytes, p: nat, q: nat, i: nat) {
    p <= q <= |text| && exists r | r in CodeSpans(text[p..q], 0) :: p + r.from <= i < p + r.end
  }

  ghost predicate InCodeLine(tests: Tests, text: Bytes, s: nat, i: nat) {
    s <= |text| && IsCodeLine(tests, text, s) && s <= i < LineEnd(text, s)
  }

  ghost predicate InParagraphSpan(tests: Tests, text: Bytes, p: nat, q: nat, i: nat) {
    IsParagraph(tests, text, p, q) && InSpan(text, p, q, i)
  }

  /** The byte at `i` is code: on a code line, or in a code span of its paragraph. */
  ghost predicate IsCode(tests: Tests, text: Bytes, i: nat) {
    IsCodeFrom(tests, text, 0, i)
  }

  ghost predicate OnCodeLineFrom(tests: Tests, text: Bytes, s: nat, i: nat) {
    exists l: nat | s <= l :: InCodeLine(tests, text, l, i)
  }

  ghost predicate InParagraphFrom(tests: Tests, text: Bytes, s: nat, i: nat) {
    exists p: nat, q: nat | s <= q :: InParagraphSpan(tests, text, p, q, i)
  }

  /** By a code line from `s` on, or a paragraph that ends there or later. */
  ghost predicate IsCodeFrom(tests: Tests, text: Bytes, s: nat, i: nat) {
    OnCodeLineFrom(tests, text, s, i) || InParagraphFrom(tests, text, s, i)
  }

  // ----- What the scan reads of a line -----

  predicate AllSpaces(text: Bytes, s: nat)
    requires s <= |text|
  {
    forall i | s <= i < BodyOf(text, s) :: text[i] == SPACE
  }

  lemma AllSpacesStep(text: Bytes, s: nat)
    requires s < |text| && (text[s] == SPACE || text[s] == TAB)
    ensures AllSpaces(text, s) <==> text[s] == SPACE && AllSpaces(text, s + 1)
  {
  }

  lemma {:induction false} IndentIs(text: Bytes, s: nat)
    requires s <= |text|
    ensures Indent(text, s).1 == BodyOf(text, s)
    ensures if AllSpaces(text, s) then Indent(text, s).0 == BodyOf(text, s) - s else Indent(text, s).0 >= 4
    decreases |text| - s
  {
    if s < |text| && (text[s] == SPACE || text[s] == TAB) {
      hide AllSpaces;
      IndentIs(text, s + 1);
      AllSpacesStep(text, s);
    }
  }

  /** A line's indent, and the runs it may start with, stay on the line. */
  lemma {:induction false} BodyInLine(text: Bytes, s: nat)
    requires s <= |text|
    ensures BodyOf(text, s) <= LineEnd(text, s)
    decreases |text| - s
  {
    if s < |text| && (text[s] == SPACE || text[s] == TAB) {
      BodyInLine(text, s + 1);
    }
  }

  lemma {:induction false} RunInLine(text: Bytes, s: nat, at: nat, ch: Byte)
    requires s <= |text| && s <= at <= LineEnd(text, s) && ch != NEWLINE && (at == s || text[at - 1] != NEWLINE)
    ensures at + Run(text, at, ch) <= LineEnd(text, s)
    decreases |text| - at
  {
    if at < |text| && text[at] == ch {
      RunInLine(text, s, at + 1, ch);
    }
  }

  lemma BodyHasNoNewline(text: Bytes, s: nat)
    requires s <= |text|
    ensures BodyOf(text, s) == s || text[BodyOf(text, s) - 1] != NEWLINE
    decreases |text| - s
  {
    if s < |text| && (text[s] == SPACE || text[s] == TAB) {
      BodyHasNoNewline(text, s + 1);
    }
  }

  /** The scan's reading of a line. */
  lemma LineReads(text: Bytes, s: nat)
    requires s <= |text|
    ensures var line := LineAt(text, s);
            && line.body == BodyOf(text, s) && (line.indent <= 3 <==> NearMargin(text, s))
            && line.ticks == Run(text, line.body, TICK) && line.tildes == Run(text, line.body, TILDE)
            && line.body + line.ticks <= line.end && line.body + line.tildes <= line.end && line.body <= line.end
  {
    hide Run;
    IndentIs(text, s);
    BodyInLine(text, s);
    BodyHasNoNewline(text, s);
    RunInLine(text, s, BodyOf(text, s), TICK);
    RunInLine(text, s, BodyOf(text, s), TILDE);
  }

  /** Backticks and tildes don't both start a line. */
  lemma OneRun(text: Bytes, at: nat)
    requires at <= |text|
    ensures Run(text, at, TICK) == 0 || Run(text, at, TILDE) == 0
  {
  }

  lemma OpensIs(text: Bytes, s: nat, f: Fence)
    requires s <= |text|
    ensures Opens(text, s, f) <==> LineAt(text, s).OpensFence() && f == LineAt(text, s).Opened()
  {
    hide Run;
    hide NearMargin;
    LineReads(text, s);
    OneRun(text, BodyOf(text, s));
  }

  lemma ClosesIs(tests: Tests, text: Bytes, s: nat, f: Fence)
    requires s <= |text| && (f.ch == TICK || f.ch == TILDE)
    ensures Closes(tests, text, s, f) <==> ClosesFence(tests, text, f, LineAt(text, s))
  {
    hide Run;
    hide NearMargin;
    LineReads(text, s);
  }

  // ----- Fences -----

  /** What the scan holds as its fence where the line at `s` starts. */
  ghost predicate FenceIs(tests: Tests, text: Bytes, fence: Option<Fence>, s: nat) {
    match fence
    case None => Outside(tests, text, s)
    case Some(f) => exists o: nat :: StillOpen(tests, text, o, f, s)
  }

  lemma OpenIsInside(tests: Tests, text: Bytes, o: nat, f: Fence, s: nat)
    requires StillOpen(tests, text, o, f, s)
    ensures !Outside(tests, text, s)
  {
    hide Opens;
    hide Closes;
  }

  lemma NoneBetween(text: Bytes, s: nat, l: nat)
    requires s <= |text| && l <= |text| && IsLineStart(text, l) && s < l
    ensures LineEnd(text, s) <= l
  {
    NextLineStart(text, s, l);
  }

  lemma OpensOneFence(text: Bytes, s: nat, f: Fence, g: Fence)
    requires Opens(text, s, f) && Opens(text, s, g)
    ensures f == g
  {
    OpensIs(text, s, f);
    OpensIs(text, s, g);
  }

  /** Where no fence is open and the line opens one, it is open at the next line. */
  lemma OpensNext(tests: Tests, text: Bytes, s: nat, f: Fence)
    requires s < |text| && IsLineStart(text, s) && Outside(tests, text, s) && Opens(text, s, f)
    ensures StillOpen(tests, text, s, f, LineEnd(text, s))
  {
    hide Opens;
    hide Closes;
    hide Outside;
    LineMoves(text, s);
    forall c: nat | s < c <= |text| && IsLineStart(text, c) ensures LineEnd(text, s) <= c {
      NoneBetween(text, s, c);
    }
  }

  lemma StaysOutside(tests: Tests, text: Bytes, s: nat)
    requires s < |text| && IsLineStart(text, s) && Outside(tests, text, s) && forall f :: !Opens(text, s, f)
    ensures Outside(tests, text, LineEnd(text, s))
  {
    hide Opens;
    hide Closes;
    forall o: nat, f: Fence | o < LineEnd(text, s) && IsLineStart(text, o) && Outside(tests, text, o)
        && Opens(text, o, f)
      ensures exists c: nat | o < c < LineEnd(text, s) :: IsLineStart(text, c) && Closes(tests, text, c, f)
    {
      if s < o {
        NoneBetween(text, s, o);
      }
      var c: nat :| o < c < s && IsLineStart(text, c) && Closes(tests, text, c, f);
    }
  }

  lemma StaysOpen(tests: Tests, text: Bytes, o: nat, f: Fence, s: nat)
    requires s < |text| && IsLineStart(text, s) && StillOpen(tests, text, o, f, s) && !Closes(tests, text, s, f)
    ensures StillOpen(tests, text, o, f, LineEnd(text, s))
  {
    hide Opens;
    hide Closes;
    hide Outside;
    forall c: nat | o < c < LineEnd(text, s) && IsLineStart(text, c) ensures !Closes(tests, text, c, f) {
      if s < c {
        NoneBetween(text, s, c);
      }
    }
  }

  lemma ClosesNext(tests: Tests, text: Bytes, o: nat, f: Fence, s: nat)
    requires s < |text| && IsLineStart(text, s) && StillOpen(tests, text, o, f, s) && Closes(tests, text, s, f)
    ensures Outside(tests, text, LineEnd(text, s))
  {
    hide Opens;
    hide Closes;
    var end := LineEnd(text, s);
    forall p: nat | o < p <= s ensures !Outside(tests, text, p) {
      NotOutsideWhileOpen(tests, text, o, f, s, p);
    }
    forall p: nat, g: Fence | p < end && IsLineStart(text, p) && Outside(tests, text, p) && Opens(text, p, g)
      ensures exists c: nat | p < c < end :: IsLineStart(text, c) && Closes(tests, text, c, g)
    {
      if s < p {
        NoneBetween(text, s, p);
      } else if p == o {
        OpensOneFence(text, o, f, g);
        assert Closes(tests, text, s, g);
      } else if p < o {
        var c: nat :| p < c < o && IsLineStart(text, c) && Closes(tests, text, c, g);
        assert p < c < end;
      }
    }
  }

  lemma NotOutsideWhileOpen(tests: Tests, text: Bytes, o: nat, f: Fence, s: nat, p: nat)
    requires StillOpen(tests, text, o, f, s) && o < p <= s
    ensures !Outside(tests, text, p)
  {
    hide Outside;
    hide Opens;
    hide Closes;
    assert StillOpen(tests, text, o, f, p);
    OpenIsInside(tests, text, o, f, p);
  }

  // ----- Paragraphs -----

  ghost predicate ParagraphIs(tests: Tests, text: Bytes, paragraph: Option<nat>, s: nat) {
    match paragraph
    case None => !PlainBefore(tests, text, s)
    case Some(p) => IsRunOfLines(tests, text, p, s)
  }

  ghost predicate ScanIs(tests: Tests, text: Bytes, scan: Scan, s: nat) {
    && s <= |text| && (s == |text| || IsLineStart(text, s))
    && FenceIs(tests, text, scan.fence, s) && ParagraphIs(tests, text, scan.paragraph, s)
  }

  lemma FenceIsOutside(tests: Tests, text: Bytes, fence: Option<Fence>, s: nat)
    requires FenceIs(tests, text, fence, s)
    ensures fence.None? <==> Outside(tests, text, s)
    ensures fence.Some? ==> fence.value.ch == TICK || fence.value.ch == TILDE
  {
    if fence.Some? {
      var o: nat :| StillOpen(tests, text, o, fence.value, s);
      hide Outside;
      OpenIsInside(tests, text, o, fence.value, s);
    }
  }

  lemma CodeLineIs(tests: Tests, text: Bytes, scan: Scan, s: nat)
    requires s < |text| && IsLineStart(text, s) && FenceIs(tests, text, scan.fence, s)
    ensures IsMaskedLine(text, scan, LineAt(text, s)) <==> IsCodeLine(tests, text, s)
    ensures IsPlain(tests, text, scan, LineAt(text, s)) <==> IsPlainLine(tests, text, s)
  {
    hide Outside;
    hide FenceIs;
    hide Opens;
    hide NearMargin;
    hide Run;
    var line := LineAt(text, s);
    FenceIsOutside(tests, text, scan.fence, s);
    LineReads(text, s);
    OpensIs(text, s, line.Opened());
    forall f | Opens(text, s, f) ensures line.OpensFence() {
      OpensIs(text, s, f);
    }
  }

  lemma NextFenceIs(tests: Tests, text: Bytes, scan: Scan, s: nat)
    requires s < |text| && IsLineStart(text, s) && FenceIs(tests, text, scan.fence, s)
    ensures FenceIs(tests, text, NextScan(tests, text, scan, LineAt(text, s)).fence, LineEnd(text, s))
  {
    hide Outside;
    hide Opens;
    hide Closes;
    hide StillOpen;
    hide IsPlain;
    hide ClosesFence;
    var line := LineAt(text, s);
    match scan.fence
    case None =>
      forall f ensures Opens(text, s, f) <==> line.OpensFence() && f == line.Opened() {
        OpensIs(text, s, f);
      }
      if line.OpensFence() {
        OpensNext(tests, text, s, line.Opened());
      } else {
        StaysOutside(tests, text, s);
      }
    case Some(f) =>
      FenceIsOutside(tests, text, scan.fence, s);
      ClosesIs(tests, text, s, f);
      var o: nat :| StillOpen(tests, text, o, f, s);
      if Closes(tests, text, s, f) {
        ClosesNext(tests, text, o, f, s);
      } else {
        StaysOpen(tests, text, o, f, s);
      }
  }

  /** The one line that ends where the next starts. */
  lemma LineBefore(text: Bytes, s: nat, l: nat)
    requires s < |text| && IsLineStart(text, s) && l < LineEnd(text, s) && l <= |text| && IsLineStart(text, l)
    requires LineEnd(text, l) == LineEnd(text, s)
    ensures l == s
  {
    if s < l {
      NoneBetween(text, s, l);
    } else if l < s {
      NoneBetween(text, l, s);
      LineMoves(text, s);
    }
  }

  lemma LineMoves(text: Bytes, s: nat)
    requires s < |text|
    ensures s < LineEnd(text, s)
  {
  }

  lemma PlainBeforeIs(tests: Tests, text: Bytes, s: nat)
    requires s < |text| && IsLineStart(text, s)
    ensures PlainBefore(tests, text, LineEnd(text, s)) <==> IsPlainLine(tests, text, s)
  {
    hide IsCodeLine;
    LineMoves(text, s);
    if PlainBefore(tests, text, LineEnd(text, s)) {
      var l: nat :| l < LineEnd(text, s) && l <= |text| && LineEnd(text, l) == LineEnd(text, s)
          && IsPlainLine(tests, text, l);
      LineBefore(text, s, l);
    }
  }

  lemma NextParagraphIs(tests: Tests, text: Bytes, scan: Scan, s: nat)
    requires s < |text| && ScanIs(tests, text, scan, s)
    ensures ParagraphIs(tests, text, NextScan(tests, text, scan, LineAt(text, s)).paragraph, LineEnd(text, s))
  {
    hide FenceIs;
    hide IsPlain;
    hide IsPlainLine;
    hide PlainBefore;
    hide ClosesFence;
    var end := LineEnd(text, s);
    CodeLineIs(tests, text, scan, s);
    PlainBeforeIs(tests, text, s);
    LineMoves(text, s);
    if IsPlainLine(tests, text, s) {
      var p := scan.paragraph.GetOr(s);
      forall l: nat | p <= l < end && IsLineStart(text, l) ensures IsPlainLine(tests, text, l) {
        if s < l {
          NoneBetween(text, s, l);
        }
      }
    }
  }

  lemma NextScanIs(tests: Tests, text: Bytes, scan: Scan, s: nat)
    requires s < |text| && ScanIs(tests, text, scan, s)
    ensures ScanIs(tests, text, NextScan(tests, text, scan, LineAt(text, s)), LineEnd(text, s))
  {
    hide FenceIs;
    hide ParagraphIs;
    hide NextScan;
    NextFenceIs(tests, text, scan, s);
    NextParagraphIs(tests, text, scan, s);
    LineEndStarts(text, s);
  }

  lemma BeginScanIs(tests: Tests, text: Bytes)
    ensures ScanIs(tests, text, Scan(None, None), 0)
  {
  }

  // ----- What is masked -----

  lemma CoveredConcat(a: seq<Range>, b: seq<Range>, i: nat)
    ensures Covered(a + b, i) <==> Covered(a, i) || Covered(b, i)
  {
    assert forall r :: r in a + b <==> r in a || r in b;
  }

  lemma {:induction false} ShiftedCovers(spans: seq<Range>, start: nat, i: nat)
    ensures Covered(Shifted(spans, start), i) <==> exists r | r in spans :: start + r.from <= i < start + r.end
  {
    if spans != [] {
      ShiftedCovers(spans[1..], start, i);
      var shifted := Shifted(spans, start);
      CoveredFirst(shifted, i);
      assert shifted[1..] == Shifted(spans[1..], start);
      assert forall r :: r in spans <==> r == spans[0] || r in spans[1..];
    }
  }

  lemma SpansInCover(text: Bytes, para: Option<nat>, end: nat, i: nat)
    requires end <= |text| && (para.Some? ==> para.value <= end)
    ensures Covered(SpansIn(text, para, end), i) <==> para.Some? && InSpan(text, para.value, end, i)
  {
    hide CodeSpans;
    if para.Some? {
      ShiftedCovers(CodeSpans(text[para.value..end], 0), para.value, i);
    }
  }

  /** A paragraph that ends at `s` is the one the scan holds. */
  lemma EndingParagraph(tests: Tests, text: Bytes, paragraph: Option<nat>, s: nat, p: nat)
    requires s <= |text| && (s == |text| || IsLineStart(text, s)) && ParagraphIs(tests, text, paragraph, s)
    ensures IsParagraph(tests, text, p, s)
       <==> paragraph == Some(p) && (s == |text| || !IsPlainLine(tests, text, s))
  {
    hide IsPlainLine;
    if IsRunOfLines(tests, text, p, s) {
      RunEndsPlain(tests, text, p, s);
      if paragraph.Some? {
        OneRunOfLines(tests, text, p, paragraph.value, s);
      }
    }
  }

  /** The last line of a paragraph's lines. */
  lemma RunEndsPlain(tests: Tests, text: Bytes, p: nat, s: nat)
    requires IsRunOfLines(tests, text, p, s) && (s == |text| || IsLineStart(text, s))
    ensures PlainBefore(tests, text, s)
  {
    hide IsPlainLine;
    var l := LastLine(text, p, s);
    assert IsPlainLine(tests, text, l);
  }

  lemma {:induction false} LastLine(text: Bytes, p: nat, s: nat) returns (l: nat)
    requires p < s <= |text| && IsLineStart(text, p) && (s == |text| || IsLineStart(text, s))
    ensures p <= l < s && IsLineStart(text, l) && LineEnd(text, l) == s
    decreases s - p
  {
    var end := LineEnd(text, p);
    LineMoves(text, p);
    LineEndStarts(text, p);
    if IsLineStart(text, s) {
      NoneBetween(text, p, s);
    }
    if end == s {
      l := p;
    } else {
      l := LastLine(text, end, s);
    }
  }

  lemma OneRunOfLines(tests: Tests, text: Bytes, p: nat, q: nat, s: nat)
    requires IsRunOfLines(tests, text, p, s) && IsRunOfLines(tests, text, q, s)
    ensures p == q
  {
    hide IsPlainLine;
    if p < q {
      BeforeIsPlain(tests, text, p, q, s);
    } else if q < p {
      BeforeIsPlain(tests, text, q, p, s);
    }
  }

  lemma BeforeIsPlain(tests: Tests, text: Bytes, p: nat, q: nat, s: nat)
    requires IsRunOfLines(tests, text, p, s) && p < q < s && IsLineStart(text, q)
    ensures PlainBefore(tests, text, q)
  {
    hide IsPlainLine;
    var l := LastLine(text, p, q);
    assert IsPlainLine(tests, text, l);
  }

  lemma MaskedAtIs(tests: Tests, text: Bytes, scan: Scan, s: nat, i: nat)
    requires s < |text| && ScanIs(tests, text, scan, s) && (scan.paragraph.Some? ==> scan.paragraph.value <= s)
    ensures Covered(MaskedAt(tests, text, scan, LineAt(text, s)), i)
       <==> InCodeLine(tests, text, s, i) || exists p: nat :: InParagraphSpan(tests, text, p, s, i)
  {
    hide FenceIs;
    hide ParagraphIs;
    hide IsCodeLine;
    hide IsPlainLine;
    hide IsPlain;
    hide IsMaskedLine;
    hide SpansIn;
    hide InSpan;
    hide IsParagraph;
    hide Covered;
    var line := LineAt(text, s);
    CodeLineIs(tests, text, scan, s);
    SpansInCover(text, scan.paragraph, s, i);
    forall p: nat
      ensures IsParagraph(tests, text, p, s) <==> scan.paragraph == Some(p) && !IsPlainLine(tests, text, s)
    {
      EndingParagraph(tests, text, scan.paragraph, s, p);
    }
    var spans := if IsPlain(tests, text, scan, line) then [] else SpansIn(text, scan.paragraph, s);
    var whole := if IsMaskedLine(text, scan, line) then [Range(s, line.end)] else [];
    CoveredConcat(spans, whole, i);
    NothingCovered(i);
    CoveredOne(Range(s, line.end), i);
    if !IsPlain(tests, text, scan, line) && scan.paragraph.Some? {
      assert InParagraphSpan(tests, text, scan.paragraph.value, s, i) <==> InSpan(text, scan.paragraph.value, s, i);
    }
  }

  lemma CoveredOne(r: Range, i: nat)
    ensures Covered([r], i) <==> r.from <= i < r.end
  {
    assert r in [r];
  }

  lemma CodeLineStarts(tests: Tests, text: Bytes, l: nat, i: nat)
    requires InCodeLine(tests, text, l, i)
    ensures l < |text| && IsLineStart(text, l)
  {
    hide Outside;
    hide NearMargin;
  }

  lemma OnCodeLineStep(tests: Tests, text: Bytes, s: nat, i: nat)
    requires s < |text| && IsLineStart(text, s)
    ensures OnCodeLineFrom(tests, text, s, i)
       <==> InCodeLine(tests, text, s, i) || OnCodeLineFrom(tests, text, LineEnd(text, s), i)
  {
    hide InCodeLine;
    LineMoves(text, s);
    if OnCodeLineFrom(tests, text, s, i) {
      var l: nat :| s <= l && InCodeLine(tests, text, l, i);
      CodeLineStarts(tests, text, l, i);
      if s < l {
        NoneBetween(text, s, l);
      }
    }
  }

  lemma ParagraphEnds(tests: Tests, text: Bytes, p: nat, q: nat, i: nat)
    requires InParagraphSpan(tests, text, p, q, i)
    ensures q <= |text| && (q == |text| || IsLineStart(text, q))
  {
    hide InSpan;
    hide IsPlainLine;
  }

  lemma InParagraphStep(tests: Tests, text: Bytes, s: nat, i: nat)
    requires s < |text| && IsLineStart(text, s)
    ensures var ends := exists p: nat :: InParagraphSpan(tests, text, p, s, i);
            InParagraphFrom(tests, text, s, i) <==> ends || InParagraphFrom(tests, text, LineEnd(text, s), i)
  {
    hide InParagraphSpan;
    LineMoves(text, s);
    if InParagraphFrom(tests, text, s, i) {
      var p: nat, q: nat :| s <= q && InParagraphSpan(tests, text, p, q, i);
      ParagraphEnds(tests, text, p, q, i);
      if s < q < |text| {
        NoneBetween(text, s, q);
      }
    }
  }

  lemma IsCodeFromStep(tests: Tests, text: Bytes, s: nat, i: nat)
    requires s < |text| && IsLineStart(text, s)
    ensures IsCodeFrom(tests, text, s, i)
       <==> || InCodeLine(tests, text, s, i) || (exists p: nat :: InParagraphSpan(tests, text, p, s, i))
            || IsCodeFrom(tests, text, LineEnd(text, s), i)
  {
    hide InCodeLine;
    hide InParagraphSpan;
    hide OnCodeLineFrom;
    hide InParagraphFrom;
    OnCodeLineStep(tests, text, s, i);
    InParagraphStep(tests, text, s, i);
  }

  lemma {:induction false} CodeFromIs(tests: Tests, text: Bytes, scan: Scan, s: nat, i: nat)
    requires ScanIs(tests, text, scan, s) && (scan.paragraph.Some? ==> scan.paragraph.value <= s)
    ensures Covered(CodeFrom(tests, text, scan, s), i) <==> IsCodeFrom(tests, text, s, i)
    decreases |text| - s
  {
    hide Covered;
    hide ScanIs;
    hide MaskedAt;
    hide IsCodeFrom;
    hide InCodeLine;
    hide InParagraphSpan;
    hide CodeFrom;
    ScanStarts(tests, text, scan, s);
    CodeFromStep(tests, text, scan, s);
    if s == |text| {
      EndIs(tests, text, scan, i);
    } else {
      var line := LineAt(text, s);
      var next := NextScan(tests, text, scan, line);
      NextScanIs(tests, text, scan, s);
      CodeFromIs(tests, text, next, line.end, i);
      MaskedAtIs(tests, text, scan, s, i);
      IsCodeFromStep(tests, text, s, i);
      CoveredConcat(MaskedAt(tests, text, scan, line), CodeFrom(tests, text, next, line.end), i);
    }
  }

  lemma ScanStarts(tests: Tests, text: Bytes, scan: Scan, s: nat)
    requires ScanIs(tests, text, scan, s)
    ensures s <= |text| && (s == |text| || IsLineStart(text, s))
  {
  }

  lemma EndIs(tests: Tests, text: Bytes, scan: Scan, i: nat)
    requires ScanIs(tests, text, scan, |text|) && (scan.paragraph.Some? ==> scan.paragraph.value <= |text|)
    ensures Covered(SpansIn(text, scan.paragraph, |text|), i) <==> IsCodeFrom(tests, text, |text|, i)
  {
    hide Covered;
    hide InSpan;
    hide IsParagraph;
    hide SpansIn;
    SpansInCover(text, scan.paragraph, |text|, i);
    forall p: nat ensures IsParagraph(tests, text, p, |text|) <==> scan.paragraph == Some(p) {
      EndingParagraph(tests, text, scan.paragraph, |text|, p);
    }
    if scan.paragraph.Some? {
      assert InParagraphSpan(tests, text, scan.paragraph.value, |text|, i)
          <==> InSpan(text, scan.paragraph.value, |text|, i);
    }
    forall p: nat, q: nat | |text| <= q && InParagraphSpan(tests, text, p, q, i) ensures q == |text| {
      ParagraphInText(tests, text, p, q);
    }
  }

  lemma ParagraphInText(tests: Tests, text: Bytes, p: nat, q: nat)
    requires IsParagraph(tests, text, p, q)
    ensures q <= |text|
  {
  }

  /**
   Exactly what masking code masks: leaked reasoning, whole code lines, and the code spans of each paragraph.
   Every other byte stays.
   */
  lemma MaskCodeIs(tests: Tests, text: Bytes, i: nat)
    requires i < |text|
    ensures MaskCode(tests, text)[i]
         == if Covered(ThinkRanges(text), i) || IsCode(tests, text, i) then BlankByte(text[i]) else text[i]
  {
    hide Covered;
    hide IsCodeFrom;
    hide CodeFrom;
    hide ThinkRanges;
    BeginScanIs(tests, text);
    CodeFromIs(tests, text, Scan(None, None), 0, i);
    CoveredConcat(ThinkRanges(text), CodeRanges(tests, text), i);
    BlankedAllAt(text, ThinkRanges(text) + CodeRanges(tests, text), i);
  }
}

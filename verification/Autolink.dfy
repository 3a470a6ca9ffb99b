/**
 The link pass over a finished tree (`src/markdown.rs`): text split into links and conversation
 references. The finders are any functions that cut a text into consecutive spans.
 */
module Autolink {
  import opened Wrappers
  import opened Strings
  import opened Markdown
  import opened MarkdownHypothesis
  import opened MarkdownLimits
  import opened MarkdownTranslation
  import opened MarkdownProof
  import AgentRefs

  datatype LinkKind = UrlKind | EmailKind

  /** A stretch of text, and the kind of link it is if a finder took it for one. */
  datatype Found = Found(words: string, kind: Option<LinkKind>)

  function Covered(spans: seq<Found>): string {
    if spans == [] then "" else Covered(spans[..|spans| - 1]) + spans[|spans| - 1].words
  }

  /** `links` finds URLs with a scheme and email addresses, `www` URLs without one. */
  datatype Finders = Finders(links: string -> seq<Found>, www: string -> seq<Found>, beyond: AgentRefs.Beyond) {
    /** Each finder's spans are its whole text, in order. */
    ghost predicate Partition() {
      forall t: string :: Covered(links(t)) == t && Covered(www(t)) == t
    }
  }

  // ----- One text -----

  function PushLink(out: seq<Inline>, url: string, words: string): seq<Inline> {
    out + [Link(url, [Markdown.Text(words)])]
  }

  function SegmentInline(segment: AgentRefs.Segment): Inline {
    match segment
    case Text(words) => Markdown.Text(words)
    case Conversation(words, id) => ConversationRef(id, words)
  }

  function PushSegments(out: seq<Inline>, segments: seq<AgentRefs.Segment>): seq<Inline> {
    if segments == [] then out
    else PushInline(PushSegments(out, segments[..|segments| - 1]), SegmentInline(segments[|segments| - 1]))
  }

  function PushText(out: seq<Inline>, beyond: AgentRefs.Beyond, text: string): seq<Inline> {
    PushSegments(out, AgentRefs.Find(beyond, text))
  }

  predicate IsWww(gap: Found) {
    gap.kind.Some? && |gap.words| >= 4 && EqIgnoreCase(gap.words[..4], "www.") && !HasBidiControl(gap.words)
  }

  function PushGap(out: seq<Inline>, beyond: AgentRefs.Beyond, gap: Found): seq<Inline> {
    if IsWww(gap) then PushLink(out, "https://" + gap.words, gap.words) else PushText(out, beyond, gap.words)
  }

  function PushGaps(out: seq<Inline>, beyond: AgentRefs.Beyond, gaps: seq<Found>): seq<Inline> {
    if gaps == [] then out else PushGap(PushGaps(out, beyond, gaps[..|gaps| - 1]), beyond, gaps[|gaps| - 1])
  }

  /** Where a span the first finder took for a link goes, unless it would not go where it says. */
  function SpanUrl(span: Found): Option<string> {
    match span.kind
    case Some(UrlKind) =>
      if AllowedUrl(span.words, IMAGE_SCHEMES) && !HasBidiControl(span.words) then Some(span.words) else None
    case Some(EmailKind) => Mailto(span.words)
    case None => None
  }

  function PushSpan(out: seq<Inline>, finders: Finders, span: Found): seq<Inline> {
    match SpanUrl(span)
    case Some(url) => PushLink(out, url, span.words)
    case None =>
      if span.kind.Some? then PushText(out, finders.beyond, span.words)
      else PushGaps(out, finders.beyond, finders.www(span.words))
  }

  function PushSpans(out: seq<Inline>, finders: Finders, spans: seq<Found>): seq<Inline> {
    if spans == [] then out else PushSpan(PushSpans(out, finders, spans[..|spans| - 1]), finders, spans[|spans| - 1])
  }

  /** `out` with `text` added, split into text, links and references. */
  function SplitLinks(out: seq<Inline>, finders: Finders, text: string): seq<Inline> {
    PushSpans(out, finders, finders.links(text))
  }

  // ----- A tree -----

  /** `inlines` linked, `depth` spans enclosing them. */
  function Linked(inlines: seq<Inline>, finders: Finders, depth: nat): seq<Inline>
    decreases inlines, 1
  {
    if inlines == [] then []
    else AddLinked(Linked(inlines[..|inlines| - 1], finders, depth), inlines[|inlines| - 1], finders, depth)
  }

  function AddLinked(out: seq<Inline>, inline: Inline, finders: Finders, depth: nat): seq<Inline>
    decreases inline, 0
  {
    match inline
    case Text(t) => if depth < MAX_DEPTH then SplitLinks(out, finders, t) else out + [inline]
    case Styled(style, content) => out + [Styled(style, Linked(content, finders, depth + 1))]
    case _ => out + [inline]
  }

  function LinkedCells(cells: seq<seq<Inline>>, finders: Finders): (linked: seq<seq<Inline>>)
    ensures |linked| == |cells|
  {
    seq(|cells|, i requires 0 <= i < |cells| => Linked(cells[i], finders, 0))
  }

  function LinkedBlocks(blocks: seq<Block>, finders: Finders): (linked: seq<Block>)
    ensures |linked| == |blocks|
    decreases blocks, 1
  {
    seq(|blocks|, i requires 0 <= i < |blocks| => LinkedBlock(blocks[i], finders))
  }

  function LinkedBlock(block: Block, finders: Finders): Block
    decreases block, 0
  {
    match block
    case ParagraphBlock(content) => ParagraphBlock(Linked(content, finders, 0))
    case PlainBlock(content) => PlainBlock(Linked(content, finders, 0))
    case HeadingBlock(level, content) => HeadingBlock(level, Linked(content, finders, 0))
    case QuoteBlock(inner) => QuoteBlock(LinkedBlocks(inner, finders))
    case ListBlock(start, items) => ListBlock(start, LinkedItems(items, finders))
    case TableBlock(head, rows) =>
      TableBlock(LinkedCells(head, finders), seq(|rows|, i requires 0 <= i < |rows| => LinkedCells(rows[i], finders)))
    case CodeBlock(_, _) => block
    case RuleBlock => block
    case HtmlBlock(_) => block
  }

  function LinkedItems(items: seq<ListItem>, finders: Finders): (linked: seq<ListItem>)
    ensures |linked| == |items|
    decreases items, 1
  {
    seq(|items|, i requires 0 <= i < |items| => ListItem(items[i].task, LinkedBlocks(items[i].blocks, finders)))
  }

  // ----- No list's words change -----

  lemma WrittenLast(segments: seq<AgentRefs.Segment>)
    requires segments != []
    ensures AgentRefs.Written(segments)
            == AgentRefs.Written(segments[..|segments| - 1]) + segments[|segments| - 1].words
  {
    var before, last := segments[..|segments| - 1], segments[|segments| - 1];
    assert before + [last] == segments && [last][1..] == [];
    AgentRefs.WrittenConcat(before, [last]);
    assert AgentRefs.Written([last]) == last.words;
  }

  lemma {:induction false} SegmentsKeepWords(out: seq<Inline>, segments: seq<AgentRefs.Segment>)
    ensures PlainTexts(PushSegments(out, segments)) == PlainTexts(out) + AgentRefs.Written(segments)
  {
    hide PlainTexts;
    hide PushInline;
    if segments == [] {
      assert PlainTexts(out) + "" == PlainTexts(out);
    } else {
      var before, last := segments[..|segments| - 1], segments[|segments| - 1];
      SegmentsKeepWords(out, before);
      PlainTextsPush(PushSegments(out, before), SegmentInline(last));
      WrittenLast(segments);
      assert (PlainTexts(out) + AgentRefs.Written(before)) + last.words
          == PlainTexts(out) + AgentRefs.Written(segments);
    }
  }

  lemma TextKeepsWords(out: seq<Inline>, beyond: AgentRefs.Beyond, text: string)
    ensures PlainTexts(PushText(out, beyond, text)) == PlainTexts(out) + text
  {
    SegmentsKeepWords(out, AgentRefs.Find(beyond, text));
    AgentRefs.FindIsLossless(beyond, text);
  }

  lemma PlainTextsAppend(out: seq<Inline>, x: Inline)
    ensures PlainTexts(out + [x]) == PlainTexts(out) + PlainText(x)
  {
    assert (out + [x])[..|out|] == out;
  }

  lemma LinkKeepsWords(out: seq<Inline>, url: string, words: string)
    ensures PlainTexts(PushLink(out, url, words)) == PlainTexts(out) + words
  {
    PlainTextsAppend([], Markdown.Text(words));
    PlainTextsAppend(out, Link(url, [Markdown.Text(words)]));
  }

  lemma {:induction false} GapsKeepWords(out: seq<Inline>, beyond: AgentRefs.Beyond, gaps: seq<Found>)
    ensures PlainTexts(PushGaps(out, beyond, gaps)) == PlainTexts(out) + Covered(gaps)
  {
    hide PushText;
    hide PushLink;
    hide PlainTexts;
    if gaps != [] {
      var before, gap := gaps[..|gaps| - 1], gaps[|gaps| - 1];
      GapsKeepWords(out, beyond, before);
      LinkKeepsWords(PushGaps(out, beyond, before), "https://" + gap.words, gap.words);
      TextKeepsWords(PushGaps(out, beyond, before), beyond, gap.words);
      assert (PlainTexts(out) + Covered(before)) + gap.words == PlainTexts(out) + Covered(gaps);
    }
  }

  lemma SpanKeepsWords(out: seq<Inline>, finders: Finders, span: Found)
    requires finders.Partition()
    ensures PlainTexts(PushSpan(out, finders, span)) == PlainTexts(out) + span.words
  {
    hide PushText;
    hide PushLink;
    hide PlainTexts;
    hide PushGaps;
    match SpanUrl(span)
    case Some(url) => LinkKeepsWords(out, url, span.words);
    case None =>
      TextKeepsWords(out, finders.beyond, span.words);
      GapsKeepWords(out, finders.beyond, finders.www(span.words));
  }

  lemma {:induction false} SpansKeepWords(out: seq<Inline>, finders: Finders, spans: seq<Found>)
    requires finders.Partition()
    ensures PlainTexts(PushSpans(out, finders, spans)) == PlainTexts(out) + Covered(spans)
  {
    hide PushSpan;
    hide PlainTexts;
    if spans != [] {
      var before, span := spans[..|spans| - 1], spans[|spans| - 1];
      SpansKeepWords(out, finders, before);
      SpanKeepsWords(PushSpans(out, finders, before), finders, span);
      assert (PlainTexts(out) + Covered(before)) + span.words == PlainTexts(out) + Covered(spans);
    }
  }

  lemma {:induction false} LinkingKeepsWords(inlines: seq<Inline>, finders: Finders, depth: nat)
    requires finders.Partition()
    ensures PlainTexts(Linked(inlines, finders, depth)) == PlainTexts(inlines)
    decreases inlines, 1
  {
    if inlines != [] {
      var before, last := inlines[..|inlines| - 1], inlines[|inlines| - 1];
      LinkingKeepsWords(before, finders, depth);
      AddLinkedKeepsWords(Linked(before, finders, depth), last, finders, depth);
    }
  }

  lemma {:induction false} AddLinkedKeepsWords(out: seq<Inline>, inline: Inline, finders: Finders, depth: nat)
    requires finders.Partition()
    ensures PlainTexts(AddLinked(out, inline, finders, depth)) == PlainTexts(out) + PlainText(inline)
    decreases inline, 0
  {
    hide PlainTexts;
    hide PushSpans;
    PlainTextsAppend(out, inline);
    match inline
    case Text(t) => SpansKeepWords(out, finders, finders.links(t));
    case Styled(style, content) =>
      LinkingKeepsWords(content, finders, depth + 1);
      PlainTextsAppend(out, Styled(style, Linked(content, finders, depth + 1)));
    case _ =>
  }

  /** The blocks with each list of inlines replaced by its words. */
  function Outline(blocks: seq<Block>): seq<Block>
    decreases blocks, 1
  {
    seq(|blocks|, i requires 0 <= i < |blocks| => OutlineBlock(blocks[i]))
  }

  function WordsOnly(inlines: seq<Inline>): seq<Inline> {
    [Markdown.Text(PlainTexts(inlines))]
  }

  function OutlineCells(cells: seq<seq<Inline>>): seq<seq<Inline>> {
    seq(|cells|, i requires 0 <= i < |cells| => WordsOnly(cells[i]))
  }

  function OutlineBlock(block: Block): Block
    decreases block, 0
  {
    match block
    case ParagraphBlock(content) => ParagraphBlock(WordsOnly(content))
    case PlainBlock(content) => PlainBlock(WordsOnly(content))
    case HeadingBlock(level, content) => HeadingBlock(level, WordsOnly(content))
    case QuoteBlock(inner) => QuoteBlock(Outline(inner))
    case ListBlock(start, items) =>
      ListBlock(start, seq(|items|, i requires 0 <= i < |items| => ListItem(items[i].task, Outline(items[i].blocks))))
    case TableBlock(head, rows) =>
      TableBlock(OutlineCells(head), seq(|rows|, i requires 0 <= i < |rows| => OutlineCells(rows[i])))
    case _ => block
  }

  lemma CellsKeepOutline(cells: seq<seq<Inline>>, finders: Finders)
    requires finders.Partition()
    ensures OutlineCells(LinkedCells(cells, finders)) == OutlineCells(cells)
  {
    forall i | 0 <= i < |cells| ensures PlainTexts(Linked(cells[i], finders, 0)) == PlainTexts(cells[i]) {
      LinkingKeepsWords(cells[i], finders, 0);
    }
  }

  /** Linking changes no block but within its lists of inlines, and the words of none of those. */
  lemma {:induction false} LinkingKeepsOutline(blocks: seq<Block>, finders: Finders)
    requires finders.Partition()
    ensures Outline(LinkedBlocks(blocks, finders)) == Outline(blocks)
    decreases blocks, 1
  {
    forall i | 0 <= i < |blocks| ensures OutlineBlock(LinkedBlock(blocks[i], finders)) == OutlineBlock(blocks[i]) {
      BlockKeepsOutline(blocks[i], finders);
    }
  }

  lemma {:induction false} BlockKeepsOutline(block: Block, finders: Finders)
    requires finders.Partition()
    ensures OutlineBlock(LinkedBlock(block, finders)) == OutlineBlock(block)
    decreases block, 0
  {
    match block
    case ParagraphBlock(content) => LinkingKeepsWords(content, finders, 0);
    case PlainBlock(content) => LinkingKeepsWords(content, finders, 0);
    case HeadingBlock(_, content) => LinkingKeepsWords(content, finders, 0);
    case QuoteBlock(inner) => LinkingKeepsOutline(inner, finders);
    case ListBlock(start, items) =>
      forall i | 0 <= i < |items| ensures Outline(LinkedBlocks(items[i].blocks, finders)) == Outline(items[i].blocks) {
        LinkingKeepsOutline(items[i].blocks, finders);
      }
    case TableBlock(head, rows) =>
      CellsKeepOutline(head, finders);
      forall i | 0 <= i < |rows| ensures OutlineCells(LinkedCells(rows[i], finders)) == OutlineCells(rows[i]) {
        CellsKeepOutline(rows[i], finders);
      }
    case _ =>
  }

  // ----- Links stay allowed, within the cap, and out of links -----

  /** No link holds a link or a conversation reference, which shows as one; `inLink` says whether these are in one. */
  predicate Unnested(inlines: seq<Inline>, inLink: bool)
    decreases inlines, 1
  {
    forall i | 0 <= i < |inlines| :: UnnestedInline(inlines[i], inLink)
  }

  predicate UnnestedInline(inline: Inline, inLink: bool)
    decreases inline, 0
  {
    match inline
    case Styled(_, content) => Unnested(content, inLink)
    case Link(_, content) => !inLink && Unnested(content, true)
    case ConversationRef(_, _) => !inLink
    case _ => true
  }

  lemma SchemeIs(scheme: string, rest: string, schemes: seq<string>)
    requires forall c | c in scheme :: c != ':'
    requires scheme in schemes
    ensures AllowedUrl(scheme + ":" + rest, schemes)
  {
    var url := scheme + ":" + rest;
    assert OccursAt(url, ":", |scheme|);
    forall k | 0 <= k < |scheme| ensures !OccursAt(url, ":", k) {
      assert url[k] == scheme[k] && scheme[k] in scheme;
      assert url[k..k + 1][0] == url[k] && ":"[0] == ':';
    }
    assert url[..|scheme|] == scheme;
  }

  lemma WebUrlIsLinkUrl(url: string)
    requires AllowedUrl(url, IMAGE_SCHEMES)
    ensures AllowedUrl(url, LINK_SCHEMES)
  {
  }

  lemma SpanUrlIsAllowed(span: Found)
    ensures SpanUrl(span).Some? ==> AllowedUrl(SpanUrl(span).value, LINK_SCHEMES)
  {
    match SpanUrl(span)
    case Some(url) =>
      if span.kind == Some(EmailKind) {
        SchemeIs("mailto", span.words, LINK_SCHEMES);
        assert "mailto" + ":" + span.words == url;
      } else {
        WebUrlIsLinkUrl(url);
      }
    case None =>
  }

  lemma WwwUrlIsAllowed(words: string)
    ensures AllowedUrl("https://" + words, LINK_SCHEMES)
  {
    SchemeIs("https", "//" + words, LINK_SCHEMES);
    assert "https" + ":" + ("//" + words) == "https://" + words;
  }

  /** What linking keeps: within `n` spans and followed links, and no link in a link. */
  predicate Kept(before: seq<Inline>, after: seq<Inline>, n: nat) {
    && (Sound(before, n) ==> Sound(after, n))
    && (Unnested(before, false) ==> Unnested(after, false))
  }

  lemma AppendKept(before: seq<Inline>, out: seq<Inline>, x: Inline, n: nat)
    requires Kept(before, out, n)
    ensures Sound(before, n) && SoundInline(x, n) ==> Sound(out + [x], n)
    ensures Unnested(before, false) && UnnestedInline(x, false) ==> Unnested(out + [x], false)
  {
    assert forall i | 0 <= i < |out| :: (out + [x])[i] == out[i];
  }

  lemma KeptSplits(before: seq<Inline>, x: Inline, n: nat)
    ensures Sound(before + [x], n) <==> Sound(before, n) && SoundInline(x, n)
    ensures Unnested(before + [x], false) <==> Unnested(before, false) && UnnestedInline(x, false)
  {
    assert (before + [x])[|before|] == x;
    assert forall i | 0 <= i < |before| :: (before + [x])[i] == before[i];
  }

  lemma LinkIsKept(out: seq<Inline>, url: string, words: string, n: nat)
    requires n > 0 && AllowedUrl(url, LINK_SCHEMES)
    ensures Kept(out, PushLink(out, url, words), n)
  {
    assert Sound([Markdown.Text(words)], n - 1) && Unnested([Markdown.Text(words)], true);
    AppendKept(out, out, Link(url, [Markdown.Text(words)]), n);
  }

  lemma {:induction false} SegmentsAreKept(out: seq<Inline>, segments: seq<AgentRefs.Segment>, n: nat)
    ensures Kept(out, PushSegments(out, segments), n)
  {
    if segments != [] {
      SegmentsAreKept(out, segments[..|segments| - 1], n);
    }
  }

  lemma {:induction false} GapsAreKept(out: seq<Inline>, beyond: AgentRefs.Beyond, gaps: seq<Found>, n: nat)
    requires n > 0
    ensures Kept(out, PushGaps(out, beyond, gaps), n)
  {
    hide Sound;
    hide Unnested;
    hide PushLink;
    hide PushSegments;
    if gaps != [] {
      var before, gap := PushGaps(out, beyond, gaps[..|gaps| - 1]), gaps[|gaps| - 1];
      GapsAreKept(out, beyond, gaps[..|gaps| - 1], n);
      WwwUrlIsAllowed(gap.words);
      LinkIsKept(before, "https://" + gap.words, gap.words, n);
      SegmentsAreKept(before, AgentRefs.Find(beyond, gap.words), n);
    }
  }

  lemma {:induction false} SpansAreKept(out: seq<Inline>, finders: Finders, spans: seq<Found>, n: nat)
    requires n > 0
    ensures Kept(out, PushSpans(out, finders, spans), n)
  {
    hide Sound;
    hide Unnested;
    hide PushLink;
    hide PushSegments;
    hide PushGaps;
    if spans != [] {
      var before, span := PushSpans(out, finders, spans[..|spans| - 1]), spans[|spans| - 1];
      SpansAreKept(out, finders, spans[..|spans| - 1], n);
      SpanUrlIsAllowed(span);
      if SpanUrl(span).Some? {
        LinkIsKept(before, SpanUrl(span).value, span.words, n);
      }
      SegmentsAreKept(before, AgentRefs.Find(finders.beyond, span.words), n);
      GapsAreKept(before, finders.beyond, finders.www(span.words), n);
    }
  }

  /** Linking takes no span past the cap, adds only links smelt follows, and puts no link in a link. */
  lemma {:induction false} LinkingIsKept(inlines: seq<Inline>, finders: Finders, depth: nat, n: nat)
    requires Room(depth) <= n
    ensures Kept(inlines, Linked(inlines, finders, depth), n)
    decreases inlines, 1
  {
    if inlines != [] {
      var before, last := inlines[..|inlines| - 1], inlines[|inlines| - 1];
      assert inlines == before + [last];
      LinkingIsKept(before, finders, depth, n);
      AddIsKept(before, Linked(before, finders, depth), last, finders, depth, n);
    }
  }

  lemma {:induction false} AddIsKept(before: seq<Inline>, out: seq<Inline>, inline: Inline, finders: Finders,
                                     depth: nat, n: nat)
    requires Room(depth) <= n && Kept(before, out, n)
    ensures Kept(before + [inline], AddLinked(out, inline, finders, depth), n)
    decreases inline, 0
  {
    hide PushSpans;
    hide Sound;
    hide Unnested;
    KeptSplits(before, inline, n);
    AppendKept(before, out, inline, n);
    match inline
    case Text(t) =>
      if depth < MAX_DEPTH {
        SpansAreKept(out, finders, finders.links(t), n);
      }
    case Styled(style, content) =>
      LinkingIsKept(content, finders, depth + 1, if n > 0 then n - 1 else 0);
      AppendKept(before, out, Styled(style, Linked(content, finders, depth + 1)), n);
    case _ =>
  }

  predicate CellsUnnested(cells: seq<seq<Inline>>) {
    forall i | 0 <= i < |cells| :: Unnested(cells[i], false)
  }

  predicate BlocksUnnested(blocks: seq<Block>)
    decreases blocks, 1
  {
    forall i | 0 <= i < |blocks| :: BlockUnnested(blocks[i])
  }

  predicate BlockUnnested(block: Block)
    decreases block, 0
  {
    match block
    case ParagraphBlock(content) => Unnested(content, false)
    case PlainBlock(content) => Unnested(content, false)
    case HeadingBlock(_, content) => Unnested(content, false)
    case QuoteBlock(inner) => BlocksUnnested(inner)
    case ListBlock(_, items) => forall i | 0 <= i < |items| :: BlocksUnnested(items[i].blocks)
    case TableBlock(head, rows) => CellsUnnested(head) && forall i | 0 <= i < |rows| :: CellsUnnested(rows[i])
    case _ => true
  }

  lemma CellsAreKept(cells: seq<seq<Inline>>, finders: Finders)
    ensures SoundCells(cells) ==> SoundCells(LinkedCells(cells, finders))
    ensures CellsUnnested(cells) ==> CellsUnnested(LinkedCells(cells, finders))
  {
    forall i | 0 <= i < |cells| ensures Kept(cells[i], Linked(cells[i], finders, 0), MAX_DEPTH) {
      LinkingIsKept(cells[i], finders, 0, MAX_DEPTH);
    }
  }

  /** What linking keeps of blocks. */
  predicate BlocksKept(before: seq<Block>, after: seq<Block>, n: nat) {
    && (SoundBlocks(before, n) ==> SoundBlocks(after, n))
    && (BlocksUnnested(before) ==> BlocksUnnested(after))
  }

  lemma {:induction false} LinkedBlocksAreKept(blocks: seq<Block>, finders: Finders, n: nat)
    ensures BlocksKept(blocks, LinkedBlocks(blocks, finders), n)
    decreases blocks, 1
  {
    forall i | 0 <= i < |blocks|
      ensures SoundBlock(blocks[i], n) ==> SoundBlock(LinkedBlock(blocks[i], finders), n)
      ensures BlockUnnested(blocks[i]) ==> BlockUnnested(LinkedBlock(blocks[i], finders))
    {
      LinkedBlockIsKept(blocks[i], finders, n);
    }
  }

  lemma {:induction false} LinkedBlockIsKept(block: Block, finders: Finders, n: nat)
    ensures SoundBlock(block, n) ==> SoundBlock(LinkedBlock(block, finders), n)
    ensures BlockUnnested(block) ==> BlockUnnested(LinkedBlock(block, finders))
    decreases block, 0
  {
    var less := if n > 0 then n - 1 else 0;
    match block
    case ParagraphBlock(content) => LinkingIsKept(content, finders, 0, MAX_DEPTH);
    case PlainBlock(content) => LinkingIsKept(content, finders, 0, MAX_DEPTH);
    case HeadingBlock(_, content) => LinkingIsKept(content, finders, 0, MAX_DEPTH);
    case QuoteBlock(inner) => LinkedBlocksAreKept(inner, finders, less);
    case ListBlock(_, items) =>
      forall i | 0 <= i < |items| ensures BlocksKept(items[i].blocks, LinkedBlocks(items[i].blocks, finders), less) {
        LinkedBlocksAreKept(items[i].blocks, finders, less);
      }
    case TableBlock(head, rows) =>
      CellsAreKept(head, finders);
      forall i | 0 <= i < |rows|
        ensures SoundCells(rows[i]) ==> SoundCells(LinkedCells(rows[i], finders))
        ensures CellsUnnested(rows[i]) ==> CellsUnnested(LinkedCells(rows[i], finders))
      {
        CellsAreKept(rows[i], finders);
      }
    case _ =>
  }

  /** A whole reply: its tree, linked, has the same outline, stays within the caps, and nests no more links. */
  lemma ParsedReply(doc: seq<FlowNode>, finders: Finders)
    requires finders.Partition()
    ensures Outline(LinkedBlocks(Translation(doc), finders)) == Outline(Translation(doc))
    ensures SoundBlocks(LinkedBlocks(Translation(doc), finders), MAX_DEPTH)
    ensures BlocksUnnested(Translation(doc)) ==> BlocksUnnested(LinkedBlocks(Translation(doc), finders))
  {
    LinkingKeepsOutline(Translation(doc), finders);
    TranslationIsSound(doc);
    LinkedBlocksAreKept(Translation(doc), finders, MAX_DEPTH);
  }

  /**
   From the parser's events to the tree that shows, under the hypothesis: the builder's finished blocks have
   all the reply's words in order, and linked they keep their outline, the depth caps and followed links.
   */
  lemma ShownReply(doc: seq<FlowNode>, finders: Finders)
    requires NoDeepSpans(FlowsEvents(doc), 0, 0) && finders.Partition()
    ensures var end := Run(START, FlowsEvents(doc));
            && Rooted(end.stack)
            && BlocksWords(Finished(end.stack)) == FlowsWords(doc)
            && Outline(LinkedBlocks(Finished(end.stack), finders)) == Outline(Finished(end.stack))
            && SoundBlocks(LinkedBlocks(Finished(end.stack), finders), MAX_DEPTH)
  {
    hide Run;
    hide Finished;
    hide Rooted;
    hide NoDeepSpans;
    hide Outline;
    hide SoundBlocks;
    BuilderTranslatesUnderHypothesis(doc);
    TranslationLosesNoWords(doc);
    ParsedReply(doc, finders);
  }

  // ----- The loops -----

  method PushTextOnto(before: seq<Inline>, beyond: AgentRefs.Beyond, text: string) returns (out: seq<Inline>)
    ensures out == PushText(before, beyond, text)
  {
    out := before;
    var segments := AgentRefs.FindRefs(beyond, text);
    for i := 0 to |segments|
      invariant out == PushSegments(before, segments[..i])
    {
      assert segments[..i + 1][..i] == segments[..i];
      out := PushInline(out, SegmentInline(segments[i]));
    }
    assert segments[..|segments|] == segments;
  }

  method PushGapsOnto(before: seq<Inline>, beyond: AgentRefs.Beyond, gaps: seq<Found>) returns (out: seq<Inline>)
    ensures out == PushGaps(before, beyond, gaps)
  {
    out := before;
    for i := 0 to |gaps|
      invariant out == PushGaps(before, beyond, gaps[..i])
    {
      assert gaps[..i + 1][..i] == gaps[..i];
      if IsWww(gaps[i]) {
        out := PushLink(out, "https://" + gaps[i].words, gaps[i].words);
      } else {
        out := PushTextOnto(out, beyond, gaps[i].words);
      }
    }
    assert gaps[..|gaps|] == gaps;
  }

  /** `split_links`: every span becomes a link or goes on as text. */
  method SplitLinksOnto(before: seq<Inline>, finders: Finders, text: string) returns (out: seq<Inline>)
    ensures out == SplitLinks(before, finders, text)
  {
    out := before;
    var spans := finders.links(text);
    for i := 0 to |spans|
      invariant out == PushSpans(before, finders, spans[..i])
    {
      assert spans[..i + 1][..i] == spans[..i];
      var span := spans[i];
      match SpanUrl(span) {
        case Some(url) => out := PushLink(out, url, span.words);
        case None =>
          if span.kind.Some? {
            out := PushTextOnto(out, finders.beyond, span.words);
          } else {
            out := PushGapsOnto(out, finders.beyond, finders.www(span.words));
          }
      }
    }
    assert spans[..|spans|] == spans;
  }

  method AutolinkInlines(inlines: seq<Inline>, finders: Finders, depth: nat) returns (out: seq<Inline>)
    ensures out == Linked(inlines, finders, depth)
    decreases inlines
  {
    out := [];
    for i := 0 to |inlines|
      invariant out == Linked(inlines[..i], finders, depth)
    {
      assert inlines[..i + 1][..i] == inlines[..i];
      match inlines[i] {
        case Text(t) =>
          if depth < MAX_DEPTH {
            out := SplitLinksOnto(out, finders, t);
          } else {
            out := out + [inlines[i]];
          }
        case Styled(style, content) =>
          var linked := AutolinkInlines(content, finders, depth + 1);
          out := out + [Styled(style, linked)];
        case _ => out := out + [inlines[i]];
      }
    }
    assert inlines[..|inlines|] == inlines;
  }

  method AutolinkCells(cells: seq<seq<Inline>>, finders: Finders) returns (out: seq<seq<Inline>>)
    ensures out == LinkedCells(cells, finders)
  {
    out := cells;
    for i := 0 to |cells|
      invariant |out| == |cells|
                && forall k | 0 <= k < |cells| :: out[k] == if k < i then Linked(cells[k], finders, 0) else cells[k]
    {
      var linked := AutolinkInlines(out[i], finders, 0);
      out := out[i := linked];
    }
  }

  /** `autolink_blocks`: each block's lists of inlines are rewritten where they stand. */
  method AutolinkBlocks(blocks: seq<Block>, finders: Finders) returns (out: seq<Block>)
    ensures out == LinkedBlocks(blocks, finders)
    decreases blocks, 1
  {
    out := blocks;
    for i := 0 to |blocks|
      invariant |out| == |blocks|
                && forall k | 0 <= k < |blocks| ::
                     out[k] == if k < i then LinkedBlock(blocks[k], finders) else blocks[k]
    {
      var linked := AutolinkBlock(blocks[i], finders);
      out := out[i := linked];
    }
  }

  method AutolinkBlock(block: Block, finders: Finders) returns (out: Block)
    ensures out == LinkedBlock(block, finders)
    decreases block, 0
  {
    out := block;
    match block
    case ParagraphBlock(content) =>
      var linked := AutolinkInlines(content, finders, 0);
      out := ParagraphBlock(linked);
    case PlainBlock(content) =>
      var linked := AutolinkInlines(content, finders, 0);
      out := PlainBlock(linked);
    case HeadingBlock(level, content) =>
      var linked := AutolinkInlines(content, finders, 0);
      out := HeadingBlock(level, linked);
    case QuoteBlock(inner) =>
      var linked := AutolinkBlocks(inner, finders);
      out := QuoteBlock(linked);
    case ListBlock(start, items) =>
      var linked := items;
      for i := 0 to |items|
        invariant |linked| == |items|
        invariant forall k | 0 <= k < i ::
                    linked[k] == ListItem(items[k].task, LinkedBlocks(items[k].blocks, finders))
        invariant forall k | i <= k < |items| :: linked[k] == items[k]
      {
        var blocks := AutolinkBlocks(items[i].blocks, finders);
        linked := linked[i := ListItem(items[i].task, blocks)];
      }
      out := ListBlock(start, linked);
    case TableBlock(head, rows) =>
      var linkedHead := AutolinkCells(head, finders);
      var linked := rows;
      for i := 0 to |rows|
        invariant |linked| == |rows|
                  && forall k | 0 <= k < |rows| :: linked[k] == if k < i then LinkedCells(rows[k], finders) else rows[k]
      {
        var cells := AutolinkCells(rows[i], finders);
        linked := linked[i := cells];
      }
      out := TableBlock(linkedHead, linked);
    case CodeBlock(_, _) =>
    case RuleBlock =>
    case HtmlBlock(_) =>
  }
}

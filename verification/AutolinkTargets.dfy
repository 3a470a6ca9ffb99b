/** Which links and references linking a reply adds (`autolink` in `src/markdown.rs`), and that it adds no others. */
module AutolinkTargets {
  import opened Sequences
  import opened Strings
  import opened Wrappers
  import AgentRefs
  import opened Markdown
  import opened MarkdownLinks
  import opened Autolink

  // ----- What a text's spans become -----

  /** A `www.` address a finder took for a link, that shows in order, goes to it over `https`. */
  function GapTargets(gap: Found, beyond: AgentRefs.Beyond): seq<Target> {
    if gap.kind.Some? && |gap.words| >= 4 && ToLower(gap.words[..4]) == "www." && ShowsInOrder(gap.words) then
      [LinkTo("https://" + gap.words, gap.words)]
    else RefTargets(AgentRefs.Find(beyond, gap.words))
  }

  function GapsTargets(gaps: seq<Found>, beyond: AgentRefs.Beyond): seq<Target> {
    if gaps == [] then [] else GapsTargets(gaps[..|gaps| - 1], beyond) + GapTargets(gaps[|gaps| - 1], beyond)
  }

  function RefTargets(segments: seq<AgentRefs.Segment>): seq<Target> {
    if segments == [] then []
    else
      RefTargets(segments[..|segments| - 1])
      + match segments[|segments| - 1]
        case Text(_) => []
        case Conversation(words, id) => [RefTo(id, words)]
  }

  /**
   A found web address that shows in order goes to itself, and a found plain email address to its `mailto:`. A span
   no finder took is searched for `www.` addresses, and what is left of it for references.
   */
  function SpanTargets(finders: Finders, span: Found): seq<Target> {
    match span.kind
    case Some(UrlKind) =>
      if HasScheme(span.words, {"http", "https"}) && ShowsInOrder(span.words) then [LinkTo(span.words, span.words)]
      else RefTargets(AgentRefs.Find(finders.beyond, span.words))
    case Some(EmailKind) =>
      if IsPlainAddress(span.words) then [LinkTo("mailto:" + span.words, span.words)]
      else RefTargets(AgentRefs.Find(finders.beyond, span.words))
    case None => GapsTargets(finders.www(span.words), finders.beyond)
  }

  function SpansTargets(finders: Finders, spans: seq<Found>): seq<Target> {
    if spans == [] then []
    else SpansTargets(finders, spans[..|spans| - 1]) + SpanTargets(finders, spans[|spans| - 1])
  }

  /** Text within 16 spans has the links and references in it; a link's words, an image and code keep what they have. */
  function LinkedTargets(inlines: seq<Inline>, finders: Finders, depth: nat): seq<Target>
    decreases inlines, 1
  {
    if inlines == [] then []
    else
      LinkedTargets(inlines[..|inlines| - 1], finders, depth)
      + LinkedInlineTargets(inlines[|inlines| - 1], finders, depth)
  }

  function LinkedInlineTargets(inline: Inline, finders: Finders, depth: nat): seq<Target>
    decreases inline, 0
  {
    match inline
    case Text(t) => if depth < 16 then SpansTargets(finders, finders.links(t)) else []
    case Styled(_, content) => LinkedTargets(content, finders, depth + 1)
    case _ => InlineTargets(inline)
  }

  function LinkedCellsTargets(cells: seq<seq<Inline>>, finders: Finders): seq<Target> {
    if cells == [] then [] else LinkedTargets(cells[0], finders, 0) + LinkedCellsTargets(cells[1..], finders)
  }

  function LinkedRowsTargets(rows: seq<seq<seq<Inline>>>, finders: Finders): seq<Target> {
    if rows == [] then [] else LinkedCellsTargets(rows[0], finders) + LinkedRowsTargets(rows[1..], finders)
  }

  function LinkedBlockTargets(block: Block, finders: Finders): seq<Target>
    decreases block, 0
  {
    match block
    case ParagraphBlock(content) => LinkedTargets(content, finders, 0)
    case PlainBlock(content) => LinkedTargets(content, finders, 0)
    case HeadingBlock(_, content) => LinkedTargets(content, finders, 0)
    case QuoteBlock(inner) => LinkedBlocksTargets(inner, finders)
    case ListBlock(_, items) => LinkedItemsTargets(items, finders)
    case TableBlock(head, rows) => LinkedCellsTargets(head, finders) + LinkedRowsTargets(rows, finders)
    case _ => []
  }

  function LinkedBlocksTargets(blocks: seq<Block>, finders: Finders): seq<Target>
    decreases blocks, 1
  {
    if blocks == [] then [] else LinkedBlockTargets(blocks[0], finders) + LinkedBlocksTargets(blocks[1..], finders)
  }

  function LinkedItemsTargets(items: seq<ListItem>, finders: Finders): seq<Target>
    decreases items, 1
  {
    if items == [] then []
    else LinkedBlocksTargets(items[0].blocks, finders) + LinkedItemsTargets(items[1..], finders)
  }

  // ----- Inlines -----

  lemma LinkAdds(out: seq<Inline>, url: string, words: string)
    ensures Targets(PushLink(out, url, words)) == Targets(out) + [LinkTo(url, words)]
  {
    var content := [Markdown.Text(words)];
    TargetsSnoc(out, Link(url, content));
    OneTextTargets(words);
  }

  lemma OneTextTargets(words: string)
    ensures Targets([Markdown.Text(words)]) == [] && PlainTexts([Markdown.Text(words)]) == words
  {
    assert [Markdown.Text(words)][..0] == [];
  }

  lemma {:induction false} SegmentsAdd(out: seq<Inline>, segments: seq<AgentRefs.Segment>)
    ensures Targets(PushSegments(out, segments)) == Targets(out) + RefTargets(segments)
  {
    hide Targets;
    hide PushInline;
    if segments == [] {
      assert Targets(out) + [] == Targets(out);
    } else {
      var front, last := segments[..|segments| - 1], segments[|segments| - 1];
      SegmentsAdd(out, front);
      TargetsPush(PushSegments(out, front), SegmentInline(last));
      Assoc(Targets(out), RefTargets(front), InlineTargets(SegmentInline(last)));
    }
  }

  lemma GapAdds(out: seq<Inline>, beyond: AgentRefs.Beyond, gap: Found)
    ensures Targets(PushGap(out, beyond, gap)) == Targets(out) + GapTargets(gap, beyond)
  {
    hide Targets;
    hide PushLink;
    hide PushSegments;
    hide RefTargets;
    hide ShowsInOrder;
    hide HasBidiControl;
    BidiIsReordering(gap.words);
    assert ToLower("www.") == "www.";
    LinkAdds(out, "https://" + gap.words, gap.words);
    SegmentsAdd(out, AgentRefs.Find(beyond, gap.words));
  }

  lemma {:induction false} GapsAdd(out: seq<Inline>, beyond: AgentRefs.Beyond, gaps: seq<Found>)
    ensures Targets(PushGaps(out, beyond, gaps)) == Targets(out) + GapsTargets(gaps, beyond)
  {
    hide Targets;
    hide PushGap;
    hide GapTargets;
    if gaps == [] {
      assert Targets(out) + [] == Targets(out);
    } else {
      var front, last := gaps[..|gaps| - 1], gaps[|gaps| - 1];
      GapsAdd(out, beyond, front);
      GapAdds(PushGaps(out, beyond, front), beyond, last);
      Assoc(Targets(out), GapsTargets(front, beyond), GapTargets(last, beyond));
    }
  }

  lemma SpanAdds(out: seq<Inline>, finders: Finders, span: Found)
    ensures Targets(PushSpan(out, finders, span)) == Targets(out) + SpanTargets(finders, span)
  {
    hide Targets;
    hide PushLink;
    hide PushSegments;
    hide PushGaps;
    hide RefTargets;
    hide GapsTargets;
    hide AllowedUrl;
    hide HasScheme;
    hide Mailto;
    hide IsPlainAddress;
    hide ShowsInOrder;
    hide HasBidiControl;
    LinkSchemes();
    BidiIsReordering(span.words);
    MailtoIs(span.words);
    LinkAdds(out, span.words, span.words);
    LinkAdds(out, "mailto:" + span.words, span.words);
    SegmentsAdd(out, AgentRefs.Find(finders.beyond, span.words));
    GapsAdd(out, finders.beyond, finders.www(span.words));
  }

  lemma {:induction false} SpansAdd(out: seq<Inline>, finders: Finders, spans: seq<Found>)
    ensures Targets(PushSpans(out, finders, spans)) == Targets(out) + SpansTargets(finders, spans)
  {
    hide Targets;
    hide PushSpan;
    hide SpanTargets;
    if spans == [] {
      assert Targets(out) + [] == Targets(out);
    } else {
      var front, last := spans[..|spans| - 1], spans[|spans| - 1];
      SpansAdd(out, finders, front);
      SpanAdds(PushSpans(out, finders, front), finders, last);
      Assoc(Targets(out), SpansTargets(finders, front), SpanTargets(finders, last));
    }
  }

  lemma {:induction false} LinkingAdds(inlines: seq<Inline>, finders: Finders, depth: nat)
    ensures Targets(Linked(inlines, finders, depth)) == LinkedTargets(inlines, finders, depth)
    decreases inlines, 1
  {
    hide AddLinked;
    hide LinkedInlineTargets;
    if inlines != [] {
      hide Targets;
      LinkingAdds(inlines[..|inlines| - 1], finders, depth);
      AddLinkedAdds(Linked(inlines[..|inlines| - 1], finders, depth), inlines[|inlines| - 1], finders, depth);
    }
  }

  lemma {:induction false} AddLinkedAdds(out: seq<Inline>, inline: Inline, finders: Finders, depth: nat)
    ensures Targets(AddLinked(out, inline, finders, depth))
            == Targets(out) + LinkedInlineTargets(inline, finders, depth)
    decreases inline, 0
  {
    hide Targets;
    hide PushSpans;
    hide SpansTargets;
    hide Linked;
    match inline
    case Text(t) =>
      SpansAdd(out, finders, finders.links(t));
      TargetsSnoc(out, inline);
      TextHasNone(t);
    case Styled(style, content) =>
      LinkingAdds(content, finders, depth + 1);
      TargetsSnoc(out, Styled(style, Linked(content, finders, depth + 1)));
    case _ => TargetsSnoc(out, inline);
  }

  // ----- Blocks -----

  lemma {:induction false} CellsAdd(cells: seq<seq<Inline>>, finders: Finders)
    ensures CellsTargets(LinkedCells(cells, finders)) == LinkedCellsTargets(cells, finders)
  {
    hide Linked;
    hide LinkedTargets;
    hide Targets;
    if cells != [] {
      LinkingAdds(cells[0], finders, 0);
      CellsAdd(cells[1..], finders);
      assert LinkedCells(cells, finders)[1..] == LinkedCells(cells[1..], finders);
    }
  }

  lemma {:induction false} RowsAdd(rows: seq<seq<seq<Inline>>>, finders: Finders)
    ensures var linked := seq(|rows|, i requires 0 <= i < |rows| => LinkedCells(rows[i], finders));
            RowsTargets(linked) == LinkedRowsTargets(rows, finders)
  {
    hide LinkedCells;
    hide CellsTargets;
    hide LinkedCellsTargets;
    if rows != [] {
      var linked := seq(|rows|, i requires 0 <= i < |rows| => LinkedCells(rows[i], finders));
      CellsAdd(rows[0], finders);
      RowsAdd(rows[1..], finders);
      var rest := rows[1..];
      assert linked[1..] == seq(|rest|, i requires 0 <= i < |rest| => LinkedCells(rest[i], finders));
    }
  }

  lemma {:induction false} BlocksAdd(blocks: seq<Block>, finders: Finders)
    ensures BlocksTargets(LinkedBlocks(blocks, finders)) == LinkedBlocksTargets(blocks, finders)
    decreases blocks, 1
  {
    hide LinkedBlock;
    hide BlockTargets;
    hide LinkedBlockTargets;
    if blocks != [] {
      BlockAdds(blocks[0], finders);
      BlocksAdd(blocks[1..], finders);
      assert LinkedBlocks(blocks, finders)[1..] == LinkedBlocks(blocks[1..], finders);
    }
  }

  lemma {:induction false} ItemsAdd(items: seq<ListItem>, finders: Finders)
    ensures ItemsTargets(LinkedItems(items, finders)) == LinkedItemsTargets(items, finders)
    decreases items, 1
  {
    hide LinkedBlocks;
    hide BlocksTargets;
    hide LinkedBlocksTargets;
    if items != [] {
      BlocksAdd(items[0].blocks, finders);
      ItemsAdd(items[1..], finders);
      assert LinkedItems(items, finders)[1..] == LinkedItems(items[1..], finders);
    }
  }

  lemma {:induction false} BlockAdds(block: Block, finders: Finders)
    ensures BlockTargets(LinkedBlock(block, finders)) == LinkedBlockTargets(block, finders)
    decreases block, 0
  {
    hide Linked;
    hide LinkedTargets;
    hide Targets;
    hide LinkedBlocks;
    hide LinkedItems;
    hide LinkedCells;
    hide BlocksTargets;
    hide ItemsTargets;
    hide CellsTargets;
    hide RowsTargets;
    match block
    case ParagraphBlock(content) => LinkingAdds(content, finders, 0);
    case PlainBlock(content) => LinkingAdds(content, finders, 0);
    case HeadingBlock(_, content) => LinkingAdds(content, finders, 0);
    case QuoteBlock(inner) => BlocksAdd(inner, finders);
    case ListBlock(_, items) => ItemsAdd(items, finders);
    case TableBlock(head, rows) =>
      CellsAdd(head, finders);
      RowsAdd(rows, finders);
    case _ =>
  }
}

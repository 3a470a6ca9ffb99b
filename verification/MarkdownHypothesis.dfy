/** A hypothesis on parser events, and what the builder does under it. */
module MarkdownHypothesis {
  import opened Wrappers
  import opened Markdown
  import opened MarkdownTranslation
  import opened MarkdownBlocks
  import opened MarkdownExact
  import opened MarkdownFrames

  /** No span opens past the cap inside an image, `spans` spans and `images` images being open. */
  predicate NoDeepSpans(es: seq<Event>, spans: nat, images: nat)
    decreases |es|
  {
    es == [] ||
    match es[0]
    case Start(tag) =>
      && (IsSpan(tag) && images > 0 ==> spans < MAX_DEPTH)
      && NoDeepSpans(es[1..], if IsSpan(tag) then spans + 1 else spans, if tag.ImageTag? then images + 1 else images)
    case End(tag) =>
      NoDeepSpans(es[1..], if IsSpan(tag) && spans > 0 then spans - 1 else spans,
                  if tag.ImageTag? && images > 0 then images - 1 else images)
    case _ => NoDeepSpans(es[1..], spans, images)
  }

  lemma IntoBracket(tag: Tag, inner: seq<Event>, rest: seq<Event>, spans: nat, images: nat)
    requires NoDeepSpans(Bracket(tag, inner) + rest, spans, images)
    ensures IsSpan(tag) && images > 0 ==> spans < MAX_DEPTH
    ensures NoDeepSpans(inner + ([End(tag)] + rest),
                        if IsSpan(tag) then spans + 1 else spans, if tag.ImageTag? then images + 1 else images)
  {
    assert (Bracket(tag, inner) + rest)[1..] == inner + ([End(tag)] + rest);
  }

  lemma OutOfBracket(tag: Tag, rest: seq<Event>, spans: nat, images: nat)
    requires NoDeepSpans([End(tag)] + rest,
                         if IsSpan(tag) then spans + 1 else spans, if tag.ImageTag? then images + 1 else images)
    ensures NoDeepSpans(rest, spans, images)
  {
    assert ([End(tag)] + rest)[1..] == rest;
  }

  lemma PastOne(e: Event, rest: seq<Event>, spans: nat, images: nat)
    requires !e.Start? && !e.End? && NoDeepSpans([e] + rest, spans, images)
    ensures NoDeepSpans(rest, spans, images)
  {
    assert ([e] + rest)[1..] == rest;
  }

  lemma {:induction false} InlinesAreSafe(nodes: seq<InlineNode>, rest: seq<Event>, spans: nat, images: nat)
    requires NoDeepSpans(InlinesEvents(nodes) + rest, spans, images)
    ensures NoDeepSpans(rest, spans, images) && Safe(nodes, spans)
    ensures images > 0 && spans >= MAX_DEPTH ==> Flat(nodes)
    decreases nodes, 1
  {
    hide NoDeepSpans;
    if nodes == [] {
      assert [] + rest == rest;
    } else {
      var first, others := InlineEvents(nodes[0]), InlinesEvents(nodes[1..]);
      assert first + others + rest == first + (others + rest);
      InlineIsSafe(nodes[0], others + rest, spans, images);
      InlinesAreSafe(nodes[1..], rest, spans, images);
    }
  }

  lemma {:induction false} InlineIsSafe(node: InlineNode, rest: seq<Event>, spans: nat, images: nat)
    requires NoDeepSpans(InlineEvents(node) + rest, spans, images)
    ensures NoDeepSpans(rest, spans, images) && SafeNode(node, spans)
    ensures images > 0 && spans >= MAX_DEPTH ==> FlatNode(node)
    decreases node, 0
  {
    hide NoDeepSpans;
    hide Bracket;
    match node
    case SpanNode(kind, kids) =>
      IntoBracket(SpanTag(kind), InlinesEvents(kids), rest, spans, images);
      InlinesAreSafe(kids, [End(SpanTag(kind))] + rest, spans + 1, images);
      OutOfBracket(SpanTag(kind), rest, spans, images);
    case ImageNode(dest, kids) =>
      IntoBracket(ImageTag(dest), InlinesEvents(kids), rest, spans, images);
      InlinesAreSafe(kids, [End(ImageTag(dest))] + rest, spans, images + 1);
      OutOfBracket(ImageTag(dest), rest, spans, images);
    case _ => PastOne(InlineEvents(node)[0], rest, spans, images);
  }

  lemma {:induction false} PastWords(texts: seq<string>, rest: seq<Event>)
    requires NoDeepSpans(WordsEvents(texts) + rest, 0, 0)
    ensures NoDeepSpans(rest, 0, 0)
  {
    hide NoDeepSpans;
    if texts == [] {
      assert [] + rest == rest;
    } else {
      var others := WordsEvents(texts[1..]) + rest;
      assert WordsEvents(texts) + rest == [Words(texts[0])] + others;
      PastOne(Words(texts[0]), others, 0, 0);
      PastWords(texts[1..], rest);
    }
  }

  lemma {:induction false} PastLines(lines: seq<string>, rest: seq<Event>)
    requires NoDeepSpans(HtmlEvents(lines) + rest, 0, 0)
    ensures NoDeepSpans(rest, 0, 0)
  {
    hide NoDeepSpans;
    if lines == [] {
      assert [] + rest == rest;
    } else {
      var others := HtmlEvents(lines[1..]) + rest;
      assert HtmlEvents(lines) + rest == [HtmlWords(lines[0])] + others;
      PastOne(HtmlWords(lines[0]), others, 0, 0);
      PastLines(lines[1..], rest);
    }
  }

  lemma LeafIsSafe(tag: Tag, content: seq<InlineNode>, rest: seq<Event>)
    requires !IsSpan(tag) && !tag.ImageTag? && NoDeepSpans(Bracket(tag, InlinesEvents(content)) + rest, 0, 0)
    ensures NoDeepSpans(rest, 0, 0) && Safe(content, 0)
  {
    hide NoDeepSpans;
    hide Bracket;
    IntoBracket(tag, InlinesEvents(content), rest, 0, 0);
    InlinesAreSafe(content, [End(tag)] + rest, 0, 0);
    OutOfBracket(tag, rest, 0, 0);
  }

  lemma {:induction false} CellsAreSafe(cells: seq<CellNode>, rest: seq<Event>)
    requires NoDeepSpans(CellsEvents(cells) + rest, 0, 0)
    ensures NoDeepSpans(rest, 0, 0) && SafeCells(cells)
  {
    hide NoDeepSpans;
    hide Bracket;
    if cells == [] {
      assert [] + rest == rest;
    } else {
      var first, others := Bracket(CellTag, InlinesEvents(cells[0].content)), CellsEvents(cells[1..]);
      assert first + others + rest == first + (others + rest);
      LeafIsSafe(CellTag, cells[0].content, others + rest);
      CellsAreSafe(cells[1..], rest);
    }
  }

  lemma RowIsSafe(tag: Tag, cells: seq<CellNode>, rest: seq<Event>)
    requires !IsSpan(tag) && !tag.ImageTag? && NoDeepSpans(Bracket(tag, CellsEvents(cells)) + rest, 0, 0)
    ensures NoDeepSpans(rest, 0, 0) && SafeCells(cells)
  {
    hide NoDeepSpans;
    hide Bracket;
    IntoBracket(tag, CellsEvents(cells), rest, 0, 0);
    CellsAreSafe(cells, [End(tag)] + rest);
    OutOfBracket(tag, rest, 0, 0);
  }

  lemma {:induction false} RowsAreSafe(rows: seq<RowNode>, rest: seq<Event>)
    requires NoDeepSpans(RowsEvents(rows) + rest, 0, 0)
    ensures NoDeepSpans(rest, 0, 0) && SafeRows(rows)
  {
    hide NoDeepSpans;
    hide Bracket;
    if rows == [] {
      assert [] + rest == rest;
    } else {
      var first, others := Bracket(RowTag, CellsEvents(rows[0].cells)), RowsEvents(rows[1..]);
      assert first + others + rest == first + (others + rest);
      RowIsSafe(RowTag, rows[0].cells, others + rest);
      RowsAreSafe(rows[1..], rest);
    }
  }

  lemma {:induction false} FlowsAreSafe(nodes: seq<FlowNode>, rest: seq<Event>)
    requires NoDeepSpans(FlowsEvents(nodes) + rest, 0, 0)
    ensures NoDeepSpans(rest, 0, 0) && SafeFlows(nodes)
    decreases nodes, 1
  {
    hide NoDeepSpans;
    if nodes == [] {
      assert [] + rest == rest;
    } else {
      var first, others := FlowEvents(nodes[0]), FlowsEvents(nodes[1..]);
      assert first + others + rest == first + (others + rest);
      FlowIsSafe(nodes[0], others + rest);
      FlowsAreSafe(nodes[1..], rest);
    }
  }

  lemma {:induction false} FlowIsSafe(node: FlowNode, rest: seq<Event>)
    requires NoDeepSpans(FlowEvents(node) + rest, 0, 0)
    ensures NoDeepSpans(rest, 0, 0) && SafeFlow(node)
    decreases node, 0
  {
    hide NoDeepSpans;
    hide Bracket;
    match node
    case InlineFlow(inline) => InlineIsSafe(inline, rest, 0, 0);
    case ParagraphNode(content) => LeafIsSafe(ParagraphTag, content, rest);
    case HeadingNode(level, content) => LeafIsSafe(HeadingTag(level), content, rest);
    case QuoteNode(kids) =>
      IntoBracket(QuoteTag, FlowsEvents(kids), rest, 0, 0);
      FlowsAreSafe(kids, [End(QuoteTag)] + rest);
      OutOfBracket(QuoteTag, rest, 0, 0);
    case CodeBlockNode(fence, texts) =>
      IntoBracket(CodeTag(fence), WordsEvents(texts), rest, 0, 0);
      PastWords(texts, [End(CodeTag(fence))] + rest);
      OutOfBracket(CodeTag(fence), rest, 0, 0);
    case HtmlNode(lines) =>
      IntoBracket(HtmlTag, HtmlEvents(lines), rest, 0, 0);
      PastLines(lines, [End(HtmlTag)] + rest);
      OutOfBracket(HtmlTag, rest, 0, 0);
    case ListNode(start, items) =>
      IntoBracket(ListTag(start), ItemsEvents(items), rest, 0, 0);
      ItemsAreSafe(items, [End(ListTag(start))] + rest);
      OutOfBracket(ListTag(start), rest, 0, 0);
    case TableNode(head, rows) =>
      var first, others := Bracket(HeadTag, CellsEvents(head.cells)), [End(TableTag)] + rest;
      IntoBracket(TableTag, first + RowsEvents(rows), rest, 0, 0);
      assert first + RowsEvents(rows) + others == first + (RowsEvents(rows) + others);
      RowIsSafe(HeadTag, head.cells, RowsEvents(rows) + others);
      RowsAreSafe(rows, others);
      OutOfBracket(TableTag, rest, 0, 0);
    case RuleNode => PastOne(RuleEvent, rest, 0, 0);
  }

  lemma {:induction false} ItemsAreSafe(items: seq<ItemNode>, rest: seq<Event>)
    requires NoDeepSpans(ItemsEvents(items) + rest, 0, 0)
    ensures NoDeepSpans(rest, 0, 0) && SafeItems(items)
    decreases items, 1
  {
    hide NoDeepSpans;
    hide Bracket;
    if items == [] {
      assert [] + rest == rest;
    } else {
      var kids := items[0].kids;
      var first, others := Bracket(ItemTag, FlowsEvents(kids)), ItemsEvents(items[1..]) + rest;
      assert first + ItemsEvents(items[1..]) + rest == first + others;
      IntoBracket(ItemTag, FlowsEvents(kids), others, 0, 0);
      FlowsAreSafe(kids, [End(ItemTag)] + others);
      OutOfBracket(ItemTag, others, 0, 0);
      ItemsAreSafe(items[1..], rest);
    }
  }

  /**
   Under the hypothesis every end tag pops what its own start tag opened, and finishing gives the reply's translation.
   */
  lemma BuilderTranslatesUnderHypothesis(doc: seq<FlowNode>)
    requires NoDeepSpans(FlowsEvents(doc), 0, 0)
    ensures var es := FlowsEvents(doc);
            && (forall n | 0 <= n < |es| && es[n].End? :: PopsWhatItsStartOpened(es, n))
            && Rooted(Run(START, es).stack)
            && Finished(Run(START, es).stack) == Translation(doc)
  {
    hide NoDeepSpans;
    hide PopsWhatItsStartOpened;
    hide SafeFlows;
    hide FlowsEvents;
    hide Run;
    assert FlowsEvents(doc) + [] == FlowsEvents(doc);
    FlowsAreSafe(doc, []);
    EndsPopWhatTheirStartsOpened(doc);
    BuilderTranslates(doc);
  }
}

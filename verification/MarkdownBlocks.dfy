/**
 The block half of the builder's correctness: what every block's events leave on the stack, and the
 theorem for whole replies.
 */
module MarkdownBlocks {
  import opened Wrappers
  import opened Markdown
  import opened MarkdownTranslation
  import opened MarkdownProof

  // ----- Where blocks go -----

  predicate HoldsFlow(base: Stack) {
    base != [] && Top(base).HoldsBlocks()
  }

  function BlocksOf(base: Stack): seq<Block>
    requires HoldsFlow(base)
  {
    Top(base).blocks
  }

  /** `base` with its innermost container's blocks replaced. */
  function Grown(base: Stack, blocks: seq<Block>): (after: Stack)
    requires HoldsFlow(base)
    ensures HoldsFlow(after) && BlocksOf(after) == blocks && |after| == |base|
  {
    Below(base) + [Top(base).(blocks := blocks)]
  }

  lemma GrownTwice(base: Stack, a: seq<Block>, b: seq<Block>)
    requires HoldsFlow(base)
    ensures Grown(Grown(base, a), b) == Grown(base, b)
    ensures Grown(base, BlocksOf(base)) == base
  {
    assert Below(Grown(base, a)) == Below(base);
    assert Below(base) + [Top(base)] == base;
  }

  lemma MarkedGrown(base: Stack, blocks: seq<Block>, mark: Option<bool>)
    requires HoldsFlow(base)
    ensures HoldsFlow(Marked(base, mark)) && BlocksOf(Marked(base, mark)) == BlocksOf(base)
    ensures Marked(Grown(base, blocks), mark) == Grown(Marked(base, mark), blocks)
  {
    assert Below(Grown(base, blocks)) == Below(base);
  }

  /** What stands above a container of blocks: flattened containers, and loose inlines in a `Plain`. */
  function FlowStack(base: Stack, k: nat, loose: seq<Inline>): Stack {
    base + Clear(true, k) + (if loose == [] then [] else [OpenPlain(loose)])
  }

  lemma FlowStackTop(base: Stack, k: nat, loose: seq<Inline>)
    ensures FlowStack(base, 0, []) == base
    ensures FlowStack(base, k + 1, []) == FlowStack(base, k, []) + [Transparent(true)]
    ensures loose != [] ==> FlowStack(base, k, loose) == FlowStack(base, k, []) + [OpenPlain(loose)]
  {
  }

  lemma {:induction false} AddBlockToFlow(base: Stack, k: nat, block: Block)
    requires HoldsFlow(base)
    ensures AddBlock(FlowStack(base, k, []), block) == FlowStack(Grown(base, BlocksOf(base) + [block]), k, [])
    decreases k
  {
    var grown := Grown(base, BlocksOf(base) + [block]);
    if k == 0 {
      FlowStackTop(base, 0, []);
      FlowStackTop(grown, 0, []);
    } else {
      FlowStackTop(base, k - 1, []);
      FlowStackTop(grown, k - 1, []);
      AddBlockToFlow(base, k - 1, block);
      assert Below(FlowStack(base, k, [])) == FlowStack(base, k - 1, []);
    }
  }

  lemma FlowTop(base: Stack, k: nat)
    requires HoldsFlow(base)
    ensures FlowStack(base, k, []) != []
    ensures Top(FlowStack(base, k, [])) == if k == 0 then Top(base) else Transparent(true)
  {
    if k == 0 {
      FlowStackTop(base, 0, []);
    } else {
      FlowStackTop(base, k - 1, []);
    }
  }

  lemma CloseLoose(base: Stack, k: nat, loose: seq<Inline>)
    requires HoldsFlow(base)
    ensures ClosePlain(FlowStack(base, k, loose))
            == FlowStack(Grown(base, Flow(BlocksOf(base), loose).Flushed()), k, [])
  {
    FlowTop(base, k);
    if loose == [] {
      GrownTwice(base, [], []);
    } else {
      FlowStackTop(base, k, loose);
      assert Below(FlowStack(base, k, loose)) == FlowStack(base, k, []);
      AddBlockToFlow(base, k, PlainBlock(loose));
    }
  }

  lemma {:induction false} MarkedFlow(base: Stack, k: nat, mark: Option<bool>)
    ensures Marked(FlowStack(base, k, []), mark) == FlowStack(Marked(base, mark), k, [])
    decreases k
  {
    if k == 0 {
      FlowStackTop(base, 0, []);
      FlowStackTop(Marked(base, mark), 0, []);
    } else {
      FlowStackTop(base, k - 1, []);
      FlowStackTop(Marked(base, mark), k - 1, []);
      MarkedFlow(base, k - 1, mark);
      MarkedUnder(FlowStack(base, k - 1, []), Transparent(true), mark);
    }
  }

  // ----- Inlines straight in a container of blocks -----

  lemma PutInEmptyFlow(base: Stack, k: nat, x: Inline)
    requires HoldsFlow(base)
    ensures PutInline(FlowStack(base, k, []), x) == FlowStack(base, k, [x])
    ensures x.Text? ==> PutText(FlowStack(base, k, []), x.text) == FlowStack(base, k, [x])
  {
    hide FlowStack;
    hide HoldsFlow;
    FlowTop(base, k);
    FlowStackTop(base, k, [x]);
    HolderlessTop(base, k);
    assert PushInline([], x) == [x];
  }

  lemma HolderlessTop(base: Stack, k: nat)
    requires HoldsFlow(base)
    ensures NeedsPlain(FlowStack(base, k, [])) && !Top(FlowStack(base, k, [])).OpenImage?
    ensures !Top(FlowStack(base, k, [])).OpenCode? && !Top(FlowStack(base, k, [])).OpenHtml?
  {
    hide FlowStack;
    FlowTop(base, k);
  }

  lemma {:induction false} PutsInEmptyFlow(base: Stack, k: nat, xs: seq<Inline>)
    requires HoldsFlow(base)
    ensures PutInlines(FlowStack(base, k, []), xs) == FlowStack(base, k, PushAll([], xs))
    ensures xs != [] ==> PushAll([], xs) != []
    decreases |xs|
  {
    if xs != [] {
      var before, last := xs[..|xs| - 1], xs[|xs| - 1];
      PutsInEmptyFlow(base, k, before);
      if before == [] {
        PutInEmptyFlow(base, k, last);
      } else {
        PutInLoose(base, k, PushAll([], before), last);
      }
    }
  }

  lemma PutInLoose(base: Stack, k: nat, loose: seq<Inline>, x: Inline)
    requires loose != []
    ensures PutInline(FlowStack(base, k, loose), x) == FlowStack(base, k, PushInline(loose, x))
  {
    FlowStackTop(base, k, loose);
    FlowStackTop(base, k, PushInline(loose, x));
    HolderTop(FlowStack(base, k, []), OpenPlain(loose), 0);
    HolderTop(FlowStack(base, k, []), OpenPlain(PushInline(loose, x)), 0);
    HolderPut(FlowStack(base, k, []), OpenPlain(loose), 0, x);
  }

  /** A closed span or image put where no inline is loose yet. */
  lemma CloseSpanInFlow(base: Stack, k: nat, kind: SpanKind, kids: seq<InlineNode>)
    requires HoldsFlow(base)
    ensures Close(FlowStack(base, k, []), WithContent(OpenedSpan(kind), AddNodes([], kids, 1)))
         == FlowStack(base, k, AddNode([], SpanNode(kind, kids), 0))
  {
    hide PushInline;
    hide AddNodes;
    hide Close;
    hide FlowStack;
    hide PutInline;
    hide PutInlines;
    var content := AddNodes([], kids, 1);
    CloseSpan(FlowStack(base, k, []), kind, content);
    if Shown(kind, content).Some? {
      ShownSpan([], kind, kids, 0);
      PutInEmptyFlow(base, k, Shown(kind, content).value);
      assert PushInline([], Shown(kind, content).value) == [Shown(kind, content).value];
    } else {
      PutsInEmptyFlow(base, k, content);
      RefusedContent([], kids, 1);
    }
  }

  lemma CloseImageInFlow(base: Stack, k: nat, dest: string, kids: seq<InlineNode>)
    requires HoldsFlow(base)
    ensures Close(FlowStack(base, k, []), OpenImage(ImageUrl(dest), NodesWords(kids)))
         == FlowStack(base, k, AddNode([], ImageNode(dest, kids), 0))
  {
    hide Close;
    hide FlowStack;
    hide PutInline;
    hide PutText;
    CloseImage(FlowStack(base, k, []), dest, NodesWords(kids));
    LeafPushed([], ImageNode(dest, kids), 0);
    PutInEmptyFlow(base, k, LeafInline(ImageNode(dest, kids)));
    assert PushInline([], LeafInline(ImageNode(dest, kids))) == [LeafInline(ImageNode(dest, kids))];
  }

  lemma SpanInEmptyFlow(base: Stack, k: nat, kind: SpanKind, kids: seq<InlineNode>, depth: nat)
    requires HoldsFlow(base) && Safe(kids, 1)
    ensures Run(State(FlowStack(base, k, []), depth, 0), InlineEvents(SpanNode(kind, kids)))
         == State(FlowStack(Marked(base, NodesMark(kids)), k, AddNode([], SpanNode(kind, kids), 0)), depth, 0)
  {
    hide Run;
    hide StartStep;
    hide EndStep;
    hide Close;
    hide Marked;
    hide Bracket;
    hide FlowStack;
    hide Holder;
    var outer, mark, span := FlowStack(base, k, []), NodesMark(kids), OpenedSpan(kind);
    FlowTop(base, k);
    RunBracket(State(outer, depth, 0), SpanTag(kind), InlinesEvents(kids));
    StartSpan(outer, kind, depth, 0);
    HolderTop(outer, span, 0);
    NodesInHolder(outer, span, 0, kids, depth, 1);
    var closed := WithContent(span, AddNodes([], kids, 1));
    HolderTop(Marked(outer, mark), closed, 0);
    EndSpan(Marked(outer, mark), closed, kind, depth, 0);
    MarkedFlow(base, k, mark);
    MarkedGrown(base, [], mark);
    CloseSpanInFlow(Marked(base, mark), k, kind, kids);
  }

  lemma ImageInEmptyFlow(base: Stack, k: nat, dest: string, kids: seq<InlineNode>, depth: nat)
    requires HoldsFlow(base) && Safe(kids, 0)
    ensures Run(State(FlowStack(base, k, []), depth, 0), InlineEvents(ImageNode(dest, kids)))
         == State(FlowStack(Marked(base, NodesMark(kids)), k, AddNode([], ImageNode(dest, kids), 0)), depth, 0)
  {
    hide Run;
    hide StartStep;
    hide EndStep;
    hide Close;
    hide Marked;
    hide Bracket;
    hide FlowStack;
    hide Holder;
    var outer, mark := FlowStack(base, k, []), NodesMark(kids);
    FlowTop(base, k);
    RunBracket(State(outer, depth, 0), ImageTag(dest), InlinesEvents(kids));
    StartImage(outer, dest, depth, 0);
    NodesInImage(outer, ImageUrl(dest), "", kids, depth, 0);
    assert "" + NodesWords(kids) == NodesWords(kids);
    EndImage(Marked(outer, mark), OpenImage(ImageUrl(dest), NodesWords(kids)), dest, depth, 0);
    MarkedFlow(base, k, mark);
    MarkedGrown(base, [], mark);
    CloseImageInFlow(Marked(base, mark), k, dest, kids);
  }

  lemma LeafInEmptyFlow(base: Stack, k: nat, node: InlineNode, depth: nat)
    requires HoldsFlow(base) && !node.SpanNode? && !node.ImageNode?
    ensures Run(State(FlowStack(base, k, []), depth, 0), InlineEvents(node))
         == State(FlowStack(Marked(base, NodeMark(node)), k, AddNode([], node, 0)), depth, 0)
  {
    hide Run;
    hide FlowStack;
    hide SetTask;
    hide PutInline;
    hide PutText;
    assert !node.TaskNode? ==> AddNode([], node, 0) == [LeafInline(node)] by {
      hide LeafInline;
      if !node.TaskNode? { LeafPushed([], node, 0); }
    }
    RunOne(State(FlowStack(base, k, []), depth, 0), InlineEvents(node)[0]);
    match node
    case TextNode(t, _) => PutInEmptyFlow(base, k, Text(t));
    case CodeNode(t) => PutInEmptyFlow(base, k, CodeSpan(t));
    case SoftNode => PutInEmptyFlow(base, k, SoftBreak);
    case HardNode => PutInEmptyFlow(base, k, HardBreak);
    case TaskNode(checked) => MarkedFlow(base, k, Some(checked));
  }

  /** An inline in a container of blocks joins the loose inlines there. */
  lemma InlineInFlow(base: Stack, k: nat, loose: seq<Inline>, node: InlineNode, depth: nat)
    requires HoldsFlow(base) && SafeNode(node, 0)
    ensures Run(State(FlowStack(base, k, loose), depth, 0), InlineEvents(node))
         == State(FlowStack(Marked(base, NodeMark(node)), k, AddNode(loose, node, 0)), depth, 0)
  {
    if loose != [] {
      var outer, after := FlowStack(base, k, []), AddNode(loose, node, 0);
      FlowStackTop(base, k, loose);
      HolderTop(outer, OpenPlain(loose), 0);
      NodeInHolder(outer, OpenPlain(loose), 0, node, depth, 0);
      MarkedFlow(base, k, NodeMark(node));
      HolderTop(Marked(outer, NodeMark(node)), OpenPlain(after), 0);
      FlowStackTop(Marked(base, NodeMark(node)), k, after);
      AddNodesGrows(loose, [node], 0);
      assert [node][1..] == [];
      assert AddNodes(loose, [node], 0) == after;
    } else {
      match node
      case SpanNode(kind, kids) => SpanInEmptyFlow(base, k, kind, kids, depth);
      case ImageNode(dest, kids) => ImageInEmptyFlow(base, k, dest, kids, depth);
      case _ => LeafInEmptyFlow(base, k, node, depth);
    }
  }

  // ----- Blocks -----

  /** The stack once a block's start tag has closed a trailing `Plain`. */
  function Flushed(base: Stack, k: nat, loose: seq<Inline>): (stack: Stack)
    requires HoldsFlow(base)
  {
    FlowStack(Grown(base, Flow(BlocksOf(base), loose).Flushed()), k, [])
  }

  /** What a block leaves: its translation in the container of blocks, its marks below. */
  function After(base: Stack, k: nat, flow: Flow, mark: Option<bool>, depth: nat): (s: State)
    requires HoldsFlow(base)
    ensures s.depth == depth && s.inlineDepth == 0
  {
    MarkedGrown(base, flow.blocks, mark);
    State(FlowStack(Marked(Grown(base, flow.blocks), mark), k, flow.loose), depth, 0)
  }

  lemma StartBlock(base: Stack, k: nat, loose: seq<Inline>, tag: Tag, c: Container, depth: nat)
    requires HoldsFlow(base) && !IsNesting(tag) && !IsSpan(tag) && !tag.ItemTag?
    requires c == Opened([], tag, depth, 0) && IsBlock(c)
    ensures StartStep(State(FlowStack(base, k, loose), depth, 0), tag) == State(Flushed(base, k, loose) + [c], depth, 0)
  {
    CloseLoose(base, k, loose);
  }

  lemma EndBlock(stack: Stack, c: Container, tag: Tag, depth: nat)
    requires stack != [] && !IsNesting(tag) && !IsSpan(tag) && !tag.ItemTag?
    ensures EndStep(State(stack + [c], depth, 0), tag) == State(Close(stack, c), depth, 0)
  {
    assert Below(stack + [c]) == stack;
  }

  /** A block closed into the container of blocks. */
  lemma BlockAdded(base: Stack, k: nat, loose: seq<Inline>, block: Block, mark: Option<bool>, depth: nat)
    requires HoldsFlow(base)
    ensures Flushed(base, k, loose) != []
    ensures State(AddBlock(Marked(Flushed(base, k, loose), mark), block), depth, 0)
         == After(base, k, Flow(BlocksOf(base), loose).With(block), mark, depth)
  {
    var blocks := Flow(BlocksOf(base), loose).Flushed();
    var grown := Grown(base, blocks);
    FlowTop(grown, k);
    MarkedFlow(grown, k, mark);
    MarkedGrown(grown, blocks + [block], mark);
    AddBlockToFlow(Marked(grown, mark), k, block);
    GrownTwice(base, blocks, blocks + [block]);
  }

  /** A paragraph or a heading. */
  function LeafOf(tag: Tag, content: seq<Inline>): Block
    requires tag.ParagraphTag? || tag.HeadingTag?
  {
    if tag.ParagraphTag? then ParagraphBlock(content) else HeadingBlock(tag.level, content)
  }

  lemma CloseLeaf(stack: Stack, tag: Tag, content: seq<Inline>)
    requires tag.ParagraphTag? || tag.HeadingTag?
    ensures Opened([], tag, 0, 0).HoldsInlines() && IsBlock(Opened([], tag, 0, 0))
    ensures forall depth :: Opened([], tag, depth, 0) == Opened([], tag, 0, 0)
    ensures Opened([], tag, 0, 0).content == []
    ensures Close(stack, WithContent(Opened([], tag, 0, 0), content)) == AddBlock(stack, LeafOf(tag, content))
  {
  }

  lemma LeafBlock(base: Stack, k: nat, loose: seq<Inline>, tag: Tag, content: seq<InlineNode>, depth: nat)
    requires HoldsFlow(base) && Safe(content, 0) && (tag.ParagraphTag? || tag.HeadingTag?)
    ensures Run(State(FlowStack(base, k, loose), depth, 0), Bracket(tag, InlinesEvents(content)))
         == After(base, k, Flow(BlocksOf(base), loose).With(LeafOf(tag, Inlines(content))), NodesMark(content), depth)
  {
    hide Run;
    hide StartStep;
    hide EndStep;
    hide Close;
    hide Marked;
    hide Bracket;
    hide FlowStack;
    hide Grown;
    hide After;
    hide Flushed;
    hide Opened;
    hide AddBlock;
    hide Holder;
    CloseLeaf([], tag, Inlines(content));
    var c, mark := Opened([], tag, 0, 0), NodesMark(content);
    var stack := Flushed(base, k, loose);
    var block := LeafOf(tag, Inlines(content));
    RunBracket(State(FlowStack(base, k, loose), depth, 0), tag, InlinesEvents(content));
    StartBlock(base, k, loose, tag, c, depth);
    HolderTop(stack, c, 0);
    NodesInHolder(stack, c, 0, content, depth, 0);
    BlockAdded(base, k, loose, block, mark, depth);
    HolderTop(Marked(stack, mark), WithContent(c, Inlines(content)), 0);
    CloseLeaf(Marked(stack, mark), tag, Inlines(content));
    EndBlock(Marked(stack, mark), WithContent(c, Inlines(content)), tag, depth);
  }

  lemma {:induction false} WordsInCode(stack: Stack, fence: Fence, code: string, texts: seq<string>, depth: nat)
    ensures Run(State(stack + [OpenCode(fence, code)], depth, 0), WordsEvents(texts))
         == State(stack + [OpenCode(fence, code + Joined(texts))], depth, 0)
    decreases |texts|
  {
    if texts == [] {
      assert code + "" == code;
    } else {
      var s := State(stack + [OpenCode(fence, code)], depth, 0);
      RunConcat(s, [Words(texts[0])], WordsEvents(texts[1..]));
      RunOne(s, Words(texts[0]));
      assert Below(s.stack) == stack;
      WordsInCode(stack, fence, code + texts[0], texts[1..], depth);
      assert (code + texts[0]) + Joined(texts[1..]) == code + Joined(texts);
    }
  }

  lemma {:induction false} LinesInHtml(stack: Stack, html: string, lines: seq<string>, depth: nat)
    ensures Run(State(stack + [OpenHtml(html)], depth, 0), HtmlEvents(lines))
         == State(stack + [OpenHtml(html + Joined(lines))], depth, 0)
    decreases |lines|
  {
    if lines == [] {
      assert html + "" == html;
    } else {
      var s := State(stack + [OpenHtml(html)], depth, 0);
      RunConcat(s, [HtmlWords(lines[0])], HtmlEvents(lines[1..]));
      RunOne(s, HtmlWords(lines[0]));
      assert Below(s.stack) == stack;
      LinesInHtml(stack, html + lines[0], lines[1..], depth);
      assert (html + lines[0]) + Joined(lines[1..]) == html + Joined(lines);
    }
  }

  lemma CodeInFlow(base: Stack, k: nat, loose: seq<Inline>, fence: Fence, texts: seq<string>, depth: nat)
    requires HoldsFlow(base)
    ensures Run(State(FlowStack(base, k, loose), depth, 0), FlowEvents(CodeBlockNode(fence, texts)))
         == After(base, k, Flow(BlocksOf(base), loose).With(CodeBlock(fence, Joined(texts))), None, depth)
  {
    hide Run;
    hide StartStep;
    hide EndStep;
    hide Bracket;
    hide FlowStack;
    hide Grown;
    hide After;
    hide Flushed;
    hide AddBlock;
    RunBracket(State(FlowStack(base, k, loose), depth, 0), CodeTag(fence), WordsEvents(texts));
    StartBlock(base, k, loose, CodeTag(fence), OpenCode(fence, ""), depth);
    WordsInCode(Flushed(base, k, loose), fence, "", texts, depth);
    assert "" + Joined(texts) == Joined(texts);
    BlockAdded(base, k, loose, CodeBlock(fence, Joined(texts)), None, depth);
    EndBlock(Flushed(base, k, loose), OpenCode(fence, Joined(texts)), CodeTag(fence), depth);
  }

  lemma HtmlInFlow(base: Stack, k: nat, loose: seq<Inline>, lines: seq<string>, depth: nat)
    requires HoldsFlow(base)
    ensures Run(State(FlowStack(base, k, loose), depth, 0), FlowEvents(HtmlNode(lines)))
         == After(base, k, Flow(BlocksOf(base), loose).With(HtmlBlock(Joined(lines))), None, depth)
  {
    hide Run;
    hide StartStep;
    hide EndStep;
    hide Bracket;
    hide FlowStack;
    hide Grown;
    hide After;
    hide Flushed;
    hide AddBlock;
    RunBracket(State(FlowStack(base, k, loose), depth, 0), HtmlTag, HtmlEvents(lines));
    StartBlock(base, k, loose, HtmlTag, OpenHtml(""), depth);
    LinesInHtml(Flushed(base, k, loose), "", lines, depth);
    assert "" + Joined(lines) == Joined(lines);
    BlockAdded(base, k, loose, HtmlBlock(Joined(lines)), None, depth);
    EndBlock(Flushed(base, k, loose), OpenHtml(Joined(lines)), HtmlTag, depth);
  }

  lemma RuleInFlow(base: Stack, k: nat, loose: seq<Inline>, depth: nat)
    requires HoldsFlow(base)
    ensures Run(State(FlowStack(base, k, loose), depth, 0), FlowEvents(RuleNode))
         == After(base, k, Flow(BlocksOf(base), loose).With(RuleBlock), None, depth)
  {
    hide Run;
    hide StartStep;
    hide EndStep;
    hide FlowStack;
    hide Grown;
    hide ClosePlain;
    hide AddBlock;
    hide PutInline;
    hide PutText;
    hide SetTask;
    MarkedNothing(Flushed(base, k, loose));
    RunOne(State(FlowStack(base, k, loose), depth, 0), RuleEvent);
    CloseLoose(base, k, loose);
    BlockAdded(base, k, loose, RuleBlock, None, depth);
  }

  // ----- Tables -----

  predicate HoldsCells(c: Container) {
    c.OpenHead? || c.OpenRow?
  }

  function WithCells(c: Container, cells: seq<seq<Inline>>): (after: Container)
    requires HoldsCells(c)
    ensures HoldsCells(after) && after.cells == cells
  {
    c.(cells := cells)
  }

  lemma StartCells(stack: Stack, tag: Tag, depth: nat)
    requires tag.HeadTag? || tag.RowTag? || tag.CellTag?
    ensures StartStep(State(stack, depth, 0), tag)
         == State(stack + [if tag.HeadTag? then OpenHead([]) else if tag.RowTag? then OpenRow([]) else OpenCell([])],
                  depth, 0)
  {
  }

  lemma CloseInRow(stack: Stack, c: Container, content: seq<Inline>)
    requires HoldsCells(c)
    ensures Close(stack + [c], OpenCell(content)) == stack + [WithCells(c, c.cells + [content])]
  {
    assert Below(stack + [c]) == stack;
  }

  lemma CloseInTable(stack: Stack, head: seq<seq<Inline>>, rows: seq<seq<seq<Inline>>>, cells: seq<seq<Inline>>)
    ensures Close(stack + [OpenTable(head, rows)], OpenHead(cells)) == stack + [OpenTable(cells, rows)]
    ensures Close(stack + [OpenTable(head, rows)], OpenRow(cells)) == stack + [OpenTable(head, rows + [cells])]
  {
    assert Below(stack + [OpenTable(head, rows)]) == stack;
  }

  lemma InlinesAre(content: seq<InlineNode>)
    ensures Inlines(content) == AddNodes([], content, 0)
  {
  }

  lemma CellInRow(stack: Stack, c: Container, content: seq<InlineNode>, depth: nat)
    requires HoldsCells(c) && Safe(content, 0)
    ensures Run(State(stack + [c], depth, 0), Bracket(CellTag, InlinesEvents(content)))
         == State(Marked(stack, NodesMark(content)) + [WithCells(c, c.cells + [Inlines(content)])], depth, 0)
  {
    hide Run;
    hide StartStep;
    hide EndStep;
    hide Close;
    hide Marked;
    hide Bracket;
    hide Holder;
    hide Inlines;
    var row, mark := stack + [c], NodesMark(content);
    StartCells(row, CellTag, depth);
    InlinesAre(content);
    RunBracket(State(row, depth, 0), CellTag, InlinesEvents(content));
    HolderTop(row, OpenCell([]), 0);
    NodesInHolder(row, OpenCell([]), 0, content, depth, 0);
    MarkedUnder(stack, c, mark);
    HolderTop(Marked(row, mark), OpenCell(Inlines(content)), 0);
    EndBlock(Marked(row, mark), OpenCell(Inlines(content)), CellTag, depth);
    CloseInRow(Marked(stack, mark), c, Inlines(content));
  }

  lemma {:induction false} CellsInRow(stack: Stack, c: Container, cells: seq<CellNode>, depth: nat)
    requires HoldsCells(c) && SafeCells(cells)
    ensures Run(State(stack + [c], depth, 0), CellsEvents(cells))
         == State(Marked(stack, CellsMark(cells)) + [WithCells(c, c.cells + Cells(cells))], depth, 0)
    decreases |cells|
  {
    hide WithCells;
    hide Run;
    hide Bracket;
    hide Marked;
    hide Inlines;
    hide NodesMark;
    if cells == [] {
      RunNothing(State(stack + [c], depth, 0));
      MarkedNothing(stack);
      WithNoMoreCells(c);
    } else {
      var content, rest := cells[0].content, cells[1..];
      RunConcat(State(stack + [c], depth, 0), Bracket(CellTag, InlinesEvents(content)), CellsEvents(rest));
      CellInRow(stack, c, content, depth);
      CellsInRow(Marked(stack, NodesMark(content)), WithCells(c, c.cells + [Inlines(content)]), rest, depth);
      MarkedTwice(stack, NodesMark(content), CellsMark(rest));
      WithCellsTwice(c, [Inlines(content)], Cells(rest));
    }
  }

  lemma WithNoMoreCells(c: Container)
    requires HoldsCells(c)
    ensures WithCells(c, c.cells + []) == c
  {
    assert c.cells + [] == c.cells;
  }

  lemma WithCellsTwice(c: Container, a: seq<seq<Inline>>, b: seq<seq<Inline>>)
    requires HoldsCells(c)
    ensures WithCells(WithCells(c, c.cells + a), WithCells(c, c.cells + a).cells + b) == WithCells(c, c.cells + (a + b))
  {
    assert c.cells + a + b == c.cells + (a + b);
  }

  /** A head or a row run inside its table. */
  lemma RowInTable(stack: Stack, table: Container, tag: Tag, cells: seq<CellNode>, depth: nat)
    requires table.OpenTable? && SafeCells(cells) && (tag.HeadTag? || tag.RowTag?)
    ensures Run(State(stack + [table], depth, 0), Bracket(tag, CellsEvents(cells)))
         == State(Marked(stack, CellsMark(cells)) +
                  [if tag.HeadTag? then OpenTable(Cells(cells), table.rows)
                   else OpenTable(table.head, table.rows + [Cells(cells)])], depth, 0)
  {
    hide Run;
    hide StartStep;
    hide EndStep;
    hide Close;
    hide Bracket;
    hide Marked;
    hide CellsEvents;
    hide Cells;
    hide CellsMark;
    var outer, mark := stack + [table], CellsMark(cells);
    var c := if tag.HeadTag? then OpenHead([]) else OpenRow([]);
    RunBracket(State(outer, depth, 0), tag, CellsEvents(cells));
    StartCells(outer, tag, depth);
    CellsInRow(outer, c, cells, depth);
    MarkedUnder(stack, table, mark);
    assert [] + Cells(cells) == Cells(cells);
    EndBlock(Marked(outer, mark), WithCells(c, Cells(cells)), tag, depth);
    CloseInTable(Marked(stack, mark), table.head, table.rows, Cells(cells));
  }

  lemma {:induction false} RowsInTable(stack: Stack, head: seq<seq<Inline>>, done: seq<seq<seq<Inline>>>,
                                       rows: seq<RowNode>, depth: nat)
    requires SafeRows(rows)
    ensures Run(State(stack + [OpenTable(head, done)], depth, 0), RowsEvents(rows))
         == State(Marked(stack, RowsMark(rows)) + [OpenTable(head, done + Rows(rows))], depth, 0)
    decreases |rows|
  {
    if rows == [] {
      assert done + [] == done;
    } else {
      var cells, rest := rows[0].cells, rows[1..];
      RunConcat(State(stack + [OpenTable(head, done)], depth, 0), Bracket(RowTag, CellsEvents(cells)),
                RowsEvents(rest));
      RowInTable(stack, OpenTable(head, done), RowTag, cells, depth);
      RowsInTable(Marked(stack, CellsMark(cells)), head, done + [Cells(cells)], rest, depth);
      MarkedTwice(stack, CellsMark(cells), RowsMark(rest));
      assert done + [Cells(cells)] + Rows(rest) == done + Rows(rows);
    }
  }

  lemma TableInFlow(base: Stack, k: nat, loose: seq<Inline>, head: RowNode, rows: seq<RowNode>, depth: nat)
    requires HoldsFlow(base) && SafeCells(head.cells) && SafeRows(rows)
    ensures Run(State(FlowStack(base, k, loose), depth, 0), FlowEvents(TableNode(head, rows)))
         == After(base, k, Flow(BlocksOf(base), loose).With(TableBlock(Cells(head.cells), Rows(rows))),
                  RowsMark(rows).Or(CellsMark(head.cells)), depth)
  {
    hide Run;
    hide StartStep;
    hide EndStep;
    hide Marked;
    hide FlowStack;
    hide Grown;
    hide After;
    hide Flushed;
    hide AddBlock;
    hide CellsEvents;
    hide RowsEvents;
    hide Bracket;
    var inner, stack := Bracket(HeadTag, CellsEvents(head.cells)) + RowsEvents(rows), Flushed(base, k, loose);
    RunBracket(State(FlowStack(base, k, loose), depth, 0), TableTag, inner);
    StartBlock(base, k, loose, TableTag, OpenTable([], []), depth);
    RunConcat(State(stack + [OpenTable([], [])], depth, 0), Bracket(HeadTag, CellsEvents(head.cells)),
              RowsEvents(rows));
    RowInTable(stack, OpenTable([], []), HeadTag, head.cells, depth);
    RowsInTable(Marked(stack, CellsMark(head.cells)), Cells(head.cells), [], rows, depth);
    MarkedTwice(stack, CellsMark(head.cells), RowsMark(rows));
    assert [] + Rows(rows) == Rows(rows);
    var mark := RowsMark(rows).Or(CellsMark(head.cells));
    BlockAdded(base, k, loose, TableBlock(Cells(head.cells), Rows(rows)), mark, depth);
    EndBlock(Marked(stack, mark), OpenTable(Cells(head.cells), Rows(rows)), TableTag, depth);
  }

  // ----- Quotes and lists -----

  /** Blocks added after others are the others, then the blocks. */
  lemma {:induction false} FlowsAppend(blocks: seq<Block>, flow: Flow, nodes: seq<FlowNode>, depth: nat)
    ensures AddFlows(Flow(blocks + flow.blocks, flow.loose), nodes, depth)
         == Flow(blocks + AddFlows(flow, nodes, depth).blocks, AddFlows(flow, nodes, depth).loose)
    decreases |nodes|
  {
    if nodes != [] {
      FlowAppends(blocks, flow, nodes[0], depth);
      FlowsAppend(blocks, AddFlow(flow, nodes[0], depth), nodes[1..], depth);
    }
  }

  lemma FlushedAppends(blocks: seq<Block>, flow: Flow)
    ensures Flow(blocks + flow.blocks, flow.loose).Flushed() == blocks + flow.Flushed()
    ensures forall b :: Flow(blocks + flow.blocks, flow.loose).With(b) == Flow(blocks + flow.With(b).blocks, [])
    ensures forall bs: seq<Block> :: blocks + flow.Flushed() + bs == blocks + (flow.Flushed() + bs)
  {
  }

  lemma FlowAppends(blocks: seq<Block>, flow: Flow, node: FlowNode, depth: nat)
    ensures AddFlow(Flow(blocks + flow.blocks, flow.loose), node, depth)
         == Flow(blocks + AddFlow(flow, node, depth).blocks, AddFlow(flow, node, depth).loose)
  {
    FlushedAppends(blocks, flow);
  }

  /** Nodes flattened after `blocks` leave their own blocks after them. */
  lemma SplicedAfter(blocks: seq<Block>, nodes: seq<FlowNode>, depth: nat)
    ensures AddFlows(Flow(blocks, []), nodes, depth).Flushed() == blocks + Blocks(nodes, depth)
  {
    FlowsAppend(blocks, Flow([], []), nodes, depth);
    assert blocks + [] == blocks;
    FlushedAppends(blocks, AddFlows(Flow([], []), nodes, depth));
  }

  /** What happens at the end of a quote, list or item: a trailing `Plain` is closed, then the container popped. */
  lemma EndFlow(base: Stack, k: nat, flow: Flow, mark: Option<bool>, depth: nat)
    requires HoldsFlow(base)
    ensures ClosePlain(After(base, k, flow, mark, depth).stack)
            == FlowStack(Marked(Grown(base, flow.Flushed()), mark), k, [])
  {
    var grown := Grown(base, flow.blocks);
    MarkedGrown(grown, flow.Flushed(), mark);
    CloseLoose(Marked(grown, mark), k, flow.loose);
    GrownTwice(base, flow.blocks, flow.Flushed());
  }

  lemma AfterTwice(base: Stack, k: nat, first: Flow, mark: Option<bool>, second: Flow, mark': Option<bool>, depth: nat)
    requires HoldsFlow(base)
    ensures var middle := Marked(Grown(base, first.blocks), mark);
            && HoldsFlow(middle) && BlocksOf(middle) == first.blocks
            && After(middle, k, second, mark', depth) == After(base, k, second, mark'.Or(mark), depth)
  {
    var grown := Grown(base, first.blocks);
    MarkedGrown(grown, second.blocks, mark);
    GrownTwice(base, first.blocks, second.blocks);
    MarkedTwice(Grown(base, second.blocks), mark, mark');
  }

  /** Nodes in a container of blocks leave their translation in it. */
  lemma {:induction false} FlowsInFlow(base: Stack, k: nat, loose: seq<Inline>, nodes: seq<FlowNode>, depth: nat)
    requires HoldsFlow(base) && SafeFlows(nodes)
    ensures Run(State(FlowStack(base, k, loose), depth, 0), FlowsEvents(nodes))
         == After(base, k, AddFlows(Flow(BlocksOf(base), loose), nodes, depth), FlowsMark(nodes, depth), depth)
    decreases nodes, 1
  {
    if nodes == [] {
      GrownTwice(base, [], []);
    } else {
      var first, mark := AddFlow(Flow(BlocksOf(base), loose), nodes[0], depth), FlowMark(nodes[0], depth);
      RunConcat(State(FlowStack(base, k, loose), depth, 0), FlowEvents(nodes[0]), FlowsEvents(nodes[1..]));
      NodeInFlow(base, k, loose, nodes[0], depth);
      AfterTwice(base, k, first, mark, AddFlows(first, nodes[1..], depth), FlowsMark(nodes[1..], depth), depth);
      FlowsInFlow(Marked(Grown(base, first.blocks), mark), k, first.loose, nodes[1..], depth);
    }
  }

  lemma {:induction false} NodeInFlow(base: Stack, k: nat, loose: seq<Inline>, node: FlowNode, depth: nat)
    requires HoldsFlow(base) && SafeFlow(node)
    ensures Run(State(FlowStack(base, k, loose), depth, 0), FlowEvents(node))
         == After(base, k, AddFlow(Flow(BlocksOf(base), loose), node, depth), FlowMark(node, depth), depth)
    decreases node, 0
  {
    hide Run;
    hide Bracket;
    hide FlowStack;
    hide Grown;
    hide After;
    hide Flushed;
    hide InlinesEvents;
    hide FlowsEvents;
    hide ItemsEvents;
    hide Blocks;
    hide Items;
    hide SplicedItems;
    hide Inlines;
    hide Cells;
    hide Rows;
    match node
    case InlineFlow(inline) =>
      InlineInFlow(base, k, loose, inline, depth);
      GrownTwice(base, [], []);
      AfterIs(base, k, Flow(BlocksOf(base), AddNode(loose, inline, 0)), NodeMark(inline), depth);
    case ParagraphNode(content) => LeafBlock(base, k, loose, ParagraphTag, content, depth);
    case HeadingNode(level, content) => LeafBlock(base, k, loose, HeadingTag(level), content, depth);
    case CodeBlockNode(fence, texts) => CodeInFlow(base, k, loose, fence, texts, depth);
    case HtmlNode(lines) => HtmlInFlow(base, k, loose, lines, depth);
    case TableNode(head, rows) => TableInFlow(base, k, loose, head, rows, depth);
    case RuleNode => RuleInFlow(base, k, loose, depth);
    case QuoteNode(kids) =>
      if depth < MAX_DEPTH {
        KeptQuote(base, k, loose, kids, depth);
      } else {
        FlatQuote(base, k, loose, kids, depth);
      }
    case ListNode(start, items) =>
      if depth < MAX_DEPTH {
        KeptList(base, k, loose, start, items, depth);
      } else {
        FlatList(base, k, loose, start, items, depth);
      }
  }

  lemma StartNesting(base: Stack, k: nat, loose: seq<Inline>, tag: Tag, depth: nat)
    requires HoldsFlow(base) && IsNesting(tag)
    ensures StartStep(State(FlowStack(base, k, loose), depth, 0), tag)
         == State(Flushed(base, k, loose) + [Opened([], tag, depth + 1, 0)], depth + 1, 0)
  {
    CloseLoose(base, k, loose);
  }

  lemma EndNesting(s: State, stack: Stack, c: Container, tag: Tag, depth: nat)
    requires stack != [] && IsNesting(tag) && s.depth == depth + 1 && s.inlineDepth == 0
    requires ClosePlain(s.stack) == stack + [c]
    ensures EndStep(s, tag) == State(Close(stack, c), depth, 0)
  {
    assert Below(stack + [c]) == stack;
  }

  /** A container of blocks just opened on a stack, grown and marked. */
  lemma GrownOpened(stack: Stack, blocks: seq<Block>, mark: Option<bool>)
    ensures Marked(Grown(stack + [OpenQuote([])], blocks), mark) == Marked(stack, mark) + [OpenQuote(blocks)]
    ensures Marked(Grown(stack + [OpenItem(None, [])], blocks), mark) == stack + [OpenItem(mark, blocks)]
  {
    assert Below(stack + [OpenQuote([])]) == stack;
    assert Below(stack + [OpenItem(None, [])]) == stack;
    MarkedUnder(stack, OpenQuote(blocks), mark);
    assert Below(stack + [OpenItem(None, blocks)]) == stack;
  }

  lemma CloseNesting(stack: Stack, blocks: seq<Block>, start: Option<nat>, items: seq<ListItem>)
    ensures Close(stack, OpenQuote(blocks)) == AddBlock(stack, QuoteBlock(blocks))
    ensures Close(stack, OpenList(start, items)) == AddBlock(stack, ListBlock(start, items))
  {
  }

  lemma {:induction false} KeptQuote(base: Stack, k: nat, loose: seq<Inline>, kids: seq<FlowNode>, depth: nat)
    requires HoldsFlow(base) && SafeFlows(kids) && depth < MAX_DEPTH
    ensures Run(State(FlowStack(base, k, loose), depth, 0), FlowEvents(QuoteNode(kids)))
         == After(base, k, Flow(BlocksOf(base), loose).With(QuoteBlock(Blocks(kids, depth + 1))),
                  FlowsMark(kids, depth + 1), depth)
    decreases kids, 2
  {
    hide Run;
    hide StartStep;
    hide EndStep;
    hide Close;
    hide Marked;
    hide Bracket;
    hide FlowStack;
    hide Grown;
    hide After;
    hide Flushed;
    hide ClosePlain;
    hide AddBlock;
    var stack, mark := Flushed(base, k, loose), FlowsMark(kids, depth + 1);
    var inner, flow := stack + [OpenQuote([])], AddFlows(Flow([], []), kids, depth + 1);
    var blocks := flow.Flushed();
    RunBracket(State(FlowStack(base, k, loose), depth, 0), QuoteTag, FlowsEvents(kids));
    StartNesting(base, k, loose, QuoteTag, depth);
    FlowStackTop(inner, 0, []);
    FlowsInFlow(inner, 0, [], kids, depth + 1);
    EndFlow(inner, 0, flow, mark, depth + 1);
    FlowStackTop(Marked(Grown(inner, blocks), mark), 0, []);
    GrownOpened(stack, blocks, mark);
    BlockAdded(base, k, loose, QuoteBlock(blocks), mark, depth);
    EndNesting(After(inner, 0, flow, mark, depth + 1), Marked(stack, mark), OpenQuote(blocks), QuoteTag, depth);
    CloseNesting(Marked(stack, mark), blocks, None, []);
  }

  lemma {:induction false} FlatQuote(base: Stack, k: nat, loose: seq<Inline>, kids: seq<FlowNode>, depth: nat)
    requires HoldsFlow(base) && SafeFlows(kids) && depth >= MAX_DEPTH
    ensures Run(State(FlowStack(base, k, loose), depth, 0), FlowEvents(QuoteNode(kids)))
         == After(base, k, Flow(Flow(BlocksOf(base), loose).Flushed() + Blocks(kids, depth + 1), []),
                  FlowsMark(kids, depth + 1), depth)
    decreases kids, 3
  {
    hide Run;
    hide StartStep;
    hide EndStep;
    hide Close;
    hide Marked;
    hide Bracket;
    hide FlowStack;
    hide Grown;
    hide After;
    hide Flushed;
    hide ClosePlain;
    hide AddBlock;
    var blocks, mark := Flow(BlocksOf(base), loose).Flushed(), FlowsMark(kids, depth + 1);
    var flow := AddFlows(Flow(blocks, []), kids, depth + 1);
    RunBracket(State(FlowStack(base, k, loose), depth, 0), QuoteTag, FlowsEvents(kids));
    StartNesting(base, k, loose, QuoteTag, depth);
    FlatRun(base, k, loose, kids, depth + 1);
    SplicedAfter(blocks, kids, depth + 1);
    EndFlat(base, k, blocks, flow, mark, depth);
    EndNesting(After(Grown(base, blocks), k + 1, flow, mark, depth + 1),
               After(base, k, Flow(flow.Flushed(), []), mark, depth).stack,
               Transparent(true), QuoteTag, depth);
    CloseClear(After(base, k, Flow(flow.Flushed(), []), mark, depth).stack, true);
  }

  /** Flattened nodes run one transparent container up. */
  lemma {:induction false} FlatRun(base: Stack, k: nat, loose: seq<Inline>, kids: seq<FlowNode>, depth: nat)
    requires HoldsFlow(base) && SafeFlows(kids)
    ensures Run(State(Flushed(base, k, loose) + [Transparent(true)], depth, 0), FlowsEvents(kids))
         == After(Grown(base, Flow(BlocksOf(base), loose).Flushed()), k + 1,
                  AddFlows(Flow(Flow(BlocksOf(base), loose).Flushed(), []), kids, depth), FlowsMark(kids, depth), depth)
    decreases kids, 2
  {
    hide Run;
    hide After;
    hide FlowsEvents;
    hide AddFlows;
    var grown := Grown(base, Flow(BlocksOf(base), loose).Flushed());
    FlowStackTop(grown, k, []);
    FlowsInFlow(grown, k + 1, [], kids, depth);
  }

  /** The end of flattened nodes: their blocks are in place, and the transparent container is popped. */
  lemma EndFlat(base: Stack, k: nat, blocks: seq<Block>, flow: Flow, mark: Option<bool>, depth: nat)
    requires HoldsFlow(base)
    ensures var closed := After(base, k, Flow(flow.Flushed(), []), mark, depth).stack;
            && closed != []
            && ClosePlain(After(Grown(base, blocks), k + 1, flow, mark, depth + 1).stack)
                == closed + [Transparent(true)]
            && ClosePlain(After(Grown(base, blocks), k + 1, flow, mark, depth).stack) == closed + [Transparent(true)]
  {
    EndFlow(Grown(base, blocks), k + 1, flow, mark, depth);
    GrownTwice(base, blocks, flow.Flushed());
    var inner := Marked(Grown(base, flow.Flushed()), mark);
    FlowStackTop(inner, k, []);
    MarkedGrown(Grown(base, flow.Flushed()), [], mark);
    FlowTop(inner, k);
  }

  lemma EndItem(s: State, stack: Stack, c: Container, depth: nat)
    requires stack != [] && s.depth == depth && s.inlineDepth == 0
    requires ClosePlain(s.stack) == stack + [c]
    ensures EndStep(s, ItemTag) == State(Close(stack, c), depth, 0)
  {
    assert Below(stack + [c]) == stack;
  }

  lemma StartItem(stack: Stack, c: Container, depth: nat)
    requires !c.OpenPlain?
    ensures StartStep(State(stack + [c], depth, 0), ItemTag)
         == State(stack + [c] + [if c.OpenList? then OpenItem(None, []) else Transparent(true)], depth, 0)
  {
  }

  lemma CloseItem(stack: Stack, start: Option<nat>, items: seq<ListItem>, task: Option<bool>, blocks: seq<Block>)
    ensures Close(stack + [OpenList(start, items)], OpenItem(task, blocks))
            == stack + [OpenList(start, items + [ListItem(task, blocks)])]
  {
    assert Below(stack + [OpenList(start, items)]) == stack;
  }

  /** One item of a kept list; it keeps its own marks. */
  lemma {:induction false} KeptItem(stack: Stack, start: Option<nat>, items: seq<ListItem>, kids: seq<FlowNode>,
                                    depth: nat)
    requires SafeFlows(kids)
    ensures Run(State(stack + [OpenList(start, items)], depth, 0), Bracket(ItemTag, FlowsEvents(kids)))
         == State(stack + [OpenList(start, items + [ListItem(FlowsMark(kids, depth), Blocks(kids, depth))])], depth, 0)
    decreases kids, 3
  {
    hide Run;
    hide StartStep;
    hide EndStep;
    hide Close;
    hide Marked;
    hide Bracket;
    hide FlowStack;
    hide Grown;
    hide After;
    hide Flushed;
    hide ClosePlain;
    hide AddBlock;
    var list, mark, flow :=
      stack + [OpenList(start, items)], FlowsMark(kids, depth), AddFlows(Flow([], []), kids, depth);
    var inner, blocks := list + [OpenItem(None, [])], flow.Flushed();
    RunBracket(State(list, depth, 0), ItemTag, FlowsEvents(kids));
    StartItem(stack, OpenList(start, items), depth);
    FlowStackTop(inner, 0, []);
    FlowsInFlow(inner, 0, [], kids, depth);
    EndFlow(inner, 0, flow, mark, depth);
    FlowStackTop(Marked(Grown(inner, blocks), mark), 0, []);
    GrownOpened(list, blocks, mark);
    EndItem(After(inner, 0, flow, mark, depth), list, OpenItem(mark, blocks), depth);
    CloseItem(stack, start, items, mark, blocks);
  }

  lemma {:induction false} KeptItems(stack: Stack, start: Option<nat>, done: seq<ListItem>, items: seq<ItemNode>,
                                     depth: nat)
    requires SafeItems(items)
    ensures Run(State(stack + [OpenList(start, done)], depth, 0), ItemsEvents(items))
         == State(stack + [OpenList(start, done + Items(items, depth))], depth, 0)
    decreases items, 1
  {
    hide Run;
    hide Bracket;
    hide FlowsEvents;
    hide FlowsMark;
    hide Blocks;
    if items == [] {
      RunNothing(State(stack + [OpenList(start, done)], depth, 0));
      assert done + [] == done;
    } else {
      var kids, rest := items[0].kids, items[1..];
      var item := ListItem(FlowsMark(kids, depth), Blocks(kids, depth));
      RunConcat(State(stack + [OpenList(start, done)], depth, 0), Bracket(ItemTag, FlowsEvents(kids)),
                ItemsEvents(rest));
      KeptItem(stack, start, done, kids, depth);
      KeptItems(stack, start, done + [item], rest, depth);
      assert done + [item] + Items(rest, depth) == done + Items(items, depth);
    }
  }

  lemma {:induction false} KeptList(base: Stack, k: nat, loose: seq<Inline>, start: Option<nat>, items: seq<ItemNode>,
                                    depth: nat)
    requires HoldsFlow(base) && SafeItems(items) && depth < MAX_DEPTH
    ensures Run(State(FlowStack(base, k, loose), depth, 0), FlowEvents(ListNode(start, items)))
         == After(base, k, Flow(BlocksOf(base), loose).With(ListBlock(start, Items(items, depth + 1))), None, depth)
    decreases items, 2
  {
    hide Run;
    hide StartStep;
    hide EndStep;
    hide Close;
    hide Bracket;
    hide FlowStack;
    hide Grown;
    hide After;
    hide Flushed;
    hide AddBlock;
    hide ItemsEvents;
    hide Items;
    var stack, list := Flushed(base, k, loose), OpenList(start, Items(items, depth + 1));
    RunBracket(State(FlowStack(base, k, loose), depth, 0), ListTag(start), ItemsEvents(items));
    StartNesting(base, k, loose, ListTag(start), depth);
    KeptItems(stack, start, [], items, depth + 1);
    assert [] + Items(items, depth + 1) == Items(items, depth + 1);
    BlockAdded(base, k, loose, ListBlock(start, Items(items, depth + 1)), None, depth);
    EndNesting(State(stack + [list], depth + 1, 0), stack, list, ListTag(start), depth);
    CloseNesting(stack, [], start, Items(items, depth + 1));
  }

  lemma FlatStack(base: Stack, k: nat)
    requires HoldsFlow(base) && k > 0
    ensures FlowStack(base, k, []) == FlowStack(base, k - 1, []) + [Transparent(true)]
    ensures Flushed(base, k, []) == FlowStack(base, k, [])
    ensures Grown(base, Flow(BlocksOf(base), []).Flushed()) == base
  {
    FlowStackTop(base, k - 1, []);
    GrownTwice(base, [], []);
  }

  /** One item of a flattened list: its blocks go after `base`'s, its marks below. */
  lemma {:induction false} FlatItem(base: Stack, k: nat, kids: seq<FlowNode>, depth: nat)
    requires HoldsFlow(base) && SafeFlows(kids) && k > 0
    ensures Run(State(FlowStack(base, k, []), depth, 0), Bracket(ItemTag, FlowsEvents(kids)))
         == After(base, k, Flow(BlocksOf(base) + Blocks(kids, depth), []), FlowsMark(kids, depth), depth)
    decreases kids, 3
  {
    hide Run;
    hide StartStep;
    hide EndStep;
    hide Close;
    hide Marked;
    hide Bracket;
    hide FlowStack;
    hide Grown;
    hide After;
    hide Flushed;
    hide ClosePlain;
    hide AddBlock;
    var flow, mark := AddFlows(Flow(BlocksOf(base), []), kids, depth), FlowsMark(kids, depth);
    var closed := After(base, k, Flow(flow.Flushed(), []), mark, depth).stack;
    RunBracket(State(FlowStack(base, k, []), depth, 0), ItemTag, FlowsEvents(kids));
    FlatStack(base, k);
    StartItem(FlowStack(base, k - 1, []), Transparent(true), depth);
    FlatRun(base, k, [], kids, depth);
    SplicedAfter(BlocksOf(base), kids, depth);
    EndFlat(base, k, BlocksOf(base), flow, mark, depth);
    EndItem(After(base, k + 1, flow, mark, depth), closed, Transparent(true), depth);
    CloseClear(closed, true);
  }

  lemma NothingAfter(base: Stack, k: nat, depth: nat)
    requires HoldsFlow(base)
    ensures State(FlowStack(base, k, []), depth, 0) == After(base, k, Flow(BlocksOf(base), []), None, depth)
  {
    GrownTwice(base, [], []);
  }

  lemma {:induction false} FlatItems(base: Stack, k: nat, items: seq<ItemNode>, depth: nat)
    requires HoldsFlow(base) && SafeItems(items) && k > 0
    ensures Run(State(FlowStack(base, k, []), depth, 0), ItemsEvents(items))
         == After(base, k, Flow(BlocksOf(base) + SplicedItems(items, depth), []), ItemsMark(items, depth), depth)
    decreases items, 1
  {
    hide Run;
    hide Bracket;
    hide FlowsEvents;
    hide FlowsMark;
    hide Blocks;
    hide After;
    hide FlowStack;
    hide Grown;
    hide Marked;
    hide AddFlows;
    if items == [] {
      RunNothing(State(FlowStack(base, k, []), depth, 0));
      assert BlocksOf(base) + [] == BlocksOf(base);
      NothingAfter(base, k, depth);
    } else {
      var kids, rest := items[0].kids, items[1..];
      var first, mark := Flow(BlocksOf(base) + Blocks(kids, depth), []), FlowsMark(kids, depth);
      var second := Flow(first.blocks + SplicedItems(rest, depth), []);
      var middle := Marked(Grown(base, first.blocks), mark);
      RunConcat(State(FlowStack(base, k, []), depth, 0), Bracket(ItemTag, FlowsEvents(kids)), ItemsEvents(rest));
      FlatItem(base, k, kids, depth);
      AfterIs(base, k, first, mark, depth);
      AfterTwice(base, k, first, mark, second, ItemsMark(rest, depth), depth);
      FlatItems(middle, k, rest, depth);
      assert second.blocks == BlocksOf(base) + SplicedItems(items, depth);
    }
  }

  lemma AfterIs(base: Stack, k: nat, flow: Flow, mark: Option<bool>, depth: nat)
    requires HoldsFlow(base)
    ensures After(base, k, flow, mark, depth)
            == State(FlowStack(Marked(Grown(base, flow.blocks), mark), k, flow.loose), depth, 0)
  {
  }

  lemma {:induction false} FlatList(base: Stack, k: nat, loose: seq<Inline>, start: Option<nat>, items: seq<ItemNode>,
                                    depth: nat)
    requires HoldsFlow(base) && SafeItems(items) && depth >= MAX_DEPTH
    ensures Run(State(FlowStack(base, k, loose), depth, 0), FlowEvents(ListNode(start, items)))
         == After(base, k, Flow(Flow(BlocksOf(base), loose).Flushed() + SplicedItems(items, depth + 1), []),
                  ItemsMark(items, depth + 1), depth)
    decreases items, 2
  {
    hide Run;
    hide StartStep;
    hide EndStep;
    hide Close;
    hide Marked;
    hide Bracket;
    hide FlowStack;
    hide Grown;
    hide After;
    hide Flushed;
    hide ClosePlain;
    hide AddBlock;
    hide ItemsEvents;
    hide SplicedItems;
    hide ItemsMark;
    var blocks, mark := Flow(BlocksOf(base), loose).Flushed(), ItemsMark(items, depth + 1);
    var grown, flow := Grown(base, blocks), Flow(blocks + SplicedItems(items, depth + 1), []);
    var closed := After(base, k, Flow(flow.Flushed(), []), mark, depth).stack;
    RunBracket(State(FlowStack(base, k, loose), depth, 0), ListTag(start), ItemsEvents(items));
    StartNesting(base, k, loose, ListTag(start), depth);
    FlushedIs(base, k, loose);
    FlatItems(grown, k + 1, items, depth + 1);
    EndFlat(base, k, blocks, flow, mark, depth);
    EndNesting(After(grown, k + 1, flow, mark, depth + 1), closed, Transparent(true), ListTag(start), depth);
    CloseClear(closed, true);
  }

  lemma FlushedIs(base: Stack, k: nat, loose: seq<Inline>)
    requires HoldsFlow(base)
    ensures Flushed(base, k, loose) + [Transparent(true)]
            == FlowStack(Grown(base, Flow(BlocksOf(base), loose).Flushed()), k + 1, [])
  {
    FlowStackTop(Grown(base, Flow(BlocksOf(base), loose).Flushed()), k, []);
  }

  // ----- Whole replies -----

  /**
   For every safe reply the events leave one root with the reply's blocks and at most a trailing `Plain`
   above it, and finishing returns the translation of the reply's tree.
   */
  lemma BuilderTranslates(doc: seq<FlowNode>)
    requires SafeFlows(doc)
    ensures var end := Run(START, FlowsEvents(doc));
            && Rooted(end.stack) && NonPlain(end.stack) == 1 && end.depth == 0 && end.inlineDepth == 0
            && Finished(end.stack) == Translation(doc)
  {
    hide Run;
    hide FlowsEvents;
    hide AddFlows;
    hide FlowsMark;
    hide Finished;
    hide After;
    var root := [OpenRoot([])];
    var flow, mark := AddFlows(Flow([], []), doc, 0), FlowsMark(doc, 0);
    FlowStackTop(root, 0, []);
    FlowsInFlow(root, 0, [], doc, 0);
    AfterRoot(flow, mark);
    RunKeepsRooted(START, FlowsEvents(doc));
    FinishedFlow(flow);
  }

  /** What a whole reply leaves on the stack: the root, and any loose inlines after its blocks. */
  function RootStack(flow: Flow): Stack {
    [OpenRoot(flow.blocks)] + if flow.loose == [] then [] else [OpenPlain(flow.loose)]
  }

  lemma AfterRoot(flow: Flow, mark: Option<bool>)
    ensures After([OpenRoot([])], 0, flow, mark, 0) == State(RootStack(flow), 0, 0)
  {
    hide Marked;
    hide Grown;
    GrownRoot(flow.blocks);
    MarkedRoot(flow.blocks, mark);
    FlowStackTop([OpenRoot(flow.blocks)], 0, flow.loose);
  }

  lemma GrownRoot(blocks: seq<Block>)
    ensures Grown([OpenRoot([])], blocks) == [OpenRoot(blocks)]
  {
    assert Below([OpenRoot([])]) == [];
  }

  lemma MarkedRoot(blocks: seq<Block>, mark: Option<bool>)
    ensures Marked([OpenRoot(blocks)], mark) == [OpenRoot(blocks)]
  {
    assert Below([OpenRoot(blocks)]) == [];
  }

  lemma FinishedFlow(flow: Flow)
    requires Rooted(RootStack(flow))
    ensures NonPlain(RootStack(flow)) == 1
    ensures Finished(RootStack(flow)) == flow.Flushed()
  {
    hide FinishRound;
    RootCountsOne(flow);
    if flow.loose != [] {
      assert RootStack(flow) == [OpenRoot(flow.blocks), OpenPlain(flow.loose)];
      FinishesLoose(flow.blocks, flow.loose);
      FinishedRoot(flow.Flushed());
    }
  }

  lemma FinishedRoot(blocks: seq<Block>)
    ensures Rooted([OpenRoot(blocks)]) && Finished([OpenRoot(blocks)]) == blocks
  {
  }

  lemma FinishesLoose(blocks: seq<Block>, loose: seq<Inline>)
    ensures FinishRound([OpenRoot(blocks), OpenPlain(loose)]) == [OpenRoot(blocks + [PlainBlock(loose)])]
  {
    var root := [OpenRoot(blocks)];
    assert Below([OpenRoot(blocks), OpenPlain(loose)]) == root && Below(root) == [];
  }

  lemma RootCountsOne(flow: Flow)
    ensures NonPlain(RootStack(flow)) == 1
  {
    var root := [OpenRoot(flow.blocks)];
    assert Below(root) == [];
    assert Frames(root) == [OpenRoot([])];
    if flow.loose != [] {
      assert Below(RootStack(flow)) == root;
    }
  }
}

/** What a translated reply never exceeds and never loses: its depth, where its links go, its words. */
module MarkdownLimits {
  import opened Sequences
  import opened Wrappers
  import opened Markdown
  import opened MarkdownTranslation
  import opened MarkdownProof

  // ----- Depth and destinations -----

  /** How many more quotes or lists, or spans and links, may open inside `d` of them. */
  function Room(d: nat): nat {
    if d < MAX_DEPTH then MAX_DEPTH - d else 0
  }

  /** Spans and links nest at most `n` deep, and every link and image goes where smelt follows. */
  predicate Sound(inlines: seq<Inline>, n: nat)
    decreases inlines, 1
  {
    forall i | 0 <= i < |inlines| :: SoundInline(inlines[i], n)
  }

  predicate SoundInline(inline: Inline, n: nat)
    decreases inline, 0
  {
    match inline
    case Styled(_, content) => n > 0 && Sound(content, n - 1)
    case Link(url, content) => n > 0 && AllowedUrl(url, LINK_SCHEMES) && Sound(content, n - 1)
    case Image(url, _) => AllowedUrl(url, IMAGE_SCHEMES)
    case _ => true
  }

  /** Quotes and lists nest at most `n` deep, over sound inlines. */
  predicate SoundBlocks(blocks: seq<Block>, n: nat)
    decreases blocks, 1
  {
    forall i | 0 <= i < |blocks| :: SoundBlock(blocks[i], n)
  }

  predicate SoundCells(cells: seq<seq<Inline>>) {
    forall i | 0 <= i < |cells| :: Sound(cells[i], 16)
  }

  predicate SoundBlock(block: Block, n: nat)
    decreases block, 0
  {
    match block
    case ParagraphBlock(content) => Sound(content, 16)
    case PlainBlock(content) => Sound(content, 16)
    case HeadingBlock(_, content) => Sound(content, 16)
    case QuoteBlock(inner) => n > 0 && SoundBlocks(inner, n - 1)
    case ListBlock(_, items) => n > 0 && forall i | 0 <= i < |items| :: SoundBlocks(items[i].blocks, n - 1)
    case TableBlock(head, rows) => SoundCells(head) && forall i | 0 <= i < |rows| :: SoundCells(rows[i])
    case _ => true
  }

  lemma PushKeepsSound(inlines: seq<Inline>, x: Inline, n: nat)
    requires Sound(inlines, n) && SoundInline(x, n)
    ensures Sound(PushInline(inlines, x), n)
  {
  }

  lemma {:induction false} NodesAreSound(acc: seq<Inline>, nodes: seq<InlineNode>, d: nat, n: nat)
    requires Sound(acc, n) && Room(d) <= n
    ensures Sound(AddNodes(acc, nodes, d), n)
    decreases nodes, 1
  {
    if nodes != [] {
      NodeIsSound(acc, nodes[0], d, n);
      NodesAreSound(AddNode(acc, nodes[0], d), nodes[1..], d, n);
    }
  }

  lemma {:induction false} NodeIsSound(acc: seq<Inline>, node: InlineNode, d: nat, n: nat)
    requires Sound(acc, n) && Room(d) <= n
    ensures Sound(AddNode(acc, node, d), n)
    decreases node, 0
  {
    match node
    case SpanNode(kind, kids) =>
      if d < MAX_DEPTH && Shown(kind, []).Some? {
        ShownSpan(acc, kind, kids, d);
        NodesAreSound([], kids, d + 1, n - 1);
        PushKeepsSound(acc, Shown(kind, AddNodes([], kids, d + 1)).value, n);
      } else {
        NodesAreSound(acc, kids, d + 1, n);
      }
    case TaskNode(_) =>
    case _ =>
      LeafPushed(acc, node, d);
      PushKeepsSound(acc, LeafInline(node), n);
  }

  lemma InlinesAreSound(nodes: seq<InlineNode>)
    ensures Sound(Inlines(nodes), MAX_DEPTH)
  {
    NodesAreSound([], nodes, 0, MAX_DEPTH);
  }

  lemma {:induction false} CellsAreSound(cells: seq<CellNode>)
    ensures SoundCells(Cells(cells))
  {
    if cells != [] {
      InlinesAreSound(cells[0].content);
      CellsAreSound(cells[1..]);
    }
  }

  lemma {:induction false} RowsAreSound(rows: seq<RowNode>)
    ensures forall i | 0 <= i < |Rows(rows)| :: SoundCells(Rows(rows)[i])
  {
    if rows != [] {
      CellsAreSound(rows[0].cells);
      RowsAreSound(rows[1..]);
    }
  }

  predicate SoundFlow(flow: Flow, n: nat) {
    SoundBlocks(flow.blocks, n) && Sound(flow.loose, 16)
  }

  lemma FlushKeepsSound(flow: Flow, n: nat)
    requires SoundFlow(flow, n)
    ensures SoundBlocks(flow.Flushed(), n)
  {
  }

  lemma SpliceKeepsSound(flow: Flow, blocks: seq<Block>, n: nat)
    requires SoundFlow(flow, n) && SoundBlocks(blocks, n)
    ensures SoundFlow(Flow(flow.Flushed() + blocks, []), n)
  {
    FlushKeepsSound(flow, n);
  }

  lemma WithKeepsSound(flow: Flow, block: Block, n: nat)
    requires SoundFlow(flow, n) && SoundBlock(block, n)
    ensures SoundFlow(flow.With(block), n)
  {
    FlushKeepsSound(flow, n);
  }

  lemma {:induction false} FlowsAreSound(flow: Flow, nodes: seq<FlowNode>, depth: nat, n: nat)
    requires SoundFlow(flow, n) && Room(depth) <= n
    ensures SoundFlow(AddFlows(flow, nodes, depth), n)
    decreases nodes, 1
  {
    hide SoundFlow;
    if nodes != [] {
      FlowIsSound(flow, nodes[0], depth, n);
      FlowsAreSound(AddFlow(flow, nodes[0], depth), nodes[1..], depth, n);
    }
  }

  lemma {:induction false} BlocksAreSound(nodes: seq<FlowNode>, depth: nat, n: nat)
    requires Room(depth) <= n
    ensures SoundBlocks(Blocks(nodes, depth), n)
    decreases nodes, 2
  {
    FlowsAreSound(Flow([], []), nodes, depth, n);
    FlushKeepsSound(AddFlows(Flow([], []), nodes, depth), n);
  }

  lemma {:induction false} FlowIsSound(flow: Flow, node: FlowNode, depth: nat, n: nat)
    requires SoundFlow(flow, n) && Room(depth) <= n
    ensures SoundFlow(AddFlow(flow, node, depth), n)
    decreases node, 0
  {
    hide SoundFlow;
    hide Blocks;
    hide Items;
    hide SplicedItems;
    hide Inlines;
    hide Cells;
    hide Rows;
    hide Joined;
    hide Sound;
    hide SoundBlocks;
    hide SoundCells;
    match node
    case InlineFlow(inline) => LooseIsSound(flow, inline, n);
    case ParagraphNode(content) =>
      InlinesAreSound(content);
      WithKeepsSound(flow, ParagraphBlock(Inlines(content)), n);
    case HeadingNode(level, content) =>
      InlinesAreSound(content);
      WithKeepsSound(flow, HeadingBlock(level, Inlines(content)), n);
    case QuoteNode(kids) =>
      if depth < MAX_DEPTH {
        BlocksAreSound(kids, depth + 1, n - 1);
        WithKeepsSound(flow, QuoteBlock(Blocks(kids, depth + 1)), n);
      } else {
        BlocksAreSound(kids, depth + 1, n);
        SpliceKeepsSound(flow, Blocks(kids, depth + 1), n);
      }
    case CodeBlockNode(fence, texts) => WithKeepsSound(flow, CodeBlock(fence, Joined(texts)), n);
    case HtmlNode(lines) => WithKeepsSound(flow, HtmlBlock(Joined(lines)), n);
    case ListNode(start, items) =>
      if depth < MAX_DEPTH {
        ItemsAreSound(items, depth + 1, n - 1);
        WithKeepsSound(flow, ListBlock(start, Items(items, depth + 1)), n);
      } else {
        ItemsAreSound(items, depth + 1, n);
        SpliceKeepsSound(flow, SplicedItems(items, depth + 1), n);
      }
    case TableNode(head, rows) =>
      CellsAreSound(head.cells);
      RowsAreSound(rows);
      WithKeepsSound(flow, TableBlock(Cells(head.cells), Rows(rows)), n);
    case RuleNode => WithKeepsSound(flow, RuleBlock, n);
  }

  lemma LooseIsSound(flow: Flow, inline: InlineNode, n: nat)
    requires SoundFlow(flow, n)
    ensures SoundFlow(flow.(loose := AddNode(flow.loose, inline, 0)), n)
  {
    hide Sound;
    hide AddNode;
    NodeIsSound(flow.loose, inline, 0, MAX_DEPTH);
  }

  lemma {:induction false} ItemsAreSound(items: seq<ItemNode>, depth: nat, n: nat)
    requires Room(depth) <= n
    ensures forall i | 0 <= i < |Items(items, depth)| :: SoundBlocks(Items(items, depth)[i].blocks, n)
    ensures SoundBlocks(SplicedItems(items, depth), n)
    decreases items, 1
  {
    if items != [] {
      BlocksAreSound(items[0].kids, depth, n);
      ItemsAreSound(items[1..], depth, n);
    }
  }

  /** Every reply's translation nests within the cap, and its links and images go where smelt follows. */
  lemma TranslationIsSound(doc: seq<FlowNode>)
    ensures SoundBlocks(Translation(doc), 16)
  {
    BlocksAreSound(doc, 0, MAX_DEPTH);
  }

  // ----- Words -----

  function CellsWords(cells: seq<seq<Inline>>): string {
    if cells == [] then "" else PlainTexts(cells[0]) + CellsWords(cells[1..])
  }

  function RowsWords(rows: seq<seq<seq<Inline>>>): string {
    if rows == [] then "" else CellsWords(rows[0]) + RowsWords(rows[1..])
  }

  /** The words of blocks, code and HTML included. */
  function BlocksWords(blocks: seq<Block>): string
    decreases blocks, 1
  {
    if blocks == [] then "" else BlockWords(blocks[0]) + BlocksWords(blocks[1..])
  }

  function BlockWords(block: Block): string
    decreases block, 0
  {
    match block
    case ParagraphBlock(content) => PlainTexts(content)
    case PlainBlock(content) => PlainTexts(content)
    case HeadingBlock(_, content) => PlainTexts(content)
    case QuoteBlock(inner) => BlocksWords(inner)
    case ListBlock(_, items) => ItemsWords(items)
    case CodeBlock(_, text) => text
    case TableBlock(head, rows) => CellsWords(head) + RowsWords(rows)
    case RuleBlock => ""
    case HtmlBlock(html) => html
  }

  function ItemsWords(items: seq<ListItem>): string
    decreases items, 1
  {
    if items == [] then "" else BlocksWords(items[0].blocks) + ItemsWords(items[1..])
  }

  function CellNodesWords(cells: seq<CellNode>): string {
    if cells == [] then "" else NodesWords(cells[0].content) + CellNodesWords(cells[1..])
  }

  function RowNodesWords(rows: seq<RowNode>): string {
    if rows == [] then "" else CellNodesWords(rows[0].cells) + RowNodesWords(rows[1..])
  }

  /** The words of a parsed reply. */
  function FlowsWords(nodes: seq<FlowNode>): string
    decreases nodes, 1
  {
    if nodes == [] then "" else FlowWords(nodes[0]) + FlowsWords(nodes[1..])
  }

  function FlowWords(node: FlowNode): string
    decreases node, 0
  {
    match node
    case InlineFlow(inline) => NodeWords(inline)
    case ParagraphNode(content) => NodesWords(content)
    case HeadingNode(_, content) => NodesWords(content)
    case QuoteNode(kids) => FlowsWords(kids)
    case CodeBlockNode(_, texts) => Joined(texts)
    case HtmlNode(lines) => Joined(lines)
    case ListNode(_, items) => ItemNodesWords(items)
    case TableNode(head, rows) => CellNodesWords(head.cells) + RowNodesWords(rows)
    case RuleNode => ""
  }

  function ItemNodesWords(items: seq<ItemNode>): string
    decreases items, 1
  {
    if items == [] then "" else FlowsWords(items[0].kids) + ItemNodesWords(items[1..])
  }

  lemma {:induction false} BlocksWordsConcat(a: seq<Block>, b: seq<Block>)
    ensures BlocksWords(a + b) == BlocksWords(a) + BlocksWords(b)
    decreases |a|
  {
    if a == [] {
      assert a + b == b;
    } else {
      assert (a + b)[1..] == a[1..] + b;
      BlocksWordsConcat(a[1..], b);
      assert BlockWords(a[0]) + (BlocksWords(a[1..]) + BlocksWords(b)) == BlocksWords(a) + BlocksWords(b);
    }
  }

  lemma OneBlockWords(block: Block)
    ensures BlocksWords([block]) == BlockWords(block)
  {
    assert [block][1..] == [];
  }

  /** The words a flow holds so far. */
  function Held(flow: Flow): string {
    BlocksWords(flow.blocks) + PlainTexts(flow.loose)
  }

  lemma FlushKeepsWords(flow: Flow)
    ensures BlocksWords(flow.Flushed()) == Held(flow)
  {
    if flow.loose != [] {
      BlocksWordsConcat(flow.blocks, [PlainBlock(flow.loose)]);
      OneBlockWords(PlainBlock(flow.loose));
    }
  }

  lemma WithKeepsWords(flow: Flow, block: Block)
    ensures Held(flow.With(block)) == Held(flow) + BlockWords(block)
  {
    FlushKeepsWords(flow);
    BlocksWordsConcat(flow.Flushed(), [block]);
    OneBlockWords(block);
  }

  lemma SpliceKeepsWords(flow: Flow, blocks: seq<Block>)
    ensures Held(Flow(flow.Flushed() + blocks, [])) == Held(flow) + BlocksWords(blocks)
  {
    FlushKeepsWords(flow);
    BlocksWordsConcat(flow.Flushed(), blocks);
  }

  lemma InlinesKeepWords(nodes: seq<InlineNode>)
    ensures PlainTexts(Inlines(nodes)) == NodesWords(nodes)
  {
    TranslationKeepsWords([], nodes, 0);
    assert "" + NodesWords(nodes) == NodesWords(nodes);
  }

  lemma {:induction false} CellsKeepWords(cells: seq<CellNode>)
    ensures CellsWords(Cells(cells)) == CellNodesWords(cells)
  {
    if cells != [] {
      InlinesKeepWords(cells[0].content);
      CellsKeepWords(cells[1..]);
    }
  }

  lemma {:induction false} RowsKeepWords(rows: seq<RowNode>)
    ensures RowsWords(Rows(rows)) == RowNodesWords(rows)
  {
    if rows != [] {
      CellsKeepWords(rows[0].cells);
      RowsKeepWords(rows[1..]);
    }
  }

  lemma {:induction false} FlowsKeepWords(flow: Flow, nodes: seq<FlowNode>, depth: nat)
    ensures Held(AddFlows(flow, nodes, depth)) == Held(flow) + FlowsWords(nodes)
    decreases nodes, 1
  {
    if nodes != [] {
      FlowKeepsWords(flow, nodes[0], depth);
      FlowsKeepWords(AddFlow(flow, nodes[0], depth), nodes[1..], depth);
      assert (Held(flow) + FlowWords(nodes[0])) + FlowsWords(nodes[1..]) == Held(flow) + FlowsWords(nodes);
    }
  }

  lemma {:induction false} BlocksKeepWords(nodes: seq<FlowNode>, depth: nat)
    ensures BlocksWords(Blocks(nodes, depth)) == FlowsWords(nodes)
    decreases nodes, 2
  {
    FlowsKeepWords(Flow([], []), nodes, depth);
    FlushKeepsWords(AddFlows(Flow([], []), nodes, depth));
    assert "" + FlowsWords(nodes) == FlowsWords(nodes);
  }

  lemma {:induction false} FlowKeepsWords(flow: Flow, node: FlowNode, depth: nat)
    ensures Held(AddFlow(flow, node, depth)) == Held(flow) + FlowWords(node)
    decreases node, 0
  {
    hide PlainTexts;
    hide BlocksWords;
    hide ItemsWords;
    hide CellsWords;
    hide RowsWords;
    hide FlowsWords;
    hide ItemNodesWords;
    hide CellNodesWords;
    hide RowNodesWords;
    hide NodesWords;
    hide NodeWords;
    hide AddNode;
    hide Blocks;
    hide Items;
    hide SplicedItems;
    hide Inlines;
    hide Cells;
    hide Rows;
    hide Joined;
    hide Held;
    hide AddFlows;
    match node
    case InlineFlow(inline) => LooseKeepsWords(flow, inline);
    case ParagraphNode(content) =>
      InlinesKeepWords(content);
      WithKeepsWords(flow, ParagraphBlock(Inlines(content)));
    case HeadingNode(level, content) =>
      InlinesKeepWords(content);
      WithKeepsWords(flow, HeadingBlock(level, Inlines(content)));
    case QuoteNode(kids) =>
      BlocksKeepWords(kids, depth + 1);
      WithKeepsWords(flow, QuoteBlock(Blocks(kids, depth + 1)));
      SpliceKeepsWords(flow, Blocks(kids, depth + 1));
    case CodeBlockNode(fence, texts) => WithKeepsWords(flow, CodeBlock(fence, Joined(texts)));
    case HtmlNode(lines) => WithKeepsWords(flow, HtmlBlock(Joined(lines)));
    case ListNode(start, items) =>
      ItemsKeepWords(items, depth + 1);
      WithKeepsWords(flow, ListBlock(start, Items(items, depth + 1)));
      SpliceKeepsWords(flow, SplicedItems(items, depth + 1));
    case TableNode(head, rows) =>
      CellsKeepWords(head.cells);
      RowsKeepWords(rows);
      WithKeepsWords(flow, TableBlock(Cells(head.cells), Rows(rows)));
    case RuleNode => WithKeepsWords(flow, RuleBlock);
  }

  lemma LooseKeepsWords(flow: Flow, inline: InlineNode)
    ensures Held(flow.(loose := AddNode(flow.loose, inline, 0))) == Held(flow) + NodeWords(inline)
  {
    hide BlocksWords;
    hide PlainTexts;
    hide AddNode;
    hide NodeWords;
    NodeKeepsWords(flow.loose, inline, 0);
    Assoc(BlocksWords(flow.blocks), PlainTexts(flow.loose), NodeWords(inline));
  }

  lemma {:induction false} ItemsKeepWords(items: seq<ItemNode>, depth: nat)
    ensures ItemsWords(Items(items, depth)) == ItemNodesWords(items)
    ensures BlocksWords(SplicedItems(items, depth)) == ItemNodesWords(items)
    decreases items, 1
  {
    if items != [] {
      var blocks := Blocks(items[0].kids, depth);
      BlocksKeepWords(items[0].kids, depth);
      ItemsKeepWords(items[1..], depth);
      BlocksWordsConcat(blocks, SplicedItems(items[1..], depth));
      var item := ListItem(FlowsMark(items[0].kids, depth), blocks);
      assert Items(items, depth)[1..] == Items(items[1..], depth) && Items(items, depth)[0] == item;
    }
  }

  /** A reply's translation has the reply's words, in order, however deep it nests and whatever it refuses. */
  lemma TranslationLosesNoWords(doc: seq<FlowNode>)
    ensures BlocksWords(Translation(doc)) == FlowsWords(doc)
  {
    BlocksKeepWords(doc, 0);
  }
}

/**
 What a reply's markdown means (`src/markdown.rs`): the trees a CommonMark parser walks, the events it
 emits walking them, and their translation, by recursion, into the tree smelt shows.

 The content model is CommonMark's, loosened: containers of blocks hold blocks and inlines in any mix
 (a tight list item's text comes without a paragraph), leaf blocks hold inlines, code blocks hold text.
 */
module MarkdownTranslation {
  import opened Wrappers
  import opened Markdown

  // ----- What the parser walks -----

  datatype SpanKind = StyleSpan(style: Style) | LinkSpan(linkType: LinkType, dest: string)

  datatype InlineNode =
    | TextNode(text: string, html: bool)
    | CodeNode(text: string)
    | SoftNode
    | HardNode
    | TaskNode(checked: bool)
    | SpanNode(kind: SpanKind, kids: seq<InlineNode>)
    | ImageNode(dest: string, kids: seq<InlineNode>)

  datatype FlowNode =
    | InlineFlow(node: InlineNode)
    | ParagraphNode(content: seq<InlineNode>)
    | HeadingNode(level: nat, content: seq<InlineNode>)
    | QuoteNode(kids: seq<FlowNode>)
    | CodeBlockNode(fence: Fence, texts: seq<string>)
    | HtmlNode(lines: seq<string>)
    | ListNode(start: Option<nat>, items: seq<ItemNode>)
    | TableNode(head: RowNode, rows: seq<RowNode>)
    | RuleNode

  datatype ItemNode = ItemNode(kids: seq<FlowNode>)

  datatype RowNode = RowNode(cells: seq<CellNode>)

  datatype CellNode = CellNode(content: seq<InlineNode>)

  // ----- The events of a walk -----

  function SpanTag(kind: SpanKind): (tag: Tag)
    ensures IsSpan(tag)
  {
    match kind
    case StyleSpan(style) => StyleTag(style)
    case LinkSpan(linkType, dest) => LinkTag(linkType, dest)
  }

  function Bracket(tag: Tag, inner: seq<Event>): seq<Event> {
    [Start(tag)] + inner + [End(tag)]
  }

  function InlineEvents(node: InlineNode): seq<Event>
    decreases node, 0
  {
    match node
    case TextNode(t, html) => [if html then HtmlWords(t) else Words(t)]
    case CodeNode(t) => [CodeWords(t)]
    case SoftNode => [SoftBreakEvent]
    case HardNode => [HardBreakEvent]
    case TaskNode(checked) => [TaskMarker(checked)]
    case SpanNode(kind, kids) => Bracket(SpanTag(kind), InlinesEvents(kids))
    case ImageNode(dest, kids) => Bracket(ImageTag(dest), InlinesEvents(kids))
  }

  function InlinesEvents(nodes: seq<InlineNode>): seq<Event>
    decreases nodes, 1
  {
    if nodes == [] then [] else InlineEvents(nodes[0]) + InlinesEvents(nodes[1..])
  }

  function WordsEvents(texts: seq<string>): seq<Event> {
    if texts == [] then [] else [Words(texts[0])] + WordsEvents(texts[1..])
  }

  function HtmlEvents(lines: seq<string>): seq<Event> {
    if lines == [] then [] else [HtmlWords(lines[0])] + HtmlEvents(lines[1..])
  }

  function CellsEvents(cells: seq<CellNode>): seq<Event> {
    if cells == [] then [] else Bracket(CellTag, InlinesEvents(cells[0].content)) + CellsEvents(cells[1..])
  }

  function RowsEvents(rows: seq<RowNode>): seq<Event> {
    if rows == [] then [] else Bracket(RowTag, CellsEvents(rows[0].cells)) + RowsEvents(rows[1..])
  }

  function FlowEvents(node: FlowNode): seq<Event>
    decreases node, 0
  {
    match node
    case InlineFlow(inline) => InlineEvents(inline)
    case ParagraphNode(content) => Bracket(ParagraphTag, InlinesEvents(content))
    case HeadingNode(level, content) => Bracket(HeadingTag(level), InlinesEvents(content))
    case QuoteNode(kids) => Bracket(QuoteTag, FlowsEvents(kids))
    case CodeBlockNode(fence, texts) => Bracket(CodeTag(fence), WordsEvents(texts))
    case HtmlNode(lines) => Bracket(HtmlTag, HtmlEvents(lines))
    case ListNode(start, items) => Bracket(ListTag(start), ItemsEvents(items))
    case TableNode(head, rows) => Bracket(TableTag, Bracket(HeadTag, CellsEvents(head.cells)) + RowsEvents(rows))
    case RuleNode => [RuleEvent]
  }

  function FlowsEvents(nodes: seq<FlowNode>): seq<Event>
    decreases nodes, 1
  {
    if nodes == [] then [] else FlowEvents(nodes[0]) + FlowsEvents(nodes[1..])
  }

  function ItemsEvents(items: seq<ItemNode>): seq<Event>
    decreases items, 1
  {
    if items == [] then [] else Bracket(ItemTag, FlowsEvents(items[0].kids)) + ItemsEvents(items[1..])
  }

  // ----- Words -----

  /** An inline's words, without formatting; a line break is a space. */
  function NodeWords(node: InlineNode): string
    decreases node, 0
  {
    match node
    case TextNode(t, _) => t
    case CodeNode(t) => t
    case SoftNode => " "
    case HardNode => " "
    case TaskNode(_) => ""
    case SpanNode(_, kids) => NodesWords(kids)
    case ImageNode(_, kids) => NodesWords(kids)
  }

  function NodesWords(nodes: seq<InlineNode>): string
    decreases nodes, 1
  {
    if nodes == [] then "" else NodeWords(nodes[0]) + NodesWords(nodes[1..])
  }

  // ----- The translation of inlines -----

  /** A span as it shows, or `None` for a refused link, which its content replaces. */
  function Shown(kind: SpanKind, content: seq<Inline>): Option<Inline> {
    match kind
    case StyleSpan(style) => Some(Styled(style, content))
    case LinkSpan(linkType, dest) =>
      match LinkUrl(linkType, dest)
      case Some(url) => Some(Link(url, content))
      case None => None
  }

  /** `acc` with a node added that `d` spans enclose. */
  function AddNode(acc: seq<Inline>, node: InlineNode, d: nat): seq<Inline>
    decreases node, 0
  {
    match node
    case TextNode(t, _) => PushInline(acc, Text(t))
    case CodeNode(t) => acc + [CodeSpan(t)]
    case SoftNode => acc + [SoftBreak]
    case HardNode => acc + [HardBreak]
    case TaskNode(_) => acc
    case SpanNode(kind, kids) =>
      if d < MAX_DEPTH && Shown(kind, []).Some? then acc + [Shown(kind, AddNodes([], kids, d + 1)).value]
      else AddNodes(acc, kids, d + 1)
    case ImageNode(dest, kids) =>
      match ImageUrl(dest)
      case Some(url) => acc + [Image(url, NodesWords(kids))]
      case None => PushInline(acc, Text(NodesWords(kids)))
  }

  function AddNodes(acc: seq<Inline>, nodes: seq<InlineNode>, d: nat): seq<Inline>
    decreases nodes, 1
  {
    if nodes == [] then acc else AddNodes(AddNode(acc, nodes[0], d), nodes[1..], d)
  }

  function Inlines(nodes: seq<InlineNode>): seq<Inline> {
    AddNodes([], nodes, 0)
  }

  // ----- Task markers -----

  /** The last task marker among nodes. */
  function NodeMark(node: InlineNode): Option<bool>
    decreases node, 0
  {
    match node
    case TaskNode(checked) => Some(checked)
    case SpanNode(_, kids) => NodesMark(kids)
    case ImageNode(_, kids) => NodesMark(kids)
    case _ => None
  }

  function NodesMark(nodes: seq<InlineNode>): Option<bool>
    decreases nodes, 1
  {
    if nodes == [] then None else NodesMark(nodes[1..]).Or(NodeMark(nodes[0]))
  }

  function CellsMark(cells: seq<CellNode>): Option<bool> {
    if cells == [] then None else CellsMark(cells[1..]).Or(NodesMark(cells[0].content))
  }

  function RowsMark(rows: seq<RowNode>): Option<bool> {
    if rows == [] then None else RowsMark(rows[1..]).Or(CellsMark(rows[0].cells))
  }

  /** The last task marker in a block that its own items don't keep, `depth` quotes and lists enclosing it. */
  function FlowMark(node: FlowNode, depth: nat): Option<bool>
    decreases node, 0
  {
    match node
    case InlineFlow(inline) => NodeMark(inline)
    case ParagraphNode(content) => NodesMark(content)
    case HeadingNode(_, content) => NodesMark(content)
    case QuoteNode(kids) => FlowsMark(kids, depth + 1)
    case ListNode(_, items) => if depth < MAX_DEPTH then None else ItemsMark(items, depth + 1)
    case TableNode(head, rows) => RowsMark(rows).Or(CellsMark(head.cells))
    case _ => None
  }

  function FlowsMark(nodes: seq<FlowNode>, depth: nat): Option<bool>
    decreases nodes, 1
  {
    if nodes == [] then None else FlowsMark(nodes[1..], depth).Or(FlowMark(nodes[0], depth))
  }

  function ItemsMark(items: seq<ItemNode>, depth: nat): Option<bool>
    decreases items, 1
  {
    if items == [] then None else ItemsMark(items[1..], depth).Or(FlowsMark(items[0].kids, depth))
  }

  // ----- The translation of blocks -----

  /** Blocks so far, and the inlines after them that no block holds yet. */
  datatype Flow = Flow(blocks: seq<Block>, loose: seq<Inline>) {
    function Flushed(): seq<Block> {
      if loose == [] then blocks else blocks + [PlainBlock(loose)]
    }

    function With(block: Block): Flow {
      Flow(Flushed() + [block], [])
    }
  }

  function Joined(texts: seq<string>): string {
    if texts == [] then "" else texts[0] + Joined(texts[1..])
  }

  function Cells(cells: seq<CellNode>): seq<seq<Inline>> {
    if cells == [] then [] else [Inlines(cells[0].content)] + Cells(cells[1..])
  }

  function Rows(rows: seq<RowNode>): seq<seq<seq<Inline>>> {
    if rows == [] then [] else [Cells(rows[0].cells)] + Rows(rows[1..])
  }

  /** `flow` with a node added that `depth` quotes and lists enclose; past the cap, its blocks in its place. */
  function AddFlow(flow: Flow, node: FlowNode, depth: nat): Flow
    decreases node, 0
  {
    match node
    case InlineFlow(inline) => flow.(loose := AddNode(flow.loose, inline, 0))
    case ParagraphNode(content) => flow.With(ParagraphBlock(Inlines(content)))
    case HeadingNode(level, content) => flow.With(HeadingBlock(level, Inlines(content)))
    case QuoteNode(kids) =>
      if depth < MAX_DEPTH then flow.With(QuoteBlock(Blocks(kids, depth + 1)))
      else Flow(flow.Flushed() + Blocks(kids, depth + 1), [])
    case CodeBlockNode(fence, texts) => flow.With(CodeBlock(fence, Joined(texts)))
    case HtmlNode(lines) => flow.With(HtmlBlock(Joined(lines)))
    case ListNode(start, items) =>
      if depth < MAX_DEPTH then flow.With(ListBlock(start, Items(items, depth + 1)))
      else Flow(flow.Flushed() + SplicedItems(items, depth + 1), [])
    case TableNode(head, rows) => flow.With(TableBlock(Cells(head.cells), Rows(rows)))
    case RuleNode => flow.With(RuleBlock)
  }

  function AddFlows(flow: Flow, nodes: seq<FlowNode>, depth: nat): Flow
    decreases nodes, 1
  {
    if nodes == [] then flow else AddFlows(AddFlow(flow, nodes[0], depth), nodes[1..], depth)
  }

  function Blocks(nodes: seq<FlowNode>, depth: nat): seq<Block>
    decreases nodes, 2
  {
    AddFlows(Flow([], []), nodes, depth).Flushed()
  }

  function Items(items: seq<ItemNode>, depth: nat): seq<ListItem>
    decreases items, 1
  {
    if items == [] then []
    else [ListItem(FlowsMark(items[0].kids, depth), Blocks(items[0].kids, depth))] + Items(items[1..], depth)
  }

  function SplicedItems(items: seq<ItemNode>, depth: nat): seq<Block>
    decreases items, 1
  {
    if items == [] then [] else Blocks(items[0].kids, depth) + SplicedItems(items[1..], depth)
  }

  /** What a whole reply shows. */
  function Translation(doc: seq<FlowNode>): seq<Block> {
    Blocks(doc, 0)
  }

  // ----- Which replies the stack machine translates -----

  /** Nothing in these nodes shows: only spans of nothing, and task markers. */
  predicate Bare(nodes: seq<InlineNode>)
    decreases nodes, 1
  {
    nodes == [] || (BareNode(nodes[0]) && Bare(nodes[1..]))
  }

  predicate BareNode(node: InlineNode)
    decreases node, 0
  {
    node.TaskNode? || (node.SpanNode? && Bare(node.kids))
  }

  /** The content of an image opened past the cap: every span in it is bare. */
  predicate Flat(nodes: seq<InlineNode>)
    decreases nodes, 1
  {
    nodes == [] || (FlatNode(nodes[0]) && Flat(nodes[1..]))
  }

  predicate FlatNode(node: InlineNode)
    decreases node, 0
  {
    match node
    case SpanNode(_, kids) => Bare(kids)
    case ImageNode(_, kids) => Flat(kids)
    case _ => true
  }

  /** An image inside `MAX_DEPTH` spans holds no span with anything in it. */
  predicate Safe(nodes: seq<InlineNode>, d: nat)
    decreases nodes, 1
  {
    nodes == [] || (SafeNode(nodes[0], d) && Safe(nodes[1..], d))
  }

  predicate SafeNode(node: InlineNode, d: nat)
    decreases node, 0
  {
    match node
    case SpanNode(_, kids) => Safe(kids, d + 1)
    case ImageNode(_, kids) => if d < MAX_DEPTH then Safe(kids, d) else Flat(kids)
    case _ => true
  }

  predicate SafeCells(cells: seq<CellNode>) {
    cells == [] || (Safe(cells[0].content, 0) && SafeCells(cells[1..]))
  }

  predicate SafeRows(rows: seq<RowNode>) {
    rows == [] || (SafeCells(rows[0].cells) && SafeRows(rows[1..]))
  }

  predicate SafeFlow(node: FlowNode)
    decreases node, 0
  {
    match node
    case InlineFlow(inline) => SafeNode(inline, 0)
    case ParagraphNode(content) => Safe(content, 0)
    case HeadingNode(_, content) => Safe(content, 0)
    case QuoteNode(kids) => SafeFlows(kids)
    case ListNode(_, items) => SafeItems(items)
    case TableNode(head, rows) => SafeCells(head.cells) && SafeRows(rows)
    case _ => true
  }

  predicate SafeFlows(nodes: seq<FlowNode>)
    decreases nodes, 1
  {
    nodes == [] || (SafeFlow(nodes[0]) && SafeFlows(nodes[1..]))
  }

  predicate SafeItems(items: seq<ItemNode>)
    decreases items, 1
  {
    items == [] || (SafeFlows(items[0].kids) && SafeItems(items[1..]))
  }
}

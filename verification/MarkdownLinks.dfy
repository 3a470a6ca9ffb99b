/**
 Which links and images a reply shows, where they go and what they say: told from the parser's tree, and proved
 of the translation and of what the builder finishes with.
 */
module MarkdownLinks {
  import opened Sequences
  import opened Strings
  import opened Wrappers
  import opened Markdown
  import opened MarkdownTranslation
  import opened MarkdownProof
  import opened MarkdownBlocks

  // ----- Where a link goes -----

  /** The text before the first colon is one of these, case aside. */
  predicate HasScheme(url: string, schemes: set<string>) {
    exists k | 0 <= k < |url| :: url[k] == ':' && ':' !in url[..k] && ToLower(url[..k]) in schemes
  }

  /** The characters that reorder how the text around them shows. */
  const REORDERING: set<char> := {
    '\U{061C}', '\U{200E}', '\U{200F}', '\U{202A}', '\U{202B}', '\U{202C}', '\U{202D}', '\U{202E}',
    '\U{2066}', '\U{2067}', '\U{2068}', '\U{2069}'
  }

  predicate ShowsInOrder(text: string) {
    forall c | c in text :: c !in REORDERING
  }

  /** An address a mail client sends to as it is written. */
  predicate IsPlainAddress(address: string) {
    ShowsInOrder(address) && forall c | c in address :: c !in {'?', '#', '%', '&', '/'}
  }

  predicate IsMailAddress(dest: string) {
    |dest| >= 7 && ToLower(dest[..7]) == "mailto:"
  }

  /**
   Where a link goes, if smelt follows it: an email address if it is plain, an address in angle brackets if it
   shows in order and is plain after its `mailto:`, and a written link, by its scheme alone.
   */
  predicate GoesTo(linkType: LinkType, dest: string, url: string) {
    match linkType
    case Email => IsPlainAddress(dest) && url == "mailto:" + dest
    case Autolink =>
      if IsMailAddress(dest) then
        ShowsInOrder(dest) && IsPlainAddress(dest[7..]) && url == "mailto:" + dest[7..]
      else ShowsInOrder(dest) && HasScheme(dest, {"http", "https", "mailto"}) && url == dest
    case Written => HasScheme(dest, {"http", "https", "mailto"}) && url == dest
  }

  lemma FirstColon(url: string)
    ensures match SplitOnce(url, ":")
            case Some((scheme, rest)) =>
              |scheme| < |url| && url[|scheme|] == ':' && ':' !in scheme && url[..|scheme|] == scheme
            case None => ':' !in url
  {
    forall k: nat | k < |url| ensures OccursAt(url, ":", k) <==> url[k] == ':' {
      assert url[k..k + 1] == [url[k]];
    }
  }

  lemma OneFirstColon(url: string, a: nat, b: nat)
    requires a < |url| && url[a] == ':' && ':' !in url[..a]
    requires b < |url| && url[b] == ':' && ':' !in url[..b]
    ensures a == b
  {
    NoneBefore(url, a);
    NoneBefore(url, b);
  }

  lemma NoneBefore(url: string, b: nat)
    requires b <= |url| && ':' !in url[..b]
    ensures forall i | 0 <= i < b :: url[i] != ':'
  {
    forall i | 0 <= i < b ensures url[i] != ':' {
      assert url[..b][i] == url[i] && url[i] in url[..b];
    }
  }

  lemma AllowedIsHasScheme(url: string, schemes: seq<string>, names: set<string>)
    requires forall s | s in schemes :: ToLower(s) == s
    requires forall s :: s in schemes <==> s in names
    ensures AllowedUrl(url, schemes) <==> HasScheme(url, names)
  {
    FirstColon(url);
    match SplitOnce(url, ":")
    case None =>
    case Some((scheme, _)) =>
      if AllowedUrl(url, schemes) {
        assert url[|scheme|] == ':' && ToLower(url[..|scheme|]) in names;
      }
      if HasScheme(url, names) {
        var k :| 0 <= k < |url| && url[k] == ':' && ':' !in url[..k] && ToLower(url[..k]) in names;
        OneFirstColon(url, k, |scheme|);
        assert EqIgnoreCase(scheme, ToLower(url[..k])) by { LowerTwice(url[..k]); }
      }
  }

  lemma LowerTwice(s: string)
    ensures ToLower(ToLower(s)) == ToLower(s)
  {
  }

  lemma LinkSchemes()
    ensures forall url :: AllowedUrl(url, LINK_SCHEMES) <==> HasScheme(url, {"http", "https", "mailto"})
    ensures forall url :: AllowedUrl(url, IMAGE_SCHEMES) <==> HasScheme(url, {"http", "https"})
  {
    forall url ensures AllowedUrl(url, LINK_SCHEMES) <==> HasScheme(url, {"http", "https", "mailto"}) {
      AllowedIsHasScheme(url, LINK_SCHEMES, {"http", "https", "mailto"});
    }
    forall url ensures AllowedUrl(url, IMAGE_SCHEMES) <==> HasScheme(url, {"http", "https"}) {
      AllowedIsHasScheme(url, IMAGE_SCHEMES, {"http", "https"});
    }
  }

  lemma BidiIsReordering(text: string)
    ensures HasBidiControl(text) <==> !ShowsInOrder(text)
  {
    forall c: char ensures IsBidiControl(c) <==> c in REORDERING {
      BidiCharIs(c);
    }
  }

  lemma BidiCharIs(c: char)
    ensures IsBidiControl(c) <==> c in REORDERING
  {
    var n := c as int;
    if IsBidiControl(c) {
      assert c in REORDERING;
    }
  }

  lemma MailtoIs(address: string)
    ensures Mailto(address) == if IsPlainAddress(address) then Some("mailto:" + address) else None
  {
    BidiIsReordering(address);
    forall c | c in address ensures IsUrlSyntax(c) <==> c in {'?', '#', '%', '&', '/'} {
    }
  }

  lemma MailtoHasScheme(address: string)
    ensures HasScheme("mailto:" + address, {"http", "https", "mailto"})
  {
    var url := "mailto:" + address;
    assert url[6] == ':' && url[..6] == "mailto" && ToLower("mailto") == "mailto";
  }

  lemma EmailGoes(dest: string)
    ensures LinkUrl(Email, dest) == if IsPlainAddress(dest) then Some("mailto:" + dest) else None
  {
    hide AllowedUrl;
    hide HasScheme;
    hide Mailto;
    hide IsPlainAddress;
    LinkSchemes();
    MailtoIs(dest);
    MailtoHasScheme(dest);
  }

  lemma IsMailAddressIs(dest: string)
    ensures IsMailAddress(dest) <==> |dest| >= 7 && EqIgnoreCase(dest[..7], "mailto:")
  {
    assert ToLower("mailto:") == "mailto:";
  }

  lemma AngleGoes(dest: string)
    ensures LinkUrl(Autolink, dest)
         == if !ShowsInOrder(dest) then None
            else if IsMailAddress(dest) then
              if IsPlainAddress(dest[7..]) then Some("mailto:" + dest[7..]) else None
            else if HasScheme(dest, {"http", "https", "mailto"}) then Some(dest) else None
  {
    hide AllowedUrl;
    hide HasScheme;
    hide Mailto;
    hide IsPlainAddress;
    hide ShowsInOrder;
    hide HasBidiControl;
    hide EqIgnoreCase;
    LinkSchemes();
    BidiIsReordering(dest);
    IsMailAddressIs(dest);
    hide IsMailAddress;
    if IsMailAddress(dest) {
      MailtoIs(dest[7..]);
      MailtoHasScheme(dest[7..]);
    }
  }

  /** The builder follows a link exactly when it goes somewhere, and goes there. */
  lemma LinkGoes(linkType: LinkType, dest: string, url: string)
    ensures LinkUrl(linkType, dest) == Some(url) <==> GoesTo(linkType, dest, url)
  {
    hide AllowedUrl;
    hide HasScheme;
    hide IsPlainAddress;
    hide ShowsInOrder;
    hide IsMailAddress;
    match linkType
    case Email =>
      hide LinkUrl;
      EmailGoes(dest);
    case Autolink =>
      hide LinkUrl;
      AngleGoes(dest);
    case Written => LinkSchemes();
  }

  lemma ImageGoes(dest: string)
    ensures ImageUrl(dest) == if HasScheme(dest, {"http", "https"}) then Some(dest) else None
  {
    LinkSchemes();
  }

  // ----- The links and images of a reply -----

  /** A link with its address and words, an image with its address and alternative text, or a conversation named. */
  datatype Target = LinkTo(url: string, words: string) | ImageAt(url: string, alt: string) | RefTo(id: nat,
      words: string)

  /** What a parsed inline shows: a link within 16 spans and links, and what is in it; an image, and nothing in it. */
  ghost function NodeTargets(node: InlineNode, d: nat): seq<Target>
    decreases node, 0
  {
    match node
    case SpanNode(LinkSpan(linkType, dest), kids) =>
      (if d < 16 && exists url :: GoesTo(linkType, dest, url) then
         var url :| GoesTo(linkType, dest, url);
         [LinkTo(url, NodesWords(kids))]
       else []) + NodesTargets(kids, d + 1)
    case SpanNode(StyleSpan(_), kids) => NodesTargets(kids, d + 1)
    case ImageNode(dest, kids) => if HasScheme(dest, {"http", "https"}) then [ImageAt(dest, NodesWords(kids))] else []
    case _ => []
  }

  ghost function NodesTargets(nodes: seq<InlineNode>, d: nat): seq<Target>
    decreases nodes, 1
  {
    if nodes == [] then [] else NodeTargets(nodes[0], d) + NodesTargets(nodes[1..], d)
  }

  ghost function CellNodesTargets(cells: seq<CellNode>): seq<Target> {
    if cells == [] then [] else NodesTargets(cells[0].content, 0) + CellNodesTargets(cells[1..])
  }

  ghost function RowNodesTargets(rows: seq<RowNode>): seq<Target> {
    if rows == [] then [] else CellNodesTargets(rows[0].cells) + RowNodesTargets(rows[1..])
  }

  ghost function FlowTargets(node: FlowNode): seq<Target>
    decreases node, 0
  {
    match node
    case InlineFlow(inline) => NodeTargets(inline, 0)
    case ParagraphNode(content) => NodesTargets(content, 0)
    case HeadingNode(_, content) => NodesTargets(content, 0)
    case QuoteNode(kids) => FlowsTargets(kids)
    case ListNode(_, items) => ItemNodesTargets(items)
    case TableNode(head, rows) => CellNodesTargets(head.cells) + RowNodesTargets(rows)
    case _ => []
  }

  ghost function FlowsTargets(nodes: seq<FlowNode>): seq<Target>
    decreases nodes, 1
  {
    if nodes == [] then [] else FlowTargets(nodes[0]) + FlowsTargets(nodes[1..])
  }

  ghost function ItemNodesTargets(items: seq<ItemNode>): seq<Target>
    decreases items, 1
  {
    if items == [] then [] else FlowsTargets(items[0].kids) + ItemNodesTargets(items[1..])
  }

  // ----- The links and images of a tree that shows -----

  function InlineTargets(inline: Inline): seq<Target>
    decreases inline, 0
  {
    match inline
    case Styled(_, content) => Targets(content)
    case Link(url, content) => [LinkTo(url, PlainTexts(content))] + Targets(content)
    case Image(url, alt) => [ImageAt(url, alt)]
    case ConversationRef(id, words) => [RefTo(id, words)]
    case _ => []
  }

  function Targets(inlines: seq<Inline>): seq<Target>
    decreases inlines, 1
  {
    if inlines == [] then [] else Targets(inlines[..|inlines| - 1]) + InlineTargets(inlines[|inlines| - 1])
  }

  function CellsTargets(cells: seq<seq<Inline>>): seq<Target> {
    if cells == [] then [] else Targets(cells[0]) + CellsTargets(cells[1..])
  }

  function RowsTargets(rows: seq<seq<seq<Inline>>>): seq<Target> {
    if rows == [] then [] else CellsTargets(rows[0]) + RowsTargets(rows[1..])
  }

  function BlockTargets(block: Block): seq<Target>
    decreases block, 0
  {
    match block
    case ParagraphBlock(content) => Targets(content)
    case PlainBlock(content) => Targets(content)
    case HeadingBlock(_, content) => Targets(content)
    case QuoteBlock(inner) => BlocksTargets(inner)
    case ListBlock(_, items) => ItemsTargets(items)
    case TableBlock(head, rows) => CellsTargets(head) + RowsTargets(rows)
    case _ => []
  }

  function BlocksTargets(blocks: seq<Block>): seq<Target>
    decreases blocks, 1
  {
    if blocks == [] then [] else BlockTargets(blocks[0]) + BlocksTargets(blocks[1..])
  }

  function ItemsTargets(items: seq<ListItem>): seq<Target>
    decreases items, 1
  {
    if items == [] then [] else BlocksTargets(items[0].blocks) + ItemsTargets(items[1..])
  }

  // ----- Inlines -----

  lemma TargetsSnoc(inlines: seq<Inline>, inline: Inline)
    ensures Targets(inlines + [inline]) == Targets(inlines) + InlineTargets(inline)
  {
    assert (inlines + [inline])[..|inlines|] == inlines;
  }

  lemma TargetsPush(acc: seq<Inline>, x: Inline)
    ensures Targets(PushInline(acc, x)) == Targets(acc) + InlineTargets(x)
  {
    hide InlineTargets;
    if x.Text? && acc != [] && acc[|acc| - 1].Text? {
      var front, last := acc[..|acc| - 1], acc[|acc| - 1];
      LastBack(acc);
      TargetsSnoc(front, last);
      TargetsSnoc(front, Text(last.text + x.text));
      TextHasNone(last.text);
      TextHasNone(x.text);
      TextHasNone(last.text + x.text);
      assert Targets(acc) + [] == Targets(acc);
    } else {
      TargetsSnoc(acc, x);
    }
  }

  lemma TextHasNone(text: string)
    ensures InlineTargets(Text(text)) == []
  {
  }

  lemma LinkTargets(linkType: LinkType, dest: string, kids: seq<InlineNode>, d: nat)
    ensures NodeTargets(SpanNode(LinkSpan(linkType, dest), kids), d)
         == (if d < 16 && LinkUrl(linkType, dest).Some? then [LinkTo(LinkUrl(linkType, dest).value, NodesWords(kids))]
             else []) + NodesTargets(kids, d + 1)
  {
    hide GoesTo;
    hide LinkUrl;
    hide NodesTargets;
    hide NodesWords;
    forall url ensures LinkUrl(linkType, dest) == Some(url) <==> GoesTo(linkType, dest, url) {
      LinkGoes(linkType, dest, url);
    }
    if LinkUrl(linkType, dest).Some? {
      assert GoesTo(linkType, dest, LinkUrl(linkType, dest).value);
    }
  }

  lemma ShownTargets(kind: SpanKind, content: seq<Inline>)
    requires Shown(kind, content).Some?
    ensures InlineTargets(Shown(kind, content).value)
         == (match kind
             case StyleSpan(_) => []
             case LinkSpan(linkType, dest) => [LinkTo(LinkUrl(linkType, dest).value, PlainTexts(content))])
            + Targets(content)
  {
    hide LinkUrl;
    hide PlainTexts;
    hide Targets;
    NothingFirst(Targets(content));
  }

  lemma {:induction false} NodesKeepTargets(acc: seq<Inline>, nodes: seq<InlineNode>, d: nat)
    ensures Targets(AddNodes(acc, nodes, d)) == Targets(acc) + NodesTargets(nodes, d)
    decreases nodes, 1
  {
    hide Targets;
    hide AddNode;
    hide NodeTargets;
    if nodes == [] {
      assert Targets(acc) + [] == Targets(acc);
    } else {
      NodeKeepsTargets(acc, nodes[0], d);
      NodesKeepTargets(AddNode(acc, nodes[0], d), nodes[1..], d);
      Assoc(Targets(acc), NodeTargets(nodes[0], d), NodesTargets(nodes[1..], d));
    }
  }

  lemma {:induction false} NodeKeepsTargets(acc: seq<Inline>, node: InlineNode, d: nat)
    ensures Targets(AddNode(acc, node, d)) == Targets(acc) + NodeTargets(node, d)
    decreases node, 0
  {
    hide Targets;
    hide AddNode;
    hide NodeTargets;
    match node
    case SpanNode(kind, kids) => SpanKeepsTargets(acc, kind, kids, d);
    case _ => LeafKeepsTargets(acc, node, d);
  }

  lemma LeafKeepsTargets(acc: seq<Inline>, node: InlineNode, d: nat)
    requires !node.SpanNode?
    ensures Targets(AddNode(acc, node, d)) == Targets(acc) + NodeTargets(node, d)
  {
    hide Targets;
    if node.TaskNode? {
      assert Targets(acc) + [] == Targets(acc);
    } else {
      hide AddNode;
      LeafPushed(acc, node, d);
      TargetsPush(acc, LeafInline(node));
      LeafTargets(node, d);
    }
  }

  lemma LeafTargets(node: InlineNode, d: nat)
    requires !node.SpanNode? && !node.TaskNode?
    ensures InlineTargets(LeafInline(node)) == NodeTargets(node, d)
  {
    hide ImageUrl;
    hide HasScheme;
    hide NodesWords;
    if node.ImageNode? {
      ImageGoes(node.dest);
    }
  }

  lemma SpanTargets(kind: SpanKind, kids: seq<InlineNode>, d: nat)
    ensures NodeTargets(SpanNode(kind, kids), d)
         == (match kind
             case StyleSpan(_) => []
             case LinkSpan(linkType, dest) =>
               if d < 16 && LinkUrl(linkType, dest).Some? then [LinkTo(LinkUrl(linkType, dest).value, NodesWords(kids))]
               else []) + NodesTargets(kids, d + 1)
  {
    hide LinkUrl;
    hide NodesTargets;
    hide NodesWords;
    NothingFirst(NodesTargets(kids, d + 1));
    match kind
    case StyleSpan(_) =>
    case LinkSpan(linkType, dest) => LinkTargets(linkType, dest, kids, d);
  }

  lemma {:induction false} SpanKeepsTargets(acc: seq<Inline>, kind: SpanKind, kids: seq<InlineNode>, d: nat)
    ensures Targets(AddNode(acc, SpanNode(kind, kids), d)) == Targets(acc) + NodeTargets(SpanNode(kind, kids), d)
    decreases kids, 2
  {
    hide Targets;
    hide AddNodes;
    hide NodeTargets;
    hide NodesWords;
    hide PlainTexts;
    hide PlainText;
    hide LinkUrl;
    SpanTargets(kind, kids, d);
    if d < MAX_DEPTH && Shown(kind, []).Some? {
      var content := AddNodes([], kids, d + 1);
      ShownSpan(acc, kind, kids, d);
      TargetsPush(acc, Shown(kind, content).value);
      ShownTargets(kind, content);
      NodesKeepTargets([], kids, d + 1);
      TranslationKeepsWords([], kids, d + 1);
      NothingToShow();
      NothingFirst(NodesTargets(kids, d + 1));
      NothingFirst(NodesWords(kids));
    } else {
      NodesKeepTargets(acc, kids, d + 1);
      NothingFirst(NodesTargets(kids, d + 1));
    }
  }

  lemma NothingToShow()
    ensures Targets([]) == [] && PlainTexts([]) == ""
  {
  }

  // ----- Blocks -----

  lemma InlinesKeepTargets(nodes: seq<InlineNode>)
    ensures Targets(Inlines(nodes)) == NodesTargets(nodes, 0)
  {
    hide Targets;
    hide NodesTargets;
    hide AddNodes;
    NodesKeepTargets([], nodes, 0);
    NothingToShow();
    NothingFirst(NodesTargets(nodes, 0));
  }

  lemma {:induction false} CellsKeepTargets(cells: seq<CellNode>)
    ensures CellsTargets(Cells(cells)) == CellNodesTargets(cells)
  {
    hide Inlines;
    if cells != [] {
      InlinesKeepTargets(cells[0].content);
      CellsKeepTargets(cells[1..]);
      assert Cells(cells)[1..] == Cells(cells[1..]);
    }
  }

  lemma {:induction false} RowsKeepTargets(rows: seq<RowNode>)
    ensures RowsTargets(Rows(rows)) == RowNodesTargets(rows)
  {
    if rows != [] {
      CellsKeepTargets(rows[0].cells);
      RowsKeepTargets(rows[1..]);
      assert Rows(rows)[1..] == Rows(rows[1..]);
    }
  }

  lemma {:induction false} BlocksTargetsConcat(a: seq<Block>, b: seq<Block>)
    ensures BlocksTargets(a + b) == BlocksTargets(a) + BlocksTargets(b)
    decreases |a|
  {
    hide BlockTargets;
    if a == [] {
      assert a + b == b;
      NothingFirst(BlocksTargets(b));
    } else {
      ConcatTail(a, b);
      BlocksTargetsConcat(a[1..], b);
      Assoc(BlockTargets(a[0]), BlocksTargets(a[1..]), BlocksTargets(b));
    }
  }

  lemma OneBlockTargets(block: Block)
    ensures BlocksTargets([block]) == BlockTargets(block)
  {
    hide BlockTargets;
    assert [block][1..] == [] && BlockTargets(block) + [] == BlockTargets(block);
  }

  /** The targets a flow holds so far. */
  function HeldTargets(flow: Flow): seq<Target> {
    BlocksTargets(flow.blocks) + Targets(flow.loose)
  }

  lemma FlushKeepsTargets(flow: Flow)
    ensures BlocksTargets(flow.Flushed()) == HeldTargets(flow)
  {
    hide BlocksTargets;
    if flow.loose != [] {
      BlocksTargetsConcat(flow.blocks, [PlainBlock(flow.loose)]);
      OneBlockTargets(PlainBlock(flow.loose));
    } else {
      assert BlocksTargets(flow.blocks) + [] == BlocksTargets(flow.blocks);
    }
  }

  lemma WithKeepsTargets(flow: Flow, block: Block)
    ensures HeldTargets(flow.With(block)) == HeldTargets(flow) + BlockTargets(block)
  {
    hide BlocksTargets;
    hide BlockTargets;
    FlushKeepsTargets(flow);
    BlocksTargetsConcat(flow.Flushed(), [block]);
    OneBlockTargets(block);
    NothingToShow();
    assert HeldTargets(flow) + BlockTargets(block) + [] == HeldTargets(flow) + BlockTargets(block);
  }

  lemma SpliceKeepsTargets(flow: Flow, blocks: seq<Block>)
    ensures HeldTargets(Flow(flow.Flushed() + blocks, [])) == HeldTargets(flow) + BlocksTargets(blocks)
  {
    hide BlocksTargets;
    FlushKeepsTargets(flow);
    BlocksTargetsConcat(flow.Flushed(), blocks);
    NothingToShow();
    assert HeldTargets(flow) + BlocksTargets(blocks) + [] == HeldTargets(flow) + BlocksTargets(blocks);
  }

  lemma LooseKeepsTargets(flow: Flow, inline: InlineNode)
    ensures HeldTargets(flow.(loose := AddNode(flow.loose, inline, 0))) == HeldTargets(flow) + NodeTargets(inline, 0)
  {
    hide BlocksTargets;
    hide Targets;
    hide AddNode;
    hide NodeTargets;
    NodeKeepsTargets(flow.loose, inline, 0);
    Assoc(BlocksTargets(flow.blocks), Targets(flow.loose), NodeTargets(inline, 0));
  }

  lemma {:induction false} FlowsKeepTargets(flow: Flow, nodes: seq<FlowNode>, depth: nat)
    ensures HeldTargets(AddFlows(flow, nodes, depth)) == HeldTargets(flow) + FlowsTargets(nodes)
    decreases nodes, 1
  {
    hide HeldTargets;
    hide AddFlow;
    hide FlowTargets;
    if nodes == [] {
      assert HeldTargets(flow) + [] == HeldTargets(flow);
    } else {
      FlowKeepsTargets(flow, nodes[0], depth);
      FlowsKeepTargets(AddFlow(flow, nodes[0], depth), nodes[1..], depth);
      Assoc(HeldTargets(flow), FlowTargets(nodes[0]), FlowsTargets(nodes[1..]));
    }
  }

  lemma {:induction false} BlocksKeepTargets(nodes: seq<FlowNode>, depth: nat)
    ensures BlocksTargets(Blocks(nodes, depth)) == FlowsTargets(nodes)
    decreases nodes, 2
  {
    hide FlowsTargets;
    hide AddFlows;
    FlowsKeepTargets(Flow([], []), nodes, depth);
    FlushKeepsTargets(AddFlows(Flow([], []), nodes, depth));
    NothingToShow();
    NothingFirst(FlowsTargets(nodes));
    assert HeldTargets(Flow([], [])) == [];
  }

  lemma {:induction false} FlowKeepsTargets(flow: Flow, node: FlowNode, depth: nat)
    ensures HeldTargets(AddFlow(flow, node, depth)) == HeldTargets(flow) + FlowTargets(node)
    decreases node, 0
  {
    hide HeldTargets;
    hide Targets;
    hide BlocksTargets;
    hide ItemsTargets;
    hide CellsTargets;
    hide RowsTargets;
    hide FlowsTargets;
    hide ItemNodesTargets;
    hide CellNodesTargets;
    hide RowNodesTargets;
    hide NodesTargets;
    hide NodeTargets;
    hide AddNode;
    hide Blocks;
    hide Items;
    hide SplicedItems;
    hide Inlines;
    hide Cells;
    hide Rows;
    hide Joined;
    match node
    case InlineFlow(inline) => LooseKeepsTargets(flow, inline);
    case ParagraphNode(content) =>
      InlinesKeepTargets(content);
      WithKeepsTargets(flow, ParagraphBlock(Inlines(content)));
    case HeadingNode(level, content) =>
      InlinesKeepTargets(content);
      WithKeepsTargets(flow, HeadingBlock(level, Inlines(content)));
    case QuoteNode(kids) =>
      BlocksKeepTargets(kids, depth + 1);
      WithKeepsTargets(flow, QuoteBlock(Blocks(kids, depth + 1)));
      SpliceKeepsTargets(flow, Blocks(kids, depth + 1));
    case CodeBlockNode(fence, texts) => WithKeepsTargets(flow, CodeBlock(fence, Joined(texts)));
    case HtmlNode(lines) => WithKeepsTargets(flow, HtmlBlock(Joined(lines)));
    case ListNode(start, items) =>
      ItemsKeepTargets(items, depth + 1);
      WithKeepsTargets(flow, ListBlock(start, Items(items, depth + 1)));
      SpliceKeepsTargets(flow, SplicedItems(items, depth + 1));
    case TableNode(head, rows) =>
      CellsKeepTargets(head.cells);
      RowsKeepTargets(rows);
      WithKeepsTargets(flow, TableBlock(Cells(head.cells), Rows(rows)));
    case RuleNode => WithKeepsTargets(flow, RuleBlock);
  }

  lemma {:induction false} ItemsKeepTargets(items: seq<ItemNode>, depth: nat)
    ensures ItemsTargets(Items(items, depth)) == ItemNodesTargets(items)
    ensures BlocksTargets(SplicedItems(items, depth)) == ItemNodesTargets(items)
    decreases items, 1
  {
    hide Blocks;
    hide FlowsTargets;
    hide FlowsMark;
    if items != [] {
      var blocks := Blocks(items[0].kids, depth);
      BlocksKeepTargets(items[0].kids, depth);
      ItemsKeepTargets(items[1..], depth);
      BlocksTargetsConcat(blocks, SplicedItems(items[1..], depth));
      var item := ListItem(FlowsMark(items[0].kids, depth), blocks);
      assert Items(items, depth)[1..] == Items(items[1..], depth) && Items(items, depth)[0] == item;
    }
  }

  /**
   A reply shows exactly the links and images of its parsed tree that smelt follows, in order, each with its own
   address and words: a link within 16 spans and links, an image anywhere but in another's alternative text.
   */
  lemma LinksAreTheReplys(doc: seq<FlowNode>)
    ensures BlocksTargets(Translation(doc)) == FlowsTargets(doc)
  {
    BlocksKeepTargets(doc, 0);
  }

  /** So does what the builder finishes with, for every reply its stack follows. */
  lemma BuilderKeepsLinks(doc: seq<FlowNode>)
    requires SafeFlows(doc)
    ensures var end := Run(START, FlowsEvents(doc));
            Rooted(end.stack) && BlocksTargets(Finished(end.stack)) == FlowsTargets(doc)
  {
    hide Run;
    hide Finished;
    hide FlowsEvents;
    hide BlocksTargets;
    hide FlowsTargets;
    hide Translation;
    BuilderTranslates(doc);
    LinksAreTheReplys(doc);
  }
}

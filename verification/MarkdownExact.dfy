/**
 Exactly which replies the builder's stack follows: every end tag pops a container of its own rather
 than an implicit `Plain` if and only if the reply is safe. An image opened inside `MAX_DEPTH` spans is
 why some are not: the stack below it looks like a block's, so text in a flattened span inside it opens
 a `Plain`, which the span's end tag then pops.
 */
module MarkdownExact {
  import opened Wrappers
  import opened Markdown
  import opened MarkdownTranslation
  import opened MarkdownProof
  import opened MarkdownBlocks

  // ----- What every run keeps -----

  /** Start tags less end tags. */
  function Net(es: seq<Event>): int {
    if es == [] then 0
    else (match es[0] case Start(_) => 1 case End(_) => -1 case _ => 0) + Net(es[1..])
  }

  lemma {:induction false} NetConcat(a: seq<Event>, b: seq<Event>)
    ensures Net(a + b) == Net(a) + Net(b)
  {
    if a == [] {
      assert a + b == b;
    } else {
      assert (a + b)[1..] == a[1..] + b;
      NetConcat(a[1..], b);
    }
  }

  lemma NetBracket(tag: Tag, inner: seq<Event>)
    ensures Net(Bracket(tag, inner)) == Net(inner)
  {
    var first, last := [Start(tag)], [End(tag)];
    NetConcat(first + inner, last);
    NetConcat(first, inner);
    assert Net(first) == 1 by { assert first[1..] == []; }
    assert Net(last) == -1 by { assert last[1..] == []; }
  }

  /** The stack an end tag pops from. */
  function PoppedFrom(s: State, tag: Tag): Stack {
    if tag.ItemTag? || IsNesting(tag) then Markdown.ClosePlain(s.stack) else s.stack
  }

  /** An end tag that pops no implicit `Plain`, and not the root. */
  predicate PopsItsOwn(s: State, e: Event) {
    e.End? ==> |PoppedFrom(s, e.tag)| >= 2 && !Top(PoppedFrom(s, e.tag)).OpenPlain?
  }

  /** The frame a start tag pushes. */
  function FrameOf(s: State, tag: Tag): Container {
    Erased(Opened(s.stack, tag, StartStep(s, tag).depth, StartStep(s, tag).inlineDepth))
  }

  /** Every end tag pops a container that a start tag pushed. */
  predicate EndsPopTheirOwn(s: State, es: seq<Event>)
    decreases |es|
  {
    es == [] || (PopsItsOwn(s, es[0]) && EndsPopTheirOwn(Step(s, es[0]), es[1..]))
  }

  lemma PushFrame(stack: Stack, c: Container)
    requires !c.OpenPlain?
    ensures Frames(stack + [c]) == Frames(stack) + [Erased(c)]
  {
    hide Erased;
    assert Below(stack + [c]) == stack;
  }

  /** A start tag pushes its frame, and changes none below. */
  lemma StartCounts(s: State, tag: Tag)
    requires Rooted(s.stack)
    ensures Rooted(StartStep(s, tag).stack) && Frames(StartStep(s, tag).stack) == Frames(s.stack) + [FrameOf(s, tag)]
    ensures NonPlain(StartStep(s, tag).stack) == NonPlain(s.stack) + 1
  {
    hide Rooted;
    hide Frames;
    hide Erased;
    hide Markdown.ClosePlain;
    hide Opened;
    var after := StartStep(s, tag);
    var c := Opened(s.stack, tag, after.depth, after.inlineDepth);
    OpensNoRoot(s.stack, tag, after.depth, after.inlineDepth);
    ClosePlainCounts(s.stack);
    var below := if IsBlock(c) then Markdown.ClosePlain(s.stack) else s.stack;
    PushKeepsRooted(below, c);
    PushFrame(below, c);
  }

  /** An end tag that pops its own takes the last frame, and any other takes none. */
  lemma EndCounts(s: State, tag: Tag)
    requires Rooted(s.stack)
    ensures Rooted(EndStep(s, tag).stack)
    ensures PopsItsOwn(s, End(tag))
            ==> Frames(EndStep(s, tag).stack) + [Erased(Top(PoppedFrom(s, tag)))] == Frames(s.stack)
    ensures !PopsItsOwn(s, End(tag)) ==> Frames(EndStep(s, tag).stack) == Frames(s.stack)
    ensures NonPlain(EndStep(s, tag).stack) == NonPlain(s.stack) - (if PopsItsOwn(s, End(tag)) then 1 else 0)
  {
    hide Rooted;
    hide Markdown.ClosePlain;
    hide PopStep;
    hide Frames;
    hide Erased;
    ClosePlainCounts(s.stack);
    PopCounts(PoppedFrom(s, tag));
  }

  lemma OtherCounts(s: State, e: Event)
    requires Rooted(s.stack) && !e.Start? && !e.End?
    ensures Rooted(Step(s, e).stack) && Frames(Step(s, e).stack) == Frames(s.stack)
  {
    hide Rooted;
    hide Frames;
    hide Markdown.ClosePlain;
    hide AddBlock;
    hide PutInline;
    hide PutText;
    hide SetTask;
    match e
    case Start(_) =>
    case End(_) =>
    case Words(t) => PutTextCounts(s.stack, t);
    case HtmlWords(t) => PutTextCounts(s.stack, t);
    case CodeWords(t) => PutInlineCounts(s.stack, CodeSpan(t));
    case SoftBreakEvent => PutInlineCounts(s.stack, SoftBreak);
    case HardBreakEvent => PutInlineCounts(s.stack, HardBreak);
    case RuleEvent =>
      ClosePlainCounts(s.stack);
      AddBlockCounts(Markdown.ClosePlain(s.stack), RuleBlock);
    case TaskMarker(checked) => SetTaskCounts(s.stack, checked);
  }

  /** No run leaves fewer containers than its tags say, and just as many only when every end tag pops its own. */
  lemma {:induction false} RunCounts(s: State, es: seq<Event>)
    requires Rooted(s.stack)
    ensures Rooted(Run(s, es).stack)
    ensures NonPlain(Run(s, es).stack) >= NonPlain(s.stack) + Net(es)
    ensures NonPlain(Run(s, es).stack) == NonPlain(s.stack) + Net(es) <==> EndsPopTheirOwn(s, es)
    decreases |es|
  {
    hide Rooted;
    hide NonPlain;
    hide Step;
    hide PopsItsOwn;
    if es != [] {
      StepCounts(s, es[0]);
      RunCounts(Step(s, es[0]), es[1..]);
    }
  }

  lemma StepCounts(s: State, e: Event)
    requires Rooted(s.stack)
    ensures Rooted(Step(s, e).stack)
    ensures NonPlain(Step(s, e).stack)
         == NonPlain(s.stack) + (if e.Start? then 1 else if e.End? && PopsItsOwn(s, e) then -1 else 0)
    ensures !e.End? ==> PopsItsOwn(s, e)
  {
    hide Rooted;
    hide Frames;
    hide StartStep;
    hide EndStep;
    hide PoppedFrom;
    match e
    case Start(tag) => StartCounts(s, tag);
    case End(tag) => EndCounts(s, tag);
    case _ => OtherCounts(s, e);
  }

  // ----- A tree's events are balanced -----

  /** The tags open after one more event; `None` when an end tag is not the last open one's. */
  function NowOpen(tags: seq<Tag>, e: Event): Option<seq<Tag>> {
    match e
    case Start(tag) => Some(tags + [tag])
    case End(tag) => if tags != [] && tags[|tags| - 1] == tag then Some(tags[..|tags| - 1]) else None
    case _ => Some(tags)
  }

  /** The tags left open, in order, after events read with `tags` open. */
  function Unclosed(tags: seq<Tag>, es: seq<Event>): Option<seq<Tag>>
    decreases |es|
  {
    if es == [] then Some(tags)
    else
      match Unclosed(tags, es[..|es| - 1])
      case None => None
      case Some(open) => NowOpen(open, es[|es| - 1])
  }

  /** Every end tag closes the start tag last opened, and none is left open. */
  ghost predicate Balanced(es: seq<Event>) {
    forall tags: seq<Tag> :: Unclosed(tags, es) == Some(tags)
  }

  lemma {:induction false} UnclosedConcat(tags: seq<Tag>, a: seq<Event>, b: seq<Event>)
    ensures Unclosed(tags, a + b) == if Unclosed(tags, a).Some? then Unclosed(Unclosed(tags, a).value, b) else None
    decreases |b|
  {
    if b == [] {
      assert a + b == a;
    } else {
      assert (a + b)[..|a + b| - 1] == a + b[..|b| - 1];
      UnclosedConcat(tags, a, b[..|b| - 1]);
    }
  }

  lemma BalancedConcat(a: seq<Event>, b: seq<Event>)
    requires Balanced(a) && Balanced(b)
    ensures Balanced(a + b)
  {
    hide Unclosed;
    forall tags: seq<Tag> ensures Unclosed(tags, a + b) == Some(tags) {
      UnclosedConcat(tags, a, b);
    }
  }

  lemma UnclosedOne(tags: seq<Tag>, e: Event)
    ensures Unclosed(tags, [e]) == NowOpen(tags, e)
  {
    hide NowOpen;
    assert [e][..0] == [];
  }

  lemma BalancedBracket(tag: Tag, inner: seq<Event>)
    requires Balanced(inner)
    ensures Balanced(Bracket(tag, inner))
  {
    hide Unclosed;
    forall tags: seq<Tag> ensures Unclosed(tags, Bracket(tag, inner)) == Some(tags) {
      UnclosedConcat(tags, [Start(tag)] + inner, [End(tag)]);
      UnclosedConcat(tags, [Start(tag)], inner);
      UnclosedOne(tags, Start(tag));
      UnclosedOne(tags + [tag], End(tag));
      assert (tags + [tag])[..|tags|] == tags;
    }
  }

  /** Tags nest, as many end as start, and the count of open spans is as it was. */
  ghost predicate Restores(s: State, es: seq<Event>) {
    Balanced(es) && Net(es) == 0 && Run(s, es).inlineDepth == s.inlineDepth
  }

  lemma BothRestore(s: State, a: seq<Event>, b: seq<Event>)
    requires Restores(s, a) && Restores(Run(s, a), b)
    ensures Restores(s, a + b)
  {
    hide Balanced;
    hide Net;
    hide Run;
    BalancedConcat(a, b);
    NetConcat(a, b);
    RunConcat(s, a, b);
  }

  lemma BracketRestores(s: State, tag: Tag, inner: seq<Event>)
    requires Restores(StartStep(s, tag), inner)
    ensures Restores(s, Bracket(tag, inner))
  {
    hide Balanced;
    hide Net;
    hide Run;
    hide Bracket;
    BalancedBracket(tag, inner);
    NetBracket(tag, inner);
    RunBracket(s, tag, inner);
  }

  lemma OneRestores(s: State, e: Event)
    requires !e.Start? && !e.End?
    ensures Restores(s, [e])
  {
    hide Run;
    hide Balanced;
    RunOne(s, e);
    assert Net([e]) == 0 by { assert [e][1..] == []; }
    OtherKeepsDepths(s, e);
    BalancedOne(e);
  }

  lemma OtherKeepsDepths(s: State, e: Event)
    requires !e.Start? && !e.End?
    ensures Step(s, e).depth == s.depth && Step(s, e).inlineDepth == s.inlineDepth
  {
  }

  lemma BalancedOne(e: Event)
    requires !e.Start? && !e.End?
    ensures Balanced([e])
  {
    hide Unclosed;
    forall tags: seq<Tag> ensures Unclosed(tags, [e]) == Some(tags) {
      UnclosedOne(tags, e);
    }
  }

  lemma {:induction false} InlinesRestore(s: State, nodes: seq<InlineNode>)
    ensures Restores(s, InlinesEvents(nodes))
    decreases nodes, 1
  {
    hide Restores;
    if nodes == [] {
      NothingRestores(s);
    } else {
      InlineRestores(s, nodes[0]);
      InlinesRestore(Run(s, InlineEvents(nodes[0])), nodes[1..]);
      BothRestore(s, InlineEvents(nodes[0]), InlinesEvents(nodes[1..]));
    }
  }

  lemma NothingRestores(s: State)
    ensures Restores(s, [])
  {
  }

  lemma {:induction false} InlineRestores(s: State, node: InlineNode)
    ensures Restores(s, InlineEvents(node))
    decreases node, 0
  {
    hide Restores;
    match node
    case SpanNode(kind, kids) =>
      InlinesRestore(StartStep(s, SpanTag(kind)), kids);
      BracketRestores(s, SpanTag(kind), InlinesEvents(kids));
    case ImageNode(dest, kids) =>
      InlinesRestore(StartStep(s, ImageTag(dest)), kids);
      BracketRestores(s, ImageTag(dest), InlinesEvents(kids));
    case _ => OneRestores(s, InlineEvents(node)[0]);
  }

  lemma {:induction false} WordsRestore(s: State, texts: seq<string>)
    ensures Restores(s, WordsEvents(texts)) && Restores(s, HtmlEvents(texts))
    decreases |texts|
  {
    hide Restores;
    if texts == [] {
      NothingRestores(s);
    } else {
      OneRestores(s, Words(texts[0]));
      OneRestores(s, HtmlWords(texts[0]));
      WordsRestore(Run(s, [Words(texts[0])]), texts[1..]);
      WordsRestore(Run(s, [HtmlWords(texts[0])]), texts[1..]);
      BothRestore(s, [Words(texts[0])], WordsEvents(texts[1..]));
      BothRestore(s, [HtmlWords(texts[0])], HtmlEvents(texts[1..]));
    }
  }

  lemma {:induction false} CellsRestore(s: State, cells: seq<CellNode>)
    ensures Restores(s, CellsEvents(cells))
    decreases |cells|
  {
    hide Restores;
    if cells == [] {
      NothingRestores(s);
    } else {
      var inner := InlinesEvents(cells[0].content);
      InlinesRestore(StartStep(s, CellTag), cells[0].content);
      BracketRestores(s, CellTag, inner);
      CellsRestore(Run(s, Bracket(CellTag, inner)), cells[1..]);
      BothRestore(s, Bracket(CellTag, inner), CellsEvents(cells[1..]));
    }
  }

  lemma RowRestores(s: State, tag: Tag, cells: seq<CellNode>)
    ensures Restores(s, Bracket(tag, CellsEvents(cells)))
  {
    CellsRestore(StartStep(s, tag), cells);
    BracketRestores(s, tag, CellsEvents(cells));
  }

  lemma {:induction false} RowsRestore(s: State, rows: seq<RowNode>)
    ensures Restores(s, RowsEvents(rows))
    decreases |rows|
  {
    hide Restores;
    if rows == [] {
      NothingRestores(s);
    } else {
      var row := Bracket(RowTag, CellsEvents(rows[0].cells));
      RowRestores(s, RowTag, rows[0].cells);
      RowsRestore(Run(s, row), rows[1..]);
      BothRestore(s, row, RowsEvents(rows[1..]));
    }
  }

  lemma {:induction false} FlowsRestore(s: State, nodes: seq<FlowNode>)
    ensures Restores(s, FlowsEvents(nodes))
    decreases nodes, 1
  {
    hide Restores;
    if nodes == [] {
      NothingRestores(s);
    } else {
      FlowRestores(s, nodes[0]);
      FlowsRestore(Run(s, FlowEvents(nodes[0])), nodes[1..]);
      BothRestore(s, FlowEvents(nodes[0]), FlowsEvents(nodes[1..]));
    }
  }

  lemma {:induction false} FlowRestores(s: State, node: FlowNode)
    ensures Restores(s, FlowEvents(node))
    decreases node, 0
  {
    hide Restores;
    hide Bracket;
    match node
    case InlineFlow(inline) => InlineRestores(s, inline);
    case ParagraphNode(content) =>
      InlinesRestore(StartStep(s, ParagraphTag), content);
      BracketRestores(s, ParagraphTag, InlinesEvents(content));
    case HeadingNode(level, content) =>
      InlinesRestore(StartStep(s, HeadingTag(level)), content);
      BracketRestores(s, HeadingTag(level), InlinesEvents(content));
    case QuoteNode(kids) =>
      FlowsRestore(StartStep(s, QuoteTag), kids);
      BracketRestores(s, QuoteTag, FlowsEvents(kids));
    case CodeBlockNode(fence, texts) =>
      WordsRestore(StartStep(s, CodeTag(fence)), texts);
      BracketRestores(s, CodeTag(fence), WordsEvents(texts));
    case HtmlNode(lines) =>
      WordsRestore(StartStep(s, HtmlTag), lines);
      BracketRestores(s, HtmlTag, HtmlEvents(lines));
    case ListNode(start, items) =>
      ItemsRestore(StartStep(s, ListTag(start)), items);
      BracketRestores(s, ListTag(start), ItemsEvents(items));
    case TableNode(head, rows) =>
      var inner, first := StartStep(s, TableTag), Bracket(HeadTag, CellsEvents(head.cells));
      RowRestores(inner, HeadTag, head.cells);
      RowsRestore(Run(inner, first), rows);
      BothRestore(inner, first, RowsEvents(rows));
      BracketRestores(s, TableTag, first + RowsEvents(rows));
    case RuleNode => OneRestores(s, RuleEvent);
  }

  lemma {:induction false} ItemsRestore(s: State, items: seq<ItemNode>)
    ensures Restores(s, ItemsEvents(items))
    decreases items, 1
  {
    hide Restores;
    if items == [] {
      NothingRestores(s);
    } else {
      var item := Bracket(ItemTag, FlowsEvents(items[0].kids));
      FlowsRestore(StartStep(s, ItemTag), items[0].kids);
      BracketRestores(s, ItemTag, FlowsEvents(items[0].kids));
      ItemsRestore(Run(s, item), items[1..]);
      BothRestore(s, item, ItemsEvents(items[1..]));
    }
  }

  // ----- An unsafe tree leaves a container behind, on any stack -----

  /** Some end tag in the events popped a `Plain`. */
  predicate Leaves(s: State, es: seq<Event>) {
    NonPlain(Run(s, es).stack) > NonPlain(s.stack)
  }

  lemma FirstLeaves(s: State, a: seq<Event>, b: seq<Event>)
    requires Rooted(s.stack) && Leaves(s, a) && Net(b) == 0
    ensures Leaves(s, a + b)
  {
    hide NonPlain;
    hide Rooted;
    RunConcat(s, a, b);
    RunCounts(s, a);
    RunCounts(Run(s, a), b);
  }

  lemma SecondLeaves(s: State, a: seq<Event>, b: seq<Event>)
    requires Rooted(s.stack) && Restores(s, a) && Leaves(Run(s, a), b)
    ensures Leaves(s, a + b)
  {
    hide NonPlain;
    hide Rooted;
    RunConcat(s, a, b);
    RunCounts(s, a);
  }

  lemma BracketLeaves(s: State, tag: Tag, inner: seq<Event>)
    requires Rooted(s.stack)
    requires Leaves(StartStep(s, tag), inner)
    ensures Leaves(s, Bracket(tag, inner))
  {
    hide NonPlain;
    hide Rooted;
    StartCounts(s, tag);
    RunCounts(StartStep(s, tag), inner);
    RunBracket(s, tag, inner);
    EndCounts(Run(StartStep(s, tag), inner), tag);
  }

  /** A span left with a `Plain` on top pops that instead of itself. */
  lemma PlainOnTopLeaves(s: State, kind: SpanKind, inner: seq<Event>)
    requires Rooted(s.stack) && Net(inner) == 0
    requires var top := Run(StartStep(s, SpanTag(kind)), inner).stack; top != [] && Top(top).OpenPlain?
    ensures Leaves(s, Bracket(SpanTag(kind), inner))
  {
    hide NonPlain;
    hide Rooted;
    StartCounts(s, SpanTag(kind));
    RunCounts(StartStep(s, SpanTag(kind)), inner);
    RunBracket(s, SpanTag(kind), inner);
    EndCounts(Run(StartStep(s, SpanTag(kind)), inner), SpanTag(kind));
  }

  /** Below a flattened span in an image, an inline opens a `Plain`. */
  lemma {:induction false} NeedsPlainInImage(stack: Stack, url: Option<string>, alt: string, k: nat)
    ensures NeedsPlain(Holder(stack, OpenImage(url, alt), k))
    decreases k
  {
    HolderTop(stack, OpenImage(url, alt), k);
    if k > 0 {
      NeedsPlainInImage(stack, url, alt, k - 1);
    }
  }

  /** `loose` inlines in a `Plain` opened over `k` flattened spans in an image. */
  function Spilled(stack: Stack, url: Option<string>, alt: string, k: nat, loose: seq<Inline>): Stack {
    Holder(stack, OpenImage(url, alt), k) + [OpenPlain(loose)]
  }

  lemma PutSpills(stack: Stack, url: Option<string>, alt: string, k: nat, x: Inline)
    requires k > 0
    ensures PutInline(Holder(stack, OpenImage(url, alt), k), x) == Spilled(stack, url, alt, k, PushInline([], x))
    ensures x.Text?
            ==> PutText(Holder(stack, OpenImage(url, alt), k), x.text) == Spilled(stack, url, alt, k, PushInline([], x))
  {
    NeedsPlainInImage(stack, url, alt, k);
    HolderTop(stack, OpenImage(url, alt), k);
  }

  /** A `Plain` that nodes opened holds the nodes after them, until the end tag around them. */
  lemma SpilledHolds(stack: Stack, url: Option<string>, alt: string, k: nat, loose: seq<Inline>,
                     nodes: seq<InlineNode>, depth: nat, d: nat)
    requires Safe(nodes, d)
    ensures var after := Run(State(Spilled(stack, url, alt, k, loose), depth, d), InlinesEvents(nodes)).stack;
            after != [] && Top(after).OpenPlain?
  {
    var below := Holder(stack, OpenImage(url, alt), k);
    HolderTop(below, OpenPlain(loose), 0);
    NodesInHolder(below, OpenPlain(loose), 0, nodes, depth, d);
    HolderTop(Marked(below, NodesMark(nodes)), WithContent(OpenPlain(loose), AddNodes(loose, nodes, d)), 0);
  }

  /** Events after which the stack has more containers than its tags say, or a `Plain` on top. */
  predicate Spills(s: State, es: seq<Event>) {
    Leaves(s, es) || (Run(s, es).stack != [] && Top(Run(s, es).stack).OpenPlain?)
  }

  lemma LeafSpills(stack: Stack, url: Option<string>, alt: string, k: nat, node: InlineNode, depth: nat, d: nat)
    requires k > 0 && !node.SpanNode? && !node.TaskNode? && !node.ImageNode?
    ensures Run(State(Holder(stack, OpenImage(url, alt), k), depth, d), InlineEvents(node))
         == State(Spilled(stack, url, alt, k, PushInline([], LeafInline(node))), depth, d)
  {
    RunOne(State(Holder(stack, OpenImage(url, alt), k), depth, d), InlineEvents(node)[0]);
    PutSpills(stack, url, alt, k, LeafInline(node));
  }

  lemma ImageSpills(stack: Stack, url: Option<string>, alt: string, k: nat, dest: string, kids: seq<InlineNode>,
                    depth: nat, d: nat)
    requires k > 0 && d >= MAX_DEPTH && Flat(kids)
    ensures Run(State(Holder(stack, OpenImage(url, alt), k), depth, d), InlineEvents(ImageNode(dest, kids)))
         == State(Spilled(Marked(stack, NodesMark(kids)), url, alt, k,
                          PushInline([], LeafInline(ImageNode(dest, kids)))), depth, d)
  {
    hide Run;
    hide StartStep;
    hide EndStep;
    hide Close;
    hide Holder;
    hide Marked;
    hide Bracket;
    hide PutInline;
    hide PutText;
    hide Spilled;
    var outer, mark := Holder(stack, OpenImage(url, alt), k), NodesMark(kids);
    RunBracket(State(outer, depth, d), ImageTag(dest), InlinesEvents(kids));
    StartImage(outer, dest, depth, d);
    NodesInImage(outer, ImageUrl(dest), "", kids, depth, d);
    assert "" + NodesWords(kids) == NodesWords(kids);
    MarkedHolder(stack, OpenImage(url, alt), k, mark);
    HolderTop(Marked(stack, mark), OpenImage(url, alt), k);
    EndImage(Marked(outer, mark), OpenImage(ImageUrl(dest), NodesWords(kids)), dest, depth, d);
    CloseImage(Marked(outer, mark), dest, NodesWords(kids));
    PutSpills(Marked(stack, mark), url, alt, k, LeafInline(ImageNode(dest, kids)));
  }

  lemma RestSpills(s: State, first: seq<Event>, rest: seq<InlineNode>)
    requires Rooted(s.stack) && Restores(s, first) && Spills(Run(s, first), InlinesEvents(rest))
    ensures Spills(s, first + InlinesEvents(rest))
  {
    hide NonPlain;
    hide Rooted;
    RunConcat(s, first, InlinesEvents(rest));
    if Leaves(Run(s, first), InlinesEvents(rest)) {
      SecondLeaves(s, first, InlinesEvents(rest));
    }
  }

  /** Content in flattened spans in an image either leaves a container behind or has a `Plain` on top at its end. */
  lemma {:induction false} ContentSpills(stack: Stack, url: Option<string>, alt: string, k: nat,
                                         nodes: seq<InlineNode>, depth: nat, d: nat)
    requires k > 0 && d >= MAX_DEPTH && !Bare(nodes) && Rooted(stack)
    ensures Spills(State(Holder(stack, OpenImage(url, alt), k), depth, d), InlinesEvents(nodes))
    decreases nodes, 3
  {
    hide Run;
    hide NonPlain;
    hide Rooted;
    hide Holder;
    hide Restores;
    hide Leaves;
    hide Spills;
    hide Spilled;
    hide Marked;
    var c, node, rest := OpenImage(url, alt), nodes[0], nodes[1..];
    var s := State(Holder(stack, c, k), depth, d);
    HolderRooted(stack, c, k);
    InlineRestores(s, node);
    InlinesRestore(Run(s, InlineEvents(node)), rest);
    if BareNode(node) {
      BareNodes(Holder(stack, c, k), [node], depth, d);
      OneNode(s, node);
      MarkedHolder(stack, c, k, NodesMark([node]));
      MarkedRooted(stack, NodesMark([node]));
      HolderTop(stack, c, k);
      ContentSpills(Marked(stack, NodesMark([node])), url, alt, k, rest, depth, d);
      RestSpills(s, InlineEvents(node), rest);
    } else {
      ShownContentSpills(stack, url, alt, k, nodes, depth, d);
    }
  }

  lemma OneNode(s: State, node: InlineNode)
    ensures Run(s, InlinesEvents([node])) == Run(s, InlineEvents(node))
    ensures Bare([node]) == BareNode(node)
  {
    assert [node][1..] == [];
    assert InlineEvents(node) + [] == InlineEvents(node);
  }

  lemma HolderRooted(stack: Stack, c: Container, k: nat)
    requires Rooted(stack) && !c.OpenRoot?
    ensures Rooted(Holder(stack, c, k))
    decreases k
  {
    HolderTop(stack, c, k);
    if k > 0 {
      HolderRooted(stack, c, k - 1);
      PushKeepsRooted(Holder(stack, c, k - 1), Transparent(false));
    }
  }

  lemma MarkedRooted(stack: Stack, mark: Option<bool>)
    requires Rooted(stack)
    ensures Rooted(Marked(stack, mark))
  {
    if mark.Some? {
      SetTaskCounts(stack, mark.value);
    }
  }

  /** The same, when the first node shows. */
  lemma {:induction false} ShownContentSpills(stack: Stack, url: Option<string>, alt: string, k: nat,
                                              nodes: seq<InlineNode>, depth: nat, d: nat)
    requires k > 0 && d >= MAX_DEPTH && Rooted(stack) && nodes != [] && !BareNode(nodes[0])
    ensures Spills(State(Holder(stack, OpenImage(url, alt), k), depth, d), InlinesEvents(nodes))
    decreases nodes, 2
  {
    hide Run;
    hide NonPlain;
    hide Rooted;
    hide Holder;
    hide Restores;
    hide Leaves;
    hide Spilled;
    hide Marked;
    hide Bracket;
    hide StartStep;
    var c, node, rest := OpenImage(url, alt), nodes[0], nodes[1..];
    var s := State(Holder(stack, c, k), depth, d);
    HolderRooted(stack, c, k);
    InlineRestores(s, node);
    InlinesRestore(Run(s, InlineEvents(node)), rest);
    if node.SpanNode? {
      FlattenedSpan(stack, c, k, node.kind, depth, d);
      ContentSpills(stack, url, alt, k + 1, node.kids, depth, d + 1);
      SpilledSpanLeaves(s, node.kind, node.kids);
      FirstLeaves(s, InlineEvents(node), InlinesEvents(rest))
          by { NoNet(Run(s, InlineEvents(node)), InlinesEvents(rest)); }
    } else if node.ImageNode? && !Flat(node.kids) {
      UnsafeNodeLeaves(s, node);
      FirstLeaves(s, InlineEvents(node), InlinesEvents(rest))
          by { NoNet(Run(s, InlineEvents(node)), InlinesEvents(rest)); }
    } else {
      var mark := if node.ImageNode? then NodesMark(node.kids) else None;
      if node.ImageNode? {
        ImageSpills(stack, url, alt, k, node.dest, node.kids, depth, d);
      } else {
        LeafSpills(stack, url, alt, k, node, depth, d);
        MarkedNothing(stack);
      }
      RestOfSpilled(s, Marked(stack, mark), url, alt, k, PushInline([], LeafInline(node)), node, rest);
    }
  }

  lemma NoNet(s: State, es: seq<Event>)
    requires Restores(s, es)
    ensures Net(es) == 0
  {
  }

  lemma FlattenedSpan(stack: Stack, c: Container, k: nat, kind: SpanKind, depth: nat, d: nat)
    requires d >= MAX_DEPTH
    ensures StartStep(State(Holder(stack, c, k), depth, d), SpanTag(kind))
            == State(Holder(stack, c, k + 1), depth, d + 1)
  {
    StartSpan(Holder(stack, c, k), kind, depth, d);
    HolderTop(stack, c, k + 1);
  }

  lemma SpilledSpanLeaves(s: State, kind: SpanKind, kids: seq<InlineNode>)
    requires Rooted(s.stack) && Spills(StartStep(s, SpanTag(kind)), InlinesEvents(kids))
    ensures Leaves(s, InlineEvents(SpanNode(kind, kids)))
  {
    hide Run;
    hide NonPlain;
    hide Rooted;
    hide Leaves;
    hide Bracket;
    hide StartStep;
    InlinesRestore(StartStep(s, SpanTag(kind)), kids);
    if Leaves(StartStep(s, SpanTag(kind)), InlinesEvents(kids)) {
      BracketLeaves(s, SpanTag(kind), InlinesEvents(kids));
    } else {
      PlainOnTopLeaves(s, kind, InlinesEvents(kids));
    }
  }

  /** Nodes after one that opened a `Plain` over flattened spans. */
  lemma {:induction false} RestOfSpilled(s: State, stack: Stack, url: Option<string>, alt: string, k: nat,
                                         loose: seq<Inline>,
                                         node: InlineNode, rest: seq<InlineNode>)
    requires Rooted(s.stack)
             && Run(s, InlineEvents(node)) == State(Spilled(stack, url, alt, k, loose), s.depth, s.inlineDepth)
    ensures Spills(s, InlineEvents(node) + InlinesEvents(rest))
    decreases rest, 2
  {
    hide Run;
    hide NonPlain;
    hide Rooted;
    hide Restores;
    hide Leaves;
    hide Spilled;
    var after := Run(s, InlineEvents(node));
    InlineRestores(s, node);
    RunCounts(s, InlineEvents(node));
    if Safe(rest, s.inlineDepth) {
      SpilledHolds(stack, url, alt, k, loose, rest, s.depth, s.inlineDepth);
    } else {
      UnsafeNodesLeave(after, rest);
    }
    RestSpills(s, InlineEvents(node), rest);
  }

  /** Content of an image past the cap that is not flat leaves a container behind. */
  lemma {:induction false} UnflatNodesLeave(stack: Stack, url: Option<string>, alt: string, nodes: seq<InlineNode>,
                                            depth: nat, d: nat)
    requires d >= MAX_DEPTH && !Flat(nodes) && Rooted(stack)
    ensures Leaves(State(stack + [OpenImage(url, alt)], depth, d), InlinesEvents(nodes))
    decreases nodes, 2
  {
    hide Run;
    hide NonPlain;
    hide Rooted;
    hide Restores;
    hide Leaves;
    hide Marked;
    hide Bracket;
    hide StartStep;
    hide Holder;
    var image, node, rest := OpenImage(url, alt), nodes[0], nodes[1..];
    var s := State(stack + [image], depth, d);
    PushKeepsRooted(stack, image) by { assert true; }
    InlineRestores(s, node);
    InlinesRestore(Run(s, InlineEvents(node)), rest);
    if FlatNode(node) {
      NodeInImage(stack, url, alt, node, depth, d);
      MarkedRooted(stack, NodeMark(node));
      UnflatNodesLeave(Marked(stack, NodeMark(node)), url, alt + NodeWords(node), rest, depth, d);
      SecondLeaves(s, InlineEvents(node), InlinesEvents(rest));
    } else {
      if node.SpanNode? {
        HolderTop(stack, image, 0);
        FlattenedSpan(stack, image, 0, node.kind, depth, d);
        ContentSpills(stack, url, alt, 1, node.kids, depth, d + 1);
        SpilledSpanLeaves(s, node.kind, node.kids);
      } else {
        StartImage(stack + [image], node.dest, depth, d);
        UnflatNodesLeave(stack + [image], ImageUrl(node.dest), "", node.kids, depth, d);
        BracketLeaves(s, ImageTag(node.dest), InlinesEvents(node.kids));
      }
      NoNet(Run(s, InlineEvents(node)), InlinesEvents(rest));
      FirstLeaves(s, InlineEvents(node), InlinesEvents(rest));
    }
  }

  lemma {:induction false} UnsafeNodesLeave(s: State, nodes: seq<InlineNode>)
    requires Rooted(s.stack) && !Safe(nodes, s.inlineDepth)
    ensures Leaves(s, InlinesEvents(nodes))
    decreases nodes, 1
  {
    hide Run;
    hide NonPlain;
    hide Rooted;
    hide Leaves;
    var node, rest := nodes[0], nodes[1..];
    var after := Run(s, InlineEvents(node));
    InlineRestores(s, node);
    InlinesRestore(after, rest);
    if SafeNode(node, s.inlineDepth) {
      RunCounts(s, InlineEvents(node));
      UnsafeNodesLeave(after, rest);
      SecondLeaves(s, InlineEvents(node), InlinesEvents(rest));
    } else {
      UnsafeNodeLeaves(s, node);
      FirstLeaves(s, InlineEvents(node), InlinesEvents(rest));
    }
  }

  lemma StartDepth(s: State, tag: Tag)
    ensures StartStep(s, tag).inlineDepth == if IsSpan(tag) then s.inlineDepth + 1 else s.inlineDepth
  {
  }

  lemma {:induction false} UnsafeNodeLeaves(s: State, node: InlineNode)
    requires Rooted(s.stack) && !SafeNode(node, s.inlineDepth)
    ensures Leaves(s, InlineEvents(node))
    decreases node, 0
  {
    hide Run;
    hide NonPlain;
    hide Rooted;
    hide Leaves;
    hide StartStep;
    hide Bracket;
    match node
    case SpanNode(kind, kids) =>
      StartCounts(s, SpanTag(kind));
      StartDepth(s, SpanTag(kind));
      UnsafeNodesLeave(StartStep(s, SpanTag(kind)), kids);
      BracketLeaves(s, SpanTag(kind), InlinesEvents(kids));
    case ImageNode(dest, kids) =>
      StartCounts(s, ImageTag(dest));
      StartDepth(s, ImageTag(dest));
      if s.inlineDepth < MAX_DEPTH {
        UnsafeNodesLeave(StartStep(s, ImageTag(dest)), kids);
      } else {
        StartImage(s.stack, dest, s.depth, s.inlineDepth);
        UnflatNodesLeave(s.stack, ImageUrl(dest), "", kids, s.depth, s.inlineDepth);
      }
      BracketLeaves(s, ImageTag(dest), InlinesEvents(kids));
  }

  // ----- Unsafe blocks -----

  /** Two parts of a tree in a row: what the first leaves behind, or the second does, both leave. */
  lemma EitherLeaves(s: State, a: seq<Event>, b: seq<Event>)
    requires Rooted(s.stack) && Restores(s, a) && Restores(Run(s, a), b)
    requires Leaves(s, a) || Leaves(Run(s, a), b)
    ensures Leaves(s, a + b)
  {
    hide Run;
    hide NonPlain;
    hide Rooted;
    hide Leaves;
    if Leaves(s, a) {
      FirstLeaves(s, a, b);
    } else {
      SecondLeaves(s, a, b);
    }
  }

  lemma {:induction false} UnsafeCellsLeave(s: State, cells: seq<CellNode>)
    requires Rooted(s.stack) && s.inlineDepth == 0 && !SafeCells(cells)
    ensures Leaves(s, CellsEvents(cells))
    decreases |cells|
  {
    hide Run;
    hide NonPlain;
    hide Rooted;
    hide Leaves;
    hide StartStep;
    hide Bracket;
    var content, rest := cells[0].content, cells[1..];
    var cell := Bracket(CellTag, InlinesEvents(content));
    InlinesRestore(StartStep(s, CellTag), content);
    BracketRestores(s, CellTag, InlinesEvents(content));
    CellsRestore(Run(s, cell), rest);
    if !Safe(content, 0) {
      StartCounts(s, CellTag);
      StartDepth(s, CellTag);
      UnsafeNodesLeave(StartStep(s, CellTag), content);
      BracketLeaves(s, CellTag, InlinesEvents(content));
    } else {
      RunCounts(s, cell);
      UnsafeCellsLeave(Run(s, cell), rest);
    }
    EitherLeaves(s, cell, CellsEvents(rest));
  }

  lemma UnsafeRowLeaves(s: State, tag: Tag, cells: seq<CellNode>)
    requires Rooted(s.stack) && s.inlineDepth == 0 && !SafeCells(cells) && !IsSpan(tag)
    ensures Leaves(s, Bracket(tag, CellsEvents(cells)))
  {
    hide Run;
    hide NonPlain;
    hide Rooted;
    hide Leaves;
    hide StartStep;
    hide Bracket;
    StartCounts(s, tag);
    StartDepth(s, tag);
    UnsafeCellsLeave(StartStep(s, tag), cells);
    BracketLeaves(s, tag, CellsEvents(cells));
  }

  lemma {:induction false} UnsafeRowsLeave(s: State, rows: seq<RowNode>)
    requires Rooted(s.stack) && s.inlineDepth == 0 && !SafeRows(rows)
    ensures Leaves(s, RowsEvents(rows))
    decreases |rows|
  {
    hide Run;
    hide NonPlain;
    hide Rooted;
    hide Leaves;
    hide StartStep;
    hide Bracket;
    var row := Bracket(RowTag, CellsEvents(rows[0].cells));
    RowRestores(s, RowTag, rows[0].cells);
    RowsRestore(Run(s, row), rows[1..]);
    if !SafeCells(rows[0].cells) {
      UnsafeRowLeaves(s, RowTag, rows[0].cells);
    } else {
      RunCounts(s, row);
      UnsafeRowsLeave(Run(s, row), rows[1..]);
    }
    EitherLeaves(s, row, RowsEvents(rows[1..]));
  }

  lemma UnsafeTableLeaves(s: State, head: RowNode, rows: seq<RowNode>)
    requires Rooted(s.stack) && s.inlineDepth == 0 && !(SafeCells(head.cells) && SafeRows(rows))
    ensures Leaves(s, FlowEvents(TableNode(head, rows)))
  {
    hide Run;
    hide NonPlain;
    hide Rooted;
    hide Leaves;
    hide StartStep;
    hide Bracket;
    var inner, first := StartStep(s, TableTag), Bracket(HeadTag, CellsEvents(head.cells));
    StartCounts(s, TableTag);
    StartDepth(s, TableTag);
    RowRestores(inner, HeadTag, head.cells);
    RowsRestore(Run(inner, first), rows);
    if !SafeCells(head.cells) {
      UnsafeRowLeaves(inner, HeadTag, head.cells);
    } else {
      RunCounts(inner, first);
      UnsafeRowsLeave(Run(inner, first), rows);
    }
    EitherLeaves(inner, first, RowsEvents(rows));
    BracketLeaves(s, TableTag, first + RowsEvents(rows));
  }

  lemma UnsafeLeafLeaves(s: State, tag: Tag, content: seq<InlineNode>)
    requires Rooted(s.stack) && s.inlineDepth == 0 && !Safe(content, 0) && !IsSpan(tag)
    ensures Leaves(s, Bracket(tag, InlinesEvents(content)))
  {
    hide Run;
    hide NonPlain;
    hide Rooted;
    hide Leaves;
    hide StartStep;
    hide Bracket;
    StartCounts(s, tag);
    StartDepth(s, tag);
    UnsafeNodesLeave(StartStep(s, tag), content);
    BracketLeaves(s, tag, InlinesEvents(content));
  }

  lemma {:induction false} UnsafeFlowsLeave(s: State, nodes: seq<FlowNode>)
    requires Rooted(s.stack) && s.inlineDepth == 0 && !SafeFlows(nodes)
    ensures Leaves(s, FlowsEvents(nodes))
    decreases nodes, 1
  {
    hide Run;
    hide NonPlain;
    hide Rooted;
    hide Leaves;
    hide StartStep;
    hide Bracket;
    var node, rest := nodes[0], nodes[1..];
    var after := Run(s, FlowEvents(node));
    FlowRestores(s, node);
    FlowsRestore(after, rest);
    if !SafeFlow(node) {
      UnsafeFlowLeaves(s, node);
    } else {
      RunCounts(s, FlowEvents(node));
      UnsafeFlowsLeave(after, rest);
    }
    EitherLeaves(s, FlowEvents(node), FlowsEvents(rest));
  }

  lemma {:induction false} UnsafeFlowLeaves(s: State, node: FlowNode)
    requires Rooted(s.stack) && s.inlineDepth == 0 && !SafeFlow(node)
    ensures Leaves(s, FlowEvents(node))
    decreases node, 0
  {
    hide Run;
    hide NonPlain;
    hide Rooted;
    hide Leaves;
    hide StartStep;
    hide Bracket;
    match node
    case InlineFlow(inline) => UnsafeNodeLeaves(s, inline);
    case ParagraphNode(content) => UnsafeLeafLeaves(s, ParagraphTag, content);
    case HeadingNode(level, content) => UnsafeLeafLeaves(s, HeadingTag(level), content);
    case QuoteNode(kids) =>
      StartCounts(s, QuoteTag);
      StartDepth(s, QuoteTag);
      UnsafeFlowsLeave(StartStep(s, QuoteTag), kids);
      BracketLeaves(s, QuoteTag, FlowsEvents(kids));
    case ListNode(start, items) =>
      StartCounts(s, ListTag(start));
      StartDepth(s, ListTag(start));
      UnsafeItemsLeave(StartStep(s, ListTag(start)), items);
      BracketLeaves(s, ListTag(start), ItemsEvents(items));
    case TableNode(head, rows) => UnsafeTableLeaves(s, head, rows);
  }

  lemma {:induction false} UnsafeItemsLeave(s: State, items: seq<ItemNode>)
    requires Rooted(s.stack) && s.inlineDepth == 0 && !SafeItems(items)
    ensures Leaves(s, ItemsEvents(items))
    decreases items, 1
  {
    hide Run;
    hide NonPlain;
    hide Rooted;
    hide Leaves;
    hide StartStep;
    hide Bracket;
    var kids, rest := items[0].kids, items[1..];
    var item, inner := Bracket(ItemTag, FlowsEvents(kids)), StartStep(s, ItemTag);
    FlowsRestore(inner, kids);
    BracketRestores(s, ItemTag, FlowsEvents(kids));
    ItemsRestore(Run(s, item), rest);
    if !SafeFlows(kids) {
      StartCounts(s, ItemTag);
      StartDepth(s, ItemTag);
      UnsafeFlowsLeave(inner, kids);
      BracketLeaves(s, ItemTag, FlowsEvents(kids));
    } else {
      RunCounts(s, item);
      UnsafeItemsLeave(Run(s, item), rest);
    }
    EitherLeaves(s, item, ItemsEvents(rest));
  }

  /**
   Every end tag pops a container its start tag pushed, and the root alone is left (with at most one
   `Plain`), exactly for the safe replies.
   */
  lemma EndsPopTheirOwnExactlyWhenSafe(doc: seq<FlowNode>)
    ensures EndsPopTheirOwn(START, FlowsEvents(doc)) <==> SafeFlows(doc)
    ensures NonPlain(Run(START, FlowsEvents(doc)).stack) == 1 <==> SafeFlows(doc)
  {
    RunCounts(START, FlowsEvents(doc));
    FlowsRestore(START, doc);
    if SafeFlows(doc) {
      BuilderTranslates(doc);
    } else {
      UnsafeFlowsLeave(START, doc);
    }
  }

  // ----- A reply the stack does not follow -----

  /** An image `MAX_DEPTH` spans deep with a span of text in it. */
  function DeepImage(dest: string, words: string, depth: nat): InlineNode
    requires depth <= MAX_DEPTH
    decreases MAX_DEPTH - depth
  {
    if depth == MAX_DEPTH then ImageNode(dest, [SpanNode(StyleSpan(Emphasis), [TextNode(words, false)])])
    else SpanNode(StyleSpan(Emphasis), [DeepImage(dest, words, depth + 1)])
  }

  lemma {:induction false} DeepImageIsUnsafe(dest: string, words: string, depth: nat)
    requires depth <= MAX_DEPTH
    ensures !SafeNode(DeepImage(dest, words, depth), depth)
    decreases MAX_DEPTH - depth
  {
    if depth < MAX_DEPTH {
      DeepImageIsUnsafe(dest, words, depth + 1);
      assert !Safe([DeepImage(dest, words, depth + 1)], depth + 1);
    } else {
      assert !Bare([TextNode(words, false)]);
      assert !Flat([SpanNode(StyleSpan(Emphasis), [TextNode(words, false)])]);
    }
  }

  /** Its text's end tag pops an implicit `Plain`, and a container is left open at the end. */
  lemma DeepImageBreaksTheStack(dest: string, words: string)
    ensures var doc := [ParagraphNode([DeepImage(dest, words, 0)])];
            !EndsPopTheirOwn(START, FlowsEvents(doc)) && NonPlain(Run(START, FlowsEvents(doc)).stack) > 1
  {
    var doc := [ParagraphNode([DeepImage(dest, words, 0)])];
    DeepImageIsUnsafe(dest, words, 0);
    assert !SafeFlow(doc[0]);
    EndsPopTheirOwnExactlyWhenSafe(doc);
    RunCounts(START, FlowsEvents(doc));
    FlowsRestore(START, doc);
  }
}

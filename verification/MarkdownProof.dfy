/**
 The builder's stack machine computes the translation: for every safe reply each end tag pops the
 container its start tag pushed, and finishing gives the reply's translation.
 */
module MarkdownProof {
  import opened Wrappers
  import opened Markdown
  import opened MarkdownTranslation

  // ----- Inline lists -----

  lemma PushTwice(acc: seq<Inline>, a: string, b: string)
    ensures PushInline(PushInline(acc, Text(a)), Text(b)) == PushInline(acc, Text(a + b))
  {
    var once := PushInline(acc, Text(a));
    if acc != [] && acc[|acc| - 1].Text? {
      assert once[..|once| - 1] == acc[..|acc| - 1];
      assert (acc[|acc| - 1].text + a) + b == acc[|acc| - 1].text + (a + b);
    } else {
      assert once[..|once| - 1] == acc;
    }
  }

  lemma PushAllSnoc(acc: seq<Inline>, more: seq<Inline>, x: Inline)
    ensures PushAll(acc, more + [x]) == PushInline(PushAll(acc, more), x)
  {
    assert (more + [x])[..|more|] == more;
  }

  lemma PushAllPush(acc: seq<Inline>, more: seq<Inline>, x: Inline)
    ensures PushAll(acc, PushInline(more, x)) == PushInline(PushAll(acc, more), x)
  {
    if x.Text? && more != [] && more[|more| - 1].Text? {
      var before, last := more[..|more| - 1], more[|more| - 1].text;
      PushAllSnoc(acc, before, Text(last + x.text));
      PushTwice(PushAll(acc, before), last, x.text);
    } else {
      PushAllSnoc(acc, more, x);
    }
  }

  /** Adding nodes to a list and then to another is adding them to both. */
  lemma {:induction false} AddNodesThrough(acc: seq<Inline>, more: seq<Inline>, nodes: seq<InlineNode>, d: nat)
    ensures PushAll(acc, AddNodes(more, nodes, d)) == AddNodes(PushAll(acc, more), nodes, d)
    decreases nodes, 1
  {
    if nodes != [] {
      AddNodeThrough(acc, more, nodes[0], d);
      AddNodesThrough(acc, AddNode(more, nodes[0], d), nodes[1..], d);
    }
  }

  lemma {:induction false} AddNodeThrough(acc: seq<Inline>, more: seq<Inline>, node: InlineNode, d: nat)
    ensures PushAll(acc, AddNode(more, node, d)) == AddNode(PushAll(acc, more), node, d)
    decreases node, 0
  {
    match node
    case SpanNode(kind, kids) =>
      if d < MAX_DEPTH && Shown(kind, []).Some? {
        ShownSpan(more, kind, kids, d);
        ShownSpan(PushAll(acc, more), kind, kids, d);
        PushAllSnoc(acc, more, Shown(kind, AddNodes([], kids, d + 1)).value);
      } else {
        AddNodesThrough(acc, more, kids, d + 1);
      }
    case TaskNode(_) =>
    case _ =>
      PushAllPush(acc, more, LeafInline(node));
      LeafPushed(more, node, d);
      LeafPushed(PushAll(acc, more), node, d);
  }

  /** What a node that is no span and no task marker adds. */
  function LeafInline(node: InlineNode): Inline
    requires !node.SpanNode? && !node.TaskNode?
  {
    match node
    case TextNode(t, _) => Text(t)
    case CodeNode(t) => CodeSpan(t)
    case SoftNode => SoftBreak
    case HardNode => HardBreak
    case ImageNode(dest, kids) =>
      match ImageUrl(dest)
      case Some(url) => Image(url, NodesWords(kids))
      case None => Text(NodesWords(kids))
  }

  lemma LeafPushed(acc: seq<Inline>, node: InlineNode, d: nat)
    requires !node.SpanNode? && !node.TaskNode?
    ensures AddNode(acc, node, d) == PushInline(acc, LeafInline(node))
  {
    hide AddNodes;
    hide ImageUrl;
    hide NodesWords;
  }

  lemma LeafWords(node: InlineNode)
    requires !node.SpanNode? && !node.TaskNode?
    ensures PlainText(LeafInline(node)) == NodeWords(node)
  {
    hide PlainTexts;
    hide ImageUrl;
    hide NodesWords;
  }

  lemma LeafKeepsWords(acc: seq<Inline>, node: InlineNode, d: nat)
    requires !node.SpanNode? && !node.TaskNode?
    ensures PlainTexts(AddNode(acc, node, d)) == PlainTexts(acc) + NodeWords(node)
  {
    hide PlainTexts;
    hide PlainText;
    hide PushInline;
    hide AddNode;
    hide LeafInline;
    hide NodeWords;
    LeafPushed(acc, node, d);
    PlainTextsPush(acc, LeafInline(node));
    LeafWords(node);
  }

  lemma TaskKeepsWords(acc: seq<Inline>, checked: bool, d: nat)
    ensures PlainTexts(AddNode(acc, TaskNode(checked), d)) == PlainTexts(acc) + NodeWords(TaskNode(checked))
  {
    hide PlainTexts;
    assert PlainTexts(acc) + "" == PlainTexts(acc);
  }

  /** A span that shows is pushed whole. */
  lemma ShownSpan(acc: seq<Inline>, kind: SpanKind, kids: seq<InlineNode>, d: nat)
    requires d < MAX_DEPTH && Shown(kind, []).Some?
    ensures var content := AddNodes([], kids, d + 1);
            && Shown(kind, content).Some? && !Shown(kind, content).value.Text?
            && AddNode(acc, SpanNode(kind, kids), d) == PushInline(acc, Shown(kind, content).value)
            && PlainText(Shown(kind, content).value) == PlainTexts(content)
  {
    hide Shown;
    hide PlainText;
    hide PlainTexts;
    hide AddNode;
    hide AddNodes;
    ShownAs(kind, AddNodes([], kids, d + 1));
    AddShown(acc, kind, kids, d);
  }

  lemma ShownAs(kind: SpanKind, content: seq<Inline>)
    requires Shown(kind, []).Some?
    ensures Shown(kind, content).Some? && !Shown(kind, content).value.Text?
    ensures PlainText(Shown(kind, content).value) == PlainTexts(content)
  {
    hide LinkUrl;
    hide PlainTexts;
  }

  lemma AddShown(acc: seq<Inline>, kind: SpanKind, kids: seq<InlineNode>, d: nat)
    requires d < MAX_DEPTH && Shown(kind, []).Some?
    ensures Shown(kind, AddNodes([], kids, d + 1)).Some?
    ensures AddNode(acc, SpanNode(kind, kids), d) == acc + [Shown(kind, AddNodes([], kids, d + 1)).value]
  {
    hide Shown;
    hide AddNodes;
    hide PlainText;
    hide PlainTexts;
    ShownAs(kind, AddNodes([], kids, d + 1));
  }

  /** A refused link's content, pushed into its parent, is its nodes translated there. */
  lemma RefusedContent(acc: seq<Inline>, nodes: seq<InlineNode>, d: nat)
    ensures PushAll(acc, AddNodes([], nodes, d)) == AddNodes(acc, nodes, d)
  {
    AddNodesThrough(acc, [], nodes, d);
  }

  lemma PlainTextsPush(acc: seq<Inline>, x: Inline)
    ensures PlainTexts(PushInline(acc, x)) == PlainTexts(acc) + PlainText(x)
  {
    var after := PushInline(acc, x);
    if x.Text? && acc != [] && acc[|acc| - 1].Text? {
      assert after[..|after| - 1] == acc[..|acc| - 1];
      assert PlainTexts(acc[..|acc| - 1]) + (acc[|acc| - 1].text + x.text) == PlainTexts(acc) + x.text;
    } else {
      assert after[..|after| - 1] == acc;
    }
  }

  /** Translating nodes keeps their words, in order. */
  lemma {:induction false} TranslationKeepsWords(acc: seq<Inline>, nodes: seq<InlineNode>, d: nat)
    ensures PlainTexts(AddNodes(acc, nodes, d)) == PlainTexts(acc) + NodesWords(nodes)
    decreases nodes, 1
  {
    if nodes != [] {
      NodeKeepsWords(acc, nodes[0], d);
      TranslationKeepsWords(AddNode(acc, nodes[0], d), nodes[1..], d);
      assert (PlainTexts(acc) + NodeWords(nodes[0])) + NodesWords(nodes[1..]) == PlainTexts(acc) + NodesWords(nodes);
    }
  }

  lemma {:induction false} NodeKeepsWords(acc: seq<Inline>, node: InlineNode, d: nat)
    ensures PlainTexts(AddNode(acc, node, d)) == PlainTexts(acc) + NodeWords(node)
    decreases node, 0
  {
    hide PlainTexts;
    hide AddNode;
    hide NodeWords;
    match node
    case SpanNode(kind, kids) => SpanKeepsWords(acc, kind, kids, d);
    case TaskNode(checked) => TaskKeepsWords(acc, checked, d);
    case _ => LeafKeepsWords(acc, node, d);
  }

  lemma {:induction false} SpanKeepsWords(acc: seq<Inline>, kind: SpanKind, kids: seq<InlineNode>, d: nat)
    ensures PlainTexts(AddNode(acc, SpanNode(kind, kids), d)) == PlainTexts(acc) + NodeWords(SpanNode(kind, kids))
    decreases kids, 2
  {
    hide PlainTexts;
    hide PlainText;
    hide PushInline;
    hide AddNodes;
    hide NodesWords;
    hide Shown;
    if d < MAX_DEPTH && Shown(kind, []).Some? {
      var content := AddNodes([], kids, d + 1);
      ShownSpan(acc, kind, kids, d);
      PlainTextsPush(acc, Shown(kind, content).value);
      TranslationKeepsWords([], kids, d + 1);
      NoWords();
      assert "" + NodesWords(kids) == NodesWords(kids);
    } else {
      TranslationKeepsWords(acc, kids, d + 1);
    }
  }

  lemma NoWords()
    ensures PlainTexts([]) == ""
  {
  }

  lemma {:induction false} AddNodesGrows(acc: seq<Inline>, nodes: seq<InlineNode>, d: nat)
    requires acc != []
    ensures AddNodes(acc, nodes, d) != []
    decreases nodes
  {
    if nodes != [] {
      if nodes[0].SpanNode? {
        AddNodesGrows(acc, nodes[0].kids, d + 1);
      }
      AddNodesGrows(AddNode(acc, nodes[0], d), nodes[1..], d);
    }
  }

  // ----- Task marks -----

  function Marked(stack: Stack, mark: Option<bool>): (after: Stack)
    ensures |after| == |stack|
  {
    if mark.None? then stack else SetTask(stack, mark.value)
  }

  lemma MarkedNothing(stack: Stack)
    ensures Marked(stack, None) == stack
  {
  }

  lemma MarkedUnder(stack: Stack, c: Container, mark: Option<bool>)
    requires !c.OpenItem?
    ensures Marked(stack + [c], mark) == Marked(stack, mark) + [c]
  {
    assert (stack + [c])[..|stack|] == stack;
  }

  lemma {:induction false} SetTaskTwice(stack: Stack, a: bool, b: bool)
    ensures SetTask(SetTask(stack, a), b) == SetTask(stack, b)
  {
    if stack != [] && !Top(stack).OpenItem? {
      SetTaskTwice(Below(stack), a, b);
      assert Below(SetTask(stack, a)) == SetTask(Below(stack), a);
    }
  }

  lemma MarkedTwice(stack: Stack, a: Option<bool>, b: Option<bool>)
    ensures Marked(Marked(stack, a), b) == Marked(stack, b.Or(a))
  {
    if a.Some? && b.Some? {
      SetTaskTwice(stack, a.value, b.value);
    }
  }

  // ----- Running brackets -----

  lemma RunNothing(s: State)
    ensures Run(s, []) == s
  {
  }

  lemma RunOne(s: State, e: Event)
    ensures Run(s, [e]) == Step(s, e)
  {
    assert [e][1..] == [];
    assert Run(Step(s, e), []) == Step(s, e);
  }

  lemma RunBracket(s: State, tag: Tag, inner: seq<Event>)
    ensures Run(s, Bracket(tag, inner)) == EndStep(Run(StartStep(s, tag), inner), tag)
  {
    RunConcat(s, [Start(tag)] + inner, [End(tag)]);
    RunConcat(s, [Start(tag)], inner);
    RunOne(s, Start(tag));
    RunOne(Run(StartStep(s, tag), inner), End(tag));
  }

  // ----- Inside a container of inlines -----

  /** `k` transparent containers: flattened spans, or flattened quotes, lists and items. */
  function Clear(block: bool, k: nat): (stack: Stack)
    ensures |stack| == k
  {
    if k == 0 then [] else Clear(block, k - 1) + [Transparent(block)]
  }

  /** A container of inlines with `k` flattened spans open in it. */
  function Holder(stack: Stack, c: Container, k: nat): Stack {
    stack + [c] + Clear(false, k)
  }

  lemma HolderTop(stack: Stack, c: Container, k: nat)
    ensures k == 0 ==> Holder(stack, c, k) == stack + [c]
    ensures k > 0 ==> Holder(stack, c, k) == Holder(stack, c, k - 1) + [Transparent(false)]
    ensures Holder(stack, c, k) != []
  {
  }

  function Pushed(c: Container, x: Inline): (after: Container)
    requires c.HoldsInlines()
    ensures after.HoldsInlines() && after.content == PushInline(c.content, x)
  {
    c.(content := PushInline(c.content, x))
  }

  function WithContent(c: Container, content: seq<Inline>): (after: Container)
    requires c.HoldsInlines()
    ensures after.HoldsInlines() && after.content == content
  {
    c.(content := content)
  }

  lemma {:induction false} HolderTakes(stack: Stack, c: Container, k: nat, x: Inline)
    requires c.HoldsInlines()
    ensures !NeedsPlain(Holder(stack, c, k))
    ensures AddToHolder(Holder(stack, c, k), x) == Holder(stack, Pushed(c, x), k)
    decreases k
  {
    HolderTop(stack, c, k);
    HolderTop(stack, Pushed(c, x), k);
    if k > 0 {
      HolderTakes(stack, c, k - 1, x);
    }
  }

  lemma HolderPut(stack: Stack, c: Container, k: nat, x: Inline)
    requires c.HoldsInlines()
    ensures PutInline(Holder(stack, c, k), x) == Holder(stack, Pushed(c, x), k)
  {
    HolderTop(stack, c, k);
    HolderTakes(stack, c, k, x);
  }

  lemma {:induction false} HolderPuts(stack: Stack, c: Container, k: nat, xs: seq<Inline>)
    requires c.HoldsInlines()
    ensures PutInlines(Holder(stack, c, k), xs) == Holder(stack, WithContent(c, PushAll(c.content, xs)), k)
    decreases |xs|
  {
    if xs == [] {
      assert WithContent(c, c.content) == c;
    } else {
      var before := xs[..|xs| - 1];
      HolderPuts(stack, c, k, before);
      HolderPut(stack, WithContent(c, PushAll(c.content, before)), k, xs[|xs| - 1]);
    }
  }

  lemma HolderPutText(stack: Stack, c: Container, k: nat, t: string)
    requires c.HoldsInlines()
    ensures PutText(Holder(stack, c, k), t) == Holder(stack, Pushed(c, Text(t)), k)
  {
    HolderTop(stack, c, k);
    HolderPut(stack, c, k, Text(t));
  }

  lemma {:induction false} MarkedHolder(stack: Stack, c: Container, k: nat, mark: Option<bool>)
    requires !c.OpenItem?
    ensures Marked(Holder(stack, c, k), mark) == Holder(Marked(stack, mark), c, k)
    decreases k
  {
    HolderTop(stack, c, k);
    HolderTop(Marked(stack, mark), c, k);
    if k == 0 {
      MarkedUnder(stack, c, mark);
    } else {
      MarkedHolder(stack, c, k - 1, mark);
      MarkedUnder(Holder(stack, c, k - 1), Transparent(false), mark);
    }
  }

  /** What a span opens within the cap. */
  function OpenedSpan(kind: SpanKind): (c: Container)
    ensures c.HoldsInlines() && c.content == []
  {
    match kind
    case StyleSpan(style) => OpenStyled(style, [])
    case LinkSpan(linkType, dest) => OpenLink(LinkUrl(linkType, dest), [])
  }

  lemma StartSpan(stack: Stack, kind: SpanKind, depth: nat, d: nat)
    ensures StartStep(State(stack, depth, d), SpanTag(kind))
         == State(stack + [if d < MAX_DEPTH then OpenedSpan(kind) else Transparent(false)], depth, d + 1)
  {
  }

  lemma EndSpan(stack: Stack, c: Container, kind: SpanKind, depth: nat, d: nat)
    requires stack != []
    ensures EndStep(State(stack + [c], depth, d + 1), SpanTag(kind)) == State(Close(stack, c), depth, d)
  {
    assert Below(stack + [c]) == stack;
  }

  /** What closing a span does: what shows is put in place, a refused link's content one by one. */
  lemma CloseSpan(stack: Stack, kind: SpanKind, content: seq<Inline>)
    ensures Close(stack, WithContent(OpenedSpan(kind), content))
         == match Shown(kind, content)
            case Some(inline) => PutInline(stack, inline)
            case None => PutInlines(stack, content)
  {
    hide PutInline;
    hide PutInlines;
    hide LinkUrl;
  }

  /** A kept span closed into a container of inlines. */
  lemma CloseSpanInHolder(stack: Stack, c: Container, k: nat, kind: SpanKind, kids: seq<InlineNode>, d: nat)
    requires c.HoldsInlines() && d < MAX_DEPTH
    ensures Close(Holder(stack, c, k), WithContent(OpenedSpan(kind), AddNodes([], kids, d + 1)))
         == Holder(stack, WithContent(c, AddNode(c.content, SpanNode(kind, kids), d)), k)
  {
    hide Holder;
    hide Close;
    hide PutInline;
    hide PutInlines;
    var content := AddNodes([], kids, d + 1);
    CloseSpan(Holder(stack, c, k), kind, content);
    if Shown(kind, content).Some? {
      ShownSpan(c.content, kind, kids, d);
      HolderPut(stack, c, k, Shown(kind, content).value);
      assert Pushed(c, Shown(kind, content).value) == WithContent(c, AddNode(c.content, SpanNode(kind, kids), d));
    } else {
      HolderPuts(stack, c, k, content);
      RefusedContent(c.content, kids, d + 1);
    }
  }

  lemma CloseImage(stack: Stack, dest: string, words: string)
    ensures Close(stack, OpenImage(ImageUrl(dest), words))
         == match ImageUrl(dest)
            case Some(url) => PutInline(stack, Image(url, words))
            case None => PutText(stack, words)
  {
  }

  /** A closed image put into a container of inlines. */
  lemma CloseImageInHolder(stack: Stack, c: Container, k: nat, dest: string, kids: seq<InlineNode>, d: nat)
    requires c.HoldsInlines()
    ensures Close(Holder(stack, c, k), OpenImage(ImageUrl(dest), NodesWords(kids)))
         == Holder(stack, WithContent(c, AddNode(c.content, ImageNode(dest, kids), d)), k)
  {
    hide Holder;
    hide Close;
    hide PutInline;
    hide PutText;
    CloseImage(Holder(stack, c, k), dest, NodesWords(kids));
    LeafPushed(c.content, ImageNode(dest, kids), d);
    HolderPut(stack, c, k, LeafInline(ImageNode(dest, kids)));
    if ImageUrl(dest).None? {
      HolderPutText(stack, c, k, NodesWords(kids));
    }
  }

  lemma StartImage(stack: Stack, dest: string, depth: nat, d: nat)
    ensures StartStep(State(stack, depth, d), ImageTag(dest))
            == State(stack + [OpenImage(ImageUrl(dest), "")], depth, d)
  {
  }

  lemma EndImage(stack: Stack, c: Container, dest: string, depth: nat, d: nat)
    requires stack != []
    ensures EndStep(State(stack + [c], depth, d), ImageTag(dest)) == State(Close(stack, c), depth, d)
  {
    assert Below(stack + [c]) == stack;
  }

  /** Nodes in a container of inlines leave their translation in it and their marks below it. */
  lemma {:induction false} NodesInHolder(stack: Stack, c: Container, k: nat, nodes: seq<InlineNode>, depth: nat, d: nat)
    requires c.HoldsInlines() && Safe(nodes, d)
    ensures Run(State(Holder(stack, c, k), depth, d), InlinesEvents(nodes))
         == State(Holder(Marked(stack, NodesMark(nodes)), WithContent(c, AddNodes(c.content, nodes, d)), k), depth, d)
    decreases nodes, 1
  {
    var s := State(Holder(stack, c, k), depth, d);
    if nodes == [] {
      assert WithContent(c, c.content) == c;
    } else {
      RunConcat(s, InlineEvents(nodes[0]), InlinesEvents(nodes[1..]));
      NodeInHolder(stack, c, k, nodes[0], depth, d);
      NodesInHolder(Marked(stack, NodeMark(nodes[0])), WithContent(c, AddNode(c.content, nodes[0], d)), k, nodes[1..],
                    depth, d);
      MarkedTwice(stack, NodeMark(nodes[0]), NodesMark(nodes[1..]));
    }
  }

  lemma {:induction false} NodeInHolder(stack: Stack, c: Container, k: nat, node: InlineNode, depth: nat, d: nat)
    requires c.HoldsInlines() && SafeNode(node, d)
    ensures Run(State(Holder(stack, c, k), depth, d), InlineEvents(node))
         == State(Holder(Marked(stack, NodeMark(node)), WithContent(c, AddNode(c.content, node, d)), k), depth, d)
    decreases node, 0
  {
    match node
    case SpanNode(kind, kids) => SpanInHolder(stack, c, k, kind, kids, depth, d);
    case ImageNode(dest, kids) => ImageInHolder(stack, c, k, dest, kids, depth, d);
    case _ => LeafInHolder(stack, c, k, node, depth, d);
  }

  lemma LeafInHolder(stack: Stack, c: Container, k: nat, node: InlineNode, depth: nat, d: nat)
    requires c.HoldsInlines() && !node.SpanNode? && !node.ImageNode?
    ensures Run(State(Holder(stack, c, k), depth, d), InlineEvents(node))
         == State(Holder(Marked(stack, NodeMark(node)), WithContent(c, AddNode(c.content, node, d)), k), depth, d)
  {
    hide Run;
    hide Holder;
    hide SetTask;
    hide PutInline;
    hide PutText;
    RunOne(State(Holder(stack, c, k), depth, d), InlineEvents(node)[0]);
    match node
    case TextNode(t, _) => HolderPutText(stack, c, k, t);
    case CodeNode(t) => HolderPut(stack, c, k, CodeSpan(t));
    case SoftNode => HolderPut(stack, c, k, SoftBreak);
    case HardNode => HolderPut(stack, c, k, HardBreak);
    case TaskNode(checked) =>
      MarkedHolder(stack, c, k, Some(checked));
      assert WithContent(c, c.content) == c;
  }

  lemma CloseClear(stack: Stack, block: bool)
    ensures Close(stack, Transparent(block)) == stack
  {
  }

  lemma {:induction false} SpanInHolder(stack: Stack, c: Container, k: nat, kind: SpanKind, kids: seq<InlineNode>,
                                        depth: nat, d: nat)
    requires c.HoldsInlines() && Safe(kids, d + 1)
    ensures Run(State(Holder(stack, c, k), depth, d), InlineEvents(SpanNode(kind, kids)))
         == State(Holder(Marked(stack, NodesMark(kids)),
                         WithContent(c, AddNode(c.content, SpanNode(kind, kids), d)), k), depth, d)
    decreases kids, 2
  {
    hide Run;
    hide StartStep;
    hide EndStep;
    hide Close;
    hide Holder;
    hide Marked;
    hide Bracket;
    var outer, mark := Holder(stack, c, k), NodesMark(kids);
    HolderTop(stack, c, k);
    HolderTop(Marked(stack, mark), c, k);
    RunBracket(State(outer, depth, d), SpanTag(kind), InlinesEvents(kids));
    StartSpan(outer, kind, depth, d);
    if d < MAX_DEPTH {
      var span := OpenedSpan(kind);
      HolderTop(outer, span, 0);
      NodesInHolder(outer, span, 0, kids, depth, d + 1);
      MarkedHolder(stack, c, k, mark);
      var closed := WithContent(span, AddNodes([], kids, d + 1));
      HolderTop(Marked(outer, mark), closed, 0);
      EndSpan(Marked(outer, mark), closed, kind, depth, d);
      CloseSpanInHolder(Marked(stack, mark), c, k, kind, kids, d);
    } else {
      HolderTop(stack, c, k + 1);
      NodesInHolder(stack, c, k + 1, kids, depth, d + 1);
      var inner := Holder(Marked(stack, mark), WithContent(c, AddNodes(c.content, kids, d + 1)), k);
      HolderTop(Marked(stack, mark), WithContent(c, AddNodes(c.content, kids, d + 1)), k + 1);
      HolderTop(Marked(stack, mark), WithContent(c, AddNodes(c.content, kids, d + 1)), k);
      EndSpan(inner, Transparent(false), kind, depth, d);
      CloseClear(inner, false);
    }
  }

  lemma {:induction false} ImageInHolder(stack: Stack, c: Container, k: nat, dest: string, kids: seq<InlineNode>,
                                         depth: nat, d: nat)
    requires c.HoldsInlines() && (if d < MAX_DEPTH then Safe(kids, d) else Flat(kids))
    ensures Run(State(Holder(stack, c, k), depth, d), InlineEvents(ImageNode(dest, kids)))
         == State(Holder(Marked(stack, NodesMark(kids)),
                         WithContent(c, AddNode(c.content, ImageNode(dest, kids), d)), k), depth, d)
    decreases kids, 2
  {
    hide Run;
    hide StartStep;
    hide EndStep;
    hide Close;
    hide Holder;
    hide Marked;
    hide Bracket;
    var outer, mark := Holder(stack, c, k), NodesMark(kids);
    HolderTop(stack, c, k);
    HolderTop(Marked(stack, mark), c, k);
    RunBracket(State(outer, depth, d), ImageTag(dest), InlinesEvents(kids));
    StartImage(outer, dest, depth, d);
    NodesInImage(outer, ImageUrl(dest), "", kids, depth, d);
    assert "" + NodesWords(kids) == NodesWords(kids);
    MarkedHolder(stack, c, k, mark);
    EndImage(Marked(outer, mark), OpenImage(ImageUrl(dest), NodesWords(kids)), dest, depth, d);
    CloseImageInHolder(Marked(stack, mark), c, k, dest, kids, d);
  }

  // ----- Inside an image -----

  /** Nodes in an image leave their words in its alt text. */
  lemma {:induction false} NodesInImage(stack: Stack, url: Option<string>, alt: string, nodes: seq<InlineNode>,
                                        depth: nat, d: nat)
    requires if d < MAX_DEPTH then Safe(nodes, d) else Flat(nodes)
    ensures Run(State(stack + [OpenImage(url, alt)], depth, d), InlinesEvents(nodes))
         == State(Marked(stack, NodesMark(nodes)) + [OpenImage(url, alt + NodesWords(nodes))], depth, d)
    decreases nodes, 1
  {
    var s := State(stack + [OpenImage(url, alt)], depth, d);
    hide Run;
    hide NodeMark;
    hide NodeWords;
    hide Marked;
    hide InlineEvents;
    if nodes == [] {
      RunNothing(s);
      assert alt + "" == alt;
      MarkedNothing(stack);
    } else {
      RunConcat(s, InlineEvents(nodes[0]), InlinesEvents(nodes[1..]));
      NodeInImage(stack, url, alt, nodes[0], depth, d);
      NodesInImage(Marked(stack, NodeMark(nodes[0])), url, alt + NodeWords(nodes[0]), nodes[1..], depth, d);
      MarkedTwice(stack, NodeMark(nodes[0]), NodesMark(nodes[1..]));
      assert (alt + NodeWords(nodes[0])) + NodesWords(nodes[1..]) == alt + NodesWords(nodes);
    }
  }

  lemma PutInImage(stack: Stack, url: Option<string>, alt: string, x: Inline)
    ensures PutInline(stack + [OpenImage(url, alt)], x) == stack + [OpenImage(url, alt + PlainText(x))]
  {
    assert Below(stack + [OpenImage(url, alt)]) == stack;
  }

  lemma {:induction false} PutsInImage(stack: Stack, url: Option<string>, alt: string, xs: seq<Inline>)
    ensures PutInlines(stack + [OpenImage(url, alt)], xs) == stack + [OpenImage(url, alt + PlainTexts(xs))]
  {
    if xs == [] {
      assert alt + "" == alt;
    } else {
      var before, last := xs[..|xs| - 1], xs[|xs| - 1];
      PutsInImage(stack, url, alt, before);
      PutInImage(stack, url, alt + PlainTexts(before), last);
      assert (alt + PlainTexts(before)) + PlainText(last) == alt + PlainTexts(xs);
    }
  }

  lemma CloseSpanInImage(stack: Stack, url: Option<string>, alt: string, kind: SpanKind, kids: seq<InlineNode>, d: nat)
    ensures Close(stack + [OpenImage(url, alt)], WithContent(OpenedSpan(kind), AddNodes([], kids, d)))
         == stack + [OpenImage(url, alt + NodesWords(kids))]
  {
    hide Close;
    hide PutInline;
    hide PutInlines;
    var content := AddNodes([], kids, d);
    TranslationKeepsWords([], kids, d);
    assert PlainTexts(content) == NodesWords(kids);
    CloseSpan(stack + [OpenImage(url, alt)], kind, content);
    match Shown(kind, content)
    case Some(inline) => PutInImage(stack, url, alt, inline);
    case None => PutsInImage(stack, url, alt, content);
  }

  lemma LeafInImage(stack: Stack, url: Option<string>, alt: string, node: InlineNode, depth: nat, d: nat)
    requires !node.SpanNode? && !node.ImageNode?
    ensures Run(State(stack + [OpenImage(url, alt)], depth, d), InlineEvents(node))
         == State(Marked(stack, NodeMark(node)) + [OpenImage(url, alt + NodeWords(node))], depth, d)
  {
    hide Run;
    hide SetTask;
    hide PutInline;
    var image := stack + [OpenImage(url, alt)];
    RunOne(State(image, depth, d), InlineEvents(node)[0]);
    match node
    case TextNode(t, _) => assert Below(image) == stack;
    case CodeNode(t) => PutInImage(stack, url, alt, CodeSpan(t));
    case SoftNode => PutInImage(stack, url, alt, SoftBreak);
    case HardNode => PutInImage(stack, url, alt, HardBreak);
    case TaskNode(checked) =>
      MarkedUnder(stack, OpenImage(url, alt), Some(checked));
      assert alt + "" == alt;
  }

  lemma {:induction false} NodeInImage(stack: Stack, url: Option<string>, alt: string, node: InlineNode, depth: nat,
                                       d: nat)
    requires if d < MAX_DEPTH then SafeNode(node, d) else FlatNode(node)
    ensures Run(State(stack + [OpenImage(url, alt)], depth, d), InlineEvents(node))
         == State(Marked(stack, NodeMark(node)) + [OpenImage(url, alt + NodeWords(node))], depth, d)
    decreases node, 0
  {
    match node
    case SpanNode(kind, kids) => SpanInImage(stack, url, alt, kind, kids, depth, d);
    case ImageNode(dest, kids) => ImageInImage(stack, url, alt, dest, kids, depth, d);
    case _ => LeafInImage(stack, url, alt, node, depth, d);
  }

  lemma {:induction false} SpanInImage(stack: Stack, url: Option<string>, alt: string, kind: SpanKind,
                                       kids: seq<InlineNode>, depth: nat, d: nat)
    requires if d < MAX_DEPTH then Safe(kids, d + 1) else Bare(kids)
    ensures Run(State(stack + [OpenImage(url, alt)], depth, d), InlineEvents(SpanNode(kind, kids)))
         == State(Marked(stack, NodesMark(kids)) + [OpenImage(url, alt + NodesWords(kids))], depth, d)
    decreases kids, 3
  {
    if d < MAX_DEPTH {
      KeptSpanInImage(stack, url, alt, kind, kids, depth, d);
    } else {
      BareSpan(stack + [OpenImage(url, alt)], kind, kids, depth, d);
      MarkedUnder(stack, OpenImage(url, alt), NodesMark(kids));
      assert alt + "" == alt;
    }
  }

  lemma {:induction false} KeptSpanInImage(stack: Stack, url: Option<string>, alt: string, kind: SpanKind,
                                           kids: seq<InlineNode>, depth: nat, d: nat)
    requires d < MAX_DEPTH && Safe(kids, d + 1)
    ensures Run(State(stack + [OpenImage(url, alt)], depth, d), InlineEvents(SpanNode(kind, kids)))
         == State(Marked(stack, NodesMark(kids)) + [OpenImage(url, alt + NodesWords(kids))], depth, d)
    decreases kids, 2
  {
    hide Run;
    hide StartStep;
    hide EndStep;
    hide Close;
    hide Marked;
    hide Bracket;
    var outer, mark, span := stack + [OpenImage(url, alt)], NodesMark(kids), OpenedSpan(kind);
    RunBracket(State(outer, depth, d), SpanTag(kind), InlinesEvents(kids));
    StartSpan(outer, kind, depth, d);
    HolderTop(outer, span, 0);
    NodesInHolder(outer, span, 0, kids, depth, d + 1);
    MarkedUnder(stack, OpenImage(url, alt), mark);
    var closed := WithContent(span, AddNodes([], kids, d + 1));
    HolderTop(Marked(outer, mark), closed, 0);
    EndSpan(Marked(outer, mark), closed, kind, depth, d);
    CloseSpanInImage(Marked(stack, mark), url, alt, kind, kids, d + 1);
  }

  lemma CloseImageInImage(stack: Stack, url: Option<string>, alt: string, dest: string, words: string)
    ensures Close(stack + [OpenImage(url, alt)], OpenImage(ImageUrl(dest), words))
            == stack + [OpenImage(url, alt + words)]
  {
    match ImageUrl(dest)
    case Some(to) => PutInImage(stack, url, alt, Image(to, words));
    case None => assert Below(stack + [OpenImage(url, alt)]) == stack;
  }

  lemma {:induction false} ImageInImage(stack: Stack, url: Option<string>, alt: string, dest: string,
                                        kids: seq<InlineNode>, depth: nat, d: nat)
    requires if d < MAX_DEPTH then Safe(kids, d) else Flat(kids)
    ensures Run(State(stack + [OpenImage(url, alt)], depth, d), InlineEvents(ImageNode(dest, kids)))
         == State(Marked(stack, NodesMark(kids)) + [OpenImage(url, alt + NodesWords(kids))], depth, d)
    decreases kids, 2
  {
    hide Run;
    hide StartStep;
    hide EndStep;
    hide Close;
    hide Marked;
    hide Bracket;
    var outer, mark := stack + [OpenImage(url, alt)], NodesMark(kids);
    RunBracket(State(outer, depth, d), ImageTag(dest), InlinesEvents(kids));
    StartImage(outer, dest, depth, d);
    NodesInImage(outer, ImageUrl(dest), "", kids, depth, d);
    assert "" + NodesWords(kids) == NodesWords(kids);
    MarkedUnder(stack, OpenImage(url, alt), mark);
    EndImage(Marked(outer, mark), OpenImage(ImageUrl(dest), NodesWords(kids)), dest, depth, d);
    CloseImageInImage(Marked(stack, mark), url, alt, dest, NodesWords(kids));
  }

  /** Spans of nothing past the cap come and go without a trace but their task marks. */
  lemma {:induction false} BareNodes(stack: Stack, nodes: seq<InlineNode>, depth: nat, d: nat)
    requires Bare(nodes) && d >= MAX_DEPTH && stack != []
    ensures Run(State(stack, depth, d), InlinesEvents(nodes)) == State(Marked(stack, NodesMark(nodes)), depth, d)
    ensures NodesWords(nodes) == ""
    decreases nodes, 1
  {
    hide Run;
    hide InlineEvents;
    hide Marked;
    hide NodeMark;
    hide NodeWords;
    var s := State(stack, depth, d);
    if nodes == [] {
      RunNothing(s);
      MarkedNothing(stack);
    } else {
      var node := nodes[0];
      BareNodeRuns(stack, node, depth, d);
      RunConcat(s, InlineEvents(node), InlinesEvents(nodes[1..]));
      BareNodes(Marked(stack, NodeMark(node)), nodes[1..], depth, d);
      MarkedTwice(stack, NodeMark(node), NodesMark(nodes[1..]));
    }
  }

  lemma {:induction false} BareNodeRuns(stack: Stack, node: InlineNode, depth: nat, d: nat)
    requires BareNode(node) && d >= MAX_DEPTH && stack != []
    ensures Run(State(stack, depth, d), InlineEvents(node)) == State(Marked(stack, NodeMark(node)), depth, d)
    ensures NodeWords(node) == ""
    decreases node, 0
  {
    hide Run;
    hide Bracket;
    hide SetTask;
    hide Bare;
    match node
    case TaskNode(checked) => RunOne(State(stack, depth, d), TaskMarker(checked));
    case SpanNode(kind, kids) => BareSpan(stack, kind, kids, depth, d);
  }

  lemma {:induction false} BareSpan(stack: Stack, kind: SpanKind, kids: seq<InlineNode>, depth: nat, d: nat)
    requires Bare(kids) && d >= MAX_DEPTH && stack != []
    ensures Run(State(stack, depth, d), InlineEvents(SpanNode(kind, kids)))
            == State(Marked(stack, NodesMark(kids)), depth, d)
    ensures NodesWords(kids) == ""
    decreases kids, 2
  {
    hide Run;
    hide StartStep;
    hide EndStep;
    hide Close;
    hide Marked;
    hide Bracket;
    RunBracket(State(stack, depth, d), SpanTag(kind), InlinesEvents(kids));
    StartSpan(stack, kind, depth, d);
    BareNodes(stack + [Transparent(false)], kids, depth, d + 1);
    MarkedUnder(stack, Transparent(false), NodesMark(kids));
    EndSpan(Marked(stack, NodesMark(kids)), Transparent(false), kind, depth, d);
    CloseClear(Marked(stack, NodesMark(kids)), false);
  }
}

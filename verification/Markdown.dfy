/**
 The markdown tree builder (`src/markdown.rs`): the tree a reply is parsed into, the parser events it
 is built from, and the stack machine that builds it.

 The functions say what each builder step does to the stack; `Builder` is the class with the source's
 fields and loops, every method proved to do the same. What the whole machine computes is
 `MarkdownTranslation`'s and `MarkdownProof`'s subject.
 */
module Markdown {
  import opened Wrappers
  import opened Strings

  /** How deep quotes and lists nest, and separately spans and links, before deeper ones are flattened. */
  const MAX_DEPTH: nat := 16

  // ----- The tree -----

  datatype Style = Emphasis | Strong | Strike

  datatype Inline =
    | Text(text: string)
    | CodeSpan(text: string)
    | Styled(style: Style, content: seq<Inline>)
    | Link(url: string, content: seq<Inline>)
    | Image(url: string, alt: string)
    | ConversationRef(id: nat, words: string)
    | SoftBreak
    | HardBreak

  /** `raw` and `atEnd` are what decides whether a fenced block shows as closed. */
  datatype Fence = Fenced(lang: Option<string>, raw: string, atEnd: bool) | Indented

  datatype Block =
    | ParagraphBlock(content: seq<Inline>)
    | PlainBlock(content: seq<Inline>)
    | HeadingBlock(level: nat, content: seq<Inline>)
    | QuoteBlock(blocks: seq<Block>)
    | ListBlock(start: Option<nat>, items: seq<ListItem>)
    | CodeBlock(fence: Fence, text: string)
    | TableBlock(head: seq<seq<Inline>>, rows: seq<seq<seq<Inline>>>)
    | RuleBlock
    | HtmlBlock(html: string)

  datatype ListItem = ListItem(task: Option<bool>, blocks: seq<Block>)

  // ----- Where links and images may point -----

  /** `split_once(':')`'s scheme is one of `schemes`, case aside. */
  predicate AllowedUrl(url: string, schemes: seq<string>) {
    match SplitOnce(url, ":")
    case Some((scheme, _)) => exists s | s in schemes :: EqIgnoreCase(scheme, s)
    case None => false
  }

  const LINK_SCHEMES: seq<string> := ["http", "https", "mailto"]
  const IMAGE_SCHEMES: seq<string> := ["http", "https"]

  predicate IsBidiControl(c: char) {
    var n := c as int;
    n == 0x061C || n == 0x200E || n == 0x200F || 0x202A <= n <= 0x202E || 0x2066 <= n <= 0x2069
  }

  predicate HasBidiControl(text: string) {
    exists c | c in text :: IsBidiControl(c)
  }

  predicate IsUrlSyntax(c: char) {
    c == '?' || c == '#' || c == '%' || c == '&' || c == '/'
  }

  function Mailto(address: string): Option<string> {
    if (exists c | c in address :: IsUrlSyntax(c)) || HasBidiControl(address) then None
    else Some("mailto:" + address)
  }

  datatype LinkType = Email | Autolink | Written

  /** A link's address, or `None` for one smelt won't follow. */
  function LinkUrl(linkType: LinkType, dest: string): (url: Option<string>)
    ensures url.Some? ==> AllowedUrl(url.value, LINK_SCHEMES)
  {
    var url := match linkType
      case Email => Mailto(dest)
      case Autolink =>
        if HasBidiControl(dest) then None
        else if |dest| >= 7 && EqIgnoreCase(dest[..7], "mailto:") then Mailto(dest[7..])
        else Some(dest)
      case Written => Some(dest);
    if url.Some? && AllowedUrl(url.value, LINK_SCHEMES) then url else None
  }

  function ImageUrl(dest: string): (url: Option<string>)
    ensures url.Some? ==> AllowedUrl(url.value, IMAGE_SCHEMES)
  {
    if AllowedUrl(dest, IMAGE_SCHEMES) then Some(dest) else None
  }

  // ----- Parser events -----

  datatype Tag =
    | ParagraphTag
    | HeadingTag(level: nat)
    | QuoteTag
    | CodeTag(fence: Fence)
    | HtmlTag
    | ListTag(start: Option<nat>)
    | ItemTag
    | TableTag
    | HeadTag
    | RowTag
    | CellTag
    | StyleTag(style: Style)
    | LinkTag(linkType: LinkType, dest: string)
    | ImageTag(dest: string)

  /** `Words` is text, inline HTML or math; `HtmlWords` a line of an HTML block. */
  datatype Event =
    | Start(tag: Tag)
    | End(tag: Tag)
    | Words(text: string)
    | HtmlWords(text: string)
    | CodeWords(text: string)
    | SoftBreakEvent
    | HardBreakEvent
    | RuleEvent
    | TaskMarker(checked: bool)

  // ----- The stack -----

  datatype Container =
    | OpenRoot(blocks: seq<Block>)
    | OpenQuote(blocks: seq<Block>)
    | OpenList(start: Option<nat>, items: seq<ListItem>)
    | OpenItem(task: Option<bool>, blocks: seq<Block>)
    | OpenPlain(content: seq<Inline>)
    | OpenParagraph(content: seq<Inline>)
    | OpenHeading(level: nat, content: seq<Inline>)
    | OpenCode(fence: Fence, text: string)
    | OpenHtml(html: string)
    | OpenTable(head: seq<seq<Inline>>, rows: seq<seq<seq<Inline>>>)
    | OpenHead(cells: seq<seq<Inline>>)
    | OpenRow(cells: seq<seq<Inline>>)
    | OpenCell(content: seq<Inline>)
    | OpenStyled(style: Style, content: seq<Inline>)
    | OpenLink(url: Option<string>, content: seq<Inline>)
    | OpenImage(url: Option<string>, alt: string)
    | Transparent(block: bool)
  {
    predicate HoldsBlocks() {
      OpenRoot? || OpenQuote? || OpenItem?
    }

    predicate HoldsInlines() {
      OpenPlain? || OpenParagraph? || OpenHeading? || OpenCell? || OpenStyled? || OpenLink?
    }
  }

  type Stack = seq<Container>

  function Top(stack: Stack): Container
    requires stack != []
  {
    stack[|stack| - 1]
  }

  function Below(stack: Stack): Stack
    requires stack != []
  {
    stack[..|stack| - 1]
  }

  /** An inline's words, without formatting. */
  function PlainText(inline: Inline): string
    decreases inline, 0
  {
    match inline
    case Text(t) => t
    case CodeSpan(t) => t
    case Styled(_, content) => PlainTexts(content)
    case Link(_, content) => PlainTexts(content)
    case Image(_, alt) => alt
    case ConversationRef(_, words) => words
    case SoftBreak => " "
    case HardBreak => " "
  }

  function PlainTexts(inlines: seq<Inline>): string
    decreases inlines, 1
  {
    if inlines == [] then "" else PlainTexts(inlines[..|inlines| - 1]) + PlainText(inlines[|inlines| - 1])
  }

  /** `inlines` with one more; text joins text. */
  function PushInline(inlines: seq<Inline>, inline: Inline): seq<Inline> {
    if inline.Text? && inlines != [] && inlines[|inlines| - 1].Text? then
      inlines[..|inlines| - 1] + [Text(inlines[|inlines| - 1].text + inline.text)]
    else inlines + [inline]
  }

  function PushAll(inlines: seq<Inline>, more: seq<Inline>): seq<Inline> {
    if more == [] then inlines else PushInline(PushAll(inlines, more[..|more| - 1]), more[|more| - 1])
  }

  /** A block added to the innermost container that holds blocks. */
  function AddBlock(stack: Stack, block: Block): (after: Stack)
    ensures |after| == |stack|
  {
    if stack == [] then []
    else if Top(stack).HoldsBlocks() then Below(stack) + [Top(stack).(blocks := Top(stack).blocks + [block])]
    else AddBlock(Below(stack), block) + [Top(stack)]
  }

  function AddBlocks(stack: Stack, blocks: seq<Block>): (after: Stack)
    ensures |after| == |stack|
  {
    if blocks == [] then stack else AddBlock(AddBlocks(stack, blocks[..|blocks| - 1]), blocks[|blocks| - 1])
  }

  function ClosePlain(stack: Stack): Stack {
    if stack != [] && Top(stack).OpenPlain? then AddBlock(Below(stack), PlainBlock(Top(stack).content)) else stack
  }

  /** No container of inlines is open above the innermost block container. */
  predicate NeedsPlain(stack: Stack) {
    if stack == [] then true
    else if Top(stack).HoldsInlines() then false
    else if Top(stack) == Transparent(false) then NeedsPlain(Below(stack))
    else true
  }

  /** An inline added to the innermost container of inlines. */
  function AddToHolder(stack: Stack, inline: Inline): (after: Stack)
    ensures |after| == |stack|
  {
    if stack == [] then []
    else if Top(stack).HoldsInlines() then
      Below(stack) + [Top(stack).(content := PushInline(Top(stack).content, inline))]
    else AddToHolder(Below(stack), inline) + [Top(stack)]
  }

  function PutInline(stack: Stack, inline: Inline): Stack {
    if stack != [] && Top(stack).OpenImage? then
      Below(stack) + [Top(stack).(alt := Top(stack).alt + PlainText(inline))]
    else if !NeedsPlain(stack) then AddToHolder(stack, inline)
    else stack + [OpenPlain(PushInline([], inline))]
  }

  function PutInlines(stack: Stack, inlines: seq<Inline>): Stack {
    if inlines == [] then stack else PutInline(PutInlines(stack, inlines[..|inlines| - 1]), inlines[|inlines| - 1])
  }

  function PutText(stack: Stack, text: string): Stack {
    if stack == [] then PutInline(stack, Text(text))
    else match Top(stack)
      case OpenCode(fence, code) => Below(stack) + [OpenCode(fence, code + text)]
      case OpenHtml(html) => Below(stack) + [OpenHtml(html + text)]
      case OpenImage(url, alt) => Below(stack) + [OpenImage(url, alt + text)]
      case _ => PutInline(stack, Text(text))
  }

  /** The nearest open item's task mark set. */
  function SetTask(stack: Stack, checked: bool): (after: Stack)
    ensures |after| == |stack|
  {
    if stack == [] then []
    else if Top(stack).OpenItem? then Below(stack) + [Top(stack).(task := Some(checked))]
    else SetTask(Below(stack), checked) + [Top(stack)]
  }

  // ----- The builder's steps -----

  /** The stack, how many quotes and lists are open, and how many spans and links. */
  datatype State = State(stack: Stack, depth: nat, inlineDepth: nat)

  const START := State([OpenRoot([])], 0, 0)

  predicate IsSpan(tag: Tag) {
    tag.StyleTag? || tag.LinkTag?
  }

  predicate IsNesting(tag: Tag) {
    tag.QuoteTag? || tag.ListTag?
  }

  /** What a start tag opens, its own depth counted in. */
  function Opened(stack: Stack, tag: Tag, depth: nat, inlineDepth: nat): Container {
    match tag
    case ParagraphTag => OpenParagraph([])
    case HeadingTag(level) => OpenHeading(level, [])
    case QuoteTag => if depth > MAX_DEPTH then Transparent(true) else OpenQuote([])
    case CodeTag(fence) => OpenCode(fence, "")
    case HtmlTag => OpenHtml("")
    case ListTag(start) => if depth > MAX_DEPTH then Transparent(true) else OpenList(start, [])
    case ItemTag => if stack != [] && Top(stack).OpenList? then OpenItem(None, []) else Transparent(true)
    case TableTag => OpenTable([], [])
    case HeadTag => OpenHead([])
    case RowTag => OpenRow([])
    case CellTag => OpenCell([])
    case StyleTag(style) => if inlineDepth > MAX_DEPTH then Transparent(false) else OpenStyled(style, [])
    case LinkTag(linkType, dest) =>
      if inlineDepth > MAX_DEPTH then Transparent(false) else OpenLink(LinkUrl(linkType, dest), [])
    case ImageTag(dest) => OpenImage(ImageUrl(dest), "")
  }

  predicate IsBlock(c: Container) {
    !(c.OpenStyled? || c.OpenLink? || c.OpenImage? || c == Transparent(false) || c.OpenCell? || c.OpenRow?
      || c.OpenHead?)
  }

  function StartStep(s: State, tag: Tag): State {
    var depth := if IsNesting(tag) then s.depth + 1 else s.depth;
    var inlineDepth := if IsSpan(tag) then s.inlineDepth + 1 else s.inlineDepth;
    var container := Opened(s.stack, tag, depth, inlineDepth);
    State((if IsBlock(container) then ClosePlain(s.stack) else s.stack) + [container], depth, inlineDepth)
  }

  /** What closing the popped container does to the stack below it. */
  function Close(stack: Stack, container: Container): Stack {
    match container
    case OpenRoot(blocks) => stack + [OpenRoot(blocks)]
    case OpenQuote(blocks) => AddBlock(stack, QuoteBlock(blocks))
    case OpenList(start, items) => AddBlock(stack, ListBlock(start, items))
    case OpenItem(task, blocks) =>
      if stack != [] && Top(stack).OpenList? then
        Below(stack) + [Top(stack).(items := Top(stack).items + [ListItem(task, blocks)])]
      else AddBlocks(stack, blocks)
    case OpenPlain(content) => AddBlock(stack, PlainBlock(content))
    case OpenParagraph(content) => AddBlock(stack, ParagraphBlock(content))
    case OpenHeading(level, content) => AddBlock(stack, HeadingBlock(level, content))
    case OpenCode(fence, text) => AddBlock(stack, CodeBlock(fence, text))
    case OpenHtml(html) => AddBlock(stack, HtmlBlock(html))
    case OpenTable(head, rows) => AddBlock(stack, TableBlock(head, rows))
    case OpenHead(cells) =>
      if stack != [] && Top(stack).OpenTable? then Below(stack) + [Top(stack).(head := cells)] else stack
    case OpenRow(cells) =>
      if stack != [] && Top(stack).OpenTable? then Below(stack) + [Top(stack).(rows := Top(stack).rows + [cells])]
      else stack
    case OpenCell(content) =>
      if stack != [] && (Top(stack).OpenHead? || Top(stack).OpenRow?) then
        Below(stack) + [Top(stack).(cells := Top(stack).cells + [content])]
      else PutInlines(stack, content)
    case OpenStyled(style, content) => PutInline(stack, Styled(style, content))
    case OpenLink(Some(url), content) => PutInline(stack, Link(url, content))
    case OpenLink(None, content) => PutInlines(stack, content)
    case OpenImage(Some(url), alt) => PutInline(stack, Image(url, alt))
    case OpenImage(None, alt) => PutText(stack, alt)
    case Transparent(_) => stack
  }

  /** The innermost container closed; the root is never popped. */
  function PopStep(stack: Stack): Stack {
    if |stack| < 2 then stack else Close(Below(stack), Top(stack))
  }

  function EndStep(s: State, tag: Tag): State {
    var stack := if tag.ItemTag? || IsNesting(tag) then ClosePlain(s.stack) else s.stack;
    var depth := if IsNesting(tag) && s.depth > 0 then s.depth - 1 else s.depth;
    var inlineDepth := if IsSpan(tag) && s.inlineDepth > 0 then s.inlineDepth - 1 else s.inlineDepth;
    State(PopStep(stack), depth, inlineDepth)
  }

  function Step(s: State, e: Event): State {
    match e
    case Start(tag) => StartStep(s, tag)
    case End(tag) => EndStep(s, tag)
    case Words(t) => s.(stack := PutText(s.stack, t))
    case HtmlWords(t) => s.(stack := PutText(s.stack, t))
    case CodeWords(t) => s.(stack := PutInline(s.stack, CodeSpan(t)))
    case SoftBreakEvent => s.(stack := PutInline(s.stack, SoftBreak))
    case HardBreakEvent => s.(stack := PutInline(s.stack, HardBreak))
    case RuleEvent => s.(stack := AddBlock(ClosePlain(s.stack), RuleBlock))
    case TaskMarker(checked) => s.(stack := SetTask(s.stack, checked))
  }

  function Run(s: State, es: seq<Event>): State
    decreases |es|
  {
    if es == [] then s else Run(Step(s, es[0]), es[1..])
  }

  lemma {:induction false} RunConcat(s: State, a: seq<Event>, b: seq<Event>)
    ensures Run(s, a + b) == Run(Run(s, a), b)
    decreases |a|
  {
    if a == [] {
      assert a + b == b;
    } else {
      assert (a + b)[1..] == a[1..] + b;
      RunConcat(Step(s, a[0]), a[1..], b);
    }
  }

  // ----- Stacks the builder can reach -----

  /** A root at the bottom and nowhere else. */
  predicate Rooted(stack: Stack) {
    stack != [] && stack[0].OpenRoot? && forall k | 0 < k < |stack| :: !stack[k].OpenRoot?
  }

  /** A container without its contents: its kind, and what its start tag said. */
  function Erased(c: Container): Container {
    match c
    case OpenRoot(_) => OpenRoot([])
    case OpenQuote(_) => OpenQuote([])
    case OpenList(start, _) => OpenList(start, [])
    case OpenItem(_, _) => OpenItem(None, [])
    case OpenPlain(_) => OpenPlain([])
    case OpenParagraph(_) => OpenParagraph([])
    case OpenHeading(level, _) => OpenHeading(level, [])
    case OpenCode(fence, _) => OpenCode(fence, "")
    case OpenHtml(_) => OpenHtml("")
    case OpenTable(_, _) => OpenTable([], [])
    case OpenHead(_) => OpenHead([])
    case OpenRow(_) => OpenRow([])
    case OpenCell(_) => OpenCell([])
    case OpenStyled(style, _) => OpenStyled(style, [])
    case OpenLink(url, _) => OpenLink(url, [])
    case OpenImage(url, _) => OpenImage(url, "")
    case Transparent(block) => Transparent(block)
  }

  /** The containers that start tags pushed, and the root, bottom up: all but the implicit `Plain`s. */
  function Frames(stack: Stack): seq<Container> {
    if stack == [] then []
    else if Top(stack).OpenPlain? then Frames(Below(stack))
    else Frames(Below(stack)) + [Erased(Top(stack))]
  }

  function NonPlain(stack: Stack): nat {
    |Frames(stack)|
  }

  /** Containers that differ at most in their contents, bottom up. */
  predicate SameKinds(a: Stack, b: Stack) {
    |a| == |b| && forall k | 0 <= k < |a| :: Erased(a[k]) == Erased(b[k])
  }

  lemma ErasedKeepsKind(c: Container)
    ensures Erased(c).OpenPlain? == c.OpenPlain? && Erased(c).OpenRoot? == c.OpenRoot?
  {
  }

  lemma SameKindsReflexive(stack: Stack)
    ensures SameKinds(stack, stack)
  {
  }

  lemma TopKeepsKinds(stack: Stack, c: Container)
    requires stack != [] && Erased(c) == Erased(Top(stack))
    ensures SameKinds(Below(stack) + [c], stack)
  {
    hide Erased;
  }

  lemma UnderKeepsKinds(after: Stack, stack: Stack)
    requires stack != [] && SameKinds(after, Below(stack))
    ensures SameKinds(after + [Top(stack)], stack)
  {
    hide Erased;
  }

  lemma {:induction false} AddBlockKeepsKinds(stack: Stack, block: Block)
    ensures SameKinds(AddBlock(stack, block), stack)
  {
    hide SameKinds;
    if stack == [] {
      SameKindsReflexive(stack);
    } else if Top(stack).HoldsBlocks() {
      TopKeepsKinds(stack, Top(stack).(blocks := Top(stack).blocks + [block]));
    } else {
      AddBlockKeepsKinds(Below(stack), block);
      UnderKeepsKinds(AddBlock(Below(stack), block), stack);
    }
  }

  lemma SameKindsTransitive(a: Stack, b: Stack, c: Stack)
    requires SameKinds(a, b) && SameKinds(b, c)
    ensures SameKinds(a, c)
  {
    hide Erased;
  }

  lemma {:induction false} AddBlocksKeepsKinds(stack: Stack, blocks: seq<Block>)
    ensures SameKinds(AddBlocks(stack, blocks), stack)
  {
    hide SameKinds;
    if blocks == [] {
      SameKindsReflexive(stack);
    } else {
      var before := AddBlocks(stack, blocks[..|blocks| - 1]);
      AddBlocksKeepsKinds(stack, blocks[..|blocks| - 1]);
      AddBlockKeepsKinds(before, blocks[|blocks| - 1]);
      SameKindsTransitive(AddBlocks(stack, blocks), before, stack);
    }
  }

  lemma {:induction false} AddToHolderKeepsKinds(stack: Stack, inline: Inline)
    ensures SameKinds(AddToHolder(stack, inline), stack)
  {
    hide SameKinds;
    hide PushInline;
    if stack == [] {
      SameKindsReflexive(stack);
    } else if Top(stack).HoldsInlines() {
      TopKeepsKinds(stack, Top(stack).(content := PushInline(Top(stack).content, inline)));
    } else {
      AddToHolderKeepsKinds(Below(stack), inline);
      UnderKeepsKinds(AddToHolder(Below(stack), inline), stack);
    }
  }

  lemma {:induction false} SetTaskKeepsKinds(stack: Stack, checked: bool)
    ensures SameKinds(SetTask(stack, checked), stack)
  {
    hide SameKinds;
    if stack == [] {
      SameKindsReflexive(stack);
    } else if Top(stack).OpenItem? {
      TopKeepsKinds(stack, Top(stack).(task := Some(checked)));
    } else {
      SetTaskKeepsKinds(Below(stack), checked);
      UnderKeepsKinds(SetTask(Below(stack), checked), stack);
    }
  }

  lemma {:induction false} SameKindsSameFrames(a: Stack, b: Stack)
    requires SameKinds(a, b)
    ensures Frames(a) == Frames(b)
  {
    hide Erased;
    if a != [] {
      assert Erased(Top(a)) == Erased(Top(b));
      ErasedKeepsKind(Top(a));
      ErasedKeepsKind(Top(b));
      SameKindsSameFrames(Below(a), Below(b));
    }
  }

  lemma SameKindsSameRoot(a: Stack, b: Stack)
    requires SameKinds(a, b)
    ensures Rooted(b) ==> Rooted(a)
  {
    hide Erased;
    forall k | 0 <= k < |a| ensures a[k].OpenRoot? == b[k].OpenRoot? {
      assert Erased(a[k]) == Erased(b[k]);
      ErasedKeepsKind(a[k]);
      ErasedKeepsKind(b[k]);
    }
  }

  /** Putting an inline keeps the containers, and may open a `Plain` on top. */
  predicate SameKindsOrPlain(after: Stack, before: Stack) {
    SameKinds(after, before)
    || (|after| == |before| + 1 && Top(after).OpenPlain? && SameKinds(Below(after), before))
  }

  lemma PutInlineKeepsKinds(stack: Stack, inline: Inline)
    ensures SameKindsOrPlain(PutInline(stack, inline), stack)
  {
    hide SameKinds;
    hide NeedsPlain;
    hide AddToHolder;
    hide PushInline;
    hide PlainText;
    if stack != [] && Top(stack).OpenImage? {
      TopKeepsKinds(stack, Top(stack).(alt := Top(stack).alt + PlainText(inline)));
    } else if !NeedsPlain(stack) {
      AddToHolderKeepsKinds(stack, inline);
    } else {
      SameKindsReflexive(stack);
      assert Below(PutInline(stack, inline)) == stack;
    }
  }

  lemma FramesOfKept(after: Stack, before: Stack)
    requires SameKindsOrPlain(after, before)
    ensures Frames(after) == Frames(before)
    ensures Rooted(before) ==> Rooted(after)
  {
    hide SameKinds;
    hide Rooted;
    if SameKinds(after, before) {
      SameKindsSameFrames(after, before);
      SameKindsSameRoot(after, before);
    } else {
      SameKindsSameFrames(Below(after), before);
      SameKindsSameRoot(Below(after), before);
      if Rooted(before) {
        PushKeepsRooted(Below(after), Top(after));
        assert Below(after) + [Top(after)] == after;
      }
    }
  }

  lemma PutInlineCounts(stack: Stack, inline: Inline)
    ensures Frames(PutInline(stack, inline)) == Frames(stack)
    ensures |stack| <= |PutInline(stack, inline)| <= |stack| + 1
    ensures Rooted(stack) ==> Rooted(PutInline(stack, inline))
  {
    hide PutInline;
    hide SameKinds;
    hide Rooted;
    hide Frames;
    PutInlineKeepsKinds(stack, inline);
    FramesOfKept(PutInline(stack, inline), stack);
    SameKindsLength(PutInline(stack, inline), stack);
  }

  lemma SameKindsLength(after: Stack, before: Stack)
    requires SameKindsOrPlain(after, before)
    ensures |before| <= |after| <= |before| + 1
  {
  }

  lemma {:induction false} PutInlinesCounts(stack: Stack, inlines: seq<Inline>)
    ensures Frames(PutInlines(stack, inlines)) == Frames(stack)
    ensures |stack| <= |PutInlines(stack, inlines)|
    ensures Rooted(stack) ==> Rooted(PutInlines(stack, inlines))
  {
    hide PutInline;
    hide Rooted;
    hide Frames;
    if inlines != [] {
      PutInlinesCounts(stack, inlines[..|inlines| - 1]);
      PutInlineCounts(PutInlines(stack, inlines[..|inlines| - 1]), inlines[|inlines| - 1]);
    }
  }

  lemma PutTextCounts(stack: Stack, text: string)
    ensures Frames(PutText(stack, text)) == Frames(stack)
    ensures |stack| <= |PutText(stack, text)|
    ensures Rooted(stack) ==> Rooted(PutText(stack, text))
  {
    hide PutInline;
    hide Rooted;
    hide Frames;
    PutInlineCounts(stack, Text(text));
    if stack != [] {
      match Top(stack)
      case OpenCode(fence, code) => TopReplaced(stack, OpenCode(fence, code + text));
      case OpenHtml(html) => TopReplaced(stack, OpenHtml(html + text));
      case OpenImage(url, alt) => TopReplaced(stack, OpenImage(url, alt + text));
      case _ =>
    }
  }

  lemma AddBlockCounts(stack: Stack, block: Block)
    ensures Frames(AddBlock(stack, block)) == Frames(stack)
    ensures Rooted(stack) ==> Rooted(AddBlock(stack, block))
  {
    hide SameKinds;
    hide Rooted;
    hide Frames;
    hide AddBlock;
    AddBlockKeepsKinds(stack, block);
    SameKindsSameFrames(AddBlock(stack, block), stack);
    SameKindsSameRoot(AddBlock(stack, block), stack);
  }

  lemma BelowIsRooted(stack: Stack)
    requires Rooted(stack) && |stack| > 1
    ensures Rooted(Below(stack))
  {
  }

  lemma PlainOnRoot(stack: Stack)
    requires Rooted(stack) && Top(stack).OpenPlain?
    ensures |stack| > 1
  {
  }

  lemma ClosePlainCounts(stack: Stack)
    ensures Frames(ClosePlain(stack)) == Frames(stack)
    ensures |stack| - 1 <= |ClosePlain(stack)| <= |stack|
    ensures Rooted(stack) ==> Rooted(ClosePlain(stack))
  {
    hide AddBlock;
    hide Rooted;
    if stack != [] && Top(stack).OpenPlain? {
      AddBlockCounts(Below(stack), PlainBlock(Top(stack).content));
      if Rooted(stack) {
        PlainOnRoot(stack);
        BelowIsRooted(stack);
      }
    }
  }

  lemma TopReplaced(stack: Stack, c: Container)
    requires stack != [] && Erased(c) == Erased(Top(stack))
    ensures Frames(Below(stack) + [c]) == Frames(stack)
    ensures Rooted(stack) ==> Rooted(Below(stack) + [c])
  {
    hide Erased;
    hide Frames;
    hide Rooted;
    var after := Below(stack) + [c];
    forall k | 0 <= k < |after| ensures Erased(after[k]) == Erased(stack[k]) {
      if k < |stack| - 1 { assert after[k] == stack[k]; }
    }
    SameKindsSameFrames(after, stack);
    SameKindsSameRoot(after, stack);
  }

  lemma AddBlocksCounts(stack: Stack, blocks: seq<Block>)
    ensures Frames(AddBlocks(stack, blocks)) == Frames(stack)
    ensures Rooted(stack) ==> Rooted(AddBlocks(stack, blocks))
  {
    hide SameKinds;
    hide Rooted;
    hide Frames;
    hide AddBlocks;
    AddBlocksKeepsKinds(stack, blocks);
    SameKindsSameFrames(AddBlocks(stack, blocks), stack);
    SameKindsSameRoot(AddBlocks(stack, blocks), stack);
  }

  lemma ClosePartKeepsPlain(stack: Stack, container: Container)
    requires container.OpenItem? || container.OpenHead? || container.OpenRow? || container.OpenCell?
    ensures Frames(Close(stack, container)) == Frames(stack)
    ensures |stack| <= |Close(stack, container)|
    ensures Rooted(stack) ==> Rooted(Close(stack, container))
  {
    hide Frames;
    hide Rooted;
    hide AddBlock;
    hide AddBlocks;
    hide PutInline;
    hide PutInlines;
    hide PutText;
    match container
    case OpenItem(task, blocks) =>
      AddBlocksCounts(stack, blocks);
      if stack != [] && Top(stack).OpenList? {
        TopReplaced(stack, Top(stack).(items := Top(stack).items + [ListItem(task, blocks)]));
      }
    case OpenHead(cells) =>
      if stack != [] && Top(stack).OpenTable? {
        TopReplaced(stack, Top(stack).(head := cells));
      }
    case OpenRow(cells) =>
      if stack != [] && Top(stack).OpenTable? {
        TopReplaced(stack, Top(stack).(rows := Top(stack).rows + [cells]));
      }
    case OpenCell(content) =>
      PutInlinesCounts(stack, content);
      if stack != [] && (Top(stack).OpenHead? || Top(stack).OpenRow?) {
        TopReplaced(stack, Top(stack).(cells := Top(stack).cells + [content]));
      }
  }

  lemma CloseKeepsPlain(stack: Stack, container: Container)
    requires !container.OpenRoot?
    ensures Frames(Close(stack, container)) == Frames(stack)
    ensures |stack| <= |Close(stack, container)|
    ensures Rooted(stack) ==> Rooted(Close(stack, container))
  {
    hide Frames;
    hide Rooted;
    hide AddBlock;
    hide AddBlocks;
    hide PutInline;
    hide PutInlines;
    hide PutText;
    match container
    case OpenStyled(style, content) => PutInlineCounts(stack, Styled(style, content));
    case OpenLink(Some(url), content) => PutInlineCounts(stack, Link(url, content));
    case OpenLink(None, content) => PutInlinesCounts(stack, content);
    case OpenImage(Some(url), alt) => PutInlineCounts(stack, Image(url, alt));
    case OpenImage(None, alt) => PutTextCounts(stack, alt);
    case OpenQuote(blocks) => AddBlockCounts(stack, QuoteBlock(blocks));
    case OpenList(start, items) => AddBlockCounts(stack, ListBlock(start, items));
    case OpenPlain(content) => AddBlockCounts(stack, PlainBlock(content));
    case OpenParagraph(content) => AddBlockCounts(stack, ParagraphBlock(content));
    case OpenHeading(level, content) => AddBlockCounts(stack, HeadingBlock(level, content));
    case OpenCode(fence, text) => AddBlockCounts(stack, CodeBlock(fence, text));
    case OpenHtml(html) => AddBlockCounts(stack, HtmlBlock(html));
    case OpenTable(head, rows) => AddBlockCounts(stack, TableBlock(head, rows));
    case Transparent(_) =>
    case _ => ClosePartKeepsPlain(stack, container);
  }

  /** A pop takes the innermost container, `Plain` or not, and never the root. */
  lemma PopCounts(stack: Stack)
    requires Rooted(stack)
    ensures Rooted(PopStep(stack))
    ensures |stack| < 2 || Top(stack).OpenPlain? ==> Frames(PopStep(stack)) == Frames(stack)
    ensures |stack| >= 2 && !Top(stack).OpenPlain? ==> Frames(PopStep(stack)) + [Erased(Top(stack))] == Frames(stack)
    ensures |stack| >= 2 ==> |PopStep(stack)| >= |stack| - 1
  {
    hide Erased;
    hide Close;
    if |stack| >= 2 {
      CloseKeepsPlain(Below(stack), Top(stack));
    }
  }

  lemma RootedCounts(stack: Stack)
    requires Rooted(stack)
    ensures NonPlain(stack) >= 1
  {
    if |stack| > 1 {
      RootedCounts(Below(stack));
    }
  }

  lemma PushKeepsRooted(stack: Stack, c: Container)
    requires Rooted(stack) && !c.OpenRoot?
    ensures Rooted(stack + [c])
  {
  }

  lemma StepKeepsRooted(s: State, e: Event)
    requires Rooted(s.stack)
    ensures Rooted(Step(s, e).stack)
  {
    hide Rooted;
    hide NonPlain;
    hide ClosePlain;
    hide AddBlock;
    hide PutInline;
    hide PutText;
    hide PopStep;
    hide SetTask;
    hide Opened;
    match e
    case Start(tag) =>
      ClosePlainCounts(s.stack);
      var container := Opened(s.stack, tag, StartStep(s, tag).depth, StartStep(s, tag).inlineDepth);
      OpensNoRoot(s.stack, tag, StartStep(s, tag).depth, StartStep(s, tag).inlineDepth);
      PushKeepsRooted(s.stack, container);
      PushKeepsRooted(ClosePlain(s.stack), container);
    case End(tag) =>
      ClosePlainCounts(s.stack);
      PopCounts(s.stack);
      PopCounts(ClosePlain(s.stack));
    case Words(t) => PutTextCounts(s.stack, t);
    case HtmlWords(t) => PutTextCounts(s.stack, t);
    case CodeWords(t) => PutInlineCounts(s.stack, CodeSpan(t));
    case SoftBreakEvent => PutInlineCounts(s.stack, SoftBreak);
    case HardBreakEvent => PutInlineCounts(s.stack, HardBreak);
    case RuleEvent =>
      ClosePlainCounts(s.stack);
      AddBlockCounts(ClosePlain(s.stack), RuleBlock);
    case TaskMarker(checked) => SetTaskCounts(s.stack, checked);
  }

  lemma OpensNoRoot(stack: Stack, tag: Tag, depth: nat, inlineDepth: nat)
    ensures !Opened(stack, tag, depth, inlineDepth).OpenRoot? && !Opened(stack, tag, depth, inlineDepth).OpenPlain?
  {
  }

  lemma SetTaskCounts(stack: Stack, checked: bool)
    ensures Frames(SetTask(stack, checked)) == Frames(stack)
    ensures Rooted(stack) ==> Rooted(SetTask(stack, checked))
  {
    hide SameKinds;
    hide Rooted;
    hide Frames;
    hide SetTask;
    SetTaskKeepsKinds(stack, checked);
    SameKindsSameFrames(SetTask(stack, checked), stack);
    SameKindsSameRoot(SetTask(stack, checked), stack);
  }

  /** Every event sequence, balanced or not, leaves one root, at the bottom. */
  lemma {:induction false} RunKeepsRooted(s: State, es: seq<Event>)
    requires Rooted(s.stack)
    ensures Rooted(Run(s, es).stack)
    decreases |es|
  {
    if es != [] {
      StepKeepsRooted(s, es[0]);
      RunKeepsRooted(Step(s, es[0]), es[1..]);
    }
  }

  // ----- Finishing -----

  /** One round of `finish`: a trailing `Plain` closed, then one container popped. */
  function FinishRound(stack: Stack): Stack {
    PopStep(ClosePlain(stack))
  }

  lemma FinishRoundDecreases(stack: Stack)
    requires Rooted(stack) && |stack| > 1
    ensures Rooted(FinishRound(stack))
    ensures NonPlain(FinishRound(stack)) < NonPlain(stack)
         || (NonPlain(FinishRound(stack)) == NonPlain(stack) && |FinishRound(stack)| < |stack|)
  {
    ClosePlainCounts(stack);
    var closed := ClosePlain(stack);
    PopCounts(closed);
    if |closed| >= 2 && Top(closed).OpenPlain? {
      AddBlockCounts(Below(closed), PlainBlock(Top(closed).content));
    }
  }

  /** What `finish` returns: the root's blocks once everything above it is closed. */
  function Finished(stack: Stack): seq<Block>
    requires Rooted(stack)
    decreases NonPlain(stack), |stack|
  {
    if |stack| == 1 then stack[0].blocks
    else
      FinishRoundDecreases(stack);
      Finished(FinishRound(stack))
  }
}

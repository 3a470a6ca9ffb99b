/** The builder itself: the source's fields, methods and loops, proved to do what `Markdown`'s steps say. */
module MarkdownBuilder {
  import opened Wrappers
  import opened Markdown

  lemma UpdateIsAppend(stack: Stack, i: nat, c: Container)
    requires i < |stack|
    ensures stack[i := c] == stack[..i] + [c] + stack[i + 1..]
  {
  }

  /** The search for the container a block goes to stops where it finds one. */
  lemma AddBlockHere(stack: Stack, i: nat, block: Block)
    requires 0 < i <= |stack| && stack[i - 1].HoldsBlocks()
    ensures AddBlock(stack[..i], block) + stack[i..]
            == stack[i - 1 := stack[i - 1].(blocks := stack[i - 1].blocks + [block])]
  {
    var holder := stack[i - 1].(blocks := stack[i - 1].blocks + [block]);
    assert stack[..i][..i - 1] == stack[..i - 1];
    assert AddBlock(stack[..i], block) == stack[..i - 1] + [holder];
    UpdateIsAppend(stack, i - 1, holder);
  }

  lemma AddBlockPast(stack: Stack, i: nat, block: Block)
    requires 0 < i <= |stack| && !stack[i - 1].HoldsBlocks()
    ensures AddBlock(stack[..i], block) + stack[i..] == AddBlock(stack[..i - 1], block) + stack[i - 1..]
  {
    assert stack[..i][..i - 1] == stack[..i - 1];
    assert AddBlock(stack[..i], block) == AddBlock(stack[..i - 1], block) + [stack[i - 1]];
    assert [stack[i - 1]] + stack[i..] == stack[i - 1..];
  }

  lemma AddToHolderHere(stack: Stack, i: nat, inline: Inline)
    requires 0 < i <= |stack| && stack[i - 1].HoldsInlines()
    ensures AddToHolder(stack[..i], inline) + stack[i..]
         == stack[i - 1 := stack[i - 1].(content := PushInline(stack[i - 1].content, inline))]
  {
    var holder := stack[i - 1].(content := PushInline(stack[i - 1].content, inline));
    assert stack[..i][..i - 1] == stack[..i - 1];
    assert AddToHolder(stack[..i], inline) == stack[..i - 1] + [holder];
    UpdateIsAppend(stack, i - 1, holder);
  }

  lemma AddToHolderPast(stack: Stack, i: nat, inline: Inline)
    requires 0 < i <= |stack| && !stack[i - 1].HoldsInlines()
    ensures AddToHolder(stack[..i], inline) + stack[i..] == AddToHolder(stack[..i - 1], inline) + stack[i - 1..]
  {
    assert stack[..i][..i - 1] == stack[..i - 1];
    assert AddToHolder(stack[..i], inline) == AddToHolder(stack[..i - 1], inline) + [stack[i - 1]];
    assert [stack[i - 1]] + stack[i..] == stack[i - 1..];
  }

  lemma SetTaskHere(stack: Stack, i: nat, checked: bool)
    requires 0 < i <= |stack| && stack[i - 1].OpenItem?
    ensures SetTask(stack[..i], checked) + stack[i..] == stack[i - 1 := stack[i - 1].(task := Some(checked))]
  {
    var item := stack[i - 1].(task := Some(checked));
    assert stack[..i][..i - 1] == stack[..i - 1];
    assert SetTask(stack[..i], checked) == stack[..i - 1] + [item];
    UpdateIsAppend(stack, i - 1, item);
  }

  lemma SetTaskPast(stack: Stack, i: nat, checked: bool)
    requires 0 < i <= |stack| && !stack[i - 1].OpenItem?
    ensures SetTask(stack[..i], checked) + stack[i..] == SetTask(stack[..i - 1], checked) + stack[i - 1..]
  {
    assert stack[..i][..i - 1] == stack[..i - 1];
    assert SetTask(stack[..i], checked) == SetTask(stack[..i - 1], checked) + [stack[i - 1]];
    assert [stack[i - 1]] + stack[i..] == stack[i - 1..];
  }

  class Builder {
    var stack: Stack
    /** How many quotes and lists are open. */
    var depth: nat
    /** How many emphasis, strong, strikethrough and link spans are open. */
    var inlineDepth: nat

    ghost function View(): State
      reads this
    {
      State(stack, depth, inlineDepth)
    }

    constructor ()
      ensures View() == START
    {
      stack, depth, inlineDepth := [OpenRoot([])], 0, 0;
    }

    /** Adds a block to the innermost container that holds blocks. */
    method Block(block: Block)
      modifies this`stack
      ensures stack == AddBlock(old(stack), block)
    {
      hide AddBlock;
      var i := |stack|;
      assert stack[..i] == stack && AddBlock(stack, block) == AddBlock(stack[..i], block) + stack[i..];
      while i > 0
        invariant 0 <= i <= |stack| && stack == old(stack)
        invariant AddBlock(stack, block) == AddBlock(stack[..i], block) + stack[i..]
      {
        if stack[i - 1].HoldsBlocks() {
          AddBlockHere(stack, i, block);
          stack := stack[i - 1 := stack[i - 1].(blocks := stack[i - 1].blocks + [block])];
          return;
        }
        AddBlockPast(stack, i, block);
        i := i - 1;
      }
    }

    method ClosePlain()
      modifies this`stack
      ensures stack == Markdown.ClosePlain(old(stack))
    {
      if stack != [] && Top(stack).OpenPlain? {
        var content := Top(stack).content;
        stack := Below(stack);
        Block(PlainBlock(content));
      }
    }

    /** Whether the innermost container that holds inlines is below a block container. */
    method NeedsPlain() returns (needs: bool)
      ensures needs == Markdown.NeedsPlain(stack)
    {
      var i := |stack|;
      assert stack[..i] == stack;
      while i > 0
        invariant 0 <= i <= |stack|
        invariant Markdown.NeedsPlain(stack) == Markdown.NeedsPlain(stack[..i])
      {
        assert stack[..i][..i - 1] == stack[..i - 1];
        if stack[i - 1].HoldsInlines() {
          return false;
        } else if stack[i - 1] != Transparent(false) {
          return true;
        }
        i := i - 1;
      }
      return true;
    }

    /** Pushes an inline onto the innermost container that holds inlines, if there is one. */
    method ToHolder(inline: Inline)
      modifies this`stack
      ensures stack == AddToHolder(old(stack), inline)
    {
      hide AddToHolder;
      var i := |stack|;
      assert stack[..i] == stack && AddToHolder(stack, inline) == AddToHolder(stack[..i], inline) + stack[i..];
      while i > 0
        invariant 0 <= i <= |stack| && stack == old(stack)
        invariant AddToHolder(stack, inline) == AddToHolder(stack[..i], inline) + stack[i..]
      {
        if stack[i - 1].HoldsInlines() {
          AddToHolderHere(stack, i, inline);
          stack := stack[i - 1 := stack[i - 1].(content := PushInline(stack[i - 1].content, inline))];
          return;
        }
        AddToHolderPast(stack, i, inline);
        i := i - 1;
      }
    }

    method Inline(inline: Inline)
      modifies this`stack
      ensures stack == PutInline(old(stack), inline)
    {
      if stack != [] && Top(stack).OpenImage? {
        stack := Below(stack) + [Top(stack).(alt := Top(stack).alt + PlainText(inline))];
        return;
      }
      var needsPlain := NeedsPlain();
      if !needsPlain {
        ToHolder(inline);
        return;
      }
      stack := stack + [OpenPlain(PushInline([], inline))];
    }

    method Inlines(inlines: seq<Inline>)
      modifies this`stack
      ensures stack == PutInlines(old(stack), inlines)
    {
      for i := 0 to |inlines|
        invariant stack == PutInlines(old(stack), inlines[..i])
      {
        assert inlines[..i + 1][..i] == inlines[..i];
        Inline(inlines[i]);
      }
      assert inlines[..|inlines|] == inlines;
    }

    method Blocks(blocks: seq<Block>)
      modifies this`stack
      ensures stack == AddBlocks(old(stack), blocks)
    {
      for i := 0 to |blocks|
        invariant stack == AddBlocks(old(stack), blocks[..i])
      {
        assert blocks[..i + 1][..i] == blocks[..i];
        Block(blocks[i]);
      }
      assert blocks[..|blocks|] == blocks;
    }

    method Text(text: string)
      modifies this`stack
      ensures stack == PutText(old(stack), text)
    {
      if stack != [] {
        match Top(stack)
        case OpenCode(fence, code) => stack := Below(stack) + [OpenCode(fence, code + text)]; return;
        case OpenHtml(html) => stack := Below(stack) + [OpenHtml(html + text)]; return;
        case OpenImage(url, alt) => stack := Below(stack) + [OpenImage(url, alt + text)]; return;
        case _ =>
      }
      Inline(Markdown.Text(text));
    }

    method Task(checked: bool)
      modifies this`stack
      ensures stack == SetTask(old(stack), checked)
    {
      hide SetTask;
      var i := |stack|;
      assert stack[..i] == stack && SetTask(stack, checked) == SetTask(stack[..i], checked) + stack[i..];
      while i > 0
        invariant 0 <= i <= |stack| && stack == old(stack)
        invariant SetTask(stack, checked) == SetTask(stack[..i], checked) + stack[i..]
      {
        if stack[i - 1].OpenItem? {
          SetTaskHere(stack, i, checked);
          stack := stack[i - 1 := stack[i - 1].(task := Some(checked))];
          return;
        }
        SetTaskPast(stack, i, checked);
        i := i - 1;
      }
    }

    method Start(tag: Tag)
      modifies this
      ensures View() == StartStep(old(View()), tag)
    {
      if IsNesting(tag) {
        depth := depth + 1;
      }
      if IsSpan(tag) {
        inlineDepth := inlineDepth + 1;
      }
      var container := Opened(stack, tag, depth, inlineDepth);
      if IsBlock(container) {
        ClosePlain();
      }
      stack := stack + [container];
    }

    /** Pops the innermost container into what is below it. */
    method Pop()
      modifies this`stack
      ensures stack == PopStep(old(stack))
    {
      hide AddBlock;
      hide AddBlocks;
      hide PutInline;
      hide PutInlines;
      hide PutText;
      if |stack| < 2 {
        return;
      }
      var container := Top(stack);
      stack := Below(stack);
      match container
      case OpenRoot(_) => stack := stack + [container];
      case OpenQuote(blocks) => Block(QuoteBlock(blocks));
      case OpenList(start, items) => Block(ListBlock(start, items));
      case OpenItem(task, blocks) =>
        if stack != [] && Top(stack).OpenList? {
          stack := Below(stack) + [Top(stack).(items := Top(stack).items + [ListItem(task, blocks)])];
        } else {
          Blocks(blocks);
        }
      case OpenPlain(content) => Block(PlainBlock(content));
      case OpenParagraph(content) => Block(ParagraphBlock(content));
      case OpenHeading(level, content) => Block(HeadingBlock(level, content));
      case OpenCode(fence, text) => Block(CodeBlock(fence, text));
      case OpenHtml(html) => Block(HtmlBlock(html));
      case OpenTable(head, rows) => Block(TableBlock(head, rows));
      case OpenHead(cells) =>
        if stack != [] && Top(stack).OpenTable? {
          stack := Below(stack) + [Top(stack).(head := cells)];
        }
      case OpenRow(cells) =>
        if stack != [] && Top(stack).OpenTable? {
          stack := Below(stack) + [Top(stack).(rows := Top(stack).rows + [cells])];
        }
      case OpenCell(content) =>
        if stack != [] && (Top(stack).OpenHead? || Top(stack).OpenRow?) {
          stack := Below(stack) + [Top(stack).(cells := Top(stack).cells + [content])];
        } else {
          Inlines(content);
        }
      case OpenStyled(style, content) => Inline(Styled(style, content));
      case OpenLink(url, content) =>
        if url.Some? {
          Inline(Link(url.value, content));
        } else {
          Inlines(content);
        }
      case OpenImage(url, alt) =>
        if url.Some? {
          Inline(Image(url.value, alt));
        } else {
          Text(alt);
        }
      case Transparent(_) =>
    }

    method End(tag: Tag)
      modifies this
      ensures View() == EndStep(old(View()), tag)
    {
      if tag.ItemTag? || IsNesting(tag) {
        ClosePlain();
      }
      if IsNesting(tag) && depth > 0 {
        depth := depth - 1;
      }
      if IsSpan(tag) && inlineDepth > 0 {
        inlineDepth := inlineDepth - 1;
      }
      Pop();
    }

    method Event(e: Event)
      modifies this
      ensures View() == Step(old(View()), e)
    {
      match e
      case Start(tag) => Start(tag);
      case End(tag) => End(tag);
      case Words(t) => Text(t);
      case HtmlWords(t) => Text(t);
      case CodeWords(t) => Inline(CodeSpan(t));
      case SoftBreakEvent => Inline(SoftBreak);
      case HardBreakEvent => Inline(HardBreak);
      case RuleEvent =>
        ClosePlain();
        Block(RuleBlock);
      case TaskMarker(checked) => Task(checked);
    }

    /** Closes whatever the parser left open, and returns the root's blocks. */
    method Finish() returns (blocks: seq<Block>)
      requires Rooted(stack)
      modifies this
      ensures blocks == Finished(old(stack))
    {
      while |stack| > 1
        invariant Rooted(stack) && Finished(stack) == Finished(old(stack))
        decreases NonPlain(stack), |stack|
      {
        FinishRoundDecreases(stack);
        ClosePlain();
        if |stack| > 1 {
          Pop();
        }
      }
      return stack[0].blocks;
    }
  }

  /** `parse` before its link pass: every event fed to a fresh builder, then finished. */
  method Build(events: seq<Event>) returns (blocks: seq<Block>)
    ensures Rooted(Run(START, events).stack) && blocks == Finished(Run(START, events).stack)
  {
    var builder := new Builder();
    assert events[0..] == events;
    for i := 0 to |events|
      invariant Run(builder.View(), events[i..]) == Run(START, events)
    {
      assert events[i..][1..] == events[i + 1..];
      builder.Event(events[i]);
    }
    assert events[|events|..] == [];
    assert Rooted(START.stack);
    RunKeepsRooted(START, events);
    blocks := builder.Finish();
  }
}

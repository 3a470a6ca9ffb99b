/**
 Whose container each end tag pops. The containers start tags push are told apart by their places among
 the frames: a start tag adds one at the end, an end tag takes one from the end, and nothing else moves
 any, so a frame that stays in its place is the same container all along.
 */
module MarkdownFrames {
  import opened Wrappers
  import opened Markdown
  import opened MarkdownTranslation
  import opened MarkdownProof
  import opened MarkdownBlocks
  import opened MarkdownExact

  /** The builder after the first `n` events. */
  function StateAt(es: seq<Event>, n: nat): State
    requires n <= |es|
  {
    Run(START, es[..n])
  }

  function FramesAt(es: seq<Event>, n: nat): seq<Container>
    requires n <= |es|
  {
    Frames(StateAt(es, n).stack)
  }

  /** The start tags among the first `n` events whose end tags are still to come, as the tags nest. */
  function OpenStarts(es: seq<Event>, n: nat): (open: seq<nat>)
    requires n <= |es|
    ensures forall i | 0 <= i < |open| :: open[i] < n && es[open[i]].Start?
  {
    if n == 0 then []
    else
      var open := OpenStarts(es, n - 1);
      match es[n - 1]
      case Start(_) => open + [n - 1]
      case End(_) => if open == [] then [] else open[..|open| - 1]
      case _ => open
  }

  /** The frame that the start tag at `k` pushed. */
  function Started(es: seq<Event>, k: nat): Container
    requires k < |es| && es[k].Start?
  {
    FrameOf(StateAt(es, k), es[k].tag)
  }

  /**
   The end tag at `n` has a start tag `k` of the same tag, the last one still open; the container it pops is
   the one `k` pushed, which stood in its place since; and what is left is what was there before `k`.
   */
  predicate PopsWhatItsStartOpened(es: seq<Event>, n: nat)
    requires n < |es| && es[n].End?
  {
    var open, from := OpenStarts(es, n), PoppedFrom(StateAt(es, n), es[n].tag);
    && open != [] && |from| >= 2
    && var k := open[|open| - 1];
    && es[k].tag == es[n].tag
    && Erased(Top(from)) == Started(es, k)
    && FramesAt(es, n) == FramesAt(es, k) + [Started(es, k)]
    && FramesAt(es, n + 1) == FramesAt(es, k)
    && forall m | k < m <= n :: FramesAt(es, k) + [Started(es, k)] <= FramesAt(es, m)
  }

  // ----- Runs, event by event -----

  lemma NextState(es: seq<Event>, n: nat)
    requires n < |es|
    ensures StateAt(es, n + 1) == Step(StateAt(es, n), es[n])
  {
    hide Run;
    hide Step;
    RunConcat(START, es[..n], [es[n]]);
    assert es[..n] + [es[n]] == es[..n + 1];
    RunOne(StateAt(es, n), es[n]);
  }

  lemma StateIsRooted(es: seq<Event>, n: nat)
    requires n <= |es|
    ensures Rooted(StateAt(es, n).stack)
  {
    hide Run;
    RunKeepsRooted(START, es[..n]);
  }

  lemma {:induction false} RunSplits(s: State, es: seq<Event>, n: nat)
    requires n < |es|
    ensures EndsPopTheirOwn(s, es) ==> PopsItsOwn(Run(s, es[..n]), es[n])
    decreases n
  {
    hide PopsItsOwn;
    hide Step;
    if n == 0 {
      assert es[..0] == [];
    } else {
      RunSplits(Step(s, es[0]), es[1..], n - 1);
      assert es[..n][1..] == es[1..][..n - 1] && es[..n][0] == es[0];
    }
  }

  lemma {:induction false} RunGathers(s: State, es: seq<Event>)
    requires forall n | 0 <= n < |es| :: PopsItsOwn(Run(s, es[..n]), es[n])
    ensures EndsPopTheirOwn(s, es)
    decreases |es|
  {
    hide PopsItsOwn;
    hide Step;
    if es != [] {
      assert es[..0] == [] && PopsItsOwn(Run(s, es[..0]), es[0]);
      forall n | 0 <= n < |es[1..]| ensures PopsItsOwn(Run(Step(s, es[0]), es[1..][..n]), es[1..][n]) {
        assert PopsItsOwn(Run(s, es[..n + 1]), es[n + 1]);
        assert es[..n + 1][1..] == es[1..][..n] && es[..n + 1][0] == es[0];
      }
      RunGathers(Step(s, es[0]), es[1..]);
    }
  }

  // ----- Frames are those of the open start tags -----

  function OpenFrames(es: seq<Event>, open: seq<nat>): seq<Container>
    requires forall i | 0 <= i < |open| :: open[i] < |es| && es[open[i]].Start?
  {
    [OpenRoot([])] + seq(|open|, i requires 0 <= i < |open| => Started(es, open[i]))
  }

  lemma RootFrame()
    ensures Frames(START.stack) == [OpenRoot([])]
  {
    assert Below(START.stack) == [];
  }

  /** While every end tag pops its own, the frames are the root's and those of the start tags still open, in order. */
  lemma {:induction false} FramesAreOpenStarts(es: seq<Event>, n: nat)
    requires n <= |es| && EndsPopTheirOwn(START, es)
    ensures FramesAt(es, n) == OpenFrames(es, OpenStarts(es, n))
  {
    hide Run;
    hide Step;
    hide Frames;
    hide Erased;
    hide EndsPopTheirOwn;
    hide PoppedFrom;
    hide FrameOf;
    hide Rooted;
    if n == 0 {
      assert es[..0] == [];
      RunNothing(START);
      RootFrame();
    } else {
      var s, e, open := StateAt(es, n - 1), es[n - 1], OpenStarts(es, n - 1);
      FramesAreOpenStarts(es, n - 1);
      NextState(es, n - 1);
      StateIsRooted(es, n - 1);
      RunSplits(START, es, n - 1);
      StepFrames(s, e);
      if e.End? {
        PopFrames(es, open, FramesAt(es, n), Erased(Top(PoppedFrom(s, e.tag))));
      }
    }
  }

  lemma StepFrames(s: State, e: Event)
    requires Rooted(s.stack) && PopsItsOwn(s, e)
    ensures e.Start? ==> Frames(Step(s, e).stack) == Frames(s.stack) + [FrameOf(s, e.tag)]
    ensures e.End? ==> |PoppedFrom(s, e.tag)| >= 2
    ensures e.End? ==> |Frames(Step(s, e).stack)| >= 1
    ensures e.End? ==> Frames(Step(s, e).stack) + [Erased(Top(PoppedFrom(s, e.tag)))] == Frames(s.stack)
    ensures !e.Start? && !e.End? ==> Frames(Step(s, e).stack) == Frames(s.stack)
  {
    hide Rooted;
    hide Frames;
    hide StartStep;
    hide EndStep;
    hide Erased;
    hide FrameOf;
    match e
    case Start(tag) => StartCounts(s, tag);
    case End(tag) =>
      EndCounts(s, tag);
      RootedFrames(EndStep(s, tag).stack);
    case _ => OtherCounts(s, e);
  }

  lemma RootedFrames(stack: Stack)
    requires Rooted(stack)
    ensures |Frames(stack)| >= 1
  {
    RootedCounts(stack);
  }

  lemma PopFrames(es: seq<Event>, open: seq<nat>, after: seq<Container>, top: Container)
    requires forall i | 0 <= i < |open| :: open[i] < |es| && es[open[i]].Start?
    requires after + [top] == OpenFrames(es, open) && |after| >= 1
    ensures open != [] && after == OpenFrames(es, open[..|open| - 1]) && top == Started(es, open[|open| - 1])
  {
    hide Started;
    assert |open| == |after|;
    assert after == (after + [top])[..|after|] && top == (after + [top])[|after|];
  }

  // ----- Which start tag an end tag closes -----

  /** A start tag still open was the last open one when it came, and stays in its place until it closes. */
  lemma {:induction false} StaysOpen(es: seq<Event>, n: nat, i: nat, m: nat)
    requires n <= |es| && i < |OpenStarts(es, n)| && OpenStarts(es, n)[i] < m <= n
    ensures var open := OpenStarts(es, n);
            OpenStarts(es, open[i]) == open[..i] && i < |OpenStarts(es, m)|
                && OpenStarts(es, m)[..i + 1] == open[..i + 1]
    decreases n
  {
    var open, before := OpenStarts(es, n), OpenStarts(es, n - 1);
    if i < |before| {
      assert open[..i + 1] == before[..i + 1] && open[i] == before[i];
      StaysOpen(es, n - 1, i, if m < n then m else n - 1);
      assert before[..i] == before[..i + 1][..i] == open[..i];
    } else {
      assert open == before + [n - 1] && open[..i] == before;
    }
  }

  lemma {:induction false} UnclosedAre(es: seq<Event>, n: nat)
    requires n <= |es| && Unclosed([], es).Some?
    ensures var open, tags := OpenStarts(es, n), Unclosed([], es[..n]);
            tags.Some? && |tags.value| == |open| && forall i | 0 <= i < |open| :: tags.value[i] == es[open[i]].tag
  {
    UnclosedPrefix(es, n);
    if n > 0 {
      assert es[..n][..n - 1] == es[..n - 1];
      UnclosedAre(es, n - 1);
    }
  }

  lemma UnclosedPrefix(es: seq<Event>, n: nat)
    requires n <= |es| && Unclosed([], es).Some?
    ensures Unclosed([], es[..n]).Some?
  {
    assert es == es[..n] + es[n..];
    UnclosedConcat([], es[..n], es[n..]);
  }

  lemma EndHasStart(es: seq<Event>, n: nat)
    requires n < |es| && es[n].End? && Balanced(es)
    ensures OpenStarts(es, n) != [] && es[OpenStarts(es, n)[|OpenStarts(es, n)| - 1]].tag == es[n].tag
  {
    assert Unclosed([], es) == Some([]);
    UnclosedAre(es, n);
    UnclosedPrefix(es, n + 1);
    assert es[..n + 1][..n] == es[..n];
  }

  lemma OpenPrefix(es: seq<Event>, a: seq<nat>, b: seq<nat>)
    requires forall i | 0 <= i < |b| :: b[i] < |es| && es[b[i]].Start?
    requires a <= b
    ensures (forall i | 0 <= i < |a| :: a[i] < |es| && es[a[i]].Start?) && OpenFrames(es, a) <= OpenFrames(es, b)
  {
    assert forall i | 0 <= i < |a| :: a[i] == b[i];
  }

  lemma OwnEndPopsWhatItsStartOpened(es: seq<Event>, n: nat)
    requires n < |es| && es[n].End? && Balanced(es) && EndsPopTheirOwn(START, es)
    ensures PopsWhatItsStartOpened(es, n)
  {
    hide Run;
    hide Step;
    hide Frames;
    hide Erased;
    hide EndsPopTheirOwn;
    hide Balanced;
    hide PoppedFrom;
    hide FrameOf;
    hide Rooted;
    hide Started;
    hide OpenFrames;
    hide OpenStarts;
    EndHasStart(es, n);
    var s, open := StateAt(es, n), OpenStarts(es, n);
    var k, last := open[|open| - 1], |open| - 1;
    RunSplits(START, es, n);
    StateIsRooted(es, n);
    StepFrames(s, es[n]);
    NextState(es, n);
    FramesAreOpenStarts(es, n);
    FramesAreOpenStarts(es, k);
    StaysOpen(es, n, last, n);
    LastFrame(es, open);
    OneFrameLess(FramesAt(es, n + 1), Erased(Top(PoppedFrom(s, es[n].tag))), FramesAt(es, k), Started(es, k));
    forall m | k < m <= n ensures FramesAt(es, k) + [Started(es, k)] <= FramesAt(es, m) {
      StaysOpen(es, n, last, m);
      FramesAreOpenStarts(es, m);
      assert open[..last + 1] == open;
      OpenPrefix(es, open, OpenStarts(es, m));
    }
  }

  lemma LastFrame(es: seq<Event>, open: seq<nat>)
    requires open != [] && forall i | 0 <= i < |open| :: open[i] < |es| && es[open[i]].Start?
    ensures OpenFrames(es, open) == OpenFrames(es, open[..|open| - 1]) + [Started(es, open[|open| - 1])]
  {
    hide Started;
  }

  lemma OneFrameLess(a: seq<Container>, x: Container, b: seq<Container>, y: Container)
    requires a + [x] == b + [y]
    ensures a == b && x == y
  {
    assert a == (a + [x])[..|a|] && b == (b + [y])[..|b|];
    assert x == (a + [x])[|a|] && y == (b + [y])[|b|];
  }

  lemma StartedIsNoPlain(es: seq<Event>, k: nat)
    requires k < |es| && es[k].Start?
    ensures !Started(es, k).OpenPlain?
  {
    hide Run;
    var s := StateAt(es, k);
    var after := StartStep(s, es[k].tag);
    OpensNoRoot(s.stack, es[k].tag, after.depth, after.inlineDepth);
    ErasedKeepsKind(Opened(s.stack, es[k].tag, after.depth, after.inlineDepth));
  }

  lemma OpenedIsOwn(es: seq<Event>, n: nat)
    requires n < |es| && (es[n].End? ==> PopsWhatItsStartOpened(es, n))
    ensures PopsItsOwn(StateAt(es, n), es[n])
  {
    hide Run;
    hide Frames;
    hide Erased;
    hide PoppedFrom;
    if es[n].End? {
      var open, from := OpenStarts(es, n), PoppedFrom(StateAt(es, n), es[n].tag);
      StartedIsNoPlain(es, open[|open| - 1]);
      ErasedKeepsKind(Top(from));
    }
  }

  /** Every end tag pops the container that its own start tag opened, exactly for the safe replies. */
  lemma EndsPopWhatTheirStartsOpened(doc: seq<FlowNode>)
    ensures var es := FlowsEvents(doc);
            (forall n | 0 <= n < |es| && es[n].End? :: PopsWhatItsStartOpened(es, n)) <==> SafeFlows(doc)
  {
    hide Run;
    hide PopsWhatItsStartOpened;
    hide EndsPopTheirOwn;
    hide PopsItsOwn;
    hide SafeFlows;
    hide FlowsEvents;
    var es := FlowsEvents(doc);
    EndsPopTheirOwnExactlyWhenSafe(doc);
    FlowsRestore(START, doc);
    if SafeFlows(doc) {
      forall n | 0 <= n < |es| && es[n].End? ensures PopsWhatItsStartOpened(es, n) {
        OwnEndPopsWhatItsStartOpened(es, n);
      }
    }
    if forall n | 0 <= n < |es| && es[n].End? :: PopsWhatItsStartOpened(es, n) {
      forall n | 0 <= n < |es| ensures PopsItsOwn(Run(START, es[..n]), es[n]) {
        OpenedIsOwn(es, n);
      }
      RunGathers(START, es);
    }
  }
}

/**
 The span nesting cap of the code highlighter (`src/highlight.rs`).

 The highlighter is a push/pop machine that opens no span past `MAX_SPAN_DEPTH` and counts what it
 skipped. It is proved to build exactly the tree an uncapped machine builds, with every span past the
 cap spliced into its parent. syntect's output is taken as any lines with any ops, extra pops included.
 */
module Highlight {
  import opened Sequences
  import opened Utf8
  import opened Wrappers

  /** Text, as the bytes that places in it are counted in. */
  type Bytes = seq<Byte>

  datatype Span = Text(text: Bytes) | Scoped(classes: string, children: seq<Span>)

  /** A span still open: its classes, and its contents so far. */
  datatype Open = Open(classes: string, children: seq<Span>)

  /** What the machine is fed: syntect's basic ops, and the text between them. */
  datatype Op = Push(classes: string) | Pop | Write(text: Bytes)

  const MAX_SPAN_DEPTH: nat := 64

  function WithText(children: seq<Span>, text: Bytes): seq<Span> {
    if text == [] then children
    else if children != [] && children[|children| - 1].Text? then
      children[..|children| - 1] + [Text(children[|children| - 1].text + text)]
    else children + [Text(text)]
  }

  function WithTop(open: seq<Open>, children: seq<Span>): seq<Open>
    requires open != []
  {
    open[|open| - 1 := open[|open| - 1].(children := children)]
  }

  /** The innermost span closed into its parent, dropped if empty; the root is never closed. */
  function Closed(open: seq<Open>): seq<Open> {
    if |open| < 2 then open else
      var top, below := open[|open| - 1], open[..|open| - 1];
      if top.children == [] then below
      else WithTop(below, below[|below| - 1].children + [Scoped(top.classes, top.children)])
  }

  // ----- The uncapped machine -----

  function UncappedStep(open: seq<Open>, op: Op): (after: seq<Open>)
    requires open != []
    ensures after != []
  {
    match op
    case Push(classes) => open + [Open(classes, [])]
    case Pop => Closed(open)
    case Write(text) => WithTop(open, WithText(open[|open| - 1].children, text))
  }

  const ROOT := [Open("", [])]

  function Uncapped(ops: seq<Op>): (open: seq<Open>)
    ensures open != []
  {
    if ops == [] then ROOT else UncappedStep(Uncapped(ops[..|ops| - 1]), ops[|ops| - 1])
  }

  function CloseAll(open: seq<Open>): seq<Span>
    requires open != []
    decreases |open|
  {
    if |open| == 1 then open[0].children else CloseAll(Closed(open))
  }

  function UncappedTree(ops: seq<Op>): seq<Span> {
    CloseAll(Uncapped(ops))
  }

  // ----- The capped machine -----

  /** `flattened` counts the scopes pushed past the cap, which opened no span. */
  datatype Capped = Capped(open: seq<Open>, flattened: nat)

  function CappedStep(c: Capped, op: Op): (after: Capped)
    requires c.open != []
    ensures after.open != []
  {
    match op
    case Push(classes) =>
      if |c.open| > MAX_SPAN_DEPTH then c.(flattened := c.flattened + 1)
      else c.(open := c.open + [Open(classes, [])])
    case Pop => if c.flattened > 0 then c.(flattened := c.flattened - 1) else c.(open := Closed(c.open))
    case Write(text) => c.(open := WithTop(c.open, WithText(c.open[|c.open| - 1].children, text)))
  }

  function RunCapped(ops: seq<Op>): (c: Capped)
    ensures c.open != []
  {
    if ops == [] then Capped(ROOT, 0) else CappedStep(RunCapped(ops[..|ops| - 1]), ops[|ops| - 1])
  }

  function CappedTree(ops: seq<Op>): seq<Span> {
    CloseAll(RunCapped(ops).open)
  }

  // ----- Splicing the spans past the cap -----

  /** `acc` with a span added that `depth` spans enclose: past the cap, its contents in its place. */
  function AddSpliced(acc: seq<Span>, span: Span, depth: nat): seq<Span>
    decreases span, 0
  {
    match span
    case Text(text) => WithText(acc, text)
    case Scoped(classes, children) =>
      if depth < MAX_SPAN_DEPTH then acc + [Scoped(classes, SpliceInto([], children, depth + 1))]
      else SpliceInto(acc, children, depth + 1)
  }

  function SpliceInto(acc: seq<Span>, spans: seq<Span>, depth: nat): seq<Span>
    decreases spans, 1
  {
    if spans == [] then acc
    else AddSpliced(SpliceInto(acc, spans[..|spans| - 1], depth), spans[|spans| - 1], depth)
  }

  function Spliced(tree: seq<Span>): seq<Span> {
    SpliceInto([], tree, 0)
  }

  lemma SpliceSnoc(acc: seq<Span>, spans: seq<Span>, span: Span, depth: nat)
    ensures SpliceInto(acc, spans + [span], depth) == AddSpliced(SpliceInto(acc, spans, depth), span, depth)
  {
    assert (spans + [span])[..|spans|] == spans;
  }

  lemma WithTextTwice(acc: seq<Span>, a: Bytes, b: Bytes)
    ensures WithText(WithText(acc, a), b) == WithText(acc, a + b)
  {
    if a == [] {
      assert a + b == b;
    } else if b == [] {
      assert a + b == a;
    } else {
      var once := WithText(acc, a);
      assert once[..|once| - 1] == if acc != [] && acc[|acc| - 1].Text? then acc[..|acc| - 1] else acc;
      if acc != [] && acc[|acc| - 1].Text? {
        assert (acc[|acc| - 1].text + a) + b == acc[|acc| - 1].text + (a + b);
      }
    }
  }

  /** Writing text into spans and splicing them commute. */
  lemma SpliceWithText(acc: seq<Span>, spans: seq<Span>, text: Bytes, depth: nat)
    ensures SpliceInto(acc, WithText(spans, text), depth) == WithText(SpliceInto(acc, spans, depth), text)
  {
    if text != [] {
      if spans != [] && spans[|spans| - 1].Text? {
        var below, last := spans[..|spans| - 1], spans[|spans| - 1].text;
        SpliceSnoc(acc, below, Text(last + text), depth);
        WithTextTwice(SpliceInto(acc, below, depth), last, text);
      } else {
        SpliceSnoc(acc, spans, Text(text), depth);
      }
    }
  }

  // ----- Trees the highlighter builds -----

  /** No empty span, no empty text, no two texts side by side, at any depth. */
  predicate Canonical(spans: seq<Span>)
    decreases spans, 1
  {
    && (forall k | 0 <= k < |spans| :: CanonicalSpan(spans[k]))
    && (forall k | 0 < k < |spans| :: !(spans[k - 1].Text? && spans[k].Text?))
  }

  predicate CanonicalSpan(span: Span)
    decreases span, 0
  {
    match span
    case Text(text) => text != []
    case Scoped(_, children) => children != [] && Canonical(children)
  }

  /** Spans nest at most `depth` deep. */
  predicate DepthAtMost(spans: seq<Span>, depth: nat) {
    forall k | 0 <= k < |spans| && spans[k].Scoped? :: depth > 0 && DepthAtMost(spans[k].children, depth - 1)
  }

  lemma CanonicalWithText(spans: seq<Span>, text: Bytes)
    requires Canonical(spans)
    ensures Canonical(WithText(spans, text)) && (spans != [] || text != [] ==> WithText(spans, text) != [])
  {
    if text != [] && spans != [] && spans[|spans| - 1].Text? {
      var after := WithText(spans, text);
      forall k | 0 <= k < |after| ensures CanonicalSpan(after[k]) {
        if k < |spans| - 1 { assert after[k] == spans[k]; }
      }
      forall k | 0 < k < |after| ensures !(after[k - 1].Text? && after[k].Text?) {
        assert after[k - 1] == spans[k - 1] && (after[k].Text? <==> spans[k].Text?);
      }
    }
  }

  lemma CanonicalSnoc(spans: seq<Span>, classes: string, children: seq<Span>)
    requires Canonical(spans) && Canonical(children) && children != []
    ensures Canonical(spans + [Scoped(classes, children)])
  {
    var after := spans + [Scoped(classes, children)];
    forall k | 0 <= k < |after| ensures CanonicalSpan(after[k]) {
      if k < |spans| { assert after[k] == spans[k]; }
    }
    forall k | 0 < k < |after| ensures !(after[k - 1].Text? && after[k].Text?) {
      if k < |spans| { assert after[k] == spans[k] && after[k - 1] == spans[k - 1]; }
    }
  }

  /** Splicing keeps a tree canonical, drops nothing that shows, and stays within the cap. */
  lemma {:induction false} SpliceKeepsCanonical(acc: seq<Span>, spans: seq<Span>, depth: nat)
    requires Canonical(acc) && Canonical(spans) && depth <= MAX_SPAN_DEPTH
    requires DepthAtMost(acc, MAX_SPAN_DEPTH - depth)
    ensures Canonical(SpliceInto(acc, spans, depth))
    ensures acc != [] || spans != [] ==> SpliceInto(acc, spans, depth) != []
    ensures DepthAtMost(SpliceInto(acc, spans, depth), MAX_SPAN_DEPTH - depth)
    decreases spans
  {
    if spans != [] {
      var below, last := spans[..|spans| - 1], spans[|spans| - 1];
      assert Canonical(below) by {
        assert forall k | 0 <= k < |below| :: below[k] == spans[k];
      }
      SpliceKeepsCanonical(acc, below, depth);
      var so := SpliceInto(acc, below, depth);
      assert CanonicalSpan(last);
      match last
      case Text(text) => CanonicalWithText(so, text);
      case Scoped(classes, children) =>
        if depth < MAX_SPAN_DEPTH {
          SpliceKeepsCanonical([], children, depth + 1);
          CanonicalSnoc(so, classes, SpliceInto([], children, depth + 1));
        } else {
          SplicePastCap(so, children, depth + 1);
        }
    }
  }

  /** Past the cap only text is left. */
  lemma {:induction false} SplicePastCap(acc: seq<Span>, spans: seq<Span>, depth: nat)
    requires Canonical(acc) && Canonical(spans) && depth > MAX_SPAN_DEPTH
    ensures Canonical(SpliceInto(acc, spans, depth))
    ensures acc != [] || spans != [] ==> SpliceInto(acc, spans, depth) != []
    ensures forall d: nat :: DepthAtMost(acc, d) ==> DepthAtMost(SpliceInto(acc, spans, depth), d)
    decreases spans
  {
    if spans != [] {
      var below, last := spans[..|spans| - 1], spans[|spans| - 1];
      assert Canonical(below) by {
        assert forall k | 0 <= k < |below| :: below[k] == spans[k];
      }
      SplicePastCap(acc, below, depth);
      var so := SpliceInto(acc, below, depth);
      assert CanonicalSpan(last);
      match last
      case Text(text) => CanonicalWithText(so, text);
      case Scoped(classes, children) => SplicePastCap(so, children, depth + 1);
    }
  }

  // ----- The capped machine simulates the uncapped one -----

  /** The contents of levels `from` up to `upTo` of an open stack, spliced one after another. */
  function SplicedLevels(open: seq<Open>, from: nat, upTo: nat): seq<Span>
    requires upTo <= |open|
    decreases upTo
  {
    if upTo <= from then [] else SpliceInto(SplicedLevels(open, from, upTo - 1), open[upTo - 1].children, upTo - 1)
  }

  predicate CanonicalLevels(open: seq<Open>) {
    forall k | 0 <= k < |open| :: Canonical(open[k].children)
  }

  /**
   How the two machines stand to each other: the capped one has the uncapped one's first levels,
   spliced, its innermost span holds everything past the cap, and `flattened` makes up the depth.
   */
  ghost predicate Simulates(c: Capped, u: seq<Open>) {
    && 0 < |c.open| <= MAX_SPAN_DEPTH + 1
    && |c.open| + c.flattened == |u|
    && (c.flattened > 0 ==> |c.open| == MAX_SPAN_DEPTH + 1)
    && CanonicalLevels(u)
    && (forall k | 0 <= k < |c.open| :: c.open[k].classes == u[k].classes)
    && (forall k | 0 <= k < |c.open| - 1 :: c.open[k].children == SpliceInto([], u[k].children, k))
    && c.open[|c.open| - 1].children == SplicedLevels(u, |c.open| - 1, |u|)
  }

  lemma {:induction false} LevelsDependOn(u: seq<Open>, u': seq<Open>, from: nat, upTo: nat)
    requires upTo <= |u| && upTo <= |u'|
    requires forall k | from <= k < upTo :: u[k].children == u'[k].children
    ensures SplicedLevels(u, from, upTo) == SplicedLevels(u', from, upTo)
    decreases upTo
  {
    if from < upTo {
      LevelsDependOn(u, u', from, upTo - 1);
    }
  }

  lemma SimulatesPush(c: Capped, u: seq<Open>, classes: string)
    requires Simulates(c, u)
    ensures Simulates(CappedStep(c, Push(classes)), UncappedStep(u, Push(classes)))
  {
    var u' := UncappedStep(u, Push(classes));
    LevelsDependOn(u, u', |c.open| - 1, |u|);
    if |c.open| <= MAX_SPAN_DEPTH {
      assert SplicedLevels(u, |c.open| - 1, |u|)
          == SpliceInto(SplicedLevels(u, |c.open| - 1, |u| - 1), u[|u| - 1].children, |u| - 1);
    }
  }

  lemma LevelsWrite(u: seq<Open>, from: nat, text: Bytes)
    requires u != [] && from < |u|
    ensures SplicedLevels(UncappedStep(u, Write(text)), from, |u|) == WithText(SplicedLevels(u, from, |u|), text)
  {
    hide SpliceInto;
    hide WithText;
    var u', n := UncappedStep(u, Write(text)), |u|;
    LevelsDependOn(u, u', from, n - 1);
    SpliceWithText(SplicedLevels(u, from, n - 1), u[n - 1].children, text, n - 1);
  }

  lemma WriteIsCanonical(u: seq<Open>, text: Bytes)
    requires u != [] && CanonicalLevels(u)
    ensures CanonicalLevels(UncappedStep(u, Write(text)))
  {
    CanonicalWithText(u[|u| - 1].children, text);
  }

  lemma SimulatesWrite(c: Capped, u: seq<Open>, text: Bytes)
    requires Simulates(c, u)
    ensures Simulates(CappedStep(c, Write(text)), UncappedStep(u, Write(text)))
  {
    hide SplicedLevels;
    hide SpliceInto;
    hide CanonicalLevels;
    LevelsWrite(u, |c.open| - 1, text);
    WriteIsCanonical(u, text);
  }

  lemma ClosedIsCanonical(u: seq<Open>)
    requires u != [] && CanonicalLevels(u)
    ensures CanonicalLevels(Closed(u))
  {
    if |u| >= 2 && u[|u| - 1].children != [] {
      CanonicalSnoc(u[|u| - 2].children, u[|u| - 1].classes, u[|u| - 1].children);
    }
  }

  /** Past the cap, closing a span leaves its contents where they are. */
  lemma LevelsClose(u: seq<Open>, from: nat)
    requires |u| >= 2 && from <= |u| - 2 && |u| - 2 >= MAX_SPAN_DEPTH
    ensures SplicedLevels(Closed(u), from, |u| - 1) == SplicedLevels(u, from, |u|)
  {
    hide SpliceInto;
    hide SplicedLevels;
    hide Closed;
    var n, top := |u|, u[|u| - 1];
    ClosedLevels(u);
    LevelsDependOn(u, Closed(u), from, n - 2);
    var acc := SplicedLevels(u, from, n - 2);
    LevelsStep(u, from, n);
    LevelsStep(u, from, n - 1);
    LevelsStep(Closed(u), from, n - 1);
    if top.children == [] {
      SpliceNothing(SplicedLevels(u, from, n - 1), n - 1);
    } else {
      SpliceSnoc(acc, u[n - 2].children, Scoped(top.classes, top.children), n - 2);
      PastCap(SpliceInto(acc, u[n - 2].children, n - 2), top.classes, top.children, n - 2);
    }
  }

  lemma PastCap(acc: seq<Span>, classes: string, children: seq<Span>, depth: nat)
    requires depth >= MAX_SPAN_DEPTH
    ensures AddSpliced(acc, Scoped(classes, children), depth) == SpliceInto(acc, children, depth + 1)
  {
  }

  lemma LevelsStep(u: seq<Open>, from: nat, upTo: nat)
    requires from < upTo <= |u|
    ensures SplicedLevels(u, from, upTo) == SpliceInto(SplicedLevels(u, from, upTo - 1), u[upTo - 1].children, upTo - 1)
  {
  }

  lemma SimulatesFlatPop(c: Capped, u: seq<Open>)
    requires Simulates(c, u) && c.flattened > 0
    ensures Simulates(c.(flattened := c.flattened - 1), Closed(u))
  {
    hide SplicedLevels;
    hide SpliceInto;
    hide CanonicalLevels;
    ClosedIsCanonical(u);
    LevelsClose(u, |c.open| - 1);
  }

  /** What closing the innermost of several spans does, level by level. */
  lemma ClosedLevels(u: seq<Open>)
    requires |u| >= 2
    ensures var n, u', top := |u|, Closed(u), u[|u| - 1];
            && |u'| == n - 1
            && (forall k | 0 <= k < n - 2 :: u'[k] == u[k])
            && u'[n - 2].classes == u[n - 2].classes
            && u'[n - 2].children
            == if top.children == [] then u[n - 2].children else u[n - 2].children + [Scoped(top.classes, top.children)]
  {
  }

  lemma OneLevel(u: seq<Open>, k: nat)
    requires k < |u|
    ensures SplicedLevels(u, k, k + 1) == SpliceInto([], u[k].children, k)
  {
    hide SpliceInto;
    assert SplicedLevels(u, k, k) == [];
  }

  lemma SpliceNothing(acc: seq<Span>, depth: nat)
    ensures SpliceInto(acc, [], depth) == acc
  {
  }

  /** A level the innermost span is closed into, spliced: its contents spliced, and the span if it is kept. */
  lemma ClosedInto(u: seq<Open>)
    requires 2 <= |u| <= MAX_SPAN_DEPTH + 1
    ensures var n, top := |u|, u[|u| - 1];
            var into, inside := SpliceInto([], u[n - 2].children, n - 2), SpliceInto([], top.children, n - 1);
            var closed := if top.children == [] then into else into + [Scoped(top.classes, inside)];
            SplicedLevels(Closed(u), n - 2, n - 1) == closed
  {
    hide Closed;
    hide SpliceInto;
    hide SplicedLevels;
    var n, top := |u|, u[|u| - 1];
    ClosedLevels(u);
    OneLevel(Closed(u), n - 2);
    if top.children != [] {
      SpliceSnoc([], u[n - 2].children, Scoped(top.classes, top.children), n - 2);
    }
  }

  lemma SimulatesClose(c: Capped, u: seq<Open>)
    requires Simulates(c, u) && c.flattened == 0
    ensures Simulates(c.(open := Closed(c.open)), Closed(u))
  {
    hide Closed;
    hide SpliceInto;
    hide SplicedLevels;
    hide CanonicalLevels;
    ClosedIsCanonical(u);
    if |u| >= 2 {
      var u', c', n := Closed(u), Closed(c.open), |u|;
      ClosedLevels(u);
      ClosedLevels(c.open);
      forall k | 0 <= k < n - 1 ensures c'[k].classes == u'[k].classes {
        assert c.open[k].classes == u[k].classes;
      }
      forall k | 0 <= k < n - 2 ensures c'[k].children == SpliceInto([], u'[k].children, k) {
        assert c'[k] == c.open[k] && u'[k] == u[k];
      }
      ClosedTopIsSpliced(c, u);
    } else {
      RootStays(u);
      RootStays(c.open);
    }
  }

  lemma ClosedTopIsSpliced(c: Capped, u: seq<Open>)
    requires Simulates(c, u) && c.flattened == 0 && |u| >= 2
    ensures |Closed(c.open)| == |Closed(u)| == |u| - 1
    ensures Closed(c.open)[|u| - 2].children == SplicedLevels(Closed(u), |u| - 2, |u| - 1)
  {
    hide Closed;
    hide SpliceInto;
    hide SplicedLevels;
    hide CanonicalLevels;
    var n := |u|;
    InnermostIsSpliced(c, u);
    assert c.open[n - 2].children == SpliceInto([], u[n - 2].children, n - 2);
    assert c.open[n - 1].classes == u[n - 1].classes;
    ClosedTop(c.open, u);
  }

  lemma ClosedTop(open: seq<Open>, u: seq<Open>)
    requires 2 <= |open| == |u| <= MAX_SPAN_DEPTH + 1
    requires var n := |u|;
             && open[n - 1].classes == u[n - 1].classes
             && open[n - 2].children == SpliceInto([], u[n - 2].children, n - 2)
             && open[n - 1].children == SpliceInto([], u[n - 1].children, n - 1)
             && (open[n - 1].children == [] <==> u[n - 1].children == [])
    ensures |Closed(open)| == |Closed(u)| == |u| - 1
    ensures Closed(open)[|u| - 2].children == SplicedLevels(Closed(u), |u| - 2, |u| - 1)
  {
    hide Closed;
    hide SpliceInto;
    hide SplicedLevels;
    ClosedLevels(u);
    ClosedLevels(open);
    ClosedInto(u);
  }

  lemma RootStays(open: seq<Open>)
    requires |open| < 2
    ensures Closed(open) == open
  {
  }

  lemma InnermostIsSpliced(c: Capped, u: seq<Open>)
    requires Simulates(c, u) && c.flattened == 0 && |u| >= 2
    ensures var n := |u|;
            && c.open[n - 1].children == SpliceInto([], u[n - 1].children, n - 1)
            && (c.open[n - 1].children == [] <==> u[n - 1].children == [])
  {
    hide SplicedLevels;
    hide SpliceInto;
    hide Canonical;
    var n := |u|;
    OneLevel(u, n - 1);
    NothingIsCanonical();
    SpliceKeepsCanonical([], u[n - 1].children, n - 1);
    SpliceNothing([], n - 1);
  }

  lemma NothingIsCanonical()
    ensures Canonical([])
  {
  }

  lemma SimulatesStep(c: Capped, u: seq<Open>, op: Op)
    requires Simulates(c, u)
    ensures Simulates(CappedStep(c, op), UncappedStep(u, op))
  {
    match op
    case Push(classes) => SimulatesPush(c, u, classes);
    case Write(text) => SimulatesWrite(c, u, text);
    case Pop =>
      if c.flattened > 0 {
        SimulatesFlatPop(c, u);
      } else {
        SimulatesClose(c, u);
      }
  }

  /** `open.len() - 1 + flattened` is the uncapped depth, after every op. */
  lemma {:induction false} CappedSimulates(ops: seq<Op>)
    ensures Simulates(RunCapped(ops), Uncapped(ops))
    ensures |RunCapped(ops).open| - 1 + RunCapped(ops).flattened == |Uncapped(ops)| - 1
  {
    if ops == [] {
      assert SplicedLevels(ROOT, 0, 0) == [];
      assert SplicedLevels(ROOT, 0, 1) == [];
    } else {
      CappedSimulates(ops[..|ops| - 1]);
      SimulatesStep(RunCapped(ops[..|ops| - 1]), Uncapped(ops[..|ops| - 1]), ops[|ops| - 1]);
    }
  }

  lemma {:induction false} ClosingSimulates(c: Capped, u: seq<Open>)
    requires Simulates(c, u)
    ensures CloseAll(c.open) == Spliced(CloseAll(u))
    ensures Canonical(CloseAll(u))
    decreases |u|
  {
    if |u| == 1 {
      assert SplicedLevels(u, 0, 0) == [];
    } else if c.flattened > 0 {
      SimulatesFlatPop(c, u);
      ClosingSimulates(c.(flattened := c.flattened - 1), Closed(u));
    } else {
      SimulatesClose(c, u);
      ClosingSimulates(c.(open := Closed(c.open)), Closed(u));
    }
  }

  /** For every op sequence: the uncapped tree with spans past the cap spliced, canonical, at most 64 deep. */
  lemma CappedTreeIsSpliced(ops: seq<Op>)
    ensures CappedTree(ops) == Spliced(UncappedTree(ops))
    ensures Canonical(CappedTree(ops)) && DepthAtMost(CappedTree(ops), 64)
    ensures DepthAtMost(UncappedTree(ops), 64) ==> CappedTree(ops) == UncappedTree(ops)
  {
    CappedSimulates(ops);
    ClosingSimulates(RunCapped(ops), Uncapped(ops));
    SpliceKeepsCanonical([], UncappedTree(ops), 0);
    if DepthAtMost(UncappedTree(ops), 64) {
      ShallowIsUntouched(UncappedTree(ops), 0);
    }
  }

  /** Where the uncapped tree is within the cap, nothing is flattened. */
  lemma {:induction false} ShallowIsUntouched(spans: seq<Span>, depth: nat)
    requires Canonical(spans) && depth <= MAX_SPAN_DEPTH && DepthAtMost(spans, MAX_SPAN_DEPTH - depth)
    ensures SpliceInto([], spans, depth) == spans
    decreases spans
  {
    hide Canonical;
    hide CanonicalSpan;
    hide DepthAtMost;
    if spans != [] {
      var below, last := spans[..|spans| - 1], spans[|spans| - 1];
      CanonicalInit(spans, MAX_SPAN_DEPTH - depth);
      ShallowIsUntouched(below, depth);
      LastBack(spans);
      match last
      case Text(text) => assert WithText(below, text) == below + [last];
      case Scoped(classes, children) =>
        ShallowIsUntouched(children, depth + 1);
        assert AddSpliced(below, last, depth) == below + [last];
    }
  }

  /** A canonical tree without its last span, and that span. */
  lemma CanonicalInit(spans: seq<Span>, depth: nat)
    requires spans != [] && Canonical(spans) && DepthAtMost(spans, depth)
    ensures var below, last := spans[..|spans| - 1], spans[|spans| - 1];
            && Canonical(below) && DepthAtMost(below, depth) && CanonicalSpan(last)
            && (last.Scoped? ==> last.children != [] && Canonical(last.children))
            && (last.Scoped? ==> depth > 0 && DepthAtMost(last.children, depth - 1))
            && (last.Text? ==> last.text != [])
            && !(last.Text? && below != [] && below[|below| - 1].Text?)
  {
    var below := spans[..|spans| - 1];
    assert forall k | 0 <= k < |below| :: below[k] == spans[k];
  }

  // ----- Text is kept, in order -----

  function Words(spans: seq<Span>): Bytes
    decreases spans, 1
  {
    if spans == [] then [] else Words(spans[..|spans| - 1]) + WordsOf(spans[|spans| - 1])
  }

  function WordsOf(span: Span): Bytes
    decreases span, 0
  {
    match span
    case Text(text) => text
    case Scoped(_, children) => Words(children)
  }

  lemma WordsSnoc(spans: seq<Span>, span: Span)
    ensures Words(spans + [span]) == Words(spans) + WordsOf(span)
  {
    assert (spans + [span])[..|spans|] == spans;
  }

  lemma WordsWithText(spans: seq<Span>, text: Bytes)
    ensures Words(WithText(spans, text)) == Words(spans) + text
  {
    if text != [] {
      if spans != [] && spans[|spans| - 1].Text? {
        WordsSnoc(spans[..|spans| - 1], Text(spans[|spans| - 1].text + text));
      } else {
        WordsSnoc(spans, Text(text));
      }
    }
  }

  /** Everything written so far, level by level. */
  function OpenWords(open: seq<Open>): Bytes {
    if open == [] then [] else OpenWords(open[..|open| - 1]) + Words(open[|open| - 1].children)
  }

  lemma OpenWordsTop(open: seq<Open>)
    requires open != []
    ensures OpenWords(open) == OpenWords(open[..|open| - 1]) + Words(open[|open| - 1].children)
  {
  }

  lemma ClosedKeepsWords(open: seq<Open>)
    ensures OpenWords(Closed(open)) == OpenWords(open)
  {
    if |open| >= 2 {
      hide OpenWords;
      hide Words;
      var top, below := open[|open| - 1], open[..|open| - 1];
      OpenWordsTop(open);
      OpenWordsTop(below);
      if top.children != [] {
        var after := Closed(open);
        WordsSnoc(below[|below| - 1].children, Scoped(top.classes, top.children));
        OpenWordsTop(after);
        assert after[..|after| - 1] == below[..|below| - 1];
        Assoc(OpenWords(below[..|below| - 1]), Words(below[|below| - 1].children), Words(top.children));
      } else {
        NoWords();
      }
    }
  }

  lemma NoWords()
    ensures Words([]) == []
  {
  }

  lemma {:induction false} CloseAllKeepsWords(open: seq<Open>)
    requires open != []
    ensures Words(CloseAll(open)) == OpenWords(open)
    decreases |open|
  {
    if |open| == 1 {
      assert OpenWords(open[..0]) == [];
    } else {
      ClosedKeepsWords(open);
      CloseAllKeepsWords(Closed(open));
    }
  }

  function Written(ops: seq<Op>): Bytes {
    if ops == [] then []
    else Written(ops[..|ops| - 1]) + (if ops[|ops| - 1].Write? then ops[|ops| - 1].text else [])
  }

  lemma WriteKeepsWords(open: seq<Open>, text: Bytes)
    requires open != []
    ensures OpenWords(UncappedStep(open, Write(text))) == OpenWords(open) + text
  {
    hide Words;
    hide WithText;
    hide OpenWords;
    var top, after := open[|open| - 1].children, UncappedStep(open, Write(text));
    WordsWithText(top, text);
    assert after[..|open| - 1] == open[..|open| - 1];
    OpenWordsTop(open);
    OpenWordsTop(after);
    Assoc(OpenWords(open[..|open| - 1]), Words(top), text);
  }

  lemma StepKeepsWords(c: Capped, op: Op)
    requires c.open != []
    ensures OpenWords(CappedStep(c, op).open) == OpenWords(c.open) + (if op.Write? then op.text else [])
  {
    hide Words;
    hide WithText;
    hide OpenWords;
    hide Closed;
    match op
    case Push(classes) =>
      if |c.open| <= MAX_SPAN_DEPTH {
        var after := c.open + [Open(classes, [])];
        assert after[..|c.open|] == c.open;
        OpenWordsTop(after);
        NoWords();
      }
      assert OpenWords(c.open) + [] == OpenWords(c.open);
    case Pop =>
      ClosedKeepsWords(c.open);
      assert OpenWords(c.open) + [] == OpenWords(c.open);
    case Write(text) => WriteKeepsWords(c.open, text);
  }

  lemma {:induction false} RunKeepsWords(ops: seq<Op>)
    ensures OpenWords(RunCapped(ops).open) == Written(ops)
  {
    if ops == [] {
      assert ROOT[..0] == [];
    } else {
      RunKeepsWords(ops[..|ops| - 1]);
      StepKeepsWords(RunCapped(ops[..|ops| - 1]), ops[|ops| - 1]);
    }
  }

  lemma RunSnoc(done: seq<Op>, op: Op)
    ensures RunCapped(done + [op]) == CappedStep(RunCapped(done), op)
  {
    assert (done + [op])[..|done|] == done;
  }

  // ----- Lines as syntect parses them -----

  /** One of syntect's ops at a byte of its line: the basic ops it comes to, or `None` if it fails. */
  datatype ScopeOp = ScopeOp(at: nat, basic: Option<seq<Op>>)

  /** A line and its ops, or `None` if its grammar fails on it. */
  datatype Line = Line(text: Bytes, ops: Option<seq<ScopeOp>>)

  /** What is left to do of a line from `at`, as ops and text in order; no slice may cut a character. */
  function LineOps(text: Bytes, at: nat, ops: seq<ScopeOp>): Option<seq<Op>>
    requires at <= |text|
    decreases |ops|
  {
    if ops == [] then Some([Write(text[at..])])
    else if (at < ops[0].at && !IsBoundary(text, ops[0].at)) || ops[0].basic.None? then None
    else if at < ops[0].at then
      Then([Write(text[at..ops[0].at])] + ops[0].basic.value, LineOps(text, ops[0].at, ops[1..]))
    else Then(ops[0].basic.value, LineOps(text, at, ops[1..]))
  }

  /** The text between two places in a line, as what the machine is fed. */
  function TextBefore(text: Bytes, at: nat, next: nat): seq<Op>
    requires at < next ==> next <= |text|
  {
    if at < next then [Write(text[at..next])] else []
  }

  function Then(a: seq<Op>, b: Option<seq<Op>>): Option<seq<Op>> {
    match b
    case None => None
    case Some(ops) => Some(a + ops)
  }

  lemma ThenNothing(b: Option<seq<Op>>)
    ensures Then([], b) == b
  {
    if b.Some? {
      assert [] + b.value == b.value;
    }
  }

  function AllOps(lines: seq<Line>): Option<seq<Op>> {
    if lines == [] then Some([])
    else if lines[0].ops.None? then None
    else match LineOps(lines[0].text, 0, lines[0].ops.value)
      case None => None
      case Some(ops) => Then(ops, AllOps(lines[1..]))
  }

  function Code(lines: seq<Line>): Bytes {
    if lines == [] then [] else lines[0].text + Code(lines[1..])
  }

  predicate OnlyScopes(ops: seq<Op>) {
    forall op | op in ops :: !op.Write?
  }

  /** syntect's ops hold no text of their own. */
  predicate ScopesOnly(lines: seq<Line>) {
    forall line | line in lines && line.ops.Some? ::
      forall op | op in line.ops.value && op.basic.Some? :: OnlyScopes(op.basic.value)
  }

  lemma {:induction false} WrittenConcat(a: seq<Op>, b: seq<Op>)
    ensures Written(a + b) == Written(a) + Written(b)
  {
    if b == [] {
      assert a + b == a;
    } else {
      assert (a + b)[..|a + b| - 1] == a + b[..|b| - 1];
      WrittenConcat(a, b[..|b| - 1]);
    }
  }

  lemma {:induction false} ScopesWriteNothing(ops: seq<Op>)
    requires OnlyScopes(ops)
    ensures Written(ops) == []
  {
    if ops != [] {
      assert ops[|ops| - 1] in ops;
      ScopesWriteNothing(ops[..|ops| - 1]);
    }
  }

  lemma {:induction false} LineWritesItself(text: Bytes, at: nat, ops: seq<ScopeOp>)
    requires at <= |text|
    requires forall op | op in ops && op.basic.Some? :: OnlyScopes(op.basic.value)
    requires LineOps(text, at, ops).Some?
    ensures Written(LineOps(text, at, ops).value) == text[at..]
    decreases |ops|
  {
    hide Written;
    if ops == [] {
      OneWrite(text[at..]);
    } else {
      assert ops[0] in ops;
      var basic, stop := ops[0].basic.value, if at < ops[0].at then ops[0].at else at;
      var rest := LineOps(text, stop, ops[1..]).value;
      ScopesWriteNothing(basic);
      LineWritesItself(text, stop, ops[1..]);
      WrittenConcat(basic, rest);
      NothingFirst(text[stop..]);
      if at < ops[0].at {
        var piece := [Write(text[at..stop])];
        OneWrite(text[at..stop]);
        WrittenConcat(piece, basic + rest);
        Assoc(piece, basic, rest);
        CutJoins(text, at, stop);
      }
    }
  }

  lemma OneWrite(text: Bytes)
    ensures Written([Write(text)]) == text
  {
    assert [Write(text)][..0] == [];
  }

  lemma {:induction false} LinesWriteTheCode(lines: seq<Line>)
    requires ScopesOnly(lines) && AllOps(lines).Some?
    ensures Written(AllOps(lines).value) == Code(lines)
  {
    if lines != [] {
      assert lines[0] in lines;
      LineWritesItself(lines[0].text, 0, lines[0].ops.value);
      assert ScopesOnly(lines[1..]) by {
        assert forall line | line in lines[1..] :: line in lines;
      }
      LinesWriteTheCode(lines[1..]);
      WrittenConcat(LineOps(lines[0].text, 0, lines[0].ops.value).value, AllOps(lines[1..]).value);
      assert lines[0].text[0..] == lines[0].text;
    }
  }

  /** Highlighted code reads as the code: whenever a tree comes out, its text is the lines, in order. */
  lemma TreeReadsAsTheCode(lines: seq<Line>)
    requires ScopesOnly(lines) && AllOps(lines).Some?
    ensures Words(CappedTree(AllOps(lines).value)) == Code(lines)
  {
    var ops := AllOps(lines).value;
    LinesWriteTheCode(lines);
    RunKeepsWords(ops);
    CloseAllKeepsWords(RunCapped(ops).open);
  }

  // ----- The highlighter -----

  /** The spans open while code is highlighted; the first is the root. */
  class Highlighter {
    var open: seq<Open>
    var flattened: nat

    ghost function View(): Capped
      reads this
    {
      Capped(open, flattened)
    }

    constructor ()
      ensures View() == RunCapped([])
    {
      open, flattened := ROOT, 0;
    }

    method PushText(text: Bytes)
      requires open != []
      modifies this
      ensures View() == CappedStep(old(View()), Write(text))
    {
      if text == [] {
        assert WithTop(open, open[|open| - 1].children) == open;
        return;
      }
      var children := open[|open| - 1].children;
      if children != [] && children[|children| - 1].Text? {
        var last := children[|children| - 1].text;
        children := children[|children| - 1 := Text(last + text)];
        assert children == WithText(open[|open| - 1].children, text);
      } else {
        children := children + [Text(text)];
      }
      open := open[|open| - 1 := open[|open| - 1].(children := children)];
    }

    method CloseSpan()
      requires open != []
      modifies this
      ensures open == Closed(old(open)) && flattened == old(flattened)
    {
      if |open| < 2 {
        return;
      }
      var top := open[|open| - 1];
      open := open[..|open| - 1];
      if top.children == [] {
        return;
      }
      var parent := open[|open| - 1];
      open := open[|open| - 1 := parent.(children := parent.children + [Scoped(top.classes, top.children)])];
    }

    /** The hook syntect calls with each basic op. */
    method Hook(op: Op)
      requires open != []
      modifies this
      ensures View() == CappedStep(old(View()), op)
    {
      match op
      case Push(classes) =>
        if |open| > MAX_SPAN_DEPTH {
          flattened := flattened + 1;
        } else {
          open := open + [Open(classes, [])];
        }
      case Pop =>
        if flattened > 0 {
          flattened := flattened - 1;
        } else {
          CloseSpan();
        }
      case Write(text) => PushText(text);
    }

    method HookAll(ops: seq<Op>, ghost done: seq<Op>)
      requires View() == RunCapped(done)
      modifies this
      ensures View() == RunCapped(done + ops)
    {
      hide RunCapped;
      hide CappedStep;
      assert done + ops[..0] == done;
      for i := 0 to |ops|
        invariant View() == RunCapped(done + ops[..i])
      {
        RunSnoc(done + ops[..i], ops[i]);
        OneMore(ops, i);
        Assoc(done, ops[..i], [ops[i]]);
        Hook(ops[i]);
      }
      assert ops[..|ops|] == ops;
    }

    /** The text before one of syntect's ops, then the op; fails where slicing or applying it does. */
    method HookAt(text: Bytes, at: nat, op: ScopeOp, ghost done: seq<Op>) returns (ok: bool, next: nat)
      requires View() == RunCapped(done) && at <= |text|
      modifies this
      ensures ok == ((at < op.at ==> IsBoundary(text, op.at)) && op.basic.Some?)
      ensures ok ==> next == (if at < op.at then op.at else at) && next <= |text|
      ensures ok ==> View() == RunCapped(done + TextBefore(text, at, op.at) + op.basic.value)
    {
      next := at;
      assert done + [] == done;
      if at < op.at {
        if !IsBoundary(text, op.at) {
          return false, at;
        }
        HookAll(TextBefore(text, at, op.at), done);
        next := op.at;
      }
      if op.basic.None? {
        return false, at;
      }
      HookAll(op.basic.value, done + TextBefore(text, at, op.at));
      ok := true;
    }

    /** One line: each op's text before it, the op, and at the end the rest. */
    method HighlightLine(line: Line, ghost done: seq<Op>) returns (ok: bool)
      requires View() == RunCapped(done)
      modifies this
      ensures var ops := if line.ops.Some? then LineOps(line.text, 0, line.ops.value) else None;
              ok == ops.Some? && (ok ==> View() == RunCapped(done + ops.value))
    {
      hide LineOps;
      hide RunCapped;
      hide CappedStep;
      hide TextBefore;
      if line.ops.None? {
        return false;
      }
      var ops := line.ops.value;
      ghost var did: seq<Op> := [];
      ghost var all := LineOps(line.text, 0, ops);
      var at: nat := 0;
      assert done + did == done;
      ThenNothing(all);
      assert ops[0..] == ops;
      for i := 0 to |ops|
        invariant at <= |line.text|
        invariant View() == RunCapped(done + did)
        invariant all == Then(did, LineOps(line.text, at, ops[i..]))
      {
        LineOpsStep(line.text, at, ops, i, did);
        ghost var piece :=
          if at < ops[i].at && !IsBoundary(line.text, ops[i].at) then [] else TextBefore(line.text, at, ops[i].at);
        ok, at := HookAt(line.text, at, ops[i], done + did);
        if !ok {
          return false;
        }
        assert done + did + piece + ops[i].basic.value == done + (did + piece + ops[i].basic.value);
        did := did + piece + ops[i].basic.value;
      }
      assert ops[|ops|..] == [];
      LineOpsEnd(line.text, at, did);
      HookAll([Write(line.text[at..])], done + did);
      assert done + did + [Write(line.text[at..])] == done + (did + [Write(line.text[at..])]);
      return true;
    }
  }

  lemma LineOpsEnd(text: Bytes, at: nat, did: seq<Op>)
    requires at <= |text|
    ensures Then(did, LineOps(text, at, [])) == Some(did + [Write(text[at..])])
  {
  }

  lemma LineOpsStep(text: Bytes, at: nat, ops: seq<ScopeOp>, i: nat, did: seq<Op>)
    requires at <= |text| && i < |ops|
    ensures var all, op := Then(did, LineOps(text, at, ops[i..])), ops[i];
            if (at < op.at && !IsBoundary(text, op.at)) || op.basic.None? then all == None
            else
              all == Then(did + TextBefore(text, at, op.at) + op.basic.value,
                          LineOps(text, if at < op.at then op.at else at, ops[i + 1..]))
  {
    var op := ops[i];
    assert ops[i..][1..] == ops[i + 1..];
    if (at < op.at ==> IsBoundary(text, op.at)) && op.basic.Some? {
      var piece := TextBefore(text, at, op.at);
      var rest := LineOps(text, if at < op.at then op.at else at, ops[i + 1..]);
      if rest.Some? {
        assert piece == [] ==> op.basic.value == piece + op.basic.value;
        assert did + (piece + op.basic.value + rest.value) == did + piece + op.basic.value + rest.value;
      }
    }
  }

  lemma AllOpsStep(lines: seq<Line>, i: nat, done: seq<Op>)
    requires i < |lines|
    ensures var all, line := Then(done, AllOps(lines[i..])), lines[i];
            var ops := if line.ops.Some? then LineOps(line.text, 0, line.ops.value) else None;
            if ops.None? then all == None else all == Then(done + ops.value, AllOps(lines[i + 1..]))
  {
    assert lines[i..][1..] == lines[i + 1..];
    var ops := if lines[i].ops.Some? then LineOps(lines[i].text, 0, lines[i].ops.value) else None;
    var rest := AllOps(lines[i + 1..]);
    if ops.Some? && rest.Some? {
      assert done + (ops.value + rest.value) == done + ops.value + rest.value;
    }
  }

  /** `code`, as the lines syntect parsed, highlighted. */
  method HighlightCode(lines: seq<Line>) returns (tree: Option<seq<Span>>)
    ensures tree == match AllOps(lines)
                    case None => None
                    case Some(ops) => Some(CappedTree(ops))
  {
    var h := new Highlighter();
    ghost var done: seq<Op> := [];
    assert lines[0..] == lines;
    ThenNothing(AllOps(lines));
    for i := 0 to |lines|
      invariant h.View() == RunCapped(done)
      invariant AllOps(lines) == Then(done, AllOps(lines[i..]))
    {
      AllOpsStep(lines, i, done);
      var ok := h.HighlightLine(lines[i], done);
      if !ok {
        return None;
      }
      done := done + LineOps(lines[i].text, 0, lines[i].ops.value).value;
    }
    assert lines[|lines|..] == [];
    assert done + [] == done;
    while |h.open| > 1
      invariant h.open != [] && CloseAll(h.open) == CappedTree(done)
      decreases |h.open|
    {
      h.CloseSpan();
    }
    return Some(h.open[0].children);
  }
}

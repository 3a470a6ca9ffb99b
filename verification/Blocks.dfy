/**
 A reply's content blocks as a provider streams them (`src/anthropic/stream.rs`).

 `Reply` is what the stream means: per block index, the finished blocks and the one still open.
 `Blocks` is the class the stream loop drives, with its two ordered maps; every method is proved
 against the meaning. The laws are about the meaning: events at different indexes commute, nothing
 streamed is lost, and the order in which a provider stops its blocks does not matter.
 */
module StreamBlocks {
  import opened Sequences
  import opened Wrappers

  const USIZE_MAX: nat := 0xFFFF_FFFF_FFFF_FFFF

  type Index = i: nat | i <= USIZE_MAX

  /** A JSON value; only the empty object is named here. */
  datatype Value = EmptyObject | Other(id: nat)

  /** JSON parsing, taken as any function from a text to a value or an error's words. */
  type JsonParser = string -> Result<Value, string>

  datatype PartialBlock =
    | Text(text: string)
    | ToolUse(id: string, name: string, partialJson: string)
    | Thinking(thinking: string, signature: string)

  datatype ContentBlock =
    | TextBlock(text: string)
    | ToolUseBlock(id: string, name: string, input: Value)
    | ThinkingBlock(thinking: string, signature: string)

  /** A finished block; a tool call whose input doesn't parse waits for the reply's stop reason. */
  datatype Finished = Block(block: ContentBlock) | UnparsedCall(name: string, error: string) {
    function ToolName(): Option<string> {
      match this
      case Block(ToolUseBlock(_, name, _)) => Some(name)
      case UnparsedCall(name, _) => Some(name)
      case Block(_) => None
    }
  }

  function ParseFailure(name: string, e: string): string {
    "failed to parse tool_use input JSON for " + name + ": " + e
  }

  function Finalize(parse: JsonParser, block: PartialBlock): Finished {
    match block
    case Text(text) => Block(TextBlock(text))
    case Thinking(thinking, signature) => Block(ThinkingBlock(thinking, signature))
    case ToolUse(id, name, json) =>
      if json == "" then Block(ToolUseBlock(id, name, EmptyObject))
      else match parse(json)
        case Ok(input) => Block(ToolUseBlock(id, name, input))
        case Err(e) => UnparsedCall(name, ParseFailure(name, e))
  }

  predicate IsPlainToolNameChar(c: char) {
    'a' <= c <= 'z' || 'A' <= c <= 'Z' || '0' <= c <= '9' || c == '_' || c == '-' || c == '.'
  }

  predicate IsPlainToolName(name: string) {
    1 <= |name| <= 128 && forall c | c in name :: IsPlainToolNameChar(c)
  }

  predicate IsCutOff(stopReason: string) {
    stopReason == "max_tokens" || stopReason == "model_context_window_exceeded"
  }

  predicate StoppedEarly(stopReason: string) {
    IsCutOff(stopReason) || stopReason == "refusal"
  }

  // ----- What a stream means -----

  /** One index's blocks: those finished, in the order they finished, and the one still open. */
  datatype Slot = Slot(open: Option<PartialBlock>, done: seq<Finished>)

  const EmptySlot := Slot(None, [])

  /** The stream so far: a slot per index seen, and the index opened last. */
  datatype Reply = Reply(slots: map<Index, Slot>, last: Option<Index>) {
    function At(i: Index): Slot {
      if i in slots then slots[i] else EmptySlot
    }

    function With(i: Index, slot: Slot): Reply {
      this.(slots := slots[i := slot])
    }
  }

  const EmptyReply := Reply(map[], None)

  /** What the stream loop feeds the blocks, each with the index its event names, if any. */
  datatype Event =
    | TextDelta(text: string)
    | ThinkingDelta(thinking: string)
    | SignatureDelta(signature: string)
    | ToolStart(id: string, name: string)
    | ToolInput(json: string)
    | BlockStop

  function StopSlot(parse: JsonParser, slot: Slot): Slot {
    match slot.open
    case None => slot
    case Some(block) => Slot(None, slot.done + [Finalize(parse, block)])
  }

  function StartSlot(parse: JsonParser, slot: Slot, block: PartialBlock): Slot {
    match (slot.open, block)
    case (Some(ToolUse(id, _, json)), ToolUse(newId, newName, _)) =>
      if id == newId then slot.(open := Some(ToolUse(id, newName, json)))
      else StopSlot(parse, slot).(open := Some(block))
    case _ => StopSlot(parse, slot).(open := Some(block))
  }

  /** An open block with a delta added to it, if it is the kind that takes the delta. */
  function Extended(block: PartialBlock, e: Event): Option<PartialBlock> {
    match (block, e)
    case (Text(x), TextDelta(t)) => Some(Text(x + t))
    case (Thinking(x, s), ThinkingDelta(t)) => Some(Thinking(x + t, s))
    case (Thinking(x, s), SignatureDelta(t)) => Some(Thinking(x, s + t))
    case (ToolUse(id, n, x), ToolInput(t)) => Some(ToolUse(id, n, x + t))
    case _ => None
  }

  /** The block an event opens when no open block takes it; signatures and tool input open none. */
  function Opened(e: Event): Option<PartialBlock> {
    match e
    case TextDelta(t) => Some(Text(t))
    case ThinkingDelta(t) => Some(Thinking(t, ""))
    case ToolStart(id, name) => Some(ToolUse(id, name, ""))
    case _ => None
  }

  function SlotExtended(slot: Slot, e: Event): Option<PartialBlock> {
    if slot.open.Some? then Extended(slot.open.value, e) else None
  }

  /** What one event with an index does to that index's slot. */
  function SlotStep(parse: JsonParser, slot: Slot, e: Event): Slot {
    if e.BlockStop? then StopSlot(parse, slot)
    else if SlotExtended(slot, e).Some? then slot.(open := SlotExtended(slot, e))
    else if Opened(e).Some? then StartSlot(parse, slot, Opened(e).value)
    else slot
  }

  lemma {:induction false} Greatest(s: set<nat>) returns (m: nat)
    requires s != {}
    ensures m in s && forall x | x in s :: x <= m
    decreases |s|
  {
    var x :| x in s;
    m := x;
    if s - {x} != {} {
      var other := Greatest(s - {x});
      m := if m < other then other else m;
    }
    forall y | y in s ensures y <= m {
      assert y == x || y in s - {x};
    }
  }

  lemma {:induction false} Least(s: set<nat>) returns (m: nat)
    requires s != {}
    ensures m in s && forall x | x in s :: m <= x
    decreases |s|
  {
    var x :| x in s;
    m := x;
    if s - {x} != {} {
      var other := Least(s - {x});
      m := if other < m then other else m;
    }
    forall y | y in s ensures m <= y {
      assert y == x || y in s - {x};
    }
  }

  lemma GreatestExists(s: set<nat>)
    requires s != {}
    ensures exists m :: m in s && forall x | x in s :: x <= m
  {
    var m := Greatest(s);
  }

  /** The index after every one in `seen`, without the machine's limit. */
  ghost function Above(seen: set<nat>): (n: nat)
    ensures forall i | i in seen :: i < n
    ensures n == 0 || n - 1 in seen
  {
    if seen == {} then 0 else
      GreatestExists(seen);
      var m :| m in seen && forall x | x in seen :: x <= m;
      m + 1
  }

  /** Where an event without an index opens a block: after every index seen, saturating. */
  ghost function NextIndex(r: Reply): Index {
    var n := Above(r.slots.Keys);
    if n <= USIZE_MAX then n else USIZE_MAX
  }

  /** The index an event lands on. */
  ghost function Lands(r: Reply, index: Option<Index>, e: Event): Option<Index> {
    var target := index.Or(r.last);
    if target.Some? && (e.BlockStop? || SlotExtended(r.At(target.value), e).Some?) then target
    else if Opened(e).Some? then Some(index.GetOr(NextIndex(r)))
    else None
  }

  /** `block` opened at `index`, or after every block seen. */
  ghost function StartReply(parse: JsonParser, r: Reply, index: Option<Index>, block: PartialBlock): Reply {
    var i := index.GetOr(NextIndex(r));
    r.With(i, StartSlot(parse, r.At(i), block)).(last := Some(i))
  }

  /** What one event does to the stream. */
  ghost function Step(parse: JsonParser, r: Reply, index: Option<Index>, e: Event): Reply {
    var target := index.Or(r.last);
    if e.BlockStop? then
      if target.Some? && r.At(target.value).open.Some? then
        r.With(target.value, StopSlot(parse, r.At(target.value)))
      else r
    else if target.Some? && SlotExtended(r.At(target.value), e).Some? then
      r.With(target.value, r.At(target.value).(open := SlotExtended(r.At(target.value), e)))
    else if Opened(e).Some? then StartReply(parse, r, index, Opened(e).value)
    else r
  }

  /** The finished blocks at indexes below `n`, in index order, with every open block stopped. */
  ghost function BlocksBelow(parse: JsonParser, r: Reply, n: nat): seq<Finished>
    requires n <= USIZE_MAX + 1
  {
    if n == 0 then [] else BlocksBelow(parse, r, n - 1) + StopSlot(parse, r.At(n - 1)).done
  }

  ghost function AllBlocks(parse: JsonParser, r: Reply): seq<Finished> {
    BlocksBelow(parse, r, Above(r.slots.Keys))
  }

  /** The blocks of a finished list, or the first unparsed call's error. */
  function Collect(blocks: seq<Finished>): Result<seq<ContentBlock>, string> {
    if blocks == [] then Ok([])
    else match blocks[0]
      case UnparsedCall(_, error) => Err(error)
      case Block(block) =>
        match Collect(blocks[1..])
        case Ok(rest) => Ok([block] + rest)
        case Err(e) => Err(e)
  }

  /** Whether a stop reason drops the last of these blocks: it stopped early, in a tool call. */
  predicate DropsLast(blocks: seq<Finished>, stopReason: string) {
    StoppedEarly(stopReason) && blocks != [] && blocks[|blocks| - 1].ToolName().Some?
  }

  type Outcome = Result<(seq<ContentBlock>, Option<string>), string>

  /** A finished reply: its content and the call it was cut off in. */
  function Assemble(blocks: seq<Finished>, stopReason: string): Outcome {
    var dropped := DropsLast(blocks, stopReason);
    var kept := if dropped then blocks[..|blocks| - 1] else blocks;
    var name := if dropped then blocks[|blocks| - 1].ToolName() else None;
    match Collect(kept)
    case Err(e) => Err(e)
    case Ok(content) => Ok((content, if name.Some? && IsPlainToolName(name.value) then name else None))
  }

  // ----- Events at different indexes commute -----

  datatype Arrival = Arrival(index: Option<Index>, event: Event)

  ghost function Run(parse: JsonParser, r: Reply, es: seq<Arrival>): Reply
    decreases |es|
  {
    if es == [] then r else Run(parse, Step(parse, r, es[0].index, es[0].event), es[1..])
  }

  /** What the stream loop returns for a whole stream. */
  ghost function Streamed(parse: JsonParser, es: seq<Arrival>, stopReason: string): Outcome {
    Assemble(AllBlocks(parse, Run(parse, EmptyReply, es)), stopReason)
  }

  function RunSlot(parse: JsonParser, slot: Slot, es: seq<Event>): Slot
    decreases |es|
  {
    if es == [] then slot else RunSlot(parse, SlotStep(parse, slot, es[0]), es[1..])
  }

  /** The events that name index `i`, in order. */
  function Project(es: seq<Arrival>, i: Index): seq<Event> {
    if es == [] then []
    else (if es[0].index == Some(i) then [es[0].event] else []) + Project(es[1..], i)
  }

  predicate AllIndexed(es: seq<Arrival>) {
    forall e | e in es :: e.index.Some?
  }

  lemma StepIsLocal(parse: JsonParser, r: Reply, i: Index, e: Event, j: Index)
    ensures Step(parse, r, Some(i), e).At(j) == if j == i then SlotStep(parse, r.At(i), e) else r.At(j)
  {
  }

  lemma {:induction false} RunProjects(parse: JsonParser, r: Reply, es: seq<Arrival>, j: Index)
    requires AllIndexed(es)
    ensures Run(parse, r, es).At(j) == RunSlot(parse, r.At(j), Project(es, j))
    decreases |es|
  {
    if es != [] {
      assert es[0] in es;
      var next := Step(parse, r, es[0].index, es[0].event);
      StepIsLocal(parse, r, es[0].index.value, es[0].event, j);
      RunProjects(parse, next, es[1..], j);
      var rest := Project(es[1..], j);
      if es[0].index == Some(j) {
        assert ([es[0].event] + rest)[1..] == rest;
      } else {
        assert Project(es, j) == rest;
      }
    }
  }

  lemma {:induction false} BelowIsStable(parse: JsonParser, r: Reply, n: nat)
    requires Above(r.slots.Keys) <= n <= USIZE_MAX + 1
    ensures BlocksBelow(parse, r, n) == AllBlocks(parse, r)
    decreases n
  {
    if Above(r.slots.Keys) < n {
      assert n - 1 !in r.slots.Keys;
      BelowIsStable(parse, r, n - 1);
    }
  }

  /** Every slot holds the same blocks once stopped. */
  ghost predicate SameBlocks(parse: JsonParser, r: Reply, r': Reply) {
    forall i: Index :: StopSlot(parse, r.At(i)).done == StopSlot(parse, r'.At(i)).done
  }

  lemma {:induction false} SameSlotsSameBlocksBelow(parse: JsonParser, r: Reply, r': Reply, n: nat)
    requires n <= USIZE_MAX + 1
    requires SameBlocks(parse, r, r')
    ensures BlocksBelow(parse, r, n) == BlocksBelow(parse, r', n)
  {
    if n > 0 {
      SameSlotsSameBlocksBelow(parse, r, r', n - 1);
    }
  }

  lemma SameSlotsSameBlocks(parse: JsonParser, r: Reply, r': Reply)
    requires SameBlocks(parse, r, r')
    ensures AllBlocks(parse, r) == AllBlocks(parse, r')
  {
    AboveFits(r);
    AboveFits(r');
    BelowIsStable(parse, r, USIZE_MAX + 1);
    BelowIsStable(parse, r', USIZE_MAX + 1);
    SameSlotsSameBlocksBelow(parse, r, r', USIZE_MAX + 1);
  }

  lemma AboveFits(r: Reply)
    ensures Above(r.slots.Keys) <= USIZE_MAX + 1
  {
  }

  /**
   A stream's reply depends only on what each index was sent: any interleaving across indexes gives
   the same content, the same cut-off call and the same error.
   */
  lemma InterleavingIsIrrelevant(parse: JsonParser, es: seq<Arrival>, es': seq<Arrival>, stopReason: string)
    requires AllIndexed(es) && AllIndexed(es')
    requires forall i: Index :: Project(es, i) == Project(es', i)
    ensures Streamed(parse, es, stopReason) == Streamed(parse, es', stopReason)
  {
    var r, r' := Run(parse, EmptyReply, es), Run(parse, EmptyReply, es');
    forall i: Index ensures r.At(i) == r'.At(i) {
      RunProjects(parse, EmptyReply, es, i);
      RunProjects(parse, EmptyReply, es', i);
    }
    SameSlotsSameBlocks(parse, r, r');
  }

  /** One block's index and what it was sent before its stop. */
  datatype Sent = Sent(index: Index, events: seq<Event>)

  function Indexed(index: Index, es: seq<Event>): seq<Arrival> {
    if es == [] then [] else [Arrival(Some(index), es[0])] + Indexed(index, es[1..])
  }

  /** Each block stopped before the next (Anthropic, Ollama). */
  function StopEach(blocks: seq<Sent>): seq<Arrival> {
    if blocks == [] then []
    else
      Indexed(blocks[0].index, blocks[0].events) + [Arrival(Some(blocks[0].index), BlockStop)]
      + StopEach(blocks[1..])
  }

  function SentOnly(blocks: seq<Sent>): seq<Arrival> {
    if blocks == [] then [] else Indexed(blocks[0].index, blocks[0].events) + SentOnly(blocks[1..])
  }

  function Stops(blocks: seq<Sent>): seq<Arrival> {
    if blocks == [] then [] else [Arrival(Some(blocks[0].index), BlockStop)] + Stops(blocks[1..])
  }

  predicate Distinct(blocks: seq<Sent>) {
    forall a, b | 0 <= a < b < |blocks| :: blocks[a].index != blocks[b].index
  }

  lemma {:induction false} ProjectConcat(a: seq<Arrival>, b: seq<Arrival>, i: Index)
    ensures Project(a + b, i) == Project(a, i) + Project(b, i)
  {
    if a == [] {
      assert a + b == b;
    } else {
      ConcatTail(a, b);
      ProjectConcat(a[1..], b, i);
      Assoc(Project([a[0]], i), Project(a[1..], i), Project(b, i));
      assert Project([a[0]], i) == if a[0].index == Some(i) then [a[0].event] else [];
    }
  }

  lemma {:induction false} ProjectIndexed(index: Index, es: seq<Event>, i: Index)
    ensures Project(Indexed(index, es), i) == if i == index then es else []
    ensures AllIndexed(Indexed(index, es))
  {
    if es != [] {
      ProjectIndexed(index, es[1..], i);
      assert Indexed(index, es)[1..] == Indexed(index, es[1..]);
    }
  }

  lemma {:induction false} SentAreIndexed(blocks: seq<Sent>)
    ensures AllIndexed(StopEach(blocks)) && AllIndexed(SentOnly(blocks)) && AllIndexed(Stops(blocks))
  {
    if blocks != [] {
      SentAreIndexed(blocks[1..]);
      ProjectIndexed(blocks[0].index, blocks[0].events, 0);
    }
  }

  lemma {:induction false} SentElsewhere(blocks: seq<Sent>, i: Index)
    requires forall b | b in blocks :: b.index != i
    ensures Project(SentOnly(blocks), i) == [] && Project(Stops(blocks), i) == []
  {
    if blocks != [] {
      var first, rest := blocks[0], blocks[1..];
      assert first in blocks && forall b | b in rest :: b in blocks;
      SentElsewhere(rest, i);
      ProjectIndexed(first.index, first.events, i);
      ProjectConcat(Indexed(first.index, first.events), SentOnly(rest), i);
      ProjectConcat([Arrival(Some(first.index), BlockStop)], Stops(rest), i);
    }
  }

  lemma ProjectStop(index: Index, i: Index)
    ensures Project([Arrival(Some(index), BlockStop)], i) == if i == index then [BlockStop] else []
  {
    assert [Arrival(Some(index), BlockStop)][1..] == [];
  }

  lemma Shuffle(a: seq<Event>, b: seq<Event>, c: seq<Event>, d: seq<Event>)
    requires (a == [] && b == []) || (c == [] && d == [])
    ensures (a + b) + (c + d) == (a + c) + (b + d)
  {
  }

  lemma {:induction false} StopOrdersProjectAlike(blocks: seq<Sent>, i: Index)
    requires Distinct(blocks)
    ensures Project(StopEach(blocks), i) == Project(SentOnly(blocks), i) + Project(Stops(blocks), i)
  {
    if blocks != [] {
      var first, rest := blocks[0], blocks[1..];
      StopOrdersProjectAlike(rest, i);
      ProjectIndexed(first.index, first.events, i);
      ProjectStop(first.index, i);
      var sent, stop := Indexed(first.index, first.events), [Arrival(Some(first.index), BlockStop)];
      ProjectConcat(sent + stop, StopEach(rest), i);
      ProjectConcat(sent, stop, i);
      ProjectConcat(sent, SentOnly(rest), i);
      ProjectConcat(stop, Stops(rest), i);
      if first.index == i {
        forall b | b in rest ensures b.index != i {
          var k :| 0 <= k < |rest| && rest[k] == b;
          assert blocks[0].index != blocks[k + 1].index;
        }
        SentElsewhere(rest, i);
      }
      Shuffle(Project(sent, i), Project(stop, i), Project(SentOnly(rest), i), Project(Stops(rest), i));
    }
  }

  /** Stopping each block before the next and stopping them all at the end give the same reply. */
  lemma StopOrderIsIrrelevant(parse: JsonParser, blocks: seq<Sent>, stopReason: string)
    requires Distinct(blocks)
    ensures Streamed(parse, StopEach(blocks), stopReason)
            == Streamed(parse, SentOnly(blocks) + Stops(blocks), stopReason)
  {
    forall i: Index ensures Project(StopEach(blocks), i) == Project(SentOnly(blocks) + Stops(blocks), i) {
      StopOrdersProjectAlike(blocks, i);
      ProjectConcat(SentOnly(blocks), Stops(blocks), i);
    }
    SentAreIndexed(blocks);
    InterleavingIsIrrelevant(parse, StopEach(blocks), SentOnly(blocks) + Stops(blocks), stopReason);
  }

  // ----- Nothing streamed is lost -----

  /** The parts of a reply that deltas add to. */
  datatype Part = TextPart | ThinkingPart | SignaturePart

  function PartOf(part: Part, block: ContentBlock): string {
    match (part, block)
    case (TextPart, TextBlock(text)) => text
    case (ThinkingPart, ThinkingBlock(thinking, _)) => thinking
    case (SignaturePart, ThinkingBlock(_, signature)) => signature
    case _ => ""
  }

  function FinishedPart(part: Part, f: Finished): string {
    if f.Block? then PartOf(part, f.block) else ""
  }

  function BlocksPart(part: Part, done: seq<Finished>): string {
    if done == [] then "" else FinishedPart(part, done[0]) + BlocksPart(part, done[1..])
  }

  /** Everything written at a slot, in its finished blocks and its open one. */
  function SlotPart(parse: JsonParser, part: Part, slot: Slot): string {
    BlocksPart(part, StopSlot(parse, slot).done)
  }

  lemma {:induction false} PartsConcat(part: Part, a: seq<Finished>, b: seq<Finished>)
    ensures BlocksPart(part, a + b) == BlocksPart(part, a) + BlocksPart(part, b)
  {
    hide FinishedPart;
    if a == [] {
      assert a + b == b;
    } else {
      ConcatTail(a, b);
      PartsConcat(part, a[1..], b);
      Assoc(FinishedPart(part, a[0]), BlocksPart(part, a[1..]), BlocksPart(part, b));
    }
  }

  /** What an event adds to a part. */
  function PartIn(part: Part, e: Event): string {
    match (part, e)
    case (TextPart, TextDelta(text)) => text
    case (ThinkingPart, ThinkingDelta(thinking)) => thinking
    case (SignaturePart, SignatureDelta(signature)) => signature
    case _ => ""
  }

  lemma OneMoreBlock(part: Part, done: seq<Finished>, f: Finished)
    ensures BlocksPart(part, done + [f]) == BlocksPart(part, done) + FinishedPart(part, f)
  {
    hide FinishedPart;
    PartsConcat(part, done, [f]);
    assert [f][1..] == [];
  }

  function OpenPart(part: Part, open: Option<PartialBlock>): string {
    match (part, open)
    case (TextPart, Some(Text(text))) => text
    case (ThinkingPart, Some(Thinking(thinking, _))) => thinking
    case (SignaturePart, Some(Thinking(_, signature))) => signature
    case _ => ""
  }

  /** What the open block adds to its slot's parts. */
  lemma SlotPartSplits(parse: JsonParser, part: Part, slot: Slot)
    ensures SlotPart(parse, part, slot) == BlocksPart(part, slot.done) + OpenPart(part, slot.open)
  {
    hide BlocksPart;
    if slot.open.Some? {
      OneMoreBlock(part, slot.done, Finalize(parse, slot.open.value));
    }
  }

  lemma StartedSlotPart(parse: JsonParser, part: Part, slot: Slot, e: Event)
    requires Opened(e).Some?
    ensures var after := StartSlot(parse, slot, Opened(e).value);
            SlotPart(parse, part, after) == SlotPart(parse, part, slot) + PartIn(part, e) && slot.done <= after.done
  {
    hide BlocksPart;
    SlotPartSplits(parse, part, StartSlot(parse, slot, Opened(e).value));
    SlotPartSplits(parse, part, slot);
  }

  lemma ExtendedOpenPart(part: Part, block: PartialBlock, e: Event)
    requires Extended(block, e).Some?
    ensures OpenPart(part, Extended(block, e)) == OpenPart(part, Some(block)) + PartIn(part, e)
  {
  }

  lemma ExtendedSlotPart(parse: JsonParser, part: Part, slot: Slot, e: Event)
    requires SlotExtended(slot, e).Some?
    ensures SlotPart(parse, part, slot.(open := SlotExtended(slot, e))) == SlotPart(parse, part, slot) + PartIn(part, e)
  {
    hide BlocksPart;
    hide SlotPart;
    hide OpenPart;
    hide PartIn;
    ExtendedOpenPart(part, slot.open.value, e);
    SlotPartSplits(parse, part, slot.(open := SlotExtended(slot, e)));
    SlotPartSplits(parse, part, slot);
    Assoc(BlocksPart(part, slot.done), OpenPart(part, slot.open), PartIn(part, e));
  }

  /**
   Each delta, with an index or without, is appended to at most one slot, and a text or thinking delta to
   exactly one; every other slot is untouched, and no finished block is ever changed.
   */
  lemma DeltasLandOnce(parse: JsonParser, part: Part, r: Reply, index: Option<Index>, e: Event, j: Index)
    ensures var before, after := r.At(j), Step(parse, r, index, e).At(j);
            var here := Lands(r, index, e) == Some(j);
            && SlotPart(parse, part, after) == SlotPart(parse, part, before) + (if here then PartIn(part, e) else "")
            && before.done <= after.done
            && (!here ==> after == before)
    ensures e.TextDelta? || e.ThinkingDelta? || e.ToolStart? ==> Lands(r, index, e).Some?
  {
    hide Step;
    hide Lands;
    hide SlotPart;
    hide StopSlot;
    hide StartSlot;
    hide SlotExtended;
    var slot := r.At(j);
    LandsOnSlot(parse, r, index, e, j);
    if Lands(r, index, e) == Some(j) {
      StoppedSlotPart(parse, part, slot);
      if SlotExtended(slot, e).Some? {
        ExtendedSlotPart(parse, part, slot, e);
      }
      if Opened(e).Some? {
        StartedSlotPart(parse, part, slot, e);
      }
    }
  }

  lemma StoppedSlotPart(parse: JsonParser, part: Part, slot: Slot)
    ensures SlotPart(parse, part, StopSlot(parse, slot)) == SlotPart(parse, part, slot)
    ensures slot.done <= StopSlot(parse, slot).done
  {
    hide BlocksPart;
    assert StopSlot(parse, StopSlot(parse, slot)) == StopSlot(parse, slot);
  }

  /** The slot an event lands on is stopped, extended or started on; every other is as it was. */
  lemma LandsOnSlot(parse: JsonParser, r: Reply, index: Option<Index>, e: Event, j: Index)
    ensures var before, after := r.At(j), Step(parse, r, index, e).At(j);
            if Lands(r, index, e) != Some(j) then after == before
            else if e.BlockStop? then after == StopSlot(parse, before)
            else || (SlotExtended(before, e).Some? && after == before.(open := SlotExtended(before, e)))
                 || (Opened(e).Some? && after == StartSlot(parse, before, Opened(e).value))
    ensures e.TextDelta? || e.ThinkingDelta? || e.ToolStart? ==> Lands(r, index, e).Some?
  {
    hide StartSlot;
    hide NextIndex;
    hide Extended;
  }

  /** A tool call started again while open keeps the input it has. */
  lemma ResentStartKeepsInput(parse: JsonParser, r: Reply, index: Option<Index>, id: string, name: string,
                              newName: string, json: string)
    requires index.Some? && r.At(index.value).open == Some(ToolUse(id, name, json))
    ensures Step(parse, r, index, ToolStart(id, newName)).At(index.value)
            == r.At(index.value).(open := Some(ToolUse(id, newName, json)))
  {
  }

  /** What lands on index `j` of a part over a run. */
  ghost function PartLanded(parse: JsonParser, part: Part, r: Reply, es: seq<Arrival>, j: Index): string
    decreases |es|
  {
    if es == [] then "" else
      (if Lands(r, es[0].index, es[0].event) == Some(j) then PartIn(part, es[0].event) else "") +
      PartLanded(parse, part, Step(parse, r, es[0].index, es[0].event), es[1..], j)
  }

  /** The blocks at an index hold the text, thinking and signatures that landed there, in order. */
  lemma {:induction false} PartIsKept(parse: JsonParser, part: Part, r: Reply, es: seq<Arrival>, j: Index)
    ensures SlotPart(parse, part, Run(parse, r, es).At(j))
         == SlotPart(parse, part, r.At(j)) + PartLanded(parse, part, r, es, j)
    decreases |es|
  {
    hide NextIndex;
    hide SlotPart;
    hide PartIn;
    hide Lands;
    hide Step;
    if es != [] {
      var next := Step(parse, r, es[0].index, es[0].event);
      var here := if Lands(r, es[0].index, es[0].event) == Some(j) then PartIn(part, es[0].event) else "";
      DeltasLandOnce(parse, part, r, es[0].index, es[0].event, j);
      Assoc(SlotPart(parse, part, r.At(j)), here, PartLanded(parse, part, next, es[1..], j));
      PartIsKept(parse, part, next, es[1..], j);
    }
  }

  /** What landed of a part on the indexes below `n`, in index order. */
  ghost function LandedBelow(parse: JsonParser, part: Part, es: seq<Arrival>, n: nat): string
    requires n <= USIZE_MAX + 1
  {
    if n == 0 then ""
    else LandedBelow(parse, part, es, n - 1) + PartLanded(parse, part, EmptyReply, es, n - 1)
  }

  lemma SlotHoldsThePart(parse: JsonParser, part: Part, es: seq<Arrival>, j: Index)
    ensures BlocksPart(part, StopSlot(parse, Run(parse, EmptyReply, es).At(j)).done)
         == PartLanded(parse, part, EmptyReply, es, j)
  {
    hide Run;
    hide PartLanded;
    hide BlocksPart;
    hide StopSlot;
    PartIsKept(parse, part, EmptyReply, es, j);
    NoPartYet(parse, part, j);
    NothingFirst(PartLanded(parse, part, EmptyReply, es, j));
  }

  lemma NoPartYet(parse: JsonParser, part: Part, j: Index)
    ensures SlotPart(parse, part, EmptyReply.At(j)) == ""
  {
  }

  lemma NoBlocksNoPart(part: Part)
    ensures BlocksPart(part, []) == ""
  {
  }

  lemma {:induction false} BlocksHoldThePart(parse: JsonParser, part: Part, es: seq<Arrival>, n: nat)
    requires n <= USIZE_MAX + 1
    ensures BlocksPart(part, BlocksBelow(parse, Run(parse, EmptyReply, es), n)) == LandedBelow(parse, part, es, n)
  {
    hide BlocksPart;
    hide Run;
    hide PartLanded;
    hide StopSlot;
    NoBlocksNoPart(part);
    if n > 0 {
      var r := Run(parse, EmptyReply, es);
      BlocksHoldThePart(parse, part, es, n - 1);
      PartsConcat(part, BlocksBelow(parse, r, n - 1), StopSlot(parse, r.At(n - 1)).done);
      SlotHoldsThePart(parse, part, es, n - 1);
    }
  }

  function ContentPart(part: Part, content: seq<ContentBlock>): string {
    if content == [] then "" else PartOf(part, content[0]) + ContentPart(part, content[1..])
  }

  lemma {:induction false} CollectKeepsPart(part: Part, blocks: seq<Finished>)
    requires Collect(blocks).Ok?
    ensures ContentPart(part, Collect(blocks).value) == BlocksPart(part, blocks)
  {
    hide PartOf;
    if blocks != [] {
      CollectKeepsPart(part, blocks[1..]);
      var rest := Collect(blocks[1..]).value;
      assert ([blocks[0].block] + rest)[1..] == rest;
    }
  }

  /** Collecting keeps every block, or names the first call that didn't parse. */
  lemma {:induction false} CollectKeepsAll(blocks: seq<Finished>)
    ensures match Collect(blocks)
            case Ok(content) =>
              |content| == |blocks| && forall k | 0 <= k < |blocks| :: blocks[k] == Block(content[k])
            case Err(e) =>
              exists k | 0 <= k < |blocks| ::
                && blocks[k].UnparsedCall? && blocks[k].error == e
                && forall m | 0 <= m < k :: blocks[m].Block?
  {
    if blocks != [] {
      CollectKeepsAll(blocks[1..]);
      if blocks[0].Block? {
        match Collect(blocks[1..])
        case Ok(rest) =>
          var content := [blocks[0].block] + rest;
          assert content[1..] == rest;
          forall k | 0 <= k < |blocks| ensures blocks[k] == Block(content[k]) {
            if k > 0 { assert blocks[k] == blocks[1..][k - 1]; }
          }
        case Err(e) =>
          var k :| 0 <= k < |blocks[1..]| && blocks[1..][k].UnparsedCall? && blocks[1..][k].error == e
            && forall m | 0 <= m < k :: blocks[1..][m].Block?;
          assert blocks[k + 1] == blocks[1..][k];
          forall m | 0 <= m < k + 1 ensures blocks[m].Block? {
            if m > 0 { assert blocks[m] == blocks[1..][m - 1]; }
          }
      } else {
        assert blocks[0].UnparsedCall? && blocks[0].error == Collect(blocks).error;
      }
    }
  }

  /** `content` is `blocks`, but for a last tool call `cutOff` may name when the reply stopped early. */
  ghost predicate KeepsAllButACall(blocks: seq<Finished>, stopReason: string, content: seq<ContentBlock>,
                                   cutOff: Option<string>)
  {
    && |blocks| - 1 <= |content| <= |blocks|
    && (forall k | 0 <= k < |content| :: blocks[k] == Block(content[k]))
    && (|content| < |blocks| <==> DropsLast(blocks, stopReason))
    && (cutOff.Some? ==>
          DropsLast(blocks, stopReason) && blocks[|content|].ToolName() == cutOff && IsPlainToolName(cutOff.value))
    && (forall part: Part :: ContentPart(part, content) == BlocksPart(part, blocks))
  }

  lemma AssembleKeeps(blocks: seq<Finished>, stopReason: string)
    requires Assemble(blocks, stopReason).Ok?
    ensures var (content, cutOff) := Assemble(blocks, stopReason).value;
            KeepsAllButACall(blocks, stopReason, content, cutOff)
  {
    hide Collect;
    hide BlocksPart;
    hide ContentPart;
    hide IsPlainToolName;
    hide StoppedEarly;
    var (content, _) := Assemble(blocks, stopReason).value;
    var kept := if DropsLast(blocks, stopReason) then blocks[..|blocks| - 1] else blocks;
    CollectKeepsAll(kept);
    forall part: Part ensures ContentPart(part, content) == BlocksPart(part, blocks) {
      CollectKeepsPart(part, kept);
      if DropsLast(blocks, stopReason) {
        CallsHaveNoPart(part, blocks);
      }
    }
  }

  /** A tool call at the end adds nothing to any part. */
  lemma CallsHaveNoPart(part: Part, blocks: seq<Finished>)
    requires blocks != [] && blocks[|blocks| - 1].ToolName().Some?
    ensures BlocksPart(part, blocks[..|blocks| - 1]) == BlocksPart(part, blocks)
  {
    hide BlocksPart;
    OneMoreBlock(part, blocks[..|blocks| - 1], blocks[|blocks| - 1]);
    LastBack(blocks);
  }

  lemma AllOfThePart(parse: JsonParser, part: Part, es: seq<Arrival>)
    ensures BlocksPart(part, AllBlocks(parse, Run(parse, EmptyReply, es)))
         == LandedBelow(parse, part, es, USIZE_MAX + 1)
  {
    hide Run;
    hide BlocksPart;
    hide LandedBelow;
    hide BlocksBelow;
    var r := Run(parse, EmptyReply, es);
    AboveFits(r);
    BelowIsStable(parse, r, USIZE_MAX + 1);
    BlocksHoldThePart(parse, part, es, USIZE_MAX + 1);
  }

  /**
   A finished reply holds every block of the stream but at most one: a last tool call, and only when
   the reply stopped early. So its text, thinking and signatures are all that landed, index by index, in order.
   */
  lemma ReplyLosesAtMostACall(parse: JsonParser, es: seq<Arrival>, stopReason: string)
    requires Streamed(parse, es, stopReason).Ok?
    ensures var (content, cutOff) := Streamed(parse, es, stopReason).value;
            && KeepsAllButACall(AllBlocks(parse, Run(parse, EmptyReply, es)), stopReason, content, cutOff)
            && forall part: Part :: ContentPart(part, content) == LandedBelow(parse, part, es, USIZE_MAX + 1)
  {
    hide Run;
    hide AllBlocks;
    hide Assemble;
    hide BlocksPart;
    hide ContentPart;
    hide LandedBelow;
    AssembleKeeps(AllBlocks(parse, Run(parse, EmptyReply, es)), stopReason);
    forall part: Part
      ensures BlocksPart(part, AllBlocks(parse, Run(parse, EmptyReply, es)))
           == LandedBelow(parse, part, es, USIZE_MAX + 1)
    {
      AllOfThePart(parse, part, es);
    }
  }

  /** With an index on every event, the text and thinking that land on an index are what was sent to it. */
  lemma {:induction false} LandedIsSent(parse: JsonParser, part: Part, r: Reply, es: seq<Arrival>, j: Index)
    requires AllIndexed(es) && part != SignaturePart
    ensures PartLanded(parse, part, r, es, j) == SentPart(part, Project(es, j))
    decreases |es|
  {
    hide Step;
    hide NextIndex;
    if es != [] {
      assert es[0] in es;
      LandedIsSent(parse, part, Step(parse, r, es[0].index, es[0].event), es[1..], j);
      var rest := Project(es[1..], j);
      if es[0].index == Some(j) {
        assert ([es[0].event] + rest)[1..] == rest;
      } else {
        NothingFirst(rest);
      }
    }
  }

  function SentPart(part: Part, es: seq<Event>): string {
    if es == [] then "" else PartIn(part, es[0]) + SentPart(part, es[1..])
  }

  // ----- The reply is what was sent -----

  /** The blocks an index was sent, in order, and whether the last is still open. */
  datatype Traced = Traced(blocks: seq<PartialBlock>, open: bool) {
    function Last(): Option<PartialBlock> {
      if open && blocks != [] then Some(blocks[|blocks| - 1]) else None
    }

    function And(block: PartialBlock): Traced {
      Traced(blocks + [block], true)
    }

    function But(block: PartialBlock): Traced
      requires blocks != []
    {
      Traced(blocks[..|blocks| - 1] + [block], true)
    }
  }

  const NothingSent := Traced([], false)

  /**
   What one more event for the index sends: more of the open block when it is of the event's kind, or a block
   of its own. A tool call starts with its id, keeps it, takes each new name, and gathers its input.
   */
  function Trace(t: Traced, e: Event): Traced {
    match (e, t.Last())
    case (TextDelta(more), Some(Text(text))) => t.But(Text(text + more))
    case (TextDelta(text), _) => t.And(Text(text))
    case (ThinkingDelta(more), Some(Thinking(thinking, signature))) => t.But(Thinking(thinking + more, signature))
    case (ThinkingDelta(thinking), _) => t.And(Thinking(thinking, ""))
    case (SignatureDelta(more), Some(Thinking(thinking, signature))) => t.But(Thinking(thinking, signature + more))
    case (ToolInput(more), Some(ToolUse(id, name, json))) => t.But(ToolUse(id, name, json + more))
    case (ToolStart(id, name), Some(ToolUse(openId, _, json))) =>
      if id == openId then t.But(ToolUse(id, name, json)) else t.And(ToolUse(id, name, ""))
    case (ToolStart(id, name), _) => t.And(ToolUse(id, name, ""))
    case (BlockStop, _) => Traced(t.blocks, false)
    case _ => t
  }

  function TraceAll(t: Traced, es: seq<Event>): Traced
    decreases |es|
  {
    if es == [] then t else TraceAll(Trace(t, es[0]), es[1..])
  }

  /**
   What the events that land on index `j` send it. A delta without an index that lands away from the block
   opened last opens a block there, whatever is open.
   */
  ghost function LandedTrace(parse: JsonParser, r: Reply, es: seq<Arrival>, j: Index, t: Traced): Traced
    decreases |es|
  {
    if es == [] then t
    else
      var (index, e) := (es[0].index, es[0].event);
      var before := if index.None? && r.last != Some(j) && !e.ToolStart? then Traced(t.blocks, false) else t;
      LandedTrace(parse, Step(parse, r, index, e), es[1..], j, if Lands(r, index, e) == Some(j) then Trace(before, e)
                  else t)
  }

  function Finalized(parse: JsonParser, blocks: seq<PartialBlock>): (done: seq<Finished>)
    ensures |done| == |blocks|
  {
    seq(|blocks|, k requires 0 <= k < |blocks| => Finalize(parse, blocks[k]))
  }

  lemma FinalizedConcat(parse: JsonParser, a: seq<PartialBlock>, b: seq<PartialBlock>)
    ensures Finalized(parse, a + b) == Finalized(parse, a) + Finalized(parse, b)
  {
    hide Finalize;
  }

  lemma FinalizedOne(parse: JsonParser, block: PartialBlock)
    ensures Finalized(parse, [block]) == [Finalize(parse, block)]
  {
    hide Finalize;
  }

  /** A slot that holds what was sent. */
  ghost predicate SlotIs(parse: JsonParser, slot: Slot, t: Traced) {
    && (t.open ==> t.blocks != [])
    && slot.open == t.Last()
    && slot.done == Finalized(parse, if t.open then t.blocks[..|t.blocks| - 1] else t.blocks)
  }

  lemma StoppedIs(parse: JsonParser, slot: Slot, t: Traced)
    requires SlotIs(parse, slot, t)
    ensures SlotIs(parse, StopSlot(parse, slot), Traced(t.blocks, false))
  {
    hide Finalize;
    hide Finalized;
    if t.open {
      var front, last := t.blocks[..|t.blocks| - 1], t.blocks[|t.blocks| - 1];
      FinalizedConcat(parse, front, [last]);
      FinalizedOne(parse, last);
      LastBack(t.blocks);
    }
  }

  lemma OpensIs(parse: JsonParser, slot: Slot, t: Traced, block: PartialBlock)
    requires SlotIs(parse, slot, t)
    ensures SlotIs(parse, StopSlot(parse, slot).(open := Some(block)), t.And(block))
  {
    hide Finalized;
    hide StopSlot;
    StoppedIs(parse, slot, t);
    assert (t.blocks + [block])[..|t.blocks|] == t.blocks;
  }

  lemma ChangesIs(parse: JsonParser, slot: Slot, t: Traced, block: PartialBlock)
    requires SlotIs(parse, slot, t) && t.open
    ensures SlotIs(parse, slot.(open := Some(block)), t.But(block))
  {
    hide Finalized;
    var front := t.blocks[..|t.blocks| - 1];
    assert (front + [block])[..|front|] == front;
  }

  lemma ExtendedIs(parse: JsonParser, slot: Slot, t: Traced, e: Event)
    requires SlotIs(parse, slot, t) && SlotExtended(slot, e).Some?
    ensures SlotIs(parse, slot.(open := SlotExtended(slot, e)), Trace(t, e))
  {
    hide SlotIs;
    SlotsOpen(parse, slot, t);
    ChangesIs(parse, slot, t, SlotExtended(slot, e).value);
  }

  lemma SlotsOpen(parse: JsonParser, slot: Slot, t: Traced)
    requires SlotIs(parse, slot, t)
    ensures slot.open == t.Last() && (t.open <==> slot.open.Some?)
  {
  }

  lemma StartedIs(parse: JsonParser, slot: Slot, t: Traced, e: Event)
    requires SlotIs(parse, slot, t) && Opened(e).Some? && SlotExtended(slot, e).None?
    ensures SlotIs(parse, StartSlot(parse, slot, Opened(e).value), Trace(t, e))
  {
    hide SlotIs;
    hide StopSlot;
    SlotsOpen(parse, slot, t);
    var block := Opened(e).value;
    OpensIs(parse, slot, t, block);
    if block.ToolUse? && slot.open.Some? && slot.open.value.ToolUse? {
      ChangesIs(parse, slot, t, ToolUse(block.id, block.name, slot.open.value.partialJson));
    }
  }

  /** Text or thinking that opens a block where one is open starts it as if that were stopped. */
  lemma StartedAnewIs(parse: JsonParser, slot: Slot, t: Traced, e: Event)
    requires SlotIs(parse, slot, t) && Opened(e).Some? && !e.ToolStart?
    ensures SlotIs(parse, StartSlot(parse, slot, Opened(e).value), Trace(Traced(t.blocks, false), e))
  {
    hide SlotIs;
    hide StopSlot;
    OpensIs(parse, slot, t, Opened(e).value);
  }

  lemma StepIsTraced(parse: JsonParser, r: Reply, index: Option<Index>, e: Event, j: Index, t: Traced)
    requires SlotIs(parse, r.At(j), t)
    ensures var before := if index.None? && r.last != Some(j) && !e.ToolStart? then Traced(t.blocks, false) else t;
            var after := if Lands(r, index, e) == Some(j) then Trace(before, e) else t;
            SlotIs(parse, Step(parse, r, index, e).At(j), after)
  {
    hide SlotIs;
    hide StopSlot;
    hide StartSlot;
    hide NextIndex;
    var slot := r.At(j);
    LandsOnSlot(parse, r, index, e, j);
    SlotsOpen(parse, slot, t);
    if Lands(r, index, e) == Some(j) {
      if e.BlockStop? {
        StoppedIs(parse, slot, t);
      } else if index.Or(r.last) == Some(j) && SlotExtended(slot, e).Some? {
        ExtendedIs(parse, slot, t, e);
      } else if index.None? && r.last != Some(j) && !e.ToolStart? {
        StartedAnewIs(parse, slot, t, e);
      } else {
        StartedIs(parse, slot, t, e);
      }
    }
  }

  lemma {:induction false} RunIsTraced(parse: JsonParser, r: Reply, es: seq<Arrival>, j: Index, t: Traced)
    requires SlotIs(parse, r.At(j), t)
    ensures SlotIs(parse, Run(parse, r, es).At(j), LandedTrace(parse, r, es, j, t))
    decreases |es|
  {
    hide SlotIs;
    hide Step;
    hide Lands;
    hide Trace;
    if es != [] {
      var (index, e) := (es[0].index, es[0].event);
      var before := if index.None? && r.last != Some(j) && !e.ToolStart? then Traced(t.blocks, false) else t;
      StepIsTraced(parse, r, index, e, j, t);
      RunIsTraced(parse, Step(parse, r, index, e), es[1..], j, if Lands(r, index, e) == Some(j) then Trace(before, e)
                  else t);
    }
  }

  /** With an index on every event, what an index is sent is told by the events that name it. */
  lemma {:induction false} LandedIsTraced(parse: JsonParser, r: Reply, es: seq<Arrival>, j: Index, t: Traced)
    requires AllIndexed(es) && SlotIs(parse, r.At(j), t)
    ensures LandedTrace(parse, r, es, j, t) == TraceAll(t, Project(es, j))
    decreases |es|
  {
    hide SlotIs;
    hide Step;
    hide Lands;
    hide Trace;
    if es != [] {
      var (index, e) := (es[0].index, es[0].event);
      assert es[0] in es;
      var after := if Lands(r, index, e) == Some(j) then Trace(t, e) else t;
      StepIsTraced(parse, r, index, e, j, t);
      LandedIsTraced(parse, Step(parse, r, index, e), es[1..], j, after);
      var rest := Project(es[1..], j);
      if index == Some(j) {
        DroppedIsNothing(parse, r, e, j, t);
        assert ([e] + rest)[1..] == rest;
      } else {
        ElsewhereIsNotHere(r, index.value, e, j);
        NothingFirst(rest);
      }
    }
  }

  lemma DroppedIsNothing(parse: JsonParser, r: Reply, e: Event, j: Index, t: Traced)
    requires SlotIs(parse, r.At(j), t)
    ensures Lands(r, Some(j), e) != Some(j) ==> Trace(t, e) == t
  {
    hide SlotIs;
    SlotsOpen(parse, r.At(j), t);
  }

  lemma ElsewhereIsNotHere(r: Reply, i: Index, e: Event, j: Index)
    requires i != j
    ensures Lands(r, Some(i), e) != Some(j)
  {
  }

  /** The blocks sent to the indexes below `n`, index by index. */
  ghost function SentBelow(parse: JsonParser, es: seq<Arrival>, n: nat): seq<PartialBlock>
    requires n <= USIZE_MAX + 1
  {
    if n == 0 then []
    else SentBelow(parse, es, n - 1) + LandedTrace(parse, EmptyReply, es, n - 1, NothingSent).blocks
  }

  lemma {:induction false} BlocksAreSent(parse: JsonParser, es: seq<Arrival>, n: nat)
    requires n <= USIZE_MAX + 1
    ensures BlocksBelow(parse, Run(parse, EmptyReply, es), n) == Finalized(parse, SentBelow(parse, es, n))
  {
    hide Run;
    hide LandedTrace;
    hide StopSlot;
    hide Finalize;
    hide Finalized;
    if n == 0 {
      NothingFinalized(parse);
    } else {
      var r, sent := Run(parse, EmptyReply, es), LandedTrace(parse, EmptyReply, es, n - 1, NothingSent);
      BlocksAreSent(parse, es, n - 1);
      EmptySlotIs(parse, n - 1);
      RunIsTraced(parse, EmptyReply, es, n - 1, NothingSent);
      StoppedIs(parse, r.At(n - 1), sent);
      FinalizedConcat(parse, SentBelow(parse, es, n - 1), sent.blocks);
    }
  }

  lemma NothingFinalized(parse: JsonParser)
    ensures Finalized(parse, []) == []
  {
  }

  lemma EmptySlotIs(parse: JsonParser, j: Index)
    ensures SlotIs(parse, EmptyReply.At(j), NothingSent)
  {
  }

  ghost function AllSent(parse: JsonParser, es: seq<Arrival>): seq<PartialBlock> {
    SentBelow(parse, es, USIZE_MAX + 1)
  }

  lemma AllBlocksAreSent(parse: JsonParser, es: seq<Arrival>)
    ensures AllBlocks(parse, Run(parse, EmptyReply, es)) == Finalized(parse, AllSent(parse, es))
  {
    hide Run;
    hide Finalized;
    hide SentBelow;
    hide BlocksBelow;
    var r := Run(parse, EmptyReply, es);
    AboveFits(r);
    BelowIsStable(parse, r, USIZE_MAX + 1);
    BlocksAreSent(parse, es, USIZE_MAX + 1);
  }

  /** A block of the reply carries what was sent for it; a call carries the parse of its input, nothing being `{}`. */
  predicate Carries(parse: JsonParser, block: ContentBlock, sent: PartialBlock) {
    match (sent, block)
    case (Text(text), TextBlock(shown)) => shown == text
    case (Thinking(thinking, signature), ThinkingBlock(kept, signed)) => kept == thinking && signed == signature
    case (ToolUse(id, name, json), ToolUseBlock(callId, callName, input)) =>
      callId == id && callName == name && if json == "" then input == EmptyObject else parse(json) == Ok(input)
    case _ => false
  }

  /** A call whose input doesn't parse. */
  predicate Unreadable(parse: JsonParser, sent: PartialBlock) {
    sent.ToolUse? && sent.partialJson != "" && parse(sent.partialJson).Err?
  }

  /** The reply stopped early in a tool call: it was cut off at its limit or the context window, or refused. */
  predicate StoppedInCall(sent: seq<PartialBlock>, stopReason: string) {
    && sent != [] && sent[|sent| - 1].ToolUse?
    && (stopReason == "max_tokens" || stopReason == "model_context_window_exceeded" || stopReason == "refusal")
  }

  /** A name that can carry no words: 1 to 128 letters, digits, underscores, hyphens and dots. */
  predicate CanBeNamed(name: string) {
    && 1 <= |name| <= 128
    && forall k | 0 <= k < |name| ::
         || 'a' <= name[k] <= 'z' || 'A' <= name[k] <= 'Z' || '0' <= name[k] <= '9'
         || name[k] == '_' || name[k] == '-' || name[k] == '.'
  }

  lemma FinalizedIs(parse: JsonParser, sent: PartialBlock)
    ensures match Finalize(parse, sent)
            case Block(block) => Carries(parse, block, sent) && !Unreadable(parse, sent)
            case UnparsedCall(name, error) =>
              && Unreadable(parse, sent) && name == sent.name
              && error == "failed to parse tool_use input JSON for " + name + ": " + parse(sent.partialJson).error
    ensures Finalize(parse, sent).ToolName() == if sent.ToolUse? then Some(sent.name) else None
  {
  }

  lemma PlainNames(name: string)
    ensures IsPlainToolName(name) <==> CanBeNamed(name)
  {
    if CanBeNamed(name) {
      forall c | c in name ensures IsPlainToolNameChar(c) {
        var k :| 0 <= k < |name| && name[k] == c;
      }
    }
    if IsPlainToolName(name) {
      forall k | 0 <= k < |name| ensures IsPlainToolNameChar(name[k]) {
        assert name[k] in name;
      }
    }
  }

  lemma {:induction false} CollectsSent(parse: JsonParser, sent: seq<PartialBlock>)
    ensures IsContentOf(parse, sent, Collect(Finalized(parse, sent)))
  {
    hide Finalize;
    hide Carries;
    hide Unreadable;
    var blocks := Finalized(parse, sent);
    CollectKeepsAll(blocks);
    forall k | 0 <= k < |sent|
      ensures match blocks[k]
              case Block(block) => Carries(parse, block, sent[k]) && !Unreadable(parse, sent[k])
              case UnparsedCall(_, error) =>
                Unreadable(parse, sent[k]) && error == UnreadableText(parse, sent[k])
    {
      FinalizedIs(parse, sent[k]);
    }
    match Collect(blocks)
    case Ok(_) =>
    case Err(e) =>
      var k :| 0 <= k < |blocks| && blocks[k].UnparsedCall? && blocks[k].error == e
        && forall m | 0 <= m < k :: blocks[m].Block?;
      assert IsFirstUnreadable(parse, sent, k, e);
  }

  function UnreadableText(parse: JsonParser, sent: PartialBlock): string
    requires Unreadable(parse, sent)
  {
    "failed to parse tool_use input JSON for " + sent.name + ": " + parse(sent.partialJson).error
  }

  /** The first call that doesn't parse is `sent[k]`, and `e` is what is said of it. */
  predicate IsFirstUnreadable(parse: JsonParser, sent: seq<PartialBlock>, k: nat, e: string) {
    && k < |sent| && Unreadable(parse, sent[k]) && e == UnreadableText(parse, sent[k])
    && forall m | 0 <= m < k :: !Unreadable(parse, sent[m])
  }

  /** These blocks, all read, or what is said of the first call that can't be. */
  ghost predicate IsContentOf(parse: JsonParser, kept: seq<PartialBlock>, content: Result<seq<ContentBlock>, string>) {
    match content
    case Ok(blocks) =>
      && |blocks| == |kept|
      && forall k | 0 <= k < |kept| :: Carries(parse, blocks[k], kept[k]) && !Unreadable(parse, kept[k])
    case Err(e) => exists k | 0 <= k < |kept| :: IsFirstUnreadable(parse, kept, k, e)
  }

  /** What a finished reply is, by what was sent for it. */
  ghost predicate IsReplyOf(parse: JsonParser, sent: seq<PartialBlock>, stopReason: string, outcome: Outcome) {
    var cut := StoppedInCall(sent, stopReason);
    && IsContentOf(parse, if cut then sent[..|sent| - 1] else sent, ContentOf(outcome))
    && (outcome.Ok? ==>
          outcome.value.1
          == if cut && CanBeNamed(sent[|sent| - 1].name) then Some(sent[|sent| - 1].name) else None)
  }

  function ContentOf(outcome: Outcome): Result<seq<ContentBlock>, string> {
    match outcome
    case Ok((content, _)) => Ok(content)
    case Err(e) => Err(e)
  }

  lemma AssemblesSent(parse: JsonParser, sent: seq<PartialBlock>, stopReason: string)
    ensures IsReplyOf(parse, sent, stopReason, Assemble(Finalized(parse, sent), stopReason))
  {
    hide Finalized;
    hide DropsLast;
    hide StoppedInCall;
    hide Collect;
    hide IsPlainToolName;
    hide CanBeNamed;
    hide IsContentOf;
    var blocks := Finalized(parse, sent);
    DropsWhenStopped(parse, sent, stopReason);
    if StoppedInCall(sent, stopReason) {
      CollectsSent(parse, sent[..|sent| - 1]);
      PlainNames(blocks[|blocks| - 1].ToolName().value);
    } else {
      CollectsSent(parse, sent);
    }
  }

  lemma DropsWhenStopped(parse: JsonParser, sent: seq<PartialBlock>, stopReason: string)
    ensures var blocks := Finalized(parse, sent);
            && DropsLast(blocks, stopReason) == StoppedInCall(sent, stopReason)
            && (StoppedInCall(sent, stopReason) ==>
                  && sent != [] && sent[|sent| - 1].ToolUse?
                  && blocks[|blocks| - 1].ToolName() == Some(sent[|sent| - 1].name)
                  && blocks[..|blocks| - 1] == Finalized(parse, sent[..|sent| - 1]))
  {
    hide Finalize;
    if sent != [] {
      FinalizedIs(parse, sent[|sent| - 1]);
      assert Finalized(parse, sent)[..|sent| - 1] == Finalized(parse, sent[..|sent| - 1]);
    }
  }

  /**
   Any stream's reply is exactly what was sent: every block in order, index by index, but a last tool call the
   reply stopped early in. A call has the id of the start that opened it, the name last sent, and the parse of
   all the input that landed on it; the reply fails exactly when some kept call's input doesn't parse.
   */
  lemma ReplyIsWhatWasSent(parse: JsonParser, es: seq<Arrival>, stopReason: string)
    ensures IsReplyOf(parse, AllSent(parse, es), stopReason, Streamed(parse, es, stopReason))
  {
    hide Run;
    hide Assemble;
    hide AllBlocks;
    hide AllSent;
    hide IsReplyOf;
    AllBlocksAreSent(parse, es);
    AssemblesSent(parse, AllSent(parse, es), stopReason);
  }

  /** With an index on every event, the blocks sent at an index are those of the events that name it alone. */
  lemma SentIsProjected(parse: JsonParser, es: seq<Arrival>, j: Index)
    requires AllIndexed(es)
    ensures LandedTrace(parse, EmptyReply, es, j, NothingSent) == TraceAll(NothingSent, Project(es, j))
  {
    hide LandedTrace;
    hide TraceAll;
    EmptySlotIs(parse, j);
    LandedIsTraced(parse, EmptyReply, es, j, NothingSent);
  }

  // ----- No tool input is lost -----

  function InputIn(e: Event): string {
    if e.ToolInput? then e.json else ""
  }

  /** The tool input that lands on index `j` over a run; what lands on no open tool call is dropped. */
  ghost function InputLanded(parse: JsonParser, r: Reply, es: seq<Arrival>, j: Index): string
    decreases |es|
  {
    if es == [] then "" else
      (if Lands(r, es[0].index, es[0].event) == Some(j) then InputIn(es[0].event) else "") +
      InputLanded(parse, Step(parse, r, es[0].index, es[0].event), es[1..], j)
  }

  function InputOf(block: PartialBlock): string {
    if block.ToolUse? then block.partialJson else ""
  }

  function InputsOf(blocks: seq<PartialBlock>): string {
    if blocks == [] then "" else InputsOf(blocks[..|blocks| - 1]) + InputOf(blocks[|blocks| - 1])
  }

  lemma InputsSnoc(blocks: seq<PartialBlock>, block: PartialBlock)
    ensures InputsOf(blocks + [block]) == InputsOf(blocks) + InputOf(block)
  {
    assert (blocks + [block])[..|blocks|] == blocks;
  }

  lemma {:induction false} InputsConcat(a: seq<PartialBlock>, b: seq<PartialBlock>)
    ensures InputsOf(a + b) == InputsOf(a) + InputsOf(b)
  {
    hide InputOf;
    if b == [] {
      assert a + b == a && InputsOf(a) + [] == InputsOf(a);
    } else {
      var front, last := b[..|b| - 1], b[|b| - 1];
      InputsConcat(a, front);
      InputsSnoc(a + front, last);
      Assoc(a, front, [last]);
      LastBack(b);
      Assoc(InputsOf(a), InputsOf(front), InputOf(last));
    }
  }

  /** An event's input is added to what was sent, if a tool call is open to take it. */
  lemma TraceKeepsInput(t: Traced, e: Event)
    ensures InputsOf(Trace(t, e).blocks)
         == InputsOf(t.blocks) + if t.Last().Some? && t.Last().value.ToolUse? then InputIn(e) else ""
  {
    hide InputsOf;
    assert InputsOf(t.blocks) + "" == InputsOf(t.blocks);
    if t.Last().Some? {
      var front, last := t.blocks[..|t.blocks| - 1], t.blocks[|t.blocks| - 1];
      LastBack(t.blocks);
      InputsSnoc(front, last);
      var changed := Trace(t, e).blocks[|front|];
      InputsSnoc(front, changed);
      Assoc(InputsOf(front), InputOf(last), InputIn(e));
      assert InputOf(last) + "" == InputOf(last);
    }
    if |Trace(t, e).blocks| > |t.blocks| {
      InputsSnoc(t.blocks, Trace(t, e).blocks[|t.blocks|]);
    }
  }

  lemma LandedInput(parse: JsonParser, r: Reply, index: Option<Index>, e: Event, j: Index, t: Traced)
    requires SlotIs(parse, r.At(j), t)
    ensures var before := if index.None? && r.last != Some(j) && !e.ToolStart? then Traced(t.blocks, false) else t;
            Lands(r, index, e) == Some(j) ==> InputsOf(Trace(before, e).blocks) == InputsOf(t.blocks) + InputIn(e)
  {
    hide SlotIs;
    hide InputsOf;
    hide Trace;
    hide NextIndex;
    SlotsOpen(parse, r.At(j), t);
    TraceKeepsInput(t, e);
    TraceKeepsInput(Traced(t.blocks, false), e);
  }

  lemma {:induction false} RunKeepsInput(parse: JsonParser, r: Reply, es: seq<Arrival>, j: Index, t: Traced)
    requires SlotIs(parse, r.At(j), t)
    ensures InputsOf(LandedTrace(parse, r, es, j, t).blocks) == InputsOf(t.blocks) + InputLanded(parse, r, es, j)
    decreases |es|
  {
    hide SlotIs;
    hide Step;
    hide Lands;
    hide Trace;
    hide InputsOf;
    hide InputIn;
    if es == [] {
      assert InputsOf(t.blocks) + "" == InputsOf(t.blocks);
    } else {
      var (index, e) := (es[0].index, es[0].event);
      var before := if index.None? && r.last != Some(j) && !e.ToolStart? then Traced(t.blocks, false) else t;
      var after := if Lands(r, index, e) == Some(j) then Trace(before, e) else t;
      var here := if Lands(r, index, e) == Some(j) then InputIn(e) else "";
      StepIsTraced(parse, r, index, e, j, t);
      LandedInput(parse, r, index, e, j, t);
      RunKeepsInput(parse, Step(parse, r, index, e), es[1..], j, after);
      assert InputsOf(after.blocks) == InputsOf(t.blocks) + here;
      Assoc(InputsOf(t.blocks), here, InputLanded(parse, Step(parse, r, index, e), es[1..], j));
    }
  }

  /** Over any stream, the tool calls sent at an index have among them all the input that landed there, in order. */
  lemma CallsKeepInput(parse: JsonParser, es: seq<Arrival>, j: Index)
    ensures InputsOf(LandedTrace(parse, EmptyReply, es, j, NothingSent).blocks) == InputLanded(parse, EmptyReply, es, j)
  {
    hide LandedTrace;
    hide InputLanded;
    EmptySlotIs(parse, j);
    RunKeepsInput(parse, EmptyReply, es, j, NothingSent);
    NothingFirst(InputLanded(parse, EmptyReply, es, j));
  }

  /** The tool input landed on the indexes below `n`, in index order. */
  ghost function InputBelow(parse: JsonParser, es: seq<Arrival>, n: nat): string
    requires n <= USIZE_MAX + 1
  {
    if n == 0 then "" else InputBelow(parse, es, n - 1) + InputLanded(parse, EmptyReply, es, n - 1)
  }

  /**
   The tool calls of a whole stream, the one an early stop drops included, have among them all the input that landed.
   */
  lemma {:induction false} ReplyKeepsInput(parse: JsonParser, es: seq<Arrival>, n: nat)
    requires n <= USIZE_MAX + 1
    ensures InputsOf(SentBelow(parse, es, n)) == InputBelow(parse, es, n)
  {
    hide InputLanded;
    hide LandedTrace;
    if n > 0 {
      ReplyKeepsInput(parse, es, n - 1);
      CallsKeepInput(parse, es, n - 1);
      InputsConcat(SentBelow(parse, es, n - 1), LandedTrace(parse, EmptyReply, es, n - 1, NothingSent).blocks);
    }
  }

  // ----- The ordered map of finished blocks -----

  /** A finished block under its key: the block's index, and how many had finished before it. */
  datatype Entry = Entry(index: Index, order: nat, finished: Finished)

  predicate Less(a: Entry, b: Entry) {
    a.index < b.index || (a.index == b.index && a.order < b.order)
  }

  /** A map's entries in key order, each key once. */
  predicate InKeyOrder(done: seq<Entry>) {
    forall a, b | 0 <= a < b < |done| :: Less(done[a], done[b])
  }

  predicate Fresh(done: seq<Entry>, e: Entry) {
    forall d | d in done :: d.order < e.order
  }

  function Insert(done: seq<Entry>, e: Entry): seq<Entry> {
    if done == [] || Less(e, done[0]) then [e] + done else [done[0]] + Insert(done[1..], e)
  }

  function Indexes(done: seq<Entry>): set<Index> {
    set d | d in done :: d.index
  }

  /** The blocks finished at index `i`, in the order they finished. */
  function DoneAt(done: seq<Entry>, i: Index): seq<Finished> {
    if done == [] then []
    else (if done[0].index == i then [done[0].finished] else []) + DoneAt(done[1..], i)
  }

  function Values(done: seq<Entry>): seq<Finished> {
    seq(|done|, k requires 0 <= k < |done| => done[k].finished)
  }

  lemma {:induction false} InsertAddsOne(done: seq<Entry>, e: Entry)
    requires InKeyOrder(done) && Fresh(done, e)
    ensures InKeyOrder(Insert(done, e)) && |Insert(done, e)| == |done| + 1
    ensures forall d :: d in Insert(done, e) <==> d == e || d in done
  {
    if done != [] && !Less(e, done[0]) {
      assert forall d | d in done[1..] :: d in done;
      InsertAddsOne(done[1..], e);
      var rest := Insert(done[1..], e);
      forall b | 0 <= b < |rest| ensures Less(done[0], rest[b]) {
        assert rest[b] in rest;
        if rest[b] != e {
          var k :| 0 <= k < |done[1..]| && done[1..][k] == rest[b];
          assert Less(done[0], done[k + 1]);
        } else {
          assert done[0] in done && done[0].order < e.order;
        }
      }
    }
  }

  lemma {:induction false} AbsentFromIndex(done: seq<Entry>, i: Index)
    requires forall d | d in done :: d.index != i
    ensures DoneAt(done, i) == []
  {
    if done != [] {
      assert done[0] in done;
      assert forall d | d in done[1..] :: d in done;
      AbsentFromIndex(done[1..], i);
    }
  }

  /** A fresh entry goes after every block finished at its index, and nowhere else. */
  lemma {:induction false} InsertIsLastAtItsIndex(done: seq<Entry>, e: Entry, i: Index)
    requires InKeyOrder(done) && Fresh(done, e)
    ensures DoneAt(Insert(done, e), i) == DoneAt(done, i) + (if i == e.index then [e.finished] else [])
  {
    hide DoneAt;
    hide InKeyOrder;
    hide Less;
    if done == [] || Less(e, done[0]) {
      GoesFirst(done, e, i);
    } else {
      RestInOrder(done, e);
      InsertIsLastAtItsIndex(done[1..], e, i);
      DoneAtCons(done[0], Insert(done[1..], e), i);
      DoneAtCons(done[0], done[1..], i);
      assert [done[0]] + done[1..] == done;
      Assoc(DoneAt([done[0]], i), DoneAt(done[1..], i), if i == e.index then [e.finished] else []);
    }
  }

  lemma RestInOrder(done: seq<Entry>, e: Entry)
    requires InKeyOrder(done) && Fresh(done, e) && done != []
    ensures InKeyOrder(done[1..]) && Fresh(done[1..], e)
  {
    hide Less;
    assert forall d | d in done[1..] :: d in done;
  }

  lemma GoesFirst(done: seq<Entry>, e: Entry, i: Index)
    requires InKeyOrder(done) && Fresh(done, e) && (done == [] || Less(e, done[0]))
    ensures DoneAt([e] + done, i) == DoneAt(done, i) + (if i == e.index then [e.finished] else [])
  {
    hide DoneAt;
    hide InKeyOrder;
    DoneAtCons(e, done, i);
    OneDoneAt(e, i);
    FreshGoesFirst(done, e);
    if i == e.index {
      AbsentFromIndex(done, i);
    }
    assert [] + DoneAt(done, i) == DoneAt(done, i) + [];
  }

  lemma DoneAtCons(first: Entry, rest: seq<Entry>, i: Index)
    ensures DoneAt([first] + rest, i) == DoneAt([first], i) + DoneAt(rest, i)
  {
    hide DoneAt;
    OneDoneAt(first, i);
    DoneAtStep([first] + rest, i);
    assert ([first] + rest)[1..] == rest;
  }

  lemma DoneAtStep(done: seq<Entry>, i: Index)
    requires done != []
    ensures DoneAt(done, i) == (if done[0].index == i then [done[0].finished] else []) + DoneAt(done[1..], i)
  {
  }

  lemma OneDoneAt(e: Entry, i: Index)
    ensures DoneAt([e], i) == if i == e.index then [e.finished] else []
  {
    assert [e][1..] == [];
  }

  lemma FreshGoesFirst(done: seq<Entry>, e: Entry)
    requires InKeyOrder(done) && Fresh(done, e) && (done == [] || Less(e, done[0]))
    ensures forall d | d in done :: d.index != e.index
  {
    forall d | d in done ensures d.index != e.index {
      var k :| 0 <= k < |done| && done[k] == d;
      assert done[0] in done && d in done;
      assert k == 0 || Less(done[0], done[k]);
    }
  }

  /** The values under indexes below `n`. */
  function ValuesBelow(done: seq<Entry>, n: nat): seq<Finished> {
    if done == [] then []
    else (if done[0].index < n then [done[0].finished] else []) + ValuesBelow(done[1..], n)
  }

  lemma {:induction false} NoneBelow(done: seq<Entry>, i: nat)
    requires forall d | d in done :: i <= d.index
    ensures ValuesBelow(done, i) == []
  {
    if done != [] {
      assert done[0] in done;
      assert forall d | d in done[1..] :: d in done;
      NoneBelow(done[1..], i);
    }
  }

  lemma FirstIsLeast(done: seq<Entry>)
    requires InKeyOrder(done) && done != []
    ensures forall d | d in done[1..] :: done[0].index <= d.index
  {
    forall d | d in done[1..] ensures done[0].index <= d.index {
      var k :| 0 <= k < |done[1..]| && done[1..][k] == d;
      assert Less(done[0], done[k + 1]);
    }
  }

  lemma {:induction false} ValuesBelowGrows(done: seq<Entry>, i: Index)
    requires InKeyOrder(done)
    ensures ValuesBelow(done, i + 1) == ValuesBelow(done, i) + DoneAt(done, i)
  {
    if done != [] {
      ValuesBelowGrows(done[1..], i);
      var below, at := ValuesBelow(done[1..], i), DoneAt(done[1..], i);
      if i <= done[0].index {
        FirstIsLeast(done);
        NoneBelow(done[1..], i);
        assert below == [] && ValuesBelow(done, i) == [];
      } else {
        Assoc([done[0].finished], below, at);
      }
    }
  }

  lemma {:induction false} ValuesBelowAll(done: seq<Entry>)
    ensures ValuesBelow(done, USIZE_MAX + 1) == Values(done)
  {
    if done != [] {
      ValuesBelowAll(done[1..]);
      assert Values(done) == [done[0].finished] + Values(done[1..]);
    }
  }

  lemma {:induction false} KeyOrderIsIndexOrder(parse: JsonParser, r: Reply, done: seq<Entry>, n: nat)
    requires InKeyOrder(done) && n <= USIZE_MAX + 1
    requires forall i: Index :: r.At(i) == Slot(None, DoneAt(done, i))
    ensures BlocksBelow(parse, r, n) == ValuesBelow(done, n)
  {
    hide InKeyOrder;
    hide DoneAt;
    hide ValuesBelow;
    hide StopSlot;
    if n == 0 {
      NothingBelowZero(done);
    } else {
      KeyOrderIsIndexOrder(parse, r, done, n - 1);
      ValuesBelowGrows(done, n - 1);
      StoppedAlready(parse, r.At(n - 1));
    }
  }

  lemma StoppedAlready(parse: JsonParser, slot: Slot)
    requires slot.open.None?
    ensures StopSlot(parse, slot) == slot
  {
  }

  lemma NothingBelowZero(done: seq<Entry>)
    ensures ValuesBelow(done, 0) == []
  {
  }

  /** `self.done.into_values()` once nothing is open: every block, in index order. */
  lemma DoneInOrder(parse: JsonParser, r: Reply, done: seq<Entry>)
    requires InKeyOrder(done)
    requires forall i: Index :: r.At(i) == Slot(None, DoneAt(done, i))
    ensures AllBlocks(parse, r) == Values(done)
  {
    AboveFits(r);
    BelowIsStable(parse, r, USIZE_MAX + 1);
    KeyOrderIsIndexOrder(parse, r, done, USIZE_MAX + 1);
    ValuesBelowAll(done);
  }

  // ----- The class the stream loop drives -----

  /** What the two maps say index `i` holds. */
  function SlotOf(open: map<Index, PartialBlock>, done: seq<Entry>, i: Index): Slot {
    Slot(if i in open then Some(open[i]) else None, DoneAt(done, i))
  }

  /** The reply the two maps stand for. */
  function Seen(open: map<Index, PartialBlock>, done: seq<Entry>, last: Option<Index>): Reply {
    Reply(map i | i in open.Keys + Indexes(done) :: SlotOf(open, done, i), last)
  }

  lemma SeenAt(open: map<Index, PartialBlock>, done: seq<Entry>, last: Option<Index>, i: Index)
    ensures Seen(open, done, last).At(i) == SlotOf(open, done, i)
  {
    if i !in open && i !in Indexes(done) {
      forall d | d in done ensures d.index != i {
        assert d.index in Indexes(done);
      }
      AbsentFromIndex(done, i);
    }
  }

  /** Setting an open block changes that index's slot and nothing else. */
  lemma OpenChanges(open: map<Index, PartialBlock>, done: seq<Entry>, last: Option<Index>, i: Index, b: PartialBlock)
    ensures Seen(open[i := b], done, last) == Seen(open, done, last).With(i, Slot(Some(b), DoneAt(done, i)))
  {
    var after := Seen(open[i := b], done, last);
    var expected := Seen(open, done, last).With(i, Slot(Some(b), DoneAt(done, i)));
    assert after.slots.Keys == expected.slots.Keys;
  }

  lemma InsertedIndexes(done: seq<Entry>, e: Entry)
    requires InKeyOrder(done) && Fresh(done, e)
    ensures Indexes(Insert(done, e)) == Indexes(done) + {e.index}
  {
    InsertAddsOne(done, e);
    assert e in Insert(done, e);
    forall j ensures j in Indexes(Insert(done, e)) <==> j in Indexes(done) || j == e.index {
      if j in Indexes(done) {
        var d :| d in done && d.index == j;
        assert d in Insert(done, e);
      }
    }
  }

  /** Moving an open block to the finished ones stops its slot and changes nothing else. */
  lemma StopMoves(open: map<Index, PartialBlock>, done: seq<Entry>, last: Option<Index>, i: Index, f: Finished)
    requires i in open && InKeyOrder(done) && forall d | d in done :: d.order < |done|
    ensures var done' := Insert(done, Entry(i, |done|, f));
            && InKeyOrder(done') && (forall d | d in done' :: d.order < |done'|)
            && Seen(open - {i}, done', last) == Seen(open, done, last).With(i, Slot(None, DoneAt(done, i) + [f]))
  {
    hide Seen;
    hide Insert;
    hide InKeyOrder;
    hide DoneAt;
    InsertAddsOne(done, Entry(i, |done|, f));
    StopMovesSlots(open, done, last, i, f);
  }

  lemma StopMovesSlots(open: map<Index, PartialBlock>, done: seq<Entry>, last: Option<Index>, i: Index, f: Finished)
    requires i in open && InKeyOrder(done) && Fresh(done, Entry(i, |done|, f))
    ensures Seen(open - {i}, Insert(done, Entry(i, |done|, f)), last)
         == Seen(open, done, last).With(i, Slot(None, DoneAt(done, i) + [f]))
  {
    hide Insert;
    hide InKeyOrder;
    hide Fresh;
    hide DoneAt;
    hide SlotOf;
    hide Indexes;
    var done' := Insert(done, Entry(i, |done|, f));
    InsertedIndexes(done, Entry(i, |done|, f));
    var after := Seen(open - {i}, done', last);
    var expected := Seen(open, done, last).With(i, Slot(None, DoneAt(done, i) + [f]));
    assert after.slots.Keys == expected.slots.Keys;
    forall j | j in after.slots ensures after.slots[j] == expected.slots[j] {
      StopMovesSlot(open, done, i, f, j);
    }
  }

  lemma StopMovesSlot(open: map<Index, PartialBlock>, done: seq<Entry>, i: Index, f: Finished, j: Index)
    requires i in open && InKeyOrder(done) && Fresh(done, Entry(i, |done|, f))
    ensures SlotOf(open - {i}, Insert(done, Entry(i, |done|, f)), j)
         == if j == i then Slot(None, DoneAt(done, i) + [f]) else SlotOf(open, done, j)
  {
    hide InKeyOrder;
    hide Insert;
    hide DoneAt;
    InsertIsLastAtItsIndex(done, Entry(i, |done|, f), j);
    assert DoneAt(done, j) + [] == DoneAt(done, j);
  }

  /** An open block grown by a delta: the slot it lands on is extended and nothing else changes. */
  lemma DeltaExtends(parse: JsonParser, open: map<Index, PartialBlock>, done: seq<Entry>, last: Option<Index>,
                     index: Option<Index>, i: Index, e: Event)
    requires index.Or(last) == Some(i) && i in open && Extended(open[i], e).Some? && !e.BlockStop?
    ensures Seen(open[i := Extended(open[i], e).value], done, last) == Step(parse, Seen(open, done, last), index, e)
  {
    hide Seen;
    hide DoneAt;
    hide Extended;
    hide NextIndex;
    SeenAt(open, done, last, i);
    SeenLast(open, done, last);
    OpenChanges(open, done, last, i, Extended(open[i], e).value);
  }

  lemma SeenLast(open: map<Index, PartialBlock>, done: seq<Entry>, last: Option<Index>)
    ensures Seen(open, done, last).last == last
    ensures forall i: Option<Index> :: Seen(open, done, i) == Seen(open, done, last).(last := i)
  {
  }

  /** An event no open block takes starts one of its own, or is dropped. */
  lemma DeltaStarts(parse: JsonParser, open: map<Index, PartialBlock>, done: seq<Entry>, last: Option<Index>,
                    index: Option<Index>, e: Event)
    requires !e.BlockStop?
    requires index.Or(last).Some? && index.Or(last).value in open ==> Extended(open[index.Or(last).value], e).None?
    ensures var r := Seen(open, done, last);
            Step(parse, r, index, e) == if Opened(e).Some? then StartReply(parse, r, index, Opened(e).value) else r
  {
    hide Seen;
    hide DoneAt;
    hide Extended;
    hide NextIndex;
    hide StartReply;
    SeenLast(open, done, last);
    if index.Or(last).Some? {
      SeenAt(open, done, last, index.Or(last).value);
    }
  }

  /** Stopping what is open at an index, then opening `block` there, is starting `block`. */
  lemma StopThenOpen(parse: JsonParser, r: Reply, i: Index, block: PartialBlock)
    requires !(block.ToolUse? && r.At(i).open.Some? && r.At(i).open.value.ToolUse? && r.At(i).open.value.id == block.id)
    ensures var stopped := Step(parse, r, Some(i), BlockStop);
            stopped.With(i, Slot(Some(block), stopped.At(i).done)).(last := Some(i))
                == StartReply(parse, r, Some(i), block)
  {
    var stopped := Step(parse, r, Some(i), BlockStop);
    StepIsLocal(parse, r, i, BlockStop, i);
    assert StartSlot(parse, r.At(i), block) == Slot(Some(block), stopped.At(i).done);
    assert stopped.With(i, Slot(Some(block), stopped.At(i).done)).slots
        == r.With(i, Slot(Some(block), stopped.At(i).done)).slots;
  }

  /** Stopping a block changes nothing once every block is stopped. */
  lemma StopKeepsBlocks(parse: JsonParser, r: Reply, i: Index, r': Reply)
    requires SameBlocks(parse, r, r')
    ensures SameBlocks(parse, Step(parse, r, Some(i), BlockStop), r')
  {
    forall j: Index
      ensures StopSlot(parse, Step(parse, r, Some(i), BlockStop).At(j)).done == StopSlot(parse, r'.At(j)).done
    {
      StepIsLocal(parse, r, i, BlockStop, j);
    }
  }

  /** Dropping the last entry of the map drops the last block. */
  lemma DropLastEntry(done: seq<Entry>)
    ensures |Values(done)| == |done|
    ensures done != [] ==>
      && Values(done)[|done| - 1] == done[|done| - 1].finished
      && Values(done[..|done| - 1]) == Values(done)[..|done| - 1]
  {
  }

  /** With nothing open, the finished map's values are every block of the stream. */
  lemma StoppedValues(parse: JsonParser, done: seq<Entry>, last: Option<Index>, before: Reply)
    requires InKeyOrder(done) && SameBlocks(parse, Seen(map[], done, last), before)
    ensures AllBlocks(parse, before) == Values(done)
  {
    var view := Seen(map[], done, last);
    forall i: Index ensures view.At(i) == Slot(None, DoneAt(done, i)) {
      SeenAt(map[], done, last, i);
    }
    SameSlotsSameBlocks(parse, view, before);
    DoneInOrder(parse, view, done);
  }

  class Blocks {
    const parse: JsonParser
    var open: map<Index, PartialBlock>
    var done: seq<Entry>
    var last: Option<Index>

    /** Finished keys are in order, and each one's order is below the count, so the next is fresh. */
    ghost predicate Valid()
      reads this
    {
      InKeyOrder(done) && forall d | d in done :: d.order < |done|
    }

    /** What has been streamed. */
    ghost function View(): Reply
      reads this
    {
      Seen(open, done, last)
    }

    constructor (parse: JsonParser)
      ensures Valid() && View() == EmptyReply && this.parse == parse
    {
      this.parse := parse;
      open, done, last := map[], [], None;
    }

    /** The index and open block an event is for: `open.get_mut(&index.or(last)?)`. */
    function OpenAt(index: Option<Index>): (at: Option<(Index, PartialBlock)>)
      reads this
      ensures match at
              case Some((i, b)) => index.Or(last) == Some(i) && View().At(i).open == Some(b)
              case None => index.Or(last).Some? ==> View().At(index.Or(last).value).open == None
    {
      match index.Or(last)
      case None => None
      case Some(i) => SeenAt(open, done, last, i); if i in open then Some((i, open[i])) else None
    }

    /** The index after every one seen, saturating. */
    method NextFree() returns (i: Index)
      ensures i == NextIndex(View())
    {
      var seen: set<Index> := open.Keys + Indexes(done);
      assert seen == View().slots.Keys;
      if seen == {} {
        i := 0;
      } else {
        GreatestExists(seen);
        var max: Index :| max in seen && forall x | x in seen :: x <= max;
        i := if max < USIZE_MAX then max + 1 else USIZE_MAX;
      }
    }

    method Start(index: Option<Index>, block: PartialBlock)
      requires Valid()
      modifies this
      ensures Valid() && View() == StartReply(parse, old(View()), index, block)
    {
      hide Seen;
      hide InKeyOrder;
      hide DoneAt;
      hide Insert;
      SeenLast(open, done, last);
      var i: Index;
      if index.Some? {
        i := index.value;
      } else {
        i := NextFree();
      }
      SeenAt(open, done, last, i);
      if i in open && open[i].ToolUse? && block.ToolUse? && open[i].id == block.id {
        SeenLast(open[i := open[i].(name := block.name)], done, last);
        OpenChanges(open, done, last, i, open[i].(name := block.name));
        open := open[i := open[i].(name := block.name)];
        last := Some(i);
        return;
      }
      ghost var before := View();
      Stop(Some(i));
      SeenAt(open, done, last, i);
      SeenLast(open[i := block], done, last);
      OpenChanges(open, done, last, i, block);
      StopThenOpen(parse, before, i, block);
      open := open[i := block];
      last := Some(i);
    }

    method Stop(index: Option<Index>)
      requires Valid()
      modifies this
      ensures Valid() && View() == Step(parse, old(View()), index, BlockStop)
      ensures last == old(last)
              && open == if index.Or(last).Some? then old(open) - {index.Or(last).value} else old(open)
    {
      hide Seen;
      hide InKeyOrder;
      hide DoneAt;
      hide Insert;
      SeenLast(open, done, last);
      if index.Or(last).None? {
        return;
      }
      var i := index.Or(last).value;
      SeenAt(open, done, last, i);
      if i in open {
        var block := open[i];
        StopMoves(open, done, last, i, Finalize(parse, block));
        open := open - {i};
        done := Insert(done, Entry(i, |done|, Finalize(parse, block)));
      }
    }

    method Text(index: Option<Index>, text: string)
      requires Valid()
      modifies this
      ensures Valid() && View() == Step(parse, old(View()), index, TextDelta(text))
    {
      hide Seen;
      hide Step;
      hide StartReply;
      hide InKeyOrder;
      hide DoneAt;
      match OpenAt(index)
      case Some((i, Text(existing))) =>
        DeltaExtends(parse, open, done, last, index, i, TextDelta(text));
        open := open[i := PartialBlock.Text(existing + text)];
      case _ =>
        DeltaStarts(parse, open, done, last, index, TextDelta(text));
        Start(index, PartialBlock.Text(text));
    }

    method Thinking(index: Option<Index>, thinking: string)
      requires Valid()
      modifies this
      ensures Valid() && View() == Step(parse, old(View()), index, ThinkingDelta(thinking))
    {
      hide Seen;
      hide Step;
      hide StartReply;
      hide InKeyOrder;
      hide DoneAt;
      match OpenAt(index)
      case Some((i, Thinking(existing, signature))) =>
        DeltaExtends(parse, open, done, last, index, i, ThinkingDelta(thinking));
        open := open[i := PartialBlock.Thinking(existing + thinking, signature)];
      case _ =>
        DeltaStarts(parse, open, done, last, index, ThinkingDelta(thinking));
        Start(index, PartialBlock.Thinking(thinking, ""));
    }

    method Signature(index: Option<Index>, signature: string)
      requires Valid()
      modifies this
      ensures Valid() && View() == Step(parse, old(View()), index, SignatureDelta(signature))
    {
      hide Seen;
      hide Step;
      hide StartReply;
      hide InKeyOrder;
      hide DoneAt;
      match OpenAt(index)
      case Some((i, Thinking(thinking, existing))) =>
        DeltaExtends(parse, open, done, last, index, i, SignatureDelta(signature));
        open := open[i := PartialBlock.Thinking(thinking, existing + signature)];
      case _ => DeltaStarts(parse, open, done, last, index, SignatureDelta(signature));
    }

    method ToolInput(index: Option<Index>, partialJson: string)
      requires Valid()
      modifies this
      ensures Valid() && View() == Step(parse, old(View()), index, Event.ToolInput(partialJson))
    {
      hide Seen;
      hide Step;
      hide StartReply;
      hide InKeyOrder;
      hide DoneAt;
      match OpenAt(index)
      case Some((i, ToolUse(id, name, existing))) =>
        DeltaExtends(parse, open, done, last, index, i, Event.ToolInput(partialJson));
        open := open[i := PartialBlock.ToolUse(id, name, existing + partialJson)];
      case _ => DeltaStarts(parse, open, done, last, index, Event.ToolInput(partialJson));
    }

    /** Stops every block still open, lowest index first. */
    method StopAll()
      requires Valid()
      modifies this
      ensures Valid() && open == map[]
      ensures SameBlocks(parse, View(), old(View()))
    {
      ghost var before := View();
      while open.Keys != {}
        invariant Valid()
        invariant SameBlocks(parse, View(), before)
        decreases |open.Keys|
      {
        ghost var least := Least(open.Keys);
        var i: Index :| i in open.Keys && forall x | x in open.Keys :: i <= x;
        ghost var keys, view := open.Keys, View();
        Stop(Some(i));
        assert open.Keys == keys - {i};
        StopKeepsBlocks(parse, view, i, before);
      }
    }

    /** Assembles the reply from every block, dropping the call an early stop cut. */
    method Finish(stopReason: string) returns (reply: Outcome)
      requires Valid()
      modifies this
      ensures reply == Assemble(AllBlocks(parse, old(View())), stopReason)
    {
      hide AllBlocks;
      hide Seen;
      hide InKeyOrder;
      hide SameBlocks;
      hide Values;
      hide Collect;
      hide IsPlainToolName;
      hide StoppedEarly;
      StopAll();
      StoppedValues(parse, done, last, old(View()));
      DropLastEntry(done);
      var cutOffCall: Option<string> := None;
      if StoppedEarly(stopReason) && |done| > 0 && done[|done| - 1].finished.ToolName().Some? {
        var name := done[|done| - 1].finished.ToolName().value;
        cutOffCall := if IsPlainToolName(name) then Some(name) else None;
        done := done[..|done| - 1];
      }
      match Collect(Values(done))
      case Ok(content) => reply := Ok((content, cutOffCall));
      case Err(e) => reply := Err(e);
    }
  }
}

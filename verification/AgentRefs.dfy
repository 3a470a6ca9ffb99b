/**
 Finding `agent #N` and `conversation #N` references in text (`src/agent_refs.rs`).

 `Reference` is the documented grammar. The scan is proved lossless, and to find exactly the phrases
 the grammar admits. Text is a sequence of characters; every byte the scan tests is ASCII, so places
 between characters stand for the byte offsets.
 */
module AgentRefs {
  import opened Wrappers
  import opened Strings

  datatype Segment = Text(words: string) | Conversation(words: string, id: nat) {
    function Written(): string { words }
  }

  const I64_MAX: nat := 0x7FFF_FFFF_FFFF_FFFF

  const CONVERSATION := "conversation"
  const AGENT := "agent"

  /** Which characters past ASCII `char::is_alphanumeric` takes: any set of them. */
  type Beyond = char -> bool

  predicate IsAlphanumeric(beyond: Beyond, c: char) {
    IsDigit(c) || 'a' <= c <= 'z' || 'A' <= c <= 'Z' || (c as int > 127 && beyond(c))
  }

  // ----- The documented grammar -----

  /** The digits of a reference: 1 to 19, not starting with `0`, in range. */
  predicate IdDigits(digits: string, id: nat) {
    IsNumber(digits) && |digits| <= 19 && digits[0] != '0' && ValueOf(digits) == id
    && id <= 0x7FFF_FFFF_FFFF_FFFF
  }

  /** An alphanumeric or `_`: what a word goes on with. */
  predicate IsWordChar(beyond: Beyond, c: char) {
    c == '_' || '0' <= c <= '9' || 'A' <= c <= 'Z' || 'a' <= c <= 'z' || (c as int >= 128 && beyond(c))
  }

  /** `text[start..end]` is a reference to `id` with its `#` at `hash`. */
  predicate ReferenceAt(beyond: Beyond, text: string, start: nat, hash: nat, end: nat, id: nat) {
    && start < hash < end <= |text|
    && text[hash - 1] == ' ' && text[hash] == '#'
    && (EqIgnoreCase(text[start..hash - 1], "conversation") || EqIgnoreCase(text[start..hash - 1], "agent"))
    && (start == 0 || (text[start - 1] != '-' && !IsWordChar(beyond, text[start - 1])))
    && IdDigits(text[hash + 1..end], id)
    && (end == |text| || !IsWordChar(beyond, text[end]))
  }

  ghost predicate Reference(beyond: Beyond, text: string, start: nat, end: nat, id: nat) {
    exists hash :: ReferenceAt(beyond, text, start, hash, end, id)
  }

  // ----- The scan -----

  /** The text's start, or after anything but an alphanumeric, `-` or `_`. */
  predicate WordBoundary(beyond: Beyond, text: string, start: nat)
    requires start <= |text|
  {
    start == 0 || !(IsAlphanumeric(beyond, text[start - 1]) || text[start - 1] == '-' || text[start - 1] == '_')
  }

  lemma BoundaryIs(beyond: Beyond, text: string, start: nat)
    requires start <= |text|
    ensures WordBoundary(beyond, text, start)
            <==> start == 0 || (text[start - 1] != '-' && !IsWordChar(beyond, text[start - 1]))
  {
  }

  /** The word `keyword` and one space end just before the `#`, from a word boundary. */
  predicate KeywordBefore(beyond: Beyond, text: string, hash: nat, keyword: string)
    requires hash < |text|
  {
    && hash > |keyword| && text[hash - 1] == ' '
    && EqIgnoreCase(text[hash - 1 - |keyword|..hash - 1], keyword)
    && WordBoundary(beyond, text, hash - 1 - |keyword|)
  }

  function DigitsEnd(text: string, from: nat): (end: nat)
    requires from <= |text|
    ensures from <= end <= |text| && AllDigits(text[from..end])
    ensures end == |text| || !IsDigit(text[end])
    decreases |text| - from
  {
    if from < |text| && IsDigit(text[from]) then
      var end := DigitsEnd(text, from + 1);
      assert forall i | from < i < end :: text[i] == text[from + 1..end][i - from - 1];
      end
    else from
  }

  /** The next `#` from `at` on. */
  function NextHash(text: string, at: nat): (hash: Option<nat>)
    ensures hash.Some? ==> at <= hash.value < |text| && text[hash.value] == '#'
    decreases |text| - at
  {
    if |text| <= at then None else if text[at] == '#' then Some(at) else NextHash(text, at + 1)
  }

  lemma {:induction false} NextHashIsNext(text: string, at: nat, k: nat)
    requires at <= k < |text| && text[k] == '#'
    ensures NextHash(text, at).Some? && NextHash(text, at).value <= k
    decreases |text| - at
  {
    if text[at] != '#' {
      NextHashIsNext(text, at + 1, k);
    }
  }

  datatype Found = Found(start: nat, end: nat, id: nat)

  /** The reference whose `#` is at `hash`, if there is one. */
  function RefAt(beyond: Beyond, text: string, hash: nat): Option<Found>
    requires hash < |text|
  {
    var keyword := if KeywordBefore(beyond, text, hash, CONVERSATION) then Some(CONVERSATION)
                   else if KeywordBefore(beyond, text, hash, AGENT) then Some(AGENT) else None;
    var end := DigitsEnd(text, hash + 1);
    var digits := text[hash + 1..end];
    if keyword.None? || digits == "" || |digits| > 19 || digits[0] == '0' then None
    else match ParseUpTo(digits, I64_MAX)
      case None => None
      case Some(id) =>
        if end < |text| && (IsAlphanumeric(beyond, text[end]) || text[end] == '_') then None
        else Some(Found(hash - |keyword.value| - 1, end, id))
  }

  /** What the scan has behind it: the pushed text ends at a digit, and only digits reach past `at`. */
  predicate Scanned(text: string, at: nat, rest: nat) {
    && at <= |text| && rest <= |text|
    && (rest > 0 ==> IsDigit(text[rest - 1]))
    && (forall p | at <= p < rest :: IsDigit(text[p]))
  }

  lemma RefAtIsReference(beyond: Beyond, text: string, hash: nat)
    requires hash < |text| && text[hash] == '#'
    ensures match RefAt(beyond, text, hash)
            case Some(r) => ReferenceAt(beyond, text, r.start, hash, r.end, r.id)
            case None => forall start, end, id :: !ReferenceAt(beyond, text, start, hash, end, id)
  {
    hide RefAt;
    hide ReferenceAt;
    match RefAt(beyond, text, hash)
    case Some(r) => FoundIsReference(beyond, text, hash);
    case None =>
      forall start: nat, end: nat, id: nat | ReferenceAt(beyond, text, start, hash, end, id) ensures false {
        RefAtIsUnique(beyond, text, hash, Found(start, end, id));
      }
  }

  lemma FoundIsReference(beyond: Beyond, text: string, hash: nat)
    requires hash < |text| && text[hash] == '#'
    ensures match RefAt(beyond, text, hash)
            case Some(r) => ReferenceAt(beyond, text, r.start, hash, r.end, r.id)
            case None => true
  {
    hide WordBoundary;
    hide ToLower;
    match RefAt(beyond, text, hash)
    case Some(r) => BoundaryIs(beyond, text, r.start);
    case None =>
  }

  lemma RefAtIsUnique(beyond: Beyond, text: string, hash: nat, r: Found)
    requires ReferenceAt(beyond, text, r.start, hash, r.end, r.id)
    ensures RefAt(beyond, text, hash) == Some(r)
  {
    hide WordBoundary;
    BoundaryIs(beyond, text, r.start);
    hide EqIgnoreCase;
    hide ValueOf;
    DigitsAreGreedy(text, hash + 1, r.end);
    var word := text[r.start..hash - 1];
    SameLength(word, AGENT);
    SameLength(word, CONVERSATION);
    if EqIgnoreCase(word, AGENT) {
      AgentIsNotConversation(text, hash);
    }
  }

  lemma SameLength(a: string, b: string)
    ensures EqIgnoreCase(a, b) ==> |a| == |b|
  {
    assert |ToLower(a)| == |a| && |ToLower(b)| == |b|;
  }

  lemma DigitsAreGreedy(text: string, from: nat, end: nat)
    requires from <= end <= |text| && AllDigits(text[from..end])
    requires end == |text| || !IsDigit(text[end])
    ensures DigitsEnd(text, from) == end
    decreases end - from
  {
    if from < end {
      assert text[from] == text[from..end][0];
      assert text[from + 1..end] == text[from..end][1..];
      DigitsAreGreedy(text, from + 1, end);
    }
  }

  lemma AgentIsNotConversation(text: string, hash: nat)
    requires 6 <= hash < |text| && EqIgnoreCase(text[hash - 6..hash - 1], AGENT)
    ensures hash > |CONVERSATION| ==> !EqIgnoreCase(text[hash - 1 - |CONVERSATION|..hash - 1], CONVERSATION)
  {
    assert ToLower(text[hash - 6..hash - 1])[1] == ToLower(AGENT)[1] == 'g';
    if hash > |CONVERSATION| {
      assert ToLower(CONVERSATION)[8] == 't';
      assert ToLower(text[hash - 1 - |CONVERSATION|..hash - 1])[8] == LowerChar(text[hash - 5]);
    }
  }

  /** A reference's words before its digits hold no digit. */
  lemma KeywordHasNoDigit(beyond: Beyond, text: string, start: nat, hash: nat, end: nat, id: nat, p: nat)
    requires ReferenceAt(beyond, text, start, hash, end, id) && start <= p <= hash
    ensures !IsDigit(text[p])
  {
    if p < hash - 1 {
      var word := text[start..hash - 1];
      var keyword := if EqIgnoreCase(word, CONVERSATION) then CONVERSATION else AGENT;
      assert |word| == |keyword| by { assert |ToLower(word)| == |ToLower(keyword)|; }
      assert ToLower(word)[p - start] == ToLower(keyword)[p - start];
      assert word[p - start] == text[p];
      assert !IsDigit(ToLower(keyword)[p - start]);
    }
  }

  /** A reference found past what was scanned starts past what was pushed. */
  lemma StartsAfterRest(beyond: Beyond, text: string, at: nat, rest: nat, start: nat, hash: nat, end: nat, id: nat)
    requires Scanned(text, at, rest) && at <= hash && ReferenceAt(beyond, text, start, hash, end, id)
    ensures rest <= start
  {
    KeywordHasNoDigit(beyond, text, start, hash, end, id, hash);
    if start < rest {
      KeywordHasNoDigit(beyond, text, start, hash, end, id, rest - 1);
    }
  }

  lemma ScannedPast(beyond: Beyond, text: string, at: nat, rest: nat, hash: nat)
    requires Scanned(text, at, rest) && at <= hash < |text| && text[hash] == '#'
    ensures Scanned(text, hash + 1, rest)
    ensures match RefAt(beyond, text, hash)
            case Some(r) => rest <= r.start <= hash < r.end <= |text| && Scanned(text, hash + 1, r.end)
            case None => true
  {
    RefAtIsReference(beyond, text, hash);
    match RefAt(beyond, text, hash)
    case Some(r) =>
      StartsAfterRest(beyond, text, at, rest, r.start, hash, r.end, r.id);
      var digits := text[hash + 1..r.end];
      forall p | hash + 1 <= p < r.end ensures IsDigit(text[p]) {
        assert text[p] == digits[p - hash - 1];
      }
    case None =>
  }

  /** The references whose `#` is at or after `at`, in order. */
  function Refs(beyond: Beyond, text: string, at: nat): seq<Found>
    decreases |text| - at
  {
    match NextHash(text, at)
    case None => []
    case Some(hash) =>
      var found := RefAt(beyond, text, hash);
      (if found.Some? then [found.value] else []) + Refs(beyond, text, hash + 1)
  }

  lemma RefsStep(beyond: Beyond, text: string, at: nat, hash: nat)
    requires NextHash(text, at) == Some(hash)
    ensures Refs(beyond, text, at)
         == (match RefAt(beyond, text, hash) case Some(r) => [r] case None => []) + Refs(beyond, text, hash + 1)
  {
  }

  lemma RefsEnd(beyond: Beyond, text: string, at: nat)
    requires NextHash(text, at).None?
    ensures Refs(beyond, text, at) == []
  {
  }

  /** Places in `text` from `rest` on, one after another without overlap. */
  predicate InOrder(text: string, rest: nat, refs: seq<Found>)
    decreases |refs|
  {
    && rest <= |text|
    && (refs != [] ==> rest <= refs[0].start < refs[0].end <= |text| && InOrder(text, refs[0].end, refs[1..]))
  }

  lemma {:induction false} RefsAreInOrder(beyond: Beyond, text: string, at: nat, rest: nat)
    requires Scanned(text, at, rest)
    ensures InOrder(text, rest, Refs(beyond, text, at))
    decreases |text| - at
  {
    hide RefAt;
    match NextHash(text, at)
    case None =>
    case Some(hash) =>
      ScannedPast(beyond, text, at, rest, hash);
      match RefAt(beyond, text, hash)
      case None =>
        RefsAreInOrder(beyond, text, hash + 1, rest);
        assert Refs(beyond, text, at) == Refs(beyond, text, hash + 1);
      case Some(r) =>
        RefsAreInOrder(beyond, text, hash + 1, r.end);
        assert ([r] + Refs(beyond, text, hash + 1))[1..] == Refs(beyond, text, hash + 1);
  }

  function NonEmpty(words: string): seq<Segment> {
    if words == "" then [] else [Text(words)]
  }

  /** `text[rest..]` cut at the references in it. */
  function Cut(text: string, rest: nat, refs: seq<Found>): seq<Segment>
    requires InOrder(text, rest, refs)
    decreases |refs|
  {
    if refs == [] then NonEmpty(text[rest..])
    else
      var r := refs[0];
      NonEmpty(text[rest..r.start]) + [Conversation(text[r.start..r.end], r.id)] + Cut(text, r.end, refs[1..])
  }

  /** `text` split at its references: a single text segment when it holds none. */
  function Find(beyond: Beyond, text: string): seq<Segment> {
    RefsAreInOrder(beyond, text, 0, 0);
    if text == "" then [Text("")] else Cut(text, 0, Refs(beyond, text, 0))
  }

  // ----- Lossless -----

  function Written(segments: seq<Segment>): string {
    if segments == [] then "" else segments[0].words + Written(segments[1..])
  }

  lemma {:induction false} WrittenConcat(a: seq<Segment>, b: seq<Segment>)
    ensures Written(a + b) == Written(a) + Written(b)
  {
    if a == [] {
      assert a + b == b;
    } else {
      assert (a + b)[1..] == a[1..] + b;
      WrittenConcat(a[1..], b);
      assert (a + b)[0].words + (Written(a[1..]) + Written(b)) == a[0].words + Written(a[1..]) + Written(b);
    }
  }

  lemma WrittenNonEmpty(words: string)
    ensures Written(NonEmpty(words)) == words
  {
    if words != "" {
      assert NonEmpty(words)[1..] == [];
    }
  }

  /** Text segments hold something and never stand side by side. */
  predicate Separated(segments: seq<Segment>) {
    && (forall k | 0 <= k < |segments| :: segments[k].Text? ==> segments[k].words != "")
    && (forall k | 0 < k < |segments| :: !(segments[k - 1].Text? && segments[k].Text?))
  }

  lemma WrittenStep(words: string, ref: string, id: nat, after: seq<Segment>)
    ensures Written(NonEmpty(words) + [Conversation(ref, id)] + after) == words + ref + Written(after)
  {
    var one := [Conversation(ref, id)];
    WrittenNonEmpty(words);
    WrittenConcat(NonEmpty(words) + one, after);
    WrittenConcat(NonEmpty(words), one);
    assert one[1..] == [];
  }

  lemma SeparatedStep(words: string, ref: string, id: nat, after: seq<Segment>)
    requires Separated(after)
    ensures Separated(NonEmpty(words) + [Conversation(ref, id)] + after)
  {
    var before := NonEmpty(words) + [Conversation(ref, id)];
    var all := before + after;
    forall k | 0 <= k < |all| ensures all[k].Text? ==> all[k].words != "" {
      if |before| <= k { assert all[k] == after[k - |before|]; }
    }
    forall k | 0 < k < |all| ensures !(all[k - 1].Text? && all[k].Text?) {
      if |before| < k { assert all[k] == after[k - |before|] && all[k - 1] == after[k - 1 - |before|]; }
    }
  }

  lemma {:induction false} CutIsLossless(text: string, rest: nat, refs: seq<Found>)
    requires InOrder(text, rest, refs)
    ensures Written(Cut(text, rest, refs)) == text[rest..]
    ensures Separated(Cut(text, rest, refs))
    decreases |refs|
  {
    hide Written;
    hide Separated;
    hide NonEmpty;
    if refs == [] {
      WrittenNonEmpty(text[rest..]);
      OneIsSeparated(text[rest..]);
    } else {
      var r, after := refs[0], Cut(text, refs[0].end, refs[1..]);
      CutIsLossless(text, r.end, refs[1..]);
      WrittenStep(text[rest..r.start], text[r.start..r.end], r.id, after);
      SeparatedStep(text[rest..r.start], text[r.start..r.end], r.id, after);
      ThreeParts(text, rest, r.start, r.end);
    }
  }

  lemma OneIsSeparated(words: string)
    ensures Separated(NonEmpty(words))
  {
  }

  lemma ThreeParts(text: string, a: nat, b: nat, c: nat)
    requires a <= b <= c <= |text|
    ensures text[a..b] + text[b..c] + text[c..] == text[a..]
  {
  }

  /** The segments are the text, in order; text segments are never empty or adjacent but for an empty text. */
  lemma FindIsLossless(beyond: Beyond, text: string)
    ensures Written(Find(beyond, text)) == text
    ensures text != "" ==> Separated(Find(beyond, text))
  {
    if text != "" {
      RefsAreInOrder(beyond, text, 0, 0);
      CutIsLossless(text, 0, Refs(beyond, text, 0));
    } else {
      assert Written([Text("")]) == "";
    }
  }

  // ----- Sound and complete -----

  /** The references among segments that start at `at`, with their places in the text. */
  function Placed(segments: seq<Segment>, at: nat): seq<Found> {
    if segments == [] then []
    else
      var end := at + |segments[0].words|;
      (match segments[0]
       case Text(_) => []
       case Conversation(_, id) => [Found(at, end, id)]) + Placed(segments[1..], end)
  }

  lemma {:induction false} PlacedConcat(a: seq<Segment>, b: seq<Segment>, at: nat)
    ensures Placed(a + b, at) == Placed(a, at) + Placed(b, at + |Written(a)|)
  {
    if a == [] {
      assert a + b == b;
    } else {
      assert (a + b)[1..] == a[1..] + b;
      PlacedConcat(a[1..], b, at + |a[0].words|);
    }
  }

  lemma PlacedStep(words: string, ref: string, id: nat, after: seq<Segment>, at: nat)
    ensures Placed(NonEmpty(words) + [Conversation(ref, id)] + after, at)
         == [Found(at + |words|, at + |words| + |ref|, id)] + Placed(after, at + |words| + |ref|)
  {
    var one := [Conversation(ref, id)];
    WrittenNonEmpty(words);
    WrittenConcat(NonEmpty(words), one);
    assert one[1..] == [];
    PlacedConcat(NonEmpty(words) + one, after, at);
    PlacedConcat(NonEmpty(words), one, at);
  }

  /** `r` is a reference whose `#` is at or after `at`. */
  ghost predicate Ahead(beyond: Beyond, text: string, at: nat, r: Found) {
    exists hash :: at <= hash && ReferenceAt(beyond, text, r.start, hash, r.end, r.id)
  }

  lemma AheadStep(beyond: Beyond, text: string, at: nat, r: Found)
    ensures match NextHash(text, at)
            case None => !Ahead(beyond, text, at, r)
            case Some(first) =>
              Ahead(beyond, text, at, r) <==>
              Ahead(beyond, text, first + 1, r) || ReferenceAt(beyond, text, r.start, first, r.end, r.id)
  {
    if Ahead(beyond, text, at, r) {
      var hash :| at <= hash && ReferenceAt(beyond, text, r.start, hash, r.end, r.id);
      NextHashIsNext(text, at, hash);
    }
  }

  /** At one `#`, the scan's reference is the only one the grammar admits. */
  lemma RefAtExactly(beyond: Beyond, text: string, hash: nat, r: Found)
    requires hash < |text| && text[hash] == '#'
    ensures RefAt(beyond, text, hash) == Some(r) <==> ReferenceAt(beyond, text, r.start, hash, r.end, r.id)
  {
    hide RefAt;
    hide ReferenceAt;
    RefAtIsReference(beyond, text, hash);
    if ReferenceAt(beyond, text, r.start, hash, r.end, r.id) {
      RefAtIsUnique(beyond, text, hash, r);
    }
  }

  lemma {:induction false} RefsAreThoseAhead(beyond: Beyond, text: string, at: nat, r: Found)
    ensures r in Refs(beyond, text, at) <==> Ahead(beyond, text, at, r)
    decreases |text| - at
  {
    hide RefAt;
    hide ReferenceAt;
    hide Ahead;
    hide Refs;
    AheadStep(beyond, text, at, r);
    match NextHash(text, at)
    case None => RefsEnd(beyond, text, at);
    case Some(first) =>
      RefsStep(beyond, text, at, first);
      RefsAreThoseAhead(beyond, text, first + 1, r);
      RefAtExactly(beyond, text, first, r);
  }

  lemma {:induction false} CutPlacesRefs(text: string, rest: nat, refs: seq<Found>)
    requires InOrder(text, rest, refs)
    ensures Placed(Cut(text, rest, refs), rest) == refs
    decreases |refs|
  {
    if refs != [] {
      var r := refs[0];
      CutPlacesRefs(text, r.end, refs[1..]);
      PlacedStep(text[rest..r.start], text[r.start..r.end], r.id, Cut(text, r.end, refs[1..]), rest);
    } else if text[rest..] != "" {
      assert [Text(text[rest..])][1..] == [];
    }
  }

  /** A phrase is a reference segment exactly when the grammar admits it, and references never overlap. */
  lemma FindsExactlyTheReferences(beyond: Beyond, text: string, start: nat, end: nat, id: nat)
    ensures Found(start, end, id) in Placed(Find(beyond, text), 0) <==> Reference(beyond, text, start, end, id)
    ensures InOrder(text, 0, Placed(Find(beyond, text), 0))
  {
    RefsAreInOrder(beyond, text, 0, 0);
    RefsAreThoseAhead(beyond, text, 0, Found(start, end, id));
    if text == "" {
      assert [Text("")][1..] == [];
    } else {
      CutPlacesRefs(text, 0, Refs(beyond, text, 0));
    }
  }

  lemma DigitsEndStep(text: string, from: nat)
    requires from <= |text|
    ensures DigitsEnd(text, from) == if from < |text| && IsDigit(text[from]) then DigitsEnd(text, from + 1) else from
  {
    hide AllDigits;
  }

  /** The checks the loop makes at one `#`. */
  method CheckHash(beyond: Beyond, text: string, hash: nat) returns (found: Option<Found>)
    requires hash < |text|
    ensures found == RefAt(beyond, text, hash)
  {
    hide WordBoundary;
    hide ToLower;
    hide DigitsEnd;
    hide AllDigits;
    hide ParseUpTo;
    hide IsAlphanumeric;
    var keyword := if KeywordBefore(beyond, text, hash, CONVERSATION) then Some(CONVERSATION)
                   else if KeywordBefore(beyond, text, hash, AGENT) then Some(AGENT) else None;
    if keyword.None? {
      return None;
    }
    var end := hash + 1;
    while end < |text| && IsDigit(text[end])
      invariant hash + 1 <= end <= |text| && DigitsEnd(text, end) == DigitsEnd(text, hash + 1)
    {
      DigitsEndStep(text, end);
      end := end + 1;
    }
    DigitsEndStep(text, end);
    var digits := text[hash + 1..end];
    if digits == "" || |digits| > 19 || digits[0] == '0' {
      return None;
    }
    var id := ParseUpTo(digits, I64_MAX);
    if id.None? || (end < |text| && (IsAlphanumeric(beyond, text[end]) || text[end] == '_')) {
      return None;
    }
    return Some(Found(hash - |keyword.value| - 1, end, id.value));
  }

  /** What the loop keeps: what it pushed, and `refs` left to cut, are the whole. */
  ghost predicate Pushed(text: string, rest: nat, refs: seq<Found>, out: seq<Segment>, whole: seq<Segment>) {
    InOrder(text, rest, refs) && out + Cut(text, rest, refs) == whole && (out == [] ==> rest == 0)
  }

  lemma PushRef(text: string, rest: nat, r: Found, refs: seq<Found>, out: seq<Segment>, whole: seq<Segment>)
    requires Pushed(text, rest, [r] + refs, out, whole)
    ensures rest <= r.start < r.end <= |text|
    ensures Pushed(text, r.end, refs, out + NonEmpty(text[rest..r.start])
                   + [Conversation(text[r.start..r.end], r.id)], whole)
  {
    assert ([r] + refs)[1..] == refs;
    var before, ref, after :=
      NonEmpty(text[rest..r.start]), [Conversation(text[r.start..r.end], r.id)], Cut(text, r.end, refs);
    assert Cut(text, rest, [r] + refs) == before + ref + after;
    assert out + (before + ref + after) == out + before + ref + after;
  }

  lemma PushStart(text: string, refs: seq<Found>)
    requires InOrder(text, 0, refs)
    ensures Pushed(text, 0, refs, [], Cut(text, 0, refs))
  {
    assert [] + Cut(text, 0, refs) == Cut(text, 0, refs);
  }

  lemma PushEnd(text: string, rest: nat, out: seq<Segment>, whole: seq<Segment>)
    requires Pushed(text, rest, [], out, whole)
    ensures rest <= |text| && whole == if rest < |text| then out + [Text(text[rest..])] else out
    ensures out == [] ==> rest == 0 && text[rest..] == text
    ensures text == "" ==> whole == out
  {
  }

  lemma EmptyHasNone(beyond: Beyond, text: string)
    requires text == "" && InOrder(text, 0, Refs(beyond, text, 0))
    ensures Cut(text, 0, Refs(beyond, text, 0)) == []
  {
  }

  method Push(text: string, rest: nat, r: Found, out: seq<Segment>) returns (pushed: seq<Segment>)
    requires rest <= r.start < r.end <= |text|
    ensures pushed == out + NonEmpty(text[rest..r.start]) + [Conversation(text[r.start..r.end], r.id)]
  {
    pushed := out;
    if r.start > rest {
      pushed := pushed + [Text(text[rest..r.start])];
    }
    pushed := pushed + [Conversation(text[r.start..r.end], r.id)];
  }

  method FindRefs(beyond: Beyond, text: string) returns (out: seq<Segment>)
    ensures out == Find(beyond, text)
  {
    hide RefAt;
    hide Cut;
    hide InOrder;
    hide Pushed;
    hide Refs;
    hide NonEmpty;
    out := [];
    var rest: nat, at: nat := 0, 0;
    RefsAreInOrder(beyond, text, 0, 0);
    ghost var refs := Refs(beyond, text, at);
    ghost var whole := Cut(text, rest, refs);
    PushStart(text, refs);
    var seek := NextHash(text, at);
    while seek.Some?
      invariant seek == NextHash(text, at) && refs == Refs(beyond, text, at)
      invariant Pushed(text, rest, refs, out, whole)
      decreases |text| - at
    {
      var hash := seek.value;
      var found := CheckHash(beyond, text, hash);
      RefsStep(beyond, text, at, hash);
      ghost var next := Refs(beyond, text, hash + 1);
      assert refs == if found.Some? then [found.value] + next else next;
      refs := next;
      if found.Some? {
        PushRef(text, rest, found.value, refs, out, whole);
        out := Push(text, rest, found.value, out);
        rest := found.value.end;
      }
      at := hash + 1;
      seek := NextHash(text, at);
    }
    RefsEnd(beyond, text, at);
    PushEnd(text, rest, out, whole);
    if text == "" {
      EmptyHasNone(beyond, text);
    }
    assert text != "" ==> whole == Find(beyond, text);
    if out == [] {
      out := [Text(text)];
    } else if rest < |text| {
      out := out + [Text(text[rest..])];
    }
  }
}

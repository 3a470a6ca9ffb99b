/**
 The notices saved into a transcript and their readers (`src/api/chat.rs`, `src/text_calls.rs`):
 every reader gives back what its notice was written from, and takes nothing else.
 */
module Notices {
  import opened Wrappers
  import opened Sequences
  import opened Strings

  const U32_MAX: nat := 0xFFFF_FFFF

  /** U+2063, which every notice starts with and no user's message does. */
  const MARK: string := "\U{2063}"

  // Long texts below are written in two parts: the proofs that tell texts apart by their characters take a
  // part at a time, which keeps what the verifier knows of each literal small.

  function MarkNotice(text: string): string {
    MARK + text
  }

  /** A message as the user sent it, without marks at its start. */
  function UsersText(text: string): string
    decreases |text|
  {
    if MARK <= text then UsersText(text[1..]) else text
  }

  // ----- A failed turn -----

  const FAILURE_START := "The last turn failed" + " before it finished: "

  function FailureNotice(reason: string): string {
    MARK + FAILURE_START + reason
  }

  function AfterStart(text: string, start: string): Option<string> {
    match StripPrefix(text, MARK)
    case Some(words) => StripPrefix(words, start)
    case None => None
  }

  function ParseFailureNotice(text: string): Option<string> {
    AfterStart(text, FAILURE_START)
  }

  // ----- A reply cut off or refused -----

  datatype ReplyLimit = OutputCap | ModelMaximum | HalfWindow | RoomLeft | LaunchCap {
    function Reason(): string {
      match this
      case OutputCap => "the model's maximum" + " reply length"
      case ModelMaximum => "the most this model can" + " write in one reply"
      case HalfWindow => "half the context window"
      case RoomLeft => "the room left in" + " the conversation"
      case LaunchCap => "the reply cap Claude Code" + " was started with"
    }
  }

  const ALL_LIMITS: seq<ReplyLimit> := [OutputCap, ModelMaximum, HalfWindow, RoomLeft, LaunchCap]

  const CUT_CALL_START := " It stopped in the middle of a call to `"
  const CUT_CALL_END := "`, which was dropped and not run."
  const CUT_OFF_START := "Your last reply was cut off" + ": it reached its limit of "
  const TOKENS := " tokens ("
  const FINISHED := " before it finished."
  const REFUSAL_START :=
    "Your last reply was stopped" + " by the model provider's safety system (a refusal) before it finished."

  function CutCall(call: Option<string>): string {
    match call
    case Some(name) => CUT_CALL_START + name + CUT_CALL_END
    case None => ""
  }

  function CutOffNotice(tokens: nat, limit: ReplyLimit, call: Option<string>): string {
    MarkNotice(CUT_OFF_START + Decimal(tokens) + TOKENS + limit.Reason() + ")" + FINISHED + CutCall(call))
  }

  function RefusalNotice(call: Option<string>): string {
    MarkNotice(REFUSAL_START + CutCall(call))
  }

  /** Nothing, or the call a reply was stopped in. */
  function ParseCutCall(rest: string): Option<Option<string>> {
    if rest == "" then Some(None)
    else match StripPrefix(rest, CUT_CALL_START)
      case None => None
      case Some(tail) =>
        match StripSuffix(tail, CUT_CALL_END)
        case None => None
        case Some(name) => if name == "" then None else Some(Some(name))
  }

  function ParseRefusalNotice(text: string): Option<Option<string>> {
    match AfterStart(text, REFUSAL_START)
    case Some(rest) => ParseCutCall(rest)
    case None => None
  }

  function FindLimit(limits: seq<ReplyLimit>, reason: string): Option<ReplyLimit> {
    if limits == [] then None
    else if limits[0].Reason() == reason then Some(limits[0])
    else FindLimit(limits[1..], reason)
  }

  /** `str::parse::<u32>`, which takes a plus sign. */
  function ParseU32(s: string): Option<nat> {
    ParseUpTo(if "+" <= s then s[1..] else s, U32_MAX)
  }

  /** What bound the reply, and the call it was cut in. */
  function ParseLimit(more: string): Option<(ReplyLimit, Option<string>)> {
    match SplitOnce(more, ")")
    case None => None
    case Some((reason, end)) =>
      match (FindLimit(ALL_LIMITS, reason), StripPrefix(end, FINISHED))
      case (Some(limit), Some(rest)) =>
        (match ParseCutCall(rest)
         case Some(call) => Some((limit, call))
         case None => None)
      case _ => None
  }

  function ParseCutOffNotice(text: string): Option<(nat, ReplyLimit, Option<string>)> {
    match AfterStart(text, CUT_OFF_START)
    case None => None
    case Some(words) =>
      match SplitOnce(words, TOKENS)
      case None => None
      case Some((tokens, more)) =>
        match (ParseLimit(more), ParseU32(tokens))
        case (Some((limit, call)), Some(n)) => Some((n, limit, call))
        case _ => None
  }

  // ----- Calls written as text -----

  const TEXT_CALL_START := "Your last reply wrote" + " a tool call as text instead of making it, so it didn't run."
  const TEXT_CALL_END := " Make the call as a tool call, not as text in your reply."
  const UNREADABLE := "One call's tool name" + " couldn't be read"
  const MAX_NAME: nat := 128

  const IS_OFFERED := " is offered"
  const ISNT_OFFERED := " isn't an offered tool"
  const BUT_WRITTEN := ", but a call written in" + " a reply's text isn't made"
  const NO_SERVER := ", and no MCP server "
  const SIMILAR := "; similar offered tools: "
  const NONE_SIMILAR := ", and no offered tool" + " has a similar name"

  predicate IsNameChar(c: char) {
    IsDigit(c) || 'a' <= c <= 'z' || 'A' <= c <= 'Z' || c == '_' || c == '.' || c == ':' || c == '-'
  }

  /** A tool name: 1 to 128 name characters. */
  predicate IsName(name: string) {
    0 < |name| <= MAX_NAME && forall i | 0 <= i < |name| :: IsNameChar(name[i])
  }

  function Checked(name: string): Option<string> {
    if IsName(name) then Some(name) else None
  }

  function ParseToolName(name: string): Option<(string, string)> {
    match StripPrefix(name, "mcp__")
    case Some(rest) => SplitOnce(rest, "__")
    case None => None
  }

  /** The server part of a name, if it has one. */
  function ServerOf(name: string): Option<string> {
    match ParseToolName(name)
    case Some((server, _)) => Some(server)
    case None => None
  }

  /** Text that no full stop and space cut. */
  predicate NoBreak(s: string) {
    !Contains(s, ". ")
  }

  /** What a notice is written with: the offered names, the safe form of a name, and the offered names like one. */
  datatype Tools = Tools(offered: seq<string>, safe: string -> string, similar: string -> seq<string>) {
    /** Only offered names are suggested, and none can end a sentence early. */
    ghost predicate Fit() {
      && (forall name, s | s in similar(name) :: s in offered)
      && (forall s | s in offered :: NoBreak(s))
    }
  }

  function Quoted(names: seq<string>): string {
    if names == [] then ""
    else if |names| == 1 then "`" + names[0] + "`"
    else "`" + names[0] + "`, " + Quoted(names[1..])
  }

  /** The server a name asks for when no offered tool is on it. */
  function MissingServer(name: string, tools: Tools): Option<string> {
    var safeServer := ServerOf(tools.safe(name));
    match ServerOf(name)
    case None => None
    case Some(server) =>
      if exists o | o in tools.offered ::
        ServerOf(o).Some? &&
        (EqIgnoreCase(ServerOf(o).value, server)
         || (safeServer.Some? && EqIgnoreCase(ServerOf(o).value, safeServer.value)))
      then None
      else Some(server)
  }

  /** What a call to a name that isn't offered is told, without the full stop at its end. */
  function UnofferedSentence(name: string, tools: Tools): string {
    var missing := MissingServer(name, tools);
    "`" + name + "`" + ISNT_OFFERED
    + (if missing.Some? then NO_SERVER + ("`" + missing.value + "`" + IS_OFFERED) else "")
    + (if tools.similar(name) != [] then SIMILAR + Quoted(tools.similar(name))
       else if missing.Some? then ""
       else NONE_SIMILAR)
  }

  /** A call's sentence, without the full stop at its end. */
  function Sentence(call: Option<string>, tools: Tools): string {
    match call
    case None => UNREADABLE
    case Some(name) =>
      if name in tools.offered then "`" + name + "`" + IS_OFFERED + BUT_WRITTEN
      else UnofferedSentence(name, tools)
  }

  function Sentences(calls: seq<Option<string>>, tools: Tools): string {
    if calls == [] then ""
    else Sentences(calls[..|calls| - 1], tools) + " " + Sentence(calls[|calls| - 1], tools) + "."
  }

  function TextCallNotice(calls: seq<Option<string>>, tools: Tools): string {
    MarkNotice(TEXT_CALL_START) + Sentences(calls, tools) + TEXT_CALL_END
  }

  lemma NoSentences(tools: Tools)
    ensures Sentences([], tools) == ""
  {
  }

  lemma SentencesStep(calls: seq<Option<string>>, i: nat, tools: Tools)
    requires i < |calls|
    ensures Sentences(calls[..i + 1], tools) == Sentences(calls[..i], tools) + " " + Sentence(calls[i], tools) + "."
  {
    assert calls[..i + 1][..i] == calls[..i];
  }

  lemma SentenceIs(call: Option<string>, tools: Tools)
    ensures match call
            case None => Sentence(call, tools) == UNREADABLE
            case Some(name) =>
              Sentence(call, tools) ==
              if name in tools.offered then "`" + name + "`" + IS_OFFERED + BUT_WRITTEN
              else UnofferedSentence(name, tools)
  {
  }

  /** `text_call_notice`: a sentence pushed for each call in turn. */
  method WriteTextCallNotice(calls: seq<Option<string>>, tools: Tools) returns (notice: string)
    ensures notice == TextCallNotice(calls, tools)
  {
    hide MarkNotice;
    hide UnofferedSentence;
    hide Sentence;
    hide Sentences;
    var start := MarkNotice(TEXT_CALL_START);
    notice := start;
    NoSentences(tools);
    assert start + "" == start;
    for i := 0 to |calls|
      invariant notice == start + Sentences(calls[..i], tools)
    {
      SentenceIs(calls[i], tools);
      SentencesStep(calls, i, tools);
      var sentence := UNREADABLE;
      match calls[i] {
        case None =>
        case Some(name) =>
          if name in tools.offered {
            sentence := "`" + name + "`" + IS_OFFERED + BUT_WRITTEN;
          } else {
            sentence := UnofferedSentence(name, tools);
          }
      }
      ghost var before := Sentences(calls[..i], tools);
      assert start + (before + " " + sentence + ".") == (start + before) + " " + sentence + ".";
      notice := notice + " " + sentence + ".";
    }
    assert calls[..|calls|] == calls;
    notice := notice + TEXT_CALL_END;
  }

  function SplitAll(s: string, sep: string): seq<string>
    requires sep != ""
    decreases |s|
  {
    match SplitOnce(s, sep)
    case None => [s]
    case Some((first, rest)) => [first] + SplitAll(rest, sep)
  }

  /** A sentence's call, or `None` for a sentence no notice has. */
  function ParseSentence(sentence: string): Option<Option<string>> {
    if sentence == UNREADABLE then Some(None)
    else match StripPrefix(sentence, "`")
      case None => None
      case Some(rest) =>
        match SplitOnce(rest, "`")
        case None => None
        case Some((name, tail)) =>
          if (IS_OFFERED <= tail || ISNT_OFFERED <= tail) && Checked(name).Some? then Some(Some(name)) else None
  }

  /** Every sentence's call, or `None` when one has none. */
  function ParseSentences(sentences: seq<string>): Option<seq<Option<string>>> {
    if sentences == [] then Some([])
    else match (ParseSentence(sentences[0]), ParseSentences(sentences[1..]))
      case (Some(call), Some(calls)) => Some([call] + calls)
      case _ => None
  }

  function ParseTextCallNotice(text: string): Option<seq<Option<string>>> {
    match AfterStart(text, TEXT_CALL_START)
    case None => None
    case Some(words) =>
      match StripSuffix(words, TEXT_CALL_END)
      case None => None
      case Some(body) =>
        match StripPrefix(body, " ")
        case None => None
        case Some(spaced) =>
          match StripSuffix(spaced, ".")
          case None => None
          case Some(sentences) => ParseSentences(SplitAll(sentences, ". "))
  }

  // ----- Round trips -----

  lemma AfterStartOf(start: string, rest: string)
    ensures AfterStart(MARK + (start + rest), start) == Some(rest)
  {
    StripPrefixOf(MARK, start + rest);
    StripPrefixOf(start, rest);
  }

  /** Every reason is read back, an empty one too. */
  lemma FailureRoundTrips(reason: string)
    ensures ParseFailureNotice(FailureNotice(reason)) == Some(reason)
  {
    AfterStartOf(FAILURE_START, reason);
    assert MARK + FAILURE_START + reason == MARK + (FAILURE_START + reason);
  }

  /** A dropped call is read back unless its name is empty, which the notice can't tell from no notice. */
  lemma CutCallRoundTrips(call: Option<string>)
    ensures ParseCutCall(CutCall(call)) == if call == Some("") then None else Some(call)
  {
    match call
    case None =>
    case Some(name) =>
      assert CUT_CALL_START + name + CUT_CALL_END == CUT_CALL_START + (name + CUT_CALL_END);
      StripPrefixOf(CUT_CALL_START, name + CUT_CALL_END);
      StripSuffixOf(name, CUT_CALL_END);
  }

  lemma RefusalRoundTrips(call: Option<string>)
    ensures ParseRefusalNotice(RefusalNotice(call)) == Some(call) <==> call != Some("")
    ensures call == Some("") ==> ParseRefusalNotice(RefusalNotice(call)).None?
  {
    AfterStartOf(REFUSAL_START, CutCall(call));
    CutCallRoundTrips(call);
  }

  lemma ReasonsAreDistinct(a: ReplyLimit, b: ReplyLimit)
    requires a.Reason() == b.Reason()
    ensures a == b
  {
    assert |a.Reason()| == |b.Reason()| && a.Reason()[4] == b.Reason()[4];
  }

  lemma {:induction false} FindsLimit(limits: seq<ReplyLimit>, limit: ReplyLimit)
    requires limit in limits
    ensures FindLimit(limits, limit.Reason()) == Some(limit)
  {
    hide ReplyLimit.Reason;
    if limits[0].Reason() == limit.Reason() {
      ReasonsAreDistinct(limits[0], limit);
    } else {
      FindsLimit(limits[1..], limit);
    }
  }

  lemma LimitRoundTrips(limit: ReplyLimit, call: Option<string>)
    ensures ParseLimit(limit.Reason() + ")" + (FINISHED + CutCall(call)))
         == if call == Some("") then None else Some((limit, call))
  {
    hide SplitOnce;
    hide FindLimit;
    hide ParseCutCall;
    hide CutCall;
    hide ReplyLimit.Reason;
    hide StripPrefix;
    ReasonHasNoBracket(limit);
    SplitOnceOf(limit.Reason(), ")", FINISHED + CutCall(call));
    FindsLimit(ALL_LIMITS, limit);
    StripPrefixOf(FINISHED, CutCall(call));
    CutCallRoundTrips(call);
  }

  lemma TokensRoundTrip(tokens: nat, more: string)
    requires tokens <= U32_MAX
    ensures SplitOnce(Decimal(tokens) + TOKENS + more, TOKENS) == Some((Decimal(tokens), more))
    ensures ParseU32(Decimal(tokens)) == Some(tokens)
  {
    hide SplitOnce;
    hide Decimal;
    SplitOnceOf(Decimal(tokens), TOKENS, more);
    ParseDecimal(tokens, U32_MAX);
    assert Decimal(tokens)[0] != '+';
  }

  lemma CutOffRoundTrips(tokens: nat, limit: ReplyLimit, call: Option<string>)
    requires tokens <= 0xFFFF_FFFF
    ensures ParseCutOffNotice(CutOffNotice(tokens, limit, call)) == Some((tokens, limit, call)) <==> call != Some("")
    ensures call == Some("") ==> ParseCutOffNotice(CutOffNotice(tokens, limit, call)).None?
  {
    hide AfterStart;
    hide SplitOnce;
    hide ParseU32;
    hide ParseLimit;
    hide CutCall;
    hide Decimal;
    hide ReplyLimit.Reason;
    var more := limit.Reason() + ")" + (FINISHED + CutCall(call));
    CutOffIs(CUT_OFF_START, Decimal(tokens), TOKENS, limit.Reason(), ")", FINISHED, CutCall(call));
    AfterStartOf(CUT_OFF_START, Decimal(tokens) + TOKENS + more);
    TokensRoundTrip(tokens, more);
    LimitRoundTrips(limit, call);
  }

  lemma CutOffIs(a: string, b: string, c: string, d: string, e: string, f: string, g: string)
    ensures a + b + c + d + e + f + g == a + (b + c + (d + e + (f + g)))
  {
  }

  lemma NotInEither(a: string, b: string, c: char)
    requires c !in a && c !in b
    ensures c !in a + b
  {
  }

  lemma ReasonHasNoBracket(limit: ReplyLimit)
    ensures ')' !in limit.Reason()
  {
    hide ReplyLimit.Reason;
    match limit
    case OutputCap => MaximaHaveNoBracket();
    case ModelMaximum => MaximaHaveNoBracket();
    case HalfWindow => HalfHasNoBracket();
    case RoomLeft => RoomHasNoBracket();
    case LaunchCap => CapHasNoBracket();
  }

  lemma MaximaHaveNoBracket()
    ensures ')' !in OutputCap.Reason() && ')' !in ModelMaximum.Reason()
  {
    NotInEither("the model's maximum", " reply length", ')');
    NotInEither("the most this model can", " write in one reply", ')');
  }

  lemma HalfHasNoBracket()
    ensures ')' !in HalfWindow.Reason()
  {
  }

  lemma RoomHasNoBracket()
    ensures ')' !in RoomLeft.Reason()
  {
    NotInEither("the room left in", " the conversation", ')');
  }

  lemma CapHasNoBracket()
    ensures ')' !in LaunchCap.Reason()
  {
    NotInEither("the reply cap Claude Code", " was started with", ')');
  }

  // ----- Sentences that no full stop and space cut -----

  /** Text with no break in it, that none can start at the end of. */
  predicate Piece(s: string) {
    NoBreak(s) && s != "" && s[|s| - 1] != '.'
  }

  lemma BreakChars(s: string, at: nat)
    ensures OccursAt(s, ". ", at) <==> at + 1 < |s| && s[at] == '.' && s[at + 1] == ' '
  {
    if at + 1 < |s| {
      assert s[at..at + 2] == [s[at], s[at + 1]];
    }
  }

  lemma NoBreakJoins(a: string, b: string)
    requires NoBreak(a) && NoBreak(b)
    requires a == "" || a[|a| - 1] != '.' || b == "" || b[0] != ' '
    ensures NoBreak(a + b)
  {
    forall at: nat ensures !OccursAt(a + b, ". ", at) {
      BreakChars(a + b, at);
      BreakChars(a, at);
      if at >= |a| {
        BreakChars(b, at - |a|);
      }
    }
  }

  lemma PiecesJoin(a: string, b: string)
    requires Piece(a) && Piece(b)
    ensures Piece(a + b)
  {
    NoBreakJoins(a, b);
  }

  lemma NoSpaceNoBreak(s: string)
    requires ' ' !in s || '.' !in s
    ensures NoBreak(s)
  {
    forall at: nat ensures !OccursAt(s, ". ", at) {
      BreakChars(s, at);
    }
  }

  /** In backticks, any unbroken text is a piece. */
  lemma QuotedPiece(s: string)
    requires NoBreak(s)
    ensures Piece("`" + s + "`")
  {
    NoSpaceNoBreak("`");
    NoBreakJoins("`", s);
    NoBreakJoins("`" + s, "`");
  }

  lemma NamePiece(name: string)
    requires IsName(name)
    ensures NoBreak(name) && '`' !in name && ' ' !in name
  {
    NoSpaceNoBreak(name);
  }

  lemma {:induction false} QuotedNamesPiece(names: seq<string>)
    requires names != [] && forall n | n in names :: NoBreak(n)
    ensures Piece(Quoted(names))
  {
    hide NoBreak;
    QuotedPiece(names[0]);
    if |names| > 1 {
      QuotedNamesPiece(names[1..]);
      NoSpaceNoBreak(", ");
      assert Piece(", " + Quoted(names[1..])) by { CommaPiece(Quoted(names[1..])); }
      PiecesJoin("`" + names[0] + "`", ", " + Quoted(names[1..]));
      assert "`" + names[0] + "`" + (", " + Quoted(names[1..])) == Quoted(names);
    }
  }

  lemma CommaPiece(s: string)
    requires Piece(s)
    ensures Piece(", " + s)
  {
    NoSpaceNoBreak(", ");
    NoBreakJoins(", ", s);
  }

  lemma {:induction false} PartOfUnbroken(a: string, b: string, c: string)
    requires ' ' !in a + b + c
    ensures ' ' !in b
  {
    assert forall i | 0 <= i < |b| :: (a + b + c)[|a| + i] == b[i];
  }

  /** A name's server part is part of it, so holds no space. */
  lemma ServerHasNoSpace(name: string)
    requires ' ' !in name
    ensures match ServerOf(name) case Some(server) => ' ' !in server case None => true
  {
    match ParseToolName(name)
    case None =>
    case Some((server, tool)) =>
      assert "mcp__" + server + ("__" + tool) == name;
      PartOfUnbroken("mcp__", server, "__" + tool);
  }

  lemma NoDotPiece(s: string)
    requires '.' !in s && s != ""
    ensures Piece(s)
  {
    NoSpaceNoBreak(s);
    assert s[|s| - 1] in s;
  }

  lemma PhrasesHoldNoDot()
    ensures '.' !in IS_OFFERED && '.' !in ISNT_OFFERED && '.' !in NO_SERVER && '.' !in SIMILAR
  {
  }

  lemma SentencesHoldNoDot()
    ensures '.' !in UNREADABLE && '.' !in BUT_WRITTEN && '.' !in NONE_SIMILAR
  {
    UnreadableHoldsNoDot();
    WrittenHoldsNoDot();
    NoneSimilarHoldsNoDot();
  }

  lemma UnreadableHoldsNoDot()
    ensures '.' !in UNREADABLE
  {
    NotInEither("One call's tool name", " couldn't be read", '.');
  }

  lemma WrittenHoldsNoDot()
    ensures '.' !in BUT_WRITTEN
  {
    NotInEither(", but a call written in", " a reply's text isn't made", '.');
  }

  lemma NoneSimilarHoldsNoDot()
    ensures '.' !in NONE_SIMILAR
  {
    NotInEither(", and no offered tool", " has a similar name", '.');
  }

  lemma PhrasePieces()
    ensures Piece(UNREADABLE) && Piece(IS_OFFERED) && Piece(ISNT_OFFERED)
    ensures Piece(BUT_WRITTEN) && Piece(NO_SERVER) && Piece(SIMILAR) && Piece(NONE_SIMILAR)
  {
    hide Piece;
    PhrasesHoldNoDot();
    SentencesHoldNoDot();
    NoDotPiece(UNREADABLE);
    NoDotPiece(IS_OFFERED);
    NoDotPiece(ISNT_OFFERED);
    NoDotPiece(BUT_WRITTEN);
    NoDotPiece(NO_SERVER);
    NoDotPiece(SIMILAR);
    NoDotPiece(NONE_SIMILAR);
  }

  lemma ThreePieces(a: string, b: string, c: string)
    requires Piece(a) && (b == "" || Piece(b)) && (c == "" || Piece(c))
    ensures Piece(a + b + c)
  {
    hide Piece;
    if b != "" {
      PiecesJoin(a, b);
    }
    assert a + "" == a;
    if c != "" {
      PiecesJoin(a + b, c);
    }
    assert (a + b) + "" == a + b;
  }

  /** The sentence for a name: its name in backticks, then one of the two phrases a reader looks for, then the rest. */
  lemma NameSentence(name: string, tools: Tools) returns (phrase: string, more: string)
    requires IsName(name) && tools.Fit()
    ensures phrase == IS_OFFERED || phrase == ISNT_OFFERED
    ensures Sentence(Some(name), tools) == "`" + name + "`" + (phrase + more)
    ensures Piece(Sentence(Some(name), tools))
  {
    hide Piece;
    hide NoBreak;
    hide MissingServer;
    hide Quoted;
    PhrasePieces();
    NamePiece(name);
    QuotedPiece(name);
    var quoted := "`" + name + "`";
    if name in tools.offered {
      phrase, more := IS_OFFERED, BUT_WRITTEN;
      ThreePieces(quoted, phrase, more);
    } else {
      var missing := MissingServer(name, tools);
      var server := if missing.Some? then NO_SERVER + ("`" + missing.value + "`" + IS_OFFERED) else "";
      var suggested :=
        if tools.similar(name) != [] then SIMILAR + Quoted(tools.similar(name))
        else if missing.Some? then ""
        else NONE_SIMILAR;
      if missing.Some? {
        MissingHasNoSpace(name, tools);
        NoSpaceNoBreak(missing.value);
        QuotedPiece(missing.value);
        PiecesJoin("`" + missing.value + "`", IS_OFFERED);
        PiecesJoin(NO_SERVER, "`" + missing.value + "`" + IS_OFFERED);
      }
      if tools.similar(name) != [] {
        QuotedNamesPiece(tools.similar(name));
        PiecesJoin(SIMILAR, Quoted(tools.similar(name)));
      }
      phrase, more := ISNT_OFFERED, server + suggested;
      PiecesJoin(quoted, phrase);
      ThreePieces(quoted + phrase, server, suggested);
      UnofferedIs(name, tools, server, suggested);
    }
  }

  lemma MissingHasNoSpace(name: string, tools: Tools)
    requires ' ' !in name
    ensures match MissingServer(name, tools) case Some(server) => ' ' !in server case None => true
  {
    ServerHasNoSpace(name);
  }

  lemma UnofferedIs(name: string, tools: Tools, server: string, suggested: string)
    requires var missing := MissingServer(name, tools);
             server == if missing.Some? then NO_SERVER + ("`" + missing.value + "`" + IS_OFFERED) else ""
    requires suggested == if tools.similar(name) != [] then SIMILAR + Quoted(tools.similar(name))
                          else if MissingServer(name, tools).Some? then "" else NONE_SIMILAR
    ensures UnofferedSentence(name, tools) == "`" + name + "`" + (ISNT_OFFERED + (server + suggested))
    ensures UnofferedSentence(name, tools) == "`" + name + "`" + ISNT_OFFERED + server + suggested
  {
    hide MissingServer;
    hide Quoted;
    var quoted := "`" + name + "`";
    Assoc(quoted + ISNT_OFFERED, server, suggested);
    Assoc(quoted, ISNT_OFFERED, server + suggested);
  }

  // ----- Reading the sentences back -----

  /** What a reader takes for a tool's name. */
  predicate IsCallName(name: string) {
    && 1 <= |name| <= 128
    && forall c | c in name :: 'a' <= c <= 'z' || 'A' <= c <= 'Z' || '0' <= c <= '9' || c in "_.:-"
  }

  lemma CallNameIs(name: string)
    ensures IsCallName(name) <==> IsName(name)
  {
    if IsCallName(name) {
      forall i | 0 <= i < |name| ensures IsNameChar(name[i]) {
        assert name[i] in name;
      }
    }
  }

  predicate ReadableCall(call: Option<string>) {
    call.None? || IsCallName(call.value)
  }

  lemma NameReadsBack(name: string, phrase: string, more: string)
    requires IsName(name) && (phrase == IS_OFFERED || phrase == ISNT_OFFERED)
    requires "`" + name + "`" + (phrase + more) != UNREADABLE
    ensures ParseSentence("`" + name + "`" + (phrase + more)) == Some(Some(name))
  {
    hide SplitOnce;
    hide StripPrefix;
    hide IsName;
    var tail := phrase + more;
    var rest := name + "`" + tail;
    Assoc("`" + name, "`", tail);
    Assoc("`", name, "`" + tail);
    Assoc(name, "`", tail);
    StripPrefixOf("`", rest);
    NamePiece(name);
    SplitOnceOf(name, "`", tail);
    assert tail[..|phrase|] == phrase;
  }

  lemma SentenceReadsBack(call: Option<string>, tools: Tools)
    requires ReadableCall(call) && tools.Fit()
    ensures ParseSentence(Sentence(call, tools)) == Some(call)
    ensures NoBreak(Sentence(call, tools))
  {
    hide Piece;
    match call
    case None => NoUnreadableBreak();
    case Some(name) =>
      CallNameIs(name);
      var phrase, more := NameSentence(name, tools);
      assert (("`" + name + "`") + (phrase + more))[0] == '`' && UNREADABLE[0] == 'O';
      NameReadsBack(name, phrase, more);
      PieceHasNoBreak(Sentence(call, tools));
  }

  lemma PieceHasNoBreak(s: string)
    requires Piece(s)
    ensures NoBreak(s)
  {
  }

  lemma NoUnreadableBreak()
    ensures NoBreak(UNREADABLE)
  {
    SentencesHoldNoDot();
    NoSpaceNoBreak(UNREADABLE);
  }

  /** The sentences with a full stop and a space between them. */
  function JoinedSentences(calls: seq<Option<string>>, tools: Tools): string
    requires calls != []
  {
    if |calls| == 1 then Sentence(calls[0], tools)
    else Sentence(calls[0], tools) + ". " + JoinedSentences(calls[1..], tools)
  }

  lemma {:induction false} SentencesFromFirst(calls: seq<Option<string>>, tools: Tools)
    requires calls != []
    ensures Sentences(calls, tools) == " " + Sentence(calls[0], tools) + "." + Sentences(calls[1..], tools)
  {
    hide Sentence;
    if |calls| == 1 {
      assert calls[..0] == [] && calls[1..] == [];
    } else {
      var before, last := calls[..|calls| - 1], calls[|calls| - 1];
      SentencesFromFirst(before, tools);
      assert before[1..] == calls[1..][..|calls| - 2];
      var first, middle := " " + Sentence(calls[0], tools) + ".", Sentences(before[1..], tools);
      Assoc(first, middle, " ");
      Assoc(first, middle + " ", Sentence(last, tools));
      Assoc(first, middle + " " + Sentence(last, tools), ".");
    }
  }

  lemma {:induction false} SentencesAreJoined(calls: seq<Option<string>>, tools: Tools)
    requires calls != []
    ensures Sentences(calls, tools) == " " + JoinedSentences(calls, tools) + "."
  {
    hide Sentence;
    SentencesFromFirst(calls, tools);
    if |calls| == 1 {
      assert calls[1..] == [];
      NoSentences(tools);
    } else {
      SentencesAreJoined(calls[1..], tools);
      var first, rest := Sentence(calls[0], tools), JoinedSentences(calls[1..], tools);
      assert " " + first + "." + (" " + rest + ".") == " " + (first + ". " + rest) + ".";
    }
  }

  /** A break after unbroken text is the first one. */
  lemma SplitsAtBreak(first: string, rest: string)
    requires NoBreak(first)
    ensures SplitAll(first + ". " + rest, ". ") == [first] + SplitAll(rest, ". ")
  {
    var s := first + ". " + rest;
    BreakChars(s, |first|);
    forall k | 0 <= k < |first| ensures !OccursAt(s, ". ", k) {
      BreakChars(s, k);
      BreakChars(first, k);
    }
    assert s[..|first|] == first && s[|first| + 2..] == rest;
  }

  lemma UnbrokenIsWhole(s: string)
    requires NoBreak(s)
    ensures SplitAll(s, ". ") == [s]
  {
  }

  lemma {:induction false} JoinedReadsBack(calls: seq<Option<string>>, tools: Tools)
    requires calls != [] && tools.Fit() && forall c | c in calls :: ReadableCall(c)
    ensures ParseSentences(SplitAll(JoinedSentences(calls, tools), ". ")) == Some(calls)
  {
    hide SplitAll;
    hide Sentence;
    hide ParseSentence;
    hide NoBreak;
    var first := Sentence(calls[0], tools);
    SentenceReadsBack(calls[0], tools);
    if |calls| == 1 {
      UnbrokenIsWhole(first);
      assert ParseSentences([first][1..]) == Some([]);
      assert [calls[0]] + [] == calls;
    } else {
      var rest := JoinedSentences(calls[1..], tools);
      JoinedReadsBack(calls[1..], tools);
      SplitsAtBreak(first, rest);
      assert ([first] + SplitAll(rest, ". "))[1..] == SplitAll(rest, ". ");
      assert [calls[0]] + calls[1..] == calls;
    }
  }

  lemma BodyIs(joined: string)
    ensures StripPrefix(" " + joined + ".", " ") == Some(joined + ".") && StripSuffix(joined + ".", ".") == Some(joined)
  {
    assert " " + joined + "." == " " + (joined + ".");
    StripPrefixOf(" ", joined + ".");
    StripSuffixOf(joined, ".");
  }

  /** A notice's calls are read back, for any readable calls and offered names; one with no call is no notice. */
  lemma TextCallsRoundTrip(calls: seq<Option<string>>, tools: Tools)
    requires tools.Fit() && forall c | c in calls :: ReadableCall(c)
    ensures ParseTextCallNotice(TextCallNotice(calls, tools)) == if calls == [] then None else Some(calls)
  {
    hide AfterStart;
    hide StripPrefix;
    hide StripSuffix;
    hide Sentences;
    hide SplitAll;
    hide ParseSentences;
    var body := Sentences(calls, tools);
    Assoc(MARK, TEXT_CALL_START, body);
    Assoc(MARK, TEXT_CALL_START + body, TEXT_CALL_END);
    Assoc(TEXT_CALL_START, body, TEXT_CALL_END);
    AfterStartOf(TEXT_CALL_START, body + TEXT_CALL_END);
    StripSuffixOf(body, TEXT_CALL_END);
    if calls == [] {
      NoSentences(tools);
      NothingToStrip();
    } else {
      SentencesAreJoined(calls, tools);
      BodyIs(JoinedSentences(calls, tools));
      JoinedReadsBack(calls, tools);
    }
  }

  lemma NothingToStrip()
    ensures StripPrefix("", " ").None?
  {
  }

  // ----- No text is two kinds of notice -----

  datatype Kind = FailureKind | CutOffKind | RefusalKind | TextCallKind {
    function Start(): string {
      match this
      case FailureKind => FAILURE_START
      case CutOffKind => CUT_OFF_START
      case RefusalKind => REFUSAL_START
      case TextCallKind => TEXT_CALL_START
    }
  }

  /** The reader for a kind takes the text. */
  predicate ReadsAs(text: string, kind: Kind) {
    match kind
    case FailureKind => ParseFailureNotice(text).Some?
    case CutOffKind => ParseCutOffNotice(text).Some?
    case RefusalKind => ParseRefusalNotice(text).Some?
    case TextCallKind => ParseTextCallNotice(text).Some?
  }

  lemma ReadsByStart(text: string, kind: Kind)
    requires ReadsAs(text, kind)
    ensures MARK <= text && kind.Start() <= text[1..]
  {
    hide ParseSentences;
    hide ParseCutCall;
    hide ParseLimit;
    hide SplitOnce;
    assert AfterStart(text, kind.Start()).Some?;
    assert |MARK| == 1;
  }

  lemma StartsDiffer(a: Kind, b: Kind, words: string)
    requires a.Start() <= words && b.Start() <= words
    ensures a == b
  {
    assert FAILURE_START[0] == "The last turn failed"[0] == 'T';
    assert CUT_OFF_START[0] == 'Y' && CUT_OFF_START[17] == 'a' && CUT_OFF_START[20] == 'c' by {
      Head("Your last reply was cut off", CUT_OFF_START[27..]);
    }
    assert REFUSAL_START[0] == 'Y' && REFUSAL_START[17] == 'a' && REFUSAL_START[20] == 's' by {
      Head("Your last reply was stopped", REFUSAL_START[27..]);
    }
    assert TEXT_CALL_START[0] == 'Y' && TEXT_CALL_START[17] == 'r' by {
      Head("Your last reply wrote", TEXT_CALL_START[21..]);
    }
    assert words[0] == a.Start()[0] == b.Start()[0];
    assert words[17] == a.Start()[17] == b.Start()[17];
    assert words[20] == a.Start()[20] == b.Start()[20];
  }

  lemma Head(front: string, rest: string)
    ensures forall i | 0 <= i < |front| :: (front + rest)[i] == front[i]
  {
  }

  /** No text is read as two kinds of notice, so no notice is read as another kind. */
  lemma KindsAreDistinct(text: string, a: Kind, b: Kind)
    requires ReadsAs(text, a) && ReadsAs(text, b)
    ensures a == b
  {
    ReadsByStart(text, a);
    ReadsByStart(text, b);
    StartsDiffer(a, b, text[1..]);
  }

  lemma {:induction false} UsersTextHasNoMark(text: string)
    ensures !(MARK <= UsersText(text))
    decreases |text|
  {
    if MARK <= text {
      UsersTextHasNoMark(text[1..]);
    }
  }

  /** Nothing a user sends is read as a notice, and nothing but marks at its start is dropped from it. */
  lemma UsersTextIsNoNotice(text: string, kind: Kind)
    ensures !ReadsAs(UsersText(text), kind)
    ensures !(MARK <= text) ==> UsersText(text) == text
    ensures UsersText(MarkNotice(text)) == UsersText(text)
  {
    UsersTextHasNoMark(text);
    if ReadsAs(UsersText(text), kind) {
      ReadsByStart(UsersText(text), kind);
      assert false;
    }
    assert (MARK + text)[1..] == text;
  }
}

/**
 What a notice's sentence tells of a call (`unoffered_sentence` in `src/text_calls.rs`), and what one is read from.
 */
module NoticeSentences {
  import opened Wrappers
  import opened Strings
  import opened Notices

  /** The MCP server a tool's name is on: what is between `mcp__` and the first `__` after it. */
  predicate IsOn(name: string, server: string) {
    "mcp__" + server + "__" <= name && !Contains(server + "_", "__")
  }

  /** No offered tool is on the server `name` is on, case aside, under that server's own name or its safe form. */
  ghost predicate IsMissing(name: string, tools: Tools, server: string) {
    && IsOn(name, server)
    && (forall o, s | o in tools.offered && IsOn(o, s) ::
          !EqIgnoreCase(s, server) && forall u | IsOn(tools.safe(name), u) :: !EqIgnoreCase(s, u))
  }

  lemma FirstBreak(rest: string, server: string)
    requires server + "__" <= rest
    ensures FindFrom(rest, "__", 0) == Some(|server|) <==> !Contains(server + "_", "__")
  {
    hide OccursAt;
    var front := server + "_";
    forall k: nat ensures OccursAt(front, "__", k) <==> k < |server| && OccursAt(rest, "__", k) {
      InFront(rest, server, k);
    }
    AtBreak(rest, server);
  }

  lemma InFront(rest: string, server: string, k: nat)
    requires server + "__" <= rest
    ensures OccursAt(server + "_", "__", k) <==> k < |server| && OccursAt(rest, "__", k)
  {
    var front := server + "_";
    if k < |server| {
      assert front == rest[..|server| + 1];
      assert front[k..k + 2] == rest[k..k + 2];
    }
  }

  lemma AtBreak(rest: string, server: string)
    requires server + "__" <= rest
    ensures OccursAt(rest, "__", |server|)
  {
    assert rest[..|server| + 2][|server|..] == "__";
    assert rest[|server|..|server| + 2] == "__";
  }

  lemma ServerIs(name: string, server: string)
    ensures ServerOf(name) == Some(server) <==> IsOn(name, server)
  {
    hide FindFrom;
    hide OccursAt;
    if ServerOf(name) == Some(server) {
      var rest := StripPrefix(name, "mcp__").value;
      var at := FindFrom(rest, "__", 0).value;
      CutAt(rest, "__", at);
      FirstBreak(rest, server);
      assert name[..|"mcp__" + server + "__"|] == "mcp__" + server + "__";
    }
    if IsOn(name, server) {
      var rest := name[5..];
      assert name == "mcp__" + rest;
      assert rest[..|server| + 2] == server + "__";
      FirstBreak(rest, server);
      StripPrefixOf("mcp__", rest);
      assert rest[..|server|] == rest[..|server| + 2][..|server|] == server;
      assert ParseToolName(name) == SplitOnce(rest, "__");
    }
  }

  lemma CutAt(rest: string, sep: string, at: nat)
    requires OccursAt(rest, sep, at)
    ensures rest[..at] + sep <= rest && at + |sep| <= |rest| && rest[..at + |sep|] == rest[..at] + sep
  {
    assert rest[..at + |sep|] == rest[..at] + rest[at..at + |sep|];
  }

  lemma MissingIs(name: string, tools: Tools, server: string)
    ensures MissingServer(name, tools) == Some(server) <==> IsMissing(name, tools, server)
  {
    hide IsOn;
    hide ServerOf;
    hide EqIgnoreCase;
    forall n, s ensures ServerOf(n) == Some(s) <==> IsOn(n, s) {
      ServerIs(n, s);
    }
    if MissingServer(name, tools) == Some(server) {
      forall o, s | o in tools.offered && IsOn(o, s)
        ensures !EqIgnoreCase(s, server) && forall u | IsOn(tools.safe(name), u) :: !EqIgnoreCase(s, u)
      {
        assert ServerOf(o) == Some(s);
      }
    }
    if IsMissing(name, tools, server) {
      forall o | o in tools.offered && ServerOf(o).Some?
        ensures !EqIgnoreCase(ServerOf(o).value, server)
        ensures ServerOf(tools.safe(name)).Some? ==>
                  !EqIgnoreCase(ServerOf(o).value, ServerOf(tools.safe(name)).value)
      {
        assert IsOn(o, ServerOf(o).value);
        assert ServerOf(tools.safe(name)).Some? ==> IsOn(tools.safe(name), ServerOf(tools.safe(name)).value);
      }
    }
  }

  /**
   The sentence for a name says whether it is offered and, if it isn't, that its server is missing exactly when it
   is, and then the similar offered tools, or that there is none when nothing else was said.
   */
  lemma SentenceTells(name: string, tools: Tools)
    ensures name in tools.offered ==> Sentence(Some(name), tools) == "`" + name + "`" + IS_OFFERED + BUT_WRITTEN
    ensures forall server | name !in tools.offered && IsMissing(name, tools, server) ::
              Sentence(Some(name), tools)
              == "`" + name + "`" + ISNT_OFFERED + (NO_SERVER + ("`" + server + "`" + IS_OFFERED))
                  + if tools.similar(name) == [] then "" else SIMILAR + Quoted(tools.similar(name))
    ensures name !in tools.offered && (forall server :: !IsMissing(name, tools, server)) ==>
              Sentence(Some(name), tools)
              == "`" + name + "`" + ISNT_OFFERED
                  + if tools.similar(name) == [] then NONE_SIMILAR else SIMILAR + Quoted(tools.similar(name))
  {
    hide MissingServer;
    hide IsMissing;
    hide Quoted;
    forall server ensures MissingServer(name, tools) == Some(server) <==> IsMissing(name, tools, server) {
      MissingIs(name, tools, server);
    }
    SentenceIs(Some(name), tools);
    if name !in tools.offered {
      UnofferedTells(name, tools);
    }
  }

  lemma UnofferedTells(name: string, tools: Tools)
    ensures var missing := MissingServer(name, tools);
            UnofferedSentence(name, tools)
            == "`" + name + "`" + ISNT_OFFERED
                + (if missing.Some? then NO_SERVER + ("`" + missing.value + "`" + IS_OFFERED) else "")
                + (if tools.similar(name) != [] then SIMILAR + Quoted(tools.similar(name))
                   else if missing.Some? then "" else NONE_SIMILAR)
    ensures MissingServer(name, tools).None? ==>
              UnofferedSentence(name, tools)
              == "`" + name + "`" + ISNT_OFFERED
                  + (if tools.similar(name) == [] then NONE_SIMILAR else SIMILAR + Quoted(tools.similar(name)))
  {
    hide MissingServer;
    hide Quoted;
    var front := "`" + name + "`" + ISNT_OFFERED;
    assert front + "" == front;
  }

  // ----- Only names are read -----

  predicate AreNames(calls: seq<Option<string>>) {
    forall c | c in calls && c.Some? :: IsCallName(c.value)
  }

  lemma {:induction false} SentencesGiveNames(sentences: seq<string>)
    ensures match ParseSentences(sentences)
            case Some(calls) => |calls| == |sentences| && AreNames(calls)
            case None => true
  {
    hide ParseSentence;
    hide IsCallName;
    if sentences != [] {
      SentencesGiveNames(sentences[1..]);
      OneGivesName(sentences[0]);
    }
  }

  lemma OneGivesName(sentence: string)
    ensures match ParseSentence(sentence)
            case Some(Some(name)) => IsCallName(name)
            case _ => true
  {
    hide IsName;
    hide IsCallName;
    match ParseSentence(sentence)
    case Some(Some(name)) => CallNameIs(name);
    case _ =>
  }

  /** Whatever text a notice's calls are read from, each has a tool's name or none. */
  lemma OnlyNamesAreRead(text: string)
    ensures match ParseTextCallNotice(text)
            case Some(calls) => calls != [] && AreNames(calls)
            case None => true
  {
    hide ParseSentences;
    hide AreNames;
    hide AfterStart;
    hide SplitAll;
    hide StripPrefix;
    hide StripSuffix;
    if ParseTextCallNotice(text).Some? {
      var body := StripSuffix(AfterStart(text, TEXT_CALL_START).value, TEXT_CALL_END).value;
      var sentences := StripSuffix(StripPrefix(body, " ").value, ".").value;
      SentencesGiveNames(SplitAll(sentences, ". "));
      NeverNone(sentences);
    }
  }

  lemma NeverNone(s: string)
    ensures SplitAll(s, ". ") != []
  {
  }
}

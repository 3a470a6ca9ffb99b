# Verified models of smelt

smelt is a web app whose users talk to language models that work in sandbox pods. This project models the parts
of it whose correctness rests on more than one function, and proves what each is for:

- **A streamed reply** (`Blocks.dfy`): content blocks as providers stream them. The reply depends only on each
  index's own events, so it is the same whether a provider stops each block before the next or all of them at the
  end, and nothing streamed is lost but at most one cut-off tool call.
- **The send loop** (`SendLoop.dfy`): retries and the forms a request's replayed thinking is sent in, with the
  memory all calls to a provider share.
- **Markdown** (`Markdown*.dfy`, `Autolink*.dfy`): the stack machine that builds a reply's tree refines a recursive
  translation of the parser's tree. The condition under which its stack follows its input is given exactly; the tree
  and its links stay within the depth caps and lose no words, and so does the link pass over any finder's spans.
- **Highlighting** (`Highlight.dfy`): the capped push/pop machine builds the uncapped tree with the spans past the
  cap spliced into their parents.
- **Preview addresses** (`Preview*.dfy`): exactly which templates are accepted and which hosts name a preview; whatever
  template it is, the parser gives back what the printer wrote.
- **Text scanning** (`AgentRefs.dfy`, `Utf8.dfy`, `Masking*.dfy`, `EditDistance.dfy`, `Notice*.dfy`): the
  conversation-reference splitter, the masking of leaked reasoning and code in UTF-8 buffers, the one-row edit
  distance, and the notices with their readers.
- **Credential installs** (`Credentials.dfy`, `CredentialRuns.dfy`), **OAuth grants** (`OAuthGrants.dfy`) and **OAuth
  callbacks** (`OAuthCallbacks.dfy`): protocols whose steps interleave, with safety proved over every run, and that an
  install or a callback that may go on can.
- **WebSocket framing** (`WebSocket.dfy`): the browser check's client against sections 5.2 and 5.3 of RFC 6455.

`Wrappers.dfy`, `Sequences.dfy` and `Strings.dfy` hold the result types, sequence facts and string operations the rest
is written with.

Code that changes state in place is a class whose methods are proved against functions on values; the laws are
lemmas about those functions, or about runs of steps. What smelt takes from libraries is a parameter: JSON parsing,
the `url` crate's parser, linkify's spans, which characters past ASCII are alphanumeric, the offered tools like a
name, and which text is white space or a whole tag call. Parser events, syntect's ops, provider replies and received
chunks are any sequence. Clocks are numbers that never fall.

Four things the proofs found:

- The markdown builder's end tags do not always pop the containers their start tags pushed. An image opened inside
  `MAX_DEPTH` spans looks like a block to what is flattened inside it, so a span there with anything in it opens an
  implicit `Plain`, which the span's end tag then pops. `EndsPopWhatTheirStartsOpened` shows this is the only way it
  fails, and `DeepImageBreaksTheStack` gives such a reply.
- A cut-off or refusal notice that names a call with an empty name reads as no notice, and a text-call notice with no
  call does too; every other notice reads back exactly.
- A grant is told from another by its value alone, so one that is removed and saved again, equal in every part, is
  refreshed by a store that read it before. `RemovedIsRefreshedExactlyWhenSavedAgain` says exactly when.
- Masking leaked reasoning a second time can mask more: once a first line-start `</think>` is masked, the next one
  reads as closing what the template opened. `MaskingTwiceIsOnce` says exactly when the second pass changes nothing,
  and `MaskingTwiceMasksMore` gives such a text.

## Model

| member | source | states |
|---|---|---|
| `StreamBlocks.InterleavingIsIrrelevant` | src/anthropic/stream.rs:184-292 | two streams whose events agree index by index give the same content, the same cut-off call and the same error, however the indexes interleave |
| `StreamBlocks.StopOrderIsIrrelevant` | src/anthropic/stream.rs:172-292 | stopping each block before the next starts and stopping all of them at the end give the same reply |
| `StreamBlocks.RunProjects` | src/anthropic/stream.rs:184-261 | what a stream leaves at an index is what that index's own events alone leave there |
| `StreamBlocks.StepIsLocal` | src/anthropic/stream.rs:184-261 | an event that names an index changes no other index's blocks |
| `StreamBlocks.DeltasLandOnce` | src/anthropic/stream.rs:226-254 | each text or thinking delta lands in exactly one slot, at the end of its part, and a signature in at most one; every other slot and all finished blocks stay as they are |
| `StreamBlocks.PartIsKept` | src/anthropic/stream.rs:226-254 | over any stream, indexed or not, the text at an index is the text that landed there, in order; so are its thinking and its signatures |
| `StreamBlocks.LandedIsSent` | src/anthropic/stream.rs:184-247 | with an index on every event, the text and the thinking that land at an index are those sent to it |
| `StreamBlocks.ReplyIsWhatWasSent` | src/anthropic/stream.rs:105-292 | any stream's reply is every block sent, index by index in order, but a last tool call it stopped early in; a call has the id of the start that opened it, the name last sent and the parse of exactly its own input, nothing being `{}`; it fails if and only if a kept call's input doesn't parse, with the first such call's error |
| `StreamBlocks.SentIsProjected` | src/anthropic/stream.rs:184-261 | with an index on every event, the blocks sent at an index are told by the events that name it, whatever else the stream holds |
| `StreamBlocks.CallsKeepInput` | src/anthropic/stream.rs:196-261 | over any stream, the tool calls sent at an index have among them all the input that landed there, in order |
| `StreamBlocks.ResentStartKeepsInput` | src/anthropic/stream.rs:196-205 | a tool call started again while open keeps the input streamed so far |
| `StreamBlocks.ReplyLosesAtMostACall` | src/anthropic/stream.rs:262-292 | the finished reply holds every block in index order, but for a last tool call when the reply stopped early; its text, thinking and signatures are all that landed |
| `StreamBlocks.ReplyKeepsInput` | src/anthropic/stream.rs:196-292 | the tool calls of a whole stream, the one an early stop drops included, have among them all the tool input that landed |
| `StreamBlocks.StopMoves` | src/anthropic/stream.rs:216-224 | finishing a block takes a fresh key after every block finished at its index, and moves only that block |
| `StreamBlocks.KeyOrderIsIndexOrder` | src/anthropic/stream.rs:279-290 | the values of the finished map in key order are the blocks index by index |
| `StreamBlocks.Blocks.Start` | src/anthropic/stream.rs:191-212 | opening a block on the two maps is starting one at its index, or after every index seen |
| `StreamBlocks.Blocks.Stop` | src/anthropic/stream.rs:216-224 | stopping a block on the two maps stops its slot; a stop for a block not open changes nothing |
| `StreamBlocks.Blocks.Text` | src/anthropic/stream.rs:226-232 | a text delta on the two maps extends the open text block it is for, or opens one |
| `StreamBlocks.Blocks.Thinking` | src/anthropic/stream.rs:234-247 | a thinking delta, likewise |
| `StreamBlocks.Blocks.Signature` | src/anthropic/stream.rs:250-254 | a signature extends an open thinking block, and is dropped otherwise |
| `StreamBlocks.Blocks.ToolInput` | src/anthropic/stream.rs:257-261 | tool input extends an open tool call, and is dropped otherwise |
| `StreamBlocks.Blocks.Finish` | src/anthropic/stream.rs:267-292 | finishing assembles the reply that the stream means, from every block in index order |
| `SendLoop.EveryRunKeepsPromises` | src/anthropic/stream.rs:657-722 | in every interleaving of calls: at most five requests each, two of them transient retries shared by the forms, every form entered once, drop-block only with thinking on, a stripped request only after the as-built one was refused as a mismatch, and the memory only ever holds drop-block |
| `SendLoop.EveryCallFollows` | src/anthropic/stream.rs:655-722 | exactly what a call sends and how it ends: the first form by the memory; the same again while the provider is unavailable, twice in all; as built refused as bound elsewhere, drop-block with thinking and stripped without or after; drop-block refused so or for its controls, as built and then stripped; it gives up if and only if none of these is due and the last reply is no success |
| `SendLoop.CallsRunAsAlone` | src/anthropic/stream.rs:655-722 | in every interleaving a call runs as it would alone on its own replies, from the memory it began with |
| `SendLoop.RecoveryReaches` | src/anthropic/stream.rs:401-418 | a request bound elsewhere recovers: without its blocks if there is thinking, stripped if not or if that is refused too |
| `SendLoop.MemoryIsExact` | src/anthropic/stream.rs:665-709 | the memory learns drop-block on a success sent so, forgets it when it is refused for another form, and is otherwise as it was |
| `SendLoop.ReplyKeeps` | src/anthropic/stream.rs:659-722 | each reply keeps the loop's account of forms, retries and reasons |
| `SendLoop.NextIsFresh` | src/anthropic/stream.rs:401-418 | after a refusal the next form was not tried before, and the refusal gives the reason for it |
| `SendLoop.MemoryIsEarned` | src/anthropic/stream.rs:665-689 | a provider is remembered only on a success sent as drop-block |
| `SendLoop.Recovery.StreamMessage` | src/anthropic/stream.rs:657-722 | the loop over a provider's replies sends the forms, ends and remembers as the protocol's run does |
| `MarkdownBlocks.BuilderTranslates` | src/markdown.rs:350-645 | for every safe reply the events leave the root alone, with at most a trailing `Plain`, both depths at zero, and finishing gives the recursive translation of the reply's tree |
| `MarkdownFrames.EndsPopWhatTheirStartsOpened` | src/markdown.rs:381-609 | every end tag pops the very container its own start tag pushed, which stood in its place since, and leaves the containers that were there before that start tag, if and only if no image inside `MAX_DEPTH` spans holds a span with anything in it |
| `MarkdownHypothesis.BuilderTranslatesUnderHypothesis` | src/markdown.rs:381-645 | when no span opens past the cap inside an image, every end tag pops the container its own start tag pushed, and finishing gives the translation |
| `MarkdownExact.EndsPopTheirOwnExactlyWhenSafe` | src/markdown.rs:477-609 | no end tag pops an implicit `Plain` or the root if and only if no image inside `MAX_DEPTH` spans holds a span with anything in it |
| `MarkdownExact.DeepImageBreaksTheStack` | src/markdown.rs:558-609 | a reply for which an end tag pops an implicit `Plain` and a container stays open |
| `MarkdownExact.RunCounts` | src/markdown.rs:350-645 | no event sequence leaves fewer containers than its tags say, and it leaves just as many exactly when no end tag pops an implicit `Plain` or the root |
| `MarkdownProof.NodesInHolder` | src/markdown.rs:549-609 | content within a span, paragraph or cell leaves its translation there and its task marks below, and no other container changed |
| `MarkdownProof.NodesInImage` | src/markdown.rs:558-564 | content within an image leaves only its words, in the image's alt text |
| `MarkdownProof.RefusedContent` | src/markdown.rs:538-542 | a refused link's content pushed into its parent is the content translated there |
| `MarkdownProof.TranslationKeepsWords` | src/markdown.rs:326-348 | translated inlines have the words of their nodes, in order |
| `MarkdownBlocks.FlatQuote` | src/markdown.rs:385-388 | a quote past the cap leaves its blocks in its parent, in its place |
| `MarkdownBlocks.FlatList` | src/markdown.rs:400-411 | a list past the cap leaves its items' blocks in its parent, and their marks on the nearest kept item |
| `MarkdownBlocks.KeptItems` | src/markdown.rs:498-506 | a kept list's items each keep their own blocks and their last task mark |
| `MarkdownLimits.TranslationIsSound` | src/markdown.rs:381-457 | quotes and lists nest at most `MAX_DEPTH` deep, spans and links too, and every link and image goes where smelt follows |
| `MarkdownLimits.TranslationLosesNoWords` | src/markdown.rs:477-589 | a reply's translation has all the reply's words in order, flattened and refused parts included |
| `Markdown.RunKeepsRooted` | src/markdown.rs:350-645 | every event sequence, balanced or not, leaves one root, at the bottom |
| `Markdown.FinishRoundDecreases` | src/markdown.rs:632-639 | each round of finishing has fewer containers, or as many and a shorter stack, so finishing ends from every reachable stack |
| `Markdown.PopCounts` | src/markdown.rs:486-547 | an end tag takes one container at most, never the root, though it may push an implicit `Plain` |
| `MarkdownBuilder.Builder.Event` | src/markdown.rs:351-379 | the builder's methods on its stack and depths do what the steps say |
| `MarkdownBuilder.Builder.Start` | src/markdown.rs:381-475 | a start tag on the builder's fields |
| `MarkdownBuilder.Builder.End` | src/markdown.rs:477-547 | an end tag on the builder's fields |
| `MarkdownBuilder.Builder.Finish` | src/markdown.rs:632-644 | the finishing loop ends and returns the root's blocks |
| `MarkdownBuilder.Build` | src/markdown.rs:79-93 | feeding any event sequence to a fresh builder and finishing gives that run's finished blocks |
| `MarkdownLinks.LinkGoes` | src/markdown.rs:231-250 | where a link goes: a written one by its scheme alone, one in angle brackets if its address shows in order and is plain after a `mailto:`, an email address if it is plain |
| `MarkdownLinks.LinksAreTheReplys` | src/markdown.rs:424-457 | a reply shows exactly the links and images of its parsed tree that smelt follows, in order, each with its own address and words, links within 16 spans |
| `MarkdownLinks.BuilderKeepsLinks` | src/markdown.rs:381-645 | so does what the builder finishes with, for every reply its stack follows |
| `AutolinkTargets.LinkingAdds` | src/markdown.rs:157-222 | linking a list of inlines adds exactly the links of its text: found web addresses and plain email addresses to themselves, `www.` gaps over `https`, and the references in what is left; nothing in links, images, code or past the cap |
| `AutolinkTargets.BlocksAdd` | src/markdown.rs:132-173 | the same of a whole tree's blocks, in order |
| `Autolink.LinkingKeepsOutline` | src/markdown.rs:132-173 | for any finders that cut text into spans, linking changes no block but within its lists of inlines, and the words of none of those |
| `Autolink.LinkingKeepsWords` | src/markdown.rs:157-204 | linking a list of inlines keeps its plain text |
| `Autolink.LinkedBlocksAreKept` | src/markdown.rs:132-173 | linking keeps the depth caps, adds only links smelt follows, and puts no link and no conversation reference in a link |
| `Autolink.ParsedReply` | src/markdown.rs:79-94 | a whole reply, translated and linked, keeps its outline and the caps |
| `Autolink.ShownReply` | src/markdown.rs:79-94 | from any events under the hypothesis to the tree that shows: all the reply's words in order, the same outline once linked, within the caps, links and images only where smelt follows |
| `Autolink.SplitLinksOnto` | src/markdown.rs:176-204 | the loop over a text's spans pushes each as a link or as text |
| `Autolink.AutolinkInlines` | src/markdown.rs:157-173 | the loop over inlines links text within the cap, through emphasis, and nothing else |
| `Autolink.AutolinkBlocks` | src/markdown.rs:132-152 | the loop over blocks links every list of inlines in them |
| `Highlight.CappedTreeIsSpliced` | src/highlight.rs:50-78 | for every op sequence the capped tree is the uncapped one with spans past 64 spliced into their parents, the same where it is no deeper; at most 64 deep, with no empty span, empty text or two adjacent texts |
| `Highlight.CappedSimulates` | src/highlight.rs:50-77 | after every op the open spans and the flattened count together are the uncapped depth, and the open levels hold the uncapped ones spliced |
| `Highlight.ShallowIsUntouched` | src/highlight.rs:64-71 | a tree within the cap is not changed |
| `Highlight.TreeReadsAsTheCode` | src/highlight.rs:55-78 | whenever a tree comes out, its text is the code's lines, in order |
| `Highlight.SpliceKeepsCanonical` | src/highlight.rs:97-126 | splicing keeps a tree free of empty spans, empty texts and adjacent texts |
| `Highlight.Highlighter.PushText` | src/highlight.rs:97-109 | text written on the open spans joins text already last |
| `Highlight.Highlighter.CloseSpan` | src/highlight.rs:113-126 | a closed span goes into its parent unless empty; the root stays |
| `Highlight.Highlighter.HighlightLine` | src/highlight.rs:55-73 | one line's loop feeds the machine the line's ops and the text between them |
| `Highlight.HighlightCode` | src/highlight.rs:50-78 | highlighting gives the capped tree of the lines' ops, or nothing when a grammar fails, or a slice out of bounds or within a character |
| `Preview.AddressesRoundTrip` | src/preview.rs:146-240 | for every accepted template, conversation above 0, port above 0, and localhost or container in the pod's range, matching the printed authority gives back that triple |
| `Preview.AddressesHaveTheScheme` | src/preview.rs:146-209 | a page's address is the scheme its template was written with, `http` or `https`, and the authority |
| `Preview.RequestHostsRoundTrip` | src/preview.rs:215-218 | the listener's own match does too, with the scheme's default port on the header or without |
| `Preview.AddressesAreDistinct` | src/preview.rs:201-209 | two triples never share an address |
| `Preview.MatchesArePrintable` | src/preview.rs:222-240 | any host that matches names a triple in range, whose own address matches the same |
| `Preview.LastSeparator` | src/preview.rs:227-229 | a separator holding a non-digit does not recur shifted into the digits after it, so the last one is the cut |
| `Preview.FirstSeparator` | src/preview.rs:230-233 | nor shifted into the digits before it, so the first one is the cut |
| `Preview.SlotReadsBack` | src/preview.rs:293-325 | a port, or a container's address and port, is read back from its slot |
| `Preview.AcceptedIsWellFormed` | src/preview.rs:146-195 | an accepted template is lower-case, has a non-digit between its numbers, and no default port |
| `Preview.PlaceholdersStay` | src/preview.rs:157-184 | dropping or rewriting the port leaves both placeholders in the authority, so the finds never fail |
| `Preview.SecondIsAfterFirst` | src/preview.rs:177-184 | the second placeholder comes after the first, so the cuts never fail |
| `Preview.BrowserAuthorityIsKept` | src/preview.rs:247-288 | a browser's form of an authority keeps a port only in plain decimal and never the scheme's default |
| `PreviewTemplates.TemplatesAreParsed` | src/preview.rs:146-196 | a text is accepted, and as these parts, if and only if it is a scheme and a writable host around the two placeholders, once each, with something other than digits between them, a port that is empty or in range if any, and a sample that opens; the port is dropped when empty or the default |
| `PreviewTemplates.LaidOutIsParsed` | src/preview.rs:146-196 | of a text laid out so, a sample that does not open is said before digits between the placeholders |
| `PreviewHosts.HostsAreMatched` | src/preview.rs:222-240 | a header names a conversation, host and port if and only if, in lower case, it is the accepted template with the three in place, up to zeros before the two numbers |
| `PreviewHosts.ReadSlotIs` | src/preview.rs:305-325 | a slot is read only as a port after nothing, or after a container's address in plain decimal and in the pod's range |
| `Preview.PoolIs` | src/docker_net.rs:13-23 | the pod's range is exactly `172.20.0.0/14` |
| `AgentRefs.FindIsLossless` | src/agent_refs.rs:43-81 | the segments are the text, in order; text segments are never empty or adjacent, but for an empty text |
| `AgentRefs.FindsExactlyTheReferences` | src/agent_refs.rs:32-81 | a phrase is a reference segment exactly when the documented grammar admits it with a value that fits `i64`, and references never overlap |
| `AgentRefs.RefAtIsReference` | src/agent_refs.rs:51-68 | what the scan takes at a `#` is a reference, and what it passes over there is none |
| `AgentRefs.FindRefs` | src/agent_refs.rs:43-81 | the scanning loop returns those segments |
| `Masking.MaskThinkKeeps` | src/text_calls.rs:357-371 | masking leaked reasoning in valid UTF-8 leaves valid UTF-8 of the same length, every newline kept and every other byte as it was or a space |
| `Masking.MaskCodeKeeps` | src/text_calls.rs:379-440 | the same of masking code, whatever counts as a tag call or as white space |
| `Masking.BlankedAllAt` | src/text_calls.rs:359-365 | a byte in a masked range is a newline or a space, and every byte outside them is unchanged |
| `Masking.MarkersStay` | src/text_calls.rs:82-92 | what is found in masked text stands at the same offset in the text |
| `Masking.ThinkRangesAreOrdered` | src/text_calls.rs:287-333 | the leaked ranges are ascending, disjoint, in bounds and of whole characters |
| `Masking.ThinkRangesAreReasoning` | src/text_calls.rs:277-353 | each leaked range runs from a `<think>`, at a line's start behind at most three spaces or straight after the range before it, to the first `</think>` after that; or it is what the template opened |
| `Masking.LeaksBeginRanges` | src/text_calls.rs:277-333 | a `<think>` begins a leaked range if and only if it closes, no earlier range holds it, and it stands at a line's start behind at most three spaces or straight after a range |
| `Masking.TemplateOpenedIs` | src/text_calls.rs:338-353 | what the template opened runs from the start through the first line-start `</think>`, and is found if and only if no `<think>` comes before that |
| `Masking.MaskingTwiceIsOnce` | src/text_calls.rs:357-371 | masking reasoning twice is masking it once if and only if no `</think>` left in the masked text reads as closing what the template opened |
| `Masking.MaskingTwiceMasksMore` | src/text_calls.rs:338-371 | two lines that are each a `</think>` are a text for which it is not |
| `Masking.CodeRangesAreOrdered` | src/text_calls.rs:395-433 | the code ranges are ascending, disjoint, in bounds and of whole characters |
| `Masking.CodeSpansAreSpanned` | src/text_calls.rs:459-494 | code spans are ascending, disjoint and in bounds, backtick to backtick |
| `Masking.SpansAreCode` | src/text_calls.rs:456-494 | a code span is a run of backticks up to the next run of the same length |
| `Masking.RunsOpenSpans` | src/text_calls.rs:456-494 | a run of backticks opens a code span if and only if a run of the same length follows it and no earlier span holds it |
| `Masking.ThinkRangesLoop` | src/text_calls.rs:287-310 | the loop over lines ends with the leaked ranges |
| `Masking.PairsAfterOnto` | src/text_calls.rs:322-333 | the loop over pairs on a line ends with them and where the next line starts |
| `Masking.TemplateOpenedCloseLoop` | src/text_calls.rs:338-350 | the loop finds the first line-start `</think>`, unless a `<think>` comes before it |
| `Masking.CodeSpansLoop` | src/text_calls.rs:459-494 | the loop over a paragraph's bytes ends with its code spans |
| `Masking.MaskThinkBuffer` | src/text_calls.rs:357-371 | blanking the buffer range by range gives the masked text |
| `MaskingCode.MaskCodeIs` | src/text_calls.rs:373-440 | a byte is masked if and only if it is leaked reasoning, or on a line in a fence, opening or closing one, indented past the margin or quoted, or in a code span of its paragraph, the longest run of lines that are none of these, not blank and no whole tag call |
| `Masking.MaskCodeBuffer` | src/text_calls.rs:379-440 | the line loop, with its fence and paragraph, blanks exactly the code ranges |
| `Utf8.ValidCut` | src/text_calls.rs:287-350 | valid UTF-8 cut where a character starts is two valid texts, so the scan's slices hold |
| `EditDistance.OneRow` | src/text_calls.rs:551-563 | the one-row loop computes Levenshtein's distance |
| `EditDistance.DistanceIsFewestEdits` | src/text_calls.rs:550-563 | that number is the fewest single-character insertions, deletions and changes that turn one into the other |
| `EditDistance.Symmetric` | src/text_calls.rs:550-563 | the distance is the same both ways |
| `EditDistance.ZeroOnlyOnEqual` | src/text_calls.rs:550-563 | it is zero on equal sequences only |
| `EditDistance.Triangle` | src/text_calls.rs:550-563 | it obeys the triangle inequality |
| `Notices.TextCallsRoundTrip` | src/text_calls.rs:636-764 | for any readable calls and any offered names free of a full stop and a space, the notice's calls are read back; a notice with no call is none |
| `Notices.WriteTextCallNotice` | src/text_calls.rs:636-651 | the loop over calls writes the notice |
| `NoticeSentences.SentenceTells` | src/text_calls.rs:636-690 | a sentence says whether the call's name is offered; if not, that its MCP server is missing exactly when no offered tool is on it, case aside, under its own or its safe name; then the similar tools, or that none is when nothing else was said |
| `NoticeSentences.MissingIs` | src/text_calls.rs:665-673 | the missing server is what stands between `mcp__` and the first `__` after it, if and only if no offered tool is on that server or its safe name's |
| `NoticeSentences.OnlyNamesAreRead` | src/text_calls.rs:748-764 | whatever text a notice's calls are read from, each is one of no name or of 1 to 128 name characters |
| `Notices.CutOffRoundTrips` | src/api/chat.rs:212-263 | a cut-off notice's tokens, limit and call are read back if and only if the call's name is not empty |
| `Notices.RefusalRoundTrips` | src/api/chat.rs:225-249 | a refusal notice's call is read back if and only if its name is not empty |
| `Notices.FailureRoundTrips` | src/api/chat.rs:139-146 | a failure notice's reason is read back, whatever it is |
| `Notices.KindsAreDistinct` | src/api/chat.rs:116-263 | no text is read as two kinds of notice |
| `Notices.UsersTextIsNoNotice` | src/api/chat.rs:148-153 | nothing a user sends is read as a notice of any kind |
| `Credentials.WritesNeverGoBack` | src/credentials.rs:256-344 | in every interleaving of store changes and installs, of two writes to one pod the later reflects keys, identity and secrets no older than the earlier did |
| `Credentials.AnswerTellsTheRest` | src/credentials.rs:372-457 | a live pod that a round listed and its answer leaves out was written in full from reads made after the pods were listed |
| `Credentials.AnsweredPodsHoldNothingOlder` | src/credentials.rs:372-457 | every file in such a pod, text and all, is one that some version of the store from the round on puts there, so a replaced key's old text is in none |
| `Credentials.DeletedFilesStayOut` | src/credentials.rs:378-457 | a file deleted before the round is not in such a pod, and stays out of it until the store offers the file again |
| `Credentials.EveryRunKeepsInv` | src/credentials.rs:256-344 | one install of a conversation holds its lock at a time, and what a pod holds, path and text, came from a write no earlier than its last complete one |
| `Credentials.EveryRunKeepsRounds` | src/credentials.rs:402-457 | every listed pod is in flight, failed, or installed well, and failed only when its own install did |
| `Credentials.WritesAreGranted` | src/credentials.rs:114-254 | in every run each write is exactly what its conversation is granted by its own reads: every key if and only if it may use keys, a secret if and only if its own names list it and it was stored at both reads, and the configuration that names those keys |
| `CredentialRuns.InstallsCanRun` | src/credentials.rs:256-344 | an install whose conversation's lock is free can take it, read, and write the whole of what its pod then gets; a reconcile into the newest live pod |
| `CredentialRuns.RoundsCanEndWell` | src/credentials.rs:402-457 | whatever is under way, steps remain after which a round over all live pods has answered with none of them |
| `CredentialRuns.EightAtMost` | src/credentials.rs:436-444 | in every run, no more than eight of a round's installs are under way at once |
| `Credentials.EveryRunHoldsLast` | src/credentials.rs:256-344 | a pod whose last write was complete holds exactly that write: files it no longer gets are gone |
| `Credentials.GitConfigReadsBack` | src/credentials.rs:60-102 | git reads back the stored name and email from the file, whatever characters they hold |
| `Credentials.FilesAreOfTheStore` | src/credentials.rs:230-254 | an install writes at each path only the text the store held for it at the read that path is from |
| `Credentials.PodInstalls.Finish` | src/credentials.rs:436-444 | an install's end takes its pod out of flight, for the failed list if it failed |
| `Credentials.PodInstalls.NotKnownWritten` | src/credentials.rs:448-456 | after any ends in any order, a listed pod is left out of the answer if and only if its install ended and ended well |
| `OAuthGrants.RefreshSavesOverItsLoad` | src/mcp_oauth.rs:87-163 | in every interleaving a refresh saves only over the grant its own store's last load read, still in the row at that address, for the same client |
| `OAuthGrants.StaysDisconnected` | src/mcp_oauth.rs:115-180 | a row without a grant stays without one until a sign-in saves |
| `OAuthGrants.OnlySignInsConnect` | src/db/mcp.rs:241-262 | a row without a grant gains one only from a sign-in for the row's current address |
| `OAuthGrants.CutOffGrantsStayOut` | src/db/mcp.rs:161-239 | after a disconnect, a delete or an edit to another address, the row has no grant and no refresh saves, whatever its store had loaded, until a sign-in saves; a disconnect keeps the address |
| `OAuthGrants.ClearRemovesTheLoaded` | src/mcp_oauth.rs:165-179 | a clear takes from the row the loaded grant, still there at the store's address, and nothing else |
| `OAuthGrants.LoadThenClear` | src/mcp_oauth.rs:94-179 | in every run, a clear after a load with the row as it was leaves the server without a grant, at its address |
| `OAuthGrants.RemovedIsRefreshedExactlyWhenSavedAgain` | src/db/mcp.rs:279-310 | a refresh made from a grant that had left the row saves if and only if it is for the same client, an equal grant was saved at the store's address since, and the row has not changed after that |
| `OAuthGrants.EqualGrantIsRefreshed` | src/db/mcp.rs:279-310 | a run in which it does: a disconnected grant, saved again equal in every part, is refreshed by a store that read it before |
| `OAuthGrants.RemovedReturnsOnlyBySave` | src/mcp_oauth.rs:115-126 | a grant that left the row is in it again only if a save put an equal one there since |
| `OAuthGrants.TokensStayAtTheirAddress` | src/mcp_oauth.rs:92-126 | the row's grant, and each one a store loads, was issued for the address it is kept for |
| `OAuthGrants.CredentialStore.Load` | src/mcp_oauth.rs:94-113 | a load keeps the row's grant only at the store's address, and fails without a row |
| `OAuthGrants.CredentialStore.Save` | src/mcp_oauth.rs:127-163 | a save writes, and says so, exactly when its rule's update matches the row |
| `OAuthGrants.CredentialStore.Clear` | src/mcp_oauth.rs:165-179 | a clear removes only the grant the store loaded |
| `OAuthCallbacks.AttemptStaysPending` | src/mcp_oauth.rs:588-607 | callbacks without an attempt's state, however many, leave it pending |
| `OAuthCallbacks.TakenAtMostOnce` | src/mcp_oauth.rs:595-607 | no two callbacks take the same attempt |
| `OAuthCallbacks.MatchedErrorIsTaken` | src/mcp_oauth.rs:246-281 | a matched callback's error is what the next take within the time it is kept returns, whatever unmatched callbacks came between, unless another matched or successful one ended |
| `OAuthCallbacks.TakenIsTheLast` | src/mcp_oauth.rs:246-281 | in every run, what a take returns is the error of a callback that failed for that server less than 300 seconds before, none since having been taken, succeeded or failed matched, and none failed at all if it is unmatched |
| `OAuthCallbacks.UnmatchedErrorIsTaken` | src/mcp_oauth.rs:257-281 | an unmatched callback's error is taken too, within that time, if no matched one waited when it came and none ended since |
| `OAuthCallbacks.ProviderTextIsVerified` | src/mcp_oauth.rs:733-787 | a provider's words show only for a callback with the attempt's state and an accepted issuer; an unmatched one says only smelt's own words and takes no attempt |
| `OAuthCallbacks.OwnCallbacksAreTaken` | src/mcp_oauth.rs:733-787 | a callback goes on to its exchange if and only if it carries a code, no error and the attempt's state; with an error, it shows the provider's words if and only if it carries that state and an accepted issuer |
| `OAuthCallbacks.IssuersAccepted` | src/mcp_oauth.rs:759-775 | an issuer sent must be the one expected, and one must be sent if the provider says it sends it |
| `OAuthCallbacks.AttemptIsExchanged` | src/mcp_oauth.rs:588-607 | in every run, the callback of an attempt that no other start replaced and no callback took is exchanged for that attempt |
| `OAuthCallbacks.Callbacks.TakeMatchingAttempt` | src/mcp_oauth.rs:595-607 | the attempt is removed and returned only for its own state |
| `OAuthCallbacks.Callbacks.VerifyErrorCallback` | src/mcp_oauth.rs:759-775 | an error callback with the state ends the attempt whatever its issuer, and is refused unless the issuer is accepted |
| `OAuthCallbacks.Callbacks.BeginCallback` | src/mcp_oauth.rs:733-774 | a callback up to its exchange |
| `OAuthCallbacks.Callbacks.Record` | src/mcp_oauth.rs:263-270 | recording prunes expired errors and keeps a matched one from an unmatched |
| `OAuthCallbacks.Callbacks.TakeCallbackError` | src/mcp_oauth.rs:278-281 | a take empties the slot and returns its error within the time it is kept |
| `WebSocket.SentFramesDecode` | scripts/browser-check/cdp.py:48-62 | what is sent decodes, by sections 5.2 and 5.3 of RFC 6455, to one final masked text frame with exactly the payload, for every length below 2^63 |
| `WebSocket.FramesRoundTrip` | scripts/browser-check/cdp.py:48-62 | every frame, of any length form, is read back from its bytes whatever follows |
| `WebSocket.OnlyFramesDecode` | scripts/browser-check/cdp.py:48-62 | bytes are read as a frame and a rest if and only if they are that frame's bytes, its length in its shortest form, and the rest |
| `WebSocket.HelloIs` | scripts/browser-check/cdp.py:48-62 | the encoding of a frame is section 5.7 of RFC 6455's own for its single-frame text messages, masked and not |
| `WebSocket.LongFramesAre` | scripts/browser-check/cdp.py:48-62 | and for its 256-byte and 64-kilobyte messages |
| `WebSocket.SeriesIsRead` | scripts/browser-check/cdp.py:73-83 | a series of unmasked frames is read exactly, in order |
| `WebSocket.ReadsUnmasked` | scripts/browser-check/cdp.py:73-83 | the client reads from any unmasked frame the RFC admits its opcode and payload, and nothing past it |
| `WebSocket.MessagesAreFound` | scripts/browser-check/cdp.py:85-92 | frames that are neither text nor a close are passed over; the next text or close is seen |
| `WebSocket.Connection.SendFrame` | scripts/browser-check/cdp.py:48-62 | the growing header and the masked payload are that frame's bytes |
| `WebSocket.Connection.RecvExact` | scripts/browser-check/cdp.py:64-71 | however the chunks are cut, exactly the next bytes are returned and the rest kept, or none if the socket closes first |
| `WebSocket.Connection.RecvFrame` | scripts/browser-check/cdp.py:73-83 | the next frame of the stream is returned and consumed, whatever the chunks; closed inside a frame, the whole parts of it are consumed |
| `WebSocket.Connection.RecvJson` | scripts/browser-check/cdp.py:85-92 | the next text frame's payload, or how the stream ended |

## Left out

- External parsers: pulldown-cmark, linkify, syntect, serde_json and the `url` crate are parameters or arbitrary well-formed inputs, not modelled.
- pulldown-cmark's content rules: the trees a reply may parse to are a superset of CommonMark's, and only the enabled tags appear (no footnotes, definition lists, metadata, superscript or subscript).
- `fence_closed`: a fenced block keeps the source text and position it would be decided from.
- Rendering (`rsx!` components), server functions, telemetry and startup.
- Network, pod, browser and database work; a database statement is one step, and a provider's reply an input.
- JSON bodies: whether a refusal is a binding mismatch is a field of the reply in `SendLoop`, and `RecvJson` stops before `json.loads`.
- Timing constants, the retry delays and real clocks; an install round's deadline may fire at any step.
- A WebSocket handshake that arrives together with the first frame: `__init__` drops what follows the handshake.
- `Credentials.EveryRunKeepsInv`: takes it that nothing an install started still acts in its pod once its lock is released, which `pod_writes` promises; `pod_writes` is not part of this model.
- `Notices.TextCallsRoundTrip`: the offered tools like a name are any offered names; how they are ranked is not modelled.
- `find` in `src/text_calls.rs` and the forms of call it reads, but for the masking under it and the offsets of its markers.
- `is_near` and `similar`, which use Unicode case folding.
- One-branch decisions (`allows_request_from`, `refusal`, `validate_answers`, `oversized`), agent lifecycles whose transitions are in the database, and floating-point pricing: they would add only easy members, or rest on code outside these files.
- `OAuthGrants.RefreshSavesOverItsLoad`: a store's load, save or clear is one step, statement and note of what was loaded together. The source awaits between the two, so two operations overlapping on one store are not modelled.

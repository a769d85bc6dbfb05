# AI Roundtable side panel: a Dafny model

AI Roundtable is a browser side panel. It relays messages between assistant
tabs (Claude, ChatGPT, Gemini). It has three modes:

- **Normal.** Send a message to the ticked or `@mentioned` assistants. `/mutual` starts a mutual review. `/cross @targets <- @sources text` starts a cross reference.
- **Discussion.** Two assistants answer a topic and then evaluate each other's answers round by round.
- **Debate.** There is a pro side, a con side and a judge. A fixed nine-phase schedule runs: opening, attack, rebuttal and closing. Then the judge writes an audit report. The report is parsed and classified for reliability.

This project models the engine behind these modes. Two kinds of code become two kinds of Dafny:

- **Pure logic** becomes datatypes, functions and lemmas. This covers phase rules, URL counting, prompt lookups, report parsing, risk classification, message parsing, the composer's insert rule, and the relay messages.
- **State updated in place** becomes classes with `modifies` frames. These are `DebateSession` and `DiscussionSession`.

A message an assistant would receive is appended to an outbox, or returned as a list of sends. It is not delivered. The replies that the panel would fetch from the tabs are passed in as a snapshot map.

Files, one module each:

| file | module | what it holds |
|---|---|---|
| `option.dfy` | `Optional` | the option type |
| `strings.dfy` | `Strings` | JavaScript string built-ins: trim, lower case, indexOf, substring, dedup by `Set` |
| `debate_phases.dfy` | `DebatePhases` | the nine phases and who speaks in each |
| `compliance.dfy` | `SourceCompliance` | the URL scan and the three-way source check |
| `debate_records.dfy` | `DebateRecords` | transcript and late-reply records |
| `prompt_builder.dfy` | `DebatePrompts` | the structure of each phase's prompt and the transcript lookups behind it |
| `verdict_parser.dfy` | `VerdictParser` | the audit-block reader and the field extractors |
| `risk.dfy` | `JudgeVerdict` | the ordered reliability rules |
| `verdict_poll.dfy` | `VerdictPolling` | the wait for the judge's report |
| `debate_session.dfy` | `DebateEngine` | the debate state and its operations |
| `commands.dfy` | `PanelCommands` | tab classification, the composer edits, the mention and command parser |
| `relay.dfy` | `PanelRelay` | send routing, mutual review, cross reference |
| `discussion.dfy` | `DiscussionMode` | the discussion state and its operations |
| `router.dfy` | `ResponseRouter` | where a captured reply goes |

## Model

| member | source | states |
|---|---|---|
| Strings.Trim | sidepanel/panel.js:194 | the result has no JavaScript white space at either end, is empty exactly when the text is all white space, and is never longer |
| Strings.TrimIsSlice | sidepanel/panel.js:194 | the trimmed text is a slice of the original with only white space before and after it |
| Strings.ToLower | sidepanel/panel.js:256 | same length; each character is its ASCII lower-case form |
| Strings.IndexOf | sidepanel/panel.js:271 | the leftmost occurrence of the pattern, or -1 exactly when it occurs nowhere |
| Strings.Substring | sidepanel/panel.js:277-278 | the slice between the two indices clamped to the text, taken between them in either order |
| Strings.RemoveChar | sidepanel/debate.js:1126 | no `*` is left and every other character keeps its count |
| Strings.RemoveCharAppend | sidepanel/debate.js:1126 | removal works part by part on a joined text, so what remains keeps its order |
| Strings.CollapseNewlines | sidepanel/debate.js:1160 | no line feed is left, the text never grows, and a text without line feeds is unchanged |
| Strings.CollapseNewlinesAppend | sidepanel/debate.js:1160 | collapsing works part by part when no run of line feeds spans the join |
| Strings.CollapseNewlinesRun | sidepanel/debate.js:1160 | a run of any number of line feeds between two pieces becomes exactly one space |
| Strings.ShowNat | sidepanel/debate.js:92 | a non-empty digit string with no leading zero |
| Strings.DigitsValueShowNat | sidepanel/debate.js:92 | the decimal rendering of a count reads back as that count |
| Strings.Dedup | sidepanel/panel.js:283 | distinct elements, exactly the members of the input, never longer |
| Strings.DedupKeepsFirstOccurrenceOrder | sidepanel/panel.js:313 | deduplicated names keep the order of their first occurrences |
| DebatePhases.GetPhaseDebater | sidepanel/debate.js:37-47 | both sides speak exactly in `opening`; otherwise an `_pro` or `_con` suffix names the side, and failing that an `_pro_` infix, then an `_con_` infix; there is no speaker exactly when none of these applies |
| DebatePhases.OpeningSpeaker | sidepanel/debate.js:11-21 | both sides speak in the opening |
| DebatePhases.AttackSpeakers | sidepanel/debate.js:13-14 | pro attacks first, then con |
| DebatePhases.RebuttalSpeaker | sidepanel/debate.js:15-18 | each rebuttal phase is spoken by the side in its name |
| DebatePhases.ClosingSpeakers | sidepanel/debate.js:19-20 | con closes first and pro has the last word |
| DebatePhases.GetPhaseDebaterFollowsSchedule | sidepanel/debate.js:11-47 | every scheduled phase's speaker rule agrees with the schedule |
| DebatePhases.EveryPhaseHasASpeaker | sidepanel/debate.js:11-47 | every scheduled phase has a speaker, and both speak only in phase 0 |
| DebatePhases.TurnsAreBalanced | sidepanel/debate.js:11-21 | after the opening each side speaks exactly four times, and pro speaks last |
| DebatePhases.ClosingPhasesAreTheLastTwo | sidepanel/debate.js:293 | a phase name starts with `closing` exactly for the last two phases |
| DebatePhases.LatePhaseTag | sidepanel/debate.js:278 | a late reply is tagged with the phase before the current one, or `unknown` exactly when there is none |
| SourceCompliance.UrlMatches | sidepanel/debate.js:76-80 | every match starts a URL at a scheme and ends at the end of its run of URL characters; matches are in order and never overlap |
| SourceCompliance.UrlMatchesMissNoStart | sidepanel/debate.js:76-80 | the global scan misses no URL start: each one lies inside some match |
| SourceCompliance.SpanScan | sidepanel/debate.js:76-80 | a left-to-right scan that resumes after each match yields only hits, in order, none overlapping the next |
| SourceCompliance.SpanScanCovers | sidepanel/debate.js:76-80 | every hit the scan passes over lies inside one of the spans it yields |
| SourceCompliance.CoveringMatch | sidepanel/debate.js:76-80 | names the match that covers a given URL start |
| SourceCompliance.CountUrls | sidepanel/debate.js:78-81 | the count is zero exactly when the URL pattern can start nowhere in the text |
| SourceCompliance.CountUrlsJoined | sidepanel/debate.js:78-81 | the URL count of two texts joined by a space is the sum of their counts |
| SourceCompliance.CheckSourceCompliance | sidepanel/debate.js:83-97 | compliant exactly at three or more URLs; `无URL来源` at zero; `仅N个来源` at one or two; no warning exactly when compliant |
| DebatePrompts.LatestIndex | sidepanel/debate.js:436-455 | the last turn of the wanted side, with no such turn after it, or -1 |
| DebatePrompts.FindLatestResponse | sidepanel/debate.js:436-455 | the backward scan returns the latest matching turn's content, or the empty text |
| DebatePrompts.OpposingResponseComesFromOtherSide | sidepanel/debate.js:436-445 | a non-empty opposing reply is some opposing turn's content; with no opposing turn it is empty |
| DebatePrompts.OpposingResponseAfterOpposingTurn | sidepanel/debate.js:436-445 | right after an opposing turn, the opposing reply is that turn |
| DebatePrompts.OpposingResponseIgnoresOwnTurn | sidepanel/debate.js:436-445 | one's own new turn does not change the opposing reply |
| DebatePrompts.OpposingResponse | sidepanel/debate.js:436-445 | the content of the latest turn of the other side, with only own turns after it; empty when the other side has no turn |
| DebatePrompts.FirstOpeningIndex | sidepanel/debate.js:462-463 | the first opening turn of a side, with none before it, or -1 |
| DebatePrompts.FirstOpeningIsStable | sidepanel/debate.js:462-463 | once a side has opened, later turns never change its opening |
| DebatePrompts.FirstOpeningIndexExtended | sidepanel/debate.js:462-463 | appending turns after a side has opened keeps the index of its first opening |
| DebatePrompts.FirstOpening | sidepanel/debate.js:462-463 | the content of the side's first opening turn, with no opening of that side before it; empty when the side has not opened |
| DebatePrompts.ClosingRecord | sidepanel/debate.js:567-574 | one line per recorded turn, in order, each carrying that turn's side, phase and content |
| DebatePrompts.ClosingRecordAppend | sidepanel/debate.js:567-574 | the record of a longer transcript is the earlier record followed by the record of the new turns |
| DebatePrompts.VerdictRecord | sidepanel/debate.js:668-673 | one line per recorded turn, in order, each carrying that turn's side, agent, phase and content |
| DebatePrompts.VerdictRecordAppend | sidepanel/debate.js:668-673 | the judge's record of a longer transcript extends the earlier record by the new turns |
| DebatePrompts.RebuttalRound | sidepanel/debate.js:522 | a rebuttal round is 1 or 2 |
| DebatePrompts.RebuttalNames | sidepanel/debate.js:521-522 | the four rebuttal phases are recognised and numbered by their last digit |
| DebatePrompts.PhasePrompt | sidepanel/debate.js:430-597 | attack prompts embed both first openings, and con also gets pro's attack when there is one; rebuttals embed the latest opposing reply and the round named by the phase; closings embed the record of every turn, and only `closing_pro` gets the final word |
| DebatePrompts.GeneratePhasePrompt | sidepanel/debate.js:430-597 | the prompt builder computes the prompt described above |
| DebatePrompts.PromptKindsFollowSchedule | sidepanel/debate.js:430-597 | phases 1-2 get attack prompts, 3-6 rebuttals (rounds 1,1,2,2), 7-8 closings, with the final word in phase 8 only |
| DebatePrompts.OpeningNameGetsFallback | sidepanel/debate.js:595-596 | the phase builder has no opening case and falls back |
| VerdictParser.FindSentinel | sidepanel/debate.js:1081 | the leftmost opening sentinel at or after a position, or none at all |
| VerdictParser.FindClosingRun | sidepanel/debate.js:1081 | the leftmost run of ten `=` at or after a position, or none at all |
| VerdictParser.AuditBlock | sidepanel/debate.js:1081-1093 | there is a block exactly when the opening sentinel occurs somewhere |
| VerdictParser.SentinelAtOpening | sidepanel/debate.js:1081 | the text `===审计结果===` is an opening sentinel with a three-`=` tail |
| VerdictParser.AuditBlockOfWellFormedReport | sidepanel/debate.js:1081 | a report with an opening and a closing sentinel yields exactly the text between them |
| VerdictParser.AuditBlockOfUnclosedReport | sidepanel/debate.js:1084-1086 | without a closing run, the block runs to the end of the text |
| VerdictParser.ColonAfter | sidepanel/debate.js:1097 | the field colon, full- or half-width, at most two `*` after the label |
| VerdictParser.LineTail | sidepanel/debate.js:1097 | a line capture is non-empty and stays on one line |
| VerdictParser.LineCapture | sidepanel/debate.js:1097 | the lazy capture before optional trailing `*` is non-empty and is the whole line when the line has no `*` |
| VerdictParser.NumberTail | sidepanel/debate.js:1099-1101 | a number capture is a non-empty run of ASCII digits |
| VerdictParser.StopAt | sidepanel/debate.js:1105 | a multi-line field stops at the first stop label or at the end |
| VerdictParser.MatchAt | sidepanel/debate.js:1096-1106 | number captures are digits; a multi-line field matches exactly when a colon follows its label |
| VerdictParser.FirstMatch | sidepanel/debate.js:1096-1106 | the leftmost position where the field's pattern matches, or none |
| VerdictParser.Field | sidepanel/debate.js:1096-1106 | a field is absent exactly when its pattern matches nowhere |
| VerdictParser.StripParenthetical | sidepanel/debate.js:1126 | unchanged when no `(` is followed by a `)`; otherwise exactly one span is cut out: from the white space before the first `(` to the last `)` |
| VerdictParser.StripParentheticalExample | sidepanel/debate.js:1126 | `正方 (微弱优势)` reads as `正方` |
| VerdictParser.FirstDigit | sidepanel/debate.js:1112 | the first ASCII digit, with none before it |
| VerdictParser.FirstChineseStars | sidepanel/debate.js:1116 | the first Chinese numeral followed by `星`, with none before it |
| VerdictParser.NumeralValue | sidepanel/debate.js:1115 | 一 to 五 read as 1 to 5 |
| VerdictParser.ParseCredibility | sidepanel/debate.js:1109-1119 | the first digit wins; otherwise the first Chinese star count; otherwise 0 |
| VerdictParser.CredibilityExamples | sidepanel/debate.js:1109-1119 | `⭐5` and `五星` give 5, `4/5` gives 4, `三 星` gives 3, the empty text and `高` give 0 |
| VerdictParser.ParseVerdictResult | sidepanel/debate.js:1055-1187 | without a block, all defaults plus one parse error; otherwise no error; valid exactly when the skill winner or the factual verdict was matched; winner and scores copy the skill fields |
| VerdictParser.Defaults | sidepanel/debate.js:1056-1078 | not valid, no errors, the raw text kept, every score and text empty, the default winner, factual verdict and risk, and the older display fields equal to the skill fields |
| VerdictParser.LineFieldRoundTrip | sidepanel/debate.js:1097 | a plain value written as `label：value` on its own line reads back unchanged |
| VerdictParser.NumberFieldRoundTrip | sidepanel/debate.js:1099-1101 | a score written in decimal reads back as the same number |
| VerdictParser.CleanPlain | sidepanel/debate.js:1146 | trimming and removing `*` leave a plain value unchanged |
| VerdictParser.BlockFieldRoundTrip | sidepanel/debate.js:1157-1161 | a multi-line field written as `label：value` and running to the next heading or the end reads back as the value trimmed, with each run of line feeds as one space |
| VerdictParser.ResearchFieldRoundTrip | sidepanel/debate.js:1157-1167 | in a report, the judge's evidence and the reasons for the verdict, written over several lines, read back that way |
| VerdictParser.CredibilityLineAt | sidepanel/debate.js:1149-1155 | a credibility line `来源可信度-正方：N星` is matched by its side's pattern with `N星` as the capture |
| VerdictParser.CredibilityRoundTrip | sidepanel/debate.js:1149-1155 | the pro and con credibility lines, written in that order, read back as their two ratings |
| VerdictParser.CredibilityReportRoundTrip | sidepanel/debate.js:1149-1155 | in a report, the two credibility lines read back as the two ratings |
| VerdictParser.MinimalReportBlock | sidepanel/debate.js:1081-1093 | a report holding only the two key lines between sentinels has those lines as its block |
| VerdictParser.KeyLinesWinner | sidepanel/debate.js:1124 | the skill winner line reads back |
| VerdictParser.KeyLinesFact | sidepanel/debate.js:1144 | the factual verdict line reads back |
| VerdictParser.MinimalReportRoundTrip | sidepanel/debate.js:1055-1187 | writing a skill winner and a factual verdict into a report and parsing it gives them back, valid and error-free |
| JudgeVerdict.RiskReason | sidepanel/debate.js:811-832 | empty exactly when no rule fails; otherwise the reason of the first failing rule, in order: credibility, research, skill |
| JudgeVerdict.ProcessSingleJudgeVerdict | sidepanel/debate.js:799-844 | invalid exactly when the parse is invalid; risk-flagged exactly when valid and a rule fails; disputed exactly on an unflagged tie whose factual verdict holds `各有`; single-judge otherwise; a reason is given exactly when flagged |
| JudgeVerdict.NoBlockIsInvalid | sidepanel/debate.js:1088-1091 | a report with no audit block is classified invalid with no reason |
| JudgeVerdict.NoKeyFieldIsInvalid | sidepanel/debate.js:1183-1184 | a block with neither key field is classified invalid |
| JudgeVerdict.FieldOfMissingLabel | sidepanel/debate.js:1096-1106 | a field cannot be read from a text that lacks its label's first character |
| JudgeVerdict.KeyLinesCarryNoResearch | sidepanel/debate.js:1150-1167 | the two key lines alone give no research and no credibility |
| JudgeVerdict.UnresearchedIsFlagged | sidepanel/debate.js:815-825 | a valid verdict with no ratings and no research is flagged for missing research |
| JudgeVerdict.MinimalReportIsFlagged | sidepanel/debate.js:799-844 | a report with only the two key lines is flagged for missing research |
| JudgeVerdict.SoundReportIsNotFlagged | sidepanel/debate.js:815-841 | credible sources on both sides, some research, and a passing score give an unflagged verdict |
| VerdictPolling.PollFrom | sidepanel/debate.js:769-796 | an accepted report is the active reply at the tick before the attempt count; a cancel is at an inactive tick; a time-out needs 300 ticks; waiting means every tick was used |
| VerdictPolling.Poll | sidepanel/debate.js:769-796 | the poll is still waiting exactly when fewer than 300 ticks were seen and each found an active debate and no acceptable reply |
| VerdictPolling.PollFromMeaning | sidepanel/debate.js:769-796 | from any attempt on, each outcome is characterised by the ticks it saw |
| VerdictPolling.PollMeaning | sidepanel/debate.js:763-796 | the poll accepts the first active tick with a sentinel-bearing reply; it stops at the first inactive tick; it gives up after exactly 300 fruitless attempts |
| VerdictPolling.LaterTicksIgnored | sidepanel/debate.js:769-796 | ticks after the poll has ended change nothing |
| VerdictPolling.AcceptedReportHasBlock | sidepanel/debate.js:779-783 | a reply holding the sentinel always has an audit block and parses without error |
| VerdictPolling.AcceptedReportsParse | sidepanel/debate.js:779-783 | whatever report the poll accepts parses without a block error |
| VerdictPolling.PollVerdict | sidepanel/debate.js:763-796 | the timer loop ends with the outcome described above |
| DebateEngine.Debaters | sidepanel/debate.js:400-417 | the awaited debaters of a phase: both, or the named side's assistant |
| DebateEngine.RecordedTurn | sidepanel/debate.js:289-313 | a transcript turn has no compliance record exactly in a closing phase; otherwise its URL count is the content's |
| DebateEngine.TurnSpokenByScheduledSide | sidepanel/debate.js:289-313 | every transcript turn after the opening was spoken by the side its phase schedules |
| DebateEngine.DebateSession.SideOfAgent | sidepanel/debate.js:273 | the side is pro exactly for the pro assistant |
| DebateEngine.DebateSession.constructor | sidepanel/debate.js:49-62 | the initial state is idle with nothing sent |
| DebateEngine.DebateSession.StartDebate | sidepanel/debate.js:152-186 | a blank topic, the same assistant on both sides, or a judge who debates changes nothing; otherwise phase 0, empty records, both debaters awaited, phase in flight, no verdict, and one opening prompt sent to each |
| DebateEngine.DebateSession.Begin | sidepanel/debate.js:174-186 | the new debate's state and the two opening prompts |
| DebateEngine.DebateSession.OnDebatePhaseComplete | sidepanel/debate.js:332-337 | with nobody awaited, the phase is no longer in flight |
| DebateEngine.DebateSession.HandleDebateResponse | sidepanel/debate.js:262-330 | outside a debate, or from a non-debater, nothing changes; an unawaited debater's reply is filed as late and nothing else changes; an awaited reply is appended under the current phase with the sender's side, the sender is no longer awaited, and the phase is in flight exactly while someone is awaited |
| DebateEngine.DebateSession.FileLateResponse | sidepanel/debate.js:272-287 | exactly one late entry is appended, tagged with the previous phase |
| DebateEngine.DebateSession.RecordStatement | sidepanel/debate.js:289-329 | exactly one turn is appended and its author leaves the awaited set |
| DebateEngine.DebateSession.NextDebatePhase | sidepanel/debate.js:360-423 | refused with no change while inactive, in flight, or awaiting anyone; otherwise the phase index grows by one first; past the last phase nothing more happens; else the scheduled debater is awaited and sent that phase's prompt |
| DebateEngine.DebateSession.OpenPhase | sidepanel/debate.js:387-423 | a single-speaker phase goes in flight awaiting exactly its scheduled debater, who is sent that phase's prompt for their side |
| DebateEngine.DebateSession.RequestVerdict | sidepanel/debate.js:660-760 | the judge is sent the verdict prompt with the topic, both debaters and the full transcript |
| DebateEngine.DebateSession.ReceiveVerdict | sidepanel/debate.js:779-783 | the report is stored, parsed and classified, and the debate ends |
| DebateEngine.DebateSession.Conclude | sidepanel/debate.js:779-783 | the report becomes the verdict and the debate is no longer active |
| DebateEngine.DebateSession.ResetDebate | sidepanel/debate.js:1296-1324 | back to the idle state; what was sent stays sent |
| DebateEngine.DebateSession.IsDebateActive | sidepanel/debate.js:1340-1342 | an active debate has its roles assigned |
| DebateEngine.DebateSession.IsDebatePendingResponse | sidepanel/debate.js:1344-1346 | only a debater of the current phase, during a phase in flight, can be awaited |
| PanelCommands.GetAITypeFromUrl | sidepanel/panel.js:174-180 | no URL gives none; `claude.ai` is checked first, then `chat.openai.com`/`chatgpt.com`, then `gemini.google.com`; the result is always a known assistant |
| PanelCommands.ClaudeTab | sidepanel/panel.js:174-180 | a Claude URL is classified as claude |
| PanelCommands.ChatGptTab | sidepanel/panel.js:174-180 | a ChatGPT URL is classified as chatgpt |
| PanelCommands.ChatGptHost | sidepanel/panel.js:177 | the ChatGPT host name occurs in its URL |
| PanelCommands.InsertAtCursor | sidepanel/panel.js:79-89 | the text before the cursor is kept, the inserted text follows it, the rest comes after, and the cursor moves past the insertion |
| PanelCommands.InsertWord | sidepanel/panel.js:116-130 | the text before and after the caret is kept, and the caret moves past the word, its trailing space and any separating space |
| PanelCommands.InsertedWordIsDelimited | sidepanel/panel.js:120-129 | an inserted mention is preceded by a space or a line break, or starts the text, and is always followed by a space |
| PanelCommands.ChooseAction | sidepanel/panel.js:93-114 | an unknown action leaves the text alone; a known one inserts its prompt as a word |
| PanelCommands.MentionAt | sidepanel/panel.js:281 | a mention is `@` followed by a known name in any letter case; none when no name follows |
| PanelCommands.FirstNameAt | sidepanel/panel.js:281 | the name returned is a listed name spelled at that position in any case; none means no listed name is spelled there |
| PanelCommands.NoAtInsideMention | sidepanel/panel.js:281 | a mention contains no second `@` |
| PanelCommands.MentionsFrom | sidepanel/panel.js:311-312 | every match is a mention, in order, and no two overlap |
| PanelCommands.MentionsFromComplete | sidepanel/panel.js:311-312 | the scan finds every mention in the text |
| PanelCommands.HitsSeparate | sidepanel/panel.js:281 | a mention fits in the text and no other mention starts inside it |
| PanelCommands.Scan | sidepanel/panel.js:311-312 | a scan that resumes after each match yields only mentions, in order, none overlapping the next |
| PanelCommands.ScanComplete | sidepanel/panel.js:311-312 | every mention at or after the start position is one of the scan's matches |
| PanelCommands.MentionsExact | sidepanel/panel.js:311-313 | the mention list holds exactly the mentioned assistants, each once, all known |
| PanelCommands.Mentions | sidepanel/panel.js:310-313 | known assistant names without repeats; empty exactly when the pattern matches nowhere |
| PanelCommands.NoAtNoMentions | sidepanel/panel.js:311-313 | a text without `@` mentions nobody |
| PanelCommands.TextAfterSources | sidepanel/panel.js:292-297 | the message after the last source mention is never longer than the text after the arrow |
| PanelCommands.TextAfterSourcesMeaning | sidepanel/panel.js:291-297 | with no mention the whole text is the message; otherwise a last mention exists and the message is the text after it, trimmed |
| PanelCommands.ParseCross | sidepanel/panel.js:270-308 | no arrow exactly when `<-` is absent; with an arrow, a cross command exactly when both sides hold a mention; its targets and sources are the assistants mentioned before and after the first arrow, and its text is what follows the last source |
| PanelCommands.ParseMessage | sidepanel/panel.js:252-341 | `/mutual` gives a mutual review with no mentions, prompted by the trimmed text after the command word or else the default prompt; a complete `/cross` gives a cross reference with its targets, sources and text; a `/cross` with no arrow gives no mentions; otherwise the mentions are the message's, and cross reference is set exactly at two mentions plus an evaluation keyword |
| PanelCommands.MutualRequest | sidepanel/panel.js:255-266 | the prompt is the trimmed text after `/mutual`, or the default prompt when that is empty |
| PanelCommands.CrossRequest | sidepanel/panel.js:299-307 | the targets evaluate the sources, both are the mentions in that order, and the message is the text after the sources |
| PanelCommands.MentionRequest | sidepanel/panel.js:310-340 | the mentions are the message's; a cross reference exactly at two mentions and an evaluation keyword, and then with one target and one source |
| PanelCommands.KeywordCrossReference | sidepanel/panel.js:317-332 | in the keyword form the first mention evaluates and the last is evaluated, both among the two mentioned |
| PanelCommands.BareMutualCommand | sidepanel/panel.js:254-256 | `/mutual` alone is a mutual command |
| PanelCommands.BareMutualUsesDefaultPrompt | sidepanel/panel.js:254-266 | `/mutual` alone uses the default prompt |
| PanelCommands.MutualWithoutPromptUsesDefault | sidepanel/panel.js:254-266 | a message that is `/mutual` in any case and surrounding space is a mutual command with the default prompt, no mentions, and the message kept as typed |
| PanelRelay.Others | sidepanel/panel.js:395 | everyone but the target, and never the target |
| PanelRelay.MutualReviewPlan | sidepanel/panel.js:376-416 | nothing is sent if any participant lacks a non-blank reply; otherwise one message per participant, in order |
| PanelRelay.QuotedInReview | sidepanel/panel.js:400-407 | every source's reply appears in the review body, tagged with its name |
| PanelRelay.MutualReviewQuotesEveryOther | sidepanel/panel.js:395-413 | each participant's message opens with the header, quotes every other participant's reply, and ends with the prompt |
| PanelRelay.MutualReviewQuotesOnlyOthers | sidepanel/panel.js:395-413 | the replies quoted to a participant are exactly the other participants', never its own |
| PanelRelay.BuildReview | sidepanel/panel.js:398-409 | the message loop builds the review text for its sources |
| PanelRelay.CollectReplies | sidepanel/panel.js:381-391 | the fetch loop succeeds exactly when every participant has a non-blank reply |
| PanelRelay.HandleMutualReview | sidepanel/panel.js:376-416 | the handler sends exactly the planned review messages |
| PanelRelay.FanOut | sidepanel/panel.js:394-413 | the send loop produces the planned review messages, one per participant in order |
| PanelRelay.ReviewFor | sidepanel/panel.js:395-412 | one iteration sends the participant the review of every other participant's reply and the prompt |
| PanelRelay.ReviewTextQuotes | sidepanel/panel.js:399-409 | a review opens with its header, quotes each source's reply under its name, and ends with the prompt on its own line |
| PanelRelay.CrossReferencePlan | sidepanel/panel.js:343-370 | nothing is sent if a source has no reply; otherwise every target gets the same message, in target order |
| PanelRelay.QuotedInCross | sidepanel/panel.js:358-364 | every source's reply appears in the quoted part, tagged with its name |
| PanelRelay.CrossReferenceQuotesSources | sidepanel/panel.js:343-370 | each target's message starts with the typed message and quotes every source's reply |
| PanelRelay.HandleCrossReference | sidepanel/panel.js:343-370 | the handler sends exactly the planned cross-reference messages |
| PanelRelay.SourcesAvailable | sidepanel/panel.js:347-354 | the fetch loop succeeds exactly when every source has a non-empty reply |
| PanelRelay.BuildCross | sidepanel/panel.js:356-364 | the build loop yields the typed message, a newline, and every source's reply quoted in source order |
| PanelRelay.SendToAll | sidepanel/panel.js:366-369 | every target, in order, is sent the same message |
| PanelRelay.CheckedTargets | sidepanel/panel.js:206-209 | the ticked assistants, and only known ones |
| PanelRelay.Route | sidepanel/panel.js:200-250 | nothing without targets; a mutual review of the targets when there are two or more; a cross reference for a cross-reference request; otherwise the message unchanged to each target |
| PanelRelay.HandleSendPlan | sidepanel/panel.js:193-250 | blank input sends nothing; otherwise the trimmed message is parsed and routed |
| PanelRelay.CrossCommandRouted | sidepanel/panel.js:193-250 | a complete `/cross` command sends, when every source has a reply, one message to each target: the text after the sources, then each source's reply quoted; nothing otherwise |
| PanelRelay.MutualReviewUsesTickedAssistants | sidepanel/panel.js:225-231 | a mutual review goes only to ticked assistants, and to at least two of them or none |
| PanelRelay.MutualCommandUsesTickedAssistants | sidepanel/panel.js:193-231 | a typed `/mutual` ignores mentions and reaches at least two ticked assistants or nobody |
| DiscussionMode.TopicMessage | sidepanel/panel.js:567-569 | the opening message ends with the topic |
| DiscussionMode.Capitalize | sidepanel/panel.js:853-855 | same length; the first character is upper-cased and the rest are kept |
| DiscussionMode.CrossEvalQuotesReply | sidepanel/panel.js:636-653 | a cross-evaluation request quotes the evaluated reply under its author's name and ends with the request |
| DiscussionMode.FirstEntry | sidepanel/panel.js:615-620 | the first recorded reply of an assistant in a round, with none before it, or -1 |
| DiscussionMode.RecordedReplyIsFound | sidepanel/panel.js:572-620 | an assistant's first reply in a round is the one found later, whatever is recorded after it |
| DiscussionMode.FirstReply | sidepanel/panel.js:617-622 | none exactly when the assistant has no reply recorded for the round; otherwise the content of its first such reply |
| DiscussionMode.RoundReplies | sidepanel/panel.js:606-626 | defined exactly when both participants have a non-empty first reply in the round, and then holds those replies |
| DiscussionMode.CrossEvalSwapsReplies | sidepanel/panel.js:633-657 | each participant is sent the other's reply, never its own |
| DiscussionMode.DiscussionSession.constructor | sidepanel/panel.js:26-34 | the initial state is idle with nothing sent |
| DiscussionMode.DiscussionSession.StartDiscussion | sidepanel/panel.js:525-570 | a blank topic or anything but two participants changes nothing; otherwise round 1, empty history, both awaited, an initial round, and the topic sent to each |
| DiscussionMode.DiscussionSession.Begin | sidepanel/panel.js:540-569 | the new discussion's state and the two topic messages |
| DiscussionMode.DiscussionSession.HandleDiscussionResponse | sidepanel/panel.js:572-595 | outside a discussion nothing changes; otherwise one entry is appended with the current round and round kind, and its author leaves the awaited set; round order is kept |
| DiscussionMode.DiscussionSession.NextRound | sidepanel/panel.js:606-658 | the round number always grows by one first; with both previous replies present, both are awaited and each is sent the other's reply; otherwise nothing else changes |
| DiscussionMode.DiscussionSession.AdvanceRound | sidepanel/panel.js:607 | the round number grows by one and nothing else changes |
| DiscussionMode.DiscussionSession.StartCrossEval | sidepanel/panel.js:629-657 | both participants are awaited in a cross-evaluation round and each is sent the other's reply under the topic |
| DiscussionMode.DiscussionSession.ResetDiscussion | sidepanel/panel.js:825-845 | back to the idle state |
| ResponseRouter.OnResponseCaptured | sidepanel/panel.js:138-147 | a captured reply reaches each mode only when that mode awaits its author; the debate then never files it as late |

## Left out

- `content/grok.js` is not part of this model. It discovers and scrapes the page and uses timers.
- DOM and UI work is not modelled: element lookups, status text, buttons, `log`, `escapeHtml`, the verdict display, `switchMode`, and the participant and debater validators.
- Chrome messaging is replaced by an outbox. `sendToAI` appends to the outbox and `getLatestResponse` reads a snapshot map. Each assistant's latest reply is taken as fixed while one handler runs. `Promise.all` concurrency is not modelled.
- The judge's poll is modelled over a sequence of ticks, one per timer firing. The summary poll of discussion mode is not modelled.
- The older debate engine in `sidepanel/panel.js` (lines 37-55 and 867-1352) is not modelled. `debate.js` replaces it.
- `processConsensusVerdict` and `showConsensusVerdict` are not modelled. They read a `verdicts` field that is never set.
- The interjection handlers are not modelled: `handleDebateInterject`, and `handleInterject` in discussion mode. They only send messages and change no state.
- `generateSummary`, `showSummary`, `onRoundComplete` and `endDiscussion`/`endDebate` are not modelled. They are summary and UI flows, and summary rounds are never recorded as a round kind here.
- Debate prompts are modelled by their structure: which records each one embeds. The verbatim Chinese prose of the templates is left out. The relay and discussion messages are modelled as exact text.
- Late replies carry no `Date.now()` timestamp.
- Strings are sequences of Dafny characters, not UTF-16 code units. Case-insensitive matching and `toLowerCase`/`capitalize` are modelled for ASCII letters only, which covers every name and keyword compared.
- Scores are read with `parseInt` into unbounded naturals. Precision loss on absurdly long digit runs is not modelled.
- DebateEngine.DebateSession.NextDebatePhase: the branch where both debaters are awaited is unreachable here. Phase 0 is only entered by `startDebate`, and an advance always lands on phase 1 or later.
- DebateEngine.DebateSession.RequestVerdict: the source's `capitalize(null)` throws before anything is sent when roles are missing (`sidepanel/panel.js:853-855`). The model leaves the outbox unchanged in that case.
- Where the reliability rules and the written design differ, the model follows the code. A side with no credibility rating counts as 0 and so as low once the other side has a rating. Skill scores are treated the same way.

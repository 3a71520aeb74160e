# cc-connect: a verified model

This project models the algorithmic and protocol parts of cc-connect, a bridge between chat
platforms and coding agents, and proves what they promise. One module follows one component;
value-level functions say what a component computes, classes and methods with loops compute it
the way the program does, and lemmas prove the promises about the functions.

- `Text`, `Decimals`, `Sets`, `Search`: strings, lines, trimming; decimal numbers; counting;
  finding lines and cutting a file at its headers.
- `MessageSplitter*`: cutting a message into chunks while closing and re-opening code fences.
  `MessageSplitterBlocks` says what the chunks are as messages, `MessageSplitterGauge` follows
  the lengths without building chunks, and `MessageSplitterExamples` has single messages.
- `Inline*`: converting inline Markdown by passes of placeholders, restored by repeated sweeps.
  A regular expression is any function from the text to spans that do not overlap, so the
  results hold for whatever it matches. `InlineTokens`, `InlineHtml*`, `InlineRestore` and
  `InlineLayers` work on tokens (runes, keys, tags), `InlineText*`, `InlineRendering` and
  `InlineReading` on the strings they spell; `InlineMarkup` says what comes out for matches of
  each pattern, and `InlineExamples` has inputs that go wrong.
- `Toml*`: the line editor for configuration files: recognising headers and keys, the span
  index, setting agent options and platform credentials, formatting, and the whole write path.
  `TomlHeaders` says which lines are headers and key lines. Headers and basic strings follow
  TOML v1.0.0, sections "Table", "Array of Tables" and "String".
- `LiveSessions`, `LiveSessionActivity`, `LiveSessionRuns`, `LiveSessionOverlaps`: live agent
  processes under a cap per engine and one for the instance, with eviction of the least recently
  used idle session.
- `RateLimiter`, `OutgoingRateLimiter`: a sliding window with garbage collection, and a token
  bucket over real numbers.
- `BridgePreview`: request, acknowledgement and timeout as interleaved atomic steps.
- `Cron`, `CronProperties`, `CronEffects`: the store, the scheduler and the library's entry table,
  and what each operation does to the stored jobs.
- `Attachments`: saving attachments under names that are free.

## Where the code differs from what it says

- Splitter: the comment promises chunks of at most maxLen runes. The code meets maxLen + 3,
  or maxLen + 4 where an opening line alone fills a chunk, because room for the closing fence is
  reserved only once the opening line is in (`WithinLimitIff`, `BoundReached`,
  `LongOpenerReached`). In a block whose fence leaves no room the code drops empty lines and fails
  on others (`LosslessIff`, `TightLine`, `EmptyLineLost`, `SplitSticks`).
- Inline renderer: plain text such as `PH0` between two placeholders spells a key together with
  the NULs around it. The search for key 0 then finds that text and tears the key before it
  apart, whose content is lost (`SearchTears`, `SpoilerSpoils`). Exactly when that happens is
  stated by `RestoredIsRendered`; otherwise the result is the full expansion. Inline code inside
  a link address puts tags into the attribute (`RenderedNests`, `TaggedAddressFails`).
- Configuration values: strconv.Quote writes some control runes in a form TOML v1.0.0 does not
  have; exactly those values do not read back (`QuotedValueReads`).
- Formatter: it removes the header of any section without keys, also a `[[projects]]` header that
  another header follows, which renumbers the projects behind it (`ProjectsKept`) and leaves
  their tables to the project in front.
- Cron: a job whose save fails stays in the store, enabled but unscheduled (`AddJobAgreesIff`).
  Field names outside the documented ones reach the id and the expression without the read-only
  check, the parser and the rescheduling (`UpdateJobAgreesIff`, `IdBreaksAgreement`).
- Bridge: two overlapping calls on one adapter with one ref id lose one of them
  (`SharedRefLosesCall`).
- Live sessions: a reservation and its spawn are not one step; two reservations may both be
  granted for the last slot (`InterleavedReservationsOvershoot`). With n reservations outstanding
  at a time a cap is exceeded by n - 1 at most (`OverlapBound`, `OverlapBoundReached`).

## Model

| member | source | states |
|---|---|---|
| MessageSplitter.SplitMessage | core/markdown_html.go:447-561 | the loop over lines, with its flushes, re-seeds and in-line pieces, returns exactly the chunks of the specification, or `Stuck` where the source would slice with a negative length or repeat for ever |
| MessageSplitter.Splitter.Add | core/markdown_html.go:493-550 | one line: placed whole, placed after a flush, or cut up; the fence state is updated afterwards |
| MessageSplitter.Splitter.SplitWithinLine | core/markdown_html.go:511-538 | the inner loop adds pieces of positive length and ends, or is stuck because no rune fits |
| MessageSplitter.Splitter.Flush | core/markdown_html.go:476-491 | emits the chunk under construction, closes its block and re-seeds the next chunk with the open fence |
| MessageSplitter.ExtendedSnoc | core/markdown_html.go:459-462 | the length accounting: adding a text of n runes costs n + 1 whatever the chunk holds, so currentLen stays one more than the rune count of the joined chunk |
| MessageSplitterProperties.LosslessIff | core/markdown_html.go:447-561 | for every text and every maxLen: dropping the synthetic fences and rejoining the pieces gives back the original lines in order exactly if every line finds room, in a fresh chunk beside the fence of its block (the fence and 6 runes more) or else in the chunk under construction |
| MessageSplitterProperties.RoomInBlocksIff | core/markdown_html.go:474-538 | if opening lines are shorter than a chunk, that is a condition on the fences alone |
| MessageSplitterGauge.RunLen | core/markdown_html.go:457-550 | currentLen and the open fence after any lines follow from the line lengths and the fences alone |
| MessageSplitterGauge.PlaceLen | core/markdown_html.go:493-538 | one line moves currentLen by a rule in four cases: joins the chunk, starts the next, leaves its last part in a chunk of its own, or finds no room |
| MessageSplitterProperties.ChunkLengths | core/markdown_html.go:459-560 | for every lossless split: every chunk has at most maxLen runes unless its last original line opens a block; then at most maxLen + 3 (maxLen + 4 if an opening line alone fills a chunk) |
| MessageSplitterProperties.ChunksSelfContained | core/markdown_html.go:474-558 | each chunk re-opens exactly the fence open before it, closes what is open after it, and adds nothing else |
| MessageSplitterProperties.RunGood | core/markdown_html.go:459-550 | the invariant after every line: the finished chunks and the pieces under construction hold exactly the lines so far, every finished chunk is self-contained and within its bound, and the chunk under construction keeps its limit unless it ends at an opening line |
| MessageSplitterProperties.TightLine | core/markdown_html.go:511-538 | the first line that finds no room is dropped if it is empty and otherwise stops the split |
| MessageSplitterBounds.WithinLimitIff | core/markdown_html.go:442-471 | the documented limit maxLen holds for all chunks exactly if no opening line leaves its chunk without room for the closing fence, by the lengths of the lines |
| MessageSplitterBounds.LateOpenerEmits | core/markdown_html.go:467-485 | an opening line accepted in the last four runes of a chunk yields a chunk beyond the limit |
| MessageSplitterBounds.BoundReached | core/markdown_html.go:467-485 | the bound maxLen + 3 is reached for every maxLen >= 9 |
| MessageSplitterBounds.LongOpenerReached | core/markdown_html.go:467-485 | with an opening line that fills a chunk by itself maxLen + 4 is reached, for every maxLen >= 3 |
| MessageSplitterExamples.EmptyLineLost | core/markdown_html.go:511-538 | a text whose empty lines are lost with maxLen 8: the open fence leaves them no room |
| MessageSplitterExamples.SplitSticks | core/markdown_html.go:511-538 | a text that sticks with that limit, because a line with a rune stands there |
| MessageSplitterBounds.PlainTextWithinLimit | core/markdown_html.go:442-446 | text without fences keeps the documented limit |
| MessageSplitterFences.FenceIff | core/markdown_html.go:540-548 | a line is taken for a fence exactly if its first runes behind white space are three backticks, whatever the indentation and the rest |
| MessageSplitterBlocks.OpenAfterReads | core/markdown_html.go:540-548 | a block is open exactly behind an odd number of such lines, and what is kept of it is the last of them, cut to what is visible |
| MessageSplitterBlocks.ChunksRead | core/markdown_html.go:474-560 | every rendered chunk, read as a message: the opening line of its block, trimmed, if it begins behind an odd number of fence lines; pieces of the text; three backticks if it ends behind an odd number |
| MessageSplitterExamples.IndentedBlock | core/markdown_html.go:447-561 | a message with an indented block and its four chunks, each closed and re-opened with the fence unindented |
| MessageSplitterFences.EvenFences | core/markdown_html.go:474-558 | every chunk, as rendered, has an even number of lines that begin with three backticks behind white space if every line finds room and lines with triple backticks are never cut |
| MessageSplitterFences.EvenFencesShortLines | core/markdown_html.go:447-561 | the same, the bound maxLen + 3 and losslessness, from 2L + 6 <= maxLen for every line of L runes with a triple backtick |
| InlineHtml.Converter.ReplaceByKeys | core/markdown_html.go:315-366 | a placeholder pass: every match becomes the next key, its html is appended to the list; any non-overlapping matches |
| InlineHtml.Converter.NextPlaceholder | core/markdown_html.go:308-313 | keys are numbered in the order of creation |
| InlineHtml.Converter.Unlink | core/markdown_html.go:330-341 | wikilinks give way to their inner part |
| InlineHtml.Converter.Slant | core/markdown_html.go:368-379 | italic matches get tags in place of their stars, the runes around them stay |
| InlineHtml.Convert | core/markdown_html.go:291-379 | all passes in order compute the specified text and placeholder list; what that is as a string is said by OneMatch and TwoMatches |
| InlineMarkup.OneMatch | core/markdown_html.go:315-393 | for each of the eight patterns: if it matches one span of a NUL-free input and the others nothing, the result is the escaped text in front, the literal markup of that pattern around the escaped inner part, and the escaped text behind |
| InlineMarkup.TwoMatches | core/markdown_html.go:315-393 | for each pass that keeps placeholders and each later pass: if the later match encloses the earlier one, the later markup stands around the earlier; the earlier pattern sees the input as it was, the later ones what the earlier left, escaped from bold-italic on |
| InlineHtmlProperties.ConvertedSound | core/markdown_html.go:299-379 | whatever the patterns match: html number k mentions only keys below k, and each key occurs at most once in text and html together |
| InlineHtmlProperties.ExtractSound | core/markdown_html.go:315-366 | each placeholder pass keeps that |
| InlineRestore.SweepsReachAll | core/markdown_html.go:381-393 | as many first-occurrence sweeps as there are placeholders reach the full recursive expansion, and no key is left |
| InlineRestore.SweepLowers | core/markdown_html.go:381-393 | one sweep lowers the highest key present, whatever html it brings in |
| InlineRestore.ReplaceFull | core/markdown_html.go:384-387 | replacing a key by its html leaves the full expansion unchanged |
| InlineHtmlNesting.RenderedNests | core/markdown_html.go:291-396 | the tags of the output nest exactly if no link reached from the text has a placeholder key between `href=` and the end of its address |
| InlineHtmlNesting.RenderedNestsWithoutCodeInAddress | core/markdown_html.go:321-328 | in particular they nest if no inline code stands inside a link address |
| InlineExamples.TaggedAddressFails | core/markdown_html.go:315-328 | an input and matches for which they do not: a link whose address is inline code |
| InlineHtmlNesting.RunFull | core/markdown_html.go:346-366 | expanding keys never disturbs the tags around them |
| InlineHtmlNesting.RenderedEscapedOnce | core/markdown_html.go:315-344 | every rune rendered was escaped exactly once, in code, links and formatted text alike |
| InlineText.UnescapeEscape | core/markdown_html.go:398-404 | the four replacements in turn are undone by reading the entities back, so no rune is escaped twice |
| InlineText.EscapedHarmless | core/markdown_html.go:398-404 | escaped text holds no angle bracket and no double quote |
| InlineText.EscapeRender | core/markdown_html.go:343-344 | escaping the whole string escapes each rune once and leaves every placeholder key as it is |
| InlineReading.PlainSpelled | core/markdown_html.go:343-344 | pass 3 on tokens is escapeHTML on the string they spell |
| InlineReading.HtmlSpelled | core/markdown_html.go:315-366 | each stored html spells the string the source builds, with code, addresses and link texts escaped |
| InlineReading.ReadRender | core/markdown_html.go:291-396 | the spelling of tags and escaped runes reads back as them: no text can be mistaken for a tag or an entity |
| InlineReading.OutputReads | core/markdown_html.go:291-404 | the output string, unless a search is led astray: it reads back as the expansion, holds no key, its tags nest exactly as above, every stretch of text in it has no bracket and no quote and unescapes to its runes, and every rune comes from the input |
| InlineText.RestoreText | core/markdown_html.go:381-393 | the loop over the string with its early exit equals all sweeps |
| InlineTextRestore.ReplaceRenders | core/markdown_html.go:384-387 | replacing the first occurrence of a key string replaces the first such key, unless plain text behind another key that spells it comes before |
| InlineTextRestore.SearchTears | core/markdown_html.go:384-387 | in that case, for any key anywhere, the replacement tears the key in front apart: between two brackets an odd number of NULs is left |
| InlineTextRestore.TornStays | core/markdown_html.go:381-393 | no later replacement mends a torn string, so a NUL stays in the output |
| InlineTextRestore.SweepsRender | core/markdown_html.go:381-393 | all sweeps over the string do what they do on tokens, or tear the string |
| InlineLayers.SweepsAreLayers | core/markdown_html.go:381-393 | each sweep expands exactly one level of nesting |
| InlineLayers.FoundIsStrays | core/markdown_html.go:384-387 | when a key is searched for in the middle of a sweep, the search goes astray exactly if the level of nesting says so: two keys with higher numbers, or two keys in html already put in, enclose text that spells the key, and no such key stands before them |
| InlineRendering.ConvertInline | core/markdown_html.go:291-396 | the passes followed by the sweeps over the string |
| InlineRendering.RestoredIsRendered | core/markdown_html.go:291-396 | for every NUL-free input and all matches: the string result is the full expansion exactly if no search is led astray at any level of nesting, and otherwise NUL is left in the output; no key is left in the expansion |
| InlineRendering.RestoredUnlessSpellable | core/markdown_html.go:291-396 | in particular for every input without P, without H or without digits |
| InlineExamples.SpoilerSpoils | core/markdown_html.go:291-396 | a NUL-free input and matches whose result is not the expansion and holds NUL: `[x](y)PH0[z](w)` followed by inline code |
| TomlLines.ExtractLineComment | config/config.go:3453-3475 | the quote-aware scan returns the comment of the specification |
| TomlLines.ReplaceTomlStringKeyLine | config/config.go:3401-3409 | indentation, key, quoted value and the old comment |
| TomlHeaders.HeaderIff | config/config.go:3338-3348 | a line is taken for a header exactly if, behind white space, it is that header with nothing behind it, or something set off by a blank, a tab or a hash |
| TomlHeaders.NamesDecide | config/config.go:3338-3348 | no table is taken for one whose name is longer or shorter |
| TomlHeaders.AnyHeaderIff | config/config.go:3350-3353 | a line is taken for some header exactly if its first rune behind white space is a bracket |
| TomlHeaders.KeyIff | config/config.go:3355-3365 | a line is taken for that of a key exactly if it begins with the key, and the next rune, white space aside, is the equals sign |
| TomlHeaders.CommentKeepsSpans | config/config.go:3228-3348 | a comment added behind any table header leaves the whole line index as it is |
| TomlHeaders.NoSecondTable | config/config.go:3070-3093 | no options table is made beside one that is indented or has a comment |
| TomlHeaders.NewAgentTable | config/config.go:3070-3088 | in a project without agent tables the edit makes one that reads `claudecode` as its type, and its options table behind it |
| TomlLines.RewriteIs | config/config.go:3401-3475 | rewriting a line of indentation, key, equals sign, any quoted value, blanks and comment gives the indentation, key and new value, and the comment trimmed behind one blank |
| TomlLines.SkipQuoted | config/config.go:3438-3475 | for every value, with quotes, backslashes or hash signs, the comment scanner passes over its quoted form |
| TomlLines.RewriteKeeps | config/config.go:3401-3409 | rewriting a key line keeps its indentation and its comment |
| TomlLines.LastWriteWins | config/config.go:3401-3409 | rewriting with v1 and then v2 equals rewriting with v2 alone |
| TomlValues.QuotedValueReads | config/config.go:3438-3440 | a quoted value reads back as a TOML v1.0.0 basic string exactly if it holds no control rune that strconv.Quote writes as \a, \v or \x |
| TomlValues.RewrittenLineReads | config/config.go:3401-3409 | a rewritten line matches its key, is no header, and reads back as the value |
| TomlValues.KeyMatchUnique | config/config.go:3355-3365 | no line matches two different bare keys |
| TomlSpans.BuildRawProjectSpans | config/config.go:3228-3336 | the scanner computes the specified spans |
| TomlSpans.FindPlatform | config/config.go:3299-3330 | one platform: type line of its main table, first options section |
| TomlSpans.FindProject | config/config.go:3239-3333 | one project: last agent tables, all providers and platforms |
| TomlNesting.WellNested | config/config.go:3228-3336 | projects are ordered, disjoint and tile the file from the first header to the end, platforms likewise inside their project; the agent tables indexed are the last of their project, options table and type line the first of their platform, -1 exactly if there is none; no section body holds a table header, and every provider and platform is listed |
| TomlSections.UpsertTomlStringKey | config/config.go:3381-3399 | sets the key between two line numbers, both clipped to the file: first matching line rewritten, or a new line after the last |
| TomlSections.UpsertedReads | config/config.go:3381-3399 | get after put in one section body |
| TomlSections.UpsertedOthers | config/config.go:3381-3399 | every other bare key keeps its line |
| TomlSections.UpsertedTwice | config/config.go:3381-3399 | the last of two writes wins |
| TomlPatch.PatchProjectAgentOption | config/config.go:3063-3093 | find the project, make missing agent tables, re-index, set the key: equals replacing that project's lines |
| TomlPatch.OnlyThatProject | config/config.go:3063-3093 | the number, the order and the lines of all other projects stay; the edit fails exactly if the index is out of range |
| TomlPatch.PatchedLinesTwice | config/config.go:3063-3093 | last write wins over the whole file, also when the first write made the tables |
| TomlEdits.PatchedReads | config/config.go:3070-3093 | get after put in the project, also when the agent or options tables had to be created |
| TomlEdits.PatchedOthers | config/config.go:3070-3093 | every other option of the agent keeps its line |
| TomlEdits.PatchedFrame | config/config.go:3070-3093 | one line matching the key in the options section is replaced, or lines are inserted at the end of one table, which is the options, else the agent table, else the main table; the line written reads back the value, and every other line survives in order |
| TomlCredentialUpdate.SaveCredentials | config/config.go:2215-2260 | type, options table and keys written by line number with the index rebuilt in between: equals replacing that platform's lines, and fails exactly if there is no such platform |
| TomlCredentialUpdate.IndexComplete | config/config.go:2215-2222 | an index pair is in range exactly if the text has that project and platform |
| TomlCredentialUpdate.NumbersKept | config/config.go:2224-2260 | the number of projects and platforms depends only on the lines around the platform, so every rebuilt index names the same platform |
| TomlCredentialUpdate.OnlyThatPlatform | config/config.go:2215-2260 | all other platforms and projects keep their lines and numbers |
| TomlCredentialUpdate.MakeOptions | config/config.go:2239-2251 | the new options table with its blank lines |
| TomlCredentials.CredentialsRead | config/config.go:2230-2260 | type, app_id, app_secret and allow_from read back as written, whether the lines and tables were there or not |
| TomlCredentials.CredentialsKeepOthers | config/config.go:2230-2260 | every other key of the platform keeps its line |
| TomlCredentialFrame.OtherLinesStay | config/config.go:2224-2260 | every line of the platform, in whichever of its tables, that is not a key line of a written key, blank or an options header survives the update, in order |
| TomlFormat.FormatLines | config/config.go:1696-1760 | both passes and the trimming loops compute the specified lines |
| TomlFormatProperties.MeaningKept | config/config.go:1690-1762 | the non-blank output lines are the input's in order, ends cut, minus headers whose next non-blank line is another header or the end |
| TomlFormat.TrimTailCuts | config/config.go:1722-1760 | what is cut at the end of a line is all its spaces and tabs, and nothing else |
| TomlFormatProperties.LayoutEstablished | config/config.go:1722-1760 | no adjacent blank lines, a blank before every header but a first-line one, none at either end, no trailing spaces or tabs |
| TomlFormatProperties.FixedPoints | config/config.go:1696-1762 | exactly the tidy files without empty sections are left unchanged |
| TomlFormatProperties.FormatTomlTwice | config/config.go:1696-1762 | formatting a whole file twice equals formatting it once |
| TomlSave.ProjectsKept | config/config.go:1699-1720 | the number of projects is kept exactly if no project header is followed by another header or the end, blank lines aside |
| TomlSave.FormatKeepsOption | config/config.go:1696-1762 | formatting keeps the number and every agent option of a project, if no project up to the one behind it has an empty table of its own (also when its only options table is empty and goes) |
| TomlKept.GroupLeft | config/config.go:1699-1720 | the tables of a kind keep their numbers when a file is formatted, as far as those up to the next one are not empty |
| TomlSave.PatchDropsNone | config/config.go:3063-3093 | setting an option leaves a file whose projects all survive formatting in that state |
| TomlSave.SavedReads | config/config.go:3038-3095 | get after put through the whole write path: split, edit, join, format, split again, if no project up to the one behind is dropped |
| TomlSave.SavedKeepsOthers | config/config.go:3038-3095 | every other option of every project keeps its value through the whole write path, if no project up to the one behind it is dropped |
| TomlCredentialSave.SaveFeishuPlatformCredentials | config/config.go:2215-2264 | split, edits by line number, join and format: the written file splits into the formatted lines of the update, and fails exactly if there is no such platform |
| TomlCredentialSave.SavedCredentialsRead | config/config.go:2215-2264 | get after put through the whole write path: type, app_id, app_secret and allow_from read back from the platform of the same numbers in the formatted file, if no project up to that one and no platform in front of it has an empty main table, nor the platform itself unless its type is written |
| TomlCredentialSave.SavedCredentialsKeepOthers | config/config.go:2215-2264 | every other platform keeps its numbers and all its values through the whole write path, if no project and no platform up to the next ones has an empty main table |
| TomlSave.WrittenLines | config/config.go:3208-3226 | splitting the written file gives exactly the formatted lines |
| LiveSessions.EvictOldest | core/live_sessions.go:108-123 | closes at most one session; every candidate with earlier activity refused; false only if all refused; the list shrinks in place |
| LiveSessions.LiveSessionLimiter.EvictLRU | core/live_sessions.go:83-104 | evicts the session with the least time of last use over all engines, with the caller's key excluded |
| LiveSessions.LiveSessionLimiter.LiveCount | core/live_sessions.go:73-79 | the total of the live counts of all engines |
| LiveSessions.Engine.EvictSession | core/live_sessions.go:261-263 | assumed contract: closes exactly that session if its token is unchanged and it is not busy, else changes nothing |
| LiveSessions.Engine.IdleEvictionCandidates | core/live_sessions.go:235-256 | snapshots of exactly the live, idle sessions other than the key to skip |
| LiveSessions.Engine.BeginTurn | core/live_sessions.go:153-161 | one more turn in flight in exactly that state, and the time of last use is now; its session is busy then and no candidate for it can be closed |
| LiveSessions.Engine.EndTurn | core/live_sessions.go:163-173 | one turn less, never below zero, and the time of last use is now; the session is idle again exactly if it was the last and nothing else keeps it busy |
| LiveSessionActivity.IdleIff | core/live_sessions.go:175-206 | what makes a session closable: its process lives, no turn, prompt, queue, resync or lock |
| LiveSessionActivity.SessionsInUseStay | core/live_sessions.go:208-294 | making room for others leaves every session with any of these exactly as it is |
| LiveSessionActivity.LastUseStored | core/live_sessions.go:150-173 | in every run the time stored with a live session is that of the last step that spawned it, or began or ended a turn in it |
| LiveSessionActivity.EvictLeastRecentlyUsed | core/live_sessions.go:83-123 | so of all idle sessions of all engines the one whose last such step lies furthest back in the history is evicted |
| LiveSessions.Engine.LiveSlotAvailable | core/live_sessions.go:274-294 | a granted slot means both counts are below their caps, at once and without evicting if they were; a refusal means no idle session is left under the full cap, or 64 rounds each evicted one |
| LiveSessionRuns.CapsNeverExceeded | core/live_sessions.go:274-342 | in every run that starts within the caps, with each spawn directly following its reservation, neither cap is ever exceeded |
| LiveSessionRuns.NextWithin | core/live_sessions.go:274-342 | each step keeps both caps |
| LiveSessionRuns.BusySessionsKept | core/live_sessions.go:150-263 | in every run a session with turns in flight stays the same session with the same process, busy, as long as fewer turns have ended, unless its own key is closed or replaced |
| LiveSessionRuns.TurnKeepsSession | core/live_sessions.go:150-173 | in particular from the step that begins a turn until that turn ends |
| LiveSessionRuns.InterleavedReservationsOvershoot | core/live_sessions.go:302-342 | two reservations made before either spawn are both granted the last slot, and the spawns exceed the instance cap |
| LiveSessionOverlaps.OverlapBound | core/live_sessions.go:274-342 | in every run with separate reservations and spawns, of which at most n are outstanding at any time, no engine exceeds its cap, and the instance its own, by more than n - 1 |
| LiveSessionOverlaps.OverlapBoundReached | core/live_sessions.go:302-342 | that bound is reached: from any state with one slot left, n reservations and then n spawns for new keys |
| LiveSessions.Engine.SetLiveSessionLimiter | core/live_sessions.go:133-139 | the engine is attached, once however often it is called |
| LiveSessionRuns.NewInstance | core/live_sessions.go:30-69 | engines put together with a shared limiter are all attached, negative caps count as none, and the caps hold at the start |
| LiveSessionRuns.Reserve | core/live_sessions.go:302-318 | the first attempt: granted at once without caps or for a live key, else by the slot check |
| LiveSessionRuns.ReserveLiveSessionSlot | core/live_sessions.go:302-342 | with the waiting loop: granted means a slot is there at the last attempt whatever happened between attempts; given up means the deadline or the stop came first |
| LiveSessionRuns.GetOrCreate | core/engine.go:4247-4483 | a reservation with what it was made for is a run of those steps: reuse, recycling of a process that does not fit, spawn, failed spawn, or a placeholder when no slot was granted |
| LiveSessionRuns.Settle | core/engine.go:4257-4310 | a live process that fits, or that no slot was granted to replace, stays; otherwise the key gets an unused state, alive exactly if a slot was granted and the agent came up, with the messages queued in a placeholder |
| RateLimiter.RateLimiter.Allow | core/ratelimit.go:52-82 | in-place filter, decision and append |
| RateLimiter.RateLimiter.Sweep | core/ratelimit.go:84-103 | deletes exactly the buckets not accessed for two windows |
| RateLimiter.DecidesByHistory | core/ratelimit.go:52-103 | in every run with a monotone clock a message is accepted exactly if fewer than max messages of its key were accepted within the window before it, one accepted a whole window ago no longer counting, whenever buckets were swept |
| RateLimiter.NoWindowExceeds | core/ratelimit.go:52-82 | no window of the configured length ever holds more than max accepted messages of a key |
| RateLimiter.StoredAgrees | core/ratelimit.go:52-103 | the stored timestamps within a window are those of the full history |
| OutgoingRateLimiter.TokenBucket.Refill | core/outgoing_ratelimit.go:85-96 | tokens flow in at the rate, capped, and the clock mark moves |
| OutgoingRateLimiter.OutgoingRateLimiter.BucketFor | core/outgoing_ratelimit.go:68-82 | one bucket per platform, created full |
| OutgoingRateLimiter.OutgoingRateLimiter.Wait | core/outgoing_ratelimit.go:101-132 | among attempts of other callers before each of its wake-ups, it leaves what the run of all attempts leaves; of its own all fail but perhaps the last, and it sends exactly if that one passes. Alone, it leaves the bucket refilled up to the latest time, less one token exactly if it sent; it sends at once if there is a token and otherwise after the computed wait |
| OutgoingRateLimiter.AloneRun | core/outgoing_ratelimit.go:101-132 | alone, a wait that woke up n times is one attempt at the latest of its times |
| OutgoingRateLimiter.TokensBounded | core/outgoing_ratelimit.go:68-132 | tokens stay between 0 and the burst in every run |
| OutgoingRateLimiter.SendsBounded | core/outgoing_ratelimit.go:68-132 | sends to a platform in any interval never exceed the burst plus the rate times its length |
| OutgoingRateLimiter.RefusedIff | core/outgoing_ratelimit.go:85-132 | in every run a message is refused exactly if, from some time on, what was sent leaves less than one token of the burst and the inflow since: the budget is kept, and no message waits without need |
| OutgoingRateLimiter.OneWaitExact | core/outgoing_ratelimit.go:101-132 | a sole waiter has a token exactly when the computed wait is over |
| OutgoingRateLimiter.BudgetKept | core/outgoing_ratelimit.go:85-132 | sent plus left never exceeds a full bucket plus the inflow |
| OutgoingRateLimiter.BurstAtLeastOne | core/outgoing_ratelimit.go:20-25 | the burst is the configured one, or else the rate rounded up; an enabled bucket always has room for a whole token |
| BridgePreview.StepKeepsInv | core/bridge.go:525-569 | every atomic step of every call and acknowledgement keeps the invariant |
| BridgePreview.HandshakeSafe | core/bridge.go:525-569 | in every interleaving in which no two overlapping calls on one adapter have the same ref id: an acknowledgement never blocks, a channel gets at most one handle, at most one acknowledgement takes the entry of a call and a returned handle is exactly that one's, no finished call stays in the map |
| BridgePreview.TakenByTakers | core/bridge.go:1051-1067 | the history kept with a call is that of the acknowledgements in the run that found its entry |
| BridgePreview.AckIsReturned | core/bridge.go:1051-1067 | the acknowledgement of a waiting call is what that call returns |
| BridgePreview.ResultsExplained | core/bridge.go:525-569 | in every run a call that ended did so for the reason it returns: no preview on its adapter when it was made, a message not sent, a timeout, a cancelled context, or the handle in its channel |
| BridgePreview.SharedRefLosesCall | core/bridge.go:540-569 | from the initial state, two overlapping calls started with one ref id: the first to give up deletes the entry of the other, which no acknowledgement can reach any more |
| BridgePreview.AckTakes | core/bridge.go:1051-1067 | an acknowledgement takes its entry out of the map and keeps the invariant |
| Cron.CronScheduler.AddJob | core/cron.go:481-496 | validated, stored and scheduled as specified, with the failing save |
| Cron.CronScheduler.UpdateJob | core/cron.go:534-612 | field checks, unscheduling, writing back and rescheduling as specified |
| Cron.CronScheduler.ScheduleJob | core/cron.go:634-652 | replaces the job's library entry and records the new one |
| Cron.CronScheduler.Start | core/cron.go:463-475 | schedules the enabled stored jobs |
| Cron.CronStore.Update | core/cron.go:283-303 | sets one field of the stored job |
| CronEffects.AddEffect | core/cron.go:481-496 | a well-formed job is appended at the end with its session mode in one spelling, any other changes nothing; it has an entry exactly if saved and enabled |
| CronEffects.RemoveEffect | core/cron.go:498-506 | exactly the job with that id goes, with its entry; all others keep their order and fields |
| CronEffects.EnableEffect | core/cron.go:508-517 | exactly the job with that id is set enabled, and has its entry if its expression parses; success means just that |
| CronEffects.DisableEffect | core/cron.go:519-530 | exactly the job with that id is set disabled, and has no entry |
| CronEffects.FieldsTell | core/cron.go:23-47 | jobs that agree in every field are the same, so what is said of all fields is said of the job |
| CronEffects.SetTakes | core/cron.go:306-409 | a field is set only if the value goes into it: a string under any name that leads to a string field, other values under the field's own name |
| CronEffects.TakesSets | core/cron.go:306-409 | then exactly that field gets the value and every other field stays |
| CronEffects.UpdateRejects | core/cron.go:534-598 | nothing in the list changes and UpdateJob fails if there is no such job, a check fails, the name is read-only, or no field takes the value |
| CronEffects.UpdateSets | core/cron.go:534-612 | otherwise exactly the field that takes the value changes, in exactly the job with that id, and its entry follows |
| CronEffects.EnabledAsLeft | core/cron.go:463-612 | in every sequential run a job is there and enabled exactly as the last operation on it left it |
| CronProperties.EveryRunAgrees | core/cron.go:463-652 | in every sequential run after Start the scheduled ids are exactly the enabled stored jobs, with exactly one library entry each and no orphans |
| CronProperties.StartAgrees | core/cron.go:463-475 | Start establishes that agreement |
| CronProperties.AddJobAgreesIff | core/cron.go:481-496 | AddJob keeps it exactly if it rejects the job, or the id is new and the job is saved or disabled |
| CronProperties.RemoveJobAgrees | core/cron.go:498-506 | RemoveJob keeps it |
| CronProperties.EnableJobAgrees | core/cron.go:508-517 | EnableJob keeps it; after success the job with that id is enabled and scheduled |
| CronProperties.DisableJobAgrees | core/cron.go:519-530 | DisableJob keeps it; after success the job with that id is disabled and has no entry |
| CronProperties.UpdateJobAgrees | core/cron.go:534-612 | UpdateJob keeps it for every field name that does not reach the id or the expression by reflection |
| CronProperties.IdBreaksAgreement | core/cron.go:534-612 | a new id for an enabled job under the field name `ID` breaks the agreement |
| CronProperties.UpdateJobAgreesIff | core/cron.go:534-612 | it keeps it exactly for those field names, or if there is no such job, the value does not change, or the job is disabled and the new id is unused or the new expression parses |
| Attachments.Directory.WriteUnique | core/message.go:220-250 | takes the first free candidate name within existing names + 1 tries and never replaces a file |
| Attachments.Directory.SaveFiles | core/message.go:157-216 | paths are new and distinct, each is a candidate of its sender's sanitized name, or of the made-up name if that is empty, and holds its own bytes; nothing else changes, failing files are skipped |
| Attachments.SanitizeKeepsBase | core/message.go:301-311 | what is left of a name is what stands behind its last separator of either kind, trailing ones aside, unless that is a dot name |
| Attachments.SanitizeSeparators | core/message.go:301-311 | a name of nothing but separators leaves one, and the empty name nothing |
| Attachments.CandidateShape | core/message.go:223-231 | the candidates are the name itself, and then its stem with an underscore and the number in front of its extension |
| Attachments.AllTaken | core/message.go:220-250 | pigeonhole: n existing candidates need n files |
| Attachments.CandidatesDiffer | core/message.go:223-231 | candidate names of different numbers differ |
| Attachments.SanitizedIsBaseName | core/message.go:301-311 | a sanitized name has no separator and is no dot name |

## Left out

- MessageSplitterFences.EvenFences: gives a sufficient condition only, because cutting a line can also make or hide fences in pairs.
- InlineRendering.RestoredUnlessSpellable: gives a sufficient condition on the input only, because which runes end up between two keys depends on what the patterns match; the exact condition of RestoredIsRendered is on the text before restoring.
- BridgePreview.HandshakeSafe: the state is a value with one action per critical section instead of objects with locks; goroutines are interleaved steps.
- LiveSessions.Engine.EvictSession: closing a process is the assumed contract of closeIdleInteractiveState in core/engine.go, taken as one atomic step without the time a process needs to exit.
- LiveSessionRuns.GetOrCreate: that no other goroutine acts between the granted reservation and the spawn is part of the model; InterleavedReservationsOvershoot shows what happens otherwise. Resuming conversations and messages to the user are not modelled.
- OutgoingRateLimiter.OutgoingRateLimiter.Wait: numbers are reals, rounding is not modelled; the clock is a sequence of wake-up times given to the method, and so is what other callers attempt in between; each attempt is one critical section.
- RateLimiter.RateLimiter.Allow: the clock is a parameter in whole units, and locking is not modelled because each method is one critical section.
- TomlPatch.PatchProjectAgentOption: the project number comes from the TOML library, which is not part of this model; that the library and the line index count projects alike is not shown.
- TomlSave.SavedReads: reading a value means the first matching line of the last agent options table, not a whole TOML parser; multi-line strings and dotted or quoted keys are not modelled.
- TomlCredentialSave.SaveFeishuPlatformCredentials: finding the platform in the parsed file and merging the list of allowed users are left to the caller.
- TomlCredentialSave.SavedCredentialsRead: the condition on empty tables is sufficient, not necessary; when some are dropped, the numbers may shift so that another platform answers to them.
- TomlSections.UpsertTomlStringKey: the slice is a sequence that is reassigned, so aliasing with the caller's slice is not modelled.
- TomlValues.QuotedValueReads: text is a sequence of valid runes; which runes above ASCII count as printable is a parameter.
- InlineHtml.Converter.ReplaceByKeys: a match begins and ends between tokens; a boundary rune that the italic pattern takes from a key is copied unchanged, which the model expresses by a shorter match.
- Cron.CronScheduler.UpdateJob: of the fields reachable by reflection only the ones with an effect on scheduling are distinguished.
- Attachments.Directory.SaveFiles: the case without a message id, which overwrites, is left out; so are directory creation and permissions.
- Which text a regular expression matches, and the block-level parts of the Markdown converter (tables, quotes, lists).
- Files, sockets, HTTP, WebSocket, JSON and the TOML library; saving a file is an atomic assignment.
- upsertTomlRawKey, the project, provider and settings editors and the management handlers, which would add only members like those above.
